/**
 * The bytes of an Engram table on disk: the checkpoint, where weights and scales lie far apart, and the
 * packed shard, where each owned row is one 264-byte record behind a 4096-byte header.
 */
module RowFiles {
  import opened Wrappers
  import opened Arithmetic
  import opened Rows

  const PAGE: nat := 4096
  const PACKED_HEADER: nat := 4096
  const PACKED_MAGIC: nat := 0x31344e4531565344
  const BUFFER_BYTES: nat := 8192

  // ---------------------------------------------------------------- little-endian integers

  function Power256(n: nat): nat {
    if n == 0 then 1 else 256 * Power256(n - 1)
  }

  function ToLe(x: nat, n: nat): (b: Bytes)
    ensures |b| == n
  {
    if n == 0 then [] else [(x % 256) as byte] + ToLe(x / 256, n - 1)
  }

  function FromLe(b: Bytes): nat {
    if b == [] then 0 else b[0] as nat + 256 * FromLe(b[1..])
  }

  lemma {:induction false} LeRoundTrip(x: nat, n: nat)
    requires x < Power256(n)
    ensures FromLe(ToLe(x, n)) == x
  {
    if n > 0 {
      LeRoundTrip(x / 256, n - 1);
      assert ToLe(x, n)[1..] == ToLe(x / 256, n - 1);
    }
  }

  lemma PowerPositive(n: nat)
    ensures Power256(n) >= 1
  {
  }

  /** Byte i is the i-th digit of the number in base 256, the lowest one first. */
  lemma {:induction false} LeByte(x: nat, n: nat, i: nat)
    requires i < n
    ensures Power256(i) >= 1 && ToLe(x, n)[i] as nat == x / Power256(i) % 256
  {
    PowerPositive(i);
    if i > 0 {
      PowerPositive(i - 1);
      LeByte(x / 256, n - 1, i - 1);
      DivTwice(x, 256, Power256(i - 1));
    }
  }

  lemma DivTwice(x: nat, a: nat, b: nat)
    requires a >= 1 && b >= 1
    ensures a * b >= 1 && x / a / b == x / (a * b)
  {
    MulMono(1, a, b);
    DivMod(x, a);
    DivMod(x / a, b);
    var q, r := x / a / b, x / a % b * a + x % a;
    assert x == (q * b + x / a % b) * a + x % a;
    assert (q * b + x / a % b) * a == q * (a * b) + x / a % b * a;
    assert r < a * b by {
      MulMono(x / a % b + 1, b, a);
      Successor(x / a % b, a);
    }
    DivModUnique(q, r, a * b);
  }

  // ---------------------------------------------------------------- the checkpoint

  /** A checkpoint file with the geometry that tensor_span reads from its header. */
  datatype Checkpoint = Checkpoint(file: Bytes, rows: nat, weightOffset: nat, scaleOffset: nat)

  /** The extent test of row_store_open. */
  predicate InExtent(c: Checkpoint) {
    && c.weightOffset <= |c.file| && c.scaleOffset <= |c.file|
    && c.rows <= (|c.file| - c.weightOffset) / WEIGHT_BYTES
    && c.rows <= (|c.file| - c.scaleOffset) / SCALE_BYTES
  }

  /** It says that both tensors lie inside the file. */
  lemma ExtentMeans(c: Checkpoint)
    ensures InExtent(c) <==> c.weightOffset + c.rows * WEIGHT_BYTES <= |c.file| && c.scaleOffset + c.rows * SCALE_BYTES <= |c.file|
  {
  }

  function WeightsOf(c: Checkpoint, id: nat): Bytes
    requires InExtent(c) && id < c.rows
  {
    c.file[c.weightOffset + id * WEIGHT_BYTES..c.weightOffset + (id + 1) * WEIGHT_BYTES]
  }

  function ScalesOf(c: Checkpoint, id: nat): Bytes
    requires InExtent(c) && id < c.rows
  {
    c.file[c.scaleOffset + id * SCALE_BYTES..c.scaleOffset + (id + 1) * SCALE_BYTES]
  }

  function RowOf(c: Checkpoint, id: nat): (r: Bytes)
    requires InExtent(c) && id < c.rows
    ensures |r| == ROW_BYTES
  {
    WeightsOf(c, id) + ScalesOf(c, id)
  }

  /** The table that the checkpoint stores. */
  function TableOf(c: Checkpoint): (t: seq<Bytes>)
    requires InExtent(c)
    ensures |t| == c.rows && forall id :: 0 <= id < c.rows ==> t[id] == RowOf(c, id)
  {
    seq(c.rows, id requires 0 <= id < c.rows => RowOf(c, id))
  }

  // ---------------------------------------------------------------- reading

  /** pread, when it is ready to deliver `give` bytes: a prefix of what was asked for and of what the file still holds. */
  method Pread(file: Bytes, want: nat, offset: nat, give: nat) returns (got: Bytes)
    ensures |got| == if offset > |file| then 0 else Min(give, Min(want, |file| - offset))
    ensures offset <= |file| ==> got == file[offset..offset + |got|]
  {
    got := if offset > |file| then [] else file[offset..offset + Min(give, Min(want, |file| - offset))];
  }

  function AlignDown(x: nat): nat {
    x / PAGE * PAGE
  }

  function AlignUp(x: nat): nat {
    (x + PAGE - 1) / PAGE * PAGE
  }

  lemma AlignFacts(x: nat)
    ensures AlignDown(x) <= x < AlignDown(x) + PAGE && x - AlignDown(x) == x % PAGE && x <= AlignUp(x) < x + PAGE
    ensures AlignDown(x) % PAGE == 0 && AlignUp(x) % PAGE == 0
    ensures x <= BUFFER_BYTES ==> AlignUp(x) <= BUFFER_BYTES
  {
  }

  /** pread on a direct descriptor into an 8 KiB buffer: offset and length must be whole pages. */
  method DirectPread(file: Bytes, want: nat, offset: nat, give: nat) returns (got: Bytes)
    requires offset % PAGE == 0 && want % PAGE == 0 && want <= BUFFER_BYTES
    ensures |got| == if offset > |file| then 0 else Min(give, Min(want, |file| - offset))
    ensures offset <= |file| ==> got == file[offset..offset + |got|]
  {
    got := Pread(file, want, offset, give);
  }

  /** The bytes are in the file, and the read delivers all of them behind what alignment puts before them. */
  predicate Arrives(file: Bytes, offset: nat, length: nat, give: nat) {
    give >= offset % PAGE + length && offset + length <= |file|
  }

  /**
   * read_from on a direct descriptor: one aligned read into an 8 KiB buffer. It is given up (abort) exactly
   * when the bytes do not arrive.
   */
  method ReadFrom(file: Bytes, offset: nat, length: nat, give: nat) returns (ok: bool, out: Bytes)
    requires 1 <= length <= ROW_BYTES
    ensures ok <==> Arrives(file, offset, length, give)
    ensures ok ==> out == file[offset..offset + length]
  {
    AlignFacts(offset);
    var base := AlignDown(offset);
    var delta := offset - base;
    var requested := AlignUp(delta + length);
    AlignFacts(delta + length);
    assert requested <= BUFFER_BYTES && delta + length <= requested;
    var page := DirectPread(file, requested, base, give);
    ok := |page| >= delta + length;
    out := [];
    if ok {
      SliceOfSlice(file, base, |page|, delta, length);
      out := page[delta..delta + length];
    }
  }

  lemma SliceOfSlice(file: Bytes, base: nat, n: nat, at: nat, length: nat)
    requires at + length <= n && base + n <= |file|
    ensures file[base..base + n][at..at + length] == file[base + at..base + at + length]
  {
    var a, b := file[base..base + n][at..at + length], file[base + at..base + at + length];
    forall k | 0 <= k < length ensures a[k] == b[k] {}
    assert a == b;
  }

  // ---------------------------------------------------------------- the packed shard

  predicate IsU64(x: nat) {
    x < Power256(8)
  }

  /** struct.pack('<6Q', ...) */
  function Words(xs: seq<nat>): (b: Bytes)
    ensures |b| == 8 * |xs|
  {
    if xs == [] then [] else ToLe(xs[0], 8) + Words(xs[1..])
  }

  function HeaderBytes(layer: nat, lo: nat, hi: nat, rows: nat): (h: Bytes)
    ensures |h| == PACKED_HEADER
  {
    Words([PACKED_MAGIC, layer, lo, hi, rows, ROW_BYTES]) + Zeros(PACKED_HEADER - 48)
  }

  /** The header holds magic, layer, range, table size and record size, eight bytes each, and then zeros. */
  lemma HeaderByte(layer: nat, lo: nat, hi: nat, rows: nat, k: nat, i: nat)
    requires k < 512 && i < 8
    ensures Power256(i) >= 1
    ensures HeaderBytes(layer, lo, hi, rows)[8 * k + i] as nat
      == if k < 6 then [0x31344e4531565344, layer, lo, hi, rows, 264][k] / Power256(i) % 256 else 0
  {
    var xs := [PACKED_MAGIC, layer, lo, hi, rows, ROW_BYTES];
    PowerPositive(i);
    if k < 6 { WordByte(xs, k, i); }
  }

  lemma {:induction false} WordByte(xs: seq<nat>, k: nat, i: nat)
    requires k < |xs| && i < 8
    ensures Power256(i) >= 1 && Words(xs)[8 * k + i] as nat == xs[k] / Power256(i) % 256
  {
    if k == 0 {
      LeByte(xs[0], 8, i);
    } else {
      WordByte(xs[1..], k - 1, i);
      assert Words(xs)[8 * k + i] == Words(xs[1..])[8 * (k - 1) + i];
    }
  }

  function Field(file: Bytes, k: nat): nat
    requires |file| >= 8 * k + 8
  {
    FromLe(file[8 * k..8 * k + 8])
  }

  /** Whether row_store_attach_packed accepts a file for this layer and this rank's range. */
  predicate Accepts(file: Bytes, layer: nat, lo: nat, hi: nat, rows: nat)
    requires lo <= hi
  {
    && |file| >= PAGE
    && Field(file, 0) == PACKED_MAGIC && Field(file, 1) == layer && Field(file, 2) == lo && Field(file, 3) == hi
    && Field(file, 4) == rows && Field(file, 5) == ROW_BYTES
    && |file| >= PACKED_HEADER + (hi - lo) * ROW_BYTES
  }

  /** The six words of the header and the length decide, and nothing else. */
  lemma AcceptsMeans(file: Bytes, layer: nat, lo: nat, hi: nat, rows: nat)
    requires lo <= hi
    ensures Accepts(file, layer, lo, hi, rows) <==>
      && |file| >= 4096 + (hi - lo) * 264
      && forall k :: 0 <= k < 6 ==> FromLe(file[8 * k..8 * k + 8]) == [0x31344e4531565344, layer, lo, hi, rows, 264][k]
  {
    var words := [0x31344e4531565344, layer, lo, hi, rows, 264];
    MulMono(0, hi - lo, ROW_BYTES);
    if |file| >= 4096 {
      assert forall k :: 0 <= k < 6 ==> FromLe(file[8 * k..8 * k + 8]) == Field(file, k);
      assert words[0] == PACKED_MAGIC && words[1] == layer && words[2] == lo && words[3] == hi && words[4] == rows && words[5] == 264;
    }
  }

  function Records(c: Checkpoint, lo: nat, hi: nat): (r: Bytes)
    requires InExtent(c) && lo <= hi <= c.rows
    ensures |r| == (hi - lo) * ROW_BYTES
    decreases hi
  {
    if lo == hi then [] else Records(c, lo, hi - 1) + RowOf(c, hi - 1)
  }

  function Shard(c: Checkpoint, layer: nat, lo: nat, hi: nat): Bytes
    requires InExtent(c) && lo <= hi <= c.rows
  {
    HeaderBytes(layer, lo, hi, c.rows) + Records(c, lo, hi)
  }

  /** The offset of a record in a packed file whose range begins at lo. */
  function RecordOffset(id: nat, lo: nat): nat
    requires lo <= id
  {
    PACKED_HEADER + (id - lo) * ROW_BYTES
  }

  lemma {:induction false} RecordAt(c: Checkpoint, lo: nat, hi: nat, id: nat)
    requires InExtent(c) && lo <= id < hi <= c.rows
    ensures Records(c, lo, hi)[(id - lo) * ROW_BYTES..(id - lo + 1) * ROW_BYTES] == RowOf(c, id)
    decreases hi
  {
    if id < hi - 1 {
      RecordAt(c, lo, hi - 1, id);
    }
  }

  lemma RecordFits(c: Checkpoint, layer: nat, lo: nat, hi: nat, id: nat)
    requires InExtent(c) && lo <= hi <= c.rows && lo <= id
    ensures RecordOffset(id, lo) + ROW_BYTES <= |Shard(c, layer, lo, hi)| <==> id < hi
  {
    Successor(id - lo, ROW_BYTES);
    if id < hi { MulMono(id - lo + 1, hi - lo, ROW_BYTES); } else { MulMono(hi - lo, id - lo, ROW_BYTES); }
  }

  /** The record of an owned row, at the offset fetch_row computes. */
  lemma ShardRecord(c: Checkpoint, layer: nat, lo: nat, hi: nat, id: nat)
    requires InExtent(c) && lo <= id < hi <= c.rows
    ensures var f, at := Shard(c, layer, lo, hi), RecordOffset(id, lo);
      at + ROW_BYTES <= |f| && f[at..at + ROW_BYTES] == RowOf(c, id)
  {
    RecordAt(c, lo, hi, id);
    var f, r, at := Shard(c, layer, lo, hi), Records(c, lo, hi), (id - lo) * ROW_BYTES;
    assert f[PACKED_HEADER + at..PACKED_HEADER + at + ROW_BYTES] == r[at..at + ROW_BYTES];
  }

  lemma {:induction false} WordAt(xs: seq<nat>, rest: Bytes, k: nat)
    requires k < |xs| && IsU64(xs[k])
    ensures Field(Words(xs) + rest, k) == xs[k]
  {
    var f := Words(xs) + rest;
    if k == 0 {
      assert f[0..8] == ToLe(xs[0], 8);
      LeRoundTrip(xs[0], 8);
    } else {
      WordAt(xs[1..], rest, k - 1);
      assert f[8 * k..8 * k + 8] == (Words(xs[1..]) + rest)[8 * (k - 1)..8 * (k - 1) + 8];
    }
  }

  lemma HeaderFields(layer: nat, lo: nat, hi: nat, rows: nat, rest: Bytes)
    requires IsU64(layer) && IsU64(lo) && IsU64(hi) && IsU64(rows)
    ensures var f := HeaderBytes(layer, lo, hi, rows) + rest;
      && Field(f, 0) == PACKED_MAGIC && Field(f, 1) == layer && Field(f, 2) == lo && Field(f, 3) == hi
      && Field(f, 4) == rows && Field(f, 5) == ROW_BYTES
  {
    var xs, pad := [PACKED_MAGIC, layer, lo, hi, rows, ROW_BYTES], Zeros(PACKED_HEADER - 48);
    assert Power256(8) == 0x1_0000_0000_0000_0000;
    assert HeaderBytes(layer, lo, hi, rows) + rest == Words(xs) + (pad + rest);
    forall k | 0 <= k < 6 ensures Field(Words(xs) + (pad + rest), k) == xs[k] { WordAt(xs, pad + rest, k); }
  }

  /** A shard is accepted by exactly the rank and layer that it was packed for. */
  lemma AcceptsOwnShard(c: Checkpoint, layer: nat, lo: nat, hi: nat, layer': nat, lo': nat, hi': nat, rows': nat)
    requires InExtent(c) && lo <= hi <= c.rows && lo' <= hi'
    requires IsU64(layer) && IsU64(c.rows)
    ensures Accepts(Shard(c, layer, lo, hi), layer', lo', hi', rows')
      <==> (layer' == layer && lo' == lo && hi' == hi && rows' == c.rows)
  {
    HeaderFields(layer, lo, hi, c.rows, Records(c, lo, hi));
  }

  /** numpy's block: row i is 256 bytes of weights[i] followed by 8 bytes of scales[i]. */
  function Interleave(weights: Bytes, scales: Bytes, n: nat): (b: Bytes)
    requires |weights| == n * WEIGHT_BYTES && |scales| == n * SCALE_BYTES
    ensures |b| == n * ROW_BYTES
  {
    if n == 0 then []
    else Interleave(weights[..(n - 1) * WEIGHT_BYTES], scales[..(n - 1) * SCALE_BYTES], n - 1)
         + weights[(n - 1) * WEIGHT_BYTES..] + scales[(n - 1) * SCALE_BYTES..]
  }

  lemma {:induction false} InterleaveRecords(c: Checkpoint, lo: nat, hi: nat)
    requires InExtent(c) && lo <= hi <= c.rows
    ensures var w, s := c.weightOffset + lo * WEIGHT_BYTES, c.scaleOffset + lo * SCALE_BYTES;
      Interleave(c.file[w..w + (hi - lo) * WEIGHT_BYTES], c.file[s..s + (hi - lo) * SCALE_BYTES], hi - lo)
      == Records(c, lo, hi)
    decreases hi
  {
    if lo < hi {
      var n, w, s := hi - lo, c.weightOffset + lo * WEIGHT_BYTES, c.scaleOffset + lo * SCALE_BYTES;
      var weights, scales := c.file[w..w + n * WEIGHT_BYTES], c.file[s..s + n * SCALE_BYTES];
      assert weights[..(n - 1) * WEIGHT_BYTES] == c.file[w..w + (n - 1) * WEIGHT_BYTES];
      assert scales[..(n - 1) * SCALE_BYTES] == c.file[s..s + (n - 1) * SCALE_BYTES];
      assert weights[(n - 1) * WEIGHT_BYTES..] == WeightsOf(c, hi - 1);
      assert scales[(n - 1) * SCALE_BYTES..] == ScalesOf(c, hi - 1);
      InterleaveRecords(c, lo, hi - 1);
    }
  }

  lemma {:induction false} RecordsAppend(c: Checkpoint, lo: nat, mid: nat, hi: nat)
    requires InExtent(c) && lo <= mid <= hi <= c.rows
    ensures Records(c, lo, mid) + Records(c, mid, hi) == Records(c, lo, hi)
    decreases hi
  {
    if mid < hi { RecordsAppend(c, lo, mid, hi - 1); }
  }

  /** One chunk: both tensors are read for rows [start, stop) and interleaved, unless a read falls short. */
  method ReadChunk(c: Checkpoint, start: nat, stop: nat, give: nat, give': nat) returns (ok: bool, block: Bytes)
    requires InExtent(c) && start <= stop <= c.rows
    ensures ok <==> give >= (stop - start) * WEIGHT_BYTES && give' >= (stop - start) * SCALE_BYTES
    ensures ok ==> block == Records(c, start, stop)
  {
    var n := stop - start;
    var weights := Pread(c.file, n * WEIGHT_BYTES, c.weightOffset + start * WEIGHT_BYTES, give);
    var scales := Pread(c.file, n * SCALE_BYTES, c.scaleOffset + start * SCALE_BYTES, give');
    if |weights| != n * WEIGHT_BYTES || |scales| != n * SCALE_BYTES {
      return false, [];
    }
    InterleaveRecords(c, start, stop);
    ok, block := true, Interleave(weights, scales, n);
  }

  /** A target of the right size is taken as complete. */
  predicate Complete(existing: Option<Bytes>, lo: nat, hi: nat)
    requires lo <= hi
  {
    existing.Some? && |existing.value| == PACKED_HEADER + (hi - lo) * ROW_BYTES
  }

  /** From row start on, in chunks, each of the two reads delivers its whole chunk; give(k) is the next one's readiness. */
  predicate AllDelivered(start: nat, hi: nat, chunkRows: nat, give: nat -> nat, k: nat)
    requires chunkRows >= 1
    decreases hi - start
  {
    start >= hi ||
    var n := Min(chunkRows, hi - start);
    give(k) >= n * WEIGHT_BYTES && give(k + 1) >= n * SCALE_BYTES && AllDelivered(start + n, hi, chunkRows, give, k + 2)
  }

  /** One turn of pack_layer's loop. */
  method PackChunk(c: Checkpoint, start: nat, hi: nat, chunkRows: nat, give: nat -> nat, k: nat)
    returns (ok: bool, block: Bytes, stop: nat)
    requires InExtent(c) && start < hi <= c.rows && chunkRows >= 1
    ensures start < stop <= hi
    ensures AllDelivered(start, hi, chunkRows, give, k) <==> ok && AllDelivered(stop, hi, chunkRows, give, k + 2)
    ensures ok ==> block == Records(c, start, stop)
  {
    stop := Min(start + chunkRows, hi);
    ok, block := ReadChunk(c, start, stop, give(k), give(k + 1));
    assert stop - start == Min(chunkRows, hi - start);
  }

  /**
   * pack_layer: the file left at the target. A target of the right size is kept; otherwise the shard is
   * built chunk by chunk, and the run is given up exactly when a read of the checkpoint falls short.
   */
  method PackLayer(c: Checkpoint, layer: nat, lo: nat, hi: nat, chunkRows: nat, existing: Option<Bytes>, give: nat -> nat)
    returns (ok: bool, target: Bytes)
    requires InExtent(c) && lo <= hi <= c.rows && chunkRows >= 1
    ensures ok <==> Complete(existing, lo, hi) || AllDelivered(lo, hi, chunkRows, give, 0)
    ensures ok ==> target == if Complete(existing, lo, hi) then existing.value else Shard(c, layer, lo, hi)
  {
    var expected := PACKED_HEADER + (hi - lo) * ROW_BYTES;
    if existing.Some? && |existing.value| == expected {
      return true, existing.value;
    }
    var body: Bytes;
    ok, body := PackRecords(c, lo, hi, chunkRows, give);
    target := if ok then HeaderBytes(layer, lo, hi, c.rows) + body else [];
  }

  /** What follows the header, chunk by chunk. */
  method PackRecords(c: Checkpoint, lo: nat, hi: nat, chunkRows: nat, give: nat -> nat) returns (ok: bool, body: Bytes)
    requires InExtent(c) && lo <= hi <= c.rows && chunkRows >= 1
    ensures ok <==> AllDelivered(lo, hi, chunkRows, give, 0)
    ensures ok ==> body == Records(c, lo, hi)
  {
    var start, k := lo, 0;
    body := [];
    ghost var all := AllDelivered(lo, hi, chunkRows, give, 0);
    while start < hi
      invariant lo <= start <= hi && body == Records(c, lo, start)
      invariant all == AllDelivered(start, hi, chunkRows, give, k)
    {
      var block: Bytes, stop: nat;
      ok, block, stop := PackChunk(c, start, hi, chunkRows, give, k);
      if !ok { return false, []; }
      RecordsAppend(c, lo, start, stop);
      body := body + block;
      start, k := stop, k + 2;
    }
    ok := true;
  }
}
