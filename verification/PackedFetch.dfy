/** Packing, opening, setting the range, attaching and fetching, one after the other. */
module PackedFetch {
  import opened Arithmetic
  import opened Rows
  import opened Wrappers
  import opened RowFiles
  import opened RowStore
  import opened RankRows

  lemma RangeFits(rows: nat, rank: nat, tp: nat)
    requires tp >= 1 && rank < tp
    ensures Start(rows, rank, tp) <= Start(rows, rank + 1, tp) <= rows
  {
    StartMono(rows, rank, rank + 1, tp);
    StartMono(rows, rank + 1, tp, tp);
    Ends(rows, tp);
  }

  /** What the packer writes for a rank. */
  function ShardOf(c: Checkpoint, layer: nat, rank: nat, tp: nat): Bytes
    requires InExtent(c) && tp >= 1 && rank < tp
  {
    RangeFits(c.rows, rank, tp);
    Shard(c, layer, Start(c.rows, rank, tp), Start(c.rows, rank + 1, tp))
  }

  /** A file of the size the packer expects, which it therefore keeps. */
  predicate Kept(c: Checkpoint, rank: nat, tp: nat, existing: Option<Bytes>)
    requires tp >= 1 && rank < tp
  {
    RangeFits(c.rows, rank, tp);
    Complete(existing, Start(c.rows, rank, tp), Start(c.rows, rank + 1, tp))
  }

  /** The header names this layer, this rank's range, and the table's size. */
  predicate Fits(c: Checkpoint, layer: nat, rank: nat, tp: nat, file: Bytes)
    requires tp >= 1 && rank < tp
  {
    RangeFits(c.rows, rank, tp);
    Accepts(file, layer, Start(c.rows, rank, tp), Start(c.rows, rank + 1, tp), c.rows)
  }

  /** The record that fetch_row reads for an owned id. */
  function RecordOf(c: Checkpoint, rank: nat, tp: nat, file: Bytes, id: nat): Bytes
    requires tp >= 1 && rank < tp && Owns(c.rows, rank, tp, id)
  {
    var at := RecordOffset(id, Start(c.rows, rank, tp));
    if at + ROW_BYTES <= |file| then file[at..at + ROW_BYTES] else []
  }

  /** The packer finds its target complete, or every one of its reads delivers its chunk. */
  predicate Packs(c: Checkpoint, rank: nat, tp: nat, chunkRows: nat, existing: Option<Bytes>, give: nat -> nat)
    requires tp >= 1 && rank < tp && chunkRows >= 1
  {
    RangeFits(c.rows, rank, tp);
    Kept(c, rank, tp, existing) || AllDelivered(Start(c.rows, rank, tp), Start(c.rows, rank + 1, tp), chunkRows, give, 0)
  }

  /** The rank's scales are to be pinned, and there are any, and no read for them comes back empty. */
  predicate PinsRank(c: Checkpoint, rank: nat, tp: nat, ram: bool, pin: bool, give: nat -> nat)
    requires InExtent(c) && tp >= 1 && rank < tp
  {
    RangeFits(c.rows, rank, tp);
    pin && Pins(c, Start(c.rows, rank, tp), Start(c.rows, rank + 1, tp), ram, give)
  }

  /** row_store_open and row_store_range for one rank. */
  method OpenRank(c: Checkpoint, rank: nat, tp: nat, ram: bool, budget: nat, ways: nat, pin: bool, give: nat -> nat, pinGive: nat -> nat)
    returns (s: Store)
    requires InExtent(c) && tp >= 1 && rank < tp
    ensures fresh(s) && fresh(s.keys) && fresh(s.cache) && fresh(s.victim)
    ensures s.Valid() && s.Exact() && s.c == c && s.resident == ram && s.give == give && s.preads == 0
    ensures s.rowLo == Start(c.rows, rank, tp) && s.rowHi == Start(c.rows, rank + 1, tp) && s.packed.None?
    ensures s.scales.Some? <==> PinsRank(c, rank, tp, ram, pin, pinGive)
    ensures forall id: nat :: !s.IsCached(id)
  {
    RangeFits(c.rows, rank, tp);
    s := new Store(c, ram, budget, ways, give);
    var ranged := s.SetRange(Start(c.rows, rank, tp), Start(c.rows, rank + 1, tp), pin, pinGive);
  }

  /**
   * Without a packed shard: the checkpoint read with pinned scales, the one with two reads, and RAM mode.
   * With short but not empty reads the scales get pinned, and then one full read is enough.
   */
  method CheckpointFetch(c: Checkpoint, rank: nat, tp: nat, ram: bool, budget: nat, ways: nat, pin: bool, give: nat -> nat, pinGive: nat -> nat, id: nat)
    returns (ok: bool, row: Bytes, preads: nat)
    requires InExtent(c) && tp >= 1 && rank < tp && Owns(c.rows, rank, tp, id)
    ensures ok ==> id < c.rows && row == RowOf(c, id)
    ensures ok ==> preads == if ram then 0 else if PinsRank(c, rank, tp, ram, pin, pinGive) then 1 else 2
    ensures ram || (give(0) >= BUFFER_BYTES && (give(1) >= BUFFER_BYTES || PinsRank(c, rank, tp, ram, pin, pinGive))) ==> ok
    ensures pin && (forall k: nat :: pinGive(k) > 0) && give(0) >= BUFFER_BYTES ==> ok && preads <= 1
  {
    RangeFits(c.rows, rank, tp);
    var lo, hi := Start(c.rows, rank, tp), Start(c.rows, rank + 1, tp);
    if forall k: nat :: pinGive(k) > 0 { ShortReadsPin(c, lo, hi, ram, pinGive); }
    var s := OpenRank(c, rank, tp, ram, budget, ways, pin, give, pinGive);
    ok, row := s.FetchRow(id);
    preads := s.preads;
  }

  /** The same with a packed file attached. */
  method OpenPacked(c: Checkpoint, layer: nat, rank: nat, tp: nat, file: Bytes, ram: bool, budget: nat, ways: nat, pin: bool,
                    give: nat -> nat, pinGive: nat -> nat, headerGive: nat)
    returns (s: Store, attached: bool)
    requires InExtent(c) && tp >= 1 && rank < tp
    ensures fresh(s) && fresh(s.keys) && fresh(s.cache) && fresh(s.victim)
    ensures s.Valid() && s.c == c && s.give == give && s.preads == 0
    ensures s.rowLo == Start(c.rows, rank, tp) && s.rowHi == Start(c.rows, rank + 1, tp)
    ensures attached <==> headerGive >= PAGE && Fits(c, layer, rank, tp, file)
    ensures attached ==> s.packed == Some(file)
    ensures s.scales.Some? <==> PinsRank(c, rank, tp, ram, pin, pinGive)
    ensures forall id: nat :: !s.IsCached(id)
  {
    s := OpenRank(c, rank, tp, ram, budget, ways, pin, give, pinGive);
    var r := s.AttachPacked(Some(file), layer, headerGive);
    attached := r.Attached?;
  }

  /** An accepted file is long enough for the record of every owned id. */
  lemma RecordInFile(c: Checkpoint, layer: nat, rank: nat, tp: nat, file: Bytes, id: nat)
    requires tp >= 1 && rank < tp && Owns(c.rows, rank, tp, id) && Fits(c, layer, rank, tp, file)
    ensures RecordOffset(id, Start(c.rows, rank, tp)) + ROW_BYTES <= |file|
  {
    RangeFits(c.rows, rank, tp);
    var lo, hi := Start(c.rows, rank, tp), Start(c.rows, rank + 1, tp);
    MulMono(id - lo + 1, hi - lo, ROW_BYTES);
    Successor(id - lo, ROW_BYTES);
  }

  /** The shard that the packer writes for a rank is accepted, and holds the row of every owned id. */
  lemma OwnShard(c: Checkpoint, layer: nat, rank: nat, tp: nat, id: nat)
    requires InExtent(c) && IsU64(layer) && IsU64(c.rows) && tp >= 1 && rank < tp && Owns(c.rows, rank, tp, id)
    ensures Fits(c, layer, rank, tp, ShardOf(c, layer, rank, tp))
    ensures id < c.rows && RecordOf(c, rank, tp, ShardOf(c, layer, rank, tp), id) == RowOf(c, id)
  {
    RangeFits(c.rows, rank, tp);
    var lo, hi := Start(c.rows, rank, tp), Start(c.rows, rank + 1, tp);
    AcceptsOwnShard(c, layer, lo, hi, layer, lo, hi, c.rows);
    ShardRecord(c, layer, lo, hi, id);
  }

  /** Any packed file, attached and read: the record at the id's place, if the header fits. */
  method FileFetch(c: Checkpoint, layer: nat, rank: nat, tp: nat, file: Bytes, ram: bool, budget: nat, ways: nat, pin: bool,
                   give: nat -> nat, pinGive: nat -> nat, headerGive: nat, id: nat)
    returns (attached: bool, ok: bool, row: Bytes)
    requires InExtent(c) && tp >= 1 && rank < tp && Owns(c.rows, rank, tp, id)
    ensures attached <==> headerGive >= PAGE && Fits(c, layer, rank, tp, file)
    ensures ok <==> attached && give(0) >= RecordOffset(id, Start(c.rows, rank, tp)) % PAGE + ROW_BYTES
    ensures ok ==> row == RecordOf(c, rank, tp, file, id)
  {
    RangeFits(c.rows, rank, tp);
    var s: Store;
    s, attached := OpenPacked(c, layer, rank, tp, file, ram, budget, ways, pin, give, pinGive, headerGive);
    ok, row := false, [];
    if !attached { return; }
    RecordInFile(c, layer, rank, tp, file, id);
    ok, row := s.FetchRow(id);
  }

  /**
   * For every table, rank, tp, chunk size and file already at the target: what is packed, attached and
   * fetched is the row of the checkpoint, unless a file of the right size was there and its record is not
   * that row. When the reads deliver in full every step succeeds, unless such a file's header does not fit.
   */
  method PackThenFetch(c: Checkpoint, layer: nat, rank: nat, tp: nat, chunkRows: nat, existing: Option<Bytes>, packGive: nat -> nat,
                       ram: bool, budget: nat, ways: nat, pin: bool, give: nat -> nat, pinGive: nat -> nat, headerGive: nat, id: nat)
    returns (packed: bool, attached: bool, ok: bool, row: Bytes)
    requires InExtent(c) && IsU64(layer) && IsU64(c.rows) && chunkRows >= 1
    requires tp >= 1 && rank < tp && Owns(c.rows, rank, tp, id)
    ensures packed <==> Packs(c, rank, tp, chunkRows, existing, packGive)
    ensures attached <==> packed && headerGive >= PAGE && (Kept(c, rank, tp, existing) ==> Fits(c, layer, rank, tp, existing.value))
    ensures ok <==> attached && give(0) >= RecordOffset(id, Start(c.rows, rank, tp)) % PAGE + ROW_BYTES
    ensures ok ==> id < c.rows && (row == RowOf(c, id) <==> (Kept(c, rank, tp, existing) ==> RecordOf(c, rank, tp, existing.value, id) == RowOf(c, id)))
    ensures ok && Kept(c, rank, tp, existing) ==> row == RecordOf(c, rank, tp, existing.value, id)
  {
    RangeFits(c.rows, rank, tp);
    attached, ok, row := false, false, [];
    var target: Bytes;
    packed, target := PackLayer(c, layer, Start(c.rows, rank, tp), Start(c.rows, rank + 1, tp), chunkRows, existing, packGive);
    if !packed { return; }
    OwnShard(c, layer, rank, tp, id);
    attached, ok, row := FileFetch(c, layer, rank, tp, target, ram, budget, ways, pin, give, pinGive, headerGive, id);
  }

  // ---------------------------------------------------------------- two ways to a wrong row

  /** A rank's shard with the first byte of its first record changed. */
  function Damaged(c: Checkpoint, layer: nat, lo: nat, hi: nat, b: byte): Bytes
    requires InExtent(c) && lo < hi <= c.rows
  {
    HeaderBytes(layer, lo, hi, c.rows) + Records(c, lo, hi)[0 := b]
  }

  lemma DamagedFits(c: Checkpoint, layer: nat, lo: nat, hi: nat, b: byte)
    requires InExtent(c) && lo < hi <= c.rows && IsU64(layer) && IsU64(c.rows)
    ensures Complete(Some(Damaged(c, layer, lo, hi, b)), lo, hi) && Accepts(Damaged(c, layer, lo, hi, b), layer, lo, hi, c.rows)
    ensures Damaged(c, layer, lo, hi, b)[PACKED_HEADER..PACKED_HEADER + ROW_BYTES] == RowOf(c, lo)[0 := b]
  {
    HeaderFields(layer, lo, hi, c.rows, Records(c, lo, hi)[0 := b]);
    RecordAt(c, lo, hi, lo);
    FirstRecord(HeaderBytes(layer, lo, hi, c.rows), Records(c, lo, hi), b);
  }

  lemma FirstRecord(header: Bytes, records: Bytes, b: byte)
    requires |header| == PACKED_HEADER && |records| >= ROW_BYTES
    ensures (header + records[0 := b])[PACKED_HEADER..PACKED_HEADER + ROW_BYTES] == records[..ROW_BYTES][0 := b]
  {
    assert (header + records[0 := b])[PACKED_HEADER..PACKED_HEADER + ROW_BYTES] == records[0 := b][..ROW_BYTES];
  }

  /** The packer keeps such a file, the store accepts it, and the rank's first row is served with that byte; no call fails. */
  method DamagedIsServed(c: Checkpoint, layer: nat, rank: nat, tp: nat, b: byte) returns (row: Bytes)
    requires InExtent(c) && IsU64(layer) && IsU64(c.rows) && tp >= 1 && rank < tp && Owns(c.rows, rank, tp, Start(c.rows, rank, tp))
    ensures Start(c.rows, rank, tp) < c.rows && row == RowOf(c, Start(c.rows, rank, tp))[0 := b]
  {
    RangeFits(c.rows, rank, tp);
    var lo, hi := Start(c.rows, rank, tp), Start(c.rows, rank + 1, tp);
    DamagedFits(c, layer, lo, hi, b);
    var file := Damaged(c, layer, lo, hi, b);
    var packed, attached, ok;
    packed, attached, ok, row := PackThenFetch(c, layer, rank, tp, 1, Some(file), _ => 0, false, 0, 1, false, _ => BUFFER_BYTES, _ => 1, PAGE, lo);
    assert packed && attached && ok;
  }

  /** A correct shard is attached, and then the range loses its first row. */
  method OpenMoved(c: Checkpoint, layer: nat, give: nat -> nat) returns (s: Store)
    requires InExtent(c) && IsU64(layer) && IsU64(c.rows) && c.rows >= 2
    ensures fresh(s) && fresh(s.keys) && fresh(s.cache) && fresh(s.victim) && s.Valid()
    ensures s.c == c && s.give == give && s.preads == 0 && s.rowLo == 1 && s.rowHi == c.rows
    ensures s.packed == Some(Shard(c, layer, 0, c.rows)) && forall id: nat :: !s.IsCached(id)
  {
    Ends(c.rows, 1);
    OwnShard(c, layer, 0, 1, 0);
    var attached: bool;
    s, attached := OpenPacked(c, layer, 0, 1, ShardOf(c, layer, 0, 1), false, 0, 1, false, give, _ => 1, PAGE);
    var moved := s.SetRange(1, c.rows, false, _ => 1);
    assert attached && moved;
  }

  /** No call fails, and row 1 is served as row 0. */
  method MovedRange(c: Checkpoint, layer: nat) returns (row: Bytes)
    requires InExtent(c) && IsU64(layer) && IsU64(c.rows) && c.rows >= 2
    ensures row == RowOf(c, 0)
  {
    ShiftedRange(c, layer, 0, c.rows, 1, 1);
    var s := OpenMoved(c, layer, _ => BUFFER_BYTES);
    var ok;
    ok, row := s.FetchRow(1);
    assert ok;
  }

  /** On the two-row checkpoint both rows served are wrong. */
  method TwoWrongRows() returns (damaged: Bytes, moved: Bytes)
    ensures InExtent(TwoRows()) && damaged != RowOf(TwoRows(), 0) && moved != RowOf(TwoRows(), 1)
  {
    var c := TwoRows();
    WrongRow();
    Ends(2, 1);
    assert Power256(8) == 0x1_0000_0000_0000_0000;
    damaged := DamagedIsServed(c, 1, 0, 1, 7);
    moved := MovedRange(c, 1);
  }
}
