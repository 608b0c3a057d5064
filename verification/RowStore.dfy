/**
 * struct Store of adapter/row_store.cpp: one table's descriptors, the range this rank owns, the optional
 * pinned scales and packed shard, and the set-associative cache, all updated in place.
 */
module RowStore {
  import opened Arithmetic
  import opened Rows
  import opened Stores
  import opened Wrappers
  import opened RowFiles
  import opened CacheSpec

  datatype AttachResult = Missing | Attached | Mismatch

  /** The packed file holds, at the offset fetch_row computes from lo, the row of every owned id. */
  ghost predicate PackedServes(c: Checkpoint, packed: Bytes, lo: nat, hi: nat)
    requires InExtent(c) && hi <= c.rows
  {
    forall id: nat :: lo <= id < hi && RecordOffset(id, lo) + ROW_BYTES <= |packed| ==>
      packed[RecordOffset(id, lo)..RecordOffset(id, lo) + ROW_BYTES] == RowOf(c, id)
  }

  lemma ShardServes(c: Checkpoint, layer: nat, lo: nat, hi: nat)
    requires InExtent(c) && lo <= hi <= c.rows
    ensures PackedServes(c, Shard(c, layer, lo, hi), lo, hi)
  {
    forall id: nat | lo <= id < hi
      ensures var f, at := Shard(c, layer, lo, hi), RecordOffset(id, lo);
        at + ROW_BYTES <= |f| && f[at..at + ROW_BYTES] == RowOf(c, id)
    {
      ShardRecord(c, layer, lo, hi, id);
    }
  }

  /** Ways are clamped to 1..16 and RAM mode has no cache; rows, keys and cursors together fit the budget. */
  method SizeCache(ram: bool, budget: nat, cacheWays: nat) returns (sets: nat, ways: nat, slots: nat)
    ensures slots == Flat(sets, 0, ways) == sets * ways
    ensures ways == if cacheWays < 1 then 1 else if cacheWays > 16 then 16 else cacheWays
    ensures sets * ways * (ROW_BYTES + 8) + sets <= budget
    ensures !ram ==> budget < (sets + 1) * ((ROW_BYTES + 8) * ways + 1)
    ensures ram ==> sets == 0
  {
    ways := if cacheWays < 1 then 1 else if cacheWays > 16 then 16 else cacheWays;
    var b := if ram then 0 else budget;
    sets := SetsFor(b, ways);
    FitsBudget(b, ways);
    FlatIsProduct(sets, 0, ways);
    slots := Flat(sets, 0, ways);
  }

  /** Each set holds the keys that the history of its fills says. */
  ghost predicate CacheOk(sets: nat, ways: nat, keys: seq<nat>, victim: seq<nat>, log: seq<seq<nat>>)
    requires ways >= 1
  {
    && |keys| == Flat(sets, 0, ways) && |victim| == sets == |log|
    && (forall z: nat, w: nat :: z < sets && w < ways ==> SlotOk(keys, Flat(z, w, ways), KeyAt(log[z], w, ways)))
    && (forall z :: 0 <= z < sets ==> victim[z] == Cursor(log[z], ways))
  }

  predicate SlotOk(keys: seq<nat>, at: nat, key: nat) {
    at < |keys| && keys[at] == key
  }

  lemma EmptyCache(sets: nat, ways: nat, keys: seq<nat>, victim: seq<nat>, log: seq<seq<nat>>)
    requires ways >= 1 && |keys| == Flat(sets, 0, ways) && |victim| == |log| == sets
    requires (forall i :: 0 <= i < |keys| ==> keys[i] == 0) && forall z :: 0 <= z < sets ==> victim[z] == 0 && log[z] == []
    ensures CacheOk(sets, ways, keys, victim, log)
  {
    forall z: nat, v: nat | z < sets && v < ways ensures SlotOk(keys, Flat(z, v, ways), 0) {
      FlatInRange(z, v, sets, ways);
    }
  }

  /** A fill overwrites one slot and moves one cursor on. */
  lemma FillKeeps(sets: nat, ways: nat, keys: seq<nat>, victim: seq<nat>, log: seq<seq<nat>>, z: nat, id: nat)
    requires ways >= 1 && CacheOk(sets, ways, keys, victim, log) && z < sets
    ensures victim[z] < ways && Flat(z, victim[z], ways) < |keys|
    ensures CacheOk(sets, ways, keys[Flat(z, victim[z], ways) := id + 1], victim[z := (victim[z] + 1) % ways], log[z := log[z] + [id]])
  {
    var w := victim[z];
    var at := Flat(z, w, ways);
    assert SlotOk(keys, at, KeyAt(log[z], w, ways));
    var keys', log' := keys[at := id + 1], log[z := log[z] + [id]];
    AfterFill(log[z], id, ways);
    forall y: nat, v: nat | y < sets && v < ways ensures SlotOk(keys', Flat(y, v, ways), KeyAt(log'[y], v, ways)) {
      assert SlotOk(keys, Flat(y, v, ways), KeyAt(log[y], v, ways));
      SlotStays(keys, y, v, z, w, ways, KeyAt(log[y], v, ways), id);
    }
  }

  lemma SlotStays(keys: seq<nat>, y: nat, v: nat, z: nat, w: nat, ways: nat, key: nat, id: nat)
    requires v < ways && w < ways && Flat(z, w, ways) < |keys| && SlotOk(keys, Flat(y, v, ways), key)
    ensures SlotOk(keys[Flat(z, w, ways) := id + 1], Flat(y, v, ways), if y == z && v == w then id + 1 else key)
  {
    if Flat(y, v, ways) == Flat(z, w, ways) { FlatApart(y, v, z, w, ways); }
  }

  class Store {
    const c: Checkpoint
    const resident: bool
    const sets: nat
    const ways: nat
    const keys: array<nat>
    const cache: array<Bytes>
    const victim: array<nat>
    var rowLo: nat
    var rowHi: nat
    var scales: Option<Bytes>
    var packed: Option<Bytes>
    var hits: nat
    var misses: nat
    var preads: nat
    /** give(k): how many bytes the k-th direct read is ready to deliver; any function at all. */
    const give: nat -> nat
    ghost var log: seq<seq<nat>>

    ghost predicate CacheValid()
      reads this`log, keys, cache, victim
    {
      InExtent(c) && 1 <= ways <= 16 && keys != victim && cache.Length == keys.Length
      && CacheOk(sets, ways, keys[..], victim[..], log) && forall i :: 0 <= i < cache.Length ==> |cache[i]| == ROW_BYTES
    }

    ghost predicate Valid()
      reads this`log, this`rowLo, this`rowHi, this`scales, keys, cache, victim
    {
      && CacheValid()
      && rowLo <= rowHi <= c.rows
      && (scales.Some? ==> scales.value == ScaleShard(c, rowLo, rowHi))
    }

    /** Every occupied slot holds the exact row of its key. */
    ghost predicate CacheExact()
      reads keys, cache
    {
      InExtent(c) && RowsExact(c, keys[..], cache[..])
    }

    /** And an attached shard holds the owned rows, which row_store_attach_packed leaves to whoever packed it. */
    ghost predicate Exact()
      reads this`rowLo, this`rowHi, this`packed, keys, cache
    {
      CacheExact() && (packed.Some? ==> rowHi <= c.rows && PackedServes(c, packed.value, rowLo, rowHi))
    }

    /** row_store_open, after the file is open: cache sizing, empty cache, the whole table owned. */
    constructor (checkpoint: Checkpoint, ram: bool, budget: nat, cacheWays: nat, readiness: nat -> nat)
      requires InExtent(checkpoint)
      ensures Valid() && Exact() && c == checkpoint && resident == ram && give == readiness
      ensures fresh(keys) && fresh(cache) && fresh(victim)
      ensures rowLo == 0 && rowHi == c.rows && scales.None? && packed.None?
      ensures hits == misses == preads == 0 && log == seq(sets, _ => [])
      ensures sets * ways * (ROW_BYTES + 8) + sets <= budget
      ensures if ram then sets == 0 else budget < (sets + 1) * ((ROW_BYTES + 8) * ways + 1)
      ensures ways == if cacheWays < 1 then 1 else if cacheWays > 16 then 16 else cacheWays
    {
      c, resident, give := checkpoint, ram, readiness;
      var n, w, m := SizeCache(ram, budget, cacheWays);
      sets, ways := n, w;
      keys, cache, victim := new nat[m](_ => 0), new Bytes[m](_ => Zeros(ROW_BYTES)), new nat[n](_ => 0);
      rowLo, rowHi := 0, checkpoint.rows;
      scales, packed := None, None;
      hits, misses, preads := 0, 0, 0;
      log := seq(n, _ => []);
      new;
      EmptyCache(sets, ways, keys[..], victim[..], log);
    }

    // -------------------------------------------------------------- one row

    /** The id is among the last fills of its set. */
    ghost predicate IsCached(id: nat)
      reads this`log
    {
      ways >= 1 && 0 < sets == |log| && Cached(log[id % sets], id, ways)
    }

    /** The history with one more fill. */
    ghost function LogWith(id: nat): seq<seq<nat>>
      requires 0 < sets == |log|
      reads this`log
    {
      log[id % sets := log[id % sets] + [id]]
    }

    /** The history of each set names only ids of its own residue class, as every fill keeps it. */
    ghost predicate Placed()
      reads this`log
    {
      |log| == sets && forall z, j :: 0 <= z < sets && 0 <= j < |log[z]| ==> log[z][j] % sets == z
    }

    lemma StaysPlaced(id: nat)
      requires Placed() && 0 < sets
      ensures forall z, j :: 0 <= z < sets && 0 <= j < |LogWith(id)[z]| ==> LogWith(id)[z][j] % sets == z
    {
    }

    /** The locked look-up: the first way whose key matches. */
    method Probe(id: nat) returns (hit: bool, row: Bytes)
      requires CacheValid() && sets > 0
      modifies this`hits
      ensures hit <==> IsCached(id)
      ensures hit ==> |row| == ROW_BYTES && exists i :: 0 <= i < keys.Length && keys[i] == id + 1 && row == cache[i]
      ensures hit && CacheExact() ==> id < c.rows && row == RowOf(c, id)
      ensures hits == old(hits) + if hit then 1 else 0
    {
      var z, w := id % sets, 0;
      while w < ways
        invariant 0 <= w <= ways
        invariant forall v :: 0 <= v < w ==> KeyAt(log[z], v, ways) != id + 1
        invariant hits == old(hits)
      {
        assert SlotOk(keys[..], Flat(z, w, ways), KeyAt(log[z], w, ways));
        if keys[Flat(z, w, ways)] == id + 1 {
          row := cache[Flat(z, w, ways)];
          assert CacheExact() ==> RowOfKey(c, id + 1, row);
          hits := hits + 1;
          return true, row;
        }
        w := w + 1;
      }
      hit, row := false, [];
    }

    /** The locked fill: the way under the set's cursor takes the row, and the cursor moves on. */
    method Fill(id: nat, row: Bytes)
      requires CacheValid() && sets > 0 && |row| == ROW_BYTES
      modifies this`log, keys, cache, victim
      ensures CacheValid() && log == old(LogWith(id))
      ensures old(CacheExact()) && id < c.rows && row == RowOf(c, id) ==> CacheExact()
    {
      FillSet(id % sets, id, row);
    }

    method FillSet(z: nat, id: nat, row: Bytes)
      requires CacheValid() && z < sets && |row| == ROW_BYTES
      modifies this`log, keys, cache, victim
      ensures CacheValid() && log == old(log)[z := old(log)[z] + [id]]
      ensures old(CacheExact()) && id < c.rows && row == RowOf(c, id) ==> CacheExact()
    {
      ghost var ks: seq<nat>, cursors: seq<nat> := keys[..], victim[..];
      FillKeeps(sets, ways, ks, cursors, log, z, id);
      var w := victim[z] % ways;
      assert w == victim[z] by { DivModUnique(0, victim[z], ways); }
      ghost var at := Flat(z, w, ways);
      victim[z] := (victim[z] + 1) % ways;
      cache[Flat(z, w, ways)] := row;
      keys[Flat(z, w, ways)] := id + 1;
      ghost var ks': seq<nat>, cursors': seq<nat> := ks[at := id + 1], cursors[z := (w + 1) % ways];
      assert keys[..] == ks' && victim[..] == cursors' && cache[..] == old(cache[..])[at := row];
      log := log[z := log[z] + [id]];
    }

    /** A miss costs one read unless neither a packed shard nor pinned scales are there. */
    function ReadsPerMiss(): nat
      reads this`packed, this`scales
    {
      if packed.Some? then 1 else if resident then 0 else if scales.Some? then 1 else 2
    }

    /** What the reads of a missed row bring: a record of the packed shard, or the row of the checkpoint. */
    function ReadValue(id: nat): Bytes
      requires InExtent(c) && id < c.rows && rowLo <= id
      reads this`packed, this`rowLo
    {
      if packed.None? then RowOf(c, id)
      else if RecordOffset(id, rowLo) + ROW_BYTES <= |packed.value|
      then packed.value[RecordOffset(id, rowLo)..RecordOffset(id, rowLo) + ROW_BYTES] else []
    }

    /** Whether the next reads bring all the bytes of a row. */
    predicate RowArrives(id: nat)
      reads this`packed, this`scales, this`rowLo, this`preads
    {
      rowLo <= id &&
      if packed.Some? then Arrives(packed.value, RecordOffset(id, rowLo), ROW_BYTES, give(preads)) else
      resident
        || (Arrives(c.file, c.weightOffset + id * WEIGHT_BYTES, WEIGHT_BYTES, give(preads))
            && (scales.Some? || Arrives(c.file, c.scaleOffset + id * SCALE_BYTES, SCALE_BYTES, give(preads + 1))))
    }

    /** The read just tried, one of those for a row of this id, fell short. */
    predicate FellShort(id: nat)
      reads this`packed, this`scales, this`rowLo, this`preads
    {
      rowLo <= id &&
      if packed.Some? then !Arrives(packed.value, RecordOffset(id, rowLo), ROW_BYTES, give(preads)) else
      !resident
        && (!Arrives(c.file, c.weightOffset + id * WEIGHT_BYTES, WEIGHT_BYTES, give(preads))
            || (scales.None? && !Arrives(c.file, c.scaleOffset + id * SCALE_BYTES, SCALE_BYTES, give(preads))))
    }

    /** Nothing falls short in a mapped table; otherwise some read brings fewer bytes than it has to, or the packed file is too short. */
    lemma FellShortMeans(id: nat)
      requires FellShort(id)
      ensures rowLo <= id && (packed.Some? || !resident)
      ensures packed.Some? ==> var at := 4096 + (id - rowLo) * 264;
        give(preads) < at % 4096 + 264 || at + 264 > |packed.value|
      ensures packed.None? && scales.Some? && InExtent(c) && id < c.rows ==>
        give(preads) < (c.weightOffset + id * 256) % 4096 + 256
      ensures packed.None? && scales.None? && InExtent(c) && id < c.rows ==>
        give(preads) < (c.weightOffset + id * 256) % 4096 + 256 || give(preads) < (c.scaleOffset + id * 8) % 4096 + 8
    {
    }

    /** The unlocked read of a missed row, from whichever copy is attached; !ok stands for abort(). */
    method ReadRow(id: nat) returns (ok: bool, row: Bytes)
      requires Valid() && rowLo <= id < rowHi
      modifies this`preads
      ensures ok <==> old(RowArrives(id))
      ensures ok ==> row == old(ReadValue(id)) && |row| == ROW_BYTES && preads == old(preads) + ReadsPerMiss()
      ensures !ok ==> FellShort(id) && preads >= old(preads)
    {
      if packed.Some? {
        ok, row := ReadPacked(packed.value, RecordOffset(id, rowLo));
      } else {
        var weights: Bytes, tail: Bytes;
        ok, weights := ReadBytes(c.weightOffset + id * WEIGHT_BYTES, WEIGHT_BYTES);
        if !ok { return false, []; }
        if scales.Some? {
          PinnedScales(c, rowLo, rowHi, id);
          tail := scales.value[(id - rowLo) * SCALE_BYTES..(id - rowLo + 1) * SCALE_BYTES];
        } else {
          ok, tail := ReadBytes(c.scaleOffset + id * SCALE_BYTES, SCALE_BYTES);
        }
        row := weights + tail;
      }
    }

    method ReadPacked(file: Bytes, offset: nat) returns (ok: bool, out: Bytes)
      modifies this`preads
      ensures ok <==> Arrives(file, offset, ROW_BYTES, give(old(preads)))
      ensures ok ==> out == file[offset..offset + ROW_BYTES]
      ensures preads == old(preads) + if ok then 1 else 0
    {
      ok, out := ReadFrom(file, offset, ROW_BYTES, give(preads));
      if ok { preads := preads + 1; }
    }

    /** read_bytes: the checkpoint, mapped in RAM mode. */
    method ReadBytes(offset: nat, length: nat) returns (ok: bool, out: Bytes)
      requires 1 <= length <= ROW_BYTES && offset + length <= |c.file|
      modifies this`preads
      ensures ok <==> resident || Arrives(c.file, offset, length, give(old(preads)))
      ensures ok ==> out == c.file[offset..offset + length]
      ensures preads == old(preads) + if ok && !resident then 1 else 0
    {
      if resident {
        return true, c.file[offset..offset + length];
      }
      ok, out := ReadFrom(c.file, offset, length, give(preads));
      if ok { preads := preads + 1; }
    }

    /** fetch_row by a thread on its own: a hit or one fill; it aborts only for a missed row that does not arrive. */
    method FetchRow(id: nat) returns (ok: bool, row: Bytes)
      requires Valid() && rowLo <= id < rowHi
      modifies this`hits, this`misses, this`preads, this`log, keys, cache, victim
      ensures Valid() && preads >= old(preads)
      ensures ok <==> old(IsCached(id)) || old(RowArrives(id))
      ensures !ok ==> FellShort(id)
      ensures ok ==> |row| == ROW_BYTES
      ensures old(Exact()) ==> Exact() && (ok ==> row == RowOf(c, id))
      ensures ok && !old(IsCached(id)) ==> row == old(ReadValue(id))
      ensures ok ==> preads == old(preads) + if old(IsCached(id)) then 0 else old(ReadsPerMiss())
      ensures hits == old(hits) + if old(IsCached(id)) then 1 else 0
      ensures ok ==> hits + misses == old(hits) + old(misses) + 1
      ensures if ok && sets > 0 && !old(IsCached(id)) then log == old(LogWith(id)) else log == old(log)
    {
      if sets > 0 {
        var hit: bool;
        hit, row := Probe(id);
        if hit { return true, row; }
      }
      assert !old(IsCached(id)) && hits == old(hits);
      ok, row := FetchMissed(id);
    }

    /** fetch_row after a failed look-up. */
    method FetchMissed(id: nat) returns (ok: bool, row: Bytes)
      requires Valid() && rowLo <= id < rowHi
      modifies this`misses, this`preads, this`log, keys, cache, victim
      ensures Valid() && preads >= old(preads)
      ensures ok <==> old(RowArrives(id))
      ensures !ok ==> FellShort(id) && misses == old(misses)
      ensures ok ==> |row| == ROW_BYTES && row == old(ReadValue(id)) && preads == old(preads) + old(ReadsPerMiss())
      ensures old(Exact()) ==> Exact() && (ok ==> row == RowOf(c, id))
      ensures ok ==> misses == old(misses) + 1
      ensures if ok && sets > 0 then log == old(LogWith(id)) else log == old(log)
    {
      if Exact() && RowArrives(id) { ExactRead(id); }
      ok, row := ReadRow(id);
      if ok { Keep(id, row); }
    }

    /** What arrives for an owned id is its row, whichever copy it comes from. */
    lemma ExactRead(id: nat)
      requires Valid() && Exact() && rowLo <= id < rowHi
      requires packed.Some? ==> RecordOffset(id, rowLo) + ROW_BYTES <= |packed.value|
      ensures ReadValue(id) == RowOf(c, id)
    {
    }

    /** The part of fetch_row after the read. */
    method Keep(id: nat, row: Bytes)
      requires CacheValid() && id < c.rows && |row| == ROW_BYTES
      modifies this`misses, this`log, keys, cache, victim
      ensures CacheValid()
      ensures old(CacheExact()) && row == RowOf(c, id) ==> CacheExact()
      ensures misses == old(misses) + 1
      ensures if sets > 0 then log == old(LogWith(id)) else log == old(log)
    {
      misses := misses + 1;
      if sets > 0 {
        Fill(id, row);
      }
    }

    // -------------------------------------------------------------- range and packed shard

    /**
     * row_store_range. The pinned scales are guarded against a later change of range; an attached packed
     * shard is not, and after such a change nothing is promised of its reads.
     */
    method SetRange(lo: nat, hi: nat, residentScales: bool, readiness: nat -> nat) returns (ok: bool)
      requires Valid()
      modifies this`rowLo, this`rowHi, this`scales
      ensures Valid()
      ensures ok <==> lo <= hi <= c.rows && (old(scales).Some? ==> lo == old(rowLo) && hi == old(rowHi))
      ensures if ok then rowLo == lo && rowHi == hi
              else rowLo == old(rowLo) && rowHi == old(rowHi) && scales == old(scales)
      ensures ok && old(scales).None? ==> (scales.Some? <==> residentScales && Pins(c, lo, hi, resident, readiness))
      ensures old(scales).Some? ==> scales == old(scales)
      ensures old(Exact()) && (ok && packed.Some? ==> lo == old(rowLo) && hi == old(rowHi)) ==> Exact()
    {
      if lo > hi || hi > c.rows || (scales.Some? && (lo != rowLo || hi != rowHi)) {
        return false;
      }
      rowLo, rowHi := lo, hi;
      if scales.None? && hi > lo && residentScales {
        var pinned, out := PinScales(c, lo, hi, resident, readiness);
        if pinned { scales := Some(out); }
      }
      ok := true;
    }

    /** row_store_attach_packed: only the header and the length are checked, so the rows are as good as the file's. */
    method AttachPacked(file: Option<Bytes>, layer: nat, readiness: nat) returns (r: AttachResult)
      requires Valid()
      modifies this`packed
      ensures r.Missing? <==> file.None?
      ensures r.Attached? <==> file.Some? && readiness >= PAGE && Accepts(file.value, layer, rowLo, rowHi, c.rows)
      ensures packed == if r.Attached? then file else old(packed)
      ensures old(Exact()) && (r.Attached? ==> PackedServes(c, file.value, rowLo, rowHi)) ==> Exact()
    {
      if file.None? { return Missing; }
      var header := DirectPread(file.value, PAGE, 0, readiness);
      if |header| < PAGE { return Mismatch; }
      forall k | 0 <= k < 6 ensures Field(header, k) == Field(file.value, k) {
        assert header[8 * k..8 * k + 8] == file.value[8 * k..8 * k + 8];
      }
      if !HeaderMatches(header, layer) || |file.value| < PACKED_HEADER + (rowHi - rowLo) * ROW_BYTES {
        return Mismatch;
      }
      packed := file;
      r := Attached;
    }

    predicate HeaderMatches(header: Bytes, layer: nat)
      requires |header| >= PAGE
      reads this
    {
      && Field(header, 0) == PACKED_MAGIC && Field(header, 1) == layer && Field(header, 2) == rowLo
      && Field(header, 3) == rowHi && Field(header, 4) == c.rows && Field(header, 5) == ROW_BYTES
    }

    // -------------------------------------------------------------- serve

    function AsBacking(): Backing
      requires InExtent(c)
      reads this`rowLo, this`rowHi
    {
      Backing(TableOf(c), rowLo, rowHi)
    }

    /**
     * serve(work, begin, end) by one thread. It reaches end unless, at stop, the id is outside the table or
     * a read for an owned row falls short: then the process aborts, with the rows before stop stored.
     */
    method Serve(ids: seq<int>, weights: array<byte>, tails: array<byte>, begin: nat, end: nat) returns (ok: bool, stop: nat)
      requires Valid() && begin <= end <= |ids|
      requires weights.Length == |ids| * WEIGHT_BYTES && tails.Length == |ids| * SCALE_BYTES && weights != tails
      modifies this`hits, this`misses, this`preads, this`log, keys, cache, victim, weights, tails
      ensures Valid() && (old(Exact()) ==> Exact()) && preads >= old(preads)
      ensures begin <= stop <= end && (ok <==> stop == end)
      ensures forall i :: begin <= i < stop ==> ValidId(AsBacking(), ids[i])
      ensures !ok ==> !ValidId(AsBacking(), ids[stop]) || (Owned(AsBacking(), ids[stop]) && FellShort(ids[stop]))
      ensures forall i :: 0 <= i < |ids| && !(begin <= i < stop) ==>
        BufferRows(weights[..], tails[..], |ids|)[i] == old(BufferRows(weights[..], tails[..], |ids|))[i]
      ensures old(Exact()) ==> forall i :: begin <= i < stop ==>
        BufferRows(weights[..], tails[..], |ids|)[i] == ServedRow(AsBacking(), ids[i])
    {
      ok, stop := true, begin;
      ghost var b, exact, rows := AsBacking(), Exact(), BufferRows(weights[..], tails[..], |ids|);
      while stop < end
        invariant begin <= stop <= end && Valid() && (exact ==> Exact()) && AsBacking() == b && preads >= old(preads)
        invariant forall k :: begin <= k < stop ==> ValidId(b, ids[k])
        invariant rows == BufferRows(weights[..], tails[..], |ids|)
        invariant forall k :: 0 <= k < |ids| && !(begin <= k < stop) ==> rows[k] == old(BufferRows(weights[..], tails[..], |ids|))[k]
        invariant exact ==> forall k :: begin <= k < stop ==> rows[k] == ServedRow(b, ids[k])
      {
        var row: Bytes;
        ok, row := ServeInto(ids, weights, tails, stop);
        if !ok { return; }
        rows := rows[stop := row];
        stop := stop + 1;
      }
    }

    /** One iteration of serve's loop. */
    method ServeInto(ids: seq<int>, weights: array<byte>, tails: array<byte>, i: nat) returns (ok: bool, row: Bytes)
      requires Valid() && i < |ids|
      requires weights.Length == |ids| * WEIGHT_BYTES && tails.Length == |ids| * SCALE_BYTES && weights != tails
      modifies this`hits, this`misses, this`preads, this`log, keys, cache, victim, weights, tails
      ensures Valid() && (old(Exact()) ==> Exact()) && preads >= old(preads)
      ensures ok <==> old(CanServe(ids[i]))
      ensures !ok && ValidId(AsBacking(), ids[i]) ==> Owned(AsBacking(), ids[i]) && FellShort(ids[i])
      ensures BufferRows(weights[..], tails[..], |ids|) ==
        if ok then old(BufferRows(weights[..], tails[..], |ids|))[i := row] else old(BufferRows(weights[..], tails[..], |ids|))
      ensures ok && old(Exact()) ==> row == ServedRow(AsBacking(), ids[i])
    {
      ok, row := ServeOne(ids[i]);
      if ok { StoreRow(weights, tails, i, row, |ids|); }
    }

    /** An id of the table can be served unless it is owned, not cached, and its row does not arrive. */
    ghost predicate CanServe(id: int)
      reads this`log, this`rowLo, this`rowHi, this`packed, this`scales, this`preads
    {
      0 <= id < c.rows && (rowLo <= id < rowHi ==> IsCached(id) || RowArrives(id))
    }

    /** The row for one id: fetched if this rank owns it, zeros if another does; an id outside the table aborts. */
    method ServeOne(id: int) returns (ok: bool, row: Bytes)
      requires Valid()
      modifies this`hits, this`misses, this`preads, this`log, keys, cache, victim
      ensures Valid() && (old(Exact()) ==> Exact()) && preads >= old(preads)
      ensures ok <==> old(CanServe(id))
      ensures !ok && ValidId(AsBacking(), id) ==> Owned(AsBacking(), id) && FellShort(id)
      ensures ok ==> |row| == ROW_BYTES && (old(Exact()) ==> row == ServedRow(AsBacking(), id))
    {
      if id < 0 || id >= c.rows { return false, []; }
      ok, row := true, Zeros(ROW_BYTES);
      if rowLo <= id < rowHi { ok, row := FetchRow(id); }
    }
  }

  predicate RowsExact(c: Checkpoint, keys: seq<nat>, cache: seq<Bytes>)
    requires InExtent(c)
  {
    |cache| == |keys| && forall i :: 0 <= i < |keys| ==> RowOfKey(c, keys[i], cache[i])
  }

  /** A slot is empty or holds the row of its key. */
  predicate RowOfKey(c: Checkpoint, key: nat, row: Bytes)
    requires InExtent(c)
  {
    key > 0 ==> key <= c.rows && row == RowOf(c, key - 1)
  }

  /** The owned part of the scale tensor. */
  function ScaleShard(c: Checkpoint, lo: nat, hi: nat): Bytes
    requires InExtent(c) && lo <= hi <= c.rows
  {
    c.file[c.scaleOffset + lo * SCALE_BYTES..c.scaleOffset + hi * SCALE_BYTES]
  }

  lemma PinnedScales(c: Checkpoint, lo: nat, hi: nat, id: nat)
    requires InExtent(c) && lo <= id < hi <= c.rows
    ensures ScaleShard(c, lo, hi)[(id - lo) * SCALE_BYTES..(id - lo + 1) * SCALE_BYTES] == ScalesOf(c, id)
  {
    SliceOfSlice(c.file, c.scaleOffset + lo * SCALE_BYTES, (hi - lo) * SCALE_BYTES, (id - lo) * SCALE_BYTES, SCALE_BYTES);
  }

  /** Row i of a Work's two output buffers. */
  function BufferRow(weights: Bytes, tails: Bytes, i: nat): Bytes
    requires (i + 1) * WEIGHT_BYTES <= |weights| && (i + 1) * SCALE_BYTES <= |tails|
  {
    weights[i * WEIGHT_BYTES..(i + 1) * WEIGHT_BYTES] + tails[i * SCALE_BYTES..(i + 1) * SCALE_BYTES]
  }

  /** All the rows of a Work. */
  function BufferRows(weights: Bytes, tails: Bytes, count: nat): (rows: seq<Bytes>)
    requires |weights| == count * WEIGHT_BYTES && |tails| == count * SCALE_BYTES
    ensures |rows| == count
  {
    seq(count, i requires 0 <= i < count => BufferRow(weights, tails, i))
  }

  /** Records of equal width do not overlap. */
  lemma PatchedRecord(buffer: Bytes, i: nat, width: nat, bytes: Bytes, k: nat)
    requires |bytes| == width && (i + 1) * width <= |buffer| && (k + 1) * width <= |buffer|
    ensures i * width + width == (i + 1) * width && k * width + width == (k + 1) * width
    ensures Patched(buffer, i * width, bytes)[k * width..(k + 1) * width] == if k == i then bytes else buffer[k * width..(k + 1) * width]
  {
    Successor(i, width);
    Successor(k, width);
    RecordsApart(i, k, width);
    PatchedSlice(buffer, i * width, bytes, k * width);
  }

  lemma RecordsApart(i: nat, k: nat, width: nat)
    ensures k < i ==> k * width + width <= i * width
    ensures i < k ==> i * width + width <= k * width
  {
    Successor(i, width);
    Successor(k, width);
    if k < i { MulMono(k + 1, i, width); }
    if i < k { MulMono(i + 1, k, width); }
  }

  lemma PatchedSlice(buffer: Bytes, at: nat, bytes: Bytes, from: nat)
    requires at + |bytes| <= |buffer| && from + |bytes| <= |buffer|
    requires from == at || from + |bytes| <= at || at + |bytes| <= from
    ensures Patched(buffer, at, bytes)[from..from + |bytes|] == if from == at then bytes else buffer[from..from + |bytes|]
  {
    var p := Patched(buffer, at, bytes)[from..from + |bytes|];
    forall b | 0 <= b < |bytes| ensures p[b] == if from == at then bytes[b] else buffer[from + b] {}
    assert p == if from == at then bytes else buffer[from..from + |bytes|];
  }

  /** The two memcpy calls that end one iteration of serve. */
  method StoreRow(weights: array<byte>, tails: array<byte>, i: nat, row: Bytes, count: nat)
    requires i < count && |row| == ROW_BYTES && weights != tails
    requires weights.Length == count * WEIGHT_BYTES && tails.Length == count * SCALE_BYTES
    modifies weights, tails
    ensures BufferRows(weights[..], tails[..], count) == old(BufferRows(weights[..], tails[..], count))[i := row]
  {
    PatchedRow(weights[..], tails[..], i, row, count);
    CopyIn(weights, i * WEIGHT_BYTES, row[..WEIGHT_BYTES]);
    CopyIn(tails, i * SCALE_BYTES, row[WEIGHT_BYTES..]);
  }

  lemma PatchedRow(weights: Bytes, tails: Bytes, i: nat, row: Bytes, count: nat)
    requires i < count && |row| == ROW_BYTES && |weights| == count * WEIGHT_BYTES && |tails| == count * SCALE_BYTES
    ensures i * WEIGHT_BYTES + WEIGHT_BYTES <= |weights| && i * SCALE_BYTES + SCALE_BYTES <= |tails|
    ensures var w, t := Patched(weights, i * WEIGHT_BYTES, row[..WEIGHT_BYTES]), Patched(tails, i * SCALE_BYTES, row[WEIGHT_BYTES..]);
      BufferRows(w, t, count) == BufferRows(weights, tails, count)[i := row]
  {
    var w, t := Patched(weights, i * WEIGHT_BYTES, row[..WEIGHT_BYTES]), Patched(tails, i * SCALE_BYTES, row[WEIGHT_BYTES..]);
    forall k | 0 <= k < count ensures BufferRow(w, t, k) == if k == i then row else BufferRow(weights, tails, k) {
      PatchedRecord(weights, i, WEIGHT_BYTES, row[..WEIGHT_BYTES], k);
      PatchedRecord(tails, i, SCALE_BYTES, row[WEIGHT_BYTES..], k);
      assert row == row[..WEIGHT_BYTES] + row[WEIGHT_BYTES..];
    }
  }

  const SPAN: nat := 8388608

  /** What the next read brings when the rest from offset to end is asked for. */
  function ReadSize(file: Bytes, offset: nat, end: nat, give: nat): nat
    requires offset < end <= |file|
  {
    Min(give, Min(Min(SPAN, AlignUp(end - offset)), |file| - offset))
  }

  /** Requests are whole pages and fit the 8 MiB buffer. */
  lemma RequestFits(n: nat)
    ensures Min(SPAN, AlignUp(n)) % 4096 == 0 && Min(SPAN, AlignUp(n)) <= 8 * 1024 * 1024
  {
    AlignFacts(n);
  }

  /** No read from offset to end comes back empty; give(k) is the next one's readiness. */
  predicate Delivers(file: Bytes, offset: nat, end: nat, give: nat -> nat, k: nat)
    requires end <= |file|
    decreases end - offset
  {
    offset >= end ||
    var got := ReadSize(file, offset, end, give(k));
    got > 0 && Delivers(file, offset + got, end, give, k + 1)
  }

  /** Reads may be as short as they like, as long as none is empty. */
  lemma {:induction false} ShortReadsDeliver(file: Bytes, offset: nat, end: nat, give: nat -> nat, k: nat)
    requires end <= |file| && forall j :: j >= k ==> give(j) > 0
    ensures Delivers(file, offset, end, give, k)
    decreases end - offset
  {
    if offset < end {
      AlignFacts(end - offset);
      ShortReadsDeliver(file, offset + ReadSize(file, offset, end, give(k)), end, give, k + 1);
    }
  }

  /** There is something to pin, and it can be copied from the mapping or every read that it takes delivers something. */
  predicate Pins(c: Checkpoint, lo: nat, hi: nat, resident: bool, give: nat -> nat)
    requires InExtent(c) && lo <= hi <= c.rows
  {
    lo < hi && (resident || Delivers(c.file, AlignDown(c.scaleOffset + lo * SCALE_BYTES), c.scaleOffset + hi * SCALE_BYTES, give, 0))
  }

  lemma ShortReadsPin(c: Checkpoint, lo: nat, hi: nat, resident: bool, give: nat -> nat)
    requires InExtent(c) && lo <= hi <= c.rows && forall k: nat :: give(k) > 0
    ensures Pins(c, lo, hi, resident, give) <==> lo < hi
  {
    if lo < hi && !resident {
      ShortReadsDeliver(c.file, AlignDown(c.scaleOffset + lo * SCALE_BYTES), c.scaleOffset + hi * SCALE_BYTES, give, 0);
    }
  }

  /** pin_scales: an aligned, re-blocking copy that tolerates short reads. */
  method PinScales(c: Checkpoint, lo: nat, hi: nat, resident: bool, give: nat -> nat) returns (ok: bool, out: Bytes)
    requires InExtent(c) && lo <= hi <= c.rows
    ensures ok <==> Pins(c, lo, hi, resident, give)
    ensures lo < hi && (resident || forall k: nat :: give(k) > 0) ==> ok
    ensures ok ==> out == ScaleShard(c, lo, hi)
  {
    if lo == hi { return false, []; }
    var start, end := c.scaleOffset + lo * SCALE_BYTES, c.scaleOffset + hi * SCALE_BYTES;
    if resident { return true, c.file[start..end]; }
    AlignFacts(start);
    if forall k: nat :: give(k) > 0 { ShortReadsPin(c, lo, hi, resident, give); }
    ok, out := CopyShard(c.file, AlignDown(start), start, end, give);
  }

  method ReadNext(file: Bytes, offset: nat, end: nat, give: nat) returns (got: Bytes)
    requires offset < end <= |file|
    ensures |got| == ReadSize(file, offset, end, give) && offset + |got| <= |file| && got == file[offset..offset + |got|]
  {
    got := Pread(file, Min(SPAN, AlignUp(end - offset)), offset, give);
  }

  /** The buffer, which stands for the file from start on, holds the bytes before upto. */
  ghost predicate Copied(buffer: Bytes, file: Bytes, start: nat, upto: nat)
    requires start + |buffer| <= |file|
  {
    forall i :: 0 <= i < |buffer| && start + i < upto ==> buffer[i] == file[start + i]
  }

  /** The copy from an aligned offset on. */
  method CopyShard(file: Bytes, from: nat, start: nat, end: nat, give: nat -> nat) returns (ok: bool, out: Bytes)
    requires from <= start <= end <= |file|
    ensures ok <==> Delivers(file, from, end, give, 0)
    ensures ok ==> out == file[start..end]
  {
    var buffer := new byte[end - start](_ => 0);
    var offset, k := from, 0;
    ghost var delivers := Delivers(file, offset, end, give, 0);
    while offset < end
      invariant from <= offset && delivers == Delivers(file, offset, end, give, k)
      invariant Copied(buffer[..], file, start, offset)
      decreases end - offset
    {
      var got := ReadNext(file, offset, end, give(k));
      if |got| == 0 { return false, []; }
      CopyPart(buffer, file, start, offset, got);
      offset, k := offset + |got|, k + 1;
    }
    ok, out := true, buffer[..];
    assert out == file[start..end];
  }

  /** What a read brought goes to its place, clipped at both ends. */
  method CopyPart(buffer: array<byte>, file: Bytes, start: nat, offset: nat, got: Bytes)
    requires start + buffer.Length <= |file| && offset + |got| <= |file| && got == file[offset..offset + |got|]
    requires Copied(buffer[..], file, start, offset)
    modifies buffer
    ensures Copied(buffer[..], file, start, offset + |got|)
  {
    var first, last := Max(offset, start), Min(offset + |got|, start + buffer.Length);
    if last > first {
      forall i | first - start <= i < last - start { buffer[i] := got[start + i - offset]; }
    }
  }

  /**
   * What an unguarded change of range after an attach does: the bytes read for id are the row of the id
   * shifted by the distance the range moved, if the shard has it.
   */
  lemma ShiftedRange(c: Checkpoint, layer: nat, lo: nat, hi: nat, lo': nat, id: nat)
    requires InExtent(c) && lo <= hi <= c.rows && lo' <= id
    ensures var f, at := Shard(c, layer, lo, hi), RecordOffset(id, lo');
      && (at + ROW_BYTES <= |f| <==> lo + (id - lo') < hi)
      && (lo + (id - lo') < hi ==> f[at..at + ROW_BYTES] == RowOf(c, lo + (id - lo')))
  {
    var shifted := lo + (id - lo');
    assert shifted - lo == id - lo';
    RecordFits(c, layer, lo, hi, shifted);
    if shifted < hi { ShardRecord(c, layer, lo, hi, shifted); }
  }

  /** So a packed read after the change is right exactly when the shard has that row and the two rows are equal. */
  lemma ShiftedReadIff(c: Checkpoint, layer: nat, lo: nat, hi: nat, lo': nat, id: nat)
    requires InExtent(c) && lo <= hi <= c.rows && lo' <= id < c.rows
    ensures var f, at, shifted := Shard(c, layer, lo, hi), RecordOffset(id, lo'), lo + (id - lo');
      at + ROW_BYTES <= |f| && f[at..at + ROW_BYTES] == RowOf(c, id) <==> shifted < hi && RowOf(c, shifted) == RowOf(c, id)
  {
    ShiftedRange(c, layer, lo, hi, lo', id);
  }

  /** On a table without repeated rows this means that the range still begins where it did. */
  lemma RangeMustStay(c: Checkpoint, layer: nat, lo: nat, hi: nat, lo': nat, id: nat)
    requires InExtent(c) && lo <= hi <= c.rows && lo' <= id < c.rows
    requires forall a, b :: 0 <= a < b < c.rows ==> RowOf(c, a) != RowOf(c, b)
    ensures var f, at := Shard(c, layer, lo, hi), RecordOffset(id, lo');
      at + ROW_BYTES <= |f| && f[at..at + ROW_BYTES] == RowOf(c, id) <==> lo' == lo && id < hi
  {
    ShiftedReadIff(c, layer, lo, hi, lo', id);
  }

  function Filled(n: nat, value: byte): (b: Bytes)
    ensures |b| == n
  {
    seq(n, _ => value)
  }

  /** Two rows, one of zeros and one of ones. */
  function TwoRows(): Checkpoint {
    Checkpoint(Filled(256, 0) + Filled(256, 1) + Filled(8, 0) + Filled(8, 1), 2, 0, 512)
  }

  /** Packed for both rows, moved to the second one: row 1 then reads as row 0. */
  lemma WrongRow()
    ensures var c, f, at := TwoRows(), Shard(TwoRows(), 1, 0, 2), RecordOffset(1, 1);
      InExtent(c) && at + ROW_BYTES <= |f| && f[at..at + ROW_BYTES] == RowOf(c, 0) != RowOf(c, 1) && RowOf(c, 0)[0] == 0
  {
    var c := TwoRows();
    assert WeightsOf(c, 0) == Filled(256, 0) && WeightsOf(c, 1) == Filled(256, 1);
    assert RowOf(c, 0)[0] == 0 && RowOf(c, 1)[0] == 1;
    ShiftedRange(c, 1, 0, 2, 1, 1);
  }
}
