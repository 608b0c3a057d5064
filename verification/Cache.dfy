/**
 * Concurrent fetch_row calls as a step relation: any number of threads share the cache, 256 locks are
 * striped over its sets, and a missing row is read with no lock held.
 */
module Cache {
  import opened Arithmetic
  import opened Rows
  import opened CacheSpec

  const STRIPES: nat := 256
  const FREE: int := -1

  /** The next action of a call; Want* is where it takes its stripe's lock. */
  datatype Pc =
    | Idle | WantProbe | Scan | CopyHit | ReadMiss | WantFill | TakeCursor | CopyRow | SetKey | Done

  datatype Call = Call(pc: Pc, id: nat, way: nat, row: Bytes)

  /** keys, slots and victim by set; log is the history of fills of each set, finished counts returned calls. */
  datatype State = State(
    table: seq<Bytes>, ways: nat,
    keys: seq<seq<nat>>, slots: seq<seq<Bytes>>, victim: seq<nat>, log: seq<seq<nat>>,
    locks: seq<int>, hits: nat, misses: nat, finished: nat,
    calls: seq<Call>)

  function SetOf(s: State, id: nat): nat
    requires |s.keys| > 0
  {
    id % |s.keys|
  }

  function Stripe(s: State, id: nat): nat
    requires |s.keys| > 0
  {
    SetOf(s, id) % STRIPES
  }

  predicate InLock(pc: Pc) {
    pc.Scan? || pc.CopyHit? || pc.TakeCursor? || pc.CopyRow? || pc.SetKey?
  }

  /** The call has counted its hit or miss but has not returned. */
  predicate Counted(pc: Pc) {
    pc.WantFill? || pc.TakeCursor? || pc.CopyRow? || pc.SetKey? || pc.Done?
  }

  predicate HasRow(pc: Pc) {
    pc.WantFill? || pc.TakeCursor? || pc.CopyRow? || pc.SetKey? || pc.Done?
  }

  predicate Shaped(s: State) {
    && s.ways >= 1 && |s.keys| == |s.slots| == |s.victim| == |s.log| && |s.locks| == STRIPES
    && (forall z :: 0 <= z < |s.keys| ==> |s.keys[z]| == |s.slots[z]| == s.ways)
  }

  function Put(s: State, t: nat, c: Call): State
    requires t < |s.calls|
  {
    s.(calls := s.calls[t := c])
  }

  function Goto(s: State, t: nat, pc: Pc): State
    requires t < |s.calls|
  {
    Put(s, t, s.calls[t].(pc := pc))
  }

  function Release(s: State, id: nat): State
    requires Shaped(s) && |s.keys| > 0
  {
    s.(locks := s.locks[Stripe(s, id) := FREE])
  }

  predicate CanStep(s: State, t: nat) {
    && Shaped(s) && t < |s.calls| && s.calls[t].id < |s.table|
    && var c := s.calls[t];
       match c.pc
       case Idle => false
       case WantProbe => |s.keys| == 0 || s.locks[Stripe(s, c.id)] == FREE
       case WantFill => |s.keys| == 0 || s.locks[Stripe(s, c.id)] == FREE
       case ReadMiss => true
       case Done => true
       case Scan => |s.keys| > 0
       case _ => |s.keys| > 0 && c.way < s.ways
  }

  function Step(s: State, t: nat): State
    requires CanStep(s, t)
  {
    var c := s.calls[t];
    match c.pc
    case WantProbe =>
      if |s.keys| == 0 then Goto(s, t, ReadMiss)
      else Put(s.(locks := s.locks[Stripe(s, c.id) := t]), t, c.(pc := Scan, way := 0))
    case Scan =>
      var z := SetOf(s, c.id);
      if c.way >= s.ways then Goto(Release(s, c.id), t, ReadMiss)
      else if s.keys[z][c.way] == c.id + 1 then Goto(s, t, CopyHit)
      else Put(s, t, c.(way := c.way + 1))
    case CopyHit =>
      Put(Release(s, c.id).(hits := s.hits + 1), t, c.(pc := Done, row := s.slots[SetOf(s, c.id)][c.way]))
    case ReadMiss =>
      Put(s.(misses := s.misses + 1), t, c.(pc := WantFill, row := s.table[c.id]))
    case WantFill =>
      if |s.keys| == 0 then Goto(s, t, Done)
      else Put(s.(locks := s.locks[Stripe(s, c.id) := t]), t, c.(pc := TakeCursor, way := 0))
    case TakeCursor =>
      var z := SetOf(s, c.id);
      Put(s.(victim := s.victim[z := (s.victim[z] + 1) % s.ways]), t, c.(pc := CopyRow, way := s.victim[z] % s.ways))
    case CopyRow =>
      var z := SetOf(s, c.id);
      Goto(s.(slots := s.slots[z := s.slots[z][c.way := c.row]]), t, SetKey)
    case SetKey =>
      var z := SetOf(s, c.id);
      var ways: seq<nat> := s.keys[z][c.way := c.id + 1];
      Goto(Release(s, c.id).(keys := s.keys[z := ways], log := s.log[z := s.log[z] + [c.id]]), t, Done)
    case Done => Goto(s.(finished := s.finished + 1), t, Idle)
    case Idle => s
  }

  /** An idle thread asks for any row of the table. */
  predicate CanBegin(s: State, t: nat, id: nat) {
    t < |s.calls| && s.calls[t].pc.Idle? && id < |s.table|
  }

  function Begin(s: State, t: nat, id: nat): State
    requires CanBegin(s, t, id)
  {
    Put(s, t, Call(WantProbe, id, 0, []))
  }

  ghost predicate Next(s: State, s': State) {
    || (exists t: nat :: CanStep(s, t) && s' == Step(s, t))
    || (exists t: nat, id: nat :: CanBegin(s, t, id) && s' == Begin(s, t, id))
  }

  ghost predicate Init(s: State) {
    && Shaped(s) && s.hits == s.misses == s.finished == 0
    && (forall z, w :: 0 <= z < |s.keys| && 0 <= w < s.ways ==> s.keys[z][w] == 0)
    && (forall z :: 0 <= z < |s.keys| ==> s.victim[z] == 0 && s.log[z] == [])
    && (forall k :: 0 <= k < STRIPES ==> s.locks[k] == FREE)
    && (forall t :: 0 <= t < |s.calls| ==> s.calls[t].pc.Idle?)
  }

  // ---------------------------------------------------------------- the invariant

  /** A stripe's lock is held by the one call that is inside its section. */
  ghost predicate Locking(s: State)
    requires Shaped(s)
  {
    && (forall t :: 0 <= t < |s.calls| && InLock(s.calls[t].pc) ==>
          |s.keys| > 0 && s.locks[Stripe(s, s.calls[t].id)] == t)
    && (forall k :: 0 <= k < STRIPES && s.locks[k] != FREE ==>
          && 0 <= s.locks[k] < |s.calls| && InLock(s.calls[s.locks[k]].pc) && |s.keys| > 0
          && Stripe(s, s.calls[s.locks[k]].id) == k)
  }

  /** The call, if any, that is between taking the cursor of set z and writing its key. */
  predicate Filling(s: State, z: nat)
    requires Shaped(s) && z < |s.keys|
  {
    var h := s.locks[z % STRIPES];
    0 <= h < |s.calls| && (s.calls[h].pc.CopyRow? || s.calls[h].pc.SetKey?) && SetOf(s, s.calls[h].id) == z
  }

  /** The one slot whose row is already new while its key is still old. */
  predicate Torn(s: State, z: nat, w: nat)
    requires Shaped(s) && z < |s.keys|
  {
    Filling(s, z) && s.calls[s.locks[z % STRIPES]].pc.SetKey? && s.calls[s.locks[z % STRIPES]].way == w
  }

  ghost predicate SetOk(s: State, z: nat)
    requires Shaped(s) && z < |s.keys|
  {
    && s.victim[z] == (if Filling(s, z) then (Cursor(s.log[z], s.ways) + 1) % s.ways else Cursor(s.log[z], s.ways))
    && (forall w :: 0 <= w < s.ways ==> s.keys[z][w] == KeyAt(s.log[z], w, s.ways))
    && (forall w :: 0 <= w < s.ways && s.keys[z][w] > 0 ==>
          s.keys[z][w] <= |s.table| && SetOf(s, s.keys[z][w] - 1) == z
          && (!Torn(s, z, w) ==> s.slots[z][w] == s.table[s.keys[z][w] - 1]))
  }

  ghost predicate CallOk(s: State, c: Call)
    requires Shaped(s)
  {
    && (!c.pc.Idle? ==> c.id < |s.table|)
    && (InLock(c.pc) ==> |s.keys| > 0)
    && (HasRow(c.pc) ==> c.row == s.table[c.id])
    && (c.pc.Scan? ==> c.way <= s.ways && forall w :: 0 <= w < c.way ==> s.keys[SetOf(s, c.id)][w] != c.id + 1)
    && (c.pc.CopyHit? ==> c.way < s.ways && s.keys[SetOf(s, c.id)][c.way] == c.id + 1)
    && (c.pc.TakeCursor? ==> c.way < s.ways)
    && (c.pc.CopyRow? || c.pc.SetKey? ==> c.way == Cursor(s.log[SetOf(s, c.id)], s.ways))
    && (c.pc.SetKey? ==> s.slots[SetOf(s, c.id)][c.way] == c.row)
  }

  function CountCounted(cs: seq<Call>): nat {
    if cs == [] then 0 else (if Counted(cs[0].pc) then 1 else 0) + CountCounted(cs[1..])
  }

  lemma {:induction false} CountUpdate(cs: seq<Call>, t: nat, c: Call)
    requires t < |cs|
    ensures CountCounted(cs[t := c]) == CountCounted(cs)
      - (if Counted(cs[t].pc) then 1 else 0) + (if Counted(c.pc) then 1 else 0)
  {
    if t == 0 {
      assert cs[t := c][1..] == cs[1..];
    } else {
      assert cs[t := c][1..] == cs[1..][t - 1 := c];
      CountUpdate(cs[1..], t - 1, c);
    }
  }

  ghost predicate Inv(s: State) {
    && Shaped(s) && Locking(s)
    && (forall z :: 0 <= z < |s.keys| ==> SetOk(s, z))
    && (forall t :: 0 <= t < |s.calls| ==> CallOk(s, s.calls[t]))
    && s.hits + s.misses == s.finished + CountCounted(s.calls)
  }

  lemma {:induction false} CountIdle(cs: seq<Call>)
    requires forall t :: 0 <= t < |cs| ==> cs[t].pc.Idle?
    ensures CountCounted(cs) == 0
  {
    if cs != [] { CountIdle(cs[1..]); }
  }

  lemma InitInv(s: State)
    requires Init(s)
    ensures Inv(s)
  {
    CountIdle(s.calls);
  }

  // ---------------------------------------------------------------- one step

  lemma StepLocking(s: State, t: nat)
    requires Shaped(s) && Locking(s) && CanStep(s, t)
    ensures Shaped(Step(s, t)) && Locking(Step(s, t))
  {
    var pc := s.calls[t].pc;
    if pc.WantProbe? || pc.WantFill? { LockTaken(s, t); }
    else if InLock(pc) { LockHeld(s, t); }
  }

  lemma LockTaken(s: State, t: nat)
    requires Shaped(s) && Locking(s) && CanStep(s, t) && (s.calls[t].pc.WantProbe? || s.calls[t].pc.WantFill?)
    ensures Shaped(Step(s, t)) && Locking(Step(s, t))
  {
  }

  lemma LockHeld(s: State, t: nat)
    requires Shaped(s) && Locking(s) && CanStep(s, t) && InLock(s.calls[t].pc)
    ensures Shaped(Step(s, t)) && Locking(Step(s, t))
  {
    var s' := Step(s, t);
    assert s'.locks == s.locks || s'.locks == s.locks[Stripe(s, s.calls[t].id) := FREE];
  }

  /** Two calls inside their locked sections work on different sets. */
  lemma Exclusive(s: State, t: nat, u: nat)
    requires Shaped(s) && Locking(s) && t < |s.calls| && u < |s.calls| && t != u
    requires InLock(s.calls[t].pc) && InLock(s.calls[u].pc)
    ensures SetOf(s, s.calls[t].id) != SetOf(s, s.calls[u].id)
  {
  }

  /** A step leaves every set but its own, and every other call, as they were. */
  lemma StepFrame(s: State, t: nat)
    requires Shaped(s) && Locking(s) && CanStep(s, t)
    ensures var s' := Step(s, t);
      && Shaped(s') && s'.table == s.table && s'.ways == s.ways && |s'.keys| == |s.keys|
      && s'.calls == s.calls[t := s'.calls[t]]
      && (forall z :: 0 <= z < |s.keys| && z != SetOf(s, s.calls[t].id) ==>
            s'.keys[z] == s.keys[z] && s'.slots[z] == s.slots[z] && s'.victim[z] == s.victim[z] && s'.log[z] == s.log[z])
      && (!InLock(s.calls[t].pc) ==>
            s'.keys == s.keys && s'.slots == s.slots && s'.victim == s.victim && s'.log == s.log)
  {
  }

  lemma OtherSet(s: State, t: nat, z: nat)
    requires Shaped(s) && Locking(s) && CanStep(s, t) && z < |s.keys| && z != SetOf(s, s.calls[t].id) && SetOk(s, z)
    ensures Shaped(Step(s, t)) && SetOk(Step(s, t), z)
  {
    StepFrame(s, t);
    OtherFilling(s, t, z);
  }

  /** A step leaves the fills of other sets where they are. */
  lemma OtherFilling(s: State, t: nat, z: nat)
    requires Shaped(s) && Locking(s) && CanStep(s, t) && z < |s.keys| && z != SetOf(s, s.calls[t].id)
    ensures Shaped(Step(s, t)) && Filling(Step(s, t), z) == Filling(s, z)
    ensures forall w :: 0 <= w < s.ways ==> Torn(Step(s, t), z, w) == Torn(s, z, w)
  {
    StepFrame(s, t);
    StepLocking(s, t);
    var s' := Step(s, t);
    assert Filling(s', z) == Filling(s, z);
  }

  lemma OwnSet(s: State, t: nat)
    requires Shaped(s) && Locking(s) && CanStep(s, t) && |s.keys| > 0
    requires CallOk(s, s.calls[t]) && SetOk(s, SetOf(s, s.calls[t].id))
    ensures Shaped(Step(s, t)) && SetOk(Step(s, t), SetOf(s, s.calls[t].id))
  {
    var c := s.calls[t];
    if c.pc.TakeCursor? || c.pc.CopyRow? || c.pc.SetKey? {
      OwnSetFilled(s, t);
    } else {
      StepFrame(s, t);
      StepLocking(s, t);
    }
  }

  lemma OwnSetFilled(s: State, t: nat)
    requires Shaped(s) && Locking(s) && CanStep(s, t) && |s.keys| > 0
    requires s.calls[t].pc.TakeCursor? || s.calls[t].pc.CopyRow? || s.calls[t].pc.SetKey?
    requires CallOk(s, s.calls[t]) && SetOk(s, SetOf(s, s.calls[t].id))
    ensures Shaped(Step(s, t)) && SetOk(Step(s, t), SetOf(s, s.calls[t].id))
  {
    StepFrame(s, t);
    StepLocking(s, t);
    var c, z := s.calls[t], SetOf(s, s.calls[t].id);
    if c.pc.SetKey? { AfterFill(s.log[z], c.id, s.ways); }
    if c.pc.TakeCursor? { DivModUnique(0, s.victim[z], s.ways); }
  }

  lemma OwnCall(s: State, t: nat)
    requires Shaped(s) && Locking(s) && CanStep(s, t) && CallOk(s, s.calls[t])
    requires |s.keys| > 0 ==> SetOk(s, SetOf(s, s.calls[t].id))
    ensures Shaped(Step(s, t)) && CallOk(Step(s, t), Step(s, t).calls[t])
  {
    StepFrame(s, t);
    var c := s.calls[t];
    if c.pc.TakeCursor? { DivModUnique(0, s.victim[SetOf(s, c.id)], s.ways); }
  }

  lemma OtherCall(s: State, t: nat, u: nat)
    requires Shaped(s) && Locking(s) && CanStep(s, t) && u < |s.calls| && u != t && CallOk(s, s.calls[u])
    ensures Shaped(Step(s, t)) && CallOk(Step(s, t), Step(s, t).calls[u])
  {
    StepFrame(s, t);
    if InLock(s.calls[u].pc) && InLock(s.calls[t].pc) { Exclusive(s, t, u); }
  }

  lemma StepCount(s: State, t: nat)
    requires CanStep(s, t) && s.hits + s.misses == s.finished + CountCounted(s.calls)
    ensures Step(s, t).hits + Step(s, t).misses == Step(s, t).finished + CountCounted(Step(s, t).calls)
  {
    CountUpdate(s.calls, t, Step(s, t).calls[t]);
  }

  lemma StepInv(s: State, t: nat)
    requires Inv(s) && CanStep(s, t)
    ensures Inv(Step(s, t))
  {
    var s' := Step(s, t);
    StepLocking(s, t);
    StepFrame(s, t);
    StepCount(s, t);
    forall z | 0 <= z < |s'.keys| ensures SetOk(s', z) {
      if z == SetOf(s, s.calls[t].id) { OwnSet(s, t); } else { OtherSet(s, t, z); }
    }
    forall u | 0 <= u < |s'.calls| ensures CallOk(s', s'.calls[u]) {
      if u == t { OwnCall(s, t); } else { OtherCall(s, t, u); }
    }
  }

  // ---------------------------------------------------------------- what it means for the callers

  /** A thread that is not inside fetch_row may ask for any row of the table. */
  lemma AnyRowMayBeAsked(s: State, t: nat, id: nat)
    requires t < |s.calls| && s.calls[t].pc.Idle? && id < |s.table|
    ensures Next(s, s.(calls := s.calls[t := Call(WantProbe, id, 0, [])]))
  {
    assert CanBegin(s, t, id) && Begin(s, t, id) == s.(calls := s.calls[t := Call(WantProbe, id, 0, [])]);
  }

  ghost predicate StepAt(c: seq<State>, i: nat) {
    i + 1 < |c| ==> Next(c[i], c[i + 1])
  }

  ghost predicate IsRun(c: seq<State>) {
    |c| > 0 && Init(c[0]) && forall i: nat :: StepAt(c, i)
  }

  lemma BeginSet(s: State, t: nat, id: nat, z: nat)
    requires Shaped(s) && Locking(s) && CanBegin(s, t, id) && z < |s.keys| && SetOk(s, z)
    ensures Shaped(Begin(s, t, id)) && SetOk(Begin(s, t, id), z)
  {
    var s' := Begin(s, t, id);
    assert Filling(s', z) == Filling(s, z);
    forall w | 0 <= w < s.ways ensures Torn(s', z, w) == Torn(s, z, w) {}
  }

  lemma BeginInv(s: State, t: nat, id: nat)
    requires Inv(s) && CanBegin(s, t, id)
    ensures Inv(Begin(s, t, id))
  {
    var s' := Begin(s, t, id);
    CountUpdate(s.calls, t, s'.calls[t]);
    forall z | 0 <= z < |s'.keys| ensures SetOk(s', z) { BeginSet(s, t, id, z); }
    forall u | 0 <= u < |s'.calls| ensures CallOk(s', s'.calls[u]) {
      if u != t { assert CallOk(s, s.calls[u]); }
    }
  }

  lemma NextInv(s: State, s': State)
    requires Inv(s) && Next(s, s')
    ensures Inv(s')
  {
    if t: nat :| CanStep(s, t) && s' == Step(s, t) {
      StepInv(s, t);
    } else {
      var t: nat, id: nat :| CanBegin(s, t, id) && s' == Begin(s, t, id);
      BeginInv(s, t, id);
    }
  }

  lemma {:induction false} RunInv(c: seq<State>, k: nat)
    requires IsRun(c) && k < |c|
    ensures Inv(c[k])
  {
    if k == 0 { InitInv(c[0]); } else { RunInv(c, k - 1); assert StepAt(c, k - 1); NextInv(c[k - 1], c[k]); }
  }

  /** Whatever the interleaving, a call that returns has the row of the table, and every returned call was counted once. */
  lemma FetchIsExact(c: seq<State>, k: nat)
    requires IsRun(c) && k < |c|
    ensures forall t :: 0 <= t < |c[k].calls| && c[k].calls[t].pc.Done? ==>
      c[k].calls[t].id < |c[k].table| && c[k].calls[t].row == c[k].table[c[k].calls[t].id]
    ensures c[k].hits + c[k].misses >= c[k].finished
    ensures (forall t :: 0 <= t < |c[k].calls| ==> c[k].calls[t].pc.Idle?) ==> c[k].hits + c[k].misses == c[k].finished
  {
    RunInv(c, k);
    if forall t :: 0 <= t < |c[k].calls| ==> c[k].calls[t].pc.Idle? { CountIdle(c[k].calls); }
  }

  /** The verdict of the locked look-up is right at the moment it is reached: a hit is cached, a miss is not. */
  lemma ProbeVerdict(c: seq<State>, k: nat, t: nat)
    requires IsRun(c) && k < |c| && t < |c[k].calls|
    ensures var s, p := c[k], c[k].calls[t];
      && (p.pc.CopyHit? ==> |s.keys| > 0 && s.ways >= 1 && |s.log| == |s.keys| && Cached(s.log[SetOf(s, p.id)], p.id, s.ways))
      && (p.pc.Scan? && p.way == s.ways ==>
            |s.keys| > 0 && s.ways >= 1 && |s.log| == |s.keys| && !Cached(s.log[SetOf(s, p.id)], p.id, s.ways))
  {
    RunInv(c, k);
    var s, p := c[k], c[k].calls[t];
    assert CallOk(s, p);
    if p.pc.CopyHit? || p.pc.Scan? {
      assert SetOk(s, SetOf(s, p.id));
      if p.pc.CopyHit? { assert KeyAt(s.log[SetOf(s, p.id)], p.way, s.ways) == p.id + 1; }
      assert forall w :: 0 <= w < s.ways ==> s.keys[SetOf(s, p.id)][w] == KeyAt(s.log[SetOf(s, p.id)], w, s.ways);
    }
  }

  /** With no fill of the set under way, its slots are exactly the last min(n, ways) rows filled into it. */
  lemma SetContents(c: seq<State>, k: nat, z: nat, id: nat)
    requires IsRun(c) && k < |c| && z < |c[k].keys|
    ensures Shaped(c[k])
    ensures var s := c[k];
      && s.ways >= 1
      && ((exists w :: 0 <= w < s.ways && s.keys[z][w] == id + 1)
          <==> exists j :: 0 <= j < |s.log[z]| <= j + s.ways && s.log[z][j] == id)
      && (forall w :: 0 <= w < s.ways && s.keys[z][w] > 0 ==> (s.keys[z][w] - 1) % |s.keys| == z)
      && (s.locks[z % 256] == FREE ==> forall w :: 0 <= w < s.ways && s.keys[z][w] > 0 ==>
            s.keys[z][w] <= |s.table| && s.slots[z][w] == s.table[s.keys[z][w] - 1])
  {
    RunInv(c, k);
    assert SetOk(c[k], z);
    CachedIsRecent(c[k].log[z], id, c[k].ways);
    if w :| 0 <= w < c[k].ways && c[k].keys[z][w] == id + 1 { assert KeyAt(c[k].log[z], w, c[k].ways) == id + 1; }
    if Cached(c[k].log[z], id, c[k].ways) {
      var w :| 0 <= w < c[k].ways && KeyAt(c[k].log[z], w, c[k].ways) == id + 1;
      assert c[k].keys[z][w] == id + 1;
    }
  }

  /**
   * Two calls inside their locked sections work on sets that differ modulo 256, and a call waits for its
   * lock only while another call is inside the section of a set that does not.
   */
  lemma LocksAreStriped(c: seq<State>, k: nat, t: nat)
    requires IsRun(c) && k < |c| && t < |c[k].calls| && |c[k].keys| > 0
    ensures var s := c[k]; var n := |s.keys|;
      && (InLock(s.calls[t].pc) ==> forall u :: 0 <= u < |s.calls| && u != t && InLock(s.calls[u].pc) ==>
            s.calls[u].id % n % 256 != s.calls[t].id % n % 256)
      && (!s.calls[t].pc.Idle? && !CanStep(s, t) ==>
            exists u :: 0 <= u < |s.calls| && InLock(s.calls[u].pc) && s.calls[u].id % n % 256 == s.calls[t].id % n % 256)
  {
    RunInv(c, k);
    var s := c[k];
    assert CallOk(s, s.calls[t]);
    if !s.calls[t].pc.Idle? && !CanStep(s, t) {
      var u := s.locks[Stripe(s, s.calls[t].id)];
      assert InLock(s.calls[u].pc) && Stripe(s, s.calls[u].id) == Stripe(s, s.calls[t].id);
    }
  }

  // ---------------------------------------------------------------- what the counters count

  /** The call has counted its miss and its row is not yet in the cache. */
  predicate Missing(pc: Pc) {
    pc.WantFill? || pc.TakeCursor? || pc.CopyRow? || pc.SetKey?
  }

  function CountMissing(cs: seq<Call>): nat {
    if cs == [] then 0 else (if Missing(cs[0].pc) then 1 else 0) + CountMissing(cs[1..])
  }

  /** The fills of all sets. */
  function Fills(log: seq<seq<nat>>): nat {
    if log == [] then 0 else |log[0]| + Fills(log[1..])
  }

  ghost predicate Counts(s: State) {
    if |s.keys| == 0 then s.hits == 0 else s.misses == Fills(s.log) + CountMissing(s.calls)
  }

  lemma {:induction false} MissingUpdate(cs: seq<Call>, t: nat, c: Call)
    requires t < |cs|
    ensures CountMissing(cs[t := c]) == CountMissing(cs)
      - (if Missing(cs[t].pc) then 1 else 0) + (if Missing(c.pc) then 1 else 0)
  {
    if t == 0 {
      assert cs[t := c][1..] == cs[1..];
    } else {
      assert cs[t := c][1..] == cs[1..][t - 1 := c];
      MissingUpdate(cs[1..], t - 1, c);
    }
  }

  lemma {:induction false} FillsUpdate(log: seq<seq<nat>>, z: nat, l: seq<nat>)
    requires z < |log|
    ensures Fills(log[z := l]) == Fills(log) - |log[z]| + |l|
  {
    if z == 0 {
      assert log[z := l][1..] == log[1..];
    } else {
      assert log[z := l][1..] == log[1..][z - 1 := l];
      FillsUpdate(log[1..], z - 1, l);
    }
  }

  lemma {:induction false} NoFills(log: seq<seq<nat>>)
    requires forall z :: 0 <= z < |log| ==> log[z] == []
    ensures Fills(log) == 0
  {
    if log != [] { NoFills(log[1..]); }
  }

  lemma {:induction false} NoneMissing(cs: seq<Call>)
    requires forall t :: 0 <= t < |cs| ==> cs[t].pc.Idle?
    ensures CountMissing(cs) == 0
  {
    if cs != [] { NoneMissing(cs[1..]); }
  }

  lemma StepCounts(s: State, t: nat)
    requires CanStep(s, t) && Counts(s) && (|s.keys| == 0 ==> !s.calls[t].pc.CopyHit?)
    ensures Counts(Step(s, t))
  {
    var s', c := Step(s, t), s.calls[t];
    MissingUpdate(s.calls, t, s'.calls[t]);
    if c.pc.SetKey? { FillsUpdate(s.log, SetOf(s, c.id), s.log[SetOf(s, c.id)] + [c.id]); }
  }

  lemma {:induction false} RunCounts(c: seq<State>, k: nat)
    requires IsRun(c) && k < |c|
    ensures Counts(c[k])
  {
    if k == 0 {
      NoFills(c[0].log);
      NoneMissing(c[0].calls);
    } else {
      RunCounts(c, k - 1);
      RunInv(c, k - 1);
      assert StepAt(c, k - 1);
      NextCounts(c[k - 1], c[k]);
    }
  }

  lemma NextCounts(s: State, s': State)
    requires Inv(s) && Counts(s) && Next(s, s')
    ensures Counts(s')
  {
    if t: nat :| CanStep(s, t) && s' == Step(s, t) {
      assert CallOk(s, s.calls[t]);
      StepCounts(s, t);
    } else {
      var t: nat, id: nat :| CanBegin(s, t, id) && s' == Begin(s, t, id);
      MissingUpdate(s.calls, t, s'.calls[t]);
    }
  }

  /**
   * Each miss is a fill, done or under way: without calls under way the misses are the fills, and the hits
   * are all other calls that have returned. Without a cache every call is a miss.
   */
  lemma CountsAreExact(c: seq<State>, k: nat)
    requires IsRun(c) && k < |c|
    ensures |c[k].keys| == 0 ==> c[k].hits == 0
    ensures |c[k].keys| > 0 ==> c[k].misses == Fills(c[k].log) + CountMissing(c[k].calls)
    ensures (forall t :: 0 <= t < |c[k].calls| ==> c[k].calls[t].pc.Idle?) ==>
      && c[k].misses == (if |c[k].keys| == 0 then c[k].finished else Fills(c[k].log))
      && c[k].hits == c[k].finished - c[k].misses
  {
    RunCounts(c, k);
    FetchIsExact(c, k);
    if forall t :: 0 <= t < |c[k].calls| ==> c[k].calls[t].pc.Idle? { NoneMissing(c[k].calls); }
  }

  /** While some call is unfinished, some call can step: a blocked one waits only for a holder that can. */
  lemma NoDeadlock(s: State, t: nat) returns (u: nat)
    requires Inv(s) && t < |s.calls| && !s.calls[t].pc.Idle?
    ensures CanStep(s, u) && !s.calls[u].pc.Idle? && (u == t || InLock(s.calls[u].pc))
  {
    u := t;
    if !CanStep(s, t) { u := s.locks[Stripe(s, s.calls[t].id)]; }
    assert CallOk(s, s.calls[u]);
  }
}
