/**
 * row_store_lookup as a whole: the pool's threads serve their tickets through the shared cache, fetch_row
 * by fetch_row. Every composite step is a pool step, a cache step, or both at once, and the pool's
 * assumption that a serve step stores the right row is discharged by the cache.
 */
module Lookup {
  import opened Arithmetic
  import opened Rows
  import P = Pool
  import PI = PoolInvariant
  import PT = PoolTheorems
  import C = Cache

  datatype State = State(pool: P.State, cache: C.State)

  /** Thread t is at the next index of its ticket. */
  predicate Serving(s: State, t: nat) {
    && t < |s.pool.threads| && t < |s.cache.calls| && s.pool.threads[t].pc.Serve?
    && P.CanMove(s.pool, t)
  }

  function IdOf(s: State, t: nat): int
    requires Serving(s, t)
  {
    var th := s.pool.threads[t];
    s.pool.jobs[th.work].ids[th.index]
  }

  /** A pool action other than a serve step. */
  predicate CanPool(s: State, t: nat, wake: int) {
    t < |s.pool.threads| && !s.pool.threads[t].pc.Serve? && P.CanStep(s.pool, t, [], wake)
  }

  function PoolStep(s: State, t: nat, wake: int): State
    requires CanPool(s, t, wake)
  {
    s.(pool := P.Step(s.pool, t, [], wake))
  }

  /** serve() on a row of another rank: zeros, without a fetch. */
  predicate CanZero(s: State, t: nat) {
    Serving(s, t) && !Owned(s.pool.backing, IdOf(s, t))
  }

  function ZeroStep(s: State, t: nat): State
    requires CanZero(s, t)
  {
    s.(pool := P.Act(s.pool, t, Zeros(ROW_BYTES)))
  }

  /** serve() on an owned row calls fetch_row. */
  predicate CanFetch(s: State, t: nat) {
    && Serving(s, t) && Owned(s.pool.backing, IdOf(s, t)) && IdOf(s, t) >= 0
    && C.CanBegin(s.cache, t, IdOf(s, t))
  }

  function FetchStep(s: State, t: nat): State
    requires CanFetch(s, t)
  {
    s.(cache := C.Begin(s.cache, t, IdOf(s, t)))
  }

  predicate CanCache(s: State, t: nat) {
    C.CanStep(s.cache, t) && !s.cache.calls[t].pc.Done?
  }

  function CacheStep(s: State, t: nat): State
    requires CanCache(s, t)
  {
    s.(cache := C.Step(s.cache, t))
  }

  /** fetch_row returns and serve() copies out whatever row it returned. */
  predicate CanStore(s: State, t: nat) {
    Serving(s, t) && C.CanStep(s.cache, t) && s.cache.calls[t].pc.Done?
  }

  function StoreStep(s: State, t: nat): State
    requires CanStore(s, t)
  {
    State(P.Act(s.pool, t, s.cache.calls[t].row), C.Step(s.cache, t))
  }

  ghost predicate Takes(s: State, s': State, t: nat, wake: int) {
    || (CanPool(s, t, wake) && s' == PoolStep(s, t, wake))
    || (CanZero(s, t) && s' == ZeroStep(s, t))
    || (CanFetch(s, t) && s' == FetchStep(s, t))
    || (CanCache(s, t) && s' == CacheStep(s, t))
    || (CanStore(s, t) && s' == StoreStep(s, t))
  }

  ghost predicate Internal(s: State, s': State) {
    exists t: nat, wake: int :: Takes(s, s', t, wake)
  }

  ghost predicate Environment(s: State, s': State) {
    s'.cache == s.cache && P.Environment(s.pool, s'.pool)
  }

  ghost predicate Init(s: State) {
    && P.Init(s.pool) && C.Init(s.cache)
    && |s.cache.calls| == |s.pool.threads| && s.cache.table == s.pool.backing.table
  }

  /** A fetch is under way only for the id its thread is serving. */
  ghost predicate Linked(s: State) {
    && |s.cache.calls| == |s.pool.threads| && s.cache.table == s.pool.backing.table
    && forall t :: 0 <= t < |s.cache.calls| && !s.cache.calls[t].pc.Idle? ==>
         Serving(s, t) && Owned(s.pool.backing, IdOf(s, t)) && IdOf(s, t) == s.cache.calls[t].id
  }

  ghost predicate Inv(s: State) {
    PI.Inv(s.pool) && C.Inv(s.cache) && Linked(s)
  }

  lemma InitInv(s: State)
    requires Init(s)
    ensures Inv(s)
  {
    PI.InitInv(s.pool);
    C.InitInv(s.cache);
  }

  // ---------------------------------------------------------------- refinement of the pool

  /** The row that a finished fetch brings back is the one the pool's serve step calls for. */
  lemma StoreIsExact(s: State, t: nat)
    requires Inv(s) && CanStore(s, t)
    ensures P.CanStep(s.pool, t, s.cache.calls[t].row, P.FREE)
    ensures StoreStep(s, t).pool == P.Step(s.pool, t, s.cache.calls[t].row, P.FREE)
  {
    assert C.CallOk(s.cache, s.cache.calls[t]);
  }

  lemma ZeroIsExact(s: State, t: nat)
    requires CanZero(s, t)
    ensures P.CanStep(s.pool, t, Zeros(ROW_BYTES), P.FREE)
    ensures ZeroStep(s, t).pool == P.Step(s.pool, t, Zeros(ROW_BYTES), P.FREE)
  {
  }

  /** Every composite step is a step of the pool or leaves the pool as it is. */
  lemma Refines(s: State, s': State)
    requires Inv(s) && Next(s, s')
    ensures s'.pool == s.pool || P.Internal(s.pool, s'.pool) || P.Environment(s.pool, s'.pool)
  {
    if Internal(s, s') {
      var t: nat, wake: int :| Takes(s, s', t, wake);
      if CanZero(s, t) && s' == ZeroStep(s, t) { ZeroIsExact(s, t); }
      else if CanStore(s, t) && s' == StoreStep(s, t) { StoreIsExact(s, t); }
    }
  }

  // ---------------------------------------------------------------- the link between the two machines

  /** Another thread's serve is untouched by a pool step. */
  lemma ServeKept(p: P.State, t: nat, row: Bytes, wake: int, u: nat)
    requires P.CanStep(p, t, row, wake) && u != t && P.CanMove(p, u) && p.threads[u].pc.Serve?
    ensures var p' := P.Step(p, t, row, wake);
      && u < |p'.threads| && p'.threads[u] == p.threads[u] && P.CanMove(p', u) && p'.backing == p.backing
      && p'.jobs[p.threads[u].work].ids == p.jobs[p.threads[u].work].ids
  {
    var p1 := P.Notified(p, t, wake);
    PT.NotifiedShape(p, t, wake);
    assert p1.threads[u] == p.threads[u] && p1.jobs == p.jobs && p1.backing == p.backing && p1.chunk == p.chunk;
    ActKept(p1, t, row, u);
  }

  lemma ActKept(p: P.State, t: nat, row: Bytes, u: nat)
    requires P.CanAct(p, t, row) && u != t && P.CanMove(p, u) && p.threads[u].pc.Serve?
    ensures var p' := P.Act(p, t, row);
      && u < |p'.threads| && p'.threads[u] == p.threads[u] && P.CanMove(p', u) && p'.backing == p.backing
      && p'.jobs[p.threads[u].work].ids == p.jobs[p.threads[u].work].ids
  {
  }

  lemma PoolSizes(p: P.State, t: nat, row: Bytes, wake: int)
    requires P.CanStep(p, t, row, wake)
    ensures |P.Step(p, t, row, wake).threads| == |p.threads| && P.Step(p, t, row, wake).backing == p.backing
  {
  }

  /** A pool step by thread t keeps the link as long as no fetch of t's own is left behind. */
  lemma PoolLinked(s: State, s': State, t: nat, row: Bytes, wake: int)
    requires Linked(s) && P.CanStep(s.pool, t, row, wake) && s'.pool == P.Step(s.pool, t, row, wake)
    requires |s'.cache.calls| == |s.cache.calls| && s'.cache.table == s.cache.table
    requires t < |s.cache.calls| && s'.cache.calls[t].pc.Idle?
    requires forall u :: 0 <= u < |s.cache.calls| && u != t ==> s'.cache.calls[u] == s.cache.calls[u]
    ensures Linked(s')
  {
    PoolSizes(s.pool, t, row, wake);
    forall u | 0 <= u < |s'.cache.calls| && !s'.cache.calls[u].pc.Idle?
      ensures Serving(s', u) && Owned(s'.pool.backing, IdOf(s', u)) && IdOf(s', u) == s'.cache.calls[u].id
    {
      ServeKept(s.pool, t, row, wake, u);
    }
  }

  lemma CacheShape(s: C.State, t: nat)
    requires C.CanStep(s, t)
    ensures var s' := C.Step(s, t);
      && |s'.calls| == |s.calls| && s'.table == s.table && s'.calls[t].id == s.calls[t].id
      && (s'.calls[t].pc.Idle? <==> s.calls[t].pc.Done?)
      && forall u :: 0 <= u < |s.calls| && u != t ==> s'.calls[u] == s.calls[u]
  {
  }

  lemma ZeroLinked(s: State, t: nat)
    requires Inv(s) && CanZero(s, t)
    ensures Linked(ZeroStep(s, t))
  {
    ZeroIsExact(s, t);
    PoolLinked(s, ZeroStep(s, t), t, Zeros(ROW_BYTES), P.FREE);
  }

  lemma PoolStepLinked(s: State, t: nat, wake: int)
    requires Inv(s) && CanPool(s, t, wake)
    ensures Linked(PoolStep(s, t, wake))
  {
    PoolLinked(s, PoolStep(s, t, wake), t, [], wake);
  }

  lemma CacheStepLinked(s: State, t: nat)
    requires Inv(s) && CanCache(s, t)
    ensures Linked(CacheStep(s, t))
  {
    CacheShape(s.cache, t);
  }

  lemma StoreLinked(s: State, t: nat)
    requires Inv(s) && CanStore(s, t)
    ensures Linked(StoreStep(s, t))
  {
    StoreIsExact(s, t);
    CacheShape(s.cache, t);
    PoolLinked(s, StoreStep(s, t), t, s.cache.calls[t].row, P.FREE);
  }

  lemma TakesLinked(s: State, s': State, t: nat, wake: int)
    requires Inv(s) && Takes(s, s', t, wake)
    ensures Linked(s')
  {
    if CanPool(s, t, wake) && s' == PoolStep(s, t, wake) {
      PoolStepLinked(s, t, wake);
    } else if CanZero(s, t) && s' == ZeroStep(s, t) {
      ZeroLinked(s, t);
    } else if CanStore(s, t) && s' == StoreStep(s, t) {
      StoreLinked(s, t);
    } else if CanCache(s, t) && s' == CacheStep(s, t) {
      CacheStepLinked(s, t);
    }
  }

  lemma EnvironmentLinked(s: State, s': State)
    requires Inv(s) && Environment(s, s')
    ensures Linked(s')
  {
    forall u | 0 <= u < |s'.cache.calls| && !s'.cache.calls[u].pc.Idle?
      ensures Serving(s', u) && Owned(s'.pool.backing, IdOf(s', u)) && IdOf(s', u) == s'.cache.calls[u].id
    {
      assert Serving(s, u);
      EnvironmentServes(s.pool, s'.pool, u);
    }
  }

  /** Calls and spurious wakeups do not touch a thread that is serving. */
  lemma EnvironmentServes(p: P.State, p': P.State, u: nat)
    requires P.Environment(p, p') && P.CanMove(p, u) && p.threads[u].pc.Serve?
    ensures P.CanMove(p', u) && p'.threads[u] == p.threads[u] && p'.backing == p.backing
    ensures p'.jobs[p.threads[u].work] == p.jobs[p.threads[u].work]
  {
  }

  lemma TakesCache(s: State, s': State, t: nat, wake: int)
    requires Inv(s) && Takes(s, s', t, wake)
    ensures C.Inv(s'.cache)
  {
    if CanStore(s, t) && s' == StoreStep(s, t) { C.StepInv(s.cache, t); }
    else if CanCache(s, t) && s' == CacheStep(s, t) { C.StepInv(s.cache, t); }
    else if CanFetch(s, t) && s' == FetchStep(s, t) { C.BeginInv(s.cache, t, IdOf(s, t)); }
  }

  lemma NextInv(s: State, s': State)
    requires Inv(s) && Next(s, s')
    ensures Inv(s')
  {
    Refines(s, s');
    if s'.pool != s.pool { PT.NextInv(s.pool, s'.pool); }
    if Internal(s, s') {
      var t: nat, wake: int :| Takes(s, s', t, wake);
      TakesLinked(s, s', t, wake);
      TakesCache(s, s', t, wake);
    } else {
      EnvironmentLinked(s, s');
    }
  }

  ghost predicate Next(s: State, s': State) {
    Internal(s, s') || Environment(s, s')
  }

  ghost predicate StepAt(c: seq<State>, i: nat) {
    i + 1 < |c| ==> Next(c[i], c[i + 1])
  }

  ghost predicate IsRun(c: seq<State>) {
    |c| > 0 && Init(c[0]) && forall i: nat :: StepAt(c, i)
  }

  lemma {:induction false} RunInv(c: seq<State>, k: nat)
    requires IsRun(c) && k < |c|
    ensures Inv(c[k])
  {
    if k == 0 { InitInv(c[0]); } else { RunInv(c, k - 1); assert StepAt(c, k - 1); NextInv(c[k - 1], c[k]); }
  }

  /**
   * For every interleaving of callers, workers, cache hits, racing misses and evictions: once a call has
   * returned, its buffer holds exactly the table's rows for the ids this rank owns and zeros for the rest.
   */
  lemma LookupIsExact(c: seq<State>, k: nat, w: nat)
    requires IsRun(c) && k < |c| && PI.Retired(c[k].pool, w)
    ensures var j, b := c[k].pool.jobs[w], c[k].pool.backing;
      |j.out| == |j.ids| && forall i :: 0 <= i < |j.ids| ==>
        ValidId(b, j.ids[i]) && j.out[i] == if Owned(b, j.ids[i]) then b.table[j.ids[i]] else Zeros(ROW_BYTES)
  {
    RunInv(c, k);
  }

  lemma StaysReturned(c: seq<State>, k: nat, w: nat)
    requires IsRun(c) && k + 1 < |c| && PI.Retired(c[k].pool, w)
    ensures PI.Retired(c[k + 1].pool, w) && c[k + 1].pool.jobs[w] == c[k].pool.jobs[w]
  {
    RunInv(c, k);
    assert StepAt(c, k);
    Refines(c[k], c[k + 1]);
    if c[k + 1].pool != c[k].pool { PT.NextRetired(c[k].pool, c[k + 1].pool, w); }
  }

  /** A returned buffer is never written again. */
  lemma {:induction false} LookupIsFinal(c: seq<State>, i: nat, k: nat, w: nat)
    requires IsRun(c) && i <= k < |c| && PI.Retired(c[i].pool, w)
    ensures PI.Retired(c[k].pool, w) && c[k].pool.jobs[w] == c[i].pool.jobs[w]
  {
    if i < k {
      LookupIsFinal(c, i, k - 1, w);
      StaysReturned(c, k - 1, w);
    }
  }

  // ---------------------------------------------------------------- progress

  predicate CanTake(s: State, t: nat, wake: int) {
    CanPool(s, t, wake) || CanZero(s, t) || CanFetch(s, t) || CanCache(s, t) || CanStore(s, t)
  }

  ghost predicate Quiet(s: State) {
    forall t: nat, wake: int :: !CanTake(s, t, wake)
  }

  /** If a thread is stuck inside fetch_row, the holder of the lock it waits for is not. */
  lemma FetchMoves(s: State, t: nat)
    requires Inv(s) && t < |s.cache.calls| && !s.cache.calls[t].pc.Idle?
    ensures !Quiet(s)
  {
    var u := C.NoDeadlock(s.cache, t);
    assert CanTake(s, u, P.FREE);
  }

  lemma ServeMoves(s: State, t: nat)
    requires Inv(s) && Serving(s, t)
    ensures !Quiet(s)
  {
    if Owned(s.pool.backing, IdOf(s, t)) && !s.cache.calls[t].pc.Idle? {
      FetchMoves(s, t);
    } else {
      assert CanTake(s, t, P.FREE);
    }
  }

  /** When nothing can move, no call is waiting and every buffer handed in is complete. */
  lemma NoDeadlock(s: State)
    requires Inv(s) && Quiet(s)
    ensures forall t :: 0 <= t < |s.pool.threads| ==> !P.Calling(s.pool.threads[t])
    ensures forall w :: 0 <= w < |s.pool.jobs| ==> PI.Complete(s.pool.backing, s.pool.jobs[w])
  {
    forall t: nat, row: Bytes, wake: int ensures !P.CanStep(s.pool, t, row, wake) {
      if P.CanStep(s.pool, t, row, wake) {
        assert !CanTake(s, t, wake);
        ServeMoves(s, t);
      }
    }
    PT.NoDeadlock(s.pool);
  }

  function FetchRank(ways: nat, c: C.Call): nat {
    match c.pc
    case Idle => ways + 10
    case WantProbe => ways + 9
    case Scan => 8 + Arithmetic.Max(0, ways - c.way)
    case CopyHit => 7 case ReadMiss => 6 case WantFill => 5 case TakeCursor => 4 case CopyRow => 3 case SetKey => 2
    case Done => 1
  }

  function FetchWork(ways: nat, cs: seq<C.Call>): nat {
    if cs == [] then 0 else FetchRank(ways, cs[0]) + FetchWork(ways, cs[1..])
  }

  lemma {:induction false} FetchWorkUpdate(ways: nat, cs: seq<C.Call>, t: nat, c: C.Call)
    requires t < |cs|
    ensures FetchWork(ways, cs[t := c]) == FetchWork(ways, cs) - FetchRank(ways, cs[t]) + FetchRank(ways, c)
  {
    if t == 0 {
      assert cs[t := c][1..] == cs[1..];
    } else {
      assert cs[t := c][1..] == cs[1..][t - 1 := c];
      FetchWorkUpdate(ways, cs[1..], t - 1, c);
    }
  }

  function Fetching(s: State): nat {
    FetchWork(s.cache.ways, s.cache.calls)
  }

  lemma CallRankFalls(s: C.State, t: nat)
    requires C.CanStep(s, t) && !s.calls[t].pc.Done?
    ensures C.Step(s, t).calls == s.calls[t := C.Step(s, t).calls[t]] && C.Step(s, t).ways == s.ways
    ensures FetchRank(s.ways, C.Step(s, t).calls[t]) < FetchRank(s.ways, s.calls[t])
  {
  }

  lemma FetchFalls(s: State, s': State, t: nat)
    requires (CanFetch(s, t) && s' == FetchStep(s, t)) || (CanCache(s, t) && s' == CacheStep(s, t))
    ensures s'.pool == s.pool && Fetching(s') < Fetching(s)
  {
    if CanCache(s, t) { CallRankFalls(s.cache, t); }
    FetchWorkUpdate(s.cache.ways, s.cache.calls, t, s'.cache.calls[t]);
  }

  lemma TakesFalls(s: State, s': State, t: nat, wake: int)
    requires Inv(s) && Takes(s, s', t, wake)
    ensures Falls(s, s')
  {
    if CanPool(s, t, wake) && s' == PoolStep(s, t, wake) {
      PT.StepDecreases(s.pool, t, [], wake);
    } else if CanZero(s, t) && s' == ZeroStep(s, t) {
      ZeroIsExact(s, t);
      PT.StepDecreases(s.pool, t, Zeros(ROW_BYTES), P.FREE);
    } else if CanStore(s, t) && s' == StoreStep(s, t) {
      StoreIsExact(s, t);
      PT.StepDecreases(s.pool, t, s.cache.calls[t].row, P.FREE);
    } else {
      FetchFalls(s, s', t);
    }
  }

  ghost predicate Falls(s: State, s': State) {
    PT.Below(s'.pool, s.pool) || (s'.pool == s.pool && Fetching(s') < Fetching(s))
  }

  lemma InternalFalls(s: State, s': State)
    requires Inv(s) && Internal(s, s')
    ensures Inv(s') && Falls(s, s')
  {
    var t: nat, wake: int :| Takes(s, s', t, wake);
    TakesFalls(s, s', t, wake);
    NextInv(s, s');
  }

  // ---------------------------------------------------------------- every lookup returns, whoever asks next

  ghost predicate CallArrives(s: State, s': State) {
    s'.cache == s.cache && PT.CallArrives(s.pool, s'.pool)
  }

  ghost predicate Spurious(s: State, s': State) {
    s'.cache == s.cache && PT.Spurious(s.pool, s'.pool)
  }

  ghost predicate Serves(s: State, s': State) {
    Internal(s, s') || CallArrives(s, s') || (Quiet(s) && s' == s)
  }

  /** Threads act in any order, lookups arrive and waits end for no reason at any time; b bounds the spurious wakeups to come. */
  ghost predicate Busy(c: nat -> State, b: nat -> nat) {
    forall i: nat ::
      (Serves(c(i), c(i + 1)) && b(i + 1) <= b(i)) || (Spurious(c(i), c(i + 1)) && b(i + 1) < b(i))
  }

  /** Thread t has moved on in the pool, or some fetch has come nearer to its end and the pool waits. */
  ghost predicate Onward(s: State, s': State, t: nat)
    requires t < |s.pool.threads| && t < |s'.pool.threads|
  {
    PT.Onward(s.pool, s'.pool, t) || (s'.pool == s.pool && Fetching(s') < Fetching(s))
  }

  lemma TakesOnward(s: State, s': State, u: nat, wake: int, t: nat)
    requires Inv(s) && Takes(s, s', u, wake) && s.pool.callerLock == t
    ensures t < |s.pool.threads| && t < |s'.pool.threads| && Onward(s, s', t)
  {
    if CanPool(s, u, wake) && s' == PoolStep(s, u, wake) {
      PT.StepOnward(s.pool, u, [], wake, t);
    } else if CanZero(s, u) && s' == ZeroStep(s, u) {
      ZeroIsExact(s, u);
      PT.StepOnward(s.pool, u, Zeros(ROW_BYTES), P.FREE, t);
    } else if CanStore(s, u) && s' == StoreStep(s, u) {
      StoreIsExact(s, u);
      PT.StepOnward(s.pool, u, s.cache.calls[u].row, P.FREE, t);
    } else {
      FetchFalls(s, s', u);
    }
  }

  lemma BusyOnward(s: State, s': State, t: nat)
    requires Inv(s) && s.pool.callerLock == t && Serves(s, s')
    ensures Inv(s') && t < |s.pool.threads| && t < |s'.pool.threads| && Onward(s, s', t)
  {
    if Internal(s, s') {
      var u: nat, wake: int :| Takes(s, s', u, wake);
      TakesOnward(s, s', u, wake, t);
      NextInv(s, s');
    } else if CallArrives(s, s') {
      PT.BusyOnward(s.pool, s'.pool, t);
      NextInv(s, s');
    } else {
      NoDeadlock(s);
      assert false;
    }
  }

  /** The call on Work w that thread t is inside of. */
  ghost predicate Inside(s: State, t: nat, w: nat) {
    Inv(s) && PT.Inside(s.pool, t, w)
  }

  ghost predicate Nearer(s': State, s: State) {
    PT.Sooner(s'.pool, s.pool) || (s'.pool == s.pool && Fetching(s') < Fetching(s))
  }

  /** One step of a busy run; n and n' bound the spurious wakeups to come. */
  lemma BusyStep(s: State, s': State, n: nat, n': nat, t: nat, w: nat)
    requires Inside(s, t, w) && ((Serves(s, s') && n' <= n) || (Spurious(s, s') && n' < n))
    ensures PT.Returned(s'.pool, t, w) || (Inside(s', t, w) && (n' < n || (n' == n && Nearer(s', s))))
  {
    if Serves(s, s') && n' <= n {
      BusyOnward(s, s', t);
    } else {
      NextInv(s, s');
      PT.SpuriousInside(s.pool, s'.pool, t);
    }
  }

  /** The lookup that holds caller_ returns, whatever the schedule and the lookups that arrive meanwhile, with the table's rows. */
  lemma {:induction false} HolderReturns(c: nat -> State, b: nat -> nat, k: nat, t: nat, w: nat) returns (q: nat)
    requires Inside(c(k), t, w) && Busy(c, b)
    ensures q > k && PT.Returned(c(q).pool, t, w)
    decreases b(k), PT.Idling(c(k).pool), PT.Publishing(c(k).pool), PT.Pending(c(k).pool), PT.Owed(c(k).pool), PT.Local(c(k).pool),
      Fetching(c(k))
  {
    var s, s' := c(k), c(k + 1);
    BusyStep(s, s', b(k), b(k + 1), t, w);
    q := k + 1;
    if !PT.Returned(s'.pool, t, w) { q := HolderReturns(c, b, k + 1, t, w); }
  }

  // ---------------------------------------------------------------- when the lookups stop

  ghost predicate LeftAlone(c: nat -> State, b: nat -> nat) {
    forall i: nat ::
      ((Internal(c(i), c(i + 1)) || (Quiet(c(i)) && c(i + 1) == c(i))) && b(i + 1) <= b(i))
      || (Spurious(c(i), c(i + 1)) && b(i + 1) < b(i))
  }

  lemma {:induction false} ComesToRest(c: nat -> State, b: nat -> nat, k: nat) returns (q: nat)
    requires Inv(c(k)) && LeftAlone(c, b)
    ensures Inv(c(q)) && Quiet(c(q))
    decreases b(k), PT.Publishing(c(k).pool), PT.Pending(c(k).pool), PT.Owed(c(k).pool), PT.Local(c(k).pool), Fetching(c(k))
  {
    if Quiet(c(k)) { q := k; } else {
      if Internal(c(k), c(k + 1)) && b(k + 1) <= b(k) {
        InternalFalls(c(k), c(k + 1));
      } else {
        NextInv(c(k), c(k + 1));
      }
      q := ComesToRest(c, b, k + 1);
    }
  }

  /** Left to themselves the threads come to rest with every lookup returned and its buffer exact. */
  lemma EveryLookupReturns(c: nat -> State, b: nat -> nat) returns (q: nat)
    requires Inv(c(0)) && LeftAlone(c, b)
    ensures forall t :: 0 <= t < |c(q).pool.threads| ==> !P.Calling(c(q).pool.threads[t])
    ensures forall w, i :: 0 <= w < |c(q).pool.jobs| && 0 <= i < |c(q).pool.jobs[w].ids| ==>
      var j := c(q).pool.jobs[w]; |j.out| == |j.ids| && j.out[i] == ServedRow(c(q).pool.backing, j.ids[i])
  {
    q := ComesToRest(c, b, 0);
    NoDeadlock(c(q));
  }
}
