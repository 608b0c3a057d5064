/** What the pool promises over whole runs: exact delivery, no stale worker, no lost wakeup, and termination. */
module PoolTheorems {
  import opened Rows
  import opened Arithmetic
  import opened Pool
  import opened PoolInvariant

  // ---------------------------------------------------------------- every step keeps the invariant

  lemma ActInv(s: State, t: nat, row: Bytes)
    requires Inv(s) && CanAct(s, t, row)
    requires s.threads[t].pc.NotifyLeave? && Open(s) ==> !s.threads[s.callerLock].pc.Blocked?
    ensures Inv(Act(s, t, row))
  {
    if InDrain(s.threads[t].pc) { ActInvDrain(s, t, row); }
    else if s.threads[t].caller { ActInvRun(s, t, row); }
    else { ActInvLoop(s, t, row); }
  }

  lemma NotifiedShape(s: State, t: nat, wake: int)
    requires t < |s.threads|
    requires s.threads[t].pc.Notify? || s.threads[t].pc.NotifyLeave? ==> CanWake(s, wake)
    ensures Rouses(s, Notified(s, t, wake)) && Notified(s, t, wake).threads[t] == s.threads[t]
  {
  }

  /** Only the caller inside run() waits on done_, so a leaving worker's notify_one reaches it. */
  lemma NotifyReachesCaller(s: State, t: nat, wake: int)
    requires Locks(s) && t < |s.threads| && s.threads[t].pc.NotifyLeave? && CanWake(s, wake) && s.callerLock >= 0
    ensures !Notified(s, t, wake).threads[s.callerLock].pc.Blocked?
  {
  }

  lemma StepInv(s: State, t: nat, row: Bytes, wake: int)
    requires Inv(s) && CanStep(s, t, row, wake)
    ensures Inv(Step(s, t, row, wake))
  {
    NotifiedInv(s, t, wake);
    ActInv(Notified(s, t, wake), t, row);
  }

  lemma NotifiedInv(s: State, t: nat, wake: int)
    requires Inv(s) && t < |s.threads|
    requires s.threads[t].pc.Notify? || s.threads[t].pc.NotifyLeave? ==> CanWake(s, wake)
    ensures var s1 := Notified(s, t, wake);
      && Inv(s1) && |s1.threads| == |s.threads| && s1.threads[t] == s.threads[t]
      && (s.threads[t].pc.NotifyLeave? && Open(s1) ==> !s1.threads[s1.callerLock].pc.Blocked?)
  {
    var s1 := Notified(s, t, wake);
    NotifiedShape(s, t, wake);
    RouseInv(s, s1);
    if s.threads[t].pc.NotifyLeave? && Open(s1) { NotifyReachesCaller(s, t, wake); }
  }

  lemma CallSums(s: State, t: nat, ids: seq<int>, out: seq<Bytes>)
    requires Locks(s) && CanCall(s, t, ids, out)
    ensures var s' := Call(s, t, ids, out); forall k: Kind | k.Active? || k.Live? || k.Passed? ::
      Sum(k, EnvOf(s'), s'.threads) == Sum(k, EnvOf(s), s.threads)
  {
    var s' := Call(s, t, ids, out);
    SumSame(Active, EnvOf(s), s.threads, EnvOf(s'), s'.threads);
    SumSame(Live, EnvOf(s), s.threads, EnvOf(s'), s'.threads);
    SumSame(Passed, EnvOf(s), s.threads, EnvOf(s'), s'.threads);
  }

  lemma CallOpen(s: State, t: nat, ids: seq<int>, out: seq<Bytes>)
    requires Inv(s) && CanCall(s, t, ids, out) && Open(s)
    ensures var s' := Call(s, t, ids, out); Open(s') && Tickets(s') && Counters(s')
  {
    CallTickets(s, t, ids, out);
    CallSums(s, t, ids, out);
  }

  lemma CallTickets(s: State, t: nat, ids: seq<int>, out: seq<Bytes>)
    requires s.chunk >= 1 && 0 <= s.job < |s.jobs| && Tickets(s) && CanCall(s, t, ids, out)
    ensures Tickets(Call(s, t, ids, out))
  {
    var s' := Call(s, t, ids, out);
    forall u: nat, k: nat ensures Holds(s', u, k) == Holds(s, u, k) {}
  }

  lemma CallDelivered(s: State, t: nat, ids: seq<int>, out: seq<Bytes>)
    requires Delivered(s) && CanCall(s, t, ids, out)
    ensures Delivered(Call(s, t, ids, out))
  {
    var s' := Call(s, t, ids, out);
    forall w: nat | Retired(s', w) ensures Complete(s'.backing, s'.jobs[w]) {
      assert Calling(s'.threads[t]) && w < |s.jobs|;
      forall u | 0 <= u < |s.threads| && Calling(s.threads[u]) ensures s.threads[u].work != w {
        assert s'.threads[u] == s.threads[u];
      }
    }
  }

  lemma CallLocks(s: State, t: nat, ids: seq<int>, out: seq<Bytes>)
    requires Locks(s) && Calls(s) && CanCall(s, t, ids, out)
    ensures Locks(Call(s, t, ids, out)) && Calls(Call(s, t, ids, out)) && Open(Call(s, t, ids, out)) == Open(s)
  {
    assert ThreadOk(s, t);
    LocksFrame(s, Call(s, t, ids, out), t);
  }

  lemma CallInv(s: State, t: nat, ids: seq<int>, out: seq<Bytes>)
    requires Inv(s) && CanCall(s, t, ids, out)
    ensures Inv(Call(s, t, ids, out))
  {
    CallLocks(s, t, ids, out);
    assert Phase(Call(s, t, ids, out)) by { CallSums(s, t, ids, out); }
    CallDelivered(s, t, ids, out);
    if Open(s) { CallOpen(s, t, ids, out); }
  }

  ghost predicate Next(s: State, s': State) {
    Internal(s, s') || Environment(s, s')
  }

  /** A caller outside run() may call it with any valid ids and any buffer, and any wait may end for no reason. */
  lemma AnythingArrives(s: State, t: nat, ids: seq<int>, out: seq<Bytes>)
    requires t < |s.threads|
    ensures s.threads[t].caller && s.threads[t].pc.Outside? && |out| == |ids| && (forall i :: 0 <= i < |ids| ==> ValidId(s.backing, ids[i])) ==>
      Next(s, s.(jobs := s.jobs + [Job(ids, out, seq(|ids|, _ => 0))],
                 threads := s.threads[t := s.threads[t].(pc := WantCaller, work := |s.jobs|)]))
    ensures s.threads[t].pc.Asleep? ==> Next(s, s.(threads := s.threads[t := s.threads[t].(pc := WantReady)]))
    ensures s.threads[t].pc.Blocked? ==> Next(s, s.(threads := s.threads[t := s.threads[t].(pc := WantDone)]))
  {
    if CanCall(s, t, ids, out) { assert Environment(s, Call(s, t, ids, out)); }
    if CanWakeSpuriously(s, t) { assert Environment(s, WakeSpuriously(s, t)); }
  }

  ghost predicate StepAt(c: seq<State>, i: nat) {
    i + 1 < |c| ==> Next(c[i], c[i + 1])
  }

  ghost predicate IsRun(c: seq<State>) {
    |c| > 0 && Init(c[0]) && forall i: nat :: StepAt(c, i)
  }

  lemma NextInv(s: State, s': State)
    requires Inv(s) && Next(s, s')
    ensures Inv(s')
  {
    if Internal(s, s') {
      var t: nat, row: Bytes, wake: int :| CanStep(s, t, row, wake) && s' == Step(s, t, row, wake);
      StepInv(s, t, row, wake);
    } else if t: nat, ids: seq<int>, out: seq<Bytes> :| CanCall(s, t, ids, out) && s' == Call(s, t, ids, out) {
      CallInv(s, t, ids, out);
    } else {
      var t: nat :| CanWakeSpuriously(s, t) && s' == WakeSpuriously(s, t);
      RouseInv(s, s');
    }
  }

  lemma {:induction false} RunInv(c: seq<State>, k: nat)
    requires IsRun(c) && k < |c|
    ensures Inv(c[k])
  {
    if k == 0 { InitInv(c[0]); } else { RunInv(c, k - 1); assert StepAt(c, k - 1); NextInv(c[k - 1], c[k]); }
  }

  // ---------------------------------------------------------------- delivery

  lemma RetiredStays(s: State, s1: State, s': State, t: nat, w: nat)
    requires Retired(s, w) && Rouses(s, s1) && Moves(s1, s', t)
    ensures Retired(s', w)
  {
    forall u | 0 <= u < |s.threads| && Calling(s'.threads[u]) ensures s'.threads[u].work != w {
      assert Calling(s.threads[u]);
    }
  }

  lemma StepRetired(s: State, t: nat, row: Bytes, wake: int, w: nat)
    requires Inv(s) && CanStep(s, t, row, wake) && Retired(s, w)
    ensures Retired(Step(s, t, row, wake), w) && Step(s, t, row, wake).jobs[w] == s.jobs[w]
  {
    var s1 := Notified(s, t, wake);
    NotifiedShape(s, t, wake);
    if s.threads[t].pc.Serve? { ServeRetired(s, t, w); }
    assert s.threads[t].caller ==> CallerPc(s.threads[t].pc);
    ActRetiredStays(s, s1, t, row, w);
  }

  lemma ActRetiredStays(s: State, s1: State, t: nat, row: Bytes, w: nat)
    requires Retired(s, w) && Rouses(s, s1) && CanAct(s1, t, row) && (s1.threads[t].caller ==> CallerPc(s1.threads[t].pc))
    requires s1.threads[t].pc.Serve? ==> s1.threads[t].work != w
    ensures Retired(Act(s1, t, row), w) && Act(s1, t, row).jobs[w] == s.jobs[w]
  {
    ActMoves(s1, t, row);
    RetiredStays(s, s1, Act(s1, t, row), t, w);
  }

  lemma NextRetired(s: State, s': State, w: nat)
    requires Inv(s) && Next(s, s') && Retired(s, w)
    ensures Retired(s', w) && s'.jobs[w] == s.jobs[w]
  {
    if Internal(s, s') {
      var t: nat, row: Bytes, wake: int :| CanStep(s, t, row, wake) && s' == Step(s, t, row, wake);
      StepRetired(s, t, row, wake, w);
    }
  }

  lemma RunRetired(c: seq<State>, k: nat, w: nat)
    requires IsRun(c) && k + 1 < |c| && Retired(c[k], w)
    ensures Retired(c[k + 1], w) && c[k + 1].jobs[w] == c[k].jobs[w]
  {
    RunInv(c, k);
    assert StepAt(c, k);
    NextRetired(c[k], c[k + 1], w);
  }

  lemma {:induction false} StaysRetired(c: seq<State>, i: nat, k: nat, w: nat)
    requires IsRun(c) && i <= k < |c| && Retired(c[i], w)
    ensures Retired(c[k], w) && c[k].jobs[w] == c[i].jobs[w]
  {
    if i < k {
      StaysRetired(c, i, k - 1, w);
      RunRetired(c, k - 1, w);
    }
  }

  /**
   * Whatever the interleaving: once the call that owns Work object w has returned, its buffer holds the
   * serial result, each index having been written exactly once, and no later step of any thread touches it.
   */
  lemma ReturnedForever(c: seq<State>, i: nat, k: nat, w: nat)
    requires IsRun(c) && i <= k < |c| && Retired(c[i], w)
    ensures Retired(c[k], w) && Complete(c[k].backing, c[k].jobs[w]) && c[k].jobs[w] == c[i].jobs[w]
  {
    StaysRetired(c, i, k, w);
    RunInv(c, k);
  }

  /** A thread about to leave run() has its whole buffer filled. */
  lemma RunReturns(c: seq<State>, k: nat, t: nat)
    requires IsRun(c) && k < |c| && t < |c[k].threads| && c[k].threads[t].pc.ClearJob?
    ensures c[k].threads[t].work < |c[k].jobs| && Complete(c[k].backing, c[k].jobs[c[k].threads[t].work])
  {
    RunInv(c, k);
    ReturnsComplete(c[k], t);
  }

  // ---------------------------------------------------------------- no stale worker

  /** The counters and the job pointer agree with the threads in every reachable state. */
  lemma NoStaleWorker(c: seq<State>, k: nat)
    requires IsRun(c) && k < |c|
    ensures var s := c[k];
      // active_ is the number of workers between Take and Leave
      && s.active == Sum(Active, EnvOf(s), s.threads)
      // next_ never runs further ahead than one overshoot per thread
      && s.next <= s.chunks + |s.threads|
      // remaining_ counts the chunks that nobody has claimed and those claimed but not yet reported
      && (Open(s) ==> s.remaining == s.chunks - Min(s.next, s.chunks) + Sum(Live, EnvOf(s), s.threads))
      // whoever is inside drain() works for the published job, and only while it is open
      && (forall t :: 0 <= t < |s.threads| && InDrain(s.threads[t].pc) ==>
            Open(s) && s.job == s.threads[s.callerLock].work == s.threads[t].work)
      // while a job is being published, the publishing thread has next_, chunks_ and job_ to itself
      && (forall t :: 0 <= t < |s.threads| && s.threads[t].caller && HoldsMutex(s.threads[t].pc) && BeforeDrain(s.threads[t].pc) ==>
            forall u :: 0 <= u < |s.threads| ==> !InDrain(s.threads[u].pc) && (HoldsMutex(s.threads[u].pc) ==> u == t))
  {
    var s := c[k];
    RunInv(c, k);
    if !Open(s) { NobodyActive(s); }
  }

  // ---------------------------------------------------------------- no lost wakeup, no deadlock

  /** A caller whose wait condition already holds is owed a notify_one by the thread that holds mutex_. */
  lemma NoLostWakeup(c: seq<State>, k: nat, t: nat)
    requires IsRun(c) && k < |c| && t < |c[k].threads| && c[k].threads[t].pc.Blocked?
    requires c[k].remaining == 0 && c[k].active == 0
    ensures LeaveNotifyPending(c[k])
  {
    RunInv(c, k);
    assert t == c[k].callerLock;
  }

  ghost predicate Quiet(s: State) {
    forall t: nat, row: Bytes, wake: int :: !CanStep(s, t, row, wake)
  }

  lemma HolderCanStep(s: State)
    requires Inv(s) && s.mutex >= 0
    ensures !Quiet(s)
  {
    var wake := if s.callerLock >= 0 && s.threads[s.callerLock].pc.Blocked? then s.callerLock else FREE;
    if CanWake(s, wake) {
      assert HoldsMutex(s.threads[s.mutex].pc);
      assert CanStep(s, s.mutex, [], wake);
    } else {
      var u :| 0 <= u < |s.threads| && s.threads[u].pc.Blocked?;
      assert CanStep(s, s.mutex, [], u);
    }
  }

  /** Inside drain() every action is enabled once mutex_ is free. */
  lemma DrainerCanStep(s: State, t: nat)
    requires Inv(s) && s.mutex < 0 && t < |s.threads|
    requires InDrain(s.threads[t].pc) || s.threads[t].pc.WantLeave?
    ensures !Quiet(s)
  {
    if InDrain(s.threads[t].pc) { ServeOpen(s, t); }
    if s.threads[t].pc.Serve? {
      var j := s.jobs[s.threads[t].work];
      assert CanStep(s, t, ServedRow(s.backing, j.ids[s.threads[t].index]), FREE);
    } else {
      assert CanStep(s, t, [], FREE);
    }
  }

  /** As long as some call of run() has not returned, some thread can move. */
  lemma NoDeadlock(s: State)
    requires Inv(s) && Quiet(s)
    ensures forall t :: 0 <= t < |s.threads| ==> !Calling(s.threads[t])
    ensures forall w :: 0 <= w < |s.jobs| ==> Complete(s.backing, s.jobs[w])
  {
    if s.mutex >= 0 { HolderCanStep(s); }
    if s.callerLock >= 0 {
      var th := s.threads[s.callerLock];
      if th.pc.Blocked? {
        var u := SumWitness(Active, EnvOf(s), s.threads);
        DrainerCanStep(s, u);
      } else if InDrain(th.pc) {
        DrainerCanStep(s, s.callerLock);
      } else {
        assert CanStep(s, s.callerLock, [], FREE);
      }
    }
    forall t | 0 <= t < |s.threads| ensures !Calling(s.threads[t]) {
      if Calling(s.threads[t]) { assert CanStep(s, t, [], FREE); }
    }
    forall w | 0 <= w < |s.jobs| ensures Complete(s.backing, s.jobs[w]) { assert Retired(s, w); }
  }

  // ---------------------------------------------------------------- termination

  function Publishing(s: State): nat { Sum(Publish, EnvOf(s), s.threads) }
  function Pending(s: State): nat { Max(0, s.chunks - s.next) + Sum(Unseen, EnvOf(s), s.threads) }
  function Owed(s: State): nat { Sum(Notifies, EnvOf(s), s.threads) }
  function Local(s: State): nat { Sum(Rank, EnvOf(s), s.threads) }

  ghost predicate Below(s': State, s: State) {
    || Publishing(s') < Publishing(s)
    || (Publishing(s') == Publishing(s) &&
        (|| Pending(s') < Pending(s)
         || (Pending(s') == Pending(s) && (Owed(s') < Owed(s) || (Owed(s') == Owed(s) && Local(s') < Local(s))))))
  }

  lemma RouseMeasure(s: State, s': State)
    requires Rouses(s, s')
    ensures Publishing(s') == Publishing(s) && Pending(s') == Pending(s) && Owed(s') == Owed(s)
  {
    SumSame(Publish, EnvOf(s), s.threads, EnvOf(s'), s'.threads);
    SumSame(Unseen, EnvOf(s), s.threads, EnvOf(s'), s'.threads);
    SumSame(Notifies, EnvOf(s), s.threads, EnvOf(s'), s'.threads);
  }

  predicate Notifying(pc: Pc) {
    pc.NotifyReady? || pc.Notify? || pc.NotifyLeave?
  }

  lemma PublishDecreases(s: State, t: nat, row: Bytes)
    requires Locks(s) && CanAct(s, t, row) && BeforeDrain(s.threads[t].pc)
    ensures Publishing(Act(s, t, row)) < Publishing(s)
  {
    var s' := Act(s, t, row);
    assert s.threads[t].caller;
    PublishShape(s, t, row);
    SumUpdate(Publish, EnvOf(s), s.threads, t, s'.threads[t]);
    SumSame(Publish, EnvOf(s), s'.threads, EnvOf(s'), s'.threads);
  }

  lemma PublishShape(s: State, t: nat, row: Bytes)
    requires CanAct(s, t, row) && s.threads[t].caller && BeforeDrain(s.threads[t].pc)
    ensures var s', th' := Act(s, t, row), Act(s, t, row).threads[t];
      s'.threads == s.threads[t := th'] && PublishRank(th') < PublishRank(s.threads[t])
  {
  }

  lemma Lift(s: State, s': State, t: nat, k: Kind)
    requires t < |s.threads| && |s'.threads| == |s.threads| && s'.threads == s.threads[t := s'.threads[t]]
    requires EnvOf(s') == EnvOf(s)
    ensures Sum(k, EnvOf(s'), s'.threads) - Sum(k, EnvOf(s), s.threads)
         == Weight(k, EnvOf(s), s'.threads[t]) - Weight(k, EnvOf(s), s.threads[t])
  {
    SumUpdate(k, EnvOf(s), s.threads, t, s'.threads[t]);
  }

  /** How one action outside the publishing section changes the weights of its own thread. */
  ghost predicate Lowers(s: State, s': State, t: nat)
    requires t < |s.threads| && t < |s'.threads|
  {
    var th, th', e := s.threads[t], s'.threads[t], EnvOf(s);
    && EnvOf(s') == e && PublishRank(th') == PublishRank(th) == 0
    && (s'.next == s.next || (th.pc.Claim? && s'.next == s.next + 1))
    && Weight(Unseen, e, th') <= Weight(Unseen, e, th)
    && (th.pc.Take? ==> Weight(Unseen, e, th') < Weight(Unseen, e, th))
    && (Notifying(th.pc) ==> Weight(Unseen, e, th') == Weight(Unseen, e, th) && Weight(Notifies, e, th') < Weight(Notifies, e, th))
    && (th.pc.Take? || (th.pc.Claim? && s.next < s.chunks)
        || Weight(Notifies, e, th') < Weight(Notifies, e, th)
        || (Weight(Notifies, e, th') == Weight(Notifies, e, th) && Weight(Rank, e, th') < Weight(Rank, e, th)))
  }

  lemma ActWeights(s: State, t: nat, row: Bytes)
    requires CanAct(s, t, row) && !BeforeDrain(s.threads[t].pc)
    requires if s.threads[t].caller then CallerPc(s.threads[t].pc) else WorkerPc(s.threads[t].pc)
    requires s.threads[t].pc.Take? ==> s.threads[t].seen < s.generation
    requires s.threads[t].pc.Serve? ==> s.threads[t].index < (s.threads[t].ticket + 1) * s.chunk
    ensures Lowers(s, Act(s, t, row), t)
  {
    if InDrain(s.threads[t].pc) { DrainWeights(s, t, row); } else { WaitWeights(s, t, row); }
  }

  lemma DrainWeights(s: State, t: nat, row: Bytes)
    requires CanAct(s, t, row) && InDrain(s.threads[t].pc)
    requires s.threads[t].pc.Serve? ==> s.threads[t].index < (s.threads[t].ticket + 1) * s.chunk
    ensures Lowers(s, Act(s, t, row), t)
  {
  }

  lemma WaitWeights(s: State, t: nat, row: Bytes)
    requires CanAct(s, t, row) && !BeforeDrain(s.threads[t].pc) && !InDrain(s.threads[t].pc)
    requires if s.threads[t].caller then CallerPc(s.threads[t].pc) else WorkerPc(s.threads[t].pc)
    requires s.threads[t].pc.Take? ==> s.threads[t].seen < s.generation
    ensures Lowers(s, Act(s, t, row), t)
  {
  }

  lemma ActDecreases(s: State, t: nat, row: Bytes)
    requires Locks(s) && CanAct(s, t, row) && !BeforeDrain(s.threads[t].pc)
    requires s.threads[t].pc.Serve? ==> Quot(s.threads[t].index, s.chunk) == s.threads[t].ticket
    ensures Below(Act(s, t, row), s)
    ensures Notifying(s.threads[t].pc) ==>
      Publishing(Act(s, t, row)) == Publishing(s) && Pending(Act(s, t, row)) == Pending(s) && Owed(Act(s, t, row)) < Owed(s)
  {
    var s', th := Act(s, t, row), s.threads[t];
    if th.pc.Serve? { TicketRange(th.index, s.chunk, th.ticket); }
    ActWeights(s, t, row);
    ActMoves(s, t, row);
    Lift(s, s', t, Publish);
    Lift(s, s', t, Unseen);
    Lift(s, s', t, Notifies);
    Lift(s, s', t, Rank);
  }

  /** Every action of a thread lowers the measure; only new calls and spurious wakeups can raise it. */
  lemma StepDecreases(s: State, t: nat, row: Bytes, wake: int)
    requires Inv(s) && CanStep(s, t, row, wake)
    ensures Below(Step(s, t, row, wake), s)
  {
    var s1 := Notified(s, t, wake);
    NotifiedShape(s, t, wake);
    RouseMeasure(s, s1);
    RouseLocks(s, s1);
    if BeforeDrain(s.threads[t].pc) {
      PublishDecreases(s1, t, row);
    } else {
      if s.threads[t].pc.Serve? { ServeOpen(s, t); }
      ActDecreases(s1, t, row);
      if !Notifying(s.threads[t].pc) { assert s1 == s; }
    }
  }

  lemma InternalDecreases(s: State, s': State)
    requires Inv(s) && Internal(s, s')
    ensures Inv(s') && Below(s', s)
  {
    var t: nat, row: Bytes, wake: int :| CanStep(s, t, row, wake) && s' == Step(s, t, row, wake);
    StepInv(s, t, row, wake);
    StepDecreases(s, t, row, wake);
  }

  // ---------------------------------------------------------------- every call returns, whoever calls next

  function Idling(s: State): nat { Sum(Idle, EnvOf(s), s.threads) }

  /** A thread outside run() can call again only once: a call lowers the first component. */
  ghost predicate Sooner(s': State, s: State) {
    Idling(s') < Idling(s) || (Idling(s') == Idling(s) && Below(s', s))
  }

  /** Thread t is still inside the same call of run() and nearer to its end, or has returned with its buffer complete. */
  ghost predicate Onward(s: State, s': State, t: nat)
    requires t < |s.threads| && t < |s'.threads|
  {
    var w := s.threads[t].work;
    if s'.threads[t].pc.Outside? then w < |s'.jobs| && Complete(s'.backing, s'.jobs[w])
    else s'.callerLock == t && s'.threads[t].work == w && Sooner(s', s)
  }

  lemma IdlingKept(s: State, t: nat, row: Bytes, wake: int)
    requires Locks(s) && CanStep(s, t, row, wake) && !s.threads[t].pc.ClearJob?
    ensures Idling(Step(s, t, row, wake)) == Idling(s)
  {
    var s1 := Notified(s, t, wake);
    NotifiedShape(s, t, wake);
    RouseLocks(s, s1);
    SumSame(Idle, EnvOf(s), s.threads, EnvOf(s1), s1.threads);
    ActIdling(s1, t, row);
  }

  lemma ActIdling(s: State, t: nat, row: Bytes)
    requires Locks(s) && CanAct(s, t, row) && !s.threads[t].pc.ClearJob?
    ensures Idling(Act(s, t, row)) == Idling(s)
  {
    var s' := Act(s, t, row);
    ActMoves(s, t, row);
    NotOutside(s, t, row);
    SumUpdate(Idle, EnvOf(s), s.threads, t, s'.threads[t]);
    SumSame(Idle, EnvOf(s), s'.threads, EnvOf(s'), s'.threads);
  }

  lemma NotOutside(s: State, t: nat, row: Bytes)
    requires CanAct(s, t, row) && !s.threads[t].pc.ClearJob?
    ensures !s.threads[t].pc.Outside? && !Act(s, t, row).threads[t].pc.Outside?
  {
  }

  /** A step of another thread, or one of t that does not leave run(), keeps t inside its call. */
  lemma StaysInside(s: State, u: nat, row: Bytes, wake: int, t: nat)
    requires Inv(s) && CanStep(s, u, row, wake) && s.callerLock == t && !(u == t && s.threads[t].pc.ClearJob?)
    ensures var s' := Step(s, u, row, wake);
      t < |s'.threads| && !s'.threads[t].pc.Outside? && s'.callerLock == t && s'.threads[t].work == s.threads[t].work
  {
    var s1 := Notified(s, u, wake);
    NotifiedShape(s, u, wake);
    RouseLocks(s, s1);
    ActInside(s1, u, row, t);
  }

  lemma ActInside(s: State, u: nat, row: Bytes, t: nat)
    requires Locks(s) && CanAct(s, u, row) && s.callerLock == t && !(u == t && s.threads[t].pc.ClearJob?)
    ensures var s' := Act(s, u, row);
      t < |s'.threads| && !s'.threads[t].pc.Outside? && s'.callerLock == t && s'.threads[t].work == s.threads[t].work
  {
    ActLocks(s, u, row);
    ActMoves(s, u, row);
    assert InsideRun(Act(s, u, row).threads[t]) by { if u == t { InsideStays(s, t, row); } }
  }

  lemma InsideStays(s: State, t: nat, row: Bytes)
    requires CanAct(s, t, row) && InsideRun(s.threads[t]) && CallerPc(s.threads[t].pc) && !s.threads[t].pc.ClearJob?
    ensures InsideRun(Act(s, t, row).threads[t])
  {
  }

  lemma StepOnward(s: State, u: nat, row: Bytes, wake: int, t: nat)
    requires Inv(s) && CanStep(s, u, row, wake) && s.callerLock == t
    ensures t < |Step(s, u, row, wake).threads| && Onward(s, Step(s, u, row, wake), t)
  {
    if s.threads[u].pc.ClearJob? {
      assert u == t;
      ReturnsComplete(s, t);
    } else {
      StaysInside(s, u, row, wake, t);
      IdlingKept(s, u, row, wake);
      StepDecreases(s, u, row, wake);
    }
  }

  lemma CallOnward(s: State, u: nat, ids: seq<int>, out: seq<Bytes>, t: nat)
    requires Inv(s) && CanCall(s, u, ids, out) && s.callerLock == t
    ensures Onward(s, Call(s, u, ids, out), t)
  {
    var s' := Call(s, u, ids, out);
    assert u != t;
    SumUpdate(Idle, EnvOf(s), s.threads, u, s'.threads[u]);
  }

  ghost predicate CallArrives(s: State, s': State) {
    exists t: nat, ids: seq<int>, out: seq<Bytes> :: CanCall(s, t, ids, out) && s' == Call(s, t, ids, out)
  }

  ghost predicate Spurious(s: State, s': State) {
    exists t: nat :: CanWakeSpuriously(s, t) && s' == WakeSpuriously(s, t)
  }

  /** A thread acts or a call arrives; nothing rests while a thread can act. */
  ghost predicate Serves(s: State, s': State) {
    Internal(s, s') || CallArrives(s, s') || (Quiet(s) && s' == s)
  }

  /**
   * Normal service: threads act in any order, new calls arrive and waits end for no reason at any time.
   * b bounds how many spurious wakeups are still to come; any bound will do.
   */
  ghost predicate Busy(c: nat -> State, b: nat -> nat) {
    forall i: nat ::
      (Serves(c(i), c(i + 1)) && b(i + 1) <= b(i)) || (Spurious(c(i), c(i + 1)) && b(i + 1) < b(i))
  }

  lemma BusyOnward(s: State, s': State, t: nat)
    requires Inv(s) && s.callerLock == t && Serves(s, s')
    ensures Inv(s') && t < |s.threads| && t < |s'.threads| && Onward(s, s', t)
  {
    if Internal(s, s') {
      var u: nat, row: Bytes, wake: int :| CanStep(s, u, row, wake) && s' == Step(s, u, row, wake);
      StepInv(s, u, row, wake);
      StepOnward(s, u, row, wake, t);
    } else if CallArrives(s, s') {
      var u: nat, ids: seq<int>, out: seq<Bytes> :| CanCall(s, u, ids, out) && s' == Call(s, u, ids, out);
      CallInv(s, u, ids, out);
      CallOnward(s, u, ids, out, t);
    } else {
      NoDeadlock(s);
      assert false;
    }
  }

  lemma SpuriousInv(s: State, s': State)
    requires Inv(s) && Spurious(s, s')
    ensures Inv(s')
  {
    var u: nat :| CanWakeSpuriously(s, u) && s' == WakeSpuriously(s, u);
    RouseInv(s, s');
  }

  /** A thread woken for no reason waits again or goes on; either way it stays inside its call. */
  lemma SpuriousInside(s: State, s': State, t: nat)
    requires Locks(s) && s.callerLock == t && Spurious(s, s')
    ensures t < |s.threads| && t < |s'.threads| && !s'.threads[t].pc.Outside?
    ensures s'.callerLock == t && s'.threads[t].work == s.threads[t].work
  {
  }

  /** The call on Work w that thread t is inside of. */
  ghost predicate Inside(s: State, t: nat, w: nat) {
    Inv(s) && s.callerLock == t && s.threads[t].work == w
  }

  ghost predicate Returned(s: State, t: nat, w: nat) {
    t < |s.threads| && s.threads[t].pc.Outside? && w < |s.jobs| && Complete(s.backing, s.jobs[w])
  }

  /** One step of a busy run; n and n' bound the spurious wakeups to come. */
  lemma BusyStep(s: State, s': State, n: nat, n': nat, t: nat, w: nat)
    requires Inside(s, t, w) && ((Serves(s, s') && n' <= n) || (Spurious(s, s') && n' < n))
    ensures Returned(s', t, w) || (Inside(s', t, w) && (n' < n || (n' == n && Sooner(s', s))))
  {
    if Serves(s, s') && n' <= n {
      BusyOnward(s, s', t);
    } else {
      SpuriousInv(s, s');
      SpuriousInside(s, s', t);
    }
  }

  /** Whatever the schedule and however many calls arrive meanwhile, the call that holds caller_ returns, its buffer complete. */
  lemma {:induction false} HolderReturns(c: nat -> State, b: nat -> nat, k: nat, t: nat, w: nat) returns (q: nat)
    requires Inside(c(k), t, w) && Busy(c, b)
    ensures q > k && Returned(c(q), t, w)
    decreases b(k), Idling(c(k)), Publishing(c(k)), Pending(c(k)), Owed(c(k)), Local(c(k))
  {
    BusyStep(c(k), c(k + 1), b(k), b(k + 1), t, w);
    q := k + 1;
    if !Returned(c(q), t, w) { q := HolderReturns(c, b, k + 1, t, w); }
  }

  // ---------------------------------------------------------------- when the calls stop

  /** Nobody calls run() any more; as long as some thread can act, one does, or is woken for no reason. */
  ghost predicate LeftAlone(c: nat -> State, b: nat -> nat) {
    forall i: nat ::
      ((Internal(c(i), c(i + 1)) || (Quiet(c(i)) && c(i + 1) == c(i))) && b(i + 1) <= b(i))
      || (Spurious(c(i), c(i + 1)) && b(i + 1) < b(i))
  }

  lemma {:induction false} ComesToRest(c: nat -> State, b: nat -> nat, k: nat) returns (q: nat)
    requires Inv(c(k)) && LeftAlone(c, b)
    ensures Inv(c(q)) && Quiet(c(q))
    decreases b(k), Publishing(c(k)), Pending(c(k)), Owed(c(k)), Local(c(k))
  {
    if Quiet(c(k)) { q := k; } else {
      if Internal(c(k), c(k + 1)) && b(k + 1) <= b(k) {
        InternalDecreases(c(k), c(k + 1));
      } else {
        SpuriousInv(c(k), c(k + 1));
      }
      q := ComesToRest(c, b, k + 1);
    }
  }

  /** Whatever the schedule, there comes a state in which every call has returned with the serial result. */
  lemma EveryCallReturns(c: nat -> State, b: nat -> nat) returns (q: nat)
    requires Inv(c(0)) && LeftAlone(c, b)
    ensures forall t :: 0 <= t < |c(q).threads| ==> !Calling(c(q).threads[t])
    ensures forall w :: 0 <= w < |c(q).jobs| ==> Complete(c(q).backing, c(q).jobs[w])
  {
    q := ComesToRest(c, b, 0);
    NoDeadlock(c(q));
  }
}
