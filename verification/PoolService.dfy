/** What the wakeups are for: no worker rests while there is work, and nobody sleeps through a notification. */
module PoolService {
  import opened Rows
  import opened Pool
  import opened PoolInvariant
  import opened PoolTheorems

  // ---------------------------------------------------------------- no idle hands

  /** The publishing caller is about to call notify_all(). */
  predicate AboutToNotify(s: State) {
    0 <= s.callerLock < |s.threads| && s.threads[s.callerLock].pc.NotifyReady?
  }

  /**
   * A worker that knows of the open job rests only when no ticket is left, and one that sleeps without
   * knowing of it is about to be woken.
   */
  predicate RestOk(s: State, u: nat)
    requires u < |s.threads|
  {
    var th := s.threads[u];
    !th.caller ==>
      && (Open(s) && th.seen == s.generation && !InDrain(th.pc) ==> s.next > s.chunks)
      && (th.pc.Asleep? && th.seen != s.generation ==> AboutToNotify(s))
  }

  lemma NotifiedRest(s: State, t: nat, wake: int, u: nat)
    requires Locks(s) && t < |s.threads| && u < |s.threads| && RestOk(s, u)
    requires s.threads[t].pc.Notify? || s.threads[t].pc.NotifyLeave? ==> CanWake(s, wake)
    ensures |Notified(s, t, wake).threads| == |s.threads| && RestOk(Notified(s, t, wake), u)
    ensures s.threads[t].pc.NotifyReady? ==> !Notified(s, t, wake).threads[u].pc.Asleep?
  {
    assert ThreadOk(s, u);
  }

  /** The action of another thread. */
  lemma OtherRest(s: State, t: nat, row: Bytes, u: nat)
    requires Locks(s) && CanAct(s, t, row) && u < |s.threads| && u != t && RestOk(s, u)
    requires s.threads[t].pc.NotifyReady? ==> !s.threads[u].pc.Asleep?
    ensures |Act(s, t, row).threads| == |s.threads| && RestOk(Act(s, t, row), u)
  {
    assert ThreadOk(s, t) && ThreadOk(s, u);
    ActMoves(s, t, row);
    if BeforeDrain(s.threads[t].pc) { OtherPublishes(s, t, row, u); }
    else if InDrain(s.threads[t].pc) { OtherDrains(s, t, row, u); }
    else { OtherWaits(s, t, row, u); }
  }

  lemma OtherPublishes(s: State, t: nat, row: Bytes, u: nat)
    requires CanAct(s, t, row) && u < |s.threads| && u != t && RestOk(s, u) && BeforeDrain(s.threads[t].pc)
    requires ThreadOk(s, t) && ThreadOk(s, u)
    ensures |Act(s, t, row).threads| == |s.threads| && RestOk(Act(s, t, row), u)
  {
  }

  lemma OtherDrains(s: State, t: nat, row: Bytes, u: nat)
    requires CanAct(s, t, row) && u < |s.threads| && u != t && RestOk(s, u) && InDrain(s.threads[t].pc)
    requires ThreadOk(s, t) && ThreadOk(s, u)
    ensures |Act(s, t, row).threads| == |s.threads| && RestOk(Act(s, t, row), u)
  {
  }

  lemma OtherWaits(s: State, t: nat, row: Bytes, u: nat)
    requires CanAct(s, t, row) && u < |s.threads| && u != t && RestOk(s, u)
    requires !BeforeDrain(s.threads[t].pc) && !InDrain(s.threads[t].pc) && ThreadOk(s, t) && ThreadOk(s, u)
    requires s.threads[t].pc.NotifyReady? ==> !s.threads[u].pc.Asleep?
    ensures |Act(s, t, row).threads| == |s.threads| && RestOk(Act(s, t, row), u)
  {
  }

  /** A worker's own action: it leaves drain() only with a ticket beyond the last chunk. */
  lemma OwnRest(s: State, t: nat, row: Bytes)
    requires Inv(s) && CanAct(s, t, row) && !s.threads[t].caller && RestOk(s, t)
    ensures |Act(s, t, row).threads| == |s.threads| && RestOk(Act(s, t, row), t)
  {
    assert ThreadOk(s, t);
    if s.threads[t].pc.Test? {
      ServeOpen(s, t);
      assert s.threads[t].ticket < s.next;
    }
    OwnAct(s, t, row);
  }

  lemma OwnAct(s: State, t: nat, row: Bytes)
    requires CanAct(s, t, row) && !s.threads[t].caller && RestOk(s, t) && ThreadOk(s, t)
    requires s.threads[t].pc.Test? ==> s.threads[t].ticket < s.next
    requires Open(s) ==> s.job >= 0
    ensures |Act(s, t, row).threads| == |s.threads| && RestOk(Act(s, t, row), t)
  {
  }

  lemma StepRest(s: State, t: nat, row: Bytes, wake: int, u: nat)
    requires Inv(s) && CanStep(s, t, row, wake) && u < |s.threads| && RestOk(s, u)
    ensures |Step(s, t, row, wake).threads| == |s.threads| && RestOk(Step(s, t, row, wake), u)
  {
    var s1 := Notified(s, t, wake);
    NotifiedRest(s, t, wake, u);
    NotifiedInv(s, t, wake);
    if u != t { OtherRest(s1, t, row, u); } else if !s1.threads[t].caller { OwnRest(s1, t, row); } else { StillCaller(s1, t, row); }
  }

  lemma StillCaller(s: State, t: nat, row: Bytes)
    requires CanAct(s, t, row) && s.threads[t].caller
    ensures |Act(s, t, row).threads| == |s.threads| && Act(s, t, row).threads[t].caller
  {
  }

  lemma NextRest(s: State, s': State, u: nat)
    requires Inv(s) && Next(s, s') && u < |s.threads| && RestOk(s, u)
    ensures |s'.threads| == |s.threads| && RestOk(s', u)
  {
    if Internal(s, s') {
      var t: nat, row: Bytes, wake: int :| CanStep(s, t, row, wake) && s' == Step(s, t, row, wake);
      StepRest(s, t, row, wake, u);
    } else {
      assert ThreadOk(s, u);
      EnvironmentRest(s, s', u);
    }
  }

  lemma EnvironmentRest(s: State, s': State, u: nat)
    requires Locks(s) && Environment(s, s') && u < |s.threads| && RestOk(s, u)
    ensures |s'.threads| == |s.threads| && RestOk(s', u)
  {
    if t: nat, ids: seq<int>, out: seq<Bytes> :| CanCall(s, t, ids, out) && s' == Call(s, t, ids, out) {
      assert ThreadOk(s, t);
    } else {
      var t: nat :| CanWakeSpuriously(s, t) && s' == WakeSpuriously(s, t);
      assert ThreadOk(s, t);
    }
  }

  lemma {:induction false} RunRest(c: seq<State>, k: nat, u: nat)
    requires IsRun(c) && k < |c| && u < |c[k].threads|
    ensures RestOk(c[k], u)
  {
    if k > 0 {
      RunInv(c, k - 1);
      assert StepAt(c, k - 1);
      SameThreads(c[k - 1], c[k]);
      RunRest(c, k - 1, u);
      NextRest(c[k - 1], c[k], u);
    }
  }

  lemma SameThreads(s: State, s': State)
    requires Next(s, s')
    ensures |s'.threads| == |s.threads|
  {
    if Internal(s, s') {
      var t: nat, row: Bytes, wake: int :| CanStep(s, t, row, wake) && s' == Step(s, t, row, wake);
      StepSize(s, t, row, wake);
    }
  }

  lemma StepSize(s: State, t: nat, row: Bytes, wake: int)
    requires CanStep(s, t, row, wake)
    ensures |Step(s, t, row, wake).threads| == |s.threads|
  {
  }

  /**
   * While an open job has unclaimed tickets, every worker is inside drain() or still on its way to it: it has
   * not yet seen the job's generation, and if it sleeps, notify_all() is about to be called.
   */
  lemma NoIdleHands(c: seq<State>, k: nat, t: nat)
    requires IsRun(c) && k < |c| && t < |c[k].threads| && !c[k].threads[t].caller
    requires Open(c[k]) && c[k].next < c[k].chunks
    ensures var s, th := c[k], c[k].threads[t];
      || InDrain(th.pc)
      || (th.seen < s.generation && (th.pc.Asleep? ==> 0 <= s.callerLock < |s.threads| && s.threads[s.callerLock].pc.NotifyReady?))
  {
    RunInv(c, k);
    RunRest(c, k, t);
    assert ThreadOk(c[k], t);
  }

  /** After notify_all() no worker sleeps that has not seen the newest generation. */
  lemma NoneSleepsOn(c: seq<State>, k: nat, t: nat)
    requires IsRun(c) && k < |c| && t < |c[k].threads| && !c[k].threads[t].caller && c[k].threads[t].pc.Asleep?
    ensures c[k].threads[t].seen == c[k].generation
      || (0 <= c[k].callerLock < |c[k].threads| && c[k].threads[c[k].callerLock].pc.NotifyReady?)
  {
    RunRest(c, k, t);
  }

  // ---------------------------------------------------------------- the last chunk

  /** Whoever reports the last chunk goes on to take mutex_ and notify; after any notify_one() on done_ no caller is blocked. */
  lemma LastChunkNotifies(s: State, t: nat, row: Bytes, wake: int)
    requires Inv(s) && CanStep(s, t, row, wake)
    ensures s.threads[t].pc.Finish? && Step(s, t, row, wake).remaining == 0 ==> Step(s, t, row, wake).threads[t].pc.WantNotify?
    ensures s.threads[t].pc.WantNotify? ==> Step(s, t, row, wake).mutex == t && Step(s, t, row, wake).threads[t].pc.Notify?
    ensures s.threads[t].pc.Notify? || s.threads[t].pc.NotifyLeave? ==>
      forall u :: 0 <= u < |Step(s, t, row, wake).threads| ==> !Step(s, t, row, wake).threads[u].pc.Blocked?
  {
    if s.threads[t].pc.Notify? || s.threads[t].pc.NotifyLeave? {
      OneWaiter(s, t, wake);
      NoneBlocks(Notified(s, t, wake), t, row);
    } else if s.threads[t].pc.Finish? || s.threads[t].pc.WantNotify? {
      Reports(s, t, row);
    }
  }

  lemma Reports(s: State, t: nat, row: Bytes)
    requires CanAct(s, t, row) && (s.threads[t].pc.Finish? || s.threads[t].pc.WantNotify?)
    ensures s.threads[t].pc.Finish? && Act(s, t, row).remaining == 0 ==> Act(s, t, row).threads[t].pc.WantNotify?
    ensures s.threads[t].pc.WantNotify? ==> Act(s, t, row).mutex == t && Act(s, t, row).threads[t].pc.Notify?
  {
  }

  lemma NoneBlocks(s: State, t: nat, row: Bytes)
    requires CanAct(s, t, row) && (s.threads[t].pc.Notify? || s.threads[t].pc.NotifyLeave?)
    requires forall u :: 0 <= u < |s.threads| ==> !s.threads[u].pc.Blocked?
    ensures forall u :: 0 <= u < |Act(s, t, row).threads| ==> !Act(s, t, row).threads[u].pc.Blocked?
  {
  }

  /** Only the caller inside run() can be blocked, so one notification reaches all who wait. */
  lemma OneWaiter(s: State, t: nat, wake: int)
    requires Locks(s) && t < |s.threads| && (s.threads[t].pc.Notify? || s.threads[t].pc.NotifyLeave?) && CanWake(s, wake)
    ensures |Notified(s, t, wake).threads| == |s.threads|
    ensures forall u :: 0 <= u < |s.threads| ==> !Notified(s, t, wake).threads[u].pc.Blocked?
  {
    forall u | 0 <= u < |s.threads| && s.threads[u].pc.Blocked? ensures u == s.callerLock { assert ThreadOk(s, u); }
  }
}
