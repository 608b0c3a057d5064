/** What every step of the pool keeps. */
module PoolInvariant {
  import opened Rows
  import opened Arithmetic
  import opened Pool

  function EnvOf(s: State): Env {
    Env(s.generation, s.chunks, s.chunk)
  }

  /** A lock's holder is the thread whose program counter says so, and each thread keeps to its role. */
  predicate ThreadOk(s: State, t: nat)
    requires t < |s.threads|
  {
    var th := s.threads[t];
    && (HoldsMutex(th.pc) <==> s.mutex == t)
    && (InsideRun(th) <==> s.callerLock == t)
    && (if th.caller then CallerPc(th.pc) else WorkerPc(th.pc))
    && th.seen <= s.generation && (th.pc.Take? ==> th.seen < s.generation)
  }

  ghost predicate Locks(s: State) {
    && s.chunk >= 1
    && FREE <= s.mutex < |s.threads| && FREE <= s.callerLock < |s.threads|
    && forall t {:trigger s.threads[t]} :: 0 <= t < |s.threads| ==> ThreadOk(s, t)
  }

  predicate Untouched(j: Job) {
    forall i :: 0 <= i < |j.served| ==> j.served[i] == 0
  }

  /** Every call of run() has its own Work object, unwritten until the call publishes it. */
  ghost predicate Calls(s: State) {
    && (forall w :: 0 <= w < |s.jobs| ==> ValidJob(s.backing, s.jobs[w]))
    && (forall t :: 0 <= t < |s.threads| && Calling(s.threads[t]) ==> s.threads[t].work < |s.jobs|)
    && (forall t, u :: 0 <= t < u < |s.threads| && Calling(s.threads[t]) && Calling(s.threads[u]) ==>
          s.threads[t].work != s.threads[u].work)
    && (forall t :: 0 <= t < |s.threads| && s.threads[t].caller && BeforeDrain(s.threads[t].pc) ==>
          Untouched(s.jobs[s.threads[t].work]))
  }

  predicate OpenPc(pc: Pc) {
    pc.NotifyReady? || InDrain(pc) || AfterDrain(pc)
  }

  /** A job is published and its run() has not yet returned. */
  predicate Open(s: State) {
    0 <= s.callerLock < |s.threads| && OpenPc(s.threads[s.callerLock].pc)
  }

  /** active_ counts the workers inside drain(), and job_ is the work of the publishing caller. */
  ghost predicate Phase(s: State) {
    && s.chunk >= 1
    && s.active == Sum(Active, EnvOf(s), s.threads)
    && (!Open(s) ==> s.active == 0)
    && (forall t :: 0 <= t < |s.threads| && IsActive(s.threads[t]) ==> s.threads[t].seen == s.generation)
    && s.next <= s.chunks + |s.threads|
    && (s.callerLock == FREE ==> s.job == NULL)
    && (0 <= s.callerLock < |s.threads| ==>
          var owner := s.threads[s.callerLock];
          && s.job == (if owner.pc.WantPublish? || owner.pc.SetJob? then NULL else owner.work)
          && (owner.pc.SetChunks? || owner.pc.SetRemaining? || owner.pc.BumpGeneration? ==> s.next == 0)
          && (owner.pc.SetRemaining? || owner.pc.BumpGeneration? || Open(s) ==>
                owner.work < |s.jobs| && s.chunks == NumChunks(|s.jobs[owner.work].ids|, s.chunk))
          && (owner.pc.BumpGeneration? ==> s.remaining == s.chunks))
  }

  /** Tickets of the open job: who holds which, and what has been written for it. */
  predicate Written(th: Thread, i: nat) {
    th.pc.Finish? || (th.pc.Serve? && i < th.index)
  }

  ghost predicate Holds(s: State, t: nat, k: nat) {
    t < |s.threads| && IsLive(s.chunks, s.threads[t]) && s.threads[t].ticket == k
  }

  /** Whoever is in drain() works for the published job, on tickets and indices that belong to it. */
  predicate TicketShapes(s: State)
    requires s.chunk >= 1 && 0 <= s.job < |s.jobs|
  {
    var j := s.jobs[s.job];
    && (forall t :: 0 <= t < |s.threads| && InDrain(s.threads[t].pc) ==> s.threads[t].work == s.job)
    && (forall t :: 0 <= t < |s.threads| && (s.threads[t].pc.Test? || s.threads[t].pc.Serve? || s.threads[t].pc.Finish?) ==>
          s.threads[t].ticket < s.next)
    && (forall t :: 0 <= t < |s.threads| && (s.threads[t].pc.Serve? || s.threads[t].pc.Finish?) ==>
          s.threads[t].ticket < s.chunks)
    && (forall t :: 0 <= t < |s.threads| && s.threads[t].pc.Serve? ==>
          s.threads[t].index < |j.ids| && Quot(s.threads[t].index, s.chunk) == s.threads[t].ticket)
  }

  ghost predicate OneHolder(s: State) {
    forall t: nat, u: nat, k: nat :: Holds(s, t, k) && Holds(s, u, k) ==> t == u
  }

  /** Indices of unclaimed tickets are unwritten, those of a held ticket written as far as its holder has come. */
  ghost predicate ServedSoFar(s: State)
    requires s.chunk >= 1 && 0 <= s.job < |s.jobs| && ValidJob(s.backing, s.jobs[s.job])
  {
    var j := s.jobs[s.job];
    && (forall i :: 0 <= i < |j.ids| && Quot(i, s.chunk) >= s.next ==> j.served[i] == 0)
    && (forall i: nat, t: nat :: i < |j.ids| && Holds(s, t, Quot(i, s.chunk)) ==>
          j.served[i] == if Written(s.threads[t], i) then 1 else 0)
  }

  /** An unwritten index of a claimed ticket still has its holder. */
  ghost predicate StillHeld(s: State)
    requires s.chunk >= 1 && 0 <= s.job < |s.jobs| && ValidJob(s.backing, s.jobs[s.job])
  {
    var j := s.jobs[s.job];
    forall i :: 0 <= i < |j.ids| && Quot(i, s.chunk) < s.next && j.served[i] == 0 ==> exists t: nat :: Holds(s, t, Quot(i, s.chunk))
  }

  /** Nothing is written twice, and what is written is the serial result. */
  predicate RowsRight(b: Backing, j: Job)
    requires ValidJob(b, j)
  {
    && (forall i :: 0 <= i < |j.ids| ==> j.served[i] <= 1)
    && (forall i :: 0 <= i < |j.ids| && j.served[i] == 1 ==> j.out[i] == ServedRow(b, j.ids[i]))
  }

  ghost predicate Tickets(s: State)
    requires s.chunk >= 1 && 0 <= s.job < |s.jobs|
  {
    && ValidJob(s.backing, s.jobs[s.job]) && TicketShapes(s) && OneHolder(s) && ServedSoFar(s) && StillHeld(s)
    && RowsRight(s.backing, s.jobs[s.job])
  }

  /** remaining_ counts the chunks not yet reported; a waiting caller is always owed a notification. */
  ghost predicate Counters(s: State) {
    && s.remaining == s.chunks - Min(s.next, s.chunks) + Sum(Live, EnvOf(s), s.threads)
    && s.next <= s.chunks + Sum(Passed, EnvOf(s), s.threads)
    && (s.callerLock >= 0 && s.callerLock < |s.threads| ==>
          var owner := s.threads[s.callerLock];
          && (AfterDrain(owner.pc) ==> s.next > s.chunks)
          && (owner.pc.TestActive? || owner.pc.ClearJob? ==> s.remaining == 0)
          && (owner.pc.ClearJob? ==> s.active == 0)
          && (owner.pc.Blocked? ==> s.active > 0 || LeaveNotifyPending(s)))
  }

  predicate LeaveNotifyPending(s: State) {
    0 <= s.mutex < |s.threads| && s.threads[s.mutex].pc.NotifyLeave?
  }

  /** A Work object that no call still uses holds exactly the serial result, written once. */
  ghost predicate Retired(s: State, w: nat) {
    w < |s.jobs| && forall t :: 0 <= t < |s.threads| && Calling(s.threads[t]) ==> s.threads[t].work != w
  }

  predicate Complete(b: Backing, j: Job) {
    && |j.out| == |j.ids| == |j.served|
    && forall i :: 0 <= i < |j.ids| ==> j.served[i] == 1 && j.out[i] == ServedRow(b, j.ids[i])
  }

  ghost predicate Delivered(s: State) {
    forall w: nat :: Retired(s, w) ==> Complete(s.backing, s.jobs[w])
  }

  ghost predicate Inv(s: State) {
    && Locks(s) && Calls(s) && Phase(s) && Delivered(s)
    && (Open(s) ==> 0 <= s.job < |s.jobs| && Tickets(s) && Counters(s))
  }

  lemma InitInv(s: State)
    requires Init(s)
    ensures Inv(s)
  {
    forall t | 0 <= t < |s.threads| ensures ThreadOk(s, t) {}
    SumZero(Active, EnvOf(s), s.threads);
  }

  // ---------------------------------------------------------------- wakeups change nothing else

  function Roused(th: Thread): Thread {
    th.(pc := if th.pc.Asleep? then WantReady else if th.pc.Blocked? then WantDone else th.pc)
  }

  /** s' is s with some waiters out of their wait. */
  ghost predicate Rouses(s: State, s': State) {
    && s' == s.(threads := s'.threads) && |s'.threads| == |s.threads|
    && forall t :: 0 <= t < |s.threads| ==> s'.threads[t] == s.threads[t] || s'.threads[t] == Roused(s.threads[t])
  }

  lemma RouseTickets(s: State, s': State)
    requires s.chunk >= 1 && 0 <= s.job < |s.jobs| && Tickets(s) && Rouses(s, s')
    ensures Tickets(s')
  {
    RouseDrain(s, s');
    assert |s'.threads| == |s.threads|;
    forall t: nat, k: nat ensures Holds(s', t, k) == Holds(s, t, k) {}
  }

  /** Only waiting threads wake: inside drain() nothing changes. */
  lemma RouseDrain(s: State, s': State)
    requires Rouses(s, s')
    ensures forall t :: 0 <= t < |s.threads| && (InDrain(s.threads[t].pc) || InDrain(s'.threads[t].pc)) ==> s'.threads[t] == s.threads[t]
  {
  }

  lemma RouseLocks(s: State, s': State)
    requires Locks(s) && Rouses(s, s')
    ensures Locks(s')
  {
    forall t | 0 <= t < |s.threads| ensures ThreadOk(s', t) { assert ThreadOk(s, t); }
  }

  lemma RouseCalls(s: State, s': State)
    requires Calls(s) && Rouses(s, s')
    ensures Calls(s')
  {
  }

  lemma RousePhase(s: State, s': State)
    requires Locks(s) && Phase(s) && Rouses(s, s')
    ensures Phase(s') && Open(s') == Open(s)
  {
    SumSame(Active, EnvOf(s), s.threads, EnvOf(s'), s'.threads);
  }

  lemma RouseCounters(s: State, s': State)
    requires Locks(s) && Counters(s) && Rouses(s, s')
    ensures Counters(s')
  {
    RouseSums(s, s');
  }

  lemma RouseSums(s: State, s': State)
    requires Locks(s) && Rouses(s, s')
    ensures Sum(Live, EnvOf(s'), s'.threads) == Sum(Live, EnvOf(s), s.threads)
    ensures Sum(Passed, EnvOf(s'), s'.threads) == Sum(Passed, EnvOf(s), s.threads)
  {
    SumSame(Live, EnvOf(s), s.threads, EnvOf(s'), s'.threads);
    SumSame(Passed, EnvOf(s), s.threads, EnvOf(s'), s'.threads);
  }

  lemma RouseDelivered(s: State, s': State)
    requires Delivered(s) && Rouses(s, s')
    ensures Delivered(s')
  {
    forall w: nat | Retired(s', w) ensures Complete(s'.backing, s'.jobs[w]) {
      assert Retired(s, w);
    }
  }

  lemma RouseInv(s: State, s': State)
    requires Inv(s) && Rouses(s, s')
    ensures Inv(s')
  {
    RouseLocks(s, s');
    RouseCalls(s, s');
    RousePhase(s, s');
    RouseDelivered(s, s');
    if Open(s) {
      RouseCounters(s, s');
      RouseTickets(s, s');
    }
  }

  // ---------------------------------------------------------------- the action of one thread

  /** Thread t alone moves; the identity of its call does not change. */
  ghost predicate Moves(s: State, s': State, t: nat) {
    && t < |s.threads| && |s'.threads| == |s.threads| && s'.threads == s.threads[t := s'.threads[t]]
    && s'.backing == s.backing && s'.chunk == s.chunk && |s'.jobs| == |s.jobs|
    && s'.threads[t].caller == s.threads[t].caller
    && (s.threads[t].caller ==> s'.threads[t].work == s.threads[t].work)
    && (Calling(s'.threads[t]) ==> Calling(s.threads[t]))
    && (BeforeDrain(s'.threads[t].pc) ==> BeforeDrain(s.threads[t].pc))
  }

  lemma ActMoves(s: State, t: nat, row: Bytes)
    requires CanAct(s, t, row) && (s.threads[t].caller ==> CallerPc(s.threads[t].pc))
    ensures Moves(s, Act(s, t, row), t)
    ensures !s.threads[t].pc.Serve? ==> Act(s, t, row).jobs == s.jobs
  {
    if InDrain(s.threads[t].pc) { DrainMoves(s, t, row); } else { OutsideMoves(s, t, row); }
  }

  lemma DrainMoves(s: State, t: nat, row: Bytes)
    requires CanAct(s, t, row) && InDrain(s.threads[t].pc)
    ensures Moves(s, Act(s, t, row), t)
    ensures !s.threads[t].pc.Serve? ==> Act(s, t, row).jobs == s.jobs
  {
  }

  lemma OutsideMoves(s: State, t: nat, row: Bytes)
    requires CanAct(s, t, row) && !InDrain(s.threads[t].pc) && (s.threads[t].caller ==> CallerPc(s.threads[t].pc))
    ensures Moves(s, Act(s, t, row), t) && Act(s, t, row).jobs == s.jobs
  {
  }

  /** Thread t alone moves, and takes a lock only if it is free and gives up only its own. */
  predicate LockStep(s: State, s': State, t: nat) {
    && t < |s.threads| && |s'.threads| == |s.threads| && s'.threads == s.threads[t := s'.threads[t]]
    && s'.chunk == s.chunk && s.generation <= s'.generation && ThreadOk(s', t)
    && (s'.mutex == s.mutex || (s.mutex == FREE && s'.mutex == t) || (s.mutex == t && s'.mutex == FREE))
    && (s'.callerLock == s.callerLock || (s.callerLock == FREE && s'.callerLock == t) || (s.callerLock == t && s'.callerLock == FREE))
  }

  lemma LocksFrame(s: State, s': State, t: nat)
    requires Locks(s) && LockStep(s, s', t)
    ensures Locks(s')
  {
    forall u | 0 <= u < |s'.threads| ensures ThreadOk(s', u) {
      assert ThreadOk(s, u);
      assert u != t ==> s'.threads[u] == s.threads[u];
    }
  }

  lemma ActLocks(s: State, t: nat, row: Bytes)
    requires Locks(s) && CanAct(s, t, row)
    ensures Locks(Act(s, t, row))
  {
    assert ThreadOk(s, t);
    var pc := s.threads[t].pc;
    if BeforeDrain(pc) { PublishLockStep(s, t, row); }
    else if InDrain(pc) { DrainLockStep(s, t, row); }
    else if s.threads[t].caller { RunLockStep(s, t, row); }
    else { LoopLockStep(s, t, row); }
    LocksFrame(s, Act(s, t, row), t);
  }

  lemma PublishLockStep(s: State, t: nat, row: Bytes)
    requires CanAct(s, t, row) && ThreadOk(s, t) && BeforeDrain(s.threads[t].pc)
    ensures LockStep(s, Act(s, t, row), t)
  {
  }

  lemma DrainLockStep(s: State, t: nat, row: Bytes)
    requires CanAct(s, t, row) && ThreadOk(s, t) && InDrain(s.threads[t].pc)
    ensures LockStep(s, Act(s, t, row), t)
  {
  }

  lemma RunLockStep(s: State, t: nat, row: Bytes)
    requires CanAct(s, t, row) && ThreadOk(s, t) && s.threads[t].caller
    requires s.threads[t].pc.NotifyReady? || AfterDrain(s.threads[t].pc)
    ensures LockStep(s, Act(s, t, row), t)
  {
  }

  lemma LoopLockStep(s: State, t: nat, row: Bytes)
    requires CanAct(s, t, row) && ThreadOk(s, t) && !s.threads[t].caller && !InDrain(s.threads[t].pc)
    ensures LockStep(s, Act(s, t, row), t)
  {
  }

  lemma CallsFrame(s: State, s': State, t: nat)
    requires Calls(s) && Moves(s, s', t) && s'.jobs == s.jobs
    ensures Calls(s')
  {
  }

  /** Serving the published job leaves the jobs of callers still waiting untouched. */
  lemma CallsServe(s: State, t: nat, row: Bytes)
    requires Locks(s) && Calls(s) && CanAct(s, t, row) && s.threads[t].pc.Serve?
    requires Open(s) && s.threads[t].work == s.threads[s.callerLock].work
    ensures Calls(Act(s, t, row))
  {
    var s' := Act(s, t, row);
    forall u | 0 <= u < |s.threads| && s'.threads[u].caller && BeforeDrain(s'.threads[u].pc)
      ensures Untouched(s'.jobs[s'.threads[u].work])
    {
      assert u != s.callerLock && Calling(s.threads[u]) && Calling(s.threads[s.callerLock]);
      assert s.threads[u].work != s.threads[s.callerLock].work;
    }
  }

  lemma NobodyActive(s: State)
    requires s.active == 0 == Sum(Active, EnvOf(s), s.threads)
    ensures forall t :: 0 <= t < |s.threads| ==> !IsActive(s.threads[t])
  {
    forall t | 0 <= t < |s.threads| ensures !IsActive(s.threads[t]) {
      SumBounds(Active, EnvOf(s), s.threads, t);
    }
  }

  lemma ActPhasePublish(s: State, t: nat, row: Bytes)
    requires Locks(s) && Calls(s) && Phase(s) && CanAct(s, t, row) && BeforeDrain(s.threads[t].pc)
    ensures Phase(Act(s, t, row))
  {
    var pc := s.threads[t].pc;
    if pc.WantCaller? || pc.WantPublish? || pc.SetJob? { ActPhaseEnter(s, t, row); }
    else { ActPhaseStore(s, t, row); }
  }

  lemma ActPhaseEnter(s: State, t: nat, row: Bytes)
    requires Locks(s) && Phase(s) && CanAct(s, t, row)
    requires s.threads[t].pc.WantCaller? || s.threads[t].pc.WantPublish? || s.threads[t].pc.SetJob?
    ensures Phase(Act(s, t, row))
  {
    var s' := Act(s, t, row);
    EnterShape(s, t, row);
    SumUpdate(Active, EnvOf(s), s.threads, t, s'.threads[t]);
    assert Sum(Active, EnvOf(s), s'.threads) == s.active;
  }

  /** What a caller changes before it starts on the shared variables of drain(). */
  lemma EnterShape(s: State, t: nat, row: Bytes)
    requires CanAct(s, t, row) && s.threads[t].caller
    requires s.threads[t].pc.WantCaller? || s.threads[t].pc.WantPublish? || s.threads[t].pc.SetJob?
    ensures var s', th' := Act(s, t, row), Act(s, t, row).threads[t];
      && s' == s.(threads := s.threads[t := th'], job := s'.job, mutex := s'.mutex, callerLock := s'.callerLock)
      && th' == s.threads[t].(pc := th'.pc) && !IsActive(s.threads[t]) && !IsActive(th') && !OpenPc(th'.pc)
      && (if s.threads[t].pc.WantCaller? then s'.callerLock == t && th'.pc.WantPublish? && s'.job == s.job
          else if s.threads[t].pc.WantPublish? then s'.callerLock == s.callerLock && th'.pc.SetJob? && s'.job == s.job
          else s'.callerLock == s.callerLock && th'.pc.ResetNext? && s'.job == th'.work)
  {
  }

  lemma ActPhaseStore(s: State, t: nat, row: Bytes)
    requires Locks(s) && Phase(s) && CanAct(s, t, row) && BeforeDrain(s.threads[t].pc)
    requires !s.threads[t].pc.WantCaller? && !s.threads[t].pc.WantPublish? && !s.threads[t].pc.SetJob?
    ensures Phase(Act(s, t, row))
  {
    var s' := Act(s, t, row);
    NobodyActive(s);
    SumSame(Active, EnvOf(s), s.threads, EnvOf(s'), s'.threads);
  }

  /** What the caller outside drain() and outside the publishing section changes. */
  lemma RunShape(s: State, t: nat, row: Bytes)
    requires CanAct(s, t, row) && s.threads[t].caller
    requires s.threads[t].pc.NotifyReady? || AfterDrain(s.threads[t].pc)
    ensures var s', th' := Act(s, t, row), Act(s, t, row).threads[t];
      && s' == s.(threads := s.threads[t := th'], job := s'.job, mutex := s'.mutex, callerLock := s'.callerLock)
      && th' == s.threads[t].(pc := th'.pc) && !IsActive(s.threads[t]) && !IsActive(th')
      && (if s.threads[t].pc.ClearJob? then s'.callerLock == FREE && s'.job == NULL
          else OpenPc(th'.pc) && s'.callerLock == s.callerLock && s'.job == s.job)
  {
  }

  lemma ActPhaseRun(s: State, t: nat, row: Bytes)
    requires Locks(s) && Phase(s) && CanAct(s, t, row) && s.threads[t].caller
    requires s.threads[t].pc.NotifyReady? || AfterDrain(s.threads[t].pc)
    requires s.threads[t].pc.ClearJob? ==> s.active == 0
    ensures Phase(Act(s, t, row))
  {
    var s' := Act(s, t, row);
    RunShape(s, t, row);
    assert t == s.callerLock;
    SumUpdate(Active, EnvOf(s), s.threads, t, s'.threads[t]);
    assert Sum(Active, EnvOf(s), s'.threads) == s.active;
  }

  /** Only thread t and the variables of drain() change. */
  ghost predicate DrainChange(s: State, s': State, t: nat) {
    && t < |s.threads| && |s'.threads| == |s.threads| && s'.threads == s.threads[t := s'.threads[t]]
    && s'.threads[t].caller == s.threads[t].caller && s'.threads[t].work == s.threads[t].work
    && s'.threads[t].seen == s.threads[t].seen
    && s' == s.(threads := s'.threads, jobs := s'.jobs, next := s'.next, remaining := s'.remaining, mutex := s'.mutex)
    && |s'.jobs| == |s.jobs| && forall w :: 0 <= w < |s.jobs| ==> s'.jobs[w].ids == s.jobs[w].ids
  }

  lemma PhaseFrame(s: State, s': State, t: nat)
    requires Phase(s) && Open(s) && DrainChange(s, s', t)
    requires IsActive(s.threads[t]) == IsActive(s'.threads[t])
    requires t == s.callerLock ==> OpenPc(s'.threads[t].pc)
    requires s'.next <= s.chunks + |s.threads|
    ensures Phase(s') && Open(s')
  {
    SumSame(Active, EnvOf(s), s.threads, EnvOf(s'), s'.threads);
  }

  lemma DrainShape(s: State, t: nat, row: Bytes)
    requires Locks(s) && CanAct(s, t, row) && InDrain(s.threads[t].pc)
    ensures DrainChange(s, Act(s, t, row), t)
    ensures IsActive(s.threads[t]) == IsActive(Act(s, t, row).threads[t])
    ensures s.threads[t].caller ==> OpenPc(Act(s, t, row).threads[t].pc)
  {
  }

  lemma ActPhaseDrain(s: State, t: nat, row: Bytes)
    requires Locks(s) && Phase(s) && CanAct(s, t, row) && InDrain(s.threads[t].pc)
    requires Open(s) && Counters(Act(s, t, row))
    ensures Phase(Act(s, t, row)) && Open(Act(s, t, row))
  {
    DrainShape(s, t, row);
    SumAtMost(Passed, EnvOf(Act(s, t, row)), Act(s, t, row).threads);
    PhaseFrame(s, Act(s, t, row), t);
  }

  /** A worker takes a job only while one is open. */
  lemma TakeOpen(s: State, t: nat)
    requires Locks(s) && Phase(s) && t < |s.threads| && s.threads[t].pc.Take? && s.job >= 0
    ensures Open(s)
  {
    assert s.mutex == t;
  }

  /** What a worker outside drain() changes: its own thread, active_ and mutex_. */
  lemma LoopShape(s: State, t: nat, row: Bytes)
    requires CanAct(s, t, row) && !s.threads[t].caller && WorkerPc(s.threads[t].pc) && !InDrain(s.threads[t].pc)
    requires s.threads[t].pc.Take? ==> s.threads[t].seen < s.generation
    requires IsActive(s.threads[t]) ==> s.threads[t].seen == s.generation
    ensures var s', th, th', e := Act(s, t, row), s.threads[t], Act(s, t, row).threads[t], EnvOf(s);
      && s' == s.(threads := s.threads[t := th'], active := s'.active, mutex := s'.mutex)
      && th'.caller == th.caller
      && s'.active - s.active == Weight(Active, e, th') - Weight(Active, e, th)
      && (IsActive(th') ==> th'.seen == s.generation && (IsActive(th) || (th.pc.Take? && s.job >= 0)))
      && !IsLive(s.chunks, th) && !IsLive(s.chunks, th')
      && (HasPassed(e, th) ==> HasPassed(e, th'))
      && (th.pc.Leave? ==> th'.pc.NotifyLeave? && s'.mutex == s.mutex)
      && (!th.pc.Leave? ==> s'.active >= s.active)
  {
  }

  lemma ActPhaseLoop(s: State, t: nat, row: Bytes)
    requires Locks(s) && Phase(s) && CanAct(s, t, row) && !s.threads[t].caller && !InDrain(s.threads[t].pc)
    ensures Phase(Act(s, t, row)) && Open(Act(s, t, row)) == Open(s)
  {
    var s' := Act(s, t, row);
    LoopShape(s, t, row);
    if s.threads[t].pc.Take? && s.job >= 0 { TakeOpen(s, t); }
    SumUpdate(Active, EnvOf(s), s.threads, t, s'.threads[t]);
    PhaseLoopFrame(s, s', t);
  }

  lemma PhaseLoopFrame(s: State, s': State, t: nat)
    requires Phase(s) && t < |s.threads| && t != s.callerLock && |s'.threads| == |s.threads|
    requires s' == s.(threads := s.threads[t := s'.threads[t]], active := s'.active, mutex := s'.mutex)
    requires s'.active == Sum(Active, EnvOf(s), s'.threads)
    requires !Open(s) ==> s'.active <= 0
    requires IsActive(s'.threads[t]) ==> s'.threads[t].seen == s.generation
    ensures Phase(s') && Open(s') == Open(s)
  {
  }

  lemma {:induction false} TicketRange(i: nat, chunk: nat, k: nat)
    requires chunk >= 1
    ensures Quot(i, chunk) == k <==> k * chunk <= i < (k + 1) * chunk
  {
    if i < chunk {
      if k >= 1 { assert k * chunk >= chunk; }
    } else if k >= 1 {
      TicketRange(i - chunk, chunk, k - 1);
      assert (k - 1) * chunk == k * chunk - chunk;
    }
  }

  lemma {:induction false} TicketStart(k: nat, chunk: nat, count: nat)
    requires chunk >= 1 && k < NumChunks(count, chunk)
    ensures k * chunk < count && Quot(k * chunk, chunk) == k
  {
    ChunkStart(k, chunk, count);
    TicketRange(k * chunk, chunk, k);
  }

  lemma ChunkStart(k: nat, chunk: nat, count: nat)
    requires chunk >= 1 && k < NumChunks(count, chunk)
    ensures k * chunk < count && (k + 1) * chunk == k * chunk + chunk
  {
    var n := count + chunk - 1;
    DivMod(n, chunk);
    MulMono(k + 1, n / chunk, chunk);
  }

  lemma TicketBound(i: nat, chunk: nat, count: nat)
    requires chunk >= 1 && i < count
    ensures Quot(i, chunk) < NumChunks(count, chunk)
  {
    var n, k := count + chunk - 1, Quot(i, chunk);
    TicketRange(i, chunk, k);
    var q := n / chunk;
    assert n == q * chunk + n % chunk;
    assert n >= k * chunk + chunk;
    if q <= k { MulMono(q, k, chunk); }
  }

  /** A step of a thread that holds no ticket before or after it. */
  lemma TicketsFrame(s: State, s': State, t: nat)
    requires s.chunk >= 1 && 0 <= s.job < |s.jobs| && Tickets(s) && t < |s.threads|
    requires s'.chunk == s.chunk && s'.job == s.job && s'.jobs == s.jobs && s'.backing == s.backing
    requires s'.next == s.next && s'.chunks == s.chunks
    requires |s'.threads| == |s.threads| && s'.threads == s.threads[t := s'.threads[t]]
    requires !IsLive(s.chunks, s.threads[t]) && !IsLive(s.chunks, s'.threads[t]) && !s'.threads[t].pc.Test?
    requires InDrain(s'.threads[t].pc) ==> s'.threads[t].work == s.job
    ensures Tickets(s')
  {
    forall u: nat, k: nat ensures Holds(s', u, k) == Holds(s, u, k) {}
  }

  lemma TicketsClaim(s: State, t: nat, row: Bytes)
    requires s.chunk >= 1 && 0 <= s.job < |s.jobs| && Tickets(s) && CanAct(s, t, row) && s.threads[t].pc.Claim?
    requires s.chunks == NumChunks(|s.jobs[s.job].ids|, s.chunk)
    ensures Tickets(Act(s, t, row))
  {
    var s' := Act(s, t, row);
    forall u: nat, k: nat
      ensures Holds(s', u, k) == (Holds(s, u, k) || (u == t && k == s.next && s.next < s.chunks)) {}
    forall i: nat | i < |s.jobs[s.job].ids| && Quot(i, s.chunk) == s.next
      ensures Holds(s', t, s.next)
    {
      TicketBound(i, s.chunk, |s.jobs[s.job].ids|);
    }
    forall u: nat, k: nat | Holds(s, u, k) ensures Holds(s', u, k) && k < s.next {}
  }

  lemma TicketsTest(s: State, t: nat, row: Bytes)
    requires s.chunk >= 1 && 0 <= s.job < |s.jobs| && Tickets(s) && CanAct(s, t, row) && s.threads[t].pc.Test?
    requires s.chunks == NumChunks(|s.jobs[s.job].ids|, s.chunk)
    ensures Tickets(Act(s, t, row))
  {
    var s' := Act(s, t, row);
    forall u: nat, k: nat ensures Holds(s', u, k) == Holds(s, u, k) {}
    if IsLive(s.chunks, s.threads[t]) { TestStart(s, t, row); }
  }

  /** A thread that goes on to serve starts at the first index of its chunk. */
  lemma TestStart(s: State, t: nat, row: Bytes)
    requires CanAct(s, t, row) && s.threads[t].pc.Test? && s.threads[t].ticket < s.chunks && 0 <= s.job < |s.jobs|
    requires s.chunks == NumChunks(|s.jobs[s.job].ids|, s.chunk)
    ensures var th, count := Act(s, t, row).threads[t], |s.jobs[s.job].ids|;
      && th.pc.Serve? && th.index < count && Quot(th.index, s.chunk) == th.ticket == s.threads[t].ticket
      && forall i: nat :: i < count && Quot(i, s.chunk) == th.ticket ==> !Written(th, i)
  {
    var k, th, count := s.threads[t].ticket, Act(s, t, row).threads[t], |s.jobs[s.job].ids|;
    TicketStart(k, s.chunk, count);
    forall i: nat | i < count && Quot(i, s.chunk) == k ensures !Written(th, i) { TicketRange(i, s.chunk, k); }
  }

  /** Written by a serving thread and by nobody else: its own index becomes 1, the rest of its chunk agrees with its progress. */
  lemma ServeProgress(s: State, t: nat, row: Bytes)
    requires s.chunk >= 1 && 0 <= s.job < |s.jobs| && Tickets(s) && CanAct(s, t, row) && s.threads[t].pc.Serve?
    ensures var s' := Act(s, t, row);
      forall i: nat :: i < |s.jobs[s.job].ids| && Quot(i, s.chunk) == s.threads[t].ticket ==>
        s'.jobs[s.job].served[i] == (if Written(s'.threads[t], i) then 1 else 0)
    ensures var th' := Act(s, t, row).threads[t];
      th'.pc.Serve? ==> Quot(th'.index, s.chunk) == th'.ticket
  {
    var s', j, th := Act(s, t, row), s.jobs[s.job], s.threads[t];
    assert th.work == s.job && Holds(s, t, th.ticket);
    TicketRange(th.index, s.chunk, th.ticket);
    if s'.threads[t].pc.Serve? { TicketRange(th.index + 1, s.chunk, th.ticket); }
    forall i: nat | i < |j.ids| && Quot(i, s.chunk) == th.ticket
      ensures s'.jobs[s.job].served[i] == if Written(s'.threads[t], i) then 1 else 0
    {
      TicketRange(i, s.chunk, th.ticket);
    }
  }

  lemma TicketsServe(s: State, t: nat, row: Bytes)
    requires s.chunk >= 1 && 0 <= s.job < |s.jobs| && Tickets(s) && CanAct(s, t, row) && s.threads[t].pc.Serve?
    ensures Tickets(Act(s, t, row))
  {
    ServeProgress(s, t, row);
    assert s.threads[t].work == s.job && Holds(s, t, s.threads[t].ticket);
    TicketsWrite(s, Act(s, t, row), t);
  }

  /** Thread t writes one row of its own chunk. */
  ghost predicate WritesRow(s: State, s': State, t: nat)
    requires s.chunk >= 1 && 0 <= s.job < |s.jobs| && ValidJob(s.backing, s.jobs[s.job])
  {
    && t < |s.threads| && s.threads[t].pc.Serve? && |s'.jobs| == |s.jobs| && |s'.threads| == |s.threads|
    && s' == s.(jobs := s'.jobs, threads := s.threads[t := s'.threads[t]])
    && (var th, th' := s.threads[t], s'.threads[t];
        && (th'.pc.Serve? || th'.pc.Finish?) && th'.work == th.work && th'.ticket == th.ticket
        && (th'.pc.Serve? ==> th'.index < |s.jobs[s.job].ids| && Quot(th'.index, s.chunk) == th.ticket))
    && var j, j', x := s.jobs[s.job], s'.jobs[s.job], s.threads[t].index;
      x < |j.ids| && j'.ids == j.ids && |j'.out| == |j'.served| == |j.ids| && j'.out[x] == ServedRow(s.backing, j.ids[x])
      && (forall i :: 0 <= i < |j.ids| && i != x ==> j'.out[i] == j.out[i] && j'.served[i] == j.served[i])
      && (forall i: nat :: i < |j.ids| && Quot(i, s.chunk) == s.threads[t].ticket ==>
            j'.served[i] == if Written(s'.threads[t], i) then 1 else 0)
  }

  lemma WriteHolds(s: State, s': State, t: nat)
    requires s.chunk >= 1 && 0 <= s.job < |s.jobs| && Tickets(s) && WritesRow(s, s', t)
    ensures forall u: nat, k: nat :: Holds(s', u, k) == Holds(s, u, k)
    ensures Holds(s, t, s.threads[t].ticket)
  {
  }

  /** The index written is not one of another holder's ticket, nor of an unclaimed one. */
  lemma WriteServed(s: State, s': State, t: nat)
    requires s.chunk >= 1 && 0 <= s.job < |s.jobs| && Tickets(s) && WritesRow(s, s', t)
    ensures ServedSoFar(s')
  {
    WriteHolds(s, s', t);
    var j, j', x, k := s.jobs[s.job], s'.jobs[s.job], s.threads[t].index, s.threads[t].ticket;
    forall i | 0 <= i < |j.ids| && Quot(i, s.chunk) >= s.next ensures j'.served[i] == 0 { assert i != x; }
    forall i: nat, u: nat | i < |j.ids| && Holds(s', u, Quot(i, s.chunk))
      ensures j'.served[i] == if Written(s'.threads[u], i) then 1 else 0
    {
      assert Holds(s, u, Quot(i, s.chunk));
      if Quot(i, s.chunk) == k { assert u == t; } else { assert i != x && u != t; }
    }
  }

  lemma WriteStillHeld(s: State, s': State, t: nat)
    requires s.chunk >= 1 && 0 <= s.job < |s.jobs| && Tickets(s) && WritesRow(s, s', t)
    ensures StillHeld(s')
  {
    WriteHolds(s, s', t);
    var j, j' := s.jobs[s.job], s'.jobs[s.job];
    forall i | 0 <= i < |j.ids| && Quot(i, s.chunk) < s.next && j'.served[i] == 0
      ensures exists u: nat :: Holds(s', u, Quot(i, s.chunk))
    {
      if Quot(i, s.chunk) == s.threads[t].ticket {
        assert Holds(s', t, Quot(i, s.chunk));
      } else {
        assert j.served[i] == 0;
        var u: nat :| Holds(s, u, Quot(i, s.chunk));
        assert Holds(s', u, Quot(i, s.chunk));
      }
    }
  }

  lemma WriteRows(s: State, s': State, t: nat)
    requires s.chunk >= 1 && 0 <= s.job < |s.jobs| && Tickets(s) && WritesRow(s, s', t)
    ensures RowsRight(s'.backing, s'.jobs[s'.job])
  {
    var j, j', x := s.jobs[s.job], s'.jobs[s.job], s.threads[t].index;
    assert Quot(x, s.chunk) == s.threads[t].ticket;
    forall i | 0 <= i < |j.ids| ensures j'.served[i] <= 1 && (j'.served[i] == 1 ==> j'.out[i] == ServedRow(s.backing, j.ids[i])) {
      if i != x { assert j'.served[i] == j.served[i] && j'.out[i] == j.out[i]; }
    }
  }

  lemma TicketsWrite(s: State, s': State, t: nat)
    requires s.chunk >= 1 && 0 <= s.job < |s.jobs| && Tickets(s) && WritesRow(s, s', t)
    ensures Tickets(s')
  {
    WriteHolds(s, s', t);
    assert OneHolder(s');
    WriteServed(s, s', t);
    WriteStillHeld(s, s', t);
    WriteRows(s, s', t);
  }

  lemma TicketsFinish(s: State, t: nat, row: Bytes)
    requires s.chunk >= 1 && 0 <= s.job < |s.jobs| && Tickets(s) && CanAct(s, t, row) && s.threads[t].pc.Finish?
    ensures Tickets(Act(s, t, row))
  {
    var s', k := Act(s, t, row), s.threads[t].ticket;
    assert Holds(s, t, k);
    forall u: nat, h: nat ensures Holds(s', u, h) == (Holds(s, u, h) && u != t) {}
    forall i: nat | i < |s.jobs[s.job].ids| && Quot(i, s.chunk) == k
      ensures s.jobs[s.job].served[i] == 1 {}
  }

  // ---------------------------------------------------------------- counters

  lemma CountersDrain(s: State, t: nat, row: Bytes)
    requires Locks(s) && Phase(s) && Open(s) && Counters(s) && CanAct(s, t, row) && InDrain(s.threads[t].pc)
    requires s.threads[t].pc.Test? ==> s.threads[t].ticket < s.next
    ensures Counters(Act(s, t, row))
  {
    var pc := s.threads[t].pc;
    if pc.Claim? { CountersClaim(s, t, row); }
    else if pc.Test? { CountersTest(s, t, row); }
    else { CountersServe(s, t, row); }
  }

  lemma CountersClaim(s: State, t: nat, row: Bytes)
    requires Locks(s) && Open(s) && Counters(s) && CanAct(s, t, row) && s.threads[t].pc.Claim?
    ensures Counters(Act(s, t, row))
  {
    var s' := Act(s, t, row);
    SumUpdate(Live, EnvOf(s), s.threads, t, s'.threads[t]);
    SumUpdate(Passed, EnvOf(s), s.threads, t, s'.threads[t]);
  }

  lemma CountersTest(s: State, t: nat, row: Bytes)
    requires Locks(s) && Phase(s) && Open(s) && Counters(s) && CanAct(s, t, row)
    requires s.threads[t].pc.Test? && s.threads[t].ticket < s.next
    ensures Counters(Act(s, t, row))
  {
    var s' := Act(s, t, row);
    assert !s.threads[t].caller ==> IsActive(s.threads[t]);
    TestShape(s, t, row);
    SumUpdate(Live, EnvOf(s), s.threads, t, s'.threads[t]);
    SumUpdate(Passed, EnvOf(s), s.threads, t, s'.threads[t]);
  }

  /** A test changes neither count: a thread that overshoots has passed, and leaves drain(). */
  lemma TestShape(s: State, t: nat, row: Bytes)
    requires CanAct(s, t, row) && s.threads[t].pc.Test?
    requires !s.threads[t].caller ==> s.threads[t].seen == s.generation
    ensures var s', th, th', e := Act(s, t, row), s.threads[t], Act(s, t, row).threads[t], EnvOf(s);
      && s' == s.(threads := s.threads[t := th']) && th'.caller == th.caller
      && Weight(Passed, e, th') == Weight(Passed, e, th) && Weight(Live, e, th') == Weight(Live, e, th)
      && (AfterDrain(th'.pc) ==> th'.pc.WantDone? && th.ticket >= s.chunks)
      && (!th'.caller || InDrain(th'.pc) || AfterDrain(th'.pc))
  {
  }

  /** Only a reported chunk changes what is counted. */
  lemma ServeShape(s: State, t: nat, row: Bytes)
    requires CanAct(s, t, row) && InDrain(s.threads[t].pc) && !s.threads[t].pc.Claim? && !s.threads[t].pc.Test?
    ensures var s', th, th', e := Act(s, t, row), s.threads[t], Act(s, t, row).threads[t], EnvOf(s);
      && s'.next == s.next && InDrain(th'.pc) && th'.caller == th.caller
      && HasPassed(e, th') == HasPassed(e, th)
      && s'.remaining - s.remaining == Weight(Live, e, th') - Weight(Live, e, th)
  {
  }

  lemma CountersServe(s: State, t: nat, row: Bytes)
    requires Locks(s) && Open(s) && Counters(s) && CanAct(s, t, row)
    requires InDrain(s.threads[t].pc) && !s.threads[t].pc.Claim? && !s.threads[t].pc.Test?
    ensures Counters(Act(s, t, row))
  {
    var s' := Act(s, t, row);
    DrainShape(s, t, row);
    ServeShape(s, t, row);
    SumUpdate(Live, EnvOf(s), s.threads, t, s'.threads[t]);
    SumUpdate(Passed, EnvOf(s), s.threads, t, s'.threads[t]);
  }

  lemma CountersLoop(s: State, t: nat, row: Bytes)
    requires Locks(s) && Phase(s) && Open(s) && Counters(s) && CanAct(s, t, row)
    requires !s.threads[t].caller && !InDrain(s.threads[t].pc)
    requires s.threads[t].pc.NotifyLeave? ==> !s.threads[s.callerLock].pc.Blocked?
    ensures Counters(Act(s, t, row))
  {
    var s' := Act(s, t, row);
    LoopShape(s, t, row);
    SumUpdate(Live, EnvOf(s), s.threads, t, s'.threads[t]);
    SumUpdate(Passed, EnvOf(s), s.threads, t, s'.threads[t]);
    SumBounds(Active, EnvOf(s), s.threads, t);
    LoopPending(s, t, row);
  }

  /** A leaving worker keeps mutex_ until it has notified done_. */
  lemma LoopPending(s: State, t: nat, row: Bytes)
    requires Locks(s) && CanAct(s, t, row) && !s.threads[t].caller && !InDrain(s.threads[t].pc)
    ensures LeaveNotifyPending(s) && !s.threads[t].pc.NotifyLeave? ==> LeaveNotifyPending(Act(s, t, row))
    ensures s.threads[t].pc.Leave? ==> LeaveNotifyPending(Act(s, t, row))
  {
  }

  /** While chunks are outstanding after the caller's own drain(), some worker is inside drain(). */
  lemma OutstandingWorker(s: State)
    requires Locks(s) && Phase(s) && Open(s) && Counters(s) && s.threads[s.callerLock].pc.TestRemaining?
    requires s.remaining != 0
    ensures s.active > 0
  {
    var u := SumWitness(Live, EnvOf(s), s.threads);
    SumBounds(Active, EnvOf(s), s.threads, u);
  }

  lemma CountersRun(s: State, t: nat, row: Bytes)
    requires Locks(s) && Phase(s) && Open(s) && Counters(s) && CanAct(s, t, row)
    requires s.threads[t].caller && !InDrain(s.threads[t].pc)
    ensures Open(Act(s, t, row)) ==> Counters(Act(s, t, row))
  {
    var s' := Act(s, t, row);
    assert t == s.callerLock;
    CountersRunShape(s, t, row);
    SumUpdate(Live, EnvOf(s), s.threads, t, s'.threads[t]);
    SumUpdate(Passed, EnvOf(s), s.threads, t, s'.threads[t]);
    if s.threads[t].pc.TestRemaining? && s.remaining != 0 { OutstandingWorker(s); }
  }

  /** The waits of run() leave all counters alone; which wait goes on depends on remaining_ and active_. */
  lemma CountersRunShape(s: State, t: nat, row: Bytes)
    requires CanAct(s, t, row) && s.threads[t].caller
    requires s.threads[t].pc.NotifyReady? || AfterDrain(s.threads[t].pc)
    ensures var s', th, th', e := Act(s, t, row), s.threads[t], Act(s, t, row).threads[t], EnvOf(s);
      && s'.threads == s.threads[t := th'] && s'.next == s.next && s'.chunks == s.chunks && s'.remaining == s.remaining && s'.active == s.active
      && EnvOf(s') == e && Weight(Live, e, th') == Weight(Live, e, th) == 0
      && (!th.pc.ClearJob? ==> Weight(Passed, e, th') == Weight(Passed, e, th))
      && (AfterDrain(th'.pc) ==> AfterDrain(th.pc))
      && (th'.pc.TestActive? ==> s.remaining == 0) && (th'.pc.ClearJob? ==> th.pc.TestActive? && s.active == 0)
      && (th'.pc.Blocked? ==> (th.pc.TestRemaining? && s.remaining != 0) || (th.pc.TestActive? && s.active != 0))
  {
  }

  /** Nobody is inside drain() when a job opens. */
  lemma Opens(s: State, t: nat, row: Bytes)
    requires Locks(s) && Calls(s) && Phase(s) && CanAct(s, t, row) && !Open(s) && Open(Act(s, t, row))
    requires s.threads[t].caller && !InDrain(s.threads[t].pc)
    ensures s.threads[t].pc.BumpGeneration? && t == s.callerLock
    ensures Tickets(Act(s, t, row)) && Counters(Act(s, t, row))
  {
    NobodyActive(s);
    assert s.threads[t].pc.BumpGeneration?;
    NobodyDrains(Act(s, t, row));
  }

  lemma NobodyDrains(s': State)
    requires s'.chunk >= 1 && 0 <= s'.job < |s'.jobs| && ValidJob(s'.backing, s'.jobs[s'.job]) && Untouched(s'.jobs[s'.job])
    requires forall t :: 0 <= t < |s'.threads| ==> !InDrain(s'.threads[t].pc)
    requires s'.next == 0 && s'.remaining == s'.chunks
    requires 0 <= s'.callerLock < |s'.threads| && s'.threads[s'.callerLock].pc.NotifyReady?
    ensures Tickets(s') && Counters(s')
  {
    SumZero(Live, EnvOf(s'), s'.threads);
  }

  // ---------------------------------------------------------------- delivery

  lemma Closes(s: State, i: nat)
    requires s.chunk >= 1 && 0 <= s.job < |s.jobs| && Tickets(s) && Counters(s)
    requires s.chunks == NumChunks(|s.jobs[s.job].ids|, s.chunk)
    requires s.next > s.chunks && s.remaining == 0 && i < |s.jobs[s.job].ids|
    ensures s.jobs[s.job].served[i] == 1
  {
    var k := Quot(i, s.chunk);
    TicketBound(i, s.chunk, |s.jobs[s.job].ids|);
    if s.jobs[s.job].served[i] == 0 {
      var t: nat :| Holds(s, t, k);
      SumBounds(Live, EnvOf(s), s.threads, t);
    }
  }

  /** run() returns only when every index has been served exactly once, with the serial result. */
  lemma ReturnsComplete(s: State, t: nat)
    requires Inv(s) && t < |s.threads| && s.threads[t].pc.ClearJob?
    ensures s.threads[t].work < |s.jobs| && Complete(s.backing, s.jobs[s.threads[t].work])
  {
    assert t == s.callerLock;
    forall i: nat | i < |s.jobs[s.job].ids| ensures s.jobs[s.job].served[i] == 1 { Closes(s, i); }
  }

  lemma ActDelivered(s: State, t: nat, row: Bytes)
    requires Inv(s) && CanAct(s, t, row)
    ensures Delivered(Act(s, t, row))
  {
    var s', th := Act(s, t, row), s.threads[t];
    assert s'.backing == s.backing && |s'.jobs| == |s.jobs| by { ActMoves(s, t, row); }
    forall w: nat | Retired(s', w) ensures Complete(s'.backing, s'.jobs[w]) {
      if th.pc.ClearJob? && w == th.work {
        ReturnsComplete(s, t);
      } else {
        ActRetired(s, t, row, w);
        assert Complete(s.backing, s.jobs[w]);
      }
    }
  }

  lemma ServeOpen(s: State, t: nat)
    requires Inv(s) && t < |s.threads| && InDrain(s.threads[t].pc)
    ensures Open(s)
  {
    if !Open(s) { NobodyActive(s); }
  }

  lemma ActRetired(s: State, t: nat, row: Bytes, w: nat)
    requires Inv(s) && CanAct(s, t, row) && Retired(Act(s, t, row), w)
    requires !(s.threads[t].pc.ClearJob? && w == s.threads[t].work)
    ensures Retired(s, w) && Act(s, t, row).jobs[w] == s.jobs[w]
  {
    var s' := Act(s, t, row);
    ActMoves(s, t, row);
    assert Calling(s.threads[t]) && !Calling(s'.threads[t]) ==> s.threads[t].pc.ClearJob?;
    forall u | 0 <= u < |s.threads| && Calling(s.threads[u]) ensures s.threads[u].work != w {
      assert u == t || s'.threads[u] == s.threads[u];
    }
    if s.threads[t].pc.Serve? { ServeRetired(s, t, w); }
  }

  lemma ServeRetired(s: State, t: nat, w: nat)
    requires Inv(s) && t < |s.threads| && s.threads[t].pc.Serve? && Retired(s, w)
    ensures s.threads[t].work != w
  {
    ServeOpen(s, t);
    assert Calling(s.threads[s.callerLock]);
  }

  // ---------------------------------------------------------------- every step, every run

  lemma ActInvDrain(s: State, t: nat, row: Bytes)
    requires Inv(s) && CanAct(s, t, row) && InDrain(s.threads[t].pc)
    ensures Inv(Act(s, t, row))
  {
    ServeOpen(s, t);
    ActLocks(s, t, row);
    ActMoves(s, t, row);
    if s.threads[t].pc.Serve? { CallsServe(s, t, row); } else { CallsFrame(s, Act(s, t, row), t); }
    CountersDrain(s, t, row);
    ActPhaseDrain(s, t, row);
    ActDelivered(s, t, row);
    TicketsDrain(s, t, row);
  }

  lemma TicketsDrain(s: State, t: nat, row: Bytes)
    requires s.chunk >= 1 && 0 <= s.job < |s.jobs| && Tickets(s) && CanAct(s, t, row) && InDrain(s.threads[t].pc)
    requires s.chunks == NumChunks(|s.jobs[s.job].ids|, s.chunk)
    ensures Tickets(Act(s, t, row))
  {
    var pc := s.threads[t].pc;
    if pc.Claim? { TicketsClaim(s, t, row); }
    else if pc.Test? { TicketsTest(s, t, row); }
    else if pc.Serve? { TicketsServe(s, t, row); }
    else if pc.Finish? { TicketsFinish(s, t, row); }
    else { TicketsFrame(s, Act(s, t, row), t); }
  }

  lemma ActInvRun(s: State, t: nat, row: Bytes)
    requires Inv(s) && CanAct(s, t, row) && s.threads[t].caller && !InDrain(s.threads[t].pc)
    ensures Inv(Act(s, t, row))
  {
    var s' := Act(s, t, row);
    ActLocks(s, t, row);
    assert Calls(s') by { ActMoves(s, t, row); CallsFrame(s, s', t); }
    assert Phase(s') by {
      if BeforeDrain(s.threads[t].pc) { ActPhasePublish(s, t, row); } else { ActPhaseRun(s, t, row); }
    }
    ActDelivered(s, t, row);
    if Open(s) {
      StaysOpen(s, t, row);
    } else if Open(s') {
      Opens(s, t, row);
    }
  }

  lemma StaysOpen(s: State, t: nat, row: Bytes)
    requires Inv(s) && CanAct(s, t, row) && s.threads[t].caller && !InDrain(s.threads[t].pc) && Open(s)
    ensures var s' := Act(s, t, row); Open(s') ==> 0 <= s'.job < |s'.jobs| && Tickets(s') && Counters(s')
  {
    CountersRun(s, t, row);
    ActMoves(s, t, row);
    if Open(Act(s, t, row)) { TicketsFrame(s, Act(s, t, row), t); }
  }

  lemma ActInvLoop(s: State, t: nat, row: Bytes)
    requires Inv(s) && CanAct(s, t, row) && !s.threads[t].caller && !InDrain(s.threads[t].pc)
    requires s.threads[t].pc.NotifyLeave? && Open(s) ==> !s.threads[s.callerLock].pc.Blocked?
    ensures Inv(Act(s, t, row))
  {
    var s' := Act(s, t, row);
    ActLocks(s, t, row);
    assert Calls(s') by { ActMoves(s, t, row); CallsFrame(s, s', t); }
    ActPhaseLoop(s, t, row);
    ActDelivered(s, t, row);
    if Open(s) {
      ActMoves(s, t, row);
      LoopShape(s, t, row);
      CountersLoop(s, t, row);
      TicketsFrame(s, s', t);
    }
  }
}
