/**
 * The I/O thread pool as a step relation: any number of callers of run(), any
 * number of workers, one program counter per thread. Every access to a variable
 * that another thread can reach is a step of its own; code inside a mutex_
 * section is split wherever drain() could observe the difference.
 */
module Pool {
  import opened Rows
  import opened Arithmetic

  /** The next action of a thread. The caller_ and mutex_ locks are taken at the Want* points. */
  datatype Pc =
      // run(), up to the call of drain()
    | Outside | WantCaller | WantPublish | SetJob | ResetNext | SetChunks | SetRemaining
    | BumpGeneration | NotifyReady
      // drain(), entered by the caller and by workers
    | Claim | Test | Serve | Finish | WantNotify | Notify
      // run(), after drain()
    | WantDone | TestRemaining | TestActive | Blocked | ClearJob
      // loop()
    | WantReady | TestGeneration | Asleep | Take | WantLeave | Leave | NotifyLeave

  datatype Thread = Thread(caller: bool, pc: Pc, work: nat, seen: nat, ticket: nat, index: nat)

  /** A Work object with the buffer it fills; served counts the writes to each index. */
  datatype Job = Job(ids: seq<int>, out: seq<Bytes>, served: seq<nat>)

  const FREE: int := -1
  const NULL: int := -1

  datatype State = State(
    backing: Backing, chunk: nat, threads: seq<Thread>, jobs: seq<Job>,
    mutex: int, callerLock: int, job: int,
    next: nat, chunks: nat, remaining: int, active: int, generation: nat)

  // ---------------------------------------------------------------- program points

  predicate InDrain(pc: Pc) {
    pc.Claim? || pc.Test? || pc.Serve? || pc.Finish? || pc.WantNotify? || pc.Notify?
  }

  predicate HoldsMutex(pc: Pc) {
    || pc.SetJob? || pc.ResetNext? || pc.SetChunks? || pc.SetRemaining? || pc.BumpGeneration?
    || pc.Notify? || pc.TestRemaining? || pc.TestActive? || pc.ClearJob?
    || pc.TestGeneration? || pc.Take? || pc.Leave? || pc.NotifyLeave?
  }

  predicate BeforeDrain(pc: Pc) {
    || pc.WantCaller? || pc.WantPublish? || pc.SetJob? || pc.ResetNext? || pc.SetChunks?
    || pc.SetRemaining? || pc.BumpGeneration?
  }

  predicate AfterDrain(pc: Pc) {
    pc.WantDone? || pc.TestRemaining? || pc.TestActive? || pc.Blocked? || pc.ClearJob?
  }

  predicate CallerPc(pc: Pc) {
    pc.Outside? || BeforeDrain(pc) || pc.NotifyReady? || InDrain(pc) || AfterDrain(pc)
  }

  predicate WorkerPc(pc: Pc) {
    || InDrain(pc) || pc.WantReady? || pc.TestGeneration? || pc.Asleep? || pc.Take?
    || pc.WantLeave? || pc.Leave? || pc.NotifyLeave?
  }

  predicate InsideRun(th: Thread) {
    th.caller && !th.pc.Outside? && !th.pc.WantCaller?
  }

  predicate Calling(th: Thread) {
    th.caller && !th.pc.Outside?
  }

  // ---------------------------------------------------------------- arithmetic of tickets

  function NumChunks(count: nat, chunk: nat): nat
    requires chunk >= 1
  {
    (count + chunk - 1) / chunk
  }

  // ---------------------------------------------------------------- steps

  function Put(s: State, t: nat, th: Thread): State
    requires t < |s.threads|
  {
    s.(threads := s.threads[t := th])
  }

  function Goto(s: State, t: nat, pc: Pc): State
    requires t < |s.threads|
  {
    Put(s, t, s.threads[t].(pc := pc))
  }

  /** ready_.notify_all() */
  function WakeAll(ts: seq<Thread>): (r: seq<Thread>)
    ensures |r| == |ts|
    ensures forall i :: 0 <= i < |ts| ==> r[i] == if ts[i].pc.Asleep? then ts[i].(pc := WantReady) else ts[i]
  {
    seq(|ts|, i requires 0 <= i < |ts| => if ts[i].pc.Asleep? then ts[i].(pc := WantReady) else ts[i])
  }

  /** done_.notify_one() reaches one waiter, or nobody when nobody waits. */
  predicate CanWake(s: State, wake: int) {
    if wake == FREE then forall u :: 0 <= u < |s.threads| ==> !s.threads[u].pc.Blocked?
    else 0 <= wake < |s.threads| && s.threads[wake].pc.Blocked?
  }

  /** The waiters that the action of thread t notifies leave their wait. */
  function Notified(s: State, t: nat, wake: int): State
    requires t < |s.threads|
    requires s.threads[t].pc.Notify? || s.threads[t].pc.NotifyLeave? ==> CanWake(s, wake)
  {
    match s.threads[t].pc
    case NotifyReady => s.(threads := WakeAll(s.threads))
    case Notify => if wake == FREE then s else Goto(s, wake, WantDone)
    case NotifyLeave => if wake == FREE then s else Goto(s, wake, WantDone)
    case _ => s
  }

  predicate ValidJob(b: Backing, j: Job) {
    |j.out| == |j.ids| == |j.served| && forall i :: 0 <= i < |j.ids| ==> ValidId(b, j.ids[i])
  }

  /** Whether thread t can take its next action. */
  predicate CanMove(s: State, t: nat) {
    t < |s.threads| && s.chunk >= 1 &&
    var th := s.threads[t];
    match th.pc
    case Outside => false
    case Blocked => false
    case Asleep => false
    case WantCaller => s.callerLock == FREE
    case WantPublish => s.mutex == FREE
    case WantNotify => s.mutex == FREE
    case WantDone => s.mutex == FREE
    case WantReady => s.mutex == FREE
    case WantLeave => s.mutex == FREE
    case SetChunks => th.work < |s.jobs|
    case SetRemaining => th.work < |s.jobs|
    case Test => th.work < |s.jobs|
    case Serve => th.work < |s.jobs| && ValidJob(s.backing, s.jobs[th.work]) && th.index < |s.jobs[th.work].ids|
    case _ => true
  }

  /** A serve step stores the row that belongs to its id. */
  predicate Exact(s: State, t: nat, row: Bytes)
    requires CanMove(s, t)
  {
    var th := s.threads[t];
    th.pc.Serve? ==> row == ServedRow(s.backing, s.jobs[th.work].ids[th.index])
  }

  predicate CanAct(s: State, t: nat, row: Bytes) {
    CanMove(s, t) && Exact(s, t, row)
  }

  function WriteRow(j: Job, i: nat, row: Bytes): Job
    requires i < |j.ids| == |j.out| == |j.served|
  {
    j.(out := j.out[i := row], served := j.served[i := j.served[i] + 1])
  }

  /** The action of thread t itself: the shared variables and its own program counter. */
  function Act(s: State, t: nat, row: Bytes): State
    requires CanMove(s, t)
  {
    var th := s.threads[t];
    match th.pc
    // run()
    case WantCaller => Goto(s.(callerLock := t), t, WantPublish)
    case WantPublish => Goto(s.(mutex := t), t, SetJob)
    case SetJob => Goto(s.(job := th.work), t, ResetNext)
    case ResetNext => Goto(s.(next := 0), t, SetChunks)
    case SetChunks => Goto(s.(chunks := NumChunks(|s.jobs[th.work].ids|, s.chunk)), t, SetRemaining)
    case SetRemaining => Goto(s.(remaining := NumChunks(|s.jobs[th.work].ids|, s.chunk)), t, BumpGeneration)
    case BumpGeneration => Goto(s.(generation := s.generation + 1, mutex := FREE), t, NotifyReady)
    case NotifyReady => Goto(s, t, Claim)
    // drain()
    case Claim => Put(s.(next := s.next + 1), t, th.(pc := Test, ticket := s.next))
    case Test =>
      if th.ticket >= s.chunks then Goto(s, t, if th.caller then WantDone else WantLeave)
      else Put(s, t, th.(pc := Serve, index := th.ticket * s.chunk))
    case Serve =>
      var s1 := s.(jobs := s.jobs[th.work := WriteRow(s.jobs[th.work], th.index, row)]);
      var end := Min((th.ticket + 1) * s.chunk, |s.jobs[th.work].ids|);
      if th.index + 1 < end then Put(s1, t, th.(index := th.index + 1)) else Goto(s1, t, Finish)
    case Finish => Goto(s.(remaining := s.remaining - 1), t, if s.remaining == 1 then WantNotify else Claim)
    case WantNotify => Goto(s.(mutex := t), t, Notify)
    case Notify => Goto(s.(mutex := FREE), t, Claim)
    // run(), waiting for the chunks and for the workers
    case WantDone => Goto(s.(mutex := t), t, TestRemaining)
    case TestRemaining =>
      if s.remaining == 0 then Goto(s, t, TestActive) else Goto(s.(mutex := FREE), t, Blocked)
    case TestActive =>
      if s.active == 0 then Goto(s, t, ClearJob) else Goto(s.(mutex := FREE), t, Blocked)
    case ClearJob => Goto(s.(job := NULL, mutex := FREE, callerLock := FREE), t, Outside)
    // loop()
    case WantReady => Goto(s.(mutex := t), t, TestGeneration)
    case TestGeneration =>
      if s.generation != th.seen then Goto(s, t, Take) else Goto(s.(mutex := FREE), t, Asleep)
    case Take =>
      var s1 := s.(mutex := FREE);
      if s.job < 0 then Put(s1, t, th.(pc := WantReady, seen := s.generation))
      else Put(s1.(active := s.active + 1), t, th.(pc := Claim, seen := s.generation, work := s.job))
    case WantLeave => Goto(s.(mutex := t), t, Leave)
    case Leave => Goto(s.(active := s.active - 1), t, NotifyLeave)
    case NotifyLeave => Goto(s.(mutex := FREE), t, WantReady)
  }

  predicate CanStep(s: State, t: nat, row: Bytes, wake: int) {
    && CanAct(s, t, row)
    && (s.threads[t].pc.Notify? || s.threads[t].pc.NotifyLeave? ==> CanWake(s, wake))
  }

  function Step(s: State, t: nat, row: Bytes, wake: int): State
    requires CanStep(s, t, row, wake)
  {
    Act(Notified(s, t, wake), t, row)
  }

  /** A thread calls run() on a fresh Work object whose buffer holds anything. */
  predicate CanCall(s: State, t: nat, ids: seq<int>, out: seq<Bytes>) {
    && t < |s.threads| && s.threads[t].caller && s.threads[t].pc.Outside? && |out| == |ids|
    && forall i :: 0 <= i < |ids| ==> ValidId(s.backing, ids[i])
  }

  function Call(s: State, t: nat, ids: seq<int>, out: seq<Bytes>): State
    requires CanCall(s, t, ids, out)
  {
    Put(s.(jobs := s.jobs + [Job(ids, out, seq(|ids|, _ => 0))]), t,
        s.threads[t].(pc := WantCaller, work := |s.jobs|))
  }

  /** Condition variables may wake a waiter for no reason. */
  predicate CanWakeSpuriously(s: State, t: nat) {
    t < |s.threads| && (s.threads[t].pc.Asleep? || s.threads[t].pc.Blocked?)
  }

  function WakeSpuriously(s: State, t: nat): State
    requires CanWakeSpuriously(s, t)
  {
    Goto(s, t, if s.threads[t].pc.Asleep? then WantReady else WantDone)
  }

  ghost predicate Internal(s: State, s': State) {
    exists t: nat, row: Bytes, wake: int :: CanStep(s, t, row, wake) && s' == Step(s, t, row, wake)
  }

  ghost predicate Environment(s: State, s': State) {
    || (exists t: nat, ids: seq<int>, out: seq<Bytes> :: CanCall(s, t, ids, out) && s' == Call(s, t, ids, out))
    || (exists t: nat :: CanWakeSpuriously(s, t) && s' == WakeSpuriously(s, t))
  }

  /** Callers outside run(), workers about to wait for the first generation. */
  ghost predicate Init(s: State) {
    && s.chunk >= 1 && s.jobs == [] && s.mutex == FREE && s.callerLock == FREE && s.job == NULL
    && s.next == 0 && s.chunks == 0 && s.remaining == 0 && s.active == 0 && s.generation == 0
    && forall t :: 0 <= t < |s.threads| ==>
         s.threads[t].seen == 0 && s.threads[t].pc == if s.threads[t].caller then Outside else WantReady
  }

  // ---------------------------------------------------------------- sums over the threads

  /** What is being counted, and under which values of the shared variables. */
  datatype Kind = Active | Live | Passed | Publish | Unseen | Notifies | Rank | Idle
  datatype Env = Env(generation: nat, chunks: nat, chunk: nat)

  /** The thread holds a claimed ticket whose chunk it has not yet reported. */
  predicate IsLive(chunks: nat, th: Thread) {
    (th.pc.Test? && th.ticket < chunks) || th.pc.Serve? || th.pc.Finish?
  }

  predicate IsActive(th: Thread) {
    !th.caller && (InDrain(th.pc) || th.pc.WantLeave? || th.pc.Leave?)
  }

  /** The thread will claim no further ticket of this generation. */
  predicate HasPassed(e: Env, th: Thread) {
    || (th.pc.Test? && th.ticket >= e.chunks)
    || (th.caller && AfterDrain(th.pc))
    || (!th.caller && th.seen == e.generation && !InDrain(th.pc))
  }

  function Weight(k: Kind, e: Env, th: Thread): nat {
    match k
    case Active => if IsActive(th) then 1 else 0
    case Live => if IsLive(e.chunks, th) then 1 else 0
    case Passed => if HasPassed(e, th) then 1 else 0
    case Publish => PublishRank(th)
    case Unseen => if !th.caller && th.seen != e.generation then 1 else 0
    case Notifies =>
      (if th.pc.NotifyReady? then 1 else 0)
      + (if IsLive(e.chunks, th) || th.pc.WantNotify? || th.pc.Notify? then 1 else 0)
      + (if IsActive(th) || th.pc.NotifyLeave? then 1 else 0)
    case Rank => LocalRank(e, th)
    case Idle => if th.caller && th.pc.Outside? then 1 else 0
  }

  function PublishRank(th: Thread): nat {
    if !th.caller then 0 else
      match th.pc
      case WantCaller => 7 case WantPublish => 6 case SetJob => 5 case ResetNext => 4
      case SetChunks => 3 case SetRemaining => 2 case BumpGeneration => 1 case _ => 0
  }

  function LocalRank(e: Env, th: Thread): nat {
    match th.pc
    case Asleep => 0 case Outside => 0 case Blocked => 0 case Take => 1
    case TestGeneration => 2 case WantReady => 3 case NotifyLeave => 4 case Leave => 5 case WantLeave => 6
    case ClearJob => 1 case TestActive => 2 case TestRemaining => 3 case WantDone => 4
    case Claim => 8
    case Notify => 1 case WantNotify => 2 case Finish => 3
    case Serve => 4 + Max(0, (th.ticket + 1) * e.chunk - th.index)
    case Test => if th.ticket < e.chunks then 5 + e.chunk else 7
    case _ => 0
  }

  function Sum(k: Kind, e: Env, ts: seq<Thread>): nat {
    if ts == [] then 0 else Weight(k, e, ts[0]) + Sum(k, e, ts[1..])
  }

  lemma {:induction false} SumUpdate(k: Kind, e: Env, ts: seq<Thread>, t: nat, th: Thread)
    requires t < |ts|
    ensures Sum(k, e, ts[t := th]) == Sum(k, e, ts) - Weight(k, e, ts[t]) + Weight(k, e, th)
  {
    if t == 0 {
      assert ts[t := th][1..] == ts[1..];
    } else {
      assert ts[t := th][1..] == ts[1..][t - 1 := th];
      SumUpdate(k, e, ts[1..], t - 1, th);
    }
  }

  lemma {:induction false} SumBounds(k: Kind, e: Env, ts: seq<Thread>, t: nat)
    requires t < |ts|
    ensures Weight(k, e, ts[t]) <= Sum(k, e, ts)
  {
    if t > 0 { SumBounds(k, e, ts[1..], t - 1); }
  }

  lemma {:induction false} SumZero(k: Kind, e: Env, ts: seq<Thread>)
    requires forall t :: 0 <= t < |ts| ==> Weight(k, e, ts[t]) == 0
    ensures Sum(k, e, ts) == 0
  {
    if ts != [] { SumZero(k, e, ts[1..]); }
  }

  lemma {:induction false} SumWitness(k: Kind, e: Env, ts: seq<Thread>) returns (t: nat)
    requires Sum(k, e, ts) > 0
    ensures t < |ts| && Weight(k, e, ts[t]) > 0
  {
    if Weight(k, e, ts[0]) > 0 { t := 0; } else { t := SumWitness(k, e, ts[1..]); t := t + 1; }
  }

  lemma {:induction false} SumSame(k: Kind, e: Env, ts: seq<Thread>, e': Env, ts': seq<Thread>)
    requires |ts| == |ts'|
    requires forall t :: 0 <= t < |ts| ==> Weight(k, e, ts[t]) == Weight(k, e', ts'[t])
    ensures Sum(k, e, ts) == Sum(k, e', ts')
  {
    if ts != [] { SumSame(k, e, ts[1..], e', ts'[1..]); }
  }

  lemma {:induction false} SumAtMost(k: Kind, e: Env, ts: seq<Thread>)
    requires k.Passed? || k.Active? || k.Live?
    ensures Sum(k, e, ts) <= |ts|
  {
    if ts != [] { SumAtMost(k, e, ts[1..]); }
  }
}
