/** The benchmark job manager and its two checkpoint files. */
module DecodeBench {
  import opened Wrappers

  const HISTORY_LIMIT: nat := 10

  datatype Status = Running | Completed | Cancelled | Failed

  /** publicJob(): what the files hold. detail stands for the progress, result and error fields. */
  datatype Snap = Snap(id: nat, spark: nat, status: Status, port: nat, detail: int)

  /** A job record; live while its _runJob() has not gone through its finally block. */
  datatype Job = Job(snap: Snap, aborted: bool, live: bool)

  type History = map<nat, seq<Snap>>

  /** The two files. The program never reads log: it lists every snapshot pushed to the history. */
  datatype Disk = Disk(active: seq<Snap>, history: History, log: seq<Snap>)

  /** jobs lists the keys of the source's Map in insertion order; records also keeps those it has dropped. */
  datatype Manager = Manager(records: map<nat, Job>, jobs: seq<nat>, activeBySpark: map<nat, nat>, history: History)

  /** A manager and the contents the files have had, oldest first: each is a point at which the process can die. */
  datatype Sys = Sys(m: Manager, disks: seq<Disk>)

  datatype Reply = Accepted(snap: Snap) | Rejected(status: nat) | Missing

  predicate IsRunning(m: Manager, id: nat) {
    id in m.records && m.records[id].snap.status.Running?
  }

  function Last(s: Sys): Disk
    requires |s.disks| > 0
  {
    s.disks[|s.disks| - 1]
  }

  // ---------------------------------------------------------------- history lists

  function ListOf(h: History, spark: nat): seq<Snap> {
    if spark in h then h[spark] else []
  }

  /** The list without its first entry for id. */
  function Remove(l: seq<Snap>, id: nat): seq<Snap> {
    if l == [] then [] else if l[0].id == id then l[1..] else [l[0]] + Remove(l[1..], id)
  }

  function FirstTen(l: seq<Snap>): seq<Snap> {
    if |l| <= HISTORY_LIMIT then l else l[..HISTORY_LIMIT]
  }

  function Pushed(l: seq<Snap>, x: Snap): seq<Snap> {
    FirstTen([x] + Remove(l, x.id))
  }

  /** The newest first, then the others in their order without an older entry of the job, and no more than ten. */
  lemma {:induction false} RemoveMeans(l: seq<Snap>, id: nat, e: nat)
    requires e <= |l| && (forall i :: 0 <= i < e ==> l[i].id != id) && (e < |l| ==> l[e].id == id)
    ensures Remove(l, id) == l[..e] + if e < |l| then l[e + 1..] else []
  {
    if e > 0 {
      RemoveMeans(l[1..], id, e - 1);
      assert l[..e] == [l[0]] + l[1..][..e - 1];
    }
  }

  lemma PushedMeans(l: seq<Snap>, x: Snap, e: nat)
    requires e <= |l| && (forall i :: 0 <= i < e ==> l[i].id != x.id) && (e < |l| ==> l[e].id == x.id)
    ensures var all := [x] + l[..e] + if e < |l| then l[e + 1..] else [];
      Pushed(l, x) == if |all| <= 10 then all else all[..10]
  {
    RemoveMeans(l, x.id, e);
    var rest := if e < |l| then l[e + 1..] else [];
    assert [x] + (l[..e] + rest) == [x] + l[..e] + rest;
  }

  predicate Lists(l: seq<Snap>, id: nat) {
    exists i :: 0 <= i < |l| && l[i].id == id
  }

  // ---------------------------------------------------------------- what the methods do to manager and files

  function SaveHistory(s: Sys): Sys
    requires |s.disks| > 0
  {
    s.(disks := s.disks + [Last(s).(history := s.m.history)])
  }

  function PushHistory(s: Sys, x: Snap): (r: Sys)
    requires |s.disks| > 0
    ensures |r.disks| == |s.disks| + 1
  {
    var h := s.m.history[x.spark := Pushed(ListOf(s.m.history, x.spark), x)];
    Sys(s.m.(history := h), s.disks + [Last(s).(history := h, log := Last(s).log + [x])])
  }

  function RunningSnaps(records: map<nat, Job>, ids: seq<nat>): seq<Snap> {
    if ids == [] then [] else
    var id, rest := ids[|ids| - 1], RunningSnaps(records, ids[..|ids| - 1]);
    if id in records && records[id].snap.status.Running? then rest + [records[id].snap] else rest
  }

  lemma {:induction false} RunningListed(records: map<nat, Job>, ids: seq<nat>, id: nat)
    requires id in ids && id in records && records[id].snap.status.Running?
    ensures records[id].snap in RunningSnaps(records, ids)
  {
    if ids[|ids| - 1] != id {
      assert ids == ids[..|ids| - 1] + [ids[|ids| - 1]];
      RunningListed(records, ids[..|ids| - 1], id);
    }
  }

  /** The running jobs, in the order of the identifiers. */
  lemma {:induction false} RunningJoin(records: map<nat, Job>, a: seq<nat>, b: seq<nat>)
    ensures RunningSnaps(records, a + b) == RunningSnaps(records, a) + RunningSnaps(records, b)
  {
    if b == [] {
      assert a + b == a;
    } else {
      RunningJoin(records, a, b[..|b| - 1]);
      assert (a + b)[..|a + b| - 1] == a + b[..|b| - 1];
    }
  }

  lemma RunningOne(records: map<nat, Job>, id: nat)
    ensures RunningSnaps(records, [id]) == if id in records && records[id].snap.status.Running? then [records[id].snap] else []
  {
    assert [id][..0] == [];
  }

  function WriteActive(s: Sys, active: seq<Snap>): Sys
    requires |s.disks| > 0
  {
    s.(disks := s.disks + [Last(s).(active := active)])
  }

  function Checkpoint(s: Sys): Sys
    requires |s.disks| > 0
  {
    WriteActive(s, RunningSnaps(s.m.records, s.m.jobs))
  }

  /** start(); valid says whether the request's numbers pass its checks. */
  function Start(s: Sys, spark: nat, id: nat, port: nat, valid: bool): Sys
    requires |s.disks| > 0
  {
    if spark in s.m.activeBySpark || !valid then s else
    var job := Job(Snap(id, spark, Running, port, 0), false, true);
    Checkpoint(s.(m := s.m.(records := s.m.records[id := job], jobs := s.m.jobs + [id],
                            activeBySpark := s.m.activeBySpark[spark := id])))
  }

  function Cancel(s: Sys, spark: nat, id: nat): Sys {
    if id in s.m.jobs && IsRunning(s.m, id) && s.m.records[id].snap.spark == spark
    then s.(m := s.m.(records := s.m.records[id := s.m.records[id].(aborted := true)])) else s
  }

  /** A step of _runJob() between two awaits: it updates the job and checkpoints. */
  function Advance(s: Sys, id: nat, detail: int): Sys
    requires |s.disks| > 0 && id in s.m.records
  {
    var job := s.m.records[id];
    Checkpoint(s.(m := s.m.(records := s.m.records[id := job.(snap := job.snap.(detail := detail))])))
  }

  /** The status that the end of _runJob() gives the job; one that interruptAll() ended keeps its own. */
  function Final(job: Job, ok: bool): Status {
    if !job.snap.status.Running? then job.snap.status
    else if job.aborted then Cancelled else if ok then Completed else Failed
  }

  /** The end of _runJob(): final status, then the finally block. */
  function Finish(s: Sys, id: nat, ok: bool): Sys
    requires |s.disks| > 0 && id in s.m.records
  {
    var job := s.m.records[id];
    var done := job.snap.(status := Final(job, ok));
    var m := s.m.(records := s.m.records[id := job.(snap := done, live := false)],
                  activeBySpark := s.m.activeBySpark - {job.snap.spark});
    Checkpoint(PushHistory(s.(m := m), done))
  }

  function InterruptOne(s: Sys, id: nat): (r: Sys)
    requires |s.disks| > 0 && id in s.m.records
    ensures |r.disks| > 0
  {
    var job := s.m.records[id];
    var done := job.snap.(status := Failed);
    PushHistory(s.(m := s.m.(records := s.m.records[id := job.(snap := done)],
                             activeBySpark := s.m.activeBySpark - {job.snap.spark})), done)
  }

  function InterruptIfRunning(s: Sys, id: nat): (r: Sys)
    requires |s.disks| > 0
    ensures |r.disks| > 0 && r.m.jobs == s.m.jobs
  {
    if IsRunning(s.m, id) then InterruptOne(s, id) else s
  }

  /** interruptAll()'s loop over the first n jobs. */
  function InterruptFirst(s: Sys, n: nat): (r: Sys)
    requires |s.disks| > 0 && n <= |s.m.jobs|
    ensures |r.disks| > 0 && r.m.jobs == s.m.jobs
  {
    if n == 0 then s else
    InterruptIfRunning(InterruptFirst(s, n - 1), s.m.jobs[n - 1])
  }

  /** The job as an interruption leaves it. */
  function Stopped(job: Job): Job {
    if job.snap.status.Running? then job.(snap := job.snap.(status := Failed)) else job
  }

  /** One of the first n jobs was running on this Spark. */
  predicate StoppedOn(m: Manager, n: nat, spark: nat)
    requires n <= |m.jobs|
  {
    exists i :: 0 <= i < n && IsRunning(m, m.jobs[i]) && m.records[m.jobs[i]].snap.spark == spark
  }

  ghost predicate StoppedUpTo(before: Manager, after: Manager, n: nat)
    requires n <= |before.jobs|
  {
    && after.records.Keys == before.records.Keys
    && (forall id :: id in before.records ==>
          after.records[id] == if id in before.jobs[..n] then Stopped(before.records[id]) else before.records[id])
    && (forall spark :: spark in after.activeBySpark <==> spark in before.activeBySpark && !StoppedOn(before, n, spark))
    && (forall spark :: spark in after.activeBySpark ==> after.activeBySpark[spark] == before.activeBySpark[spark])
  }

  lemma {:induction false} InterruptedAre(s: Sys, n: nat)
    requires |s.disks| > 0 && n <= |s.m.jobs|
    ensures StoppedUpTo(s.m, InterruptFirst(s, n).m, n)
  {
    if n > 0 {
      InterruptedAre(s, n - 1);
      InterruptedNext(s.m, InterruptFirst(s, n - 1), n);
    }
  }

  lemma InterruptedNext(m: Manager, r: Sys, n: nat)
    requires 0 < n <= |m.jobs| && |r.disks| > 0 && StoppedUpTo(m, r.m, n - 1)
    ensures StoppedUpTo(m, InterruptIfRunning(r, m.jobs[n - 1]).m, n)
  {
    assert m.jobs[..n] == m.jobs[..n - 1] + [m.jobs[n - 1]];
    forall spark ensures StoppedOn(m, n, spark)
      <==> StoppedOn(m, n - 1, spark) || (IsRunning(m, m.jobs[n - 1]) && m.records[m.jobs[n - 1]].snap.spark == spark) {}
  }

  function InterruptAll(s: Sys): Sys
    requires |s.disks| > 0
  {
    WriteActive(InterruptFirst(s, |s.m.jobs|), [])
  }

  function KeepPort(l: seq<Snap>, port: nat): seq<Snap> {
    if l == [] then [] else
    var x, rest := l[|l| - 1], KeepPort(l[..|l| - 1], port);
    if x.port != port then rest + [x] else rest
  }

  function ClearedHistory(h: History, spark: nat, port: Option<nat>): History {
    var rest := if port.Some? then KeepPort(ListOf(h, spark), port.value) else [];
    if rest == [] then h - {spark} else h[spark := rest]
  }

  lemma {:induction false} KeepPortJoin(a: seq<Snap>, b: seq<Snap>, port: nat)
    ensures KeepPort(a + b, port) == KeepPort(a, port) + KeepPort(b, port)
  {
    if b == [] {
      assert a + b == a;
    } else {
      KeepPortJoin(a, b[..|b| - 1], port);
      assert (a + b)[..|a + b| - 1] == a + b[..|b| - 1];
    }
  }

  lemma {:induction false} KeepPortAre(l: seq<Snap>, port: nat)
    ensures forall x :: x in KeepPort(l, port) <==> x in l && x.port != port
  {
    if l != [] {
      KeepPortAre(l[..|l| - 1], port);
      assert l == l[..|l| - 1] + [l[|l| - 1]];
    }
  }

  predicate Dropped(m: Manager, id: nat, spark: nat, port: Option<nat>) {
    && id in m.records && m.records[id].snap.spark == spark && !IsRunning(m, id)
    && (port.Some? ==> m.records[id].snap.port == port.value)
  }

  function KeepJobs(m: Manager, ids: seq<nat>, spark: nat, port: Option<nat>): seq<nat> {
    if ids == [] then [] else
    var id, rest := ids[|ids| - 1], KeepJobs(m, ids[..|ids| - 1], spark, port);
    if Dropped(m, id, spark, port) then rest else rest + [id]
  }

  lemma {:induction false} KeepJobsJoin(m: Manager, a: seq<nat>, b: seq<nat>, spark: nat, port: Option<nat>)
    ensures KeepJobs(m, a + b, spark, port) == KeepJobs(m, a, spark, port) + KeepJobs(m, b, spark, port)
  {
    if b == [] {
      assert a + b == a;
    } else {
      KeepJobsJoin(m, a, b[..|b| - 1], spark, port);
      assert (a + b)[..|a + b| - 1] == a + b[..|b| - 1];
    }
  }

  lemma {:induction false} KeepJobsAre(m: Manager, ids: seq<nat>, spark: nat, port: Option<nat>)
    ensures forall id :: id in KeepJobs(m, ids, spark, port) <==> id in ids && !Dropped(m, id, spark, port)
  {
    if ids != [] {
      KeepJobsAre(m, ids[..|ids| - 1], spark, port);
      assert ids == ids[..|ids| - 1] + [ids[|ids| - 1]];
    }
  }

  function Clear(s: Sys, spark: nat, port: Option<nat>): Sys
    requires |s.disks| > 0
  {
    SaveHistory(s.(m := s.m.(history := ClearedHistory(s.m.history, spark, port),
                             jobs := KeepJobs(s.m, s.m.jobs, spark, port))))
  }

  /**
   * What the call leaves: of the Spark's history the entries of other ports, none when no port is given; no
   * idle job of the Spark, or of that port; everything else as it was, and the history saved.
   */
  ghost predicate Cleared(before: Sys, after: Sys, spark: nat, port: Option<nat>) {
    && |before.disks| > 0 && after.disks == before.disks + [Last(before).(history := after.m.history)]
    && after.m.records == before.m.records && after.m.activeBySpark == before.m.activeBySpark
    && (forall k: nat :: k != spark ==> ListOf(after.m.history, k) == ListOf(before.m.history, k))
    && (forall x :: x in ListOf(after.m.history, spark) <==>
          x in ListOf(before.m.history, spark) && port.Some? && x.port != port.value)
    && (forall id :: id in after.m.jobs <==> id in before.m.jobs && !Dropped(before.m, id, spark, port))
    && (forall id :: Dropped(before.m, id, spark, port) <==>
          && id in before.m.records && before.m.records[id].snap.spark == spark && !before.m.records[id].snap.status.Running?
          && (port.Some? ==> before.m.records[id].snap.port == port.value))
  }

  lemma ClearMeans(s: Sys, spark: nat, port: Option<nat>)
    requires |s.disks| > 0
    ensures Cleared(s, Clear(s, spark, port), spark, port)
  {
    KeepJobsAre(s.m, s.m.jobs, spark, port);
    if port.Some? { KeepPortAre(ListOf(s.m.history, spark), port.value); }
  }

  // ---------------------------------------------------------------- boot

  function CleanList(l: seq<Snap>): seq<Snap> {
    seq(|FirstTen(l)|, i requires 0 <= i < |FirstTen(l)| =>
      if l[i].status.Running? then l[i].(status := Cancelled) else l[i])
  }

  function LoadHistory(h: History): History {
    map spark | spark in h && h[spark] != [] :: CleanList(h[spark])
  }

  /** Loading keeps the first ten entries of each list, and none as running. */
  lemma LoadedAre(h: History, spark: nat)
    ensures spark in LoadHistory(h) <==> spark in h && h[spark] != []
    ensures spark in LoadHistory(h) ==> var l := LoadHistory(h)[spark];
      && |l| == (if |h[spark]| <= 10 then |h[spark]| else 10)
      && forall i :: 0 <= i < |l| ==> l[i] == if h[spark][i].status.Running? then h[spark][i].(status := Cancelled) else h[spark][i]
  {
  }

  function RecoverOne(s: Sys, x: Snap): (r: Sys)
    requires |s.disks| > 0
    ensures |r.disks| > 0
  {
    if Lists(ListOf(s.m.history, x.spark), x.id) then s else
    var done := x.(status := Failed);
    var jobs := if x.id in s.m.jobs then s.m.jobs else s.m.jobs + [x.id];
    PushHistory(s.(m := s.m.(records := s.m.records[x.id := Job(done, false, false)], jobs := jobs)), done)
  }

  function RecoverFirst(s: Sys, left: seq<Snap>, n: nat): (r: Sys)
    requires |s.disks| > 0 && n <= |left|
    ensures |r.disks| >= |s.disks|
  {
    if n == 0 then s else RecoverOne(RecoverFirst(s, left, n - 1), left[n - 1])
  }

  function Recover(s: Sys): Sys
    requires |s.disks| > 0
  {
    var left := Last(s).active;
    if left == [] then s else EndOfRecovery(|s.disks|, RecoverFirst(s, left, |left|))
  }

  /** The active file is cleared, and the history saved once more if recovery has written anything. */
  function EndOfRecovery(n: nat, r: Sys): Sys
    requires |r.disks| > 0
  {
    var cleared := WriteActive(r, []);
    if |r.disks| == n then cleared else SaveHistory(cleared)
  }

  function Boot(d: Disk): Sys {
    Recover(Sys(Manager(map[], [], map[], LoadHistory(d.history)), [d]))
  }

  // ---------------------------------------------------------------- the object

  /** Its methods leave exactly the manager and the files that the functions above describe. */
  class DecodeBenchManager {
    var records: map<nat, Job>
    var jobs: seq<nat>
    var activeBySpark: map<nat, nat>
    var historyBySpark: History
    var activeFile: seq<Snap>
    var historyFile: History
    ghost var log: seq<Snap>
    ghost var disks: seq<Disk>

    ghost predicate Valid()
      reads this
    {
      |disks| > 0 && disks[|disks| - 1] == Disk(activeFile, historyFile, log)
    }

    ghost function State(): Sys
      reads this
    {
      Sys(Manager(records, jobs, activeBySpark, historyBySpark), disks)
    }

    constructor (d: Disk)
      ensures Valid() && State() == Boot(d)
    {
      records, jobs, activeBySpark, historyBySpark := map[], [], map[], LoadHistory(d.history);
      activeFile, historyFile, log, disks := d.active, d.history, d.log, [d];
      new;
      RecoverInterruptedActive();
    }

    method RecoverInterruptedActive()
      requires Valid()
      modifies this
      ensures Valid() && State() == Recover(old(State()))
    {
      var leftovers := activeFile;
      if |leftovers| == 0 { return; }
      var changed := RecoverSnapshots(leftovers);
      EndRecovery(changed, |old(disks)|);
    }

    /** Recovery's closing writes. */
    method EndRecovery(changed: bool, ghost n: nat)
      requires Valid() && (changed <==> |disks| != n)
      modifies this`activeFile, this`historyFile, this`log, this`disks
      ensures Valid() && State() == EndOfRecovery(n, old(State()))
    {
      WriteActiveFile([]);
      if changed {
        assert log + [] == log;
        SaveHistoryFile([]);
      }
    }

    method RecoverSnapshots(leftovers: seq<Snap>) returns (changed: bool)
      requires Valid()
      modifies this
      ensures Valid() && State() == RecoverFirst(old(State()), leftovers, |leftovers|)
      ensures changed <==> |disks| != |old(disks)|
    {
      changed := false;
      for n := 0 to |leftovers|
        invariant Valid() && State() == RecoverFirst(old(State()), leftovers, n)
        invariant changed <==> |disks| > |old(disks)|
      {
        var recovered := RecoverSnapshot(leftovers[n]);
        changed := changed || recovered;
      }
    }

    /** One turn of recovery's loop. */
    method RecoverSnapshot(snap: Snap) returns (recovered: bool)
      requires Valid()
      modifies this
      ensures Valid() && State() == RecoverOne(old(State()), snap)
      ensures |disks| == |old(disks)| + if recovered then 1 else 0
      ensures !recovered ==> State() == old(State())
      ensures recovered <==> !Lists(if snap.spark in old(historyBySpark) then old(historyBySpark)[snap.spark] else [], snap.id)
      ensures recovered ==> var done := snap.(status := Failed);
        && snap.spark in historyBySpark && historyBySpark[snap.spark] != [] && historyBySpark[snap.spark][0] == done
        && snap.id in jobs && records == old(records)[snap.id := Job(done, false, false)] && historyFile == historyBySpark
    {
      var list := if snap.spark in historyBySpark then historyBySpark[snap.spark] else [];
      if Lists(list, snap.id) { return false; }
      var interrupted := snap.(status := Failed);
      records := records[snap.id := Job(interrupted, false, false)];
      jobs := if snap.id in jobs then jobs else jobs + [snap.id];
      PushToHistory(interrupted);
      recovered := true;
    }

    method WriteActiveFile(active: seq<Snap>)
      requires Valid()
      modifies this`activeFile, this`disks
      ensures Valid() && activeFile == active && State() == WriteActive(old(State()), active)
    {
      activeFile := active;
      disks := disks + [Disk(activeFile, historyFile, log)];
    }

    /** pushed: what entered the history since it was last saved. */
    method SaveHistoryFile(ghost pushed: seq<Snap>)
      requires Valid()
      modifies this`historyFile, this`log, this`disks
      ensures Valid() && log == old(log) + pushed
      ensures disks == old(disks) + [Disk(activeFile, historyBySpark, log)]
    {
      historyFile := historyBySpark;
      log := log + pushed;
      disks := disks + [Disk(activeFile, historyFile, log)];
    }

    /** findIndex() and splice() */
    static method Splice(list: seq<Snap>, id: nat) returns (rest: seq<Snap>)
      ensures rest == Remove(list, id)
    {
      var existing := 0;
      while existing < |list| && list[existing].id != id
        invariant existing <= |list|
        invariant list[..existing] + Remove(list[existing..], id) == Remove(list, id)
      {
        assert list[..existing + 1] == list[..existing] + [list[existing]];
        existing := existing + 1;
      }
      rest := if existing < |list| then list[..existing] + list[existing + 1..] else list;
    }

    method PushToHistory(pub: Snap)
      requires Valid()
      modifies this`historyBySpark, this`historyFile, this`log, this`disks
      ensures Valid() && State() == PushHistory(old(State()), pub)
      ensures historyFile == historyBySpark && historyBySpark.Keys == old(historyBySpark.Keys) + {pub.spark}
      ensures historyBySpark[pub.spark] != [] && historyBySpark[pub.spark][0] == pub && |historyBySpark[pub.spark]| <= 10
      ensures forall k :: k in old(historyBySpark) && k != pub.spark ==> historyBySpark[k] == old(historyBySpark)[k]
    {
      var list := Splice(if pub.spark in historyBySpark then historyBySpark[pub.spark] else [], pub.id);
      list := [pub] + list;
      historyBySpark := historyBySpark[pub.spark := if |list| <= HISTORY_LIMIT then list else list[..HISTORY_LIMIT]];
      SaveHistoryFile([pub]);
    }

    method CheckpointActive()
      requires Valid()
      modifies this`activeFile, this`disks
      ensures Valid() && State() == Checkpoint(old(State()))
      ensures activeFile == RunningSnaps(records, jobs)
    {
      var running: seq<Snap> := [];
      for i := 0 to |jobs|
        invariant running == RunningSnaps(records, jobs[..i])
        invariant State() == old(State()) && Valid()
      {
        assert jobs[..i + 1][..i] == jobs[..i];
        if jobs[i] in records && records[jobs[i]].snap.status.Running? { running := running + [records[jobs[i]].snap]; }
      }
      assert jobs[..|jobs|] == jobs;
      WriteActiveFile(running);
    }

    method StartJob(spark: nat, id: nat, port: nat, valid: bool) returns (reply: Reply)
      requires Valid()
      modifies this
      ensures Valid() && State() == Start(old(State()), spark, id, port, valid)
      ensures reply == if spark in old(activeBySpark) then Rejected(409) else if !valid then Rejected(400)
                       else Accepted(Snap(id, spark, Running, port, 0))
      ensures !reply.Accepted? ==> State() == old(State())
      ensures reply.Accepted? ==> reply.snap in activeFile && activeBySpark == old(activeBySpark)[spark := id]
      ensures reply.Accepted? ==> jobs == old(jobs) + [id] && records == old(records)[id := Job(reply.snap, false, true)]
    {
      if spark in activeBySpark { return Rejected(409); }
      if !valid { return Rejected(400); }
      var snap := Snap(id, spark, Running, port, 0);
      records := records[id := Job(snap, false, true)];
      jobs := jobs + [id];
      activeBySpark := activeBySpark[spark := id];
      RunningListed(records, jobs, id);
      CheckpointActive();
      reply := Accepted(snap);
    }

    method CancelJob(spark: nat, id: nat) returns (reply: Reply)
      requires Valid()
      modifies this`records
      ensures Valid() && State() == Cancel(old(State()), spark, id)
      ensures reply == if id in jobs && id in records && old(records)[id].snap.spark == spark
                       then Accepted(old(records)[id].snap) else Missing
      ensures reply.Accepted? && reply.snap.status.Running? ==>
        records == old(records)[id := old(records)[id].(aborted := true)] && forall ok :: Final(records[id], ok) == Cancelled
      ensures reply.Missing? || !reply.snap.status.Running? ==> records == old(records)
    {
      if !(id in jobs && id in records) || records[id].snap.spark != spark { return Missing; }
      var job := records[id];
      if job.snap.status.Running? { records := records[id := job.(aborted := true)]; }
      reply := Accepted(job.snap);
    }

    method AdvanceJob(id: nat, detail: int)
      requires Valid() && id in records
      modifies this
      ensures Valid() && State() == Advance(old(State()), id, detail)
      ensures records == old(records)[id := old(records)[id].(snap := old(records)[id].snap.(detail := detail))]
      ensures id in jobs && old(records)[id].snap.status.Running? ==> old(records)[id].snap.(detail := detail) in activeFile
    {
      var job := records[id];
      records := records[id := job.(snap := job.snap.(detail := detail))];
      if id in jobs && job.snap.status.Running? { RunningListed(records, jobs, id); }
      CheckpointActive();
    }

    method FinishJob(id: nat, ok: bool)
      requires Valid() && id in records
      modifies this
      ensures Valid() && State() == Finish(old(State()), id, ok)
      ensures records.Keys == old(records.Keys) && forall k :: k in records && k != id ==> records[k] == old(records)[k]
      ensures var was, now := old(records)[id], records[id];
        && !now.live && now.snap == was.snap.(status := now.snap.status)
        && (was.snap.status.Running? ==>
              now.snap.status == if was.aborted then Cancelled else if ok then Completed else Failed)
        && (!was.snap.status.Running? ==> now.snap.status == was.snap.status)
        && activeBySpark == old(activeBySpark) - {now.snap.spark}
        && now.snap.spark in historyBySpark && historyBySpark[now.snap.spark] != []
        && historyBySpark[now.snap.spark][0] == now.snap && historyFile == historyBySpark
    {
      var job := records[id];
      if job.snap.status.Running? {
        if job.aborted { job := job.(snap := job.snap.(status := Cancelled)); }
        else if ok { job := job.(snap := job.snap.(status := Completed)); }
        else { job := job.(snap := job.snap.(status := Failed)); }
      }
      records := records[id := job.(live := false)];
      activeBySpark := activeBySpark - {job.snap.spark};
      PushToHistory(job.snap);
      CheckpointActive();
    }

    method InterruptJobs()
      requires Valid()
      modifies this
      ensures Valid() && State() == InterruptAll(old(State()))
      ensures activeFile == [] && records.Keys == old(records.Keys)
      ensures forall id :: id in records ==>
        records[id] == if id in jobs && old(records)[id].snap.status.Running?
                       then old(records)[id].(snap := old(records)[id].snap.(status := Failed)) else old(records)[id]
      ensures forall spark :: spark in activeBySpark <==> spark in old(activeBySpark) && !old(StoppedOn(State().m, |jobs|, spark))
      ensures forall spark :: spark in activeBySpark ==> activeBySpark[spark] == old(activeBySpark)[spark]
    {
      InterruptedAre(State(), |jobs|);
      assert jobs[..|jobs|] == jobs;
      for n := 0 to |jobs|
        invariant Valid() && jobs == old(jobs) && State() == InterruptFirst(old(State()), n)
      {
        var id := jobs[n];
        if id in records && records[id].snap.status.Running? {
          var job := records[id];
          job := job.(snap := job.snap.(status := Failed));
          records := records[id := job];
          activeBySpark := activeBySpark - {job.snap.spark};
          PushToHistory(job.snap);
        }
      }
      WriteActiveFile([]);
    }

    static method OtherPorts(list: seq<Snap>, port: nat) returns (rest: seq<Snap>)
      ensures rest == KeepPort(list, port)
    {
      rest := [];
      for i := 0 to |list|
        invariant rest == KeepPort(list[..i], port)
      {
        assert list[..i + 1][..i] == list[..i];
        if list[i].port != port { rest := rest + [list[i]]; }
      }
      assert list[..|list|] == list;
    }

    /** The loop that drops idle jobs; m is the manager before the call, whose history may have changed since. */
    method KeptJobs(spark: nat, port: Option<nat>, ghost m: Manager) returns (kept: seq<nat>)
      requires m.jobs == jobs && m.records == records
      ensures kept == KeepJobs(m, jobs, spark, port)
    {
      kept := [];
      for i := 0 to |jobs|
        invariant kept == KeepJobs(m, jobs[..i], spark, port)
      {
        assert jobs[..i + 1][..i] == jobs[..i];
        var id := jobs[i];
        if !(id in records && records[id].snap.spark == spark && !records[id].snap.status.Running?
             && (port.Some? ==> records[id].snap.port == port.value)) { kept := kept + [id]; }
      }
      assert jobs[..|jobs|] == jobs;
    }

    method ClearSpark(spark: nat, port: Option<nat>)
      requires Valid()
      modifies this
      ensures Valid() && State() == Clear(old(State()), spark, port)
      ensures Cleared(old(State()), State(), spark, port)
    {
      ClearMeans(State(), spark, port);
      var list := if spark in historyBySpark then historyBySpark[spark] else [];
      var rest: seq<Snap> := [];
      if port.Some? { rest := OtherPorts(list, port.value); }
      historyBySpark := if rest == [] then historyBySpark - {spark} else historyBySpark[spark := rest];
      jobs := KeptJobs(spark, port, old(State()).m);
      assert log + [] == log;
      SaveHistoryFile([]);
    }
  }
}
