/** Every run of the job manager, with the process dying at any write and any number of times during boot. */
module DecodeBenchRuns {
  import opened Wrappers
  import opened DecodeBench

  // ---------------------------------------------------------------- history lists

  predicate NoDup(l: seq<Snap>) {
    forall i, j :: 0 <= i < j < |l| ==> l[i].id != l[j].id
  }

  predicate ListOk(l: seq<Snap>, spark: nat) {
    NoDup(l) && |l| <= HISTORY_LIMIT && forall x :: x in l ==> x.spark == spark && !x.status.Running?
  }

  predicate HistoryOk(h: History) {
    forall spark :: spark in h ==> h[spark] != [] && ListOk(h[spark], spark)
  }

  lemma {:induction false} RemoveFacts(l: seq<Snap>, id: nat)
    requires NoDup(l)
    ensures NoDup(Remove(l, id)) && |Remove(l, id)| <= |l|
    ensures forall x :: x in Remove(l, id) <==> x in l && x.id != id
  {
    if l != [] && l[0].id != id {
      RemoveFacts(l[1..], id);
      assert l == [l[0]] + l[1..];
    } else if l != [] {
      assert l == [l[0]] + l[1..];
    }
  }

  lemma PushedOk(l: seq<Snap>, x: Snap)
    requires ListOk(l, x.spark) && !x.status.Running?
    ensures ListOk(Pushed(l, x), x.spark) && Pushed(l, x) != []
    ensures x in Pushed(l, x)
  {
    RemoveFacts(l, x.id);
    assert Pushed(l, x)[0] == x;
  }

  /** All the snapshots of a Spark ever pushed, the latest one of each job, the latest push first. */
  function Recent(log: seq<Snap>, spark: nat): seq<Snap> {
    if log == [] then [] else
    var x, rest := log[|log| - 1], Recent(log[..|log| - 1], spark);
    if x.spark == spark then [x] + Remove(rest, x.id) else rest
  }

  predicate Logged(log: seq<Snap>, id: nat, spark: nat) {
    exists x :: x in log && x.id == id && x.spark == spark
  }

  lemma {:induction false} RecentFacts(log: seq<Snap>, spark: nat)
    ensures NoDup(Recent(log, spark))
    ensures forall x :: x in Recent(log, spark) ==> x in log && x.spark == spark
    ensures forall x :: x in log && x.spark == spark ==> Lists(Recent(log, spark), x.id)
  {
    if log != [] {
      var last, init := log[|log| - 1], log[..|log| - 1];
      RecentFacts(init, spark);
      RemoveFacts(Recent(init, spark), last.id);
      assert log == init + [last];
      var r := Recent(log, spark);
      forall x | x in log && x.spark == spark ensures Lists(r, x.id) {
        if x.id == last.id && last.spark == spark {
          assert r[0].id == x.id;
        } else {
          var i :| 0 <= i < |Recent(init, spark)| && Recent(init, spark)[i].id == x.id;
          assert Recent(init, spark)[i] in r;
        }
      }
    }
  }

  lemma {:induction false} RemoveTake(l: seq<Snap>, n: nat, id: nat)
    requires n < |l|
    ensures |Remove(l, id)| >= n && |Remove(l[..n + 1], id)| >= n
    ensures Remove(l, id)[..n] == Remove(l[..n + 1], id)[..n]
  {
    if l[0].id == id {
      assert l[..n + 1][1..] == l[1..][..n];
    } else if n > 0 {
      RemoveTake(l[1..], n - 1, id);
      assert l[..n + 1][1..] == l[1..][..n];
    }
  }

  /** Dropping the eleventh entry at every push loses nothing that belongs to the first ten. */
  lemma PushedIsRecent(l: seq<Snap>, x: Snap)
    ensures Pushed(FirstTen(l), x) == FirstTen([x] + Remove(l, x.id))
  {
    if |l| > HISTORY_LIMIT {
      RemoveTake(l, HISTORY_LIMIT - 1, x.id);
      RemoveTake(l, HISTORY_LIMIT, x.id);
      var a, b := Remove(l, x.id), Remove(l[..HISTORY_LIMIT], x.id);
      assert ([x] + a)[..HISTORY_LIMIT] == [x] + a[..HISTORY_LIMIT - 1];
      assert ([x] + b)[..HISTORY_LIMIT] == [x] + b[..HISTORY_LIMIT - 1];
    }
  }

  // ---------------------------------------------------------------- the manager

  predicate NoDupIds(ids: seq<nat>) {
    forall i, j :: 0 <= i < j < |ids| ==> ids[i] != ids[j]
  }

  predicate RecordsOk(m: Manager) {
    NoDupIds(m.jobs) && (forall id :: id in m.jobs ==> id in m.records) && forall id :: id in m.records ==>
      m.records[id].snap.id == id && (m.records[id].snap.status.Running? ==> m.records[id].live && id in m.jobs)
  }

  /** activeBySpark names exactly the running jobs: so no Spark has two. */
  predicate Agrees(m: Manager) {
    && (forall spark :: spark in m.activeBySpark ==>
          IsRunning(m, m.activeBySpark[spark]) && m.records[m.activeBySpark[spark]].snap.spark == spark)
    && (forall id :: id in m.records && IsRunning(m, id) ==>
          m.records[id].snap.spark in m.activeBySpark && m.activeBySpark[m.records[id].snap.spark] == id)
  }

  /** No _runJob() is left whose finally block would delete another job's entry. */
  predicate NoStray(m: Manager) {
    forall id :: id in m.records && m.records[id].live && m.records[id].snap.spark in m.activeBySpark ==>
      m.activeBySpark[m.records[id].snap.spark] == id
  }

  predicate ManagerOk(m: Manager) {
    RecordsOk(m) && Agrees(m) && NoStray(m)
  }

  lemma {:induction false} RunningSnapsAre(records: map<nat, Job>, ids: seq<nat>)
    requires NoDupIds(ids) && forall id :: id in records ==> records[id].snap.id == id
    ensures var r := RunningSnaps(records, ids);
      && NoDup(r)
      && forall x :: x in r <==> x.id in ids && x.id in records && x == records[x.id].snap && x.status.Running?
  {
    if ids != [] {
      RunningSnapsAre(records, ids[..|ids| - 1]);
      assert ids == ids[..|ids| - 1] + [ids[|ids| - 1]];
    }
  }

  lemma CheckpointOk(m: Manager)
    requires RecordsOk(m)
    ensures forall id :: id in m.records && IsRunning(m, id) ==> m.records[id].snap in RunningSnaps(m.records, m.jobs)
    ensures forall x :: x in RunningSnaps(m.records, m.jobs) ==> IsRunning(m, x.id) && x == m.records[x.id].snap
  {
    RunningSnapsAre(m.records, m.jobs);
  }

  // ---------------------------------------------------------------- the files

  /** The job is in one of the files, or was pushed to the history before. */
  predicate Known(d: Disk, id: nat, spark: nat) {
    (exists x :: x in d.active && x.id == id && x.spark == spark) || Logged(d.log, id, spark)
  }

  ghost predicate Keeps(d: Disk, d': Disk) {
    forall id: nat, spark: nat :: Known(d, id, spark) ==> Known(d', id, spark)
  }

  /** Each list is the first ten of all that was pushed. */
  ghost predicate Tracked(d: Disk) {
    forall spark: nat :: TrackedAt(d, spark)
  }

  predicate TrackedAt(d: Disk, spark: nat) {
    ListOf(d.history, spark) == FirstTen(Recent(d.log, spark))
  }

  ghost predicate DiskOk(d: Disk, clears: bool) {
    && HistoryOk(d.history) && (!clears ==> Tracked(d))
    && forall spark, x :: spark in d.history && x in d.history[spark] ==> Logged(d.log, x.id, spark)
  }

  /** Whatever is in the active file is running or logged; id `exempt` is about to be. */
  ghost predicate ActiveKnown(m: Manager, d: Disk, exempt: int) {
    forall x :: x in d.active ==>
      || Logged(d.log, x.id, x.spark)
      || (x.id in m.records && m.records[x.id].snap.spark == x.spark && (IsRunning(m, x.id) || x.id == exempt))
  }

  ghost predicate FilesOk(s: Sys, clears: bool) {
    && |s.disks| > 0 && s.m.history == Last(s).history
    && forall d :: d in s.disks ==> DiskOk(d, clears) && Keeps(s.disks[0], d)
  }

  ghost predicate SysOk(s: Sys, clears: bool) {
    RecordsOk(s.m) && FilesOk(s, clears) && ActiveKnown(s.m, Last(s), -1)
  }

  lemma PushTracked(d: Disk, x: Snap)
    requires Tracked(d)
    ensures Tracked(Disk(d.active, d.history[x.spark := Pushed(ListOf(d.history, x.spark), x)], d.log + [x]))
  {
    var d' := Disk(d.active, d.history[x.spark := Pushed(ListOf(d.history, x.spark), x)], d.log + [x]);
    forall spark: nat ensures TrackedAt(d', spark) {
      assert d'.log[..|d'.log| - 1] == d.log;
      if spark == x.spark { PushedIsRecent(Recent(d.log, spark), x); }
      assert TrackedAt(d, spark);
    }
  }

  /** One more write. */
  lemma Extend(s: Sys, s': Sys, d': Disk, clears: bool)
    requires FilesOk(s, clears) && s'.disks == s.disks + [d'] && s'.m.history == d'.history
    requires DiskOk(d', clears) && Keeps(Last(s), d')
    ensures FilesOk(s', clears)
  {
    assert Last(s) in s.disks;
    forall d | d in s'.disks ensures DiskOk(d, clears) && Keeps(s'.disks[0], d) {
      assert d in s.disks || d == d';
    }
  }

  lemma PushFiles(s: Sys, x: Snap, clears: bool)
    requires FilesOk(s, clears) && !x.status.Running?
    ensures FilesOk(PushHistory(s, x), clears) && Logged(Last(PushHistory(s, x)).log, x.id, x.spark)
    ensures Lists(ListOf(PushHistory(s, x).m.history, x.spark), x.id)
  {
    var d, d', l := Last(s), Last(PushHistory(s, x)), ListOf(s.m.history, x.spark);
    assert d in s.disks;
    PushedOk(l, x);
    if !clears { PushTracked(d, x); }
    LogGrows(d, d', x);
    assert d'.history[x.spark][0].id == x.id;
    forall spark, y | spark in d'.history && y in d'.history[spark] ensures Logged(d'.log, y.id, spark) {
      if spark == x.spark && y.id != x.id {
        RemoveFacts(l, x.id);
        assert y in l;
      }
    }
    Extend(s, PushHistory(s, x), d', clears);
  }

  lemma PushKnown(s: Sys, x: Snap)
    requires |s.disks| > 0 && ActiveKnown(s.m, Last(s), x.id) && x.id in s.m.records && s.m.records[x.id].snap.spark == x.spark
    ensures ActiveKnown(PushHistory(s, x).m, Last(PushHistory(s, x)), -1)
  {
    LogGrows(Last(s), Last(PushHistory(s, x)), x);
  }

  lemma LogGrows(d: Disk, d': Disk, x: Snap)
    requires d'.active == d.active && d'.log == d.log + [x]
    ensures Keeps(d, d') && Logged(d'.log, x.id, x.spark)
    ensures forall id, spark :: Logged(d.log, id, spark) ==> Logged(d'.log, id, spark)
  {
    assert x in d'.log;
    forall id, spark | Logged(d.log, id, spark) ensures Logged(d'.log, id, spark) {
      var y :| y in d.log && y.id == id && y.spark == spark;
      assert y in d'.log;
    }
  }

  /** A new active file may drop only what is logged. */
  lemma WriteFiles(s: Sys, active: seq<Snap>, clears: bool)
    requires FilesOk(s, clears)
    requires forall x :: x in Last(s).active ==> Logged(Last(s).log, x.id, x.spark) || exists y :: y in active && y.id == x.id && y.spark == x.spark
    ensures FilesOk(WriteActive(s, active), clears)
  {
    var d, d' := Last(s), Last(WriteActive(s, active));
    assert Keeps(d, d') by {
      forall id: nat, spark: nat | Known(d, id, spark) ensures Known(d', id, spark) {
        if !Logged(d.log, id, spark) { var x :| x in d.active && x.id == id && x.spark == spark; }
      }
    }
    assert d in s.disks;
    if !clears {
      forall spark: nat ensures TrackedAt(d', spark) {
        assert TrackedAt(d, spark);
      }
    }
    Extend(s, WriteActive(s, active), d', clears);
  }

  lemma CheckpointSys(s: Sys, clears: bool)
    requires SysOk(s, clears)
    ensures SysOk(Checkpoint(s), clears)
  {
    CheckpointOk(s.m);
    var active := RunningSnaps(s.m.records, s.m.jobs);
    forall x | x in Last(s).active && !Logged(Last(s).log, x.id, x.spark)
      ensures exists y :: y in active && y.id == x.id && y.spark == x.spark
    {
      assert s.m.records[x.id].snap in active;
    }
    WriteFiles(s, active, clears);
  }

  // ---------------------------------------------------------------- the methods

  lemma StartOk(s: Sys, spark: nat, id: nat, port: nat, valid: bool, clears: bool)
    requires SysOk(s, clears) && id !in s.m.records
    ensures SysOk(Start(s, spark, id, port, valid), clears)
    ensures spark !in s.m.activeBySpark && valid ==> Known(Last(Start(s, spark, id, port, valid)), id, spark)
  {
    if spark !in s.m.activeBySpark && valid {
      var job := Job(Snap(id, spark, Running, port, 0), false, true);
      var m := s.m.(records := s.m.records[id := job], jobs := s.m.jobs + [id], activeBySpark := s.m.activeBySpark[spark := id]);
      CheckpointSys(s.(m := m), clears);
      CheckpointKnows(s.(m := m), id);
    }
  }

  lemma CheckpointKnows(s: Sys, id: nat)
    requires |s.disks| > 0 && RecordsOk(s.m) && IsRunning(s.m, id)
    ensures Known(Last(Checkpoint(s)), id, s.m.records[id].snap.spark)
  {
    CheckpointOk(s.m);
    assert s.m.records[id].snap in RunningSnaps(s.m.records, s.m.jobs);
  }

  lemma CancelOk(s: Sys, spark: nat, id: nat, clears: bool)
    requires SysOk(s, clears)
    ensures SysOk(Cancel(s, spark, id), clears)
  {
  }

  lemma AdvanceOk(s: Sys, id: nat, detail: int, clears: bool)
    requires SysOk(s, clears) && id in s.m.records
    ensures SysOk(Advance(s, id, detail), clears)
  {
    var job := s.m.records[id];
    CheckpointSys(s.(m := s.m.(records := s.m.records[id := job.(snap := job.snap.(detail := detail))])), clears);
  }

  lemma FinishOk(s: Sys, id: nat, ok: bool, clears: bool)
    requires SysOk(s, clears) && id in s.m.records
    ensures SysOk(Finish(s, id, ok), clears)
    ensures Logged(Last(Finish(s, id, ok)).log, id, s.m.records[id].snap.spark)
  {
    var job := s.m.records[id];
    var done := job.snap.(status := Final(job, ok));
    var m := s.m.(records := s.m.records[id := job.(snap := done, live := false)],
                  activeBySpark := s.m.activeBySpark - {job.snap.spark});
    StopAndPush(s, id, job.(snap := done, live := false), clears);
    CheckpointSys(PushHistory(s.(m := m), done), clears);
  }

  /** A job leaves the running ones and enters the history. */
  lemma StopAndPush(s: Sys, id: nat, job: Job, clears: bool)
    requires SysOk(s, clears) && id in s.m.records
    requires job.snap.id == id && job.snap.spark == s.m.records[id].snap.spark && !job.snap.status.Running?
    ensures var m := s.m.(records := s.m.records[id := job], activeBySpark := s.m.activeBySpark - {job.snap.spark});
      var r := PushHistory(s.(m := m), job.snap);
      SysOk(r, clears) && Logged(Last(r).log, id, job.snap.spark)
  {
    var m := s.m.(records := s.m.records[id := job], activeBySpark := s.m.activeBySpark - {job.snap.spark});
    PushFiles(s.(m := m), job.snap, clears);
    PushKnown(s.(m := m), job.snap);
  }

  lemma InterruptOneOk(s: Sys, id: nat, clears: bool)
    requires SysOk(s, clears) && id in s.m.records
    ensures SysOk(InterruptOne(s, id), clears)
  {
    var job := s.m.records[id];
    StopAndPush(s, id, job.(snap := job.snap.(status := Failed)), clears);
  }

  lemma InterruptIfRunningOk(s: Sys, id: nat, clears: bool)
    requires SysOk(s, clears)
    ensures SysOk(InterruptIfRunning(s, id), clears)
  {
    if IsRunning(s.m, id) { InterruptOneOk(s, id, clears); }
  }

  lemma {:induction false} InterruptFirstOk(s: Sys, n: nat, clears: bool)
    requires SysOk(s, clears) && n <= |s.m.jobs|
    ensures SysOk(InterruptFirst(s, n), clears)
  {
    if n > 0 {
      InterruptFirstOk(s, n - 1, clears);
      InterruptIfRunningOk(InterruptFirst(s, n - 1), s.m.jobs[n - 1], clears);
    }
  }

  lemma {:induction false} InterruptFirstStops(s: Sys, n: nat)
    requires |s.disks| > 0 && n <= |s.m.jobs|
    ensures InterruptFirst(s, n).disks[0] == s.disks[0]
    ensures forall k: nat :: IsRunning(InterruptFirst(s, n).m, k) ==> IsRunning(s.m, k) && k !in s.m.jobs[..n]
  {
    if n > 0 {
      InterruptFirstStops(s, n - 1);
      assert s.m.jobs[..n] == s.m.jobs[..n - 1] + [s.m.jobs[n - 1]];
    }
  }

  lemma InterruptOk(s: Sys, clears: bool)
    requires SysOk(s, clears)
    ensures SysOk(InterruptAll(s), clears) && InterruptAll(s).disks[0] == s.disks[0]
    ensures forall id: nat :: !IsRunning(InterruptAll(s).m, id)
  {
    var n := |s.m.jobs|;
    var r := InterruptFirst(s, n);
    InterruptFirstOk(s, n, clears);
    InterruptFirstStops(s, n);
    forall id: nat ensures !IsRunning(r.m, id) {
      assert IsRunning(s.m, id) ==> id in s.m.jobs[..n];
    }
    WriteFiles(r, [], clears);
  }

  lemma {:induction false} KeepPortFacts(l: seq<Snap>, port: nat)
    requires NoDup(l)
    ensures NoDup(KeepPort(l, port)) && |KeepPort(l, port)| <= |l|
  {
    if l != [] {
      KeepPortFacts(l[..|l| - 1], port);
      KeepPortAre(l[..|l| - 1], port);
      assert l == l[..|l| - 1] + [l[|l| - 1]];
    }
  }

  lemma {:induction false} KeepJobsFacts(m: Manager, ids: seq<nat>, spark: nat, port: Option<nat>)
    requires NoDupIds(ids)
    ensures NoDupIds(KeepJobs(m, ids, spark, port))
  {
    if ids != [] {
      KeepJobsFacts(m, ids[..|ids| - 1], spark, port);
      KeepJobsAre(m, ids[..|ids| - 1], spark, port);
      assert ids == ids[..|ids| - 1] + [ids[|ids| - 1]];
    }
  }

  lemma ClearOk(s: Sys, spark: nat, port: Option<nat>)
    requires SysOk(s, true)
    ensures SysOk(Clear(s, spark, port), true)
  {
    var d, r := Last(s), Clear(s, spark, port);
    assert d in s.disks;
    KeepJobsFacts(s.m, s.m.jobs, spark, port);
    KeepJobsAre(s.m, s.m.jobs, spark, port);
    if port.Some? {
      KeepPortFacts(ListOf(s.m.history, spark), port.value);
      KeepPortAre(ListOf(s.m.history, spark), port.value);
    }
    assert Keeps(d, Last(r)) by {
      forall id: nat, k: nat | Known(d, id, k) ensures Known(Last(r), id, k) {}
    }
    Extend(s, r, Last(r), true);
  }

  // ---------------------------------------------------------------- agreement

  predicate OnePerSpark(active: seq<Snap>) {
    forall i, j :: 0 <= i < j < |active| ==> active[i].spark != active[j].spark
  }

  /** activeBySpark names exactly the running jobs, and no active file has had two jobs of one Spark. */
  ghost predicate Agreed(s: Sys) {
    |s.disks| > 0 && ManagerOk(s.m) && forall d :: d in s.disks ==> OnePerSpark(d.active)
  }

  /** No stopped job of the Spark still has its _runJob() under way. */
  predicate NoneStopping(m: Manager, spark: nat) {
    forall id :: id in m.records && m.records[id].live && m.records[id].snap.spark == spark ==> IsRunning(m, id)
  }

  lemma CheckpointAgreed(s: Sys)
    requires Agreed(s)
    ensures Agreed(Checkpoint(s))
  {
    CheckpointOk(s.m);
    RunningSnapsAre(s.m.records, s.m.jobs);
    var r := RunningSnaps(s.m.records, s.m.jobs);
    forall i, j | 0 <= i < j < |r| ensures r[i].spark != r[j].spark {
      assert r[i] in r && r[j] in r;
    }
  }

  lemma PushAgreed(s: Sys, x: Snap)
    requires Agreed(s)
    ensures Agreed(PushHistory(s, x))
  {
    assert Last(s) in s.disks;
  }

  lemma AddOk(m: Manager, job: Job)
    requires ManagerOk(m) && job.snap.id !in m.records && job.snap.status.Running? && job.live
    requires job.snap.spark !in m.activeBySpark && NoneStopping(m, job.snap.spark)
    ensures ManagerOk(m.(records := m.records[job.snap.id := job], jobs := m.jobs + [job.snap.id],
                         activeBySpark := m.activeBySpark[job.snap.spark := job.snap.id]))
  {
  }

  lemma StopOk(m: Manager, id: nat, job: Job)
    requires ManagerOk(m) && id in m.records && m.records[id].live
    requires job.snap.id == id && job.snap.spark == m.records[id].snap.spark && !job.snap.status.Running?
    ensures ManagerOk(m.(records := m.records[id := job], activeBySpark := m.activeBySpark - {job.snap.spark}))
  {
  }

  lemma StartAgreed(s: Sys, spark: nat, id: nat, port: nat, valid: bool)
    requires Agreed(s) && id !in s.m.records && (spark in s.m.activeBySpark || !valid || NoneStopping(s.m, spark))
    ensures Agreed(Start(s, spark, id, port, valid))
  {
    if spark !in s.m.activeBySpark && valid {
      var job := Job(Snap(id, spark, Running, port, 0), false, true);
      AddOk(s.m, job);
      CheckpointAgreed(s.(m := s.m.(records := s.m.records[id := job], jobs := s.m.jobs + [id],
                                    activeBySpark := s.m.activeBySpark[spark := id])));
    }
  }

  lemma CancelAgreed(s: Sys, spark: nat, id: nat)
    requires Agreed(s)
    ensures Agreed(Cancel(s, spark, id))
  {
  }

  lemma AdvanceAgreed(s: Sys, id: nat, detail: int)
    requires Agreed(s) && id in s.m.records
    ensures Agreed(Advance(s, id, detail))
  {
    var job := s.m.records[id];
    CheckpointAgreed(s.(m := s.m.(records := s.m.records[id := job.(snap := job.snap.(detail := detail))])));
  }

  lemma FinishAgreed(s: Sys, id: nat, ok: bool)
    requires Agreed(s) && id in s.m.records && s.m.records[id].live
    ensures Agreed(Finish(s, id, ok))
  {
    var job := s.m.records[id];
    var done := job.snap.(status := Final(job, ok));
    var m := s.m.(records := s.m.records[id := job.(snap := done, live := false)],
                  activeBySpark := s.m.activeBySpark - {job.snap.spark});
    StopOk(s.m, id, job.(snap := done, live := false));
    PushAgreed(s.(m := m), done);
    CheckpointAgreed(PushHistory(s.(m := m), done));
  }

  lemma {:induction false} InterruptFirstAgreed(s: Sys, n: nat)
    requires Agreed(s) && n <= |s.m.jobs|
    ensures Agreed(InterruptFirst(s, n))
  {
    if n > 0 {
      InterruptFirstAgreed(s, n - 1);
      var r, id := InterruptFirst(s, n - 1), s.m.jobs[n - 1];
      if IsRunning(r.m, id) {
        var done := r.m.records[id].snap.(status := Failed);
        var job := r.m.records[id].(snap := done);
        StopOk(r.m, id, job);
        PushAgreed(r.(m := r.m.(records := r.m.records[id := job], activeBySpark := r.m.activeBySpark - {done.spark})), done);
      }
    }
  }

  lemma InterruptAgreed(s: Sys)
    requires Agreed(s)
    ensures Agreed(InterruptAll(s))
  {
    InterruptFirstAgreed(s, |s.m.jobs|);
  }

  lemma ClearAgreed(s: Sys, spark: nat, port: Option<nat>)
    requires Agreed(s)
    ensures Agreed(Clear(s, spark, port))
  {
    assert Last(s) in s.disks;
    KeepJobsFacts(s.m, s.m.jobs, spark, port);
    KeepJobsAre(s.m, s.m.jobs, spark, port);
  }

  // ---------------------------------------------------------------- when a start is safe

  /**
   * A stopped job whose _runJob() is still under way deletes its Spark's entry when it ends. So a start on
   * that Spark keeps the agreement for good exactly when no such job is left.
   */
  lemma StartSafeIff(s: Sys, spark: nat, id: nat, port: nat)
    requires Agreed(s) && id !in s.m.records && spark !in s.m.activeBySpark
    ensures var r := Start(s, spark, id, port, true);
      NoneStopping(s.m, spark) <==>
      forall k: nat, ok :: k in r.m.records && r.m.records[k].live ==> Agrees(Finish(r, k, ok).m)
  {
    var r := Start(s, spark, id, port, true);
    if NoneStopping(s.m, spark) {
      StartAgreed(s, spark, id, port, true);
      forall k: nat, ok | k in r.m.records && r.m.records[k].live ensures Agrees(Finish(r, k, ok).m) {
        FinishAgreed(r, k, ok);
      }
    } else {
      var k :| k in s.m.records && s.m.records[k].live && s.m.records[k].snap.spark == spark && !IsRunning(s.m, k);
      var m := Finish(r, k, true).m;
      assert IsRunning(m, id) && spark !in m.activeBySpark;
    }
  }

  lemma {:induction false} InterruptKeepsLive(s: Sys, n: nat, id: nat)
    requires |s.disks| > 0 && n <= |s.m.jobs| && id in s.m.records
    ensures var r := InterruptFirst(s, n);
      id in r.m.records && r.m.records[id].live == s.m.records[id].live && r.m.records[id].snap.spark == s.m.records[id].snap.spark
    ensures forall k :: k in InterruptFirst(s, n).m.records ==> k in s.m.records
  {
    if n > 0 { InterruptKeepsLive(s, n - 1, id); }
  }

  /**
   * The case in point: a job starts, a shutdown interrupts it, another job starts on the same Spark, and only
   * then the first one's finally block runs. The second job goes on running, and no entry names it, so that a
   * third one can start beside it.
   */
  lemma StrayEnd(s: Sys, spark: nat, a: nat, b: nat, c: nat, port: nat)
    requires SysOk(s, false) && Agreed(s) && spark !in s.m.activeBySpark
    requires a != b && b != c && c != a && a !in s.m.records && b !in s.m.records && c !in s.m.records
    requires NoneStopping(s.m, spark)
    ensures var again := Start(InterruptAll(Start(s, spark, a, port, true)), spark, b, port, true);
      && a in again.m.records
      && IsRunning(Finish(again, a, false).m, b) && spark !in Finish(again, a, false).m.activeBySpark
      && BothRun(Start(Finish(again, a, false), spark, c, port, true), b, c, spark)
  {
    var first := Start(s, spark, a, port, true);
    StartOk(s, spark, a, port, true, false);
    StartAgreed(s, spark, a, port, true);
    InterruptOk(first, false);
    InterruptAgreed(first);
    InterruptKeepsLive(first, |first.m.jobs|, a);
    var shut := InterruptAll(first);
    assert spark !in shut.m.activeBySpark;
    assert a in shut.m.records && !IsRunning(shut.m, a) && b !in shut.m.records && c !in shut.m.records;
    StrayFinish(shut, spark, a, b, port);
    var again := Start(shut, spark, b, port, true);
    StartOk(shut, spark, b, port, true, false);
    FinishOk(again, a, false, false);
    SecondStart(Finish(again, a, false), spark, b, c, port);
  }

  /** Two jobs of one Spark run, and both are in the active file. */
  predicate BothRun(s: Sys, b: nat, c: nat, spark: nat) {
    && |s.disks| > 0 && IsRunning(s.m, b) && IsRunning(s.m, c)
    && s.m.records[b].snap.spark == s.m.records[c].snap.spark == spark
    && s.m.records[b].snap in Last(s).active && s.m.records[c].snap in Last(s).active
  }

  lemma SecondStart(s: Sys, spark: nat, b: nat, c: nat, port: nat)
    requires SysOk(s, false) && b != c && c !in s.m.records && spark !in s.m.activeBySpark
    requires IsRunning(s.m, b) && s.m.records[b].snap.spark == spark
    ensures BothRun(Start(s, spark, c, port, true), b, c, spark)
  {
    StartOk(s, spark, c, port, true, false);
    CheckpointOk(Start(s, spark, c, port, true).m);
  }

  lemma StrayFinish(s: Sys, spark: nat, a: nat, b: nat, port: nat)
    requires |s.disks| > 0 && spark !in s.m.activeBySpark && a in s.m.records && b !in s.m.records
    requires s.m.records[a].snap.spark == spark && !IsRunning(s.m, a)
    requires a != b && forall k :: k in s.m.records ==> s.m.records[k].snap.id == k
    ensures var again := Start(s, spark, b, port, true);
      && a in again.m.records && (forall k :: k in Finish(again, a, false).m.records ==> k in s.m.records || k == b)
      && IsRunning(Finish(again, a, false).m, b) && Finish(again, a, false).m.records[b].snap.spark == spark
      && spark !in Finish(again, a, false).m.activeBySpark
  {
  }
}
