/** Boot, boots that die, and whole runs. */
module DecodeBenchCrashes {
  import opened Wrappers
  import opened DecodeBench
  import opened DecodeBenchRuns

  // ---------------------------------------------------------------- one boot

  function Interrupted(x: Snap): Snap {
    x.(status := Failed)
  }

  /** What recovery makes of the history lists: the first n leftovers, those already listed skipped. */
  function Recovered(h: History, left: seq<Snap>, n: nat): History
    requires n <= |left|
  {
    if n == 0 then h else
    var before, x := Recovered(h, left, n - 1), left[n - 1];
    if Lists(ListOf(before, x.spark), x.id) then before
    else before[x.spark := Pushed(ListOf(before, x.spark), Interrupted(x))]
  }

  function Fresh(d: Disk): Sys {
    Sys(Manager(map[], [], map[], LoadHistory(d.history)), [d])
  }

  predicate AtRest(m: Manager) {
    m.activeBySpark == map[] && forall id :: id in m.records ==> !IsRunning(m, id) && !m.records[id].live
  }

  lemma LoadIsIdentity(h: History)
    requires HistoryOk(h)
    ensures LoadHistory(h) == h
  {
    forall spark | spark in h ensures CleanList(h[spark]) == h[spark] {
      forall i | 0 <= i < |h[spark]| ensures !h[spark][i].status.Running? { assert h[spark][i] in h[spark]; }
    }
  }

  ghost predicate RestOk(s: Sys, clears: bool) {
    RecordsOk(s.m) && AtRest(s.m) && FilesOk(s, clears)
  }

  lemma RestGrows(s: Sys, job: Job, jobs: seq<nat>, clears: bool)
    requires RestOk(s, clears) && !job.live && !job.snap.status.Running?
    requires jobs == if job.snap.id in s.m.jobs then s.m.jobs else s.m.jobs + [job.snap.id]
    ensures RestOk(s.(m := s.m.(records := s.m.records[job.snap.id := job], jobs := jobs)), clears)
  {
  }

  lemma PushRest(s: Sys, x: Snap, clears: bool)
    requires RestOk(s, clears) && !x.status.Running?
    ensures RestOk(PushHistory(s, x), clears)
  {
    PushFiles(s, x, clears);
  }

  lemma RecoverOneRest(s: Sys, x: Snap, clears: bool)
    requires RestOk(s, clears)
    ensures RestOk(RecoverOne(s, x), clears)
  {
    if !Lists(ListOf(s.m.history, x.spark), x.id) {
      var job := Job(Interrupted(x), false, false);
      var jobs := if x.id in s.m.jobs then s.m.jobs else s.m.jobs + [x.id];
      RestGrows(s, job, jobs, clears);
      PushRest(s.(m := s.m.(records := s.m.records[x.id := job], jobs := jobs)), Interrupted(x), clears);
    }
  }

  lemma FreshRest(d: Disk, clears: bool)
    requires DiskOk(d, clears)
    ensures RestOk(Fresh(d), clears)
  {
    LoadIsIdentity(d.history);
  }

  lemma {:induction false} RecoverFirstRest(s: Sys, left: seq<Snap>, n: nat, clears: bool)
    requires n <= |left| && RestOk(s, clears)
    ensures RestOk(RecoverFirst(s, left, n), clears)
  {
    if n > 0 {
      RecoverFirstRest(s, left, n - 1, clears);
      RecoverOneRest(RecoverFirst(s, left, n - 1), left[n - 1], clears);
    }
  }

  lemma RecoverOneLogs(s: Sys, x: Snap, clears: bool)
    requires RestOk(s, clears)
    ensures Logged(Last(RecoverOne(s, x)).log, x.id, x.spark)
  {
    var l := ListOf(s.m.history, x.spark);
    if Lists(l, x.id) {
      var j :| 0 <= j < |l| && l[j].id == x.id;
      assert Last(s) in s.disks && l[j] in Last(s).history[x.spark];
    } else {
      LogGrows(Last(s), Last(RecoverOne(s, x)), Interrupted(x));
    }
  }

  lemma StillLogged(s: Sys, x: Snap, id: nat, spark: nat)
    requires |s.disks| > 0 && Logged(Last(s).log, id, spark)
    ensures Logged(Last(RecoverOne(s, x)).log, id, spark)
  {
    var y :| y in Last(s).log && y.id == id && y.spark == spark;
    assert y in Last(RecoverOne(s, x)).log;
  }

  /** r: the state after the first n leftovers */
  lemma {:induction false} LeftoverLogged(s: Sys, left: seq<Snap>, i: nat, n: nat, r: Sys, clears: bool)
    requires RestOk(s, clears) && i < n <= |left| && r == RecoverFirst(s, left, n)
    ensures Logged(Last(r).log, left[i].id, left[i].spark)
  {
    var q := RecoverFirst(s, left, n - 1);
    if i == n - 1 {
      RecoverFirstRest(s, left, i, clears);
      RecoverOneLogs(q, left[i], clears);
    } else {
      LeftoverLogged(s, left, i, n - 1, q, clears);
      StillLogged(q, left[n - 1], left[i].id, left[i].spark);
    }
  }

  /** What boot has written when it has come to the n-th leftover: all of them are still in the active file. */
  ghost predicate Partial(d: Disk, e: Disk, n: nat)
    requires n <= |d.active|
  {
    e.active == d.active && exists k: nat :: k <= n && e.history == Recovered(d.history, d.active, k)
  }

  ghost predicate Partials(d: Disk, s: Sys, n: nat)
    requires n <= |d.active|
  {
    && |s.disks| > 0 && s.m.history == Recovered(d.history, d.active, n)
    && s.disks[0] == d && Last(s).active == d.active
    && forall e :: e in s.disks ==> Partial(d, e, n)
  }

  lemma RecoverOnePartials(d: Disk, s: Sys, n: nat)
    requires n < |d.active| && Partials(d, s, n)
    ensures Partials(d, RecoverOne(s, d.active[n]), n + 1)
  {
    var r := RecoverOne(s, d.active[n]);
    assert r.m.history == Recovered(d.history, d.active, n + 1);
    forall e | e in r.disks ensures Partial(d, e, n + 1) {
      if e in s.disks {
        var k: nat :| k <= n && e.history == Recovered(d.history, d.active, k);
        assert k <= n + 1;
      }
    }
  }

  lemma {:induction false} RecoverFirstPartials(d: Disk, n: nat)
    requires n <= |d.active| && HistoryOk(d.history)
    ensures Partials(d, RecoverFirst(Fresh(d), d.active, n), n)
  {
    if n == 0 {
      LoadIsIdentity(d.history);
      assert d.history == Recovered(d.history, d.active, 0);
    } else {
      RecoverFirstPartials(d, n - 1);
      RecoverOnePartials(d, RecoverFirst(Fresh(d), d.active, n - 1), n - 1);
    }
  }

  /** Each of the first k leftovers is still listed once recovery has come that far. */
  predicate NoneLost(h: History, left: seq<Snap>, k: nat)
    requires k <= |left|
  {
    forall i :: 0 <= i < k ==> Lists(ListOf(Recovered(h, left, k), left[i].spark), left[i].id)
  }

  lemma {:induction false} AlreadyRecovered(h: History, left: seq<Snap>, n: nat, k: nat)
    requires n <= k <= |left| && NoneLost(h, left, k)
    ensures Recovered(Recovered(h, left, k), left, n) == Recovered(h, left, k)
  {
    if n > 0 { AlreadyRecovered(h, left, n - 1, k); }
  }

  /** Starting recovery again after its first k leftovers changes nothing, unless one of them has lost its place. */
  lemma {:induction false} RecoveredTwice(h: History, left: seq<Snap>, n: nat, k: nat)
    requires k <= n <= |left|
    ensures NoneLost(h, left, k) ==> Recovered(Recovered(h, left, k), left, n) == Recovered(h, left, n)
  {
    if n > k {
      RecoveredTwice(h, left, n - 1, k);
    } else if NoneLost(h, left, k) {
      AlreadyRecovered(h, left, n, k);
    }
  }

  lemma {:induction false} StaysListed(h: History, left: seq<Snap>, i: nat, k: nat)
    requires i < k <= |left| && OnePerSpark(left)
    ensures Lists(ListOf(Recovered(h, left, k), left[i].spark), left[i].id)
  {
    if i < k - 1 {
      StaysListed(h, left, i, k - 1);
    } else {
      var before, x := Recovered(h, left, i), left[i];
      if !Lists(ListOf(before, x.spark), x.id) { assert Pushed(ListOf(before, x.spark), Interrupted(x))[0].id == x.id; }
    }
  }

  /** What a boot leaves in the files, at its end and at every point at which it may die. */
  ghost predicate BootFiles(d: Disk, e: Disk) {
    || Partial(d, e, |d.active|)
    || (e.active == [] && e.history == Recovered(d.history, d.active, |d.active|))
  }

  /** Clearing the active file and saving the history once more. */
  lemma ClosingWrites(d: Disk, r: Sys, clears: bool)
    requires Partials(d, r, |d.active|) && RestOk(r, clears)
    requires forall i :: 0 <= i < |d.active| ==> Logged(Last(r).log, d.active[i].id, d.active[i].spark)
    ensures SysOk(WriteActive(r, []), clears) && SysOk(SaveHistory(WriteActive(r, [])), clears)
    ensures forall e :: e in SaveHistory(WriteActive(r, [])).disks ==> BootFiles(d, e)
  {
    WriteFiles(r, [], clears);
    var c := WriteActive(r, []);
    assert Last(c) in c.disks;
    Extend(c, SaveHistory(c), Last(c), clears);
    assert Last(SaveHistory(c)) == Last(c);
    forall e | e in SaveHistory(c).disks ensures BootFiles(d, e) {
      assert e in r.disks || e == Last(c);
    }
  }

  lemma BootOk(d: Disk, clears: bool)
    requires DiskOk(d, clears)
    ensures SysOk(Boot(d), clears) && AtRest(Boot(d).m) && Last(Boot(d)).active == [] && Boot(d).disks[0] == d
    ensures Boot(d).m.history == Recovered(d.history, d.active, |d.active|)
    ensures forall e :: e in Boot(d).disks ==> BootFiles(d, e)
  {
    FreshRest(d, clears);
    var n := |d.active|;
    var r := RecoverFirst(Fresh(d), d.active, n);
    RecoverFirstRest(Fresh(d), d.active, n, clears);
    RecoverFirstPartials(d, n);
    forall i | 0 <= i < n ensures Logged(Last(r).log, d.active[i].id, d.active[i].spark) {
      LeftoverLogged(Fresh(d), d.active, i, n, r, clears);
    }
    if n > 0 { ClosingWrites(d, r, clears); }
  }

  // ---------------------------------------------------------------- boots that die

  /** Each boot finds the files as the one before left them when it died. */
  ghost predicate DyingBoots(c: seq<Disk>) {
    |c| > 0 && forall i: nat :: Reboots(c, i)
  }

  ghost predicate Reboots(c: seq<Disk>, i: nat) {
    i + 1 < |c| ==> c[i + 1] in Boot(c[i]).disks
  }

  lemma {:induction false} DyingBootsOk(c: seq<Disk>, k: nat, clears: bool)
    requires DyingBoots(c) && k < |c| && DiskOk(c[0], clears)
    ensures DiskOk(c[k], clears) && Keeps(c[0], c[k])
  {
    if k > 0 {
      DyingBootsOk(c, k - 1, clears);
      assert Reboots(c, k - 1);
      BootOk(c[k - 1], clears);
    }
  }

  predicate IsOnly(l: seq<Snap>, i: nat, id: nat)
    requires i < |l|
  {
    l[i].id == id && !l[i].status.Running? && forall j :: 0 <= j < |l| && l[j].id == id ==> j == i
  }

  predicate ListedOnce(h: History, id: nat, spark: nat) {
    spark in h && exists i :: 0 <= i < |h[spark]| && IsOnly(h[spark], i, id)
  }

  lemma OnlyListedOnce(h: History, id: nat, spark: nat)
    requires HistoryOk(h) && Lists(ListOf(h, spark), id)
    ensures ListedOnce(h, id, spark)
  {
    var l := h[spark];
    var i :| 0 <= i < |l| && l[i].id == id;
    assert l[i] in l && IsOnly(l, i, id);
  }

  /** At least ten jobs of the Spark have been pushed since this one was, and they fill the list. */
  predicate Evicted(d: Disk, id: nat, spark: nat) {
    var r := Recent(d.log, spark);
    |r| > HISTORY_LIMIT && Lists(r[HISTORY_LIMIT..], id) && ListOf(d.history, spark) == r[..HISTORY_LIMIT]
  }

  /** A job that was pushed is listed, or evicted, and not both. */
  lemma LoggedEndures(d: Disk, id: nat, spark: nat)
    requires Tracked(d) && Logged(d.log, id, spark)
    ensures Lists(ListOf(d.history, spark), id) <==> !Evicted(d, id, spark)
  {
    RecentFacts(d.log, spark);
    var r, l := Recent(d.log, spark), ListOf(d.history, spark);
    assert TrackedAt(d, spark);
    var p :| 0 <= p < |r| && r[p].id == id;
    if p < HISTORY_LIMIT {
      assert l[p].id == id;
    } else {
      assert r[HISTORY_LIMIT..][p - HISTORY_LIMIT].id == id;
    }
  }

  /** The manager and the file agree, and nothing is running or left over. */
  ghost predicate GotThrough(b: Sys) {
    && |b.disks| > 0 && AtRest(b.m) && b.m.history == Last(b).history && Last(b).active == [] && HistoryOk(b.m.history)
  }

  lemma BootGetsThrough(d: Disk, clears: bool)
    requires DiskOk(d, clears)
    ensures GotThrough(Boot(d))
  {
    BootOk(d, clears);
    assert Last(Boot(d)) in Boot(d).disks;
  }

  /**
   * However often boot dies, the boot that gets through leaves no leftover, and lists each interrupted job
   * exactly once and not running, unless ten newer jobs of its Spark have taken the places.
   */
  lemma RecoveredOnce(c: seq<Disk>, x: Snap)
    requires DyingBoots(c) && DiskOk(c[0], false) && x in c[0].active
    ensures var b := Boot(c[|c| - 1]);
      GotThrough(b) && (ListedOnce(b.m.history, x.id, x.spark) <==> !Evicted(Last(b), x.id, x.spark))
  {
    var d := c[|c| - 1];
    DyingBootsOk(c, |c| - 1, false);
    BootGetsThrough(d, false);
    BootOk(d, false);
    var b := Boot(d);
    assert Last(b) in b.disks && Known(c[0], x.id, x.spark);
    LoggedEndures(Last(b), x.id, x.spark);
    if Lists(ListOf(b.m.history, x.spark), x.id) { OnlyListedOnce(b.m.history, x.id, x.spark); }
  }

  // ---------------------------------------------------------------- one leftover per Spark

  /** No leftover loses its place in a boot, wherever it may die. */
  ghost predicate Keeping(d: Disk) {
    forall k: nat :: k <= |d.active| ==> NoneLost(d.history, d.active, k)
  }

  lemma OneKeeps(d: Disk)
    requires OnePerSpark(d.active)
    ensures Keeping(d)
  {
    forall k: nat, i | k <= |d.active| && 0 <= i < k
      ensures Lists(ListOf(Recovered(d.history, d.active, k), d.active[i].spark), d.active[i].id)
    {
      StaysListed(d.history, d.active, i, k);
    }
  }

  lemma BootAfterBoot(d: Disk, e: Disk, clears: bool)
    requires DiskOk(d, clears) && e in Boot(d).disks
    ensures DiskOk(e, clears) && (Keeping(d) ==> Boot(e).m.history == Boot(d).m.history)
  {
    BootOk(d, clears);
    BootOk(e, clears);
    if Keeping(d) && e.active == d.active {
      var k: nat :| k <= |d.active| && e.history == Recovered(d.history, d.active, k);
      RecoveredTwice(d.history, d.active, |d.active|, k);
    }
  }

  ghost predicate Alike(d: Disk, e: Disk, clears: bool) {
    DiskOk(e, clears) && OnePerSpark(e.active) && Boot(e).m.history == Boot(d).m.history
  }

  lemma NextAlike(d: Disk, e: Disk, clears: bool)
    requires DiskOk(d, clears) && OnePerSpark(d.active) && e in Boot(d).disks
    ensures Alike(d, e, clears)
  {
    OneKeeps(d);
    BootAfterBoot(d, e, clears);
    BootOk(d, clears);
  }

  lemma {:induction false} DyingBootsAlike(c: seq<Disk>, k: nat, clears: bool)
    requires DyingBoots(c) && k < |c| && DiskOk(c[0], clears) && OnePerSpark(c[0].active)
    ensures Alike(c[0], c[k], clears)
  {
    if k > 0 {
      DyingBootsAlike(c, k - 1, clears);
      assert Reboots(c, k - 1);
      NextAlike(c[k - 1], c[k], clears);
    }
  }

  /**
   * With clears, too, boot gets through with clean lists; with one leftover per Spark it leaves what a boot
   * that never died leaves, every leftover listed.
   */
  lemma RecoveredAlike(c: seq<Disk>, x: Snap, clears: bool)
    requires DyingBoots(c) && DiskOk(c[0], clears) && x in c[0].active
    ensures GotThrough(Boot(c[|c| - 1]))
    ensures OnePerSpark(c[0].active) ==> var h := Boot(c[|c| - 1]).m.history;
      h == Boot(c[0]).m.history && ListedOnce(h, x.id, x.spark)
  {
    DyingBootsOk(c, |c| - 1, clears);
    BootGetsThrough(c[|c| - 1], clears);
    if OnePerSpark(c[0].active) {
      DyingBootsAlike(c, |c| - 1, clears);
      BootLists(c[0], x, clears);
    }
  }

  lemma BootLists(d: Disk, x: Snap, clears: bool)
    requires DiskOk(d, clears) && OnePerSpark(d.active) && x in d.active
    ensures ListedOnce(Boot(d).m.history, x.id, x.spark)
  {
    BootGetsThrough(d, clears);
    BootOk(d, clears);
    var k :| 0 <= k < |d.active| && d.active[k] == x;
    StaysListed(d.history, d.active, k, |d.active|);
    OnlyListedOnce(Boot(d).m.history, x.id, x.spark);
  }

  // ---------------------------------------------------------------- more leftovers than places

  function Ids(l: seq<Snap>): set<nat> {
    set x | x in l :: x.id
  }

  lemma {:induction false} IdsCount(l: seq<Snap>)
    ensures |Ids(l)| <= |l| && (NoDup(l) ==> |Ids(l)| == |l|)
  {
    if l == [] {
      assert Ids(l) == {};
    } else {
      IdsCount(l[1..]);
      assert l == [l[0]] + l[1..];
      assert Ids(l) == {l[0].id} + Ids(l[1..]);
    }
  }

  /** More than ten leftovers of one Spark cannot all be listed. */
  lemma TooMany(d: Disk, spark: nat, clears: bool) returns (x: Snap)
    requires DiskOk(d, clears) && NoDup(d.active) && |d.active| > HISTORY_LIMIT
    requires forall y :: y in d.active ==> y.spark == spark
    ensures x in d.active && !Lists(ListOf(Boot(d).m.history, spark), x.id)
  {
    BootOk(d, clears);
    assert Last(Boot(d)) in Boot(d).disks;
    var l := ListOf(Boot(d).m.history, spark);
    IdsCount(l);
    IdsCount(d.active);
    if forall y :: y in d.active ==> y.id in Ids(l) {
      assert Ids(d.active) <= Ids(l);
      SubsetSize(Ids(d.active), Ids(l));
      assert false;
    }
    x :| x in d.active && x.id !in Ids(l);
    ListedIds(l, x.id);
  }

  lemma ListedIds(l: seq<Snap>, id: nat)
    ensures Lists(l, id) ==> id in Ids(l)
  {
    if Lists(l, id) {
      var i :| 0 <= i < |l| && l[i].id == id;
      assert l[i] in l;
    }
  }

  lemma {:induction false} SubsetSize(a: set<nat>, b: set<nat>)
    requires a <= b
    ensures |a| <= |b|
  {
    if a != {} {
      var x :| x in a;
      SubsetSize(a - {x}, b - {x});
    }
  }

  // ---------------------------------------------------------------- runs

  datatype Event =
    | StartEvent(spark: nat, id: nat, port: nat, valid: bool)
    | CancelEvent(spark: nat, id: nat)
    | AdvanceEvent(id: nat, detail: int)
    | FinishEvent(id: nat, ok: bool)
    | InterruptEvent
    | ClearEvent(spark: nat, only: Option<nat>)

  datatype World = Up(m: Manager, d: Disk) | Down(d: Disk)

  /** Which runs are meant: those with clearHistory, those whose starts wait until the Spark's stopped jobs have gone. */
  datatype Rules = Rules(clears: bool, waits: bool)

  /** New identifiers are new, and only live jobs move. */
  predicate Enabled(m: Manager, e: Event, rules: Rules) {
    match e
    case StartEvent(spark, id, port, valid) =>
      id !in m.records && (rules.waits ==> spark in m.activeBySpark || !valid || NoneStopping(m, spark))
    case AdvanceEvent(id, detail) => id in m.records && m.records[id].live
    case FinishEvent(id, ok) => id in m.records && m.records[id].live
    case ClearEvent(spark, port) => rules.clears
    case _ => true
  }

  /** Without rules only two things are asked: that a new job's identifier is new, and that what goes on or ends is under way. */
  lemma EventsAreFree(m: Manager, e: Event)
    ensures Enabled(m, e, Rules(true, false)) <==>
      && (e.StartEvent? ==> e.id !in m.records)
      && (e.AdvanceEvent? || e.FinishEvent? ==> e.id in m.records && m.records[e.id].live)
  {
  }

  function Apply(m: Manager, d: Disk, e: Event, rules: Rules): Sys
    requires Enabled(m, e, rules)
  {
    var s := Sys(m, [d]);
    match e
    case StartEvent(spark, id, port, valid) => Start(s, spark, id, port, valid)
    case CancelEvent(spark, id) => Cancel(s, spark, id)
    case AdvanceEvent(id, detail) => Advance(s, id, detail)
    case FinishEvent(id, ok) => Finish(s, id, ok)
    case InterruptEvent => InterruptAll(s)
    case ClearEvent(spark, port) => Clear(s, spark, port)
  }

  /** The call runs to its end, or the process dies after one of its writes. */
  ghost predicate Ends(s: Sys, w: World) {
    |s.disks| > 0 && (w == Up(s.m, Last(s)) || exists e :: e in s.disks && w == Down(e))
  }

  ghost predicate Next(w: World, w': World, rules: Rules) {
    match w
    case Up(m, d) => exists e :: Enabled(m, e, rules) && Ends(Apply(m, d, e, rules), w')
    case Down(d) => Ends(Boot(d), w')
  }

  ghost predicate WorldOk(w: World, clears: bool) {
    match w
    case Up(m, d) => SysOk(Sys(m, [d]), clears)
    case Down(d) => DiskOk(d, clears)
  }

  ghost predicate WorldAgrees(w: World) {
    match w
    case Up(m, d) => Agreed(Sys(m, [d]))
    case Down(d) => true
  }

  lemma ApplyOk(m: Manager, d: Disk, e: Event, rules: Rules)
    requires SysOk(Sys(m, [d]), rules.clears) && Enabled(m, e, rules)
    ensures SysOk(Apply(m, d, e, rules), rules.clears) && Apply(m, d, e, rules).disks[0] == d
  {
    var s := Sys(m, [d]);
    match e
    case StartEvent(spark, id, port, valid) => StartOk(s, spark, id, port, valid, rules.clears);
    case CancelEvent(spark, id) => CancelOk(s, spark, id, rules.clears);
    case AdvanceEvent(id, detail) => AdvanceOk(s, id, detail, rules.clears);
    case FinishEvent(id, ok) => FinishOk(s, id, ok, rules.clears);
    case InterruptEvent => InterruptOk(s, rules.clears);
    case ClearEvent(spark, port) => ClearOk(s, spark, port);
  }

  lemma ApplyAgreed(m: Manager, d: Disk, e: Event, rules: Rules)
    requires Agreed(Sys(m, [d])) && Enabled(m, e, rules) && rules.waits
    ensures Agreed(Apply(m, d, e, rules))
  {
    var s := Sys(m, [d]);
    match e
    case StartEvent(spark, id, port, valid) => StartAgreed(s, spark, id, port, valid);
    case CancelEvent(spark, id) => CancelAgreed(s, spark, id);
    case AdvanceEvent(id, detail) => AdvanceAgreed(s, id, detail);
    case FinishEvent(id, ok) => FinishAgreed(s, id, ok);
    case InterruptEvent => InterruptAgreed(s);
    case ClearEvent(spark, port) => ClearAgreed(s, spark, port);
  }

  lemma RestAgrees(m: Manager, d: Disk)
    requires RecordsOk(m) && AtRest(m) && d.active == []
    ensures Agreed(Sys(m, [d]))
  {
  }

  lemma BootActive(d: Disk, e: Disk, clears: bool)
    requires DiskOk(d, clears) && e in Boot(d).disks
    ensures e.active == d.active || e.active == []
  {
    BootOk(d, clears);
    assert BootFiles(d, e);
  }

  lemma BootAgreed(d: Disk, w: World, clears: bool)
    requires DiskOk(d, clears) && Ends(Boot(d), w)
    ensures WorldAgrees(w) && (OnePerSpark(d.active) ==> OnePerSpark(w.d.active))
  {
    var b := Boot(d);
    BootOk(d, clears);
    match w
    case Up(m, e) => RestAgrees(m, e);
    case Down(e) => BootActive(d, e, clears);
  }

  lemma EndsOk(s: Sys, w: World, clears: bool)
    requires SysOk(s, clears) && Ends(s, w)
    ensures WorldOk(w, clears) && Keeps(s.disks[0], w.d)
  {
    assert Last(s) in s.disks;
  }

  lemma EndsAgreed(s: Sys, w: World)
    requires Agreed(s) && Ends(s, w)
    ensures WorldAgrees(w) && OnePerSpark(w.d.active)
  {
    assert Last(s) in s.disks;
  }

  lemma NextOk(w: World, w': World, rules: Rules)
    requires WorldOk(w, rules.clears) && Next(w, w', rules)
    ensures WorldOk(w', rules.clears) && Keeps(w.d, w'.d)
    ensures rules.waits && WorldAgrees(w) ==> WorldAgrees(w') && (OnePerSpark(w.d.active) ==> OnePerSpark(w'.d.active))
  {
    match w
    case Up(m, d) =>
      var e :| Enabled(m, e, rules) && Ends(Apply(m, d, e, rules), w');
      ApplyOk(m, d, e, rules);
      EndsOk(Apply(m, d, e, rules), w', rules.clears);
      if rules.waits && WorldAgrees(w) {
        ApplyAgreed(m, d, e, rules);
        EndsAgreed(Apply(m, d, e, rules), w');
      }
    case Down(d) =>
      BootOk(d, rules.clears);
      EndsOk(Boot(d), w', rules.clears);
      BootAgreed(d, w', rules.clears);
  }

  ghost predicate StepAt(c: seq<World>, i: nat, rules: Rules) {
    i + 1 < |c| ==> Next(c[i], c[i + 1], rules)
  }

  /** From any files whose history lists hold no job twice, none running and at most ten. */
  ghost predicate IsRun(c: seq<World>, rules: Rules) {
    |c| > 0 && c[0].Down? && DiskOk(c[0].d, rules.clears) && forall i: nat :: StepAt(c, i, rules)
  }

  lemma {:induction false} RunOk(c: seq<World>, k: nat, rules: Rules)
    requires IsRun(c, rules) && k < |c|
    ensures WorldOk(c[k], rules.clears)
    ensures rules.waits ==> WorldAgrees(c[k]) && (OnePerSpark(c[0].d.active) ==> OnePerSpark(c[k].d.active))
  {
    if k > 0 {
      RunOk(c, k - 1, rules);
      assert StepAt(c, k - 1, rules);
      NextOk(c[k - 1], c[k], rules);
    }
  }

  /** In every run, clears included, the lists on disk and in memory agree, hold no job twice, none running and at most ten. */
  lemma ListsStayShort(c: seq<World>, k: nat, rules: Rules)
    requires IsRun(c, rules) && k < |c|
    ensures HistoryOk(c[k].d.history)
    ensures c[k].Up? ==> c[k].m.history == c[k].d.history
  {
    RunOk(c, k, rules);
    if c[k].Up? { assert c[k].d in [c[k].d]; }
  }

  /**
   * In every run whose starts wait, clears included: no Spark has two running jobs, activeBySpark names
   * exactly the running ones, and the active file never gets two jobs of one Spark.
   */
  lemma RunAgrees(c: seq<World>, k: nat)
    requires IsRun(c, Rules(true, true)) && k < |c|
    ensures OnePerSpark(c[0].d.active) ==> OnePerSpark(c[k].d.active)
    ensures c[k].Up? ==> OnePerSpark(c[k].d.active) && forall spark: nat, id: nat ::
      (spark in c[k].m.activeBySpark && c[k].m.activeBySpark[spark] == id)
      <==> (IsRunning(c[k].m, id) && c[k].m.records[id].snap.spark == spark)
  {
    RunOk(c, k, Rules(true, true));
    if c[k].Up? { assert c[k].d in [c[k].d]; }
  }

  lemma {:induction false} RunKeeps(c: seq<World>, i: nat, k: nat, rules: Rules)
    requires IsRun(c, rules) && i <= k < |c|
    ensures Keeps(c[i].d, c[k].d)
  {
    if i < k {
      RunKeeps(c, i, k - 1, rules);
      RunOk(c, k - 1, rules);
      assert StepAt(c, k - 1, rules);
      NextOk(c[k - 1], c[k], rules);
    }
  }

  /**
   * Once a job is in the active file it stays in one of the two files, whatever dies when and whatever else
   * runs on its Spark, until ten jobs of its Spark have entered the history after it.
   */
  lemma JobsEndure(c: seq<World>, i: nat, k: nat, x: Snap)
    requires IsRun(c, Rules(false, false)) && i <= k < |c| && x in c[i].d.active
    ensures var d := c[k].d;
      || (exists y :: y in d.active && y.id == x.id && y.spark == x.spark)
      || Lists(ListOf(d.history, x.spark), x.id)
      || Evicted(d, x.id, x.spark)
  {
    var d := c[k].d;
    RunOk(c, k, Rules(false, false));
    RunKeeps(c, i, k, Rules(false, false));
    assert Known(c[i].d, x.id, x.spark);
    assert DiskOk(d, false) by { if c[k].Up? { assert d in [d]; } }
    if Logged(d.log, x.id, x.spark) { LoggedEndures(d, x.id, x.spark); }
  }

  // ---------------------------------------------------------------- any lists can be the start

  /** The log after pushing a list, its last entry first. */
  function Replayed(log: seq<Snap>, l: seq<Snap>): seq<Snap> {
    if l == [] then log else Replayed(log, l[1..]) + [l[0]]
  }

  lemma {:induction false} RemoveAbsent(l: seq<Snap>, id: nat)
    requires !Lists(l, id)
    ensures Remove(l, id) == l
  {
    if l != [] {
      assert l[0].id != id;
      forall i | 0 <= i < |l| - 1 ensures l[1..][i].id != id { assert l[i + 1].id != id; }
      RemoveAbsent(l[1..], id);
    }
  }

  lemma RecentPush(log: seq<Snap>, x: Snap, spark: nat)
    ensures Recent(log + [x], spark) == if x.spark == spark then [x] + Remove(Recent(log, spark), x.id) else Recent(log, spark)
  {
    assert (log + [x])[..|log + [x]| - 1] == log;
  }

  lemma FirstIsNew(l: seq<Snap>)
    requires l != [] && NoDup(l)
    ensures NoDup(l[1..]) && Remove(l[1..], l[0].id) == l[1..]
  {
    forall i | 0 <= i < |l| - 1 ensures l[1..][i].id != l[0].id { assert l[1..][i] == l[i + 1]; }
    RemoveAbsent(l[1..], l[0].id);
  }

  lemma {:induction false} PushedInTurn(log: seq<Snap>, l: seq<Snap>, spark: nat, k: nat)
    requires NoDup(l) && (forall x :: x in l ==> x.spark == k) && Recent(log, k) == []
    ensures Recent(Replayed(log, l), spark) == if spark == k then l else Recent(log, spark)
  {
    if l != [] {
      var x, rest := l[0], l[1..];
      FirstIsNew(l);
      PushedInTurn(log, rest, spark, k);
      RecentPush(Replayed(log, rest), x, spark);
      assert l == [x] + rest && x in l;
    }
  }

  lemma {:induction false} SomeLog(h: History) returns (log: seq<Snap>)
    requires HistoryOk(h)
    ensures forall spark: nat :: Recent(log, spark) == ListOf(h, spark)
    decreases |h|
  {
    if h == map[] {
      log := [];
    } else {
      var k :| k in h;
      var rest := SomeLog(h - {k});
      log := Replayed(rest, h[k]);
      forall spark: nat ensures Recent(log, spark) == ListOf(h, spark) {
        assert Recent(rest, k) == ListOf(h - {k}, k) == [];
        PushedInTurn(rest, h[k], spark, k);
        assert Recent(rest, spark) == ListOf(h - {k}, spark);
      }
    }
  }

  /** Whatever is in the active file, every history without repeats is the start of a run. */
  lemma AnyStart(active: seq<Snap>, h: History) returns (d: Disk)
    requires HistoryOk(h)
    ensures d.active == active && d.history == h && forall rules :: IsRun([Down(d)], rules)
  {
    var log := SomeLog(h);
    d := Disk(active, h, log);
    forall spark: nat ensures TrackedAt(d, spark) {
      assert Recent(log, spark) == ListOf(h, spark);
    }
    forall spark, x | spark in h && x in h[spark] ensures Logged(log, x.id, spark) {
      assert Recent(log, spark) == ListOf(h, spark);
      RecentFacts(log, spark);
      assert x in log;
    }
    forall rules ensures IsRun([Down(d)], rules) { assert DiskOk(d, false); }
  }
}
