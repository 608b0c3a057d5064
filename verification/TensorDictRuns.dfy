/** Whatever the interleaving, every receiver rebuilds the senders' dictionary. */
module TensorDictRuns {
  import opened Arithmetic
  import opened TensorDict

  // ---------------------------------------------------------------- the sequence of transfers

  /** The messages that go over the channel of a device type. */
  function On(d: Device, ts: seq<Transfer>): seq<Message> {
    if ts == [] then [] else if ts[0].device == d then [ts[0].message] + On(d, ts[1..]) else On(d, ts[1..])
  }

  lemma {:induction false} OnAppend(d: Device, ts: seq<Transfer>, t: Transfer)
    ensures On(d, ts + [t]) == On(d, ts) + if t.device == d then [t.message] else []
  {
    if ts != [] {
      OnAppend(d, ts[1..], t);
      assert (ts + [t])[1..] == ts[1..] + [t];
    }
  }

  predicate HasTransfer(v: Value) {
    v.Data? && |v.tensor.data| != 0
  }

  function TransferOf(job: Job, r: nat, v: Value): Transfer
    requires r < job.ranks && HasTransfer(v)
  {
    Transfer(v.tensor.device, Payload(v.tensor.dtype, Part(job, r, v.tensor.data)))
  }

  lemma ProgramStep(job: Job, r: nat, n: nat)
    requires r < job.ranks && n < |job.dict|
    ensures Program(job, r, n + 1) ==
      Program(job, r, n) + if HasTransfer(job.dict[n].value) then [TransferOf(job, r, job.dict[n].value)] else []
  {
    assert job.dict[..n + 1][..n] == job.dict[..n];
    if job.dict[n].value.Data? {
      var ts := Tensors(job.dict[..n + 1]);
      assert ts[..|ts| - 1] == Tensors(job.dict[..n]);
    }
  }

  lemma {:induction false} ProgramPrefix(job: Job, r: nat, n: nat, m: nat)
    requires r < job.ranks && n <= m <= |job.dict|
    ensures |Program(job, r, n)| <= |Program(job, r, m)|
    ensures Program(job, r, m)[..|Program(job, r, n)|] == Program(job, r, n)
  {
    if n < m {
      ProgramPrefix(job, r, n, m - 1);
      ProgramStep(job, r, m - 1);
    }
  }

  /** The transfer of entry n comes right after those of the entries before it. */
  lemma EntryTransfer(job: Job, r: nat, n: nat)
    requires r < job.ranks && n < |job.dict|
    ensures var all, here, after := Program(job, r, |job.dict|), |Program(job, r, n)|, |Program(job, r, n + 1)|;
      if HasTransfer(job.dict[n].value)
      then after == here + 1 <= |all| && all[here] == TransferOf(job, r, job.dict[n].value)
      else after == here <= |all|
  {
    ProgramStep(job, r, n);
    ProgramPrefix(job, r, n + 1, |job.dict|);
    var all, next := Program(job, r, |job.dict|), Program(job, r, n + 1);
    if HasTransfer(job.dict[n].value) { assert all[..|next|][|next| - 1] == next[|next| - 1]; }
  }

  /**
   * What a rank sends: the metadata of all entries on the CPU channel, then for each entry with a tensor
   * that is not empty one message on the channel of the tensor's device, with the rank's part of the data.
   */
  lemma ProgramIs(job: Job, r: nat, n: nat)
    requires r < job.ranks && n < |job.dict|
    ensures Program(job, r, 0) == [Transfer(Cpu, Object(Items(job.dict)))]
    ensures var v := job.dict[n].value;
      Program(job, r, n + 1) == Program(job, r, n) +
        if v.Data? && |v.tensor.data| > 0
        then [Transfer(v.tensor.device, Payload(v.tensor.dtype, Part(job, r, v.tensor.data)))] else []
  {
    ProgramStep(job, r, n);
  }

  // ---------------------------------------------------------------- the invariant

  predicate GathersAt(job: Job, n: nat)
    requires job.ranks >= 1 && n < |job.dict|
  {
    HasTransfer(job.dict[n].value) && Sliced(job, |job.dict[n].value.tensor.data|)
  }

  /** How many of the first n entries go through all_gather. */
  function Gathers(job: Job, n: nat): nat
    requires job.ranks >= 1 && n <= |job.dict|
  {
    if n == 0 then 0 else Gathers(job, n - 1) + if GathersAt(job, n - 1) then 1 else 0
  }

  lemma {:induction false} GathersMono(job: Job, n: nat, m: nat)
    requires job.ranks >= 1 && n <= m <= |job.dict|
    ensures Gathers(job, n) <= Gathers(job, m)
  {
    if n < m { GathersMono(job, n, m - 1); }
  }

  predicate ReceiverOk(job: Job, r: nat, rc: Receiver)
    requires r < job.ranks
  {
    match rc
    case Waiting => true
    case Failed => false
    case At(items, n, dict) => items == Items(job.dict) && n <= |job.dict| && dict == job.dict[..n]
    case Gathering(items, n, dict, slice) =>
      && items == Items(job.dict) && n < |job.dict| && dict == job.dict[..n]
      && GathersAt(job, n) && slice == Slice(job.dict[n].value.tensor.data, job.ranks, r)
  }

  /** How many transfers the receiver has taken. */
  function Received(job: Job, r: nat, rc: Receiver): nat
    requires r < job.ranks && ReceiverOk(job, r, rc)
  {
    match rc
    case Waiting => 0
    case At(items, n, dict) => |Program(job, r, n)|
    case Gathering(items, n, dict, slice) => |Program(job, r, n + 1)|
  }

  function Position(rc: Receiver): nat {
    match rc
    case At(items, n, dict) => n
    case Gathering(items, n, dict, slice) => n
    case _ => 0
  }

  /** How many collectives the receiver has been through. */
  function Passed(job: Job, rc: Receiver): nat
    requires job.ranks >= 1
  {
    if Position(rc) <= |job.dict| then Gathers(job, Position(rc)) else 0
  }

  /** Both channels hold exactly what was sent and not yet received. */
  predicate PairOk(job: Job, r: nat, p: Pair)
    requires r < job.ranks
  {
    && ReceiverOk(job, r, p.receiver)
    && Received(job, r, p.receiver) <= p.sent <= |Program(job, r, |job.dict|)|
    && var flying := Program(job, r, |job.dict|)[Received(job, r, p.receiver)..p.sent];
       p.cpu == On(Cpu, flying) && p.cuda == On(Cuda, flying)
  }

  /** All ranks have been through the same number of collectives. */
  predicate InStep(job: Job, s: State)
    requires job.ranks >= 1
  {
    forall r :: 0 <= r < |s| ==> Passed(job, s[r].receiver) == Passed(job, s[0].receiver)
  }

  predicate Inv(job: Job, s: State) {
    ValidJob(job) && |s| == job.ranks && InStep(job, s) && forall r :: 0 <= r < |s| ==> PairOk(job, r, s[r])
  }

  lemma InitInv(job: Job, s: State)
    requires ValidJob(job) && Init(job, s)
    ensures Inv(job, s)
  {
  }

  lemma SendPair(job: Job, r: nat, p: Pair)
    requires r < job.ranks && PairOk(job, r, p) && p.sent < |Program(job, r, |job.dict|)|
    ensures var t := Program(job, r, |job.dict|)[p.sent];
      PairOk(job, r, if t.device.Cpu? then p.(sent := p.sent + 1, cpu := p.cpu + [t.message])
                     else p.(sent := p.sent + 1, cuda := p.cuda + [t.message]))
  {
    var all := Program(job, r, |job.dict|);
    var from := Received(job, r, p.receiver);
    assert all[from..p.sent + 1] == all[from..p.sent] + [all[p.sent]];
    OnAppend(Cpu, all[from..p.sent], all[p.sent]);
    OnAppend(Cuda, all[from..p.sent], all[p.sent]);
  }

  lemma SendInv(job: Job, s: State, r: nat, room: nat)
    requires Inv(job, s) && CanSend(job, s, r, room)
    ensures Inv(job, Send(job, s, r, room))
  {
    SendPair(job, r, s[r]);
    var s' := Send(job, s, r, room);
    forall q | 0 <= q < |s| ensures PairOk(job, q, s'[q]) && s'[q].receiver == s[q].receiver {}
  }

  /** The next message of a rank is at the head of its channel, if it has been sent. */
  lemma Head(job: Job, r: nat, p: Pair)
    requires r < job.ranks && PairOk(job, r, p)
    ensures var all, from := Program(job, r, |job.dict|), Received(job, r, p.receiver);
      && (from < p.sent ==>
            var t, flying := all[from], all[from + 1..p.sent];
            && Channel(p, t.device) == [t.message] + On(t.device, flying)
            && forall d: Device :: d != t.device ==> Channel(p, d) == On(d, flying))
      && (from == p.sent ==> p.cpu == [] && p.cuda == [])
  {
    var all, from := Program(job, r, |job.dict|), Received(job, r, p.receiver);
    if from < p.sent { assert all[from..p.sent][1..] == all[from + 1..p.sent]; }
  }

  lemma FirstReceive(job: Job, r: nat, p: Pair)
    requires ValidJob(job) && r < job.ranks && PairOk(job, r, p) && p.receiver.Waiting? && p.cpu != []
    ensures p.cpu[0].Object? && PairOk(job, r, Receive(p, Cpu).(receiver := At(p.cpu[0].items, 0, [])))
  {
    Head(job, r, p);
    ProgramPrefix(job, r, 0, |job.dict|);
    var all := Program(job, r, |job.dict|);
    assert all[0] == Transfer(Cpu, Object(Items(job.dict)));
    assert Program(job, r, 0) == [all[0]];
  }

  /** An item without a transfer is stored as it stands. */
  lemma ReceivePlain(job: Job, r: nat, p: Pair)
    requires ValidJob(job) && r < job.ranks && PairOk(job, r, p) && p.receiver.At? && p.receiver.n < |job.dict|
    requires !HasTransfer(job.dict[p.receiver.n].value)
    ensures !Transferred(p.receiver.items[p.receiver.n].meta)
    ensures PairOk(job, r, ReceiveItem(job, p)) && ReceiveItem(job, p).receiver.At? && ReceiveItem(job, p).receiver.n == p.receiver.n + 1
  {
    var n := p.receiver.n;
    EntryTransfer(job, r, n);
    assert job.dict[..n + 1] == job.dict[..n] + [job.dict[n]];
    if job.dict[n].value.Data? { assert job.dict[n].value.tensor.data == []; }
  }

  /** The message at the head of the channel is the one for this item, and fits. */
  lemma HeadFits(job: Job, r: nat, p: Pair)
    requires ValidJob(job) && r < job.ranks && PairOk(job, r, p) && p.receiver.At? && p.receiver.n < |job.dict|
    requires HasTransfer(job.dict[p.receiver.n].value)
    requires Channel(p, job.dict[p.receiver.n].value.tensor.device) != []
    ensures var v, from := job.dict[p.receiver.n].value, Received(job, r, p.receiver);
      var t, flying := TransferOf(job, r, v), Program(job, r, |job.dict|)[from + 1..p.sent];
      && from < p.sent && Channel(p, t.device) == [t.message] + On(t.device, flying)
      && (forall d: Device :: d != t.device ==> Channel(p, d) == On(d, flying))
      && Fits(job, p.receiver.items[p.receiver.n].meta, t.message)
  {
    EntryTransfer(job, r, p.receiver.n);
    Head(job, r, p);
  }

  lemma ReceiveTransfer(job: Job, r: nat, p: Pair)
    requires ValidJob(job) && r < job.ranks && PairOk(job, r, p) && p.receiver.At? && p.receiver.n < |job.dict|
    requires HasTransfer(job.dict[p.receiver.n].value)
    requires Channel(p, job.dict[p.receiver.n].value.tensor.device) != []
    ensures PairOk(job, r, ReceiveItem(job, p))
    ensures var rc := ReceiveItem(job, p).receiver;
      if GathersAt(job, p.receiver.n) then rc.Gathering? && rc.n == p.receiver.n else rc.At? && rc.n == p.receiver.n + 1
  {
    var n := p.receiver.n;
    EntryTransfer(job, r, n);
    HeadFits(job, r, p);
    assert job.dict[..n + 1] == job.dict[..n] + [job.dict[n]];
  }

  lemma ReceiveItemOk(job: Job, r: nat, p: Pair)
    requires ValidJob(job) && r < job.ranks && PairOk(job, r, p) && p.receiver.At? && p.receiver.n < |p.receiver.items|
    requires Transferred(p.receiver.items[p.receiver.n].meta) ==> Channel(p, p.receiver.items[p.receiver.n].meta.device) != []
    ensures PairOk(job, r, ReceiveItem(job, p))
    ensures var rc := ReceiveItem(job, p).receiver;
      if GathersAt(job, p.receiver.n) then rc.Gathering? && rc.n == p.receiver.n else rc.At? && rc.n == p.receiver.n + 1
  {
    if HasTransfer(job.dict[p.receiver.n].value) { ReceiveTransfer(job, r, p); } else { ReceivePlain(job, r, p); }
  }

  /** The message at the head of the channel has the element type and the number of elements that the receiver has made room for. */
  lemma BufferFits(job: Job, r: nat, p: Pair)
    requires ValidJob(job) && r < job.ranks && PairOk(job, r, p) && p.receiver.At? && p.receiver.n < |p.receiver.items|
    requires Transferred(p.receiver.items[p.receiver.n].meta) && Channel(p, p.receiver.items[p.receiver.n].meta.device) != []
    ensures var m, msg := p.receiver.items[p.receiver.n].meta, Channel(p, p.receiver.items[p.receiver.n].meta.device)[0];
      && msg.Payload? && msg.dtype == m.dtype
      && |msg.data| == if job.grouped && Numel(m.size) % job.ranks == 0 then Numel(m.size) / job.ranks else Numel(m.size)
  {
    HeadFits(job, r, p);
    QuotIsDiv(Numel(p.receiver.items[p.receiver.n].meta.size), job.ranks);
  }

  lemma ReceiveInv(job: Job, s: State, r: nat)
    requires Inv(job, s) && CanReceive(job, s, r)
    ensures Inv(job, ReceiveStep(job, s, r))
  {
    ReceivePair(job, s, r);
    var s' := ReceiveStep(job, s, r);
    forall q | 0 <= q < |s| ensures PairOk(job, q, s'[q]) {}
  }

  /** A receive keeps the rank's own pair right, and passes no collective. */
  lemma ReceivePair(job: Job, s: State, r: nat)
    requires Inv(job, s) && CanReceive(job, s, r)
    ensures var p := ReceiveStep(job, s, r)[r];
      PairOk(job, r, p) && Passed(job, p.receiver) == Passed(job, s[r].receiver)
  {
    if s[r].receiver.Waiting? { FirstReceive(job, r, s[r]); } else { ReceiveItemOk(job, r, s[r]); }
  }

  lemma SameCount(job: Job, n: nat, m: nat)
    requires job.ranks >= 1 && n < |job.dict| && m < |job.dict| && GathersAt(job, n) && GathersAt(job, m)
    requires Gathers(job, n) == Gathers(job, m)
    ensures n == m
  {
    GathersGrow(job, n, m);
    GathersGrow(job, m, n);
  }

  lemma GathersGrow(job: Job, n: nat, m: nat)
    requires job.ranks >= 1 && n < |job.dict| && m < |job.dict|
    ensures n < m && GathersAt(job, n) ==> Gathers(job, n) < Gathers(job, m)
  {
    if n < m { GathersMono(job, n + 1, m); }
  }

  /** Inside the collective all ranks are at the same entry. */
  lemma SameEntry(job: Job, s: State, r: nat, q: nat)
    requires Inv(job, s) && r < |s| && q < |s| && s[r].receiver.Gathering? && s[q].receiver.Gathering?
    ensures s[r].receiver.n == s[q].receiver.n
  {
    assert PairOk(job, r, s[r]) && PairOk(job, q, s[q]);
    SameCount(job, s[r].receiver.n, s[q].receiver.n);
  }

  /** What the collective delivers is the tensor of the entry at which all ranks are. */
  lemma GatherWhole(job: Job, s: State)
    requires Inv(job, s) && CanGather(s)
    ensures s[0].receiver.n < |job.dict| && job.dict[s[0].receiver.n].value.Data?
    ensures Concat(Slices(s)) == job.dict[s[0].receiver.n].value.tensor.data
  {
    var n := s[0].receiver.n;
    assert PairOk(job, 0, s[0]);
    forall r | 0 <= r < |s| ensures Slices(s)[r] == Slice(job.dict[n].value.tensor.data, job.ranks, r) {
      SameEntry(job, s, r, 0);
      assert PairOk(job, r, s[r]);
    }
    GatherIsWhole(job.dict[n].value.tensor.data, job.ranks, Slices(s));
  }

  lemma GatherAt(job: Job, s: State, r: nat)
    requires Inv(job, s) && CanGather(s) && r < |s|
    ensures var p, n := Gather(s)[r], s[0].receiver.n;
      PairOk(job, r, p) && p.receiver.At? && p.receiver.n == n + 1 <= |job.dict| && p.sent == s[r].sent
  {
    GatherWhole(job, s);
    SameEntry(job, s, r, 0);
    assert PairOk(job, r, s[r]);
    GatherPair(job, r, s[r]);
  }

  lemma GatherInv(job: Job, s: State)
    requires Inv(job, s) && CanGather(s)
    ensures Inv(job, Gather(s))
  {
    var s' := Gather(s);
    forall r | 0 <= r < |s| ensures PairOk(job, r, s'[r]) { GatherAt(job, s, r); }
    GatherInStep(job, s, s');
  }

  lemma GatherInStep(job: Job, s: State, s': State)
    requires Inv(job, s) && CanGather(s) && s' == Gather(s)
    ensures InStep(job, s')
  {
    var next := s[0].receiver.n + 1;
    forall r | 0 <= r < |s'| ensures Position(s'[r].receiver) == next <= |job.dict| { GatherAt(job, s, r); }
  }

  lemma GatherPair(job: Job, r: nat, p: Pair)
    requires ValidJob(job) && r < job.ranks && PairOk(job, r, p) && p.receiver.Gathering?
    ensures p.receiver.items[p.receiver.n].meta.TensorMeta?
    ensures var p' := p.(receiver := Gathered(p.receiver, job.dict[p.receiver.n].value.tensor.data));
      PairOk(job, r, p') && p'.receiver.At? && p'.receiver.n == p.receiver.n + 1
  {
    var n := p.receiver.n;
    assert job.dict[..n + 1] == job.dict[..n] + [job.dict[n]];
  }

  lemma HandInv(job: Job, s: State, r: nat)
    requires Inv(job, s) && CanHand(job, s, r)
    ensures Inv(job, Send(job, s, r, 1)) && CanReceive(job, Send(job, s, r, 1), r) && Inv(job, Hand(job, s, r))
  {
    SendInv(job, s, r, 1);
    ReceiveInv(job, Send(job, s, r, 1), r);
  }

  lemma NextInv(job: Job, s: State, s': State, room: nat)
    requires Inv(job, s) && Next(job, s, s', room)
    ensures Inv(job, s')
  {
    if r: nat :| CanSend(job, s, r, room) && s' == Send(job, s, r, room) { SendInv(job, s, r, room); }
    else if r: nat :| CanReceive(job, s, r) && s' == ReceiveStep(job, s, r) { ReceiveInv(job, s, r); }
    else if r: nat :| CanHand(job, s, r) && s' == Hand(job, s, r) { HandInv(job, s, r); }
    else { GatherInv(job, s); }
  }

  ghost predicate StepAt(job: Job, c: seq<State>, i: nat, room: nat) {
    i + 1 < |c| ==> Next(job, c[i], c[i + 1], room)
  }

  ghost predicate IsRun(job: Job, c: seq<State>, room: nat) {
    |c| > 0 && Init(job, c[0]) && forall i: nat :: StepAt(job, c, i, room)
  }

  lemma {:induction false} RunInv(job: Job, c: seq<State>, k: nat, room: nat)
    requires ValidJob(job) && IsRun(job, c, room) && k < |c|
    ensures Inv(job, c[k])
  {
    if k == 0 { InitInv(job, c[0]); } else {
      RunInv(job, c, k - 1, room);
      assert StepAt(job, c, k - 1, room);
      NextInv(job, c[k - 1], c[k], room);
    }
  }

  // ---------------------------------------------------------------- results

  predicate Done(rc: Receiver) {
    rc.At? && rc.n == |rc.items|
  }

  /**
   * No receiver ever meets a message that does not fit its buffer; one that has finished holds the senders'
   * dictionary, key by key in the same order, and has emptied both channels.
   */
  lemma Rebuilt(job: Job, c: seq<State>, k: nat, r: nat, room: nat)
    requires ValidJob(job) && IsRun(job, c, room) && k < |c| && r < job.ranks
    ensures r < |c[k]| && !c[k][r].receiver.Failed?
    ensures Done(c[k][r].receiver) ==> c[k][r].receiver.dict == job.dict && c[k][r].cpu == [] && c[k][r].cuda == []
  {
    RunInv(job, c, k, room);
    var p := c[k][r];
    assert PairOk(job, r, p);
    if Done(p.receiver) { Head(job, r, p); }
  }

  /** A receiver that waits for a message finds its sender ready to hand it over, if it is not in the channel. */
  lemma PairMoves(job: Job, s: State, r: nat)
    requires Inv(job, s) && r < |s| && !Done(s[r].receiver) && !s[r].receiver.Gathering?
    ensures CanReceive(job, s, r) || CanHand(job, s, r)
  {
    var p := s[r];
    var from := Received(job, r, p.receiver);
    Head(job, r, p);
    if p.receiver.Waiting? {
      ProgramPrefix(job, r, 0, |job.dict|);
      assert Program(job, r, |job.dict|)[0] == Transfer(Cpu, Object(Items(job.dict)));
    } else {
      EntryTransfer(job, r, p.receiver.n);
    }
  }

  /** Until all receivers have finished, something can move, also when every send waits for its receive. */
  lemma NoDeadlock(job: Job, s: State, room: nat) returns (s': State)
    requires Inv(job, s) && exists r :: 0 <= r < |s| && !Done(s[r].receiver)
    ensures Next(job, s, s', room)
  {
    if r: nat :| r < |s| && !Done(s[r].receiver) && !s[r].receiver.Gathering? {
      PairMoves(job, s, r);
      s' := if CanReceive(job, s, r) then ReceiveStep(job, s, r) else Hand(job, s, r);
    } else {
      var r: nat :| r < |s| && !Done(s[r].receiver);
      AllGather(job, s, r);
      s' := Gather(s);
    }
  }

  /** A rank inside the collective never waits for one that has finished. */
  lemma AllGather(job: Job, s: State, r: nat)
    requires Inv(job, s) && r < |s| && s[r].receiver.Gathering?
    requires forall q :: 0 <= q < |s| ==> Done(s[q].receiver) || s[q].receiver.Gathering?
    ensures CanGather(s)
  {
    forall q | 0 <= q < |s|
      ensures s[q].receiver.Gathering? && s[q].receiver.n < |s[q].receiver.items| && s[q].receiver.items[s[q].receiver.n].meta.TensorMeta?
    {
      assert PairOk(job, q, s[q]) && PairOk(job, r, s[r]);
      GathersMono(job, s[r].receiver.n + 1, |job.dict|);
      assert Passed(job, s[q].receiver) == Passed(job, s[r].receiver);
    }
  }

  // ---------------------------------------------------------------- termination

  function ReceiverLeft(items: nat, rc: Receiver): int {
    match rc
    case Waiting => 2 * items + 1
    case At(_, n, _) => 2 * (items - n)
    case Gathering(_, n, _, _) => 2 * (items - n) - 1
    case Failed => 0
  }

  /** What a rank's sender and receiver still have to do. */
  function Left(job: Job, r: nat, p: Pair): int
    requires r < job.ranks
  {
    |Program(job, r, |job.dict|)| - p.sent + ReceiverLeft(|job.dict|, p.receiver)
  }

  function Lefts(job: Job, s: State): (l: seq<int>)
    requires |s| == job.ranks
    ensures |l| == |s|
  {
    seq(|s|, r requires 0 <= r < |s| => Left(job, r, s[r]))
  }

  function Total(l: seq<int>): int {
    if l == [] then 0 else Total(l[..|l| - 1]) + l[|l| - 1]
  }

  lemma {:induction false} TotalDrops(l: seq<int>, l': seq<int>)
    requires |l'| == |l| && forall r :: 0 <= r < |l| ==> l'[r] <= l[r]
    ensures Total(l') <= Total(l)
    ensures (exists r :: 0 <= r < |l| && l'[r] < l[r]) ==> Total(l') < Total(l)
  {
    if l != [] { TotalDrops(l[..|l| - 1], l'[..|l| - 1]); }
  }

  lemma {:induction false} TotalNotNegative(l: seq<int>)
    requires forall r :: 0 <= r < |l| ==> l[r] >= 0
    ensures Total(l) >= 0
  {
    if l != [] { TotalNotNegative(l[..|l| - 1]); }
  }

  lemma LeftNotNegative(job: Job, s: State)
    requires Inv(job, s)
    ensures Total(Lefts(job, s)) >= 0
  {
    forall r | 0 <= r < |s| ensures Lefts(job, s)[r] >= 0 { assert PairOk(job, r, s[r]); }
    TotalNotNegative(Lefts(job, s));
  }

  lemma OneDrops(job: Job, s: State, s': State, r: nat)
    requires r < |s| == job.ranks && |s'| == |s| && s' == s[r := s'[r]]
    requires Left(job, r, s'[r]) < Left(job, r, s[r])
    ensures Total(Lefts(job, s')) < Total(Lefts(job, s))
  {
    assert Lefts(job, s')[r] < Lefts(job, s)[r];
    TotalDrops(Lefts(job, s), Lefts(job, s'));
  }

  lemma SendDrops(job: Job, s: State, r: nat, room: nat)
    requires Inv(job, s) && CanSend(job, s, r, room)
    ensures Total(Lefts(job, Send(job, s, r, room))) < Total(Lefts(job, s))
  {
    OneDrops(job, s, Send(job, s, r, room), r);
  }

  lemma ReceiveDrops(job: Job, s: State, r: nat)
    requires Inv(job, s) && CanReceive(job, s, r)
    ensures Total(Lefts(job, ReceiveStep(job, s, r))) < Total(Lefts(job, s))
  {
    assert PairOk(job, r, s[r]);
    if s[r].receiver.At? { ReceiveItemOk(job, r, s[r]); } else { FirstReceive(job, r, s[r]); }
    OneDrops(job, s, ReceiveStep(job, s, r), r);
  }

  lemma GatherDropsAt(job: Job, s: State, r: nat)
    requires Inv(job, s) && CanGather(s) && r < |s|
    ensures Left(job, r, Gather(s)[r]) < Left(job, r, s[r])
  {
    GatherAt(job, s, r);
    SameEntry(job, s, r, 0);
  }

  lemma GatherDrops(job: Job, s: State)
    requires Inv(job, s) && CanGather(s)
    ensures Total(Lefts(job, Gather(s))) < Total(Lefts(job, s))
  {
    forall r | 0 <= r < |s| ensures Lefts(job, Gather(s))[r] < Lefts(job, s)[r] { GatherDropsAt(job, s, r); }
    assert Lefts(job, Gather(s))[0] < Lefts(job, s)[0];
    TotalDrops(Lefts(job, s), Lefts(job, Gather(s)));
  }

  /** Every step brings the end nearer. */
  lemma StepsEnd(job: Job, s: State, s': State, room: nat)
    requires Inv(job, s) && Next(job, s, s', room)
    ensures Inv(job, s') && 0 <= Total(Lefts(job, s')) < Total(Lefts(job, s))
  {
    NextInv(job, s, s', room);
    LeftNotNegative(job, s');
    if r: nat :| CanSend(job, s, r, room) && s' == Send(job, s, r, room) { SendDrops(job, s, r, room); }
    else if r: nat :| CanReceive(job, s, r) && s' == ReceiveStep(job, s, r) { ReceiveDrops(job, s, r); }
    else if r: nat :| CanHand(job, s, r) && s' == Hand(job, s, r) {
      HandInv(job, s, r);
      SendDrops(job, s, r, 1);
      ReceiveDrops(job, Send(job, s, r, 1), r);
    }
    else { GatherDrops(job, s); }
  }
}
