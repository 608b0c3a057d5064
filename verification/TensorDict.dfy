/**
 * send_tensor_dict and recv_tensor_dict between two pipeline stages: one sender and one receiver for each
 * rank of the all-gather group, a FIFO channel per device type between the two, every interleaving.
 */
module TensorDict {
  import opened Arithmetic

  datatype Device = Cpu | Cuda
  datatype Tensor = Tensor(device: Device, dtype: nat, size: seq<nat>, data: seq<int>)
  datatype Value = Data(tensor: Tensor) | Other(value: int)
  datatype Entry = Entry(key: string, value: Value)

  datatype Meta = TensorMeta(device: Device, dtype: nat, size: seq<nat>) | Plain(value: int)
  datatype Item = Item(key: string, meta: Meta)

  datatype Message = Object(items: seq<Item>) | Payload(dtype: nat, data: seq<int>)
  datatype Transfer = Transfer(device: Device, message: Message)

  /** The dictionary that all senders hold, and the all-gather group; without a group there is one rank. */
  datatype Job = Job(dict: seq<Entry>, ranks: nat, grouped: bool)

  function Numel(size: seq<nat>): nat {
    if size == [] then 1 else size[0] * Numel(size[1..])
  }

  lemma {:induction false} NumelJoin(a: seq<nat>, b: seq<nat>)
    ensures Numel(a + b) == Numel(a) * Numel(b)
  {
    if a == [] {
      assert a + b == b;
    } else {
      assert (a + b)[1..] == a[1..] + b;
      NumelJoin(a[1..], b);
    }
  }

  lemma NumelOne(n: nat)
    ensures Numel([]) == 1 && Numel([n]) == n
  {
    assert [n][1..] == [];
  }

  predicate ValidTensor(t: Tensor) {
    |t.data| == Numel(t.size)
  }

  predicate ValidJob(job: Job) {
    && job.ranks >= 1 && (!job.grouped ==> job.ranks == 1)
    && forall i :: 0 <= i < |job.dict| && job.dict[i].value.Data? ==> ValidTensor(job.dict[i].value.tensor)
  }

  // ---------------------------------------------------------------- slices

  /** reshape(ranks, -1)[r] of a tensor whose size is a multiple of ranks */
  function Slice(data: seq<int>, ranks: nat, r: nat): (s: seq<int>)
    requires r < ranks && Rem(|data|, ranks) == 0
    ensures |s| == Quot(|data|, ranks)
  {
    var k := Quot(|data|, ranks);
    SliceFits(|data|, ranks, r);
    data[Flat(r, 0, k)..Flat(r + 1, 0, k)]
  }

  lemma SliceFits(n: nat, ranks: nat, r: nat)
    requires r < ranks && Rem(n, ranks) == 0
    ensures var k := Quot(n, ranks); Flat(r, 0, k) + k == Flat(r + 1, 0, k) <= n == Flat(ranks, 0, k)
  {
    var k := Quot(n, ranks);
    WholeSlices(n, ranks);
    FlatIsProduct(r, 0, k);
    FlatIsProduct(r + 1, 0, k);
    Successor(r, k);
    FlatIsProduct(ranks, 0, k);
    MulMono(r + 1, ranks, k);
  }

  lemma WholeSlices(n: nat, ranks: nat)
    requires ranks >= 1 && Rem(n, ranks) == 0
    ensures Flat(ranks, 0, Quot(n, ranks)) == n
  {
    FlatOfDigits(n, ranks);
    FlatIsProduct(ranks, 0, Quot(n, ranks));
    FlatIsProduct(Quot(n, ranks), 0, ranks);
  }

  function Concat(parts: seq<seq<int>>): seq<int> {
    if parts == [] then [] else Concat(parts[..|parts| - 1]) + parts[|parts| - 1]
  }

  /** The slices of all ranks, in rank order, are the tensor. */
  lemma {:induction false} ConcatSlices(data: seq<int>, ranks: nat, parts: seq<seq<int>>)
    requires ranks >= 1 && Rem(|data|, ranks) == 0 && |parts| <= ranks
    requires forall r :: 0 <= r < |parts| ==> parts[r] == Slice(data, ranks, r)
    ensures Flat(|parts|, 0, Quot(|data|, ranks)) <= |data|
    ensures Concat(parts) == data[..Flat(|parts|, 0, Quot(|data|, ranks))]
  {
    var n := |parts|;
    if n > 0 {
      ConcatSlices(data, ranks, parts[..n - 1]);
      SliceFits(|data|, ranks, n - 1);
    }
  }

  lemma GatherIsWhole(data: seq<int>, ranks: nat, parts: seq<seq<int>>)
    requires ranks >= 1 && Rem(|data|, ranks) == 0 && |parts| == ranks
    requires forall r :: 0 <= r < |parts| ==> parts[r] == Slice(data, ranks, r)
    ensures Concat(parts) == data
  {
    ConcatSlices(data, ranks, parts);
    WholeSlices(|data|, ranks);
  }

  // ---------------------------------------------------------------- the sender

  function MetaOf(v: Value): Meta {
    match v
    case Data(t) => TensorMeta(t.device, t.dtype, t.size)
    case Other(x) => Plain(x)
  }

  function Items(dict: seq<Entry>): (items: seq<Item>)
    ensures |items| == |dict|
    ensures forall i :: 0 <= i < |dict| ==> items[i] == Item(dict[i].key, MetaOf(dict[i].value))
  {
    seq(|dict|, i requires 0 <= i < |dict| => Item(dict[i].key, MetaOf(dict[i].value)))
  }

  function Tensors(dict: seq<Entry>): seq<Tensor> {
    if dict == [] then [] else
    var e, rest := dict[|dict| - 1], Tensors(dict[..|dict| - 1]);
    if e.value.Data? then rest + [e.value.tensor] else rest
  }

  predicate Sliced(job: Job, numel: nat)
    requires job.ranks >= 1
  {
    job.grouped && Rem(numel, job.ranks) == 0
  }

  function Part(job: Job, r: nat, data: seq<int>): seq<int>
    requires r < job.ranks
  {
    if Sliced(job, |data|) then Slice(data, job.ranks, r) else data
  }

  /** In a group whose size divides the tensor's, rank r's part is the r-th of as many equal runs; otherwise it is the tensor. */
  lemma PartIs(job: Job, r: nat, data: seq<int>)
    requires r < job.ranks
    ensures var sliced := job.grouped && |data| % job.ranks == 0;
      var from, size := if sliced then r * (|data| / job.ranks) else 0, if sliced then |data| / job.ranks else |data|;
      && 0 <= from && from + size <= |data| && Part(job, r, data) == data[from..from + size]
  {
    QuotIsDiv(|data|, job.ranks);
    if Sliced(job, |data|) {
      SliceFits(|data|, job.ranks, r);
      FlatIsProduct(r, 0, Quot(|data|, job.ranks));
    }
  }

  function Sends(job: Job, r: nat, tensors: seq<Tensor>): seq<Transfer>
    requires r < job.ranks
  {
    if tensors == [] then [] else
    var t, rest := tensors[|tensors| - 1], Sends(job, r, tensors[..|tensors| - 1]);
    if |t.data| == 0 then rest else rest + [Transfer(t.device, Payload(t.dtype, Part(job, r, t.data)))]
  }

  /** What rank r sends for the first n entries: the metadata of all, then the non-empty tensors among them. */
  function Program(job: Job, r: nat, n: nat): seq<Transfer>
    requires r < job.ranks && n <= |job.dict|
  {
    [Transfer(Cpu, Object(Items(job.dict)))] + Sends(job, r, Tensors(job.dict[..n]))
  }

  method SplitTensorDict(dict: seq<Entry>) returns (items: seq<Item>, tensors: seq<Tensor>)
    ensures items == Items(dict) && tensors == Tensors(dict)
  {
    items, tensors := [], [];
    for i := 0 to |dict|
      invariant items == Items(dict)[..i] && tensors == Tensors(dict[..i])
    {
      assert dict[..i + 1][..i] == dict[..i];
      var value := dict[i].value;
      if value.Data? {
        items := items + [Item(dict[i].key, TensorMeta(value.tensor.device, value.tensor.dtype, value.tensor.size))];
        tensors := tensors + [value.tensor];
      } else {
        items := items + [Item(dict[i].key, Plain(value.value))];
      }
    }
    assert dict[..|dict|] == dict;
  }

  method TakeSlice(data: seq<int>, ranks: nat, r: nat) returns (part: seq<int>)
    requires r < ranks && Rem(|data|, ranks) == 0
    ensures part == Slice(data, ranks, r)
  {
    QuotIsDiv(|data|, ranks);
    var k := |data| / ranks;
    SliceFits(|data|, ranks, r);
    FlatIsProduct(r, 0, k);
    part := data[r * k..r * k + k];
  }

  /** The transfers that send_tensor_dict starts, in order. */
  method SendTensorDict(job: Job, r: nat) returns (out: seq<Transfer>)
    requires r < job.ranks
    ensures out == Program(job, r, |job.dict|)
  {
    var items, tensors := SplitTensorDict(job.dict);
    out := [Transfer(Cpu, Object(items))];
    for i := 0 to |tensors|
      invariant out == [Transfer(Cpu, Object(items))] + Sends(job, r, tensors[..i])
    {
      assert tensors[..i + 1][..i] == tensors[..i];
      var t := tensors[i];
      if |t.data| != 0 {
        var part := t.data;
        QuotIsDiv(|t.data|, job.ranks);
        if job.grouped && |t.data| % job.ranks == 0 { part := TakeSlice(t.data, job.ranks, r); }
        out := out + [Transfer(t.device, Payload(t.dtype, part))];
      }
    }
    assert tensors[..|tensors|] == tensors;
    assert job.dict[..|job.dict|] == job.dict;
  }

  // ---------------------------------------------------------------- the receiver, and the steps of all

  /** Where a receiver is: before the metadata, at item n, inside all_gather for item n, or stuck on a wrong message. */
  datatype Receiver =
    | Waiting
    | At(items: seq<Item>, n: nat, dict: seq<Entry>)
    | Gathering(items: seq<Item>, n: nat, dict: seq<Entry>, slice: seq<int>)
    | Failed

  /** sent: how many transfers the sender of this rank has started. */
  datatype Pair = Pair(sent: nat, cpu: seq<Message>, cuda: seq<Message>, receiver: Receiver)

  type State = seq<Pair>

  function Channel(p: Pair, d: Device): seq<Message> {
    if d.Cpu? then p.cpu else p.cuda
  }

  function Receive(p: Pair, d: Device): Pair
    requires Channel(p, d) != []
  {
    if d.Cpu? then p.(cpu := p.cpu[1..]) else p.(cuda := p.cuda[1..])
  }

  /** A sender waits while the channel holds `room` messages, which may be none. */
  predicate CanSend(job: Job, s: State, r: nat, room: nat) {
    && r < |s| == job.ranks && s[r].sent < |Program(job, r, |job.dict|)|
    && |Channel(s[r], Program(job, r, |job.dict|)[s[r].sent].device)| < room
  }

  function Send(job: Job, s: State, r: nat, room: nat): State
    requires CanSend(job, s, r, room)
  {
    var p, t := s[r], Program(job, r, |job.dict|)[s[r].sent];
    s[r := if t.device.Cpu? then p.(sent := p.sent + 1, cpu := p.cpu + [t.message])
           else p.(sent := p.sent + 1, cuda := p.cuda + [t.message])]
  }

  function Store(rc: Receiver, v: Value): Receiver
    requires (rc.At? || rc.Gathering?) && rc.n < |rc.items|
  {
    At(rc.items, rc.n + 1, rc.dict + [Entry(rc.items[rc.n].key, v)])
  }

  /** Item n is a tensor that takes part in a transfer. */
  predicate Transferred(m: Meta) {
    m.TensorMeta? && Numel(m.size) != 0
  }

  predicate CanReceive(job: Job, s: State, r: nat) {
    && r < |s| == job.ranks
    && match s[r].receiver
       case Waiting => s[r].cpu != []
       case At(items, n, dict) =>
         n < |items| && (Transferred(items[n].meta) ==> Channel(s[r], items[n].meta.device) != [])
       case _ => false
  }

  /** The buffer handed to irecv fits the message. */
  predicate Fits(job: Job, m: Meta, msg: Message)
    requires job.ranks >= 1 && m.TensorMeta?
  {
    var numel := Numel(m.size);
    msg.Payload? && msg.dtype == m.dtype && |msg.data| == if Sliced(job, numel) then Quot(numel, job.ranks) else numel
  }

  function ReceiveItem(job: Job, p: Pair): Pair
    requires job.ranks >= 1 && p.receiver.At? && p.receiver.n < |p.receiver.items|
    requires Transferred(p.receiver.items[p.receiver.n].meta) ==> Channel(p, p.receiver.items[p.receiver.n].meta.device) != []
  {
    var rc, m := p.receiver, p.receiver.items[p.receiver.n].meta;
    match m
    case Plain(v) => p.(receiver := Store(rc, Other(v)))
    case TensorMeta(d, dtype, size) =>
      if Numel(size) == 0 then p.(receiver := Store(rc, Data(Tensor(d, dtype, size, [])))) else
      var msg := Channel(p, d)[0];
      Receive(p, d).(receiver :=
        if !Fits(job, m, msg) then Failed
        else if Sliced(job, Numel(size)) then Gathering(rc.items, rc.n, rc.dict, msg.data)
        else Store(rc, Data(Tensor(d, dtype, size, msg.data))))
  }

  function ReceiveStep(job: Job, s: State, r: nat): State
    requires CanReceive(job, s, r)
  {
    var p := s[r];
    if p.receiver.Waiting? then
      s[r := Receive(p, Cpu).(receiver := if p.cpu[0].Object? then At(p.cpu[0].items, 0, []) else Failed)]
    else s[r := ReceiveItem(job, p)]
  }

  /** The receiver's next receive is from the channel of this device type. */
  predicate Expects(rc: Receiver, d: Device) {
    match rc
    case Waiting => d.Cpu?
    case At(items, n, dict) => n < |items| && Transferred(items[n].meta) && items[n].meta.device == d
    case _ => false
  }

  /** A send may also wait for its receive and hand the message over without a channel in between. */
  predicate CanHand(job: Job, s: State, r: nat) {
    CanSend(job, s, r, 1) && Expects(s[r].receiver, Program(job, r, |job.dict|)[s[r].sent].device)
  }

  function Hand(job: Job, s: State, r: nat): State
    requires CanHand(job, s, r)
  {
    ReceiveStep(job, Send(job, s, r, 1), r)
  }

  /** The collective completes when every rank has entered it, whichever item each one is at. */
  predicate CanGather(s: State) {
    |s| > 0 && forall r :: 0 <= r < |s| ==>
      s[r].receiver.Gathering? && s[r].receiver.n < |s[r].receiver.items| && s[r].receiver.items[s[r].receiver.n].meta.TensorMeta?
  }

  function Slices(s: State): seq<seq<int>>
    requires CanGather(s)
  {
    seq(|s|, r requires 0 <= r < |s| => s[r].receiver.slice)
  }

  function Gathered(rc: Receiver, all: seq<int>): Receiver
    requires rc.Gathering? && rc.n < |rc.items| && rc.items[rc.n].meta.TensorMeta?
  {
    var m := rc.items[rc.n].meta;
    if |all| != Numel(m.size) then Failed else Store(rc, Data(Tensor(m.device, m.dtype, m.size, all)))
  }

  function Gather(s: State): State
    requires CanGather(s)
  {
    seq(|s|, r requires 0 <= r < |s| => s[r].(receiver := Gathered(s[r].receiver, Concat(Slices(s)))))
  }

  ghost predicate Next(job: Job, s: State, s': State, room: nat) {
    || (exists r: nat :: CanSend(job, s, r, room) && s' == Send(job, s, r, room))
    || (exists r: nat :: CanReceive(job, s, r) && s' == ReceiveStep(job, s, r))
    || (exists r: nat :: CanHand(job, s, r) && s' == Hand(job, s, r))
    || (CanGather(s) && s' == Gather(s))
  }

  predicate Init(job: Job, s: State) {
    |s| == job.ranks && forall r :: 0 <= r < |s| ==> s[r] == Pair(0, [], [], Waiting)
  }
}
