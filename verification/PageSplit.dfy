/** The marking and copying kernels, the persistent buffers, and runs of _split_kv_pages_to_64. */
module PageSplit {
  import opened Wrappers
  import opened Arithmetic
  import opened Rows
  import opened Stores
  import opened KvPages

  const BLOCK: nat := 1024

  // ---------------------------------------------------------------- kernels

  /** Page p holds a token named by the indices; negative entries name nothing. */
  predicate Touched(indices: seq<int>, tokens: nat, p: nat)
    requires tokens >= 1
  {
    exists i :: 0 <= i < |indices| && indices[i] >= 0 && indices[i] / tokens == p
  }

  /** _page_mark_kernel on a mask that has just been cleared. */
  method MarkPages(indices: seq<int>, mask: array<byte>, tokens: nat, pages: nat)
    requires tokens >= 1 && pages <= mask.Length
    requires forall i :: 0 <= i < |indices| && indices[i] >= 0 ==> indices[i] / tokens < pages
    modifies mask
    ensures forall p :: 0 <= p < pages ==> (mask[p] != 0 <==> Touched(indices, tokens, p))
    ensures forall p :: pages <= p < mask.Length ==> mask[p] == old(mask[p])
  {
    forall p | 0 <= p < pages { mask[p] := 0; }
    for i := 0 to |indices|
      invariant forall p :: 0 <= p < pages ==> (mask[p] != 0 <==> Touched(indices[..i], tokens, p))
      invariant forall p :: pages <= p < mask.Length ==> mask[p] == old(mask[p])
    {
      assert indices[..i + 1] == indices[..i] + [indices[i]];
      forall p: nat | Touched(indices[..i], tokens, p) ensures Touched(indices[..i + 1], tokens, p) {
        var k :| 0 <= k < i && indices[k] >= 0 && indices[k] / tokens == p;
        assert indices[..i + 1][k] == indices[k];
      }
      if indices[i] >= 0 {
        assert indices[..i + 1][i] / tokens == indices[i] / tokens;
        mask[indices[i] / tokens] := 1;
      }
    }
    assert indices[..|indices|] == indices;
  }

  /** A run of lanes copied block by block, the last block masked. */
  method CopyLanes(src: seq<Lane>, from: nat, dst: array<Lane>, to: nat, n: nat)
    requires from + n <= |src| && to + n <= dst.Length
    modifies dst
    ensures dst[..] == Patched(old(dst[..]), to, src[from..from + n])
  {
    var start := 0;
    ghost var was := dst[..];
    while start < n
      invariant 0 <= start <= n
      invariant dst[..] == Patched(was, to, src[from..from + start])
    {
      var stop := Min(start + BLOCK, n);
      CopyBlock(src, from, dst, to, start, stop, was);
      start := stop;
    }
  }

  /** One turn of the copy loop. */
  method CopyBlock(src: seq<Lane>, from: nat, dst: array<Lane>, to: nat, start: nat, stop: nat, ghost was: seq<Lane>)
    requires start <= stop && from + stop <= |src| && to + stop <= dst.Length == |was|
    requires dst[..] == Patched(was, to, src[from..from + start])
    modifies dst
    ensures dst[..] == Patched(was, to, src[from..from + stop])
  {
    CopyIn(dst, to + start, src[from + start..from + stop]);
    PatchedMore(was, to, src[from..from + start], src[from + start..from + stop]);
    Joined(src, from, start, stop);
  }

  lemma Joined(src: seq<Lane>, from: nat, start: nat, stop: nat)
    requires start <= stop && from + stop <= |src|
    ensures src[from..from + start] + src[from + start..from + stop] == src[from..from + stop]
  {
  }

  /** One program of _page_split_kernel: destination page d from sub-page d % ratio of source page d / ratio. */
  method SplitProgram(s: Source, dst: array<Lane>, d: nat)
    requires ValidSource(s) && d < s.pages * s.ratio && (d + 1) * PAGE_LANES <= dst.Length
    modifies dst
    ensures dst[..] == old(dst[..d * PAGE_LANES]) + SplitPage(s, d, old(Page(dst[..], d))) + old(dst[(d + 1) * PAGE_LANES..])
  {
    PageInside(s, d);
    ghost var was := dst[..];
    CopyPage(s.mem, DataFrom(s, d), ScaleFrom(s, d), dst, d * PAGE_LANES);
    PagePatched(was, d, UsedLanes(s, d));
  }

  /** What the program loads. */
  function UsedLanes(s: Source, d: nat): (u: seq<Lane>)
    requires ValidSource(s) && d < s.pages * s.ratio
    ensures |u| == PAGE_USED
  {
    PageInside(s, d);
    s.mem[DataFrom(s, d)..DataFrom(s, d) + PAGE_DATA] + s.mem[ScaleFrom(s, d)..ScaleFrom(s, d) + TOKENS]
  }

  /** The two copy loops of a program. */
  method CopyPage(src: seq<Lane>, dataFrom: nat, scaleFrom: nat, dst: array<Lane>, to: nat)
    requires dataFrom + PAGE_DATA <= |src| && scaleFrom + TOKENS <= |src| && to + PAGE_USED <= dst.Length
    modifies dst
    ensures dst[..] == Patched(old(dst[..]), to, src[dataFrom..dataFrom + PAGE_DATA] + src[scaleFrom..scaleFrom + TOKENS])
  {
    ghost var was := dst[..];
    CopyLanes(src, dataFrom, dst, to, PAGE_DATA);
    CopyLanes(src, scaleFrom, dst, to + PAGE_DATA, TOKENS);
    PatchedMore(was, to, src[dataFrom..dataFrom + PAGE_DATA], src[scaleFrom..scaleFrom + TOKENS]);
  }

  /** Writing the used lanes of a page leaves its padding and all other pages. */
  lemma PagePatched(mem: seq<Lane>, d: nat, used: seq<Lane>)
    requires (d + 1) * PAGE_LANES <= |mem| && |used| == PAGE_USED
    ensures Patched(mem, d * PAGE_LANES, used)
      == mem[..d * PAGE_LANES] + (used + Page(mem, d)[PAGE_USED..]) + mem[(d + 1) * PAGE_LANES..]
  {
    Successor(d, PAGE_LANES);
    var at, end := d * PAGE_LANES, (d + 1) * PAGE_LANES;
    assert Page(mem, d)[PAGE_USED..] == mem[at + PAGE_USED..end];
    assert mem[at + PAGE_USED..] == mem[at + PAGE_USED..end] + mem[end..];
  }

  predicate Copied(s: Source, mask: Option<seq<byte>>, d: nat)
    requires s.ratio >= 1
  {
    mask.Some? ==> d / s.ratio < |mask.value| && mask.value[d / s.ratio] != 0
  }

  /** Page d after the launch. */
  function PageAfter(s: Source, mask: Option<seq<byte>>, d: nat, stale: seq<Lane>): (p: seq<Lane>)
    requires ValidSource(s) && d < s.pages * s.ratio && |stale| == PAGE_LANES
    ensures |p| == PAGE_LANES
  {
    if Copied(s, mask, d) then SplitPage(s, d, stale) else stale
  }

  /** Without a mask every page is copied, with one exactly the pages of its marked source pages; the others keep what they had. */
  lemma PageAfterMeans(s: Source, mask: Option<seq<byte>>, d: nat, stale: seq<Lane>)
    requires ValidSource(s) && d < s.pages * s.ratio && |stale| == PAGE_LANES
    ensures mask.None? ==> PageAfter(s, mask, d, stale) == SplitPage(s, d, stale)
    ensures mask.Some? && d / s.ratio < |mask.value| ==>
      PageAfter(s, mask, d, stale) == if mask.value[d / s.ratio] != 0 then SplitPage(s, d, stale) else stale
  {
  }

  lemma PagesApart(mem: seq<Lane>, mem': seq<Lane>, d: nat, k: nat, page: seq<Lane>)
    requires (d + 1) * PAGE_LANES <= |mem| && (k + 1) * PAGE_LANES <= |mem| && |page| == PAGE_LANES
    requires mem' == mem[..d * PAGE_LANES] + page + mem[(d + 1) * PAGE_LANES..]
    ensures |mem'| == |mem| && Page(mem', k) == if k == d then page else Page(mem, k)
  {
  }

  /** The launch, program after program. */
  method SplitKernel(s: Source, dst: array<Lane>, mask: Option<seq<byte>>)
    requires ValidSource(s) && s.pages * s.ratio * PAGE_LANES <= dst.Length
    modifies dst
    ensures forall d :: 0 <= d < s.pages * s.ratio ==>
      Page(dst[..], d) == PageAfter(s, mask, d, old(Page(dst[..], d)))
    ensures dst[s.pages * s.ratio * PAGE_LANES..] == old(dst[s.pages * s.ratio * PAGE_LANES..])
  {
    var n := s.pages * s.ratio;
    var d := 0;
    while d < n
      invariant 0 <= d <= n
      invariant forall k :: 0 <= k < d ==> Page(dst[..], k) == PageAfter(s, mask, k, old(Page(dst[..], k)))
      invariant forall k :: d <= k < n ==> Page(dst[..], k) == old(Page(dst[..], k))
      invariant dst[n * PAGE_LANES..] == old(dst[n * PAGE_LANES..])
    {
      if Copied(s, mask, d) {
        ghost var before := dst[..];
        SplitProgram(s, dst, d);
        forall k | 0 <= k < n ensures Page(dst[..], k) == if k == d then SplitPage(s, d, Page(before, d)) else Page(before, k) {
          PagesApart(before, dst[..], d, k, SplitPage(s, d, Page(before, d)));
        }
      }
      d := d + 1;
    }
  }

  // ---------------------------------------------------------------- the launch in any order

  /** A lane that program pid stores: number offs of its data loop or of its scale loop. */
  datatype Write = Write(pid: nat, scale: bool, offs: nat)

  /** The programs of the launch whose page is marked, and the lanes that their masked loops reach. */
  predicate Launched(s: Source, mask: Option<seq<byte>>, w: Write)
    requires s.ratio >= 1
  {
    w.pid < s.pages * s.ratio && Copied(s, mask, w.pid) && w.offs < if w.scale then TOKENS else PAGE_DATA
  }

  /** dst_base plus the lane's place: the kernel computes its page as page_idx * RATIO + sub. */
  function Target(s: Source, w: Write): nat
    requires s.ratio >= 1
  {
    (w.pid / s.ratio * s.ratio + w.pid % s.ratio) * PAGE_LANES + if w.scale then PAGE_DATA + w.offs else w.offs
  }

  function Loaded(s: Source, mask: Option<seq<byte>>, w: Write): Lane
    requires ValidSource(s) && Launched(s, mask, w)
  {
    PageInside(s, w.pid);
    if w.scale then s.mem[ScaleFrom(s, w.pid) + w.offs] else s.mem[DataFrom(s, w.pid) + w.offs]
  }

  function Addr(d: nat, r: nat): nat {
    d * PAGE_LANES + r
  }

  function Place(w: Write): nat {
    if w.scale then PAGE_DATA + w.offs else w.offs
  }

  /** Program pid writes into destination page pid. */
  lemma TargetPage(s: Source, mask: Option<seq<byte>>, w: Write)
    requires s.ratio >= 1 && Launched(s, mask, w)
    ensures Target(s, w) == Addr(w.pid, Place(w)) && Place(w) < PAGE_USED
    ensures Target(s, w) / PAGE_LANES == w.pid && Target(s, w) % PAGE_LANES == Place(w)
  {
    DivMod(w.pid, s.ratio);
    DivModUnique(w.pid, Place(w), PAGE_LANES);
  }

  /** No two lanes of the launch have one target. */
  lemma OneWriter(s: Source, mask: Option<seq<byte>>, w: Write, w': Write)
    requires s.ratio >= 1 && Launched(s, mask, w) && Launched(s, mask, w') && Target(s, w) == Target(s, w')
    ensures w == w'
  {
    TargetPage(s, mask, w);
    TargetPage(s, mask, w');
  }

  /** The launch's lanes in some order, each at least once. */
  ghost predicate IsSchedule(s: Source, mask: Option<seq<byte>>, ws: seq<Write>)
    requires s.ratio >= 1
  {
    && (forall i :: 0 <= i < |ws| ==> Launched(s, mask, ws[i]))
    && (forall w :: Launched(s, mask, w) ==> w in ws)
  }

  function StoresOf(s: Source, mask: Option<seq<byte>>, ws: seq<Write>): (ss: seq<Store<Lane>>)
    requires ValidSource(s) && forall i :: 0 <= i < |ws| ==> Launched(s, mask, ws[i])
    ensures |ss| == |ws|
  {
    seq(|ws|, i requires 0 <= i < |ws| => Store(Target(s, ws[i]), Loaded(s, mask, ws[i])))
  }

  /** The lane of the launch that belongs at place r of page d. */
  function WriteAt(d: nat, r: nat): Write {
    if r < PAGE_DATA then Write(d, false, r) else Write(d, true, r - PAGE_DATA)
  }

  /** Every lane of the launch arrives at its target. */
  lemma ScheduleStores(s: Source, mask: Option<seq<byte>>, mem: seq<Lane>, ws: seq<Write>, w: Write)
    requires ValidSource(s) && IsSchedule(s, mask, ws) && Launched(s, mask, w) && Target(s, w) < |mem|
    ensures Apply(mem, StoresOf(s, mask, ws))[Target(s, w)] == Loaded(s, mask, w)
  {
    var ss, a, v := StoresOf(s, mask, ws), Target(s, w), Loaded(s, mask, w);
    forall i | 0 <= i < |ss| && ss[i].addr == a ensures ss[i].value == v { OneWriter(s, mask, ws[i], w); }
    var i :| 0 <= i < |ws| && ws[i] == w;
    assert ss[i].addr == a;
    StoredValue(mem, ss, a, v);
  }

  lemma LaneStored(s: Source, mask: Option<seq<byte>>, mem: seq<Lane>, ws: seq<Write>, d: nat, r: nat)
    requires ValidSource(s) && IsSchedule(s, mask, ws) && Addr(d, r) < |mem| && d < s.pages * s.ratio
    requires Copied(s, mask, d) && r < PAGE_USED
    ensures Apply(mem, StoresOf(s, mask, ws))[Addr(d, r)] == Loaded(s, mask, WriteAt(d, r))
  {
    TargetPage(s, mask, WriteAt(d, r));
    ScheduleStores(s, mask, mem, ws, WriteAt(d, r));
  }

  lemma LaneKept(s: Source, mask: Option<seq<byte>>, mem: seq<Lane>, ws: seq<Write>, d: nat, r: nat)
    requires ValidSource(s) && IsSchedule(s, mask, ws) && Addr(d, r) < |mem| && r < PAGE_LANES
    requires !Copied(s, mask, d) || r >= PAGE_USED
    ensures Apply(mem, StoresOf(s, mask, ws))[Addr(d, r)] == mem[Addr(d, r)]
  {
    var ss := StoresOf(s, mask, ws);
    forall i | 0 <= i < |ss| ensures ss[i].addr != Addr(d, r) { NoTarget(s, mask, ws[i], d, r); }
    UnstoredValue(mem, ss, Addr(d, r));
  }

  /** No program writes into padding or into a page that is not marked. */
  lemma NoTarget(s: Source, mask: Option<seq<byte>>, w: Write, d: nat, r: nat)
    requires s.ratio >= 1 && Launched(s, mask, w) && r < PAGE_LANES && (!Copied(s, mask, d) || r >= PAGE_USED)
    ensures Target(s, w) != Addr(d, r)
  {
    DivModUnique(d, r, PAGE_LANES);
    TargetPage(s, mask, w);
  }

  lemma PageAfterLane(s: Source, mask: Option<seq<byte>>, d: nat, stale: seq<Lane>, r: nat)
    requires ValidSource(s) && d < s.pages * s.ratio && |stale| == PAGE_LANES && r < PAGE_LANES
    ensures PageAfter(s, mask, d, stale)[r] == if Copied(s, mask, d) && r < PAGE_USED then Loaded(s, mask, WriteAt(d, r)) else stale[r]
  {
    PageInside(s, d);
  }

  lemma SamePage(mem: seq<Lane>, d: nat, p: seq<Lane>)
    requires (d + 1) * PAGE_LANES <= |mem| && |p| == PAGE_LANES
    requires forall r: nat :: r < PAGE_LANES ==> mem[Addr(d, r)] == p[r]
    ensures Page(mem, d) == p
  {
    forall r: nat | r < PAGE_LANES ensures Page(mem, d)[r] == p[r] { assert mem[Addr(d, r)] == p[r]; }
  }

  lemma PageLane(mem: seq<Lane>, d: nat, r: nat)
    requires (d + 1) * PAGE_LANES <= |mem| && r < PAGE_LANES
    ensures Addr(d, r) < |mem| && Page(mem, d)[r] == mem[Addr(d, r)]
  {
  }

  lemma LaneAnyOrder(s: Source, mask: Option<seq<byte>>, mem: seq<Lane>, ws: seq<Write>, d: nat, r: nat)
    requires ValidSource(s) && IsSchedule(s, mask, ws) && (d + 1) * PAGE_LANES <= |mem| && d < s.pages * s.ratio && r < PAGE_LANES
    ensures Addr(d, r) < |mem|
    ensures Apply(mem, StoresOf(s, mask, ws))[Addr(d, r)] == PageAfter(s, mask, d, Page(mem, d))[r]
  {
    PageLane(mem, d, r);
    PageAfterLane(s, mask, d, Page(mem, d), r);
    if Copied(s, mask, d) && r < PAGE_USED { LaneStored(s, mask, mem, ws, d, r); } else { LaneKept(s, mask, mem, ws, d, r); }
  }

  /** So the programs may run in any order, lane by lane, and leave the same pages. */
  lemma AnyOrder(s: Source, mask: Option<seq<byte>>, mem: seq<Lane>, ws: seq<Write>, d: nat)
    requires ValidSource(s) && IsSchedule(s, mask, ws) && (d + 1) * PAGE_LANES <= |mem| && d < s.pages * s.ratio
    ensures Page(Apply(mem, StoresOf(s, mask, ws)), d) == PageAfter(s, mask, d, Page(mem, d))
  {
    var after, page := Apply(mem, StoresOf(s, mask, ws)), PageAfter(s, mask, d, Page(mem, d));
    forall r: nat | r < PAGE_LANES ensures after[Addr(d, r)] == page[r] { LaneAnyOrder(s, mask, mem, ws, d, r); }
    SamePage(after, d, page);
  }

  // ---------------------------------------------------------------- the persistent buffers

  /** Token t reads the same data lane l and the same scale lane from the split pages as from the source. */
  ghost predicate LaneReadsSame(s: Source, mem: seq<Lane>, t: nat, l: nat)
    requires s.ratio >= 1
  {
    var from, to := DataLane(t, l, PageTokens(s), s.stride), DataLane(t, l, TOKENS, PAGE_LANES);
    var sf, st := ScaleLane(t, PageTokens(s), s.stride), ScaleLane(t, TOKENS, PAGE_LANES);
    && from < |s.mem| && sf < |s.mem| && to < |mem| && st < |mem|
    && mem[to] == s.mem[from] && mem[st] == s.mem[sf]
  }

  ghost predicate ReadsSame(s: Source, mem: seq<Lane>, t: nat)
    requires s.ratio >= 1
  {
    forall l: nat :: l < DATA_LANES ==> LaneReadsSame(s, mem, t, l)
  }

  predicate InRange(s: Source, touched: Option<seq<int>>)
    requires s.ratio >= 1
  {
    touched.Some? ==> forall i :: 0 <= i < |touched.value| && touched.value[i] >= 0 ==>
      touched.value[i] < s.pages * PageTokens(s)
  }

  /** The tokens that a call promises: those it names, or all of them when it names none. */
  predicate Promised(s: Source, touched: Option<seq<int>>, t: nat)
    requires s.ratio >= 1
  {
    if touched.Some? && touched.value != [] then t in touched.value else t < s.pages * PageTokens(s)
  }

  /** One call, on the contents of the buffers: its own buffer serves what it promises, the others keep what they had. */
  ghost predicate Splits(before: map<string, seq<Lane>>, after: map<string, seq<Lane>>, s: Source, touched: Option<seq<int>>, tag: string)
    requires s.ratio >= 1
  {
    && after.Keys == before.Keys + {tag}
    && (forall g :: g in before && g != tag ==> after[g] == before[g])
    && (forall t: nat :: Promised(s, touched, t) ==> ReadsSame(s, after[tag], t))
  }

  lemma TokenPage(s: Source, t: nat)
    requires s.ratio >= 1 && t < s.pages * PageTokens(s)
    ensures t / TOKENS < s.pages * s.ratio && t / TOKENS / s.ratio == t / PageTokens(s) < s.pages
  {
    TokenSplit(t, s.ratio);
    assert s.pages * PageTokens(s) == s.pages * s.ratio * TOKENS;
    var p := PageTokens(s);
    assert t == t / p * p + t % p;
    if t / p >= s.pages { MulMono(s.pages, t / p, p); }
  }

  /** A page that was copied serves all its tokens. */
  lemma PageReadsSame(s: Source, mem: seq<Lane>, stale: seq<Lane>, t: nat)
    requires ValidSource(s) && |stale| == PAGE_LANES
    requires t / TOKENS < s.pages * s.ratio && (t / TOKENS + 1) * PAGE_LANES <= |mem|
    requires Page(mem, t / TOKENS) == SplitPage(s, t / TOKENS, stale)
    ensures ReadsSame(s, mem, t)
  {
    forall l: nat | l < DATA_LANES ensures LaneReadsSame(s, mem, t, l) {
      TokenMeaning(s, mem, stale, t, l);
    }
  }

  class Splitter {
    var buffers: map<string, array<Lane>>
    var masks: map<string, array<byte>>

    /** No two tags share a buffer or a mask. */
    ghost predicate Valid()
      reads this
    {
      && (forall g, h :: g in buffers && h in buffers && g != h ==> buffers[g] != buffers[h])
      && (forall g, h :: g in masks && h in masks && g != h ==> masks[g] != masks[h])
    }

    ghost function Contents(): map<string, seq<Lane>>
      reads this, buffers.Values
    {
      map g | g in buffers :: buffers[g][..]
    }

    constructor ()
      ensures Valid() && buffers == map[] && masks == map[]
    {
      buffers, masks := map[], map[];
    }

    /** Only the entry of this tag may be new, and then it is a new array. */
    twostate predicate MasksGrow(before: map<string, array<byte>>, tag: string)
      reads this
    {
      && (forall g :: g in before && g != tag ==> g in masks && masks[g] == before[g])
      && (forall g :: g in masks ==> (g in before && masks[g] == before[g]) || (g == tag && fresh(masks[g])))
    }

    /** The mask of this call: cleared, then one mark per named page; None when every page is copied. */
    method Mark(s: Source, touched: Option<seq<int>>, tag: string) returns (mask: Option<seq<byte>>)
      requires Valid() && ValidSource(s) && InRange(s, touched)
      modifies this`masks, if tag in masks then {masks[tag]} else {}
      ensures Valid() && MasksGrow(old(masks), tag)
      ensures mask.None? <==> touched.None? || touched.value == []
      ensures mask.Some? ==> tag in masks && masks[tag].Length >= s.pages
      ensures tag in old(masks) && (mask.None? || old(masks)[tag].Length >= s.pages) ==>
        tag in masks && masks[tag] == old(masks)[tag]
      ensures mask.Some? ==> |mask.value| == s.pages && forall p: nat :: p < s.pages ==>
        (mask.value[p] != 0 <==> Touched(touched.value, PageTokens(s), p))
    {
      if touched.None? || touched.value == [] { return None; }
      var m: array<byte>;
      if tag in masks && masks[tag].Length >= s.pages {
        m := masks[tag];
      } else {
        m := new byte[s.pages];
        masks := masks[tag := m];
      }
      forall i | 0 <= i < |touched.value| && touched.value[i] >= 0
        ensures touched.value[i] / PageTokens(s) < s.pages
      {
        TokenPage(s, touched.value[i]);
      }
      MarkPages(touched.value, m, PageTokens(s), s.pages);
      mask := Some(m[..s.pages]);
    }

    /** The grow-only output buffer of a tag; a new one holds anything. */
    method Buffer(tag: string, lanes: nat) returns (out: array<Lane>)
      requires Valid()
      modifies this`buffers
      ensures Valid() && buffers == old(buffers)[tag := out] && out.Length >= lanes
      ensures if tag in old(buffers) && old(buffers)[tag].Length >= lanes then out == old(buffers)[tag] else fresh(out)
    {
      if tag in buffers && buffers[tag].Length >= lanes {
        out := buffers[tag];
      } else {
        out := new Lane[lanes];
        buffers := buffers[tag := out];
      }
    }

    /** _split_kv_pages_to_64 for pages of more than 64 tokens. The buffer may hold anything beforehand. */
    method Split(s: Source, touched: Option<seq<int>>, tag: string) returns (out: array<Lane>)
      requires Valid() && ValidSource(s) && s.ratio >= 2 && InRange(s, touched)
      modifies this, if tag in buffers then {buffers[tag]} else {}, if tag in masks then {masks[tag]} else {}
      ensures Valid() && buffers == old(buffers)[tag := out] && MasksGrow(old(masks), tag)
      ensures if tag in old(buffers) && old(buffers)[tag].Length >= s.pages * s.ratio * PAGE_LANES
              then out == old(buffers)[tag] else fresh(out)
      ensures forall g :: g in old(buffers) && g != tag ==> buffers[g][..] == old(buffers[g][..])
      ensures forall t: nat :: Promised(s, touched, t) ==> ReadsSame(s, out[..], t)
    {
      out := Buffer(tag, s.pages * s.ratio * PAGE_LANES);
      var mask := Mark(s, touched, tag);
      Launch(s, touched, out, mask);
    }

    /** The same call, as a step on the contents of all buffers. */
    method SplitStep(s: Source, touched: Option<seq<int>>, tag: string) returns (out: array<Lane>)
      requires Valid() && ValidSource(s) && s.ratio >= 2 && InRange(s, touched)
      modifies this, if tag in buffers then {buffers[tag]} else {}, if tag in masks then {masks[tag]} else {}
      ensures Valid() && Splits(old(Contents()), Contents(), s, touched, tag)
      ensures buffers == old(buffers)[tag := out] && MasksGrow(old(masks), tag)
      ensures fresh(out) || (tag in old(buffers) && out == old(buffers)[tag])
    {
      out := Split(s, touched, tag);
    }

    /** Any number of calls, one after the other: c lists the contents of the buffers between them. */
    method SplitAll(calls: seq<Call>) returns (ghost c: seq<map<string, seq<Lane>>>)
      requires Valid() && forall i :: 0 <= i < |calls| ==> ValidCall(calls[i])
      modifies this, buffers.Values, masks.Values
      ensures Valid() && IsRun(c, calls) && c[0] == old(Contents()) && c[|calls|] == Contents()
      ensures forall i, t: nat :: 0 <= i < |calls| && LastOfTag(calls, i) && Promised(calls[i].s, calls[i].touched, t) ==>
        calls[i].tag in buffers && ReadsSame(calls[i].s, buffers[calls[i].tag][..], t)
    {
      c := [Contents()];
      for k := 0 to |calls|
        invariant Valid() && |c| == k + 1 && c[0] == old(Contents()) && c[k] == Contents()
        invariant forall g :: g in buffers ==> fresh(buffers[g]) || buffers[g] in old(buffers.Values)
        invariant forall g :: g in masks ==> fresh(masks[g]) || masks[g] in old(masks.Values)
        invariant forall i :: 0 <= i < k ==> Splits(c[i], c[i + 1], calls[i].s, calls[i].touched, calls[i].tag)
      {
        var out := SplitStep(calls[k].s, calls[k].touched, calls[k].tag);
        c := c + [Contents()];
      }
      forall i, t: nat | 0 <= i < |calls| && LastOfTag(calls, i) && Promised(calls[i].s, calls[i].touched, t)
        ensures calls[i].tag in buffers && ReadsSame(calls[i].s, buffers[calls[i].tag][..], t)
      {
        StaysReadable(c, calls, i, |calls|, t);
      }
    }
  }

  /** The launch serves every token of a page that it copies. */
  method Launch(s: Source, touched: Option<seq<int>>, out: array<Lane>, mask: Option<seq<byte>>)
    requires ValidSource(s) && InRange(s, touched) && s.pages * s.ratio * PAGE_LANES <= out.Length
    requires mask.None? <==> touched.None? || touched.value == []
    requires mask.Some? ==> |mask.value| == s.pages && forall p: nat :: p < s.pages ==>
      (mask.value[p] != 0 <==> Touched(touched.value, PageTokens(s), p))
    modifies out
    ensures forall t: nat :: Promised(s, touched, t) ==> ReadsSame(s, out[..], t)
  {
    ghost var stale := out[..];
    SplitKernel(s, out, mask);
    forall t: nat | Promised(s, touched, t) ensures ReadsSame(s, out[..], t) {
      TokenServed(s, touched, stale, out[..], mask, t);
    }
  }

  lemma TokenServed(s: Source, touched: Option<seq<int>>, stale: seq<Lane>, mem: seq<Lane>, mask: Option<seq<byte>>, t: nat)
    requires ValidSource(s) && InRange(s, touched) && s.pages * s.ratio * PAGE_LANES <= |mem| == |stale|
    requires mask.None? <==> touched.None? || touched.value == []
    requires mask.Some? ==> |mask.value| == s.pages && forall p: nat :: p < s.pages ==>
      (mask.value[p] != 0 <==> Touched(touched.value, PageTokens(s), p))
    requires forall d :: 0 <= d < s.pages * s.ratio ==> Page(mem, d) == PageAfter(s, mask, d, Page(stale, d))
    requires Promised(s, touched, t)
    ensures ReadsSame(s, mem, t)
  {
    TokenPage(s, t);
    var d := t / TOKENS;
    MulMono(d + 1, s.pages * s.ratio, PAGE_LANES);
    assert Copied(s, mask, d);
    PageReadsSame(s, mem, Page(stale, d), t);
  }

  // ---------------------------------------------------------------- runs of calls

  datatype Call = Call(s: Source, touched: Option<seq<int>>, tag: string)

  predicate ValidCall(x: Call) {
    ValidSource(x.s) && x.s.ratio >= 2 && InRange(x.s, x.touched)
  }

  predicate LastOfTag(calls: seq<Call>, i: nat)
    requires i < |calls|
  {
    forall j :: i < j < |calls| ==> calls[j].tag != calls[i].tag
  }

  ghost predicate IsRun(c: seq<map<string, seq<Lane>>>, calls: seq<Call>) {
    && |c| == |calls| + 1
    && forall i :: 0 <= i < |calls| ==> calls[i].s.ratio >= 1 && Splits(c[i], c[i + 1], calls[i].s, calls[i].touched, calls[i].tag)
  }

  /** What a call promised still reads right after any number of calls under other tags. */
  lemma {:induction false} StaysReadable(c: seq<map<string, seq<Lane>>>, calls: seq<Call>, i: nat, k: nat, t: nat)
    requires IsRun(c, calls) && i < k <= |calls|
    requires forall j :: i < j < k ==> calls[j].tag != calls[i].tag
    requires calls[i].s.ratio >= 1 && Promised(calls[i].s, calls[i].touched, t)
    ensures calls[i].tag in c[k] && c[k][calls[i].tag] == c[i + 1][calls[i].tag]
    ensures ReadsSame(calls[i].s, c[k][calls[i].tag], t)
  {
    if k > i + 1 { StaysReadable(c, calls, i, k - 1, t); }
  }
}
