/** The rank lists of initialize_model_parallel: every family is one digit of a mixed-radix rank number. */
module RankGroups {
  import opened Arithmetic

  // ---------------------------------------------------------------- families

  /** width ranks from base, stride apart. */
  function Group(base: nat, width: nat, stride: nat): (g: seq<nat>)
    ensures |g| == width
    decreases width
  {
    if width == 0 then [] else [base] + Group(base + stride, width - 1, stride)
  }

  /** count groups with neighbouring bases. */
  function Band(base: nat, width: nat, stride: nat, count: nat): (b: seq<seq<nat>>)
    ensures |b| == count && forall c :: 0 <= c < count ==> b[c] == Group(base + c, width, stride)
  {
    if count == 0 then [] else Band(base, width, stride, count - 1) + [Group(base + (count - 1), width, stride)]
  }

  /**
   * All groups of ranks that differ only in the digit of radix `width`: `stride` ranks lie below that
   * digit and `outer` bands of width * stride ranks above it.
   */
  function Family(outer: nat, width: nat, stride: nat): (f: seq<seq<nat>>)
    ensures |f| == Flat(outer, 0, stride)
  {
    if outer == 0 then []
    else Family(outer - 1, width, stride) + Band(Flat(outer - 1, 0, Flat(width, 0, stride)), width, stride, stride)
  }

  lemma {:induction false} GroupAt(base: nat, width: nat, stride: nat, w: nat)
    requires w < width
    ensures Group(base, width, stride)[w] == base + Flat(w, 0, stride)
    decreases w
  {
    if w > 0 { GroupAt(base + stride, width - 1, stride, w - 1); }
  }

  lemma {:induction false} FamilyAt(outer: nat, width: nat, stride: nat, a: nat, c: nat)
    requires a < outer && c < stride
    ensures Flat(a, c, stride) < |Family(outer, width, stride)|
    ensures Family(outer, width, stride)[Flat(a, c, stride)] == Group(Flat(a, c, Flat(width, 0, stride)), width, stride)
  {
    FlatInRange(a, c, outer, stride);
    if a < outer - 1 {
      FlatInRange(a, c, outer - 1, stride);
      FamilyAt(outer - 1, width, stride, a, c);
    } else {
      LastBand(outer, width, stride, Flat(width, 0, stride), c);
    }
  }

  /** Member w of the group of offset c in band a, in plain numbers. */
  lemma FamilyElement(outer: nat, width: nat, stride: nat, a: nat, c: nat, w: nat)
    requires a < outer && c < stride && w < width
    ensures a * stride + c < |Family(outer, width, stride)| == outer * stride
    ensures |Family(outer, width, stride)[a * stride + c]| == width
    ensures Family(outer, width, stride)[a * stride + c][w] == a * (width * stride) + w * stride + c
  {
    FamilyAt(outer, width, stride, a, c);
    FlatIsProduct(outer, 0, stride);
    FlatIsProduct(a, c, stride);
    FlatIsProduct(width, 0, stride);
    FlatIsProduct(a, c, width * stride);
    GroupElement(a * (width * stride) + c, width, stride, w);
  }

  lemma GroupElement(base: nat, width: nat, stride: nat, w: nat)
    requires w < width
    ensures Group(base, width, stride)[w] == base + w * stride
  {
    GroupAt(base, width, stride, w);
    FlatIsProduct(w, 0, stride);
  }

  lemma IndexBehind<T>(a: seq<T>, b: seq<T>, i: nat)
    requires i < |b|
    ensures (a + b)[|a| + i] == b[i]
  {
  }

  lemma LastBand(outer: nat, width: nat, stride: nat, span: nat, c: nat)
    requires outer >= 1 && c < stride && span == Flat(width, 0, stride)
    ensures Flat(outer - 1, c, stride) < |Family(outer, width, stride)|
    ensures Family(outer, width, stride)[Flat(outer - 1, c, stride)] == Group(Flat(outer - 1, c, span), width, stride)
  {
    FlatAdd(outer - 1, 0, c, stride);
    FlatAdd(outer - 1, 0, c, span);
    IndexBehind(Family(outer - 1, width, stride), Band(Flat(outer - 1, 0, span), width, stride, stride), c);
  }

  // ---------------------------------------------------------------- digits of a rank

  /** The number above the digit of radix `width`, that digit, and the number below it. */
  function Outer(r: nat, width: nat, stride: nat): nat
    requires width >= 1 && stride >= 1
  {
    Quot(Quot(r, stride), width)
  }

  function Digit(r: nat, width: nat, stride: nat): nat
    requires width >= 1 && stride >= 1
  {
    Rem(Quot(r, stride), width)
  }

  function Inner(r: nat, stride: nat): nat
    requires stride >= 1
  {
    Rem(r, stride)
  }

  function RankOf(a: nat, w: nat, c: nat, width: nat, stride: nat): nat {
    Flat(Flat(a, w, width), c, stride)
  }

  lemma {:induction false} FlatFlat(a: nat, w: nat, c: nat, width: nat, stride: nat)
    ensures Flat(a, c, Flat(width, 0, stride)) + Flat(w, 0, stride) == RankOf(a, w, c, width, stride)
  {
    if a > 0 {
      FlatFlat(a - 1, w, c, width, stride);
      FlatSum(width, Flat(a - 1, w, width), c, stride);
    } else {
      FlatAdd(w, 0, c, stride);
    }
  }

  lemma {:induction false} FlatSum(z: nat, y: nat, c: nat, n: nat)
    ensures Flat(z + y, c, n) == Flat(z, 0, n) + Flat(y, c, n)
  {
    if z > 0 { FlatSum(z - 1, y, c, n); }
  }

  /** Rank numbers and digit triples correspond one to one. */
  lemma Digits(a: nat, w: nat, c: nat, width: nat, stride: nat)
    requires w < width && c < stride
    ensures var r := RankOf(a, w, c, width, stride);
      Outer(r, width, stride) == a && Digit(r, width, stride) == w && Inner(r, stride) == c
  {
    DigitsOfFlat(Flat(a, w, width), c, stride);
    DigitsOfFlat(a, w, width);
  }

  lemma FromDigits(r: nat, width: nat, stride: nat)
    requires width >= 1 && stride >= 1
    ensures r == RankOf(Outer(r, width, stride), Digit(r, width, stride), Inner(r, stride), width, stride)
  {
    FlatOfDigits(r, stride);
    FlatOfDigits(Quot(r, stride), width);
  }

  /** The size of the world that a family covers. */
  function World(outer: nat, width: nat, stride: nat): nat {
    Flat(Flat(outer, 0, width), 0, stride)
  }

  lemma WorldIsProduct(outer: nat, width: nat, stride: nat)
    ensures World(outer, width, stride) == outer * width * stride
  {
    FlatIsProduct(outer, 0, width);
    FlatIsProduct(outer * width, 0, stride);
  }

  lemma InWorld(r: nat, outer: nat, width: nat, stride: nat)
    requires width >= 1 && stride >= 1
    ensures r < World(outer, width, stride) <==> Outer(r, width, stride) < outer
  {
    var q := Quot(r, stride);
    if r < World(outer, width, stride) {
      QuotInRange(r, Flat(outer, 0, width), stride);
      QuotInRange(q, outer, width);
    }
    if Outer(r, width, stride) < outer {
      FromDigits(r, width, stride);
      FlatInRange(Outer(r, width, stride), Digit(r, width, stride), outer, width);
      FlatInRange(Flat(Outer(r, width, stride), Digit(r, width, stride), width), Inner(r, stride), Flat(outer, 0, width), stride);
    }
  }

  // ---------------------------------------------------------------- partition

  /** A group is a fibre: all the ranks that share every digit but the one of radix `width`. */
  lemma GroupIsFibre(outer: nat, width: nat, stride: nat, a: nat, c: nat, r: nat)
    requires width >= 1 && a < outer && c < stride
    ensures Flat(a, c, stride) < |Family(outer, width, stride)|
    ensures r in Family(outer, width, stride)[Flat(a, c, stride)] <==> Outer(r, width, stride) == a && Inner(r, stride) == c
  {
    FamilyAt(outer, width, stride, a, c);
    var g := Group(Flat(a, c, Flat(width, 0, stride)), width, stride);
    if r in g {
      var w :| 0 <= w < |g| && g[w] == r;
      MemberAt(width, stride, a, w, c);
      Digits(a, w, c, width, stride);
    }
    if Outer(r, width, stride) == a && Inner(r, stride) == c {
      var w := Digit(r, width, stride);
      FromDigits(r, width, stride);
      MemberAt(width, stride, a, w, c);
      assert g[w] == r;
    }
  }

  lemma MemberAt(width: nat, stride: nat, a: nat, w: nat, c: nat)
    requires w < width
    ensures Group(Flat(a, c, Flat(width, 0, stride)), width, stride)[w] == RankOf(a, w, c, width, stride)
  {
    GroupAt(Flat(a, c, Flat(width, 0, stride)), width, stride, w);
    FlatFlat(a, w, c, width, stride);
  }

  /** Every rank of the world is in exactly one group of a family. */
  lemma Partition(outer: nat, width: nat, stride: nat, r: nat) returns (g: nat)
    requires width >= 1 && stride >= 1 && r < World(outer, width, stride)
    ensures var f := Family(outer, width, stride);
      g < |f| && forall k :: 0 <= k < |f| ==> (r in f[k] <==> k == g)
  {
    var f := Family(outer, width, stride);
    InWorld(r, outer, width, stride);
    var a, c := Outer(r, width, stride), Inner(r, stride);
    g := Flat(a, c, stride);
    GroupIsFibre(outer, width, stride, a, c, r);
    DigitsOfFlat(a, c, stride);
    forall k | 0 <= k < |f| ensures r in f[k] <==> k == g {
      FlatOfDigits(k, stride);
      QuotInRange(k, outer, stride);
      GroupIsFibre(outer, width, stride, Quot(k, stride), Rem(k, stride), r);
    }
  }

  /** Groups are of equal size and hold no rank from outside the world. */
  lemma GroupsFit(outer: nat, width: nat, stride: nat, k: nat, r: nat)
    requires width >= 1 && stride >= 1 && k < |Family(outer, width, stride)|
    ensures |Family(outer, width, stride)[k]| == width
    ensures r in Family(outer, width, stride)[k] ==> r < World(outer, width, stride)
  {
    FlatOfDigits(k, stride);
    QuotInRange(k, outer, stride);
    FamilyAt(outer, width, stride, Quot(k, stride), Rem(k, stride));
    GroupIsFibre(outer, width, stride, Quot(k, stride), Rem(k, stride), r);
    InWorld(r, outer, width, stride);
  }

  /** A tensor-parallel group holds the ranks of one pipeline stage; a pipeline group, one rank of every stage. */
  lemma TpMember(tp: nat, pp: nat, a: nat, r: nat)
    requires tp >= 1 && a < pp
    ensures a < |Family(pp, tp, 1)| && (r in Family(pp, tp, 1)[a] <==> Quot(r, tp) == a)
  {
    FlatIsProduct(a, 0, 1);
    GroupIsFibre(pp, tp, 1, a, 0, r);
    QuotIsDiv(r, 1);
  }

  lemma PpMember(tp: nat, pp: nat, c: nat, r: nat)
    requires tp >= 1 && pp >= 1 && c < tp
    ensures c < |Family(1, pp, tp)| && (r in Family(1, pp, tp)[c] <==> Quot(r, tp) < pp && Rem(r, tp) == c)
  {
    GroupIsFibre(1, pp, tp, 0, c, r);
  }

  /** The two groups meet in exactly one rank. */
  lemma TpMeetsPp(tp: nat, pp: nat, a: nat, c: nat, r: nat)
    requires tp >= 1 && pp >= 1 && a < pp && c < tp
    ensures a < |Family(pp, tp, 1)| && c < |Family(1, pp, tp)|
    ensures r in Family(pp, tp, 1)[a] && r in Family(1, pp, tp)[c] <==> r == Flat(a, c, tp)
  {
    TpMember(tp, pp, a, r);
    PpMember(tp, pp, c, r);
    FlatOfDigits(r, tp);
    DigitsOfFlat(a, c, tp);
  }

  // ---------------------------------------------------------------- the loops that build the lists

  /** Python's range(start, stop, step). */
  function Range(start: nat, stop: nat, step: nat): seq<nat>
    requires step >= 1
    decreases stop - start
  {
    if start >= stop then [] else [start] + Range(start + step, stop, step)
  }

  /** A range that ends within its last stride has `width` elements. */
  lemma {:induction false} RangeIsGroup(start: nat, stop: nat, step: nat, width: nat)
    requires step >= 1 && width >= 1
    requires start + Flat(width - 1, 0, step) < stop <= start + Flat(width, 0, step)
    ensures Range(start, stop, step) == Group(start, width, step)
    decreases width
  {
    if width > 1 { RangeIsGroup(start + step, stop, step, width - 1); }
  }

  /** The first n groups of a family whose groups come in the order of their bases. */
  lemma {:induction false} FamilyPrefix(outer: nat, width: nat, stride: nat, a: nat, c: nat)
    requires a < outer && c < stride
    ensures Flat(a, c, stride) < Flat(a, c + 1, stride) <= |Family(outer, width, stride)|
    ensures Family(outer, width, stride)[..Flat(a, c + 1, stride)]
      == Family(outer, width, stride)[..Flat(a, c, stride)] + [Group(Flat(a, c, Flat(width, 0, stride)), width, stride)]
  {
    FamilyAt(outer, width, stride, a, c);
    FlatAdd(a, c, 1, stride);
  }

  /**
   * The strided families: for each of `outer` blocks of `size` ranks, for each of `count` sub-blocks of
   * width * stride ranks, for each offset below the stride. The attention-CP, MoE-EP and MoE-DP lists.
   */
  method StridedGroups(outer: nat, size: nat, count: nat, width: nat, stride: nat) returns (groups: seq<seq<nat>>)
    requires width >= 1 && stride >= 1 && count >= 1 && size == count * (width * stride)
    ensures groups == Family(outer * count, width, stride)
  {
    groups := [];
    ghost var total, a := outer * count, 0;
    MulMono(0, outer, count);
    for tpGroup := 0 to outer
      invariant a == tpGroup * count
      invariant Flat(a, 0, stride) <= |Family(total, width, stride)|
      invariant groups == Family(total, width, stride)[..Flat(a, 0, stride)]
    {
      BlockBase(tpGroup, count, width, stride, size, a);
      MulMono(tpGroup + 1, outer, count);
      Successor(tpGroup, count);
      var block := StridedBlock(tpGroup * size, count, width, stride, a, total);
      groups := groups + block;
      a := a + count;
    }
  }

  /** The groups of the block of ranks that begins at base: the loops over sub-blocks and offsets. */
  method StridedBlock(base: nat, count: nat, width: nat, stride: nat, ghost a: nat, ghost total: nat) returns (groups: seq<seq<nat>>)
    requires width >= 1 && stride >= 1 && base == Flat(a, 0, Flat(width, 0, stride)) && a + count <= total
    ensures Flat(a, 0, stride) <= Flat(a + count, 0, stride) <= |Family(total, width, stride)|
    ensures groups == Family(total, width, stride)[Flat(a, 0, stride)..Flat(a + count, 0, stride)]
  {
    groups := [];
    var band := width * stride;
    FlatIsProduct(width, 0, stride);
    FlatUpTo(a, total, stride);
    ghost var f, from, to := Family(total, width, stride), Flat(a, 0, stride), Flat(a, 0, stride);
    for dp := 0 to count
      invariant from <= to == Flat(a + dp, 0, stride) <= |f|
      invariant groups == f[from..to]
    {
      var block := SubBlock(base, dp, band, width, stride, a, total);
      groups := groups + block;
      Extended(f, from, to, Flat(a + dp + 1, 0, stride));
      to := Flat(a + dp + 1, 0, stride);
    }
  }

  method SubBlock(base: nat, dp: nat, band: nat, ghost width: nat, stride: nat, ghost a: nat, ghost total: nat) returns (block: seq<seq<nat>>)
    requires width >= 1 && stride >= 1 && band == Flat(width, 0, stride) && base == Flat(a, 0, band) && a + dp < total
    ensures Flat(a + dp, 0, stride) <= Flat(a + dp + 1, 0, stride) <= |Family(total, width, stride)|
    ensures block == Family(total, width, stride)[Flat(a + dp, 0, stride)..Flat(a + dp + 1, 0, stride)]
  {
    BlockAt(a, dp, base, band, width, stride, total);
    var st := base + dp * band;
    block := OffsetGroups(st, band, stride);
  }

  /** The innermost loop: one range of a sub-block's length per offset below the stride. */
  method OffsetGroups(st: nat, band: nat, stride: nat) returns (groups: seq<seq<nat>>)
    requires stride >= 1 && band >= 1
    ensures groups == OverlapBlock(st, band, stride)
  {
    groups := [];
    for i := 0 to stride
      invariant |groups| == i && forall j :: 0 <= j < i ==> groups[j] == Range(st + j, st + j + band, stride)
    {
      groups := groups + [Range(st + i, st + i + band, stride)];
    }
  }

  lemma BlockAt(a: nat, dp: nat, base: nat, band: nat, width: nat, stride: nat, total: nat)
    requires width >= 1 && stride >= 1 && band == Flat(width, 0, stride) && base == Flat(a, 0, band) && a + dp < total
    ensures band >= 1
    ensures Flat(a + dp, 0, stride) <= Flat(a + dp + 1, 0, stride) <= |Family(total, width, stride)|
    ensures OverlapBlock(base + dp * band, band, stride)
      == Family(total, width, stride)[Flat(a + dp, 0, stride)..Flat(a + dp + 1, 0, stride)]
  {
    FlatShift(a, dp, band);
    OverlapBlockIsBand(a + dp, total, width, stride);
  }

  lemma Extended<T>(f: seq<T>, from: nat, to: nat, next: nat)
    requires from <= to <= next <= |f|
    ensures f[from..to] + f[to..next] == f[from..next]
  {
  }

  lemma FlatShift(a: nat, k: nat, n: nat)
    ensures Flat(a + k, 0, n) == Flat(a, 0, n) + k * n
  {
    FlatIsProduct(a + k, 0, n);
    FlatIsProduct(a, 0, n);
    Distribute(a, k, n);
  }

  lemma FlatUpTo(a: nat, b: nat, n: nat)
    requires a <= b
    ensures Flat(a, 0, n) <= Flat(b, 0, n)
  {
    FlatIsProduct(a, 0, n);
    FlatIsProduct(b, 0, n);
    MulMono(a, b, n);
  }

  /** Where the loops put the first group of a block. */
  lemma BlockBase(x: nat, count: nat, width: nat, stride: nat, size: nat, a: nat)
    requires a == x * count && size == count * (width * stride)
    ensures x * size == Flat(a, 0, Flat(width, 0, stride))
  {
    FlatIsProduct(width, 0, stride);
    FlatIsProduct(a, 0, width * stride);
    Reassociate(x, count, width * stride);
  }

  lemma NextBand(a: nat, stride: nat)
    ensures Flat(a, stride, stride) == Flat(a + 1, 0, stride)
  {
    FlatAdd(a, 0, stride, stride);
  }

  lemma BelowProduct(x: nat, y: nat, outer: nat, count: nat)
    requires x < outer && y < count
    ensures x * count + y < outer * count
  {
    MulMono(x + 1, outer, count);
    assert (x + 1) * count == x * count + count;
  }

  lemma InBlock(x: nat, y: nat, count: nat, band: nat)
    ensures x * (count * band) + y * band == (x * count + y) * band
  {
    Reassociate(x, count, band);
    Distribute(x * count, y, band);
  }

  lemma Distribute(a: nat, b: nat, c: nat)
    ensures (a + b) * c == a * c + b * c
  {
  }

  /** The pipeline list: range(i, world, world // pp). */
  method PipelineGroups(tp: nat, pp: nat) returns (groups: seq<seq<nat>>)
    requires tp >= 1 && pp >= 1
    ensures groups == Family(1, pp, tp)
  {
    groups := [];
    var world := tp * pp;
    var n := world / pp;
    assert n == tp by { DivModUnique(tp, 0, pp); }
    for i := 0 to n
      invariant i <= |Family(1, pp, tp)|
      invariant groups == Family(1, pp, tp)[..i]
    {
      PipelineGroup(tp, pp, i, world);
      groups := groups + [Range(i, world, n)];
    }
    assert |Family(1, pp, tp)| == tp by { PipelineCount(tp, pp); }
  }

  lemma PipelineCount(tp: nat, pp: nat)
    requires tp >= 1
    ensures |Family(1, pp, tp)| == tp
  {
    FlatAdd(1, 0, 0, tp);
    assert Flat(1, 0, tp) == tp + Flat(0, 0, tp);
  }

  lemma PipelineGroup(tp: nat, pp: nat, i: nat, world: nat)
    requires tp >= 1 && pp >= 1 && i < tp && world == tp * pp
    ensures i < |Family(1, pp, tp)|
    ensures Family(1, pp, tp)[..i + 1] == Family(1, pp, tp)[..i] + [Range(i, world, tp)]
  {
    assert world == Flat(pp, 0, tp) by { FlatIsProduct(pp, 0, tp); }
    assert Flat(pp, 0, tp) == tp + Flat(pp - 1, 0, tp);
    RangeIsGroup(i, world, tp, pp);
    FamilyPrefix(1, pp, tp, 0, i);
    assert Flat(0, i, tp) == i && Flat(0, i + 1, tp) == i + 1 && Flat(0, i, Flat(pp, 0, tp)) == i;
  }

  lemma {:induction false} UnitFlat(z: nat, w: nat)
    ensures Flat(z, w, 1) == z + w
  {
    if z > 0 { UnitFlat(z - 1, w); }
  }

  lemma {:induction false} GroupSlice(base: nat, n: nat, start: nat, width: nat)
    requires start + width <= n
    ensures Group(base, n, 1)[start..start + width] == Group(base + start, width, 1)
  {
    var g, h := Group(base, n, 1)[start..start + width], Group(base + start, width, 1);
    forall w | 0 <= w < width ensures g[w] == h[w] {
      GroupAt(base, n, 1, start + w);
      GroupAt(base + start, width, 1, w);
      UnitFlat(start + w, 0);
      UnitFlat(w, 0);
    }
  }

  /** The decode-context-parallel list: every tensor-parallel group cut into runs of dcp ranks. */
  method DcpGroups(tpGroups: seq<seq<nat>>, outer: nat, count: nat, dcp: nat) returns (groups: seq<seq<nat>>)
    requires dcp >= 1 && count >= 1 && tpGroups == Family(outer, count * dcp, 1)
    ensures groups == Family(outer * count, dcp, 1)
  {
    groups := [];
    UnitFlat(outer, 0);
    ghost var a := 0;
    for g := 0 to |tpGroups|
      invariant a == g * count && a <= |Family(outer * count, dcp, 1)|
      invariant groups == Family(outer * count, dcp, 1)[..a]
    {
      var start := 0;
      ghost var k := 0;
      TpGroupSize(outer, g, count * dcp);
      while start < |tpGroups[g]|
        invariant 0 <= k <= count && start == k * dcp
        invariant a == g * count + k && a <= |Family(outer * count, dcp, 1)|
        invariant groups == Family(outer * count, dcp, 1)[..a]
        decreases count - k
      {
        assert k < count;
        DcpSlice(outer, g, count, dcp, k);
        groups := groups + [tpGroups[g][start..start + dcp]];
        Successor(k, dcp);
        start, a, k := start + dcp, a + 1, k + 1;
      }
      if k < count { RunFits(k, count, dcp); }
      Successor(g, count);
    }
    UnitFlat(outer * count, 0);
  }

  lemma TpGroupSize(outer: nat, g: nat, tp: nat)
    requires g < outer
    ensures g < |Family(outer, tp, 1)| && |Family(outer, tp, 1)[g]| == tp
    ensures Family(outer, tp, 1)[g] == Group(Flat(g, 0, tp), tp, 1)
  {
    FamilyAt(outer, tp, 1, g, 0);
    UnitFlat(g, 0);
    UnitFlat(tp, 0);
  }

  /** The k-th run of the g-th tensor-parallel group starts where group g * count + k does. */
  lemma DcpStart(g: nat, count: nat, dcp: nat, k: nat)
    ensures Flat(g, 0, count * dcp) + k * dcp == Flat(g * count + k, 0, dcp)
  {
    FlatIsProduct(g, 0, count * dcp);
    FlatIsProduct(g * count + k, 0, dcp);
    InBlock(g, k, count, dcp);
  }

  lemma RunFits(k: nat, count: nat, dcp: nat)
    requires k < count
    ensures k * dcp + dcp <= count * dcp
  {
    MulMono(k + 1, count, dcp);
    Successor(k, dcp);
  }

  lemma DcpSlice(outer: nat, g: nat, count: nat, dcp: nat, k: nat)
    requires dcp >= 1 && g < outer && k < count
    ensures g < |Family(outer, count * dcp, 1)| && |Family(outer, count * dcp, 1)[g]| == count * dcp
    ensures k * dcp + dcp <= count * dcp && g * count + k < |Family(outer * count, dcp, 1)|
    ensures Family(outer * count, dcp, 1)[..g * count + k + 1] == Family(outer * count, dcp, 1)[..g * count + k]
      + [Family(outer, count * dcp, 1)[g][k * dcp..k * dcp + dcp]]
  {
    RunFits(k, count, dcp);
    BelowProduct(g, k, outer, count);
    DcpStart(g, count, dcp, k);
    SliceIsRun(outer, g, count * dcp, outer * count, g * count + k, dcp, k * dcp);
  }

  lemma SliceIsRun(outer: nat, g: nat, tp: nat, total: nat, a: nat, dcp: nat, start: nat)
    requires g < outer && a < total && start + dcp <= tp && Flat(g, 0, tp) + start == Flat(a, 0, dcp)
    ensures g < |Family(outer, tp, 1)| && |Family(outer, tp, 1)[g]| == tp && a < |Family(total, dcp, 1)|
    ensures Family(total, dcp, 1)[..a + 1] == Family(total, dcp, 1)[..a] + [Family(outer, tp, 1)[g][start..start + dcp]]
  {
    TpGroupSize(total, a, dcp);
    TpGroupSize(outer, g, tp);
    GroupSlice(Flat(g, 0, tp), tp, start, dcp);
  }

  /** The second attention-CP communicator's list, a comprehension over bases and offsets. */
  function OverlapList(base: nat, world: nat, span: nat, attnTp: nat): seq<seq<nat>>
    requires span >= 1 && attnTp >= 1
    decreases world - base
  {
    if base >= world then []
    else OverlapBlock(base, span, attnTp) + OverlapList(base + span, world, span, attnTp)
  }

  function OverlapBlock(base: nat, span: nat, attnTp: nat): seq<seq<nat>>
    requires span >= 1 && attnTp >= 1
  {
    seq(attnTp, i requires 0 <= i < attnTp => Range(base + i, base + i + span, attnTp))
  }

  lemma OverlapBlockIsBand(k: nat, n: nat, cp: nat, attnTp: nat)
    requires cp >= 1 && attnTp >= 1 && k < n
    ensures Flat(cp, 0, attnTp) >= 1
    ensures Flat(k, 0, attnTp) <= Flat(k + 1, 0, attnTp) <= |Family(n, cp, attnTp)|
    ensures OverlapBlock(Flat(k, 0, Flat(cp, 0, attnTp)), Flat(cp, 0, attnTp), attnTp)
      == Family(n, cp, attnTp)[Flat(k, 0, attnTp)..Flat(k + 1, 0, attnTp)]
  {
    var span, f := Flat(cp, 0, attnTp), Family(n, cp, attnTp);
    assert span == attnTp + Flat(cp - 1, 0, attnTp);
    var base := Flat(k, 0, span);
    BandBounds(k, n, attnTp);
    forall i | 0 <= i < attnTp
      ensures Flat(k, 0, attnTp) + i < |f| && OverlapBlock(base, span, attnTp)[i] == f[Flat(k, 0, attnTp) + i]
    {
      SpanIsGroup(base + i, cp, attnTp);
      OverlapGroup(k, n, cp, attnTp, i, Group(base + i, cp, attnTp));
    }
  }

  lemma BandBounds(k: nat, n: nat, stride: nat)
    requires k < n
    ensures Flat(k + 1, 0, stride) == Flat(k, 0, stride) + stride <= Flat(n, 0, stride)
  {
    NextBand(k, stride);
    FlatAdd(k, 0, stride, stride);
    FlatUpTo(k + 1, n, stride);
  }

  /** g: the group that starts at the block's offset i */
  lemma OverlapGroup(k: nat, n: nat, cp: nat, attnTp: nat, i: nat, g: seq<nat>)
    requires cp >= 1 && i < attnTp && k < n && g == Group(Flat(k, 0, Flat(cp, 0, attnTp)) + i, cp, attnTp)
    ensures Flat(k, 0, attnTp) + i < |Family(n, cp, attnTp)|
    ensures g == Family(n, cp, attnTp)[Flat(k, 0, attnTp) + i]
  {
    GroupInBand(n, cp, attnTp, k, i);
  }

  lemma GroupInBand(outer: nat, width: nat, stride: nat, a: nat, c: nat)
    requires a < outer && c < stride
    ensures Flat(a, 0, stride) + c < |Family(outer, width, stride)|
    ensures Family(outer, width, stride)[Flat(a, 0, stride) + c] == Group(Flat(a, 0, Flat(width, 0, stride)) + c, width, stride)
  {
    FamilyAt(outer, width, stride, a, c);
    FlatAdd(a, 0, c, stride);
    FlatAdd(a, 0, c, Flat(width, 0, stride));
  }

  lemma SpanIsGroup(base: nat, width: nat, stride: nat)
    requires width >= 1 && stride >= 1
    ensures Range(base, base + Flat(width, 0, stride), stride) == Group(base, width, stride)
  {
    assert Flat(width, 0, stride) == stride + Flat(width - 1, 0, stride);
    RangeIsGroup(base, base + Flat(width, 0, stride), stride, width);
  }

  lemma TailSplit<T>(f: seq<T>, from: nat, to: nat)
    requires from <= to <= |f|
    ensures f[from..] == f[from..to] + f[to..]
  {
  }

  lemma {:induction false} OverlapSuffix(k: nat, n: nat, cp: nat, attnTp: nat, span: nat)
    requires cp >= 1 && attnTp >= 1 && k <= n && span == Flat(cp, 0, attnTp) >= 1
    ensures Flat(k, 0, attnTp) <= |Family(n, cp, attnTp)|
    ensures OverlapList(Flat(k, 0, span), Flat(n, 0, span), span, attnTp) == Family(n, cp, attnTp)[Flat(k, 0, attnTp)..]
    decreases n - k
  {
    if k < n {
      OverlapSuffix(k + 1, n, cp, attnTp, span);
      FlatInRange(k, 0, n, span);
      OverlapBlockIsBand(k, n, cp, attnTp);
      NextBand(k, span);
      FlatAdd(k, 0, span, span);
      TailSplit(Family(n, cp, attnTp), Flat(k, 0, attnTp), Flat(k + 1, 0, attnTp));
    }
  }

  /**
   * The overlap list is the attention-CP list, so both communicators span the same ranks: dp blocks of
   * attn_tp * cp ranks in each of `outer` tensor-parallel groups.
   */
  lemma OverlapIsCp(outer: nat, dp: nat, cp: nat, attnTp: nat)
    requires cp >= 1 && attnTp >= 1
    ensures cp * attnTp >= 1
    ensures OverlapList(0, outer * (dp * (cp * attnTp)), cp * attnTp, attnTp) == Family(outer * dp, cp, attnTp)
  {
    FlatIsProduct(cp, 0, attnTp);
    FlatIsProduct(outer * dp, 0, cp * attnTp);
    Reassociate(outer, dp, cp * attnTp);
    OverlapAll(outer * dp, cp, attnTp, cp * attnTp, outer * (dp * (cp * attnTp)));
  }

  lemma OverlapAll(n: nat, cp: nat, attnTp: nat, span: nat, world: nat)
    requires cp >= 1 && attnTp >= 1 && span == Flat(cp, 0, attnTp) && world == Flat(n, 0, span)
    ensures span >= 1 && OverlapList(0, world, span, attnTp) == Family(n, cp, attnTp)
  {
    assert span == attnTp + Flat(cp - 1, 0, attnTp);
    OverlapSuffix(0, n, cp, attnTp, span);
  }

  lemma Reassociate(a: nat, b: nat, c: nat)
    ensures a * b * c == a * (b * c)
  {
  }
}
