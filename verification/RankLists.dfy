/** Each list of initialize_model_parallel at its own widths, over the ranks of one world. */
module RankLists {
  import opened Arithmetic
  import opened RankGroups

  /** The parallel sizes: pipeline, tensor, attention data and context and tensor, MoE data and expert and tensor, decode context. */
  datatype Widths = Widths(pp: nat, tp: nat, dp: nat, cp: nat, attnTp: nat, moeDp: nat, ep: nat, moeTp: nat, dcp: nat)

  predicate Fit(w: Widths) {
    && w.pp >= 1 && w.dp >= 1 && w.cp >= 1 && w.attnTp >= 1 && w.moeDp >= 1 && w.ep >= 1 && w.moeTp >= 1 && w.dcp >= 1
    && w.tp == w.dp * (w.cp * w.attnTp) && w.tp == w.moeDp * (w.ep * w.moeTp) && w.tp % w.dcp == 0
  }

  function WorldSize(w: Widths): nat { w.pp * w.tp }

  predicate OnlyIn(f: seq<seq<nat>>, r: nat, g: nat) {
    g < |f| && forall k :: 0 <= k < |f| ==> (r in f[k] <==> k == g)
  }

  predicate InOneGroup(f: seq<seq<nat>>, r: nat) {
    exists g :: 0 <= g < |f| && OnlyIn(f, r, g)
  }

  /** Groups of one width that hold every rank of the world once and no other. */
  ghost predicate Partitions(f: seq<seq<nat>>, world: nat, width: nat) {
    && (forall k :: 0 <= k < |f| ==> |f[k]| == width && forall r :: r in f[k] ==> r < world)
    && (forall r: nat :: r < world ==> InOneGroup(f, r))
  }

  /** Every rank of the world is in some group and in no second one; there are no others, and all groups are of the width. */
  lemma PartitionMeans(f: seq<seq<nat>>, world: nat, width: nat, r: nat)
    requires Partitions(f, world, width)
    ensures r < world <==> exists k :: 0 <= k < |f| && r in f[k]
    ensures forall j, k :: 0 <= j < |f| && 0 <= k < |f| && r in f[j] && r in f[k] ==> j == k
    ensures forall k :: 0 <= k < |f| ==> |f[k]| == width
  {
    if r < world {
      assert InOneGroup(f, r);
      var g :| 0 <= g < |f| && OnlyIn(f, r, g);
      assert r in f[g];
    }
  }

  lemma FamilyPartitions(outer: nat, width: nat, stride: nat, world: nat)
    requires width >= 1 && stride >= 1 && world == World(outer, width, stride)
    ensures Partitions(Family(outer, width, stride), world, width)
  {
    var f := Family(outer, width, stride);
    forall k | 0 <= k < |f| ensures |f[k]| == width && forall r :: r in f[k] ==> r < world {
      forall r | r in f[k] ensures r < world { GroupsFit(outer, width, stride, k, r); }
      GroupsFit(outer, width, stride, k, 0);
    }
    forall r: nat | r < world ensures InOneGroup(f, r) {
      var g := Partition(outer, width, stride, r);
      assert OnlyIn(f, r, g);
    }
  }

  /** Blocks of `size` ranks, each cut into `count` sub-blocks of width * stride, fill outer * size ranks. */
  lemma BlocksFill(outer: nat, size: nat, count: nat, width: nat, stride: nat)
    requires size == count * (width * stride)
    ensures World(outer * count, width, stride) == outer * size
  {
    WorldIsProduct(outer * count, width, stride);
    Reassociate(outer * count, width, stride);
    Reassociate(outer, count, width * stride);
  }

  /** The common loop, on the sizes of one list. */
  method List(w: Widths, count: nat, width: nat, stride: nat) returns (groups: seq<seq<nat>>)
    requires count >= 1 && width >= 1 && stride >= 1 && w.tp == count * (width * stride)
    ensures groups == Family(w.pp * count, width, stride) && Partitions(groups, WorldSize(w), width)
  {
    groups := StridedGroups(w.pp, w.tp, count, width, stride);
    BlocksFill(w.pp, w.tp, count, width, stride);
    FamilyPartitions(w.pp * count, width, stride, WorldSize(w));
  }

  lemma TpPositive(w: Widths)
    requires Fit(w)
    ensures w.tp >= 1
  {
    MulMono(1, w.cp, w.attnTp);
    MulMono(1, w.dp, w.cp * w.attnTp);
  }

  method TpList(w: Widths) returns (groups: seq<seq<nat>>)
    requires Fit(w)
    ensures groups == Family(w.pp, w.tp, 1) && Partitions(groups, WorldSize(w), w.tp)
  {
    TpPositive(w);
    groups := List(w, 1, w.tp, 1);
  }

  method AttentionCpList(w: Widths) returns (groups: seq<seq<nat>>)
    requires Fit(w)
    ensures groups == Family(w.pp * w.dp, w.cp, w.attnTp) && Partitions(groups, WorldSize(w), w.cp)
  {
    groups := List(w, w.dp, w.cp, w.attnTp);
  }

  lemma Folded(a: nat, b: nat, c: nat)
    requires a >= 1 && b >= 1
    ensures b * a >= 1 && b * a * (c * 1) == a * (b * c)
  {
    MulMono(1, b, a);
    Reassociate(a, b, c);
    assert b * a == a * b;
  }

  method AttentionTpList(w: Widths) returns (groups: seq<seq<nat>>)
    requires Fit(w)
    ensures groups == Family(w.pp * (w.cp * w.dp), w.attnTp, 1) && Partitions(groups, WorldSize(w), w.attnTp)
  {
    Folded(w.dp, w.cp, w.attnTp);
    groups := List(w, w.cp * w.dp, w.attnTp, 1);
  }

  method MoeDpList(w: Widths) returns (groups: seq<seq<nat>>)
    requires Fit(w)
    ensures groups == Family(w.pp, w.moeDp, w.moeTp * w.ep) && Partitions(groups, WorldSize(w), w.moeDp)
  {
    MulMono(1, w.moeTp, w.ep);
    assert w.moeTp * w.ep == w.ep * w.moeTp;
    groups := List(w, 1, w.moeDp, w.moeTp * w.ep);
  }

  method MoeEpList(w: Widths) returns (groups: seq<seq<nat>>)
    requires Fit(w)
    ensures groups == Family(w.pp * w.moeDp, w.ep, w.moeTp) && Partitions(groups, WorldSize(w), w.ep)
  {
    groups := List(w, w.moeDp, w.ep, w.moeTp);
  }

  method MoeTpList(w: Widths) returns (groups: seq<seq<nat>>)
    requires Fit(w)
    ensures groups == Family(w.pp * (w.ep * w.moeDp), w.moeTp, 1) && Partitions(groups, WorldSize(w), w.moeTp)
  {
    Folded(w.moeDp, w.ep, w.moeTp);
    groups := List(w, w.ep * w.moeDp, w.moeTp, 1);
  }

  method PpList(w: Widths) returns (groups: seq<seq<nat>>)
    requires Fit(w)
    ensures groups == Family(1, w.pp, w.tp) && Partitions(groups, WorldSize(w), w.pp)
  {
    TpPositive(w);
    groups := PipelineGroups(w.tp, w.pp);
    WorldIsProduct(1, w.pp, w.tp);
    FamilyPartitions(1, w.pp, w.tp, WorldSize(w));
  }

  method DcpList(w: Widths) returns (groups: seq<seq<nat>>)
    requires Fit(w)
    ensures groups == Family(w.pp * (w.tp / w.dcp), w.dcp, 1) && Partitions(groups, WorldSize(w), w.dcp)
  {
    TpPositive(w);
    var runs := Div(w.tp, w.dcp);
    DivMod(w.tp, w.dcp);
    if runs == 0 { MulMono(runs, 0, w.dcp); }
    var tpGroups := TpList(w);
    groups := DcpGroups(tpGroups, w.pp, runs, w.dcp);
    WorldIsProduct(w.pp * runs, w.dcp, 1);
    Reassociate(w.pp, runs, w.dcp);
    FamilyPartitions(w.pp * runs, w.dcp, 1, WorldSize(w));
  }

  /** The second attention-CP communicator, from its own comprehension, spans the same ranks. */
  lemma OverlapSpansCp(w: Widths)
    requires Fit(w)
    ensures w.cp * w.attnTp >= 1
    ensures OverlapList(0, WorldSize(w), w.cp * w.attnTp, w.attnTp) == Family(w.pp * w.dp, w.cp, w.attnTp)
  {
    OverlapIsCp(w.pp, w.dp, w.cp, w.attnTp);
  }

  /** An attention-CP group and an attention-TP group meet in one rank or in none. */
  lemma CpMeetsTp(w: Widths, a: nat, c: nat, b: nat, r: nat)
    requires Fit(w) && a < w.pp * w.dp && c < w.attnTp && b < w.pp * (w.cp * w.dp)
    ensures Flat(a, c, w.attnTp) < |Family(w.pp * w.dp, w.cp, w.attnTp)| && b < |Family(w.pp * (w.cp * w.dp), w.attnTp, 1)|
    ensures r in Family(w.pp * w.dp, w.cp, w.attnTp)[Flat(a, c, w.attnTp)] && r in Family(w.pp * (w.cp * w.dp), w.attnTp, 1)[b]
      <==> r == Flat(b, c, w.attnTp) && Quot(b, w.cp) == a
  {
    GroupIsFibre(w.pp * w.dp, w.cp, w.attnTp, a, c, r);
    TpMember(w.attnTp, w.pp * (w.cp * w.dp), b, r);
    FlatOfDigits(r, w.attnTp);
    DigitsOfFlat(b, c, w.attnTp);
  }
}
