/**
 * Candidate-block selection for one row of indexer logits: block scores, the publication of the selected
 * blocks, a consumer's masked logits, and the mapping of its top-k positions to KV slots.
 */
module CandidateBlocks {
  import opened Arithmetic
  import opened Stores

  /** A float32 that is not NaN: the finite values keep only their order. */
  datatype Score = NegInf | Fin(v: int) | PosInf

  predicate AtMost(a: Score, b: Score) {
    a.NegInf? || b.PosInf? || (a.Fin? && b.Fin? && a.v <= b.v)
  }

  function Larger(a: Score, b: Score): (m: Score)
    ensures AtMost(a, m) && AtMost(b, m) && (m == a || m == b)
  {
    if AtMost(a, b) then b else a
  }

  function CeilDiv(a: nat, b: nat): nat
    requires b >= 1
  {
    (a + b - 1) / b
  }

  /** A row of logits with its visible length and block size. */
  datatype Row = Row(logits: seq<Score>, length: int, group: nat)

  predicate ValidRow(x: Row) {
    x.group >= 1
  }

  function Blocks(x: Row): nat
    requires ValidRow(x)
  {
    CeilDiv(|x.logits|, x.group)
  }

  /** What a masked load of column c delivers. */
  function Visible(x: Row, c: nat): Score {
    if c < |x.logits| && c < x.length then x.logits[c] else NegInf
  }

  predicate Newest(x: Row, b: nat)
    requires ValidRow(x)
  {
    x.length > 0 && b == (x.length - 1) / x.group
  }

  // ---------------------------------------------------------------- block scores

  /** The maximum of the visible logits among the first n columns of block b. */
  function BlockMax(x: Row, b: nat, n: nat): Score {
    if n == 0 then NegInf else Larger(BlockMax(x, b, n - 1), Visible(x, b * x.group + (n - 1)))
  }

  function BlockScore(x: Row, b: nat): Score
    requires ValidRow(x)
  {
    if Newest(x, b) then PosInf else BlockMax(x, b, x.group)
  }

  function Scores(x: Row): (s: seq<Score>)
    requires ValidRow(x)
    ensures |s| == Blocks(x) && forall b :: 0 <= b < |s| ==> s[b] == BlockScore(x, b)
  {
    seq(Blocks(x), b requires 0 <= b < Blocks(x) => BlockScore(x, b))
  }

  lemma {:induction false} BlockMaxBounds(x: Row, b: nat, n: nat, i: nat)
    requires i < n
    ensures AtMost(Visible(x, b * x.group + i), BlockMax(x, b, n))
  {
    if i < n - 1 { BlockMaxBounds(x, b, n - 1, i); }
  }

  lemma {:induction false} BlockMaxWitness(x: Row, b: nat, n: nat) returns (i: nat)
    requires !BlockMax(x, b, n).NegInf?
    ensures i < n && BlockMax(x, b, n) == Visible(x, b * x.group + i)
  {
    if BlockMax(x, b, n) == Visible(x, b * x.group + (n - 1)) { i := n - 1; } else { i := BlockMaxWitness(x, b, n - 1); }
  }

  /** A visible logit of the block. */
  predicate VisibleIn(x: Row, b: nat, c: nat)
    requires ValidRow(x)
  {
    c < |x.logits| && c < x.length && c / x.group == b
  }

  /**
   * What a block's score says of its visible logits: +inf for the block of the last visible position;
   * otherwise +inf if some are, -inf if all are, and else the largest of the finite ones.
   */
  ghost predicate ScoreMeans(x: Row, b: nat, score: Score)
    requires ValidRow(x)
  {
    if x.length > 0 && b == (x.length - 1) / x.group then score.PosInf? else
    && (score.PosInf? <==> exists c: nat :: VisibleIn(x, b, c) && x.logits[c].PosInf?)
    && (score.NegInf? <==> forall c: nat :: VisibleIn(x, b, c) ==> x.logits[c].NegInf?)
    && (score.Fin? ==> forall c: nat :: VisibleIn(x, b, c) && x.logits[c].Fin? ==> x.logits[c].v <= score.v)
    && (score.Fin? ==> exists c: nat :: VisibleIn(x, b, c) && x.logits[c].Fin? && x.logits[c].v == score.v)
  }

  /** The column of a lane, and the lane of a column. */
  lemma LaneOf(x: Row, b: nat, c: nat)
    requires ValidRow(x)
    ensures c / x.group == b ==> c % x.group < x.group && c == b * x.group + c % x.group
  {
    DivMod(c, x.group);
  }

  lemma BoundsVisible(x: Row, b: nat, c: nat)
    requires ValidRow(x) && VisibleIn(x, b, c)
    ensures AtMost(x.logits[c], BlockMax(x, b, x.group))
  {
    LaneOf(x, b, c);
    BlockMaxBounds(x, b, x.group, c % x.group);
  }

  lemma MaxIsVisible(x: Row, b: nat) returns (c: nat)
    requires ValidRow(x) && !BlockMax(x, b, x.group).NegInf?
    ensures VisibleIn(x, b, c) && x.logits[c] == BlockMax(x, b, x.group)
  {
    var i := BlockMaxWitness(x, b, x.group);
    DivModUnique(b, i, x.group);
    c := b * x.group + i;
  }

  lemma ScoreMeaning(x: Row, b: nat)
    requires ValidRow(x)
    ensures ScoreMeans(x, b, BlockScore(x, b))
  {
    forall c: nat | VisibleIn(x, b, c) ensures AtMost(x.logits[c], BlockMax(x, b, x.group)) { BoundsVisible(x, b, c); }
    if !Newest(x, b) && !BlockScore(x, b).NegInf? { var c := MaxIsVisible(x, b); }
  }

  /** _candidate_scores_kernel: the row with its tail masked, and one score per block, tile after tile. */
  method CandidateScores(x: Row, tile: nat, pad: nat, out: array<Score>, scores: array<Score>)
    requires ValidRow(x) && tile >= 1 && pad >= x.group
    requires out.Length == |x.logits| && scores.Length == Blocks(x) && out != scores
    modifies out, scores
    ensures forall c :: 0 <= c < |x.logits| ==> out[c] == if c < x.length then x.logits[c] else NegInf
    ensures scores[..] == Scores(x)
    ensures forall b: nat :: b < Blocks(x) ==> ScoreMeans(x, b, scores[b])
  {
    var b, n := 0, Blocks(x);
    var launched := CeilDiv(n, tile) * tile;
    BlocksCover(n, tile);
    while b < launched
      invariant 0 <= b <= launched
      invariant forall c :: 0 <= c < |x.logits| && c < b * x.group ==> out[c] == Visible(x, c)
      invariant forall k :: 0 <= k < b && k < n ==> scores[k] == BlockScore(x, k)
    {
      var best := MaskBlock(x, b, pad, out);
      if x.length > 0 && b == (x.length - 1) / x.group { best := PosInf; }
      if b < n { scores[b] := best; }
      assert (b + 1) * x.group == b * x.group + x.group;
      b := b + 1;
    }
    BlocksCover(|x.logits|, x.group);
    MulMono(n, launched, x.group);
    forall k: nat | k < n ensures ScoreMeans(x, k, scores[k]) { ScoreMeaning(x, k); }
  }

  lemma BlocksCover(n: nat, size: nat)
    requires size >= 1
    ensures n <= CeilDiv(n, size) * size < n + size
  {
    var m := n + size - 1;
    assert m == m / size * size + m % size;
  }

  /** The lanes of one block: padding lanes beyond the group neither load nor store. */
  method MaskBlock(x: Row, b: nat, pad: nat, out: array<Score>) returns (best: Score)
    requires ValidRow(x) && pad >= x.group && out.Length == |x.logits|
    modifies out
    ensures forall c :: 0 <= c < |x.logits| ==>
      out[c] == if b * x.group <= c < b * x.group + x.group then Visible(x, c) else old(out[c])
    ensures best == BlockMax(x, b, x.group)
  {
    best := NegInf;
    var base := b * x.group;
    for i := 0 to pad
      invariant best == BlockMax(x, b, Min(i, x.group))
      invariant forall c :: 0 <= c < |x.logits| ==>
        out[c] == if base <= c < base + Min(i, x.group) then Visible(x, c) else old(out[c])
    {
      if i < x.group {
        var value := Visible(x, base + i);
        if base + i < |x.logits| { out[base + i] := value; }
        best := Larger(best, value);
      }
    }
  }

  /** Lane i of block b, in a launch that covers at least all blocks. */
  datatype ScoreLane = ScoreLane(b: nat, i: nat)

  predicate InBounds(x: Row, w: ScoreLane)
    requires ValidRow(x)
  {
    w.i < x.group && w.b * x.group + w.i < |x.logits|
  }

  function ScoreCol(x: Row, w: ScoreLane): nat {
    w.b * x.group + w.i
  }

  /** No two lanes of the scores kernel store to one column. */
  lemma ScoreOneWriter(x: Row, w: ScoreLane, w': ScoreLane)
    requires ValidRow(x) && InBounds(x, w) && InBounds(x, w') && ScoreCol(x, w) == ScoreCol(x, w')
    ensures w == w'
  {
    DivModUnique(w.b, w.i, x.group);
    DivModUnique(w'.b, w'.i, x.group);
  }

  /** The kernel's stores to OUT in any order, every lane in bounds at least once. */
  ghost predicate IsOutSchedule(x: Row, ws: seq<ScoreLane>, ss: seq<Store<Score>>)
    requires ValidRow(x)
  {
    && |ss| == |ws|
    && (forall n :: 0 <= n < |ws| ==> InBounds(x, ws[n]) && ss[n] == Store(ScoreCol(x, ws[n]), Visible(x, ScoreCol(x, ws[n]))))
    && (forall w :: InBounds(x, w) ==> w in ws)
  }

  lemma OutAnyOrder(x: Row, mem: seq<Score>, ws: seq<ScoreLane>, ss: seq<Store<Score>>, c: nat)
    requires ValidRow(x) && IsOutSchedule(x, ws, ss) && |mem| == |x.logits| && c < |mem|
    ensures Apply(mem, ss)[c] == Visible(x, c)
  {
    var w := ScoreLane(c / x.group, c % x.group);
    DivMod(c, x.group);
    assert InBounds(x, w);
    var n :| 0 <= n < |ws| && ws[n] == w;
    assert ss[n].addr == c;
    StoredValue(mem, ss, c, Visible(x, c));
  }

  /** One store per block to SCORES, in any order. */
  lemma ScoresAnyOrder(x: Row, mem: seq<Score>, bs: seq<nat>, ss: seq<Store<Score>>, b: nat)
    requires ValidRow(x) && |mem| == Blocks(x) && |ss| == |bs| && b < |mem| && b in bs
    requires forall n :: 0 <= n < |bs| ==> ss[n] == Store(bs[n], BlockScore(x, bs[n]))
    ensures Apply(mem, ss)[b] == BlockScore(x, b)
  {
    var n :| 0 <= n < |bs| && bs[n] == b;
    assert ss[n].addr == b;
    StoredValue(mem, ss, b, BlockScore(x, b));
  }

  // ---------------------------------------------------------------- publication

  /** The law of scores.topk(k): k different blocks, none beaten by a block left out. Ties are free. */
  ghost predicate TopK(scores: seq<Score>, k: nat, sel: seq<nat>) {
    && |sel| == Min(k, |scores|)
    && Within(sel, |scores|) && Distinct(sel)
    && (forall i, b :: 0 <= i < |sel| && 0 <= b < |scores| && b !in sel ==> AtMost(scores[b], scores[sel[i]]))
  }

  /** No block that is left out beats a selected one, in the order of the real line with both infinities. */
  lemma SelectionLaw(scores: seq<Score>, k: nat, sel: seq<nat>, i: nat, b: nat)
    requires TopK(scores, k, sel) && i < |sel| && b < |scores| && b !in sel
    ensures sel[i] < |scores| && (scores[b].PosInf? ==> scores[sel[i]].PosInf?) && (scores[sel[i]].NegInf? ==> scores[b].NegInf?)
    ensures scores[b].Fin? && scores[sel[i]].Fin? ==> scores[b].v <= scores[sel[i]].v
  {
    assert AtMost(scores[b], scores[sel[i]]);
  }

  /** The declarative mask: the columns of the selected blocks that scored above -inf. */
  predicate Published(scores: seq<Score>, sel: seq<nat>, group: nat, c: nat)
    requires group >= 1
  {
    c / group in sel && c / group < |scores| && !scores[c / group].NegInf?
  }

  /** The published columns lie in a selected block whose score is above -inf. */
  lemma PublishedMeans(scores: seq<Score>, sel: seq<nat>, group: nat, c: nat)
    requires group >= 1 && Within(sel, |scores|)
    ensures Published(scores, sel, group, c) <==>
      exists i :: 0 <= i < |sel| && sel[i] * group <= c < sel[i] * group + group && !scores[sel[i]].NegInf?
  {
    DivMod(c, group);
    forall i | 0 <= i < |sel| ensures sel[i] * group <= c < sel[i] * group + group <==> c / group == sel[i] {
      if sel[i] * group <= c < sel[i] * group + group { DivModUnique(sel[i], c - sel[i] * group, group); }
    }
  }

  /** Where lane i of _publish_candidate_mask_kernel stores. */
  function PublishCol(sel: seq<nat>, group: nat, i: nat): nat
    requires group >= 1 && i / group < |sel|
  {
    sel[i / group] * group + i % group
  }

  lemma PublishLane(sel: seq<nat>, group: nat, i: nat)
    requires group >= 1 && i < |sel| * group
    ensures i / group < |sel|
    ensures PublishCol(sel, group, i) / group == sel[i / group] && PublishCol(sel, group, i) % group == i % group
  {
    var q := i / group;
    assert i == q * group + i % group;
    if q >= |sel| { MulMono(|sel|, q, group); }
    DivModUnique(sel[q], i % group, group);
  }

  /** torch.topk returns distinct blocks, so each output position has one writer. */
  lemma OneWriter(sel: seq<nat>, group: nat, i: nat, j: nat)
    requires group >= 1 && i < |sel| * group && j < |sel| * group
    requires Distinct(sel)
    ensures i / group < |sel| && j / group < |sel|
    ensures PublishCol(sel, group, i) == PublishCol(sel, group, j) ==> i == j
  {
    PublishLane(sel, group, i);
    PublishLane(sel, group, j);
    if PublishCol(sel, group, i) == PublishCol(sel, group, j) {
      assert sel[i / group] == sel[j / group];
      SameDigits(i, j, group);
    }
  }

  /** The lane that writes a published column. */
  lemma WriterOf(sel: seq<nat>, group: nat, c: nat) returns (i: nat)
    requires group >= 1 && c / group in sel
    ensures i < |sel| * group && i / group < |sel| && PublishCol(sel, group, i) == c
  {
    var a :| 0 <= a < |sel| && sel[a] == c / group;
    i := a * group + c % group;
    DivModUnique(a, c % group, group);
    MulMono(a + 1, |sel|, group);
    assert (a + 1) * group == a * group + group;
    assert c == c / group * group + c % group;
  }

  ghost predicate Distinct(sel: seq<nat>) {
    forall a, b :: 0 <= a < b < |sel| ==> sel[a] != sel[b]
  }

  predicate Within(sel: seq<nat>, n: nat) {
    forall a :: 0 <= a < |sel| ==> sel[a] < n
  }

  /** The store of lane i. */
  function LaneStore(scores: seq<Score>, sel: seq<nat>, group: nat, i: nat): Store<bool>
    requires group >= 1 && i < |sel| * group && Within(sel, |scores|)
  {
    PublishLane(sel, group, i);
    Store(PublishCol(sel, group, i), !scores[sel[i / group]].NegInf?)
  }

  /** What the first n lanes leave at column c of a mask of zeros. */
  function Marked(scores: seq<Score>, sel: seq<nat>, group: nat, n: nat, c: nat): bool
    requires group >= 1 && n <= |sel| * group && Within(sel, |scores|)
  {
    if n == 0 then false
    else
      var st := LaneStore(scores, sel, group, n - 1);
      if st.addr == c then st.value else Marked(scores, sel, group, n - 1, c)
  }

  /** Every lane that stores to a column stores whether that column is published. */
  lemma LaneStoresPublished(scores: seq<Score>, sel: seq<nat>, group: nat, i: nat)
    requires group >= 1 && i < |sel| * group && Within(sel, |scores|)
    ensures var st := LaneStore(scores, sel, group, i); st.value <==> Published(scores, sel, group, st.addr)
  {
    PublishLane(sel, group, i);
  }

  lemma {:induction false} MarkedImpliesPublished(scores: seq<Score>, sel: seq<nat>, group: nat, n: nat, c: nat)
    requires group >= 1 && n <= |sel| * group && Within(sel, |scores|) && Marked(scores, sel, group, n, c)
    ensures Published(scores, sel, group, c)
  {
    LaneStoresPublished(scores, sel, group, n - 1);
    if LaneStore(scores, sel, group, n - 1).addr != c { MarkedImpliesPublished(scores, sel, group, n - 1, c); }
  }

  lemma {:induction false} WriterMarks(scores: seq<Score>, sel: seq<nat>, group: nat, n: nat, c: nat, i: nat)
    requires group >= 1 && i < n <= |sel| * group && Within(sel, |scores|)
    requires LaneStore(scores, sel, group, i).addr == c && Published(scores, sel, group, c)
    ensures Marked(scores, sel, group, n, c)
  {
    LaneStoresPublished(scores, sel, group, n - 1);
    if i < n - 1 { WriterMarks(scores, sel, group, n - 1, c, i); }
  }

  /** All lanes together mark exactly the published columns. */
  lemma MarkedIsPublished(scores: seq<Score>, sel: seq<nat>, group: nat, c: nat)
    requires group >= 1 && Within(sel, |scores|)
    ensures |sel| * group >= 0
    ensures Marked(scores, sel, group, |sel| * group, c) <==> Published(scores, sel, group, c)
  {
    MulMono(0, |sel|, group);
    if Published(scores, sel, group, c) {
      var i := WriterOf(sel, group, c);
      WriterMarks(scores, sel, group, |sel| * group, c, i);
    } else if Marked(scores, sel, group, |sel| * group, c) {
      MarkedImpliesPublished(scores, sel, group, |sel| * group, c);
    }
  }

  /** _publish_candidate_mask_kernel on a mask of zeros, lane after lane. */
  method PublishMask(scores: seq<Score>, sel: seq<nat>, group: nat, keep: array<bool>)
    requires group >= 1 && Within(sel, |scores|)
    requires forall c :: 0 <= c < keep.Length ==> !keep[c]
    modifies keep
    ensures forall c: nat :: c < keep.Length ==> (keep[c] <==> Published(scores, sel, group, c))
  {
    MulMono(0, |sel|, group);
    var i, lanes: nat := 0, |sel| * group;
    while i < lanes
      invariant 0 <= i <= lanes
      invariant forall c: nat :: c < keep.Length ==> (keep[c] <==> Marked(scores, sel, group, i, c))
    {
      var st := LaneStore(scores, sel, group, i);
      if st.addr < keep.Length { keep[st.addr] := st.value; }
      i := i + 1;
    }
    forall c: nat | c < keep.Length
      ensures Marked(scores, sel, group, lanes, c) <==> Published(scores, sel, group, c)
    {
      MarkedIsPublished(scores, sel, group, c);
    }
  }

  /** A schedule of the launch: its stores in any order, every lane at least once. */
  ghost predicate IsSchedule(scores: seq<Score>, sel: seq<nat>, group: nat, lanes: seq<nat>, ss: seq<Store<bool>>)
    requires group >= 1 && Within(sel, |scores|)
  {
    && |ss| == |lanes|
    && (forall n :: 0 <= n < |lanes| ==> lanes[n] < |sel| * group && ss[n] == LaneStore(scores, sel, group, lanes[n]))
    && (forall i: nat :: i < |sel| * group ==> i in lanes)
  }

  lemma ScheduleValue(scores: seq<Score>, sel: seq<nat>, group: nat, lanes: seq<nat>, ss: seq<Store<bool>>, n: nat)
    requires group >= 1 && Within(sel, |scores|) && IsSchedule(scores, sel, group, lanes, ss) && n < |ss|
    ensures ss[n].value <==> Published(scores, sel, group, ss[n].addr)
  {
    LaneStoresPublished(scores, sel, group, lanes[n]);
  }

  lemma ScheduleCovers(scores: seq<Score>, sel: seq<nat>, group: nat, lanes: seq<nat>, ss: seq<Store<bool>>, c: nat) returns (n: nat)
    requires group >= 1 && Within(sel, |scores|) && IsSchedule(scores, sel, group, lanes, ss)
    requires Published(scores, sel, group, c)
    ensures n < |ss| && ss[n].addr == c
  {
    var i := WriterOf(sel, group, c);
    assert i in lanes;
    n :| 0 <= n < |lanes| && lanes[n] == i;
  }

  lemma PublishAnyOrder(scores: seq<Score>, sel: seq<nat>, group: nat, mem: seq<bool>, lanes: seq<nat>, ss: seq<Store<bool>>, c: nat)
    requires group >= 1 && Within(sel, |scores|) && c < |mem| && !mem[c]
    requires IsSchedule(scores, sel, group, lanes, ss)
    ensures Apply(mem, ss)[c] <==> Published(scores, sel, group, c)
  {
    var published := Published(scores, sel, group, c);
    assert forall n :: 0 <= n < |ss| && ss[n].addr == c ==> ss[n].value == published by {
      forall n | 0 <= n < |ss| && ss[n].addr == c ensures ss[n].value == published {
        ScheduleValue(scores, sel, group, lanes, ss, n);
      }
    }
    assert mem[c] == published || exists n :: 0 <= n < |ss| && ss[n].addr == c by {
      if published { var n := ScheduleCovers(scores, sel, group, lanes, ss, c); }
    }
    StoredValue(mem, ss, c, published);
  }

  // ---------------------------------------------------------------- what the selection keeps

  ghost predicate Finite(x: Row) {
    forall c :: 0 <= c < |x.logits| ==> x.logits[c].Fin?
  }

  /** On finite logits only the newest visible block scores +inf. */
  lemma OnlyNewestIsTop(x: Row, b: nat)
    requires ValidRow(x) && Finite(x) && BlockScore(x, b).PosInf?
    ensures Newest(x, b)
  {
    if !Newest(x, b) { var i := BlockMaxWitness(x, b, x.group); }
  }

  lemma NewestBlock(x: Row)
    requires ValidRow(x) && 0 < x.length <= |x.logits|
    ensures (x.length - 1) / x.group < Blocks(x)
  {
    BlocksCover(|x.logits|, x.group);
    var q := (x.length - 1) / x.group;
    assert x.length - 1 == q * x.group + (x.length - 1) % x.group;
    if q >= Blocks(x) { MulMono(Blocks(x), q, x.group); }
  }

  /** The newest visible block is published by every legal selection. */
  lemma NewestIsKept(x: Row, topk: nat, sel: seq<nat>, c: nat)
    requires ValidRow(x) && Finite(x) && 0 < x.length <= |x.logits| && topk >= 1
    requires TopK(Scores(x), topk, sel) && c / x.group == (x.length - 1) / x.group
    ensures Published(Scores(x), sel, x.group, c)
  {
    var b := (x.length - 1) / x.group;
    NewestBlock(x);
    if b !in sel {
      assert AtMost(Scores(x)[b], Scores(x)[sel[0]]);
      OnlyNewestIsTop(x, sel[0]);
    }
  }

  /** A visible logit of the block is +inf. */
  predicate HasInf(x: Row, b: nat)
    requires ValidRow(x)
  {
    exists c :: 0 <= c < |x.logits| && c < x.length && c / x.group == b && x.logits[c].PosInf?
  }

  lemma TopBlock(x: Row, b: nat)
    requires ValidRow(x) && !Newest(x, b)
    ensures BlockScore(x, b).PosInf? <==> HasInf(x, b)
  {
    if BlockScore(x, b).PosInf? {
      var i := BlockMaxWitness(x, b, x.group);
      DivModUnique(b, i, x.group);
      assert x.logits[b * x.group + i].PosInf?;
    }
    if c :| 0 <= c < |x.logits| && c < x.length && c / x.group == b && x.logits[c].PosInf? {
      DivMod(c, x.group);
      BlockMaxBounds(x, b, x.group, c % x.group);
    }
  }

  /** Enough other blocks with a visible +inf to fill the selection. */
  ghost predicate Rivals(x: Row, topk: nat, b: nat, others: seq<nat>)
    requires ValidRow(x)
  {
    && |others| == Min(topk, Blocks(x)) && Distinct(others) && Within(others, Blocks(x)) && b !in others
    && forall i :: 0 <= i < |others| ==> HasInf(x, others[i])
  }

  lemma RivalsTop(x: Row, sel: seq<nat>)
    requires ValidRow(x) && 0 < x.length && (x.length - 1) / x.group !in sel
    ensures forall i :: 0 <= i < |sel| ==> (BlockScore(x, sel[i]).PosInf? <==> HasInf(x, sel[i]))
  {
    forall i | 0 <= i < |sel| ensures BlockScore(x, sel[i]).PosInf? <==> HasInf(x, sel[i]) { TopBlock(x, sel[i]); }
  }

  /** With infinite logits allowed, ties can push the newest block out: exactly when enough other blocks hold one. */
  lemma NewestLostIff(x: Row, topk: nat)
    requires ValidRow(x) && 0 < x.length <= |x.logits|
    ensures var b := (x.length - 1) / x.group;
      (exists sel :: TopK(Scores(x), topk, sel) && b !in sel) <==> (exists others :: Rivals(x, topk, b, others))
  {
    var b := (x.length - 1) / x.group;
    if sel :| TopK(Scores(x), topk, sel) && b !in sel { LostToRivals(x, topk, sel); }
    if others :| Rivals(x, topk, b, others) { RivalsWin(x, topk, others); }
  }

  lemma LostToRivals(x: Row, topk: nat, sel: seq<nat>)
    requires ValidRow(x) && 0 < x.length <= |x.logits|
    requires TopK(Scores(x), topk, sel) && (x.length - 1) / x.group !in sel
    ensures Rivals(x, topk, (x.length - 1) / x.group, sel)
  {
    NewestBlock(x);
    RivalsTop(x, sel);
    forall i | 0 <= i < |sel| ensures HasInf(x, sel[i]) {
      assert AtMost(Scores(x)[(x.length - 1) / x.group], Scores(x)[sel[i]]);
    }
  }

  lemma RivalsWin(x: Row, topk: nat, others: seq<nat>)
    requires ValidRow(x) && 0 < x.length <= |x.logits| && Rivals(x, topk, (x.length - 1) / x.group, others)
    ensures TopK(Scores(x), topk, others)
  {
    NewestBlock(x);
    RivalsTop(x, others);
  }

  /** The smallest case: two blocks of one column, +inf in the older one, and room for one. */
  lemma NewestLost()
    ensures var x := Row([PosInf, Fin(0)], 2, 1);
      TopK(Scores(x), 1, [0]) && Newest(x, 1) && !Published(Scores(x), [0], 1, 1)
  {
    var x := Row([PosInf, Fin(0)], 2, 1);
    assert x.logits[0].PosInf? && 0 / x.group == 0;
    assert HasInf(x, 0);
    TopBlock(x, 0);
    assert Scores(x)[0].PosInf? && Scores(x)[1].PosInf?;
  }

  /** A block scores above -inf exactly when it holds a visible position, on finite logits. */
  lemma VisibleBlockScores(x: Row, c: nat)
    requires ValidRow(x) && Finite(x) && c < x.length <= |x.logits|
    ensures !BlockScore(x, c / x.group).NegInf?
  {
    assert c == c / x.group * x.group + c % x.group;
    BlockMaxBounds(x, c / x.group, x.group, c % x.group);
  }

  lemma HiddenBlockScores(x: Row, b: nat)
    requires ValidRow(x) && 0 < x.length && b > (x.length - 1) / x.group
    ensures BlockScore(x, b).NegInf?
  {
    PastLength(x, b);
    AllHidden(x, b, x.group);
  }

  lemma PastLength(x: Row, b: nat)
    requires ValidRow(x) && 0 < x.length && b > (x.length - 1) / x.group
    ensures b * x.group >= x.length
  {
    var q := (x.length - 1) / x.group;
    DivMod(x.length - 1, x.group);
    Successor(q, x.group);
    MulMono(q + 1, b, x.group);
  }

  lemma {:induction false} AllHidden(x: Row, b: nat, n: nat)
    requires b * x.group >= x.length
    ensures BlockMax(x, b, n).NegInf?
  {
    if n > 0 { AllHidden(x, b, n - 1); }
  }

  /** Distinct numbers below n that leave one out are fewer than n. */
  lemma {:induction false} DistinctBelow(sel: seq<nat>, n: nat, b: nat)
    requires Distinct(sel) && Within(sel, n) && b < n && b !in sel
    ensures |sel| < n
  {
    if m :| 0 <= m < |sel| && sel[m] == n - 1 {
      // move the place of n - 1 down to a number below it
      var rest := sel[..m] + sel[m + 1..];
      assert forall i :: 0 <= i < |rest| ==> rest[i] == if i < m then sel[i] else sel[i + 1];
      assert Within(rest, n - 1);
      if b < n - 1 { DistinctBelow(rest, n - 1, b); }
    } else if b < n - 1 {
      assert Within(sel, n - 1);
      DistinctBelow(sel, n - 1, b);
    } else {
      assert Within(sel, n - 1);
      AtMostBelow(sel, n - 1);
    }
  }

  lemma {:induction false} AtMostBelow(sel: seq<nat>, n: nat)
    requires Distinct(sel) && Within(sel, n)
    ensures |sel| <= n
  {
    if sel != [] { assert sel[0] < n; }
    if m :| 0 <= m < |sel| && sel[m] == n - 1 {
      var rest := sel[..m] + sel[m + 1..];
      assert forall i :: 0 <= i < |rest| ==> rest[i] == if i < m then sel[i] else sel[i + 1];
      AtMostBelow(rest, n - 1);
    } else if n > 0 {
      AtMostBelow(sel, n - 1);
    }
  }

  /** When the visible blocks number at most topk, no visible position is lost. */
  lemma FewBlocksAllKept(x: Row, topk: nat, sel: seq<nat>, c: nat)
    requires ValidRow(x) && Finite(x) && c < x.length <= |x.logits|
    requires (x.length - 1) / x.group + 1 <= topk
    requires TopK(Scores(x), topk, sel)
    ensures Published(Scores(x), sel, x.group, c)
  {
    var last, b := (x.length - 1) / x.group, c / x.group;
    NewestBlock(x);
    DivMono(c, x.length - 1, x.group);
    VisibleBlockScores(x, c);
    if b !in sel {
      forall i | 0 <= i < |sel| ensures sel[i] < last + 1 {
        assert AtMost(Scores(x)[b], Scores(x)[sel[i]]);
        if sel[i] > last { HiddenBlockScores(x, sel[i]); }
      }
      DistinctBelow(sel, last + 1, b);
    }
  }
}
