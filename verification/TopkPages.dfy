/** A consumer's masked logits, its top-k positions, and their KV slots. */
module TopkPages {
  import opened Arithmetic
  import opened CandidateBlocks

  /** _candidate_mask_kernel: visible and published logits, -inf elsewhere. */
  method CandidateMask(x: Row, keep: seq<bool>, out: array<Score>)
    requires |keep| == |x.logits| == out.Length
    modifies out
    ensures forall c :: 0 <= c < |x.logits| ==> out[c] == if keep[c] then Visible(x, c) else NegInf
  {
    for c := 0 to |x.logits|
      invariant forall k :: 0 <= k < c ==> out[k] == if keep[k] then Visible(x, k) else NegInf
    {
      out[c] := if c < x.length && keep[c] then x.logits[c] else NegInf;
    }
  }

  /** The KV slot of a logical position. */
  function SlotOf(pages: seq<nat>, pageSize: nat, index: nat): nat
    requires pageSize >= 1 && index / pageSize < |pages|
  {
    pages[index / pageSize] * pageSize + index % pageSize
  }

  predicate ValidIndex(scores: seq<Score>, index: int) {
    0 <= index < |scores| && !scores[index].NegInf?
  }

  lemma PageInTable(pages: seq<nat>, pageSize: nat, width: nat, index: nat)
    requires pageSize >= 1 && |pages| * pageSize >= width && index < width
    ensures index / pageSize < |pages|
  {
    var q := index / pageSize;
    assert index == q * pageSize + index % pageSize;
    if q >= |pages| { MulMono(|pages|, q, pageSize); }
  }

  /** _filter_topk_pages: top-k order kept, -1 for positions without a score. */
  method FilterTopkPages(scores: seq<Score>, indices: seq<int>, pages: seq<nat>, pageSize: nat, out: array<int>, raw: array<int>)
    requires pageSize >= 1 && |scores| > 0 && |pages| * pageSize >= |scores|
    requires out.Length == |indices| == raw.Length && out != raw
    modifies out, raw
    ensures forall j :: 0 <= j < |indices| ==> raw[j] == if ValidIndex(scores, indices[j]) then indices[j] else -1
    ensures forall j :: 0 <= j < |indices| && !ValidIndex(scores, indices[j]) ==> out[j] == -1
    ensures forall j :: 0 <= j < |indices| && ValidIndex(scores, indices[j]) ==>
      indices[j] / pageSize < |pages| && out[j] == SlotOf(pages, pageSize, indices[j])
  {
    for j := 0 to |indices|
      invariant forall k :: 0 <= k < j ==> raw[k] == if ValidIndex(scores, indices[k]) then indices[k] else -1
      invariant forall k :: 0 <= k < j && !ValidIndex(scores, indices[k]) ==> out[k] == -1
      invariant forall k :: 0 <= k < j && ValidIndex(scores, indices[k]) ==>
        indices[k] / pageSize < |pages| && out[k] == SlotOf(pages, pageSize, indices[k])
    {
      var index := indices[j];
      if 0 <= index < |scores| && !scores[index].NegInf? {
        PageInTable(pages, pageSize, |scores|, index);
        out[j] := SlotOf(pages, pageSize, index);
        raw[j] := index;
      } else {
        out[j] := -1;
        raw[j] := -1;
      }
    }
  }

  /** Distinct positions have distinct slots when no two pages of the table share a frame. */
  lemma SlotsApart(pages: seq<nat>, pageSize: nat, i: nat, j: nat)
    requires pageSize >= 1 && i / pageSize < |pages| && j / pageSize < |pages|
    requires forall a, b :: 0 <= a < b < |pages| ==> pages[a] != pages[b]
    requires SlotOf(pages, pageSize, i) == SlotOf(pages, pageSize, j)
    ensures i == j
  {
    SlotDigits(pages, pageSize, i);
    SlotDigits(pages, pageSize, j);
    SameDigits(i, j, pageSize);
  }

  /** A slot determines its page's frame and the position's place in the page. */
  lemma SlotDigits(pages: seq<nat>, pageSize: nat, i: nat)
    requires pageSize >= 1 && i / pageSize < |pages|
    ensures SlotOf(pages, pageSize, i) / pageSize == pages[i / pageSize]
    ensures SlotOf(pages, pageSize, i) % pageSize == i % pageSize
  {
    DivModUnique(pages[i / pageSize], i % pageSize, pageSize);
  }

  /**
   * From a source layer's block selection to a consumer layer's slots. The source publishes the columns of
   * its selected blocks; the consumer masks its own logits with them and maps whatever positions a top-k
   * hands it. Each slot other than -1 then stands, in top-k order, for a position that is visible to the
   * consumer, lies in a block the source selected and scored above -inf, and has a logit above -inf itself.
   */
  method SelectSlots(source: Row, topk: nat, sel: seq<nat>, consumer: Row, indices: seq<int>, pages: seq<nat>, pageSize: nat)
    returns (slots: array<int>)
    requires ValidRow(source) && |consumer.logits| == |source.logits| > 0
    requires TopK(Scores(source), topk, sel)
    requires pageSize >= 1 && |pages| * pageSize >= |consumer.logits|
    ensures slots.Length == |indices|
    ensures forall j :: 0 <= j < |indices| ==>
      (slots[j] != -1 <==>
        && 0 <= indices[j] < consumer.length && indices[j] < |consumer.logits|
        && Published(Scores(source), sel, source.group, indices[j]) && !consumer.logits[indices[j]].NegInf?)
    ensures forall j :: 0 <= j < |indices| && slots[j] != -1 ==>
      0 <= indices[j] && indices[j] / pageSize < |pages| && slots[j] == SlotOf(pages, pageSize, indices[j])
    ensures (forall a, b :: 0 <= a < b < |pages| ==> pages[a] != pages[b]) ==>
      forall j, k :: 0 <= j < |indices| && 0 <= k < |indices| && slots[j] == slots[k] != -1 ==> indices[j] == indices[k]
  {
    var keep := new bool[|source.logits|](_ => false);
    PublishMask(Scores(source), sel, source.group, keep);
    var masked := new Score[|consumer.logits|];
    CandidateMask(consumer, keep[..], masked);
    slots := new int[|indices|];
    var raw := new int[|indices|];
    FilterTopkPages(masked[..], indices, pages, pageSize, slots, raw);
    SlotsMapped(masked[..], indices, pages, pageSize, slots[..]);
  }

  /** The slots of scored positions, given as the filter gives them: none is -1, and an injective table keeps them apart. */
  lemma SlotsMapped(scores: seq<Score>, indices: seq<int>, pages: seq<nat>, pageSize: nat, slots: seq<int>)
    requires pageSize >= 1 && |slots| == |indices|
    requires forall j :: 0 <= j < |indices| && !ValidIndex(scores, indices[j]) ==> slots[j] == -1
    requires forall j :: 0 <= j < |indices| && ValidIndex(scores, indices[j]) ==>
      indices[j] / pageSize < |pages| && slots[j] == SlotOf(pages, pageSize, indices[j])
    ensures forall j :: 0 <= j < |indices| ==> (slots[j] != -1 <==> ValidIndex(scores, indices[j]))
    ensures (forall a, b :: 0 <= a < b < |pages| ==> pages[a] != pages[b]) ==>
      forall j, k :: 0 <= j < |indices| && 0 <= k < |indices| && slots[j] == slots[k] != -1 ==> indices[j] == indices[k]
  {
    forall j | 0 <= j < |indices| && ValidIndex(scores, indices[j]) ensures slots[j] >= 0 {
      SlotNotNegative(pages, pageSize, indices[j]);
    }
    if forall a, b :: 0 <= a < b < |pages| ==> pages[a] != pages[b] {
      forall j, k | 0 <= j < |indices| && 0 <= k < |indices| && slots[j] == slots[k] != -1 ensures indices[j] == indices[k] {
        SlotsApart(pages, pageSize, indices[j], indices[k]);
      }
    }
  }

  lemma SlotNotNegative(pages: seq<nat>, pageSize: nat, i: nat)
    requires pageSize >= 1 && i / pageSize < |pages|
    ensures SlotOf(pages, pageSize, i) >= 0
  {
    MulMono(0, pages[i / pageSize], pageSize);
  }
}
