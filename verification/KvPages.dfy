/**
 * Re-layout of the paged KV cache: pages of P tokens, with the scales behind the data, are copied into
 * pages of 64 tokens of the same form. Memory is counted in 8-byte lanes, as the copy kernel does.
 */
module KvPages {
  import opened Arithmetic
  import opened Rows

  type Lane = b: Bytes | |b| == 8 witness [0, 0, 0, 0, 0, 0, 0, 0]

  const TOKENS: nat := 64                   // tokens of a destination page
  const DATA_LANES: nat := 72               // 576 bytes of data per token
  const PAGE_DATA: nat := 4608              // data lanes of a destination page
  const PAGE_USED: nat := 4672              // data and scale lanes of a destination page
  const PAGE_LANES: nat := 4680             // 37440 bytes: padded up to a multiple of 576

  /** 64 tokens of 576 data bytes and 8 scale bytes, padded to the least multiple of 576 bytes that holds them. */
  lemma PageSize()
    ensures 8 * PAGE_DATA == 64 * 576 && 8 * PAGE_USED == 64 * 576 + 64 * 8 && 8 * DATA_LANES == 576 && TOKENS == 64
    ensures 8 * PAGE_LANES % 576 == 0 && 8 * PAGE_USED <= 8 * PAGE_LANES < 8 * PAGE_USED + 576
  {
  }

  /** A source buffer: pages tokens-per-page = 64 * ratio, stride lanes apart. */
  datatype Source = Source(mem: seq<Lane>, pages: nat, ratio: nat, stride: nat)

  predicate ValidSource(s: Source) {
    s.ratio >= 1 && s.stride >= s.ratio * PAGE_USED && |s.mem| == s.pages * s.stride
  }

  function PageTokens(s: Source): nat {
    s.ratio * TOKENS
  }

  // ---------------------------------------------------------------- what a page becomes

  /** First data lane and first scale lane, in the source, of destination page d. */
  function DataFrom(s: Source, d: nat): nat
    requires s.ratio >= 1
  {
    d / s.ratio * s.stride + d % s.ratio * PAGE_DATA
  }

  function ScaleFrom(s: Source, d: nat): nat
    requires s.ratio >= 1
  {
    d / s.ratio * s.stride + s.ratio * PAGE_DATA + d % s.ratio * TOKENS
  }

  lemma PageInside(s: Source, d: nat)
    requires ValidSource(s) && d < s.pages * s.ratio
    ensures d / s.ratio < s.pages
    ensures DataFrom(s, d) + PAGE_DATA <= ScaleFrom(s, d)
    ensures ScaleFrom(s, d) + TOKENS <= |s.mem|
  {
    var q, r := d / s.ratio, d % s.ratio;
    assert d == q * s.ratio + r;
    if q >= s.pages { MulMono(s.pages, q, s.ratio); }
    MulMono(q + 1, s.pages, s.stride);
    assert (q + 1) * s.stride == q * s.stride + s.stride;
  }

  function Page(mem: seq<Lane>, d: nat): seq<Lane>
    requires (d + 1) * PAGE_LANES <= |mem|
  {
    mem[d * PAGE_LANES..(d + 1) * PAGE_LANES]
  }

  /** The 64-token page d: data, then scales, then whatever padding was there. */
  function SplitPage(s: Source, d: nat, stale: seq<Lane>): (p: seq<Lane>)
    requires ValidSource(s) && d < s.pages * s.ratio && |stale| == PAGE_LANES
    ensures |p| == PAGE_LANES
  {
    PageInside(s, d);
    s.mem[DataFrom(s, d)..DataFrom(s, d) + PAGE_DATA]
    + s.mem[ScaleFrom(s, d)..ScaleFrom(s, d) + TOKENS]
    + stale[PAGE_USED..]
  }

  // ---------------------------------------------------------------- token indices keep their meaning

  /** The addressing of _gather_and_dequant: lane l of token t's data, and its lane of scales. */
  function DataLane(t: nat, l: nat, pageTokens: nat, stride: nat): nat
    requires pageTokens >= 1
  {
    t / pageTokens * stride + t % pageTokens * DATA_LANES + l
  }

  function ScaleLane(t: nat, pageTokens: nat, stride: nat): nat
    requires pageTokens >= 1
  {
    t / pageTokens * stride + pageTokens * DATA_LANES + t % pageTokens
  }

  /** Tokens do not share lanes: a data lane belongs to one token and place, a scale lane to one token. */
  lemma LanesApart(t: nat, l: nat, u: nat, k: nat, pageTokens: nat, stride: nat)
    requires pageTokens >= 1 && stride >= pageTokens * (DATA_LANES + 1) && l < DATA_LANES && k < DATA_LANES
    ensures DataLane(t, l, pageTokens, stride) == DataLane(u, k, pageTokens, stride) ==> t == u && l == k
    ensures ScaleLane(t, pageTokens, stride) == ScaleLane(u, pageTokens, stride) ==> t == u
    ensures DataLane(t, l, pageTokens, stride) != ScaleLane(u, pageTokens, stride)
  {
    LanePlace(t, l, pageTokens, stride);
    LanePlace(u, k, pageTokens, stride);
    if t / pageTokens == u / pageTokens && t % pageTokens == u % pageTokens { SameDigits(t, u, pageTokens); }
  }

  /** A lane's page and its place in the page: the data of all tokens, token after token, then one lane of scales for each. */
  lemma LanePlace(t: nat, l: nat, pageTokens: nat, stride: nat)
    requires pageTokens >= 1 && stride >= pageTokens * (DATA_LANES + 1) && l < DATA_LANES
    ensures stride >= 1
    ensures DataLane(t, l, pageTokens, stride) / stride == ScaleLane(t, pageTokens, stride) / stride == t / pageTokens
    ensures DataLane(t, l, pageTokens, stride) % stride == t % pageTokens * 72 + l < pageTokens * 72
    ensures ScaleLane(t, pageTokens, stride) % stride == pageTokens * 72 + t % pageTokens
  {
    var o := t % pageTokens;
    MulMono(o + 1, pageTokens, DATA_LANES);
    DivModUnique(t / pageTokens, o * DATA_LANES + l, stride);
    DivModUnique(t / pageTokens, pageTokens * DATA_LANES + o, stride);
  }

  /** A token's page and place under pages of 64 * ratio tokens and under pages of 64. */
  lemma TokenSplit(t: nat, ratio: nat)
    requires ratio >= 1
    ensures var p, d := ratio * TOKENS, t / TOKENS;
      && d / ratio == t / p && t % p == d % ratio * TOKENS + t % TOKENS
  {
    var p, d, o := ratio * TOKENS, t / TOKENS, t % TOKENS;
    var q, s := d / ratio, d % ratio;
    assert d == q * ratio + s && t == d * TOKENS + o;
    assert t == (q * ratio + s) * TOKENS + o == q * p + (s * TOKENS + o);
    MulMono(s + 1, ratio, TOKENS);
    DivModUnique(q, s * TOKENS + o, p);
  }

  /** Token t of a split page reads, lane by lane, what token t of the source reads. */
  lemma TokenMeaning(s: Source, mem: seq<Lane>, stale: seq<Lane>, t: nat, l: nat)
    requires ValidSource(s) && t / TOKENS < s.pages * s.ratio && l < DATA_LANES
    requires |mem| >= (t / TOKENS + 1) * PAGE_LANES && |stale| == PAGE_LANES
    requires Page(mem, t / TOKENS) == SplitPage(s, t / TOKENS, stale)
    ensures DataLane(t, l, PageTokens(s), s.stride) < |s.mem| && ScaleLane(t, PageTokens(s), s.stride) < |s.mem|
    ensures mem[DataLane(t, l, TOKENS, PAGE_LANES)] == s.mem[DataLane(t, l, PageTokens(s), s.stride)]
    ensures mem[ScaleLane(t, TOKENS, PAGE_LANES)] == s.mem[ScaleLane(t, PageTokens(s), s.stride)]
  {
    var d, o := t / TOKENS, t % TOKENS;
    TokenSplit(t, s.ratio);
    PageInside(s, d);
    var page := SplitPage(s, d, stale);
    assert mem[d * PAGE_LANES + (o * DATA_LANES + l)] == page[o * DATA_LANES + l];
    assert page[o * DATA_LANES + l] == s.mem[DataFrom(s, d) + (o * DATA_LANES + l)];
    assert mem[d * PAGE_LANES + (PAGE_DATA + o)] == page[PAGE_DATA + o];
    assert page[PAGE_DATA + o] == s.mem[ScaleFrom(s, d) + o];
  }
}
