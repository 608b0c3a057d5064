/** Pairing the FP8 wo_a weights with their scales: the streaming generator against the batch one. */
module WoA {

  /** A tensor of the checkpoint, or what _dequant_fp8 makes of two tensors. */
  datatype Tensor = Raw(bits: int) | Dequant(weight: Tensor, scale: Tensor)

  /** A name that ends in .wo_a.weight or .wo_a.scale, split before that suffix, or any other name. */
  datatype Name = WeightOf(stem: string) | ScaleOf(stem: string) | Plain(text: string)

  datatype Named = Named(name: Name, tensor: Tensor)

  type Dictionary = map<Name, Tensor>

  // ---------------------------------------------------------------- names

  /** name.endswith(suffix) */
  predicate EndsWith(text: string, suffix: string) {
    |suffix| <= |text| && text[|text| - |suffix|..] == suffix
  }

  function NameOf(text: string): Name {
    if EndsWith(text, WEIGHT) then WeightOf(text[..|text| - |WEIGHT|])
    else if EndsWith(text, SCALE) then ScaleOf(text[..|text| - |SCALE|])
    else Plain(text)
  }

  function TextOf(n: Name): string {
    match n
    case WeightOf(s) => s + ".wo_a.weight"
    case ScaleOf(s) => s + ".wo_a.scale"
    case Plain(t) => t
  }

  /** Splitting a name loses nothing, and tells weights, scales and other names apart by their suffix. */
  lemma NamesSplit(text: string)
    ensures TextOf(NameOf(text)) == text
    ensures NameOf(text).WeightOf? <==> EndsWith(text, ".wo_a.weight")
    ensures NameOf(text).ScaleOf? <==> EndsWith(text, ".wo_a.scale")
  {
    if EndsWith(text, WEIGHT) {
      assert text[|text| - 1] == WEIGHT[|WEIGHT| - 1];
    } else if EndsWith(text, SCALE) {
      assert text[|text| - 1] == SCALE[|SCALE| - 1];
    }
    if EndsWith(text, SCALE) { assert text[|text| - 1] == text[|text| - |SCALE|..][|SCALE| - 1]; }
  }

  lemma SuffixOf(stem: string, suffix: string)
    ensures EndsWith(stem + suffix, suffix) && (stem + suffix)[..|stem|] == stem
  {
  }

  lemma NameOfWeight(stem: string)
    ensures NameOf(stem + WEIGHT) == WeightOf(stem)
  {
    SuffixOf(stem, WEIGHT);
  }

  lemma NameOfScale(stem: string)
    ensures NameOf(stem + SCALE) == ScaleOf(stem)
  {
    SuffixOf(stem, SCALE);
    NamesSplit(stem + SCALE);
  }

  /** The scale that the batch form looks up: the weight's name with every occurrence replaced. */
  lemma ScaleName(stem: string)
    ensures NameOf(Replace(TextOf(WeightOf(stem)))) == ScaleOf(Replace(stem))
  {
    ReplaceName(stem);
    NameOfScale(Replace(stem));
  }

  // ---------------------------------------------------------------- dictionaries

  predicate Unique(ws: seq<Named>) {
    forall i, j :: 0 <= i < j < |ws| ==> ws[i].name != ws[j].name
  }

  function Dict(ws: seq<Named>): (m: Dictionary)
    ensures forall n :: n in m <==> exists i :: 0 <= i < |ws| && ws[i].name == n
  {
    if ws == [] then map[] else
    var last := ws[|ws| - 1];
    Dict(ws[..|ws| - 1])[last.name := last.tensor]
  }

  /** The items that both generators hand on, in the order in which they come. */
  function PassThrough(ws: seq<Named>): seq<Named> {
    if ws == [] then [] else
    var x, rest := ws[|ws| - 1], PassThrough(ws[..|ws| - 1]);
    if x.name.Plain? then rest + [x] else rest
  }

  lemma Snoc(ws: seq<Named>, x: Named)
    ensures Dict(ws + [x]) == Dict(ws)[x.name := x.tensor]
    ensures PassThrough(ws + [x]) == PassThrough(ws) + if x.name.Plain? then [x] else []
    ensures Unique(ws) && x.name !in Dict(ws) ==> Unique(ws + [x])
  {
    assert (ws + [x])[..|ws|] == ws;
  }

  /** The k-th item of a list without repeated names is new to the items before it. */
  lemma Next(ws: seq<Named>, k: nat)
    requires Unique(ws) && k < |ws|
    ensures Dict(ws[..k + 1]) == Dict(ws[..k])[ws[k].name := ws[k].tensor] && ws[k].name !in Dict(ws[..k])
    ensures PassThrough(ws[..k + 1]) == PassThrough(ws[..k]) + if ws[k].name.Plain? then [ws[k]] else []
  {
    assert ws[..k + 1] == ws[..k] + [ws[k]];
    Snoc(ws[..k], ws[k]);
  }

  // ---------------------------------------------------------------- what should come out

  /** A weight without its scale, or a scale without its weight. */
  predicate Orphan(m: Dictionary, n: Name) {
    match n
    case WeightOf(s) => ScaleOf(s) !in m
    case ScaleOf(s) => WeightOf(s) !in m
    case Plain(_) => false
  }

  function ValueOf(m: Dictionary, n: Name): Tensor
    requires n in m
  {
    if n.WeightOf? && ScaleOf(n.stem) in m then Dequant(m[n], m[ScaleOf(n.stem)]) else m[n]
  }

  /** Whatever the order of arrival: each pair under its weight's name, everything else unchanged. */
  function Paired(m: Dictionary): Dictionary {
    map n | n in m && (n.ScaleOf? ==> Orphan(m, n)) :: ValueOf(m, n)
  }

  /**
   * A weight and its scale become one item under the weight's name, the weight dequantised by the scale, and
   * the scale's name is gone; whatever has no partner stays as it is, and nothing else comes out.
   */
  lemma PairedMeans(m: Dictionary, n: Name)
    ensures n in Paired(m) ==> n in m
    ensures n.Plain? && n in m ==> n in Paired(m) && Paired(m)[n] == m[n]
    ensures n.WeightOf? && n in m ==> n in Paired(m)
    ensures n.WeightOf? && n in m ==> Paired(m)[n] == if ScaleOf(n.stem) in m then Dequant(m[n], m[ScaleOf(n.stem)]) else m[n]
    ensures n.ScaleOf? && n in m ==> (n in Paired(m) <==> WeightOf(n.stem) !in m)
    ensures n.ScaleOf? && n in Paired(m) ==> Paired(m)[n] == m[n]
  {
  }

  /** The part of it that is not an orphan. */
  function Settled(m: Dictionary): Dictionary {
    map n | n in m && !n.ScaleOf? && !Orphan(m, n) :: ValueOf(m, n)
  }

  predicate HasScale(m: Dictionary) { exists n :: n in m && n.ScaleOf? }

  predicate LacksScale(m: Dictionary) { exists n :: n in m && n.WeightOf? && Orphan(m, n) }

  // ---------------------------------------------------------------- the streaming form

  datatype Held = HeldWeight(tensor: Tensor) | HeldScale(tensor: Tensor)

  function HeldName(stem: string, h: Held): Name {
    if h.HeldWeight? then WeightOf(stem) else ScaleOf(stem)
  }

  /** pending holds exactly the orphans of what has arrived. */
  predicate Holds(pending: map<string, Held>, m: Dictionary) {
    && (forall s :: s in pending ==>
          var n := HeldName(s, pending[s]); n in m && Orphan(m, n) && m[n] == pending[s].tensor)
    && (forall n :: n in m && Orphan(m, n) ==> n.stem in pending && HeldName(n.stem, pending[n.stem]) == n)
  }

  function Joined(m: Dictionary, n: Name, t: Tensor): Dictionary {
    match n
    case Plain(_) => Settled(m)[n := t]
    case WeightOf(s) => if ScaleOf(s) in m then Settled(m)[n := Dequant(t, m[ScaleOf(s)])] else Settled(m)
    case ScaleOf(s) => if WeightOf(s) in m then Settled(m)[WeightOf(s) := Dequant(m[WeightOf(s)], t)] else Settled(m)
  }

  lemma Arrive(m: Dictionary, n: Name, t: Tensor)
    requires n !in m
    ensures Settled(m[n := t]) == Joined(m, n, t)
  {
  }

  lemma HoldsAfter(pending: map<string, Held>, m: Dictionary, n: Name, t: Tensor)
    requires Holds(pending, m) && n !in m
    ensures n.Plain? ==> Holds(pending, m[n := t])
    ensures n.WeightOf? && ScaleOf(n.stem) in m ==> Holds(pending - {n.stem}, m[n := t])
    ensures n.WeightOf? && ScaleOf(n.stem) !in m ==> Holds(pending[n.stem := HeldWeight(t)], m[n := t])
    ensures n.ScaleOf? && WeightOf(n.stem) in m ==> Holds(pending - {n.stem}, m[n := t])
    ensures n.ScaleOf? && WeightOf(n.stem) !in m ==> Holds(pending[n.stem := HeldScale(t)], m[n := t])
  {
  }

  /**
   * The streaming generator; ok is false where its assertion fails. It does so exactly when some weight
   * has no scale although scales exist.
   */
  method Stream(ws: seq<Named>) returns (out: seq<Named>, ok: bool)
    requires Unique(ws)
    ensures ok <==> !(HasScale(Dict(ws)) && LacksScale(Dict(ws)))
    ensures ok ==> Unique(out) && Dict(out) == Paired(Dict(ws)) && PassThrough(out) == PassThrough(ws)
  {
    var pending: map<string, Held> := map[];
    var sawScale := false;
    out := [];
    for k := 0 to |ws|
      invariant Unique(out) && Dict(out) == Settled(Dict(ws[..k])) && Holds(pending, Dict(ws[..k]))
      invariant PassThrough(out) == PassThrough(ws[..k]) && (sawScale <==> HasScale(Dict(ws[..k])))
    {
      var n, t := ws[k].name, ws[k].tensor;
      Next(ws, k);
      Arrive(Dict(ws[..k]), n, t);
      HoldsAfter(pending, Dict(ws[..k]), n, t);
      var item := ws[k];
      match n {
        case WeightOf(s) =>
          if s in pending && pending[s].HeldScale? {
            item := Named(n, Dequant(t, pending[s].tensor));
            Snoc(out, item);
            pending := pending - {s};
            out := out + [item];
          } else {
            pending := pending[s := HeldWeight(t)];
          }
        case ScaleOf(s) =>
          sawScale := true;
          if s in pending && pending[s].HeldWeight? {
            item := Named(WeightOf(s), Dequant(pending[s].tensor, t));
            Snoc(out, item);
            pending := pending - {s};
            out := out + [item];
          } else {
            pending := pending[s := HeldScale(t)];
          }
        case Plain(_) =>
          Snoc(out, item);
          out := out + [item];
      }
    }
    assert ws[..|ws|] == ws;
    out, ok := Flush(pending, sawScale, out, Dict(ws));
  }

  /** The result while the orphans with the stems in `left` are still to come. */
  ghost predicate Flushed(d: Dictionary, m: Dictionary, left: set<string>) {
    && (forall n :: n in d <==> n in Settled(m) || (n in m && Orphan(m, n) && n.stem !in left))
    && (forall n :: n in d ==> n in m && d[n] == ValueOf(m, n))
  }

  lemma FlushOne(pending: map<string, Held>, d: Dictionary, m: Dictionary, left: set<string>, s: string)
    requires Holds(pending, m) && Flushed(d, m, left) && s in left && s in pending
    ensures HeldName(s, pending[s]) !in d
    ensures Flushed(d[HeldName(s, pending[s]) := pending[s].tensor], m, left - {s})
  {
  }

  lemma AllFlushed(d: Dictionary, m: Dictionary)
    requires Flushed(d, m, {})
    ensures d == Paired(m)
  {
  }

  /** The leftovers, in whatever order the dictionary holds them. */
  method Flush(pending: map<string, Held>, sawScale: bool, settled: seq<Named>, ghost m: Dictionary)
    returns (out: seq<Named>, ok: bool)
    requires Unique(settled) && Dict(settled) == Settled(m) && Holds(pending, m) && (sawScale <==> HasScale(m))
    ensures ok <==> !(HasScale(m) && LacksScale(m))
    ensures ok ==> Unique(out) && Dict(out) == Paired(m) && PassThrough(out) == PassThrough(settled)
  {
    out := settled;
    var left := pending.Keys;
    ghost var d := Dict(settled);
    while left != {}
      invariant left <= pending.Keys && Unique(out) && PassThrough(out) == PassThrough(settled)
      invariant d == Dict(out) && Flushed(d, m, left)
      invariant forall s :: s in pending && s !in left && pending[s].HeldWeight? ==> !sawScale
      decreases |left|
    {
      var s :| s in left;
      if pending[s].HeldWeight? && sawScale {
        assert WeightOf(s) in m && Orphan(m, WeightOf(s));
        return out, false;
      }
      var item := Named(HeldName(s, pending[s]), pending[s].tensor);
      FlushOne(pending, d, m, left, s);
      Snoc(out, item);
      d := d[item.name := item.tensor];
      out, left := out + [item], left - {s};
    }
    AllFlushed(d, m);
    ok := true;
  }

  /** Without scales nothing changes but the order. */
  lemma NoScales(ws: seq<Named>, out: seq<Named>)
    requires Unique(ws) && Unique(out) && Dict(out) == Paired(Dict(ws)) && !HasScale(Dict(ws))
    ensures multiset(out) == multiset(ws)
  {
    assert Paired(Dict(ws)) == Dict(ws);
    SameItems(out, ws);
  }

  lemma SameItems(a: seq<Named>, b: seq<Named>)
    requires Unique(a) && Unique(b) && Dict(a) == Dict(b)
    ensures multiset(a) == multiset(b)
  {
    forall x ensures multiset(a)[x] == multiset(b)[x] {
      Count(a, x);
      Count(b, x);
    }
  }

  lemma {:induction false} Count(ws: seq<Named>, x: Named)
    requires Unique(ws)
    ensures multiset(ws)[x] == if x.name in Dict(ws) && Dict(ws)[x.name] == x.tensor then 1 else 0
  {
    if ws != [] {
      var init, last := ws[..|ws| - 1], ws[|ws| - 1];
      assert ws == init + [last];
      Count(init, x);
    }
  }

  /** Something is pending at the end exactly when something lacks its partner. */
  lemma PendingIsOrphans(pending: map<string, Held>, m: Dictionary)
    requires Holds(pending, m)
    ensures pending == map[] <==> forall n :: n in m ==> !Orphan(m, n)
  {
    if pending != map[] {
      var s :| s in pending;
      assert Orphan(m, HeldName(s, pending[s]));
    }
  }

  // ---------------------------------------------------------------- the batch form

  const WEIGHT: string := ".wo_a.weight"
  const SCALE: string := ".wo_a.scale"

  /** s.replace(".wo_a.weight", ".wo_a.scale") */
  function Replace(s: string): string {
    if s == "" then "" else if WEIGHT <= s then SCALE + Replace(s[|WEIGHT|..]) else [s[0]] + Replace(s[1..])
  }

  /** What tells a position at which the pattern does not occur. */
  lemma NoMatch(pattern: string, s: string, at: nat)
    requires at < |pattern| && at < |s| && s[at] != pattern[at]
    ensures !(pattern <= s)
  {
    assert pattern <= s ==> s[at] == pattern[at];
  }

  /** The pattern does not overlap itself. */
  lemma NoOverlap(stem: string)
    requires stem != ""
    ensures WEIGHT <= stem + WEIGHT <==> WEIGHT <= stem
  {
    var name := stem + WEIGHT;
    if |stem| == 5 { NoMatch(WEIGHT, name, 7); } else if |stem| < |WEIGHT| { NoMatch(WEIGHT, name, |stem|); }
    assert WEIGHT <= name && |stem| >= |WEIGHT| ==> WEIGHT == name[..|WEIGHT|] == stem[..|WEIGHT|];
    assert WEIGHT <= stem ==> WEIGHT == stem[..|WEIGHT|] == name[..|WEIGHT|];
  }

  /** The suffix of a weight's name is always replaced, and never as a part of another occurrence. */
  lemma {:induction false} ReplaceName(stem: string)
    ensures Replace(stem + WEIGHT) == Replace(stem) + SCALE
  {
    var name := stem + WEIGHT;
    if stem == "" {
      assert name == WEIGHT && Replace(name[|WEIGHT|..]) == "";
    } else {
      NoOverlap(stem);
      if WEIGHT <= stem {
        assert name[|WEIGHT|..] == stem[|WEIGHT|..] + WEIGHT;
        ReplaceName(stem[|WEIGHT|..]);
      } else {
        assert name[1..] == stem[1..] + WEIGHT;
        ReplaceName(stem[1..]);
      }
    }
  }

  /** The first occurrence is replaced, and replacing goes on behind it. */
  lemma ReplaceFirst(a: string, b: string)
    requires forall i :: 0 <= i < |a| ==> !(".wo_a.weight" <= (a + ".wo_a.weight" + b)[i..])
    ensures Replace(a + ".wo_a.weight" + b) == a + ".wo_a.scale" + Replace(b)
  {
    var tail := WEIGHT + b;
    assert a + WEIGHT + b == a + tail;
    forall i | 0 <= i < |a| ensures !(WEIGHT <= a[i..] + tail) { assert (a + WEIGHT + b)[i..] == a[i..] + tail; }
    ReplaceBehind(a, tail);
    assert tail[..|WEIGHT|] == WEIGHT && tail[|WEIGHT|..] == b;
    assert Replace(tail) == SCALE + Replace(b);
  }

  lemma NoMatchInScale(s: string, i: nat)
    requires i < |SCALE| && SCALE[i..] <= s
    ensures !(WEIGHT <= s)
  {
    assert forall k :: 0 <= k < |SCALE| - i ==> s[k] == SCALE[i..][k] == SCALE[i + k];
    if i == 0 { NoMatch(WEIGHT, s, 6); } else if i == 5 { NoMatch(WEIGHT, s, 1); } else { NoMatch(WEIGHT, s, 0); }
  }

  lemma ReplaceStep(c: char, s: string)
    requires !(WEIGHT <= [c] + s)
    ensures Replace([c] + s) == [c] + Replace(s)
  {
    assert ([c] + s)[1..] == s;
  }

  lemma {:induction false} ReplaceBehind(prefix: string, x: string)
    requires forall i :: 0 <= i < |prefix| ==> !(WEIGHT <= prefix[i..] + x)
    ensures Replace(prefix + x) == prefix + Replace(x)
  {
    if prefix == "" {
      assert prefix + x == x;
    } else {
      var rest := prefix[1..];
      assert prefix[0..] == prefix && prefix == [prefix[0]] + rest && prefix + x == [prefix[0]] + (rest + x);
      forall i | 0 <= i < |rest| ensures !(WEIGHT <= rest[i..] + x) { assert rest[i..] == prefix[i + 1..]; }
      ReplaceStep(prefix[0], rest + x);
      ReplaceBehind(rest, x);
    }
  }

  /** No occurrence of the pattern begins inside a replacement. */
  lemma ReplaceAfterScale(x: string)
    ensures Replace(SCALE + x) == SCALE + Replace(x)
  {
    forall i | 0 <= i < |SCALE| ensures !(WEIGHT <= SCALE[i..] + x) { NoMatchInScale(SCALE[i..] + x, i); }
    ReplaceBehind(SCALE, x);
  }

  lemma NoSuffixOfPattern(r: string, i: nat)
    requires 1 <= i < |WEIGHT| && SCALE <= r
    ensures !(WEIGHT[i..] <= r)
  {
    var p := WEIGHT[i..];
    assert r[0] == SCALE[0] && p[0] == WEIGHT[i];
    if i == 5 {
      assert r[2] == SCALE[2] && p[2] == WEIGHT[7];
      NoMatch(p, r, 2);
    } else {
      NoMatch(p, r, 0);
    }
  }

  /** Nor does one end there. */
  lemma {:induction false} StartsAlike(s: string, i: nat)
    requires 1 <= i <= |WEIGHT| && WEIGHT[i..] <= Replace(s)
    ensures WEIGHT[i..] <= s
    decreases |WEIGHT| - i
  {
    var rest := WEIGHT[i..];
    if i < |WEIGHT| {
      assert rest[0] == WEIGHT[i] == Replace(s)[0];
      if WEIGHT <= s { NoSuffixOfPattern(Replace(s), i); }
      assert rest == [s[0]] + WEIGHT[i + 1..];
      assert Replace(s)[1..] == Replace(s[1..]);
      StartsAlike(s[1..], i + 1);
    }
  }

  lemma {:induction false} ReplaceTwice(s: string)
    ensures Replace(Replace(s)) == Replace(s)
  {
    if s != "" && WEIGHT <= s {
      ReplaceTwice(s[|WEIGHT|..]);
      ReplaceAfterScale(Replace(s[|WEIGHT|..]));
    } else if s != "" {
      ReplaceTwice(s[1..]);
      assert Replace(s)[1..] == Replace(s[1..]);
      assert WEIGHT <= Replace(s) ==> WEIGHT[1..] <= Replace(s)[1..];
      if WEIGHT[1..] <= Replace(s[1..]) { StartsAlike(s[1..], 1); }
      assert WEIGHT[1..] <= s[1..] && s[0] == '.' ==> WEIGHT <= s;
    }
  }

  /** The pattern occurs nowhere in s. */
  predicate Absent(s: string) {
    forall i :: 0 <= i <= |s| ==> !(WEIGHT <= s[i..])
  }

  lemma {:induction false} ReplaceShrinks(s: string)
    ensures |Replace(s)| <= |s|
  {
    if s != "" { ReplaceShrinks(if WEIGHT <= s then s[|WEIGHT|..] else s[1..]); }
  }

  lemma AbsentTail(s: string)
    requires s != ""
    ensures Absent(s) <==> !(WEIGHT <= s) && Absent(s[1..])
  {
    assert s[0..] == s;
    forall i | 0 <= i < |s| ensures s[1..][i..] == s[i + 1..] {}
    if !(WEIGHT <= s) && Absent(s[1..]) {
      forall i | 0 <= i <= |s| ensures !(WEIGHT <= s[i..]) {
        if i > 0 { assert s[1..][i - 1..] == s[i..]; }
      }
    }
    if Absent(s) {
      forall i | 0 <= i <= |s[1..]| ensures !(WEIGHT <= s[1..][i..]) { assert s[1..][i..] == s[i + 1..]; }
    }
  }

  /** replace() leaves a string alone exactly when the pattern does not occur in it. */
  lemma {:induction false} ReplaceFixed(s: string)
    ensures Replace(s) == s <==> Absent(s)
  {
    if s != "" {
      AbsentTail(s);
      if WEIGHT <= s {
        ReplaceShrinks(s[|WEIGHT|..]);
        assert |Replace(s)| < |s|;
      } else {
        ReplaceFixed(s[1..]);
        assert Replace(s) == [s[0]] + Replace(s[1..]) && s == [s[0]] + s[1..];
        assert Replace(s)[1..] == Replace(s[1..]);
      }
    }
  }

  /** After replacing, no occurrence is left. */
  lemma NoneLeft(s: string)
    ensures Absent(Replace(s))
  {
    ReplaceTwice(s);
    ReplaceFixed(Replace(s));
  }

  /** The full name holds the pattern at its end and nowhere else. */
  predicate OnlySuffix(stem: string) {
    forall i :: 0 <= i < |stem| ==> !(WEIGHT <= (stem + WEIGHT)[i..])
  }

  lemma OnlySuffixIff(stem: string)
    ensures OnlySuffix(stem) <==> Replace(stem) == stem
  {
    ReplaceFixed(stem);
    forall i | 0 <= i < |stem| ensures WEIGHT <= (stem + WEIGHT)[i..] <==> WEIGHT <= stem[i..] {
      assert (stem + WEIGHT)[i..] == stem[i..] + WEIGHT;
      NoOverlap(stem[i..]);
    }
    assert stem[|stem|..] == "";
  }

  /** Whether the batch form finds a scale for every weight, and no scale for two. */
  predicate BatchOk(m: Dictionary) {
    && (forall n :: n in m && n.WeightOf? ==> ScaleOf(Replace(n.stem)) in m)
    && (forall a, b :: a in m && b in m && a.WeightOf? && b.WeightOf? && a != b ==> Replace(a.stem) != Replace(b.stem))
  }

  /** n is the scale that the batch form takes for some weight. */
  predicate Taken(m: Dictionary, n: Name) {
    n.ScaleOf? && exists w :: w in m && w.WeightOf? && Replace(w.stem) == n.stem
  }

  function BatchMap(m: Dictionary): Dictionary
    requires BatchOk(m)
  {
    map n | n in m && !Taken(m, n) :: if n.WeightOf? then Dequant(m[n], m[ScaleOf(Replace(n.stem))]) else m[n]
  }

  /** Each weight is dequantised by the scale that replacing finds, that scale is gone, and the rest stays as it is. */
  lemma BatchMeans(m: Dictionary, n: Name)
    requires BatchOk(m) && n in m
    ensures n.WeightOf? ==> ScaleOf(Replace(n.stem)) in m && ScaleOf(Replace(n.stem)) !in BatchMap(m)
    ensures n.WeightOf? ==> n in BatchMap(m) && BatchMap(m)[n] == Dequant(m[n], m[ScaleOf(Replace(n.stem))])
    ensures n.Plain? ==> n in BatchMap(m)
    ensures n in BatchMap(m) && !n.WeightOf? ==> BatchMap(m)[n] == m[n]
    ensures n.ScaleOf? && n !in BatchMap(m) ==> exists w :: w in m && w.WeightOf? && Replace(w.stem) == n.stem
  {
  }

  /** When the assertion fails: a weight whose scale is not there, or two weights that take one scale. */
  lemma BatchFails(m: Dictionary)
    ensures !BatchOk(m) <==>
      || (exists n :: n in m && n.WeightOf? && ScaleOf(Replace(n.stem)) !in m)
      || (exists a, b :: a in m && b in m && a.WeightOf? && b.WeightOf? && a != b && Replace(a.stem) == Replace(b.stem))
  {
  }

  /** Weights of `seen` are out, with the scales they took; the rest is still in the dictionary. */
  ghost predicate BatchSoFar(m: Dictionary, seen: Dictionary, d: Dictionary, out: Dictionary) {
    && (forall n :: n in d <==> n in m && !(n.WeightOf? && n in seen) && !Taken(seen, n))
    && (forall n :: n in d ==> d[n] == m[n])
    && (forall n :: n in out <==> n in seen && n.WeightOf?)
    && (forall n :: n in out ==> n in m && ScaleOf(Replace(n.stem)) in m && out[n] == Dequant(m[n], m[ScaleOf(Replace(n.stem))]))
    && (forall a, b :: a in out && b in out && a != b ==> Replace(a.stem) != Replace(b.stem))
  }

  lemma BatchSkip(m: Dictionary, seen: Dictionary, d: Dictionary, out: Dictionary, n: Name)
    requires BatchSoFar(m, seen, d, out) && n in m && !n.WeightOf?
    ensures BatchSoFar(m, seen[n := m[n]], d, out)
  {
    forall x ensures Taken(seen[n := m[n]], x) == Taken(seen, x) {}
  }

  lemma BatchTake(m: Dictionary, seen: Dictionary, d: Dictionary, out: Dictionary, n: Name)
    requires BatchSoFar(m, seen, d, out) && n in m && n.WeightOf? && n !in seen && ScaleOf(Replace(n.stem)) in d
    ensures var sc := ScaleOf(Replace(n.stem));
      BatchSoFar(m, seen[n := m[n]], d - {n, sc}, out[n := Dequant(m[n], m[sc])])
  {
    forall x ensures Taken(seen[n := m[n]], x) == (Taken(seen, x) || x == ScaleOf(Replace(n.stem))) {}
    forall a | a in out ensures Replace(a.stem) != Replace(n.stem) {
      assert !Taken(seen, ScaleOf(Replace(n.stem)));
    }
  }

  lemma BatchLacks(m: Dictionary, seen: Dictionary, d: Dictionary, out: Dictionary, n: Name)
    requires BatchSoFar(m, seen, d, out) && n in m && n.WeightOf? && n !in seen && ScaleOf(Replace(n.stem)) !in d
    requires forall x :: x in seen ==> x in m
    ensures !BatchOk(m)
  {
  }

  lemma BatchRest(m: Dictionary, d: Dictionary, out: Dictionary, n: Name)
    requires BatchSoFar(m, m, d, out)
    ensures BatchOk(m)
    ensures n in BatchMap(m) <==> n in out || n in d
    ensures !(n in out && n in d)
    ensures n in BatchMap(m) ==> BatchMap(m)[n] == if n in out then out[n] else d[n]
  {
  }

  /** The batch generator; ok is false where its assertion fails. */
  method Batch(ws: seq<Named>) returns (out: seq<Named>, ok: bool)
    requires Unique(ws)
    ensures ok <==> BatchOk(Dict(ws))
    ensures ok ==> Unique(out) && Dict(out) == BatchMap(Dict(ws)) && PassThrough(out) == PassThrough(ws)
  {
    var d := Dict(ws);
    ghost var m, seen, o := d, map[], map[];
    out := [];
    for k := 0 to |ws|
      invariant seen == Dict(ws[..k]) && o == Dict(out) && BatchSoFar(m, seen, d, o)
      invariant Unique(out) && PassThrough(out) == [] && forall x :: x in seen ==> x in m
    {
      var n := ws[k].name;
      Next(ws, k);
      DictAt(ws, k);
      if n in d && n.WeightOf? {
        var scale := ScaleOf(Replace(n.stem));
        if scale !in d {
          BatchLacks(m, seen, d, o, n);
          return out, false;
        }
        var item := Named(n, Dequant(d[n], d[scale]));
        BatchTake(m, seen, d, o, n);
        Snoc(out, item);
        out, d, o := out + [item], d - {n, scale}, o[n := item.tensor];
      } else {
        assert !n.WeightOf?;
        BatchSkip(m, seen, d, o, n);
      }
      seen := seen[n := m[n]];
    }
    assert ws[..|ws|] == ws;
    out := Remainder(ws, d, out);
    ok := true;
  }

  lemma {:induction false} DictAt(ws: seq<Named>, k: nat)
    requires Unique(ws) && k < |ws|
    ensures ws[k].name in Dict(ws) && Dict(ws)[ws[k].name] == ws[k].tensor
  {
    if k < |ws| - 1 { DictAt(ws[..|ws| - 1], k); }
  }

  /** out holds what was taken and what is left among the first items. */
  ghost predicate Yielded(d: Dictionary, o: Dictionary, seen: Dictionary, out: Dictionary) {
    && (forall n :: n in out <==> n in o || (n in d && n in seen))
    && (forall n :: n in out ==> out[n] == if n in o then o[n] else d[n])
  }

  lemma AllYielded(m: Dictionary, d: Dictionary, o: Dictionary, out: Dictionary)
    requires BatchSoFar(m, m, d, o) && Yielded(d, o, m, out)
    ensures BatchOk(m) && out == BatchMap(m)
  {
    forall n ensures BatchOk(m) && (n in BatchMap(m) <==> n in out) && (n in out ==> BatchMap(m)[n] == out[n]) {
      BatchRest(m, d, o, n);
    }
  }

  /** yield from weights_dict.items() */
  method Remainder(ws: seq<Named>, d: Dictionary, taken: seq<Named>) returns (out: seq<Named>)
    requires Unique(ws) && Unique(taken) && PassThrough(taken) == [] && BatchSoFar(Dict(ws), Dict(ws), d, Dict(taken))
    ensures BatchOk(Dict(ws)) && Unique(out) && Dict(out) == BatchMap(Dict(ws)) && PassThrough(out) == PassThrough(ws)
  {
    ghost var m, o, seen := Dict(ws), Dict(taken), map[];
    out := taken;
    for k := 0 to |ws|
      invariant Unique(out) && PassThrough(out) == PassThrough(ws[..k]) && seen == Dict(ws[..k])
      invariant Yielded(d, o, seen, Dict(out))
    {
      Next(ws, k);
      DictAt(ws, k);
      BatchRest(m, d, o, ws[k].name);
      if ws[k].name in d {
        Snoc(out, ws[k]);
        out := out + [ws[k]];
      }
      seen := seen[ws[k].name := ws[k].tensor];
    }
    assert ws[..|ws|] == ws;
    AllYielded(m, d, o, Dict(out));
  }

  // ---------------------------------------------------------------- the two forms agree

  /** A weight whose name holds the pattern twice takes a scale that the streaming form passes through. */
  lemma WrongScale(m: Dictionary, n: Name)
    requires BatchOk(m) && n in m && n.WeightOf? && Replace(n.stem) != n.stem
    ensures ScaleOf(Replace(n.stem)) !in BatchMap(m) && ScaleOf(Replace(n.stem)) in Paired(m)
  {
    ReplaceTwice(n.stem);
    var other := WeightOf(Replace(n.stem));
    assert Replace(other.stem) == Replace(n.stem) && other != n;
    assert other !in m;
  }

  /**
   * When every weight has its scale, the batch form yields what the streaming form yields exactly when the
   * pattern occurs in each weight's name only as the suffix.
   */
  lemma BatchAgrees(m: Dictionary)
    requires !LacksScale(m)
    ensures (BatchOk(m) && BatchMap(m) == Paired(m)) <==> (forall n :: n in m && n.WeightOf? ==> OnlySuffix(n.stem))
  {
    forall n | n in m && n.WeightOf? ensures OnlySuffix(n.stem) <==> Replace(n.stem) == n.stem { OnlySuffixIff(n.stem); }
    BatchAgreesReplaced(m);
  }

  lemma BatchAgreesReplaced(m: Dictionary)
    requires !LacksScale(m)
    ensures (BatchOk(m) && BatchMap(m) == Paired(m)) <==> (forall n :: n in m && n.WeightOf? ==> Replace(n.stem) == n.stem)
  {
    if forall n :: n in m && n.WeightOf? ==> Replace(n.stem) == n.stem {
      forall n | n in m && n.WeightOf? ensures ScaleOf(n.stem) in m { assert !Orphan(m, n); }
      forall n | n in m ensures Taken(m, n) <==> n.ScaleOf? && !Orphan(m, n) {
        if n.ScaleOf? && !Orphan(m, n) { assert Replace(WeightOf(n.stem).stem) == n.stem; }
      }
    } else if BatchOk(m) {
      var n :| n in m && n.WeightOf? && Replace(n.stem) != n.stem;
      WrongScale(m, n);
    }
  }

  /** A name on which the two differ: every weight has its scale, and the batch form still fails. */
  lemma PatternTwice()
    ensures var stem := "x" + WEIGHT;
      var m := map[WeightOf(stem) := Raw(1), ScaleOf(stem) := Raw(2)];
      !LacksScale(m) && !BatchOk(m)
  {
    ReplaceName("x");
    ReplaceShrinks("x");
    assert |Replace("x" + WEIGHT)| != |"x" + WEIGHT|;
    assert WeightOf("x" + WEIGHT) in map[WeightOf("x" + WEIGHT) := Raw(1), ScaleOf("x" + WEIGHT) := Raw(2)];
  }
}
