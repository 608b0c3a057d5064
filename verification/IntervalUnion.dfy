/** The sweep of analyze-traces: how long a set of intervals lasts, and how much of a gap none of them covers. */
module IntervalUnion {
  import opened Wrappers
  import opened Arithmetic

  datatype Interval = Interval(a: int, b: int)

  predicate WellFormed(s: seq<Interval>) {
    forall i :: 0 <= i < |s| ==> s[i].a <= s[i].b
  }

  /** The unit steps of time in [a, b). */
  function Points(a: int, b: int): (p: set<int>)
    ensures forall t :: t in p <==> a <= t < b
    decreases b - a
  {
    if a >= b then {} else {a} + Points(a + 1, b)
  }

  /** The unit steps that some interval covers. */
  function Covered(s: seq<Interval>): set<int> {
    if s == [] then {} else Covered(s[..|s| - 1]) + Points(s[|s| - 1].a, s[|s| - 1].b)
  }

  lemma {:induction false} CoveredPoint(s: seq<Interval>, t: int)
    ensures t in Covered(s) <==> exists x :: x in s && x.a <= t < x.b
  {
    if s != [] {
      CoveredPoint(s[..|s| - 1], t);
      assert s == s[..|s| - 1] + [s[|s| - 1]];
    }
  }

  lemma {:induction false} PointsSize(a: int, b: int)
    requires a <= b
    ensures |Points(a, b)| == b - a
    decreases b - a
  {
    if a < b {
      PointsSize(a + 1, b);
    }
  }

  lemma {:induction false} SubsetSize(a: set<int>, b: set<int>)
    requires a <= b
    ensures |b| - |a| == |b - a|
  {
    assert b == a + (b - a);
  }

  // ---------------------------------------------------------------- sorted()

  predicate AtMost(x: Interval, y: Interval) {
    x.a < y.a || (x.a == y.a && x.b <= y.b)
  }

  predicate Ordered(s: seq<Interval>) {
    forall i, j :: 0 <= i < j < |s| ==> AtMost(s[i], s[j])
  }

  function Insert(x: Interval, s: seq<Interval>): seq<Interval> {
    if s == [] || AtMost(x, s[0]) then [x] + s else [s[0]] + Insert(x, s[1..])
  }

  function Sorted(s: seq<Interval>): seq<Interval> {
    if s == [] then [] else Insert(s[0], Sorted(s[1..]))
  }

  lemma {:induction false} InsertFacts(x: Interval, s: seq<Interval>)
    requires Ordered(s)
    ensures Ordered(Insert(x, s)) && multiset(Insert(x, s)) == multiset(s) + multiset{x}
  {
    if s != [] {
      assert s == [s[0]] + s[1..];
      if !AtMost(x, s[0]) {
        InsertFacts(x, s[1..]);
        forall y | y in Insert(x, s[1..]) ensures AtMost(s[0], y) {
          assert y in multiset(Insert(x, s[1..]));
          assert y == x || y in s[1..];
        }
      }
    }
  }

  lemma {:induction false} SortedFacts(s: seq<Interval>)
    ensures Ordered(Sorted(s)) && multiset(Sorted(s)) == multiset(s)
  {
    if s != [] {
      SortedFacts(s[1..]);
      InsertFacts(s[0], Sorted(s[1..]));
      assert s == [s[0]] + s[1..];
    }
  }

  // ---------------------------------------------------------------- union()

  datatype Sweep = Sweep(end: Option<int>, total: int)

  function SweepStep(w: Sweep, x: Interval): Sweep {
    if w.end.None? || x.a > w.end.value then Sweep(Some(x.b), w.total + (x.b - x.a))
    else if x.b > w.end.value then Sweep(Some(x.b), w.total + (x.b - w.end.value))
    else w
  }

  function SweepOf(s: seq<Interval>): Sweep {
    if s == [] then Sweep(None, 0) else SweepStep(SweepOf(s[..|s| - 1]), s[|s| - 1])
  }

  /** e is the furthest end of the intervals. */
  predicate Furthest(s: seq<Interval>, e: int) {
    (forall x :: x in s ==> x.b <= e) && exists x :: x in s && x.b == e
  }

  /** What the sweep knows: how much is covered so far, and the furthest end. */
  predicate SweepOk(s: seq<Interval>, w: Sweep) {
    && w.total == |Covered(s)| && (s == [] <==> w.end.None?)
    && (w.end.Some? ==> Furthest(s, w.end.value))
  }

  lemma {:induction false} SweepCovers(s: seq<Interval>)
    requires WellFormed(s) && Ordered(s)
    ensures SweepOk(s, SweepOf(s))
  {
    if s != [] {
      var init, x := s[..|s| - 1], s[|s| - 1];
      assert s == init + [x];
      SweepCovers(init);
      SweepCount(init, x, SweepOf(init));
      SweepEnd(init, x, SweepOf(init));
    }
  }

  lemma SweepEnd(init: seq<Interval>, x: Interval, w: Sweep)
    requires x.a <= x.b && SweepOk(init, w)
    ensures SweepStep(w, x).end.Some? && Furthest(init + [x], SweepStep(w, x).end.value)
  {
    if w.end.Some? && x.a <= w.end.value && x.b <= w.end.value {
      var y :| y in init && y.b == w.end.value;
      assert y in init + [x];
    } else {
      assert x in init + [x];
    }
  }

  lemma CoveredBelow(s: seq<Interval>, e: int)
    requires forall y :: y in s ==> y.b <= e
    ensures forall t :: t in Covered(s) ==> t < e
  {
    forall t | t in Covered(s) ensures t < e { CoveredPoint(s, t); }
  }

  lemma SweepCount(init: seq<Interval>, x: Interval, w: Sweep)
    requires x.a <= x.b && SweepOk(init, w) && forall y :: y in init ==> AtMost(y, x)
    ensures SweepStep(w, x).total == |Covered(init) + Points(x.a, x.b)|
  {
    if w.end.Some? { SeenBelow(init, x, w.end.value); }
    CountNext(Covered(init), x, w);
  }

  /** The step adds what is new of the interval's points. */
  lemma CountNext(seen: set<int>, x: Interval, w: Sweep)
    requires x.a <= x.b && w.total == |seen| && (w.end.None? ==> seen == {})
    requires w.end.Some? ==> (forall t :: t in seen ==> t < w.end.value) && forall t :: x.a <= t < w.end.value ==> t in seen
    ensures SweepStep(w, x).total == |seen + Points(x.a, x.b)|
  {
    if w.end.None? || x.a > w.end.value {
      AddPoints(seen, x.a, x.a, x.b);
    } else if x.b > w.end.value {
      AddPoints(seen, x.a, w.end.value, x.b);
    } else {
      assert seen + Points(x.a, x.b) == seen;
    }
  }

  /** Up to the furthest end everything behind the start of the next interval is covered. */
  lemma SeenBelow(init: seq<Interval>, x: Interval, e: int)
    requires Furthest(init, e) && forall y :: y in init ==> AtMost(y, x)
    ensures (forall t :: t in Covered(init) ==> t < e) && forall t :: x.a <= t < e ==> t in Covered(init)
  {
    var y :| y in init && y.b == e;
    CoveredBelow(init, e);
    forall t | x.a <= t < e ensures t in Covered(init) {
      CoveredPoint(init, t);
      assert y.a <= t < y.b;
    }
  }

  /** Points from e on are new, those below it are not. */
  lemma AddPoints(seen: set<int>, a: int, e: int, b: int)
    requires a <= e <= b && (forall t :: t in seen ==> t < e) && forall t :: a <= t < e ==> t in seen
    ensures |seen + Points(a, b)| == |seen| + (b - e)
  {
    PointsSize(e, b);
    assert seen + Points(a, b) == seen + Points(e, b);
    assert seen !! Points(e, b);
  }

  lemma SameCover(s: seq<Interval>, s': seq<Interval>)
    requires multiset(s) == multiset(s')
    ensures Covered(s) == Covered(s')
  {
    forall t ensures t in Covered(s) <==> t in Covered(s') {
      CoveredPoint(s, t);
      CoveredPoint(s', t);
      forall x ensures x in s <==> x in s' { assert x in multiset(s) <==> x in multiset(s'); }
    }
  }

  /** The sweep counts every covered point once, whatever overlaps and whatever comes twice. */
  lemma UnionCountsPoints(s: seq<Interval>)
    requires WellFormed(s)
    ensures SweepOf(Sorted(s)).total == |Covered(s)|
  {
    SortedFacts(s);
    forall i | 0 <= i < |Sorted(s)| ensures Sorted(s)[i].a <= Sorted(s)[i].b {
      assert Sorted(s)[i] in multiset(Sorted(s));
      assert Sorted(s)[i] in s;
    }
    SweepCovers(Sorted(s));
    SameCover(s, Sorted(s));
  }

  // ---------------------------------------------------------------- the idle part of a gap

  /** The kernels that meet the gap, cut to it. */
  function Inside(a: int, b: int, kernels: seq<Interval>): seq<Interval> {
    if kernels == [] then [] else
    var k, rest := kernels[|kernels| - 1], Inside(a, b, kernels[..|kernels| - 1]);
    if k.a < b && k.b > a then rest + [Interval(Max(a, k.a), Min(b, k.b))] else rest
  }

  lemma {:induction false} InsideWellFormed(a: int, b: int, kernels: seq<Interval>)
    requires a <= b && WellFormed(kernels)
    ensures WellFormed(Inside(a, b, kernels))
  {
    if kernels != [] { InsideWellFormed(a, b, kernels[..|kernels| - 1]); }
  }

  lemma {:induction false} InsideCovers(a: int, b: int, kernels: seq<Interval>)
    ensures Covered(Inside(a, b, kernels)) == Covered(kernels) * Points(a, b)
  {
    if kernels != [] {
      var init, k := kernels[..|kernels| - 1], kernels[|kernels| - 1];
      InsideCovers(a, b, init);
      CutCovers(a, b, k, Inside(a, b, init), Covered(init));
    }
  }

  lemma CutCovers(a: int, b: int, k: Interval, rest: seq<Interval>, seen: set<int>)
    requires Covered(rest) == seen * Points(a, b)
    ensures Covered(if k.a < b && k.b > a then rest + [Interval(Max(a, k.a), Min(b, k.b))] else rest)
      == (seen + Points(k.a, k.b)) * Points(a, b)
  {
    CutPoints(a, b, k);
    OneMore(rest, Interval(Max(a, k.a), Min(b, k.b)));
    Distribute(seen, Points(k.a, k.b), Points(a, b));
  }

  /** An interval that meets the gap covers in it what is left of it when cut; any other covers nothing in it. */
  lemma CutPoints(a: int, b: int, k: Interval)
    ensures Points(k.a, k.b) * Points(a, b) == if k.a < b && k.b > a then Points(Max(a, k.a), Min(b, k.b)) else {}
  {
  }

  lemma OneMore(s: seq<Interval>, x: Interval)
    ensures Covered(s + [x]) == Covered(s) + Points(x.a, x.b)
  {
    assert (s + [x])[..|s|] == s;
  }

  lemma Distribute(p: set<int>, q: set<int>, r: set<int>)
    ensures (p + q) * r == p * r + q * r
  {
  }

  /** The idle time of a gap is the number of its points that no kernel covers; it is never negative. */
  lemma IdleCountsPoints(a: int, b: int, kernels: seq<Interval>)
    requires a <= b && WellFormed(kernels)
    ensures b - a - SweepOf(Sorted(Inside(a, b, kernels))).total == |Points(a, b) - Covered(kernels)|
  {
    InsideWellFormed(a, b, kernels);
    InsideCovers(a, b, kernels);
    UnionCountsPoints(Inside(a, b, kernels));
    PointsSize(a, b);
    SubsetSize(Covered(kernels) * Points(a, b), Points(a, b));
    assert Points(a, b) - Covered(kernels) * Points(a, b) == Points(a, b) - Covered(kernels);
  }

  // ---------------------------------------------------------------- the program

  /** How many unit steps of time the intervals cover. */
  method Union(intervals: seq<Interval>) returns (total: int)
    ensures WellFormed(intervals) ==> total == |Covered(intervals)|
    ensures total == SweepOf(Sorted(intervals)).total
  {
    var s := Sorted(intervals);
    var end: Option<int> := None;
    total := 0;
    for i := 0 to |s|
      invariant Sweep(end, total) == SweepOf(s[..i])
    {
      assert s[..i + 1][..i] == s[..i];
      var x := s[i];
      if end.None? || x.a > end.value {
        total := total + (x.b - x.a);
        end := Some(x.b);
      } else if x.b > end.value {
        total := total + (x.b - end.value);
        end := Some(x.b);
      }
    }
    assert s[..|s|] == s;
    if WellFormed(intervals) { UnionCountsPoints(intervals); }
  }

  /** How many unit steps of a gap no kernel covers. */
  method Idle(a: int, b: int, kernels: seq<Interval>) returns (idle: int)
    ensures a <= b && WellFormed(kernels) ==> idle == |Points(a, b) - Covered(kernels)|
    ensures idle == b - a - SweepOf(Sorted(Inside(a, b, kernels))).total
  {
    var inside: seq<Interval> := [];
    for i := 0 to |kernels|
      invariant inside == Inside(a, b, kernels[..i])
    {
      assert kernels[..i + 1][..i] == kernels[..i];
      var k := kernels[i];
      if k.a < b && k.b > a { inside := inside + [Interval(Max(a, k.a), Min(b, k.b))]; }
    }
    assert kernels[..|kernels|] == kernels;
    var busy := Union(inside);
    idle := b - a - busy;
    if a <= b && WellFormed(kernels) { IdleCountsPoints(a, b, kernels); }
  }
}
