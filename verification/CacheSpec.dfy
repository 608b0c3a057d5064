/** One set of the row cache, described by the history of its fills. */
module CacheSpec {
  import opened Arithmetic
  import opened Rows

  /** victim after the given fills: each fill moves it one way on, round and round. */
  function Cursor(log: seq<nat>, ways: nat): (v: nat)
    requires ways >= 1
    ensures v < ways
  {
    if log == [] then 0 else (Cursor(log[..|log| - 1], ways) + 1) % ways
  }

  /** keys[w] after the given fills: the id most recently placed in way w, plus one; zero while the way is empty. */
  function KeyAt(log: seq<nat>, w: nat, ways: nat): nat
    requires ways >= 1
  {
    if log == [] then 0
    else if Cursor(log[..|log| - 1], ways) == w then log[|log| - 1] + 1
    else KeyAt(log[..|log| - 1], w, ways)
  }

  lemma AfterFill(log: seq<nat>, id: nat, ways: nat)
    requires ways >= 1
    ensures Cursor(log + [id], ways) == (Cursor(log, ways) + 1) % ways
    ensures forall w: nat :: KeyAt(log + [id], w, ways) == if w == Cursor(log, ways) then id + 1 else KeyAt(log, w, ways)
  {
    assert (log + [id])[..|log|] == log;
  }

  lemma {:induction false} CursorIsMod(log: seq<nat>, ways: nat)
    requires ways >= 1
    ensures Cursor(log, ways) == |log| % ways
  {
    if log == [] {
      DivModUnique(0, 0, ways);
    } else {
      CursorIsMod(log[..|log| - 1], ways);
      ModStep(|log| - 1, ways);
    }
  }

  lemma ModStep(n: nat, m: nat)
    requires m >= 1
    ensures (n % m + 1) % m == (n + 1) % m
  {
    var q, r := n / m, n % m;
    assert n + 1 == q * m + (r + 1);
    if r + 1 < m {
      DivModUnique(q, r + 1, m);
      DivModUnique(0, r + 1, m);
    } else {
      assert n + 1 == (q + 1) * m + 0;
      DivModUnique(q + 1, 0, m);
      DivModUnique(1, 0, m);
    }
  }

  /** Round robin keeps every one of the last `ways` fills, each in its own way. */
  lemma {:induction false} KeepsRecent(log: seq<nat>, j: nat, ways: nat)
    requires ways >= 1 && j < |log| <= j + ways
    ensures KeyAt(log, j % ways, ways) == log[j] + 1
  {
    CursorIsMod(log[..|log| - 1], ways);
    if j < |log| - 1 {
      ModApart(j, |log| - 1, ways);
      KeepsRecent(log[..|log| - 1], j, ways);
    }
  }

  /** A way that fewer than `ways` fills have not yet reached is empty. */
  lemma {:induction false} EmptyWay(log: seq<nat>, w: nat, ways: nat)
    requires ways >= 1 && |log| <= w < ways
    ensures KeyAt(log, w, ways) == 0
  {
    if log != [] {
      CursorIsMod(log[..|log| - 1], ways);
      DivModUnique(0, |log| - 1, ways);
      EmptyWay(log[..|log| - 1], w, ways);
    }
  }

  /** Every occupied way holds one of the last `ways` fills. */
  lemma {:induction false} HoldsOnlyRecent(log: seq<nat>, w: nat, ways: nat) returns (j: nat)
    requires ways >= 1 && w < ways && KeyAt(log, w, ways) != 0
    ensures j < |log| <= j + ways && j % ways == w && KeyAt(log, w, ways) == log[j] + 1
  {
    CursorIsMod(log[..|log| - 1], ways);
    if (|log| - 1) % ways == w {
      j := |log| - 1;
    } else {
      j := HoldsOnlyRecent(log[..|log| - 1], w, ways);
      if j + ways < |log| { ModShift(j, ways); }
    }
  }

  predicate Cached(log: seq<nat>, id: nat, ways: nat)
    requires ways >= 1
  {
    exists w :: 0 <= w < ways && KeyAt(log, w, ways) == id + 1
  }

  /**
   * After n fills a set holds exactly the last min(n, ways) rows filled into it, so a row is
   * evicted by the `ways` fills that follow its own and by nothing else.
   */
  lemma CachedIsRecent(log: seq<nat>, id: nat, ways: nat)
    requires ways >= 1
    ensures Cached(log, id, ways) <==> exists j :: 0 <= j < |log| <= j + ways && log[j] == id
  {
    if Cached(log, id, ways) {
      var w :| 0 <= w < ways && KeyAt(log, w, ways) == id + 1;
      var j := HoldsOnlyRecent(log, w, ways);
    }
    if j :| 0 <= j < |log| <= j + ways && log[j] == id {
      KeepsRecent(log, j, ways);
      assert 0 <= j % ways < ways && KeyAt(log, j % ways, ways) == id + 1;
    }
  }

  /** The bytes of one set: its rows and keys, and a cursor. */
  function SetBytes(ways: nat): (d: nat)
    ensures d >= 1
  {
    (ROW_BYTES + 8) * ways + 1
  }

  /** row_store_open sizes the cache so that rows, keys and cursors together fit the budget. */
  function SetsFor(budget: nat, ways: nat): nat {
    Div(budget, SetBytes(ways))
  }

  lemma FitsBudget(budget: nat, ways: nat)
    ensures var sets := SetsFor(budget, ways);
      && sets * ways * (ROW_BYTES + 8) + sets <= budget
      && budget < (sets + 1) * SetBytes(ways)
  {
    var d := SetBytes(ways);
    var sets := budget / d;
    DivMod(budget, d);
    assert sets * d == sets * ways * (ROW_BYTES + 8) + sets;
    assert (sets + 1) * d == sets * d + d;
  }
}
