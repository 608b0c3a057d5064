/** The split of a table over tensor-parallel ranks, and what the all-reduce of their lookups gives. */
module RankRows {
  import opened Arithmetic
  import opened Rows

  /** Where rank r's rows begin: rows * r // tp, as the packer and the serving side both compute it. */
  function Start(rows: nat, r: nat, tp: nat): nat
    requires tp >= 1
  {
    rows * r / tp
  }

  /** The boundary is the exact share rows * r / tp, rounded down. */
  lemma StartLaw(rows: nat, r: nat, tp: nat)
    requires tp >= 1
    ensures tp * Start(rows, r, tp) <= rows * r < tp * (Start(rows, r, tp) + 1)
  {
    DivMod(rows * r, tp);
    Successor(Start(rows, r, tp), tp);
  }

  predicate Owns(rows: nat, r: nat, tp: nat, id: nat)
    requires tp >= 1
  {
    Start(rows, r, tp) <= id < Start(rows, r + 1, tp)
  }

  lemma StartMono(rows: nat, r: nat, q: nat, tp: nat)
    requires tp >= 1 && r <= q
    ensures Start(rows, r, tp) <= Start(rows, q, tp)
  {
    assert rows * r <= rows * q by { MulMono(r, q, rows); }
    DivMono(rows * r, rows * q, tp);
  }

  lemma Ends(rows: nat, tp: nat)
    requires tp >= 1
    ensures Start(rows, 0, tp) == 0 && Start(rows, tp, tp) == rows
  {
    DivModUnique(0, 0, tp);
    DivModUnique(rows, 0, tp);
  }

  /** How many rows a rank owns. */
  function Share(rows: nat, r: nat, tp: nat): int
    requires tp >= 1
  {
    Start(rows, r + 1, tp) - Start(rows, r, tp)
  }

  lemma ShareBounds(rows: nat, r: nat, tp: nat)
    requires tp >= 1
    ensures rows - tp < tp * Share(rows, r, tp) < rows + tp
  {
    StartLaw(rows, r, tp);
    StartLaw(rows, r + 1, tp);
    assert rows * (r + 1) == rows * r + rows;
    assert tp * Share(rows, r, tp) == tp * Start(rows, r + 1, tp) - tp * Start(rows, r, tp);
  }

  lemma Scaled(m: nat, a: int, b: int)
    ensures a >= b + 2 ==> m * a >= m * b + 2 * m
  {
    if a >= b + 2 {
      MulMono(2, a - b, m);
      assert m * a == m * b + (a - b) * m;
    }
  }

  /** No rank owns more than one row above any other. */
  lemma SharesEven(rows: nat, r: nat, q: nat, tp: nat)
    requires tp >= 1
    ensures -1 <= Share(rows, r, tp) - Share(rows, q, tp) <= 1
  {
    ShareBounds(rows, r, tp);
    ShareBounds(rows, q, tp);
    Scaled(tp, Share(rows, r, tp), Share(rows, q, tp));
    Scaled(tp, Share(rows, q, tp), Share(rows, r, tp));
  }

  /** The rank that owns a row, found by walking the boundaries down from rank r. */
  function OwnerBelow(rows: nat, r: nat, tp: nat, id: nat): (o: nat)
    requires tp >= 1 && id < Start(rows, r, tp)
    ensures o < r && Owns(rows, o, tp, id)
  {
    Ends(rows, tp);
    if Start(rows, r - 1, tp) <= id then r - 1 else OwnerBelow(rows, r - 1, tp, id)
  }

  lemma OwnedRange(rows: nat, r: nat, tp: nat, id: nat)
    requires tp >= 1 && Owns(rows, r, tp, id)
    ensures rows * r < tp * (id + 1) <= rows * (r + 1)
  {
    StartLaw(rows, r, tp);
    StartLaw(rows, r + 1, tp);
    assert tp * (Start(rows, r, tp) + 1) <= tp * (id + 1) by { Ordered(tp, Start(rows, r, tp) + 1, id + 1); }
    assert tp * (id + 1) <= tp * Start(rows, r + 1, tp) by { Ordered(tp, id + 1, Start(rows, r + 1, tp)); }
  }

  lemma Ordered(m: nat, a: nat, b: nat)
    requires a <= b
    ensures m * a <= m * b
  {
    MulMono(a, b, m);
  }

  /** Every row has exactly one owner, and it is one of the tp ranks: the one whose exact share of the table the row completes. */
  lemma OneOwner(rows: nat, tp: nat, id: nat) returns (o: nat)
    requires tp >= 1 && id < rows
    ensures o < tp && forall r: nat :: r < tp ==> (Owns(rows, r, tp, id) <==> r == o)
    ensures rows * o < tp * (id + 1) <= rows * (o + 1)
  {
    Ends(rows, tp);
    o := OwnerBelow(rows, tp, tp, id);
    OwnedRange(rows, o, tp, id);
    forall r: nat | r < tp && Owns(rows, r, tp, id) ensures r == o {
      if r < o { StartMono(rows, r + 1, o, tp); }
      if o < r { StartMono(rows, o + 1, r, tp); }
    }
  }

  function RankBacking(table: seq<Bytes>, r: nat, tp: nat): Backing
    requires tp >= 1
  {
    Backing(table, Start(|table|, r, tp), Start(|table|, r + 1, tp))
  }

  /** What every rank's lookup stores for one id. */
  function Answers(table: seq<Bytes>, tp: nat, id: nat): seq<Bytes>
    requires tp >= 1
  {
    seq(tp, r requires 0 <= r < tp => ServedRow(RankBacking(table, r, tp), id))
  }

  /** Byte k of the all-reduced answers. */
  function SumAt(rows: seq<Bytes>, k: nat): nat
    requires forall r :: 0 <= r < |rows| ==> k < |rows[r]|
  {
    if rows == [] then 0 else rows[0][k] as nat + SumAt(rows[1..], k)
  }

  lemma {:induction false} SumOfOne(rows: seq<Bytes>, k: nat, o: int)
    requires forall r :: 0 <= r < |rows| ==> k < |rows[r]|
    requires forall r :: 0 <= r < |rows| && r != o ==> rows[r][k] == 0
    ensures SumAt(rows, k) == if 0 <= o < |rows| then rows[o][k] as nat else 0
  {
    if rows != [] { SumOfOne(rows[1..], k, o - 1); }
  }

  /** Each rank answers with its own rows and zeros elsewhere, so the sum over the ranks is the full row. */
  lemma LookupsSumToRow(table: seq<Bytes>, tp: nat, id: nat, k: nat)
    requires tp >= 1 && id < |table| && |table[id]| == ROW_BYTES && k < ROW_BYTES
    ensures SumAt(Answers(table, tp, id), k) == table[id][k] as nat
  {
    var o := OneOwner(|table|, tp, id);
    assert forall r: nat :: r < tp ==> (Owns(|table|, r, tp, id) <==> Owned(RankBacking(table, r, tp), id));
    SumOfOne(Answers(table, tp, id), k, o);
  }
}
