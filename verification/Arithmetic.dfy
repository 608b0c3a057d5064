/** The few facts about products, quotients and remainders that the address arithmetic needs. */
module Arithmetic {

  function Min(a: int, b: int): int {
    if a <= b then a else b
  }

  function Max(a: int, b: int): int {
    if a <= b then b else a
  }

  lemma MulMono(a: nat, b: nat, c: nat)
    requires a <= b
    ensures a * c <= b * c
  {
  }

  lemma Successor(k: nat, m: nat)
    ensures (k + 1) * m == k * m + m
  {
  }

  lemma SmallMultiple(k: int, m: int)
    requires -m < k * m < m
    ensures k == 0
  {
    if k >= 1 { MulMono(1, k, m); }
  }

  function Div(x: nat, m: nat): nat
    requires m >= 1
  {
    x / m
  }

  lemma DivMod(x: nat, m: nat)
    requires m >= 1
    ensures x == (x / m) * m + x % m
  {
  }

  lemma SameDigits(x: nat, y: nat, m: nat)
    requires m >= 1 && x / m == y / m && x % m == y % m
    ensures x == y
  {
    DivMod(x, m);
    DivMod(y, m);
  }

  /** Quotient and remainder are the only digits of a number in base m. */
  lemma DivModUnique(q: int, r: nat, m: nat)
    requires r < m
    ensures (q * m + r) / m == q && (q * m + r) % m == r
  {
    var x := q * m + r;
    var p := x / m;
    assert x == p * m + x % m;
    assert (p - q) * m == p * m - q * m == r - x % m;
    SmallMultiple(p - q, m);
  }

  lemma DivMono(a: nat, b: nat, m: nat)
    requires m >= 1 && a <= b
    ensures a / m <= b / m
  {
    var p, q := a / m, b / m;
    assert a == p * m + a % m && b == q * m + b % m;
    if q < p {
      assert p * m - q * m == (p - q) * m;
      MulMono(1, p - q, m);
    }
  }

  lemma ModApart(a: nat, b: nat, m: nat)
    requires m >= 1 && a < b < a + m
    ensures a % m != b % m
  {
    var p, q := a / m, b / m;
    assert a == p * m + a % m && b == q * m + b % m;
    if a % m == b % m {
      assert (q - p) * m == q * m - p * m == b - a;
      SmallMultiple(q - p, m);
    }
  }

  lemma ModShift(a: nat, m: nat)
    requires m >= 1
    ensures (a + m) % m == a % m && (a + m) / m == a / m + 1
  {
    var q := a / m;
    assert a == q * m + a % m;
    assert a + m == (q + 1) * m + a % m;
    DivModUnique(q + 1, a % m, m);
  }

  // ---------------------------------------------------------------- mixed-radix digits

  /** z * n + w, by repeated addition: the solver then needs no products. */
  function Flat(z: nat, w: nat, n: nat): nat {
    if z == 0 then w else n + Flat(z - 1, w, n)
  }

  lemma {:induction false} FlatIsProduct(z: nat, w: nat, n: nat)
    ensures Flat(z, w, n) == z * n + w
  {
    if z > 0 { FlatIsProduct(z - 1, w, n); }
  }

  /** x / n and x % n, by repeated subtraction. */
  function Quot(x: nat, n: nat): nat
    requires n >= 1
  {
    if x < n then 0 else 1 + Quot(x - n, n)
  }

  function Rem(x: nat, n: nat): (r: nat)
    requires n >= 1
    ensures r < n
  {
    if x < n then x else Rem(x - n, n)
  }

  lemma {:induction false} FlatOfDigits(x: nat, n: nat)
    requires n >= 1
    ensures Flat(Quot(x, n), Rem(x, n), n) == x
  {
    if x >= n { FlatOfDigits(x - n, n); }
  }

  lemma QuotIsDiv(x: nat, n: nat)
    requires n >= 1
    ensures Quot(x, n) == x / n && Rem(x, n) == x % n
  {
    FlatOfDigits(x, n);
    FlatIsProduct(Quot(x, n), Rem(x, n), n);
    DivModUnique(Quot(x, n), Rem(x, n), n);
  }

  lemma {:induction false} DigitsOfFlat(z: nat, w: nat, n: nat)
    requires w < n
    ensures Quot(Flat(z, w, n), n) == z && Rem(Flat(z, w, n), n) == w
  {
    if z > 0 { DigitsOfFlat(z - 1, w, n); }
  }

  lemma {:induction false} FlatInRange(z: nat, w: nat, sets: nat, n: nat)
    requires z < sets && w < n
    ensures Flat(z, w, n) < Flat(sets, 0, n)
  {
    if z > 0 { FlatInRange(z - 1, w, sets - 1, n); }
  }

  lemma {:induction false} QuotInRange(x: nat, sets: nat, n: nat)
    requires n >= 1 && x < Flat(sets, 0, n)
    ensures Quot(x, n) < sets
  {
    if x >= n { QuotInRange(x - n, sets - 1, n); }
  }

  lemma FlatApart(z: nat, w: nat, z': nat, w': nat, n: nat)
    requires w < n && w' < n && Flat(z, w, n) == Flat(z', w', n)
    ensures z == z' && w == w'
  {
    DigitsOfFlat(z, w, n);
    DigitsOfFlat(z', w', n);
  }

  lemma {:induction false} FlatAdd(z: nat, w: nat, k: nat, n: nat)
    ensures Flat(z, w, n) + k == Flat(z, w + k, n)
  {
    if z > 0 { FlatAdd(z - 1, w, k, n); }
  }
}
