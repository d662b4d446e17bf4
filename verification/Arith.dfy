/** Facts about multiplication, division and powers that the solver needs spelled out. */
module Arith {

  function Pow(b: nat, k: nat): (p: nat)
    ensures b >= 1 ==> p >= 1
  {
    if k == 0 then 1 else
      assert b >= 1 ==> b * Pow(b, k - 1) >= 1;
      b * Pow(b, k - 1)
  }

  lemma MulMono(a: int, b: int, c: int)
    requires a <= b && c >= 0
    ensures a * c <= b * c
  {
  }

  lemma Distribute(a: int, b: int, c: int)
    ensures (a + b) * c == a * c + b * c
  {
  }

  /** Quotient and remainder are determined by their defining equation. */
  lemma QuotientIs(a: int, d: int, q: int, r: int)
    requires d >= 1 && a == q * d + r && 0 <= r < d
    ensures a / d == q && a % d == r
  {
    var q' := a / d;
    if q' >= q + 1 {
      MulMono(q + 1, q', d);
      Distribute(q, 1, d);
    } else if q' <= q - 1 {
      MulMono(q' + 1, q, d);
      Distribute(q', 1, d);
    }
  }

  lemma DivideAtMost(a: nat, p: nat)
    requires p >= 1
    ensures 0 <= a / p <= a
  {
    var q := a / p;
    if q < 0 {
      MulMono(q, -1, p);
    } else {
      MulMono(1, p, q);
    }
  }

  lemma DivideByTwice(a: nat, p: nat)
    requires p >= 1
    ensures a / (2 * p) == (a / p) / 2
  {
    var q, r := a / p, a % p;
    var h := q / 2;
    if q % 2 == 0 {
      assert q * p == h * (2 * p);
      QuotientIs(a, 2 * p, h, r);
    } else {
      assert q * p == (2 * h + 1) * p == h * (2 * p) + p;
      QuotientIs(a, 2 * p, h, p + r);
    }
  }

  function Min(a: int, b: int): int { if a <= b then a else b }

  function Max(a: int, b: int): int { if a >= b then a else b }

  function Sum(values: seq<int>): int
  {
    if values == [] then 0 else Sum(values[..|values| - 1]) + values[|values| - 1]
  }

  lemma {:induction false} PowSum(b: nat, j: nat, k: nat)
    ensures Pow(b, j + k) == Pow(b, j) * Pow(b, k)
  {
    if j > 0 {
      PowSum(b, j - 1, k);
      var p, q := Pow(b, j - 1), Pow(b, k);
      assert Pow(b, j + k) == b * Pow(b, j - 1 + k);
      Associate(b, p, q);
    }
  }

  lemma Associate(a: int, b: int, c: int)
    ensures a * (b * c) == a * b * c
  {
  }

  lemma {:induction false} PowGrows(j: nat, k: nat)
    requires j <= k
    ensures Pow(2, j) <= Pow(2, k)
  {
    if j < k {
      PowGrows(j, k - 1);
    }
  }
}
