/**
 Compressed amounts: an amount without its trailing decimal zeroes, up to nine of them (src/main.cpp:5103-5155).
 */
module Amounts {
  import opened Arith
  import opened Codec
  import Ledger

  /** Trailing decimal zeroes, counted up to a limit. */
  function Zeroes(n: nat, limit: nat): (e: nat)
    requires n > 0
    ensures e <= limit
  {
    if limit == 0 || n % 10 != 0 then 0 else 1 + Zeroes(n / 10, limit - 1)
  }

  /** The number coded for a mantissa and an exponent. */
  function Code(m: nat, e: nat): nat
    requires m > 0 && e <= 9 && (e == 9 || m % 10 != 0)
  {
    if e < 9 then 1 + (m / 10 * 9 + m % 10 - 1) * 10 + e else 1 + (m - 1) * 10 + 9
  }

  function Compress(n: nat): nat
  {
    if n == 0 then 0
    else
      ZeroesDivide(n, 9);
      Code(n / Pow(10, Zeroes(n, 9)), Zeroes(n, 9))
  }

  function Exponent(x: nat): nat
    requires x > 0
  {
    (x - 1) % 10
  }

  function Mantissa(x: nat): nat
    requires x > 0
  {
    var y := (x - 1) / 10;
    if Exponent(x) < 9 then y / 9 * 10 + y % 9 + 1 else y + 1
  }

  function Decompress(x: nat): nat
  {
    if x == 0 then 0 else Mantissa(x) * Pow(10, Exponent(x))
  }

  /** The zeroes can be divided out, and unless the limit is reached they are all there are. */
  lemma {:induction false} ZeroesDivide(n: nat, limit: nat)
    requires n > 0
    ensures var e := Zeroes(n, limit);
            var m := n / Pow(10, e);
            n == m * Pow(10, e) && m > 0 && (e == limit || m % 10 != 0)
  {
    if limit > 0 && n % 10 == 0 {
      ZeroesDivide(n / 10, limit - 1);
      var e := Zeroes(n / 10, limit - 1);
      var m, p := n / 10 / Pow(10, e), Pow(10, e);
      TimesTenMore(n, m, p);
    } else {
      assert Pow(10, 0) == 1;
    }
  }

  lemma TimesTenMore(n: nat, m: nat, p: nat)
    requires p >= 1 && n % 10 == 0 && n / 10 == m * p
    ensures n == m * (10 * p) && n / (10 * p) == m
  {
    assert m * (10 * p) == 10 * (m * p) == n;
    QuotientIs(n, 10 * p, m, 0);
  }

  /** The decomposition into mantissa and exponent is unique. */
  lemma {:induction false} ZeroesOf(m: nat, e: nat, limit: nat)
    requires m > 0 && e <= limit && (e == limit || m % 10 != 0)
    ensures m * Pow(10, e) > 0 && Zeroes(m * Pow(10, e), limit) == e && m * Pow(10, e) / Pow(10, e) == m
  {
    var p := Pow(10, e);
    assert m * p > 0;
    QuotientIs(m * p, p, m, 0);
    if e > 0 {
      var q := Pow(10, e - 1);
      ZeroesOf(m, e - 1, limit - 1);
      assert m * p == m * (10 * q) == (m * q) * 10;
      QuotientIs(m * p, 10, m * q, 0);
    } else {
      assert m * p == m;
    }
  }

  /** Mantissa and exponent can be read off a code, and every positive number is a code. */
  lemma CodeReadsBack(m: nat, e: nat)
    requires m > 0 && e <= 9 && (e == 9 || m % 10 != 0)
    ensures Code(m, e) > 0 && Exponent(Code(m, e)) == e && Mantissa(Code(m, e)) == m
  {
  }

  lemma CodeOfParts(x: nat)
    requires x > 0
    ensures var m, e := Mantissa(x), Exponent(x);
            m > 0 && e <= 9 && (e == 9 || m % 10 != 0) && Code(m, e) == x
  {
    var y := (x - 1) / 10;
    var q, r := y / 9, y % 9;
    if Exponent(x) < 9 {
      QuotientIs(Mantissa(x), 10, q, r + 1);
    }
  }

  /** Decompressing undoes compressing, for every amount. */
  lemma DecompressUndoesCompress(n: nat)
    ensures Decompress(Compress(n)) == n
  {
    if n > 0 {
      hide Code, Exponent, Mantissa;
      ZeroesDivide(n, 9);
      CodeReadsBack(n / Pow(10, Zeroes(n, 9)), Zeroes(n, 9));
    }
  }

  /** Compressing undoes decompressing, for every number: the two are bijections. */
  lemma CompressUndoesDecompress(x: nat)
    ensures Compress(Decompress(x)) == x
  {
    if x > 0 {
      CodeOfParts(x);
      ZeroesOf(Mantissa(x), Exponent(x), 9);
    }
  }

  /** A compressed amount is at most nine times the amount. */
  lemma CompressedSize(n: nat)
    ensures Compress(n) <= 9 * n
  {
    hide Code;
    if n > 0 {
      ZeroesDivide(n, 9);
      var e := Zeroes(n, 9);
      var m := n / Pow(10, e);
      CodeSize(m, e);
      if e > 0 {
        TenTimes(m, Pow(10, e - 1));
      }
    }
  }

  lemma TenTimes(m: nat, p: nat)
    requires p >= 1
    ensures m * (10 * p) >= 10 * m
  {
    MulMono(10, 10 * p, m);
  }

  lemma CodeSize(m: nat, e: nat)
    requires m > 0 && e <= 9 && (e == 9 || m % 10 != 0)
    ensures Code(m, e) <= if e == 0 then 9 * m else 10 * m + 9
  {
  }

  /** CompressAmount in 64-bit arithmetic. */
  method CompressAmount(amount: nat) returns (x: nat)
    requires amount < TWO_64
    ensures x == Wrap(Compress(amount), TWO_64)
  {
    hide Wrap, Code;
    if amount == 0 {
      return 0;
    }
    var n, e := amount, 0;
    while n % 10 == 0 && e < 9
      invariant 0 < n && 0 <= e <= 9
      invariant amount == n * Pow(10, e) && Zeroes(amount, 9) == e + Zeroes(n, 9 - e)
    {
      Regroup(n / 10, Pow(10, e));
      n := n / 10;
      e := e + 1;
    }
    ZeroesDivide(amount, 9);
    ZeroesOf(n, e, 9);
    if e < 9 {
      var d := n % 10;
      n := n / 10;
      x := Wrap(1 + (n * 9 + d - 1) * 10 + e, TWO_64);
    } else {
      x := Wrap(1 + (n - 1) * 10 + 9, TWO_64);
    }
    CodeIs(amount);
  }

  lemma Regroup(a: nat, p: nat)
    ensures 10 * a * p == a * (10 * p)
  {
  }

  lemma CodeIs(n: nat)
    requires n > 0
    ensures var e := Zeroes(n, 9);
            var m := n / Pow(10, e);
            m > 0 && Compress(n) == if e < 9 then 1 + (m / 10 * 9 + m % 10 - 1) * 10 + e else 1 + (m - 1) * 10 + 9
  {
    ZeroesDivide(n, 9);
  }

  /** DecompressAmount in 64-bit arithmetic. */
  method DecompressAmount(code: nat) returns (n: nat)
    requires code < TWO_64
    ensures n == Wrap(Decompress(code), TWO_64)
  {
    hide Wrap;
    if code == 0 {
      return 0;
    }
    var x := code - 1;
    var e := x % 10;
    x := x / 10;
    if e < 9 {
      var d := x % 9 + 1;
      x := x / 9;
      n := x * 10 + d;
    } else {
      n := x + 1;
    }
    n := TimesPowerOfTen(n, e);
  }

  /** The last loop of DecompressAmount. */
  method TimesPowerOfTen(m: nat, e: nat) returns (n: nat)
    requires m < TWO_64
    ensures n == Wrap(m * Pow(10, e), TWO_64)
  {
    hide Wrap, Pow;
    n := m;
    var left := e;
    OnePower(m);
    while left > 0
      invariant 0 <= left <= e && n == Wrap(m * Pow(10, e - left), TWO_64)
    {
      WrapTimesTen(m * Pow(10, e - left));
      NextPower(m, e - left);
      n := Wrap(n * 10, TWO_64);
      left := left - 1;
    }
  }

  lemma OnePower(m: nat)
    ensures m * Pow(10, 0) == m
  {
  }

  lemma NextPower(m: nat, k: nat)
    ensures m * Pow(10, k + 1) == m * Pow(10, k) * 10
  {
    Regroup(m, Pow(10, k));
  }

  lemma WrapTimesTen(x: nat)
    ensures Wrap(Wrap(x, TWO_64) * 10, TWO_64) == Wrap(x * 10, TWO_64)
  {
  }

  /** No amount of money overflows on the way. */
  lemma NoOverflowOnMoney(n: nat)
    requires n <= Ledger.MAX_MONEY
    ensures Compress(n) < TWO_64 && Decompress(Compress(n)) < TWO_64
  {
    CompressedSize(n);
    DecompressUndoesCompress(n);
  }
}
