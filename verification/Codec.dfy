/**
 Byte streams and variable-length integers (src/serialize.h:237-302).

 An integer is written in base 128, most significant digit first, one being subtracted from every digit but the last.
 */
module Codec {

  type Byte = x: nat | x < 256
  type Stream = seq<Byte>

  /** The result of reading from a stream; reading past its end throws. */
  datatype Read<+T> = Fail | Got(value: T, rest: Stream)

  /** More elements in front of those that were read. */
  function Prepend<T>(front: seq<T>, r: Read<seq<T>>): Read<seq<T>>
  {
    match r case Fail => Fail case Got(more, rest) => Got(front + more, rest)
  }

  lemma PrependTwice<T>(a: seq<T>, b: seq<T>, r: Read<seq<T>>)
    ensures Prepend(a, Prepend(b, r)) == Prepend(a + b, r)
    ensures Prepend([], r) == r
  {
    if r.Got? {
      assert a + (b + r.value) == a + b + r.value;
      assert [] + r.value == r.value;
    }
  }

  const TWO_32: nat := 0x1_0000_0000
  const TWO_64: nat := 0x1_0000_0000_0000_0000

  /** Unsigned arithmetic of a given modulus. */
  function Wrap(x: nat, modulus: nat): (r: nat)
    requires modulus > 0
    ensures r < modulus && (x < modulus ==> r == x)
  {
    x % modulus
  }

  /** The lowest seven bits. */
  function Low(n: int): (digit: nat)
    ensures digit < 128 && (0 <= n < 128 ==> digit == n)
  {
    n % 128
  }

  /** What is left to write before the lowest digit: one is subtracted. */
  function High(n: nat): (rest: nat)
    requires n > 0x7F
    ensures rest < n && n == (rest + 1) * 128 + Low(n)
  {
    n / 128 - 1
  }

  /** A digit on its own, the high bit saying that more follow. */
  function Mark(digit: nat, last: bool): (byte: Byte)
    requires digit < 128
    ensures Low(byte) == digit && (byte < 0x80 <==> last)
  {
    digit + if last then 0 else 0x80
  }

  /** The digits of n; every one but the last of the whole number has the high bit set. */
  function Digits(n: nat, last: bool): (r: Stream)
    ensures |r| >= 1
  {
    if n <= 0x7F then [Mark(n, last)] else Digits(High(n), false) + [Mark(Low(n), last)]
  }

  /** WriteVarInt; a negative number is below 0x7F, so only its lowest seven bits are written. */
  function VarInt(n: int): (r: Stream)
    ensures |r| >= 1
  {
    if n < 0 then [Low(n)] else Digits(n, true)
  }

  /** ReadVarInt into a variable of the given modulus, on top of the digits read so far. */
  function ReadDigits(s: Stream, acc: nat, modulus: nat): Read<nat>
    requires modulus > 0
    decreases |s|
  {
    if s == [] then Fail
    else
      var n := Wrap(acc * 128, modulus) + Low(s[0]);
      if s[0] >= 0x80 then ReadDigits(s[1..], Wrap(n + 1, modulus), modulus) else Got(n, s[1..])
  }

  function ReadVarInt(s: Stream, modulus: nat): Read<nat>
    requires modulus > 0
  {
    ReadDigits(s, 0, modulus)
  }

  lemma ReadOneDigit(digit: nat, last: bool, rest: Stream, acc: nat, modulus: nat)
    requires digit < 128 && acc * 128 + digit < modulus && (!last ==> acc * 128 + digit + 1 < modulus)
    ensures ReadDigits([Mark(digit, last)] + rest, acc, modulus) ==
            if last then Got(acc * 128 + digit, rest) else ReadDigits(rest, acc * 128 + digit + 1, modulus)
  {
    hide Wrap, Mark, Low;
    assert ([Mark(digit, last)] + rest)[1..] == rest;
  }

  lemma {:induction false} DigitsReadBack(n: nat, last: bool, rest: Stream, modulus: nat)
    requires modulus >= 128 && (if last then n < modulus else n + 1 < modulus)
    ensures ReadDigits(Digits(n, last) + rest, 0, modulus) ==
            if last then Got(n, rest) else ReadDigits(rest, n + 1, modulus)
  {
    hide ReadDigits, Mark, Low, High;
    if n <= 0x7F {
      ReadOneDigit(n, last, rest, 0, modulus);
    } else {
      var digit: Stream := [Mark(Low(n), last)];
      DigitsReadBack(High(n), false, digit + rest, modulus);
      assert Digits(n, last) + rest == Digits(High(n), false) + (digit + rest);
      ReadOneDigit(Low(n), last, rest, High(n) + 1, modulus);
    }
  }

  /** Reading back a number that fits the variable; a negative one comes back reduced to seven bits. */
  lemma VarIntReadsBack(n: int, rest: Stream, modulus: nat)
    requires modulus >= 128 && n < modulus
    ensures ReadVarInt(VarInt(n) + rest, modulus) == Got(if n < 0 then n % 128 else n, rest)
  {
    if n < 0 {
      assert (VarInt(n) + rest)[1..] == rest;
    } else {
      DigitsReadBack(n, true, rest, modulus);
    }
  }

  /** Every digit but possibly the last announces another one. */
  ghost predicate Marked(s: Stream)
  {
    s != [] && forall i :: 0 <= i < |s| - 1 ==> s[i] >= 0x80
  }

  function Value(s: Stream): nat
    requires s != []
  {
    var digit := Low(s[|s| - 1]);
    if |s| == 1 then digit else (Value(s[..|s| - 1]) + 1) * 128 + digit
  }

  /** Rest and lowest digit determine a number. */
  lemma HighLow(rest: nat, digit: nat)
    requires digit < 128
    ensures var n := (rest + 1) * 128 + digit; n > 0x7F && Low(n) == digit && High(n) == rest
  {
  }

  lemma MarkOf(byte: Byte)
    ensures Mark(Low(byte), byte < 0x80) == byte
  {
  }

  lemma ValueOfSnoc(front: Stream, digit: Byte)
    requires front != []
    ensures Value(front + [digit]) == (Value(front) + 1) * 128 + Low(digit)
  {
    assert (front + [digit])[..|front|] == front;
  }

  lemma DigitsUnfold(n: nat, last: bool)
    ensures Digits(n, last) == if n <= 0x7F then [Mark(n, last)] else Digits(High(n), false) + [Mark(Low(n), last)]
  {
  }

  /** No redundancy: every sequence of digits is the encoding of its value, so every number has exactly one encoding. */
  lemma OneDigit(s: Stream)
    requires Marked(s) && |s| == 1
    ensures Digits(Value(s), s[0] < 0x80) == s
  {
    MarkOf(s[0]);
    assert s == [s[0]];
  }

  lemma {:induction false} EncodingIsUnique(s: Stream)
    requires Marked(s)
    ensures Digits(Value(s), s[|s| - 1] < 0x80) == s
  {
    var n := |s| - 1;
    MarkOf(s[n]);
    if n == 0 {
      OneDigit(s);
    } else {
      hide Digits, Value, Low, High, Mark;
      var front := s[..n];
      EncodingIsUnique(front);
      assert front[n - 1] == s[n - 1] >= 0x80;
      assert s == front + [s[n]];
      ValueOfSnoc(front, s[n]);
      HighLow(Value(front), Low(s[n]));
      DigitsUnfold(Value(s), s[n] < 0x80);
    }
  }

  /** The digits of a number are marked as such. */
  lemma {:induction false} DigitsAreMarked(n: nat, last: bool)
    ensures var s := Digits(n, last);
            Marked(s) && Value(s) == n && (s[|s| - 1] < 0x80 <==> last)
  {
    hide Digits, Low, High, Mark;
    DigitsUnfold(n, last);
    if n > 0x7F {
      hide Value;
      DigitsAreMarked(High(n), false);
      ValueOfSnoc(Digits(High(n), false), Mark(Low(n), last));
    }
  }

  /** WriteVarInt as it runs: the digits are collected last one first, then written backwards. */
  method WriteVarInt(n: int) returns (s: Stream)
    ensures s == VarInt(n)
  {
    var tmp := CollectDigits(n);
    s := [];
    assert tmp[..|tmp|] == tmp;
    var len := |tmp|;
    while len > 0
      invariant 0 <= len <= |tmp|
      invariant Backwards(tmp) == s + Backwards(tmp[..len])
    {
      assert tmp[..len] == tmp[..len - 1] + [tmp[len - 1]];
      BackwardsUnfold(tmp[..len - 1], tmp[len - 1]);
      len := len - 1;
      s := s + [tmp[len]];
    }
    assert tmp[..0] == [];
  }

  /** The first loop: digits from the lowest up, until what is left is a digit itself. */
  method CollectDigits(n: int) returns (tmp: Stream)
    ensures Backwards(tmp) == VarInt(n)
  {
    hide Low, High, Mark, Digits, Backwards;
    tmp := [];
    var m := n;
    BackwardsUnfold([], 0);
    while m > 0x7F
      invariant if n < 0 then tmp == [] && m == n else m >= 0
      invariant n >= 0 ==> Digits(n, true) == Digits(m, tmp == []) + Backwards(tmp)
      decreases m
    {
      ghost var rest := Backwards(tmp);
      DigitsUnfold(m, tmp == []);
      var digit := Mark(Low(m), tmp == []);
      BackwardsUnfold(tmp, digit);
      assert Digits(High(m), false) + ([digit] + rest) == Digits(m, tmp == []) + rest;
      tmp := tmp + [digit];
      m := High(m);
    }
    var digit := Mark(Low(m), tmp == []);
    BackwardsUnfold(tmp, digit);
    if m >= 0 {
      DigitsUnfold(m, tmp == []);
    } else {
      NegativeDigit(m);
      assert [digit] + [] == [digit];
    }
    tmp := tmp + [digit];
  }

  lemma BackwardsUnfold(s: Stream, byte: Byte)
    ensures Backwards([]) == [] && Backwards(s + [byte]) == [byte] + Backwards(s)
  {
    assert (s + [byte])[..|s|] == s;
  }

  lemma NegativeDigit(n: int)
    requires n < 0
    ensures [Mark(Low(n), true)] == VarInt(n)
  {
  }

  function Backwards(s: Stream): Stream
  {
    if s == [] then [] else [s[|s| - 1]] + Backwards(s[..|s| - 1])
  }

  /** ReadVarInt as it runs. */
  method ReadVarIntLoop(s: Stream, modulus: nat) returns (r: Read<nat>)
    requires modulus >= 128
    ensures r == ReadVarInt(s, modulus)
  {
    hide Wrap, Low;
    var n: nat, left := 0, s;
    while true
      invariant ReadVarInt(s, modulus) == ReadDigits(left, n, modulus)
      decreases |left|
    {
      if left == [] {
        return Fail;
      }
      var ch := left[0];
      left := left[1..];
      n := Wrap(n * 128, modulus) + Low(ch);
      if ch >= 0x80 {
        n := Wrap(n + 1, modulus);
      } else {
        return Got(n, left);
      }
    }
  }
}
