/**
 The compact form of targets (src/bignum.h:269-330): a sign, a size in bytes and the three most significant bytes.
 */
module Compact {
  import opened Arith

  /** BN_num_bytes. */
  function Bytes(n: nat): nat
  {
    if n == 0 then 0 else 1 + Bytes(n / 256)
  }

  /** The number that a compact form stands for; zero has no sign. */
  function SetCompact(compact: nat): int
  {
    var size := compact / 0x100_0000;
    var word := compact % 0x80_0000;
    var value := if size <= 3 then word / Pow(256, 3 - size) else word * Pow(256, size - 3);
    if compact / 0x80_0000 % 2 == 1 then -value else value
  }

  /** The three most significant bytes of a magnitude. */
  function TopBytes(m: nat): int
  {
    if Bytes(m) <= 3 then m * Pow(256, 3 - Bytes(m)) else m / Pow(256, Bytes(m) - 3)
  }

  /** The compact form of a number, in a 32-bit word. */
  function GetCompact(n: int): int
  {
    var m: nat := if n < 0 then -n else n;
    var top := TopBytes(m);
    var negative := if n < 0 then 0x80_0000 else 0;
    if top / 0x80_0000 % 2 == 1 then (top / 256 + (Bytes(m) + 1) % 256 * 0x100_0000) + negative
    else (top + Bytes(m) % 256 * 0x100_0000) + negative
  }

  /** A number with its less significant bytes dropped. */
  function Round(n: int): int
    requires GetCompact(n) >= 0
  {
    SetCompact(GetCompact(n))
  }

  lemma {:induction false} BytesBound(n: nat)
    ensures n < Pow(256, Bytes(n))
    ensures n > 0 ==> Bytes(n) > 0 && Pow(256, Bytes(n) - 1) <= n
  {
    if n > 0 {
      BytesBound(n / 256);
    }
  }

  /** Dividing by a larger divisor. */
  lemma DivideBounds(n: nat, p: nat, lo: nat, hi: nat)
    requires p >= 1 && lo * p <= n < hi * p
    ensures lo <= n / p < hi
  {
    var q, r := n / p, n % p;
    assert n == q * p + r;
    if q < lo {
      MulMono(q + 1, lo, p);
      Distribute(q, 1, p);
    }
    if q >= hi {
      MulMono(hi, q, p);
    }
  }

  /** Three significant bytes: below 2^24, and at least 2^16 when nothing had to be filled in. */
  lemma TopBytesBound(m: nat)
    ensures 0 <= TopBytes(m) < 0x100_0000
    ensures Bytes(m) > 3 ==> TopBytes(m) >= 0x1_0000
  {
    BytesBound(m);
    var size := Bytes(m);
    assert Pow(256, 1) == 256 && Pow(256, 2) == 0x1_0000 && Pow(256, 3) == 0x100_0000;
    if size <= 3 {
      PowSum(256, size, 3 - size);
      MulMono(0, m, Pow(256, 3 - size));
      MulMono(m + 1, Pow(256, size), Pow(256, 3 - size));
      Distribute(m, 1, Pow(256, 3 - size));
    } else {
      PowSum(256, 3, size - 3);
      PowSum(256, 2, size - 3);
      DivideBounds(m, Pow(256, size - 3), 0x1_0000, 0x100_0000);
    }
  }

  /** The size that is stored: one more when the top bit would be taken for a sign. */
  function Size(m: nat): nat
  {
    if TopBytes(m) >= 0x80_0000 then Bytes(m) + 1 else Bytes(m)
  }

  function Word(m: nat): int
  {
    if TopBytes(m) >= 0x80_0000 then TopBytes(m) / 256 else TopBytes(m)
  }

  /** The stored word is the number shifted by the stored size, and keeps at least fifteen significant bits. */
  lemma WordIs(m: nat)
    ensures 0 <= Word(m) < 0x80_0000
    ensures Size(m) <= 3 ==> Word(m) == m * Pow(256, 3 - Size(m))
    ensures Size(m) > 3 ==> Word(m) == m / Pow(256, Size(m) - 3) && Word(m) >= 0x8000
  {
    TopBytesBound(m);
    if TopBytes(m) >= 0x80_0000 {
      var size := Bytes(m);
      if size < 3 {
        TimesThenDivided(m, Pow(256, 2 - size));
      } else if size == 3 {
        assert Pow(256, 0) == 1 && Pow(256, 1) == 256;
      } else {
        DividedTwice(m, Pow(256, size - 3));
      }
    }
  }

  lemma TimesThenDivided(m: nat, p: nat)
    ensures m * (256 * p) / 256 == m * p
  {
    assert m * (256 * p) == 256 * (m * p);
  }

  lemma DividedTwice(m: nat, p: nat)
    requires p >= 1
    ensures m / p / 256 == m / (256 * p)
  {
    var q, r := m / p, m % p;
    var h, l := q / 256, q % 256;
    assert m == (256 * h + l) * p + r;
    assert (256 * h + l) * p == h * (256 * p) + l * p;
    MulMono(l, 255, p);
    MulMono(0, l, p);
    QuotientIs(m, 256 * p, h, l * p + r);
  }

  /** A compact form is its word, its size and its sign. */
  lemma CompactIs(n: int)
    requires Bytes(if n < 0 then -n else n) <= 254
    ensures var m := if n < 0 then -n else n;
            Word(m) >= 0 && GetCompact(n) == Packed(Word(m), Size(m), n < 0) && 0 <= GetCompact(n) < 0x1_0000_0000
  {
    hide TopBytes, Bytes;
    var m: nat := if n < 0 then -n else n;
    TopBytesBound(m);
    WordIs(m);
    SmallSize(Bytes(m));
    TopBit(TopBytes(m));
  }

  lemma SmallSize(size: nat)
    requires size <= 254
    ensures size % 256 == size && (size + 1) % 256 == size + 1
  {
  }

  lemma TopBit(top: int)
    requires 0 <= top < 0x100_0000
    ensures top / 0x80_0000 % 2 == 1 <==> top >= 0x80_0000
  {
  }

  /** Reading a compact form gives the magnitude with the bytes below the word cleared, and the sign. */
  lemma SetCompactIs(word: nat, size: nat, negative: bool)
    requires word < 0x80_0000
    ensures var value := if size <= 3 then word / Pow(256, 3 - size) else word * Pow(256, size - 3);
            SetCompact(Packed(word, size, negative)) == if negative then -value else value
  {
    hide Pow, Packed;
    Unpacked(word, size, negative);
  }

  /** Word, size and sign in one number. */
  function Packed(word: nat, size: nat, negative: bool): nat
  {
    word + size * 0x100_0000 + if negative then 0x80_0000 else 0
  }

  lemma Unpacked(word: nat, size: nat, negative: bool)
    requires word < 0x80_0000
    ensures var compact := Packed(word, size, negative);
            compact / 0x100_0000 == size && compact % 0x80_0000 == word && (compact / 0x80_0000 % 2 == 1) == negative
  {
    var sign := if negative then 1 else 0;
    QuotientIs(Packed(word, size, negative), 0x100_0000, size, word + sign * 0x80_0000);
    QuotientIs(Packed(word, size, negative), 0x80_0000, 2 * size + sign, word);
  }

  /** The power of 256 below which digits are lost. */
  function Unit(m: nat): nat { if Size(m) <= 3 then 1 else Pow(256, Size(m) - 3) }

  /** Encoding and decoding clears the digits below the unit and keeps the sign. */
  lemma RoundIs(n: int)
    requires Bytes(if n < 0 then -n else n) <= 254
    ensures GetCompact(n) >= 0
    ensures var m: nat := if n < 0 then -n else n;
            Unit(m) >= 1 && Round(n) == if n < 0 then -(m / Unit(m) * Unit(m)) else m / Unit(m) * Unit(m)
  {
    hide Size, Word, GetCompact, SetCompact, Bytes;
    var m: nat := if n < 0 then -n else n;
    CompactIs(n);
    WordIs(m);
    SetCompactIs(Word(m), Size(m), n < 0);
    if Size(m) <= 3 {
      QuotientIs(Word(m), Pow(256, 3 - Size(m)), m, 0);
    }
  }

  /** Encoding a target rounds it down, by less than one part in 2^15. */
  lemma RoundsDown(n: nat)
    requires Bytes(n) <= 254
    ensures GetCompact(n) >= 0 && 0 <= Round(n) <= n && 0x8000 * (n - Round(n)) <= n
    ensures n > 0 ==> 0x8000 * (n - Round(n)) < n
  {
    hide Size, Word, GetCompact, SetCompact, Bytes, Round;
    RoundIs(n);
    WordIs(n);
    var p := Unit(n);
    var q := n / p;
    MulMono(0, q, p);
    if Size(n) > 3 {
      MulMono(0x8000, q, p);
    }
  }

  // ----- the compact form of a number determines it -----

  lemma {:induction false} BytesOfShifted(w: nat, k: nat)
    requires w > 0
    ensures w * Pow(256, k) > 0 && Bytes(w * Pow(256, k)) == Bytes(w) + k
  {
    if k == 0 {
      assert w * Pow(256, 0) == w;
    } else {
      BytesOfShifted(w, k - 1);
      var p := Pow(256, k - 1);
      assert w * (256 * p) == 256 * (w * p);
    }
  }

  /** A rounded number is stored in the same form, so encoding again changes nothing. */
  lemma RoundIsStable(n: nat)
    requires Bytes(n) <= 254
    ensures GetCompact(n) >= 0 && Round(n) >= 0 && GetCompact(Round(n)) == GetCompact(n)
  {
    hide GetCompact, SetCompact, Round;
    RoundsDown(n);
    RoundIs(n);
    WordIs(n);
    CompactIs(n);
    if Size(n) > 3 {
      TopBytesBound(n);
      StoredAgain(Word(n), Size(n));
      CompactIs(Round(n));
    } else {
      assert n / 1 * 1 == n;
    }
  }

  lemma StoredAgain(w: nat, size: nat)
    requires 0x8000 <= w < 0x80_0000 && 3 < size <= 255 && (size == 255 ==> w < 0x1_0000)
    ensures var m := w * Pow(256, size - 3);
            m >= 0 && Size(m) == size && Word(m) == w && Bytes(m) <= 254
  {
    var k := size - 3;
    BytesOfShifted(w, k);
    BytesOfWord(w);
    var m := w * Pow(256, k);
    hide Bytes;
    if w >= 0x1_0000 {
      QuotientIs(m, Pow(256, k), w, 0);
    } else {
      var p := Pow(256, k - 1);
      assert m == w * (256 * p) == (w * 256) * p;
      QuotientIs(m, p, w * 256, 0);
      assert k == 1 ==> p == 1;
    }
  }

  lemma BytesOfWord(w: nat)
    requires 0x8000 <= w < 0x80_0000
    ensures Bytes(w) == if w < 0x1_0000 then 2 else 3
  {
    assert Bytes(w / 256 / 256) == if w < 0x1_0000 then 0 else 1;
  }
}
