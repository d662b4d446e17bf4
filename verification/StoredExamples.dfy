/**
 The stored forms that the source gives as examples (src/serialize.h:237-258, src/main.h:849-884,
 src/test/compress_tests.cpp:37-44), and the properties that it states of variable-length integers.
 */
module StoredExamples {
  import opened Arith
  import opened Codec
  import opened Coins
  import opened CoinsCodec
  import Amounts
  import ScriptCodec

  // ----- variable-length integers -----

  /** The number that a sequence of digits stands for, as a sum over its digits, the last one first. */
  ghost function DigitSum(s: Stream, i: nat): nat
    requires i <= |s|
    decreases |s| - i
  {
    if i == |s| then 0
    else Pow(128, i) * (s[|s| - 1 - i] % 128 + (if i == 0 then 0 else 1)) + DigitSum(s, i + 1)
  }

  lemma {:induction false} DigitSumOfFront(s: Stream, i: nat)
    requires 0 < i <= |s|
    ensures var front := s[..|s| - 1];
            DigitSum(s, i) == 128 * (DigitSum(front, i - 1) + if i == 1 && front != [] then 1 else 0)
    decreases |s| - i
  {
    var front := s[..|s| - 1];
    if i < |s| {
      DigitSumOfFront(s, i + 1);
      assert front[|front| - 1 - (i - 1)] == s[|s| - 1 - i];
      PowStep(128, i - 1);
      var p, d := Pow(128, i - 1), s[|s| - 1 - i] % 128;
      if i > 1 {
        assert 128 * p * (d + 1) == 128 * (p * (d + 1));
      }
    }
  }

  lemma PowStep(b: nat, e: nat)
    ensures Pow(b, e + 1) == b * Pow(b, e)
  {
  }

  /** The encoding of n is the only sequence of digits for which the documented sum is n. */
  lemma {:induction false} ValueIsSum(s: Stream)
    requires s != []
    ensures Value(s) == DigitSum(s, 0)
  {
    var n := |s| - 1;
    DigitSumOfFront(s, 1);
    if n > 0 {
      ValueIsSum(s[..n]);
    }
  }

  lemma EncodingIff(n: nat, s: Stream)
    ensures s == VarInt(n) <==> Marked(s) && s[|s| - 1] < 0x80 && DigitSum(s, 0) == n
  {
    DigitsAreMarked(n, true);
    ValueIsSum(VarInt(n));
    if Marked(s) && s[|s| - 1] < 0x80 && DigitSum(s, 0) == n {
      ValueIsSum(s);
      EncodingIsUnique(s);
    }
  }

  /** How many numbers have at most k digits. */
  ghost function Below(k: nat): nat { if k == 0 then 0 else 128 * (Below(k - 1) + 1) }

  lemma {:induction false} SizeIff(n: nat, last: bool, k: nat)
    ensures |Digits(n, last)| <= k <==> n < Below(k)
    decreases k
  {
    if n > 0x7F && k > 0 {
      SizeIff(High(n), false, k - 1);
    }
  }

  /** One byte up to 127, two up to 16511, three up to 2113663. */
  lemma DocumentedSizes(n: nat)
    ensures |VarInt(n)| == 1 <==> n <= 127
    ensures |VarInt(n)| == 2 <==> 128 <= n <= 16511
    ensures |VarInt(n)| == 3 <==> 16512 <= n <= 2113663
  {
    SizeIff(n, true, 1);
    SizeIff(n, true, 2);
    SizeIff(n, true, 3);
    assert Below(3) == 2113664;
  }

  /** Two of the documented examples are not what the code writes; the sum and the sizes agree with the code. */
  lemma DocumentedNumbers()
    ensures VarInt(0) == [0x00] && VarInt(1) == [0x01] && VarInt(127) == [0x7F] && VarInt(128) == [0x80, 0x00]
    ensures VarInt(255) == [0x80, 0x7F] && VarInt(256) == [0x81, 0x00] && VarInt(16383) == [0xFE, 0x7F]
    ensures VarInt(16384) == [0xFF, 0x00] && VarInt(TWO_32) == [0x8E, 0xFE, 0xFE, 0xFF, 0x00]
    ensures VarInt(16511) == [0xFF, 0x7F] && VarInt(65535) == [0x82, 0xFE, 0x7F]
  {
    LargeNumbers();
  }

  lemma LargeNumbers()
    ensures VarInt(16384) == [0xFF, 0x00] && VarInt(TWO_32) == [0x8E, 0xFE, 0xFE, 0xFF, 0x00]
    ensures VarInt(16511) == [0xFF, 0x7F] && VarInt(65535) == [0x82, 0xFE, 0x7F]
  {
  }

  // ----- amounts -----

  const CENT: nat := 1_000_000
  const COIN: nat := 100_000_000

  lemma AmountIs(x: nat, value: nat)
    requires value == Amounts.Decompress(x)
    ensures Amounts.Compress(value) == x
  {
    Amounts.CompressUndoesDecompress(x);
  }

  lemma DocumentedAmounts()
    ensures Amounts.Compress(0) == 0x0 && Amounts.Compress(1) == 0x1 && Amounts.Compress(CENT) == 0x7
    ensures Amounts.Compress(COIN) == 0x9 && Amounts.Compress(50 * COIN) == 0x32
    ensures Amounts.Compress(21_000_000 * COIN) == 0x1406f40
  {
    hide Amounts.Compress;
    AmountIs(0x0, 0);
    AmountIs(0x1, 1);
    AmountIs(0x7, CENT);
    AmountIs(0x9, COIN);
    AmountIs(0x32, 50 * COIN);
    AmountIs(0x1406f40, 21_000_000 * COIN);
  }

  // ----- unspent outputs -----

  const FIRST_HASH: Stream :=
    [0x81, 0x61, 0x15, 0x94, 0x4e, 0x07, 0x7f, 0xe7, 0xc8, 0x03,
     0xcf, 0xa5, 0x7f, 0x29, 0xb3, 0x6b, 0xf8, 0x7c, 0x1d, 0x35]

  const SECOND_HASH: Stream :=
    [0x61, 0xb0, 0x1c, 0xaa, 0xb5, 0x0f, 0x1b, 0x8e, 0x9c, 0x50,
     0xa5, 0x05, 0x7e, 0xb4, 0x3c, 0x2d, 0x95, 0x63, 0xa4, 0xee]

  const THIRD_HASH: Stream :=
    [0x8c, 0x98, 0x8f, 0x1a, 0x4a, 0x4d, 0xe2, 0x16, 0x1e, 0x0f,
     0x50, 0xaa, 0xc7, 0xf1, 0x7e, 0x7f, 0x95, 0x55, 0xca, 0xa4]

  /** An output paid to a key hash. */
  function PaidTo(value: int, hash: Stream): TxOut
  {
    TxOut(value, [0x76, 0xa9, 0x14] + hash + [0x88, 0xac])
  }

  lemma PaidToIsStored(curve: ScriptCodec.Curve, value: nat, hash: Stream)
    requires |hash| == 20 && value <= 84_000_000 * COIN
    ensures WriteOut(curve, PaidTo(value, hash)) == VarInt(Wrap(Amounts.Compress(value), TWO_64)) + [0x00] + hash
  {
    var s := PaidTo(value, hash).script;
    assert s[3..23] == hash;
    hide VarInt, Amounts.Compress, Wrap;
    assert ScriptCodec.Write(curve, s) == [0x00] + hash;
  }

  lemma OutputIs(curve: ScriptCodec.Curve, code: nat, value: nat, hash: Stream)
    requires |hash| == 20 && value <= 84_000_000 * COIN && value == Amounts.Decompress(code) && code < TWO_64
    ensures WriteOut(curve, PaidTo(value, hash)) == VarInt(code) + [0x00] + hash
  {
    hide *;
    AmountIs(code, value);
    PaidToIsStored(curve, value, hash);
  }

  lemma AmountCodes()
    ensures VarInt(0x258) == [0x83, 0x58] && 60_000_000_000 == Amounts.Decompress(0x258)
    ensures VarInt(0x7e06_2b79) == [0x86, 0xef, 0x97, 0xd5, 0x79] && 234_925_952 == Amounts.Decompress(0x7e06_2b79)
    ensures VarInt(0xf_2923) == [0xbb, 0xd1, 0x23] && 110_397 == Amounts.Decompress(0xf_2923)
  {
    hide VarInt;
    CodeBytes();
  }

  lemma CodeBytes()
    ensures VarInt(0x258) == [0x83, 0x58] && VarInt(0x7e06_2b79) == [0x86, 0xef, 0x97, 0xd5, 0x79]
    ensures VarInt(0xf_2923) == [0xbb, 0xd1, 0x23]
  {
  }

  lemma {:induction false} NullsAreNotStored(curve: ScriptCodec.Curve, count: nat, rest: seq<TxOut>)
    requires forall i :: 0 <= i < |rest| ==> rest[i].IsNull() || rest[i].value >= 0
    ensures WriteOuts(curve, seq(count, _ => NULL_OUT) + rest) == WriteOuts(curve, rest)
  {
    var vout := seq(count, _ => NULL_OUT) + rest;
    if count == 0 {
      assert vout == rest;
    } else {
      assert vout[1..] == seq(count - 1, _ => NULL_OUT) + rest;
      NullsAreNotStored(curve, count - 1, rest);
    }
  }

  /** The parts of a record, in their order. */
  lemma RecordIs(
      curve: ScriptCodec.Curve, c: Coins, version: Stream, code: Stream, mask: Stream, outs: Stream, height: Stream)
    requires !c.IsPruned() && forall i :: 0 <= i < |c.vout| ==> c.vout[i].IsNull() || c.vout[i].value >= 0
    requires version == VarInt(c.version) && code == VarInt(Wrap(HeaderCode(c), TWO_32)) && height == VarInt(c.height)
    requires mask == MaskBytes(MaskPart(c.vout)) && outs == WriteOuts(curve, c.vout)
    ensures WriteCoins(curve, c) == version + code + mask + outs + height
  {
    hide VarInt, Wrap, HeaderCode, MaskBytes, MaskPart, WriteOuts;
  }

  lemma OneOutput(curve: ScriptCodec.Curve, out: TxOut)
    requires out.value >= 0
    ensures WriteOuts(curve, [out]) == WriteOut(curve, out)
  {
    hide WriteOut;
    assert [out][1..] == [];
  }

  lemma PaidToHas(value: nat, hash: Stream)
    ensures PaidTo(value, hash).value == value && !PaidTo(value, hash).IsNull()
  {
  }

  lemma Numbers()
    ensures VarInt(1) == [0x01] && VarInt(4) == [0x04] && VarInt(9) == [0x09]
    ensures VarInt(203998) == [0x8b, 0xb8, 0x5e] && VarInt(120891) == [0x86, 0xaf, 0x3b]
  {
  }

  /** The first documented record: version, header code, second output, height. */
  lemma FirstRecord(curve: ScriptCodec.Curve)
    ensures var c := Coins(false, [NULL_OUT, PaidTo(60_000_000_000, FIRST_HASH)], 203998, 1);
            !c.IsPruned() && WriteCoins(curve, c) ==
              [0x01] + [0x04] + [] + ([0x83, 0x58] + [0x00] + FIRST_HASH) + [0x8b, 0xb8, 0x5e]
  {
    hide *;
    var out := PaidTo(60_000_000_000, FIRST_HASH);
    PaidToHas(60_000_000_000, FIRST_HASH);
    FirstParts(out);
    FirstOutput(curve);
    Numbers();
    RecordIs(curve, Coins(false, [NULL_OUT, out], 203998, 1),
             [0x01], [0x04], [], [0x83, 0x58] + [0x00] + FIRST_HASH, [0x8b, 0xb8, 0x5e]);
  }

  lemma FirstOutput(curve: ScriptCodec.Curve)
    ensures var out := PaidTo(60_000_000_000, FIRST_HASH);
            WriteOuts(curve, [NULL_OUT, out]) == [0x83, 0x58] + [0x00] + FIRST_HASH
  {
    var out := PaidTo(60_000_000_000, FIRST_HASH);
    AmountCodes();
    hide VarInt, Amounts.Decompress, WriteOut;
    OutputIs(curve, 0x258, 60_000_000_000, FIRST_HASH);
    OneOutput(curve, out);
    assert [NULL_OUT, out][1..] == [out];
  }

  lemma FirstParts(out: TxOut)
    requires out.value >= 0
    ensures var c := Coins(false, [NULL_OUT, out], 203998, 1);
            && !c.IsPruned() && MaskBytes(MaskPart(c.vout)) == [] && Wrap(HeaderCode(c), TWO_32) == 4
            && (forall i :: 0 <= i < |c.vout| ==> c.vout[i].IsNull() || c.vout[i].value >= 0)
  {
    var c := Coins(false, [NULL_OUT, out], 203998, 1);
    assert !c.vout[1].IsNull();
  }

  /** The outputs of the second documented record: of seventeen, the fifth and the last are unspent. */
  function TwoLeft(a: TxOut, b: TxOut): (vout: seq<TxOut>)
    ensures |vout| == 17
  {
    seq(4, _ => NULL_OUT) + ([a] + (seq(11, _ => NULL_OUT) + [b]))
  }

  lemma TwoLeftStored(curve: ScriptCodec.Curve, a: TxOut, b: TxOut)
    requires a.value >= 0 && b.value >= 0
    ensures WriteOuts(curve, TwoLeft(a, b)) == WriteOut(curve, a) + WriteOut(curve, b)
  {
    hide WriteOut;
    var tail := seq(11, _ => NULL_OUT) + [b];
    NullsAreNotStored(curve, 4, [a] + tail);
    NullsAreNotStored(curve, 11, [b]);
    OneOutput(curve, b);
    assert ([a] + tail)[1..] == tail;
  }

  lemma {:induction false} ByteOfBit(low: nat, high: nat)
    ensures ByteOf(seq(low, _ => false) + [true] + seq(high, _ => false)) == Pow(2, low)
    decreases low
  {
    var bits := seq(low, _ => false) + [true] + seq(high, _ => false);
    if low == 0 {
      assert ByteOf(bits[1..]) == 0;
    } else {
      assert bits[1..] == seq(low - 1, _ => false) + [true] + seq(high, _ => false);
      ByteOfBit(low - 1, high);
    }
  }

  lemma TwoLeftBits(a: TxOut, b: TxOut)
    requires a.value >= 0 && b.value >= 0
    ensures var bits := MaskPart(TwoLeft(a, b));
            && !AllClear(bits) && !AllClear(After8(bits)) && AllClear(After8(After8(bits)))
            && First8(bits) == seq(2, _ => false) + [true] + seq(5, _ => false)
            && First8(After8(bits)) == seq(6, _ => false) + [true] + seq(0, _ => false)
  {
    var bits := MaskPart(TwoLeft(a, b));
    assert bits[2] && bits[14];
    assert After8(bits)[6];
  }

  lemma TwoLeftMask(a: TxOut, b: TxOut)
    requires a.value >= 0 && b.value >= 0
    ensures MaskBytes(MaskPart(TwoLeft(a, b))) == [0x04, 0x40]
  {
    hide TwoLeft, MaskPart, AllClear, First8, After8, ByteOf;
    var bits := MaskPart(TwoLeft(a, b));
    TwoLeftBits(a, b);
    ByteOfBit(2, 5);
    ByteOfBit(6, 0);
    assert Pow(2, 2) == 4 && Pow(2, 6) == 64;
    assert MaskBytes(After8(bits)) == [0x40] + MaskBytes(After8(After8(bits)));
  }

  lemma TwoLeftAre(a: TxOut, b: TxOut)
    ensures var vout := TwoLeft(a, b);
            && vout[4] == a && vout[0] == vout[1] == NULL_OUT
            && forall i :: 0 <= i < |vout| ==> vout[i] == NULL_OUT || vout[i] == a || vout[i] == b
  {
  }

  lemma TwoLeftParts(a: TxOut, b: TxOut)
    requires a.value >= 0 && b.value >= 0
    ensures var c := Coins(true, TwoLeft(a, b), 120891, 1);
            && !c.IsPruned() && Wrap(HeaderCode(c), TWO_32) == 9
            && (forall i :: 0 <= i < |c.vout| ==> c.vout[i].IsNull() || c.vout[i].value >= 0)
  {
    hide TwoLeft, MaskBytes, MaskPart;
    TwoLeftAre(a, b);
    TwoLeftMask(a, b);
    NonZeroTwo();
  }

  lemma NonZeroTwo()
    ensures NonZero([0x04, 0x40]) == 2
  {
    assert [0x04, 0x40][1..] == [0x40];
  }

  lemma SecondOutputs(curve: ScriptCodec.Curve)
    ensures WriteOut(curve, PaidTo(234_925_952, SECOND_HASH)) == [0x86, 0xef, 0x97, 0xd5, 0x79] + [0x00] + SECOND_HASH
    ensures WriteOut(curve, PaidTo(110_397, THIRD_HASH)) == [0xbb, 0xd1, 0x23] + [0x00] + THIRD_HASH
  {
    AmountCodes();
    hide VarInt, Amounts.Decompress, WriteOut;
    OutputIs(curve, 0x7e06_2b79, 234_925_952, SECOND_HASH);
    OutputIs(curve, 0xf_2923, 110_397, THIRD_HASH);
  }

  /** The second documented record: version, header code, two mask bytes, fifth and last output, height. */
  lemma SecondRecord(curve: ScriptCodec.Curve)
    ensures var c := Coins(true, TwoLeft(PaidTo(234_925_952, SECOND_HASH), PaidTo(110_397, THIRD_HASH)), 120891, 1);
            !c.IsPruned() && WriteCoins(curve, c) ==
              [0x01] + [0x09] + [0x04, 0x40]
              + (([0x86, 0xef, 0x97, 0xd5, 0x79] + [0x00] + SECOND_HASH) + ([0xbb, 0xd1, 0x23] + [0x00] + THIRD_HASH))
              + [0x86, 0xaf, 0x3b]
  {
    hide *;
    var a, b := PaidTo(234_925_952, SECOND_HASH), PaidTo(110_397, THIRD_HASH);
    PaidToHas(234_925_952, SECOND_HASH);
    PaidToHas(110_397, THIRD_HASH);
    TwoLeftParts(a, b);
    TwoLeftMask(a, b);
    TwoLeftStored(curve, a, b);
    SecondOutputs(curve);
    Numbers();
    RecordIs(curve, Coins(true, TwoLeft(a, b), 120891, 1),
             [0x01], [0x09], [0x04, 0x40], WriteOut(curve, a) + WriteOut(curve, b), [0x86, 0xaf, 0x3b]);
  }

  // ----- undo records -----

  /** The record of a last output: height and coinbase in one number, version, output.  Of another: 0 and the output. */
  lemma UndoExample(curve: ScriptCodec.Curve)
    ensures var out := PaidTo(110_397, THIRD_HASH);
            && WriteUndo(curve, TxInUndo(out, true, 63, 2)) == [0x7F] + [0x02] + WriteOut(curve, out)
            && WriteUndo(curve, TxInUndo(out, false, 63, 2)) == [0x7E] + [0x02] + WriteOut(curve, out)
            && WriteUndo(curve, TxInUndo(out, false, 0, 0)) == [0x00] + WriteOut(curve, out)
  {
    hide WriteOut;
    assert VarInt(0x7F) == [0x7F] && VarInt(0x7E) == [0x7E] && VarInt(2) == [0x02] && VarInt(0) == [0x00];
  }
}
