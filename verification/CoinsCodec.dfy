/**
 The stored form of unspent outputs and of undo records (src/main.h:684-749, 936-1042).

 A record of unspent outputs holds a header code (coinbase, the first two outputs, how many mask bytes are not zero),
 the mask bytes up to the last one that is not zero, the unspent outputs and the height.
 */
module CoinsCodec {
  import opened Arith
  import opened Coins
  import opened Codec
  import Amounts
  import ScriptCodec
  import Ledger

  // ----- one output -----

  function WriteOut(curve: ScriptCodec.Curve, out: TxOut): Stream
    requires out.value >= 0
  {
    VarInt(Wrap(Amounts.Compress(out.value), TWO_64)) + ScriptCodec.Write(curve, out.script)
  }

  function ReadOut(curve: ScriptCodec.Curve, s: Stream): Read<TxOut>
  {
    match ReadVarInt(s, TWO_64)
    case Fail => Fail
    case Got(code, rest) =>
      match ScriptCodec.ReadScript(curve, rest)
      case Fail => Fail
      case Got(script, after) => Got(TxOut(Wrap(Amounts.Decompress(code), TWO_64), script), after)
  }

  predicate Storable(out: TxOut)
  {
    0 <= out.value <= Ledger.MAX_MONEY && |out.script| + ScriptCodec.SPECIAL_SCRIPTS < TWO_32
  }

  lemma OutReadsBack(curve: ScriptCodec.Curve, out: TxOut, rest: Stream)
    requires ScriptCodec.Lawful(curve) && Storable(out)
    ensures ReadOut(curve, WriteOut(curve, out) + rest) == Got(out, rest)
  {
    hide ScriptCodec.Lawful, ScriptCodec.Write, ScriptCodec.ReadScript, ReadVarInt, VarInt, Wrap, Amounts.Compress,
      Amounts.Decompress;
    Amounts.NoOverflowOnMoney(out.value);
    Amounts.DecompressUndoesCompress(out.value);
    var code, script := Amounts.Compress(out.value), ScriptCodec.Write(curve, out.script);
    assert WriteOut(curve, out) + rest == VarInt(code) + (script + rest);
    VarIntReadsBack(code, script + rest, TWO_64);
    ScriptCodec.ScriptReadsBack(curve, out.script, rest);
  }

  // ----- mask bytes -----

  /** A byte from at most eight bits, the least significant first. */
  function ByteOf(bits: seq<bool>): (r: nat)
    ensures r < Pow(2, |bits|)
    ensures r == 0 <==> forall i :: 0 <= i < |bits| ==> !bits[i]
  {
    if bits == [] then 0
    else
      assert forall i :: 1 <= i < |bits| ==> bits[i] == bits[1..][i - 1];
      (if bits[0] then 1 else 0) + 2 * ByteOf(bits[1..])
  }

  /** The lowest bits of a byte. */
  function BitsOf(byte: nat, count: nat): (r: seq<bool>)
    ensures |r| == count
  {
    if count == 0 then [] else [byte % 2 == 1] + BitsOf(byte / 2, count - 1)
  }

  function Padded(bits: seq<bool>, size: nat): (r: seq<bool>)
    ensures |bits| <= size ==> |r| == size
  {
    if |bits| <= size then bits + seq(size - |bits|, _ => false) else bits
  }

  lemma ByteDigits(bits: seq<bool>)
    requires bits != []
    ensures ByteOf(bits) / 2 == ByteOf(bits[1..]) && (ByteOf(bits) % 2 == 1) == bits[0]
  {
  }

  lemma PaddedFirst(bits: seq<bool>, size: nat)
    requires |bits| <= size && size > 0
    ensures bits != [] ==> Padded(bits, size) == [bits[0]] + Padded(bits[1..], size - 1)
    ensures bits == [] ==> Padded(bits, size) == [false] + Padded([], size - 1)
  {
  }

  lemma {:induction false} BitsOfByte(bits: seq<bool>, count: nat)
    requires |bits| <= count
    ensures BitsOf(ByteOf(bits), count) == Padded(bits, count)
  {
    if count > 0 {
      var rest := if bits == [] then [] else bits[1..];
      BitsOfByte(rest, count - 1);
      PaddedFirst(bits, count);
      if bits != [] {
        ByteDigits(bits);
      }
      hide Padded, ByteOf;
    }
  }

  predicate AllClear(bits: seq<bool>) { forall i :: 0 <= i < |bits| ==> !bits[i] }

  function First8(bits: seq<bool>): seq<bool> { if |bits| <= 8 then bits else bits[..8] }

  function After8(bits: seq<bool>): seq<bool> { if |bits| <= 8 then [] else bits[8..] }

  lemma ByteFits(bits: seq<bool>)
    ensures ByteOf(First8(bits)) < 256
  {
    assert Pow(2, 8) == 256;
    PowGrows(|First8(bits)|, 8);
  }

  /** The mask bytes of availabilities, up to the last byte that is not zero. */
  function MaskBytes(bits: seq<bool>): Stream
    decreases |bits|
  {
    if AllClear(bits) then []
    else
      assert bits != [];
      ByteFits(bits);
      [ByteOf(First8(bits))] + MaskBytes(After8(bits))
  }

  function NonZero(bytes: Stream): nat
  {
    if bytes == [] then 0 else (if bytes[0] != 0 then 1 else 0) + NonZero(bytes[1..])
  }

  /** Reads mask bytes until the given number of them was not zero. */
  function ReadMask(s: Stream, nonZero: nat): Read<seq<bool>>
    decreases |s|
  {
    if nonZero == 0 then Got([], s)
    else if s == [] then Fail
    else Prepend(BitsOf(s[0], 8), ReadMask(s[1..], if s[0] != 0 then nonZero - 1 else nonZero))
  }

  /** Availabilities that go on have a byte left that is not zero, so the reader cannot stop early. */
  lemma {:induction false} SomeNonZero(bits: seq<bool>)
    requires !AllClear(bits)
    ensures NonZero(MaskBytes(bits)) > 0
    decreases |bits|
  {
    var bytes := MaskBytes(bits);
    assert bytes[1..] == MaskBytes(After8(bits));
    if bytes[0] == 0 {
      assert AllClear(First8(bits));
      var i :| 0 <= i < |bits| && bits[i];
      assert forall j :: 0 <= j < |First8(bits)| ==> !bits[j];
      assert After8(bits)[i - 8];
      SomeNonZero(After8(bits));
    }
  }

  lemma {:induction false} MaskReadsBack(bits: seq<bool>, rest: Stream)
    ensures ReadMask(MaskBytes(bits) + rest, NonZero(MaskBytes(bits))) == Got(MaskBits(bits), rest)
    decreases |bits|
  {
    hide ByteOf, BitsOf;
    var bytes := MaskBytes(bits);
    if AllClear(bits) {
      assert bytes + rest == rest;
    } else {
      SomeNonZero(bits);
      var tail := MaskBytes(After8(bits));
      assert bytes[1..] == tail;
      assert (bytes + rest)[1..] == tail + rest;
      MaskReadsBack(After8(bits), rest);
      BitsOfByte(First8(bits), 8);
    }
  }

  /** The availabilities as the reader sees them: in whole bytes, up to the last byte that is not zero. */
  function MaskBits(bits: seq<bool>): seq<bool>
    decreases |bits|
  {
    if AllClear(bits) then [] else assert bits != []; Padded(First8(bits), 8) + MaskBits(After8(bits))
  }

  /** What the reader sees is the availabilities, with clear ones cut off or added at the end. */
  lemma {:induction false} MaskBitsMean(bits: seq<bool>)
    ensures var seen := MaskBits(bits);
            (forall i :: 0 <= i < |seen| ==> seen[i] == (i < |bits| && bits[i])) &&
            (forall i :: |seen| <= i < |bits| ==> !bits[i])
    decreases |bits|
  {
    if !AllClear(bits) {
      MaskBitsMean(After8(bits));
      var seen, tail := MaskBits(bits), MaskBits(After8(bits));
      assert forall i :: 8 <= i < |seen| ==> seen[i] == tail[i - 8];
      assert forall i :: 8 <= i < |bits| ==> bits[i] == After8(bits)[i - 8];
    }
  }

  // ----- the outputs -----

  function Available(vout: seq<TxOut>): (r: seq<bool>)
    ensures |r| == |vout| && forall i :: 0 <= i < |r| ==> r[i] == !vout[i].IsNull()
  {
    seq(|vout|, i requires 0 <= i < |vout| => !vout[i].IsNull())
  }

  /** Spent outputs are null, unspent ones can be stored. */
  ghost predicate StorableOuts(vout: seq<TxOut>)
  {
    forall i :: 0 <= i < |vout| ==> vout[i] == NULL_OUT || Storable(vout[i])
  }

  function WriteOuts(curve: ScriptCodec.Curve, vout: seq<TxOut>): Stream
    requires forall i :: 0 <= i < |vout| ==> vout[i].IsNull() || vout[i].value >= 0
  {
    if vout == [] then []
    else (if vout[0].IsNull() then [] else WriteOut(curve, vout[0])) + WriteOuts(curve, vout[1..])
  }

  function ReadOuts(curve: ScriptCodec.Curve, s: Stream, available: seq<bool>): Read<seq<TxOut>>
    decreases |available|
  {
    if available == [] then Got([], s)
    else
      match if available[0] then ReadOut(curve, s) else Got(NULL_OUT, s)
      case Fail => Fail
      case Got(out, rest) => Prepend([out], ReadOuts(curve, rest, available[1..]))
  }

  lemma FirstAvailable(vout: seq<TxOut>)
    ensures vout != [] ==> Available(vout)[0] == !vout[0].IsNull() && Available(vout)[1..] == Available(vout[1..])
  {
  }

  lemma {:induction false} OutsReadBack(curve: ScriptCodec.Curve, vout: seq<TxOut>, rest: Stream)
    requires ScriptCodec.Lawful(curve) && StorableOuts(vout)
    ensures ReadOuts(curve, WriteOuts(curve, vout) + rest, Available(vout)) == Got(vout, rest)
  {
    hide ScriptCodec.Lawful, WriteOut, ReadOut, Available;
    FirstAvailable(vout);
    if vout == [] {
      assert WriteOuts(curve, vout) + rest == rest;
    } else {
      var tail := WriteOuts(curve, vout[1..]);
      OutsReadBack(curve, vout[1..], rest);
      if vout[0].IsNull() {
        assert WriteOuts(curve, vout) + rest == tail + rest;
      } else {
        assert WriteOuts(curve, vout) + rest == WriteOut(curve, vout[0]) + (tail + rest);
        OutReadsBack(curve, vout[0], tail + rest);
      }
      assert vout == [vout[0]] + vout[1..];
    }
  }

  /** Null outputs at the end leave no trace. */
  lemma {:induction false} NullsWriteNothing(curve: ScriptCodec.Curve, vout: seq<TxOut>, size: nat)
    requires StorableOuts(vout)
    ensures WriteOuts(curve, Grow(Trim(vout), size)) == WriteOuts(curve, vout)
    decreases |vout| + size
  {
    hide WriteOut;
    var t := Trim(vout);
    WriteTrimmed(curve, vout, t);
    WriteTrimmed(curve, Grow(t, size), t);
  }

  lemma {:induction false} WriteTrimmed(curve: ScriptCodec.Curve, vout: seq<TxOut>, front: seq<TxOut>)
    requires StorableOuts(vout) && |front| <= |vout| && front == vout[..|front|]
    requires forall i :: |front| <= i < |vout| ==> vout[i].IsNull()
    ensures WriteOuts(curve, vout) == WriteOuts(curve, front)
  {
    hide WriteOut;
    if front != [] {
      assert front[1..] == vout[1..][..|front| - 1];
      WriteTrimmed(curve, vout[1..], front[1..]);
    } else if vout != [] {
      WriteTrimmed(curve, vout[1..], []);
    }
  }

  // ----- unspent outputs of a transaction -----

  /** The availabilities in the mask: all but the first two. */
  function MaskPart(vout: seq<TxOut>): seq<bool>
  {
    if |vout| <= 2 then [] else Available(vout)[2..]
  }

  predicate Has(vout: seq<TxOut>, i: nat) { i < |vout| && !vout[i].IsNull() }

  function HeaderCode(c: Coins): nat
    requires !c.IsPruned()
  {
    var first, second := Has(c.vout, 0), Has(c.vout, 1);
    SomeOutput(c.vout);
    8 * (NonZero(MaskBytes(MaskPart(c.vout))) - if first || second then 0 else 1)
    + (if c.coinBase then 1 else 0) + (if first then 2 else 0) + if second then 4 else 0
  }

  /** Coins that are not pruned have an output in the header or a mask byte that is not zero. */
  lemma SomeOutput(vout: seq<TxOut>)
    requires exists i :: 0 <= i < |vout| && !vout[i].IsNull()
    ensures Has(vout, 0) || Has(vout, 1) || NonZero(MaskBytes(MaskPart(vout))) > 0
  {
    var i :| 0 <= i < |vout| && !vout[i].IsNull();
    if i >= 2 {
      assert MaskPart(vout)[i - 2];
      SomeNonZero(MaskPart(vout));
    }
  }

  /** The most elements any serialized vector can have. */
  const MAX_SIZE: nat := 0x0200_0000

  ghost predicate StorableCoins(c: Coins)
  {
    && !c.IsPruned() && StorableOuts(c.vout) && |c.vout| <= MAX_SIZE
    && c.height < 0x8000_0000 && -0x8000_0000 <= c.version < 0x8000_0000
  }

  function WriteCoins(curve: ScriptCodec.Curve, c: Coins): Stream
    requires !c.IsPruned() && forall i :: 0 <= i < |c.vout| ==> c.vout[i].IsNull() || c.vout[i].value >= 0
  {
    VarInt(c.version) + (VarInt(Wrap(HeaderCode(c), TWO_32)) +
      (MaskBytes(MaskPart(c.vout)) + (WriteOuts(curve, c.vout) + VarInt(c.height))))
  }

  /** A 32-bit word as a signed number. */
  function Signed(n: nat): (r: int)
    ensures n < TWO_32 ==> -0x8000_0000 <= r < 0x8000_0000 && (r == n || r + TWO_32 == n)
  {
    if n < 0x8000_0000 then n else n - TWO_32
  }

  function ReadCoins(curve: ScriptCodec.Curve, s: Stream): Read<Coins>
  {
    match ReadVarInt(s, TWO_32)
    case Fail => Fail
    case Got(version, s1) =>
      match ReadVarInt(s1, TWO_32)
      case Fail => Fail
      case Got(code, s2) =>
        match ReadMask(s2, code / 8 + if code / 2 % 4 != 0 then 0 else 1)
        case Fail => Fail
        case Got(mask, s3) =>
          match ReadOuts(curve, s3, [code / 2 % 2 == 1, code / 4 % 2 == 1] + mask)
          case Fail => Fail
          case Got(vout, s4) =>
            match ReadVarInt(s4, TWO_32)
            case Fail => Fail
            case Got(height, s5) => Got(Coins(code % 2 == 1, Trim(vout), height, Signed(version)), s5)
  }

  lemma {:induction false} MaskSize(bits: seq<bool>)
    ensures NonZero(MaskBytes(bits)) <= (|bits| + 7) / 8
    decreases |bits|
  {
    if !AllClear(bits) {
      assert MaskBytes(bits)[1..] == MaskBytes(After8(bits));
      MaskSize(After8(bits));
    }
  }

  /** The header code fits its word, and everything in it can be read off. */
  lemma HeaderReadsBack(c: Coins)
    requires !c.IsPruned() && |c.vout| <= MAX_SIZE
    ensures var code := HeaderCode(c);
            && code < TWO_32 && (code % 2 == 1) == c.coinBase
            && (code / 2 % 2 == 1) == Has(c.vout, 0) && (code / 4 % 2 == 1) == Has(c.vout, 1)
            && code / 8 + (if code / 2 % 4 != 0 then 0 else 1) == NonZero(MaskBytes(MaskPart(c.vout)))
  {
    hide NonZero, MaskBytes, Available;
    MaskSize(MaskPart(c.vout));
    SomeOutput(c.vout);
    var first, second := Has(c.vout, 0), Has(c.vout, 1);
    HeaderDigits(NonZero(MaskBytes(MaskPart(c.vout))) - if first || second then 0 else 1, c.coinBase, first, second);
  }

  lemma HeaderDigits(n: nat, coinBase: bool, first: bool, second: bool)
    ensures var code := 8 * n + (if coinBase then 1 else 0) + (if first then 2 else 0) + if second then 4 else 0;
            && code / 8 == n && (code % 2 == 1) == coinBase && (code / 2 % 2 == 1) == first &&
               (code / 4 % 2 == 1) == second
            && (code / 2 % 4 != 0) == (first || second)
  {
    var a, b, c := if coinBase then 1 else 0, if first then 1 else 0, if second then 1 else 0;
    var code := 8 * n + a + 2 * b + 4 * c;
    QuotientIs(code, 8, n, a + 2 * b + 4 * c);
    QuotientIs(code, 2, 4 * n + b + 2 * c, a);
    QuotientIs(4 * n + b + 2 * c, 2, 2 * n + c, b);
    QuotientIs(code, 4, 2 * n + c, a + 2 * b);
    QuotientIs(2 * n + c, 2, n, c);
    QuotientIs(4 * n + b + 2 * c, 4, n, b + 2 * c);
  }

  /** The availabilities as the reader sees them. */
  function Seen(vout: seq<TxOut>): seq<bool>
  {
    [Has(vout, 0), Has(vout, 1)] + MaskBits(MaskPart(vout))
  }

  lemma SeenMeans(vout: seq<TxOut>)
    ensures forall i :: 0 <= i < |Seen(vout)| ==> Seen(vout)[i] == Has(vout, i)
    ensures |Trim(vout)| <= |Seen(vout)|
  {
    hide MaskBits;
    var part := MaskPart(vout);
    MaskBitsMean(part);
    assert forall i :: 2 <= i < |vout| ==> part[i - 2] == !vout[i].IsNull();
    assert forall i :: |Seen(vout)| <= i < |vout| ==> vout[i].IsNull();
  }

  /** The outputs that the reader allots room for: the unspent ones, and null ones up to whole bytes. */
  lemma AllottedOuts(vout: seq<TxOut>)
    ensures Available(Grow(Trim(vout), |Seen(vout)|)) == Seen(vout)
    ensures Trim(Grow(Trim(vout), |Seen(vout)|)) == Trim(vout)
  {
    hide Seen, Grow, Trim;
    SeenMeans(vout);
    TrimOfGrow(Trim(vout), |Seen(vout)|);
    assert Available(Grow(Trim(vout), |Seen(vout)|)) == Seen(vout);
  }

  lemma {:induction false} TrimOfGrow(t: seq<TxOut>, size: nat)
    requires t == [] || !t[|t| - 1].IsNull()
    ensures Trim(Grow(t, size)) == t
  {
    if |t| < size {
      TrimOfGrow(t, size - 1);
      assert Grow(t, size)[..size - 1] == Grow(t, size - 1);
    }
  }

  /** Reading back stored coins: everything but the null outputs at the end and the upper bits of a negative version. */
  lemma CoinsReadBack(curve: ScriptCodec.Curve, c: Coins, rest: Stream)
    requires ScriptCodec.Lawful(curve) && StorableCoins(c)
    ensures ReadCoins(curve, WriteCoins(curve, c) + rest) ==
            Got(StoredCoins(c.(vout := Trim(c.vout))), rest)
  {
    hide ScriptCodec.Lawful, ReadVarInt, VarInt, ReadMask, MaskBytes, ReadOuts, WriteOuts, HeaderCode, NonZero, Wrap,
      Trim, Grow, Available, MaskBits;
    HeaderReadsBack(c);
    var code := HeaderCode(c);
    var mask, outs := MaskBytes(MaskPart(c.vout)), WriteOuts(curve, c.vout);
    var s4 := VarInt(c.height) + rest;
    var s3 := outs + s4;
    var s2 := mask + s3;
    var s1 := VarInt(code) + s2;
    assert WriteCoins(curve, c) + rest == VarInt(c.version) + s1;
    VarIntReadsBack(c.version, s1, TWO_32);
    VarIntReadsBack(code, s2, TWO_32);
    MaskReadsBack(MaskPart(c.vout), s3);
    AllottedOuts(c.vout);
    NullsWriteNothing(curve, c.vout, |Seen(c.vout)|);
    OutsReadBack(curve, Grow(Trim(c.vout), |Seen(c.vout)|), s4);
    VarIntReadsBack(c.height, rest, TWO_32);
  }

  /** Coins in the form the node keeps them in round trip exactly when their version is not negative. */
  lemma CoinsRoundTrip(curve: ScriptCodec.Curve, c: Coins, rest: Stream)
    requires ScriptCodec.Lawful(curve) && StorableCoins(c) && c.WellFormed()
    ensures ReadCoins(curve, WriteCoins(curve, c) + rest) == Got(c, rest) <==> c.version >= 0
  {
    hide ScriptCodec.Lawful, ReadCoins, WriteCoins;
    CoinsReadBack(curve, c, rest);
  }

  // ----- undo records -----

  function WriteUndo(curve: ScriptCodec.Curve, undo: TxInUndo): Stream
    requires undo.txout.value >= 0
  {
    VarInt(Wrap(undo.height * 2 + if undo.coinBase then 1 else 0, TWO_32)) +
    ((if undo.height > 0 then VarInt(undo.version) else []) + WriteOut(curve, undo.txout))
  }

  /** The version of a record without height stays what a new record has. */
  function ReadUndo(curve: ScriptCodec.Curve, s: Stream): Read<TxInUndo>
  {
    match ReadVarInt(s, TWO_32)
    case Fail => Fail
    case Got(code, s1) =>
      match if code / 2 > 0 then ReadVarInt(s1, TWO_32) else Got(0, s1)
      case Fail => Fail
      case Got(version, s2) =>
        match ReadOut(curve, s2)
        case Fail => Fail
        case Got(out, s3) => Got(TxInUndo(out, code % 2 == 1, code / 2, Signed(version)), s3)
  }

  /** What reading back a stored undo record gives. */
  lemma UndoReadBack(curve: ScriptCodec.Curve, undo: TxInUndo, rest: Stream)
    requires ScriptCodec.Lawful(curve) && Storable(undo.txout)
    requires undo.height < 0x8000_0000 && -0x8000_0000 <= undo.version < 0x8000_0000
    ensures ReadUndo(curve, WriteUndo(curve, undo) + rest) == Got(StoredUndo(undo), rest)
  {
    hide ScriptCodec.Lawful, ReadVarInt, VarInt, WriteOut, ReadOut, Wrap;
    var code := undo.height * 2 + if undo.coinBase then 1 else 0;
    var out := WriteOut(curve, undo.txout);
    var s2 := out + rest;
    var s1 := (if undo.height > 0 then VarInt(undo.version) else []) + s2;
    assert WriteUndo(curve, undo) + rest == VarInt(code) + s1;
    VarIntReadsBack(code, s1, TWO_32);
    if undo.height > 0 {
      VarIntReadsBack(undo.version, s2, TWO_32);
    } else {
      assert s1 == s2;
    }
    OutReadsBack(curve, undo.txout, rest);
  }

  /** An undo record round trips exactly when its version is not negative, or zero if it has no height. */
  lemma UndoRoundTrip(curve: ScriptCodec.Curve, undo: TxInUndo, rest: Stream)
    requires ScriptCodec.Lawful(curve) && Storable(undo.txout)
    requires undo.height < 0x8000_0000 && -0x8000_0000 <= undo.version < 0x8000_0000
    ensures ReadUndo(curve, WriteUndo(curve, undo) + rest) == Got(undo, rest) <==>
            if undo.height > 0 then undo.version >= 0 else undo.version == 0
  {
    hide ReadUndo, WriteUndo;
    UndoReadBack(curve, undo, rest);
  }
}
