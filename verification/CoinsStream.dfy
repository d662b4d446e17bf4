/**
 CCoins::CalcMaskSize, Serialize and Unserialize as they run, byte by byte, against their specification
 (src/main.h:936-955, 984-1042).
 */
module CoinsStream {
  import opened Arith
  import opened Coins
  import opened Codec
  import opened CoinsCodec
  import ScriptCodec

  /** The availabilities from mask byte b on. */
  function From(vout: seq<TxOut>, b: nat): (r: seq<bool>)
  {
    var part := MaskPart(vout);
    if 8 * b <= |part| then part[8 * b..] else []
  }

  lemma FromNext(vout: seq<TxOut>, b: nat)
    requires 2 + 8 * b < |vout|
    ensures From(vout, b) != [] && After8(From(vout, b)) == From(vout, b + 1)
    ensures |First8(From(vout, b))| == if 2 + 8 * b + 8 < |vout| then 8 else |vout| - 2 - 8 * b
    ensures forall i :: 0 <= i < |First8(From(vout, b))| ==> First8(From(vout, b))[i] == !vout[2 + 8 * b + i].IsNull()
  {
  }

  lemma ClearStep(bits: seq<bool>)
    requires bits != []
    ensures AllClear(bits) <==> AllClear(First8(bits)) && AllClear(After8(bits))
    ensures AllClear(First8(bits)) <==> ByteOf(First8(bits)) == 0
  {
    if AllClear(First8(bits)) && AllClear(After8(bits)) {
      forall i | 0 <= i < |bits| ensures !bits[i] {
        if i < 8 {
          assert !First8(bits)[i];
        } else {
          assert !After8(bits)[i - 8];
        }
      }
    }
    if AllClear(bits) {
      assert forall i :: 0 <= i < |After8(bits)| ==> After8(bits)[i] == bits[i + 8];
    }
  }

  lemma MaskStep(bits: seq<bool>)
    requires bits != []
    ensures !AllClear(bits) ==>
      |MaskBytes(bits)| == 1 + |MaskBytes(After8(bits))| && MaskBytes(bits)[1..] == MaskBytes(After8(bits)) &&
      MaskBytes(bits)[0] == ByteOf(First8(bits))
    ensures NonZero(MaskBytes(bits)) == (if AllClear(First8(bits)) then 0 else 1) + NonZero(MaskBytes(After8(bits)))
  {
    hide ByteOf;
    ClearStep(bits);
    if !AllClear(bits) {
      assert MaskBytes(bits)[1..] == MaskBytes(After8(bits));
    }
  }

  method ByteIsZero(vout: seq<TxOut>, b: nat) returns (zero: bool)
    requires 2 + b * 8 < |vout|
    ensures zero == AllClear(First8(From(vout, b)))
  {
    hide First8, From;
    FromNext(vout, b);
    zero := true;
    var i := 0;
    while i < 8 && 2 + b * 8 + i < |vout|
      invariant 0 <= i <= |First8(From(vout, b))|
      invariant zero <==> forall k :: 0 <= k < i ==> !First8(From(vout, b))[k]
    {
      assert First8(From(vout, b))[i] == !vout[2 + b * 8 + i].IsNull();
      if !vout[2 + b * 8 + i].IsNull() {
        zero := false;
      }
      i := i + 1;
    }
  }

  lemma FromEnd(vout: seq<TxOut>, b: nat)
    requires 2 + b * 8 >= |vout|
    ensures From(vout, b) == []
  {
    assert |MaskPart(vout)| == if |vout| <= 2 then 0 else |vout| - 2;
  }

  /** How many bytes the mask takes, and how many of them are not zero. */
  method CalcMaskSize(vout: seq<TxOut>) returns (bytes: nat, nonZero: nat)
    ensures bytes == |MaskBytes(MaskPart(vout))|
    ensures nonZero == NonZero(MaskBytes(MaskPart(vout)))
  {
    hide MaskBytes, NonZero, From, First8, After8, AllClear, ByteOf;
    bytes, nonZero := 0, 0;
    var b := 0;
    FromStart(vout);
    ClearMask(MaskPart(vout));
    while 2 + b * 8 < |vout|
      invariant bytes <= b
      invariant |MaskBytes(MaskPart(vout))| == if AllClear(From(vout, b)) then bytes else b + |MaskBytes(From(vout, b))|
      invariant NonZero(MaskBytes(MaskPart(vout))) == nonZero + NonZero(MaskBytes(From(vout, b)))
      decreases |vout| - b
    {
      FromNext(vout, b);
      MaskStep(From(vout, b));
      ClearStep(From(vout, b));
      ClearMask(From(vout, b + 1));
      var zero := ByteIsZero(vout, b);
      if !zero {
        bytes := b + 1;
        nonZero := nonZero + 1;
      }
      b := b + 1;
    }
    FromEnd(vout, b);
    ClearMask([]);
  }

  lemma ClearMask(bits: seq<bool>)
    ensures AllClear([])
    ensures AllClear(bits) ==> MaskBytes(bits) == [] && NonZero(MaskBytes(bits)) == 0
  {
  }

  lemma {:induction false} ByteOfSnoc(bits: seq<bool>, bit: bool)
    ensures ByteOf(bits + [bit]) == ByteOf(bits) + if bit then Pow(2, |bits|) else 0
  {
    if bits == [] {
      assert ([] + [bit])[1..] == [];
    } else {
      assert (bits + [bit])[1..] == bits[1..] + [bit];
      ByteOfSnoc(bits[1..], bit);
    }
  }

  /** One byte of the mask; the bit that is or-ed in is still clear. */
  method MaskByte(vout: seq<TxOut>, b: nat) returns (byte: Byte)
    requires 2 + b * 8 < |vout|
    ensures byte == ByteOf(First8(From(vout, b)))
  {
    hide ByteOf, Pow, First8, From;
    FromNext(vout, b);
    ghost var bits := First8(From(vout, b));
    NoBits();
    var sum: nat := 0;
    var i := 0;
    while i < 8 && 2 + b * 8 + i < |vout|
      invariant 0 <= i <= |bits| && sum == ByteOf(bits[..i])
    {
      ByteOfSnoc(bits[..i], bits[i]);
      assert bits[..i + 1] == bits[..i] + [bits[i]];
      if !vout[2 + b * 8 + i].IsNull() {
        sum := sum + Pow(2, i);
      }
      i := i + 1;
    }
    assert bits[..i] == bits;
    ByteFits(From(vout, b));
    byte := sum;
  }

  lemma NoBits()
    ensures ByteOf([]) == 0
  {
  }

  /** CCoins::Serialize. */
  method Serialize(curve: ScriptCodec.Curve, c: Coins) returns (s: Stream)
    requires !c.IsPruned() && forall i :: 0 <= i < |c.vout| ==> c.vout[i].IsNull() || c.vout[i].value >= 0
    ensures s == WriteCoins(curve, c)
  {
    hide MaskBytes, NonZero, VarInt, Wrap, WriteOut;
    var vout := c.vout;
    var bytes, nonZero := CalcMaskSize(vout);
    var first := |vout| > 0 && !vout[0].IsNull();
    var second := |vout| > 1 && !vout[1].IsNull();
    SomeOutput(vout);
    assert first || second || nonZero > 0;
    var code := 8 * (nonZero - if first || second then 0 else 1)
    + (if c.coinBase then 1 else 0) + (if first then 2 else 0) + if second then 4 else 0;
    s := VarInt(c.version) + VarInt(Wrap(code, TWO_32));
    var mask := SerializeMask(vout, bytes);
    var outs := SerializeOuts(curve, vout);
    s := s + mask + outs + VarInt(c.height);
    assert s == VarInt(c.version) + (VarInt(Wrap(HeaderCode(c), TWO_32)) + (mask + (outs + VarInt(c.height))));
  }

  method SerializeMask(vout: seq<TxOut>, bytes: nat) returns (mask: Stream)
    requires bytes == |MaskBytes(MaskPart(vout))|
    ensures mask == MaskBytes(MaskPart(vout))
  {
    hide MaskBytes, From, After8, First8, ByteOf;
    mask := [];
    FromStart(vout);
    for b := 0 to bytes
      invariant MaskBytes(MaskPart(vout)) == mask + MaskBytes(From(vout, b)) && |mask| == b
    {
      MoreToCome(vout, b);
      FromNext(vout, b);
      MaskStep(From(vout, b));
      var byte := MaskByte(vout, b);
      assert MaskBytes(From(vout, b)) == [byte] + MaskBytes(From(vout, b + 1));
      mask := mask + [byte];
    }
  }

  lemma FromStart(vout: seq<TxOut>)
    ensures From(vout, 0) == MaskPart(vout)
  {
  }

  lemma MoreToCome(vout: seq<TxOut>, b: nat)
    requires MaskBytes(From(vout, b)) != []
    ensures 2 + b * 8 < |vout| && !AllClear(From(vout, b))
  {
  }

  method SerializeOuts(curve: ScriptCodec.Curve, vout: seq<TxOut>) returns (s: Stream)
    requires forall i :: 0 <= i < |vout| ==> vout[i].IsNull() || vout[i].value >= 0
    ensures s == WriteOuts(curve, vout)
  {
    hide WriteOut;
    s := [];
    for i := 0 to |vout|
      invariant WriteOuts(curve, vout) == s + WriteOuts(curve, vout[i..])
    {
      assert vout[i..][1..] == vout[i + 1..];
      if !vout[i].IsNull() {
        s := s + WriteOut(curve, vout[i]);
      }
    }
  }

  /** The loop of CCoins::Unserialize that reads the mask. */
  method UnserializeMask(s: Stream, nonZero: nat) returns (r: Read<seq<bool>>)
    ensures r == ReadMask(s, nonZero)
  {
    hide BitsOf;
    var left, todo, bits: seq<bool> := s, nonZero, [];
    PrependTwice([], [], ReadMask(s, nonZero));
    while todo > 0
      invariant ReadMask(s, nonZero) == Prepend(bits, ReadMask(left, todo))
      decreases |left|
    {
      if left == [] {
        return Fail;
      }
      var byte := left[0];
      PrependTwice(bits, BitsOf(byte, 8), ReadMask(left[1..], if byte != 0 then todo - 1 else todo));
      bits := bits + BitsOf(byte, 8);
      if byte != 0 {
        todo := todo - 1;
      }
      left := left[1..];
    }
    assert bits + [] == bits;
    r := Got(bits, left);
  }

  /** The loop that reads the outputs into a vector of null ones. */
  method UnserializeOuts(curve: ScriptCodec.Curve, s: Stream, available: seq<bool>) returns (r: Read<seq<TxOut>>)
    ensures r == ReadOuts(curve, s, available)
  {
    hide ReadOut;
    var left, vout: seq<TxOut> := s, [];
    assert available[0..] == available;
    PrependTwice([], [], ReadOuts(curve, s, available));
    for i := 0 to |available|
      invariant ReadOuts(curve, s, available) == Prepend(vout, ReadOuts(curve, left, available[i..]))
    {
      assert available[i..][1..] == available[i + 1..];
      if available[i] {
        var one := ReadOut(curve, left);
        if one.Fail? {
          return Fail;
        }
        PrependTwice(vout, [one.value], ReadOuts(curve, one.rest, available[i + 1..]));
        vout := vout + [one.value];
        left := one.rest;
      } else {
        PrependTwice(vout, [NULL_OUT], ReadOuts(curve, left, available[i + 1..]));
        vout := vout + [NULL_OUT];
      }
    }
    assert vout + [] == vout;
    r := Got(vout, left);
  }

  /** CCoins::Unserialize; None of it is kept when the stream ends early. */
  method Unserialize(curve: ScriptCodec.Curve, s: Stream) returns (r: Read<Coins>)
    ensures r == ReadCoins(curve, s)
  {
    hide ReadVarInt, ReadMask, ReadOuts;
    var version := ReadVarInt(s, TWO_32);
    if version.Fail? { return Fail; }
    var header := ReadVarInt(version.rest, TWO_32);
    if header.Fail? { return Fail; }
    var code := header.value;
    var nonZero := code / 8 + if code / 2 % 4 != 0 then 0 else 1;
    var mask := UnserializeMask(header.rest, nonZero);
    if mask.Fail? { return Fail; }
    var vout := UnserializeOuts(curve, mask.rest, [code / 2 % 2 == 1, code / 4 % 2 == 1] + mask.value);
    if vout.Fail? { return Fail; }
    var height := ReadVarInt(vout.rest, TWO_32);
    if height.Fail? { return Fail; }
    var c := Cleanup(Coins(code % 2 == 1, vout.value, height.value, Signed(version.value)));
    r := Got(c, height.rest);
  }
}
