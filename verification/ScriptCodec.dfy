/**
 Compressed scripts (src/script.h:604-664, src/script.cpp:1948-2070): the four usual output scripts are stored as one
 type byte and the key or hash they name, every other script as its length plus six and its bytes.

 Whether 65 bytes are a point of the curve, and which point a compressed key names, are parameters.
 */
module ScriptCodec {
  import opened Coins
  import opened Codec

  datatype Curve = Curve(valid: Stream -> bool, expand: Stream -> Option<Stream>)

  /** Expanding the compressed form of a valid key gives the key back, and always 65 bytes. */
  ghost predicate Lawful(curve: Curve)
  {
    && (forall key :: |key| == 65 && key[0] == 4 && curve.valid(key) ==>
        curve.expand([2 + key[64] % 2] + key[1..33]) == Some(key))
    && (forall key :: curve.expand(key).Some? ==> |curve.expand(key).value| == 65)
  }

  const OP_DUP: Byte := 0x76
  const OP_EQUAL: Byte := 0x87
  const OP_EQUALVERIFY: Byte := 0x88
  const OP_HASH160: Byte := 0xa9
  const OP_CHECKSIG: Byte := 0xac
  const SPECIAL_SCRIPTS: nat := 6

  function ToKeyId(hash: Stream): Script { [OP_DUP, OP_HASH160, 20] + hash + [OP_EQUALVERIFY, OP_CHECKSIG] }

  function ToScriptId(hash: Stream): Script { [OP_HASH160, 20] + hash + [OP_EQUAL] }

  function ToShortKey(key: Stream): Script { [33] + key + [OP_CHECKSIG] }

  function ToLongKey(key: Stream): Script { [65] + key + [OP_CHECKSIG] }

  predicate IsToKeyId(s: Script)
  {
    |s| == 25 && s[0] == OP_DUP && s[1] == OP_HASH160 && s[2] == 20 && s[23] == OP_EQUALVERIFY && s[24] == OP_CHECKSIG
  }

  predicate IsToScriptId(s: Script) { |s| == 23 && s[0] == OP_HASH160 && s[1] == 20 && s[22] == OP_EQUAL }

  predicate IsToShortKey(s: Script) { |s| == 35 && s[0] == 33 && s[34] == OP_CHECKSIG && (s[1] == 2 || s[1] == 3) }

  predicate IsToLongKey(curve: Curve, s: Script)
  {
    |s| == 67 && s[0] == 65 && s[66] == OP_CHECKSIG && s[1] == 4 && curve.valid(s[1..66])
  }

  function Compress(curve: Curve, s: Script): Option<Stream>
  {
    if IsToKeyId(s) then Some([0] + s[3..23])
    else if IsToScriptId(s) then Some([1] + s[2..22])
    else if IsToShortKey(s) then Some([s[1]] + s[2..34])
    else if IsToLongKey(curve, s) then Some([4 + s[65] % 2] + s[2..34])
    else None
  }

  function SpecialSize(kind: nat): nat { if kind <= 1 then 20 else 32 }

  /** The script of a special kind; a key that cannot be expanded leaves the script empty. */
  function Decompress(curve: Curve, kind: nat, data: Stream): Script
    requires kind < SPECIAL_SCRIPTS
  {
    if kind == 0 then ToKeyId(data)
    else if kind == 1 then ToScriptId(data)
    else if kind <= 3 then ToShortKey([kind] + data)
    else match curve.expand([kind - 2] + data) case None => [] case Some(key) => ToLongKey(key)
  }

  function Write(curve: Curve, s: Script): Stream
  {
    match Compress(curve, s)
    case Some(bytes) => bytes
    case None => VarInt(|s| + SPECIAL_SCRIPTS) + s
  }

  function TakeBytes(s: Stream, n: nat): Read<Stream>
  {
    if |s| < n then Fail else Got(s[..n], s[n..])
  }

  function ReadScript(curve: Curve, s: Stream): Read<Script>
  {
    match ReadVarInt(s, TWO_32)
    case Fail => Fail
    case Got(size, rest) =>
      if size < SPECIAL_SCRIPTS then
        match TakeBytes(rest, SpecialSize(size))
        case Fail => Fail
        case Got(data, after) => Got(Decompress(curve, size, data), after)
      else TakeBytes(rest, size - SPECIAL_SCRIPTS)
  }

  /** A compressed script starts with its kind and decompresses to itself. */
  lemma DecompressUndoesCompress(curve: Curve, s: Script)
    requires Lawful(curve) && Compress(curve, s).Some?
    ensures var bytes := Compress(curve, s).value;
            |bytes| > 0 && bytes[0] < SPECIAL_SCRIPTS && |bytes| == 1 + SpecialSize(bytes[0]) &&
            Decompress(curve, bytes[0], bytes[1..]) == s
  {
    var bytes := Compress(curve, s).value;
    if IsToKeyId(s) {
      assert s == ToKeyId(s[3..23]);
      assert bytes[1..] == s[3..23];
    } else if IsToScriptId(s) {
      assert s == ToScriptId(s[2..22]);
      assert bytes[1..] == s[2..22];
    } else if IsToShortKey(s) {
      assert [s[1]] + s[2..34] == s[1..34];
      assert s == ToShortKey(s[1..34]);
      assert bytes[1..] == s[2..34];
    } else {
      LongKeyExpands(curve, s, bytes);
    }
  }

  lemma LongKeyExpands(curve: Curve, s: Script, bytes: Stream)
    requires Lawful(curve) && IsToLongKey(curve, s) && bytes == [4 + s[65] % 2] + s[2..34]
    ensures curve.expand([bytes[0] - 2] + bytes[1..]) == Some(s[1..66]) && ToLongKey(s[1..66]) == s
  {
    var key := s[1..66];
    assert [2 + key[64] % 2] + key[1..33] == [bytes[0] - 2] + bytes[1..];
    assert s == ToLongKey(key);
  }

  lemma ScriptReadsBack(curve: Curve, s: Script, rest: Stream)
    requires Lawful(curve) && |s| + SPECIAL_SCRIPTS < TWO_32
    ensures ReadScript(curve, Write(curve, s) + rest) == Got(s, rest)
  {
    hide Lawful, Decompress, Compress, ReadDigits, Digits;
    match Compress(curve, s)
    case Some(bytes) =>
      DecompressUndoesCompress(curve, s);
      ReadKind(bytes, rest);
      assert (bytes[1..] + rest)[..|bytes| - 1] == bytes[1..];
      assert (bytes[1..] + rest)[|bytes| - 1..] == rest;
    case None =>
      assert Write(curve, s) + rest == VarInt(|s| + SPECIAL_SCRIPTS) + (s + rest);
      VarIntReadsBack(|s| + SPECIAL_SCRIPTS, s + rest, TWO_32);
      assert (s + rest)[..|s|] == s && (s + rest)[|s|..] == rest;
  }

  lemma ReadKind(bytes: Stream, rest: Stream)
    requires |bytes| > 0 && bytes[0] < 128
    ensures ReadVarInt(bytes + rest, TWO_32) == Got(bytes[0], bytes[1..] + rest)
  {
    assert bytes + rest == VarInt(bytes[0]) + (bytes[1..] + rest);
    VarIntReadsBack(bytes[0], bytes[1..] + rest, TWO_32);
  }
}
