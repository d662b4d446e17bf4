/**
 The partial Merkle tree as it is built, sent and read (src/main.h:1200-1257, src/main.cpp:2703-2798).
 */
module PartialMerkleTree {
  import opened Merkle
  import opened PartialMerkle

  // ----- flag bits as bytes -----

  /** Bit k of a byte, the least significant being bit 0. */
  function Mask(k: nat): bv8
    requires k < 8
  {
    1 << k
  }

  predicate BitAt(bytes: seq<bv8>, p: nat)
    requires p < 8 * |bytes|
  {
    bytes[p / 8] & Mask(p % 8) != 0
  }

  /** Bits as they come out of bytes. */
  function Unpacked(bytes: seq<bv8>): (bits: seq<bool>)
    ensures |bits| == 8 * |bytes|
  {
    seq(8 * |bytes|, p requires 0 <= p < 8 * |bytes| => BitAt(bytes, p))
  }

  lemma MasksAreDisjoint(b: bv8, j: nat, k: nat)
    requires j < 8 && k < 8 && j != k
    ensures (b | Mask(k)) & Mask(j) == b & Mask(j)
  {
    assert Mask(j) & Mask(k) == 0 by {
      assert Mask(0) == 1 && Mask(1) == 2 && Mask(2) == 4 && Mask(3) == 8;
      assert Mask(4) == 16 && Mask(5) == 32 && Mask(6) == 64 && Mask(7) == 128;
    }
    OrLeaves(b, Mask(k), Mask(j));
  }

  lemma OrLeaves(b: bv8, m: bv8, o: bv8)
    requires o & m == 0
    ensures (b | m) & o == b & o
  {
  }

  lemma OrSets(b: bv8, k: nat)
    requires k < 8
    ensures (b | Mask(k)) & Mask(k) != 0
    ensures b | 0 == b
  {
    assert Mask(0) == 1 && Mask(1) == 2 && Mask(2) == 4 && Mask(3) == 8;
    assert Mask(4) == 16 && Mask(5) == 32 && Mask(6) == 64 && Mask(7) == 128;
    OrHolds(b, Mask(k));
  }

  lemma OrHolds(b: bv8, m: bv8)
    requires m != 0
    ensures (b | m) & m != 0
    ensures b | 0 == b
  {
  }

  /** Setting one bit that is still clear. */
  lemma SetBit(before: seq<bv8>, after: seq<bv8>, p: nat, bit: bool)
    requires p < 8 * |before| && !BitAt(before, p)
    requires after == before[p / 8 := before[p / 8] | if bit then Mask(p % 8) else 0]
    ensures BitAt(after, p) == bit
    ensures forall q :: 0 <= q < 8 * |before| && q != p ==> BitAt(after, q) == BitAt(before, q)
  {
    hide Mask;
    OrSets(before[p / 8], p % 8);
    forall q | 0 <= q < 8 * |before| && q != p ensures BitAt(after, q) == BitAt(before, q) {
      if q / 8 == p / 8 {
        MasksAreDisjoint(before[p / 8], q % 8, p % 8);
      }
    }
  }

  lemma ClearBit(bytes: seq<bv8>, p: nat)
    requires p < 8 * |bytes| && bytes[p / 8] == 0
    ensures !BitAt(bytes, p)
  {
    ZeroAnd(Mask(p % 8));
  }

  lemma ZeroAnd(m: bv8)
    ensures 0 & m == 0
  {
  }

  /** Bits to bytes, the last one padded with zeroes. */
  method Pack(bits: seq<bool>) returns (bytes: seq<bv8>)
    ensures |bytes| == (|bits| + 7) / 8
    ensures At(Unpacked(bytes), 0, bits)
    ensures forall p :: |bits| <= p < 8 * |bytes| ==> !Unpacked(bytes)[p]
  {
    hide BitAt;
    var buffer := new bv8[(|bits| + 7) / 8](_ => 0);
    var size := buffer.Length;
    forall q | 0 <= q < 8 * size ensures !BitAt(buffer[..], q) {
      ClearBit(buffer[..], q);
    }
    for p := 0 to |bits|
      invariant forall q :: 0 <= q < p ==> BitAt(buffer[..], q) == bits[q]
      invariant forall q :: p <= q < 8 * size ==> !BitAt(buffer[..], q)
    {
      ghost var before := buffer[..];
      buffer[p / 8] := buffer[p / 8] | if bits[p] then Mask(p % 8) else 0;
      SetBit(before, buffer[..], p, bits[p]);
    }
    bytes := buffer[..];
    assert Unpacked(bytes)[0..|bits|] == bits;
  }

  /** Bytes to bits. */
  method Unpack(bytes: seq<bv8>) returns (bits: seq<bool>)
    ensures bits == Unpacked(bytes)
  {
    bits := [];
    for p := 0 to 8 * |bytes|
      invariant |bits| == p && forall q :: 0 <= q < p ==> bits[q] == BitAt(bytes, q)
    {
      bits := bits + [bytes[p / 8] & Mask(p % 8) != 0];
    }
  }

  /** What is sent: the number of transactions, the hashes and the flag bytes. */
  datatype Message = Message(transactions: nat, hashes: seq<Hash>, flags: seq<bv8>)

  class PartialTree {
    const h: PairHash
    var transactions: nat
    var bits: seq<bool>
    var hashes: seq<Hash>
    var bad: bool

    /** The encoding of the transactions that the mask selects. */
    constructor (h: PairHash, txids: seq<Hash>, mask: seq<bool>)
      requires |txids| == |mask| > 0
      ensures this.h == h && transactions == |txids| && !bad
      ensures bits == AllBits(mask) && hashes == AllHashes(h, txids, mask)
    {
      this.h := h;
      transactions, bad := |txids|, false;
      bits, hashes := [], [];
      new;
      var height := TreeHeight();
      TraverseAndBuild(height, 0, txids, mask);
      assert [] + AllBits(mask) == AllBits(mask) && [] + AllHashes(h, txids, mask) == AllHashes(h, txids, mask);
    }

    /** An empty tree that has been read from a message, whatever it holds. */
    constructor Read(h: PairHash, message: Message)
      ensures this.h == h && transactions == message.transactions && !bad
      ensures bits == Unpacked(message.flags) && hashes == message.hashes
    {
      this.h := h;
      transactions, hashes := message.transactions, message.hashes;
      bits, bad := [], false;
      new;
      var unpacked := Unpack(message.flags);
      bits := unpacked;
    }

    method Write() returns (message: Message)
      ensures message.transactions == transactions && message.hashes == hashes
      ensures |message.flags| == (|bits| + 7) / 8 && At(Unpacked(message.flags), 0, bits)
    {
      var flags := Pack(bits);
      message := Message(transactions, hashes, flags);
    }

    method TreeHeight() returns (height: nat)
      ensures height == Height(transactions)
    {
      height := 0;
      while Width(transactions, height) > 1
        invariant forall k :: 0 <= k < height ==> Width(transactions, k) > 1
        invariant Height(transactions, height) == Height(transactions)
        decreases Width(transactions, height)
      {
        height := height + 1;
      }
    }

    /** The flag of a node, found by a loop over the leaves below it. */
    method CoversMatch(mask: seq<bool>, height: nat, pos: nat) returns (parent: bool)
      requires transactions == |mask| && pos < Width(|mask|, height)
      ensures parent == ParentOfMatch(mask, height, pos)
    {
      hide ParentOfMatch, First, Last;
      ParentOfMatchMeans(mask, height, pos);
      LastIs(transactions, height, pos);
      parent := false;
      var p := First(height, pos);
      while p < First(height, pos + 1) && p < transactions
        invariant First(height, pos) <= p <= Last(transactions, height, pos)
        invariant parent == AnyMatch(mask, First(height, pos), p)
      {
        parent := parent || mask[p];
        p := p + 1;
      }
    }

    method TraverseAndBuild(height: nat, pos: nat, txids: seq<Hash>, mask: seq<bool>)
      requires transactions == |txids| == |mask| && pos < Width(|mask|, height)
      modifies this`bits, this`hashes
      ensures bits == old(bits) + Bits(mask, height, pos)
      ensures hashes == old(hashes) + Hashes(h, txids, mask, height, pos)
      decreases height
    {
      hide CalcHash, ParentOfMatch, Bits, Hashes;
      BitsSplit(mask, height, pos);
      HashesSplit(h, txids, mask, height, pos);
      var parent := CoversMatch(mask, height, pos);
      bits := bits + [parent];
      if height == 0 || !parent {
        hashes := hashes + [CalcHash(h, txids, height, pos)];
      } else {
        TraverseAndBuild(height - 1, 2 * pos, txids, mask);
        if 2 * pos + 1 < Width(transactions, height - 1) {
          TraverseAndBuild(height - 1, 2 * pos + 1, txids, mask);
        }
      }
    }

    method TraverseAndExtract(height: nat, pos: nat, bitsUsed: nat, hashesUsed: nat, matches: seq<Hash>)
      returns (hash: Hash, bitsUsed': nat, hashesUsed': nat, matches': seq<Hash>)
      modifies this`bad
      ensures Node(Cursor(bitsUsed', hashesUsed', matches', bad), hash) ==
              Extract(h, transactions, bits, hashes, height, pos, Cursor(bitsUsed, hashesUsed, matches, old(bad)))
      decreases height
    {
      bitsUsed', hashesUsed', matches' := bitsUsed, hashesUsed, matches;
      if bitsUsed' >= |bits| {
        bad := true;
        return 0, bitsUsed', hashesUsed', matches';
      }
      var parent := bits[bitsUsed'];
      bitsUsed' := bitsUsed' + 1;
      if height == 0 || !parent {
        if hashesUsed' >= |hashes| {
          bad := true;
          return 0, bitsUsed', hashesUsed', matches';
        }
        hash := hashes[hashesUsed'];
        hashesUsed' := hashesUsed' + 1;
        if height == 0 && parent {
          matches' := matches' + [hash];
        }
      } else {
        var left, right;
        left, bitsUsed', hashesUsed',
        matches' := TraverseAndExtract(height - 1, 2 * pos, bitsUsed', hashesUsed', matches');
        if 2 * pos + 1 < Width(transactions, height - 1) {
          right, bitsUsed', hashesUsed', matches' :=
            TraverseAndExtract(height - 1, 2 * pos + 1, bitsUsed', hashesUsed', matches');
        } else {
          right := left;
        }
        hash := h(left, right);
      }
    }

    /** The root and the matched transactions, or 0 on any failure. */
    method ExtractMatches() returns (root: Hash, matches: seq<Hash>)
      modifies this`bad
      ensures Extraction(root, matches, bad) == ExtractAll(h, transactions, bits, hashes, old(bad))
    {
      hide Extract;
      matches := [];
      if transactions == 0 || transactions > MAX_BLOCK_SIZE / 60 {
        return 0, matches;
      }
      if |hashes| > transactions || |bits| < |hashes| {
        return 0, matches;
      }
      var height := TreeHeight();
      var bitsUsed, hashesUsed;
      root, bitsUsed, hashesUsed, matches := TraverseAndExtract(height, 0, 0, 0, matches);
      if bad {
        return 0, matches;
      }
      if (bitsUsed + 7) / 8 != (|bits| + 7) / 8 {
        return 0, matches;
      }
      if hashesUsed != |hashes| {
        return 0, matches;
      }
    }
  }

  /** Build, send, receive and extract: the root and exactly the selected transactions, in order. */
  method Relay(h: PairHash, txids: seq<Hash>, mask: seq<bool>) returns (root: Hash, matches: seq<Hash>)
    requires 1 <= |txids| == |mask| <= MAX_BLOCK_SIZE / 60
    ensures root == Root(h, txids) && matches == Selected(txids, mask, 0, |mask|)
  {
    hide AllBits, AllHashes, Root, Selected, ExtractAll;
    var built := new PartialTree(h, txids, mask);
    var message := built.Write();
    var received := new PartialTree.Read(h, message);
    root, matches := received.ExtractMatches();
    RoundTrip(h, txids, mask, received.bits);
  }
}
