/**
 Partial Merkle trees: a depth-first encoding of the transactions of a block that match a filter, and its decoder
 (src/main.h:1163-1257, src/main.cpp:2703-2798; the sections "Constructing a partial merkle tree object" and
 "Parsing a partial merkle tree object" of BIP 37).
 */
module PartialMerkle {
  import opened Arith
  import opened Merkle

  // ----- what is encoded -----

  /** Some matched transaction lies below the node. */
  predicate ParentOfMatch(mask: seq<bool>, height: nat, pos: nat)
    requires pos < Width(|mask|, height)
  {
    if height == 0 then mask[pos]
    else
      ParentOfMatch(mask, height - 1, 2 * pos) ||
      (2 * pos + 1 < Width(|mask|, height - 1) && ParentOfMatch(mask, height - 1, 2 * pos + 1))
  }

  /** The flag bits below a node, in depth-first order. */
  function Bits(mask: seq<bool>, height: nat, pos: nat): (r: seq<bool>)
    requires pos < Width(|mask|, height)
    ensures |r| >= 1
  {
    var flag := ParentOfMatch(mask, height, pos);
    if height == 0 || !flag then [flag]
    else
      [flag] + Bits(mask, height - 1, 2 * pos) +
      if 2 * pos + 1 < Width(|mask|, height - 1) then Bits(mask, height - 1, 2 * pos + 1) else []
  }

  /** The hashes below a node, in depth-first order. */
  function Hashes(h: PairHash, txids: seq<Hash>, mask: seq<bool>, height: nat, pos: nat): (r: seq<Hash>)
    requires |txids| == |mask| && pos < Width(|mask|, height)
  {
    if height == 0 || !ParentOfMatch(mask, height, pos) then [CalcHash(h, txids, height, pos)]
    else
      Hashes(h, txids, mask, height - 1, 2 * pos) +
      if 2 * pos + 1 < Width(|mask|, height - 1) then Hashes(h, txids, mask, height - 1, 2 * pos + 1) else []
  }

  /** The matched transactions among positions lo to hi, in order. */
  function Selected(txids: seq<Hash>, mask: seq<bool>, lo: nat, hi: nat): (r: seq<Hash>)
    requires |txids| == |mask| && lo <= hi <= |mask|
  {
    if lo == hi then [] else Selected(txids, mask, lo, hi - 1) + if mask[hi - 1] then [txids[hi - 1]] else []
  }

  // ----- the leaves below a node -----

  function First(height: nat, pos: nat): nat
  {
    Pow(2, height) * pos
  }

  /** One past the last leaf below a node. */
  function Last(n: nat, height: nat, pos: nat): nat
  {
    if Pow(2, height) * (pos + 1) < n then Pow(2, height) * (pos + 1) else n
  }

  lemma FirstOfChildren(height: nat, pos: nat)
    requires height > 0
    ensures First(height - 1, 2 * pos) == First(height, pos)
    ensures First(height - 1, 2 * pos + 2) == First(height, pos + 1)
  {
    var p := Pow(2, height - 1);
    assert Pow(2, height) == 2 * p;
    assert p * (2 * pos) == 2 * p * pos;
    assert p * (2 * pos + 2) == 2 * p * (pos + 1);
  }

  /** A node exists exactly when its first leaf does. */
  lemma {:induction false} FirstExists(n: nat, height: nat, pos: nat)
    ensures pos < Width(n, height) <==> First(height, pos) < n
  {
    if height > 0 {
      FirstOfChildren(height, pos);
      FirstExists(n, height - 1, 2 * pos);
    }
  }

  /** The leaves below a node are those below its left child, followed by those below its right child if it has one. */
  lemma LeavesSplit(n: nat, height: nat, pos: nat)
    requires height > 0 && pos < Width(n, height)
    ensures First(height - 1, 2 * pos) == First(height, pos) < Last(n, height, pos)
    ensures First(height, pos) < Last(n, height - 1, 2 * pos) <= Last(n, height, pos) <= n
    ensures if 2 * pos + 1 < Width(n, height - 1)
            then Last(n, height - 1, 2 * pos) == First(height - 1, 2 * pos + 1) < Last(n, height - 1, 2 * pos + 1) ==
              Last(n, height, pos)
            else Last(n, height - 1, 2 * pos) == Last(n, height, pos)
  {
    FirstOfChildren(height, pos);
    FirstExists(n, height, pos);
    FirstExists(n, height - 1, 2 * pos + 1);
    FirstGrows(height - 1, 2 * pos);
    FirstGrows(height - 1, 2 * pos + 1);
  }

  lemma FirstGrows(height: nat, pos: nat)
    ensures First(height, pos) < First(height, pos + 1)
  {
    assert Pow(2, height) * (pos + 1) == Pow(2, height) * pos + Pow(2, height);
  }

  /** The node covers a match exactly when one of the leaves below it is matched. */
  lemma {:induction false} ParentOfMatchMeans(mask: seq<bool>, height: nat, pos: nat)
    requires pos < Width(|mask|, height)
    ensures First(height, pos) < Last(|mask|, height, pos)
    ensures ParentOfMatch(mask, height, pos) <==> AnyMatch(mask, First(height, pos), Last(|mask|, height, pos))
  {
    hide First, Last, AnyMatch, Width;
    if height > 0 {
      var l := 2 * pos;
      Halves(|mask|, height, pos);
      LeavesSplit(|mask|, height, pos);
      ParentOfMatchMeans(mask, height - 1, l);
      if l + 1 < Width(|mask|, height - 1) {
        ParentOfMatchMeans(mask, height - 1, l + 1);
        EitherMatch(mask, First(height, pos), Last(|mask|, height - 1, l), Last(|mask|, height, pos));
      }
    } else {
      Leaf(mask, pos);
    }
  }

  predicate AnyMatch(mask: seq<bool>, lo: nat, hi: nat)
    requires hi <= |mask|
  {
    exists p :: lo <= p < hi && mask[p]
  }

  lemma EitherMatch(mask: seq<bool>, lo: nat, mid: nat, hi: nat)
    requires lo <= mid <= hi <= |mask|
    ensures AnyMatch(mask, lo, hi) <==> AnyMatch(mask, lo, mid) || AnyMatch(mask, mid, hi)
  {
  }

  lemma Leaf(mask: seq<bool>, pos: nat)
    requires pos < Width(|mask|, 0)
    ensures First(0, pos) == pos && Last(|mask|, 0, pos) == pos + 1
    ensures mask[pos] <==> AnyMatch(mask, pos, pos + 1)
  {
  }

  lemma {:induction false} SelectedSplit(txids: seq<Hash>, mask: seq<bool>, lo: nat, mid: nat, hi: nat)
    requires |txids| == |mask| && lo <= mid <= hi <= |mask|
    ensures Selected(txids, mask, lo, hi) == Selected(txids, mask, lo, mid) + Selected(txids, mask, mid, hi)
  {
    if mid < hi {
      SelectedSplit(txids, mask, lo, mid, hi - 1);
    }
  }

  lemma {:induction false} NothingSelected(txids: seq<Hash>, mask: seq<bool>, lo: nat, hi: nat)
    requires |txids| == |mask| && lo <= hi <= |mask| && !AnyMatch(mask, lo, hi)
    ensures Selected(txids, mask, lo, hi) == []
  {
    if lo < hi {
      NothingSelected(txids, mask, lo, hi - 1);
    }
  }

  function Below(txids: seq<Hash>, mask: seq<bool>, height: nat, pos: nat): (r: seq<Hash>)
    requires |txids| == |mask| && pos < Width(|mask|, height)
  {
    ParentOfMatchMeans(mask, height, pos);
    Selected(txids, mask, First(height, pos), Last(|mask|, height, pos))
  }

  /** The matches below a node are those below its children, left before right. */
  lemma BelowSplit(txids: seq<Hash>, mask: seq<bool>, height: nat, pos: nat)
    requires |txids| == |mask| && pos < Width(|mask|, height)
    ensures height > 0 ==>
      Below(txids, mask, height, pos) ==
        Below(txids, mask, height - 1, 2 * pos) +
        if 2 * pos + 1 < Width(|mask|, height - 1) then Below(txids, mask, height - 1, 2 * pos + 1) else []
    ensures height == 0 ==> Below(txids, mask, height, pos) == if mask[pos] then [txids[pos]] else []
    ensures !ParentOfMatch(mask, height, pos) <==> Below(txids, mask, height, pos) == []
  {
    ParentOfMatchMeans(mask, height, pos);
    var lo, hi := First(height, pos), Last(|mask|, height, pos);
    if height > 0 {
      LeavesSplit(|mask|, height, pos);
      SelectedSplit(txids, mask, lo, Last(|mask|, height - 1, 2 * pos), hi);
    } else {
      assert Selected(txids, mask, pos, pos) == [];
    }
    if !ParentOfMatch(mask, height, pos) {
      NothingSelected(txids, mask, lo, hi);
    } else {
      SomethingSelected(txids, mask, lo, hi);
    }
  }

  lemma {:induction false} SomethingSelected(txids: seq<Hash>, mask: seq<bool>, lo: nat, hi: nat)
    requires |txids| == |mask| && lo <= hi <= |mask| && AnyMatch(mask, lo, hi)
    ensures Selected(txids, mask, lo, hi) != []
  {
    if !mask[hi - 1] {
      SomethingSelected(txids, mask, lo, hi - 1);
    }
  }

  // ----- decoding -----

  /** How far a decoder has got: bits and hashes consumed, transactions matched, malformed input seen. */
  datatype Cursor = Cursor(bits: nat, hashes: nat, matches: seq<Hash>, bad: bool)

  datatype Node = Node(cursor: Cursor, hash: Hash)

  /** TraverseAndExtract. */
  function Extract(h: PairHash, n: nat, bits: seq<bool>, hashes: seq<Hash>, height: nat, pos: nat, c: Cursor): Node
  {
    if c.bits >= |bits| then Node(c.(bad := true), 0)
    else if height == 0 || !bits[c.bits] then
      if c.hashes >= |hashes| then Node(c.(bits := c.bits + 1, bad := true), 0)
      else
        Node(c.(bits := c.bits + 1, hashes := c.hashes + 1,
                matches := if bits[c.bits] then c.matches + [hashes[c.hashes]] else c.matches), hashes[c.hashes])
    else
      var left := Extract(h, n, bits, hashes, height - 1, 2 * pos, c.(bits := c.bits + 1));
      if 2 * pos + 1 < Width(n, height - 1) then
        var right := Extract(h, n, bits, hashes, height - 1, 2 * pos + 1, left.cursor);
        Node(right.cursor, h(left.hash, right.hash))
      else Node(left.cursor, h(left.hash, left.hash))
  }

  /** A piece of a sequence that starts at a given place. */
  ghost predicate At<T>(whole: seq<T>, start: nat, piece: seq<T>)
  {
    start + |piece| <= |whole| && whole[start..start + |piece|] == piece
  }

  lemma AtSplit<T>(whole: seq<T>, start: nat, a: seq<T>, b: seq<T>)
    requires At(whole, start, a + b)
    ensures At(whole, start, a) && At(whole, start + |a|, b)
  {
    var piece := whole[start..start + |a + b|];
    assert a == piece[..|a|] && b == piece[|a|..];
  }

  function RightBits(mask: seq<bool>, height: nat, pos: nat): seq<bool>
    requires height > 0 && pos < Width(|mask|, height)
  {
    if 2 * pos + 1 < Width(|mask|, height - 1) then Bits(mask, height - 1, 2 * pos + 1) else []
  }

  function RightHashes(h: PairHash, txids: seq<Hash>, mask: seq<bool>, height: nat, pos: nat): seq<Hash>
    requires |txids| == |mask| && height > 0 && pos < Width(|mask|, height)
  {
    if 2 * pos + 1 < Width(|mask|, height - 1) then Hashes(h, txids, mask, height - 1, 2 * pos + 1) else []
  }

  lemma BitsSplit(mask: seq<bool>, height: nat, pos: nat)
    requires pos < Width(|mask|, height)
    ensures Bits(mask, height, pos) ==
      [ParentOfMatch(mask, height, pos)] +
      if height == 0 || !ParentOfMatch(mask, height, pos) then []
        else Bits(mask, height - 1, 2 * pos) + RightBits(mask, height, pos)
  {
    hide ParentOfMatch;
  }

  lemma HashesSplit(h: PairHash, txids: seq<Hash>, mask: seq<bool>, height: nat, pos: nat)
    requires |txids| == |mask| && pos < Width(|mask|, height)
    ensures Hashes(h, txids, mask, height, pos) ==
      if height == 0 || !ParentOfMatch(mask, height, pos) then [CalcHash(h, txids, height, pos)]
      else Hashes(h, txids, mask, height - 1, 2 * pos) + RightHashes(h, txids, mask, height, pos)
  {
    hide ParentOfMatch, CalcHash;
  }

  /** The flag of a node, and where the bits of its children are. */
  lemma BitsParts(mask: seq<bool>, bits: seq<bool>, height: nat, pos: nat, b: nat)
    requires pos < Width(|mask|, height) && At(bits, b, Bits(mask, height, pos))
    ensures b < |bits| && bits[b] == ParentOfMatch(mask, height, pos)
    ensures height == 0 || !bits[b] ==> |Bits(mask, height, pos)| == 1
    ensures height > 0 && bits[b] ==>
      var left, right := Bits(mask, height - 1, 2 * pos), RightBits(mask, height, pos);
      At(bits, b + 1, left) && At(bits, b + 1 + |left|, right) && |Bits(mask, height, pos)| == 1 + |left| + |right|
  {
    hide ParentOfMatch, Bits;
    var own := Bits(mask, height, pos);
    BitsSplit(mask, height, pos);
    assert bits[b] == own[0];
    if height > 0 && bits[b] {
      var left, right := Bits(mask, height - 1, 2 * pos), RightBits(mask, height, pos);
      AtSplit(bits, b, [true], left + right);
      AtSplit(bits, b + 1, left, right);
    }
  }

  /** The hash of a node without matches below it, or where the hashes of its children are. */
  lemma HashesParts(h: PairHash, txids: seq<Hash>, mask: seq<bool>, hashes: seq<Hash>, height: nat, pos: nat, k: nat)
    requires |txids| == |mask| && pos < Width(|mask|, height) && At(hashes, k, Hashes(h, txids, mask, height, pos))
    ensures height == 0 || !ParentOfMatch(mask, height, pos) ==>
      k < |hashes| && hashes[k] == CalcHash(h, txids, height, pos) && |Hashes(h, txids, mask, height, pos)| == 1
    ensures height > 0 && ParentOfMatch(mask, height, pos) ==>
      var left, right := Hashes(h, txids, mask, height - 1, 2 * pos), RightHashes(h, txids, mask, height, pos);
      At(hashes, k, left) && At(hashes, k + |left|, right) && |Hashes(h, txids, mask, height, pos)| == |left| + |right|
  {
    hide CalcHash, ParentOfMatch, Hashes;
    HashesSplit(h, txids, mask, height, pos);
    if height == 0 || !ParentOfMatch(mask, height, pos) {
      assert hashes[k] == Hashes(h, txids, mask, height, pos)[0];
    } else {
      AtSplit(hashes, k, Hashes(h, txids, mask, height - 1, 2 * pos), RightHashes(h, txids, mask, height, pos));
    }
  }

  /** One step of the decoder above the leaves. */
  lemma ExtractSplit(h: PairHash, n: nat, bits: seq<bool>, hashes: seq<Hash>, height: nat, pos: nat, c: Cursor)
    requires height > 0 && c.bits < |bits| && bits[c.bits]
    ensures var left := Extract(h, n, bits, hashes, height - 1, 2 * pos, c.(bits := c.bits + 1));
            Extract(h, n, bits, hashes, height, pos, c) ==
              if 2 * pos + 1 < Width(n, height - 1)
              then var right := Extract(h, n, bits, hashes, height - 1, 2 * pos + 1, left.cursor);
                Node(right.cursor, h(left.hash, right.hash))
              else Node(left.cursor, h(left.hash, left.hash))
  {
  }

  lemma ExtractStop(h: PairHash, n: nat, bits: seq<bool>, hashes: seq<Hash>, height: nat, pos: nat, c: Cursor)
    requires c.bits < |bits| && c.hashes < |hashes| && (height == 0 || !bits[c.bits])
    ensures Extract(h, n, bits, hashes, height, pos, c) ==
      Node(Cursor(c.bits + 1, c.hashes + 1, if bits[c.bits] then c.matches + [hashes[c.hashes]] else c.matches, c.bad),
           hashes[c.hashes])
  {
  }

  /** What reading back the encoding of a node must give. */
  function ReadBack(h: PairHash, txids: seq<Hash>, mask: seq<bool>, height: nat, pos: nat, c: Cursor): Node
    requires |txids| == |mask| && pos < Width(|mask|, height)
  {
    Node(Cursor(c.bits + |Bits(mask, height, pos)|, c.hashes + |Hashes(h, txids, mask, height, pos)|,
                c.matches + Below(txids, mask, height, pos), c.bad),
         CalcHash(h, txids, height, pos))
  }

  /** Decoding reads back exactly what was encoded below a node: its hash, its matches, all its bits and hashes. */
  lemma {:induction false} ExtractReadsBack(
      h: PairHash, txids: seq<Hash>, mask: seq<bool>, bits: seq<bool>, hashes: seq<Hash>, height: nat, pos: nat,
      c: Cursor)
    requires |txids| == |mask| && pos < Width(|mask|, height)
    requires At(bits, c.bits, Bits(mask, height, pos)) && At(hashes, c.hashes, Hashes(h, txids, mask, height, pos))
    ensures Extract(h, |mask|, bits, hashes, height, pos, c) == ReadBack(h, txids, mask, height, pos, c)
  {
    hide Below, Bits, Hashes, At, ParentOfMatch, CalcHash, Extract;
    BelowSplit(txids, mask, height, pos);
    BitsParts(mask, bits, height, pos, c.bits);
    HashesParts(h, txids, mask, hashes, height, pos, c.hashes);
    if height > 0 && bits[c.bits] {
      ParentOf(h, txids, height - 1, pos);
      var c1 := c.(bits := c.bits + 1);
      ExtractReadsBack(h, txids, mask, bits, hashes, height - 1, 2 * pos, c1);
      ExtractSplit(h, |mask|, bits, hashes, height, pos, c);
      if 2 * pos + 1 < Width(|mask|, height - 1) {
        var c2 := Extract(h, |mask|, bits, hashes, height - 1, 2 * pos, c1).cursor;
        ExtractReadsBack(h, txids, mask, bits, hashes, height - 1, 2 * pos + 1, c2);
        assert c.matches + Below(txids, mask, height - 1, 2 * pos) + Below(txids, mask, height - 1, 2 * pos + 1)
            == c.matches + Below(txids, mask, height, pos);
      }
    } else {
      ExtractStop(h, |mask|, bits, hashes, height, pos, c);
      if height == 0 {
        LeafIs(h, txids, pos);
      }
      if !bits[c.bits] {
        assert c.matches + Below(txids, mask, height, pos) == c.matches;
      }
    }
  }

  // ----- sizes -----

  /** One hash per leaf at most, and at most one per level for every match. */
  lemma {:induction false} HashCount(h: PairHash, txids: seq<Hash>, mask: seq<bool>, height: nat, pos: nat)
    requires |txids| == |mask| && pos < Width(|mask|, height)
    ensures |Hashes(h, txids, mask, height, pos)| <= Last(|mask|, height, pos) - First(height, pos)
    ensures |Hashes(h, txids, mask, height, pos)| <= HashBound(|Below(txids, mask, height, pos)|, height)
  {
    hide HashBound, Width, Below, ParentOfMatch, Hashes, First, Last;
    BelowSplit(txids, mask, height, pos);
    HashesAdd(h, txids, mask, height, pos);
    ParentOfMatchMeans(mask, height, pos);
    if height > 0 && ParentOfMatch(mask, height, pos) {
      Halves(|mask|, height, pos);
      LeavesSplit(|mask|, height, pos);
      HashCount(h, txids, mask, height - 1, 2 * pos);
      HashesOfNone(h, txids, mask, height - 1, 2 * pos);
      var l := |Below(txids, mask, height - 1, 2 * pos)|;
      if 2 * pos + 1 < Width(|mask|, height - 1) {
        HashCount(h, txids, mask, height - 1, 2 * pos + 1);
        HashesOfNone(h, txids, mask, height - 1, 2 * pos + 1);
        var r := |Below(txids, mask, height - 1, 2 * pos + 1)|;
        HashSum(|Hashes(h, txids, mask, height - 1, 2 * pos)|, |Hashes(h, txids, mask, height - 1, 2 * pos + 1)|, l,
                r, height);
      } else {
        BoundIsPositive(0, height - 1);
        HashSum(|Hashes(h, txids, mask, height - 1, 2 * pos)|, 0, l, 0, height);
      }
    } else {
      BoundIsPositive(|Below(txids, mask, height, pos)|, height);
    }
  }

  lemma HashesAdd(h: PairHash, txids: seq<Hash>, mask: seq<bool>, height: nat, pos: nat)
    requires |txids| == |mask| && pos < Width(|mask|, height)
    ensures height > 0 ==> 2 * pos < Width(|mask|, height - 1)
    ensures |Hashes(h, txids, mask, height, pos)| ==
            if height == 0 || !ParentOfMatch(mask, height, pos) then 1
            else
              |Hashes(h, txids, mask, height - 1, 2 * pos)| +
              if 2 * pos + 1 < Width(|mask|, height - 1) then |Hashes(h, txids, mask, height - 1, 2 * pos + 1)| else 0
  {
    hide CalcHash, ParentOfMatch;
    if height > 0 {
      Halves(|mask|, height, pos);
    }
  }

  /** One hash for the root, and one for every level above a match. */
  function HashBound(matches: nat, height: nat): int { 1 + matches * height }

  lemma BoundIsPositive(matches: nat, height: nat)
    ensures HashBound(matches, height) >= 1
  {
    MulMono(0, height, matches);
  }

  /** Two children, or one, that stay within the bound, and what is above them. */
  lemma HashSum(a: nat, b: nat, l: nat, r: nat, height: nat)
    requires height > 0 && a <= HashBound(l, height - 1) && b <= HashBound(r, height - 1)
    requires (l == 0 ==> a <= 1) && (r == 0 ==> b <= 1) && (a > 0 && b > 0 ==> l + r > 0)
    ensures a + b <= HashBound(l + r, height)
  {
    var p, q := l * (height - 1), r * (height - 1);
    Distribute(l, r, height);
    assert l * height == p + l && r * height == q + r;
    if l == 0 {
      assert p == 0;
    }
    if r == 0 {
      assert q == 0;
    }
  }

  lemma HashesOfNone(h: PairHash, txids: seq<Hash>, mask: seq<bool>, height: nat, pos: nat)
    requires |txids| == |mask| && pos < Width(|mask|, height)
    ensures Below(txids, mask, height, pos) == [] ==> |Hashes(h, txids, mask, height, pos)| == 1
  {
    BelowSplit(txids, mask, height, pos);
  }

  /** How many nodes with a single child the encoder descends into. */
  function Lone(mask: seq<bool>, height: nat, pos: nat): nat
    requires pos < Width(|mask|, height)
  {
    if height == 0 || !ParentOfMatch(mask, height, pos) then 0
    else
      Lone(mask, height - 1, 2 * pos) +
      if 2 * pos + 1 < Width(|mask|, height - 1) then Lone(mask, height - 1, 2 * pos + 1) else 1
  }

  /** One bit fewer than twice the hashes, and one more for every node with a single child. */
  lemma {:induction false} BitCount(h: PairHash, txids: seq<Hash>, mask: seq<bool>, height: nat, pos: nat)
    requires |txids| == |mask| && pos < Width(|mask|, height)
    ensures |Bits(mask, height, pos)| + 1 == 2 * |Hashes(h, txids, mask, height, pos)| + Lone(mask, height, pos)
  {
    hide ParentOfMatch, CalcHash;
    if height > 0 && ParentOfMatch(mask, height, pos) {
      BitCount(h, txids, mask, height - 1, 2 * pos);
      if 2 * pos + 1 < Width(|mask|, height - 1) {
        BitCount(h, txids, mask, height - 1, 2 * pos + 1);
      }
    }
  }

  /** On no level of odd width below this height is there a match under the last node. */
  ghost predicate OddEndsUnmatched(mask: seq<bool>, height: nat)
    requires mask != []
  {
    forall k :: 0 <= k < height && Width(|mask|, k) % 2 == 1 ==> !AnyMatch(mask, First(k, Width(|mask|, k) - 1), |mask|)
  }

  lemma {:induction false} LastCovers(mask: seq<bool>, k: nat, height: nat)
    requires mask != [] && k <= height && ParentOfMatch(mask, k, Width(|mask|, k) - 1)
    ensures ParentOfMatch(mask, height, Width(|mask|, height) - 1)
  {
    if k < height {
      LastCovers(mask, k, height - 1);
      LastStep(mask, height);
    }
  }

  lemma LastStep(mask: seq<bool>, height: nat)
    requires mask != [] && height > 0 && ParentOfMatch(mask, height - 1, Width(|mask|, height - 1) - 1)
    ensures ParentOfMatch(mask, height, Width(|mask|, height) - 1)
  {
  }

  lemma LastIs(n: nat, height: nat, pos: nat)
    ensures Last(n, height, pos) == if First(height, pos + 1) < n then First(height, pos + 1) else n
  {
  }

  lemma LastNode(mask: seq<bool>, k: nat)
    requires mask != []
    ensures Width(|mask|, k) > 0
    ensures ParentOfMatch(mask, k, Width(|mask|, k) - 1) <==> AnyMatch(mask, First(k, Width(|mask|, k) - 1), |mask|)
  {
    hide ParentOfMatch, First, Last;
    LastIs(|mask|, k, Width(|mask|, k) - 1);
    ParentOfMatchMeans(mask, k, Width(|mask|, k) - 1);
    FirstExists(|mask|, k, Width(|mask|, k));
  }

  lemma {:induction false} LoneMeans(mask: seq<bool>, height: nat, pos: nat)
    requires pos < Width(|mask|, height) && mask != []
    ensures Lone(mask, height, pos) == 0 <==> pos + 1 < Width(|mask|, height) || OddEndsUnmatched(mask, height)
  {
    hide ParentOfMatch, AnyMatch, First, Width, OddEndsUnmatched;
    if height == 0 {
      NoOddEnds(mask, pos);
    } else if !ParentOfMatch(mask, height, pos) {
      if pos + 1 == Width(|mask|, height) {
        UnmatchedEnds(mask, height);
      }
    } else {
      Halves(|mask|, height, pos);
      LoneStep(mask, height, pos);
      LastNode(mask, height - 1);
      OddEndsMore(mask, height);
      LoneMeans(mask, height - 1, 2 * pos);
      if 2 * pos + 1 < Width(|mask|, height - 1) {
        LoneMeans(mask, height - 1, 2 * pos + 1);
      }
    }
  }

  lemma NoOddEnds(mask: seq<bool>, pos: nat)
    requires mask != [] && pos < Width(|mask|, 0)
    ensures OddEndsUnmatched(mask, 0)
  {
  }

  lemma Halves(n: nat, height: nat, pos: nat)
    requires height > 0 && pos < Width(n, height)
    ensures Width(n, height) == (Width(n, height - 1) + 1) / 2 && 2 * pos < Width(n, height - 1)
  {
  }

  lemma OddEndsMore(mask: seq<bool>, height: nat)
    requires mask != [] && height > 0
    ensures Width(|mask|, height - 1) > 0
    ensures OddEndsUnmatched(mask, height) <==>
            && OddEndsUnmatched(mask, height - 1)
            && (Width(|mask|, height - 1) % 2 == 1 ==>
                  !AnyMatch(mask, First(height - 1, Width(|mask|, height - 1) - 1), |mask|))
  {
    hide AnyMatch, First, Width;
    LastNode(mask, height - 1);
  }

  /** If the last node of a level covers no match, no last node below does. */
  lemma UnmatchedEnds(mask: seq<bool>, height: nat)
    requires mask != [] && Width(|mask|, height) > 0 && !ParentOfMatch(mask, height, Width(|mask|, height) - 1)
    ensures OddEndsUnmatched(mask, height)
  {
    hide ParentOfMatch, AnyMatch, First, Width;
    forall k: nat | k < height
      ensures Width(|mask|, k) > 0 && !AnyMatch(mask, First(k, Width(|mask|, k) - 1), |mask|)
    {
      LastNode(mask, k);
      if ParentOfMatch(mask, k, Width(|mask|, k) - 1) {
        LastCovers(mask, k, height);
      }
    }
  }

  lemma LoneStep(mask: seq<bool>, height: nat, pos: nat)
    requires pos < Width(|mask|, height) && height > 0 && ParentOfMatch(mask, height, pos)
    ensures 2 * pos + 1 == Width(|mask|, height - 1) ==> ParentOfMatch(mask, height - 1, 2 * pos)
  {
  }

  /** The height of the tree over n leaves. */
  function Height(n: nat, below: nat := 0): (r: nat)
    requires forall k :: 0 <= k < below ==> Width(n, k) > 1
    ensures IsTop(n, r)
    decreases Width(n, below)
  {
    if Width(n, below) > 1 then Height(n, below + 1) else below
  }

  /**
   The documented limit of 2N - 1 flag bits for N hashes holds exactly for the masks that match nothing below a node
   without a right sibling.
   */
  lemma FlagBitLimit(h: PairHash, txids: seq<Hash>, mask: seq<bool>)
    requires |txids| == |mask| > 0
    ensures |Bits(mask, Height(|mask|), 0)| <= 2 * |Hashes(h, txids, mask, Height(|mask|), 0)| - 1 <==>
            OddEndsUnmatched(mask, Height(|mask|))
  {
    hide Bits, Hashes, Lone, OddEndsUnmatched;
    var top := Height(|mask|);
    assert Width(|mask|, top) == 1;
    BitCount(h, txids, mask, top, 0);
    LoneMeans(mask, top, 0);
  }

  /** Matching only the last of five transactions takes five bits for two hashes. */
  lemma FlagBitLimitExceeded(h: PairHash, txids: seq<Hash>)
    requires |txids| == 5
    ensures var mask := [false, false, false, false, true];
            |Bits(mask, Height(5), 0)| == 5 && |Hashes(h, txids, mask, Height(5), 0)| == 2
  {
    var mask := [false, false, false, false, true];
    assert Width(5, 1) == 3 && Width(5, 2) == 2 && Width(5, 3) == 1;
    assert Height(5) == 3;
    assert !ParentOfMatch(mask, 2, 0);
    assert ParentOfMatch(mask, 1, 2) && ParentOfMatch(mask, 2, 1);
    assert Bits(mask, 1, 2) == [true, true];
    assert |Hashes(h, txids, mask, 1, 2)| == 1;
    assert Bits(mask, 2, 1) == [true] + Bits(mask, 1, 2);
  }

  // ----- soundness -----

  ghost predicate Injective(h: PairHash)
  {
    forall a, b, c, d :: h(a, b) == h(c, d) ==> a == c && b == d
  }

  /** Increasing positions from lo up to hi. */
  ghost predicate Rising(at: seq<nat>, lo: nat, hi: nat)
  {
    (forall i :: 0 <= i < |at| ==> lo <= at[i] < hi) &&
    forall i, j :: 0 <= i < j < |at| ==> at[i] < at[j]
  }

  function Picked(txids: seq<Hash>, at: seq<nat>): (r: seq<Hash>)
    requires forall i :: 0 <= i < |at| ==> at[i] < |txids|
    ensures |r| == |at|
  {
    seq(|at|, i requires 0 <= i < |at| => txids[at[i]])
  }

  lemma {:induction false} BadSticks(
      h: PairHash, n: nat, bits: seq<bool>, hashes: seq<Hash>, height: nat, pos: nat, c: Cursor)
    requires c.bad
    ensures Extract(h, n, bits, hashes, height, pos, c).cursor.bad
  {
    if c.bits < |bits| && height > 0 && bits[c.bits] {
      var c1 := c.(bits := c.bits + 1);
      BadSticks(h, n, bits, hashes, height - 1, 2 * pos, c1);
      BadSticks(h, n, bits, hashes, height - 1, 2 * pos + 1,
                Extract(h, n, bits, hashes, height - 1, 2 * pos, c1).cursor);
    }
  }

  lemma NotBadHasInput(h: PairHash, n: nat, bits: seq<bool>, hashes: seq<Hash>, height: nat, pos: nat, c: Cursor)
    requires !Extract(h, n, bits, hashes, height, pos, c).cursor.bad
    ensures c.bits < |bits| && (height == 0 || !bits[c.bits] ==> c.hashes < |hashes|)
  {
  }

  lemma JoinRising(txids: seq<Hash>, a: seq<nat>, b: seq<nat>, lo: nat, mid: nat, hi: nat, start: seq<Hash>)
    requires Rising(a, lo, mid) && Rising(b, mid, hi) && lo <= mid <= hi <= |txids|
    ensures Rising(a + b, lo, hi)
    ensures start + Picked(txids, a) + Picked(txids, b) == start + Picked(txids, a + b)
  {
  }

  /** Whatever the bits and hashes, a node that decodes to its true hash yields only transactions below it, in order. */
  lemma {:induction false} ExtractIsSound(
      h: PairHash, txids: seq<Hash>, bits: seq<bool>, hashes: seq<Hash>, height: nat, pos: nat, c: Cursor)
        returns (at: seq<nat>)
    requires Injective(h) && pos < Width(|txids|, height)
    requires var r := Extract(h, |txids|, bits, hashes, height, pos, c);
             !r.cursor.bad && r.hash == CalcHash(h, txids, height, pos)
    ensures Rising(at, First(height, pos), Last(|txids|, height, pos))
    ensures Extract(h, |txids|, bits, hashes, height, pos, c).cursor.matches == c.matches + Picked(txids, at)
  {
    hide Injective, Rising, First, Last, Extract, CalcHash;
    var n := |txids|;
    NotBadHasInput(h, n, bits, hashes, height, pos, c);
    if height == 0 || !bits[c.bits] {
      ExtractStop(h, n, bits, hashes, height, pos, c);
      at := if height == 0 && bits[c.bits] then [pos] else [];
      StopIsSound(n, height, pos);
      assert c.matches + [] == c.matches;
      if height == 0 {
        LeafIs(h, txids, pos);
        assert Picked(txids, [pos]) == [txids[pos]];
      }
    } else {
      var c1 := c.(bits := c.bits + 1);
      ExtractSplit(h, n, bits, hashes, height, pos, c);
      ParentOf(h, txids, height - 1, pos);
      LeavesSplit(n, height, pos);
      var left := Extract(h, n, bits, hashes, height - 1, 2 * pos, c1);
      if 2 * pos + 1 < Width(n, height - 1) {
        var right := Extract(h, n, bits, hashes, height - 1, 2 * pos + 1, left.cursor);
        Same(h, left.hash, right.hash, CalcHash(h, txids, height - 1, 2 * pos),
             CalcHash(h, txids, height - 1, 2 * pos + 1));
        if left.cursor.bad {
          BadSticks(h, n, bits, hashes, height - 1, 2 * pos + 1, left.cursor);
        }
        var a := ExtractIsSound(h, txids, bits, hashes, height - 1, 2 * pos, c1);
        var b := ExtractIsSound(h, txids, bits, hashes, height - 1, 2 * pos + 1, left.cursor);
        JoinRising(txids, a, b, First(height, pos), Last(n, height - 1, 2 * pos), Last(n, height, pos), c.matches);
        at := a + b;
      } else {
        Same(h, left.hash, left.hash, CalcHash(h, txids, height - 1, 2 * pos), CalcHash(h, txids, height - 1, 2 * pos));
        at := ExtractIsSound(h, txids, bits, hashes, height - 1, 2 * pos, c1);
      }
    }
  }

  lemma Same(h: PairHash, a: Hash, b: Hash, c: Hash, d: Hash)
    requires Injective(h) && h(a, b) == h(c, d)
    ensures a == c && b == d
  {
  }

  lemma StopIsSound(n: nat, height: nat, pos: nat)
    requires pos < Width(n, height)
    ensures Rising([], First(height, pos), Last(n, height, pos))
    ensures height == 0 ==> Rising([pos], First(height, pos), Last(n, height, pos))
  {
  }

  // ----- the whole tree -----

  const MAX_BLOCK_SIZE: nat := 1000000

  /** What ExtractMatches returns, with the flag it leaves behind. */
  datatype Extraction = Extraction(root: Hash, matches: seq<Hash>, bad: bool)

  /** ExtractMatches: 0 stands for failure. */
  function ExtractAll(h: PairHash, n: nat, bits: seq<bool>, hashes: seq<Hash>, bad: bool): Extraction
  {
    if n == 0 || n > MAX_BLOCK_SIZE / 60 || |hashes| > n || |bits| < |hashes| then Extraction(0, [], bad)
    else
      var r := Extract(h, n, bits, hashes, Height(n), 0, Cursor(0, 0, [], bad));
      var consumed := (r.cursor.bits + 7) / 8 == (|bits| + 7) / 8 && r.cursor.hashes == |hashes|;
      Extraction(if !r.cursor.bad && consumed then r.hash else 0, r.cursor.matches, r.cursor.bad)
  }

  function AllBits(mask: seq<bool>): seq<bool>
    requires mask != []
  {
    Bits(mask, Height(|mask|), 0)
  }

  function AllHashes(h: PairHash, txids: seq<Hash>, mask: seq<bool>): seq<Hash>
    requires |txids| == |mask| > 0
  {
    Hashes(h, txids, mask, Height(|mask|), 0)
  }

  function Root(h: PairHash, txids: seq<Hash>): Hash
    requires txids != []
  {
    CalcHash(h, txids, Height(|txids|), 0)
  }

  lemma RootCoversAll(mask: seq<bool>)
    requires mask != []
    ensures Width(|mask|, Height(|mask|)) == 1
    ensures First(Height(|mask|), 0) == 0 && Last(|mask|, Height(|mask|), 0) == |mask|
  {
    FirstExists(|mask|, Height(|mask|), 1);
  }

  /** The documented limits on the number of hashes. */
  lemma HashLimits(h: PairHash, txids: seq<Hash>, mask: seq<bool>)
    requires |txids| == |mask| > 0
    ensures |AllHashes(h, txids, mask)| <= |txids|
    ensures |AllHashes(h, txids, mask)| <= 1 + |Selected(txids, mask, 0, |mask|)| * Height(|mask|)
    ensures |AllHashes(h, txids, mask)| <= |AllBits(mask)|
  {
    hide Hashes, Bits, Lone, First, Last, Selected;
    RootCoversAll(mask);
    HashCount(h, txids, mask, Height(|mask|), 0);
    BitCount(h, txids, mask, Height(|mask|), 0);
    SomeHash(h, txids, mask, Height(|mask|), 0);
  }

  lemma {:induction false} SomeHash(h: PairHash, txids: seq<Hash>, mask: seq<bool>, height: nat, pos: nat)
    requires |txids| == |mask| && pos < Width(|mask|, height)
    ensures |Hashes(h, txids, mask, height, pos)| >= 1
  {
    hide ParentOfMatch, CalcHash;
    if height > 0 && ParentOfMatch(mask, height, pos) {
      SomeHash(h, txids, mask, height - 1, 2 * pos);
    }
  }

  /**
   Extracting from the encoding of any block and mask, padded to whole bytes, returns the root and exactly the matches.
   */
  lemma RoundTrip(h: PairHash, txids: seq<Hash>, mask: seq<bool>, bits: seq<bool>)
    requires 1 <= |txids| == |mask| <= MAX_BLOCK_SIZE / 60
    requires At(bits, 0, AllBits(mask)) && (|bits| + 7) / 8 == (|AllBits(mask)| + 7) / 8
    ensures ExtractAll(h, |txids|, bits, AllHashes(h, txids, mask), false) ==
            Extraction(Root(h, txids), Selected(txids, mask, 0, |mask|), false)
  {
    hide Bits, Hashes, First, Last, Selected, Extract, CalcHash;
    RootCoversAll(mask);
    HashLimits(h, txids, mask);
    var hashes := AllHashes(h, txids, mask);
    assert At(hashes, 0, hashes);
    ExtractReadsBack(h, txids, mask, bits, hashes, Height(|mask|), 0, Cursor(0, 0, [], false));
    assert [] + Selected(txids, mask, 0, |mask|) == Selected(txids, mask, 0, |mask|);
  }

  /**
   Whatever was received, a run that returns the true root of a block returns transactions of that block, in order.
   */
  lemma Soundness(h: PairHash, txids: seq<Hash>, bits: seq<bool>, hashes: seq<Hash>) returns (at: seq<nat>)
    requires Injective(h) && txids != []
    requires ExtractAll(h, |txids|, bits, hashes, false).root == Root(h, txids) != 0
    ensures Rising(at, 0, |txids|)
    ensures ExtractAll(h, |txids|, bits, hashes, false).matches == Picked(txids, at)
  {
    hide Extract, CalcHash, Injective;
    var top := Height(|txids|);
    RootCoversAll(seq(|txids|, i => false));
    at := ExtractIsSound(h, txids, bits, hashes, top, 0, Cursor(0, 0, [], false));
    assert [] + Picked(txids, at) == Picked(txids, at);
  }
}
