/**
 What ExtractMatches accepts (src/main.cpp:2721-2797): exactly the flattened form of a tree of hashes that has the shape
 the number of transactions allows, with nothing left over but padding.
 */
module PartialMerkleProof {
  import opened Merkle
  import opened PartialMerkle

  /** A partial tree: a hash where it stops, a node with two children, or one with a single child. */
  datatype Proof = Stop(matched: bool, hash: Hash) | Fork(left: Proof, right: Proof) | Single(child: Proof)

  /** The shape at a place of a tree over n transactions: only a transaction can match, and no child is missing. */
  ghost predicate Fits(p: Proof, n: nat, height: nat, pos: nat)
  {
    match p
    case Stop(matched, _) => matched ==> height == 0
    case Fork(left, right) =>
      && height > 0 && 2 * pos + 1 < Width(n, height - 1)
      && Fits(left, n, height - 1, 2 * pos) && Fits(right, n, height - 1, 2 * pos + 1)
    case Single(child) => height > 0 && 2 * pos + 1 >= Width(n, height - 1) && Fits(child, n, height - 1, 2 * pos)
  }

  /** One flag per node, depth first. */
  ghost function Flags(p: Proof): seq<bool>
  {
    match p
    case Stop(matched, _) => [matched]
    case Fork(left, right) => [true] + (Flags(left) + Flags(right))
    case Single(child) => [true] + Flags(child)
  }

  /** The hashes at which the tree stops, from left to right. */
  ghost function Given(p: Proof): seq<Hash>
  {
    match p
    case Stop(_, hash) => [hash]
    case Fork(left, right) => Given(left) + Given(right)
    case Single(child) => Given(child)
  }

  ghost function Found(p: Proof): seq<Hash>
  {
    match p
    case Stop(matched, hash) => if matched then [hash] else []
    case Fork(left, right) => Found(left) + Found(right)
    case Single(child) => Found(child)
  }

  ghost function RootOf(h: PairHash, p: Proof): Hash
  {
    match p
    case Stop(_, hash) => hash
    case Fork(left, right) => h(RootOf(h, left), RootOf(h, right))
    case Single(child) => h(RootOf(h, child), RootOf(h, child))
  }

  /** A node that reads a partial tree ends behind its flags and hashes. */
  ghost predicate Reads(r: Node, h: PairHash, p: Proof, c: Cursor)
  {
    r == Node(Cursor(c.bits + |Flags(p)|, c.hashes + |Given(p)|, c.matches + Found(p), c.bad), RootOf(h, p))
  }

  // ----- one node -----

  lemma StopReads(h: PairHash, hash: Hash, matched: bool, c: Cursor)
    ensures var matches := if matched then c.matches + [hash] else c.matches;
            Reads(Node(Cursor(c.bits + 1, c.hashes + 1, matches, c.bad), hash), h, Stop(matched, hash), c)
  {
    assert c.matches + [] == c.matches;
  }

  lemma ForkReads(h: PairHash, left: Proof, right: Proof, c: Cursor, l: Node, r: Node)
    requires Reads(l, h, left, c.(bits := c.bits + 1)) && Reads(r, h, right, l.cursor)
    ensures Reads(Node(r.cursor, h(l.hash, r.hash)), h, Fork(left, right), c)
  {
    assert c.matches + Found(left) + Found(right) == c.matches + (Found(left) + Found(right));
  }

  lemma SingleReads(h: PairHash, child: Proof, c: Cursor, l: Node)
    requires Reads(l, h, child, c.(bits := c.bits + 1))
    ensures Reads(Node(l.cursor, h(l.hash, l.hash)), h, Single(child), c)
  {
  }

  lemma FirstFlag(bits: seq<bool>, start: nat, flag: bool, rest: seq<bool>)
    requires At(bits, start, [flag] + rest)
    ensures start < |bits| && bits[start] == flag && At(bits, start + 1, rest)
  {
    AtSplit(bits, start, [flag], rest);
    assert bits[start..start + 1][0] == bits[start];
  }

  lemma FirstHash(hashes: seq<Hash>, start: nat, hash: Hash)
    requires At(hashes, start, [hash])
    ensures start < |hashes| && hashes[start] == hash
  {
    assert hashes[start..start + 1][0] == hashes[start];
  }

  lemma Joined<T>(whole: seq<T>, start: nat, a: seq<T>, b: seq<T>)
    requires At(whole, start, a) && At(whole, start + |a|, b)
    ensures At(whole, start, a + b)
  {
    assert whole[start..start + |a + b|] == whole[start..start + |a|] + whole[start + |a|..start + |a| + |b|];
  }

  lemma ReadsOne(h: PairHash, n: nat, bits: seq<bool>, hashes: seq<Hash>, height: nat, pos: nat, c: Cursor)
    requires !Extract(h, n, bits, hashes, height, pos, c).cursor.bad
    ensures c.bits < |bits| && At(bits, c.bits, [bits[c.bits]])
    ensures height == 0 || !bits[c.bits] ==> c.hashes < |hashes| && At(hashes, c.hashes, [hashes[c.hashes]])
  {
  }

  // ----- any node -----

  /** The flattened form of a partial tree is read back. */
  lemma {:induction false} ProofIsRead(
      h: PairHash, n: nat, bits: seq<bool>, hashes: seq<Hash>, height: nat, pos: nat, c: Cursor, p: Proof)
    requires Fits(p, n, height, pos) && At(bits, c.bits, Flags(p)) && At(hashes, c.hashes, Given(p))
    ensures Reads(Extract(h, n, bits, hashes, height, pos, c), h, p, c)
  {
    hide Extract, At, Reads;
    var c1 := c.(bits := c.bits + 1);
    match p
    case Stop(matched, hash) =>
      assert [matched] + [] == [matched];
      FirstFlag(bits, c.bits, matched, []);
      FirstHash(hashes, c.hashes, hash);
      ExtractStop(h, n, bits, hashes, height, pos, c);
      StopReads(h, hash, matched, c);
    case Fork(left, right) =>
      FirstFlag(bits, c.bits, true, Flags(left) + Flags(right));
      AtSplit(bits, c1.bits, Flags(left), Flags(right));
      AtSplit(hashes, c.hashes, Given(left), Given(right));
      ExtractSplit(h, n, bits, hashes, height, pos, c);
      ProofIsRead(h, n, bits, hashes, height - 1, 2 * pos, c1, left);
      var l := Extract(h, n, bits, hashes, height - 1, 2 * pos, c1);
      EndsBehind(l, h, left, c1);
      ProofIsRead(h, n, bits, hashes, height - 1, 2 * pos + 1, l.cursor, right);
      ForkReads(h, left, right, c, l, Extract(h, n, bits, hashes, height - 1, 2 * pos + 1, l.cursor));
    case Single(child) =>
      FirstFlag(bits, c.bits, true, Flags(child));
      ExtractSplit(h, n, bits, hashes, height, pos, c);
      ProofIsRead(h, n, bits, hashes, height - 1, 2 * pos, c1, child);
      SingleReads(h, child, c, Extract(h, n, bits, hashes, height - 1, 2 * pos, c1));
  }

  lemma EndsBehind(r: Node, h: PairHash, p: Proof, c: Cursor)
    requires Reads(r, h, p, c)
    ensures r.cursor.bits == c.bits + |Flags(p)| && r.cursor.hashes == c.hashes + |Given(p)|
    ensures r.cursor.bad == c.bad
  {
  }

  /** Whatever is read without a failure is the flattened form of a partial tree. */
  lemma {:induction false} ReadIsProof(
      h: PairHash, n: nat, bits: seq<bool>, hashes: seq<Hash>, height: nat, pos: nat, c: Cursor) returns (p: Proof)
    requires !Extract(h, n, bits, hashes, height, pos, c).cursor.bad
    ensures Fits(p, n, height, pos) && At(bits, c.bits, Flags(p)) && At(hashes, c.hashes, Given(p))
    ensures Reads(Extract(h, n, bits, hashes, height, pos, c), h, p, c)
    decreases height
  {
    hide Extract, At, Reads;
    ReadsOne(h, n, bits, hashes, height, pos, c);
    var c1 := c.(bits := c.bits + 1);
    if height == 0 || !bits[c.bits] {
      p := Stop(bits[c.bits], hashes[c.hashes]);
      ExtractStop(h, n, bits, hashes, height, pos, c);
      StopReads(h, hashes[c.hashes], bits[c.bits], c);
    } else {
      ExtractSplit(h, n, bits, hashes, height, pos, c);
      var l := Extract(h, n, bits, hashes, height - 1, 2 * pos, c1);
      if 2 * pos + 1 < Width(n, height - 1) {
        if l.cursor.bad {
          BadSticks(h, n, bits, hashes, height - 1, 2 * pos + 1, l.cursor);
        }
        var a := ReadIsProof(h, n, bits, hashes, height - 1, 2 * pos, c1);
        EndsBehind(l, h, a, c1);
        var b := ReadIsProof(h, n, bits, hashes, height - 1, 2 * pos + 1, l.cursor);
        p := Fork(a, b);
        Joined(bits, c1.bits, Flags(a), Flags(b));
        Joined(bits, c.bits, [true], Flags(a) + Flags(b));
        Joined(hashes, c.hashes, Given(a), Given(b));
        ForkReads(h, a, b, c, l, Extract(h, n, bits, hashes, height - 1, 2 * pos + 1, l.cursor));
      } else {
        var a := ReadIsProof(h, n, bits, hashes, height - 1, 2 * pos, c1);
        p := Single(a);
        Joined(bits, c.bits, [true], Flags(a));
        SingleReads(h, a, c, l);
      }
    }
  }

  // ----- the whole message -----

  /** The message is the flattened form of a partial tree, padded to whole bytes, of a block of permitted size. */
  ghost predicate IsProof(p: Proof, n: nat, bits: seq<bool>, hashes: seq<Hash>)
  {
    && 1 <= n <= 16_666 && |hashes| <= n && |hashes| <= |bits|
    && Fits(p, n, Height(n), 0)
    && Flags(p) <= bits && (|Flags(p)| + 7) / 8 == (|bits| + 7) / 8
    && Given(p) == hashes
  }

  /** Such a message is accepted, and its root and matches are those of the partial tree. */
  lemma ProofIsAccepted(h: PairHash, n: nat, bits: seq<bool>, hashes: seq<Hash>, p: Proof)
    requires IsProof(p, n, bits, hashes)
    ensures ExtractAll(h, n, bits, hashes, false) == Extraction(RootOf(h, p), Found(p), false)
  {
    hide Extract;
    ProofIsRead(h, n, bits, hashes, Height(n), 0, Cursor(0, 0, [], false), p);
    assert [] + Found(p) == Found(p);
  }

  /** Nothing else is: a root other than 0 comes from such a message, all of whose bits and hashes were read. */
  lemma AcceptedIsProof(h: PairHash, n: nat, bits: seq<bool>, hashes: seq<Hash>, bad: bool) returns (p: Proof)
    requires ExtractAll(h, n, bits, hashes, bad).root != 0
    ensures !bad && IsProof(p, n, bits, hashes)
    ensures ExtractAll(h, n, bits, hashes, bad) == Extraction(RootOf(h, p), Found(p), false)
  {
    hide Extract;
    var c := Cursor(0, 0, [], bad);
    if bad {
      BadSticks(h, n, bits, hashes, Height(n), 0, c);
    }
    p := ReadIsProof(h, n, bits, hashes, Height(n), 0, c);
    assert [] + Found(p) == Found(p);
  }
}
