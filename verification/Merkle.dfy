/**
 Merkle trees: the flat array that BuildMerkleTree fills level by level, the recursive CalcHash of partial trees, and
 Merkle branches (src/main.h:1212-1215, 1368-1422; src/main.cpp:2686-2701).

 The pair hash is a parameter.
 */
module Merkle {
  import opened Arith

  type Hash = nat
  type PairHash = (Hash, Hash) -> Hash

  /** Nodes at a height over n leaves. */
  function Width(n: nat, height: nat): (w: nat)
    ensures n > 0 ==> w > 0
    ensures w <= n
  {
    if height == 0 then n else (Width(n, height - 1) + 1) / 2
  }

  /** CalcTreeWidth: the closed form by rounding up and shifting. */
  lemma {:induction false} WidthIsShift(n: nat, height: nat)
    ensures Width(n, height) == (n + Pow(2, height) - 1) / Pow(2, height)
  {
    if height > 0 {
      WidthIsShift(n, height - 1);
      RoundUpTwice(n, Pow(2, height - 1));
    }
  }

  lemma RoundUpTwice(n: nat, p: nat)
    requires p >= 1
    ensures ((n + p - 1) / p + 1) / 2 == (n + 2 * p - 1) / (2 * p)
  {
    var a := n + p - 1;
    var q := a / p;
    assert (a + p) / p == q + 1 by {
      QuotientIs(a + p, p, q + 1, a % p);
    }
    DivideByTwice(a + p, p);
  }

  /** CalcHash: a node is the hash of its two children, the right one being a copy of the left when it is missing. */
  function CalcHash(h: PairHash, txids: seq<Hash>, height: nat, pos: nat): Hash
    requires pos < Width(|txids|, height)
  {
    if height == 0 then txids[pos]
    else
      var left := CalcHash(h, txids, height - 1, 2 * pos);
      var right := if 2 * pos + 1 < Width(|txids|, height - 1) then CalcHash(h, txids, height - 1, 2 * pos + 1)
        else left;
      h(left, right)
  }

  /** Where level height starts in the flat array. */
  function Offset(n: nat, height: nat): nat
  {
    if height == 0 then 0 else Offset(n, height - 1) + Width(n, height - 1)
  }

  /** The level of the root: the first one with a single node. */
  ghost predicate IsTop(n: nat, height: nat)
  {
    Width(n, height) <= 1 && forall k :: 0 <= k < height ==> Width(n, k) > 1
  }

  /** One level of the recursive definition. */
  function Level(h: PairHash, txids: seq<Hash>, height: nat): (r: seq<Hash>)
    ensures |r| == Width(|txids|, height)
    ensures forall pos :: 0 <= pos < |r| ==> r[pos] == CalcHash(h, txids, height, pos)
  {
    seq(Width(|txids|, height), pos requires 0 <= pos < Width(|txids|, height) => CalcHash(h, txids, height, pos))
  }

  /** The first levels, leaves first, one after the other. */
  function Levels(h: PairHash, txids: seq<Hash>, levels: nat): (r: seq<Hash>)
    ensures |r| == Offset(|txids|, levels)
  {
    if levels == 0 then [] else Levels(h, txids, levels - 1) + Level(h, txids, levels - 1)
  }

  lemma {:induction false} LevelsAt(h: PairHash, txids: seq<Hash>, levels: nat, k: nat, pos: nat)
    requires k < levels && pos < Width(|txids|, k)
    ensures Offset(|txids|, k) + pos < Offset(|txids|, levels)
    ensures Levels(h, txids, levels)[Offset(|txids|, k) + pos] == CalcHash(h, txids, k, pos)
  {
    hide CalcHash;
    if k < levels - 1 {
      LevelsAt(h, txids, levels - 1, k, pos);
    }
  }

  /** A level hashed pairwise, a last node without partner being hashed with itself. */
  function Pairs(h: PairHash, row: seq<Hash>): (r: seq<Hash>)
    ensures |r| == (|row| + 1) / 2
    ensures forall p :: 0 <= p < |r| ==> r[p] == h(row[2 * p], row[if 2 * p + 1 < |row| then 2 * p + 1 else 2 * p])
  {
    seq((|row| + 1) / 2, p requires 0 <= p < (|row| + 1) / 2 =>
        h(row[2 * p], row[if 2 * p + 1 < |row| then 2 * p + 1 else 2 * p]))
  }

  /** One level of BuildMerkleTree on top of the one that starts at j. */
  method BuildLevel(h: PairHash, tree0: seq<Hash>, j: nat, size: nat) returns (tree: seq<Hash>)
    requires j + size == |tree0| && size > 1
    ensures tree == tree0 + Pairs(h, tree0[j..])
  {
    tree := tree0;
    ghost var pairs := Pairs(h, tree0[j..]);
    var i := 0;
    while i < size
      invariant 0 <= i <= size + 1 && i % 2 == 0
      invariant tree == tree0 + pairs[..i / 2]
    {
      var i2 := if i + 1 < size - 1 then i + 1 else size - 1;
      assert pairs[i / 2] == h(tree0[j + i], tree0[j + i2]);
      tree := tree + [h(tree[j + i], tree[j + i2])];
      i := i + 2;
    }
  }

  /** Pairing up a level gives the next one. */
  lemma NextLevel(h: PairHash, txids: seq<Hash>, k: nat)
    ensures Pairs(h, Level(h, txids, k)) == Level(h, txids, k + 1)
  {
    hide CalcHash;
    forall p | 0 <= p < Width(|txids|, k + 1) ensures Pairs(h, Level(h, txids, k))[p] == CalcHash(h, txids, k + 1, p) {
      ParentOf(h, txids, k, p);
    }
  }

  lemma ParentOf(h: PairHash, txids: seq<Hash>, k: nat, p: nat)
    requires p < Width(|txids|, k + 1)
    ensures var size := Width(|txids|, k);
            2 * p < size &&
            CalcHash(h, txids, k + 1, p) ==
              h(CalcHash(h, txids, k, 2 * p), CalcHash(h, txids, k, if 2 * p + 1 < size then 2 * p + 1 else 2 * p))
  {
  }

  lemma LevelAdded(h: PairHash, txids: seq<Hash>, k: nat)
    ensures Levels(h, txids, k + 1)[Offset(|txids|, k)..] == Level(h, txids, k)
    ensures Levels(h, txids, k + 1) + Pairs(h, Level(h, txids, k)) == Levels(h, txids, k + 2)
  {
    hide CalcHash, Pairs, Level;
    NextLevel(h, txids, k);
    assert Levels(h, txids, k + 1) == Levels(h, txids, k) + Level(h, txids, k);
  }

  /** BuildMerkleTree: the whole array, level by level, and the root; 0 for a block without transactions. */
  method BuildMerkleTree(h: PairHash, txids: seq<Hash>) returns (root: Hash, tree: seq<Hash>, ghost top: nat)
    ensures IsTop(|txids|, top)
    ensures tree == Levels(h, txids, top + 1)
    ensures root == if txids == [] then 0 else CalcHash(h, txids, top, 0)
  {
    hide CalcHash, Levels;
    tree := txids;
    top := 0;
    var j, size := 0, |txids|;
    Leaves(h, txids);
    while size > 1
      invariant size == Width(|txids|, top) && j == Offset(|txids|, top) && |tree| == j + size
      invariant forall k :: 0 <= k < top ==> Width(|txids|, k) > 1
      invariant tree == Levels(h, txids, top + 1)
      decreases size
    {
      LevelAdded(h, txids, top);
      tree := BuildLevel(h, tree, j, size);
      j := j + size;
      size := (size + 1) / 2;
      top := top + 1;
    }
    NoNodes(top + 1);
    if |tree| == 0 {
      root := 0;
    } else {
      LevelsAt(h, txids, top + 1, top, 0);
      root := tree[|tree| - 1];
    }
  }

  lemma Leaves(h: PairHash, txids: seq<Hash>)
    ensures Levels(h, txids, 1) == txids
  {
    assert Level(h, txids, 0) == txids;
    assert Levels(h, txids, 0) == [];
  }

  lemma {:induction false} NoNodes(k: nat)
    ensures Offset(0, k) == 0
  {
    if k > 0 {
      NoNodes(k - 1);
    }
  }

  // ----- branches -----

  /** The other child of the same parent, or the node itself when it has none. */
  function Sibling(pos: nat, size: nat): nat
    requires pos < size
  {
    var other := if pos % 2 == 0 then pos + 1 else pos - 1;
    if other < size - 1 then other else size - 1
  }

  /** The position k levels up. */
  function Up(n: nat, index: nat, k: nat): (r: nat)
    requires index < n
    ensures r < Width(n, k)
  {
    if k == 0 then index else Up(n, index, k - 1) / 2
  }

  /** The first k siblings on the way up. */
  function Branch(h: PairHash, txids: seq<Hash>, index: nat, k: nat): (r: seq<Hash>)
    requires index < |txids|
    ensures |r| == k
  {
    if k == 0 then [] else Branch(h, txids, index, k - 1) + [SiblingHash(h, txids, index, k - 1)]
  }

  function SiblingHash(h: PairHash, txids: seq<Hash>, index: nat, k: nat): Hash
    requires index < |txids|
  {
    CalcHash(h, txids, k, Sibling(Up(|txids|, index, k), Width(|txids|, k)))
  }

  /** Hashing a node with its sibling, in order, gives the parent. */
  lemma ParentFromSibling(h: PairHash, txids: seq<Hash>, k: nat, pos: nat)
    requires pos < Width(|txids|, k) && Width(|txids|, k) > 1
    ensures var size := Width(|txids|, k);
            var own, other := CalcHash(h, txids, k, pos), CalcHash(h, txids, k, Sibling(pos, size));
            pos / 2 < Width(|txids|, k + 1) &&
            CalcHash(h, txids, k + 1, pos / 2) == if pos % 2 == 1 then h(other, own) else h(own, other)
  {
  }

  /** GetMerkleBranch: the siblings on the way up, read from the array. */
  method GetMerkleBranch(h: PairHash, txids: seq<Hash>, tree: seq<Hash>, index: nat, ghost top: nat)
    returns (branch: seq<Hash>)
    requires index < |txids| && IsTop(|txids|, top) && tree == Levels(h, txids, top + 1)
    ensures branch == Branch(h, txids, index, top)
  {
    hide CalcHash, Levels;
    branch := [];
    var j, size, i := 0, |txids|, index;
    ghost var k := 0;
    while size > 1
      invariant k <= top && size == Width(|txids|, k) && j == Offset(|txids|, k) && i == Up(|txids|, index, k) < size
      invariant branch == Branch(h, txids, index, k)
      decreases size
    {
      assert k != top;
      LevelsAt(h, txids, top + 1, k, Sibling(i, size));
      branch := branch + [tree[j + Sibling(i, size)]];
      i := i / 2;
      j := j + size;
      size := (size + 1) / 2;
      k := k + 1;
    }
  }

  /** Folding a branch into a leaf, the index saying at every level which side the leaf is on. */
  function FoldBranch(h: PairHash, leaf: Hash, branch: seq<Hash>, index: nat): Hash
    decreases |branch|
  {
    if branch == [] then leaf
    else FoldBranch(h, if index % 2 == 1 then h(branch[0], leaf) else h(leaf, branch[0]), branch[1..], index / 2)
  }

  /** CheckMerkleBranch; the index -1 stands for a transaction that is in no block. */
  method CheckMerkleBranch(h: PairHash, leaf: Hash, branch: seq<Hash>, index: int) returns (hash: Hash)
    requires index >= -1
    ensures hash == if index == -1 then 0 else FoldBranch(h, leaf, branch, index)
  {
    if index == -1 {
      return 0;
    }
    hash := leaf;
    var i := index;
    for k := 0 to |branch|
      invariant i >= 0 && FoldBranch(h, hash, branch[k..], i) == FoldBranch(h, leaf, branch, index)
    {
      assert branch[k..][1..] == branch[k + 1..];
      if i % 2 == 1 {
        hash := h(branch[k], hash);
      } else {
        hash := h(hash, branch[k]);
      }
      i := i / 2;
    }
  }

  lemma {:induction false} FoldSnoc(h: PairHash, leaf: Hash, branch: seq<Hash>, n: nat, index: nat, last: Hash)
    requires index < n
    ensures var below := FoldBranch(h, leaf, branch, index);
            FoldBranch(h, leaf, branch + [last], index) ==
              if Up(n, index, |branch|) % 2 == 1 then h(last, below) else h(below, last)
    decreases |branch|
  {
    if branch != [] {
      assert (branch + [last])[1..] == branch[1..] + [last];
      FoldSnoc(h, if index % 2 == 1 then h(branch[0], leaf) else h(leaf, branch[0]), branch[1..], n, index / 2, last);
      UpFromParent(n, index, |branch|);
    } else {
      assert (branch + [last])[1..] == [];
    }
  }

  lemma {:induction false} UpFromParent(n: nat, index: nat, k: nat)
    requires index < n && k > 0
    ensures Up(n, index / 2, k - 1) == Up(n, index, k)
  {
    if k > 1 {
      UpFromParent(n, index, k - 1);
    }
  }

  lemma {:induction false} BranchFolds(h: PairHash, txids: seq<Hash>, index: nat, k: nat)
    requires index < |txids| && forall l :: 0 <= l < k ==> Width(|txids|, l) > 1
    ensures FoldBranch(h, txids[index], Branch(h, txids, index, k), index) ==
            CalcHash(h, txids, k, Up(|txids|, index, k))
  {
    hide CalcHash, FoldBranch;
    if k == 0 {
      LeafFolds(h, txids, index);
    } else {
      BranchFolds(h, txids, index, k - 1);
      var branch := Branch(h, txids, index, k - 1);
      FoldSnoc(h, txids[index], branch, |txids|, index, SiblingHash(h, txids, index, k - 1));
      ParentFromSibling(h, txids, k - 1, Up(|txids|, index, k - 1));
    }
  }

  lemma LeafIs(h: PairHash, txids: seq<Hash>, index: nat)
    requires index < |txids|
    ensures CalcHash(h, txids, 0, index) == txids[index]
  {
  }

  lemma LeafFolds(h: PairHash, txids: seq<Hash>, index: nat)
    requires index < |txids|
    ensures FoldBranch(h, txids[index], [], index) == CalcHash(h, txids, 0, index)
  {
  }

  /** For every transaction of every block, checking its branch recomputes the root. */
  method BranchProvesInclusion(h: PairHash, txids: seq<Hash>, index: nat) returns (root: Hash, recomputed: Hash)
    requires index < |txids|
    ensures recomputed == root
    ensures exists top: nat :: IsTop(|txids|, top) && root == CalcHash(h, txids, top, 0)
  {
    hide CalcHash, FoldBranch, Levels, Branch;
    var tree;
    ghost var top;
    root, tree, top := BuildMerkleTree(h, txids);
    var branch := GetMerkleBranch(h, txids, tree, index, top);
    recomputed := CheckMerkleBranch(h, txids[index], branch, index);
    BranchFolds(h, txids, index, top);
  }
}
