/** Block index entries and the paths they form (src/main.h, CBlockIndex). */
module BlockTree {
  import opened Coins
  import opened Ledger
  import opened LedgerRuns

  /**
   One entry of the block index.  Parent, height, accumulated work and the stored block never change; the link to the
   successor on the active chain, the failure marks and the undo data do.
   */
  class BlockIndex {
    const hash: nat
    const pprev: BlockIndex?
    const height: nat
    const chainWork: nat
    const link: Link
    var pnext: BlockIndex?
    var failedValid: bool
    var failedChild: bool
    var undo: Option<seq<TxUndo>>

    constructor (hash: nat, pprev: BlockIndex?, blockWork: nat, link: Link)
      ensures this.hash == hash && this.pprev == pprev && this.link == link
      ensures height == (if pprev == null then 0 else pprev.height + 1)
      ensures chainWork == (if pprev == null then 0 else pprev.chainWork) + blockWork
      ensures pnext == null && !failedValid && !failedChild && undo == None
    {
      this.hash := hash;
      this.pprev := pprev;
      this.height := if pprev == null then 0 else pprev.height + 1;
      this.chainWork := (if pprev == null then 0 else pprev.chainWork) + blockWork;
      this.link := link;
      pnext, failedValid, failedChild, undo := null, false, false, None;
    }
  }

  /** Heights count from a root at 0 and every block adds work, all the way down. */
  ghost predicate Linked(b: BlockIndex)
    decreases b.height
  {
    if b.pprev == null then b.height == 0
    else b.height == b.pprev.height + 1 && b.chainWork > b.pprev.chainWork && Linked(b.pprev)
  }

  /** The blocks from the root to b. */
  ghost function Path(b: BlockIndex): (p: seq<BlockIndex>)
    requires Linked(b)
    ensures |p| == b.height + 1 && p[b.height] == b
    ensures forall i :: 0 <= i < |p| ==> Linked(p[i]) && p[i].height == i
    ensures p[0].pprev == null
    ensures forall i, j :: 0 <= i < |p| && 0 < j < |p| && j == i + 1 ==> p[j].pprev == p[i]
    decreases b.height
  {
    if b.pprev == null then [b] else Path(b.pprev) + [b]
  }

  /** a lies on the path of b. */
  ghost predicate IsAncestor(a: BlockIndex, b: BlockIndex)
    requires Linked(b)
  {
    a.height <= b.height && Path(b)[a.height] == a
  }

  /** A path up to one of its blocks is the path of that block. */
  lemma {:induction false} PathPrefix(b: BlockIndex, k: nat)
    requires Linked(b) && k <= b.height
    ensures Linked(Path(b)[k]) && Path(Path(b)[k]) == Path(b)[..k + 1]
    decreases b.height
  {
    if k < b.height {
      PathPrefix(b.pprev, k);
      assert Path(b)[..k + 1] == Path(b.pprev)[..k + 1];
    } else {
      assert Path(b)[..k + 1] == Path(b);
    }
  }

  lemma AncestorPath(a: BlockIndex, b: BlockIndex)
    requires Linked(b) && IsAncestor(a, b)
    ensures Linked(a) && Path(a) == Path(b)[..a.height + 1]
  {
    PathPrefix(b, a.height);
  }

  /** One step down a path. */
  lemma ParentOnPath(p: BlockIndex, top: BlockIndex)
    requires Linked(top) && IsAncestor(p, top) && p.pprev != null
    ensures IsAncestor(p.pprev, top) && p.height == p.pprev.height + 1 && p.pprev.chainWork < p.chainWork
  {
    assert Linked(Path(top)[p.height]);
    assert Path(top)[p.height - 1] == p.pprev;
  }

  /** Blocks of one path at different places have different heights, and all but the root have a parent. */
  lemma OnSamePath(p: BlockIndex, q: BlockIndex, top: BlockIndex)
    requires Linked(top) && IsAncestor(p, top) && IsAncestor(q, top) && p != q && p.height >= q.height
    ensures p.height > q.height && p.pprev != null
  {
    assert Path(top)[p.height - 1] == p.pprev;
  }

  /** Two blocks of one path: the lower one is an ancestor of the higher one. */
  lemma Between(a: BlockIndex, b: BlockIndex, top: BlockIndex)
    requires Linked(top) && IsAncestor(a, top) && IsAncestor(b, top) && a.height <= b.height
    ensures Linked(b) && IsAncestor(a, b)
  {
    PathPrefix(top, b.height);
  }

  lemma AncestorOfAncestor(a: BlockIndex, b: BlockIndex, c: BlockIndex)
    requires Linked(c) && IsAncestor(b, c) && Linked(b) && IsAncestor(a, b)
    ensures IsAncestor(a, c)
  {
    PathPrefix(c, b.height);
  }

  lemma SelfOnPath(b: BlockIndex)
    requires Linked(b)
    ensures IsAncestor(b, b)
  {
  }

  /** Work grows strictly along a path. */
  lemma {:induction false} WorkGrows(a: BlockIndex, b: BlockIndex)
    requires Linked(b) && IsAncestor(a, b) && a != b
    ensures a.height < b.height && a.chainWork < b.chainWork
    decreases b.height
  {
    assert a.height < b.height;
    assert Path(b)[a.height] == Path(b.pprev)[a.height];
    if a != b.pprev {
      WorkGrows(a, b.pprev);
    }
  }

  /** The last common block of two paths with a common root. */
  ghost predicate IsFork(f: BlockIndex, a: BlockIndex, b: BlockIndex)
    requires Linked(a) && Linked(b)
  {
    && IsAncestor(f, a) && IsAncestor(f, b)
    && forall k :: f.height < k <= a.height && k <= b.height ==> Path(a)[k] != Path(b)[k]
  }
}
