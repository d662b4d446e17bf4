/** The active chain as a path in the block tree: fork points, successor links, and the set a path stands for. */
module ChainTree {
  import opened Coins
  import opened Ledger
  import opened LedgerRuns
  import opened BlockTree
  import opened Wear

  /** The blocks of a path above its root, with their rules. */
  ghost function LinksOf(path: seq<BlockIndex>): seq<Link>
    requires path != []
  {
    seq(|path| - 1, i requires 0 <= i < |path| - 1 => path[i + 1].link)
  }

  /** What connecting the path of b from scratch gives; before any block there is the empty set. */
  ghost function StateOf(b: BlockIndex?): Option<Connected>
    requires b != null ==> Linked(b)
  {
    if b == null then Some(Connected(map[], [], 0)) else Replay(LinksOf(Path(b)))
  }

  lemma StateOfRoot(b: BlockIndex)
    requires Linked(b) && b.pprev == null
    ensures StateOf(b) == Some(Connected(map[], [], 0))
  {
    assert LinksOf(Path(b)) == [];
  }

  lemma StateOfChild(b: BlockIndex)
    requires Linked(b) && b.pprev != null
    ensures StateOf(b) == match StateOf(b.pprev)
                          case None => None
                          case Some(c) =>
                            if HeightInRange(b.height) && CheckBlock(b.link.block)
                            then ConnectBlock(b.link.rules, c.utxo, b.link.block, b.height) else None
  {
    hide ConnectBlock, CheckBlock;
    var links := LinksOf(Path(b));
    assert links[..b.height - 1] == LinksOf(Path(b.pprev));
    assert links[b.height - 1] == b.link;
  }

  lemma StateOfIsValid(b: BlockIndex?)
    requires b != null ==> Linked(b)
    requires StateOf(b).Some?
    ensures ValidUtxo(StateOf(b).value.utxo)
  {
    if b != null {
      ReplaySupply(LinksOf(Path(b)));
    }
  }

  /** Disconnecting b with the undo data of its replay gives the set of its parent. */
  lemma StateOfParent(b: BlockIndex)
    requires Linked(b) && b.pprev != null && StateOf(b).Some? && b.link.rules.enforceBip30
    ensures CheckBlock(b.link.block)
    ensures StateOf(b.pprev).Some?
    ensures DisconnectBlock(StateOf(b).value.utxo, b.link.block, b.height, StateOf(b).value.undo)
              == Some(Undone(StateOf(b.pprev).value.utxo, true))
  {
    hide DisconnectBlock, CheckBlock, ConnectBlock;
    var links := LinksOf(Path(b));
    assert links[..b.height - 1] == LinksOf(Path(b.pprev));
    assert links[b.height - 1] == b.link;
    ReplayBack(links);
    StateOfChild(b);
  }

  /** The same from a set and records that have been through storage. */
  lemma WornStateOfParent(b: BlockIndex, u: Utxo, undo: seq<TxUndo>)
    requires Linked(b) && b.pprev != null && StateOf(b).Some? && b.link.rules.enforceBip30
    requires WornSet(u, StateOf(b).value.utxo) && WornUndos(undo, StateOf(b).value.undo)
    ensures CheckBlock(b.link.block) && StateOf(b.pprev).Some?
    ensures DisconnectBlock(u, b.link.block, b.height, undo).Some?
    ensures var d := DisconnectBlock(u, b.link.block, b.height, undo).value;
            && WornSet(d.utxo, StateOf(b.pprev).value.utxo)
            && (UndosStored(undo) ==> (d.clean <==> AllIntact(u, b.link.block.vtx)))
            && (UndosStored(undo) && d.clean ==> VersionsLeft(u, b.link.block.vtx, d.utxo))
  {
    hide DisconnectTxs, CheckBlock, ConnectBlock, WornSet, WornUndos, UndosStored, AllStored, NoNegativeVersion,
      StateOf, AllIntact, VersionsLeft;
    StateOfChild(b);
    StateOfParent(b);
    StateOfIsValid(b.pprev);
    WornDisconnect(b.link.rules, StateOf(b.pprev).value.utxo, b.link.block, b.height, u, undo);
    if UndosStored(undo) && DisconnectBlock(u, b.link.block, b.height, undo).value.clean {
      DisconnectLeavesVersions(u, b.link.block.vtx, b.height, undo);
    }
  }

  /** And connecting b to a worn set of its parent. */
  lemma WornStateOfChild(b: BlockIndex, u: Utxo)
    requires Linked(b) && b.pprev != null && StateOf(b.pprev).Some? && WornSet(u, StateOf(b.pprev).value.utxo)
    requires HeightInRange(b.height) && CheckBlock(b.link.block)
    requires ConnectBlock(b.link.rules, u, b.link.block, b.height).Some?
    ensures StateOf(b).Some?
    ensures var c := ConnectBlock(b.link.rules, u, b.link.block, b.height).value;
            && WornSet(c.utxo, StateOf(b).value.utxo)
            && WornUndos(StoredUndos(c.undo), StateOf(b).value.undo) && UndosStored(StoredUndos(c.undo))
  {
    hide ConnectBlock, WornSet, WornUndos, UndosStored, StateOf;
    StateOfChild(b);
    var o := StateOf(b.pprev).value.utxo;
    WornConnectBlock(b.link.rules, u, o, b.link.block, b.height);
    StoredUndoStaysWorn(ConnectBlock(b.link.rules, u, b.link.block, b.height).value.undo, StateOf(b).value.undo);
  }

  /** The successor of b on the path of tip, if b has one there. */
  ghost function NextOn(tip: BlockIndex?, b: BlockIndex): BlockIndex?
    requires tip != null ==> Linked(tip)
  {
    if tip != null && b.height < tip.height && Path(tip)[b.height] == b then Path(tip)[b.height + 1] else null
  }

  lemma NextOnPath(tip: BlockIndex, b: BlockIndex)
    requires Linked(tip) && IsAncestor(b, tip) && b.height < tip.height
    ensures NextOn(tip, b) == Path(tip)[b.height + 1]
    ensures IsAncestor(Path(tip)[b.height + 1], tip) && Path(tip)[b.height + 1].height == b.height + 1
  {
  }

  /** Moving the tip by one block changes one link, that of the parent. */
  lemma NextOnChild(tip: BlockIndex, b: BlockIndex)
    requires Linked(tip)
    ensures NextOn(tip, b) == if b == tip.pprev then tip else NextOn(tip.pprev, b)
  {
    if tip.pprev != null && b.height < tip.pprev.height {
      assert Path(tip)[b.height] == Path(tip.pprev)[b.height];
      assert Path(tip)[b.height + 1] == Path(tip.pprev)[b.height + 1];
    }
  }

  /**
   The search of SetBestChain for the last common block: the new branch is cut to the height of the other one, then both
   step down together until they meet.
   */
  method FindFork(tip: BlockIndex?, pindexNew: BlockIndex) returns (fork: BlockIndex?)
    requires Linked(pindexNew)
    requires tip != null ==> Linked(tip) && Path(tip)[0] == Path(pindexNew)[0]
    ensures tip == null <==> fork == null
    ensures tip != null ==> IsFork(fork, tip, pindexNew)
  {
    fork := tip;
    var longer: BlockIndex := pindexNew;
    while fork != null && fork != longer
      invariant fork == null <==> tip == null
      invariant tip != null ==>
        && IsAncestor(fork, tip) && Linked(longer) && IsAncestor(longer, pindexNew)
        && (longer.height == pindexNew.height || longer.height >= fork.height)
        && forall k :: fork.height < k <= tip.height && k <= pindexNew.height ==> Path(tip)[k] != Path(pindexNew)[k]
      decreases if fork == null then 0 else fork.height + 1
    {
      while longer.height > fork.height
        invariant Linked(longer) && IsAncestor(longer, pindexNew)
        invariant longer.height == pindexNew.height || longer.height >= fork.height
      {
        longer := longer.pprev;
      }
      if fork == longer { break; }
      assert fork.height != 0;
      fork := fork.pprev;
    }
  }

  /** The blocks from tip down to, but not including, fork. */
  method Downward(tip: BlockIndex?, fork: BlockIndex?) returns (v: seq<BlockIndex>)
    requires tip != null ==> Linked(tip)
    requires fork != null ==> tip != null && IsAncestor(fork, tip)
    ensures |v| == (if tip == null then 0 else tip.height + 1) - (if fork == null then 0 else fork.height + 1)
    ensures forall i :: 0 <= i < |v| ==> v[i] == Path(tip)[tip.height - i]
  {
    v := [];
    var p := tip;
    while p != fork
      invariant p != null ==> tip != null && IsAncestor(p, tip)
      invariant fork != null ==> p != null && p.height >= fork.height
      invariant |v| == (if tip == null then 0 else tip.height + 1) - (if p == null then 0 else p.height + 1)
      invariant forall i :: 0 <= i < |v| ==> v[i] == Path(tip)[tip.height - i]
      decreases if p == null then 0 else p.height + 1
    {
      v := v + [p];
      p := p.pprev;
    }
  }

  function Reversed(v: seq<BlockIndex>): (r: seq<BlockIndex>)
    ensures |r| == |v|
    ensures forall i :: 0 <= i < |v| ==> r[i] == v[|v| - 1 - i]
  {
    seq(|v|, i requires 0 <= i < |v| => v[|v| - 1 - i])
  }
}
