/**
 The steps of a switch to another tip (src/main.cpp:1909-2023): the plan, one block or a branch taken off or put on, and
 the links.

 What the disk and the checks outside the model answer is given beforehand for every block, and every step says exactly
 what it does with it.
 */
module ChainSwitch {
  import opened Coins
  import L = Ledger
  import LI = LedgerInverse
  import opened LedgerRuns
  import opened BlockTree
  import opened ChainTree
  import opened CoinsView
  import opened Wear
  import BC = BlockConnection

  /**
   What is asked during one switch, by the hash of the block in question: whether block and undo data can be read, what
   the checks outside the model say, whether undo data and index entry can be written, and whether an error in
   connecting stops the node.  At the end the coins may have to be written out, for which there must be space and the
   disk must work.
   */
  datatype Answers = Answers(
    block: nat -> bool, undo: nat -> bool, verdict: nat -> BC.Verdict, threads: nat -> bool,
    undoWritten: nat -> bool, indexWritten: nat -> bool, abort: nat -> bool,
    writeOut: bool, space: bool, io: bool)
  {
    predicate Flushes() { writeOut ==> space && io }
  }

  /**
   What becomes of a block that is to be connected on top of its parent; stored says whether it has undo data already.
   */
  ghost function Decision(a: Answers, b: BlockIndex, stored: bool): BC.Verdict
    requires Linked(b)
  {
    if !a.block(b.hash) then BC.Broken
    else if a.verdict(b.hash) != BC.Good then a.verdict(b.hash)
    else if BreaksRule(b) then BC.Bad
    else if b.pprev != null && ((!stored && !a.undoWritten(b.hash)) || !a.indexWritten(b.hash)) then BC.Broken
    else BC.Good
  }

  /**
   Its path does not connect, or, of the first block, whose transactions are not connected, it fails its own checks.
   */
  ghost predicate BreaksRule(b: BlockIndex)
    requires Linked(b)
  {
    StateOf(b).None? || !L.CheckBlock(b.link.block)
  }

  /** Undo data, if stored, are those of the replay of the block's own path but for wear, and in their stored form. */
  ghost predicate GoodUndo(b: BlockIndex)
    requires Linked(b)
    reads b`undo
  {
    b.undo.Some? ==>
      b.pprev != null && StateOf(b).Some? && WornUndos(b.undo.value, StateOf(b).value.undo) && UndosStored(b.undo.value)
  }

  /** The view stands, but for wear, for the path of cur. */
  ghost predicate ViewAt(view: CoinsViewCache, cur: BlockIndex?)
    requires cur != null ==> Linked(cur)
    reads view.Layers, view.Db
  {
    view.Valid() && view.Best() == cur && StateOf(cur).Some? && WornSet(view.Flat(), StateOf(cur).value.utxo)
  }

  /**
   One block off the tip of a view: it succeeds if and only if the disk answers and every transaction with a negative
   version still has that version in the view.
   */
  method DisconnectOne(view: CoinsViewCache, b: BlockIndex, a: Answers) returns (ok: bool)
    requires Linked(b) && b.pprev != null && b.link.rules.enforceBip30
    requires GoodUndo(b) && b.undo.Some? && ViewAt(view, b)
    modifies view.Layers
    ensures view.BaseUnchanged()
    ensures ok ==> ViewAt(view, b.pprev) && view.tip == b.pprev
    ensures ok <==> a.block(b.hash) && a.undo(b.hash) && AllIntact(old(view.Flat()), b.link.block.vtx)
    ensures ok ==> VersionsLeft(old(view.Flat()), b.link.block.vtx, view.Flat())
  {
    ghost var u := view.Flat();
    WornStateOfParent(b, u, b.undo.value);
    hide L.DisconnectBlock, L.CheckBlock, StateOf, WornSet, WornUndos, UndosStored, AllIntact, VersionsLeft;
    if !a.block(b.hash) { return false; }
    var r := BC.DisconnectBlock(view, b, a.undo(b.hash));
    ok := r == BC.Done(true);
  }

  /** One block onto the tip of a view. */
  method ConnectOne(view: CoinsViewCache, b: BlockIndex, a: Answers) returns (r: BC.Verdict)
    requires Linked(b) && HeightInRange(b.height) && GoodUndo(b) && ViewAt(view, b.pprev)
    modifies view.Layers, b`undo
    ensures view.BaseUnchanged()
    ensures GoodUndo(b) && (b.undo != old(b.undo) ==> old(b.undo) == None && a.undoWritten(b.hash))
    ensures r == Decision(a, b, old(b.undo).Some?)
    ensures r.Good? ==> ViewAt(view, b) && view.tip == b && (b.pprev != null ==> b.undo.Some?)
  {
    hide L.ConnectBlock, L.CheckBlock, StateOf, L.ValidUtxo, WornSet, WornUndos, UndosStored, StoredUndos;
    if !a.block(b.hash) { return BC.Broken; }
    ghost var u := view.Flat();
    StateOfIsValid(b.pprev);
    WornValid(u, StateOf(b.pprev).value.utxo);
    if b.pprev == null {
      StateOfRoot(b);
      StateBeforeRoot();
    } else {
      ConnectsToChild(b, u);
      ConnectsOrBreaks(b, u);
    }
    r := BC.ConnectBlock(view, b, a.verdict(b.hash), a.threads(b.hash), a.undoWritten(b.hash), a.indexWritten(b.hash));
  }

  /** On the worn set of its parent a block connects if and only if it breaks no rule. */
  lemma ConnectsOrBreaks(b: BlockIndex, u: L.Utxo)
    requires Linked(b) && b.pprev != null && StateOf(b.pprev).Some? && WornSet(u, StateOf(b.pprev).value.utxo)
    requires HeightInRange(b.height)
    ensures BC.Connects(u, b) <==> !BreaksRule(b)
  {
    hide L.ConnectBlock, StateOf, WornSet;
    StateOfChild(b);
    if L.CheckBlock(b.link.block) {
      WornConnectBlock(b.link.rules, u, StateOf(b.pprev).value.utxo, b.link.block, b.height);
    }
  }

  lemma StateBeforeRoot()
    ensures StateOf(null) == Some(L.Connected(map[], [], 0))
  {
  }

  /** Whatever connects to the worn set of the parent gives the state of the block, with good undo data. */
  lemma ConnectsToChild(b: BlockIndex, u: L.Utxo)
    requires Linked(b) && b.pprev != null && StateOf(b.pprev).Some? && WornSet(u, StateOf(b.pprev).value.utxo)
    ensures forall u', undo :: BC.ConnectsTo(u, b, u', undo) ==>
              && StateOf(b).Some? && WornSet(u', StateOf(b).value.utxo)
              && WornUndos(StoredUndos(undo), StateOf(b).value.undo) && UndosStored(StoredUndos(undo))
  {
    hide L.ConnectBlock, L.CheckBlock, StateOf, WornSet, WornUndos, UndosStored, StoredUndos;
    forall u', undo | BC.ConnectsTo(u, b, u', undo)
      ensures StateOf(b).Some? && WornSet(u', StateOf(b).value.utxo)
      ensures WornUndos(StoredUndos(undo), StateOf(b).value.undo) && UndosStored(StoredUndos(undo))
    {
      WornStateOfChild(b, u);
    }
  }

  /** v runs upward from just above fork, each block the parent of the next. */
  ghost predicate UpFrom(v: seq<BlockIndex>, fork: BlockIndex?)
  {
    && (v != [] ==> v[0].pprev == fork)
    && (forall i, j :: 0 <= i < |v| && 0 <= j < |v| && j == i + 1 ==> v[j].pprev == v[i])
  }

  /** v is the path of top from a height on. */
  ghost predicate Climbs(v: seq<BlockIndex>, top: BlockIndex, from: nat)
    requires Linked(top)
  {
    |v| == top.height + 1 - from && forall i :: 0 <= i < |v| ==> v[i] == Path(top)[from + i]
  }

  /** v runs downward and ends just above fork. */
  ghost predicate DownTo(v: seq<BlockIndex>, fork: BlockIndex?)
  {
    && (v != [] ==> v[|v| - 1].pprev == fork)
    && (forall i, j :: 0 <= i < |v| && 0 <= j < |v| && j == i + 1 ==> v[i].pprev == v[j])
  }

  /**
   What SetBestChain works out before it touches anything: the last common block, the blocks to disconnect from the tip
   down, and the blocks to connect from the fork up.
   */
  method Plan(tip: BlockIndex?, pindexNew: BlockIndex)
    returns (fork: BlockIndex?, down: seq<BlockIndex>, up: seq<BlockIndex>)
    requires Linked(pindexNew)
    requires tip != null ==> Linked(tip) && Path(tip)[0] == Path(pindexNew)[0]
    ensures tip == null <==> fork == null
    ensures tip != null ==> IsFork(fork, tip, pindexNew)
    ensures DownTo(down, fork) && tip == (if down == [] then fork else down[0])
    ensures UpFrom(up, fork) && pindexNew == (if up == [] then fork else up[|up| - 1])
    ensures forall b :: b in down ==> b.height <= tip.height && IsAncestor(b, tip) && b.height > fork.height
    ensures tip != null ==>
              |down| == tip.height - fork.height && forall i :: 0 <= i < |down| ==> down[i] == Path(tip)[tip.height - i]
    ensures forall b :: b in up ==> IsAncestor(b, pindexNew) && (tip != null ==> !IsAncestor(b, tip))
    ensures Climbs(up, pindexNew, if fork == null then 0 else fork.height + 1)
    ensures forall k :: 0 <= k <= pindexNew.height && (fork == null || k > fork.height) ==> Path(pindexNew)[k] in up
  {
    fork := FindFork(tip, pindexNew);
    down := Downward(tip, fork);
    var rev := Downward(pindexNew, fork);
    up := Reversed(rev);
    if tip != null {
      BranchShape(tip, down, fork);
      BranchesDisjoint(tip, pindexNew, fork, rev);
    }
    BranchShape(pindexNew, rev, fork);
    hide DownTo, UpFrom, IsAncestor, Climbs, Path, IsFork;
    UpCovers(pindexNew, rev, up, if fork == null then 0 else fork.height + 1);
  }

  /** A block that a switch takes off the active chain. */
  ghost predicate OldBranch(tip: BlockIndex?, pindexNew: BlockIndex, b: BlockIndex)
    requires (tip != null ==> Linked(tip)) && Linked(pindexNew)
  {
    tip != null && IsAncestor(b, tip) && !IsAncestor(b, pindexNew)
  }

  /** A block that it puts on. */
  ghost predicate NewBranch(tip: BlockIndex?, pindexNew: BlockIndex, b: BlockIndex)
    requires (tip != null ==> Linked(tip)) && Linked(pindexNew)
  {
    IsAncestor(b, pindexNew) && (tip == null || !IsAncestor(b, tip))
  }

  /**
   The blocks to connect are the ancestors of the new block that are none of the tip, in the order of their heights.
   */
  lemma UpIsBranch(tip: BlockIndex?, pindexNew: BlockIndex, fork: BlockIndex?, up: seq<BlockIndex>)
    requires Linked(pindexNew) && (tip == null <==> fork == null)
    requires tip != null ==> Linked(tip) && IsFork(fork, tip, pindexNew)
    requires Climbs(up, pindexNew, if fork == null then 0 else fork.height + 1)
    ensures forall b :: NewBranch(tip, pindexNew, b) ==> b in up
    ensures forall i, j :: 0 <= i < j < |up| ==> up[i].height < up[j].height
  {
    var from := if fork == null then 0 else fork.height + 1;
    forall b | NewBranch(tip, pindexNew, b) ensures b in up {
      if tip != null && b.height <= fork.height {
        AncestorPath(fork, tip);
        AncestorPath(fork, pindexNew);
      }
      assert up[b.height - from] == b;
    }
  }

  /** The blocks to disconnect are the ancestors of the tip that are none of the new block. */
  lemma DownIsBranch(tip: BlockIndex, pindexNew: BlockIndex, fork: BlockIndex, down: seq<BlockIndex>)
    requires Linked(tip) && Linked(pindexNew) && IsFork(fork, tip, pindexNew)
    requires |down| == tip.height - fork.height && forall i :: 0 <= i < |down| ==> down[i] == Path(tip)[tip.height - i]
    ensures forall b :: b in down ==> IsAncestor(b, tip) && !IsAncestor(b, pindexNew)
  {
    forall b | b in down ensures IsAncestor(b, tip) && !IsAncestor(b, pindexNew) {
      var i :| 0 <= i < |down| && down[i] == b;
      var k := tip.height - i;
      assert fork.height < k <= tip.height && Path(tip)[k] == b && b.height == k;
    }
  }

  lemma BranchIsDown(tip: BlockIndex, pindexNew: BlockIndex, fork: BlockIndex, down: seq<BlockIndex>, b: BlockIndex)
    requires Linked(tip) && Linked(pindexNew) && IsFork(fork, tip, pindexNew)
    requires |down| == tip.height - fork.height && forall i :: 0 <= i < |down| ==> down[i] == Path(tip)[tip.height - i]
    requires IsAncestor(b, tip) && !IsAncestor(b, pindexNew)
    ensures b in down
  {
    if b.height <= fork.height {
      AncestorPath(fork, tip);
      AncestorPath(fork, pindexNew);
    }
    assert down[tip.height - b.height] == b;
  }

  /** A transaction of a block above b on the path of a tip has the id. */
  ghost predicate UsedAbove(tip: BlockIndex, b: BlockIndex, t: Txid)
    requires Linked(tip)
  {
    exists k :: b.height < k <= tip.height && t in LI.Txids(Path(tip)[k].link.block.vtx)
  }

  lemma AboveIsReused(tip: BlockIndex, fork: BlockIndex, down: seq<BlockIndex>, i: nat, t: Txid)
    requires Linked(tip) && |down| == tip.height - fork.height && i < |down|
    requires forall j :: 0 <= j < |down| ==> down[j] == Path(tip)[tip.height - j]
    ensures UsedAbove(tip, down[i], t) <==> Reused(down, i, t)
  {
    assert Path(tip)[tip.height - i].height == tip.height - i;
    if UsedAbove(tip, down[i], t) {
      var k :| down[i].height < k <= tip.height && t in LI.Txids(Path(tip)[k].link.block.vtx);
      assert down[tip.height - k] == Path(tip)[k];
    }
    if Reused(down, i, t) {
      var j :| 0 <= j < i && t in LI.Txids(down[j].link.block.vtx);
      assert down[j] == Path(tip)[tip.height - j];
    }
  }

  lemma BranchesDisjoint(tip: BlockIndex, pindexNew: BlockIndex, fork: BlockIndex, rev: seq<BlockIndex>)
    requires Linked(tip) && Linked(pindexNew) && IsFork(fork, tip, pindexNew)
    requires |rev| == pindexNew.height - fork.height
    requires forall i :: 0 <= i < |rev| ==> rev[i] == Path(pindexNew)[pindexNew.height - i]
    ensures forall b :: b in Reversed(rev) ==> !IsAncestor(b, tip)
  {
    forall b | b in Reversed(rev)
      ensures !IsAncestor(b, tip)
    {
      assert fork.height < b.height && Path(pindexNew)[b.height] == b;
    }
  }

  lemma BranchShape(tip: BlockIndex, rev: seq<BlockIndex>, fork: BlockIndex?)
    requires Linked(tip) && (fork != null ==> IsAncestor(fork, tip))
    requires |rev| == tip.height + 1 - (if fork == null then 0 else fork.height + 1)
    requires forall i :: 0 <= i < |rev| ==> rev[i] == Path(tip)[tip.height - i]
    ensures DownTo(rev, fork) && UpFrom(Reversed(rev), fork)
    ensures tip == if rev == [] then fork else rev[0]
    ensures forall b :: b in rev ==>
              IsAncestor(b, tip) && b.height <= tip.height && (fork != null ==> b.height > fork.height)
  {
    if rev != [] {
      assert rev[|rev| - 1] == Path(tip)[if fork == null then 0 else fork.height + 1];
    }
  }

  lemma UpCovers(tip: BlockIndex, rev: seq<BlockIndex>, up: seq<BlockIndex>, from: nat)
    requires Linked(tip) && from <= tip.height + 1 && |rev| == tip.height + 1 - from && up == Reversed(rev)
    requires forall i :: 0 <= i < |rev| ==> rev[i] == Path(tip)[tip.height - i]
    ensures Climbs(up, tip, from) && forall k :: from <= k <= tip.height ==> Path(tip)[k] in up
  {
    forall i | 0 <= i < |up| ensures up[i] == Path(tip)[from + i] {
      assert rev[|rev| - 1 - i] == Path(tip)[tip.height - (|rev| - 1 - i)];
    }
    forall k | from <= k <= tip.height
      ensures Path(tip)[k] in up
    {
      assert rev[tip.height - k] == Path(tip)[k];
      assert up[k - from] == rev[tip.height - k];
    }
  }

  /** An id is that of a transaction of the first i blocks of a branch. */
  ghost predicate Reused(v: seq<BlockIndex>, i: nat, t: Txid)
    requires i <= |v|
  {
    exists j :: 0 <= j < i && t in LI.Txids(v[j].link.block.vtx)
  }

  /** Every transaction of a block with a negative version has that version in the set, and none above has its id. */
  ghost predicate IntactAt(u: L.Utxo, v: seq<BlockIndex>, i: nat)
    requires i < |v|
  {
    var vtx := v[i].link.block.vtx;
    forall k :: 0 <= k < |vtx| && vtx[k].version < 0 ==>
        Has(u, vtx[k].txid, vtx[k].version) && !Reused(v, i, vtx[k].txid)
  }

  ghost predicate IntactBranch(u: L.Utxo, v: seq<BlockIndex>) { forall i :: 0 <= i < |v| ==> IntactAt(u, v, i) }

  /** What a part of a branch leaves of negative versions. */
  ghost predicate LeftBy(u: L.Utxo, v: seq<BlockIndex>, i: nat, w: L.Utxo)
    requires i <= |v|
  {
    forall t, version :: version < 0 ==> (Has(w, t, version) <==> Has(u, t, version) && !Reused(v, i, t))
  }

  lemma LeftByNone(u: L.Utxo, v: seq<BlockIndex>)
    ensures LeftBy(u, v, 0, u)
  {
  }

  lemma LeftByNext(u: L.Utxo, v: seq<BlockIndex>, i: nat, w: L.Utxo, x: L.Utxo)
    requires i < |v| && LeftBy(u, v, i, w) && VersionsLeft(w, v[i].link.block.vtx, x)
    ensures LeftBy(u, v, i + 1, x)
  {
    hide Has;
    forall t ensures Reused(v, i + 1, t) <==> Reused(v, i, t) || t in LI.Txids(v[i].link.block.vtx) {
    }
  }

  lemma IntactHere(u: L.Utxo, v: seq<BlockIndex>, i: nat, w: L.Utxo)
    requires i < |v| && LeftBy(u, v, i, w)
    ensures AllIntact(w, v[i].link.block.vtx) <==> IntactAt(u, v, i)
  {
    hide Has, Reused;
    var vtx := v[i].link.block.vtx;
    if IntactAt(u, v, i) {
      forall k | 0 <= k < |vtx| ensures Intact(w, vtx[k]) {
      }
    }
    if AllIntact(w, vtx) {
      forall k | 0 <= k < |vtx| && vtx[k].version < 0 ensures Has(w, vtx[k].txid, vtx[k].version) {
        assert Intact(w, vtx[k]);
      }
    }
  }

  /** Disconnect the shorter branch, tip first; readable says whether every block asked for could be read. */
  method DisconnectBranch(view: CoinsViewCache, v: seq<BlockIndex>, a: Answers, ghost fork: BlockIndex?)
    returns (ok: bool, readable: bool)
    requires fork != null ==> Linked(fork)
    requires DownTo(v, fork)
    requires forall b :: b in v ==>
               Linked(b) && b.pprev != null && b.link.rules.enforceBip30 && GoodUndo(b) && b.undo.Some?
    requires view.Valid() && ViewAt(view, if v == [] then fork else v[0])
    requires view.tip == if v == [] then fork else v[0]
    modifies view.Layers
    ensures view.BaseUnchanged()
    ensures ok ==> ViewAt(view, fork) && view.tip == fork
    ensures ok <==> (forall b :: b in v ==> a.block(b.hash) && a.undo(b.hash)) && IntactBranch(old(view.Flat()), v)
    ensures !readable ==> exists b :: b in v && !a.block(b.hash)
    ensures IntactBranch(old(view.Flat()), v) && (forall b :: b in v ==> a.undo(b.hash)) ==> (ok <==> readable)
  {
    hide ViewAt, GoodUndo, AllIntact, VersionsLeft, IntactAt, LeftBy;
    ghost var u := view.Flat();
    LeftByNone(u, v);
    readable := true;
    for i := 0 to |v|
      invariant view.Valid() && view.BaseUnchanged() && readable
      invariant view.tip == if i < |v| then v[i] else fork
      invariant ViewAt(view, if i < |v| then v[i] else fork)
      invariant LeftBy(u, v, i, view.Flat())
      invariant forall j :: 0 <= j < i ==> IntactAt(u, v, j) && a.block(v[j].hash) && a.undo(v[j].hash)
    {
      ghost var w := view.Flat();
      IntactHere(u, v, i, w);
      ok := DisconnectOne(view, v[i], a);
      if !ok { return false, a.block(v[i].hash); }
      LeftByNext(u, v, i, w, view.Flat());
    }
    ok := true;
  }

  /** All blocks of a branch up to the k-th connect. */
  ghost predicate GoodUpTo(a: Answers, v: seq<BlockIndex>, stored: set<BlockIndex>, k: nat)
    requires k <= |v| && forall b :: b in v ==> Linked(b)
  {
    forall j :: 0 <= j < k ==> Decision(a, v[j], v[j] in stored).Good?
  }

  /** The first block of a branch that does not connect, and why. */
  ghost predicate StopsAt(
      a: Answers, v: seq<BlockIndex>, stored: set<BlockIndex>, k: nat, r: BC.Verdict, at: BlockIndex?)
    requires forall b :: b in v ==> Linked(b)
  {
    k < |v| && at == v[k] && !r.Good? && Decision(a, v[k], v[k] in stored) == r && GoodUpTo(a, v, stored, k)
  }

  /** Undo data are right; they are only added, and only if the disk takes them. */
  twostate predicate UndoAdded(index: set<BlockIndex>, new a: Answers)
    requires forall b :: b in index ==> Linked(b)
    reads index`undo
  {
    forall b :: b in index ==> GoodUndo(b) && (b.undo != old(b.undo) ==> old(b.undo) == None && a.undoWritten(b.hash))
  }

  /** Connect the longer branch, lowest block first; at is the block that it stopped at. */
  method ConnectBranch(
      view: CoinsViewCache, v: seq<BlockIndex>, a: Answers, ghost fork: BlockIndex?, ghost index: set<BlockIndex>,
      ghost stored: set<BlockIndex>)
    returns (r: BC.Verdict, at: BlockIndex?)
    requires fork != null ==> Linked(fork)
    requires UpFrom(v, fork)
    requires forall b :: b in v ==> b in index && HeightInRange(b.height)
    requires forall b :: b in index ==> Linked(b) && GoodUndo(b) && (b in stored <==> b.undo.Some?)
    requires view.Valid() && ViewAt(view, fork) && view.tip == fork
    modifies view.Layers, index`undo
    ensures view.BaseUnchanged() && UndoAdded(index, a)
    ensures r.Good? ==> ViewAt(view, if v == [] then fork else v[|v| - 1])
    ensures r.Good? ==> view.tip == if v == [] then fork else v[|v| - 1]
    ensures r.Good? ==> forall b :: b in v && b.pprev != null ==> b.undo.Some?
    ensures r.Good? ==> GoodUpTo(a, v, stored, |v|)
    ensures !r.Good? ==> exists k :: StopsAt(a, v, stored, k, r, at)
  {
    hide ViewAt, GoodUndo, Decision;
    at := null;
    for i := 0 to |v|
      invariant view.Valid() && view.BaseUnchanged() && UndoAdded(index, a)
      invariant ViewAt(view, if i == 0 then fork else v[i - 1])
      invariant view.tip == if i == 0 then fork else v[i - 1]
      invariant forall j :: 0 <= j < i && v[j].pprev != null ==> v[j].undo.Some?
      invariant GoodUpTo(a, v, stored, i)
    {
      DecisionKept(a, v[i], v[i] in stored);
      r := ConnectOne(view, v[i], a);
      if !r.Good? {
        assert StopsAt(a, v, stored, i, r, v[i]);
        return r, v[i];
      }
    }
    r := BC.Good;
  }

  /** Undo data that could be written do not change what becomes of a block. */
  lemma DecisionKept(a: Answers, b: BlockIndex, stored: bool)
    requires Linked(b)
    ensures a.undoWritten(b.hash) ==> Decision(a, b, stored) == Decision(a, b, true) == Decision(a, b, false)
  {
  }

  /** Cut the successor links of the shorter branch, then set those of the longer one. */
  method Relink(down: seq<BlockIndex>, up: seq<BlockIndex>, ghost tip: BlockIndex?, ghost fork: BlockIndex?,
                ghost newTip: BlockIndex?, ghost index: set<BlockIndex>)
    requires tip != null ==> Linked(tip)
    requires fork != null ==> Linked(fork)
    requires DownTo(down, fork) && UpFrom(up, fork)
    requires tip == (if down == [] then fork else down[0]) && newTip == (if up == [] then fork else up[|up| - 1])
    requires forall b :: b in down || b in up ==> b in index
    requires forall b :: b in index ==> Linked(b) && (b.pprev != null ==> b.pprev in index)
    requires forall b :: b in index ==> b.pnext == NextOn(tip, b)
    requires newTip != null ==> Linked(newTip)
    modifies index`pnext
    ensures forall b :: b in index ==> b.pnext == NextOn(newTip, b)
  {
    hide NextOn;
    for i := 0 to |down|
      invariant forall b :: b in index ==> b.pnext == NextOn(if i < |down| then down[i] else fork, b)
    {
      NextOnChildren(down[i], index);
      NextOnTip(down[i].pprev);
      if down[i].pprev != null {
        down[i].pprev.pnext := null;
      }
    }
    for i := 0 to |up|
      invariant forall b :: b in index ==> b.pnext == NextOn(if i == 0 then fork else up[i - 1], b)
    {
      NextOnChildren(up[i], index);
      if up[i].pprev != null {
        up[i].pprev.pnext := up[i];
      }
    }
  }

  lemma NextOnChildren(tip: BlockIndex, index: set<BlockIndex>)
    requires Linked(tip)
    ensures forall b :: b in index ==> NextOn(tip, b) == if b == tip.pprev then tip else NextOn(tip.pprev, b)
  {
    hide NextOn;
    forall b | b in index {
      NextOnChild(tip, b);
    }
  }

  lemma NextOnTip(tip: BlockIndex?)
    requires tip != null ==> Linked(tip)
    ensures tip != null ==> NextOn(tip, tip) == null
  {
  }
}
