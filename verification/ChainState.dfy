/**
 The chain state of the node: block index, candidate set, active chain and coin view, and the operations that move the
 tip (src/main.cpp:1024-1039, 1393-1455, 1909-2112).

 What disk and checks outside the model answer, and when the node is asked to stop, are arbitrary parameters.
 */
module ChainState {
  import Arith
  import opened Coins
  import L = Ledger
  import opened LedgerRuns
  import opened BlockTree
  import opened ChainTree
  import opened ChainSwitch
  import opened CoinsView
  import opened Wear
  import Compact
  import Retarget
  import BC = BlockConnection

  datatype Switch = Switched | Refused | Interrupted

  predicate Failed(b: BlockIndex)
    reads b`failedValid, b`failedChild
  {
    b.failedValid || b.failedChild
  }

  /** What an index entry is built with: a path down to genesis, growing work, and rules that enforce BIP 30. */
  ghost predicate EntryOk(b: BlockIndex, genesis: BlockIndex?)
  {
    Linked(b) && Path(b)[0] == genesis && HeightInRange(b.height) && b.link.rules.enforceBip30
  }

  lemma EntryOfChild(b: BlockIndex, genesis: BlockIndex?)
    requires Linked(b) && HeightInRange(b.height) && b.link.rules.enforceBip30
    requires if b.pprev == null then genesis == b else EntryOk(b.pprev, genesis)
    ensures EntryOk(b, genesis)
  {
  }

  /** Every block of a list has more work than the ones before it. */
  ghost predicate WorkRises(blocks: seq<BlockIndex>)
  {
    forall i, j :: 0 <= i < j < |blocks| ==> blocks[i].chainWork < blocks[j].chainWork
  }

  lemma NothingRises()
    ensures WorkRises([])
  {
  }

  lemma RisesFrom(first: BlockIndex, blocks: seq<BlockIndex>)
    requires WorkRises(blocks) && forall b :: b in blocks ==> b.chainWork > first.chainWork
    ensures WorkRises([first] + blocks)
  {
  }

  class Chain {
    const coins: CoinsViewCache
    var index: set<BlockIndex>
    var candidates: set<BlockIndex>
    var genesis: BlockIndex?
    var best: BlockIndex?
    var findLast: BlockIndex?
    var shutdown: bool

    /** By hash, the blocks that a check outside the model objects to at some time. */
    ghost const objectionable: nat -> bool

    /** The block index is one tree of checked blocks with growing work. */
    ghost predicate TreeOk()
      reads `index, `genesis, `best
    {
      && (forall b :: b in index ==> EntryOk(b, genesis) && (b.pprev != null ==> b.pprev in index))
      && (index != {} ==> genesis != null && genesis in index)
      && (best != null ==> best in index)
    }

    /** The candidates are the blocks that are not marked failed. */
    ghost predicate CandidatesOk()
      reads `index, `candidates, index`failedValid, index`failedChild
    {
      candidates <= index && forall b :: b in index ==> (b in candidates <==> !Failed(b))
    }

    /** A block is marked failed only if it breaks a rule or lies above one that is. */
    ghost predicate MarksOk()
      requires TreeOk()
      reads `index, `genesis, `best, index`failedValid, index`failedChild
    {
      forall b :: b in index ==>
        && (b.failedValid ==> objectionable(b.hash) || BreaksRule(b))
        && (b.failedChild ==> AboveFailed(b))
    }

    ghost predicate AboveFailed(b: BlockIndex)
      requires Linked(b)
      reads `index, index`failedValid
    {
      exists p :: p in index && p.height < b.height && IsAncestor(p, b) && p.failedValid
    }

    /** Only objectionable blocks are objected to. */
    ghost predicate Honest(a: Answers) { forall h: nat :: a.verdict(h).Bad? ==> objectionable(h) }

    /** Stored undo data are right, and every block of the active chain above genesis has them. */
    ghost predicate UndoOk()
      requires TreeOk()
      reads `index, `genesis, `best, index`undo
    {
      && (forall b :: b in index ==> GoodUndo(b))
      && StateOf(best).Some?
      && (best != null ==> forall k :: 0 < k <= best.height ==> Path(best)[k] in index && Path(best)[k].undo.Some?)
    }

    /** Successor links run exactly along the active chain. */
    ghost predicate LinksOk(tip: BlockIndex?)
      requires tip != null ==> Linked(tip)
      reads `index, index`pnext
    {
      forall b :: b in index ==> b.pnext == NextOn(tip, b)
    }

    ghost predicate FindOk()
      requires TreeOk()
      reads `index, `genesis, `best, `findLast
    {
      findLast != null ==> best != null && IsAncestor(findLast, best)
    }

    ghost predicate CoinsShape()
    {
      coins.Valid() && coins.base.Disk? && coins.Layers == {coins}
    }

    /** The coin view stands for the replay of the active chain. */
    ghost predicate CoinsOk()
      requires TreeOk() && CoinsShape()
      reads `index, `genesis, `best, coins, coins.Db
    {
      ViewAt(coins, best)
    }

    /** Everything but the coin view, which lags behind when a write to disk failed and the node is going down. */
    ghost predicate Sound()
      reads `index, `candidates, `genesis, `best, `findLast, index
    {
      TreeOk() && CandidatesOk() && MarksOk() && UndoOk() && LinksOk(best) && FindOk() && CoinsShape()
    }

    ghost predicate Valid()
      reads this, index, coins, coins.Db
    {
      Sound() && (!shutdown ==> CoinsOk())
    }

    constructor (coins: CoinsViewCache, ghost objectionable: nat -> bool)
      requires coins.Valid() && coins.base.Disk? && coins.Layers == {coins}
      requires coins.Flat() == map[] && coins.Best() == null
      ensures Valid() && this.coins == coins && this.objectionable == objectionable && index == {} && best == null
      ensures !shutdown
    {
      this.coins, this.objectionable := coins, objectionable;
      index, candidates := {}, {};
      genesis, best, findLast, shutdown := null, null, null, false;
    }

    /** On the active chain means ancestor of the best block. */
    predicate IsInMainChain(b: BlockIndex)
      reads this, b
    {
      b.pnext != null || b == best
    }

    lemma MainChainIsBestPath(b: BlockIndex)
      requires Sound() && b in index
      ensures IsInMainChain(b) <==> best != null && IsAncestor(b, best)
    {
    }

    /** FindBlockByHeight with its remembered starting point finds the one active block of that height. */
    method FindBlockByHeight(height: nat) returns (b: BlockIndex)
      requires Valid() && best != null && height <= best.height
      modifies this`findLast
      ensures Valid()
      ensures b == Path(best)[height]
    {
      hide TreeOk, UndoOk, CandidatesOk, CoinsOk, LinksOk, CoinsShape;
      var p := StartNear(height);
      b := WalkTo(p, height);
      findLast := b;
    }

    /** Genesis, best block or the block found last, whichever rule picks it. */
    method StartNear(height: nat) returns (p: BlockIndex)
      requires TreeOk() && FindOk() && best != null
      ensures IsAncestor(p, best)
    {
      p := if height < best.height / 2 then genesis else best;
      if findLast != null && Abs(height - p.height) > Abs(height - findLast.height) {
        p := findLast;
      }
    }

    /** Down parent links, then up successor links. */
    method WalkTo(start: BlockIndex, height: nat) returns (p: BlockIndex)
      requires TreeOk() && LinksOk(best) && best != null && height <= best.height && IsAncestor(start, best)
      ensures p == Path(best)[height] && IsAncestor(p, best)
    {
      hide TreeOk, LinksOk, NextOn, IsAncestor;
      BestFacts();
      p := start;
      while p.height > height
        invariant IsAncestor(p, best)
      {
        OnSamePath(p, genesis, best);
        ParentOnPath(p, best);
        p := p.pprev;
      }
      while p.height < height
        invariant IsAncestor(p, best) && p.height <= height
        decreases height - p.height
      {
        LinkUp(p);
        NextOnPath(best, p);
        p := p.pnext;
      }
      OnPath(p);
    }

    lemma BestFacts()
      requires TreeOk() && best != null
      ensures Linked(best) && genesis != null && genesis.height == 0 && IsAncestor(genesis, best)
    {
    }

    lemma LinkUp(p: BlockIndex)
      requires TreeOk() && best != null && LinksOk(best) && IsAncestor(p, best)
      ensures p.pnext == NextOn(best, p)
    {
      hide NextOn;
      PathInIndex(best, p.height);
    }

    lemma OnPath(p: BlockIndex)
      requires best != null && Linked(best) && IsAncestor(p, best)
      ensures p.height <= best.height && p == Path(best)[p.height]
    {
    }

    lemma {:induction false} PathInIndex(b: BlockIndex, k: nat)
      requires TreeOk() && b in index && k <= b.height
      ensures Path(b)[k] in index
      decreases b.height
    {
      if k < b.height {
        PathInIndex(b.pprev, k);
      }
    }

    // ----- switching to another tip -----

    /** Mark a block that broke a rule; off the active chain, as it always is, nothing has to be reorganised. */
    method InvalidBlockFound(b: BlockIndex)
      requires CandidatesOk() && b in index && b.pnext == null
      modifies this`candidates, b`failedValid
      ensures CandidatesOk() && b.failedValid
    {
      b.failedValid := true;
      candidates := candidates - {b};
    }

    /** The plan in terms of this chain, and the room it leaves. */
    ghost predicate Planned(
        tip: BlockIndex?, pindexNew: BlockIndex, fork: BlockIndex?, down: seq<BlockIndex>, up: seq<BlockIndex>)
      reads `index
    {
      && (fork != null ==> Linked(fork))
      && DownTo(down, fork) && tip == (if down == [] then fork else down[0])
      && UpFrom(up, fork) && pindexNew == (if up == [] then fork else up[|up| - 1])
      && (forall b :: b in down ==> b in index)
      && (forall b :: b in up ==> b in index)
      && (fork == null <==> tip == null)
      && (tip != null ==> Linked(tip) && IsAncestor(fork, tip))
      && Linked(pindexNew) && (fork != null ==> IsAncestor(fork, pindexNew))
      && (forall k :: 0 <= k <= pindexNew.height && (fork == null || k > fork.height) ==> Path(pindexNew)[k] in up)
      && (forall b :: b in index ==> (b in down <==> OldBranch(tip, pindexNew, b)))
      && (forall b :: b in index ==> (b in up <==> NewBranch(tip, pindexNew, b)))
      && (forall i, j :: 0 <= i < j < |up| ==> up[i].height < up[j].height)
    }

    /**
     Every transaction with a negative version, in a block that a switch would take off the active chain, has that
     version in the set, and no block above it has a transaction with the same id.
     */
    ghost predicate Reversible(u: L.Utxo, tip: BlockIndex?, pindexNew: BlockIndex)
      requires tip != null ==> Linked(tip)
      requires Linked(pindexNew)
      reads `index
    {
      forall b :: b in index && OldBranch(tip, pindexNew, b) ==>
        forall k :: 0 <= k < |b.link.block.vtx| && b.link.block.vtx[k].version < 0 ==>
          && Has(u, b.link.block.vtx[k].txid, b.link.block.vtx[k].version)
          && !UsedAbove(tip, b, b.link.block.vtx[k].txid)
    }

    /** The disk answers for every block that a switch takes off, and those blocks can be taken off. */
    ghost predicate Removable(a: Answers, u: L.Utxo, tip: BlockIndex?, pindexNew: BlockIndex)
      requires tip != null ==> Linked(tip)
      requires Linked(pindexNew)
      reads `index
    {
      && Reversible(u, tip, pindexNew)
      && forall b :: b in index && OldBranch(tip, pindexNew, b) ==> a.block(b.hash) && a.undo(b.hash)
    }

    /** Every block that a switch puts on passes and connects. */
    ghost predicate Addable(a: Answers, stored: set<BlockIndex>, tip: BlockIndex?, pindexNew: BlockIndex)
      requires TreeOk() && (tip != null ==> Linked(tip)) && Linked(pindexNew)
      reads `index, `genesis, `best
    {
      forall b :: b in index && NewBranch(tip, pindexNew, b) ==> Decision(a, b, b in stored).Good?
    }

    /** Blocks with undo data. */
    ghost function Stored(): set<BlockIndex>
      reads `index, index`undo
    {
      set b | b in index && b.undo.Some?
    }

    /** Everything that a switch from one tip to another asks for is answered favourably. */
    ghost predicate Accepts(a: Answers, u: L.Utxo, stored: set<BlockIndex>, tip: BlockIndex?, pindexNew: BlockIndex)
      requires TreeOk() && (tip != null ==> Linked(tip)) && Linked(pindexNew)
      reads `index, `genesis, `best
    {
      Removable(a, u, tip, pindexNew) && Addable(a, stored, tip, pindexNew) && a.Flushes()
    }

    /** The block that a switch stops at because a rule is broken: the lowest one that does not connect. */
    ghost predicate Offends(
        a: Answers, u: L.Utxo, stored: set<BlockIndex>, tip: BlockIndex?, pindexNew: BlockIndex, b: BlockIndex)
      requires TreeOk() && (tip != null ==> Linked(tip)) && Linked(pindexNew)
      reads `index, `genesis, `best
    {
      && Removable(a, u, tip, pindexNew) && b in index && NewBranch(tip, pindexNew, b) &&
         Decision(a, b, b in stored).Bad?
      && forall c :: c in index && NewBranch(tip, pindexNew, c) && c.height < b.height ==>
           Decision(a, c, c in stored).Good?
    }

    /** Once the coins have been to disk, this means that those blocks have no negative versions at all. */
    lemma ReversibleWhenStored(u: L.Utxo, tip: BlockIndex, pindexNew: BlockIndex)
      requires Linked(tip) && Linked(pindexNew) && AllStored(u)
      ensures Reversible(u, tip, pindexNew) <==>
              forall b :: b in index && OldBranch(tip, pindexNew, b) ==> NoNegativeVersion(b.link.block.vtx)
    {
      hide OldBranch;
      forall t, version: int | version < 0 ensures !Has(u, t, version) {
      }
    }

    lemma ReversibleIsBranch(
        u: L.Utxo, tip: BlockIndex?, pindexNew: BlockIndex, fork: BlockIndex?, down: seq<BlockIndex>)
      requires Linked(pindexNew) && (forall b :: b in down ==> b in index) && (tip == null ==> down == [])
      requires tip != null ==>
        && Linked(tip) && fork != null && IsFork(fork, tip, pindexNew) && |down| == tip.height - fork.height
        && forall i :: 0 <= i < |down| ==> down[i] == Path(tip)[tip.height - i]
      ensures Reversible(u, tip, pindexNew) <==> IntactBranch(u, down)
      ensures forall b :: b in index ==> (b in down <==> OldBranch(tip, pindexNew, b))
    {
      hide IsAncestor, Path, Has, IsFork, UsedAbove, Reused;
      if tip != null {
        DownIsBranch(tip, pindexNew, fork, down);
        forall b | OldBranch(tip, pindexNew, b) ensures b in down {
          BranchIsDown(tip, pindexNew, fork, down, b);
        }
        forall i: nat, t | i < |down| ensures UsedAbove(tip, down[i], t) <==> Reused(down, i, t) {
          AboveIsReused(tip, fork, down, i, t);
        }
        if Reversible(u, tip, pindexNew) {
          forall i | 0 <= i < |down| ensures IntactAt(u, down, i) {
            assert down[i] in down;
          }
        }
        if IntactBranch(u, down) {
          forall b | b in down
            ensures forall k :: 0 <= k < |b.link.block.vtx| && b.link.block.vtx[k].version < 0 ==>
                      && Has(u, b.link.block.vtx[k].txid, b.link.block.vtx[k].version)
                      && !UsedAbove(tip, b, b.link.block.vtx[k].txid)
          {
            var i :| 0 <= i < |down| && down[i] == b;
            assert IntactAt(u, down, i);
          }
        }
      }
    }

    /** The planning half of SetBestChain. */
    method PlanSwitch(tip: BlockIndex?, pindexNew: BlockIndex, ghost u: L.Utxo)
      returns (fork: BlockIndex?, down: seq<BlockIndex>, up: seq<BlockIndex>)
      requires TreeOk() && UndoOk() && pindexNew in index && tip == best
      ensures Planned(tip, pindexNew, fork, down, up)
      ensures tip != null ==> fork != null && IsFork(fork, tip, pindexNew)
      ensures forall b :: b in down ==> b.pprev != null && b.undo.Some?
      ensures forall b :: b in up ==> NextOn(best, b) == null
      ensures forall b :: b in index ==> GoodUndo(b)
      ensures Reversible(u, tip, pindexNew) <==> IntactBranch(u, down)
    {
      fork, down, up := Plan(tip, pindexNew);
      forall b | b in down
        ensures b in index && b.pprev != null && b.undo.Some?
      {
        assert Path(best)[b.height] == b && b.height > 0;
        assert Path(best)[b.height - 1] == b.pprev;
      }
      forall b | b in up
        ensures b in index
      {
        PathInIndex(pindexNew, b.height);
      }
      ReversibleIsBranch(u, tip, pindexNew, fork, down);
      UpIsBranch(tip, pindexNew, fork, up);
    }

    /** A fresh cache on top of the coin view. */
    ghost predicate Scratch(view: CoinsViewCache)
      reads view
    {
      view.Valid() && view.base == Layer(coins) && view.Layers == {view, coins} && view.Db == coins.Db
    }

    /** It lies on the coin view as that was before. */
    twostate predicate OnCoins(new view: CoinsViewCache)
      requires coins.Valid() && Scratch(view)
      reads view, view.Layers, view.Db, coins, coins.Layers, coins.Db
    {
      view.BaseFlat() == old(coins.Flat()) && view.BaseBest() == old(coins.Best())
    }

    /** All changes of a switch are made in a cache of their own, which starts out as a copy of the coin view. */
    method OpenScratch() returns (view: CoinsViewCache)
      requires TreeOk() && CoinsShape() && CoinsOk()
      modifies coins
      ensures fresh(view) && Scratch(view) && OnCoins(view)
      ensures ViewAt(view, best) && view.tip == best
      ensures view.Flat() == old(coins.Flat())
    {
      hide StateOf;
      view := new CoinsViewCache(Layer(coins));
      OverlayNothing(coins.Flat());
      assert view.BaseFlat() == coins.Flat() && view.BaseBest() == coins.Best();
      assert view.Flat() == coins.Flat() && view.Best() == coins.Best();
      label created:
      var _ := view.GetBestBlock();
      assert view in view.Layers && view.Flat() == old@created(view.Flat());
    }

    /** Storing right undo data where there were none keeps the undo data right. */
    twostate lemma UndoKept(new a: Answers)
      requires old(TreeOk() && UndoOk()) && unchanged(this)
      requires forall b :: b in index ==> Linked(b)
      requires UndoAdded(index, a)
      ensures UndoOk()
    {
    }

    /**
     The first half of SetBestChain: everything happens in the scratch view.  bad is the block that broke a rule, abort
     says that an error stops the node.
     */
    method TrySwitch(pindexNew: BlockIndex, a: Answers)
      returns (r: BC.Verdict, bad: BlockIndex?, abort: bool, view: CoinsViewCache,
               fork: BlockIndex?, down: seq<BlockIndex>, up: seq<BlockIndex>)
      requires TreeOk() && UndoOk() && LinksOk(best) && CoinsShape() && CoinsOk() && pindexNew in index
      modifies coins, index`undo
      ensures UndoOk() && UndoAdded(index, a)
      ensures fresh(view) && Scratch(view) && OnCoins(view)
      ensures Planned(best, pindexNew, fork, down, up)
      ensures bad != null ==> bad in index && bad.pnext == null
      ensures r.Good? ==> ViewAt(view, pindexNew) && view.tip == pindexNew
      ensures r.Good? ==> forall b :: b in up && b.pprev != null ==> b.undo.Some?
      ensures old(JudgedNow(a, pindexNew, r, bad))
      ensures abort ==> r.Broken? && Aborts(a)
      ensures old(HaltsNow(a, pindexNew, abort))
    {
      hide StateOf, ViewAt, NextOn, GoodUndo, CoinsOk, UndoOk, Path, IsFork, Reversible, IntactBranch, Judged, TreeOk,
        LinksOk, Planned, Aborts, Linked, DownTo, UpFrom, HaltsRightly;
      ghost var u, stored := coins.Flat(), Stored();
      AllLinked();
      view := OpenScratch();
      fork, down, up := PlanSwitch(best, pindexNew, u);
      UpOffChain(pindexNew, fork, down, up);
      r, bad, abort := MoveView(view, pindexNew, fork, down, up, a, u, stored);
      UndoKept(a);
    }

    /** The blocks to connect have no successor on the active chain. */
    lemma UpOffChain(pindexNew: BlockIndex, fork: BlockIndex?, down: seq<BlockIndex>, up: seq<BlockIndex>)
      requires TreeOk() && LinksOk(best) && Planned(best, pindexNew, fork, down, up)
      requires forall b :: b in up ==> NextOn(best, b) == null
      ensures forall b :: b in up ==> b in index && b.pnext == null
    {
      hide NextOn, Linked;
    }

    /** Some answer of the disk stops the node. */
    ghost predicate Aborts(a: Answers)
      reads `index
    {
      exists b :: b in index && (!a.block(b.hash) || a.abort(b.hash))
    }

    /** A switch ends at this block of the new branch, and the answer for it stops the node. */
    ghost predicate HaltsAt(a: Answers, stored: set<BlockIndex>, pindexNew: BlockIndex, b: BlockIndex)
      requires TreeOk() && Linked(pindexNew)
      reads `index, `genesis, `best
    {
      && b in index && NewBranch(best, pindexNew, b) && Decision(a, b, b in stored).Broken?
      && (!a.block(b.hash) || a.abort(b.hash))
      && forall c :: c in index && NewBranch(best, pindexNew, c) && c.height < b.height ==>
           Decision(a, c, c in stored).Good?
    }

    /**
     When a switch that fails stops the node: once the old branch is off, exactly when it ends at such a block; and
     before, when a block of the old branch cannot be read and nothing else is in the way.
     */
    ghost predicate HaltsRightly(
        a: Answers, u: L.Utxo, stored: set<BlockIndex>, pindexNew: BlockIndex, abort: bool)
      requires TreeOk() && Linked(pindexNew)
      reads `index, `genesis, `best
    {
      && (Removable(a, u, best, pindexNew) ==> (abort <==> exists b :: b in index && HaltsAt(a, stored, pindexNew, b)))
      && (!Removable(a, u, best, pindexNew) && Reversible(u, best, pindexNew) && !abort ==>
            exists b :: b in index && OldBranch(best, pindexNew, b) && !a.undo(b.hash))
    }

    ghost predicate HaltsNow(a: Answers, pindexNew: BlockIndex, abort: bool)
      requires TreeOk() && CoinsShape() && pindexNew in index
      reads this, index, coins, coins.Db
    {
      HaltsRightly(a, coins.Flat(), Stored(), pindexNew, abort)
    }

    lemma HaltsBefore(a: Answers, u: L.Utxo, stored: set<BlockIndex>, pindexNew: BlockIndex, down: seq<BlockIndex>,
                      abort: bool)
      requires TreeOk() && Linked(pindexNew) && !Removable(a, u, best, pindexNew)
      requires Reversible(u, best, pindexNew) <==> IntactBranch(u, down)
      requires forall b :: b in index ==> (b in down <==> OldBranch(best, pindexNew, b))
      requires forall b :: b in down ==> b in index
      requires IntactBranch(u, down) && (forall b :: b in down ==> a.undo(b.hash)) ==> abort
      ensures HaltsRightly(a, u, stored, pindexNew, abort)
    {
      hide TreeOk, Linked, Removable, Reversible, IntactBranch, OldBranch, HaltsAt;
    }

    lemma HaltsLater(a: Answers, u: L.Utxo, stored: set<BlockIndex>, pindexNew: BlockIndex, up: seq<BlockIndex>)
      requires TreeOk() && Linked(pindexNew) && Removable(a, u, best, pindexNew)
      requires forall b :: b in up ==> b in index && Linked(b)
      requires forall b :: b in index ==> (b in up <==> NewBranch(best, pindexNew, b))
      requires forall i, j :: 0 <= i < j < |up| ==> up[i].height < up[j].height
      ensures GoodUpTo(a, up, stored, |up|) ==> HaltsRightly(a, u, stored, pindexNew, false)
      ensures forall k, r: BC.Verdict, at :: StopsAt(a, up, stored, k, r, at) ==>
                at != null &&
                  HaltsRightly(a, u, stored, pindexNew, r.Broken? && (!a.block(at.hash) || a.abort(at.hash)))
    {
      hide TreeOk, Linked, Removable, NewBranch, Decision, GoodUpTo, StopsAt, HaltsRightly;
      if GoodUpTo(a, up, stored, |up|) {
        NoneHalts(a, u, stored, pindexNew, up);
      }
      forall k, r: BC.Verdict, at | StopsAt(a, up, stored, k, r, at)
        ensures at != null &&
                  HaltsRightly(a, u, stored, pindexNew, r.Broken? && (!a.block(at.hash) || a.abort(at.hash)))
      {
        OneHalts(a, u, stored, pindexNew, up, k, r, at);
      }
    }

    lemma NoneHalts(a: Answers, u: L.Utxo, stored: set<BlockIndex>, pindexNew: BlockIndex, up: seq<BlockIndex>)
      requires TreeOk() && Linked(pindexNew) && Removable(a, u, best, pindexNew)
      requires forall b :: b in up ==> b in index && Linked(b)
      requires forall b :: b in index ==> (b in up <==> NewBranch(best, pindexNew, b))
      requires GoodUpTo(a, up, stored, |up|)
      ensures HaltsRightly(a, u, stored, pindexNew, false)
    {
      hide TreeOk, Linked, Removable, NewBranch, Decision;
      forall b | b in up ensures Decision(a, b, b in stored).Good? {
        var i :| 0 <= i < |up| && up[i] == b;
      }
    }

    lemma OneHalts(a: Answers, u: L.Utxo, stored: set<BlockIndex>, pindexNew: BlockIndex, up: seq<BlockIndex>, k: nat,
                   r: BC.Verdict, at: BlockIndex?)
      requires TreeOk() && Linked(pindexNew) && Removable(a, u, best, pindexNew)
      requires forall b :: b in up ==> b in index && Linked(b)
      requires forall b :: b in index ==> (b in up <==> NewBranch(best, pindexNew, b))
      requires forall i, j :: 0 <= i < j < |up| ==> up[i].height < up[j].height
      requires StopsAt(a, up, stored, k, r, at)
      ensures at != null
      ensures HaltsRightly(a, u, stored, pindexNew, r.Broken? && (!a.block(at.hash) || a.abort(at.hash)))
    {
      hide TreeOk, Linked, Removable, NewBranch, Decision;
      assert at in up;
      forall c | c in up && c.height < at.height ensures Decision(a, c, c in stored).Good? {
        var i :| 0 <= i < |up| && up[i] == c;
        assert i < k;
      }
      forall b | b in up && b != at && Decision(a, b, b in stored).Broken? ensures b.height > at.height {
        var i :| 0 <= i < |up| && up[i] == b;
      }
      if r.Broken? && (!a.block(at.hash) || a.abort(at.hash)) {
        assert HaltsAt(a, stored, pindexNew, at);
      }
    }

    /** The old branch off the scratch view and the new one onto it. */
    method MoveView(
        view: CoinsViewCache, pindexNew: BlockIndex, fork: BlockIndex?, down: seq<BlockIndex>, up: seq<BlockIndex>,
        a: Answers,
        ghost u: L.Utxo, ghost stored: set<BlockIndex>)
      returns (r: BC.Verdict, bad: BlockIndex?, abort: bool)
      requires TreeOk() && Planned(best, pindexNew, fork, down, up)
      requires view.Valid() && ViewAt(view, best) && view.tip == best && view.Flat() == u
      requires forall b :: b in down ==> b.pprev != null && b.undo.Some?
      requires forall b :: b in index ==> GoodUndo(b) && (b in stored <==> b.undo.Some?)
      requires Reversible(u, best, pindexNew) <==> IntactBranch(u, down)
      modifies view.Layers, index`undo
      ensures view.BaseUnchanged() && UndoAdded(index, a)
      ensures r.Good? ==> ViewAt(view, pindexNew) && view.tip == pindexNew
      ensures r.Good? ==> forall b :: b in up && b.pprev != null ==> b.undo.Some?
      ensures bad != null ==> bad in up
      ensures old(Judged(a, u, stored, pindexNew, r, bad))
      ensures abort ==> r.Broken? && Aborts(a)
      ensures old(HaltsRightly(a, u, stored, pindexNew, abort))
    {
      hide StateOf, ViewAt, GoodUndo, Path, Linked, Reversible, IntactBranch, Decision, OldBranch, NewBranch, Judged,
        TreeOk, HaltsRightly;
      BranchEntries(down, up);
      bad, abort := null, false;
      RemovableIsDown(a, u, pindexNew, down);
      var ok, readable := DisconnectBranch(view, down, a, fork);
      if !ok {
        NotRemovable(a, u, stored, pindexNew);
        HaltsBefore(a, u, stored, pindexNew, down, !readable);
        return BC.Broken, bad, !readable;
      }
      JudgeBranchLater(a, u, stored, pindexNew, up);
      HaltsLater(a, u, stored, pindexNew, up);
      var at;
      r, at := ConnectBranch(view, up, a, fork, index, stored);
      if r.Bad? {
        bad := at;
      } else if r.Broken? {
        abort := !a.block(at.hash) || a.abort(at.hash);
      }
    }

    lemma BranchEntries(down: seq<BlockIndex>, up: seq<BlockIndex>)
      requires TreeOk() && (forall b :: b in down ==> b in index) && (forall b :: b in up ==> b in index)
      ensures forall b :: b in index ==> Linked(b)
      ensures forall b :: b in down || b in up ==> HeightInRange(b.height) && b.link.rules.enforceBip30
    {
    }

    lemma NotRemovable(a: Answers, u: L.Utxo, stored: set<BlockIndex>, pindexNew: BlockIndex)
      requires TreeOk() && Linked(pindexNew) && !Removable(a, u, best, pindexNew)
      ensures Judged(a, u, stored, pindexNew, BC.Broken, null)
    {
    }

    /** JudgeBranch for whatever connecting the branch will answer. */
    lemma JudgeBranchLater(a: Answers, u: L.Utxo, stored: set<BlockIndex>, pindexNew: BlockIndex, up: seq<BlockIndex>)
      requires TreeOk() && Linked(pindexNew) && Removable(a, u, best, pindexNew)
      requires forall b :: b in up ==> b in index && Linked(b)
      requires forall b :: b in index ==> (b in up <==> NewBranch(best, pindexNew, b))
      requires forall i, j :: 0 <= i < j < |up| ==> up[i].height < up[j].height
      ensures GoodUpTo(a, up, stored, |up|) ==> Judged(a, u, stored, pindexNew, BC.Good, null)
      ensures forall k, r: BC.Verdict, at :: StopsAt(a, up, stored, k, r, at) ==>
                Judged(a, u, stored, pindexNew, r, if r.Bad? then at else null)
    {
      hide Judged, GoodUpTo, StopsAt, NewBranch, Removable, TreeOk, Linked;
      if GoodUpTo(a, up, stored, |up|) {
        JudgeBranch(a, u, stored, pindexNew, up, BC.Good, null);
      }
      forall k, r: BC.Verdict, at | StopsAt(a, up, stored, k, r, at)
        ensures Judged(a, u, stored, pindexNew, r, if r.Bad? then at else null)
      {
        StoppedIsNotGood(a, up, stored, k, r, at);
        JudgeBranch(a, u, stored, pindexNew, up, r, at);
      }
    }

    lemma StoppedIsNotGood(
        a: Answers, v: seq<BlockIndex>, stored: set<BlockIndex>, k: nat, r: BC.Verdict, at: BlockIndex?)
      requires (forall b :: b in v ==> Linked(b)) && StopsAt(a, v, stored, k, r, at)
      ensures !r.Good?
    {
    }

    /** What the verdict on a switch means. */
    ghost predicate Judged(
        a: Answers, u: L.Utxo, stored: set<BlockIndex>, pindexNew: BlockIndex, r: BC.Verdict, bad: BlockIndex?)
      requires TreeOk() && Linked(pindexNew)
      reads `index, `genesis, `best
    {
      && (r.Good? <==> Removable(a, u, best, pindexNew) && Addable(a, stored, best, pindexNew))
      && (r.Bad? <==> bad != null)
      && (bad != null ==> Offends(a, u, stored, best, pindexNew, bad))
      && (bad == null ==> forall b :: b in index ==> !Offends(a, u, stored, best, pindexNew, b))
    }

    ghost predicate JudgedNow(a: Answers, pindexNew: BlockIndex, r: BC.Verdict, bad: BlockIndex?)
      requires TreeOk() && CoinsShape() && pindexNew in index
      reads this, index, coins, coins.Db
    {
      Judged(a, coins.Flat(), Stored(), pindexNew, r, bad)
    }

    lemma RemovableIsDown(a: Answers, u: L.Utxo, pindexNew: BlockIndex, down: seq<BlockIndex>)
      requires (best != null ==> Linked(best)) && Linked(pindexNew)
      requires Reversible(u, best, pindexNew) <==> IntactBranch(u, down)
      requires forall b :: b in down ==> b in index
      requires forall b :: b in index ==> (b in down <==> OldBranch(best, pindexNew, b))
      ensures Removable(a, u, best, pindexNew) <==>
              (forall b :: b in down ==> a.block(b.hash) && a.undo(b.hash)) && IntactBranch(u, down)
    {
      hide Reversible, IntactBranch, OldBranch;
    }

    lemma JudgeBranch(
        a: Answers, u: L.Utxo, stored: set<BlockIndex>, pindexNew: BlockIndex, up: seq<BlockIndex>, r: BC.Verdict,
        at: BlockIndex?)
      requires TreeOk() && Linked(pindexNew) && Removable(a, u, best, pindexNew)
      requires forall b :: b in up ==> b in index
      requires forall b :: b in index ==> (b in up <==> NewBranch(best, pindexNew, b))
      requires forall i, j :: 0 <= i < j < |up| ==> up[i].height < up[j].height
      requires forall b :: b in up ==> Linked(b)
      requires r.Good? ==> GoodUpTo(a, up, stored, |up|)
      requires !r.Good? ==> exists k :: StopsAt(a, up, stored, k, r, at)
      ensures Judged(a, u, stored, pindexNew, r, if r.Bad? then at else null)
    {
      hide Removable, NewBranch, Decision, TreeOk;
      if r.Good? {
        forall b | b in up ensures Decision(a, b, b in stored).Good? {
          var i :| 0 <= i < |up| && up[i] == b;
        }
      } else {
        var k :| StopsAt(a, up, stored, k, r, at);
        assert at in up;
        forall c | c in up && c.height < at.height ensures Decision(a, c, c in stored).Good? {
          var i :| 0 <= i < |up| && up[i] == c;
          assert i < k;
        }
        forall b | b in up && b != at && Decision(a, b, b in stored).Bad? ensures b.height > at.height {
          var i :| 0 <= i < |up| && up[i] == b;
        }
      }
    }

    /** Every block on the path of the new tip has undo data: the old ones below the fork, the new ones above it. */
    lemma UndoAlongNewPath(pindexNew: BlockIndex, fork: BlockIndex?, down: seq<BlockIndex>, up: seq<BlockIndex>)
      requires TreeOk() && UndoOk() && Planned(best, pindexNew, fork, down, up)
      requires forall b :: b in up && b.pprev != null ==> b.undo.Some?
      ensures forall k :: 0 < k <= pindexNew.height ==> Path(pindexNew)[k] in index && Path(pindexNew)[k].undo.Some?
    {
      forall k | 0 < k <= pindexNew.height
        ensures Path(pindexNew)[k] in index && Path(pindexNew)[k].undo.Some?
      {
        var b := Path(pindexNew)[k];
        if fork == null || k > fork.height {
          assert b in up;
          assert Path(pindexNew)[k - 1] == b.pprev;
        } else {
          AncestorPath(fork, pindexNew);
          AncestorPath(fork, best);
          assert Path(fork)[k] == b && Path(best)[k] == b;
        }
      }
    }

    /** Database and coin view agree, and nothing waits to be written. */
    ghost predicate OnDisk(b: BlockIndex)
      requires CoinsShape()
      reads coins, coins.Db
    {
      coins.cacheCoins == map[] && coins.Db.best == b && coins.Db.Flat() == coins.Flat()
    }

    /** Push the scratch view down, to disk if it is time; false when the disk gave up and the node goes down. */
    method FlushAll(view: CoinsViewCache, ghost pindexNew: BlockIndex, a: Answers) returns (ok: bool)
      requires CoinsShape() && Scratch(view) && Linked(pindexNew) && ViewAt(view, pindexNew) && view.tip == pindexNew
      modifies view, coins, coins.Db
      ensures ViewAt(coins, pindexNew)
      ensures ok <==> (a.writeOut ==> a.space && a.io)
      ensures if ok && a.writeOut then OnDisk(pindexNew) else unchanged(coins.Db)
    {
      hide StateOf, WornSet, Linked;
      WornTwice(view.Flat(), StateOf(pindexNew).value.utxo);
      var _ := view.Flush(true);
      assert coins.Flat() == old(view.Flat()) && coins.Best() == pindexNew && coins.tip == pindexNew;
      ok := true;
      if a.writeOut {
        if !a.space { return false; }
        ok := coins.Flush(a.io);
      }
    }

    /** The second half of SetBestChain: move the coins down, then relink the index and take the new tip. */
    method Commit(
        view: CoinsViewCache, pindexNew: BlockIndex, fork: BlockIndex?, down: seq<BlockIndex>, up: seq<BlockIndex>,
        a: Answers)
      returns (ok: bool)
      requires Sound() && pindexNew in index
      requires Scratch(view) && ViewAt(view, pindexNew) && view.tip == pindexNew
      requires Planned(best, pindexNew, fork, down, up)
      requires forall b :: b in up && b.pprev != null ==> b.undo.Some?
      modifies this`best, this`findLast, view, coins, coins.Db, index`pnext
      ensures Sound()
      ensures ViewAt(coins, pindexNew)
      ensures best == (if ok then pindexNew else old(best)) && (ok <==> a.Flushes())
      ensures if ok && a.writeOut then OnDisk(pindexNew) else unchanged(coins.Db)
    {
      hide StateOf, ViewAt, Planned, TreeOk, UndoOk, CandidatesOk, MarksOk, FindOk, LinksOk, CoinsShape, Scratch;
      ViewState(view, pindexNew);
      UndoAlongNewPath(pindexNew, fork, down, up);
      ok := FlushAll(view, pindexNew, a);
      if ok {
        TakeTip(pindexNew, fork, down, up);
      }
    }

    lemma ViewState(view: CoinsViewCache, pindexNew: BlockIndex)
      requires TreeOk() && pindexNew in index && Scratch(view)
      requires Linked(pindexNew) ==> ViewAt(view, pindexNew)
      ensures Linked(pindexNew) && StateOf(pindexNew).Some?
    {
    }

    /** Relink the index and take the new tip. */
    method TakeTip(pindexNew: BlockIndex, ghost fork: BlockIndex?, down: seq<BlockIndex>, up: seq<BlockIndex>)
      requires Sound() && pindexNew in index
      requires Planned(best, pindexNew, fork, down, up) && StateOf(pindexNew).Some?
      requires forall k :: 0 < k <= pindexNew.height ==> Path(pindexNew)[k] in index && Path(pindexNew)[k].undo.Some?
      modifies this`best, this`findLast, index`pnext
      ensures Sound() && best == pindexNew
    {
      hide TreeOk, UndoOk, LinksOk, CandidatesOk, MarksOk, Planned;
      RelinkTo(pindexNew, fork, down, up);
      best, findLast := pindexNew, null;
      TreeKept();
      UndoKeptAtTip();
      MarksKept();
    }

    method RelinkTo(pindexNew: BlockIndex, ghost fork: BlockIndex?, down: seq<BlockIndex>, up: seq<BlockIndex>)
      requires TreeOk() && pindexNew in index && LinksOk(best) && Planned(best, pindexNew, fork, down, up)
      modifies index`pnext
      ensures Linked(pindexNew) && LinksOk(pindexNew)
    {
      hide NextOn;
      Relink(down, up, best, fork, pindexNew, index);
    }

    /** Work in the scratch view does not show in the coin view. */
    twostate lemma CoinsKept(new view: CoinsViewCache)
      requires old(TreeOk() && CoinsShape() && CoinsOk()) && unchanged(this) && Scratch(view) && OnCoins(view)
      ensures coins.Flat() == old(coins.Flat()) && coins.Best() == old(coins.Best()) && CoinsOk()
    {
      hide StateOf;
    }

    twostate lemma TreeKept()
      requires old(TreeOk()) && index == old(index) && genesis == old(genesis) && best != null && best in index
      ensures TreeOk()
    {
    }

    twostate lemma MarksKept()
      requires old(TreeOk() && MarksOk()) && TreeOk() && index == old(index)
      requires forall b :: b in index ==> b.failedValid == old(b.failedValid) && b.failedChild == old(b.failedChild)
      ensures MarksOk()
    {
      hide IsAncestor, BreaksRule, Linked;
      forall b | b in index && b.failedChild ensures AboveFailed(b) {
        assert old(AboveFailed(b));
      }
    }

    twostate lemma UndoKeptAtTip()
      requires old(TreeOk() && UndoOk()) && index == old(index) && genesis == old(genesis) && TreeOk()
      requires forall b :: b in index ==> b.undo == old(b.undo)
      requires best != null && StateOf(best).Some?
      requires forall k :: 0 < k <= best.height ==> Path(best)[k] in index && Path(best)[k].undo.Some?
      ensures UndoOk()
    {
      hide StateOf;
    }

    /** Everything that a switch to b asks for would be answered favourably now. */
    ghost predicate AcceptsNow(a: Answers, b: BlockIndex)
      requires TreeOk() && CoinsShape() && b in index
      reads this, index, coins, coins.Db
    {
      Accepts(a, coins.Flat(), Stored(), best, b)
    }

    /** What SetBestChain does with the answers that it gets. */
    twostate predicate Outcome(new a: Answers, new pindexNew: BlockIndex, new r: Switch)
      requires old(TreeOk() && CoinsShape()) && pindexNew in old(index)
      requires TreeOk() && CoinsShape() && index == old(index)
      reads this, index, coins, coins.Db
    {
      && (r.Switched? <==> old(AcceptsNow(a, pindexNew)))
      && (r.Interrupted? <==>
            old(Removable(a, coins.Flat(), best, pindexNew) && Addable(a, Stored(), best, pindexNew)) && !a.Flushes())
      && best == (if r.Switched? then pindexNew else old(best))
      && (!r.Switched? ==> !AcceptsNow(a, pindexNew))
      && (if r.Refused? then coins.Flat() == old(coins.Flat()) && coins.Best() == old(coins.Best())
          else ViewAt(coins, pindexNew))
      && (r.Interrupted? ==> shutdown) && (r.Switched? ==> !shutdown) && (r.Refused? && shutdown ==> Aborts(a))
      && var stopped := shutdown;
         r.Refused? ==> old(HaltsNow(a, pindexNew, stopped))
    }

    /** Exactly the block that broke a rule is marked, if one did. */
    twostate predicate OffenderMarked(new a: Answers, new pindexNew: BlockIndex)
      requires old(TreeOk() && CoinsShape()) && pindexNew in old(index) && index == old(index)
      reads this, index, coins, coins.Db
    {
      forall b :: b in index ==>
        && b.failedChild == old(b.failedChild)
        && (b.failedValid <==> old(b.failedValid) || old(Offends(a, coins.Flat(), Stored(), best, pindexNew, b)))
    }

    /**
     SetBestChain.  Switched, if and only if everything is answered favourably: the new tip is active and the coin view
     stands for its path.  Refused: coins, tip and links are as before, and exactly the block that broke a rule, if one
     did, is marked.  Interrupted: only the last write failed; the coins had moved, and the node goes down.
     The database takes the new tip with all coins at once, or nothing.
     */
    method SetBestChain(pindexNew: BlockIndex, a: Answers) returns (r: Switch)
      requires Valid() && !shutdown && pindexNew in index && Honest(a)
      modifies this, coins, coins.Db, index
      ensures Valid() && index == old(index) && genesis == old(genesis)
      ensures Outcome(a, pindexNew, r) && OffenderMarked(a, pindexNew) && UndoAdded(index, a)
      ensures if r.Switched? && a.writeOut then OnDisk(pindexNew) else unchanged(coins.Db)
    {
      hide *;
      Open();
      var v, bad, abort, view, fork, down, up;
      v, bad, abort, view, fork, down, up := TrySwitch(pindexNew, a);
      CoinsKept(view);
      if !v.Good? {
        Refuse(bad, abort);
        RefusedSo(a, pindexNew, v, bad, abort);
        Close();
        return Refused;
      }
      Close();
      r := Finish(view, pindexNew, fork, down, up, a);
      SwitchedSo(a, pindexNew, v, bad, r);
    }

    lemma Open()
      requires Valid()
      ensures Sound() && TreeOk() && CandidatesOk() && MarksOk() && UndoOk() && LinksOk(best) && FindOk()
      ensures CoinsShape()
      ensures !shutdown ==> CoinsOk()
    {
    }

    lemma Close()
      requires TreeOk() && CandidatesOk() && MarksOk() && UndoOk() && LinksOk(best) && FindOk() && CoinsShape()
      requires !shutdown ==> CoinsOk()
      ensures Sound() && Valid()
    {
    }

    /** The end of a switch that succeeded, unless the last write stops the node. */
    method Finish(
        view: CoinsViewCache, pindexNew: BlockIndex, fork: BlockIndex?, down: seq<BlockIndex>, up: seq<BlockIndex>,
        a: Answers)
      returns (r: Switch)
      requires Sound() && pindexNew in index && !shutdown
      requires Scratch(view) && ViewAt(view, pindexNew) && view.tip == pindexNew
      requires Planned(best, pindexNew, fork, down, up)
      requires forall b :: b in up && b.pprev != null ==> b.undo.Some?
      modifies this`best, this`findLast, this`shutdown, view, coins, coins.Db, index`pnext
      ensures Valid() && TreeOk() && CoinsShape() && ViewAt(coins, pindexNew)
      ensures r == (if a.Flushes() then Switched else Interrupted) && (shutdown <==> r.Interrupted?)
      ensures best == if r.Switched? then pindexNew else old(best)
      ensures if r.Switched? && a.writeOut then OnDisk(pindexNew) else unchanged(coins.Db)
    {
      hide TreeOk, UndoOk, LinksOk, CandidatesOk, FindOk, MarksOk, StateOf, ViewAt, Planned;
      var ok := Commit(view, pindexNew, fork, down, up, a);
      if !ok {
        shutdown := true;
      }
      r := if ok then Switched else Interrupted;
    }

    twostate lemma RefusedSo(new a: Answers, new pindexNew: BlockIndex, new v: BC.Verdict, new bad: BlockIndex?,
                             new abort: bool)
      requires old(TreeOk() && CoinsShape() && MarksOk()) && pindexNew in old(index) && Honest(a)
      requires TreeOk() && CoinsShape() && index == old(index) && best == old(best)
      requires coins.Flat() == old(coins.Flat()) && coins.Best() == old(coins.Best()) && UndoAdded(index, a)
      requires (bad != null ==> bad in old(index)) && !v.Good?
      requires old(JudgedNow(a, pindexNew, v, bad))
      requires forall b :: b in index ==>
        b.failedChild == old(b.failedChild) && (b.failedValid <==> old(b.failedValid) || b == bad)
      requires abort ==> Aborts(a) && v.Broken?
      requires old(HaltsNow(a, pindexNew, abort))
      requires shutdown == (bad == null && abort)
      ensures MarksOk() && Outcome(a, pindexNew, Refused) && OffenderMarked(a, pindexNew)
    {
      hide Removable, Addable, TreeOk, MarksOk, Aborts, UndoAdded, HaltsNow;
      LinkedEntry(pindexNew);
      AcceptsKept(a, pindexNew);
      MarksAfter(a, pindexNew, bad);
      OneOffends(a, pindexNew, v, bad);
    }

    twostate lemma SwitchedSo(new a: Answers, new pindexNew: BlockIndex, new v: BC.Verdict, new bad: BlockIndex?,
                              new r: Switch)
      requires old(TreeOk() && CoinsShape()) && pindexNew in old(index)
      requires TreeOk() && CoinsShape() && index == old(index)
      requires (bad != null ==> bad in old(index)) && v.Good?
      requires old(JudgedNow(a, pindexNew, v, bad))
      requires r == (if a.Flushes() then Switched else Interrupted)
      requires best == (if r.Switched? then pindexNew else old(best))
      requires forall b :: b in index ==> b.failedChild == old(b.failedChild) && b.failedValid == old(b.failedValid)
      requires ViewAt(coins, pindexNew) && (shutdown <==> r.Interrupted?)
      ensures Outcome(a, pindexNew, r) && OffenderMarked(a, pindexNew)
    {
      hide Removable, Addable, TreeOk, ViewAt, Offends;
    }

    /** The offender of a switch is unique. */
    twostate lemma OneOffends(new a: Answers, new pindexNew: BlockIndex, new v: BC.Verdict, new bad: BlockIndex?)
      requires old(TreeOk() && CoinsShape()) && pindexNew in old(index) && (bad != null ==> bad in old(index))
      requires old(JudgedNow(a, pindexNew, v, bad))
      ensures forall b :: b in old(index) ==>
        (old(Offends(a, coins.Flat(), Stored(), best, pindexNew, b)) <==> b == bad)
    {
      hide Removable, Decision, TreeOk;
    }

    /** The end of a switch that failed: the block that broke a rule is marked, or an error stops the node. */
    method Refuse(bad: BlockIndex?, abort: bool)
      requires CandidatesOk() && (bad != null ==> bad in index && bad.pnext == null)
      modifies this`candidates, this`shutdown, index`failedValid
      ensures CandidatesOk()
      ensures forall b :: b in index ==> (b.failedValid <==> old(b.failedValid) || b == bad)
      ensures shutdown == if bad == null then abort else old(shutdown)
    {
      if bad != null {
        InvalidBlockFound(bad);
      } else {
        shutdown := abort;
      }
    }

    lemma NotFlushed(a: Answers, u: L.Utxo, stored: set<BlockIndex>, pindexNew: BlockIndex)
      requires TreeOk() && Linked(pindexNew) && !a.Flushes()
      ensures !Accepts(a, u, stored, best, pindexNew)
    {
    }

    /** Asking again the same way gives the same answer. */
    twostate lemma AcceptsKept(new a: Answers, new pindexNew: BlockIndex)
      requires old(TreeOk() && CoinsShape()) && TreeOk() && CoinsShape() && pindexNew in old(index)
      requires index == old(index) && best == old(best) && coins.Flat() == old(coins.Flat()) && UndoAdded(index, a)
      ensures Accepts(a, coins.Flat(), Stored(), best, pindexNew) ==
              old(Accepts(a, coins.Flat(), Stored(), best, pindexNew))
    {
      hide Decision, TreeOk, Linked, Removable, NewBranch;
      LinkedEntry(pindexNew);
      AllLinked();
      SameRemovable(a, coins.Flat(), pindexNew);
      forall b | b in index ensures Decision(a, b, b in Stored()) == Decision(a, b, b in old(Stored())) {
        DecisionKept(a, b, b in Stored());
      }
    }

    lemma AllLinked()
      requires TreeOk()
      ensures (best != null ==> Linked(best)) && forall b :: b in index ==> Linked(b)
    {
    }

    twostate lemma SameRemovable(new a: Answers, new u: L.Utxo, new pindexNew: BlockIndex)
      requires index == old(index) && best == old(best) && (best != null ==> Linked(best)) && pindexNew in old(index)
      requires Linked(pindexNew)
      ensures Removable(a, u, best, pindexNew) == old(Removable(a, u, best, pindexNew))
    {
    }

    /** Marking the block that broke a rule, if one did, keeps the marks right. */
    twostate lemma MarksAfter(new a: Answers, new pindexNew: BlockIndex, new bad: BlockIndex?)
      requires old(TreeOk() && CoinsShape() && MarksOk()) && TreeOk() && index == old(index) && Honest(a)
      requires pindexNew in old(index) && (bad != null ==> bad in old(index))
      requires bad != null ==> old(Offends(a, coins.Flat(), Stored(), best, pindexNew, bad))
      requires forall b :: b in index ==>
        b.failedChild == old(b.failedChild) && (b.failedValid <==> old(b.failedValid) || b == bad)
      ensures MarksOk()
    {
      hide IsAncestor, BreaksRule, Removable, NewBranch, Linked;
      forall b | b in index && b.failedChild ensures AboveFailed(b) {
        assert old(AboveFailed(b));
      }
    }

    // ----- choosing the tip -----

    /** The greatest candidate in the order of CBlockIndexWorkComparator: most work, then smallest hash. */
    method MostWork() returns (top: BlockIndex)
      requires candidates != {}
      ensures top in candidates
      ensures forall b :: b in candidates ==> b.chainWork <= top.chainWork
      ensures forall b :: b in candidates && b.chainWork == top.chainWork ==> top.hash <= b.hash
    {
      top :| top in candidates;
      var todo := candidates - {top};
      while todo != {}
        invariant top in candidates && todo <= candidates
        invariant forall b :: b in candidates && b !in todo ==>
          b.chainWork < top.chainWork || (b.chainWork == top.chainWork && top.hash <= b.hash)
        decreases |todo|
      {
        var b :| b in todo;
        if b.chainWork > top.chainWork || (b.chainWork == top.chainWork && b.hash < top.hash) {
          top := b;
        }
        todo := todo - {b};
      }
    }

    /**
     Walk from the best candidate down to the active chain.  Either a failed block turns up, or attach lists, lowest
     first, the blocks on the way that have more work than the present tip.
     */
    method CheckAncestry(top: BlockIndex) returns (failed: BlockIndex?, attach: seq<BlockIndex>)
      requires TreeOk() && top in index
      ensures failed != null ==> failed in index && IsAncestor(failed, top) && Failed(failed)
      ensures failed != null ==> failed == top || failed.height < top.height
      ensures failed == null ==>
                forall b :: b in attach ==> b in index && (best != null ==> b.chainWork > best.chainWork)
      ensures failed == null ==> WorkRises(attach)
      ensures failed == null ==> if best == null || top.chainWork > best.chainWork
                                 then attach != [] && attach[|attach| - 1] == top else attach == []
    {
      hide IsAncestor, Path, Linked, TreeOk, WorkRises;
      LinkedEntry(top);
      NothingRises();
      SelfOnPath(top);
      var test: BlockIndex := top;
      attach := [];
      while true
        invariant test in index && IsAncestor(test, top) && (test == top || test.height < top.height)
        invariant forall b :: b in attach ==> b in index && (best != null ==> b.chainWork > best.chainWork)
        invariant forall b :: b in attach ==> b.chainWork > test.chainWork
        invariant test == top ==> attach == []
        invariant WorkRises(attach)
        invariant test != top && (best == null || top.chainWork > best.chainWork) ==>
                    attach != [] && attach[|attach| - 1] == top
        invariant best != null && top.chainWork <= best.chainWork ==> attach == [] && test.chainWork <= best.chainWork
        decreases test.height
      {
        if Failed(test) { return test, attach; }
        if best == null || test.chainWork > best.chainWork {
          RisesFrom(test, attach);
          attach := [test] + attach;
        }
        if test.pprev == null || test.pnext != null { return null, attach; }
        ParentFacts(test, top);
        test := test.pprev;
      }
    }

    lemma LinkedEntry(top: BlockIndex)
      requires TreeOk() && top in index
      ensures Linked(top)
    {
    }

    lemma ParentFacts(test: BlockIndex, top: BlockIndex)
      requires TreeOk() && test in index && top in index && IsAncestor(test, top) && test.pprev != null
      ensures test.pprev in index && IsAncestor(test.pprev, top)
      ensures test.pprev.height < test.height && test.pprev.chainWork < test.chainWork
    {
      ParentOnPath(test, top);
    }

    /** Mark exactly what lies above the failed block on the way to top, and drop it from the candidates. */
    method MarkDescendants(top: BlockIndex, failed: BlockIndex)
      requires TreeOk() && CandidatesOk() && MarksOk() && top in index
      requires IsAncestor(failed, top) && failed.height <= top.height && failed in index && Failed(failed)
      modifies this`candidates, index`failedChild
      ensures CandidatesOk() && MarksOk() && candidates <= old(candidates) && (top != failed ==> top !in candidates)
      ensures forall b :: b in index ==>
        (b.failedChild <==> old(b.failedChild) || (IsAncestor(b, top) && b.height > failed.height))
    {
      hide IsAncestor, Path, Linked, MarksOk, BreaksRule;
      SelfOnPath(top);
      var p: BlockIndex := top;
      OnlyAbove(top, top);
      while p != failed
        invariant p in index && IsAncestor(p, top) && p.height >= failed.height
        invariant CandidatesOk() && candidates <= old(candidates) && (p != top ==> top !in candidates)
        invariant forall b :: b in index ==>
          (b.failedChild <==> old(b.failedChild) || (IsAncestor(b, top) && b.height > p.height))
        decreases p.height
      {
        OnSamePath(p, failed, top);
        OnlyAbove(top, p);
        p.failedChild := true;
        candidates := candidates - {p};
        ParentOnPath(p, top);
        p := p.pprev;
      }
      DescendantsMarked(top, failed);
    }

    /** The blocks of a path at p's height or above are p and those above it. */
    lemma OnlyAbove(top: BlockIndex, p: BlockIndex)
      requires Linked(top) && IsAncestor(p, top)
      ensures p.height <= top.height
      ensures forall b :: b in index && IsAncestor(b, top) ==>
                b.height <= top.height && (b.height == p.height ==> b == p)
    {
    }

    /** The marks on what lies above a failed block are right. */
    twostate lemma DescendantsMarked(new top: BlockIndex, new failed: BlockIndex)
      requires old(TreeOk() && MarksOk()) && TreeOk() && index == old(index) && top in index && failed in index
      requires IsAncestor(failed, top) && old(Failed(failed))
      requires forall b :: b in index ==> b.failedValid == old(b.failedValid)
      requires forall b :: b in index && b.failedChild ==>
                 old(b.failedChild) || (IsAncestor(b, top) && b.height > failed.height)
      ensures MarksOk()
    {
      hide IsAncestor, Path, Linked, BreaksRule;
      forall b | b in index && b.failedChild ensures AboveFailed(b) {
        if old(b.failedChild) {
          assert old(AboveFailed(b));
        } else {
          Between(failed, b, top);
          if !failed.failedValid {
            var p :| p in index && p.height < failed.height && IsAncestor(p, failed) && p.failedValid;
            AncestorOfAncestor(p, failed, b);
          }
        }
      }
    }

    // ----- one block after the other -----

    /** Answers for any number of switches. */
    ghost predicate AllHonest(asks: nat -> Answers) { forall i: nat :: Honest(asks(i)) }

    /** Some switch to a block with more work than the tip was not answered favourably. */
    ghost predicate Obstructed(asks: nat -> Answers)
      requires TreeOk() && CoinsShape()
      reads this, index, coins, coins.Db
    {
      exists i: nat, b :: b in index && MoreWork(b) && !AcceptsNow(asks(i), b)
    }

    ghost predicate MoreWork(b: BlockIndex)
      reads `best
    {
      best == null || b.chainWork > best.chainWork
    }

    /** One switch, as far as the choice of the tip is concerned. */
    method SwitchTo(pindexNew: BlockIndex, a: Answers) returns (r: Switch)
      requires Valid() && !shutdown && pindexNew in index && Honest(a)
      modifies this, coins, coins.Db, index
      ensures Valid() && TreeOk() && CoinsShape() && index == old(index) && genesis == old(genesis)
      ensures r.Switched? ==> best == pindexNew && !shutdown && forall b :: b in index ==> Failed(b) == old(Failed(b))
      ensures !r.Switched? ==> best == old(best) && !AcceptsNow(a, pindexNew)
      ensures forall b :: b in index && old(Failed(b)) ==> Failed(b)
    {
      hide *;
      Open();
      r := SetBestChain(pindexNew, a);
      Open();
      AfterSwitch(pindexNew, a, r);
    }

    twostate lemma AfterSwitch(new pindexNew: BlockIndex, new a: Answers, new r: Switch)
      requires old(TreeOk() && CoinsShape()) && pindexNew in old(index)
      requires TreeOk() && CoinsShape() && index == old(index)
      requires Outcome(a, pindexNew, r) && OffenderMarked(a, pindexNew)
      ensures r.Switched? ==> best == pindexNew && !shutdown && forall b :: b in index ==> Failed(b) == old(Failed(b))
      ensures !r.Switched? ==> best == old(best) && !AcceptsNow(a, pindexNew)
      ensures forall b :: b in index && old(Failed(b)) ==> Failed(b)
    {
      hide TreeOk, ViewAt, Removable, Decision, Aborts, HaltsNow;
    }

    /** Switch to each block of attach in turn, unless the node is asked to stop. */
    method AttachAll(attach: seq<BlockIndex>, asks: nat -> Answers, stops: nat -> bool) returns (ok: bool)
      requires Valid() && AllHonest(asks)
      requires forall b :: b in attach ==> b in index && MoreWork(b)
      requires WorkRises(attach)
      modifies this, coins, coins.Db, index
      ensures Valid() && index == old(index) && genesis == old(genesis)
      ensures ok ==> forall b :: b in index ==> Failed(b) == old(Failed(b))
      ensures ok && !shutdown ==> best == if attach == [] then old(best) else attach[|attach| - 1]
      ensures ok && !shutdown ==> forall i: nat :: i < |attach| ==> !stops(i)
      ensures ok && shutdown && !old(shutdown) ==>
        exists i: nat :: FirstStop(stops, i) && i < |attach| && best == if i == 0 then old(best) else attach[i - 1]
      ensures !ok ==> Obstructed(asks)
      ensures old(best) != null ==> best != null
      ensures best != old(best) && old(best) != null ==> best.chainWork > old(best).chainWork
      ensures forall b :: b in index && old(Failed(b)) ==> Failed(b)
    {
      hide TreeOk, UndoOk, LinksOk, CandidatesOk, FindOk, MarksOk, CoinsShape, CoinsOk, AcceptsNow, Failed, Honest;
      for i := 0 to |attach|
        invariant Valid() && index == old(index) && genesis == old(genesis)
        invariant best == if i == 0 then old(best) else attach[i - 1]
        invariant shutdown == old(shutdown) && forall k: nat :: k < i ==> !stops(k)
        invariant i > 0 && old(best) != null ==> best.chainWork > old(best).chainWork
        invariant forall b :: b in index ==> Failed(b) == old(Failed(b))
      {
        if stops(i) {
          shutdown := true;
          assert FirstStop(stops, i);
        }
        if shutdown { return true; }
        assert attach[i] in attach;
        var r := SwitchTo(attach[i], asks(i));
        if !r.Switched? {
          assert MoreWork(attach[i]) && !AcceptsNow(asks(i), attach[i]);
          return false;
        }
      }
      ok := true;
    }

    /** The first request to stop comes with this turn. */
    ghost predicate FirstStop(stops: nat -> bool, i: nat) { stops(i) && forall k: nat :: k < i ==> !stops(k) }

    /**
     ConnectBestBlock always returns.  When it returns true and the node is not stopping, no block that is not marked
     failed has more work than the best block; it returns false only when a switch to a block with more work is
     obstructed.  The best block changes only to one with strictly more work.
     */
    method ConnectBestBlock(asks: nat -> Answers, stops: nat -> bool) returns (ok: bool)
      requires Valid() && AllHonest(asks)
      modifies this, coins, coins.Db, index
      ensures Valid() && index == old(index) && genesis == old(genesis)
      ensures ok && !shutdown ==> MostWorkReached()
      ensures ok && shutdown ==> old(shutdown) || exists i: nat :: stops(i)
      ensures !ok ==> Obstructed(asks)
      ensures old(best) != null ==> best != null
      ensures best != old(best) && old(best) != null ==> best.chainWork > old(best).chainWork
      ensures forall b :: b in index && old(Failed(b)) ==> Failed(b)
    {
      hide TreeOk, UndoOk, LinksOk, FindOk, MarksOk, CoinsOk, CoinsShape, IsAncestor, WorkRises, Failed, Obstructed,
        AllHonest;
      while candidates != {}
        invariant Valid() && index == old(index) && genesis == old(genesis)
        invariant best == old(best) && shutdown == old(shutdown)
        invariant forall b :: b in index && old(Failed(b)) ==> Failed(b)
        decreases |candidates|
      {
        var top := MostWork();
        if top == best || (best != null && top.chainWork == best.chainWork) { return true; }
        var failed, attach := CheckAncestry(top);
        if failed == null {
          ok := AttachAll(attach, asks, stops);
          return;
        }
        DropDescendants(top, failed);
      }
      ok := true;
    }

    /** One round that finds a failed ancestor: marks more blocks, and leaves fewer candidates. */
    method DropDescendants(top: BlockIndex, failed: BlockIndex)
      requires Valid() && top in candidates && IsAncestor(failed, top) && failed in index && Failed(failed)
      requires failed == top || failed.height < top.height
      modifies this`candidates, index`failedChild
      ensures Valid() && |candidates| < |old(candidates)|
      ensures forall b :: b in index && old(Failed(b)) ==> Failed(b)
    {
      hide TreeOk, UndoOk, LinksOk, FindOk, MarksOk, CoinsOk, CoinsShape, IsAncestor;
      MarkDescendants(top, failed);
      SmallerSet(candidates, old(candidates));
    }

    /** No block that is not marked failed has more work than the best block. */
    ghost predicate MostWorkReached()
      reads `index, `best, index`failedValid, index`failedChild
    {
      forall b :: b in index && !Failed(b) ==> !MoreWork(b)
    }

    /** Enter a new block into the index and the candidate set. */
    method Insert(pindexNew: BlockIndex)
      requires Valid() && pindexNew !in index
      requires if pindexNew.pprev == null then index == {} else pindexNew.pprev in index
      requires Linked(pindexNew) && HeightInRange(pindexNew.height) && pindexNew.link.rules.enforceBip30
      requires pindexNew.pnext == null && !Failed(pindexNew) && pindexNew.undo == None
      modifies this`index, this`candidates, this`genesis
      ensures Valid()
      ensures index == old(index) + {pindexNew} && candidates == old(candidates) + {pindexNew}
    {
      hide TreeOk, UndoOk, LinksOk, FindOk, MarksOk;
      OffTheActiveChain(pindexNew);
      index := index + {pindexNew};
      candidates := candidates + {pindexNew};
      if pindexNew.pprev == null {
        genesis := pindexNew;
      }
      TreeGrown(pindexNew);
      IndexGrown(pindexNew);
      MarksGrown(pindexNew);
    }

    twostate lemma MarksGrown(new b: BlockIndex)
      requires old(TreeOk() && MarksOk()) && TreeOk() && index == old(index) + {b} && !Failed(b)
      requires forall x :: x in old(index) ==>
                 x.failedValid == old(x.failedValid) && x.failedChild == old(x.failedChild)
      ensures MarksOk()
    {
      hide IsAncestor, BreaksRule, Linked;
      forall x | x in index && x.failedChild ensures AboveFailed(x) {
        assert old(AboveFailed(x));
      }
    }

    twostate lemma TreeGrown(new b: BlockIndex)
      requires old(TreeOk()) && index == old(index) + {b} && best == old(best)
      requires if b.pprev == null then old(index) == {} && genesis == b
               else b.pprev in old(index) && genesis == old(genesis)
      requires Linked(b) && HeightInRange(b.height) && b.link.rules.enforceBip30
      ensures TreeOk()
    {
      EntryOfChild(b, genesis);
      hide EntryOk;
    }

    twostate lemma IndexGrown(new b: BlockIndex)
      requires old(TreeOk() && UndoOk() && LinksOk(best) && FindOk()) && TreeOk()
      requires index == old(index) + {b} && best == old(best) && findLast == old(findLast)
      requires forall x :: x in old(index) ==> x.undo == old(x.undo) && x.pnext == old(x.pnext)
      requires b.undo == None && b.pnext == NextOn(best, b)
      ensures UndoOk() && LinksOk(best) && FindOk()
    {
      hide StateOf, NextOn, Linked;
    }

    lemma OffTheActiveChain(b: BlockIndex)
      requires TreeOk() && b !in index
      ensures NextOn(best, b) == null
    {
      if best != null && b.height < best.height {
        PathInIndex(best, b.height);
      }
    }

    /**
     AddToBlockIndex for a block that passed AcceptBlock: its parent is known (only the first block has none), and its
     target is in range, so that it adds work.
     */
    method AddToBlockIndex(
        hash: nat, pprev: BlockIndex?, bits: nat, link: Link, written: bool, asks: nat -> Answers, stops: nat -> bool)
      returns (ok: bool, added: BlockIndex?)
      requires Valid() && AllHonest(asks)
      requires if pprev == null then index == {} else pprev in index
      requires 0 < Compact.SetCompact(bits) <= Retarget.LIMIT && link.rules.enforceBip30
      requires HeightInRange(if pprev == null then 0 else pprev.height + 1)
      modifies this, coins, coins.Db, index
      ensures Valid()
      ensures added == null <==> old(exists b :: b in index && b.hash == hash)
      ensures added == null ==> !ok && index == old(index)
      ensures added != null ==> index == old(index) + {added} && added.hash == hash && added.pprev == pprev
      ensures added != null ==>
        var work := added.chainWork - if pprev == null then 0 else pprev.chainWork;
        work == Retarget.BlockWork(bits) && Retarget.Floored(work, Arith.Pow(2, 256), Compact.SetCompact(bits) + 1)
      ensures ok && !shutdown ==> MostWorkReached()
      ensures ok && shutdown ==> old(shutdown) || exists i: nat :: stops(i)
      ensures added != null && !ok ==> !written || Obstructed(asks)
      ensures best != old(best) && old(best) != null ==> best != null && best.chainWork > old(best).chainWork
    {
      hide Sound, CoinsOk, Compact.SetCompact, Retarget.BlockWork, Retarget.Floored, Arith.Pow;
      if Known(hash) { return false, null; }
      Retarget.WorkIsPositive(bits);
      Retarget.WorkIs(bits);
      added := NewEntry(hash, pprev, Retarget.BlockWork(bits), link);
      if !written {
        shutdown := true;
        return false, added;
      }
      ok := ConnectBestBlock(asks, stops);
    }

    predicate Known(hash: nat)
      reads `index
    {
      exists b :: b in index && b.hash == hash
    }

    method NewEntry(hash: nat, pprev: BlockIndex?, blockWork: nat, link: Link) returns (pindexNew: BlockIndex)
      requires Valid()
      requires if pprev == null then index == {} else pprev in index
      requires blockWork > 0 && link.rules.enforceBip30
      requires HeightInRange(if pprev == null then 0 else pprev.height + 1)
      modifies this`index, this`candidates, this`genesis
      ensures Valid() && fresh(pindexNew) && index == old(index) + {pindexNew}
      ensures pindexNew.hash == hash && pindexNew.pprev == pprev
      ensures pindexNew.chainWork == (if pprev == null then 0 else pprev.chainWork) + blockWork
    {
      assert pprev != null ==> Linked(pprev);
      hide TreeOk, UndoOk, LinksOk, FindOk, CoinsOk, CandidatesOk, MarksOk;
      pindexNew := new BlockIndex(hash, pprev, blockWork, link);
      Insert(pindexNew);
    }
  }

  lemma SmallerSet<T>(a: set<T>, b: set<T>)
    requires a < b
    ensures |a| < |b|
  {
    assert a + (b - a) == b;
  }

  function Abs(x: int): int { if x < 0 then -x else x }
}
