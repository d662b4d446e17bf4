/**
 The memory pool after a reorganisation in terms of what was there before: the pool, the transactions offered to it
 again, and the two branches (src/main.cpp:1946-2036).
 */
module PoolOutcome {
  import opened Coins
  import opened Ledger
  import opened LedgerRuns
  import opened MemPool
  import opened TxMemPool
  import opened PoolReorg
  import opened Wear
  import BC = BlockConnection

  // ----- which transactions stay -----

  /** The pool without transactions that were connected. */
  ghost function Unconfirmed(rank: Rank, offered: Txs, connected: seq<Tx>): (r: Txs)
    requires Ranked(rank, offered)
    ensures Ranked(rank, r) && PartOf(offered, r)
  {
    map t | t in offered && !Among(connected, t) :: offered[t]
  }

  /**
   The k-th connected transaction displaces t: at that point t, or one that it depends on through transactions which are
   not connected yet, spends one of the same outputs.
   */
  ghost predicate DisplacedAt(rank: Rank, offered: Txs, connected: seq<Tx>, k: nat, t: Txid)
    requires Ranked(rank, offered) && k < |connected|
  {
    var rest := Unconfirmed(rank, offered, connected[..k + 1]);
    t in rest && Taken(rank, rest, connected[k].vin, t)
  }

  ghost predicate Displaced(rank: Rank, offered: Txs, connected: seq<Tx>, t: Txid)
    requires Ranked(rank, offered)
  {
    exists k: nat :: k < |connected| && DisplacedAt(rank, offered, connected, k, t)
  }

  /** Neither connected nor displaced. */
  ghost predicate Stays(rank: Rank, offered: Txs, connected: seq<Tx>, t: Txid)
    requires Ranked(rank, offered)
  {
    t in offered && !Among(connected, t) && !Displaced(rank, offered, connected, t)
  }

  lemma {:induction false} PartDescendsUp(rank: Rank, pool: Txs, part: Txs, a: Txid, b: Txid)
    requires Ranked(rank, pool) && Ranked(rank, part) && PartOf(pool, part) && b in part && Descends(rank, part, a, b)
    ensures Descends(rank, pool, a, b)
    decreases rank(b)
  {
    if b != a {
      var i: nat :| i < |part[b].vin| && InPool(part, b, i) && StepDescends(rank, part, a, b, i);
      assert Acyclic(rank, part[b]);
      PartDescendsUp(rank, pool, part, a, part[b].vin[i].hash);
      assert InPool(pool, b, i) && StepDescends(rank, pool, a, b, i);
    }
  }

  /** When all that b depends on is in the part, the part shows it. */
  lemma {:induction false} PartDescendsDown(rank: Rank, pool: Txs, part: Txs, a: Txid, b: Txid)
    requires Ranked(rank, pool) && Ranked(rank, part) && PartOf(pool, part) && b in part && Descends(rank, pool, a, b)
    requires forall p :: p in pool && Descends(rank, pool, p, b) ==> p in part
    ensures Descends(rank, part, a, b)
    decreases rank(b)
  {
    if b != a {
      var i: nat :| i < |pool[b].vin| && InPool(pool, b, i) && StepDescends(rank, pool, a, b, i);
      assert Acyclic(rank, pool[b]);
      var parent := pool[b].vin[i].hash;
      forall p | p in pool && Descends(rank, pool, p, parent) ensures p in part {
        assert StepDescends(rank, pool, p, b, i);
        assert Descends(rank, pool, p, b);
      }
      assert Descends(rank, pool, parent, parent);
      PartDescendsDown(rank, pool, part, a, parent);
      assert InPool(part, b, i) && StepDescends(rank, part, a, b, i);
    }
  }

  /** What displaces a transaction also displaces whatever depends on it. */
  lemma DisplacedWith(rank: Rank, offered: Txs, connected: seq<Tx>, k: nat, rest: Txs, p: Txid, t: Txid)
    requires Ranked(rank, offered) && k < |connected| && DisplacedAt(rank, offered, connected, k, p)
    requires Ranked(rank, rest) && PartOf(Unconfirmed(rank, offered, connected[..k + 1]), rest)
    requires p in rest && t in rest && Descends(rank, rest, p, t)
    ensures DisplacedAt(rank, offered, connected, k, t)
  {
    hide Descends, Taken, Unconfirmed;
    var all := Unconfirmed(rank, offered, connected[..k + 1]);
    PartDescendsUp(rank, all, rest, p, t);
    TakenTransitive(rank, all, connected[k].vin, p, t);
  }

  /** The transactions left after every connected one was processed. */
  lemma {:induction false} KeptIs(rank: Rank, offered: Txs, connected: seq<Tx>)
    requires Ranked(rank, offered)
    ensures forall t :: t in ConfirmAll(rank, offered, connected) <==> Stays(rank, offered, connected, t)
  {
    hide Ranked, Descends, Confirm;
    if connected != [] {
      var n := |connected| - 1;
      KeptIs(rank, offered, connected[..n]);
      forall t ensures t in ConfirmAll(rank, offered, connected) <==> Stays(rank, offered, connected, t) {
        KeptStep(rank, offered, connected, t);
      }
    }
  }

  lemma KeptStep(rank: Rank, offered: Txs, connected: seq<Tx>, t: Txid)
    requires connected != [] && Ranked(rank, offered)
    requires var front := connected[..|connected| - 1];
             forall x :: x in ConfirmAll(rank, offered, front) <==> Stays(rank, offered, front, x)
    ensures t in ConfirmAll(rank, offered, connected) <==> Stays(rank, offered, connected, t)
  {
    hide Ranked, Descends, Taken, Acyclic;
    var n := |connected| - 1;
    var front, tx := connected[..n], connected[n];
    var before := ConfirmAll(rank, offered, front);
    ConfirmIs(rank, before, tx);
    ConfirmAllLeavesNoConflict(rank, offered, front);
    AmongNext(connected, t);
    StaysNext(rank, offered, connected, t);
    assert connected[..n + 1] == connected;
    if t in before && t != tx.txid {
      SameTaken(rank, offered, connected, before, t);
    }
  }

  lemma AmongNext(txs: seq<Tx>, t: Txid)
    requires txs != []
    ensures Among(txs, t) <==> Among(txs[..|txs| - 1], t) || t == txs[|txs| - 1].txid
  {
    var n := |txs| - 1;
    if Among(txs[..n], t) {
      var j :| 0 <= j < n && txs[..n][j].txid == t;
      assert txs[j].txid == t;
    }
    if Among(txs, t) {
      var j :| 0 <= j < |txs| && txs[j].txid == t;
      assert j < n ==> txs[..n][j].txid == t;
    }
  }

  lemma StaysNext(rank: Rank, offered: Txs, connected: seq<Tx>, t: Txid)
    requires connected != [] && Ranked(rank, offered)
    ensures var n := |connected| - 1;
            Stays(rank, offered, connected, t) <==>
              Stays(rank, offered, connected[..n], t) && t != connected[n].txid &&
                !DisplacedAt(rank, offered, connected, n, t)
  {
    hide Ranked, DisplacedAt;
    var n := |connected| - 1;
    AmongNext(connected, t);
    forall k: nat | k < n
      ensures DisplacedAt(rank, offered, connected[..n], k, t) <==> DisplacedAt(rank, offered, connected, k, t)
    {
      SameDisplaced(rank, offered, connected, n, k, t);
    }
  }

  lemma SameDisplaced(rank: Rank, offered: Txs, connected: seq<Tx>, n: nat, k: nat, t: Txid)
    requires Ranked(rank, offered) && k < n <= |connected|
    ensures DisplacedAt(rank, offered, connected[..n], k, t) <==> DisplacedAt(rank, offered, connected, k, t)
  {
    assert connected[..n][..k + 1] == connected[..k + 1];
  }

  /** For a transaction that is left, it makes no difference that others have gone before. */
  lemma SameTaken(rank: Rank, offered: Txs, connected: seq<Tx>, before: Txs, t: Txid)
    requires connected != [] && Ranked(rank, offered) && Ranked(rank, before) && PartOf(offered, before)
    requires var n := |connected| - 1;
             && (forall x :: x in before <==> Stays(rank, offered, connected[..n], x))
             && t in before && t != connected[n].txid
    ensures var n := |connected| - 1;
            var sub := before - {connected[n].txid};
            Ranked(rank, sub) &&
            (Taken(rank, sub, connected[n].vin, t) <==> DisplacedAt(rank, offered, connected, n, t))
  {
    var n := |connected| - 1;
    var tx := connected[n];
    var sub := before - {tx.txid};
    ConfirmIs(rank, before, tx);
    var rest := Unconfirmed(rank, offered, connected);
    assert connected[..n + 1] == connected;
    hide Ranked, Acyclic, Descends, Stays, Unconfirmed;
    SubIsPart(rank, offered, connected, before);
    forall p | p in rest && Descends(rank, rest, p, t) ensures p in sub {
      DependsStays(rank, offered, connected, p, t);
      NotLast(rank, offered, connected, p);
    }
    if Taken(rank, sub, tx.vin, t) {
      var c, j: nat :| j < |tx.vin| && Spends(sub, c, tx.vin[j]) && Descends(rank, sub, c, t);
      PartDescendsUp(rank, rest, sub, c, t);
      assert Spends(rest, c, tx.vin[j]);
    }
    if Taken(rank, rest, tx.vin, t) {
      var c, j: nat :| j < |tx.vin| && Spends(rest, c, tx.vin[j]) && Descends(rank, rest, c, t);
      PartDescendsDown(rank, rest, sub, c, t);
      assert Spends(sub, c, tx.vin[j]);
    }
  }

  lemma SubIsPart(rank: Rank, offered: Txs, connected: seq<Tx>, before: Txs)
    requires connected != [] && Ranked(rank, offered) && PartOf(offered, before)
    requires forall x :: x in before <==> Stays(rank, offered, connected[..|connected| - 1], x)
    ensures PartOf(Unconfirmed(rank, offered, connected), before - {connected[|connected| - 1].txid})
  {
    hide Ranked, Displaced;
    forall x | x in before - {connected[|connected| - 1].txid} ensures x in Unconfirmed(rank, offered, connected) {
      AmongNext(connected, x);
    }
  }

  lemma NotLast(rank: Rank, offered: Txs, connected: seq<Tx>, p: Txid)
    requires connected != [] && Ranked(rank, offered) && p in Unconfirmed(rank, offered, connected)
    ensures p != connected[|connected| - 1].txid
  {
    hide Ranked;
    AmongNext(connected, p);
  }

  /** What a transaction that stays depends on stays with it. */
  lemma DependsStays(rank: Rank, offered: Txs, connected: seq<Tx>, p: Txid, t: Txid)
    requires connected != [] && Ranked(rank, offered)
    requires var rest := Unconfirmed(rank, offered, connected);
             p in rest && t in rest && Descends(rank, rest, p, t)
    requires Stays(rank, offered, connected[..|connected| - 1], t)
    ensures Stays(rank, offered, connected[..|connected| - 1], p)
  {
    hide Ranked, Acyclic, Descends, Taken, DisplacedAt;
    var n := |connected| - 1;
    var front, rest := connected[..n], Unconfirmed(rank, offered, connected);
    AmongNext(connected, p);
    if Displaced(rank, offered, front, p) {
      var k: nat :| k < n && DisplacedAt(rank, offered, front, k, p);
      FewerConfirmed(rank, offered, connected, k);
      assert front[..k + 1] == connected[..k + 1];
      DisplacedWith(rank, offered, front, k, rest, p, t);
    }
  }

  lemma FewerConfirmed(rank: Rank, offered: Txs, connected: seq<Tx>, k: nat)
    requires k < |connected| && Ranked(rank, offered)
    ensures PartOf(Unconfirmed(rank, offered, connected[..k + 1]), Unconfirmed(rank, offered, connected))
  {
    hide Ranked;
    forall t | Among(connected[..k + 1], t) ensures Among(connected, t) {
      var j :| 0 <= j < k + 1 && connected[..k + 1][j].txid == t;
      assert connected[j].txid == t;
    }
  }

  // ----- what is hidden from the pool -----

  /**
   The cache of the chain after a block was disconnected in a view above it and the view was flushed into it: while the
   pruned entries are there, no transaction of the block is accepted again, unless some input restored later shares its
   id.
   */
  lemma DisconnectedIsHidden(
      below: Utxo, cache: Utxo, vtx: seq<Tx>, k: nat, pool: Txs, next: Index, policy: Policy)
    requires BC.LeavesPruned(cache, vtx, 0) && k < |vtx| && !BC.SpendsFromId(vtx, 0, k) && policy.checkInputs
    ensures !Acceptable(below + cache, pool, next, vtx[k], policy)
  {
    PrunedIsHidden(below + cache, pool, next, vtx[k], policy);
  }

  // ----- a whole reorganisation -----

  function Spenders(vtx: seq<Tx>): seq<Tx>
  {
    if vtx == [] then []
    else Spenders(vtx[..|vtx| - 1]) + if vtx[|vtx| - 1].IsCoinBase() then [] else [vtx[|vtx| - 1]]
  }

  /**
   The transactions that are offered again: those of the disconnected blocks, tip first, without coinbases, and only
   from blocks above the last checkpoint.  first is the height of the lowest of the blocks.
   */
  function Resurrected(former: seq<Link>, first: nat, checkpoint: nat): seq<Tx>
  {
    if former == [] then []
    else
      var n := |former| - 1;
      (if first + n > checkpoint then Spenders(former[n].block.vtx)
       else []) + Resurrected(former[..n], first, checkpoint)
  }

  /** Everything that a reorganisation starts from; the coins on disk and in the cache stand for the new branch. */
  datatype Reorg = Reorg(
    base: seq<Link>, former: seq<Link>, branch: seq<Link>, tip: Utxo, checkpoint: nat, policies: seq<Policy>)
  {
    function Again(): seq<Tx> { Resurrected(former, |base| + 1, checkpoint) }

    ghost predicate Valid(w: World)
    {
      && Replay(base + branch).Some? && Bip30Enforced(branch) && WornSet(Live(tip), Replay(base + branch).value.utxo)
      && w.AllGenuine(TxsOf(branch)) && w.AllGenuine(Again())
      && |policies| == |Again()| && forall i :: 0 <= i < |policies| ==> policies[i].checkInputs
    }

    /** The set at the fork. */
    ghost function Fork(): Utxo
      requires Replay(base).Some?
    {
      Replay(base).value.utxo
    }

    /** The pool after the disconnected transactions were offered again. */
    ghost function Offered(pool: Txs): Txs
      requires |policies| == |Again()|
    {
      OfferAll(tip, pool, Again(), policies)
    }

    /**
     A transaction that was in the pool before is left there with an input that nobody provides: it stays, and spends
     what neither the fork nor the offered pool nor the new branch has.
     */
    ghost predicate Orphans(w: World, pool: Txs, t: Txid)
      requires Replay(base).Some? && |policies| == |Again()| && Ranked(w.rank, Offered(pool))
    {
      t in pool && Stays(w.rank, Offered(pool), TxsOf(branch), t) &&
      exists op :: op in pool[t].vin && !Backed(Fork(), Offered(pool), TxsOf(branch), op)
    }
  }

  /** The set after the new branch and the coins that stand for it provide the same outputs. */
  lemma SameProvided(u: Utxo, o: Utxo, pool: Txs)
    requires WornSet(u, o)
    ensures Spendable(u, pool) <==> Spendable(o, pool)
    ensures forall offered :: OfferedFrom(u, pool, offered) <==> OfferedFrom(o, pool, offered)
  {
    forall op: OutPoint ensures Unspent(u, op) == Unspent(o, op) {
      WornOutput(u, o, op);
    }
    forall any, op ensures Provided(u, any, op) == Provided(o, any, op) {
    }
  }

  /**
   After a reorganisation every input in the pool is provided if and only if no transaction that was in the pool before
   is orphaned.  What was accepted again on the way does not matter for that.
   */
  lemma SpendableIffNoOrphan(w: World, r: Reorg, pool: Txs)
    requires r.Valid(w) && Ranked(w.rank, r.Offered(pool)) && AllGenuineIn(w, r.Offered(pool))
    ensures Replay(r.base).Some?
    ensures Spendable(Live(r.tip), ConfirmAll(w.rank, r.Offered(pool), TxsOf(r.branch))) <==>
            forall t :: !r.Orphans(w, pool, t)
  {
    hide ConfirmAll, World.Genuine, World.AllGenuine, AllGenuineIn, Advances, Backed, Acyclic, Replay, TxsOf, Spendable,
      OfferedFrom, Stays, WornSet, Reorg.Again;
    BranchAdvances(r.base, r.branch);
    var u, now := Replay(r.base).value.utxo, Replay(r.base + r.branch).value.utxo;
    var offered, connected := r.Offered(pool), TxsOf(r.branch);
    OfferAllIsOffered(r.tip, pool, r.Again(), r.policies);
    SameProvided(Live(r.tip), now, pool);
    SameProvided(Live(r.tip), now, ConfirmAll(w.rank, offered, connected));
    SpendableIffBacked(w, u, now, offered, connected);
    KeptIs(w.rank, offered, connected);
    ConfirmAllLeavesNoConflict(w.rank, offered, connected);
    BackedUnlessOrphan(w, r, pool, now);
  }

  lemma BackedUnlessOrphan(w: World, r: Reorg, pool: Txs, now: Utxo)
    requires Replay(r.base).Some? && |r.policies| == |r.Again()| && Ranked(w.rank, r.Offered(pool))
    requires Advances(r.Fork(), TxsOf(r.branch), now) && OfferedFrom(now, pool, r.Offered(pool))
    requires var kept := ConfirmAll(w.rank, r.Offered(pool), TxsOf(r.branch));
             PartOf(r.Offered(pool), kept) && forall t :: t in kept <==>
                 Stays(w.rank, r.Offered(pool), TxsOf(r.branch), t)
    ensures var kept := ConfirmAll(w.rank, r.Offered(pool), TxsOf(r.branch));
            (forall t, i: nat :: t in kept && i < |kept[t].vin| ==>
               Backed(r.Fork(), r.Offered(pool), TxsOf(r.branch), kept[t].vin[i])) <==>
            forall t :: !r.Orphans(w, pool, t)
  {
    hide ConfirmAll, Advances, Backed, Acyclic, Replay, TxsOf, Stays, Reorg.Again, Reorg.Offered, Provided;
    var offered, connected := r.Offered(pool), TxsOf(r.branch);
    var kept := ConfirmAll(w.rank, offered, connected);
    forall t, i: nat | t in kept && t !in pool && i < |kept[t].vin|
      ensures Backed(r.Fork(), offered, connected, kept[t].vin[i]) {
      AcceptedIsBacked(r.Fork(), now, offered, connected, kept[t].vin[i]);
    }
    forall t | t in kept && t in pool ensures kept[t] == pool[t] {
    }
    if forall t :: !r.Orphans(w, pool, t) {
      forall t, i: nat | t in kept && i < |kept[t].vin| ensures Backed(r.Fork(), offered, connected, kept[t].vin[i]) {
        if t in pool {
          assert kept[t].vin[i] in pool[t].vin && !r.Orphans(w, pool, t);
        }
      }
    }
  }

  /** If every input was provided before, what an orphan misses is an output of a disconnected block. */
  lemma OrphansLostOutputs(w: World, r: Reorg, pool: Txs, t: Txid)
    requires Replay(r.base + r.former).Some? && Bip30Enforced(r.former)
    requires |r.policies| == |r.Again()| && (forall i :: 0 <= i < |r.policies| ==> r.policies[i].checkInputs)
    requires Ranked(w.rank, r.Offered(pool))
    requires Spendable(Replay(r.base + r.former).value.utxo, pool)
    ensures Replay(r.base).Some?
    ensures r.Orphans(w, pool, t) ==>
              exists op :: op in pool[t].vin && Lost(r.Fork(), r.Offered(pool), TxsOf(r.former), TxsOf(r.branch), op)
  {
    hide Advances, Backed, Acyclic, Replay, TxsOf, Made, Provided, Stays, Reorg.Again, OfferedFrom, Lost;
    BranchAdvances(r.base, r.former);
    OfferAllIsOffered(r.tip, pool, r.Again(), r.policies);
    OfferedHasPool(Live(r.tip), pool, r.Offered(pool));
    if r.Orphans(w, pool, t) {
      var op :| op in pool[t].vin && !Backed(r.Fork(), r.Offered(pool), TxsOf(r.branch), op);
      var i :| 0 <= i < |pool[t].vin| && pool[t].vin[i] == op;
      var was := Replay(r.base + r.former).value.utxo;
      assert Provided(was, pool, pool[t].vin[i]);
      BackedUnlessLost(r.Fork(), was, pool, r.Offered(pool), TxsOf(r.former), TxsOf(r.branch), op);
      LostIsNotBacked(r.Fork(), r.Offered(pool), TxsOf(r.former), TxsOf(r.branch), op);
    }
  }

  lemma OfferedHasPool(u: Utxo, pool: Txs, offered: Txs)
    requires OfferedFrom(u, pool, offered)
    ensures PartOf(offered, pool)
  {
  }

  lemma LostIsNotBacked(u: Utxo, offered: Txs, gone: seq<Tx>, connected: seq<Tx>, op: OutPoint)
    ensures Lost(u, offered, gone, connected, op) ==> !Backed(u, offered, connected, op)
  {
  }

  /**
   The end of SetBestChain for the pool.  It holds what was there or accepted again, less what was connected or
   displaced, and every input is provided if and only if nothing is orphaned.
   */
  method FollowReorg(pool: Pool, r: Reorg)
    requires pool.Valid() && r.Valid(pool.world)
    modifies pool
    ensures pool.Valid() && Replay(r.base).Some? && Ranked(pool.world.rank, r.Offered(old(pool.mapTx)))
    ensures forall t :: t in pool.mapTx <==> Stays(pool.world.rank, r.Offered(old(pool.mapTx)), TxsOf(r.branch), t)
    ensures Spendable(Live(r.tip), pool.mapTx) <==> forall t :: !r.Orphans(pool.world, old(pool.mapTx), t)
  {
    hide ConfirmAll, Stays, Spendable, Replay, TxsOf, Reorg.Again, Reorg.Orphans, World.AllGenuine, WornSet, NoConflict;
    var offered := FollowBestChain(pool, r.tip, r.Again(), r.policies, TxsOf(r.branch));
    SpendableIffNoOrphan(pool.world, r, old(pool.mapTx));
    KeptIs(pool.world.rank, offered, TxsOf(r.branch));
  }
}
