/**
 The operations of the memory pool (src/main.cpp:640-873), each against its effect on the set of transactions, and the
 update of the pool after a change of the best chain (src/main.cpp:2024-2036).
 */
module TxMemPool {
  import opened Coins
  import opened Ledger
  import opened MemPool
  import LI = LedgerInverse
  import Arith
  import Textbook

  const MEMPOOL_HEIGHT: nat := 0x7FFF_FFFF

  /** The chain's answers in front of the pool's transactions (CCoinsViewMemPool over pcoinsTip). */
  function PoolView(tip: Utxo, pool: Txs): Utxo
  {
    (map t | t in pool :: CoinsOf(pool[t], MEMPOOL_HEIGHT)) + tip
  }

  /** What accept asks of the outside: rules on standard form, fees and rates, all left arbitrary, and the scripts. */
  datatype Policy = Policy(standard: bool, checkInputs: bool, inputsAndFees: bool, rules: Rules, height: nat)

  /** accept checks all scripts, whatever the rules for connecting blocks say. */
  function Checking(rules: Rules): Rules { rules.(scriptChecks := true) }

  predicate Acceptable(tip: Utxo, pool: Txs, next: Index, tx: Tx, policy: Policy)
  {
    var view := PoolView(tip, pool);
    && CheckTransaction(tx) && !tx.IsCoinBase() && policy.standard
    && tx.txid !in pool
    && (forall i :: 0 <= i < |tx.vin| ==> tx.vin[i] !in next)
    && (policy.checkInputs ==>
          && tx.txid !in view
          && (forall i :: 0 <= i < |tx.vin| ==> tx.vin[i].hash in view)
          && HaveInputs(view, tx) && policy.inputsAndFees
          && CheckAmounts(view, tx, policy.height) && ScriptsOk(Checking(policy.rules), view, tx))
  }

  // ----- what an accepted transaction has shown -----

  /** The output that chain or pool has to offer at a place; the chain is asked first. */
  ghost function Offer(tip: Utxo, pool: Txs, op: OutPoint): Option<TxOut>
  {
    var vout := if op.hash in tip then tip[op.hash].vout else if op.hash in pool then pool[op.hash].vout else [];
    if op.n < |vout| && vout[op.n].value != -1 then Some(vout[op.n]) else None
  }

  ghost function OfferedValues(tip: Utxo, pool: Txs, vin: seq<OutPoint>): seq<int>
  {
    seq(|vin|, i requires 0 <= i < |vin| =>
      var out := Offer(tip, pool, vin[i]); if out.Some? then out.value.value else 0)
  }

  /**
   Chain and pool offer everything that the transaction spends, each script agrees, what comes from a coinbase is old
   enough, and no more is paid than spent.
   */
  ghost predicate MayBeMined(tip: Utxo, pool: Txs, tx: Tx, engine: ScriptEngine, height: nat)
  {
    && (forall i :: 0 <= i < |tx.vin| ==>
          var op := tx.vin[i];
          && Offer(tip, pool, op).Some? && engine.verify(tx, i, Offer(tip, pool, op).value)
          && (op.hash in tip && tip[op.hash].coinBase ==> tip[op.hash].height + 100 <= height))
    && Arith.Sum(Textbook.ValuesOut(tx.vout)) <= Arith.Sum(OfferedValues(tip, pool, tx.vin))
  }

  lemma AcceptedMayBeMined(tip: Utxo, pool: Txs, next: Index, tx: Tx, policy: Policy)
    requires Acceptable(tip, pool, next, tx, policy) && policy.checkInputs
    ensures MayBeMined(tip, pool, tx, policy.rules.engine, policy.height)
    ensures tx.txid !in tip && tx.txid !in pool && forall i :: 0 <= i < |tx.vin| ==> tx.vin[i] !in next
  {
    hide CheckTransaction, CheckAmounts, ScriptsOk, HaveInputs, PoolView;
    ShownByChecks(tip, pool, tx, policy);
    hide Textbook.Outputs, Offer;
    var view := PoolView(tip, pool);
    forall i | 0 <= i < |tx.vin|
      ensures var op := tx.vin[i];
              && op in Textbook.Outputs(view) && Offer(tip, pool, op) == Some(Textbook.Outputs(view)[op].out)
              && policy.rules.engine.verify(tx, i, Offer(tip, pool, op).value)
              && (op.hash in tip && tip[op.hash].coinBase ==> tip[op.hash].height + 100 <= policy.height)
    {
      assert Textbook.InputOk(Textbook.Outputs(view), tx.vin[i], policy.height);
      OfferIs(tip, pool, tx.vin[i]);
    }
    assert OfferedValues(tip, pool, tx.vin) == Textbook.ValuesIn(Textbook.Outputs(view), tx.vin);
    NotInView(tip, pool, tx.txid);
  }

  lemma ShownByChecks(tip: Utxo, pool: Txs, tx: Tx, policy: Policy)
    requires CheckTransaction(tx) && !tx.IsCoinBase()
    ensures var view := PoolView(tip, pool);
            && (CheckAmounts(view, tx, policy.height) <==>
                 Textbook.SpenderOk(Textbook.Outputs(view), tx, policy.height))
            && (ScriptsOk(Checking(policy.rules), view, tx) <==>
                 forall i :: 0 <= i < |tx.vin| ==>
                   policy.rules.engine.verify(tx, i, Textbook.OutAt(Textbook.Outputs(view), tx.vin[i])))
  {
    Textbook.AmountsIff(PoolView(tip, pool), tx, policy.height);
    Textbook.SignedIff(Checking(policy.rules), PoolView(tip, pool), tx);
  }

  lemma NotInView(tip: Utxo, pool: Txs, t: Txid)
    ensures t in PoolView(tip, pool) <==> t in tip || t in pool
  {
  }

  lemma OfferIs(tip: Utxo, pool: Txs, op: OutPoint)
    requires op in Textbook.Outputs(PoolView(tip, pool))
    ensures var coin := Textbook.Outputs(PoolView(tip, pool))[op];
            && Offer(tip, pool, op) == Some(coin.out)
            && (op.hash in tip ==> coin.coinBase == tip[op.hash].coinBase && coin.height == tip[op.hash].height)
  {
  }

  // ----- what the chain's cache still holds -----

  predicate PrunedIn(tip: Utxo, t: Txid) { t in tip && tip[t].IsPruned() }

  /** The set that a cache represents: entries that are spent completely stand for nothing. */
  function Live(tip: Utxo): Utxo { map t | t in tip && !tip[t].IsPruned() :: tip[t] }

  /** The cache answers with a pruned entry for the transaction itself, or for one of the pool that it spends. */
  predicate Hidden(tip: Utxo, pool: Txs, tx: Tx)
  {
    PrunedIn(tip, tx.txid) || exists i :: 0 <= i < |tx.vin| && tx.vin[i].hash in pool && PrunedIn(tip, tx.vin[i].hash)
  }

  /** Pruned entries of the cache make a difference to accept exactly when they hide something. */
  lemma AcceptableBehindCache(tip: Utxo, pool: Txs, next: Index, tx: Tx, policy: Policy)
    ensures Acceptable(tip, pool, next, tx, policy) <==>
            Acceptable(Live(tip), pool, next, tx, policy) && !(policy.checkInputs && Hidden(tip, pool, tx))
  {
    hide CheckTransaction, CheckAmounts, ScriptsOk, HaveInputs, PoolView, Agree;
    if tx.IsCoinBase() {
      return;
    }
    HiddenMeans(tip, pool, tx);
    if forall i :: 0 <= i < |tx.vin| ==> !PrunedIn(tip, tx.vin[i].hash) {
      ViewsAgree(tip, pool, tx.vin);
      ChecksAgree(Checking(policy.rules), PoolView(tip, pool), PoolView(Live(tip), pool), tx, policy.height);
    }
    if !PrunedIn(tip, tx.txid) {
      ViewHas(tip, pool, tx);
    }
  }

  lemma ViewHas(tip: Utxo, pool: Txs, tx: Tx)
    requires !PrunedIn(tip, tx.txid)
    ensures tx.txid in PoolView(tip, pool) <==> tx.txid in PoolView(Live(tip), pool)
    ensures (forall i :: 0 <= i < |tx.vin| ==> !PrunedIn(tip, tx.vin[i].hash)) ==>
              forall i :: 0 <= i < |tx.vin| ==>
                (tx.vin[i].hash in PoolView(tip, pool) <==> tx.vin[i].hash in PoolView(Live(tip), pool))
  {
  }

  /**
   A pruned entry at an input never lets the inputs be found; without one in the way the set answers as the cache does.
   */
  lemma HiddenMeans(tip: Utxo, pool: Txs, tx: Tx)
    requires !tx.IsCoinBase()
    ensures HaveInputs(PoolView(tip, pool), tx) ==> forall i :: 0 <= i < |tx.vin| ==> !PrunedIn(tip, tx.vin[i].hash)
    ensures HaveInputs(PoolView(Live(tip), pool), tx) && !Hidden(tip, pool, tx) ==>
              forall i :: 0 <= i < |tx.vin| ==> !PrunedIn(tip, tx.vin[i].hash)
    ensures PrunedIn(tip, tx.txid) ==> tx.txid in PoolView(tip, pool)
  {
    if HaveInputs(PoolView(tip, pool), tx) {
      forall i | 0 <= i < |tx.vin| ensures !PrunedIn(tip, tx.vin[i].hash) {
        assert Unspent(PoolView(tip, pool), tx.vin[i]);
      }
    }
    if HaveInputs(PoolView(Live(tip), pool), tx) && !Hidden(tip, pool, tx) {
      forall i | 0 <= i < |tx.vin| ensures !PrunedIn(tip, tx.vin[i].hash) {
        assert Unspent(PoolView(Live(tip), pool), tx.vin[i]);
      }
    }
  }

  lemma ViewsAgree(tip: Utxo, pool: Txs, vin: seq<OutPoint>)
    requires forall i :: 0 <= i < |vin| ==> !PrunedIn(tip, vin[i].hash)
    ensures Agree(PoolView(tip, pool), PoolView(Live(tip), pool), vin)
  {
  }

  /**
   Two caches of the same set give different answers exactly when one of them alone hides an acceptable transaction.
   */
  lemma SameAnswer(a: Utxo, b: Utxo, pool: Txs, next: Index, tx: Tx, policy: Policy)
    requires Live(a) == Live(b)
    ensures (Acceptable(a, pool, next, tx, policy) <==> Acceptable(b, pool, next, tx, policy)) <==>
            !Acceptable(Live(a), pool, next, tx, policy) || !policy.checkInputs ||
              (Hidden(a, pool, tx) <==> Hidden(b, pool, tx))
  {
    hide Acceptable, Hidden;
    AcceptableBehindCache(a, pool, next, tx, policy);
    AcceptableBehindCache(b, pool, next, tx, policy);
  }

  /**
   While a pruned entry for a transaction is in the cache, accept refuses the transaction, although the set may be one
   from which it can be accepted.
   */
  lemma PrunedIsHidden(tip: Utxo, pool: Txs, next: Index, tx: Tx, policy: Policy)
    requires policy.checkInputs && PrunedIn(tip, tx.txid)
    ensures !Acceptable(tip, pool, next, tx, policy)
  {
  }

  /** One unspent coin and the transaction that spends it: acceptable, unless a pruned entry for it is in the cache. */
  lemma HiddenExample(policy: Policy)
    requires policy.standard && policy.checkInputs && policy.inputsAndFees
    requires policy.rules.engine.verify(SPENDS_IT, 0, TxOut(1, []))
    ensures Acceptable(ONE_COIN, map[], map[], SPENDS_IT, policy)
    ensures !Acceptable(ONE_COIN[2 := NO_COINS], map[], map[], SPENDS_IT, policy)
    ensures Live(ONE_COIN[2 := NO_COINS]) == Live(ONE_COIN)
  {
    hide SumInputs;
    var view := PoolView(ONE_COIN, map[]);
    assert view == ONE_COIN;
    var vin, vout := SPENDS_IT.vin, SPENDS_IT.vout;
    assert vout[..0] == [] && SumValues(vout) == SumValues(vout[..0]) + 1;
    assert CheckTransaction(SPENDS_IT);
    OneInput(view, vin[0]);
    assert vin == [vin[0]] && vin[..0] == [];
    assert Get(view, 1) == ONE_COIN[1] && OutputAt(view, vin[0]).value == 1;
    assert InputsInOrder(view, vin[..0], policy.height) && InputsInOrder(view, vin, policy.height);
    assert CheckAmounts(view, SPENDS_IT, policy.height);
  }

  lemma OneInput(u: Utxo, op: OutPoint)
    ensures SumInputs(u, [op]) == OutputAt(u, op).value
  {
    assert [op][..0] == [];
  }

  const ONE_COIN: Utxo := map[1 := Coins(false, [TxOut(1, [])], 1, 1)]
  const SPENDS_IT := Tx(2, 1, [OutPoint(1, 0)], [TxOut(1, [])])

  lemma IndexedAfterAdd(pool: Txs, next: Index, tx: Tx, next': Index)
    requires Indexed(pool, next) && tx.txid !in pool && DistinctOutPoints(tx.vin)
    requires forall i :: 0 <= i < |tx.vin| ==> tx.vin[i] !in next
    requires forall op :: op in next' <==> op in next || op in tx.vin
    requires forall op :: op in next ==> next'[op] == next[op]
    requires forall i :: 0 <= i < |tx.vin| ==> next'[tx.vin[i]] == InPoint(tx.txid, i)
    ensures Indexed(pool[tx.txid := tx], next')
  {
  }

  lemma IndexedAfterRemove(pool: Txs, next: Index, a: Txid)
    requires Indexed(pool, next) && a in pool
    ensures Indexed(pool - {a}, next - (set op | op in pool[a].vin))
  {
    var next' := next - (set op | op in pool[a].vin);
    forall t, i | t in pool - {a} && 0 <= i < |pool[t].vin|
      ensures pool[t].vin[i] in next' && next'[pool[t].vin[i]] == InPoint(t, i)
    {
      if pool[t].vin[i] in pool[a].vin {
        assert pool[t].vin[i] in pool[t].vin;
        SameSpender(pool, next, t, a, pool[t].vin[i]);
      }
    }
    assert forall op :: op in next ==> op in pool[next[op].txid].vin;
  }

  /** What there is to know about transaction ids: which transaction each one names, and an order of spending. */
  datatype World = World(body: Txid -> Tx, rank: Rank)
  {
    /** A transaction is the one that its id names, and spends only older ones. */
    ghost predicate Genuine(tx: Tx) { tx == body(tx.txid) && Acyclic(rank, tx) }

    ghost predicate AllGenuine(txs: seq<Tx>) { forall i :: 0 <= i < |txs| ==> Genuine(txs[i]) }
  }

  ghost predicate AllGenuineIn(w: World, pool: Txs) { forall t :: t in pool ==> w.Genuine(pool[t]) }

  class Pool {
    var mapTx: Txs
    var mapNextTx: Index
    ghost const world: World

    ghost predicate Valid()
      reads this
    {
      Indexed(mapTx, mapNextTx) && Ranked(world.rank, mapTx) && AllGenuineIn(world, mapTx)
    }

    constructor (ghost world: World)
      ensures Valid() && mapTx == map[] && this.world == world
    {
      mapTx, mapNextTx := map[], map[];
      this.world := world;
    }

    method Clear()
      modifies this
      ensures Valid() && mapTx == map[] && mapNextTx == map[]
    {
      mapTx, mapNextTx := map[], map[];
    }

    method AddUnchecked(tx: Tx)
      requires Valid() && world.Genuine(tx) && DistinctOutPoints(tx.vin) && tx.txid !in mapTx
      requires forall i :: 0 <= i < |tx.vin| ==> tx.vin[i] !in mapNextTx
      modifies this
      ensures Valid() && mapTx == old(mapTx)[tx.txid := tx]
    {
      ghost var before := mapNextTx;
      mapTx := mapTx[tx.txid := tx];
      for i := 0 to |tx.vin|
        invariant mapTx == old(mapTx)[tx.txid := tx]
        invariant forall op :: op in mapNextTx <==> op in before || op in tx.vin[..i]
        invariant forall op :: op in before ==> mapNextTx[op] == before[op]
        invariant forall k :: 0 <= k < i ==> mapNextTx[tx.vin[k]] == InPoint(tx.txid, k)
      {
        mapNextTx := mapNextTx[tx.vin[i] := InPoint(tx.txid, i)];
        assert tx.vin[..i + 1] == tx.vin[..i] + [tx.vin[i]];
      }
      assert tx.vin[..|tx.vin|] == tx.vin;
      IndexedAfterAdd(old(mapTx), before, tx, mapNextTx);
    }

    /** accept: the transaction joins the pool exactly when it is acceptable. */
    method Accept(tip: Utxo, tx: Tx, policy: Policy) returns (ok: bool)
      requires Valid() && world.Genuine(tx)
      modifies this
      ensures Valid()
      ensures ok <==> Acceptable(tip, old(mapTx), old(mapNextTx), tx, policy)
      ensures mapTx == if ok then old(mapTx)[tx.txid := tx] else old(mapTx)
      ensures ok && policy.checkInputs ==> MayBeMined(tip, old(mapTx), tx, policy.rules.engine, policy.height)
    {
      hide ScriptsOk, CheckAmounts, Indexed, Ranked, MayBeMined;
      if !CheckTransaction(tx) || tx.IsCoinBase() || !policy.standard { return false; }
      if tx.txid in mapTx { return false; }
      for i := 0 to |tx.vin|
        invariant forall k :: 0 <= k < i ==> tx.vin[k] !in mapNextTx
      {
        if tx.vin[i] in mapNextTx { return false; }
      }
      if policy.checkInputs {
        var view := PoolView(tip, mapTx);
        if tx.txid in view { return false; }
        for i := 0 to |tx.vin|
          invariant forall k :: 0 <= k < i ==> tx.vin[k].hash in view
        {
          if tx.vin[i].hash !in view { return false; }
        }
        if !HaveInputs(view, tx) || !policy.inputsAndFees { return false; }
        if !CheckAmounts(view, tx, policy.height) || !ScriptsOk(Checking(policy.rules), view, tx) { return false; }
      }
      if policy.checkInputs {
        AcceptedMayBeMined(tip, mapTx, mapNextTx, tx, policy);
      }
      AddUnchecked(tx);
      ok := true;
    }

    /** The last part of remove: the inputs leave the index and the transaction the pool. */
    method Erase(tx: Tx)
      requires Valid() && tx.txid in mapTx && mapTx[tx.txid] == tx
      modifies this
      ensures Valid() && mapTx == old(mapTx) - {tx.txid}
    {
      ghost var before := mapNextTx;
      for i := 0 to |tx.vin|
        invariant mapTx == old(mapTx)
        invariant mapNextTx == before - (set op | op in tx.vin[..i])
      {
        assert tx.vin[..i + 1] == tx.vin[..i] + [tx.vin[i]];
        mapNextTx := mapNextTx - {tx.vin[i]};
      }
      assert tx.vin[..|tx.vin|] == tx.vin;
      IndexedAfterRemove(mapTx, before, tx.txid);
      mapTx := mapTx - {tx.txid};
    }

    /** remove: a transaction alone, or with exactly the transactions in the pool that descend from it. */
    method Remove(tx: Tx, recursive: bool)
      requires Valid() && world.Genuine(tx)
      modifies this
      ensures Valid()
      ensures mapTx ==
        if tx.txid !in old(mapTx) then old(mapTx)
        else if recursive then Without(world.rank, old(mapTx), tx.txid) else old(mapTx) - {tx.txid}
    {
      if tx.txid in mapTx {
        if recursive {
          RemoveSpenders(tx, RankBound(world.rank, mapTx.Keys));
        }
        Erase(tx);
      }
    }

    /** The recursive part of remove: whatever spends an output of a transaction in the pool, with its descendants. */
    method RemoveSpenders(tx: Tx, ghost bound: nat)
      requires Valid() && tx.txid in mapTx && mapTx[tx.txid] == tx
      requires forall t :: t in mapTx ==> world.rank(t) <= bound
      modifies this
      ensures Valid() && tx.txid in mapTx && mapTx[tx.txid] == tx
      ensures mapTx - {tx.txid} == Without(world.rank, old(mapTx), tx.txid)
      decreases bound - world.rank(tx.txid)
    {
      hide Indexed, Descends, Acyclic;
      ghost var pool, next := mapTx, mapNextTx;
      NothingToRemove(world.rank, pool);
      for i := 0 to |tx.vout|
        invariant Valid() && mapTx == WithoutSpenders(world.rank, pool, Outputs(tx.txid, i))
      {
        var op := OutPoint(tx.txid, i);
        assert Outputs(tx.txid, i + 1) == Outputs(tx.txid, i) + [op];
        SpenderInIndex(mapTx, mapNextTx, op);
        if op in mapNextTx {
          var child := mapTx[mapNextTx[op].txid];
          SpenderDescends(world.rank, pool, tx.txid, child.txid, i);
          NextSpent(world.rank, pool, next, Outputs(tx.txid, i), op, child.txid);
          RemoveSpenders(child, bound);
          Erase(child);
        } else {
          NextUnspent(world.rank, pool, Outputs(tx.txid, i), op);
        }
      }
      OnlyItselfRemains(world.rank, pool, tx.txid);
    }

    /** removeConflicts: whatever else spends an input of the transaction, with its descendants. */
    method RemoveConflicts(tx: Tx)
      requires Valid() && world.Genuine(tx)
      modifies this
      ensures Valid()
      ensures mapTx == if tx.txid in old(mapTx) then old(mapTx) else WithoutSpenders(world.rank, old(mapTx), tx.vin)
    {
      hide Indexed, Descends, Acyclic;
      ghost var pool, next := mapTx, mapNextTx;
      NothingToRemove(world.rank, pool);
      for i := 0 to |tx.vin|
        invariant Valid()
        invariant mapTx == if tx.txid in pool then pool else WithoutSpenders(world.rank, pool, tx.vin[..i])
        invariant tx.txid in pool ==> mapNextTx == next
      {
        var op := tx.vin[i];
        assert tx.vin[..i + 1] == tx.vin[..i] + [op];
        SpenderInIndex(mapTx, mapNextTx, op);
        if op in mapNextTx {
          var conflict := mapTx[mapNextTx[op].txid];
          if tx.txid in pool {
            SameSpender(pool, next, tx.txid, conflict.txid, op);
          } else {
            NextSpent(world.rank, pool, next, tx.vin[..i], op, conflict.txid);
          }
          if conflict != tx {
            Remove(conflict, true);
          }
        } else if tx.txid !in pool {
          NextUnspent(world.rank, pool, tx.vin[..i], op);
        }
      }
      assert tx.vin[..|tx.vin|] == tx.vin;
    }
  }

  /** An output is in the index exactly when a transaction in the pool spends it. */
  lemma SpenderInIndex(pool: Txs, next: Index, op: OutPoint)
    requires Indexed(pool, next)
    ensures op in next ==> Spends(pool, next[op].txid, op)
    ensures op !in next ==> forall c :: !Spends(pool, c, op)
  {
  }

  // ----- a new best chain -----

  /** What a transaction that was connected does to the pool: it leaves, and so does whatever conflicts with it. */
  ghost function Confirm(rank: Rank, pool: Txs, tx: Tx): (r: Txs)
    requires Ranked(rank, pool)
    ensures Ranked(rank, r) && r.Keys <= pool.Keys
  {
    var rest := pool - {tx.txid};
    assert Ranked(rank, rest) && forall t :: t in rest ==> rest[t] == pool[t];
    WithoutSpenders(rank, rest, tx.vin)
  }

  ghost function ConfirmAll(rank: Rank, pool: Txs, txs: seq<Tx>): (r: Txs)
    requires Ranked(rank, pool)
    ensures Ranked(rank, r) && r.Keys <= pool.Keys
  {
    if txs == [] then pool else Confirm(rank, ConfirmAll(rank, pool, txs[..|txs| - 1]), txs[|txs| - 1])
  }

  ghost predicate PartOf(pool: Txs, part: Txs)
  {
    forall t :: t in part ==> t in pool && part[t] == pool[t]
  }

  lemma PartOfItself(a: Txs)
    ensures PartOf(a, a)
  {
  }

  lemma PartOfPart(a: Txs, b: Txs, c: Txs)
    requires PartOf(a, b) && PartOf(b, c)
    ensures PartOf(a, c)
  {
  }

  /** No transaction in the pool is, or spends the same output as, a given one. */
  ghost predicate NoConflict(pool: Txs, tx: Tx)
  {
    tx.txid !in pool && forall j :: 0 <= j < |tx.vin| ==> forall c :: !Spends(pool, c, tx.vin[j])
  }

  lemma SpendersLeave(rank: Rank, pool: Txs, ops: seq<OutPoint>, j: nat, c: Txid)
    requires Ranked(rank, pool) && j < |ops| && Spends(pool, c, ops[j])
    ensures c !in WithoutSpenders(rank, pool, ops)
  {
    assert Descends(rank, pool, c, c);
  }

  lemma ConfirmLeavesNoConflict(rank: Rank, pool: Txs, tx: Tx)
    requires Ranked(rank, pool)
    ensures NoConflict(Confirm(rank, pool, tx), tx)
    ensures PartOf(pool, Confirm(rank, pool, tx))
  {
    var rest := pool - {tx.txid};
    var kept := Confirm(rank, pool, tx);
    forall j, c | 0 <= j < |tx.vin| ensures !Spends(kept, c, tx.vin[j]) {
      if Spends(rest, c, tx.vin[j]) {
        SpendersLeave(rank, rest, tx.vin, j, c);
      }
    }
  }

  /** After every newly connected transaction was processed, the pool conflicts with none of them. */
  lemma {:induction false} ConfirmAllLeavesNoConflict(rank: Rank, pool: Txs, txs: seq<Tx>)
    requires Ranked(rank, pool)
    ensures forall k :: 0 <= k < |txs| ==> NoConflict(ConfirmAll(rank, pool, txs), txs[k])
    ensures PartOf(pool, ConfirmAll(rank, pool, txs))
  {
    hide Confirm, NoConflict, PartOf, Ranked;
    if txs == [] {
      PartOfItself(pool);
    } else {
      var n := |txs| - 1;
      var before := ConfirmAll(rank, pool, txs[..n]);
      ConfirmAllLeavesNoConflict(rank, pool, txs[..n]);
      ConfirmLeavesNoConflict(rank, before, txs[n]);
      PartOfPart(pool, before, ConfirmAll(rank, pool, txs));
      forall k | 0 <= k < n ensures NoConflict(ConfirmAll(rank, pool, txs), txs[k]) {
        assert txs[..n][k] == txs[k];
        FewerConflicts(before, Confirm(rank, before, txs[n]), txs[k]);
      }
    }
  }

  lemma FewerConflicts(pool: Txs, part: Txs, tx: Tx)
    requires NoConflict(pool, tx) && PartOf(pool, part)
    ensures NoConflict(part, tx)
  {
    forall j, c | 0 <= j < |tx.vin| ensures !Spends(part, c, tx.vin[j]) {
      assert !Spends(pool, c, tx.vin[j]);
    }
  }

  /** Acceptable, with the index that describes the pool. */
  ghost predicate Joins(tip: Utxo, pool: Txs, tx: Tx, policy: Policy)
  {
    exists next :: Indexed(pool, next) && Acceptable(tip, pool, next, tx, policy)
  }

  /** The pool after transactions were offered to it, one after the other. */
  ghost function OfferAll(tip: Utxo, pool: Txs, txs: seq<Tx>, policies: seq<Policy>): Txs
    requires |policies| == |txs|
  {
    if txs == [] then pool
    else
      var n := |txs| - 1;
      var before := OfferAll(tip, pool, txs[..n], policies[..n]);
      if Joins(tip, before, txs[n], policies[n]) then before[txs[n].txid := txs[n]] else before
  }

  lemma JoinsIs(tip: Utxo, pool: Txs, next: Index, tx: Tx, policy: Policy)
    requires Indexed(pool, next)
    ensures Joins(tip, pool, tx, policy) <==> Acceptable(tip, pool, next, tx, policy)
  {
    hide Acceptable, Indexed;
    forall other | Indexed(pool, other) ensures other == next {
      SameIndex(pool, next, other);
    }
  }

  lemma SameIndex(pool: Txs, a: Index, b: Index)
    requires Indexed(pool, a) && Indexed(pool, b)
    ensures a == b
  {
    forall op ensures op in a <==> op in b {
      if op in a {
        assert pool[a[op].txid].vin[a[op].n] in b;
      }
      if op in b {
        assert pool[b[op].txid].vin[b[op].n] in a;
      }
    }
    forall op | op in a ensures a[op] == b[op] {
      assert pool[a[op].txid].vin[a[op].n] in b;
    }
  }

  /**
   The end of SetBestChain: transactions of disconnected blocks are offered to the pool again, those of connected blocks
   leave it.
   */
  method FollowBestChain(pool: Pool, tip: Utxo, resurrect: seq<Tx>, policies: seq<Policy>, delete: seq<Tx>)
    returns (ghost offered: Txs)
    requires pool.Valid() && |policies| == |resurrect|
    requires pool.world.AllGenuine(resurrect) && pool.world.AllGenuine(delete)
    modifies pool
    ensures pool.Valid()
    ensures offered == OfferAll(tip, old(pool.mapTx), resurrect, policies) && AllGenuineIn(pool.world, offered)
    ensures Ranked(pool.world.rank, offered) && pool.mapTx == ConfirmAll(pool.world.rank, offered, delete)
    ensures forall k :: 0 <= k < |delete| ==> NoConflict(pool.mapTx, delete[k])
  {
    hide Confirm, Acceptable, Indexed, Ranked, NoConflict, Joins;
    for i := 0 to |resurrect|
      invariant pool.Valid()
      invariant pool.mapTx == OfferAll(tip, old(pool.mapTx), resurrect[..i], policies[..i])
    {
      assert resurrect[..i + 1][..i] == resurrect[..i] && policies[..i + 1][..i] == policies[..i];
      JoinsIs(tip, pool.mapTx, pool.mapNextTx, resurrect[i], policies[i]);
      var _ := pool.Accept(tip, resurrect[i], policies[i]);
    }
    assert resurrect[..|resurrect|] == resurrect && policies[..|resurrect|] == policies;
    offered := pool.mapTx;
    for k := 0 to |delete|
      invariant pool.Valid() && pool.mapTx == ConfirmAll(pool.world.rank, offered, delete[..k])
    {
      assert delete[..k + 1][..k] == delete[..k];
      ghost var before := pool.mapTx;
      pool.Remove(delete[k], false);
      assert pool.mapTx == before - {delete[k].txid};
      pool.RemoveConflicts(delete[k]);
      ConfirmIs(pool.world.rank, before, delete[k]);
    }
    assert delete[..|delete|] == delete;
    ConfirmAllLeavesNoConflict(pool.world.rank, offered, delete);
  }

  lemma ConfirmIs(rank: Rank, pool: Txs, tx: Tx)
    requires Ranked(rank, pool)
    ensures Ranked(rank, pool - {tx.txid}) && Confirm(rank, pool, tx) == WithoutSpenders(rank, pool - {tx.txid}, tx.vin)
  {
  }

  // ----- what the pool spends -----

  /** An output that the chain or another transaction in the pool provides. */
  predicate Provided(u: Utxo, pool: Txs, op: OutPoint)
  {
    Unspent(u, op) || (op.hash in pool && op.n < |pool[op.hash].vout| && !pool[op.hash].vout[op.n].IsNull())
  }

  ghost predicate Spendable(u: Utxo, pool: Txs)
  {
    forall t, i :: t in pool && 0 <= i < |pool[t].vin| ==> Provided(u, pool, pool[t].vin[i])
  }

  /** Without that check, as for a transaction of the wallet, the pool takes one whose input nobody provides. */
  lemma UncheckedIsNotSpendable(policy: Policy)
    requires policy.standard && !policy.checkInputs
    ensures Acceptable(map[], map[], map[], SPENDS_IT, policy) && !Spendable(map[], map[2 := SPENDS_IT])
  {
    var pool: Txs := map[2 := SPENDS_IT];
    var vout := SPENDS_IT.vout;
    assert vout[..0] == [] && SumValues(vout) == SumValues(vout[..0]) + 1;
    assert !Provided(map[], pool, pool[2].vin[0]);
  }

  /** Accepting a transaction with its inputs checked keeps the pool spendable. */
  lemma AcceptKeepsSpendable(u: Utxo, pool: Txs, next: Index, tx: Tx, policy: Policy)
    requires Spendable(u, pool) && policy.checkInputs && Acceptable(u, pool, next, tx, policy)
    ensures Spendable(u, pool[tx.txid := tx])
  {
    var pool' := pool[tx.txid := tx];
    forall t, i | t in pool' && 0 <= i < |pool'[t].vin| ensures Provided(u, pool', pool'[t].vin[i]) {
      if t != tx.txid {
        assert Provided(u, pool, pool[t].vin[i]);
      } else {
        assert Unspent(PoolView(u, pool), tx.vin[i]);
      }
    }
  }
}
