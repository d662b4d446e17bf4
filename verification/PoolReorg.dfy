/**
 What a reorganisation does to the memory pool: which inputs are still provided by chain or pool after the transactions
 of the disconnected blocks were offered again and those of the connected blocks left (src/main.cpp:1946-2036).
 */
module PoolReorg {
  import opened Coins
  import opened Ledger
  import LI = LedgerInverse
  import opened LedgerRuns
  import opened MemPool
  import opened TxMemPool

  // ----- what connecting blocks does to single outputs -----

  /** The transactions of a branch in the order in which they are connected. */
  function TxsOf(branch: seq<Link>): seq<Tx>
  {
    if branch == [] then [] else TxsOf(branch[..|branch| - 1]) + branch[|branch| - 1].block.vtx
  }

  /** An output of one of the transactions. */
  ghost predicate Made(txs: seq<Tx>, op: OutPoint)
  {
    exists k :: 0 <= k < |txs| && txs[k].txid == op.hash && op.n < |txs[k].vout|
  }

  ghost predicate SpentBy(txs: seq<Tx>, op: OutPoint) { exists k :: 0 <= k < |txs| && op in txs[k].vin }

  /** An output that was there or was made is there afterwards unless it was spent, and no other one is. */
  ghost predicate Advances(before: Utxo, txs: seq<Tx>, after: Utxo)
  {
    forall op: OutPoint ::
      && (Unspent(before, op) || Made(txs, op) ==> Unspent(after, op) || SpentBy(txs, op))
      && (Unspent(after, op) ==> Unspent(before, op) || Made(txs, op))
  }

  lemma MadeBy(a: seq<Tx>, b: seq<Tx>, op: OutPoint)
    ensures Made(a + b, op) <==> Made(a, op) || Made(b, op)
    ensures SpentBy(a + b, op) <==> SpentBy(a, op) || SpentBy(b, op)
  {
    var all := a + b;
    assert forall k :: 0 <= k < |a| ==> all[k] == a[k];
    assert forall k :: 0 <= k < |b| ==> all[|a| + k] == b[k];
    assert forall k :: |a| <= k < |all| ==> all[k] == b[k - |a|];
  }

  lemma AdvancesTwice(u: Utxo, a: seq<Tx>, v: Utxo, b: seq<Tx>, w: Utxo)
    requires Advances(u, a, v) && Advances(v, b, w)
    ensures Advances(u, a + b, w)
  {
    hide Unspent, Made, SpentBy;
    forall op: OutPoint
      ensures Unspent(u, op) || Made(a + b, op) ==> Unspent(w, op) || SpentBy(a + b, op)
      ensures Unspent(w, op) ==> Unspent(u, op) || Made(a + b, op)
    {
      MadeBy(a, b, op);
    }
  }

  /** The set after one transaction, as far as it concerns single outputs. */
  lemma ConnectTxOutputs(rules: Rules, p: Progress, tx: Tx, height: nat, op: OutPoint)
    requires ValidUtxo(p.utxo) && height > 0 && CheckTransaction(tx) && tx.txid !in p.utxo
    requires ConnectTx(rules, p, tx, height).Some?
    ensures var u := ConnectTx(rules, p, tx, height).value.utxo;
            && (Unspent(p.utxo, op) && op !in tx.vin ==> Unspent(u, op))
            && (op.hash == tx.txid && op.n < |tx.vout| ==> Unspent(u, op))
  {
    hide CheckAmounts, HaveInputs, SumP2SH, ScriptsOk, ValueIn, ValueOut, SpendInputs;
    LI.CoinsOfWellFormed(tx, height);
    if op.hash == tx.txid && op.n < |tx.vout| {
      assert MoneyRange(tx.vout[op.n].value);
    }
    if !tx.IsCoinBase() {
      LI.SpendInputsEffect(p.utxo, tx.vin);
    }
  }

  lemma TxAdvances(rules: Rules, p: Progress, tx: Tx, height: nat)
    requires ValidUtxo(p.utxo) && height > 0 && CheckTransaction(tx) && tx.txid !in p.utxo
    requires ConnectTx(rules, p, tx, height).Some?
    ensures Advances(p.utxo, [tx], ConnectTx(rules, p, tx, height).value.utxo)
  {
    hide CheckAmounts, HaveInputs, SumP2SH, ScriptsOk, ValueIn, ValueOut, SpendInputs, CheckTransaction, ConnectTx;
    var u := ConnectTx(rules, p, tx, height).value.utxo;
    forall op: OutPoint
      ensures Unspent(p.utxo, op) || Made([tx], op) ==> Unspent(u, op) || SpentBy([tx], op)
      ensures Unspent(u, op) ==> Unspent(p.utxo, op) || Made([tx], op)
    {
      assert [tx][0] == tx;
      ConnectTxOutputs(rules, p, tx, height, op);
      if Unspent(u, op) {
        OutputsComeFrom(rules, p, tx, height, op);
      }
    }
  }

  lemma OutputsComeFrom(rules: Rules, p: Progress, tx: Tx, height: nat, op: OutPoint)
    requires ValidUtxo(p.utxo) && ConnectTx(rules, p, tx, height).Some?
    requires Unspent(ConnectTx(rules, p, tx, height).value.utxo, op)
    ensures Unspent(p.utxo, op) || (op.hash == tx.txid && op.n < |tx.vout|)
  {
    hide CheckAmounts, HaveInputs, SumP2SH, ScriptsOk, ValueIn, ValueOut, SpendInputs, ValidUtxo;
    if !tx.IsCoinBase() {
      LI.SpendInputsEffect(p.utxo, tx.vin);
    }
  }

  lemma {:induction false} TxsAdvance(rules: Rules, u: Utxo, vtx: seq<Tx>, height: nat)
    requires ValidUtxo(u) && height > 0 && LI.BlockPrefix(vtx) && LI.OverwriteFree(rules, u, vtx, height)
    requires ConnectTxs(rules, u, vtx, height).Some?
    ensures Advances(u, vtx, ConnectTxs(rules, u, vtx, height).value.utxo)
  {
    hide ConnectTx, LI.OverwriteFree, ValidUtxo, Advances, CheckTransaction;
    if vtx == [] {
      NothingAdvances(u);
    } else {
      var n := |vtx| - 1;
      LI.OverwriteFreePrefix(rules, u, vtx, height);
      LI.ConnectTxsEffect(rules, u, vtx[..n], height);
      TxsAdvance(rules, u, vtx[..n], height);
      var p := ConnectTxs(rules, u, vtx[..n], height).value;
      TxAdvances(rules, p, vtx[n], height);
      AdvancesTwice(u, vtx[..n], p.utxo, [vtx[n]], ConnectTxs(rules, u, vtx, height).value.utxo);
      assert vtx == vtx[..n] + [vtx[n]];
    }
  }

  lemma NothingAdvances(u: Utxo)
    ensures Advances(u, [], u)
  {
  }

  lemma BlockAdvances(rules: Rules, u: Utxo, block: Block, height: nat)
    requires ValidUtxo(u) && height > 0 && HeightInRange(height) && CheckBlock(block) && rules.enforceBip30
    requires ConnectBlock(rules, u, block, height).Some?
    ensures Advances(u, block.vtx, ConnectBlock(rules, u, block, height).value.utxo)
  {
    hide Advances, ConnectTxs;
    LI.NoOverwriteThroughout(rules, u, block, height);
    TxsAdvance(rules, u, block.vtx, height);
  }

  /** A branch on top of a chain. */
  lemma {:induction false} BranchAdvances(base: seq<Link>, branch: seq<Link>)
    requires Replay(base + branch).Some? && Bip30Enforced(branch)
    ensures Replay(base).Some?
    ensures Advances(Replay(base).value.utxo, TxsOf(branch), Replay(base + branch).value.utxo)
  {
    hide ConnectBlock, Advances, CheckBlock;
    var all := base + branch;
    ReplayPrefix(all, |base|);
    assert all[..|base|] == base;
    if branch == [] {
      assert all == base;
      NothingAdvances(Replay(base).value.utxo);
    } else {
      var n := |branch| - 1;
      assert all[..|all| - 1] == base + branch[..n];
      BranchAdvances(base, branch[..n]);
      var u := Replay(base + branch[..n]).value.utxo;
      ReplaySupply(base + branch[..n]);
      BlockAdvances(branch[n].rules, u, branch[n].block, |all|);
      AdvancesTwice(Replay(base).value.utxo, TxsOf(branch[..n]), u, branch[n].block.vtx, Replay(all).value.utxo);
    }
  }

  // ----- what is left in the pool -----

  /**
   What survives: nothing that was connected or conflicts with it, and with each transaction what it spends of the pool.
   */
  ghost predicate Survives(offered: Txs, connected: seq<Tx>, kept: Txs)
  {
    && PartOf(offered, kept)
    && (forall k :: 0 <= k < |connected| ==> NoConflict(kept, connected[k]))
    && (forall t, i: nat :: t in kept && i < |kept[t].vin| && InPool(offered, t, i) ==>
          kept[t].vin[i].hash in kept || exists k :: 0 <= k < |connected| && connected[k].txid == kept[t].vin[i].hash)
  }

  lemma {:induction false} ConfirmAllSurvives(rank: Rank, offered: Txs, connected: seq<Tx>)
    requires Ranked(rank, offered)
    ensures Survives(offered, connected, ConfirmAll(rank, offered, connected))
  {
    hide Confirm, NoConflict, Ranked;
    ConfirmAllLeavesNoConflict(rank, offered, connected);
    if connected != [] {
      var n := |connected| - 1;
      ConfirmAllSurvives(rank, offered, connected[..n]);
      StepSurvives(rank, offered, connected, ConfirmAll(rank, offered, connected[..n]));
    }
  }

  lemma StepSurvives(rank: Rank, offered: Txs, connected: seq<Tx>, before: Txs)
    requires connected != [] && Ranked(rank, before)
    requires Survives(offered, connected[..|connected| - 1], before)
    ensures var kept := Confirm(rank, before, connected[|connected| - 1]);
            forall t, i: nat ::
                t in kept && i < |kept[t].vin| && t in offered && i < |offered[t].vin| && InPool(offered, t, i) ==>
              kept[t].vin[i].hash in kept || exists k ::
                  0 <= k < |connected| && connected[k].txid == kept[t].vin[i].hash
  {
    hide NoConflict, Descends, Ranked, Acyclic;
    var n := |connected| - 1;
    var tx := connected[n];
    ConfirmIs(rank, before, tx);
    var rest := before - {tx.txid};
    WithoutSpendersIsClosed(rank, rest, tx.vin);
    var kept := Confirm(rank, before, tx);
    forall t, i: nat | t in kept && i < |kept[t].vin| && t in offered && i < |offered[t].vin| && InPool(offered, t, i)
      ensures kept[t].vin[i].hash in kept || exists k ::
                0 <= k < |connected| && connected[k].txid == kept[t].vin[i].hash
    {
      var h := kept[t].vin[i].hash;
      assert kept[t] == before[t] == offered[t];
      if h in before && h != tx.txid {
        assert InPool(rest, t, i);
      } else if h !in before {
        var k :| 0 <= k < n && connected[..n][k].txid == h;
        assert connected[k].txid == h;
      }
    }
  }

  // ----- when the pool is spendable -----

  /** An output that the fork, the offered pool or the connected blocks provide or make. */
  ghost predicate Backed(u: Utxo, offered: Txs, connected: seq<Tx>, op: OutPoint)
  {
    Provided(u, offered, op) || Made(connected, op)
  }

  /** A transaction of the pool that was connected is the one in the block. */
  lemma GenuineIsMade(w: World, offered: Txs, connected: seq<Tx>, op: OutPoint, k: nat)
    requires AllGenuineIn(w, offered) && w.AllGenuine(connected) && Keyed(offered)
    requires k < |connected| && connected[k].txid == op.hash && op.hash in offered && op.n < |offered[op.hash].vout|
    ensures Made(connected, op)
  {
    assert w.Genuine(offered[op.hash]) && w.Genuine(connected[k]);
  }

  lemma NotSpent(connected: seq<Tx>, kept: Txs, t: Txid, op: OutPoint)
    requires forall k :: 0 <= k < |connected| ==> NoConflict(kept, connected[k])
    requires Spends(kept, t, op)
    ensures !SpentBy(connected, op)
  {
    forall k | 0 <= k < |connected| ensures op !in connected[k].vin {
      assert NoConflict(kept, connected[k]);
      forall j | 0 <= j < |connected[k].vin| ensures connected[k].vin[j] != op {
        assert !Spends(kept, t, connected[k].vin[j]);
      }
    }
  }

  lemma BackedIsProvided(
      w: World, u0: Utxo, u1: Utxo, offered: Txs, connected: seq<Tx>, kept: Txs, t: Txid, i: nat)
    requires Advances(u0, connected, u1) && Survives(offered, connected, kept)
    requires AllGenuineIn(w, offered) && w.AllGenuine(connected) && Keyed(offered)
    requires t in kept && i < |kept[t].vin| && Backed(u0, offered, connected, kept[t].vin[i])
    ensures Provided(u1, kept, kept[t].vin[i])
  {
    hide World.Genuine, World.AllGenuine, AllGenuineIn, Keyed, Unspent;
    var op := kept[t].vin[i];
    assert kept[t] == offered[t];
    NotSpent(connected, kept, t, op);
    if !Unspent(u0, op) && !Made(connected, op) {
      assert InPool(offered, t, i);
      if op.hash !in kept {
        var k :| 0 <= k < |connected| && connected[k].txid == op.hash;
        GenuineIsMade(w, offered, connected, op, k);
      }
    }
  }

  /**
   After the blocks were connected and their transactions processed, the pool is spendable if and only if every input
   that is left spends something that the fork, the offered pool or the new blocks provide.
   */
  lemma SpendableIffBacked(w: World, u0: Utxo, u1: Utxo, offered: Txs, connected: seq<Tx>)
    requires Advances(u0, connected, u1) && Ranked(w.rank, offered) && AllGenuineIn(w, offered)
    requires w.AllGenuine(connected)
    ensures var kept := ConfirmAll(w.rank, offered, connected);
            Spendable(u1, kept) <==>
              forall t, i: nat :: t in kept && i < |kept[t].vin| ==> Backed(u0, offered, connected, kept[t].vin[i])
  {
    hide ConfirmAll, World.Genuine, World.AllGenuine, AllGenuineIn, Survives, Advances, Backed, Acyclic;
    var kept := ConfirmAll(w.rank, offered, connected);
    ConfirmAllSurvives(w.rank, offered, connected);
    forall t, i: nat | t in kept && i < |kept[t].vin|
      ensures Provided(u1, kept, kept[t].vin[i]) <==> Backed(u0, offered, connected, kept[t].vin[i])
    {
      if Backed(u0, offered, connected, kept[t].vin[i]) {
        BackedIsProvided(w, u0, u1, offered, connected, kept, t, i);
      }
      if Provided(u1, kept, kept[t].vin[i]) {
        ProvidedIsBacked(u0, u1, offered, connected, kept, kept[t].vin[i]);
      }
    }
  }

  /** Under the rule of BIP 30, a spendable pool stays spendable when a block extends the chain. */
  lemma BlockKeepsPoolSpendable(w: World, rules: Rules, u: Utxo, block: Block, height: nat, pool: Txs)
    requires ValidUtxo(u) && height > 0 && HeightInRange(height) && CheckBlock(block) && rules.enforceBip30
    requires ConnectBlock(rules, u, block, height).Some?
    requires Ranked(w.rank, pool) && AllGenuineIn(w, pool) && w.AllGenuine(block.vtx) && Spendable(u, pool)
    ensures Spendable(ConnectBlock(rules, u, block, height).value.utxo, ConfirmAll(w.rank, pool, block.vtx))
  {
    hide ConnectBlock, ConfirmAll, Ranked, AllGenuineIn, World.AllGenuine, ValidUtxo, Advances, NoConflict;
    BlockAdvances(rules, u, block, height);
    SpendableIffBacked(w, u, ConnectBlock(rules, u, block, height).value.utxo, pool, block.vtx);
    ConfirmAllLeavesNoConflict(w.rank, pool, block.vtx);
    var kept := ConfirmAll(w.rank, pool, block.vtx);
    forall t, i: nat | t in kept && i < |kept[t].vin| ensures Backed(u, pool, block.vtx, kept[t].vin[i]) {
      assert kept[t] == pool[t] && Provided(u, pool, pool[t].vin[i]);
    }
  }

  lemma ProvidedIsBacked(u0: Utxo, u1: Utxo, offered: Txs, connected: seq<Tx>, kept: Txs, op: OutPoint)
    requires Advances(u0, connected, u1) && Survives(offered, connected, kept) && Provided(u1, kept, op)
    ensures Backed(u0, offered, connected, op)
  {
    hide Unspent, NoConflict;
  }

  // ----- a whole reorganisation -----

  /** An output of the disconnected blocks that nothing provides any more. */
  ghost predicate Lost(u: Utxo, offered: Txs, disconnected: seq<Tx>, connected: seq<Tx>, op: OutPoint)
  {
    Made(disconnected, op) && !Backed(u, offered, connected, op)
  }

  /** What the pool had before, and whatever was accepted again on the new chain with its inputs checked. */
  ghost predicate OfferedFrom(u: Utxo, pool: Txs, offered: Txs)
  {
    PartOf(offered, pool) &&
    forall t, i: nat :: t in offered && t !in pool && i < |offered[t].vin| ==> Provided(u, offered, offered[t].vin[i])
  }

  lemma {:induction false} OfferAllIsOffered(tip: Utxo, pool: Txs, txs: seq<Tx>, policies: seq<Policy>)
    requires |policies| == |txs| && forall i :: 0 <= i < |txs| ==> policies[i].checkInputs
    ensures OfferedFrom(Live(tip), pool, OfferAll(tip, pool, txs, policies))
  {
    hide Acceptable, OfferedFrom;
    if txs == [] {
      NothingOffered(Live(tip), pool);
    } else {
      var n := |txs| - 1;
      OfferAllIsOffered(tip, pool, txs[..n], policies[..n]);
      var before := OfferAll(tip, pool, txs[..n], policies[..n]);
      if Joins(tip, before, txs[n], policies[n]) {
        var next :| Indexed(before, next) && Acceptable(tip, before, next, txs[n], policies[n]);
        AcceptedOnTop(tip, pool, before, next, txs[n], policies[n]);
      }
    }
  }

  lemma NothingOffered(u: Utxo, pool: Txs)
    ensures OfferedFrom(u, pool, pool)
  {
  }

  lemma AcceptedOnTop(tip: Utxo, pool: Txs, before: Txs, next: Index, tx: Tx, policy: Policy)
    requires policy.checkInputs && Acceptable(tip, before, next, tx, policy) && OfferedFrom(Live(tip), pool, before)
    ensures OfferedFrom(Live(tip), pool, before[tx.txid := tx])
  {
    hide CheckTransaction, CheckAmounts, ScriptsOk;
    var after := before[tx.txid := tx];
    forall t, i: nat | t in after && t !in pool && i < |after[t].vin|
      ensures Provided(Live(tip), after, after[t].vin[i]) {
      if t != tx.txid {
        assert Provided(Live(tip), before, before[t].vin[i]);
      } else {
        assert Unspent(PoolView(tip, before), tx.vin[i]);
      }
    }
  }

  lemma BackedUnlessLost(
      u0: Utxo, was: Utxo, pool: Txs, offered: Txs, gone: seq<Tx>, connected: seq<Tx>, op: OutPoint)
    requires Advances(u0, gone, was) && Provided(was, pool, op) && PartOf(offered, pool)
    ensures Backed(u0, offered, connected, op) || Lost(u0, offered, gone, connected, op)
  {
    hide Unspent;
  }

  lemma AcceptedIsBacked(u0: Utxo, now: Utxo, offered: Txs, connected: seq<Tx>, op: OutPoint)
    requires Advances(u0, connected, now) && Provided(now, offered, op)
    ensures Backed(u0, offered, connected, op)
  {
    hide Unspent;
  }

  /** Nothing is lost when every disconnected transaction is in the pool again or was connected again. */
  lemma NothingLost(
      w: World, u: Utxo, offered: Txs, disconnected: seq<Tx>, connected: seq<Tx>, op: OutPoint)
    requires w.AllGenuine(disconnected) && w.AllGenuine(connected) && AllGenuineIn(w, offered) && Keyed(offered)
    requires forall k :: 0 <= k < |disconnected| ==> CheckTransaction(disconnected[k])
    requires forall k :: 0 <= k < |disconnected| ==>
               disconnected[k].txid in offered || Among(connected, disconnected[k].txid)
    ensures !Lost(u, offered, disconnected, connected, op)
  {
    if Made(disconnected, op) {
      var k :| 0 <= k < |disconnected| && disconnected[k].txid == op.hash && op.n < |disconnected[k].vout|;
      assert w.Genuine(disconnected[k]) && MoneyRange(disconnected[k].vout[op.n].value);
      if Among(connected, op.hash) {
        var j :| 0 <= j < |connected| && connected[j].txid == op.hash;
        assert w.Genuine(connected[j]);
      } else {
        assert w.Genuine(offered[op.hash]);
      }
    }
  }

  ghost predicate Among(txs: seq<Tx>, t: Txid) { exists j :: 0 <= j < |txs| && txs[j].txid == t }
}
