/** Disconnecting a block undoes connecting it. */
module LedgerInverse {
  import opened Coins
  import opened Ledger

  lemma CoinsOfWellFormed(tx: Tx, height: nat)
    requires CheckTransaction(tx)
    ensures CoinsOf(tx, height).WellFormed() && !CoinsOf(tx, height).IsPruned()
  {
    var c := CoinsOf(tx, height);
    assert MoneyRange(tx.vout[|tx.vout| - 1].value);
    assert !c.vout[|c.vout| - 1].IsNull();
  }

  /** Exactly some outputs are gone, and nothing else has changed. */
  ghost predicate Thinned(u: Utxo, spent: seq<OutPoint>, v: Utxo)
  {
    && v.Keys <= u.Keys
    && (forall op: OutPoint :: op in spent ==> !Unspent(v, op))
    && (forall op: OutPoint :: op !in spent ==> Unspent(v, op) == Unspent(u, op))
    && (forall op: OutPoint :: Unspent(v, op) ==> OutputAt(v, op) == OutputAt(u, op))
  }

  /** Spending the inputs keeps the set valid, adds no entry, and leaves the other outputs as they were. */
  lemma {:induction false} SpendInputsEffect(u: Utxo, vin: seq<OutPoint>)
    requires ValidUtxo(u) && SpendInputs(u, vin).Some?
    ensures var s := SpendInputs(u, vin).value;
            ValidUtxo(s.utxo) && |s.undo| == |vin| && Thinned(u, vin, s.utxo)
  {
    hide ValidUtxo, Spend, Put, Thinned, Get;
    if vin != [] {
      var prefix, last := vin[..|vin| - 1], vin[|vin| - 1];
      SpendInputsEffect(u, prefix);
      SpendOneEffect(SpendInputs(u, prefix).value.utxo, last);
      ThinnedTwice(u, prefix, SpendInputs(u, prefix).value.utxo, last, SpendInputs(u, vin).value.utxo);
      assert vin == prefix + [last];
    } else {
      NothingThinned(u);
    }
  }

  lemma NothingThinned(u: Utxo)
    ensures Thinned(u, [], u)
  {
  }

  lemma ThinnedTwice(u: Utxo, prefix: seq<OutPoint>, v: Utxo, last: OutPoint, w: Utxo)
    requires Thinned(u, prefix, v) && Thinned(v, [last], w)
    ensures Thinned(u, prefix + [last], w)
  {
    hide Unspent, OutputAt;
    forall op: OutPoint ensures op in prefix + [last] <==> op in prefix || op in [last] {
    }
  }

  lemma SpendOneEffect(u: Utxo, op: OutPoint)
    requires ValidUtxo(u) && Spend(Get(u, op.hash), op.n).Some?
    ensures var u' := Put(u, op.hash, Spend(Get(u, op.hash), op.n).value.coins);
            ValidUtxo(u') && Unspent(u, op) && Thinned(u, [op], u')
  {
    var c := Get(u, op.hash);
    var r := Spend(c, op.n).value;
    SpendEffect(c, op.n);
    var u' := Put(u, op.hash, r.coins);
    forall other: OutPoint
      ensures other != op ==> Unspent(u', other) == Unspent(u, other)
      ensures Unspent(u', other) ==> Unspent(u, other) && OutputAt(u', other) == OutputAt(u, other)
    {
      hide Spend, Trim;
      if other.hash == op.hash && other.n != op.n {
        assert r.coins.IsAvailable(other.n) == c.IsAvailable(other.n);
      }
    }
    assert !Unspent(u', op);
    hide Spend, Put, ValidUtxo, Unspent;
  }

  /** The assertion in UpdateCoins never fires: available distinct inputs can all be spent. */
  lemma {:induction false} AvailableInputsCanBeSpent(u: Utxo, vin: seq<OutPoint>)
    requires ValidUtxo(u) && DistinctOutPoints(vin)
    requires forall i :: 0 <= i < |vin| ==> Unspent(u, vin[i])
    ensures SpendInputs(u, vin).Some?
  {
    if vin != [] {
      var prefix, last := vin[..|vin| - 1], vin[|vin| - 1];
      AvailableInputsCanBeSpent(u, prefix);
      SpendInputsEffect(u, prefix);
      assert last !in prefix;
      assert Unspent(u, last);
      assert Unspent(SpendInputs(u, prefix).value.utxo, last);
    }
  }

  /** One restore undoes one spend in the flat set. */
  lemma RestoreOneUndoesSpendOne(u: Utxo, op: OutPoint)
    requires ValidUtxo(u) && Unspent(u, op)
    ensures var r := Spend(u[op.hash], op.n).value;
            var after := Put(u, op.hash, r.coins);
            var back := Restore(Get(after, op.hash), op.n, r.undo);
            back.clean && Put(after, op.hash, back.coins) == u
  {
    var c := u[op.hash];
    var r := Spend(c, op.n).value;
    var after := Put(u, op.hash, r.coins);
    hide Restore, Trim, Grow;
    RestoreUndoesSpend(c, op.n, Get(after, op.hash));
    PutBack(u, op.hash, r.coins);
  }

  lemma PutBack(u: Utxo, t: Txid, c: Coins)
    requires t in u && !u[t].IsPruned()
    ensures Put(Put(u, t, c), t, u[t]) == u
  {
  }

  /** Restoring the inputs in reverse order gives back the set before the spends, and finds nothing amiss. */
  lemma {:induction false} RestoreInputsUndoesSpendInputs(u: Utxo, vin: seq<OutPoint>)
    requires ValidUtxo(u) && SpendInputs(u, vin).Some?
    ensures var s := SpendInputs(u, vin).value;
            |s.undo| == |vin| && RestoreInputs(s.utxo, vin, s.undo) == Undone(u, true)
  {
    SpendInputsEffect(u, vin);
    if vin != [] {
      var n := |vin| - 1;
      SpendInputsEffect(u, vin[..n]);
      RestoreInputsUndoesSpendInputs(u, vin[..n]);
      var before := SpendInputs(u, vin[..n]).value;
      var after := SpendInputs(u, vin).value;
      RestoreOneUndoesSpendOne(before.utxo, vin[n]);
      assert after.undo[..n] == before.undo;
    }
  }

  /** One transaction: the set stays valid and gains at most its own entry. */
  lemma ConnectTxEffect(rules: Rules, p: Progress, tx: Tx, height: nat)
    requires ValidUtxo(p.utxo) && height > 0 && CheckTransaction(tx)
    requires ConnectTx(rules, p, tx, height).Some?
    ensures var q := ConnectTx(rules, p, tx, height).value;
            && ValidUtxo(q.utxo)
            && q.utxo.Keys <= p.utxo.Keys + {tx.txid}
            && |q.undo| == |p.undo| + if tx.IsCoinBase() then 0 else 1
  {
    CoinsOfWellFormed(tx, height);
    if !tx.IsCoinBase() {
      SpendInputsEffect(p.utxo, tx.vin);
    }
  }

  /** The transactions of a block from its first one, which alone is a coinbase. */
  ghost predicate BlockPrefix(vtx: seq<Tx>)
  {
    && (forall i :: 0 <= i < |vtx| ==> CheckTransaction(vtx[i]))
    && (forall i :: 0 < i < |vtx| ==> !vtx[i].IsCoinBase())
    && (vtx == [] || vtx[0].IsCoinBase())
  }

  ghost function Txids(vtx: seq<Tx>): set<Txid>
  {
    set i | 0 <= i < |vtx| :: vtx[i].txid
  }

  /** What is true after any prefix of a block that is being connected. */
  lemma {:induction false} ConnectTxsEffect(rules: Rules, u: Utxo, vtx: seq<Tx>, height: nat)
    requires ValidUtxo(u) && height > 0 && BlockPrefix(vtx)
    requires ConnectTxs(rules, u, vtx, height).Some?
    ensures var p := ConnectTxs(rules, u, vtx, height).value;
            && ValidUtxo(p.utxo)
            && |p.undo| == (if vtx == [] then 0 else |vtx| - 1)
            && p.utxo.Keys <= u.Keys + Txids(vtx)
  {
    hide ConnectTx;
    if vtx != [] {
      var prefix, tx := vtx[..|vtx| - 1], vtx[|vtx| - 1];
      ConnectTxsEffect(rules, u, prefix, height);
      ConnectTxEffect(rules, ConnectTxs(rules, u, prefix, height).value, tx, height);
      assert Txids(vtx) == Txids(prefix) + {tx.txid};
    }
  }

  lemma {:induction false} PrefixConnects(rules: Rules, u: Utxo, txs: seq<Tx>, height: nat, i: nat)
    requires i <= |txs| && ConnectTxs(rules, u, txs, height).Some?
    ensures ConnectTxs(rules, u, txs[..i], height).Some?
    decreases |txs|
  {
    hide ConnectTx;
    if i < |txs| {
      assert txs[..|txs| - 1][..i] == txs[..i];
      PrefixConnects(rules, u, txs[..|txs| - 1], height, i);
    } else {
      assert txs[..i] == txs;
    }
  }

  /** No transaction replaces an entry that still had an unspent output when it was connected. */
  ghost predicate OverwriteFree(rules: Rules, u: Utxo, vtx: seq<Tx>, height: nat)
  {
    forall k :: 0 <= k < |vtx| && ConnectTxs(rules, u, vtx[..k], height).Some? ==>
      vtx[k].txid !in ConnectTxs(rules, u, vtx[..k], height).value.utxo
  }

  /** The rule of BIP 30, checked once before the first transaction, holds for every transaction at its turn. */
  lemma NoOverwriteThroughout(rules: Rules, u: Utxo, block: Block, height: nat)
    requires ValidUtxo(u) && height > 0 && CheckBlock(block) && NoOverwrite(u, block)
    ensures OverwriteFree(rules, u, block.vtx, height)
  {
    var vtx := block.vtx;
    forall k | 0 <= k < |vtx| && ConnectTxs(rules, u, vtx[..k], height).Some?
      ensures vtx[k].txid !in ConnectTxs(rules, u, vtx[..k], height).value.utxo
    {
      ConnectTxsEffect(rules, u, vtx[..k], height);
    }
  }

  lemma RemoveUndoesPut(u: Utxo, tx: Tx, height: nat)
    requires tx.txid !in u && !CoinsOf(tx, height).IsPruned()
    ensures RemoveOutputs(Put(u, tx.txid, CoinsOf(tx, height)), tx, height) == Undone(u, true)
  {
    assert u[tx.txid := CoinsOf(tx, height)] - {tx.txid} == u;
  }

  /** One transaction that overwrites nothing: removing its outputs and restoring its inputs goes back. */
  lemma DisconnectTxUndoesConnectTx(rules: Rules, p: Progress, tx: Tx, height: nat)
    requires ValidUtxo(p.utxo) && height > 0 && CheckTransaction(tx)
    requires ConnectTx(rules, p, tx, height).Some?
    requires tx.txid !in p.utxo
    ensures var q := ConnectTx(rules, p, tx, height).value;
            var removed := RemoveOutputs(q.utxo, tx, height);
            && removed.clean
            && (tx.IsCoinBase() ==> removed.utxo == p.utxo && q.undo == p.undo)
            && (!tx.IsCoinBase() ==>
                 && |q.undo| == |p.undo| + 1 && q.undo[..|p.undo|] == p.undo
                 && |q.undo[|p.undo|]| == |tx.vin|
                 && RestoreInputs(removed.utxo, tx.vin, q.undo[|p.undo|]) == Undone(p.utxo, true))
  {
    hide CheckAmounts, HaveInputs, SumP2SH, ScriptsOk, ValueIn, ValueOut, SpendInputs, RestoreInputs, ValidUtxo;
    CoinsOfWellFormed(tx, height);
    if tx.IsCoinBase() {
      RemoveUndoesPut(p.utxo, tx, height);
    } else {
      SpendInputsEffect(p.utxo, tx.vin);
      RestoreInputsUndoesSpendInputs(p.utxo, tx.vin);
      RemoveUndoesPut(SpendInputs(p.utxo, tx.vin).value.utxo, tx, height);
    }
  }

  /** The last transaction of a prefix is undone first, then the rest. */
  lemma DisconnectLast(p: Progress, q: Progress, u: Utxo, vtx: seq<Tx>, height: nat)
    requires vtx != [] && |q.undo| + 1 == |vtx|
    requires var n := |vtx| - 1;
             var removed := RemoveOutputs(q.utxo, vtx[n], height);
             && removed.clean
             && (n == 0 ==> removed.utxo == u)
             && (n > 0 ==>
                  && q.undo[..n - 1] == p.undo && |q.undo[n - 1]| == |vtx[n].vin|
                  && RestoreInputs(removed.utxo, vtx[n].vin, q.undo[n - 1]) == Undone(p.utxo, true)
                  && DisconnectTxs(p.utxo, vtx[..n], height, p.undo) == Some(Undone(u, true)))
    ensures DisconnectTxs(q.utxo, vtx, height, q.undo) == Some(Undone(u, true))
  {
  }

  lemma {:induction false} DisconnectTxsUndoesConnectTxs(rules: Rules, u: Utxo, vtx: seq<Tx>, height: nat)
    requires ValidUtxo(u) && height > 0 && BlockPrefix(vtx)
    requires ConnectTxs(rules, u, vtx, height).Some?
    requires OverwriteFree(rules, u, vtx, height)
    ensures var p := ConnectTxs(rules, u, vtx, height).value;
            && |p.undo| == (if vtx == [] then 0 else |vtx| - 1)
            && DisconnectTxs(p.utxo, vtx, height, p.undo) == Some(Undone(u, true))
  {
    if vtx != [] {
      hide ConnectTx, RestoreInputs, RemoveOutputs, DisconnectTxs, BlockPrefix, OverwriteFree, ValidUtxo;
      var n := |vtx| - 1;
      var prefix := vtx[..n];
      OverwriteFreePrefix(rules, u, vtx, height);
      ConnectTxsEffect(rules, u, vtx, height);
      ConnectTxsEffect(rules, u, prefix, height);
      DisconnectTxsUndoesConnectTxs(rules, u, prefix, height);
      var p := ConnectTxs(rules, u, prefix, height).value;
      DisconnectTxUndoesConnectTx(rules, p, vtx[n], height);
      DisconnectLast(p, ConnectTxs(rules, u, vtx, height).value, u, vtx, height);
    }
  }

  lemma OverwriteFreePrefix(rules: Rules, u: Utxo, vtx: seq<Tx>, height: nat)
    requires vtx != [] && BlockPrefix(vtx) && OverwriteFree(rules, u, vtx, height)
    ensures var n := |vtx| - 1;
            && BlockPrefix(vtx[..n]) && CheckTransaction(vtx[n]) && (vtx[n].IsCoinBase() <==> n == 0)
            && OverwriteFree(rules, u, vtx[..n], height)
            && (ConnectTxs(rules, u, vtx[..n], height).Some? ==>
                  vtx[n].txid !in ConnectTxs(rules, u, vtx[..n], height).value.utxo)
  {
    hide ConnectTxs, CheckTransaction;
    var n := |vtx| - 1;
    assert forall k :: 0 <= k < n ==> vtx[..n][..k] == vtx[..k];
  }

  /**
   For every unspent-output set and every block that passes its checks and connects, disconnecting it with the undo
   data just produced restores the set and reports no inconsistency.
   */
  lemma DisconnectUndoesConnect(rules: Rules, u: Utxo, block: Block, height: nat)
    requires ValidUtxo(u) && 0 < height && height / HALVING_INTERVAL < 64 && CheckBlock(block)
    requires ConnectBlock(rules, u, block, height).Some?
    requires rules.enforceBip30 || OverwriteFree(rules, u, block.vtx, height)
    ensures var c := ConnectBlock(rules, u, block, height).value;
            && ValidUtxo(c.utxo)
            && DisconnectBlock(c.utxo, block, height, c.undo) == Some(Undone(u, true))
  {
    if rules.enforceBip30 {
      NoOverwriteThroughout(rules, u, block, height);
    }
    ConnectTxsEffect(rules, u, block.vtx, height);
    DisconnectTxsUndoesConnectTxs(rules, u, block.vtx, height);
  }
}
