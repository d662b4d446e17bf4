/**
 When disconnecting a block is clean, for any set and any undo data whatever (src/main.cpp:1636-1716): exactly when the
 set is what the transactions of the block make of the set that comes back, and the undo data is what they leave.
 */
module Rewind {
  import opened Coins
  import opened Ledger
  import opened LedgerInverse

  /** Undo data as Spend makes it: only the record of a last output says where it came from. */
  ghost predicate Proper(undo: TxUndo)
  {
    forall i :: 0 <= i < |undo| ==>
      undo[i].txout.value >= 0 && (undo[i].height == 0 ==> undo[i] == TxInUndo(undo[i].txout, false, 0, 0))
  }

  // ----- one input -----

  /** A restored output makes well-formed coins, from which it can be spent. */
  lemma RestoredStands(vout: seq<TxOut>, n: nat, out: TxOut)
    requires vout == [] || !vout[|vout| - 1].IsNull()
    requires !(n < |vout| && !vout[n].IsNull()) && out.value >= 0
    ensures var back := Grow(vout, n + 1)[n := out];
            !back[|back| - 1].IsNull() && Trim(back[n := NULL_OUT]) == if n < |vout| then vout[n := NULL_OUT] else vout
  {
    hide Grow, Trim;
    var back := Grow(vout, n + 1)[n := out];
    TrimOnce(if n < |vout| then vout[n := NULL_OUT] else vout, back[n := NULL_OUT]);
  }

  lemma TrimOnce(base: seq<TxOut>, cleared: seq<TxOut>)
    requires |base| <= |cleared| && (base == [] || !base[|base| - 1].IsNull())
    requires forall i :: 0 <= i < |cleared| ==> cleared[i] == if i < |base| then base[i] else NULL_OUT
    ensures Trim(cleared) == base
  {
    hide Trim;
    assert base != [] ==> cleared[|base| - 1] == base[|base| - 1];
  }

  /** A clean restoration is undone by spending the output again. */
  lemma SpendUndoesRestore(c: Coins, n: nat, undo: TxInUndo)
    requires c.WellFormed() && Proper([undo]) && Restore(c, n, undo).clean
    ensures var back := Restore(c, n, undo).coins;
            && back.WellFormed() && back.IsAvailable(n)
            && Spend(back, n).Some? && Spend(back, n).value.undo == undo
            && Spend(back, n).value.coins == if undo.height == 0 then c else back.(vout := [])
  {
    hide Trim, Grow;
    assert [undo][0] == undo;
    var base := if undo.height != 0 then [] else c.vout;
    RestoredStands(base, n, undo.txout);
    if undo.height == 0 {
      assert n < |base| ==> base[n := NULL_OUT] == base;
    }
  }

  lemma RestoredOne(u: Utxo, op: OutPoint, undo: TxInUndo)
    requires ValidUtxo(u) && Proper([undo]) && Restore(Get(u, op.hash), op.n, undo).clean
    ensures var v := Put(u, op.hash, Restore(Get(u, op.hash), op.n, undo).coins);
            && ValidUtxo(v) && Spend(Get(v, op.hash), op.n).Some?
            && var s := Spend(Get(v, op.hash), op.n).value;
               s.undo == undo && Put(v, op.hash, s.coins) == u
  {
    hide Trim, Grow;
    var c := Get(u, op.hash);
    SpendUndoesRestore(c, op.n, undo);
    var back := Restore(c, op.n, undo).coins;
    assert !back.IsPruned();
    if undo.height != 0 {
      assert op.hash !in u;
    }
    hide Spend, Restore;
    assert Put(u, op.hash, back) == u[op.hash := back];
    assert u[op.hash := back] - {op.hash} == u - {op.hash};
  }

  // ----- the inputs of a transaction -----

  lemma {:induction false} SpendUndoesRestoreInputs(u: Utxo, vin: seq<OutPoint>, undo: TxUndo)
    requires ValidUtxo(u) && |vin| == |undo| && Proper(undo) && RestoreInputs(u, vin, undo).clean
    ensures var v := RestoreInputs(u, vin, undo).utxo;
            ValidUtxo(v) && SpendInputs(v, vin) == Some(Spent(u, undo))
    decreases |vin|
  {
    hide Restore, Spend, Put, ValidUtxo, Get;
    if vin != [] {
      var n := |vin| - 1;
      ProperParts(undo);
      RestoredOne(u, vin[n], undo[n]);
      var v := Put(u, vin[n].hash, Restore(Get(u, vin[n].hash), vin[n].n, undo[n]).coins);
      SpendUndoesRestoreInputs(v, vin[..n], undo[..n]);
      assert undo == undo[..n] + [undo[n]];
    }
  }

  lemma ProperParts(undo: TxUndo)
    requires Proper(undo) && undo != []
    ensures Proper(undo[..|undo| - 1]) && Proper([undo[|undo| - 1]])
  {
  }

  /** Restoring gives v without complaint if and only if spending from v gives the set and the records at hand. */
  lemma RestoresIffSpends(u: Utxo, v: Utxo, vin: seq<OutPoint>, undo: TxUndo)
    requires ValidUtxo(u) && ValidUtxo(v) && |vin| == |undo| && Proper(undo)
    ensures RestoreInputs(u, vin, undo) == Undone(v, true) <==> SpendInputs(v, vin) == Some(Spent(u, undo))
  {
    if RestoreInputs(u, vin, undo) == Undone(v, true) {
      SpendUndoesRestoreInputs(u, vin, undo);
    }
    if SpendInputs(v, vin) == Some(Spent(u, undo)) {
      RestoreInputsUndoesSpendInputs(v, vin);
    }
  }

  // ----- the transactions of a block -----

  datatype Effect = Effect(utxo: Utxo, undo: seq<TxUndo>)

  /** What transactions make of a set when nobody checks anything, as long as inputs are there and ids are free. */
  ghost function Applied(v: Utxo, vtx: seq<Tx>, height: nat): Option<Effect>
  {
    if vtx == [] then Some(Effect(v, []))
    else
      var n := |vtx| - 1;
      match Applied(v, vtx[..n], height)
      case None => None
      case Some(e) =>
        match (if n == 0 then Some(Spent(e.utxo, [])) else SpendInputs(e.utxo, vtx[n].vin))
        case None => None
        case Some(s) =>
          if vtx[n].txid in s.utxo then None
          else Some(Effect(s.utxo[vtx[n].txid := CoinsOf(vtx[n], height)], if n == 0 then [] else e.undo + [s.undo]))
  }

  ghost predicate AllProper(undo: seq<TxUndo>) { forall i :: 0 <= i < |undo| ==> Proper(undo[i]) }

  lemma RemovedIs(u: Utxo, tx: Tx, height: nat)
    requires ValidUtxo(u) && CheckTransaction(tx)
    ensures ValidUtxo(u - {tx.txid})
    ensures RemoveOutputs(u, tx, height).clean <==>
              u == (u - {tx.txid})[tx.txid := CoinsOf(tx, height)]
  {
    CoinsOfWellFormed(tx, height);
  }

  /** A clean disconnection forgets nothing: the transactions of the block lead back to the set that it started from. */
  lemma {:induction false} ApplyUndoesDisconnect(u: Utxo, vtx: seq<Tx>, height: nat, undo: seq<TxUndo>)
    requires ValidUtxo(u) && AllProper(undo) && (if vtx == [] then undo == [] else |undo| + 1 == |vtx|)
    requires forall i :: 0 <= i < |vtx| ==> CheckTransaction(vtx[i])
    requires var d := DisconnectTxs(u, vtx, height, undo); d.Some? && d.value.clean
    ensures var v := DisconnectTxs(u, vtx, height, undo).value.utxo;
            ValidUtxo(v) && Applied(v, vtx, height) == Some(Effect(u, undo))
    decreases |vtx|
  {
    hide CheckTransaction, RestoreInputs, SpendInputs, RemoveOutputs, ValidUtxo, CoinsOf, Proper;
    if vtx != [] {
      var n := |vtx| - 1;
      RemovedIs(u, vtx[n], height);
      var rest := u - {vtx[n].txid};
      RemovedUtxo(u, vtx[n], height);
      if n > 0 {
        SpendUndoesRestoreInputs(rest, vtx[n].vin, undo[n - 1]);
        var before := RestoreInputs(rest, vtx[n].vin, undo[n - 1]).utxo;
        ApplyUndoesDisconnect(before, vtx[..n], height, undo[..n - 1]);
        assert undo == undo[..n - 1] + [undo[n - 1]];
      }
    }
  }

  lemma RemovedUtxo(u: Utxo, tx: Tx, height: nat)
    ensures RemoveOutputs(u, tx, height).utxo == u - {tx.txid}
  {
  }

  /** And what the transactions made of a set is disconnected without complaint. */
  lemma {:induction false} DisconnectUndoesApply(v: Utxo, vtx: seq<Tx>, height: nat)
    requires ValidUtxo(v) && height > 0 && forall i :: 0 <= i < |vtx| ==> CheckTransaction(vtx[i])
    requires Applied(v, vtx, height).Some?
    ensures var e := Applied(v, vtx, height).value;
            && ValidUtxo(e.utxo) && |e.undo| == (if vtx == [] then 0 else |vtx| - 1)
            && DisconnectTxs(e.utxo, vtx, height, e.undo) == Some(Undone(v, true))
    decreases |vtx|
  {
    hide CheckTransaction, RestoreInputs, SpendInputs, RemoveOutputs, ValidUtxo, CoinsOf;
    if vtx != [] {
      var n := |vtx| - 1;
      DisconnectUndoesApply(v, vtx[..n], height);
      var before := Applied(v, vtx[..n], height).value;
      var e := Applied(v, vtx, height).value;
      var spent := if n == 0 then before.utxo else SpendInputs(before.utxo, vtx[n].vin).value.utxo;
      if n > 0 {
        SpendInputsEffect(before.utxo, vtx[n].vin);
        RestoreInputsUndoesSpendInputs(before.utxo, vtx[n].vin);
        assert e.undo[..n - 1] == before.undo;
      }
      StoredAndRemoved(spent, vtx[n], height);
    }
  }

  lemma StoredAndRemoved(u: Utxo, tx: Tx, height: nat)
    requires ValidUtxo(u) && height > 0 && CheckTransaction(tx) && tx.txid !in u
    ensures ValidUtxo(u[tx.txid := CoinsOf(tx, height)])
    ensures RemoveOutputs(u[tx.txid := CoinsOf(tx, height)], tx, height) == Undone(u, true)
  {
    CoinsOfWellFormed(tx, height);
    assert u[tx.txid := CoinsOf(tx, height)] - {tx.txid} == u;
  }

  /**
   Disconnecting a block from any set with any undo data gives v and no complaint if and only if the set is what the
   transactions of the block make of v, under ids that were free, and the data what they leave.
   */
  lemma DisconnectsIff(u: Utxo, v: Utxo, block: Block, height: nat, undo: seq<TxUndo>)
    requires ValidUtxo(u) && ValidUtxo(v) && AllProper(undo) && height > 0 && CheckBlock(block)
    ensures DisconnectBlock(u, block, height, undo) == Some(Undone(v, true)) <==>
            Applied(v, block.vtx, height) == Some(Effect(u, undo))
  {
    hide CheckTransaction, ValidUtxo, AllProper;
    if DisconnectBlock(u, block, height, undo) == Some(Undone(v, true)) {
      ApplyUndoesDisconnect(u, block.vtx, height, undo);
    }
    if Applied(v, block.vtx, height) == Some(Effect(u, undo)) {
      DisconnectUndoesApply(v, block.vtx, height);
    }
  }
}
