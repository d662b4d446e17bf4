/**
 What the rule of BIP 30 is for (src/main.cpp:1780-1797): a transaction that takes the id of an entry with something
 unspent replaces that entry, and disconnecting its block does not bring it back.
 */
module Overwrite {
  import opened Coins
  import opened Ledger
  import opened LedgerInverse

  // ----- connecting -----

  /** A transaction before the k-th, other than the coinbase, spends the output. */
  predicate SpentBefore(vtx: seq<Tx>, k: nat, op: OutPoint)
    requires k <= |vtx|
  {
    exists j :: 0 < j < k && op in vtx[j].vin
  }

  /** No transaction before the k-th has the id. */
  predicate UnusedBefore(vtx: seq<Tx>, k: nat, t: Txid)
    requires k <= |vtx|
  {
    forall j :: 0 <= j < k ==> vtx[j].txid != t
  }

  /** One transaction with another id: an output is still there exactly when it was and is not spent. */
  lemma OutputAfterTx(rules: Rules, p: Progress, tx: Tx, height: nat, op: OutPoint)
    requires ValidUtxo(p.utxo) && ConnectTx(rules, p, tx, height).Some? && tx.txid != op.hash
    ensures Unspent(ConnectTx(rules, p, tx, height).value.utxo, op) <==>
            Unspent(p.utxo, op) && (tx.IsCoinBase() || op !in tx.vin)
  {
    hide CheckAmounts, HaveInputs, SumP2SH, ScriptsOk, ValueIn, ValueOut, SpendInputs, ValidUtxo;
    if !tx.IsCoinBase() {
      SpendInputsEffect(p.utxo, tx.vin);
    }
  }

  lemma {:induction false} OutputAfterTxs(rules: Rules, u: Utxo, vtx: seq<Tx>, height: nat, op: OutPoint)
    requires ValidUtxo(u) && height > 0 && BlockPrefix(vtx) && ConnectTxs(rules, u, vtx, height).Some?
    requires UnusedBefore(vtx, |vtx|, op.hash)
    ensures Unspent(ConnectTxs(rules, u, vtx, height).value.utxo, op) <==>
              Unspent(u, op) && !SpentBefore(vtx, |vtx|, op)
  {
    hide ConnectTx, CheckTransaction, ValidUtxo;
    if vtx != [] {
      var n := |vtx| - 1;
      OutputAfterTxs(rules, u, vtx[..n], height, op);
      ConnectTxsEffect(rules, u, vtx[..n], height);
      OutputAfterTx(rules, ConnectTxs(rules, u, vtx[..n], height).value, vtx[n], height, op);
      SpentBeforeNext(vtx, op);
    }
  }

  lemma SpentBeforeNext(vtx: seq<Tx>, op: OutPoint)
    requires vtx != []
    ensures var n := |vtx| - 1;
            SpentBefore(vtx, n + 1, op) <==> SpentBefore(vtx[..n], n, op) || (n > 0 && op in vtx[n].vin)
  {
    var n := |vtx| - 1;
    if SpentBefore(vtx, n + 1, op) {
      var j :| 0 < j < n + 1 && op in vtx[j].vin;
      assert j < n ==> op in vtx[..n][j].vin;
    }
    if SpentBefore(vtx[..n], n, op) {
      var j :| 0 < j < n && op in vtx[..n][j].vin;
      assert op in vtx[j].vin;
    }
  }

  /**
   A transaction whose id has nothing unspent any more when its turn comes: unknown, or spent up earlier in the block.
   */
  ghost predicate FreeId(u: Utxo, vtx: seq<Tx>, k: nat)
    requires k < |vtx|
  {
    forall n: nat :: Unspent(u, OutPoint(vtx[k].txid, n)) ==> SpentBefore(vtx, k, OutPoint(vtx[k].txid, n))
  }

  /** What overwriting nothing means in terms of the set before the block. */
  lemma OverwriteFreeMeans(rules: Rules, u: Utxo, block: Block, height: nat)
    requires ValidUtxo(u) && height > 0 && CheckBlock(block) && ConnectTxs(rules, u, block.vtx, height).Some?
    ensures OverwriteFree(rules, u, block.vtx, height) <==> forall k :: 0 <= k < |block.vtx| ==> FreeId(u, block.vtx, k)
  {
    hide CheckTransaction, ConnectTx, ValidUtxo;
    var vtx := block.vtx;
    forall k: nat | k < |vtx|
      ensures ConnectTxs(rules, u, vtx[..k], height).Some?
      ensures vtx[k].txid !in ConnectTxs(rules, u, vtx[..k], height).value.utxo <==> FreeId(u, vtx, k)
    {
      PrefixConnects(rules, u, vtx, height, k);
      FreeIdMeans(rules, u, block, height, k);
    }
  }

  lemma FreeIdMeans(rules: Rules, u: Utxo, block: Block, height: nat, k: nat)
    requires ValidUtxo(u) && height > 0 && CheckBlock(block) && k < |block.vtx|
    requires ConnectTxs(rules, u, block.vtx[..k], height).Some?
    ensures block.vtx[k].txid !in ConnectTxs(rules, u, block.vtx[..k], height).value.utxo <==> FreeId(u, block.vtx, k)
  {
    hide CheckTransaction, ConnectTx, ConnectTxs;
    var vtx, t := block.vtx, block.vtx[k].txid;
    var v := ConnectTxs(rules, u, vtx[..k], height).value.utxo;
    ConnectTxsEffect(rules, u, vtx[..k], height);
    forall n: nat ensures Unspent(v, OutPoint(t, n)) <==>
        Unspent(u, OutPoint(t, n)) && !SpentBefore(vtx, k, OutPoint(t, n)) {
      OutputAfterTxs(rules, u, vtx[..k], height, OutPoint(t, n));
      assert SpentBefore(vtx[..k], k, OutPoint(t, n)) <==> SpentBefore(vtx, k, OutPoint(t, n)) by {
        assert forall j :: 0 < j < k ==> vtx[..k][j] == vtx[j];
      }
    }
    if t in v {
      var n :| 0 <= n < |v[t].vout| && !v[t].vout[n].IsNull();
      assert Unspent(v, OutPoint(t, n));
    }
  }

  // ----- disconnecting -----

  /** Nothing in the block spends an output of its own transaction's id; ids being hashes, no transaction can. */
  ghost predicate NoSelfSpend(vtx: seq<Tx>)
  {
    forall k, i :: 0 <= k < |vtx| && 0 <= i < |vtx[k].vin| ==> vtx[k].vin[i].hash != vtx[k].txid
  }

  /** The records of a transaction say nothing of having spent up the given id. */
  ghost predicate PartialTx(vin: seq<OutPoint>, undo: TxUndo, t: Txid)
  {
    |vin| == |undo| && forall i :: 0 <= i < |vin| && vin[i].hash == t ==> undo[i].height == 0
  }

  ghost predicate PartialTxs(vtx: seq<Tx>, undo: seq<TxUndo>, t: Txid)
  {
    (vtx == [] || |undo| + 1 == |vtx|) && forall j :: 0 < j < |vtx| ==> PartialTx(vtx[j].vin, undo[j - 1], t)
  }

  /** As long as an entry is still there, the records of its spends are those of parts. */
  lemma {:induction false} SpendsArePartial(u: Utxo, vin: seq<OutPoint>, t: Txid)
    requires ValidUtxo(u) && SpendInputs(u, vin).Some? && t in SpendInputs(u, vin).value.utxo
    ensures t in u && PartialTx(vin, SpendInputs(u, vin).value.undo, t)
  {
    hide Spend, ValidUtxo, Put, Get, Thinned, PartialTx;
    if vin != [] {
      var prefix, last := vin[..|vin| - 1], vin[|vin| - 1];
      SpendInputsEffect(u, prefix);
      var s := SpendInputs(u, prefix).value;
      SpendIsPartial(s.utxo, last, t);
      SpendsArePartial(u, prefix, t);
      PartialMore(prefix, s.undo, t, last, Spend(Get(s.utxo, last.hash), last.n).value.undo);
      assert vin == prefix + [last];
    } else {
      NothingPartial(t);
    }
  }

  lemma NothingPartial(t: Txid)
    ensures PartialTx([], [], t)
  {
  }

  lemma PartialMore(vin: seq<OutPoint>, undo: TxUndo, t: Txid, op: OutPoint, record: TxInUndo)
    requires PartialTx(vin, undo, t) && (op.hash == t ==> record.height == 0)
    ensures PartialTx(vin + [op], undo + [record], t)
  {
  }

  lemma SpendIsPartial(u: Utxo, op: OutPoint, t: Txid)
    requires ValidUtxo(u) && Spend(Get(u, op.hash), op.n).Some?
    requires t in Put(u, op.hash, Spend(Get(u, op.hash), op.n).value.coins)
    ensures t in u && (op.hash == t ==> Spend(Get(u, op.hash), op.n).value.undo.height == 0)
  {
    hide Trim;
  }

  lemma {:induction false} BlockIsPartial(rules: Rules, u: Utxo, vtx: seq<Tx>, height: nat, t: Txid)
    requires ValidUtxo(u) && height > 0 && BlockPrefix(vtx) && ConnectTxs(rules, u, vtx, height).Some?
    requires UnusedBefore(vtx, |vtx|, t) && t in ConnectTxs(rules, u, vtx, height).value.utxo
    ensures t in u && PartialTxs(vtx, ConnectTxs(rules, u, vtx, height).value.undo, t)
  {
    hide ConnectTx, CheckTransaction, ValidUtxo, PartialTx;
    if vtx != [] {
      var n := |vtx| - 1;
      ConnectTxsEffect(rules, u, vtx[..n], height);
      var p := ConnectTxs(rules, u, vtx[..n], height).value;
      TxIsPartial(rules, p, vtx[n], height, t);
      BlockIsPartial(rules, u, vtx[..n], height, t);
    }
  }

  lemma TxIsPartial(rules: Rules, p: Progress, tx: Tx, height: nat, t: Txid)
    requires ValidUtxo(p.utxo) && ConnectTx(rules, p, tx, height).Some? && tx.txid != t
    requires t in ConnectTx(rules, p, tx, height).value.utxo
    ensures t in p.utxo
    ensures var q := ConnectTx(rules, p, tx, height).value;
            if tx.IsCoinBase() then q.undo == p.undo
            else |q.undo| == |p.undo| + 1 && q.undo[..|p.undo|] == p.undo && PartialTx(tx.vin, q.undo[|p.undo|], t)
  {
    hide CheckAmounts, HaveInputs, SumP2SH, ScriptsOk, ValueIn, ValueOut, SpendInputs, PartialTx, ValidUtxo;
    if !tx.IsCoinBase() {
      SpendsArePartial(p.utxo, tx.vin, t);
    }
  }

  /** Restoring parts of an entry that is not there does not go unnoticed. */
  lemma {:induction false} RestoresNothing(u: Utxo, vin: seq<OutPoint>, undo: TxUndo, t: Txid)
    requires t !in u && PartialTx(vin, undo, t) && RestoreInputs(u, vin, undo).clean
    ensures t !in RestoreInputs(u, vin, undo).utxo
    decreases |vin|
  {
    if vin != [] {
      var n := |vin| - 1;
      var r := Restore(Get(u, vin[n].hash), vin[n].n, undo[n]);
      assert vin[n].hash == t ==> !r.clean;
      RestoresNothing(Put(u, vin[n].hash, r.coins), vin[..n], undo[..n], t);
    }
  }

  lemma {:induction false} StaysAbsent(u: Utxo, vtx: seq<Tx>, height: nat, undo: seq<TxUndo>, t: Txid)
    requires t !in u && PartialTxs(vtx, undo, t) && (|vtx| > 0 ==> |undo| + 1 == |vtx|)
    requires DisconnectTxs(u, vtx, height, undo).Some? && DisconnectTxs(u, vtx, height, undo).value.clean
    ensures t !in DisconnectTxs(u, vtx, height, undo).value.utxo
    decreases |vtx|
  {
    hide RestoreInputs, PartialTx;
    if |vtx| > 1 {
      var i := |vtx| - 1;
      var removed := RemoveOutputs(u, vtx[i], height).utxo;
      assert PartialTx(vtx[i].vin, undo[i - 1], t);
      RestoresNothing(removed, vtx[i].vin, undo[i - 1], t);
      PartialPrefix(vtx, undo, t);
      StaysAbsent(RestoreInputs(removed, vtx[i].vin, undo[i - 1]).utxo, vtx[..i], height, undo[..i - 1], t);
    }
  }

  lemma PartialPrefix(vtx: seq<Tx>, undo: seq<TxUndo>, t: Txid)
    requires |vtx| > 1 && PartialTxs(vtx, undo, t)
    ensures PartialTxs(vtx[..|vtx| - 1], undo[..|vtx| - 2], t)
  {
  }

  /** Records of a transaction that spends nothing of an id are partial for it. */
  lemma {:induction false} OwnRecordsArePartial(u: Utxo, vin: seq<OutPoint>, t: Txid)
    requires SpendInputs(u, vin).Some? && forall i :: 0 <= i < |vin| ==> vin[i].hash != t
    ensures PartialTx(vin, SpendInputs(u, vin).value.undo, t)
  {
    if vin != [] {
      OwnRecordsArePartial(u, vin[..|vin| - 1], t);
    }
  }

  /** The transaction that overwrites an entry: its own records and those before it never restore the entry. */
  lemma PartialThrough(rules: Rules, u: Utxo, vtx: seq<Tx>, height: nat)
    requires vtx != [] && ValidUtxo(u) && height > 0 && BlockPrefix(vtx) && NoSelfSpend(vtx)
    requires ConnectTxs(rules, u, vtx, height).Some?
    requires var n := |vtx| - 1; UnusedBefore(vtx[..n], n, vtx[n].txid) && ConnectTxs(rules, u, vtx[..n], height).Some?
    requires var n := |vtx| - 1; vtx[n].txid in ConnectTxs(rules, u, vtx[..n], height).value.utxo
    ensures vtx[|vtx| - 1].txid in u
    ensures PartialTxs(vtx, ConnectTxs(rules, u, vtx, height).value.undo, vtx[|vtx| - 1].txid)
  {
    hide CheckTransaction, ValidUtxo, PartialTx, ConnectTx;
    var n := |vtx| - 1;
    var t, p := vtx[n].txid, ConnectTxs(rules, u, vtx[..n], height).value;
    BlockIsPartial(rules, u, vtx[..n], height, t);
    ConnectTxsEffect(rules, u, vtx[..n], height);
    if n > 0 {
      OwnTxIsPartial(rules, p, vtx[n], height);
    } else {
      ConnectTxsEffect(rules, u, vtx, height);
    }
  }

  lemma OwnTxIsPartial(rules: Rules, p: Progress, tx: Tx, height: nat)
    requires !tx.IsCoinBase() && ConnectTx(rules, p, tx, height).Some? && forall i :: 0 <= i < |tx.vin| ==>
               tx.vin[i].hash != tx.txid
    ensures var q := ConnectTx(rules, p, tx, height).value;
            |q.undo| == |p.undo| + 1 && q.undo[..|p.undo|] == p.undo && PartialTx(tx.vin, q.undo[|p.undo|], tx.txid)
  {
    hide CheckAmounts, HaveInputs, SumP2SH, ScriptsOk, ValueIn, ValueOut, SpendInputs, PartialTx;
    OwnRecordsArePartial(p.utxo, tx.vin, tx.txid);
  }

  /** From any set whatever: an entry that was overwritten is not in what a clean disconnection leaves. */
  lemma {:induction false} OverwrittenIsLost(
      rules: Rules, u: Utxo, vtx: seq<Tx>, height: nat, k: nat, w: Utxo)
    requires ValidUtxo(u) && height > 0 && BlockPrefix(vtx) && NoSelfSpend(vtx) && k < |vtx|
    requires ConnectTxs(rules, u, vtx, height).Some? && ConnectTxs(rules, u, vtx[..k], height).Some?
    requires forall i, j :: 0 <= i < j < |vtx| ==> vtx[i].txid != vtx[j].txid
    requires vtx[k].txid in ConnectTxs(rules, u, vtx[..k], height).value.utxo
    requires |ConnectTxs(rules, u, vtx, height).value.undo| + 1 == |vtx|
    requires var d := DisconnectTxs(w, vtx, height, ConnectTxs(rules, u, vtx, height).value.undo);
             d.Some? && d.value.clean
    ensures vtx[k].txid in u
    ensures vtx[k].txid !in DisconnectTxs(w, vtx, height, ConnectTxs(rules, u, vtx, height).value.undo).value.utxo
  {
    hide CheckTransaction, ValidUtxo, PartialTx, ConnectTx, RestoreInputs, RemoveOutputs;
    var n := |vtx| - 1;
    var undo := ConnectTxs(rules, u, vtx, height).value.undo;
    PrefixConnects(rules, u, vtx, height, n);
    if k == n {
      PartialThrough(rules, u, vtx, height);
      AbsentAfterRemoval(w, vtx, height, undo);
    } else {
      ConnectTxsEffect(rules, u, vtx[..n], height);
      UndoGrows(rules, ConnectTxs(rules, u, vtx[..n], height).value, vtx[n], height);
      assert undo[..n - 1] == ConnectTxs(rules, u, vtx[..n], height).value.undo;
      assert vtx[..n][..k] == vtx[..k];
      var removed := RemoveOutputs(w, vtx[n], height).utxo;
      OverwrittenIsLost(rules, u, vtx[..n], height, k, RestoreInputs(removed, vtx[n].vin, undo[n - 1]).utxo);
    }
  }

  lemma UndoGrows(rules: Rules, p: Progress, tx: Tx, height: nat)
    requires !tx.IsCoinBase() && ConnectTx(rules, p, tx, height).Some?
    ensures var q := ConnectTx(rules, p, tx, height).value; |q.undo| == |p.undo| + 1 && q.undo[..|p.undo|] == p.undo
  {
  }

  lemma AbsentAfterRemoval(w: Utxo, vtx: seq<Tx>, height: nat, undo: seq<TxUndo>)
    requires vtx != [] && |undo| + 1 == |vtx| && PartialTxs(vtx, undo, vtx[|vtx| - 1].txid)
    requires DisconnectTxs(w, vtx, height, undo).Some? && DisconnectTxs(w, vtx, height, undo).value.clean
    ensures vtx[|vtx| - 1].txid !in DisconnectTxs(w, vtx, height, undo).value.utxo
  {
    hide RestoreInputs, PartialTx;
    var i := |vtx| - 1;
    var t, removed := vtx[i].txid, RemoveOutputs(w, vtx[i], height).utxo;
    if i > 0 {
      assert PartialTx(vtx[i].vin, undo[i - 1], t);
      RestoresNothing(removed, vtx[i].vin, undo[i - 1], t);
      PartialPrefix(vtx, undo, t);
      StaysAbsent(RestoreInputs(removed, vtx[i].vin, undo[i - 1]).utxo, vtx[..i], height, undo[..i - 1], t);
    }
  }

  /**
   The exact condition: a block that connects is undone by disconnecting it if and only if every transaction's id is
   unknown, or has been spent up earlier in the block, when its turn comes.
   */
  lemma UndoneIffOverwriteFree(rules: Rules, u: Utxo, block: Block, height: nat)
    requires ValidUtxo(u) && 0 < height && height / HALVING_INTERVAL < 64 && CheckBlock(block) && NoSelfSpend(block.vtx)
    requires ConnectBlock(rules, u, block, height).Some?
    ensures var c := ConnectBlock(rules, u, block, height).value;
            DisconnectBlock(c.utxo, block, height, c.undo) == Some(Undone(u, true)) <==>
            forall k :: 0 <= k < |block.vtx| ==> FreeId(u, block.vtx, k)
  {
    hide DisconnectTxs, ConnectTxs, FreeId, ValidUtxo, CheckTransaction;
    var vtx, c := block.vtx, ConnectBlock(rules, u, block, height).value;
    OverwriteFreeMeans(rules, u, block, height);
    ConnectTxsEffect(rules, u, vtx, height);
    if OverwriteFree(rules, u, vtx, height) {
      DisconnectTxsUndoesConnectTxs(rules, u, vtx, height);
    } else {
      var k: nat :| k < |vtx| && ConnectTxs(rules, u, vtx[..k], height).Some? &&
                    vtx[k].txid in ConnectTxs(rules, u, vtx[..k], height).value.utxo;
      var d := DisconnectTxs(c.utxo, vtx, height, c.undo);
      if d.Some? && d.value.clean {
        OverwrittenIsLost(rules, u, vtx, height, k, c.utxo);
      }
    }
  }

  /** A set and a block: the coinbase of the block takes the id of an entry, which is lost. */
  lemma OverwriteIsNotUndone(rules: Rules)
    requires !rules.enforceBip30 && rules.engine.legacySigOps(SECOND_COINBASE) <= MAX_BLOCK_SIGOPS
    ensures var u, block := map[7 := FIRST_COINS], Block([SECOND_COINBASE]);
            && ValidUtxo(u) && CheckBlock(block) && ConnectBlock(rules, u, block, 2).Some?
            && var c := ConnectBlock(rules, u, block, 2).value;
               DisconnectBlock(c.utxo, block, 2, c.undo) == Some(Undone(map[], true))
  {
    var u, tx, block := map[7 := FIRST_COINS], SECOND_COINBASE, Block([SECOND_COINBASE]);
    assert tx.vout[..0] == [] && SumValues(tx.vout) == SumValues(tx.vout[..0]) + 0;
    assert !CoinsOf(tx, 2).vout[0].IsNull() && !FIRST_COINS.vout[0].IsNull();
    assert [tx][..0] == [];
    assert Put(u, 7, CoinsOf(tx, 2)) == map[7 := CoinsOf(tx, 2)];
    assert ConnectTxs(rules, u, [], 2) == Some(Progress(u, [], 0, 0, true));
    assert ConnectTxs(rules, u, [tx], 2) ==
      Some(Progress(map[7 := CoinsOf(tx, 2)], [], 0, rules.engine.legacySigOps(tx), true));
    assert map[7 := CoinsOf(tx, 2)] - {7} == map[];
  }

  const FIRST_COINS := Coins(true, [TxOut(5, [])], 1, 1)

  const SECOND_COINBASE := Tx(7, 1, [OutPoint(0, 0xFFFF_FFFF)], [TxOut(0, [])])
}
