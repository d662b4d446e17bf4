/**
 What storage does to an unspent-output set: outputs, heights and coinbase flags come back as they were, but a negative
 version comes back reduced to seven bits (src/main.h:732-749, 982-1042).  Connecting and disconnecting respect this
 wear, and disconnecting notices it exactly when a block has a transaction with a negative version.
 */
module Wear {
  import opened Coins
  import opened Ledger
  import opened LedgerInverse

  // ----- storing a whole set -----

  function Stored(u: Utxo): Utxo { map t | t in u :: StoredCoins(u[t]) }

  function StoredTxUndo(undo: TxUndo): (r: TxUndo)
    ensures |r| == |undo|
  {
    seq(|undo|, i requires 0 <= i < |undo| => StoredUndo(undo[i]))
  }

  function StoredUndos(undo: seq<TxUndo>): (r: seq<TxUndo>)
    ensures |r| == |undo|
  {
    seq(|undo|, i requires 0 <= i < |undo| => StoredTxUndo(undo[i]))
  }

  /** No entry of the set has a negative version, as is the case after it was read from disk. */
  ghost predicate AllStored(u: Utxo) { forall t :: t in u ==> u[t].version >= 0 }

  ghost predicate TxUndoStored(undo: TxUndo)
  {
    forall i :: 0 <= i < |undo| && undo[i].height > 0 ==> undo[i].version >= 0
  }

  ghost predicate UndosStored(undo: seq<TxUndo>) { forall i :: 0 <= i < |undo| ==> TxUndoStored(undo[i]) }

  /** Nothing in a block or chain that storage would change. */
  predicate NoNegativeVersion(vtx: seq<Tx>) { forall i :: 0 <= i < |vtx| ==> vtx[i].version >= 0 }

  // ----- the relation -----

  /** A version as it may be after any number of round trips through storage. */
  predicate Worn(v: int, original: int) { v == original || v == StoredVersion(original) }

  predicate WornCoins(c: Coins, original: Coins)
  {
    c.(version := original.version) == original && Worn(c.version, original.version)
  }

  ghost predicate WornSet(u: Utxo, original: Utxo)
  {
    u.Keys == original.Keys && forall t :: t in original ==> WornCoins(u[t], original[t])
  }

  predicate WornUndo(undo: TxInUndo, original: TxInUndo)
  {
    undo.(version := original.version) == original && (original.height > 0 ==> Worn(undo.version, original.version))
  }

  ghost predicate WornTxUndo(undo: TxUndo, original: TxUndo)
  {
    |undo| == |original| && forall i :: 0 <= i < |undo| ==> WornUndo(undo[i], original[i])
  }

  ghost predicate WornUndos(undo: seq<TxUndo>, original: seq<TxUndo>)
  {
    |undo| == |original| && forall i :: 0 <= i < |undo| ==> WornTxUndo(undo[i], original[i])
  }

  /** Whatever is like a set that is worn is worn. */
  lemma WornTwice(v: Utxo, o: Utxo)
    requires WornSet(v, o)
    ensures forall u :: WornSet(u, v) ==> WornSet(u, o)
  {
  }

  lemma StoredIsWorn(u: Utxo, o: Utxo)
    requires WornSet(u, o)
    ensures WornSet(Stored(u), o) && AllStored(Stored(u)) && WornSet(o, o)
  {
  }

  lemma StoredUndoIsWorn(undo: seq<TxUndo>)
    ensures WornUndos(StoredUndos(undo), undo) && UndosStored(StoredUndos(undo)) && WornUndos(undo, undo)
  {
    forall i | 0 <= i < |undo|
      ensures WornTxUndo(StoredUndos(undo)[i], undo[i]) && TxUndoStored(StoredUndos(undo)[i])
      ensures WornTxUndo(undo[i], undo[i])
    {
    }
  }

  /** Storing records that are worn already wears them no further. */
  lemma StoredUndoStaysWorn(undo: seq<TxUndo>, original: seq<TxUndo>)
    requires WornUndos(undo, original)
    ensures WornUndos(StoredUndos(undo), original) && UndosStored(StoredUndos(undo))
  {
    forall i | 0 <= i < |undo|
      ensures WornTxUndo(StoredUndos(undo)[i], original[i]) && TxUndoStored(StoredUndos(undo)[i]) {
      assert WornTxUndo(undo[i], original[i]);
    }
  }

  /** Where nothing is negative there is nothing to wear. */
  lemma NothingWears(u: Utxo, o: Utxo)
    requires WornSet(u, o) && AllStored(o)
    ensures u == o
  {
  }

  lemma WornValid(u: Utxo, o: Utxo)
    requires WornSet(u, o) && ValidUtxo(o)
    ensures ValidUtxo(u)
  {
  }

  // ----- reading a worn set -----

  lemma WornOutput(u: Utxo, o: Utxo, op: OutPoint)
    requires WornSet(u, o)
    ensures Unspent(u, op) == Unspent(o, op) && OutputAt(u, op) == OutputAt(o, op)
    ensures WornCoins(Get(u, op.hash), Get(o, op.hash))
  {
  }

  lemma {:induction false} WornSum(u: Utxo, o: Utxo, vin: seq<OutPoint>)
    requires WornSet(u, o)
    ensures SumInputs(u, vin) == SumInputs(o, vin)
  {
    if vin != [] {
      WornSum(u, o, vin[..|vin| - 1]);
      WornOutput(u, o, vin[|vin| - 1]);
    }
  }

  lemma {:induction false} WornOrder(u: Utxo, o: Utxo, vin: seq<OutPoint>, height: nat)
    requires WornSet(u, o)
    ensures InputsInOrder(u, vin, height) == InputsInOrder(o, vin, height)
  {
    if vin != [] {
      hide WornSet;
      WornOrder(u, o, vin[..|vin| - 1], height);
      WornSum(u, o, vin);
      WornOutput(u, o, vin[|vin| - 1]);
    }
  }

  lemma {:induction false} WornSigOps(rules: Rules, u: Utxo, o: Utxo, tx: Tx, k: nat)
    requires WornSet(u, o) && k <= |tx.vin|
    ensures SumP2SH(rules, u, tx, k) == SumP2SH(rules, o, tx, k)
  {
    if k > 0 {
      WornSigOps(rules, u, o, tx, k - 1);
      WornOutput(u, o, tx.vin[k - 1]);
    }
  }

  lemma WornChecks(rules: Rules, u: Utxo, o: Utxo, tx: Tx, height: nat)
    requires WornSet(u, o)
    ensures HaveInputs(u, tx) == HaveInputs(o, tx) && CheckAmounts(u, tx, height) == CheckAmounts(o, tx, height)
    ensures ValueIn(u, tx) == ValueIn(o, tx) && ScriptsOk(rules, u, tx) == ScriptsOk(rules, o, tx)
    ensures SumP2SH(rules, u, tx, |tx.vin|) == SumP2SH(rules, o, tx, |tx.vin|)
  {
    hide WornSet, Unspent, OutputAt, SumInputs, InputsInOrder, SumP2SH;
    forall i | 0 <= i < |tx.vin|
      ensures Unspent(u, tx.vin[i]) == Unspent(o, tx.vin[i]) && OutputAt(u, tx.vin[i]) == OutputAt(o, tx.vin[i])
    {
      WornOutput(u, o, tx.vin[i]);
    }
    WornSum(u, o, tx.vin);
    WornOrder(u, o, tx.vin, height);
    WornSigOps(rules, u, o, tx, |tx.vin|);
  }

  // ----- changing a worn set -----

  lemma WornPut(u: Utxo, o: Utxo, t: Txid, c: Coins, d: Coins)
    requires WornSet(u, o) && WornCoins(c, d)
    ensures WornSet(Put(u, t, c), Put(o, t, d))
  {
  }

  lemma WornSpend(c: Coins, d: Coins, n: nat)
    requires WornCoins(c, d)
    ensures Spend(c, n).Some? == Spend(d, n).Some?
    ensures Spend(c, n).Some? ==>
      WornCoins(Spend(c, n).value.coins, Spend(d, n).value.coins) &&
        WornUndo(Spend(c, n).value.undo, Spend(d, n).value.undo)
  {
  }

  lemma {:induction false} WornSpends(u: Utxo, o: Utxo, vin: seq<OutPoint>)
    requires WornSet(u, o)
    ensures SpendInputs(u, vin).Some? == SpendInputs(o, vin).Some?
    ensures SpendInputs(u, vin).Some? ==>
      WornSet(SpendInputs(u, vin).value.utxo, SpendInputs(o, vin).value.utxo) &&
      WornTxUndo(SpendInputs(u, vin).value.undo, SpendInputs(o, vin).value.undo)
  {
    hide WornSet, Spend, Put;
    if vin != [] {
      var last := vin[|vin| - 1];
      WornSpends(u, o, vin[..|vin| - 1]);
      if SpendInputs(u, vin[..|vin| - 1]).Some? {
        var s, r := SpendInputs(u, vin[..|vin| - 1]).value, SpendInputs(o, vin[..|vin| - 1]).value;
        WornOutput(s.utxo, r.utxo, last);
        WornSpend(Get(s.utxo, last.hash), Get(r.utxo, last.hash), last.n);
        if Spend(Get(s.utxo, last.hash), last.n).Some? {
          WornPut(s.utxo, r.utxo, last.hash, Spend(Get(s.utxo, last.hash), last.n).value.coins,
                  Spend(Get(r.utxo, last.hash), last.n).value.coins);
        }
      }
    }
  }

  ghost predicate WornProgress(p: Progress, q: Progress)
  {
    WornSet(p.utxo, q.utxo) && WornUndos(p.undo, q.undo) && p.(utxo := q.utxo, undo := q.undo) == q
  }

  lemma WornConnectTx(rules: Rules, p: Progress, q: Progress, tx: Tx, height: nat)
    requires WornProgress(p, q)
    ensures ConnectTx(rules, p, tx, height).Some? == ConnectTx(rules, q, tx, height).Some?
    ensures ConnectTx(rules, p, tx, height).Some? ==>
      WornProgress(ConnectTx(rules, p, tx, height).value, ConnectTx(rules, q, tx, height).value)
  {
    hide WornSet, WornTxUndo, HaveInputs, CheckAmounts, ValueIn, ValueOut, ScriptsOk, SumP2SH, SpendInputs, Put,
      WornCoins;
    WornChecks(rules, p.utxo, q.utxo, tx, height);
    WornSpends(p.utxo, q.utxo, tx.vin);
    var c := CoinsOf(tx, height);
    NewCoinsAreWorn(c);
    if tx.IsCoinBase() {
      WornPut(p.utxo, q.utxo, tx.txid, c, c);
    } else if SpendInputs(p.utxo, tx.vin).Some? {
      WornPut(SpendInputs(p.utxo, tx.vin).value.utxo, SpendInputs(q.utxo, tx.vin).value.utxo, tx.txid, c, c);
    }
  }

  lemma NewCoinsAreWorn(c: Coins)
    ensures WornCoins(c, c)
  {
  }

  lemma {:induction false} WornConnectTxs(rules: Rules, u: Utxo, o: Utxo, vtx: seq<Tx>, height: nat)
    requires WornSet(u, o)
    ensures ConnectTxs(rules, u, vtx, height).Some? == ConnectTxs(rules, o, vtx, height).Some?
    ensures ConnectTxs(rules, u, vtx, height).Some? ==>
      WornProgress(ConnectTxs(rules, u, vtx, height).value, ConnectTxs(rules, o, vtx, height).value)
  {
    hide WornSet, ConnectTx;
    if vtx != [] {
      WornConnectTxs(rules, u, o, vtx[..|vtx| - 1], height);
      if ConnectTxs(rules, u, vtx[..|vtx| - 1], height).Some? {
        WornConnectTx(rules, ConnectTxs(rules, u, vtx[..|vtx| - 1], height).value,
                      ConnectTxs(rules, o, vtx[..|vtx| - 1], height).value, vtx[|vtx| - 1], height);
      }
    }
  }

  /** A block connects to a worn set exactly when it connects to the original, and with the same effect but for wear. */
  lemma WornConnectBlock(rules: Rules, u: Utxo, o: Utxo, block: Block, height: nat)
    requires WornSet(u, o) && height / HALVING_INTERVAL < 64 && block.vtx != []
    ensures ConnectBlock(rules, u, block, height).Some? == ConnectBlock(rules, o, block, height).Some?
    ensures ConnectBlock(rules, u, block, height).Some? ==>
      var c, d := ConnectBlock(rules, u, block, height).value, ConnectBlock(rules, o, block, height).value;
      WornSet(c.utxo, d.utxo) && WornUndos(c.undo, d.undo) && c.fees == d.fees
  {
    hide ConnectTxs;
    WornConnectTxs(rules, u, o, block.vtx, height);
  }

  // ----- disconnecting a worn set -----

  lemma WornRestore(c: Coins, d: Coins, n: nat, undo: TxInUndo, original: TxInUndo)
    requires WornCoins(c, d) && WornUndo(undo, original)
    ensures WornCoins(Restore(c, n, undo).coins, Restore(d, n, original).coins)
    ensures Restore(c, n, undo).clean == Restore(d, n, original).clean
  {
  }

  lemma {:induction false} WornRestores(u: Utxo, o: Utxo, vin: seq<OutPoint>, undo: TxUndo, original: TxUndo)
    requires WornSet(u, o) && WornTxUndo(undo, original) && |vin| == |undo|
    ensures WornSet(RestoreInputs(u, vin, undo).utxo, RestoreInputs(o, vin, original).utxo)
    ensures RestoreInputs(u, vin, undo).clean == RestoreInputs(o, vin, original).clean
    decreases |vin|
  {
    hide WornSet, Restore, Put, WornUndo;
    if vin != [] {
      var n := |vin| - 1;
      var c, d := Get(u, vin[n].hash), Get(o, vin[n].hash);
      WornOutput(u, o, vin[n]);
      WornRestore(c, d, vin[n].n, undo[n], original[n]);
      var r, q := Restore(c, vin[n].n, undo[n]).coins, Restore(d, vin[n].n, original[n]).coins;
      WornPut(u, o, vin[n].hash, r, q);
      WornRestores(Put(u, vin[n].hash, r), Put(o, vin[n].hash, q), vin[..n], undo[..n], original[..n]);
    }
  }

  lemma WornRemove(u: Utxo, o: Utxo, tx: Tx, height: nat)
    requires WornSet(u, o)
    ensures WornSet(RemoveOutputs(u, tx, height).utxo, RemoveOutputs(o, tx, height).utxo)
    ensures RemoveOutputs(o, tx, height).clean && tx.version >= 0 ==> RemoveOutputs(u, tx, height).clean
  {
    WornOutput(u, o, OutPoint(tx.txid, 0));
  }

  /**
   Disconnecting a worn set from worn records: the same set but for wear, clean if no version of the block is negative.
   */
  lemma {:induction false} WornDisconnectTxs(
      u: Utxo, o: Utxo, vtx: seq<Tx>, height: nat, undo: seq<TxUndo>, original: seq<TxUndo>)
    requires WornSet(u, o) && WornUndos(undo, original) && (|vtx| > 0 ==> |undo| + 1 == |vtx|)
    requires DisconnectTxs(o, vtx, height, original).Some?
    ensures DisconnectTxs(u, vtx, height, undo).Some?
    ensures var d, e := DisconnectTxs(u, vtx, height, undo).value, DisconnectTxs(o, vtx, height, original).value;
            && WornSet(d.utxo, e.utxo)
            && (e.clean && NoNegativeVersion(vtx) ==> d.clean)
    decreases |vtx|
  {
    hide WornSet, WornTxUndo, RemoveOutputs, RestoreInputs;
    if vtx != [] {
      var i := |vtx| - 1;
      WornRemove(u, o, vtx[i], height);
      if i > 0 {
        WornTxUndoSize(undo[i - 1], original[i - 1]);
        var ru, ro := RemoveOutputs(u, vtx[i], height).utxo, RemoveOutputs(o, vtx[i], height).utxo;
        WornRestores(ru, ro, vtx[i].vin, undo[i - 1], original[i - 1]);
        WornDisconnectTxs(RestoreInputs(ru, vtx[i].vin, undo[i - 1]).utxo,
                          RestoreInputs(ro, vtx[i].vin, original[i - 1]).utxo,
                          vtx[..i], height, undo[..i - 1], original[..i - 1]);
        PrefixVersions(vtx);
      }
    }
  }

  lemma WornTxUndoSize(undo: TxUndo, original: TxUndo)
    requires WornTxUndo(undo, original)
    ensures |undo| == |original|
  {
  }

  lemma PrefixVersions(vtx: seq<Tx>)
    requires vtx != []
    ensures NoNegativeVersion(vtx) <==> NoNegativeVersion(vtx[..|vtx| - 1]) && vtx[|vtx| - 1].version >= 0
  {
    if NoNegativeVersion(vtx[..|vtx| - 1]) && vtx[|vtx| - 1].version >= 0 {
      forall i | 0 <= i < |vtx| ensures vtx[i].version >= 0 {
        assert i < |vtx| - 1 ==> vtx[..|vtx| - 1][i] == vtx[i];
      }
    }
  }

  // ----- exactly when nothing is amiss -----

  /** The set has an entry of an id under a version. */
  ghost predicate Has(u: Utxo, t: Txid, version: int) { t in u && !u[t].IsPruned() && u[t].version == version }

  /** What the set has of a transaction bears its version, or that is not negative. */
  ghost predicate Intact(u: Utxo, tx: Tx) { tx.version >= 0 || Has(u, tx.txid, tx.version) }

  ghost predicate AllIntact(u: Utxo, vtx: seq<Tx>) { forall k :: 0 <= k < |vtx| ==> Intact(u, vtx[k]) }

  /** In a stored set only transactions without a negative version are intact. */
  lemma StoredIntact(u: Utxo, vtx: seq<Tx>)
    ensures NoNegativeVersion(vtx) ==> AllIntact(u, vtx)
    ensures AllStored(u) && AllIntact(u, vtx) ==> NoNegativeVersion(vtx)
  {
    if AllStored(u) && AllIntact(u, vtx) {
      forall k | 0 <= k < |vtx| ensures vtx[k].version >= 0 {
        assert Intact(u, vtx[k]);
      }
    }
  }

  lemma RestoreKeepsVersion(u: Utxo, op: OutPoint, undo: TxInUndo, t: Txid, version: int)
    requires version < 0 && (undo.height > 0 ==> undo.version >= 0) && Restore(Get(u, op.hash), op.n, undo).clean
    ensures Has(Put(u, op.hash, Restore(Get(u, op.hash), op.n, undo).coins), t, version) <==> Has(u, t, version)
  {
    var c := Get(u, op.hash);
    var r := Restore(c, op.n, undo).coins;
    if undo.height == 0 {
      var m :| 0 <= m < |c.vout| && !c.vout[m].IsNull();
      assert r.vout[m] == c.vout[m];
    }
  }

  /** A negative version neither comes nor goes when inputs are restored cleanly from stored records. */
  lemma {:induction false} RestoresKeepVersion(u: Utxo, vin: seq<OutPoint>, undo: TxUndo, t: Txid, version: int)
    requires version < 0 && |vin| == |undo| && TxUndoStored(undo) && RestoreInputs(u, vin, undo).clean
    ensures Has(RestoreInputs(u, vin, undo).utxo, t, version) <==> Has(u, t, version)
    decreases |vin|
  {
    hide Has, Put, Restore;
    if vin != [] {
      var n := |vin| - 1;
      RestoreKeepsVersion(u, vin[n], undo[n], t, version);
      RestoresKeepVersion(Put(u, vin[n].hash, Restore(Get(u, vin[n].hash), vin[n].n, undo[n]).coins), vin[..n],
                          undo[..n], t, version);
    }
  }

  lemma RemovedCleanly(u: Utxo, o: Utxo, tx: Tx, height: nat)
    requires WornSet(u, o) && RemoveOutputs(o, tx, height).clean && !CoinsOf(tx, height).IsPruned()
    ensures RemoveOutputs(u, tx, height).clean <==> Intact(u, tx)
  {
  }

  ghost predicate DistinctIds(vtx: seq<Tx>) { forall i, j :: 0 <= i < j < |vtx| ==> vtx[i].txid != vtx[j].txid }

  lemma IntactBefore(u: Utxo, vtx: seq<Tx>, height: nat, undo: TxUndo)
    requires |vtx| > 1 && DistinctIds(vtx) && |undo| == |vtx[|vtx| - 1].vin| && TxUndoStored(undo)
    requires RestoreInputs(RemoveOutputs(u, vtx[|vtx| - 1], height).utxo, vtx[|vtx| - 1].vin, undo).clean
    ensures var removed := RemoveOutputs(u, vtx[|vtx| - 1], height).utxo;
            AllIntact(u, vtx) <==>
            AllIntact(RestoreInputs(removed, vtx[|vtx| - 1].vin, undo).utxo, vtx[..|vtx| - 1]) &&
              Intact(u, vtx[|vtx| - 1])
  {
    hide RestoreInputs;
    var n := |vtx| - 1;
    var removed := RemoveOutputs(u, vtx[n], height).utxo;
    var restored := RestoreInputs(removed, vtx[n].vin, undo).utxo;
    forall k | 0 <= k < n ensures Intact(restored, vtx[..n][k]) <==> Intact(u, vtx[k]) {
      if vtx[k].version < 0 {
        RestoresKeepVersion(removed, vtx[n].vin, undo, vtx[k].txid, vtx[k].version);
      }
    }
    if AllIntact(restored, vtx[..n]) && Intact(u, vtx[n]) {
      forall k | 0 <= k < |vtx| ensures Intact(u, vtx[k]) {
        assert k < n ==> Intact(restored, vtx[..n][k]);
      }
    }
  }

  /** From stored records, a worn set is disconnected cleanly exactly when all transactions are intact in it. */
  lemma {:induction false} CleanIffIntact(
      u: Utxo, o: Utxo, vtx: seq<Tx>, height: nat, undo: seq<TxUndo>, original: seq<TxUndo>)
    requires WornSet(u, o) && WornUndos(undo, original) && UndosStored(undo) && (|vtx| > 0 ==> |undo| + 1 == |vtx|)
    requires DistinctIds(vtx) && forall k :: 0 <= k < |vtx| ==> !CoinsOf(vtx[k], height).IsPruned()
    requires DisconnectTxs(o, vtx, height, original).Some? && DisconnectTxs(o, vtx, height, original).value.clean
    ensures DisconnectTxs(u, vtx, height, undo).Some?
    ensures DisconnectTxs(u, vtx, height, undo).value.clean <==> AllIntact(u, vtx)
    decreases |vtx|
  {
    hide WornSet, WornTxUndo, RemoveOutputs, RestoreInputs, TxUndoStored, Intact, CoinsOf;
    if vtx != [] {
      var i := |vtx| - 1;
      WornRemove(u, o, vtx[i], height);
      RemovedCleanly(u, o, vtx[i], height);
      if i > 0 {
        WornTxUndoSize(undo[i - 1], original[i - 1]);
        var ru, ro := RemoveOutputs(u, vtx[i], height).utxo, RemoveOutputs(o, vtx[i], height).utxo;
        WornRestores(ru, ro, vtx[i].vin, undo[i - 1], original[i - 1]);
        IntactBefore(u, vtx, height, undo[i - 1]);
        CleanIffIntact(RestoreInputs(ru, vtx[i].vin, undo[i - 1]).utxo,
                       RestoreInputs(ro, vtx[i].vin, original[i - 1]).utxo,
                       vtx[..i], height, undo[..i - 1], original[..i - 1]);
      }
    }
  }

  /** A clean disconnection takes the ids of the transactions away and no other negative version. */
  ghost predicate VersionsLeft(u: Utxo, vtx: seq<Tx>, after: Utxo)
  {
    forall t, version :: version < 0 ==> (Has(after, t, version) <==> Has(u, t, version) && t !in Txids(vtx))
  }

  lemma {:induction false} DisconnectLeavesVersions(u: Utxo, vtx: seq<Tx>, height: nat, undo: seq<TxUndo>)
    requires UndosStored(undo) && (|vtx| > 0 ==> |undo| + 1 == |vtx|)
    requires DisconnectTxs(u, vtx, height, undo).Some? && DisconnectTxs(u, vtx, height, undo).value.clean
    ensures VersionsLeft(u, vtx, DisconnectTxs(u, vtx, height, undo).value.utxo)
    decreases |vtx|
  {
    hide RestoreInputs, TxUndoStored, Has;
    if vtx != [] {
      var i := |vtx| - 1;
      var removed := RemoveOutputs(u, vtx[i], height).utxo;
      assert Txids(vtx) == Txids(vtx[..i]) + {vtx[i].txid};
      forall t, version ensures Has(removed, t, version) <==> Has(u, t, version) && t != vtx[i].txid {
        RemovedVersions(u, vtx[i], height, t, version);
      }
      if i > 0 {
        var restored := RestoreInputs(removed, vtx[i].vin, undo[i - 1]).utxo;
        forall t, version: int | version < 0 ensures Has(restored, t, version) <==> Has(removed, t, version) {
          RestoresKeepVersion(removed, vtx[i].vin, undo[i - 1], t, version);
        }
        DisconnectLeavesVersions(restored, vtx[..i], height, undo[..i - 1]);
      }
    }
  }

  lemma RemovedVersions(u: Utxo, tx: Tx, height: nat, t: Txid, version: int)
    ensures Has(RemoveOutputs(u, tx, height).utxo, t, version) <==> Has(u, t, version) && t != tx.txid
  {
  }

  lemma {:induction false} OutputsNotPruned(block: Block, height: nat)
    requires CheckBlock(block)
    ensures DistinctIds(block.vtx) && forall k :: 0 <= k < |block.vtx| ==> !CoinsOf(block.vtx[k], height).IsPruned()
  {
    forall k | 0 <= k < |block.vtx| ensures !CoinsOf(block.vtx[k], height).IsPruned() {
      assert CheckTransaction(block.vtx[k]) && MoneyRange(block.vtx[k].vout[0].value);
    }
  }

  /** What DisconnectBlock finds when coins and undo data of a block have been through storage any number of times. */
  lemma WornDisconnect(rules: Rules, o: Utxo, block: Block, height: nat, u: Utxo, undo: seq<TxUndo>)
    requires ValidUtxo(o) && 0 < height && height / HALVING_INTERVAL < 64 && CheckBlock(block)
    requires ConnectBlock(rules, o, block, height).Some?
    requires (rules.enforceBip30 || OverwriteFree(rules, o, block.vtx, height))
    requires var c := ConnectBlock(rules, o, block, height).value; WornSet(u, c.utxo) && WornUndos(undo, c.undo)
    ensures DisconnectBlock(u, block, height, undo).Some?
    ensures var d := DisconnectBlock(u, block, height, undo).value;
            && WornSet(d.utxo, o)
            && (NoNegativeVersion(block.vtx) ==> d.clean)
            && (UndosStored(undo) ==> (d.clean <==> AllIntact(u, block.vtx)))
            && (d.clean && AllStored(u) && UndosStored(undo) ==> NoNegativeVersion(block.vtx))
  {
    OutputsNotPruned(block, height);
    StoredIntact(u, block.vtx);
    hide ConnectBlock, DisconnectTxs, WornSet, WornTxUndo, OverwriteFree, NoNegativeVersion, CheckBlock, ValidUtxo;
    DisconnectUndoesConnect(rules, o, block, height);
    var c := ConnectBlock(rules, o, block, height).value;
    WornDisconnectTxs(u, c.utxo, block.vtx, height, undo, c.undo);
    if UndosStored(undo) {
      CleanIffIntact(u, c.utxo, block.vtx, height, undo, c.undo);
    }
  }

  /**
   From a set that was read from disk: once the coins of a block have been written there and read again, as its undo
   data always are, disconnecting it is clean and restores the set if and only if none of its transactions has a
   negative version.
   */
  lemma StoredBlockIsUndone(rules: Rules, o: Utxo, block: Block, height: nat)
    requires ValidUtxo(o) && AllStored(o) && 0 < height && height / HALVING_INTERVAL < 64 && CheckBlock(block)
    requires ConnectBlock(rules, o, block, height).Some?
    requires (rules.enforceBip30 || OverwriteFree(rules, o, block.vtx, height))
    ensures var c := ConnectBlock(rules, o, block, height).value;
            DisconnectBlock(Stored(c.utxo), block, height, StoredUndos(c.undo)) == Some(Undone(o, true)) <==>
            NoNegativeVersion(block.vtx)
  {
    hide ConnectBlock, DisconnectBlock, OverwriteFree, ValidUtxo, NoNegativeVersion;
    var c := ConnectBlock(rules, o, block, height).value;
    NewlyStored(c.utxo, c.undo);
    WornDisconnect(rules, o, block, height, Stored(c.utxo), StoredUndos(c.undo));
    NothingWears(DisconnectBlock(Stored(c.utxo), block, height, StoredUndos(c.undo)).value.utxo, o);
  }

  lemma NewlyStored(u: Utxo, undo: seq<TxUndo>)
    ensures WornSet(Stored(u), u) && AllStored(Stored(u)) && WornUndos(StoredUndos(undo), undo)
    ensures UndosStored(StoredUndos(undo))
  {
    StoredUndoIsWorn(undo);
  }

  /** A block without negative versions adds none to a set without any. */
  lemma BlockVersions(rules: Rules, u: Utxo, block: Block, height: nat)
    requires AllStored(u) && NoNegativeVersion(block.vtx) && height / HALVING_INTERVAL < 64 && block.vtx != []
    requires ConnectBlock(rules, u, block, height).Some?
    ensures AllStored(ConnectBlock(rules, u, block, height).value.utxo)
  {
    hide ConnectTxs;
    TxsVersions(rules, u, block.vtx, height);
  }

  lemma {:induction false} TxsVersions(rules: Rules, u: Utxo, vtx: seq<Tx>, height: nat)
    requires AllStored(u) && NoNegativeVersion(vtx) && ConnectTxs(rules, u, vtx, height).Some?
    ensures AllStored(ConnectTxs(rules, u, vtx, height).value.utxo)
  {
    hide CheckAmounts, HaveInputs, SumP2SH, ScriptsOk;
    if vtx != [] {
      TxsVersions(rules, u, vtx[..|vtx| - 1], height);
      var v := ConnectTxs(rules, u, vtx[..|vtx| - 1], height).value.utxo;
      var tx := vtx[|vtx| - 1];
      if !tx.IsCoinBase() {
        SpendsVersions(v, tx.vin);
      }
    }
  }

  lemma {:induction false} SpendsVersions(u: Utxo, vin: seq<OutPoint>)
    requires AllStored(u) && SpendInputs(u, vin).Some?
    ensures AllStored(SpendInputs(u, vin).value.utxo)
  {
    if vin != [] {
      SpendsVersions(u, vin[..|vin| - 1]);
    }
  }

  /**
   A block whose only transaction is a coinbase of version -1 connects to the empty set and can never be disconnected.
   */
  lemma NegativeVersionIsStuck(rules: Rules)
    requires rules.engine.legacySigOps(STUCK_COINBASE) <= MAX_BLOCK_SIGOPS
    ensures var block := Block([STUCK_COINBASE]);
            && CheckBlock(block) && ConnectBlock(rules, map[], block, 1).Some?
            && var c := ConnectBlock(rules, map[], block, 1).value;
               DisconnectBlock(Stored(c.utxo), block, 1, StoredUndos(c.undo)) == Some(Undone(map[], false))
  {
    var tx, block := STUCK_COINBASE, Block([STUCK_COINBASE]);
    assert tx.vout[..0] == [] && SumValues(tx.vout[..0]) == 0;
    assert SumValues(tx.vout) == 0;
    assert [tx][..0] == [];
    var c := CoinsOf(tx, 1);
    assert !c.vout[0].IsNull();
    assert ConnectTxs(rules, map[], [tx], 1) ==
      Some(Progress(map[tx.txid := c], [], 0, rules.engine.legacySigOps(tx), true));
    assert StoredCoins(c).version == 127;
  }

  const STUCK_COINBASE := Tx(1, -1, [OutPoint(0, 0xFFFF_FFFF)], [TxOut(0, [])])
}
