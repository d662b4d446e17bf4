/**
 ConnectBlock and DisconnectBlock as they run on a stack of coin caches (src/main.cpp:1476-1716, 1756-1907), proved to
 compute what Ledger specifies on the flat set.
 */
module BlockConnection {
  import opened Coins
  import opened BlockTree
  import opened CoinsView
  import opened LedgerRuns
  import opened LedgerInverse
  import opened Wear
  import L = Ledger

  /** Reading leaves the set and best block of the view, and of everything below, alone. */
  twostate predicate OnlyRead(view: CoinsViewCache)
    requires view.Valid()
    reads view.Layers, view.Db
  {
    && view.Flat() == old(view.Flat()) && view.Best() == old(view.Best())
    && view.BaseUnchanged()
    && (old(view.tip) != null ==> view.tip == old(view.tip))
  }

  method HaveInputs(view: CoinsViewCache, tx: L.Tx) returns (r: bool)
    requires view.Valid()
    modifies view.Layers
    ensures r == L.HaveInputs(view.Flat(), tx)
    ensures OnlyRead(view)
  {
    if tx.IsCoinBase() { return true; }
    for i := 0 to |tx.vin|
      invariant OnlyRead(view)
    {
      var have := view.HaveCoins(tx.vin[i].hash);
      if !have {
        assert !L.Unspent(view.Flat(), tx.vin[i]);
        return false;
      }
    }
    for i := 0 to |tx.vin|
      invariant OnlyRead(view)
      invariant forall j :: 0 <= j < i ==> L.Unspent(view.Flat(), tx.vin[j])
    {
      var coins := view.GetCoins(tx.vin[i].hash);
      if coins.None? || !coins.value.IsAvailable(tx.vin[i].n) {
        assert !L.Unspent(view.Flat(), tx.vin[i]);
        return false;
      }
      assert !coins.value.IsPruned();
    }
    r := true;
  }

  /** The output an input refers to; the caller has checked that it is there. */
  method GetOutputFor(view: CoinsViewCache, op: OutPoint) returns (coins: Coins, out: TxOut)
    requires view.Valid() && L.Unspent(view.Flat(), op)
    modifies view.Layers
    ensures coins == L.Get(view.Flat(), op.hash) && out == L.OutputAt(view.Flat(), op)
    ensures op.hash in view.cacheCoins && view.cacheCoins[op.hash] == coins
    ensures OnlyRead(view)
  {
    var found := view.GetCoins(op.hash);
    coins := found.value;
    out := coins.vout[op.n];
  }

  method GetValueIn(view: CoinsViewCache, tx: L.Tx) returns (v: int)
    requires view.Valid() && L.HaveInputs(view.Flat(), tx)
    modifies view.Layers
    ensures v == L.ValueIn(view.Flat(), tx)
    ensures OnlyRead(view)
  {
    v := 0;
    if tx.IsCoinBase() { return; }
    ghost var u := view.Flat();
    for i := 0 to |tx.vin|
      invariant OnlyRead(view)
      invariant v == L.SumInputs(u, tx.vin[..i])
    {
      var _, out := GetOutputFor(view, tx.vin[i]);
      v := v + out.value;
      assert tx.vin[..i + 1][..i] == tx.vin[..i];
    }
    assert tx.vin[..|tx.vin|] == tx.vin;
  }

  method GetP2SHSigOpCount(view: CoinsViewCache, tx: L.Tx, rules: L.Rules) returns (n: nat)
    requires view.Valid() && L.HaveInputs(view.Flat(), tx) && !tx.IsCoinBase()
    modifies view.Layers
    ensures n == L.SumP2SH(rules, view.Flat(), tx, |tx.vin|)
    ensures OnlyRead(view)
  {
    n := 0;
    ghost var u := view.Flat();
    for i := 0 to |tx.vin|
      invariant OnlyRead(view)
      invariant n == L.SumP2SH(rules, u, tx, i)
    {
      var _, out := GetOutputFor(view, tx.vin[i]);
      n := n + rules.engine.p2shSigOps(tx, i, out);
    }
  }

  ghost predicate All(checks: seq<bool>) { forall i :: 0 <= i < |checks| ==> checks[i] }

  lemma {:induction false} OrderFails(u: L.Utxo, vin: seq<OutPoint>, height: nat, k: nat)
    requires k <= |vin| && !L.InputsInOrder(u, vin[..k], height)
    ensures !L.InputsInOrder(u, vin, height)
  {
    if k < |vin| {
      assert vin[..|vin| - 1][..k] == vin[..k];
      OrderFails(u, vin[..|vin| - 1], height, k);
    } else {
      assert vin[..k] == vin;
    }
  }

  /** The checks on amounts and maturity, in the order of the inputs. */
  method CheckInputAmounts(view: CoinsViewCache, tx: L.Tx, height: nat) returns (ok: bool)
    requires view.Valid() && L.HaveInputs(view.Flat(), tx) && !tx.IsCoinBase()
    modifies view.Layers
    ensures ok == L.CheckAmounts(view.Flat(), tx, height)
    ensures OnlyRead(view)
  {
    var valueIn := 0;
    ghost var u := view.Flat();
    for i := 0 to |tx.vin|
      invariant OnlyRead(view)
      invariant valueIn == L.SumInputs(u, tx.vin[..i])
      invariant L.InputsInOrder(u, tx.vin[..i], height)
    {
      var coins, out := GetOutputFor(view, tx.vin[i]);
      assert tx.vin[..i + 1][..i] == tx.vin[..i];
      if coins.coinBase && height - coins.height < L.COINBASE_MATURITY {
        OrderFails(u, tx.vin, height, i + 1);
        return false;
      }
      valueIn := valueIn + out.value;
      if !L.MoneyRange(out.value) || !L.MoneyRange(valueIn) {
        OrderFails(u, tx.vin, height, i + 1);
        return false;
      }
    }
    assert tx.vin[..|tx.vin|] == tx.vin;
    if valueIn < L.ValueOut(tx) { return false; }
    ok := L.MoneyRange(valueIn - L.ValueOut(tx));
  }

  /** The script checks of one transaction, as closures still to be run. */
  method ScriptChecks(view: CoinsViewCache, tx: L.Tx, rules: L.Rules) returns (checks: seq<bool>)
    requires view.Valid() && L.HaveInputs(view.Flat(), tx) && !tx.IsCoinBase()
    modifies view.Layers
    ensures All(checks) <==> L.ScriptsOk(rules, view.Flat(), tx)
    ensures OnlyRead(view)
  {
    checks := [];
    ghost var u := view.Flat();
    if rules.scriptChecks {
      for i := 0 to |tx.vin|
        invariant OnlyRead(view)
        invariant |checks| == i
        invariant forall j :: 0 <= j < i ==> checks[j] == rules.engine.verify(tx, j, L.OutputAt(u, tx.vin[j]))
      {
        var _, out := GetOutputFor(view, tx.vin[i]);
        checks := checks + [rules.engine.verify(tx, i, out)];
      }
    }
  }

  /** UpdateCoins: spend every input in place, then store the outputs of the transaction. */
  method UpdateCoins(view: CoinsViewCache, tx: L.Tx, height: nat) returns (undo: L.TxUndo)
    requires view.Valid() && L.ValidUtxo(view.Flat())
    requires L.HaveInputs(view.Flat(), tx) && L.DistinctOutPoints(tx.vin)
    modifies view.Layers
    ensures tx.IsCoinBase() ==> undo == [] && view.Flat() == L.Put(old(view.Flat()), tx.txid, L.CoinsOf(tx, height))
    ensures !tx.IsCoinBase() ==>
              && L.SpendInputs(old(view.Flat()), tx.vin).Some?
              && undo == L.SpendInputs(old(view.Flat()), tx.vin).value.undo
              && view.Flat() == L.Put(L.SpendInputs(old(view.Flat()), tx.vin).value.utxo, tx.txid,
                                      L.CoinsOf(tx, height))
    ensures view.Best() == old(view.Best()) && view.BaseUnchanged() && view.tip == old(view.tip)
  {
    undo := [];
    if !tx.IsCoinBase() {
      undo := SpendAll(view, tx.vin);
    }
    view.SetCoins(tx.txid, L.CoinsOf(tx, height));
  }

  method SpendAll(view: CoinsViewCache, vin: seq<OutPoint>) returns (undo: L.TxUndo)
    requires view.Valid() && L.ValidUtxo(view.Flat()) && L.DistinctOutPoints(vin)
    requires forall i :: 0 <= i < |vin| ==> L.Unspent(view.Flat(), vin[i])
    modifies view.Layers
    ensures L.SpendInputs(old(view.Flat()), vin) == Some(L.Spent(view.Flat(), undo))
    ensures view.Best() == old(view.Best()) && view.BaseUnchanged() && view.tip == old(view.tip)
  {
    undo := [];
    ghost var u := view.Flat();
    for i := 0 to |vin|
      invariant view.Best() == old(view.Best()) && view.BaseUnchanged() && view.tip == old(view.tip)
      invariant L.SpendInputs(u, vin[..i]) == Some(L.Spent(view.Flat(), undo))
    {
      NextInputSpendable(u, vin, i);
      var r := SpendOne(view, vin[i]);
      undo := undo + [r];
      assert vin[..i + 1][..i] == vin[..i];
    }
    assert vin[..|vin|] == vin;
  }

  lemma NextInputSpendable(u: L.Utxo, vin: seq<OutPoint>, i: nat)
    requires L.ValidUtxo(u) && L.DistinctOutPoints(vin) && i < |vin|
    requires forall j :: 0 <= j < |vin| ==> L.Unspent(u, vin[j])
    requires L.SpendInputs(u, vin[..i]).Some?
    ensures L.Unspent(L.SpendInputs(u, vin[..i]).value.utxo, vin[i])
  {
    SpendInputsEffect(u, vin[..i]);
    assert vin[i] !in vin[..i];
  }

  method SpendOne(view: CoinsViewCache, op: OutPoint) returns (undo: TxInUndo)
    requires view.Valid() && L.Unspent(view.Flat(), op)
    modifies view.Layers
    ensures var r := Spend(old(view.Flat())[op.hash], op.n);
            && r.Some? && undo == r.value.undo
            && view.Flat() == L.Put(old(view.Flat()), op.hash, r.value.coins)
    ensures view.Best() == old(view.Best()) && view.BaseUnchanged() && view.tip == old(view.tip)
  {
    var found := view.GetCoins(op.hash);
    var r := SpendInPlace(found.value, op.n);
    view.SetCoins(op.hash, r.value.coins);
    undo := r.value.undo;
  }

  // ----- connecting -----

  /** What the checks outside this model (size, proof of work, time, Merkle root) said about a block. */
  datatype Verdict = Good | Bad | Broken

  /** The loop variables of ConnectBlock besides the view. */
  datatype Tally = Tally(undo: seq<L.TxUndo>, fees: int, sigOps: nat, checks: seq<bool>)

  ghost function ProgressOf(u: L.Utxo, t: Tally): L.Progress
  {
    L.Progress(u, t.undo, t.fees, t.sigOps, All(t.checks))
  }

  lemma AllConcat(a: seq<bool>, b: seq<bool>)
    ensures All(a + b) <==> All(a) && All(b)
  {
    if All(a + b) {
      assert forall i :: 0 <= i < |a| ==> a[i] == (a + b)[i];
      assert forall i :: 0 <= i < |b| ==> b[i] == (a + b)[|a| + i];
    }
  }

  /** All checks of a transaction with inputs; nothing is changed yet. */
  method CheckSpender(view: CoinsViewCache, tx: L.Tx, rules: L.Rules, height: nat, threads: bool, legacy: nat)
    returns (ok: bool, sigOps: nat, fee: int, checks: seq<bool>)
    requires view.Valid() && !tx.IsCoinBase()
    modifies view.Layers
    ensures OnlyRead(view)
    ensures var u := view.Flat();
            ok <==> && L.HaveInputs(u, tx)
                    && legacy + (if rules.strictP2SH then L.SumP2SH(rules, u, tx, |tx.vin|)
                                 else 0) <= L.MAX_BLOCK_SIGOPS
                    && L.CheckAmounts(u, tx, height)
                    && (threads || L.ScriptsOk(rules, u, tx))
    ensures var u := view.Flat();
            ok ==> && sigOps == legacy + (if rules.strictP2SH then L.SumP2SH(rules, u, tx, |tx.vin|) else 0)
                   && fee == L.ValueIn(u, tx) - L.ValueOut(tx)
                   && (All(checks) <==> L.ScriptsOk(rules, u, tx))
    requires legacy <= L.MAX_BLOCK_SIGOPS
  {
    hide L.HaveInputs, L.SumP2SH, L.CheckAmounts, L.ScriptsOk, L.ValueIn, L.ValueOut, All;
    sigOps, fee, checks := legacy, 0, [];
    ok := HaveInputs(view, tx);
    if !ok { return; }
    if rules.strictP2SH {
      var p2sh := GetP2SHSigOpCount(view, tx, rules);
      sigOps := sigOps + p2sh;
    }
    ok := sigOps <= L.MAX_BLOCK_SIGOPS;
    if !ok { return; }
    var valueIn := GetValueIn(view, tx);
    fee := valueIn - L.ValueOut(tx);
    ok := CheckInputAmounts(view, tx, height);
    if !ok { return; }
    checks := ScriptChecks(view, tx, rules);
    if !threads {
      ok := RunChecks(checks);
    }
  }

  /** Checks that are not queued run at once, up to the first failure. */
  method RunChecks(checks: seq<bool>) returns (ok: bool)
    ensures ok == All(checks)
  {
    for i := 0 to |checks|
      invariant forall j :: 0 <= j < i ==> checks[j]
    {
      if !checks[i] { return false; }
    }
    ok := true;
  }

  /** The part of a round that concerns a transaction with inputs; None: the block is rejected here. */
  method ConnectSpender(
      view: CoinsViewCache, tx: L.Tx, rules: L.Rules, height: nat, threads: bool, t: Tally, legacy: nat)
    returns (r: Option<Tally>)
    requires view.Valid() && L.ValidUtxo(view.Flat()) && L.CheckTransaction(tx) && !tx.IsCoinBase()
    requires legacy == t.sigOps + rules.engine.legacySigOps(tx) <= L.MAX_BLOCK_SIGOPS
    modifies view.Layers
    ensures view.Best() == old(view.Best()) && view.BaseUnchanged()
    ensures r.Some? ==>
              L.ConnectTx(rules, ProgressOf(old(view.Flat()), t), tx, height) == Some(ProgressOf(view.Flat(), r.value))
    ensures r.None? ==> L.ConnectTx(rules, ProgressOf(old(view.Flat()), t), tx, height).None?
                        || !L.ScriptsOk(rules, old(view.Flat()), tx)
  {
    hide L.HaveInputs, L.SumP2SH, L.CheckAmounts, L.ScriptsOk, L.ValueIn, L.ValueOut, All, L.SpendInputs, L.Put;
    var ok, sigOps, fee, checks := CheckSpender(view, tx, rules, height, threads, legacy);
    if !ok { return None; }
    AllConcat(t.checks, checks);
    var undo := UpdateCoins(view, tx, height);
    r := Some(Tally(t.undo + [undo], t.fees + fee, sigOps, t.checks + checks));
  }

  /** One round of the loop of ConnectBlock; threads tells whether script checks are left to the queue. */
  method ConnectTx(view: CoinsViewCache, tx: L.Tx, rules: L.Rules, height: nat, threads: bool, t: Tally)
    returns (r: Option<Tally>)
    requires view.Valid() && L.ValidUtxo(view.Flat()) && L.CheckTransaction(tx)
    modifies view.Layers
    ensures view.Best() == old(view.Best()) && view.BaseUnchanged()
    ensures r.Some? ==>
              L.ConnectTx(rules, ProgressOf(old(view.Flat()), t), tx, height) == Some(ProgressOf(view.Flat(), r.value))
    ensures r.None? ==> L.ConnectTx(rules, ProgressOf(old(view.Flat()), t), tx, height).None?
                        || !L.ConnectTx(rules, ProgressOf(old(view.Flat()), t), tx, height).value.scriptsOk
  {
    var legacy := t.sigOps + rules.engine.legacySigOps(tx);
    if legacy > L.MAX_BLOCK_SIGOPS { return None; }
    if tx.IsCoinBase() {
      var _ := UpdateCoins(view, tx, height);
      r := Some(t.(sigOps := legacy));
    } else {
      r := ConnectSpender(view, tx, rules, height, threads, t, legacy);
    }
  }

  /** A failed script check, once recorded, rejects the block whatever follows. */
  lemma {:induction false} FailedScriptsReject(rules: L.Rules, u: L.Utxo, vtx: seq<L.Tx>, height: nat, k: nat)
    requires k <= |vtx|
    requires var p := L.ConnectTxs(rules, u, vtx[..k], height); p.None? || !p.value.scriptsOk
    ensures var p := L.ConnectTxs(rules, u, vtx, height); p.None? || !p.value.scriptsOk
  {
    hide L.ConnectTx;
    if k < |vtx| {
      var n := |vtx| - 1;
      assert vtx[..n][..k] == vtx[..k];
      FailedScriptsReject(rules, u, vtx[..n], height, k);
      var p := L.ConnectTxs(rules, u, vtx[..n], height);
      if p.Some? {
        FailureStays(rules, p.value, vtx[n], height);
      }
    } else {
      assert vtx[..k] == vtx;
    }
  }

  lemma FailureStays(rules: L.Rules, p: L.Progress, tx: L.Tx, height: nat)
    requires !p.scriptsOk
    ensures var q := L.ConnectTx(rules, p, tx, height); q.None? || !q.value.scriptsOk
  {
    hide L.HaveInputs, L.CheckAmounts, L.SumP2SH, L.SpendInputs, L.ScriptsOk, L.ValueIn, L.Put;
  }

  /** The transaction loop of ConnectBlock. */
  method ConnectTxs(view: CoinsViewCache, vtx: seq<L.Tx>, rules: L.Rules, height: nat, threads: bool)
    returns (r: Option<Tally>)
    requires view.Valid() && L.ValidUtxo(view.Flat()) && height > 0 && BlockPrefix(vtx)
    modifies view.Layers
    ensures view.Best() == old(view.Best()) && view.BaseUnchanged()
    ensures r.Some? ==> L.ConnectTxs(rules, old(view.Flat()), vtx, height) == Some(ProgressOf(view.Flat(), r.value))
    ensures r.None? ==> var p := L.ConnectTxs(rules, old(view.Flat()), vtx, height); p.None? || !p.value.scriptsOk
  {
    hide L.ConnectTx;
    ghost var u := view.Flat();
    var t := Tally([], 0, 0, []);
    for i := 0 to |vtx|
      invariant view.Best() == old(view.Best()) && view.BaseUnchanged()
      invariant L.ValidUtxo(view.Flat())
      invariant L.ConnectTxs(rules, u, vtx[..i], height) == Some(ProgressOf(view.Flat(), t))
    {
      assert vtx[..i + 1][..i] == vtx[..i];
      var next := ConnectTx(view, vtx[i], rules, height, threads, t);
      if next.None? {
        FailedScriptsReject(rules, u, vtx, height, i + 1);
        return None;
      }
      t := next.value;
      ConnectTxsEffect(rules, u, vtx[..i + 1], height);
    }
    assert vtx[..|vtx|] == vtx;
    r := Some(t);
  }

  /** The BIP 30 test: does any transaction have an unspent namesake? */
  method OverwritesNothing(view: CoinsViewCache, block: L.Block) returns (r: bool)
    requires view.Valid()
    modifies view.Layers
    ensures r == L.NoOverwrite(view.Flat(), block)
    ensures OnlyRead(view)
  {
    for i := 0 to |block.vtx|
      invariant OnlyRead(view)
      invariant forall j :: 0 <= j < i ==> block.vtx[j].txid !in view.Flat()
    {
      var have := view.HaveCoins(block.vtx[i].txid);
      if have && !view.cacheCoins[block.vtx[i].txid].IsPruned() {
        return false;
      }
    }
    r := true;
  }

  /**
   What a successful connection does to the set, and the undo data it makes, which are stored unless some are there
   already.
   */
  ghost predicate ConnectsTo(u: L.Utxo, pindex: BlockIndex, u': L.Utxo, undo: seq<L.TxUndo>)
  {
    && HeightInRange(pindex.height)
    && L.CheckBlock(pindex.link.block)
    && var c := L.ConnectBlock(pindex.link.rules, u, pindex.link.block, pindex.height);
       c.Some? && c.value.utxo == u' && c.value.undo == undo
  }

  ghost predicate Connects(u: L.Utxo, pindex: BlockIndex)
    requires HeightInRange(pindex.height)
  {
    L.CheckBlock(pindex.link.block) && L.ConnectBlock(pindex.link.rules, u, pindex.link.block, pindex.height).Some?
  }

  /** Who decides: first the checks outside the model, then the rules, and last the disk. */
  ghost function Decision(u: L.Utxo, pindex: BlockIndex, verdict: Verdict, undoOk: bool, indexOk: bool): Verdict
    requires HeightInRange(pindex.height)
    reads pindex`undo
  {
    if verdict != Good then verdict
    else if pindex.pprev == null then if L.CheckBlock(pindex.link.block) then Good else Bad
    else if !Connects(u, pindex) then Bad
    else if (pindex.undo.None? && !undoOk) || !indexOk then Broken
    else Good
  }

  /**
   ConnectBlock.  verdict is what the checks outside the model said, undoOk and indexOk what the disk says when undo
   data and block index entry are written.  Bad marks a violated rule, Broken a run-time error.
   */
  method ConnectBlock(
      view: CoinsViewCache, pindex: BlockIndex, verdict: Verdict, threads: bool, undoOk: bool, indexOk: bool)
    returns (r: Verdict)
    requires view.Valid() && L.ValidUtxo(view.Flat())
    requires view.Best() == pindex.pprev && HeightInRange(pindex.height)
    requires pindex.pprev != null ==> pindex.height > 0
    modifies view.Layers, pindex`undo
    ensures view.BaseUnchanged()
    ensures r.Good? ==> view.tip == pindex
    ensures r.Good? && pindex.pprev == null ==> view.Flat() == old(view.Flat())
    ensures r.Good? && pindex.pprev != null ==>
              && pindex.undo.Some?
              && exists undo :: ConnectsTo(old(view.Flat()), pindex, view.Flat(), undo)
    ensures pindex.undo == old(pindex.undo)
            || (old(pindex.undo) == None && pindex.pprev != null && pindex.undo.Some?
                && exists u', undo ::
                     ConnectsTo(old(view.Flat()), pindex, u', undo) && pindex.undo.value == StoredUndos(undo))
    ensures r == old(Decision(view.Flat(), pindex, verdict, undoOk, indexOk))
    ensures pindex.undo != old(pindex.undo) ==> undoOk
  {
    var block, rules := pindex.link.block, pindex.link.rules;
    if verdict != Good { return verdict; }
    if !L.CheckBlock(block) { return Bad; }
    if pindex.pprev == null {
      view.SetBestBlock(pindex);
      return Good;
    }
    var applied := ApplyBlock(view, block, rules, pindex.height, threads);
    if applied.None? { return Bad; }
    assert ConnectsTo(old(view.Flat()), pindex, view.Flat(), applied.value);
    if pindex.undo.None? {
      if !undoOk { return Broken; }
      pindex.undo := Some(StoredUndos(applied.value));
    }
    if !indexOk { return Broken; }
    view.SetBestBlock(pindex);
    r := Good;
  }

  /** The part of ConnectBlock between the block checks and the writing of undo data; None: a rule is violated. */
  method ApplyBlock(view: CoinsViewCache, block: L.Block, rules: L.Rules, height: nat, threads: bool)
    returns (r: Option<seq<L.TxUndo>>)
    requires view.Valid() && L.ValidUtxo(view.Flat()) && height > 0 && HeightInRange(height) && L.CheckBlock(block)
    modifies view.Layers
    ensures view.BaseUnchanged()
    ensures var c := L.ConnectBlock(rules, old(view.Flat()), block, height);
            if r.None? then c.None? else c.Some? && c.value.utxo == view.Flat() && c.value.undo == r.value
  {
    hide L.ConnectTxs, L.NoOverwrite;
    if rules.enforceBip30 {
      var allowed := OverwritesNothing(view, block);
      if !allowed { return None; }
    }
    var t := ConnectTxs(view, block.vtx, rules, height, threads);
    if t.None? { return None; }
    if L.ValueOut(block.vtx[0]) > L.BlockValue(height, t.value.fees) { return None; }
    // the check queue answers with the conjunction of everything added to it
    var scripts := RunChecks(t.value.checks);
    if !scripts { return None; }
    r := Some(t.value.undo);
  }

  // ----- disconnecting -----

  /** An entry found in the view and the entry of the flat set are restored alike, as long as all is clean. */
  lemma RestoreFound(found: Coins, flat: Coins, n: nat, undo: TxInUndo)
    requires found == flat || (found.IsPruned() && flat.IsPruned())
    ensures Restore(found, n, undo).clean == Restore(flat, n, undo).clean
    ensures Restore(found, n, undo).clean ==> Restore(found, n, undo) == Restore(flat, n, undo)
  {
  }

  // ----- what stays in the cache -----

  /** Cached entries stay as they are, but for some. */
  ghost predicate CacheKept(before: map<Txid, Coins>, after: map<Txid, Coins>, touched: set<Txid>)
  {
    forall t :: t in before && t !in touched ==> t in after && after[t] == before[t]
  }

  ghost function HashesOf(vin: seq<OutPoint>): set<Txid> { set n | 0 <= n < |vin| :: vin[n].hash }

  /** The k-th transaction, or one between the i-th and it, spends from the id of the k-th. */
  ghost predicate SpendsFromId(vtx: seq<L.Tx>, i: nat, k: nat)
    requires k < |vtx|
  {
    exists j :: i <= j <= k && j > 0 && vtx[k].txid in HashesOf(vtx[j].vin)
  }

  /** For each transaction from the i-th on there is a pruned entry, unless a restored input came after it. */
  ghost predicate LeavesPruned(cache: map<Txid, Coins>, vtx: seq<L.Tx>, i: nat)
  {
    forall k :: i <= k < |vtx| && !SpendsFromId(vtx, i, k) ==> vtx[k].txid in cache && cache[vtx[k].txid] == NO_COINS
  }

  lemma NothingPruned(cache: map<Txid, Coins>, vtx: seq<L.Tx>)
    ensures LeavesPruned(cache, vtx, |vtx|)
  {
  }

  lemma NothingTouched(cache: map<Txid, Coins>)
    ensures CacheKept(cache, cache, {})
  {
  }

  lemma PrunedNext(
      vtx: seq<L.Tx>, i: nat, cache: map<Txid, Coins>, removed: map<Txid, Coins>, restored: map<Txid, Coins>)
    requires i < |vtx| && LeavesPruned(cache, vtx, i + 1)
    requires CacheKept(cache, removed, {vtx[i].txid}) && vtx[i].txid in removed && removed[vtx[i].txid] == NO_COINS
    requires CacheKept(removed, restored, if i > 0 then HashesOf(vtx[i].vin) else {})
    ensures LeavesPruned(restored, vtx, i)
  {
    forall k | i <= k < |vtx| && !SpendsFromId(vtx, i, k)
      ensures vtx[k].txid in restored && restored[vtx[k].txid] == NO_COINS
    {
      assert i > 0 ==> vtx[k].txid !in HashesOf(vtx[i].vin);
      assert k > i ==> !SpendsFromId(vtx, i + 1, k);
    }
  }

  /** One input of the restoring loop. */
  method RestoreOne(view: CoinsViewCache, op: OutPoint, undo: TxInUndo) returns (clean: bool)
    requires view.Valid()
    modifies view.Layers
    ensures view.Best() == old(view.Best()) && view.BaseUnchanged()
    ensures var r := Restore(L.Get(old(view.Flat()), op.hash), op.n, undo);
            clean == r.clean && (clean ==> view.Flat() == L.Put(old(view.Flat()), op.hash, r.coins))
    ensures CacheKept(old(view.cacheCoins), view.cacheCoins, {op.hash})
  {
    ghost var u := view.Flat();
    var found := view.GetCoins(op.hash);
    var coins := if found.Some? then found.value else NO_COINS;
    RestoreFound(coins, L.Get(u, op.hash), op.n, undo);
    clean := true;
    if undo.height != 0 {
      if !coins.IsPruned() { clean := false; }
      coins := Coins(undo.coinBase, [], undo.height, undo.version);
    } else if coins.IsPruned() {
      clean := false;
    }
    if coins.IsAvailable(op.n) { clean := false; }
    coins := coins.(vout := Grow(coins.vout, op.n + 1));
    coins := coins.(vout := coins.vout[op.n := undo.txout]);
    view.SetCoins(op.hash, coins);
  }

  /** The restoring loop over the inputs of one transaction, last one first. */
  method RestoreInputs(view: CoinsViewCache, vin: seq<OutPoint>, undo: L.TxUndo) returns (clean: bool)
    requires view.Valid() && |vin| == |undo|
    modifies view.Layers
    ensures view.Best() == old(view.Best()) && view.BaseUnchanged()
    ensures var r := L.RestoreInputs(old(view.Flat()), vin, undo);
            clean == r.clean && (clean ==> view.Flat() == r.utxo)
    ensures CacheKept(old(view.cacheCoins), view.cacheCoins, HashesOf(vin))
  {
    hide Restore;
    ghost var goal := L.RestoreInputs(view.Flat(), vin, undo);
    clean := true;
    assert vin[..|vin|] == vin && undo[..|vin|] == undo;
    for j := |vin| downto 0
      invariant view.Best() == old(view.Best()) && view.BaseUnchanged()
      invariant clean ==> L.RestoreInputs(view.Flat(), vin[..j], undo[..j]) == goal
      invariant !clean ==> !goal.clean
      invariant CacheKept(old(view.cacheCoins), view.cacheCoins, HashesOf(vin))
    {
      assert vin[..j + 1][..j] == vin[..j] && undo[..j + 1][..j] == undo[..j];
      var one := RestoreOne(view, vin[j], undo[j]);
      clean := clean && one;
    }
  }

  /** Take the outputs of one transaction out of the view. */
  method RemoveOutputs(view: CoinsViewCache, tx: L.Tx, height: nat) returns (clean: bool)
    requires view.Valid() && L.CheckTransaction(tx)
    modifies view.Layers
    ensures view.Best() == old(view.Best()) && view.BaseUnchanged()
    ensures L.RemoveOutputs(old(view.Flat()), tx, height) == L.Undone(view.Flat(), clean)
    ensures CacheKept(old(view.cacheCoins), view.cacheCoins, {tx.txid})
    ensures tx.txid in view.cacheCoins && view.cacheCoins[tx.txid] == NO_COINS
  {
    ghost var u := view.Flat();
    clean := true;
    var have := view.HaveCoins(tx.txid);
    if !have {
      clean := false;
      view.SetCoins(tx.txid, NO_COINS);
      assert view.Flat() == u;
    }
    var outs := view.cacheCoins[tx.txid];
    CoinsOfWellFormed(tx, height);
    if outs != L.CoinsOf(tx, height) { clean := false; }
    view.SetCoins(tx.txid, NO_COINS);
  }

  /** The loop of DisconnectBlock over the transactions, last one first; None when block and undo data disagree. */
  method DisconnectTxs(view: CoinsViewCache, vtx: seq<L.Tx>, height: nat, undo: seq<L.TxUndo>)
    returns (r: Option<bool>)
    requires view.Valid() && |undo| + 1 == |vtx|
    requires forall i :: 0 <= i < |vtx| ==> L.CheckTransaction(vtx[i])
    modifies view.Layers
    ensures view.BaseUnchanged()
    ensures r == Some(true) <==>
              L.DisconnectTxs(old(view.Flat()), vtx, height, undo) == Some(L.Undone(view.Flat(), true))
    ensures r == Some(true) ||
            (forall u' :: L.DisconnectTxs(old(view.Flat()), vtx, height, undo) != Some(L.Undone(u', true)))
    ensures r.Some? ==> LeavesPruned(view.cacheCoins, vtx, 0)
  {
    hide L.RemoveOutputs, L.RestoreInputs, L.CheckTransaction, LeavesPruned, CacheKept, HashesOf;
    NothingPruned(view.cacheCoins, vtx);
    ghost var goal := L.DisconnectTxs(view.Flat(), vtx, height, undo);
    var clean := true;
    assert vtx[..|vtx|] == vtx && undo[..|vtx| - 1] == undo;
    for i := |vtx| downto 0
      invariant view.BaseUnchanged()
      invariant clean && i > 0 ==> L.DisconnectTxs(view.Flat(), vtx[..i], height, undo[..i - 1]) == goal
      invariant clean && i == 0 ==> Some(L.Undone(view.Flat(), true)) == goal
      invariant !clean ==> goal.None? || !goal.value.clean
      invariant LeavesPruned(view.cacheCoins, vtx, i)
    {
      assert vtx[..i + 1][..i] == vtx[..i];
      assert i > 0 ==> undo[..i][..i - 1] == undo[..i - 1];
      ghost var before := view.cacheCoins;
      var removed := RemoveOutputs(view, vtx[i], height);
      ghost var between := view.cacheCoins;
      clean := clean && removed;
      if i > 0 {
        if |undo[i - 1]| != |vtx[i].vin| { return None; }
        var restored := RestoreInputs(view, vtx[i].vin, undo[i - 1]);
        clean := clean && restored;
      }
      NothingTouched(between);
      PrunedNext(vtx, i, before, between, view.cacheCoins);
    }
    r := Some(clean);
  }

  datatype DisconnectResult = Failed | Done(clean: bool)

  /**
   DisconnectBlock; readOk is what the disk and the checksum say about the undo data.  For the transactions of the
   block, pruned entries stay in the cache.
   */
  method DisconnectBlock(view: CoinsViewCache, pindex: BlockIndex, readOk: bool) returns (r: DisconnectResult)
    requires view.Valid() && view.Best() == pindex && pindex.pprev != null && L.CheckBlock(pindex.link.block)
    modifies view.Layers
    ensures view.BaseUnchanged()
    ensures pindex.undo.None? || !readOk ==> r == Failed
    ensures pindex.undo.Some? && readOk ==>
              (r == Done(true) <==> exists u' :: L.DisconnectBlock(old(view.Flat()), pindex.link.block, pindex.height,
                                                                   pindex.undo.value) == Some(L.Undone(u', true)))
    ensures r == Done(true) ==>
              && view.tip == pindex.pprev && LeavesPruned(view.cacheCoins, pindex.link.block.vtx, 0)
              && L.DisconnectBlock(old(view.Flat()), pindex.link.block, pindex.height, pindex.undo.value)
                   == Some(L.Undone(view.Flat(), true))
  {
    hide L.DisconnectTxs;
    if pindex.undo.None? || !readOk { return Failed; }
    var block, undo := pindex.link.block, pindex.undo.value;
    if |undo| + 1 != |block.vtx| { return Failed; }
    var clean := DisconnectTxs(view, block.vtx, pindex.height, undo);
    if clean.None? { return Failed; }
    view.SetBestBlock(pindex.pprev);
    r := Done(clean.value);
  }
}
