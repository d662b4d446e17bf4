/**
 Why a block template connects: transactions that connect one after the other from the current set still do so behind a
 coinbase (src/main.cpp:4592-4772 against 1790-1866).
 */
module Template {
  import opened Coins
  import opened Ledger
  import LI = LedgerInverse
  import Supply

  /**
   Whatever the rules for connecting say, the template builder counts all signature operations and checks all scripts.
   */
  function Miner(rules: Rules): Rules { rules.(strictP2SH := true, scriptChecks := true) }

  // ----- one more entry that no input refers to -----

  ghost predicate Elsewhere(vin: seq<OutPoint>, t: Txid)
  {
    forall i :: 0 <= i < |vin| ==> vin[i].hash != t
  }

  lemma {:induction false} SpendElsewhere(u: Utxo, vin: seq<OutPoint>, t: Txid, c: Coins)
    requires Elsewhere(vin, t) && SpendInputs(u, vin).Some?
    ensures var s := SpendInputs(u, vin).value;
            SpendInputs(u[t := c], vin) == Some(Spent(s.utxo[t := c], s.undo))
  {
    if vin != [] {
      var last := vin[|vin| - 1];
      SpendElsewhere(u, vin[..|vin| - 1], t, c);
      var s := SpendInputs(u, vin[..|vin| - 1]).value;
      assert last.hash != t;
      PutElsewhere(s.utxo, last.hash, Spend(Get(s.utxo, last.hash), last.n).value.coins, t, c);
    }
  }

  lemma PutElsewhere(u: Utxo, k: Txid, v: Coins, t: Txid, c: Coins)
    requires k != t
    ensures Put(u[t := c], k, v) == Put(u, k, v)[t := c]
  {
  }

  lemma {:induction false} SigOpsElsewhere(rules: Rules, u: Utxo, tx: Tx, k: nat, t: Txid, c: Coins)
    requires Elsewhere(tx.vin, t) && k <= |tx.vin|
    ensures SumP2SH(rules, u[t := c], tx, k) == SumP2SH(rules, u, tx, k)
    ensures SumP2SH(Miner(rules), u, tx, k) == SumP2SH(rules, u, tx, k)
  {
    if k > 0 {
      SigOpsElsewhere(rules, u, tx, k - 1, t, c);
      assert tx.vin[k - 1].hash != t;
    }
  }

  lemma ChecksElsewhere(rules: Rules, u: Utxo, tx: Tx, height: nat, t: Txid, c: Coins)
    requires Elsewhere(tx.vin, t)
    ensures HaveInputs(u[t := c], tx) == HaveInputs(u, tx) && ValueIn(u[t := c], tx) == ValueIn(u, tx)
    ensures CheckAmounts(u[t := c], tx, height) == CheckAmounts(u, tx, height)
    ensures ScriptsOk(Miner(rules), u, tx) ==> ScriptsOk(rules, u[t := c], tx)
  {
    assert Agree(u[t := c], u, tx.vin);
    ChecksAgree(rules, u[t := c], u, tx, height);
  }

  /**
   Behind a coinbase whose signature operations fit, a transaction that the template takes connects with the same
   effect.
   */
  lemma ConnectTxBehind(rules: Rules, p: Progress, q: Progress, tx: Tx, height: nat, t: Txid, c: Coins)
    requires rules.strictP2SH && t !in p.utxo && q.utxo == p.utxo[t := c] && q.fees == p.fees && q.undo == p.undo
    requires tx.txid != t && !tx.IsCoinBase() && ConnectTx(Miner(rules), p, tx, height).Some?
    requires q.sigOps <= p.sigOps + 100 && ConnectTx(Miner(rules), p, tx, height).value.sigOps + 100 <= MAX_BLOCK_SIGOPS
    requires q.scriptsOk && ConnectTx(Miner(rules), p, tx, height).value.scriptsOk
    ensures ConnectTx(rules, q, tx, height).Some?
    ensures var p', q' := ConnectTx(Miner(rules), p, tx, height).value, ConnectTx(rules, q, tx, height).value;
            && q'.utxo == p'.utxo[t := c] && t !in p'.utxo && q'.fees == p'.fees && q'.undo == p'.undo
            && q'.scriptsOk && q'.sigOps <= p'.sigOps + 100
  {
    hide CheckAmounts, SumP2SH, ScriptsOk, ValueIn, ValueOut, SpendInputs, Put;
    InputsElsewhere(p.utxo, tx, t);
    SigOpsElsewhere(rules, p.utxo, tx, |tx.vin|, t, c);
    SpendElsewhere(p.utxo, tx.vin, t, c);
    var s := SpendInputs(p.utxo, tx.vin).value.utxo;
    PutElsewhere(s, tx.txid, CoinsOf(tx, height), t, c);
    ChecksElsewhere(rules, p.utxo, tx, height, t, c);
    StillAbsent(p.utxo, tx, height, t);
  }

  lemma InputsElsewhere(u: Utxo, tx: Tx, t: Txid)
    requires t !in u && !tx.IsCoinBase() && HaveInputs(u, tx)
    ensures Elsewhere(tx.vin, t)
  {
  }

  lemma StillAbsent(u: Utxo, tx: Tx, height: nat, t: Txid)
    requires t !in u && tx.txid != t && SpendInputs(u, tx.vin).Some?
    ensures t !in Put(SpendInputs(u, tx.vin).value.utxo, tx.txid, CoinsOf(tx, height))
  {
    SpendAddsNothing(u, tx.vin);
  }

  lemma {:induction false} SpendAddsNothing(u: Utxo, vin: seq<OutPoint>)
    requires SpendInputs(u, vin).Some?
    ensures SpendInputs(u, vin).value.utxo.Keys <= u.Keys
  {
    if vin != [] {
      SpendAddsNothing(u, vin[..|vin| - 1]);
    }
  }

  // ----- the whole template -----

  lemma ConnectTxGrows(rules: Rules, p: Progress, tx: Tx, height: nat)
    requires ConnectTx(rules, p, tx, height).Some?
    ensures var q := ConnectTx(rules, p, tx, height).value;
            p.sigOps <= q.sigOps && (q.scriptsOk ==> p.scriptsOk)
  {
  }

  /** Transactions that are no coinbase and have ids of their own. */
  ghost predicate Loose(txs: seq<Tx>, t: Txid)
  {
    forall i :: 0 <= i < |txs| ==> !txs[i].IsCoinBase() && txs[i].txid != t
  }

  lemma {:induction false} ConnectTxsBehind(rules: Rules, u: Utxo, coinbase: Tx, txs: seq<Tx>, height: nat)
    requires rules.strictP2SH && coinbase.IsCoinBase() && CheckTransaction(coinbase) && coinbase.txid !in u
    requires rules.engine.legacySigOps(coinbase) <= 100
    requires Loose(txs, coinbase.txid) && ConnectTxs(Miner(rules), u, txs, height).Some?
    requires var p := ConnectTxs(Miner(rules), u, txs, height).value; p.scriptsOk && p.sigOps + 100 <= MAX_BLOCK_SIGOPS
    ensures ConnectTxs(rules, u, [coinbase] + txs, height).Some?
    ensures var p, q := ConnectTxs(Miner(rules), u, txs, height).value,
            ConnectTxs(rules, u, [coinbase] + txs, height).value;
            && q.utxo == p.utxo[coinbase.txid := CoinsOf(coinbase, height)] && coinbase.txid !in p.utxo
            && q.fees == p.fees && q.undo == p.undo && q.scriptsOk && q.sigOps <= p.sigOps + 100
  {
    hide ConnectTx;
    if txs == [] {
      assert [coinbase] + txs == [coinbase];
      CoinbaseFirst(rules, u, coinbase, height);
    } else {
      var n := |txs| - 1;
      assert ([coinbase] + txs)[..n + 1] == [coinbase] + txs[..n];
      ConnectTxGrows(Miner(rules), ConnectTxs(Miner(rules), u, txs[..n], height).value, txs[n], height);
      ConnectTxsBehind(rules, u, coinbase, txs[..n], height);
      ConnectTxBehind(rules, ConnectTxs(Miner(rules), u, txs[..n], height).value,
                      ConnectTxs(rules, u, [coinbase] + txs[..n], height).value, txs[n], height,
                      coinbase.txid, CoinsOf(coinbase, height));
    }
  }

  lemma CoinbaseFirst(rules: Rules, u: Utxo, coinbase: Tx, height: nat)
    requires coinbase.IsCoinBase() && CheckTransaction(coinbase) && rules.engine.legacySigOps(coinbase) <= 100
    ensures ConnectTxs(rules, u, [coinbase], height) ==
      Some(Progress(u[coinbase.txid := CoinsOf(coinbase, height)], [], 0, rules.engine.legacySigOps(coinbase), true))
  {
    LI.CoinsOfWellFormed(coinbase, height);
    assert [coinbase][..0] == [];
  }

  /** What the selection loop guarantees of the transactions it took. */
  ghost predicate Selected(rules: Rules, u: Utxo, height: nat, txs: seq<Tx>, fees: int)
  {
    && (forall i :: 0 <= i < |txs| ==> CheckTransaction(txs[i]) && !txs[i].IsCoinBase() && txs[i].txid !in u)
    && (forall i, j :: 0 <= i < j < |txs| ==> txs[i].txid != txs[j].txid)
    && ConnectTxs(Miner(rules), u, txs, height).Some?
    && var p := ConnectTxs(Miner(rules), u, txs, height).value;
       p.scriptsOk && p.fees == fees && p.sigOps + 100 <= MAX_BLOCK_SIGOPS
  }

  /** Fees are paid out of what exists. */
  lemma {:induction false} FeesExist(rules: Rules, u: Utxo, txs: seq<Tx>, height: nat)
    requires ValidUtxo(u) && height > 0 && ConnectTxs(rules, u, txs, height).Some?
    requires forall i :: 0 <= i < |txs| ==> CheckTransaction(txs[i]) && !txs[i].IsCoinBase()
    ensures var p := ConnectTxs(rules, u, txs, height).value;
            ValidUtxo(p.utxo) && 0 <= p.fees && Supply.Total(p.utxo) + p.fees <= Supply.Total(u)
  {
    hide ConnectTx, ValidUtxo;
    if txs != [] {
      var n := |txs| - 1;
      FeesExist(rules, u, txs[..n], height);
      var p := ConnectTxs(rules, u, txs[..n], height).value;
      LI.ConnectTxEffect(rules, p, txs[n], height);
      Supply.ConnectTxTotal(rules, p, txs[n], height);
    }
  }

  const NULL_OUTPOINT := OutPoint(0, 0xFFFF_FFFF)

  /** A coinbase that pays the subsidy and the fees of the transactions behind it to one script. */
  function CoinbaseFor(txid: Txid, version: int, script: Script, height: nat, fees: int): Tx
    requires height / HALVING_INTERVAL < 64
  {
    Tx(txid, version, [NULL_OUTPOINT], [TxOut(BlockValue(height, fees), script)])
  }

  lemma CoinbasePasses(txid: Txid, version: int, script: Script, height: nat, fees: int)
    requires 0 < height && height / HALVING_INTERVAL < 64 && 0 <= fees <= Supply.Issued(height - 1)
    ensures var coinbase := CoinbaseFor(txid, version, script, height, fees);
            coinbase.IsCoinBase() && CheckTransaction(coinbase) && ValueOut(coinbase) == BlockValue(height, fees)
  {
    Supply.IssuedBelowMaxMoney(height);
    Supply.HalvingHalves(height / HALVING_INTERVAL);
    var coinbase := CoinbaseFor(txid, version, script, height, fees);
    assert coinbase.vout[..0] == [];
    assert SumValues(coinbase.vout) == SumValues(coinbase.vout[..0]) + coinbase.vout[0].value;
  }

  /**
   The final check of CreateNewBlock cannot fail: for every set that holds no more than was issued, any selection behind
   its coinbase passes the block checks and connects.
   */
  lemma TemplateConnects(rules: Rules, u: Utxo, height: nat, txs: seq<Tx>, fees: int, coinbase: Tx, script: Script)
    requires ValidUtxo(u) && 0 < height && height / HALVING_INTERVAL < 64
    requires Supply.Total(u) <= Supply.Issued(height - 1)
    requires rules.strictP2SH && Selected(rules, u, height, txs, fees)
    requires coinbase == CoinbaseFor(coinbase.txid, coinbase.version, script, height, fees)
    requires coinbase.txid !in u && rules.engine.legacySigOps(coinbase) <= 100
    requires forall i :: 0 <= i < |txs| ==> txs[i].txid != coinbase.txid
    ensures CheckBlock(Block([coinbase] + txs))
    ensures ConnectBlock(rules, u, Block([coinbase] + txs), height).Some?
    ensures ConnectBlock(rules, u, Block([coinbase] + txs), height).value.fees == fees
  {
    hide ConnectTxs, CheckTransaction, ValidUtxo;
    var block := Block([coinbase] + txs);
    FeesExist(Miner(rules), u, txs, height);
    Supply.TotalNotNegative(ConnectTxs(Miner(rules), u, txs, height).value.utxo);
    CoinbasePasses(coinbase.txid, coinbase.version, script, height, fees);
    ConnectTxsBehind(rules, u, coinbase, txs, height);
    assert forall i :: 0 < i < |block.vtx| ==> block.vtx[i] == txs[i - 1];
  }
}
