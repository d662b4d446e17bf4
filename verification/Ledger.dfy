/**
 The flat unspent-output set and the effect of connecting and disconnecting a block on it
 (src/main.cpp, UpdateCoins, CheckInputs, ConnectBlock and DisconnectBlock).

 An absent transaction id and a fully spent entry mean the same, so the flat set holds only entries with an
 unspent output.  The functions here are the specification of the methods in BlockConnection.
 */
module Ledger {
  import opened Arith
  import opened Coins

  type Utxo = map<Txid, Coins>

  datatype Tx = Tx(txid: Txid, version: int, vin: seq<OutPoint>, vout: seq<TxOut>)
  {
    predicate IsCoinBase() { |vin| == 1 && vin[0].IsNull() }
  }

  datatype Block = Block(vtx: seq<Tx>)

  type TxUndo = seq<TxInUndo>

  const COIN: int := 100_000_000
  const MAX_MONEY: int := 42_000_000 * COIN
  const COINBASE_MATURITY := 100
  const MAX_BLOCK_SIGOPS := 20_000
  const HALVING_INTERVAL := 1_050_000

  predicate MoneyRange(v: int) { 0 <= v <= MAX_MONEY }

  /** The script interpreter, left arbitrary. */
  datatype ScriptEngine = ScriptEngine(
    verify: (Tx, nat, TxOut) -> bool,
    legacySigOps: Tx -> nat,
    p2shSigOps: (Tx, nat, TxOut) -> nat)

  /** What ConnectBlock derives from the block index entry before it starts. */
  datatype Rules = Rules(engine: ScriptEngine, strictP2SH: bool, scriptChecks: bool, enforceBip30: bool)

  // ----- amounts -----

  function SumValues(vout: seq<TxOut>): int
  {
    if vout == [] then 0 else SumValues(vout[..|vout| - 1]) + vout[|vout| - 1].value
  }

  function ValueOut(tx: Tx): int { SumValues(tx.vout) }

  /** 20 coins shifted right once per halving interval; a shift by 64 or more is undefined in the original. */
  function Subsidy(height: nat): int
    requires height / HALVING_INTERVAL < 64
  {
    20 * COIN / Pow(2, height / HALVING_INTERVAL)
  }

  function BlockValue(height: nat, fees: int): int
    requires height / HALVING_INTERVAL < 64
  {
    Subsidy(height) + fees
  }

  // ----- context-free checks -----

  predicate DistinctOutPoints(vin: seq<OutPoint>)
  {
    forall i, j :: 0 <= i < j < |vin| ==> vin[i] != vin[j]
  }

  predicate CheckTransaction(tx: Tx)
  {
    && tx.vin != [] && tx.vout != []
    && (forall i :: 0 <= i < |tx.vout| ==> MoneyRange(tx.vout[i].value))
    && MoneyRange(ValueOut(tx))
    && DistinctOutPoints(tx.vin)
    && (!tx.IsCoinBase() ==> forall i :: 0 <= i < |tx.vin| ==> !tx.vin[i].IsNull())
  }

  /** The part of CheckBlock that concerns the transactions. */
  predicate CheckBlock(block: Block)
  {
    && block.vtx != []
    && block.vtx[0].IsCoinBase()
    && (forall i :: 0 < i < |block.vtx| ==> !block.vtx[i].IsCoinBase())
    && (forall i :: 0 <= i < |block.vtx| ==> CheckTransaction(block.vtx[i]))
    && (forall i, j :: 0 <= i < j < |block.vtx| ==> block.vtx[i].txid != block.vtx[j].txid)
  }

  // ----- the flat set -----

  /** Every entry has an unspent output, is trimmed, and was created above the genesis block. */
  ghost predicate ValidUtxo(u: Utxo)
  {
    forall t :: t in u ==> u[t].WellFormed() && !u[t].IsPruned() && u[t].height > 0
  }

  function Get(u: Utxo, t: Txid): Coins { if t in u then u[t] else NO_COINS }

  function Put(u: Utxo, t: Txid, c: Coins): Utxo
  {
    if c.IsPruned() then u - {t} else u[t := c]
  }

  predicate Unspent(u: Utxo, op: OutPoint) { op.hash in u && u[op.hash].IsAvailable(op.n) }

  function OutputAt(u: Utxo, op: OutPoint): TxOut
  {
    if Unspent(u, op) then u[op.hash].vout[op.n] else TxOut(0, [])
  }

  function CoinsOf(tx: Tx, height: nat): Coins
  {
    Coins(tx.IsCoinBase(), tx.vout, height, tx.version)
  }

  // ----- spending the inputs of one transaction -----

  datatype Spent = Spent(utxo: Utxo, undo: TxUndo)

  predicate HaveInputs(u: Utxo, tx: Tx)
  {
    tx.IsCoinBase() || forall i :: 0 <= i < |tx.vin| ==> Unspent(u, tx.vin[i])
  }

  function SpendInputs(u: Utxo, vin: seq<OutPoint>): Option<Spent>
  {
    if vin == [] then Some(Spent(u, []))
    else
      var last := vin[|vin| - 1];
      match SpendInputs(u, vin[..|vin| - 1])
      case None => None
      case Some(s) =>
        match Spend(Get(s.utxo, last.hash), last.n)
        case None => None
        case Some(r) => Some(Spent(Put(s.utxo, last.hash, r.coins), s.undo + [r.undo]))
  }

  function SumInputs(u: Utxo, vin: seq<OutPoint>): int
  {
    if vin == [] then 0 else SumInputs(u, vin[..|vin| - 1]) + OutputAt(u, vin[|vin| - 1]).value
  }

  function ValueIn(u: Utxo, tx: Tx): int
  {
    if tx.IsCoinBase() then 0 else SumInputs(u, tx.vin)
  }

  function SumP2SH(rules: Rules, u: Utxo, tx: Tx, k: nat): nat
    requires k <= |tx.vin|
  {
    if k == 0 then 0
    else SumP2SH(rules, u, tx, k - 1) + rules.engine.p2shSigOps(tx, k - 1, OutputAt(u, tx.vin[k - 1]))
  }

  predicate ScriptsOk(rules: Rules, u: Utxo, tx: Tx)
  {
    rules.scriptChecks ==>
      forall i :: 0 <= i < |tx.vin| ==> rules.engine.verify(tx, i, OutputAt(u, tx.vin[i]))
  }

  /** Every input is mature and in range, and so is every partial sum of the input values. */
  predicate InputsInOrder(u: Utxo, vin: seq<OutPoint>, height: nat)
  {
    vin == [] ||
    var last := vin[|vin| - 1];
    && InputsInOrder(u, vin[..|vin| - 1], height)
    && MatureAt(Get(u, last.hash), height)
    && MoneyRange(OutputAt(u, last).value)
    && MoneyRange(SumInputs(u, vin))
  }

  /** The inexpensive half of CheckInputs for a transaction that is not a coinbase. */
  predicate CheckAmounts(u: Utxo, tx: Tx, height: nat)
  {
    && HaveInputs(u, tx)
    && InputsInOrder(u, tx.vin, height)
    && ValueIn(u, tx) >= ValueOut(tx)
    && MoneyRange(ValueIn(u, tx) - ValueOut(tx))
  }

  predicate MatureAt(c: Coins, height: nat)
  {
    c.coinBase ==> height - c.height >= COINBASE_MATURITY
  }

  // ----- sets that agree on the inputs -----

  ghost predicate Agree(u: Utxo, v: Utxo, vin: seq<OutPoint>)
  {
    forall i :: 0 <= i < |vin| ==>
        (vin[i].hash in u <==> vin[i].hash in v) && Get(u, vin[i].hash) == Get(v, vin[i].hash)
  }

  lemma {:induction false} SumInputsAgree(u: Utxo, v: Utxo, vin: seq<OutPoint>)
    requires Agree(u, v, vin)
    ensures SumInputs(u, vin) == SumInputs(v, vin)
  {
    if vin != [] {
      SumInputsAgree(u, v, vin[..|vin| - 1]);
      assert OutputAt(u, vin[|vin| - 1]) == OutputAt(v, vin[|vin| - 1]);
    }
  }

  lemma {:induction false} InOrderAgree(u: Utxo, v: Utxo, vin: seq<OutPoint>, height: nat)
    requires Agree(u, v, vin)
    ensures InputsInOrder(u, vin, height) == InputsInOrder(v, vin, height)
  {
    if vin != [] {
      InOrderAgree(u, v, vin[..|vin| - 1], height);
      SumInputsAgree(u, v, vin);
      assert OutputAt(u, vin[|vin| - 1]) == OutputAt(v, vin[|vin| - 1]);
    }
  }

  /** What a transaction meets when it is checked depends only on the entries that its inputs refer to. */
  lemma ChecksAgree(rules: Rules, u: Utxo, v: Utxo, tx: Tx, height: nat)
    requires Agree(u, v, tx.vin)
    ensures HaveInputs(u, tx) == HaveInputs(v, tx) && ValueIn(u, tx) == ValueIn(v, tx)
    ensures CheckAmounts(u, tx, height) == CheckAmounts(v, tx, height)
    ensures ScriptsOk(rules, u, tx) == ScriptsOk(rules, v, tx)
  {
    SumInputsAgree(u, v, tx.vin);
    InOrderAgree(u, v, tx.vin, height);
    forall i | 0 <= i < |tx.vin|
      ensures Unspent(u, tx.vin[i]) == Unspent(v, tx.vin[i]) && OutputAt(u, tx.vin[i]) == OutputAt(v, tx.vin[i])
    {
      assert Get(u, tx.vin[i].hash) == Get(v, tx.vin[i].hash);
    }
  }

  // ----- connecting -----

  /** The loop state of ConnectBlock; script checks are collected and only their conjunction counts. */
  datatype Progress = Progress(utxo: Utxo, undo: seq<TxUndo>, fees: int, sigOps: nat, scriptsOk: bool)

  function ConnectTx(rules: Rules, p: Progress, tx: Tx, height: nat): Option<Progress>
  {
    var legacy := p.sigOps + rules.engine.legacySigOps(tx);
    if legacy > MAX_BLOCK_SIGOPS then None
    else if tx.IsCoinBase() then
      Some(Progress(Put(p.utxo, tx.txid, CoinsOf(tx, height)), p.undo, p.fees, legacy, p.scriptsOk))
    else if !HaveInputs(p.utxo, tx) then None
    else
      var sigOps := legacy + if rules.strictP2SH then SumP2SH(rules, p.utxo, tx, |tx.vin|) else 0;
      if sigOps > MAX_BLOCK_SIGOPS then None
      else if !CheckAmounts(p.utxo, tx, height) then None
      else
        match SpendInputs(p.utxo, tx.vin)
        case None => None
        case Some(s) =>
          Some(Progress(Put(s.utxo, tx.txid, CoinsOf(tx, height)),
                        p.undo + [s.undo],
                        p.fees + ValueIn(p.utxo, tx) - ValueOut(tx),
                        sigOps,
                        p.scriptsOk && ScriptsOk(rules, p.utxo, tx)))
  }

  function ConnectTxs(rules: Rules, u: Utxo, vtx: seq<Tx>, height: nat): Option<Progress>
  {
    if vtx == [] then Some(Progress(u, [], 0, 0, true))
    else
      match ConnectTxs(rules, u, vtx[..|vtx| - 1], height)
      case None => None
      case Some(p) => ConnectTx(rules, p, vtx[|vtx| - 1], height)
  }

  datatype Connected = Connected(utxo: Utxo, undo: seq<TxUndo>, fees: int)

  /** No transaction of the block has an unspent namesake (the rule of BIP 30). */
  predicate NoOverwrite(u: Utxo, block: Block)
  {
    forall i :: 0 <= i < |block.vtx| ==> block.vtx[i].txid !in u
  }

  function ConnectBlock(rules: Rules, u: Utxo, block: Block, height: nat): Option<Connected>
    requires height / HALVING_INTERVAL < 64
    requires block.vtx != []
  {
    if rules.enforceBip30 && !NoOverwrite(u, block) then None
    else
      match ConnectTxs(rules, u, block.vtx, height)
      case None => None
      case Some(p) =>
        if ValueOut(block.vtx[0]) > BlockValue(height, p.fees) then None
        else if !p.scriptsOk then None
        else Some(Connected(p.utxo, p.undo, p.fees))
  }

  // ----- disconnecting -----

  datatype Undone = Undone(utxo: Utxo, clean: bool)

  /** Restore the inputs, last one first. */
  function RestoreInputs(u: Utxo, vin: seq<OutPoint>, undo: TxUndo): Undone
    requires |vin| == |undo|
    decreases |vin|
  {
    if vin == [] then Undone(u, true)
    else
      var n := |vin| - 1;
      var r := Restore(Get(u, vin[n].hash), vin[n].n, undo[n]);
      var rest := RestoreInputs(Put(u, vin[n].hash, r.coins), vin[..n], undo[..n]);
      Undone(rest.utxo, r.clean && rest.clean)
  }

  /** Remove the outputs of a transaction; clean when they are all still there. */
  function RemoveOutputs(u: Utxo, tx: Tx, height: nat): Undone
  {
    Undone(u - {tx.txid}, Get(u, tx.txid) == CoinsOf(tx, height))
  }

  /** Undo the transactions of a prefix of the block, last one first; undo[i - 1] belongs to vtx[i]. */
  function DisconnectTxs(u: Utxo, vtx: seq<Tx>, height: nat, undo: seq<TxUndo>): Option<Undone>
    requires |vtx| > 0 ==> |undo| + 1 == |vtx|
    decreases |vtx|
  {
    if vtx == [] then Some(Undone(u, true))
    else
      var i := |vtx| - 1;
      var removed := RemoveOutputs(u, vtx[i], height);
      if i == 0 then Some(removed)
      else if |undo[i - 1]| != |vtx[i].vin| then None
      else
        var restored := RestoreInputs(removed.utxo, vtx[i].vin, undo[i - 1]);
        match DisconnectTxs(restored.utxo, vtx[..i], height, undo[..i - 1])
        case None => None
        case Some(rest) => Some(Undone(rest.utxo, removed.clean && restored.clean && rest.clean))
  }

  /** None when block and undo data do not fit together. */
  function DisconnectBlock(u: Utxo, block: Block, height: nat, undo: seq<TxUndo>): Option<Undone>
  {
    if |undo| + 1 != |block.vtx| then None else DisconnectTxs(u, block.vtx, height, undo)
  }
}
