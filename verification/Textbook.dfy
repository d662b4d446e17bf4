/**
 The rules for connecting a block said once more, on a map from single outputs (src/main.cpp:1561-1631, 1756-1866).  The
 set of coin records in Ledger accepts exactly the same blocks and changes in the same way.
 */
module Textbook {
  import opened Arith
  import opened Coins
  import opened Ledger
  import opened LedgerInverse
  import opened LedgerRuns

  /** An unspent output: what it pays, whether a coinbase made it, and at what height. */
  datatype Coin = Coin(out: TxOut, coinBase: bool, height: nat)

  type Book = imap<OutPoint, Coin>

  /** The outputs that a set of coin records stands for. */
  ghost function Outputs(u: Utxo): Book
  {
    imap op: OutPoint | op.hash in u && op.n < |u[op.hash].vout| && u[op.hash].vout[op.n].value != -1 ::
      Coin(u[op.hash].vout[op.n], u[op.hash].coinBase, u[op.hash].height)
  }

  // ----- the rules -----

  ghost function OutAt(b: Book, op: OutPoint): TxOut { if op in b then b[op].out else TxOut(0, []) }

  ghost function ValuesIn(b: Book, vin: seq<OutPoint>): seq<int>
  {
    seq(|vin|, i requires 0 <= i < |vin| => OutAt(b, vin[i]).value)
  }

  ghost function ValuesOut(vout: seq<TxOut>): seq<int>
  {
    seq(|vout|, i requires 0 <= i < |vout| => vout[i].value)
  }

  /** What a transaction pays for being included. */
  ghost function Fee(b: Book, tx: Tx): int { Sum(ValuesIn(b, tx.vin)) - Sum(ValuesOut(tx.vout)) }

  /** One input may take the output that it names: it is there, its value is in range, and a coinbase is old enough. */
  ghost predicate InputOk(b: Book, op: OutPoint, height: nat)
  {
    && op in b
    && (b[op].coinBase ==> b[op].height + 100 <= height)
    && 0 <= b[op].out.value <= 42_000_000 * 100_000_000
  }

  /** All inputs may, no sum of their values leaves the range of money, and together they cover what is paid. */
  ghost predicate SpenderOk(b: Book, tx: Tx, height: nat)
  {
    && (forall i :: 0 <= i < |tx.vin| ==> InputOk(b, tx.vin[i], height))
    && (forall k :: 0 < k <= |tx.vin| ==> Sum(ValuesIn(b, tx.vin[..k])) <= 42_000_000 * 100_000_000)
    && Fee(b, tx) >= 0
  }

  /** Every input has the consent of the output that it takes. */
  ghost predicate Signed(rules: Rules, b: Book, tx: Tx)
  {
    rules.scriptChecks ==> forall i :: 0 <= i < |tx.vin| ==> rules.engine.verify(tx, i, OutAt(b, tx.vin[i]))
  }

  ghost function SigOps(rules: Rules, b: Book, tx: Tx): int
  {
    var hidden := if rules.strictP2SH && !tx.IsCoinBase() then Sum(Hidden(rules, b, tx, |tx.vin|)) else 0;
    rules.engine.legacySigOps(tx) + hidden
  }

  /** The signature operations in the scripts behind the first k inputs. */
  ghost function Hidden(rules: Rules, b: Book, tx: Tx, k: nat): seq<int>
    requires k <= |tx.vin|
  {
    seq(k, i requires 0 <= i < k => rules.engine.p2shSigOps(tx, i, OutAt(b, tx.vin[i])) as int)
  }

  /** A transaction takes what it spends and leaves its own outputs in place of anything under its id. */
  ghost function With(b: Book, tx: Tx, height: nat): Book
  {
    imap op: OutPoint |
      if op.hash == tx.txid then op.n < |tx.vout| else op in b && (tx.IsCoinBase() || op !in tx.vin) ::
        if op.hash == tx.txid then Coin(tx.vout[op.n], tx.IsCoinBase(), height) else b[op]
  }

  ghost function WithAll(b: Book, vtx: seq<Tx>, height: nat): Book
  {
    if vtx == [] then b else With(WithAll(b, vtx[..|vtx| - 1], height), vtx[|vtx| - 1], height)
  }

  /** The fees of all transactions but a coinbase, each at its turn. */
  ghost function Fees(b: Book, vtx: seq<Tx>, height: nat): int
  {
    if vtx == [] then 0
    else
      var rest, tx := vtx[..|vtx| - 1], vtx[|vtx| - 1];
      Fees(b, rest, height) + if tx.IsCoinBase() then 0 else Fee(WithAll(b, rest, height), tx)
  }

  ghost function AllSigOps(rules: Rules, b: Book, vtx: seq<Tx>, height: nat): int
  {
    if vtx == [] then 0
    else
      var rest := vtx[..|vtx| - 1];
      AllSigOps(rules, b, rest, height) + SigOps(rules, WithAll(b, rest, height), vtx[|vtx| - 1])
  }

  ghost predicate SpendersOk(b: Book, vtx: seq<Tx>, height: nat)
  {
    forall k :: 0 <= k < |vtx| && !vtx[k].IsCoinBase() ==> SpenderOk(WithAll(b, vtx[..k], height), vtx[k], height)
  }

  ghost predicate AllSigned(rules: Rules, b: Book, vtx: seq<Tx>, height: nat)
  {
    forall k :: 0 <= k < |vtx| && !vtx[k].IsCoinBase() ==> Signed(rules, WithAll(b, vtx[..k], height), vtx[k])
  }

  ghost predicate BlockOk(rules: Rules, b: Book, block: Block, height: nat)
    requires block.vtx != []
  {
    var vtx := block.vtx;
    && (rules.enforceBip30 ==> forall i, op: OutPoint :: 0 <= i < |vtx| && op in b ==> op.hash != vtx[i].txid)
    && SpendersOk(b, vtx, height) && AllSigned(rules, b, vtx, height)
    && AllSigOps(rules, b, vtx, height) <= 20_000
    && Sum(ValuesOut(vtx[0].vout)) <= 2_000_000_000 / Pow(2, height / 1_050_000) + Fees(b, vtx, height)
  }

  // ----- one transaction -----

  lemma {:induction false} InputsSum(u: Utxo, vin: seq<OutPoint>)
    ensures SumInputs(u, vin) == Sum(ValuesIn(Outputs(u), vin))
  {
    if vin != [] {
      var n := |vin| - 1;
      InputsSum(u, vin[..n]);
      assert ValuesIn(Outputs(u), vin)[..n] == ValuesIn(Outputs(u), vin[..n]);
    }
  }

  lemma {:induction false} OutputsSum(vout: seq<TxOut>)
    ensures SumValues(vout) == Sum(ValuesOut(vout))
  {
    if vout != [] {
      var n := |vout| - 1;
      OutputsSum(vout[..n]);
      assert ValuesOut(vout)[..n] == ValuesOut(vout[..n]);
    }
  }

  lemma {:induction false} HiddenSum(rules: Rules, u: Utxo, tx: Tx, k: nat)
    requires k <= |tx.vin|
    ensures SumP2SH(rules, u, tx, k) == Sum(Hidden(rules, Outputs(u), tx, k))
  {
    if k > 0 {
      HiddenSum(rules, u, tx, k - 1);
      assert OutputAt(u, tx.vin[k - 1]) == OutAt(Outputs(u), tx.vin[k - 1]);
      assert Hidden(rules, Outputs(u), tx, k)[..k - 1] == Hidden(rules, Outputs(u), tx, k - 1);
    }
  }

  /** What SpenderOk asks of the inputs. */
  ghost predicate InputsOk(b: Book, vin: seq<OutPoint>, height: nat)
  {
    && (forall i :: 0 <= i < |vin| ==> InputOk(b, vin[i], height))
    && (forall k :: 0 < k <= |vin| ==> Sum(ValuesIn(b, vin[..k])) <= 42_000_000 * 100_000_000)
  }

  lemma LastInput(b: Book, vin: seq<OutPoint>, height: nat)
    requires vin != []
    ensures var n := |vin| - 1;
            InputsOk(b, vin, height) <==>
              && InputsOk(b, vin[..n], height) && InputOk(b, vin[n], height)
              && 0 <= Sum(ValuesIn(b, vin)) <= 42_000_000 * 100_000_000
  {
    hide Sum, InputOk;
    var n := |vin| - 1;
    assert vin[..n + 1] == vin;
    assert forall k :: 0 < k <= n ==> vin[..n][..k] == vin[..k];
    if forall i :: 0 <= i < |vin| ==> InputOk(b, vin[i], height) {
      ValuesNotNegative(b, vin, height);
    }
  }

  lemma ValuesNotNegative(b: Book, vin: seq<OutPoint>, height: nat)
    requires forall i :: 0 <= i < |vin| ==> InputOk(b, vin[i], height)
    ensures Sum(ValuesIn(b, vin)) >= 0
  {
    SumNotNegative(ValuesIn(b, vin));
  }

  lemma {:induction false} InOrderIff(u: Utxo, vin: seq<OutPoint>, height: nat)
    requires forall i :: 0 <= i < |vin| ==> Unspent(u, vin[i])
    ensures InputsInOrder(u, vin, height) <==> InputsOk(Outputs(u), vin, height)
  {
    if vin != [] {
      hide InputsOk, Sum;
      InOrderIff(u, vin[..|vin| - 1], height);
      InputsSum(u, vin);
      LastInput(Outputs(u), vin, height);
    }
  }

  lemma {:induction false} SumNotNegative(values: seq<int>)
    requires forall i :: 0 <= i < |values| ==> values[i] >= 0
    ensures Sum(values) >= 0
  {
    if values != [] {
      SumNotNegative(values[..|values| - 1]);
    }
  }

  lemma AmountsIff(u: Utxo, tx: Tx, height: nat)
    requires CheckTransaction(tx) && !tx.IsCoinBase()
    ensures CheckAmounts(u, tx, height) <==> SpenderOk(Outputs(u), tx, height)
    ensures ValueIn(u, tx) - ValueOut(tx) == Fee(Outputs(u), tx)
  {
    InputsSum(u, tx.vin);
    OutputsSum(tx.vout);
    if HaveInputs(u, tx) {
      InOrderIff(u, tx.vin, height);
      assert tx.vin[..|tx.vin|] == tx.vin;
    } else {
      var i :| 0 <= i < |tx.vin| && !Unspent(u, tx.vin[i]);
      assert !InputOk(Outputs(u), tx.vin[i], height);
    }
  }

  lemma SigOpsIs(rules: Rules, u: Utxo, tx: Tx)
    ensures SigOps(rules, Outputs(u), tx) == rules.engine.legacySigOps(tx) +
      if rules.strictP2SH && !tx.IsCoinBase() then SumP2SH(rules, u, tx, |tx.vin|) else 0
  {
    HiddenSum(rules, u, tx, |tx.vin|);
  }

  lemma SignedIff(rules: Rules, u: Utxo, tx: Tx)
    ensures ScriptsOk(rules, u, tx) <==> Signed(rules, Outputs(u), tx)
  {
    assert forall i :: 0 <= i < |tx.vin| ==> OutputAt(u, tx.vin[i]) == OutAt(Outputs(u), tx.vin[i]);
  }

  lemma OriginStays(v: Utxo, op: OutPoint)
    requires ValidUtxo(v) && Spend(Get(v, op.hash), op.n).Some?
    ensures var w := Put(v, op.hash, Spend(Get(v, op.hash), op.n).value.coins);
            forall t :: t in w ==> t in v && w[t].coinBase == v[t].coinBase && w[t].height == v[t].height
  {
    hide Trim, ValidUtxo;
  }

  /** Spending leaves of each record all but its outputs as it was. */
  lemma {:induction false} OriginsStay(u: Utxo, vin: seq<OutPoint>)
    requires ValidUtxo(u) && SpendInputs(u, vin).Some?
    ensures var v := SpendInputs(u, vin).value.utxo;
            forall t :: t in v ==> t in u && v[t].coinBase == u[t].coinBase && v[t].height == u[t].height
  {
    if vin != [] {
      var prefix, last := vin[..|vin| - 1], vin[|vin| - 1];
      OriginsStay(u, prefix);
      SpendInputsEffect(u, prefix);
      var v := SpendInputs(u, prefix).value.utxo;
      hide SpendInputs;
      OriginStays(v, last);
    }
  }

  /** Spending takes the outputs in the list from the map and leaves the others as they were. */
  lemma SpentOutputs(u: Utxo, vin: seq<OutPoint>, op: OutPoint)
    requires ValidUtxo(u) && SpendInputs(u, vin).Some?
    ensures var b, c := Outputs(u), Outputs(SpendInputs(u, vin).value.utxo);
            (op in c <==> op in b && op !in vin) && (op in c ==> c[op] == b[op])
  {
    hide SpendInputs, ValidUtxo;
    var v := SpendInputs(u, vin).value.utxo;
    SpendInputsEffect(u, vin);
    OriginsStay(u, vin);
    InBook(u, op);
    InBook(v, op);
  }

  lemma InBook(u: Utxo, op: OutPoint)
    ensures op in Outputs(u) <==> Unspent(u, op)
    ensures Unspent(u, op) ==> Outputs(u)[op] == Coin(OutputAt(u, op), u[op.hash].coinBase, u[op.hash].height)
  {
  }

  lemma SpentIs(u: Utxo, tx: Tx, height: nat)
    requires ValidUtxo(u) && CheckTransaction(tx) && !tx.IsCoinBase() && SpendInputs(u, tx.vin).Some?
    ensures Outputs(Put(SpendInputs(u, tx.vin).value.utxo, tx.txid, CoinsOf(tx, height)))
              == With(Outputs(u), tx, height)
  {
    hide SpendInputs, ValidUtxo, CheckTransaction, Put, CoinsOf, Outputs, Tx.IsCoinBase;
    StoredIs(SpendInputs(u, tx.vin).value.utxo, tx, height);
    forall op: OutPoint {
      SpentOutputs(u, tx.vin, op);
    }
  }

  lemma CoinbaseIs(u: Utxo, tx: Tx, height: nat)
    requires CheckTransaction(tx) && tx.IsCoinBase()
    ensures Outputs(Put(u, tx.txid, CoinsOf(tx, height))) == With(Outputs(u), tx, height)
  {
    hide CheckTransaction, Put, CoinsOf, Outputs;
    StoredIs(u, tx, height);
  }

  /** Storing the outputs of a transaction. */
  lemma StoredIs(u: Utxo, tx: Tx, height: nat)
    requires CheckTransaction(tx)
    ensures var b := Outputs(Put(u, tx.txid, CoinsOf(tx, height)));
            forall op: OutPoint ::
              && (op.hash != tx.txid ==> (op in b <==> op in Outputs(u)) && (op in b ==> b[op] == Outputs(u)[op]))
              && (op.hash == tx.txid ==>
                   && (op in b <==> op.n < |tx.vout|)
                   && (op in b ==> b[op] == Coin(tx.vout[op.n], tx.IsCoinBase(), height)))
  {
    CoinsOfWellFormed(tx, height);
    assert forall i :: 0 <= i < |tx.vout| ==> MoneyRange(tx.vout[i].value);
  }

  // ----- the transactions of a block -----

  lemma SigOpsNotNegative(rules: Rules, b: Book, tx: Tx)
    ensures SigOps(rules, b, tx) >= 0
  {
    forall i | 0 <= i < |tx.vin| ensures Hidden(rules, b, tx, |tx.vin|)[i] >= 0 {
      var n: nat := rules.engine.p2shSigOps(tx, i, OutAt(b, tx.vin[i]));
    }
    SumNotNegative(Hidden(rules, b, tx, |tx.vin|));
  }

  /** One transaction on the records and on the map: the same verdict, the same effect. */
  lemma TxIff(rules: Rules, p: Progress, tx: Tx, height: nat)
    requires ValidUtxo(p.utxo) && height > 0 && CheckTransaction(tx)
    ensures var b := Outputs(p.utxo);
            ConnectTx(rules, p, tx, height).Some? <==>
              p.sigOps + SigOps(rules, b, tx) <= 20_000 && (tx.IsCoinBase() || SpenderOk(b, tx, height))
    ensures ConnectTx(rules, p, tx, height).Some? ==>
              var b, q := Outputs(p.utxo), ConnectTx(rules, p, tx, height).value;
              && Outputs(q.utxo) == With(b, tx, height)
              && q.fees == p.fees + (if tx.IsCoinBase() then 0 else Fee(b, tx))
              && q.sigOps == p.sigOps + SigOps(rules, b, tx)
              && (q.scriptsOk <==> p.scriptsOk && (tx.IsCoinBase() || Signed(rules, b, tx)))
  {
    hide Outputs, SpenderOk, Fee, SigOps, Signed, With, CheckAmounts, ScriptsOk, SumP2SH, ValueIn, ValueOut,
      SpendInputs, Put, CoinsOf, CheckTransaction, ValidUtxo, Tx.IsCoinBase;
    SigOpsIs(rules, p.utxo, tx);
    if tx.IsCoinBase() {
      CoinbaseIs(p.utxo, tx, height);
    } else {
      AmountsIff(p.utxo, tx, height);
      SignedIff(rules, p.utxo, tx);
      if CheckAmounts(p.utxo, tx, height) {
        CheckedCanSpend(p.utxo, tx, height);
        SpentIs(p.utxo, tx, height);
      }
    }
  }

  lemma CheckedCanSpend(u: Utxo, tx: Tx, height: nat)
    requires ValidUtxo(u) && CheckTransaction(tx) && !tx.IsCoinBase() && CheckAmounts(u, tx, height)
    ensures HaveInputs(u, tx) && SpendInputs(u, tx.vin).Some?
  {
    AvailableInputsCanBeSpent(u, tx.vin);
  }

  lemma AllButLast(rules: Rules, b: Book, vtx: seq<Tx>, height: nat)
    requires vtx != []
    ensures var rest, tx := vtx[..|vtx| - 1], vtx[|vtx| - 1];
            && (SpendersOk(b, vtx, height) <==>
                 SpendersOk(b, rest, height) && (tx.IsCoinBase() || SpenderOk(WithAll(b, rest, height), tx, height)))
            && (AllSigned(rules, b, vtx, height) <==>
                 AllSigned(rules, b, rest, height) && (tx.IsCoinBase() || Signed(rules, WithAll(b, rest, height), tx)))
  {
    hide SpenderOk, Signed, WithAll, Tx.IsCoinBase;
    var n := |vtx| - 1;
    assert forall k :: 0 <= k < n ==> vtx[..n][..k] == vtx[..k];
  }

  lemma {:induction false} TxsIff(rules: Rules, u: Utxo, vtx: seq<Tx>, height: nat)
    requires ValidUtxo(u) && height > 0 && BlockPrefix(vtx)
    ensures var b := Outputs(u);
            ConnectTxs(rules, u, vtx, height).Some? <==>
              SpendersOk(b, vtx, height) && AllSigOps(rules, b, vtx, height) <= 20_000
    ensures ConnectTxs(rules, u, vtx, height).Some? ==>
              var b, p := Outputs(u), ConnectTxs(rules, u, vtx, height).value;
              && Outputs(p.utxo) == WithAll(b, vtx, height) && p.fees == Fees(b, vtx, height)
              && p.sigOps == AllSigOps(rules, b, vtx, height)
              && (p.scriptsOk <==> AllSigned(rules, b, vtx, height))
  {
    hide ConnectTx, Outputs, SpenderOk, Fee, SigOps, Signed, With, CheckTransaction, ValidUtxo, Tx.IsCoinBase,
      SpendersOk, AllSigned;
    if vtx == [] {
      NoSpenders(rules, Outputs(u), height);
    } else {
      var rest, tx := vtx[..|vtx| - 1], vtx[|vtx| - 1];
      PrefixOk(vtx);
      AllButLast(rules, Outputs(u), vtx, height);
      TxsIff(rules, u, rest, height);
      SigOpsNotNegative(rules, WithAll(Outputs(u), rest, height), tx);
      if ConnectTxs(rules, u, rest, height).Some? {
        ConnectTxsEffect(rules, u, rest, height);
        TxIff(rules, ConnectTxs(rules, u, rest, height).value, tx, height);
      }
    }
  }

  lemma NoSpenders(rules: Rules, b: Book, height: nat)
    ensures SpendersOk(b, [], height) && AllSigned(rules, b, [], height)
  {
  }

  lemma PrefixOk(vtx: seq<Tx>)
    requires vtx != [] && BlockPrefix(vtx)
    ensures BlockPrefix(vtx[..|vtx| - 1]) && CheckTransaction(vtx[|vtx| - 1])
  {
  }

  lemma NamesakesIff(u: Utxo, block: Block)
    requires ValidUtxo(u)
    ensures NoOverwrite(u, block) <==>
              forall i, op: OutPoint :: 0 <= i < |block.vtx| && op in Outputs(u) ==> op.hash != block.vtx[i].txid
  {
    if i :| 0 <= i < |block.vtx| && block.vtx[i].txid in u {
      var c := u[block.vtx[i].txid];
      var n :| 0 <= n < |c.vout| && !c.vout[n].IsNull();
      assert OutPoint(block.vtx[i].txid, n) in Outputs(u);
    }
  }

  /**
   A block that passes its own checks connects to a set of coin records if and only if it keeps the rules on the map of
   single outputs, and its effect is that of its transactions on the map.
   */
  lemma ConnectsIff(rules: Rules, u: Utxo, block: Block, height: nat)
    requires ValidUtxo(u) && height > 0 && HeightInRange(height) && CheckBlock(block)
    ensures ConnectBlock(rules, u, block, height).Some? <==> BlockOk(rules, Outputs(u), block, height)
    ensures ConnectBlock(rules, u, block, height).Some? ==>
              var c := ConnectBlock(rules, u, block, height).value;
              Outputs(c.utxo) == WithAll(Outputs(u), block.vtx, height) && c.fees == Fees(Outputs(u), block.vtx, height)
  {
    hide ConnectTxs, Outputs, SpendersOk, AllSigned, WithAll, Fees, AllSigOps, ValidUtxo, NoOverwrite, Pow;
    assert BlockPrefix(block.vtx);
    TxsIff(rules, u, block.vtx, height);
    NamesakesIff(u, block);
    OutputsSum(block.vtx[0].vout);
  }

  /**
   In a connected block every transaction but the coinbase takes outputs that are there when it is its turn, from
   coinbases only if they are a hundred blocks old, with the consent of each of their scripts, for no less than it pays.
   */
  lemma ConnectedIsChecked(rules: Rules, u: Utxo, block: Block, height: nat, k: nat, i: nat)
    requires ValidUtxo(u) && height > 0 && HeightInRange(height) && CheckBlock(block)
    requires ConnectBlock(rules, u, block, height).Some? && 0 < k < |block.vtx| && i < |block.vtx[k].vin|
    ensures ConnectTxs(rules, u, block.vtx[..k], height).Some?
    ensures var v, tx := ConnectTxs(rules, u, block.vtx[..k], height).value.utxo, block.vtx[k];
            var op := tx.vin[i];
            && Unspent(v, op)
            && (rules.scriptChecks ==> rules.engine.verify(tx, i, OutputAt(v, op)))
            && (v[op.hash].coinBase ==> v[op.hash].height + 100 <= height)
            && Sum(ValuesOut(tx.vout)) <= Sum(ValuesIn(Outputs(v), tx.vin))
    ensures AllSigOps(rules, Outputs(u), block.vtx, height) <= 20_000
  {
    hide ConnectTxs, Outputs, WithAll, Fees, AllSigOps, ValidUtxo, NoOverwrite, Pow, CheckTransaction, Tx.IsCoinBase;
    ConnectsIff(rules, u, block, height);
    PrefixConnects(rules, u, block.vtx, height, k);
    assert BlockPrefix(block.vtx) && BlockPrefix(block.vtx[..k]);
    TxsIff(rules, u, block.vtx[..k], height);
    var v, op := ConnectTxs(rules, u, block.vtx[..k], height).value.utxo, block.vtx[k].vin[i];
    InBook(v, op);
    assert SpenderOk(Outputs(v), block.vtx[k], height) && InputOk(Outputs(v), op, height);
    assert OutAt(Outputs(v), op) == OutputAt(v, op);
  }

  /** And a block in which one of these things fails is refused. */
  lemma UncheckedIsRefused(rules: Rules, u: Utxo, block: Block, height: nat, k: nat, i: nat)
    requires ValidUtxo(u) && height > 0 && HeightInRange(height) && CheckBlock(block)
    requires 0 < k < |block.vtx| && i < |block.vtx[k].vin|
    requires ConnectTxs(rules, u, block.vtx[..k], height).Some? ==>
               var v, tx := ConnectTxs(rules, u, block.vtx[..k], height).value.utxo, block.vtx[k];
               var op := tx.vin[i];
               || !Unspent(v, op)
               || (rules.scriptChecks && !rules.engine.verify(tx, i, OutputAt(v, op)))
               || (v[op.hash].coinBase && height < v[op.hash].height + 100)
               || Sum(ValuesIn(Outputs(v), tx.vin)) < Sum(ValuesOut(tx.vout))
    ensures ConnectBlock(rules, u, block, height).None?
  {
    hide ConnectBlock, ConnectTxs, Outputs, CheckBlock, Unspent, OutputAt;
    if ConnectBlock(rules, u, block, height).Some? {
      ConnectedIsChecked(rules, u, block, height, k, i);
    }
  }

  // ----- whole chains -----

  /** Transaction m of block g of a chain made this output. */
  ghost predicate Origin(links: seq<Link>, g: nat, m: nat, op: OutPoint, coin: Coin)
  {
    && g < |links| && m < |links[g].block.vtx|
    && var tx := links[g].block.vtx[m];
       tx.txid == op.hash && op.n < |tx.vout| && coin == Coin(tx.vout[op.n], m == 0, g + 1)
  }

  /** What is on the map after some transactions was there before, or one of them made it. */
  lemma {:induction false} FromTxs(b: Book, vtx: seq<Tx>, height: nat, op: OutPoint)
    requires op in WithAll(b, vtx, height)
    ensures var coin := WithAll(b, vtx, height)[op];
            (op in b && coin == b[op]) || exists m :: MadeBy(vtx, m, height, op, coin)
  {
    if vtx != [] {
      var n := |vtx| - 1;
      if op.hash == vtx[n].txid {
        assert MadeBy(vtx, n, height, op, WithAll(b, vtx, height)[op]);
      } else {
        FromTxs(b, vtx[..n], height, op);
        if m :| MadeBy(vtx[..n], m, height, op, WithAll(b, vtx[..n], height)[op]) {
          assert MadeBy(vtx, m, height, op, WithAll(b, vtx, height)[op]);
        }
      }
    }
  }

  ghost predicate MadeBy(vtx: seq<Tx>, m: nat, height: nat, op: OutPoint, coin: Coin)
  {
    && m < |vtx| && vtx[m].txid == op.hash && op.n < |vtx[m].vout|
    && coin == Coin(vtx[m].vout[op.n], vtx[m].IsCoinBase(), height)
  }

  /** Every unspent output of a chain was made by one of its transactions; its record says by which kind and when. */
  lemma {:induction false} EveryOutputHasOrigin(links: seq<Link>, op: OutPoint)
    requires Replay(links).Some? && op in Outputs(Replay(links).value.utxo)
    ensures exists g: nat, m: nat :: Origin(links, g, m, op, Outputs(Replay(links).value.utxo)[op])
  {
    hide ConnectBlock, WithAll, CheckTransaction, Tx.IsCoinBase, Outputs;
    var coin := Outputs(Replay(links).value.utxo)[op];
    if links == [] {
      InBook(map[], op);
    } else {
      var n := |links| - 1;
      var u, block := Replay(links[..n]).value.utxo, links[n].block;
      ReplaySupply(links[..n]);
      ConnectsIff(links[n].rules, u, block, n + 1);
      FromTxs(Outputs(u), block.vtx, n + 1, op);
      if op in Outputs(u) && coin == Outputs(u)[op] {
        EveryOutputHasOrigin(links[..n], op);
        var g: nat, m: nat :| Origin(links[..n], g, m, op, coin);
        assert Origin(links, g, m, op, coin);
      } else {
        var m: nat :| MadeBy(block.vtx, m, n + 1, op, coin);
        assert Origin(links, n, m, op, coin);
      }
    }
  }

  /** Transaction m of block g made what input j of transaction i of block k takes, in time and to be spent so. */
  ghost predicate LegalOrigin(links: seq<Link>, k: nat, i: nat, j: nat, g: nat, m: nat)
    requires k < |links| && i < |links[k].block.vtx| && j < |links[k].block.vtx[i].vin|
  {
    var tx, rules := links[k].block.vtx[i], links[k].rules;
    && (g < k || (g == k && m < i)) && m < |links[g].block.vtx|
    && var made := links[g].block.vtx[m];
       && made.txid == tx.vin[j].hash && tx.vin[j].n < |made.vout|
       && (m == 0 ==> g + 100 <= k)
       && (rules.scriptChecks ==> rules.engine.verify(tx, j, made.vout[tx.vin[j].n]))
  }

  /** The output that an input of a connected block takes, on the map at its turn. */
  lemma TakenAtTurn(rules: Rules, u: Utxo, block: Block, height: nat, i: nat, j: nat)
    requires ValidUtxo(u) && height > 0 && HeightInRange(height) && CheckBlock(block)
    requires ConnectBlock(rules, u, block, height).Some? && 0 < i < |block.vtx| && j < |block.vtx[i].vin|
    ensures var b, op := WithAll(Outputs(u), block.vtx[..i], height), block.vtx[i].vin[j];
            && op in b && (b[op].coinBase ==> b[op].height + 100 <= height)
            && (rules.scriptChecks ==> rules.engine.verify(block.vtx[i], j, b[op].out))
            && ((op in Outputs(u) && b[op] == Outputs(u)[op])
                || exists m :: MadeBy(block.vtx[..i], m, height, op, b[op]))
  {
    hide ConnectBlock, WithAll, CheckTransaction, Tx.IsCoinBase, Outputs;
    ConnectsIff(rules, u, block, height);
    var b, tx, op := WithAll(Outputs(u), block.vtx[..i], height), block.vtx[i], block.vtx[i].vin[j];
    assert SpenderOk(b, tx, height) && InputOk(b, op, height) && Signed(rules, b, tx);
    assert OutAt(b, op) == b[op].out;
    FromTxs(Outputs(u), block.vtx[..i], height, op);
  }

  /**
   Along every chain that connects, whatever a transaction spends was made by an earlier one, is at least a hundred
   blocks old if a coinbase made it, and is spent with the consent of its script.
   */
  lemma EverySpendIsLegal(links: seq<Link>, k: nat, i: nat, j: nat)
    requires Replay(links).Some? && k < |links| && 0 < i < |links[k].block.vtx| && j < |links[k].block.vtx[i].vin|
    ensures exists g: nat, m: nat :: LegalOrigin(links, k, i, j, g, m)
  {
    hide ConnectBlock, WithAll, CheckBlock, Outputs, ValidUtxo;
    ReplayPrefix(links, k + 1);
    assert links[..k + 1][..k] == links[..k];
    var block, rules := links[k].block, links[k].rules;
    var u, op := Replay(links[..k]).value.utxo, block.vtx[i].vin[j];
    ReplaySupply(links[..k]);
    TakenAtTurn(rules, u, block, k + 1, i, j);
    var coin := WithAll(Outputs(u), block.vtx[..i], k + 1)[op];
    if op in Outputs(u) && coin == Outputs(u)[op] {
      EveryOutputHasOrigin(links[..k], op);
      var g: nat, m: nat :| Origin(links[..k], g, m, op, coin);
      assert links[..k][g] == links[g];
      assert LegalOrigin(links, k, i, j, g, m);
    } else {
      var m: nat :| MadeBy(block.vtx[..i], m, k + 1, op, coin);
      FirstIsCoinbase(block, m);
      assert LegalOrigin(links, k, i, j, k, m);
    }
  }

  lemma FirstIsCoinbase(block: Block, m: nat)
    requires CheckBlock(block) && m < |block.vtx|
    ensures block.vtx[m].IsCoinBase() <==> m == 0
  {
  }
}
