/** Conservation of value: connecting a block creates at most the subsidy, over every run from genesis. */
module Supply {
  import opened Coins
  import opened Ledger
  import opened LedgerInverse
  import opened Arith
  import opened Wear

  // ----- the value of the unspent set -----

  function LiveValue(vout: seq<TxOut>): int
  {
    if vout == [] then 0
    else
      var last := vout[|vout| - 1];
      LiveValue(vout[..|vout| - 1]) + if last.IsNull() then 0 else last.value
  }

  ghost function Total(u: Utxo): int
  {
    if u == map[] then 0 else var t :| t in u; LiveValue(u[t].vout) + Total(u - {t})
  }

  /** The total does not depend on the order in which entries are added up. */
  lemma {:induction false} TotalSplit(u: Utxo, t: Txid)
    requires t in u
    ensures Total(u) == LiveValue(u[t].vout) + Total(u - {t})
    decreases |u|
  {
    var pick :| pick in u && Total(u) == LiveValue(u[pick].vout) + Total(u - {pick});
    if pick != t {
      TotalSplit(u - {pick}, t);
      TotalSplit(u - {t}, pick);
      assert u - {pick} - {t} == u - {t} - {pick};
    }
  }

  /** Storage does not touch values. */
  lemma {:induction false} TotalWorn(u: Utxo, o: Utxo)
    requires WornSet(u, o)
    ensures Total(u) == Total(o)
    decreases |o|
  {
    if o != map[] {
      var t :| t in o;
      TotalSplit(u, t);
      TotalSplit(o, t);
      TotalWorn(u - {t}, o - {t});
    } else {
      assert u == map[];
    }
  }

  lemma TotalPut(u: Utxo, t: Txid, c: Coins)
    requires c.WellFormed()
    ensures Total(Put(u, t, c)) == Total(u - {t}) + LiveValue(c.vout)
  {
    if c.IsPruned() {
      PrunedHasNoValue(c.vout);
    } else {
      TotalSplit(u[t := c], t);
      assert u[t := c] - {t} == u - {t};
    }
  }

  lemma TotalGet(u: Utxo, t: Txid)
    ensures Total(u) == Total(u - {t}) + LiveValue(Get(u, t).vout)
  {
    if t in u {
      TotalSplit(u, t);
    } else {
      assert u - {t} == u;
    }
  }

  lemma {:induction false} TotalNotNegative(u: Utxo)
    requires ValidUtxo(u)
    ensures Total(u) >= 0
    decreases |u|
  {
    if u != map[] {
      var t :| t in u;
      TotalSplit(u, t);
      LiveNotNegative(u[t].vout);
      TotalNotNegative(u - {t});
    }
  }

  lemma PrunedHasNoValue(vout: seq<TxOut>)
    requires forall i :: 0 <= i < |vout| ==> vout[i].IsNull()
    ensures LiveValue(vout) == 0
  {
  }

  lemma LiveNotNegative(vout: seq<TxOut>)
    requires forall i :: 0 <= i < |vout| ==> vout[i] == NULL_OUT || vout[i].value >= 0
    ensures LiveValue(vout) >= 0
  {
  }

  lemma LiveWithoutNulls(vout: seq<TxOut>)
    requires forall i :: 0 <= i < |vout| ==> !vout[i].IsNull()
    ensures LiveValue(vout) == SumValues(vout)
  {
  }

  lemma {:induction false} LiveClear(vout: seq<TxOut>, n: nat)
    requires n < |vout| && !vout[n].IsNull()
    ensures LiveValue(vout[n := NULL_OUT]) == LiveValue(vout) - vout[n].value
    decreases |vout|
  {
    var k := |vout| - 1;
    var cleared := vout[n := NULL_OUT];
    if n == k {
      assert cleared[..k] == vout[..k];
    } else {
      LiveClear(vout[..k], n);
      assert cleared[..k] == vout[..k][n := NULL_OUT];
    }
  }

  lemma {:induction false} LiveTrim(vout: seq<TxOut>)
    ensures LiveValue(Trim(vout)) == LiveValue(vout)
    decreases |vout|
  {
    if vout != [] && vout[|vout| - 1].IsNull() {
      LiveTrim(vout[..|vout| - 1]);
    }
  }

  // ----- transactions and blocks -----

  lemma SpendOneTotal(u: Utxo, op: OutPoint)
    requires ValidUtxo(u) && Unspent(u, op)
    ensures Total(Put(u, op.hash, Spend(u[op.hash], op.n).value.coins)) == Total(u) - OutputAt(u, op).value
  {
    var c := u[op.hash];
    SpendEffect(c, op.n);
    LiveClear(c.vout, op.n);
    LiveTrim(c.vout[op.n := NULL_OUT]);
    TotalPut(u, op.hash, Spend(c, op.n).value.coins);
    TotalGet(u, op.hash);
  }

  /** Spending the inputs takes exactly their value out of the set. */
  lemma {:induction false} SpendInputsTotal(u: Utxo, vin: seq<OutPoint>)
    requires ValidUtxo(u) && SpendInputs(u, vin).Some?
    ensures Total(SpendInputs(u, vin).value.utxo) == Total(u) - SumInputs(u, vin)
  {
    if vin != [] {
      var prefix, last := vin[..|vin| - 1], vin[|vin| - 1];
      SpendInputsTotal(u, prefix);
      SpendInputsEffect(u, prefix);
      SpendOneTotal(SpendInputs(u, prefix).value.utxo, last);
    }
  }

  lemma CoinsOfTotal(u: Utxo, tx: Tx, height: nat)
    requires ValidUtxo(u) && CheckTransaction(tx)
    ensures Total(Put(u, tx.txid, CoinsOf(tx, height))) <= Total(u) + ValueOut(tx)
    ensures tx.txid !in u ==> Total(Put(u, tx.txid, CoinsOf(tx, height))) == Total(u) + ValueOut(tx)
  {
    var c := CoinsOf(tx, height);
    CoinsOfWellFormed(tx, height);
    LiveWithoutNulls(tx.vout);
    TotalPut(u, tx.txid, c);
    TotalGet(u, tx.txid);
    if tx.txid in u {
      LiveNotNegative(u[tx.txid].vout);
    }
  }

  /** Inputs less outputs is what leaves the set; overwriting an entry could only lose more. */
  lemma ConnectTxTotal(rules: Rules, p: Progress, tx: Tx, height: nat)
    requires ValidUtxo(p.utxo) && height > 0 && CheckTransaction(tx)
    requires ConnectTx(rules, p, tx, height).Some?
    ensures var q := ConnectTx(rules, p, tx, height).value;
            && Total(q.utxo) <= Total(p.utxo) - ValueIn(p.utxo, tx) + ValueOut(tx)
            && (tx.txid !in p.utxo ==> Total(q.utxo) == Total(p.utxo) - ValueIn(p.utxo, tx) + ValueOut(tx))
            && q.fees == p.fees + (if tx.IsCoinBase() then 0 else ValueIn(p.utxo, tx) - ValueOut(tx))
            && q.fees >= p.fees
  {
    if tx.IsCoinBase() {
      CoinsOfTotal(p.utxo, tx, height);
    } else {
      var s := SpendInputs(p.utxo, tx.vin).value.utxo;
      SpendInputsTotal(p.utxo, tx.vin);
      SpendInputsEffect(p.utxo, tx.vin);
      CoinsOfTotal(s, tx, height);
    }
  }

  /** After any prefix of a block: the set and the fees together hold at most what was there plus the coinbase. */
  lemma {:induction false} ConnectTxsTotal(rules: Rules, u: Utxo, vtx: seq<Tx>, height: nat)
    requires ValidUtxo(u) && height > 0 && BlockPrefix(vtx)
    requires ConnectTxs(rules, u, vtx, height).Some?
    ensures var p := ConnectTxs(rules, u, vtx, height).value;
            && Total(p.utxo) + p.fees <= Total(u) + (if vtx == [] then 0 else ValueOut(vtx[0]))
            && (OverwriteFree(rules, u, vtx, height) ==>
                  Total(p.utxo) + p.fees == Total(u) + (if vtx == [] then 0 else ValueOut(vtx[0])))
            && p.fees >= 0
  {
    hide ConnectTx, OverwriteFree, ValidUtxo, CheckTransaction;
    if vtx != [] {
      var n := |vtx| - 1;
      var prefix := vtx[..n];
      ConnectTxsTotal(rules, u, prefix, height);
      ConnectTxsEffect(rules, u, prefix, height);
      var p := ConnectTxs(rules, u, prefix, height).value;
      ConnectTxTotal(rules, p, vtx[n], height);
      if OverwriteFree(rules, u, vtx, height) {
        OverwriteFreePrefix(rules, u, vtx, height);
      }
    }
  }

  /** Connecting a block adds at most the subsidy; under BIP 30 it adds exactly coinbase less fees. */
  lemma ConnectBlockTotal(rules: Rules, u: Utxo, block: Block, height: nat)
    requires ValidUtxo(u) && 0 < height && height / HALVING_INTERVAL < 64 && CheckBlock(block)
    requires ConnectBlock(rules, u, block, height).Some?
    ensures var c := ConnectBlock(rules, u, block, height).value;
            && Total(c.utxo) <= Total(u) + Subsidy(height)
            && (rules.enforceBip30 ==> Total(c.utxo) == Total(u) + ValueOut(block.vtx[0]) - c.fees)
  {
    ConnectTxsTotal(rules, u, block.vtx, height);
    if rules.enforceBip30 {
      NoOverwriteThroughout(rules, u, block, height);
    }
  }

  // ----- the subsidy schedule -----

  /** Subsidies of the blocks above genesis, up to and including height. */
  function Issued(height: nat): int
    requires height / HALVING_INTERVAL < 64
  {
    if height == 0 then 0 else Issued(height - 1) + Subsidy(height)
  }

  function EpochSubsidy(epoch: nat): int { 20 * COIN / Pow(2, epoch) }

  lemma HalvingHalves(epoch: nat)
    ensures 0 <= 2 * EpochSubsidy(epoch + 1) <= EpochSubsidy(epoch) <= 20 * COIN
    ensures EpochSubsidy(epoch) >= 2 ==> EpochSubsidy(epoch + 1) >= 1
  {
    var p := Pow(2, epoch);
    assert Pow(2, epoch + 1) == 2 * p;
    DivideByTwice(20 * COIN, p);
    DivideAtMost(20 * COIN, p);
  }

  /** The first 1050000 heights pay 20 coins, and every interval half of what the one before pays, rounded down. */
  lemma SubsidyHalves(height: nat)
    requires (height + 1_050_000) / HALVING_INTERVAL < 64
    ensures height < 1_050_000 ==> Subsidy(height) == 20 * 100_000_000
    ensures Subsidy(height + 1_050_000) == Subsidy(height) / 2
  {
    var epoch := height / HALVING_INTERVAL;
    assert (height + 1_050_000) / HALVING_INTERVAL == epoch + 1;
    assert Pow(2, epoch + 1) == 2 * Pow(2, epoch) && Pow(2, 0) == 1;
    DivideByTwice(20 * COIN, Pow(2, epoch));
  }

  /** Everything issued before the epoch of height, and from its first block on. */
  function IssueBound(height: nat): int
    requires height / HALVING_INTERVAL < 64
  {
    var e := height / HALVING_INTERVAL;
    var s := EpochSubsidy(e);
    HALVING_INTERVAL * (40 * COIN - 2 * s - if s == 0 then 1 else 0)
      + (height - e * HALVING_INTERVAL + 1) * s
  }

  lemma {:induction false} IssuedWithinBound(height: nat)
    requires height / HALVING_INTERVAL < 64
    ensures Issued(height) <= IssueBound(height)
  {
    if height > 0 {
      IssuedWithinBound(height - 1);
      var e := (height - 1) / HALVING_INTERVAL;
      HalvingHalves(e);
      var s := EpochSubsidy(e);
      if height / HALVING_INTERVAL == e + 1 {
        assert height == (e + 1) * HALVING_INTERVAL;
        assert Subsidy(height) == EpochSubsidy(e + 1);
      } else {
        assert height / HALVING_INTERVAL == e;
        Distribute(height - e * HALVING_INTERVAL, 1, s);
      }
    } else {
      assert Pow(2, 0) == 1;
    }
  }

  /** At no height has more been issued than MAX_MONEY allows. */
  lemma IssuedBelowMaxMoney(height: nat)
    requires height / HALVING_INTERVAL < 64
    ensures 0 <= Issued(height) < MAX_MONEY
  {
    IssuedWithinBound(height);
    var e := height / HALVING_INTERVAL;
    HalvingHalves(e);
    var s := EpochSubsidy(e);
    MulMono(height - e * HALVING_INTERVAL + 1, HALVING_INTERVAL, s);
    IssuedNotNegative(height);
  }

  lemma IssuedNotNegative(height: nat)
    requires height / HALVING_INTERVAL < 64
    ensures Issued(height) >= 0
  {
    if height > 0 {
      IssuedNotNegative(height - 1);
      HalvingHalves(height / HALVING_INTERVAL);
    }
  }

  // ----- no overflow while connecting -----

  const MAX_INT64: int := 0x7FFF_FFFF_FFFF_FFFF

  /**
   While a block connects on top of a set worth at most MAX_MONEY, the running fee total, including the addition that
   precedes the checks of the next transaction, stays well inside a signed 64-bit integer.
   */
  lemma FeesDoNotOverflow(rules: Rules, u: Utxo, block: Block, height: nat, k: nat)
    requires ValidUtxo(u) && height > 0 && CheckBlock(block) && Total(u) <= MAX_MONEY
    requires k < |block.vtx| && ConnectTxs(rules, u, block.vtx[..k], height).Some?
    requires HaveInputs(ConnectTxs(rules, u, block.vtx[..k], height).value.utxo, block.vtx[k])
    ensures var p := ConnectTxs(rules, u, block.vtx[..k], height).value;
            var tx := block.vtx[k];
            && 0 <= p.fees <= 2 * MAX_MONEY
            && -MAX_MONEY <= p.fees + ValueIn(p.utxo, tx) - ValueOut(tx) <= 2 * MAX_MONEY < MAX_INT64
  {
    hide ConnectTx;
    var prefix, tx := block.vtx[..k], block.vtx[k];
    ConnectTxsTotal(rules, u, prefix, height);
    ConnectTxsEffect(rules, u, prefix, height);
    var p := ConnectTxs(rules, u, prefix, height).value;
    TotalNotNegative(p.utxo);
    assert prefix != [] ==> CheckTransaction(prefix[0]);
    if !tx.IsCoinBase() {
      AvailableInputsCanBeSpent(p.utxo, tx.vin);
      SpendInputsTotal(p.utxo, tx.vin);
      SpendInputsEffect(p.utxo, tx.vin);
      TotalNotNegative(SpendInputs(p.utxo, tx.vin).value.utxo);
      SumInputsNotNegative(p.utxo, tx.vin);
    }
  }

  lemma SumInputsNotNegative(u: Utxo, vin: seq<OutPoint>)
    requires ValidUtxo(u)
    ensures SumInputs(u, vin) >= 0
  {
  }
}
