/** CreateNewBlock (src/main.cpp:4536-4790): the queue of candidates is emptied into a block behind a coinbase. */
module BlockTemplate {
  import opened Arith
  import opened Coins
  import opened Ledger
  import opened Template
  import LI = LedgerInverse
  import Supply
  import opened MemPool
  import TxMemPool
  import opened TemplateQueue
  import opened TemplateTurns

  const MAX_BLOCK_SIZE: nat := 1_000_000

  // ----- one transaction -----

  /** The body of the selection loop from the inputs on: the set afterwards, the fees and the signature operations. */
  method TryTx(rules: Rules, view: Utxo, tx: Tx, height: nat, sigOps: nat, legacy: nat, ghost p: Progress)
    returns (ok: bool, after: Utxo, fees: int, txSigOps: nat)
    requires ValidUtxo(view) && height > 0 && CheckTransaction(tx) && !tx.IsCoinBase()
    requires p.utxo == view && p.sigOps + 100 == sigOps && legacy == rules.engine.legacySigOps(tx)
    ensures ok <==> Fits(rules, view, tx, height, sigOps)
    ensures ok ==>
      && ConnectTx(Miner(rules), p, tx, height).Some? && sigOps + txSigOps < MAX_BLOCK_SIGOPS
      && var q := ConnectTx(Miner(rules), p, tx, height).value;
         q.utxo == after && ValidUtxo(after) && q.fees == p.fees + fees && q.sigOps == p.sigOps + txSigOps &&
           q.scriptsOk == p.scriptsOk
    ensures ok ==> fees == ValueIn(view, tx) - ValueOut(tx) && txSigOps == legacy + SumP2SH(rules, view, tx, |tx.vin|)
  {
    hide CheckAmounts, ScriptsOk, SumP2SH, ValidUtxo, SpendInputs, ValueIn, ValueOut, Put;
    ok, after, fees, txSigOps := false, view, 0, legacy;
    if !HaveInputs(view, tx) { return; }
    fees := ValueIn(view, tx) - ValueOut(tx);
    txSigOps := txSigOps + SumP2SH(rules, view, tx, |tx.vin|);
    if sigOps + txSigOps >= MAX_BLOCK_SIGOPS { return; }
    if !CheckAmounts(view, tx, height) || !ScriptsOk(Miner(rules), view, tx) { return; }
    LI.AvailableInputsCanBeSpent(view, tx.vin);
    after := Put(SpendInputs(view, tx.vin).value.utxo, tx.txid, CoinsOf(tx, height));
    ok := true;
    SameSigOps(rules, view, tx, |tx.vin|);
    LI.ConnectTxEffect(Miner(rules), p, tx, height);
  }

  lemma {:induction false} SameSigOps(rules: Rules, u: Utxo, tx: Tx, k: nat)
    requires k <= |tx.vin|
    ensures SumP2SH(Miner(rules), u, tx, k) == SumP2SH(rules, u, tx, k)
  {
    if k > 0 {
      SameSigOps(rules, u, tx, k - 1);
    }
  }

  // ----- the selection loop -----

  /** The transactions taken so far come from the pool, each once, and connect one after the other. */
  ghost predicate TakenOk(
      rules: Rules, u: Utxo, height: nat, pool: Txs, considered: set<Txid>, txs: seq<Tx>, p: Progress)
  {
    && (forall i :: 0 <= i < |txs| ==>
          txs[i].txid in pool && txs[i] == pool[txs[i].txid] && txs[i].txid in considered && !txs[i].IsCoinBase())
    && (forall i, j :: 0 <= i < j < |txs| ==> txs[i].txid != txs[j].txid)
    && ConnectTxs(Miner(rules), u, txs, height) == Some(p) && p.scriptsOk && p.sigOps + 100 < MAX_BLOCK_SIGOPS
    && ValidUtxo(p.utxo)
  }

  lemma TakeOne(
      rules: Rules, u: Utxo, height: nat, pool: Txs, considered: set<Txid>, txs: seq<Tx>, p: Progress, tx: Tx,
      q: Progress)
    requires TakenOk(rules, u, height, pool, considered, txs, p)
    requires tx.txid in pool && tx == pool[tx.txid] && tx.txid !in considered && !tx.IsCoinBase()
    requires ConnectTx(Miner(rules), p, tx, height) == Some(q)
    requires q.scriptsOk && q.sigOps + 100 < MAX_BLOCK_SIGOPS && ValidUtxo(q.utxo)
    ensures TakenOk(rules, u, height, pool, considered + {tx.txid}, txs + [tx], q)
    ensures Ids(txs + [tx]) == Ids(txs) + {tx.txid}
  {
    hide ConnectTx, ValidUtxo;
    var more := txs + [tx];
    assert more[..|more| - 1] == txs && more[|more| - 1] == tx;
    forall t ensures t in Ids(more) <==> t in Ids(txs) + {tx.txid} {
      if t in Ids(txs) {
        var i :| 0 <= i < |txs| && txs[i].txid == t;
        assert more[i].txid == t;
      }
      assert more[|txs|].txid == tx.txid;
    }
  }

  lemma ConsiderMore(
      rules: Rules, u: Utxo, height: nat, pool: Txs, considered: set<Txid>, txs: seq<Tx>, p: Progress, t: Txid)
    requires TakenOk(rules, u, height, pool, considered, txs, p)
    ensures TakenOk(rules, u, height, pool, considered + {t}, txs, p)
  {
  }

  /** What the pool must satisfy: valid transactions under their own ids that the chain does not have. */
  ghost predicate PoolOk(u: Utxo, pool: Txs)
  {
    Keyed(pool) && forall t :: t in pool ==> CheckTransaction(pool[t]) && t !in u
  }

  /** A transaction that was left waiting or given up depends on one that was not taken. */
  ghost predicate LeftWaiting(job: Job, txs: seq<Tx>, t: Txid)
    requires t in job.pool
  {
    exists parent :: parent in job.Parents(t) && parent !in Ids(txs)
  }

  /** Everything the selection loop does with what it finds, kept together. */
  datatype Selection = Selection(txs: seq<Tx>, feeList: seq<int>, sigOpList: seq<int>, fees: int, size: nat,
                                 sigOps: nat)

  ghost predicate Sums(setting: Setting, t: Selection)
  {
    && t.fees == Sum(t.feeList) && t.sigOps == 100 + Sum(t.sigOpList) && |t.feeList| == |t.sigOpList| == |t.txs|
    && t.size == 1000 + SumSizes(setting, t.txs) && t.size <= setting.maxSize
  }

  /** What can go wrong in memory: a read beyond the outputs of a transaction, or through a freed record. */
  datatype Mishap = NoMishap | BeyondOutputs | FreedRecord

  /**
   The selection loop.  It considers every candidate at most once, in order of priority and after the transactions it
   depends on, and takes those that fit.  An output that does not exist is read if and only if some transaction of the
   pool overruns; a freed record is met if and only if a transaction is taken with which a torn one was listed.
   */
  method SelectTransactions(rules: Rules, u: Utxo, height: nat, job: Job)
    returns (mishap: Mishap, t: Selection, ghost turns: seq<Turn>)
    requires ValidUtxo(u) && height > 0 && PoolOk(u, job.pool) && 1000 <= job.setting.maxSize
    requires u == TxMemPool.Live(job.known)
    ensures mishap.BeyondOutputs? <==> exists x :: job.Overruns(x)
    ensures mishap.FreedRecord? ==> exists x :: x in TurnIds(turns) && job.Tears(x)
    ensures mishap.NoMishap? ==> TearsNothing(job, t.txs)
    ensures mishap.NoMishap? ==> exists byFee :: Narrated(rules, u, height, job, turns, t.txs, byFee)
    ensures mishap.NoMishap? ==> forall x :: !Ready(job, t.txs, TurnIds(turns), x)
    ensures mishap.NoMishap? ==> Accounted(rules, u, height, t.txs, t.feeList, t.sigOpList)
    ensures mishap.NoMishap? ==>
              Selected(rules, u, height, t.txs, t.fees) && Sums(job.setting, t) && t.sigOps < MAX_BLOCK_SIGOPS
    ensures mishap.NoMishap? ==> Ids(t.txs) <= TurnIds(turns) <= job.EligibleIds()
    ensures mishap.NoMishap? ==>
              forall i :: 0 <= i < |t.txs| ==> t.txs[i].txid in job.pool && t.txs[i] == job.pool[t.txs[i].txid]
    ensures mishap.NoMishap? ==>
              forall x :: x in job.EligibleIds() && x !in TurnIds(turns) ==> LeftWaiting(job, t.txs, x)
  {
    hide QueueOk, WaitingOk, Partition, TakenOk, CheckTransaction, ConnectTx, Fits, ValidUtxo, Sum, SumSizes, Ids,
      PoolOk, Sums, Selected, Less, ConnectTxs, Keyed, Job.Candidates, Job.EligibleIds, Job.Tears, Job.Overruns,
      Job.CandidateOf, NamesFreed, Narrated, TurnOk, Accounted, TurnIds, Ready, Takes, Switches;
    PoolOkMeans(u, job.pool);
    t, turns := Selection([], [], [], 0, 1000, 100), [];
    ghost var considered: set<Txid> := {};
    var beyond, w := Collect(job);
    if beyond {
      return BeyondOutputs, t, turns;
    }
    var view := u;
    var byFee := job.setting.prioritySize <= 0;
    ghost var p := Progress(u, [], 0, 0, true);
    Started(rules, u, height, job);
    while w.queue != []
      invariant QueueOk(job, w.queue) && WaitingOk(job, w, Ids(t.txs))
      invariant Partition(job, w.queue, w.orphans, considered)
      invariant TakenOk(rules, u, height, job.pool, considered, t.txs, p) && TearsNothing(job, t.txs)
      invariant p.utxo == view && p.fees == t.fees && p.sigOps + 100 == t.sigOps && Sums(job.setting, t)
      invariant Narrated(rules, u, height, job, turns, t.txs, byFee) && considered == TurnIds(turns)
      invariant Accounted(rules, u, height, t.txs, t.feeList, t.sigOpList)
      decreases |job.Candidates() - considered|
    {
      var best, rest, at := PopHighest(w.queue, byFee);
      BestIsReady(job, w, considered, t.txs, at, byFee);
      Popped(job, w.queue, at, rest, w.orphans, considered);
      StillWaiting(job, w, w.(queue := rest), Ids(t.txs));
      w := w.(queue := rest);
      var tx := best.tx;
      CandidateFacts(job, tx.txid);
      ghost var turn := TurnAt(rules, u, height, job, t.txs, byFee, tx.txid);
      TurnIs(rules, u, height, job, considered, t, p, byFee, tx.txid);
      NextTurn(rules, u, height, job, turns, t.txs, byFee, turn);
      turns := turns + [turn];
      ghost var before := considered;
      considered := considered + {tx.txid};
      Fewer(job.Candidates(), before, tx.txid);
      ConsiderMore(rules, u, height, job.pool, before, t.txs, p, tx.txid);
      var txSize := job.setting.size(tx);
      if t.size + txSize >= job.setting.maxSize { continue; }
      var legacy := rules.engine.legacySigOps(tx);
      if t.sigOps + legacy >= MAX_BLOCK_SIGOPS { continue; }
      if byFee && best.feePerKb < job.setting.minTxFee && t.size + txSize >= job.setting.minSize { continue; }
      if !byFee && (t.size + txSize >= job.setting.prioritySize || best.priority < (COIN * 144 / 250) as real) {
        byFee := true;
      }
      ViewIsValid(rules, u, height, job.pool, before, t.txs, p);
      var ok, after, txFees, txSigOps := TryTx(rules, view, tx, height, t.sigOps, legacy, p);
      if !ok { continue; }
      ghost var q := ConnectTx(Miner(rules), p, tx, height).value;
      TakeOne(rules, u, height, job.pool, before, t.txs, p, tx, q);
      NamesFreedMeans(job, w, Ids(t.txs), tx.txid);
      var freed;
      freed, w := Release(job, w, tx.txid, considered, Ids(t.txs));
      if freed {
        return FreedRecord, t, turns;
      }
      SumsMore(job.setting, t, tx, txFees, txSize, txSigOps);
      StandsAt(rules, u, height, job.pool, before, t.txs, p);
      AccountsMore(rules, u, height, t.txs, t.feeList, t.sigOpList, tx, txFees, txSigOps);
      view, p := after, q;
      t := Selection(t.txs + [tx], t.feeList + [txFees], t.sigOpList + [txSigOps],
                     t.fees + txFees, t.size + txSize, t.sigOps + txSigOps);
    }
    AllSelected(rules, u, height, job.pool, considered, t.txs, p);
    Finished(job, w, considered, t.txs);
    NothingReady(job, w, considered, t.txs);
    mishap := NoMishap;
  }

  /** The candidate at the head of the queue is ready, and so is everything that it was chosen from. */
  lemma BestIsReady(job: Job, w: Work, considered: set<Txid>, txs: seq<Tx>, at: nat, byFee: bool)
    requires QueueOk(job, w.queue) && WaitingOk(job, w, Ids(txs)) && Partition(job, w.queue, w.orphans, considered)
    requires at < |w.queue| && forall c :: c in w.queue ==> !Less(w.queue[at], c, byFee)
    ensures var id := w.queue[at].tx.txid;
            && id in job.pool && w.queue[at] == job.CandidateOf(id) && Ready(job, txs, considered, id)
            && forall x :: Ready(job, txs, considered, x) ==> !Less(w.queue[at], job.CandidateOf(x), byFee)
  {
    hide Less, Job.CandidateOf;
    forall x ensures Ready(job, txs, considered, x) <==> Queued(w.queue, x) {
      ReadyIff(job, w, considered, txs, x);
    }
    forall x | Ready(job, txs, considered, x) ensures !Less(w.queue[at], job.CandidateOf(x), byFee) {
      var i :| 0 <= i < |w.queue| && w.queue[i].tx.txid == x;
      assert w.queue[i] in w.queue;
    }
    assert Queued(w.queue, w.queue[at].tx.txid);
  }

  /** What is queued is what is ready. */
  lemma ReadyIff(job: Job, w: Work, considered: set<Txid>, txs: seq<Tx>, x: Txid)
    requires QueueOk(job, w.queue) && WaitingOk(job, w, Ids(txs)) && Partition(job, w.queue, w.orphans, considered)
    ensures Ready(job, txs, considered, x) <==> Queued(w.queue, x)
  {
    hide Job.CandidateOf, Ids, Job.Parents;
    if x in job.Candidates() && x in w.orphans {
      assert w.orphans[x].dependsOn == job.Parents(x) - Ids(txs);
      NothingLeft(job.Parents(x), Ids(txs));
    }
  }

  lemma NothingLeft(a: set<Txid>, b: set<Txid>)
    ensures a - b == {} <==> a <= b
  {
    forall x | x in a && x !in b ensures a - b != {} {
      assert x in a - b;
    }
  }

  lemma NothingReady(job: Job, w: Work, considered: set<Txid>, txs: seq<Tx>)
    requires QueueOk(job, w.queue) && WaitingOk(job, w, Ids(txs)) && Partition(job, w.queue, w.orphans, considered)
    requires w.queue == []
    ensures forall x :: !Ready(job, txs, considered, x)
  {
    forall x ensures !Ready(job, txs, considered, x) {
      ReadyIff(job, w, considered, txs, x);
    }
  }

  /** The turn that is due. */
  ghost function TurnAt(rules: Rules, u: Utxo, height: nat, job: Job, txs: seq<Tx>, byFee: bool, id: Txid): Turn
    requires id in job.pool
  {
    Turn(id, |txs|, byFee, Switches(rules, u, height, job, txs, byFee, id),
         Takes(rules, u, height, job, txs, byFee, id))
  }

  lemma StandsAt(
      rules: Rules, u: Utxo, height: nat, pool: Txs, considered: set<Txid>, txs: seq<Tx>, p: Progress)
    requires TakenOk(rules, u, height, pool, considered, txs, p)
    ensures Standing(rules, u, height, txs) == p
  {
  }

  /** What the sums of the loop say about the turn. */
  lemma TurnIs(
      rules: Rules, u: Utxo, height: nat, job: Job, considered: set<Txid>, t: Selection, p: Progress, byFee: bool,
      id: Txid)
    requires TakenOk(rules, u, height, job.pool, considered, t.txs, p) && Sums(job.setting, t)
    requires t.sigOps == p.sigOps + 100 && id in job.pool
    requires Ready(job, t.txs, considered, id)
    requires forall x :: Ready(job, t.txs, considered, x) ==> !Less(job.CandidateOf(id), job.CandidateOf(x), byFee)
    ensures var turn, tx, c := TurnAt(rules, u, height, job, t.txs, byFee, id), job.pool[id], job.CandidateOf(id);
            var size := t.size + job.setting.size(tx);
            && TurnOk(rules, u, height, job, t.txs, considered, turn)
            && turn.byFee == byFee && turn.id == id
            && (turn.taken <==>
                 && size < job.setting.maxSize
                 && !(byFee && c.feePerKb < job.setting.minTxFee && size >= job.setting.minSize)
                 && Fits(rules, p.utxo, tx, height, t.sigOps))
            && (turn.taken ==> t.sigOps + rules.engine.legacySigOps(tx) < MAX_BLOCK_SIGOPS)
            && (turn.switches <==>
                 && !byFee && size < job.setting.maxSize
                 && t.sigOps + rules.engine.legacySigOps(tx) < MAX_BLOCK_SIGOPS
                 && (size >= job.setting.prioritySize || c.priority < (COIN * 144 / 250) as real))
  {
    hide Less, Job.CandidateOf, Ready, Ids, HaveInputs, CheckAmounts, ScriptsOk, SumP2SH;
    StandsAt(rules, u, height, job.pool, considered, t.txs, p);
  }

  ghost predicate TearsNothing(job: Job, txs: seq<Tx>)
  {
    forall i :: 0 <= i < |txs| ==> !job.Tears(txs[i].txid)
  }

  lemma PoolOkMeans(u: Utxo, pool: Txs)
    requires PoolOk(u, pool)
    ensures Keyed(pool) && forall t :: t in pool ==> CheckTransaction(pool[t])
  {
  }

  lemma Started(rules: Rules, u: Utxo, height: nat, job: Job)
    requires ValidUtxo(u) && 1000 <= job.setting.maxSize
    ensures TakenOk(rules, u, height, job.pool, {}, [], Progress(u, [], 0, 0, true))
    ensures Ids([]) == {} && Sums(job.setting, Selection([], [], [], 0, 1000, 100))
    ensures Narrated(rules, u, height, job, [], [], job.setting.prioritySize <= 0) && TurnIds([]) == {}
    ensures Accounted(rules, u, height, [], [], [])
  {
  }

  lemma AllSelected(
      rules: Rules, u: Utxo, height: nat, pool: Txs, considered: set<Txid>, txs: seq<Tx>, p: Progress)
    requires PoolOk(u, pool) && TakenOk(rules, u, height, pool, considered, txs, p)
    ensures Selected(rules, u, height, txs, p.fees) && Ids(txs) <= considered && p.sigOps + 100 < MAX_BLOCK_SIGOPS
    ensures forall i :: 0 <= i < |txs| ==> txs[i].txid in pool && txs[i] == pool[txs[i].txid]
  {
    hide ConnectTxs, CheckTransaction;
  }

  lemma CandidateFacts(job: Job, t: Txid)
    requires t in job.Candidates()
    ensures t in job.pool && !job.pool[t].IsCoinBase() && job.CandidateOf(t).tx == job.pool[t]
  {
  }

  /** What waits does not depend on the queue. */
  lemma StillWaiting(job: Job, w: Work, v: Work, taken: set<Txid>)
    requires WaitingOk(job, w, taken) && v.orphans == w.orphans && v.dependers == w.dependers
    ensures WaitingOk(job, v, taken)
  {
    assert forall p, o :: v.Lists(p, o) <==> w.Lists(p, o);
  }

  lemma ViewIsValid(rules: Rules, u: Utxo, height: nat, pool: Txs, considered: set<Txid>, txs: seq<Tx>, p: Progress)
    requires TakenOk(rules, u, height, pool, considered, txs, p)
    ensures ValidUtxo(p.utxo) && p.scriptsOk
  {
  }

  lemma Fewer(all: set<Txid>, some: set<Txid>, t: Txid)
    requires t in all && t !in some
    ensures |all - (some + {t})| < |all - some|
  {
    assert all - some == (all - (some + {t})) + {t};
  }

  lemma SumsMore(setting: Setting, t: Selection, tx: Tx, fees: int, size: nat, sigOps: nat)
    requires Sums(setting, t) && size == setting.size(tx) && t.size + size <= setting.maxSize
    ensures Sums(setting, Selection(t.txs + [tx], t.feeList + [fees], t.sigOpList + [sigOps],
                                    t.fees + fees, t.size + size, t.sigOps + sigOps))
  {
    assert (t.txs + [tx])[..|t.txs|] == t.txs;
    assert (t.feeList + [fees])[..|t.feeList|] == t.feeList;
    assert (t.sigOpList + [sigOps])[..|t.sigOpList|] == t.sigOpList;
  }

  lemma Finished(job: Job, w: Work, considered: set<Txid>, txs: seq<Tx>)
    requires WaitingOk(job, w, Ids(txs)) && Partition(job, [], w.orphans, considered) && Ids(txs) <= considered
    ensures considered <= job.EligibleIds()
    ensures forall x :: x in job.EligibleIds() && x !in considered ==> LeftWaiting(job, txs, x)
  {
    forall x | x in job.EligibleIds() && x !in considered ensures LeftWaiting(job, txs, x) {
      if job.Whole(x) {
        assert x in job.Candidates() && !Queued([], x);
        var parent :| parent in w.orphans[x].dependsOn;
        assert parent in job.Parents(x) && parent !in Ids(txs);
      } else {
        var i :| 0 <= i < |job.pool[x].vin| && job.Missing(x, i);
        assert job.pool[x].vin[i].hash in job.Parents(x) && job.pool[x].vin[i].hash !in Ids(txs);
      }
    }
  }

  // ----- the template -----

  lemma {:induction false} OnlyTheseAdded(rules: Rules, u: Utxo, txs: seq<Tx>, height: nat)
    requires ConnectTxs(rules, u, txs, height).Some? && forall i :: 0 <= i < |txs| ==> !txs[i].IsCoinBase()
    ensures ConnectTxs(rules, u, txs, height).value.utxo.Keys <= u.Keys + Ids(txs)
  {
    if txs != [] {
      var n := |txs| - 1;
      OnlyTheseAdded(rules, u, txs[..n], height);
      SpendAddsNothing(ConnectTxs(rules, u, txs[..n], height).value.utxo, txs[n].vin);
      assert forall t :: t in Ids(txs[..n]) ==> t in Ids(txs);
      assert txs[n].txid in Ids(txs);
    }
  }

  lemma HadInputs(rules: Rules, p: Progress, tx: Tx, height: nat)
    requires ConnectTx(rules, p, tx, height).Some?
    ensures HaveInputs(p.utxo, tx)
  {
  }

  /** Every transaction of the template comes after those of the template whose outputs it spends. */
  lemma ParentsFirst(rules: Rules, u: Utxo, height: nat, txs: seq<Tx>, fees: int, i: nat, k: nat)
    requires Selected(rules, u, height, txs, fees) && i < |txs| && k < |txs[i].vin|
    ensures txs[i].vin[k].hash in u || exists j :: 0 <= j < i && txs[j].txid == txs[i].vin[k].hash
  {
    hide ConnectTx, Miner, CheckTransaction;
    var miner := Miner(rules);
    LI.PrefixConnects(miner, u, txs, height, i + 1);
    assert txs[..i + 1][..i] == txs[..i];
    LI.PrefixConnects(miner, u, txs, height, i);
    OnlyTheseAdded(miner, u, txs[..i], height);
    var view := ConnectTxs(miner, u, txs[..i], height).value.utxo;
    HadInputs(miner, ConnectTxs(miner, u, txs[..i], height).value, txs[i], height);
    assert Unspent(view, txs[i].vin[k]);
    if txs[i].vin[k].hash !in u {
      assert txs[i].vin[k].hash in Ids(txs[..i]);
    }
  }

  const MAX_BLOCK_SIZE_GEN: nat := 500_000

  /** The size limits as the builder uses them: at least 1000, at most 1000 below the largest block. */
  function Bounded(setting: Setting, early: bool): Setting
  {
    var wanted := Max(1000, Min(MAX_BLOCK_SIZE - 1000, setting.maxSize));
    var most := if early then Min(wanted, MAX_BLOCK_SIZE_GEN) else wanted;
    setting.(maxSize := most, prioritySize := Min(most, setting.prioritySize), minSize := Min(most, setting.minSize))
  }

  /**
   Whatever was asked for, the block is to have between 1000 and 999000 bytes, 500000 before the date of the rule, and
   the parts for high priorities and for free transactions are not larger than that; within these limits the settings
   are what was asked for.
   */
  lemma BoundedIs(setting: Setting, early: bool)
    ensures var b := Bounded(setting, early);
            && 1000 <= b.maxSize <= (if early then 500_000 else 999_000)
            && (1000 <= setting.maxSize <= (if early then 500_000 else 999_000) ==> b.maxSize == setting.maxSize)
            && (setting.maxSize < 1000 ==> b.maxSize == 1000)
            && (setting.maxSize > (if early then 500_000 else 999_000) ==>
                 b.maxSize == if early then 500_000 else 999_000)
            && b.prioritySize == (if setting.prioritySize <= b.maxSize then setting.prioritySize else b.maxSize)
            && b.minSize == (if setting.minSize <= b.maxSize then setting.minSize else b.maxSize)
            && b.minTxFee == setting.minTxFee && b.size == setting.size && b.final == setting.final
            && b.height == setting.height
  {
  }

  /** The job with the limits as the builder uses them. */
  ghost function Limited(asked: Job, early: bool): Job { asked.(setting := Bounded(asked.setting, early)) }

  /** What CreateNewBlock promises of a finished template; fees[0] is what the coinbase takes. */
  ghost predicate Made(
      rules: Rules, u: Utxo, height: nat, asked: Job, early: bool, coinbase: Tx, block: Block, fees: seq<int>,
      sigOps: seq<int>, size: nat, turns: seq<Turn>)
    requires height / HALVING_INTERVAL < 64
  {
    && block.vtx != [] && block.vtx[0] == coinbase && |fees| == |block.vtx| && fees[0] == -Sum(fees[1..])
    && CheckBlock(block) && ConnectBlock(rules, u, block, height).Some?
    && ConnectBlock(rules, u, block, height).value.fees == Sum(fees[1..])
    && size == 1000 + SumSizes(asked.setting, block.vtx[1..]) <= MAX_BLOCK_SIZE - 1000
    && |sigOps| == |block.vtx| && sigOps[0] == rules.engine.legacySigOps(coinbase)
    && Accounted(rules, u, height, block.vtx[1..], fees[1..], sigOps[1..])
    && Ids(block.vtx[1..]) <= TurnIds(turns) <= asked.EligibleIds() && TearsNothing(asked, block.vtx[1..])
    && (exists byFee :: Narrated(rules, u, height, Limited(asked, early), turns, block.vtx[1..], byFee))
    && (forall t :: !Ready(Limited(asked, early), block.vtx[1..], TurnIds(turns), t))
    && forall t :: t in asked.EligibleIds() && t !in TurnIds(turns) ==> LeftWaiting(asked, block.vtx[1..], t)
  }

  /**
   CreateNewBlock: a coinbase that pays the subsidy and the selected fees, and behind it the selection.  Unless a
   transaction in the pool overruns, or one was taken with which a torn one was listed, the last check, connecting the
   block to the current set, passes.
   */
  method CreateNewBlock(
      rules: Rules, u: Utxo, height: nat, asked: Job, early: bool, coinbaseId: Txid, version: int, script: Script)
    returns (mishap: Mishap, block: Block, fees: seq<int>, sigOps: seq<int>, size: nat, connects: bool,
             ghost turns: seq<Turn>)
    requires ValidUtxo(u) && height > 0 && height / HALVING_INTERVAL < 64
    requires Supply.Total(u) <= Supply.Issued(height - 1)
    requires u == TxMemPool.Live(asked.known) && PoolOk(u, asked.pool) && rules.strictP2SH
    requires coinbaseId !in u && coinbaseId !in asked.pool
    requires forall total :: rules.engine.legacySigOps(CoinbaseFor(coinbaseId, version, script, height, total)) <= 100
    ensures mishap.BeyondOutputs? <==> exists t :: asked.Overruns(t)
    ensures mishap.FreedRecord? ==> exists t :: t in TurnIds(turns) && asked.Tears(t)
    ensures mishap.NoMishap? ==> connects && fees != []
    ensures mishap.NoMishap? ==>
      Made(rules, u, height, asked, early, CoinbaseFor(coinbaseId, version, script, height, Sum(fees[1..])), block,
           fees, sigOps, size, turns)
  {
    hide Selected, PoolOk, ConnectBlock, CheckBlock, Sum, SumSizes, Ids, CoinbaseFor, ValidUtxo, Job.EligibleIds,
      Job.Tears, Job.Overruns, LeftWaiting, Narrated, Accounted, TurnIds, Ready;
    var job := asked.(setting := Bounded(asked.setting, early));
    SameJob(asked, job);
    var t;
    mishap, t, turns := SelectTransactions(rules, u, height, job);
    block, fees, sigOps, size, connects := Block([]), [], [], 0, false;
    if mishap != NoMishap {
      return;
    }
    var coinbase := CoinbaseFor(coinbaseId, version, script, height, t.fees);
    block := Block([coinbase] + t.txs);
    fees := [-t.fees] + t.feeList;
    sigOps := [rules.engine.legacySigOps(coinbase)] + t.sigOpList;
    size := t.size;
    assert block.vtx[1..] == t.txs && fees[1..] == t.feeList && sigOps[1..] == t.sigOpList;
    SameSizes(asked.setting, job.setting, t.txs);
    CoinbaseIs(coinbaseId, version, script, height, t.fees);
    TemplateConnects(rules, u, height, t.txs, t.fees, coinbase, script);
    connects := ConnectBlock(rules, u, block, height).Some?;
    assert job == Limited(asked, early);
    assert exists byFee :: Narrated(rules, u, height, job, turns, block.vtx[1..], byFee);
  }

  lemma CoinbaseIs(txid: Txid, version: int, script: Script, height: nat, fees: int)
    requires height / HALVING_INTERVAL < 64
    ensures var coinbase := CoinbaseFor(txid, version, script, height, fees);
            coinbase.txid == txid && coinbase.version == version
  {
  }

  lemma {:induction false} SameSizes(a: Setting, b: Setting, txs: seq<Tx>)
    requires a.size == b.size
    ensures SumSizes(a, txs) == SumSizes(b, txs)
  {
    if txs != [] {
      SameSizes(a, b, txs[..|txs| - 1]);
    }
  }

  /** The limits do not decide who is eligible, waits, overruns or is torn. */
  lemma SameJob(a: Job, b: Job)
    requires a.pool == b.pool && a.known == b.known && a.setting.final == b.setting.final
    ensures a.EligibleIds() == b.EligibleIds() <= a.pool.Keys
    ensures forall t :: a.Tears(t) <==> b.Tears(t)
    ensures forall t :: a.Overruns(t) <==> b.Overruns(t)
    ensures forall txs, t :: t in a.pool ==> (LeftWaiting(a, txs, t) <==> LeftWaiting(b, txs, t))
  {
    forall t ensures a.Tears(t) <==> b.Tears(t) {
      if a.Tears(t) {
        SameTears(a, b, t);
      }
      if b.Tears(t) {
        SameTears(b, a, t);
      }
    }
    forall t ensures a.Overruns(t) <==> b.Overruns(t) {
      if a.Overruns(t) {
        SameOverrun(a, b, t);
      }
      if b.Overruns(t) {
        SameOverrun(b, a, t);
      }
    }
    forall txs, t | t in a.pool ensures LeftWaiting(a, txs, t) <==> LeftWaiting(b, txs, t) {
      assert a.Parents(t) == b.Parents(t);
    }
  }

  lemma SameTears(a: Job, b: Job, p: Txid)
    requires a.pool == b.pool && a.known == b.known && a.setting.final == b.setting.final && a.Tears(p)
    ensures b.Tears(p)
  {
    var t :| a.Torn(t) && a.Listed(t, p);
    SameTorn(a, b, t);
    var i: nat :| i < |a.pool[t].vin| && a.pool[t].vin[i].hash == p && a.WholeUpTo(t, i);
    assert b.WholeUpTo(t, i) by {
      forall j | 0 <= j < i ensures !b.Missing(t, j) {
        assert !a.Missing(t, j);
      }
    }
  }

  lemma SameOverrun(a: Job, b: Job, t: Txid)
    requires a.pool == b.pool && a.known == b.known && a.setting.final == b.setting.final && a.Overruns(t)
    ensures b.Overruns(t)
  {
    var i: nat :| i < |a.pool[t].vin| && a.OverrunsAt(t, i);
    assert b.OverrunsAt(t, i) by {
      forall j | 0 <= j < i ensures !b.Missing(t, j) {
        assert !a.Missing(t, j);
      }
    }
  }

  lemma SameTorn(a: Job, b: Job, t: Txid)
    requires a.pool == b.pool && a.known == b.known && a.setting.final == b.setting.final && a.Torn(t)
    ensures b.Torn(t)
  {
    var k :| 0 <= k < |a.pool[t].vin| && a.Missing(t, k);
    assert b.Missing(t, k);
    var i: nat :| i < |a.pool[t].vin| && a.pool[t].vin[i].hash !in a.known && a.pool[t].vin[i].hash in a.pool &&
      a.WholeUpTo(t, i);
    assert b.WholeUpTo(t, i) by {
      forall j | 0 <= j < i ensures !b.Missing(t, j) {
        assert !a.Missing(t, j);
      }
    }
  }

  // ----- the pool is fit for the builder -----

  lemma AcceptKeepsPoolOk(u: Utxo, pool: Txs, next: Index, tx: Tx, policy: TxMemPool.Policy)
    requires PoolOk(u, pool) && policy.checkInputs && TxMemPool.Acceptable(u, pool, next, tx, policy)
    ensures PoolOk(u, pool[tx.txid := tx])
  {
  }

  /** Following a block that extends the chain leaves no transaction in the pool that the chain now has. */
  lemma BlockKeepsPoolOk(w: TxMemPool.World, rules: Rules, u: Utxo, block: Block, height: nat, pool: Txs)
    requires ValidUtxo(u) && height > 0 && height / HALVING_INTERVAL < 64 && CheckBlock(block)
    requires ConnectBlock(rules, u, block, height).Some?
    requires Ranked(w.rank, pool) && PoolOk(u, pool)
    ensures PoolOk(ConnectBlock(rules, u, block, height).value.utxo, TxMemPool.ConfirmAll(w.rank, pool, block.vtx))
  {
    hide CheckTransaction, ConnectTxs, TxMemPool.ConfirmAll;
    var kept := TxMemPool.ConfirmAll(w.rank, pool, block.vtx);
    LI.ConnectTxsEffect(rules, u, block.vtx, height);
    TxMemPool.ConfirmAllLeavesNoConflict(w.rank, pool, block.vtx);
    forall t | t in kept ensures t !in LI.Txids(block.vtx) {
      forall k | 0 <= k < |block.vtx| ensures block.vtx[k].txid != t {
        assert TxMemPool.NoConflict(kept, block.vtx[k]);
      }
    }
  }
}
