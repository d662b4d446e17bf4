/**
 The turns of the selection loop of CreateNewBlock (src/main.cpp:4668-4766): which candidate is looked at when, why it
 is taken or passed over, and when the order changes from priorities to fees.  Everything that happens at a turn follows
 from the transactions taken and the candidates looked at before.
 */
module TemplateTurns {
  import opened Arith
  import opened Coins
  import opened Ledger
  import opened Template
  import opened MemPool
  import opened TemplateQueue
  import Textbook

  ghost function Ids(txs: seq<Tx>): set<Txid> { set i | 0 <= i < |txs| :: txs[i].txid }

  function SumSizes(setting: Setting, txs: seq<Tx>): nat
  {
    if txs == [] then 0 else SumSizes(setting, txs[..|txs| - 1]) + setting.size(txs[|txs| - 1])
  }

  /** Everything but size and fee that a transaction must satisfy to be taken next. */
  predicate Fits(rules: Rules, view: Utxo, tx: Tx, height: nat, sigOps: nat)
  {
    && HaveInputs(view, tx) && CheckAmounts(view, tx, height) && ScriptsOk(Miner(rules), view, tx)
    && sigOps + rules.engine.legacySigOps(tx) + SumP2SH(rules, view, tx, |tx.vin|) < MAX_BLOCK_SIGOPS
  }

  /** In terms of single outputs: what is spent is there, ripe, signed for and enough, and the operations are few. */
  lemma FitsMeans(rules: Rules, view: Utxo, tx: Tx, height: nat, sigOps: nat)
    requires CheckTransaction(tx) && !tx.IsCoinBase()
    ensures var b := Textbook.Outputs(view);
            Fits(rules, view, tx, height, sigOps) <==>
              && Textbook.SpenderOk(b, tx, height)
              && (forall i :: 0 <= i < |tx.vin| ==> rules.engine.verify(tx, i, Textbook.OutAt(b, tx.vin[i])))
              && sigOps + rules.engine.legacySigOps(tx) + Sum(Textbook.Hidden(rules, b, tx, |tx.vin|)) < 20_000
  {
    Textbook.AmountsIff(view, tx, height);
    Textbook.SignedIff(Miner(rules), view, tx);
    Textbook.HiddenSum(rules, view, tx, |tx.vin|);
  }

  /** What a pool holds: valid transactions under their own ids. */
  ghost predicate Valid(pool: map<Txid, Tx>)
  {
    forall t :: t in pool ==> pool[t].txid == t && CheckTransaction(pool[t])
  }

  // ----- one turn -----

  /** before: how many transactions had been taken; byFee: the order in force; switches: whether the turn changes it. */
  datatype Turn = Turn(id: Txid, before: nat, byFee: bool, switches: bool, taken: bool)

  ghost function TurnIds(turns: seq<Turn>): set<Txid> { set j | 0 <= j < |turns| :: turns[j].id }

  /** The set and the sums after some transactions. */
  ghost function Standing(rules: Rules, u: Utxo, height: nat, txs: seq<Tx>): Progress
  {
    match ConnectTxs(Miner(rules), u, txs, height) case Some(p) => p case None => Progress(u, [], 0, 0, false)
  }

  /** Candidates that spend only what the chain or the block has, and that have not been looked at. */
  ghost predicate Ready(job: Job, txs: seq<Tx>, seen: set<Txid>, x: Txid)
  {
    x in job.Candidates() && job.Parents(x) <= Ids(txs) && x !in seen
  }

  predicate TooLarge(job: Job, txs: seq<Tx>, tx: Tx)
  {
    1000 + SumSizes(job.setting, txs) + job.setting.size(tx) >= job.setting.maxSize
  }

  /** A transaction that pays too little for a block that is not in want of any. */
  predicate TooCheap(job: Job, txs: seq<Tx>, tx: Tx, feePerKb: real)
  {
    feePerKb < job.setting.minTxFee
    && 1000 + SumSizes(job.setting, txs) + job.setting.size(tx) >= job.setting.minSize
  }

  /** The block is past the part for high priorities, or this one is not high: one coin a day old in 250 bytes. */
  predicate PastPriorities(job: Job, txs: seq<Tx>, tx: Tx, priority: real)
  {
    || 1000 + SumSizes(job.setting, txs) + job.setting.size(tx) >= job.setting.prioritySize
    || priority < 57_600_000.0
  }

  /** A transaction in its place after txs is taken if and only if none of four reasons is against it. */
  ghost predicate Takes(rules: Rules, u: Utxo, height: nat, job: Job, txs: seq<Tx>, byFee: bool, id: Txid)
    requires id in job.pool
  {
    var tx, p := job.pool[id], Standing(rules, u, height, txs);
    && !TooLarge(job, txs, tx)
    && !(byFee && TooCheap(job, txs, tx, job.CandidateOf(id).feePerKb))
    && Fits(rules, p.utxo, tx, height, 100 + p.sigOps)
  }

  ghost predicate Switches(rules: Rules, u: Utxo, height: nat, job: Job, txs: seq<Tx>, byFee: bool, id: Txid)
    requires id in job.pool
  {
    var tx, p := job.pool[id], Standing(rules, u, height, txs);
    && !byFee && !TooLarge(job, txs, tx) && 100 + p.sigOps + rules.engine.legacySigOps(tx) < 20_000
    && PastPriorities(job, txs, tx, job.CandidateOf(id).priority)
  }

  /** A turn as the rules have it: nothing that is ready exceeds what it looks at. */
  ghost predicate TurnOk(
      rules: Rules, u: Utxo, height: nat, job: Job, txs: seq<Tx>, seen: set<Txid>, turn: Turn)
  {
    && turn.id in job.pool && turn.before == |txs|
    && Ready(job, txs, seen, turn.id)
    && (forall x :: Ready(job, txs, seen, x) ==> !Less(job.CandidateOf(turn.id), job.CandidateOf(x), turn.byFee))
    && (turn.taken <==> Takes(rules, u, height, job, txs, turn.byFee, turn.id))
    && (turn.switches <==> Switches(rules, u, height, job, txs, turn.byFee, turn.id))
  }

  // ----- all turns -----

  /** The turns so far took exactly txs, in this order, and leave this order of candidates in force. */
  ghost predicate Narrated(
      rules: Rules, u: Utxo, height: nat, job: Job, turns: seq<Turn>, txs: seq<Tx>, byFee: bool)
  {
    if turns == [] then txs == [] && (byFee <==> job.setting.prioritySize <= 0)
    else
      var rest, last := turns[..|turns| - 1], turns[|turns| - 1];
      && last.before <= |txs| && last.id in job.pool
      && Narrated(rules, u, height, job, rest, txs[..last.before], last.byFee)
      && TurnOk(rules, u, height, job, txs[..last.before], TurnIds(rest), last)
      && txs == txs[..last.before] + (if last.taken then [job.pool[last.id]] else [])
      && (byFee <==> last.byFee || last.switches)
  }

  /** One more turn. */
  lemma NextTurn(
      rules: Rules, u: Utxo, height: nat, job: Job, turns: seq<Turn>, txs: seq<Tx>, byFee: bool, turn: Turn)
    requires Narrated(rules, u, height, job, turns, txs, byFee) && turn.byFee == byFee
    requires TurnOk(rules, u, height, job, txs, TurnIds(turns), turn)
    ensures var more := if turn.taken then txs + [job.pool[turn.id]] else txs;
            Narrated(rules, u, height, job, turns + [turn], more, byFee || turn.switches)
    ensures TurnIds(turns + [turn]) == TurnIds(turns) + {turn.id}
  {
    hide TurnOk, TurnIds;
    TurnMeans(rules, u, height, job, txs, TurnIds(turns), turn);
    IdsOfMore(turns, turn);
    var more := if turn.taken then txs + [job.pool[turn.id]] else txs;
    assert (turns + [turn])[..|turns|] == turns && more[..turn.before] == txs;
  }

  lemma IdsOfMore(turns: seq<Turn>, turn: Turn)
    ensures TurnIds(turns + [turn]) == TurnIds(turns) + {turn.id}
  {
    forall x ensures x in TurnIds(turns + [turn]) <==> x in TurnIds(turns) + {turn.id} {
      if x in TurnIds(turns) {
        var j :| 0 <= j < |turns| && turns[j].id == x;
        assert (turns + [turn])[j].id == x;
      }
      assert (turns + [turn])[|turns|].id == turn.id;
    }
  }

  lemma TurnMeans(rules: Rules, u: Utxo, height: nat, job: Job, txs: seq<Tx>, seen: set<Txid>, turn: Turn)
    requires TurnOk(rules, u, height, job, txs, seen, turn)
    ensures turn.id in job.pool && turn.before == |txs| && !job.pool[turn.id].IsCoinBase()
    ensures turn.taken <==> Takes(rules, u, height, job, txs, turn.byFee, turn.id)
  {
    hide Takes, Switches;
  }

  /** Every turn is one that the rules have, after the turns before it. */
  lemma {:induction false} EveryTurn(
      rules: Rules, u: Utxo, height: nat, job: Job, turns: seq<Turn>, txs: seq<Tx>, byFee: bool, j: nat)
    requires Narrated(rules, u, height, job, turns, txs, byFee) && j < |turns|
    ensures var turn := turns[j];
            && turn.before <= |txs| && turn.id in job.pool
            && Narrated(rules, u, height, job, turns[..j], txs[..turn.before], turn.byFee)
            && TurnOk(rules, u, height, job, txs[..turn.before], TurnIds(turns[..j]), turn)
            && (turn.taken ==> turn.before < |txs| && txs[turn.before] == job.pool[turn.id])
  {
    hide TurnOk;
    var n := |turns| - 1;
    if j < n {
      var before := turns[n].before;
      EveryTurn(rules, u, height, job, turns[..n], txs[..before], turns[n].byFee, j);
      assert turns[..n][..j] == turns[..j] && txs[..before][..turns[j].before] == txs[..turns[j].before];
    }
  }

  /**
   A turn takes its transaction if and only if size and signature operations stay below their limits, in order of fees
   the fee is not too low for a block that is large enough, and inputs, amounts and scripts pass after those before it.
   */
  lemma TakenIff(
      rules: Rules, u: Utxo, height: nat, job: Job, turns: seq<Turn>, txs: seq<Tx>, byFee: bool, j: nat)
    requires Valid(job.pool) && Narrated(rules, u, height, job, turns, txs, byFee) && j < |turns|
    ensures var turn, setting := turns[j], job.setting;
            && turn.before <= |txs| && turn.id in job.pool
            && var prior, tx := txs[..turn.before], job.pool[turn.id];
               var p, size := Standing(rules, u, height, prior), 1000 + SumSizes(setting, prior) + setting.size(tx);
               var b := Textbook.Outputs(p.utxo);
               turn.taken <==>
                 && size < setting.maxSize
                 && (turn.byFee ==> job.CandidateOf(turn.id).feePerKb >= setting.minTxFee || size < setting.minSize)
                 && Textbook.SpenderOk(b, tx, height)
                 && (forall i :: 0 <= i < |tx.vin| ==> rules.engine.verify(tx, i, Textbook.OutAt(b, tx.vin[i])))
                 && 100 + p.sigOps + rules.engine.legacySigOps(tx)
                    + Sum(Textbook.Hidden(rules, b, tx, |tx.vin|)) < 20_000
    ensures turns[j].taken ==> turns[j].before < |txs| && txs[turns[j].before] == job.pool[turns[j].id]
  {
    hide Fits, TurnOk, Takes, Narrated, CheckTransaction, Tx.IsCoinBase, Ids, TurnIds;
    EveryTurn(rules, u, height, job, turns, txs, byFee, j);
    var prior, turn := txs[..turns[j].before], turns[j];
    TurnMeans(rules, u, height, job, prior, TurnIds(turns[..j]), turn);
    TakesMeans(rules, u, height, job, prior, turn.byFee, turn.id);
  }

  lemma TakesMeans(rules: Rules, u: Utxo, height: nat, job: Job, prior: seq<Tx>, byFee: bool, id: Txid)
    requires id in job.pool && CheckTransaction(job.pool[id]) && !job.pool[id].IsCoinBase()
    ensures var setting, tx, p := job.setting, job.pool[id], Standing(rules, u, height, prior);
            var size, b := 1000 + SumSizes(setting, prior) + setting.size(tx), Textbook.Outputs(p.utxo);
            Takes(rules, u, height, job, prior, byFee, id) <==>
              && size < setting.maxSize
              && (byFee ==> job.CandidateOf(id).feePerKb >= setting.minTxFee || size < setting.minSize)
              && Textbook.SpenderOk(b, tx, height)
              && (forall i :: 0 <= i < |tx.vin| ==> rules.engine.verify(tx, i, Textbook.OutAt(b, tx.vin[i])))
              && 100 + p.sigOps + rules.engine.legacySigOps(tx) + Sum(Textbook.Hidden(rules, b, tx, |tx.vin|)) < 20_000
  {
    hide Fits, CheckTransaction, Tx.IsCoinBase, Standing, SumSizes, Sum, Textbook.Hidden, Textbook.SpenderOk,
      Textbook.Outputs, Textbook.OutAt, Job.CandidateOf;
    var p := Standing(rules, u, height, prior);
    FitsMeans(rules, p.utxo, job.pool[id], height, 100 + p.sigOps);
  }

  /** A turn looks at a transaction that has not been looked at, and that no ready one exceeds in the order in force. */
  lemma NoneReadyExceeds(
      rules: Rules, u: Utxo, height: nat, job: Job, turns: seq<Turn>, txs: seq<Tx>, byFee: bool, j: nat, x: Txid)
    requires Narrated(rules, u, height, job, turns, txs, byFee) && j < |turns| && turns[j].before <= |txs|
    requires turns[j].id in job.pool
    ensures Ready(job, txs[..turns[j].before], TurnIds(turns[..j]), turns[j].id)
    ensures Ready(job, txs[..turns[j].before], TurnIds(turns[..j]), x) ==>
              var best, other := job.CandidateOf(turns[j].id), job.CandidateOf(x);
              && (turns[j].byFee ==> other.feePerKb <= best.feePerKb)
              && (turns[j].byFee && other.feePerKb == best.feePerKb ==> other.priority <= best.priority)
              && (!turns[j].byFee ==> other.priority <= best.priority)
              && (!turns[j].byFee && other.priority == best.priority ==> other.feePerKb <= best.feePerKb)
  {
    EveryTurn(rules, u, height, job, turns, txs, byFee, j);
  }

  /**
   A turn ends the order of priorities if and only if its transaction is not too large, and meets the end of their
   part of the block or has less than one coin a day old in 250 bytes; it need not be taken.
   */
  lemma SwitchesIff(
      rules: Rules, u: Utxo, height: nat, job: Job, turns: seq<Turn>, txs: seq<Tx>, byFee: bool, j: nat)
    requires Narrated(rules, u, height, job, turns, txs, byFee) && j < |turns|
    ensures var turn, setting := turns[j], job.setting;
            && turn.before <= |txs| && turn.id in job.pool
            && var prior, tx := txs[..turn.before], job.pool[turn.id];
               var p, size := Standing(rules, u, height, prior), 1000 + SumSizes(setting, prior) + setting.size(tx);
               turn.switches <==>
                 && !turn.byFee && size < setting.maxSize
                 && 100 + p.sigOps + rules.engine.legacySigOps(tx) < 20_000
                 && (size >= setting.prioritySize || job.CandidateOf(turn.id).priority < 57_600_000.0)
  {
    EveryTurn(rules, u, height, job, turns, txs, byFee, j);
  }

  /** What was looked at and left out had its turn, at which it was not taken. */
  lemma RefusedForReason(
      rules: Rules, u: Utxo, height: nat, job: Job, turns: seq<Turn>, txs: seq<Tx>, byFee: bool, x: Txid)
      returns (j: nat)
    requires Valid(job.pool)
    requires Narrated(rules, u, height, job, turns, txs, byFee) && x in TurnIds(turns) && x !in Ids(txs)
    ensures j < |turns| && turns[j].id == x && !turns[j].taken
  {
    j :| 0 <= j < |turns| && turns[j].id == x;
    EveryTurn(rules, u, height, job, turns, txs, byFee, j);
    assert forall i :: 0 <= i < |txs| ==> txs[i].txid in Ids(txs);
  }

  /** What is in the block had its turn, at which it was taken. */
  lemma {:induction false} TakenForReason(
      rules: Rules, u: Utxo, height: nat, job: Job, turns: seq<Turn>, txs: seq<Tx>, byFee: bool, i: nat)
      returns (j: nat)
    requires Narrated(rules, u, height, job, turns, txs, byFee) && i < |txs|
    ensures j < |turns| && turns[j].taken && turns[j].before == i
    ensures turns[j].id in job.pool && job.pool[turns[j].id] == txs[i]
  {
    hide Takes, Switches, Ready;
    var n := |turns| - 1;
    if i < turns[n].before {
      j := TakenForReason(rules, u, height, job, turns[..n], txs[..turns[n].before], turns[n].byFee, i);
    } else {
      j := n;
    }
  }

  /** The loop goes by fee exactly from the first turn on that met the end of the priorities. */
  lemma {:induction false} ByFeeSince(
      rules: Rules, u: Utxo, height: nat, job: Job, turns: seq<Turn>, txs: seq<Tx>, byFee: bool)
    requires Narrated(rules, u, height, job, turns, txs, byFee)
    ensures byFee <==> job.setting.prioritySize == 0 || exists j :: 0 <= j < |turns| && turns[j].switches
  {
    if turns != [] {
      var n := |turns| - 1;
      ByFeeSince(rules, u, height, job, turns[..n], txs[..turns[n].before], turns[n].byFee);
    }
  }

  // ----- the accounts -----

  /** Fee and signature operations listed for each transaction are those it has at its place. */
  ghost predicate Accounted(
      rules: Rules, u: Utxo, height: nat, txs: seq<Tx>, feeList: seq<int>, sigOpList: seq<int>)
  {
    && |feeList| == |sigOpList| == |txs|
    && forall i :: 0 <= i < |txs| ==>
         var b := Textbook.Outputs(Standing(rules, u, height, txs[..i]).utxo);
         && feeList[i] == Textbook.Fee(b, txs[i])
         && sigOpList[i] == rules.engine.legacySigOps(txs[i]) + Sum(Textbook.Hidden(rules, b, txs[i], |txs[i].vin|))
  }

  lemma AccountsMore(
      rules: Rules, u: Utxo, height: nat, txs: seq<Tx>, feeList: seq<int>, sigOpList: seq<int>, tx: Tx, fee: int,
      sigOps: int)
    requires Accounted(rules, u, height, txs, feeList, sigOpList) && CheckTransaction(tx) && !tx.IsCoinBase()
    requires var view := Standing(rules, u, height, txs).utxo;
             && fee == ValueIn(view, tx) - ValueOut(tx)
             && sigOps == rules.engine.legacySigOps(tx) + SumP2SH(rules, view, tx, |tx.vin|)
    ensures Accounted(rules, u, height, txs + [tx], feeList + [fee], sigOpList + [sigOps])
  {
    hide Standing, Textbook.Outputs, Textbook.Fee, SumP2SH, ValueIn, ValueOut, CheckTransaction;
    var view := Standing(rules, u, height, txs).utxo;
    Textbook.AmountsIff(view, tx, height);
    Textbook.HiddenSum(rules, view, tx, |tx.vin|);
    forall i | 0 <= i <= |txs| ensures (txs + [tx])[..i] == txs[..i] {
    }
    assert txs[..|txs|] == txs;
  }
}
