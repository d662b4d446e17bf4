/**
 The queue of the block template builder (src/main.cpp:4592-4666, 4750-4765): the transactions of the memory pool that
 can go into the next block are queued by priority, and those that spend unconfirmed outputs wait in a record of their
 own, which is listed with every transaction it waits for.

 A transaction with an input that neither chain nor pool knows is given up in the middle of its inputs: its record is
 freed, but stays listed wherever it was listed before.  Up to there the value of every output that is spent is read
 without a look at how many outputs there are.

 Serialized sizes and finality of transactions are parameters; priorities and fee rates are computed as real numbers.
 */
module TemplateQueue {
  import opened Arith
  import opened Coins
  import opened Ledger
  import opened MemPool
  import TxMemPool

  datatype Candidate = Candidate(tx: Tx, priority: real, feePerKb: real)

  /** A transaction and those of the pool that it waits for. */
  datatype Orphan = Orphan(candidate: Candidate, dependsOn: set<Txid>)

  type Size = n: nat | n > 0 witness 1

  /** What is known of transactions from outside, the height of the new block, and the settings of the builder. */
  datatype Setting = Setting(
    size: Tx -> Size, final: Tx -> bool, height: nat, maxSize: nat, prioritySize: nat, minSize: nat, minTxFee: real)

  /** TxPriorityCompare. */
  predicate Less(a: Candidate, b: Candidate, byFee: bool)
  {
    if byFee then if a.feePerKb == b.feePerKb then a.priority < b.priority else a.feePerKb < b.feePerKb
    else if a.priority == b.priority then a.feePerKb < b.feePerKb else a.priority < b.priority
  }

  /** pop_heap and pop_back: a candidate that none exceeds leaves the queue. */
  method PopHighest(queue: seq<Candidate>, byFee: bool) returns (best: Candidate, rest: seq<Candidate>, ghost at: nat)
    requires queue != []
    ensures at < |queue| && best == queue[at] && rest == queue[..at] + queue[at + 1..]
    ensures forall c :: c in queue ==> !Less(best, c, byFee)
  {
    var k := 0;
    for i := 1 to |queue|
      invariant 0 <= k < |queue|
      invariant forall j :: 0 <= j < i ==> !Less(queue[k], queue[j], byFee)
    {
      if Less(queue[k], queue[i], byFee) {
        k := i;
      }
    }
    best, rest, at := queue[k], queue[..k] + queue[k + 1..], k;
  }

  // ----- who waits for whom -----

  /** What the builder starts from; known are the entries that the coin view answers with, pruned ones included. */
  datatype Job = Job(setting: Setting, pool: Txs, known: map<Txid, Coins>)
  {
    predicate Eligible(t: Txid) { t in pool && !pool[t].IsCoinBase() && setting.final(pool[t]) }

    /** Input i refers to a transaction that is neither in the chain nor in the pool. */
    predicate Missing(t: Txid, i: nat)
      requires t in pool && i < |pool[t].vin|
    {
      pool[t].vin[i].hash !in known && pool[t].vin[i].hash !in pool
    }

    /** Input i refers to a position behind the outputs that are found for it. */
    predicate Beyond(t: Txid, i: nat)
      requires t in pool && i < |pool[t].vin|
    {
      var op := pool[t].vin[i];
      if op.hash in known then op.n >= |known[op.hash].vout| else op.hash in pool && op.n >= |pool[op.hash].vout|
    }

    /** Before any missing input of t there is one that refers beyond the outputs, and there the builder reads. */
    ghost predicate Overruns(t: Txid)
    {
      Eligible(t) && exists i: nat :: i < |pool[t].vin| && OverrunsAt(t, i)
    }

    ghost predicate OverrunsAt(t: Txid, i: nat)
      requires t in pool && i < |pool[t].vin|
    {
      WholeUpTo(t, i) && Beyond(t, i)
    }

    /** What is read for an input. */
    function ValueRead(t: Txid, i: nat): int
      requires t in pool && i < |pool[t].vin|
    {
      var op := pool[t].vin[i];
      if Beyond(t, i) || Missing(t, i) then 0
      else if op.hash in known then known[op.hash].vout[op.n].value else pool[op.hash].vout[op.n].value
    }

    /** The value of the first k inputs. */
    function TotalIn(t: Txid, k: nat): int
      requires t in pool && k <= |pool[t].vin|
    {
      if k == 0 then 0 else TotalIn(t, k - 1) + ValueRead(t, k - 1)
    }

    /**
     The value of the first k inputs, each times the number of blocks since it is in the chain; the pool does not count.
     */
    function ValueAge(t: Txid, k: nat): int
      requires t in pool && k <= |pool[t].vin|
    {
      if k == 0 then 0
      else
        var hash := pool[t].vin[k - 1].hash;
        ValueAge(t, k - 1) + if hash in known then ValueRead(t, k - 1) * (setting.height - known[hash].height) else 0
    }

    /** How a transaction is queued. */
    function CandidateOf(t: Txid): Candidate
      requires t in pool
    {
      Rated(pool[t], ValueAge(t, |pool[t].vin|), TotalIn(t, |pool[t].vin|))
    }

    function Rated(tx: Tx, valueAge: int, totalIn: int): Candidate
    {
      var size := setting.size(tx) as real;
      Candidate(tx, valueAge as real / size, (totalIn - ValueOut(tx)) as real / (size / 1000.0))
    }

    predicate Whole(t: Txid)
      requires t in pool
    {
      forall i :: 0 <= i < |pool[t].vin| ==> !Missing(t, i)
    }

    /** The transactions whose outputs a transaction spends and that the chain does not know. */
    function Parents(t: Txid): set<Txid>
      requires t in pool
    {
      set i | 0 <= i < |pool[t].vin| && pool[t].vin[i].hash !in known :: pool[t].vin[i].hash
    }

    /** p is found in the pool at some input of t before any missing one. */
    ghost predicate Listed(t: Txid, p: Txid) { t in pool && ListedUpTo(t, p, |pool[t].vin|) }

    ghost predicate ListedUpTo(t: Txid, p: Txid, k: nat)
      requires t in pool && k <= |pool[t].vin|
    {
      p !in known && p in pool && exists i: nat :: i < k && pool[t].vin[i].hash == p && WholeUpTo(t, i)
    }

    ghost predicate WholeUpTo(t: Txid, k: nat)
      requires t in pool && k <= |pool[t].vin|
    {
      forall i :: 0 <= i < k ==> !Missing(t, i)
    }

    /** Eligible transactions without missing inputs: those that are ever considered or wait. */
    ghost function Candidates(): set<Txid> { set t | t in pool && Eligible(t) && Whole(t) }

    ghost function EligibleIds(): set<Txid> { set t | t in pool && Eligible(t) }

    /**
     The first input of t that the chain does not know is in the pool, and a later one is nowhere: the record of t is
     freed after it has been listed.
     */
    ghost predicate Torn(t: Txid)
    {
      && Eligible(t) && !Whole(t)
      && exists i: nat ::
           i < |pool[t].vin| && pool[t].vin[i].hash !in known && pool[t].vin[i].hash in pool && WholeUpTo(t, i)
    }

    /** A torn transaction was listed with p before its record was freed. */
    ghost predicate Tears(p: Txid) { exists t :: Torn(t) && Listed(t, p) }
  }

  /** The value of each output that a transaction spends, as chain and pool have it. */
  ghost function ValuesRead(job: Job, t: Txid): seq<int>
    requires t in job.pool
  {
    var vin := job.pool[t].vin;
    seq(|vin|, i requires 0 <= i < |vin| => ValueOf(job, vin[i]))
  }

  /** That value times the number of blocks since the output is in the chain, nothing for outputs of the pool. */
  ghost function AgesRead(job: Job, t: Txid): seq<int>
    requires t in job.pool
  {
    var vin := job.pool[t].vin;
    seq(|vin|, i requires 0 <= i < |vin| =>
      if vin[i].hash in job.known then ValueOf(job, vin[i]) * (job.setting.height - job.known[vin[i].hash].height)
      else 0)
  }

  ghost function ValueOf(job: Job, op: OutPoint): int
  {
    if op.hash in job.known && op.n < |job.known[op.hash].vout| then job.known[op.hash].vout[op.n].value
    else if op.hash !in job.known && op.hash in job.pool && op.n < |job.pool[op.hash].vout|
    then job.pool[op.hash].vout[op.n].value
    else 0
  }

  lemma {:induction false} TotalsRead(job: Job, t: Txid, k: nat)
    requires t in job.pool && k <= |job.pool[t].vin|
    ensures job.TotalIn(t, k) == Sum(ValuesRead(job, t)[..k]) && job.ValueAge(t, k) == Sum(AgesRead(job, t)[..k])
  {
    if k > 0 {
      TotalsRead(job, t, k - 1);
      assert ValuesRead(job, t)[..k][..k - 1] == ValuesRead(job, t)[..k - 1];
      assert AgesRead(job, t)[..k][..k - 1] == AgesRead(job, t)[..k - 1];
      assert ValuesRead(job, t)[k - 1] == job.ValueRead(t, k - 1);
    }
  }

  /** The priority of a transaction is its value times age per byte, its fee rate what it pays per thousand bytes. */
  lemma CandidateIs(job: Job, t: Txid)
    requires t in job.pool
    ensures var c, size := job.CandidateOf(t), job.setting.size(job.pool[t]) as real;
            && c.tx == job.pool[t]
            && c.priority * size == Sum(AgesRead(job, t)) as real
            && c.feePerKb * size == 1000.0 * (Sum(ValuesRead(job, t)) - ValueOut(job.pool[t])) as real
  {
    hide Job.Rated, Job.TotalIn, Job.ValueAge, Sum, ValueOut, ValueOf;
    var k := |job.pool[t].vin|;
    TotalsRead(job, t, k);
    assert ValuesRead(job, t)[..k] == ValuesRead(job, t) && AgesRead(job, t)[..k] == AgesRead(job, t);
    RatedIs(job, job.pool[t], job.ValueAge(t, k), job.TotalIn(t, k));
  }

  lemma RatedIs(job: Job, tx: Tx, valueAge: int, totalIn: int)
    ensures var c, size := job.Rated(tx, valueAge, totalIn), job.setting.size(tx) as real;
            c.tx == tx && c.priority * size == valueAge as real &&
              c.feePerKb * size == 1000.0 * (totalIn - ValueOut(tx)) as real
  {
    hide ValueOut;
    Rates(job.setting.size(tx) as real, valueAge as real, (totalIn - ValueOut(tx)) as real);
  }

  lemma Rates(size: real, age: real, paid: real)
    requires size > 0.0
    ensures age / size * size == age
    ensures size / 1000.0 > 0.0 && paid / (size / 1000.0) * size == 1000.0 * paid
  {
    var k := size / 1000.0;
    assert size == 1000.0 * k;
    var q := paid / k;
    assert q * k == paid;
    assert q * size == 1000.0 * (q * k);
  }

  /** Queue, records and lists. */
  datatype Work = Work(queue: seq<Candidate>, orphans: map<Txid, Orphan>, dependers: map<Txid, seq<Txid>>)
  {
    /** p lists o. */
    ghost predicate Lists(p: Txid, o: Txid) { In(dependers, p, o) }
  }

  ghost predicate Queued(queue: seq<Candidate>, t: Txid) { exists i :: 0 <= i < |queue| && queue[i].tx.txid == t }

  /** No transaction is queued twice, and all are candidates. */
  ghost predicate QueueOk(job: Job, queue: seq<Candidate>)
  {
    && (forall i :: 0 <= i < |queue| ==>
        queue[i].tx.txid in job.Candidates() && queue[i] == job.CandidateOf(queue[i].tx.txid))
    && (forall i, j :: 0 <= i < j < |queue| ==> queue[i].tx.txid != queue[j].tx.txid)
  }

  /**
   Records are kept for exactly the candidates that spend unconfirmed outputs, and wait for those parents that are not
   in the block yet; lists also name transactions whose records are gone.
   */
  ghost predicate WaitingOk(job: Job, w: Work, taken: set<Txid>)
  {
    && RecordsOk(job, w.orphans, taken)
    && (forall o :: o in job.Candidates() && job.Parents(o) != {} ==> o in w.orphans)
    && (forall p, o :: w.Lists(p, o) <==> job.Eligible(o) && job.Listed(o, p))
  }

  ghost predicate RecordsOk(job: Job, orphans: map<Txid, Orphan>, taken: set<Txid>)
  {
    forall o :: o in orphans ==>
      o in job.Candidates() && orphans[o].candidate == job.CandidateOf(o) &&
        orphans[o].dependsOn == job.Parents(o) - taken
  }

  /** Every candidate is in the queue, was taken from it, or waits; and only in one of these places. */
  ghost predicate Partition(job: Job, queue: seq<Candidate>, orphans: map<Txid, Orphan>, considered: set<Txid>)
  {
    && considered <= job.Candidates()
    && (forall t :: t in considered ==> !Queued(queue, t))
    && (forall t :: t in job.Candidates() ==>
          (Queued(queue, t) || t in considered <==> t !in orphans || orphans[t].dependsOn == {}))
  }

  // ----- collecting -----

  /** The inputs of one transaction, up to the first missing one or the first read beyond the outputs. */
  method ListParents(job: Job, t: Txid, dependers0: map<Txid, seq<Txid>>)
    returns (beyond: bool, missing: bool, dependsOn: set<Txid>, dependers: map<Txid, seq<Txid>>, candidate: Candidate)
    requires t in job.pool && job.pool[t].txid == t && job.Eligible(t)
    ensures beyond <==> job.Overruns(t)
    ensures !beyond ==> (missing <==> !job.Whole(t))
    ensures !beyond && !missing ==> dependsOn == job.Parents(t) && candidate == job.CandidateOf(t)
    ensures !beyond ==> ListsMore(dependers0, dependers, job, t, |job.pool[t].vin|)
  {
    var tx := job.pool[t];
    var vin := tx.vin;
    beyond, missing, dependsOn, dependers, candidate := false, false, {}, dependers0, job.Rated(tx, 0, 0);
    var totalIn, valueAge := 0, 0;
    for i := 0 to |vin|
      invariant job.WholeUpTo(t, i) && forall k :: 0 <= k < i ==> !job.Beyond(t, k)
      invariant dependsOn == set k | 0 <= k < i && vin[k].hash !in job.known :: vin[k].hash
      invariant totalIn == job.TotalIn(t, i) && valueAge == job.ValueAge(t, i)
      invariant ListsMore(dependers0, dependers, job, t, i)
    {
      hide ListsMore;
      var hash, n := vin[i].hash, vin[i].n;
      if hash !in job.known {
        if hash !in job.pool {
          assert job.Missing(t, i);
          MissingEndsListing(dependers0, dependers, job, t, i);
          return false, true, dependsOn, dependers, candidate;
        }
        var list := if hash in dependers then dependers[hash] else [];
        ListOne(dependers0, dependers, job, t, i, list);
        dependers := dependers[hash := list + [t]];
        dependsOn := dependsOn + {hash};
        if n >= |job.pool[hash].vout| {
          assert job.OverrunsAt(t, i);
          return true, false, dependsOn, dependers, candidate;
        }
        totalIn := totalIn + job.pool[hash].vout[n].value;
      } else {
        var coins := job.known[hash];
        if n >= |coins.vout| {
          assert job.OverrunsAt(t, i);
          return true, false, dependsOn, dependers, candidate;
        }
        ListNone(dependers0, dependers, job, t, i);
        totalIn := totalIn + coins.vout[n].value;
        valueAge := valueAge + coins.vout[n].value * (job.setting.height - coins.height);
      }
    }
    candidate := job.Rated(tx, valueAge, totalIn);
  }

  /** The lists after the first k inputs of a transaction. */
  ghost predicate ListsMore(before: map<Txid, seq<Txid>>, after: map<Txid, seq<Txid>>, job: Job, t: Txid, k: nat)
    requires t in job.pool && k <= |job.pool[t].vin|
  {
    forall p, o :: In(after, p, o) <==> In(before, p, o) || (o == t && job.ListedUpTo(t, p, k))
  }

  ghost predicate In(dependers: map<Txid, seq<Txid>>, p: Txid, o: Txid) { p in dependers && o in dependers[p] }

  lemma ListOne(before: map<Txid, seq<Txid>>, after: map<Txid, seq<Txid>>, job: Job, t: Txid, i: nat, list: seq<Txid>)
    requires t in job.pool && i < |job.pool[t].vin| && job.WholeUpTo(t, i) && ListsMore(before, after, job, t, i)
    requires var hash := job.pool[t].vin[i].hash;
             hash !in job.known && hash in job.pool && list == if hash in after then after[hash] else []
    ensures ListsMore(before, after[job.pool[t].vin[i].hash := list + [t]], job, t, i + 1)
  {
    var hash := job.pool[t].vin[i].hash;
    var now := after[hash := list + [t]];
    forall p, o ensures In(now, p, o) <==> In(before, p, o) || (o == t && job.ListedUpTo(t, p, i + 1)) {
      ListedNext(job, t, p, i);
      assert In(now, p, o) <==> In(after, p, o) || (p == hash && o == t);
    }
  }

  lemma ListedNext(job: Job, t: Txid, p: Txid, i: nat)
    requires t in job.pool && i < |job.pool[t].vin| && job.WholeUpTo(t, i)
    requires job.pool[t].vin[i].hash !in job.known && job.pool[t].vin[i].hash in job.pool
    ensures job.ListedUpTo(t, p, i + 1) <==> job.ListedUpTo(t, p, i) || p == job.pool[t].vin[i].hash
  {
    if job.ListedUpTo(t, p, i + 1) {
      var j: nat :| j < i + 1 && job.pool[t].vin[j].hash == p && job.WholeUpTo(t, j);
      assert j < i ==> job.ListedUpTo(t, p, i);
    }
    if job.ListedUpTo(t, p, i) {
      var j: nat :| j < i && job.pool[t].vin[j].hash == p && job.WholeUpTo(t, j);
      assert job.ListedUpTo(t, p, i + 1);
    }
  }

  lemma ListNone(before: map<Txid, seq<Txid>>, after: map<Txid, seq<Txid>>, job: Job, t: Txid, i: nat)
    requires t in job.pool && i < |job.pool[t].vin| && job.pool[t].vin[i].hash in job.known
    requires ListsMore(before, after, job, t, i)
    ensures ListsMore(before, after, job, t, i + 1)
  {
    forall p ensures job.ListedUpTo(t, p, i + 1) <==> job.ListedUpTo(t, p, i) {
    }
  }

  lemma MissingEndsListing(before: map<Txid, seq<Txid>>, after: map<Txid, seq<Txid>>, job: Job, t: Txid, i: nat)
    requires t in job.pool && i < |job.pool[t].vin| && job.Missing(t, i) && ListsMore(before, after, job, t, i)
    ensures ListsMore(before, after, job, t, |job.pool[t].vin|)
  {
    forall p ensures job.ListedUpTo(t, p, |job.pool[t].vin|) <==> job.ListedUpTo(t, p, i) {
      if job.ListedUpTo(t, p, |job.pool[t].vin|) {
        var j: nat :| j < |job.pool[t].vin| && job.pool[t].vin[j].hash == p && job.WholeUpTo(t, j);
        assert j != i && j <= i;
      }
    }
  }

  /** What the first loop has done once it has visited a part of the pool. */
  ghost predicate Collected(job: Job, visited: set<Txid>, w: Work)
  {
    && QueueOk(job, w.queue) && RecordsOk(job, w.orphans, {})
    && (forall t :: t in visited ==> !job.Overruns(t))
    && w.orphans.Keys <= visited && (forall t :: Queued(w.queue, t) ==> t in visited)
    && (forall t :: t in visited && t in job.Candidates() ==>
          (Queued(w.queue, t) <==> job.Parents(t) == {}) && (t in w.orphans <==> job.Parents(t) != {}))
    && (forall p, o :: In(w.dependers, p, o) <==> o in visited && job.Eligible(o) && job.Listed(o, p))
  }

  /**
   The first loop: what spends only known outputs is queued, the rest waits or is given up.  beyond says that an output
   was read that does not exist; nothing is promised of what comes after.
   */
  method Collect(job: Job) returns (beyond: bool, w: Work)
    requires Keyed(job.pool)
    ensures beyond <==> exists t :: job.Overruns(t)
    ensures !beyond ==> QueueOk(job, w.queue) && WaitingOk(job, w, {}) && Partition(job, w.queue, w.orphans, {})
  {
    beyond, w := false, Work([], map[], map[]);
    var left := job.pool.Keys;
    while left != {}
      invariant left <= job.pool.Keys
      invariant Collected(job, job.pool.Keys - left, w)
    {
      hide Collected, ListsMore, Job.Overruns, Job.CandidateOf;
      var t :| t in left;
      ghost var visited := job.pool.Keys - left;
      left := left - {t};
      assert job.pool.Keys - left == visited + {t};
      if job.Eligible(t) {
        var missing, dependsOn, dependers, candidate;
        beyond, missing, dependsOn, dependers, candidate := ListParents(job, t, w.dependers);
        if beyond {
          return;
        }
        if missing {
          GiveUp(job, visited, w, t, dependers);
          w := w.(dependers := dependers);
        } else if dependsOn != {} {
          AddOrphan(job, visited, w, t, candidate, dependers);
          w := w.(dependers := dependers, orphans := w.orphans[t := Orphan(candidate, dependsOn)]);
        } else {
          AddReady(job, visited, w, t, candidate, dependers);
          w := w.(dependers := dependers, queue := w.queue + [candidate]);
        }
      } else {
        Skip(job, visited, w, t);
      }
    }
    assert job.pool.Keys - left == job.pool.Keys;
    AllCollected(job, w);
  }

  lemma GiveUp(job: Job, visited: set<Txid>, w: Work, t: Txid, dependers: map<Txid, seq<Txid>>)
    requires Collected(job, visited, w) && t in job.pool && t !in visited && job.Eligible(t) && !job.Whole(t)
    requires !job.Overruns(t)
    requires ListsMore(w.dependers, dependers, job, t, |job.pool[t].vin|)
    ensures Collected(job, visited + {t}, w.(dependers := dependers))
  {
  }

  lemma AddOrphan(job: Job, visited: set<Txid>, w: Work, t: Txid, candidate: Candidate, dependers: map<Txid, seq<Txid>>)
    requires Collected(job, visited, w) && t in job.Candidates() && t !in visited && candidate == job.CandidateOf(t)
    requires job.Parents(t) != {} && job.pool[t].txid == t && !job.Overruns(t)
    requires ListsMore(w.dependers, dependers, job, t, |job.pool[t].vin|)
    ensures Collected(job, visited + {t},
                      w.(dependers := dependers, orphans := w.orphans[t := Orphan(candidate, job.Parents(t))]))
  {
  }

  lemma AddReady(job: Job, visited: set<Txid>, w: Work, t: Txid, candidate: Candidate, dependers: map<Txid, seq<Txid>>)
    requires Collected(job, visited, w) && t in job.Candidates() && t !in visited && candidate == job.CandidateOf(t)
    requires job.Parents(t) == {} && job.pool[t].txid == t && !job.Overruns(t)
    requires ListsMore(w.dependers, dependers, job, t, |job.pool[t].vin|)
    ensures Collected(job, visited + {t}, w.(dependers := dependers, queue := w.queue + [candidate]))
  {
    QueuedSnoc(w.queue, candidate);
    assert !Queued(w.queue, t);
  }

  lemma QueuedSnoc(queue: seq<Candidate>, c: Candidate)
    ensures forall t :: Queued(queue + [c], t) <==> Queued(queue, t) || t == c.tx.txid
  {
    forall t ensures Queued(queue + [c], t) <==> Queued(queue, t) || t == c.tx.txid {
      assert (queue + [c])[|queue|] == c;
      if Queued(queue, t) {
        var i :| 0 <= i < |queue| && queue[i].tx.txid == t;
        assert (queue + [c])[i] == queue[i];
      }
    }
  }

  lemma Skip(job: Job, visited: set<Txid>, w: Work, t: Txid)
    requires Collected(job, visited, w) && !job.Eligible(t)
    ensures Collected(job, visited + {t}, w)
  {
  }

  lemma AllCollected(job: Job, w: Work)
    requires Collected(job, job.pool.Keys, w)
    ensures QueueOk(job, w.queue) && WaitingOk(job, w, {}) && Partition(job, w.queue, w.orphans, {})
    ensures forall t :: !job.Overruns(t)
  {
    hide Job.CandidateOf;
    forall t | t in job.Candidates() ensures Queued(w.queue, t) <==> t !in w.orphans || w.orphans[t].dependsOn == {} {
      assert t in w.orphans ==> w.orphans[t].dependsOn == job.Parents(t) - {};
    }
  }

  // ----- records that are gone -----

  /** A list names a transaction whose record has been freed. */
  ghost predicate NamesFreed(w: Work, p: Txid) { exists o :: w.Lists(p, o) && o !in w.orphans }

  /** The list of a transaction names a freed record if and only if a torn transaction was listed there. */
  lemma NamesFreedMeans(job: Job, w: Work, taken: set<Txid>, p: Txid)
    requires WaitingOk(job, w, taken)
    ensures NamesFreed(w, p) <==> job.Tears(p)
  {
    if NamesFreed(w, p) {
      var o :| w.Lists(p, o) && o !in w.orphans;
      ListedWholeWaits(job, o, p);
    }
    if t :| job.Torn(t) && job.Listed(t, p) {
      assert w.Lists(p, t);
    }
  }

  /** In any state of the builder, some list names a freed record if and only if the pool has a torn transaction. */
  lemma FreedIffTorn(job: Job, w: Work, taken: set<Txid>)
    requires WaitingOk(job, w, taken)
    ensures (exists p :: NamesFreed(w, p)) <==> exists t :: job.Torn(t)
  {
    if t :| job.Torn(t) {
      var i: nat :| i < |job.pool[t].vin| && job.pool[t].vin[i].hash !in job.known &&
        job.pool[t].vin[i].hash in job.pool &&
                    job.WholeUpTo(t, i);
      assert job.Listed(t, job.pool[t].vin[i].hash) && w.Lists(job.pool[t].vin[i].hash, t);
      assert NamesFreed(w, job.pool[t].vin[i].hash);
    }
    if p :| NamesFreed(w, p) {
      var o :| w.Lists(p, o) && o !in w.orphans;
      ListedWholeWaits(job, o, p);
      assert job.Torn(o);
    }
  }

  lemma ListedWholeWaits(job: Job, t: Txid, p: Txid)
    requires job.Eligible(t) && job.Listed(t, p)
    ensures p in job.Parents(t) && (!job.Whole(t) ==> job.Torn(t))
  {
  }

  /**
   Transactions 1 and 2 spend what the chain does not have, 2 first an output of 1 and then one of a transaction nobody
   knows.
   */
  lemma TornPool(setting: Setting, w: Work, taken: set<Txid>)
    requires setting.final(TORN) && WaitingOk(Job(setting, TORN_POOL, map[5 := ONE_OUTPUT]), w, taken)
    ensures Job(setting, TORN_POOL, map[5 := ONE_OUTPUT]).Torn(2) && NamesFreed(w, 1)
  {
    var job := Job(setting, TORN_POOL, map[5 := ONE_OUTPUT]);
    assert job.pool[2] == TORN && job.Missing(2, 1) && !job.Missing(2, 0);
    assert job.WholeUpTo(2, 0) && job.ListedUpTo(2, 1, 2);
    assert w.Lists(1, 2);
  }

  const ONE_OUTPUT := Coins(false, [TxOut(1, [])], 1, 1)
  const TORN := Tx(2, 1, [OutPoint(1, 0), OutPoint(9, 0)], [TxOut(0, [])])
  const TORN_POOL: Txs := map[1 := Tx(1, 1, [OutPoint(5, 0)], [TxOut(0, [])]), 2 := TORN]

  /** A pool whose every input is provided by chain or pool has nothing torn. */
  lemma SpendableIsNotTorn(job: Job, u: Utxo)
    requires TxMemPool.Spendable(u, job.pool) && u.Keys <= job.known.Keys
    ensures forall t :: !job.Torn(t)
  {
    forall t | t in job.pool ensures job.Whole(t) {
      forall i | 0 <= i < |job.pool[t].vin| ensures !job.Missing(t, i) {
        assert TxMemPool.Provided(u, job.pool, job.pool[t].vin[i]);
      }
    }
  }

  // ----- outputs that do not exist -----

  /**
   Transaction 2 spends output 7 of transaction 1, which has one output in the chain.  The pool has it when it was put
   there without a check of its inputs.
   */
  lemma OverrunByPosition(setting: Setting)
    requires setting.final(SPENDS_SEVENTH)
    ensures Job(setting, map[2 := SPENDS_SEVENTH], map[1 := ONE_OUTPUT]).Overruns(2)
  {
    var job := Job(setting, map[2 := SPENDS_SEVENTH], map[1 := ONE_OUTPUT]);
    assert job.pool[2] == SPENDS_SEVENTH && job.OverrunsAt(2, 0);
  }

  /**
   Transaction 2 spends the output of transaction 1, and both are in the pool; every input is provided.  But the view
   still has the pruned entry that taking 1 off the chain has left.
   */
  lemma OverrunByPrunedEntry(setting: Setting)
    requires setting.final(TxMemPool.SPENDS_IT)
    ensures var job := Job(setting, CHILD_POOL, map[1 := NO_COINS, 5 := ONE_OUTPUT]);
            job.Overruns(2) && TxMemPool.Spendable(TxMemPool.Live(job.known), job.pool)
  {
    var job := Job(setting, CHILD_POOL, map[1 := NO_COINS, 5 := ONE_OUTPUT]);
    assert job.pool[2] == TxMemPool.SPENDS_IT && job.OverrunsAt(2, 0);
    assert !ONE_OUTPUT.vout[0].IsNull() && 5 in TxMemPool.Live(job.known);
    assert TxMemPool.Provided(TxMemPool.Live(job.known), job.pool, OutPoint(5, 0));
    assert TxMemPool.Provided(TxMemPool.Live(job.known), job.pool, OutPoint(1, 0));
  }

  const SPENDS_SEVENTH := Tx(2, 1, [OutPoint(1, 7)], [TxOut(0, [])])
  const CHILD_POOL: Txs := map[1 := Tx(1, 1, [OutPoint(5, 0)], [TxOut(1, [])]), 2 := TxMemPool.SPENDS_IT]

  /** An input that spends an output of the pool, for which the view answers with a pruned entry that is too short. */
  ghost predicate Shadowed(job: Job, t: Txid)
  {
    job.Eligible(t) && exists op :: op in job.pool[t].vin && Shadows(job, op)
  }

  ghost predicate Shadows(job: Job, op: OutPoint)
  {
    op.hash in job.pool && TxMemPool.PrunedIn(job.known, op.hash) && op.n >= |job.known[op.hash].vout|
  }

  /** In a pool whose every input is provided, and that has nothing of the chain, only pruned entries make trouble. */
  lemma SpendableOverruns(job: Job, t: Txid)
    requires TxMemPool.Spendable(TxMemPool.Live(job.known), job.pool)
    requires forall x :: x in job.pool ==> x !in TxMemPool.Live(job.known)
    ensures job.Overruns(t) <==> Shadowed(job, t)
  {
    if job.Eligible(t) {
      var vin := job.pool[t].vin;
      forall i: nat | i < |vin|
        ensures !job.Missing(t, i)
        ensures job.Beyond(t, i) <==> Shadows(job, vin[i])
      {
        assert TxMemPool.Provided(TxMemPool.Live(job.known), job.pool, vin[i]);
      }
      if Shadowed(job, t) {
        var i: nat :| i < |vin| && Shadows(job, vin[i]);
        assert job.OverrunsAt(t, i);
      }
    }
  }

  // ----- releasing what waited for a transaction -----

  /** Half way through the list of a transaction that was just taken. */
  ghost predicate Releasing(job: Job, orphans: map<Txid, Orphan>, taken: set<Txid>, hash: Txid, done: seq<Txid>)
  {
    forall o :: o in orphans ==>
      && o in job.Candidates() && orphans[o].candidate == job.CandidateOf(o)
      && orphans[o].dependsOn == job.Parents(o) - taken - if o in done then {hash} else {}
  }

  /** One entry of the list: the orphan no longer waits for the transaction, and is queued if it was the last one. */
  method ReleaseOne(
      job: Job, w0: Work, o: Txid, hash: Txid, ghost considered: set<Txid>, ghost taken: set<Txid>,
      ghost done: seq<Txid>)
    returns (w: Work)
    requires Keyed(job.pool) && o in w0.orphans && Releasing(job, w0.orphans, taken, hash, done)
    requires QueueOk(job, w0.queue) && Partition(job, w0.queue, w0.orphans, considered)
    ensures w == w0.(queue := w.queue, orphans := w.orphans) && w.orphans.Keys == w0.orphans.Keys
    ensures Releasing(job, w.orphans, taken, hash, done + [o])
    ensures QueueOk(job, w.queue) && Partition(job, w.queue, w.orphans, considered)
  {
    hide Releasing, Partition, QueueOk;
    w := w0;
    RecordReleased(job, w0.orphans, o, hash, taken, done);
    if w.orphans[o].dependsOn != {} {
      var rest := w.orphans[o].dependsOn - {hash};
      var candidate := w.orphans[o].candidate;
      w := w.(orphans := w.orphans[o := Orphan(candidate, rest)]);
      if rest == {} {
        NowReady(job, w0, o, candidate, considered);
        w := w.(queue := w.queue + [candidate]);
      } else {
        StillWaits(job, w0, o, Orphan(candidate, rest), considered);
      }
    }
  }

  /** The record after the transaction was crossed off. */
  lemma RecordReleased(job: Job, orphans: map<Txid, Orphan>, o: Txid, hash: Txid, taken: set<Txid>, done: seq<Txid>)
    requires o in orphans && Releasing(job, orphans, taken, hash, done)
    ensures o in job.Candidates() && orphans[o].candidate == job.CandidateOf(o)
    ensures orphans[o].dependsOn == {} ==> Releasing(job, orphans, taken, hash, done + [o])
    ensures var rest := orphans[o].(dependsOn := orphans[o].dependsOn - {hash});
            Releasing(job, orphans[o := rest], taken, hash, done + [o])
  {
  }

  lemma NowReady(job: Job, w: Work, o: Txid, candidate: Candidate, considered: set<Txid>)
    requires Keyed(job.pool) && o in job.Candidates() && candidate == job.CandidateOf(o)
    requires o in w.orphans && w.orphans[o].dependsOn != {}
    requires QueueOk(job, w.queue) && Partition(job, w.queue, w.orphans, considered)
    ensures QueueOk(job, w.queue + [candidate])
    ensures Partition(job, w.queue + [candidate], w.orphans[o := Orphan(candidate, {})], considered)
  {
    hide Queued;
    QueuedSnoc(w.queue, candidate);
    QueuedAt(w.queue);
    assert !Queued(w.queue, o);
  }

  lemma QueuedAt(queue: seq<Candidate>)
    ensures forall i :: 0 <= i < |queue| ==> Queued(queue, queue[i].tx.txid)
  {
  }

  lemma StillWaits(job: Job, w: Work, o: Txid, orphan: Orphan, considered: set<Txid>)
    requires o in w.orphans && w.orphans[o].dependsOn != {} && orphan.dependsOn != {}
    requires Partition(job, w.queue, w.orphans, considered)
    ensures Partition(job, w.queue, w.orphans[o := orphan], considered)
  {
    hide Queued;
  }

  /**
   Everything that the list of a transaction just taken names.  followed says that the list named a freed record, which
   the original then reads and writes; nothing is promised of what comes after.
   */
  method Release(job: Job, w0: Work, hash: Txid, ghost considered: set<Txid>, ghost taken: set<Txid>)
    returns (followed: bool, w: Work)
    requires Keyed(job.pool) && WaitingOk(job, w0, taken)
    requires QueueOk(job, w0.queue) && Partition(job, w0.queue, w0.orphans, considered)
    ensures followed <==> NamesFreed(w0, hash)
    ensures !followed ==> WaitingOk(job, w, taken + {hash})
    ensures !followed ==> QueueOk(job, w.queue) && Partition(job, w.queue, w.orphans, considered)
  {
    hide Releasing, QueueOk, Partition, WaitingOk;
    w := w0;
    if hash in w.dependers {
      var list := w.dependers[hash];
      StartReleasing(job, w0, hash, taken);
      for k := 0 to |list|
        invariant w == w0.(queue := w.queue, orphans := w.orphans) && w.orphans.Keys == w0.orphans.Keys
        invariant forall j :: 0 <= j < k ==> list[j] in w0.orphans
        invariant Releasing(job, w.orphans, taken, hash, list[..k])
        invariant QueueOk(job, w.queue) && Partition(job, w.queue, w.orphans, considered)
      {
        if list[k] !in w.orphans {
          assert w0.Lists(hash, list[k]);
          return true, w;
        }
        assert list[..k + 1] == list[..k] + [list[k]];
        w := ReleaseOne(job, w, list[k], hash, considered, taken, list[..k]);
      }
      assert list[..|list|] == list;
      Released(job, w0, w, hash, taken);
    } else {
      NobodyWaits(job, w, hash, taken);
    }
    followed := false;
  }

  lemma StartReleasing(job: Job, w: Work, hash: Txid, taken: set<Txid>)
    requires WaitingOk(job, w, taken)
    ensures Releasing(job, w.orphans, taken, hash, [])
  {
  }

  lemma Released(job: Job, w0: Work, w: Work, hash: Txid, taken: set<Txid>)
    requires WaitingOk(job, w0, taken) && w == w0.(queue := w.queue, orphans := w.orphans)
    requires w.orphans.Keys == w0.orphans.Keys
    requires hash in w.dependers && Releasing(job, w.orphans, taken, hash, w.dependers[hash])
    ensures WaitingOk(job, w, taken + {hash})
  {
    assert forall p, o :: w.Lists(p, o) <==> w0.Lists(p, o);
    forall o | o in w.orphans ensures w.orphans[o].dependsOn == job.Parents(o) - (taken + {hash}) {
      WholeIsListed(job, o, hash);
      assert w0.Lists(hash, o) <==> job.Listed(o, hash);
    }
  }

  lemma NobodyWaits(job: Job, w: Work, hash: Txid, taken: set<Txid>)
    requires WaitingOk(job, w, taken) && hash !in w.dependers
    ensures WaitingOk(job, w, taken + {hash})
  {
    forall o | o in w.orphans ensures w.orphans[o].dependsOn == job.Parents(o) - (taken + {hash}) {
      WholeIsListed(job, o, hash);
      assert w.Lists(hash, o) <==> job.Listed(o, hash);
    }
  }

  /** Without missing inputs a transaction is listed with every parent. */
  lemma WholeIsListed(job: Job, t: Txid, p: Txid)
    requires t in job.Candidates()
    ensures job.Listed(t, p) <==> p in job.Parents(t)
  {
    if p in job.Parents(t) {
      var i: nat :| i < |job.pool[t].vin| && job.pool[t].vin[i].hash !in job.known && job.pool[t].vin[i].hash == p;
      assert !job.Missing(t, i) && job.WholeUpTo(t, i);
    }
  }

  /** The candidate at a position leaves the queue and counts as considered. */
  lemma Popped(
      job: Job, queue: seq<Candidate>, at: nat, rest: seq<Candidate>, orphans: map<Txid, Orphan>, considered: set<Txid>)
    requires QueueOk(job, queue) && Partition(job, queue, orphans, considered)
    requires at < |queue| && rest == queue[..at] + queue[at + 1..]
    ensures var t := queue[at].tx.txid;
            && t in job.Candidates() && t !in considered && queue[at] == job.CandidateOf(t)
            && QueueOk(job, rest) && Partition(job, rest, orphans, considered + {t})
  {
    hide Queued;
    QueuedRest(queue, at, rest);
  }

  lemma QueuedRest(queue: seq<Candidate>, at: nat, rest: seq<Candidate>)
    requires at < |queue| && rest == queue[..at] + queue[at + 1..]
    requires forall i, j :: 0 <= i < j < |queue| ==> queue[i].tx.txid != queue[j].tx.txid
    ensures Queued(queue, queue[at].tx.txid)
    ensures forall s :: Queued(rest, s) <==> Queued(queue, s) && s != queue[at].tx.txid
  {
    var t := queue[at].tx.txid;
    forall s ensures Queued(rest, s) <==> Queued(queue, s) && s != t {
      if Queued(queue, s) && s != t {
        var i :| 0 <= i < |queue| && queue[i].tx.txid == s;
        assert rest[if i < at then i else i - 1] == queue[i];
      }
      if Queued(rest, s) {
        var i :| 0 <= i < |rest| && rest[i].tx.txid == s;
        assert rest[i] == queue[if i < at then i else i + 1];
      }
    }
  }
}
