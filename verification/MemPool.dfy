/**
 The memory pool (src/main.cpp:640-873): the transactions, the index from spent outpoints to the inputs that spend
 them, and the removal of a transaction with everything that depends on it.
 */
module MemPool {
  import opened Coins
  import opened Ledger

  datatype InPoint = InPoint(txid: Txid, n: nat)

  type Txs = map<Txid, Tx>
  type Index = map<OutPoint, InPoint>

  /** Transaction ids are hashes of what they contain: an assignment of ranks shows that spending has no cycles. */
  type Rank = Txid -> nat

  /** The index holds exactly the inputs of the transactions. */
  ghost predicate Indexed(pool: Txs, next: Index)
  {
    && (forall t, i :: t in pool && 0 <= i < |pool[t].vin| ==>
        pool[t].vin[i] in next && next[pool[t].vin[i]] == InPoint(t, i))
    && (forall op :: op in next ==>
          var at := next[op]; at.txid in pool && at.n < |pool[at.txid].vin| && pool[at.txid].vin[at.n] == op)
  }

  ghost predicate Keyed(pool: Txs)
  {
    forall t :: t in pool ==> pool[t].txid == t
  }

  ghost predicate Acyclic(rank: Rank, tx: Tx)
  {
    forall i :: 0 <= i < |tx.vin| ==> rank(tx.vin[i].hash) < rank(tx.txid)
  }

  ghost predicate Ranked(rank: Rank, pool: Txs)
  {
    Keyed(pool) && forall t :: t in pool ==> Acyclic(rank, pool[t])
  }

  /** Since the index is a function, no two inputs in the pool spend the same output. */
  lemma NoSharedInputs(pool: Txs, next: Index, t: Txid, i: nat, s: Txid, j: nat)
    requires Indexed(pool, next) && t in pool && s in pool && i < |pool[t].vin| && j < |pool[s].vin|
    requires pool[t].vin[i] == pool[s].vin[j]
    ensures t == s && i == j
  {
  }

  // ----- dependence -----

  /** Input i of b spends an output of a transaction in the pool. */
  ghost predicate InPool(pool: Txs, b: Txid, i: nat)
    requires b in pool && i < |pool[b].vin|
  {
    var op := pool[b].vin[i];
    op.hash in pool && op.n < |pool[op.hash].vout|
  }

  /** b is a or spends, through any number of steps inside the pool, an output of a. */
  ghost predicate Descends(rank: Rank, pool: Txs, a: Txid, b: Txid)
    requires Ranked(rank, pool) && b in pool
    decreases rank(b)
  {
    b == a || exists i: nat :: i < |pool[b].vin| && InPool(pool, b, i) && StepDescends(rank, pool, a, b, i)
  }

  ghost predicate StepDescends(rank: Rank, pool: Txs, a: Txid, b: Txid, i: nat)
    requires Ranked(rank, pool) && b in pool && i < |pool[b].vin| && InPool(pool, b, i)
    decreases rank(b), 0
  {
    assert Acyclic(rank, pool[b]);
    Descends(rank, pool, a, pool[b].vin[i].hash)
  }

  lemma {:induction false} DescendsTransitive(rank: Rank, pool: Txs, a: Txid, b: Txid, c: Txid)
    requires Ranked(rank, pool) && b in pool && c in pool && Descends(rank, pool, a, b) && Descends(rank, pool, b, c)
    ensures Descends(rank, pool, a, c)
    decreases rank(c)
  {
    if c != b {
      var i: nat :| i < |pool[c].vin| && InPool(pool, c, i) && StepDescends(rank, pool, b, c, i);
      assert Acyclic(rank, pool[c]);
      DescendsTransitive(rank, pool, a, b, pool[c].vin[i].hash);
      assert StepDescends(rank, pool, a, c, i);
    }
  }

  /** c spends an output. */
  ghost predicate Spends(pool: Txs, c: Txid, op: OutPoint)
  {
    c in pool && op in pool[c].vin
  }

  lemma SpenderDescends(rank: Rank, pool: Txs, a: Txid, c: Txid, j: nat)
    requires Ranked(rank, pool) && a in pool && j < |pool[a].vout| && Spends(pool, c, OutPoint(a, j))
    ensures Descends(rank, pool, a, c) && rank(a) < rank(c)
  {
    var i: nat :| i < |pool[c].vin| && pool[c].vin[i] == OutPoint(a, j);
    assert Acyclic(rank, pool[c]);
    assert Descends(rank, pool, a, a);
    assert InPool(pool, c, i) && StepDescends(rank, pool, a, c, i);
  }

  /** Every other descendant descends from a transaction that spends an output directly. */
  lemma {:induction false} FirstSpender(rank: Rank, pool: Txs, a: Txid, b: Txid) returns (c: Txid, j: nat)
    requires Ranked(rank, pool) && a in pool && b in pool && b != a && Descends(rank, pool, a, b)
    ensures j < |pool[a].vout| && Spends(pool, c, OutPoint(a, j)) && Descends(rank, pool, c, b)
    decreases rank(b)
  {
    var i: nat :| i < |pool[b].vin| && InPool(pool, b, i) && StepDescends(rank, pool, a, b, i);
    assert Acyclic(rank, pool[b]);
    var p := pool[b].vin[i].hash;
    if p == a {
      c, j := b, pool[b].vin[i].n;
      assert pool[b].vin[i] == OutPoint(a, j);
    } else {
      c, j := FirstSpender(rank, pool, a, p);
      assert StepDescends(rank, pool, c, b, i);
    }
  }

  lemma {:induction false} DescendantsRankHigher(rank: Rank, pool: Txs, a: Txid, b: Txid)
    requires Ranked(rank, pool) && b in pool && Descends(rank, pool, a, b)
    ensures b == a || rank(a) < rank(b)
    decreases rank(b)
  {
    if b != a {
      var i: nat :| i < |pool[b].vin| && InPool(pool, b, i) && StepDescends(rank, pool, a, b, i);
      assert Acyclic(rank, pool[b]);
      DescendantsRankHigher(rank, pool, a, pool[b].vin[i].hash);
    }
  }

  /** Part of the pool, from which nothing was taken without everything that depends on it. */
  ghost predicate ClosedPart(pool: Txs, part: Txs)
  {
    && (forall t :: t in part ==> t in pool && part[t] == pool[t])
    && (forall t, i: nat :: t in part && i < |pool[t].vin| && InPool(pool, t, i) ==> pool[t].vin[i].hash in part)
  }

  /** Dependence between what is left is as it was. */
  lemma {:induction false} PartDescends(rank: Rank, pool: Txs, part: Txs, a: Txid, b: Txid)
    requires Ranked(rank, pool) && ClosedPart(pool, part) && b in part
    ensures Ranked(rank, part) && (Descends(rank, part, a, b) <==> Descends(rank, pool, a, b))
    decreases rank(b)
  {
    assert forall t :: t in part ==> part[t] == pool[t];
    if b != a {
      forall i: nat | i < |pool[b].vin|
        ensures InPool(pool, b, i) <==> InPool(part, b, i)
        ensures InPool(pool, b, i) ==> (StepDescends(rank, pool, a, b, i) <==> StepDescends(rank, part, a, b, i))
      {
        assert Acyclic(rank, pool[b]);
        if InPool(pool, b, i) {
          PartDescends(rank, pool, part, a, pool[b].vin[i].hash);
        }
      }
    }
  }

  /** b descends from a transaction that spends one of the given outputs. */
  ghost predicate Taken(rank: Rank, pool: Txs, ops: seq<OutPoint>, b: Txid)
    requires Ranked(rank, pool) && b in pool
  {
    exists c, j: nat :: j < |ops| && Spends(pool, c, ops[j]) && Descends(rank, pool, c, b)
  }

  /** The pool without the transactions that spend one of the given outputs and everything that depends on them. */
  ghost function WithoutSpenders(rank: Rank, pool: Txs, ops: seq<OutPoint>): Txs
    requires Ranked(rank, pool)
  {
    map t | t in pool && !Taken(rank, pool, ops, t) :: pool[t]
  }

  lemma WithoutSpendersIsClosed(rank: Rank, pool: Txs, ops: seq<OutPoint>)
    requires Ranked(rank, pool)
    ensures ClosedPart(pool, WithoutSpenders(rank, pool, ops)) && Ranked(rank, WithoutSpenders(rank, pool, ops))
  {
    var part := WithoutSpenders(rank, pool, ops);
    forall t, i: nat | t in part && i < |pool[t].vin| && InPool(pool, t, i) ensures pool[t].vin[i].hash in part {
      var p := pool[t].vin[i].hash;
      if Taken(rank, pool, ops, p) {
        var c, j: nat :| j < |ops| && Spends(pool, c, ops[j]) && Descends(rank, pool, c, p);
        assert StepDescends(rank, pool, c, t, i);
        assert Descends(rank, pool, c, t);
        assert Taken(rank, pool, ops, t);
      }
    }
  }

  /** One more output, which no transaction left spends. */
  lemma NextUnspent(rank: Rank, pool: Txs, ops: seq<OutPoint>, op: OutPoint)
    requires Ranked(rank, pool)
    requires forall c :: !Spends(WithoutSpenders(rank, pool, ops), c, op)
    ensures WithoutSpenders(rank, pool, ops + [op]) == WithoutSpenders(rank, pool, ops)
  {
    var part := WithoutSpenders(rank, pool, ops);
    forall t | t in pool ensures Taken(rank, pool, ops + [op], t) <==> Taken(rank, pool, ops, t) {
      if Taken(rank, pool, ops + [op], t) {
        var c, j: nat :| j < |ops| + 1 && Spends(pool, c, (ops + [op])[j]) && Descends(rank, pool, c, t);
        if j == |ops| {
          assert !Spends(part, c, op);
          TakenTransitive(rank, pool, ops, c, t);
        } else {
          assert Spends(pool, c, ops[j]);
        }
      }
      if Taken(rank, pool, ops, t) {
        TakenMore(rank, pool, ops, op, t);
      }
    }
  }

  lemma TakenTransitive(rank: Rank, pool: Txs, ops: seq<OutPoint>, c: Txid, t: Txid)
    requires Ranked(rank, pool) && c in pool && t in pool && Taken(rank, pool, ops, c) && Descends(rank, pool, c, t)
    ensures Taken(rank, pool, ops, t)
  {
    var d, j: nat :| j < |ops| && Spends(pool, d, ops[j]) && Descends(rank, pool, d, c);
    DescendsTransitive(rank, pool, d, c, t);
  }

  lemma TakenMore(rank: Rank, pool: Txs, ops: seq<OutPoint>, op: OutPoint, t: Txid)
    requires Ranked(rank, pool) && t in pool && Taken(rank, pool, ops, t)
    ensures Taken(rank, pool, ops + [op], t)
  {
    var c, j: nat :| j < |ops| && Spends(pool, c, ops[j]) && Descends(rank, pool, c, t);
    assert (ops + [op])[j] == ops[j];
  }

  /** The pool without a transaction and everything that depends on it. */
  ghost function Without(rank: Rank, pool: Txs, a: Txid): Txs
    requires Ranked(rank, pool)
  {
    map t | t in pool && !Descends(rank, pool, a, t) :: pool[t]
  }

  /** One more output, whose only spender is removed with its descendants. */
  lemma NextSpent(rank: Rank, pool: Txs, next: Index, ops: seq<OutPoint>, op: OutPoint, c: Txid)
    requires Ranked(rank, pool) && Indexed(pool, next) && Spends(WithoutSpenders(rank, pool, ops), c, op)
    ensures var part := WithoutSpenders(rank, pool, ops);
            Ranked(rank, part) && Without(rank, part, c) == WithoutSpenders(rank, pool, ops + [op])
  {
    var part := WithoutSpenders(rank, pool, ops);
    WithoutSpendersIsClosed(rank, pool, ops);
    forall t | t in pool ensures t in Without(rank, part, c) <==> !Taken(rank, pool, ops + [op], t) {
      if t in part {
        PartDescends(rank, pool, part, c, t);
      }
      if Descends(rank, pool, c, t) {
        assert (ops + [op])[|ops|] == op;
        assert Spends(pool, c, op);
        assert Taken(rank, pool, ops + [op], t);
      }
      if Taken(rank, pool, ops, t) {
        TakenMore(rank, pool, ops, op, t);
      }
      if Taken(rank, pool, ops + [op], t) {
        var d, j: nat :| j < |ops| + 1 && Spends(pool, d, (ops + [op])[j]) && Descends(rank, pool, d, t);
        if j == |ops| {
          SameSpender(pool, next, c, d, op);
        } else {
          assert Spends(pool, d, ops[j]);
        }
      }
    }
  }

  lemma SameSpender(pool: Txs, next: Index, c: Txid, d: Txid, op: OutPoint)
    requires Indexed(pool, next) && c in pool && d in pool && op in pool[c].vin && op in pool[d].vin
    ensures c == d
  {
    var i: nat :| i < |pool[c].vin| && pool[c].vin[i] == op;
    var j: nat :| j < |pool[d].vin| && pool[d].vin[j] == op;
    NoSharedInputs(pool, next, c, i, d, j);
  }

  function Outputs(a: Txid, k: nat): (ops: seq<OutPoint>)
    ensures |ops| == k && forall j :: 0 <= j < k ==> ops[j] == OutPoint(a, j)
  {
    seq(k, j requires 0 <= j < k => OutPoint(a, j))
  }

  /** Once the spenders of every output are gone, only the transaction itself remains to be removed. */
  lemma OnlyItselfRemains(rank: Rank, pool: Txs, a: Txid)
    requires Ranked(rank, pool) && a in pool
    ensures var part := WithoutSpenders(rank, pool, Outputs(a, |pool[a].vout|));
            a in part && part - {a} == Without(rank, pool, a)
  {
    var ops := Outputs(a, |pool[a].vout|);
    if Taken(rank, pool, ops, a) {
      var c, j: nat :| j < |ops| && Spends(pool, c, ops[j]) && Descends(rank, pool, c, a);
      SpenderDescends(rank, pool, a, c, j);
      DescendantsRankHigher(rank, pool, c, a);
    }
    forall t | t in pool && t != a ensures Taken(rank, pool, ops, t) <==> Descends(rank, pool, a, t) {
      if Taken(rank, pool, ops, t) {
        var c, j: nat :| j < |ops| && Spends(pool, c, ops[j]) && Descends(rank, pool, c, t);
        SpenderDescends(rank, pool, a, c, j);
        DescendsTransitive(rank, pool, a, c, t);
      }
      if Descends(rank, pool, a, t) {
        var c, j := FirstSpender(rank, pool, a, t);
        assert Spends(pool, c, ops[j]);
      }
    }
  }

  /** Removing the spenders of no output removes nothing. */
  lemma NothingToRemove(rank: Rank, pool: Txs)
    requires Ranked(rank, pool)
    ensures WithoutSpenders(rank, pool, []) == pool
  {
  }

  /** A bound on the ranks in the pool. */
  ghost function RankBound(rank: Rank, ids: set<Txid>): (r: nat)
    ensures forall t :: t in ids ==> rank(t) <= r
  {
    if ids == {} then 0
    else
      var t :| t in ids;
      var rest := RankBound(rank, ids - {t});
      if rank(t) <= rest then rest else rank(t)
  }
}
