/**
 One reorganisation that leaves a transaction in the pool without the output that it spends (src/main.cpp:1957-2036).
 */
module PoolOrphan {
  import opened Coins
  import opened Ledger
  import opened LedgerRuns
  import opened MemPool
  import opened TxMemPool
  import opened PoolReorg
  import opened PoolOutcome
  import opened Wear
  import opened LedgerInverse

  /** A coinbase. */
  function Reward(id: Txid): Tx { Tx(id, 1, [OutPoint(0, 0xFFFF_FFFF)], [TxOut(1, [])]) }

  /** A block with nothing but a coinbase. */
  function Empty(rules: Rules, id: Txid): Link { Link(rules, Block([Reward(id)])) }

  /** A chain of such blocks, numbered by their heights. */
  function Empties(rules: Rules, n: nat): seq<Link>
  {
    if n == 0 then [] else Empties(rules, n - 1) + [Empty(rules, n)]
  }

  function Rewards(n: nat): Utxo
  {
    if n == 0 then map[] else Rewards(n - 1)[n := CoinsOf(Reward(n), n)]
  }

  /** The first coin, once it may be spent, and who spends what that leaves. */
  const PARENT := Tx(2000, 1, [OutPoint(1, 0)], [TxOut(1, [])])
  const CHILD := Tx(3000, 1, [OutPoint(2000, 0)], [TxOut(1, [])])

  const BODY: Txid -> Tx := (t: Txid) => if t == 2000 then PARENT else if t == 3000 then CHILD else Reward(t)
  const RANK: Rank := (t: Txid) => t

  ghost predicate Plain(rules: Rules)
  {
    rules.enforceBip30 && !rules.strictP2SH && !rules.scriptChecks && forall tx :: rules.engine.legacySigOps(tx) <= 100
  }

  lemma RewardPasses(id: Txid)
    ensures var tx := Reward(id); tx.IsCoinBase() && CheckTransaction(tx) && ValueOut(tx) == 1
  {
    OneOutput(Reward(id));
  }

  lemma OneOutput(tx: Tx)
    requires |tx.vout| == 1
    ensures ValueOut(tx) == tx.vout[0].value
  {
    var v := tx.vout;
    assert v[..0] == [] && SumValues(v) == SumValues(v[..|v| - 1]) + v[|v| - 1].value;
  }

  lemma SpenderPasses(tx: Tx)
    requires tx == PARENT || tx == CHILD
    ensures !tx.IsCoinBase() && CheckTransaction(tx) && ValueOut(tx) == 1
  {
    OneOutput(tx);
  }

  lemma {:induction false} RewardsAre(n: nat)
    ensures forall t :: t in Rewards(n) <==> 1 <= t <= n
    ensures forall t: nat :: 1 <= t <= n ==> Rewards(n)[t] == CoinsOf(Reward(t), t)
  {
    if n > 0 {
      RewardsAre(n - 1);
    }
  }

  lemma RewardConnects(rules: Rules, u: Utxo, height: nat, id: Txid)
    requires Plain(rules) && 0 < height < HALVING_INTERVAL && id !in u
    ensures var block := Block([Reward(id)]);
            && HeightInRange(height) && CheckBlock(block) && ConnectBlock(rules, u, block, height).Some?
            && ConnectBlock(rules, u, block, height).value.utxo == u[id := CoinsOf(Reward(id), height)]
  {
    var tx := Reward(id);
    RewardPasses(id);
    assert [tx][..0] == [] && [tx][|[tx]| - 1] == tx;
    assert ConnectTxs(rules, u, [], height) == Some(Progress(u, [], 0, 0, true));
    assert !CoinsOf(tx, height).vout[0].IsNull();
    assert BlockValue(height, 0) >= 1;
  }

  lemma {:induction false} EmptiesReplay(rules: Rules, n: nat)
    requires Plain(rules) && n < 1000
    ensures |Empties(rules, n)| == n && Replay(Empties(rules, n)).Some?
    ensures Replay(Empties(rules, n)).value.utxo == Rewards(n)
  {
    hide ConnectBlock, CheckBlock, CoinsOf;
    if n > 0 {
      EmptiesReplay(rules, n - 1);
      RewardsAre(n - 1);
      RewardConnects(rules, Rewards(n - 1), n, n);
      assert Empties(rules, n)[..n - 1] == Empties(rules, n - 1);
    }
  }

  // ----- the two branches -----

  const BASE: nat := 100

  function Former(rules: Rules): seq<Link> { [Link(rules, Block([Reward(1001), PARENT]))] }

  function Branch(rules: Rules): seq<Link> { [Empty(rules, 1002)] }

  lemma ParentConnects(rules: Rules, p: Progress)
    requires Plain(rules) && ValidUtxo(p.utxo) && 1 in p.utxo && p.utxo[1] == CoinsOf(Reward(1), 1) && 2000 !in p.utxo
    requires p.sigOps <= 100
    ensures ConnectTx(rules, p, PARENT, 101).Some?
    ensures var q := ConnectTx(rules, p, PARENT, 101).value;
            Unspent(q.utxo, OutPoint(2000, 0)) && q.fees == p.fees && q.scriptsOk == p.scriptsOk
  {
    var vin := PARENT.vin;
    SpenderPasses(PARENT);
    assert vin == [OutPoint(1, 0)] && vin[..0] == [] && vin[|vin| - 1] == OutPoint(1, 0);
    assert !p.utxo[1].vout[0].IsNull() && Unspent(p.utxo, vin[0]);
    OneInput(p.utxo, vin[0]);
    assert InputsInOrder(p.utxo, vin[..0], 101) && InputsInOrder(p.utxo, vin, 101);
    AvailableInputsCanBeSpent(p.utxo, vin);
    ConnectTxOutputs(rules, p, PARENT, 101, OutPoint(2000, 0));
  }

  lemma FormerBlockConnects(rules: Rules, u: Utxo)
    requires Plain(rules) && ValidUtxo(u) && 1 in u && u[1] == CoinsOf(Reward(1), 1) && 1001 !in u && 2000 !in u
    ensures var block := Block([Reward(1001), PARENT]);
            && CheckBlock(block) && ConnectBlock(rules, u, block, 101).Some?
            && Unspent(ConnectBlock(rules, u, block, 101).value.utxo, OutPoint(2000, 0))
  {
    hide ConnectTx, CheckTransaction, CoinsOf;
    var vtx := [Reward(1001), PARENT];
    RewardPasses(1001);
    SpenderPasses(PARENT);
    RewardStep(rules, u);
    var p := ConnectTx(rules, Progress(u, [], 0, 0, true), Reward(1001), 101).value;
    ParentConnects(rules, p);
    assert vtx[..1] == [Reward(1001)] && vtx[..1][..0] == [];
    assert ConnectTxs(rules, u, [], 101) == Some(Progress(u, [], 0, 0, true));
    assert ConnectTxs(rules, u, vtx[..1], 101) == Some(p);
    assert ConnectTxs(rules, u, vtx, 101) == ConnectTx(rules, p, PARENT, 101);
    assert BlockValue(101, 0) >= 1;
  }

  lemma FormerConnects(rules: Rules)
    requires Plain(rules)
    ensures Replay(Empties(rules, BASE) + Former(rules)).Some?
    ensures Unspent(Replay(Empties(rules, BASE) + Former(rules)).value.utxo, OutPoint(2000, 0))
  {
    hide ConnectBlock, CheckBlock, CoinsOf, ValidUtxo;
    var base, former := Empties(rules, BASE), Former(rules);
    EmptiesReplay(rules, BASE);
    RewardsAre(BASE);
    ReplaySupply(base);
    FormerBlockConnects(rules, Rewards(BASE));
    assert (base + former)[..BASE] == base && (base + former)[BASE] == former[0];
  }

  lemma RewardStep(rules: Rules, u: Utxo)
    requires Plain(rules) && ValidUtxo(u)
    ensures var q := ConnectTx(rules, Progress(u, [], 0, 0, true), Reward(1001), 101);
            q.Some? && q.value.utxo == u[1001 := CoinsOf(Reward(1001), 101)] && ValidUtxo(q.value.utxo)
            && q.value.fees == 0 && q.value.sigOps <= 100 && q.value.scriptsOk
  {
    RewardPasses(1001);
    CoinsOfWellFormed(Reward(1001), 101);
    assert !CoinsOf(Reward(1001), 101).vout[0].IsNull();
  }

  lemma BranchConnects(rules: Rules)
    requires Plain(rules)
    ensures Replay(Empties(rules, BASE) + Branch(rules)).Some?
    ensures Replay(Empties(rules, BASE) + Branch(rules)).value.utxo == Rewards(BASE)[1002 := CoinsOf(Reward(1002), 101)]
  {
    hide ConnectBlock, CheckBlock, CoinsOf;
    var base, branch := Empties(rules, BASE), Branch(rules);
    EmptiesReplay(rules, BASE);
    RewardsAre(BASE);
    RewardConnects(rules, Rewards(BASE), 101, 1002);
    assert (base + branch)[..BASE] == base && (base + branch)[BASE] == branch[0];
  }

  // ----- the reorganisation -----

  function Switch(rules: Rules, policy: Policy): Reorg
  {
    Reorg(Empties(rules, BASE), Former(rules), Branch(rules), Rewards(BASE)[1002 := CoinsOf(Reward(1002), 101)], 0,
          [policy])
  }

  const WORLD := World(BODY, RANK)
  const POOL: Txs := map[3000 := CHILD]

  /** The parent is offered again and refused, say because it is not of a standard form. */
  lemma ParentRefused(rules: Rules, policy: Policy)
    requires Plain(rules) && !policy.standard
    ensures var r := Switch(rules, policy); r.Again() == [PARENT] && |r.policies| == 1 && r.Offered(POOL) == POOL
  {
    var r := Switch(rules, policy);
    EmptiesReplay(rules, BASE);
    SpenderPasses(PARENT);
    RewardPasses(1001);
    var vtx := [Reward(1001), PARENT];
    assert vtx[..1] == [Reward(1001)] && vtx[..1][..0] == [];
    assert Spenders([]) == [] && Spenders(vtx[..1]) == [] && Spenders(vtx) == [PARENT];
    assert r.former[..0] == [] && Resurrected([], 101, 0) == [];
    assert r.Again() == [PARENT] + [];
    assert r.Again() == [PARENT];
    OfferedOne(r.tip, POOL, PARENT, policy);
  }

  lemma OfferedOne(tip: Utxo, pool: Txs, tx: Tx, policy: Policy)
    requires !policy.standard
    ensures OfferAll(tip, pool, [tx], [policy]) == pool
  {
    assert [tx][..0] == [] && [policy][..0] == [];
    assert OfferAll(tip, pool, [], []) == pool && !Joins(tip, pool, tx, policy);
  }

  /**
   The child was in the pool and every input was provided.  After the switch it is still in the pool, its parent is
   neither there nor in the chain, and the output that it spends does not exist any more.
   */
  lemma OrphanedChild(rules: Rules, policy: Policy)
    requires Plain(rules) && policy.checkInputs && !policy.standard
    ensures var r := Switch(rules, policy);
            && r.Valid(WORLD) && Replay(r.base + r.former).Some? &&
               Spendable(Replay(r.base + r.former).value.utxo, POOL)
            && Replay(r.base).Some? && r.Offered(POOL) == POOL && Ranked(RANK, POOL) && r.Orphans(WORLD, POOL, 3000)
            && !Spendable(Live(r.tip), ConfirmAll(RANK, POOL, TxsOf(r.branch)))
  {
    hide Replay, ConfirmAll, Reorg.Valid, Reorg.Again, Spendable, Stays, Backed, OfferAll, Acyclic, World.Genuine,
      WornSet;
    var r := Switch(rules, policy);
    EmptiesReplay(rules, BASE);
    ParentRefused(rules, policy);
    SwitchIsValid(rules, policy);
    WasSpendable(rules);
    NotBacked(rules);
    ChildStays(rules);
    assert CHILD.vin[0] in POOL[3000].vin;
    PoolIsGenuine();
    SpendableIffNoOrphan(WORLD, r, POOL);
  }

  lemma PoolIsGenuine()
    ensures AllGenuineIn(WORLD, POOL)
  {
  }

  lemma WasSpendable(rules: Rules)
    requires Plain(rules)
    ensures Replay(Empties(rules, BASE) + Former(rules)).Some?
    ensures Spendable(Replay(Empties(rules, BASE) + Former(rules)).value.utxo, POOL)
  {
    hide Replay;
    FormerConnects(rules);
    assert Provided(Replay(Empties(rules, BASE) + Former(rules)).value.utxo, POOL, CHILD.vin[0]);
  }

  lemma SwitchIsValid(rules: Rules, policy: Policy)
    requires Plain(rules) && policy.checkInputs && !policy.standard
    ensures Switch(rules, policy).Valid(WORLD)
  {
    hide Replay, WornSet, OfferAll;
    BranchConnects(rules);
    ParentRefused(rules, policy);
    TipIsLive(rules);
    OneBranchBlock(rules);
  }

  lemma OneBranchBlock(rules: Rules)
    ensures TxsOf(Branch(rules)) == [Reward(1002)]
  {
    assert Branch(rules)[..0] == [] && TxsOf([]) == [];
  }

  lemma TipIsLive(rules: Rules)
    ensures var tip := Rewards(BASE)[1002 := CoinsOf(Reward(1002), 101)]; Live(tip) == tip && WornSet(tip, tip)
  {
    RewardsAre(BASE);
    var tip := Rewards(BASE)[1002 := CoinsOf(Reward(1002), 101)];
    forall t | t in tip ensures !tip[t].IsPruned() {
      assert tip[t].vout == [TxOut(1, [])] && !tip[t].vout[0].IsNull();
    }
  }

  lemma NotBacked(rules: Rules)
    ensures !Backed(Rewards(BASE), POOL, TxsOf(Branch(rules)), CHILD.vin[0])
  {
    RewardsAre(BASE);
    OneBranchBlock(rules);
  }

  lemma ChildStays(rules: Rules)
    ensures Ranked(RANK, POOL) && Stays(RANK, POOL, TxsOf(Branch(rules)), 3000)
  {
    OneBranchBlock(rules);
    var connected := [Reward(1002)];
    var rest := Unconfirmed(RANK, POOL, connected[..1]);
    assert connected[..1] == connected;
    assert forall c, j: nat :: j < |Reward(1002).vin| ==> !Spends(rest, c, Reward(1002).vin[j]);
  }
}
