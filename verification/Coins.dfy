/**
 Unspent outputs of one transaction and the undo record of one spend (src/main.h, CCoins and CTxInUndo).

 CCoins is stored by value in maps, so it is a datatype here; the loops of Cleanup and IsPruned are methods
 proved against the functions Trim and IsPruned.
 */
module Coins {
  import Codec

  type Txid = nat
  type Script = Codec.Stream

  datatype Option<+T> = None | Some(value: T)

  datatype OutPoint = OutPoint(hash: Txid, n: nat)
  {
    predicate IsNull() { hash == 0 && n == 0xFFFF_FFFF }
  }

  datatype TxOut = TxOut(value: int, script: Script)
  {
    predicate IsNull() { value == -1 }
  }

  const NULL_OUT := TxOut(-1, [])

  datatype Coins = Coins(coinBase: bool, vout: seq<TxOut>, height: nat, version: int)
  {
    predicate IsAvailable(n: nat) { n < |vout| && !vout[n].IsNull() }

    predicate IsPruned() { forall i :: 0 <= i < |vout| ==> vout[i].IsNull() }

    /** What every stored CCoins satisfies: no spent output at the end, spent outputs cleared, values not negative. */
    ghost predicate WellFormed()
    {
      && (vout == [] || !vout[|vout| - 1].IsNull())
      && (forall i :: 0 <= i < |vout| ==> vout[i] == NULL_OUT || vout[i].value >= 0)
    }
  }

  const NO_COINS := Coins(false, [], 0, 0)

  datatype TxInUndo = TxInUndo(txout: TxOut, coinBase: bool, height: nat, version: int)

  datatype SpendResult = SpendResult(coins: Coins, undo: TxInUndo)

  datatype RestoreResult = RestoreResult(coins: Coins, clean: bool)

  // ----- what the stored form keeps -----

  /** What comes back of a version: the same number, unless it is negative; then its lowest seven bits. */
  function StoredVersion(version: int): (v: int)
    ensures v >= 0 && (v == version <==> version >= 0)
  {
    if version < 0 then version % 128 else version
  }

  function StoredCoins(c: Coins): Coins { c.(version := StoredVersion(c.version)) }

  /** Records without a height are stored without a version. */
  function StoredUndo(undo: TxInUndo): TxInUndo
  {
    undo.(version := if undo.height > 0 then StoredVersion(undo.version) else 0)
  }

  /** vout without the spent outputs at its end. */
  function Trim(vout: seq<TxOut>): (t: seq<TxOut>)
    ensures |t| <= |vout| && t == vout[..|t|]
    ensures t == [] || !t[|t| - 1].IsNull()
    ensures forall i :: |t| <= i < |vout| ==> vout[i].IsNull()
  {
    if vout != [] && vout[|vout| - 1].IsNull() then Trim(vout[..|vout| - 1]) else vout
  }

  /** vout grown with null outputs to at least size elements (std::vector::resize guarded by the size test). */
  function Grow(vout: seq<TxOut>, size: nat): (t: seq<TxOut>)
    ensures |t| == if |vout| < size then size else |vout|
    ensures forall i :: 0 <= i < |t| ==> t[i] == if i < |vout| then vout[i] else NULL_OUT
  {
    if |vout| < size then vout + seq(size - |vout|, _ => NULL_OUT) else vout
  }

  /** CCoins::Spend: None when the output does not exist or is spent already. */
  function Spend(c: Coins, n: nat): Option<SpendResult>
  {
    if !c.IsAvailable(n) then None
    else
      var spent := c.(vout := Trim(c.vout[n := NULL_OUT]));
      var out := c.vout[n];
      Some(SpendResult(spent,
                       if spent.vout == [] then TxInUndo(out, c.coinBase, c.height, c.version)
                       else TxInUndo(out, false, 0, 0)))
  }

  /** The restoring of one input in DisconnectBlock, on the coins found in the view (NO_COINS when none). */
  function Restore(c: Coins, n: nat, undo: TxInUndo): RestoreResult
  {
    var base := if undo.height != 0 then Coins(undo.coinBase, [], undo.height, undo.version) else c;
    RestoreResult(
      base.(vout := Grow(base.vout, n + 1)[n := undo.txout]),
      (if undo.height != 0 then c.IsPruned() else !c.IsPruned()) && !base.IsAvailable(n))
  }

  /** Cleanup in place: pop spent outputs off the end. */
  method Cleanup(c: Coins) returns (r: Coins)
    ensures r == c.(vout := Trim(c.vout))
  {
    var vout := c.vout;
    while |vout| > 0 && vout[|vout| - 1].IsNull()
      invariant Trim(vout) == Trim(c.vout)
    {
      vout := vout[..|vout| - 1];
    }
    r := c.(vout := vout);
  }

  /** CCoins::Spend as it runs: read the output, clear it, clean up, record metadata on the last one. */
  method SpendInPlace(c: Coins, n: nat) returns (r: Option<SpendResult>)
    ensures r == Spend(c, n)
  {
    if n >= |c.vout| { return None; }
    if c.vout[n].IsNull() { return None; }
    var undo := TxInUndo(c.vout[n], false, 0, 0);
    var spent := Cleanup(c.(vout := c.vout[n := NULL_OUT]));
    if |spent.vout| == 0 {
      undo := TxInUndo(undo.txout, c.coinBase, c.height, c.version);
    }
    r := Some(SpendResult(spent, undo));
  }

  lemma TrimmedPruned(c: Coins)
    requires c.vout == [] || !c.vout[|c.vout| - 1].IsNull()
    ensures c.IsPruned() <==> c.vout == []
  {
    if c.vout != [] {
      assert !c.vout[|c.vout| - 1].IsNull();
    }
  }

  /** Clearing one output and trimming takes away that output and no other. */
  lemma ClearEffect(vout: seq<TxOut>, n: nat)
    requires n < |vout|
    ensures var t := Trim(vout[n := NULL_OUT]);
            && (forall m: nat :: m < |t| ==> t[m] == if m == n then NULL_OUT else vout[m])
            && (forall m: nat :: |t| <= m < |vout| && m != n ==> vout[m].IsNull())
            && (t == [] || !t[|t| - 1].IsNull())
  {
    var marked := vout[n := NULL_OUT];
    assert forall m: nat :: m < |vout| && m != n ==> marked[m] == vout[m];
  }

  /** Spending keeps the stored form, removes exactly one output and nothing else. */
  lemma SpendEffect(c: Coins, n: nat)
    requires c.WellFormed() && c.IsAvailable(n)
    ensures var s := Spend(c, n).value;
            && s.coins.WellFormed()
            && s.undo.txout == c.vout[n]
            && !s.coins.IsAvailable(n)
            && (forall m: nat :: m != n ==> s.coins.IsAvailable(m) == c.IsAvailable(m))
            && (forall m: nat :: s.coins.IsAvailable(m) ==> s.coins.vout[m] == c.vout[m])
            && s.coins.(vout := c.vout) == c
  {
    hide Trim;
    ClearEffect(c.vout, n);
  }

  /** Growing the trimmed outputs back to position n and writing the spent output there restores vout. */
  lemma GrowUndoesTrim(vout: seq<TxOut>, n: nat)
    requires n < |vout| && !vout[n].IsNull() && !vout[|vout| - 1].IsNull()
    requires forall i :: 0 <= i < |vout| && vout[i].IsNull() ==> vout[i] == NULL_OUT
    ensures Grow(Trim(vout[n := NULL_OUT]), n + 1)[n := vout[n]] == vout
  {
    var marked := vout[n := NULL_OUT];
    var t := Trim(marked);
    if n < |vout| - 1 {
      assert !marked[|vout| - 1].IsNull();
      assert |t| == |vout|;
    } else {
      assert |t| <= n;
      assert forall i :: |t| <= i < n ==> marked[i].IsNull() && marked[i] == vout[i];
    }
  }

  /**
   Restoring undoes spending.  The coins found at undo time are either the spent coins themselves or, when
   nothing was left unspent, any pruned entry (an erased record reads as NO_COINS).
   */
  lemma RestoreUndoesSpend(c: Coins, n: nat, found: Coins)
    requires c.WellFormed() && c.IsAvailable(n) && c.height != 0
    requires var spent := Spend(c, n).value.coins;
             found == spent || (spent.IsPruned() && found.IsPruned())
    ensures Restore(found, n, Spend(c, n).value.undo) == RestoreResult(c, true)
  {
    var s := Spend(c, n).value;
    GrowUndoesTrim(c.vout, n);
    SpendEffect(c, n);
    TrimmedPruned(s.coins);
  }
}
