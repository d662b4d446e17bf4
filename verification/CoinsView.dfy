/**
 The stack of coin views: any number of CCoinsViewCache layers over CCoinsViewDB
 (src/main.cpp:168-257, src/txdb.cpp:11-65).
 */
module CoinsView {
  import opened Coins
  import opened Ledger
  import opened BlockTree
  import opened Wear

  /** Entries of m replace those of u; an entry with nothing unspent counts as absent. */
  ghost function Overlay(u: Utxo, m: map<Txid, Coins>): Utxo
  {
    map t | t in u.Keys + m.Keys && (t in m ==> !m[t].IsPruned()) :: if t in m then m[t] else u[t]
  }

  /** Copying an entry up from below changes nothing. */
  lemma OverlayCopy(u: Utxo, m: map<Txid, Coins>, t: Txid, c: Coins)
    requires t !in m && (if t in u then c == u[t] && !c.IsPruned() else c.IsPruned())
    ensures Overlay(u, m[t := c]) == Overlay(u, m)
  {
  }

  lemma OverlayPut(u: Utxo, m: map<Txid, Coins>, t: Txid, c: Coins)
    ensures Overlay(u, m[t := c]) == Put(Overlay(u, m), t, c)
  {
  }

  lemma OverlayMerge(u: Utxo, m: map<Txid, Coins>, m': map<Txid, Coins>)
    ensures Overlay(u, m + m') == Overlay(Overlay(u, m), m')
  {
  }

  lemma OverlayNothing(u: Utxo)
    ensures Overlay(u, map[]) == u
  {
  }

  /** No entry with something unspent would be changed by storing it. */
  ghost predicate Storable(m: map<Txid, Coins>)
  {
    forall t :: t in m && !m[t].IsPruned() ==> m[t].version >= 0
  }

  /**
   Storing a batch wears what it writes and nothing else, and changes nothing exactly when no version in it is negative.
   */
  lemma OverlayStored(u: Utxo, m: map<Txid, Coins>)
    ensures WornSet(Overlay(u, Stored(m)), Overlay(u, m))
    ensures Overlay(u, Stored(m)) == Overlay(u, m) <==> Storable(m)
    ensures AllStored(u) ==> Overlay(u, Stored(m)) == Stored(Overlay(u, m))
  {
    hide Coins.IsPruned;
    StoredPruned(m);
    if Overlay(u, Stored(m)) == Overlay(u, m) {
      forall t | t in m && !m[t].IsPruned() ensures m[t].version >= 0 {
        assert Overlay(u, Stored(m))[t] == Overlay(u, m)[t];
      }
    }
  }

  lemma StoredPruned(m: map<Txid, Coins>)
    ensures forall t :: t in m ==> Stored(m)[t].IsPruned() == m[t].IsPruned()
  {
  }

  /** Entries on disk after the part done of a batch m has been applied. */
  ghost function Written(coins: map<Txid, Coins>, m: map<Txid, Coins>, done: set<Txid>): map<Txid, Coins>
    requires done <= m.Keys
  {
    map t | t in coins.Keys + done && (t in done ==> !m[t].IsPruned()) :: if t in done then StoredCoins(m[t])
      else coins[t]
  }

  lemma WrittenStep(coins: map<Txid, Coins>, m: map<Txid, Coins>, done: set<Txid>, t: Txid)
    requires done <= m.Keys && t in m && t !in done
    ensures Written(coins, m, done + {t}) == Put(Written(coins, m, done), t, StoredCoins(m[t]))
  {
  }

  lemma WrittenOverlay(coins: map<Txid, Coins>, m: map<Txid, Coins>)
    ensures Overlay(map[], Written(coins, m, m.Keys)) == Overlay(Overlay(map[], coins), Stored(m))
  {
    WrittenIsOverlay(coins, m);
    OverlayTwice(coins, Stored(m));
  }

  lemma WrittenIsOverlay(coins: map<Txid, Coins>, m: map<Txid, Coins>)
    ensures Written(coins, m, m.Keys) == Overlay(coins, Stored(m))
  {
    hide Coins.IsPruned;
    StoredPruned(m);
  }

  lemma OverlayTwice(coins: map<Txid, Coins>, m: map<Txid, Coins>)
    ensures Overlay(map[], Overlay(coins, m)) == Overlay(Overlay(map[], coins), m)
  {
    hide Coins.IsPruned;
  }

  lemma WrittenNothing(coins: map<Txid, Coins>, m: map<Txid, Coins>)
    ensures Written(coins, m, {}) == coins
  {
  }

  /** The loop of BatchWrite over the entries, in any order, on a copy that is then written at once. */
  method BuildBatch(coins: map<Txid, Coins>, m: map<Txid, Coins>) returns (batch: map<Txid, Coins>)
    ensures batch == Written(coins, m, m.Keys)
  {
    hide Written;
    batch := coins;
    var todo := m.Keys;
    WrittenNothing(coins, m);
    assert m.Keys - todo == {};
    while todo != {}
      invariant todo <= m.Keys
      invariant batch == Written(coins, m, m.Keys - todo)
      decreases |todo|
    {
      var t :| t in todo;
      WrittenStep(coins, m, m.Keys - todo, t);
      assert m.Keys - (todo - {t}) == m.Keys - todo + {t};
      if m[t].IsPruned() {
        batch := batch - {t};
      } else {
        batch := batch[t := StoredCoins(m[t])];
      }
      todo := todo - {t};
    }
    assert m.Keys - todo == m.Keys;
  }

  class CoinsViewDB {
    var coins: map<Txid, Coins>
    var best: BlockIndex?

    constructor ()
      ensures Flat() == map[] && best == null
    {
      coins, best := map[], null;
    }

    /** The set this database stands for. */
    ghost function Flat(): Utxo
      reads this
    {
      Overlay(map[], coins)
    }

    method GetCoins(t: Txid) returns (r: Option<Coins>)
      ensures r == if t in coins then Some(coins[t]) else None
    {
      r := if t in coins then Some(coins[t]) else None;
    }

    /**
     One atomic batch: pruned entries are erased, the others written in their stored form; ioOk is the verdict of the
     disk.
     */
    method BatchWrite(m: map<Txid, Coins>, tip: BlockIndex?, ioOk: bool) returns (ok: bool)
      modifies this
      ensures ok == ioOk
      ensures !ok ==> unchanged(this)
      ensures ok ==> Flat() == Overlay(old(Flat()), Stored(m))
      ensures ok ==> best == if tip != null then tip else old(best)
    {
      var batch := BuildBatch(coins, m);
      WrittenOverlay(coins, m);
      ok := ioOk;
      if ok {
        coins := batch;
        if tip != null {
          best := tip;
        }
      }
    }
  }

  datatype Backend = Disk(db: CoinsViewDB) | Layer(cache: CoinsViewCache)

  class CoinsViewCache {
    const base: Backend
    ghost const Layers: set<CoinsViewCache>
    ghost const Db: CoinsViewDB
    var cacheCoins: map<Txid, Coins>
    var tip: BlockIndex?

    /** The layers below form a finite stack that ends in the database. */
    ghost predicate Valid()
      decreases Layers
    {
      && this in Layers
      && match base
         case Disk(db) => Layers == {this} && Db == db
         case Layer(below) => below.Layers == Layers - {this} && below.Db == Db && below.Valid()
    }

    constructor (base: Backend)
      requires base.Layer? ==> base.cache.Valid()
      ensures this.base == base && cacheCoins == map[] && tip == null
      ensures Valid() && fresh(this)
      ensures Layers == {this} + (if base.Layer? then base.cache.Layers else {})
      ensures Db == match base case Disk(db) => db case Layer(below) => below.Db
    {
      this.base := base;
      cacheCoins, tip := map[], null;
      Layers := {this} + (if base.Layer? then base.cache.Layers else {});
      Db := match base case Disk(db) => db case Layer(below) => below.Db;
    }

    /** The set this view stands for. */
    ghost function Flat(): Utxo
      requires Valid()
      reads Layers, Db
      decreases Layers
    {
      Overlay(BaseFlat(), cacheCoins)
    }

    ghost function BaseFlat(): Utxo
      requires Valid()
      reads Layers, Db
      decreases Layers, 0
    {
      match base
      case Disk(db) => db.Flat()
      case Layer(below) => below.Flat()
    }

    /** The best block this view stands for. */
    ghost function Best(): BlockIndex?
      requires Valid()
      reads Layers, Db
      decreases Layers
    {
      if tip != null then tip else BaseBest()
    }

    ghost function BaseBest(): BlockIndex?
      requires Valid()
      reads Layers, Db
      decreases Layers, 0
    {
      match base
      case Disk(db) => db.best
      case Layer(below) => below.Best()
    }

    /** No layer of the stack stands for a different set or best block than before. */
    twostate predicate StackUnchanged()
      requires Valid()
      reads Layers, Db
    {
      forall c :: c in Layers && c.Valid() && c.Layers <= Layers && c.Db == Db ==>
        c.Flat() == old(c.Flat()) && c.Best() == old(c.Best())
    }

    /** The same for the layers under this one. */
    twostate predicate LowerUnchanged()
      requires Valid()
      reads Layers, Db
    {
      forall c :: c in Layers && c.Valid() && c.Layers <= Layers - {this} && c.Db == Db ==>
        c.Flat() == old(c.Flat()) && c.Best() == old(c.Best())
    }

    twostate predicate BaseUnchanged()
      requires Valid()
      reads Layers, Db
    {
      BaseFlat() == old(BaseFlat()) && BaseBest() == old(BaseBest())
    }

    /** What was cached still is. */
    twostate predicate CacheGrew()
      reads this
    {
      forall t :: t in old(cacheCoins) ==> t in cacheCoins && cacheCoins[t] == old(cacheCoins)[t]
    }

    /** Every layer of the stack is itself the top of a valid stack over the same database. */
    lemma LayersAreValid()
      requires Valid()
      ensures forall c :: c in Layers ==> c.Valid() && c.Layers <= Layers && c.Db == Db
      ensures forall c :: c in Layers && c != this ==> c.Layers <= Layers - {this}
      decreases Layers
    {
      if base.Layer? {
        base.cache.LayersAreValid();
      }
    }

    /** If the stack below is unchanged and so is this layer, then the whole stack is. */
    twostate lemma StackFromBelow(below: CoinsViewCache)
      requires Valid() && base == Layer(below) && below.StackUnchanged() && unchanged(this) && unchanged(Db)
      ensures StackUnchanged() && BaseUnchanged()
    {
      below.LayersAreValid();
      assert below.Flat() == old(below.Flat()) && below.Best() == old(below.Best());
      forall c | c in Layers && c.Valid() && c.Layers <= Layers && c.Db == Db
        ensures c.Flat() == old(c.Flat()) && c.Best() == old(c.Best())
      {
        if c != this {
          assert c in below.Layers && c.Layers <= below.Layers && c.Db == below.Db;
        }
      }
    }

    /** GetCoins: a miss is answered by the layer below and remembered on the way up. */
    method GetCoins(t: Txid) returns (r: Option<Coins>)
      requires Valid()
      modifies Layers
      ensures r == if t in cacheCoins then Some(cacheCoins[t]) else None
      ensures t in Flat() <==> r.Some? && !r.value.IsPruned()
      ensures t in Flat() ==> r.value == Flat()[t]
      ensures StackUnchanged() && BaseUnchanged() && tip == old(tip)
      ensures CacheGrew()
      decreases Layers
    {
      if t in cacheCoins {
        return Some(cacheCoins[t]);
      }
      r := FetchBelow(t);
      if r.Some? {
        Remember(t, r.value);
      }
    }

    /** A copy of what the layer below answered stands for the same set. */
    method Remember(t: Txid, c: Coins)
      requires Valid() && t !in cacheCoins
      requires t in BaseFlat() <==> !c.IsPruned()
      requires t in BaseFlat() ==> c == BaseFlat()[t]
      modifies this
      ensures cacheCoins == old(cacheCoins)[t := c] && tip == old(tip)
      ensures StackUnchanged() && BaseUnchanged()
    {
      hide Overlay;
      OverlayCopy(BaseFlat(), cacheCoins, t, c);
      LayersAreValid();
      cacheCoins := cacheCoins[t := c];
      assert BaseFlat() == old(BaseFlat()) && BaseBest() == old(BaseBest());
      assert Flat() == Overlay(BaseFlat(), cacheCoins) == old(Flat());
      forall x | x in Layers && x.Valid() && x.Layers <= Layers && x.Db == Db
        ensures x.Flat() == old(x.Flat()) && x.Best() == old(x.Best())
      {
        if x != this {
          assert this !in x.Layers;
        }
      }
    }

    /** The read of the layer below, on a miss here. */
    method FetchBelow(t: Txid) returns (r: Option<Coins>)
      requires Valid()
      modifies Layers - {this}
      ensures t in BaseFlat() <==> r.Some? && !r.value.IsPruned()
      ensures t in BaseFlat() ==> r.value == BaseFlat()[t]
      ensures StackUnchanged() && BaseUnchanged()
      decreases Layers, 0
    {
      match base {
        case Disk(db) =>
          r := db.GetCoins(t);
        case Layer(below) =>
          r := below.GetCoins(t);
          StackFromBelow(below);
      }
    }

    /** HaveCoins may answer true for an entry with nothing unspent; FetchCoins caches what it finds. */
    method HaveCoins(t: Txid) returns (r: bool)
      requires Valid()
      modifies Layers
      ensures r <==> t in cacheCoins
      ensures t in Flat() <==> r && !cacheCoins[t].IsPruned()
      ensures t in Flat() ==> cacheCoins[t] == Flat()[t]
      ensures StackUnchanged() && BaseUnchanged() && tip == old(tip)
      ensures CacheGrew()
    {
      var found := GetCoins(t);
      r := found.Some?;
    }

    method SetCoins(t: Txid, coins: Coins)
      requires Valid()
      modifies this`cacheCoins
      ensures cacheCoins == old(cacheCoins)[t := coins]
      ensures Best() == old(Best())
      ensures Flat() == Put(old(Flat()), t, coins)
      ensures LowerUnchanged() && BaseUnchanged()
    {
      OverlayPut(BaseFlat(), cacheCoins, t, coins);
      LayersAreValid();
      cacheCoins := cacheCoins[t := coins];
    }

    method GetBestBlock() returns (b: BlockIndex?)
      requires Valid()
      modifies Layers
      ensures b == Best()
      ensures StackUnchanged() && BaseUnchanged()
      ensures tip == b && cacheCoins == old(cacheCoins)
      decreases Layers
    {
      if tip == null {
        var t := BestBelow();
        RememberTip(t);
      }
      b := tip;
    }

    /** Remembering the best block of the layer below changes no meaning. */
    method RememberTip(t: BlockIndex?)
      requires Valid() && tip == null && t == BaseBest()
      modifies this`tip
      ensures tip == t
      ensures StackUnchanged() && BaseUnchanged()
    {
      LayersAreValid();
      tip := t;
      assert BaseFlat() == old(BaseFlat()) && BaseBest() == old(BaseBest());
      assert Flat() == Overlay(BaseFlat(), cacheCoins) == old(Flat());
      forall x | x in Layers && x.Valid() && x.Layers <= Layers && x.Db == Db
        ensures x.Flat() == old(x.Flat()) && x.Best() == old(x.Best())
      {
        if x != this {
          assert this !in x.Layers;
        }
      }
    }

    method BestBelow() returns (b: BlockIndex?)
      requires Valid()
      modifies Layers - {this}
      ensures b == BaseBest()
      ensures StackUnchanged() && BaseUnchanged()
      decreases Layers, 0
    {
      match base {
        case Disk(db) =>
          b := db.best;
        case Layer(below) =>
          b := below.GetBestBlock();
          StackFromBelow(below);
      }
    }

    method SetBestBlock(b: BlockIndex?)
      requires Valid()
      modifies this`tip
      ensures tip == b && (b != null ==> Best() == b)
      ensures Flat() == old(Flat())
      ensures LowerUnchanged() && BaseUnchanged()
    {
      LayersAreValid();
      tip := b;
    }

    /** BatchWrite on a cache: take over the entries and the tip of the layer above, whatever the tip is. */
    method BatchWrite(m: map<Txid, Coins>, newTip: BlockIndex?)
      requires Valid()
      modifies this
      ensures Flat() == Overlay(old(Flat()), m) && BaseFlat() == old(BaseFlat())
      ensures tip == newTip && BaseBest() == old(BaseBest())
      ensures cacheCoins == old(cacheCoins) + m
    {
      OverlayMerge(BaseFlat(), cacheCoins, m);
      cacheCoins := cacheCoins + m;
      tip := newTip;
    }

    /**
     Flush: hand everything to the layer below.  Into another cache the set moves down unchanged; onto disk its entries
     are stored, which leaves it as it was exactly when none of them has a negative version.  The best block survives
     exactly when this view knows its tip, or the layer below is the database, or that layer held no tip of its own to
     lose.
     */
    method Flush(ioOk: bool) returns (ok: bool)
      requires Valid()
      modifies Layers, Db
      ensures ok == (base.Disk? ==> ioOk)
      ensures ok ==> cacheCoins == map[] && BaseFlat() == Flat()
      ensures ok ==> Flat() == Overlay(old(BaseFlat()), if base.Disk? then Stored(old(cacheCoins)) else old(cacheCoins))
      ensures WornSet(Flat(), old(Flat()))
      ensures Flat() == old(Flat()) <==> !ok || base.Layer? || Storable(old(cacheCoins))
      ensures ok && base.Disk? && AllStored(old(BaseFlat())) ==> Flat() == Stored(old(Flat()))
      ensures !ok ==> BaseFlat() == old(BaseFlat()) && Best() == old(Best()) && unchanged(Db)
      ensures tip == old(tip)
      ensures ok && tip != null ==> BaseBest() == tip
      ensures base.Layer? ==> base.cache.tip == tip && unchanged(Db)
      ensures ok ==>
        (Best() == old(Best()) <==>
          old(tip) != null || base.Disk? || old(base.cache.Best()) == old(base.cache.BaseBest()))
    {
      hide Overlay, WornSet, AllStored, Storable, Stored;
      ghost var u, m := BaseFlat(), cacheCoins;
      OverlayStored(u, m);
      WornSetReflexive(Flat());
      match base {
        case Disk(db) =>
          ok := db.BatchWrite(cacheCoins, tip, ioOk);
        case Layer(below) =>
          below.LayersAreValid();
          below.BatchWrite(cacheCoins, tip);
          assert below.Best() == if tip != null then tip else old(below.BaseBest());
          ok := true;
      }
      if ok {
        OverlayNothing(BaseFlat());
        cacheCoins := map[];
      }
    }
  }

  /**
   Two caches over one database: the lower one knows a best block of its own, and a flush of the upper one, which never
   asked for it, makes the lower one forget it.
   */
  method FlushForgets(db: CoinsViewDB, b: BlockIndex) returns (below: CoinsViewCache, ghost before: BlockIndex?)
    requires db.best != b
    modifies db
    ensures unchanged(db)
    ensures fresh(below) && below.Valid() && before == b && below.Best() == db.best != before
  {
    below := new CoinsViewCache(Disk(db));
    below.SetBestBlock(b);
    var above := new CoinsViewCache(Layer(below));
    before := above.Best();
    var _ := above.Flush(true);
  }

  lemma WornSetReflexive(u: Utxo)
    ensures WornSet(u, u)
  {
  }
}
