/** Writing the address manager and reading it back gives the same one up to a renumbering of the entries. */
module AddrRoundTrip {
  import opened AddrTables
  import opened AddrMan
  import opened AddrDisk

  // ----- what is written -----

  /** The ids of a table in the order in which they are written: new ones, then tried ones, each ascending. */
  ghost predicate Enumerates(t: Tables, recent: seq<Id>, tried: seq<Id>)
  {
    && NoDuplicates(recent) && NoDuplicates(tried) && |recent| == t.nNew && |tried| == t.nTried
    && (forall x :: x in recent <==> x in NewIds(t.mapInfo))
    && (forall x :: x in tried <==> x in TriedIds(t.mapInfo))
  }

  ghost predicate StoredFrom(t: Tables, ids: seq<Id>, infos: seq<Stored>)
  {
    |infos| == |ids| && forall i :: 0 <= i < |ids| ==> ids[i] in t.mapInfo && infos[i] == Store(t.mapInfo[ids[i]])
  }

  /** The members of a bucket, each once, by their positions among the new entries. */
  ghost predicate PositionsOf(recent: seq<Id>, bucket: set<Id>, members: seq<Id>)
  {
    && NoDuplicates(members)
    && (forall i :: 0 <= i < |members| ==> members[i] < |recent| && recent[members[i]] in bucket)
    && (forall x :: x in bucket ==> exists i :: 0 <= i < |members| && members[i] < |recent| && recent[members[i]] == x)
  }

  /** An image of the tables. */
  ghost predicate Written(t: Tables, image: Image, recent: seq<Id>, tried: seq<Id>)
  {
    && Enumerates(t, recent, tried)
    && image.nNew == t.nNew && image.nTried == t.nTried && image.bucketCount == NEW_BUCKET_COUNT
    && StoredFrom(t, recent, image.newInfos) && StoredFrom(t, tried, image.triedInfos)
    && |image.buckets| == |t.vvNew|
    && (forall b :: 0 <= b < |t.vvNew| ==> PositionsOf(recent, t.vvNew[b], image.buckets[b]))
  }

  // ----- the entries -----

  /** All ids in the order in which they are written. */
  lemma AllIds(t: Tables, recent: seq<Id>, tried: seq<Id>)
    requires Enumerates(t, recent, tried)
    ensures NoDuplicates(recent + tried)
    ensures forall x :: x in recent + tried <==> x in t.mapInfo
    ensures forall n :: 0 <= n < |recent + tried| ==>
              (recent + tried)[n] in t.mapInfo && (t.mapInfo[(recent + tried)[n]].inTried <==> n >= |recent|)
  {
    var all := recent + tried;
    forall n | 0 <= n < |all| ensures all[n] in t.mapInfo && (t.mapInfo[all[n]].inTried <==> n >= |recent|) {
      if n < |recent| {
        assert all[n] in recent;
      } else {
        assert all[n] == tried[n - |recent|] && all[n] in tried;
      }
    }
    forall i, j | 0 <= i < j < |all| ensures all[i] != all[j] {
      assert all[i] in t.mapInfo && all[j] in t.mapInfo;
    }
    forall x ensures x in all <==> x in t.mapInfo {
      assert x in all <==> x in recent || x in tried;
    }
  }

  /** After k entries were read: each has the contents of its original, and the indexes fit. */
  ghost predicate LoadedTo(t: Tables, all: seq<Id>, r: Tables, k: nat)
    requires k <= |all| && forall n :: 0 <= n < |all| ==> all[n] in t.mapInfo
  {
    && (forall n: Id :: n in r.mapInfo <==> n < k)
    && (forall n :: 0 <= n < k ==> r.mapInfo[n] == Loaded(Store(t.mapInfo[all[n]]), 0, t.mapInfo[all[n]].inTried, n))
    && |r.vRandom| == k && (forall i :: 0 <= i < k ==> r.vRandom[i] == i)
    && AddrOk(r.mapInfo, r.mapAddr)
  }

  lemma LoadOne(t: Tables, all: seq<Id>, r: Tables, k: nat, r': Tables)
    requires AddrOk(t.mapInfo, t.mapAddr) && NoDuplicates(all) && (forall n :: 0 <= n < |all| ==> all[n] in t.mapInfo)
    requires k < |all| && LoadedTo(t, all, r, k)
    requires r'.mapInfo == r.mapInfo[k := Loaded(Store(t.mapInfo[all[k]]), 0, t.mapInfo[all[k]].inTried, k)]
    requires r'.mapAddr == r.mapAddr[t.mapInfo[all[k]].ip := k] && r'.vRandom == r.vRandom + [k]
    ensures LoadedTo(t, all, r', k + 1)
  {
    hide AddrOk;
    AddressUnused(t, all, r, k);
    CreateAddr(r.mapInfo, r.mapAddr, k, r'.mapInfo[k]);
  }

  /** The next entry has an address that none of those read so far has. */
  lemma AddressUnused(t: Tables, all: seq<Id>, r: Tables, k: nat)
    requires AddrOk(t.mapInfo, t.mapAddr) && NoDuplicates(all) && (forall n :: 0 <= n < |all| ==> all[n] in t.mapInfo)
    requires k < |all| && LoadedTo(t, all, r, k)
    ensures t.mapInfo[all[k]].ip !in r.mapAddr
  {
    var ip := t.mapInfo[all[k]].ip;
    forall n: Id | n in r.mapInfo ensures r.mapInfo[n].ip != ip {
      assert r.mapInfo[n].ip == t.mapInfo[all[n]].ip && all[n] != all[k];
    }
  }

  lemma ImageFacts(t: Tables, image: Image, recent: seq<Id>, tried: seq<Id>)
    requires Written(t, image, recent, tried)
    ensures |image.newInfos| == |recent| == t.nNew == image.nNew
    ensures |image.triedInfos| == |tried| == t.nTried == image.nTried
    ensures !Rebuild(image)
    ensures forall n :: 0 <= n < |recent + tried| ==>
      && (recent + tried)[n] in t.mapInfo && (t.mapInfo[(recent + tried)[n]].inTried <==> n >= |recent|)
      && Store(t.mapInfo[(recent + tried)[n]]) == if n < |recent| then image.newInfos[n]
         else image.triedInfos[n - |recent|]
    ensures NoDuplicates(recent + tried)
  {
    AllIds(t, recent, tried);
  }

  /** The loop over the new entries. */
  lemma {:induction false} NewEntries(h: Hashes, t: Tables, image: Image, recent: seq<Id>, tried: seq<Id>, k: nat)
    requires AddrOk(t.mapInfo, t.mapAddr) && Written(t, image, recent, tried) && k <= |recent|
    ensures |image.newInfos| == |recent| && forall n :: 0 <= n < |recent + tried| ==> (recent + tried)[n] in t.mapInfo
    ensures var r := ReadNew(h, image, k);
            && LoadedTo(t, recent + tried, r, k)
            && r.vvTried == seq(TRIED_BUCKET_COUNT, _ => []) && r.vvNew == seq(NEW_BUCKET_COUNT, _ => {})
            && r.nNew == t.nNew && r.nTried == t.nTried
  {
    hide Written, AddrOk, NoDuplicates, LoadedTo;
    ImageFacts(t, image, recent, tried);
    if k == 0 {
      NothingLoaded(t, recent + tried, image);
    } else {
      NewEntries(h, t, image, recent, tried, k - 1);
      var r := ReadNew(h, image, k - 1);
      PlacesUsed(t, recent + tried, r, k - 1);
      LoadOne(t, recent + tried, r, k - 1, ReadNew(h, image, k));
    }
  }

  lemma NothingLoaded(t: Tables, all: seq<Id>, image: Image)
    requires forall n :: 0 <= n < |all| ==> all[n] in t.mapInfo
    ensures LoadedTo(t, all, Emptied(image), 0)
  {
  }

  lemma PlacesUsed(t: Tables, all: seq<Id>, r: Tables, k: nat)
    requires k <= |all| && forall n :: 0 <= n < |all| ==> all[n] in t.mapInfo
    requires LoadedTo(t, all, r, k)
    ensures |r.vRandom| == k
  {
  }

  // ----- the tried buckets -----

  ghost predicate Sits(vvTried: seq<seq<Id>>, b: nat, n: Id) { b < |vvTried| && n in vvTried[b] }

  /** The tried buckets hold exactly the tried entries read so far, each in the bucket of its original. */
  ghost predicate TriedTo(h: Hashes, t: Tables, all: seq<Id>, first: nat, r: Tables, k: nat)
    requires first <= k <= |all| && forall n :: 0 <= n < |all| ==> all[n] in t.mapInfo
  {
    && |r.vvTried| == TRIED_BUCKET_COUNT
    && (forall b :: 0 <= b < |r.vvTried| ==> NoDuplicates(r.vvTried[b]))
    && (forall b: nat, n: Id :: Sits(r.vvTried, b, n) ==> first <= n < k && h.TriedBucket(t.mapInfo[all[n]]) == b)
    && (forall n: Id :: first <= n < k ==> Sits(r.vvTried, h.TriedBucket(t.mapInfo[all[n]]), n))
  }

  /** The originals of what is in a tried bucket. */
  ghost function Originals(all: seq<Id>, bucket: seq<Id>): (r: seq<Id>)
    requires forall i :: 0 <= i < |bucket| ==> bucket[i] < |all|
    ensures |r| == |bucket|
  {
    seq(|bucket|, i requires 0 <= i < |bucket| => all[bucket[i]])
  }

  /** The bucket of the next tried entry still has room, because the original bucket had room for all of them. */
  lemma RoomLeft(h: Hashes, t: Tables, all: seq<Id>, first: nat, r: Tables, k: nat)
    requires TriedOk(h, t.mapInfo, t.vvTried) && NoDuplicates(all)
    requires (forall n :: 0 <= n < |all| ==> all[n] in t.mapInfo)
    requires first <= k < |all| && (forall n :: first <= n < |all| ==> t.mapInfo[all[n]].inTried)
    requires TriedTo(h, t, all, first, r, k)
    ensures |r.vvTried[h.TriedBucket(t.mapInfo[all[k]])]| < TRIED_BUCKET_SIZE
  {
    var b := h.TriedBucket(t.mapInfo[all[k]]);
    var bucket := r.vvTried[b];
    forall i | 0 <= i < |bucket| ensures first <= bucket[i] < k && h.TriedBucket(t.mapInfo[all[bucket[i]]]) == b {
      assert Sits(r.vvTried, b, bucket[i]);
    }
    var before := Originals(all, bucket);
    var now := before + [all[k]];
    assert NoDuplicates(now);
    ElementsSize(now);
    ElementsSize(t.vvTried[b]);
    forall x | x in Elements(now) ensures x in Elements(t.vvTried[b]) {
      assert x in t.mapInfo && t.mapInfo[x].inTried && h.TriedBucket(t.mapInfo[x]) == b;
      assert x in t.vvTried[b];
    }
    SubsetSize(Elements(now), Elements(t.vvTried[b]));
  }

  lemma SitDown(h: Hashes, t: Tables, all: seq<Id>, first: nat, r: Tables, k: nat, r': Tables)
    requires first <= k < |all| && forall n :: 0 <= n < |all| ==> all[n] in t.mapInfo
    requires TriedTo(h, t, all, first, r, k)
    requires var b := h.TriedBucket(t.mapInfo[all[k]]); r'.vvTried == r.vvTried[b := r.vvTried[b] + [k]]
    ensures TriedTo(h, t, all, first, r', k + 1)
  {
    var b := h.TriedBucket(t.mapInfo[all[k]]);
    forall c: nat, n: Id ensures Sits(r'.vvTried, c, n) <==> Sits(r.vvTried, c, n) || (c == b && n == k) {
    }
    assert forall i :: 0 <= i < |r.vvTried[b]| ==> Sits(r.vvTried, b, r.vvTried[b][i]);
  }

  /** The tables after the new entries and k tried ones. */
  ghost predicate EntriesRead(h: Hashes, t: Tables, recent: seq<Id>, tried: seq<Id>, r: Tables, k: nat)
    requires k <= |tried| && forall n :: 0 <= n < |recent + tried| ==> (recent + tried)[n] in t.mapInfo
  {
    && LoadedTo(t, recent + tried, r, |recent| + k) && TriedTo(h, t, recent + tried, |recent|, r, |recent| + k)
    && r.idCount == |recent| + k && r.nNew == t.nNew && r.nTried == t.nTried &&
       r.vvNew == seq(NEW_BUCKET_COUNT, _ => {})
  }

  /** The loop over the tried entries loses none. */
  lemma {:induction false} TriedEntries(h: Hashes, t: Tables, image: Image, recent: seq<Id>, tried: seq<Id>, k: nat)
    requires AddrOk(t.mapInfo, t.mapAddr) && TriedOk(h, t.mapInfo, t.vvTried) && Written(t, image, recent, tried)
    requires k <= |tried|
    ensures |image.triedInfos| == |tried| && forall n :: 0 <= n < |recent + tried| ==> (recent + tried)[n] in t.mapInfo
    ensures EntriesRead(h, t, recent, tried, ReadTried(h, image, k), k)
  {
    hide Written, AddrOk, TriedOk, NoDuplicates, LoadedTo, TriedTo;
    ImageFacts(t, image, recent, tried);
    var all, first := recent + tried, |recent|;
    if k == 0 {
      NewEntries(h, t, image, recent, tried, first);
      OnlyIdCount(h, t, all, first, ReadNew(h, image, first), ReadTried(h, image, 0));
    } else {
      TriedEntries(h, t, image, recent, tried, k - 1);
      TriedNext(h, t, all, first, ReadTried(h, image, k - 1), first + k - 1, image.triedInfos[k - 1]);
    }
  }

  lemma TriedNext(h: Hashes, t: Tables, all: seq<Id>, first: nat, r: Tables, n: nat, s: Stored)
    requires AddrOk(t.mapInfo, t.mapAddr) && TriedOk(h, t.mapInfo, t.vvTried) && NoDuplicates(all)
    requires first <= n < |all| && forall i :: 0 <= i < |all| ==>
               all[i] in t.mapInfo && (t.mapInfo[all[i]].inTried <==> i >= first)
    requires LoadedTo(t, all, r, n) && TriedTo(h, t, all, first, r, n) && r.idCount == n
    requires s == Store(t.mapInfo[all[n]])
    requires |r.vvTried| == TRIED_BUCKET_COUNT
    ensures var r' := AddTried(h, r, s);
            && LoadedTo(t, all, r', n + 1) && TriedTo(h, t, all, first, r', n + 1)
            && r'.idCount == n + 1 && r'.nNew == r.nNew && r'.nTried == r.nTried && r'.vvNew == r.vvNew
  {
    hide AddrOk, TriedOk, NoDuplicates, LoadedTo, TriedTo;
    PlacesUsed(t, all, r, n);
    RoomLeft(h, t, all, first, r, n);
    LoadOne(t, all, r, n, AddTried(h, r, s));
    SitDown(h, t, all, first, r, n, AddTried(h, r, s));
  }

  lemma OnlyIdCount(h: Hashes, t: Tables, all: seq<Id>, first: nat, r: Tables, r': Tables)
    requires first <= |all| && forall n :: 0 <= n < |all| ==> all[n] in t.mapInfo
    requires LoadedTo(t, all, r, first) && r.vvTried == seq(TRIED_BUCKET_COUNT, _ => [])
    requires r'.mapInfo == r.mapInfo && r'.mapAddr == r.mapAddr && r'.vRandom == r.vRandom && r'.vvTried == r.vvTried
    ensures LoadedTo(t, all, r', first) && TriedTo(h, t, all, first, r', first)
  {
  }

  // ----- the new buckets -----

  ghost predicate InNew(vvNew: seq<set<Id>>, b: nat, n: Id) { b < |vvNew| && n in vvNew[b] }

  /** How often an entry was found in the first b buckets and, of the next one, among the members read so far. */
  ghost function Found(t: Tables, recent: seq<Id>, b: nat, done: seq<Id>, n: Id): int
    requires b <= |t.vvNew|
  {
    if n < |recent| then Count(t.vvNew[..b], recent[n]) + (if n in done then 1 else 0) else 0
  }

  /** After b buckets and some members of the next one. */
  ghost predicate RefsTo(t: Tables, recent: seq<Id>, r0: Tables, r: Tables, b: nat, done: seq<Id>)
    requires b <= |t.vvNew|
  {
    && r == r0.(mapInfo := r.mapInfo, vvNew := r.vvNew) && r.mapInfo.Keys == r0.mapInfo.Keys
    && (forall n :: n in r0.mapInfo ==> r.mapInfo[n] == r0.mapInfo[n].(refCount := Found(t, recent, b, done, n)))
    && |r.vvNew| == |t.vvNew| && BucketsTo(t, recent, r.vvNew, b, done)
  }

  ghost predicate BucketsTo(t: Tables, recent: seq<Id>, vvNew: seq<set<Id>>, b: nat, done: seq<Id>)
  {
    forall c: nat, n: Id :: InNew(vvNew, c, n) <==>
      if c < b then n < |recent| && InNew(t.vvNew, c, recent[n]) else c == b && c < |t.vvNew| && n in done
  }

  /** One member: the limit on references is not in the way, as the original did not exceed it. */
  lemma RefOne(t: Tables, recent: seq<Id>, r0: Tables, r: Tables, b: nat, done: seq<Id>, n: Id)
    requires b < |t.vvNew| && RefsTo(t, recent, r0, r, b, done) && n in r0.mapInfo && n !in done && n < |recent|
    requires recent[n] in t.vvNew[b] && Count(t.vvNew, recent[n]) <= NEW_BUCKETS_PER_ADDRESS
    ensures RefsTo(t, recent, r0, AddRef(r, b, n, true), b, done + [n])
  {
    CountPrefix(t.vvNew, b + 1, recent[n]);
    CountNext(t.vvNew, b, recent[n]);
    RefOneCounts(t, recent, r0, r, b, done, n);
    RefOneBuckets(t, recent, r, b, done, n);
  }

  lemma RefOneCounts(t: Tables, recent: seq<Id>, r0: Tables, r: Tables, b: nat, done: seq<Id>, n: Id)
    requires b < |t.vvNew| == |r.vvNew| && n in r0.mapInfo && n !in done && n < |recent|
    requires r.mapInfo.Keys == r0.mapInfo.Keys
    requires forall m :: m in r0.mapInfo ==> r.mapInfo[m] == r0.mapInfo[m].(refCount := Found(t, recent, b, done, m))
    requires Count(t.vvNew[..b], recent[n]) < NEW_BUCKETS_PER_ADDRESS
    ensures var r' := AddRef(r, b, n, true);
            && r' == r.(mapInfo := r'.mapInfo, vvNew := r.vvNew[b := r.vvNew[b] + {n}]) &&
               r'.mapInfo.Keys == r0.mapInfo.Keys
            && forall m :: m in r0.mapInfo ==>
                 r'.mapInfo[m] == r0.mapInfo[m].(refCount := Found(t, recent, b, done + [n], m))
  {
    hide Count;
    var r' := AddRef(r, b, n, true);
    forall m | m in r0.mapInfo ensures r'.mapInfo[m] == r0.mapInfo[m].(refCount := Found(t, recent, b, done + [n], m)) {
      assert m in done + [n] <==> m in done || m == n;
    }
  }

  lemma RefOneBuckets(t: Tables, recent: seq<Id>, r: Tables, b: nat, done: seq<Id>, n: Id)
    requires b < |t.vvNew| == |r.vvNew| && BucketsTo(t, recent, r.vvNew, b, done)
    ensures BucketsTo(t, recent, r.vvNew[b := r.vvNew[b] + {n}], b, done + [n])
  {
    var vv := r.vvNew[b := r.vvNew[b] + {n}];
    forall c: nat, m: Id ensures InNew(vv, c, m) <==> InNew(r.vvNew, c, m) || (c == b && m == n) {
    }
    assert forall m :: m in done + [n] <==> m in done || m == n;
  }

  lemma {:induction false} RefMembers(
      t: Tables, recent: seq<Id>, r0: Tables, r: Tables, b: nat, members: seq<Id>, done: nat)
    requires b < |t.vvNew| && RefsTo(t, recent, r0, r, b, []) && |r.vvNew| == |t.vvNew| && done <= |members|
    requires PositionsOf(recent, t.vvNew[b], members)
    requires forall n :: 0 <= n < |recent| ==> n in r0.mapInfo && Count(t.vvNew, recent[n]) <= NEW_BUCKETS_PER_ADDRESS
    ensures RefsTo(t, recent, r0, ReadMembers(r, b, members[..done], true), b, members[..done])
  {
    hide RefsTo, Count;
    if done > 0 {
      RefMembers(t, recent, r0, r, b, members, done - 1);
      assert members[..done][..done - 1] == members[..done - 1];
      assert members[..done] == members[..done - 1] + [members[done - 1]];
      RefOne(t, recent, r0, ReadMembers(r, b, members[..done - 1], true), b, members[..done - 1], members[done - 1]);
    } else {
      assert members[..0] == [];
    }
  }

  /** A whole bucket. */
  lemma BucketRead(t: Tables, recent: seq<Id>, r0: Tables, r: Tables, b: nat, members: seq<Id>)
    requires b < |t.vvNew| && RefsTo(t, recent, r0, r, b, members) && NoDuplicates(recent)
    requires PositionsOf(recent, t.vvNew[b], members)
    ensures RefsTo(t, recent, r0, r, b + 1, [])
  {
    forall n: Id | n < |recent| ensures n in members <==> recent[n] in t.vvNew[b] {
      if recent[n] in t.vvNew[b] {
        var i :| 0 <= i < |members| && members[i] < |recent| && recent[members[i]] == recent[n];
        assert members[i] == n;
      }
    }
    forall n: Id | n in r0.mapInfo ensures Found(t, recent, b + 1, [], n) == Found(t, recent, b, members, n) {
      if n < |recent| {
        CountNext(t.vvNew, b, recent[n]);
      }
    }
    forall c: nat, n: Id ensures InNew(r.vvNew, c, n) <==>
          if c < b + 1 then n < |recent| && InNew(t.vvNew, c, recent[n]) else c == b + 1 && c < |t.vvNew| && n in [] {
    }
  }

  /** The loop over the buckets. */
  lemma {:induction false} AllBuckets(
      h: Hashes, t: Tables, image: Image, recent: seq<Id>, tried: seq<Id>, r0: Tables, k: nat)
    requires WellFormed(image) && Written(t, image, recent, tried) && |t.vvNew| == NEW_BUCKET_COUNT && k <= |t.vvNew|
    requires r0 == ReadTried(h, image, |image.triedInfos|) && RefsTo(t, recent, r0, r0, 0, [])
    requires forall n :: 0 <= n < |recent| ==> n in r0.mapInfo && Count(t.vvNew, recent[n]) <= NEW_BUCKETS_PER_ADDRESS
    ensures RefsTo(t, recent, r0, ReadBuckets(h, image, k), k, [])
  {
    hide RefsTo, Count, PositionsOf, StoredFrom;
    if k > 0 {
      AllBuckets(h, t, image, recent, tried, r0, k - 1);
      var members := image.buckets[k - 1];
      RefMembers(t, recent, r0, ReadBuckets(h, image, k - 1), k - 1, members, |members|);
      assert members[..|members|] == members;
      BucketRead(t, recent, r0, ReadBuckets(h, image, k), k - 1, members);
    }
  }

  // ----- the whole manager -----

  /**
   Entry n is entry x of another manager: same contents except for the time of the last attempt, which is forgotten,
   same reference count, new buckets and tried bucket.
   */
  ghost predicate Agrees(t: Tables, x: Id, r: Tables, n: Id)
  {
    && n in r.mapInfo && x in t.mapInfo && Store(r.mapInfo[n]) == Store(t.mapInfo[x]) && r.mapInfo[n].lastTry == 0
    && r.mapInfo[n].refCount == t.mapInfo[x].refCount && r.mapInfo[n].inTried == t.mapInfo[x].inTried
    && (forall b: nat :: InNew(r.vvNew, b, n) <==> InNew(t.vvNew, b, x))
    && (forall b: nat :: Sits(r.vvTried, b, n) <==> Sits(t.vvTried, b, x))
  }

  /** The same manager, entry n of the second being entry all[n] of the first. */
  ghost predicate Isomorphic(t: Tables, r: Tables, all: seq<Id>)
  {
    && NoDuplicates(all) && (forall x :: x in all <==> x in t.mapInfo) &&
       (forall n: Id :: n in r.mapInfo <==> n < |all|)
    && (forall n :: 0 <= n < |all| ==> Agrees(t, all[n], r, n))
    && |r.vvNew| == |t.vvNew| && |r.vvTried| == |t.vvTried| && r.nNew == t.nNew && r.nTried == t.nTried
  }

  /** What is known at the end of reading. */
  ghost predicate Rebuilt(h: Hashes, t: Tables, recent: seq<Id>, tried: seq<Id>, r0: Tables, r: Tables)
  {
    && |t.vvNew| == NEW_BUCKET_COUNT && NoDuplicates(recent + tried)
    && (forall x :: x in recent + tried <==> x in t.mapInfo)
    && (forall n :: 0 <= n < |recent + tried| ==>
          (recent + tried)[n] in t.mapInfo && (t.mapInfo[(recent + tried)[n]].inTried <==> n >= |recent|))
    && |recent| == t.nNew && |tried| == t.nTried
    && EntriesRead(h, t, recent, tried, r0, |tried|) && RefsTo(t, recent, r0, r, NEW_BUCKET_COUNT, [])
  }

  lemma WrittenFacts(h: Hashes, t: Tables, image: Image, recent: seq<Id>, tried: seq<Id>)
    requires Consistent(h, t, {}) && Written(t, image, recent, tried)
    ensures WellFormed(image) && |image.buckets| == |t.vvNew| == NEW_BUCKET_COUNT
    ensures AddrOk(t.mapInfo, t.mapAddr) && TriedOk(h, t.mapInfo, t.vvTried)
    ensures |recent| == t.nNew && |tried| == t.nTried
    ensures forall n :: 0 <= n < |recent| ==> Count(t.vvNew, recent[n]) <= NEW_BUCKETS_PER_ADDRESS
  {
    hide TriedOk, RandomOk, AddrOk, PositionsOf, Count;
    ImageFacts(t, image, recent, tried);
    assert forall n :: 0 <= n < |recent| ==> recent[n] in t.mapInfo && !t.mapInfo[recent[n]].inTried;
  }

  lemma ReadRebuilds(h: Hashes, t: Tables, image: Image, recent: seq<Id>, tried: seq<Id>)
    requires Consistent(h, t, {}) && Written(t, image, recent, tried)
    ensures WellFormed(image)
    ensures Rebuilt(h, t, recent, tried, ReadTried(h, image, |image.triedInfos|), ReadAll(h, image))
  {
    hide Consistent, Written, EntriesRead, RefsTo, Count, ReadTried, ReadBuckets, TriedOk, AddrOk, NoDuplicates,
      Enumerates, LoadedTo;
    WrittenFacts(h, t, image, recent, tried);
    ImageFacts(t, image, recent, tried);
    WrittenEnumerates(t, image, recent, tried);
    AllIds(t, recent, tried);
    TriedEntries(h, t, image, recent, tried, |tried|);
    var r0 := ReadTried(h, image, |image.triedInfos|);
    NothingReferenced(h, t, recent, tried, r0);
    forall n | 0 <= n < |recent| ensures n in r0.mapInfo {
      EntryRead(h, t, recent, tried, r0, n);
    }
    AllBuckets(h, t, image, recent, tried, r0, NEW_BUCKET_COUNT);
  }

  lemma WrittenEnumerates(t: Tables, image: Image, recent: seq<Id>, tried: seq<Id>)
    requires Written(t, image, recent, tried)
    ensures Enumerates(t, recent, tried)
  {
  }

  lemma EntryRead(h: Hashes, t: Tables, recent: seq<Id>, tried: seq<Id>, r: Tables, n: nat)
    requires forall i :: 0 <= i < |recent + tried| ==> (recent + tried)[i] in t.mapInfo
    requires EntriesRead(h, t, recent, tried, r, |tried|) && n < |recent + tried|
    ensures n in r.mapInfo
    ensures r.mapInfo[n] == Loaded(Store(t.mapInfo[(recent + tried)[n]]), 0, t.mapInfo[(recent + tried)[n]].inTried, n)
  {
  }

  lemma NothingReferenced(h: Hashes, t: Tables, recent: seq<Id>, tried: seq<Id>, r0: Tables)
    requires |t.vvNew| == NEW_BUCKET_COUNT && forall n :: 0 <= n < |recent + tried| ==> (recent + tried)[n] in t.mapInfo
    requires EntriesRead(h, t, recent, tried, r0, |tried|)
    ensures RefsTo(t, recent, r0, r0, 0, [])
  {
  }

  lemma {:induction false} CountSame(a: seq<set<Id>>, x: Id, b: seq<set<Id>>, y: Id)
    requires |a| == |b| && forall c: nat :: InNew(a, c, x) <==> InNew(b, c, y)
    ensures Count(a, x) == Count(b, y)
  {
    if a != [] {
      var n := |a| - 1;
      forall c: nat ensures InNew(a[..n], c, x) <==> InNew(b[..n], c, y) {
        assert c < n ==> (InNew(a, c, x) <==> InNew(b, c, y));
      }
      CountSame(a[..n], x, b[..n], y);
      assert InNew(a, n, x) <==> InNew(b, n, y);
    }
  }

  /** The entry is in the buckets its original is in, and its references are those of the original. */
  lemma RefsAgree(h: Hashes, t: Tables, recent: seq<Id>, tried: seq<Id>, r0: Tables, r: Tables, n: nat)
    requires Rebuilt(h, t, recent, tried, r0, r) && BucketsOk(t.mapInfo, t.vvNew) && RefsOk(t.mapInfo, t.vvNew, {})
    requires n < |recent + tried|
    ensures forall b: nat :: InNew(r.vvNew, b, n) <==> InNew(t.vvNew, b, (recent + tried)[n])
    ensures n in r.mapInfo && n in r0.mapInfo
    ensures r.mapInfo[n] == r0.mapInfo[n].(refCount := t.mapInfo[(recent + tried)[n]].refCount)
    ensures Count(r.vvNew, n) == r.mapInfo[n].refCount
  {
    hide EntriesRead, Count;
    var x := (recent + tried)[n];
    BucketsAgree(h, t, recent, tried, r0, r, n);
    EntryRead(h, t, recent, tried, r0, n);
    CountSame(r.vvNew, n, t.vvNew, x);
    assert t.vvNew[..NEW_BUCKET_COUNT] == t.vvNew;
    if n >= |recent| {
      CountZero(t.vvNew, x);
    } else {
      assert recent[n] == x;
    }
  }

  lemma BucketsAgree(h: Hashes, t: Tables, recent: seq<Id>, tried: seq<Id>, r0: Tables, r: Tables, n: nat)
    requires Rebuilt(h, t, recent, tried, r0, r) && BucketsOk(t.mapInfo, t.vvNew) && n < |recent + tried|
    ensures |r.vvNew| == |t.vvNew| && forall b: nat :: InNew(r.vvNew, b, n) <==> InNew(t.vvNew, b, (recent + tried)[n])
  {
    hide EntriesRead, Count;
    forall b: nat ensures InNew(r.vvNew, b, n) <==> InNew(t.vvNew, b, (recent + tried)[n]) {
      assert n < |recent| ==> (recent + tried)[n] == recent[n];
    }
  }

  lemma TriedAgree(h: Hashes, t: Tables, recent: seq<Id>, tried: seq<Id>, r0: Tables, r: Tables, b: nat, n: nat)
    requires Rebuilt(h, t, recent, tried, r0, r) && TriedOk(h, t.mapInfo, t.vvTried) && n < |recent + tried|
    ensures Sits(r.vvTried, b, n) <==> Sits(t.vvTried, b, (recent + tried)[n])
    ensures |r.vvTried| == |t.vvTried| == TRIED_BUCKET_COUNT
  {
    hide LoadedTo, NoDuplicates;
    var x := (recent + tried)[n];
    assert Sits(t.vvTried, b, x) <==> t.mapInfo[x].inTried && h.TriedBucket(t.mapInfo[x]) == b;
  }

  lemma EntryAgrees(h: Hashes, t: Tables, recent: seq<Id>, tried: seq<Id>, r0: Tables, r: Tables, n: Id)
    requires Consistent(h, t, {}) && Rebuilt(h, t, recent, tried, r0, r) && n < |recent + tried|
    ensures Agrees(t, (recent + tried)[n], r, n)
  {
    hide Consistent, RefsTo, TriedOk, BucketsOk, RefsOk, EntriesRead, NoDuplicates, Sits, InNew;
    ConsistentParts(h, t);
    RefsAgree(h, t, recent, tried, r0, r, n);
    EntryRead(h, t, recent, tried, r0, n);
    forall b: nat ensures Sits(r.vvTried, b, n) <==> Sits(t.vvTried, b, (recent + tried)[n]) {
      TriedAgree(h, t, recent, tried, r0, r, b, n);
    }
  }

  lemma RebuiltIsomorphic(h: Hashes, t: Tables, recent: seq<Id>, tried: seq<Id>, r0: Tables, r: Tables)
    requires Consistent(h, t, {}) && Rebuilt(h, t, recent, tried, r0, r)
    ensures Isomorphic(t, r, recent + tried)
  {
    hide Consistent, Rebuilt, TriedOk, Agrees, NoDuplicates;
    ConsistentParts(h, t);
    SameShape(h, t, recent, tried, r0, r);
    RebuiltIds(h, t, recent, tried, r0, r);
    forall n: Id | n < |recent + tried| ensures Agrees(t, (recent + tried)[n], r, n) {
      EntryAgrees(h, t, recent, tried, r0, r, n);
    }
  }

  lemma RebuiltIds(h: Hashes, t: Tables, recent: seq<Id>, tried: seq<Id>, r0: Tables, r: Tables)
    requires Rebuilt(h, t, recent, tried, r0, r)
    ensures NoDuplicates(recent + tried) && forall x :: x in recent + tried <==> x in t.mapInfo
  {
  }

  lemma ConsistentParts(h: Hashes, t: Tables)
    requires Consistent(h, t, {})
    ensures RandomOk(t.mapInfo, t.vRandom) && AddrOk(t.mapInfo, t.mapAddr) && BucketsOk(t.mapInfo, t.vvNew)
    ensures RefsOk(t.mapInfo, t.vvNew, {}) && TriedOk(h, t.mapInfo, t.vvTried)
  {
  }

  lemma SameShape(h: Hashes, t: Tables, recent: seq<Id>, tried: seq<Id>, r0: Tables, r: Tables)
    requires Rebuilt(h, t, recent, tried, r0, r) && TriedOk(h, t.mapInfo, t.vvTried)
    ensures forall n: Id :: n in r.mapInfo <==> n < |recent + tried|
    ensures |r.vvNew| == |t.vvNew| == NEW_BUCKET_COUNT && |r.vvTried| == |t.vvTried| == TRIED_BUCKET_COUNT
    ensures r.nNew == t.nNew && r.nTried == t.nTried && r.idCount == |recent + tried|
  {
  }

  // ----- the rebuilt manager is consistent -----

  /** The buckets change nothing but reference counts. */
  lemma RefsOnly(h: Hashes, t: Tables, recent: seq<Id>, tried: seq<Id>, r0: Tables, r: Tables)
    requires Rebuilt(h, t, recent, tried, r0, r)
    ensures r.mapInfo.Keys == r0.mapInfo.Keys && r == r0.(mapInfo := r.mapInfo, vvNew := r.vvNew)
    ensures forall n :: n in r.mapInfo ==> r.mapInfo[n] == r0.mapInfo[n].(refCount := r.mapInfo[n].refCount)
    ensures EntriesRead(h, t, recent, tried, r0, |tried|)
  {
    hide EntriesRead, Found;
  }

  lemma IndexesRead(t: Tables, all: seq<Id>, r: Tables)
    requires (forall n :: 0 <= n < |all| ==> all[n] in t.mapInfo) && LoadedTo(t, all, r, |all|) && r.idCount == |all|
    ensures IdsOk(r) && RandomOk(r.mapInfo, r.vRandom) && AddrOk(r.mapInfo, r.mapAddr)
  {
    hide AddrOk;
  }

  lemma RebuiltIndexes(h: Hashes, t: Tables, recent: seq<Id>, tried: seq<Id>, r0: Tables, r: Tables)
    requires Rebuilt(h, t, recent, tried, r0, r)
    ensures IdsOk(r) && RandomOk(r.mapInfo, r.vRandom) && AddrOk(r.mapInfo, r.mapAddr)
  {
    hide TriedTo, RefsTo, LoadedTo, RandomOk, AddrOk, NoDuplicates;
    RefsOnly(h, t, recent, tried, r0, r);
    IndexesRead(t, recent + tried, r0);
    IndexSame(r0, r.mapInfo);
  }

  lemma {:induction false} RenamedSize(recent: seq<Id>, s: set<Id>, whole: set<Id>)
    requires NoDuplicates(recent) && forall n :: n in s ==> n < |recent| && recent[n] in whole
    ensures |s| <= |whole|
  {
    if s != {} {
      var n :| n in s;
      RenamedSize(recent, s - {n}, whole - {recent[n]});
    }
  }

  lemma RebuiltBuckets(h: Hashes, t: Tables, recent: seq<Id>, tried: seq<Id>, r0: Tables, r: Tables)
    requires Rebuilt(h, t, recent, tried, r0, r) && BucketsOk(t.mapInfo, t.vvNew)
    ensures BucketsOk(r.mapInfo, r.vvNew)
  {
    hide TriedTo, Found, Count;
    assert NoDuplicates(recent) by {
      assert forall i :: 0 <= i < |recent| ==> recent[i] == (recent + tried)[i];
    }
    forall b: nat | b < |r.vvNew| ensures |r.vvNew[b]| <= NEW_BUCKET_SIZE {
      forall n | n in r.vvNew[b] ensures n < |recent| && recent[n] in t.vvNew[b] {
        assert InNew(r.vvNew, b, n);
      }
      RenamedSize(recent, r.vvNew[b], t.vvNew[b]);
    }
    forall b: nat, n | b < |r.vvNew| && n in r.vvNew[b] ensures n in r.mapInfo && !r.mapInfo[n].inTried {
      assert InNew(r.vvNew, b, n);
      EntryRead(h, t, recent, tried, r0, n);
    }
  }

  lemma RebuiltRefs(h: Hashes, t: Tables, recent: seq<Id>, tried: seq<Id>, r0: Tables, r: Tables)
    requires Rebuilt(h, t, recent, tried, r0, r) && BucketsOk(t.mapInfo, t.vvNew) && RefsOk(t.mapInfo, t.vvNew, {})
    requires forall n: Id :: n in r.mapInfo <==> n < |recent + tried|
    ensures RefsOk(r.mapInfo, r.vvNew, {})
  {
    hide RefsTo, EntriesRead, Count, BucketsOk;
    forall n | n in r.mapInfo
      ensures r.mapInfo[n].refCount == Count(r.vvNew, n)
      ensures if r.mapInfo[n].inTried then r.mapInfo[n].refCount == 0
              else 1 <= r.mapInfo[n].refCount <= NEW_BUCKETS_PER_ADDRESS
    {
      RefsAgree(h, t, recent, tried, r0, r, n);
      EntryRead(h, t, recent, tried, r0, n);
    }
  }

  lemma TriedFits(h: Hashes, t: Tables, all: seq<Id>, first: nat, r: Tables, b: nat)
    requires TriedOk(h, t.mapInfo, t.vvTried) && NoDuplicates(all)
    requires (forall n :: 0 <= n < |all| ==> all[n] in t.mapInfo)
    requires first <= |all| && (forall n :: first <= n < |all| ==> t.mapInfo[all[n]].inTried)
    requires TriedTo(h, t, all, first, r, |all|) && b < |r.vvTried|
    ensures |r.vvTried[b]| <= TRIED_BUCKET_SIZE
  {
    var bucket := r.vvTried[b];
    forall i | 0 <= i < |bucket| ensures first <= bucket[i] < |all| && h.TriedBucket(t.mapInfo[all[bucket[i]]]) == b {
      assert Sits(r.vvTried, b, bucket[i]);
    }
    var before := Originals(all, bucket);
    assert NoDuplicates(before);
    ElementsSize(before);
    ElementsSize(t.vvTried[b]);
    forall x | x in Elements(before) ensures x in Elements(t.vvTried[b]) {
      assert x in t.mapInfo && t.mapInfo[x].inTried && h.TriedBucket(t.mapInfo[x]) == b;
      assert x in t.vvTried[b];
    }
    SubsetSize(Elements(before), Elements(t.vvTried[b]));
  }

  lemma TriedRead(h: Hashes, t: Tables, recent: seq<Id>, tried: seq<Id>, r: Tables)
    requires forall n :: 0 <= n < |recent + tried| ==> (recent + tried)[n] in t.mapInfo
    requires EntriesRead(h, t, recent, tried, r, |tried|)
    ensures LoadedTo(t, recent + tried, r, |recent + tried|)
    ensures TriedTo(h, t, recent + tried, |recent|, r, |recent + tried|)
  {
  }

  lemma TriedFrom(h: Hashes, t: Tables, all: seq<Id>, first: nat, r: Tables, m: map<Id, AddrInfo>)
    requires TriedOk(h, t.mapInfo, t.vvTried) && NoDuplicates(all) && first <= |all|
    requires forall n :: 0 <= n < |all| ==> all[n] in t.mapInfo && (t.mapInfo[all[n]].inTried <==> n >= first)
    requires TriedTo(h, t, all, first, r, |all|) && (forall n: Id :: n in m <==> n < |all|)
    requires forall n :: n in m ==>
               (m[n].inTried <==> n >= first) && h.TriedBucket(m[n]) == h.TriedBucket(t.mapInfo[all[n]])
    ensures TriedOk(h, m, r.vvTried)
  {
    forall b: nat | b < |r.vvTried| ensures |r.vvTried[b]| <= TRIED_BUCKET_SIZE {
      TriedFits(h, t, all, first, r, b);
    }
    hide NoDuplicates;
    forall b: nat, n | b < |r.vvTried| && n in r.vvTried[b] ensures n in m && m[n].inTried && h.TriedBucket(m[n]) == b {
      assert Sits(r.vvTried, b, n);
    }
    forall n | n in m && m[n].inTried ensures n in r.vvTried[h.TriedBucket(m[n])] {
      assert Sits(r.vvTried, h.TriedBucket(t.mapInfo[all[n]]), n);
    }
  }

  lemma RebuiltTried(h: Hashes, t: Tables, recent: seq<Id>, tried: seq<Id>, r0: Tables, r: Tables)
    requires Rebuilt(h, t, recent, tried, r0, r) && TriedOk(h, t.mapInfo, t.vvTried)
    requires forall n: Id :: n in r.mapInfo <==> n < |recent + tried|
    ensures TriedOk(h, r.mapInfo, r.vvTried)
  {
    hide RefsTo, EntriesRead, TriedTo, LoadedTo, NoDuplicates, TriedOk;
    RefsOnly(h, t, recent, tried, r0, r);
    var all := recent + tried;
    TriedRead(h, t, recent, tried, r0);
    forall n | n in r.mapInfo
      ensures (r.mapInfo[n].inTried <==> n >= |recent|)
      ensures h.TriedBucket(r.mapInfo[n]) == h.TriedBucket(t.mapInfo[all[n]])
    {
      EntryRead(h, t, recent, tried, r0, n);
    }
    TriedFrom(h, t, all, |recent|, r0, r.mapInfo);
  }

  ghost function Below(k: nat): (s: set<Id>)
    ensures |s| == k && forall n: Id :: n in s <==> n < k
  {
    if k == 0 then {} else Below(k - 1) + {k - 1}
  }

  lemma RebuiltCounters(h: Hashes, t: Tables, recent: seq<Id>, tried: seq<Id>, r0: Tables, r: Tables)
    requires Rebuilt(h, t, recent, tried, r0, r)
    requires forall n: Id :: n in r.mapInfo <==> n < |recent + tried|
    requires r.nNew == t.nNew && r.nTried == t.nTried
    ensures CountersOk(r)
  {
    hide RefsTo, EntriesRead, NoDuplicates, Below;
    RefsOnly(h, t, recent, tried, r0, r);
    forall n: Id | n < |recent + tried| ensures r.mapInfo[n].inTried <==> n >= |recent| {
      EntryRead(h, t, recent, tried, r0, n);
    }
    assert NewIds(r.mapInfo) == Below(|recent|);
    assert TriedIds(r.mapInfo) == Below(|recent + tried|) - Below(|recent|);
    assert Below(|recent|) <= Below(|recent + tried|);
  }

  /**
   Writing and reading back any consistent manager gives a consistent manager with the same entries, buckets and
   reference counts under a renumbering, and loses none.
   */
  lemma RoundTrip(h: Hashes, t: Tables, image: Image, recent: seq<Id>, tried: seq<Id>)
    requires Consistent(h, t, {}) && Written(t, image, recent, tried)
    ensures WellFormed(image) && Consistent(h, ReadAll(h, image), {})
    ensures Isomorphic(t, ReadAll(h, image), recent + tried)
  {
    hide Written, Rebuilt, ReadBuckets, ReadTried, Isomorphic, IdsOk, RandomOk, AddrOk, BucketsOk, RefsOk, TriedOk,
      CountersOk;
    ReadRebuilds(h, t, image, recent, tried);
    var r0, r := ReadTried(h, image, |image.triedInfos|), ReadAll(h, image);
    SameShape(h, t, recent, tried, r0, r);
    RebuiltIsomorphic(h, t, recent, tried, r0, r);
    RebuiltIndexes(h, t, recent, tried, r0, r);
    RebuiltBuckets(h, t, recent, tried, r0, r);
    RebuiltRefs(h, t, recent, tried, r0, r);
    RebuiltTried(h, t, recent, tried, r0, r);
    RebuiltCounters(h, t, recent, tried, r0, r);
  }

  lemma LoadedTimes(t: Tables, r: Tables, all: seq<Id>)
    requires Isomorphic(t, r, all) && TimesOk(t.mapInfo)
    ensures TimesOk(r.mapInfo)
  {
    forall n | n in r.mapInfo
      ensures r.mapInfo[n].lastTry >= 0 && r.mapInfo[n].lastSuccess >= 0
      ensures (r.mapInfo[n].inTried ==> r.mapInfo[n].lastSuccess != 0)
    {
      assert Agrees(t, all[n], r, n);
    }
  }

  // ----- writing -----

  /** The ids of one kind among those visited so far, in ascending order, with what is stored of them. */
  ghost predicate Listed(t: Tables, kind: set<Id>, left: set<Id>, ids: seq<Id>, infos: seq<Stored>)
  {
    && IsAscending(ids) && (forall x :: x in ids <==> x in kind && x !in left)
    && (forall x, y :: x in ids && y in left ==> x < y)
    && StoredFrom(t, ids, infos)
  }

  lemma ListMore(t: Tables, kind: set<Id>, left: set<Id>, ids: seq<Id>, infos: seq<Stored>, id: Id)
    requires Listed(t, kind, left, ids, infos) && id in left && (forall x :: x in left ==> id <= x) && id in t.mapInfo
    ensures id in kind ==> Listed(t, kind, left - {id}, ids + [id], infos + [Store(t.mapInfo[id])])
    ensures id !in kind ==> Listed(t, kind, left - {id}, ids, infos)
  {
    if id in kind {
      forall i | 0 <= i < |ids| ensures ids[i] < id {
        assert ids[i] in ids;
      }
    }
  }

  lemma AscendingDistinct(ids: seq<Id>)
    requires IsAscending(ids)
    ensures NoDuplicates(ids)
  {
  }

  /** All ids of one kind, in ascending order, with what is stored of them. */
  ghost predicate ListedAll(t: Tables, kind: set<Id>, ids: seq<Id>, infos: seq<Stored>)
  {
    IsAscending(ids) && |ids| == |kind| && (forall x :: x in ids <==> x in kind) && StoredFrom(t, ids, infos)
  }

  /** A list as long as its kind holds all of it. */
  lemma ListComplete(t: Tables, kind: set<Id>, left: set<Id>, ids: seq<Id>, infos: seq<Stored>)
    requires Listed(t, kind, left, ids, infos)
    ensures |ids| <= |kind|
    ensures |ids| == |kind| || left * kind == {} ==> ListedAll(t, kind, ids, infos)
  {
    AscendingDistinct(ids);
    ElementsSize(ids);
    assert forall x :: x in Elements(ids) <==> x in ids;
    assert Elements(ids) <= kind;
    SubsetSize(Elements(ids), kind);
    var rest := kind - Elements(ids);
    assert kind == Elements(ids) + rest;
    if left * kind == {} {
      assert forall x :: x in kind ==> x !in left * kind;
      assert rest == {};
    } else if |ids| == |kind| {
      assert |rest| == 0;
    }
  }

  /** std::map and std::set are visited in ascending order. */
  method First(ids: set<Id>) returns (id: Id)
    requires ids != {}
    ensures id in ids && forall x :: x in ids ==> id <= x
  {
    ghost var least := Least(ids);
    id :| id in ids && forall x :: x in ids ==> id <= x;
  }

  method WriteNew(m: Manager) returns (infos: seq<Stored>, places: map<Id, Id>, ghost recent: seq<Id>)
    requires m.Valid()
    ensures ListedAll(m.View(), NewIds(m.mapInfo), recent, infos)
    ensures forall i :: 0 <= i < |recent| ==> recent[i] in places && places[recent[i]] == i
  {
    hide Consistent, Listed;
    var count := 0;
    infos, places, recent := [], map[], [];
    var left := m.mapInfo.Keys;
    StartList(m.View(), NewIds(m.mapInfo));
    while left != {}
      invariant left <= m.mapInfo.Keys && Listed(m.View(), NewIds(m.mapInfo), left, recent, infos) && count == |recent|
      invariant forall i :: 0 <= i < |recent| ==> recent[i] in places && recent[i] !in left && places[recent[i]] == i
      decreases |left|
    {
      if count == m.nNew {
        NewCount(m.hashes, m.View());
        break;
      }
      var id := First(left);
      ListMore(m.View(), NewIds(m.mapInfo), left, recent, infos, id);
      NewMeansReferenced(m.hashes, m.View(), id);
      places := places[id := count];
      if m.mapInfo[id].refCount != 0 {
        infos, recent := infos + [Store(m.mapInfo[id])], recent + [id];
        count := count + 1;
      }
      left := left - {id};
    }
    ListComplete(m.View(), NewIds(m.mapInfo), left, recent, infos);
  }

  lemma StartList(t: Tables, kind: set<Id>)
    requires kind <= t.mapInfo.Keys
    ensures Listed(t, kind, t.mapInfo.Keys, [], [])
  {
  }

  lemma NewCount(h: Hashes, t: Tables)
    requires Consistent(h, t, {})
    ensures t.nNew == |NewIds(t.mapInfo)| && t.nTried == |TriedIds(t.mapInfo)|
  {
  }

  lemma NewMeansReferenced(h: Hashes, t: Tables, id: Id)
    requires Consistent(h, t, {}) && id in t.mapInfo
    ensures id in NewIds(t.mapInfo) <==> t.mapInfo[id].refCount != 0
  {
  }

  method WriteTried(m: Manager) returns (infos: seq<Stored>, ghost tried: seq<Id>)
    requires m.Valid()
    ensures ListedAll(m.View(), TriedIds(m.mapInfo), tried, infos)
  {
    hide Consistent, Listed;
    var count := 0;
    infos, tried := [], [];
    var left := m.mapInfo.Keys;
    StartList(m.View(), TriedIds(m.mapInfo));
    while left != {}
      invariant left <= m.mapInfo.Keys && Listed(m.View(), TriedIds(m.mapInfo), left, tried, infos) && count == |tried|
      decreases |left|
    {
      if count == m.nTried {
        NewCount(m.hashes, m.View());
        break;
      }
      var id := First(left);
      ListMore(m.View(), TriedIds(m.mapInfo), left, tried, infos, id);
      if m.mapInfo[id].inTried {
        infos, tried := infos + [Store(m.mapInfo[id])], tried + [id];
        count := count + 1;
      }
      left := left - {id};
    }
    ListComplete(m.View(), TriedIds(m.mapInfo), left, tried, infos);
  }

  method WriteBucket(bucket: set<Id>, places: map<Id, Id>, ghost recent: seq<Id>) returns (members: seq<Id>)
    requires NoDuplicates(recent) && (forall x :: x in bucket ==> x in recent)
    requires forall i :: 0 <= i < |recent| ==> recent[i] in places && places[recent[i]] == i
    ensures PositionsOf(recent, bucket, members) && |members| == |bucket|
  {
    members := [];
    var left := bucket;
    while left != {}
      invariant left <= bucket && PositionsOf(recent, bucket - left, members) && |members| + |left| == |bucket|
      decreases |left|
    {
      var id := First(left);
      ghost var i :| 0 <= i < |recent| && recent[i] == id;
      MorePositions(recent, bucket - left, members, id, i);
      members := members + [places[id]];
      assert bucket - (left - {id}) == (bucket - left) + {id};
      left := left - {id};
    }
    assert bucket - left == bucket;
  }

  lemma MorePositions(recent: seq<Id>, some: set<Id>, members: seq<Id>, id: Id, i: nat)
    requires PositionsOf(recent, some, members) && NoDuplicates(recent) && i < |recent| && recent[i] == id
    requires id !in some
    ensures PositionsOf(recent, some + {id}, members + [i])
  {
    var more := members + [i];
    forall x | x in some + {id} ensures exists j :: 0 <= j < |more| && more[j] < |recent| && recent[more[j]] == x {
      if x == id {
        assert more[|members|] == i;
      } else {
        var j :| 0 <= j < |members| && members[j] < |recent| && recent[members[j]] == x;
        assert more[j] == members[j];
      }
    }
  }

  /** Writing the manager gives an image of it, with the entries in ascending order of their ids. */
  method Write(m: Manager) returns (image: Image, ghost recent: seq<Id>, ghost tried: seq<Id>)
    requires m.Valid()
    ensures IsAscending(recent) && IsAscending(tried) && Written(m.View(), image, recent, tried)
  {
    hide Consistent, PositionsOf, NewIds, TriedIds;
    var newInfos, places, triedInfos;
    newInfos, places, recent := WriteNew(m);
    triedInfos, tried := WriteTried(m);
    NewCount(m.hashes, m.View());
    Enumerated(m.hashes, m.View(), recent, newInfos, tried, triedInfos);
    var buckets := [];
    for b := 0 to |m.vvNew|
      invariant |buckets| == b && forall c :: 0 <= c < b ==> PositionsOf(recent, m.vvNew[c], buckets[c])
    {
      BucketMembers(m.hashes, m.View(), recent, b);
      var members := WriteBucket(m.vvNew[b], places, recent);
      buckets := buckets + [members];
    }
    image := Image(m.nNew, m.nTried, NEW_BUCKET_COUNT, newInfos, triedInfos, buckets);
  }

  lemma Enumerated(
      h: Hashes, t: Tables, recent: seq<Id>, newInfos: seq<Stored>, tried: seq<Id>, triedInfos: seq<Stored>)
    requires Consistent(h, t, {})
    requires ListedAll(t, NewIds(t.mapInfo), recent, newInfos) && ListedAll(t, TriedIds(t.mapInfo), tried, triedInfos)
    ensures Enumerates(t, recent, tried) && IsAscending(recent) && IsAscending(tried)
    ensures StoredFrom(t, recent, newInfos) && StoredFrom(t, tried, triedInfos)
  {
    hide Consistent;
    NewCount(h, t);
    AscendingDistinct(recent);
    AscendingDistinct(tried);
  }

  lemma BucketMembers(h: Hashes, t: Tables, recent: seq<Id>, b: nat)
    requires Consistent(h, t, {}) && b < |t.vvNew| && forall x :: x in recent <==> x in NewIds(t.mapInfo)
    ensures forall x :: x in t.vvNew[b] ==> x in recent
  {
  }

  /** A manager, its image and the manager read from it. */
  method SaveAndLoad(m: Manager, other: Manager) returns (ghost all: seq<Id>)
    requires m.Valid() && m != other && m.hashes == other.hashes
    modifies other
    ensures m.View() == old(m.View()) && other.Valid() && Isomorphic(m.View(), other.View(), all)
    ensures old(TimesOk(m.mapInfo)) ==> TimesOk(other.mapInfo)
  {
    hide Consistent, Written, Isomorphic, ReadAll, WellFormed, TimesOk;
    var image;
    ghost var recent, tried;
    image, recent, tried := Write(m);
    RoundTrip(m.hashes, m.View(), image, recent, tried);
    Read(other, image);
    all := recent + tried;
    if TimesOk(m.mapInfo) {
      LoadedTimes(m.View(), other.View(), all);
    }
  }
}
