/**
 The tables of the address manager as one value, the invariant that ties them together, and what the elementary changes
 do to it (src/addrman.h, src/addrman.cpp:435-491).
 */
module AddrTables {

  type NetAddr = nat

  /** Ids count up from 0. */
  type Id = nat

  const TRIED_BUCKET_COUNT := 64
  const TRIED_BUCKET_SIZE := 64
  const NEW_BUCKET_COUNT := 256
  const NEW_BUCKET_SIZE := 64
  const NEW_BUCKETS_PER_ADDRESS := 4

  datatype AddrInfo = AddrInfo(
    ip: NetAddr, port: nat, services: bv64, time: int, source: NetAddr,
    lastSuccess: int, lastTry: int, attempts: int, refCount: int, inTried: bool, randomPos: int)

  /** The two bucket hashes, left arbitrary. */
  datatype Hashes = Hashes(newHash: (NetAddr, NetAddr) -> nat, triedHash: (NetAddr, nat) -> nat)
  {
    function NewBucket(ip: NetAddr, source: NetAddr): (b: nat)
      ensures b < NEW_BUCKET_COUNT
    {
      newHash(ip, source) % NEW_BUCKET_COUNT
    }

    function TriedBucket(info: AddrInfo): (b: nat)
      ensures b < TRIED_BUCKET_COUNT
    {
      triedHash(info.ip, info.port) % TRIED_BUCKET_COUNT
    }
  }

  datatype Tables = Tables(
    idCount: nat, mapInfo: map<Id, AddrInfo>, mapAddr: map<NetAddr, Id>, vRandom: seq<Id>,
    nTried: int, vvTried: seq<seq<Id>>, nNew: int, vvNew: seq<set<Id>>)

  // ----- the invariant, part by part -----

  ghost predicate IdsOk(t: Tables)
  {
    forall id :: id in t.mapInfo ==> id < t.idCount
  }

  /** vRandom and the nRandomPos fields are inverse to each other. */
  ghost predicate RandomOk(mapInfo: map<Id, AddrInfo>, vRandom: seq<Id>)
  {
    && (forall id :: id in mapInfo ==>
          0 <= mapInfo[id].randomPos < |vRandom| && vRandom[mapInfo[id].randomPos] == id)
    && (forall p :: 0 <= p < |vRandom| ==> vRandom[p] in mapInfo && mapInfo[vRandom[p]].randomPos == p)
  }

  /** mapAddr is the inverse of mapInfo. */
  ghost predicate AddrOk(mapInfo: map<Id, AddrInfo>, mapAddr: map<NetAddr, Id>)
  {
    && (forall id :: id in mapInfo ==> mapInfo[id].ip in mapAddr && mapAddr[mapInfo[id].ip] == id)
    && (forall a :: a in mapAddr ==> mapAddr[a] in mapInfo && mapInfo[mapAddr[a]].ip == a)
  }

  /** In how many buckets an id is. */
  function Count(vvNew: seq<set<Id>>, id: Id): nat
  {
    if vvNew == [] then 0
    else Count(vvNew[..|vvNew| - 1], id) + if id in vvNew[|vvNew| - 1] then 1 else 0
  }

  ghost predicate BucketsOk(mapInfo: map<Id, AddrInfo>, vvNew: seq<set<Id>>)
  {
    && |vvNew| == NEW_BUCKET_COUNT
    && (forall b :: 0 <= b < |vvNew| ==> |vvNew[b]| <= NEW_BUCKET_SIZE)
    && (forall b, id :: 0 <= b < |vvNew| && id in vvNew[b] ==> id in mapInfo && !mapInfo[id].inTried)
  }

  /**
   nRefCount is the number of new buckets an id is in, and 1 to 4 unless it is tried.  A pending id has been counted
   for a bucket it is about to enter.
   */
  ghost predicate RefsOk(mapInfo: map<Id, AddrInfo>, vvNew: seq<set<Id>>, pending: set<Id>)
  {
    forall id :: id in mapInfo ==>
      && mapInfo[id].refCount == Count(vvNew, id) + (if id in pending then 1 else 0)
      && (if mapInfo[id].inTried then mapInfo[id].refCount == 0
          else 1 <= mapInfo[id].refCount <= NEW_BUCKETS_PER_ADDRESS)
  }

  ghost predicate NoDuplicates(s: seq<Id>)
  {
    forall i, j :: 0 <= i < j < |s| ==> s[i] != s[j]
  }

  /** Every tried id sits once in the tried bucket its hash selects, and nothing else sits there. */
  ghost predicate TriedOk(h: Hashes, mapInfo: map<Id, AddrInfo>, vvTried: seq<seq<Id>>)
  {
    && |vvTried| == TRIED_BUCKET_COUNT
    && (forall b :: 0 <= b < |vvTried| ==> |vvTried[b]| <= TRIED_BUCKET_SIZE && NoDuplicates(vvTried[b]))
    && (forall b, id :: 0 <= b < |vvTried| && id in vvTried[b] ==>
          id in mapInfo && mapInfo[id].inTried && h.TriedBucket(mapInfo[id]) == b)
    && (forall id :: id in mapInfo && mapInfo[id].inTried ==> id in vvTried[h.TriedBucket(mapInfo[id])])
  }

  ghost function NewIds(mapInfo: map<Id, AddrInfo>): set<Id>
  {
    set id | id in mapInfo && !mapInfo[id].inTried
  }

  ghost function TriedIds(mapInfo: map<Id, AddrInfo>): set<Id>
  {
    set id | id in mapInfo && mapInfo[id].inTried
  }

  ghost predicate CountersOk(t: Tables)
  {
    t.nNew == |NewIds(t.mapInfo)| && t.nTried == |TriedIds(t.mapInfo)|
  }

  ghost predicate Consistent(h: Hashes, t: Tables, pending: set<Id>)
  {
    && IdsOk(t)
    && RandomOk(t.mapInfo, t.vRandom)
    && AddrOk(t.mapInfo, t.mapAddr)
    && BucketsOk(t.mapInfo, t.vvNew)
    && RefsOk(t.mapInfo, t.vvNew, pending)
    && TriedOk(h, t.mapInfo, t.vvTried)
    && CountersOk(t)
  }

  /** What Check_ asks of the times besides. */
  ghost predicate TimesOk(mapInfo: map<Id, AddrInfo>)
  {
    forall id :: id in mapInfo ==>
      && mapInfo[id].lastTry >= 0 && mapInfo[id].lastSuccess >= 0
      && (mapInfo[id].inTried ==> mapInfo[id].lastSuccess != 0)
  }

  // ----- counting -----

  lemma {:induction false} CountUpdate(vvNew: seq<set<Id>>, b: nat, s: set<Id>, id: Id)
    requires b < |vvNew|
    ensures Count(vvNew[b := s], id)
              == Count(vvNew, id) - (if id in vvNew[b] then 1 else 0) + (if id in s then 1 else 0)
  {
    var n := |vvNew| - 1;
    if b == n {
      assert vvNew[b := s][..n] == vvNew[..n];
    } else {
      CountUpdate(vvNew[..n], b, s, id);
      assert vvNew[b := s][..n] == vvNew[..n][b := s];
    }
  }

  lemma {:induction false} CountZero(vvNew: seq<set<Id>>, id: Id)
    ensures Count(vvNew, id) == 0 <==> forall b :: 0 <= b < |vvNew| ==> id !in vvNew[b]
  {
    if vvNew != [] {
      CountZero(vvNew[..|vvNew| - 1], id);
    }
  }

  lemma {:induction false} CountPrefix(vvNew: seq<set<Id>>, b: nat, id: Id)
    requires b <= |vvNew|
    ensures Count(vvNew[..b], id) <= Count(vvNew, id)
  {
    if b < |vvNew| {
      CountPrefix(vvNew[..|vvNew| - 1], b, id);
      assert vvNew[..|vvNew| - 1][..b] == vvNew[..b];
    } else {
      assert vvNew[..b] == vvNew;
    }
  }

  lemma CountNext(vvNew: seq<set<Id>>, b: nat, id: Id)
    requires b < |vvNew|
    ensures Count(vvNew[..b + 1], id) == Count(vvNew[..b], id) + if id in vvNew[b] then 1 else 0
  {
    assert vvNew[..b + 1][..b] == vvNew[..b];
  }

  // ----- size -----

  ghost function Union(vvNew: seq<set<Id>>): set<Id>
  {
    if vvNew == [] then {} else Union(vvNew[..|vvNew| - 1]) + vvNew[|vvNew| - 1]
  }

  lemma {:induction false} InUnion(vvNew: seq<set<Id>>, b: nat, id: Id)
    requires b < |vvNew| && id in vvNew[b]
    ensures id in Union(vvNew)
  {
    if b < |vvNew| - 1 {
      InUnion(vvNew[..|vvNew| - 1], b, id);
    }
  }

  lemma {:induction false} UnionSize(vvNew: seq<set<Id>>, k: nat)
    requires forall b :: 0 <= b < |vvNew| ==> |vvNew[b]| <= k
    ensures |Union(vvNew)| <= |vvNew| * k
  {
    if vvNew != [] {
      UnionSize(vvNew[..|vvNew| - 1], k);
    }
  }

  ghost function Elements(s: seq<Id>): set<Id> { set i | 0 <= i < |s| :: s[i] }

  lemma {:induction false} ElementsSize(s: seq<Id>)
    ensures |Elements(s)| <= |s|
    ensures NoDuplicates(s) ==> |Elements(s)| == |s|
  {
    if s == [] {
      assert Elements(s) == {};
    } else {
      var n := |s| - 1;
      ElementsSize(s[..n]);
      assert Elements(s) == Elements(s[..n]) + {s[n]};
    }
  }

  ghost function BucketSets(vvTried: seq<seq<Id>>): seq<set<Id>>
  {
    seq(|vvTried|, b requires 0 <= b < |vvTried| => Elements(vvTried[b]))
  }

  /** The tables never hold more than all buckets have room for, and vRandom holds every id once. */
  lemma SizeIsBounded(h: Hashes, t: Tables)
    requires Consistent(h, t, {})
    ensures |t.vRandom| == t.nNew + t.nTried
    ensures t.nNew <= NEW_BUCKET_COUNT * NEW_BUCKET_SIZE && t.nTried <= TRIED_BUCKET_COUNT * TRIED_BUCKET_SIZE
    ensures |t.vRandom| <= 64 * 64 + 256 * 64
  {
    hide RandomOk, AddrOk, BucketsOk, RefsOk, TriedOk, NewIds, TriedIds;
    RandomCounts(t.mapInfo, t.vRandom);
    NewFit(t.mapInfo, t.vvNew);
    TriedFit(h, t.mapInfo, t.vvTried);
    NewAndTried(t.mapInfo);
  }

  lemma NewAndTried(mapInfo: map<Id, AddrInfo>)
    ensures |mapInfo.Keys| == |NewIds(mapInfo)| + |TriedIds(mapInfo)|
  {
    assert mapInfo.Keys == NewIds(mapInfo) + TriedIds(mapInfo);
    assert NewIds(mapInfo) !! TriedIds(mapInfo);
  }

  lemma RandomCounts(mapInfo: map<Id, AddrInfo>, vRandom: seq<Id>)
    requires RandomOk(mapInfo, vRandom)
    ensures |vRandom| == |mapInfo.Keys|
  {
    assert NoDuplicates(vRandom);
    ElementsSize(vRandom);
    forall id | id in mapInfo
      ensures id in Elements(vRandom)
    {
      assert vRandom[mapInfo[id].randomPos] == id;
    }
    assert Elements(vRandom) == mapInfo.Keys;
  }

  lemma NewFit(mapInfo: map<Id, AddrInfo>, vvNew: seq<set<Id>>)
    requires BucketsOk(mapInfo, vvNew) && RefsOk(mapInfo, vvNew, {})
    ensures |NewIds(mapInfo)| <= NEW_BUCKET_COUNT * NEW_BUCKET_SIZE
  {
    forall id | id in NewIds(mapInfo)
      ensures id in Union(vvNew)
    {
      CountZero(vvNew, id);
      var b :| 0 <= b < |vvNew| && id in vvNew[b];
      InUnion(vvNew, b, id);
    }
    SubsetSize(NewIds(mapInfo), Union(vvNew));
    UnionSize(vvNew, NEW_BUCKET_SIZE);
  }

  lemma TriedFit(h: Hashes, mapInfo: map<Id, AddrInfo>, vvTried: seq<seq<Id>>)
    requires TriedOk(h, mapInfo, vvTried)
    ensures |TriedIds(mapInfo)| <= TRIED_BUCKET_COUNT * TRIED_BUCKET_SIZE
  {
    var sets := BucketSets(vvTried);
    forall b | 0 <= b < |sets|
      ensures |sets[b]| <= TRIED_BUCKET_SIZE
    {
      ElementsSize(vvTried[b]);
    }
    forall id | id in TriedIds(mapInfo)
      ensures id in Union(sets)
    {
      InUnion(sets, h.TriedBucket(mapInfo[id]), id);
    }
    SubsetSize(TriedIds(mapInfo), Union(sets));
    UnionSize(sets, TRIED_BUCKET_SIZE);
  }

  lemma SubsetSize(a: set<Id>, b: set<Id>)
    requires a <= b
    ensures |a| <= |b|
  {
    assert a + (b - a) == b;
  }

  // ----- changes that do not touch the structure -----

  /** Same ids, with the fields that the other tables depend on. */
  ghost predicate Alike(m: map<Id, AddrInfo>, m': map<Id, AddrInfo>)
  {
    m.Keys == m'.Keys &&
    forall id :: id in m ==>
      m[id].ip == m'[id].ip && m[id].port == m'[id].port && m[id].refCount == m'[id].refCount &&
        m[id].inTried == m'[id].inTried
  }

  /** The same entries, except for their places in vRandom. */
  ghost predicate OnlyMoved(m: map<Id, AddrInfo>, m': map<Id, AddrInfo>)
  {
    m.Keys == m'.Keys && forall id :: id in m ==> m'[id] == m[id].(randomPos := m'[id].randomPos)
  }

  lemma AlikeKeeps(h: Hashes, t: Tables, m: map<Id, AddrInfo>, pending: set<Id>)
    requires Alike(t.mapInfo, m)
    ensures AddrOk(t.mapInfo, t.mapAddr) ==> AddrOk(m, t.mapAddr)
    ensures BucketsOk(t.mapInfo, t.vvNew) ==> BucketsOk(m, t.vvNew)
    ensures RefsOk(t.mapInfo, t.vvNew, pending) ==> RefsOk(m, t.vvNew, pending)
    ensures TriedOk(h, t.mapInfo, t.vvTried) ==> TriedOk(h, m, t.vvTried)
    ensures NewIds(m) == NewIds(t.mapInfo) && TriedIds(m) == TriedIds(t.mapInfo)
  {
    assert forall id :: id in m <==> id in t.mapInfo;
    hide TriedOk, NewIds, TriedIds;
    AlikeIds(t.mapInfo, m);
    if TriedOk(h, t.mapInfo, t.vvTried) {
      TriedSame(h, t.mapInfo, m, t.vvTried);
    }
  }

  lemma AlikeIds(m: map<Id, AddrInfo>, m': map<Id, AddrInfo>)
    requires Alike(m, m')
    ensures NewIds(m') == NewIds(m) && TriedIds(m') == TriedIds(m)
  {
    assert forall id :: id in m' <==> id in m;
    assert forall id :: id in NewIds(m') <==> id in NewIds(m);
    assert forall id :: id in TriedIds(m') <==> id in TriedIds(m);
  }

  /** vRandom and mapAddr depend on positions and addresses only, and the counts on who is tried. */
  lemma IndexSame(t: Tables, m: map<Id, AddrInfo>)
    requires RandomOk(t.mapInfo, t.vRandom) && AddrOk(t.mapInfo, t.mapAddr) && m.Keys == t.mapInfo.Keys
    requires forall id :: id in m ==>
               m[id].ip == t.mapInfo[id].ip && m[id].randomPos == t.mapInfo[id].randomPos &&
                 m[id].inTried == t.mapInfo[id].inTried
    ensures RandomOk(m, t.vRandom) && AddrOk(m, t.mapAddr) && NewIds(m) == NewIds(t.mapInfo)
  {
    assert forall id :: id in m <==> id in t.mapInfo;
    assert forall id :: id in NewIds(m) <==> id in NewIds(t.mapInfo);
  }

  /** The tried tables depend on the tried entries only. */
  lemma TriedSame(h: Hashes, m: map<Id, AddrInfo>, m': map<Id, AddrInfo>, vvTried: seq<seq<Id>>)
    requires TriedOk(h, m, vvTried)
    requires forall id :: id in m && m[id].inTried ==>
               id in m' && m'[id].inTried && m'[id].ip == m[id].ip && m'[id].port == m[id].port
    requires forall id :: id in m' && m'[id].inTried ==> id in m && m[id].inTried
    ensures TriedOk(h, m', vvTried) && TriedIds(m') == TriedIds(m)
  {
    assert forall id :: id in TriedIds(m') <==> id in TriedIds(m);
    assert forall id :: id in m && m[id].inTried ==> h.TriedBucket(m'[id]) == h.TriedBucket(m[id]);
  }

  /** Changing only times, services or attempts of one entry. */
  lemma TouchKeeps(h: Hashes, t: Tables, pending: set<Id>, id: Id, info: AddrInfo)
    requires Consistent(h, t, pending) && id in t.mapInfo
    requires info.ip == t.mapInfo[id].ip && info.port == t.mapInfo[id].port && info.refCount == t.mapInfo[id].refCount
    requires info.inTried == t.mapInfo[id].inTried && info.randomPos == t.mapInfo[id].randomPos
    ensures Consistent(h, t.(mapInfo := t.mapInfo[id := info]), pending)
  {
    hide AddrOk, BucketsOk, RefsOk, TriedOk;
    AlikeKeeps(h, t, t.mapInfo[id := info], pending);
  }

  // ----- vRandom -----

  /** SwapRandom: exchange two places and the positions recorded for them. */
  function SwapInfo(mapInfo: map<Id, AddrInfo>, vRandom: seq<Id>, p: nat, q: nat): map<Id, AddrInfo>
    requires p < |vRandom| && q < |vRandom| && vRandom[p] in mapInfo && vRandom[q] in mapInfo
  {
    if p == q then mapInfo
    else
      var m := mapInfo[vRandom[p] := mapInfo[vRandom[p]].(randomPos := q)];
      m[vRandom[q] := m[vRandom[q]].(randomPos := p)]
  }

  function SwapSeq(vRandom: seq<Id>, p: nat, q: nat): (r: seq<Id>)
    requires p < |vRandom| && q < |vRandom|
    ensures |r| == |vRandom|
  {
    vRandom[p := vRandom[q]][q := vRandom[p]]
  }

  lemma SwapKeeps(mapInfo: map<Id, AddrInfo>, vRandom: seq<Id>, p: nat, q: nat)
    requires RandomOk(mapInfo, vRandom) && p < |vRandom| && q < |vRandom|
    ensures var m := SwapInfo(mapInfo, vRandom, p, q);
            RandomOk(m, SwapSeq(vRandom, p, q)) && OnlyMoved(mapInfo, m)
  {
    if p != q {
      var m, v := SwapInfo(mapInfo, vRandom, p, q), SwapSeq(vRandom, p, q);
      assert m.Keys == mapInfo.Keys;
      forall id | id in m
        ensures 0 <= m[id].randomPos < |v| && v[m[id].randomPos] == id
      {
      }
      forall k | 0 <= k < |v|
        ensures v[k] in m && m[v[k]].randomPos == k
      {
        assert mapInfo[vRandom[k]].randomPos == k;
      }
    } else {
      assert SwapSeq(vRandom, p, q) == vRandom;
    }
  }

  /** Dropping the last place and its entry. */
  lemma PopKeeps(mapInfo: map<Id, AddrInfo>, vRandom: seq<Id>, id: Id)
    requires RandomOk(mapInfo, vRandom) && id in mapInfo && mapInfo[id].randomPos == |vRandom| - 1
    ensures RandomOk(mapInfo - {id}, vRandom[..|vRandom| - 1])
  {
    var n := |vRandom| - 1;
    assert vRandom[n] == id;
    forall p | 0 <= p < n
      ensures vRandom[p] in mapInfo - {id}
    {
      assert mapInfo[vRandom[p]].randomPos == p;
    }
  }

  lemma PushKeeps(mapInfo: map<Id, AddrInfo>, vRandom: seq<Id>, id: Id, info: AddrInfo)
    requires RandomOk(mapInfo, vRandom) && id !in mapInfo && info.randomPos == |vRandom|
    ensures RandomOk(mapInfo[id := info], vRandom + [id])
  {
  }

  // ----- taking an id out of a new bucket -----

  lemma EraseKeepsBuckets(mapInfo: map<Id, AddrInfo>, vvNew: seq<set<Id>>, b: nat, id: Id)
    requires BucketsOk(mapInfo, vvNew) && b < |vvNew|
    ensures BucketsOk(mapInfo, vvNew[b := vvNew[b] - {id}])
  {
    SubsetSize(vvNew[b] - {id}, vvNew[b]);
  }

  /** The reference count of a new entry matters to nothing but the count of its buckets. */
  lemma RefCountChange(h: Hashes, t: Tables, id: Id, refCount: int)
    requires id in t.mapInfo
    requires RandomOk(t.mapInfo, t.vRandom) && AddrOk(t.mapInfo, t.mapAddr) && TriedOk(h, t.mapInfo, t.vvTried)
    ensures var m := t.mapInfo[id := t.mapInfo[id].(refCount := refCount)];
            && RandomOk(m, t.vRandom) && AddrOk(m, t.mapAddr) && TriedOk(h, m, t.vvTried)
            && NewIds(m) == NewIds(t.mapInfo) && TriedIds(m) == TriedIds(t.mapInfo)
  {
    var m := t.mapInfo[id := t.mapInfo[id].(refCount := refCount)];
    hide TriedOk, TriedIds, RandomOk, AddrOk, NewIds;
    TriedSame(h, t.mapInfo, m, t.vvTried);
    IndexSame(t, m);
  }

  lemma UnrefNew(t: Tables, pending: set<Id>, b: nat, id: Id)
    requires BucketsOk(t.mapInfo, t.vvNew) && RefsOk(t.mapInfo, t.vvNew, pending)
    requires b < |t.vvNew| && id in t.vvNew[b] && t.mapInfo[id].refCount > 1
    ensures var m := t.mapInfo[id := t.mapInfo[id].(refCount := t.mapInfo[id].refCount - 1)];
            var vv := t.vvNew[b := t.vvNew[b] - {id}];
            BucketsOk(m, vv) && RefsOk(m, vv, pending)
  {
    EraseKeepsBuckets(t.mapInfo, t.vvNew, b, id);
    forall x | x in t.mapInfo
      ensures Count(t.vvNew[b := t.vvNew[b] - {id}], x) == Count(t.vvNew, x) - if x == id then 1 else 0
    {
      CountUpdate(t.vvNew, b, t.vvNew[b] - {id}, x);
    }
    hide Count;
  }

  /** One reference fewer, and the entry stays. */
  lemma UnrefKeeps(h: Hashes, t: Tables, pending: set<Id>, b: nat, id: Id)
    requires Consistent(h, t, pending) && b < |t.vvNew| && id in t.vvNew[b] && t.mapInfo[id].refCount > 1
    ensures var info := t.mapInfo[id];
            Consistent(h, t.(mapInfo := t.mapInfo[id := info.(refCount := info.refCount - 1)],
                             vvNew := t.vvNew[b := t.vvNew[b] - {id}]), pending)
  {
    BucketEntry(h, t, pending, b, id);
    hide TriedOk, TriedIds, RandomOk, AddrOk, NewIds, BucketsOk, RefsOk;
    var info := t.mapInfo[id];
    UnrefNew(t, pending, b, id);
    RefCountChange(h, t, id, info.refCount - 1);
  }

  /** The entry is deleted: its place in vRandom is filled with the last one, and it leaves all indexes. */
  function Removed(t: Tables, id: Id): Tables
    requires id in t.mapInfo && 0 <= t.mapInfo[id].randomPos < |t.vRandom|
    requires forall p :: 0 <= p < |t.vRandom| ==> t.vRandom[p] in t.mapInfo
  {
    var last := |t.vRandom| - 1;
    var pos := t.mapInfo[id].randomPos;
    t.(mapInfo := SwapInfo(t.mapInfo, t.vRandom, pos, last) - {id},
       vRandom := SwapSeq(t.vRandom, pos, last)[..last],
       mapAddr := t.mapAddr - {t.mapInfo[id].ip},
       nNew := t.nNew - 1)
  }

  lemma RemovedRandom(t: Tables, id: Id)
    requires RandomOk(t.mapInfo, t.vRandom) && id in t.mapInfo
    ensures var r := Removed(t, id);
            && RandomOk(r.mapInfo, r.vRandom)
            && r.mapInfo.Keys == t.mapInfo.Keys - {id}
            && forall x :: x in r.mapInfo ==> r.mapInfo[x] == t.mapInfo[x].(randomPos := r.mapInfo[x].randomPos)
  {
    hide RandomOk, SwapSeq, SwapInfo;
    PlaceOf(t.mapInfo, t.vRandom, id);
    var last, pos := |t.vRandom| - 1, t.mapInfo[id].randomPos;
    var m, v := SwapInfo(t.mapInfo, t.vRandom, pos, last), SwapSeq(t.vRandom, pos, last);
    SwapKeeps(t.mapInfo, t.vRandom, pos, last);
    LastPlace(m, v, id);
    PopKeeps(m, v, id);
  }

  lemma PlaceOf(mapInfo: map<Id, AddrInfo>, vRandom: seq<Id>, id: Id)
    requires RandomOk(mapInfo, vRandom) && id in mapInfo
    ensures 0 <= mapInfo[id].randomPos < |vRandom| && vRandom[mapInfo[id].randomPos] == id
    ensures SwapSeq(vRandom, mapInfo[id].randomPos, |vRandom| - 1)[|vRandom| - 1] == id
    ensures forall p :: 0 <= p < |vRandom| ==> vRandom[p] in mapInfo
  {
  }

  lemma LastPlace(mapInfo: map<Id, AddrInfo>, vRandom: seq<Id>, id: Id)
    requires RandomOk(mapInfo, vRandom) && vRandom != [] && vRandom[|vRandom| - 1] == id
    ensures id in mapInfo && mapInfo[id].randomPos == |vRandom| - 1
  {
  }

  lemma RemovedOthers(h: Hashes, t: Tables, m: map<Id, AddrInfo>, id: Id)
    requires AddrOk(t.mapInfo, t.mapAddr) && TriedOk(h, t.mapInfo, t.vvTried) && CountersOk(t)
    requires id in t.mapInfo && !t.mapInfo[id].inTried && m.Keys == t.mapInfo.Keys - {id}
    requires forall x :: x in m ==> m[x] == t.mapInfo[x].(randomPos := m[x].randomPos)
    ensures AddrOk(m, t.mapAddr - {t.mapInfo[id].ip}) && TriedOk(h, m, t.vvTried)
    ensures t.nNew - 1 == |NewIds(m)| && t.nTried == |TriedIds(m)|
  {
    hide TriedOk, TriedIds, AddrOk;
    assert forall x :: x in m <==> x in t.mapInfo && x != id;
    TriedSame(h, t.mapInfo, m, t.vvTried);
    EraseAddr(t.mapInfo, t.mapAddr, m, id);
    assert NewIds(m) == NewIds(t.mapInfo) - {id};
  }

  lemma EraseAddr(mapInfo: map<Id, AddrInfo>, mapAddr: map<NetAddr, Id>, m: map<Id, AddrInfo>, id: Id)
    requires AddrOk(mapInfo, mapAddr) && id in mapInfo && m.Keys == mapInfo.Keys - {id}
    requires forall x :: x in m ==> m[x].ip == mapInfo[x].ip
    ensures AddrOk(m, mapAddr - {mapInfo[id].ip})
  {
    assert forall x :: x in m <==> x in mapInfo && x != id;
  }

  lemma RemovedNew(t: Tables, pending: set<Id>, m: map<Id, AddrInfo>, b: nat, id: Id)
    requires BucketsOk(t.mapInfo, t.vvNew) && RefsOk(t.mapInfo, t.vvNew, pending)
    requires b < |t.vvNew| && id in t.vvNew[b] && t.mapInfo[id].refCount == 1 && id !in pending
    requires m.Keys == t.mapInfo.Keys - {id}
    requires forall x :: x in m ==> m[x] == t.mapInfo[x].(randomPos := m[x].randomPos)
    ensures var vv := t.vvNew[b := t.vvNew[b] - {id}]; BucketsOk(m, vv) && RefsOk(m, vv, pending)
  {
    var vv := t.vvNew[b := t.vvNew[b] - {id}];
    EraseKeepsBuckets(t.mapInfo, t.vvNew, b, id);
    CountUpdate(t.vvNew, b, t.vvNew[b] - {id}, id);
    CountZero(vv, id);
    forall x | x in m
      ensures Count(vv, x) == Count(t.vvNew, x)
    {
      CountUpdate(t.vvNew, b, t.vvNew[b] - {id}, x);
    }
  }

  /** The last reference is dropped, and the entry with it. */
  lemma ForgetKeeps(h: Hashes, t: Tables, pending: set<Id>, b: nat, id: Id)
    requires Consistent(h, t, pending) && b < |t.vvNew| && id in t.vvNew[b] && t.mapInfo[id].refCount == 1
    requires id !in pending
    ensures Consistent(h, Removed(t, id).(vvNew := t.vvNew[b := t.vvNew[b] - {id}]), pending)
  {
    RemovedRandom(t, id);
    var m := Removed(t, id).mapInfo;
    RemovedOthers(h, t, m, id);
    RemovedNew(t, pending, m, b, id);
    hide RandomOk, AddrOk, BucketsOk, RefsOk, TriedOk, NewIds, TriedIds;
  }

  // ----- putting an id into a new bucket -----

  /** Count a reference in advance. */
  lemma PendKeeps(h: Hashes, t: Tables, id: Id)
    requires Consistent(h, t, {}) && id in t.mapInfo && !t.mapInfo[id].inTried
    requires t.mapInfo[id].refCount < NEW_BUCKETS_PER_ADDRESS
    ensures var info := t.mapInfo[id];
            Consistent(h, t.(mapInfo := t.mapInfo[id := info.(refCount := info.refCount + 1)]), {id})
  {
    hide TriedOk, TriedIds, RandomOk, AddrOk, NewIds, BucketsOk, RefsOk;
    var info := t.mapInfo[id];
    PendNew(t, id);
    RefCountChange(h, t, id, info.refCount + 1);
  }

  lemma PendNew(t: Tables, id: Id)
    requires BucketsOk(t.mapInfo, t.vvNew) && RefsOk(t.mapInfo, t.vvNew, {}) && id in t.mapInfo
    requires !t.mapInfo[id].inTried
    requires t.mapInfo[id].refCount < NEW_BUCKETS_PER_ADDRESS
    ensures var m := t.mapInfo[id := t.mapInfo[id].(refCount := t.mapInfo[id].refCount + 1)];
            BucketsOk(m, t.vvNew) && RefsOk(m, t.vvNew, {id})
  {
    hide Count;
  }

  lemma CreateNew(t: Tables, id: Id, info: AddrInfo)
    requires BucketsOk(t.mapInfo, t.vvNew) && RefsOk(t.mapInfo, t.vvNew, {}) && id !in t.mapInfo
    requires info.refCount == 1 && !info.inTried
    ensures BucketsOk(t.mapInfo[id := info], t.vvNew) && RefsOk(t.mapInfo[id := info], t.vvNew, {id})
  {
    CountZero(t.vvNew, id);
  }

  lemma CreateOthers(h: Hashes, t: Tables, id: Id, info: AddrInfo)
    requires AddrOk(t.mapInfo, t.mapAddr) && TriedOk(h, t.mapInfo, t.vvTried) && CountersOk(t)
    requires id !in t.mapInfo && info.ip !in t.mapAddr && !info.inTried
    ensures var m := t.mapInfo[id := info];
            && AddrOk(m, t.mapAddr[info.ip := id]) && TriedOk(h, m, t.vvTried)
            && t.nNew + 1 == |NewIds(m)| && t.nTried == |TriedIds(m)|
  {
    hide TriedOk, NewIds, TriedIds, AddrOk;
    CreateAddr(t.mapInfo, t.mapAddr, id, info);
    CreateTried(h, t.mapInfo, t.vvTried, id, info);
    CreateIds(t.mapInfo, id, info);
  }

  lemma CreateTried(h: Hashes, mapInfo: map<Id, AddrInfo>, vvTried: seq<seq<Id>>, id: Id, info: AddrInfo)
    requires TriedOk(h, mapInfo, vvTried) && id !in mapInfo && !info.inTried
    ensures TriedOk(h, mapInfo[id := info], vvTried)
  {
    hide TriedOk, TriedIds;
    TriedSame(h, mapInfo, mapInfo[id := info], vvTried);
  }

  lemma CreateIds(mapInfo: map<Id, AddrInfo>, id: Id, info: AddrInfo)
    requires id !in mapInfo && !info.inTried
    ensures |NewIds(mapInfo[id := info])| == |NewIds(mapInfo)| + 1 && TriedIds(mapInfo[id := info]) == TriedIds(mapInfo)
  {
    var m := mapInfo[id := info];
    assert NewIds(m) == NewIds(mapInfo) + {id};
    assert forall x :: x in TriedIds(m) <==> x in TriedIds(mapInfo);
  }

  lemma CreateAddr(mapInfo: map<Id, AddrInfo>, mapAddr: map<NetAddr, Id>, id: Id, info: AddrInfo)
    requires AddrOk(mapInfo, mapAddr) && id !in mapInfo && info.ip !in mapAddr
    ensures AddrOk(mapInfo[id := info], mapAddr[info.ip := id])
  {
  }

  /** A new entry, counted in advance for the bucket it will enter. */
  lemma CreateKeeps(h: Hashes, t: Tables, info: AddrInfo)
    requires Consistent(h, t, {}) && info.ip !in t.mapAddr
    requires info.refCount == 1 && !info.inTried && info.randomPos == |t.vRandom|
    ensures var id := t.idCount;
            Consistent(h, t.(idCount := id + 1, mapInfo := t.mapInfo[id := info], mapAddr := t.mapAddr[info.ip := id],
                             vRandom := t.vRandom + [id], nNew := t.nNew + 1), {id})
  {
    var id := t.idCount;
    assert id !in t.mapInfo;
    hide RandomOk, AddrOk, BucketsOk, RefsOk, TriedOk, NewIds, TriedIds;
    PushKeeps(t.mapInfo, t.vRandom, id, info);
    CreateNew(t, id, info);
    CreateOthers(h, t, id, info);
  }

  /** The pending id enters its bucket. */
  lemma InsertKeeps(h: Hashes, t: Tables, b: nat, id: Id)
    requires Consistent(h, t, {id}) && id in t.mapInfo && !t.mapInfo[id].inTried
    requires b < |t.vvNew| && id !in t.vvNew[b] && |t.vvNew[b]| < NEW_BUCKET_SIZE
    ensures Consistent(h, t.(vvNew := t.vvNew[b := t.vvNew[b] + {id}]), {})
  {
    hide RandomOk, AddrOk, TriedOk, BucketsOk, RefsOk;
    InsertRefs(t.mapInfo, t.vvNew, b, id);
    InsertBuckets(t.mapInfo, t.vvNew, b, id);
  }

  lemma InsertRefs(mapInfo: map<Id, AddrInfo>, vvNew: seq<set<Id>>, b: nat, id: Id)
    requires RefsOk(mapInfo, vvNew, {id}) && b < |vvNew| && id !in vvNew[b]
    ensures RefsOk(mapInfo, vvNew[b := vvNew[b] + {id}], {})
  {
    hide Count;
    forall x ensures Count(vvNew[b := vvNew[b] + {id}], x) == Count(vvNew, x) + if x == id then 1 else 0 {
      CountUpdate(vvNew, b, vvNew[b] + {id}, x);
    }
  }

  lemma InsertBuckets(mapInfo: map<Id, AddrInfo>, vvNew: seq<set<Id>>, b: nat, id: Id)
    requires BucketsOk(mapInfo, vvNew) && id in mapInfo && !mapInfo[id].inTried
    requires b < |vvNew| && id !in vvNew[b] && |vvNew[b]| < NEW_BUCKET_SIZE
    ensures BucketsOk(mapInfo, vvNew[b := vvNew[b] + {id}])
  {
  }

  // ----- moving an id between new and tried -----

  function Cleared(vvNew: seq<set<Id>>, id: Id): (r: seq<set<Id>>)
    ensures |r| == |vvNew|
    ensures forall b :: 0 <= b < |vvNew| ==> r[b] == vvNew[b] - {id}
  {
    seq(|vvNew|, b requires 0 <= b < |vvNew| => vvNew[b] - {id})
  }

  lemma {:induction false} CountCleared(vvNew: seq<set<Id>>, id: Id, x: Id)
    ensures Count(Cleared(vvNew, id), x) == if x == id then 0 else Count(vvNew, x)
  {
    if vvNew != [] {
      var n := |vvNew| - 1;
      CountCleared(vvNew[..n], id, x);
      assert Cleared(vvNew, id)[..n] == Cleared(vvNew[..n], id);
    }
  }

  /** id leaves the new buckets for the tried table. */
  lemma PromoteNew(t: Tables, id: Id)
    requires BucketsOk(t.mapInfo, t.vvNew) && RefsOk(t.mapInfo, t.vvNew, {}) && id in t.mapInfo
    ensures var m := t.mapInfo[id := t.mapInfo[id].(refCount := 0, inTried := true)];
            BucketsOk(m, Cleared(t.vvNew, id)) && RefsOk(m, Cleared(t.vvNew, id), {})
  {
    var m := t.mapInfo[id := t.mapInfo[id].(refCount := 0, inTried := true)];
    var vv := Cleared(t.vvNew, id);
    forall b | 0 <= b < |vv|
      ensures |vv[b]| <= NEW_BUCKET_SIZE
    {
      SubsetSize(vv[b], t.vvNew[b]);
    }
    forall x | x in m
      ensures m[x].refCount == Count(vv, x)
    {
      CountCleared(t.vvNew, id, x);
    }
    hide Count;
  }

  lemma IndexKept(t: Tables, m: map<Id, AddrInfo>)
    requires RandomOk(t.mapInfo, t.vRandom) && AddrOk(t.mapInfo, t.mapAddr) && m.Keys == t.mapInfo.Keys
    requires forall id :: id in m ==> m[id].ip == t.mapInfo[id].ip && m[id].randomPos == t.mapInfo[id].randomPos
    ensures RandomOk(m, t.vRandom) && AddrOk(m, t.mapAddr)
  {
    assert forall id :: id in m <==> id in t.mapInfo;
  }

  lemma PromoteTried(h: Hashes, t: Tables, id: Id)
    requires TriedOk(h, t.mapInfo, t.vvTried) && id in t.mapInfo && !t.mapInfo[id].inTried
    requires |t.vvTried[h.TriedBucket(t.mapInfo[id])]| < TRIED_BUCKET_SIZE
    ensures var info := t.mapInfo[id].(refCount := 0, inTried := true);
            var k := h.TriedBucket(t.mapInfo[id]);
            TriedOk(h, t.mapInfo[id := info], t.vvTried[k := t.vvTried[k] + [id]])
  {
    var info := t.mapInfo[id].(refCount := 0, inTried := true);
    var m := t.mapInfo[id := info];
    var k := h.TriedBucket(t.mapInfo[id]);
    assert h.TriedBucket(info) == k;
    var vv := t.vvTried[k := t.vvTried[k] + [id]];
    assert id !in t.vvTried[k];
    assert NoDuplicates(vv[k]);
  }

  /** A new entry moves to the end of its tried bucket, which has room. */
  lemma PromoteKeeps(h: Hashes, t: Tables, id: Id)
    requires Consistent(h, t, {}) && id in t.mapInfo && !t.mapInfo[id].inTried
    requires |t.vvTried[h.TriedBucket(t.mapInfo[id])]| < TRIED_BUCKET_SIZE
    ensures var k := h.TriedBucket(t.mapInfo[id]);
            Consistent(h, t.(mapInfo := t.mapInfo[id := t.mapInfo[id].(refCount := 0, inTried := true)],
                             vvNew := Cleared(t.vvNew, id), vvTried := t.vvTried[k := t.vvTried[k] + [id]],
                             nNew := t.nNew - 1, nTried := t.nTried + 1), {})
  {
    hide RandomOk, AddrOk, BucketsOk, RefsOk, TriedOk, NewIds, TriedIds;
    var m := t.mapInfo[id := t.mapInfo[id].(refCount := 0, inTried := true)];
    PromoteNew(t, id);
    PromoteTried(h, t, id);
    IndexKept(t, m);
    PromoteCounts(t.mapInfo, id);
  }

  lemma PromoteCounts(mapInfo: map<Id, AddrInfo>, id: Id)
    requires id in mapInfo && !mapInfo[id].inTried
    ensures var m := mapInfo[id := mapInfo[id].(refCount := 0, inTried := true)];
            |NewIds(m)| == |NewIds(mapInfo)| - 1 && |TriedIds(m)| == |TriedIds(mapInfo)| + 1
  {
    var m := mapInfo[id := mapInfo[id].(refCount := 0, inTried := true)];
    assert NewIds(m) == NewIds(mapInfo) - {id};
    assert TriedIds(m) == TriedIds(mapInfo) + {id};
  }

  /** Another order of a bucket changes nothing. */
  ghost predicate Reordered(a: seq<Id>, b: seq<Id>)
  {
    |a| == |b| && NoDuplicates(b) && forall x :: x in a <==> x in b
  }

  lemma ReorderKeeps(h: Hashes, t: Tables, k: nat, bucket: seq<Id>)
    requires TriedOk(h, t.mapInfo, t.vvTried) && k < |t.vvTried| && Reordered(t.vvTried[k], bucket)
    ensures TriedOk(h, t.mapInfo, t.vvTried[k := bucket])
  {
  }

  function Placed(bucket: seq<Id>, pos: nat, id: Id): seq<Id>
    requires pos < |bucket|
  {
    bucket[pos := id]
  }

  /** Promote one entry, and send another one back. */
  function Exchanged(mapInfo: map<Id, AddrInfo>, id: Id, evicted: Id): map<Id, AddrInfo>
    requires id in mapInfo && evicted in mapInfo
  {
    mapInfo[evicted := mapInfo[evicted].(refCount := 1, inTried := false)]
           [id := mapInfo[id].(refCount := 0, inTried := true)]
  }

  lemma PlacedMembers(bucket: seq<Id>, pos: nat, id: Id)
    requires pos < |bucket| && NoDuplicates(bucket) && id !in bucket
    ensures NoDuplicates(Placed(bucket, pos, id))
    ensures forall x :: x in Placed(bucket, pos, id) <==> x == id || (x in bucket && x != bucket[pos])
  {
    var placed := Placed(bucket, pos, id);
    forall x | x in bucket && x != bucket[pos]
      ensures x in placed
    {
      var i :| 0 <= i < |bucket| && bucket[i] == x;
      assert placed[i] == x;
    }
    assert placed[pos] == id;
  }

  /** id takes the place of the entry at position pos, which goes back to new. */
  lemma ReplaceTried(h: Hashes, mapInfo: map<Id, AddrInfo>, vvTried: seq<seq<Id>>, id: Id, pos: nat)
    requires TriedOk(h, mapInfo, vvTried) && id in mapInfo && !mapInfo[id].inTried
    requires pos < |vvTried[h.TriedBucket(mapInfo[id])]|
    ensures var k := h.TriedBucket(mapInfo[id]);
            var evicted := vvTried[k][pos];
            && evicted in mapInfo && evicted != id && mapInfo[evicted].inTried
            && TriedOk(h, Exchanged(mapInfo, id, evicted), vvTried[k := Placed(vvTried[k], pos, id)])
  {
    var k := h.TriedBucket(mapInfo[id]);
    var evicted := vvTried[k][pos];
    assert evicted in vvTried[k] && evicted != id;
    PlacedMembers(vvTried[k], pos, id);
    PlacedTried(h, mapInfo, vvTried, id, evicted, Placed(vvTried[k], pos, id));
  }

  lemma PlacedTried(h: Hashes, mapInfo: map<Id, AddrInfo>, vvTried: seq<seq<Id>>, id: Id, evicted: Id, placed: seq<Id>)
    requires TriedOk(h, mapInfo, vvTried) && id in mapInfo && !mapInfo[id].inTried && evicted in mapInfo
    requires evicted != id
    requires var bucket := vvTried[h.TriedBucket(mapInfo[id])];
             && evicted in bucket && |placed| == |bucket| && NoDuplicates(placed)
             && forall x :: x in placed <==> x == id || (x in bucket && x != evicted)
    ensures TriedOk(h, Exchanged(mapInfo, id, evicted), vvTried[h.TriedBucket(mapInfo[id]) := placed])
  {
    hide NoDuplicates;
    var k := h.TriedBucket(mapInfo[id]);
    var m, vv := Exchanged(mapInfo, id, evicted), vvTried[k := placed];
    forall x | x in m ensures x in mapInfo && h.TriedBucket(m[x]) == h.TriedBucket(mapInfo[x]) {
    }
    forall b, x | 0 <= b < |vv| && x in vv[b] ensures x in m && m[x].inTried && h.TriedBucket(m[x]) == b {
      assert x == id || x in vvTried[b];
    }
    forall x | x in m && m[x].inTried ensures x in vv[h.TriedBucket(m[x])] {
      assert x == id || x in vvTried[h.TriedBucket(mapInfo[x])];
    }
  }

  lemma EvictRefs(mapInfo: map<Id, AddrInfo>, vvNew: seq<set<Id>>, id: Id, evicted: Id, ub: nat)
    requires RefsOk(mapInfo, vvNew, {})
    requires id in mapInfo && evicted in mapInfo && evicted != id && mapInfo[evicted].inTried && ub < |vvNew|
    ensures RefsOk(Exchanged(mapInfo, id, evicted), Cleared(vvNew, id)[ub := vvNew[ub] - {id} + {evicted}], {})
  {
    var m := Exchanged(mapInfo, id, evicted);
    var cleared := Cleared(vvNew, id);
    var vv := cleared[ub := cleared[ub] + {evicted}];
    CountZero(vvNew, evicted);
    forall x | x in m
      ensures m[x].refCount == Count(vv, x)
    {
      CountCleared(vvNew, id, x);
      CountUpdate(cleared, ub, cleared[ub] + {evicted}, x);
    }
    hide Count;
  }

  lemma EvictBuckets(mapInfo: map<Id, AddrInfo>, vvNew: seq<set<Id>>, id: Id, evicted: Id, ub: nat)
    requires BucketsOk(mapInfo, vvNew) && id in mapInfo && evicted in mapInfo && evicted != id
    requires ub < |vvNew| && |vvNew[ub] - {id}| < NEW_BUCKET_SIZE
    ensures BucketsOk(Exchanged(mapInfo, id, evicted), Cleared(vvNew, id)[ub := vvNew[ub] - {id} + {evicted}])
  {
    var cleared := Cleared(vvNew, id);
    forall b | 0 <= b < |cleared|
      ensures |cleared[b]| <= NEW_BUCKET_SIZE
    {
      SubsetSize(cleared[b], vvNew[b]);
    }
  }

  lemma EvictCounts(mapInfo: map<Id, AddrInfo>, id: Id, evicted: Id)
    requires id in mapInfo && evicted in mapInfo && !mapInfo[id].inTried && mapInfo[evicted].inTried
    ensures |NewIds(Exchanged(mapInfo, id, evicted))| == |NewIds(mapInfo)|
    ensures |TriedIds(Exchanged(mapInfo, id, evicted))| == |TriedIds(mapInfo)|
  {
    var m := Exchanged(mapInfo, id, evicted);
    ExchangedIds(mapInfo, id, evicted);
    ExchangeSize(NewIds(mapInfo), id, evicted, NewIds(m));
    ExchangeSize(TriedIds(mapInfo), evicted, id, TriedIds(m));
  }

  lemma ExchangedIds(mapInfo: map<Id, AddrInfo>, id: Id, evicted: Id)
    requires id in mapInfo && evicted in mapInfo && !mapInfo[id].inTried && mapInfo[evicted].inTried
    ensures forall x :: x in NewIds(Exchanged(mapInfo, id, evicted)) <==>
              x == evicted || (x in NewIds(mapInfo) && x != id)
    ensures forall x :: x in TriedIds(Exchanged(mapInfo, id, evicted)) <==>
              x == id || (x in TriedIds(mapInfo) && x != evicted)
  {
  }

  lemma ExchangeSize(s: set<Id>, gone: Id, come: Id, s': set<Id>)
    requires gone in s && come !in s && forall x :: x in s' <==> x == come || (x in s && x != gone)
    ensures |s'| == |s|
  {
    assert s' == s - {gone} + {come};
  }

  /** The tables after id has replaced the entry at position pos of its tried bucket. */
  function Evicted(h: Hashes, t: Tables, id: Id, pos: nat, ub: nat): Tables
    requires id in t.mapInfo && h.TriedBucket(t.mapInfo[id]) < |t.vvTried|
    requires pos < |t.vvTried[h.TriedBucket(t.mapInfo[id])]| && ub < |t.vvNew|
    requires t.vvTried[h.TriedBucket(t.mapInfo[id])][pos] in t.mapInfo
  {
    var k := h.TriedBucket(t.mapInfo[id]);
    var evicted := t.vvTried[k][pos];
    t.(mapInfo := Exchanged(t.mapInfo, id, evicted),
       vvNew := Cleared(t.vvNew, id)[ub := t.vvNew[ub] - {id} + {evicted}],
       vvTried := t.vvTried[k := Placed(t.vvTried[k], pos, id)])
  }

  /** A new entry takes the place of a tried one, which goes to a new bucket with room. */
  lemma EvictKeeps(h: Hashes, t: Tables, id: Id, pos: nat, ub: nat)
    requires Consistent(h, t, {}) && id in t.mapInfo && !t.mapInfo[id].inTried
    requires pos < |t.vvTried[h.TriedBucket(t.mapInfo[id])]|
    requires ub < |t.vvNew| && |t.vvNew[ub] - {id}| < NEW_BUCKET_SIZE
    ensures var evicted := t.vvTried[h.TriedBucket(t.mapInfo[id])][pos];
            && evicted in t.mapInfo && evicted != id && t.mapInfo[evicted].inTried
            && Consistent(h, Evicted(h, t, id, pos, ub), {})
  {
    hide RandomOk, AddrOk, BucketsOk, RefsOk, TriedOk, NewIds, TriedIds, Exchanged, Cleared, Placed;
    TriedEntryAt(h, t, id, pos);
    var evicted := t.vvTried[h.TriedBucket(t.mapInfo[id])][pos];
    ReplaceTried(h, t.mapInfo, t.vvTried, id, pos);
    EvictRefs(t.mapInfo, t.vvNew, id, evicted, ub);
    EvictBuckets(t.mapInfo, t.vvNew, id, evicted, ub);
    EvictCounts(t.mapInfo, id, evicted);
    ExchangedIndexes(t, id, evicted);
  }

  lemma TriedEntryAt(h: Hashes, t: Tables, id: Id, pos: nat)
    requires Consistent(h, t, {}) && id in t.mapInfo
    ensures |t.vvTried| == TRIED_BUCKET_COUNT && |t.vvNew| == NEW_BUCKET_COUNT
  {
  }

  lemma ExchangedIndexes(t: Tables, id: Id, evicted: Id)
    requires RandomOk(t.mapInfo, t.vRandom) && AddrOk(t.mapInfo, t.mapAddr) && id in t.mapInfo && evicted in t.mapInfo
    ensures var m := Exchanged(t.mapInfo, id, evicted);
            RandomOk(m, t.vRandom) && AddrOk(m, t.mapAddr) && m.Keys == t.mapInfo.Keys
  {
    hide RandomOk, AddrOk;
    IndexKept(t, Exchanged(t.mapInfo, id, evicted));
  }

  // ----- what the operations read off the invariant -----

  lemma BucketEntry(h: Hashes, t: Tables, pending: set<Id>, b: nat, id: Id)
    requires Consistent(h, t, pending) && b < |t.vvNew| && id in t.vvNew[b]
    ensures id in t.mapInfo && !t.mapInfo[id].inTried && 1 <= t.mapInfo[id].refCount <= NEW_BUCKETS_PER_ADDRESS
    ensures RandomOk(t.mapInfo, t.vRandom) && 0 <= t.mapInfo[id].randomPos < |t.vRandom|
    ensures forall p :: 0 <= p < |t.vRandom| ==> t.vRandom[p] in t.mapInfo
  {
  }

  lemma BucketRoom(h: Hashes, t: Tables, pending: set<Id>, b: nat)
    requires Consistent(h, t, pending) && b < |t.vvNew|
    ensures |t.vvNew[b]| <= NEW_BUCKET_SIZE
  {
  }

  /** The tables with one reference to id counted in advance. */
  function Pended(t: Tables, id: Id): Tables
    requires id in t.mapInfo
  {
    t.(mapInfo := t.mapInfo[id := t.mapInfo[id].(refCount := t.mapInfo[id].refCount + 1)])
  }

  lemma FreshId(h: Hashes, t: Tables)
    requires Consistent(h, t, {})
    ensures t.idCount !in t.mapInfo && forall b :: 0 <= b < |t.vvNew| ==> t.idCount !in t.vvNew[b]
  {
  }

  lemma KnownEntry(h: Hashes, t: Tables, id: Id)
    requires Consistent(h, t, {}) && id in t.mapInfo
    ensures t.mapInfo[id].ip in t.mapAddr && t.mapAddr[t.mapInfo[id].ip] == id
    ensures 0 <= t.mapInfo[id].refCount <= NEW_BUCKETS_PER_ADDRESS
  {
  }

  lemma ShapeOfPended(h: Hashes, t: Tables, id: Id)
    requires id in t.mapInfo && Consistent(h, Pended(t, id), {id})
    ensures |t.vvNew| == NEW_BUCKET_COUNT
  {
  }

  lemma OneIdPerAddress(h: Hashes, t: Tables, ip: NetAddr)
    requires Consistent(h, t, {})
    ensures forall x :: x in t.mapInfo && t.mapInfo[x].ip == ip ==> ip in t.mapAddr && t.mapAddr[ip] == x
  {
  }

  lemma SwapReorders(s: seq<Id>, p: nat, q: nat)
    requires p < |s| && q < |s| && NoDuplicates(s)
    ensures multiset(SwapSeq(s, p, q)) == multiset(s) && Reordered(s, SwapSeq(s, p, q))
  {
    var r := SwapSeq(s, p, q);
    assert multiset(r) == multiset(s);
    forall x
      ensures x in s <==> x in r
    {
      assert x in s <==> x in multiset(s);
      assert x in r <==> x in multiset(r);
    }
  }

  lemma MakeTriedFacts(h: Hashes, t: Tables, id: Id, origin: nat)
    requires Consistent(h, t, {}) && origin < |t.vvNew| && id in t.vvNew[origin]
    ensures id in t.mapInfo && t.mapInfo[id].refCount == Count(t.vvNew, id)
    ensures |t.vvTried| == TRIED_BUCKET_COUNT && |t.vvTried[h.TriedBucket(t.mapInfo[id])]| <= TRIED_BUCKET_SIZE
  {
  }

  lemma TriedBucketFacts(h: Hashes, t: Tables, k: nat)
    requires Consistent(h, t, {}) && k < |t.vvTried|
    ensures NoDuplicates(t.vvTried[k]) && forall x :: x in t.vvTried[k] ==> x in t.mapInfo && t.mapInfo[x].inTried
  {
  }

  lemma ReorderConsistent(h: Hashes, t: Tables, k: nat, bucket: seq<Id>)
    requires Consistent(h, t, {}) && k < |t.vvTried| && Reordered(t.vvTried[k], bucket)
    ensures Consistent(h, t.(vvTried := t.vvTried[k := bucket]), {})
  {
    hide RandomOk, AddrOk, BucketsOk, RefsOk, TriedOk;
    ReorderKeeps(h, t, k, bucket);
  }

  lemma EvictedEntry(h: Hashes, t: Tables, id: Id, k: nat, pos: nat)
    requires Consistent(h, t, {}) && id in t.mapInfo && !t.mapInfo[id].inTried && k < |t.vvTried|
    requires pos < |t.vvTried[k]|
    ensures t.vvTried[k][pos] in t.mapInfo && t.vvTried[k][pos] != id
  {
    assert t.vvTried[k][pos] in t.vvTried[k];
  }

  lemma ClearedRoom(h: Hashes, t: Tables, id: Id, origin: nat)
    requires Consistent(h, t, {}) && origin < |t.vvNew| && id in t.vvNew[origin]
    ensures |t.vvNew| == NEW_BUCKET_COUNT && |Cleared(t.vvNew, id)[origin]| < NEW_BUCKET_SIZE
  {
    assert |t.vvNew[origin] - {id}| == |t.vvNew[origin]| - 1;
  }

  lemma ClearedAt(vvNew: seq<set<Id>>, id: Id, b: nat)
    requires b < |vvNew|
    ensures Cleared(vvNew, id)[b] == vvNew[b] - {id}
  {
  }

  /** A new entry has a bucket. */
  lemma HomeBucket(h: Hashes, t: Tables, id: Id) returns (b: nat)
    requires Consistent(h, t, {}) && id in t.mapInfo && !t.mapInfo[id].inTried
    ensures |t.vvNew| == NEW_BUCKET_COUNT && b < |t.vvNew| && id in t.vvNew[b]
  {
    CountZero(t.vvNew, id);
    b :| 0 <= b < |t.vvNew| && id in t.vvNew[b];
  }

  lemma SwapConsistent(h: Hashes, t: Tables, p: nat, q: nat)
    requires Consistent(h, t, {}) && p < |t.vRandom| && q < |t.vRandom|
    ensures RandomOk(t.mapInfo, t.vRandom)
    ensures Consistent(h, t.(mapInfo := SwapInfo(t.mapInfo, t.vRandom, p, q), vRandom := SwapSeq(t.vRandom, p, q)), {})
    ensures multiset(SwapSeq(t.vRandom, p, q)) == multiset(t.vRandom)
    ensures forall i :: 0 <= i < |t.vRandom| ==> SwapSeq(t.vRandom, p, q)[i] in SwapInfo(t.mapInfo, t.vRandom, p, q)
  {
    hide RandomOk, AddrOk, BucketsOk, RefsOk, TriedOk, NewIds, TriedIds, SwapInfo;
    AllPlacesKnown(t.mapInfo, t.vRandom);
    SwapKeeps(t.mapInfo, t.vRandom, p, q);
    AlikeKeeps(h, t, SwapInfo(t.mapInfo, t.vRandom, p, q), {});
    AllPlacesKnown(SwapInfo(t.mapInfo, t.vRandom, p, q), SwapSeq(t.vRandom, p, q));
  }

  lemma AllPlacesKnown(mapInfo: map<Id, AddrInfo>, vRandom: seq<Id>)
    requires RandomOk(mapInfo, vRandom)
    ensures forall i :: 0 <= i < |vRandom| ==> vRandom[i] in mapInfo
  {
  }

  /** Two places of vRandom hold different addresses. */
  lemma DistinctAddresses(h: Hashes, t: Tables)
    requires Consistent(h, t, {})
    ensures forall i, j :: 0 <= i < j < |t.vRandom| ==>
              && t.vRandom[i] in t.mapInfo && t.vRandom[j] in t.mapInfo
              && t.mapInfo[t.vRandom[i]].ip != t.mapInfo[t.vRandom[j]].ip
  {
  }
}
