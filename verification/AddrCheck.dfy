/**
 Check_, the consistency test that the address manager carries for debugging (src/addrman.cpp:435-491), on any tables
 whatever: what it accepts, and what of the invariant it does not look at.
 */
module AddrCheck {
  import opened AddrTables

  // ----- what is accepted -----

  /** mapAddr[ip]; looking up an unknown address makes an entry with 0. */
  function LookUp(mapAddr: map<NetAddr, Id>, ip: NetAddr): Id { if ip in mapAddr then mapAddr[ip] else 0 }

  /** What one entry must satisfy; the code of the first complaint, or 0. */
  function CheckEntry(t: Tables, id: Id): int
    requires id in t.mapInfo
  {
    var info := t.mapInfo[id];
    if info.inTried && info.lastSuccess == 0 then -1
    else if info.inTried && info.refCount != 0 then -2
    else if !info.inTried && (info.refCount < 0 || info.refCount > NEW_BUCKETS_PER_ADDRESS) then -3
    else if !info.inTried && info.refCount == 0 then -4
    else if LookUp(t.mapAddr, info.ip) != id then -5
    else if info.randomPos < 0 || info.randomPos >= |t.vRandom| || t.vRandom[info.randomPos] != id then -14
    else if info.lastTry < 0 then -6
    else if info.lastSuccess < 0 then -8
    else 0
  }

  /** An entry is in one table, with a reference count and times to match, and address and place lead back to it. */
  ghost predicate EntryOk(t: Tables, id: Id)
    requires id in t.mapInfo
  {
    var info := t.mapInfo[id];
    && (if info.inTried then info.refCount == 0 && info.lastSuccess != 0 else 1 <= info.refCount <= 4)
    && info.lastTry >= 0 && info.lastSuccess >= 0
    && (if info.ip in t.mapAddr then t.mapAddr[info.ip] == id else id == 0)
    && 0 <= info.randomPos < |t.vRandom| && t.vRandom[info.randomPos] == id
  }

  lemma EntryPasses(t: Tables, id: Id)
    requires id in t.mapInfo
    ensures CheckEntry(t, id) == 0 <==> EntryOk(t, id)
  {
  }

  /** The tried buckets one after the other. */
  ghost function Row(vvTried: seq<seq<Id>>): seq<Id>
  {
    if vvTried == [] then [] else Row(vvTried[..|vvTried| - 1]) + vvTried[|vvTried| - 1]
  }

  /** In how many new buckets an id should be. */
  ghost function Refs(mapInfo: map<Id, AddrInfo>, id: Id): int
  {
    if id in mapInfo && !mapInfo[id].inTried then mapInfo[id].refCount else 0
  }

  /** What Check_ finds nothing wrong with. */
  ghost predicate Passes(t: Tables)
  {
    && |t.vRandom| == t.nTried + t.nNew && CountersOk(t)
    && (forall id :: id in t.mapInfo ==> EntryOk(t, id))
    && NoDuplicates(Row(t.vvTried)) && Elements(Row(t.vvTried)) == TriedIds(t.mapInfo)
    && (forall id: Id :: Count(t.vvNew, id) == Refs(t.mapInfo, id))
  }

  // ----- the entries -----

  /** The pass over mapInfo: collect the tried ids, and the reference counts of the others. */
  method CheckEntries(t: Tables) returns (code: int, setTried: set<Id>, mapNew: map<Id, int>)
    ensures code == 0 <==> forall id :: id in t.mapInfo ==> EntryOk(t, id)
    ensures code == 0 ==> setTried == TriedIds(t.mapInfo)
    ensures code == 0 ==> mapNew == map id | id in t.mapInfo && !t.mapInfo[id].inTried :: t.mapInfo[id].refCount
  {
    hide CheckEntry, EntryOk;
    setTried, mapNew := {}, map[];
    var todo := t.mapInfo.Keys;
    while todo != {}
      invariant todo <= t.mapInfo.Keys
      invariant forall id :: id in t.mapInfo && id !in todo ==> EntryOk(t, id)
      invariant forall id :: id in setTried <==> id in t.mapInfo && id !in todo && t.mapInfo[id].inTried
      invariant forall id :: id in mapNew <==> id in t.mapInfo && id !in todo && !t.mapInfo[id].inTried
      invariant forall id :: id in mapNew ==> mapNew[id] == t.mapInfo[id].refCount
      decreases |todo|
    {
      var id :| id in todo;
      EntryPasses(t, id);
      code := CheckEntry(t, id);
      if code != 0 { return; }
      if t.mapInfo[id].inTried {
        setTried := setTried + {id};
      } else {
        mapNew := mapNew[id := t.mapInfo[id].refCount];
      }
      todo := todo - {id};
    }
    code := 0;
  }

  // ----- the tried buckets -----

  lemma OneMore(s: seq<Id>, id: Id)
    ensures Elements(s + [id]) == Elements(s) + {id}
    ensures NoDuplicates(s + [id]) <==> NoDuplicates(s) && id !in Elements(s)
  {
    ElementsOfBoth(s, [id]);
    assert Elements([id]) == {id} by {
      assert [id][0] == id;
    }
    if id in Elements(s) {
      var i :| 0 <= i < |s| && s[i] == id;
      assert (s + [id])[i] == (s + [id])[|s|];
    }
    if NoDuplicates(s + [id]) {
      assert forall i :: 0 <= i < |s| ==> (s + [id])[i] == s[i];
    }
  }

  lemma ElementsOfBoth(a: seq<Id>, b: seq<Id>)
    ensures Elements(a + b) == Elements(a) + Elements(b)
  {
    forall x ensures x in Elements(a + b) <==> x in Elements(a) + Elements(b) {
      if x in Elements(a) {
        var i :| 0 <= i < |a| && a[i] == x;
        assert (a + b)[i] == x;
      }
      if x in Elements(b) {
        var i :| 0 <= i < |b| && b[i] == x;
        assert (a + b)[|a| + i] == x;
      }
    }
  }

  /** A row that strikes off distinct ids of a set. */
  ghost predicate Strikes(row: seq<Id>, from: set<Id>) { NoDuplicates(row) && Elements(row) <= from }

  lemma FrontStrikes(a: seq<Id>, b: seq<Id>, from: set<Id>)
    requires Strikes(a + b, from)
    ensures Strikes(a, from)
  {
    ElementsOfBoth(a, b);
    assert forall i :: 0 <= i < |a| ==> (a + b)[i] == a[i];
  }

  /** The pass over one tried bucket, after others: every id must still be in the set, and is struck off. */
  method CheckTriedBucket(bucket: seq<Id>, setTried: set<Id>, ghost all: set<Id>, ghost before: seq<Id>)
    returns (code: int, left: set<Id>)
    requires Strikes(before, all) && setTried == all - Elements(before)
    ensures code == 0 <==> Strikes(before + bucket, all)
    ensures code == 0 ==> left == all - Elements(before + bucket)
  {
    hide Elements, NoDuplicates;
    left := setTried;
    assert before + bucket[..0] == before;
    for i := 0 to |bucket|
      invariant Strikes(before + bucket[..i], all) && left == all - Elements(before + bucket[..i])
    {
      var row := before + bucket[..i];
      OneMore(row, bucket[i]);
      assert before + bucket[..i + 1] == row + [bucket[i]];
      if bucket[i] !in left {
        assert before + bucket == row + [bucket[i]] + bucket[i + 1..];
        if Strikes(before + bucket, all) {
          FrontStrikes(row + [bucket[i]], bucket[i + 1..], all);
        }
        return -11, left;
      }
      left := left - {bucket[i]};
    }
    assert bucket[..|bucket|] == bucket;
    code := 0;
  }

  /** The pass over all tried buckets. */
  method CheckTried(vvTried: seq<seq<Id>>, setTried: set<Id>) returns (code: int, left: set<Id>)
    ensures code == 0 <==> Strikes(Row(vvTried), setTried)
    ensures code == 0 ==> left == setTried - Elements(Row(vvTried))
  {
    hide Strikes;
    left := setTried;
    NothingStrikes(setTried);
    for b := 0 to |vvTried|
      invariant Strikes(Row(vvTried[..b]), setTried) && left == setTried - Elements(Row(vvTried[..b]))
    {
      assert vvTried[..b + 1][..b] == vvTried[..b];
      code, left := CheckTriedBucket(vvTried[b], left, setTried, Row(vvTried[..b]));
      if code != 0 {
        if Strikes(Row(vvTried), setTried) {
          FrontRowStrikes(vvTried, b + 1, setTried);
        }
        return;
      }
    }
    assert vvTried[..|vvTried|] == vvTried;
    code := 0;
  }

  lemma NothingStrikes(from: set<Id>)
    ensures Strikes([], from) && Elements([]) == {}
  {
  }

  lemma {:induction false} FrontRowStrikes(vvTried: seq<seq<Id>>, b: nat, from: set<Id>)
    requires b <= |vvTried| && Strikes(Row(vvTried), from)
    ensures Strikes(Row(vvTried[..b]), from)
  {
    hide Strikes;
    if b < |vvTried| {
      var n := |vvTried| - 1;
      FrontStrikes(Row(vvTried[..n]), vvTried[n], from);
      FrontRowStrikes(vvTried[..n], b, from);
      assert vvTried[..n][..b] == vvTried[..b];
    } else {
      assert vvTried[..b] == vvTried;
    }
  }

  // ----- the new buckets -----

  /** The pass over one new bucket: one reference less for each id, and gone when none is left. */
  method CheckNewBucket(bucket: set<Id>, mapNew: map<Id, int>) returns (code: int, left: map<Id, int>)
    ensures code == 0 <==> bucket <= mapNew.Keys
    ensures code == 0 ==>
              && (forall x :: x in left <==> x in mapNew && !(x in bucket && mapNew[x] == 1))
              && (forall x :: x in left ==> left[x] == mapNew[x] - if x in bucket then 1 else 0)
  {
    left := mapNew;
    var todo := bucket;
    while todo != {}
      invariant todo <= bucket && bucket - todo <= mapNew.Keys
      invariant forall x :: x in left <==> x in mapNew && !(x in bucket && x !in todo && mapNew[x] == 1)
      invariant forall x :: x in left ==> left[x] == mapNew[x] - if x in bucket && x !in todo then 1 else 0
      decreases |todo|
    {
      var it :| it in todo;
      if it !in left { return -12, left; }
      if left[it] - 1 == 0 {
        left := left - {it};
      } else {
        left := left[it := left[it] - 1];
      }
      todo := todo - {it};
    }
    code := 0;
  }

  /** What is left of the references after some buckets, none of which had an id too often. */
  ghost predicate Remaining(mapNew: map<Id, int>, vvNew: seq<set<Id>>, left: map<Id, int>)
  {
    forall id: Id ::
      && Count(vvNew, id) <= (if id in mapNew then mapNew[id] else 0)
      && (id in left <==> id in mapNew && Count(vvNew, id) < mapNew[id])
      && (id in left ==> left[id] == mapNew[id] - Count(vvNew, id))
  }

  lemma RemainingNext(mapNew: map<Id, int>, vvNew: seq<set<Id>>, b: nat, before: map<Id, int>, left: map<Id, int>)
    requires b < |vvNew| && Remaining(mapNew, vvNew[..b], before) && vvNew[b] <= before.Keys
    requires forall x :: x in left <==> x in before && !(x in vvNew[b] && before[x] == 1)
    requires forall x :: x in left ==> left[x] == before[x] - if x in vvNew[b] then 1 else 0
    ensures Remaining(mapNew, vvNew[..b + 1], left)
  {
    hide Count;
    forall id: Id {
      CountNext(vvNew, b, id);
    }
  }

  lemma Overdrawn(mapNew: map<Id, int>, vvNew: seq<set<Id>>, b: nat, left: map<Id, int>)
    requires b < |vvNew| && Remaining(mapNew, vvNew[..b], left) && !(vvNew[b] <= left.Keys)
    ensures exists id: Id :: Count(vvNew, id) > if id in mapNew then mapNew[id] else 0
  {
    hide Count;
    var id :| id in vvNew[b] && id !in left;
    CountNext(vvNew, b, id);
    CountPrefix(vvNew, b + 1, id);
    assert Count(vvNew, id) > if id in mapNew then mapNew[id] else 0;
  }

  /** The pass over all new buckets. */
  method CheckNew(vvNew: seq<set<Id>>, mapNew: map<Id, int>) returns (code: int, left: map<Id, int>)
    requires forall id :: id in mapNew ==> mapNew[id] > 0
    ensures code == 0 <==> forall id: Id :: Count(vvNew, id) <= if id in mapNew then mapNew[id] else 0
    ensures code == 0 ==> Remaining(mapNew, vvNew, left)
  {
    left := mapNew;
    assert vvNew[..0] == [];
    assert Remaining(mapNew, vvNew[..0], left);
    hide Remaining, Count;
    for b := 0 to |vvNew|
      invariant Remaining(mapNew, vvNew[..b], left)
    {
      ghost var before := left;
      code, left := CheckNewBucket(vvNew[b], left);
      if code != 0 {
        Overdrawn(mapNew, vvNew, b, before);
        return;
      }
      RemainingNext(mapNew, vvNew, b, before, left);
    }
    assert vvNew[..|vvNew|] == vvNew;
    RemainingMeans(mapNew, vvNew, left);
    code := 0;
  }

  lemma RemainingMeans(mapNew: map<Id, int>, vvNew: seq<set<Id>>, left: map<Id, int>)
    requires Remaining(mapNew, vvNew, left)
    ensures forall id: Id :: Count(vvNew, id) <= if id in mapNew then mapNew[id] else 0
    ensures left == map[] <==> forall id: Id :: Count(vvNew, id) == if id in mapNew then mapNew[id] else 0
  {
    hide Count;
    if left != map[] {
      var id :| id in left;
      assert Count(vvNew, id) < mapNew[id];
    } else {
      assert forall id: Id :: id !in left;
    }
  }

  // ----- all of it -----

  /** Check_ finds nothing wrong if and only if the tables are as Passes says. */
  method Check(t: Tables) returns (code: int)
    ensures code == 0 <==> Passes(t)
  {
    hide Count, NoDuplicates, Elements, Row, EntryOk, Strikes, Remaining, Refs, NewIds, TriedIds;
    if |t.vRandom| != t.nTried + t.nNew { return -7; }
    var setTried, mapNew;
    code, setTried, mapNew := CheckEntries(t);
    if code != 0 { return; }
    ghost var refs := mapNew;
    NewKeys(t.mapInfo, mapNew);
    if |setTried| != t.nTried { return -9; }
    if |mapNew| != t.nNew { return -10; }
    StruckOff(Row(t.vvTried), TriedIds(t.mapInfo));
    code, setTried := CheckTried(t.vvTried, setTried);
    if code != 0 { return; }
    Positive(t);
    code, mapNew := CheckNew(t.vvNew, mapNew);
    SameRefs(t.mapInfo, refs);
    if code != 0 { return; }
    RemainingMeans(refs, t.vvNew, mapNew);
    if |setTried| != 0 { return -13; }
    if |mapNew| != 0 { return -15; }
    code := 0;
  }

  lemma Positive(t: Tables)
    requires forall id :: id in t.mapInfo ==> EntryOk(t, id)
    ensures forall id :: id in t.mapInfo && !t.mapInfo[id].inTried ==> t.mapInfo[id].refCount > 0
  {
  }

  lemma StruckOff(row: seq<Id>, from: set<Id>)
    ensures NoDuplicates(row) && Elements(row) == from <==> Strikes(row, from) && |from - Elements(row)| == 0
  {
    if Strikes(row, from) && |from - Elements(row)| == 0 {
      assert from == Elements(row) + (from - Elements(row));
    } else if Elements(row) == from {
      assert from - Elements(row) == {};
    }
  }

  lemma SameRefs(mapInfo: map<Id, AddrInfo>, mapNew: map<Id, int>)
    requires mapNew == map id | id in mapInfo && !mapInfo[id].inTried :: mapInfo[id].refCount
    ensures forall id: Id :: Refs(mapInfo, id) == if id in mapNew then mapNew[id] else 0
  {
  }

  lemma NewKeys(mapInfo: map<Id, AddrInfo>, mapNew: map<Id, int>)
    requires mapNew == map id | id in mapInfo && !mapInfo[id].inTried :: mapInfo[id].refCount
    ensures |mapNew| == |NewIds(mapInfo)|
  {
    assert mapNew.Keys == NewIds(mapInfo);
  }

  // ----- what it does not look at -----

  /**
   The rest of the invariant: ids below the counter, buckets in number and size, tried entries in the bucket of their
   hash, and no address in mapAddr that is not that of the entry it names.  Besides, an entry with id 0 passes although
   its address is unknown.
   */
  ghost predicate Unseen(h: Hashes, t: Tables)
  {
    && IdsOk(t)
    && |t.vvNew| == NEW_BUCKET_COUNT && |t.vvTried| == TRIED_BUCKET_COUNT
    && (forall b :: 0 <= b < |t.vvNew| ==> |t.vvNew[b]| <= NEW_BUCKET_SIZE)
    && (forall b :: 0 <= b < |t.vvTried| ==> |t.vvTried[b]| <= TRIED_BUCKET_SIZE)
    && (forall b, id :: 0 <= b < |t.vvTried| && id in t.vvTried[b] && id in t.mapInfo ==>
          h.TriedBucket(t.mapInfo[id]) == b)
    && (forall a :: a in t.mapAddr ==> t.mapAddr[a] in t.mapInfo && t.mapInfo[t.mapAddr[a]].ip == a)
    && (0 in t.mapInfo ==> t.mapInfo[0].ip in t.mapAddr)
  }

  lemma {:induction false} InRow(vvTried: seq<seq<Id>>, id: Id)
    ensures id in Row(vvTried) <==> exists b :: 0 <= b < |vvTried| && id in vvTried[b]
  {
    if vvTried != [] {
      var n := |vvTried| - 1;
      InRow(vvTried[..n], id);
      assert forall b :: 0 <= b < n ==> vvTried[..n][b] == vvTried[b];
    }
  }

  lemma BothDistinct(a: seq<Id>, b: seq<Id>)
    ensures NoDuplicates(a + b) <==> NoDuplicates(a) && NoDuplicates(b) && forall x :: x in a ==> x !in b
  {
    var s := a + b;
    assert forall i :: 0 <= i < |a| ==> s[i] == a[i];
    assert forall i :: 0 <= i < |b| ==> s[|a| + i] == b[i];
    if NoDuplicates(a) && NoDuplicates(b) && forall x :: x in a ==> x !in b {
      forall i, j | 0 <= i < j < |s| ensures s[i] != s[j] {
        if i < |a| <= j {
          assert a[i] in a && b[j - |a|] in b;
        }
      }
    }
    if NoDuplicates(s) {
      forall x | x in a ensures x !in b {
        var i :| 0 <= i < |a| && a[i] == x;
        assert s[i] == x;
      }
      forall i, j | 0 <= i < j < |b| ensures b[i] != b[j] {
        assert s[|a| + i] != s[|a| + j];
      }
    }
  }

  /** Buckets without duplicates, none of which shares an id with another one, make a row without duplicates. */
  lemma {:induction false} RowDistinct(vvTried: seq<seq<Id>>)
    ensures NoDuplicates(Row(vvTried)) <==>
              && (forall b :: 0 <= b < |vvTried| ==> NoDuplicates(vvTried[b]))
              && (forall b, c, id :: 0 <= b < c < |vvTried| && id in vvTried[b] ==> id !in vvTried[c])
  {
    hide NoDuplicates;
    if vvTried == [] {
      assert NoDuplicates([]) by {
        NothingStrikes({});
      }
    } else {
      var n := |vvTried| - 1;
      var front := vvTried[..n];
      RowDistinct(front);
      assert forall b :: 0 <= b < n ==> front[b] == vvTried[b];
      BothDistinct(Row(front), vvTried[n]);
      forall id: Id {
        InRow(front, id);
      }
    }
  }

  /** As many entries as places, each with its own: then no place is left over. */
  lemma NoPlaceLeft(mapInfo: map<Id, AddrInfo>, vRandom: seq<Id>)
    requires |vRandom| == |mapInfo.Keys|
    requires forall id :: id in mapInfo ==>
               0 <= mapInfo[id].randomPos < |vRandom| && vRandom[mapInfo[id].randomPos] == id
    ensures RandomOk(mapInfo, vRandom)
  {
    forall id | id in mapInfo ensures id in Elements(vRandom) {
      assert vRandom[mapInfo[id].randomPos] == id;
    }
    AllElements(mapInfo.Keys, vRandom);
    forall p | 0 <= p < |vRandom| ensures vRandom[p] in mapInfo && mapInfo[vRandom[p]].randomPos == p {
      assert vRandom[p] in Elements(vRandom);
      var q := mapInfo[vRandom[p]].randomPos;
      assert vRandom[q] == vRandom[p];
    }
  }

  lemma AllElements(ids: set<Id>, s: seq<Id>)
    requires |s| == |ids| && ids <= Elements(s)
    ensures NoDuplicates(s) && Elements(s) == ids
  {
    hide NoDuplicates, Elements;
    ElementsSize(s);
    SubsetSize(ids, Elements(s));
    var rest := Elements(s) - ids;
    assert Elements(s) == ids + rest;
    assert rest == {};
    ManyAreDistinct(s);
  }

  lemma {:induction false} ManyAreDistinct(s: seq<Id>)
    requires |Elements(s)| == |s|
    ensures NoDuplicates(s)
  {
    if s != [] {
      var n := |s| - 1;
      ElementsSize(s[..n]);
      assert s == s[..n] + [s[n]];
      OneMore(s[..n], s[n]);
      ManyAreDistinct(s[..n]);
    }
  }

  // ----- part by part -----

  lemma InElements(vvTried: seq<seq<Id>>, id: Id)
    ensures id in Elements(Row(vvTried)) <==> exists b :: 0 <= b < |vvTried| && id in vvTried[b]
  {
    InRow(vvTried, id);
  }

  lemma TriedPasses(h: Hashes, t: Tables)
    requires TriedOk(h, t.mapInfo, t.vvTried)
    ensures NoDuplicates(Row(t.vvTried)) && Elements(Row(t.vvTried)) == TriedIds(t.mapInfo)
  {
    hide NoDuplicates, Row, Elements;
    RowDistinct(t.vvTried);
    forall b, c, id | 0 <= b < c < |t.vvTried| && id in t.vvTried[b] ensures id !in t.vvTried[c] {
      assert h.TriedBucket(t.mapInfo[id]) == b;
    }
    forall id: Id ensures id in Elements(Row(t.vvTried)) <==> id in TriedIds(t.mapInfo) {
      InElements(t.vvTried, id);
      if id in TriedIds(t.mapInfo) {
        assert id in t.vvTried[h.TriedBucket(t.mapInfo[id])];
      }
    }
  }

  lemma TriedIff(h: Hashes, t: Tables)
    requires Unseen(h, t)
    ensures TriedOk(h, t.mapInfo, t.vvTried) <==>
              NoDuplicates(Row(t.vvTried)) && Elements(Row(t.vvTried)) == TriedIds(t.mapInfo)
  {
    hide NoDuplicates, Row, Elements;
    if TriedOk(h, t.mapInfo, t.vvTried) {
      TriedPasses(h, t);
    }
    if NoDuplicates(Row(t.vvTried)) && Elements(Row(t.vvTried)) == TriedIds(t.mapInfo) {
      RowDistinct(t.vvTried);
      forall b, id | 0 <= b < |t.vvTried| && id in t.vvTried[b] ensures id in t.mapInfo && t.mapInfo[id].inTried {
        InElements(t.vvTried, id);
        assert id in TriedIds(t.mapInfo);
      }
      forall id | id in t.mapInfo && t.mapInfo[id].inTried ensures id in t.vvTried[h.TriedBucket(t.mapInfo[id])] {
        assert id in TriedIds(t.mapInfo);
        InElements(t.vvTried, id);
      }
    }
  }

  lemma NewIff(h: Hashes, t: Tables)
    requires Unseen(h, t)
    requires forall id :: id in t.mapInfo ==>
               if t.mapInfo[id].inTried then t.mapInfo[id].refCount == 0 else 1 <= t.mapInfo[id].refCount <= 4
    ensures BucketsOk(t.mapInfo, t.vvNew) && RefsOk(t.mapInfo, t.vvNew, {}) <==>
              forall id: Id :: Count(t.vvNew, id) == Refs(t.mapInfo, id)
  {
    hide Count;
    if BucketsOk(t.mapInfo, t.vvNew) && RefsOk(t.mapInfo, t.vvNew, {}) {
      forall id: Id ensures Count(t.vvNew, id) == Refs(t.mapInfo, id) {
        CountZero(t.vvNew, id);
      }
    }
    if forall id: Id :: Count(t.vvNew, id) == Refs(t.mapInfo, id) {
      forall b, id | 0 <= b < |t.vvNew| && id in t.vvNew[b] ensures id in t.mapInfo && !t.mapInfo[id].inTried {
        CountZero(t.vvNew, id);
        assert Refs(t.mapInfo, id) != 0;
      }
      forall id | id in t.mapInfo ensures t.mapInfo[id].refCount == Count(t.vvNew, id) {
        assert Refs(t.mapInfo, id) == t.mapInfo[id].refCount;
      }
    }
  }

  lemma EntriesIff(h: Hashes, t: Tables)
    requires Unseen(h, t)
    ensures (forall id :: id in t.mapInfo ==> EntryOk(t, id)) <==>
              && AddrOk(t.mapInfo, t.mapAddr) && TimesOk(t.mapInfo)
              && (forall id :: id in t.mapInfo ==>
                   && 0 <= t.mapInfo[id].randomPos < |t.vRandom| && t.vRandom[t.mapInfo[id].randomPos] == id
                   && if t.mapInfo[id].inTried then t.mapInfo[id].refCount == 0 else 1 <= t.mapInfo[id].refCount <= 4)
  {
  }

  /** The invariant is what Check_ looks at and what it does not look at, no less and no more. */
  lemma ConsistentIff(h: Hashes, t: Tables)
    ensures Consistent(h, t, {}) && TimesOk(t.mapInfo) <==> Passes(t) && Unseen(h, t)
  {
    hide Count, NoDuplicates, Elements, Row, NewIds, TriedIds, AddrOk, TimesOk;
    if Consistent(h, t, {}) && TimesOk(t.mapInfo) {
      UnseenHolds(h, t);
      SizeIsBounded(h, t);
    }
    if Unseen(h, t) {
      EntriesIff(h, t);
      TriedIff(h, t);
      NewAndTried(t.mapInfo);
      if forall id :: id in t.mapInfo ==> EntryOk(t, id) {
        NewIff(h, t);
        if CountersOk(t) && |t.vRandom| == t.nTried + t.nNew {
          NoPlaceLeft(t.mapInfo, t.vRandom);
        }
      }
    }
  }

  lemma UnseenHolds(h: Hashes, t: Tables)
    requires Consistent(h, t, {})
    ensures Unseen(h, t)
  {
  }

  /** One new entry with id 0, in one bucket, whose address is not in mapAddr. */
  function Unlisted(): Tables
  {
    var info := AddrInfo(7, 0, 0, 0, 0, 0, 0, 0, 1, false, 0);
    Tables(1, map[0 := info], map[], [0], 0, seq(TRIED_BUCKET_COUNT, _ => []), 1,
           seq(NEW_BUCKET_COUNT, _ => {})[0 := {0}])
  }

  /** Check_ finds nothing wrong with it, because the lookup that should complain gives 0. */
  lemma UnlistedPasses(h: Hashes)
    ensures Passes(Unlisted()) && !AddrOk(Unlisted().mapInfo, Unlisted().mapAddr)
  {
    hide Count, NoDuplicates, Row, Elements;
    var t := Unlisted();
    RowDistinct(t.vvTried);
    assert forall b :: 0 <= b < |t.vvTried| ==> t.vvTried[b] == [];
    NothingStrikes({});
    forall id: Id ensures id !in Elements(Row(t.vvTried)) {
      InElements(t.vvTried, id);
    }
    assert TriedIds(t.mapInfo) == {} && NewIds(t.mapInfo) == {0};
    var none: seq<set<Id>> := seq(NEW_BUCKET_COUNT, _ => {});
    forall id: Id ensures Count(t.vvNew, id) == Refs(t.mapInfo, id) {
      CountZero(none, id);
      CountUpdate(none, 0, {0}, id);
    }
  }
}
