/**
 Reading an image that was written with another number of new buckets (src/addrman.h:316-378): every new entry goes into
 the bucket of its source alone, whatever the image says, and nothing limits how many go there.
 */
module AddrRebuild {
  import opened AddrTables
  import opened AddrDisk
  import opened AddrRoundTrip

  // ----- what the image means -----

  function TriedBucketOf(h: Hashes, s: Stored): nat { h.TriedBucket(Loaded(s, 0, true, 0)) }

  /** How many of some entries belong into a tried bucket. */
  function Crowd(h: Hashes, infos: seq<Stored>, b: nat): nat
  {
    if infos == [] then 0
    else Crowd(h, infos[..|infos| - 1], b) + if TriedBucketOf(h, infos[|infos| - 1]) == b then 1 else 0
  }

  /** The tried entries that find room in their bucket. */
  function Kept(h: Hashes, infos: seq<Stored>): seq<Stored>
  {
    if infos == [] then []
    else
      var kept, s := Kept(h, infos[..|infos| - 1]), infos[|infos| - 1];
      if Crowd(h, kept, TriedBucketOf(h, s)) < TRIED_BUCKET_SIZE then kept + [s] else kept
  }

  /** The new entries whose source selects a bucket. */
  ghost function NewIn(h: Hashes, infos: seq<Stored>, b: nat): set<Id>
  {
    set n: Id | n < |infos| && h.NewBucket(infos[n].ip, infos[n].source) == b
  }

  ghost predicate DistinctAddresses(infos: seq<Stored>)
  {
    forall i, j :: 0 <= i < j < |infos| ==> infos[i].ip != infos[j].ip
  }

  /** The buckets of the image name only the first k entries. */
  ghost predicate NamesBelow(image: Image, k: nat)
  {
    forall b, i :: 0 <= b < |image.buckets| && 0 <= i < |image.buckets[b]| ==> image.buckets[b][i] < k
  }

  // ----- the tables while they are read -----

  ghost predicate EntriesAre(recent: seq<Stored>, kept: seq<Stored>, r: Tables)
  {
    var all := recent + kept;
    && (forall n: Id :: n in r.mapInfo <==> n < |all|)
    && (forall n: Id :: n < |all| ==>
          r.mapInfo[n] == Loaded(all[n], if n < |recent| then 1 else 0, n >= |recent|, n))
    && |r.vRandom| == |all| && (forall i :: 0 <= i < |all| ==> r.vRandom[i] == i)
  }

  /** Every address is known under one of the entries that have it. */
  ghost predicate Addressed(infos: seq<Stored>, mapAddr: map<NetAddr, Id>)
  {
    && (forall n :: 0 <= n < |infos| ==> infos[n].ip in mapAddr)
    && (forall a :: a in mapAddr ==> mapAddr[a] < |infos| && infos[mapAddr[a]].ip == a)
  }

  ghost predicate NewAre(h: Hashes, recent: seq<Stored>, vvNew: seq<set<Id>>)
  {
    |vvNew| == NEW_BUCKET_COUNT && forall b :: 0 <= b < |vvNew| ==> vvNew[b] == NewIn(h, recent, b)
  }

  ghost predicate TriedAre(h: Hashes, first: nat, kept: seq<Stored>, vvTried: seq<seq<Id>>)
  {
    && |vvTried| == TRIED_BUCKET_COUNT
    && (forall b :: 0 <= b < |vvTried| ==> NoDuplicates(vvTried[b]) && |vvTried[b]| == Crowd(h, kept, b))
    && (forall b: nat, n: Id :: Sits(vvTried, b, n) <==>
          first <= n < first + |kept| && TriedBucketOf(h, kept[n - first]) == b)
  }

  ghost predicate Holds(h: Hashes, recent: seq<Stored>, kept: seq<Stored>, r: Tables)
  {
    && EntriesAre(recent, kept, r) && Addressed(recent + kept, r.mapAddr)
    && NewAre(h, recent, r.vvNew) && TriedAre(h, |recent|, kept, r.vvTried)
  }

  lemma {:induction false} NewHeld(h: Hashes, image: Image, k: nat)
    requires Rebuild(image) && k <= |image.newInfos|
    ensures var r := ReadNew(h, image, k);
            Holds(h, image.newInfos[..k], [], r) && r.nNew == image.nNew && r.nTried == image.nTried
  {
    hide Holds;
    if k == 0 {
      NothingHeld(h, image);
    } else {
      NewHeld(h, image, k - 1);
      AddHeld(h, image.newInfos[..k - 1], ReadNew(h, image, k - 1), image.newInfos[k - 1]);
      assert image.newInfos[..k] == image.newInfos[..k - 1] + [image.newInfos[k - 1]];
    }
  }

  lemma NothingHeld(h: Hashes, image: Image)
    ensures Holds(h, image.newInfos[..0], [], Emptied(image))
  {
  }

  lemma AddHeld(h: Hashes, recent: seq<Stored>, r: Tables, s: Stored)
    requires Holds(h, recent, [], r)
    ensures |r.vvNew| == NEW_BUCKET_COUNT && Holds(h, recent + [s], [], AddNew(h, r, |recent|, s, true))
  {
    var more, r' := recent + [s], AddNew(h, r, |recent|, s, true);
    assert recent + [] == recent && more + [] == more;
    hide EntriesAre, Addressed, NewAre, TriedAre;
    HeldSizes(h, recent, [], r);
    NewEntry(recent, r, s, r');
    AddressOne(recent, r.mapAddr, s);
    NewMore(h, recent, r.vvNew, s);
    NoneTried(h, |recent|, |more|, r.vvTried);
  }

  lemma HeldSizes(h: Hashes, recent: seq<Stored>, kept: seq<Stored>, r: Tables)
    requires Holds(h, recent, kept, r)
    ensures |r.vRandom| == |recent| + |kept| && |r.vvNew| == NEW_BUCKET_COUNT && |r.vvTried| == TRIED_BUCKET_COUNT
    ensures forall b :: 0 <= b < |r.vvTried| ==> |r.vvTried[b]| == Crowd(h, kept, b)
  {
  }

  lemma NewEntry(recent: seq<Stored>, r: Tables, s: Stored, r': Tables)
    requires EntriesAre(recent, [], r)
    requires r'.mapInfo == r.mapInfo[|recent| := Loaded(s, 1, false, |recent|)] && r'.vRandom == r.vRandom + [|recent|]
    ensures EntriesAre(recent + [s], [], r')
  {
    var all, more := recent + [], recent + [s] + [];
    assert |all| == |recent| && |more| == |recent| + 1 && more[|recent|] == s;
    forall n: Id | n < |recent| ensures more[n] == all[n] {
    }
  }

  lemma TriedEntry(recent: seq<Stored>, kept: seq<Stored>, r: Tables, s: Stored, r': Tables)
    requires EntriesAre(recent, kept, r)
    requires var n := |recent| + |kept|;
             r'.mapInfo == r.mapInfo[n := Loaded(s, 0, true, n)] && r'.vRandom == r.vRandom + [n]
    ensures EntriesAre(recent, kept + [s], r')
  {
    var all, more := recent + kept, recent + (kept + [s]);
    assert |more| == |all| + 1 && more[|all|] == s;
    forall n: Id | n < |all| ensures more[n] == all[n] {
    }
  }

  lemma NoneTried(h: Hashes, first: nat, later: nat, vvTried: seq<seq<Id>>)
    requires TriedAre(h, first, [], vvTried)
    ensures TriedAre(h, later, [], vvTried)
  {
    forall b: nat, n: Id ensures !Sits(vvTried, b, n) {
    }
  }

  lemma AddressOne(infos: seq<Stored>, mapAddr: map<NetAddr, Id>, s: Stored)
    requires Addressed(infos, mapAddr)
    ensures Addressed(infos + [s], mapAddr[s.ip := |infos|])
  {
  }

  lemma NewMore(h: Hashes, recent: seq<Stored>, vvNew: seq<set<Id>>, s: Stored)
    requires NewAre(h, recent, vvNew)
    ensures var b := h.NewBucket(s.ip, s.source); NewAre(h, recent + [s], vvNew[b := vvNew[b] + {|recent|}])
  {
    var more := recent + [s];
    forall c: nat | c < NEW_BUCKET_COUNT
      ensures NewIn(h, more, c) == if h.NewBucket(s.ip, s.source) == c then NewIn(h, recent, c) + {|recent|}
              else NewIn(h, recent, c)
    {
    }
  }

  lemma {:induction false} TriedHeld(h: Hashes, image: Image, k: nat)
    requires WellFormed(image) && Rebuild(image) && k <= |image.triedInfos|
    ensures var r, kept := ReadTried(h, image, k), Kept(h, image.triedInfos[..k]);
            && Holds(h, image.newInfos, kept, r) && r.idCount == image.nNew + |kept|
            && r.nNew == image.nNew && r.nTried == image.nTried - k + |kept|
  {
    hide Holds, Crowd, ReadNew, ReadTried, Kept;
    FirstSteps(h, image);
    KeptStep(h, image.triedInfos, k);
    if k == 0 {
      NewHeld(h, image, image.nNew);
      assert image.newInfos[..image.nNew] == image.newInfos;
      OtherIdCount(h, image.newInfos, ReadNew(h, image, image.nNew), ReadTried(h, image, 0));
    } else {
      TriedHeld(h, image, k - 1);
      TriedStep(h, image, k - 1);
      var infos := image.triedInfos;
      TriedOne(h, image.newInfos, Kept(h, infos[..k - 1]), ReadTried(h, image, k - 1), infos[k - 1]);
    }
  }

  lemma KeptStep(h: Hashes, infos: seq<Stored>, k: nat)
    requires k <= |infos|
    ensures k == 0 ==> Kept(h, infos[..k]) == []
    ensures k > 0 ==>
      var kept, s := Kept(h, infos[..k - 1]), infos[k - 1];
      Kept(h, infos[..k]) == if Crowd(h, kept, TriedBucketOf(h, s)) < TRIED_BUCKET_SIZE then kept + [s] else kept
  {
    if k > 0 {
      assert infos[..k][..k - 1] == infos[..k - 1];
    }
  }

  lemma OtherIdCount(h: Hashes, recent: seq<Stored>, r: Tables, r': Tables)
    requires Holds(h, recent, [], r) && r' == r.(idCount := r'.idCount)
    ensures Holds(h, recent, [], r')
  {
    hide EntriesAre, NewAre, TriedAre, Addressed;
    CountersOnly(recent, [], r, r');
  }

  lemma TriedOne(h: Hashes, recent: seq<Stored>, kept: seq<Stored>, r: Tables, s: Stored)
    requires Holds(h, recent, kept, r) && r.idCount == |recent| + |kept| && |r.vvTried| == TRIED_BUCKET_COUNT
    ensures var r' := AddTried(h, r, s);
            if Crowd(h, kept, TriedBucketOf(h, s)) < TRIED_BUCKET_SIZE
            then Holds(h, recent, kept + [s], r') && r'.idCount == r.idCount + 1 && r'.nNew == r.nNew &&
              r'.nTried == r.nTried
            else r' == r.(nTried := r.nTried - 1) && Holds(h, recent, kept, r')
  {
    hide EntriesAre, NewAre, TriedAre, Addressed, Crowd;
    HeldSizes(h, recent, kept, r);
    var b := TriedBucketOf(h, s);
    assert h.TriedBucket(Loaded(s, 0, true, |r.vRandom|)) == b;
    if Crowd(h, kept, b) < TRIED_BUCKET_SIZE {
      assert recent + (kept + [s]) == recent + kept + [s];
      AddressOne(recent + kept, r.mapAddr, s);
      TriedMore(h, |recent|, kept, r.vvTried, s);
      TriedEntry(recent, kept, r, s, AddTried(h, r, s));
    } else {
      CountersOnly(recent, kept, r, AddTried(h, r, s));
    }
  }

  lemma CountersOnly(recent: seq<Stored>, kept: seq<Stored>, r: Tables, r': Tables)
    requires EntriesAre(recent, kept, r) && r' == r.(idCount := r'.idCount, nTried := r'.nTried)
    ensures EntriesAre(recent, kept, r')
  {
  }

  lemma TriedMore(h: Hashes, first: nat, kept: seq<Stored>, vvTried: seq<seq<Id>>, s: Stored)
    requires TriedAre(h, first, kept, vvTried)
    ensures var b := TriedBucketOf(h, s);
            TriedAre(h, first, kept + [s], vvTried[b := vvTried[b] + [first + |kept|]])
  {
    var b, n := TriedBucketOf(h, s), first + |kept|;
    var more, vv := kept + [s], vvTried[b := vvTried[b] + [n]];
    forall c: nat ensures Crowd(h, more, c) == Crowd(h, kept, c) + if c == b then 1 else 0 {
      assert more[..|more| - 1] == kept;
    }
    forall c: nat, m: Id ensures Sits(vv, c, m) <==> Sits(vvTried, c, m) || (c == b && m == n) {
    }
    assert forall i :: 0 <= i < |vvTried[b]| ==> Sits(vvTried, b, vvTried[b][i]);
    assert NoDuplicates(vv[b]);
  }

  // ----- the buckets of the image -----

  /** Members that are not entries become blank ones; nothing else happens. */
  ghost predicate Blanked(t: Tables, r: Tables)
  {
    && r == t.(mapInfo := r.mapInfo)
    && (forall n :: n in t.mapInfo ==> n in r.mapInfo && r.mapInfo[n] == t.mapInfo[n])
    && (forall n :: n in r.mapInfo && n !in t.mapInfo ==> r.mapInfo[n] == EMPTY_INFO)
  }

  lemma {:induction false} MembersBlanked(t: Tables, b: nat, members: seq<Id>)
    requires b < |t.vvNew|
    ensures var r := ReadMembers(t, b, members, false);
            && Blanked(t, r) && (forall i :: 0 <= i < |members| ==> members[i] in r.mapInfo)
            && ((forall i :: 0 <= i < |members| ==> members[i] in t.mapInfo) ==> r == t)
  {
    if members != [] {
      MembersBlanked(t, b, members[..|members| - 1]);
    }
  }

  lemma {:induction false} BucketsBlanked(h: Hashes, image: Image, k: nat)
    requires WellFormed(image) && Rebuild(image) && k <= |image.buckets|
    ensures var t, r := ReadTried(h, image, |image.triedInfos|), ReadBuckets(h, image, k);
            && Blanked(t, r)
            && (forall b, i :: 0 <= b < k && 0 <= i < |image.buckets[b]| ==> image.buckets[b][i] in r.mapInfo)
            && ((forall b, i :: 0 <= b < k && 0 <= i < |image.buckets[b]| ==> image.buckets[b][i] in t.mapInfo) ==>
                r == t)
  {
    hide ReadMembers, ReadTried;
    if k > 0 {
      BucketsBlanked(h, image, k - 1);
      MembersBlanked(ReadBuckets(h, image, k - 1), k - 1, image.buckets[k - 1]);
    }
  }

  // ----- when the result is consistent -----

  lemma CountOne(vvNew: seq<set<Id>>, b: nat, id: Id)
    requires b < |vvNew| && id in vvNew[b] && forall c :: 0 <= c < |vvNew| && c != b ==> id !in vvNew[c]
    ensures Count(vvNew, id) == 1
  {
    CountUpdate(vvNew, b, vvNew[b] - {id}, id);
    CountZero(vvNew[b := vvNew[b] - {id}], id);
  }

  lemma HeldRefs(h: Hashes, recent: seq<Stored>, kept: seq<Stored>, r: Tables)
    requires EntriesAre(recent, kept, r) && NewAre(h, recent, r.vvNew)
    ensures RefsOk(r.mapInfo, r.vvNew, {})
  {
    forall n: Id | n in r.mapInfo ensures Count(r.vvNew, n) == if n < |recent| then 1 else 0 {
      if n < |recent| {
        CountOne(r.vvNew, h.NewBucket(recent[n].ip, recent[n].source), n);
      } else {
        CountZero(r.vvNew, n);
      }
    }
  }

  lemma {:induction false} KeptFits(h: Hashes, infos: seq<Stored>, b: nat)
    ensures Crowd(h, Kept(h, infos), b) <= TRIED_BUCKET_SIZE
  {
    if infos != [] {
      var kept, s := Kept(h, infos[..|infos| - 1]), infos[|infos| - 1];
      KeptFits(h, infos[..|infos| - 1], b);
      assert (kept + [s])[..|kept|] == kept;
    }
  }

  lemma HeldTried(h: Hashes, recent: seq<Stored>, infos: seq<Stored>, r: Tables)
    requires EntriesAre(recent, Kept(h, infos), r) && TriedAre(h, |recent|, Kept(h, infos), r.vvTried)
    ensures TriedOk(h, r.mapInfo, r.vvTried)
  {
    hide NoDuplicates, Crowd, Kept;
    var kept := Kept(h, infos);
    forall b: nat | b < |r.vvTried| ensures |r.vvTried[b]| <= TRIED_BUCKET_SIZE {
      KeptFits(h, infos, b);
    }
    forall n: Id | n in r.mapInfo && r.mapInfo[n].inTried
      ensures h.TriedBucket(r.mapInfo[n]) == TriedBucketOf(h, kept[n - |recent|])
    {
    }
    forall b, n: Id | 0 <= b < |r.vvTried| && n in r.vvTried[b]
      ensures n in r.mapInfo && r.mapInfo[n].inTried && h.TriedBucket(r.mapInfo[n]) == b
    {
      assert Sits(r.vvTried, b, n);
    }
    forall n: Id | n in r.mapInfo && r.mapInfo[n].inTried ensures n in r.vvTried[h.TriedBucket(r.mapInfo[n])] {
      assert Sits(r.vvTried, h.TriedBucket(r.mapInfo[n]), n);
    }
  }

  lemma HeldCounters(recent: seq<Stored>, kept: seq<Stored>, r: Tables)
    requires EntriesAre(recent, kept, r) && r.nNew == |recent| && r.nTried == |kept|
    ensures CountersOk(r)
  {
    assert NewIds(r.mapInfo) == Below(|recent|);
    assert TriedIds(r.mapInfo) == Below(|recent + kept|) - Below(|recent|);
    assert Below(|recent|) <= Below(|recent + kept|);
  }

  /** The addresses fit if and only if no two entries have the same one. */
  lemma HeldAddresses(recent: seq<Stored>, kept: seq<Stored>, r: Tables)
    requires EntriesAre(recent, kept, r) && Addressed(recent + kept, r.mapAddr)
    ensures AddrOk(r.mapInfo, r.mapAddr) <==> DistinctAddresses(recent + kept)
  {
    var all := recent + kept;
    if AddrOk(r.mapInfo, r.mapAddr) {
      forall i, j | 0 <= i < j < |all| ensures all[i].ip != all[j].ip {
        assert r.mapInfo[i].ip == all[i].ip && r.mapInfo[j].ip == all[j].ip;
        assert r.mapAddr[all[i].ip] == i && r.mapAddr[all[j].ip] == j;
      }
    }
    if DistinctAddresses(all) {
      forall n: Id | n in r.mapInfo ensures r.mapInfo[n].ip in r.mapAddr && r.mapAddr[r.mapInfo[n].ip] == n {
        assert all[r.mapAddr[all[n].ip]].ip == all[n].ip;
      }
    }
  }

  /** The buckets fit if and only if no bucket is chosen by more entries than it has room for. */
  lemma HeldBuckets(h: Hashes, recent: seq<Stored>, kept: seq<Stored>, r: Tables)
    requires EntriesAre(recent, kept, r) && NewAre(h, recent, r.vvNew)
    ensures BucketsOk(r.mapInfo, r.vvNew) <==>
              forall b :: 0 <= b < NEW_BUCKET_COUNT ==> |NewIn(h, recent, b)| <= NEW_BUCKET_SIZE
  {
    if BucketsOk(r.mapInfo, r.vvNew) {
      forall b | 0 <= b < NEW_BUCKET_COUNT ensures |NewIn(h, recent, b)| <= NEW_BUCKET_SIZE {
        assert r.vvNew[b] == NewIn(h, recent, b);
      }
    }
  }

  lemma HeldIndexes(recent: seq<Stored>, kept: seq<Stored>, r: Tables)
    requires EntriesAre(recent, kept, r) && r.idCount == |recent| + |kept|
    ensures IdsOk(r) && RandomOk(r.mapInfo, r.vRandom)
  {
  }

  lemma BlankIsInconsistent(h: Hashes, recent: seq<Stored>, kept: seq<Stored>, t: Tables, r: Tables, n: Id)
    requires EntriesAre(recent, kept, t) && Blanked(t, r) && n in r.mapInfo && n >= |recent + kept|
    ensures !Consistent(h, r, {})
  {
    assert r.mapInfo[n].randomPos == -1;
  }

  /**
   What is read from an image with another number of buckets is consistent if and only if no two of the entries that are
   kept have the same address, no new bucket is chosen by more entries than it has room for, and the image names only
   entries that are kept.
   */
  lemma RebuiltIsConsistentIff(h: Hashes, image: Image)
    requires WellFormed(image) && Rebuild(image)
    ensures var all := image.newInfos + Kept(h, image.triedInfos);
            Consistent(h, ReadAll(h, image), {}) <==>
              && DistinctAddresses(all) && NamesBelow(image, |all|)
              && forall b :: 0 <= b < NEW_BUCKET_COUNT ==> |NewIn(h, image.newInfos, b)| <= NEW_BUCKET_SIZE
  {
    hide Kept, EntriesAre, NewAre, TriedAre, Addressed, DistinctAddresses, Blanked, ReadTried, ReadBuckets, IdsOk,
      RandomOk, AddrOk, BucketsOk, RefsOk, TriedOk, CountersOk, NewIn;
    var infos := image.triedInfos;
    assert infos[..|infos|] == infos;
    TriedHeld(h, image, |infos|);
    BucketsBlanked(h, image, |image.buckets|);
    var recent, kept, t, r := image.newInfos, Kept(h, infos), ReadTried(h, image, |infos|), ReadAll(h, image);
    HeldKeys(recent, kept, t);
    if NamesBelow(image, |recent + kept|) {
      HeldIndexes(recent, kept, t);
      HeldAddresses(recent, kept, t);
      HeldBuckets(h, recent, kept, t);
      HeldRefs(h, recent, kept, t);
      HeldTried(h, recent, infos, t);
      HeldCounters(recent, kept, t);
    } else {
      var b, i :| 0 <= b < |image.buckets| && 0 <= i < |image.buckets[b]| && image.buckets[b][i] >= |recent + kept|;
      BlankIsInconsistent(h, recent, kept, t, r, image.buckets[b][i]);
    }
  }

  lemma HeldKeys(recent: seq<Stored>, kept: seq<Stored>, r: Tables)
    requires EntriesAre(recent, kept, r)
    ensures forall n: Id :: n in r.mapInfo <==> n < |recent + kept|
  {
  }

  /** Entries that differ in their addresses only. */
  function Announced(n: nat): seq<Stored>
  {
    seq(n, ip requires 0 <= ip < n => Stored(ip, 0, 0, 0, 0, 0, 0))
  }

  /** An image with 65 new entries, written with a single new bucket. */
  const CROWDED := Image(65, 0, 1, Announced(65), [], [[]])

  /** If the hash sends the 65 entries to one bucket, it is over its limit. */
  lemma CrowdedBucket(h: Hashes)
    requires forall ip: nat :: ip < 65 ==> h.NewBucket(ip, 0) == h.NewBucket(0, 0)
    ensures WellFormed(CROWDED) && Rebuild(CROWDED) && !Consistent(h, ReadAll(h, CROWDED), {})
  {
    RebuiltIsConsistentIff(h, CROWDED);
    assert NewIn(h, CROWDED.newInfos, h.NewBucket(0, 0)) == Below(65);
  }

  /** With more entries than all buckets have room for, some bucket is over its limit, whatever the hash. */
  lemma TooManyEntries(h: Hashes, image: Image)
    requires WellFormed(image) && Rebuild(image) && image.nNew > NEW_BUCKET_COUNT * NEW_BUCKET_SIZE
    ensures !Consistent(h, ReadAll(h, image), {})
  {
    hide ReadTried, ReadBuckets, Consistent, Holds;
    TriedHeld(h, image, |image.triedInfos|);
    BucketsBlanked(h, image, |image.buckets|);
    if Consistent(h, ReadAll(h, image), {}) {
      SizeIsBounded(h, ReadAll(h, image));
    }
  }
}
