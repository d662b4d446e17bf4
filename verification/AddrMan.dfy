/**
 The stochastic address manager (src/addrman.cpp, src/addrman.h).  Random numbers and the clock are arbitrary; every
 operation is proved to keep the invariant of AddrTables.
 */
module AddrMan {
  import opened Arith
  import opened AddrTables

  const TRIED_ENTRIES_INSPECT_ON_EVICT := 4
  const HORIZON_DAYS := 30
  const RETRIES := 3
  const MAX_FAILURES := 10
  const MIN_FAIL_DAYS := 7
  const GETADDR_MAX_PCT := 23
  const GETADDR_MAX := 2500

  /** An address as it is announced. */
  datatype Address = Address(ip: NetAddr, port: nat, services: bv64, time: int)

  function Both(a: bv64, b: bv64): bv64 { a | b }

  predicate IsTerrible(info: AddrInfo, now: int)
  {
    if info.lastTry != 0 && info.lastTry >= now - 60 then false
    else if info.time > now + 10 * 60 then true
    else if info.time == 0 || now - info.time > HORIZON_DAYS * 86400 then true
    else if info.lastSuccess == 0 && info.attempts >= RETRIES then true
    else now - info.lastSuccess > MIN_FAIL_DAYS * 86400 && info.attempts >= MAX_FAILURES
  }

  /** The answers of the random number generator to one operation, in the order in which it asks. */
  type Dice = nat -> nat

  /** GetRandInt: the i-th answer as a number below max, 0 when there is none. */
  function Draw(dice: Dice, i: nat, max: int): (r: nat)
    ensures max > 0 ==> r < max
  {
    if max <= 0 then 0 else dice(i) % max
  }

  /**
   What is worth keeping: anything tried within the last minute, and otherwise what was seen within thirty days, not
   more than ten minutes ahead of the clock, and has either failed fewer than three times, or fewer than ten times
   after a success, or succeeded within a week.
   */
  lemma WorthKeeping(info: AddrInfo, now: int)
    ensures !IsTerrible(info, now) <==>
              || (info.lastTry != 0 && now - info.lastTry <= 60)
              || (info.time != 0 && now - 30 * 86400 <= info.time <= now + 600
                  && (if info.lastSuccess == 0
                      then info.attempts < 3 && (now <= 7 * 86400 || info.attempts < 10)
                      else info.attempts < 10 || now - info.lastSuccess <= 7 * 86400))
  {
  }

  // ----- shuffling -----

  /** The place among those from the i-th on that step i of a shuffle swaps with the i-th. */
  function Drawn(dice: Dice, i: nat, size: nat): (r: nat)
    requires i < size
    ensures i <= r < size
  {
    i + Draw(dice, i, size - i)
  }

  /** A sequence after the first n places were each filled with an element of what was left. */
  function Shuffled(s: seq<Id>, dice: Dice, n: nat): (r: seq<Id>)
    requires n <= |s|
    ensures |r| == |s|
  {
    if n == 0 then s else SwapSeq(Shuffled(s, dice, n - 1), n - 1, Drawn(dice, n - 1, |s|))
  }

  lemma {:induction false} ShuffledReorders(s: seq<Id>, dice: Dice, n: nat)
    requires n <= |s| && NoDuplicates(s)
    ensures multiset(Shuffled(s, dice, n)) == multiset(s) && Reordered(s, Shuffled(s, dice, n))
  {
    hide SwapSeq, Reordered, Drawn;
    if n > 0 {
      ShuffledReorders(s, dice, n - 1);
      var r := Shuffled(s, dice, n - 1);
      ReorderedTwice(s, r, r);
      SwapReorders(r, n - 1, Drawn(dice, n - 1, |s|));
      ReorderedTwice(s, r, SwapSeq(r, n - 1, Drawn(dice, n - 1, |s|)));
    } else {
      ReorderedTwice(s, s, s);
    }
  }

  lemma ReorderedTwice(a: seq<Id>, b: seq<Id>, c: seq<Id>)
    requires NoDuplicates(a) && (a == b || Reordered(a, b))
    ensures NoDuplicates(b) && Reordered(a, b) && (Reordered(b, c) ==> Reordered(a, c))
  {
  }

  lemma {:induction false} SameDice(s: seq<Id>, a: Dice, b: Dice, n: nat)
    requires n <= |s| && forall i :: 0 <= i < n ==> a(i) == b(i)
    ensures Shuffled(s, a, n) == Shuffled(s, b, n)
  {
    if n > 0 {
      SameDice(s, a, b, n - 1);
      assert a(n - 1) == b(n - 1);
    }
  }

  lemma NotShuffled(s: seq<Id>, dice: Dice)
    ensures Shuffled(s, dice, 0) == s
  {
  }

  lemma ShuffledNext(s: seq<Id>, dice: Dice, n: nat)
    requires n < |s|
    ensures Shuffled(s, dice, n + 1) == SwapSeq(Shuffled(s, dice, n), n, Drawn(dice, n, |s|))
  {
  }

  lemma SwapPuts(r: seq<Id>, n: nat, p: nat)
    requires n <= p < |r|
    ensures SwapSeq(r, n, p)[..n + 1] == r[..n] + [r[p]]
  {
  }

  /** The shuffle selects from all: any n elements may come first, in any order. */
  lemma {:induction false} EveryOrderIsPossible(s: seq<Id>, goal: seq<Id>, n: nat) returns (dice: Dice)
    requires NoDuplicates(s) && Reordered(s, goal) && n <= |s|
    ensures Shuffled(s, dice, n)[..n] == goal[..n]
  {
    hide Shuffled, SwapSeq, Reordered, Drawn, NoDuplicates;
    if n == 0 {
      dice := i => 0;
    } else {
      var before := EveryOrderIsPossible(s, goal, n - 1);
      ShuffledReorders(s, before, n - 1);
      var p := StillAhead(s, Shuffled(s, before, n - 1), goal, n - 1);
      dice := Extended(before, n - 1, p - (n - 1));
      SameDice(s, dice, before, n - 1);
      DrawnIs(dice, n - 1, |s|, p);
      ShuffledNext(s, dice, n - 1);
      SwapBrings(Shuffled(s, before, n - 1), goal, n - 1, p);
    }
  }

  function Extended(dice: Dice, n: nat, next: nat): Dice { i => if i == n then next else dice(i) }

  lemma DrawnIs(dice: Dice, i: nat, size: nat, p: nat)
    requires i <= p < size && dice(i) == p - i
    ensures Drawn(dice, i, size) == p
  {
    QuotientIs(p - i, size - i, 0, p - i);
  }

  /** What is to come next has not been placed yet. */
  lemma StillAhead(s: seq<Id>, r: seq<Id>, goal: seq<Id>, n: nat) returns (p: nat)
    requires n < |s| && Reordered(s, r) && Reordered(s, goal) && r[..n] == goal[..n]
    ensures n <= p < |r| == |goal| && r[p] == goal[n]
  {
    assert goal[n] in s && goal[n] in r;
    p :| 0 <= p < |r| && r[p] == goal[n];
    assert forall i :: 0 <= i < n ==> r[i] == r[..n][i] && goal[i] == goal[..n][i];
  }

  lemma SwapBrings(r: seq<Id>, goal: seq<Id>, n: nat, p: nat)
    requires |r| == |goal| && n <= p < |r| && r[p] == goal[n] && r[..n] == goal[..n]
    ensures SwapSeq(r, n, p)[..n + 1] == goal[..n + 1]
  {
    assert SwapSeq(r, n, p)[..n] == r[..n];
    assert goal[..n + 1] == goal[..n] + [goal[n]];
  }

  // ----- making room -----

  /** The place of x among the members of a bucket in ascending order. */
  ghost function Place(bucket: set<Id>, x: Id): nat { |set y | y in bucket && y < x| }

  /** One of the four places that were drawn is that of x. */
  ghost predicate Picked(bucket: set<Id>, dice: Dice, x: Id)
  {
    x in bucket && exists j :: 0 <= j < 4 && Place(bucket, x) == Draw(dice, j, |bucket|)
  }

  /** Of the members at these places, none is older than x, and none as old comes before it. */
  ghost predicate OldestPicked(m: map<Id, AddrInfo>, bucket: set<Id>, dice: Dice, x: Id)
  {
    && Picked(bucket, dice, x) && x in m
    && forall y: Id :: Picked(bucket, dice, y) && y in m ==> m[x].time <= m[y].time && (y < x ==> m[x].time < m[y].time)
  }

  /** What makes room: the first terrible entry, or else the oldest of four. */
  ghost predicate ToDrop(m: map<Id, AddrInfo>, bucket: set<Id>, now: int, dice: Dice, x: Id)
  {
    if exists y :: y in bucket && y in m && IsTerrible(m[y], now)
    then x in bucket && x in m && IsTerrible(m[x], now)
         && forall y :: y in bucket && y in m && y < x ==> !IsTerrible(m[y], now)
    else OldestPicked(m, bucket, dice, x)
  }

  /** Only bucket b has changed: id is in it, in place of another one if the bucket was full. */
  ghost predicate EntersBucket(
      m: map<Id, AddrInfo>, vv: seq<set<Id>>, vv': seq<set<Id>>, id: Id, b: nat, now: int, dice: Dice)
    requires b < |vv|
  {
    if |vv[b]| < NEW_BUCKET_SIZE then vv' == vv[b := vv[b] + {id}]
    else exists x :: ToDrop(m, vv[b], now, dice, x) && vv' == vv[b := vv[b] - {x} + {id}]
  }

  /**
   Whether a known entry gets one more bucket: the announcement is newer, the entry not tried and in fewer than four,
   and chance allows it, which halves with every bucket it is in.
   */
  predicate GetsAnotherBucket(info: AddrInfo, addr: Address, dice: Dice)
    requires info.refCount >= 0
  {
    && addr.time != 0 && (info.time == 0 || info.time < addr.time)
    && !info.inTried && info.refCount < NEW_BUCKETS_PER_ADDRESS
    && Draw(dice, 0, Pow(2, info.refCount)) == 0
  }

  /** News of an entry in no bucket, or one, two, three is taken in one of 1, 2, 4, 8 cases; in four, never. */
  lemma OddsHalve(info: AddrInfo, addr: Address, dice: Dice)
    requires info.refCount >= 0 && !info.inTried && addr.time > info.time >= 0
    ensures GetsAnotherBucket(info, addr, dice) <==>
              || info.refCount == 0
              || (info.refCount == 1 && dice(0) % 2 == 0)
              || (info.refCount == 2 && dice(0) % 4 == 0)
              || (info.refCount == 3 && dice(0) % 8 == 0)
    ensures !GetsAnotherBucket(info.(inTried := true), addr, dice)
    ensures !GetsAnotherBucket(info, addr.(time := 0), dice) && !GetsAnotherBucket(info.(time := addr.time), addr, dice)
  {
    assert Pow(2, 0) == 1 && Pow(2, 1) == 2 && Pow(2, 2) == 4 && Pow(2, 3) == 8;
  }

  // ----- becoming tried -----

  /** SelectTried looks at four entries, or at all when there are fewer. */
  function Inspected(size: nat): nat
  {
    if size < TRIED_ENTRIES_INSPECT_ON_EVICT then size else TRIED_ENTRIES_INSPECT_ON_EVICT
  }

  /** The j-th of some entries has the longest time since its last success, the first one of those that have. */
  ghost predicate LeastRecent(m: map<Id, AddrInfo>, s: seq<Id>, j: nat)
  {
    && j < |s| && (forall i :: 0 <= i < |s| ==> s[i] in m)
    && forall i :: 0 <= i < |s| ==>
         m[s[j]].lastSuccess <= m[s[i]].lastSuccess && (i < j ==> m[s[j]].lastSuccess < m[s[i]].lastSuccess)
  }

  /** pos is the place from which the least recent of the inspected entries was drawn, where it need not be any more. */
  ghost predicate DrawnFrom(m: map<Id, AddrInfo>, bucket: seq<Id>, dice: Dice, pos: nat)
  {
    var n := Inspected(|bucket|);
    exists j: nat :: j < n && LeastRecent(m, Shuffled(bucket, dice, n)[..n], j) && pos == Drawn(dice, j, |bucket|)
  }

  /** The buckets after id became tried; an entry that had to make room is back in a new bucket. */
  ghost predicate MadeTried(h: Hashes, t: Tables, t': Tables, id: Id, origin: nat, dice: Dice)
    requires id in t.mapInfo && h.TriedBucket(t.mapInfo[id]) < |t.vvTried|
  {
    var k := h.TriedBucket(t.mapInfo[id]);
    if |t.vvTried[k]| < TRIED_BUCKET_SIZE
    then t'.vvTried == t.vvTried[k := t.vvTried[k] + [id]] && t'.vvNew == Cleared(t.vvNew, id)
    else exists pos: nat :: DrawnFrom(t.mapInfo, t.vvTried[k], dice, pos) && TakesPlace(h, t, t', id, origin, dice, pos)
  }

  ghost predicate TakesPlace(h: Hashes, t: Tables, t': Tables, id: Id, origin: nat, dice: Dice, pos: nat)
    requires id in t.mapInfo && h.TriedBucket(t.mapInfo[id]) < |t.vvTried|
  {
    var k := h.TriedBucket(t.mapInfo[id]);
    var bucket, rest := Shuffled(t.vvTried[k], dice, Inspected(|t.vvTried[k]|)), Cleared(t.vvNew, id);
    && pos < |bucket| && t'.vvTried == t.vvTried[k := bucket[pos := id]]
    && bucket[pos] in t.mapInfo && |rest| == NEW_BUCKET_COUNT
    && var ub := Refuge(h, t.mapInfo[bucket[pos]], rest, origin);
       ub < |rest| && t'.vvNew == rest[ub := rest[ub] + {bucket[pos]}]
  }

  /** The steps of Replace, taken together, are the specified exchange. */
  lemma ReplacedIs(h: Hashes, t: Tables, t': Tables, id: Id, k: nat, pos: nat, ub: nat)
    requires id in t.mapInfo && k == h.TriedBucket(t.mapInfo[id]) < |t.vvTried| && ub < |t.vvNew|
    requires pos < |t.vvTried[k]| && t.vvTried[k][pos] in t.mapInfo && t.vvTried[k][pos] != id
    requires var e := t.vvTried[k][pos];
             && t'.mapInfo == t.mapInfo[id := t.mapInfo[id].(refCount := 0)]
                                       [e := t.mapInfo[e].(refCount := 1, inTried := false)]
                                       [id := t.mapInfo[id].(refCount := 0, inTried := true)]
             && t'.vvNew == Cleared(t.vvNew, id)[ub := Cleared(t.vvNew, id)[ub] + {e}]
             && t'.vvTried == t.vvTried[k := Placed(t.vvTried[k], pos, id)]
    requires t' == t.(mapInfo := t'.mapInfo, vvNew := t'.vvNew, vvTried := t'.vvTried)
    ensures t' == Evicted(h, t, id, pos, ub)
    ensures t'.mapInfo.Keys == t.mapInfo.Keys && t'.mapInfo[id].inTried
    ensures forall x :: x in t'.mapInfo ==>
              && t'.mapInfo[x] == t.mapInfo[x].(refCount := t'.mapInfo[x].refCount, inTried := t'.mapInfo[x].inTried)
              && (x != id && t'.mapInfo[x].inTried ==> t.mapInfo[x].inTried)
  {
    assert t'.mapInfo == Exchanged(t.mapInfo, id, t.vvTried[k][pos]);
  }

  lemma EvictedTakesPlace(
      h: Hashes, t: Tables, t': Tables, id: Id, origin: nat, dice: Dice, pos: nat, ub: nat, bucket: seq<Id>)
    requires id in t.mapInfo && h.TriedBucket(t.mapInfo[id]) < |t.vvTried| && |t.vvNew| == NEW_BUCKET_COUNT
    requires var k := h.TriedBucket(t.mapInfo[id]);
             && bucket == Shuffled(t.vvTried[k], dice, Inspected(|t.vvTried[k]|))
             && pos < |bucket| && bucket[pos] in t.mapInfo && ub < |t.vvNew|
             && ub == Refuge(h, t.mapInfo[bucket[pos]], Cleared(t.vvNew, id), origin)
             && t' == Evicted(h, t.(vvTried := t.vvTried[k := bucket]), id, pos, ub)
    ensures TakesPlace(h, t, t', id, origin, dice, pos)
  {
    hide Shuffled, Refuge;
  }

  /** Where a tried entry goes that has to make room: to its own new bucket if that has room, or else where id was. */
  ghost function Refuge(h: Hashes, info: AddrInfo, vvNew: seq<set<Id>>, origin: nat): nat
    requires |vvNew| == NEW_BUCKET_COUNT
  {
    var home := h.NewBucket(info.ip, info.source);
    if |vvNew[home]| < NEW_BUCKET_SIZE then home else origin
  }

  /** The first new bucket with id in a round that starts at some place. */
  ghost predicate FirstFound(vvNew: seq<set<Id>>, id: Id, start: nat, b: nat)
    requires vvNew != []
  {
    exists n: nat :: n < |vvNew| && b == Slot(n, start, |vvNew|) && id in vvNew[b]
      && forall i: nat :: i < n ==> id !in vvNew[Slot(i, start, |vvNew|)]
  }

  ghost function Any(s: set<Id>): (x: Id)
    requires s != {}
    ensures x in s
  {
    var x :| x in s; x
  }

  /** The least element of a set, where a std::set or std::map iteration starts. */
  lemma {:induction false} Least(s: set<Id>) returns (least: Id)
    requires s != {}
    ensures least in s && forall x :: x in s ==> least <= x
    decreases |s|
  {
    var y := Any(s);
    var rest := s - {y};
    if rest == {} {
      least := y;
      assert s == {y};
    } else {
      var l := Least(rest);
      least := if l < y then l else y;
      assert forall x :: x in s ==> x == y || x in rest;
    }
  }

  ghost predicate IsAscending(r: seq<Id>)
  {
    forall i, j :: 0 <= i < j < |r| ==> r[i] < r[j]
  }

  /** The elements of a set in ascending order, as std::set and std::map enumerate them. */
  ghost function Ascending(s: set<Id>): (r: seq<Id>)
    ensures |r| == |s| && IsAscending(r)
    ensures forall x :: x in s <==> x in r
    decreases |s|
  {
    if s == {} then []
    else
      var least := LeastOf(s);
      var rest := Ascending(s - {least});
      Prepend(least, rest, s);
      [least] + rest
  }

  ghost function LeastOf(s: set<Id>): (least: Id)
    requires s != {}
    ensures least in s && forall x :: x in s ==> least <= x
  {
    assert exists l :: l in s && forall x :: x in s ==> l <= x by {
      var l := Least(s);
    }
    var l :| l in s && forall x :: x in s ==> l <= x;
    l
  }

  lemma Prepend(least: Id, rest: seq<Id>, s: set<Id>)
    requires least in s && (forall x :: x in s ==> least <= x)
    requires IsAscending(rest) && forall x :: x in s - {least} <==> x in rest
    ensures IsAscending([least] + rest) && forall x :: x in s <==> x in [least] + rest
  {
    forall i | 0 <= i < |rest|
      ensures least < rest[i]
    {
      var x := rest[i];
      assert x in rest;
      assert x in s - {least};
    }
    assert forall x :: x in s <==> x == least || x in s - {least};
  }

  /** The same entry, wherever it stands in vRandom and however often it is referenced. */
  ghost predicate SameEntry(a: AddrInfo, b: AddrInfo) { b == a.(refCount := b.refCount, randomPos := b.randomPos) }

  /** At most one entry is gone, and not a tried one; the others are the same. */
  ghost predicate AtMostOneLost(m: map<Id, AddrInfo>, m': map<Id, AddrInfo>)
  {
    && m'.Keys <= m.Keys && |m.Keys - m'.Keys| <= 1
    && (forall x :: x in m && m[x].inTried ==> x in m')
    && (forall x :: x in m' ==> SameEntry(m[x], m'[x]))
  }

  lemma NoneLost(m: map<Id, AddrInfo>)
    ensures AtMostOneLost(m, m)
  {
    assert m.Keys - m.Keys == {};
  }

  lemma OneLost(m: map<Id, AddrInfo>, m': map<Id, AddrInfo>, dropped: Id)
    requires m'.Keys <= m.Keys && m.Keys - {dropped} <= m'.Keys && (dropped in m ==> !m[dropped].inTried)
    requires forall x :: x in m' ==> SameEntry(m[x], m'[x])
    ensures AtMostOneLost(m, m')
  {
    SubsetSize(m.Keys - m'.Keys, {dropped});
  }

  lemma CountedAndOneLost(m: map<Id, AddrInfo>, id: Id, refCount: int, m': map<Id, AddrInfo>)
    requires id in m && AtMostOneLost(m[id := m[id].(refCount := refCount)], m')
    ensures AtMostOneLost(m, m')
  {
    hide SameEntry;
    var counted := m[id := m[id].(refCount := refCount)];
    assert counted.Keys == m.Keys;
    CountedSame(m, id, refCount);
    forall x | x in m' ensures SameEntry(m[x], m'[x]) {
      SameButCounted(m[x], counted[x], m'[x]);
    }
  }

  lemma CountedSame(m: map<Id, AddrInfo>, id: Id, refCount: int)
    requires id in m
    ensures var counted := m[id := m[id].(refCount := refCount)];
            forall x :: x in m ==> counted[x].inTried == m[x].inTried && SameEntry(m[x], counted[x])
  {
  }

  /** Counting an entry that is not in the bucket does not change what makes room there. */
  lemma CountedDrop(m: map<Id, AddrInfo>, id: Id, refCount: int, bucket: set<Id>, now: int, dice: Dice)
    requires id in m && id !in bucket
    ensures var counted := m[id := m[id].(refCount := refCount)];
            forall x :: ToDrop(counted, bucket, now, dice, x) <==> ToDrop(m, bucket, now, dice, x)
  {
    var counted := m[id := m[id].(refCount := refCount)];
    assert forall y :: y in bucket ==> (y in counted <==> y in m) && (y in m ==> counted[y] == m[y]);
    hide IsTerrible, Place;
  }

  lemma SameButCounted(a: AddrInfo, b: AddrInfo, c: AddrInfo)
    requires SameEntry(a, b) && SameEntry(b, c)
    ensures SameEntry(a, c)
  {
  }

  lemma LostKeepsTimes(m: map<Id, AddrInfo>, m': map<Id, AddrInfo>)
    requires AtMostOneLost(m, m') && TimesOk(m)
    ensures TimesOk(m')
  {
    forall x | x in m'
      ensures m'[x].lastTry == m[x].lastTry && m'[x].lastSuccess == m[x].lastSuccess && m'[x].inTried == m[x].inTried
    {
      assert SameEntry(m[x], m'[x]);
    }
  }

  /** A known entry after it was announced again. */
  function Refreshed(info: AddrInfo, addr: Address, timePenalty: int, now: int): AddrInfo
  {
    var interval := if now - addr.time < 24 * 60 * 60 then 60 * 60 else 24 * 60 * 60;
    info.(time := if addr.time != 0 && (info.time == 0 || info.time < addr.time - interval - timePenalty)
                  then Max(0, addr.time - timePenalty) else info.time,
          services := Both(info.services, addr.services))
  }

  /** An entry that was just announced for the first time, not in any bucket yet. */
  function FirstSighting(addr: Address, source: NetAddr, timePenalty: int, randomPos: int): AddrInfo
  {
    AddrInfo(addr.ip, addr.port, addr.services, Max(0, addr.time - timePenalty), source, 0, 0, 0, 0, false, randomPos)
  }

  lemma SightingFacts(addr: Address, source: NetAddr, timePenalty: int, randomPos: int)
    ensures var info := FirstSighting(addr, source, timePenalty, randomPos);
            info.ip == addr.ip && !info.inTried && info.refCount == 0
  {
  }

  lemma SightingTimes(addr: Address, source: NetAddr, timePenalty: int, randomPos: int)
    ensures var info := FirstSighting(addr, source, timePenalty, randomPos);
            !info.inTried && info.lastTry == info.lastSuccess == 0
  {
  }

  /** It is kept as announced, its time put back by the penalty but not below 0, and nobody has tried it. */
  lemma AnnouncedAs(addr: Address, source: NetAddr, timePenalty: int, randomPos: int)
    ensures var info := FirstSighting(addr, source, timePenalty, randomPos);
            && info.ip == addr.ip && info.port == addr.port && info.services == addr.services && info.source == source
            && info.attempts == 0 && info.time >= 0 && info.time >= addr.time - timePenalty
            && (info.time == 0 || info.time == addr.time - timePenalty)
  {
  }

  lemma RefreshedTimes(info: AddrInfo, addr: Address, timePenalty: int, now: int)
    ensures var r := Refreshed(info, addr, timePenalty, now);
            r.lastTry == info.lastTry && r.lastSuccess == info.lastSuccess && r.inTried == info.inTried
  {
  }

  /**
   Hearing of a known address again never makes it look older, and counts, less the penalty, exactly when it is newer by
   more than the penalty and an hour, or a day for an address that has not been online for one.
   */
  lemma RefreshedTime(info: AddrInfo, addr: Address, timePenalty: int, now: int)
    requires info.time >= 0
    ensures var r := Refreshed(info, addr, timePenalty, now);
            && r.time >= info.time && r == info.(time := r.time, services := info.services | addr.services)
            && (info.time < r.time ==> r.time == addr.time - timePenalty)
            && (addr.time != 0 && now - 86400 < addr.time && info.time + timePenalty + 3600 < addr.time ==>
                 r.time == Max(0, addr.time - timePenalty))
            && (0 < info.time && addr.time - timePenalty - 3600 <= info.time ==> r.time == info.time)
            && (0 < info.time && addr.time <= now - 86400 && addr.time - timePenalty - 86400 <= info.time ==>
                 r.time == info.time)
            && (info.time + timePenalty + 86400 < addr.time && addr.time != 0 ==>
                 r.time == Max(0, addr.time - timePenalty))
            && (info.time == 0 && addr.time != 0 ==> r.time == Max(0, addr.time - timePenalty))
  {
  }

  lemma RefreshedFacts(info: AddrInfo, addr: Address, timePenalty: int, now: int)
    ensures var r := Refreshed(info, addr, timePenalty, now); r.refCount == info.refCount && r.ip == info.ip
  {
  }

  lemma GetsMeans(info: AddrInfo, addr: Address, dice: Dice)
    requires info.refCount >= 0 && GetsAnotherBucket(info, addr, dice)
    ensures !info.inTried && info.refCount < NEW_BUCKETS_PER_ADDRESS
  {
  }

  lemma NewBuckets(h: Hashes, t: Tables)
    requires Consistent(h, t, {})
    ensures |t.vvNew| == NEW_BUCKET_COUNT
  {
  }

  /** What is new about the entry that enters a bucket does not matter for what makes room there. */
  lemma RefreshedEnters(
      m: map<Id, AddrInfo>, id: Id, info: AddrInfo, vv: seq<set<Id>>, vv': seq<set<Id>>, b: nat, now: int, dice: Dice)
    requires b < |vv| && id !in vv[b]
    ensures EntersBucket(m[id := info], vv, vv', id, b, now, dice) <==> EntersBucket(m, vv, vv', id, b, now, dice)
  {
    var m' := m[id := info];
    assert forall y :: y in vv[b] ==> (y in m' <==> y in m) && (y in m ==> m'[y] == m[y]);
    hide IsTerrible, Place;
    assert forall x :: ToDrop(m', vv[b], now, dice, x) <==> ToDrop(m, vv[b], now, dice, x);
  }

  lemma SameAddress(m: map<Id, AddrInfo>, m': map<Id, AddrInfo>, id: Id)
    requires AtMostOneLost(m, m') && id in m'
    ensures id in m && m'[id].ip == m[id].ip
  {
    assert SameEntry(m[id], m'[id]);
  }

  ghost predicate Known(mapInfo: map<Id, AddrInfo>, ip: NetAddr) { exists id :: id in mapInfo && mapInfo[id].ip == ip }

  /** The first n places of vRandom have been drawn, and their entries listed. */
  ghost predicate Shuffling(
      m0: map<Id, AddrInfo>, m: map<Id, AddrInfo>, start: seq<Id>, v: seq<Id>, dice: Dice, n: nat, addrs: seq<AddrInfo>)
  {
    && OnlyMoved(m0, m) && n <= |start| && v == Shuffled(start, dice, n) && multiset(v) == multiset(start)
    && |addrs| == n && forall i :: 0 <= i < n ==> v[i] in m && addrs[i] == m[v[i]]
  }

  lemma ShufflingStarts(m: map<Id, AddrInfo>, start: seq<Id>, dice: Dice)
    ensures Shuffling(m, m, start, start, dice, 0, [])
  {
  }

  lemma NextShuffled(
      m0: map<Id, AddrInfo>, m: map<Id, AddrInfo>, m': map<Id, AddrInfo>, start: seq<Id>, v: seq<Id>, v': seq<Id>,
      dice: Dice, n: nat, r: nat, addrs: seq<AddrInfo>)
    requires Shuffling(m0, m, start, v, dice, n, addrs) && n < |start| == |v'| && r == Draw(dice, n, |start| - n)
    requires v' == SwapSeq(v, n, r + n) && multiset(v') == multiset(v) && OnlyMoved(m, m')
    requires OthersStay(m, v, m', v', n, r + n) && v'[n] in m'
    ensures Shuffling(m0, m', start, v', dice, n + 1, addrs + [m'[v'[n]]])
  {
    hide SwapSeq;
    ShuffledNext(start, dice, n);
  }

  lemma ShufflingEnds(
      h: Hashes, m0: map<Id, AddrInfo>, t: Tables, start: seq<Id>, dice: Dice, n: nat, addrs: seq<AddrInfo>)
    requires Consistent(h, t, {}) && Shuffling(m0, t.mapInfo, start, t.vRandom, dice, n, addrs)
    ensures var m, v := t.mapInfo, t.vRandom;
            && OnlyMoved(m0, m) && multiset(v) == multiset(start)
            && |addrs| == n <= |v| == |start| && v == Shuffled(start, dice, n)
            && (forall i :: 0 <= i < |addrs| ==> v[i] in m && addrs[i] == m[v[i]] && Known(m0, addrs[i].ip))
    ensures forall i, j :: 0 <= i < j < |addrs| ==> addrs[i].ip != addrs[j].ip
    ensures TimesOk(m0) ==> TimesOk(t.mapInfo)
  {
    hide Shuffled, Consistent;
    var m, v := t.mapInfo, t.vRandom;
    DistinctAddresses(h, t);
    forall i | 0 <= i < |addrs| ensures Known(m0, addrs[i].ip) {
      MovedIsKnown(m0, m, v[i]);
    }
    MovedTimes(m0, m);
  }

  lemma MovedIsKnown(m: map<Id, AddrInfo>, m': map<Id, AddrInfo>, id: Id)
    requires OnlyMoved(m, m') && id in m'
    ensures Known(m, m'[id].ip)
  {
    assert id in m && m[id].ip == m'[id].ip;
  }

  lemma MovedTimes(m: map<Id, AddrInfo>, m': map<Id, AddrInfo>)
    requires OnlyMoved(m, m')
    ensures TimesOk(m) ==> TimesOk(m')
  {
  }

  /** A swap leaves the entries at all other places as they were. */
  lemma PlacesKept(t: Tables, p: nat, q: nat)
    requires RandomOk(t.mapInfo, t.vRandom) && p < |t.vRandom| && q < |t.vRandom|
    ensures var m := SwapInfo(t.mapInfo, t.vRandom, p, q);
            OthersStay(t.mapInfo, t.vRandom, m, SwapSeq(t.vRandom, p, q), p, q)
  {
  }

  ghost predicate OthersStay(
      m: map<Id, AddrInfo>, v: seq<Id>, m': map<Id, AddrInfo>, v': seq<Id>, p: nat, q: nat)
  {
    |v'| == |v| &&
    forall i :: 0 <= i < |v| && i != p && i != q ==>
      v'[i] == v[i] && v[i] in m && v[i] in m' && m'[v[i]] == m[v[i]]
  }

  /** The service is known, and not tried yet. */
  ghost predicate IsNewService(t: Tables, ip: NetAddr, port: nat)
  {
    ip in t.mapAddr && t.mapAddr[ip] in t.mapInfo &&
      var info := t.mapInfo[t.mapAddr[ip]];
      info.port == port && !info.inTried
  }

  /** The entry with the times of a successful connection. */
  ghost function AfterSuccess(t: Tables, id: Id, time: int): Tables
    requires id in t.mapInfo
  {
    var info := t.mapInfo[id].(lastSuccess := time, lastTry := time, time := time, attempts := 0);
    t.(mapInfo := t.mapInfo[id := info])
  }

  /** What a successful connection does to the buckets: luck says where the search for that of id starts. */
  ghost predicate BecomesTried(h: Hashes, t: Tables, t': Tables, id: Id, time: int, luck: Dice, dice: Dice)
  {
    && id in t.mapInfo && h.TriedBucket(t.mapInfo[id]) < |t.vvTried| && t.vvNew != []
    && exists origin: nat ::
         FirstFound(t.vvNew, id, Draw(luck, 0, |t.vvNew|), origin)
         && MadeTried(h, AfterSuccess(t, id, time), t', id, origin, dice)
  }

  /** An entry that is not among the inspected ones does not matter for which of them is least recent. */
  lemma SameRecent(m: map<Id, AddrInfo>, id: Id, bucket: seq<Id>, dice: Dice, pos: nat)
    requires id in m && DrawnFrom(m[id := m[id].(refCount := 0)], bucket, dice, pos)
    ensures DrawnFrom(m, bucket, dice, pos)
  {
    var n, counted := Inspected(|bucket|), m[id := m[id].(refCount := 0)];
    var s := Shuffled(bucket, dice, n)[..n];
    var j: nat :| j < n && LeastRecent(counted, s, j) && pos == Drawn(dice, j, |bucket|);
    assert LeastRecent(m, s, j) by {
      assert forall x :: x in counted ==> x in m && counted[x].lastSuccess == m[x].lastSuccess;
    }
  }

  lemma StillMembers(s: seq<Id>, r: seq<Id>, p: nat)
    requires Reordered(s, r) && p < |r|
    ensures r[p] in s
  {
    assert r[p] in r;
  }

  /** Among the entries that were drawn so far this one is least recent, and pos is where it was. */
  ghost predicate Selects(m: map<Id, AddrInfo>, s: seq<Id>, size: nat, dice: Dice, oldest: Id, pos: nat)
  {
    && |s| <= size
    && exists j: nat :: j < |s| && LeastRecent(m, s, j) && oldest == s[j] && pos == Drawn(dice, j, size)
  }

  lemma NextSelected(
      m: map<Id, AddrInfo>, s: seq<Id>, size: nat, dice: Dice, chosen: bool, oldest: Id, pos: nat, x: Id)
    requires x in m && |s| < size && (chosen <==> s != [])
    requires chosen ==> oldest in m && Selects(m, s, size, dice, oldest, pos)
    ensures if !chosen || m[x].lastSuccess < m[oldest].lastSuccess
            then Selects(m, s + [x], size, dice, x, Drawn(dice, |s|, size))
            else Selects(m, s + [x], size, dice, oldest, pos)
  {
    if chosen {
      var j: nat :| j < |s| && LeastRecent(m, s, j) && oldest == s[j] && pos == Drawn(dice, j, size);
      var k := if m[x].lastSuccess < m[oldest].lastSuccess then |s| else j;
      assert LeastRecent(m, s + [x], k);
    } else {
      assert LeastRecent(m, s + [x], 0);
    }
  }

  ghost predicate Selecting(
      m: map<Id, AddrInfo>, bucket0: seq<Id>, bucket: seq<Id>, dice: Dice, i: nat, chosen: bool, oldest: Id, pos: nat)
  {
    && i <= |bucket0| && bucket == Shuffled(bucket0, dice, i) && (chosen <==> i > 0)
    && (chosen ==> oldest in m && Selects(m, bucket[..i], |bucket0|, dice, oldest, pos))
  }

  lemma SelectionStarts(m: map<Id, AddrInfo>, bucket0: seq<Id>, dice: Dice)
    ensures Selecting(m, bucket0, bucket0, dice, 0, false, 0, 0)
  {
  }

  lemma SelectNext(
      m: map<Id, AddrInfo>, bucket0: seq<Id>, bucket: seq<Id>, dice: Dice, i: nat, chosen: bool, oldest: Id, pos: nat)
    requires Selecting(m, bucket0, bucket, dice, i, chosen, oldest, pos)
    requires i < |bucket0| && NoDuplicates(bucket0) && forall x :: x in bucket0 ==> x in m
    ensures |bucket| == |bucket0| && bucket[Drawn(dice, i, |bucket0|)] in m && (chosen ==> oldest in m)
    ensures var p := Drawn(dice, i, |bucket0|);
            var next := SwapSeq(bucket, i, p);
            if !chosen || m[bucket[p]].lastSuccess < m[oldest].lastSuccess
            then Selecting(m, bucket0, next, dice, i + 1, true, bucket[p], p)
            else Selecting(m, bucket0, next, dice, i + 1, true, oldest, pos)
  {
    hide SwapSeq, Shuffled, Selects, Reordered, NoDuplicates, Drawn;
    var p := Drawn(dice, i, |bucket0|);
    ShuffledReorders(bucket0, dice, i);
    StillMembers(bucket0, bucket, p);
    ShuffledNext(bucket0, dice, i);
    SwapPuts(bucket, i, p);
    NextSelected(m, bucket[..i], |bucket0|, dice, chosen, oldest, pos, bucket[p]);
  }

  lemma Selection(
      m: map<Id, AddrInfo>, bucket0: seq<Id>, bucket: seq<Id>, dice: Dice, chosen: bool, oldest: Id, pos: nat)
    requires Selecting(m, bucket0, bucket, dice, Inspected(|bucket0|), chosen, oldest, pos)
    requires bucket0 != [] && NoDuplicates(bucket0)
    ensures pos < |bucket| == |bucket0| && DrawnFrom(m, bucket0, dice, pos)
    ensures bucket == Shuffled(bucket0, dice, Inspected(|bucket0|))
    ensures multiset(bucket) == multiset(bucket0) && Reordered(bucket0, bucket)
  {
    hide Shuffled;
    ShuffledReorders(bucket0, dice, Inspected(|bucket0|));
  }

  lemma PickedIff(bucket: set<Id>, dice: Dice, x: Id)
    requires x in bucket
    ensures Picked(bucket, dice, x) <==>
              Place(bucket, x) == Draw(dice, 0, |bucket|) || Place(bucket, x) == Draw(dice, 1, |bucket|)
              || Place(bucket, x) == Draw(dice, 2, |bucket|) || Place(bucket, x) == Draw(dice, 3, |bucket|)
  {
  }

  ghost predicate BestOf(m: map<Id, AddrInfo>, bucket: set<Id>, done: set<Id>, dice: Dice, x: Id)
  {
    && x in done && Picked(bucket, dice, x) && x in m
    && forall y: Id :: y in done && Picked(bucket, dice, y) && y in m ==>
         m[x].time <= m[y].time && (y < x ==> m[x].time < m[y].time)
  }

  ghost predicate NonePicked(bucket: set<Id>, done: set<Id>, dice: Dice)
  {
    forall y :: y in done ==> !Picked(bucket, dice, y)
  }

  /** The members of a bucket are gone through in ascending order; todo are those still to come. */
  ghost predicate Round(m: map<Id, AddrInfo>, bucket: set<Id>, todo: set<Id>, dice: Dice, chosen: bool, id: Id)
  {
    && todo <= bucket <= m.Keys && (forall x, y :: x in bucket - todo && y in todo ==> x < y)
    && if chosen then BestOf(m, bucket, bucket - todo, dice, id) else NonePicked(bucket, bucket - todo, dice)
  }

  lemma RoundStarts(m: map<Id, AddrInfo>, bucket: set<Id>, dice: Dice)
    requires bucket <= m.Keys
    ensures Round(m, bucket, bucket, dice, false, 0)
  {
  }

  lemma NextInRound(
      m: map<Id, AddrInfo>, bucket: set<Id>, todo: set<Id>, dice: Dice, chosen: bool, id: Id, it: Id)
    requires Round(m, bucket, todo, dice, chosen, id) && it in todo && forall x :: x in todo ==> it <= x
    ensures it in m && (chosen ==> id in m)
    ensures var nI, size := |bucket| - |todo|, |bucket|;
            if nI == Draw(dice, 0, size) || nI == Draw(dice, 1, size)
               || nI == Draw(dice, 2, size) || nI == Draw(dice, 3, size)
            then Round(m, bucket, todo - {it}, dice, true, if !chosen || m[it].time < m[id].time then it else id)
            else Round(m, bucket, todo - {it}, dice, chosen, id)
  {
    hide Picked, Place;
    PlaceIs(bucket, todo, it);
    PickedIff(bucket, dice, it);
    assert bucket - (todo - {it}) == (bucket - todo) + {it};
  }

  lemma RoundEnds(m: map<Id, AddrInfo>, bucket: set<Id>, dice: Dice, chosen: bool, id: Id)
    requires Round(m, bucket, {}, dice, chosen, id) && chosen
    ensures id in bucket && OldestPicked(m, bucket, dice, id)
  {
    assert bucket - {} == bucket;
  }

  /** What a round in ascending order has left behind is what comes before its next element. */
  lemma PlaceIs(bucket: set<Id>, todo: set<Id>, it: Id)
    requires todo <= bucket && it in todo && (forall x :: x in todo ==> it <= x)
    requires forall x, y :: x in bucket - todo && y in todo ==> x < y
    ensures Place(bucket, it) + |todo| == |bucket|
  {
    assert (set y | y in bucket && y < it) == bucket - todo;
    assert bucket == (bucket - todo) + todo;
  }

  class Manager {
    const hashes: Hashes
    var idCount: nat
    var mapInfo: map<Id, AddrInfo>
    var mapAddr: map<NetAddr, Id>
    var vRandom: seq<Id>
    var nTried: int
    var vvTried: seq<seq<Id>>
    var nNew: int
    var vvNew: seq<set<Id>>

    function View(): Tables
      reads this
    {
      Tables(idCount, mapInfo, mapAddr, vRandom, nTried, vvTried, nNew, vvNew)
    }

    ghost predicate Valid()
      reads this
    {
      Consistent(hashes, View(), {})
    }

    constructor (hashes: Hashes)
      ensures Valid() && this.hashes == hashes && mapInfo == map[] && TimesOk(mapInfo)
    {
      this.hashes := hashes;
      idCount, mapInfo, mapAddr, vRandom := 0, map[], map[], [];
      nTried, vvTried := 0, seq(TRIED_BUCKET_COUNT, _ => []);
      nNew, vvNew := 0, seq(NEW_BUCKET_COUNT, _ => {});
    }

    /** The number of addresses is bounded by the capacity of the buckets. */
    method Size() returns (n: nat)
      requires Valid()
      ensures n == |mapInfo| && n == nNew + nTried && n <= 64 * 64 + 256 * 64
    {
      SizeIsBounded(hashes, View());
      RandomCounts(mapInfo, vRandom);
      n := |vRandom|;
    }

    method Find(addr: NetAddr) returns (found: bool, id: Id)
      requires Valid()
      ensures found <==> addr in mapAddr
      ensures found ==> id == mapAddr[addr] && id in mapInfo && mapInfo[id].ip == addr
    {
      if addr !in mapAddr { return false, 0; }
      id := mapAddr[addr];
      found := id in mapInfo;
    }

    method SwapRandom(p: nat, q: nat)
      requires p < |vRandom| && q < |vRandom| && RandomOk(mapInfo, vRandom)
      modifies this`mapInfo, this`vRandom
      ensures mapInfo == SwapInfo(old(mapInfo), old(vRandom), p, q) && vRandom == SwapSeq(old(vRandom), p, q)
      ensures RandomOk(mapInfo, vRandom) && OnlyMoved(old(mapInfo), mapInfo)
    {
      SwapKeeps(mapInfo, vRandom, p, q);
      if p == q {
        assert SwapSeq(vRandom, p, q) == vRandom;
        return;
      }
      var id1, id2 := vRandom[p], vRandom[q];
      mapInfo := mapInfo[id1 := mapInfo[id1].(randomPos := q)];
      mapInfo := mapInfo[id2 := mapInfo[id2].(randomPos := p)];
      vRandom := vRandom[p := id2];
      vRandom := vRandom[q := id1];
    }

    /** Delete an entry whose last reference is gone. */
    method Remove(id: Id)
      requires id in mapInfo && RandomOk(mapInfo, vRandom) && 0 <= mapInfo[id].randomPos < |vRandom|
      modifies this`mapInfo, this`mapAddr, this`vRandom, this`nNew
      ensures View() == Removed(old(View()), id)
    {
      hide RandomOk, SwapInfo, SwapSeq, OnlyMoved;
      var info := mapInfo[id];
      SwapRandom(info.randomPos, |vRandom| - 1);
      vRandom := vRandom[..|vRandom| - 1];
      mapAddr := mapAddr - {info.ip};
      mapInfo := mapInfo - {id};
      nNew := nNew - 1;
    }

    /**
     Both ways in which ShrinkNew drops an id from a bucket: one reference less, and if it was the last, the entry.
     */
    method Drop(b: nat, id: Id, ghost pending: set<Id>)
      requires Consistent(hashes, View(), pending) && b < |vvNew| && id in vvNew[b] && id !in pending
      modifies this
      ensures Consistent(hashes, View(), pending)
      ensures vvNew == old(vvNew)[b := old(vvNew)[b] - {id}] && vvTried == old(vvTried) && nTried == old(nTried)
      ensures idCount == old(idCount) && mapInfo.Keys <= old(mapInfo).Keys && old(mapInfo).Keys - {id} <= mapInfo.Keys
      ensures id in old(mapInfo) && (id in mapInfo <==> old(mapInfo)[id].refCount > 1)
      ensures forall x :: x in mapInfo ==>
                mapInfo[x] == old(mapInfo)[x].(randomPos := mapInfo[x].randomPos,
                                               refCount := old(mapInfo)[x].refCount - if x == id then 1 else 0)
    {
      hide Consistent, RandomOk;
      ghost var t := View();
      BucketEntry(hashes, t, pending, b, id);
      var info := mapInfo[id];
      if info.refCount - 1 == 0 {
        DropLast(b, id, pending);
      } else {
        UnrefKeeps(hashes, t, pending, b, id);
        mapInfo := mapInfo[id := info.(refCount := info.refCount - 1)];
        vvNew := vvNew[b := vvNew[b] - {id}];
      }
    }

    method DropLast(b: nat, id: Id, ghost pending: set<Id>)
      requires Consistent(hashes, View(), pending) && b < |vvNew| && id in vvNew[b] && id !in pending
      requires id in mapInfo && mapInfo[id].refCount == 1
      modifies this
      ensures vvNew == old(vvNew)[b := old(vvNew)[b] - {id}] && vvTried == old(vvTried) && nTried == old(nTried)
      ensures idCount == old(idCount) && Consistent(hashes, View(), pending)
      ensures mapInfo.Keys == old(mapInfo).Keys - {id}
      ensures forall x :: x in mapInfo ==> mapInfo[x] == old(mapInfo)[x].(randomPos := mapInfo[x].randomPos)
    {
      hide Consistent, RandomOk, SwapInfo, SwapSeq;
      ghost var t := View();
      BucketEntry(hashes, t, pending, b, id);
      ForgetKeeps(hashes, t, pending, b, id);
      RemovedRandom(t, id);
      Remove(id);
      vvNew := vvNew[b := vvNew[b] - {id}];
    }

    /** The first terrible entry of a bucket, in id order. */
    method FirstTerrible(b: nat, now: int) returns (found: bool, id: Id)
      requires b < |vvNew| && forall x :: x in vvNew[b] ==> x in mapInfo
      ensures found ==> id in vvNew[b] && IsTerrible(mapInfo[id], now)
      ensures found ==> forall x :: x in vvNew[b] && x < id ==> !IsTerrible(mapInfo[x], now)
      ensures !found ==> forall x :: x in vvNew[b] ==> !IsTerrible(mapInfo[x], now)
    {
      hide IsTerrible;
      var todo := vvNew[b];
      found, id := false, 0;
      while todo != {}
        invariant todo <= vvNew[b]
        invariant forall x, y :: x in vvNew[b] && x !in todo && y in todo ==> x < y
        invariant forall x :: x in vvNew[b] && x !in todo ==> !IsTerrible(mapInfo[x], now)
        decreases |todo|
      {
        ghost var l := Least(todo);
        var it :| it in todo && forall x :: x in todo ==> it <= x;
        if IsTerrible(mapInfo[it], now) { return true, it; }
        todo := todo - {it};
      }
    }

    /** The oldest of up to four entries picked at random by their place in the bucket. */
    method OldestOfFour(b: nat, dice: Dice) returns (id: Id)
      requires b < |vvNew| && vvNew[b] != {} && forall x :: x in vvNew[b] ==> x in mapInfo
      ensures id in vvNew[b] && OldestPicked(mapInfo, vvNew[b], dice, id)
    {
      var size := |vvNew[b]|;
      var n0, n1, n2, n3 := Draw(dice, 0, size), Draw(dice, 1, size), Draw(dice, 2, size), Draw(dice, 3, size);
      var nI, chosen := 0, false;
      id := 0;
      var todo := vvNew[b];
      RoundStarts(mapInfo, vvNew[b], dice);
      while todo != {}
        invariant nI + |todo| == size
        invariant Round(mapInfo, vvNew[b], todo, dice, chosen, id)
        invariant nI > n0 ==> chosen
        decreases |todo|
      {
        hide Round;
        ghost var l := Least(todo);
        var it :| it in todo && forall x :: x in todo ==> it <= x;
        NextInRound(mapInfo, vvNew[b], todo, dice, chosen, id, it);
        if nI == n0 || nI == n1 || nI == n2 || nI == n3 {
          if !chosen || mapInfo[it].time < mapInfo[id].time {
            chosen, id := true, it;
          }
        }
        nI := nI + 1;
        todo := todo - {it};
      }
      RoundEnds(mapInfo, vvNew[b], dice, chosen, id);
    }

    /** ShrinkNew: make room in a bucket by dropping a terrible entry, or else an old one. */
    method ShrinkNew(b: nat, now: int, dice: Dice, ghost pending: set<Id>) returns (code: int, dropped: Id)
      requires Consistent(hashes, View(), pending) && b < |vvNew| && vvNew[b] != {} && pending !! vvNew[b]
      modifies this
      ensures Consistent(hashes, View(), pending)
      ensures dropped in old(vvNew)[b] && vvNew == old(vvNew)[b := old(vvNew)[b] - {dropped}]
      ensures ToDrop(old(mapInfo), old(vvNew)[b], now, dice, dropped)
      ensures code == 0 <==> exists x :: x in old(vvNew)[b] && x in old(mapInfo) && IsTerrible(old(mapInfo)[x], now)
      ensures vvTried == old(vvTried) && nTried == old(nTried) && idCount == old(idCount)
      ensures code == 0 ==> dropped in old(mapInfo) && IsTerrible(old(mapInfo)[dropped], now)
      ensures mapInfo.Keys <= old(mapInfo).Keys && old(mapInfo).Keys - {dropped} <= mapInfo.Keys
      ensures dropped in old(mapInfo) && (dropped in mapInfo <==> old(mapInfo)[dropped].refCount > 1)
      ensures forall x :: x in mapInfo ==>
                mapInfo[x] == old(mapInfo)[x].(randomPos := mapInfo[x].randomPos,
                                               refCount := old(mapInfo)[x].refCount - if x == dropped then 1 else 0)
    {
      hide Consistent, IsTerrible, OldestPicked;
      ghost var t := View();
      forall x | x in vvNew[b]
        ensures x in mapInfo
      {
        BucketEntry(hashes, t, pending, b, x);
      }
      var found, id := FirstTerrible(b, now);
      if found {
        Drop(b, id, pending);
        return 0, id;
      }
      id := OldestOfFour(b, dice);
      Drop(b, id, pending);
      return 1, id;
    }

    // ----- adding -----

    /** Enter id into a bucket: count it first, make room if needed, then insert. */
    method PlaceInBucket(id: Id, b: nat, now: int, dice: Dice)
      requires id in mapInfo && !mapInfo[id].inTried && b < |vvNew| && |vvNew| == NEW_BUCKET_COUNT && id !in vvNew[b]
      requires Consistent(hashes, Pended(View(), id), {id})
      modifies this
      ensures Valid() && |vvNew| == NEW_BUCKET_COUNT && vvTried == old(vvTried) && nTried == old(nTried)
      ensures id in mapInfo && id in vvNew[b] && mapInfo[id].refCount == old(mapInfo)[id].refCount + 1
      ensures EntersBucket(old(mapInfo), old(vvNew), vvNew, id, b, now, dice)
      ensures AtMostOneLost(old(mapInfo), mapInfo)
    {
      hide Consistent, AtMostOneLost, ToDrop;
      mapInfo := mapInfo[id := mapInfo[id].(refCount := mapInfo[id].refCount + 1)];
      assert View() == Pended(old(View()), id);
      MakeRoom(b, id, now, dice);
      CountedAndOneLost(old(mapInfo), id, old(mapInfo)[id].refCount + 1, mapInfo);
      InsertKeeps(hashes, View(), b, id);
      CountedDrop(old(mapInfo), id, old(mapInfo)[id].refCount + 1, old(vvNew)[b], now, dice);
      vvNew := vvNew[b := vvNew[b] + {id}];
    }

    /** Shrink the bucket if it is full. */
    method MakeRoom(b: nat, id: Id, now: int, dice: Dice)
      requires Consistent(hashes, View(), {id}) && b < |vvNew| && id in mapInfo && id !in vvNew[b]
      modifies this
      ensures Consistent(hashes, View(), {id}) && |vvNew| == |old(vvNew)| && id !in vvNew[b]
      ensures |vvNew[b]| < NEW_BUCKET_SIZE
      ensures if |old(vvNew)[b]| < NEW_BUCKET_SIZE then vvNew == old(vvNew)
              else exists x ::
                     ToDrop(old(mapInfo), old(vvNew)[b], now, dice, x)
                     && vvNew == old(vvNew)[b := old(vvNew)[b] - {x}]
      ensures vvTried == old(vvTried) && nTried == old(nTried)
      ensures id in mapInfo && mapInfo[id] == old(mapInfo)[id].(randomPos := mapInfo[id].randomPos)
      ensures AtMostOneLost(old(mapInfo), mapInfo)
    {
      hide Consistent, AtMostOneLost, ToDrop;
      ghost var before := View();
      BucketRoom(hashes, before, {id}, b);
      if |vvNew[b]| == NEW_BUCKET_SIZE {
        var _, dropped := ShrinkNew(b, now, dice, {id});
        BucketEntry(hashes, before, {id}, b, dropped);
        OneLost(old(mapInfo), mapInfo, dropped);
      } else {
        NoneLost(mapInfo);
      }
    }

    /** The fields of a known entry that hearing of it again refreshes. */
    method Refresh(id: Id, addr: Address, timePenalty: int, now: int)
      requires Valid() && id in mapInfo
      modifies this`mapInfo
      ensures Valid() && mapInfo == old(mapInfo)[id := Refreshed(old(mapInfo)[id], addr, timePenalty, now)]
    {
      hide Consistent, Both, Max;
      var info := mapInfo[id];
      var interval := if now - addr.time < 24 * 60 * 60 then 60 * 60 else 24 * 60 * 60;
      if addr.time != 0 && (info.time == 0 || info.time < addr.time - interval - timePenalty) {
        info := info.(time := Max(0, addr.time - timePenalty));
      }
      info := info.(services := Both(info.services, addr.services));
      TouchKeeps(hashes, View(), {}, id, info);
      mapInfo := mapInfo[id := info];
    }

    /** Create: a new entry under the next id, at the end of vRandom; nNew is the caller's business. */
    method Create(addr: Address, source: NetAddr) returns (id: Id)
      modifies this`idCount, this`mapInfo, this`mapAddr, this`vRandom
      ensures id == old(idCount) && idCount == id + 1
      ensures mapInfo == old(mapInfo)[id :=
                                      AddrInfo(addr.ip, addr.port, addr.services, addr.time, source, 0, 0, 0, 0,
                                               false, |old(vRandom)|)]
      ensures mapAddr == old(mapAddr)[addr.ip := id] && vRandom == old(vRandom) + [id]
    {
      id := idCount;
      idCount := idCount + 1;
      mapInfo := mapInfo[id := AddrInfo(addr.ip, addr.port, addr.services, addr.time, source, 0, 0, 0, 0, false, -1)];
      mapAddr := mapAddr[addr.ip := id];
      mapInfo := mapInfo[id := mapInfo[id].(randomPos := |vRandom|)];
      vRandom := vRandom + [id];
    }

    /** A first sighting: create the entry, ready to be counted for a bucket. */
    method CreateNew(addr: Address, source: NetAddr, timePenalty: int) returns (id: Id)
      requires Valid() && addr.ip !in mapAddr
      modifies this`idCount, this`mapInfo, this`mapAddr, this`vRandom, this`nNew
      ensures id !in old(mapInfo)
      ensures mapInfo == old(mapInfo)[id := FirstSighting(addr, source, timePenalty, |old(vRandom)|)]
      ensures Consistent(hashes, Pended(View(), id), {id})
      ensures forall b :: 0 <= b < |vvNew| ==> id !in vvNew[b]
    {
      hide Consistent;
      ghost var t := View();
      FreshId(hashes, t);
      id := Create(addr, source);
      mapInfo := mapInfo[id := mapInfo[id].(time := Max(0, mapInfo[id].time - timePenalty))];
      nNew := nNew + 1;
      CreateKeeps(hashes, t, mapInfo[id].(refCount := 1));
      assert mapInfo[id := mapInfo[id].(refCount := 1)] == t.mapInfo[id := mapInfo[id].(refCount := 1)];
    }

    /** Whether a known new entry is to get one more bucket. */
    method WantsAnotherBucket(info: AddrInfo, addr: Address, dice: Dice) returns (yes: bool)
      requires 0 <= info.refCount <= NEW_BUCKETS_PER_ADDRESS
      ensures yes <==> GetsAnotherBucket(info, addr, dice)
    {
      if addr.time == 0 || (info.time != 0 && addr.time <= info.time) { return false; }
      if info.inTried { return false; }
      if info.refCount == NEW_BUCKETS_PER_ADDRESS { return false; }
      var factor, n := 1, 0;
      while n < info.refCount
        invariant 0 <= n <= info.refCount && factor == Pow(2, n)
      {
        factor, n := factor * 2, n + 1;
      }
      if factor > 1 {
        var r := Draw(dice, 0, factor);
        if r != 0 { return false; }
      }
      yes := true;
    }

    /**
     Add_: keeps every table consistent, knows the address afterwards, never touches the tried table, and drops at most
     one other entry to make room.  luck decides whether a known entry gets another bucket, dice whom that drives out.
     */
    method Add(addr: Address, source: NetAddr, timePenalty: int, routable: bool, now: int, luck: Dice, dice: Dice)
      returns (fNew: bool)
      requires Valid()
      modifies this
      ensures Valid()
      ensures fNew <==> routable && addr.ip !in old(mapAddr)
      ensures !routable ==> unchanged(this)
      ensures routable ==> addr.ip in mapAddr && mapAddr[addr.ip] in mapInfo
      ensures vvTried == old(vvTried) && nTried == old(nTried)
      ensures routable && !fNew ==>
        var id := old(mapAddr)[addr.ip];
        && mapAddr[addr.ip] == id && id in old(mapInfo)
        && AtMostOneLost(old(mapInfo)[id := Refreshed(old(mapInfo)[id], addr, timePenalty, now)], mapInfo)
        && Heard(old(mapInfo), Refreshed(old(mapInfo)[id], addr, timePenalty, now), old(vvNew), vvNew, id, addr, source,
                 now, luck, dice)
        && (vvNew == old(vvNew) ==>
             mapInfo == old(mapInfo)[id := Refreshed(old(mapInfo)[id], addr, timePenalty, now)])
      ensures fNew ==>
        var id := mapAddr[addr.ip];
        && id !in old(mapInfo)
        && AtMostOneLost(old(mapInfo)[id := FirstSighting(addr, source, timePenalty, |old(vRandom)|)], mapInfo)
        && mapInfo[id].refCount == 1 && |old(vvNew)| == NEW_BUCKET_COUNT
        && EntersBucket(old(mapInfo), old(vvNew), vvNew, id, hashes.NewBucket(addr.ip, source), now, dice)
      ensures old(TimesOk(mapInfo)) ==> TimesOk(mapInfo)
    {
      hide Consistent, AtMostOneLost, Refreshed, FirstSighting, EntersBucket, GetsAnotherBucket;
      if !routable { return false; }
      var found, id := Find(addr.ip);
      if found {
        ghost var refreshed := mapInfo[id := Refreshed(mapInfo[id], addr, timePenalty, now)];
        AddKnown(id, addr, source, timePenalty, now, luck, dice);
        if old(TimesOk(mapInfo)) {
          RefreshedTimes(old(mapInfo)[id], addr, timePenalty, now);
          LostKeepsTimes(refreshed, mapInfo);
        }
      } else {
        ghost var sighted := FirstSighting(addr, source, timePenalty, |vRandom|);
        AddUnknown(addr, source, timePenalty, now, dice);
        if old(TimesOk(mapInfo)) {
          SightingTimes(addr, source, timePenalty, |old(vRandom)|);
          LostKeepsTimes(old(mapInfo)[mapAddr[addr.ip] := sighted], mapInfo);
        }
      }
      fNew := !found;
    }

    /** The new buckets after a known address was announced again; info is its refreshed entry. */
    ghost predicate Heard(
        m: map<Id, AddrInfo>, info: AddrInfo, vv: seq<set<Id>>, vv': seq<set<Id>>, id: Id, addr: Address,
        source: NetAddr, now: int, luck: Dice, dice: Dice)
    {
      info.refCount >= 0 && |vv| == NEW_BUCKET_COUNT &&
        var b := hashes.NewBucket(addr.ip, source);
        if GetsAnotherBucket(info, addr, luck) && id !in vv[b] then EntersBucket(m, vv, vv', id, b, now, dice)
        else vv' == vv
    }

    method AddKnown(id: Id, addr: Address, source: NetAddr, timePenalty: int, now: int, luck: Dice, dice: Dice)
      requires Valid() && addr.ip in mapAddr && id == mapAddr[addr.ip] && id in mapInfo && mapInfo[id].ip == addr.ip
      modifies this
      ensures Valid() && addr.ip in mapAddr && mapAddr[addr.ip] == id && vvTried == old(vvTried)
      ensures nTried == old(nTried)
      ensures id in mapInfo
      ensures AtMostOneLost(old(mapInfo)[id := Refreshed(old(mapInfo)[id], addr, timePenalty, now)], mapInfo)
      ensures var info := Refreshed(old(mapInfo)[id], addr, timePenalty, now);
              Heard(old(mapInfo), info, old(vvNew), vvNew, id, addr, source, now, luck, dice)
      ensures vvNew == old(vvNew) ==>
                mapInfo == old(mapInfo)[id := Refreshed(old(mapInfo)[id], addr, timePenalty, now)]
    {
      hide Consistent, AtMostOneLost, Refreshed, Heard;
      ghost var m := mapInfo;
      RefreshedFacts(mapInfo[id], addr, timePenalty, now);
      Refresh(id, addr, timePenalty, now);
      ghost var before := mapInfo;
      Spread(id, addr, source, now, luck, dice);
      SameAddress(before, mapInfo, id);
      KnownEntry(hashes, View(), id);
      HeardBefore(m, id, before[id], old(vvNew), vvNew, addr, source, now, luck, dice);
    }

    lemma HeardBefore(
        m: map<Id, AddrInfo>, id: Id, info: AddrInfo, vv: seq<set<Id>>, vv': seq<set<Id>>, addr: Address,
        source: NetAddr, now: int, luck: Dice, dice: Dice)
      requires Heard(m[id := info], info, vv, vv', id, addr, source, now, luck, dice)
      ensures Heard(m, info, vv, vv', id, addr, source, now, luck, dice)
    {
      hide EntersBucket, GetsAnotherBucket;
      var b := hashes.NewBucket(addr.ip, source);
      if id !in vv[b] {
        RefreshedEnters(m, id, info, vv, vv', b, now, dice);
      }
    }

    /** Enter a known entry into the bucket of the new source, if it is to get one more. */
    method Spread(id: Id, addr: Address, source: NetAddr, now: int, luck: Dice, dice: Dice)
      requires Valid() && id in mapInfo && mapInfo[id].ip == addr.ip
      modifies this
      ensures Valid() && vvTried == old(vvTried) && nTried == old(nTried)
      ensures id in mapInfo && AtMostOneLost(old(mapInfo), mapInfo)
      ensures Heard(old(mapInfo), old(mapInfo)[id], old(vvNew), vvNew, id, addr, source, now, luck, dice)
      ensures vvNew == old(vvNew) ==> mapInfo == old(mapInfo)
    {
      hide Consistent, AtMostOneLost, EntersBucket, GetsAnotherBucket;
      NewBuckets(hashes, View());
      KnownEntry(hashes, View(), id);
      NoneLost(mapInfo);
      var wants := WantsAnotherBucket(mapInfo[id], addr, luck);
      var b := hashes.NewBucket(mapInfo[id].ip, source);
      if wants && id !in vvNew[b] {
        GetsMeans(mapInfo[id], addr, luck);
        PendKeeps(hashes, View(), id);
        PlaceInBucket(id, b, now, dice);
      }
    }

    method AddUnknown(addr: Address, source: NetAddr, timePenalty: int, now: int, dice: Dice)
      requires Valid() && addr.ip !in mapAddr
      modifies this
      ensures Valid() && addr.ip in mapAddr && vvTried == old(vvTried) && nTried == old(nTried)
      ensures var id := mapAddr[addr.ip];
              && id !in old(mapInfo) && id in mapInfo
              && AtMostOneLost(old(mapInfo)[id := FirstSighting(addr, source, timePenalty, |old(vRandom)|)], mapInfo)
              && mapInfo[id].refCount == 1 && |old(vvNew)| == NEW_BUCKET_COUNT
              && EntersBucket(old(mapInfo), old(vvNew), vvNew, id, hashes.NewBucket(addr.ip, source), now, dice)
    {
      hide Consistent, FirstSighting, AtMostOneLost, EntersBucket;
      SightingFacts(addr, source, timePenalty, |vRandom|);
      ghost var m := mapInfo;
      NewBuckets(hashes, View());
      var id := CreateNew(addr, source, timePenalty);
      var b := hashes.NewBucket(addr.ip, source);
      ShapeOfPended(hashes, View(), id);
      ghost var before := mapInfo;
      PlaceInBucket(id, b, now, dice);
      SameAddress(before, mapInfo, id);
      KnownEntry(hashes, View(), id);
      RefreshedEnters(m, id, before[id], old(vvNew), vvNew, b, now, dice);
    }

    // ----- connection results -----

    method Attempt(ip: NetAddr, port: nat, time: int)
      requires Valid()
      modifies this`mapInfo
      ensures Valid() && mapInfo.Keys == old(mapInfo).Keys
      ensures forall x :: x in mapInfo ==>
                mapInfo[x] == if mapInfo[x].ip == ip && mapInfo[x].port == port
                              then old(mapInfo)[x].(lastTry := time, attempts := old(mapInfo)[x].attempts + 1)
                              else old(mapInfo)[x]
      ensures old(TimesOk(mapInfo)) && time >= 0 ==> TimesOk(mapInfo)
    {
      hide Consistent;
      OneIdPerAddress(hashes, View(), ip);
      var found, id := Find(ip);
      if !found || mapInfo[id].port != port { return; }
      var info := mapInfo[id].(lastTry := time, attempts := mapInfo[id].attempts + 1);
      TouchKeeps(hashes, View(), {}, id, info);
      mapInfo := mapInfo[id := info];
    }

    method Connected(ip: NetAddr, port: nat, time: int)
      requires Valid()
      modifies this`mapInfo
      ensures Valid() && mapInfo.Keys == old(mapInfo).Keys
      ensures forall x :: x in mapInfo ==>
                mapInfo[x] == if mapInfo[x].ip == ip && mapInfo[x].port == port && time - old(mapInfo)[x].time > 20 * 60
                              then old(mapInfo)[x].(time := time) else old(mapInfo)[x]
      ensures old(TimesOk(mapInfo)) ==> TimesOk(mapInfo)
    {
      hide Consistent;
      OneIdPerAddress(hashes, View(), ip);
      var found, id := Find(ip);
      if !found || mapInfo[id].port != port { return; }
      if time - mapInfo[id].time > 20 * 60 {
        var info := mapInfo[id].(time := time);
        TouchKeeps(hashes, View(), {}, id, info);
        mapInfo := mapInfo[id := info];
      }
    }

    /** Shuffle the first few of a tried bucket and name the place from which the least recent of them was drawn. */
    method SelectTried(k: nat, dice: Dice) returns (pos: nat)
      requires k < |vvTried| && vvTried[k] != [] && NoDuplicates(vvTried[k])
      requires forall x :: x in vvTried[k] ==> x in mapInfo
      modifies this`vvTried
      ensures vvTried == old(vvTried)[k := Shuffled(old(vvTried)[k], dice, Inspected(|old(vvTried)[k]|))]
      ensures multiset(vvTried[k]) == multiset(old(vvTried)[k]) && Reordered(old(vvTried)[k], vvTried[k])
      ensures pos < |vvTried[k]| && DrawnFrom(mapInfo, old(vvTried)[k], dice, pos)
    {
      hide Selecting, Reordered, Shuffled, NoDuplicates, DrawnFrom, SwapSeq, Draw;
      ghost var bucket0 := vvTried[k];
      var bucket := vvTried[k];
      var oldest: Id, chosen := 0, false;
      pos := 0;
      SelectionStarts(mapInfo, bucket0, dice);
      var i := 0;
      while i < TRIED_ENTRIES_INSPECT_ON_EVICT && i < |bucket|
        invariant vvTried == old(vvTried) && 0 <= i <= Inspected(|bucket0|) && |bucket| == |bucket0|
        invariant Selecting(mapInfo, bucket0, bucket, dice, i, chosen, oldest, pos)
      {
        SelectNext(mapInfo, bucket0, bucket, dice, i, chosen, oldest, pos);
        var nPos := Draw(dice, i, |bucket| - i) + i;
        var temp := bucket[nPos];
        bucket := SwapSeq(bucket, i, nPos);
        if !chosen || mapInfo[temp].lastSuccess < mapInfo[oldest].lastSuccess {
          oldest, pos, chosen := temp, nPos, true;
        }
        i := i + 1;
      }
      Selection(mapInfo, bucket0, bucket, dice, chosen, oldest, pos);
      vvTried := vvTried[k := bucket];
    }

    /** Take id out of every new bucket, counting its references down. */
    method ClearNew(id: Id)
      requires id in mapInfo && mapInfo[id].refCount == Count(vvNew, id)
      modifies this`vvNew, this`mapInfo
      ensures vvNew == Cleared(old(vvNew), id)
      ensures mapInfo == old(mapInfo)[id := old(mapInfo)[id].(refCount := 0)]
    {
      ghost var vv := vvNew;
      for b := 0 to |vvNew|
        invariant |vvNew| == |vv|
        invariant forall j :: 0 <= j < |vv| ==> vvNew[j] == if j < b then vv[j] - {id} else vv[j]
        invariant mapInfo == old(mapInfo)[id := old(mapInfo)[id].(refCount := Count(vv, id) - Count(vv[..b], id))]
      {
        assert vv[..b + 1][..b] == vv[..b];
        if id in vvNew[b] {
          vvNew := vvNew[b := vvNew[b] - {id}];
          mapInfo := mapInfo[id := mapInfo[id].(refCount := mapInfo[id].refCount - 1)];
        }
      }
      assert vv[..|vv|] == vv;
    }

    /** The bucket has room: append. */
    method Promote(id: Id, k: nat)
      requires k < |vvTried| && id in mapInfo
      modifies this`vvTried, this`mapInfo, this`nTried
      ensures vvTried == old(vvTried)[k := old(vvTried)[k] + [id]] && nTried == old(nTried) + 1
      ensures mapInfo == old(mapInfo)[id := old(mapInfo)[id].(inTried := true)]
    {
      vvTried := vvTried[k := vvTried[k] + [id]];
      nTried := nTried + 1;
      mapInfo := mapInfo[id := mapInfo[id].(inTried := true)];
    }

    /**
     The bucket is full: the entry at pos goes back to a new bucket, its own if that has room, else the one id left.
     */
    method Replace(id: Id, k: nat, pos: nat, origin: nat) returns (ub: nat)
      requires k < |vvTried| && pos < |vvTried[k]| && id in mapInfo && vvTried[k][pos] in mapInfo
      requires vvTried[k][pos] != id
      requires |vvNew| == NEW_BUCKET_COUNT && origin < |vvNew| && |vvNew[origin]| < NEW_BUCKET_SIZE
      modifies this`vvTried, this`mapInfo, this`vvNew, this`nNew
      ensures ub < |old(vvNew)| && |old(vvNew)[ub]| < NEW_BUCKET_SIZE && nNew == old(nNew) + 1
      ensures ub == Refuge(hashes, old(mapInfo)[old(vvTried)[k][pos]], old(vvNew), origin)
      ensures vvNew == old(vvNew)[ub := old(vvNew)[ub] + {old(vvTried)[k][pos]}]
      ensures vvTried == old(vvTried)[k := Placed(old(vvTried)[k], pos, id)]
      ensures var e := old(vvTried)[k][pos];
              mapInfo == old(mapInfo)[e := old(mapInfo)[e].(refCount := 1, inTried := false)]
                                     [id := old(mapInfo)[id].(inTried := true)]
    {
      var evicted := vvTried[k][pos];
      ub := hashes.NewBucket(mapInfo[evicted].ip, mapInfo[evicted].source);
      mapInfo := mapInfo[evicted := mapInfo[evicted].(inTried := false, refCount := 1)];
      if |vvNew[ub]| >= NEW_BUCKET_SIZE {
        ub := origin;
      }
      vvNew := vvNew[ub := vvNew[ub] + {evicted}];
      nNew := nNew + 1;
      vvTried := vvTried[k := Placed(vvTried[k], pos, id)];
      mapInfo := mapInfo[id := mapInfo[id].(inTried := true)];
    }

    /** MakeTried: move an entry from the new buckets to its tried bucket; no entry is ever lost by it. */
    method MakeTried(id: Id, origin: nat, dice: Dice)
      requires Valid() && origin < |vvNew| && id in vvNew[origin]
      modifies this
      ensures Valid() && mapInfo.Keys == old(mapInfo).Keys && id in mapInfo && mapInfo[id].inTried
      ensures old(nTried) <= nTried <= old(nTried) + 1
      ensures forall x :: x in mapInfo ==>
                && mapInfo[x] == old(mapInfo)[x].(refCount := mapInfo[x].refCount, inTried := mapInfo[x].inTried)
                && (x != id && mapInfo[x].inTried ==> old(mapInfo)[x].inTried)
      ensures hashes.TriedBucket(old(mapInfo)[id]) < |old(vvTried)|
      ensures MadeTried(hashes, old(View()), View(), id, origin, dice)
    {
      hide Consistent, TakesPlace, DrawnFrom;
      ghost var t := View();
      BucketEntry(hashes, t, {}, origin, id);
      MakeTriedFacts(hashes, t, id, origin);
      ClearNew(id);
      nNew := nNew - 1;
      var k := hashes.TriedBucket(mapInfo[id]);
      if |vvTried[k]| < TRIED_BUCKET_SIZE {
        PromoteKeeps(hashes, t, id);
        Promote(id, k);
        assert mapInfo == t.mapInfo[id := t.mapInfo[id].(refCount := 0, inTried := true)];
        return;
      }
      MakeTriedFull(id, origin, k, dice, t);
    }

    method MakeTriedFull(id: Id, origin: nat, k: nat, dice: Dice, ghost t: Tables)
      requires Consistent(hashes, t, {}) && origin < |t.vvNew| && id in t.vvNew[origin] && id in t.mapInfo
      requires !t.mapInfo[id].inTried
      requires k == hashes.TriedBucket(t.mapInfo[id]) && k < |t.vvTried| && |t.vvTried[k]| == TRIED_BUCKET_SIZE
      requires View() == t.(mapInfo := t.mapInfo[id := t.mapInfo[id].(refCount := 0)], vvNew := Cleared(t.vvNew, id),
                            nNew := t.nNew - 1)
      modifies this
      ensures Valid() && mapInfo.Keys == t.mapInfo.Keys && mapInfo[id].inTried && nTried == t.nTried
      ensures forall x :: x in mapInfo ==>
                && mapInfo[x] == t.mapInfo[x].(refCount := mapInfo[x].refCount, inTried := mapInfo[x].inTried)
                && (x != id && mapInfo[x].inTried ==> t.mapInfo[x].inTried)
      ensures exists pos: nat ::
                DrawnFrom(t.mapInfo, t.vvTried[k], dice, pos) && TakesPlace(hashes, t, View(), id, origin, dice, pos)
    {
      hide Consistent, Cleared, DrawnFrom, TakesPlace, Shuffled, Reordered, Evicted, Exchanged, Refuge;
      TriedBucketFacts(hashes, t, k);
      ClearedRoom(hashes, t, id, origin);
      var pos := SelectTried(k, dice);
      SameRecent(t.mapInfo, id, t.vvTried[k], dice, pos);
      ghost var t' := t.(vvTried := t.vvTried[k := vvTried[k]]);
      ReorderConsistent(hashes, t, k, vvTried[k]);
      EvictedEntry(hashes, t', id, k, pos);
      var ub := Replace(id, k, pos, origin);
      ClearedAt(t.vvNew, id, ub);
      EvictKeeps(hashes, t', id, pos, ub);
      ReplacedIs(hashes, t', View(), id, k, pos, ub);
      EvictedTakesPlace(hashes, t, View(), id, origin, dice, pos, ub, t'.vvTried[k]);
    }

    /** Find a new bucket holding id, starting anywhere; there always is one. */
    method FindBucket(id: Id, luck: Dice) returns (b: nat)
      requires Valid() && id in mapInfo && !mapInfo[id].inTried
      ensures b < |vvNew| && id in vvNew[b] && FirstFound(vvNew, id, Draw(luck, 0, |vvNew|), b)
    {
      hide Consistent;
      ghost var home := HomeBucket(hashes, View(), id);
      var rnd := Draw(luck, 0, |vvNew|);
      b := 0;
      for n := 0 to |vvNew|
        invariant forall m :: 0 <= m < n ==> id !in vvNew[Slot(m, rnd, |vvNew|)]
      {
        b := Slot(n, rnd, |vvNew|);
        if id in vvNew[b] { return; }
      }
      ghost var m := SlotOf(home, rnd, |vvNew|);
      assert false;
    }

    method MoveToTried(id: Id, luck: Dice, dice: Dice, time: int, ghost t: Tables)
      requires Valid() && id in mapInfo && !mapInfo[id].inTried
      requires id in t.mapInfo && View() == AfterSuccess(t, id, time)
      modifies this
      ensures Valid() && mapInfo.Keys == old(mapInfo).Keys && mapInfo[id].inTried && nTried >= old(nTried)
      ensures forall x :: x in mapInfo ==>
                && mapInfo[x] == old(mapInfo)[x].(refCount := mapInfo[x].refCount, inTried := mapInfo[x].inTried)
                && (x != id && mapInfo[x].inTried ==> old(mapInfo)[x].inTried)
      ensures BecomesTried(hashes, t, View(), id, time, luck, dice)
    {
      hide Consistent, MadeTried, FirstFound;
      var b := FindBucket(id, luck);
      MakeTried(id, b, dice);
    }

    /**
     Good_: a successful connection makes a known service tried; no address is forgotten.  luck says where the search
     for its bucket starts, dice whom it drives out of a full tried bucket.
     */
    method Good(ip: NetAddr, port: nat, time: int, luck: Dice, dice: Dice)
      requires Valid()
      modifies this
      ensures Valid() && mapInfo.Keys == old(mapInfo).Keys && nTried >= old(nTried)
      ensures forall x :: x in mapInfo && mapInfo[x].ip == ip && mapInfo[x].port == port ==>
                && mapInfo[x].inTried && mapInfo[x].attempts == 0
                && mapInfo[x].lastSuccess == mapInfo[x].lastTry == mapInfo[x].time == time
      ensures forall x :: x in mapInfo && !(mapInfo[x].ip == ip && mapInfo[x].port == port) ==>
                mapInfo[x] == old(mapInfo)[x].(refCount := mapInfo[x].refCount, inTried := mapInfo[x].inTried)
      ensures old(TimesOk(mapInfo)) && time > 0 ==> TimesOk(mapInfo)
      ensures if IsNewService(old(View()), ip, port)
              then BecomesTried(hashes, old(View()), View(), old(mapAddr)[ip], time, luck, dice)
              else vvNew == old(vvNew) && vvTried == old(vvTried)
    {
      hide Consistent, BecomesTried;
      OneIdPerAddress(hashes, View(), ip);
      var found, id := Find(ip);
      if !found || mapInfo[id].port != port { return; }
      var info := mapInfo[id].(lastSuccess := time, lastTry := time, time := time, attempts := 0);
      TouchKeeps(hashes, View(), {}, id, info);
      mapInfo := mapInfo[id := info];
      if info.inTried { return; }
      MoveToTried(id, luck, dice, time, old(View()));
    }

    /** GetAddr_: shuffle a prefix of vRandom and return its entries. */
    method GetAddr(dice: Dice) returns (addrs: seq<AddrInfo>)
      requires Valid()
      modifies this`mapInfo, this`vRandom
      ensures Valid() && OnlyMoved(old(mapInfo), mapInfo) && multiset(vRandom) == multiset(old(vRandom))
      ensures |addrs| == Min(2500, 23 * |old(vRandom)| / 100) <= |vRandom|
      ensures forall i :: 0 <= i < |addrs| ==> vRandom[i] in mapInfo && addrs[i] == mapInfo[vRandom[i]]
      ensures vRandom == Shuffled(old(vRandom), dice, |addrs|)
      ensures forall i :: 0 <= i < |addrs| ==> Known(old(mapInfo), addrs[i].ip)
      ensures forall i, j :: 0 <= i < j < |addrs| ==> addrs[i].ip != addrs[j].ip
      ensures old(TimesOk(mapInfo)) ==> TimesOk(mapInfo)
    {
      hide Consistent, Shuffling, SwapSeq, SwapInfo, OnlyMoved, Known, Shuffled, Draw, OthersStay;
      ghost var start, t := vRandom, View();
      ShufflingStarts(mapInfo, start, dice);
      var nNodes := GETADDR_MAX_PCT * |vRandom| / 100;
      if nNodes > GETADDR_MAX { nNodes := GETADDR_MAX; }
      addrs := [];
      for n := 0 to nNodes
        invariant Valid() && |vRandom| == |start|
        invariant Shuffling(t.mapInfo, mapInfo, start, vRandom, dice, n, addrs)
      {
        ghost var m, v := mapInfo, vRandom;
        var r := Draw(dice, n, |vRandom| - n);
        SwapPlaces(n, r + n);
        NextShuffled(t.mapInfo, m, mapInfo, start, v, vRandom, dice, n, r, addrs);
        addrs := addrs + [mapInfo[vRandom[n]]];
      }
      ShufflingEnds(hashes, t.mapInfo, View(), start, dice, nNodes, addrs);
    }

    method SwapPlaces(p: nat, q: nat)
      requires Valid() && p < |vRandom| && q < |vRandom|
      modifies this`mapInfo, this`vRandom
      ensures Valid() && OnlyMoved(old(mapInfo), mapInfo) && |vRandom| == |old(vRandom)|
      ensures multiset(vRandom) == multiset(old(vRandom)) && vRandom == SwapSeq(old(vRandom), p, q)
      ensures forall i :: 0 <= i < |vRandom| ==> vRandom[i] in mapInfo
      ensures OthersStay(old(mapInfo), old(vRandom), mapInfo, vRandom, p, q)
    {
      hide Consistent, SwapInfo, OthersStay;
      SwapConsistent(hashes, View(), p, q);
      SwapRandom(p, q);
      PlacesKept(old(View()), p, q);
    }
  }

  /** The place visited at step n of a round that starts at rnd. */
  function Slot(n: nat, rnd: nat, size: nat): (b: nat)
    requires size > 0
    ensures b < size
  {
    (n + rnd) % size
  }

  /** A round visits every place. */
  lemma SlotOf(b: nat, rnd: nat, size: nat) returns (n: nat)
    requires b < size && rnd < size
    ensures n < size && Slot(n, rnd, size) == b
  {
    n := if b >= rnd then b - rnd else b + size - rnd;
    QuotientIs(n + rnd, size, if b >= rnd then 0 else 1, b);
  }
}
