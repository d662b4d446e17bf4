/**
 The stored form of the address manager (src/addrman.h:248-380): the new entries, the tried entries, and for every new
 bucket the positions of its members among the new entries.  Everything else is rebuilt when it is read.
 */
module AddrDisk {
  import opened AddrTables
  import opened AddrMan

  /** What is stored of an entry; the time of the last attempt is not. */
  datatype Stored = Stored(
    ip: NetAddr, port: nat, services: bv64, time: int, source: NetAddr, lastSuccess: int, attempts: int)

  datatype Image = Image(
    nNew: nat, nTried: nat, bucketCount: nat, newInfos: seq<Stored>, triedInfos: seq<Stored>, buckets: seq<seq<Id>>)

  function Store(info: AddrInfo): Stored
  {
    Stored(info.ip, info.port, info.services, info.time, info.source, info.lastSuccess, info.attempts)
  }

  /** An entry as it is after reading, at a place of vRandom. */
  function Loaded(s: Stored, refCount: int, inTried: bool, randomPos: int): AddrInfo
  {
    AddrInfo(s.ip, s.port, s.services, s.time, s.source, s.lastSuccess, 0, s.attempts, refCount, inTried, randomPos)
  }

  const EMPTY_INFO := AddrInfo(0, 0, 0, 0, 0, 0, 0, 0, 0, false, -1)

  // ----- reading -----

  function Emptied(image: Image): Tables
  {
    Tables(0, map[], map[], [], image.nTried, seq(TRIED_BUCKET_COUNT, _ => []), image.nNew,
           seq(NEW_BUCKET_COUNT, _ => {}))
  }

  /** One new entry; when the number of buckets has changed it goes into the bucket of its source. */
  function AddNew(h: Hashes, t: Tables, n: Id, s: Stored, rebuild: bool): Tables
    requires |t.vvNew| == NEW_BUCKET_COUNT
  {
    var info := Loaded(s, if rebuild then 1 else 0, false, |t.vRandom|);
    var b := h.NewBucket(s.ip, s.source);
    t.(mapInfo := t.mapInfo[n := info], mapAddr := t.mapAddr[s.ip := n], vRandom := t.vRandom + [n],
       vvNew := if rebuild then t.vvNew[b := t.vvNew[b] + {n}] else t.vvNew)
  }

  /** One tried entry; it is lost when its bucket is full. */
  function AddTried(h: Hashes, t: Tables, s: Stored): Tables
    requires |t.vvTried| == TRIED_BUCKET_COUNT
  {
    var info := Loaded(s, 0, true, |t.vRandom|);
    var b := h.TriedBucket(info);
    if |t.vvTried[b]| < TRIED_BUCKET_SIZE then
      t.(idCount := t.idCount + 1, mapInfo := t.mapInfo[t.idCount := info], mapAddr := t.mapAddr[s.ip := t.idCount],
         vRandom := t.vRandom + [t.idCount], vvTried := t.vvTried[b := t.vvTried[b] + [t.idCount]])
    else t.(nTried := t.nTried - 1)
  }

  /** One member of a new bucket. */
  function AddRef(t: Tables, b: nat, n: Id, use: bool): Tables
    requires b < |t.vvNew|
  {
    var info := if n in t.mapInfo then t.mapInfo[n] else EMPTY_INFO;
    if use && info.refCount < NEW_BUCKETS_PER_ADDRESS then
      t.(mapInfo := t.mapInfo[n := info.(refCount := info.refCount + 1)], vvNew := t.vvNew[b := t.vvNew[b] + {n}])
    else t.(mapInfo := t.mapInfo[n := info])
  }

  predicate Rebuild(image: Image) { image.bucketCount != NEW_BUCKET_COUNT }

  predicate WellFormed(image: Image)
  {
    && |image.newInfos| == image.nNew && |image.triedInfos| == image.nTried
    && |image.buckets| == image.bucketCount <= NEW_BUCKET_COUNT
  }

  /** The tables after the first k new entries. */
  function ReadNew(h: Hashes, image: Image, k: nat): (t: Tables)
    requires k <= |image.newInfos|
    ensures |t.vvNew| == NEW_BUCKET_COUNT && |t.vvTried| == TRIED_BUCKET_COUNT
  {
    if k == 0 then Emptied(image) else AddNew(h, ReadNew(h, image, k - 1), k - 1, image.newInfos[k - 1], Rebuild(image))
  }

  /** The tables after all new entries and the first k tried ones. */
  function ReadTried(h: Hashes, image: Image, k: nat): (t: Tables)
    requires k <= |image.triedInfos|
    ensures |t.vvNew| == NEW_BUCKET_COUNT && |t.vvTried| == TRIED_BUCKET_COUNT
  {
    if k == 0 then ReadNew(h, image, |image.newInfos|).(idCount := image.nNew)
    else AddTried(h, ReadTried(h, image, k - 1), image.triedInfos[k - 1])
  }

  /** The tables after some members of a bucket. */
  function ReadMembers(t: Tables, b: nat, members: seq<Id>, use: bool): (r: Tables)
    requires b < |t.vvNew|
    ensures |r.vvNew| == |t.vvNew|
  {
    if members == [] then t
    else AddRef(ReadMembers(t, b, members[..|members| - 1], use), b, members[|members| - 1], use)
  }

  /** The tables after all entries and the first k buckets. */
  function ReadBuckets(h: Hashes, image: Image, k: nat): (t: Tables)
    requires WellFormed(image) && k <= |image.buckets|
    ensures |t.vvNew| == NEW_BUCKET_COUNT
  {
    if k == 0 then ReadTried(h, image, |image.triedInfos|)
    else ReadMembers(ReadBuckets(h, image, k - 1), k - 1, image.buckets[k - 1], !Rebuild(image))
  }

  function ReadAll(h: Hashes, image: Image): Tables
    requires WellFormed(image)
  {
    ReadBuckets(h, image, |image.buckets|)
  }

  method Read(m: Manager, image: Image)
    requires WellFormed(image)
    modifies m
    ensures m.View() == ReadAll(m.hashes, image)
  {
    hide ReadNew, ReadTried, ReadBuckets, ReadMembers;
    var h := m.hashes;
    FirstSteps(h, image);
    m.nNew, m.nTried := image.nNew, image.nTried;
    m.idCount, m.mapInfo, m.mapAddr, m.vRandom := 0, map[], map[], [];
    m.vvTried, m.vvNew := seq(TRIED_BUCKET_COUNT, _ => []), seq(NEW_BUCKET_COUNT, _ => {});
    for n := 0 to image.nNew
      invariant m.View() == ReadNew(h, image, n)
    {
      NewStep(h, image, n);
      var s := image.newInfos[n];
      var rebuild := image.bucketCount != NEW_BUCKET_COUNT;
      m.mapAddr := m.mapAddr[s.ip := n];
      m.mapInfo := m.mapInfo[n := Loaded(s, if rebuild then 1 else 0, false, |m.vRandom|)];
      m.vRandom := m.vRandom + [n];
      if rebuild {
        var b := h.NewBucket(s.ip, s.source);
        m.vvNew := m.vvNew[b := m.vvNew[b] + {n}];
      }
    }
    m.idCount := image.nNew;
    ReadTriedEntries(m, image);
    for b := 0 to image.bucketCount
      invariant m.View() == ReadBuckets(h, image, b)
    {
      BucketStep(h, image, b);
      ReadBucket(m, b, image.buckets[b], image.bucketCount == NEW_BUCKET_COUNT);
    }
  }

  lemma NewStep(h: Hashes, image: Image, k: nat)
    requires k < |image.newInfos|
    ensures ReadNew(h, image, k + 1) == AddNew(h, ReadNew(h, image, k), k, image.newInfos[k], Rebuild(image))
  {
  }

  lemma TriedStep(h: Hashes, image: Image, k: nat)
    requires k < |image.triedInfos|
    ensures ReadTried(h, image, k + 1) == AddTried(h, ReadTried(h, image, k), image.triedInfos[k])
  {
  }

  lemma BucketStep(h: Hashes, image: Image, k: nat)
    requires WellFormed(image) && k < |image.buckets|
    ensures ReadBuckets(h, image, k + 1) == ReadMembers(ReadBuckets(h, image, k), k, image.buckets[k], !Rebuild(image))
  {
  }

  lemma FirstSteps(h: Hashes, image: Image)
    requires WellFormed(image)
    ensures ReadNew(h, image, 0) == Emptied(image)
    ensures ReadTried(h, image, 0) == ReadNew(h, image, |image.newInfos|).(idCount := image.nNew)
    ensures ReadBuckets(h, image, 0) == ReadTried(h, image, |image.triedInfos|)
  {
  }

  method ReadTriedEntries(m: Manager, image: Image)
    requires WellFormed(image) && m.View() == ReadTried(m.hashes, image, 0)
    modifies m
    ensures m.View() == ReadTried(m.hashes, image, image.nTried)
  {
    hide ReadTried;
    var lost := 0;
    for n := 0 to image.nTried
      invariant m.View().(nTried := m.nTried - lost) == ReadTried(m.hashes, image, n)
    {
      TriedStep(m.hashes, image, n);
      var s := image.triedInfos[n];
      var info := Loaded(s, 0, true, |m.vRandom|);
      var b := m.hashes.TriedBucket(info);
      assert |m.vvTried| == |m.View().(nTried := m.nTried - lost).vvTried|;
      if |m.vvTried[b]| < TRIED_BUCKET_SIZE {
        m.vRandom := m.vRandom + [m.idCount];
        m.mapInfo := m.mapInfo[m.idCount := info];
        m.mapAddr := m.mapAddr[s.ip := m.idCount];
        m.vvTried := m.vvTried[b := m.vvTried[b] + [m.idCount]];
        m.idCount := m.idCount + 1;
      } else {
        lost := lost + 1;
      }
    }
    m.nTried := m.nTried - lost;
  }

  method ReadBucket(m: Manager, b: nat, members: seq<Id>, use: bool)
    requires b < |m.vvNew|
    modifies m
    ensures m.View() == ReadMembers(old(m.View()), b, members, use)
  {
    for k := 0 to |members|
      invariant |m.vvNew| == old(|m.vvNew|) && m.View() == ReadMembers(old(m.View()), b, members[..k], use)
    {
      assert members[..k + 1][..k] == members[..k];
      var n := members[k];
      if n !in m.mapInfo {
        m.mapInfo := m.mapInfo[n := EMPTY_INFO];
      }
      var info := m.mapInfo[n];
      if use && info.refCount < NEW_BUCKETS_PER_ADDRESS {
        m.mapInfo := m.mapInfo[n := info.(refCount := info.refCount + 1)];
        m.vvNew := m.vvNew[b := m.vvNew[b] + {n}];
      }
    }
    assert members[..|members|] == members;
  }
}
