/**
 The target that the next block must meet (src/main.cpp:1068-1070, 1097-1335) and the work of a block
 (src/main.h:1734-1741).

 A chain is the sequence of its headers, genesis block first.  The value of the moving average, which the original
 computes in floating point, is a parameter.
 */
module Retarget {
  import opened Arith
  import opened Compact

  datatype Header = Header(time: int, bits: nat)

  /** 2^224 - 1. */
  const LIMIT: nat := 0xFFFF_FFFF_FFFF_FFFF_FFFF_FFFF_FFFF_FFFF_FFFF_FFFF_FFFF_FFFF_FFFF_FFFF

  const TARGET_TIMESPAN: int := 3600
  const INTERVAL: nat := 30
  const BLOCK_TIMESPAN: int := 120

  /** The difficulty of 5254 as a target. */
  function FiveThousands(): int { SetCompact(0x1b0c_7898) }

  function Target(header: Header): int { SetCompact(header.bits) }

  function Clamp(x: int, lo: int, hi: int): int { if x < lo then lo else if x > hi then hi else x }

  /** Division that truncates towards zero. */
  function Truncated(a: int, d: int): int
    requires d > 0
  {
    if a < 0 then -(-a / d) else a / d
  }

  /** The easiest target allowed after a block of the given height. */
  function Easiest(height: nat, target: int): int
  {
    Min(if height > 104290 then Min(target, FiveThousands()) else target, LIMIT)
  }

  function Last(chain: seq<Header>): Header
    requires chain != []
  {
    chain[|chain| - 1]
  }

  /** What the moving average rule wants before any limit: raised for a late block, else scaled by the average. */
  function EmaWanted(chain: seq<Header>, time: int, average: int): int
    requires chain != []
  {
    var height := |chain| - 1;
    if time > Last(chain).time + BLOCK_TIMESPAN * 10 then
      Target(Last(chain)) * if 101631 < height < 103791 then 10 else 2
    else
      var span := Clamp(average, BLOCK_TIMESPAN / 2, BLOCK_TIMESPAN * if height > 110322 then 2 else 4);
      Truncated(Target(Last(chain)) * span, BLOCK_TIMESPAN)
  }

  /** GetEmaNextWorkRequired. */
  function EmaNextWork(chain: seq<Header>, time: int, average: int, testNet: bool): int
    requires chain != []
  {
    if testNet && time > Last(chain).time + BLOCK_TIMESPAN * 10 then GetCompact(LIMIT)
    else GetCompact(Easiest(|chain| - 1, EmaWanted(chain, time, average)))
  }

  /** How many blocks the interval rule looks back. */
  function LookupRange(height: nat, testNet: bool): nat
  {
    if testNet then if height > 89 then INTERVAL else INTERVAL - 1
    else if height > 99988 then INTERVAL * 24 else INTERVAL - 1
  }

  /** The block that the interval rule looks back to exists. */
  lemma LookupSucceeds(height: nat, testNet: bool)
    requires (height + 1) % INTERVAL == 0
    ensures LookupRange(height, testNet) <= height
  {
  }

  function IntervalWanted(chain: seq<Header>, testNet: bool): int
    requires |chain| > 0 && |chain| % INTERVAL == 0
  {
    var height := |chain| - 1;
    LookupSucceeds(height, testNet);
    var first := chain[height - LookupRange(height, testNet)];
    var span := Last(chain).time - first.time;
    var scaled := if height > 101908 then Truncated(span, 3) else if height > 99988 then Truncated(span, 24) else span;
    Truncated(Target(Last(chain)) * Clamp(scaled, TARGET_TIMESPAN / 4, TARGET_TIMESPAN * 4), TARGET_TIMESPAN)
  }

  /** GetNextWorkRequired. */
  function NextWork(chain: seq<Header>, time: int, average: int, testNet: bool): int
  {
    var height := |chain| - 1;
    if chain == [] then GetCompact(LIMIT)
    else if (testNet && height > 5182) || height > 101631 then EmaNextWork(chain, time, average, testNet)
    else if (height + 1) % INTERVAL != 0 then Last(chain).bits
    else GetCompact(Min(IntervalWanted(chain, testNet), LIMIT))
  }

  /** Every block but the first has the target required of it, whatever the moving average was. */
  ghost predicate Accepted(chain: seq<Header>)
  {
    && chain != [] && 0 <= Target(chain[0]) <= LIMIT
    && forall i :: 0 < i < |chain| ==>
         exists average :: chain[i].bits == NextWork(chain[..i], chain[i].time, average, false)
  }

  // ----- limits -----

  lemma {:induction false} BytesBelow(n: nat, k: nat)
    requires n < Pow(256, k)
    ensures Bytes(n) <= k
  {
    if n > 0 {
      assert k > 0 by {
        assert Pow(256, 0) == 1;
      }
      BytesBelow(n / 256, k - 1);
    }
  }

  lemma LimitFits(n: nat)
    requires n <= LIMIT
    ensures Bytes(n) <= 28
  {
    assert Pow(256, 4) == 0x1_0000_0000;
    assert Pow(256, 8) == 0x1_0000_0000_0000_0000 by {
      PowSum(256, 4, 4);
    }
    PowSum(256, 8, 8);
    PowSum(256, 16, 8);
    PowSum(256, 24, 4);
    BytesBelow(n, 28);
  }

  /** A required target below the limit is stored and read back within one part in 2^15 below what was wanted. */
  lemma StoredTarget(wanted: int)
    requires 0 <= wanted <= LIMIT
    ensures GetCompact(wanted) >= 0
    ensures 0 <= SetCompact(GetCompact(wanted)) <= wanted
    ensures 0x8000 * (wanted - SetCompact(GetCompact(wanted))) <= wanted
  {
    hide GetCompact, SetCompact;
    LimitFits(wanted);
    RoundsDown(wanted);
  }

  /** The cap is the number that its compact form spells out. */
  lemma CapIs()
    ensures FiveThousands() == 0x0c_7898 * Pow(256, 24) >= 0
  {
    hide Pow, SetCompact;
    assert Packed(0x0c_7898, 27, false) == 0x1b0c_7898;
    SetCompactIs(0x0c_7898, 27, false);
    MulMono(0, 0x0c_7898, Pow(256, 24));
  }

  /** Scaling by a span within bounds scales within those bounds, up to truncation. */
  lemma ScaledWithin(target: nat, span: int, unit: int, lo: int, hi: int)
    requires unit > 0 && 0 <= lo <= span <= hi
    ensures 0 <= Truncated(target * span, unit)
    ensures target * lo - unit < unit * Truncated(target * span, unit) <= target * hi
  {
    MulMono(lo, span, target);
    MulMono(span, hi, target);
    MulMono(0, lo, target);
    Quotient(target * span, unit);
  }

  lemma Quotient(x: nat, d: int)
    requires d > 0
    ensures 0 <= x / d && x - d < d * (x / d) <= x
  {
    DivideAtMost(x, d);
  }

  /** What the moving average rule wants is not negative and, from height 110323 on, within a factor of two. */
  lemma EmaWantedBounds(chain: seq<Header>, time: int, average: int)
    requires chain != [] && Target(Last(chain)) >= 0
    ensures var wanted, target := EmaWanted(chain, time, average), Target(Last(chain));
            0 <= wanted && (|chain| - 1 > 110322 ==> target - 1 <= 2 * wanted && wanted <= 2 * target)
  {
    hide Target, Truncated;
    var height, target := |chain| - 1, Target(Last(chain));
    if time <= Last(chain).time + BLOCK_TIMESPAN * 10 {
      var hi := if height > 110322 then 240 else 480;
      var span := Clamp(average, 60, hi);
      ScaledWithin(target, span, 120, 60, hi);
    }
  }

  lemma IntervalWantedBounds(chain: seq<Header>, testNet: bool)
    requires |chain| > 0 && |chain| % INTERVAL == 0 && Target(Last(chain)) >= 0
    ensures 0 <= IntervalWanted(chain, testNet)
  {
    hide Target, Truncated;
    var height := |chain| - 1;
    LookupSucceeds(height, testNet);
    var span := Last(chain).time - chain[height - LookupRange(height, testNet)].time;
    var scaled := if height > 101908 then Truncated(span, 3) else if height > 99988 then Truncated(span, 24) else span;
    ScaledWithin(Target(Last(chain)), Clamp(scaled, 900, 14400), 3600, 900, 14400);
  }

  // ----- what the rules want, exactly -----

  /** a is b / d, rounded down. */
  ghost predicate Floored(a: int, b: int, d: int) { d * a <= b < d * a + d }

  /** The stored target is the goal up to the digits that its compact form cannot hold, one part in 2^15. */
  ghost predicate Nearly(stored: int, goal: int) { 0 <= stored <= goal && 0x8000 * (goal - stored) <= goal }

  /** The average in seconds, kept between 60 and 480, or between 60 and 240 above height 110322. */
  ghost predicate AverageKept(height: nat, average: int, span: int)
  {
    if average < 60 then span == 60
    else if height <= 110322 then span == if average <= 480 then average else 480
    else span == if average <= 240 then average else 240
  }

  /** A block more than twenty minutes after its parent. */
  ghost predicate Late(chain: seq<Header>, time: int)
    requires chain != []
  {
    time - chain[|chain| - 1].time > 20 * 60
  }

  /**
   What the moving average rule wants: for a late block ten or two times the target, for any other one the target scaled
   by the average over 120 seconds.
   */
  lemma EmaWantedIs(chain: seq<Header>, time: int, average: int)
    requires chain != [] && Target(Last(chain)) >= 0
    ensures var wanted, target, height := EmaWanted(chain, time, average), SetCompact(Last(chain).bits), |chain| - 1;
            if Late(chain, time)
            then wanted == if 101631 < height < 103791 then 10 * target else 2 * target
            else exists span :: AverageKept(height, average, span) && Floored(wanted, target * span, 120)
  {
    hide SetCompact, Truncated;
    var height, target := |chain| - 1, Target(Last(chain));
    if !Late(chain, time) {
      var span := Clamp(average, 60, if height > 110322 then 240 else 480);
      assert AverageKept(height, average, span);
      MulMono(0, target, span);
      TruncatedIs(target * span, 120);
    }
  }

  lemma TruncatedIs(a: int, d: int)
    requires a >= 0 && d > 0
    ensures Floored(Truncated(a, d), a, d)
  {
    Quotient(a, d);
  }

  /** The cap of difficulty 5254 above height 104290, and the proof-of-work limit. */
  ghost predicate Capped(height: nat, wanted: int, goal: int)
  {
    var cap := 0x0c_7898 * Pow(256, 24);
    if height > 104290 && wanted > cap then goal == cap
    else goal == if wanted > LIMIT then LIMIT else wanted
  }

  lemma CapWithinLimit()
    ensures FiveThousands() == 0x0c_7898 * Pow(256, 24) && FiveThousands() <= LIMIT
  {
    hide Pow, FiveThousands;
    CapIs();
    HighDigits();
  }

  lemma HighDigits()
    ensures Pow(256, 24) == 0x1_0000_0000_0000_0000_0000_0000_0000_0000_0000_0000_0000_0000
  {
    assert Pow(256, 4) == 0x1_0000_0000;
    PowSum(256, 4, 4);
    PowSum(256, 8, 8);
    PowSum(256, 16, 8);
  }

  lemma EasiestIs(height: nat, wanted: int)
    ensures Capped(height, wanted, Easiest(height, wanted))
  {
    hide FiveThousands, Pow;
    CapWithinLimit();
  }

  /** Above height 101631 the required target is what the moving average rule wants, capped and stored. */
  lemma NextTargetIs(chain: seq<Header>, time: int, average: int, testNet: bool)
    requires chain != [] && 0 <= Target(Last(chain)) <= LIMIT
    requires |chain| - 1 > 101631 || (testNet && |chain| - 1 > 5182)
    requires !testNet || !Late(chain, time)
    ensures var bits, height := NextWork(chain, time, average, testNet), |chain| - 1;
            && bits >= 0
            && exists goal :: Capped(height, EmaWanted(chain, time, average), goal) && Nearly(SetCompact(bits), goal)
  {
    hide SetCompact, GetCompact, EmaWanted, FiveThousands, Pow, Capped;
    var height, wanted := |chain| - 1, EmaWanted(chain, time, average);
    EmaWantedBounds(chain, time, average);
    CapIs();
    EasiestIs(height, wanted);
    StoredTarget(Easiest(height, wanted));
    assert Nearly(SetCompact(GetCompact(Easiest(height, wanted))), Easiest(height, wanted));
  }

  /** Blocks that come faster than one in two minutes make the next one harder. */
  lemma FastBlocksRaiseDifficulty(chain: seq<Header>, time: int, average: int)
    requires chain != [] && |chain| - 1 > 101631 && 0 < Target(Last(chain)) <= LIMIT
    requires !Late(chain, time) && average < 120
    ensures var bits := NextWork(chain, time, average, false); bits >= 0 && SetCompact(bits) < Target(Last(chain))
  {
    hide SetCompact, GetCompact, NextWork, EmaWanted, FiveThousands, Pow;
    var height, target, wanted := |chain| - 1, Target(Last(chain)), EmaWanted(chain, time, average);
    EmaWantedIs(chain, time, average);
    var span :| AverageKept(height, average, span) && Floored(wanted, target * span, 120);
    MulMono(span, 119, target);
    NextTargetIs(chain, time, average, false);
  }

  /** Blocks that come more slowly make it easier, unless that would pass the cap or the limit. */
  lemma SlowBlocksLowerDifficulty(chain: seq<Header>, time: int, average: int)
    requires chain != [] && |chain| - 1 > 101631 && 121 <= Target(Last(chain)) <= LIMIT
    requires !Late(chain, time) && average > 120
    ensures var bits, target := NextWork(chain, time, average, false), Target(Last(chain));
            bits >= 0 && (SetCompact(bits) > target || Nearly(SetCompact(bits), LIMIT) ||
              (|chain| - 1 > 104290 && Nearly(SetCompact(bits), FiveThousands())))
  {
    hide SetCompact, GetCompact, NextWork, EmaWanted, FiveThousands, Pow;
    var height, target, wanted := |chain| - 1, Target(Last(chain)), EmaWanted(chain, time, average);
    EmaWantedIs(chain, time, average);
    var span :| AverageKept(height, average, span) && Floored(wanted, target * span, 120);
    MulMono(121, span, target);
    NextTargetIs(chain, time, average, false);
    CapIs();
  }

  /** At exactly two minutes a target in its stored form stays as it is, as long as it is within cap and limit. */
  lemma SteadyBlocksKeepDifficulty(chain: seq<Header>, time: int, was: nat)
    requires chain != [] && |chain| - 1 > 101631 && was <= LIMIT && Last(chain).bits == GetCompact(was)
    requires !Late(chain, time) && Target(Last(chain)) <= FiveThousands()
    ensures NextWork(chain, time, 120, false) == Last(chain).bits
  {
    hide SetCompact, GetCompact, FiveThousands, Round;
    StoredTarget(was);
    LimitFits(was);
    RoundIsStable(was);
    assert Round(was) == Target(Last(chain)) by {
      RoundMeans(was);
    }
    var target := Target(Last(chain));
    QuotientIs(target * 120, 120, target, 0);
  }

  lemma RoundMeans(n: int)
    requires GetCompact(n) >= 0
    ensures Round(n) == SetCompact(GetCompact(n))
  {
  }

  /** A late block is allowed twice the target, or ten times between heights 101631 and 103791, up to cap and limit. */
  lemma LateBlockIsEasier(chain: seq<Header>, time: int, average: int)
    requires chain != [] && |chain| - 1 > 101631 && 0 <= Target(Last(chain)) <= LIMIT && Late(chain, time)
    ensures var bits, target, height := NextWork(chain, time, average, false), Target(Last(chain)), |chain| - 1;
            && bits >= 0
            && exists goal ::
                 Capped(height, if height < 103791 then 10 * target else 2 * target, goal) &&
                   Nearly(SetCompact(bits), goal)
  {
    hide SetCompact, GetCompact, NextWork, EmaWanted, Capped;
    EmaWantedIs(chain, time, average);
    NextTargetIs(chain, time, average, false);
  }

  // ----- the interval rule -----

  /** A time span of blocks divided by d, kept between a quarter of an hour and four hours. */
  ghost predicate SpanKept(raw: int, d: int, span: int)
  {
    if raw < 900 * d then span == 900
    else if raw > 14400 * d then span == 14400
    else Floored(span, raw, d)
  }

  /** How many blocks the time is measured over, and by what it is divided. */
  ghost predicate Measured(height: nat, testNet: bool, blocks: nat, d: int)
  {
    && blocks == (if testNet then if height <= 89 then 29 else 30 else if height <= 99988 then 29 else 720)
    && d == (if height <= 99988 then 1 else if height <= 101908 then 24 else 3)
  }

  lemma SpanIsKept(raw: int, d: int, scaled: int)
    requires d > 0 && scaled == Truncated(raw, d)
    ensures SpanKept(raw, d, Clamp(scaled, 900, 14400))
  {
    if raw >= 0 {
      Quotient(raw, d);
    } else {
      Quotient(-raw, d);
    }
    if scaled < 900 {
      MulMono(scaled + 1, 900, d);
    } else {
      MulMono(900, scaled, d);
      if scaled >= 14400 {
        MulMono(14400, scaled, d);
      } else {
        MulMono(scaled + 1, 14400, d);
      }
    }
  }

  /** What the interval rule wants: the target scaled by the time its last blocks took over one hour. */
  lemma IntervalWantedIs(chain: seq<Header>, testNet: bool)
    requires |chain| > 0 && |chain| % INTERVAL == 0 && Target(Last(chain)) >= 0
    ensures var wanted, height := IntervalWanted(chain, testNet), |chain| - 1;
            exists blocks: nat, d, span ::
              && Measured(height, testNet, blocks, d) && blocks <= height
              && SpanKept(chain[height].time - chain[height - blocks].time, d, span)
              && Floored(wanted, SetCompact(Last(chain).bits) * span, 3600)
  {
    hide SetCompact;
    var height, target := |chain| - 1, Target(Last(chain));
    LookupSucceeds(height, testNet);
    var blocks := LookupRange(height, testNet);
    var d := if height > 101908 then 3 else if height > 99988 then 24 else 1;
    var raw := chain[height].time - chain[height - blocks].time;
    var scaled := if height > 101908 then Truncated(raw, 3) else if height > 99988 then Truncated(raw, 24) else raw;
    var span := Clamp(scaled, 900, 14400);
    SpanIsKept(raw, d, scaled);
    MulMono(0, target, span);
    TruncatedIs(target * span, 3600);
    assert Measured(height, testNet, blocks, d) && Floored(IntervalWanted(chain, testNet), target * span, 3600);
  }

  /**
   Up to height 101631, or 5182 on the test network, the target changes with every thirtieth block only, and then to
   what that rule wants.
   */
  lemma NextIntervalTargetIs(chain: seq<Header>, time: int, average: int, testNet: bool)
    requires chain != [] && |chain| - 1 <= (if testNet then 5182 else 101631) && 0 <= Target(Last(chain)) <= LIMIT
    ensures var bits, wanted := NextWork(chain, time, average, testNet),
                                if |chain| % 30 == 0 then IntervalWanted(chain, testNet) else 0;
            && (|chain| % 30 != 0 ==> bits == Last(chain).bits)
            && (|chain| % 30 == 0 ==>
                 bits >= 0 && Nearly(SetCompact(bits), if wanted > LIMIT then LIMIT else wanted))
  {
    hide SetCompact, GetCompact, IntervalWanted;
    if |chain| % 30 == 0 {
      IntervalWantedBounds(chain, testNet);
      StoredTarget(Min(IntervalWanted(chain, testNet), LIMIT));
    }
  }

  /** On the test network a late block may always have the easiest target. */
  lemma LateOnTestNet(chain: seq<Header>, time: int, average: int)
    requires chain == [] || (|chain| - 1 > 5182 && Late(chain, time))
    ensures NextWork(chain, time, average, true) == GetCompact(LIMIT)
  {
  }

  /** What is required after a block: within the limit, and within the cap above height 104290. */
  lemma NextWithinLimits(chain: seq<Header>, time: int, average: int)
    requires chain != [] && 0 <= Target(Last(chain)) <= LIMIT
    ensures var bits := NextWork(chain, time, average, false);
            bits >= 0 && 0 <= SetCompact(bits) <= LIMIT &&
              (|chain| - 1 > 104290 ==> SetCompact(bits) <= FiveThousands())
  {
    hide SetCompact, GetCompact, EmaWanted, IntervalWanted, FiveThousands;
    var height := |chain| - 1;
    if height > 101631 {
      EmaWantedBounds(chain, time, average);
      CapIs();
      StoredTarget(Easiest(height, EmaWanted(chain, time, average)));
    } else if (height + 1) % INTERVAL == 0 {
      IntervalWantedBounds(chain, false);
      StoredTarget(Min(IntervalWanted(chain, false), LIMIT));
    }
  }

  /** Above height 110322 the target at most doubles, and at most halves up to truncation. */
  lemma NextWithinFactorTwo(chain: seq<Header>, time: int, average: int)
    requires chain != [] && |chain| - 1 > 110322
    requires 0 <= Target(Last(chain)) <= LIMIT && Target(Last(chain)) <= FiveThousands()
    ensures var bits, target := NextWork(chain, time, average, false), Target(Last(chain));
            bits >= 0 && SetCompact(bits) <= 2 * target && 0x1_0000 * SetCompact(bits) >= 0x7FFF * (target - 1)
  {
    hide SetCompact, GetCompact, EmaWanted, FiveThousands;
    EmaWantedBounds(chain, time, average);
    CapIs();
    StoredTarget(Easiest(|chain| - 1, EmaWanted(chain, time, average)));
  }

  /**
   Along every accepted chain no target is negative or beyond the limit, nor beyond the cap once the parent is above
   104290.
   */
  lemma {:induction false} TargetsWithinLimits(chain: seq<Header>, i: nat)
    requires Accepted(chain) && i < |chain|
    ensures 0 <= Target(chain[i]) <= LIMIT && (i - 1 > 104290 ==> Target(chain[i]) <= FiveThousands())
  {
    hide NextWork, SetCompact, FiveThousands;
    if i > 0 {
      TargetsWithinLimits(chain, i - 1);
      var average :| chain[i].bits == NextWork(chain[..i], chain[i].time, average, false);
      NextWithinLimits(chain[..i], chain[i].time, average);
    }
  }

  /** And once the parent is above 110322 the target changes by at most a factor of two per block, up to truncation. */
  lemma TargetsWithinFactorTwo(chain: seq<Header>, i: nat)
    requires Accepted(chain) && 110323 < i < |chain|
    ensures Target(chain[i]) <= 2 * Target(chain[i - 1])
    ensures 0x1_0000 * Target(chain[i]) >= 0x7FFF * (Target(chain[i - 1]) - 1)
  {
    hide NextWork, SetCompact, FiveThousands;
    TargetsWithinLimits(chain, i - 1);
    var average :| chain[i].bits == NextWork(chain[..i], chain[i].time, average, false);
    NextWithinFactorTwo(chain[..i], chain[i].time, average);
  }

  // ----- work -----

  /** GetBlockWork. */
  function BlockWork(bits: nat): int
  {
    var target := SetCompact(bits);
    if target <= 0 then 0 else Pow(2, 256) / (target + 1)
  }

  /** A block that passed the range check of CheckProofOfWork adds at least 2^32 to the work of its chain. */
  lemma WorkIsPositive(bits: nat)
    requires 0 < SetCompact(bits) <= LIMIT
    ensures BlockWork(bits) >= 0x1_0000_0000
  {
    hide SetCompact, Pow;
    var d := SetCompact(bits) + 1;
    PowersOfTwo();
    assert 0x1_0000_0000 * d <= Pow(2, 256);
    var q, r := Pow(2, 256) / d, Pow(2, 256) % d;
    if q < 0x1_0000_0000 {
      MulMono(q + 1, 0x1_0000_0000, d);
      Distribute(q, 1, d);
    }
  }

  /** The work of a block is 2^256 over its target plus one, rounded down; no target, no work. */
  lemma WorkIs(bits: nat)
    ensures var target := SetCompact(bits);
            if target > 0 then Floored(BlockWork(bits), Pow(2, 256), target + 1) else BlockWork(bits) == 0
  {
    hide SetCompact, Pow;
    if SetCompact(bits) > 0 {
      Quotient(Pow(2, 256), SetCompact(bits) + 1);
    }
  }

  /** Half the target is twice the work, up to one part in twice the target and rounding. */
  lemma HalfTargetDoublesWork(a: nat, b: nat)
    requires SetCompact(a) > 0 && SetCompact(b) == 2 * SetCompact(a)
    ensures BlockWork(a) <= 2 * BlockWork(b) + 1
    ensures (SetCompact(b) + 1) * (2 * BlockWork(b)) < (SetCompact(b) + 2) * (BlockWork(a) + 1)
  {
    hide SetCompact, Pow, BlockWork;
    var t, all, more, less := SetCompact(a), Pow(2, 256), BlockWork(a), BlockWork(b);
    WorkIs(a);
    WorkIs(b);
    assert (2 * t + 1) * (2 * less) == 2 * ((2 * t + 1) * less);
    assert (2 * t + 2) * (more + 1) == 2 * ((t + 1) * more + (t + 1));
    assert (2 * less + 2) * (t + 1) == (2 * t + 1) * less + (2 * t + 1) + less + 1;
    if more >= 2 * less + 2 {
      MulMono(2 * less + 2, more, t + 1);
    }
  }

  lemma PowersOfTwo()
    ensures Pow(2, 256) == 0x1_0000_0000 * (LIMIT + 1)
  {
    assert Pow(2, 4) == 16;
    Squared(4, 16);
    Squared(8, 0x100);
    Squared(16, 0x1_0000);
    Squared(32, 0x1_0000_0000);
    Squared(64, 0x1_0000_0000_0000_0000);
    Squared(128, 0x1_0000_0000_0000_0000_0000_0000_0000_0000);
  }

  lemma Squared(k: nat, v: nat)
    requires Pow(2, k) == v
    ensures Pow(2, 2 * k) == v * v
  {
    PowSum(2, k, k);
  }

  /** Less target is more work. */
  lemma WorkIsAntitone(a: nat, b: nat)
    requires 0 < SetCompact(a) <= SetCompact(b)
    ensures BlockWork(a) >= BlockWork(b)
  {
    hide SetCompact, Pow;
    DivideAntitone(Pow(2, 256), SetCompact(a) + 1, SetCompact(b) + 1);
  }

  lemma DivideAntitone(n: nat, d: nat, e: nat)
    requires 1 <= d <= e
    ensures n / d >= n / e
  {
    var p, q := n / d, n / e;
    Quotient(n, e);
    Quotient(n, d);
    MulMono(d, e, q);
    if p < q {
      MulMono(p + 1, q, d);
      Distribute(p, 1, d);
    }
  }
}
