/**
 The median time past of a block and the rule on block times (src/main.h:1751-1767, src/main.cpp:2331).

 A chain is the sequence of its block times, genesis block first.
 */
module MedianTime {

  const MEDIAN_TIME_SPAN: nat := 11

  predicate Ascending(s: seq<int>)
  {
    forall i, j :: 0 <= i < j < |s| ==> s[i] <= s[j]
  }

  function Insert(s: seq<int>, x: int): (r: seq<int>)
    ensures |r| == |s| + 1
  {
    if s == [] || s[|s| - 1] <= x then s + [x] else Insert(s[..|s| - 1], x) + [s[|s| - 1]]
  }

  /** std::sort. */
  function Sort(s: seq<int>): (r: seq<int>)
    ensures |r| == |s|
  {
    if s == [] then [] else Insert(Sort(s[..|s| - 1]), s[|s| - 1])
  }

  lemma {:induction false} InsertKeepsOrder(s: seq<int>, x: int, top: int)
    requires Ascending(s) && x <= top && (s == [] || s[|s| - 1] <= top)
    ensures Ascending(Insert(s, x)) && forall i :: 0 <= i < |s| + 1 ==> Insert(s, x)[i] <= top
  {
    if s != [] && s[|s| - 1] > x {
      InsertKeepsOrder(s[..|s| - 1], x, s[|s| - 1]);
    }
  }

  lemma {:induction false} InsertAdds(s: seq<int>, x: int)
    ensures multiset(Insert(s, x)) == multiset(s) + multiset{x}
  {
    if s != [] && s[|s| - 1] > x {
      InsertAdds(s[..|s| - 1], x);
      assert s == s[..|s| - 1] + [s[|s| - 1]];
    }
  }

  /** Sorting puts the elements in ascending order. */
  lemma {:induction false} SortOrders(s: seq<int>)
    ensures Ascending(Sort(s))
  {
    if s != [] {
      hide Insert;
      var n := |s| - 1;
      SortOrders(s[..n]);
      var front := Sort(s[..n]);
      InsertKeepsOrder(front, s[n], if n > 0 && front[n - 1] > s[n] then front[n - 1] else s[n]);
    }
  }

  /** And neither adds nor drops any. */
  lemma {:induction false} SortPermutes(s: seq<int>)
    ensures multiset(Sort(s)) == multiset(s)
  {
    if s != [] {
      hide Insert;
      var n := |s| - 1;
      SortPermutes(s[..n]);
      InsertAdds(Sort(s[..n]), s[n]);
      assert s == s[..n] + [s[n]];
    }
  }

  /** The times of the last blocks, eleven of them or as many as there are. */
  function Window(times: seq<int>): (w: seq<int>)
    ensures |w| == if |times| < MEDIAN_TIME_SPAN then |times| else MEDIAN_TIME_SPAN
  {
    if |times| <= MEDIAN_TIME_SPAN then times else times[|times| - MEDIAN_TIME_SPAN..]
  }

  function Median(s: seq<int>): int
    requires s != []
  {
    Sort(s)[|s| / 2]
  }

  /** The median time past of the last block of a chain. */
  function MedianTimePast(times: seq<int>): int
    requires times != []
  {
    Median(Window(times))
  }

  /** Every block but the first is later than the median time past of its parent. */
  ghost predicate Accepted(times: seq<int>)
  {
    times != [] && forall i :: 0 < i < |times| ==> times[i] > MedianTimePast(times[..i])
  }

  /** How many elements are smaller than x. */
  function CountBelow(s: seq<int>, x: int): nat
  {
    if s == [] then 0 else CountBelow(s[..|s| - 1], x) + if s[|s| - 1] < x then 1 else 0
  }

  lemma {:induction false} CountBelowConcat(a: seq<int>, b: seq<int>, x: int)
    ensures CountBelow(a + b, x) == CountBelow(a, x) + CountBelow(b, x)
  {
    if b == [] {
      assert a + b == a;
    } else {
      var n := |b| - 1;
      assert (a + b)[..|a + b| - 1] == a + b[..n];
      CountBelowConcat(a, b[..n], x);
    }
  }

  /** The count does not depend on the order. */
  lemma {:induction false} CountBelowPermuted(a: seq<int>, b: seq<int>, x: int)
    requires multiset(a) == multiset(b)
    ensures CountBelow(a, x) == CountBelow(b, x)
    decreases |a|
  {
    if a == [] {
      assert |b| == |multiset(b)| == 0;
    } else {
      var n := |a| - 1;
      var last := a[n];
      assert a == a[..n] + [last];
      assert last in multiset(b);
      var k :| 0 <= k < |b| && b[k] == last;
      assert b == b[..k] + [last] + b[k + 1..];
      assert multiset(a) == multiset(a[..n]) + multiset{last};
      assert multiset(b) == multiset(b[..k] + b[k + 1..]) + multiset{last};
      assert multiset(a[..n]) == multiset(a) - multiset{last} == multiset(b[..k] + b[k + 1..]);
      CountBelowPermuted(a[..n], b[..k] + b[k + 1..], x);
      CountBelowConcat(b[..k], b[k + 1..], x);
      CountBelowConcat(b[..k] + [last], b[k + 1..], x);
      CountBelowConcat(b[..k], [last], x);
      CountBelowConcat(a[..n], [last], x);
    }
  }

  /** In an ascending sequence, position k is at least x exactly when at most k elements are smaller than x. */
  lemma {:induction false} RankOf(s: seq<int>, k: nat, x: int)
    requires Ascending(s) && k < |s|
    ensures s[k] >= x <==> CountBelow(s, x) <= k
  {
    hide CountBelow;
    if s[k] >= x {
      assert s == s[..k] + s[k..];
      CountBelowConcat(s[..k], s[k..], x);
      NoneBelow(s[k..], x);
      CountAtMost(s[..k], x);
    } else {
      assert s == s[..k + 1] + s[k + 1..];
      CountBelowConcat(s[..k + 1], s[k + 1..], x);
      AllBelow(s[..k + 1], x);
    }
  }

  lemma {:induction false} NoneBelow(s: seq<int>, x: int)
    requires forall i :: 0 <= i < |s| ==> s[i] >= x
    ensures CountBelow(s, x) == 0
  {
    if s != [] {
      NoneBelow(s[..|s| - 1], x);
    }
  }

  lemma {:induction false} AllBelow(s: seq<int>, x: int)
    requires forall i :: 0 <= i < |s| ==> s[i] < x
    ensures CountBelow(s, x) == |s|
  {
    if s != [] {
      AllBelow(s[..|s| - 1], x);
    }
  }

  lemma {:induction false} CountAtMost(s: seq<int>, x: int)
    ensures CountBelow(s, x) <= |s|
  {
    if s != [] {
      CountAtMost(s[..|s| - 1], x);
    }
  }

  /** The median is at least x exactly when at most half the elements are smaller. */
  lemma MedianAtLeast(s: seq<int>, x: int)
    requires s != []
    ensures Median(s) >= x <==> CountBelow(s, x) <= |s| / 2
  {
    SortOrders(s);
    SortPermutes(s);
    RankOf(Sort(s), |s| / 2, x);
    CountBelowPermuted(Sort(s), s, x);
  }

  /** A block later than the median time past does not lower it, also while the window still grows. */
  lemma MedianDoesNotDrop(times: seq<int>, time: int)
    requires times != [] && time > MedianTimePast(times)
    ensures MedianTimePast(times + [time]) >= MedianTimePast(times)
  {
    hide CountBelow, Median;
    var w, w' := Window(times), Window(times + [time]);
    var m := Median(w);
    MedianAtLeast(w, m);
    MedianAtLeast(w', m);
    CountBelowConcat(w, [time], m);
    NoneBelow([time], m);
    if |times| >= MEDIAN_TIME_SPAN {
      assert w + [time] == [w[0]] + w';
      CountBelowConcat([w[0]], w', m);
    } else {
      assert w + [time] == w';
    }
  }

  /** Along every accepted chain the median time past never decreases. */
  lemma {:induction false} MedianNeverDecreases(times: seq<int>, i: nat, j: nat)
    requires Accepted(times) && 0 < i <= j <= |times|
    ensures MedianTimePast(times[..i]) <= MedianTimePast(times[..j])
    decreases j
  {
    hide MedianTimePast;
    if i < j {
      MedianNeverDecreases(times, i, j - 1);
      assert times[..j] == times[..j - 1] + [times[j - 1]];
      MedianDoesNotDrop(times[..j - 1], times[j - 1]);
    }
  }

  /** So every block is later than the median time past of each of its ancestors. */
  lemma LaterThanEveryAncestor(times: seq<int>, i: nat, j: nat)
    requires Accepted(times) && 0 < i <= j < |times|
    ensures times[j] > MedianTimePast(times[..i])
  {
    MedianNeverDecreases(times, i, j);
  }

  /** GetMedianTimePast: walk back up to eleven blocks, sort what was found, take the middle. */
  method GetMedianTimePast(times: seq<int>) returns (median: int)
    requires times != []
    ensures median == MedianTimePast(times)
  {
    var found: seq<int> := [];
    var index := |times| - 1;
    var i := 0;
    while i < MEDIAN_TIME_SPAN && index >= 0
      invariant 0 <= i <= MEDIAN_TIME_SPAN && index == |times| - 1 - i >= -1
      invariant found == times[index + 1..]
    {
      assert times[index..] == [times[index]] + times[index + 1..];
      found := [times[index]] + found;
      i, index := i + 1, index - 1;
    }
    assert found == Window(times);
    var sorted := Sort(found);
    median := sorted[|sorted| / 2];
  }
}
