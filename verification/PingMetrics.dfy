/** Latency statistics: the mean, and the nearest-rank 95th percentile. */
module PingMetrics {
  import opened Wrappers
  import opened Sorting

  predicate AtMost(a: real, b: real) { a <= b }

  function Sum(xs: seq<real>): real {
    if xs == [] then 0.0 else Sum(xs[..|xs| - 1]) + xs[|xs| - 1]
  }

  function MeanLatency(xs: seq<real>): Option<real> {
    if xs == [] then None else Some(Sum(xs) / (|xs| as real))
  }

  /** How far the samples lie from `m`, taken together. */
  ghost function Deviations(xs: seq<real>, m: real): real {
    if xs == [] then 0.0 else (xs[0] - m) + Deviations(xs[1..], m)
  }

  lemma {:induction false} SumFromFront(xs: seq<real>)
    requires xs != []
    ensures Sum(xs) == xs[0] + Sum(xs[1..])
  {
    if |xs| > 1 {
      SumFromFront(xs[..|xs| - 1]);
      assert xs[..|xs| - 1][1..] == xs[1..][..|xs| - 2];
    } else {
      assert xs[..0] == [] == xs[1..];
    }
  }

  lemma {:induction false} DeviationsAre(xs: seq<real>, m: real)
    ensures Deviations(xs, m) == Sum(xs) - m * (|xs| as real)
  {
    if xs != [] {
      DeviationsAre(xs[1..], m);
      SumFromFront(xs);
      assert |xs| as real == |xs[1..]| as real + 1.0;
      assert m * (|xs| as real) == m * (|xs[1..]| as real) + m;
    }
  }

  /** The mean is the one value from which the samples deviate by nothing on balance. */
  lemma MeanIsBalanced(xs: seq<real>, m: real)
    requires xs != []
    ensures MeanLatency(xs) == Some(m) <==> Deviations(xs, m) == 0.0
  {
    hide Sum, Deviations;
    DeviationsAre(xs, m);
    var n := |xs| as real;
    assert Sum(xs) / n * n == Sum(xs);
    if Sum(xs) == m * n { Cancel(Sum(xs) / n, m, n); }
  }

  lemma Cancel(a: real, b: real, n: real)
    requires n > 0.0 && a * n == b * n
    ensures a == b
  {
    assert a == a * n / n;
  }

  /** `ceil(0.95 * n) - 1`, in exact arithmetic. */
  function RankIndex(n: nat): int {
    (19 * n + 19) / 20 - 1
  }

  function P95Latency(xs: seq<real>): Option<real> {
    if xs == [] then None else
      SortPermutes(xs, AtMost);
      var s := Sort(xs, AtMost);
      var idx := RankIndex(|s|);
      Some(s[if idx < 0 then 0 else if idx > |s| - 1 then |s| - 1 else idx])
  }

  function CountAtMost(xs: seq<real>, x: real): nat {
    if xs == [] then 0 else CountAtMost(xs[1..], x) + if xs[0] <= x then 1 else 0
  }

  /** At least 95% of the samples are at most `x`. */
  predicate Covers95(xs: seq<real>, x: real) {
    20 * CountAtMost(xs, x) >= 19 * |xs|
  }

  lemma RealOrder()
    ensures Total(AtMost) && Transitive(AtMost) && Antisymmetric(AtMost)
  {
  }

  lemma {:induction false} CountAfterInsert(y: real, s: seq<real>, x: real)
    ensures CountAtMost(Insert(y, s, AtMost), x) == CountAtMost(s, x) + if y <= x then 1 else 0
  {
    if s != [] && !AtMost(y, s[0]) { CountAfterInsert(y, s[1..], x); }
  }

  lemma {:induction false} CountAfterSort(xs: seq<real>, x: real)
    ensures CountAtMost(Sort(xs, AtMost), x) == CountAtMost(xs, x)
  {
    if xs != [] {
      CountAfterSort(xs[1..], x);
      CountAfterInsert(xs[0], Sort(xs[1..], AtMost), x);
    }
  }

  lemma {:induction false} CountOfSorted(s: seq<real>, x: real, k: nat)
    requires Sorted(s, AtMost) && k <= |s|
    ensures (forall i :: 0 <= i < k ==> s[i] <= x) ==> CountAtMost(s, x) >= k
    ensures (forall i :: k <= i < |s| ==> s[i] > x) ==> CountAtMost(s, x) <= k
  {
    if s != [] {
      assert forall i :: 0 <= i < |s[1..]| ==> s[1..][i] == s[i + 1];
      CountOfSorted(s[1..], x, if k == 0 then 0 else k - 1);
    }
  }

  /** The clamp around the index never changes it. */
  lemma RankInRange(n: nat)
    requires n > 0
    ensures 0 <= RankIndex(n) <= n - 1
    ensures 20 * (RankIndex(n) + 1) >= 19 * n > 20 * RankIndex(n)
  {
  }

  /** The sample at position `k` of a sorted list covers `k + 1` samples, smaller ones at most `k`. */
  lemma CoverageAt(s: seq<real>, k: nat, y: real)
    requires Sorted(s, AtMost) && k < |s|
    ensures CountAtMost(s, s[k]) >= k + 1
    ensures y < s[k] ==> CountAtMost(s, y) <= k
  {
    hide CountAtMost;
    CountOfSorted(s, s[k], k + 1);
    CountOfSorted(s, y, k);
    forall i | 0 <= i < k + 1 ensures s[i] <= s[k] { assert i < k ==> AtMost(s[i], s[k]); }
    forall i | k <= i < |s| ensures s[k] <= s[i] { assert k < i ==> AtMost(s[k], s[i]); }
  }

  /** The reported value is the least sample that covers 95% of the samples. */
  lemma P95IsNearestRank(xs: seq<real>)
    requires xs != []
    ensures var x := P95Latency(xs).value;
            && x in xs && Covers95(xs, x)
            && forall y :: y in xs && Covers95(xs, y) ==> x <= y
  {
    hide Sort, CountAtMost, Sorted;
    RealOrder();
    SortPermutes(xs, AtMost);
    SortSorted(xs, AtMost);
    var s, idx := Sort(xs, AtMost), RankIndex(|xs|);
    RankInRange(|xs|);
    CountAfterSort(xs, s[idx]);
    CoverageAt(s, idx, s[idx]);
    assert s[idx] in s;
    forall y | y in xs && Covers95(xs, y) ensures s[idx] <= y {
      CountAfterSort(xs, y);
      CoverageAt(s, idx, y);
    }
  }

  lemma P95IgnoresOrder(xs: seq<real>, ys: seq<real>)
    requires multiset(xs) == multiset(ys)
    ensures P95Latency(xs) == P95Latency(ys)
  {
    RealOrder();
    SortCanonical(xs, ys, AtMost);
    assert |multiset(xs)| == |xs| && |multiset(ys)| == |ys|;
  }
}
