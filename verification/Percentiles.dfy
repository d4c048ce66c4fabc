/**
  The three order statistics of the telemetry scripts: the nearest-rank percentile of the FABLE
  comparison, and the floor-rank percentile and median of the driving-event analysis.
*/
module Percentiles {
  import opened Options
  import opened Sorting

  predicate AtMost(a: real, b: real) {
    a <= b
  }

  function SortNumbers(nums: seq<real>): seq<real> {
    StableSort(nums, AtMost)
  }

  function Ceiling(x: real): int {
    -(-x).Floor
  }

  /** p percent of n samples, before any rounding. */
  function Quota(n: nat, p: real): real {
    p / 100.0 * n as real
  }

  function NearestRank(n: nat, quota: real): int {
    var idx := Ceiling(quota) - 1;
    var capped := if n - 1 < idx then n - 1 else idx;
    if capped < 0 then 0 else capped
  }

  function FloorRank(n: nat, quota: real): int {
    var idx := quota.Floor;
    if n - 1 < idx then n - 1 else idx
  }

  function FableRank(n: nat, p: real): int {
    NearestRank(n, Quota(n, p))
  }

  function PctRank(n: nat, p: real): int {
    FloorRank(n, Quota(n, p))
  }

  function FablePct(sorted: seq<real>, p: real): Option<real> {
    if sorted == [] then None else Some(sorted[FableRank(|sorted|, p)])
  }

  /** A negative rank indexes outside the array, which yields no value. */
  function Pct(nums: seq<real>, p: real): Option<real> {
    var s := SortNumbers(nums);
    var idx := PctRank(|s|, p);
    if nums == [] || idx < 0 || |s| <= idx then None else Some(s[idx])
  }

  function Median(nums: seq<real>): Option<real> {
    var s := SortNumbers(nums);
    if nums == [] || s == [] then None
    else
      var mid := |s| / 2;
      Some(if |s| % 2 == 0 then (s[mid - 1] + s[mid]) / 2.0 else s[mid])
  }

  /** How many samples are at most `x`. */
  ghost function CountAtMost(s: seq<real>, x: real): nat {
    if s == [] then 0
    else CountAtMost(s[..|s| - 1], x) + (if s[|s| - 1] <= x then 1 else 0)
  }

  lemma {:induction false} CountBounds(s: seq<real>, i: nat, x: real)
    requires SortedBy(s, AtMost) && i <= |s|
    ensures CountAtMost(s, x) <= |s|
    ensures i < |s| && s[i] <= x ==> i + 1 <= CountAtMost(s, x)
    ensures i < |s| && x < s[i] ==> CountAtMost(s, x) <= i
  {
    if s != [] {
      var front := s[..|s| - 1];
      CountBounds(front, if i < |front| then i else |front|, x);
      if i < |s| {
        assert i < |s| - 1 ==> AtMost(s[i], s[|s| - 1]);
        if i == |s| - 1 && i > 0 {
          assert AtMost(s[i - 1], s[i]);
          CountBounds(front, i - 1, x);
        }
      }
    }
  }

  lemma ScaleMonotone(p: real, q: real, n: nat)
    requires p <= q
    ensures Quota(n, p) <= Quota(n, q)
  {
  }

  lemma QuotaRange(n: nat, p: real)
    requires n > 0 && 0.0 < p <= 100.0
    ensures 0.0 < Quota(n, p) <= n as real
    ensures Quota(n, p) == n as real <==> p == 100.0
  {
  }

  /**
    The nearest-rank percentile is the least sample with at least p percent of all samples at or
    below it.
   */
  lemma FablePctIsNearestRank(sorted: seq<real>, p: real)
    requires SortedBy(sorted, AtMost) && sorted != [] && 0.0 < p <= 100.0
    ensures FablePct(sorted, p).Some?
    ensures var x, needed := FablePct(sorted, p).value, p / 100.0 * |sorted| as real;
      && x in sorted
      && CountAtMost(sorted, x) as real >= needed
      && (forall y :: y in sorted && CountAtMost(sorted, y) as real >= needed ==> x <= y)
  {
    QuotaRange(|sorted|, p);
    var rank := FableRank(|sorted|, p);
    var x := sorted[rank];
    CountBounds(sorted, rank, x);
    forall y | y in sorted && CountAtMost(sorted, y) as real >= Quota(|sorted|, p) ensures x <= y {
      CountBounds(sorted, rank, y);
    }
  }

  lemma {:induction false} CountOfPermutation(s: seq<real>, t: seq<real>, x: real)
    requires multiset(s) == multiset(t)
    ensures CountAtMost(s, x) == CountAtMost(t, x)
  {
    if s == [] {
      assert |multiset(t)| == 0;
    } else {
      var a, b := SplitAtHead(s, t);
      CountOfPermutation(s[1..], a + b, x);
      CountConcat(a, [s[0]] + b, x);
      CountConcat([s[0]], b, x);
      CountConcat(a, b, x);
      CountConcat([s[0]], s[1..], x);
      assert s == [s[0]] + s[1..];
    }
  }

  lemma {:induction false} CountConcat(a: seq<real>, b: seq<real>, x: real)
    ensures CountAtMost(a + b, x) == CountAtMost(a, x) + CountAtMost(b, x)
  {
    if b == [] {
      assert a + b == a;
    } else {
      assert (a + b)[..|a + b| - 1] == a + b[..|b| - 1];
      CountConcat(a, b[..|b| - 1], x);
    }
  }

  /** More than `passed` samples are at or below `x`, and that holds of no smaller sample. */
  ghost predicate LeastAbove(nums: seq<real>, passed: real, x: real) {
    && CountAtMost(nums, x) as real > passed
    && (forall y :: y in nums && CountAtMost(nums, y) as real > passed ==> x <= y)
  }

  ghost predicate Largest(nums: seq<real>, x: real) {
    forall y :: y in nums ==> y <= x
  }

  /**
    The floor-rank percentile below 100 is the least sample with more than p percent of all samples
    at or below it; from 100 on it is the largest sample.
   */
  lemma PctIsFloorRank(nums: seq<real>, p: real)
    requires nums != [] && 0.0 <= p
    ensures Pct(nums, p).Some? && Pct(nums, p).value in nums
    ensures p < 100.0 ==> LeastAbove(nums, p / 100.0 * |nums| as real, Pct(nums, p).value)
    ensures p >= 100.0 ==> Largest(nums, Pct(nums, p).value)
  {
    var s, n := SortNumbers(nums), |nums|;
    StableSortSorts(nums, AtMost);
    assert forall y :: y in nums <==> y in multiset(s);
    RanksMonotone(n, p, p);
    var rank := PctRank(n, p);
    if p < 100.0 {
      ScaleStrict(p, n);
      FloorRankFloors(n, Quota(n, p));
      RankIsLeastAbove(s, rank, Quota(n, p));
      LeastAboveOfPermutation(s, nums, Quota(n, p), s[rank]);
    } else {
      ScaleMonotone(100.0, p, n);
      FloorRankIsLast(n, Quota(n, p));
      assert forall j :: 0 <= j < |s| - 1 ==> AtMost(s[j], s[|s| - 1]);
    }
  }

  lemma FloorRankFloors(n: nat, quota: real)
    requires 0.0 <= quota < n as real
    ensures 0 <= FloorRank(n, quota) < n
    ensures FloorRank(n, quota) as real <= quota < FloorRank(n, quota) as real + 1.0
  {
  }

  lemma FloorRankIsLast(n: nat, quota: real)
    requires n as real <= quota
    ensures FloorRank(n, quota) == n - 1
  {
  }

  lemma RankIsLeastAbove(s: seq<real>, rank: nat, passed: real)
    requires SortedBy(s, AtMost) && rank < |s| && rank as real <= passed < rank as real + 1.0
    ensures LeastAbove(s, passed, s[rank])
  {
    CountBounds(s, rank, s[rank]);
    forall y | y in s && CountAtMost(s, y) as real > passed ensures s[rank] <= y {
      CountBounds(s, rank, y);
    }
  }

  lemma LeastAboveOfPermutation(s: seq<real>, nums: seq<real>, passed: real, x: real)
    requires multiset(s) == multiset(nums) && LeastAbove(s, passed, x)
    ensures LeastAbove(nums, passed, x)
  {
    CountOfPermutation(s, nums, x);
    forall y | y in nums && CountAtMost(nums, y) as real > passed ensures x <= y {
      CountOfPermutation(s, nums, y);
      assert y in multiset(s);
    }
  }

  lemma ScaleStrict(p: real, n: nat)
    requires n > 0 && 0.0 <= p < 100.0
    ensures 0.0 <= Quota(n, p) < n as real
  {
    assert p / 100.0 < 1.0;
  }

  /** The floor rank is the nearest rank, or the one after it when the quota is a whole number below n. */
  lemma PctRankIsFableRankOrNext(n: nat, p: real)
    requires n > 0 && 0.0 < p <= 100.0
    ensures var whole := Quota(n, p).Floor as real == Quota(n, p);
      PctRank(n, p) == FableRank(n, p) + (if whole && p < 100.0 then 1 else 0)
  {
    QuotaRange(n, p);
  }

  /** Asking for a higher percentage never returns a smaller sample. */
  lemma PercentilesMonotone(nums: seq<real>, p: real, q: real)
    requires nums != [] && 0.0 <= p <= q
    ensures Pct(nums, p).Some? && Pct(nums, q).Some? && Pct(nums, p).value <= Pct(nums, q).value
    ensures var sorted := SortNumbers(nums);
      FablePct(sorted, p).Some? && FablePct(sorted, q).Some? && FablePct(sorted, p).value <= FablePct(sorted, q).value
  {
    StableSortSorts(nums, AtMost);
    var s := SortNumbers(nums);
    RanksMonotone(|s|, p, q);
    RanksOrdered(s, FableRank(|s|, p), FableRank(|s|, q));
    RanksOrdered(s, PctRank(|s|, p), PctRank(|s|, q));
  }

  lemma QuotaRanksMonotone(n: nat, a: real, b: real)
    requires n > 0 && 0.0 <= a <= b
    ensures 0 <= NearestRank(n, a) <= NearestRank(n, b) < n
    ensures 0 <= FloorRank(n, a) <= FloorRank(n, b) < n
  {
  }

  lemma RanksMonotone(n: nat, p: real, q: real)
    requires n > 0 && 0.0 <= p <= q
    ensures 0 <= FableRank(n, p) <= FableRank(n, q) < n
    ensures 0 <= PctRank(n, p) <= PctRank(n, q) < n
  {
    ScaleMonotone(p, q, n);
    ScaleMonotone(0.0, p, n);
    QuotaRanksMonotone(n, Quota(n, p), Quota(n, q));
  }

  lemma RanksOrdered(s: seq<real>, i: nat, j: nat)
    requires SortedBy(s, AtMost) && i <= j < |s|
    ensures s[i] <= s[j]
  {
  }

  /** The median is the mean of the two percentile definitions at 50, for odd and even lengths. */
  lemma MedianIsMeanOfPercentiles(nums: seq<real>)
    requires nums != []
    ensures Median(nums).Some? && FablePct(SortNumbers(nums), 50.0).Some? && Pct(nums, 50.0).Some?
    ensures Median(nums).value == (FablePct(SortNumbers(nums), 50.0).value + Pct(nums, 50.0).value) / 2.0
  {
  }
}
