/** The largest-triangle downsampler of the equity curve. */
module Downsampling {
  import opened Options
  import opened RealArithmetic

  // ----- buckets

  /** The width of a bucket, in exact arithmetic. */
  function BucketSize(n: int, threshold: int): real
    requires threshold != 2
  {
    (n - 2) as real / (threshold - 2) as real
  }

  /** Where bucket i begins; bucket i ends where bucket i + 1 begins. */
  function BucketStart(n: int, threshold: int, i: int): int
    requires threshold != 2
  {
    (i as real * BucketSize(n, threshold)).Floor + 1
  }

  predicate Downsamples(n: int, threshold: int) {
    n > threshold >= 3
  }

  lemma BucketsAreWide(n: int, threshold: int)
    requires Downsamples(n, threshold)
    ensures BucketSize(n, threshold) > 1.0
    ensures (threshold - 2) as real * BucketSize(n, threshold) == (n - 2) as real
  {
    var b, k := BucketSize(n, threshold), (threshold - 2) as real;
    assert b * k == (n - 2) as real;
    assert b <= 1.0 ==> b * k <= 1.0 * k;
  }

  lemma BucketIsNotEmpty(n: int, threshold: int, i: nat)
    requires Downsamples(n, threshold)
    ensures BucketStart(n, threshold, i) < BucketStart(n, threshold, i + 1)
  {
    BucketsAreWide(n, threshold);
    var b := BucketSize(n, threshold);
    assert (i + 1) as real * b == i as real * b + b;
  }

  lemma BucketEnds(n: int, threshold: int)
    requires Downsamples(n, threshold)
    ensures BucketStart(n, threshold, 0) == 1
    ensures BucketStart(n, threshold, threshold - 2) == n - 1
  {
    BucketsAreWide(n, threshold);
    assert 0.0 * BucketSize(n, threshold) == 0.0;
  }

  lemma {:induction false} BucketsIncrease(n: int, threshold: int, i: nat, j: nat)
    requires Downsamples(n, threshold) && i <= j
    ensures BucketStart(n, threshold, i) + (j - i) <= BucketStart(n, threshold, j)
    decreases j - i
  {
    if i < j {
      BucketIsNotEmpty(n, threshold, i);
      BucketsIncrease(n, threshold, i + 1, j);
    }
  }

  lemma BucketWithin(n: int, threshold: int, i: nat)
    requires Downsamples(n, threshold) && i <= threshold - 2
    ensures 1 <= BucketStart(n, threshold, i) <= n - 1
  {
    BucketEnds(n, threshold);
    BucketsIncrease(n, threshold, 0, i);
    BucketsIncrease(n, threshold, i, threshold - 2);
  }

  predicate InBucket(n: int, threshold: int, i: nat, j: int)
    requires threshold != 2
  {
    BucketStart(n, threshold, i) <= j < BucketStart(n, threshold, i + 1)
  }

  /** The buckets are as even as can be: no two differ by more than one in length. */
  lemma BucketsAreEven(n: int, threshold: int, i: nat, k: nat)
    requires Downsamples(n, threshold)
    ensures BucketStart(n, threshold, i + 1) - BucketStart(n, threshold, i)
            <= BucketStart(n, threshold, k + 1) - BucketStart(n, threshold, k) + 1
  {
    var b := BucketSize(n, threshold);
    assert (i + 1) as real * b == i as real * b + b && (k + 1) as real * b == k as real * b + b;
  }

  /** The candidate buckets partition the interior of the curve. */
  lemma {:induction false} BucketsPartition(n: int, threshold: int, j: int)
    requires Downsamples(n, threshold) && 1 <= j <= n - 2
    ensures exists i :: 0 <= i < threshold - 2 && InBucket(n, threshold, i, j)
    ensures forall i, k :: 0 <= i < k && InBucket(n, threshold, i, j) ==> !InBucket(n, threshold, k, j)
  {
    BucketEnds(n, threshold);
    var i := 0;
    while !InBucket(n, threshold, i, j)
      invariant 0 <= i < threshold - 2 && BucketStart(n, threshold, i) <= j
      decreases threshold - i
    {
      i := i + 1;
    }
    forall i, k | 0 <= i < k && InBucket(n, threshold, i, j) ensures !InBucket(n, threshold, k, j) {
      BucketsIncrease(n, threshold, i + 1, k);
    }
  }

  // ----- triangles

  function SumRange(ys: seq<real>, lo: nat, hi: nat): real
    requires lo <= hi <= |ys|
  {
    if lo == hi then 0.0 else SumRange(ys, lo, hi - 1) + ys[hi-1]
  }

  function AbsReal(x: real): real {
    if x < 0.0 then -x else x
  }

  /** The triangle on the anchor, a candidate and the mean point of the next bucket. */
  function Area(ys: seq<real>, a: nat, avgX: real, avgY: real, j: nat): real
    requires a < |ys| && j < |ys|
  {
    AbsReal((ys[a] - avgY) * (j - a) as real - (ys[a] - ys[j]) * (avgX - a as real)) * 0.5
  }

  /** The triangle's area is half the candidate's distance, along the axis of values, from the line
      through the anchor and the mean point, times the distance of these two along the other. */
  lemma AreaIsDistanceFromLine(ys: seq<real>, a: nat, avgX: real, avgY: real, j: nat, slope: real)
    requires a < |ys| && j < |ys| && avgX >= a as real && avgY == ys[a] + slope * (avgX - a as real)
    ensures Area(ys, a, avgX, avgY, j)
            == AbsReal(ys[j] - (ys[a] + slope * (j - a) as real)) * (avgX - a as real) / 2.0
  {
    var w, k, rise := avgX - a as real, (j - a) as real, ys[j] - ys[a];
    assert (ys[a] - avgY) * k - (ys[a] - ys[j]) * w == (rise - slope * k) * w by {
      SlopeTimes(slope, w, k, rise);
    }
    AbsTimes(rise - slope * k, w);
  }

  lemma SlopeTimes(slope: real, w: real, k: real, rise: real)
    ensures (-(slope * w)) * k + rise * w == (rise - slope * k) * w
  {
  }

  lemma AbsTimes(x: real, w: real)
    requires w >= 0.0
    ensures AbsReal(x * w) == AbsReal(x) * w
  {
    if x < 0.0 {
      assert (-x) * w >= 0.0;
    } else {
      assert x * w >= 0.0;
    }
  }

  /** The mean point of the bucket after bucket i, whose end is cut to the curve. */
  datatype Mean = Mean(x: real, y: real)

  function NextEnd(n: nat, threshold: int, i: nat): int
    requires threshold != 2
  {
    var end := BucketStart(n, threshold, i + 2);
    if end < n then end else n
  }

  function NextMean(ys: seq<real>, threshold: int, i: nat): Mean
    requires Downsamples(|ys|, threshold) && i < threshold - 2
  {
    NextBucketIsNotEmpty(|ys|, threshold, i);
    var lo, hi := BucketStart(|ys|, threshold, i + 1), NextEnd(|ys|, threshold, i);
    Mean((lo + hi - 1) as real / 2.0, SumRange(ys, lo, hi) / (hi - lo) as real)
  }

  /** Every bound on the values of a range bounds their sum. */
  lemma {:induction false} SumBetween(ys: seq<real>, lo: nat, hi: nat, least: real, most: real)
    requires lo <= hi <= |ys| && forall j :: lo <= j < hi ==> least <= ys[j] <= most
    ensures least * (hi - lo) as real <= SumRange(ys, lo, hi) <= most * (hi - lo) as real
    decreases hi
  {
    if lo < hi {
      SumBetween(ys, lo, hi - 1, least, most);
      OneMoreTime(least, hi - 1 - lo);
      OneMoreTime(most, hi - 1 - lo);
    }
  }

  lemma OneMoreTime(x: real, n: nat)
    ensures x * (n + 1) as real == x * n as real + x
  {
  }

  lemma {:induction false} SumSplits(ys: seq<real>, lo: nat, k: nat, hi: nat)
    requires lo <= k <= hi <= |ys|
    ensures SumRange(ys, lo, hi) == SumRange(ys, lo, k) + SumRange(ys, k, hi)
    ensures k < hi ==> SumRange(ys, k, k + 1) == ys[k]
    decreases hi
  {
    if k < hi {
      SumSplits(ys, lo, k, hi - 1);
    }
  }

  /** The middle of the range's indices and the mean of its values. */
  predicate IsMeanOf(ys: seq<real>, lo: int, hi: int, mean: Mean) {
    && 0 <= lo < hi <= |ys| && mean.x - lo as real == (hi - 1) as real - mean.x
    && mean.y * (hi - lo) as real == SumRange(ys, lo, hi)
  }

  /** The mean point lies within the next bucket, which for the last is the end of the curve: in
      the middle of its indices, and at the mean of its values, so within every bound on them. */
  lemma NextMeanIsWithin(ys: seq<real>, threshold: int, i: nat, least: real, most: real)
    requires Downsamples(|ys|, threshold) && i < threshold - 2
    requires forall j: int :: InBucket(|ys|, threshold, i + 1, j) && 0 <= j < |ys| ==> least <= ys[j] <= most
    ensures IsMeanOf(ys, BucketStart(|ys|, threshold, i + 1), NextEnd(|ys|, threshold, i), NextMean(ys, threshold, i))
    ensures least <= NextMean(ys, threshold, i).y <= most
  {
    NextBucketIsNotEmpty(|ys|, threshold, i);
    var lo, hi := BucketStart(|ys|, threshold, i + 1), NextEnd(|ys|, threshold, i);
    forall j | lo <= j < hi ensures least <= ys[j] <= most {
      assert InBucket(|ys|, threshold, i + 1, j);
    }
    SumBetween(ys, lo, hi, least, most);
    QuotientWithin(SumRange(ys, lo, hi), (hi - lo) as real, least, most);
    QuotientTimes(SumRange(ys, lo, hi), (hi - lo) as real);
  }

  /** Why the guard against an empty next bucket is never taken. */
  lemma NextBucketIsNotEmpty(n: nat, threshold: int, i: nat)
    requires Downsamples(n, threshold) && i < threshold - 2
    ensures 1 <= BucketStart(n, threshold, i + 1) < NextEnd(n, threshold, i) <= n
  {
    BucketWithin(n, threshold, i + 1);
    BucketIsNotEmpty(n, threshold, i + 1);
  }

  /** The candidate of bucket i with the largest triangle, and the first such. */
  ghost predicate LargestTriangle(ys: seq<real>, threshold: int, i: nat, anchor: nat, pick: nat)
    requires Downsamples(|ys|, threshold) && i < threshold - 2 && anchor < |ys|
  {
    var mean := NextMean(ys, threshold, i);
    && InBucket(|ys|, threshold, i, pick) && pick < |ys|
    && forall j: nat :: InBucket(|ys|, threshold, i, j) && j < |ys| ==>
         && Area(ys, anchor, mean.x, mean.y, j) <= Area(ys, anchor, mean.x, mean.y, pick)
         && (j < pick ==> Area(ys, anchor, mean.x, mean.y, j) < Area(ys, anchor, mean.x, mean.y, pick))
  }

  predicate StrictlyIncreasing(s: seq<int>) {
    forall i, j :: 0 <= i < j < |s| ==> s[i] < s[j]
  }

  // ----- sorted(set(...))

  function Insert(s: seq<int>, x: int): seq<int> {
    if s == [] then [x]
    else if x < s[|s|-1] then Insert(s[..|s|-1], x) + [s[|s|-1]]
    else if x == s[|s|-1] then s
    else s + [x]
  }

  function SortedSet(s: seq<int>): seq<int> {
    if s == [] then [] else Insert(SortedSet(s[..|s|-1]), s[|s|-1])
  }

  lemma {:induction false} SortedSetOfIncreasing(s: seq<int>)
    requires StrictlyIncreasing(s)
    ensures SortedSet(s) == s
  {
    if s != [] {
      SortedSetOfIncreasing(s[..|s|-1]);
    }
  }

  // ----- the downsampler

  /** What the selection has done after k buckets. */
  ghost predicate Selected(ys: seq<real>, threshold: int, chosen: seq<int>, k: nat)
    requires Downsamples(|ys|, threshold)
  {
    && k <= threshold - 2 && |chosen| == k + 1 && chosen[0] == 0 && StrictlyIncreasing(chosen)
    && (forall i :: 0 <= i <= k ==> 0 <= chosen[i] < |ys|)
    && chosen[k] < BucketStart(|ys|, threshold, k)
    && forall i :: 0 <= i < k ==> LargestTriangle(ys, threshold, i, chosen[i], chosen[i+1])
  }

  /** All but the two ends of the curve are cut; a threshold of two divides by zero. */
  method DownsamplePairs(ys: seq<real>, threshold: int) returns (indices: Option<seq<int>>)
    ensures indices.None? <==> |ys| > threshold == 2
    ensures |ys| <= threshold ==> indices == Some(seq(|ys|, i => i))
    ensures |ys| > threshold && threshold < 2 ==> indices == Some(SortedSet([0, |ys| - 1]))
    ensures Downsamples(|ys|, threshold) ==> var r := indices.value;
      && |r| == threshold && StrictlyIncreasing(r) && r[0] == 0 && r[threshold-1] == |ys| - 1
      && Selected(ys, threshold, r[..threshold-1], threshold - 2)
  {
    var n := |ys|;
    if n <= threshold {
      return Some(seq(n, i => i));
    }
    if threshold == 2 {
      return None;
    }
    if threshold < 2 {
      return Some(SortedSet([0, n - 1]));
    }
    var chosen: seq<int> := [0];
    var a: nat := 0;
    BucketEnds(n, threshold);
    for i := 0 to threshold - 2
      invariant Selected(ys, threshold, chosen, i) && a == chosen[i]
    {
      NextBucketIsNotEmpty(n, threshold, i);
      var lo, hi := BucketStart(n, threshold, i + 1), NextEnd(n, threshold, i);
      if lo >= hi {
        assert false;
      }
      var mean := NextMean(ys, threshold, i);
      var pick := PickLargest(ys, threshold, i, a, mean);
      SelectOneMore(ys, threshold, chosen, i, pick);
      chosen := chosen + [pick];
      a := pick;
    }
    var all := chosen + [n - 1];
    SortedSetOfIncreasing(all);
    assert all[..threshold-1] == chosen;
    indices := Some(SortedSet(all));
  }

  lemma SelectOneMore(ys: seq<real>, threshold: int, chosen: seq<int>, k: nat, pick: nat)
    requires Downsamples(|ys|, threshold) && Selected(ys, threshold, chosen, k) && k < threshold - 2
    requires LargestTriangle(ys, threshold, k, chosen[k], pick)
    ensures Selected(ys, threshold, chosen + [pick], k + 1)
  {
    var more := chosen + [pick];
    forall i | 0 <= i < k + 1 ensures LargestTriangle(ys, threshold, i, more[i], more[i+1]) {
      if i < k {
        assert LargestTriangle(ys, threshold, i, chosen[i], chosen[i+1]);
        assert more[i] == chosen[i] && more[i+1] == chosen[i+1];
      }
    }
  }

  /** The inner loop over a bucket's candidates. */
  method PickLargest(ys: seq<real>, threshold: int, i: nat, a: nat, mean: Mean) returns (pick: nat)
    requires Downsamples(|ys|, threshold) && i < threshold - 2 && a < |ys| && mean == NextMean(ys, threshold, i)
    ensures LargestTriangle(ys, threshold, i, a, pick)
  {
    var n := |ys|;
    BucketWithin(n, threshold, i);
    BucketWithin(n, threshold, i + 1);
    BucketIsNotEmpty(n, threshold, i);
    var lo: nat, hi: nat := BucketStart(n, threshold, i), BucketStart(n, threshold, i + 1);
    pick := lo;
    var maxArea := -1.0;
    for j := lo to if hi < n - 1 then hi else n - 1
      invariant lo <= pick < hi && (j > lo ==> pick < j && maxArea == Area(ys, a, mean.x, mean.y, pick))
      invariant j == lo ==> pick == lo && maxArea == -1.0
      invariant forall k: nat :: lo <= k < j ==> Area(ys, a, mean.x, mean.y, k) <= maxArea
      invariant forall k: nat :: lo <= k < pick && k < j ==> Area(ys, a, mean.x, mean.y, k) < maxArea
    {
      var area := Area(ys, a, mean.x, mean.y, j);
      if area > maxArea {
        maxArea := area;
        pick := j;
      }
    }
  }
}
