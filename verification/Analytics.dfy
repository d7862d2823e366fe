/** Drawdown and streaks: one-pass loops against their definitions over all pairs and all runs. */
module Analytics {
  import opened Downsampling

  // ----- drawdown

  /** How far the curve falls from point i to a later point j. */
  function Fall(s: seq<real>, i: nat, j: nat): real
    requires i < |s| && j < |s|
  {
    s[i] - s[j]
  }

  /** The fall as a percentage of the point it falls from; nothing where that is not positive. */
  function FallPct(s: seq<real>, i: nat, j: nat): real
    requires i < |s| && j < |s|
  {
    Share(Fall(s, i, j), s[i])
  }

  function Share(part: real, whole: real): real {
    if whole > 0.0 then part / whole * 100.0 else 0.0
  }

  ghost predicate IsMaxFall(s: seq<real>, d: real) {
    && (exists i: nat, j: nat :: i <= j < |s| && Fall(s, i, j) == d)
    && (forall i: nat, j: nat :: i <= j < |s| ==> Fall(s, i, j) <= d)
  }

  ghost predicate IsMaxFallPct(s: seq<real>, d: real) {
    && (exists i: nat, j: nat :: i <= j < |s| && FallPct(s, i, j) == d)
    && (forall i: nat, j: nat :: i <= j < |s| ==> FallPct(s, i, j) <= d)
  }

  /** Position k holds the greatest of the first n points. */
  ghost predicate IsPeakAt(s: seq<real>, n: nat, k: nat) {
    k < n <= |s| && forall i :: 0 <= i < n ==> s[i] <= s[k]
  }

  /** The greatest percentage fall, among the first n points, from a peak of the curve so far. */
  ghost predicate IsMaxPeakFallPct(s: seq<real>, n: nat, d: real)
    requires n <= |s|
  {
    && (exists i: nat, j: nat :: i <= j < n && IsPeakAt(s, j + 1, i) && FallPct(s, i, j) == d)
    && (forall i: nat, j: nat :: i <= j < n && IsPeakAt(s, j + 1, i) ==> FallPct(s, i, j) <= d)
  }

  /** What the loop has computed once it has seen the first n points. */
  ghost predicate Scanned(s: seq<real>, n: nat, peak: real, maxDd: real, maxDdPct: real) {
    && n <= |s|
    && (exists k: nat :: IsPeakAt(s, n, k) && s[k] == peak)
    && (exists i: nat, j: nat :: i <= j < n && Fall(s, i, j) == maxDd)
    && (forall i: nat, j: nat :: i <= j < n ==> Fall(s, i, j) <= maxDd)
    && IsMaxPeakFallPct(s, n, maxDdPct)
  }

  /** A point's own mark: how far it lies below the peak so far, in money and in per cent. */
  ghost predicate IsMark(s: seq<real>, j: nat, mark: (real, real)) {
    j < |s| && exists i: nat :: i < |s| && IsPeakAt(s, j + 1, i) && mark == (Fall(s, i, j), FallPct(s, i, j))
  }

  ghost predicate AllMarked(s: seq<real>, marks: seq<(real, real)>) {
    forall k :: 0 <= k < |marks| ==> IsMark(s, k + 1, marks[k])
  }

  /** One pass over the curve, carrying the peak and marking each point. */
  method ComputeDrawdown(start: real, curve: seq<real>) returns (maxDd: real, maxDdPct: real, marks: seq<(real, real)>)
    ensures IsMaxFall([start] + curve, maxDd)
    ensures IsMaxPeakFallPct([start] + curve, |curve| + 1, maxDdPct)
    ensures (forall k :: 0 <= k < |curve| ==> curve[k] >= 0.0) ==> IsMaxFallPct([start] + curve, maxDdPct)
    ensures |marks| == |curve| && AllMarked([start] + curve, marks)
  {
    ghost var s := [start] + curve;
    var peak := start;
    maxDd, maxDdPct, marks := 0.0, 0.0, [];
    ScanStart(s);
    for k := 0 to |curve|
      invariant Scanned(s, k + 1, peak, maxDd, maxDdPct)
      invariant |marks| == k && AllMarked(s, marks)
    {
      var eq := curve[k];
      ghost var was, wasDd, wasPct := peak, maxDd, maxDdPct;
      if eq > peak {
        peak := eq;
      }
      var dd := peak - eq;
      var ddPct := Share(dd, peak);
      if dd > maxDd {
        maxDd := dd;
      }
      if ddPct > maxDdPct {
        maxDdPct := ddPct;
      }
      ScanOneMore(s, k + 1, was, wasDd, wasPct, peak, dd, ddPct, maxDd, maxDdPct);
      MarkOneMore(s, marks, (dd, ddPct));
      marks := marks + [(dd, ddPct)];
    }
    ScanDone(start, curve, peak, maxDd, maxDdPct);
  }

  lemma ScanDone(start: real, curve: seq<real>, peak: real, maxDd: real, maxDdPct: real)
    requires Scanned([start] + curve, |curve| + 1, peak, maxDd, maxDdPct)
    ensures IsMaxFall([start] + curve, maxDd) && IsMaxPeakFallPct([start] + curve, |curve| + 1, maxDdPct)
    ensures (forall k :: 0 <= k < |curve| ==> curve[k] >= 0.0) ==> IsMaxFallPct([start] + curve, maxDdPct)
  {
    if forall k :: 0 <= k < |curve| ==> curve[k] >= 0.0 {
      PeakFallsAreGreatest([start] + curve, maxDdPct);
    }
  }

  lemma MarkOneMore(s: seq<real>, marks: seq<(real, real)>, mark: (real, real))
    requires AllMarked(s, marks) && IsMark(s, |marks| + 1, mark)
    ensures AllMarked(s, marks + [mark])
  {
  }

  function MaxOf(x: real, y: real): real {
    if x >= y then x else y
  }

  lemma ScanStart(s: seq<real>)
    requires s != []
    ensures Scanned(s, 1, s[0], 0.0, 0.0)
  {
    assert IsPeakAt(s, 1, 0) && Fall(s, 0, 0) == 0.0 && FallPct(s, 0, 0) == 0.0;
  }

  lemma ScanOneMore(s: seq<real>, n: nat, was: real, maxDd: real, maxDdPct: real, peak: real, dd: real, pct: real,
                    nowDd: real, nowPct: real)
    requires n < |s| && Scanned(s, n, was, maxDd, maxDdPct) && peak == MaxOf(was, s[n])
    requires dd == peak - s[n] && pct == Share(dd, peak) && nowDd == MaxOf(maxDd, dd) && nowPct == MaxOf(maxDdPct, pct)
    ensures Scanned(s, n + 1, peak, nowDd, nowPct)
    ensures IsMark(s, n, (dd, pct))
  {
    var k: nat :| IsPeakAt(s, n, k) && s[k] == was;
    var top: nat := if s[n] > was then n else k;
    assert IsPeakAt(s, n + 1, top) && s[top] == peak;
    FallsOneMore(s, n, top, maxDd);
    FallPctsOneMore(s, n, top, maxDdPct);
    assert (dd, pct) == (Fall(s, top, n), FallPct(s, top, n));
  }

  lemma FallsOneMore(s: seq<real>, n: nat, top: nat, maxDd: real)
    requires n < |s| && IsPeakAt(s, n + 1, top)
    requires exists i: nat, j: nat :: i <= j < n && Fall(s, i, j) == maxDd
    requires forall i: nat, j: nat :: i <= j < n ==> Fall(s, i, j) <= maxDd
    ensures exists i: nat, j: nat :: i <= j < n + 1 && Fall(s, i, j) == MaxOf(maxDd, s[top] - s[n])
    ensures forall i: nat, j: nat :: i <= j < n + 1 ==> Fall(s, i, j) <= MaxOf(maxDd, s[top] - s[n])
  {
    var i: nat, j: nat :| i <= j < n && Fall(s, i, j) == maxDd;
    assert Fall(s, i, j) == maxDd && Fall(s, top, n) == s[top] - s[n];
  }

  lemma FallPctsOneMore(s: seq<real>, n: nat, top: nat, maxDdPct: real)
    requires n < |s| && IsPeakAt(s, n + 1, top) && IsMaxPeakFallPct(s, n, maxDdPct)
    ensures IsMaxPeakFallPct(s, n + 1, MaxOf(maxDdPct, FallPct(s, top, n)))
  {
    var d := MaxOf(maxDdPct, FallPct(s, top, n));
    var i: nat, j: nat :| i <= j < n && IsPeakAt(s, j + 1, i) && FallPct(s, i, j) == maxDdPct;
    assert IsPeakAt(s, n + 1, top) && IsPeakAt(s, j + 1, i);
    assert FallPct(s, i, j) == d || FallPct(s, top, n) == d;
    forall i: nat, j: nat | i <= j < n + 1 && IsPeakAt(s, j + 1, i) ensures FallPct(s, i, j) <= d {
      if j == n {
        assert s[i] == s[top];
        assert FallPct(s, i, n) == FallPct(s, top, n);
      }
    }
  }

  /** A fall to a point that is not negative is, in per cent, no greater from a lower start. */
  lemma HigherPeakFallsFurther(low: real, high: real, end: real)
    requires 0.0 < low <= high
    ensures (low - end) / low * 100.0 <= (high - end) / high * 100.0 <==> end >= 0.0 || low == high
  {
    FallAsShare(low, end);
    FallAsShare(high, end);
    CompareShares(end / low, low, end / high, high, end);
  }

  lemma CompareShares(a: real, low: real, b: real, high: real, end: real)
    requires 0.0 < low <= high && a * low == end && b * high == end
    ensures b <= a <==> end >= 0.0 || low == high
  {
    assert (a - b) * high == a * (high - low);
    if end < 0.0 && low < high {
      assert a < 0.0;
      assert a * (high - low) < 0.0;
    } else if end >= 0.0 {
      assert a >= 0.0;
      assert a * (high - low) >= 0.0;
    }
  }

  lemma FallAsShare(from: real, end: real)
    requires from > 0.0
    ensures end / from * from == end
    ensures (from - end) / from * 100.0 == (1.0 - end / from) * 100.0
  {
    var share, fall := end / from, (from - end) / from;
    assert share * from == end && fall * from == from - end;
    assert (fall + share - 1.0) * from == fall * from + share * from - from;
    ZeroFactor(fall + share - 1.0, from);
  }

  lemma ZeroFactor(x: real, k: real)
    requires k > 0.0 && x * k == 0.0
    ensures x == 0.0
  {
  }

  lemma {:induction false} PeakExists(s: seq<real>, n: nat) returns (k: nat)
    requires 1 <= n <= |s|
    ensures IsPeakAt(s, n, k)
  {
    if n == 1 {
      k := 0;
    } else {
      k := PeakExists(s, n - 1);
      if s[n-1] > s[k] {
        k := n - 1;
      }
    }
  }

  /** Where no point after the start is negative, the greatest percentage fall is one from a peak. */
  lemma PeakFallsAreGreatest(s: seq<real>, d: real)
    requires forall k :: 1 <= k < |s| ==> s[k] >= 0.0
    requires IsMaxPeakFallPct(s, |s|, d)
    ensures IsMaxFallPct(s, d)
  {
    forall i: nat, j: nat | i <= j < |s| ensures FallPct(s, i, j) <= d {
      var k := PeakExists(s, j + 1);
      assert FallPct(s, k, j) <= d;
      if s[i] > 0.0 && i < j {
        HigherPeakFallsFurther(s[i], s[k], s[j]);
      } else {
        PeakPctNotNegative(s, k, j);
      }
    }
  }

  lemma PeakPctNotNegative(s: seq<real>, k: nat, j: nat)
    requires j < |s| && IsPeakAt(s, j + 1, k)
    ensures FallPct(s, k, j) >= 0.0
  {
    ShareNotNegative(Fall(s, k, j), s[k]);
  }

  lemma ShareNotNegative(part: real, whole: real)
    requires part >= 0.0
    ensures Share(part, whole) >= 0.0
  {
  }

  ghost predicate StaysAbove(s: seq<real>, floor: real) {
    s != [] && forall k :: 1 <= k < |s| ==> s[k] >= floor
  }

  ghost predicate PctIsRight(floor: real) {
    forall s: seq<real>, d: real :: StaysAbove(s, floor) && IsMaxPeakFallPct(s, |s|, d) ==> IsMaxFallPct(s, d)
  }

  /** The one-pass percentage is the greatest over all pairs, for every curve that stays at or
      above a floor, exactly when the floor is not negative: from 100 through 10 to a negative
      floor the fall from 10 is the greater, and the pass does not see it. */
  lemma PctIsRightExactlyAboveZero(floor: real)
    ensures PctIsRight(floor) <==> floor >= 0.0
  {
    if floor >= 0.0 {
      forall s: seq<real>, d: real | StaysAbove(s, floor) && IsMaxPeakFallPct(s, |s|, d)
        ensures IsMaxFallPct(s, d)
      {
        PeakFallsAreGreatest(s, d);
      }
    } else {
      var s, d := [100.0, 10.0, floor], 100.0 - floor;
      assert FallPct(s, 0, 2) == d && IsPeakAt(s, 3, 0);
      assert FallPct(s, 1, 2) == 100.0 - 10.0 * floor > d;
      assert IsMaxPeakFallPct(s, 3, d);
      assert !IsMaxFallPct(s, d);
    }
  }

  // ----- streaks

  /** The trades from i up to j are all winners, or all not. */
  ghost predicate IsStreak(pnls: seq<real>, win: bool, i: nat, j: nat) {
    i <= j <= |pnls| && forall k :: i <= k < j ==> (pnls[k] > 0.0) == win
  }

  ghost predicate IsLongestStreak(pnls: seq<real>, win: bool, n: nat) {
    && (exists i: nat, j: nat :: IsStreak(pnls, win, i, j) && j - i == n)
    && (forall i: nat, j: nat :: IsStreak(pnls, win, i, j) ==> j - i <= n)
  }

  /** The streak of trades that ends the list: positive for winners, negative for losers. */
  ghost predicate EndsWith(pnls: seq<real>, streak: int) {
    if pnls == [] then streak == 0
    else
      var win, n := pnls[|pnls|-1] > 0.0, if streak > 0 then streak else -streak;
      && streak != 0 && (streak > 0 <==> win) && n <= |pnls|
      && IsStreak(pnls, win, |pnls| - n, |pnls|)
      && (n < |pnls| ==> (pnls[|pnls|-n-1] > 0.0) != win)
  }

  /** What the loop has counted over these trades. */
  ghost predicate Counted(pnls: seq<real>, streak: int, maxWins: nat, maxLosses: nat) {
    EndsWith(pnls, streak) && IsLongestStreak(pnls, true, maxWins) && IsLongestStreak(pnls, false, maxLosses)
  }

  lemma CountNothing()
    ensures Counted([], 0, 0, 0)
  {
    assert IsStreak([], true, 0, 0) && IsStreak([], false, 0, 0);
  }

  lemma CountWin(pnls: seq<real>, pnl: real, streak: int, maxWins: nat, maxLosses: nat, now: nat)
    requires Counted(pnls, streak, maxWins, maxLosses) && pnl > 0.0 && now == if streak > 0 then streak + 1 else 1
    ensures Counted(pnls + [pnl], now, if now > maxWins then now else maxWins, maxLosses)
  {
    StreakGrows(pnls, pnl, streak);
    LongestGrows(pnls, pnl, true, maxWins, now);
    LongestStays(pnls, pnl, false, maxLosses);
  }

  lemma CountLoss(pnls: seq<real>, pnl: real, streak: int, maxWins: nat, maxLosses: nat, now: nat)
    requires Counted(pnls, streak, maxWins, maxLosses) && pnl <= 0.0
    requires now as int == if streak < 0 then 1 - streak else 1
    ensures Counted(pnls + [pnl], -(now as int), maxWins, if now > maxLosses then now else maxLosses)
  {
    StreakGrows(pnls, pnl, streak);
    LongestGrows(pnls, pnl, false, maxLosses, now);
    LongestStays(pnls, pnl, true, maxWins);
  }

  method ComputeStreaks(pnls: seq<real>) returns (maxWins: nat, maxLosses: nat)
    ensures IsLongestStreak(pnls, true, maxWins) && IsLongestStreak(pnls, false, maxLosses)
  {
    var streak := 0;
    maxWins, maxLosses := 0, 0;
    CountNothing();
    for k := 0 to |pnls|
      invariant Counted(pnls[..k], streak, maxWins, maxLosses)
    {
      assert pnls[..k+1] == pnls[..k] + [pnls[k]];
      if pnls[k] > 0.0 {
        CountWin(pnls[..k], pnls[k], streak, maxWins, maxLosses, if streak > 0 then streak + 1 else 1);
        streak := if streak > 0 then streak + 1 else 1;
        if streak > maxWins {
          maxWins := streak;
        }
      } else {
        CountLoss(pnls[..k], pnls[k], streak, maxWins, maxLosses, if streak < 0 then 1 - streak else 1);
        streak := if streak < 0 then streak - 1 else -1;
        if -streak > maxLosses {
          maxLosses := -streak;
        }
      }
    }
    assert pnls[..|pnls|] == pnls;
  }

  lemma StreakGrows(pnls: seq<real>, pnl: real, streak: int)
    requires EndsWith(pnls, streak)
    ensures pnl > 0.0 ==> EndsWith(pnls + [pnl], if streak > 0 then streak + 1 else 1)
    ensures pnl <= 0.0 ==> EndsWith(pnls + [pnl], if streak < 0 then streak - 1 else -1)
  {
  }

  lemma LongestGrows(pnls: seq<real>, pnl: real, win: bool, longest: nat, streak: nat)
    requires IsLongestStreak(pnls, win, longest) && (pnl > 0.0) == win
    requires EndsWith(pnls + [pnl], if win then streak as int else -(streak as int))
    ensures IsLongestStreak(pnls + [pnl], win, if streak > longest then streak else longest)
  {
    var all := pnls + [pnl];
    var i: nat, j: nat :| IsStreak(pnls, win, i, j) && j - i == longest;
    assert IsStreak(all, win, i, j) && IsStreak(all, win, |all| - streak, |all|);
    forall i: nat, j: nat | IsStreak(all, win, i, j) ensures j - i <= if streak > longest then streak else longest {
      if j < |all| {
        assert forall k :: i <= k < j ==> all[k] == pnls[k];
        assert IsStreak(pnls, win, i, j);
      } else if i < |all| - streak {
        assert false;
      }
    }
  }

  lemma LongestStays(pnls: seq<real>, pnl: real, win: bool, longest: nat)
    requires IsLongestStreak(pnls, win, longest) && (pnl > 0.0) != win
    ensures IsLongestStreak(pnls + [pnl], win, longest)
  {
    var all := pnls + [pnl];
    var i: nat, j: nat :| IsStreak(pnls, win, i, j) && j - i == longest;
    assert IsStreak(all, win, i, j) && all[|all|-1] == pnl;
    forall i: nat, j: nat | IsStreak(all, win, i, j) ensures j - i <= longest {
      if j < |all| {
        assert forall k :: i <= k < j ==> all[k] == pnls[k];
        assert IsStreak(pnls, win, i, j);
      } else if i < j {
        assert false;
      }
    }
  }

  // ----- in order

  /** `shown` is the curve at the downsampler's selection. */
  ghost predicate IsCutBy(curve: seq<real>, maxPoints: int, r: seq<int>, shown: seq<real>)
    requires Downsamples(|curve|, maxPoints)
  {
    && |r| == maxPoints && |shown| == maxPoints && StrictlyIncreasing(r) && r[0] == 0 && r[maxPoints-1] == |curve| - 1
    && Selected(curve, maxPoints, r[..maxPoints-1], maxPoints - 2)
    && forall k :: 0 <= k < maxPoints ==> 0 <= r[k] < |curve| && shown[k] == curve[r[k]]
  }

  /** Drawdown is measured on the whole curve; only then is the curve cut for display. */
  method MeasureThenCut(start: real, curve: seq<real>, maxPoints: int)
    returns (shown: seq<real>, maxDd: real, maxDdPct: real)
    requires maxPoints >= 3
    ensures IsMaxFall([start] + curve, maxDd) && IsMaxPeakFallPct([start] + curve, |curve| + 1, maxDdPct)
    ensures |curve| <= maxPoints ==> shown == curve
    ensures |curve| > maxPoints ==> exists r :: IsCutBy(curve, maxPoints, r, shown)
  {
    var marks;
    maxDd, maxDdPct, marks := ComputeDrawdown(start, curve);
    shown := curve;
    if |curve| > maxPoints {
      var indices := DownsamplePairs(curve, maxPoints);
      var r := indices.value;
      CutsWithin(r, |curve|);
      shown := seq(|r|, k requires 0 <= k < |r| => curve[r[k]]);
      assert IsCutBy(curve, maxPoints, r, shown);
    }
  }

  lemma CutsWithin(r: seq<int>, n: nat)
    requires |r| >= 1 && StrictlyIncreasing(r) && r[0] >= 0 && r[|r|-1] < n
    ensures forall k :: 0 <= k < |r| ==> 0 <= r[k] < n
  {
    forall k | 0 <= k < |r| ensures 0 <= r[k] < n {
      assert k > 0 ==> r[0] < r[k];
      assert k < |r| - 1 ==> r[k] < r[|r|-1];
    }
  }
}
