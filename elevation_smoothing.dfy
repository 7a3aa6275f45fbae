/**
 * OpenElevationService::applySmoothing: a moving average of the elevation
 * over a window of 10 points on each side, rounded to one decimal.
 *
 * Every average is taken over the ORIGINAL elevations (the source writes
 * into a copy), only points whose elevation is set take part, and latitude
 * and longitude are never changed. Lines of fewer than 3 points are left
 * alone.
 */
module ElevationSmoothing {
  import opened Common
  import opened GeoJson

  /** Neighbours taken on each side. */
  const Window: nat := 10

  function Max(a: int, b: int): int {
    if a >= b then a else b
  }

  function Min(a: int, b: int): int {
    if a <= b then a else b
  }

  /** Rounds a non-negative number to one decimal, a final 5 rounding up. */
  function RoundHalfUp(y: real): (r: real)
    requires y >= 0.0
    ensures -0.05 <= r - y <= 0.05
    ensures r >= 0.0
    ensures (r * 10.0).Floor as real == r * 10.0
  {
    var f := (y * 10.0 + 0.5).Floor;
    assert f as real <= y * 10.0 + 0.5 < f as real + 1.0;
    assert f as real / 10.0 * 10.0 == f as real;
    f as real / 10.0
  }

  /** PHP `round($x, 1)`: to one decimal, halves rounded away from zero. */
  function Round1(x: real): (r: real)
    ensures -0.05 <= r - x <= 0.05
    ensures x >= 0.0 ==> r >= 0.0
    ensures x < 0.0 ==> r <= 0.0
  {
    if x >= 0.0 then RoundHalfUp(x) else -RoundHalfUp(-x)
  }

  /** The elevation a point contributes to a window, if it has one. */
  predicate HasZ(points: seq<Point>, j: int) {
    0 <= j < |points| && points[j].z.Some?
  }

  /** Sum of the set elevations at positions lo .. hi-1 (positions outside the line count nothing). */
  function ZSum(points: seq<Point>, lo: int, hi: int): real
    decreases hi - lo
  {
    if hi <= lo then 0.0
    else ZSum(points, lo, hi - 1) + (if HasZ(points, hi - 1) then points[hi - 1].z.value else 0.0)
  }

  /** Number of positions lo .. hi-1 whose elevation is set. */
  function ZCount(points: seq<Point>, lo: int, hi: int): nat
    decreases hi - lo
  {
    if hi <= lo then 0
    else ZCount(points, lo, hi - 1) + (if HasZ(points, hi - 1) then 1 else 0)
  }

  /** Point i after smoothing: the rounded mean of its window, or unchanged when nothing in the window has an elevation. */
  function Smoothed(points: seq<Point>, i: nat): Point
    requires i < |points|
  {
    var lo, hi := i - Window, i + Window + 1;
    var count := ZCount(points, lo, hi);
    if count > 0 then points[i].(z := Some(Round1(ZSum(points, lo, hi) / count as real)))
    else points[i]
  }

  /** The line after applySmoothing. */
  function Smooth(points: seq<Point>): (r: seq<Point>)
    ensures |r| == |points|
    ensures forall i :: 0 <= i < |r| ==> r[i].x == points[i].x && r[i].y == points[i].y
    ensures |points| < 3 ==> r == points
  {
    if |points| < 3 then points
    else seq(|points|, i requires 0 <= i < |points| => Smoothed(points, i))
  }

  /** applySmoothing, with its two nested `for` loops. */
  method ApplySmoothing(points: seq<Point>) returns (smoothed: seq<Point>)
    ensures smoothed == Smooth(points)
  {
    var count := |points|;
    if count < 3 {
      return points;
    }
    smoothed := points;
    var i := 0;
    while i < count
      invariant 0 <= i <= count
      invariant |smoothed| == count
      invariant forall k :: 0 <= k < i ==> smoothed[k] == Smoothed(points, k)
      invariant forall k :: i <= k < count ==> smoothed[k] == points[k]
    {
      var sumZ := 0.0;
      var sampleCount := 0;
      var j := i - Window;
      while j <= i + Window
        invariant i - Window <= j <= i + Window + 1
        invariant sumZ == ZSum(points, i - Window, j)
        invariant sampleCount == ZCount(points, i - Window, j)
      {
        if 0 <= j < count && points[j].z.Some? {
          sumZ := sumZ + points[j].z.value;
          sampleCount := sampleCount + 1;
        }
        j := j + 1;
      }
      if sampleCount > 0 {
        smoothed := smoothed[i := smoothed[i].(z := Some(Round1(sumZ / sampleCount as real)))];
      }
      i := i + 1;
    }
  }

  // ---------------------------------------------------------------------
  // Properties of the specification
  // ---------------------------------------------------------------------

  /** When every point has an elevation, the window holds exactly the positions of the line it covers. */
  lemma {:induction false} CountWhenAllSet(points: seq<Point>, lo: int, hi: int)
    requires forall k :: 0 <= k < |points| ==> points[k].z.Some?
    requires lo <= hi
    ensures ZCount(points, lo, hi) == Max(0, Min(hi, |points|) - Max(lo, 0))
    decreases hi - lo
  {
    if hi > lo {
      CountWhenAllSet(points, lo, hi - 1);
    }
  }

  /** Window size for point i: from max(0, i-10) to min(n-1, i+10), both included. */
  lemma WindowSize(points: seq<Point>, i: nat)
    requires forall k :: 0 <= k < |points| ==> points[k].z.Some?
    requires i < |points|
    ensures ZCount(points, i - Window, i + Window + 1) == Min(|points| - 1, i + Window) - Max(0, i - Window) + 1
  {
    CountWhenAllSet(points, i - Window, i + Window + 1);
  }

  /** On a fully elevated line of 25 points, the middle point averages 21 samples and the first 11. */
  lemma WindowExamples(points: seq<Point>)
    requires |points| == 25
    requires forall k :: 0 <= k < |points| ==> points[k].z.Some?
    ensures ZCount(points, 12 - Window, 12 + Window + 1) == 21
    ensures ZCount(points, 0 - Window, 0 + Window + 1) == 11
  {
    WindowSize(points, 12);
    WindowSize(points, 0);
  }

  /** A point whose elevation is set keeps one: it is in its own window. */
  lemma {:induction false} OwnSample(points: seq<Point>, i: nat, lo: int, hi: int)
    requires i < |points| && points[i].z.Some? && lo <= i < hi
    ensures ZCount(points, lo, hi) > 0
    decreases hi - lo
  {
    if hi - 1 != i {
      OwnSample(points, i, lo, hi - 1);
    }
  }

  lemma KeepsElevation(points: seq<Point>, i: nat)
    requires i < |points| && points[i].z.Some?
    ensures Smooth(points)[i].z.Some?
  {
    if |points| >= 3 {
      OwnSample(points, i, i - Window, i + Window + 1);
    }
  }

  /** The sum of a window lies between count times the lowest and count times the highest elevation in it. */
  lemma SumBounds(points: seq<Point>, lo: int, hi: int, low: real, high: real)
    requires forall j :: lo <= j < hi && HasZ(points, j) ==> low <= points[j].z.value <= high
    ensures ZCount(points, lo, hi) as real * low <= ZSum(points, lo, hi) <= ZCount(points, lo, hi) as real * high
  {
    SumAtLeast(points, lo, hi, low);
    SumAtMost(points, lo, hi, high);
  }

  lemma {:induction false} SumAtLeast(points: seq<Point>, lo: int, hi: int, low: real)
    requires forall j :: lo <= j < hi && HasZ(points, j) ==> low <= points[j].z.value
    ensures ZCount(points, lo, hi) as real * low <= ZSum(points, lo, hi)
    decreases hi - lo
  {
    if hi > lo {
      SumAtLeast(points, lo, hi - 1, low);
      OneMore(ZCount(points, lo, hi - 1) as real, low);
    }
  }

  lemma {:induction false} SumAtMost(points: seq<Point>, lo: int, hi: int, high: real)
    requires forall j :: lo <= j < hi && HasZ(points, j) ==> points[j].z.value <= high
    ensures ZSum(points, lo, hi) <= ZCount(points, lo, hi) as real * high
    decreases hi - lo
  {
    if hi > lo {
      SumAtMost(points, lo, hi - 1, high);
      OneMore(ZCount(points, lo, hi - 1) as real, high);
    }
  }

  lemma OneMore(c: real, x: real)
    ensures (c + 1.0) * x == c * x + x
  {
  }

  /**
   * The smoothed elevation stays within the range of the elevations of its
   * window, give or take the 0.05 of rounding: smoothing never invents a
   * spike.
   */
  lemma NoNewExtremes(points: seq<Point>, i: nat, low: real, high: real)
    requires 3 <= |points| && i < |points|
    requires forall j :: i - Window <= j <= i + Window && HasZ(points, j) ==> low <= points[j].z.value <= high
    requires ZCount(points, i - Window, i + Window + 1) > 0
    ensures Smooth(points)[i].z.Some?
    ensures low - 0.05 <= Smooth(points)[i].z.value <= high + 0.05
  {
    var lo, hi := i - Window, i + Window + 1;
    SumBounds(points, lo, hi, low, high);
    var mean := ZSum(points, lo, hi) / ZCount(points, lo, hi) as real;
    MeanBounds(ZSum(points, lo, hi), ZCount(points, lo, hi) as real, low, high);
    assert Smooth(points)[i].z == Some(Round1(mean));
  }

  /** A total of c values, each in [low, high], has its mean in [low, high]. */
  lemma MeanBounds(total: real, c: real, low: real, high: real)
    requires c > 0.0 && c * low <= total <= c * high
    ensures low <= total / c <= high
  {
    var m := total / c;
    assert m * c == total;
    assert (m - low) * c >= 0.0;
    assert (high - m) * c >= 0.0;
  }

  /** A line at constant elevation c stays at round(c, 1). */
  lemma ConstantLine(points: seq<Point>, c: real, i: nat)
    requires 3 <= |points| && i < |points|
    requires forall k :: 0 <= k < |points| ==> points[k].z == Some(c)
    ensures Smooth(points)[i].z == Some(Round1(c))
  {
    var lo, hi := i - Window, i + Window + 1;
    OwnSample(points, i, lo, hi);
    SumBounds(points, lo, hi, c, c);
    MeanBounds(ZSum(points, lo, hi), ZCount(points, lo, hi) as real, c, c);
  }

  /** Rounding is symmetric around zero. */
  lemma RoundSymmetric(x: real)
    ensures x != 0.0 ==> Round1(-x) == -Round1(x)
  {
  }

  /** Halves go away from zero: 0.25 becomes 0.3 and -0.25 becomes -0.3. */
  lemma RoundHalfAwayFromZero()
    ensures Round1(0.25) == 0.3 && Round1(-0.25) == -0.3
  {
    assert (0.25 * 10.0 + 0.5).Floor == 3;
  }
}
