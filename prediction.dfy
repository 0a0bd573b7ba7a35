/**
 * The CO₂ forecasting helpers applied to each window of readings: the
 * fallback of the linear forecast for windows too short to fit, the trend
 * label from the means of the two halves of the window, and the confidence
 * from the coefficient of variation.
 *
 * The least-squares fit is a parameter (`fitted`), as is the square root
 * (`sqrt`, constrained by `SqrtLaws` where a proof needs it). A zero
 * denominator follows IEEE arithmetic as the source's array library does: a
 * nonzero numerator gives an infinity of its sign, a zero one gives NaN, and
 * every comparison with NaN is false.
 */
module Prediction {
  import opened Common
  import WindowStats

  datatype Trend = Increasing | Decreasing | Stable

  function TrendName(t: Trend): string
  {
    match t
    case Increasing => "increasing"
    case Decreasing => "decreasing"
    case Stable => "stable"
  }

  /** The small constant added to every denominator. */
  const EPSILON: real := 0.000001

  function Mean(xs: seq<real>): real
    requires |xs| > 0
  {
    WindowStats.Sum(xs) / |xs| as real
  }

  /** The mean of a window whose readings all equal `c` is `c`. */
  lemma MeanOfConstant(xs: seq<real>, c: real)
    requires |xs| > 0
    requires forall i :: 0 <= i < |xs| ==> xs[i] == c
    ensures Mean(xs) == c
  {
    WindowStats.SumConstant(xs, c);
  }

  // ---------------------------------------------------------------------------
  // linear_regression_predict
  // ---------------------------------------------------------------------------

  /**
   * The forecast: with fewer than two timestamps there is nothing to fit, so
   * the latest value (or 0.0 for no values) is the forecast; otherwise the
   * value of the fitted line.
   */
  function LinearForecast(timestamps: seq<real>, values: seq<real>, fitted: real): (r: real)
    ensures |timestamps| < 2 && values != [] ==> r == values[|values| - 1]
    ensures |timestamps| < 2 && values == [] ==> r == 0.0
    ensures |timestamps| >= 2 ==> r == fitted
  {
    if |timestamps| < 2 then (if values != [] then values[|values| - 1] else 0.0)
    else fitted
  }

  /** A window with a single reading forecasts that reading, whatever the horizon. */
  lemma SingleReadingForecastsItself(t: real, v: real, fitted: real)
    ensures LinearForecast([t], [v], fitted) == v
  {
  }

  // ---------------------------------------------------------------------------
  // compute_trend
  // ---------------------------------------------------------------------------

  /** The label of a relative change `diff / denom`, with IEEE semantics when `denom` is zero. */
  function TrendOfChange(diff: real, denom: real): (t: Trend)
    ensures denom > 0.0 ==> (t == Increasing <==> diff > 0.02 * denom)
    ensures denom > 0.0 ==> (t == Decreasing <==> diff < -0.02 * denom)
    ensures denom == 0.0 ==> (t == Increasing <==> diff > 0.0)
    ensures denom == 0.0 ==> (t == Decreasing <==> diff < 0.0)
    ensures diff == 0.0 ==> t == Stable
  {
    if denom == 0.0 then
      (if diff > 0.0 then Increasing else if diff < 0.0 then Decreasing else Stable)
    else
      var pct := diff / denom;
      DivCompare(diff, denom);
      if pct > 0.02 then Increasing else if pct < -0.02 then Decreasing else Stable
  }

  /** Comparing a quotient with ±0.02 is comparing the numerator with ±0.02 × the denominator. */
  lemma DivCompare(diff: real, denom: real)
    requires denom != 0.0
    ensures denom > 0.0 ==> (diff / denom > 0.02 <==> diff > 0.02 * denom)
    ensures denom > 0.0 ==> (diff / denom < -0.02 <==> diff < -0.02 * denom)
    ensures diff == 0.0 ==> diff / denom == 0.0
  {
    var q := diff / denom;
    assert q * denom == diff;
    if denom > 0.0 {
      if q > 0.02 { MulLess(0.02, q, denom); } else { MulLeft(q, 0.02, denom); }
      if q < -0.02 { MulLess(q, -0.02, denom); } else { MulLeft(-0.02, q, denom); }
    }
  }

  lemma MulLess(a: real, b: real, v: real)
    requires a < b && v > 0.0
    ensures a * v < b * v
  {
    MulPos(b - a, v);
    assert (b - a) * v == b * v - a * v;
  }

  /**
   * `compute_trend`: fewer than five timestamps are stable; otherwise the
   * mean of the second half of the values against the mean of the first
   * half (the first half has `n / 2` values). Fewer than two values leave
   * the first half empty, its mean NaN, and the trend stable.
   */
  function ComputeTrend(timestamps: seq<real>, values: seq<real>): (t: Trend)
    ensures |timestamps| < 5 || |values| < 2 ==> t == Stable
    ensures |timestamps| >= 5 && |values| >= 2 ==>
              var mid := |values| / 2;
              t == TrendOfChange(Mean(values[mid..]) - Mean(values[..mid]), Mean(values[..mid]) + EPSILON)
  {
    if |timestamps| < 5 || |values| < 2 then Stable
    else
      var mid := |values| / 2;
      var first := Mean(values[..mid]);
      var second := Mean(values[mid..]);
      TrendOfChange(second - first, first + EPSILON)
  }

  /** A window that never changes is stable. */
  lemma ConstantWindowIsStable(timestamps: seq<real>, values: seq<real>, c: real)
    requires forall i :: 0 <= i < |values| ==> values[i] == c
    ensures ComputeTrend(timestamps, values) == Stable
  {
    if |timestamps| >= 5 && |values| >= 2 {
      var mid := |values| / 2;
      MeanOfConstant(values[..mid], c);
      MeanOfConstant(values[mid..], c);
    }
  }

  /**
   * With a positive first-half mean, "increasing" means the second half
   * averages more than 2 % above the first, "decreasing" more than 2 %
   * below, and "stable" within those bounds.
   */
  lemma TrendMeansTwoPercent(timestamps: seq<real>, values: seq<real>)
    requires |timestamps| >= 5 && |values| >= 2
    requires Mean(values[..|values| / 2]) > 0.0
    ensures var first := Mean(values[..|values| / 2]);
            var second := Mean(values[|values| / 2..]);
            && (ComputeTrend(timestamps, values) == Increasing <==> second > first * 1.02 + 0.00000002)
            && (ComputeTrend(timestamps, values) == Decreasing <==> second < first * 0.98 - 0.00000002)
            && (ComputeTrend(timestamps, values) == Increasing ==> second > first)
            && (ComputeTrend(timestamps, values) == Decreasing ==> second < first)
  {
  }

  // ---------------------------------------------------------------------------
  // compute_confidence
  // ---------------------------------------------------------------------------

  /** The one law of the square root the proofs use. */
  ghost predicate SqrtLaws(sqrt: real -> real)
  {
    sqrt(0.0) == 0.0
  }

  /** The population variance (divisor n), as the source's array library computes by default. */
  function PopulationVariance(xs: seq<real>): (v: real)
    requires |xs| > 0
    ensures v >= 0.0
  {
    WindowStats.SumSqDevNonneg(xs, Mean(xs));
    WindowStats.SumSqDev(xs, Mean(xs)) / |xs| as real
  }

  /**
   * 1 − std / (mean + 10⁻⁶), clipped to [0.1, 1.0]. A zero denominator gives
   * an infinite ratio and the floor 0.1 when there is spread, and NaN (which
   * the clip turns into 1.0) when there is none.
   */
  function ConfidenceOf(std: real, mean: real): (r: real)
    ensures 0.1 <= r <= 1.0
    ensures mean + EPSILON > 0.0 && std <= 0.0 ==> r == 1.0
    ensures mean + EPSILON > 0.0 && std >= 0.9 * (mean + EPSILON) ==> r == 0.1
  {
    var denom := mean + EPSILON;
    if denom == 0.0 then (if std != 0.0 then 0.1 else 1.0)
    else
      var cv := std / denom;
      CvBounds(std, denom);
      Max(0.1, Min(1.0, 1.0 - cv))
  }

  lemma CvBounds(std: real, denom: real)
    requires denom != 0.0
    ensures denom > 0.0 && std <= 0.0 ==> std / denom <= 0.0
    ensures denom > 0.0 && std >= 0.9 * denom ==> std / denom >= 0.9
  {
    if denom > 0.0 {
      if std >= 0.9 * denom {
        QuotientAtLeast(std, denom, 0.9);
      }
      if std <= 0.0 {
        var q := std / denom;
        assert q * denom == std;
        if q > 0.0 {
          MulPos(q, denom);
        }
      }
    }
  }

  /** Over a positive denominator, a numerator of at least `c` times it gives a quotient of at least `c`. */
  lemma QuotientAtLeast(x: real, denom: real, c: real)
    requires denom > 0.0 && x >= c * denom
    ensures x / denom >= c
  {
    var q := x / denom;
    assert q * denom == x;
    if q < c {
      MulLess(q, c, denom);
    }
  }

  /** More spread around the same positive mean never raises the confidence. */
  lemma MoreSpreadLessConfidence(std1: real, std2: real, mean: real)
    requires std1 <= std2 && mean + EPSILON > 0.0
    ensures ConfidenceOf(std2, mean) <= ConfidenceOf(std1, mean)
  {
    var denom := mean + EPSILON;
    var q1 := std1 / denom;
    var q2 := std2 / denom;
    assert q1 * denom == std1 && q2 * denom == std2;
    if q2 < q1 {
      MulLess(q2, q1, denom);
    }
    assert q1 <= q2;
  }

  /**
   * `compute_confidence`: 0.5 for fewer than three values, otherwise the
   * confidence of their standard deviation and mean; always in [0.1, 1.0].
   */
  function ComputeConfidence(values: seq<real>, sqrt: real -> real): (r: real)
    ensures 0.1 <= r <= 1.0
    ensures |values| < 3 ==> r == 0.5
    ensures |values| >= 3 ==> r == ConfidenceOf(sqrt(PopulationVariance(values)), Mean(values))
  {
    if |values| < 3 then 0.5
    else ConfidenceOf(sqrt(PopulationVariance(values)), Mean(values))
  }

  /** A window of three or more identical, non-negative readings gives full confidence. */
  lemma SteadyWindowFullConfidence(values: seq<real>, c: real, sqrt: real -> real)
    requires SqrtLaws(sqrt)
    requires |values| >= 3 && c >= 0.0
    requires forall i :: 0 <= i < |values| ==> values[i] == c
    ensures ComputeConfidence(values, sqrt) == 1.0
  {
    MeanOfConstant(values, c);
    WindowStats.SumSqDevOfConstant(values, c);
    assert PopulationVariance(values) == 0.0;
  }
}
