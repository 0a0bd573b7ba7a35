/**
 * The statistics the anomaly detector computes over a sensor's sliding
 * window: the mean and the unbiased (n - 1) sample variance, the median,
 * sorting, and the median-of-halves quartiles used by the IQR fence.
 *
 * The source returns the standard deviation, the square root of the
 * variance. Square roots are not modelled; `MeanVar` returns the variance
 * and the detector compares squares instead (see module Anomaly).
 */
module WindowStats {

  function Sum(xs: seq<real>): real
  {
    if xs == [] then 0.0 else xs[0] + Sum(xs[1..])
  }

  /** The sum of squared deviations from `mu`. */
  function SumSqDev(xs: seq<real>, mu: real): real
  {
    if xs == [] then 0.0 else Sq(xs[0] - mu) + SumSqDev(xs[1..], mu)
  }

  function Sq(x: real): real { x * x }

  lemma SquareNonneg(x: real)
    ensures Sq(x) >= 0.0
  {
  }

  lemma {:induction false} SumSqDevNonneg(xs: seq<real>, mu: real)
    ensures SumSqDev(xs, mu) >= 0.0
  {
    if xs != [] {
      SumSqDevNonneg(xs[1..], mu);
      SquareNonneg(xs[0] - mu);
    }
  }

  /** The squared deviations from a value every reading equals are zero. */
  lemma {:induction false} SumSqDevOfConstant(xs: seq<real>, mu: real)
    requires forall i :: 0 <= i < |xs| ==> xs[i] == mu
    ensures SumSqDev(xs, mu) == 0.0
  {
    if xs != [] {
      SumSqDevOfConstant(xs[1..], mu);
    }
  }

  /** The sum of `n` copies of `c`. */
  lemma {:induction false} SumConstant(xs: seq<real>, c: real)
    requires forall i :: 0 <= i < |xs| ==> xs[i] == c
    ensures Sum(xs) == |xs| as real * c
  {
    if xs != [] {
      SumConstant(xs[1..], c);
    }
  }

  /**
   * `_mean_std` with the variance in place of its square root: fewer than
   * two values give the first value (or 0.0) and a zero spread; otherwise
   * the mean and the n - 1 sample variance.
   */
  function MeanVar(xs: seq<real>): (r: (real, real))
    ensures r.1 >= 0.0
    ensures |xs| == 0 ==> r == (0.0, 0.0)
    ensures |xs| == 1 ==> r == (xs[0], 0.0)
    ensures |xs| >= 2 ==> r.0 * |xs| as real == Sum(xs)
    ensures |xs| >= 2 ==> r.1 * (|xs| - 1) as real == SumSqDev(xs, r.0)
  {
    var n := |xs|;
    if n < 2 then (if n > 0 then xs[0] else 0.0, 0.0)
    else
      var mu := Sum(xs) / n as real;
      SumSqDevNonneg(xs, mu);
      (mu, SumSqDev(xs, mu) / (n - 1) as real)
  }

  /** A window whose readings are all equal has that reading as its mean and no spread. */
  lemma ConstantWindowHasNoSpread(xs: seq<real>, c: real)
    requires |xs| >= 2
    requires forall i :: 0 <= i < |xs| ==> xs[i] == c
    ensures MeanVar(xs) == (c, 0.0)
  {
    SumConstant(xs, c);
    var mu := Sum(xs) / |xs| as real;
    assert mu == c;
    SumSqDevOfConstant(xs, mu);
  }

  // ---------------------------------------------------------------------------
  // Median and sorting
  // ---------------------------------------------------------------------------

  predicate Sorted(s: seq<real>)
  {
    forall i, j :: 0 <= i < j < |s| ==> s[i] <= s[j]
  }

  /** `_median`: 0.0 for no values, the middle value, or the mean of the two middle values. */
  function Median(s: seq<real>): (r: real)
    ensures |s| == 0 ==> r == 0.0
    ensures Sorted(s) && s != [] ==> s[0] <= r <= s[|s| - 1]
    ensures |s| % 2 == 1 ==> r == s[|s| / 2]
    ensures |s| > 0 && |s| % 2 == 0 ==> r == (s[|s| / 2 - 1] + s[|s| / 2]) / 2.0
  {
    var n := |s|;
    if n == 0 then 0.0
    else
      var mid := n / 2;
      if n % 2 == 1 then s[mid] else (s[mid - 1] + s[mid]) / 2.0
  }

  /**
   * In a sorted list the median splits the values in two: every value of the
   * lower half (the middle one included) is at most it, every value of the
   * upper half at least it.
   */
  lemma MedianSplitsHalves(s: seq<real>)
    requires Sorted(s)
    ensures forall i :: 0 <= i < (|s| + 1) / 2 ==> s[i] <= Median(s)
    ensures forall i :: |s| / 2 <= i < |s| ==> Median(s) <= s[i]
  {
    var n := |s|;
    if n > 0 {
      var mid := n / 2;
      forall i | 0 <= i < (n + 1) / 2
        ensures s[i] <= Median(s)
      {
        if n % 2 == 0 {
          assert s[i] <= s[mid - 1] && s[mid - 1] <= s[mid];
        } else {
          assert i <= mid;
        }
      }
      forall i | mid <= i < n
        ensures Median(s) <= s[i]
      {
        if n % 2 == 0 {
          assert s[mid - 1] <= s[mid] && s[mid] <= s[i];
        }
      }
    }
  }

  function Insert(x: real, s: seq<real>): (r: seq<real>)
    requires Sorted(s)
    ensures Sorted(r)
    ensures multiset(r) == multiset(s) + multiset{x}
    ensures |r| == |s| + 1
    ensures r[0] == if s == [] || x <= s[0] then x else s[0]
  {
    if s == [] || x <= s[0] then [x] + s
    else
      var t := Insert(x, s[1..]);
      assert s == [s[0]] + s[1..];
      assert s[0] <= t[0];
      [s[0]] + t
  }

  /** Python's `sorted` on floats: an ascending permutation of the input. */
  function Sort(s: seq<real>): (r: seq<real>)
    ensures Sorted(r)
    ensures multiset(r) == multiset(s)
    ensures |r| == |s|
  {
    if s == [] then []
    else
      assert s == [s[0]] + s[1..];
      Insert(s[0], Sort(s[1..]))
  }

  /**
   * `_percentiles`: sort, then Q1 is the median of the lower half and Q3 the
   * median of the upper half, leaving the middle value out when the count is odd.
   */
  function Percentiles(values: seq<real>): (r: (real, real))
    ensures |values| < 2 ==> r == (0.0, 0.0)
    ensures |values| >= 2 ==> Sort(values)[0] <= r.0 <= r.1 <= Sort(values)[|values| - 1]
    ensures r == (Median(Sort(values)[..|values| / 2]), Median(Sort(values)[(|values| + 1) / 2..]))
  {
    SortedQuartiles(Sort(values))
  }

  /** The two quartiles of an already sorted list. */
  function SortedQuartiles(s: seq<real>): (r: (real, real))
    requires Sorted(s)
    ensures |s| < 2 ==> r == (0.0, 0.0)
    ensures |s| >= 2 ==> s[0] <= r.0 <= r.1 <= s[|s| - 1]
    ensures r == (Median(s[..|s| / 2]), Median(s[(|s| + 1) / 2..]))
  {
    assert |s| >= 2 ==> s[0] <= Median(s[..|s| / 2]) <= Median(s[(|s| + 1) / 2..]) <= s[|s| - 1] by {
      if |s| >= 2 {
        QuartilesWithinRange(s);
      }
    }
    (Median(s[..|s| / 2]), Median(s[(|s| + 1) / 2..]))
  }

  /** The lower half's median is at most the upper half's, and both lie within the list's range. */
  lemma QuartilesWithinRange(s: seq<real>)
    requires Sorted(s) && |s| >= 2
    ensures s[0] <= Median(s[..|s| / 2]) <= Median(s[(|s| + 1) / 2..]) <= s[|s| - 1]
  {
    var n := |s|;
    var mid := n / 2;
    var k := (n + 1) / 2;
    SortedSlice(s, 0, mid);
    SortedSlice(s, k, n);
    assert s[..mid] == s[0..mid] && s[k..] == s[k..n];
    assert s[mid - 1] <= s[k];
  }

  lemma SortedSlice(s: seq<real>, i: nat, j: nat)
    requires Sorted(s) && i <= j <= |s|
    ensures Sorted(s[i..j])
    ensures i < j ==> s[i..j][0] == s[i] && s[i..j][j - i - 1] == s[j - 1]
  {
  }
}
