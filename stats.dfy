/** Descriptive statistics of one numeric column, over exact reals: the
    arithmetic mean and the sample variance (divisor n - 1) that the insight
    engine asks of its dataframe library. */
module Stats {

  function Abs(x: real): (r: real)
    ensures r >= 0.0 && (r == x || r == -x)
  {
    if x < 0.0 then -x else x
  }

  function Sq(x: real): (r: real)
    ensures r >= 0.0
  {
    x * x
  }

  /** Sum of the values, accumulated from the left as a running total. */
  function Sum(s: seq<real>): real
  {
    if s == [] then 0.0 else Sum(s[..|s| - 1]) + s[|s| - 1]
  }

  function Mean(s: seq<real>): real
    requires |s| > 0
  {
    Sum(s) / (|s| as real)
  }

  /** Sum of squared deviations from m. */
  function SumSqDev(s: seq<real>, m: real): (r: real)
    ensures r >= 0.0
  {
    if s == [] then 0.0 else SumSqDev(s[..|s| - 1], m) + Sq(s[|s| - 1] - m)
  }

  /** Sample variance: the square of the sample standard deviation. */
  function Variance(s: seq<real>): (v: real)
    requires |s| > 1
    ensures v >= 0.0
  {
    SumSqDev(s, Mean(s)) / ((|s| - 1) as real)
  }

  predicate Constant(s: seq<real>, x: real)
  {
    forall i :: 0 <= i < |s| ==> s[i] == x
  }

  lemma {:induction false} SumOfConstant(s: seq<real>, x: real)
    requires Constant(s, x)
    ensures Sum(s) == (|s| as real) * x
  {
    if s != [] {
      SumOfConstant(s[..|s| - 1], x);
    }
  }

  lemma {:induction false} SumSqDevOfConstant(s: seq<real>, x: real)
    requires Constant(s, x)
    ensures SumSqDev(s, x) == 0.0
  {
    if s != [] {
      SumSqDevOfConstant(s[..|s| - 1], x);
    }
  }

  /** A column holding one value throughout has that value as its mean and
      no spread at all. */
  lemma ConstantStats(s: seq<real>, x: real)
    requires |s| > 1 && Constant(s, x)
    ensures Mean(s) == x && Variance(s) == 0.0
  {
    SumOfConstant(s, x);
    SumSqDevOfConstant(s, x);
  }

  /** Each squared deviation is bounded by the sum of all of them. */
  lemma {:induction false} DeviationBounded(s: seq<real>, m: real, k: int)
    requires 0 <= k < |s|
    ensures Sq(s[k] - m) <= SumSqDev(s, m)
  {
    if k < |s| - 1 {
      DeviationBounded(s[..|s| - 1], m, k);
      assert s[..|s| - 1][k] == s[k];
    }
  }

  /** v lies more than two sample standard deviations away from the mean of
      s, stated without a square root (see OutlierWithoutRoot). */
  predicate Outlier(v: real, s: seq<real>)
    requires |s| > 1
  {
    Sq(v - Mean(s)) > 4.0 * Variance(s)
  }

  /** A column with no spread has no outlier among its own values. */
  lemma ZeroVarianceNoOutlier(s: seq<real>, k: int)
    requires |s| > 1 && Variance(s) == 0.0 && 0 <= k < |s|
    ensures !Outlier(s[k], s)
  {
    var d := (|s| - 1) as real;
    assert SumSqDev(s, Mean(s)) == Variance(s) * d;
    DeviationBounded(s, Mean(s), k);
  }

  lemma PositiveProduct(a: real, b: real)
    requires a > 0.0 && b > 0.0
    ensures a * b > 0.0
  {
  }

  lemma SquareMonotone(a: real, b: real)
    requires 0.0 <= b < a
    ensures b * b < a * a
  {
    assert a * a - b * b == (a - b) * (a + b);
    PositiveProduct(a - b, a + b);
  }

  /** With sd the non-negative square root of v, the test |d| > 2 * sd used by
      the anomaly rule is the same as d * d > 4 * v, which needs no square root. */
  lemma OutlierWithoutRoot(d: real, sd: real, v: real)
    requires sd >= 0.0 && sd * sd == v
    ensures Abs(d) > 2.0 * sd <==> Sq(d) > 4.0 * v
  {
    var a, b := Abs(d), 2.0 * sd;
    assert Sq(d) == a * a;
    assert 4.0 * v == b * b;
    if a > b {
      SquareMonotone(a, b);
    } else if a < b {
      SquareMonotone(b, a);
    }
  }
}
