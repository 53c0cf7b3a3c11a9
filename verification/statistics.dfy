/** Basic statistics of a time series (src/statistics.rs): the mean, the
    population variance `autocov` and the sample standard deviation `sd`.
    The square root is a parameter: any function that returns the
    non-negative root of a non-negative argument. */
module Statistics {
  import opened Sums

  /** `sqrt` returns the non-negative square root of every non-negative real. */
  ghost predicate IsSqrt(sqrt: real -> real)
  {
    forall y :: y >= 0.0 ==> sqrt(y) >= 0.0 && sqrt(y) * sqrt(y) == y
  }

  predicate IsConstant(x: seq<real>, c: real)
  {
    forall i :: 0 <= i < |x| ==> x[i] == c
  }

  /** Arithmetic mean: the sum divided by the length. */
  function Mean(x: seq<real>): (r: real)
    requires |x| > 0
    ensures r * (|x| as real) == Sum(x)
  {
    Sum(x) / (|x| as real)
  }

  /** No series lies strictly above (or strictly below) its own mean. */
  lemma MeanIsAttained(x: seq<real>)
    requires |x| > 0
    ensures exists i :: 0 <= i < |x| && x[i] <= Mean(x)
    ensures exists j :: 0 <= j < |x| && x[j] >= Mean(x)
  {
    var m := Mean(x);
    if forall i :: 0 <= i < |x| ==> x[i] > m {
      SumStrictlyAbove(x, m);
      assert false;
    }
    if forall j :: 0 <= j < |x| ==> x[j] < m {
      SumStrictlyBelow(x, m);
      assert false;
    }
  }

  lemma {:induction false} SumStrictlyAbove(s: seq<real>, c: real)
    requires |s| > 0 && forall i :: 0 <= i < |s| ==> s[i] > c
    ensures Sum(s) > (|s| as real) * c
  {
    SumBoundedBelow(s[1..], c);
  }

  lemma {:induction false} SumStrictlyBelow(s: seq<real>, c: real)
    requires |s| > 0 && forall i :: 0 <= i < |s| ==> s[i] < c
    ensures Sum(s) < (|s| as real) * c
  {
    SumBoundedAbove(s[1..], c);
  }

  /** The mean lies within any bounds that hold for every element. */
  lemma MeanBetweenBounds(x: seq<real>, lo: real, hi: real)
    requires |x| > 0
    requires forall i :: 0 <= i < |x| ==> lo <= x[i] <= hi
    ensures lo <= Mean(x) <= hi
  {
    MeanIsAttained(x);
  }

  /** The mean of a constant series is that constant. */
  lemma MeanOfConstant(x: seq<real>, c: real)
    requires |x| > 0 && IsConstant(x, c)
    ensures Mean(x) == c
  {
    SumConstant(x, c);
  }

  /** Squared deviation of every element from the mean (`(xi - x_mean).powi(2)`). */
  function SquaredDeviations(x: seq<real>): (r: seq<real>)
    requires |x| > 0
    ensures |r| == |x|
    ensures forall i :: 0 <= i < |x| ==> r[i] == Square(x[i] - Mean(x))
    ensures AllNonNegative(r)
  {
    var m := Mean(x);
    seq(|x|, i requires 0 <= i < |x| => Square(x[i] - m))
  }

  function Square(a: real): (r: real)
    ensures r >= 0.0
  {
    a * a
  }

  /** Population variance: the mean squared deviation from the mean. */
  function Autocov(x: seq<real>): (r: real)
    requires |x| > 0
    ensures r >= 0.0
    ensures r * (|x| as real) == Sum(SquaredDeviations(x))
  {
    SumNonNegative(SquaredDeviations(x));
    Sum(SquaredDeviations(x)) / (|x| as real)
  }

  /** A constant series has no spread. */
  lemma AutocovOfConstant(x: seq<real>, c: real)
    requires |x| > 0 && IsConstant(x, c)
    ensures Autocov(x) == 0.0
  {
    MeanOfConstant(x, c);
    SumOfZeros(SquaredDeviations(x));
  }

  /** A constant series has standard deviation zero. */
  lemma SdOfConstant(x: seq<real>, c: real, sqrt: real -> real)
    requires |x| >= 2 && IsSqrt(sqrt) && IsConstant(x, c)
    ensures Sd(x, sqrt) == 0.0
  {
    MeanOfConstant(x, c);
    SumOfZeros(SquaredDeviations(x));
    var r := Sd(x, sqrt);
    ZeroProductFactor(r * r, (|x| - 1) as real);
    ZeroProduct(r, r);
  }

  /** Bessel-corrected variance: the squared deviations over `n - 1`. */
  function SampleVariance(x: seq<real>): (r: real)
    requires |x| >= 2
    ensures r >= 0.0
    ensures r * ((|x| - 1) as real) == Sum(SquaredDeviations(x))
  {
    SumNonNegative(SquaredDeviations(x));
    ScaledByReciprocal((|x| as real) - 1.0, Sum(SquaredDeviations(x)));
    1.0 / ((|x| as real) - 1.0) * Sum(SquaredDeviations(x))
  }

  lemma ScaledByReciprocal(n: real, s: real)
    requires n > 0.0 && s >= 0.0
    ensures 1.0 / n * s >= 0.0
    ensures (1.0 / n * s) * n == s
  {
  }

  /** Sample standard deviation, the root of the sample variance. */
  function Sd(x: seq<real>, sqrt: real -> real): (r: real)
    requires |x| >= 2 && IsSqrt(sqrt)
    ensures r >= 0.0
    ensures r * r * ((|x| - 1) as real) == Sum(SquaredDeviations(x))
  {
    sqrt(SampleVariance(x))
  }

  /** The sample variance is the population variance scaled by `n / (n - 1)`. */
  lemma SdSquaredIsScaledAutocov(x: seq<real>, sqrt: real -> real)
    requires |x| >= 2 && IsSqrt(sqrt)
    ensures Sd(x, sqrt) * Sd(x, sqrt) == Autocov(x) * (|x| as real) / ((|x| - 1) as real)
  {
    var n := |x| as real;
    var s := Sum(SquaredDeviations(x));
    assert Sd(x, sqrt) * Sd(x, sqrt) == SampleVariance(x);
    assert SampleVariance(x) == s / (n - 1.0);
    assert Autocov(x) * n == s;
  }
}
