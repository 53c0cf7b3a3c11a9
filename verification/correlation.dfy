/** Statistical inefficiency of a time series (src/correlation_analysis.rs):
    the normalised autocorrelation at every lag from 1 to `n - 2`, the
    inefficiency `g` summed over the leading run of positive
    autocorrelations, and the autocorrelation time `(g - 1) / 2`.

    The GSL mean is `Statistics.Mean`; the GSL covariance of a series with
    itself is its Bessel-corrected variance, `Statistics.SampleVariance`. */
module Correlation {
  import opened Sums
  import opened Statistics

  /** Deviation of every sample from the mean (`d_mean`). */
  function Deviations(x: seq<real>): (d: seq<real>)
    requires |x| > 0
    ensures |d| == |x|
    ensures forall i :: 0 <= i < |x| ==> d[i] == x[i] - Mean(x)
  {
    var m := Mean(x);
    seq(|x|, i requires 0 <= i < |x| => x[i] - m)
  }

  /** Products of every deviation with the one `t` samples later. */
  function LagProducts(d: seq<real>, t: nat): (p: seq<real>)
    requires t <= |d|
    ensures |p| == |d| - t
    ensures forall i :: 0 <= i < |d| - t ==> p[i] == d[i] * d[i + t]
  {
    seq(|d| - t, i requires 0 <= i < |d| - t => d[i] * d[i + t])
  }

  /** Every term added to itself (the `map(|x| x + x)`). */
  function Doubled(p: seq<real>): (q: seq<real>)
    ensures |q| == |p|
  {
    seq(|p|, i requires 0 <= i < |p| => p[i] + p[i])
  }

  lemma {:induction false} SumDoubled(p: seq<real>)
    ensures Sum(Doubled(p)) == 2.0 * Sum(p)
  {
    if |p| > 0 {
      assert Doubled(p)[1..] == Doubled(p[1..]);
      SumDoubled(p[1..]);
    }
  }

  /** The autocorrelation at lag `t`, written as `autocorrelation` computes it:
      the doubled lag products over `2 (n - t) cov`. Normalising never
      changes the sign; the doubling cancels (`LagCoefficientScaled`). */
  function LagCoefficient(d: seq<real>, t: nat, cov: real): (r: real)
    requires 1 <= t < |d| && cov > 0.0
    ensures r > 0.0 <==> Sum(LagProducts(d, t)) > 0.0
  {
    var a := Sum(Doubled(LagProducts(d, t)));
    var b := 2.0 * ((|d| - t) as real) * cov;
    MulPositive(2.0 * ((|d| - t) as real), cov);
    SumDoubled(LagProducts(d, t));
    QuotientSign(a, b);
    a / b
  }

  /** The doubling cancels: the coefficient times `(n - t) cov` is the plain
      sum of the lag products. */
  lemma LagCoefficientScaled(d: seq<real>, t: nat, cov: real)
    requires 1 <= t < |d| && cov > 0.0
    ensures LagCoefficient(d, t, cov) * (((|d| - t) as real) * cov) == Sum(LagProducts(d, t))
  {
    var a := Sum(Doubled(LagProducts(d, t)));
    var b := 2.0 * ((|d| - t) as real) * cov;
    MulPositive(2.0 * ((|d| - t) as real), cov);
    DivisionInverse(a, b);
    SumDoubled(LagProducts(d, t));
    DoublingCancels(a / b, (|d| - t) as real, cov, Sum(LagProducts(d, t)), a);
  }

  lemma QuotientSign(a: real, b: real)
    requires b > 0.0
    ensures a / b > 0.0 <==> a > 0.0
  {
  }

  lemma DivisionInverse(a: real, b: real)
    requires b != 0.0
    ensures (a / b) * b == a
  {
  }

  lemma DoublingCancels(c: real, n: real, cov: real, s: real, s2: real)
    requires n > 0.0 && cov > 0.0 && s2 == 2.0 * s && c * (2.0 * n * cov) == s2
    ensures c * (n * cov) == s
  {
  }

  /** The coefficients for lags `1 .. n - 2` (`for t in 1..(n-1)`). */
  function LagCorrelations(d: seq<real>, cov: real): (ac: seq<real>)
    requires |d| >= 3 ==> cov > 0.0
    ensures |ac| == if |d| >= 2 then |d| - 2 else 0
    ensures forall t :: 1 <= t <= |ac| ==> ac[t - 1] == LagCoefficient(d, t, cov)
  {
    var k := if |d| >= 2 then |d| - 2 else 0;
    seq(k, i requires 0 <= i < k => LagCoefficient(d, i + 1, cov))
  }

  /** The normalised autocorrelation function of a series. A series of one
      sample has none; `autocorrelation` panics on an empty one (`n - 1` underflows)
      and divides by zero for a constant series of three or more samples. */
  function Autocorrelation(ts: seq<real>): (ac: seq<real>)
    requires |ts| >= 1
    requires |ts| >= 3 ==> SampleVariance(ts) > 0.0
    ensures |ac| == if |ts| >= 2 then |ts| - 2 else 0
    ensures |ts| >= 3 ==> ScaledLags(ac, Deviations(ts), SampleVariance(ts))
  {
    var cov := if |ts| >= 3 then SampleVariance(ts) else 0.0;
    if |ts| >= 3 then
      LagCorrelationsScaled(Deviations(ts), cov);
      LagCorrelations(Deviations(ts), cov)
    else
      LagCorrelations(Deviations(ts), cov)
  }

  /** Entry `t - 1` of `ac` times `(n - t) cov` is the sum of the lag-`t` products of `d`. */
  predicate ScaledLags(ac: seq<real>, d: seq<real>, cov: real)
    requires |ac| + 2 == |d|
  {
    forall t :: 1 <= t <= |ac| ==> ac[t - 1] * (((|d| - t) as real) * cov) == Sum(LagProducts(d, t))
  }

  lemma LagCorrelationsScaled(d: seq<real>, cov: real)
    requires |d| >= 3 && cov > 0.0
    ensures ScaledLags(LagCorrelations(d, cov), d, cov)
  {
    forall t | 1 <= t <= |d| - 2
      ensures LagCorrelations(d, cov)[t - 1] * (((|d| - t) as real) * cov) == Sum(LagProducts(d, t))
    {
      LagCorrelationAtLag(d, cov, t);
    }
  }

  /** The entry for lag `t` is the sum of the lag-`t` products over
      `(n - t) cov`: the doubling in `autocorrelation` cancels. */
  lemma LagCorrelationAtLag(d: seq<real>, cov: real, t: nat)
    requires |d| >= 3 && cov > 0.0 && 1 <= t <= |d| - 2
    ensures LagCorrelations(d, cov)[t - 1] * (((|d| - t) as real) * cov) == Sum(LagProducts(d, t))
  {
    var c := LagCorrelations(d, cov)[t - 1];
    assert c == LagCoefficient(d, t, cov);
    LagCoefficientScaled(d, t, cov);
    MulEqual(((|d| - t) as real) * cov, c, LagCoefficient(d, t, cov));
  }

  /** Every sample moved by `c`. */
  function Shift(x: seq<real>, c: real): (y: seq<real>)
    ensures |y| == |x|
    ensures forall i :: 0 <= i < |x| ==> y[i] == x[i] + c
  {
    seq(|x|, i requires 0 <= i < |x| => x[i] + c)
  }

  lemma {:induction false} SumShift(x: seq<real>, c: real)
    ensures Sum(Shift(x, c)) == Sum(x) + (|x| as real) * c
  {
    if |x| > 0 {
      assert Shift(x, c)[1..] == Shift(x[1..], c);
      SumShift(x[1..], c);
    }
  }

  lemma MeanShift(x: seq<real>, c: real)
    requires |x| > 0
    ensures Mean(Shift(x, c)) == Mean(x) + c
  {
    MeanShiftValues(x, c, Mean(x), Mean(Shift(x, c)));
  }

  lemma MeanShiftValues(x: seq<real>, c: real, m: real, m': real)
    requires |x| > 0 && m == Mean(x) && m' == Mean(Shift(x, c))
    ensures m' == m + c
  {
    var n, s, s' := |x| as real, Sum(x), Sum(Shift(x, c));
    SumShift(x, c);
    MeanTimesLength(x, m, n, s);
    MeanTimesLength(Shift(x, c), m', n, s');
    MeanMoves(m, m', c, n, s, s');
  }

  lemma MeanTimesLength(x: seq<real>, m: real, n: real, s: real)
    requires |x| > 0 && m == Mean(x) && n == |x| as real && s == Sum(x)
    ensures m * n == s
  {
  }

  lemma MeanMoves(m: real, m': real, c: real, n: real, s: real, s': real)
    requires n > 0.0 && m * n == s && m' * n == s' && s' == s + n * c
    ensures m' == m + c
  {
    assert (m' - m - c) * n == 0.0;
    ZeroProductFactor(m' - m - c, n);
  }

  /** The autocorrelation does not depend on where the series sits: moving
      every sample by the same amount leaves it unchanged. */
  lemma AutocorrelationShiftInvariant(ts: seq<real>, c: real)
    requires |ts| >= 1
    requires |ts| >= 3 ==> SampleVariance(ts) > 0.0
    ensures |ts| >= 3 ==> SampleVariance(Shift(ts, c)) == SampleVariance(ts)
    ensures Autocorrelation(Shift(ts, c)) == Autocorrelation(ts)
  {
    MeanShift(ts, c);
    assert Deviations(Shift(ts, c)) == Deviations(ts);
    assert SquaredDeviations(Shift(ts, c)) == SquaredDeviations(ts);
  }

  /** Length of the leading run of strictly positive entries. */
  function LeadingPositive(ac: seq<real>): (k: nat)
    ensures k <= |ac|
    ensures forall i :: 0 <= i < k ==> ac[i] > 0.0
    ensures k < |ac| ==> ac[k] <= 0.0
  {
    if |ac| == 0 || ac[0] <= 0.0 then 0 else 1 + LeadingPositive(ac[1..])
  }

  /** The leading positive run is the only prefix of positive entries that
      is followed by a non-positive one or by the end. */
  lemma LeadingPositiveUnique(ac: seq<real>, k: nat)
    requires k <= |ac|
    requires forall i :: 0 <= i < k ==> ac[i] > 0.0
    requires k < |ac| ==> ac[k] <= 0.0
    ensures LeadingPositive(ac) == k
  {
  }

  /** The term `2 c (1 - t / n)` that the autocorrelation `c` at lag `t`
      adds to the inefficiency of a series of `n` samples. */
  function LagTerm(c: real, t: nat, n: nat): real
    requires n > 0
  {
    2.0 * c * (1.0 - (t as real) / (n as real))
  }

  /** The lag term of every autocorrelation entry; entry `i` is lag `i + 1`. */
  function IneffTerms(ac: seq<real>, n: nat): (terms: seq<real>)
    requires n > 0
    ensures |terms| == |ac|
    ensures forall i :: 0 <= i < |ac| ==> terms[i] == LagTerm(ac[i], i + 1, n)
  {
    seq(|ac|, i requires 0 <= i < |ac| => LagTerm(ac[i], i + 1, n))
  }

  /** Every term of the leading positive run is positive, because its lag
      stays below the series length. */
  lemma LeadingTermsPositive(ac: seq<real>, n: nat)
    requires n > 0 && |ac| < n
    ensures forall i :: 0 <= i < LeadingPositive(ac) ==> IneffTerms(ac, n)[i] > 0.0
  {
    forall i | 0 <= i < LeadingPositive(ac)
      ensures IneffTerms(ac, n)[i] > 0.0
    {
      TermPositive(ac[i], i + 1, n);
    }
  }

  lemma TermPositive(c: real, t: nat, n: nat)
    requires c > 0.0 && t < n
    ensures LagTerm(c, t, n) > 0.0
  {
    assert (t as real) / (n as real) < 1.0;
    MulPositive(2.0 * c, 1.0 - (t as real) / (n as real));
  }

  /** The inefficiency of a series as a closed form: one plus the terms of
      the leading positive run of its autocorrelation. */
  function Ineff(ts: seq<real>): real
    requires |ts| >= 1
    requires |ts| >= 3 ==> SampleVariance(ts) > 0.0
  {
    var ac := Autocorrelation(ts);
    1.0 + Sum(IneffTerms(ac, |ts|)[..LeadingPositive(ac)])
  }

  /** `g` is at least one, and is exactly one when and only when the
      autocorrelation at lag 1 is not positive or there is no lag 1. */
  lemma IneffAtLeastOne(ts: seq<real>)
    requires |ts| >= 1
    requires |ts| >= 3 ==> SampleVariance(ts) > 0.0
    ensures Ineff(ts) >= 1.0
    ensures Ineff(ts) == 1.0 <==> |ts| <= 2 || Autocorrelation(ts)[0] <= 0.0
  {
    var ac := Autocorrelation(ts);
    var k := LeadingPositive(ac);
    var head := IneffTerms(ac, |ts|)[..k];
    LeadingTermsPositive(ac, |ts|);
    assert AllNonNegative(head);
    SumNonNegative(head);
    if k > 0 {
      assert head[0] > 0.0;
      SumPositive(head);
    }
  }

  /** `statistical_ineff`: add the lag terms while the autocorrelation stays
      positive, stop at the first value that is not, and clamp below at one. */
  method StatisticalIneff(ts: seq<real>) returns (g: real)
    requires |ts| >= 1
    requires |ts| >= 3 ==> SampleVariance(ts) > 0.0
    ensures g == Ineff(ts)
    ensures g >= 1.0
    ensures g == 1.0 <==> |ts| <= 2 || Autocorrelation(ts)[0] <= 0.0
  {
    var ac := Autocorrelation(ts);
    g := SumLeadingTerms(ac, |ts|);
    IneffAtLeastOne(ts);
    if g < 1.0 {
      g := 1.0;
    }
  }

  /** The loop of `statistical_ineff` over lags `1 .. n - 2`: one plus the
      lag terms up to the first autocorrelation that is not positive. */
  method SumLeadingTerms(ac: seq<real>, n: nat) returns (g: real)
    requires n >= 1 && |ac| == if n >= 2 then n - 2 else 0
    ensures g == 1.0 + Sum(IneffTerms(ac, n)[..LeadingPositive(ac)])
  {
    ghost var terms := IneffTerms(ac, n);
    g := 1.0;
    var t := 1;
    while t < n - 1
      invariant 1 <= t && t - 1 <= |ac|
      invariant forall i :: 0 <= i < t - 1 ==> ac[i] > 0.0
      invariant g == 1.0 + Sum(terms[..t - 1])
    {
      var c := ac[t - 1];
      if c <= 0.0 {
        break;
      }
      SumPrefixStep(terms, t - 1);
      g := g + LagTerm(c, t, n);
      t := t + 1;
    }
    LeadingPositiveUnique(ac, t - 1);
  }

  /** `autocorrelation_time`: the time `tau` with `g = 1 + 2 tau`. */
  function AutocorrelationTime(g: real): (tau: real)
    ensures 1.0 + 2.0 * tau == g
    ensures g >= 1.0 ==> tau >= 0.0
  {
    (g - 1.0) / 2.0
  }

  /** The autocorrelation time of any series is non-negative, and zero
      exactly when its inefficiency is one. */
  lemma AutocorrelationTimeOfIneff(ts: seq<real>)
    requires |ts| >= 1
    requires |ts| >= 3 ==> SampleVariance(ts) > 0.0
    ensures AutocorrelationTime(Ineff(ts)) >= 0.0
    ensures AutocorrelationTime(Ineff(ts)) == 0.0 <==> |ts| <= 2 || Autocorrelation(ts)[0] <= 0.0
  {
    IneffAtLeastOne(ts);
  }
}
