/** The WHAM fixed-point solver (src/lib.rs). Bias offsets are kept in the
    exponential form `F = exp(f / kT)` as in the Rust code; the bias factor
    `calc_bias(bin, window)` and the logarithm are parameters, so the solver
    is modelled over any positive bias and any `ln`. */
module Wham {
  import opened Wrappers
  import opened Sums

  /** What the solver reads from a data set: the per-bin total counts,
      each window's number of data points, `kT`, and the positive bias
      factor of every (bin, window) pair. */
  datatype Dataset = Dataset(
    numBins: nat,
    numWindows: nat,
    binCount: seq<real>,
    numPoints: seq<nat>,
    kT: real,
    calcBias: (nat, nat) -> real)
  {
    /** Shape and sign facts a data set built from non-empty histograms has. */
    ghost predicate Valid()
    {
      && numWindows >= 1
      && |binCount| == numBins && |numPoints| == numWindows
      && AllNonNegative(binCount) && SomePositive(binCount)
      && (exists w :: 0 <= w < numWindows && numPoints[w] > 0)
      && (forall b, w :: 0 <= b < numBins && 0 <= w < numWindows ==> calcBias(b, w) > 0.0)
    }
  }

  /** The solver's three result vectors: normalised bin probabilities, the
      bias offsets `F` and the previous offsets `F_prev`. */
  datatype WhamResult = WhamResult(P: seq<real>, F: seq<real>, Fprev: seq<real>)

  /** Bin probabilities and bias offsets after one iteration. */
  datatype WhamState = WhamState(P: seq<real>, F: seq<real>)

  const NOT_CONVERGED: string := "WHAM not converged! (max iterations reached)"

  /** Convergence is checked only on every `CHECK_INTERVAL`-th iteration. */
  const CHECK_INTERVAL: nat := 10

  function Abs(x: real): real
  {
    if x < 0.0 then -x else x
  }

  /** `is_converged`: no paired offsets differ by more than the tolerance;
      entries beyond the shorter vector are not compared. */
  function IsConverged(oldF: seq<real>, newF: seq<real>, tolerance: real): (r: bool)
    ensures r <==> forall i :: 0 <= i < |oldF| && i < |newF| ==> Abs(newF[i] - oldF[i]) <= tolerance
  {
    if |oldF| == 0 || |newF| == 0 then true
    else
      var rest := IsConverged(oldF[1..], newF[1..], tolerance);
      assert forall i :: 1 <= i < |oldF| && i < |newF| ==>
               newF[i] == newF[1..][i - 1] && oldF[i] == oldF[1..][i - 1];
      Abs(newF[0] - oldF[0]) <= tolerance && rest
  }

  /** Terms of the denominator of the first WHAM equation for `bin`:
      `N_w * bias(bin, w) * F_w` for every window. One window with data
      points makes the sum positive; `calc_window_F` never reads `N_w`. */
  function BinDenominatorTerms(ds: Dataset, bin: nat, F: seq<real>): (t: seq<real>)
    requires |ds.numPoints| == ds.numWindows && |F| == ds.numWindows
    ensures |t| == ds.numWindows
  {
    seq(ds.numWindows, w requires 0 <= w < ds.numWindows =>
      (ds.numPoints[w] as real) * ds.calcBias(bin, w) * F[w])
  }

  lemma BinDenominatorPositive(ds: Dataset, bin: nat, F: seq<real>)
    requires ds.Valid() && bin < ds.numBins && |F| == ds.numWindows && AllPositive(F)
    ensures Sum(BinDenominatorTerms(ds, bin, F)) > 0.0
  {
    var t := BinDenominatorTerms(ds, bin, F);
    forall w | 0 <= w < ds.numWindows
      ensures t[w] >= 0.0
    {
      MulNonNegative(ds.numPoints[w] as real, ds.calcBias(bin, w));
      MulNonNegative((ds.numPoints[w] as real) * ds.calcBias(bin, w), F[w]);
    }
    var k :| 0 <= k < ds.numWindows && ds.numPoints[k] > 0;
    MulPositive(ds.numPoints[k] as real, ds.calcBias(bin, k));
    MulPositive((ds.numPoints[k] as real) * ds.calcBias(bin, k), F[k]);
    assert t[k] > 0.0;
    SumPositive(t);
  }

  /** `calc_bin_probability`, the first WHAM equation: the bin's total
      count over the bias-weighted window sizes. */
  function BinProbability(ds: Dataset, bin: nat, F: seq<real>): (p: real)
    requires ds.Valid() && bin < ds.numBins && |F| == ds.numWindows && AllPositive(F)
    ensures p >= 0.0
    ensures p == 0.0 <==> ds.binCount[bin] == 0.0
    ensures p * Sum(BinDenominatorTerms(ds, bin, F)) == ds.binCount[bin]
  {
    BinDenominatorPositive(ds, bin, F);
    ds.binCount[bin] / Sum(BinDenominatorTerms(ds, bin, F))
  }

  /** Terms of the second WHAM equation for window `w`: `P_b * bias(b, w)`. */
  function WindowTerms(ds: Dataset, w: nat, P: seq<real>): (t: seq<real>)
    requires |P| == ds.numBins
    ensures |t| == ds.numBins
  {
    seq(ds.numBins, b requires 0 <= b < ds.numBins => P[b] * ds.calcBias(b, w))
  }

  lemma WindowSumPositive(ds: Dataset, w: nat, P: seq<real>)
    requires ds.Valid() && w < ds.numWindows && |P| == ds.numBins
    requires AllNonNegative(P) && SomePositive(P)
    ensures Sum(WindowTerms(ds, w, P)) > 0.0
  {
    var t := WindowTerms(ds, w, P);
    var k :| 0 <= k < |P| && P[k] > 0.0;
    assert t[k] > 0.0;
    forall b | 0 <= b < ds.numBins
      ensures t[b] >= 0.0
    {
      assert ds.calcBias(b, w) > 0.0;
    }
    SumPositive(t);
  }

  /** `calc_window_F`, the second WHAM equation: the reciprocal of the
      bias-weighted total probability, i.e. `exp(f_w / kT)`. */
  function WindowF(ds: Dataset, w: nat, P: seq<real>): (f: real)
    requires ds.Valid() && w < ds.numWindows && |P| == ds.numBins
    requires AllNonNegative(P) && SomePositive(P)
    ensures f > 0.0
    ensures f * Sum(WindowTerms(ds, w, P)) == 1.0
  {
    WindowSumPositive(ds, w, P);
    1.0 / Sum(WindowTerms(ds, w, P))
  }

  /** Two windows with the same bias factor at every bin get the same offset. */
  lemma WindowFDependsOnlyOnBias(ds: Dataset, w1: nat, w2: nat, P: seq<real>)
    requires ds.Valid() && w1 < ds.numWindows && w2 < ds.numWindows && |P| == ds.numBins
    requires AllNonNegative(P) && SomePositive(P)
    requires forall b :: 0 <= b < ds.numBins ==> ds.calcBias(b, w1) == ds.calcBias(b, w2)
    ensures WindowF(ds, w1, P) == WindowF(ds, w2, P)
  {
    var t1, t2 := WindowTerms(ds, w1, P), WindowTerms(ds, w2, P);
    forall b | 0 <= b < ds.numBins
      ensures t1[b] == t2[b]
    {
      MulEqual(P[b], ds.calcBias(b, w1), ds.calcBias(b, w2));
    }
    assert t1 == t2;
  }

  /** The first WHAM equation evaluated at every bin. */
  function Probabilities(ds: Dataset, Fprev: seq<real>): (P: seq<real>)
    requires ds.Valid() && |Fprev| == ds.numWindows && AllPositive(Fprev)
    ensures |P| == ds.numBins && AllNonNegative(P) && SomePositive(P)
    ensures forall b :: 0 <= b < ds.numBins ==> P[b] == BinProbability(ds, b, Fprev)
  {
    var P := seq(ds.numBins, b requires 0 <= b < ds.numBins => BinProbability(ds, b, Fprev));
    var k :| 0 <= k < ds.numBins && ds.binCount[k] > 0.0;
    assert P[k] > 0.0;
    P
  }

  /** The second WHAM equation evaluated at every window. */
  function Offsets(ds: Dataset, P: seq<real>): (F: seq<real>)
    requires ds.Valid() && |P| == ds.numBins && AllNonNegative(P) && SomePositive(P)
    ensures |F| == ds.numWindows && AllPositive(F)
    ensures forall w :: 0 <= w < ds.numWindows ==> F[w] == WindowF(ds, w, P)
  {
    seq(ds.numWindows, w requires 0 <= w < ds.numWindows => WindowF(ds, w, P))
  }

  /** `perform_wham_iteration`: every bin probability from the previous
      offsets, then every offset from the new probabilities. The previous
      offsets are an input and are not changed. */
  function Iterate(ds: Dataset, Fprev: seq<real>): (s: WhamState)
    requires ds.Valid() && |Fprev| == ds.numWindows && AllPositive(Fprev)
    ensures |s.P| == ds.numBins && |s.F| == ds.numWindows
    ensures AllNonNegative(s.P) && SomePositive(s.P) && AllPositive(s.F)
    ensures s.P == Probabilities(ds, Fprev) && s.F == Offsets(ds, s.P)
  {
    var P := Probabilities(ds, Fprev);
    WhamState(P, Offsets(ds, P))
  }

  /** Scaling the offsets scales the bin's weighted window total. */
  lemma ScaledBinDenominator(ds: Dataset, b: nat, F: seq<real>, c: real)
    requires |ds.numPoints| == ds.numWindows && |F| == ds.numWindows
    ensures Sum(BinDenominatorTerms(ds, b, Scale(F, c))) == Sum(BinDenominatorTerms(ds, b, F)) * c
  {
    var t := BinDenominatorTerms(ds, b, F);
    var t' := BinDenominatorTerms(ds, b, Scale(F, c));
    forall w | 0 <= w < ds.numWindows
      ensures t'[w] == t[w] * c
    {
      MulAssoc((ds.numPoints[w] as real) * ds.calcBias(b, w), F[w], c);
    }
    ScaleExtensional(t', t, c);
    SumScale(t, c);
  }

  /** Scaling the offsets by `c` divides one bin probability by `c`. */
  lemma ScaledBinProbability(ds: Dataset, b: nat, F: seq<real>, c: real)
    requires ds.Valid() && b < ds.numBins && |F| == ds.numWindows && AllPositive(F) && c > 0.0
    ensures AllPositive(Scale(F, c))
    ensures BinProbability(ds, b, Scale(F, c)) == BinProbability(ds, b, F) * (1.0 / c)
  {
    forall w | 0 <= w < |F|
      ensures Scale(F, c)[w] > 0.0
    {
      MulPositive(F[w], c);
    }
    ScaledBinDenominator(ds, b, F, c);
    BinDenominatorPositive(ds, b, F);
    DivideScaled(ds.binCount[b], Sum(BinDenominatorTerms(ds, b, F)), c);
  }

  /** Scaling by a positive factor keeps the signs of every entry. */
  lemma ScaleKeepsSigns(P: seq<real>, k: real)
    requires AllNonNegative(P) && SomePositive(P) && k > 0.0
    ensures AllNonNegative(Scale(P, k)) && SomePositive(Scale(P, k))
  {
    var j :| 0 <= j < |P| && P[j] > 0.0;
    assert Scale(P, k)[j] > 0.0;
    forall i | 0 <= i < |P|
      ensures Scale(P, k)[i] >= 0.0
    {
      MulNonNegative(P[i], k);
    }
  }

  /** Scaling the probabilities scales the window's weighted total. */
  lemma ScaledWindowSum(ds: Dataset, w: nat, P: seq<real>, k: real)
    requires |P| == ds.numBins
    ensures Sum(WindowTerms(ds, w, Scale(P, k))) == Sum(WindowTerms(ds, w, P)) * k
  {
    var t := WindowTerms(ds, w, P);
    var t' := WindowTerms(ds, w, Scale(P, k));
    forall b | 0 <= b < ds.numBins
      ensures t'[b] == t[b] * k
    {
      MulSwap(P[b], k, ds.calcBias(b, w));
    }
    ScaleExtensional(t', t, k);
    SumScale(t, k);
  }

  /** Dividing the probabilities by `c` multiplies one window offset by `c`. */
  lemma ScaledWindowF(ds: Dataset, w: nat, P: seq<real>, c: real)
    requires ds.Valid() && w < ds.numWindows && |P| == ds.numBins
    requires AllNonNegative(P) && SomePositive(P) && c > 0.0
    ensures AllNonNegative(Scale(P, 1.0 / c)) && SomePositive(Scale(P, 1.0 / c))
    ensures WindowF(ds, w, Scale(P, 1.0 / c)) == WindowF(ds, w, P) * c
  {
    ScaleKeepsSigns(P, 1.0 / c);
    ScaledWindowSum(ds, w, P, 1.0 / c);
    WindowSumPositive(ds, w, P);
    ReciprocalScaled(Sum(WindowTerms(ds, w, P)), c);
  }

  lemma ScaledProbabilities(ds: Dataset, F: seq<real>, c: real)
    requires ds.Valid() && |F| == ds.numWindows && AllPositive(F) && c > 0.0
    ensures AllPositive(Scale(F, c))
    ensures Probabilities(ds, Scale(F, c)) == Scale(Probabilities(ds, F), 1.0 / c)
  {
    var P := Probabilities(ds, F);
    var P' := Probabilities(ds, Scale(F, c));
    forall b | 0 <= b < ds.numBins
      ensures P'[b] == P[b] * (1.0 / c)
    {
      ScaledBinProbability(ds, b, F, c);
    }
    ScaleExtensional(P', P, 1.0 / c);
  }

  lemma ScaledOffsets(ds: Dataset, P: seq<real>, c: real)
    requires ds.Valid() && |P| == ds.numBins && AllNonNegative(P) && SomePositive(P) && c > 0.0
    ensures AllNonNegative(Scale(P, 1.0 / c)) && SomePositive(Scale(P, 1.0 / c))
    ensures Offsets(ds, Scale(P, 1.0 / c)) == Scale(Offsets(ds, P), c)
  {
    var F := Offsets(ds, P);
    ScaledWindowF(ds, 0, P, c);
    var F' := Offsets(ds, Scale(P, 1.0 / c));
    forall w | 0 <= w < ds.numWindows
      ensures F'[w] == F[w] * c
    {
      ScaledWindowF(ds, w, P, c);
    }
    ScaleExtensional(F', F, c);
  }

  /** Multiplying every offset by `c > 0` divides every new probability by
      `c` and multiplies every new offset by `c`: the iteration fixes the
      free-energy offsets only up to a common additive constant. */
  lemma IterateScaleEquivariant(ds: Dataset, F: seq<real>, c: real)
    requires ds.Valid() && |F| == ds.numWindows && AllPositive(F) && c > 0.0
    ensures AllPositive(Scale(F, c))
    ensures Iterate(ds, Scale(F, c)).P == Scale(Iterate(ds, F).P, 1.0 / c)
    ensures Iterate(ds, Scale(F, c)).F == Scale(Iterate(ds, F).F, c)
  {
    ScaledProbabilities(ds, F, c);
    ScaledOffsets(ds, Probabilities(ds, F), c);
  }

  lemma MulAssoc(a: real, f: real, c: real)
    ensures a * (f * c) == (a * f) * c
  {
  }

  lemma MulSwap(p: real, k: real, b: real)
    ensures (p * k) * b == (p * b) * k
  {
  }

  lemma DivideScaled(a: real, s: real, c: real)
    requires s > 0.0 && c > 0.0
    ensures a / (s * c) == (a / s) * (1.0 / c)
  {
  }

  lemma ReciprocalScaled(s: real, c: real)
    requires s > 0.0 && c > 0.0
    ensures 1.0 / (s * (1.0 / c)) == (1.0 / s) * c
  {
  }

  /** The offsets after `k` iterations, starting from all ones. */
  function FAfter(ds: Dataset, k: nat): (F: seq<real>)
    requires ds.Valid()
    ensures |F| == ds.numWindows && AllPositive(F)
  {
    if k == 0 then seq(ds.numWindows, _ => 1.0) else Iterate(ds, FAfter(ds, k - 1)).F
  }

  /** The probabilities computed by iteration `k`. */
  function PAfter(ds: Dataset, k: nat): (P: seq<real>)
    requires ds.Valid() && k >= 1
    ensures |P| == ds.numBins && AllNonNegative(P) && SomePositive(P)
  {
    Iterate(ds, FAfter(ds, k - 1)).P
  }

  /** Offsets in free-energy form, `-kT ln F`. */
  function Energies(F: seq<real>, kT: real, ln: real -> real): (E: seq<real>)
    ensures |E| == |F|
    ensures forall i :: 0 <= i < |F| ==> E[i] == -kT * ln(F[i])
  {
    seq(|F|, i requires 0 <= i < |F| => -kT * ln(F[i]))
  }

  /** The convergence test performed at the end of iteration `k`. */
  ghost predicate CheckPasses(ds: Dataset, k: nat, tolerance: real, ln: real -> real)
    requires ds.Valid() && k >= 1
  {
    IsConverged(Energies(FAfter(ds, k - 1), ds.kT, ln), Energies(FAfter(ds, k), ds.kT, ln), tolerance)
  }

  /** No convergence test performed before iteration `n` passes. */
  ghost predicate NeverConverges(ds: Dataset, n: nat, tolerance: real, ln: real -> real)
    requires ds.Valid()
  {
    forall k :: 1 <= k < n && k % CHECK_INTERVAL == 0 ==> !CheckPasses(ds, k, tolerance, ln)
  }

  /** Iteration `k` performs the first convergence test that passes. */
  ghost predicate FirstConvergence(ds: Dataset, k: nat, tolerance: real, ln: real -> real)
    requires ds.Valid()
  {
    && k >= 1 && k % CHECK_INTERVAL == 0 && CheckPasses(ds, k, tolerance, ln)
    && NeverConverges(ds, k, tolerance, ln)
  }

  lemma NeverConvergesStep(ds: Dataset, n: nat, tolerance: real, ln: real -> real)
    requires ds.Valid() && n >= 1 && NeverConverges(ds, n, tolerance, ln)
    requires n % CHECK_INTERVAL == 0 ==> !CheckPasses(ds, n, tolerance, ln)
    ensures NeverConverges(ds, n + 1, tolerance, ln)
  {
    forall k | 1 <= k < n + 1 && k % CHECK_INTERVAL == 0
      ensures !CheckPasses(ds, k, tolerance, ln)
    {
      if k == n {
      } else {
        assert k < n;
      }
    }
  }

  lemma NeverConvergesShrink(ds: Dataset, m: nat, n: nat, tolerance: real, ln: real -> real)
    requires ds.Valid() && m <= n && NeverConverges(ds, n, tolerance, ln)
    ensures NeverConverges(ds, m, tolerance, ln)
  {
  }

  /** A passing test before `n` rules out that no test before `n` passes. */
  lemma ConvergedBefore(ds: Dataset, k: nat, n: nat, tolerance: real, ln: real -> real)
    requires ds.Valid() && k < n && FirstConvergence(ds, k, tolerance, ln)
    ensures !NeverConverges(ds, n, tolerance, ln)
  {
  }

  /** Rescales `P` to sum to one; a zero-sum vector is left as it is. */
  function Normalise(P: seq<real>): (r: seq<real>)
    ensures |r| == |P|
    ensures Sum(P) != 0.0 ==> Sum(r) == 1.0 && forall i :: 0 <= i < |P| ==> r[i] * Sum(P) == P[i]
    ensures Sum(P) == 0.0 ==> r == P
  {
    var s := Sum(P);
    if s == 0.0 then P
    else
      SumScale(P, 1.0 / s);
      Scale(P, 1.0 / s)
  }

  lemma NormalisePreservesSign(P: seq<real>)
    requires AllNonNegative(P) && SomePositive(P)
    ensures AllNonNegative(Normalise(P))
  {
    SumPositive(P);
    var k := 1.0 / Sum(P);
    assert k > 0.0;
    assert Normalise(P) == Scale(P, k);
    ScaleKeepsSigns(P, k);
  }

  lemma IterationStep(ds: Dataset, k: nat, Fprev: seq<real>)
    requires ds.Valid() && k >= 1 && Fprev == FAfter(ds, k - 1)
    ensures Iterate(ds, Fprev).F == FAfter(ds, k) && Iterate(ds, Fprev).P == PAfter(ds, k)
  {
  }

  lemma CheckMatches(ds: Dataset, k: nat, Fprev: seq<real>, F: seq<real>, tolerance: real, ln: real -> real)
    requires ds.Valid() && k >= 1 && Fprev == FAfter(ds, k - 1) && F == FAfter(ds, k)
    ensures IsConverged(Energies(Fprev, ds.kT, ln), Energies(F, ds.kT, ln), tolerance)
            == CheckPasses(ds, k, tolerance, ln)
  {
  }

  /** The convergence test of `perform_wham`: both offset vectors are
      converted in place to `-kT ln` form and compared, then `F` is restored
      from its backup while `F_prev` keeps the converted values. */
  method ConvergenceCheck(F: seq<real>, Fprev: seq<real>, kT: real, tolerance: real, ln: real -> real)
    returns (F': seq<real>, Fprev': seq<real>, converged: bool)
    ensures F' == F
    ensures Fprev' == Energies(Fprev, kT, ln)
    ensures converged == IsConverged(Fprev', Energies(F, kT, ln), tolerance)
  {
    var Ftmp := F;
    F' := Energies(F, kT, ln);
    Fprev' := Energies(Fprev, kT, ln);
    converged := IsConverged(Fprev', F', tolerance);
    F' := Ftmp;
  }

  /** The loop state of `perform_wham` after `iteration` iterations: `F` and
      `P` are those of the trajectory, and `converged` records whether the
      last test passed, every earlier one having failed. */
  ghost predicate Reached(ds: Dataset, iteration: nat, converged: bool, P: seq<real>, F: seq<real>,
                          Fprev: seq<real>, tolerance: real, ln: real -> real)
    requires ds.Valid()
  {
    && F == FAfter(ds, iteration) && |P| == ds.numBins
    && (iteration >= 1 ==> P == PAfter(ds, iteration))
    && (converged ==> && FirstConvergence(ds, iteration, tolerance, ln)
                      && Fprev == Energies(FAfter(ds, iteration - 1), ds.kT, ln))
    && (!converged ==> NeverConverges(ds, iteration + 1, tolerance, ln))
  }

  /** The iteration loop of `perform_wham`: stops after a passing
      convergence test or when `maxIterations` iterations were done. */
  method RunIterations(ds: Dataset, maxIterations: nat, tolerance: real, ln: real -> real)
    returns (iteration: nat, converged: bool, P: seq<real>, F: seq<real>, Fprev: seq<real>)
    requires ds.Valid()
    ensures iteration <= maxIterations && (converged || iteration == maxIterations)
    ensures Reached(ds, iteration, converged, P, F, Fprev, tolerance, ln)
  {
    // P and F_prev start as NaN in `perform_wham`; they are overwritten before
    // any value of theirs can be returned.
    P := seq(ds.numBins, _ => 0.0);
    F := seq(ds.numWindows, _ => 1.0);
    Fprev := F;
    iteration := 0;
    converged := false;
    while !converged && iteration < maxIterations
      invariant iteration <= maxIterations
      invariant Reached(ds, iteration, converged, P, F, Fprev, tolerance, ln)
      decreases maxIterations - iteration
    {
      iteration := iteration + 1;
      P, F, Fprev, converged := IterationWithCheck(ds, iteration, F, tolerance, ln);
    }
  }

  /** One pass of the loop body of `perform_wham`: an iteration of both WHAM
      equations, followed on every tenth iteration by the convergence test. */
  method IterationWithCheck(ds: Dataset, iteration: nat, F: seq<real>, tolerance: real, ln: real -> real)
    returns (P': seq<real>, F': seq<real>, Fprev': seq<real>, converged: bool)
    requires ds.Valid() && iteration >= 1 && F == FAfter(ds, iteration - 1)
    requires NeverConverges(ds, iteration, tolerance, ln)
    ensures F' == FAfter(ds, iteration) && P' == PAfter(ds, iteration)
    ensures converged ==> && FirstConvergence(ds, iteration, tolerance, ln)
                          && Fprev' == Energies(FAfter(ds, iteration - 1), ds.kT, ln)
    ensures !converged ==> NeverConverges(ds, iteration + 1, tolerance, ln)
  {
    Fprev' := F;
    var state := Iterate(ds, Fprev');
    P', F' := state.P, state.F;
    IterationStep(ds, iteration, Fprev');
    converged := false;
    if iteration % CHECK_INTERVAL == 0 {
      CheckMatches(ds, iteration, Fprev', F', tolerance, ln);
      F', Fprev', converged := ConvergenceCheck(F', Fprev', ds.kT, tolerance, ln);
    }
    if !converged {
      NeverConvergesStep(ds, iteration, tolerance, ln);
    }
  }

  /** `perform_wham`: iterate until a convergence test passes or the
      iteration budget is spent, normalise `P`, and fail when the loop ended
      on the last allowed iteration. On success `F` is in exponential form
      while `F_prev` holds the free-energy form written by the last test. */
  method PerformWham(ds: Dataset, maxIterations: nat, tolerance: real, ln: real -> real)
    returns (r: Result<WhamResult, string>)
    requires ds.Valid()
    ensures r.Failure? <==> NeverConverges(ds, maxIterations, tolerance, ln)
    ensures r.Failure? ==> r.error == NOT_CONVERGED
    ensures r.Success? ==>
              exists k :: 1 <= k < maxIterations && FirstConvergence(ds, k, tolerance, ln)
                && r.value.P == Normalise(PAfter(ds, k))
                && r.value.F == FAfter(ds, k)
                && r.value.Fprev == Energies(FAfter(ds, k - 1), ds.kT, ln)
    ensures r.Success? ==>
              && |r.value.P| == ds.numBins && Sum(r.value.P) == 1.0 && AllNonNegative(r.value.P)
              && |r.value.F| == ds.numWindows && |r.value.Fprev| == ds.numWindows
  {
    var iteration, converged, P, F, Fprev := RunIterations(ds, maxIterations, tolerance, ln);
    if iteration >= 1 {
      NormalisePreservesSign(P);
      SumPositive(P);
    }
    P := Normalise(P);
    if iteration == maxIterations {
      if converged {
        NeverConvergesShrink(ds, maxIterations, iteration, tolerance, ln);
      } else {
        NeverConvergesShrink(ds, maxIterations, maxIterations + 1, tolerance, ln);
      }
      return Failure(NOT_CONVERGED);
    }
    ConvergedBefore(ds, iteration, maxIterations, tolerance, ln);
    return Success(WhamResult(P, F, Fprev));
  }

  /** Absolute differences of paired offsets. */
  function AbsDiffs(F: seq<real>, Fprev: seq<real>): (d: seq<real>)
    requires |Fprev| >= |F|
    ensures |d| == |F| && AllNonNegative(d)
  {
    seq(|F|, i requires 0 <= i < |F| => Abs(F[i] - Fprev[i]))
  }

  /** `diff_avg`: the mean absolute change of the offsets. */
  function DiffAvg(F: seq<real>, Fprev: seq<real>): (r: real)
    requires |F| > 0 && |Fprev| >= |F|
    ensures r * (|F| as real) == Sum(AbsDiffs(F, Fprev))
    ensures r >= 0.0
    ensures r == 0.0 <==> forall i :: 0 <= i < |F| ==> F[i] == Fprev[i]
  {
    var d := AbsDiffs(F, Fprev);
    SumNonNegative(d);
    SumZeroIffAllZero(d);
    assert forall i :: 0 <= i < |F| ==> (d[i] == 0.0 <==> F[i] == Fprev[i]);
    Sum(d) / (|F| as real)
  }

  /** When the convergence test passes, the mean change is within the tolerance too. */
  lemma ConvergedBoundsDiffAvg(F: seq<real>, Fprev: seq<real>, tolerance: real)
    requires |F| > 0 && |Fprev| == |F|
    requires IsConverged(Fprev, F, tolerance)
    ensures DiffAvg(F, Fprev) <= tolerance
  {
    BoundedChangesBoundDiffAvg(F, Fprev, tolerance);
  }

  /** A mean of absolute changes that are each within `tolerance` is within it too. */
  lemma BoundedChangesBoundDiffAvg(F: seq<real>, Fprev: seq<real>, tolerance: real)
    requires |F| > 0 && |Fprev| == |F|
    requires forall i :: 0 <= i < |F| ==> Abs(F[i] - Fprev[i]) <= tolerance
    ensures DiffAvg(F, Fprev) <= tolerance
  {
    var d := AbsDiffs(F, Fprev);
    SumBoundedAbove(d, tolerance);
    assert Sum(d) <= (|F| as real) * tolerance;
    DivideBound(Sum(d), |F| as real, tolerance);
  }

  lemma DivideBound(a: real, n: real, t: real)
    requires n > 0.0 && a <= n * t
    ensures a / n <= t
  {
  }

  /** Smallest entry of a non-empty sequence. */
  function MinOf(s: seq<real>): (m: real)
    requires |s| > 0
    ensures forall i :: 0 <= i < |s| ==> m <= s[i]
    ensures exists i :: 0 <= i < |s| && s[i] == m
  {
    if |s| == 1 then s[0]
    else
      var m := MinOf(s[1..]);
      assert forall i :: 1 <= i < |s| ==> s[i] == s[1..][i - 1];
      if s[0] < m then s[0] else m
  }

  /** `calc_free_energy`: `-kT ln P` per bin, shifted so that the lowest
      free energy is exactly zero. */
  function FreeEnergy(P: seq<real>, kT: real, ln: real -> real): (A: seq<real>)
    ensures |A| == |P|
    ensures forall i :: 0 <= i < |A| ==> A[i] >= 0.0
    ensures |P| > 0 ==> exists i :: 0 <= i < |A| && A[i] == 0.0
    ensures forall i, j :: 0 <= i < |A| && 0 <= j < |A| ==>
              A[i] - A[j] == Energies(P, kT, ln)[i] - Energies(P, kT, ln)[j]
  {
    if |P| == 0 then []
    else
      var E := Energies(P, kT, ln);
      var m := MinOf(E);
      var A := seq(|E|, i requires 0 <= i < |E| => E[i] - m);
      var k :| 0 <= k < |E| && E[k] == m;
      assert A[k] == 0.0;
      A
  }

  /** `ln` never decreases. */
  ghost predicate Monotone(ln: real -> real)
  {
    forall x, y :: x <= y ==> ln(x) <= ln(y)
  }

  /** With a positive `kT` and a monotone logarithm, a more probable bin never
      has a higher free energy. */
  lemma FreeEnergyAntitone(P: seq<real>, kT: real, ln: real -> real, i: nat, j: nat)
    requires kT > 0.0 && Monotone(ln)
    requires i < |P| && j < |P| && P[i] >= P[j]
    ensures FreeEnergy(P, kT, ln)[i] <= FreeEnergy(P, kT, ln)[j]
  {
    var E := Energies(P, kT, ln);
    assert ln(P[j]) <= ln(P[i]);
    NegatedScaleOrder(kT, ln(P[j]), ln(P[i]));
    assert E[i] <= E[j];
  }

  lemma NegatedScaleOrder(k: real, a: real, b: real)
    requires k > 0.0 && a <= b
    ensures -k * b <= -k * a
  {
  }

}
