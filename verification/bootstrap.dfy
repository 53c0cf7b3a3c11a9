/** Bootstrap error analysis (src/error_analysis.rs). The random number
    generator is replaced by its output: every run receives the
    `num_windows - 1` uniform draws it would have consumed. The re-weighted
    data set of `Dataset::new_weighted` is built by a parameter, since its
    body is not part of this model, and `sqrt` is any square root. */
module Bootstrap {
  import opened Wrappers
  import opened Sums
  import opened Sorting
  import opened Statistics
  import opened Wham

  /** Consecutive differences `r[i + 1] - r[i]`. */
  function Gaps(r: seq<real>): (g: seq<real>)
    requires |r| >= 1
    ensures |g| == |r| - 1
    ensures forall i :: 0 <= i < |g| ==> g[i] == r[i + 1] - r[i]
  {
    seq(|r| - 1, i requires 0 <= i < |r| - 1 => r[i + 1] - r[i])
  }

  /** The consecutive differences of a sequence telescope to its last
      element minus its first. */
  lemma {:induction false} GapsTelescope(r: seq<real>)
    requires |r| >= 1
    ensures Sum(Gaps(r)) == r[|r| - 1] - r[0]
  {
    if |r| > 1 {
      var g := Gaps(r);
      GapsTelescope(r[1..]);
      GapsTail(r);
      assert Sum(g) == g[0] + Sum(g[1..]);
    }
  }

  lemma GapsTail(r: seq<real>)
    requires |r| >= 2
    ensures Gaps(r)[1..] == Gaps(r[1..])
  {
    var g := Gaps(r)[1..];
    var h := Gaps(r[1..]);
    assert |g| == |h|;
    forall i | 0 <= i < |g|
      ensures g[i] == h[i]
    {
      assert g[i] == r[i + 2] - r[i + 1];
      assert h[i] == r[1..][i + 1] - r[1..][i];
    }
  }

  /** The sorted draws framed by 0 and 1: the cut points of the unit interval. */
  function CutPoints(draws: seq<real>): (r: seq<real>)
    ensures |r| == |draws| + 2 && r[0] == 0.0 && r[|r| - 1] == 1.0
    ensures r[1..|r| - 1] == Sort(draws)
  {
    [0.0] + Sort(draws) + [1.0]
  }

  /** `generate_random_weights`: the lengths of the pieces into which the
      sorted draws cut the unit interval. `num_windows - 1` is unsigned in
      the Rust code, so at least one window is needed. */
  function RandomWeights(numWindows: nat, draws: seq<real>): (w: seq<real>)
    requires numWindows >= 1 && |draws| == numWindows - 1
    ensures |w| == numWindows
    ensures Sum(w) == 1.0
  {
    var r := CutPoints(draws);
    GapsTelescope(r);
    Gaps(r)
  }

  /** Every draw lies in `[0, 1)`, as `rng.gen::<f64>()` guarantees. */
  predicate UnitDraws(draws: seq<real>)
  {
    forall i :: 0 <= i < |draws| ==> 0.0 <= draws[i] < 1.0
  }

  /** With unit draws the cut points ascend from 0 to 1. */
  lemma CutPointsAscend(draws: seq<real>)
    requires UnitDraws(draws)
    ensures Ascending(CutPoints(draws))
  {
    var s := Sort(draws);
    var r := CutPoints(draws);
    forall k | 0 <= k < |s|
      ensures 0.0 <= s[k] < 1.0
    {
      SortKeepsElements(draws, k);
    }
    forall i, j | 0 <= i < j < |r|
      ensures r[i] <= r[j]
    {
      if 0 < i && j < |r| - 1 {
        assert r[i] == s[i - 1] && r[j] == s[j - 1];
      } else if 0 < i {
        assert r[i] == s[i - 1];
      } else if j < |r| - 1 {
        assert r[j] == s[j - 1];
      }
    }
  }

  /** Every weight is a fraction of the unit interval, and weight `i` is
      the distance between cut points `i` and `i + 1`. */
  lemma WeightsAreFractions(numWindows: nat, draws: seq<real>)
    requires numWindows >= 1 && |draws| == numWindows - 1 && UnitDraws(draws)
    ensures forall i :: 0 <= i < numWindows ==>
              && RandomWeights(numWindows, draws)[i] == CutPoints(draws)[i + 1] - CutPoints(draws)[i]
              && 0.0 <= RandomWeights(numWindows, draws)[i] <= 1.0
  {
    var r := CutPoints(draws);
    CutPointsAscend(draws);
    forall i | 0 <= i < numWindows
      ensures 0.0 <= r[i + 1] - r[i] <= 1.0
    {
      assert r[0] <= r[i] && r[i + 1] <= r[|r| - 1];
    }
  }

  /** The weights depend only on which values were drawn, not on the order
      of the draws. */
  lemma WeightsIgnoreDrawOrder(numWindows: nat, d1: seq<real>, d2: seq<real>)
    requires numWindows >= 1 && |d1| == numWindows - 1 && |d2| == numWindows - 1
    requires multiset(d1) == multiset(d2)
    ensures RandomWeights(numWindows, d1) == RandomWeights(numWindows, d2)
  {
    SortDependsOnlyOnMultiset(d1, d2);
  }

  /** `reweight` stands for `Dataset::new_weighted`: for the weights that
      `generate_random_weights` builds from unit draws, it yields a solvable
      data set over the same bins. */
  ghost predicate KeepsShape(reweight: (Dataset, seq<real>) -> Dataset, ds: Dataset)
  {
    && ds.numWindows >= 1
    && forall d {:trigger RandomWeights(ds.numWindows, d)} :: |d| == ds.numWindows - 1 && UnitDraws(d) ==>
         && reweight(ds, RandomWeights(ds.numWindows, d)).Valid()
         && reweight(ds, RandomWeights(ds.numWindows, d)).numBins == ds.numBins
  }

  /** `generate_random_weighted_dataset` for one run's draws. */
  function Reweighted(ds: Dataset, reweight: (Dataset, seq<real>) -> Dataset, draws: seq<real>): (r: Dataset)
    requires ds.numWindows >= 1 && |draws| == ds.numWindows - 1 && UnitDraws(draws) && KeepsShape(reweight, ds)
    ensures r.Valid() && r.numBins == ds.numBins
  {
    reweight(ds, RandomWeights(ds.numWindows, draws))
  }

  /** Every run holds one value per bin. */
  predicate Shaped(runs: seq<seq<real>>, numBins: nat)
  {
    forall x :: 0 <= x < |runs| ==> |runs[x]| == numBins
  }

  /** Entry `bin` of every run. */
  function Column(runs: seq<seq<real>>, bin: nat): (c: seq<real>)
    requires forall x :: 0 <= x < |runs| ==> bin < |runs[x]|
    ensures |c| == |runs| && forall x :: 0 <= x < |runs| ==> c[x] == runs[x][bin]
  {
    seq(|runs|, x requires 0 <= x < |runs| => runs[x][bin])
  }

  /** Standard error of every bin over the runs: the sample standard
      deviation divided by the root of the number of runs. */
  function StandardErrors(runs: seq<seq<real>>, numBins: nat, sqrt: real -> real): (se: seq<real>)
    requires |runs| >= 2 && IsSqrt(sqrt) && Shaped(runs, numBins)
    ensures |se| == numBins
    ensures forall b :: 0 <= b < numBins ==>
              se[b] >= 0.0 && se[b] * sqrt(|runs| as real) == Sd(Column(runs, b), sqrt)
  {
    var root := sqrt(|runs| as real);
    assert root * root == |runs| as real;
    assert root > 0.0;
    seq(numBins, b requires 0 <= b < numBins => Sd(Column(runs, b), sqrt) / root)
  }

  /** Runs that all produced the same vector have no spread: every
      standard error is zero. */
  lemma IdenticalRunsHaveNoError(runs: seq<seq<real>>, numBins: nat, sqrt: real -> real)
    requires |runs| >= 2 && IsSqrt(sqrt)
    requires forall x :: 0 <= x < |runs| ==> runs[x] == runs[0]
    requires |runs[0]| == numBins
    ensures Shaped(runs, numBins)
    ensures forall b :: 0 <= b < numBins ==> StandardErrors(runs, numBins, sqrt)[b] == 0.0
  {
    var se := StandardErrors(runs, numBins, sqrt);
    forall b | 0 <= b < numBins
      ensures se[b] == 0.0
    {
      SdOfConstant(Column(runs, b), runs[0][b], sqrt);
      ZeroProductFactor(se[b], sqrt(|runs| as real));
    }
  }

  /** The free energy profile of every run. */
  function FreeEnergies(runs: seq<seq<real>>, kT: real, ln: real -> real): (A: seq<seq<real>>)
    ensures |A| == |runs|
    ensures forall x :: 0 <= x < |runs| ==> A[x] == FreeEnergy(runs[x], kT, ln)
    ensures forall numBins: nat :: Shaped(runs, numBins) ==> Shaped(A, numBins)
  {
    seq(|runs|, x requires 0 <= x < |runs| => FreeEnergy(runs[x], kT, ln))
  }

  /** `P` is the normalised result of a successful `perform_wham` on `ds`. */
  ghost predicate SolvedBy(ds: Dataset, P: seq<real>, maxIterations: nat, tolerance: real, ln: real -> real)
    requires ds.Valid()
  {
    && |P| == ds.numBins && Sum(P) == 1.0 && AllNonNegative(P)
    && exists k :: 1 <= k < maxIterations && FirstConvergence(ds, k, tolerance, ln)
                   && P == Normalise(PAfter(ds, k))
  }

  /** The solve of the run with draws `d` does not converge. */
  ghost predicate RunFails(ds: Dataset, reweight: (Dataset, seq<real>) -> Dataset, d: seq<real>,
                           maxIterations: nat, tolerance: real, ln: real -> real)
    requires ds.numWindows >= 1 && |d| == ds.numWindows - 1 && UnitDraws(d) && KeepsShape(reweight, ds)
  {
    NeverConverges(Reweighted(ds, reweight, d), maxIterations, tolerance, ln)
  }

  /** `P` is the solved probability vector of the run with draws `d`. */
  ghost predicate RunSolved(ds: Dataset, reweight: (Dataset, seq<real>) -> Dataset, d: seq<real>,
                            P: seq<real>, maxIterations: nat, tolerance: real, ln: real -> real)
    requires ds.numWindows >= 1 && |d| == ds.numWindows - 1 && UnitDraws(d) && KeepsShape(reweight, ds)
  {
    SolvedBy(Reweighted(ds, reweight, d), P, maxIterations, tolerance, ln)
  }

  /** Run `y` solved to `Ps[y]`, for every run so far. */
  ghost predicate AllSolved(ds: Dataset, reweight: (Dataset, seq<real>) -> Dataset, draws: seq<seq<real>>,
                            Ps: seq<seq<real>>, maxIterations: nat, tolerance: real, ln: real -> real)
    requires ds.numWindows >= 1 && KeepsShape(reweight, ds) && |Ps| <= |draws|
    requires forall x :: 0 <= x < |draws| ==> |draws[x]| == ds.numWindows - 1 && UnitDraws(draws[x])
  {
    forall y :: 0 <= y < |Ps| ==> RunOk(ds, reweight, draws[y], Ps[y], maxIterations, tolerance, ln)
  }

  /** The run with draws `d` converged, to `P`. */
  ghost predicate RunOk(ds: Dataset, reweight: (Dataset, seq<real>) -> Dataset, d: seq<real>,
                        P: seq<real>, maxIterations: nat, tolerance: real, ln: real -> real)
    requires ds.numWindows >= 1 && |d| == ds.numWindows - 1 && UnitDraws(d) && KeepsShape(reweight, ds)
  {
    && RunSolved(ds, reweight, d, P, maxIterations, tolerance, ln)
    && !RunFails(ds, reweight, d, maxIterations, tolerance, ln)
  }

  lemma AllSolvedPush(ds: Dataset, reweight: (Dataset, seq<real>) -> Dataset, draws: seq<seq<real>>,
                      Ps: seq<seq<real>>, P: seq<real>, maxIterations: nat, tolerance: real, ln: real -> real)
    requires ds.numWindows >= 1 && KeepsShape(reweight, ds) && |Ps| < |draws|
    requires forall x :: 0 <= x < |draws| ==> |draws[x]| == ds.numWindows - 1 && UnitDraws(draws[x])
    requires AllSolved(ds, reweight, draws, Ps, maxIterations, tolerance, ln)
    requires RunOk(ds, reweight, draws[|Ps|], P, maxIterations, tolerance, ln)
    ensures AllSolved(ds, reweight, draws, Ps + [P], maxIterations, tolerance, ln)
  {
    var Ps' := Ps + [P];
    forall y | 0 <= y < |Ps'|
      ensures RunOk(ds, reweight, draws[y], Ps'[y], maxIterations, tolerance, ln)
    {
      if y < |Ps| {
        assert Ps'[y] == Ps[y];
        assert RunOk(ds, reweight, draws[y], Ps[y], maxIterations, tolerance, ln);
      } else {
        assert Ps'[y] == P;
      }
    }
  }

  /** Solved runs hold one probability per bin. */
  lemma SolvedRunsShaped(ds: Dataset, reweight: (Dataset, seq<real>) -> Dataset, draws: seq<seq<real>>,
                         Ps: seq<seq<real>>, maxIterations: nat, tolerance: real, ln: real -> real)
    requires ds.numWindows >= 1 && KeepsShape(reweight, ds) && |Ps| <= |draws|
    requires forall x :: 0 <= x < |draws| ==> |draws[x]| == ds.numWindows - 1 && UnitDraws(draws[x])
    requires AllSolved(ds, reweight, draws, Ps, maxIterations, tolerance, ln)
    ensures Shaped(Ps, ds.numBins)
  {
    forall y | 0 <= y < |Ps|
      ensures |Ps[y]| == ds.numBins
    {
      assert RunSolved(ds, reweight, draws[y], Ps[y], maxIterations, tolerance, ln);
    }
  }

  /** One bootstrap run: re-weight the data set and solve it, keeping the
      normalised probabilities. */
  method SolveRun(ds: Dataset, reweight: (Dataset, seq<real>) -> Dataset, d: seq<real>,
                  maxIterations: nat, tolerance: real, ln: real -> real)
    returns (res: Result<seq<real>, string>)
    requires ds.numWindows >= 1 && |d| == ds.numWindows - 1 && UnitDraws(d) && KeepsShape(reweight, ds)
    ensures res.Failure? <==> RunFails(ds, reweight, d, maxIterations, tolerance, ln)
    ensures res.Failure? ==> res.error == NOT_CONVERGED
    ensures res.Success? ==> RunSolved(ds, reweight, d, res.value, maxIterations, tolerance, ln)
  {
    var weighted := Reweighted(ds, reweight, d);
    var solved := PerformWham(weighted, maxIterations, tolerance, ln);
    if solved.Failure? {
      return Failure(solved.error);
    }
    return Success(solved.value.P);
  }

  /** Standard errors of the bin probabilities and of the free energies. */
  datatype Errors = Errors(Pse: seq<real>, Ase: seq<real>)

  /** `run_bootstrap`: one WHAM solve per run on the re-weighted data set,
      then the standard error of every bin's probability and free energy
      over the runs. A run that does not converge ends the analysis (the
      `unwrap` in `run_bootstrap` panics). The ghost `runs` are the solved
      probability vectors. */
  method RunBootstrap(ds: Dataset, draws: seq<seq<real>>, reweight: (Dataset, seq<real>) -> Dataset,
                      maxIterations: nat, tolerance: real, ln: real -> real, sqrt: real -> real)
    returns (r: Result<Errors, string>, ghost runs: seq<seq<real>>)
    requires ds.Valid() && KeepsShape(reweight, ds) && IsSqrt(sqrt)
    requires |draws| >= 2 && forall x :: 0 <= x < |draws| ==> |draws[x]| == ds.numWindows - 1 && UnitDraws(draws[x])
    ensures r.Failure? <==>
              exists x :: 0 <= x < |draws| && RunFails(ds, reweight, draws[x], maxIterations, tolerance, ln)
    ensures r.Failure? ==> r.error == NOT_CONVERGED
    ensures r.Success? ==>
              && |runs| == |draws|
              && AllSolved(ds, reweight, draws, runs, maxIterations, tolerance, ln)
              && Shaped(runs, ds.numBins)
              && r.value.Pse == StandardErrors(runs, ds.numBins, sqrt)
              && r.value.Ase == StandardErrors(FreeEnergies(runs, ds.kT, ln), ds.numBins, sqrt)
    ensures r.Success? ==>
              && |r.value.Pse| == ds.numBins && |r.value.Ase| == ds.numBins
              && AllNonNegative(r.value.Pse) && AllNonNegative(r.value.Ase)
  {
    var Ps: seq<seq<real>> := [];
    var x := 0;
    while x < |draws|
      invariant 0 <= x <= |draws| && |Ps| == x
      invariant AllSolved(ds, reweight, draws, Ps, maxIterations, tolerance, ln)
    {
      var solved := SolveRun(ds, reweight, draws[x], maxIterations, tolerance, ln);
      if solved.Failure? {
        return Failure(solved.error), Ps;
      }
      AllSolvedPush(ds, reweight, draws, Ps, solved.value, maxIterations, tolerance, ln);
      Ps := Ps + [solved.value];
      x := x + 1;
    }
    runs := Ps;
    SolvedRunsShaped(ds, reweight, draws, Ps, maxIterations, tolerance, ln);
    var Pse := StandardErrors(Ps, ds.numBins, sqrt);
    var Ase := StandardErrors(FreeEnergies(Ps, ds.kT, ln), ds.numBins, sqrt);
    r := Success(Errors(Pse, Ase));
  }
}
