# WHAM in Dafny

A Dafny model of the computational core of WHAM, the Weighted Histogram
Analysis Method tool written in Rust. WHAM combines biased umbrella-sampling
windows into one unbiased probability distribution and free-energy profile.
The model covers these parts:

- **Sparse histograms** (`Histograms`, src/histogram.rs).
  - A window's histogram stores only the slice `first..=last` of the global bins.
  - `get_bin_count` looks a bin up.
  - The set summary totals the data points of all windows.
- **Histogram construction** (`Io`, src/io.rs). It works over samples and
  metadata entries that are already parsed.
  - Keep the samples strictly inside the histogram range.
  - Bin them by truncation.
  - Trim the empty bins at both ends.
  - Report an empty window as `None`.
  - `read_data` keeps the bias centres and force constants aligned with the windows that survive.
  - `get_relative_path` joins the metadata file's directory with a window path.
- **The WHAM solver** (`Wham`, src/lib.rs).
  - The two WHAM equations, with the bias factor `calc_bias` as a positive function supplied with the data set.
  - `perform_wham_iteration`.
  - The convergence predicate, checked on every tenth iteration only.
  - The iteration loop of `perform_wham`, its failure when the budget is spent, and the final normalisation.
  - `diff_avg`.
  - `calc_free_energy`, with its shift so that the lowest free energy is zero.
- **Bootstrap error analysis** (`Bootstrap`, `Sorting`, src/error_analysis.rs).
  - Random weights come from sorted uniform draws: they are the lengths of the pieces into which the draws cut the unit interval.
  - `run_bootstrap` solves every re-weighted data set and computes the standard error of each bin's probability and free energy.
- **Statistical inefficiency** (`Correlation`, src/correlation_analysis.rs).
  - The normalised autocorrelation at lags `1 .. n - 2`.
  - The inefficiency `g`, summed over the leading run of positive autocorrelations.
  - The autocorrelation time `(g - 1) / 2`.
- **Basic statistics** (`Statistics`, src/statistics.rs): the mean, the
  population variance `autocov` and the sample standard deviation `sd`.

All quantities are mathematical reals, and bin counts are naturals. The data
set's `calc_bias`, the logarithm `ln`, the square root `sqrt` and
`Dataset::new_weighted` enter the model as function-valued parameters.

- The solver's properties hold for every positive bias.
- The free-energy properties hold for every `ln`, and ordering needs only a monotone one.
- The standard-error properties hold for every function that returns the non-negative square root.

The random number generator is replaced by its output. Each bootstrap run
receives the `num_windows - 1` draws it would have consumed.

Three facts about the Rust code shape the solver model:

- `perform_wham` normalises `P` once, after the iteration loop, not in every iteration.
- `statistical_ineff` stops summing at the first lag whose autocorrelation is not positive.
- Offsets are iterated in exponential form `exp(f / kT)`, starting at 1.
  - They are converted with `-kT ln` only for the convergence test of every tenth iteration.
  - On success `F` is returned in exponential form and `F_prev` in free-energy form.

Shared definitions are kept in two modules:

- `Sums`: sums of sequences and their facts.
- `Wrappers`: `Option` and `Result`.

## Model

| member | source | states |
|---|---|---|
| Histograms.GetBinCount | src/histogram.rs:26-32 | `None` exactly when the bin lies below `first` or above `last`; otherwise the stored count at offset `bin - first` |
| Histograms.SliceRepresents | src/histogram.rs:5-32 | a slice `first..=last` of a dense histogram whose outside bins are empty is a valid histogram, and `get_bin_count` (absent read as 0) gives back every global count |
| Histograms.NewHistogramSet | src/histogram.rs:69-72 | the window count is the number of histograms; every other argument is stored unchanged |
| Histograms.CountDatapoints | src/histogram.rs:76-81 | the loop total is the sum of `num_points` over all histograms, and it is zero exactly when every histogram is empty |
| Histograms.TotalPoints | src/histogram.rs:76-81 | the datapoint total is at least the `num_points` of every histogram |
| Histograms.TotalPointsAppend | src/histogram.rs:76-81 | the datapoint total of two histogram lists put together is the sum of their totals |
| Histograms.TotalPointsZeroIffAllEmpty | src/histogram.rs:76-81 | the datapoint total is zero exactly when every histogram holds no point |
| Io.BinIndex | src/io.rs:91-105 | a sample strictly inside the range gets a bin in `[0, num_bins)`, and lies in that bin's half-open interval `[min + b w, min + (b + 1) w)` |
| Io.BinWidth | src/io.rs:91 | `num_bins` bin widths make up exactly the histogram range |
| Io.BinOfOffset | src/io.rs:104 | truncating `d / w` for `0 <= d < n w` gives a bin below `n` whose interval holds `d` |
| Io.FloorBrackets | src/io.rs:104 | truncation brackets `y w` between two consecutive multiples of `w` |
| Io.BinSamples | src/io.rs:90-106 | the dense histogram has `num_bins` bins; its total is the number of samples strictly inside the range; each bin holds the number of kept samples whose index is that bin |
| Io.CountInRangeZeroIffNone | src/io.rs:103 | no sample is counted exactly when none lies strictly inside the range, so samples on either boundary are dropped |
| Io.ScanBounds | src/io.rs:115-124 | the bound scan ends with the lowest and highest occupied bins, or with its initial `num_bins - 1` and `0` when every bin is empty |
| Io.OccupiedBounds | src/io.rs:115-124 | the scan from bin 0 with the initial bounds of `read_window_file` yields the lowest and highest occupied bins of any non-empty histogram |
| Io.EmptinessTest | src/io.rs:115-127 | the emptiness test of `read_window_file` on the scanned bounds holds exactly when no sample was kept (including `num_bins == 1`); otherwise the bounds are the extreme occupied bins |
| Io.ReadWindowFile | src/io.rs:83-136 | `None` exactly when no sample lies inside the range; otherwise a trimmed histogram of the dense one whose `num_points` is the number of kept samples |
| Io.TrimmedHistogram | src/io.rs:128-134 | cutting between the lowest and highest occupied bins keeps every count: the slice represents the dense histogram and sums to the same total |
| Io.TrimmedEndsOccupied | src/io.rs:128-134 | both ends of a trimmed histogram's stored bins are non-zero |
| Io.ReadBackCounts | src/io.rs:83-136 | every global bin of a window reads back from its stored histogram as the number of kept samples that fall into it |
| Io.SurvivingEmptyIffAllEmpty | src/io.rs:51-79 | no window survives exactly when no window keeps a sample |
| Io.CollectWindows | src/io.rs:42-72 | the histogram, bias-centre and force-constant vectors are as long as the list of surviving windows |
| Io.AlignedPush | src/io.rs:52-69 | pushing a surviving window's histogram and bias values keeps the three vectors aligned |
| Io.CollectWindowsAligned | src/io.rs:42-72 | entry `i` of each collected vector belongs to the `i`-th surviving window, so a skipped window pushes no bias values |
| Io.ReadData | src/io.rs:31-80 | `None` exactly when no window keeps a sample; otherwise one histogram and bias pair per surviving window, with the binning of the configuration, `bin_width = (max - min) / num_bins` and `kT = T k_B` |
| Io.WindowsOfReadDataHoldPoints | src/io.rs:51-76 | every histogram of a data set that `read_data` returns holds at least one data point, since a window without a kept sample is skipped |
| Io.CollectedPointsAreKeptSamples | src/io.rs:42-80 | the data points of the collected histograms are all the kept samples of all windows |
| Io.LastSeparator | src/io.rs:18-21 | the position found is a separator and no separator follows it; `None` exactly when the path has none |
| Io.Parent | src/io.rs:20 | the part of the path before its last separator, with no separator after it; empty for a bare file name |
| Io.FileName | src/io.rs:20 | a suffix of the path holding no separator; the whole path when it has none |
| Io.Join | src/io.rs:20 | an empty directory gives the path itself; otherwise the directory, one separator, then the path |
| Io.ParentAndFileNameRejoin | src/io.rs:18-21 | a path holding a separator is its directory, a separator and its file name |
| Io.GetRelativePath | src/io.rs:18-21 | an absolute window path is returned unchanged; otherwise the result ends with the window path, has its file name, and its directory is the metadata file's directory joined with the window path's directory (just the metadata directory for a bare file name) |
| Io.ResolvedBesideMetadata | src/io.rs:203-211 | a relative window path given next to `dir/name` resolves to `dir/` followed by that path, as in the two cases of the `get_relative_path` test |
| Io.LastSeparatorAppend | src/io.rs:18-21 | the last separator of `a + b` is that of `b` shifted by the length of `a`, or that of `a` when `b` has none |
| Io.JoinSplits | src/io.rs:18-21 | splitting a joined path gives back the directory and the file name that were joined |
| Io.RelativeToOwnName | src/io.rs:18-21 | resolving a path's own file name against it gives the path back |
| Wham.IsConverged | src/lib.rs:47-51 | true exactly when every paired offset changed by at most the tolerance; entries beyond the shorter vector are not compared |
| Wham.BinDenominatorPositive | src/lib.rs:55-61 | the bias-weighted window total of a bin is positive for positive offsets |
| Wham.BinProbability | src/lib.rs:55-62 | the probability times the weighted window total is the bin's count; it is non-negative and zero exactly for an empty bin |
| Wham.WindowSumPositive | src/lib.rs:66-71 | the bias-weighted probability total of a window is positive |
| Wham.WindowF | src/lib.rs:66-73 | the new offset is positive and is the reciprocal of the window's bias-weighted probability total |
| Wham.WindowFDependsOnlyOnBias | src/lib.rs:66-73 | two windows with the same bias at every bin get the same offset |
| Wham.Probabilities | src/lib.rs:81-83 | every bin gets the first WHAM equation's value; the vector is non-negative with a positive entry |
| Wham.Offsets | src/lib.rs:87-89 | every window gets the second WHAM equation's value, and all are positive |
| Wham.Iterate | src/lib.rs:78-90 | probabilities come from the previous offsets, then offsets from those probabilities; the signs needed by the next iteration are kept |
| Wham.ScaledBinDenominator | src/lib.rs:55-61 | scaling every offset by `c` scales each bin's weighted window total by `c` |
| Wham.ScaledBinProbability | src/lib.rs:55-62 | scaling every offset by `c > 0` divides a bin's probability by `c` |
| Wham.ScaleKeepsSigns | src/lib.rs:66-73 | positive scaling keeps the probabilities non-negative with a positive entry |
| Wham.ScaledWindowSum | src/lib.rs:66-71 | scaling the probabilities by `k` scales each window's weighted total by `k` |
| Wham.ScaledWindowF | src/lib.rs:66-73 | dividing the probabilities by `c` multiplies each window offset by `c` |
| Wham.ScaledProbabilities | src/lib.rs:81-83 | the probability vector from offsets scaled by `c` is the original divided by `c` |
| Wham.ScaledOffsets | src/lib.rs:87-89 | the offsets from probabilities divided by `c` are the original offsets times `c` |
| Wham.IterateScaleEquivariant | src/lib.rs:78-90 | one iteration commutes with scaling the offsets: the free-energy offsets are fixed only up to a common additive constant |
| Wham.FAfter | src/lib.rs:95-110 | the offsets after any number of iterations from all ones are positive, one per window |
| Wham.PAfter | src/lib.rs:103-110 | the probabilities of every iteration are non-negative with a positive entry, one per bin |
| Wham.Energies | src/lib.rs:118-119 | the free-energy form of each offset is `-kT ln F` |
| Wham.NeverConvergesStep | src/lib.rs:103-124 | a failed or skipped test at iteration `n` extends "no test has passed" by one iteration |
| Wham.NeverConvergesShrink | src/lib.rs:103-124 | "no test passed before `n`" implies the same for every earlier bound |
| Wham.ConvergedBefore | src/lib.rs:103-139 | a first passing test before the budget rules out the failure condition |
| Wham.Normalise | src/lib.rs:133-135 | for a non-zero sum the result sums to one and is proportional to the input; a zero-sum vector is left unchanged |
| Wham.NormalisePreservesSign | src/lib.rs:133-135 | normalising a non-negative vector with a positive entry keeps it non-negative |
| Wham.IterationStep | src/lib.rs:107-110 | iterating the previous trajectory offsets gives the next trajectory state |
| Wham.CheckMatches | src/lib.rs:117-120 | the test on consecutive trajectory offsets is the test of that iteration |
| Wham.ConvergenceCheck | src/lib.rs:113-124 | `F` comes back unchanged (restored from the backup), `F_prev` is left in `-kT ln` form, and the verdict compares the two free-energy forms |
| Wham.IterationWithCheck | src/lib.rs:103-124 | one loop pass performs the next iteration and can declare convergence only as the first passing test of a tenth iteration |
| Wham.RunIterations | src/lib.rs:99-131 | the loop runs at most `max_iterations` times, stops at the first passing test, and otherwise uses up the budget |
| Wham.PerformWham | src/lib.rs:92-142 | fails exactly when no test before the last allowed iteration passes (including a budget of 0 and convergence found on the last iteration); on success returns the normalised probabilities, the exponential offsets and the previous offsets in free-energy form, of the first converged iteration |
| Wham.AbsDiffs | src/lib.rs:167-171 | one non-negative absolute change per offset |
| Wham.DiffAvg | src/lib.rs:167-173 | the mean absolute change times the number of offsets is the sum of the absolute changes; it is non-negative and zero exactly when no offset changed |
| Wham.ConvergedBoundsDiffAvg | src/lib.rs:167-173 | when the convergence test passes, the mean absolute change is within the tolerance too |
| Wham.BoundedChangesBoundDiffAvg | src/lib.rs:167-173 | a mean of changes that are each within the tolerance is within it |
| Wham.MinOf | src/lib.rs:177-187 | the minimum is at most every entry and is one of them |
| Wham.FreeEnergy | src/lib.rs:176-193 | one value per bin, all non-negative, at least one exactly zero, and differences between bins equal those of `-kT ln P` |
| Wham.FreeEnergyAntitone | src/lib.rs:176-193 | with positive `kT` and a monotone `ln`, a more probable bin never has a higher free energy |
| Bootstrap.Gaps | src/error_analysis.rs:19-22 | weight `i` is `r[i + 1] - r[i]` |
| Bootstrap.GapsTelescope | src/error_analysis.rs:14-22 | consecutive differences sum to the last element minus the first |
| Bootstrap.GapsTail | src/error_analysis.rs:19-22 | the differences of a sequence without its head are the differences without their head |
| Bootstrap.CutPoints | src/error_analysis.rs:12-16 | `0`, then the draws in ascending order, then `1` |
| Bootstrap.RandomWeights | src/error_analysis.rs:10-24 | exactly `num_windows` weights, summing to one |
| Bootstrap.CutPointsAscend | src/error_analysis.rs:12-16 | with draws in `[0, 1)`, the cut points ascend |
| Bootstrap.WeightsAreFractions | src/error_analysis.rs:12-22 | every weight is the distance between consecutive cut points and lies in `[0, 1]` |
| Bootstrap.WeightsIgnoreDrawOrder | src/error_analysis.rs:13 | draws holding the same values in any order give the same weights |
| Bootstrap.Reweighted | src/error_analysis.rs:27-30 | for draws in `[0, 1)`, the data set re-weighted by the weights built from them is solvable and has the same bins |
| Bootstrap.Column | src/error_analysis.rs:50 | the values of one bin over all runs |
| Bootstrap.StandardErrors | src/error_analysis.rs:46-52 | one error per bin, non-negative, and equal to the sample standard deviation over the runs divided by the root of the run count |
| Bootstrap.IdenticalRunsHaveNoError | src/error_analysis.rs:46-64 | runs that all give the same vector have zero standard error at every bin |
| Bootstrap.FreeEnergies | src/error_analysis.rs:55-58 | one free-energy profile per run, of the same shape |
| Bootstrap.AllSolvedPush | src/error_analysis.rs:40-44 | appending the solved vector of the next run keeps every run matched to its solve |
| Bootstrap.SolvedRunsShaped | src/error_analysis.rs:40-44 | every solved run holds one probability per bin |
| Bootstrap.SolveRun | src/error_analysis.rs:40-44 | fails exactly when the run's re-weighted solve does not converge; otherwise returns that solve's normalised probabilities |
| Bootstrap.RunBootstrap | src/error_analysis.rs:35-67 | fails exactly when some run does not converge; otherwise every run is solved, and both error vectors have one non-negative entry per bin and are the standard errors of the probabilities and of the free energies |
| Sorting.Insert | src/error_analysis.rs:13 | inserting into an ascending sequence keeps it ascending and adds exactly that element |
| Sorting.Sort | src/error_analysis.rs:13 | the result is ascending and a permutation of the input |
| Sorting.AscendingUnique | src/error_analysis.rs:13 | two ascending sequences with the same elements are equal |
| Sorting.SortDependsOnlyOnMultiset | src/error_analysis.rs:13 | the sorted draws depend only on which values were drawn |
| Sorting.SortKeepsElements | src/error_analysis.rs:13 | every sorted value is one of the draws |
| Statistics.Mean | src/statistics.rs:1-3 | the mean times the length is the sum |
| Statistics.MeanIsAttained | src/statistics.rs:1-3 | some element lies at or below the mean and some at or above it |
| Statistics.MeanBetweenBounds | src/statistics.rs:1-3 | the mean lies within any bounds that hold for every element |
| Statistics.MeanOfConstant | src/statistics.rs:1-3 | the mean of a constant series is that constant |
| Statistics.SquaredDeviations | src/statistics.rs:7-10 | entry `i` is the square of element `i`'s deviation from the mean, so every entry is non-negative |
| Statistics.Autocov | src/statistics.rs:5-11 | the population variance is non-negative and its product with the length is the sum of squared deviations |
| Statistics.AutocovOfConstant | src/statistics.rs:5-11 | a constant series has population variance zero |
| Statistics.SampleVariance | src/statistics.rs:13-20 | the sample variance is non-negative and its product with `n - 1` is the sum of squared deviations |
| Statistics.Sd | src/statistics.rs:13-21 | the standard deviation is non-negative and its square times `n - 1` is the sum of squared deviations |
| Statistics.SdOfConstant | src/statistics.rs:13-21 | a constant series has standard deviation zero |
| Statistics.SdSquaredIsScaledAutocov | src/statistics.rs:5-21 | `sd(x)^2 == autocov(x) n / (n - 1)` |
| Correlation.Deviations | src/correlation_analysis.rs:31-32 | every sample's deviation from the mean |
| Correlation.LagProducts | src/correlation_analysis.rs:37 | `n - t` products of each deviation with the one `t` samples later |
| Correlation.SumDoubled | src/correlation_analysis.rs:38 | summing `x + x` over the products gives twice their sum |
| Correlation.LagCoefficient | src/correlation_analysis.rs:37-38 | the coefficient at lag `t` is positive exactly when the lag-`t` products have a positive sum |
| Correlation.LagCoefficientScaled | src/correlation_analysis.rs:37-38 | the doubling cancels: the coefficient times `(n - t) cov` is the plain sum of the lag products |
| Correlation.LagCorrelations | src/correlation_analysis.rs:35-41 | `n - 2` coefficients for `n >= 2`, with entry `t - 1` belonging to lag `t` |
| Correlation.Autocorrelation | src/correlation_analysis.rs:29-42 | `n - 2` values for `n >= 2`, none for a single sample; for `n >= 3`, entry `t - 1` times `(n - t)` times the sample variance is the sum of the lag-`t` deviation products |
| Correlation.LagCorrelationsScaled | src/correlation_analysis.rs:35-41 | every entry, scaled back by `(n - t) cov`, is the sum of its lag products |
| Correlation.LagCorrelationAtLag | src/correlation_analysis.rs:29-42 | entry `t - 1` times `(n - t) cov` is the sum of the lag-`t` deviation products |
| Correlation.Shift | src/correlation_analysis.rs:31-32 | every sample moved by the same amount |
| Correlation.SumShift | src/correlation_analysis.rs:31 | moving every sample by `c` adds `n c` to the sum |
| Correlation.MeanShift | src/correlation_analysis.rs:31 | moving every sample by `c` moves the mean by `c` |
| Correlation.AutocorrelationShiftInvariant | src/correlation_analysis.rs:29-42 | moving every sample by the same amount changes neither the variance nor the autocorrelation |
| Correlation.LeadingPositive | src/correlation_analysis.rs:14-18 | the leading run of positive values is followed by a non-positive value or by the end |
| Correlation.LeadingPositiveUnique | src/correlation_analysis.rs:14-18 | that run length is the only one with this property |
| Correlation.IneffTerms | src/correlation_analysis.rs:19 | the term of entry `i` is `2 c (1 - (i + 1) / n)` |
| Correlation.LeadingTermsPositive | src/correlation_analysis.rs:14-19 | every term that is added is positive |
| Correlation.TermPositive | src/correlation_analysis.rs:19 | a positive autocorrelation at a lag below `n` adds a positive term |
| Correlation.IneffAtLeastOne | src/correlation_analysis.rs:9-26 | `g >= 1`, and `g == 1` exactly when there is no lag 1 or its autocorrelation is not positive |
| Correlation.StatisticalIneff | src/correlation_analysis.rs:9-26 | returns one plus the terms of the leading positive run; the result is at least one and is one exactly when the lag-1 autocorrelation is missing or not positive |
| Correlation.SumLeadingTerms | src/correlation_analysis.rs:13-20 | the loop adds the lag terms up to the first non-positive autocorrelation and no further |
| Correlation.AutocorrelationTime | src/correlation_analysis.rs:46-48 | `tau` inverts to `g == 1 + 2 tau` and is non-negative for `g >= 1` |
| Correlation.AutocorrelationTimeOfIneff | src/correlation_analysis.rs:46-48 | the autocorrelation time of any series is non-negative, and zero exactly when its inefficiency is one |

## Left out

- Floating point is not modelled: f32/f64 rounding, NaN, infinities and `ln(0) = -inf` do not arise over the reals.
  - The `f64::MAX` start of the minimum search in `calc_free_energy` is replaced by the minimum of a non-empty vector.
  - The `f32` to `u32` cast of `num_points` is not modelled.
  - The `u32` overflow of the datapoint total is not modelled.
- File and console I/O is left out, because it is not part of the computation:
  - `File::open`, `scan_fmt!` line parsing, comment and blank-line skipping, and `process::exit` on unreadable input;
  - `write_results`, `vprintln`, `dump_state` and the progress `println!`s.
  - `read_window_file` and `read_data` work on already-parsed samples and metadata entries.
- `run`, `main` and argument parsing are orchestration only and are not part of this model.
- `Dataset::new`, `Dataset::new_weighted`, `calc_bias` and `get_x_for_bin` are not part of this model.
  - The solver works on an abstract data set record: bin counts, per-window point counts, `kT` and a positive `calc_bias`.
  - `new_weighted` is a parameter. It must yield a solvable data set over the same bins for every weight vector that `generate_random_weights` builds from draws in `[0, 1)` (`Bootstrap.KeepsShape`). It is not required to do so for other vectors, such as the zero vector or one with a negative entry.
  - The cyclic option only matters inside `calc_bias`.
- The configuration in src/lib.rs is multi-dimensional. `read_window_file` bins one coordinate, and the model follows that one-dimensional binning.
- `rgsl::statistics` is a foreign library.
  - Its mean is `Statistics.Mean`.
  - The covariance of a series with itself, which divides by `n - 1`, is `Statistics.SampleVariance`.
  - Its `sd` is `Statistics.Sd`.
- The random number generator is replaced by input draws, one sequence of `num_windows - 1` values in `[0, 1)` per run, the range of `rng.gen::<f64>()`.
- `ln`, `sqrt` and `calc_bias` are parameters; their numeric values are not modelled.
- The concrete numbers that the unit tests compare against are not reproduced.
- Correlation.Autocorrelation: requires at least one sample, because `n - 1` underflows and panics for an empty series.
  - It also requires a positive sample variance for three or more samples; `autocorrelation` divides by zero for a constant series and `statistical_ineff` then returns NaN.
  - The same requirements carry over to `Correlation.StatisticalIneff` and `Correlation.IneffAtLeastOne`.
- Bootstrap.WeightsAreFractions: proves `0 <= w <= 1`, not the strict `0 < w < 1` of the unit test.
  - The strict bound fails when two draws coincide or a draw is exactly 0.
- Bootstrap.RunBootstrap: requires at least two runs, because the sample standard deviation over fewer runs divides by zero.
  - A run that does not converge ends the analysis with the solver's error, where the `unwrap` in `run_bootstrap` panics.
- Wham.Normalise: a vector summing to zero is left unchanged; the division in `perform_wham` would be by zero. `perform_wham` never produces one after an iteration.
- Wham.PerformWham: requires a data set in which some window holds data points and some bin has a count.
  - Without the first, every denominator of the first WHAM equation is zero.
  - Without the second, every probability is zero, and so is the denominator of the second equation.
  - In floating point both give infinities or NaN, which the model does not represent.
  - A data set that `read_data` returns meets both: every window has points (`Io.WindowsOfReadDataHoldPoints`), and it returns no data set when no sample is kept.
- Io.GetRelativePath: requires a relative, normalised metadata path (`Io.SimplePath`: non-empty, no leading, trailing or doubled separator, no `.` component after the first). An absolute metadata path, and the `.` components and extra separators that `Path::parent` normalises away, are not modelled. The window path may be anything, including empty or absolute.
- Io.ReadWindowFile: requires at least one bin (`BinConfig.Valid`), and so do `Io.BinSamples` and `Io.ReadData`. The zero-bin behaviour of `read_window_file` is not modelled:
  - the first kept sample indexes the empty `global_hist` and panics in every build, before the bound scan;
  - a file with no kept sample reaches `num_bins - 1`, which panics in a debug build; in a release build it wraps to `usize::MAX`, so `max_bin < min_bin` and the window comes back as `None`, which `read_data` skips.
- The clamp `if g < 1.0 { 1.0 }` of `statistical_ineff` is kept in `Correlation.StatisticalIneff`. Over the reals it never fires, because every added term is positive.
