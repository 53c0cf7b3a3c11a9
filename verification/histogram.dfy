/** Sparse per-window histograms (src/histogram.rs). A window's histogram
    keeps only the slice `first..=last` of the global bin array; every bin
    outside that slice is implicitly empty. */
module Histograms {
  import opened Wrappers
  import opened Sums

  /** One window's histogram: the occupied slice of the global bins. */
  datatype Histogram = Histogram(first: nat, last: nat, numPoints: nat, bins: seq<nat>)
  {
    /** The stored slice covers exactly the global bins `first..=last`. */
    predicate Valid()
    {
      first <= last && |bins| == last - first + 1
    }
  }

  /** Count of global bin `bin`, or `None` when the bin lies outside the
      stored slice. */
  function GetBinCount(h: Histogram, bin: nat): (r: Option<nat>)
    requires h.Valid()
    ensures r.None? <==> bin < h.first || bin > h.last
    ensures r.Some? ==> h.first <= bin <= h.last && r.value == h.bins[bin - h.first]
  {
    if bin < h.first || bin > h.last then None else Some(h.bins[bin - h.first])
  }

  /** `h` is the trimmed form of the dense global histogram `global`: every
      global bin reads back through `GetBinCount`, with absent bins empty. */
  ghost predicate Represents(h: Histogram, global: seq<nat>)
    requires h.Valid()
  {
    forall b :: 0 <= b < |global| ==> GetBinCount(h, b).GetOr(0) == global[b]
  }

  /** A slice `global[first..=last]` whose outside bins are all empty
      represents the whole global histogram. */
  lemma SliceRepresents(global: seq<nat>, first: nat, last: nat, numPoints: nat)
    requires first <= last < |global|
    requires forall j :: 0 <= j < first ==> global[j] == 0
    requires forall j :: last < j < |global| ==> global[j] == 0
    ensures Histogram(first, last, numPoints, global[first..last + 1]).Valid()
    ensures Represents(Histogram(first, last, numPoints, global[first..last + 1]), global)
  {
  }

  /** Set of all window histograms together with the binning and the
      harmonic bias parameters of every window. */
  datatype HistogramSet = HistogramSet(
    numWindows: nat,
    numBins: nat,
    histMin: real,
    histMax: real,
    binWidth: real,
    biasX0: seq<real>,
    biasFc: seq<real>,
    kT: real,
    histograms: seq<Histogram>)

  /** `HistogramSet::new`: the window count is derived from the histograms,
      every other argument is stored unchanged. */
  function NewHistogramSet(numBins: nat, binWidth: real, histMin: real, histMax: real,
                           biasX0: seq<real>, biasFc: seq<real>, kT: real,
                           histograms: seq<Histogram>): (r: HistogramSet)
    ensures r.numWindows == |r.histograms|
    ensures r.histograms == histograms && r.numBins == numBins && r.binWidth == binWidth
    ensures r.histMin == histMin && r.histMax == histMax && r.kT == kT
    ensures r.biasX0 == biasX0 && r.biasFc == biasFc
  {
    HistogramSet(|histograms|, numBins, histMin, histMax, binWidth, biasX0, biasFc, kT, histograms)
  }

  /** Total number of data points over a sequence of histograms. */
  function TotalPoints(hs: seq<Histogram>): (t: nat)
    ensures forall i :: 0 <= i < |hs| ==> hs[i].numPoints <= t
  {
    if |hs| == 0 then 0 else TotalPoints(hs[..|hs| - 1]) + hs[|hs| - 1].numPoints
  }

  lemma {:induction false} TotalPointsAppend(a: seq<Histogram>, b: seq<Histogram>)
    ensures TotalPoints(a + b) == TotalPoints(a) + TotalPoints(b)
  {
    if |b| > 0 {
      assert (a + b)[..|a + b| - 1] == a + b[..|b| - 1];
      TotalPointsAppend(a, b[..|b| - 1]);
    } else {
      assert a + b == a;
    }
  }

  /** The datapoint total reported by `Display for HistogramSet`: the
      loop accumulating `num_points` over all histograms. */
  method CountDatapoints(hset: HistogramSet) returns (datapoints: nat)
    ensures datapoints == TotalPoints(hset.histograms)
    ensures (forall i :: 0 <= i < |hset.histograms| ==> hset.histograms[i].numPoints == 0)
            <==> datapoints == 0
  {
    datapoints := 0;
    var i := 0;
    while i < |hset.histograms|
      invariant 0 <= i <= |hset.histograms|
      invariant datapoints == TotalPoints(hset.histograms[..i])
    {
      assert hset.histograms[..i + 1][..i] == hset.histograms[..i];
      datapoints := datapoints + hset.histograms[i].numPoints;
      i := i + 1;
    }
    assert hset.histograms[..i] == hset.histograms;
    TotalPointsZeroIffAllEmpty(hset.histograms);
  }

  lemma {:induction false} TotalPointsZeroIffAllEmpty(hs: seq<Histogram>)
    ensures TotalPoints(hs) == 0 <==> forall i :: 0 <= i < |hs| ==> hs[i].numPoints == 0
  {
    if |hs| > 0 {
      TotalPointsZeroIffAllEmpty(hs[..|hs| - 1]);
    }
  }
}
