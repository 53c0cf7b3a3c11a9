/** Histogram construction from window samples (src/io.rs). Files are
    already parsed: a window is the sequence of its sample values and a
    metadata entry carries that sequence with the window's bias centre and
    force constant. Binning is one-dimensional, as in `read_window_file`. */
module Io {
  import opened Wrappers
  import opened Sums
  import opened Histograms

  /** Boltzmann constant in kJ/(mol K). */
  const BOLTZMANN: real := 0.0083144621

  /** The histogram options of the configuration used by the reader. */
  datatype BinConfig = BinConfig(histMin: real, histMax: real, numBins: nat, temperature: real)
  {
    /** At least one bin: with none, `read_window_file` panics on the first
        kept sample (`global_hist` is empty), and `num_bins - 1` underflows
        in the bound scan. */
    predicate Valid()
    {
      numBins >= 1
    }
  }

  /** Width of one bin: the histogram range split into `numBins` parts, so
      that `numBins` widths make up the range exactly. */
  function BinWidth(cfg: BinConfig): (w: real)
    requires cfg.Valid()
    ensures (cfg.numBins as real) * w == cfg.histMax - cfg.histMin
  {
    (cfg.histMax - cfg.histMin) / (cfg.numBins as real)
  }

  /** Samples are kept only when strictly inside the histogram boundaries. */
  predicate InRange(x: real, cfg: BinConfig)
  {
    cfg.histMin < x < cfg.histMax
  }

  /** Bin of a kept sample: the offset from `histMin` in bin widths,
      truncated toward zero (the `as usize` cast). */
  function BinIndex(x: real, cfg: BinConfig): (b: nat)
    requires cfg.Valid() && InRange(x, cfg)
    ensures b < cfg.numBins
    ensures cfg.histMin + (b as real) * BinWidth(cfg) <= x < cfg.histMin + ((b + 1) as real) * BinWidth(cfg)
  {
    var w := BinWidth(cfg);
    BinOfOffset(x - cfg.histMin, w, cfg.numBins);
    ((x - cfg.histMin) / w).Floor
  }

  /** An offset inside `[0, n * w)` falls into the bin given by truncating `d / w`. */
  lemma BinOfOffset(d: real, w: real, n: nat)
    requires w > 0.0 && 0.0 <= d < (n as real) * w
    ensures 0 <= (d / w).Floor < n
    ensures ((d / w).Floor as real) * w <= d
    ensures d < (((d / w).Floor + 1) as real) * w
  {
    var y := d / w;
    assert y * w == d;
    if y >= n as real {
      MulMonotone(n as real, y, w);
      assert false;
    }
    FloorBrackets(y, w);
    assert y * w < ((y.Floor + 1) as real) * w;
    assert d < ((y.Floor + 1) as real) * w;
  }

  /** Truncating `y` brackets `y * w` between two multiples of `w`. */
  lemma FloorBrackets(y: real, w: real)
    requires w > 0.0
    ensures (y.Floor as real) * w <= y * w < ((y.Floor + 1) as real) * w
  {
    MulMonotone(y.Floor as real, y, w);
    MulStrictMonotone(y, (y.Floor + 1) as real, w);
  }

  lemma MulMonotone(a: real, b: real, w: real)
    requires a <= b && w > 0.0
    ensures a * w <= b * w
  {
  }

  lemma MulStrictMonotone(a: real, b: real, w: real)
    requires a < b && w > 0.0
    ensures a * w < b * w
  {
  }

  /** Number of samples strictly inside the histogram boundaries. */
  function CountInRange(samples: seq<real>, cfg: BinConfig): nat
  {
    if |samples| == 0 then 0
    else CountInRange(samples[..|samples| - 1], cfg)
         + (if InRange(samples[|samples| - 1], cfg) then 1 else 0)
  }

  /** Number of kept samples whose bin index is `b`. */
  function CountInBin(samples: seq<real>, cfg: BinConfig, b: nat): nat
    requires cfg.Valid()
  {
    if |samples| == 0 then 0
    else
      var x := samples[|samples| - 1];
      CountInBin(samples[..|samples| - 1], cfg, b)
      + (if InRange(x, cfg) && BinIndex(x, cfg) == b then 1 else 0)
  }

  /** The dense global histogram of one window: starting from zeros, every
      kept sample adds one to its bin. */
  function BinSamples(samples: seq<real>, cfg: BinConfig): (hist: seq<nat>)
    requires cfg.Valid()
    ensures |hist| == cfg.numBins
    ensures SumNat(hist) == CountInRange(samples, cfg)
    ensures forall b :: 0 <= b < cfg.numBins ==> hist[b] == CountInBin(samples, cfg, b)
  {
    if |samples| == 0 then
      var zeros := seq(cfg.numBins, _ => 0);
      SumNatZeroIffAllZero(zeros);
      zeros
    else
      var prev := BinSamples(samples[..|samples| - 1], cfg);
      var x := samples[|samples| - 1];
      if InRange(x, cfg) then
        var b := BinIndex(x, cfg);
        SumNatIncrement(prev, b);
        prev[b := prev[b] + 1]
      else
        prev
  }

  /** No sample lies strictly inside the histogram boundaries. */
  predicate NoneInRange(samples: seq<real>, cfg: BinConfig)
  {
    forall i :: 0 <= i < |samples| ==> !InRange(samples[i], cfg)
  }

  lemma {:induction false} CountInRangeZeroIffNone(samples: seq<real>, cfg: BinConfig)
    ensures CountInRange(samples, cfg) == 0 <==> NoneInRange(samples, cfg)
  {
    if |samples| > 0 {
      var init := samples[..|samples| - 1];
      CountInRangeZeroIffNone(init, cfg);
      assert forall i :: 0 <= i < |init| ==> init[i] == samples[i];
    }
  }

  predicate AllEmpty(hist: seq<nat>)
  {
    forall j :: 0 <= j < |hist| ==> hist[j] == 0
  }

  /** `b` is the lowest occupied bin of `hist`. */
  predicate IsLowestOccupied(hist: seq<nat>, b: nat)
  {
    b < |hist| && hist[b] != 0 && forall j :: 0 <= j < b ==> hist[j] == 0
  }

  /** `b` is the highest occupied bin of `hist`. */
  predicate IsHighestOccupied(hist: seq<nat>, b: nat)
  {
    b < |hist| && hist[b] != 0 && forall j :: b < j < |hist| ==> hist[j] == 0
  }

  /** What the bound scan knows after visiting the bins before `bin`: the
      lowest and highest occupied bins seen so far, or the initial
      `min_bin = numBins - 1`, `max_bin = 0` if none was occupied. */
  predicate ScanInvariant(hist: seq<nat>, bin: nat, lo: nat, hi: nat)
    requires 1 <= |hist| && bin <= |hist|
  {
    if AllEmpty(hist[..bin]) then lo == |hist| - 1 && hi == 0
    else IsLowestOccupied(hist[..bin], lo) && IsHighestOccupied(hist[..bin], hi)
  }

  /** The loop of `read_window_file` that raises `max_bin` and lowers
      `min_bin` at every occupied bin, from bin `bin` to the end. */
  function ScanBounds(hist: seq<nat>, bin: nat, lo: nat, hi: nat): (r: (nat, nat))
    requires 1 <= |hist| && bin <= |hist|
    requires ScanInvariant(hist, bin, lo, hi)
    ensures ScanInvariant(hist, |hist|, r.0, r.1)
    decreases |hist| - bin
  {
    if bin == |hist| then (lo, hi)
    else
      var hi' := if hist[bin] != 0 && bin > hi then bin else hi;
      var lo' := if hist[bin] != 0 && bin < lo then bin else lo;
      assert hist[..bin + 1] == hist[..bin] + [hist[bin]];
      ScanBounds(hist, bin + 1, lo', hi')
  }

  /** The bounds the scan yields over the whole histogram. */
  lemma OccupiedBounds(hist: seq<nat>)
    requires 1 <= |hist|
    ensures var r := ScanBounds(hist, 0, |hist| - 1, 0);
            if AllEmpty(hist) then r.0 == |hist| - 1 && r.1 == 0
            else IsLowestOccupied(hist, r.0) && IsHighestOccupied(hist, r.1)
  {
    assert ScanInvariant(hist, 0, |hist| - 1, 0);
    assert hist[..|hist|] == hist;
  }

  /** The emptiness test of `read_window_file` on the scanned bounds holds
      exactly when no sample was kept; otherwise the bounds are the lowest
      and highest occupied bins. */
  lemma EmptinessTest(samples: seq<real>, cfg: BinConfig)
    requires cfg.Valid()
    ensures var hist := BinSamples(samples, cfg);
            var r := ScanBounds(hist, 0, cfg.numBins - 1, 0);
            && (((r.1 == r.0 && hist[r.1] == 0) || r.1 < r.0) <==> NoneInRange(samples, cfg))
            && (!NoneInRange(samples, cfg) ==> IsLowestOccupied(hist, r.0) && IsHighestOccupied(hist, r.1))
  {
    var hist := BinSamples(samples, cfg);
    OccupiedBounds(hist);
    SumNatZeroIffAllZero(hist);
    CountInRangeZeroIffNone(samples, cfg);
  }

  /** `read_window_file` over the parsed samples of one window: bin the
      kept samples, trim leading and trailing empty bins, and return `None`
      for a histogram with no data point. */
  function ReadWindowFile(samples: seq<real>, cfg: BinConfig): (r: Option<Histogram>)
    requires cfg.Valid()
    ensures r.None? <==> NoneInRange(samples, cfg)
    ensures r.Some? ==> && Trimmed(r.value, BinSamples(samples, cfg))
                        && r.value.numPoints == CountInRange(samples, cfg)
  {
    var hist := BinSamples(samples, cfg);
    var (minBin, maxBin) := ScanBounds(hist, 0, cfg.numBins - 1, 0);
    EmptinessTest(samples, cfg);
    if (maxBin == minBin && hist[maxBin] == 0) || maxBin < minBin then
      None
    else
      TrimmedHistogram(hist, minBin, maxBin);
      var bins := hist[minBin..maxBin + 1];
      Some(Histogram(minBin, maxBin, SumNat(bins), bins))
  }

  /** `h` is the dense histogram `hist` cut down to the slice between its
      lowest and highest occupied bins; the counts outside are all zero, so
      `h` still represents `hist`. */
  ghost predicate Trimmed(h: Histogram, hist: seq<nat>)
  {
    && h.Valid()
    && IsLowestOccupied(hist, h.first)
    && IsHighestOccupied(hist, h.last)
    && h.bins == hist[h.first..h.last + 1]
    && Represents(h, hist)
  }

  /** Cutting a dense histogram down to the slice between its lowest and
      highest occupied bins keeps every count, and both ends of the slice
      are occupied. */
  lemma TrimmedHistogram(hist: seq<nat>, lo: nat, hi: nat)
    requires IsLowestOccupied(hist, lo) && IsHighestOccupied(hist, hi)
    ensures lo <= hi
    ensures Trimmed(Histogram(lo, hi, SumNat(hist[lo..hi + 1]), hist[lo..hi + 1]), hist)
    ensures SumNat(hist[lo..hi + 1]) == SumNat(hist)
  {
    SumNatTrimZeros(hist, lo, hi);
    SliceRepresents(hist, lo, hi, SumNat(hist[lo..hi + 1]));
  }

  /** Both ends of a trimmed histogram's stored slice are occupied. */
  lemma TrimmedEndsOccupied(h: Histogram, hist: seq<nat>)
    requires Trimmed(h, hist)
    ensures h.bins[0] != 0 && h.bins[|h.bins| - 1] != 0
  {
  }

  /** Every global bin count of a window reads back from its stored
      histogram as the number of kept samples falling into that bin. */
  lemma ReadBackCounts(samples: seq<real>, cfg: BinConfig, b: nat)
    requires cfg.Valid() && b < cfg.numBins
    requires ReadWindowFile(samples, cfg).Some?
    ensures GetBinCount(ReadWindowFile(samples, cfg).value, b).GetOr(0) == CountInBin(samples, cfg, b)
  {
  }

  /** One parsed metadata line: the window's samples, bias centre and force constant. */
  datatype WindowEntry = WindowEntry(samples: seq<real>, x0: real, fc: real)

  /** The entries whose window has at least one kept sample, in order. */
  function Surviving(entries: seq<WindowEntry>, cfg: BinConfig): seq<WindowEntry>
  {
    if |entries| == 0 then []
    else
      var rest := Surviving(entries[..|entries| - 1], cfg);
      var e := entries[|entries| - 1];
      if NoneInRange(e.samples, cfg) then rest else rest + [e]
  }

  lemma {:induction false} SurvivingEmptyIffAllEmpty(entries: seq<WindowEntry>, cfg: BinConfig)
    ensures |Surviving(entries, cfg)| == 0
            <==> forall i :: 0 <= i < |entries| ==> NoneInRange(entries[i].samples, cfg)
  {
    if |entries| > 0 {
      var init := entries[..|entries| - 1];
      SurvivingEmptyIffAllEmpty(init, cfg);
      assert forall i :: 0 <= i < |init| ==> init[i] == entries[i];
    }
  }

  /** The vectors built by the metadata loop of `read_data`. */
  datatype Collected = Collected(histograms: seq<Histogram>, biasX0: seq<real>, biasFc: seq<real>)

  /** The metadata loop: a window with a histogram pushes it and then its
      bias centre and force constant; an empty window pushes nothing. */
  function CollectWindows(entries: seq<WindowEntry>, cfg: BinConfig): (c: Collected)
    requires cfg.Valid()
    ensures |c.histograms| == |c.biasX0| == |c.biasFc| == |Surviving(entries, cfg)|
  {
    if |entries| == 0 then Collected([], [], [])
    else
      var c := CollectWindows(entries[..|entries| - 1], cfg);
      var e := entries[|entries| - 1];
      match ReadWindowFile(e.samples, cfg)
      case None => c
      case Some(h) => Collected(c.histograms + [h], c.biasX0 + [e.x0], c.biasFc + [e.fc])
  }

  /** Entry `i` of each collected vector belongs to the `i`-th window of `s`. */
  ghost predicate Aligned(s: seq<WindowEntry>, c: Collected, cfg: BinConfig)
    requires cfg.Valid()
  {
    && |c.histograms| == |c.biasX0| == |c.biasFc| == |s|
    && forall i :: 0 <= i < |s| ==>
         && ReadWindowFile(s[i].samples, cfg) == Some(c.histograms[i])
         && c.biasX0[i] == s[i].x0
         && c.biasFc[i] == s[i].fc
  }

  lemma AlignedPush(s: seq<WindowEntry>, c: Collected, e: WindowEntry, h: Histogram, cfg: BinConfig)
    requires cfg.Valid() && Aligned(s, c, cfg) && ReadWindowFile(e.samples, cfg) == Some(h)
    ensures Aligned(s + [e], Collected(c.histograms + [h], c.biasX0 + [e.x0], c.biasFc + [e.fc]), cfg)
  {
    var s' := s + [e];
    var c' := Collected(c.histograms + [h], c.biasX0 + [e.x0], c.biasFc + [e.fc]);
    forall i | 0 <= i < |s'|
      ensures && ReadWindowFile(s'[i].samples, cfg) == Some(c'.histograms[i])
              && c'.biasX0[i] == s'[i].x0
              && c'.biasFc[i] == s'[i].fc
    {
      if i < |s| {
        assert s'[i] == s[i] && c'.histograms[i] == c.histograms[i];
      }
    }
  }

  /** The three collected vectors stay aligned: entry `i` of each belongs
      to the `i`-th surviving window. */
  lemma {:induction false} CollectWindowsAligned(entries: seq<WindowEntry>, cfg: BinConfig)
    requires cfg.Valid()
    ensures Aligned(Surviving(entries, cfg), CollectWindows(entries, cfg), cfg)
  {
    if |entries| > 0 {
      var init := entries[..|entries| - 1];
      var e := entries[|entries| - 1];
      CollectWindowsAligned(init, cfg);
      var c0 := CollectWindows(init, cfg);
      var s0 := Surviving(init, cfg);
      match ReadWindowFile(e.samples, cfg)
      case None =>
        assert Surviving(entries, cfg) == s0;
      case Some(h) =>
        assert Surviving(entries, cfg) == s0 + [e];
        AlignedPush(s0, c0, e, h, cfg);
    }
  }

  /** `read_data` over parsed metadata: `None` when no window kept a data
      point, otherwise the histogram set of the surviving windows. */
  function ReadData(entries: seq<WindowEntry>, cfg: BinConfig): (r: Option<HistogramSet>)
    requires cfg.Valid()
    ensures r.None? <==> forall i :: 0 <= i < |entries| ==> NoneInRange(entries[i].samples, cfg)
    ensures r.Some? ==>
              && r.value.numWindows == |r.value.histograms| == |r.value.biasX0| == |r.value.biasFc| >= 1
              && r.value.numWindows == |Surviving(entries, cfg)|
              && r.value.numBins == cfg.numBins
              && r.value.histMin == cfg.histMin && r.value.histMax == cfg.histMax
              && r.value.binWidth == BinWidth(cfg)
              && r.value.kT == cfg.temperature * BOLTZMANN
  {
    var c := CollectWindows(entries, cfg);
    SurvivingEmptyIffAllEmpty(entries, cfg);
    if |c.histograms| > 0 then
      Some(NewHistogramSet(cfg.numBins, BinWidth(cfg), cfg.histMin, cfg.histMax,
                           c.biasX0, c.biasFc, cfg.temperature * BOLTZMANN, c.histograms))
    else
      None
  }

  /** Every window of a data set that `read_data` returns holds a data point:
      an empty window is skipped rather than stored. */
  lemma WindowsOfReadDataHoldPoints(entries: seq<WindowEntry>, cfg: BinConfig)
    requires cfg.Valid() && ReadData(entries, cfg).Some?
    ensures forall i :: 0 <= i < |ReadData(entries, cfg).value.histograms| ==>
              ReadData(entries, cfg).value.histograms[i].numPoints > 0
  {
    var s := Surviving(entries, cfg);
    CollectWindowsAligned(entries, cfg);
    forall i | 0 <= i < |ReadData(entries, cfg).value.histograms|
      ensures ReadData(entries, cfg).value.histograms[i].numPoints > 0
    {
      CountInRangeZeroIffNone(s[i].samples, cfg);
    }
  }

  /** Total of kept samples over all windows. */
  function TotalInRange(entries: seq<WindowEntry>, cfg: BinConfig): nat
  {
    if |entries| == 0 then 0
    else TotalInRange(entries[..|entries| - 1], cfg) + CountInRange(entries[|entries| - 1].samples, cfg)
  }

  /** Every kept sample of every window is counted once in the data set:
      skipped windows had none to contribute. */
  lemma {:induction false} CollectedPointsAreKeptSamples(entries: seq<WindowEntry>, cfg: BinConfig)
    requires cfg.Valid()
    ensures TotalPoints(CollectWindows(entries, cfg).histograms) == TotalInRange(entries, cfg)
  {
    if |entries| > 0 {
      var init := entries[..|entries| - 1];
      var e := entries[|entries| - 1];
      CollectedPointsAreKeptSamples(init, cfg);
      var c := CollectWindows(init, cfg);
      assert entries[..|entries| - 1] == init;
      match ReadWindowFile(e.samples, cfg)
      case None =>
        CountInRangeZeroIffNone(e.samples, cfg);
        assert CollectWindows(entries, cfg) == c;
      case Some(h) =>
        assert CollectWindows(entries, cfg).histograms == c.histograms + [h];
        TotalPointsAppend(c.histograms, [h]);
    }
  }

  /* ---------------- Paths of window files ---------------- */

  const SEPARATOR: char := '/'

  /** Index of the last separator of `p`, if any. */
  function LastSeparator(p: string): (r: Option<nat>)
    ensures r.Some? ==> r.value < |p| && p[r.value] == SEPARATOR
                        && forall j :: r.value < j < |p| ==> p[j] != SEPARATOR
    ensures r.None? ==> forall j :: 0 <= j < |p| ==> p[j] != SEPARATOR
  {
    if |p| == 0 then None
    else if p[|p| - 1] == SEPARATOR then Some(|p| - 1)
    else LastSeparator(p[..|p| - 1])
  }

  /** The directory part of a path: everything before its last separator,
      empty for a bare file name. */
  function Parent(p: string): (r: string)
    ensures LastSeparator(p).None? ==> r == ""
    ensures LastSeparator(p).Some? ==>
              && |r| < |p| && r == p[..|r|] && p[|r|] == SEPARATOR
              && forall j :: |r| < j < |p| ==> p[j] != SEPARATOR
  {
    match LastSeparator(p)
    case None => ""
    case Some(i) => p[..i]
  }

  /** The last component of a path. */
  function FileName(p: string): (r: string)
    ensures |r| <= |p| && r == p[|p| - |r|..]
    ensures forall j :: 0 <= j < |r| ==> r[j] != SEPARATOR
    ensures LastSeparator(p).None? ==> r == p
  {
    match LastSeparator(p)
    case None => p
    case Some(i) => p[i + 1..]
  }

  /** A relative `/`-separated path with non-empty components and no `.`
      component after the first: the inputs for which `Path::parent` and
      `Path::join` act purely textually. */
  predicate SimplePath(p: string)
  {
    && |p| > 0 && p[0] != SEPARATOR && p[|p| - 1] != SEPARATOR
    && (forall i :: 0 <= i < |p| - 1 ==> !(p[i] == SEPARATOR && p[i + 1] == SEPARATOR))
    && (forall i :: 0 <= i < |p| - 1 ==>
          !(p[i] == SEPARATOR && p[i + 1] == '.' && (i + 2 == |p| || p[i + 2] == SEPARATOR)))
  }

  /** Joins a directory with a relative path; an empty directory adds no separator. */
  function Join(dir: string, p: string): (r: string)
    ensures dir == "" ==> r == p
    ensures dir != "" ==>
              && |r| == |dir| + 1 + |p|
              && r[..|dir|] == dir && r[|dir|] == SEPARATOR && r[|dir| + 1..] == p
  {
    if dir == "" then p else dir + [SEPARATOR] + p
  }

  /** A path with a separator is its directory, the separator and its file
      name put together again. */
  lemma ParentAndFileNameRejoin(p: string)
    requires LastSeparator(p).Some?
    ensures Parent(p) + [SEPARATOR] + FileName(p) == p
  {
    var i := LastSeparator(p).value;
    assert p == p[..i] + [SEPARATOR] + p[i + 1..];
  }

  /** `get_relative_path`: the path `path2` taken relative to the directory
      holding `path1` (the metadata file). `Path::join` keeps an absolute
      `path2` as it is, and otherwise appends it to the directory without
      changing it; joining onto the empty directory of a bare file name
      adds no separator. */
  function GetRelativePath(path1: string, path2: string): (r: string)
    requires SimplePath(path1)
    ensures |r| >= |path2| && r[|r| - |path2|..] == path2
    ensures FileName(r) == FileName(path2)
    ensures IsAbsolute(path2) ==> r == path2
    ensures !IsAbsolute(path2) ==>
              Parent(r) == if Parent(path2) == "" then Parent(path1) else Join(Parent(path1), Parent(path2))
  {
    if IsAbsolute(path2) then path2
    else
      JoinSplits(Parent(path1), path2);
      Join(Parent(path1), path2)
  }

  /** The case of the unit test of `get_relative_path`: a relative window
      path is resolved beside the metadata file `dir/name`, giving
      `dir/path2`. */
  lemma ResolvedBesideMetadata(dir: string, name: string, path2: string)
    requires dir != "" && SimplePath(dir + [SEPARATOR] + name) && !IsAbsolute(path2)
    requires forall j :: 0 <= j < |name| ==> name[j] != SEPARATOR
    ensures GetRelativePath(dir + [SEPARATOR] + name, path2) == dir + [SEPARATOR] + path2
  {
    var d := dir + [SEPARATOR];
    assert dir + [SEPARATOR] + name == d + name;
    LastSeparatorAppend(d, name);
    assert LastSeparator(d) == Some(|dir|);
    assert (d + name)[..|dir|] == dir;
  }

  /** A path starting at the root. */
  predicate IsAbsolute(p: string)
  {
    |p| > 0 && p[0] == SEPARATOR
  }

  /** The separator positions of `a + b` are those of `a` followed by those of `b`. */
  lemma {:induction false} LastSeparatorAppend(a: string, b: string)
    ensures LastSeparator(a + b) ==
              match LastSeparator(b)
              case Some(i) => Some(|a| + i)
              case None => LastSeparator(a)
  {
    if |b| == 0 {
      assert a + b == a;
    } else {
      assert (a + b)[..|a + b| - 1] == a + b[..|b| - 1];
      LastSeparatorAppend(a, b[..|b| - 1]);
    }
  }

  /** Splitting a joined path gives back the directory and the file name. */
  lemma JoinSplits(dir: string, p: string)
    requires !IsAbsolute(p)
    ensures FileName(Join(dir, p)) == FileName(p)
    ensures Parent(Join(dir, p)) == if Parent(p) == "" then dir else Join(dir, Parent(p))
  {
    if dir != "" {
      var d := dir + [SEPARATOR];
      var j := d + p;
      assert Join(dir, p) == j;
      LastSeparatorAppend(dir, [SEPARATOR]);
      assert LastSeparator(d) == Some(|dir|);
      LastSeparatorAppend(d, p);
      match LastSeparator(p)
      case None =>
        assert LastSeparator(j) == Some(|dir|);
        assert j[..|dir|] == dir;
        assert j[|dir| + 1..] == p;
      case Some(i) =>
        assert i > 0;
        assert LastSeparator(j) == Some(|d| + i);
        assert j[..|d| + i] == d + p[..i];
        assert j[|d| + i + 1..] == p[i + 1..];
    }
  }

  /** Resolving a file's own name against its path gives the path back. */
  lemma {:induction false} RelativeToOwnName(p: string)
    requires SimplePath(p) && SimplePath(FileName(p))
    ensures GetRelativePath(p, FileName(p)) == p
  {
    match LastSeparator(p)
    case None =>
    case Some(i) =>
      assert i > 0;
      assert p[..i] + [SEPARATOR] + p[i + 1..] == p;
  }
}
