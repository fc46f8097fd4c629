/** The C detector: unclipped ring, local maxima only, a capped list, and an exchange sort. */
module CCfar {
  import opened Complex
  import opened Reals
  import opened Matrix
  import opened GridSums
  import opened Cfar

  datatype CPeak = CPeak(rangeBin: int, dopplerBin: int, magnitude: real, phase: real, snr: real,
                         distance: real, velocity: real, confidence: real)

  // ---------------------------------------------------------------- hits

  function Magnitudes(x: seq<Complex>, cabs: Complex -> real): (m: seq<real>)
    ensures |m| == |x| && forall i: nat :: i < |m| ==> m[i] == cabs(x[i])
  {
    seq(|x|, (i: nat) requires i < |x| => cabs(x[i]))
  }

  /** Rows of the job are Doppler bins, columns are range bins. */
  function Center(job: Job, d: int, r: int): real
    requires ValidJob(job)
  {
    DataPlane(job.data, job.rows, job.cols)(d, r)
  }

  predicate InBorder(job: Job, d: int, r: int) {
    var k := job.guard + job.train;
    k <= r < job.cols - k && k <= d < job.rows - k
  }

  /** Strictly above all eight neighbours. */
  predicate LocalMax(job: Job, d: int, r: int)
    requires ValidJob(job)
  {
    forall e: int, q: int :: d - 1 <= e <= d + 1 && r - 1 <= q <= r + 1 && !(e == d && q == r) ==> Center(job, e, q) < Center(job, d, r)
  }

  function Snr(job: Job, d: int, r: int): real
    requires ValidJob(job) && RingCells(job, d, r) > 0.0 && Mean(job, d, r) >= 0.0
  {
    Center(job, d, r) / (Mean(job, d, r) + FLOOR)
  }

  ghost predicate NonNegative(job: Job) {
    ValidJob(job) && forall i: nat :: i < |job.data| ==> job.data[i] >= 0.0
  }

  ghost predicate Hit(job: Job, d: int, r: int)
    requires NonNegative(job)
  {
    && InBorder(job, d, r) && RingCells(job, d, r) > 0.0
    && (MeanNonNegative(job, d, r); Snr(job, d, r) > job.threshold)
    && LocalMax(job, d, r)
  }

  lemma CenterNonNegative(job: Job, d: int, r: int)
    requires NonNegative(job)
    ensures Center(job, d, r) >= 0.0
  {
    if 0 <= d < job.rows && 0 <= r < job.cols { AtBound(d, r, job.rows, job.cols); }
  }

  lemma MeanNonNegative(job: Job, d: int, r: int)
    requires NonNegative(job) && RingCells(job, d, r) > 0.0
    ensures Mean(job, d, r) >= 0.0
  {
    var v, k := Masked(DataPlane(job.data, job.rows, job.cols), d, r, job.guard), job.guard + job.train;
    hide DataPlane;
    forall e: int, q: int
      ensures v(e, q) >= 0.0
    {
      CenterNonNegative(job, e, q);
    }
    RectSumNonNegative(v, d - k, d + k + 1, r - k, r + k + 1);
    Quotient(RingTotal(job, d, r), RingCells(job, d, r));
  }

  lemma Quotient(a: real, b: real)
    requires a >= 0.0 && b > 0.0
    ensures a / b >= 0.0
  {}

  lemma SnrNonNegative(job: Job, d: int, r: int)
    requires NonNegative(job) && RingCells(job, d, r) > 0.0
    ensures Mean(job, d, r) >= 0.0 && Snr(job, d, r) >= 0.0
  {
    hide RingCells, RingTotal, Center;
    MeanNonNegative(job, d, r);
    CenterNonNegative(job, d, r);
    hide Mean;
    Quotient(Center(job, d, r), Mean(job, d, r) + FLOOR);
  }

  // ---------------------------------------------------------------- hits are detections

  lemma Exceeds(center: real, mean: real, threshold: real)
    requires mean >= 0.0 && center > 0.0 && center / (mean + FLOOR) > threshold
    ensures center > mean * threshold
  {
    var divisor := mean + FLOOR;
    Divided(center, divisor, threshold);
    if threshold >= 0.0 {
      ProductMonotone(mean, divisor, threshold);
    } else {
      ProductNonNegative(mean, -threshold);
    }
  }

  lemma Divided(a: real, b: real, q: real)
    requires b > 0.0 && a / b > q
    ensures a > b * q
  {
    ProductPositive(a / b - q, b);
    assert (a / b) * b == a;
    assert (a / b - q) * b == a - q * b;
  }

  /** Whatever the threshold, every position the C detector hits is a detection of the engine's detector. */
  lemma HitIsDetection(job: Job, d: int, r: int)
    requires NonNegative(job) && Hit(job, d, r)
    ensures Detects(job, d, r)
  {
    hide RingCells, RingTotal;
    MeanNonNegative(job, d, r);
    var k := job.guard + job.train;
    if k == 0 { NoTrainingExactly(job, d, r); }
    CenterPositive(job, d, r);
    hide Mean;
    Exceeds(Center(job, d, r), Mean(job, d, r), job.threshold);
  }

  lemma CenterPositive(job: Job, d: int, r: int)
    requires NonNegative(job) && LocalMax(job, d, r)
    ensures Center(job, d, r) > 0.0
  {
    hide Center;
    CenterNonNegative(job, d + 1, r);
  }

  /** Away from the border the two detectors look at the same ring, in either order of summation. */
  lemma SameRing(job: Job, d: int, r: int)
    requires ValidJob(job)
    ensures var v, k := DataPlane(job.data, job.rows, job.cols), job.guard + job.train;
      && RingSum(Transpose(v), r, d, job.guard, k) == RingTotal(job, d, r)
      && RingSum(Ones(job.cols, job.rows), r, d, job.guard, k) == RingCells(job, d, r)
  {
    var k := job.guard + job.train;
    RingTransposed(DataPlane(job.data, job.rows, job.cols), d, r, job.guard, k);
    RingTransposed(Ones(job.rows, job.cols), d, r, job.guard, k);
    RectSumSame(Masked(Transpose(Ones(job.rows, job.cols)), r, d, job.guard), Masked(Ones(job.cols, job.rows), r, d, job.guard),
                r - k, r + k + 1, d - k, d + k + 1);
  }

  // ---------------------------------------------------------------- collecting

  ghost function PeakOf(job: Job, phases: seq<real>, d: int, r: int): CPeak
    requires NonNegative(job) && Hit(job, d, r) && |phases| == |job.data|
  {
    SnrNonNegative(job, d, r);
    AtBound(d, r, job.rows, job.cols);
    var snr := Snr(job, d, r);
    CPeak(r, d, Center(job, d, r), phases[At(d, r, job.cols)], snr, 0.0, 0.0, snr / (snr + 10.0))
  }

  ghost predicate IsHit(p: CPeak, job: Job, phases: seq<real>)
    requires NonNegative(job) && |phases| == |job.data|
  {
    Hit(job, p.dopplerBin, p.rangeBin) && p == PeakOf(job, phases, p.dopplerBin, p.rangeBin)
  }

  /** The first cap hits before (r, d), range bin by range bin. */
  ghost predicate Collected(list: seq<CPeak>, job: Job, phases: seq<real>, cap: nat, r: int, d: int) {
    && NonNegative(job) && |phases| == |job.data| && |list| <= cap
    && (forall i: nat :: i < |list| ==> IsHit(list[i], job, phases) && Before(list[i].rangeBin, list[i].dopplerBin, r, d))
    && (forall i: nat, j: nat :: i < j < |list| ==>
          Before(list[i].rangeBin, list[i].dopplerBin, list[j].rangeBin, list[j].dopplerBin))
    && (forall e: int, q: int :: Hit(job, e, q) && Before(q, e, r, d) ==>
          PeakOf(job, phases, e, q) in list || (|list| == cap && forall p :: p in list ==> Before(p.rangeBin, p.dopplerBin, q, e)))
  }

  lemma NothingCollected(job: Job, phases: seq<real>, cap: nat)
    requires NonNegative(job) && |phases| == |job.data|
    ensures var k := job.guard + job.train; Collected([], job, phases, cap, k, k)
  {
    hide LocalMax, Snr, RingCells;
  }

  lemma CollectedStep(list: seq<CPeak>, job: Job, phases: seq<real>, cap: nat, r: int, d: int)
    requires Collected(list, job, phases, cap, r, d)
    ensures Collected(if Hit(job, d, r) && |list| < cap then list + [PeakOf(job, phases, d, r)] else list, job, phases, cap, r, d + 1)
  {
    hide Hit, PeakOf;
    var next := if Hit(job, d, r) && |list| < cap then list + [PeakOf(job, phases, d, r)] else list;
    if Hit(job, d, r) { PeakPosition(job, phases, d, r); }
    forall e: int, q: int | Hit(job, e, q) && Before(q, e, r, d + 1)
      ensures PeakOf(job, phases, e, q) in next || (|next| == cap && forall p :: p in next ==> Before(p.rangeBin, p.dopplerBin, q, e))
    {
      if q == r && e == d {
        if |list| < cap { assert next[|list|] == PeakOf(job, phases, d, r); }
      } else if PeakOf(job, phases, e, q) in list {
        var i :| 0 <= i < |list| && list[i] == PeakOf(job, phases, e, q);
        assert next[i] == list[i];
      }
    }
  }

  lemma PeakPosition(job: Job, phases: seq<real>, d: int, r: int)
    requires NonNegative(job) && Hit(job, d, r) && |phases| == |job.data|
    ensures PeakOf(job, phases, d, r).rangeBin == r && PeakOf(job, phases, d, r).dopplerBin == d
  {}

  lemma CollectedColumn(list: seq<CPeak>, job: Job, phases: seq<real>, cap: nat, r: int, d: int)
    requires Collected(list, job, phases, cap, r, d) && d >= job.rows - job.guard - job.train
    ensures Collected(list, job, phases, cap, r + 1, job.guard + job.train)
  {
    hide LocalMax, Snr, RingCells, PeakOf;
  }

  /** Every stored position, in whatever order, is among the engine's detections. */
  lemma CollectedWithinEngine(stored: seq<CPeak>, list: seq<CPeak>, job: Job, phases: seq<real>, cap: nat, r: int, d: int, i: nat)
    requires Collected(list, job, phases, cap, r, d) && multiset(stored) == multiset(list) && i < |stored|
    ensures Detects(job, stored[i].dopplerBin, stored[i].rangeBin)
  {
    hide Hit, Detects;
    assert stored[i] in multiset(stored);
    assert stored[i] in list;
    HitIsDetection(job, stored[i].dopplerBin, stored[i].rangeBin);
  }

  // ---------------------------------------------------------------- the loops

  method Ring(magnitude: seq<real>, rangeBins: nat, dopplerBins: nat, r: int, d: int, guard: nat, train: nat, ghost job: Job)
    returns (sum: real, count: int)
    requires ValidJob(job) && job.data == magnitude && job.rows == dopplerBins && job.cols == rangeBins && job.guard == guard && job.train == train
    requires InBorder(job, d, r)
    ensures sum == RingTotal(job, d, r) && count as real == RingCells(job, d, r)
  {
    hide DataPlane, RingTotal, RingCells;
    sum, count := 0.0, 0;
    var g: int, k: int := guard, guard + train;
    ghost var v, ones := Masked(Transpose(DataPlane(magnitude, dopplerBins, rangeBins)), r, d, guard), Masked(Ones(rangeBins, dopplerBins), r, d, guard);
    for dr := -k to k + 1
      invariant sum == RectSum(v, r - k, r + dr, d - k, d + k + 1)
      invariant count as real == RectSum(ones, r - k, r + dr, d - k, d + k + 1)
    {
      ghost var s, n := sum, count;
      for dd := -k to k + 1
        invariant sum == s + RowSum(v, r + dr, d - k, d + dd)
        invariant count as real == n as real + RowSum(ones, r + dr, d - k, d + dd)
      {
        Term(job, d, r, d + dd, r + dr);
        if !(-g <= dr <= g && -g <= dd <= g) {
          sum := sum + magnitude[At(d + dd, r + dr, rangeBins)];
          count := count + 1;
        }
      }
    }
    SameRing(job, d, r);
  }

  lemma Term(job: Job, d: int, r: int, nd: int, nr: int)
    requires ValidJob(job) && 0 <= nd < job.rows && 0 <= nr < job.cols
    ensures var g: int := job.guard;
      var v, ones := Masked(Transpose(DataPlane(job.data, job.rows, job.cols)), r, d, job.guard)(nr, nd), Masked(Ones(job.cols, job.rows), r, d, job.guard)(nr, nd);
      At(nd, nr, job.cols) < |job.data| && if -g <= nr - r <= g && -g <= nd - d <= g then v == 0.0 && ones == 0.0
      else ones == 1.0 && v == job.data[At(nd, nr, job.cols)]
  {
    AtBound(nd, nr, job.rows, job.cols);
    var plane, ones := Transpose(DataPlane(job.data, job.rows, job.cols)), Ones(job.cols, job.rows);
    if Inside(nr, r, job.guard) && Inside(nd, d, job.guard) {
      assert Masked(plane, r, d, job.guard)(nr, nd) == Masked(ones, r, d, job.guard)(nr, nd) == 0.0;
    } else {
      assert Masked(plane, r, d, job.guard)(nr, nd) == plane(nr, nd) && Masked(ones, r, d, job.guard)(nr, nd) == ones(nr, nd);
    }
  }

  method IsLocalMax(magnitude: seq<real>, rangeBins: nat, r: int, d: int, center: real, ghost job: Job) returns (isMax: bool)
    requires ValidJob(job) && job.data == magnitude && job.cols == rangeBins
    requires 1 <= r < job.cols - 1 && 1 <= d < job.rows - 1 && center == Center(job, d, r)
    ensures isMax <==> LocalMax(job, d, r)
  {
    hide Center;
    isMax := true;
    var dr := -1;
    while dr <= 1 && isMax
      invariant -1 <= dr <= 2
      invariant isMax ==> forall e: int, q: int :: d - 1 <= e <= d + 1 && r - 1 <= q < r + dr && !(e == d && q == r) ==> Center(job, e, q) < center
      invariant !isMax ==> !LocalMax(job, d, r)
      decreases 2 - dr
    {
      var dd, nr := -1, r + dr;
      while dd <= 1 && isMax
        invariant -1 <= dd <= 2
        invariant isMax ==> forall e: int, q: int :: d - 1 <= e <= d + 1 && r - 1 <= q < nr && !(e == d && q == r) ==> Center(job, e, q) < center
        invariant isMax ==> forall e: int :: d - 1 <= e < d + dd && !(e == d && nr == r) ==> Center(job, e, nr) < center
        invariant !isMax ==> !LocalMax(job, d, r)
        decreases 2 - dd
      {
        if !(dr == 0 && dd == 0) {
          CenterIs(job, d + dd, nr);
          if magnitude[At(d + dd, nr, rangeBins)] >= center { isMax := false; }
        }
        dd := dd + 1;
      }
      dr := dr + 1;
    }
  }

  lemma CenterIs(job: Job, d: int, r: int)
    requires ValidJob(job) && 0 <= d < job.rows && 0 <= r < job.cols
    ensures At(d, r, job.cols) < |job.data| && Center(job, d, r) == job.data[At(d, r, job.cols)]
  {
    AtBound(d, r, job.rows, job.cols);
  }

  lemma RingFacts(job: Job, d: int, r: int, sum: real, count: int)
    requires NonNegative(job) && InBorder(job, d, r) && sum == RingTotal(job, d, r) && count as real == RingCells(job, d, r)
    ensures count != 0 ==> count > 0 && job.train > 0 && sum / count as real == Mean(job, d, r)
    ensures count != 0 ==> Mean(job, d, r) >= 0.0 && Snr(job, d, r) == Center(job, d, r) / (sum / count as real + FLOOR) >= 0.0
  {
    hide RingTotal, RingCells, Center;
    NoTrainingExactly(job, d, r);
    if count != 0 { SnrNonNegative(job, d, r); }
  }

  lemma HitIs(job: Job, phases: seq<real>, d: int, r: int, isMax: bool, snr: real, count: int)
    requires NonNegative(job) && InBorder(job, d, r) && |phases| == |job.data| && count as real == RingCells(job, d, r)
    requires count != 0 ==> count > 0 && Mean(job, d, r) >= 0.0 && snr == Snr(job, d, r) >= 0.0
    requires isMax <==> count != 0 && snr > job.threshold && LocalMax(job, d, r)
    ensures isMax <==> Hit(job, d, r)
    ensures isMax ==> At(d, r, job.cols) < |phases| && snr >= 0.0
    ensures isMax ==>
      PeakOf(job, phases, d, r) == CPeak(r, d, Center(job, d, r), phases[At(d, r, job.cols)], snr, 0.0, 0.0, snr / (snr + 10.0))
  {
    hide RingTotal, RingCells, Center, LocalMax, Snr, Mean;
    AtBound(d, r, job.rows, job.cols);
  }

  lemma CollectedAll(list: seq<CPeak>, job: Job, phases: seq<real>, cap: nat, r: int)
    requires Collected(list, job, phases, cap, r, job.guard + job.train) && r >= job.cols - job.guard - job.train
    ensures Collected(list, job, phases, cap, job.cols, 0)
  {
    hide LocalMax, Snr, RingCells, PeakOf;
  }

  /** The peaks in front are in order of falling signal-to-noise ratio. */
  ghost predicate Descending(peaks: seq<CPeak>) {
    forall i: nat, j: nat :: i < j < |peaks| ==> peaks[i].snr >= peaks[j].snr
  }

  /** The first i are in place: none of them is below a later one. */
  ghost predicate SortedTo(peaks: seq<CPeak>, i: nat) {
    forall a: nat, b: nat :: a < b < |peaks| && a < i ==> peaks[a].snr >= peaks[b].snr
  }

  /** Peak i is not below those after it, up to j. */
  ghost predicate TopUntil(peaks: seq<CPeak>, i: nat, j: nat) {
    i < j <= |peaks| && forall b: nat :: i < b < j ==> peaks[i].snr >= peaks[b].snr
  }

  lemma Exchanged(s: seq<CPeak>, t: seq<CPeak>, i: nat, j: nat)
    requires SortedTo(s, i) && TopUntil(s, i, j) && j < |s|
    requires t == if s[j].snr > s[i].snr then s[i := s[j]][j := s[i]] else s
    ensures SortedTo(t, i) && TopUntil(t, i, j + 1) && multiset(t) == multiset(s)
  {}

  /** Exchanges peak i with every later one that beats it. */
  method RaiseTop(peaks: array<CPeak>, i: nat, n: nat)
    requires i < n <= peaks.Length && SortedTo(peaks[..n], i)
    modifies peaks
    ensures SortedTo(peaks[..n], i) && TopUntil(peaks[..n], i, n)
    ensures multiset(peaks[..n]) == multiset(old(peaks[..n]))
    ensures forall p: nat :: n <= p < peaks.Length ==> peaks[p] == old(peaks[p])
  {
    hide SortedTo, TopUntil;
    TopStart(peaks[..n], i);
    for j := i + 1 to n
      invariant SortedTo(peaks[..n], i) && TopUntil(peaks[..n], i, j)
      invariant multiset(peaks[..n]) == multiset(old(peaks[..n]))
      invariant forall p: nat :: n <= p < peaks.Length ==> peaks[p] == old(peaks[p])
    {
      ghost var before := peaks[..n];
      ExchangeIfBelow(peaks, i, j);
      assert peaks[..n] == if before[j].snr > before[i].snr then before[i := before[j]][j := before[i]] else before;
      Exchanged(before, peaks[..n], i, j);
    }
  }

  method ExchangeIfBelow(peaks: array<CPeak>, i: nat, j: nat)
    requires i < j < peaks.Length
    modifies peaks
    ensures peaks[..] == if old(peaks[j]).snr > old(peaks[i]).snr then old(peaks[..])[i := old(peaks[j])][j := old(peaks[i])] else old(peaks[..])
  {
    if peaks[j].snr > peaks[i].snr {
      peaks[i], peaks[j] := peaks[j], peaks[i];
    }
  }

  /** Exchange sort of the first n peaks. */
  method SortBySnr(peaks: array<CPeak>, n: nat)
    requires n <= peaks.Length
    modifies peaks
    ensures Descending(peaks[..n]) && multiset(peaks[..n]) == multiset(old(peaks[..n]))
    ensures forall p: nat :: n <= p < peaks.Length ==> peaks[p] == old(peaks[p])
  {
    hide SortedTo, TopUntil;
    var i := 0;
    SortedStart(peaks[..n]);
    while i < n - 1
      invariant 0 <= i && (i < n || i == 0) && SortedTo(peaks[..n], i)
      invariant multiset(peaks[..n]) == multiset(old(peaks[..n]))
      invariant forall p: nat :: n <= p < peaks.Length ==> peaks[p] == old(peaks[p])
    {
      RaiseTop(peaks, i, n);
      SortedNext(peaks[..n], i);
      i := i + 1;
    }
    SortedEnd(peaks[..n], i);
  }

  lemma SortedStart(s: seq<CPeak>)
    ensures SortedTo(s, 0)
  {}

  lemma TopStart(s: seq<CPeak>, i: nat)
    requires i < |s|
    ensures TopUntil(s, i, i + 1)
  {}

  lemma SortedNext(s: seq<CPeak>, i: nat)
    requires SortedTo(s, i) && TopUntil(s, i, |s|)
    ensures SortedTo(s, i + 1)
  {}

  lemma SortedEnd(s: seq<CPeak>, i: nat)
    requires SortedTo(s, i) && i >= |s| - 1
    ensures Descending(s)
  {}

  /** The magnitudes of the spectrum, as the detector allocates and fills them. */
  ghost function JobOf(spectrum: seq<Complex>, cabs: Complex -> real, rangeBins: nat, dopplerBins: nat, guard: nat, train: nat, threshold: real): Job {
    Job(Magnitudes(spectrum, cabs), dopplerBins, rangeBins, guard, train, threshold)
  }

  /** Tests one cell; an empty training ring divides by zero and the comparison with NaN fails. */
  method Probe(magnitude: seq<real>, rangeBins: nat, dopplerBins: nat, r: int, d: int, guard: nat, train: nat, threshold: real,
               ghost job: Job, ghost phases: seq<real>)
    returns (isMax: bool, center: real, snr: real)
    requires NonNegative(job) && job == Job(magnitude, dopplerBins, rangeBins, guard, train, threshold) && |phases| == |magnitude|
    requires InBorder(job, d, r)
    ensures isMax <==> Hit(job, d, r)
    ensures At(d, r, rangeBins) < |phases|
    ensures isMax ==> snr >= 0.0 && PeakOf(job, phases, d, r) == CPeak(r, d, center, phases[At(d, r, rangeBins)], snr, 0.0, 0.0, snr / (snr + 10.0))
  {
    hide Hit, PeakOf, RingTotal, RingCells, LocalMax, Center;
    CenterIs(job, d, r);
    center := magnitude[At(d, r, rangeBins)];
    var sum, count := Ring(magnitude, rangeBins, dopplerBins, r, d, guard, train, job);
    RingFacts(job, d, r, sum, count);
    isMax, snr := false, 0.0;
    if count != 0 {
      snr := center / (sum / count as real + FLOOR);
      if snr > threshold { isMax := IsLocalMax(magnitude, rangeBins, r, d, center, job); }
    }
    HitIs(job, phases, d, r, isMax, snr, count);
  }

  /** The scan: hits are stored until the list is full. */
  method Collect(magnitude: seq<real>, phases: seq<real>, rangeBins: nat, dopplerBins: nat, guard: nat, train: nat, threshold: real,
                 peaks: array<CPeak>, maxPeaks: nat, ghost job: Job)
    returns (n: nat)
    requires NonNegative(job) && job == Job(magnitude, dopplerBins, rangeBins, guard, train, threshold) && |phases| == |magnitude|
    requires maxPeaks <= peaks.Length
    modifies peaks
    ensures n <= maxPeaks && Collected(peaks[..n], job, phases, maxPeaks, rangeBins, 0)
    ensures forall p: nat :: n <= p < peaks.Length ==> peaks[p] == old(peaks[p])
  {
    hide Hit, PeakOf, Collected, NonNegative;
    n := 0;
    var k: int := guard + train;
    NothingCollected(job, phases, maxPeaks);
    var r := k;
    while r < rangeBins - k
      invariant k <= r && n <= maxPeaks && Collected(peaks[..n], job, phases, maxPeaks, r, k)
      invariant forall p: nat :: n <= p < peaks.Length ==> peaks[p] == old(peaks[p])
    {
      var d := k;
      while d < dopplerBins - k
        invariant k <= d && n <= maxPeaks && Collected(peaks[..n], job, phases, maxPeaks, r, d)
        invariant forall p: nat :: n <= p < peaks.Length ==> peaks[p] == old(peaks[p])
      {
        var isMax, center, snr := Probe(magnitude, rangeBins, dopplerBins, r, d, guard, train, threshold, job, phases);
        ghost var before := peaks[..n];
        CollectedStep(before, job, phases, maxPeaks, r, d);
        if isMax && n < maxPeaks {
          peaks[n] := CPeak(r, d, center, phases[At(d, r, rangeBins)], snr, 0.0, 0.0, snr / (snr + 10.0));
          n := n + 1;
          assert peaks[..n] == before + [peaks[n - 1]];
        }
        d := d + 1;
      }
      CollectedColumn(peaks[..n], job, phases, maxPeaks, r, d);
      r := r + 1;
    }
    CollectedAll(peaks[..n], job, phases, maxPeaks, r);
  }

  // ---------------------------------------------------------------- the same, written out

  /** Far enough from every edge for the whole ring, above the threshold over its mean, and strictly above all eight neighbours. */
  ghost predicate Outstanding(mag: seq<real>, rows: nat, cols: nat, guard: nat, train: nat, threshold: real, d: int, r: int) {
    && rows * cols <= |mag| && guard + train <= d < rows - guard - train && guard + train <= r < cols - guard - train && train > 0
    && (var mean := TrainingMean(mag, rows, cols, guard, train, d, r);
        mean >= 0.0 && Nth(mag, d * cols + r) / (mean + 1e-10) > threshold)
    && Tops(mag, cols, d, r)
  }

  /** The first cell holds less than the second. */
  predicate Below(mag: seq<real>, cols: nat, e: int, q: int, d: int, r: int) { Nth(mag, e * cols + q) < Nth(mag, d * cols + r) }

  /** Above the three cells of the row before, the two beside it and the three of the row after. */
  predicate Tops(mag: seq<real>, cols: nat, d: int, r: int) {
    && Below(mag, cols, d - 1, r - 1, d, r) && Below(mag, cols, d - 1, r, d, r) && Below(mag, cols, d - 1, r + 1, d, r)
    && Below(mag, cols, d, r - 1, d, r) && Below(mag, cols, d, r + 1, d, r)
    && Below(mag, cols, d + 1, r - 1, d, r) && Below(mag, cols, d + 1, r, d, r) && Below(mag, cols, d + 1, r + 1, d, r)
  }

  predicate HasHitAt(list: seq<CPeak>, d: int, r: int) {
    exists i: nat :: i < |list| && list[i].dopplerBin == d && list[i].rangeBin == r
  }

  /** The record of a hit: its place, magnitude and phase, its ratio to the mean, and a confidence that grows with it. */
  ghost predicate IsRecord(p: CPeak, mag: seq<real>, phases: seq<real>, rows: nat, cols: nat, guard: nat, train: nat) {
    && rows * cols <= |mag| && guard <= p.dopplerBin < rows - guard && guard <= p.rangeBin < cols - guard
    && p.magnitude == Nth(mag, p.dopplerBin * cols + p.rangeBin) && p.phase == Nth(phases, p.dopplerBin * cols + p.rangeBin)
    && (var mean := TrainingMean(mag, rows, cols, guard, train, p.dopplerBin, p.rangeBin);
        mean >= 0.0 && p.snr == p.magnitude / (mean + 1e-10))
    && p.snr >= 0.0 && p.confidence == p.snr / (p.snr + 10.0) && p.distance == 0.0 && p.velocity == 0.0
  }

  /** The first cap outstanding cells, range bin by range bin. */
  ghost predicate FirstHits(list: seq<CPeak>, mag: seq<real>, phases: seq<real>, rows: nat, cols: nat, guard: nat, train: nat, threshold: real, cap: nat) {
    && |list| <= cap
    && (forall i: nat :: i < |list| ==>
          && Outstanding(mag, rows, cols, guard, train, threshold, list[i].dopplerBin, list[i].rangeBin)
          && IsRecord(list[i], mag, phases, rows, cols, guard, train))
    && (forall i: nat, j: nat :: i < j < |list| ==>
          list[i].rangeBin < list[j].rangeBin || (list[i].rangeBin == list[j].rangeBin && list[i].dopplerBin < list[j].dopplerBin))
    && (forall d: int, r: int :: Outstanding(mag, rows, cols, guard, train, threshold, d, r) && !HasHitAt(list, d, r) ==>
          && |list| == cap
          && forall i: nat :: i < cap ==> list[i].rangeBin < r || (list[i].rangeBin == r && list[i].dopplerBin < d))
  }

  lemma CenterWritten(job: Job, d: int, r: int)
    requires ValidJob(job) && 0 <= d < job.rows && 0 <= r < job.cols
    ensures Center(job, d, r) == Nth(job.data, d * job.cols + r)
  {
    AtBound(d, r, job.rows, job.cols);
  }

  lemma LocalMaxWritten(job: Job, d: int, r: int)
    requires ValidJob(job) && 1 <= d < job.rows - 1 && 1 <= r < job.cols - 1
    ensures LocalMax(job, d, r) <==> Tops(job.data, job.cols, d, r)
  {
    hide Center, Nth, Below;
    forall e: int, q: int | d - 1 <= e <= d + 1 && r - 1 <= q <= r + 1
      ensures Below(job.data, job.cols, e, q, d, r) <==> Center(job, e, q) < Center(job, d, r)
    {
      BelowIs(job, e, q, d, r);
    }
  }

  lemma BelowIs(job: Job, e: int, q: int, d: int, r: int)
    requires ValidJob(job) && 0 <= d < job.rows && 0 <= r < job.cols && 0 <= e < job.rows && 0 <= q < job.cols
    ensures Below(job.data, job.cols, e, q, d, r) <==> Center(job, e, q) < Center(job, d, r)
  {
    hide Center, Nth;
    CenterWritten(job, e, q);
    CenterWritten(job, d, r);
  }

  lemma HitWritten(job: Job, d: int, r: int)
    requires NonNegative(job)
    ensures Hit(job, d, r) <==> Outstanding(job.data, job.rows, job.cols, job.guard, job.train, job.threshold, d, r)
  {
    hide RingTotal, RingCells, Mean, Center, Nth, Below, LocalMax, TrainingMean, TrainingCells;
    if InBorder(job, d, r) {
      NoTrainingExactly(job, d, r);
      CellsWritten(job, d, r);
      if job.train > 0 {
        MeanWritten(job, d, r);
        MeanNonNegative(job, d, r);
        CenterWritten(job, d, r);
        LocalMaxWritten(job, d, r);
      }
    }
  }

  lemma RecordWritten(p: CPeak, job: Job, phases: seq<real>)
    requires NonNegative(job) && |phases| == |job.data| && IsHit(p, job, phases)
    ensures IsRecord(p, job.data, phases, job.rows, job.cols, job.guard, job.train)
  {
    var d, r := p.dopplerBin, p.rangeBin;
    hide RingTotal, RingCells, Mean, Center, LocalMax, TrainingMean, TrainingCells;
    CellsWritten(job, d, r);
    MeanWritten(job, d, r);
    MeanNonNegative(job, d, r);
    SnrNonNegative(job, d, r);
    CenterWritten(job, d, r);
    AtBound(d, r, job.rows, job.cols);
  }

  lemma CollectedWritten(list: seq<CPeak>, job: Job, phases: seq<real>, cap: nat)
    requires Collected(list, job, phases, cap, job.cols, 0)
    ensures FirstHits(list, job.data, phases, job.rows, job.cols, job.guard, job.train, job.threshold, cap)
  {
    hide Hit, PeakOf, Outstanding, IsRecord, NonNegative;
    forall i: nat | i < |list|
      ensures Outstanding(job.data, job.rows, job.cols, job.guard, job.train, job.threshold, list[i].dopplerBin, list[i].rangeBin)
      ensures IsRecord(list[i], job.data, phases, job.rows, job.cols, job.guard, job.train)
    {
      HitWritten(job, list[i].dopplerBin, list[i].rangeBin);
      RecordWritten(list[i], job, phases);
    }
    forall d: int, r: int | Outstanding(job.data, job.rows, job.cols, job.guard, job.train, job.threshold, d, r) && !HasHitAt(list, d, r)
      ensures |list| == cap
      ensures forall i: nat :: i < cap ==> list[i].rangeBin < r || (list[i].rangeBin == r && list[i].dopplerBin < d)
    {
      HitWritten(job, d, r);
      InsideGrid(job, d, r);
      PeakPosition(job, phases, d, r);
      NotListed(list, d, r, PeakOf(job, phases, d, r));
    }
  }

  lemma NotListed(list: seq<CPeak>, d: int, r: int, p: CPeak)
    requires !HasHitAt(list, d, r) && p.dopplerBin == d && p.rangeBin == r
    ensures p !in list
  {}

  lemma InsideGrid(job: Job, d: int, r: int)
    requires NonNegative(job) && Hit(job, d, r)
    ensures 0 <= r < job.cols
  {
    hide LocalMax, RingCells, Mean, Snr;
  }

  /** Nothing happens when the magnitude buffer cannot be allocated; otherwise the first maxPeaks hits are stored and sorted. */
  method CfarDetector(spectrum: seq<Complex>, rangeBins: nat, dopplerBins: nat, guard: nat, train: nat, threshold: real,
                      peaks: array<CPeak>, maxPeaks: nat, oldCount: nat, hasBuffer: bool, cabs: Complex -> real, carg: Complex -> real)
    returns (n: nat, ghost collected: seq<CPeak>)
    requires |spectrum| == dopplerBins * rangeBins && maxPeaks <= peaks.Length && forall z: Complex :: cabs(z) >= 0.0
    modifies peaks
    ensures !hasBuffer ==> n == oldCount && unchanged(peaks)
    ensures hasBuffer ==>
      Collected(collected, JobOf(spectrum, cabs, rangeBins, dopplerBins, guard, train, threshold), Magnitudes(spectrum, carg), maxPeaks, rangeBins, 0)
    ensures hasBuffer ==>
      FirstHits(collected, Magnitudes(spectrum, cabs), Magnitudes(spectrum, carg), dopplerBins, rangeBins, guard, train, threshold, maxPeaks)
    ensures hasBuffer ==> n == |collected| <= maxPeaks && Descending(peaks[..n]) && multiset(peaks[..n]) == multiset(collected)
    ensures hasBuffer ==> forall i: nat :: i < n ==>
      Detects(JobOf(spectrum, cabs, rangeBins, dopplerBins, guard, train, threshold), peaks[..n][i].dopplerBin, peaks[..n][i].rangeBin)
    ensures hasBuffer ==> forall p: nat :: n <= p < peaks.Length ==> peaks[p] == old(peaks[p])
  {
    hide Collected, Detects, FirstHits;
    if !hasBuffer { return oldCount, []; }
    var magnitude, phases := Magnitudes(spectrum, cabs), Magnitudes(spectrum, carg);
    ghost var job := JobOf(spectrum, cabs, rangeBins, dopplerBins, guard, train, threshold);
    n := Collect(magnitude, phases, rangeBins, dopplerBins, guard, train, threshold, peaks, maxPeaks, job);
    collected := peaks[..n];
    CollectedWritten(collected, job, phases, maxPeaks);
    SortBySnr(peaks, n);
    ghost var stored := peaks[..n];
    forall i: nat | i < n
      ensures Detects(job, stored[i].dopplerBin, stored[i].rangeBin)
    {
      CollectedWithinEngine(stored, collected, job, phases, maxPeaks, rangeBins, 0, i);
    }
  }
}
