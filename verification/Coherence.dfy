/** The coherence mask: columns of the range-Doppler matrix are scored and the incoherent ones attenuated in place. */
module Coherence {
  import opened Complex
  import opened Reals
  import opened Numeric
  import opened Matrix
  import PhaseUnwrap

  /** The library functions the scores are built from. */
  datatype Library = Library(pi: real, sin: real -> real, cos: real -> real, atan2: (real, real) -> real,
                             hypot: (real, real) -> real, sqrt: real -> real)

  ghost predicate ValidLibrary(lib: Library) {
    && lib.pi > 3.0
    && (forall x: real :: Square(lib.sin(x)) + Square(lib.cos(x)) == 1.0)
    && (forall x: real, y: real :: lib.hypot(x, y) >= 0.0 && Square(lib.hypot(x, y)) == Square(x) + Square(y))
    && (forall x: real :: x >= 0.0 ==> lib.sqrt(x) >= 0.0 && Square(lib.sqrt(x)) == x)
  }

  // ---------------------------------------------------------------- phase coherence

  /** The wrapped step after sample i. */
  function StepAfter(phases: seq<real>, lib: Library, i: nat): real
    requires lib.pi > 3.0 && i + 1 < |phases|
  {
    PhaseUnwrap.Wrap(phases[i + 1] - phases[i], lib.pi, lib.pi)
  }

  /** The sum of the first m unit vectors, one per wrapped step. */
  function Resultant(phases: seq<real>, lib: Library, m: nat): Complex
    requires lib.pi > 3.0 && m < |phases|
  {
    if m == 0 then ZERO else
      Complex(Resultant(phases, lib, m - 1).re + lib.cos(StepAfter(phases, lib, m - 1)),
              Resultant(phases, lib, m - 1).im + lib.sin(StepAfter(phases, lib, m - 1)))
  }

  function PhaseCoherence(phases: seq<real>, lib: Library): real
    requires lib.pi > 3.0
  {
    if |phases| < 3 then 0.0 else
      var total := Resultant(phases, lib, |phases| - 1);
      var length := lib.hypot(total.im, total.re) / (|phases| - 1) as real;
      if !IsFinite(length) then 0.0 else Clamp01(length)
  }

  /** Adding a unit vector to a vector no longer than m gives one no longer than m + 1. */
  lemma UnitAdded(x: real, y: real, c: real, s: real, m: real)
    requires m >= 0.0 && Square(x) + Square(y) <= Square(m) && Square(c) + Square(s) == 1.0
    ensures Square(x + c) + Square(y + s) <= Square(m + 1.0)
  {
    var dot := x * c + y * s;
    CauchySchwarz(x, y, c, s);
    SquareOrder(dot, m);
    assert Square(x + c) + Square(y + s) == (Square(x) + Square(y)) + (Square(c) + Square(s)) + 2.0 * dot;
    assert Square(m + 1.0) == Square(m) + 2.0 * m + 1.0;
  }

  lemma CauchySchwarz(x: real, y: real, c: real, s: real)
    requires Square(c) + Square(s) == 1.0
    ensures Square(x * c + y * s) <= Square(x) + Square(y)
  {
    SquareSign(x * s - y * c);
    Lagrange(x, y, c, s);
  }

  lemma Lagrange(x: real, y: real, c: real, s: real)
    requires Square(c) + Square(s) == 1.0
    ensures Square(x * c + y * s) + Square(x * s - y * c) == Square(x) + Square(y)
  {
    assert Square(x * c + y * s) + Square(x * s - y * c) == (Square(x) + Square(y)) * (Square(c) + Square(s));
  }

  /** The resultant of m unit vectors is no longer than m. */
  lemma {:induction false} ResultantLength(phases: seq<real>, lib: Library, m: nat)
    requires ValidLibrary(lib) && m < |phases|
    ensures var v := Resultant(phases, lib, m); Square(v.re) + Square(v.im) <= Square(m as real)
  {
    hide StepAfter, Square;
    if m == 0 {
      SquareSign(0.0);
    } else {
      ResultantLength(phases, lib, m - 1);
      var v, step := Resultant(phases, lib, m - 1), StepAfter(phases, lib, m - 1);
      UnitAdded(v.re, v.im, lib.cos(step), lib.sin(step), (m - 1) as real);
      assert (m - 1) as real + 1.0 == m as real;
    }
  }

  lemma RatioAtMostOne(a: real, m: real)
    requires m > 0.0 && 0.0 <= a <= m
    ensures 0.0 <= a / m <= 1.0
  {}

  /** The resultant length is in [0, 1] before clamping, so the clamp and the finite check change nothing. */
  lemma PhaseCoherenceIs(phases: seq<real>, lib: Library)
    requires ValidLibrary(lib) && |phases| >= 3
    ensures var v := Resultant(phases, lib, |phases| - 1);
      PhaseCoherence(phases, lib) == lib.hypot(v.im, v.re) / (|phases| - 1) as real && 0.0 <= PhaseCoherence(phases, lib) <= 1.0
  {
    hide Square, Resultant;
    var m := |phases| - 1;
    var v := Resultant(phases, lib, m);
    ResultantLength(phases, lib, m);
    SquareOrder(lib.hypot(v.im, v.re), m as real);
    RatioAtMostOne(lib.hypot(v.im, v.re), m as real);
  }

  lemma {:induction false} EqualSteps(phases: seq<real>, lib: Library, step: real, m: nat)
    requires lib.pi > 3.0 && m < |phases| && forall i: nat :: i + 1 < |phases| ==> StepAfter(phases, lib, i) == step
    ensures Resultant(phases, lib, m) == Complex(m as real * lib.cos(step), m as real * lib.sin(step))
  {
    hide StepAfter;
    if m > 0 {
      EqualSteps(phases, lib, step, m - 1);
      OneMore(m - 1, lib.cos(step));
      OneMore(m - 1, lib.sin(step));
    }
  }

  lemma OneMore(m: nat, x: real)
    ensures m as real * x + x == (m + 1) as real * x
  {
    assert (m + 1) as real == m as real + 1.0;
  }

  lemma ScaledUnit(m: real, c: real, s: real, h: real, x: real, y: real)
    requires m > 0.0 && h >= 0.0 && Square(c) + Square(s) == 1.0
    requires x == m * s && y == m * c && Square(h) == Square(x) + Square(y)
    ensures h == m
  {
    assert Square(x) + Square(y) == Square(m) * (Square(c) + Square(s));
    SquareOrder(h, m);
    SquareOrder(m, h);
  }

  /** A phase that advances by the same wrapped step throughout is perfectly coherent. */
  lemma ConstantSlopeScoresOne(phases: seq<real>, lib: Library, step: real)
    requires ValidLibrary(lib) && |phases| >= 3
    requires forall i: nat :: i + 1 < |phases| ==> StepAfter(phases, lib, i) == step
    ensures PhaseCoherence(phases, lib) == 1.0
  {
    hide Square, StepAfter, PhaseCoherence;
    var m := |phases| - 1;
    EqualSteps(phases, lib, step, m);
    PhaseCoherenceIs(phases, lib);
    var x, y := m as real * lib.sin(step), m as real * lib.cos(step);
    assert Square(lib.hypot(x, y)) == Square(x) + Square(y);
    ScaledUnit(m as real, lib.cos(step), lib.sin(step), lib.hypot(x, y), x, y);
  }

  // ---------------------------------------------------------------- amplitude stability

  function Total(a: seq<real>, n: nat): real
    requires n <= |a|
  {
    if n == 0 then 0.0 else Total(a, n - 1) + a[n - 1]
  }

  function Deviation(a: seq<real>, mean: real, n: nat): (v: real)
    requires n <= |a|
    ensures v >= 0.0
  {
    if n == 0 then 0.0 else SquareSign(a[n - 1] - mean); Deviation(a, mean, n - 1) + Square(a[n - 1] - mean)
  }

  function AmplitudeStability(a: seq<real>, lib: Library): real {
    if |a| < 2 then 0.0 else
      var mean := Total(a, |a|) / |a| as real;
      if mean < 1e-10 then 0.0 else
        var cv := lib.sqrt(Deviation(a, mean, |a|) / |a| as real) / (mean + 1e-12);
        SquareSign(cv);
        var stability := 1.0 / (1.0 + Square(cv));
        if !IsFinite(stability) then 0.0 else Clamp01(stability)
  }

  lemma {:induction false} DeviationZeroExactly(a: seq<real>, mean: real, n: nat)
    requires n <= |a|
    ensures Deviation(a, mean, n) == 0.0 <==> forall i: nat :: i < n ==> a[i] == mean
  {
    hide Square;
    if n > 0 {
      DeviationZeroExactly(a, mean, n - 1);
      SquareSign(a[n - 1] - mean);
    }
  }

  lemma Reciprocal(s: real)
    requires s >= 0.0
    ensures 0.0 < 1.0 / (1.0 + s) <= 1.0
    ensures 1.0 / (1.0 + s) == 1.0 <==> s == 0.0
  {}

  lemma VariationZeroExactly(v: real, n: real, root: real, scale: real)
    requires v >= 0.0 && n > 0.0 && scale > 0.0 && root >= 0.0 && Square(root) == v / n
    ensures Square(root / scale) == 0.0 <==> v == 0.0
  {
    hide Square;
    SquareSign(root);
    SquareSign(root / scale);
    assert root / scale == 0.0 <==> root == 0.0;
  }

  /** Stability is in (0, 1] for a column that is not dark, and 1 exactly when all its amplitudes are equal. */
  lemma StabilityOneExactly(a: seq<real>, lib: Library)
    requires ValidLibrary(lib) && |a| >= 2 && Total(a, |a|) / |a| as real >= 1e-10
    ensures 0.0 < AmplitudeStability(a, lib) <= 1.0
    ensures AmplitudeStability(a, lib) == 1.0 <==> forall i: nat :: i < |a| ==> a[i] == Total(a, |a|) / |a| as real
  {
    hide Square, Total, Deviation;
    var mean, n := Total(a, |a|) / |a| as real, |a| as real;
    var v := Deviation(a, mean, |a|);
    NonNegativeRatio(v, n);
    var root := lib.sqrt(v / n);
    DeviationZeroExactly(a, mean, |a|);
    VariationZeroExactly(v, n, root, mean + 1e-12);
    SquareSign(root / (mean + 1e-12));
    Reciprocal(Square(root / (mean + 1e-12)));
  }

  lemma NonNegativeRatio(v: real, n: real)
    requires v >= 0.0 && n > 0.0
    ensures v / n >= 0.0
  {}

  // ---------------------------------------------------------------- the column score

  datatype MaskJob = MaskJob(rd: seq<real>, spectrum: seq<seq<Complex>>, dopplerBins: nat, rangeBins: nat,
                             phaseWeight: real, amplitudeWeight: real, threshold: real, lib: Library)

  ghost predicate ValidJob(job: MaskJob) { ValidLibrary(job.lib) && job.dopplerBins * job.rangeBins <= |job.rd| }

  function Clean(job: MaskJob, d: nat, r: nat): real
    requires job.dopplerBins * job.rangeBins <= |job.rd| && d < job.dopplerBins && r < job.rangeBins
  {
    Sanitised(Cell(job.rd, job.dopplerBins, job.rangeBins, d, r))
  }

  function Amplitudes(job: MaskJob, r: nat): (a: seq<real>)
    requires job.dopplerBins * job.rangeBins <= |job.rd| && r < job.rangeBins
    ensures |a| == job.dopplerBins
  {
    seq(job.dopplerBins, (d: nat) requires d < job.dopplerBins => Clean(job, d, r))
  }

  function PhaseOf(spectrum: seq<seq<Complex>>, lib: Library, d: nat, r: nat): real {
    if d < |spectrum| && r < |spectrum[d]| && IsFinite(spectrum[d][r].re) && IsFinite(spectrum[d][r].im)
    then lib.atan2(spectrum[d][r].im, spectrum[d][r].re) else 0.0
  }

  function Phases(job: MaskJob, r: nat): (p: seq<real>)
    ensures |p| == job.dopplerBins
  {
    seq(job.dopplerBins, (d: nat) => PhaseOf(job.spectrum, job.lib, d, r))
  }

  function Combined(phase: real, amplitude: real, phaseWeight: real, amplitudeWeight: real): real {
    Clamp01(Clamp01(phase) * phaseWeight + Clamp01(amplitude) * amplitudeWeight)
  }

  function Score(job: MaskJob, r: nat): real
    requires job.lib.pi > 3.0 && job.dopplerBins * job.rangeBins <= |job.rd| && r < job.rangeBins
  {
    Combined(PhaseCoherence(Phases(job, r), job.lib), AmplitudeStability(Amplitudes(job, r), job.lib), job.phaseWeight, job.amplitudeWeight)
  }

  /** The column is attenuated. */
  predicate Incoherent(job: MaskJob, r: nat)
    requires job.lib.pi > 3.0 && job.dopplerBins * job.rangeBins <= |job.rd| && r < job.rangeBins
  {
    Score(job, r) < job.threshold
  }

  /** The cell the mask leaves behind. */
  function MaskedCell(job: MaskJob, d: nat, r: nat): real
    requires job.lib.pi > 3.0 && job.dopplerBins * job.rangeBins <= |job.rd| && d < job.dopplerBins && r < job.rangeBins
  {
    if Incoherent(job, r) then Clean(job, d, r) * 0.05 else Clean(job, d, r)
  }

  function IncoherentColumns(job: MaskJob, n: nat): (count: nat)
    requires job.lib.pi > 3.0 && job.dopplerBins * job.rangeBins <= |job.rd| && n <= job.rangeBins
    ensures count <= n
  {
    if n == 0 then 0 else IncoherentColumns(job, n - 1) + if Incoherent(job, n - 1) then 1 else 0
  }

  function CoherentTotal(job: MaskJob, n: nat): real
    requires job.lib.pi > 3.0 && job.dopplerBins * job.rangeBins <= |job.rd| && n <= job.rangeBins
  {
    if n == 0 then 0.0 else CoherentTotal(job, n - 1) + if Incoherent(job, n - 1) then 0.0 else Score(job, n - 1)
  }

  /** The mean score of the columns that are left alone, 0 when there are none. */
  function MeanScore(job: MaskJob): real
    requires ValidJob(job)
  {
    var coherent := job.rangeBins - IncoherentColumns(job, job.rangeBins);
    if coherent == 0 then 0.0 else CoherentTotal(job, job.rangeBins) / coherent as real
  }

  // ---------------------------------------------------------------- laws

  /** The two jobs have the same column r. */
  ghost predicate SameColumn(a: MaskJob, b: MaskJob, r: nat) {
    && ValidJob(a) && ValidJob(b) && a.dopplerBins == b.dopplerBins && r < a.rangeBins && r < b.rangeBins && a.lib == b.lib
    && a.phaseWeight == b.phaseWeight && a.amplitudeWeight == b.amplitudeWeight && a.threshold == b.threshold
    && (forall d: nat :: d < a.dopplerBins ==>
          Cell(a.rd, a.dopplerBins, a.rangeBins, d, r) == Cell(b.rd, b.dopplerBins, b.rangeBins, d, r))
    && (forall d: nat :: d < a.dopplerBins ==> PhaseOf(a.spectrum, a.lib, d, r) == PhaseOf(b.spectrum, b.lib, d, r))
  }

  /** An output column depends on its own input column alone. */
  lemma ColumnsAreIndependent(a: MaskJob, b: MaskJob, r: nat, d: nat)
    requires SameColumn(a, b, r) && d < a.dopplerBins
    ensures MaskedCell(a, d, r) == MaskedCell(b, d, r)
  {
    hide PhaseOf, Cell, PhaseCoherence, AmplitudeStability;
    assert Phases(a, r) == Phases(b, r);
    assert Amplitudes(a, r) == Amplitudes(b, r);
  }

  lemma MaskedCellNonNegative(job: MaskJob, d: nat, r: nat)
    requires ValidJob(job) && d < job.dopplerBins && r < job.rangeBins
    ensures 0.0 <= MaskedCell(job, d, r) <= Clean(job, d, r)
  {
    hide Incoherent, Cell, Clean;
    assert Clean(job, d, r) >= 0.0 by { CleanNonNegative(job, d, r); }
  }

  lemma CleanNonNegative(job: MaskJob, d: nat, r: nat)
    requires ValidJob(job) && d < job.dopplerBins && r < job.rangeBins
    ensures Clean(job, d, r) >= 0.0
  {
    hide Cell;
  }

  lemma ScoreRange(job: MaskJob, r: nat)
    requires ValidJob(job) && r < job.rangeBins
    ensures 0.0 <= Score(job, r) <= 1.0
  {
    hide PhaseCoherence, AmplitudeStability, Phases, Amplitudes;
  }

  lemma {:induction false} CoherentTotalRange(job: MaskJob, n: nat)
    requires ValidJob(job) && n <= job.rangeBins
    ensures var k := (n - IncoherentColumns(job, n)) as real;
      job.threshold * k <= CoherentTotal(job, n) <= k && 0.0 <= CoherentTotal(job, n)
  {
    hide Score;
    if n > 0 {
      CoherentTotalRange(job, n - 1);
      ScoreRange(job, n - 1);
      var k := n - 1 - IncoherentColumns(job, n - 1);
      assert job.threshold * (k as real + 1.0) == job.threshold * k as real + job.threshold;
      assert (k + 1) as real == k as real + 1.0;
    }
  }

  lemma MeanBetween(total: real, k: real, lo: real)
    requires k > 0.0 && lo * k <= total <= k && 0.0 <= total
    ensures lo <= total / k <= 1.0 && 0.0 <= total / k
  {}

  /** The reported mean lies between the threshold and 1 whenever a column is left alone, so clamping it changes nothing. */
  lemma MeanScoreRange(job: MaskJob)
    requires ValidJob(job)
    ensures 0.0 <= MeanScore(job) <= 1.0
    ensures IncoherentColumns(job, job.rangeBins) < job.rangeBins ==> job.threshold <= MeanScore(job)
  {
    hide IncoherentColumns, CoherentTotal;
    CoherentTotalRange(job, job.rangeBins);
    var k := job.rangeBins - IncoherentColumns(job, job.rangeBins);
    if k > 0 { MeanBetween(CoherentTotal(job, job.rangeBins), k as real, job.threshold); }
  }

  // ---------------------------------------------------------------- the loops

  method CalcPhaseCoherence(phases: array<real>, lib: Library) returns (coherence: real)
    requires ValidLibrary(lib)
    ensures coherence == PhaseCoherence(phases[..], lib)
  {
    hide PhaseUnwrap.Wrap, ValidLibrary;
    var n := phases.Length;
    if n < 3 { return 0.0; }
    assert lib.pi > 3.0 by { PiOf(lib); }
    var sumSin, sumCos := 0.0, 0.0;
    for i := 0 to n - 1
      invariant Resultant(phases[..], lib, i) == Complex(sumCos, sumSin)
    {
      var diff := PhaseUnwrap.WrapStep(phases[i + 1] - phases[i], lib.pi);
      sumSin := sumSin + lib.sin(diff);
      sumCos := sumCos + lib.cos(diff);
    }
    var length := lib.hypot(sumSin, sumCos) / (n - 1) as real;
    coherence := if !IsFinite(length) then 0.0 else Clamp01(length);
  }

  lemma PiOf(lib: Library)
    requires ValidLibrary(lib)
    ensures lib.pi > 3.0
  {}

  method CalcAmplitudeStability(amps: array<real>, lib: Library) returns (result: real)
    ensures result == AmplitudeStability(amps[..], lib)
  {
    hide Square;
    var n := amps.Length;
    if n < 2 { return 0.0; }
    var mean := 0.0;
    for i := 0 to n
      invariant mean == Total(amps[..], i)
    {
      mean := mean + amps[i];
    }
    mean := mean / n as real;
    if mean < 1e-10 { return 0.0; }
    var variance := 0.0;
    for i := 0 to n
      invariant variance == Deviation(amps[..], mean, i)
    {
      var d := amps[i] - mean;
      variance := variance + Square(d);
    }
    var cv := lib.sqrt(variance / n as real) / (mean + 1e-12);
    SquareSign(cv);
    var stability := 1.0 / (1.0 + Square(cv));
    result := if !IsFinite(stability) then 0.0 else Clamp01(stability);
  }

  /** Columns before r hold the mask's output, the others the sanitised input. */
  ghost predicate ColumnsDone(now: seq<real>, job: MaskJob, r: nat) {
    && ValidJob(job) && |now| == |job.rd|
    && (forall d: nat, c: nat :: d < job.dopplerBins && c < job.rangeBins ==>
          Cell(now, job.dopplerBins, job.rangeBins, d, c) == if c < r then MaskedCell(job, d, c) else Clean(job, d, c))
    && (forall p: nat :: job.dopplerBins * job.rangeBins <= p < |now| ==> now[p] == job.rd[p])
  }

  lemma NoColumnsDone(now: seq<real>, job: MaskJob)
    requires ValidJob(job) && |now| == |job.rd|
    requires forall p: nat :: p < |now| ==> now[p] == if p < job.dopplerBins * job.rangeBins then Sanitised(job.rd[p]) else job.rd[p]
    ensures ColumnsDone(now, job, 0)
  {
    hide MaskedCell, ValidLibrary, Sanitised, At;
    forall d: nat, c: nat | d < job.dopplerBins && c < job.rangeBins
      ensures Cell(now, job.dopplerBins, job.rangeBins, d, c) == Clean(job, d, c)
    {
      AtBound(d, c, job.dopplerBins, job.rangeBins);
    }
  }

  /** Column c of the output so far: rows before d attenuated. */
  ghost predicate ColumnPart(next: seq<real>, before: seq<real>, job: MaskJob, c: nat, d: nat) {
    && |next| == |before| && job.dopplerBins * job.rangeBins <= |next| && c < job.rangeBins && d <= job.dopplerBins
    && (forall e: nat :: e < d ==>
          Cell(next, job.dopplerBins, job.rangeBins, e, c) == Cell(before, job.dopplerBins, job.rangeBins, e, c) * 0.05)
    && (forall p: nat :: p < |next| && next[p] != before[p] ==> exists e: nat :: e < d && p == At(e, c, job.rangeBins))
  }

  lemma ColumnPartStep(after: seq<real>, next: seq<real>, before: seq<real>, job: MaskJob, c: nat, d: nat)
    requires ColumnPart(next, before, job, c, d) && d < job.dopplerBins
    requires At(d, c, job.rangeBins) < |next|
    requires after == next[At(d, c, job.rangeBins) := next[At(d, c, job.rangeBins)] * 0.05]
    ensures ColumnPart(after, before, job, c, d + 1)
  {
    hide At;
    var at := At(d, c, job.rangeBins);
    if next[at] != before[at] {
      var e: nat :| e < d && at == At(e, c, job.rangeBins);
      SameAddress(d, c, e, c, job.rangeBins);
    }
    forall e: nat | e < d + 1
      ensures Cell(after, job.dopplerBins, job.rangeBins, e, c) == Cell(before, job.dopplerBins, job.rangeBins, e, c) * 0.05
    {
      AtBound(e, c, job.dopplerBins, job.rangeBins);
      if e == d {
        assert next[at] == before[at];
      } else {
        if At(e, c, job.rangeBins) == at { SameAddress(e, c, d, c, job.rangeBins); }
        assert Cell(after, job.dopplerBins, job.rangeBins, e, c) == Cell(next, job.dopplerBins, job.rangeBins, e, c);
      }
    }
    forall p: nat | p < |after| && after[p] != before[p]
      ensures exists e: nat :: e < d + 1 && p == At(e, c, job.rangeBins)
    {
      if p != at {
        var e: nat :| e < d && p == At(e, c, job.rangeBins);
      }
    }
  }

  lemma ColumnFinished(next: seq<real>, before: seq<real>, job: MaskJob, c: nat)
    requires ColumnsDone(before, job, c) && c < job.rangeBins
    requires if Incoherent(job, c) then ColumnPart(next, before, job, c, job.dopplerBins) else next == before
    ensures ColumnsDone(next, job, c + 1)
  {
    hide At, Score, Clean, ValidLibrary;
    PiOf(job.lib);
    forall d: nat, q: nat | d < job.dopplerBins && q < job.rangeBins
      ensures Cell(next, job.dopplerBins, job.rangeBins, d, q) == if q < c + 1 then MaskedCell(job, d, q) else Clean(job, d, q)
    {
      AtBound(d, q, job.dopplerBins, job.rangeBins);
      var p := At(d, q, job.rangeBins);
      if q != c && next[p] != before[p] {
        var e: nat :| e < job.dopplerBins && p == At(e, c, job.rangeBins);
        SameAddress(d, q, e, c, job.rangeBins);
      }
    }
    forall p: nat | job.dopplerBins * job.rangeBins <= p < |next|
      ensures next[p] == before[p]
    {
      if next[p] != before[p] {
        var e: nat :| e < job.dopplerBins && p == At(e, c, job.rangeBins);
        AtBound(e, c, job.dopplerBins, job.rangeBins);
      }
    }
  }

  class CoherenceMask {
    const enabled: bool
    const phaseWeight: real
    const amplitudeWeight: real
    const threshold: real

    /** Non-positive settings fall back to the defaults. */
    constructor (enabled: bool, phaseWeight: real, amplitudeWeight: real, threshold: real)
      ensures this.enabled == enabled
      ensures this.phaseWeight == if phaseWeight <= 0.0 then 0.6 else phaseWeight
      ensures this.amplitudeWeight == if amplitudeWeight <= 0.0 then 0.4 else amplitudeWeight
      ensures this.threshold == if threshold <= 0.0 then 0.35 else threshold
    {
      this.enabled := enabled;
      this.phaseWeight := if phaseWeight <= 0.0 then 0.6 else phaseWeight;
      this.amplitudeWeight := if amplitudeWeight <= 0.0 then 0.4 else amplitudeWeight;
      this.threshold := if threshold <= 0.0 then 0.35 else threshold;
    }

    /** Masks the matrix in place; returns the number of masked columns and the mean score of the others. */
    method Apply(rdMatrix: array<real>, spectrum: seq<seq<Complex>>, dopplerBins: nat, rangeBins: nat, lib: Library, ghost job: MaskJob)
      returns (masked: nat, average: real)
      requires job == MaskJob(rdMatrix[..], spectrum, dopplerBins, rangeBins, phaseWeight, amplitudeWeight, threshold, lib)
      requires ValidJob(job)
      modifies rdMatrix
      ensures ColumnsDone(rdMatrix[..], job, if enabled then rangeBins else 0)
      ensures !enabled ==> masked == 0 && average == 1.0
      ensures enabled ==> masked == IncoherentColumns(job, rangeBins) && average == MeanScore(job)
    {
      hide ColumnsDone, IncoherentColumns, CoherentTotal, Score, ValidLibrary;
      Sanitise(rdMatrix, dopplerBins * rangeBins);
      NoColumnsDone(rdMatrix[..], job);
      if !enabled { return 0, 1.0; }
      PiOf(lib);
      masked := 0;
      var total, valid := 0.0, 0;
      NoScores(job);
      for r := 0 to rangeBins
        invariant ColumnsDone(rdMatrix[..], job, r)
        invariant masked == IncoherentColumns(job, r) && total == CoherentTotal(job, r) && masked + valid == r
      {
        var score := ColumnScore(rdMatrix, spectrum, dopplerBins, rangeBins, lib, r, job);
        ScoreRange(job, r);
        ghost var before := rdMatrix[..];
        if !IsFinite(score) || score < threshold {
          Attenuate(rdMatrix, dopplerBins, rangeBins, r, job);
          masked := masked + 1;
        } else {
          total := total + score;
          valid := valid + 1;
        }
        ColumnFinished(rdMatrix[..], before, job, r);
        NextScore(job, r);
      }
      average := if valid > 0 then total / valid as real else 0.0;
      MeanScoreRange(job);
      average := Clamp01(average);
    }

    static method Sanitise(rdMatrix: array<real>, cells: nat)
      requires cells <= rdMatrix.Length
      modifies rdMatrix
      ensures forall p: nat :: p < rdMatrix.Length ==> rdMatrix[p] == if p < cells then Sanitised(old(rdMatrix[p])) else old(rdMatrix[p])
    {
      for i := 0 to cells
        invariant forall p: nat :: p < rdMatrix.Length ==> rdMatrix[p] == if p < i then Sanitised(old(rdMatrix[p])) else old(rdMatrix[p])
      {
        var v := rdMatrix[i];
        if !IsFinite(v) || v < 0.0 { rdMatrix[i] := 0.0; }
      }
    }

    /** Fills the two profiles of one column and scores them. */
    method ColumnScore(rdMatrix: array<real>, spectrum: seq<seq<Complex>>, dopplerBins: nat, rangeBins: nat, lib: Library, r: nat, ghost job: MaskJob)
      returns (score: real)
      requires ColumnsDone(rdMatrix[..], job, r) && r < rangeBins && lib == job.lib && spectrum == job.spectrum
      requires job.dopplerBins == dopplerBins && job.rangeBins == rangeBins
      requires job.phaseWeight == phaseWeight && job.amplitudeWeight == amplitudeWeight
      ensures lib.pi > 3.0 && score == Score(job, r)
    {
      hide PhaseCoherence, AmplitudeStability, ValidLibrary, Clean, MaskedCell, At, Combined;
      PiOf(lib);
      var phaseProfile, ampProfile := new real[dopplerBins], new real[dopplerBins];
      for d := 0 to dopplerBins
        invariant forall e: nat :: e < d ==> phaseProfile[e] == PhaseOf(spectrum, lib, e, r) && ampProfile[e] == Clean(job, e, r)
      {
        AtBound(d, r, dopplerBins, rangeBins);
        assert Cell(rdMatrix[..], dopplerBins, rangeBins, d, r) == Clean(job, d, r);
        ampProfile[d] := rdMatrix[At(d, r, rangeBins)];
        if d < |spectrum| && r < |spectrum[d]| {
          var cv := spectrum[d][r];
          if !IsFinite(cv.re) || !IsFinite(cv.im) {
            phaseProfile[d] := 0.0;
          } else {
            phaseProfile[d] := lib.atan2(cv.im, cv.re);
          }
        } else {
          phaseProfile[d] := 0.0;
        }
      }
      assert phaseProfile[..] == Phases(job, r) && ampProfile[..] == Amplitudes(job, r);
      var phase := CalcPhaseCoherence(phaseProfile, lib);
      var amplitude := CalcAmplitudeStability(ampProfile, lib);
      score := Combined(phase, amplitude, phaseWeight, amplitudeWeight);
    }

    /** One column times 0.05; the negative check never fires on sanitised cells. */
    static method Attenuate(rdMatrix: array<real>, dopplerBins: nat, rangeBins: nat, r: nat, ghost job: MaskJob)
      requires ColumnsDone(rdMatrix[..], job, r) && r < rangeBins && job.dopplerBins == dopplerBins && job.rangeBins == rangeBins
      modifies rdMatrix
      ensures ColumnPart(rdMatrix[..], old(rdMatrix[..]), job, r, dopplerBins)
    {
      hide ColumnPart, At, ValidLibrary;
      ghost var before := rdMatrix[..];
      NothingAttenuated(before, job, r);
      for d := 0 to dopplerBins
        invariant ColumnPart(rdMatrix[..], before, job, r, d)
      {
        ghost var next := rdMatrix[..];
        AtBound(d, r, dopplerBins, rangeBins);
        NotYetAttenuated(next, before, job, r, d);
        var idx := At(d, r, rangeBins);
        if idx < rdMatrix.Length {
          var v := rdMatrix[idx] * 0.05;
          rdMatrix[idx] := if v < 0.0 then 0.0 else v;
        }
        ColumnPartStep(rdMatrix[..], next, before, job, r, d);
      }
    }
  }

  lemma NothingAttenuated(before: seq<real>, job: MaskJob, c: nat)
    requires ColumnsDone(before, job, c) && c < job.rangeBins
    ensures ColumnPart(before, before, job, c, 0)
  {}

  lemma NotYetAttenuated(next: seq<real>, before: seq<real>, job: MaskJob, c: nat, d: nat)
    requires ColumnsDone(before, job, c) && ColumnPart(next, before, job, c, d) && d < job.dopplerBins
    requires At(d, c, job.rangeBins) < |next|
    ensures next[At(d, c, job.rangeBins)] >= 0.0
  {
    hide At, ValidLibrary, MaskedCell, Clean;
    var at := At(d, c, job.rangeBins);
    if next[at] != before[at] {
      var e: nat :| e < d && at == At(e, c, job.rangeBins);
      SameAddress(d, c, e, c, job.rangeBins);
    }
    assert Cell(before, job.dopplerBins, job.rangeBins, d, c) == Clean(job, d, c);
    CleanNonNegative(job, d, c);
  }

  lemma NoScores(job: MaskJob)
    requires ValidJob(job)
    ensures IncoherentColumns(job, 0) == 0 && CoherentTotal(job, 0) == 0.0
  {}

  lemma NextScore(job: MaskJob, r: nat)
    requires ValidJob(job) && r < job.rangeBins
    ensures IncoherentColumns(job, r + 1) == IncoherentColumns(job, r) + if Incoherent(job, r) then 1 else 0
    ensures CoherentTotal(job, r + 1) == CoherentTotal(job, r) + if Incoherent(job, r) then 0.0 else Score(job, r)
  {}
}
