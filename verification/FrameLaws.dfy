/** The frame method against the engine, and the picture against the spectrum. */
module FrameLaws {
  import opened Complex
  import opened Dft
  import opened Matrix
  import opened RangeDoppler
  import opened FftShift
  import opened ProcessFrame
  import opened Reals
  import opened StaleLines

  /** hypot is the magnitude on the real axis. */
  ghost predicate RealMagnitude(hypot: Complex -> real) {
    forall x: real :: hypot(Complex(x, 0.0)) == Abs(x)
  }

  // ---------------------------------------------------------------- frame method and engine

  /** With the same windows, frame method and engine leave the same profile and the same matrix, before any shift. */
  lemma FrameMatchesEngine(name: string, ifData: seq<seq<int>>, d: Dims, rangeBins: nat, dopplerBins: nat, shape: (WindowKind, nat) -> seq<real>,
                           profile: seq<real>, rd: seq<real>, job: RangeJob, djob: DopplerJob,
                           engineProfile: seq<real>, engineRd: seq<real>, engineJob: RangeJob, engineDjob: DopplerJob, hypot: Complex -> real)
    requires d.Dims? && name != "kaiser"
    requires job == RangeJob(ifData, d.chirps, d.samples, d.channels, shape(FrameWindow(name), rangeBins), engineJob.w, engineJob.levels)
    requires engineJob == RangeJob(ifData, d.chirps, d.samples, d.channels, shape(EngineWindow(name), rangeBins), engineJob.w, engineJob.levels)
    requires djob == DopplerJob(profile, d.chirps, d.channels, rangeBins, shape(FrameWindow(name), dopplerBins), engineDjob.w, engineDjob.levels)
    requires engineDjob == DopplerJob(engineProfile, d.chirps, d.channels, rangeBins, shape(EngineWindow(name), dopplerBins), engineDjob.w, engineDjob.levels)
    requires |shape(EngineWindow(name), rangeBins)| == rangeBins && d.chirps * d.channels * rangeBins <= |profile| == |engineProfile| && |rd| == |engineRd|
    requires ProfileDone(profile, job, hypot, d.chirps * d.channels) && ProfileDone(engineProfile, engineJob, hypot, d.chirps * d.channels)
    requires MatrixDone(rd, djob, hypot, rangeBins, 0) && MatrixDone(engineRd, engineDjob, hypot, rangeBins, 0)
    ensures profile[..d.chirps * d.channels * rangeBins] == engineProfile[..d.chirps * d.channels * rangeBins]
    ensures rd[..|djob.window| * d.channels * rangeBins] == engineRd[..|djob.window| * d.channels * rangeBins]
  {
    hide ProfileDone, MatrixDone, EngineWindow, FrameWindow;
    WindowsAgreeExactly(name);
    ProfileDetermined(profile, engineProfile, job, hypot);
    MatrixDetermined(rd, engineRd, djob, engineDjob, hypot);
  }

  /** Both windows give every frame of this shape the same profile. */
  ghost predicate SameProfiles(job: RangeJob, other: seq<real>, hypot: Complex -> real)
    requires ValidJob(job) && |other| == |job.window|
  {
    forall d: seq<seq<int>>, t: nat :: t < job.chirps * job.channels ==> SameStep(job.(ifData := d), other, t, hypot)
  }

  ghost predicate SameStep(job: RangeJob, other: seq<real>, t: nat, hypot: Complex -> real)
    requires ValidJob(job) && |other| == |job.window|
  {
    SameBins(Buffer(job, t + 1), Buffer(job.(window := other), t + 1), hypot)
  }

  ghost predicate SameBins(a: seq<Complex>, b: seq<Complex>, hypot: Complex -> real) {
    |a| == |b| && forall k: nat :: k < |a| ==> hypot(a[k]) == hypot(b[k])
  }

  /** The two windows agree wherever a sample is read. */
  ghost predicate SameWhereRead(job: RangeJob, other: seq<real>) {
    |other| == |job.window| && forall i: nat :: i < |other| && i < job.samples ==> job.window[i] == other[i]
  }

  lemma SameNatural(job: RangeJob, other: seq<real>, line: nat, stale: seq<Complex>)
    requires SameWhereRead(job, other) && |stale| == |other|
    ensures Natural(job, line, stale) == Natural(job.(window := other), line, stale)
  {
    forall i: nat | i < |stale|
      ensures Natural(job, line, stale)[i] == Natural(job.(window := other), line, stale)[i]
    {
      if line < |job.ifData| && i < job.samples { assert job.window[i] == other[i]; }
    }
  }

  lemma {:induction false} SameBuffer(job: RangeJob, other: seq<real>, t: nat)
    requires ValidJob(job) && SameWhereRead(job, other)
    ensures ValidJob(job.(window := other)) && Buffer(job, t) == Buffer(job.(window := other), t)
  {
    hide Buffer, HalfTurn, Natural, VisitedLine, Network, BitReversed, Unscatter;
    var job' := job.(window := other);
    if t == 0 {
      FreshBuffer(job);
      FreshBuffer(job');
    } else {
      SameBuffer(job, other, t - 1);
      BufferAfter(job, t - 1);
      BufferAfter(job', t - 1);
      SameVisited(job, other, t - 1);
      SameNatural(job, other, VisitedLine(job, t - 1), Unscatter(Buffer(job, t - 1), job.levels));
    }
  }

  lemma SameVisited(job: RangeJob, other: seq<real>, t: nat)
    ensures VisitedLine(job.(window := other), t) == VisitedLine(job, t)
  {}

  /** A frame of one line that is zero up to its last sample. */
  function Ping(j: nat): (d: seq<seq<int>>)
    ensures |d| == 1 && |d[0]| == j + 1 && forall i: nat :: i <= j ==> d[0][i] == if i == j then 1 else 0
  {
    [seq(j + 1, (i: nat) => if i == j then 1 else 0)]
  }

  lemma FirstVisit(job: RangeJob)
    ensures VisitedLine(job, 0) == 0
  {
    if job.channels > 0 { AtSplit(0, 0, job.channels); AtStart(job.channels); AtStart(job.chirps); }
  }

  lemma AtStart(cols: nat)
    ensures At(0, 0, cols) == 0
  {}

  /** The first bin of the ping's transform is the window at the ping. */
  lemma PingBin(job: RangeJob, j: nat)
    requires ValidJob(job) && job.ifData == Ping(j) && j < |job.window| && j < job.samples
    ensures Buffer(job, 1)[0] == Complex(job.window[j], 0.0)
  {
    hide Buffer, HalfTurn, Natural, VisitedLine, Network, BitReversed, Unscatter, DftAt, OneSample, Mul, Pow, Silence;
    FreshBuffer(job);
    BufferAfter(job, 0);
    SilentUnscatter(job.levels);
    FirstVisit(job);
    SoundLine(job, 0, j);
    var v, a := Natural(job, 0, Silence(|job.window|)), Complex(job.window[j], 0.0);
    NetworkIsDft(v, job.w, job.levels, 0);
    OneSampleBin(v, j, a, job.w, 0);
    NoTurn(a, job.w, j);
  }

  lemma NoTurn(a: Complex, w: Complex, j: nat)
    ensures Mul(a, Twiddle(w, j, 0)) == a
  {
    hide Mul;
    assert j * 0 == 0;
    MulComm(a, ONE);
    MulUnits(a);
  }

  /** Two non-negative windows give all frames the same profile exactly when they agree wherever a sample is read. */
  lemma ProfilesAgreeExactly(job: RangeJob, other: seq<real>, hypot: Complex -> real)
    requires ValidJob(job) && |other| == |job.window| && job.chirps * job.channels > 0 && RealMagnitude(hypot)
    requires forall i: nat :: i < |other| ==> job.window[i] >= 0.0 && other[i] >= 0.0
    ensures SameProfiles(job, other, hypot) <==> SameWhereRead(job, other)
  {
    hide Buffer, HalfTurn;
    if SameWhereRead(job, other) {
      forall d: seq<seq<int>>, t: nat | t < job.chirps * job.channels
        ensures SameStep(job.(ifData := d), other, t, hypot)
      {
        SameBuffer(job.(ifData := d), other, t + 1);
      }
    } else {
      var j: nat :| j < |other| && j < job.samples && job.window[j] != other[j];
      var d := Ping(j);
      PingBin(job.(ifData := d), j);
      PingBin(job.(ifData := d, window := other), j);
      assert job.(ifData := d).(window := other) == job.(ifData := d, window := other);
      assert !SameStep(job.(ifData := d), other, 0, hypot);
    }
  }

  /**
   Frame method and engine give all frames the same profile exactly when the configured name is not kaiser,
   or the Kaiser window is flat wherever a sample is read.
   */
  lemma EngineAgreesExactly(name: string, job: RangeJob, shape: (WindowKind, nat) -> seq<real>, hypot: Complex -> real)
    requires ValidJob(job) && job.chirps * job.channels > 0 && RealMagnitude(hypot)
    requires forall k: WindowKind, n: nat :: |shape(k, n)| == n
    requires forall k: WindowKind, n: nat, i: nat :: i < n ==> shape(k, n)[i] >= 0.0
    requires job.window == shape(EngineWindow(name), |job.window|)
    ensures SameProfiles(job, shape(FrameWindow(name), |job.window|), hypot)
       <==> name != "kaiser" || SameWhereRead(job, shape(Flat, |job.window|))
  {
    hide SameProfiles, HalfTurn;
    WindowsAgreeExactly(name);
    ProfilesAgreeExactly(job, shape(FrameWindow(name), |job.window|), hypot);
  }

  // ---------------------------------------------------------------- the picture

  function Unswap(shifted: bool, i: nat, n: nat): (k: nat)
    ensures i < n ==> k < n
  {
    if shifted then SwapHalf(i, n) else i
  }

  ghost predicate PictureCell(rd: seq<real>, job: DopplerJob, hypot: Complex -> real, shifted: bool, d: nat, r: nat)
    requires ValidDoppler(job) && job.channels > 0 && |job.window| * job.rangeSize <= |rd| && d < |job.window| && r < job.rangeSize
  {
    Cell(rd, |job.window|, job.rangeSize, d, r)
      == DopplerValue(job, hypot, Unswap(shifted, d, |job.window|), 0, Unswap(shifted, r, job.rangeSize))
  }

  /** The picture's row d is Doppler bin d of channel 0, at every range bin; after a shift, along swapped axes. */
  ghost predicate PictureTrue(rd: seq<real>, job: DopplerJob, hypot: Complex -> real, shifted: bool)
    requires ValidDoppler(job) && job.channels > 0 && |job.window| * job.rangeSize <= |rd|
  {
    forall d: nat, r: nat :: d < |job.window| && r < job.rangeSize ==> PictureCell(rd, job, hypot, shifted, d, r)
  }

  /** Reading (bin, channel) pairs as bins happens to give the right values. */
  ghost predicate RowsTrue(job: DopplerJob, hypot: Complex -> real)
    requires ValidDoppler(job) && job.channels > 0
  {
    forall d: nat, r: nat :: d < |job.window| && r < job.rangeSize ==> RowTrue(job, hypot, d, r)
  }

  ghost predicate RowTrue(job: DopplerJob, hypot: Complex -> real, d: nat, r: nat)
    requires ValidDoppler(job) && job.channels > 0 && r < job.rangeSize
  {
    DopplerValue(job, hypot, d / job.channels, d % job.channels, r) == DopplerValue(job, hypot, d, 0, r)
  }

  lemma MatrixSize(rd: seq<real>, job: DopplerJob, hypot: Complex -> real)
    requires MatrixDone(rd, job, hypot, job.rangeSize, 0) && job.channels > 0
    ensures ValidDoppler(job) && |job.window| * job.rangeSize <= |rd|
  {
    hide CellIs, HalfTurn;
    RowsFit(|job.window|, job.channels, job.rangeSize);
  }

  lemma UnshiftedCell(rd: seq<real>, job: DopplerJob, hypot: Complex -> real, d: nat, r: nat)
    requires MatrixDone(rd, job, hypot, job.rangeSize, 0) && job.channels > 0 && d < |job.window| && r < job.rangeSize
    ensures ValidDoppler(job) && |job.window| * job.rangeSize <= |rd|
    ensures Cell(rd, |job.window|, job.rangeSize, d, r) == DopplerValue(job, hypot, d / job.channels, d % job.channels, r)
  {
    hide MatrixDone, DopplerValue, ValidDoppler, At;
    MatrixSize(rd, job, hypot);
    PictureRow(rd, job, hypot, d, r);
  }

  /** With or without the shift, the picture is true exactly when reading pairs as bins gives the right values. */
  lemma PictureTrueExactly(rd: seq<real>, unshifted: seq<real>, job: DopplerJob, hypot: Complex -> real, shifted: bool)
    requires MatrixDone(unshifted, job, hypot, job.rangeSize, 0) && job.channels > 0
    requires if shifted then Shifted(rd, unshifted, |job.window|, job.rangeSize) else rd == unshifted
    ensures ValidDoppler(job) && |job.window| * job.rangeSize <= |rd|
    ensures PictureTrue(rd, job, hypot, shifted) <==> RowsTrue(job, hypot)
  {
    hide MatrixDone, DopplerValue, ValidDoppler, Cell, Unswap, Shifted, RowTrue, PictureCell;
    MatrixSize(unshifted, job, hypot);
    if shifted { ShiftedSize(rd, unshifted, |job.window|, job.rangeSize); }
    forall d: nat, r: nat | d < |job.window| && r < job.rangeSize
      ensures PictureCell(rd, job, hypot, shifted, d, r) <==> RowTrue(job, hypot, Unswap(shifted, d, |job.window|), Unswap(shifted, r, job.rangeSize))
    {
      CellTrue(rd, unshifted, job, hypot, shifted, d, r);
    }
    if !RowsTrue(job, hypot) {
      var d: nat, r: nat :| d < |job.window| && r < job.rangeSize && !RowTrue(job, hypot, d, r);
      UnswapTwice(shifted, d, |job.window|);
      UnswapTwice(shifted, r, job.rangeSize);
      assert !PictureCell(rd, job, hypot, shifted, Unswap(shifted, d, |job.window|), Unswap(shifted, r, job.rangeSize));
    }
  }

  lemma UnswapTwice(shifted: bool, i: nat, n: nat)
    requires i < n
    ensures Unswap(shifted, Unswap(shifted, i, n), n) == i
  {
    SwapTwice(i, n);
  }

  lemma CellTrue(rd: seq<real>, unshifted: seq<real>, job: DopplerJob, hypot: Complex -> real, shifted: bool, d: nat, r: nat)
    requires MatrixDone(unshifted, job, hypot, job.rangeSize, 0) && ValidDoppler(job) && job.channels > 0 && d < |job.window| && r < job.rangeSize
    requires if shifted then Shifted(rd, unshifted, |job.window|, job.rangeSize) else rd == unshifted
    requires |job.window| * job.rangeSize <= |rd| && |job.window| * job.rangeSize <= |unshifted|
    ensures Unswap(shifted, d, |job.window|) < |job.window| && Unswap(shifted, r, job.rangeSize) < job.rangeSize
    ensures PictureCell(rd, job, hypot, shifted, d, r) <==> RowTrue(job, hypot, Unswap(shifted, d, |job.window|), Unswap(shifted, r, job.rangeSize))
  {
    hide MatrixDone, DopplerValue, ValidDoppler, Cell, SwapHalf, Shifted;
    SwapTwice(d, |job.window|);
    SwapTwice(r, job.rangeSize);
    UnshiftedCell(unshifted, job, hypot, Unswap(shifted, d, |job.window|), Unswap(shifted, r, job.rangeSize));
    if shifted { ShiftedAt(rd, unshifted, |job.window|, job.rangeSize, d, r); }
  }

  // ---------------------------------------------------------------- when the picture is true of every frame

  /** The second pass goes over the profile of the first. */
  ghost predicate Chained(job: RangeJob, djob: DopplerJob) {
    && ValidJob(job) && ValidDoppler(djob)
    && djob.chirps == job.chirps && djob.channels == job.channels && djob.rangeSize == |job.window|
  }

  /** Whatever samples a frame has, reading (bin, channel) pairs of its matrix as bins gives the right values. */
  ghost predicate AllFramesTrue(job: RangeJob, djob: DopplerJob, hypot: Complex -> real)
    requires Chained(job, djob) && job.channels > 0
  {
    forall d: seq<seq<int>>, p: seq<real> ::
      |p| == |djob.profile| && ProfileDone(p, job.(ifData := d), hypot, job.chirps * job.channels) ==> RowsTrue(djob.(profile := p), hypot)
  }

  /** No chirp that is read gets through the slow-time window. */
  predicate Deaf(job: DopplerJob) {
    forall c: nat :: c < |job.window| && c < job.chirps ==> job.window[c] == 0.0
  }

  /** No sample that is read gets through the window of the first pass. */
  predicate Muffled(job: RangeJob) {
    forall i: nat :: i < |job.window| && i < job.samples ==> job.window[i] == 0.0
  }

  lemma OneTimes(x: real)
    ensures 1.0 * x == x && 0.0 * x == 0.0
  {}

  lemma DeafLines(job: DopplerJob, ch: nat, bin: nat)
    requires ValidDoppler(job) && Deaf(job) && ch < job.channels && bin < job.rangeSize
    ensures DopplerLine(job, ch, bin) == Silence(|job.window|)
  {
    hide Address, HalfTurn;
    forall c: nat | c < |job.window|
      ensures DopplerLine(job, ch, bin)[c] == ZERO
    {
      if c < job.chirps {
        AddressBound(c, ch, bin, job.chirps, job.channels, job.rangeSize);
        OneTimes(job.profile[Address(c, ch, bin, job.channels, job.rangeSize)]);
      }
    }
  }

  /** Every slow-time line is zero. */
  ghost predicate NothingHeard(job: DopplerJob)
    requires ValidDoppler(job)
  {
    forall ch: nat, bin: nat :: ch < job.channels && bin < job.rangeSize ==> DopplerLine(job, ch, bin) == Silence(|job.window|)
  }

  lemma DeafHearsNothing(job: DopplerJob)
    requires ValidDoppler(job) && Deaf(job)
    ensures NothingHeard(job)
  {
    hide HalfTurn, Deaf, DopplerLine, Silence;
    forall ch: nat, bin: nat | ch < job.channels && bin < job.rangeSize
      ensures DopplerLine(job, ch, bin) == Silence(|job.window|)
    {
      DeafLines(job, ch, bin);
    }
  }

  /** Then every bin of every channel has the same value. */
  lemma SilentValues(job: DopplerJob, hypot: Complex -> real, k: nat, ch: nat, d: nat, r: nat)
    requires ValidDoppler(job) && NothingHeard(job) && 0 < job.channels && ch < job.channels && r < job.rangeSize
    ensures DopplerValue(job, hypot, k, ch, r) == DopplerValue(job, hypot, d, 0, r)
  {
    hide HalfTurn, DftAt, DopplerLine, Silence;
    assert DopplerLine(job, 0, r) == Silence(|job.window|) && DopplerLine(job, ch, r) == Silence(|job.window|);
    SilentSpectrum(job.w, |job.window|, k);
    SilentSpectrum(job.w, |job.window|, d);
  }

  lemma PairInside(d: nat, channels: nat)
    requires channels > 0
    ensures d / channels >= 0 && 0 <= d % channels < channels
  {}

  lemma RowsAreTrue(job: DopplerJob, hypot: Complex -> real)
    requires ValidDoppler(job) && job.channels > 0
    requires job.channels == 1 || |job.window| == 1 || NothingHeard(job)
    ensures RowsTrue(job, hypot)
  {
    hide ValidDoppler, DopplerValue, NothingHeard;
    forall d: nat, r: nat | d < |job.window| && r < job.rangeSize
      ensures RowTrue(job, hypot, d, r)
    {
      if NothingHeard(job) {
        PairInside(d, job.channels);
        SilentValues(job, hypot, d / job.channels, d % job.channels, d, r);
      } else {
        PairIsBin(d, |job.window|, job.channels);
      }
    }
  }

  lemma PairIsBin(d: nat, bins: nat, channels: nat)
    requires d < bins && channels > 0 && (channels == 1 || bins == 1)
    ensures d / channels == d && d % channels == 0
  {}

  /** In frames behind such a window nothing ever gets into the buffer. */
  lemma MuffledBuffer(job: RangeJob, t: nat)
    requires ValidJob(job) && Muffled(job) && t < job.chirps * job.channels
    ensures Buffer(job, t + 1) == Silence(|job.window|)
  {
    hide Buffer, VisitedLine, ShortLine, HalfTurn, Silence;
    assert forall line: nat :: !Loud(job, line);
    assert !Leaky(job);
    QuietBuffer(job, t);
  }

  lemma ProfileAt(p: seq<real>, job: RangeJob, hypot: Complex -> real, c: nat, ch: nat, bin: nat)
    requires ProfileDone(p, job, hypot, job.chirps * job.channels) && c < job.chirps && ch < job.channels && bin < |job.window|
    ensures ValidJob(job) && At(c, ch, job.channels) < job.chirps * job.channels
    ensures Address(c, ch, bin, job.channels, |job.window|) < |p|
    ensures p[Address(c, ch, bin, job.channels, |job.window|)] == hypot(Buffer(job, At(c, ch, job.channels) + 1)[bin])
  {
    hide Buffer, At, HalfTurn;
    AtBound(c, ch, job.chirps, job.channels);
  }

  lemma MuffledHearsNothing(job: RangeJob, djob: DopplerJob, hypot: Complex -> real)
    requires Chained(job, djob) && Muffled(job) && RealMagnitude(hypot)
    requires ProfileDone(djob.profile, job, hypot, job.chirps * job.channels)
    ensures NothingHeard(djob)
  {
    hide Address, At, Buffer, HalfTurn, Muffled, ProfileDone;
    forall ch: nat, bin: nat | ch < djob.channels && bin < djob.rangeSize
      ensures DopplerLine(djob, ch, bin) == Silence(|djob.window|)
    {
      var v := DopplerLine(djob, ch, bin);
      forall c: nat | c < |djob.window|
        ensures v[c] == ZERO
      {
        if c < djob.chirps {
          ProfileAt(djob.profile, job, hypot, c, ch, bin);
          MuffledBuffer(job, At(c, ch, job.channels));
          assert hypot(Complex(0.0, 0.0)) == Abs(0.0);
          OneTimes(djob.window[c]);
        }
      }
    }
  }

  // ---------------------------------------------------------------- a ping in one chirp of channel 1

  /** A frame of full-length lines, zero but for sample j of chirp c in channel 1. */
  function PingFrame(job: RangeJob, c: nat, j: nat): (d: seq<seq<int>>)
    ensures |d| == job.channels * job.chirps
    ensures forall l: nat :: l < |d| ==> |d[l]| == job.samples
    ensures forall l: nat, i: nat :: l < |d| && i < job.samples ==> d[l][i] == if l == LineOf(job, c, 1) && i == j then 1 else 0
  {
    seq(job.channels * job.chirps, (l: nat) => seq(job.samples, (i: nat) => if l == LineOf(job, c, 1) && i == j then 1 else 0))
  }

  ghost predicate Pinged(job: RangeJob, c: nat, j: nat) {
    && ValidJob(job) && c < job.chirps && 1 < job.channels && j < job.samples && j < |job.window|
    && job.ifData == PingFrame(job, c, j)
  }

  lemma PingedIsPure(job: RangeJob, c: nat, j: nat)
    requires Pinged(job, c, j)
    ensures FramePure(job)
  {
    hide FramePure, LineOf, VisitedLine, HalfTurn;
    assert !Leaky(job);
    NotLeakyIsPure(job);
  }

  lemma PureIsNatural(job: RangeJob, line: nat)
    ensures PureLine(job, line) == Natural(job, line, Silence(|job.window|))
  {
    assert Silence(|job.window|) == seq(|job.window|, (i: nat) => ZERO);
  }

  lemma LineInside(job: RangeJob, c: nat, ch: nat)
    requires c < job.chirps && ch < job.channels
    ensures LineOf(job, c, ch) < job.channels * job.chirps
  {
    AtBound(ch, c, job.channels, job.chirps);
  }

  /** The first bin of every line: the window at the ping, or nothing. */
  lemma PingedBin(job: RangeJob, c: nat, j: nat, k: nat, ch: nat)
    requires Pinged(job, c, j) && k < job.chirps && ch < job.channels
    ensures Buffer(job, At(k, ch, job.channels) + 1)[0] == if k == c && ch == 1 then Complex(job.window[j], 0.0) else ZERO
  {
    PingedStep(job, c, j, k, ch);
    hide Buffer, HalfTurn, PureLine, Natural, DftAt, Silence, At, OneSample, Mul, Pow, Pinged, PingFrame;
    var line, a := LineOf(job, k, ch), Complex(job.window[j], 0.0);
    PureIsNatural(job, line);
    if k == c && ch == 1 {
      PingedLine(job, c, j);
      OneSampleBin(PureLine(job, line), j, a, job.w, 0);
      NoTurn(a, job.w, j);
    } else {
      SilentPing(job, c, j, k, ch);
      SilentSpectrum(job.w, |job.window|, 0);
    }
  }

  lemma PingedStep(job: RangeJob, c: nat, j: nat, k: nat, ch: nat)
    requires Pinged(job, c, j) && k < job.chirps && ch < job.channels
    ensures ValidJob(job) && j < |job.window|
    ensures Buffer(job, At(k, ch, job.channels) + 1)[0] == DftAt(PureLine(job, LineOf(job, k, ch)), job.w, 0)
  {
    hide Buffer, HalfTurn, PureLine, DftAt, At, LineOf;
    PingedIsPure(job, c, j);
    AtBound(k, ch, job.chirps, job.channels);
    AtSplit(k, ch, job.channels);
    var t := At(k, ch, job.channels);
    assert StepPure(job, t) && VisitedLine(job, t) == LineOf(job, k, ch);
    assert Buffer(job, t + 1)[0] == DftAt(PureLine(job, LineOf(job, k, ch)), job.w, 0);
  }

  lemma PingedLine(job: RangeJob, c: nat, j: nat)
    requires Pinged(job, c, j)
    ensures j < |job.window| && OneSample(PureLine(job, LineOf(job, c, 1)), j, Complex(job.window[j], 0.0))
  {
    hide Natural, PureLine, Silence, OneSample, LineOf, HalfTurn;
    var line := LineOf(job, c, 1);
    LineInside(job, c, 1);
    PureIsNatural(job, line);
    SoundLine(job, line, j);
  }

  lemma SilentPing(job: RangeJob, c: nat, j: nat, k: nat, ch: nat)
    requires Pinged(job, c, j) && k < job.chirps && ch < job.channels && !(k == c && ch == 1)
    ensures PureLine(job, LineOf(job, k, ch)) == Silence(|job.window|)
  {
    var line := LineOf(job, k, ch);
    if line == LineOf(job, c, 1) { SameAddress(ch, k, 1, c, job.chirps); }
    hide Natural, PureLine, Silence, LineOf, HalfTurn;
    LineInside(job, k, ch);
    PureIsNatural(job, line);
    SilentIsZero(job, line);
  }

  /** The profile the first pass leaves of a frame. */
  lemma SomeProfile(job: RangeJob, hypot: Complex -> real, size: nat) returns (p: seq<real>)
    requires ValidJob(job) && job.chirps * job.channels * |job.window| <= size
    ensures |p| == size && ProfileDone(p, job, hypot, job.chirps * job.channels)
  {
    hide Buffer, At, HalfTurn;
    var n, lines := |job.window|, job.chirps * job.channels;
    p := seq(size, (a: nat) requires a < size => if a < lines * n then CellAtNonZero(a, lines, n); hypot(Buffer(job, a / n + 1)[a % n]) else 0.0);
    forall t: nat, i: nat | t < lines && i < n
      ensures At(t, i, n) < |p| && p[At(t, i, n)] == hypot(Buffer(job, t + 1)[i])
    {
      AtBound(t, i, lines, n);
      AtSplit(t, i, n);
    }
  }

  lemma CellAtNonZero(a: nat, lines: nat, n: nat)
    requires a < lines * n
    ensures n > 0 && 0 <= a / n && 0 <= a % n < n
  {}

  /** What the second pass hears of the ping: nothing in channel 0, one chirp in channel 1. */
  lemma PingedLines(job: RangeJob, djob: DopplerJob, hypot: Complex -> real, c: nat, j: nat)
    requires Chained(job, djob) && Pinged(job, c, j) && RealMagnitude(hypot) && c < |djob.window|
    requires ProfileDone(djob.profile, job, hypot, job.chirps * job.channels)
    ensures djob.channels > 1 && djob.rangeSize > 0
    ensures DopplerLine(djob, 0, 0) == Silence(|djob.window|)
    ensures OneSample(DopplerLine(djob, 1, 0), c, Complex(Product(Abs(job.window[j]), djob.window[c]), 0.0))
  {
    hide Address, At, Buffer, HalfTurn, PingFrame, ProfileDone;
    forall k: nat | k < |djob.window|
      ensures DopplerLine(djob, 0, 0)[k] == ZERO
      ensures DopplerLine(djob, 1, 0)[k] == if k == c then Complex(Product(Abs(job.window[j]), djob.window[c]), 0.0) else ZERO
    {
      if k < djob.chirps {
        ProfileAt(djob.profile, job, hypot, k, 0, 0);
        ProfileAt(djob.profile, job, hypot, k, 1, 0);
        PingedBin(job, c, j, k, 0);
        PingedBin(job, c, j, k, 1);
        assert hypot(Complex(0.0, 0.0)) == Abs(0.0);
        OneTimes(djob.window[k]);
      }
    }
  }

  /** Row 1 of the ping's picture is not Doppler bin 1 of channel 0. */
  lemma PingedIsWrong(job: RangeJob, djob: DopplerJob, hypot: Complex -> real, c: nat, j: nat)
    requires Chained(job, djob) && Pinged(job, c, j) && RealMagnitude(hypot) && c < |djob.window| && |djob.window| > 1
    requires ProfileDone(djob.profile, job, hypot, job.chirps * job.channels)
    requires job.window[j] != 0.0 && djob.window[c] != 0.0
    ensures djob.channels > 0 && !RowsTrue(djob, hypot)
  {
    PingedLines(job, djob, hypot, c, j);
    hide HalfTurn, DopplerLine, DopplerValue, OneSample, PingFrame, ProfileDone, RowTrue, Silence, Product, ValidDoppler, RealMagnitude;
    var a := Product(Abs(job.window[j]), djob.window[c]);
    NonZeroProduct(Abs(job.window[j]), djob.window[c]);
    HeardValue(djob, hypot, c, a);
    SilentValue(djob, hypot, 1);
    SecondRow(djob, hypot);
  }

  lemma SecondRow(job: DopplerJob, hypot: Complex -> real)
    requires ValidDoppler(job) && job.channels > 1 && job.rangeSize > 0
    ensures RowTrue(job, hypot, 1, 0) <==> DopplerValue(job, hypot, 0, 1, 0) == DopplerValue(job, hypot, 1, 0, 0)
  {
    hide ValidDoppler, DopplerValue;
    SmallQuotient(job.channels);
  }

  lemma HeardValue(job: DopplerJob, hypot: Complex -> real, c: nat, a: real)
    requires ValidDoppler(job) && job.channels > 1 && job.rangeSize > 0 && RealMagnitude(hypot)
    requires OneSample(DopplerLine(job, 1, 0), c, Complex(a, 0.0))
    ensures DopplerValue(job, hypot, 0, 1, 0) == Abs(a)
  {
    hide HalfTurn, DopplerLine, DftAt, OneSample, Mul, Twiddle;
    OneSampleBin(DopplerLine(job, 1, 0), c, Complex(a, 0.0), job.w, 0);
    NoTurn(Complex(a, 0.0), job.w, c);
  }

  lemma SilentValue(job: DopplerJob, hypot: Complex -> real, k: nat)
    requires ValidDoppler(job) && job.channels > 0 && job.rangeSize > 0 && RealMagnitude(hypot)
    requires DopplerLine(job, 0, 0) == Silence(|job.window|)
    ensures DopplerValue(job, hypot, k, 0, 0) == 0.0
  {
    hide HalfTurn, DopplerLine, DftAt, Silence;
    SilentSpectrum(job.w, |job.window|, k);
    assert hypot(Complex(0.0, 0.0)) == Abs(0.0);
  }

  lemma NonZeroProduct(x: real, y: real)
    requires x != 0.0 && y != 0.0
    ensures Product(x, y) != 0.0
  {}

  lemma SmallQuotient(channels: nat)
    requires channels > 1
    ensures 1 / channels == 0 && 1 % channels == 1
  {}

  lemma PingedFrame(job: RangeJob, c: nat, j: nat) returns (sound: RangeJob)
    requires ValidJob(job) && c < job.chirps && 1 < job.channels && j < job.samples && j < |job.window|
    ensures sound == job.(ifData := PingFrame(job, c, j)) && Pinged(sound, c, j)
  {
    hide HalfTurn;
    sound := job.(ifData := PingFrame(job, c, j));
    SamePing(sound, job, c, j);
  }

  lemma SamePing(a: RangeJob, b: RangeJob, c: nat, j: nat)
    requires a.channels == b.channels && a.chirps == b.chirps && a.samples == b.samples
    ensures PingFrame(a, c, j) == PingFrame(b, c, j)
  {
    forall l: nat | l < a.channels * a.chirps
      ensures PingFrame(a, c, j)[l] == PingFrame(b, c, j)[l]
    {}
  }

  lemma StillChained(job: RangeJob, djob: DopplerJob, d: seq<seq<int>>, p: seq<real>)
    requires Chained(job, djob) && |p| == |djob.profile|
    ensures Chained(job.(ifData := d), djob.(profile := p))
  {
    hide HalfTurn;
  }

  /**
   The picture shows channel 0 of every frame exactly for one channel, one Doppler bin, or where one of the
   two windows lets nothing through.
   */
  lemma RowsTrueExactly(job: RangeJob, djob: DopplerJob, hypot: Complex -> real)
    requires Chained(job, djob) && job.channels > 0 && RealMagnitude(hypot)
    ensures AllFramesTrue(job, djob, hypot) <==> job.channels == 1 || |djob.window| == 1 || Deaf(djob) || Muffled(job)
  {
    hide HalfTurn, ProfileDone, RowsTrue, NothingHeard, PingFrame;
    if job.channels == 1 || |djob.window| == 1 || Deaf(djob) || Muffled(job) {
      forall d: seq<seq<int>>, p: seq<real> | |p| == |djob.profile| && ProfileDone(p, job.(ifData := d), hypot, job.chirps * job.channels)
        ensures RowsTrue(djob.(profile := p), hypot)
      {
        StillChained(job, djob, d, p);
        if Deaf(djob) {
          DeafHearsNothing(djob.(profile := p));
        } else if Muffled(job) {
          MuffledHearsNothing(job.(ifData := d), djob.(profile := p), hypot);
        }
        RowsAreTrue(djob.(profile := p), hypot);
      }
    } else {
      var c: nat :| c < |djob.window| && c < djob.chirps && djob.window[c] != 0.0;
      var j: nat :| j < |job.window| && j < job.samples && job.window[j] != 0.0;
      var sound := PingedFrame(job, c, j);
      var p := SomeProfile(sound, hypot, |djob.profile|);
      StillChained(job, djob, sound.ifData, p);
      PingedIsWrong(sound, djob.(profile := p), hypot, c, j);
    }
  }

  // ---------------------------------------------------------------- a frame with a wrong picture

  /** One chirp of two channels, silent in the first. */
  function TwoChannels(w: Complex): RangeJob { RangeJob([[0], [1]], 1, 1, 2, [1.0], w, 0) }

  lemma TwoChannelsBuffers(w: Complex)
    ensures ValidJob(TwoChannels(w)) && |TwoChannels(w).window| == 1
    ensures Buffer(TwoChannels(w), 1) == [ZERO] && Buffer(TwoChannels(w), 2) == [ONE]
  {
    hide *;
    var job := TwoChannels(w);
    TwoChannelsShape(w);
    OnePointStep(job, 0);
    OnePointStep(job, 1);
    TwoChannelsLoads(w, Buffer(job, 0));
    TwoChannelsLoads(w, Buffer(job, 1));
  }

  lemma TwoChannelsShape(w: Complex)
    ensures var job := TwoChannels(w);
      && ValidJob(job) && job.levels == 0 && |job.window| == 1 && job.chirps == 1 && job.channels == 2 && job.w == w
      && VisitedLine(job, 0) == 0 && VisitedLine(job, 1) == 1
  {}

  lemma TwoChannelsLoads(w: Complex, stale: seq<Complex>)
    requires |stale| == 1
    ensures Natural(TwoChannels(w), 0, stale) == [ZERO] && Natural(TwoChannels(w), 1, stale) == [ONE]
  {
    assert 0 as real * 1.0 == 0.0 && 1 as real * 1.0 == 1.0;
  }

  /** Two flat Doppler bins over the profile of that frame. */
  function TwoBins(profile: seq<real>, wd: Complex): DopplerJob { DopplerJob(profile, 1, 2, 1, [1.0, 1.0], wd, 1) }

  /** Of this frame, with two flat Doppler bins, row 1 of the picture shows channel 1 where channel 0 is silent. */
  lemma TwoChannelPicture(w: Complex, wd: Complex, profile: seq<real>, rd: seq<real>, hypot: Complex -> real)
    requires RealMagnitude(hypot) && HalfTurn(wd, 1) && |profile| == 2
    requires ProfileDone(profile, TwoChannels(w), hypot, 2) && MatrixDone(rd, TwoBins(profile, wd), hypot, 1, 0)
    ensures ValidDoppler(TwoBins(profile, wd)) && |rd| >= 2 && TwoBins(profile, wd).channels == 2 && TwoBins(profile, wd).rangeSize == 1
    ensures rd[1] == 1.0 && DopplerValue(TwoBins(profile, wd), hypot, 1, 0, 0) == 0.0
  {
    hide *;
    var job := TwoBins(profile, wd);
    TwoChannelProfile(w, profile, hypot);
    TwoBinsShape(profile, wd);
    MatrixSize(rd, job, hypot);
    PictureRow(rd, job, hypot, 1, 0);
    FirstAddresses();
    TwoBinsValues(profile, wd, hypot);
  }

  lemma FirstAddresses()
    ensures At(1, 0, 1) == 1 && 1 / 2 == 0 && 1 % 2 == 1
  {}

  lemma TwoChannelProfile(w: Complex, profile: seq<real>, hypot: Complex -> real)
    requires RealMagnitude(hypot) && |profile| == 2 && ProfileDone(profile, TwoChannels(w), hypot, 2)
    ensures profile == [0.0, 1.0]
  {
    hide Buffer;
    TwoChannelsBuffers(w);
    var job := TwoChannels(w);
    assert profile[At(0, 0, 1)] == hypot(Buffer(job, 0 + 1)[0]) && profile[At(1, 0, 1)] == hypot(Buffer(job, 1 + 1)[0]);
  }

  lemma TwoBinsShape(profile: seq<real>, wd: Complex)
    requires |profile| == 2 && HalfTurn(wd, 1)
    ensures var job := TwoBins(profile, wd);
      && ValidDoppler(job) && job.chirps == 1 && job.channels == 2 && job.rangeSize == 1 && |job.window| == 2 && job.w == wd
      && job.profile == profile && job.window[0] == 1.0
  {
    hide HalfTurn;
  }

  lemma TwoBinsLine(profile: seq<real>, wd: Complex, ch: nat)
    requires profile == [0.0, 1.0] && HalfTurn(wd, 1) && ch < 2
    requires ValidDoppler(TwoBins(profile, wd)) && TwoBins(profile, wd).channels == 2 && TwoBins(profile, wd).rangeSize == 1
    ensures DopplerLine(TwoBins(profile, wd), ch, 0) == [Complex(profile[ch], 0.0), ZERO]
  {
    hide HalfTurn;
    TwoBinsShape(profile, wd);
    var v := DopplerLine(TwoBins(profile, wd), ch, 0);
    assert Address(0, ch, 0, 2, 1) == ch;
    assert v[0] == Complex(profile[ch] * 1.0, 0.0) && v[1] == ZERO;
  }

  lemma TwoBinsValues(profile: seq<real>, wd: Complex, hypot: Complex -> real)
    requires profile == [0.0, 1.0] && HalfTurn(wd, 1) && RealMagnitude(hypot)
    requires var job := TwoBins(profile, wd);
      ValidDoppler(job) && job.channels == 2 && job.rangeSize == 1 && |job.window| == 2 && job.w == wd
    ensures DopplerValue(TwoBins(profile, wd), hypot, 0, 1, 0) == 1.0 && DopplerValue(TwoBins(profile, wd), hypot, 1, 0, 0) == 0.0
  {
    hide DftAt, HalfTurn, DopplerLine, TwoBins, ValidDoppler, Twiddle, Mul;
    TwoBinsLine(profile, wd, 0);
    TwoBinsLine(profile, wd, 1);
    assert [ZERO, ZERO] == Silence(2);
    SilentSpectrum(wd, 2, 1);
    OneSampleBin([ONE, ZERO], 0, ONE, wd, 0);
    NoTurn(ONE, wd, 0);
    assert hypot(Complex(1.0, 0.0)) == Abs(1.0) && hypot(Complex(0.0, 0.0)) == Abs(0.0);
  }
}
