/** One frame through the processor: dimensions, tables, both passes, the optional shift and the copied picture. */
module ProcessFrame {
  import opened Complex
  import opened Dft
  import opened Ints
  import opened Matrix
  import opened RangeDoppler
  import opened FftShift

  // ---------------------------------------------------------------- windows

  datatype WindowKind = Hann | Hamming | Blackman | Kaiser | Flat

  /** The window the engine builds for a configured name. */
  function EngineWindow(name: string): WindowKind {
    if name == "hann" || name == "hanning" then Hann
    else if name == "hamming" then Hamming
    else if name == "blackman" then Blackman
    else if name == "kaiser" then Kaiser
    else Flat
  }

  /** The window the frame processor builds for itself. */
  function FrameWindow(name: string): WindowKind {
    if name == "hann" || name == "hanning" then Hann
    else if name == "hamming" then Hamming
    else if name == "blackman" then Blackman
    else Flat
  }

  lemma WindowsAgreeExactly(name: string)
    ensures EngineWindow(name) == FrameWindow(name) <==> name != "kaiser"
  {
    assert |"kaiser"| == 6 && "kaiser"[0] == 'k';
    assert "hann"[0] == "hanning"[0] == "hamming"[0] == 'h' && "blackman"[0] == 'b';
  }

  /** Which window a configured name selects: both spellings of Hann, Hamming, Blackman, and none for any other name. */
  lemma WindowNames(name: string)
    ensures FrameWindow("hann") == FrameWindow("hanning") == Hann && FrameWindow("hamming") == Hamming && FrameWindow("blackman") == Blackman
    ensures EngineWindow("kaiser") == Kaiser && (name != "kaiser" ==> EngineWindow(name) == FrameWindow(name))
    ensures name !in ["hann", "hanning", "hamming", "blackman"] ==> FrameWindow(name) == Flat
  {
    assert |"hann"| == 4 && |"hanning"| == 7 && "hamming"[2] == 'm' && "hanning"[2] == 'n' && |"hamming"| == 7;
    assert "hann"[0] == "hanning"[0] == "hamming"[0] == 'h' && "blackman"[0] == 'b' && "kaiser"[0] == 'k';
  }

  // ---------------------------------------------------------------- dimensions

  datatype Dims = Dims(chirps: nat, samples: nat, channels: nat) | Panic

  /** Integer division that truncates towards zero, of a non-negative dividend. */
  function Quotient(a: nat, b: int): int
    requires b != 0
  {
    if b > 0 then a / b else -(a / -b)
  }

  /** The configured dimensions, with the fallbacks for those that are not positive. */
  function ResolveDims(ifData: seq<seq<int>>, chirps: int, samples: int, channels: int): Dims {
    if (chirps <= 0 && channels == 0) || (samples <= 0 && ifData == []) then Panic
    else
      Dims(if chirps > 0 then chirps else if Quotient(|ifData|, channels) > 0 then Quotient(|ifData|, channels) else 128,
           if samples > 0 then samples else if |ifData[0]| > 0 then |ifData[0]| else 256,
           if channels > 0 then channels else 1)
  }

  /** All dimensions come out positive, and chirps derived from the data never ask for a missing line. */
  lemma ResolvedDims(ifData: seq<seq<int>>, chirps: int, samples: int, channels: int)
    requires ResolveDims(ifData, chirps, samples, channels).Dims?
    ensures var d := ResolveDims(ifData, chirps, samples, channels);
      && d.chirps > 0 && d.samples > 0 && d.channels > 0
      && (chirps <= 0 && channels > 0 && |ifData| >= channels ==>
            forall c: nat, ch: nat :: c < d.chirps && ch < d.channels ==> At(ch, c, d.chirps) < |ifData|)
  {
    var d := ResolveDims(ifData, chirps, samples, channels);
    if chirps <= 0 && channels > 0 && |ifData| >= channels {
      Covered(|ifData|, channels);
      forall c: nat, ch: nat | c < d.chirps && ch < d.channels
        ensures At(ch, c, d.chirps) < |ifData|
      {
        AtBound(ch, c, channels, d.chirps);
      }
    }
  }

  lemma PanicsExactly(ifData: seq<seq<int>>, chirps: int, samples: int, channels: int)
    ensures ResolveDims(ifData, chirps, samples, channels).Panic? <==> (chirps <= 0 && channels == 0) || (samples <= 0 && |ifData| == 0)
  {}

  /** A positive configured size is used as it is; the others come from the lengths, or are 128, 256 and 1. */
  lemma DimsAre(ifData: seq<seq<int>>, chirps: int, samples: int, channels: int)
    requires ResolveDims(ifData, chirps, samples, channels).Dims?
    ensures var d := ResolveDims(ifData, chirps, samples, channels);
      && (chirps > 0 ==> d.chirps == chirps)
      && (chirps <= 0 && channels > 0 ==> d.chirps == if |ifData| >= channels then |ifData| / channels else 128)
      && (chirps <= 0 && channels < 0 ==> d.chirps == 128)
      && (samples > 0 ==> d.samples == samples)
      && (samples <= 0 ==> |ifData| > 0 && d.samples == if |ifData[0]| > 0 then |ifData[0]| else 256)
      && d.channels == if channels > 0 then channels else 1
  {
    if channels > 0 {
      if |ifData| >= channels { Covered(|ifData|, channels); } else { Uncovered(|ifData|, channels); }
    } else if channels < 0 {
      QuotientNonNegative(|ifData|, -channels);
    }
  }

  lemma Uncovered(lines: nat, channels: nat)
    requires lines < channels
    ensures lines / channels == 0
  {}

  lemma QuotientNonNegative(a: nat, b: nat)
    requires b > 0
    ensures a / b >= 0
  {}

  lemma Covered(lines: nat, channels: nat)
    requires 0 < channels <= lines
    ensures lines / channels > 0 && channels * (lines / channels) <= lines
  {}

  // ---------------------------------------------------------------- the outputs are determined

  /** Two runs of the first pass on the same job fill the profile alike. */
  lemma ProfileDetermined(a: seq<real>, b: seq<real>, job: RangeJob, hypot: Complex -> real)
    requires ProfileDone(a, job, hypot, job.chirps * job.channels) && ProfileDone(b, job, hypot, job.chirps * job.channels)
    requires job.chirps * job.channels * |job.window| <= |a| == |b|
    ensures a[..job.chirps * job.channels * |job.window|] == b[..job.chirps * job.channels * |job.window|]
  {
    hide Buffer, ValidJob, At;
    var lines, n := job.chirps * job.channels, |job.window|;
    forall p: nat | p < lines * n
      ensures a[p] == b[p]
    {
      var t, i := CellAt(p, lines, n);
      assert a[At(t, i, n)] == b[At(t, i, n)];
    }
  }

  predicate SameSlowTime(j: DopplerJob, k: DopplerJob) {
    && j.chirps == k.chirps && j.channels == k.channels && j.rangeSize == k.rangeSize
    && j.window == k.window && j.w == k.w && j.levels == k.levels
    && j.chirps * j.channels * j.rangeSize <= |j.profile| && j.chirps * j.channels * j.rangeSize <= |k.profile|
    && j.profile[..j.chirps * j.channels * j.rangeSize] == k.profile[..j.chirps * j.channels * j.rangeSize]
  }

  lemma SameDopplerLine(j: DopplerJob, k: DopplerJob, ch: nat, bin: nat)
    requires SameSlowTime(j, k) && ch < j.channels && bin < j.rangeSize
    ensures DopplerLine(j, ch, bin) == DopplerLine(k, ch, bin)
  {
    hide Address;
    var a, b := DopplerLine(j, ch, bin), DopplerLine(k, ch, bin);
    var end := j.chirps * j.channels * j.rangeSize;
    forall c: nat | c < |j.window|
      ensures a[c] == b[c]
    {
      if c < j.chirps {
        AddressBound(c, ch, bin, j.chirps, j.channels, j.rangeSize);
        var p := Address(c, ch, bin, j.channels, j.rangeSize);
        assert j.profile[p] == j.profile[..end][p] == k.profile[..end][p] == k.profile[p];
      }
    }
  }

  /** Two runs of the second pass on profiles that agree fill the matrix alike. */
  lemma MatrixDetermined(a: seq<real>, b: seq<real>, j: DopplerJob, k: DopplerJob, hypot: Complex -> real)
    requires SameSlowTime(j, k) && MatrixDone(a, j, hypot, j.rangeSize, 0) && MatrixDone(b, k, hypot, k.rangeSize, 0)
    requires |a| == |b|
    ensures a[..|j.window| * j.channels * j.rangeSize] == b[..|j.window| * j.channels * j.rangeSize]
  {
    hide DftAt, DopplerLine, Address, HalfTurn;
    forall p: nat | p < |j.window| * j.channels * j.rangeSize
      ensures a[p] == b[p]
    {
      var row, ch, bin := AddressCovers(p, |j.window|, j.channels, j.rangeSize);
      SameDopplerLine(j, k, ch, bin);
      assert CellIs(a, j, hypot, row, ch, bin) && CellIs(b, k, hypot, row, ch, bin);
    }
  }

  /**
   The copied picture reads row d of the matrix as if rows were Doppler bins. Rows are (bin, channel)
   pairs, so row d is bin d / channels of channel d % channels.
   */
  lemma PictureRow(rd: seq<real>, job: DopplerJob, hypot: Complex -> real, d: nat, r: nat)
    requires MatrixDone(rd, job, hypot, job.rangeSize, 0) && job.channels > 0 && d < |job.window| && r < job.rangeSize
    ensures var p := At(d, r, job.rangeSize);
      p < |rd| && rd[p] == DopplerValue(job, hypot, d / job.channels, d % job.channels, r)
  {
    hide DopplerValue, ValidDoppler, Address, At;
    RowOfBin(d, r, job.channels, job.rangeSize, |job.window|);
    assert CellIs(rd, job, hypot, d / job.channels, d % job.channels, r);
  }

  lemma RowOfBin(d: nat, r: nat, channels: nat, rangeSize: nat, rows: nat)
    requires channels > 0 && d < rows
    ensures d / channels < rows && At(d, r, rangeSize) == Address(d / channels, d % channels, r, channels, rangeSize)
  {
    hide At;
    BinOf(d, channels);
  }

  lemma BinOf(d: nat, channels: nat)
    requires channels > 0
    ensures d / channels <= d && At(d / channels, d % channels, channels) == d
  {
    if d / channels > 0 { ProductGrows(channels, d / channels); }
  }

  // ---------------------------------------------------------------- what the cells mean

  /** A sample line as the transform is to see it: windowed, cut at the sample count, padded with zeros. */
  function CutLine(line: seq<int>, samples: nat, window: seq<real>): (v: seq<Complex>)
    ensures |v| == |window|
  {
    seq(|window|, (j: nat) requires j < |window| =>
      if j < samples && j < |line| then Complex(line[j] as real * window[j], 0.0) else ZERO)
  }

  /** Cell (c, ch, i) of the profile is the magnitude of bin i of the DFT of line ch * chirps + c. */
  ghost predicate ProfileMeans(profile: seq<real>, ifData: seq<seq<int>>, chirps: nat, samples: nat, channels: nat, window: seq<real>, w: Complex,
                               hypot: Complex -> real) {
    forall c: nat, ch: nat, i: nat :: c < chirps && ch < channels && i < |window| ==>
      ProfileCellMeans(profile, ifData, chirps, samples, channels, window, w, hypot, c, ch, i)
  }

  ghost predicate ProfileCellMeans(profile: seq<real>, ifData: seq<seq<int>>, chirps: nat, samples: nat, channels: nat, window: seq<real>, w: Complex,
                                   hypot: Complex -> real, c: nat, ch: nat, i: nat) {
    var p, line := (c * channels + ch) * |window| + i, ch * chirps + c;
    p < |profile| && profile[p] == hypot(DftAt(CutLine(if line < |ifData| then ifData[line] else [], samples, window), w, i))
  }

  /** The slow-time line of one channel and range bin: the profile across the chirps, windowed and padded with zeros. */
  function CutChirps(profile: seq<real>, chirps: nat, channels: nat, rangeBins: nat, ch: nat, bin: nat, window: seq<real>): (v: seq<Complex>)
    ensures |v| == |window|
  {
    seq(|window|, (c: nat) requires c < |window| =>
      var p := (c * channels + ch) * rangeBins + bin;
      if c < chirps && p < |profile| then Complex(profile[p] * window[c], 0.0) else ZERO)
  }

  /** Cell (k, ch, bin) of the matrix is the magnitude of bin k of the DFT of that line. */
  ghost predicate MatrixMeans(rd: seq<real>, profile: seq<real>, chirps: nat, channels: nat, rangeBins: nat, window: seq<real>, w: Complex,
                              hypot: Complex -> real) {
    forall k: nat, ch: nat, bin: nat :: k < |window| && ch < channels && bin < rangeBins ==>
      MatrixCellMeans(rd, profile, chirps, channels, rangeBins, window, w, hypot, k, ch, bin)
  }

  ghost predicate MatrixCellMeans(rd: seq<real>, profile: seq<real>, chirps: nat, channels: nat, rangeBins: nat, window: seq<real>, w: Complex,
                                  hypot: Complex -> real, k: nat, ch: nat, bin: nat) {
    var p := (k * channels + ch) * rangeBins + bin;
    p < |rd| && rd[p] == hypot(DftAt(CutChirps(profile, chirps, channels, rangeBins, ch, bin, window), w, k))
  }

  lemma LineIsCut(job: RangeJob, line: nat)
    ensures PureLine(job, line) == CutLine(if line < |job.ifData| then job.ifData[line] else [], job.samples, job.window)
  {
    var pure, cut := PureLine(job, line), CutLine(if line < |job.ifData| then job.ifData[line] else [], job.samples, job.window);
    forall j: nat | j < |job.window|
      ensures pure[j] == cut[j]
    {}
  }

  lemma ProfileIndex(c: nat, ch: nat, i: nat, channels: nat, rangeSize: nat, chirps: nat)
    ensures Address(c, ch, i, channels, rangeSize) == (c * channels + ch) * rangeSize + i
    ensures At(ch, c, chirps) == ch * chirps + c
  {}

  lemma PureProfileMeans(profile: seq<real>, job: RangeJob, hypot: Complex -> real)
    requires PureProfile(profile, job, hypot)
    ensures ProfileMeans(profile, job.ifData, job.chirps, job.samples, job.channels, job.window, job.w, hypot)
  {
    hide Address, At, DftAt, PureLine, CutLine, ProfileCellMeans;
    forall c: nat, ch: nat, i: nat | c < job.chirps && ch < job.channels && i < |job.window|
      ensures ProfileCellMeans(profile, job.ifData, job.chirps, job.samples, job.channels, job.window, job.w, hypot, c, ch, i)
    {
      ProfileIndex(c, ch, i, job.channels, |job.window|, job.chirps);
      LineIsCut(job, LineOf(job, c, ch));
      assert profile[Address(c, ch, i, job.channels, |job.window|)] == hypot(DftAt(PureLine(job, LineOf(job, c, ch)), job.w, i));
      CellMeans(profile, job, hypot, c, ch, i);
    }
  }

  lemma CellMeans(profile: seq<real>, job: RangeJob, hypot: Complex -> real, c: nat, ch: nat, i: nat)
    requires var p, line := (c * job.channels + ch) * |job.window| + i, ch * job.chirps + c;
      p < |profile| && profile[p] == hypot(DftAt(CutLine(if line < |job.ifData| then job.ifData[line] else [], job.samples, job.window), job.w, i))
    ensures ProfileCellMeans(profile, job.ifData, job.chirps, job.samples, job.channels, job.window, job.w, hypot, c, ch, i)
  {
    hide CutLine, DftAt;
  }

  lemma ChirpsAreCut(job: DopplerJob, ch: nat, bin: nat)
    requires ValidDoppler(job) && ch < job.channels && bin < job.rangeSize
    ensures DopplerLine(job, ch, bin) == CutChirps(job.profile, job.chirps, job.channels, job.rangeSize, ch, bin, job.window)
  {
    hide Address, HalfTurn;
    forall c: nat | c < |job.window|
      ensures DopplerLine(job, ch, bin)[c] == CutChirps(job.profile, job.chirps, job.channels, job.rangeSize, ch, bin, job.window)[c]
    {
      ProfileIndex(c, ch, bin, job.channels, job.rangeSize, 0);
      if c < job.chirps { AddressBound(c, ch, bin, job.chirps, job.channels, job.rangeSize); }
    }
  }

  lemma DoneMatrixMeans(rd: seq<real>, job: DopplerJob, hypot: Complex -> real)
    requires MatrixDone(rd, job, hypot, job.rangeSize, 0)
    ensures MatrixMeans(rd, job.profile, job.chirps, job.channels, job.rangeSize, job.window, job.w, hypot)
  {
    hide Address, DftAt, DopplerLine, CutChirps, HalfTurn;
    forall k: nat, ch: nat, bin: nat | k < |job.window| && ch < job.channels && bin < job.rangeSize
      ensures MatrixCellMeans(rd, job.profile, job.chirps, job.channels, job.rangeSize, job.window, job.w, hypot, k, ch, bin)
    {
      assert CellIs(rd, job, hypot, k, ch, bin);
      ProfileIndex(k, ch, bin, job.channels, job.rangeSize, 0);
      ChirpsAreCut(job, ch, bin);
    }
  }

  /** The matrix the caller gets: with the shift, element i of an axis comes from half the axis further on, or back. */
  ghost predicate ShiftMeans(rd: seq<real>, unshifted: seq<real>, rows: nat, cols: nat, shifted: bool) {
    && |rd| == |unshifted|
    && (!shifted ==> rd == unshifted)
    && (shifted ==> forall d: nat, r: nat :: d < rows && r < cols ==> ShiftCellMeans(rd, unshifted, rows, cols, d, r))
  }

  ghost predicate ShiftCellMeans(rd: seq<real>, unshifted: seq<real>, rows: nat, cols: nat, d: nat, r: nat) {
    var e := if d < rows / 2 then d + rows / 2 else if d < 2 * (rows / 2) then d - rows / 2 else d;
    var s := if r < cols / 2 then r + cols / 2 else if r < 2 * (cols / 2) then r - cols / 2 else r;
    d * cols + r < |rd| && e * cols + s < |unshifted| && rd[d * cols + r] == unshifted[e * cols + s]
  }

  lemma ShiftedMeans(rd: seq<real>, unshifted: seq<real>, rows: nat, cols: nat)
    requires Shifted(rd, unshifted, rows, cols)
    ensures ShiftMeans(rd, unshifted, rows, cols, true)
  {
    ShiftedSize(rd, unshifted, rows, cols);
    forall d: nat, r: nat | d < rows && r < cols
      ensures ShiftCellMeans(rd, unshifted, rows, cols, d, r)
    {
      SwapTwice(d, rows);
      SwapTwice(r, cols);
      ShiftedAt(rd, unshifted, rows, cols, d, r);
      RowMajorBound(d, r, rows, cols);
      RowMajorBound(SwapHalf(d, rows), SwapHalf(r, cols), rows, cols);
    }
  }

  // ---------------------------------------------------------------- the frame method

  /** Both passes are done; rd is the second one's matrix, shifted when that is asked for and there is more than one row and column. */
  ghost predicate FrameDone(profile: seq<real>, unshifted: seq<real>, rd: seq<real>, job: RangeJob, djob: DopplerJob,
                            hypot: Complex -> real, enableShift: bool) {
    && ProfileDone(profile, job, hypot, job.chirps * job.channels)
    && MatrixDone(unshifted, djob, hypot, djob.rangeSize, 0)
    && (!Leaky(job) ==> PureProfile(profile, job, hypot))
    && (if enableShift && |job.window| > 1 && |djob.window| > 1 then Shifted(rd, unshifted, |djob.window|, |job.window|)
        else rd == unshifted)
  }

  /** What the frame processor leaves behind; picture is the d, r-indexed copy. */
  class FrameResult {
    var rangeProfile: array<real>
    var rdMatrix: array<real>
    var picture: array2<Complex>

    constructor (rangeProfile: array<real>, rdMatrix: array<real>, picture: array2<Complex>)
      ensures this.rangeProfile == rangeProfile && this.rdMatrix == rdMatrix && this.picture == picture
    {
      this.rangeProfile, this.rdMatrix, this.picture := rangeProfile, rdMatrix, picture;
    }

    /** Large enough for the transform sizes and the resolved dimensions. */
    predicate Holds(rangeBins: nat, dopplerBins: nat, d: Dims)
      reads this
    {
      && rangeProfile != rdMatrix
      && picture.Length0 >= dopplerBins && picture.Length1 >= rangeBins
      && (d.Dims? ==> d.chirps * d.channels * rangeBins <= rangeProfile.Length && dopplerBins * d.channels * rangeBins <= rdMatrix.Length)
    }

    ghost predicate PictureIs(rd: seq<real>, rangeBins: nat, dopplerBins: nat)
      reads this, picture
    {
      && picture.Length0 >= dopplerBins && picture.Length1 >= rangeBins && dopplerBins * rangeBins <= |rd|
      && forall d: nat, r: nat :: d < dopplerBins && r < rangeBins ==> picture[d, r] == Complex(Cell(rd, dopplerBins, rangeBins, d, r), 0.0)
    }

    method CopyPicture(rangeBins: nat, dopplerBins: nat)
      requires rdMatrix.Length >= dopplerBins * rangeBins && picture.Length0 >= dopplerBins && picture.Length1 >= rangeBins
      modifies picture
      ensures PictureIs(rdMatrix[..], rangeBins, dopplerBins)
    {
      for d := 0 to dopplerBins
        invariant forall e: nat, r: nat :: e < d && r < rangeBins ==> picture[e, r] == Complex(Cell(rdMatrix[..], dopplerBins, rangeBins, e, r), 0.0)
      {
        for r := 0 to rangeBins
          invariant forall e: nat, q: nat :: (e < d && q < rangeBins) || (e == d && q < r) ==>
                      picture[e, q] == Complex(Cell(rdMatrix[..], dopplerBins, rangeBins, e, q), 0.0)
        {
          AtBound(d, r, dopplerBins, rangeBins);
          picture[d, r] := Complex(rdMatrix[At(d, r, rangeBins)], 0.0);
        }
      }
    }

    /**
     The frame method. unshifted is the matrix before the shift; job and djob are the two passes
     whose results it holds.
     */
    method Process(ifData: seq<seq<int>>, rangeBins: nat, dopplerBins: nat, chirps: int, samples: int, channels: int,
                   windowName: string, enableShift: bool, unit: (nat, nat) -> Complex, shape: (WindowKind, nat) -> seq<real>,
                   hypot: Complex -> real)
      returns (d: Dims, ghost job: RangeJob, ghost djob: DopplerJob, ghost unshifted: seq<real>)
      requires UnitCircle(unit) && forall k: WindowKind, n: nat :: |shape(k, n)| == n
      requires (exists a: nat :: rangeBins == Pow2(a)) && (exists b: nat :: dopplerBins == Pow2(b))
      requires Holds(rangeBins, dopplerBins, ResolveDims(ifData, chirps, samples, channels))
      modifies rangeProfile, rdMatrix, picture
      ensures d == ResolveDims(ifData, chirps, samples, channels)
      ensures d.Panic? ==> unchanged(rangeProfile) && unchanged(rdMatrix) && unchanged(picture)
      ensures d.Dims? ==>
        && job == RangeJob(ifData, d.chirps, d.samples, d.channels, shape(FrameWindow(windowName), rangeBins), unit(1, rangeBins), job.levels)
        && djob == DopplerJob(rangeProfile[..], d.chirps, d.channels, rangeBins, shape(FrameWindow(windowName), dopplerBins), unit(1, dopplerBins), djob.levels)
      ensures d.Dims? ==> FrameDone(rangeProfile[..], unshifted, rdMatrix[..], job, djob, hypot, enableShift)
      ensures d.Dims? ==> PictureIs(rdMatrix[..], rangeBins, dopplerBins)
      ensures d.Panic? <==> (chirps <= 0 && channels == 0) || (samples <= 0 && |ifData| == 0)
      ensures d.Dims? && chirps > 0 ==> job.chirps == djob.chirps == chirps
      ensures d.Dims? && chirps <= 0 && channels > 0 ==> job.chirps == djob.chirps == if |ifData| >= channels then |ifData| / channels else 128
      ensures d.Dims? && chirps <= 0 && channels < 0 ==>
        job.chirps == djob.chirps == 128
      ensures d.Dims? ==> job.samples == if samples > 0 then samples else if |ifData[0]| > 0 then |ifData[0]| else 256
      ensures d.Dims? ==> job.channels == djob.channels == if channels > 0 then channels else 1
      ensures d.Dims? && !Leaky(job) ==>
        ProfileMeans(rangeProfile[..], ifData, job.chirps, job.samples, job.channels, shape(FrameWindow(windowName), rangeBins), unit(1, rangeBins), hypot)
      ensures d.Dims? ==>
        MatrixMeans(unshifted, rangeProfile[..], job.chirps, job.channels, rangeBins, shape(FrameWindow(windowName), dopplerBins), unit(1, dopplerBins), hypot)
      ensures d.Dims? ==> ShiftMeans(rdMatrix[..], unshifted, dopplerBins, rangeBins, enableShift && rangeBins > 1 && dopplerBins > 1)
    {
      hide ProfileMeans, MatrixMeans, ShiftMeans, MatrixCellMeans, ResolveDims, ProfileDone, MatrixDone, PureProfile, HalfTurn, Leaky, Shifted, UnitCircle, FrameWindow, PictureIs;
      d := ResolveDims(ifData, chirps, samples, channels);
      PanicsExactly(ifData, chirps, samples, channels);
      unshifted := [];
      job := RangeJob([], 0, 0, 0, [], ZERO, 0);
      djob := DopplerJob([], 0, 0, 0, [], ZERO, 0);
      if d.Panic? { return; }
      ResolvedDims(ifData, chirps, samples, channels);
      DimsAre(ifData, chirps, samples, channels);
      var kind := FrameWindow(windowName);
      var engine := new GoEngine(rangeBins, dopplerBins);
      var ready, rangeLevels, dopplerLevels := engine.Init(unit, (n: nat) => shape(kind, n));
      job := RangeJob(ifData, d.chirps, d.samples, d.channels, engine.rangeWindow, unit(1, rangeBins), rangeLevels);
      djob := engine.RangeDopplerFFT(ifData, rangeProfile, rdMatrix, d.chirps, d.samples, d.channels, hypot, job, unit(1, dopplerBins), dopplerLevels);
      unshifted := rdMatrix[..];
      DoneMatrixMeans(unshifted, djob, hypot);
      if !Leaky(job) { PureProfileMeans(rangeProfile[..], job, hypot); }
      RowsFit(dopplerBins, d.channels, rangeBins);
      NotShifted(unshifted, dopplerBins, rangeBins);
      if enableShift && rangeBins > 1 && dopplerBins > 1 {
        ShiftRowCopy(rdMatrix, dopplerBins, rangeBins);
        ShiftedMeans(rdMatrix[..], unshifted, dopplerBins, rangeBins);
      }
      CopyPicture(rangeBins, dopplerBins);
    }
  }

  lemma NotShifted(rd: seq<real>, rows: nat, cols: nat)
    ensures ShiftMeans(rd, rd, rows, cols, false)
  {}

  lemma RowsFit(rows: nat, channels: nat, cols: nat)
    requires channels > 0
    ensures rows * cols <= rows * channels * cols
  {
    ProductGrows(channels, rows);
    ProductMonotone(rows, rows * channels, cols);
  }
}
