/** Short sample lines: exactly which frames leak one line into the next through the shared work buffer. */
module StaleLines {
  import opened Complex
  import opened Dft
  import opened Matrix
  import opened RangeDoppler
  import opened SpectrumLaws

  // ---------------------------------------------------------------- the transform is one to one

  /** A twiddle base has a reciprocal, because half a turn of it is -1. */
  lemma Reciprocal(w: Complex, levels: nat) returns (v: Complex)
    requires levels > 0 && HalfTurn(w, levels)
    ensures Mul(w, v) == ONE
  {
    hide Mul;
    var h := Pow2(levels - 1);
    assert Pow(w, h) == Mul(Pow(w, h - 1), w);
    v := Mul(Pow(w, h - 1), MINUS_ONE);
    MulAssoc(w, Pow(w, h - 1), MINUS_ONE);
    MulComm(w, Pow(w, h - 1));
    assert Mul(MINUS_ONE, MINUS_ONE) == ONE by { SquareOfMinusOne(); }
  }

  lemma SquareOfMinusOne()
    ensures Mul(MINUS_ONE, MINUS_ONE) == ONE
  {}

  lemma ScaleOneToOne(r: real, a: Complex, b: Complex)
    requires r > 0.0 && Scale(r, a) == Scale(r, b)
    ensures a == b
  {
    SameFactor(r, a.re, b.re);
    SameFactor(r, a.im, b.im);
  }

  lemma SameFactor(r: real, x: real, y: real)
    requires r > 0.0 && r * x == r * y
    ensures x == y
  {
    assert x == r * x / r && y == r * y / r;
  }

  /** Signals with the same spectrum are the same. */
  lemma SpectrumOneToOne(x: seq<Complex>, y: seq<Complex>, w: Complex, levels: nat)
    requires |x| == |y| == Pow2(levels) && HalfTurn(w, levels)
    requires forall k: nat :: k < |x| ==> DftAt(x, w, k) == DftAt(y, w, k)
    ensures x == y
  {
    hide DftAt, HalfTurn, Scale, Mul;
    if levels == 0 {
      SingleBin(x, w);
      SingleBin(y, w);
    } else {
      var v := Reciprocal(w, levels);
      assert Spectrum(x, w) == Spectrum(y, w);
      forall l: nat | l < |x|
        ensures x[l] == y[l]
      {
        Inversion(x, w, v, levels, l);
        Inversion(y, w, v, levels, l);
        ScaleOneToOne(Pow2(levels) as real, x[l], y[l]);
      }
    }
  }

  // ---------------------------------------------------------------- a frame with one sample

  /** A line that is zero but for the value a at position j. */
  ghost predicate OneSample(v: seq<Complex>, j: nat, a: Complex) {
    j < |v| && forall i: nat :: i < |v| ==> v[i] == if i == j then a else ZERO
  }

  lemma OneSampleBin(v: seq<Complex>, j: nat, a: Complex, w: Complex, k: nat)
    requires OneSample(v, j, a)
    ensures DftAt(v, w, k) == Mul(a, Twiddle(w, j, k))
  {
    hide Mul, Twiddle;
    forall i: nat | i < |v|
      ensures Term(v, w, k)(i) == if i == j then Mul(a, Twiddle(w, j, k)) else ZERO
    {
      MulComm(ZERO, Twiddle(w, i, k));
      MulUnits(Twiddle(w, i, k));
    }
    SumOfOne(Term(v, w, k), j, |v|);
  }

  /** A power of a twiddle base times anything but zero is not zero. */
  lemma TwiddleKeepsNonZero(a: Complex, w: Complex, levels: nat, j: nat, k: nat)
    requires HalfTurn(w, levels) && a != ZERO && j < Pow2(levels) && k < Pow2(levels)
    ensures Mul(a, Twiddle(w, j, k)) != ZERO
  {
    hide Mul, HalfTurn;
    if levels == 0 {
      assert j * k == 0;
      MulComm(a, ONE);
      MulUnits(a);
    } else {
      var v := Reciprocal(w, levels);
      PowInverse(w, v, j * k);
      MulAssoc(a, Pow(w, j * k), Pow(v, j * k));
      MulComm(a, ONE);
      MulUnits(a);
      MulComm(ZERO, Pow(v, j * k));
      MulUnits(Pow(v, j * k));
    }
  }

  /** The frame of the same shape in which only sample j of one line is other than zero. */
  function OneSound(ifData: seq<seq<int>>, line: nat, j: nat): (d: seq<seq<int>>)
    ensures |d| == |ifData|
    ensures forall l: nat :: l < |d| ==> |d[l]| == |ifData[l]|
  {
    seq(|ifData|, (l: nat) requires l < |ifData| =>
      seq(|ifData[l]|, (i: nat) => if l == line && i == j then 1 else 0))
  }

  lemma SilentLine(job: RangeJob, line: nat)
    requires line < |job.ifData| ==> forall i: nat :: i < |job.ifData[line]| ==> job.ifData[line][i] == 0
    ensures Natural(job, line, Silence(|job.window|)) == Silence(|job.window|)
  {
    var v := Natural(job, line, Silence(|job.window|));
    forall i: nat | i < |job.window|
      ensures v[i] == ZERO
    {
      if line < |job.ifData| && i < job.samples && i < |job.ifData[line]| { assert 0 as real * job.window[i] == 0.0; }
    }
  }

  lemma SoundLine(job: RangeJob, line: nat, j: nat)
    requires line < |job.ifData| && j < |job.ifData[line]| && j < job.samples && j < |job.window|
    requires forall i: nat :: i < |job.ifData[line]| ==> job.ifData[line][i] == if i == j then 1 else 0
    ensures OneSample(Natural(job, line, Silence(|job.window|)), j, Complex(job.window[j], 0.0))
  {
    var v := Natural(job, line, Silence(|job.window|));
    forall i: nat | i < |job.window|
      ensures v[i] == if i == j then Complex(job.window[j], 0.0) else ZERO
    {
      if i < job.samples && i < |job.ifData[line]| {
        assert 0 as real * job.window[i] == 0.0;
        assert 1 as real * job.window[j] == job.window[j];
      }
    }
  }

  /** Different steps visit different lines. */
  lemma VisitsOnce(job: RangeJob, s: nat, t: nat)
    requires s < t < job.chirps * job.channels
    ensures VisitedLine(job, s) != VisitedLine(job, t)
  {
    hide At;
    AddressParts(s, job.chirps, job.channels);
    AddressParts(t, job.chirps, job.channels);
    if VisitedLine(job, s) == VisitedLine(job, t) {
      SameAddress(s % job.channels, s / job.channels, t % job.channels, t / job.channels, job.chirps);
    }
  }

  lemma AddressParts(t: nat, chirps: nat, channels: nat)
    requires t < chirps * channels
    ensures channels > 0 && t / channels < chirps && t == At(t / channels, t % channels, channels)
  {
    var i, j := CellAt(t, chirps, channels);
    AtSplit(i, j, channels);
  }

  lemma SilentNext(job: RangeJob, t: nat)
    requires ValidJob(job) && Buffer(job, t) == Silence(|job.window|) && SilentAt(job, VisitedLine(job, t))
    ensures Buffer(job, t + 1) == Silence(|job.window|)
  {
    hide Buffer, VisitedLine, HalfTurn, Natural, Silence, Unscatter, AfterLine, SilentAt;
    BufferAfter(job, t);
    SilentUnscatter(job.levels);
    SilentIsZero(job, VisitedLine(job, t));
    SilentStep(job, VisitedLine(job, t), Buffer(job, t));
  }

  /** Until the one line that sounds, the buffer stays zero. */
  lemma {:induction false} SilentUntil(job: RangeJob, t: nat)
    requires ValidJob(job) && forall s: nat :: s < t ==> SilentAt(job, VisitedLine(job, s))
    ensures Buffer(job, t) == Silence(|job.window|)
  {
    hide *;
    if t == 0 {
      FreshBuffer(job);
    } else {
      SilentUntil(job, t - 1);
      SilentNext(job, t - 1);
    }
  }

  ghost predicate SilentAt(job: RangeJob, line: nat) {
    line < |job.ifData| ==> forall i: nat :: i < |job.ifData[line]| ==> job.ifData[line][i] == 0
  }

  lemma SilentIsZero(job: RangeJob, line: nat)
    requires SilentAt(job, line)
    ensures Natural(job, line, Silence(|job.window|)) == Silence(|job.window|)
  {
    SilentLine(job, line);
  }

  ghost predicate NoZeroCell(b: seq<Complex>) { forall k: nat :: k < |b| ==> b[k] != ZERO }

  /** After the line that sounds no cell of the buffer is zero. */
  lemma SoundEverywhere(job: RangeJob, t: nat, j: nat)
    requires ValidJob(job) && Buffer(job, t) == Silence(|job.window|)
    requires var line := VisitedLine(job, t);
      && line < |job.ifData| && j < |job.ifData[line]| && j < job.samples && j < |job.window| && job.window[j] != 0.0
      && forall i: nat :: i < |job.ifData[line]| ==> job.ifData[line][i] == if i == j then 1 else 0
    ensures NoZeroCell(Buffer(job, t + 1))
  {
    hide Buffer, VisitedLine, HalfTurn, Natural, Silence, Unscatter, Network, BitReversed, DftAt, OneSample, Twiddle, Mul;
    var line := VisitedLine(job, t);
    var v, a := Natural(job, line, Silence(|job.window|)), Complex(job.window[j], 0.0);
    BufferAfter(job, t);
    SilentUnscatter(job.levels);
    SoundLine(job, line, j);
    var b := Buffer(job, t + 1);
    forall k: nat | k < |b|
      ensures b[k] != ZERO
    {
      NetworkIsDft(v, job.w, job.levels, k);
      OneSampleBin(v, j, a, job.w, k);
      TwiddleKeepsNonZero(a, job.w, job.levels, j, k);
    }
  }

  /** A short line over a buffer without a zero cell is not transformed from its own samples alone. */
  lemma ShortStepLeaks(job: RangeJob, t: nat)
    requires ValidJob(job) && ShortLine(job, VisitedLine(job, t))
    requires NoZeroCell(Buffer(job, t))
    ensures !StepPure(job, t)
  {
    hide Buffer, VisitedLine, HalfTurn, Network, BitReversed, DftAt;
    var line := VisitedLine(job, t);
    var stale := Unscatter(Buffer(job, t), job.levels);
    var loaded, pure := Natural(job, line, stale), PureLine(job, line);
    BufferAfter(job, t);
    var i := |job.ifData[line]|;
    assert loaded[i] == stale[i] != ZERO && pure[i] == ZERO;
    if StepPure(job, t) {
      forall k: nat | k < |job.window|
        ensures DftAt(loaded, job.w, k) == DftAt(pure, job.w, k)
      {
        NetworkIsDft(loaded, job.w, job.levels, k);
        assert Buffer(job, t + 1)[k] == DftAt(pure, job.w, k);
      }
      SpectrumOneToOne(loaded, pure, job.w, job.levels);
    }
  }

  lemma SoundLeaks(job: RangeJob, t: nat, j: nat)
    requires ValidJob(job) && 0 < t < job.chirps * job.channels && ShortLine(job, VisitedLine(job, t))
    requires var line := VisitedLine(job, t - 1);
      && line < |job.ifData| && j < |job.ifData[line]| && j < job.samples && j < |job.window| && job.window[j] != 0.0
      && job.ifData == OneSound(job.ifData, line, j)
    ensures !FramePure(job)
  {
    hide Buffer, HalfTurn, VisitedLine, ShortLine, StepPure, NoZeroCell, Silence;
    forall s: nat | s < t - 1
      ensures SilentAt(job, VisitedLine(job, s))
    {
      VisitsOnce(job, s, t - 1);
    }
    SilentUntil(job, t - 1);
    SoundEverywhere(job, t - 1, j);
    ShortStepLeaks(job, t);
  }

  lemma SoundTwice(ifData: seq<seq<int>>, line: nat, j: nat)
    ensures OneSound(OneSound(ifData, line, j), line, j) == OneSound(ifData, line, j)
  {}

  /** A leaky shape has a frame that leaks. */
  lemma LeakyFrame(job: RangeJob) returns (d: seq<seq<int>>)
    requires ValidJob(job) && Leaky(job)
    ensures SameShape(d, job.ifData) && !FramePure(job.(ifData := d))
  {
    hide Buffer, HalfTurn, VisitedLine, ShortLine, FramePure, OneSound;
    var t: nat :| t < job.chirps * job.channels && LeaksAt(job, t);
    var line := VisitedLine(job, t - 1);
    var j: nat :| j < |job.ifData[line]| && j < job.samples && j < |job.window| && job.window[j] != 0.0;
    d := OneSound(job.ifData, line, j);
    SoundTwice(job.ifData, line, j);
    SameVisits(job, d);
    SameShort(job, d, VisitedLine(job, t));
    SoundLeaks(job.(ifData := d), t, j);
  }

  /** d has as many lines as e, of the same lengths. */
  ghost predicate SameShape(d: seq<seq<int>>, e: seq<seq<int>>) {
    |d| == |e| && forall l: nat :: l < |d| ==> |d[l]| == |e[l]|
  }

  lemma SameVisits(job: RangeJob, d: seq<seq<int>>)
    ensures forall s: nat :: VisitedLine(job.(ifData := d), s) == VisitedLine(job, s)
  {}

  lemma SameShort(job: RangeJob, d: seq<seq<int>>, line: nat)
    requires SameShape(d, job.ifData)
    ensures ShortLine(job.(ifData := d), line) <==> ShortLine(job, line)
    ensures Loud(job.(ifData := d), line) <==> Loud(job, line)
  {}

  lemma SameLeaks(job: RangeJob, d: seq<seq<int>>)
    requires SameShape(d, job.ifData)
    ensures Leaky(job.(ifData := d)) <==> Leaky(job)
  {
    hide VisitedLine, ShortLine, Loud, SameShape;
    var other := job.(ifData := d);
    SameVisits(job, d);
    forall t: nat
      ensures LeaksAt(other, t) <==> LeaksAt(job, t)
    {
      SameShort(job, d, VisitedLine(job, t));
      if t > 0 { SameShort(job, d, VisitedLine(job, t - 1)); }
    }
  }

  /**
   For all sample values of a frame with these line lengths every line is transformed from its own samples
   alone when, and only when, no line that is visited after the first is short behind a line that the window
   lets through.
   */
  lemma FramePureExactly(job: RangeJob)
    requires ValidJob(job)
    ensures (forall d: seq<seq<int>> :: SameShape(d, job.ifData) ==> FramePure(job.(ifData := d))) <==> !Leaky(job)
  {
    hide FramePure, Leaky, SameShape, HalfTurn;
    if Leaky(job) {
      var d := LeakyFrame(job);
    } else {
      forall d: seq<seq<int>> | SameShape(d, job.ifData)
        ensures FramePure(job.(ifData := d))
      {
        SameLeaks(job, d);
        NotLeakyIsPure(job.(ifData := d));
      }
    }
  }

  lemma OnePointStep(job: RangeJob, t: nat)
    requires ValidJob(job) && job.levels == 0
    ensures Buffer(job, t + 1) == Natural(job, VisitedLine(job, t), Buffer(job, t))
  {
    hide Natural, Buffer, VisitedLine;
    BufferAfter(job, t);
    OnePoint(Buffer(job, t), job.w);
    OnePoint(Natural(job, VisitedLine(job, t), Buffer(job, t)), job.w);
  }

  lemma OnePoint(x: seq<Complex>, w: Complex)
    requires |x| == Pow2(0)
    ensures Unscatter(x, 0) == x && Network(BitReversed(x, 0), w, 0) == x
  {}

  /** Two chirps of one channel, the second without samples. */
  function TwoChirps(sample: int, w: Complex): (job: RangeJob) {
    RangeJob([[sample], []], 2, 1, 1, [1.0], w, 0)
  }

  lemma TwoChirpsValid(sample: int, w: Complex)
    ensures ValidJob(TwoChirps(sample, w)) && TwoChirps(sample, w).levels == 0
    ensures VisitedLine(TwoChirps(sample, w), 0) == 0 && VisitedLine(TwoChirps(sample, w), 1) == 1
    ensures |TwoChirps(sample, w).window| == 1
  {}

  lemma TwoChirpsLoads(sample: int, w: Complex, stale: seq<Complex>)
    requires |stale| == 1
    ensures Natural(TwoChirps(sample, w), 0, stale) == [Complex(sample as real, 0.0)]
    ensures Natural(TwoChirps(sample, w), 1, stale) == stale
  {
    assert sample as real * 1.0 == sample as real;
  }

  /** The empty second line comes out as a copy of the first, and not as zero. */
  lemma EmptyLineLeaks(sample: int, w: Complex)
    ensures var job := TwoChirps(sample, w);
      && ValidJob(job) && |job.window| == 1
      && Buffer(job, 2)[0] == Complex(sample as real, 0.0)
      && DftAt(PureLine(job, VisitedLine(job, 1)), job.w, 0) == ZERO
  {
    hide *;
    var job := TwoChirps(sample, w);
    TwoChirpsValid(sample, w);
    OnePointStep(job, 0);
    OnePointStep(job, 1);
    TwoChirpsLoads(sample, w, Buffer(job, 0));
    TwoChirpsLoads(sample, w, Buffer(job, 1));
    EmptyIsSilent(sample, w);
    SingleBin(PureLine(job, 1), w);
    BaseOf(sample, w);
  }

  lemma EmptyIsSilent(sample: int, w: Complex)
    ensures PureLine(TwoChirps(sample, w), 1) == [ZERO]
  {}

  lemma BaseOf(sample: int, w: Complex)
    ensures TwoChirps(sample, w).w == w
  {}
}
