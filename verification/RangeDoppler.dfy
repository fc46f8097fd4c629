/** The range-Doppler transform: one reused work buffer, one FFT per line, magnitudes scattered into flat matrices. */
module RangeDoppler {
  import opened Complex
  import opened Dft
  import opened BitReverse
  import opened Ints
  import opened Matrix
  import opened GoFft
  import opened Bits

  // ---------------------------------------------------------------- scattering a line

  /** now is prev with values[i] stored at every bit-reversed index of i in [lo, hi). */
  ghost predicate Scattered(now: seq<Complex>, prev: seq<Complex>, values: seq<Complex>, lo: nat, hi: nat, levels: nat) {
    && |now| == |prev| == |values| == Pow2(levels)
    && forall p: nat :: p < |now| ==>
         now[p] == if lo <= Rev(p, levels) < hi then values[Rev(p, levels)] else prev[p]
  }

  lemma NothingScattered(prev: seq<Complex>, values: seq<Complex>, lo: nat, levels: nat)
    requires |prev| == |values| == Pow2(levels)
    ensures Scattered(prev, prev, values, lo, lo, levels)
  {}

  lemma ScatterStep(next: seq<Complex>, now: seq<Complex>, prev: seq<Complex>, values: seq<Complex>, lo: nat, i: nat, levels: nat)
    requires lo <= i < |values| && Scattered(now, prev, values, lo, i, levels)
    requires next == now[Rev(i, levels) := values[i]]
    ensures Scattered(next, prev, values, lo, i + 1, levels)
  {
    hide Rev, Pow2;
    var at := Rev(i, levels);
    RevInvolution(i, levels);
    forall p: nat | p < |now|
      ensures next[p] == if lo <= Rev(p, levels) < i + 1 then values[Rev(p, levels)] else prev[p]
    {
      if p != at {
        RevInvolution(p, levels);
        assert Rev(p, levels) != i && next[p] == now[p];
      }
    }
  }

  /** Zeroes the bit-reversed cells of the indices from lo to n; nothing when lo is past n. */
  method ZeroFrom(buf: array<Complex>, n: nat, bitReverse: seq<nat>, lo: nat, ghost values: seq<Complex>, ghost levels: nat)
    requires n == Pow2(levels) == |bitReverse| == |values| && n <= buf.Length
    requires forall i: nat :: i < n ==> bitReverse[i] == Rev(i, levels)
    requires forall i: nat :: lo <= i < n ==> values[i] == ZERO
    modifies buf
    ensures Scattered(buf[..n], old(buf[..n]), values, lo, if lo < n then n else lo, levels)
  {
    hide Rev, Scattered;
    ghost var prev := buf[..n];
    NothingScattered(prev, values, lo, levels);
    var i := lo;
    while i < n
      invariant lo <= i && (lo < n ==> i <= n) && (lo >= n ==> i == lo)
      invariant Scattered(buf[..n], prev, values, lo, i, levels)
    {
      ghost var now := buf[..n];
      buf[bitReverse[i]] := ZERO;
      ScatterStep(buf[..n], now, prev, values, lo, i, levels);
      i := i + 1;
    }
  }

  // ---------------------------------------------------------------- the range pass

  /** One frame's range transform: the samples, the loop bounds, the window and the twiddle base. */
  datatype RangeJob = RangeJob(ifData: seq<seq<int>>, chirps: nat, samples: nat, channels: nat,
                               window: seq<real>, w: Complex, levels: nat)

  ghost predicate ValidJob(job: RangeJob) {
    |job.window| == Pow2(job.levels) && HalfTurn(job.w, job.levels)
  }

  /** The sample line behind chirp and channel. */
  function LineOf(job: RangeJob, chirp: nat, ch: nat): nat { At(ch, chirp, job.chirps) }

  function Windowed(job: RangeJob, line: nat, i: nat): Complex
    requires line < |job.ifData| && i < |job.ifData[line]| && i < |job.window|
  {
    Complex(job.ifData[line][i] as real * job.window[i], 0.0)
  }

  /** The line in natural order as the loading loops see it; `stale` fills what they never write. */
  function Natural(job: RangeJob, line: nat, stale: seq<Complex>): (v: seq<Complex>)
    requires |stale| == |job.window|
    ensures |v| == |stale|
  {
    seq(|stale|, (i: nat) requires i < |stale| =>
      if line >= |job.ifData| || job.samples <= i then ZERO
      else if i < |job.ifData[line]| then Windowed(job, line, i)
      else stale[i])
  }

  /** A present line that is shorter than the samples the transform reads. */
  predicate ShortLine(job: RangeJob, line: nat) {
    line < |job.ifData| && |job.ifData[line]| < job.samples && |job.ifData[line]| < |job.window|
  }

  /** The zero-padded, windowed line, of its own samples alone. */
  function PureLine(job: RangeJob, line: nat): (v: seq<Complex>)
    ensures |v| == |job.window|
  {
    Natural(job, line, seq(|job.window|, (i: nat) => ZERO))
  }

  /** What one load puts into the buffer does not depend on what was there exactly when the line is not short. */
  lemma StaleExactly(job: RangeJob, line: nat)
    ensures (forall stale: seq<Complex> :: |stale| == |job.window| ==> Natural(job, line, stale) == PureLine(job, line))
       <==> !ShortLine(job, line)
  {
    if ShortLine(job, line) {
      var i := |job.ifData[line]|;
      var ones := seq(|job.window|, (i: nat) => ONE);
      assert Natural(job, line, ones)[i] == ONE && PureLine(job, line)[i] == ZERO;
    }
  }

  ghost function Unscatter(buf: seq<Complex>, levels: nat): (v: seq<Complex>)
    requires |buf| == Pow2(levels)
    ensures |v| == |buf| && forall i: nat :: i < |v| ==> v[i] == buf[Rev(i, levels)]
  {
    seq(|buf|, (i: nat) requires i < |buf| => buf[Rev(i, levels)])
  }

  /** The work buffer after the first t lines, in the order the loops visit them. */
  ghost function Buffer(job: RangeJob, t: nat): (b: seq<Complex>)
    requires ValidJob(job)
    ensures |b| == |job.window|
  {
    if t == 0 then seq(|job.window|, (i: nat) => ZERO) else
      AfterLine(job, VisitedLine(job, t - 1), Buffer(job, t - 1))
  }

  /** The sample line that is loaded in step t; without channels no step is ever reached. */
  function VisitedLine(job: RangeJob, t: nat): nat {
    if job.channels == 0 then 0 else LineOf(job, t / job.channels, t % job.channels)
  }

  /** Loading a line over what the buffer holds, then transforming it. */
  ghost function AfterLine(job: RangeJob, line: nat, prev: seq<Complex>): (b: seq<Complex>)
    requires ValidJob(job) && |prev| == |job.window|
    ensures |b| == |job.window|
  {
    hide Network, BitReversed, HalfTurn;
    Network(BitReversed(Natural(job, line, Unscatter(prev, job.levels)), job.levels), job.w, job.levels)
  }

  /** A line that is not short is transformed to the DFT of its own samples, whatever was processed before it. */
  lemma LinesAreIndependent(job: RangeJob, chirp: nat, ch: nat, k: nat)
    requires ValidJob(job) && ch < job.channels && k < |job.window|
    requires !ShortLine(job, LineOf(job, chirp, ch))
    ensures Buffer(job, At(chirp, ch, job.channels) + 1)[k] == DftAt(PureLine(job, LineOf(job, chirp, ch)), job.w, k)
  {
    hide Network, BitReversed, Natural, ShortLine, HalfTurn, LineOf, At;
    var t := At(chirp, ch, job.channels);
    AtSplit(chirp, ch, job.channels);
    var line := LineOf(job, chirp, ch);
    StaleExactly(job, line);
    var stale := Unscatter(Buffer(job, t), job.levels);
    assert Natural(job, line, stale) == PureLine(job, line);
    NetworkIsDft(PureLine(job, line), job.w, job.levels, k);
  }

  // ---------------------------------------------------------------- whole frames without a leak

  /** Some samples make this line other than zero after windowing. */
  ghost predicate Loud(job: RangeJob, line: nat) {
    line < |job.ifData| && exists i: nat :: i < |job.ifData[line]| && i < job.samples && i < |job.window| && job.window[i] != 0.0
  }

  /** Step t loads a short line over the transform of a line that can be other than zero. */
  ghost predicate LeaksAt(job: RangeJob, t: nat) {
    t > 0 && ShortLine(job, VisitedLine(job, t)) && Loud(job, VisitedLine(job, t - 1))
  }

  /** Whether a frame can leak: a condition on the lengths of its lines, the window and the loop bounds alone. */
  ghost predicate Leaky(job: RangeJob) {
    exists t: nat :: t < job.chirps * job.channels && LeaksAt(job, t)
  }

  /** After step t the buffer is the DFT of the line of that step alone. */
  ghost predicate StepPure(job: RangeJob, t: nat)
    requires ValidJob(job)
  {
    forall k: nat :: k < |job.window| ==> Buffer(job, t + 1)[k] == DftAt(PureLine(job, VisitedLine(job, t)), job.w, k)
  }

  ghost predicate FramePure(job: RangeJob)
    requires ValidJob(job)
  {
    forall t: nat :: t < job.chirps * job.channels ==> StepPure(job, t)
  }

  function Silence(n: nat): (z: seq<Complex>)
    ensures |z| == n && forall i: nat :: i < n ==> z[i] == ZERO
  {
    seq(n, (i: nat) => ZERO)
  }

  lemma {:induction false} SumOfNothing(f: nat -> Complex, n: nat)
    requires forall j: nat :: j < n ==> f(j) == ZERO
    ensures Sum(f, n) == ZERO
  {
    if n > 0 { SumOfNothing(f, n - 1); }
  }

  lemma SilentSpectrum(w: Complex, n: nat, k: nat)
    ensures DftAt(Silence(n), w, k) == ZERO
  {
    hide Mul, Twiddle;
    var x := Silence(n);
    forall j: nat | j < n
      ensures Term(x, w, k)(j) == ZERO
    {
      MulComm(ZERO, Twiddle(w, j, k));
      MulUnits(Twiddle(w, j, k));
    }
    SumOfNothing(Term(x, w, k), n);
  }

  /** A step that loads nothing but zeros leaves nothing but zeros. */
  lemma SilentStep(job: RangeJob, line: nat, prev: seq<Complex>)
    requires ValidJob(job) && |prev| == |job.window|
    requires Natural(job, line, Unscatter(prev, job.levels)) == Silence(|job.window|)
    ensures AfterLine(job, line, prev) == Silence(|job.window|)
  {
    hide Network, BitReversed, HalfTurn, Natural, DftAt, Silence;
    var n := |job.window|;
    forall k: nat | k < n
      ensures AfterLine(job, line, prev)[k] == Silence(n)[k]
    {
      NetworkIsDft(Silence(n), job.w, job.levels, k);
      SilentSpectrum(job.w, n, k);
    }
  }

  lemma BufferAfter(job: RangeJob, t: nat)
    requires ValidJob(job)
    ensures Buffer(job, t + 1) == AfterLine(job, VisitedLine(job, t), Buffer(job, t))
  {
    hide AfterLine, VisitedLine, HalfTurn;
  }

  lemma SilentUnscatter(levels: nat)
    ensures Unscatter(Silence(Pow2(levels)), levels) == Silence(Pow2(levels))
  {
    hide Rev;
  }

  lemma QuietLine(job: RangeJob, line: nat)
    requires !Loud(job, line)
    ensures Natural(job, line, Silence(|job.window|)) == Silence(|job.window|)
  {
    var v := Natural(job, line, Silence(|job.window|));
    forall i: nat | i < |job.window|
      ensures v[i] == ZERO
    {
      if line < |job.ifData| && i < job.samples && i < |job.ifData[line]| { NoSound(job.ifData[line][i] as real); }
    }
  }

  lemma NoSound(s: real)
    ensures s * 0.0 == 0.0
  {}

  lemma StaleLine(job: RangeJob, line: nat, stale: seq<Complex>)
    requires |stale| == |job.window| && (!ShortLine(job, line) || stale == Silence(|job.window|))
    ensures Natural(job, line, stale) == PureLine(job, line)
  {
    if ShortLine(job, line) {
      assert Silence(|job.window|) == seq(|job.window|, (i: nat) => ZERO);
    } else {
      StaleExactly(job, line);
    }
  }

  /** A quiet line over a zero buffer, or over any buffer when it is not short, leaves the buffer zero. */
  lemma QuietStep(job: RangeJob, t: nat)
    requires ValidJob(job) && !Loud(job, VisitedLine(job, t))
    requires ShortLine(job, VisitedLine(job, t)) ==> Buffer(job, t) == Silence(|job.window|)
    ensures Buffer(job, t + 1) == Silence(|job.window|)
  {
    hide Buffer, AfterLine, VisitedLine, HalfTurn, Natural, ShortLine, Loud, Unscatter, PureLine, Silence;
    var line := VisitedLine(job, t);
    BufferAfter(job, t);
    SilentUnscatter(job.levels);
    QuietLine(job, line);
    StaleLine(job, line, Unscatter(Buffer(job, t), job.levels));
    StaleLine(job, line, Silence(|job.window|));
    SilentStep(job, line, Buffer(job, t));
  }

  lemma PureStep(job: RangeJob, t: nat)
    requires ValidJob(job)
    requires ShortLine(job, VisitedLine(job, t)) ==> Buffer(job, t) == Silence(|job.window|)
    ensures StepPure(job, t)
  {
    hide Buffer, VisitedLine, HalfTurn, Natural, ShortLine, Unscatter, PureLine, Silence, Network, BitReversed, DftAt;
    var line := VisitedLine(job, t);
    BufferAfter(job, t);
    SilentUnscatter(job.levels);
    StaleLine(job, line, Unscatter(Buffer(job, t), job.levels));
    forall k: nat | k < |job.window|
      ensures Buffer(job, t + 1)[k] == DftAt(PureLine(job, line), job.w, k)
    {
      NetworkIsDft(PureLine(job, line), job.w, job.levels, k);
    }
  }

  lemma NoLeakAt(job: RangeJob, t: nat)
    requires !Leaky(job) && 0 < t < job.chirps * job.channels && ShortLine(job, VisitedLine(job, t))
    ensures !Loud(job, VisitedLine(job, t - 1))
  {
    hide VisitedLine, ShortLine, Loud;
    assert !LeaksAt(job, t);
  }

  lemma FreshBuffer(job: RangeJob)
    requires ValidJob(job)
    ensures Buffer(job, 0) == Silence(|job.window|)
  {}

  /** In a frame that is not leaky, a line that is never other than zero leaves the buffer zero. */
  lemma {:induction false} QuietBuffer(job: RangeJob, t: nat)
    requires ValidJob(job) && !Leaky(job) && t < job.chirps * job.channels && !Loud(job, VisitedLine(job, t))
    ensures Buffer(job, t + 1) == Silence(|job.window|)
  {
    hide *;
    FreshBuffer(job);
    if t > 0 && ShortLine(job, VisitedLine(job, t)) {
      NoLeakAt(job, t);
      QuietBuffer(job, t - 1);
    }
    QuietStep(job, t);
  }

  /** A frame that is not leaky is transformed line by line. */
  lemma NotLeakyIsPure(job: RangeJob)
    requires ValidJob(job) && !Leaky(job)
    ensures FramePure(job)
  {
    hide Buffer, VisitedLine, HalfTurn, ShortLine, Loud, StepPure, Leaky;
    FreshBuffer(job);
    forall t: nat | t < job.chirps * job.channels
      ensures StepPure(job, t)
    {
      if t > 0 && ShortLine(job, VisitedLine(job, t)) {
        NoLeakAt(job, t);
        QuietBuffer(job, t - 1);
      }
      PureStep(job, t);
    }
  }

  lemma LoadedIsBitReversed(now: seq<Complex>, prev: seq<Complex>, values: seq<Complex>, levels: nat)
    requires |now| == |prev| == |values| == Pow2(levels)
    requires forall p: nat :: p < |now| ==> now[p] == values[Rev(p, levels)]
    ensures now == BitReversed(values, levels)
  {
    hide Rev, BitReversed;
    forall i: nat | i < |values|
      ensures now[Rev(i, levels)] == values[i]
    {
      RevInvolution(i, levels);
    }
    ScatteredIsBitReversed(values, now, levels);
  }

  lemma LineLoaded(now: seq<Complex>, mid: seq<Complex>, prev: seq<Complex>, job: RangeJob, line: nat, m: nat, z: nat)
    requires ValidJob(job) && |prev| == |job.window|
    requires var values := Natural(job, line, Unscatter(prev, job.levels));
      Scattered(mid, prev, values, 0, m, job.levels) && Scattered(now, mid, values, z, if z < |prev| then |prev| else z, job.levels)
    requires if line >= |job.ifData| then m == 0 == z
             else z == job.samples && m <= |prev| && m <= z && m <= |job.ifData[line]| && (m == |prev| || m == z || m == |job.ifData[line]|)
    ensures now == BitReversed(Natural(job, line, Unscatter(prev, job.levels)), job.levels)
  {
    hide Rev, Pow2, BitReversed, Windowed, HalfTurn;
    var stale := Unscatter(prev, job.levels);
    var values := Natural(job, line, stale);
    forall p: nat | p < |now|
      ensures now[p] == values[Rev(p, job.levels)]
    {
      RevInvolution(p, job.levels);
      assert stale[Rev(p, job.levels)] == prev[p];
    }
    LoadedIsBitReversed(now, prev, values, job.levels);
  }

  // ---------------------------------------------------------------- the Doppler pass

  /** The second pass: the profile it reads, the loop bounds, the window and the twiddle base. */
  datatype DopplerJob = DopplerJob(profile: seq<real>, chirps: nat, channels: nat, rangeSize: nat,
                                   window: seq<real>, w: Complex, levels: nat)

  ghost predicate ValidDoppler(job: DopplerJob) {
    && |job.window| == Pow2(job.levels) && HalfTurn(job.w, job.levels)
    && job.chirps * job.channels * job.rangeSize <= |job.profile|
  }

  /** The address of chirp (or Doppler bin) k, channel ch, range bin `bin`. */
  function Address(k: nat, ch: nat, bin: nat, channels: nat, rangeSize: nat): nat {
    At(At(k, ch, channels), bin, rangeSize)
  }

  lemma AddressBound(k: nat, ch: nat, bin: nat, chirps: nat, channels: nat, rangeSize: nat)
    requires k < chirps && ch < channels && bin < rangeSize
    ensures Address(k, ch, bin, channels, rangeSize) < chirps * channels * rangeSize
  {
    AtBound(k, ch, chirps, channels);
    AtBound(At(k, ch, channels), bin, chirps * channels, rangeSize);
  }

  /** The outputs are written to distinct cells. */
  lemma AddressInjective(k: nat, ch: nat, bin: nat, k': nat, ch': nat, bin': nat, channels: nat, rangeSize: nat)
    requires ch < channels && ch' < channels && bin < rangeSize && bin' < rangeSize
    requires Address(k, ch, bin, channels, rangeSize) == Address(k', ch', bin', channels, rangeSize)
    ensures k == k' && ch == ch' && bin == bin'
  {
    SameAddress(At(k, ch, channels), bin, At(k', ch', channels), bin', rangeSize);
    SameAddress(k, ch, k', ch', channels);
  }

  /** Every cell of the output is written. */
  lemma AddressCovers(p: nat, dopplerSize: nat, channels: nat, rangeSize: nat) returns (k: nat, ch: nat, bin: nat)
    requires p < dopplerSize * channels * rangeSize
    ensures k < dopplerSize && ch < channels && bin < rangeSize && p == Address(k, ch, bin, channels, rangeSize)
  {
    AddressSplit(p, dopplerSize * channels, rangeSize);
    AddressSplit(p / rangeSize, dopplerSize, channels);
    k, ch, bin := p / rangeSize / channels, p / rangeSize % channels, p % rangeSize;
  }

  /** Slow-time samples of one channel and range bin: profile magnitudes, windowed and zero-padded. */
  function DopplerLine(job: DopplerJob, ch: nat, bin: nat): (v: seq<Complex>)
    requires job.chirps * job.channels * job.rangeSize <= |job.profile| && ch < job.channels && bin < job.rangeSize
    ensures |v| == |job.window|
  {
    seq(|job.window|, (c: nat) requires c < |job.window| =>
      if c < job.chirps then
        AddressBound(c, ch, bin, job.chirps, job.channels, job.rangeSize);
        Complex(job.profile[Address(c, ch, bin, job.channels, job.rangeSize)] * job.window[c], 0.0)
      else ZERO)
  }

  ghost function DopplerValue(job: DopplerJob, hypot: Complex -> real, k: nat, ch: nat, bin: nat): real
    requires ValidDoppler(job) && ch < job.channels && bin < job.rangeSize
  {
    hypot(DftAt(DopplerLine(job, ch, bin), job.w, k))
  }

  /** The cells of every channel of range bins before `bin`, and of channels before `ch` of that bin, hold their values. */
  ghost predicate MatrixDone(rd: seq<real>, job: DopplerJob, hypot: Complex -> real, bin: nat, ch: nat) {
    && ValidDoppler(job) && |job.window| * job.channels * job.rangeSize <= |rd|
    && forall k: nat, c: nat, b: nat ::
         k < |job.window| && c < job.channels && b < job.rangeSize && (b < bin || (b == bin && c < ch)) ==>
         CellIs(rd, job, hypot, k, c, b)
  }

  ghost predicate CellIs(rd: seq<real>, job: DopplerJob, hypot: Complex -> real, k: nat, ch: nat, bin: nat)
    requires ValidDoppler(job) && ch < job.channels && bin < job.rangeSize
  {
    && Address(k, ch, bin, job.channels, job.rangeSize) < |rd|
    && rd[Address(k, ch, bin, job.channels, job.rangeSize)] == DopplerValue(job, hypot, k, ch, bin)
  }

  /** next is before with the magnitudes of the first `done` bins stored down one channel and range bin. */
  ghost predicate BinsStored(next: seq<real>, before: seq<real>, bins: seq<Complex>, hypot: Complex -> real,
                             ch: nat, bin: nat, channels: nat, rangeSize: nat, done: nat) {
    && ch < channels && bin < rangeSize && done <= |bins|
    && |bins| * channels * rangeSize <= |next| == |before|
    && (forall k: nat :: k < done ==>
          Address(k, ch, bin, channels, rangeSize) < |next| && next[Address(k, ch, bin, channels, rangeSize)] == hypot(bins[k]))
    && (forall p: nat :: p < |next| && next[p] != before[p] ==>
          exists k: nat :: k < done && p == Address(k, ch, bin, channels, rangeSize))
  }

  lemma BinStep(next: seq<real>, now: seq<real>, before: seq<real>, bins: seq<Complex>, hypot: Complex -> real,
                ch: nat, bin: nat, channels: nat, rangeSize: nat, k: nat)
    requires k < |bins| && BinsStored(now, before, bins, hypot, ch, bin, channels, rangeSize, k)
    requires Address(k, ch, bin, channels, rangeSize) < |now|
    requires next == now[Address(k, ch, bin, channels, rangeSize) := hypot(bins[k])]
    ensures BinsStored(next, before, bins, hypot, ch, bin, channels, rangeSize, k + 1)
  {
    hide Address;
    var at := Address(k, ch, bin, channels, rangeSize);
    forall j: nat | j < k + 1
      ensures Address(j, ch, bin, channels, rangeSize) < |next| && next[Address(j, ch, bin, channels, rangeSize)] == hypot(bins[j])
    {
      if j != k && Address(j, ch, bin, channels, rangeSize) == at {
        AddressInjective(j, ch, bin, k, ch, bin, channels, rangeSize);
      }
    }
    forall p: nat | p < |next| && next[p] != before[p]
      ensures exists j: nat :: j < k + 1 && p == Address(j, ch, bin, channels, rangeSize)
    {
      if p != at {
        var j: nat :| j < k && p == Address(j, ch, bin, channels, rangeSize);
      }
    }
  }

  lemma NoBinsStored(before: seq<real>, bins: seq<Complex>, hypot: Complex -> real, ch: nat, bin: nat, channels: nat, rangeSize: nat)
    requires ch < channels && bin < rangeSize && |bins| * channels * rangeSize <= |before|
    ensures BinsStored(before, before, bins, hypot, ch, bin, channels, rangeSize, 0)
  {}

  lemma MatrixStep(next: seq<real>, before: seq<real>, job: DopplerJob, hypot: Complex -> real, bins: seq<Complex>, bin: nat, ch: nat)
    requires MatrixDone(before, job, hypot, bin, ch) && ch < job.channels && bin < job.rangeSize
    requires |bins| == |job.window| && forall k: nat :: k < |bins| ==> bins[k] == DftAt(DopplerLine(job, ch, bin), job.w, k)
    requires BinsStored(next, before, bins, hypot, ch, bin, job.channels, job.rangeSize, |bins|)
    ensures MatrixDone(next, job, hypot, bin, ch + 1)
    ensures next[|job.window| * job.channels * job.rangeSize..] == before[|job.window| * job.channels * job.rangeSize..]
  {
    hide Address, DopplerLine, DftAt, HalfTurn;
    var n := |job.window|;
    forall k: nat, c: nat, b: nat | k < n && c < job.channels && b < job.rangeSize && (b < bin || (b == bin && c < ch + 1))
      ensures CellIs(next, job, hypot, k, c, b)
    {
      var p := Address(k, c, b, job.channels, job.rangeSize);
      if b != bin || c != ch {
        assert CellIs(before, job, hypot, k, c, b);
        if next[p] != before[p] {
          var j: nat :| j < n && p == Address(j, ch, bin, job.channels, job.rangeSize);
          AddressInjective(k, c, b, j, ch, bin, job.channels, job.rangeSize);
        }
      }
    }
    forall p: nat | n * job.channels * job.rangeSize <= p < |next|
      ensures next[p] == before[p]
    {
      if next[p] != before[p] {
        var j: nat :| j < n && p == Address(j, ch, bin, job.channels, job.rangeSize);
        AddressBound(j, ch, bin, n, job.channels, job.rangeSize);
      }
    }
  }

  lemma MatrixRow(rd: seq<real>, job: DopplerJob, hypot: Complex -> real, bin: nat)
    requires MatrixDone(rd, job, hypot, bin, job.channels)
    ensures MatrixDone(rd, job, hypot, bin + 1, 0)
  {
    hide CellIs, ValidDoppler;
  }

  lemma NoMatrixYet(rd: seq<real>, job: DopplerJob, hypot: Complex -> real)
    requires ValidDoppler(job) && |job.window| * job.channels * job.rangeSize <= |rd|
    ensures MatrixDone(rd, job, hypot, 0, 0)
  {}

  // ---------------------------------------------------------------- the engine

  /** The range profile as a function of each line alone: magnitudes of the line's DFT. */
  ghost predicate PureProfile(profile: seq<real>, job: RangeJob, hypot: Complex -> real) {
    && |job.window| == Pow2(job.levels)
    && forall c: nat, ch: nat, i: nat :: c < job.chirps && ch < job.channels && i < |job.window| ==>
         && Address(c, ch, i, job.channels, |job.window|) < |profile|
         && profile[Address(c, ch, i, job.channels, |job.window|)] == hypot(DftAt(PureLine(job, LineOf(job, c, ch)), job.w, i))
  }

  lemma ProfileIsPure(profile: seq<real>, job: RangeJob, hypot: Complex -> real)
    requires ProfileDone(profile, job, hypot, job.chirps * job.channels)
    requires ValidJob(job) && !Leaky(job)
    ensures PureProfile(profile, job, hypot)
  {
    hide At, Buffer, PureLine, HalfTurn, Leaky, LineOf, DftAt;
    NotLeakyIsPure(job);
    forall c: nat, ch: nat, i: nat | c < job.chirps && ch < job.channels && i < |job.window|
      ensures Address(c, ch, i, job.channels, |job.window|) < |profile|
      ensures profile[Address(c, ch, i, job.channels, |job.window|)] == hypot(DftAt(PureLine(job, LineOf(job, c, ch)), job.w, i))
    {
      AtBound(c, ch, job.chirps, job.channels);
      AtSplit(c, ch, job.channels);
      var t := At(c, ch, job.channels);
      assert StepPure(job, t) && VisitedLine(job, t) == LineOf(job, c, ch);
      assert Buffer(job, t + 1)[i] == DftAt(PureLine(job, LineOf(job, c, ch)), job.w, i);
    }
  }

  /** unit(i, n) is the i-th power of an n-th root of unity whose half turn is -1. */
  ghost predicate UnitCircle(unit: (nat, nat) -> Complex) {
    && (forall n: nat, i: nat :: unit(i, n) == Pow(unit(1, n), i))
    && (forall levels: nat :: HalfTurn(unit(1, Pow2(levels)), levels))
  }

  datatype InitResult = Ready | SizeNotPowerOfTwo(size: int)

  /** The Go FFT engine: sizes fixed at construction, tables built by Init. */
  class GoEngine {
    const rangeSize: int
    const dopplerSize: int
    var rangeTwiddle: seq<Complex>
    var dopplerTwiddle: seq<Complex>
    var rangeWindow: seq<real>
    var dopplerWindow: seq<real>
    var rangeBitReverse: seq<nat>
    var dopplerBitReverse: seq<nat>

    /** The tables are those of power-of-two transforms with bases wr and wd. */
    ghost predicate Tables(wr: Complex, rangeLevels: nat, wd: Complex, dopplerLevels: nat)
      reads this
    {
      && rangeSize == Pow2(rangeLevels) == |rangeWindow| == |rangeBitReverse|
      && dopplerSize == Pow2(dopplerLevels) == |dopplerWindow| == |dopplerBitReverse|
      && TwiddleTable(rangeTwiddle, rangeSize, wr) && TwiddleTable(dopplerTwiddle, dopplerSize, wd)
      && HalfTurn(wr, rangeLevels) && HalfTurn(wd, dopplerLevels)
      && (forall i: nat :: i < rangeSize ==> rangeBitReverse[i] == Rev(i, rangeLevels))
      && (forall i: nat :: i < dopplerSize ==> dopplerBitReverse[i] == Rev(i, dopplerLevels))
    }

    constructor (rangeSize: int, dopplerSize: int)
      ensures this.rangeSize == rangeSize && this.dopplerSize == dopplerSize
    {
      this.rangeSize, this.dopplerSize := rangeSize, dopplerSize;
    }

    /**
     Rejects sizes that are not powers of two, otherwise builds the tables. unit(i, n) is
     exp(-2*pi*i / n) as the cosine and sine calls return it; window(n) is the configured window.
     */
    method Init(unit: (nat, nat) -> Complex, window: nat -> seq<real>) returns (r: InitResult, ghost rangeLevels: nat, ghost dopplerLevels: nat)
      requires UnitCircle(unit) && forall n: nat :: |window(n)| == n
      modifies this
      ensures r.Ready? ==> Tables(unit(1, Pow2(rangeLevels)), rangeLevels, unit(1, Pow2(dopplerLevels)), dopplerLevels)
      ensures r.Ready? ==> rangeWindow == window(rangeSize) && dopplerWindow == window(dopplerSize)
      ensures r.Ready? <==> (exists a: nat :: rangeSize == Pow2(a)) && (exists b: nat :: dopplerSize == Pow2(b))
      ensures !r.Ready? ==> unchanged(this)
    {
      hide HalfTurn, TwiddleTable, Pow, Rev;
      rangeLevels, dopplerLevels := 0, 0;
      var rangeOk, dopplerOk;
      rangeOk, rangeLevels := IsPowerOfTwo(rangeSize);
      if !rangeOk { return SizeNotPowerOfTwo(rangeSize), 0, 0; }
      dopplerOk, dopplerLevels := IsPowerOfTwo(dopplerSize);
      if !dopplerOk { return SizeNotPowerOfTwo(dopplerSize), 0, 0; }
      rangeTwiddle := BuildTwiddle(rangeSize, unit);
      dopplerTwiddle := BuildTwiddle(dopplerSize, unit);
      rangeBitReverse := BuildIndices(rangeSize, rangeLevels);
      dopplerBitReverse := BuildIndices(dopplerSize, dopplerLevels);
      rangeWindow := window(rangeSize);
      dopplerWindow := window(dopplerSize);
      r := Ready;
    }

    static method IsPowerOfTwo(size: int) returns (ok: bool, ghost levels: nat)
      ensures ok <==> exists a: nat :: size == Pow2(a)
      ensures ok ==> size == Pow2(levels)
    {
      levels := 0;
      ok := !(size <= 0 || BitAnd(size, size - 1) != 0);
      if size > 0 {
        PowerOfTwoTest(size);
        if ok { levels :| size == Pow2(levels); }
      }
    }

    static method BuildIndices(n: nat, ghost levels: nat) returns (indices: seq<nat>)
      requires n == Pow2(levels)
      ensures |indices| == n && forall i: nat :: i < n ==> indices[i] == Rev(i, levels)
    {
      Log2Pow2(levels);
      var a := BitReverseIndices(n);
      indices := a[..];
    }

    static method BuildTwiddle(n: nat, unit: (nat, nat) -> Complex) returns (twiddle: seq<Complex>)
      requires UnitCircle(unit)
      ensures TwiddleTable(twiddle, n, unit(1, n))
    {
      hide Pow;
      twiddle := [];
      for i := 0 to n / 2
        invariant |twiddle| == i && forall p: nat :: p < i ==> twiddle[p] == Pow(unit(1, n), p)
      {
        twiddle := twiddle + [unit(i, n)];
      }
    }

    /** Both passes over one frame. */
    method RangeDopplerFFT(ifData: seq<seq<int>>, rangeProfile: array<real>, rdMatrix: array<real>, numChirps: nat, numSamples: nat,
                           numChannels: nat, hypot: Complex -> real, ghost job: RangeJob, ghost wd: Complex, ghost dopplerLevels: nat)
      returns (ghost djob: DopplerJob)
      requires Tables(job.w, job.levels, wd, dopplerLevels)
      requires job == RangeJob(ifData, numChirps, numSamples, numChannels, rangeWindow, job.w, job.levels)
      requires rangeProfile != rdMatrix
      requires numChirps * numChannels * rangeSize <= rangeProfile.Length && dopplerSize * numChannels * rangeSize <= rdMatrix.Length
      modifies rangeProfile, rdMatrix
      ensures ProfileDone(rangeProfile[..], job, hypot, numChirps * numChannels)
      ensures djob == DopplerJob(rangeProfile[..], numChirps, numChannels, rangeSize, dopplerWindow, wd, dopplerLevels)
      ensures MatrixDone(rdMatrix[..], djob, hypot, rangeSize, 0)
      ensures !Leaky(job) ==> PureProfile(rangeProfile[..], job, hypot)
      ensures forall p: nat :: numChirps * numChannels * rangeSize <= p < rangeProfile.Length ==> rangeProfile[p] == old(rangeProfile[p])
      ensures rdMatrix[dopplerSize * numChannels * rangeSize..] == old(rdMatrix[dopplerSize * numChannels * rangeSize..])
    {
      hide ProfileDone, MatrixDone, PureProfile, HalfTurn, TwiddleTable, Leaky, Rev;
      var n := if rangeSize > dopplerSize then rangeSize else dopplerSize;
      var workBuf := new Complex[n](_ => ZERO);
      assert workBuf[..rangeSize] == Buffer(job, 0);
      RangePass(workBuf, rangeProfile, ifData, numChirps, numSamples, numChannels, hypot, job, wd, dopplerLevels);
      djob := DopplerJob(rangeProfile[..], numChirps, numChannels, rangeSize, dopplerWindow, wd, dopplerLevels);
      DopplerPass(workBuf, rangeProfile, rdMatrix, numChirps, numChannels, hypot, djob, job.w, job.levels);
      if !Leaky(job) {
        ProfileIsPure(rangeProfile[..], job, hypot);
      }
    }

    /** Loads one line into the work buffer, exactly as far as the loops reach. */
    method LoadLine(workBuf: array<Complex>, line: nat, ghost job: RangeJob, ghost wd: Complex, ghost dopplerLevels: nat,
                    ifData: seq<seq<int>>, numSamples: nat)
      requires Tables(job.w, job.levels, wd, dopplerLevels) && rangeSize <= workBuf.Length
      requires ifData == job.ifData && numSamples == job.samples && rangeWindow == job.window
      modifies workBuf
      ensures workBuf[..rangeSize]
           == BitReversed(Natural(job, line, Unscatter(old(workBuf[..rangeSize]), job.levels)), job.levels)
    {
      hide Rev, Scattered, Natural, BitReversed, HalfTurn, TwiddleTable;
      ghost var prev := workBuf[..rangeSize];
      ghost var values := Natural(job, line, Unscatter(prev, job.levels));
      NaturalValues(job, line, Unscatter(prev, job.levels));
      NothingScattered(prev, values, 0, job.levels);
      if line >= |ifData| {
        ZeroFrom(workBuf, rangeSize, rangeBitReverse, 0, values, job.levels);
        LineLoaded(workBuf[..rangeSize], prev, prev, job, line, 0, 0);
      } else {
        var chData := ifData[line];
        var i := 0;
        while i < numSamples && i < rangeSize && i < |chData|
          invariant i <= numSamples && i <= rangeSize && i <= |chData|
          invariant Scattered(workBuf[..rangeSize], prev, values, 0, i, job.levels)
          decreases |chData| - i
        {
          ghost var now := workBuf[..rangeSize];
          var sample := chData[i] as real;
          var v := Complex(sample * rangeWindow[i], 0.0);
          assert v == values[i];
          workBuf[rangeBitReverse[i]] := v;
          ScatterStep(workBuf[..rangeSize], now, prev, values, 0, i, job.levels);
          i := i + 1;
        }
        ghost var mid := workBuf[..rangeSize];
        ZeroFrom(workBuf, rangeSize, rangeBitReverse, numSamples, values, job.levels);
        LineLoaded(workBuf[..rangeSize], mid, prev, job, line, i, numSamples);
      }
    }

    static method StoreMagnitudes(workBuf: array<Complex>, n: nat, out: array<real>, idx: nat, hypot: Complex -> real)
      requires n <= workBuf.Length && idx + n <= out.Length
      modifies out
      ensures MagnitudesStored(out[..], old(out[..]), workBuf[..n], hypot, idx)
    {
      for i := 0 to n
        invariant forall p: nat :: p < out.Length ==>
                    out[p] == if idx <= p < idx + i then hypot(workBuf[p - idx]) else old(out[p])
      {
        out[idx + i] := hypot(workBuf[i]);
      }
    }

    /** First pass: every line of every channel through the shared work buffer. */
    method RangePass(workBuf: array<Complex>, rangeProfile: array<real>, ifData: seq<seq<int>>, numChirps: nat, numSamples: nat,
                     numChannels: nat, hypot: Complex -> real, ghost job: RangeJob, ghost wd: Complex, ghost dopplerLevels: nat)
      requires Tables(job.w, job.levels, wd, dopplerLevels)
      requires job == RangeJob(ifData, numChirps, numSamples, numChannels, rangeWindow, job.w, job.levels)
      requires rangeSize <= workBuf.Length && numChirps * numChannels * rangeSize <= rangeProfile.Length
      requires workBuf[..rangeSize] == Buffer(job, 0)
      modifies workBuf, rangeProfile
      ensures ProfileDone(rangeProfile[..], job, hypot, numChirps * numChannels)
      ensures forall p: nat :: numChirps * numChannels * rangeSize <= p < rangeProfile.Length ==> rangeProfile[p] == old(rangeProfile[p])
    {
      hide BitReversed, Network, Natural, HalfTurn, At, Buffer, ProfileDone, Rev, TwiddleTable;
      ghost var orig := rangeProfile[..];
      NoProfileYet(orig, job, hypot);
      AtZero(numChannels);
      for chirp := 0 to numChirps
        invariant workBuf[..rangeSize] == Buffer(job, At(chirp, 0, numChannels))
        invariant ProfileDone(rangeProfile[..], job, hypot, At(chirp, 0, numChannels))
        invariant forall p: nat :: numChirps * numChannels * rangeSize <= p < rangeProfile.Length ==> rangeProfile[p] == orig[p]
      {
        for ch := 0 to numChannels
          invariant workBuf[..rangeSize] == Buffer(job, At(chirp, ch, numChannels))
          invariant ProfileDone(rangeProfile[..], job, hypot, At(chirp, ch, numChannels))
          invariant forall p: nat :: numChirps * numChannels * rangeSize <= p < rangeProfile.Length ==> rangeProfile[p] == orig[p]
        {
          ghost var t := At(chirp, ch, numChannels);
          ghost var prev := workBuf[..rangeSize];
          var idx := At(At(chirp, ch, numChannels), 0, rangeSize);
          LineBounds(chirp, ch, numChirps, numChannels, rangeSize);
          var line := At(ch, chirp, numChirps);
          LoadLine(workBuf, line, job, wd, dopplerLevels, ifData, numSamples);
          var n := FftInPlace(workBuf, rangeSize, rangeTwiddle, job.w, job.levels);
          BufferStep(job, chirp, ch, workBuf[..rangeSize], prev);
          ghost var before := rangeProfile[..];
          StoreMagnitudes(workBuf, rangeSize, rangeProfile, idx, hypot);
          ProfileStep(rangeProfile[..], before, job, hypot, t, idx);
          AtRow(chirp, ch, numChannels);
          AtRow(chirp, ch + 1, numChannels);
        }
        AtRow(chirp, numChannels, numChannels);
      }
      AtRow(numChirps, 0, numChannels);
      AtIs(numChirps, 0, numChannels);
    }

    /** Loads one slow-time line: the loops between them write every cell. */
    method LoadDoppler(workBuf: array<Complex>, rangeProfile: array<real>, numChirps: nat, numChannels: nat, ch: nat, rangeBin: nat,
                       ghost job: DopplerJob, ghost wr: Complex, ghost rangeLevels: nat)
      requires Tables(wr, rangeLevels, job.w, job.levels) && dopplerSize <= workBuf.Length && ValidDoppler(job)
      requires job == DopplerJob(rangeProfile[..], numChirps, numChannels, rangeSize, dopplerWindow, job.w, job.levels)
      requires ch < numChannels && rangeBin < rangeSize
      modifies workBuf
      ensures workBuf[..dopplerSize] == BitReversed(DopplerLine(job, ch, rangeBin), job.levels)
    {
      hide Rev, Scattered, BitReversed, HalfTurn, TwiddleTable, Address, DopplerLine, Pow2;
      ghost var prev := workBuf[..dopplerSize];
      ghost var values := DopplerLine(job, ch, rangeBin);
      NothingScattered(prev, values, 0, job.levels);
      DopplerValues(job, ch, rangeBin);
      var chirp := 0;
      while chirp < numChirps && chirp < dopplerSize
        invariant chirp <= numChirps && chirp <= dopplerSize
        invariant Scattered(workBuf[..dopplerSize], prev, values, 0, chirp, job.levels)
        decreases dopplerSize - chirp
      {
        ghost var now := workBuf[..dopplerSize];
        AddressBound(chirp, ch, rangeBin, numChirps, numChannels, rangeSize);
        SourceAddress(chirp, ch, rangeBin, numChannels, rangeSize);
        var idx := chirp * numChannels * rangeSize + ch * rangeSize + rangeBin;
        var v := Complex(rangeProfile[idx] * dopplerWindow[chirp], 0.0);
        assert v == values[chirp];
        workBuf[dopplerBitReverse[chirp]] := v;
        ScatterStep(workBuf[..dopplerSize], now, prev, values, 0, chirp, job.levels);
        chirp := chirp + 1;
      }
      ghost var mid := workBuf[..dopplerSize];
      ZeroFrom(workBuf, dopplerSize, dopplerBitReverse, numChirps, values, job.levels);
      DopplerLoaded(workBuf[..dopplerSize], mid, prev, values, numChirps, job.levels);
    }

    /** Second pass: every range bin of every channel across the chirps. */
    method DopplerPass(workBuf: array<Complex>, rangeProfile: array<real>, rdMatrix: array<real>, numChirps: nat, numChannels: nat,
                       hypot: Complex -> real, ghost job: DopplerJob, ghost wr: Complex, ghost rangeLevels: nat)
      requires Tables(wr, rangeLevels, job.w, job.levels) && dopplerSize <= workBuf.Length && ValidDoppler(job)
      requires job == DopplerJob(rangeProfile[..], numChirps, numChannels, rangeSize, dopplerWindow, job.w, job.levels)
      requires rangeProfile != rdMatrix && dopplerSize * numChannels * rangeSize <= rdMatrix.Length
      modifies workBuf, rdMatrix
      ensures MatrixDone(rdMatrix[..], job, hypot, rangeSize, 0)
      ensures rdMatrix[dopplerSize * numChannels * rangeSize..] == old(rdMatrix[dopplerSize * numChannels * rangeSize..])
    {
      hide Rev, BitReversed, HalfTurn, TwiddleTable, Address, MatrixDone, BinsStored, DopplerLine, DftAt, Network;
      ghost var orig := rdMatrix[..];
      ghost var end := dopplerSize * numChannels * rangeSize;
      NoMatrixYet(orig, job, hypot);
      for rangeBin := 0 to rangeSize
        invariant MatrixDone(rdMatrix[..], job, hypot, rangeBin, 0)
        invariant rdMatrix[end..] == orig[end..]
        invariant rangeProfile[..] == job.profile
      {
        for ch := 0 to numChannels
          invariant MatrixDone(rdMatrix[..], job, hypot, rangeBin, ch)
          invariant rdMatrix[end..] == orig[end..]
          invariant rangeProfile[..] == job.profile
        {
          LoadDoppler(workBuf, rangeProfile, numChirps, numChannels, ch, rangeBin, job, wr, rangeLevels);
          var n := FftInPlace(workBuf, dopplerSize, dopplerTwiddle, job.w, job.levels);
          ghost var bins := workBuf[..dopplerSize];
          NetworkBins(DopplerLine(job, ch, rangeBin), job.w, job.levels);
          ghost var before := rdMatrix[..];
          NoBinsStored(before, bins, hypot, ch, rangeBin, numChannels, rangeSize);
          for chirp := 0 to dopplerSize
            invariant BinsStored(rdMatrix[..], before, bins, hypot, ch, rangeBin, numChannels, rangeSize, chirp)
            invariant workBuf[..dopplerSize] == bins
            invariant rangeProfile[..] == job.profile
          {
            ghost var now := rdMatrix[..];
            AddressBound(chirp, ch, rangeBin, dopplerSize, numChannels, rangeSize);
            var rdIdx := Address(chirp, ch, rangeBin, numChannels, rangeSize);
            rdMatrix[rdIdx] := hypot(workBuf[chirp]);
            BinStep(rdMatrix[..], now, before, bins, hypot, ch, rangeBin, numChannels, rangeSize, chirp);
          }
          MatrixStep(rdMatrix[..], before, job, hypot, bins, rangeBin, ch);
        }
        MatrixRow(rdMatrix[..], job, hypot, rangeBin);
      }
    }
  }

  lemma NetworkBins(x: seq<Complex>, w: Complex, levels: nat)
    requires |x| == Pow2(levels) && HalfTurn(w, levels)
    ensures forall k: nat :: k < |x| ==> Network(BitReversed(x, levels), w, levels)[k] == DftAt(x, w, k)
  {
    hide Network, BitReversed, HalfTurn, DftAt;
    forall k: nat | k < |x|
      ensures Network(BitReversed(x, levels), w, levels)[k] == DftAt(x, w, k)
    {
      NetworkIsDft(x, w, levels, k);
    }
  }

  lemma DopplerValues(job: DopplerJob, ch: nat, bin: nat)
    requires job.chirps * job.channels * job.rangeSize <= |job.profile| && ch < job.channels && bin < job.rangeSize
    ensures forall c: nat :: c < |job.window| && c < job.chirps ==>
              Address(c, ch, bin, job.channels, job.rangeSize) < |job.profile|
              && DopplerLine(job, ch, bin)[c] == Complex(job.profile[Address(c, ch, bin, job.channels, job.rangeSize)] * job.window[c], 0.0)
    ensures forall c: nat :: job.chirps <= c < |job.window| ==> DopplerLine(job, ch, bin)[c] == ZERO
  {
    hide Address;
    forall c: nat | c < |job.window| && c < job.chirps
      ensures Address(c, ch, bin, job.channels, job.rangeSize) < |job.profile|
    {
      AddressBound(c, ch, bin, job.chirps, job.channels, job.rangeSize);
    }
  }

  lemma SourceAddress(chirp: nat, ch: nat, bin: nat, channels: nat, rangeSize: nat)
    ensures chirp * channels * rangeSize + ch * rangeSize + bin == Address(chirp, ch, bin, channels, rangeSize)
  {}

  lemma DopplerLoaded(now: seq<Complex>, mid: seq<Complex>, prev: seq<Complex>, values: seq<Complex>, chirps: nat, levels: nat)
    requires Scattered(mid, prev, values, 0, if chirps < |values| then chirps else |values|, levels)
    requires Scattered(now, mid, values, chirps, if chirps < |values| then |values| else chirps, levels)
    ensures now == BitReversed(values, levels)
  {
    hide Rev, Pow2, BitReversed;
    forall p: nat | p < |now|
      ensures now[p] == values[Rev(p, levels)]
    {
      RevInvolution(p, levels);
    }
    LoadedIsBitReversed(now, prev, values, levels);
  }

  lemma NaturalValues(job: RangeJob, line: nat, stale: seq<Complex>)
    requires |stale| == |job.window|
    ensures var v := Natural(job, line, stale);
      && (line >= |job.ifData| ==> forall i: nat :: i < |v| ==> v[i] == ZERO)
      && (forall i: nat :: job.samples <= i < |v| ==> v[i] == ZERO)
      && (line < |job.ifData| ==> forall i: nat :: i < |v| && i < job.samples && i < |job.ifData[line]| ==>
            v[i] == Complex(job.ifData[line][i] as real * job.window[i], 0.0))
  {}

  lemma AtZero(cols: nat)
    ensures At(0, 0, cols) == 0
  {}

  lemma AtIs(i: nat, j: nat, cols: nat)
    ensures At(i, j, cols) == i * cols + j
  {}

  lemma LineBounds(chirp: nat, ch: nat, chirps: nat, channels: nat, rangeSize: nat)
    requires chirp < chirps && ch < channels
    ensures At(At(chirp, ch, channels), 0, rangeSize) + rangeSize <= chirps * channels * rangeSize
  {
    AtBound(chirp, ch, chirps, channels);
    ProductMonotone(At(chirp, ch, channels) + 1, chirps * channels, rangeSize);
  }

  lemma BufferStep(job: RangeJob, chirp: nat, ch: nat, now: seq<Complex>, prev: seq<Complex>)
    requires ValidJob(job) && ch < job.channels && prev == Buffer(job, At(chirp, ch, job.channels))
    requires now == Network(BitReversed(Natural(job, At(ch, chirp, job.chirps), Unscatter(prev, job.levels)), job.levels), job.w, job.levels)
    ensures now == Buffer(job, At(chirp, ch, job.channels) + 1)
  {
    hide Network, BitReversed, Natural, At;
    AtSplit(chirp, ch, job.channels);
  }

  /** The first `lines` lines of the profile hold the magnitudes of their transforms. */
  ghost predicate ProfileDone(profile: seq<real>, job: RangeJob, hypot: Complex -> real, lines: nat) {
    && ValidJob(job)
    && forall t: nat, i: nat :: t < lines && i < |job.window| ==>
         At(t, i, |job.window|) < |profile| && profile[At(t, i, |job.window|)] == hypot(Buffer(job, t + 1)[i])
  }

  /** next is before with the magnitudes of bins from address idx on. */
  ghost predicate MagnitudesStored(next: seq<real>, before: seq<real>, bins: seq<Complex>, hypot: Complex -> real, idx: nat) {
    && idx + |bins| <= |next| == |before|
    && forall p: nat :: p < |next| ==> next[p] == if idx <= p < idx + |bins| then hypot(bins[p - idx]) else before[p]
  }

  lemma NoProfileYet(profile: seq<real>, job: RangeJob, hypot: Complex -> real)
    requires ValidJob(job)
    ensures ProfileDone(profile, job, hypot, 0)
  {}

  lemma ProfileStep(next: seq<real>, before: seq<real>, job: RangeJob, hypot: Complex -> real, t: nat, idx: nat)
    requires ProfileDone(before, job, hypot, t) && |next| == |before|
    requires idx == At(t, 0, |job.window|) && MagnitudesStored(next, before, Buffer(job, t + 1), hypot, idx)
    ensures ProfileDone(next, job, hypot, t + 1)
  {
    hide At, Buffer;
    var n := |job.window|;
    forall u: nat, i: nat | u < t + 1 && i < n
      ensures At(u, i, n) < |next| && next[At(u, i, n)] == hypot(Buffer(job, u + 1)[i])
    {
      AtRow(u, i, n);
      if u != t { OtherRow(u, i, t, n); }
    }
  }
}
