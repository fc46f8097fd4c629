/** The ranging calculator: peak choice, running statistics over every valid measurement, and the circular wave buffer. */
module Ranging {
  import opened Peaks
  import opened RealSums
  import opened Reals
  import SubPixel

  // ---------------------------------------------------------------- folds

  function Sum(s: seq<real>): real {
    if s == [] then 0.0 else Sum(s[..|s| - 1]) + s[|s| - 1]
  }

  /** The exact mean, 0 of nothing. */
  function Mean(s: seq<real>): real { if s == [] then 0.0 else Sum(s) / |s| as real }

  /** The running minimum as the calculator keeps it: 0 stands for "none yet". */
  function RunningMin(s: seq<real>): real {
    if s == [] then 0.0 else
      var before, d := RunningMin(s[..|s| - 1]), s[|s| - 1];
      if before == 0.0 || d < before then d else before
  }

  /** The running maximum as the calculator keeps it, from 0. */
  function RunningMax(s: seq<real>): real {
    if s == [] then 0.0 else Max(RunningMax(s[..|s| - 1]), s[|s| - 1])
  }

  predicate IsMin(m: real, s: seq<real>) { m in s && forall i: nat :: i < |s| ==> m <= s[i] }

  predicate IsMax(m: real, s: seq<real>) { m in s && forall i: nat :: i < |s| ==> s[i] <= m }

  predicate AtLeast(s: seq<real>, lo: real) { forall i: nat :: i < |s| ==> lo <= s[i] }

  lemma {:induction false} TrueExtrema(s: seq<real>, lo: real)
    requires s != [] && lo > 0.0 && AtLeast(s, lo)
    ensures IsMin(RunningMin(s), s) && IsMax(RunningMax(s), s)
  {
    var n := |s| - 1;
    if n > 0 {
      var most := s[..n];
      TrueExtrema(most, lo);
      var i :| 0 <= i < n && most[i] == RunningMin(most);
      var j :| 0 <= j < n && most[j] == RunningMax(most);
      assert s[i] == RunningMin(most) && s[j] == RunningMax(most);
      forall k: nat | k < |s|
        ensures RunningMin(s) <= s[k] <= RunningMax(s)
      {
        if k < n { assert most[k] == s[k]; }
      }
    }
  }

  lemma MeanAppend(s: seq<real>, x: real)
    ensures Mean(s + [x]) == (Mean(s) * |s| as real + x) / (|s| + 1) as real
  {
    hide Mean, Sum;
    MeanTotal(s);
    MeanTotal(s + [x]);
    SumAppend(s, x);
    SameQuotient(Sum(s) + x, (|s| + 1) as real, Mean(s + [x]));
  }

  lemma SumAppend(s: seq<real>, x: real)
    ensures Sum(s + [x]) == Sum(s) + x
  {
    assert (s + [x])[..|s|] == s;
  }

  /** The mean times the number of entries is their sum. */
  lemma MeanTotal(s: seq<real>)
    ensures Mean(s) * |s| as real == Sum(s)
  {
    if s != [] { QuotientTimes(Sum(s), |s| as real); }
  }

  lemma QuotientTimes(a: real, n: real)
    requires n > 0.0
    ensures a / n * n == a
  {}

  lemma SameQuotient(a: real, n: real, m: real)
    requires n > 0.0 && m * n == a
    ensures m == a / n
  {}

  lemma ExtremaAppend(s: seq<real>, d: real, lo: real)
    ensures RunningMin(s + [d]) == if RunningMin(s) == 0.0 || d < RunningMin(s) then d else RunningMin(s)
    ensures RunningMax(s + [d]) == Max(RunningMax(s), d)
    ensures AtLeast(s, lo) && lo <= d ==> AtLeast(s + [d], lo)
  {
    assert (s + [d])[..|s|] == s;
  }

  // ---------------------------------------------------------------- the wave window

  const WAVE := 100

  /** The last hundred entries, or all of them. */
  function Window(s: seq<real>): (w: seq<real>)
    ensures |w| == if |s| < WAVE then |s| else WAVE
  {
    if |s| < WAVE then s else s[|s| - WAVE..]
  }

  function Zeros(n: nat): (z: seq<real>)
    ensures |z| == n && forall i: nat :: i < n ==> z[i] == 0.0
  {
    seq(n, (i: nat) => 0.0)
  }

  /** Read from the write position on, the buffer is the window behind unused zeros. */
  ghost predicate Holds(buf: seq<real>, idx: nat, s: seq<real>) {
    && |buf| == WAVE && idx < WAVE
    && buf[idx..] + buf[..idx] == Zeros(WAVE - |Window(s)|) + Window(s)
  }

  /** Overwriting the oldest entry moves the rotated reading on by one. */
  lemma RotatedNext(buf: seq<real>, idx: nat, at: nat, d: real)
    requires idx < |buf| && at == if idx + 1 == |buf| then 0 else idx + 1
    ensures var next := buf[idx := d]; next[at..] + next[..at] == (buf[idx..] + buf[..idx])[1..] + [d]
  {}

  lemma WindowNext(s: seq<real>, d: real)
    ensures Zeros(WAVE - |Window(s + [d])|) + Window(s + [d]) == (Zeros(WAVE - |Window(s)|) + Window(s))[1..] + [d]
  {
    if |s| < WAVE {
      assert Window(s + [d]) == Window(s) + [d];
    } else {
      assert Window(s + [d]) == Window(s)[1..] + [d];
    }
  }

  lemma HoldsNext(buf: seq<real>, idx: nat, s: seq<real>, d: real)
    requires Holds(buf, idx, s)
    ensures idx < |buf| == WAVE
    ensures Holds(buf[idx := d], (idx + 1) % WAVE, s + [d])
  {
    hide Window, Zeros;
    RotatedNext(buf, idx, (idx + 1) % WAVE, d);
    WindowNext(s, d);
  }

  /** f summed over the entries. */
  function SumOf(s: seq<real>, f: real -> real): real {
    if s == [] then 0.0 else SumOf(s[..|s| - 1], f) + f(s[|s| - 1])
  }

  lemma {:induction false} SumOfConcat(a: seq<real>, b: seq<real>, f: real -> real)
    ensures SumOf(a + b, f) == SumOf(a, f) + SumOf(b, f)
  {
    if b == [] {
      assert a + b == a;
    } else {
      assert (a + b)[..|a + b| - 1] == a + b[..|b| - 1];
      SumOfConcat(a, b[..|b| - 1], f);
    }
  }

  lemma {:induction false} SumOfZeros(n: nat, f: real -> real)
    requires f(0.0) == 0.0
    ensures SumOf(Zeros(n), f) == 0.0
  {
    if n > 0 {
      assert Zeros(n)[..n - 1] == Zeros(n - 1);
      SumOfZeros(n - 1, f);
    }
  }

  /** A sum that ignores zeros does not see how the buffer is rotated or padded. */
  lemma BufferSum(buf: seq<real>, idx: nat, s: seq<real>, f: real -> real)
    requires Holds(buf, idx, s) && f(0.0) == 0.0
    ensures SumOf(buf, f) == SumOf(Window(s), f)
  {
    assert buf == buf[..idx] + buf[idx..];
    SumOfConcat(buf[..idx], buf[idx..], f);
    SumOfConcat(buf[idx..], buf[..idx], f);
    SumOfConcat(Zeros(WAVE - |Window(s)|), Window(s), f);
    SumOfZeros(WAVE - |Window(s)|, f);
  }

  function Value(): real -> real { d => if d > 0.0 then d else 0.0 }
  function One(): real -> real { d => if d > 0.0 then 1.0 else 0.0 }
  function SquaredFrom(mean: real): real -> real { d => if d > 0.0 then Square(d - mean) else 0.0 }

  function Deviations(s: seq<real>, mean: real): (v: real)
    ensures v >= 0.0
  {
    if s == [] then 0.0 else SquareSign(s[|s| - 1] - mean); Deviations(s[..|s| - 1], mean) + Square(s[|s| - 1] - mean)
  }

  /** Four times the standard deviation, 0 of nothing. */
  function FourSigma(s: seq<real>, sqrt: real -> real): real {
    if s == [] then 0.0 else sqrt(Deviations(s, Mean(s)) / |s| as real) * 4.0
  }

  predicate AllPositive(s: seq<real>) { forall i: nat :: i < |s| ==> s[i] > 0.0 }

  lemma {:induction false} PositiveSums(s: seq<real>, mean: real)
    requires AllPositive(s)
    ensures SumOf(s, Value()) == Sum(s) && SumOf(s, One()) == |s| as real && SumOf(s, SquaredFrom(mean)) == Deviations(s, mean)
  {
    if s != [] { PositiveSums(s[..|s| - 1], mean); }
  }

  // ---------------------------------------------------------------- the folds, the other way round

  lemma {:induction false} SumIs(s: seq<real>)
    ensures Sum(s) == FrontSum(s)
  {
    if s != [] {
      SumIs(s[..|s| - 1]);
      FrontSumAppend(s[..|s| - 1], s[|s| - 1]);
      assert s == s[..|s| - 1] + [s[|s| - 1]];
    }
  }

  lemma {:induction false} DeviationsAre(s: seq<real>, mean: real)
    ensures Deviations(s, mean) == FrontSum(SquaredDifferences(s, mean))
  {
    hide Square;
    if s != [] {
      var most, x := s[..|s| - 1], s[|s| - 1];
      DeviationsAre(most, mean);
      FrontSumAppend(SquaredDifferences(most, mean), Square(x - mean));
      assert SquaredDifferences(s, mean) == SquaredDifferences(most, mean) + [Square(x - mean)];
    }
  }

  /** The mean and the wave height of a non-empty window, from sums over its entries. */
  lemma WaveHeightIs(s: seq<real>, sqrt: real -> real)
    requires s != []
    ensures Mean(s) == FrontSum(s) / |s| as real
    ensures FourSigma(s, sqrt) == 4.0 * sqrt(FrontSum(SquaredDifferences(s, FrontSum(s) / |s| as real)) / |s| as real)
  {
    SumIs(s);
    DeviationsAre(s, Mean(s));
  }

  /** The window is the last hundred entries, oldest first. */
  lemma WindowIs(s: seq<real>, i: nat)
    requires i < |s| && |s| - i <= 100
    ensures |Window(s)| <= 100 && |Window(s)| >= |s| - i && Window(s)[|Window(s)| - (|s| - i)] == s[i]
    ensures |s| <= 100 ==> Window(s) == s
  {}

  // ---------------------------------------------------------------- choosing a peak

  datatype Config = Config(minDistance: real, maxDistance: real, tankHeight: real, snrThreshold: real, tempCompensation: bool)

  const LIMIT: real := 1e100

  predicate IsFinite(v: real) { Abs(v) < LIMIT }

  datatype Option<T> = None | Some(value: T)

  /** A peak with its refined range position, where there is a valid one. */
  datatype Target = Target(peak: Peak, refined: Option<real>)

  /** Metres per range bin, and the score of a peak. */
  datatype Scale = Scale(resolution: real, score: Target -> real)

  function Position(p: Target): real {
    if p.refined.Some? && IsFinite(p.refined.value) then p.refined.value else p.peak.rangeBin as real
  }

  function BinDistance(bin: int, scale: Scale): real { bin as real * scale.resolution }

  /** The interpolated distance if it is finite and positive, otherwise that of the nearest bin. */
  function DistanceOf(p: Target, scale: Scale): real {
    var x := Position(p) * scale.resolution;
    if IsFinite(x) && x > 0.0 then x else BinDistance(SubPixel.Round(Position(p)), scale)
  }

  /** The position rounds to a range bin of the grid, as those of detected and refined peaks do. */
  predicate OnGrid(p: Target) { SubPixel.Round(Position(p)) >= 0 }

  predicate AllOnGrid(peaks: seq<Target>) { forall i: nat :: i < |peaks| ==> OnGrid(peaks[i]) }

  /** Distances of peaks on the grid are never negative, even where the refined position is. */
  lemma DistanceNonNegative(p: Target, scale: Scale)
    requires scale.resolution > 0.0 && OnGrid(p)
    ensures DistanceOf(p, scale) >= 0.0
  {
    hide Position, SubPixel.Round;
    ProductNonNegative(SubPixel.Round(Position(p)) as real, scale.resolution);
  }

  /**
   Metres per bin times the refined position where there is a finite one, else the bin; when that is not
   positive or not finite, metres per bin times the nearest bin.
   */
  lemma DistanceIs(p: Target, scale: Scale, x: real, d: real)
    requires x == if p.refined.Some? && -1e100 < p.refined.value < 1e100 then p.refined.value else p.peak.rangeBin as real
    requires d == x * scale.resolution
    ensures 0.0 < d < 1e100 ==> DistanceOf(p, scale) == d
    ensures !(0.0 < d < 1e100) ==> DistanceOf(p, scale) == SubPixel.Round(x) as real * scale.resolution
  {
    PositionIs(p, x);
    DistanceFrom(p, scale, x, d);
  }

  lemma PositionIs(p: Target, x: real)
    requires x == if p.refined.Some? && -1e100 < p.refined.value < 1e100 then p.refined.value else p.peak.rangeBin as real
    ensures Position(p) == x
  {}

  lemma DistanceFrom(p: Target, scale: Scale, x: real, d: real)
    requires x == Position(p) && d == x * scale.resolution
    ensures 0.0 < d < 1e100 ==> DistanceOf(p, scale) == d
    ensures !(0.0 < d < 1e100) ==> DistanceOf(p, scale) == SubPixel.Round(x) as real * scale.resolution
  {
    NearestDistance(SubPixel.Round(x), scale);
    hide SubPixel.Round, Position, BinDistance;
    assert IsFinite(d) && d > 0.0 <==> 0.0 < d < 1e100;
  }

  lemma NearestDistance(bin: int, scale: Scale)
    ensures BinDistance(bin, scale) == bin as real * scale.resolution
  {}

  predicate Eligible(p: Target, cfg: Config, scale: Scale) {
    && IsFinite(p.peak.snr) && IsFinite(p.peak.magnitude) && IsFinite(DistanceOf(p, scale))
    && cfg.minDistance <= DistanceOf(p, scale) <= cfg.maxDistance
  }

  /** i is the first eligible peak of the highest score, among the first n, and scores above -1. */
  ghost predicate Best(peaks: seq<Target>, cfg: Config, scale: Scale, i: nat, n: nat) {
    && i < n <= |peaks| && Eligible(peaks[i], cfg, scale) && scale.score(peaks[i]) > -1.0
    && (forall j: nat :: j < n && Eligible(peaks[j], cfg, scale) ==> scale.score(peaks[j]) <= scale.score(peaks[i]))
    && (forall j: nat :: j < i && Eligible(peaks[j], cfg, scale) ==> scale.score(peaks[j]) < scale.score(peaks[i]))
  }

  ghost predicate NoneEligible(peaks: seq<Target>, cfg: Config, scale: Scale, n: nat) {
    n <= |peaks| && forall j: nat :: j < n && Eligible(peaks[j], cfg, scale) ==> scale.score(peaks[j]) <= -1.0
  }

  method SelectValidPeak(peaks: seq<Target>, cfg: Config, scale: Scale) returns (best: Option<nat>)
    ensures best.None? <==> NoneEligible(peaks, cfg, scale, |peaks|)
    ensures best.Some? ==> Best(peaks, cfg, scale, best.value, |peaks|)
  {
    best := None;
    var bestScore := -1.0;
    for i := 0 to |peaks|
      invariant best.None? ==> bestScore == -1.0 && NoneEligible(peaks, cfg, scale, i)
      invariant best.Some? ==> Best(peaks, cfg, scale, best.value, i) && bestScore == scale.score(peaks[best.value])
    {
      if IsFinite(peaks[i].peak.snr) && IsFinite(peaks[i].peak.magnitude) {
        var distance := DistanceOf(peaks[i], scale);
        if IsFinite(distance) && !(distance < cfg.minDistance || distance > cfg.maxDistance) {
          var score := scale.score(peaks[i]);
          if score > bestScore { bestScore, best := score, Some(i); }
        }
      }
    }
  }

  ghost predicate HasBest(peaks: seq<Target>, cfg: Config, scale: Scale, n: nat) {
    exists i: nat :: Best(peaks, cfg, scale, i, n)
  }

  /** There is a best peak unless none is eligible. */
  lemma {:induction false} BestOrNone(peaks: seq<Target>, cfg: Config, scale: Scale, n: nat)
    requires n <= |peaks|
    ensures NoneEligible(peaks, cfg, scale, n) <==> !HasBest(peaks, cfg, scale, n)
  {
    if n > 0 {
      BestOrNone(peaks, cfg, scale, n - 1);
      if HasBest(peaks, cfg, scale, n - 1) {
        var i: nat :| Best(peaks, cfg, scale, i, n - 1);
        var k := if Eligible(peaks[n - 1], cfg, scale) && scale.score(peaks[n - 1]) > scale.score(peaks[i]) then n - 1 else i;
        assert Best(peaks, cfg, scale, k, n);
      } else if !NoneEligible(peaks, cfg, scale, n) {
        assert Best(peaks, cfg, scale, n - 1, n);
      }
    }
  }

  lemma BestIsUnique(peaks: seq<Target>, cfg: Config, scale: Scale, i: nat, j: nat)
    requires Best(peaks, cfg, scale, i, |peaks|) && Best(peaks, cfg, scale, j, |peaks|)
    ensures i == j
  {}

  // ---------------------------------------------------------------- the calculator

  datatype Status = NoPeaks | NoValidPeaks | NanDistance | LowSnr | OutOfRange | Valid

  datatype Measurement = Measurement(status: Status, distance: real, level: real, snr: real, waveHeight: real)

  datatype Stats = Stats(measurements: nat, valid: nat, errors: nat, corrections: nat,
                         avgSnr: real, minDistance: real, maxDistance: real, avgCorrection: real)

  /** What the thermal corrector answers for a level: whether it was applied, and the correction. */
  datatype Correction = NotApplied | Applied(m3: real)

  /** The distance after temperature compensation. */
  function Compensated(distance: real, cfg: Config, temp: real): real {
    if cfg.tempCompensation then distance * (1.0 + 0.000001 * (temp - 20.0)) else distance
  }

  /** What becomes of a frame whose best peak is p. */
  function Judged(p: Target, cfg: Config, scale: Scale, temp: real): Status {
    var d := Compensated(DistanceOf(p, scale), cfg, temp);
    if !IsFinite(d) then NanDistance
    else if p.peak.snr < cfg.snrThreshold then LowSnr
    else if d < cfg.minDistance || d > cfg.maxDistance then OutOfRange
    else Status.Valid
  }

  /** A distance accepted when the peak was chosen is still in range when it is checked again. */
  ghost predicate ChoiceStands(cfg: Config, temp: real) {
    forall d: real :: cfg.minDistance <= d <= cfg.maxDistance ==> cfg.minDistance <= Compensated(d, cfg, temp) <= cfg.maxDistance
  }

  /** The second range check never rejects the chosen peak exactly when compensation is off or the temperature is the reference. */
  lemma ChoiceStandsExactly(cfg: Config, temp: real)
    requires 0.0 < cfg.minDistance <= cfg.maxDistance
    ensures ChoiceStands(cfg, temp) <==> !cfg.tempCompensation || temp == 20.0
  {
    var x := 0.000001 * (temp - 20.0);
    if cfg.tempCompensation && x > 0.0 {
      ProductPositive(cfg.maxDistance, x);
      assert Compensated(cfg.maxDistance, cfg, temp) == cfg.maxDistance + cfg.maxDistance * x;
    } else if cfg.tempCompensation && x < 0.0 {
      ProductPositive(cfg.minDistance, -x);
      assert Compensated(cfg.minDistance, cfg, temp) == cfg.minDistance - cfg.minDistance * (-x);
    }
  }

  lemma CompensatedNonNegative(distance: real, cfg: Config, temp: real)
    requires distance >= 0.0 && temp > -60.0
    ensures Compensated(distance, cfg, temp) >= 0.0
  {
    ProductNonNegative(distance, 1.0 + 0.000001 * (temp - 20.0));
  }

  /** A peak is measured when its compensated distance is finite and in range and its ratio sufficient; otherwise the first check that fails names the status. */
  lemma JudgedExactly(p: Target, cfg: Config, scale: Scale, temp: real, d: real)
    requires d == if cfg.tempCompensation then DistanceOf(p, scale) * (1.0 + (temp - 20.0) / 1000000.0) else DistanceOf(p, scale)
    ensures Compensated(DistanceOf(p, scale), cfg, temp) == d
    ensures Judged(p, cfg, scale, temp) == Status.Valid <==> -1e100 < d < 1e100 && p.peak.snr >= cfg.snrThreshold && cfg.minDistance <= d <= cfg.maxDistance
    ensures Judged(p, cfg, scale, temp) == NanDistance <==> !(-1e100 < d < 1e100)
    ensures Judged(p, cfg, scale, temp) == LowSnr <==> -1e100 < d < 1e100 && p.peak.snr < cfg.snrThreshold
    ensures Judged(p, cfg, scale, temp) == OutOfRange <==>
      -1e100 < d < 1e100 && p.peak.snr >= cfg.snrThreshold && !(cfg.minDistance <= d <= cfg.maxDistance)
  {
    hide DistanceOf;
  }

  class Calculator {
    const cfg: Config
    const waveBuf: array<real>
    var waveIdx: nat
    var lastTemp: real
    var stats: Stats
    ghost var distances: seq<real>
    ghost var snrs: seq<real>
    ghost var corrections: seq<real>

    constructor (cfg: Config)
      ensures this.cfg == cfg && Valid() && fresh(waveBuf) && lastTemp == 20.0 && distances == snrs == corrections == []
      ensures stats == Stats(0, 0, 0, 0, 0.0, 0.0, 0.0, 0.0)
    {
      this.cfg := cfg;
      waveBuf := new real[WAVE](_ => 0.0);
      waveIdx, lastTemp, stats := 0, 20.0, Stats(0, 0, 0, 0, 0.0, 0.0, 0.0, 0.0);
      distances, snrs, corrections := [], [], [];
      new;
      assert waveBuf[..] == Zeros(WAVE);
      EmptyWindow(waveBuf[..]);
    }

    /** The statistics are the exact folds of everything measured so far, and the buffer holds the latest window. */
    ghost predicate Valid()
      reads this, waveBuf
    {
      && stats.valid == |distances| == |snrs| && stats.corrections == |corrections|
      && stats.avgSnr == Mean(snrs) && stats.avgCorrection == Mean(corrections)
      && stats.minDistance == RunningMin(distances) && stats.maxDistance == RunningMax(distances)
      && AtLeast(distances, cfg.minDistance) && -60.0 < lastTemp < 150.0
      && Holds(waveBuf[..], waveIdx, distances)
    }

    method UpdateTemperature(temp: real)
      requires Valid()
      modifies `lastTemp
      ensures Valid() && lastTemp == if -60.0 < temp < 150.0 then temp else old(lastTemp)
    {
      hide Mean, RunningMin, RunningMax, Holds;
      if IsFinite(temp) && temp > -60.0 && temp < 150.0 { lastTemp := temp; }
    }

    /** One frame's peaks become a measurement; only a valid one enters the distances and ratios. */
    method Calculate(peaks: seq<Target>, scale: Scale, correct: real -> Correction, sqrt: real -> real) returns (m: Measurement)
      requires Valid()
      modifies this, waveBuf
      ensures Valid() && lastTemp == old(lastTemp)
      ensures stats.measurements == old(stats.measurements) + 1
      ensures stats.errors == old(stats.errors) + (if m.status == NoPeaks || m.status == NoValidPeaks then 1 else 0)
      ensures m.status == NoPeaks <==> |peaks| == 0
      ensures m.status == NoValidPeaks <==> |peaks| > 0 && NoneEligible(peaks, cfg, scale, |peaks|)
      ensures forall i: nat :: Best(peaks, cfg, scale, i, |peaks|) ==> m.status == Judged(peaks[i], cfg, scale, old(lastTemp))
      ensures m.status != Status.Valid ==> distances == old(distances) && snrs == old(snrs) && corrections == old(corrections)
      ensures m.status == Status.Valid ==>
        && distances == old(distances) + [m.distance] && snrs == old(snrs) + [m.snr]
        && cfg.minDistance <= m.distance <= cfg.maxDistance && m.snr >= cfg.snrThreshold
      ensures m.status == Status.Valid ==>
        corrections == match correct(m.level) case NotApplied => old(corrections) case Applied(v) => old(corrections) + [Abs(v)]
      ensures m.status == Status.Valid ==> exists i: nat ::
        Best(peaks, cfg, scale, i, |peaks|) && m.snr == peaks[i].peak.snr && m.distance == Compensated(DistanceOf(peaks[i], scale), cfg, old(lastTemp))
      ensures scale.resolution > 0.0 && AllOnGrid(peaks) && AtLeast(old(distances), 0.0) ==> AtLeast(distances, 0.0)
      ensures m.status == Status.Valid ==>
        && (0.0 <= cfg.tankHeight - m.distance < 1e100 ==> m.level == cfg.tankHeight - m.distance)
        && (m.distance > cfg.tankHeight || cfg.tankHeight - m.distance >= 1e100 ==> m.level == 0.0)
        && m.level >= 0.0 && m.waveHeight >= 0.0
      ensures m.status == Status.Valid && cfg.minDistance > 0.0 ==>
        var w := FourSigma(Window(old(distances)), sqrt); m.waveHeight == if 0.0 <= w < 1e100 then w else 0.0
    {
      hide Mean, RunningMin, RunningMax, Holds, FourSigma, IsFinite, Eligible, Judged, Compensated, DistanceOf, OnGrid;
      stats := stats.(measurements := stats.measurements + 1);
      if |peaks| == 0 {
        stats := stats.(errors := stats.errors + 1);
        return Measurement(NoPeaks, 0.0, 0.0, 0.0, 0.0);
      }
      var best := SelectValidPeak(peaks, cfg, scale);
      if best.None? {
        stats := stats.(errors := stats.errors + 1);
        return Measurement(NoValidPeaks, 0.0, 0.0, 0.0, 0.0);
      }
      forall i: nat | Best(peaks, cfg, scale, i, |peaks|)
        ensures i == best.value
      {
        BestIsUnique(peaks, cfg, scale, i, best.value);
      }
      m := MeasurePeak(peaks[best.value], scale, correct, sqrt);
    }

    /** The chosen peak becomes a measurement, or is rejected. */
    method MeasurePeak(peak: Target, scale: Scale, correct: real -> Correction, sqrt: real -> real) returns (m: Measurement)
      requires Valid() && Eligible(peak, cfg, scale)
      modifies `stats, `distances, `snrs, `corrections, `waveIdx, waveBuf
      ensures Valid() && stats.measurements == old(stats.measurements) && stats.errors == old(stats.errors)
      ensures m.status == Judged(peak, cfg, scale, lastTemp) && m.status != NoPeaks && m.status != NoValidPeaks
      ensures m.status != Status.Valid ==> distances == old(distances) && snrs == old(snrs) && corrections == old(corrections)
      ensures m.status == Status.Valid ==>
        && distances == old(distances) + [m.distance] && snrs == old(snrs) + [m.snr]
        && m.snr == peak.peak.snr && m.distance == Compensated(DistanceOf(peak, scale), cfg, lastTemp)
        && cfg.minDistance <= m.distance <= cfg.maxDistance && m.snr >= cfg.snrThreshold
      ensures m.status == Status.Valid ==>
        corrections == match correct(m.level) case NotApplied => old(corrections) case Applied(v) => old(corrections) + [Abs(v)]
      ensures scale.resolution > 0.0 && OnGrid(peak) && AtLeast(old(distances), 0.0) ==> AtLeast(distances, 0.0)
      ensures m.status == Status.Valid ==>
        && (0.0 <= cfg.tankHeight - m.distance < 1e100 ==> m.level == cfg.tankHeight - m.distance)
        && (m.distance > cfg.tankHeight || cfg.tankHeight - m.distance >= 1e100 ==> m.level == 0.0)
        && m.level >= 0.0 && m.waveHeight >= 0.0
      ensures m.status == Status.Valid && cfg.minDistance > 0.0 ==>
        var w := FourSigma(Window(old(distances)), sqrt); m.waveHeight == if 0.0 <= w < 1e100 then w else 0.0
    {
      hide Mean, RunningMin, RunningMax, Holds, FourSigma, IsFinite, Eligible, Compensated, DistanceOf, BinDistance, OnGrid;
      EligibleIsFinite(peak, cfg, scale);
      if scale.resolution > 0.0 && OnGrid(peak) {
        DistanceNonNegative(peak, scale);
        CompensatedNonNegative(DistanceOf(peak, scale), cfg, lastTemp);
      }
      var distance := DistanceOf(peak, scale);
      if !IsFinite(distance) { distance := BinDistance(peak.peak.rangeBin, scale); }
      distance := Compensated(distance, cfg, lastTemp);
      if !IsFinite(distance) { return Measurement(NanDistance, 0.0, 0.0, 0.0, 0.0); }
      var snr := if IsFinite(peak.peak.snr) then peak.peak.snr else 0.0;
      if snr < cfg.snrThreshold { return Measurement(LowSnr, 0.0, 0.0, 0.0, 0.0); }
      if distance < cfg.minDistance || distance > cfg.maxDistance { return Measurement(OutOfRange, 0.0, 0.0, 0.0, 0.0); }
      m := Record(snr, distance, correct, sqrt);
    }

    /** A distance that passed all checks: level, correction, wave height, statistics. */
    method Record(snr: real, distance: real, correct: real -> Correction, sqrt: real -> real) returns (m: Measurement)
      requires Valid() && cfg.minDistance <= distance
      modifies `stats, `distances, `snrs, `corrections, `waveIdx, waveBuf
      ensures Valid() && distances == old(distances) + [distance] && snrs == old(snrs) + [snr]
      ensures corrections == match correct(m.level) case NotApplied => old(corrections) case Applied(v) => old(corrections) + [Abs(v)]
      ensures stats.measurements == old(stats.measurements) && stats.errors == old(stats.errors)
      ensures m.status == Status.Valid && m.distance == distance && m.snr == snr
      ensures m.status == Status.Valid ==>
        && (0.0 <= cfg.tankHeight - m.distance < 1e100 ==> m.level == cfg.tankHeight - m.distance)
        && (m.distance > cfg.tankHeight || cfg.tankHeight - m.distance >= 1e100 ==> m.level == 0.0)
        && m.level >= 0.0 && m.waveHeight >= 0.0
      ensures m.status == Status.Valid && cfg.minDistance > 0.0 ==>
        var w := FourSigma(Window(old(distances)), sqrt); m.waveHeight == if 0.0 <= w < 1e100 then w else 0.0
    {
      hide Mean, RunningMin, RunningMax, Holds, FourSigma, IsFinite, AtLeast, Sensible;
      SensibleIs(cfg.tankHeight - distance);
      var level := Sensible(cfg.tankHeight - distance);
      FoldCorrection(correct(level));
      var waveHeight := CalculateWaveHeight(sqrt);
      SensibleIs(waveHeight);
      waveHeight := Sensible(waveHeight);
      FoldMeasurement(snr, distance);
      m := Measurement(Status.Valid, distance, level, snr, waveHeight);
    }

    /** The running mean of the correction magnitudes. */
    method FoldCorrection(c: Correction)
      requires Valid()
      modifies `stats, `corrections
      ensures Valid()
      ensures stats == old(stats).(corrections := stats.corrections, avgCorrection := stats.avgCorrection)
      ensures corrections == match c case NotApplied => old(corrections) case Applied(v) => old(corrections) + [Abs(v)]
    {
      hide Mean, RunningMin, RunningMax, Holds;
      match c
      case NotApplied =>
      case Applied(v) =>
        MeanAppend(corrections, Abs(v));
        var n := stats.corrections + 1;
        stats := stats.(corrections := n, avgCorrection := (stats.avgCorrection * (n - 1) as real + Abs(v)) / n as real);
        corrections := corrections + [Abs(v)];
    }

    /** Running mean and extrema, then the circular buffer. */
    method FoldMeasurement(snr: real, distance: real)
      requires Valid() && cfg.minDistance <= distance
      modifies `stats, `distances, `snrs, `waveIdx, waveBuf
      ensures Valid() && distances == old(distances) + [distance] && snrs == old(snrs) + [snr]
      ensures stats == old(stats).(valid := stats.valid, avgSnr := stats.avgSnr, minDistance := stats.minDistance, maxDistance := stats.maxDistance)
    {
      hide Mean, Holds, RunningMin, RunningMax, AtLeast;
      MeanAppend(snrs, snr);
      HoldsNext(waveBuf[..], waveIdx, distances, distance);
      ExtremaAppend(distances, distance, cfg.minDistance);
      var n := stats.valid + 1;
      stats := stats.(valid := n, avgSnr := (stats.avgSnr * (n - 1) as real + snr) / n as real);
      if stats.minDistance == 0.0 || distance < stats.minDistance { stats := stats.(minDistance := distance); }
      if distance > stats.maxDistance { stats := stats.(maxDistance := distance); }
      snrs := snrs + [snr];
      distances := distances + [distance];
      waveBuf[waveIdx] := distance;
      waveIdx := (waveIdx + 1) % waveBuf.Length;
    }

    /** The wave height over the buffer; the distances are those before the current measurement. */
    method CalculateWaveHeight(sqrt: real -> real) returns (h: real)
      requires Valid()
      ensures cfg.minDistance > 0.0 ==> h == FourSigma(Window(distances), sqrt)
    {
      hide Mean, RunningMin, RunningMax, Holds, FourSigma, SumOf, Value, One, SquaredFrom;
      var avg, count := Accumulate(waveBuf);
      if cfg.minDistance > 0.0 { WindowSums(waveBuf[..], waveIdx, distances, 0.0, cfg.minDistance); }
      if count == 0 {
        if cfg.minDistance > 0.0 { EmptySigma(Window(distances), sqrt); }
        return 0.0;
      }
      avg := avg / count as real;
      var variance := Spread(waveBuf, avg);
      variance := variance / count as real;
      h := sqrt(variance) * 4.0;
      if cfg.minDistance > 0.0 {
        WindowSums(waveBuf[..], waveIdx, distances, avg, cfg.minDistance);
        SigmaIs(Window(distances), sqrt, avg, variance, count);
      }
    }
  }

  /** Every entry is a distance the calculator can measure: not negative, finite and in the configured range. */
  predicate InRange(s: seq<real>, cfg: Config) {
    forall i: nat :: i < |s| ==> 0.0 <= s[i] && IsFinite(s[i]) && cfg.minDistance <= s[i] <= cfg.maxDistance
  }

  /** On every run of such distances the kept extrema are the true ones. */
  ghost predicate ExtremaTrue(cfg: Config) {
    forall s: seq<real> :: s != [] && InRange(s, cfg) ==> IsMin(RunningMin(s), s) && IsMax(RunningMax(s), s)
  }

  lemma {:induction false} ZeroExtrema(s: seq<real>)
    requires s != [] && forall i: nat :: i < |s| ==> s[i] == 0.0
    ensures RunningMin(s) == 0.0 && RunningMax(s) == 0.0
  {
    if |s| > 1 { ZeroExtrema(s[..|s| - 1]); }
  }

  lemma WrongExtrema(cfg: Config, s: seq<real>)
    requires s != [] && InRange(s, cfg) && !IsMin(RunningMin(s), s)
    ensures !ExtremaTrue(cfg)
  {}

  /** A measured distance of 0 is forgotten as soon as another one follows. */
  lemma ZeroIsForgotten(y: real)
    requires y > 0.0
    ensures !IsMin(RunningMin([0.0, y]), [0.0, y])
  {
    assert [0.0, y][..1] == [0.0] && [0.0][..0] == [];
    assert RunningMin([0.0, y]) == y && [0.0, y][0] == 0.0;
  }

  /** The kept extrema are the true ones on all runs exactly when the minimum distance is positive, or the maximum is not. */
  lemma ExtremaExactly(cfg: Config)
    ensures ExtremaTrue(cfg) <==> cfg.minDistance > 0.0 || cfg.maxDistance <= 0.0
  {
    if cfg.minDistance > 0.0 || cfg.maxDistance <= 0.0 {
      forall s: seq<real> | s != [] && InRange(s, cfg)
        ensures IsMin(RunningMin(s), s) && IsMax(RunningMax(s), s)
      {
        if cfg.minDistance > 0.0 { TrueExtrema(s, cfg.minDistance); } else { ZeroExtrema(s); assert s[0] in s; }
      }
    } else {
      var y := Min(cfg.maxDistance, 1.0);
      ZeroIsForgotten(y);
      WrongExtrema(cfg, [0.0, y]);
    }
  }

  /** main replaces a minimum distance of 0 by 0.5. Of the configurations it lets through, exactly those with a negative minimum and a positive maximum fail. */
  lemma DefaultedExtremaExactly(cfg: Config, minDistance: real)
    requires cfg.minDistance == if minDistance == 0.0 then 0.5 else minDistance
    ensures ExtremaTrue(cfg) <==> minDistance >= 0.0 || cfg.maxDistance <= 0.0
  {
    hide ExtremaTrue;
    ExtremaExactly(cfg);
  }

  /** A single peak with a sufficient ratio, refined to the position of distance d. */
  function Echo(cfg: Config, scale: Scale, d: real): Target
    requires scale.resolution > 0.0
  {
    Target(Peak(0, 0, 0.0, 0.0, Max(cfg.snrThreshold, 0.0)), Some(d / scale.resolution))
  }

  /** Distances whose positions are finite, scored above -1 when their ratio is not negative. */
  predicate Reachable(s: seq<real>, scale: Scale)
    requires scale.resolution > 0.0
  {
    forall i: nat :: i < |s| ==> IsFinite(s[i] / scale.resolution)
  }

  ghost predicate Scores(scale: Scale) { forall p: Target :: p.peak.snr >= 0.0 ==> scale.score(p) > -1.0 }

  lemma EchoDistance(cfg: Config, scale: Scale, d: real)
    requires scale.resolution > 0.0 && d >= 0.0 && IsFinite(d) && IsFinite(d / scale.resolution)
    ensures DistanceOf(Echo(cfg, scale, d), scale) == d && OnGrid(Echo(cfg, scale, d))
  {
    var x := d / scale.resolution;
    QuotientTimes(d, scale.resolution);
    if d == 0.0 {
      assert x == 0.0;
    } else {
      QuotientNonNegative(d, scale.resolution);
    }
  }

  lemma QuotientNonNegative(a: real, n: real)
    requires n > 0.0 && a >= 0.0
    ensures a / n >= 0.0
  {}

  lemma EchoIsBest(cfg: Config, scale: Scale, d: real)
    requires IsFinite(cfg.snrThreshold) && scale.resolution > 0.0 && Scores(scale)
    requires 0.0 <= d && IsFinite(d) && cfg.minDistance <= d <= cfg.maxDistance && IsFinite(d / scale.resolution)
    ensures Best([Echo(cfg, scale, d)], cfg, scale, 0, 1) && Compensated(d, cfg, 20.0) == d
    ensures Judged(Echo(cfg, scale, d), cfg, scale, 20.0) == Status.Valid
  {
    hide DistanceOf;
    EchoDistance(cfg, scale, d);
  }

  method Measure(c: Calculator, scale: Scale, d: real, sqrt: real -> real)
    requires c.Valid() && c.lastTemp == 20.0 && IsFinite(c.cfg.snrThreshold) && scale.resolution > 0.0 && Scores(scale)
    requires 0.0 <= d && IsFinite(d) && c.cfg.minDistance <= d <= c.cfg.maxDistance && IsFinite(d / scale.resolution)
    modifies c, c.waveBuf
    ensures c.Valid() && c.lastTemp == 20.0 && c.distances == old(c.distances) + [d]
  {
    hide RunningMin, RunningMax, Best, Echo, Scores, Judged, Compensated, Mean, Holds, FourSigma, Window, Deviations, DistanceOf, IsFinite, OnGrid;
    var peaks := [Echo(c.cfg, scale, d)];
    EchoIsBest(c.cfg, scale, d);
    EchoDistance(c.cfg, scale, d);
    BestOrNone(peaks, c.cfg, scale, 1);
    forall i: nat | Best(peaks, c.cfg, scale, i, |peaks|)
      ensures i == 0
    {
      BestIsUnique(peaks, c.cfg, scale, i, 0);
    }
    var m := c.Calculate(peaks, scale, level => NotApplied, sqrt);
    assert m.status == Judged(peaks[0], c.cfg, scale, 20.0);
  }

  /**
   Every sequence of such distances is measured by some run, with one scale throughout: each frame has a
   single peak refined to the position that is at the distance.
   */
  method Replay(cfg: Config, scale: Scale, s: seq<real>, sqrt: real -> real) returns (c: Calculator)
    requires IsFinite(cfg.snrThreshold) && scale.resolution > 0.0 && Scores(scale) && InRange(s, cfg) && Reachable(s, scale)
    ensures fresh(c) && fresh(c.waveBuf) && c.cfg == cfg && c.Valid() && c.distances == s
    ensures c.stats.minDistance == RunningMin(s) && c.stats.maxDistance == RunningMax(s)
  {
    hide RunningMin, RunningMax, IsFinite, Mean, Holds, Scores;
    c := new Calculator(cfg);
    for i := 0 to |s|
      invariant fresh(c) && fresh(c.waveBuf) && c.cfg == cfg && c.Valid() && c.lastTemp == 20.0
      invariant c.distances == s[..i]
    {
      Measure(c, scale, s[i], sqrt);
    }
  }

  /** Sum and number of the used cells. */
  method Accumulate(buf: array<real>) returns (sum: real, count: nat)
    ensures sum == SumOf(buf[..], Value()) && count as real == SumOf(buf[..], One())
  {
    sum, count := 0.0, 0;
    for i := 0 to buf.Length
      invariant sum == SumOf(buf[..i], Value()) && count as real == SumOf(buf[..i], One())
    {
      assert buf[..i + 1][..i] == buf[..i];
      if buf[i] > 0.0 {
        sum := sum + buf[i];
        count := count + 1;
      }
    }
    assert buf[..buf.Length] == buf[..];
  }

  /** Squared deviations of the used cells from a mean. */
  method Spread(buf: array<real>, mean: real) returns (sum: real)
    ensures sum == SumOf(buf[..], SquaredFrom(mean))
  {
    hide Square;
    sum := 0.0;
    for i := 0 to buf.Length
      invariant sum == SumOf(buf[..i], SquaredFrom(mean))
    {
      assert buf[..i + 1][..i] == buf[..i];
      if buf[i] > 0.0 { sum := sum + Square(buf[i] - mean); }
    }
    assert buf[..buf.Length] == buf[..];
  }

  /** A level or height that is not finite or negative is reported as 0. */
  function Sensible(h: real): real { if !IsFinite(h) || h < 0.0 then 0.0 else h }

  lemma SensibleIs(h: real)
    ensures 0.0 <= h < 1e100 ==> Sensible(h) == h
    ensures h < 0.0 || h >= 1e100 ==> Sensible(h) == 0.0
  {}

  lemma EligibleIsFinite(p: Target, cfg: Config, scale: Scale)
    requires Eligible(p, cfg, scale)
    ensures IsFinite(p.peak.snr) && IsFinite(DistanceOf(p, scale))
  {}

  lemma EmptyWindow(buf: seq<real>)
    requires buf == Zeros(WAVE)
    ensures Holds(buf, 0, [])
  {
    assert buf[0..] + buf[..0] == buf;
    assert Zeros(WAVE) + [] == Zeros(WAVE);
  }

  lemma WindowSums(buf: seq<real>, idx: nat, s: seq<real>, mean: real, lo: real)
    requires Holds(buf, idx, s) && AtLeast(s, lo) && lo > 0.0
    ensures SumOf(buf, Value()) == Sum(Window(s)) && SumOf(buf, One()) == |Window(s)| as real
    ensures SumOf(buf, SquaredFrom(mean)) == Deviations(Window(s), mean)
  {
    hide Holds;
    BufferSum(buf, idx, s, Value());
    BufferSum(buf, idx, s, One());
    BufferSum(buf, idx, s, SquaredFrom(mean));
    PositiveSums(Window(s), mean);
  }

  lemma EmptySigma(s: seq<real>, sqrt: real -> real)
    requires |s| == 0
    ensures FourSigma(s, sqrt) == 0.0
  {}

  lemma SigmaIs(s: seq<real>, sqrt: real -> real, avg: real, variance: real, count: int)
    requires count == |s| > 0 && avg == Sum(s) / count as real && variance == Deviations(s, avg) / count as real
    ensures FourSigma(s, sqrt) == sqrt(variance) * 4.0
  {}
}
