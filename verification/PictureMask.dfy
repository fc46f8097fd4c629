/** The coherence mask on what the frame method hands it: a picture of magnitudes, in which every phase is 0. */
module PictureMask {
  import opened Complex
  import opened Reals
  import opened Numeric
  import opened Matrix
  import opened Coherence

  /** The angle of the non-negative real axis is 0. */
  ghost predicate RealAxis(lib: Library) { forall x: real :: x >= 0.0 ==> lib.atan2(0.0, x) == 0.0 }

  ghost predicate Magnitudes(data: seq<real>) { forall p: nat :: p < |data| ==> data[p] >= 0.0 }

  /** The settings the mask works with: the constructor leaves none of the three at zero or below. */
  datatype Settings = Settings(phaseWeight: real, amplitudeWeight: real, threshold: real)

  ghost predicate Usable(s: Settings) { s.phaseWeight > 0.0 && s.amplitudeWeight > 0.0 && s.threshold > 0.0 }

  /** The picture the frame method copies from the matrix. */
  function Picture(data: seq<real>, dopplerBins: nat, rangeBins: nat): (v: seq<seq<Complex>>)
    requires dopplerBins * rangeBins <= |data|
    ensures |v| == dopplerBins
    ensures forall d: nat :: d < dopplerBins ==> |v[d]| == rangeBins
    ensures forall d: nat, r: nat :: d < dopplerBins && r < rangeBins ==>
              v[d][r] == Complex(Cell(data, dopplerBins, rangeBins, d, r), 0.0)
  {
    seq(dopplerBins, (d: nat) requires d < dopplerBins =>
      seq(rangeBins, (r: nat) requires r < rangeBins => Complex(Cell(data, dopplerBins, rangeBins, d, r), 0.0)))
  }

  function JobOf(data: seq<real>, dopplerBins: nat, rangeBins: nat, s: Settings, lib: Library): (job: MaskJob)
    requires dopplerBins * rangeBins <= |data|
  {
    MaskJob(data, Picture(data, dopplerBins, rangeBins), dopplerBins, rangeBins, s.phaseWeight, s.amplitudeWeight, s.threshold, lib)
  }

  lemma PhasesAreZero(data: seq<real>, dopplerBins: nat, rangeBins: nat, s: Settings, lib: Library, r: nat)
    requires dopplerBins * rangeBins <= |data| && Magnitudes(data) && RealAxis(lib) && r < rangeBins
    ensures forall d: nat :: d < dopplerBins ==> Phases(JobOf(data, dopplerBins, rangeBins, s, lib), r)[d] == 0.0
  {
    hide At;
    var job := JobOf(data, dopplerBins, rangeBins, s, lib);
    forall d: nat | d < dopplerBins
      ensures PhaseOf(job.spectrum, lib, d, r) == 0.0
    {
      AtBound(d, r, dopplerBins, rangeBins);
      assert job.spectrum[d][r] == Complex(Cell(data, dopplerBins, rangeBins, d, r), 0.0);
    }
  }

  /** So the phase coherence is 1 from three Doppler bins on. */
  lemma CoherentPicture(data: seq<real>, dopplerBins: nat, rangeBins: nat, s: Settings, lib: Library, r: nat)
    requires dopplerBins * rangeBins <= |data| && Magnitudes(data) && ValidLibrary(lib) && RealAxis(lib) && r < rangeBins
    ensures PhaseCoherence(Phases(JobOf(data, dopplerBins, rangeBins, s, lib), r), lib) == if dopplerBins < 3 then 0.0 else 1.0
  {
    hide JobOf, Phases, Square;
    PhasesAreZero(data, dopplerBins, rangeBins, s, lib, r);
    var phases := Phases(JobOf(data, dopplerBins, rangeBins, s, lib), r);
    SizeOf(data, dopplerBins, rangeBins, s, lib);
    if dopplerBins >= 3 {
      assert forall i: nat :: i + 1 < |phases| ==> StepAfter(phases, lib, i) == 0.0;
      ConstantSlopeScoresOne(phases, lib, 0.0);
    }
  }

  lemma SizeOf(data: seq<real>, dopplerBins: nat, rangeBins: nat, s: Settings, lib: Library)
    requires dopplerBins * rangeBins <= |data|
    ensures var job := JobOf(data, dopplerBins, rangeBins, s, lib);
      && job.rd == data && job.dopplerBins == dopplerBins && job.rangeBins == rangeBins && job.lib == lib
      && job.phaseWeight == s.phaseWeight && job.amplitudeWeight == s.amplitudeWeight && job.threshold == s.threshold
  {}

  /** Whatever the amplitudes, the score is at least what the phase weight alone gives. */
  lemma ScoreAtLeast(amplitude: real, phaseWeight: real, amplitudeWeight: real)
    requires phaseWeight > 0.0 && amplitudeWeight > 0.0
    ensures Combined(1.0, amplitude, phaseWeight, amplitudeWeight) >= Clamp01(phaseWeight)
  {
    ProductNonNegative(Clamp01(amplitude), amplitudeWeight);
  }

  lemma DarkScore(phase: real, phaseWeight: real, amplitudeWeight: real)
    requires phaseWeight > 0.0 && (phase == 0.0 || phase == 1.0)
    ensures Combined(phase, 0.0, phaseWeight, amplitudeWeight) == if phase == 0.0 then 0.0 else Clamp01(phaseWeight)
  {}

  lemma NeverIncoherent(data: seq<real>, dopplerBins: nat, rangeBins: nat, s: Settings, lib: Library, r: nat)
    requires dopplerBins * rangeBins <= |data| && Magnitudes(data) && ValidLibrary(lib) && RealAxis(lib) && r < rangeBins
    requires Usable(s) && dopplerBins >= 3 && s.threshold <= Clamp01(s.phaseWeight)
    ensures !Incoherent(JobOf(data, dopplerBins, rangeBins, s, lib), r)
  {
    hide JobOf, Phases, Amplitudes, PhaseCoherence, AmplitudeStability, Combined;
    SizeOf(data, dopplerBins, rangeBins, s, lib);
    CoherentPicture(data, dopplerBins, rangeBins, s, lib, r);
    ScoreAtLeast(AmplitudeStability(Amplitudes(JobOf(data, dopplerBins, rangeBins, s, lib), r), lib), s.phaseWeight, s.amplitudeWeight);
  }

  // ---------------------------------------------------------------- a dark matrix

  function Dark(n: nat): (data: seq<real>)
    ensures |data| == n && forall p: nat :: p < n ==> data[p] == 0.0
  {
    seq(n, (p: nat) => 0.0)
  }

  lemma {:induction false} DarkTotal(a: seq<real>, n: nat)
    requires n <= |a| && forall i: nat :: i < |a| ==> a[i] == 0.0
    ensures Total(a, n) == 0.0
  {
    if n > 0 { DarkTotal(a, n - 1); }
  }

  lemma DarkStability(a: seq<real>, lib: Library)
    requires forall i: nat :: i < |a| ==> a[i] == 0.0
    ensures AmplitudeStability(a, lib) == 0.0
  {
    hide Total;
    DarkTotal(a, |a|);
  }

  lemma DarkAmplitudes(dopplerBins: nat, rangeBins: nat, s: Settings, lib: Library, r: nat)
    requires r < rangeBins
    ensures AmplitudeStability(Amplitudes(JobOf(Dark(dopplerBins * rangeBins), dopplerBins, rangeBins, s, lib), r), lib) == 0.0
  {
    hide At, AmplitudeStability;
    var job := JobOf(Dark(dopplerBins * rangeBins), dopplerBins, rangeBins, s, lib);
    forall d: nat | d < dopplerBins
      ensures Amplitudes(job, r)[d] == 0.0
    {
      AtBound(d, r, dopplerBins, rangeBins);
    }
    DarkStability(Amplitudes(job, r), lib);
  }

  lemma DarkIsIncoherent(dopplerBins: nat, rangeBins: nat, s: Settings, lib: Library, r: nat)
    requires ValidLibrary(lib) && RealAxis(lib) && r < rangeBins && Usable(s)
    requires dopplerBins < 3 || Clamp01(s.phaseWeight) < s.threshold
    ensures Incoherent(JobOf(Dark(dopplerBins * rangeBins), dopplerBins, rangeBins, s, lib), r)
  {
    hide JobOf, Phases, Amplitudes, PhaseCoherence, AmplitudeStability, Combined;
    var data := Dark(dopplerBins * rangeBins);
    SizeOf(data, dopplerBins, rangeBins, s, lib);
    CoherentPicture(data, dopplerBins, rangeBins, s, lib, r);
    DarkAmplitudes(dopplerBins, rangeBins, s, lib, r);
    DarkScore(if dopplerBins < 3 then 0.0 else 1.0, s.phaseWeight, s.amplitudeWeight);
  }

  // ---------------------------------------------------------------- when the mask can act

  /** Column r of some matrix of magnitudes is masked. */
  ghost predicate CanMask(dopplerBins: nat, rangeBins: nat, s: Settings, lib: Library, r: nat)
    requires ValidLibrary(lib) && r < rangeBins
  {
    exists data: seq<real> :: |data| == dopplerBins * rangeBins && Magnitudes(data) && Incoherent(JobOf(data, dopplerBins, rangeBins, s, lib), r)
  }

  /**
   On the frame method's pictures the mask can mask a column exactly for fewer than three Doppler bins or a
   threshold above the phase weight, cut to 1; and then it masks a dark one.
   */
  lemma CanMaskExactly(dopplerBins: nat, rangeBins: nat, s: Settings, lib: Library, r: nat)
    requires ValidLibrary(lib) && RealAxis(lib) && Usable(s) && r < rangeBins
    ensures CanMask(dopplerBins, rangeBins, s, lib, r) <==> dopplerBins < 3 || Clamp01(s.phaseWeight) < s.threshold
  {
    hide Incoherent, Magnitudes, Clamp01;
    if dopplerBins < 3 || Clamp01(s.phaseWeight) < s.threshold {
      var data := Dark(dopplerBins * rangeBins);
      DarkMagnitudes(dopplerBins * rangeBins);
      DarkIsIncoherent(dopplerBins, rangeBins, s, lib, r);
    } else {
      forall data: seq<real> | |data| == dopplerBins * rangeBins && Magnitudes(data)
        ensures !Incoherent(JobOf(data, dopplerBins, rangeBins, s, lib), r)
      {
        NeverIncoherent(data, dopplerBins, rangeBins, s, lib, r);
      }
    }
  }

  lemma DarkMagnitudes(n: nat)
    ensures Magnitudes(Dark(n))
  {}

  /** With the shipped weights and threshold no column is ever masked. */
  lemma {:induction false} ShippedMaskIdle(data: seq<real>, dopplerBins: nat, rangeBins: nat, lib: Library, n: nat)
    requires dopplerBins * rangeBins <= |data| && Magnitudes(data) && ValidLibrary(lib) && RealAxis(lib) && dopplerBins >= 3 && n <= rangeBins
    ensures var job := JobOf(data, dopplerBins, rangeBins, Settings(0.6, 0.4, 0.35), lib);
      && job.lib == lib && job.rangeBins == rangeBins && job.dopplerBins == dopplerBins && job.rd == data
      && IncoherentColumns(job, n) == 0
  {
    hide JobOf, Incoherent, Magnitudes;
    var s := Settings(0.6, 0.4, 0.35);
    SizeOf(data, dopplerBins, rangeBins, s, lib);
    if n > 0 {
      ShippedMaskIdle(data, dopplerBins, rangeBins, lib, n - 1);
      NeverIncoherent(data, dopplerBins, rangeBins, s, lib, n - 1);
    }
  }
}
