/** The coherence mask written out: scores, masked cells, count and average in terms of the input alone. */
module CoherenceLaws {
  import opened Complex
  import opened Reals
  import opened Matrix
  import opened RealSums
  import opened Coherence
  import PhaseUnwrap

  // ---------------------------------------------------------------- sums from the front

  lemma {:induction false} TotalIs(a: seq<real>, n: nat)
    requires n <= |a|
    ensures Total(a, n) == FrontSum(a[..n])
  {
    if n > 0 {
      TotalIs(a, n - 1);
      FrontSumAppend(a[..n - 1], a[n - 1]);
      assert a[..n] == a[..n - 1] + [a[n - 1]];
    }
  }

  lemma {:induction false} DeviationIs(a: seq<real>, mean: real, n: nat)
    requires n <= |a|
    ensures Deviation(a, mean, n) == FrontSum(SquaredDifferences(a[..n], mean))
  {
    hide Square;
    if n > 0 {
      DeviationIs(a, mean, n - 1);
      FrontSumAppend(SquaredDifferences(a[..n - 1], mean), Square(a[n - 1] - mean));
      assert SquaredDifferences(a[..n], mean) == SquaredDifferences(a[..n - 1], mean) + [Square(a[n - 1] - mean)];
    }
  }

  // ---------------------------------------------------------------- the two scores of a column

  /** The reciprocal of one plus the squared coefficient of variation; 0 for fewer than two amplitudes or a dark column. */
  lemma StabilityIs(a: seq<real>, lib: Library)
    requires ValidLibrary(lib)
    ensures |a| < 2 ==> AmplitudeStability(a, lib) == 0.0
    ensures |a| >= 2 ==>
      var mean := FrontSum(a) / |a| as real; var variance := FrontSum(SquaredDifferences(a, mean)) / |a| as real;
      && (mean < 1e-10 ==> AmplitudeStability(a, lib) == 0.0)
      && (mean >= 1e-10 ==> var cv := lib.sqrt(variance) / (mean + 1e-12); SquareSign(cv); AmplitudeStability(a, lib) == 1.0 / (1.0 + Square(cv)))
  {
    hide Square, Total, Deviation, FrontSum, SquaredDifferences;
    if |a| >= 2 {
      var mean := FrontSum(a) / |a| as real;
      assert a[..|a|] == a;
      TotalIs(a, |a|);
      DeviationIs(a, mean, |a|);
      if mean >= 1e-10 {
        NonNegativeRatio(Deviation(a, mean, |a|), |a| as real);
        var cv := lib.sqrt(Deviation(a, mean, |a|) / |a| as real) / (mean + 1e-12);
        SquareSign(cv);
        Reciprocal(Square(cv));
      }
    }
  }

  /** A value of each wrapped step between neighbours. */
  function OfSteps(phases: seq<real>, pi: real, f: real -> real): (t: seq<real>)
    requires pi > 3.0 && |phases| > 0
    ensures |t| == |phases| - 1
  {
    seq(|phases| - 1, (i: nat) requires i + 1 < |phases| => f(PhaseUnwrap.Wrap(phases[i + 1] - phases[i], pi, pi)))
  }

  lemma StepTerm(phases: seq<real>, lib: Library, f: real -> real, i: nat)
    requires lib.pi > 3.0 && i + 1 < |phases|
    ensures OfSteps(phases, lib.pi, f)[i] == f(StepAfter(phases, lib, i))
  {
    hide PhaseUnwrap.Wrap;
  }

  lemma {:induction false} ResultantIs(phases: seq<real>, lib: Library, m: nat)
    requires lib.pi > 3.0 && m < |phases|
    ensures Resultant(phases, lib, m) == Complex(FrontSum(OfSteps(phases, lib.pi, lib.cos)[..m]), FrontSum(OfSteps(phases, lib.pi, lib.sin)[..m]))
  {
    hide OfSteps, StepAfter, FrontSum;
    if m == 0 {
      NoTerms(OfSteps(phases, lib.pi, lib.cos));
      NoTerms(OfSteps(phases, lib.pi, lib.sin));
    } else {
      ResultantIs(phases, lib, m - 1);
      OneMoreTerm(OfSteps(phases, lib.pi, lib.cos), m - 1);
      OneMoreTerm(OfSteps(phases, lib.pi, lib.sin), m - 1);
      StepTerm(phases, lib, lib.cos, m - 1);
      StepTerm(phases, lib, lib.sin, m - 1);
    }
  }

  /** The length of the mean unit vector over the wrapped steps; 0 for fewer than three phases. */
  lemma CoherenceIs(phases: seq<real>, lib: Library)
    requires ValidLibrary(lib)
    ensures |phases| < 3 ==> PhaseCoherence(phases, lib) == 0.0
    ensures |phases| >= 3 ==>
      var length := lib.hypot(FrontSum(OfSteps(phases, lib.pi, lib.sin)), FrontSum(OfSteps(phases, lib.pi, lib.cos)));
      PhaseCoherence(phases, lib) == length / (|phases| - 1) as real
  {
    hide Resultant, OfSteps, Square;
    if |phases| >= 3 {
      var m := |phases| - 1;
      PhaseCoherenceIs(phases, lib);
      ResultantIs(phases, lib, m);
      assert OfSteps(phases, lib.pi, lib.cos)[..m] == OfSteps(phases, lib.pi, lib.cos);
      assert OfSteps(phases, lib.pi, lib.sin)[..m] == OfSteps(phases, lib.pi, lib.sin);
    }
  }

  /** What the two profiles of a column hold: non-negative cells of ordinary size, and the angles of ordinary samples. */
  lemma ProfilesAre(job: MaskJob, r: nat, d: nat)
    requires job.dopplerBins * job.rangeBins <= |job.rd| && d < job.dopplerBins && r < job.rangeBins
    ensures d * job.rangeBins + r < |job.rd|
    ensures var v := job.rd[d * job.rangeBins + r]; Amplitudes(job, r)[d] == if 0.0 <= v <= 1e100 then v else 0.0
    ensures d < |job.spectrum| && r < |job.spectrum[d]| && -1e100 <= job.spectrum[d][r].re <= 1e100 && -1e100 <= job.spectrum[d][r].im <= 1e100 ==>
      Phases(job, r)[d] == job.lib.atan2(job.spectrum[d][r].im, job.spectrum[d][r].re)
    ensures !(d < |job.spectrum| && r < |job.spectrum[d]| && -1e100 <= job.spectrum[d][r].re <= 1e100 && -1e100 <= job.spectrum[d][r].im <= 1e100) ==>
      Phases(job, r)[d] == 0.0
  {
    AtBound(d, r, job.dopplerBins, job.rangeBins);
  }

  lemma PhaseCoherenceInUnit(phases: seq<real>, lib: Library)
    requires lib.pi > 3.0
    ensures 0.0 <= PhaseCoherence(phases, lib) <= 1.0
  {
    hide Resultant;
  }

  lemma StabilityInUnit(a: seq<real>, lib: Library)
    ensures 0.0 <= AmplitudeStability(a, lib) <= 1.0
  {
    hide Total, Deviation, Square;
  }

  /** The weighted sum of the two, kept within [0, 1]. */
  lemma ScoreIs(job: MaskJob, r: nat, sum: real)
    requires job.lib.pi > 3.0 && job.dopplerBins * job.rangeBins <= |job.rd| && r < job.rangeBins
    requires sum == PhaseCoherence(Phases(job, r), job.lib) * job.phaseWeight + AmplitudeStability(Amplitudes(job, r), job.lib) * job.amplitudeWeight
    ensures Score(job, r) == if sum < 0.0 then 0.0 else if sum > 1.0 then 1.0 else sum
  {
    hide PhaseCoherence, AmplitudeStability, Phases, Amplitudes;
    PhaseCoherenceInUnit(Phases(job, r), job.lib);
    StabilityInUnit(Amplitudes(job, r), job.lib);
  }

  // ---------------------------------------------------------------- the output

  /** A cell comes out as it is, or a twentieth of that where its column scores below the threshold; bad cells are 0. */
  lemma MaskedCellIs(job: MaskJob, d: nat, r: nat)
    requires job.lib.pi > 3.0 && job.dopplerBins * job.rangeBins <= |job.rd| && d < job.dopplerBins && r < job.rangeBins
    ensures d * job.rangeBins + r < |job.rd|
    ensures var v := job.rd[d * job.rangeBins + r];
      MaskedCell(job, d, r) == (if 0.0 <= v <= 1e100 then v else 0.0) * (if Score(job, r) < job.threshold then 1.0 / 20.0 else 1.0)
  {
    hide Score;
    AtBound(d, r, job.dopplerBins, job.rangeBins);
  }

  /** The columns that score below the threshold. */
  ghost function LowColumns(job: MaskJob, n: nat): set<nat>
    requires job.lib.pi > 3.0 && job.dopplerBins * job.rangeBins <= |job.rd| && n <= job.rangeBins
  {
    set r: nat | r < n && Score(job, r) < job.threshold
  }

  lemma OneMoreColumn(job: MaskJob, n: nat)
    requires job.lib.pi > 3.0 && job.dopplerBins * job.rangeBins <= |job.rd| && n < job.rangeBins
    ensures n !in LowColumns(job, n)
    ensures LowColumns(job, n + 1) == if Score(job, n) < job.threshold then LowColumns(job, n) + {n} else LowColumns(job, n)
  {
    hide Score;
  }

  lemma OneMoreCounted(job: MaskJob, n: nat)
    requires job.lib.pi > 3.0 && job.dopplerBins * job.rangeBins <= |job.rd| && n < job.rangeBins
    ensures IncoherentColumns(job, n + 1) == IncoherentColumns(job, n) + if Score(job, n) < job.threshold then 1 else 0
  {
    hide Score;
  }

  lemma {:induction false} CountIs(job: MaskJob, n: nat)
    requires job.lib.pi > 3.0 && job.dopplerBins * job.rangeBins <= |job.rd| && n <= job.rangeBins
    ensures IncoherentColumns(job, n) == |LowColumns(job, n)|
  {
    hide Score, IncoherentColumns, LowColumns;
    if n == 0 {
      NoColumns(job);
    } else {
      CountIs(job, n - 1);
      OneMoreColumn(job, n - 1);
      OneMoreCounted(job, n - 1);
    }
  }

  lemma NoColumns(job: MaskJob)
    requires job.lib.pi > 3.0 && job.dopplerBins * job.rangeBins <= |job.rd|
    ensures IncoherentColumns(job, 0) == |LowColumns(job, 0)| == 0
  {
    hide Score;
    assert LowColumns(job, 0) == {};
  }

  /** The scores of the columns, with 0 for those below the threshold. */
  function KeptScores(job: MaskJob, n: nat): (t: seq<real>)
    requires job.lib.pi > 3.0 && job.dopplerBins * job.rangeBins <= |job.rd| && n <= job.rangeBins
    ensures |t| == n
  {
    seq(n, (r: nat) requires r < n => if Score(job, r) < job.threshold then 0.0 else Score(job, r))
  }

  lemma {:induction false} KeptTotalIs(job: MaskJob, n: nat)
    requires job.lib.pi > 3.0 && job.dopplerBins * job.rangeBins <= |job.rd| && n <= job.rangeBins
    ensures CoherentTotal(job, n) == FrontSum(KeptScores(job, n))
  {
    hide Score;
    if n > 0 {
      KeptTotalIs(job, n - 1);
      var x := KeptScores(job, n)[n - 1];
      FrontSumAppend(KeptScores(job, n - 1), x);
      assert KeptScores(job, n) == KeptScores(job, n - 1) + [x];
    }
  }

  /** The average is the total of the kept scores over the number of columns kept, 0 when none is. */
  lemma MeanScoreIs(job: MaskJob)
    requires ValidJob(job)
    ensures var kept := job.rangeBins - |LowColumns(job, job.rangeBins)|;
      && kept >= 0
      && (kept == 0 ==> MeanScore(job) == 0.0)
      && (kept > 0 ==> MeanScore(job) == FrontSum(KeptScores(job, job.rangeBins)) / kept as real)
  {
    hide IncoherentColumns, CoherentTotal, KeptScores, LowColumns, FrontSum;
    CountIs(job, job.rangeBins);
    KeptTotalIs(job, job.rangeBins);
  }

  /** What Apply leaves in the buffer: every cell written out, nothing beyond the grid touched. */
  lemma MaskLeaves(now: seq<real>, job: MaskJob, enabled: bool, d: nat, r: nat)
    requires ColumnsDone(now, job, if enabled then job.rangeBins else 0) && d < job.dopplerBins && r < job.rangeBins
    ensures job.lib.pi > 3.0 && d * job.rangeBins + r < |now| == |job.rd|
    ensures var v := job.rd[d * job.rangeBins + r];
      now[d * job.rangeBins + r] ==
        (if 0.0 <= v <= 1e100 then v else 0.0) * (if enabled && Score(job, r) < job.threshold then 1.0 / 20.0 else 1.0)
  {
    hide Score, MaskedCell, ValidLibrary;
    PiOf(job.lib);
    MaskedCellIs(job, d, r);
    CleanIs(job, d, r);
    assert Cell(now, job.dopplerBins, job.rangeBins, d, r) == if enabled then MaskedCell(job, d, r) else Clean(job, d, r);
  }

  lemma CleanIs(job: MaskJob, d: nat, r: nat)
    requires job.dopplerBins * job.rangeBins <= |job.rd| && d < job.dopplerBins && r < job.rangeBins
    ensures d * job.rangeBins + r < |job.rd|
    ensures var v := job.rd[d * job.rangeBins + r]; Clean(job, d, r) == if 0.0 <= v <= 1e100 then v else 0.0
  {
    AtBound(d, r, job.dopplerBins, job.rangeBins);
  }
}
