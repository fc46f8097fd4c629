/** Detection end to end: sanitise a copy, mask, detect, suppress multipath, refine each peak. */
module DetectPeaks {
  import opened Complex
  import opened Peaks
  import opened Reals
  import opened Numeric
  import opened Matrix
  import Coherence
  import Cfar
  import Multipath
  import SubPixel

  ghost predicate NonNegative(data: seq<real>) { forall i: nat :: i < |data| ==> data[i] >= 0.0 }

  /** Detections on non-negative data have a non-negative signal-to-noise ratio. */
  lemma DetectionRatio(p: Peak, job: Cfar.Job)
    requires Cfar.ValidJob(job) && NonNegative(job.data) && Cfar.IsDetection(p, job)
    ensures p.snr >= 0.0 && 0 <= p.rangeBin < job.cols && 0 <= p.dopplerBin < job.rows
  {
    AtBound(p.dopplerBin, p.rangeBin, job.rows, job.cols);
    Ratio(p.amplitude, Max(Cfar.Mean(job, p.dopplerBin, p.rangeBin), Cfar.FLOOR));
  }

  lemma Ratio(a: real, b: real)
    requires a >= 0.0 && b > 0.0
    ensures a / b >= 0.0
  {}

  lemma AllRatios(peaks: seq<Peak>, job: Cfar.Job)
    requires Cfar.Complete(peaks, job) && NonNegative(job.data)
    ensures Multipath.NonNegative(peaks)
    ensures forall i: nat :: i < |peaks| ==> 0 <= peaks[i].rangeBin < job.cols && 0 <= peaks[i].dopplerBin < job.rows
  {
    hide Cfar.IsDetection;
    forall i: nat | i < |peaks|
      ensures peaks[i].snr >= 0.0 && 0 <= peaks[i].rangeBin < job.cols && 0 <= peaks[i].dopplerBin < job.rows
    {
      DetectionRatio(peaks[i], job);
    }
  }

  /** The masked matrix has no negative cell. */
  lemma MaskedNonNegative(masked: seq<real>, job: Coherence.MaskJob, r: nat)
    requires Coherence.ColumnsDone(masked, job, r) && NonNegative(job.rd)
    ensures NonNegative(masked)
  {
    hide Coherence.MaskedCell, Coherence.Clean, Coherence.ValidLibrary;
    forall p: nat | p < |masked|
      ensures masked[p] >= 0.0
    {
      if p < job.dopplerBins * job.rangeBins {
        var d, c := CellAt(p, job.dopplerBins, job.rangeBins);
        Coherence.MaskedCellNonNegative(job, d, c);
        Coherence.CleanNonNegative(job, d, c);
        assert masked[p] == Cell(masked, job.dopplerBins, job.rangeBins, d, c);
      }
    }
  }

  /** The matrix with non-finite and negative values replaced by 0. */
  function SanitisedCopy(matrix: seq<real>): (copy: seq<real>)
    ensures |copy| == |matrix|
  {
    seq(|matrix|, (i: nat) requires i < |matrix| => Sanitised(matrix[i]))
  }

  lemma CopyNonNegative(matrix: seq<real>)
    ensures NonNegative(SanitisedCopy(matrix))
  {}

  /** What is left after suppression of what the detector reported. */
  function Left(detected: seq<Peak>, enabled: bool, order: nat, depth: real): seq<Peak> {
    if enabled && |detected| >= 2 then Multipath.Filtered(detected, order, depth) else detected
  }

  /** Some peak that is left is as strong as any detection. */
  ghost predicate KeepsStrongest(left: seq<Peak>, detected: seq<Peak>) {
    exists i: nat :: i < |left| && forall j: nat :: j < |detected| ==> detected[j].snr <= left[i].snr
  }

  /** A strongest detection survives: the list is never emptied by suppression of depth at most 1. */
  lemma StrongestSurvives(detected: seq<Peak>, enabled: bool, order: nat, depth: real)
    requires Multipath.NonNegative(detected) && |detected| > 0 && 0.0 < depth <= 1.0
    ensures KeepsStrongest(Left(detected, enabled, order, depth), detected)
  {
    hide Multipath.Flags;
    var m := Multipath.SomeStrongest(detected);
    if enabled && |detected| >= 2 {
      Multipath.StrongestIsKept(detected, order, depth, m);
      Multipath.FilteredIsSubsequence(detected, order, depth);
      var at := Multipath.Survivors(detected, order, depth);
      var i: nat :| i < |at| && at[i] == m;
      assert Left(detected, enabled, order, depth)[i] == detected[m];
    } else {
      assert Left(detected, enabled, order, depth)[m] == detected[m];
    }
  }

  /** Every peak left is one of the detections. */
  lemma LeftAreDetected(detected: seq<Peak>, enabled: bool, order: nat, depth: real, i: nat)
    requires i < |Left(detected, enabled, order, depth)|
    ensures Left(detected, enabled, order, depth)[i] in detected
  {
    hide Multipath.Flags;
    if enabled && |detected| >= 2 { Multipath.FilteredIsSubsequence(detected, order, depth); }
  }

  /** The three stages, as configured. */
  class Detector {
    const mask: Coherence.CoherenceMask
    const suppressor: Multipath.MultipathSuppressor
    const solver: SubPixel.DLSSubPixelSolver
    const guardCells: nat
    const trainCells: nat
    const threshold: real

    constructor (mask: Coherence.CoherenceMask, suppressor: Multipath.MultipathSuppressor, solver: SubPixel.DLSSubPixelSolver,
                 guardCells: nat, trainCells: nat, threshold: real)
      ensures this.mask == mask && this.suppressor == suppressor && this.solver == solver
      ensures this.guardCells == guardCells && this.trainCells == trainCells && this.threshold == threshold
    {
      this.mask, this.suppressor, this.solver := mask, suppressor, solver;
      this.guardCells, this.trainCells, this.threshold := guardCells, trainCells, threshold;
    }

    /** What the mask is given: the sanitised copy of the matrix, the spectrum and the mask's settings. */
    function MaskJobOf(matrix: seq<real>, spectrum: seq<seq<Complex>>, dopplerBins: nat, rangeBins: nat, lib: Coherence.Library): Coherence.MaskJob {
      Coherence.MaskJob(SanitisedCopy(matrix), spectrum, dopplerBins, rangeBins, mask.phaseWeight, mask.amplitudeWeight, mask.threshold, lib)
    }

    /** masked is what the mask makes of the matrix, and average its mean score: columns are only touched when it is enabled. */
    ghost predicate MaskedFrom(masked: seq<real>, average: real, job: Coherence.MaskJob)
      requires Coherence.ValidJob(job)
    {
      && |masked| == |job.rd|
      && Coherence.ColumnsDone(masked, job, if mask.enabled then job.rangeBins else 0)
      && average == if mask.enabled then Coherence.MeanScore(job) else 1.0
    }

    /** The position the solver gives a peak on the masked matrix. */
    function RefinedPeak(masked: seq<real>, p: Peak, dopplerBins: nat, rangeBins: nat,
                         lib: Coherence.Library, cond: SubPixel.Mat2 -> real, log: real -> real): SubPixel.Outcome
      requires solver.Valid() && dopplerBins * rangeBins <= |masked|
    {
      SubPixel.Solved(solver.SetupOf(masked, p.rangeBin, p.dopplerBin, rangeBins, dopplerBins, cond, lib.hypot), log, solver.enabled)
    }

    /**
     Works on a sanitised copy of the matrix; the result's own matrix is only read. masked is the matrix
     the detector saw and detected its report; refined[i] belongs to peaks[i].
     */
    method DetectPeaks(matrix: array<real>, spectrum: seq<seq<Complex>>, dopplerBins: nat, rangeBins: nat,
                       lib: Coherence.Library, cond: SubPixel.Mat2 -> real, log: real -> real)
      returns (peaks: seq<Peak>, refined: seq<SubPixel.Outcome>, average: real, ghost masked: seq<real>, ghost detected: seq<Peak>)
      requires suppressor.Valid() && solver.Valid() && Coherence.ValidLibrary(lib) && dopplerBins * rangeBins <= matrix.Length
      ensures Coherence.ValidJob(MaskJobOf(matrix[..], spectrum, dopplerBins, rangeBins, lib))
      ensures MaskedFrom(masked, average, MaskJobOf(matrix[..], spectrum, dopplerBins, rangeBins, lib))
      ensures |masked| == matrix.Length && NonNegative(masked) && 0.0 <= average <= 1.0 && suppressor.harmonicOrder >= 0
      ensures Cfar.Complete(detected, Cfar.Job(masked, dopplerBins, rangeBins, guardCells, trainCells, threshold))
      ensures peaks == Left(detected, suppressor.enabled, suppressor.harmonicOrder, suppressor.nullDepth)
      ensures |detected| > 0 && suppressor.nullDepth <= 1.0 ==> KeepsStrongest(peaks, detected)
      ensures |refined| == |peaks|
      ensures forall i: nat :: i < |peaks| ==> refined[i] == RefinedPeak(masked, peaks[i], dopplerBins, rangeBins, lib, cond, log)
      ensures forall i: nat :: i < |peaks| ==> CloseBy(refined[i], peaks[i], dopplerBins, rangeBins)
    {
      hide *;
      var rdMatrix := CleanCopy(matrix);
      masked, average := MaskInPlace(rdMatrix, matrix[..], spectrum, dopplerBins, rangeBins, lib);
      var found := Cfar.CFARDetect(rdMatrix[..], dopplerBins, rangeBins, guardCells, trainCells, threshold);
      detected := found;
      AllRatios(detected, Cfar.Job(masked, dopplerBins, rangeBins, guardCells, trainCells, threshold));
      peaks := Suppress(found);
      Depth(suppressor);
      if |detected| > 0 && suppressor.nullDepth <= 1.0 {
        StrongestSurvives(detected, suppressor.enabled, suppressor.harmonicOrder, suppressor.nullDepth);
      }
      LeftOnGrid(detected, suppressor.enabled, suppressor.harmonicOrder, suppressor.nullDepth, dopplerBins, rangeBins);
      refined := Refine(rdMatrix[..], peaks, dopplerBins, rangeBins, cond, lib, log);
    }

    /** The copy the detector works on: non-finite and negative values become 0. */
    method CleanCopy(matrix: array<real>) returns (copy: array<real>)
      ensures fresh(copy) && copy.Length == matrix.Length && copy[..] == SanitisedCopy(matrix[..])
    {
      copy := new real[matrix.Length];
      for i := 0 to matrix.Length
        invariant forall j: nat :: j < i ==> copy[j] == Sanitised(matrix[j])
      {
        var v := matrix[i];
        copy[i] := if !IsFinite(v) || v < 0.0 then 0.0 else v;
      }
    }

    method MaskInPlace(rdMatrix: array<real>, ghost matrix: seq<real>, spectrum: seq<seq<Complex>>, dopplerBins: nat, rangeBins: nat, lib: Coherence.Library)
      returns (ghost masked: seq<real>, average: real)
      requires Coherence.ValidLibrary(lib) && dopplerBins * rangeBins <= rdMatrix.Length && rdMatrix[..] == SanitisedCopy(matrix)
      modifies rdMatrix
      ensures masked == rdMatrix[..] && NonNegative(masked) && 0.0 <= average <= 1.0
      ensures Coherence.ValidJob(MaskJobOf(matrix, spectrum, dopplerBins, rangeBins, lib))
      ensures MaskedFrom(masked, average, MaskJobOf(matrix, spectrum, dopplerBins, rangeBins, lib))
    {
      ghost var job := MaskJobOf(matrix, spectrum, dopplerBins, rangeBins, lib);
      assert job == Coherence.MaskJob(rdMatrix[..], spectrum, dopplerBins, rangeBins, mask.phaseWeight, mask.amplitudeWeight, mask.threshold, lib);
      CopyNonNegative(matrix);
      ValidMask(job);
      hide *;
      var count;
      count, average := mask.Apply(rdMatrix, spectrum, dopplerBins, rangeBins, lib, job);
      masked := rdMatrix[..];
      MaskedNonNegative(masked, job, if mask.enabled then rangeBins else 0);
      Coherence.MeanScoreRange(job);
      IsMaskedFrom(masked, average, job);
    }

    lemma IsMaskedFrom(masked: seq<real>, average: real, job: Coherence.MaskJob)
      requires Coherence.ValidJob(job) && |masked| == |job.rd|
      requires Coherence.ColumnsDone(masked, job, if mask.enabled then job.rangeBins else 0)
      requires average == if mask.enabled then Coherence.MeanScore(job) else 1.0
      ensures MaskedFrom(masked, average, job)
    {
      hide Coherence.ColumnsDone, Coherence.MeanScore, Coherence.ValidJob;
    }

    method Suppress(found: seq<Peak>) returns (left: seq<Peak>)
      requires suppressor.Valid()
      ensures suppressor.harmonicOrder >= 0
      ensures left == Left(found, suppressor.enabled, suppressor.harmonicOrder, suppressor.nullDepth)
    {
      hide Multipath.Filtered;
      var buf := new Peak[|found|](i requires 0 <= i < |found| => found[i]);
      assert buf[..|found|] == found;
      var n := suppressor.Apply(buf, |found|);
      left := buf[..n];
    }

    method Refine(data: seq<real>, peaks: seq<Peak>, dopplerBins: nat, rangeBins: nat,
                  cond: SubPixel.Mat2 -> real, lib: Coherence.Library, log: real -> real)
      returns (refined: seq<SubPixel.Outcome>)
      requires solver.Valid() && Coherence.ValidLibrary(lib) && dopplerBins * rangeBins <= |data|
      requires forall i: nat :: i < |peaks| ==> 0 <= peaks[i].rangeBin < rangeBins && 0 <= peaks[i].dopplerBin < dopplerBins
      ensures |refined| == |peaks|
      ensures forall i: nat :: i < |peaks| ==> refined[i] == RefinedPeak(data, peaks[i], dopplerBins, rangeBins, lib, cond, log)
      ensures forall i: nat :: i < |peaks| ==> CloseBy(refined[i], peaks[i], dopplerBins, rangeBins)
    {
      hide Square, SubPixel.Round, SubPixel.Solved, SubPixel.Reach, CloseBy, RefinedPeak;
      refined := [];
      for i := 0 to |peaks|
        invariant |refined| == i
        invariant forall j: nat :: j < i ==> refined[j] == RefinedPeak(data, peaks[j], dopplerBins, rangeBins, lib, cond, log)
        invariant forall j: nat :: j < i ==> CloseBy(refined[j], peaks[j], dopplerBins, rangeBins)
      {
        var o := RefineOne(data, peaks[i], dopplerBins, rangeBins, cond, lib, log);
        refined := refined + [o];
      }
    }

    method RefineOne(data: seq<real>, p: Peak, dopplerBins: nat, rangeBins: nat,
                     cond: SubPixel.Mat2 -> real, lib: Coherence.Library, log: real -> real)
      returns (o: SubPixel.Outcome)
      requires solver.Valid() && Coherence.ValidLibrary(lib) && dopplerBins * rangeBins <= |data|
      requires 0 <= p.rangeBin < rangeBins && 0 <= p.dopplerBin < dopplerBins
      ensures o == RefinedPeak(data, p, dopplerBins, rangeBins, lib, cond, log)
      ensures CloseBy(o, p, dopplerBins, rangeBins)
    {
      hide Square, SubPixel.Round, SubPixel.Solved, SubPixel.Reach;
      o := solver.Solve(data, p.rangeBin, p.dopplerBin, rangeBins, dopplerBins, cond, lib.hypot, log);
      SubPixel.SolvedOnGrid(solver.SetupOf(data, p.rangeBin, p.dopplerBin, rangeBins, dopplerBins, cond, lib.hypot), log, solver.enabled, o);
    }
  }

  /** Within the winning method's reach of the integer peak, and rounding to a cell of the grid. */
  ghost predicate CloseBy(o: SubPixel.Outcome, p: Peak, dopplerBins: nat, rangeBins: nat) {
    && Abs(o.rangeExact - p.rangeBin as real) <= SubPixel.Reach(o.how)
    && Abs(o.dopplerExact - p.dopplerBin as real) <= SubPixel.Reach(o.how)
    && 0 <= SubPixel.Round(o.rangeExact) < rangeBins && 0 <= SubPixel.Round(o.dopplerExact) < dopplerBins
  }

  lemma ValidMask(job: Coherence.MaskJob)
    requires Coherence.ValidLibrary(job.lib) && job.dopplerBins * job.rangeBins <= |job.rd|
    ensures Coherence.ValidJob(job)
  {}

  lemma Depth(s: Multipath.MultipathSuppressor)
    requires s.Valid()
    ensures s.nullDepth > 0.0 && s.harmonicOrder > 0
  {}

  lemma LeftOnGrid(detected: seq<Peak>, enabled: bool, order: nat, depth: real, dopplerBins: nat, rangeBins: nat)
    requires forall i: nat :: i < |detected| ==> 0 <= detected[i].rangeBin < rangeBins && 0 <= detected[i].dopplerBin < dopplerBins
    ensures var left := Left(detected, enabled, order, depth);
      forall i: nat :: i < |left| ==> 0 <= left[i].rangeBin < rangeBins && 0 <= left[i].dopplerBin < dopplerBins
  {
    hide Left;
    var left := Left(detected, enabled, order, depth);
    forall i: nat | i < |left|
      ensures 0 <= left[i].rangeBin < rangeBins && 0 <= left[i].dopplerBin < dopplerBins
    {
      LeftAreDetected(detected, enabled, order, depth, i);
    }
  }
}
