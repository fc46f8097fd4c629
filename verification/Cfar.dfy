/** The engine's constant-false-alarm-rate detector. */
module Cfar {
  import opened Ints
  import opened Peaks
  import opened Reals
  import opened Matrix
  import opened GridSums

  datatype Job = Job(data: seq<real>, rows: nat, cols: nat, guard: nat, train: nat, threshold: real)

  ghost predicate ValidJob(job: Job) { job.rows * job.cols <= |job.data| }

  function RingTotal(job: Job, row: int, col: int): real
    requires ValidJob(job)
  {
    RingSum(DataPlane(job.data, job.rows, job.cols), row, col, job.guard, job.guard + job.train)
  }

  /** Training cells of (row, col) that lie on the grid. */
  function RingCells(job: Job, row: int, col: int): real {
    RingSum(Ones(job.rows, job.cols), row, col, job.guard, job.guard + job.train)
  }

  predicate InRange(job: Job, row: int, col: int) {
    job.guard <= row < job.rows - job.guard && job.guard <= col < job.cols - job.guard
  }

  function Mean(job: Job, row: int, col: int): real
    requires ValidJob(job) && RingCells(job, row, col) > 0.0
  {
    RingTotal(job, row, col) / RingCells(job, row, col)
  }

  /** The cell stands out: it exceeds the threshold times the mean of its training ring. */
  predicate Detects(job: Job, row: int, col: int)
    requires ValidJob(job)
  {
    && InRange(job, row, col) && RingCells(job, row, col) > 0.0
    && DataPlane(job.data, job.rows, job.cols)(row, col) > Mean(job, row, col) * job.threshold
  }

  function PeakAt(job: Job, row: int, col: int): Peak
    requires ValidJob(job) && Detects(job, row, col)
  {
    var current := DataPlane(job.data, job.rows, job.cols)(row, col);
    Peak(col, row, current, current, current / Max(Mean(job, row, col), FLOOR))
  }

  /** The smallest mean the signal-to-noise ratio divides by. */
  const FLOOR := 1e-10

  // ---------------------------------------------------------------- what the sums mean

  /** The ring's sum is the outer square, clipped to the grid, less the guard square. */
  lemma RingTotalIs(job: Job, row: int, col: int)
    requires ValidJob(job)
    ensures var v, k := DataPlane(job.data, job.rows, job.cols), job.guard + job.train;
      RingTotal(job, row, col) == RectSum(v, row - k, row + k + 1, col - k, col + k + 1)
                                  - RectSum(v, row - job.guard, row + job.guard + 1, col - job.guard, col + job.guard + 1)
  {
    RingIsDifference(DataPlane(job.data, job.rows, job.cols), row, col, job.guard, job.guard + job.train);
  }

  /** The ring's cells are the clipped outer area less the whole guard square. */
  lemma RingCellsAre(job: Job, row: int, col: int)
    requires InRange(job, row, col)
    ensures var k := job.guard + job.train;
      RingCells(job, row, col) == (Overlap(row - k, row + k + 1, job.rows) * Overlap(col - k, col + k + 1, job.cols)
                                   - (2 * job.guard + 1) * (2 * job.guard + 1)) as real
  {
    RingCount(job.rows, job.cols, row, col, job.guard, job.guard + job.train);
  }

  /** There is nothing to compare with exactly when no training cells are asked for or the guard square fills the grid. */
  lemma NoTrainingExactly(job: Job, row: int, col: int)
    requires InRange(job, row, col)
    ensures RingCells(job, row, col) >= 0.0
    ensures RingCells(job, row, col) == 0.0 <==> job.train == 0 || (job.rows == 2 * job.guard + 1 && job.cols == 2 * job.guard + 1)
  {
    RingCellsAre(job, row, col);
    var k, side := job.guard + job.train, 2 * job.guard + 1;
    var tall, wide := Overlap(row - k, row + k + 1, job.rows), Overlap(col - k, col + k + 1, job.cols);
    assert tall >= side && wide >= side;
    SquareInside(tall, wide, side);
  }

  lemma SquareInside(tall: int, wide: int, side: int)
    requires tall >= side && wide >= side && side >= 1
    ensures tall * wide >= side * side
    ensures tall * wide == side * side <==> tall == side && wide == side
  {
    var a, b := tall - side, wide - side;
    assert tall * wide == side * side + a * side + b * side + a * b;
    assert a * side >= a && b * side >= b && a * b >= 0;
  }

  // ---------------------------------------------------------------- the detector

  predicate Before(r: int, c: int, row: int, col: int) { r < row || (r == row && c < col) }

  predicate IsDetection(p: Peak, job: Job)
    requires ValidJob(job)
  {
    Detects(job, p.dopplerBin, p.rangeBin) && p == PeakAt(job, p.dopplerBin, p.rangeBin)
  }

  /** The list holds the detections before (row, col), each once, in row-major order. */
  ghost predicate Reported(peaks: seq<Peak>, job: Job, row: int, col: int) {
    && ValidJob(job)
    && (forall i: nat :: i < |peaks| ==> IsDetection(peaks[i], job) && Before(peaks[i].dopplerBin, peaks[i].rangeBin, row, col))
    && (forall r: int, c: int :: Detects(job, r, c) && Before(r, c, row, col) ==> PeakAt(job, r, c) in peaks)
    && (forall i: nat, j: nat :: i < j < |peaks| ==>
          Before(peaks[i].dopplerBin, peaks[i].rangeBin, peaks[j].dopplerBin, peaks[j].rangeBin))
  }

  /** Exactly the detections, each once, in row-major order. */
  ghost predicate Complete(peaks: seq<Peak>, job: Job) {
    && ValidJob(job)
    && (forall i: nat :: i < |peaks| ==> IsDetection(peaks[i], job))
    && (forall r: int, c: int :: Detects(job, r, c) ==> PeakAt(job, r, c) in peaks)
    && (forall i: nat, j: nat :: i < j < |peaks| ==>
          Before(peaks[i].dopplerBin, peaks[i].rangeBin, peaks[j].dopplerBin, peaks[j].rangeBin))
  }

  lemma NothingReported(job: Job)
    requires ValidJob(job)
    ensures Reported([], job, job.guard, job.guard)
  {
    hide DataPlane, Mean, RingCells;
  }

  lemma ReportedStep(peaks: seq<Peak>, job: Job, row: int, col: int)
    requires Reported(peaks, job, row, col)
    ensures Reported(if Detects(job, row, col) then peaks + [PeakAt(job, row, col)] else peaks, job, row, col + 1)
  {
    hide DataPlane, Mean, RingCells;
    var next := if Detects(job, row, col) then peaks + [PeakAt(job, row, col)] else peaks;
    forall r: int, c: int | Detects(job, r, c) && Before(r, c, row, col + 1)
      ensures PeakAt(job, r, c) in next
    {
      if r == row && c == col { assert next[|peaks|] == PeakAt(job, row, col); }
    }
  }

  lemma ReportedRow(peaks: seq<Peak>, job: Job, row: int, col: int)
    requires Reported(peaks, job, row, col) && col >= job.cols - job.guard
    ensures Reported(peaks, job, row + 1, job.guard)
  {
    hide DataPlane, Mean, RingCells;
  }

  /** The list is determined by the job. */
  lemma CompleteIsUnique(a: seq<Peak>, b: seq<Peak>, job: Job)
    requires Complete(a, job) && Complete(b, job)
    ensures a == b
  {
    hide DataPlane, Mean, RingCells;
    ReportIsUnique(a, b, job, job.rows, 0);
  }

  lemma {:induction false} ReportIsUnique(a: seq<Peak>, b: seq<Peak>, job: Job, row: int, col: int)
    requires Reported(a, job, row, col) && Reported(b, job, row, col)
    ensures a == b
    decreases |a|
  {
    hide Detects, PeakAt, Reported;
    if a == [] || b == [] {
      SameEmptiness(a, b, job, row, col);
    } else {
      var p := a[|a| - 1];
      SameLast(a, b, job, row, col);
      ReportPrefix(a, job, row, col);
      ReportPrefix(b, job, row, col);
      ReportIsUnique(a[..|a| - 1], b[..|b| - 1], job, p.dopplerBin, p.rangeBin);
      assert a == a[..|a| - 1] + [p] && b == b[..|b| - 1] + [p];
    }
  }

  lemma SameEmptiness(a: seq<Peak>, b: seq<Peak>, job: Job, row: int, col: int)
    requires Reported(a, job, row, col) && Reported(b, job, row, col)
    ensures a == [] <==> b == []
  {
    hide Detects, PeakAt;
    if a != [] { assert PeakAt(job, a[0].dopplerBin, a[0].rangeBin) in b; }
    if b != [] { assert PeakAt(job, b[0].dopplerBin, b[0].rangeBin) in a; }
  }

  lemma SameLast(a: seq<Peak>, b: seq<Peak>, job: Job, row: int, col: int)
    requires Reported(a, job, row, col) && Reported(b, job, row, col) && a != [] && b != []
    ensures a[|a| - 1] == b[|b| - 1]
  {
    hide Detects, PeakAt;
    var p, q := a[|a| - 1], b[|b| - 1];
    assert PeakAt(job, p.dopplerBin, p.rangeBin) in b && PeakAt(job, q.dopplerBin, q.rangeBin) in a;
    var i :| 0 <= i < |b| && b[i] == p;
    var j :| 0 <= j < |a| && a[j] == q;
  }

  lemma ReportPrefix(a: seq<Peak>, job: Job, row: int, col: int)
    requires Reported(a, job, row, col) && a != []
    ensures Reported(a[..|a| - 1], job, a[|a| - 1].dopplerBin, a[|a| - 1].rangeBin)
  {
    hide DataPlane, Mean, RingCells;
    var p, most := a[|a| - 1], a[..|a| - 1];
    forall r: int, c: int | Detects(job, r, c) && Before(r, c, p.dopplerBin, p.rangeBin)
      ensures PeakAt(job, r, c) in most
    {
      var i :| 0 <= i < |a| && a[i] == PeakAt(job, r, c);
      assert most[i] == a[i];
    }
  }

  /** Sum and count of the training ring, by the two offset loops. */
  method Ring(data: seq<real>, rows: nat, cols: nat, row: int, col: int, guard: nat, train: nat, ghost job: Job)
    returns (sum: real, count: int)
    requires ValidJob(job) && job.data == data && job.rows == rows && job.cols == cols && job.guard == guard && job.train == train
    ensures sum == RingTotal(job, row, col) && count as real == RingCells(job, row, col)
  {
    hide DataPlane;
    sum, count := 0.0, 0;
    var g: int, k: int := guard, guard + train;
    ghost var v, ones := Masked(DataPlane(data, rows, cols), row, col, guard), Masked(Ones(rows, cols), row, col, guard);
    for dr := -k to k + 1
      invariant sum == RectSum(v, row - k, row + dr, col - k, col + k + 1)
      invariant count as real == RectSum(ones, row - k, row + dr, col - k, col + k + 1)
    {
      ghost var s, n := sum, count;
      for dc := -k to k + 1
        invariant sum == s + RowSum(v, row + dr, col - k, col + dc)
        invariant count as real == n as real + RowSum(ones, row + dr, col - k, col + dc)
      {
        RingTerm(job, row, col, row + dr, col + dc);
        if !(dr >= -g && dr <= g && dc >= -g && dc <= g) {
          var nr, nc := row + dr, col + dc;
          if nr >= 0 && nr < rows && nc >= 0 && nc < cols {
            AtBound(nr, nc, rows, cols);
            sum := sum + data[At(nr, nc, cols)];
            count := count + 1;
          }
        }
      }
    }
  }

  /** What one offset adds to the sum and to the count. */
  lemma RingTerm(job: Job, row: int, col: int, nr: int, nc: int)
    requires ValidJob(job)
    ensures var g: int := job.guard;
      var v, ones := Masked(DataPlane(job.data, job.rows, job.cols), row, col, job.guard)(nr, nc), Masked(Ones(job.rows, job.cols), row, col, job.guard)(nr, nc);
      if (-g <= nr - row <= g && -g <= nc - col <= g) || !(0 <= nr < job.rows && 0 <= nc < job.cols) then v == ones == 0.0
      else ones == 1.0 && At(nr, nc, job.cols) < |job.data| && v == job.data[At(nr, nc, job.cols)]
  {
    var plane, ones := DataPlane(job.data, job.rows, job.cols), Ones(job.rows, job.cols);
    if Inside(nr, row, job.guard) && Inside(nc, col, job.guard) {
      assert Masked(plane, row, col, job.guard)(nr, nc) == Masked(ones, row, col, job.guard)(nr, nc) == 0.0;
    } else {
      assert Masked(plane, row, col, job.guard)(nr, nc) == plane(nr, nc) && Masked(ones, row, col, job.guard)(nr, nc) == ones(nr, nc);
    }
    if 0 <= nr < job.rows && 0 <= nc < job.cols { AtBound(nr, nc, job.rows, job.cols); }
  }

  // ---------------------------------------------------------------- the same, written out

  /** Training cells on the grid: the clipped outer square less the guard square. */
  function TrainingCells(rows: nat, cols: nat, guard: nat, train: nat, row: int, col: int): int {
    var k := guard + train;
    ((if row + k + 1 > rows then rows else row + k + 1) - (if row - k < 0 then 0 else row - k))
      * ((if col + k + 1 > cols then cols else col + k + 1) - (if col - k < 0 then 0 else col - k))
      - (2 * guard + 1) * (2 * guard + 1)
  }

  /** Their mean: the clipped outer block less the guard block, over their number. */
  function TrainingMean(data: seq<real>, rows: nat, cols: nat, guard: nat, train: nat, row: int, col: int): real
    requires rows * cols <= |data| && guard <= row < rows - guard && guard <= col < cols - guard
  {
    var k, n := guard + train, TrainingCells(rows, cols, guard, train, row, col);
    if n == 0 then 0.0 else
      (Block(data, rows, cols, if row - k < 0 then 0 else row - k, if row + k + 1 > rows then rows else row + k + 1,
             if col - k < 0 then 0 else col - k, if col + k + 1 > cols then cols else col + k + 1)
       - Block(data, rows, cols, row - guard, row + guard + 1, col - guard, col + guard + 1))
        / n as real
  }

  /** The number at position p, of those there are. */
  function Nth(data: seq<real>, p: int): real { if 0 <= p < |data| then data[p] else 0.0 }

  predicate HasPeakAt(peaks: seq<Peak>, row: int, col: int) {
    exists i: nat :: i < |peaks| && peaks[i].dopplerBin == row && peaks[i].rangeBin == col
  }

  /** The peak says where it is, what it is, and how far it is above the mean, floored. */
  ghost predicate IsReport(p: Peak, data: seq<real>, rows: nat, cols: nat, guard: nat, train: nat) {
    && rows * cols <= |data| && guard <= p.dopplerBin < rows - guard && guard <= p.rangeBin < cols - guard
    && TrainingCells(rows, cols, guard, train, p.dopplerBin, p.rangeBin) > 0
    && p.amplitude == p.magnitude == Nth(data, p.dopplerBin * cols + p.rangeBin)
    && var mean := TrainingMean(data, rows, cols, guard, train, p.dopplerBin, p.rangeBin);
       p.snr == p.magnitude / (if mean > 1e-10 then mean else 1e-10)
  }

  lemma OverlapIs(lo: int, hi: int, n: nat)
    requires lo < n && hi > 0 && lo <= hi
    ensures Overlap(lo, hi, n) == (if hi > n then n else hi) - (if lo < 0 then 0 else lo)
  {}

  lemma CellsWritten(job: Job, row: int, col: int)
    requires InRange(job, row, col)
    ensures RingCells(job, row, col) == TrainingCells(job.rows, job.cols, job.guard, job.train, row, col) as real
  {
    var k := job.guard + job.train;
    RingCellsAre(job, row, col);
    OverlapIs(row - k, row + k + 1, job.rows);
    OverlapIs(col - k, col + k + 1, job.cols);
  }

  lemma MeanWritten(job: Job, row: int, col: int)
    requires ValidJob(job) && InRange(job, row, col) && TrainingCells(job.rows, job.cols, job.guard, job.train, row, col) > 0
    ensures RingCells(job, row, col) > 0.0
    ensures Mean(job, row, col) == TrainingMean(job.data, job.rows, job.cols, job.guard, job.train, row, col)
  {
    hide DataPlane, RingTotal, RingCells, Block, TrainingCells, RectSum;
    var k, g := job.guard + job.train, job.guard;
    CellsWritten(job, row, col);
    RingTotalIs(job, row, col);
    Clipped(job.data, job.rows, job.cols, row - k, row + k + 1, col - k, col + k + 1);
    Clipped(job.data, job.rows, job.cols, row - g, row + g + 1, col - g, col + g + 1);
  }

  /** Detection without the model's own terms. */
  lemma DetectsWritten(job: Job, row: int, col: int)
    requires ValidJob(job)
    ensures Detects(job, row, col) <==>
      && job.guard <= row < job.rows - job.guard && job.guard <= col < job.cols - job.guard
      && TrainingCells(job.rows, job.cols, job.guard, job.train, row, col) > 0
      && Nth(job.data, row * job.cols + col) > job.threshold * TrainingMean(job.data, job.rows, job.cols, job.guard, job.train, row, col)
    ensures Detects(job, row, col) ==> IsReport(PeakAt(job, row, col), job.data, job.rows, job.cols, job.guard, job.train)
  {
    hide RingCells, Mean, TrainingCells, TrainingMean;
    if InRange(job, row, col) {
      CellsWritten(job, row, col);
      RowMajorBound(row, col, job.rows, job.cols);
      if TrainingCells(job.rows, job.cols, job.guard, job.train, row, col) > 0 { MeanWritten(job, row, col); }
    }
  }

  /**
   A cell is reported exactly when it is at least guard cells from every edge, some of its training
   cells are on the grid, and it exceeds the threshold times their mean; each once, in row-major order.
   */
  ghost predicate ReportsExactly(peaks: seq<Peak>, data: seq<real>, rows: nat, cols: nat, guard: nat, train: nat, threshold: real) {
    && rows * cols <= |data|
    && (forall row: int, col: int :: HasPeakAt(peaks, row, col) <==>
          && guard <= row < rows - guard && guard <= col < cols - guard && TrainingCells(rows, cols, guard, train, row, col) > 0
          && Nth(data, row * cols + col) > threshold * TrainingMean(data, rows, cols, guard, train, row, col))
    && (forall i: nat :: i < |peaks| ==> IsReport(peaks[i], data, rows, cols, guard, train))
    && (forall i: nat, j: nat :: i < j < |peaks| ==>
          peaks[i].dopplerBin < peaks[j].dopplerBin || (peaks[i].dopplerBin == peaks[j].dopplerBin && peaks[i].rangeBin < peaks[j].rangeBin))
  }

  lemma CompleteReports(peaks: seq<Peak>, data: seq<real>, rows: nat, cols: nat, guard: nat, train: nat, threshold: real)
    requires Complete(peaks, Job(data, rows, cols, guard, train, threshold))
    ensures ReportsExactly(peaks, data, rows, cols, guard, train, threshold)
  {
    hide TrainingCells, TrainingMean, Detects, IsReport;
    var job := Job(data, rows, cols, guard, train, threshold);
    forall row: int, col: int
      ensures HasPeakAt(peaks, row, col) <==> Detects(job, row, col)
    {
      PeakPlace(job, row, col);
      if Detects(job, row, col) {
        var i :| 0 <= i < |peaks| && peaks[i] == PeakAt(job, row, col);
      }
    }
    forall row: int, col: int
      ensures HasPeakAt(peaks, row, col) <==>
          && guard <= row < rows - guard && guard <= col < cols - guard && TrainingCells(rows, cols, guard, train, row, col) > 0
          && Nth(data, row * cols + col) > threshold * TrainingMean(data, rows, cols, guard, train, row, col)
    {
      DetectsWritten(job, row, col);
    }
    forall i: nat | i < |peaks|
      ensures IsReport(peaks[i], data, rows, cols, guard, train)
    {
      DetectsWritten(job, peaks[i].dopplerBin, peaks[i].rangeBin);
    }
  }

  lemma PeakPlace(job: Job, row: int, col: int)
    requires ValidJob(job)
    ensures Detects(job, row, col) ==> PeakAt(job, row, col).dopplerBin == row && PeakAt(job, row, col).rangeBin == col
  {
    hide Detects;
  }

  /** A buffer that is zero but for one positive cell. */
  ghost predicate Lone(data: seq<real>, cols: nat, row: nat, col: nat) {
    && row * cols + col < |data| && data[row * cols + col] > 0.0
    && forall i: nat :: i < |data| && i != row * cols + col ==> data[i] == 0.0
  }

  lemma LonePlane(job: Job, row: nat, col: nat, r: int, c: int)
    requires ValidJob(job) && Lone(job.data, job.cols, row, col) && row < job.rows && col < job.cols
    ensures DataPlane(job.data, job.rows, job.cols)(r, c) == if r == row && c == col then job.data[row * job.cols + col] else 0.0
  {
    if 0 <= r < job.rows && 0 <= c < job.cols {
      AtBound(r, c, job.rows, job.cols);
      if At(r, c, job.cols) == At(row, col, job.cols) { SameAddress(r, c, row, col, job.cols); }
    }
  }

  /** Around the target the ring is empty; elsewhere its sum is not negative. */
  lemma LoneRing(job: Job, row: nat, col: nat, r: int, c: int)
    requires ValidJob(job) && Lone(job.data, job.cols, row, col) && row < job.rows && col < job.cols
    ensures RingTotal(job, r, c) >= 0.0 && (r == row && c == col ==> RingTotal(job, r, c) == 0.0)
  {
    var plane, k := DataPlane(job.data, job.rows, job.cols), job.guard + job.train;
    var v := Masked(plane, r, c, job.guard);
    forall e: int, q: int
      ensures v(e, q) >= 0.0 && (r == row && c == col ==> v(e, q) == 0.0)
    {
      hide DataPlane, Lone;
      LonePlane(job, row, col, e, q);
      TargetPositive(job.data, job.cols, row, col);
    }
    hide DataPlane, Lone, Masked;
    RectSumNonNegative(v, r - k, r + k + 1, c - k, c + k + 1);
    if r == row && c == col { RectVoid(v, r - k, r + k + 1, c - k, c + k + 1); }
  }

  lemma TargetPositive(data: seq<real>, cols: nat, row: nat, col: nat)
    requires Lone(data, cols, row, col)
    ensures row * cols + col < |data| && data[row * cols + col] > 0.0
  {}

  lemma LoneDetects(job: Job, row: nat, col: nat, r: int, c: int)
    requires ValidJob(job) && Lone(job.data, job.cols, row, col) && row < job.rows && col < job.cols && job.threshold >= 0.0
    ensures Detects(job, r, c) <==> r == row && c == col && InRange(job, r, c) && RingCells(job, r, c) > 0.0
  {
    LonePlane(job, row, col, r, c);
    TargetPositive(job.data, job.cols, row, col);
    hide DataPlane, RingTotal, RingCells, Lone;
    LoneRing(job, row, col, r, c);
    if InRange(job, r, c) && RingCells(job, r, c) > 0.0 {
      ScaledMean(RingTotal(job, r, c), RingCells(job, r, c), job.threshold);
    }
  }

  lemma ScaledMean(total: real, cells: real, threshold: real)
    requires total >= 0.0 && cells > 0.0 && threshold >= 0.0
    ensures total / cells * threshold >= 0.0 && (total == 0.0 ==> total / cells == 0.0)
  {
    assert total / cells >= 0.0;
  }

  /** The one place where the lone target can be reported, and its mean there. */
  lemma LonePlace(job: Job, row: nat, col: nat)
    requires ValidJob(job) && Lone(job.data, job.cols, row, col) && row < job.rows && col < job.cols
    ensures InRange(job, row, col) && RingCells(job, row, col) > 0.0 <==>
      && job.guard <= row < job.rows - job.guard && job.guard <= col < job.cols - job.guard
      && job.train > 0 && (job.rows > 2 * job.guard + 1 || job.cols > 2 * job.guard + 1)
    ensures InRange(job, row, col) && RingCells(job, row, col) > 0.0 ==>
      TrainingCells(job.rows, job.cols, job.guard, job.train, row, col) > 0
      && TrainingMean(job.data, job.rows, job.cols, job.guard, job.train, row, col) == 0.0
  {
    hide RingTotal, RingCells, Lone, TrainingCells, TrainingMean;
    if InRange(job, row, col) {
      NoTrainingExactly(job, row, col);
      CellsWritten(job, row, col);
      if RingCells(job, row, col) > 0.0 {
        MeanWritten(job, row, col);
        LoneRing(job, row, col, row, col);
        ScaledMean(RingTotal(job, row, col), RingCells(job, row, col), 0.0);
      }
    }
  }

  lemma PeaksAreDetections(peaks: seq<Peak>, job: Job, r: int, c: int)
    requires ReportsExactly(peaks, job.data, job.rows, job.cols, job.guard, job.train, job.threshold)
    ensures ValidJob(job) && (HasPeakAt(peaks, r, c) <==> Detects(job, r, c))
  {
    hide TrainingCells, TrainingMean, Detects, IsReport, HasPeakAt;
    DetectsWritten(job, r, c);
  }

  lemma FirstTwoDiffer(peaks: seq<Peak>, data: seq<real>, rows: nat, cols: nat, guard: nat, train: nat, threshold: real)
    requires ReportsExactly(peaks, data, rows, cols, guard, train, threshold)
    ensures |peaks| > 1 ==> peaks[0].dopplerBin != peaks[1].dopplerBin || peaks[0].rangeBin != peaks[1].rangeBin
  {
    hide HasPeakAt, IsReport, TrainingCells, TrainingMean;
  }

  /** A list with a peak at one place only, in strict order, has one peak at most. */
  lemma OnePlace(peaks: seq<Peak>, data: seq<real>, rows: nat, cols: nat, guard: nat, train: nat, threshold: real, row: int, col: int, there: bool)
    requires ReportsExactly(peaks, data, rows, cols, guard, train, threshold)
    requires forall r: int, c: int :: HasPeakAt(peaks, r, c) <==> there && r == row && c == col
    ensures |peaks| == if there then 1 else 0
    ensures there ==> peaks[0].dopplerBin == row && peaks[0].rangeBin == col && IsReport(peaks[0], data, rows, cols, guard, train)
  {
    hide IsReport, TrainingCells, TrainingMean;
    FirstTwoDiffer(peaks, data, rows, cols, guard, train, threshold);
    if |peaks| > 0 {
      assert HasPeakAt(peaks, peaks[0].dopplerBin, peaks[0].rangeBin);
      assert there;
    }
    forall i: nat | i < |peaks|
      ensures there && peaks[i].dopplerBin == row && peaks[i].rangeBin == col
    {
      assert HasPeakAt(peaks, peaks[i].dopplerBin, peaks[i].rangeBin);
    }
    assert HasPeakAt(peaks, row, col) == there;
  }

  /** For a non-negative threshold a lone target is reported exactly inside the guard border, wherever there is anything to compare with; nothing else is. */
  lemma LoneTarget(peaks: seq<Peak>, data: seq<real>, rows: nat, cols: nat, guard: nat, train: nat, threshold: real, row: nat, col: nat)
    requires ReportsExactly(peaks, data, rows, cols, guard, train, threshold)
    requires Lone(data, cols, row, col) && row < rows && col < cols && threshold >= 0.0
    ensures peaks == if guard <= row < rows - guard && guard <= col < cols - guard && train > 0 && (rows > 2 * guard + 1 || cols > 2 * guard + 1)
                     then [Peak(col, row, data[row * cols + col], data[row * cols + col], data[row * cols + col] / 1e-10)] else []
  {
    var job := Job(data, rows, cols, guard, train, threshold);
    assert ValidJob(job) by { hide TrainingCells, TrainingMean; }
    hide ReportsExactly, RingCells, Detects, Lone, TrainingCells, TrainingMean, HasPeakAt, InRange;
    var there := InRange(job, row, col) && RingCells(job, row, col) > 0.0;
    forall r: int, c: int
      ensures HasPeakAt(peaks, r, c) <==> there && r == row && c == col
    {
      PeaksAreDetections(peaks, job, r, c);
      LoneDetects(job, row, col, r, c);
    }
    LonePlace(job, row, col);
    OnePlace(peaks, data, rows, cols, guard, train, threshold, row, col, there);
    TargetPositive(data, cols, row, col);
    if there { LoneReport(peaks[0], data, rows, cols, guard, train, row * cols + col); }
  }

  lemma LoneReport(p: Peak, data: seq<real>, rows: nat, cols: nat, guard: nat, train: nat, at: nat)
    requires IsReport(p, data, rows, cols, guard, train) && TrainingMean(data, rows, cols, guard, train, p.dopplerBin, p.rangeBin) == 0.0
    requires at == p.dopplerBin * cols + p.rangeBin < |data|
    ensures p == Peak(p.rangeBin, p.dopplerBin, data[at], data[at], data[at] / 1e-10)
  {
    hide TrainingCells, TrainingMean;
  }

  method CFARDetect(data: seq<real>, rows: nat, cols: nat, guard: nat, train: nat, threshold: real) returns (peaks: seq<Peak>)
    requires rows * cols <= |data|
    ensures Complete(peaks, Job(data, rows, cols, guard, train, threshold))
    ensures ReportsExactly(peaks, data, rows, cols, guard, train, threshold)
  {
    hide DataPlane, RingCells, RingTotal, Detects, Reported, PeakAt, ReportsExactly;
    peaks := [];
    ghost var job := Job(data, rows, cols, guard, train, threshold);
    NothingReported(job);
    var row: int := guard;
    while row < rows - guard
      invariant guard <= row && Reported(peaks, job, row, guard)
    {
      var col: int := guard;
      while col < cols - guard
        invariant guard <= col && Reported(peaks, job, row, col)
      {
        AtBound(row, col, rows, cols);
        var current := data[At(row, col, cols)];
        var sum, count := Ring(data, rows, cols, row, col, guard, train, job);
        ReportedStep(peaks, job, row, col);
        DetectsIs(job, row, col, current, sum, count);
        if count > 0 {
          var avg := sum / count as real;
          if current > avg * threshold {
            peaks := peaks + [Peak(col, row, current, current, current / Max(avg, FLOOR))];
          }
        }
        col := col + 1;
      }
      ReportedRow(peaks, job, row, col);
      row := row + 1;
    }
    AllReported(peaks, job, row);
    CompleteReports(peaks, data, rows, cols, guard, train, threshold);
  }

  lemma DetectsIs(job: Job, row: nat, col: nat, current: real, sum: real, count: int)
    requires ValidJob(job) && InRange(job, row, col)
    requires sum == RingTotal(job, row, col) && count as real == RingCells(job, row, col)
    requires At(row, col, job.cols) < |job.data| && current == job.data[At(row, col, job.cols)]
    ensures count > 0 ==> (Detects(job, row, col) <==> current > sum / count as real * job.threshold)
    ensures Detects(job, row, col) ==>
              count > 0 && PeakAt(job, row, col) == Peak(col, row, current, current, current / Max(sum / count as real, FLOOR))
  {
    hide RingTotal, RingCells;
  }

  lemma AllReported(peaks: seq<Peak>, job: Job, row: int)
    requires Reported(peaks, job, row, job.guard) && row >= job.rows - job.guard
    ensures Complete(peaks, job)
  {
    hide DataPlane, Mean, RingCells;
  }
}
