/** The two-dimensional C transform: every row in place, then every column through a copy buffer. */
module CFft2d {
  import opened Complex
  import opened Dft
  import opened Ints
  import opened Matrix
  import opened SpectrumLaws
  import opened CFft

  /** A row-major matrix whose sides are powers of two, with the twiddles of both. */
  ghost predicate Shape(a: seq<Complex>, rows: nat, cols: nat, root: nat -> Complex, rowLevels: nat, colLevels: nat) {
    && rows == Pow2(rowLevels) && cols == Pow2(colLevels)
    && |a| == rows * cols
    && RootFamily(root)
  }

  function Row(a: seq<Complex>, rows: nat, cols: nat, i: nat): (r: seq<Complex>)
    requires |a| == rows * cols && i < rows
    ensures |r| == cols
    ensures forall j: nat :: j < cols ==> r[j] == Cell(a, rows, cols, i, j)
  {
    seq(cols, (j: nat) requires j < cols => Cell(a, rows, cols, i, j))
  }

  function Column(a: seq<Complex>, rows: nat, cols: nat, j: nat): (c: seq<Complex>)
    requires |a| == rows * cols && j < cols
    ensures |c| == rows
    ensures forall i: nat :: i < rows ==> c[i] == Cell(a, rows, cols, i, j)
  {
    seq(rows, (i: nat) requires i < rows => Cell(a, rows, cols, i, j))
  }

  /** The row-major matrix with the given cells. */
  function FromCells(rows: nat, cols: nat, f: (nat, nat) -> Complex): (b: seq<Complex>)
    ensures |b| == rows * cols
    ensures forall i: nat, j: nat :: i < rows && j < cols ==> Cell(b, rows, cols, i, j) == f(i, j)
  {
    var b := seq(rows * cols, (p: nat) requires p < rows * cols => AddressSplit(p, rows, cols); f(p / cols, p % cols));
    CellsOf(b, rows, cols, f);
    b
  }

  lemma CellsOf(b: seq<Complex>, rows: nat, cols: nat, f: (nat, nat) -> Complex)
    requires |b| == rows * cols
    requires forall p: nat :: p < rows * cols ==> cols > 0 && b[p] == f(p / cols, p % cols)
    ensures forall i: nat, j: nat :: i < rows && j < cols ==> Cell(b, rows, cols, i, j) == f(i, j)
  {
    forall i: nat, j: nat | i < rows && j < cols
      ensures Cell(b, rows, cols, i, j) == f(i, j)
    {
      RowMajorBound(i, j, rows, cols);
      RowColumn(i, j, cols);
    }
  }

  // ---------------------------------------------------------------- the two passes

  function RowPass(a: seq<Complex>, rows: nat, cols: nat, inverse: bool, root: nat -> Complex, levels: nat): (b: seq<Complex>)
    requires cols == Pow2(levels) && |a| == rows * cols
    ensures |b| == |a|
  {
    FromCells(rows, cols, (i: nat, j: nat) =>
      if i < rows && j < cols then Line(Row(a, rows, cols, i), inverse, root, levels)[j] else ZERO)
  }

  function ColumnPass(a: seq<Complex>, rows: nat, cols: nat, inverse: bool, root: nat -> Complex, levels: nat): (b: seq<Complex>)
    requires rows == Pow2(levels) && |a| == rows * cols
    ensures |b| == |a|
  {
    FromCells(rows, cols, (i: nat, j: nat) =>
      if i < rows && j < cols then Line(Column(a, rows, cols, j), inverse, root, levels)[i] else ZERO)
  }

  lemma RowOfRowPass(a: seq<Complex>, rows: nat, cols: nat, inverse: bool, root: nat -> Complex, levels: nat, i: nat)
    requires cols == Pow2(levels) && |a| == rows * cols && i < rows
    ensures Row(RowPass(a, rows, cols, inverse, root, levels), rows, cols, i)
         == Line(Row(a, rows, cols, i), inverse, root, levels)
  {
    hide Cell, Line, FromCells;
  }

  lemma ColumnOfColumnPass(a: seq<Complex>, rows: nat, cols: nat, inverse: bool, root: nat -> Complex, levels: nat, j: nat)
    requires rows == Pow2(levels) && |a| == rows * cols && j < cols
    ensures Column(ColumnPass(a, rows, cols, inverse, root, levels), rows, cols, j)
         == Line(Column(a, rows, cols, j), inverse, root, levels)
  {
    hide Cell, Line, FromCells;
  }

  /** What fft_2d leaves of a: the column pass only happens when its buffer could be allocated. */
  function Transform2d(a: seq<Complex>, rows: nat, cols: nat, inverse: bool, bufferOk: bool, root: nat -> Complex,
                       rowLevels: nat, colLevels: nat): (b: seq<Complex>)
    requires rows == Pow2(rowLevels) && cols == Pow2(colLevels) && |a| == rows * cols
    ensures |b| == |a|
  {
    var m := RowPass(a, rows, cols, inverse, root, colLevels);
    if bufferOk then ColumnPass(m, rows, cols, inverse, root, rowLevels) else m
  }

  // ---------------------------------------------------------------- the passes commute

  ghost function Slice(f: (nat, nat) -> Complex, p: nat): nat -> Complex { (q: nat) => f(p, q) }

  ghost function Inner(f: (nat, nat) -> Complex, m: nat): nat -> Complex { (p: nat) => Sum(Slice(f, p), m) }

  /** A finite double sum may be summed in either order. */
  lemma {:induction false} SumSwap(f: (nat, nat) -> Complex, g: (nat, nat) -> Complex, n: nat, m: nat)
    requires forall p: nat, q: nat :: p < n && q < m ==> f(p, q) == g(q, p)
    ensures Sum(Inner(f, m), n) == Sum(Inner(g, n), m)
  {
    if n == 0 {
      SumOfZeros(Inner(g, 0), m);
    } else {
      SumSwap(f, g, n - 1, m);
      SumAdd(Inner(g, n - 1), Slice(f, n - 1), Inner(g, n), m);
    }
  }

  lemma {:induction false} SumOfZeros(f: nat -> Complex, m: nat)
    requires forall q: nat :: q < m ==> f(q) == ZERO
    ensures Sum(f, m) == ZERO
  {
    if m > 0 { SumOfZeros(f, m - 1); }
  }

  /** The terms of a transform along the lines followed by one across them. */
  ghost function Grid(lines: seq<seq<Complex>>, along: Complex, k: nat, across: Complex, i: nat): (nat, nat) -> Complex {
    (p: nat, q: nat) =>
      if p < |lines| && q < |lines[p]| then Mul(Mul(lines[p][q], Twiddle(along, q, k)), Twiddle(across, p, i)) else ZERO
  }

  lemma TwoSteps(lines: seq<seq<Complex>>, bins: seq<Complex>, n: nat, along: Complex, k: nat, across: Complex, i: nat)
    requires forall p: nat :: p < |lines| ==> |lines[p]| == n
    requires |bins| == |lines| && forall p: nat :: p < |lines| ==> bins[p] == DftAt(lines[p], along, k)
    ensures DftAt(bins, across, i) == Sum(Inner(Grid(lines, along, k, across, i), n), |lines|)
  {
    hide Mul, Twiddle, Sum;
    var grid := Grid(lines, along, k, across, i);
    forall p: nat | p < |lines|
      ensures Term(bins, across, i)(p) == Inner(grid, n)(p)
    {
      var t, f := Twiddle(across, p, i), Term(lines[p], along, k);
      forall q: nat | q < n
        ensures Slice(grid, p)(q) == Mul(t, f(q))
      {
        MulComm(t, f(q));
      }
      SumMul(t, f, Slice(grid, p), n);
      MulComm(t, bins[p]);
    }
    SumCongruence(Term(bins, across, i), Inner(grid, n), |lines|);
  }

  ghost function Rows(a: seq<Complex>, rows: nat, cols: nat): (r: seq<seq<Complex>>)
    requires |a| == rows * cols
    ensures |r| == rows && forall i: nat :: i < rows ==> r[i] == Row(a, rows, cols, i)
  {
    seq(rows, (i: nat) requires i < rows => Row(a, rows, cols, i))
  }

  ghost function Columns(a: seq<Complex>, rows: nat, cols: nat): (c: seq<seq<Complex>>)
    requires |a| == rows * cols
    ensures |c| == cols && forall j: nat :: j < cols ==> c[j] == Column(a, rows, cols, j)
  {
    seq(cols, (j: nat) requires j < cols => Column(a, rows, cols, j))
  }

  /** One bin of the lines' transforms, transformed across the lines, as a scaled double sum. */
  lemma LineAcross(lines: seq<seq<Complex>>, bins: seq<Complex>, inverse: bool, levels: nat, k: nat, invAcross: bool, levelsAcross: nat,
                   i: nat, root: nat -> Complex)
    requires RootFamily(root) && k < Pow2(levels) && i < |lines| == |bins| == Pow2(levelsAcross)
    requires forall p: nat :: p < |lines| ==> |lines[p]| == Pow2(levels)
    requires forall p: nat :: p < |lines| ==> bins[p] == Line(lines[p], inverse, root, levels)[k]
    ensures Line(bins, invAcross, root, levelsAcross)[i]
         == Scale(Factor(invAcross, |lines|), Scale(Factor(inverse, Pow2(levels)),
              Sum(Inner(Grid(lines, StageRoot(root, inverse, levels), k, StageRoot(root, invAcross, levelsAcross), i), Pow2(levels)), |lines|)))
  {
    hide Mul, Line, Scale, DftAt, Sum, Grid, RootFamily, Factor, StageRoot;
    var along, across := StageRoot(root, inverse, levels), StageRoot(root, invAcross, levelsAcross);
    var raw := seq(|lines|, (p: nat) requires p < |lines| => DftAt(lines[p], along, k));
    forall p: nat | p < |lines|
      ensures bins[p] == Scale(Factor(inverse, Pow2(levels)), raw[p])
    {
      LineIsDft(lines[p], inverse, root, levels, k);
    }
    LineIsDft(bins, invAcross, root, levelsAcross, i);
    DftScale(raw, bins, Factor(inverse, Pow2(levels)), across, i);
    TwoSteps(lines, raw, Pow2(levels), along, k, across, i);
  }

  /** Transforming rows then columns gives the same matrix as columns then rows, in any directions. */
  lemma PassesCommute(a: seq<Complex>, rows: nat, cols: nat, inRows: bool, inColumns: bool, root: nat -> Complex,
                      rowLevels: nat, colLevels: nat)
    requires Shape(a, rows, cols, root, rowLevels, colLevels)
    ensures ColumnPass(RowPass(a, rows, cols, inRows, root, colLevels), rows, cols, inColumns, root, rowLevels)
         == RowPass(ColumnPass(a, rows, cols, inColumns, root, rowLevels), rows, cols, inRows, root, colLevels)
  {
    hide Cell, Line, RowPass, ColumnPass, RootFamily;
    var r, c := RowPass(a, rows, cols, inRows, root, colLevels), ColumnPass(a, rows, cols, inColumns, root, rowLevels);
    var rc, cr := ColumnPass(r, rows, cols, inColumns, root, rowLevels), RowPass(c, rows, cols, inRows, root, colLevels);
    forall i: nat, k: nat | i < rows && k < cols
      ensures Cell(rc, rows, cols, i, k) == Cell(cr, rows, cols, i, k)
    {
      CommuteCell(a, rows, cols, inRows, inColumns, root, rowLevels, colLevels, i, k);
    }
    SameCells(rc, cr, rows, cols);
  }

  lemma CommuteCell(a: seq<Complex>, rows: nat, cols: nat, inRows: bool, inColumns: bool, root: nat -> Complex,
                    rowLevels: nat, colLevels: nat, i: nat, k: nat)
    requires Shape(a, rows, cols, root, rowLevels, colLevels) && i < rows && k < cols
    ensures Cell(ColumnPass(RowPass(a, rows, cols, inRows, root, colLevels), rows, cols, inColumns, root, rowLevels), rows, cols, i, k)
         == Cell(RowPass(ColumnPass(a, rows, cols, inColumns, root, rowLevels), rows, cols, inRows, root, colLevels), rows, cols, i, k)
  {
    hide Cell, Line, RowPass, ColumnPass, RootFamily, Scale, Mul, Sum, Factor, Inner, Grid, StageRoot, DftAt;
    var r, c := RowPass(a, rows, cols, inRows, root, colLevels), ColumnPass(a, rows, cols, inColumns, root, rowLevels);
    var rowsOf, colsOf := Rows(a, rows, cols), Columns(a, rows, cols);
    ColumnOfColumnPass(r, rows, cols, inColumns, root, rowLevels, k);
    RowOfRowPass(c, rows, cols, inRows, root, colLevels, i);
    forall p: nat | p < rows
      ensures Column(r, rows, cols, k)[p] == Line(rowsOf[p], inRows, root, colLevels)[k]
    {
      RowOfRowPass(a, rows, cols, inRows, root, colLevels, p);
    }
    forall q: nat | q < cols
      ensures Row(c, rows, cols, i)[q] == Line(colsOf[q], inColumns, root, rowLevels)[i]
    {
      ColumnOfColumnPass(a, rows, cols, inColumns, root, rowLevels, q);
    }
    LineAcross(rowsOf, Column(r, rows, cols, k), inRows, colLevels, k, inColumns, rowLevels, i, root);
    LineAcross(colsOf, Row(c, rows, cols, i), inColumns, rowLevels, i, inRows, colLevels, k, root);
    var along, across := StageRoot(root, inRows, colLevels), StageRoot(root, inColumns, rowLevels);
    GridsAgree(a, rows, cols, along, k, across, i);
    ScaleSwap(Factor(inColumns, rows), Factor(inRows, cols), Sum(Inner(Grid(rowsOf, along, k, across, i), cols), rows));
  }

  lemma ScaleSwap(r: real, s: real, x: Complex)
    ensures Scale(r, Scale(s, x)) == Scale(s, Scale(r, x))
  {
    ScaleScale(r, s, x);
    ScaleScale(s, r, x);
  }

  lemma GridsAgree(a: seq<Complex>, rows: nat, cols: nat, along: Complex, k: nat, across: Complex, i: nat)
    requires |a| == rows * cols
    ensures Sum(Inner(Grid(Rows(a, rows, cols), along, k, across, i), cols), rows)
         == Sum(Inner(Grid(Columns(a, rows, cols), across, i, along, k), rows), cols)
  {
    hide Mul, Twiddle, Cell;
    var f, g := Grid(Rows(a, rows, cols), along, k, across, i), Grid(Columns(a, rows, cols), across, i, along, k);
    forall p: nat, q: nat | p < rows && q < cols
      ensures f(p, q) == g(q, p)
    {
      var x, s, t := Cell(a, rows, cols, p, q), Twiddle(along, q, k), Twiddle(across, p, i);
      MulAssoc(x, s, t);
      MulComm(s, t);
      MulAssoc(x, t, s);
    }
    SumSwap(f, g, rows, cols);
  }

  // ---------------------------------------------------------------- round trip

  lemma RowRoundTrip(a: seq<Complex>, rows: nat, cols: nat, root: nat -> Complex, levels: nat)
    requires cols == Pow2(levels) && |a| == rows * cols && RootFamily(root)
    ensures RowPass(RowPass(a, rows, cols, false, root, levels), rows, cols, true, root, levels) == a
  {
    hide Cell, Line, RowPass, RootFamily;
    var m := RowPass(a, rows, cols, false, root, levels);
    var b := RowPass(m, rows, cols, true, root, levels);
    forall i: nat, j: nat | i < rows && j < cols
      ensures Cell(b, rows, cols, i, j) == Cell(a, rows, cols, i, j)
    {
      RowOfRowPass(a, rows, cols, false, root, levels, i);
      RowOfRowPass(m, rows, cols, true, root, levels, i);
      LineRoundTrip(Row(a, rows, cols, i), root, levels);
      assert Row(b, rows, cols, i)[j] == Row(a, rows, cols, i)[j];
    }
    SameCells(b, a, rows, cols);
  }

  lemma ColumnRoundTrip(a: seq<Complex>, rows: nat, cols: nat, root: nat -> Complex, levels: nat)
    requires rows == Pow2(levels) && |a| == rows * cols && RootFamily(root)
    ensures ColumnPass(ColumnPass(a, rows, cols, false, root, levels), rows, cols, true, root, levels) == a
  {
    hide Cell, Line, ColumnPass, RootFamily;
    var m := ColumnPass(a, rows, cols, false, root, levels);
    var b := ColumnPass(m, rows, cols, true, root, levels);
    forall i: nat, j: nat | i < rows && j < cols
      ensures Cell(b, rows, cols, i, j) == Cell(a, rows, cols, i, j)
    {
      ColumnOfColumnPass(a, rows, cols, false, root, levels, j);
      ColumnOfColumnPass(m, rows, cols, true, root, levels, j);
      LineRoundTrip(Column(a, rows, cols, j), root, levels);
      assert Column(b, rows, cols, j)[i] == Column(a, rows, cols, j)[i];
    }
    SameCells(b, a, rows, cols);
  }

  /** fft_2d inverse after fft_2d forward is the identity, when both calls got their column buffer or neither did. */
  lemma RoundTrip2d(a: seq<Complex>, rows: nat, cols: nat, bufferOk: bool, root: nat -> Complex, rowLevels: nat, colLevels: nat)
    requires Shape(a, rows, cols, root, rowLevels, colLevels)
    ensures Transform2d(Transform2d(a, rows, cols, false, bufferOk, root, rowLevels, colLevels),
                        rows, cols, true, bufferOk, root, rowLevels, colLevels) == a
  {
    hide RowPass, ColumnPass, RootFamily;
    var m := RowPass(a, rows, cols, false, root, colLevels);
    RowRoundTrip(a, rows, cols, root, colLevels);
    if bufferOk {
      PassesCommute(m, rows, cols, true, false, root, rowLevels, colLevels);
      ColumnRoundTrip(a, rows, cols, root, rowLevels);
    }
  }

  /** The unit sample survives a forward and a backward call with only one column pass between them in no matrix of two rows or more. */
  lemma OneSidedBuffer(rows: nat, cols: nat, forwardOk: bool, root: nat -> Complex, rowLevels: nat, colLevels: nat)
    requires rows == Pow2(rowLevels) && cols == Pow2(colLevels) && RootFamily(root) && rows > 1
    ensures var e := UnitSample(rows * cols, 0);
      Transform2d(Transform2d(e, rows, cols, false, forwardOk, root, rowLevels, colLevels),
                  rows, cols, true, !forwardOk, root, rowLevels, colLevels) != e
  {
    hide RowPass, ColumnPass, RootFamily, Line, Scale, DftAt;
    var e := UnitSample(rows * cols, 0);
    var m := RowPass(e, rows, cols, false, root, colLevels);
    RowRoundTrip(e, rows, cols, root, colLevels);
    if forwardOk { PassesCommute(m, rows, cols, true, false, root, rowLevels, colLevels); }
    var b := ColumnPass(e, rows, cols, !forwardOk, root, rowLevels);
    ColumnOfColumnPass(e, rows, cols, !forwardOk, root, rowLevels, 0);
    UnitColumn(rows, cols);
    LineIsDft(UnitSample(rows, 0), !forwardOk, root, rowLevels, 1);
    UnitBin(rows, StageRoot(root, !forwardOk, rowLevels), 0, 1);
    TwiddleUnit(StageRoot(root, !forwardOk, rowLevels), 1);
    FactorOfOne(!forwardOk, rows);
    assert Column(b, rows, cols, 0)[1] != Column(e, rows, cols, 0)[1];
  }

  lemma FactorOfOne(inverse: bool, n: nat)
    requires n > 0
    ensures Scale(Factor(inverse, n), ONE) != ZERO
  {}

  lemma UnitColumn(rows: nat, cols: nat)
    requires rows > 0 && cols > 0
    ensures rows * cols > 0 && Column(UnitSample(rows * cols, 0), rows, cols, 0) == UnitSample(rows, 0)
  {
    RowMajorBound(0, 0, rows, cols);
    forall i: nat | i < rows
      ensures Cell(UnitSample(rows * cols, 0), rows, cols, i, 0) == UnitSample(rows, 0)[i]
    {
      RowMajorBound(i, 0, rows, cols);
      if i > 0 { ProductGrows(i, cols); }
    }
  }

  /**
   When exactly the inverse call undoes the forward call for every matrix: both or neither got
   their column buffer, or there is a single row and the column pass changes nothing.
   */
  lemma RoundTripExactly(rows: nat, cols: nat, forwardOk: bool, inverseOk: bool, root: nat -> Complex, rowLevels: nat, colLevels: nat)
    requires rows == Pow2(rowLevels) && cols == Pow2(colLevels) && RootFamily(root)
    ensures (forall a: seq<Complex> :: |a| == rows * cols ==>
               Transform2d(Transform2d(a, rows, cols, false, forwardOk, root, rowLevels, colLevels),
                           rows, cols, true, inverseOk, root, rowLevels, colLevels) == a)
       <==> (forwardOk == inverseOk || rows == 1)
  {
    hide RootFamily, Transform2d;
    if forwardOk != inverseOk && rows > 1 {
      OneSidedBuffer(rows, cols, forwardOk, root, rowLevels, colLevels);
      assert |UnitSample(rows * cols, 0)| == rows * cols;
    } else {
      forall a: seq<Complex> | |a| == rows * cols
        ensures Transform2d(Transform2d(a, rows, cols, false, forwardOk, root, rowLevels, colLevels),
                            rows, cols, true, inverseOk, root, rowLevels, colLevels) == a
      {
        RoundTrip2d(a, rows, cols, forwardOk, root, rowLevels, colLevels);
        if rows == 1 {
          var f := Transform2d(a, rows, cols, false, forwardOk, root, rowLevels, colLevels);
          SingleRow(f, cols, true, root, rowLevels, colLevels);
        }
      }
    }
  }

  lemma SingleRow(a: seq<Complex>, cols: nat, inverse: bool, root: nat -> Complex, rowLevels: nat, colLevels: nat)
    requires Pow2(rowLevels) == 1 && cols == Pow2(colLevels) && |a| == 1 * cols
    ensures Transform2d(a, 1, cols, inverse, true, root, rowLevels, colLevels)
         == Transform2d(a, 1, cols, inverse, false, root, rowLevels, colLevels)
  {
    hide Line, RowPass, ColumnPass;
    var m := RowPass(a, 1, cols, inverse, root, colLevels);
    var b := ColumnPass(m, 1, cols, inverse, root, rowLevels);
    forall i: nat, j: nat | i < 1 && j < cols
      ensures Cell(b, 1, cols, i, j) == Cell(m, 1, cols, i, j)
    {
      ColumnOfColumnPass(m, 1, cols, inverse, root, rowLevels, j);
      SingleLine(Column(m, 1, cols, j), inverse, root, rowLevels);
      assert Column(b, 1, cols, j)[i] == Column(m, 1, cols, j)[i];
    }
    SameCells(b, m, 1, cols);
  }

  // ---------------------------------------------------------------- the loops

  ghost predicate RowsSoFar(now: seq<Complex>, orig: seq<Complex>, rows: nat, cols: nat, inverse: bool, root: nat -> Complex, levels: nat, done: nat)
  {
    && cols == Pow2(levels) && |now| == |orig| == rows * cols
    && var full := RowPass(orig, rows, cols, inverse, root, levels);
       forall i: nat, j: nat :: i < rows && j < cols ==>
         Cell(now, rows, cols, i, j) == if i < done then Cell(full, rows, cols, i, j) else Cell(orig, rows, cols, i, j)
  }

  lemma RowStep(next: seq<Complex>, now: seq<Complex>, orig: seq<Complex>, rows: nat, cols: nat, inverse: bool, root: nat -> Complex,
                levels: nat, i: nat, off: nat)
    requires i < rows && RowsSoFar(now, orig, rows, cols, inverse, root, levels, i)
    requires off == i * cols && off + cols <= |now|
    requires OutsideUnchanged(next, now, off, cols)
    requires next[off..off + cols] == Line(now[off..off + cols], inverse, root, levels)
    ensures RowsSoFar(next, orig, rows, cols, inverse, root, levels, i + 1)
  {
    hide Line, RowPass;
    RowOfRowPass(orig, rows, cols, inverse, root, levels, i);
    forall j: nat | j < cols
      ensures now[off..off + cols][j] == Row(orig, rows, cols, i)[j]
    {
      assert Cell(now, rows, cols, i, j) == Cell(orig, rows, cols, i, j);
    }
    assert now[off..off + cols] == Row(orig, rows, cols, i);
    var full := RowPass(orig, rows, cols, inverse, root, levels);
    forall p: nat, q: nat | p < rows && q < cols
      ensures Cell(next, rows, cols, p, q) == if p < i + 1 then Cell(full, rows, cols, p, q) else Cell(orig, rows, cols, p, q)
    {
      RowMajorBound(p, q, rows, cols);
      if p == i {
        assert next[off + q] == next[off..off + cols][q] == Row(full, rows, cols, i)[q];
      } else {
        OtherRow(p, q, i, cols);
        assert Cell(next, rows, cols, p, q) == Cell(now, rows, cols, p, q);
      }
    }
  }

  ghost predicate ColumnsSoFar(now: seq<Complex>, orig: seq<Complex>, rows: nat, cols: nat, inverse: bool, root: nat -> Complex, levels: nat, done: nat)
  {
    && rows == Pow2(levels) && |now| == |orig| == rows * cols
    && var full := ColumnPass(orig, rows, cols, inverse, root, levels);
       forall i: nat, j: nat :: i < rows && j < cols ==>
         Cell(now, rows, cols, i, j) == if j < done then Cell(full, rows, cols, i, j) else Cell(orig, rows, cols, i, j)
  }

  /** Column j of `before`, overwritten by col in its first `done` rows. */
  ghost predicate Written(now: seq<Complex>, before: seq<Complex>, col: seq<Complex>, rows: nat, cols: nat, j: nat, done: nat) {
    && |now| == |before| == rows * cols && |col| == rows && j < cols && done <= rows
    && forall p: nat, q: nat :: p < rows && q < cols ==>
         Cell(now, rows, cols, p, q) == if q == j && p < done then col[p] else Cell(before, rows, cols, p, q)
  }

  lemma WriteStep(next: seq<Complex>, now: seq<Complex>, before: seq<Complex>, col: seq<Complex>, rows: nat, cols: nat, j: nat, i: nat, at: nat)
    requires i < rows && Written(now, before, col, rows, cols, j, i)
    requires at == i * cols + j && at < |now| && next == now[at := col[i]]
    ensures Written(next, before, col, rows, cols, j, i + 1)
  {
    forall p: nat, q: nat | p < rows && q < cols
      ensures Cell(next, rows, cols, p, q) == if q == j && p < i + 1 then col[p] else Cell(before, rows, cols, p, q)
    {
      RowMajorBound(p, q, rows, cols);
      if p != i { OtherRow(p, q, i, cols); }
      assert (p == i && q == j) || p * cols + q != at;
      assert Cell(now, rows, cols, p, q) == if q == j && p < i then col[p] else Cell(before, rows, cols, p, q);
    }
  }

  lemma ColumnStep(next: seq<Complex>, now: seq<Complex>, orig: seq<Complex>, col: seq<Complex>, rows: nat, cols: nat, inverse: bool,
                   root: nat -> Complex, levels: nat, j: nat)
    requires j < cols && ColumnsSoFar(now, orig, rows, cols, inverse, root, levels, j)
    requires col == Line(Column(now, rows, cols, j), inverse, root, levels)
    requires Written(next, now, col, rows, cols, j, rows)
    ensures ColumnsSoFar(next, orig, rows, cols, inverse, root, levels, j + 1)
  {
    hide Line, ColumnPass, Cell;
    assert Column(now, rows, cols, j) == Column(orig, rows, cols, j);
    ColumnOfColumnPass(orig, rows, cols, inverse, root, levels, j);
    var full := ColumnPass(orig, rows, cols, inverse, root, levels);
    forall p: nat, q: nat | p < rows && q < cols
      ensures Cell(next, rows, cols, p, q) == if q < j + 1 then Cell(full, rows, cols, p, q) else Cell(orig, rows, cols, p, q)
    {
      if q == j {
        assert col[p] == Column(full, rows, cols, j)[p];
      }
    }
  }

  /** The first loop: every row in place. */
  method TransformRows(data: array<Complex>, rows: nat, cols: nat, inverse: bool, root: nat -> Complex, ghost colLevels: nat)
    requires data.Length == rows * cols && cols == Pow2(colLevels) && RootFamily(root)
    modifies data
    ensures data[..] == RowPass(old(data[..]), rows, cols, inverse, root, colLevels)
  {
    hide Line, RowPass, RootFamily, RowsSoFar, OutsideUnchanged;
    ghost var orig := data[..];
    NoRowsYet(orig, rows, cols, inverse, root, colLevels);
    for i := 0 to rows
      invariant RowsSoFar(data[..], orig, rows, cols, inverse, root, colLevels, i)
    {
      ghost var now := data[..];
      ProductMonotone(i + 1, rows, cols);
      FftCooleyTukey(data, i * cols, cols, inverse, root, colLevels);
      WholeWindow(data[..], now, i * cols, cols);
      RowStep(data[..], now, orig, rows, cols, inverse, root, colLevels, i, i * cols);
    }
    AllRows(data[..], orig, rows, cols, inverse, root, colLevels);
  }

  method LoadColumn(col: array<Complex>, data: array<Complex>, rows: nat, cols: nat, j: nat)
    requires col != data && col.Length == rows && data.Length == rows * cols && j < cols
    modifies col
    ensures col[..] == Column(data[..], rows, cols, j)
  {
    for i := 0 to rows
      invariant forall p: nat :: p < i ==> col[p] == Cell(data[..], rows, cols, p, j)
    {
      RowMajorBound(i, j, rows, cols);
      col[i] := data[i * cols + j];
    }
  }

  method StoreColumn(data: array<Complex>, col: array<Complex>, rows: nat, cols: nat, j: nat)
    requires col != data && col.Length == rows && data.Length == rows * cols && j < cols
    modifies data
    ensures Written(data[..], old(data[..]), col[..], rows, cols, j, rows)
  {
    hide Written;
    ghost var now := data[..];
    NothingWritten(now, col[..], rows, cols, j);
    for i := 0 to rows
      invariant Written(data[..], now, col[..], rows, cols, j, i)
    {
      RowMajorBound(i, j, rows, cols);
      ghost var was := data[..];
      data[i * cols + j] := col[i];
      WriteStep(data[..], was, now, col[..], rows, cols, j, i, i * cols + j);
    }
  }

  /** The second loop: every column through the copy buffer. */
  method TransformColumns(data: array<Complex>, rows: nat, cols: nat, inverse: bool, root: nat -> Complex, ghost rowLevels: nat)
    requires data.Length == rows * cols && rows == Pow2(rowLevels) && RootFamily(root)
    modifies data
    ensures data[..] == ColumnPass(old(data[..]), rows, cols, inverse, root, rowLevels)
  {
    hide Line, ColumnPass, RootFamily, ColumnsSoFar, Written, OutsideUnchanged, Column;
    var col := new Complex[rows];
    ghost var mid := data[..];
    NoColumnsYet(mid, rows, cols, inverse, root, rowLevels);
    for j := 0 to cols
      invariant ColumnsSoFar(data[..], mid, rows, cols, inverse, root, rowLevels, j)
    {
      ghost var now := data[..];
      LoadColumn(col, data, rows, cols, j);
      assert col[0..rows] == col[..];
      FftCooleyTukey(col, 0, rows, inverse, root, rowLevels);
      assert col[0..rows] == col[..];
      StoreColumn(data, col, rows, cols, j);
      ColumnStep(data[..], now, mid, col[..], rows, cols, inverse, root, rowLevels, j);
    }
    AllColumns(data[..], mid, rows, cols, inverse, root, rowLevels);
  }

  /**
   Transforms the rows * cols cells of data; bufferOk says whether the copy buffer for a column
   could be allocated.
   */
  method Fft2d(data: array<Complex>, rows: nat, cols: nat, inverse: bool, bufferOk: bool, root: nat -> Complex,
               ghost rowLevels: nat, ghost colLevels: nat)
    requires data.Length == rows * cols && rows == Pow2(rowLevels) && cols == Pow2(colLevels) && RootFamily(root)
    modifies data
    ensures data[..] == Transform2d(old(data[..]), rows, cols, inverse, bufferOk, root, rowLevels, colLevels)
  {
    hide RowPass, ColumnPass, RootFamily;
    TransformRows(data, rows, cols, inverse, root, colLevels);
    if bufferOk {
      TransformColumns(data, rows, cols, inverse, root, rowLevels);
    }
  }

  lemma WholeWindow(next: seq<Complex>, now: seq<Complex>, off: nat, n: nat)
    requires OutsideUnchanged(next, now, off, n)
    ensures |next| == |now|
  {}

  lemma NoRowsYet(a: seq<Complex>, rows: nat, cols: nat, inverse: bool, root: nat -> Complex, levels: nat)
    requires cols == Pow2(levels) && |a| == rows * cols
    ensures RowsSoFar(a, a, rows, cols, inverse, root, levels, 0)
  {}

  lemma NoColumnsYet(a: seq<Complex>, rows: nat, cols: nat, inverse: bool, root: nat -> Complex, levels: nat)
    requires rows == Pow2(levels) && |a| == rows * cols
    ensures ColumnsSoFar(a, a, rows, cols, inverse, root, levels, 0)
  {}

  lemma NothingWritten(a: seq<Complex>, col: seq<Complex>, rows: nat, cols: nat, j: nat)
    requires |a| == rows * cols && |col| == rows && j < cols
    ensures Written(a, a, col, rows, cols, j, 0)
  {}

  lemma AllRows(now: seq<Complex>, orig: seq<Complex>, rows: nat, cols: nat, inverse: bool, root: nat -> Complex, levels: nat)
    requires RowsSoFar(now, orig, rows, cols, inverse, root, levels, rows)
    ensures now == RowPass(orig, rows, cols, inverse, root, levels)
  {
    hide Line, Cell, RowPass;
    SameCells(now, RowPass(orig, rows, cols, inverse, root, levels), rows, cols);
  }

  lemma AllColumns(now: seq<Complex>, orig: seq<Complex>, rows: nat, cols: nat, inverse: bool, root: nat -> Complex, levels: nat)
    requires ColumnsSoFar(now, orig, rows, cols, inverse, root, levels, cols)
    ensures now == ColumnPass(orig, rows, cols, inverse, root, levels)
  {
    hide Line, Cell, ColumnPass;
    SameCells(now, ColumnPass(orig, rows, cols, inverse, root, levels), rows, cols);
  }
}
