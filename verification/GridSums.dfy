/** Sums over rectangles of a plane of numbers, and over the ring left when a square is cut out. */
module GridSums {
  import opened Ints
  import opened Matrix

  type Plane = (int, int) -> real

  /** The matrix as a plane; zero off the grid, which is how the clipped loops treat it. */
  function DataPlane(data: seq<real>, rows: nat, cols: nat): Plane
    requires rows * cols <= |data|
  {
    (r, c) => if 0 <= r < rows && 0 <= c < cols then Cell(data, rows, cols, r, c) else 0.0
  }

  function RowSum(v: Plane, r: int, c0: int, c1: int): real
    decreases c1 - c0
  {
    if c1 <= c0 then 0.0 else RowSum(v, r, c0, c1 - 1) + v(r, c1 - 1)
  }

  function RectSum(v: Plane, r0: int, r1: int, c0: int, c1: int): real
    decreases r1 - r0
  {
    if r1 <= r0 then 0.0 else RectSum(v, r0, r1 - 1, c0, c1) + RowSum(v, r1 - 1, c0, c1)
  }

  /** The plane with the square of half-width g around (row, col) cut out. */
  function Masked(v: Plane, row: int, col: int, g: nat): Plane {
    (r, c) => if Inside(r, row, g) && Inside(c, col, g) then 0.0 else v(r, c)
  }

  predicate Inside(x: int, centre: int, g: nat) { centre - g <= x <= centre + g }

  /** The square of half-width k around (row, col) without the one of half-width g. */
  function RingSum(v: Plane, row: int, col: int, g: nat, k: nat): real {
    RectSum(Masked(v, row, col, g), row - k, row + k + 1, col - k, col + k + 1)
  }

  function Transpose(v: Plane): Plane { (r, c) => v(c, r) }

  // ---------------------------------------------------------------- congruence

  ghost predicate SameOn(v: Plane, u: Plane, r0: int, r1: int, c0: int, c1: int) {
    forall r: int, c: int :: r0 <= r < r1 && c0 <= c < c1 ==> v(r, c) == u(r, c)
  }

  lemma {:induction false} RowSumSame(v: Plane, u: Plane, r: int, c0: int, c1: int)
    requires forall c: int :: c0 <= c < c1 ==> v(r, c) == u(r, c)
    ensures RowSum(v, r, c0, c1) == RowSum(u, r, c0, c1)
    decreases c1 - c0
  {
    if c0 < c1 { RowSumSame(v, u, r, c0, c1 - 1); }
  }

  lemma {:induction false} RectSumSame(v: Plane, u: Plane, r0: int, r1: int, c0: int, c1: int)
    requires SameOn(v, u, r0, r1, c0, c1)
    ensures RectSum(v, r0, r1, c0, c1) == RectSum(u, r0, r1, c0, c1)
    decreases r1 - r0
  {
    if r0 < r1 {
      RectSumSame(v, u, r0, r1 - 1, c0, c1);
      RowSumSame(v, u, r1 - 1, c0, c1);
    }
  }

  // ---------------------------------------------------------------- the ring is a difference

  function ClampInt(x: int, lo: int, hi: int): int { if x < lo then lo else if x > hi then hi else x }

  lemma {:induction false} MaskedRow(v: Plane, row: int, col: int, g: nat, r: int, c0: int, c1: int)
    requires c0 <= col - g && c0 <= c1
    ensures RowSum(Masked(v, row, col, g), r, c0, c1)
         == RowSum(v, r, c0, c1) - (if Inside(r, row, g) then RowSum(v, r, col - g, ClampInt(c1, col - g, col + g + 1)) else 0.0)
    decreases c1 - c0
  {
    if c0 < c1 { MaskedRow(v, row, col, g, r, c0, c1 - 1); }
  }

  lemma {:induction false} MaskedRect(v: Plane, row: int, col: int, g: nat, r0: int, r1: int, c0: int, c1: int)
    requires c0 <= col - g && col + g + 1 <= c1 && r0 <= row - g && r0 <= r1
    ensures RectSum(Masked(v, row, col, g), r0, r1, c0, c1)
         == RectSum(v, r0, r1, c0, c1) - RectSum(v, row - g, ClampInt(r1, row - g, row + g + 1), col - g, col + g + 1)
    decreases r1 - r0
  {
    if r0 < r1 {
      MaskedRect(v, row, col, g, r0, r1 - 1, c0, c1);
      MaskedRow(v, row, col, g, r1 - 1, c0, c1);
    }
  }

  /** The ring is the outer square less the inner one. */
  lemma RingIsDifference(v: Plane, row: int, col: int, g: nat, k: nat)
    requires g <= k
    ensures RingSum(v, row, col, g, k)
         == RectSum(v, row - k, row + k + 1, col - k, col + k + 1) - RectSum(v, row - g, row + g + 1, col - g, col + g + 1)
  {
    MaskedRect(v, row, col, g, row - k, row + k + 1, col - k, col + k + 1);
  }

  // ---------------------------------------------------------------- order of summation

  lemma {:induction false} AddColumn(v: Plane, r0: int, r1: int, c0: int, c1: int)
    requires c0 <= c1
    ensures RectSum(v, r0, r1, c0, c1 + 1) == RectSum(v, r0, r1, c0, c1) + RowSum(Transpose(v), c1, r0, r1)
    decreases r1 - r0
  {
    if r0 < r1 { AddColumn(v, r0, r1 - 1, c0, c1); }
  }

  lemma {:induction false} NoColumns(v: Plane, r0: int, r1: int, c: int)
    ensures RectSum(v, r0, r1, c, c) == 0.0
    decreases r1 - r0
  {
    if r0 < r1 { NoColumns(v, r0, r1 - 1, c); }
  }

  /** Summing by rows or by columns is the same. */
  lemma {:induction false} SumByColumns(v: Plane, r0: int, r1: int, c0: int, c1: int)
    requires c0 <= c1
    ensures RectSum(Transpose(v), c0, c1, r0, r1) == RectSum(v, r0, r1, c0, c1)
    decreases c1 - c0
  {
    if c0 == c1 {
      NoColumns(v, r0, r1, c0);
    } else {
      SumByColumns(v, r0, r1, c0, c1 - 1);
      AddColumn(v, r0, r1, c0, c1 - 1);
    }
  }

  /** A ring seen with rows and columns exchanged has the same sum. */
  lemma RingTransposed(v: Plane, row: int, col: int, g: nat, k: nat)
    ensures RingSum(Transpose(v), col, row, g, k) == RingSum(v, row, col, g, k)
  {
    RectSumSame(Masked(Transpose(v), col, row, g), Transpose(Masked(v, row, col, g)), col - k, col + k + 1, row - k, row + k + 1);
    SumByColumns(Masked(v, row, col, g), row - k, row + k + 1, col - k, col + k + 1);
  }

  // ---------------------------------------------------------------- sizes and signs

  /** One on the cells of a rows by cols grid, zero elsewhere. */
  function Ones(rows: nat, cols: nat): Plane {
    (r, c) => if 0 <= r < rows && 0 <= c < cols then 1.0 else 0.0
  }

  /** How many of lo..hi-1 are below n and not negative. */
  function Overlap(lo: int, hi: int, n: nat): (m: nat) {
    var a, b := if lo < 0 then 0 else lo, if hi > n then n else hi;
    if a < b then b - a else 0
  }

  lemma {:induction false} OnesRow(rows: nat, cols: nat, r: int, c0: int, c1: int)
    ensures RowSum(Ones(rows, cols), r, c0, c1) == if 0 <= r < rows then Overlap(c0, c1, cols) as real else 0.0
    decreases c1 - c0
  {
    if c0 < c1 { OnesRow(rows, cols, r, c0, c1 - 1); }
  }

  lemma {:induction false} OnesRect(rows: nat, cols: nat, r0: int, r1: int, c0: int, c1: int)
    ensures RectSum(Ones(rows, cols), r0, r1, c0, c1) == (Overlap(r0, r1, rows) * Overlap(c0, c1, cols)) as real
    decreases r1 - r0
  {
    var m := Overlap(c0, c1, cols);
    if r0 < r1 {
      OnesRect(rows, cols, r0, r1 - 1, c0, c1);
      OnesRow(rows, cols, r1 - 1, c0, c1);
      assert (Overlap(r0, r1 - 1, rows) + 1) * m == Overlap(r0, r1 - 1, rows) * m + m;
    }
  }

  /** The ring's cell count: the clipped outer area less the whole guard square. */
  lemma RingCount(rows: nat, cols: nat, row: int, col: int, g: nat, k: nat)
    requires g <= k && g <= row < rows - g && g <= col < cols - g
    ensures RingSum(Ones(rows, cols), row, col, g, k)
         == (Overlap(row - k, row + k + 1, rows) * Overlap(col - k, col + k + 1, cols) - (2 * g + 1) * (2 * g + 1)) as real
  {
    RingIsDifference(Ones(rows, cols), row, col, g, k);
    OnesRect(rows, cols, row - k, row + k + 1, col - k, col + k + 1);
    OnesRect(rows, cols, row - g, row + g + 1, col - g, col + g + 1);
  }

  lemma {:induction false} RectSumNonNegative(v: Plane, r0: int, r1: int, c0: int, c1: int)
    requires forall r: int, c: int :: v(r, c) >= 0.0
    ensures RectSum(v, r0, r1, c0, c1) >= 0.0
    decreases r1 - r0
  {
    if r0 < r1 {
      RectSumNonNegative(v, r0, r1 - 1, c0, c1);
      RowSumNonNegative(v, r1 - 1, c0, c1);
    }
  }

  lemma {:induction false} RowSumNonNegative(v: Plane, r: int, c0: int, c1: int)
    requires forall x: int, c: int :: v(x, c) >= 0.0
    ensures RowSum(v, r, c0, c1) >= 0.0
    decreases c1 - c0
  {
    if c0 < c1 { RowSumNonNegative(v, r, c0, c1 - 1); }
  }

  // ---------------------------------------------------------------- blocks of a buffer

  /** Cells c0 to c1 - 1 of row r in a row-major buffer, summed from the front. */
  function Strip(data: seq<real>, cols: nat, r: nat, c0: nat, c1: nat): real
    requires c0 <= c1 <= cols && (r + 1) * cols <= |data|
    decreases c1 - c0
  {
    if c0 == c1 then 0.0 else data[r * cols + c0] + Strip(data, cols, r, c0 + 1, c1)
  }

  /** Rows r0 to r1 - 1 and columns c0 to c1 - 1, summed from the front. */
  function Block(data: seq<real>, rows: nat, cols: nat, r0: nat, r1: nat, c0: nat, c1: nat): real
    requires r0 <= r1 <= rows && c0 <= c1 <= cols && rows * cols <= |data|
    decreases r1 - r0
  {
    if r0 == r1 then 0.0 else
      RowFits(r0, rows, cols);
      Strip(data, cols, r0, c0, c1) + Block(data, rows, cols, r0 + 1, r1, c0, c1)
  }

  lemma RowFits(r: nat, rows: nat, cols: nat)
    requires r < rows
    ensures (r + 1) * cols <= rows * cols
  {
    ProductMonotone(r + 1, rows, cols);
  }

  lemma {:induction false} RowFront(v: Plane, r: int, c0: int, c1: int)
    requires c0 < c1
    ensures RowSum(v, r, c0, c1) == v(r, c0) + RowSum(v, r, c0 + 1, c1)
    decreases c1 - c0
  {
    if c0 + 1 < c1 { RowFront(v, r, c0, c1 - 1); }
  }

  lemma {:induction false} RectFront(v: Plane, r0: int, r1: int, c0: int, c1: int)
    requires r0 < r1
    ensures RectSum(v, r0, r1, c0, c1) == RowSum(v, r0, c0, c1) + RectSum(v, r0 + 1, r1, c0, c1)
    decreases r1 - r0
  {
    if r0 + 1 < r1 { RectFront(v, r0, r1 - 1, c0, c1); }
  }

  lemma {:induction false} StripIs(data: seq<real>, rows: nat, cols: nat, r: nat, c0: nat, c1: nat)
    requires c0 <= c1 <= cols && r < rows && rows * cols <= |data| && (r + 1) * cols <= |data|
    ensures Strip(data, cols, r, c0, c1) == RowSum(DataPlane(data, rows, cols), r, c0, c1)
    decreases c1 - c0
  {
    if c0 < c1 {
      StripIs(data, rows, cols, r, c0 + 1, c1);
      RowFront(DataPlane(data, rows, cols), r, c0, c1);
      AtBound(r, c0, rows, cols);
    }
  }

  lemma {:induction false} BlockIs(data: seq<real>, rows: nat, cols: nat, r0: nat, r1: nat, c0: nat, c1: nat)
    requires r0 <= r1 <= rows && c0 <= c1 <= cols && rows * cols <= |data|
    ensures Block(data, rows, cols, r0, r1, c0, c1) == RectSum(DataPlane(data, rows, cols), r0, r1, c0, c1)
    decreases r1 - r0
  {
    if r0 < r1 {
      RowFits(r0, rows, cols);
      BlockIs(data, rows, cols, r0 + 1, r1, c0, c1);
      StripIs(data, rows, cols, r0, c0, c1);
      RectFront(DataPlane(data, rows, cols), r0, r1, c0, c1);
    }
  }

  lemma {:induction false} RowSplit(v: Plane, r: int, c0: int, m: int, c1: int)
    requires c0 <= m <= c1
    ensures RowSum(v, r, c0, c1) == RowSum(v, r, c0, m) + RowSum(v, r, m, c1)
    decreases c1 - m
  {
    if m < c1 { RowSplit(v, r, c0, m, c1 - 1); }
  }

  lemma {:induction false} RowVoid(v: Plane, r: int, c0: int, c1: int)
    requires forall c: int :: c0 <= c < c1 ==> v(r, c) == 0.0
    ensures RowSum(v, r, c0, c1) == 0.0
    decreases c1 - c0
  {
    if c0 < c1 { RowVoid(v, r, c0, c1 - 1); }
  }

  lemma {:induction false} RectVoid(v: Plane, r0: int, r1: int, c0: int, c1: int)
    requires forall r: int, c: int :: r0 <= r < r1 && c0 <= c < c1 ==> v(r, c) == 0.0
    ensures RectSum(v, r0, r1, c0, c1) == 0.0
    decreases r1 - r0
  {
    if r0 < r1 {
      RectVoid(v, r0, r1 - 1, c0, c1);
      RowVoid(v, r1 - 1, c0, c1);
    }
  }

  lemma {:induction false} RectSplit(v: Plane, r0: int, m: int, r1: int, c0: int, c1: int)
    requires r0 <= m <= r1
    ensures RectSum(v, r0, r1, c0, c1) == RectSum(v, r0, m, c0, c1) + RectSum(v, m, r1, c0, c1)
    decreases r1 - m
  {
    if m < r1 { RectSplit(v, r0, m, r1 - 1, c0, c1); }
  }

  lemma {:induction false} ClippedColumns(data: seq<real>, rows: nat, cols: nat, r0: int, r1: int, c0: int, c1: int)
    requires rows * cols <= |data| && c0 < cols && c1 > 0 && c0 <= c1
    ensures RectSum(DataPlane(data, rows, cols), r0, r1, c0, c1)
         == RectSum(DataPlane(data, rows, cols), r0, r1, if c0 < 0 then 0 else c0, if c1 > cols then cols else c1)
    decreases r1 - r0
  {
    hide Cell;
    var v, a, b := DataPlane(data, rows, cols), if c0 < 0 then 0 else c0, if c1 > cols then cols else c1;
    if r0 < r1 {
      ClippedColumns(data, rows, cols, r0, r1 - 1, c0, c1);
      RowVoid(v, r1 - 1, c0, a);
      RowVoid(v, r1 - 1, b, c1);
      RowSplit(v, r1 - 1, c0, a, c1);
      RowSplit(v, r1 - 1, a, b, c1);
    }
  }

  /** Off the grid there is nothing to add. */
  lemma Clipped(data: seq<real>, rows: nat, cols: nat, r0: int, r1: int, c0: int, c1: int)
    requires rows * cols <= |data| && c0 < cols && c1 > 0 && c0 <= c1 && r0 < rows && r1 > 0 && r0 <= r1
    ensures RectSum(DataPlane(data, rows, cols), r0, r1, c0, c1)
         == Block(data, rows, cols, if r0 < 0 then 0 else r0, if r1 > rows then rows else r1, if c0 < 0 then 0 else c0, if c1 > cols then cols else c1)
  {
    var v, a, b := DataPlane(data, rows, cols), if r0 < 0 then 0 else r0, if r1 > rows then rows else r1;
    ClippedColumns(data, rows, cols, r0, r1, c0, c1);
    var c, d := if c0 < 0 then 0 else c0, if c1 > cols then cols else c1;
    OffGrid(data, rows, cols, r0, a, c, d);
    OffGrid(data, rows, cols, b, r1, c, d);
    RectSplit(v, r0, a, r1, c, d);
    RectSplit(v, a, b, r1, c, d);
    BlockIs(data, rows, cols, a, b, c, d);
  }

  lemma OffGrid(data: seq<real>, rows: nat, cols: nat, r0: int, r1: int, c0: int, c1: int)
    requires rows * cols <= |data| && (r1 <= 0 || r0 >= rows || r1 <= r0)
    ensures RectSum(DataPlane(data, rows, cols), r0, r1, c0, c1) == 0.0
  {
    hide Cell;
    RectVoid(DataPlane(data, rows, cols), r0, r1, c0, c1);
  }
}
