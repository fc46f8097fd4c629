/** Row-major matrices kept in flat buffers. */
module Matrix {
  import opened Ints

  /** The address of row i, column j in a matrix with the given number of columns. */
  function At(i: nat, j: nat, cols: nat): nat { i * cols + j }

  function Cell<T>(a: seq<T>, rows: nat, cols: nat, i: nat, j: nat): T
    requires rows * cols <= |a| && i < rows && j < cols
  {
    AtBound(i, j, rows, cols);
    a[At(i, j, cols)]
  }

  lemma AtBound(i: nat, j: nat, rows: nat, cols: nat)
    requires i < rows && j < cols
    ensures At(i, j, cols) < rows * cols
  {
    RowMajorBound(i, j, rows, cols);
  }

  lemma AtRow(i: nat, j: nat, cols: nat)
    ensures At(i, j, cols) == At(i, 0, cols) + j
    ensures At(i + 1, 0, cols) == At(i, 0, cols) + cols
  {}

  lemma AtSplit(i: nat, j: nat, cols: nat)
    requires j < cols
    ensures At(i, j, cols) / cols == i && At(i, j, cols) % cols == j
  {
    RowColumn(i, j, cols);
  }

  /** Every address belongs to a cell. */
  lemma CellAt(p: nat, rows: nat, cols: nat) returns (i: nat, j: nat)
    requires p < rows * cols
    ensures i < rows && j < cols && p == At(i, j, cols)
  {
    AddressSplit(p, rows, cols);
    i, j := p / cols, p % cols;
  }

  /** Rows do not overlap. */
  lemma OtherRow(p: nat, q: nat, i: nat, cols: nat)
    requires p != i && q < cols
    ensures !(At(i, 0, cols) <= At(p, q, cols) < At(i, 0, cols) + cols)
  {
    if p < i { ProductMonotone(p + 1, i, cols); } else { ProductMonotone(i + 1, p, cols); }
  }

  /** Different cells have different addresses. */
  lemma SameAddress(p: nat, q: nat, i: nat, j: nat, cols: nat)
    requires q < cols && j < cols && At(p, q, cols) == At(i, j, cols)
    ensures p == i && q == j
  {
    if p != i { OtherRow(p, q, i, cols); }
  }

  /** Row i followed by row k > i inside the matrix. */
  lemma RowsApart(i: nat, k: nat, rows: nat, cols: nat)
    requires i < k < rows
    ensures At(i, 0, cols) + cols <= At(k, 0, cols)
    ensures At(k, 0, cols) + cols <= rows * cols
  {
    ProductMonotone(i + 1, k, cols);
    ProductMonotone(k + 1, rows, cols);
  }

  lemma SameCells<T>(a: seq<T>, b: seq<T>, rows: nat, cols: nat)
    requires |a| == |b| == rows * cols
    requires forall i: nat, j: nat :: i < rows && j < cols ==> Cell(a, rows, cols, i, j) == Cell(b, rows, cols, i, j)
    ensures a == b
  {
    forall p: nat | p < |a|
      ensures a[p] == b[p]
    {
      AddressSplit(p, rows, cols);
      assert Cell(a, rows, cols, p / cols, p % cols) == Cell(b, rows, cols, p / cols, p % cols);
    }
  }
}
