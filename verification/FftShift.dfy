/** Swapping the halves of a matrix along both axes, as the Go row copies and as the C element swaps. */
module FftShift {
  import opened Ints
  import opened Matrix

  /** Where the element at index i of an axis of length n comes from: an odd axis keeps its last element. */
  function SwapHalf(i: nat, n: nat): nat {
    if i < n / 2 then i + n / 2 else if i < 2 * (n / 2) then i - n / 2 else i
  }

  /** b is a with both axes' halves swapped. */
  ghost predicate Shifted<T>(b: seq<T>, a: seq<T>, rows: nat, cols: nat) {
    && rows * cols <= |a| == |b|
    && (forall i: nat, j: nat :: i < rows && j < cols ==>
         Cell(b, rows, cols, i, j) == Cell(a, rows, cols, SwapHalf(i, rows), SwapHalf(j, cols)))
    && b[rows * cols..] == a[rows * cols..]
  }

  lemma ShiftedIsUnique<T>(b: seq<T>, c: seq<T>, a: seq<T>, rows: nat, cols: nat)
    requires Shifted(b, a, rows, cols) && Shifted(c, a, rows, cols)
    ensures b == c
  {
    hide SwapHalf;
    var n := rows * cols;
    forall i: nat, j: nat | i < rows && j < cols
      ensures Cell(b[..n], rows, cols, i, j) == Cell(c[..n], rows, cols, i, j)
    {
      RowMajorBound(i, j, rows, cols);
      assert Cell(b, rows, cols, i, j) == Cell(c, rows, cols, i, j);
    }
    SameCells(b[..n], c[..n], rows, cols);
    assert b == b[..n] + b[n..] && c == c[..n] + c[n..];
  }

  lemma SwapTwice(i: nat, n: nat)
    requires i < n
    ensures SwapHalf(i, n) < n && SwapHalf(SwapHalf(i, n), n) == i
  {}

  lemma ShiftedAt<T>(b: seq<T>, a: seq<T>, rows: nat, cols: nat, i: nat, j: nat)
    requires Shifted(b, a, rows, cols) && i < rows && j < cols
    requires SwapHalf(i, rows) < rows && SwapHalf(j, cols) < cols && rows * cols <= |a| && rows * cols <= |b|
    ensures Cell(b, rows, cols, i, j) == Cell(a, rows, cols, SwapHalf(i, rows), SwapHalf(j, cols))
  {
    hide SwapHalf, At;
  }

  lemma ShiftedSize<T>(b: seq<T>, a: seq<T>, rows: nat, cols: nat)
    requires Shifted(b, a, rows, cols)
    ensures rows * cols <= |a| == |b| && b[rows * cols..] == a[rows * cols..]
  {
    hide SwapHalf, Cell;
  }

  lemma PrefixCell<T>(a: seq<T>, rows: nat, cols: nat, i: nat, j: nat)
    requires i < rows && j < cols && rows * cols <= |a|
    ensures Cell(a[..rows * cols], rows, cols, i, j) == Cell(a, rows, cols, i, j)
  {
    hide At;
    AtBound(i, j, rows, cols);
  }

  /** Shifting twice restores every matrix, whatever its shape. */
  lemma ShiftTwice<T>(c: seq<T>, b: seq<T>, a: seq<T>, rows: nat, cols: nat)
    requires Shifted(b, a, rows, cols) && Shifted(c, b, rows, cols)
    ensures c == a
  {
    hide SwapHalf, Shifted, Cell;
    ShiftedSize(b, a, rows, cols);
    ShiftedSize(c, b, rows, cols);
    var n := rows * cols;
    forall i: nat, j: nat | i < rows && j < cols
      ensures Cell(c[..n], rows, cols, i, j) == Cell(a[..n], rows, cols, i, j)
    {
      SwapTwice(i, rows);
      SwapTwice(j, cols);
      ShiftedAt(c, b, rows, cols, i, j);
      ShiftedAt(b, a, rows, cols, SwapHalf(i, rows), SwapHalf(j, cols));
      PrefixCell(c, rows, cols, i, j);
      PrefixCell(a, rows, cols, i, j);
    }
    SameCells(c[..n], a[..n], rows, cols);
    assert c == c[..n] + c[n..] && a == a[..n] + a[n..];
  }

  // ---------------------------------------------------------------- cyclic shift

  /** The index that a cyclic shift by half the axis brings to i. */
  function Cyclic(i: nat, n: nat): nat
    requires i < n
  {
    (i + n / 2) % n
  }

  lemma CyclicAxis(i: nat, n: nat)
    requires i < n && (n % 2 == 0 || n == 1)
    ensures SwapHalf(i, n) == Cyclic(i, n)
  {
    var h := n / 2;
    if n > 1 { DivUnique(i + h, n, if i < h then 0 else 1, if i < h then i + h else i - h); }
  }

  lemma NotCyclicAxis(n: nat)
    requires n % 2 == 1 && n > 1
    ensures SwapHalf(n - 1, n) == n - 1 != Cyclic(n - 1, n) == n / 2 - 1
  {
    DivUnique(n - 1 + n / 2, n, 1, n / 2 - 1);
  }

  ghost predicate CyclicShifted<T>(b: seq<T>, a: seq<T>, rows: nat, cols: nat) {
    && rows * cols <= |a| == |b|
    && forall i: nat, j: nat :: i < rows && j < cols ==>
         Cell(b, rows, cols, i, j) == Cell(a, rows, cols, Cyclic(i, rows), Cyclic(j, cols))
  }

  predicate CyclicShape(n: nat) { n % 2 == 0 || n == 1 }

  /** On axes that are even, or of a single element, the shift is the cyclic shift by half of each axis. */
  lemma ShiftIsCyclic<T>(b: seq<T>, a: seq<T>, rows: nat, cols: nat)
    requires Shifted(b, a, rows, cols) && CyclicShape(rows) && CyclicShape(cols)
    ensures CyclicShifted(b, a, rows, cols)
  {
    forall i: nat, j: nat | i < rows && j < cols
      ensures Cell(b, rows, cols, i, j) == Cell(a, rows, cols, Cyclic(i, rows), Cyclic(j, cols))
    {
      CyclicAxis(i, rows);
      CyclicAxis(j, cols);
    }
  }

  /** The matrix whose cells are their own addresses. */
  function Addresses(n: nat): (a: seq<nat>)
    ensures |a| == n && forall p: nat :: p < n ==> a[p] == p
  {
    seq(n, (p: nat) => p)
  }

  /** On any other non-empty shape some matrix is shifted differently: this is exact. */
  lemma CyclicExactly(rows: nat, cols: nat)
    requires rows > 0 && cols > 0
    ensures (forall a: seq<nat>, b: seq<nat> :: |a| == rows * cols && Shifted(b, a, rows, cols) ==> CyclicShifted(b, a, rows, cols))
       <==> CyclicShape(rows) && CyclicShape(cols)
  {
    hide SwapHalf, Cyclic, CyclicShifted, Shifted;
    if CyclicShape(rows) && CyclicShape(cols) {
      forall a: seq<nat>, b: seq<nat> | |a| == rows * cols && Shifted(b, a, rows, cols)
        ensures CyclicShifted(b, a, rows, cols)
      {
        ShiftIsCyclic(b, a, rows, cols);
      }
    } else {
      var a := Addresses(rows * cols);
      var b := ShiftOf(a, rows, cols);
      NotCyclic(b, a, rows, cols);
    }
  }

  lemma ShiftOf(a: seq<nat>, rows: nat, cols: nat) returns (b: seq<nat>)
    requires |a| == rows * cols
    ensures Shifted(b, a, rows, cols)
  {
    b := seq(|a|, (p: nat) requires p < |a| =>
               AddressSplit(p, rows, cols); Cell(a, rows, cols, SwapHalf(p / cols, rows), SwapHalf(p % cols, cols)));
    forall i: nat, j: nat | i < rows && j < cols
      ensures Cell(b, rows, cols, i, j) == Cell(a, rows, cols, SwapHalf(i, rows), SwapHalf(j, cols))
    {
      RowMajorBound(i, j, rows, cols);
      RowColumn(i, j, cols);
    }
  }

  lemma NotCyclic(b: seq<nat>, a: seq<nat>, rows: nat, cols: nat)
    requires rows > 0 && cols > 0 && !(CyclicShape(rows) && CyclicShape(cols))
    requires |a| == rows * cols && (forall p: nat :: p < |a| ==> a[p] == p) && Shifted(b, a, rows, cols)
    ensures !CyclicShifted(b, a, rows, cols)
  {
    hide At, SwapHalf, Cyclic;
    var i, j := rows - 1, cols - 1;
    if CyclicShifted(b, a, rows, cols) {
      if !CyclicShape(rows) { NotCyclicAxis(rows); } else { NotCyclicAxis(cols); }
      AxisInside(i, rows);
      AxisInside(j, cols);
      var p, q, r, s := SwapHalf(i, rows), SwapHalf(j, cols), Cyclic(i, rows), Cyclic(j, cols);
      assert Cell(b, rows, cols, i, j) == Cell(a, rows, cols, p, q);
      assert Cell(b, rows, cols, i, j) == Cell(a, rows, cols, r, s);
      AtBound(p, q, rows, cols);
      AtBound(r, s, rows, cols);
      SameAddress(p, q, r, s, cols);
    }
  }

  lemma AxisInside(i: nat, n: nat)
    requires i < n
    ensures SwapHalf(i, n) < n && Cyclic(i, n) < n
  {}

  // ---------------------------------------------------------------- the loops

  /** The element at row i, with the first `done` row pairs swapped. */
  function RowSource(i: nat, rows: nat, done: nat): nat {
    if i < done || rows / 2 <= i < rows / 2 + done then SwapHalf(i, rows) else i
  }

  ghost predicate RowsSwapped<T>(now: seq<T>, orig: seq<T>, rows: nat, cols: nat, done: nat) {
    && rows * cols <= |orig| == |now| && done <= rows / 2
    && (forall i: nat, j: nat :: i < rows && j < cols ==>
         Cell(now, rows, cols, i, j) == Cell(orig, rows, cols, RowSource(i, rows, done), j))
    && now[rows * cols..] == orig[rows * cols..]
  }

  /** Rows before `row` have their halves swapped, and `row` its first `done` column pairs. */
  ghost predicate ColumnsSwapped<T>(now: seq<T>, mid: seq<T>, rows: nat, cols: nat, row: nat, done: nat) {
    && rows * cols <= |mid| == |now| && row <= rows && done <= cols / 2
    && (forall i: nat, j: nat :: i < rows && j < cols ==>
         Cell(now, rows, cols, i, j) == Cell(mid, rows, cols, i, if i < row then SwapHalf(j, cols) else if i == row then RowSource(j, cols, done) else j))
    && now[rows * cols..] == mid[rows * cols..]
  }

  lemma BothAxes<T>(now: seq<T>, mid: seq<T>, orig: seq<T>, rows: nat, cols: nat)
    requires RowsSwapped(mid, orig, rows, cols, rows / 2) && ColumnsSwapped(now, mid, rows, cols, rows, 0)
    ensures Shifted(now, orig, rows, cols)
  {
    forall i: nat, j: nat | i < rows && j < cols
      ensures Cell(now, rows, cols, i, j) == Cell(orig, rows, cols, SwapHalf(i, rows), SwapHalf(j, cols))
    {
      assert Cell(now, rows, cols, i, j) == Cell(mid, rows, cols, i, SwapHalf(j, cols));
      assert RowSource(i, rows, rows / 2) == SwapHalf(i, rows);
    }
  }

  lemma ColumnSwapStep<T>(next: seq<T>, now: seq<T>, mid: seq<T>, rows: nat, cols: nat, row: nat, done: nat, p: nat, q: nat)
    requires row < rows && done < cols / 2 && ColumnsSwapped(now, mid, rows, cols, row, done)
    requires p == At(row, done, cols) && q == At(row, done + cols / 2, cols) && p < |now| && q < |now|
    requires next == now[p := now[q]][q := now[p]]
    ensures ColumnsSwapped(next, mid, rows, cols, row, done + 1)
  {
    hide At;
    var h := cols / 2;
    AtRow(row, done, cols);
    AtRow(row, done + h, cols);
    AtBound(row, done, rows, cols);
    AtBound(row, done + h, rows, cols);
    forall i: nat, j: nat | i < rows && j < cols
      ensures Cell(next, rows, cols, i, j) == Cell(mid, rows, cols, i, if i < row then SwapHalf(j, cols) else if i == row then RowSource(j, cols, done + 1) else j)
    {
      AtBound(i, j, rows, cols);
      AtRow(i, j, cols);
      if i != row { OtherRow(i, j, row, cols); }
      var from := if i == row && j == done then done + h else if i == row && j == done + h then done else j;
      assert Cell(next, rows, cols, i, j) == Cell(now, rows, cols, i, from);
      assert Cell(now, rows, cols, i, from) == Cell(mid, rows, cols, i, if i < row then SwapHalf(from, cols) else if i == row then RowSource(from, cols, done) else from);
    }
  }

  lemma NextRow<T>(now: seq<T>, mid: seq<T>, rows: nat, cols: nat, row: nat)
    requires row < rows && ColumnsSwapped(now, mid, rows, cols, row, cols / 2)
    ensures ColumnsSwapped(now, mid, rows, cols, row + 1, 0)
  {
    assert forall j: nat :: j < cols ==> RowSource(j, cols, cols / 2) == SwapHalf(j, cols);
  }

  /** The column loop, which both versions share. */
  method SwapColumns<T>(data: array<T>, rows: nat, cols: nat)
    requires rows * cols <= data.Length
    modifies data
    ensures ColumnsSwapped(data[..], old(data[..]), rows, cols, rows, 0)
  {
    ghost var mid := data[..];
    for row := 0 to rows
      invariant ColumnsSwapped(data[..], mid, rows, cols, row, 0)
    {
      var rowStart := row * cols;
      for i := 0 to cols / 2
        invariant ColumnsSwapped(data[..], mid, rows, cols, row, i)
      {
        AtBound(row, i, rows, cols);
        AtBound(row, i + cols / 2, rows, cols);
        ghost var now := data[..];
        var tmpVal := data[rowStart + i];
        data[rowStart + i] := data[rowStart + i + cols / 2];
        data[rowStart + i + cols / 2] := tmpVal;
        ColumnSwapStep(data[..], now, mid, rows, cols, row, i, rowStart + i, rowStart + i + cols / 2);
      }
      NextRow(data[..], mid, rows, cols, row);
    }
  }

  lemma RowSwapStep<T>(next: seq<T>, now: seq<T>, orig: seq<T>, rows: nat, cols: nat, i: nat)
    requires i < rows / 2 && RowsSwapped(now, orig, rows, cols, i) && |next| == |now|
    requires next[rows * cols..] == now[rows * cols..]
    requires forall p: nat, j: nat :: p < rows && j < cols ==>
               Cell(next, rows, cols, p, j) == Cell(now, rows, cols, if p == i then i + rows / 2 else if p == i + rows / 2 then i else p, j)
    ensures RowsSwapped(next, orig, rows, cols, i + 1)
  {
    forall p: nat, j: nat | p < rows && j < cols
      ensures Cell(next, rows, cols, p, j) == Cell(orig, rows, cols, RowSource(p, rows, i + 1), j)
    {
      var q := if p == i then i + rows / 2 else if p == i + rows / 2 then i else p;
      assert Cell(now, rows, cols, q, j) == Cell(orig, rows, cols, RowSource(q, rows, i), j);
    }
  }

  /** The address that an exchange of the n cells from lo with the n cells from hi brings to p. */
  function ExchangeSource(p: nat, lo: nat, hi: nat, n: nat): nat
    requires lo + n <= hi
  {
    if lo <= p < lo + n then p + (hi - lo) else if hi <= p < hi + n then p - (hi - lo) else p
  }

  /** next is now with the n cells from lo and the n cells from hi exchanged. */
  ghost predicate Exchanged<T>(next: seq<T>, now: seq<T>, lo: nat, hi: nat, n: nat) {
    && lo + n <= hi && hi + n <= |now| == |next|
    && forall p: nat :: p < |now| ==> next[p] == now[ExchangeSource(p, lo, hi, n)]
  }

  lemma RowsSwappedSize<T>(now: seq<T>, orig: seq<T>, rows: nat, cols: nat, i: nat)
    requires RowsSwapped(now, orig, rows, cols, i)
    ensures rows * cols <= |now|
  {}

  lemma NothingExchanged<T>(now: seq<T>, lo: nat, hi: nat)
    requires lo <= hi <= |now|
    ensures Exchanged(now, now, lo, hi, 0)
  {}

  lemma ExchangeOne<T>(next: seq<T>, was: seq<T>, now: seq<T>, lo: nat, hi: nat, j: nat)
    requires Exchanged(was, now, lo, hi, j) && lo + j < hi && hi + j < |now|
    requires next == was[lo + j := was[hi + j]][hi + j := was[lo + j]]
    ensures Exchanged(next, now, lo, hi, j + 1)
  {
    assert was[lo + j] == now[lo + j] && was[hi + j] == now[hi + j];
    forall p: nat | p < |now|
      ensures next[p] == now[ExchangeSource(p, lo, hi, j + 1)]
    {
      if p != lo + j && p != hi + j { assert next[p] == was[p]; }
    }
  }

  lemma RowsExchanged<T>(next: seq<T>, now: seq<T>, orig: seq<T>, rows: nat, cols: nat, i: nat, lo: nat, hi: nat)
    requires i < rows / 2 && RowsSwapped(now, orig, rows, cols, i)
    requires lo == At(i, 0, cols) && hi == At(i + rows / 2, 0, cols) && Exchanged(next, now, lo, hi, cols)
    ensures RowsSwapped(next, orig, rows, cols, i + 1)
  {
    hide At, SwapHalf, RowSource, RowsSwapped;
    RowsSwappedSize(now, orig, rows, cols, i);
    RowsApart(i, i + rows / 2, rows, cols);
    forall p: nat, j: nat | p < rows && j < cols
      ensures Cell(next, rows, cols, p, j) == Cell(now, rows, cols, if p == i then i + rows / 2 else if p == i + rows / 2 then i else p, j)
    {
      AtBound(p, j, rows, cols);
      AtRow(p, j, cols);
      AtRow(i, j, cols);
      AtRow(i + rows / 2, j, cols);
      if p != i { OtherRow(p, j, i, cols); }
      if p != i + rows / 2 { OtherRow(p, j, i + rows / 2, cols); }
      var a, from := At(p, j, cols), if p == i then i + rows / 2 else if p == i + rows / 2 then i else p;
      AtBound(from, j, rows, cols);
      assert next[a] == now[At(from, j, cols)];
    }
    assert forall p: nat :: rows * cols <= p < |now| ==> next[p] == now[p];
    RowSwapStep(next, now, orig, rows, cols, i);
  }

  /** now is was with the n cells from `to` taken from src. */
  ghost predicate Copied<T>(now: seq<T>, was: seq<T>, to: nat, src: seq<T>, from: nat, n: nat) {
    && to + n <= |now| == |was| && from + n <= |src|
    && forall p: nat :: p < |now| ==> now[p] == if to <= p < to + n then src[from + (p - to)] else was[p]
  }

  /** Three copies through a scratch row exchange two rows. */
  lemma CopiesExchange<T>(done: seq<T>, half: seq<T>, scratch: seq<T>, empty: seq<T>, now: seq<T>, lo: nat, hi: nat, n: nat)
    requires lo + n <= hi
    requires Copied(scratch, empty, 0, now, lo, n) && Copied(half, now, lo, now, hi, n) && Copied(done, half, hi, scratch, 0, n)
    ensures Exchanged(done, now, lo, hi, n)
  {
    forall p: nat | p < |now|
      ensures done[p] == now[ExchangeSource(p, lo, hi, n)]
    {
      if hi <= p < hi + n {
        assert done[p] == scratch[p - hi];
      } else {
        assert done[p] == half[p];
      }
    }
  }

  /** Copies cells [from, from + n) of src over cells [to, to + n) of dst. */
  method CopyCells<T>(dst: array<T>, to: nat, src: array<T>, from: nat, n: nat)
    requires to + n <= dst.Length && from + n <= src.Length
    modifies dst
    ensures Copied(dst[..], old(dst[..]), to, old(src[..]), from, n)
  {
    forall p | to <= p < to + n {
      dst[p] := src[from + (p - to)];
    }
  }

  /** The Go shift: whole rows through a scratch row, then elements within each row. */
  method ShiftRowCopy<T(0)>(data: array<T>, rows: nat, cols: nat)
    requires rows * cols <= data.Length
    modifies data
    ensures Shifted(data[..], old(data[..]), rows, cols)
  {
    hide RowsSwapped, ColumnsSwapped, Shifted;
    ghost var orig := data[..];
    NoRowsSwapped(orig, rows, cols);
    var tmp := new T[cols];
    var midRow := rows / 2;
    for i := 0 to midRow
      invariant RowsSwapped(data[..], orig, rows, cols, i)
    {
      ghost var now := data[..];
      RowsApart(i, i + midRow, rows, cols);
      var lo, hi := At(i, 0, cols), At(i + midRow, 0, cols);
      ExchangeByCopy(data, tmp, lo, hi, cols);
      RowsExchanged(data[..], now, orig, rows, cols, i, lo, hi);
    }
    ghost var mid := data[..];
    SwapColumns(data, rows, cols);
    BothAxes(data[..], mid, orig, rows, cols);
  }

  lemma NoRowsSwapped<T>(a: seq<T>, rows: nat, cols: nat)
    requires rows * cols <= |a|
    ensures RowsSwapped(a, a, rows, cols, 0)
  {}

  method ExchangeByCopy<T>(data: array<T>, tmp: array<T>, lo: nat, hi: nat, n: nat)
    requires data != tmp && n <= tmp.Length && lo + n <= hi && hi + n <= data.Length
    modifies data, tmp
    ensures Exchanged(data[..], old(data[..]), lo, hi, n)
  {
    hide Copied, Exchanged;
    ghost var now, empty := data[..], tmp[..];
    CopyCells(tmp, 0, data, lo, n);
    CopyCells(data, lo, data, hi, n);
    ghost var half := data[..];
    CopyCells(data, hi, tmp, 0, n);
    CopiesExchange(data[..], half, tmp[..], empty, now, lo, hi, n);
  }

  /** The C shift: elements one by one along both axes. */
  method ShiftElements<T>(data: array<T>, rows: nat, cols: nat)
    requires rows * cols <= data.Length
    modifies data
    ensures Shifted(data[..], old(data[..]), rows, cols)
  {
    hide RowsSwapped, ColumnsSwapped, Shifted, At, Exchanged;
    ghost var orig := data[..];
    NoRowsSwapped(orig, rows, cols);
    var halfRows := rows / 2;
    for i := 0 to halfRows
      invariant RowsSwapped(data[..], orig, rows, cols, i)
    {
      ghost var now := data[..];
      RowsApart(i, i + halfRows, rows, cols);
      var lo, hi := At(i, 0, cols), At(i + halfRows, 0, cols);
      NothingExchanged(now, lo, hi);
      for j := 0 to cols
        invariant Exchanged(data[..], now, lo, hi, j)
      {
        ghost var was := data[..];
        var idx1, idx2 := lo + j, hi + j;
        var temp := data[idx1];
        data[idx1] := data[idx2];
        data[idx2] := temp;
        ExchangeOne(data[..], was, now, lo, hi, j);
      }
      RowsExchanged(data[..], now, orig, rows, cols, i, lo, hi);
    }
    ghost var mid := data[..];
    SwapColumns(data, rows, cols);
    BothAxes(data[..], mid, orig, rows, cols);
  }
}
