/** Division and products of integers, one fact at a time. */
module Ints {

  lemma ProductGrows(d: int, p: int)
    requires d >= 1 && p >= 0
    ensures d * p >= p
  {}

  lemma NextMultiple(d: int, p: int)
    ensures (d + 1) * p == d * p + p
  {}

  /** A product kept folded, for loops that only ever add one more p. */
  ghost function Times(d: nat, p: nat): (r: nat)
    ensures d == 0 ==> r == 0
  {
    d * p
  }

  lemma TimesNext(d: nat, p: nat)
    ensures Times(d + 1, p) == Times(d, p) + p
  {}

  lemma TimesIs(d: nat, p: nat)
    ensures Times(d, p) == d * p == p * d
  {}

  lemma MultipleInside(d: int, p: int)
    requires p > 0 && -p < d * p < p
    ensures d == 0
  {
    if d >= 1 { ProductGrows(d, p); }
    if d <= -1 { ProductGrows(-d, p); }
  }

  /** Quotient and remainder are determined by the division equation. */
  lemma DivUnique(i: int, p: int, q: int, r: int)
    requires p > 0 && i == q * p + r && 0 <= r < p
    ensures i / p == q && i % p == r
  {
    var d := q - i / p;
    assert i == (i / p) * p + i % p;
    assert d * p == q * p - (i / p) * p;
    MultipleInside(d, p);
  }

  lemma DivTwice(i: nat, p: nat)
    requires p > 0
    ensures i / 2 / p == i / (2 * p)
    ensures i / p / 2 == i / (2 * p)
  {
    var q, r := i / (2 * p), i % (2 * p);
    assert i == q * (2 * p) + r;
    assert q * (2 * p) == 2 * (q * p) == (2 * q) * p;
    DivUnique(i / 2, p, q, r / 2);
    if r < p {
      DivUnique(i, p, 2 * q, r);
    } else {
      assert (2 * q + 1) * p == (2 * q) * p + p;
      DivUnique(i, p, 2 * q + 1, r - p);
    }
  }

  /** The low digit of a remainder modulo 2p. */
  lemma ModHalf(a: nat, p: nat)
    requires p > 0
    ensures a % (2 * p) == 2 * (a / 2 % p) + a % 2
    ensures a / (2 * p) == a / 2 / p
  {
    var q, r := a / 2 / p, a / 2 % p;
    assert a / 2 == q * p + r;
    assert q * (2 * p) == 2 * (q * p);
    DivUnique(a, 2 * p, q, 2 * r + a % 2);
  }

  /** Row-major addresses: the row and the column come back by division. */
  lemma RowColumn(row: nat, col: nat, cols: nat)
    requires col < cols
    ensures (row * cols + col) / cols == row
    ensures (row * cols + col) % cols == col
  {
    DivUnique(row * cols + col, cols, row, col);
  }

  lemma RowMajorBound(row: nat, col: nat, rows: nat, cols: nat)
    requires row < rows && col < cols
    ensures row * cols + col < rows * cols
  {
    ProductGrows(rows - row, cols);
    assert (rows - row) * cols == rows * cols - row * cols;
  }

  lemma ProductMonotone(x: nat, y: nat, p: nat)
    requires x <= y
    ensures x * p <= y * p
  {}

  lemma AddressSplit(p: nat, rows: nat, cols: nat)
    requires p < rows * cols
    ensures cols > 0 && p / cols < rows && p % cols < cols && p == p / cols * cols + p % cols
  {
    if p / cols >= rows { ProductMonotone(rows, p / cols, cols); }
  }

  lemma QuotientNonNegative(a: nat, p: nat)
    requires p > 0
    ensures a / p >= 0
  {
    var q := a / p;
    assert a == q * p + a % p;
    if q < 0 { ProductGrows(-q, p); }
  }

  lemma Distribute(a: int, n: int, i: int, w: int)
    ensures (a * n + i) * w == a * (n * w) + i * w
  {}

  /** Reducing modulo p * q keeps the low digit and reduces the high one modulo q. */
  lemma CutHighDigit(low: nat, d: nat, p: nat, q: nat)
    requires low < p && q > 0
    ensures (low + d * p) % (p * q) == low + d % q * p
  {
    var high, rest := d / q, d % q;
    assert d == high * q + rest;
    Distribute(high, q, rest, p);
    assert high * (q * p) == high * (p * q);
    ProductMonotone(rest + 1, q, p);
    NextMultiple(rest, p);
    assert q * p == p * q;
    DivUnique(low + d * p, p * q, high, low + rest * p);
  }
}
