/** Sums of natural weights over workers grouped in stages, and over items queued in channels. */
module Sums {
  function RowSum<W>(row: seq<W>, s: nat, f: (nat, W) -> nat): nat {
    if row == [] then 0 else RowSum(row[..|row| - 1], s, f) + f(s, row[|row| - 1])
  }

  /** f(s, w) summed over every element w of every row s. */
  function Total<W>(rows: seq<seq<W>>, f: (nat, W) -> nat): nat {
    if rows == [] then 0 else Total(rows[..|rows| - 1], f) + RowSum(rows[|rows| - 1], |rows| - 1, f)
  }

  lemma {:induction false} RowUpdate<W>(row: seq<W>, s: nat, f: (nat, W) -> nat, i: nat, w: W)
    requires i < |row|
    ensures RowSum(row[i := w], s, f) == RowSum(row, s, f) - f(s, row[i]) + f(s, w)
  {
    var n := |row| - 1;
    if i < n {
      assert row[i := w][..n] == row[..n][i := w];
      RowUpdate(row[..n], s, f, i, w);
    } else {
      assert row[i := w][..n] == row[..n];
    }
  }

  lemma {:induction false} TotalUpdate<W>(rows: seq<seq<W>>, f: (nat, W) -> nat, s: nat, row: seq<W>)
    requires s < |rows|
    ensures Total(rows[s := row], f) == Total(rows, f) - RowSum(rows[s], s, f) + RowSum(row, s, f)
  {
    var n := |rows| - 1;
    if s < n {
      assert rows[s := row][..n] == rows[..n][s := row];
      TotalUpdate(rows[..n], f, s, row);
    } else {
      assert rows[s := row][..n] == rows[..n];
    }
  }

  /** One element of one row is replaced. */
  lemma ElementUpdate<W>(rows: seq<seq<W>>, f: (nat, W) -> nat, s: nat, i: nat, w: W)
    requires s < |rows| && i < |rows[s]|
    ensures Total(rows[s := rows[s][i := w]], f) == Total(rows, f) - f(s, rows[s][i]) + f(s, w)
  {
    TotalUpdate(rows, f, s, rows[s][i := w]);
    RowUpdate(rows[s], s, f, i, w);
  }

  /** One element joins the end of a row. */
  lemma Appended<W>(rows: seq<seq<W>>, f: (nat, W) -> nat, s: nat, w: W)
    requires s < |rows|
    ensures Total(rows[s := rows[s] + [w]], f) == Total(rows, f) + f(s, w)
  {
    TotalUpdate(rows, f, s, rows[s] + [w]);
    assert (rows[s] + [w])[..|rows[s]|] == rows[s];
  }

  lemma {:induction false} RowHead<W>(row: seq<W>, s: nat, f: (nat, W) -> nat)
    requires row != []
    ensures RowSum(row, s, f) == f(s, row[0]) + RowSum(row[1..], s, f)
  {
    var n := |row| - 1;
    if n > 0 {
      assert row[..n][1..] == row[1..][..n - 1];
      RowHead(row[..n], s, f);
    }
  }

  /** The first element of a row is taken out. */
  lemma Taken<W>(rows: seq<seq<W>>, f: (nat, W) -> nat, s: nat)
    requires s < |rows| && rows[s] != []
    ensures Total(rows[s := rows[s][1..]], f) == Total(rows, f) - f(s, rows[s][0])
  {
    TotalUpdate(rows, f, s, rows[s][1..]);
    RowHead(rows[s], s, f);
  }

  lemma {:induction false} RowZero<W>(row: seq<W>, s: nat, f: (nat, W) -> nat)
    requires forall i: nat :: i < |row| ==> f(s, row[i]) == 0
    ensures RowSum(row, s, f) == 0
  {
    if row != [] { RowZero(row[..|row| - 1], s, f); }
  }

  lemma {:induction false} TotalZero<W>(rows: seq<seq<W>>, f: (nat, W) -> nat)
    requires forall s: nat, i: nat :: s < |rows| && i < |rows[s]| ==> f(s, rows[s][i]) == 0
    ensures Total(rows, f) == 0
  {
    if rows != [] {
      TotalZero(rows[..|rows| - 1], f);
      RowZero(rows[|rows| - 1], |rows| - 1, f);
    }
  }
}
