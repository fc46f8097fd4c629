/** Bitwise operators on non-negative integers of any width. */
module Bits {
  import opened Dft
  import opened Ints

  function BitAnd(a: nat, b: nat): (r: nat)
    ensures r <= a && r <= b
  {
    if a == 0 || b == 0 then 0 else 2 * BitAnd(a / 2, b / 2) + (if a % 2 == 1 && b % 2 == 1 then 1 else 0)
  }

  function BitOr(a: nat, b: nat): (r: nat)
    decreases a + b
  {
    if a == 0 then b else if b == 0 then a else 2 * BitOr(a / 2, b / 2) + (if a % 2 == 1 || b % 2 == 1 then 1 else 0)
  }

  lemma {:induction false} AndSelf(a: nat)
    ensures BitAnd(a, a) == a
  {
    if a > 0 { AndSelf(a / 2); }
  }

  lemma AndStep(h: nat, i: nat)
    ensures BitAnd(2 * h, 2 * i + 1) == 2 * BitAnd(h, i)
    ensures BitAnd(2 * h + 1, 2 * i) == 2 * BitAnd(h, i)
  {
    if h == 0 { assert BitAnd(0, i) == 0; }
    if i == 0 { assert BitAnd(h, 0) == 0; }
  }

  lemma AndPredecessor(n: nat)
    requires n > 0
    ensures n % 2 == 0 ==> BitAnd(n, n - 1) == 2 * BitAnd(n / 2, n / 2 - 1)
    ensures n % 2 == 1 ==> BitAnd(n, n - 1) == n - 1
  {
    hide BitAnd;
    AndSelf(n / 2);
    AndStep(n / 2, if n % 2 == 1 then n / 2 else n / 2 - 1);
  }

  lemma EvenPower(n: nat, levels: nat)
    requires n > 1
    ensures n == Pow2(levels) ==> levels > 0 && n % 2 == 0 && n / 2 == Pow2(levels - 1)
    ensures n % 2 == 0 && n / 2 == Pow2(levels) ==> n == Pow2(levels + 1)
  {}

  /** The test n & (n - 1) == 0 accepts exactly the powers of two. */
  lemma {:induction false} PowerOfTwoTest(n: nat)
    requires n > 0
    ensures BitAnd(n, n - 1) == 0 <==> exists levels: nat :: n == Pow2(levels)
  {
    hide BitAnd;
    AndPredecessor(n);
    if n == 1 {
      assert n == Pow2(0);
    } else {
      hide Pow2;
      if n % 2 == 0 { PowerOfTwoTest(n / 2); }
      if n % 2 == 0 && BitAnd(n, n - 1) == 0 {
        var levels: nat :| n / 2 == Pow2(levels);
        EvenPower(n, levels);
      }
      if levels: nat :| n == Pow2(levels) {
        EvenPower(n, levels);
      }
    }
  }

  lemma AndOdd(a: nat, m: nat)
    ensures BitAnd(a, 2 * m + 1) == 2 * BitAnd(a / 2, m) + a % 2
  {}

  lemma {:induction false} AndMask(a: nat, k: nat)
    ensures BitAnd(a, Pow2(k) - 1) == a % Pow2(k)
  {
    hide BitAnd;
    if k == 0 {
      assert Pow2(k) == 1 && BitAnd(a, 0) <= 0;
    } else {
      var p := Pow2(k - 1);
      AndMask(a / 2, k - 1);
      AndOdd(a, p - 1);
      ModHalf(a, p);
    }
  }

  lemma OrEven(a: nat, c: nat)
    ensures BitOr(a, 2 * c) == 2 * BitOr(a / 2, c) + a % 2
  {
    if a > 0 && c == 0 { assert BitOr(a / 2, 0) == a / 2; }
  }

  /** Disjoint fields are merged by or as by addition. */
  lemma {:induction false} OrDisjoint(a: nat, b: nat, k: nat)
    requires a < Pow2(k)
    ensures BitOr(a, b * Pow2(k)) == a + b * Pow2(k)
  {
    if k == 0 {
      assert a == 0 && BitOr(0, b * Pow2(k)) == b * Pow2(k);
    } else {
      hide BitOr;
      var p := Pow2(k - 1);
      OrDisjoint(a / 2, b, k - 1);
      Doubled(b, p);
      OrEven(a, b * p);
    }
  }

  lemma Doubled(b: nat, p: nat)
    ensures b * (2 * p) == 2 * (b * p)
  {}
}
