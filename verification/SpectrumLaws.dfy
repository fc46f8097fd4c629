/** What the transform preserves: it can be inverted, its kernel is orthogonal, and it multiplies energy by its length. */
module SpectrumLaws {
  import opened Reals
  import opened Complex
  import opened Dft

  ghost function Spectrum(x: seq<Complex>, w: Complex): (s: seq<Complex>)
    ensures |s| == |x|
    ensures forall k: nat :: k < |x| ==> s[k] == DftAt(x, w, k)
  {
    seq(|x|, (k: nat) => DftAt(x, w, k))
  }

  lemma AddMul(a: Complex, b: Complex, c: Complex)
    ensures Mul(Add(a, b), c) == Add(Mul(a, c), Mul(b, c))
    ensures Mul(Sub(a, b), c) == Sub(Mul(a, c), Mul(b, c))
  {
    hide Mul;
    MulComm(Add(a, b), c);
    MulComm(Sub(a, b), c);
    MulComm(a, c);
    MulComm(b, c);
    MulAdd(c, a, b);
    MulAdd(c, a, Neg(b));
    MulNeg(c, b);
    assert Sub(a, b) == Add(a, Neg(b));
  }

  // ---------------------------------------------------------------- inversion

  /** If w is a twiddle base and v its reciprocal, then v is a twiddle base too. */
  lemma HalfTurnInverse(w: Complex, v: Complex, levels: nat)
    requires HalfTurn(w, levels) && Mul(w, v) == ONE
    ensures HalfTurn(v, levels)
    ensures Mul(Mul(w, w), Mul(v, v)) == ONE
  {
    hide Mul;
    MulAssoc(w, w, Mul(v, v));
    MulAssoc(w, v, v);
    MulUnits(v);
    if levels > 0 {
      var h := Pow2(levels - 1);
      PowInverse(w, v, h);
      MulUnits(Pow(v, h));
      assert Neg(Neg(Pow(v, h))) == Pow(v, h);
    }
  }

  lemma {:induction false} SumHalves(f: nat -> Complex, g: nat -> Complex, h: nat, m: nat)
    requires m <= h && forall k: nat :: k < m ==> g(k) == f(k + h)
    ensures Add(Sum(f, h), Sum(g, m)) == Sum(f, h + m)
  {
    if m > 0 {
      SumHalves(f, g, h, m - 1);
      assert Sum(f, h + m) == Add(Sum(f, h + m - 1), f(m - 1 + h));
    }
  }

  lemma {:induction false} SumScale(r: real, f: nat -> Complex, g: nat -> Complex, n: nat)
    requires forall j: nat :: j < n ==> g(j) == Scale(r, f(j))
    ensures Sum(g, n) == Scale(r, Sum(f, n))
  {
    if n > 0 { SumScale(r, f, g, n - 1); }
  }

  lemma TwiddleShift(v: Complex, k: nat, l: nat, h: nat)
    requires Pow(v, h) == MINUS_ONE
    ensures Twiddle(v, k + h, l) == Mul(Twiddle(v, k, l), Pow(MINUS_ONE, l))
  {
    hide Mul, Pow;
    assert (k + h) * l == k * l + h * l;
    PowAdd(v, k * l, h * l);
    PowMul(v, h, l);
  }

  /** Where the outer sum's bins k and k + h meet: an even output keeps only the even half. */
  lemma MeetEven(e: Complex, p: Complex, v: Complex, k: nat, m: nat, h: nat)
    requires Pow(v, h) == MINUS_ONE
    ensures Add(Mul(Add(e, p), Twiddle(v, k, 2 * m)), Mul(Sub(e, p), Twiddle(v, k + h, 2 * m)))
         == Scale(2.0, Mul(e, Twiddle(Mul(v, v), k, m)))
  {
    hide Mul, Pow, Twiddle;
    var c := Twiddle(v, k, 2 * m);
    TwiddleShift(v, k, 2 * m, h);
    PowMinusOne(m);
    MulUnits(c);
    TwiddleEven(v, k, m);
    AddMul(e, p, c);
  }

  /** An odd output keeps only the odd half. */
  lemma MeetOdd(e: Complex, o: Complex, w: Complex, v: Complex, k: nat, m: nat, h: nat)
    requires Pow(v, h) == MINUS_ONE && Mul(w, v) == ONE
    ensures var p := Mul(o, Pow(w, k));
      Add(Mul(Add(e, p), Twiddle(v, k, 2 * m + 1)), Mul(Sub(e, p), Twiddle(v, k + h, 2 * m + 1)))
         == Scale(2.0, Mul(o, Twiddle(Mul(v, v), k, m)))
  {
    hide Mul, Pow, Twiddle;
    var l := 2 * m + 1;
    var p, c := Mul(o, Pow(w, k)), Twiddle(v, k, l);
    TwiddleShift(v, k, l, h);
    PowMinusOne(m);
    MulUnits(c);
    MulNeg(Sub(e, p), c);
    AddMul(e, p, c);
    OddTwiddleCancels(o, w, v, k, m);
  }

  lemma OddTwiddleCancels(o: Complex, w: Complex, v: Complex, k: nat, m: nat)
    requires Mul(w, v) == ONE
    ensures Mul(Mul(o, Pow(w, k)), Twiddle(v, k, 2 * m + 1)) == Mul(o, Twiddle(Mul(v, v), k, m))
  {
    hide Mul, Pow, Twiddle;
    var d := Twiddle(Mul(v, v), k, m);
    TwiddleComm(v, k, 2 * m + 1);
    TwiddleNext(v, 2 * m, k);
    TwiddleComm(v, k, 2 * m);
    TwiddleEven(v, k, m);
    MulComm(d, Pow(v, k));
    MulAssoc(o, Pow(w, k), Mul(Pow(v, k), d));
    MulAssoc(Pow(w, k), Pow(v, k), d);
    PowInverse(w, v, k);
    MulUnits(d);
  }

  lemma PowMinusOne(m: nat)
    ensures Pow(MINUS_ONE, 2 * m) == ONE
    ensures Pow(MINUS_ONE, 2 * m + 1) == MINUS_ONE
  {
    hide Mul;
    PowSquare(MINUS_ONE, m);
    MulUnits(MINUS_ONE);
    assert Mul(MINUS_ONE, MINUS_ONE) == ONE;
    PowOne(m);
    assert Pow(MINUS_ONE, 2 * m + 1) == Mul(Pow(MINUS_ONE, 2 * m), MINUS_ONE);
  }

  /** The half that holds sample l, and where. */
  function HalfOf(x: seq<Complex>, l: nat): (half: seq<Complex>) { if l % 2 == 0 then Evens(x) else Odds(x) }

  lemma HalfAt(x: seq<Complex>, l: nat)
    requires |x| % 2 == 0 && l < |x|
    ensures |HalfOf(x, l)| == |x| / 2 && l / 2 < |x| / 2 && HalfOf(x, l)[l / 2] == x[l]
  {
    HalfLength(x);
    hide Evens, Odds;
    assert l == 2 * (l / 2) + l % 2;
  }

  lemma HalfPower(levels: nat)
    requires levels > 0
    ensures Pow2(levels) % 2 == 0 && Pow2(levels) / 2 == Pow2(levels - 1)
    ensures 2.0 * Pow2(levels - 1) as real == Pow2(levels) as real
  {}

  lemma SingleInversion(x: seq<Complex>, w: Complex, v: Complex, l: nat)
    requires |x| == Pow2(0) && l < |x|
    ensures DftAt(Spectrum(x, w), v, l) == Scale(Pow2(0) as real, x[l])
  {
    hide DftAt, Scale;
    SingleBin(x, w);
    SingleBin(Spectrum(x, w), v);
    ScaleScale(1.0, 1.0, x[0]);
  }

  /** Transforming back with the reciprocal base returns every sample, scaled by the length. */
  lemma {:induction false} Inversion(x: seq<Complex>, w: Complex, v: Complex, levels: nat, l: nat)
    requires |x| == Pow2(levels) && HalfTurn(w, levels) && Mul(w, v) == ONE && l < |x|
    ensures DftAt(Spectrum(x, w), v, l) == Scale(Pow2(levels) as real, x[l])
    decreases levels
  {
    hide *;
    if levels == 0 {
      SingleInversion(x, w, v, l);
    } else {
      HalfTurnInverse(w, v, levels);
      HalfPower(levels);
      HalfAt(x, l);
      InversionStep(x, w, v, levels, l);
      HalfTurnSquare(w, levels);
      Inversion(HalfOf(x, l), Mul(w, w), Mul(v, v), levels - 1, l / 2);
      ScaleScale(2.0, Pow2(levels - 1) as real, x[l]);
    }
  }

  /** One pair of terms of the outer sum, in terms of the half-length spectrum that survives. */
  lemma InversionTerm(x: seq<Complex>, w: Complex, v: Complex, h: nat, l: nat, k: nat)
    requires |x| == 2 * h && k < h && l < |x| && Mul(w, v) == ONE
    requires Pow(w, h) == MINUS_ONE && Pow(v, h) == MINUS_ONE && Pow(Mul(w, w), h) == ONE
    ensures Add(Mul(DftAt(x, w, k), Twiddle(v, k, l)), Mul(DftAt(x, w, k + h), Twiddle(v, k + h, l)))
         == Scale(2.0, Mul(DftAt(if l % 2 == 0 then Evens(x) else Odds(x), Mul(w, w), k), Twiddle(Mul(v, v), k, l / 2)))
  {
    hide Mul, Pow, Evens, Odds, DftAt, Add, Sub, Scale, Twiddle;
    var e, o := DftAt(Evens(x), Mul(w, w), k), DftAt(Odds(x), Mul(w, w), k);
    ButterflyBin(x, w, h, k);
    if l % 2 == 0 {
      MeetEven(e, Mul(o, Pow(w, k)), v, k, l / 2, h);
    } else {
      MeetOdd(e, o, w, v, k, l / 2, h);
    }
  }

  lemma HalfTurnPower(w: Complex, levels: nat)
    requires levels > 0 && HalfTurn(w, levels)
    ensures Pow(w, Pow2(levels - 1)) == MINUS_ONE && Pow2(levels) == 2 * Pow2(levels - 1)
  {}

  lemma InversionStep(x: seq<Complex>, w: Complex, v: Complex, levels: nat, l: nat)
    requires levels > 0 && |x| == Pow2(levels) && HalfTurn(w, levels) && HalfTurn(v, levels)
    requires Mul(w, v) == ONE && l < |x|
    ensures DftAt(Spectrum(x, w), v, l)
         == Scale(2.0, DftAt(Spectrum(HalfOf(x, l), Mul(w, w)), Mul(v, v), l / 2))
  {
    hide Mul, Pow, Evens, Odds, DftAt, Add, Scale, Sum, Twiddle, HalfTurn, Term;
    HalfTurnPower(w, levels);
    HalfTurnPower(v, levels);
    var h, m := Pow2(levels - 1), l / 2;
    var half := if l % 2 == 0 then Evens(x) else Odds(x);
    HalfLength(x);
    HalfTurnSquare(w, levels);
    var s, t := Spectrum(x, w), Spectrum(half, Mul(w, w));
    var f, g := Term(s, v, l), (k: nat) => Term(s, v, l)(k + h);
    var met: nat -> Complex := (k: nat) => Add(f(k), g(k));
    var kept := Term(t, Mul(v, v), m);
    forall k: nat | k < h
      ensures met(k) == Scale(2.0, kept(k))
    {
      TermAt(s, v, l, k);
      TermAt(s, v, l, k + h);
      TermAt(t, Mul(v, v), m, k);
      InversionTerm(x, w, v, h, l, k);
    }
    SumHalves(f, g, h, h);
    SumAdd(f, g, met, h);
    SumScale(2.0, kept, met, h);
    DftDef(s, v, l);
    DftDef(t, Mul(v, v), m);
  }

  lemma TermAt(x: seq<Complex>, w: Complex, k: nat, j: nat)
    requires j < |x|
    ensures Term(x, w, k)(j) == Mul(x[j], Twiddle(w, j, k))
  {}

  lemma DftDef(x: seq<Complex>, w: Complex, k: nat)
    ensures DftAt(x, w, k) == Sum(Term(x, w, k), |x|)
  {}

  // ---------------------------------------------------------------- orthogonality

  /** The unit sample at position j. */
  ghost function UnitSample(n: nat, j: nat): (u: seq<Complex>)
    ensures |u| == n
    ensures forall i: nat :: i < n ==> u[i] == if i == j then ONE else ZERO
  {
    seq(n, (i: nat) => if i == j then ONE else ZERO)
  }

  lemma {:induction false} SumOfOne(f: nat -> Complex, j: nat, n: nat)
    requires forall i: nat :: i < n && i != j ==> f(i) == ZERO
    ensures Sum(f, n) == if j < n then f(j) else ZERO
  {
    if n > 0 { SumOfOne(f, j, n - 1); }
  }

  /** The rows of the transform kernel are orthogonal. */
  lemma Orthogonality(w: Complex, v: Complex, levels: nat, j: nat, l: nat)
    requires HalfTurn(w, levels) && Mul(w, v) == ONE && j < Pow2(levels) && l < Pow2(levels)
    ensures Sum((k: nat) => Mul(Twiddle(w, j, k), Twiddle(v, k, l)), Pow2(levels))
         == if j == l then Complex(Pow2(levels) as real, 0.0) else ZERO
  {
    hide Mul, Pow, DftAt, Twiddle;
    var n := Pow2(levels);
    var u := UnitSample(n, j);
    var s := Spectrum(u, w);
    var f: nat -> Complex := (k: nat) => Mul(Twiddle(w, j, k), Twiddle(v, k, l));
    Inversion(u, w, v, levels, l);
    forall k: nat | k < n
      ensures Term(s, v, l)(k) == f(k)
    {
      UnitBin(n, w, j, k);
    }
    SumCongruence(Term(s, v, l), f, n);
    DftDef(s, v, l);
  }

  lemma UnitBin(n: nat, w: Complex, j: nat, k: nat)
    requires j < n
    ensures DftAt(UnitSample(n, j), w, k) == Twiddle(w, j, k)
  {
    hide Mul, Pow, Twiddle;
    var u := UnitSample(n, j);
    forall i: nat | i < n
      ensures Term(u, w, k)(i) == if i == j then Twiddle(w, j, k) else ZERO
    {
      MulUnits(Twiddle(w, i, k));
    }
    SumOfOne(Term(u, w, k), j, n);
  }

  // ---------------------------------------------------------------- energy

  ghost function Energy(s: seq<Complex>): real {
    if s == [] then 0.0 else Energy(s[..|s| - 1]) + Norm2(s[|s| - 1])
  }

  lemma {:induction false} EnergyConcat(a: seq<Complex>, b: seq<Complex>)
    ensures Energy(a + b) == Energy(a) + Energy(b)
  {
    hide Norm2;
    if b == [] {
      assert a + b == a;
    } else {
      var n := |b| - 1;
      EnergyConcat(a, b[..n]);
      assert (a + b)[..|a + b| - 1] == a + b[..n];
    }
  }

  /** The parallelogram law, for one butterfly with a unit-modulus twiddle. */
  lemma ButterflyEnergy(e: Complex, o: Complex, t: Complex)
    requires Norm2(t) == 1.0
    ensures Norm2(Add(e, Mul(o, t))) + Norm2(Sub(e, Mul(o, t))) == 2.0 * (Norm2(e) + Norm2(o))
  {
    hide Mul;
    Norm2Mul(o, t);
    var p := Mul(o, t);
    Parallelogram(e.re, p.re);
    Parallelogram(e.im, p.im);
  }

  lemma Parallelogram(a: real, b: real)
    ensures Square(a + b) + Square(a - b) == 2.0 * Square(a) + 2.0 * Square(b)
  {}

  lemma {:induction false} ColumnEnergy(e: seq<Complex>, o: seq<Complex>, lo: seq<Complex>, hi: seq<Complex>, w: Complex)
    requires |e| == |o| == |lo| == |hi| && Norm2(w) == 1.0
    requires forall k: nat :: k < |e| ==> lo[k] == Add(e[k], Mul(o[k], Pow(w, k)))
    requires forall k: nat :: k < |e| ==> hi[k] == Sub(e[k], Mul(o[k], Pow(w, k)))
    ensures Energy(lo) + Energy(hi) == 2.0 * (Energy(e) + Energy(o))
  {
    hide Mul, Pow, Norm2, Add, Sub;
    if |e| > 0 {
      var n := |e| - 1;
      ColumnEnergy(e[..n], o[..n], lo[..n], hi[..n], w);
      PowNorm(w, n);
      ButterflyEnergy(e[n], o[n], Pow(w, n));
    }
  }

  /** One butterfly column with a unit-modulus base doubles the energy. */
  lemma ButterfliesEnergy(e: seq<Complex>, o: seq<Complex>, w: Complex)
    requires |e| == |o| && Norm2(w) == 1.0
    ensures Energy(Butterflies(e, o, w)) == 2.0 * (Energy(e) + Energy(o))
  {
    hide Mul, Pow, Norm2, Add, Sub;
    var r := Butterflies(e, o, w);
    ColumnEnergy(e, o, r[..|e|], r[|e|..], w);
    EnergyConcat(r[..|e|], r[|e|..]);
    assert r[..|e|] + r[|e|..] == r;
  }

  lemma {:induction false} NetworkEnergy(a: seq<Complex>, w: Complex, levels: nat)
    requires |a| == Pow2(levels) && Norm2(w) == 1.0
    ensures Energy(Network(a, w, levels)) == Pow2(levels) as real * Energy(a)
    decreases levels
  {
    hide Mul, Norm2, Butterflies, Energy;
    if levels > 0 {
      var h := Pow2(levels - 1);
      Norm2Mul(w, w);
      NetworkEnergy(a[..h], Mul(w, w), levels - 1);
      NetworkEnergy(a[h..], Mul(w, w), levels - 1);
      ButterfliesEnergy(Network(a[..h], Mul(w, w), levels - 1), Network(a[h..], Mul(w, w), levels - 1), w);
      EnergyConcat(a[..h], a[h..]);
      assert a[..h] + a[h..] == a;
      DoubleOfHalves(Pow2(levels) as real, h as real, Energy(a[..h]), Energy(a[h..]), Energy(a));
    }
  }

  lemma DoubleOfHalves(n: real, h: real, p: real, q: real, total: real)
    requires n == 2.0 * h && total == p + q
    ensures 2.0 * (h * p + h * q) == n * total
  {}

  lemma {:induction false} EvenOddEnergy(x: seq<Complex>)
    requires |x| % 2 == 0
    ensures Energy(Evens(x)) + Energy(Odds(x)) == Energy(x)
  {
    hide Norm2;
    if |x| > 0 {
      var n := |x| - 2;
      EvenOddEnergy(x[..n]);
      assert Evens(x)[..n / 2] == Evens(x[..n]) && Odds(x)[..n / 2] == Odds(x[..n]);
      assert x[..n + 1][..n] == x[..n] && x[..|x| - 1] == x[..n + 1];
    }
  }

  lemma {:induction false} BitReversedEnergy(x: seq<Complex>, levels: nat)
    requires |x| == Pow2(levels)
    ensures Energy(BitReversed(x, levels)) == Energy(x)
    decreases levels
  {
    hide Norm2;
    if levels > 0 {
      BitReversedEnergy(Evens(x), levels - 1);
      BitReversedEnergy(Odds(x), levels - 1);
      EnergyConcat(BitReversed(Evens(x), levels - 1), BitReversed(Odds(x), levels - 1));
      EvenOddEnergy(x);
    }
  }

  /** Parseval: with a unit-modulus base, the DFT multiplies total energy by the length. */
  lemma Parseval(x: seq<Complex>, w: Complex, levels: nat)
    requires |x| == Pow2(levels) && HalfTurn(w, levels) && Norm2(w) == 1.0
    ensures Energy(Spectrum(x, w)) == Pow2(levels) as real * Energy(x)
  {
    hide Norm2, DftAt, Network, BitReversed;
    var r := Network(BitReversed(x, levels), w, levels);
    forall k: nat | k < |x|
      ensures r[k] == Spectrum(x, w)[k]
    {
      NetworkIsDft(x, w, levels, k);
    }
    assert r == Spectrum(x, w);
    BitReversedEnergy(x, levels);
    NetworkEnergy(BitReversed(x, levels), w, levels);
  }
}
