/** Complex numbers over the reals: the value type of every FFT buffer. */
module Complex {
  import opened Reals

  datatype Complex = Complex(re: real, im: real)

  const ZERO := Complex(0.0, 0.0)
  const ONE := Complex(1.0, 0.0)
  const MINUS_ONE := Complex(-1.0, 0.0)

  function Add(a: Complex, b: Complex): Complex { Complex(a.re + b.re, a.im + b.im) }

  function Sub(a: Complex, b: Complex): Complex { Complex(a.re - b.re, a.im - b.im) }

  function Neg(a: Complex): Complex { Complex(-a.re, -a.im) }

  function Mul(a: Complex, b: Complex): Complex {
    Complex(a.re * b.re - a.im * b.im, a.re * b.im + a.im * b.re)
  }

  function Scale(r: real, a: Complex): Complex { Complex(r * a.re, r * a.im) }

  function Conj(a: Complex): Complex { Complex(a.re, -a.im) }

  /** The squared modulus |a|^2. */
  function Norm2(a: Complex): real { Square(a.re) + Square(a.im) }

  /** w to the power k, by repeated multiplication on the right. */
  function Pow(w: Complex, k: nat): Complex {
    if k == 0 then ONE else Mul(Pow(w, k - 1), w)
  }

  // ---------------------------------------------------------------- ring laws

  lemma MulComm(a: Complex, b: Complex)
    ensures Mul(a, b) == Mul(b, a)
  {}

  lemma MulAssoc(a: Complex, b: Complex, c: Complex)
    ensures Mul(Mul(a, b), c) == Mul(a, Mul(b, c))
  {}

  lemma MulAdd(a: Complex, b: Complex, c: Complex)
    ensures Mul(a, Add(b, c)) == Add(Mul(a, b), Mul(a, c))
  {}

  lemma MulNeg(a: Complex, b: Complex)
    ensures Mul(a, Neg(b)) == Neg(Mul(a, b)) == Mul(Neg(a), b)
  {}

  lemma MulUnits(a: Complex)
    ensures Mul(ONE, a) == a == Mul(a, ONE)
    ensures Mul(MINUS_ONE, a) == Neg(a) == Mul(a, MINUS_ONE)
    ensures Mul(ZERO, a) == ZERO == Mul(a, ZERO)
  {}

  lemma MulScale(r: real, a: Complex, b: Complex)
    ensures Mul(a, Scale(r, b)) == Scale(r, Mul(a, b))
  {
    assert a.re * (r * b.re) == r * (a.re * b.re);
    assert a.im * (r * b.im) == r * (a.im * b.im);
    assert a.re * (r * b.im) == r * (a.re * b.im);
    assert a.im * (r * b.re) == r * (a.im * b.re);
  }

  lemma ScaleScale(r: real, s: real, a: Complex)
    ensures Scale(r, Scale(s, a)) == Scale(r * s, a)
    ensures Scale(1.0, a) == a
  {}

  lemma ConjMul(a: Complex, b: Complex)
    ensures Conj(Mul(a, b)) == Mul(Conj(a), Conj(b))
  {}

  lemma MulConj(a: Complex)
    ensures Mul(a, Conj(a)) == Complex(Norm2(a), 0.0)
  {}

  lemma Norm2Mul(a: Complex, b: Complex)
    ensures Norm2(Mul(a, b)) == Norm2(a) * Norm2(b)
  {
    var p, q, r, s := a.re * b.re, a.im * b.im, a.re * b.im, a.im * b.re;
    assert p * q == r * s;
    assert p * p == (a.re * a.re) * (b.re * b.re);
    assert q * q == (a.im * a.im) * (b.im * b.im);
    assert r * r == (a.re * a.re) * (b.im * b.im);
    assert s * s == (a.im * a.im) * (b.re * b.re);
  }

  lemma Norm2One()
    ensures Norm2(ONE) == 1.0
  {}

  // ---------------------------------------------------------------- powers

  lemma {:induction false} PowAdd(w: Complex, i: nat, j: nat)
    ensures Pow(w, i + j) == Mul(Pow(w, i), Pow(w, j))
  {
    hide Mul;
    if j == 0 {
      MulUnits(Pow(w, i));
    } else {
      PowAdd(w, i, j - 1);
      MulAssoc(Pow(w, i), Pow(w, j - 1), w);
    }
  }

  lemma {:induction false} PowOne(k: nat)
    ensures Pow(ONE, k) == ONE
  {
    hide Mul;
    if k > 0 {
      PowOne(k - 1);
      MulUnits(ONE);
    }
  }

  lemma {:induction false} PowMul(w: Complex, i: nat, j: nat)
    ensures Pow(w, i * j) == Pow(Pow(w, i), j)
  {
    hide Mul;
    if j == 0 {
      assert i * j == 0;
    } else {
      PowMul(w, i, j - 1);
      assert i * j == i * (j - 1) + i;
      PowAdd(w, i * (j - 1), i);
    }
  }

  lemma {:induction false} PowNorm(w: Complex, k: nat)
    requires Norm2(w) == 1.0
    ensures Norm2(Pow(w, k)) == 1.0
  {
    hide Mul, Norm2;
    if k == 0 {
      Norm2One();
    } else {
      PowNorm(w, k - 1);
      Norm2Mul(Pow(w, k - 1), w);
    }
  }

  /** The powers of two numbers that multiply to one multiply to one. */
  lemma {:induction false} PowInverse(w: Complex, v: Complex, k: nat)
    requires Mul(w, v) == ONE
    ensures Mul(Pow(w, k), Pow(v, k)) == ONE
  {
    hide Mul;
    if k == 0 {
      MulUnits(ONE);
    } else {
      PowInverse(w, v, k - 1);
      var p, q := Pow(w, k - 1), Pow(v, k - 1);
      calc {
        Mul(Mul(p, w), Mul(q, v));
        { MulComm(q, v); MulAssoc(p, w, Mul(v, q)); MulAssoc(w, v, q); }
        Mul(p, Mul(Mul(w, v), q));
        { MulUnits(q); }
        ONE;
      }
    }
  }
}
