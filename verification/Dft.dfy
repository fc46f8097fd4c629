/**
 The discrete Fourier transform as the quadratic sum it is defined by, and the recursive
 radix-2 network that the in-place loops of the gateway unroll.
 */
module Dft {
  import opened Complex
  import opened Ints

  function Pow2(k: nat): (r: nat)
    ensures r >= 1
  {
    if k == 0 then 1 else 2 * Pow2(k - 1)
  }

  lemma {:induction false} Pow2Add(i: nat, j: nat)
    ensures Pow2(i + j) == Pow2(i) * Pow2(j)
  {
    if j > 0 { Pow2Add(i, j - 1); }
  }

  // ---------------------------------------------------------------- sums

  ghost function Sum(f: nat -> Complex, n: nat): Complex {
    if n == 0 then ZERO else Add(Sum(f, n - 1), f(n - 1))
  }

  lemma {:induction false} SumCongruence(f: nat -> Complex, g: nat -> Complex, n: nat)
    requires forall j: nat :: j < n ==> f(j) == g(j)
    ensures Sum(f, n) == Sum(g, n)
  {
    if n > 0 { SumCongruence(f, g, n - 1); }
  }

  lemma {:induction false} SumAdd(f: nat -> Complex, g: nat -> Complex, s: nat -> Complex, n: nat)
    requires forall j: nat :: j < n ==> s(j) == Add(f(j), g(j))
    ensures Sum(s, n) == Add(Sum(f, n), Sum(g, n))
  {
    if n > 0 { SumAdd(f, g, s, n - 1); }
  }

  lemma {:induction false} SumMul(c: Complex, f: nat -> Complex, g: nat -> Complex, n: nat)
    requires forall j: nat :: j < n ==> g(j) == Mul(c, f(j))
    ensures Sum(g, n) == Mul(c, Sum(f, n))
  {
    hide Mul;
    if n == 0 {
      MulComm(c, ZERO);
      MulUnits(c);
    } else {
      SumMul(c, f, g, n - 1);
      MulAdd(c, Sum(f, n - 1), f(n - 1));
    }
  }

  lemma SumNext(f: nat -> Complex, n: nat)
    ensures Sum(f, n + 1) == Add(Sum(f, n), f(n))
  {}

  lemma AddPairs(a: Complex, b: Complex, c: Complex, d: Complex)
    ensures Add(Add(Add(a, b), c), d) == Add(Add(a, c), Add(b, d))
  {}

  lemma EvenOddStep(f: nat -> Complex, e: nat -> Complex, o: nat -> Complex, m: nat)
    requires Sum(f, 2 * m) == Add(Sum(e, m), Sum(o, m))
    requires f(2 * m) == e(m) && f(2 * m + 1) == o(m)
    ensures Sum(f, 2 * (m + 1)) == Add(Sum(e, m + 1), Sum(o, m + 1))
  {
    hide Add, Sum;
    SumNext(f, 2 * m);
    SumNext(f, 2 * m + 1);
    SumNext(e, m);
    SumNext(o, m);
    AddPairs(Sum(e, m), Sum(o, m), e(m), o(m));
  }

  lemma EmptySum(f: nat -> Complex)
    ensures Sum(f, 0) == ZERO
  {}

  /** A sum over an even range splits into its even and its odd terms. */
  lemma {:induction false} SumEvenOdd(f: nat -> Complex, e: nat -> Complex, o: nat -> Complex, m: nat)
    requires forall j: nat :: j < m ==> f(2 * j) == e(j) && f(2 * j + 1) == o(j)
    ensures Sum(f, 2 * m) == Add(Sum(e, m), Sum(o, m))
  {
    hide Sum;
    if m == 0 {
      EmptySum(f);
      EmptySum(e);
      EmptySum(o);
    } else {
      SumEvenOdd(f, e, o, m - 1);
      EvenOddStep(f, e, o, m - 1);
    }
  }

  // ---------------------------------------------------------------- the transform

  /** The twiddle of input j and output k. */
  ghost function Twiddle(w: Complex, j: nat, k: nat): Complex {
    Pow(w, j * k)
  }

  ghost function Term(x: seq<Complex>, w: Complex, k: nat): nat -> Complex {
    (j: nat) => if j < |x| then Mul(x[j], Twiddle(w, j, k)) else ZERO
  }

  /** Output bin k of the DFT of x with twiddle base w: the sum over j of x[j] * w^(j*k). */
  ghost function DftAt(x: seq<Complex>, w: Complex, k: nat): Complex {
    Sum(Term(x, w, k), |x|)
  }

  /** w is a twiddle base for transforms of length 2^levels: half a turn of it is -1. */
  ghost predicate HalfTurn(w: Complex, levels: nat) {
    levels > 0 ==> Pow(w, Pow2(levels - 1)) == MINUS_ONE
  }

  function Evens(x: seq<Complex>): (e: seq<Complex>)
    ensures |e| == |x| / 2
  {
    seq(|x| / 2, (j: nat) requires j < |x| / 2 => x[2 * j])
  }

  function Odds(x: seq<Complex>): (o: seq<Complex>)
    ensures |o| == |x| / 2
  {
    seq(|x| / 2, (j: nat) requires j < |x| / 2 => x[2 * j + 1])
  }

  lemma HalfLength(x: seq<Complex>)
    requires |x| % 2 == 0
    ensures |Evens(x)| == |Odds(x)| == |x| / 2
    ensures forall m: nat :: m < |x| / 2 ==> Evens(x)[m] == x[2 * m] && Odds(x)[m] == x[2 * m + 1]
  {}

  lemma PowZero(w: Complex)
    ensures Pow(w, 0) == ONE
  {}

  lemma PowSquare(w: Complex, k: nat)
    ensures Pow(w, 2 * k) == Pow(Mul(w, w), k)
  {
    hide Mul;
    assert Pow(w, 2) == Mul(Pow(w, 1), w) && Pow(w, 1) == Mul(Pow(w, 0), w);
    MulUnits(w);
    PowMul(w, 2, k);
  }

  lemma HalfTurnSquare(w: Complex, levels: nat)
    requires levels > 0 && HalfTurn(w, levels)
    ensures HalfTurn(Mul(w, w), levels - 1)
    ensures Pow(Mul(w, w), Pow2(levels - 1)) == ONE
  {
    hide Mul;
    if levels > 1 { PowSquare(w, Pow2(levels - 2)); }
    PowSquare(w, Pow2(levels - 1));
    PowAdd(w, Pow2(levels - 1), Pow2(levels - 1));
    MulUnits(MINUS_ONE);
  }

  lemma TwiddleUnit(w: Complex, j: nat)
    ensures Twiddle(w, 0, j) == ONE == Twiddle(w, j, 0)
    ensures Twiddle(w, 1, j) == Pow(w, j)
  {}

  lemma TwiddleEven(w: Complex, j: nat, k: nat)
    ensures Twiddle(w, 2 * j, k) == Twiddle(Mul(w, w), j, k) == Twiddle(w, j, 2 * k)
  {
    hide Mul, Pow;
    assert 2 * j * k == 2 * (j * k) == j * (2 * k);
    PowSquare(w, j * k);
  }

  lemma TwiddleComm(w: Complex, j: nat, k: nat)
    ensures Twiddle(w, j, k) == Twiddle(w, k, j)
  {
    assert j * k == k * j;
  }

  lemma TwiddleNext(w: Complex, j: nat, k: nat)
    ensures Twiddle(w, j + 1, k) == Mul(Twiddle(w, j, k), Pow(w, k))
  {
    hide Mul, Pow;
    PowNextMultiple(w, k, j * k, (j + 1) * k, j);
  }

  lemma PowNextMultiple(w: Complex, k: nat, p: nat, q: nat, j: nat)
    requires p == j * k && q == (j + 1) * k
    ensures Pow(w, q) == Mul(Pow(w, p), Pow(w, k))
  {
    hide Mul, Pow;
    NextMultiple(j, k);
    assert q == p + k;
    PowAdd(w, p, k);
  }

  lemma TwiddleOdd(w: Complex, k: nat, j: nat, c: Complex)
    ensures Mul(c, Twiddle(w, 2 * j + 1, k)) == Mul(Pow(w, k), Mul(c, Twiddle(Mul(w, w), j, k)))
  {
    hide Mul, Pow, Twiddle;
    TwiddleEven(w, j, k);
    TwiddleNext(w, 2 * j, k);
    MulAssoc(c, Twiddle(Mul(w, w), j, k), Pow(w, k));
    MulComm(Mul(c, Twiddle(Mul(w, w), j, k)), Pow(w, k));
  }

  lemma TwiddlePeriodic(v: Complex, j: nat, k: nat, n: nat)
    requires Pow(v, n) == ONE
    ensures Twiddle(v, j, k + n) == Twiddle(v, j, k)
  {
    hide Mul, Pow;
    assert j * (k + n) == j * k + n * j;
    PowAdd(v, j * k, n * j);
    PowMul(v, n, j);
    PowOne(j);
    MulUnits(Pow(v, j * k));
  }

  /** The Danielson-Lanczos step: one bin of the DFT from one bin of each half-length DFT. */
  lemma DftSplit(x: seq<Complex>, w: Complex, k: nat)
    requires |x| % 2 == 0
    ensures DftAt(x, w, k) == Add(DftAt(Evens(x), Mul(w, w), k), Mul(Pow(w, k), DftAt(Odds(x), Mul(w, w), k)))
  {
    hide Mul, Pow, Twiddle, Add, Sum, Evens, Odds;
    HalfLength(x);
    var v, m := Mul(w, w), |x| / 2;
    var e, o := Term(Evens(x), v, k), Term(Odds(x), v, k);
    var shifted: nat -> Complex := (j: nat) => Mul(Pow(w, k), o(j));
    forall j: nat | j < m
      ensures Term(x, w, k)(2 * j) == e(j)
      ensures Term(x, w, k)(2 * j + 1) == shifted(j)
    {
      TwiddleEven(w, j, k);
      TwiddleOdd(w, k, j, x[2 * j + 1]);
    }
    SumEvenOdd(Term(x, w, k), e, shifted, m);
    SumMul(Pow(w, k), o, shifted, m);
  }

  /** Bins of a transform repeat with the period of its twiddle base. */
  lemma DftPeriodic(x: seq<Complex>, v: Complex, k: nat, n: nat)
    requires Pow(v, n) == ONE
    ensures DftAt(x, v, k + n) == DftAt(x, v, k)
  {
    hide Mul, Pow, Twiddle;
    forall j: nat | j < |x|
      ensures Term(x, v, k + n)(j) == Term(x, v, k)(j)
    {
      TwiddlePeriodic(v, j, k, n);
    }
    SumCongruence(Term(x, v, k + n), Term(x, v, k), |x|);
  }

  // ---------------------------------------------------------------- the network

  /** The input order of the network: even samples first, recursively. */
  function BitReversed(x: seq<Complex>, levels: nat): (r: seq<Complex>)
    requires |x| == Pow2(levels)
    ensures |r| == |x|
    decreases levels
  {
    if levels == 0 then x else BitReversed(Evens(x), levels - 1) + BitReversed(Odds(x), levels - 1)
  }

  /** One butterfly column: e and o are the half-length transforms. */
  function Butterflies(e: seq<Complex>, o: seq<Complex>, w: Complex): (r: seq<Complex>)
    requires |e| == |o|
    ensures |r| == 2 * |e|
    ensures forall k: nat :: k < |e| ==> r[k] == Add(e[k], Mul(o[k], Pow(w, k)))
    ensures forall k: nat :: k < |e| ==> r[|e| + k] == Sub(e[k], Mul(o[k], Pow(w, k)))
  {
    hide Mul;
    seq(|e|, (k: nat) requires k < |e| => Add(e[k], Mul(o[k], Pow(w, k)))) +
    seq(|e|, (k: nat) requires k < |e| => Sub(e[k], Mul(o[k], Pow(w, k))))
  }

  /** The radix-2 network on input that is already in bit-reversed order. */
  function Network(a: seq<Complex>, w: Complex, levels: nat): (r: seq<Complex>)
    requires |a| == Pow2(levels)
    ensures |r| == |a|
  {
    if levels == 0 then a else
      var h := Pow2(levels - 1);
      Butterflies(Network(a[..h], Mul(w, w), levels - 1), Network(a[h..], Mul(w, w), levels - 1), w)
  }

  lemma SingleBin(x: seq<Complex>, w: Complex)
    requires |x| == 1
    ensures DftAt(x, w, 0) == x[0]
  {
    hide Mul, Twiddle;
    TwiddleUnit(w, 0);
    assert DftAt(x, w, 0) == Add(Sum(Term(x, w, 0), 0), Term(x, w, 0)(0));
    MulUnits(x[0]);
  }

  /** The last column of the network, one level up from the two half-length networks. */
  lemma NetworkStep(x: seq<Complex>, w: Complex, levels: nat)
    requires levels > 0 && |x| == Pow2(levels)
    ensures Network(BitReversed(x, levels), w, levels)
         == Butterflies(Network(BitReversed(Evens(x), levels - 1), Mul(w, w), levels - 1),
                        Network(BitReversed(Odds(x), levels - 1), Mul(w, w), levels - 1), w)
  {
    hide Mul, Butterflies;
    var h := Pow2(levels - 1);
    var e, o := BitReversed(Evens(x), levels - 1), BitReversed(Odds(x), levels - 1);
    assert (e + o)[..h] == e && (e + o)[h..] == o;
  }

  /** The network computes the quadratic sum, bin by bin. */
  lemma {:induction false} NetworkIsDft(x: seq<Complex>, w: Complex, levels: nat, k: nat)
    requires |x| == Pow2(levels) && HalfTurn(w, levels) && k < |x|
    ensures Network(BitReversed(x, levels), w, levels)[k] == DftAt(x, w, k)
    decreases levels
  {
    hide Mul, Add, Sub, Pow, Evens, Odds, DftAt, Butterflies;
    if levels == 0 {
      SingleBin(x, w);
    } else {
      var h := Pow2(levels - 1);
      var j := if k < h then k else k - h;
      HalfTurnSquare(w, levels);
      NetworkIsDft(Evens(x), Mul(w, w), levels - 1, j);
      NetworkIsDft(Odds(x), Mul(w, w), levels - 1, j);
      NetworkStep(x, w, levels);
      ButterflyBin(x, w, h, j);
    }
  }

  /** The two bins that one butterfly writes. */
  lemma ButterflyBin(x: seq<Complex>, w: Complex, h: nat, j: nat)
    requires |x| == 2 * h && Pow(w, h) == MINUS_ONE && Pow(Mul(w, w), h) == ONE
    ensures var e, o := DftAt(Evens(x), Mul(w, w), j), DftAt(Odds(x), Mul(w, w), j);
      && DftAt(x, w, j) == Add(e, Mul(o, Pow(w, j)))
      && DftAt(x, w, j + h) == Sub(e, Mul(o, Pow(w, j)))
  {
    hide Mul, Pow, DftAt;
    var v := Mul(w, w);
    var od := DftAt(Odds(x), v, j);
    MulComm(od, Pow(w, j));
    DftSplit(x, w, j);
    DftSplit(x, w, j + h);
    DftPeriodic(Evens(x), v, j, h);
    DftPeriodic(Odds(x), v, j, h);
    PowAdd(w, j, h);
    MulUnits(Pow(w, j));
    MulNeg(Pow(w, j), od);
  }
}
