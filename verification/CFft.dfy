/** The C transform: swaps in place, keeps a running twiddle, and scales by 1/n when inverting. */
module CFft {
  import opened Complex
  import opened Dft
  import opened BitReverse
  import opened Stages
  import opened Ints
  import opened SpectrumLaws

  /**
   root(s) is the twiddle base exp(-2*pi*i / 2^s) the C code asks cos and sin for in stage s: a
   half turn is -1, each base is the square of the next, and all have modulus one. The inverse
   transform asks for the opposite angle, which is the conjugate.
   */
  ghost predicate RootFamily(root: nat -> Complex) {
    && root(1) == MINUS_ONE
    && (forall s: nat :: Mul(root(s + 1), root(s + 1)) == root(s))
    && (forall s: nat :: Norm2(root(s)) == 1.0)
  }

  function StageRoot(root: nat -> Complex, inverse: bool, s: nat): Complex {
    if inverse then Conj(root(s)) else root(s)
  }

  lemma StageRootSquare(root: nat -> Complex, inverse: bool, s: nat)
    requires RootFamily(root)
    ensures Mul(StageRoot(root, inverse, s + 1), StageRoot(root, inverse, s + 1)) == StageRoot(root, inverse, s)
  {
    hide Mul, Norm2;
    ConjMul(root(s + 1), root(s + 1));
  }

  lemma {:induction false} RootPower(root: nat -> Complex, s: nat, levels: nat)
    requires RootFamily(root) && s <= levels
    ensures Pow(root(levels), Pow2(levels - s)) == root(s)
    decreases levels - s
  {
    hide Mul, Norm2;
    if s == levels {
      assert Pow(root(s), 1) == Mul(Pow(root(s), 0), root(s));
      MulUnits(root(s));
    } else {
      RootPower(root, s + 1, levels);
      PowAdd(root(levels), Pow2(levels - s - 1), Pow2(levels - s - 1));
    }
  }

  /** The base of the last stage is a twiddle base for the whole transform, and its conjugate inverts it. */
  lemma RootIsHalfTurn(root: nat -> Complex, levels: nat)
    requires RootFamily(root)
    ensures HalfTurn(root(levels), levels) && HalfTurn(Conj(root(levels)), levels)
    ensures Mul(root(levels), Conj(root(levels))) == ONE
  {
    hide Mul, Norm2;
    MulConj(root(levels));
    if levels > 0 {
      RootPower(root, 1, levels);
    }
    HalfTurnInverse(root(levels), Conj(root(levels)), levels);
  }

  // ---------------------------------------------------------------- one line

  function ScaleAll(r: real, x: seq<Complex>): (y: seq<Complex>)
    ensures |y| == |x|
  {
    seq(|x|, (i: nat) requires i < |x| => Scale(r, x[i]))
  }

  /** What one call of the C transform makes of a line. */
  function Line(x: seq<Complex>, inverse: bool, root: nat -> Complex, levels: nat): (y: seq<Complex>)
    requires |x| == Pow2(levels)
    ensures |y| == |x|
  {
    var y := Network(BitReversed(x, levels), StageRoot(root, inverse, levels), levels);
    if inverse then ScaleAll(1.0 / |x| as real, y) else y
  }

  /** The scale factor of one line. */
  function Factor(inverse: bool, n: nat): real
    requires n > 0
  {
    if inverse then 1.0 / n as real else 1.0
  }

  /** Every output is the quadratic sum, over the length when inverting. */
  lemma LineIsDft(x: seq<Complex>, inverse: bool, root: nat -> Complex, levels: nat, k: nat)
    requires |x| == Pow2(levels) && RootFamily(root) && k < |x|
    ensures Line(x, inverse, root, levels)[k]
         == Scale(Factor(inverse, |x|), DftAt(x, StageRoot(root, inverse, levels), k))
  {
    hide Mul, Scale, DftAt, Network, BitReversed, Norm2;
    var w := StageRoot(root, inverse, levels);
    RootIsHalfTurn(root, levels);
    NetworkIsDft(x, w, levels, k);
    ScaleScale(1.0, 1.0, DftAt(x, w, k));
  }

  lemma ForwardIsSpectrum(x: seq<Complex>, root: nat -> Complex, levels: nat)
    requires |x| == Pow2(levels) && RootFamily(root)
    ensures Line(x, false, root, levels) == Spectrum(x, root(levels))
  {
    hide Mul, Scale, DftAt, Line, Norm2;
    forall k: nat | k < |x|
      ensures Line(x, false, root, levels)[k] == Spectrum(x, root(levels))[k]
    {
      LineIsDft(x, false, root, levels, k);
      ScaleScale(1.0, 1.0, DftAt(x, root(levels), k));
    }
  }

  /** The inverse line undoes the forward line exactly. */
  lemma LineRoundTrip(x: seq<Complex>, root: nat -> Complex, levels: nat)
    requires |x| == Pow2(levels) && RootFamily(root)
    ensures Line(Line(x, false, root, levels), true, root, levels) == x
  {
    hide Mul, Scale, DftAt, Line, HalfTurn, Norm2;
    var w, n := root(levels), Pow2(levels) as real;
    var fwd := Line(x, false, root, levels);
    RootIsHalfTurn(root, levels);
    ForwardIsSpectrum(x, root, levels);
    forall l: nat | l < |x|
      ensures Line(fwd, true, root, levels)[l] == x[l]
    {
      LineIsDft(fwd, true, root, levels, l);
      Inversion(x, w, Conj(w), levels, l);
      Unscale(n, x[l]);
    }
  }

  lemma Unscale(n: real, a: Complex)
    requires n > 0.0
    ensures Scale(1.0 / n, Scale(n, a)) == a
  {
    ScaleScale(1.0 / n, n, a);
  }

  /** The forward line undoes the inverse line exactly. */
  lemma LineRoundTripBack(x: seq<Complex>, root: nat -> Complex, levels: nat)
    requires |x| == Pow2(levels) && RootFamily(root)
    ensures Line(Line(x, true, root, levels), false, root, levels) == x
  {
    hide Mul, Scale, DftAt, Line, HalfTurn, Norm2;
    var w, n := root(levels), Pow2(levels) as real;
    var inv, spec := Line(x, true, root, levels), Spectrum(x, Conj(w));
    RootIsHalfTurn(root, levels);
    MulComm(w, Conj(w));
    forall k: nat | k < |x|
      ensures inv[k] == Scale(1.0 / n, spec[k])
    {
      LineIsDft(x, true, root, levels, k);
    }
    forall l: nat | l < |x|
      ensures Line(inv, false, root, levels)[l] == x[l]
    {
      ForwardIsSpectrum(inv, root, levels);
      DftScale(spec, inv, 1.0 / n, w, l);
      Inversion(x, Conj(w), w, levels, l);
      Unscale(n, x[l]);
    }
  }

  lemma DftScale(x: seq<Complex>, y: seq<Complex>, r: real, w: Complex, k: nat)
    requires |x| == |y| && forall j: nat :: j < |x| ==> y[j] == Scale(r, x[j])
    ensures DftAt(y, w, k) == Scale(r, DftAt(x, w, k))
  {
    hide Mul, Scale, Twiddle;
    forall j: nat | j < |x|
      ensures Term(y, w, k)(j) == Scale(r, Term(x, w, k)(j))
    {
      MulScale(r, Twiddle(w, j, k), x[j]);
      MulComm(Twiddle(w, j, k), x[j]);
      MulComm(Twiddle(w, j, k), y[j]);
    }
    SumScale(r, Term(x, w, k), Term(y, w, k), |x|);
  }

  // ---------------------------------------------------------------- swapping

  /** The swap loop before index i: pairs with a member below i are swapped. */
  ghost predicate PartlySwapped(now: seq<Complex>, orig: seq<Complex>, levels: nat, i: nat) {
    && |now| == |orig| == Pow2(levels)
    && forall p: nat :: p < |now| ==>
         now[p] == if p < i || Rev(p, levels) < i then orig[Rev(p, levels)] else orig[p]
  }

  lemma NothingSwapped(orig: seq<Complex>, levels: nat)
    requires |orig| == Pow2(levels)
    ensures PartlySwapped(orig, orig, levels, 0)
  {}

  lemma SwapStep(next: seq<Complex>, now: seq<Complex>, orig: seq<Complex>, levels: nat, i: nat)
    requires i < |now| && PartlySwapped(now, orig, levels, i)
    requires var j := Rev(i, levels); next == if i < j then now[i := now[j]][j := now[i]] else now
    ensures PartlySwapped(next, orig, levels, i + 1)
  {
    hide Rev, Pow2;
    var j := Rev(i, levels);
    RevInvolution(i, levels);
    forall p: nat | p < |now|
      ensures next[p] == if p < i + 1 || Rev(p, levels) < i + 1 then orig[Rev(p, levels)] else orig[p]
    {
      RevInvolution(p, levels);
      if p != i && p != j {
        assert next[p] == now[p] && Rev(p, levels) != i;
      }
    }
  }

  lemma AllSwapped(now: seq<Complex>, orig: seq<Complex>, levels: nat)
    requires PartlySwapped(now, orig, levels, |orig|)
    ensures now == BitReversed(orig, levels)
  {
    hide Rev;
    forall i: nat | i < |orig|
      ensures now[Rev(i, levels)] == orig[i]
    {
      RevInvolution(i, levels);
    }
    ScatteredIsBitReversed(orig, now, levels);
  }

  // ---------------------------------------------------------------- the loops

  /** The window of n cells at offset off. */
  ghost predicate OutsideUnchanged(now: seq<Complex>, was: seq<Complex>, off: nat, n: nat) {
    && |now| == |was|
    && forall p: nat :: p < |now| && !(off <= p < off + n) ==> now[p] == was[p]
  }

  /** In-place transform of the n cells of data from offset off; every other cell keeps its value. */
  method FftCooleyTukey(data: array<Complex>, off: nat, n: nat, inverse: bool, root: nat -> Complex, ghost levels: nat)
    requires n == Pow2(levels) && off + n <= data.Length && RootFamily(root)
    modifies data
    ensures data[off..off + n] == Line(old(data[off..off + n]), inverse, root, levels)
    ensures OutsideUnchanged(data[..], old(data[..]), off, n)
  {
    ghost var was := data[..];
    ghost var orig := data[off..off + n];
    if n <= 1 {
      SingleLine(orig, inverse, root, levels);
      return;
    }
    var bits := CountBits(n, levels);
    SwapPass(data, off, n, bits);
    NetworkPass(data, off, n, bits, inverse, root);
    if inverse {
      ScalePass(data, off, n);
    }
  }

  lemma SingleLine(x: seq<Complex>, inverse: bool, root: nat -> Complex, levels: nat)
    requires |x| == Pow2(levels) == 1
    ensures Line(x, inverse, root, levels) == x
  {
    assert levels == 0;
    ScaleScale(1.0, 1.0, x[0]);
  }

  method CountBits(n: nat, ghost levels: nat) returns (bits: nat)
    requires n == Pow2(levels)
    ensures bits == levels
  {
    bits := 0;
    while Pow2(bits) < n
      invariant bits <= levels
      decreases levels - bits
    {
      bits := bits + 1;
    }
    Pow2Injective(bits, levels);
  }

  lemma {:induction false} Pow2Injective(a: nat, b: nat)
    requires a <= b && Pow2(a) >= Pow2(b)
    ensures a == b
  {
    if a < b {
      if a == 0 {
      } else {
        Pow2Injective(a - 1, b - 1);
      }
    }
  }

  /** Permutes the window into bit-reversed order by swapping each pair once. */
  method SwapPass(data: array<Complex>, off: nat, n: nat, bits: nat)
    requires n == Pow2(bits) && off + n <= data.Length
    modifies data
    ensures data[off..off + n] == BitReversed(old(data[off..off + n]), bits)
    ensures OutsideUnchanged(data[..], old(data[..]), off, n)
  {
    hide Rev, PartlySwapped, BitReversed;
    ghost var orig := data[off..off + n];
    NothingSwapped(orig, bits);
    for i := 0 to n
      invariant PartlySwapped(data[off..off + n], orig, bits, i)
      invariant OutsideUnchanged(data[..], old(data[..]), off, n)
    {
      ghost var now := data[off..off + n];
      var j := ReverseBits(i, bits);
      if i < j {
        var temp := data[off + i];
        data[off + i] := data[off + j];
        data[off + j] := temp;
      }
      SwapStep(data[off..off + n], now, orig, bits, i);
    }
    AllSwapped(data[off..off + n], orig, bits);
  }

  method ScalePass(data: array<Complex>, off: nat, n: nat)
    requires n > 0 && off + n <= data.Length
    modifies data
    ensures data[off..off + n] == ScaleAll(1.0 / n as real, old(data[off..off + n]))
    ensures OutsideUnchanged(data[..], old(data[..]), off, n)
  {
    var norm := 1.0 / n as real;
    for i := 0 to n
      invariant forall p: nat :: p < data.Length ==>
                  data[p] == if off <= p < off + i then Scale(norm, old(data[p])) else old(data[p])
    {
      data[off + i] := Scale(norm, data[off + i]);
    }
  }

  lemma OutsideTwice(now: seq<Complex>, mid: seq<Complex>, was: seq<Complex>, off: nat, n: nat)
    requires OutsideUnchanged(mid, was, off, n) && OutsideUnchanged(now, mid, off, n)
    ensures OutsideUnchanged(now, was, off, n)
  {}

  /** The inner loop: the butterflies of the block at offset k of the window, with a running twiddle. */
  method CombineBlock(data: array<Complex>, off: nat, n: nat, k: nat, mHalf: nat, wm: Complex)
    requires off + n <= data.Length && k + 2 * mHalf <= n
    modifies data
    ensures Combined(data[off..off + n], old(data[off..off + n]), k, mHalf, wm)
    ensures OutsideUnchanged(data[off..off + n], old(data[off..off + n]), k, 2 * mHalf)
    ensures OutsideUnchanged(data[..], old(data[..]), off, n)
  {
    hide Mul, Add, Sub, Pow, PartlyCombined, Combined;
    ghost var before := data[off..off + n];
    NothingCombined(before, k, mHalf, wm);
    PowZero(wm);
    var w := ONE;
    for j := 0 to mHalf
      invariant w == Pow(wm, j)
      invariant PartlyCombined(data[off..off + n], before, k, mHalf, wm, j)
      invariant OutsideUnchanged(data[..], old(data[..]), off, n)
    {
      ghost var now := data[off..off + n];
      var t := Mul(w, data[off + k + j + mHalf]);
      var u := data[off + k + j];
      MulComm(w, now[k + j + mHalf]);
      data[off + k + j] := Add(u, t);
      data[off + k + j + mHalf] := Sub(u, t);
      PowNext(wm, j);
      w := Mul(w, wm);
      CombineOne(data[off..off + n], now, before, k, mHalf, wm, j);
    }
    AllCombined(data[off..off + n], before, k, mHalf, wm);
  }

  /** From cell k on, nothing has changed yet. */
  ghost predicate SameFrom(now: seq<Complex>, start: seq<Complex>, k: nat) {
    && |now| == |start|
    && forall p: nat :: k <= p < |now| ==> now[p] == start[p]
  }

  lemma BlockFrame(now: seq<Complex>, before: seq<Complex>, start: seq<Complex>, k: nat, m: nat)
    requires k + m <= |now| && OutsideUnchanged(now, before, k, m) && SameFrom(before, start, k)
    ensures SameFrom(now, start, k + m)
    ensures |now| == |before| == |start|
    ensures forall p: nat :: p < k ==> now[p] == before[p]
    ensures forall p: nat :: k <= p < |start| ==> before[p] == start[p]
  {}

  /** One stage: every block of 2^s cells is made from two finished blocks of half its size. */
  method StagePass(data: array<Complex>, off: nat, n: nat, bits: nat, s: nat, wm: Complex, ghost orig: seq<Complex>)
    requires 1 <= s <= bits && n == Pow2(bits) == |orig| && off + n <= data.Length
    requires BlocksDone(data[off..off + n], orig, Mul(wm, wm), Pow2(bits - (s - 1)), s - 1)
    modifies data
    ensures BlocksDone(data[off..off + n], orig, wm, Pow2(bits - s), s)
    ensures OutsideUnchanged(data[..], old(data[..]), off, n)
  {
    hide Mul, Add, Sub, Pow, Network, PartlyCombined, Combined, BlocksDone, Times, OutsideUnchanged;
    var m := Pow2(s);
    var mHalf := m / 2;
    ghost var blocks := Pow2(bits - s);
    StageSizes(n, bits, s - 1, mHalf, blocks);
    ghost var start := data[off..off + n];
    ghost var b := 0;
    NoBlocksYet(start, orig, wm, s);
    NothingOutside(data[..], off, n);
    var k := 0;
    while k < n
      invariant b <= blocks && k == Times(b, m)
      invariant BlocksDone(data[off..off + n], orig, wm, b, s)
      invariant SameFrom(data[off..off + n], start, k)
      invariant OutsideUnchanged(data[..], old(data[..]), off, n)
      decreases n - k
    {
      BlockFits(b, blocks, m);
      ghost var before := data[off..off + n];
      ghost var all := data[..];
      CombineBlock(data, off, n, k, mHalf, wm);
      OutsideTwice(data[..], all, old(data[..]), off, n);
      ghost var now := data[off..off + n];
      BlockFrame(now, before, start, k, m);
      BlockJoin(now, before, start, orig, wm, b, k, s - 1, blocks);
      TimesNext(b, m);
      b := b + 1;
      k := k + m;
    }
    if b < blocks { BlockFits(b, blocks, m); }
  }

  lemma NothingOutside(was: seq<Complex>, off: nat, n: nat)
    ensures OutsideUnchanged(was, was, off, n)
  {}

  /** The butterfly stages on a window already in bit-reversed order. */
  method NetworkPass(data: array<Complex>, off: nat, n: nat, bits: nat, inverse: bool, root: nat -> Complex)
    requires n == Pow2(bits) && off + n <= data.Length && RootFamily(root)
    modifies data
    ensures data[off..off + n] == Network(old(data[off..off + n]), StageRoot(root, inverse, bits), bits)
    ensures OutsideUnchanged(data[..], old(data[..]), off, n)
  {
    hide Mul, Network, BlocksDone, StageRoot, RootFamily, OutsideUnchanged;
    ghost var orig := data[off..off + n];
    StageZero(orig, StageRoot(root, inverse, 0));
    NothingOutside(data[..], off, n);
    for s := 1 to bits + 1
      invariant BlocksDone(data[off..off + n], orig, StageRoot(root, inverse, s - 1), Pow2(bits - (s - 1)), s - 1)
      invariant OutsideUnchanged(data[..], old(data[..]), off, n)
    {
      StageRootSquare(root, inverse, s - 1);
      ghost var all := data[..];
      StagePass(data, off, n, bits, s, StageRoot(root, inverse, s), orig);
      OutsideTwice(data[..], all, old(data[..]), off, n);
    }
    LastStage(data[off..off + n], orig, StageRoot(root, inverse, bits), bits);
  }

  lemma PowNext(w: Complex, j: nat)
    ensures Pow(w, j + 1) == Mul(Pow(w, j), w)
  {}
}
