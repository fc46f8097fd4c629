/** Bit-reversed indexing, as a closed form and as the loops that compute it. */
module BitReverse {
  import opened Complex
  import opened Dft
  import opened Ints

  /** The low bits of i, in the opposite order. */
  function Rev(i: nat, bits: nat): (r: nat)
    ensures r < Pow2(bits)
  {
    if bits == 0 then 0 else (if i % 2 == 1 then Pow2(bits - 1) else 0) + Rev(i / 2, bits - 1)
  }

  function Log2(n: nat): nat {
    if n <= 1 then 0 else 1 + Log2(n / 2)
  }

  lemma {:induction false} Log2Pow2(levels: nat)
    ensures Log2(Pow2(levels)) == levels
  {
    if levels > 0 { Log2Pow2(levels - 1); }
  }

  /** Bit b of i. */
  function Bit(i: nat, b: nat): nat { i / Pow2(b) % 2 }

  lemma BitNext(i: nat, b: nat)
    ensures Bit(i, b + 1) == Bit(i / 2, b)
    ensures Bit(i, 0) == i % 2
  {
    DivTwice(i, Pow2(b));
  }

  lemma BitTop(i: nat, b: nat)
    requires i < 2 * Pow2(b)
    ensures Bit(i, b) == if i < Pow2(b) then 0 else 1
  {
    var p := Pow2(b);
    DivUnique(i, p, if i < p then 0 else 1, if i < p then i else i - p);
  }

  /** Reversing one more bit appends that bit at the low end. */
  lemma {:induction false} RevAppend(i: nat, bits: nat)
    ensures Rev(i, bits + 1) == 2 * Rev(i, bits) + Bit(i, bits)
  {
    hide Bit;
    if bits == 0 {
      BitNext(i, 0);
      assert Rev(i, 1) == (if i % 2 == 1 then Pow2(0) else 0) + Rev(i / 2, 0);
    } else {
      RevAppend(i / 2, bits - 1);
      BitNext(i, bits - 1);
    }
  }

  /** Bits above the ones reversed do not matter. */
  lemma {:induction false} RevLow(i: nat, bits: nat)
    ensures Rev(i + Pow2(bits), bits) == Rev(i, bits)
  {
    if bits > 0 { RevLow(i / 2, bits - 1); }
  }

  /** Bit reversal undoes itself, so it is a permutation of the indices below 2^bits. */
  lemma {:induction false} RevInvolution(i: nat, bits: nat)
    requires i < Pow2(bits)
    ensures Rev(Rev(i, bits), bits) == i
  {
    hide Bit, Rev;
    if bits == 0 {
      RevUnfold(i, 0);
    } else {
      var p := Pow2(bits - 1);
      var low := if i < p then i else i - p;
      BitTop(i, bits - 1);
      RevAppend(i, bits - 1);
      RevLow(low, bits - 1);
      RevInvolution(low, bits - 1);
      RevUnfold(Rev(i, bits), bits);
    }
  }

  lemma RevUnfold(i: nat, bits: nat)
    ensures Rev(i, 0) == 0
    ensures bits > 0 ==> Rev(i, bits) == (if i % 2 == 1 then Pow2(bits - 1) else 0) + Rev(i / 2, bits - 1)
  {}

  lemma RevInjective(i: nat, j: nat, bits: nat)
    requires i < Pow2(bits) && j < Pow2(bits) && Rev(i, bits) == Rev(j, bits)
    ensures i == j
  {
    RevInvolution(i, bits);
    RevInvolution(j, bits);
  }

  /** The recursive even-odd order is the bit-reversed order. */
  lemma {:induction false} BitReversedAt(x: seq<Complex>, levels: nat, i: nat)
    requires |x| == Pow2(levels) && i < |x|
    ensures BitReversed(x, levels)[Rev(i, levels)] == x[i]
    decreases levels
  {
    hide Evens, Odds;
    if levels > 0 {
      HalfLength(x);
      var e, o := BitReversed(Evens(x), levels - 1), BitReversed(Odds(x), levels - 1);
      var r := Rev(i / 2, levels - 1);
      if i % 2 == 0 {
        BitReversedAt(Evens(x), levels - 1, i / 2);
        assert (e + o)[r] == e[r];
      } else {
        BitReversedAt(Odds(x), levels - 1, i / 2);
        assert (e + o)[|e| + r] == o[r];
      }
    }
  }

  /** A buffer that holds x[i] at every Rev(i) holds the bit-reversed order of x. */
  lemma ScatteredIsBitReversed(x: seq<Complex>, a: seq<Complex>, levels: nat)
    requires |x| == |a| == Pow2(levels)
    requires forall i: nat :: i < |x| ==> a[Rev(i, levels)] == x[i]
    ensures a == BitReversed(x, levels)
  {
    forall p: nat | p < |a|
      ensures a[p] == BitReversed(x, levels)[p]
    {
      RevInvolution(p, levels);
      BitReversedAt(x, levels, Rev(p, levels));
    }
  }

  /** The Go table: every index of an n-entry table, reversed over floor(log2 n) bits. */
  method BitReverseIndices(n: nat) returns (indices: array<nat>)
    ensures fresh(indices) && indices.Length == n
    ensures forall i: nat :: i < n ==> indices[i] == Rev(i, Log2(n))
  {
    indices := new nat[n];
    var bits := 0;
    var k := n;
    while k > 1
      invariant bits + Log2(k) == Log2(n)
    {
      bits := bits + 1;
      k := k / 2;
    }
    for i := 0 to n
      invariant forall p: nat :: p < i ==> indices[p] == Rev(p, bits)
    {
      indices[i] := ReverseBits(i, bits);
    }
  }

  /** The inner loop of the table, and the whole of the C helper. */
  method ReverseBits(n: nat, bits: nat) returns (reversed: nat)
    ensures reversed == Rev(n, bits)
  {
    reversed := 0;
    var j := n;
    for b := 0 to bits
      invariant reversed == Rev(n, b)
      invariant j == n / Pow2(b)
    {
      RevAppend(n, b);
      DivTwice(n, Pow2(b));
      reversed := 2 * reversed + j % 2;
      j := j / 2;
    }
  }
}
