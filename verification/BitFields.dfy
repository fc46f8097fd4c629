/** Signed fields of a little-endian bit string: reading them, packing them, and getting them back. */
module BitFields {
  import opened Dft
  import opened Ints

  type Byte = b: nat | b < 256 witness 0

  /** The number whose little-endian bytes are data. */
  function Value(data: seq<Byte>): nat {
    if data == [] then 0 else data[0] + 256 * Value(data[1..])
  }

  /** The w bits of v from bit b on. */
  function Slice(v: nat, b: nat, w: nat): nat { v / Pow2(b) % Pow2(w) }

  /** The w bits of the string from bit b on. */
  function Field(data: seq<Byte>, b: nat, w: nat): (v: nat) { Slice(Value(data), b, w) }

  /** Two's complement reading of a w-bit field. */
  function SignExtend(v: nat, w: nat): int
    requires w > 0
  {
    if v >= Pow2(w - 1) then v - Pow2(w) else v
  }

  /** x is in the range of a signed w-bit number. */
  predicate Fits(x: int, w: nat)
    requires w > 0
  {
    0 <= x + Pow2(w - 1) < Pow2(w)
  }

  /** Sample i of a packed stream of w-bit samples. */
  function Sample(data: seq<Byte>, i: nat, w: nat): int
    requires w > 0
  {
    SignExtend(Field(data, i * w, w), w)
  }

  // ---------------------------------------------------------------- moving along the string

  lemma {:induction false} DivPow(n: nat, a: nat, b: nat)
    ensures n / Pow2(a) / Pow2(b) == n / Pow2(a + b)
  {
    if a == 0 {
    } else {
      DivTwice(n, Pow2(a - 1));
      DivPow(n / 2, a - 1, b);
      DivTwice(n, Pow2(a - 1 + b));
    }
  }

  lemma PowerOf8()
    ensures Pow2(8) == 256
  {
    assert Pow2(4) == 16;
  }

  lemma ByteOff(n: nat, d: Byte, rest: nat)
    requires n == d + 256 * rest
    ensures n / 256 == rest
  {}

  /** Dropping bytes divides the number. */
  lemma {:induction false} ValueDrop(data: seq<Byte>, q: nat)
    requires q <= |data|
    ensures Value(data[q..]) == Value(data) / Pow2(8 * q)
  {
    if q == 0 {
      assert data[0..] == data;
    } else {
      ValueDrop(data[1..], q - 1);
      assert data[1..][q - 1..] == data[q..];
      ByteOff(Value(data), data[0], Value(data[1..]));
      PowerOf8();
      DivPow(Value(data), 8, 8 * (q - 1));
    }
  }

  /** A field of a tail is a field of the whole. */
  lemma FieldOfTail(data: seq<Byte>, q: nat, b: nat, w: nat)
    requires q <= |data|
    ensures Field(data[q..], b, w) == Field(data, 8 * q + b, w)
  {
    hide Value, Pow2;
    ValueDrop(data, q);
    DivPow(Value(data), 8 * q, b);
  }

  // ---------------------------------------------------------------- packing

  /** The fields of the samples, first sample in the lowest bits. */
  function Packed(samples: seq<int>, w: nat): nat {
    if samples == [] then 0 else samples[0] % Pow2(w) + Pow2(w) * Packed(samples[1..], w)
  }

  function Bytes(n: nat, len: nat): (data: seq<Byte>)
    ensures |data| == len
  {
    if len == 0 then [] else [n % 256] + Bytes(n / 256, len - 1)
  }

  lemma {:induction false} BytesValue(n: nat, len: nat)
    requires n < Pow2(8 * len)
    ensures Value(Bytes(n, len)) == n
  {
    if len > 0 {
      PowerOf8();
      Pow2Add(8, 8 * (len - 1));
      Smaller(n, Pow2(8 * (len - 1)));
      BytesValue(n / 256, len - 1);
      assert Bytes(n, len)[1..] == Bytes(n / 256, len - 1);
    }
  }

  lemma Smaller(n: nat, p: nat)
    requires n < 256 * p
    ensures n / 256 < p
  {}

  lemma LowDigit(v: nat, p: nat, rest: nat)
    requires v < p
    ensures (v + p * rest) / p == rest && (v + p * rest) % p == v
  {
    DivUnique(v + p * rest, p, rest, v);
  }

  /** Field i of the packed number is sample i. */
  lemma {:induction false} PackedField(samples: seq<int>, w: nat, i: nat)
    requires i < |samples|
    ensures Packed(samples, w) / Pow2(i * w) % Pow2(w) == samples[i] % Pow2(w)
  {
    hide Pow2;
    var rest := Packed(samples[1..], w);
    LowDigit(samples[0] % Pow2(w), Pow2(w), rest);
    if i == 0 {
      PowZero();
    } else {
      PackedField(samples[1..], w, i - 1);
      DivPow(Packed(samples, w), w, (i - 1) * w);
      assert w + (i - 1) * w == i * w;
    }
  }

  lemma PowZero()
    ensures Pow2(0) == 1
  {}

  lemma {:induction false} PackedBound(samples: seq<int>, w: nat)
    ensures Packed(samples, w) < Pow2(|samples| * w)
  {
    if samples != [] {
      PackedBound(samples[1..], w);
      Pow2Add(w, (|samples| - 1) * w);
      assert |samples| * w == w + (|samples| - 1) * w;
      Below(samples[0] % Pow2(w), Packed(samples[1..], w), Pow2(w), Pow2((|samples| - 1) * w));
    }
  }

  lemma Below(d: nat, rest: nat, p: nat, q: nat)
    requires d < p && rest < q
    ensures d + p * rest < p * q
  {
    assert p * rest + p <= p * q by { ProductMonotone(rest + 1, q, p); }
  }

  lemma ExtendRemainder(x: int, w: nat)
    requires w > 0 && Fits(x, w)
    ensures SignExtend(x % Pow2(w), w) == x
  {
    assert Pow2(w) == 2 * Pow2(w - 1);
    hide Pow2;
    if x >= 0 { Residue(x, Pow2(w), 0); } else { Residue(x, Pow2(w), -1); }
  }

  lemma Residue(x: int, p: nat, q: int)
    requires p > 0 && q * p <= x < q * p + p
    ensures x % p == x - q * p
  {
    DivUnique(x, p, q, x - q * p);
  }

  /** Unpacking what was packed into enough bytes gives back every sample that fits the width. */
  lemma UnpackPacked(samples: seq<int>, w: nat, len: nat, i: nat)
    requires w > 0 && i < |samples| && |samples| * w <= 8 * len
    requires Fits(samples[i], w)
    ensures Sample(Bytes(Packed(samples, w), len), i, w) == samples[i]
  {
    hide Pow2, Packed, Bytes, SignExtend;
    PackedBound(samples, w);
    PowMonotone(|samples| * w, 8 * len);
    BytesValue(Packed(samples, w), len);
    PackedField(samples, w, i);
    ExtendRemainder(samples[i], w);
  }

  lemma {:induction false} PowMonotone(a: nat, b: nat)
    requires a <= b
    ensures Pow2(a) <= Pow2(b)
  {
    if a < b { PowMonotone(a, b - 1); }
  }
}
