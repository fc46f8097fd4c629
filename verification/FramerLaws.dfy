/** The framer written out: which datagrams are accepted, where channels start, and what each sample is in terms of its bytes. */
module FramerLaws {
  import opened BitFields
  import opened Dft
  import opened Ints
  import opened Framer

  // ---------------------------------------------------------------- acceptance

  /** The four magic bytes in the order they arrive. */
  predicate Magic(data: seq<Byte>) { |data| >= 4 && data[0] == 0x52 && data[1] == 0x44 && data[2] == 0x41 && data[3] == 0x52 }

  lemma FourBytes(d: seq<Byte>)
    requires |d| == 4
    ensures Value(d) == d[0] as nat + 256 * (d[1] as nat + 256 * (d[2] as nat + 256 * d[3] as nat))
  {
    assert d[1..][1..] == d[2..] && d[2..][1..] == d[3..] && d[3..][1..] == [];
    assert Value(d[3..]) == d[3] as nat && Value(d[2..]) == d[2] as nat + 256 * d[3] as nat;
    assert Value(d[1..]) == d[1] as nat + 256 * (d[2] as nat + 256 * d[3] as nat);
  }

  lemma MagicExactly(header: seq<Byte>)
    ensures ValidHeader(header) <==> |header| >= 8 && Magic(header)
  {
    if |header| >= 8 {
      FourBytes(header[..4]);
      Digits(header[0], header[1], header[2], header[3]);
    }
  }

  lemma Digits(a: Byte, b: Byte, c: Byte, d: Byte)
    ensures a as nat + 256 * (b as nat + 256 * (c as nat + 256 * d as nat)) == 0x52414452 <==> a == 0x52 && b == 0x44 && c == 0x41 && d == 0x52
  {}

  /** A datagram is accepted exactly when it holds the header, the header is long enough and starts with the magic, and every bit of every sample fits. */
  lemma VerdictExactly(cfg: Config, data: seq<Byte>, bits: nat)
    requires bits == cfg.rxChannels * (cfg.samplesPerChirp * cfg.chirpsPerFrame * cfg.adcBits)
    ensures Verdict(cfg, data) == InvalidFrameSize <==> |data| < cfg.headerSize
    ensures Verdict(cfg, data) == InvalidHeader <==> |data| >= cfg.headerSize && (cfg.headerSize < 8 || !Magic(data))
    ensures Verdict(cfg, data) == FrameIncomplete <==> |data| >= cfg.headerSize >= 8 && Magic(data) && |data| < cfg.headerSize + bits / 8
    ensures Verdict(cfg, data).Parsed? <==> |data| >= cfg.headerSize >= 8 && Magic(data) && |data| >= cfg.headerSize + bits / 8
  {
    SizeIs(cfg);
    if |data| >= cfg.headerSize { MagicExactly(data[..cfg.headerSize]); }
    hide ValidHeader, ExpectedSize;
  }

  /** Channels follow one another after the header, each rounded down to a byte. */
  lemma OffsetWritten(cfg: Config, ch: nat, bits: nat)
    requires bits == ch * (cfg.samplesPerChirp * cfg.chirpsPerFrame * cfg.adcBits)
    ensures ChannelOffset(cfg, ch) == cfg.headerSize + bits / 8
  {
    OffsetIs(cfg, ch);
    hide ChannelOffset;
  }

  lemma WidthIs(cfg: Config)
    ensures Width(cfg) == (if cfg.adcBits == 14 then 14 else if cfg.adcBits != 12 then 16 else 12)
    ensures PoolRows(cfg) == (if cfg.chirpsPerFrame > 0 then cfg.chirpsPerFrame else 128)
    ensures PoolCols(cfg) == if cfg.samplesPerChirp > 0 then cfg.samplesPerChirp else 256
  {}

  /** As many samples as asked for, or as many as the data holds in full. */
  lemma WrittenIsMost(data: seq<Byte>, count: nat, w: nat, n: nat)
    requires w > 0 && n == Written(data, count, w)
    ensures n <= count && n * w <= 8 * |data|
    ensures n < count ==> n * w + w > 8 * |data|
  {
    QuotientIs(n, w, 8 * |data|);
    if n > 0 { QuotientIs(n - 1, w, 8 * |data|); assert (n - 1) * w + w == n * w; }
  }

  // ---------------------------------------------------------------- samples from bytes

  /** Two's complement reading of a number below twice the half. */
  function Signed(s: nat, half: nat): int { if s >= half then s - 2 * half else s }

  lemma SignedIs(s: nat, w: nat)
    requires w == 12 || w == 14 || w == 16
    ensures SignExtend(s, w) == Signed(s, if w == 12 then 2048 else if w == 14 then 8192 else 32768)
  {
    Powers();
  }

  /** Every sample is a signed number of its width, and these are all the numbers that can be packed. */
  lemma SampleRange(data: seq<Byte>, i: nat, w: nat, half: int, x: int)
    requires (w == 12 && half == 2048) || (w == 14 && half == 8192) || (w == 16 && half == 32768)
    ensures -half <= Sample(data, i, w) < half
    ensures Fits(x, w) <==> -half <= x < half
  {
    Powers();
    hide Pow2;
    Remainder(Value(data) / Pow2(i * w), Pow2(w));
  }

  lemma Remainder(a: int, m: nat)
    requires m > 0
    ensures 0 <= a % m < m
  {}

  /** Sixteen-bit samples are byte pairs, low byte first. */
  lemma Sample16Is(data: seq<Byte>, i: nat)
    requires 2 * i + 1 < |data|
    ensures Sample(data, i, 16) == Signed(data[2 * i] as nat + 256 * data[2 * i + 1] as nat, 32768)
  {
    Field16(data, i);
    hide Sample;
  }

  /** Twelve-bit samples come in pairs of three bytes: low byte and low half, then high half and high byte. */
  lemma Sample12Is(data: seq<Byte>, j: nat)
    ensures 3 * j + 1 < |data| ==> Sample(data, 2 * j, 12) == Signed(data[3 * j] as nat + 256 * (data[3 * j + 1] as nat % 16), 2048)
    ensures 3 * j + 2 < |data| ==> Sample(data, 2 * j + 1, 12) == Signed(data[3 * j + 1] as nat / 16 + 16 * data[3 * j + 2] as nat, 2048)
  {
    hide Field;
    if 3 * j + 1 < |data| {
      Field12(data, 3 * j, 0);
      assert 2 * j * 12 == 8 * (3 * j) + 0;
      LowTwelve(data[3 * j], data[3 * j + 1]);
      SignedIs(Field(data, 24 * j, 12), 12);
    }
    if 3 * j + 2 < |data| {
      Field12(data, 3 * j + 1, 4);
      assert (2 * j + 1) * 12 == 8 * (3 * j + 1) + 4;
      HighTwelve(data[3 * j + 1], data[3 * j + 2]);
      SignedIs(Field(data, 24 * j + 12, 12), 12);
    }
  }

  lemma LowTwelve(d0: Byte, d1: Byte)
    ensures Slice(Low16(d0, d1), 0, 12) == d0 as nat + 256 * (d1 as nat % 16)
  {
    Powers();
    hide Pow2;
    var k, r := d1 as nat / 16, d1 as nat % 16;
    assert d1 as nat == 16 * k + r;
    DivUnique(Low16(d0, d1), 4096, k, d0 as nat + 256 * r);
  }

  lemma HighTwelve(d0: Byte, d1: Byte)
    ensures Slice(Low16(d0, d1), 4, 12) == d0 as nat / 16 + 16 * d1 as nat
  {
    Powers();
    hide Pow2;
    var q, r := d0 as nat / 16, d0 as nat % 16;
    assert d0 as nat == 16 * q + r && q < 16;
    DivUnique(Low16(d0, d1), 16, q + 16 * d1 as nat, r);
    DivUnique(q + 16 * d1 as nat, 4096, 0, q + 16 * d1 as nat);
  }

  /** Fourteen-bit samples come in fours of seven bytes. */
  lemma Sample14Is(data: seq<Byte>, j: nat)
    ensures 7 * j + 1 < |data| ==> Sample(data, 4 * j, 14) == Signed(data[7 * j] as nat + 256 * (data[7 * j + 1] as nat % 64), 8192)
    ensures 7 * j + 3 < |data| ==>
      Sample(data, 4 * j + 1, 14) == Signed(data[7 * j + 1] as nat / 64 + 4 * data[7 * j + 2] as nat + 1024 * (data[7 * j + 3] as nat % 16), 8192)
    ensures 7 * j + 5 < |data| ==>
      Sample(data, 4 * j + 2, 14) == Signed(data[7 * j + 3] as nat / 16 + 16 * data[7 * j + 4] as nat + 4096 * (data[7 * j + 5] as nat % 4), 8192)
    ensures 7 * j + 6 < |data| ==> Sample(data, 4 * j + 3, 14) == Signed(data[7 * j + 5] as nat / 4 + 64 * data[7 * j + 6] as nat, 8192)
  {
    hide Sample, Signed;
    if 7 * j + 1 < |data| { Aligned14(data, 7 * j, 4 * j, 0); }
    if 7 * j + 3 < |data| { Spread14(data, 7 * j + 1, 4 * j + 1, 6); }
    if 7 * j + 5 < |data| { Spread14(data, 7 * j + 3, 4 * j + 2, 4); }
    if 7 * j + 6 < |data| { Aligned14(data, 7 * j + 5, 4 * j + 3, 2); }
  }

  lemma Aligned14(data: seq<Byte>, q: nat, i: nat, offset: nat)
    requires (offset == 0 || offset == 2) && q + 1 < |data| && i * 14 == 8 * q + offset
    ensures Sample(data, i, 14) == Signed(if offset == 0 then data[q] as nat + 256 * (data[q + 1] as nat % 64) else data[q] as nat / 4 + 64 * data[q + 1] as nat, 8192)
  {
    Field14(data, q, offset);
    SignedIs(Field(data, 8 * q + offset, 14), 14);
    hide Field, SignExtend;
    TwoFourteen(data[q], data[q + 1], offset);
  }

  lemma TwoFourteen(d0: Byte, d1: Byte, offset: nat)
    requires offset == 0 || offset == 2
    ensures Slice(Low16(d0, d1), offset, 14) == if offset == 0 then d0 as nat + 256 * (d1 as nat % 64) else d0 as nat / 4 + 64 * d1 as nat
  {
    if offset == 0 { LowFourteen(d0, d1); } else { HighFourteen(d0, d1); }
    hide *;
  }

  lemma LowFourteen(d0: Byte, d1: Byte)
    ensures Slice(Low16(d0, d1), 0, 14) == d0 as nat + 256 * (d1 as nat % 64)
  {
    Powers();
    hide Pow2;
    var k, r := d1 as nat / 64, d1 as nat % 64;
    assert d1 as nat == 64 * k + r;
    DivUnique(Low16(d0, d1), 16384, k, d0 as nat + 256 * r);
  }

  lemma HighFourteen(d0: Byte, d1: Byte)
    ensures Slice(Low16(d0, d1), 2, 14) == d0 as nat / 4 + 64 * d1 as nat
  {
    Powers();
    hide Pow2;
    var q, r := d0 as nat / 4, d0 as nat % 4;
    assert d0 as nat == 4 * q + r && q < 64;
    DivUnique(Low16(d0, d1), 4, q + 64 * d1 as nat, r);
    DivUnique(q + 64 * d1 as nat, 16384, 0, q + 64 * d1 as nat);
  }

  lemma Spread14(data: seq<Byte>, q: nat, i: nat, offset: nat)
    requires (offset == 4 || offset == 6) && q + 2 < |data| && i * 14 == 8 * q + offset
    ensures Sample(data, i, 14) ==
      Signed(if offset == 6 then data[q] as nat / 64 + 4 * data[q + 1] as nat + 1024 * (data[q + 2] as nat % 16)
             else data[q] as nat / 16 + 16 * data[q + 1] as nat + 4096 * (data[q + 2] as nat % 4), 8192)
  {
    Field14(data, q, offset);
    SignedIs(Field(data, 8 * q + offset, 14), 14);
    hide Field, SignExtend;
    ThreeFourteen(data[q], data[q + 1], data[q + 2], offset);
  }

  lemma ThreeFourteen(d0: Byte, d1: Byte, d2: Byte, offset: nat)
    requires offset == 4 || offset == 6
    ensures (Low16(d0, d1) / Pow2(offset) + d2 as nat * Pow2(16 - offset)) % WORD % Pow2(14)
      == if offset == 6 then d0 as nat / 64 + 4 * d1 as nat + 1024 * (d2 as nat % 16) else d0 as nat / 16 + 16 * d1 as nat + 4096 * (d2 as nat % 4)
  {
    Powers();
    hide Pow2;
    var low, p := if offset == 6 then d0 as nat / 64 + 4 * d1 as nat else d0 as nat / 16 + 16 * d1 as nat, if offset == 6 then 1024 else 4096;
    LowShifted(d0, d1, offset);
    CutTwice(low + d2 as nat * p);
    CutHigh(low, d2, p, if offset == 6 then 16 else 4);
  }

  lemma LowShifted(d0: Byte, d1: Byte, offset: nat)
    requires offset == 4 || offset == 6
    ensures Low16(d0, d1) / Pow2(offset) == if offset == 6 then d0 as nat / 64 + 4 * d1 as nat else d0 as nat / 16 + 16 * d1 as nat
  {
    Powers();
    hide Pow2;
  }

  lemma CutHigh(low: nat, d2: Byte, p: nat, q: nat)
    requires low < p && ((p == 1024 && q == 16) || (p == 4096 && q == 4))
    ensures (low + d2 as nat * p) % 16384 == low + p * (d2 as nat % q)
  {
    var k, r := d2 as nat / q, d2 as nat % q;
    assert d2 as nat == q * k + r;
    DivUnique(low + d2 as nat * p, 16384, k, low + p * r);
  }
}
