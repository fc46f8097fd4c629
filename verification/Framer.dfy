/** The framer: header checks, per-channel offsets and the 12-, 14- and 16-bit sample extractors. */
module Framer {
  import opened Bits
  import opened BitFields
  import opened Dft
  import opened Ints

  // ---------------------------------------------------------------- 16-bit arithmetic

  const WORD := 65536

  /** a >> k. */
  function Shr(a: nat, k: nat): nat { QuotientNonNegative(a, Pow2(k)); a / Pow2(k) }

  /** a << k in sixteen bits. */
  function Shl(a: nat, k: nat): nat { a * Pow2(k) % WORD }

  /** int16(a). */
  function ToSigned(a: nat): int { if a >= 32768 then a - WORD else a }

  lemma Powers()
    ensures Pow2(0) == 1 && Pow2(2) == 4 && Pow2(4) == 16 && Pow2(6) == 64 && Pow2(8) == 256 && Pow2(10) == 1024
    ensures Pow2(11) == 2048 && Pow2(12) == 4096 && Pow2(13) == 8192 && Pow2(14) == 16384 && Pow2(15) == 32768 && Pow2(16) == 65536
  {
    assert Pow2(3) == 8 && Pow2(5) == 32 && Pow2(7) == 128 && Pow2(9) == 512;
  }

  /** Two bytes, shifted down by `offset` and merged. */
  lemma MergeTwo(d0: Byte, d1: Byte, offset: nat)
    requires offset == 0 || offset == 2 || offset == 4 || offset == 6
    ensures BitOr(Shr(d0, offset), Shl(d1, 8 - offset)) == Low16(d0, d1) / Pow2(offset)
  {
    Powers();
    hide BitOr, Pow2;
    ShiftedIn(d0, d1, offset);
    OrDisjoint(Shr(d0, offset), d1, 8 - offset);
  }

  lemma ShiftedIn(d0: Byte, d1: Byte, offset: nat)
    requires offset == 0 || offset == 2 || offset == 4 || offset == 6
    ensures Shr(d0, offset) < Pow2(8 - offset) && Shl(d1, 8 - offset) == d1 * Pow2(8 - offset)
    ensures Shr(d0, offset) + d1 * Pow2(8 - offset) == Low16(d0, d1) / Pow2(offset)
  {
    Powers();
    hide Pow2;
  }

  /** A third byte merged on top; what does not fit into sixteen bits is cut off. */
  lemma MergeThird(low: nat, d2: Byte, offset: nat)
    requires (offset == 4 || offset == 6) && low < Pow2(16 - offset)
    ensures BitOr(low, Shl(d2, 16 - offset)) == (low + d2 as nat * Pow2(16 - offset)) % WORD
  {
    Powers();
    hide BitOr, Pow2;
    var p, q := Pow2(16 - offset), Pow2(offset);
    CutHighDigit(low, d2, p, q);
    CutHighDigit(0, d2, p, q);
    OrDisjoint(low, d2 % q, 16 - offset);
  }

  /** Masking to w bits and filling the upper bits when the sign bit is set reads the field as signed. */
  lemma MaskAndExtend(x: nat, w: nat)
    requires w == 12 || w == 14
    ensures var s := BitAnd(x, Pow2(w) - 1);
      ToSigned(if BitAnd(s, Pow2(w - 1)) != 0 then BitOr(s, WORD - Pow2(w)) else s) == SignExtend(x % Pow2(w), w)
  {
    Powers();
    AndMask(x, w);
    var s := x % Pow2(w);
    SignBit(s, w);
    hide BitAnd, BitOr, Pow2;
    if s >= Pow2(w - 1) {
      var ones := if w == 12 then 15 else 3;
      OrDisjoint(s, ones, w);
    }
  }

  /** The sign bit test: s & 2^(w-1) is non-zero exactly when s reaches 2^(w-1). */
  lemma {:induction false} SignBit(s: nat, w: nat)
    requires w > 0 && s < Pow2(w)
    ensures BitAnd(s, Pow2(w - 1)) != 0 <==> s >= Pow2(w - 1)
  {
    if w > 1 {
      SignBit(s / 2, w - 1);
      AndEven(s, Pow2(w - 2));
    } else {
      assert s == 0 || s == 1;
      assert BitAnd(1, 1) == 1;
    }
  }

  lemma AndEven(s: nat, m: nat)
    ensures BitAnd(s, 2 * m) == 2 * BitAnd(s / 2, m)
  {
    if s == 0 || m == 0 { assert BitAnd(s / 2, m) == 0; }
  }

  // ---------------------------------------------------------------- the low bytes of a tail

  function Low16(d0: Byte, d1: Byte): nat { d0 as nat + 256 * d1 as nat }

  lemma TwoBytes(data: seq<Byte>) returns (h: nat)
    requires |data| >= 2
    ensures Value(data) == Low16(data[0], data[1]) + WORD * h
  {
    assert Value(data) == data[0] as nat + 256 * Value(data[1..]);
    assert Value(data[1..]) == data[1] as nat + 256 * Value(data[1..][1..]);
    h := Value(data[1..][1..]);
  }

  lemma ThreeBytes(data: seq<Byte>) returns (h: nat)
    requires |data| >= 3
    ensures Value(data) == Low16(data[0], data[1]) + WORD * (data[2] as nat + 256 * h)
  {
    assert Value(data) == data[0] as nat + 256 * Value(data[1..]);
    assert Value(data[1..]) == data[1] as nat + 256 * Value(data[1..][1..]);
    assert Value(data[1..][1..]) == data[2] as nat + 256 * Value(data[1..][1..][1..]);
    h := Value(data[1..][1..][1..]);
  }

  /** Adding a multiple of p * m changes neither the quotient by p modulo m. */
  lemma HighPartDrops(x: nat, p: nat, m: nat, k: nat, y: nat)
    requires p > 0 && m > 0 && y == x + p * (m * k)
    ensures y / p % m == x / p % m
  {
    var a, r := x / p, x % p;
    assert x == a * p + r;
    assert y == (a + m * k) * p + r;
    DivUnique(y, p, a + m * k, r);
    var c, d := a / m, a % m;
    assert a == c * m + d;
    assert a + m * k == (c + k) * m + d;
    DivUnique(a + m * k, m, c + k, d);
  }

  /** What lies above the two low bytes does not reach the field. */
  lemma LowPart(x: nat, h: nat, offset: nat, w: nat)
    requires (w == 12 && (offset == 0 || offset == 4)) || (w == 14 && (offset == 0 || offset == 2)) || (w == 16 && offset == 0)
    ensures Slice(x + WORD * h, offset, w) == Slice(x, offset, w)
  {
    Powers();
    hide Pow2;
    var k := if offset > 0 || w == 16 then h else if w == 12 then 16 * h else 4 * h;
    HighPartDrops(x, Pow2(offset), Pow2(w), k, x + WORD * h);
  }

  lemma ShiftedSum(x: nat, d2: nat, offset: nat)
    requires offset == 4 || offset == 6
    ensures (x + WORD * d2) / Pow2(offset) == x / Pow2(offset) + d2 * Pow2(16 - offset)
  {
    Powers();
    hide Pow2;
  }

  lemma CutTwice(x: nat)
    ensures x % WORD % 16384 == x % 16384
  {}

  /** Nor does what lies above the third byte, or what is cut off from it. */
  lemma LowPart3(x: nat, d2: Byte, h: nat, offset: nat)
    requires offset == 4 || offset == 6
    ensures Slice(x + WORD * (d2 as nat + 256 * h), offset, 14) == (x / Pow2(offset) + d2 as nat * Pow2(16 - offset)) % WORD % Pow2(14)
  {
    var low := x + WORD * d2 as nat;
    Powers();
    ShiftedSum(x, d2, offset);
    CutTwice(x / Pow2(offset) + d2 as nat * Pow2(16 - offset));
    hide Pow2;
    HighPartDrops(low, Pow2(offset), Pow2(14), if offset == 4 then 64 * h else 16 * h, x + WORD * (d2 as nat + 256 * h));
  }

  // ---------------------------------------------------------------- the extractors

  /** How many samples are written: as many as asked for, as far as the data reaches. */
  function Written(data: seq<Byte>, count: nat, w: nat): nat
    requires w > 0
  {
    if 8 * |data| / w < count then 8 * |data| / w else count
  }

  /** The first n cells hold the samples of the stream, the others are as before. */
  ghost predicate Extracted(now: seq<int>, before: seq<int>, data: seq<Byte>, n: nat, w: nat) {
    && w > 0 && |now| == |before|
    && forall i: nat :: i < |now| ==> now[i] == if i < n then Sample(data, i, w) else before[i]
  }

  lemma Enough(i: nat, w: nat, len: nat, count: nat, data: seq<Byte>)
    requires w > 0 && len == 8 * |data|
    ensures i <= Written(data, count, w) && !(i < count && i * w + w <= len) ==> i == Written(data, count, w)
    ensures i < count && i * w + w <= len ==> i < Written(data, count, w)
  {
    QuotientIs(i, w, len);
  }

  lemma NothingWritten(data: seq<Byte>, count: nat, w: nat)
    requires w > 0
    ensures 0 <= Written(data, count, w) <= count
  {}

  lemma QuotientIs(i: nat, w: nat, len: nat)
    requires w > 0
    ensures i * w + w <= len <==> i < len / w
  {
    assert len == len / w * w + len % w;
    if i < len / w { ProductMonotone(i + 1, len / w, w); } else { ProductMonotone(len / w, i, w); }
  }

  /** Twelve-bit samples start at the beginning or in the middle of a byte. */
  lemma Offset12(i: nat)
    ensures (12 * i) % 8 == 0 || (12 * i) % 8 == 4
  {
    var j, e := i / 2, i % 2;
    DivUnique(12 * i, 8, 3 * j + e, 4 * e);
  }

  /** Fourteen-bit samples start at an even bit of a byte. */
  lemma Offset14(i: nat)
    ensures (14 * i) % 8 == 0 || (14 * i) % 8 == 2 || (14 * i) % 8 == 4 || (14 * i) % 8 == 6
  {
    var j, e := i / 4, i % 4;
    var r := if e == 0 then 0 else 8 - 2 * e;
    DivUnique(14 * i, 8, 7 * j + 2 * e - (if e == 0 then 0 else 1), r);
  }

  lemma Field12(data: seq<Byte>, q: nat, offset: nat)
    requires (offset == 0 || offset == 4) && 8 * q + offset + 12 <= 8 * |data|
    ensures q + 1 < |data|
    ensures Slice(Low16(data[q], data[q + 1]), offset, 12) == Field(data, 8 * q + offset, 12)
  {
    hide Pow2, Value, Low16, Slice;
    FieldOfTail(data, q, offset, 12);
    var h := TwoBytes(data[q..]);
    LowPart(Low16(data[q], data[q + 1]), h, offset, 12);
  }

  lemma Field14(data: seq<Byte>, q: nat, offset: nat)
    requires (offset == 0 || offset == 2 || offset == 4 || offset == 6) && 8 * q + offset + 14 <= 8 * |data|
    ensures q + 1 < |data| && (offset > 2 ==> q + 2 < |data|)
    ensures if offset <= 2 then Slice(Low16(data[q], data[q + 1]), offset, 14) == Field(data, 8 * q + offset, 14)
            else (Low16(data[q], data[q + 1]) / Pow2(offset) + data[q + 2] as nat * Pow2(16 - offset)) % WORD % Pow2(14)
                 == Field(data, 8 * q + offset, 14)
  {
    hide Pow2, Value, Low16, Slice;
    FieldOfTail(data, q, offset, 14);
    if offset <= 2 {
      var h := TwoBytes(data[q..]);
      LowPart(Low16(data[q], data[q + 1]), h, offset, 14);
    } else {
      var h := ThreeBytes(data[q..]);
      LowPart3(Low16(data[q], data[q + 1]), data[q + 2], h, offset);
    }
  }

  method Extract12BitSamples(data: seq<Byte>, samples: array<int>, count: nat)
    requires Written(data, count, 12) <= samples.Length
    modifies samples
    ensures Extracted(samples[..], old(samples[..]), data, Written(data, count, 12), 12)
  {
    hide Sample, BitOr, BitAnd, Pow2, Written, Field, SignExtend, Extracted;
    ExtractStart(samples[..], data, 12);
    NothingWritten(data, count, 12);
    var bitIdx, i := 0, 0;
    while i < count && bitIdx + 12 <= |data| * 8
      invariant bitIdx == i * 12 && i <= Written(data, count, 12)
      invariant Extracted(samples[..], old(samples[..]), data, i, 12)
      decreases count - i
    {
      Enough(i, 12, 8 * |data|, count, data);
      ghost var now := samples[..];
      var sample := Read12(data, bitIdx, i);
      samples[i] := sample;
      ExtractStep(samples[..], now, old(samples[..]), data, i, 12, sample);
      bitIdx := bitIdx + 12;
      i := i + 1;
    }
    Enough(i, 12, 8 * |data|, count, data);
  }

  lemma SampleIs(data: seq<Byte>, i: nat, w: nat)
    requires w > 0
    ensures Sample(data, i, w) == SignExtend(Field(data, i * w, w), w)
  {}

  lemma ExtractStart(before: seq<int>, data: seq<Byte>, w: nat)
    requires w > 0
    ensures Extracted(before, before, data, 0, w)
  {}

  lemma ExtractStep(next: seq<int>, now: seq<int>, before: seq<int>, data: seq<Byte>, i: nat, w: nat, sample: int)
    requires Extracted(now, before, data, i, w) && i < |now| && next == now[i := sample]
    requires sample == SignExtend(Field(data, i * w, w), w)
    ensures Extracted(next, before, data, i + 1, w)
  {
    hide Sample, Field, SignExtend;
    SampleIs(data, i, w);
  }

  /** One 12-bit sample. Offsets are 0 or 4, so the three-byte branch of the source is never taken. */
  method Read12(data: seq<Byte>, bitIdx: nat, ghost i: nat) returns (r: int)
    requires bitIdx == 12 * i && bitIdx + 12 <= 8 * |data|
    ensures r == SignExtend(Field(data, bitIdx, 12), 12)
  {
    hide BitOr, BitAnd, Pow2, Field;
    var byteIdx, bitOffset := bitIdx / 8, bitIdx % 8;
    Offset12(i);
    Field12(data, byteIdx, bitOffset);
    MergeTwo(data[byteIdx], data[byteIdx + 1], bitOffset);
    var sample := BitOr(Shr(data[byteIdx], bitOffset), Shl(data[byteIdx + 1], 8 - bitOffset));
    MaskAndExtend(sample, 12);
    Powers();
    sample := BitAnd(sample, 0x0FFF);
    if BitAnd(sample, 0x0800) != 0 { sample := BitOr(sample, 0xF000); }
    r := ToSigned(sample);
  }

  method Extract14BitSamples(data: seq<Byte>, samples: array<int>, count: nat)
    requires Written(data, count, 14) <= samples.Length
    modifies samples
    ensures Extracted(samples[..], old(samples[..]), data, Written(data, count, 14), 14)
  {
    hide Sample, BitOr, BitAnd, Pow2, Written, Field, SignExtend, Extracted;
    ExtractStart(samples[..], data, 14);
    NothingWritten(data, count, 14);
    var bitIdx, i := 0, 0;
    while i < count && bitIdx + 14 <= |data| * 8
      invariant bitIdx == i * 14 && i <= Written(data, count, 14)
      invariant Extracted(samples[..], old(samples[..]), data, i, 14)
      decreases count - i
    {
      Enough(i, 14, 8 * |data|, count, data);
      ghost var now := samples[..];
      var sample := Read14(data, bitIdx, i);
      samples[i] := sample;
      ExtractStep(samples[..], now, old(samples[..]), data, i, 14, sample);
      bitIdx := bitIdx + 14;
      i := i + 1;
    }
    Enough(i, 14, 8 * |data|, count, data);
  }

  /** One 14-bit sample from two or three bytes. */
  method Read14(data: seq<Byte>, bitIdx: nat, ghost i: nat) returns (r: int)
    requires bitIdx == 14 * i && bitIdx + 14 <= 8 * |data|
    ensures r == SignExtend(Field(data, bitIdx, 14), 14)
  {
    hide BitOr, BitAnd, Pow2, Field;
    var byteIdx, bitOffset := bitIdx / 8, bitIdx % 8;
    Offset14(i);
    Field14(data, byteIdx, bitOffset);
    MergeTwo(data[byteIdx], data[byteIdx + 1], bitOffset);
    var sample := BitOr(Shr(data[byteIdx], bitOffset), Shl(data[byteIdx + 1], 8 - bitOffset));
    if bitOffset > 2 {
      TwoBelow(data[byteIdx], data[byteIdx + 1], bitOffset);
      MergeThird(sample, data[byteIdx + 2], bitOffset);
      sample := BitOr(sample, Shl(data[byteIdx + 2], 16 - bitOffset));
    }
    MaskAndExtend(sample, 14);
    Powers();
    sample := BitAnd(sample, 0x3FFF);
    if BitAnd(sample, 0x2000) != 0 { sample := BitOr(sample, 0xC000); }
    r := ToSigned(sample);
  }

  lemma TwoBelow(d0: Byte, d1: Byte, offset: nat)
    requires offset == 4 || offset == 6
    ensures Low16(d0, d1) / Pow2(offset) < Pow2(16 - offset)
  {
    Powers();
    hide Pow2;
  }

  lemma SixteenBits(x: nat)
    requires x < WORD
    ensures ToSigned(x) == SignExtend(Slice(x, 0, 16), 16)
  {
    Powers();
    hide Pow2;
  }

  lemma Field16(data: seq<Byte>, i: nat)
    requires 2 * i + 1 < |data|
    ensures ToSigned(Low16(data[2 * i], data[2 * i + 1])) == Sample(data, i, 16)
  {
    FieldOfTail(data, 2 * i, 0, 16);
    var h := TwoBytes(data[2 * i..]);
    LowPart(Low16(data[2 * i], data[2 * i + 1]), h, 0, 16);
    SixteenBits(Low16(data[2 * i], data[2 * i + 1]));
    hide Pow2, Value, Slice, Low16, SignExtend;
  }

  method Extract16BitSamples(data: seq<Byte>, samples: array<int>, count: nat)
    requires Written(data, count, 16) <= samples.Length
    modifies samples
    ensures Extracted(samples[..], old(samples[..]), data, Written(data, count, 16), 16)
  {
    hide Sample, Pow2, Written, Field, SignExtend, Extracted, Low16;
    ExtractStart(samples[..], data, 16);
    NothingWritten(data, count, 16);
    var i := 0;
    while i < count && (i + 1) * 2 <= |data|
      invariant i <= Written(data, count, 16)
      invariant Extracted(samples[..], old(samples[..]), data, i, 16)
      decreases count - i
    {
      Enough(i, 16, 8 * |data|, count, data);
      Field16(data, i);
      ghost var now := samples[..];
      var sample := ToSigned(Low16(data[2 * i], data[2 * i + 1]));
      samples[i] := sample;
      SampleIs(data, i, 16);
      ExtractStep(samples[..], now, old(samples[..]), data, i, 16, sample);
      i := i + 1;
    }
    Enough(i, 16, 8 * |data|, count, data);
  }

  // ---------------------------------------------------------------- frames

  datatype Config = Config(adcBits: nat, samplesPerChirp: nat, chirpsPerFrame: nat, rxChannels: nat, headerSize: nat)

  datatype ParseResult = Parsed(frameNumber: nat) | InvalidFrameSize | InvalidHeader | FrameIncomplete

  const MAGIC := 0x52414452

  /** The width of the extractor the switch selects. */
  function Width(cfg: Config): nat { if cfg.adcBits == 12 then 12 else if cfg.adcBits == 14 then 14 else 16 }

  function PerChannel(cfg: Config): nat { cfg.samplesPerChirp * cfg.chirpsPerFrame }

  function ExpectedSize(cfg: Config): nat {
    cfg.headerSize + cfg.rxChannels * cfg.chirpsPerFrame * cfg.samplesPerChirp * cfg.adcBits / 8
  }

  function ChannelOffset(cfg: Config, ch: nat): nat { cfg.headerSize + ch * PerChannel(cfg) * cfg.adcBits / 8 }

  function ValidHeader(header: seq<Byte>): bool { |header| >= 8 && Value(header[..4]) == MAGIC }

  /** The verdict on a frame, in the order the checks are made. */
  function Verdict(cfg: Config, data: seq<Byte>): ParseResult {
    if |data| < cfg.headerSize then InvalidFrameSize
    else if !ValidHeader(data[..cfg.headerSize]) then InvalidHeader
    else if |data| < ExpectedSize(cfg) then FrameIncomplete
    else Parsed(0)
  }

  lemma OffsetInFrame(cfg: Config, ch: nat)
    requires ch <= cfg.rxChannels
    ensures ChannelOffset(cfg, ch) <= ExpectedSize(cfg)
  {
    hide ExpectedSize, ChannelOffset;
    SizeIs(cfg);
    OffsetIs(cfg, ch);
    ProductMonotone(ch, cfg.rxChannels, PerChannel(cfg) * cfg.adcBits);
    Halves(ch * (PerChannel(cfg) * cfg.adcBits), cfg.rxChannels * (PerChannel(cfg) * cfg.adcBits));
  }

  lemma Halves(a: nat, b: nat)
    requires a <= b
    ensures a / 8 <= b / 8
  {}

  lemma SizeIs(cfg: Config)
    ensures ExpectedSize(cfg) == cfg.headerSize + cfg.rxChannels * (PerChannel(cfg) * cfg.adcBits) / 8
  {
    assert cfg.rxChannels * cfg.chirpsPerFrame * cfg.samplesPerChirp == cfg.rxChannels * PerChannel(cfg);
    Reassociate(cfg.rxChannels, PerChannel(cfg), cfg.adcBits);
  }

  lemma OffsetIs(cfg: Config, ch: nat)
    ensures ChannelOffset(cfg, ch) == cfg.headerSize + ch * (PerChannel(cfg) * cfg.adcBits) / 8
  {
    Reassociate(ch, PerChannel(cfg), cfg.adcBits);
  }

  lemma Reassociate(a: nat, b: nat, c: nat)
    ensures a * b * c == a * (b * c)
  {}

  /** Row ch holds the samples of the stream that starts at the channel's offset, as far as the frame reaches. */
  ghost predicate RowDone(now: seq<int>, before: seq<int>, data: seq<Byte>, cfg: Config, ch: nat) {
    && ChannelOffset(cfg, ch) <= |data|
    && Extracted(now, before, data[ChannelOffset(cfg, ch)..], Written(data[ChannelOffset(cfg, ch)..], PerChannel(cfg), Width(cfg)), Width(cfg))
  }

  /** Every channel has a row, long enough for what the frame holds of it. */
  ghost predicate FitsRows(cfg: Config, data: seq<Byte>, rows: seq<array<int>>) {
    && cfg.rxChannels <= |rows|
    && forall ch: nat :: ch < cfg.rxChannels && ChannelOffset(cfg, ch) <= |data| ==>
         Written(data[ChannelOffset(cfg, ch)..], PerChannel(cfg), Width(cfg)) <= rows[ch].Length
  }

  lemma EnoughRows(cfg: Config, data: seq<Byte>, rows: seq<array<int>>)
    requires FitsRows(cfg, data, rows)
    ensures cfg.rxChannels <= |rows|
  {}

  lemma RowIsLong(cfg: Config, data: seq<Byte>, rows: seq<array<int>>, ch: nat)
    requires FitsRows(cfg, data, rows) && ch < cfg.rxChannels && ChannelOffset(cfg, ch) <= |data|
    ensures Written(data[ChannelOffset(cfg, ch)..], PerChannel(cfg), Width(cfg)) <= rows[ch].Length
  {}

  class Framer {
    const cfg: Config
    var frameNum: nat

    constructor (cfg: Config)
      ensures this.cfg == cfg && frameNum == 0
    {
      this.cfg, frameNum := cfg, 0;
    }

    /**
     Parses one datagram of the given length into the pooled rows and header. The rows of an accepted
     frame must be long enough for all samples it holds of a channel; the pool's own rows hold one chirp.
     */
    method ParseFrame(buffer: seq<Byte>, length: nat, rows: seq<array<int>>, header: array<Byte>) returns (r: ParseResult)
      requires length <= |buffer| && (Verdict(cfg, buffer[..length]).Parsed? ==> FitsRows(cfg, buffer[..length], rows))
      requires forall a: nat, b: nat :: a < b < |rows| ==> rows[a] != rows[b]
      modifies this, header, rows
      ensures var verdict := Verdict(cfg, buffer[..length]);
        r == if verdict.Parsed? then Parsed(old(frameNum) + 1) else verdict
      ensures frameNum == if r.Parsed? then old(frameNum) + 1 else old(frameNum)
      ensures !r.Parsed? ==> unchanged(header) && forall ch: nat :: ch < |rows| ==> rows[ch][..] == old(rows[ch][..])
      ensures r.Parsed? ==> cfg.rxChannels <= |rows|
      ensures r.Parsed? ==> forall ch: nat :: ch < |rows| ==>
        if ch < cfg.rxChannels then RowDone(rows[ch][..], old(rows[ch][..]), buffer[..length], cfg, ch) else rows[ch][..] == old(rows[ch][..])
      ensures r.Parsed? ==> forall p: nat :: p < header.Length ==> header[p] == if p < cfg.headerSize then buffer[p] else old(header[p])
    {
      hide Extracted, Written, PerChannel, ValidHeader, ExpectedSize, ChannelOffset, FitsRows;
      if length < cfg.headerSize { return InvalidFrameSize; }
      var data := buffer[..length];
      if !ValidHeader(data[..cfg.headerSize]) { return InvalidHeader; }
      if length < ExpectedSize(cfg) { return FrameIncomplete; }
      frameNum := frameNum + 1;
      r := Parsed(frameNum);
      CopyHeader(header, data);
      EnoughRows(cfg, data, rows);
      var ch := 0;
      while ch < cfg.rxChannels
        invariant ch <= cfg.rxChannels && frameNum == old(frameNum) + 1
        invariant forall c: nat :: c < ch ==> RowDone(rows[c][..], old(rows[c][..]), data, cfg, c)
        invariant forall c: nat :: ch <= c < |rows| ==> rows[c][..] == old(rows[c][..])
        invariant forall p: nat :: p < header.Length ==> header[p] == if p < cfg.headerSize then buffer[p] else old(header[p])
      {
        OffsetInFrame(cfg, ch);
        RowIsLong(cfg, data, rows, ch);
        var tail := data[ChannelOffset(cfg, ch)..];
        if cfg.adcBits == 12 {
          Extract12BitSamples(tail, rows[ch], PerChannel(cfg));
        } else if cfg.adcBits == 14 {
          Extract14BitSamples(tail, rows[ch], PerChannel(cfg));
        } else {
          Extract16BitSamples(tail, rows[ch], PerChannel(cfg));
        }
        ch := ch + 1;
      }
    }

    method CopyHeader(header: array<Byte>, data: seq<Byte>)
      requires cfg.headerSize <= |data|
      modifies header
      ensures forall p: nat :: p < header.Length ==> header[p] == if p < cfg.headerSize then data[p] else old(header[p])
    {
      var n := if header.Length < cfg.headerSize then header.Length else cfg.headerSize;
      for i := 0 to n
        invariant forall p: nat :: p < header.Length ==> header[p] == if p < i then data[p] else old(header[p])
      {
        header[i] := data[i];
      }
    }
  }

  // ---------------------------------------------------------------- when the channels are read exactly

  /** Bits in one channel. */
  function ChannelBits(cfg: Config): nat { PerChannel(cfg) * cfg.adcBits }

  /** Every channel starts at its own first bit, and a frame of the smallest accepted size reaches its last. */
  ghost predicate ExactLayout(cfg: Config) {
    forall ch: nat :: ch < cfg.rxChannels ==>
      8 * (ChannelOffset(cfg, ch) - cfg.headerSize) == ch * ChannelBits(cfg)
      && 8 * (ExpectedSize(cfg) - ChannelOffset(cfg, ch)) >= ChannelBits(cfg)
  }

  lemma MultipleOf8(m: nat, x: nat)
    requires x % 8 == 0
    ensures 8 * (m * x / 8) == m * x
  {
    var k := x / 8;
    assert m * x == 8 * (m * k);
  }

  /** The integer division in the offsets is harmless exactly when a channel is a whole number of bytes. */
  lemma ExactLayoutExactly(cfg: Config)
    ensures ExactLayout(cfg) <==> cfg.rxChannels == 0 || ChannelBits(cfg) % 8 == 0
  {
    hide ExpectedSize, ChannelOffset, PerChannel, ChannelBits;
    var x, n := ChannelBits(cfg), cfg.rxChannels;
    BitsAre(cfg);
    SizeIs(cfg);
    if n > 0 && x % 8 != 0 {
      OffsetIs(cfg, 0);
      if n == 1 {
        assert 1 * x == x;
      } else {
        OffsetIs(cfg, 1);
        assert 1 * x == x;
      }
    }
    if x % 8 == 0 {
      forall ch: nat | ch < n
        ensures 8 * (ChannelOffset(cfg, ch) - cfg.headerSize) == ch * x && 8 * (ExpectedSize(cfg) - ChannelOffset(cfg, ch)) >= x
      {
        OffsetIs(cfg, ch);
        MultipleOf8(ch, x);
        MultipleOf8(n, x);
        ProductMonotone(ch + 1, n, x);
        NextMultiple(ch, x);
      }
    }
  }

  lemma BitsAre(cfg: Config)
    ensures ChannelBits(cfg) == PerChannel(cfg) * cfg.adcBits
  {}

  /**
   With whole-byte channels and a supported width, an accepted frame is one packed stream: sample i of
   channel ch is sample ch * n + i of the payload, and all of them are written.
   */
  lemma ChannelIsExact(cfg: Config, data: seq<Byte>, ch: nat, i: nat)
    requires Verdict(cfg, data).Parsed? && Width(cfg) == cfg.adcBits && ChannelBits(cfg) % 8 == 0
    requires ch < cfg.rxChannels && i < PerChannel(cfg)
    ensures ChannelOffset(cfg, ch) <= |data| && Written(data[ChannelOffset(cfg, ch)..], PerChannel(cfg), Width(cfg)) == PerChannel(cfg)
    ensures Sample(data[ChannelOffset(cfg, ch)..], i, Width(cfg)) == Sample(data[cfg.headerSize..], ch * PerChannel(cfg) + i, Width(cfg))
  {
    hide ExpectedSize, ChannelOffset, PerChannel, ChannelBits, ValidHeader, Field, SignExtend;
    var w, n := Width(cfg), PerChannel(cfg);
    ExactLayoutExactly(cfg);
    OffsetInFrame(cfg, ch);
    BitsAre(cfg);
    var start := ChannelOffset(cfg, ch);
    QuotientIs(n - 1, w, 8 * (|data| - start));
    assert (n - 1) * w + w == n * w;
    OffsetAtLeast(cfg, ch);
    FieldOfTail(data[cfg.headerSize..], start - cfg.headerSize, i * w, w);
    assert data[cfg.headerSize..][start - cfg.headerSize..] == data[start..];
    Distribute(ch, n, i, w);
  }

  lemma OffsetAtLeast(cfg: Config, ch: nat)
    ensures ChannelOffset(cfg, ch) >= cfg.headerSize
  {
    OffsetIs(cfg, ch);
    hide PerChannel;
  }

  // ---------------------------------------------------------------- the rows of the pool

  /** The pool's frames have a row per chirp, each as long as a chirp; unset sizes have fallbacks. */
  function PoolRows(cfg: Config): nat { if cfg.chirpsPerFrame == 0 then 128 else cfg.chirpsPerFrame }

  function PoolCols(cfg: Config): nat { if cfg.samplesPerChirp == 0 then 256 else cfg.samplesPerChirp }

  /** Every channel of the frame has a row in the pool's frame, and no sample is stored past the end of it. */
  ghost predicate FitsPool(cfg: Config, data: seq<Byte>) {
    forall ch: nat :: ch < cfg.rxChannels && ChannelOffset(cfg, ch) <= |data| ==>
      ch < PoolRows(cfg) && Written(data[ChannelOffset(cfg, ch)..], PerChannel(cfg), Width(cfg)) <= PoolCols(cfg)
  }

  /** The pool's rows are long enough for ParseFrame exactly when the frame fits the pool. */
  lemma FitsPoolIsFitsRows(cfg: Config, data: seq<Byte>, rows: seq<array<int>>)
    requires Verdict(cfg, data).Parsed? && |rows| == PoolRows(cfg) && forall ch: nat :: ch < |rows| ==> rows[ch].Length == PoolCols(cfg)
    ensures FitsRows(cfg, data, rows) <==> FitsPool(cfg, data)
  {
    hide ExpectedSize, ChannelOffset, PerChannel, PoolRows, PoolCols, Written, ValidHeader;
    if FitsPool(cfg, data) && cfg.rxChannels > |rows| {
      OffsetInFrame(cfg, cfg.rxChannels - 1);
    }
  }

  lemma OneChirp(cfg: Config)
    ensures PerChannel(cfg) <= PoolCols(cfg) <==> cfg.samplesPerChirp == 0 || cfg.chirpsPerFrame <= 1
  {
    if cfg.chirpsPerFrame >= 2 { ProductMonotone(2, cfg.chirpsPerFrame, cfg.samplesPerChirp); }
  }

  lemma MagicBytes(data: seq<Byte>)
    requires |data| >= 4 && data[0] == 0x52 && data[1] == 0x44 && data[2] == 0x41 && data[3] == 0x52
    ensures Value(data[..4]) == MAGIC
  {
    var d := data[..4];
    assert d[1..][1..] == d[2..] && d[2..][1..] == d[3..] && d[3..][1..] == [];
    assert Value(d[3..]) == 0x52 && Value(d[2..]) == 0x41 + 256 * 0x52;
    assert Value(d[1..]) == 0x44 + 256 * (0x41 + 256 * 0x52);
  }

  /** An accepted datagram that is long enough for every sample of the first channel. */
  lemma LongFrame(cfg: Config) returns (data: seq<Byte>)
    requires cfg.headerSize >= 8
    ensures Verdict(cfg, data).Parsed? && ChannelOffset(cfg, 0) <= |data|
    ensures Written(data[ChannelOffset(cfg, 0)..], PerChannel(cfg), Width(cfg)) == PerChannel(cfg)
  {
    hide ExpectedSize, ChannelOffset, PerChannel, Value;
    var magic: seq<Byte> := [0x52, 0x44, 0x41, 0x52];
    var w, n := Width(cfg), PerChannel(cfg);
    var size := ExpectedSize(cfg) + w * n;
    OffsetInFrame(cfg, 0);
    OffsetAtLeast(cfg, 0);
    SizeIs(cfg);
    data := seq(size, (i: nat) => if i < 4 then magic[i] else 0);
    var header := data[..cfg.headerSize];
    MagicBytes(header);
    LongEnough(n, w, 8 * |data[ChannelOffset(cfg, 0)..]|);
  }

  lemma LongEnough(n: nat, w: nat, bits: nat)
    requires w > 0 && bits >= w * n
    ensures bits / w >= n
  {
    if n > 0 {
      QuotientIs(n - 1, w, bits);
      assert (n - 1) * w + w == w * n;
    }
  }

  /**
   No accepted frame overruns the pool's rows exactly when no frame can be accepted or has a channel, or
   there is a row for every channel and a channel is at most one chirp.
   */
  lemma PooledRowsFitExactly(cfg: Config)
    ensures (forall data: seq<Byte> :: Verdict(cfg, data).Parsed? ==> FitsPool(cfg, data))
       <==> cfg.headerSize < 8 || cfg.rxChannels == 0 || (cfg.rxChannels <= PoolRows(cfg) && (cfg.samplesPerChirp == 0 || cfg.chirpsPerFrame <= 1))
  {
    hide ExpectedSize, ChannelOffset, PerChannel, Value, PoolRows, PoolCols, FitsPool;
    OneChirp(cfg);
    if cfg.headerSize >= 8 && cfg.rxChannels > 0 {
      if cfg.rxChannels <= PoolRows(cfg) && PerChannel(cfg) <= PoolCols(cfg) {
        forall data: seq<Byte> { ShortRowsFit(cfg, data); }
      } else {
        var data := LongFrame(cfg);
        OffsetInFrame(cfg, cfg.rxChannels - 1);
        LongFrameOverruns(cfg, data);
      }
    } else {
      forall data: seq<Byte> | Verdict(cfg, data).Parsed?
        ensures FitsPool(cfg, data)
      {
        NoChannelFits(cfg, data);
      }
    }
  }

  lemma ShortRowsFit(cfg: Config, data: seq<Byte>)
    requires cfg.rxChannels <= PoolRows(cfg) && PerChannel(cfg) <= PoolCols(cfg)
    ensures FitsPool(cfg, data)
  {
    hide ChannelOffset, PerChannel, PoolRows, PoolCols;
  }

  lemma NoChannelFits(cfg: Config, data: seq<Byte>)
    requires Verdict(cfg, data).Parsed? && (cfg.headerSize < 8 || cfg.rxChannels == 0)
    ensures FitsPool(cfg, data)
  {}

  lemma LongFrameOverruns(cfg: Config, data: seq<Byte>)
    requires Verdict(cfg, data).Parsed? && cfg.rxChannels > 0 && ChannelOffset(cfg, 0) <= |data|
    requires ChannelOffset(cfg, cfg.rxChannels - 1) <= ExpectedSize(cfg)
    requires Written(data[ChannelOffset(cfg, 0)..], PerChannel(cfg), Width(cfg)) == PerChannel(cfg)
    requires cfg.rxChannels > PoolRows(cfg) || PerChannel(cfg) > PoolCols(cfg)
    ensures !FitsPool(cfg, data)
  {
    hide ExpectedSize, ChannelOffset, PerChannel, Value, PoolRows, PoolCols;
    var last := cfg.rxChannels - 1;
    assert ChannelOffset(cfg, last) <= |data|;
  }
}
