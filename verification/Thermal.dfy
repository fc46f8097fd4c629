/** Thermal deformation of a tank shell made of rings: wall temperatures, volume integration, hydrostatics. */
module Thermal {
  import opened Reals

  /** One shell ring and the readings of its wall sensors. */
  datatype Ring = Ring(height: real, radius: real, temps: seq<real>)

  /** pi, the expansion coefficient after its default, and the design temperature. */
  datatype Steel = Steel(pi: real, alpha: real, design: real)

  const LIMIT: real := 1e18

  predicate IsFinite(v: real) { -LIMIT <= v <= LIMIT }

  predicate Accepted(t: real) { IsFinite(t) && -60.0 < t < 150.0 }

  function Clamp(v: real, lo: real, hi: real): real { if v > hi then hi else if v < lo then lo else v }

  // ---------------------------------------------------------------- ring temperature

  function SumAccepted(temps: seq<real>, n: nat): real
    requires n <= |temps|
  {
    if n == 0 then 0.0 else SumAccepted(temps, n - 1) + if Accepted(temps[n - 1]) then temps[n - 1] else 0.0
  }

  function CountAccepted(temps: seq<real>, n: nat): (c: nat)
    requires n <= |temps|
    ensures c <= n
  {
    if n == 0 then 0 else CountAccepted(temps, n - 1) + if Accepted(temps[n - 1]) then 1 else 0
  }

  /** The mean of the accepted readings, the design temperature when there is none. */
  function RingTemp(temps: seq<real>, design: real): real {
    if CountAccepted(temps, |temps|) == 0 then design else SumAccepted(temps, |temps|) / CountAccepted(temps, |temps|) as real
  }

  // ---------------------------------------------------------------- one ring's expansion

  /** A product kept folded. */
  function Scaled(k: real, s: real): real { k * s }

  /** Thermal growth of a length. */
  function Growth(length: real, steel: Steel, dT: real): real { length * steel.alpha * dT }

  function AreaDelta(radius: real, steel: Steel, dT: real): real {
    Scaled(steel.pi, Square(radius + Clamp(Growth(radius, steel, dT), -0.05, 0.05))) - steel.pi * radius * radius
  }

  function AxialRatio(h: real, steel: Steel, dT: real): real {
    if RawRatio(h, steel, dT) < 0.9 || RawRatio(h, steel, dT) > 1.1 then 1.0 else RawRatio(h, steel, dT)
  }

  function RawRatio(h: real, steel: Steel, dT: real): real {
    1.0 + Clamp(Growth(h, steel, dT), -0.01, 0.01) / Max(h, 0.01)
  }

  /** How much of the ring between bottom and bottom + h is under a liquid level. */
  function Submerged(level: real, bottom: real, h: real): (s: real)
    ensures s >= 0.0
  {
    var lo, hi := Max(0.0, bottom), Min(level, bottom + h);
    if hi <= lo then 0.0 else hi - lo
  }

  /** Expansion per metre of submerged wall. */
  function PerMetre(ring: Ring, steel: Steel, temp: real): real {
    Scaled(AreaDelta(ring.radius, steel, temp - steel.design), AxialRatio(ring.height, steel, temp - steel.design))
  }

  function RingExpansion(ring: Ring, steel: Steel, temp: real, level: real, bottom: real): real {
    var e := Scaled(PerMetre(ring, steel, temp), Submerged(level, bottom, ring.height));
    if IsFinite(e) then e else 0.0
  }

  function Height(rings: seq<Ring>, n: nat): real
    requires n <= |rings|
  {
    if n == 0 then 0.0 else Height(rings, n - 1) + rings[n - 1].height
  }

  function TempOf(ring: Ring, steel: Steel): real { RingTemp(ring.temps, steel.design) }

  /** The expansion of the first n rings, bottom up. */
  function Expansion(rings: seq<Ring>, steel: Steel, level: real, n: nat): real
    requires n <= |rings|
  {
    if n == 0 then 0.0 else
      Expansion(rings, steel, level, n - 1) + RingExpansion(rings[n - 1], steel, TempOf(rings[n - 1], steel), level, Height(rings, n - 1))
  }

  function TotalExpansion(rings: seq<Ring>, steel: Steel, level: real): real {
    var e := Expansion(rings, steel, level, |rings|);
    if IsFinite(e) then e else 0.0
  }

  ghost predicate ValidSteel(steel: Steel) { steel.pi > 0.0 && steel.alpha > 0.0 }

  ghost predicate ValidRings(rings: seq<Ring>) {
    forall r: nat :: r < |rings| ==> rings[r].height >= 0.0 && rings[r].radius >= 0.0
  }

  // ---------------------------------------------------------------- submerged heights telescope

  function SubmergedTotal(rings: seq<Ring>, level: real, n: nat): real
    requires n <= |rings|
  {
    if n == 0 then 0.0 else SubmergedTotal(rings, level, n - 1) + Submerged(level, Height(rings, n - 1), rings[n - 1].height)
  }

  lemma {:induction false} HeightNonNegative(rings: seq<Ring>, n: nat)
    requires ValidRings(rings) && n <= |rings|
    ensures Height(rings, n) >= 0.0
  {
    if n > 0 { HeightNonNegative(rings, n - 1); }
  }

  /** The submerged parts add up to the level, cut to the height of the tank. */
  lemma {:induction false} SubmergedTelescopes(rings: seq<Ring>, level: real, n: nat)
    requires ValidRings(rings) && n <= |rings|
    ensures SubmergedTotal(rings, level, n) == Clamp(level, 0.0, Height(rings, n))
  {
    HeightNonNegative(rings, n);
    if n > 0 {
      HeightNonNegative(rings, n - 1);
      SubmergedTelescopes(rings, level, n - 1);
    }
  }

  // ---------------------------------------------------------------- uniform rings

  ghost predicate Uniform(rings: seq<Ring>, steel: Steel, k: real) {
    forall r: nat :: r < |rings| ==> PerMetre(rings[r], steel, TempOf(rings[r], steel)) == k
  }

  lemma ScaledMonotone(j: real, k: real, s: real, t: real)
    requires 0.0 <= j <= k && 0.0 <= s <= t
    ensures 0.0 <= Scaled(j, s) <= Scaled(k, t)
  {
    ProductNonNegative(j, s);
    ProductMonotone(j, k, s);
    ProductMonotone(s, t, k);
  }

  lemma ScaledAdd(k: real, s: real, t: real)
    ensures Scaled(k, s + t) == Scaled(k, s) + Scaled(k, t) && Scaled(k, 0.0) == 0.0
  {}

  lemma ScaledSign(k: real, s: real)
    ensures Scaled(-k, s) == -Scaled(k, s)
  {}

  lemma FiniteBelow(k: real, a: real, b: real)
    requires 0.0 <= a <= b && IsFinite(Scaled(k, b))
    ensures IsFinite(Scaled(k, a))
  {
    hide Scaled;
    ScaledSign(k, a);
    ScaledSign(k, b);
    if k >= 0.0 { ScaledMonotone(k, k, a, b); } else { ScaledMonotone(-k, -k, a, b); }
  }

  lemma {:induction false} UniformPrefix(rings: seq<Ring>, steel: Steel, level: real, k: real, n: nat)
    requires ValidRings(rings) && Uniform(rings, steel, k) && n <= |rings|
    requires IsFinite(Scaled(k, SubmergedTotal(rings, level, n)))
    ensures SubmergedTotal(rings, level, n) >= 0.0
    ensures Expansion(rings, steel, level, n) == Scaled(k, SubmergedTotal(rings, level, n))
  {
    hide PerMetre, TempOf, Submerged, Scaled, IsFinite;
    ScaledAdd(k, 0.0, 0.0);
    if n > 0 {
      var s, part := SubmergedTotal(rings, level, n - 1), Submerged(level, Height(rings, n - 1), rings[n - 1].height);
      SubmergedTelescopes(rings, level, n - 1);
      HeightNonNegative(rings, n - 1);
      FiniteBelow(k, s, s + part);
      FiniteBelow(k, part, s + part);
      ScaledAdd(k, s, part);
      UniformPrefix(rings, steel, level, k, n - 1);
    }
  }

  /** With the same expansion per metre everywhere, the total is that times the level cut to the tank. */
  lemma UniformClosedForm(rings: seq<Ring>, steel: Steel, level: real, k: real)
    requires ValidRings(rings) && Uniform(rings, steel, k)
    requires IsFinite(Scaled(k, Clamp(level, 0.0, Height(rings, |rings|))))
    ensures TotalExpansion(rings, steel, level) == Scaled(k, Clamp(level, 0.0, Height(rings, |rings|)))
  {
    hide PerMetre, TempOf, Submerged, SubmergedTotal, Expansion, Scaled, IsFinite, Clamp;
    SubmergedTelescopes(rings, level, |rings|);
    UniformPrefix(rings, steel, level, k, |rings|);
  }

  /** Rings of one size at one temperature are uniform. */
  lemma SameRingsAreUniform(rings: seq<Ring>, steel: Steel, h: real, radius: real, temp: real)
    requires forall r: nat :: r < |rings| ==> rings[r].height == h && rings[r].radius == radius && TempOf(rings[r], steel) == temp
    ensures Uniform(rings, steel, Scaled(AreaDelta(radius, steel, temp - steel.design), AxialRatio(h, steel, temp - steel.design)))
  {
    hide AreaDelta, AxialRatio, TempOf;
  }

  // ---------------------------------------------------------------- monotonicity

  lemma GrowthMonotone(length: real, steel: Steel, dT: real, hotter: real)
    requires ValidSteel(steel) && length >= 0.0 && 0.0 <= dT <= hotter
    ensures 0.0 <= Growth(length, steel, dT) <= Growth(length, steel, hotter)
  {
    var k := length * steel.alpha;
    ProductNonNegative(length, steel.alpha);
    ProductNonNegative(k, dT);
    ProductMonotone(dT, hotter, k);
  }

  lemma SquareMonotone(x: real, y: real)
    requires 0.0 <= x <= y
    ensures Square(x) <= Square(y)
  {
    ProductMonotone(x, y, x);
    ProductMonotone(x, y, y);
  }

  lemma AreaMonotone(radius: real, steel: Steel, dT: real, hotter: real)
    requires ValidSteel(steel) && radius >= 0.0 && 0.0 <= dT <= hotter
    ensures 0.0 <= AreaDelta(radius, steel, dT) <= AreaDelta(radius, steel, hotter)
  {
    hide Growth, Square, Scaled;
    GrowthMonotone(radius, steel, dT, hotter);
    var a, b := Clamp(Growth(radius, steel, dT), -0.05, 0.05), Clamp(Growth(radius, steel, hotter), -0.05, 0.05);
    SquareMonotone(radius, radius + a);
    SquareMonotone(radius + a, radius + b);
    SquareSign(radius);
    AreaIs(radius, steel);
    ScaledMonotone(steel.pi, steel.pi, Square(radius), Square(radius + a));
    ScaledMonotone(steel.pi, steel.pi, Square(radius + a), Square(radius + b));
  }

  lemma AreaIs(radius: real, steel: Steel)
    ensures steel.pi * radius * radius == Scaled(steel.pi, Square(radius))
  {}

  /** The axial ratio is not reset: it stays at most 1.1. */
  predicate Unreset(h: real, steel: Steel, dT: real) { RawRatio(h, steel, dT) <= 1.1 }

  lemma DividedMonotone(x: real, y: real, d: real)
    requires x <= y && d > 0.0
    ensures x / d <= y / d
  {
    assert y / d - x / d == (y - x) / d;
    NonNegativeQuotient(y - x, d);
  }

  lemma NonNegativeQuotient(x: real, d: real)
    requires x >= 0.0 && d > 0.0
    ensures x / d >= 0.0
  {}

  /** Rings of at least ten centimetres never reset the ratio when heated. */
  lemma TallRingsUnreset(h: real, steel: Steel, dT: real)
    requires ValidSteel(steel) && h >= 0.1 && dT >= 0.0
    ensures Unreset(h, steel, dT)
  {
    hide Growth;
    DividedMonotone(Clamp(Growth(h, steel, dT), -0.01, 0.01), 0.01, h);
    Tenth(h);
  }

  lemma Tenth(h: real)
    requires h >= 0.1
    ensures 0.01 / h <= 0.1
  {}

  lemma RatioMonotone(h: real, steel: Steel, dT: real, hotter: real)
    requires ValidSteel(steel) && h >= 0.0 && 0.0 <= dT <= hotter && Unreset(h, steel, hotter)
    ensures 1.0 <= AxialRatio(h, steel, dT) <= AxialRatio(h, steel, hotter)
  {
    hide Growth;
    GrowthMonotone(h, steel, dT, hotter);
    var a, b, d := Clamp(Growth(h, steel, dT), -0.01, 0.01), Clamp(Growth(h, steel, hotter), -0.01, 0.01), Max(h, 0.01);
    NonNegativeQuotient(a, d);
    DividedMonotone(a, b, d);
  }

  lemma PerMetreMonotone(ring: Ring, steel: Steel, temp: real, hotter: real)
    requires ValidSteel(steel) && ring.height >= 0.0 && ring.radius >= 0.0 && steel.design <= temp <= hotter
    requires Unreset(ring.height, steel, hotter - steel.design)
    ensures 0.0 <= PerMetre(ring, steel, temp) <= PerMetre(ring, steel, hotter)
  {
    hide AreaDelta, AxialRatio, Scaled, Unreset;
    var a, b := temp - steel.design, hotter - steel.design;
    AreaMonotone(ring.radius, steel, a, b);
    RatioMonotone(ring.height, steel, a, b);
    ScaledMonotone(AreaDelta(ring.radius, steel, a), AreaDelta(ring.radius, steel, b),
                   AxialRatio(ring.height, steel, a), AxialRatio(ring.height, steel, b));
  }

  /** The tank b is the tank a, everywhere at least as hot, at or above design, and no ring of it resets its ratio. */
  ghost predicate Hotter(a: seq<Ring>, b: seq<Ring>, steel: Steel) {
    && |a| == |b| && ValidRings(a) && ValidSteel(steel)
    && forall r: nat :: r < |a| ==>
         && a[r].height == b[r].height && a[r].radius == b[r].radius
         && steel.design <= TempOf(a[r], steel) <= TempOf(b[r], steel)
         && Unreset(b[r].height, steel, TempOf(b[r], steel) - steel.design)
  }

  lemma {:induction false} SameHeights(a: seq<Ring>, b: seq<Ring>, steel: Steel, n: nat)
    requires Hotter(a, b, steel) && n <= |a|
    ensures Height(a, n) == Height(b, n)
  {
    hide TempOf, Unreset;
    if n > 0 { SameHeights(a, b, steel, n - 1); }
  }

  /** No product overflows the finite range. */
  ghost predicate AllFinite(rings: seq<Ring>, steel: Steel, level: real) {
    && (forall r: nat :: r < |rings| ==>
          IsFinite(Scaled(PerMetre(rings[r], steel, TempOf(rings[r], steel)), Submerged(level, Height(rings, r), rings[r].height))))
    && IsFinite(Expansion(rings, steel, level, |rings|))
  }

  lemma RingMonotone(ring: Ring, other: Ring, steel: Steel, temp: real, hotter: real, level: real, higher: real, bottom: real)
    requires ValidSteel(steel) && ring.height >= 0.0 && ring.radius >= 0.0 && steel.design <= temp <= hotter && level <= higher
    requires other.height == ring.height && other.radius == ring.radius && Unreset(ring.height, steel, hotter - steel.design)
    requires IsFinite(Scaled(PerMetre(other, steel, hotter), Submerged(higher, bottom, other.height)))
    ensures 0.0 <= RingExpansion(ring, steel, temp, level, bottom) <= RingExpansion(other, steel, hotter, higher, bottom)
  {
    PerMetreMonotone(ring, steel, temp, hotter);
    SamePerMetre(ring, other, steel, hotter);
    hide PerMetre, Scaled;
    ScaledMonotone(PerMetre(ring, steel, temp), PerMetre(ring, steel, hotter),
                   Submerged(level, bottom, ring.height), Submerged(higher, bottom, ring.height));
  }

  lemma SamePerMetre(ring: Ring, other: Ring, steel: Steel, temp: real)
    requires other.height == ring.height && other.radius == ring.radius
    ensures PerMetre(ring, steel, temp) == PerMetre(other, steel, temp)
  {}

  lemma {:induction false} ExpansionMonotone(a: seq<Ring>, b: seq<Ring>, steel: Steel, level: real, higher: real, n: nat)
    requires Hotter(a, b, steel) && level <= higher && AllFinite(b, steel, higher) && n <= |a| == |b|
    ensures 0.0 <= Expansion(a, steel, level, n) <= Expansion(b, steel, higher, n)
  {
    hide *;
    ExpansionUnfold(a, steel, level, n);
    ExpansionUnfold(b, steel, higher, n);
    if n > 0 {
      ExpansionMonotone(a, b, steel, level, higher, n - 1);
      RingOfMonotone(a, b, steel, level, higher, n - 1);
    }
  }

  lemma ExpansionUnfold(rings: seq<Ring>, steel: Steel, level: real, n: nat)
    requires n <= |rings|
    ensures Expansion(rings, steel, level, n) == if n == 0 then 0.0 else
      Expansion(rings, steel, level, n - 1) + RingExpansion(rings[n - 1], steel, TempOf(rings[n - 1], steel), level, Height(rings, n - 1))
  {}

  lemma RingOfMonotone(a: seq<Ring>, b: seq<Ring>, steel: Steel, level: real, higher: real, r: nat)
    requires Hotter(a, b, steel) && level <= higher && AllFinite(b, steel, higher) && r < |a| == |b|
    ensures 0.0 <= RingExpansion(a[r], steel, TempOf(a[r], steel), level, Height(a, r))
                <= RingExpansion(b[r], steel, TempOf(b[r], steel), higher, Height(b, r))
  {
    hide PerMetre, Submerged, RingExpansion, TempOf, Unreset, Scaled, IsFinite, Height, Expansion;
    SameHeights(a, b, steel, r);
    RingMonotone(a[r], b[r], steel, TempOf(a[r], steel), TempOf(b[r], steel), level, higher, Height(a, r));
  }

  /** A higher level or hotter rings, at or above design, never shrink the total. */
  lemma TotalMonotone(a: seq<Ring>, b: seq<Ring>, steel: Steel, level: real, higher: real)
    requires Hotter(a, b, steel) && level <= higher && AllFinite(b, steel, higher)
    ensures 0.0 <= TotalExpansion(a, steel, level) <= TotalExpansion(b, steel, higher)
  {
    hide Expansion, Hotter;
    SizeOf(a, b, steel);
    ExpansionMonotone(a, b, steel, level, higher, |a|);
  }

  lemma SizeOf(a: seq<Ring>, b: seq<Ring>, steel: Steel)
    requires Hotter(a, b, steel)
    ensures |a| == |b|
  {
    hide TempOf, Unreset;
  }

  // ---------------------------------------------------------------- when heating can shrink a ring

  lemma RawRatioMonotone(h: real, steel: Steel, dT: real, hotter: real)
    requires ValidSteel(steel) && h >= 0.0 && 0.0 <= dT <= hotter
    ensures RawRatio(h, steel, dT) <= RawRatio(h, steel, hotter)
  {
    hide Growth;
    GrowthMonotone(h, steel, dT, hotter);
    DividedMonotone(Clamp(Growth(h, steel, dT), -0.01, 0.01), Clamp(Growth(h, steel, hotter), -0.01, 0.01), Max(h, 0.01));
  }

  /** Heating a wall by four percent more enlarges its area growth by less than a tenth. */
  lemma AreaStep(radius: real, steel: Steel, dT: real)
    requires ValidSteel(steel) && radius > 0.0 && dT > 0.0
    ensures AreaDelta(radius, steel, 1.04 * dT) < Scaled(AreaDelta(radius, steel, dT), 1.1)
  {
    hide Growth, Square, Scaled;
    GrowthPositive(radius, steel, dT);
    GrowthStretched(radius, steel, dT);
    var d, e := Clamp(Growth(radius, steel, dT), -0.05, 0.05), Clamp(Growth(radius, steel, 1.04 * dT), -0.05, 0.05);
    SquareStep(radius, d, e);
    AreaOfGap(radius, steel, dT);
    AreaOfGap(radius, steel, 1.04 * dT);
    var gap, more := Square(radius + d) - Square(radius), Square(radius + e) - Square(radius);
    ScaledStrict(steel.pi, more, 1.1 * gap);
    ScaledSwap(steel.pi, gap, 1.1);
  }

  lemma GrowthStretched(length: real, steel: Steel, dT: real)
    ensures Growth(length, steel, 1.04 * dT) == 1.04 * Growth(length, steel, dT)
  {}

  lemma AreaOfGap(radius: real, steel: Steel, dT: real)
    ensures AreaDelta(radius, steel, dT)
         == Scaled(steel.pi, Square(radius + Clamp(Growth(radius, steel, dT), -0.05, 0.05)) - Square(radius))
  {
    hide Growth, Square, Scaled;
    AreaIs(radius, steel);
    var s := Square(radius + Clamp(Growth(radius, steel, dT), -0.05, 0.05));
    ScaledAdd(steel.pi, s - Square(radius), Square(radius));
  }

  lemma ScaledStrict(k: real, x: real, y: real)
    requires k > 0.0 && x < y
    ensures Scaled(k, x) < Scaled(k, y)
  {
    PositiveDifference(k, x, y);
  }

  lemma ScaledSwap(k: real, x: real, c: real)
    ensures Scaled(k, c * x) == Scaled(Scaled(k, x), c)
  {}

  lemma SquareStep(radius: real, d: real, e: real)
    requires radius > 0.0 && 0.0 < d && 0.0 < e <= 1.04 * d
    ensures Square(radius + e) - Square(radius) < 1.1 * (Square(radius + d) - Square(radius))
  {
    hide Square;
    SquareMonotone(radius + e, radius + 1.04 * d);
    SquareOfSum(radius, 1.04 * d);
    SquareOfSum(radius, d);
    SquareSign(d);
    ProductPositive(radius, d);
    assert Square(1.04 * d) == 1.0816 * Square(d) by { SquareStretched(d); }
    assert radius * (1.04 * d) == 1.04 * (radius * d);
  }

  lemma SquareStretched(d: real)
    ensures Square(1.04 * d) == 1.0816 * Square(d)
  {}

  lemma GrowthIs(length: real, steel: Steel, dT: real)
    ensures Growth(length, steel, dT) == Scaled(length * steel.alpha, dT)
  {}

  lemma RatioBeyond(h: real, steel: Steel, dT: real)
    ensures RawRatio(h, steel, dT) > 1.1 <==> Clamp(Growth(h, steel, dT), -0.01, 0.01) > 0.1 * Max(h, 0.01)
  {
    hide Growth;
    ShareOf(Clamp(Growth(h, steel, dT), -0.01, 0.01), Max(h, 0.01));
  }

  /** The ratio is reset exactly for rings under ten centimetres whose growth exceeds a tenth of them, or of a centimetre. */
  lemma ResetExactly(h: real, steel: Steel, dT: real)
    requires ValidSteel(steel) && h >= 0.0 && dT >= 0.0
    ensures !Unreset(h, steel, dT) <==> h < 0.1 && Growth(h, steel, dT) > 0.1 * Max(h, 0.01)
    ensures !Unreset(h, steel, dT) ==> steel.alpha * dT > 0.1
    ensures 0.01 <= h < 0.1 && steel.alpha * dT > 0.1 ==> !Unreset(h, steel, dT)
  {
    hide Growth;
    RatioBeyond(h, steel, dT);
    GrowthMonotone(h, steel, 0.0, dT);
    GrowthOfHeight(h, steel, dT);
    hide RawRatio;
    var k := steel.alpha * dT;
    if k <= 0.1 { ScaledNonNegative(h, 0.1 - k); ScaledAdd(h, 0.1 - k, k); }
    if k > 0.1 && h > 0.0 { PositiveDifference(h, 0.1, k); }
    TenthOf(h);
  }

  lemma GrowthOfHeight(h: real, steel: Steel, dT: real)
    ensures Growth(h, steel, dT) == Scaled(h, steel.alpha * dT)
  {}

  lemma ScaledNonNegative(k: real, s: real)
    requires k >= 0.0 && s >= 0.0
    ensures Scaled(k, s) >= 0.0
  {
    ProductNonNegative(k, s);
  }

  lemma TenthOf(h: real)
    ensures Scaled(h, 0.1) == 0.1 * h
  {}

  lemma RatioAtTenth(h: real, steel: Steel, dT: real)
    requires h > 0.0 && Growth(h, steel, dT) == 0.1 * Max(h, 0.01) <= 0.01
    ensures AxialRatio(h, steel, dT) == 1.1
  {
    hide Growth;
    Share(Max(h, 0.01));
  }

  lemma QuotientTimes(x: real, d: real)
    requires d > 0.0
    ensures Scaled(d, x / d) == x
  {}

  lemma NoHeight(steel: Steel, dT: real)
    ensures Growth(0.0, steel, dT) == 0.0
  {}

  /** The rise at which the raw ratio is exactly 1.1: just above it the ratio falls back to 1. */
  lemma ResetPoint(h: real, steel: Steel, most: real) returns (dT: real)
    requires ValidSteel(steel) && h >= 0.0 && most > 0.0 && RawRatio(h, steel, most) > 1.1
    ensures 0.0 < dT < most && AxialRatio(h, steel, dT) == 1.1
    ensures forall rise: real :: rise > dT ==> AxialRatio(h, steel, rise) == 1.0
  {
    hide Growth, Scaled, RawRatio;
    NoHeight(steel, most);
    RatioBeyond(h, steel, most);
    ProductPositive(h, steel.alpha);
    var k, q := h * steel.alpha, 0.1 * Max(h, 0.01);
    dT := q / k;
    PositiveQuotient(q, k);
    QuotientTimes(q, k);
    GrowthIs(h, steel, dT);
    GrowthIs(h, steel, most);
    RatioAtTenth(h, steel, dT);
    LessFactor(k, dT, most);
    forall rise: real | rise > dT
      ensures AxialRatio(h, steel, rise) == 1.0
    {
      GrowthIs(h, steel, rise);
      PositiveDifference(k, dT, rise);
      RatioBeyond(h, steel, rise);
    }
  }

  lemma PositiveQuotient(x: real, d: real)
    requires x > 0.0 && d > 0.0
    ensures x / d > 0.0
  {}

  lemma Share(d: real)
    requires d > 0.0
    ensures 0.1 * d / d == 0.1
  {}

  lemma ShareOf(x: real, d: real)
    requires d > 0.0
    ensures x / d > 0.1 <==> x > 0.1 * d
  {}

  lemma LessFactor(k: real, x: real, y: real)
    requires k > 0.0 && Scaled(k, x) < Scaled(k, y)
    ensures x < y
  {
    if y <= x { ProductMonotone(y, x, k); }
  }

  /** A ring that resets below a rise of `most` shrinks somewhere below it. */
  lemma Shrinks(ring: Ring, steel: Steel, most: real) returns (t: real, u: real)
    requires ValidSteel(steel) && ring.height >= 0.0 && ring.radius > 0.0 && most > 0.0
    requires RawRatio(ring.height, steel, most) > 1.1
    ensures steel.design < t < u < steel.design + most
    ensures PerMetre(ring, steel, t) > PerMetre(ring, steel, u)
  {
    hide RawRatio, AxialRatio, AreaDelta, Scaled;
    var dT := ResetPoint(ring.height, steel, most);
    var rise := Min(1.04 * dT, (dT + most) / 2.0);
    t, u := steel.design + dT, steel.design + rise;
    assert t - steel.design == dT && u - steel.design == rise;
    AreaMonotone(ring.radius, steel, rise, 1.04 * dT);
    AreaStep(ring.radius, steel, dT);
    ScaledOne(AreaDelta(ring.radius, steel, rise));
  }

  lemma ScaledOne(k: real)
    ensures Scaled(k, 1.0) == k
  {}

  /** Heating never shrinks this ring, between the design temperature and the highest reading that is accepted. */
  ghost predicate NeverShrinks(ring: Ring, steel: Steel) {
    forall t: real, u: real :: steel.design <= t <= u < 150.0 ==> PerMetre(ring, steel, t) <= PerMetre(ring, steel, u)
  }

  /** A ring never shrinks when heated when, and only when, its ratio is not reset at 150 degrees. */
  lemma NeverShrinksExactly(ring: Ring, steel: Steel)
    requires ValidSteel(steel) && ring.height >= 0.0 && ring.radius > 0.0 && steel.design < 150.0
    ensures NeverShrinks(ring, steel) <==> RawRatio(ring.height, steel, 150.0 - steel.design) <= 1.1
  {
    hide RawRatio, PerMetre;
    var most := 150.0 - steel.design;
    if RawRatio(ring.height, steel, most) <= 1.1 {
      forall t: real, u: real | steel.design <= t <= u < 150.0
        ensures PerMetre(ring, steel, t) <= PerMetre(ring, steel, u)
      {
        RawRatioMonotone(ring.height, steel, u - steel.design, most);
        PerMetreMonotone(ring, steel, t, u);
      }
    } else {
      var t, u := Shrinks(ring, steel, most);
    }
  }

  /** All rings alike, every sensor reading t. */
  function Heated(count: nat, h: real, radius: real, sensors: nat, t: real): (rings: seq<Ring>)
    ensures |rings| == count
  {
    seq(count, (r: nat) => Ring(h, radius, seq(sensors, (s: nat) => t)))
  }

  lemma {:induction false} SteadySum(temps: seq<real>, t: real, n: nat)
    requires n <= |temps| && Accepted(t) && forall s: nat :: s < |temps| ==> temps[s] == t
    ensures CountAccepted(temps, n) == n && SumAccepted(temps, n) == n as real * t
  {
    if n > 0 {
      SteadySum(temps, t, n - 1);
      OneMore(n, t);
    }
  }

  lemma SteadyTemp(ring: Ring, steel: Steel, t: real)
    requires |ring.temps| > 0 && Accepted(t) && forall s: nat :: s < |ring.temps| ==> ring.temps[s] == t
    ensures TempOf(ring, steel) == t
  {
    hide SumAccepted, CountAccepted;
    SteadySum(ring.temps, t, |ring.temps|);
    Spread(t, |ring.temps| as real, 0.0);
  }

  /** The largest expansion the clamps allow at this level stays in the finite range. */
  ghost predicate BoundFinite(count: nat, h: real, radius: real, steel: Steel, level: real) {
    IsFinite(Scaled(Scaled(Scaled(steel.pi, 0.1 * radius + 0.0025), 1.1), Clamp(level, 0.0, Height(Heated(count, h, radius, 0, 0.0), count))))
  }

  lemma {:induction false} HeatedHeight(count: nat, h: real, radius: real, sensors: nat, t: real, n: nat)
    requires n <= count
    ensures Height(Heated(count, h, radius, sensors, t), n) == Height(Heated(count, h, radius, 0, 0.0), n)
  {
    if n > 0 { HeatedHeight(count, h, radius, sensors, t, n - 1); }
  }

  lemma HeatedTotal(count: nat, h: real, radius: real, steel: Steel, sensors: nat, t: real, level: real)
    requires ValidSteel(steel) && h >= 0.0 && radius >= 0.0 && sensors > 0 && Accepted(t)
    requires BoundFinite(count, h, radius, steel, level)
    ensures TotalExpansion(Heated(count, h, radius, sensors, t), steel, level)
         == Scaled(PerMetre(Ring(h, radius, []), steel, t), Clamp(level, 0.0, Height(Heated(count, h, radius, 0, 0.0), count)))
  {
    hide PerMetre, TotalExpansion, Height, IsFinite, Scaled, TempOf, Accepted;
    var rings, ring := Heated(count, h, radius, sensors, t), Ring(h, radius, []);
    var k, wet := PerMetre(ring, steel, t), Clamp(level, 0.0, Height(rings, count));
    forall r: nat | r < count
      ensures PerMetre(rings[r], steel, TempOf(rings[r], steel)) == k
    {
      SteadyTemp(rings[r], steel, t);
      SamePerMetre(ring, rings[r], steel, t);
    }
    HeatedHeight(count, h, radius, sensors, t, count);
    HeightNonNegative(rings, count);
    PerMetreBounded(ring, steel, t);
    FiniteUnder(k, Scaled(Scaled(steel.pi, 0.1 * radius + 0.0025), 1.1), wet);
    UniformClosedForm(rings, steel, level, k);
  }

  lemma FiniteUnder(k: real, most: real, s: real)
    requires Abs(k) <= most && s >= 0.0 && IsFinite(Scaled(most, s))
    ensures IsFinite(Scaled(k, s))
  {
    hide Scaled;
    ScaledMonotone(Abs(k), most, s, s);
    ScaledSign(k, s);
  }

  /** Heating all sensors of a tank of equal rings never lowers its total expansion. */
  ghost predicate TotalNeverShrinks(count: nat, h: real, radius: real, steel: Steel, sensors: nat, level: real) {
    forall t: real, u: real :: steel.design <= t <= u && Accepted(t) && Accepted(u) ==>
      TotalExpansion(Heated(count, h, radius, sensors, t), steel, level) <= TotalExpansion(Heated(count, h, radius, sensors, u), steel, level)
  }

  /**
   For a wetted tank of equal rings, the total expansion never falls when every sensor reads hotter
   when, and only when, the ratio of a ring is not reset at 150 degrees.
   */
  lemma TotalNeverShrinksExactly(count: nat, h: real, radius: real, steel: Steel, sensors: nat, level: real)
    requires ValidSteel(steel) && h >= 0.0 && radius > 0.0 && sensors > 0 && -60.0 < steel.design < 150.0
    requires 0.0 < level && 0.0 < Height(Heated(count, h, radius, 0, 0.0), count) && BoundFinite(count, h, radius, steel, level)
    ensures TotalNeverShrinks(count, h, radius, steel, sensors, level) <==> RawRatio(h, steel, 150.0 - steel.design) <= 1.1
  {
    hide PerMetre, TotalExpansion, Height, IsFinite, Scaled, RawRatio, Heated, BoundFinite;
    var ring := Ring(h, radius, []);
    var wet := Clamp(level, 0.0, Height(Heated(count, h, radius, 0, 0.0), count));
    if RawRatio(h, steel, 150.0 - steel.design) <= 1.1 {
      forall t: real, u: real | steel.design <= t <= u && Accepted(t) && Accepted(u)
        ensures TotalExpansion(Heated(count, h, radius, sensors, t), steel, level)
             <= TotalExpansion(Heated(count, h, radius, sensors, u), steel, level)
      {
        HeatedTotal(count, h, radius, steel, sensors, t, level);
        HeatedTotal(count, h, radius, steel, sensors, u, level);
        RawRatioMonotone(h, steel, u - steel.design, 150.0 - steel.design);
        PerMetreMonotone(ring, steel, t, u);
        ScaledMonotone(PerMetre(ring, steel, t), PerMetre(ring, steel, u), wet, wet);
      }
    } else {
      var t, u := Shrinks(ring, steel, 150.0 - steel.design);
      InRange(t);
      InRange(u);
      HeatedTotal(count, h, radius, steel, sensors, t, level);
      HeatedTotal(count, h, radius, steel, sensors, u, level);
      PositiveDifference(wet, PerMetre(ring, steel, u), PerMetre(ring, steel, t));
      ScaledComm(wet, PerMetre(ring, steel, u));
      ScaledComm(wet, PerMetre(ring, steel, t));
    }
  }

  lemma InRange(t: real)
    requires -60.0 < t < 150.0
    ensures Accepted(t)
  {}

  lemma ScaledComm(k: real, s: real)
    ensures Scaled(k, s) == Scaled(s, k)
  {}

  /**
   A tank that shrinks when heated: five-centimetre rings with an expansion coefficient of 0.001,
   every sensor reading first 44 and then 145 degrees.
   */
  lemma ThinTankShrinks(count: nat, pi: real, sensors: nat)
    requires 3.0 < pi < 4.0 && sensors > 0 && count > 0
    ensures var steel := Steel(pi, 0.001, -55.0);
      TotalExpansion(Heated(count, 0.05, 1.0, sensors, 44.0), steel, 0.05) > TotalExpansion(Heated(count, 0.05, 1.0, sensors, 145.0), steel, 0.05) > 0.0
  {
    hide TotalExpansion, Heated;
    var steel := Steel(pi, 0.001, -55.0);
    RingsAbove(count, 0.05, 1.0, count);
    assert BoundFinite(count, 0.05, 1.0, steel, 0.05) by {
      assert Scaled(Scaled(Scaled(pi, 0.1 * 1.0 + 0.0025), 1.1), 0.05) == 0.0056375 * pi;
    }
    HeatedTotal(count, 0.05, 1.0, steel, sensors, 44.0, 0.05);
    HeatedTotal(count, 0.05, 1.0, steel, sensors, 145.0, 0.05);
    assert 1.0 * 0.001 * 99.0 == 0.099 && 0.05 * 0.001 * 99.0 == 0.00495 && 0.05 * 0.001 * 200.0 == 0.01;
    assert AxialRatio(0.05, steel, 99.0) == 1.099 by { assert 0.00495 / 0.05 == 0.099; }
    assert AxialRatio(0.05, steel, 200.0) == 1.0 by { assert 0.01 / 0.05 == 0.2; }
    assert Square(1.05) == 1.1025;
    assert AreaDelta(1.0, steel, 99.0) == AreaDelta(1.0, steel, 200.0) == 0.1025 * pi;
  }

  lemma {:induction false} RingsAbove(count: nat, h: real, radius: real, n: nat)
    requires 0 < n <= count && h >= 0.0
    ensures Height(Heated(count, h, radius, 0, 0.0), n) >= h
  {
    if n > 1 { RingsAbove(count, h, radius, n - 1); }
  }

  // ---------------------------------------------------------------- the expansion is bounded

  lemma RatioBounded(h: real, steel: Steel, dT: real)
    ensures 0.9 <= AxialRatio(h, steel, dT) <= 1.1
  {
    hide RawRatio;
  }

  lemma SquareGap(radius: real, d: real)
    requires radius >= 0.0 && -0.05 <= d <= 0.05
    ensures -(0.1 * radius + 0.0025) <= Square(radius + d) - Square(radius) <= 0.1 * radius + 0.0025
  {
    hide Square;
    ProductMonotone(-0.05, d, radius);
    ProductMonotone(d, 0.05, radius);
    SmallSquare(d);
    SquareOfSum(radius, d);
    assert -0.05 * radius <= radius * d;
    assert radius * d <= 0.05 * radius;
  }

  lemma SmallSquare(d: real)
    requires -0.05 <= d <= 0.05
    ensures 0.0 <= Square(d) <= 0.0025
  {
    SquareSign(d);
    if d >= 0.0 { SquareMonotone(d, 0.05); } else { SquareMonotone(-d, 0.05); }
    assert Square(-d) == Square(d) && Square(0.05) == 0.0025;
  }

  /** Clamping keeps a ring's expansion per metre within five centimetres of radius and a tenth of its height, at any temperature. */
  lemma PerMetreBounded(ring: Ring, steel: Steel, temp: real)
    requires ValidSteel(steel) && ring.radius >= 0.0
    ensures Abs(PerMetre(ring, steel, temp)) <= Scaled(Scaled(steel.pi, 0.1 * ring.radius + 0.0025), 1.1)
  {
    hide Growth, Scaled, Square, AxialRatio;
    var dT := temp - steel.design;
    var d := Clamp(Growth(ring.radius, steel, dT), -0.05, 0.05);
    var gap, most := Square(ring.radius + d) - Square(ring.radius), 0.1 * ring.radius + 0.0025;
    SquareGap(ring.radius, d);
    AreaIs(ring.radius, steel);
    ScaledAdd(steel.pi, Square(ring.radius), gap);
    RatioBounded(ring.height, steel, dT);
    var q := AxialRatio(ring.height, steel, dT);
    BothSigns(steel.pi, gap, most, q);
  }

  lemma BothSigns(pi: real, gap: real, most: real, q: real)
    requires pi > 0.0 && -most <= gap <= most && 0.0 <= q <= 1.1
    ensures Abs(Scaled(Scaled(pi, gap), q)) <= Scaled(Scaled(pi, most), 1.1)
  {
    hide Scaled;
    var size := Abs(gap);
    ScaledMonotone(pi, pi, size, most);
    ScaledMonotone(Scaled(pi, size), Scaled(pi, most), q, 1.1);
    ScaledNegative(pi, size);
    ScaledSign(Scaled(pi, size), q);
  }

  lemma ScaledNegative(k: real, s: real)
    ensures Scaled(k, -s) == -Scaled(k, s)
  {}

  // ---------------------------------------------------------------- bulk updates at the design temperature

  /** sin(s * pi / 2). */
  function QuarterSine(s: nat): real { if s % 4 == 1 then 1.0 else if s % 4 == 3 then -1.0 else 0.0 }

  /** The spread the bulk update gives the sensors of one ring. */
  function BulkTemps(t: real, sensors: nat): (temps: seq<real>)
    ensures |temps| == sensors
  {
    seq(sensors, (s: nat) => t + 0.5 * QuarterSine(s))
  }

  ghost predicate InBand(t: real) { -59.5 < t < 149.5 }

  /** The sum of the first n quarter sines. */
  function SineTotal(n: nat): real { if n % 4 == 2 || n % 4 == 3 then 1.0 else 0.0 }

  lemma SineStep(n: nat)
    requires n > 0
    ensures SineTotal(n) == SineTotal(n - 1) + QuarterSine(n - 1) && -1.0 <= QuarterSine(n - 1) <= 1.0
  {}

  lemma {:induction false} BulkSum(t: real, sensors: nat, n: nat)
    requires InBand(t) && n <= sensors
    ensures CountAccepted(BulkTemps(t, sensors), n) == n
    ensures SumAccepted(BulkTemps(t, sensors), n) == n as real * t + 0.5 * SineTotal(n)
  {
    if n > 0 {
      hide QuarterSine, SineTotal;
      SineStep(n);
      BulkSum(t, sensors, n - 1);
      OneMore(n, t);
    }
  }

  lemma OneMore(n: nat, t: real)
    requires n > 0
    ensures n as real * t == (n - 1) as real * t + t
  {
    assert n as real == (n - 1) as real + 1.0;
  }

  /** The mean after a bulk update: the requested temperature, or half a degree over the sensor count above it. */
  lemma BulkMean(t: real, sensors: nat, design: real)
    requires InBand(t) && sensors > 0
    ensures RingTemp(BulkTemps(t, sensors), design) == t + (if sensors % 4 == 2 || sensors % 4 == 3 then 0.5 / sensors as real else 0.0)
  {
    hide SumAccepted, CountAccepted, BulkTemps;
    BulkSum(t, sensors, sensors);
    Spread(t, sensors as real, 0.5 * SineTotal(sensors));
  }

  lemma Spread(t: real, n: real, extra: real)
    requires n > 0.0
    ensures (n * t + extra) / n == t + extra / n
  {}

  lemma AtDesign(ring: Ring, steel: Steel)
    requires TempOf(ring, steel) == steel.design
    ensures PerMetre(ring, steel, TempOf(ring, steel)) == 0.0
  {
    hide TempOf, Square, AxialRatio;
    assert Growth(ring.radius, steel, 0.0) == 0.0;
    AreaIs(ring.radius, steel);
    assert Scaled(0.0, AxialRatio(ring.height, steel, 0.0)) == 0.0;
  }

  lemma AboveDesign(ring: Ring, steel: Steel)
    requires ValidSteel(steel) && ring.radius > 0.0 && TempOf(ring, steel) > steel.design
    ensures PerMetre(ring, steel, TempOf(ring, steel)) > 0.0
  {
    hide TempOf, Square, AxialRatio, Growth;
    var dT := TempOf(ring, steel) - steel.design;
    var d := Clamp(Growth(ring.radius, steel, dT), -0.05, 0.05);
    GrowthPositive(ring.radius, steel, dT);
    LargerSquare(ring.radius, d);
    AreaIs(ring.radius, steel);
    PositiveDifference(steel.pi, Square(ring.radius), Square(ring.radius + d));
    RatioBounded(ring.height, steel, dT);
    ProductPositive(AreaDelta(ring.radius, steel, dT), AxialRatio(ring.height, steel, dT));
  }

  lemma GrowthPositive(length: real, steel: Steel, dT: real)
    requires ValidSteel(steel) && length > 0.0 && dT > 0.0
    ensures Growth(length, steel, dT) > 0.0
  {
    ProductPositive(length, steel.alpha);
    ProductPositive(length * steel.alpha, dT);
  }

  lemma PositiveDifference(k: real, x: real, y: real)
    requires k > 0.0 && x < y
    ensures Scaled(k, y) - Scaled(k, x) > 0.0
  {
    ProductPositive(k, y - x);
    assert k * (y - x) == k * y - k * x;
  }

  /** All rings alike, each freshly set to the design temperature. */
  function Fresh(count: nat, h: real, radius: real, steel: Steel, sensors: nat): (rings: seq<Ring>)
    ensures |rings| == count
  {
    seq(count, (r: nat) => Ring(h, radius, BulkTemps(steel.design, sensors)))
  }

  /**
   After a bulk update at the design temperature the correction is exactly zero when, and only when, the
   number of sensors per ring leaves remainder 0 or 1 modulo 4 (for a wetted tank within the finite range).
   */
  lemma ZeroAtDesignExactly(count: nat, h: real, radius: real, steel: Steel, sensors: nat, level: real)
    requires ValidSteel(steel) && InBand(steel.design) && sensors > 0 && h >= 0.0 && radius > 0.0
    requires var rings := Fresh(count, h, radius, steel, sensors);
      && 0.0 < level && 0.0 < Height(rings, count)
      && IsFinite(Scaled(PerMetre(Ring(h, radius, BulkTemps(steel.design, sensors)), steel, RingTemp(BulkTemps(steel.design, sensors), steel.design)),
                         Clamp(level, 0.0, Height(rings, count))))
    ensures TotalExpansion(Fresh(count, h, radius, steel, sensors), steel, level) == 0.0 <==> sensors % 4 == 0 || sensors % 4 == 1
  {
    hide PerMetre, BulkTemps, TotalExpansion, Height, IsFinite, Scaled;
    var rings, ring := Fresh(count, h, radius, steel, sensors), Ring(h, radius, BulkTemps(steel.design, sensors));
    var k := PerMetre(ring, steel, TempOf(ring, steel));
    BulkMean(steel.design, sensors, steel.design);
    UniformClosedForm(rings, steel, level, k);
    var wet := Clamp(level, 0.0, Height(rings, count));
    if sensors % 4 == 0 || sensors % 4 == 1 {
      AtDesign(ring, steel);
      ZeroScaled(wet);
    } else {
      SmallPositive(sensors as real);
      AboveDesign(ring, steel);
      PositiveScaled(k, wet);
    }
  }

  lemma ZeroScaled(s: real)
    ensures Scaled(0.0, s) == 0.0
  {}

  lemma PositiveScaled(k: real, s: real)
    requires k > 0.0 && s > 0.0
    ensures Scaled(k, s) > 0.0
  {
    ProductPositive(k, s);
  }

  lemma SmallPositive(n: real)
    requires n > 0.0
    ensures 0.5 / n > 0.0
  {}

  // ---------------------------------------------------------------- the corrector

  const GRAVITY: real := 9.80665

  /** What one computation leaves behind of the parts modelled here. */
  datatype Deformation = Disabled | Deformation(pressures: seq<real>, expansion: real)

  function Density(rho: real): real { if rho <= 500.0 || rho > 1500.0 then 850.0 else rho }

  /** The pressure on ring r: the column of liquid above the ring's bottom. */
  function Pressure(rings: seq<Ring>, rho: real, level: real, r: nat): real
    requires r < |rings|
  {
    if level > Height(rings, r) then rho * GRAVITY * (level - Height(rings, r)) else 0.0
  }

  class EulerBernoulliCorrector {
    const enabled: bool
    const steel: Steel
    const tankHeight: real
    var rings: seq<Ring>
    var lastCorrection: Deformation

    /** Rings of equal height, one radius, all sensors at the design temperature; too small settings fall back to the defaults. */
    constructor (enabled: bool, pi: real, alpha: real, design: real, tankHeight: real, diameter: real, ringCount: int, sensorsPerRing: int)
      ensures this.enabled == enabled && this.tankHeight == tankHeight && this.steel == Steel(pi, if alpha <= 0.0 then 11.7e-6 else alpha, design)
      ensures |rings| == (if ringCount < 2 then 8 else ringCount) && Height(rings, |rings|) == tankHeight
      ensures forall r: nat :: r < |rings| ==> rings[r].radius == diameter / 2.0 && TempOf(rings[r], steel) == design
      ensures Even()
    {
      this.enabled, this.tankHeight, lastCorrection := enabled, tankHeight, Disabled;
      steel := Steel(pi, if alpha <= 0.0 then 11.7e-6 else alpha, design);
      var count: nat := if ringCount < 2 then 8 else ringCount;
      var sensors: nat := if sensorsPerRing < 2 then 4 else sensorsPerRing;
      var ring := Ring(tankHeight / count as real, diameter / 2.0, seq(sensors, (s: nat) => design));
      rings := seq(count, (r: nat) => ring);
      new;
      EqualHeights(rings, tankHeight);
      ConstantTemp(ring.temps, design, design);
    }

    /** Every ring has as many sensors as the first. */
    ghost predicate Even()
      reads this
    {
      forall r: nat :: r < |rings| ==> |rings[r].temps| == |rings[0].temps|
    }

    /** One sensor; readings out of range or off the tank are ignored. */
    method UpdateWallTemp(ringIndex: int, sensorIndex: int, temperature: real, valid: bool)
      requires Even()
      modifies this`rings
      ensures Even() && |rings| == |old(rings)|
      ensures forall r: nat :: r < |rings| ==>
        rings[r] == if r == ringIndex && 0 <= sensorIndex < |old(rings)[r].temps| && valid && Accepted(temperature)
                    then old(rings)[r].(temps := old(rings)[r].temps[sensorIndex := temperature]) else old(rings)[r]
    {
      if |rings| == 0 { return; }
      if ringIndex < 0 || ringIndex >= |rings| { return; }
      if sensorIndex < 0 || sensorIndex >= |rings[0].temps| { return; }
      if valid && IsFinite(temperature) && temperature > -60.0 && temperature < 150.0 {
        var ring := rings[ringIndex];
        rings := rings[ringIndex := ring.(temps := ring.temps[sensorIndex := temperature])];
      }
    }

    /** One average per ring, spread over the ring's sensors. */
    method UpdateBulkTemps(averages: seq<real>)
      requires Even()
      modifies this`rings
      ensures Even() && |rings| == |old(rings)|
      ensures forall r: nat :: r < |rings| ==>
        rings[r] == if r < |averages| && Accepted(averages[r]) then old(rings)[r].(temps := BulkTemps(averages[r], |old(rings)[r].temps|)) else old(rings)[r]
      ensures forall r: nat, s: nat :: r < |rings| && r < |averages| && -60.0 < averages[r] < 150.0 && s < |rings[r].temps| ==>
        rings[r].temps[s] == averages[r] + if s % 4 == 1 then 0.5 else if s % 4 == 3 then -0.5 else 0.0
    {
      var limit := if |averages| < |rings| then |averages| else |rings|;
      for r := 0 to limit
        invariant |rings| == |old(rings)|
        invariant forall q: nat :: q < |rings| ==>
          rings[q] == if q < r && Accepted(averages[q]) then old(rings)[q].(temps := BulkTemps(averages[q], |old(rings)[q].temps|)) else old(rings)[q]
      {
        var t := averages[r];
        if IsFinite(t) && t > -60.0 && t < 150.0 {
          var temps: seq<real> := [];
          for s := 0 to |rings[r].temps|
            invariant |temps| == s && forall i: nat :: i < s ==> temps[i] == t + 0.5 * QuarterSine(i)
          {
            temps := temps + [t + 0.5 * QuarterSine(s)];
          }
          assert temps == BulkTemps(t, |rings[r].temps|);
          rings := rings[r := rings[r].(temps := temps)];
        }
      }
    }

    /** The integration loop. */
    method IntegrateVolumeExpansion(level: real) returns (total: real)
      ensures total == TotalExpansion(rings, steel, level)
    {
      hide AreaDelta, AxialRatio, RingTemp;
      total := 0.0;
      var cumZ := 0.0;
      for r := 0 to |rings|
        invariant cumZ == Height(rings, r) && total == Expansion(rings, steel, level, r)
      {
        var ring := rings[r];
        var h := ring.height;
        var ringBottom, ringTop := cumZ, cumZ + h;
        cumZ := cumZ + h;
        ghost var part := RingExpansion(ring, steel, TempOf(ring, steel), level, ringBottom);
        var overlapStart, overlapEnd := Max(0.0, ringBottom), Min(level, ringTop);
        if overlapEnd <= overlapStart {
          NothingSubmerged(ring, steel, level, ringBottom);
        } else {
          var submerged := overlapEnd - overlapStart;
          var temp := MeanTemp(ring.temps);
          var dT := temp - steel.design;
          var e := Scaled(Scaled(AreaDelta(ring.radius, steel, dT), submerged), AxialRatio(h, steel, dT));
          Reordered(AreaDelta(ring.radius, steel, dT), submerged, AxialRatio(h, steel, dT));
          if IsFinite(e) { total := total + e; }
        }
      }
      if !IsFinite(total) { total := 0.0; }
    }

    /** The mean of the accepted readings of one ring. */
    method MeanTemp(temps: seq<real>) returns (t: real)
      ensures t == RingTemp(temps, steel.design)
    {
      var sum, count := 0.0, 0;
      for s := 0 to |temps|
        invariant sum == SumAccepted(temps, s) && count == CountAccepted(temps, s)
      {
        if IsFinite(temps[s]) && temps[s] > -60.0 && temps[s] < 150.0 {
          sum := sum + temps[s];
          count := count + 1;
        }
      }
      t := if count > 0 then sum / count as real else steel.design;
    }

    /** The pressure loop, top ring first; with rings that add up to the tank it sees the column above each ring's bottom. */
    method HydrostaticPressures(level: real, rho: real) returns (pressures: seq<real>)
      requires Height(rings, |rings|) == tankHeight
      ensures |pressures| == |rings| && forall r: nat :: r < |rings| ==> pressures[r] == Pressure(rings, rho, level, r)
    {
      hide Pressure;
      pressures := [];
      var cumulative := 0.0;
      for r := |rings| downto 0
        invariant |pressures| == |rings| - r && cumulative == tankHeight - Height(rings, r)
        invariant forall q: nat :: r <= q < |rings| ==> pressures[q - r] == Pressure(rings, rho, level, q)
      {
        cumulative := cumulative + rings[r].height;
        var depth := level - (tankHeight - cumulative);
        PressureIs(rings, rho, level, r);
        pressures := [if depth > 0.0 then rho * GRAVITY * depth else 0.0] + pressures;
      }
    }

    /** The parts of the deformation that the volume depends on. */
    method ComputeDeformation(level: real, rho: real) returns (info: Deformation)
      requires Height(rings, |rings|) == tankHeight
      modifies this`lastCorrection
      ensures if enabled then info.Deformation? && info.expansion == TotalExpansion(rings, steel, level) && lastCorrection == info
              else info == Disabled && lastCorrection == old(lastCorrection)
      ensures info.Deformation? ==> |info.pressures| == |rings| && forall r: nat :: r < |rings| ==> info.pressures[r] == Pressure(rings, Density(rho), level, r)
    {
      hide Pressure, Expansion;
      if !enabled { return Disabled; }
      var pressures := HydrostaticPressures(level, Density(rho));
      var expansion := IntegrateVolumeExpansion(level);
      info := Deformation(pressures, expansion);
      lastCorrection := info;
    }

    /** The corrected volume is the raw one plus the reported correction, and never negative for a non-negative raw volume. */
    method CorrectVolume(raw: real, level: real, rho: real) returns (corrected: real, correction: real, info: Deformation)
      requires Height(rings, |rings|) == tankHeight
      modifies this`lastCorrection
      ensures corrected == raw + correction && (raw >= 0.0 ==> corrected >= 0.0)
      ensures var expansion := TotalExpansion(rings, steel, level);
        correction == if enabled && 0.0 <= raw + expansion <= 1e18 then expansion else 0.0
      ensures info.Deformation? <==> enabled
    {
      hide TotalExpansion, Pressure;
      info := ComputeDeformation(level, rho);
      if info.Disabled? { return raw, 0.0, info; }
      correction := info.expansion;
      corrected := raw + correction;
      if !IsFinite(corrected) || corrected < 0.0 {
        corrected, correction := raw, 0.0;
      }
    }
  }

  lemma PressureIs(rings: seq<Ring>, rho: real, level: real, r: nat)
    requires r < |rings|
    ensures var depth := level - Height(rings, r); Pressure(rings, rho, level, r) == if depth > 0.0 then rho * GRAVITY * depth else 0.0
  {}

  lemma Reordered(a: real, s: real, q: real)
    ensures Scaled(Scaled(a, s), q) == Scaled(Scaled(a, q), s)
  {}

  lemma NothingSubmerged(ring: Ring, steel: Steel, level: real, bottom: real)
    requires Min(level, bottom + ring.height) <= Max(0.0, bottom)
    ensures RingExpansion(ring, steel, TempOf(ring, steel), level, bottom) == 0.0
  {
    hide PerMetre, TempOf;
  }

  lemma {:induction false} HeightsAdd(rings: seq<Ring>, h: real, n: nat)
    requires n <= |rings| && forall r: nat :: r < |rings| ==> rings[r].height == h
    ensures Height(rings, n) == n as real * h
  {
    if n > 0 {
      HeightsAdd(rings, h, n - 1);
      OneMore(n, h);
    }
  }

  lemma EqualHeights(rings: seq<Ring>, total: real)
    requires |rings| > 0 && forall r: nat :: r < |rings| ==> rings[r].height == total / |rings| as real
    ensures Height(rings, |rings|) == total
  {
    hide Height;
    HeightsAdd(rings, total / |rings| as real, |rings|);
    assert |rings| as real * (total / |rings| as real) == total;
  }

  lemma {:induction false} ConstantSums(temps: seq<real>, t: real, n: nat)
    requires n <= |temps| && forall s: nat :: s < |temps| ==> temps[s] == t
    ensures CountAccepted(temps, n) == (if Accepted(t) then n else 0) && SumAccepted(temps, n) == if Accepted(t) then n as real * t else 0.0
  {
    if n > 0 {
      ConstantSums(temps, t, n - 1);
      OneMore(n, t);
    }
  }

  lemma ConstantTemp(temps: seq<real>, t: real, design: real)
    requires forall s: nat :: s < |temps| ==> temps[s] == t
    requires |temps| > 0
    ensures RingTemp(temps, design) == if Accepted(t) then t else design
  {
    hide Accepted, SumAccepted, CountAccepted;
    ConstantSums(temps, t, |temps|);
    MeanOfEqual(t, |temps| as real);
  }

  lemma MeanOfEqual(t: real, n: real)
    requires n > 0.0
    ensures n * t / n == t
  {}
}
