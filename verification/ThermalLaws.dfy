/** The thermal correction written out: ring temperatures, expansion per metre, submerged parts and their sum. */
module ThermalLaws {
  import opened Reals
  import opened RealSums
  import opened Thermal

  // ---------------------------------------------------------------- ring temperatures

  /** The readings strictly between -60 and 150 degrees. */
  function Good(temps: seq<real>): (g: seq<real>)
    ensures |g| <= |temps|
  {
    if temps == [] then [] else (if -60.0 < temps[0] < 150.0 then [temps[0]] else []) + Good(temps[1..])
  }

  lemma {:induction false} GoodAppend(temps: seq<real>, t: real)
    ensures Good(temps + [t]) == Good(temps) + if -60.0 < t < 150.0 then [t] else []
  {
    if temps == [] {
      assert [t][1..] == [];
    } else {
      assert (temps + [t])[1..] == temps[1..] + [t];
      GoodAppend(temps[1..], t);
    }
  }

  lemma {:induction false} GoodSums(temps: seq<real>, n: nat)
    requires n <= |temps|
    ensures CountAccepted(temps, n) == |Good(temps[..n])| && SumAccepted(temps, n) == FrontSum(Good(temps[..n]))
  {
    if n > 0 {
      GoodSums(temps, n - 1);
      GoodAppend(temps[..n - 1], temps[n - 1]);
      assert temps[..n] == temps[..n - 1] + [temps[n - 1]];
      if -60.0 < temps[n - 1] < 150.0 {
        FrontSumAppend(Good(temps[..n - 1]), temps[n - 1]);
      } else {
        assert Good(temps[..n - 1]) + [] == Good(temps[..n - 1]);
      }
    }
  }

  /** A ring is as warm as its good readings on average, or at the design temperature without any. */
  lemma RingTempIs(temps: seq<real>, design: real)
    ensures RingTemp(temps, design) == if Good(temps) == [] then design else FrontSum(Good(temps)) / |Good(temps)| as real
  {
    GoodSums(temps, |temps|);
    assert temps[..|temps|] == temps;
  }

  // ---------------------------------------------------------------- one ring

  /** The ring of wall that appears when the radius grows, by at most five centimetres either way. */
  lemma AreaDeltaIs(radius: real, steel: Steel, dT: real, grown: real, d: real)
    requires grown == radius * steel.alpha * dT
    requires d == if grown > 0.05 then 0.05 else if grown < -0.05 then -0.05 else grown
    ensures AreaDelta(radius, steel, dT) == steel.pi * (d * (2.0 * radius + d))
  {
    assert Clamp(Growth(radius, steel, dT), -0.05, 0.05) == d;
    hide Growth, Clamp;
    Ring2(steel.pi, radius, d);
  }

  lemma Ring2(pi: real, radius: real, d: real)
    ensures Scaled(pi, Square(radius + d)) - pi * radius * radius == pi * (d * (2.0 * radius + d))
  {}

  /** The axial ratio: growth of at most a centimetre over a height of at least one, and 1 when that leaves 0.9 to 1.1. */
  lemma AxialRatioIs(h: real, steel: Steel, dT: real, grown: real, g: real)
    requires grown == h * steel.alpha * dT
    requires g == if grown > 0.01 then 0.01 else if grown < -0.01 then -0.01 else grown
    ensures var ratio := 1.0 + g / (if h > 0.01 then h else 0.01);
      AxialRatio(h, steel, dT) == if 0.9 <= ratio <= 1.1 then ratio else 1.0
  {
    assert Clamp(Growth(h, steel, dT), -0.01, 0.01) == g;
    hide Growth, Clamp;
  }

  // ---------------------------------------------------------------- the tank

  function Heights(rings: seq<Ring>): (hs: seq<real>)
    ensures |hs| == |rings| && forall r: nat :: r < |rings| ==> hs[r] == rings[r].height
  {
    seq(|rings|, (r: nat) requires r < |rings| => rings[r].height)
  }

  lemma {:induction false} HeightIs(rings: seq<Ring>, n: nat)
    requires n <= |rings|
    ensures Height(rings, n) == FrontSum(Heights(rings)[..n])
  {
    if n > 0 {
      HeightIs(rings, n - 1);
      OneMoreTerm(Heights(rings), n - 1);
    } else {
      NoTerms(Heights(rings));
    }
  }

  /** Area times height, stretched by a ratio; dropped beyond 1e18. */
  function Part(area: real, ratio: real, height: real): real { if -1e18 <= area * ratio * height <= 1e18 then area * ratio * height else 0.0 }

  lemma PartScaled(area: real, ratio: real, height: real)
    ensures Part(area, ratio, height) == if IsFinite(Scaled(Scaled(area, ratio), height)) then Scaled(Scaled(area, ratio), height) else 0.0
  {}

  /** What a ring adds: area gained and axial ratio at its own temperature, over the part of it below the level. */
  function RingPart(ring: Ring, steel: Steel, level: real, bottom: real): real {
    var dT := RingTemp(ring.temps, steel.design) - steel.design;
    Part(AreaDelta(ring.radius, steel, dT), AxialRatio(ring.height, steel, dT), Submerged(level, bottom, ring.height))
  }

  lemma RingPartIs(ring: Ring, steel: Steel, level: real, bottom: real)
    ensures RingPart(ring, steel, level, bottom) == RingExpansion(ring, steel, TempOf(ring, steel), level, bottom)
  {
    var dT := TempOf(ring, steel) - steel.design;
    PartScaled(AreaDelta(ring.radius, steel, dT), AxialRatio(ring.height, steel, dT), Submerged(level, bottom, ring.height));
    hide AreaDelta, AxialRatio, RingTemp, Submerged, Scaled, Part;
  }

  function Parts(rings: seq<Ring>, steel: Steel, level: real): (parts: seq<real>)
    ensures |parts| == |rings|
  {
    seq(|rings|, (r: nat) requires r < |rings| => RingPart(rings[r], steel, level, FrontSum(Heights(rings)[..r])))
  }

  lemma PartIs(rings: seq<Ring>, steel: Steel, level: real, r: nat)
    requires r < |rings|
    ensures Parts(rings, steel, level)[r] == RingExpansion(rings[r], steel, TempOf(rings[r], steel), level, Height(rings, r))
  {
    hide RingPart, RingExpansion, TempOf, Height;
    HeightIs(rings, r);
    RingPartIs(rings[r], steel, level, Height(rings, r));
  }

  lemma {:induction false} ExpansionIs(rings: seq<Ring>, steel: Steel, level: real, n: nat)
    requires n <= |rings|
    ensures Expansion(rings, steel, level, n) == FrontSum(Parts(rings, steel, level)[..n])
  {
    hide RingExpansion, Parts, TempOf;
    if n > 0 {
      ExpansionIs(rings, steel, level, n - 1);
      OneMoreTerm(Parts(rings, steel, level), n - 1);
      PartIs(rings, steel, level, n - 1);
    } else {
      NoTerms(Parts(rings, steel, level));
    }
  }

  /** The total is the sum of the parts, 0 beyond 1e18. */
  lemma TotalIs(rings: seq<Ring>, steel: Steel, level: real)
    ensures var sum := FrontSum(Parts(rings, steel, level)); TotalExpansion(rings, steel, level) == if -1e18 <= sum <= 1e18 then sum else 0.0
  {
    hide Expansion, Parts;
    ExpansionIs(rings, steel, level, |rings|);
    assert Parts(rings, steel, level)[..|rings|] == Parts(rings, steel, level);
  }

  /** The pressure at the bottom of a ring: density, standard gravity and the liquid above; a density outside (500, 1500] counts as 850. */
  lemma PressureWritten(rings: seq<Ring>, rho: real, level: real, r: nat, density: real, depth: real)
    requires r < |rings| && density == (if 500.0 < rho <= 1500.0 then rho else 850.0) && depth == level - FrontSum(Heights(rings)[..r])
    ensures Pressure(rings, Density(rho), level, r) == if depth > 0.0 then density * 9.80665 * depth else 0.0
  {
    HeightIs(rings, r);
    PressureIs(rings, Density(rho), level, r);
    hide Height, Pressure;
  }
}
