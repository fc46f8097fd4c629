/** Multipath suppression: harmonic partners that are much weaker are struck out, in place. */
module Multipath {
  import opened Peaks
  import opened Reals

  // ---------------------------------------------------------------- harmonic pairs

  /** q sits at about `order` times the range of p. */
  predicate Harmonic(order: int, p: Peak, q: Peak) {
    var primary := if p.rangeBin > 1 then p.rangeBin else 1;
    Abs(q.rangeBin as real / primary as real - order as real) < 0.15
  }

  /** p strikes out q. */
  predicate Kills(order: int, depth: real, p: Peak, q: Peak) {
    Harmonic(order, p, q) && q.snr < p.snr * depth
  }

  // ---------------------------------------------------------------- the flags

  /** The flags after peak i has been compared with all others. */
  function Pass(peaks: seq<Peak>, valid: seq<bool>, order: int, depth: real, i: nat): (next: seq<bool>)
    requires |valid| == |peaks| && i < |peaks|
    ensures |next| == |peaks|
  {
    seq(|peaks|, (j: nat) requires j < |peaks| =>
      valid[j] && !(valid[i] && j != i && Kills(order, depth, peaks[i], peaks[j])))
  }

  /** The flags after the first n peaks of one order. */
  function Sweep(peaks: seq<Peak>, valid: seq<bool>, order: int, depth: real, n: nat): (next: seq<bool>)
    requires |valid| == |peaks| && n <= |peaks|
    ensures |next| == |peaks|
  {
    if n == 0 then valid else Pass(peaks, Sweep(peaks, valid, order, depth, n - 1), order, depth, n - 1)
  }

  /** The flags after all orders from 2 up to `order`. */
  function Flags(peaks: seq<Peak>, order: nat, depth: real): (valid: seq<bool>)
    ensures |valid| == |peaks|
  {
    if order < 2 then seq(|peaks|, (j: nat) => true) else Sweep(peaks, Flags(peaks, order - 1, depth), order, depth, |peaks|)
  }

  /** Positions below n that are still flagged, in order. */
  function Kept(valid: seq<bool>, n: nat): (kept: seq<nat>)
    requires n <= |valid|
    ensures |kept| <= n
    ensures forall k: nat :: k < |kept| ==> kept[k] < n
  {
    if n == 0 then [] else if valid[n - 1] then Kept(valid, n - 1) + [n - 1] else Kept(valid, n - 1)
  }

  lemma {:induction false} KeptAre(valid: seq<bool>, n: nat)
    requires n <= |valid|
    ensures forall k: nat :: k < |Kept(valid, n)| ==> valid[Kept(valid, n)[k]]
    ensures forall k: nat, l: nat :: k < l < |Kept(valid, n)| ==> Kept(valid, n)[k] < Kept(valid, n)[l]
    ensures forall j: nat :: j < n && valid[j] ==> j in Kept(valid, n)
  {
    if n > 0 { KeptAre(valid, n - 1); }
  }

  function At(peaks: seq<Peak>, positions: seq<nat>): (r: seq<Peak>)
    requires forall k: nat :: k < |positions| ==> positions[k] < |peaks|
    ensures |r| == |positions| && forall k: nat :: k < |r| ==> r[k] == peaks[positions[k]]
  {
    seq(|positions|, (k: nat) requires k < |positions| => peaks[positions[k]])
  }

  function Survivors(peaks: seq<Peak>, order: nat, depth: real): (positions: seq<nat>)
    ensures forall k: nat :: k < |positions| ==> positions[k] < |peaks|
  {
    Kept(Flags(peaks, order, depth), |peaks|)
  }

  /** What the filter returns. */
  function Filtered(peaks: seq<Peak>, order: nat, depth: real): seq<Peak> {
    At(peaks, Survivors(peaks, order, depth))
  }

  // ---------------------------------------------------------------- laws

  lemma {:induction false} SweepOnlyClears(peaks: seq<Peak>, valid: seq<bool>, order: int, depth: real, n: nat, m: nat, j: nat)
    requires |valid| == |peaks| && n <= m <= |peaks| && j < |peaks|
    ensures Sweep(peaks, valid, order, depth, m)[j] ==> Sweep(peaks, valid, order, depth, n)[j]
  {
    hide Kills;
    if n < m { SweepOnlyClears(peaks, valid, order, depth, n, m - 1, j); }
  }

  lemma {:induction false} FlagsOnlyClear(peaks: seq<Peak>, low: nat, high: nat, depth: real, j: nat)
    requires low <= high && j < |peaks|
    ensures Flags(peaks, high, depth)[j] ==> Flags(peaks, low, depth)[j]
  {
    hide Sweep;
    if high >= 2 && low < high {
      FlagsOnlyClear(peaks, low, high - 1, depth, j);
      SweepOnlyClears(peaks, Flags(peaks, high - 1, depth), high, depth, 0, |peaks|, j);
      SweepStart(peaks, Flags(peaks, high - 1, depth), high, depth);
    }
  }

  lemma SweepStart(peaks: seq<Peak>, valid: seq<bool>, order: int, depth: real)
    requires |valid| == |peaks|
    ensures Sweep(peaks, valid, order, depth, 0) == valid
  {}

  /** Two peaks that are both left cannot strike each other out at any order that was tried. */
  lemma NoPairLeft(peaks: seq<Peak>, order: nat, maxOrder: nat, depth: real, i: nat, j: nat)
    requires 2 <= order <= maxOrder && i < |peaks| && j < |peaks| && i != j
    requires Flags(peaks, maxOrder, depth)[i] && Flags(peaks, maxOrder, depth)[j]
    ensures !Kills(order, depth, peaks[i], peaks[j])
  {
    hide Kills;
    FlagsOnlyClear(peaks, order, maxOrder, depth, i);
    FlagsOnlyClear(peaks, order, maxOrder, depth, j);
    var valid := Flags(peaks, order - 1, depth);
    SweepOnlyClears(peaks, valid, order, depth, i, |peaks|, i);
    SweepOnlyClears(peaks, valid, order, depth, i + 1, |peaks|, j);
  }

  lemma {:induction false} SweepKiller(peaks: seq<Peak>, valid: seq<bool>, order: int, depth: real, n: nat, j: nat) returns (i: nat)
    requires |valid| == |peaks| && n <= |peaks| && j < |peaks| && valid[j] && !Sweep(peaks, valid, order, depth, n)[j]
    ensures i < |peaks| && i != j && Kills(order, depth, peaks[i], peaks[j])
  {
    hide Kills;
    if Sweep(peaks, valid, order, depth, n - 1)[j] {
      i := n - 1;
    } else {
      i := SweepKiller(peaks, valid, order, depth, n - 1, j);
    }
  }

  /** A peak is struck out only by a harmonic partner. */
  lemma {:induction false} EveryRejectHasAKiller(peaks: seq<Peak>, maxOrder: nat, depth: real, j: nat) returns (i: nat, order: nat)
    requires j < |peaks| && !Flags(peaks, maxOrder, depth)[j]
    ensures i < |peaks| && i != j && 2 <= order <= maxOrder && Kills(order, depth, peaks[i], peaks[j])
  {
    hide Kills, Sweep;
    if Flags(peaks, maxOrder - 1, depth)[j] {
      order := maxOrder;
      i := SweepKiller(peaks, Flags(peaks, maxOrder - 1, depth), maxOrder, depth, |peaks|, j);
    } else {
      i, order := EveryRejectHasAKiller(peaks, maxOrder - 1, depth, j);
    }
  }

  ghost predicate NoPair(peaks: seq<Peak>, maxOrder: nat, depth: real) {
    forall order: nat, i: nat, j: nat :: 2 <= order <= maxOrder && i < |peaks| && j < |peaks| && i != j ==>
      !Kills(order, depth, peaks[i], peaks[j])
  }

  /** The result is a subsequence in order: increasing positions, exactly the flagged ones. */
  lemma FilteredIsSubsequence(peaks: seq<Peak>, maxOrder: nat, depth: real)
    ensures var at := Survivors(peaks, maxOrder, depth);
      && |Filtered(peaks, maxOrder, depth)| == |at|
      && (forall k: nat :: k < |at| ==> at[k] < |peaks| && Filtered(peaks, maxOrder, depth)[k] == peaks[at[k]])
      && (forall k: nat, l: nat :: k < l < |at| ==> at[k] < at[l])
      && (forall j: nat :: j < |peaks| ==> (j in at <==> Flags(peaks, maxOrder, depth)[j]))
  {
    hide Flags;
    KeptAre(Flags(peaks, maxOrder, depth), |peaks|);
  }

  lemma FilteredHasNoPair(peaks: seq<Peak>, maxOrder: nat, depth: real)
    ensures NoPair(Filtered(peaks, maxOrder, depth), maxOrder, depth)
  {
    hide Kills, Flags;
    var out, at := Filtered(peaks, maxOrder, depth), Survivors(peaks, maxOrder, depth);
    FilteredIsSubsequence(peaks, maxOrder, depth);
    forall order: nat, i: nat, j: nat | 2 <= order <= maxOrder && i < |out| && j < |out| && i != j
      ensures !Kills(order, depth, out[i], out[j])
    {
      assert at[i] != at[j];
      NoPairLeft(peaks, order, maxOrder, depth, at[i], at[j]);
    }
  }

  lemma {:induction false} KeptAll(valid: seq<bool>, n: nat)
    requires n <= |valid| && forall j: nat :: j < n ==> valid[j]
    ensures |Kept(valid, n)| == n && forall k: nat :: k < n ==> Kept(valid, n)[k] == k
  {
    if n > 0 { KeptAll(valid, n - 1); }
  }

  /** A list is left alone exactly when no peak in it strikes out another. */
  lemma UnchangedExactly(peaks: seq<Peak>, maxOrder: nat, depth: real)
    ensures Filtered(peaks, maxOrder, depth) == peaks <==> NoPair(peaks, maxOrder, depth)
  {
    hide Kills, Flags;
    FilteredHasNoPair(peaks, maxOrder, depth);
    if NoPair(peaks, maxOrder, depth) {
      forall j: nat | j < |peaks|
        ensures Flags(peaks, maxOrder, depth)[j]
      {
        if !Flags(peaks, maxOrder, depth)[j] {
          var i, order := EveryRejectHasAKiller(peaks, maxOrder, depth, j);
        }
      }
      KeptAll(Flags(peaks, maxOrder, depth), |peaks|);
    }
  }

  lemma Idempotent(peaks: seq<Peak>, maxOrder: nat, depth: real)
    ensures Filtered(Filtered(peaks, maxOrder, depth), maxOrder, depth) == Filtered(peaks, maxOrder, depth)
  {
    hide NoPair, Filtered;
    FilteredHasNoPair(peaks, maxOrder, depth);
    UnchangedExactly(Filtered(peaks, maxOrder, depth), maxOrder, depth);
  }

  // ---------------------------------------------------------------- the same, written out

  /** Striking out: the range is within 0.15 of `order` times that of p, taken as at least 1, and the ratio below depth times p's. */
  lemma KillsExactly(order: int, depth: real, p: Peak, q: Peak, base: int)
    requires base == if p.rangeBin > 1 then p.rangeBin else 1
    ensures Kills(order, depth, p, q) <==> -3 * base < 20 * (q.rangeBin - order * base) < 3 * base && q.snr < depth * p.snr
  {
    hide Abs;
    NearMultiple(q.rangeBin, base, order);
    AbsBelow(q.rangeBin as real / base as real - order as real);
  }

  lemma AbsBelow(x: real)
    ensures Abs(x) < 0.15 <==> -0.15 < x < 0.15
  {}

  lemma NearMultiple(q: int, base: int, order: int)
    requires base >= 1
    ensures -0.15 < q as real / base as real - order as real < 0.15 <==> -3 * base < 20 * (q - order * base) < 3 * base
  {
    var b, x, k := base as real, q as real / base as real - order as real, q - order * base;
    Offset(q, base, order);
    SmallOffset(x, b, k as real);
  }

  lemma Offset(q: int, base: int, order: int)
    requires base >= 1
    ensures (q as real / base as real - order as real) * base as real == (q - order * base) as real
  {
    var r := q as real / base as real;
    assert r * base as real == q as real;
    assert (r - order as real) * base as real == r * base as real - order as real * base as real;
    assert order as real * base as real == (order * base) as real;
  }

  lemma SmallOffset(x: real, b: real, k: real)
    requires b >= 1.0 && x * b == k
    ensures -0.15 < x < 0.15 <==> -3.0 * b < 20.0 * k < 3.0 * b
  {
    if -0.15 < x < 0.15 {
      ProductPositive(x + 0.15, b);
      ProductPositive(0.15 - x, b);
    } else if x >= 0.15 {
      ProductMonotone(0.15, x, b);
    } else {
      ProductMonotone(x, -0.15, b);
    }
  }

  /** In a sweep a peak stays exactly when it was there and none of the others that were still there at their turn strikes it out. */
  lemma {:induction false} SweepExactly(peaks: seq<Peak>, valid: seq<bool>, order: int, depth: real, n: nat, j: nat)
    requires |valid| == |peaks| && n <= |peaks| && j < |peaks|
    ensures Sweep(peaks, valid, order, depth, n)[j] <==>
      valid[j] && forall i: nat :: i < n && i != j && Kills(order, depth, peaks[i], peaks[j]) ==> !Sweep(peaks, valid, order, depth, i)[i]
  {
    hide Kills, Sweep;
    if n == 0 {
      SweepStart(peaks, valid, order, depth);
    } else {
      SweepExactly(peaks, valid, order, depth, n - 1, j);
      SweepTurn(peaks, valid, order, depth, n - 1, j);
    }
  }

  lemma SweepTurn(peaks: seq<Peak>, valid: seq<bool>, order: int, depth: real, i: nat, j: nat)
    requires |valid| == |peaks| && i < |peaks| && j < |peaks|
    ensures Sweep(peaks, valid, order, depth, i + 1)[j] <==>
      Sweep(peaks, valid, order, depth, i)[j] && !(i != j && Kills(order, depth, peaks[i], peaks[j]) && Sweep(peaks, valid, order, depth, i)[i])
  {
    hide Kills;
  }

  /** The orders are swept one after the other, from 2 to the configured one. */
  lemma FlagsBySweeps(peaks: seq<Peak>, order: nat, depth: real, j: nat)
    requires j < |peaks|
    ensures order < 2 ==> Flags(peaks, order, depth)[j]
    ensures order >= 2 ==> Flags(peaks, order, depth) == Sweep(peaks, Flags(peaks, order - 1, depth), order, depth, |peaks|)
  {
    hide Sweep;
  }

  /** A peak that has been struck out strikes out no other: at 10, 20 and 40 the second goes and the third stays. */
  lemma StruckPeaksDoNotStrike()
    ensures var a, b, c := Peak(10, 0, 0.0, 0.0, 100.0), Peak(20, 0, 0.0, 0.0, 10.0), Peak(40, 0, 0.0, 0.0, 1.0);
      Kills(2, 0.2, a, b) && Kills(2, 0.2, b, c) && Filtered([a, b, c], 3, 0.2) == [a, c]
  {
    var a, b, c := Peak(10, 0, 0.0, 0.0, 100.0), Peak(20, 0, 0.0, 0.0, 10.0), Peak(40, 0, 0.0, 0.0, 1.0);
    var s := [a, b, c];
    ExampleKills();
    hide Kills, Sweep, Kept;
    FlagsBySweeps(s, 1, 0.2, 0);
    FlagsBySweeps(s, 2, 0.2, 0);
    FlagsBySweeps(s, 3, 0.2, 0);
    assert Flags(s, 1, 0.2) == [true, true, true];
    SweepOf(s, [true, true, true], 2);
    SweepOf(s, [true, false, true], 3);
    KeptOf([true, false, true]);
    assert Survivors(s, 3, 0.2) == [0, 2];
  }

  lemma KeptOf(valid: seq<bool>)
    requires valid == [true, false, true]
    ensures Kept(valid, 3) == [0, 2]
  {
    hide Kept;
    KeptNone(valid);
    KeptNext(valid, 0);
    KeptNext(valid, 1);
    assert Kept(valid, 2) == [0];
    KeptNext(valid, 2);
  }

  lemma ExampleKills()
    ensures var a, b, c := Peak(10, 0, 0.0, 0.0, 100.0), Peak(20, 0, 0.0, 0.0, 10.0), Peak(40, 0, 0.0, 0.0, 1.0);
      && Kills(2, 0.2, a, b) && Kills(2, 0.2, b, c) && !Kills(2, 0.2, a, c) && !Kills(2, 0.2, b, a) && !Kills(2, 0.2, c, a) && !Kills(2, 0.2, c, b)
      && !Kills(3, 0.2, a, b) && !Kills(3, 0.2, b, c) && !Kills(3, 0.2, a, c) && !Kills(3, 0.2, b, a) && !Kills(3, 0.2, c, a) && !Kills(3, 0.2, c, b)
  {}

  lemma SweepOf(s: seq<Peak>, valid: seq<bool>, order: int)
    requires |s| == 3 && valid == [true, order == 2, true]
    requires !Kills(order, 0.2, s[0], s[2]) && !Kills(order, 0.2, s[2], s[0]) && !Kills(order, 0.2, s[1], s[0])
    requires order == 2 ==> Kills(order, 0.2, s[0], s[1])
    ensures Sweep(s, valid, order, 0.2, 3) == [true, false, true]
  {
    hide Kills;
    assert Sweep(s, valid, order, 0.2, 0) == valid;
    assert Sweep(s, valid, order, 0.2, 1) == [true, false, true];
    assert Sweep(s, valid, order, 0.2, 2) == [true, false, true];
  }

  // ---------------------------------------------------------------- strongest peaks

  predicate IsStrongest(peaks: seq<Peak>, m: nat) {
    m < |peaks| && forall j: nat :: j < |peaks| ==> peaks[j].snr <= peaks[m].snr
  }

  predicate NonNegative(peaks: seq<Peak>) {
    forall j: nat :: j < |peaks| ==> peaks[j].snr >= 0.0
  }

  lemma KilledBelow(order: int, depth: real, p: Peak, q: Peak, top: real)
    requires 0.0 < depth <= 1.0 && 0.0 <= p.snr <= top && Kills(order, depth, p, q)
    ensures q.snr < top * depth <= top
  {
    hide Harmonic;
    ProductMonotone(p.snr, top, depth);
    ProductMonotone(depth, 1.0, top);
  }

  /** A strongest peak is never struck out, and every rejected peak is weaker than depth times its ratio. */
  lemma StrongestIsKept(peaks: seq<Peak>, maxOrder: nat, depth: real, m: nat)
    requires 0.0 < depth <= 1.0 && NonNegative(peaks) && IsStrongest(peaks, m)
    ensures Flags(peaks, maxOrder, depth)[m]
    ensures forall j: nat :: j < |peaks| && !Flags(peaks, maxOrder, depth)[j] ==> peaks[j].snr < peaks[m].snr * depth
  {
    hide Kills, Flags;
    forall j: nat | j < |peaks| && !Flags(peaks, maxOrder, depth)[j]
      ensures peaks[j].snr < peaks[m].snr * depth <= peaks[m].snr
    {
      var i, order := EveryRejectHasAKiller(peaks, maxOrder, depth, j);
      KilledBelow(order, depth, peaks[i], peaks[j], peaks[m].snr);
    }
  }

  ghost predicate KeepsAStrongest(peaks: seq<Peak>, maxOrder: nat, depth: real) {
    exists m: nat :: IsStrongest(peaks, m) && Flags(peaks, maxOrder, depth)[m]
  }

  lemma {:induction false} SomeStrongest(peaks: seq<Peak>) returns (m: nat)
    requires |peaks| > 0
    ensures IsStrongest(peaks, m)
  {
    if |peaks| == 1 {
      m := 0;
    } else {
      var rest := SomeStrongest(peaks[..|peaks| - 1]);
      m := if peaks[|peaks| - 1].snr > peaks[rest].snr then |peaks| - 1 else rest;
      forall j: nat | j < |peaks|
        ensures peaks[j].snr <= peaks[m].snr
      {
        if j < |peaks| - 1 { assert peaks[j] == peaks[..|peaks| - 1][j]; }
      }
    }
  }

  /** With signal-to-noise ratios from the detector, a strongest peak always survives exactly when the depth is at most 1. */
  lemma KeepsAStrongestExactly(maxOrder: nat, depth: real)
    requires maxOrder >= 2 && depth > 0.0
    ensures (forall peaks: seq<Peak> :: |peaks| > 0 && NonNegative(peaks) ==> KeepsAStrongest(peaks, maxOrder, depth)) <==> depth <= 1.0
  {
    if depth <= 1.0 {
      forall peaks: seq<Peak> | |peaks| > 0 && NonNegative(peaks)
        ensures KeepsAStrongest(peaks, maxOrder, depth)
      {
        var m := SomeStrongest(peaks);
        StrongestIsKept(peaks, maxOrder, depth, m);
      }
    } else {
      DeepNullDropsStrongest(maxOrder, depth);
    }
  }

  lemma DeepNullDropsStrongest(maxOrder: nat, depth: real)
    requires maxOrder >= 2 && depth > 1.0
    ensures exists peaks: seq<Peak> :: |peaks| > 0 && NonNegative(peaks) && !KeepsAStrongest(peaks, maxOrder, depth)
  {
    var strong := (1.0 + depth) / 2.0;
    var peaks := [Peak(1, 0, 1.0, 1.0, 1.0), Peak(2, 0, strong, strong, strong)];
    assert Kills(2, depth, peaks[0], peaks[1]);
    if Flags(peaks, maxOrder, depth)[1] {
      WeakerOneStays(peaks, maxOrder, depth);
      NoPairLeft(peaks, 2, maxOrder, depth, 0, 1);
    }
    assert !IsStrongest(peaks, 0);
    assert NonNegative(peaks) && !KeepsAStrongest(peaks, maxOrder, depth);
  }

  lemma WeakerOneStays(peaks: seq<Peak>, maxOrder: nat, depth: real)
    requires |peaks| == 2 && peaks[0].rangeBin == 1 && peaks[1].rangeBin == 2
    ensures Flags(peaks, maxOrder, depth)[0]
  {
    hide Flags;
    if !Flags(peaks, maxOrder, depth)[0] {
      var i, order := EveryRejectHasAKiller(peaks, maxOrder, depth, 0);
    }
  }

  // ---------------------------------------------------------------- the suppressor

  class MultipathSuppressor {
    const enabled: bool
    const nullDepth: real
    const harmonicOrder: int

    /** Non-positive settings fall back to the defaults. */
    constructor (enabled: bool, nullDepth: real, harmonicOrder: int)
      ensures this.enabled == enabled && Valid()
      ensures this.nullDepth == (if nullDepth <= 0.0 then 0.2 else nullDepth)
      ensures this.harmonicOrder == if harmonicOrder <= 0 then 3 else harmonicOrder
    {
      this.enabled := enabled;
      this.nullDepth := if nullDepth <= 0.0 then 0.2 else nullDepth;
      this.harmonicOrder := if harmonicOrder <= 0 then 3 else harmonicOrder;
    }

    ghost predicate Valid() { nullDepth > 0.0 && harmonicOrder > 0 }

    /** Filters the first n peaks in place and returns how many are left. */
    method Apply(peaks: array<Peak>, n: nat) returns (left: nat)
      requires Valid() && n <= peaks.Length
      modifies peaks
      ensures left <= n
      ensures peaks[..left] == if enabled && n >= 2 then Filtered(old(peaks[..n]), harmonicOrder, nullDepth) else old(peaks[..n])
      ensures peaks[left..] == old(peaks[left..])
    {
      hide Kills, Flags;
      left := n;
      if !enabled || n < 2 { return; }
      ghost var was := peaks[..n];
      var valid := new bool[n](_ => true);
      FlagsStart(was, nullDepth);
      for order := 2 to harmonicOrder + 1
        invariant valid[..] == Flags(was, order - 1, nullDepth)
        invariant peaks[..] == old(peaks[..])
      {
        ghost var before := valid[..];
        for i := 0 to n
          invariant valid[..] == Sweep(was, before, order, nullDepth, i)
          invariant peaks[..] == old(peaks[..])
        {
          assert peaks[..n] == was;
          if valid[i] {
            Strike(peaks, valid, order, i, n);
          } else {
            PassSkipped(was, valid[..], order, nullDepth, i);
          }
        }
        FlagsNext(was, order, nullDepth);
      }
      assert peaks[..n] == was;
      left := Compact(peaks, valid, n);
      assert valid[..] == Flags(was, harmonicOrder, nullDepth);
    }

    /** One peak against all others. */
    method Strike(peaks: array<Peak>, valid: array<bool>, order: int, i: nat, n: nat)
      requires i < n == valid.Length <= peaks.Length && valid[i]
      modifies valid
      ensures valid[..] == Pass(peaks[..n], old(valid[..]), order, nullDepth, i)
    {
      hide Harmonic;
      var primary := peaks[i];
      for j := 0 to n
        invariant forall k: nat :: k < n ==>
                    valid[k] == (old(valid[k]) && !(k < j && k != i && Kills(order, nullDepth, primary, peaks[k])))
      {
        if i != j && valid[j] && Harmonic(order, primary, peaks[j]) && peaks[j].snr < primary.snr * nullDepth {
          valid[j] := false;
        }
      }
    }

    /** The flagged peaks move to the front of the same array. */
    static method Compact(peaks: array<Peak>, valid: array<bool>, n: nat) returns (left: nat)
      requires n == valid.Length <= peaks.Length
      modifies peaks
      ensures left <= n && left == |Kept(valid[..], n)|
      ensures peaks[..left] == At(old(peaks[..n]), Kept(valid[..], n))
      ensures peaks[left..] == old(peaks[left..])
    {
      hide Kept;
      ghost var was := peaks[..];
      ghost var flags := valid[..];
      left := 0;
      KeptNone(flags);
      for i := 0 to n
        invariant left == |Kept(flags, i)| <= i
        invariant forall k: nat :: k < left ==> peaks[k] == was[Kept(flags, i)[k]]
        invariant forall k: nat :: left <= k < peaks.Length ==> peaks[k] == was[k]
      {
        KeptNext(flags, i);
        if valid[i] {
          peaks[left] := peaks[i];
          left := left + 1;
        }
      }
    }
  }

  lemma KeptNone(valid: seq<bool>)
    ensures Kept(valid, 0) == []
  {}

  lemma KeptNext(valid: seq<bool>, i: nat)
    requires i < |valid|
    ensures Kept(valid, i + 1) == if valid[i] then Kept(valid, i) + [i] else Kept(valid, i)
  {}

  lemma PassSkipped(peaks: seq<Peak>, valid: seq<bool>, order: int, depth: real, i: nat)
    requires |valid| == |peaks| && i < |peaks| && !valid[i]
    ensures Pass(peaks, valid, order, depth, i) == valid
  {}

  lemma FlagsStart(peaks: seq<Peak>, depth: real)
    ensures Flags(peaks, 1, depth) == seq(|peaks|, (j: nat) => true)
  {}

  lemma FlagsNext(peaks: seq<Peak>, order: nat, depth: real)
    requires order >= 2
    ensures Flags(peaks, order, depth) == Sweep(peaks, Flags(peaks, order - 1, depth), order, depth, |peaks|)
  {}
}
