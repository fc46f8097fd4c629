/** Phase unwrapping: the in-place version, the copying version, and what each recovers. */
module PhaseUnwrap {
  import opened Reals

  // ---------------------------------------------------------------- whole turns

  /** k whole turns. */
  ghost function Turns(k: int, pi: real): real { 2.0 * pi * k as real }

  lemma TurnsAdd(j: int, k: int, pi: real)
    ensures Turns(j + k, pi) == Turns(j, pi) + Turns(k, pi)
  {
    assert (j + k) as real == j as real + k as real;
  }

  lemma TurnsSmall(pi: real)
    ensures Turns(0, pi) == 0.0 && Turns(1, pi) == 2.0 * pi && Turns(-1, pi) == -2.0 * pi
  {}

  /** Fewer than one turn is none. */
  lemma LessThanATurn(k: int, pi: real)
    requires pi > 0.0 && -2.0 * pi < Turns(k, pi) < 2.0 * pi
    ensures k == 0
  {
    if k >= 1 { ScaleTurn(k as real, pi); }
    if k <= -1 { ScaleTurn((-k) as real, pi); }
  }

  lemma ScaleTurn(k: real, pi: real)
    requires k >= 1.0 && pi > 0.0
    ensures 2.0 * pi * k >= 2.0 * pi
  {}

  // ---------------------------------------------------------------- one step

  /** First correction loop: whole turns off until the step is at most the threshold. */
  function Down(d: real, threshold: real, pi: real): (r: real)
    requires pi > 3.0
    ensures r <= threshold && (if d <= threshold then r == d else threshold - 2.0 * pi < r)
    decreases d - threshold
  {
    if d > threshold then Down(d - 2.0 * pi, threshold, pi) else d
  }

  /** Second correction loop: whole turns on until the step is at least the negated threshold. */
  function Up(d: real, threshold: real, pi: real): (r: real)
    requires pi > 3.0
    ensures r >= -threshold && (if d >= -threshold then r == d else r < -threshold + 2.0 * pi)
    decreases -threshold - d
  {
    if d < -threshold then Up(d + 2.0 * pi, threshold, pi) else d
  }

  function Wrap(d: real, threshold: real, pi: real): real
    requires pi > 3.0
  {
    Up(Down(d, threshold, pi), threshold, pi)
  }

  lemma {:induction false} DownTurns(d: real, threshold: real, pi: real) returns (k: int)
    requires pi > 3.0
    ensures Down(d, threshold, pi) == d + Turns(k, pi)
    decreases d - threshold
  {
    hide Turns;
    TurnsSmall(pi);
    if d > threshold {
      var j := DownTurns(d - 2.0 * pi, threshold, pi);
      TurnsAdd(j, -1, pi);
      k := j - 1;
    } else {
      k := 0;
    }
  }

  lemma {:induction false} UpTurns(d: real, threshold: real, pi: real) returns (k: int)
    requires pi > 3.0
    ensures Up(d, threshold, pi) == d + Turns(k, pi)
    decreases -threshold - d
  {
    hide Turns;
    TurnsSmall(pi);
    if d < -threshold {
      var j := UpTurns(d + 2.0 * pi, threshold, pi);
      TurnsAdd(j, 1, pi);
      k := j + 1;
    } else {
      k := 0;
    }
  }

  /** A corrected step is the step plus whole turns. */
  lemma WrapTurns(d: real, threshold: real, pi: real) returns (k: int)
    requires pi > 3.0
    ensures Wrap(d, threshold, pi) == d + Turns(k, pi)
  {
    hide Turns;
    var i := DownTurns(d, threshold, pi);
    var j := UpTurns(Down(d, threshold, pi), threshold, pi);
    TurnsAdd(i, j, pi);
    k := i + j;
  }

  /** The correction brings every step within the threshold exactly when the threshold is at least half a turn. */
  lemma StepBoundExactly(threshold: real, pi: real)
    requires pi > 3.0
    ensures (forall d: real :: Abs(Wrap(d, threshold, pi)) <= threshold) <==> threshold >= pi
  {
    if threshold < pi {
      assert Abs(Wrap(pi, threshold, pi)) > threshold by { HalfTurnEscapes(threshold, pi); }
    }
  }

  /** Below half a turn, the step pi itself goes down a turn and comes back up. */
  lemma HalfTurnEscapes(threshold: real, pi: real)
    requires pi > 3.0 && threshold < pi
    ensures Abs(Wrap(pi, threshold, pi)) > threshold
    ensures threshold >= 0.0 ==> Wrap(pi, threshold, pi) == pi
  {
    if threshold >= 0.0 {
      assert Down(pi, threshold, pi) == Down(-pi, threshold, pi) == -pi;
      assert Up(-pi, threshold, pi) == Up(pi, threshold, pi) == pi;
    }
  }

  /** Steps that differ by whole turns are corrected alike when one of them is strictly inside half a turn. */
  lemma WrapIsUnique(d: real, r: real, k: int, pi: real)
    requires pi > 3.0 && -pi < r < pi && d == r + Turns(k, pi)
    ensures Wrap(d, pi, pi) == r
  {
    hide Turns;
    var j := WrapTurns(d, pi, pi);
    StepBoundExactly(pi, pi);
    TurnsAdd(k, j, pi);
    LessThanATurn(k + j, pi);
    TurnsSmall(pi);
  }

  // ---------------------------------------------------------------- whole sequences

  /** In-place unwrapping: each step is taken from the value already corrected. */
  function Unwrapped(x: seq<real>, threshold: real, pi: real): (y: seq<real>)
    requires pi > 3.0
    ensures |y| == |x|
  {
    if |x| <= 1 then x else
      var n := |x| - 1;
      var before := Unwrapped(x[..n], threshold, pi);
      before + [before[n - 1] + Wrap(x[n] - before[n - 1], threshold, pi)]
  }

  /** Copying unwrapping: each step is taken between neighbouring inputs, threshold half a turn. */
  function UnwrappedFromInput(x: seq<real>, pi: real): (y: seq<real>)
    requires pi > 3.0
    ensures |y| == |x|
  {
    if |x| <= 1 then x else
      var n := |x| - 1;
      var before := UnwrappedFromInput(x[..n], pi);
      before + [before[n - 1] + Wrap(x[n] - x[n - 1], pi, pi)]
  }

  lemma {:induction false} UnwrappedAt(x: seq<real>, threshold: real, pi: real, i: nat)
    requires pi > 3.0 && 0 < i < |x|
    ensures var y := Unwrapped(x, threshold, pi); y[i] == y[i - 1] + Wrap(x[i] - y[i - 1], threshold, pi) && y[0] == x[0]
  {
    hide Wrap;
    var n := |x| - 1;
    if i < n { UnwrappedAt(x[..n], threshold, pi, i); }
    UnwrappedStart(x, threshold, pi);
  }

  lemma {:induction false} UnwrappedStart(x: seq<real>, threshold: real, pi: real)
    requires pi > 3.0 && |x| > 0
    ensures Unwrapped(x, threshold, pi)[0] == x[0]
  {
    if |x| > 1 { UnwrappedStart(x[..|x| - 1], threshold, pi); }
  }

  lemma {:induction false} UnwrappedFromInputAt(x: seq<real>, pi: real, i: nat)
    requires pi > 3.0 && i < |x|
    ensures var y := UnwrappedFromInput(x, pi); y[i] == if i == 0 then x[0] else y[i - 1] + Wrap(x[i] - x[i - 1], pi, pi)
  {
    hide Wrap;
    var n := |x| - 1;
    if i < n { UnwrappedFromInputAt(x[..n], pi, i); }
  }

  /** Every output is its input plus whole turns. */
  lemma {:induction false} OnlyWholeTurns(x: seq<real>, threshold: real, pi: real, i: nat) returns (k: int)
    requires pi > 3.0 && i < |x|
    ensures Unwrapped(x, threshold, pi)[i] == x[i] + Turns(k, pi)
  {
    hide Turns, Wrap;
    if i == 0 {
      UnwrappedStart(x, threshold, pi);
      TurnsSmall(pi);
      k := 0;
    } else {
      UnwrappedAt(x, threshold, pi, i);
      k := WrapTurns(x[i] - Unwrapped(x, threshold, pi)[i - 1], threshold, pi);
    }
  }

  ghost predicate StepsWithin(y: seq<real>, bound: real) {
    forall i: nat :: 0 < i < |y| ==> Abs(y[i] - y[i - 1]) <= bound
  }

  /** Successive outputs stay within the threshold on every input exactly when it is at least half a turn. */
  lemma SmoothExactly(threshold: real, pi: real)
    requires pi > 3.0
    ensures (forall x: seq<real> :: StepsWithin(Unwrapped(x, threshold, pi), threshold)) <==> threshold >= pi
  {
    hide Wrap;
    StepBoundExactly(threshold, pi);
    if threshold >= pi {
      forall x: seq<real>
        ensures StepsWithin(Unwrapped(x, threshold, pi), threshold)
      {
        forall i: nat | 0 < i < |x|
          ensures Abs(Unwrapped(x, threshold, pi)[i] - Unwrapped(x, threshold, pi)[i - 1]) <= threshold
        {
          UnwrappedAt(x, threshold, pi, i);
        }
      }
    } else {
      var x := [0.0, pi];
      UnwrappedAt(x, threshold, pi, 1);
      HalfTurnEscapes(threshold, pi);
      assert !StepsWithin(Unwrapped(x, threshold, pi), threshold);
    }
  }

  /** The shipped configuration asks for 3.14159, which is below half a turn. */
  lemma ShippedThresholdEscapes(pi: real)
    requires pi > 3.14159
    ensures !StepsWithin(Unwrapped([0.0, pi], 3.14159, pi), 3.14159)
  {
    UnwrappedAt([0.0, pi], 3.14159, pi, 1);
    HalfTurnEscapes(3.14159, pi);
  }

  /** wrapped is the true phase, each sample off by whole turns. */
  ghost predicate WrappedFrom(wrapped: seq<real>, truth: seq<real>, turns: seq<int>, pi: real) {
    && |wrapped| == |truth| == |turns|
    && forall i: nat :: i < |truth| ==> wrapped[i] == truth[i] + Turns(turns[i], pi)
  }

  /** A phase whose true steps stay inside half a turn is recovered up to the constant of its first sample. */
  lemma {:induction false} Recovers(wrapped: seq<real>, truth: seq<real>, turns: seq<int>, pi: real, i: nat)
    requires pi > 3.0 && WrappedFrom(wrapped, truth, turns, pi) && i < |truth|
    requires forall j: nat :: 0 < j < |truth| ==> -pi < truth[j] - truth[j - 1] < pi
    ensures Unwrapped(wrapped, pi, pi)[i] == truth[i] + (wrapped[0] - truth[0])
  {
    hide Turns, Wrap;
    if i == 0 {
      UnwrappedStart(wrapped, pi, pi);
    } else {
      Recovers(wrapped, truth, turns, pi, i - 1);
      UnwrappedAt(wrapped, pi, pi, i);
      TurnsAdd(turns[i] - turns[0], turns[0], pi);
      WrapIsUnique(wrapped[i] - Unwrapped(wrapped, pi, pi)[i - 1], truth[i] - truth[i - 1], turns[i] - turns[0], pi);
    }
  }

  // ---------------------------------------------------------------- the two versions compared

  /** Input step i is an odd number of half turns. */
  ghost predicate OddStep(x: seq<real>, i: nat, pi: real)
    requires 0 < i < |x|
  {
    exists k: int :: x[i] - x[i - 1] == pi + Turns(k, pi)
  }

  /** A step of exactly an odd number of half turns keeps its sign. */
  lemma WrapOdd(d: real, k: int, pi: real)
    requires pi > 3.0 && d == pi + Turns(k, pi)
    ensures Wrap(d, pi, pi) == if d > 0.0 then pi else -pi
  {
    hide Turns;
    TurnsSmall(pi);
    if d > pi {
      var j := DownTurns(d, pi, pi);
      TurnsAdd(k, j, pi);
      LessThanATurn(k + j, pi);
    } else if d < -pi {
      var j := UpTurns(d, pi, pi);
      TurnsAdd(k, j, pi);
      TurnsAdd(k + j, 1, pi);
      LessThanATurn(k + j + 1, pi);
    } else if d > 0.0 {
      LessThanATurn(k, pi);
    } else {
      TurnsAdd(k, 1, pi);
      LessThanATurn(k + 1, pi);
    }
  }

  /** Any other step lands strictly inside half a turn. */
  lemma WrapStrict(d: real, pi: real)
    requires pi > 3.0 && forall k: int :: d != pi + Turns(k, pi)
    ensures -pi < Wrap(d, pi, pi) < pi
  {
    hide Turns;
    StepBoundExactly(pi, pi);
    var k := WrapTurns(d, pi, pi);
    TurnsAdd(-k, k, pi);
    TurnsAdd(-k - 1, 1, pi);
    TurnsAdd(-1, -k, pi);
    TurnsSmall(pi);
    assert d != pi + Turns(-k, pi) && d != pi + Turns(-k - 1, pi);
  }

  // ---------------------------------------------------------------- whole turns in a step

  function Ceiling(x: real): int { -((-x).Floor) }

  /** The whole turns in a step: the nearest number, on a tie the one closer to zero. */
  function TurnsIn(d: real, pi: real): int
    requires pi > 0.0
  {
    if d > 0.0 then Ceiling((d - pi) / (2.0 * pi)) else ((d + pi) / (2.0 * pi)).Floor
  }

  lemma CeilingIs(x: real, n: int)
    requires (n - 1) as real < x <= n as real
    ensures Ceiling(x) == n
  {}

  lemma FloorIs(x: real, n: int)
    requires n as real <= x < (n + 1) as real
    ensures x.Floor == n
  {}

  lemma QuotientBetween(a: real, b: real, lo: real, hi: real)
    requires b > 0.0 && b * lo < a <= b * hi
    ensures lo < a / b <= hi
  {
    var q := a / b;
    assert q * b == a;
    if q <= lo { ProductMonotone(q, lo, b); }
    if q > hi { ProductPositive(q - hi, b); }
  }

  lemma QuotientFrom(a: real, b: real, lo: real, hi: real)
    requires b > 0.0 && b * lo <= a < b * hi
    ensures lo <= a / b < hi
  {
    QuotientBetween(-a, b, -hi, -lo);
    assert (-a) / b == -(a / b);
  }

  /** A wrapped step keeps its sign at half a turn. */
  lemma WrapSide(d: real, pi: real)
    requires pi > 3.0
    ensures if d > 0.0 then -pi < Wrap(d, pi, pi) <= pi else -pi <= Wrap(d, pi, pi) < pi
  {}

  /** Wrapping a step takes off exactly the whole turns in it. */
  lemma WrapTakesTurns(d: real, pi: real)
    requires pi > 3.0
    ensures Wrap(d, pi, pi) == d - Turns(TurnsIn(d, pi), pi)
  {
    hide Wrap, Ceiling;
    var k := WrapTurns(d, pi, pi);
    WrapSide(d, pi);
    TurnsAdd(k, -k, pi);
    TurnsAdd(-k - 1, 1, pi);
    TurnsAdd(-k, 1, pi);
    TurnsSmall(pi);
    if d > 0.0 {
      QuotientBetween(d - pi, 2.0 * pi, (-k - 1) as real, (-k) as real);
      CeilingIs((d - pi) / (2.0 * pi), -k);
    } else {
      QuotientFrom(d + pi, 2.0 * pi, (-k) as real, (-k + 1) as real);
      FloorIs((d + pi) / (2.0 * pi), -k);
    }
  }

  /** The whole turns in the first n input steps together. */
  function Crossed(x: seq<real>, pi: real, n: nat): int
    requires pi > 3.0 && n < |x|
  {
    if n == 0 then 0 else Crossed(x, pi, n - 1) + TurnsIn(x[n] - x[n - 1], pi)
  }

  lemma {:induction false} CopyTakesTurns(x: seq<real>, pi: real, i: nat)
    requires pi > 3.0 && i < |x|
    ensures UnwrappedFromInput(x, pi)[i] == x[i] - Turns(Crossed(x, pi, i), pi)
  {
    hide Wrap, UnwrappedFromInput, TurnsIn, Turns;
    UnwrappedFromInputAt(x, pi, i);
    TurnsSmall(pi);
    if i > 0 {
      CopyTakesTurns(x, pi, i - 1);
      WrapTakesTurns(x[i] - x[i - 1], pi);
      TurnsAdd(Crossed(x, pi, i - 1), TurnsIn(x[i] - x[i - 1], pi), pi);
    }
  }

  /**
   At step i both versions turn the same way: it is no odd step, or it keeps its sign when the whole turns
   in the steps before it are added.
   */
  ghost predicate SameTurn(x: seq<real>, pi: real, i: nat)
    requires pi > 3.0 && 0 < i < |x|
  {
    OddStep(x, i, pi) ==> (x[i] - x[i - 1] > 0.0 <==> x[i] - x[i - 1] + Turns(Crossed(x, pi, i - 1), pi) > 0.0)
  }

  lemma OddStepShifted(d: real, k: int, m: int, pi: real)
    requires pi > 3.0 && d == pi + Turns(k, pi)
    ensures Wrap(d - Turns(m, pi), pi, pi) == if d - Turns(m, pi) > 0.0 then pi else -pi
  {
    hide Turns, Wrap;
    TurnsAdd(m, -m, pi);
    TurnsAdd(k, -m, pi);
    TurnsSmall(pi);
    WrapOdd(d - Turns(m, pi), k - m, pi);
  }

  lemma OtherStepShifted(d: real, m: int, pi: real)
    requires pi > 3.0 && -pi < Wrap(d, pi, pi) < pi
    ensures Wrap(d - Turns(m, pi), pi, pi) == Wrap(d, pi, pi)
  {
    hide Turns, Wrap;
    var j := WrapTurns(d, pi, pi);
    TurnsAdd(j, -j, pi);
    TurnsAdd(-j - m, m, pi);
    TurnsSmall(pi);
    WrapIsUnique(d - Turns(m, pi), Wrap(d, pi, pi), -j - m, pi);
  }

  lemma SameStep(x: seq<real>, pi: real, i: nat, m: int)
    requires pi > 3.0 && 0 < i < |x| && UnwrappedFromInput(x, pi)[i - 1] == x[i - 1] + Turns(m, pi)
    ensures Wrap(x[i] - UnwrappedFromInput(x, pi)[i - 1], pi, pi) == Wrap(x[i] - x[i - 1], pi, pi) <==> SameTurn(x, pi, i)
  {
    hide Turns, Wrap, Crossed, UnwrappedFromInput;
    CopyTakesTurns(x, pi, i - 1);
    var d := x[i] - x[i - 1];
    if OddStep(x, i, pi) {
      var k :| d == pi + Turns(k, pi);
      WrapOdd(d, k, pi);
      OddStepShifted(d, k, m, pi);
    } else {
      WrapStrict(d, pi);
      OtherStepShifted(d, m, pi);
    }
  }

  lemma {:induction false} VersionsAgreeUpTo(x: seq<real>, pi: real, n: nat)
    requires pi > 3.0 && n <= |x|
    ensures (forall i: nat :: i < n ==> Unwrapped(x, pi, pi)[i] == UnwrappedFromInput(x, pi)[i])
       <==> (forall i: nat :: 0 < i < n ==> SameTurn(x, pi, i))
  {
    hide Wrap, SameTurn, Turns;
    if n > 0 {
      UnwrappedFromInputAt(x, pi, 0);
      UnwrappedStart(x, pi, pi);
    }
    if n > 1 {
      var i := n - 1;
      VersionsAgreeUpTo(x, pi, i);
      UnwrappedAt(x, pi, pi, i);
      UnwrappedFromInputAt(x, pi, i);
      if forall j: nat :: j < i ==> Unwrapped(x, pi, pi)[j] == UnwrappedFromInput(x, pi)[j] {
        var m := OnlyWholeTurns(x, pi, pi, i - 1);
        SameStep(x, pi, i, m);
      }
    }
  }

  /** The in-place and the copying version agree exactly when they turn the same way at every odd step. */
  lemma VersionsAgreeExactly(x: seq<real>, pi: real)
    requires pi > 3.0
    ensures Unwrapped(x, pi, pi) == UnwrappedFromInput(x, pi) <==> forall i: nat :: 0 < i < |x| ==> SameTurn(x, pi, i)
  {
    hide SameTurn;
    VersionsAgreeUpTo(x, pi, |x|);
  }

  /** In particular they agree when no input step is an odd number of half turns. */
  lemma VersionsAgreeWithoutOddSteps(x: seq<real>, pi: real)
    requires pi > 3.0 && forall i: nat :: 0 < i < |x| ==> !OddStep(x, i, pi)
    ensures Unwrapped(x, pi, pi) == UnwrappedFromInput(x, pi)
  {
    hide OddStep;
    VersionsAgreeExactly(x, pi);
  }

  /** With odd steps they can differ. */
  lemma VersionsDiffer(pi: real)
    requires pi > 3.0
    ensures var x := [0.0, -2.0 * pi, -pi];
      Unwrapped(x, pi, pi) == [0.0, 0.0, -pi] && UnwrappedFromInput(x, pi) == [0.0, 0.0, pi]
  {
    var x := [0.0, -2.0 * pi, -pi];
    UnwrappedAt(x, pi, pi, 1);
    UnwrappedAt(x, pi, pi, 2);
    UnwrappedFromInputAt(x, pi, 1);
    UnwrappedFromInputAt(x, pi, 2);
    UnwrappedFromInputAt(x, pi, 0);
    assert Up(-2.0 * pi, pi, pi) == Up(0.0, pi, pi) == 0.0;
  }

  // ---------------------------------------------------------------- the methods

  /** The two correction loops at sample i. */
  method CorrectStep(phases: array<real>, i: nat, threshold: real, pi: real)
    requires pi > 3.0 && 0 < i < phases.Length
    modifies phases
    ensures phases[i] - phases[i - 1] == Wrap(old(phases[i] - phases[i - 1]), threshold, pi)
    ensures phases[..i] == old(phases[..i]) && phases[i + 1..] == old(phases[i + 1..])
  {
    ghost var start := phases[i] - phases[i - 1];
    var diff := phases[i] - phases[i - 1];
    while diff > threshold
      invariant phases[..i] == old(phases[..i]) && phases[i + 1..] == old(phases[i + 1..])
      invariant diff == phases[i] - phases[i - 1] && Down(diff, threshold, pi) == Down(start, threshold, pi)
      decreases diff - threshold
    {
      phases[i] := phases[i] - 2.0 * pi;
      diff := phases[i] - phases[i - 1];
    }
    while diff < -threshold
      invariant phases[..i] == old(phases[..i]) && phases[i + 1..] == old(phases[i + 1..])
      invariant diff == phases[i] - phases[i - 1] && Up(diff, threshold, pi) == Up(Down(start, threshold, pi), threshold, pi)
      decreases -threshold - diff
    {
      phases[i] := phases[i] + 2.0 * pi;
      diff := phases[i] - phases[i - 1];
    }
  }

  /** The engine's version, in place. */
  method UnwrapInPlace(phases: array<real>, threshold: real, pi: real)
    requires pi > 3.0
    modifies phases
    ensures phases[..] == Unwrapped(old(phases[..]), threshold, pi)
  {
    hide Unwrapped, Wrap;
    ghost var x := phases[..];
    UnwrappedFirst(x, threshold, pi);
    if phases.Length < 2 { return; }
    for i := 1 to phases.Length
      invariant phases[..i] == Unwrapped(x[..i], threshold, pi)
      invariant phases[i..] == x[i..]
    {
      CorrectStep(phases, i, threshold, pi);
      UnwrappedNext(x, i, phases[i], phases[..i], threshold, pi);
      assert phases[..i + 1] == phases[..i] + [phases[i]];
    }
    assert x[..phases.Length] == x && phases[..phases.Length] == phases[..];
  }

  lemma UnwrappedFirst(x: seq<real>, threshold: real, pi: real)
    requires pi > 3.0
    ensures |x| < 2 ==> Unwrapped(x, threshold, pi) == x
    ensures |x| >= 1 ==> Unwrapped(x[..1], threshold, pi) == x[..1]
    ensures |x| >= 1 ==> UnwrappedFromInput(x[..1], pi) == x[..1]
  {}

  lemma UnwrappedNext(x: seq<real>, i: nat, value: real, before: seq<real>, threshold: real, pi: real)
    requires pi > 3.0 && 0 < i < |x| && before == Unwrapped(x[..i], threshold, pi)
    requires value - before[i - 1] == Wrap(x[i] - before[i - 1], threshold, pi)
    ensures Unwrapped(x[..i + 1], threshold, pi) == before + [value]
  {
    hide Wrap;
    assert x[..i + 1][..i] == x[..i];
  }

  /** The two correction loops of one step. */
  method WrapStep(step: real, pi: real) returns (diff: real)
    requires pi > 3.0
    ensures diff == Wrap(step, pi, pi)
  {
    diff := step;
    while diff > pi
      invariant Down(diff, pi, pi) == Down(step, pi, pi)
      decreases diff - pi
    {
      diff := diff - 2.0 * pi;
    }
    while diff < -pi
      invariant Up(diff, pi, pi) == Up(Down(step, pi, pi), pi, pi)
      decreases -pi - diff
    {
      diff := diff + 2.0 * pi;
    }
  }

  /** The copying version, threshold half a turn. */
  method UnwrapCopy(input: array<real>, output: array<real>, n: int, pi: real)
    requires pi > 3.0 && input != output && n <= input.Length && n <= output.Length
    modifies output
    ensures n > 0 ==> output[..n] == UnwrappedFromInput(input[..n], pi) && output[n..] == old(output[n..])
    ensures n <= 0 ==> unchanged(output)
  {
    hide UnwrappedFromInput, Wrap;
    if n <= 0 { return; }
    ghost var x, rest := input[..n], output[n..];
    UnwrappedFirst(x, pi, pi);
    output[0] := input[0];
    var previous := output[0];
    for i := 1 to n
      invariant output[..i] == UnwrappedFromInput(x[..i], pi) && output[n..] == rest
      invariant previous == output[i - 1]
    {
      var diff := WrapStep(input[i] - input[i - 1], pi);
      ghost var before := output[..i];
      output[i] := previous + diff;
      previous := output[i];
      UnwrappedFromInputNext(x, i, diff, before, pi);
      assert output[..i + 1] == before + [previous];
    }
    assert x[..n] == x;
  }

  lemma UnwrappedFromInputNext(x: seq<real>, i: nat, step: real, before: seq<real>, pi: real)
    requires pi > 3.0 && 0 < i < |x| && before == UnwrappedFromInput(x[..i], pi)
    requires step == Wrap(x[i] - x[i - 1], pi, pi)
    ensures UnwrappedFromInput(x[..i + 1], pi) == before + [before[i - 1] + step]
  {
    hide Wrap;
    assert x[..i + 1][..i] == x[..i];
  }
}
