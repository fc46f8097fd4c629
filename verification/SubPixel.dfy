/** Sub-pixel peak refinement: damped Gauss-Newton, then a log-Gaussian fit, then a parabola. */
module SubPixel {
  import opened Reals
  import opened Numeric
  import opened GridSums

  datatype Vec2 = Vec2(x: real, y: real)
  datatype Mat2 = Mat2(xx: real, xy: real, yx: real, yy: real)
  datatype Option<T> = None | Some(value: T)
  datatype Method = IntegerBin | DampedGaussNewton | GaussianLog | Parabolic

  datatype Outcome = Outcome(rangeOffset: real, dopplerOffset: real, rangeExact: real, dopplerExact: real,
                             converged: bool, iterations: nat, how: Method)

  // ---------------------------------------------------------------- 2 by 2 systems

  function Determinant(a: Mat2): real { a.xx * a.yy - a.xy * a.yx }

  /** Cramer's rule, refused when the determinant is too small. */
  function Solve2x2(a: Mat2, b: Vec2): Option<Vec2> {
    var det := Determinant(a);
    if Abs(det) < 1e-12 then None else
      var inv := 1.0 / det;
      Some(Vec2(inv * (a.yy * b.x - a.xy * b.y), inv * (-a.yx * b.x + a.xx * b.y)))
  }

  ghost predicate Solves(a: Mat2, x: Vec2, b: Vec2) {
    a.xx * x.x + a.xy * x.y == b.x && a.yx * x.x + a.yy * x.y == b.y
  }

  lemma Scaled(inv: real, det: real, u: real)
    requires det != 0.0 && inv == 1.0 / det
    ensures inv * (det * u) == u
  {
    assert inv * det == 1.0;
    assert inv * (det * u) == (inv * det) * u;
  }

  /** A returned vector is the one and only solution. */
  lemma SolutionIsTrue(a: Mat2, b: Vec2, y: Vec2)
    requires Solve2x2(a, b).Some?
    ensures Solves(a, Solve2x2(a, b).value, b)
    ensures Solves(a, y, b) <==> y == Solve2x2(a, b).value
  {
    IsSolution(a, b);
    if Solves(a, y, b) { OnlySolution(a, b, y); }
  }

  lemma IsSolution(a: Mat2, b: Vec2)
    requires Solve2x2(a, b).Some?
    ensures Solves(a, Solve2x2(a, b).value, b)
  {
    hide Determinant;
    FirstRow(a, b, 1.0 / Determinant(a));
    SecondRow(a, b, 1.0 / Determinant(a));
  }

  lemma OnlySolution(a: Mat2, b: Vec2, y: Vec2)
    requires Solve2x2(a, b).Some? && Solves(a, y, b)
    ensures y == Solve2x2(a, b).value
  {
    hide Determinant, Solves;
    var det := Determinant(a);
    Cramer(a, b, y);
    Scaled(1.0 / det, det, y.x);
    Scaled(1.0 / det, det, y.y);
  }

  lemma FirstRow(a: Mat2, b: Vec2, inv: real)
    requires Determinant(a) != 0.0 && inv == 1.0 / Determinant(a)
    ensures a.xx * (inv * (a.yy * b.x - a.xy * b.y)) + a.xy * (inv * (-a.yx * b.x + a.xx * b.y)) == b.x
  {
    Scaled(inv, Determinant(a), b.x);
    assert a.xx * (inv * (a.yy * b.x - a.xy * b.y)) + a.xy * (inv * (-a.yx * b.x + a.xx * b.y)) == inv * (Determinant(a) * b.x);
  }

  lemma SecondRow(a: Mat2, b: Vec2, inv: real)
    requires Determinant(a) != 0.0 && inv == 1.0 / Determinant(a)
    ensures a.yx * (inv * (a.yy * b.x - a.xy * b.y)) + a.yy * (inv * (-a.yx * b.x + a.xx * b.y)) == b.y
  {
    Scaled(inv, Determinant(a), b.y);
    assert a.yx * (inv * (a.yy * b.x - a.xy * b.y)) + a.yy * (inv * (-a.yx * b.x + a.xx * b.y)) == inv * (Determinant(a) * b.y);
  }

  lemma Cramer(a: Mat2, b: Vec2, y: Vec2)
    requires Solves(a, y, b)
    ensures a.yy * b.x - a.xy * b.y == Determinant(a) * y.x
    ensures -a.yx * b.x + a.xx * b.y == Determinant(a) * y.y
  {}

  // ---------------------------------------------------------------- the local model

  /** Rounds to the nearest integer, halves away from zero. */
  function Round(x: real): int { if x >= 0.0 then (x + 0.5).Floor else -((0.5 - x).Floor) }

  lemma RoundMonotone(x: real, lo: int, hi: int)
    requires lo as real <= x <= hi as real
    ensures lo <= Round(x) <= hi
  {}

  /** The matrix and peak under refinement. Rows of the plane are Doppler bins, columns range bins. */
  datatype Setup = Setup(v: Plane, peakR: int, peakD: int, rangeBins: nat, dopplerBins: nat,
                         damping: real, limit: real, maxIterations: nat, cond: Mat2 -> real, hypot: (real, real) -> real)

  ghost predicate ValidSetup(s: Setup) {
    && s.damping > 0.0
    && forall x: real, y: real :: s.hypot(x, y) >= 0.0 && Square(s.hypot(x, y)) == Square(x) + Square(y)
  }

  function At(s: Setup, r: int, d: int): real {
    if r < 0 || r >= s.rangeBins || d < 0 || d >= s.dopplerBins then 0.0 else s.v(d, r)
  }

  /** Central differences along range and Doppler. */
  function Gradient(s: Setup, r: int, d: int): Vec2 {
    Vec2(0.5 * (At(s, r + 1, d) - At(s, r - 1, d)), 0.5 * (At(s, r, d + 1) - At(s, r, d - 1)))
  }

  function Hessian(s: Setup, r: int, d: int): Mat2 {
    var c := At(s, r, d);
    var cross := 0.25 * (At(s, r + 1, d + 1) - At(s, r + 1, d - 1) - At(s, r - 1, d + 1) + At(s, r - 1, d - 1));
    Mat2(At(s, r + 1, d) - 2.0 * c + At(s, r - 1, d), cross, cross, At(s, r, d + 1) - 2.0 * c + At(s, r, d - 1))
  }

  /** The surface a + b r + c d + e r^2 + f r d + g d^2. */
  datatype Quadratic = Quadratic(a: real, b: real, c: real, e: real, f: real, g: real)

  function Surface(q: Quadratic, r: real, d: real): real {
    q.a + q.b * r + q.c * d + q.e * (r * r) + q.f * (r * d) + q.g * (d * d)
  }

  ghost predicate Follows(s: Setup, q: Quadratic, r: int, d: int) {
    forall i: int, j: int :: r - 1 <= i <= r + 1 && d - 1 <= j <= d + 1 ==> At(s, i, j) == Surface(q, i as real, j as real)
  }

  /** The slopes of the surface at (r, d). */
  function Slopes(q: Quadratic, r: real, d: real): Vec2 { Vec2(q.b + 2.0 * q.e * r + q.f * d, q.c + q.f * r + 2.0 * q.g * d) }

  /** What the second-order terms add at offset (x, y). */
  function Bend(q: Quadratic, x: real, y: real): real { q.e * (x * x) + q.f * (x * y) + q.g * (y * y) }

  /** The surface around (r, d), term by term. */
  lemma SurfaceNear(q: Quadratic, r: real, d: real, x: real, y: real)
    ensures Surface(q, r + x, d + y) == Surface(q, r, d) + x * Slopes(q, r, d).x + y * Slopes(q, r, d).y + Bend(q, x, y)
  {}

  lemma Neighbour(s: Setup, q: Quadratic, r: int, d: int, x: int, y: int)
    requires Follows(s, q, r, d) && -1 <= x <= 1 && -1 <= y <= 1
    ensures At(s, r + x, d + y) == Surface(q, r as real + x as real, d as real + y as real)
  {
    assert (r + x) as real == r as real + x as real && (d + y) as real == d as real + y as real;
  }

  /** On a quadratic surface the differences are the exact gradient and Hessian. */
  lemma DifferencesAreExact(s: Setup, q: Quadratic, r: int, d: int)
    requires Follows(s, q, r, d)
    ensures Gradient(s, r, d) == Slopes(q, r as real, d as real)
    ensures Hessian(s, r, d) == Mat2(2.0 * q.e, q.f, q.f, 2.0 * q.g)
  {
    hide At, Surface, Follows, Slopes;
    Around(s, q, r, d, 0, 0);
    Around(s, q, r, d, 1, 0);
    Around(s, q, r, d, -1, 0);
    Around(s, q, r, d, 0, 1);
    Around(s, q, r, d, 0, -1);
    Around(s, q, r, d, 1, 1);
    Around(s, q, r, d, 1, -1);
    Around(s, q, r, d, -1, 1);
    Around(s, q, r, d, -1, -1);
  }

  /** x times v for x in -1, 0, 1. */
  function Signed(x: int, v: real): real { if x == 0 then 0.0 else if x > 0 then v else -v }

  lemma SignedIs(x: int, v: real)
    requires -1 <= x <= 1
    ensures x as real * v == Signed(x, v)
  {}

  lemma BendIs(q: Quadratic, x: int, y: int)
    requires -1 <= x <= 1 && -1 <= y <= 1
    ensures Bend(q, x as real, y as real) == (if x == 0 then 0.0 else q.e) + Signed(x, Signed(y, q.f)) + (if y == 0 then 0.0 else q.g)
  {
    assert x as real * x as real == if x == 0 then 0.0 else 1.0;
    assert y as real * y as real == if y == 0 then 0.0 else 1.0;
    SignedIs(x, y as real);
    assert x as real * y as real == if x == 0 || y == 0 then 0.0 else if x == y then 1.0 else -1.0;
  }

  lemma Around(s: Setup, q: Quadratic, r: int, d: int, x: int, y: int)
    requires Follows(s, q, r, d) && -1 <= x <= 1 && -1 <= y <= 1
    ensures At(s, r + x, d + y) == Surface(q, r as real, d as real)
      + Signed(x, Slopes(q, r as real, d as real).x) + Signed(y, Slopes(q, r as real, d as real).y)
      + (if x == 0 then 0.0 else q.e) + Signed(x, Signed(y, q.f)) + (if y == 0 then 0.0 else q.g)
  {
    hide Surface, Follows, At, Slopes, Bend, Signed;
    var m := Slopes(q, r as real, d as real);
    Neighbour(s, q, r, d, x, y);
    SurfaceNear(q, r as real, d as real, x as real, y as real);
    SignedIs(x, m.x);
    SignedIs(y, m.y);
    BendIs(q, x, y);
  }

  predicate AllFinite(g: Vec2, h: Mat2) {
    IsFinite(g.x) && IsFinite(g.y) && IsFinite(h.xx) && IsFinite(h.xy) && IsFinite(h.yx) && IsFinite(h.yy)
  }

  // ---------------------------------------------------------------- the damped iteration

  datatype Iterate = Iterate(r: real, d: real, lambda: real)
  datatype Move = Abandon | Settle(r: real, d: real) | Go(next: Iterate)

  function Damp(damp: real, cond: real, limit: real): real {
    if cond > limit then damp * 10.0 else if cond < limit * 0.01 then Max(damp * 0.5, 1e-12) else damp
  }

  function Damped(h: Mat2, damp: real): Mat2 { h.(xx := h.xx + damp, yy := h.yy + damp) }

  /** The damped system's right-hand side and matrix at an iterate. */
  function StepMatrix(s: Setup, cur: Iterate): Mat2 {
    var h := Hessian(s, Round(cur.r), Round(cur.d));
    Damped(h, Damp(cur.lambda, s.cond(h), s.limit))
  }

  function StepRhs(s: Setup, cur: Iterate): Vec2 {
    var g := Gradient(s, Round(cur.r), Round(cur.d));
    Vec2(-g.x, -g.y)
  }

  /** One pass through the loop body. */
  function Step(s: Setup, cur: Iterate): Move {
    var g, h := Gradient(s, Round(cur.r), Round(cur.d)), Hessian(s, Round(cur.r), Round(cur.d));
    if !AllFinite(g, h) then Abandon else
      var delta := Solve2x2(StepMatrix(s, cur), StepRhs(s, cur));
      if delta.None? then Abandon else
        var r, d := cur.r + delta.value.x, cur.d + delta.value.y;
        if s.hypot(delta.value.x, delta.value.y) < 1e-4 then Settle(r, d)
        else Go(Iterate(Clamp(r, s.peakR as real - 2.0, s.peakR as real + 2.0),
                        Clamp(d, s.peakD as real - 2.0, s.peakD as real + 2.0),
                        Damp(cur.lambda, s.cond(h), s.limit)))
  }

  function Start(s: Setup): Iterate { Iterate(s.peakR as real, s.peakD as real, s.damping) }

  function Landed(s: Setup, r: real, d: real, iterations: nat): Outcome {
    Outcome(r - s.peakR as real, d - s.peakD as real, r, d, true, iterations, DampedGaussNewton)
  }

  function GivenUp(s: Setup, iterations: nat): Outcome {
    Outcome(0.0, 0.0, s.peakR as real, s.peakD as real, false, iterations, DampedGaussNewton)
  }

  function Run(s: Setup, cur: Iterate, iter: nat): Outcome
    requires iter <= s.maxIterations
    decreases s.maxIterations - iter
  {
    if iter == s.maxIterations then Landed(s, cur.r, cur.d, iter) else
      match Step(s, cur)
      case Abandon => GivenUp(s, iter)
      case Settle(r, d) => Landed(s, r, d, iter + 1)
      case Go(next) => Run(s, next, iter + 1)
  }

  predicate OnBorder(s: Setup) {
    s.peakR < 2 || s.peakR > s.rangeBins - 3 || s.peakD < 2 || s.peakD > s.dopplerBins - 3
  }

  function DampedResult(s: Setup): Outcome {
    if OnBorder(s) then GivenUp(s, 0) else Run(s, Start(s), 0)
  }

  /** The iterate at the start of round n, if the loop gets that far. */
  function Visited(s: Setup, n: nat): Option<Iterate> {
    if n == 0 then Some(Start(s)) else
      var before := Visited(s, n - 1);
      if before.None? then None else
        match Step(s, before.value)
        case Go(next) => Some(next)
        case _ => None
  }

  ghost predicate Near(s: Setup, cur: Iterate) {
    && cur.lambda > 0.0
    && s.peakR as real - 2.0 <= cur.r <= s.peakR as real + 2.0
    && s.peakD as real - 2.0 <= cur.d <= s.peakD as real + 2.0
  }

  lemma StartIsNear(s: Setup)
    requires ValidSetup(s)
    ensures Near(s, Start(s))
  {}

  lemma NearIsKept(s: Setup, cur: Iterate)
    requires Near(s, cur) && Step(s, cur).Go?
    ensures Near(s, Step(s, cur).next)
  {
    hide Gradient, Hessian, Solve2x2, AllFinite, Round, StepMatrix, StepRhs;
  }

  /** Every iterate: positive damping, within two bins of the peak, and centred on a real cell of the grid. */
  lemma {:induction false} EveryIterate(s: Setup, n: nat)
    requires ValidSetup(s) && !OnBorder(s) && Visited(s, n).Some?
    ensures var cur := Visited(s, n).value;
      && Near(s, cur)
      && 0 <= Round(cur.r) < s.rangeBins && 0 <= Round(cur.d) < s.dopplerBins
  {
    hide Step, Round;
    if n > 0 {
      EveryIterate(s, n - 1);
      NearIsKept(s, Visited(s, n - 1).value);
    }
    var cur := Visited(s, n).value;
    RoundMonotone(cur.r, s.peakR - 2, s.peakR + 2);
    RoundMonotone(cur.d, s.peakD - 2, s.peakD + 2);
  }

  /** Every step taken, settling or going on, is the one solution of the damped normal equations at the rounded centre. */
  lemma EveryStepSolves(s: Setup, n: nat, y: Vec2) returns (damp: real, delta: Vec2)
    requires ValidSetup(s) && !OnBorder(s) && Visited(s, n).Some?
    ensures damp > 0.0
    ensures var cur := Visited(s, n).value; var cond := s.cond(Hessian(s, Round(cur.r), Round(cur.d)));
      damp == if cond > s.limit then cur.lambda * 10.0 else if cond < s.limit * 0.01 then Max(cur.lambda / 2.0, 1e-12) else cur.lambda
    ensures !Step(s, Visited(s, n).value).Abandon? ==> IsStep(s, Visited(s, n).value, damp, delta, y)
  {
    hide Gradient, Hessian, Solve2x2, AllFinite, Round, Solves;
    EveryIterate(s, n);
    var cur := Visited(s, n).value;
    damp := Damp(cur.lambda, s.cond(Hessian(s, Round(cur.r), Round(cur.d))), s.limit);
    delta := Vec2(0.0, 0.0);
    if !Step(s, cur).Abandon? {
      delta := Solve2x2(StepMatrix(s, cur), StepRhs(s, cur)).value;
      SolutionIsTrue(StepMatrix(s, cur), StepRhs(s, cur), y);
    }
  }

  /** The step from cur adds delta and settles if that is short, and of all vectors y only delta solves the damped system. */
  ghost predicate IsStep(s: Setup, cur: Iterate, damp: real, delta: Vec2, y: Vec2) {
    var g, a := Gradient(s, Round(cur.r), Round(cur.d)), Damped(Hessian(s, Round(cur.r), Round(cur.d)), damp);
    && Solves(a, delta, Vec2(-g.x, -g.y)) && (Solves(a, y, Vec2(-g.x, -g.y)) <==> y == delta)
    && (Step(s, cur).Settle? <==> s.hypot(delta.x, delta.y) < 1e-4)
    && (Step(s, cur).Settle? ==> Step(s, cur) == Settle(cur.r + delta.x, cur.d + delta.y))
    && (Step(s, cur).Go? ==> Step(s, cur).next == Iterate(Clamp(cur.r + delta.x, s.peakR as real - 2.0, s.peakR as real + 2.0),
                                                          Clamp(cur.d + delta.y, s.peakD as real - 2.0, s.peakD as real + 2.0), damp))
  }

  lemma Legs(s: Setup, x: real, y: real)
    requires ValidSetup(s)
    ensures Abs(x) <= s.hypot(x, y) && Abs(y) <= s.hypot(x, y)
  {
    hide Square;
    SquareSign(x);
    SquareSign(y);
    AbsSquare(x);
    AbsSquare(y);
    SquareOrder(Abs(x), s.hypot(x, y));
    SquareOrder(Abs(y), s.hypot(x, y));
  }

  lemma AbsSquare(x: real)
    ensures Square(Abs(x)) == Square(x)
  {}

  ghost predicate Within(s: Setup, o: Outcome, bound: real) {
    && Abs(o.rangeExact - s.peakR as real) <= bound && Abs(o.dopplerExact - s.peakD as real) <= bound
    && o.rangeOffset == o.rangeExact - s.peakR as real && o.dopplerOffset == o.dopplerExact - s.peakD as real
  }

  lemma {:induction false} RunIsClose(s: Setup, cur: Iterate, iter: nat)
    requires ValidSetup(s) && Near(s, cur) && iter <= s.maxIterations
    ensures Within(s, Run(s, cur, iter), 2.0 + 1e-4) && Run(s, cur, iter).how == DampedGaussNewton
    decreases s.maxIterations - iter
  {
    hide Gradient, Hessian, Solve2x2, AllFinite, Round, StepMatrix, StepRhs, ValidSetup, Damp;
    if iter < s.maxIterations {
      match Step(s, cur) {
        case Abandon =>
        case Settle(r, d) =>
          var delta := Solve2x2(StepMatrix(s, cur), StepRhs(s, cur)).value;
          Legs(s, delta.x, delta.y);
        case Go(next) =>
          NearIsKept(s, cur);
          RunIsClose(s, next, iter + 1);
      }
    }
  }

  /** A peak whose neighbours balance is a fixed point: the first step settles on the integer bin. */
  lemma BalancedPeakStays(s: Setup)
    requires ValidSetup(s) && !OnBorder(s) && s.maxIterations > 0 && Gradient(s, s.peakR, s.peakD) == Vec2(0.0, 0.0)
    requires AllFinite(Vec2(0.0, 0.0), Hessian(s, s.peakR, s.peakD)) && Abs(Determinant(StepMatrix(s, Start(s)))) >= 1e-12
    ensures DampedResult(s) == Landed(s, s.peakR as real, s.peakD as real, 1)
  {
    hide Gradient, Hessian, AllFinite, StepMatrix, Square, Determinant;
    RoundMonotone(s.peakR as real, s.peakR, s.peakR);
    RoundMonotone(s.peakD as real, s.peakD, s.peakD);
    var a := StepMatrix(s, Start(s));
    assert StepRhs(s, Start(s)) == Vec2(0.0, 0.0);
    ZeroSolution(a);
    SquareSign(0.0);
    SquareSign(s.hypot(0.0, 0.0));
  }

  lemma ZeroSolution(a: Mat2)
    requires Abs(Determinant(a)) >= 1e-12
    ensures Solve2x2(a, Vec2(0.0, 0.0)) == Some(Vec2(0.0, 0.0))
  {
    hide Determinant;
  }

  // ---------------------------------------------------------------- the fallbacks

  predicate OnEdge(s: Setup) {
    s.peakR < 1 || s.peakR > s.rangeBins - 2 || s.peakD < 1 || s.peakD > s.dopplerBins - 2
  }

  /** The logarithm of a cell, with a floor for cells that are empty or off the grid. */
  function LogAt(s: Setup, log: real -> real, r: int, d: int): real {
    if r < 0 || r >= s.rangeBins || d < 0 || d >= s.dopplerBins || s.v(d, r) <= 1e-20 then -1e10 else log(s.v(d, r))
  }

  /** The log-Gaussian offset along one axis from three neighbouring values. */
  function LogOffset(before: real, mid: real, after: real): (off: real)
    ensures Abs(off) <= 1.0
  {
    var denom := 2.0 * (before - 2.0 * mid + after);
    if Abs(denom) > 1e-12 && IsFinite((before - after) / denom) && Abs((before - after) / denom) <= 1.0
    then (before - after) / denom else 0.0
  }

  /** The parabolic offset along one axis, clamped to half a bin. */
  function ParabolicOffset(before: real, mid: real, after: real): (off: real)
    ensures Abs(off) <= 0.5
  {
    var denom := before - 2.0 * mid + after;
    if Abs(denom) > 1e-12 then
      var off := 0.5 * (before - after) / denom;
      Clamp(if IsFinite(off) then off else 0.0, -0.5, 0.5)
    else 0.0
  }

  function Refined(s: Setup, offR: real, offD: real, how: Method): Outcome {
    Outcome(offR, offD, s.peakR as real + offR, s.peakD as real + offD, true, 0, how)
  }

  function GaussianResult(s: Setup, log: real -> real): Outcome {
    var r, d := s.peakR, s.peakD;
    if OnEdge(s) then Refined(s, 0.0, 0.0, GaussianLog)
    else Refined(s, LogOffset(LogAt(s, log, r - 1, d), LogAt(s, log, r, d), LogAt(s, log, r + 1, d)),
                 LogOffset(LogAt(s, log, r, d - 1), LogAt(s, log, r, d), LogAt(s, log, r, d + 1)), GaussianLog)
  }

  function ParabolicResult(s: Setup): Outcome {
    var r, d := s.peakR, s.peakD;
    if OnEdge(s) then Refined(s, 0.0, 0.0, Parabolic)
    else Refined(s, ParabolicOffset(At(s, r - 1, d), At(s, r, d), At(s, r + 1, d)),
                 ParabolicOffset(At(s, r, d - 1), At(s, r, d), At(s, r, d + 1)), Parabolic)
  }

  predicate FinitePosition(o: Outcome) { IsFinite(o.rangeExact) && IsFinite(o.dopplerExact) }

  function Solved(s: Setup, log: real -> real, enabled: bool): Outcome {
    if !enabled then Outcome(0.0, 0.0, s.peakR as real, s.peakD as real, true, 0, IntegerBin)
    else if DampedResult(s).converged && FinitePosition(DampedResult(s)) then DampedResult(s)
    else if FinitePosition(GaussianResult(s, log)) then GaussianResult(s, log)
    else ParabolicResult(s)
  }

  /** How far from the integer peak each method may land. */
  function Reach(how: Method): real {
    match how
    case IntegerBin => 0.0
    case DampedGaussNewton => 2.0 + 1e-4
    case GaussianLog => 1.0
    case Parabolic => 0.5
  }

  /** Whichever method wins, the position is within that method's reach of the integer peak on both axes. */
  lemma SolvedIsClose(s: Setup, log: real -> real, enabled: bool, o: Outcome)
    requires ValidSetup(s) && o == Solved(s, log, enabled)
    ensures Within(s, o, Reach(o.how)) && o.converged
  {
    hide Run, ValidSetup, LogAt, LogOffset, ParabolicOffset;
    if !OnBorder(s) {
      StartIsNear(s);
      RunIsClose(s, Start(s), 0);
    }
  }

  lemma RoundNear(x: real, b: int, reach: real)
    requires 0.0 <= reach < 2.5 && b as real - reach <= x <= b as real + reach
    ensures b - 2 <= Round(x) <= b + 2
    ensures reach <= 1.0 ==> b - 1 <= Round(x) <= b + 1
    ensures reach == 0.0 ==> Round(x) == b
  {}

  lemma EdgeStays(s: Setup, log: real -> real)
    requires OnEdge(s)
    ensures GaussianResult(s, log).rangeExact == s.peakR as real && GaussianResult(s, log).dopplerExact == s.peakD as real
    ensures ParabolicResult(s).rangeExact == s.peakR as real && ParabolicResult(s).dopplerExact == s.peakD as real
  {}

  /** The rounded position is always a cell of the grid. */
  lemma SolvedOnGrid(s: Setup, log: real -> real, enabled: bool, o: Outcome)
    requires ValidSetup(s) && 0 <= s.peakR < s.rangeBins && 0 <= s.peakD < s.dopplerBins && o == Solved(s, log, enabled)
    ensures 0 <= Round(o.rangeExact) < s.rangeBins && 0 <= Round(o.dopplerExact) < s.dopplerBins
  {
    hide Run, ValidSetup, LogAt, LogOffset, ParabolicOffset, Round;
    SolvedIsClose(s, log, enabled, o);
    if OnEdge(s) { EdgeStays(s, log); }
    hide GaussianResult, ParabolicResult;
    RoundNear(o.rangeExact, s.peakR, Abs(o.rangeExact - s.peakR as real));
    RoundNear(o.dopplerExact, s.peakD, Abs(o.dopplerExact - s.peakD as real));
  }

  /** The parabola is never reached for bin numbers whose neighbourhood is finite. */
  lemma ParabolaUnreached(s: Setup, log: real -> real)
    requires Abs(s.peakR as real) + 1.0 <= FINITE_LIMIT && Abs(s.peakD as real) + 1.0 <= FINITE_LIMIT
    ensures Solved(s, log, true) == if DampedResult(s).converged && FinitePosition(DampedResult(s)) then DampedResult(s) else GaussianResult(s, log)
  {
    hide DampedResult, LogAt, LogOffset;
  }

  /** Values of a parabola a - b * (x - mu)^2 at -1, 0 and 1. */
  ghost predicate Parabola(before: real, mid: real, after: real, a: real, b: real, mu: real) {
    && before == a - b * (1.0 + 2.0 * mu + Square(mu))
    && mid == a - b * Square(mu)
    && after == a - b * (1.0 - 2.0 * mu + Square(mu))
  }

  lemma ParabolaDifferences(before: real, mid: real, after: real, a: real, b: real, mu: real)
    requires Parabola(before, mid, after, a, b, mu)
    ensures before - after == -4.0 * (b * mu) && before - 2.0 * mid + after == -2.0 * b
  {}

  lemma QuotientIs(num: real, denom: real, q: real)
    requires denom != 0.0 && num == q * denom
    ensures num / denom == q
  {}

  /** On log magnitudes that follow a parabola the log-Gaussian offset is its vertex whenever that is within one bin, otherwise 0. */
  lemma LogOffsetIsExact(before: real, mid: real, after: real, a: real, b: real, mu: real)
    requires Parabola(before, mid, after, a, b, mu) && Abs(4.0 * b) > 1e-12
    ensures LogOffset(before, mid, after) == if Abs(mu) <= 1.0 then mu else 0.0
  {
    ParabolaDifferences(before, mid, after, a, b, mu);
    hide Parabola;
    QuotientIs(before - after, 2.0 * (before - 2.0 * mid + after), mu);
  }

  /** On magnitudes that follow a parabola the parabolic offset is its vertex, clamped to half a bin. */
  lemma ParabolicOffsetIsExact(before: real, mid: real, after: real, a: real, b: real, mu: real)
    requires Parabola(before, mid, after, a, b, mu) && Abs(2.0 * b) > 1e-12 && IsFinite(mu)
    ensures ParabolicOffset(before, mid, after) == Clamp(mu, -0.5, 0.5)
  {
    ParabolaDifferences(before, mid, after, a, b, mu);
    hide Parabola;
    QuotientIs(0.5 * (before - after), before - 2.0 * mid + after, mu);
  }

  // ---------------------------------------------------------------- the solver

  class DLSSubPixelSolver {
    const enabled: bool
    const damping: real
    const limit: real
    const maxIterations: int

    /** Non-positive settings fall back to the defaults. */
    constructor (enabled: bool, damping: real, limit: real, maxIterations: int)
      ensures Valid() && this.enabled == enabled
      ensures this.damping == if damping <= 0.0 then 1e-3 else damping
      ensures this.limit == if limit <= 0.0 then 1e10 else limit
      ensures this.maxIterations == if maxIterations <= 0 then 20 else maxIterations
    {
      this.enabled := enabled;
      this.damping := if damping <= 0.0 then 1e-3 else damping;
      this.limit := if limit <= 0.0 then 1e10 else limit;
      this.maxIterations := if maxIterations <= 0 then 20 else maxIterations;
    }

    predicate Valid() { damping > 0.0 && limit > 0.0 && maxIterations > 0 }

    function SetupOf(rd: seq<real>, peakR: int, peakD: int, rangeBins: nat, dopplerBins: nat,
                     cond: Mat2 -> real, hypot: (real, real) -> real): Setup
      requires Valid() && dopplerBins * rangeBins <= |rd|
    {
      Setup(DataPlane(rd, dopplerBins, rangeBins), peakR, peakD, rangeBins, dopplerBins, damping, limit, maxIterations, cond, hypot)
    }

    /** The refined position; never further from the integer peak than the winning method reaches. */
    method Solve(rd: seq<real>, peakR: int, peakD: int, rangeBins: nat, dopplerBins: nat,
                 cond: Mat2 -> real, hypot: (real, real) -> real, log: real -> real) returns (o: Outcome)
      requires Valid() && dopplerBins * rangeBins <= |rd|
      requires forall x: real, y: real :: hypot(x, y) >= 0.0 && Square(hypot(x, y)) == Square(x) + Square(y)
      ensures o == Solved(SetupOf(rd, peakR, peakD, rangeBins, dopplerBins, cond, hypot), log, enabled)
      ensures Abs(o.rangeExact - peakR as real) <= Reach(o.how) && Abs(o.dopplerExact - peakD as real) <= Reach(o.how)
      ensures Abs(o.rangeExact - peakR as real) <= 2.0001 && Abs(o.dopplerExact - peakD as real) <= 2.0001
      ensures o.how == IntegerBin ==> o.rangeExact == peakR as real && o.dopplerExact == peakD as real
      ensures o.how == GaussianLog ==> Abs(o.rangeExact - peakR as real) <= 1.0 && Abs(o.dopplerExact - peakD as real) <= 1.0
      ensures o.how == Parabolic ==> Abs(o.rangeExact - peakR as real) <= 0.5 && Abs(o.dopplerExact - peakD as real) <= 0.5
    {
      hide DampedResult, GaussianResult, ParabolicResult, IsFinite, Square;
      var s := SetupOf(rd, peakR, peakD, rangeBins, dopplerBins, cond, hypot);
      SolvedIsClose(s, log, enabled, Solved(s, log, enabled));
      if !enabled { return Outcome(0.0, 0.0, peakR as real, peakD as real, true, 0, IntegerBin); }
      o := TryDamped(s);
      if o.converged && IsFinite(o.rangeExact) && IsFinite(o.dopplerExact) { return; }
      o := GaussianResult(s, log);
      if IsFinite(o.rangeExact) && IsFinite(o.dopplerExact) { return; }
      o := ParabolicResult(s);
    }

    /** The damped loop. */
    static method TryDamped(s: Setup) returns (o: Outcome)
      requires ValidSetup(s)
      ensures o == DampedResult(s)
    {
      DampedStart(s);
      hide *;
      if OnBorder(s) { return GivenUp(s, 0); }
      var cur := Iterate(s.peakR as real, s.peakD as real, s.damping);
      var iter := 0;
      while iter < s.maxIterations
        invariant iter <= s.maxIterations && DampedResult(s) == Run(s, cur, iter)
      {
        RunUnfold(s, cur, iter);
        var move := OneRound(s, cur);
        match move
        case Abandon => return GivenUp(s, iter);
        case Settle(r, d) => return Landed(s, r, d, iter + 1);
        case Go(next) => cur := next;
        iter := iter + 1;
      }
      RunUnfold(s, cur, iter);
      o := Landed(s, cur.r, cur.d, iter);
    }

    /** The loop body: adapts the damping, solves for the step, and settles, clamps or gives up. */
    static method OneRound(s: Setup, cur: Iterate) returns (move: Move)
      ensures move == Step(s, cur)
    {
      hide Gradient, Hessian, Solve2x2, AllFinite, Round, Damp;
      var ir, id := Round(cur.r), Round(cur.d);
      var grad, hessian := Gradient(s, ir, id), Hessian(s, ir, id);
      var condNum := s.cond(hessian);
      if !AllFinite(grad, hessian) { return Abandon; }
      var damp := Damp(cur.lambda, condNum, s.limit);
      var delta := Solve2x2(Damped(hessian, damp), Vec2(-grad.x, -grad.y));
      if delta.None? { return Abandon; }
      var nextR, nextD := cur.r + delta.value.x, cur.d + delta.value.y;
      var stepLen := s.hypot(delta.value.x, delta.value.y);
      if stepLen < 1e-4 { return Settle(nextR, nextD); }
      nextR := Clamp(nextR, s.peakR as real - 2.0, s.peakR as real + 2.0);
      nextD := Clamp(nextD, s.peakD as real - 2.0, s.peakD as real + 2.0);
      move := Go(Iterate(nextR, nextD, damp));
    }
  }

  lemma DampedStart(s: Setup)
    ensures DampedResult(s) == if OnBorder(s) then GivenUp(s, 0) else Run(s, Iterate(s.peakR as real, s.peakD as real, s.damping), 0)
  {
    hide Step;
  }

  lemma RunUnfold(s: Setup, cur: Iterate, iter: nat)
    requires iter <= s.maxIterations
    ensures Run(s, cur, iter) ==
      if iter == s.maxIterations then Landed(s, cur.r, cur.d, iter) else
        match Step(s, cur)
        case Abandon => GivenUp(s, iter)
        case Settle(r, d) => Landed(s, r, d, iter + 1)
        case Go(next) => Run(s, next, iter + 1)
  {
    hide Step;
  }
}
