/** What the damped iteration does over its rounds, and where that leaves a peak between two bins. */
module SubPixelLaws {
  import opened Reals
  import opened Numeric
  import opened SubPixel

  // ---------------------------------------------------------------- rounding

  /** The nearest integer; a half goes away from zero. */
  lemma RoundIsNearest(x: real)
    ensures Abs(Round(x) as real - x) <= 0.5
    ensures Abs(Round(x) as real - x) == 0.5 ==> Abs(Round(x) as real) > Abs(x)
  {}

  // ---------------------------------------------------------------- the damping schedule

  /** The condition number met at an iterate. */
  function Condition(s: Setup, cur: Iterate): real { s.cond(Hessian(s, Round(cur.r), Round(cur.d))) }

  /** The condition numbers of the first n rounds all lie in a band. */
  ghost predicate Conditions(s: Setup, n: nat, band: real -> bool) {
    forall m: nat :: m < n && Visited(s, m).Some? ==> band(Condition(s, Visited(s, m).value))
  }

  function Below(limit: real): real -> bool { c => c < limit / 100.0 }

  function Above(limit: real): real -> bool { c => c > limit }

  function Between(limit: real): real -> bool { c => limit / 100.0 <= c <= limit }

  function Power(base: real, n: nat): (p: real)
    requires base > 0.0
    ensures p > 0.0
  {
    if n == 0 then 1.0 else Power(base, n - 1) * base
  }

  /** A round that goes on leaves the damping it used: halved, kept or raised as the condition number says. */
  lemma RoundDamps(s: Setup, cur: Iterate)
    requires Step(s, cur).Go? && s.limit > 0.0
    ensures Condition(s, cur) < s.limit / 100.0 ==> Step(s, cur).next.lambda == Max(cur.lambda / 2.0, 1e-12)
    ensures Condition(s, cur) > s.limit ==> Step(s, cur).next.lambda == cur.lambda * 10.0
    ensures s.limit / 100.0 <= Condition(s, cur) <= s.limit ==> Step(s, cur).next.lambda == cur.lambda
  {
    hide Gradient, Hessian, Solve2x2, AllFinite, Round, StepMatrix, StepRhs;
  }

  /** Well-conditioned all the way, the damping is halved every round, down to its floor. */
  lemma {:induction false} DampingHalves(s: Setup, n: nat)
    requires s.damping >= 1e-12 && s.limit > 0.0 && Visited(s, n).Some? && Conditions(s, n, Below(s.limit))
    ensures Visited(s, n).value.lambda == Max(s.damping / Power(2.0, n), 1e-12)
  {
    hide Step, Condition;
    if n > 0 {
      DampingHalves(s, n - 1);
      RoundDamps(s, Visited(s, n - 1).value);
      Halved(s.damping, Power(2.0, n - 1));
    }
  }

  lemma Halved(a: real, p: real)
    requires p > 0.0
    ensures p * 2.0 > 0.0 && a / (p * 2.0) == a / p / 2.0
  {
    var q := a / p;
    assert q * p == a;
    assert (q / 2.0) * (p * 2.0) == a;
  }

  /** Ill-conditioned all the way, it grows tenfold every round. */
  lemma {:induction false} DampingGrows(s: Setup, n: nat)
    requires s.limit > 0.0 && Visited(s, n).Some? && Conditions(s, n, Above(s.limit))
    ensures Visited(s, n).value.lambda == s.damping * Power(10.0, n)
  {
    hide Step, Condition;
    if n > 0 {
      DampingGrows(s, n - 1);
      RoundDamps(s, Visited(s, n - 1).value);
    }
  }

  /** In between it stays what it was. */
  lemma {:induction false} DampingStays(s: Setup, n: nat)
    requires s.limit > 0.0 && Visited(s, n).Some? && Conditions(s, n, Between(s.limit))
    ensures Visited(s, n).value.lambda == s.damping
  {
    hide Step, Condition;
    if n > 0 {
      DampingStays(s, n - 1);
      RoundDamps(s, Visited(s, n - 1).value);
    }
  }

  // ---------------------------------------------------------------- one round

  lemma NoSolution(a: Mat2, b: Vec2, det: real)
    requires det == a.xx * a.yy - a.xy * a.yx
    ensures Solve2x2(a, b).None? <==> Abs(det) < 1e-12
  {
    assert Determinant(a) == det;
    hide Determinant;
  }

  lemma AbandonsWhen(s: Setup, cur: Iterate)
    ensures Step(s, cur).Abandon? <==>
      || !AllFinite(Gradient(s, Round(cur.r), Round(cur.d)), Hessian(s, Round(cur.r), Round(cur.d)))
      || Solve2x2(StepMatrix(s, cur), StepRhs(s, cur)).None?
  {
    hide Gradient, Hessian, Round, Solve2x2, StepMatrix, StepRhs, AllFinite;
  }

  lemma DampedBy(s: Setup, cur: Iterate)
    ensures var h := Hessian(s, Round(cur.r), Round(cur.d));
      var damp := if s.cond(h) > s.limit then cur.lambda * 10.0 else if s.cond(h) < s.limit * 0.01 then Max(cur.lambda * 0.5, 1e-12) else cur.lambda;
      StepMatrix(s, cur) == Mat2(h.xx + damp, h.xy, h.yx, h.yy + damp)
  {
    hide Hessian, Round;
  }

  /** A round gives up exactly when a difference is not finite or the damped determinant is too small. */
  lemma AbandonsExactly(s: Setup, cur: Iterate, g: Vec2, h: Mat2, damp: real, det: real)
    requires g == Gradient(s, Round(cur.r), Round(cur.d)) && h == Hessian(s, Round(cur.r), Round(cur.d))
    requires damp == if s.cond(h) > s.limit then cur.lambda * 10.0 else if s.cond(h) < s.limit * 0.01 then Max(cur.lambda * 0.5, 1e-12) else cur.lambda
    requires det == (h.xx + damp) * (h.yy + damp) - h.xy * h.yx
    ensures Step(s, cur).Abandon? <==>
      || Abs(g.x) > 1e100 || Abs(g.y) > 1e100 || Abs(h.xx) > 1e100 || Abs(h.xy) > 1e100 || Abs(h.yx) > 1e100 || Abs(h.yy) > 1e100
      || Abs(det) < 1e-12
  {
    hide Gradient, Hessian, Round, Solve2x2, StepRhs, Step, StepMatrix;
    AbandonsWhen(s, cur);
    DampedBy(s, cur);
    assert !AllFinite(g, h) <==> Abs(g.x) > 1e100 || Abs(g.y) > 1e100 || Abs(h.xx) > 1e100 || Abs(h.xy) > 1e100 || Abs(h.yx) > 1e100 || Abs(h.yy) > 1e100;
    NoSolution(StepMatrix(s, cur), StepRhs(s, cur), det);
  }

  // ---------------------------------------------------------------- the first step and Newton's

  /** The matrix applied to a vector. */
  function Image(h: Mat2, v: Vec2): Vec2 { Vec2(h.xx * v.x + h.xy * v.y, h.yx * v.x + h.yy * v.y) }

  /** The matrix stretches every vector at least m-fold. */
  ghost predicate Stretches(h: Mat2, m: real) {
    forall v: Vec2 :: Squares(Image(h, v)) >= Times(m, v)
  }

  function Squares(v: Vec2): real { Square(v.x) + Square(v.y) }

  /** The squared length of m times a vector. */
  function Times(m: real, v: Vec2): real { Square(m) * Squares(v) }

  function Minus(a: Vec2, b: Vec2): Vec2 { Vec2(a.x - b.x, a.y - b.y) }

  /** The damped step differs from Newton's by at most damp / m times its own length. */
  lemma DampedNearNewton(h: Mat2, damp: real, b: Vec2, damped: Vec2, newton: Vec2, m: real)
    requires Solves(Damped(h, damp), damped, b) && Solves(h, newton, b) && Stretches(h, m)
    ensures Times(m, Minus(damped, newton)) <= Times(damp, damped)
  {
    var e := Minus(damped, newton);
    Remainder(h, damp, b, damped, newton);
    Stretched(h, m, e);
    ScaledSquares(damp, damped);
    hide *;
  }

  lemma Stretched(h: Mat2, m: real, v: Vec2)
    requires Stretches(h, m)
    ensures Squares(Image(h, v)) >= Times(m, v)
  {
    hide Squares, Times, Image;
  }

  lemma Remainder(h: Mat2, damp: real, b: Vec2, damped: Vec2, newton: Vec2)
    requires Solves(Damped(h, damp), damped, b) && Solves(h, newton, b)
    ensures Image(h, Minus(damped, newton)) == Vec2(-(damp * damped.x), -(damp * damped.y))
  {}

  lemma ScaledSquares(damp: real, v: Vec2)
    ensures Squares(Vec2(-(damp * v.x), -(damp * v.y))) == Times(damp, v)
  {}

  /** With a well-conditioned Hessian the first step uses half the configured damping, and is that close to Newton's. */
  lemma FirstStep(s: Setup, newton: Vec2, m: real, g: Vec2, h: Mat2) returns (delta: Vec2)
    requires ValidSetup(s) && !OnBorder(s) && s.damping >= 2e-12 && s.limit > 0.0
    requires g == Gradient(s, s.peakR, s.peakD) && h == Hessian(s, s.peakR, s.peakD)
    requires s.cond(h) < s.limit / 100.0 && Stretches(h, m) && Solves(h, newton, Vec2(-g.x, -g.y))
    ensures Step(s, Start(s)).Settle? ==> Step(s, Start(s)) == Settle(s.peakR as real + delta.x, s.peakD as real + delta.y)
    ensures Step(s, Start(s)).Go? ==>
      && Step(s, Start(s)).next.r == Clamp(s.peakR as real + delta.x, s.peakR as real - 2.0, s.peakR as real + 2.0)
      && Step(s, Start(s)).next.d == Clamp(s.peakD as real + delta.y, s.peakD as real - 2.0, s.peakD as real + 2.0)
    ensures !Step(s, Start(s)).Abandon? ==> Times(m, Minus(delta, newton)) <= Times(s.damping / 2.0, delta)
  {
    hide Gradient, Hessian, Solve2x2, AllFinite, Solves, Times, Stretches;
    AtTheBin(s);
    delta := Vec2(0.0, 0.0);
    if !Step(s, Start(s)).Abandon? {
      delta := Solve2x2(StepMatrix(s, Start(s)), StepRhs(s, Start(s))).value;
      SolutionIsTrue(StepMatrix(s, Start(s)), StepRhs(s, Start(s)), delta);
      DampedNearNewton(h, s.damping / 2.0, Vec2(-g.x, -g.y), delta, newton, m);
    }
  }

  lemma AtTheBin(s: Setup)
    ensures Round(Start(s).r) == s.peakR && Round(Start(s).d) == s.peakD
  {
    RoundMonotone(s.peakR as real, s.peakR, s.peakR);
    RoundMonotone(s.peakD as real, s.peakD, s.peakD);
  }

  // ---------------------------------------------------------------- all rounds

  /** Up to a round the loop reaches, the result is the one of the rest of the rounds. */
  lemma {:induction false} RunReaches(s: Setup, n: nat)
    requires n <= s.maxIterations && Visited(s, n).Some?
    ensures Run(s, Start(s), 0) == Run(s, Visited(s, n).value, n)
  {
    hide Step, Start;
    if n > 0 {
      RunReaches(s, n - 1);
      RunUnfold(s, Visited(s, n - 1).value, n - 1);
    }
  }

  /**
   The result: on the border the integer bin, not converged; otherwise the loop reaches some round n,
   and all rounds are used up, or round n settles, or it gives up. Positions are given with their offsets.
   */
  lemma OutcomeIs(s: Setup) returns (n: nat)
    ensures s.peakR < 2 || s.peakR > s.rangeBins - 3 || s.peakD < 2 || s.peakD > s.dopplerBins - 3 ==>
      DampedResult(s) == Outcome(0.0, 0.0, s.peakR as real, s.peakD as real, false, 0, DampedGaussNewton)
    ensures 2 <= s.peakR <= s.rangeBins - 3 && 2 <= s.peakD <= s.dopplerBins - 3 ==>
      && n <= s.maxIterations && Visited(s, n).Some?
      && var cur := Visited(s, n).value;
         (if n == s.maxIterations then
            DampedResult(s) == Outcome(cur.r - s.peakR as real, cur.d - s.peakD as real, cur.r, cur.d, true, n, DampedGaussNewton)
          else
            && !Step(s, cur).Go?
            && (Step(s, cur).Abandon? ==> DampedResult(s) == Outcome(0.0, 0.0, s.peakR as real, s.peakD as real, false, n, DampedGaussNewton))
            && (Step(s, cur).Settle? ==>
                  DampedResult(s) == Outcome(Step(s, cur).r - s.peakR as real, Step(s, cur).d - s.peakD as real,
                                             Step(s, cur).r, Step(s, cur).d, true, n + 1, DampedGaussNewton)))
  {
    hide Step, Run;
    n := 0;
    DampedStart(s);
    if !OnBorder(s) {
      n := LastRound(s, 0);
      RunReaches(s, n);
      RunUnfold(s, Visited(s, n).value, n);
    }
  }

  /** The round, from n on, after which there is no other. */
  lemma LastRound(s: Setup, n: nat) returns (last: nat)
    requires n <= s.maxIterations && Visited(s, n).Some?
    ensures n <= last <= s.maxIterations && Visited(s, last).Some?
    ensures last == s.maxIterations || !Step(s, Visited(s, last).value).Go?
    decreases s.maxIterations - n
  {
    hide Step, Start;
    last := n;
    if n < s.maxIterations && Step(s, Visited(s, n).value).Go? {
      assert Visited(s, n + 1) == Some(Step(s, Visited(s, n).value).next);
      last := LastRound(s, n + 1);
    }
  }

  // ---------------------------------------------------------------- the fallbacks

  /** The logarithm of a cell of the grid, or -1e10 when the cell does not exceed 1e-20. */
  function LogCell(s: Setup, log: real -> real, r: int, d: int): real { if s.v(d, r) > 1e-20 then log(s.v(d, r)) else -10000000000.0 }

  lemma LogInside(s: Setup, log: real -> real, r: int, d: int)
    requires 0 <= r < s.rangeBins && 0 <= d < s.dopplerBins
    ensures LogAt(s, log, r, d) == LogCell(s, log, r, d)
  {}

  /** Away from the edges a peak whose logarithms follow a parabola along each axis is placed at both vertices. */
  lemma GaussianFindsVertex(s: Setup, log: real -> real, a: real, b: real, mu: real, c: real, e: real, nu: real)
    requires 1 <= s.peakR <= s.rangeBins - 2 && 1 <= s.peakD <= s.dopplerBins - 2
    requires var r, d := s.peakR, s.peakD;
      && Parabola(LogCell(s, log, r - 1, d), LogCell(s, log, r, d), LogCell(s, log, r + 1, d), a, b, mu)
      && Parabola(LogCell(s, log, r, d - 1), LogCell(s, log, r, d), LogCell(s, log, r, d + 1), c, e, nu)
    requires Abs(4.0 * b) > 1e-12 && Abs(4.0 * e) > 1e-12 && Abs(mu) <= 1.0 && Abs(nu) <= 1.0
    ensures GaussianResult(s, log) == Outcome(mu, nu, s.peakR as real + mu, s.peakD as real + nu, true, 0, GaussianLog)
  {
    hide LogAt, LogOffset, Parabola, LogCell;
    var r, d := s.peakR, s.peakD;
    LogInside(s, log, r, d);
    LogInside(s, log, r - 1, d);
    LogInside(s, log, r + 1, d);
    LogInside(s, log, r, d - 1);
    LogInside(s, log, r, d + 1);
    LogOffsetIsExact(LogCell(s, log, r - 1, d), LogCell(s, log, r, d), LogCell(s, log, r + 1, d), a, b, mu);
    LogOffsetIsExact(LogCell(s, log, r, d - 1), LogCell(s, log, r, d), LogCell(s, log, r, d + 1), c, e, nu);
  }

  /** The same for the parabola through the magnitudes themselves. */
  lemma ParabolaFindsVertex(s: Setup, a: real, b: real, mu: real, c: real, e: real, nu: real)
    requires 1 <= s.peakR <= s.rangeBins - 2 && 1 <= s.peakD <= s.dopplerBins - 2
    requires var r, d := s.peakR, s.peakD;
      && Parabola(s.v(d, r - 1), s.v(d, r), s.v(d, r + 1), a, b, mu) && Parabola(s.v(d - 1, r), s.v(d, r), s.v(d + 1, r), c, e, nu)
    requires Abs(2.0 * b) > 1e-12 && Abs(2.0 * e) > 1e-12 && Abs(mu) <= 0.5 && Abs(nu) <= 0.5
    ensures ParabolicResult(s) == Outcome(mu, nu, s.peakR as real + mu, s.peakD as real + nu, true, 0, Parabolic)
  {
    hide ParabolicOffset, Parabola;
    var r, d := s.peakR, s.peakD;
    ParabolicOffsetIsExact(s.v(d, r - 1), s.v(d, r), s.v(d, r + 1), a, b, mu);
    ParabolicOffsetIsExact(s.v(d - 1, r), s.v(d, r), s.v(d + 1, r), c, e, nu);
  }

  /** On the outermost cells both fallbacks keep the integer bin. */
  lemma FallbacksAtTheEdge(s: Setup, log: real -> real)
    requires s.peakR < 1 || s.peakR > s.rangeBins - 2 || s.peakD < 1 || s.peakD > s.dopplerBins - 2
    ensures GaussianResult(s, log) == Outcome(0.0, 0.0, s.peakR as real, s.peakD as real, true, 0, GaussianLog)
    ensures ParabolicResult(s) == Outcome(0.0, 0.0, s.peakR as real, s.peakD as real, true, 0, Parabolic)
  {}

  /** The first method whose position is finite on both axes wins; the damped one must have converged too. */
  lemma FirstFiniteWins(s: Setup, log: real -> real, enabled: bool, o: Outcome)
    requires o == Solved(s, log, enabled)
    ensures !enabled ==> o == Outcome(0.0, 0.0, s.peakR as real, s.peakD as real, true, 0, IntegerBin)
    ensures enabled ==>
      var first, second := DampedResult(s), GaussianResult(s, log);
      if first.converged && -1e100 <= first.rangeExact <= 1e100 && -1e100 <= first.dopplerExact <= 1e100 then o == first
      else if -1e100 <= second.rangeExact <= 1e100 && -1e100 <= second.dopplerExact <= 1e100 then o == second
      else o == ParabolicResult(s)
  {
    hide DampedResult, GaussianResult, ParabolicResult;
  }

  // ---------------------------------------------------------------- peaks between two bins

  /** Around every cell within two bins of the peak the magnitudes follow one quadratic surface. */
  ghost predicate OnSurface(s: Setup, q: Quadratic) {
    forall r: int, d: int :: s.peakR - 2 <= r <= s.peakR + 2 && s.peakD - 2 <= d <= s.peakD + 2 ==> Follows(s, q, r, d)
  }

  /** Damping that is never raised stays at most what was configured. */
  lemma {:induction false} DampingBounded(s: Setup, q: Quadratic, n: nat)
    requires ValidSetup(s) && !OnBorder(s) && OnSurface(s, q) && s.damping >= 1e-12
    requires s.cond(Mat2(2.0 * q.e, q.f, q.f, 2.0 * q.g)) <= s.limit && Visited(s, n).Some?
    ensures 0.0 < Visited(s, n).value.lambda <= s.damping
  {
    hide Step, OnSurface, ValidSetup;
    EveryIterate(s, n);
    if n > 0 {
      DampingBounded(s, q, n - 1);
      SurfaceAt(s, q, n - 1);
      NotRaised(s, Visited(s, n - 1).value);
    }
  }

  lemma NotRaised(s: Setup, cur: Iterate)
    requires Step(s, cur).Go? && Condition(s, cur) <= s.limit && cur.lambda > 0.0
    ensures Step(s, cur).next.lambda <= Max(cur.lambda, 1e-12)
  {
    hide Gradient, Hessian, Solve2x2, AllFinite, Round, StepMatrix, StepRhs;
  }

  /** Each round works on the surface's own slopes and curvature. */
  lemma SurfaceAt(s: Setup, q: Quadratic, n: nat)
    requires ValidSetup(s) && !OnBorder(s) && OnSurface(s, q) && Visited(s, n).Some?
    ensures var cur := Visited(s, n).value;
      && s.peakR - 2 <= Round(cur.r) <= s.peakR + 2 && s.peakD - 2 <= Round(cur.d) <= s.peakD + 2
      && Gradient(s, Round(cur.r), Round(cur.d)) == Slopes(q, Round(cur.r) as real, Round(cur.d) as real)
      && Hessian(s, Round(cur.r), Round(cur.d)) == Mat2(2.0 * q.e, q.f, q.f, 2.0 * q.g)
  {
    hide Step, Round, Follows, Slopes, ValidSetup;
    EveryIterate(s, n);
    var cur := Visited(s, n).value;
    RoundMonotone(cur.r, s.peakR - 2, s.peakR + 2);
    RoundMonotone(cur.d, s.peakD - 2, s.peakD + 2);
    DifferencesAreExact(s, q, Round(cur.r), Round(cur.d));
  }

  /** Some slope of the surface at the cell is too steep for a step shorter than a ten-thousandth of a bin. */
  ghost predicate Steep(s: Setup, q: Quadratic, r: int, d: int) {
    var g := Slopes(q, r as real, d as real);
    || Abs(g.x) >= (Abs(2.0 * q.e) + Abs(q.f) + s.damping) * 1e-4
    || Abs(g.y) >= (Abs(2.0 * q.g) + Abs(q.f) + s.damping) * 1e-4
  }

  /**
   A well-conditioned quadratic peak settles only if the surface is level at some grid cell near it: the
   slopes are always taken at cells. A vertex between cells is never settled on, and all rounds are used.
   */
  lemma OffGridNeverSettles(s: Setup, q: Quadratic)
    requires ValidSetup(s) && !OnBorder(s) && OnSurface(s, q) && s.damping >= 1e-12
    requires s.cond(Mat2(2.0 * q.e, q.f, q.f, 2.0 * q.g)) <= s.limit
    requires forall r: int, d: int :: s.peakR - 2 <= r <= s.peakR + 2 && s.peakD - 2 <= d <= s.peakD + 2 ==> Steep(s, q, r, d)
    ensures !DampedResult(s).converged || DampedResult(s).iterations == s.maxIterations
    ensures forall n: nat :: Visited(s, n).Some? ==> !Step(s, Visited(s, n).value).Settle?
  {
    hide Step, OnSurface, Steep, ValidSetup, Visited, DampedResult;
    forall n: nat | Visited(s, n).Some?
      ensures !Step(s, Visited(s, n).value).Settle?
    {
      SurfaceAt(s, q, n);
      DampingBounded(s, q, n);
      SteepStep(s, q, n);
    }
    var n := OutcomeIs(s);
  }

  lemma SteepStep(s: Setup, q: Quadratic, n: nat)
    requires ValidSetup(s) && !OnBorder(s) && OnSurface(s, q) && Visited(s, n).Some?
    requires s.cond(Mat2(2.0 * q.e, q.f, q.f, 2.0 * q.g)) <= s.limit && s.damping >= 1e-12
    requires 0.0 < Visited(s, n).value.lambda <= s.damping
    requires var cur := Visited(s, n).value; Steep(s, q, Round(cur.r), Round(cur.d))
    ensures !Step(s, Visited(s, n).value).Settle?
  {
    hide Step, OnSurface, ValidSetup, Visited, Slopes, Round, IsStep, Steep;
    var cur := Visited(s, n).value;
    SurfaceAt(s, q, n);
    var damp, delta := EveryStepSolves(s, n, Vec2(0.0, 0.0));
    if Step(s, cur).Settle? {
      SettledIsShort(s, cur, damp, delta);
      ShortMeansLevel(s, q, cur, damp, delta);
    }
  }

  lemma SettledIsShort(s: Setup, cur: Iterate, damp: real, delta: Vec2)
    requires ValidSetup(s) && IsStep(s, cur, damp, delta, Vec2(0.0, 0.0)) && Step(s, cur).Settle?
    ensures Abs(delta.x) < 1e-4 && Abs(delta.y) < 1e-4
  {
    hide Step, Gradient, Hessian, Round, Solves;
    Legs(s, delta.x, delta.y);
  }

  lemma ShortMeansLevel(s: Setup, q: Quadratic, cur: Iterate, damp: real, delta: Vec2)
    requires IsStep(s, cur, damp, delta, Vec2(0.0, 0.0)) && 0.0 < damp <= s.damping && Abs(delta.x) < 1e-4 && Abs(delta.y) < 1e-4
    requires Gradient(s, Round(cur.r), Round(cur.d)) == Slopes(q, Round(cur.r) as real, Round(cur.d) as real)
    requires Hessian(s, Round(cur.r), Round(cur.d)) == Mat2(2.0 * q.e, q.f, q.f, 2.0 * q.g)
    ensures !Steep(s, q, Round(cur.r), Round(cur.d))
  {
    var g := Slopes(q, Round(cur.r) as real, Round(cur.d) as real);
    FirstRow(s, q.e, q.f, q.g, cur, damp, delta, g);
    SecondRow(s, q.e, q.f, q.g, cur, damp, delta, g);
    hide Step, Gradient, Hessian, Round, Slopes, IsStep;
  }

  lemma FirstRow(s: Setup, e: real, f: real, k: real, cur: Iterate, damp: real, delta: Vec2, g: Vec2)
    requires IsStep(s, cur, damp, delta, Vec2(0.0, 0.0)) && 0.0 < damp <= s.damping && Abs(delta.x) < 1e-4 && Abs(delta.y) < 1e-4
    requires Gradient(s, Round(cur.r), Round(cur.d)) == g && Hessian(s, Round(cur.r), Round(cur.d)) == Mat2(2.0 * e, f, f, 2.0 * k)
    ensures Abs(g.x) < (Abs(2.0 * e) + Abs(f) + s.damping) * 1e-4
  {
    hide Step, Gradient, Hessian, Round;
    NotSteep(2.0 * e, f, damp, s.damping, delta.x, delta.y, g.x);
  }

  lemma SecondRow(s: Setup, e: real, f: real, k: real, cur: Iterate, damp: real, delta: Vec2, g: Vec2)
    requires IsStep(s, cur, damp, delta, Vec2(0.0, 0.0)) && 0.0 < damp <= s.damping && Abs(delta.x) < 1e-4 && Abs(delta.y) < 1e-4
    requires Gradient(s, Round(cur.r), Round(cur.d)) == g && Hessian(s, Round(cur.r), Round(cur.d)) == Mat2(2.0 * e, f, f, 2.0 * k)
    ensures Abs(g.y) < (Abs(2.0 * k) + Abs(f) + s.damping) * 1e-4
  {
    hide Step, Gradient, Hessian, Round;
    NotSteep(2.0 * k, f, damp, s.damping, delta.y, delta.x, g.y);
  }

  lemma NotSteep(a: real, b: real, damp: real, damping: real, x: real, y: real, c: real)
    requires (a + damp) * x + b * y == -c && Abs(x) < 1e-4 && Abs(y) < 1e-4 && 0.0 < damp <= damping
    ensures Abs(c) < (Abs(a) + Abs(b) + damping) * 1e-4
  {
    SmallRow(a + damp, b, x, y, -c);
  }

  lemma SmallRow(a: real, b: real, x: real, y: real, c: real)
    requires a * x + b * y == c && Abs(x) < 1e-4 && Abs(y) < 1e-4
    ensures Abs(c) <= (Abs(a) + Abs(b)) * 1e-4
    ensures a != 0.0 || b != 0.0 ==> Abs(c) < (Abs(a) + Abs(b)) * 1e-4
  {
    SmallProduct(a, x);
    SmallProduct(b, y);
  }

  lemma SmallProduct(a: real, x: real)
    requires Abs(x) < 1e-4
    ensures Abs(a * x) <= Abs(a) * 1e-4 && (a != 0.0 ==> Abs(a * x) < Abs(a) * 1e-4)
  {
    ProductNonNegative(Abs(a), 1e-4 - Abs(x));
    if a != 0.0 { ProductPositive(Abs(a), 1e-4 - Abs(x)); }
    assert Abs(a * x) == Abs(a) * Abs(x);
  }

  /** The shipped settings on a round peak of height about 100 whose top is a fifth of a bin beyond the integer bin. */
  ghost predicate FifthBeyond(s: Setup, q: Quadratic) {
    && ValidSetup(s) && !OnBorder(s) && OnSurface(s, q)
    && s.damping == 1e-3 && s.limit == 1e10 && s.maxIterations == 20 && s.cond(Mat2(-20.0, 0.0, 0.0, -20.0)) < 1e8
    && q.e == q.g == -10.0 && q.f == 0.0 && Slopes(q, s.peakR as real, s.peakD as real) == Vec2(4.0, 0.0)
  }

  /** Where round n starts, in fifths of a bin from the peak: 0, 1, 2, 3, then back to -1. */
  function Fifths(n: nat): int { if n % 5 == 4 then -1 else n % 5 }

  ghost predicate OnCycle(s: Setup, cur: Iterate, n: nat) {
    && Abs(cur.r - (s.peakR as real + Fifths(n) as real * 0.2)) <= n as real * 5e-5
    && cur.d == s.peakD as real && 0.0 < cur.lambda <= 1e-3
  }

  /** The slope at a cell k bins further along the range axis. */
  lemma SlopeBeside(q: Quadratic, r: real, d: real, k: real)
    requires q.e == -10.0 && q.f == 0.0
    ensures Slopes(q, r + k, d) == Vec2(Slopes(q, r, d).x - 20.0 * k, Slopes(q, r, d).y)
  {}

  /** One step of the damped system with curvature -20 on both axes. */
  lemma RoundPeakStep(s: Setup, cur: Iterate, gx: real, damp: real)
    requires ValidSetup(s) && Gradient(s, Round(cur.r), Round(cur.d)) == Vec2(gx, 0.0) && Hessian(s, Round(cur.r), Round(cur.d)) == Mat2(-20.0, 0.0, 0.0, -20.0)
    requires 0.0 < damp <= 1e-3 && damp == Damp(cur.lambda, s.cond(Mat2(-20.0, 0.0, 0.0, -20.0)), s.limit)
    requires gx == 4.0 || gx == -16.0
    ensures var move := gx / (20.0 - damp);
      && (gx == 4.0 ==> 0.2 <= move <= 0.20005) && (gx == -16.0 ==> -0.80005 <= move <= -0.8)
      && Step(s, cur) == Go(Iterate(Clamp(cur.r + move, s.peakR as real - 2.0, s.peakR as real + 2.0),
                                    Clamp(cur.d, s.peakD as real - 2.0, s.peakD as real + 2.0), damp))
  {
    var move := gx / (20.0 - damp);
    DiagonalSolve(20.0 - damp, gx);
    Moves(gx, damp);
    hide Gradient, Hessian, Round, Solve2x2, Damp, Square;
    Legs(s, move, 0.0);
  }

  lemma Moves(gx: real, damp: real)
    requires 0.0 < damp <= 1e-3
    ensures gx == 4.0 ==> 0.2 <= gx / (20.0 - damp) <= 0.20005
    ensures gx == -16.0 ==> -0.80005 <= gx / (20.0 - damp) <= -0.8
  {
    var k := 20.0 - damp;
    var move := gx / k;
    assert move * k == gx;
    if gx == 4.0 {
      Ordered(0.2, move, k);
      Ordered(move, 0.20005, k);
    } else if gx == -16.0 {
      Ordered(-0.80005, move, k);
      Ordered(move, -0.8, k);
    }
  }

  lemma Ordered(a: real, b: real, k: real)
    requires k > 0.0 && a * k <= b * k
    ensures a <= b
  {
    if a > b { ProductPositive(a - b, k); }
  }

  lemma DiagonalSolve(k: real, gx: real)
    requires 19.0 <= k
    ensures Solve2x2(Mat2(-k, 0.0, 0.0, -k), Vec2(-gx, 0.0)) == Some(Vec2(gx / k, 0.0))
  {
    var a, b, x := Mat2(-k, 0.0, 0.0, -k), Vec2(-gx, 0.0), Vec2(gx / k, 0.0);
    assert -k * (gx / k) == -gx;
    assert Determinant(a) == k * k && k * k >= 1.0;
    assert Solves(a, x, b);
    SolutionIsTrue(a, b, x);
  }

  lemma {:induction false} StaysOnCycle(s: Setup, q: Quadratic, n: nat)
    requires FifthBeyond(s, q) && n <= 20
    ensures Visited(s, n).Some? && OnCycle(s, Visited(s, n).value, n)
  {
    hide Step;
    if n > 0 {
      StaysOnCycle(s, q, n - 1);
      CycleStep(s, q, n - 1);
    }
  }

  lemma CycleStep(s: Setup, q: Quadratic, n: nat)
    requires FifthBeyond(s, q) && n < 20 && Visited(s, n).Some? && OnCycle(s, Visited(s, n).value, n)
    ensures Step(s, Visited(s, n).value).Go? && OnCycle(s, Step(s, Visited(s, n).value).next, n + 1)
  {
    hide Step, Visited, OnSurface, ValidSetup;
    var cur := Visited(s, n).value;
    SurfaceAt(s, q, n);
    var k := if Fifths(n) == 3 then 1 else 0;
    assert Round(cur.r) == s.peakR + k && Round(cur.d) == s.peakD;
    SlopeBeside(q, s.peakR as real, s.peakD as real, k as real);
    var damp := Max(cur.lambda * 0.5, 1e-12);
    RoundPeakStep(s, cur, 4.0 - 20.0 * k as real, damp);
  }

  /** The refined position comes back to the integer bin, a fifth of a bin from the top of the peak, and is reported as converged. */
  lemma ShippedSettingsMissTheTop(s: Setup, q: Quadratic)
    requires FifthBeyond(s, q)
    ensures Slopes(q, s.peakR as real + 0.2, s.peakD as real) == Vec2(0.0, 0.0)
    ensures DampedResult(s).converged && DampedResult(s).iterations == 20
    ensures Abs(DampedResult(s).rangeExact - s.peakR as real) <= 0.001 && DampedResult(s).dopplerExact == s.peakD as real
  {
    hide Step, Visited, OnSurface, ValidSetup, Run;
    SlopeBeside(q, s.peakR as real, s.peakD as real, 0.2);
    StaysOnCycle(s, q, 20);
    DampedStart(s);
    RunReaches(s, 20);
    RunUnfold(s, Visited(s, 20).value, 20);
  }
}
