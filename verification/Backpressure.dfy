/** The hysteresis gate in front of the demux workers, and every run of any number of workers through it. */
module Backpressure {
  // ---------------------------------------------------------------- the controller

  datatype Gate = Gate(load: int, paused: bool)

  /** Entering: the gate closes when the load reaches the high mark. */
  function Entered(g: Gate, high: int): Gate {
    Gate(g.load + 1, g.paused || g.load + 1 >= high)
  }

  /** Leaving: a closed gate opens when the load is down to the low mark. */
  function Left(g: Gate, low: int): Gate {
    Gate(g.load - 1, g.paused && g.load - 1 > low)
  }

  /** The waiters are woken. */
  predicate Wakes(g: Gate, low: int) { g.paused && g.load - 1 <= low }

  class BackpressureController {
    const highWaterMark: int
    const lowWaterMark: int
    var currentLoad: int
    var paused: bool

    constructor (highWaterMark: int, lowWaterMark: int)
      ensures this.highWaterMark == highWaterMark && this.lowWaterMark == lowWaterMark
      ensures Value() == Gate(0, false)
    {
      this.highWaterMark, this.lowWaterMark := highWaterMark, lowWaterMark;
      currentLoad, paused := 0, false;
    }

    function Value(): Gate
      reads this
    {
      Gate(currentLoad, paused)
    }

    method Increment()
      modifies this
      ensures Value() == Entered(old(Value()), highWaterMark)
      ensures currentLoad == old(currentLoad) + 1 && (paused <==> old(paused) || currentLoad >= highWaterMark)
    {
      currentLoad := currentLoad + 1;
      if currentLoad >= highWaterMark && !paused { paused := true; }
    }

    method Decrement() returns (broadcast: bool)
      modifies this
      ensures Value() == Left(old(Value()), lowWaterMark) && broadcast == Wakes(old(Value()), lowWaterMark)
      ensures currentLoad == old(currentLoad) - 1 && (paused <==> old(paused) && currentLoad > lowWaterMark)
      ensures broadcast <==> old(paused) && currentLoad <= lowWaterMark
    {
      currentLoad := currentLoad - 1;
      broadcast := false;
      if paused && currentLoad <= lowWaterMark {
        paused := false;
        broadcast := true;
      }
    }

    /** One turn of the waiting loop: the caller passes, or suspends until the next broadcast. */
    method Check() returns (passes: bool)
      ensures passes == !Value().paused
    {
      passes := !paused;
    }
  }

  // ---------------------------------------------------------------- the workers

  /** Where a worker is: idle, about to test the gate, suspended, past the gate, or counted in the load. */
  datatype Phase = Outside | AtGate | Waiting | PastGate | Inside

  datatype State = State(workers: seq<Phase>, gate: Gate)

  datatype Action = Receive | Check | Increment | Decrement

  function Count(workers: seq<Phase>, p: Phase): (n: nat)
    ensures n <= |workers|
  {
    if workers == [] then 0 else Count(workers[..|workers| - 1], p) + if workers[|workers| - 1] == p then 1 else 0
  }

  function Woken(workers: seq<Phase>): (w: seq<Phase>)
    ensures |w| == |workers|
  {
    seq(|workers|, (j: nat) requires j < |workers| => if workers[j] == Waiting then AtGate else workers[j])
  }

  predicate Enabled(s: State, i: nat, a: Action) {
    i < |s.workers| &&
    match a
    case Receive => s.workers[i] == Outside
    case Check => s.workers[i] == AtGate
    case Increment => s.workers[i] == PastGate
    case Decrement => s.workers[i] == Inside
  }

  /** Worker i takes one step; each step is one critical section of the controller, or receiving a frame. */
  function Step(s: State, i: nat, a: Action, high: int, low: int): (t: State)
    requires Enabled(s, i, a)
    ensures |t.workers| == |s.workers|
  {
    match a
    case Receive => s.(workers := s.workers[i := AtGate])
    case Check => s.(workers := s.workers[i := if s.gate.paused then Waiting else PastGate])
    case Increment => State(s.workers[i := Inside], Entered(s.gate, high))
    case Decrement =>
      var moved := s.workers[i := Outside];
      State(if Wakes(s.gate, low) then Woken(moved) else moved, Left(s.gate, low))
  }

  /** A step moves its own worker in or out of the gate and nobody else. */
  lemma StepMovesOne(s: State, i: nat, a: Action, high: int, low: int)
    requires Enabled(s, i, a)
    ensures forall j: nat :: j < |s.workers| && j != i ==> (Step(s, i, a, high, low).workers[j] == Outside <==> s.workers[j] == Outside)
    ensures Step(s, i, a, high, low).workers[i] == Outside <==> a == Decrement
  {}

  /** A waiting worker is sent back to the gate exactly by the step of another that brings the load of a closed gate down to the low mark. */
  lemma WokenExactly(s: State, i: nat, a: Action, high: int, low: int, j: nat)
    requires Enabled(s, i, a) && j < |s.workers| && s.workers[j] == Waiting
    ensures Step(s, i, a, high, low).workers[j] == (if a == Decrement && s.gate.paused && s.gate.load - 1 <= low then AtGate else Waiting)
  {}

  function Initial(n: nat): State { State(seq(n, (j: nat) => Outside), Gate(0, false)) }

  /** States of a run, from the initial one, each a step of some worker after the one before. */
  ghost predicate IsRun(run: seq<State>, n: nat, high: int, low: int) {
    && |run| > 0 && run[0] == Initial(n)
    && forall k: nat :: k + 1 < |run| ==> Follows(run[k], run[k + 1], high, low)
  }

  ghost predicate Follows(s: State, t: State, high: int, low: int) {
    exists i: nat, a: Action :: Enabled(s, i, a) && t == Step(s, i, a, high, low)
  }

  // ---------------------------------------------------------------- counting

  lemma {:induction false} CountUpdate(workers: seq<Phase>, i: nat, q: Phase, p: Phase)
    requires i < |workers|
    ensures Count(workers[i := q], p) == Count(workers, p) - (if workers[i] == p then 1 else 0) + (if q == p then 1 else 0)
  {
    var n := |workers| - 1;
    if i < n {
      assert workers[i := q][..n] == workers[..n][i := q];
      CountUpdate(workers[..n], i, q, p);
    } else {
      assert workers[i := q][..n] == workers[..n];
    }
  }

  lemma {:induction false} CountWoken(workers: seq<Phase>)
    ensures Count(Woken(workers), Inside) == Count(workers, Inside)
    ensures Count(Woken(workers), Outside) == Count(workers, Outside)
  {
    if workers != [] {
      var n := |workers| - 1;
      assert Woken(workers)[..n] == Woken(workers[..n]);
      CountWoken(workers[..n]);
    }
  }

  lemma {:induction false} CountPositive(workers: seq<Phase>, p: Phase) returns (i: nat)
    requires Count(workers, p) > 0
    ensures i < |workers| && workers[i] == p
  {
    var n := |workers| - 1;
    if workers[n] == p { i := n; } else { i := CountPositive(workers[..n], p); }
  }

  lemma {:induction false} CountNone(n: nat, p: Phase)
    ensures Count(seq(n, (j: nat) => Outside), p) == if p == Outside then n else 0
  {
    if n > 0 {
      assert seq(n, (j: nat) => Outside)[..n - 1] == seq(n - 1, (j: nat) => Outside);
      CountNone(n - 1, p);
    }
  }

  // ---------------------------------------------------------------- the invariant

  ghost predicate Inv(s: State, high: int, low: int) {
    && s.gate.load == Count(s.workers, Inside)
    && (s.gate.load >= high ==> s.gate.paused)
    && (s.gate.paused ==> s.gate.load > low)
    && (forall j: nat :: j < |s.workers| && s.workers[j] == Waiting ==> s.gate.paused)
  }

  lemma StepKeepsInv(s: State, i: nat, a: Action, high: int, low: int)
    requires 0 <= low < high && Inv(s, high, low) && Enabled(s, i, a)
    ensures Inv(Step(s, i, a, high, low), high, low)
  {
    hide Count;
    var t := Step(s, i, a, high, low);
    match a {
      case Receive => CountUpdate(s.workers, i, AtGate, Inside);
      case Check => CountUpdate(s.workers, i, if s.gate.paused then Waiting else PastGate, Inside);
      case Increment => CountUpdate(s.workers, i, Inside, Inside);
      case Decrement =>
        CountUpdate(s.workers, i, Outside, Inside);
        CountWoken(s.workers[i := Outside]);
    }
  }

  /** Every state of every run, for any number of workers. */
  lemma {:induction false} RunKeepsInv(run: seq<State>, n: nat, high: int, low: int, k: nat)
    requires 0 <= low < high && IsRun(run, n, high, low) && k < |run|
    ensures Inv(run[k], high, low) && |run[k].workers| == n
  {
    hide Inv;
    if k == 0 {
      InitialInv(n, high, low);
    } else {
      RunKeepsInv(run, n, high, low, k - 1);
      assert Follows(run[k - 1], run[k - 1 + 1], high, low);
      var i: nat, a: Action :| Enabled(run[k - 1], i, a) && run[k] == Step(run[k - 1], i, a, high, low);
      StepKeepsInv(run[k - 1], i, a, high, low);
    }
  }

  lemma InitialInv(n: nat, high: int, low: int)
    requires 0 <= low < high
    ensures Inv(Initial(n), high, low)
  {
    CountNone(n, Inside);
  }

  // ---------------------------------------------------------------- no lost wakeup, no deadlock

  /** A suspended worker always coexists with one inside, whose Decrement is enabled. */
  lemma NoLostWakeup(run: seq<State>, n: nat, high: int, low: int, k: nat, w: nat) returns (i: nat)
    requires 0 <= low < high && IsRun(run, n, high, low) && k < |run|
    requires w < |run[k].workers| && run[k].workers[w] == Waiting
    ensures i != w && Enabled(run[k], i, Decrement)
  {
    hide IsRun;
    RunKeepsInv(run, n, high, low, k);
    i := CountPositive(run[k].workers, Inside);
  }

  /** Whenever a worker holds a frame, some worker that holds one can step. */
  lemma NoDeadlock(run: seq<State>, n: nat, high: int, low: int, k: nat, w: nat) returns (i: nat, a: Action)
    requires 0 <= low < high && IsRun(run, n, high, low) && k < |run|
    requires w < |run[k].workers| && run[k].workers[w] != Outside
    ensures a != Receive && Enabled(run[k], i, a)
  {
    match run[k].workers[w] {
      case AtGate => i, a := w, Check;
      case PastGate => i, a := w, Increment;
      case Inside => i, a := w, Decrement;
      case Waiting =>
        i := NoLostWakeup(run, n, high, low, k, w);
        a := Decrement;
    }
  }

  function Distance(p: Phase): nat {
    match p
    case AtGate => 2
    case PastGate => 1
    case _ => 0
  }

  function Distances(workers: seq<Phase>): (n: nat)
    ensures n <= 2 * |workers|
  {
    if workers == [] then 0 else Distances(workers[..|workers| - 1]) + Distance(workers[|workers| - 1])
  }

  lemma {:induction false} DistancesUpdate(workers: seq<Phase>, i: nat, q: Phase)
    requires i < |workers|
    ensures Distances(workers[i := q]) == Distances(workers) - Distance(workers[i]) + Distance(q)
  {
    var n := |workers| - 1;
    if i < n {
      assert workers[i := q][..n] == workers[..n][i := q];
      DistancesUpdate(workers[..n], i, q);
    } else {
      assert workers[i := q][..n] == workers[..n];
    }
  }

  /** Work left before every worker is idle again. */
  function Remaining(s: State): nat {
    (|s.workers| - Count(s.workers, Outside)) * (2 * |s.workers| + 1) + Distances(s.workers)
  }

  lemma LessByOne(m: nat, p: nat, a: nat, b: nat)
    requires b < p
    ensures m * p + b < (m + 1) * p + a
  {}

  /** Without new frames the workers drain: every other step strictly lowers the work left, so waiting always ends. */
  lemma StepDrains(s: State, i: nat, a: Action, high: int, low: int)
    requires Enabled(s, i, a) && a != Receive
    ensures Remaining(Step(s, i, a, high, low)) < Remaining(s)
  {
    hide Count, Distances;
    var t := Step(s, i, a, high, low);
    var n := |s.workers|;
    match a {
      case Check =>
        var q := if s.gate.paused then Waiting else PastGate;
        CountUpdate(s.workers, i, q, Outside);
        DistancesUpdate(s.workers, i, q);
      case Increment =>
        CountUpdate(s.workers, i, Inside, Outside);
        DistancesUpdate(s.workers, i, Inside);
      case Decrement =>
        CountUpdate(s.workers, i, Outside, Outside);
        CountWoken(s.workers[i := Outside]);
        LessByOne(n - Count(t.workers, Outside), 2 * n + 1, Distances(s.workers), Distances(t.workers));
    }
  }

  // ---------------------------------------------------------------- when the gate matters at all

  lemma {:induction false} NeverPaused(run: seq<State>, n: nat, high: int, low: int, k: nat)
    requires 0 <= low < high && IsRun(run, n, high, low) && k < |run| && n < high
    ensures !run[k].gate.paused
  {
    hide Count;
    if k == 0 {
    } else {
      NeverPaused(run, n, high, low, k - 1);
      RunKeepsInv(run, n, high, low, k);
      assert Follows(run[k - 1], run[k - 1 + 1], high, low);
    }
  }

  /** A run in which the first m workers have gone in, one after the other. */
  lemma {:induction false} Fill(n: nat, high: int, low: int, m: nat) returns (run: seq<State>)
    requires 0 <= low < high && m <= n && m <= high
    ensures IsRun(run, n, high, low)
    ensures run[|run| - 1] == State(seq(n, (j: nat) => if j < m then Inside else Outside), Gate(m, m >= high))
  {
    if m == 0 {
      run := [Initial(n)];
    } else {
      run := Fill(n, high, low, m - 1);
      var i := m - 1;
      run := Extend(run, n, high, low, i, Receive);
      run := Extend(run, n, high, low, i, Check);
      run := Extend(run, n, high, low, i, Increment);
      assert run[|run| - 1].workers == seq(n, (j: nat) => if j < m then Inside else Outside);
    }
  }

  lemma Extend(run: seq<State>, n: nat, high: int, low: int, i: nat, a: Action) returns (longer: seq<State>)
    requires IsRun(run, n, high, low) && Enabled(run[|run| - 1], i, a)
    ensures IsRun(longer, n, high, low) && longer[|longer| - 1] == Step(run[|run| - 1], i, a, high, low)
  {
    hide Step;
    longer := run + [Step(run[|run| - 1], i, a, high, low)];
    forall k: nat | k + 1 < |longer|
      ensures Follows(longer[k], longer[k + 1], high, low)
    {
      if k + 1 < |run| { assert Follows(run[k], run[k + 1], high, low); }
    }
  }

  /** The gate can close in some run exactly when there are at least as many workers as the high mark. */
  lemma CanPauseExactly(n: nat, high: int, low: int)
    requires 0 <= low < high
    ensures (exists run: seq<State> :: IsRun(run, n, high, low) && run[|run| - 1].gate.paused) <==> n >= high
  {
    hide IsRun;
    if n >= high {
      var run := Fill(n, high, low, high);
      NonEmpty(run, n, high, low);
    } else {
      forall run: seq<State> | IsRun(run, n, high, low)
        ensures |run| > 0 && !run[|run| - 1].gate.paused
      {
        NonEmpty(run, n, high, low);
        NeverPaused(run, n, high, low, |run| - 1);
      }
    }
  }

  lemma NonEmpty(run: seq<State>, n: nat, high: int, low: int)
    requires IsRun(run, n, high, low)
    ensures |run| > 0
  {}
}
