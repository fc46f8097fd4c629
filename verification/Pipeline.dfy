/**
 The running gateway as a transition system: five worker stages joined by four bounded channels, the
 storage writer behind a fifth, and the main goroutine's shutdown sequence.
 */
module Pipeline {
  import opened Ints
  import opened Sums
  import Gate = Backpressure

  const UDP := 0
  const FRAMER := 1
  const FFT := 2
  const DEMUX := 3
  const SINK := 4

  /** A goroutine of a stage. Reading is blocked in a socket read; the others hold at most one item. */
  datatype Worker = Idle | Reading | Working(item: nat) | Storing(item: nat) | Holding(item: nat) | Exited

  /** Channel capacities, the writer's batch size, the gate's marks, and whether the storage came up. */
  datatype Config = Config(capacity: seq<nat>, batchSize: nat, high: int, low: int, storageStarted: bool)

  datatype State = State(
    stages: seq<seq<Worker>>, channels: seq<seq<nat>>, gate: Gate.State,
    cancelled: seq<bool>, closed: seq<bool>,
    batchCh: seq<nat>, batch: seq<nat>, storageCancelled: bool, batchClosed: bool, writerRunning: bool,
    dropped: multiset<nat>, errored: multiset<nat>, delivered: multiset<nat>,
    received: nat, pc: nat)

  datatype What = Read | Packet | ReadError | Receive | Exit | Pass(a: Gate.Action) | Process | Fail | Finish
                | Accept | Reject | Send | DropFull | DropExit

  datatype Action = Main | Tick | WriterReceive | WriterExit | Work(stage: nat, index: nat, what: What)

  // ---------------------------------------------------------------- the main goroutine

  /** Three instructions per stage: cancel its context, wait for its workers, close its output channel. */
  datatype Instruction = Cancel(stage: nat) | Wait(stage: nat) | Close(stage: nat) | CancelStorage | CloseBatch | WaitWriter | Finished

  function Last(c: Config): nat { if c.storageStarted then 17 else 14 }

  function Instr(pc: nat, c: Config): Instruction {
    if pc >= Last(c) then Finished
    else if pc == 14 then CancelStorage
    else if pc == 15 then CloseBatch
    else if pc == 16 then WaitWriter
    else if pc % 3 == 0 then Cancel(pc / 3)
    else if pc % 3 == 1 then Wait(pc / 3)
    else Close(pc / 3)
  }

  predicate AllExited(row: seq<Worker>) { forall i: nat :: i < |row| ==> row[i].Exited? }

  predicate MainEnabled(s: State, c: Config) {
    match Instr(s.pc, c)
    case Cancel(k) => k < |s.cancelled|
    case Wait(k) => k < |s.stages| && AllExited(s.stages[k])
    case Close(k) => k < |s.closed|
    case CancelStorage => true
    case CloseBatch => true
    case WaitWriter => !s.writerRunning
    case Finished => false
  }

  function MainStep(s: State, c: Config): State
    requires MainEnabled(s, c)
  {
    var t := s.(pc := s.pc + 1);
    match Instr(s.pc, c)
    case Cancel(k) => t.(cancelled := s.cancelled[k := true])
    case Wait(k) => t
    case Close(k) => t.(closed := s.closed[k := true])
    case CancelStorage => t.(storageCancelled := true)
    case CloseBatch => t.(batchClosed := true)
    case WaitWriter => t
  }

  // ---------------------------------------------------------------- the workers

  predicate Shape(s: State) {
    && |s.stages| == 5 && |s.channels| == 4 && |s.cancelled| == 5 && |s.closed| == 4
    && |s.gate.workers| == |s.stages[DEMUX]|
  }

  /** What a worker of stage k may do, as the select statements and loops allow it. */
  predicate WorkEnabled(s: State, c: Config, k: nat, i: nat, what: What)
    requires Shape(s) && |c.capacity| == 4
  {
    k < 5 && i < |s.stages[k]| &&
    var w := s.stages[k][i];
    match what
    case Read => k == UDP && w.Idle? && !s.cancelled[k]
    case Packet => k == UDP && w.Reading?
    case ReadError => k == UDP && w.Reading?
    case Receive => k > UDP && w.Idle? && s.channels[k - 1] != [] && (k == DEMUX ==> Gate.Enabled(s.gate, i, Gate.Receive))
    case Exit => w.Idle? && (s.cancelled[k] || (k > UDP && s.closed[k - 1] && s.channels[k - 1] == []))
    case Pass(a) => k == DEMUX && w.Working? && (a == Gate.Check || a == Gate.Increment) && Gate.Enabled(s.gate, i, a)
    case Process => k > UDP && w.Working? && (k == DEMUX ==> Gate.Enabled(s.gate, i, Gate.Decrement))
    case Fail => UDP < k < SINK && w.Working? && (k == DEMUX ==> Gate.Enabled(s.gate, i, Gate.Decrement))
    case Finish => k == SINK && w.Working?
    case Accept => w.Storing? && |s.batchCh| < 2 * c.batchSize
    case Reject => w.Storing? && (s.storageCancelled || |s.batchCh| >= 2 * c.batchSize)
    case Send => k < SINK && w.Holding? && |s.channels[k]| < c.capacity[k]
    case DropFull => k < SINK && w.Holding? && |s.channels[k]| >= c.capacity[k] && !s.cancelled[k]
    case DropExit => k < SINK && w.Holding? && s.cancelled[k]
  }

  /** The worker after its step. */
  function Moved(s: State, k: nat, i: nat, what: What): Worker
    requires Shape(s) && k < 5 && i < |s.stages[k]| && (what == Receive ==> k > 0 && s.channels[k - 1] != [])
  {
    var w := s.stages[k][i];
    match what
    case Read => Reading
    case Packet => Holding(s.received)
    case ReadError => if s.cancelled[k] then Exited else Idle
    case Receive => Working(s.channels[k - 1][0])
    case Exit => Exited
    case Pass(_) => w
    case Process => if w.Working? then if k == DEMUX || k == SINK then Storing(w.item) else Holding(w.item) else w
    case Accept => if w.Storing? && k != SINK then Holding(w.item) else Idle
    case Reject => if w.Storing? && k != SINK then Holding(w.item) else Idle
    case DropExit => Exited
    case _ => Idle
  }

  /** The channels after the step: a receive takes the head of the input, a send appends to the output. */
  function Queues(s: State, k: nat, i: nat, what: What): seq<seq<nat>>
    requires Shape(s) && k < 5 && i < |s.stages[k]|
    requires what == Receive ==> k > 0 && s.channels[k - 1] != []
    requires what == Send ==> k < 4 && s.stages[k][i].Holding?
  {
    if what == Receive then s.channels[k - 1 := s.channels[k - 1][1..]]
    else if what == Send then s.channels[k := s.channels[k] + [s.stages[k][i].item]]
    else s.channels
  }

  /** The gate action that goes with a demux worker's step, if any. */
  function GateAction(k: nat, what: What): Gate.Action
    requires UsesGate(k, what)
  {
    match what
    case Receive => Gate.Receive
    case Pass(a) => a
    case _ => Gate.Decrement
  }

  predicate UsesGate(k: nat, what: What) { k == DEMUX && (what == Receive || what.Pass? || what == Process || what == Fail) }

  function GateAfter(s: State, c: Config, k: nat, i: nat, what: What): Gate.State
    requires UsesGate(k, what) ==> Gate.Enabled(s.gate, i, GateAction(k, what))
  {
    if UsesGate(k, what) then Gate.Step(s.gate, i, GateAction(k, what), c.high, c.low) else s.gate
  }

  /** The item a worker holds leaves the pipeline. */
  function One(w: Worker, leaves: bool): multiset<nat> {
    if leaves && (w.Working? || w.Storing? || w.Holding?) then multiset{w.item} else multiset{}
  }

  function WorkStep(s: State, c: Config, k: nat, i: nat, what: What): State
    requires Shape(s) && |c.capacity| == 4 && WorkEnabled(s, c, k, i, what)
  {
    var w := s.stages[k][i];
    s.(stages := s.stages[k := s.stages[k][i := Moved(s, k, i, what)]],
       channels := Queues(s, k, i, what),
       gate := GateAfter(s, c, k, i, what),
       batchCh := if what == Accept then s.batchCh + [w.item] else s.batchCh,
       dropped := s.dropped + One(w, what == DropFull || what == DropExit),
       errored := s.errored + One(w, what == Fail),
       delivered := s.delivered + One(w, what == Finish || (k == SINK && (what == Accept || what == Reject))),
       received := if what == Packet then s.received + 1 else s.received)
  }

  /** The writer's batch with one more item, or emptied into the database when that fills it. */
  function Grown(batch: seq<nat>, item: nat, c: Config): seq<nat> {
    if |batch| + 1 >= c.batchSize then [] else batch + [item]
  }

  predicate Enabled(s: State, c: Config, a: Action)
    requires Shape(s) && |c.capacity| == 4
  {
    match a
    case Main => MainEnabled(s, c)
    case Tick => s.writerRunning
    case WriterReceive => s.writerRunning && s.batchCh != []
    case WriterExit => s.writerRunning && (s.storageCancelled || (s.batchClosed && s.batchCh == []))
    case Work(k, i, what) => WorkEnabled(s, c, k, i, what)
  }

  function Step(s: State, c: Config, a: Action): State
    requires Shape(s) && |c.capacity| == 4 && Enabled(s, c, a)
  {
    match a
    case Main => MainStep(s, c)
    case Tick => s.(batch := [])
    case WriterReceive => s.(batchCh := s.batchCh[1..], batch := Grown(s.batch, s.batchCh[0], c))
    case WriterExit => s.(batch := [], writerRunning := false)
    case Work(k, i, what) => WorkStep(s, c, k, i, what)
  }

  // ---------------------------------------------------------------- the invariant

  /** What the program counter says about contexts, channels and workers. */
  ghost predicate Ordered(s: State, c: Config)
    requires Shape(s)
  {
    && s.pc <= Last(c)
    && (forall k: nat :: k < 5 ==> (s.cancelled[k] <==> s.pc > 3 * k))
    && (forall k: nat :: k < 4 ==> (s.closed[k] <==> s.pc > 3 * k + 2))
    && (forall k: nat :: k < 5 && s.pc > 3 * k + 1 ==> AllExited(s.stages[k]))
    && (s.storageCancelled <==> s.pc > 14) && (s.batchClosed <==> s.pc > 15)
    && (s.pc > 16 ==> !s.writerRunning)
  }

  /** Which phases each stage uses. */
  predicate Fits(k: nat, w: Worker) {
    match w
    case Idle => true
    case Exited => true
    case Reading => k == UDP
    case Working(_) => k > UDP
    case Storing(_) => k == DEMUX || k == SINK
    case Holding(_) => k < SINK
  }

  ghost predicate Fitting(s: State)
    requires Shape(s)
  {
    forall k: nat, i: nat :: k < 5 && i < |s.stages[k]| ==> Fits(k, s.stages[k][i])
  }

  /** Demux workers are at the gate exactly while they work on a frame. */
  ghost predicate Gated(s: State, c: Config)
    requires Shape(s)
  {
    && Gate.Inv(s.gate, c.high, c.low)
    && forall i: nat :: i < |s.gate.workers| ==> (s.gate.workers[i] != Gate.Outside <==> s.stages[DEMUX][i].Working?)
  }

  ghost predicate ValidConfig(c: Config) { |c.capacity| == 4 && 0 <= c.low < c.high }

  ghost predicate Inv(s: State, c: Config) {
    ValidConfig(c) && Shape(s) && Ordered(s, c) && Fitting(s) && Gated(s, c)
  }

  lemma InstrAt(pc: nat, c: Config)
    requires pc <= Last(c)
    ensures match Instr(pc, c)
            case Cancel(k) => k < 5 && pc == 3 * k
            case Wait(k) => k < 5 && pc == 3 * k + 1
            case Close(k) => k < 4 && pc == 3 * k + 2
            case CancelStorage => c.storageStarted && pc == 14
            case CloseBatch => c.storageStarted && pc == 15
            case WaitWriter => c.storageStarted && pc == 16
            case Finished => pc == Last(c)
  {}

  lemma MainKeepsInv(s: State, c: Config)
    requires Inv(s, c) && MainEnabled(s, c)
    ensures Inv(MainStep(s, c), c)
  {
    hide Gate.Inv, Fits, AllExited, Ordered, Instr;
    MainKeepsOrder(s, c);
  }

  lemma MainKeepsOrder(s: State, c: Config)
    requires Shape(s) && Ordered(s, c) && MainEnabled(s, c)
    ensures Shape(MainStep(s, c)) && Ordered(MainStep(s, c), c)
  {
    hide AllExited, Instr;
    InstrAt(s.pc, c);
  }

  lemma MovedFits(s: State, c: Config, k: nat, i: nat, what: What)
    requires Shape(s) && |c.capacity| == 4 && Fitting(s) && WorkEnabled(s, c, k, i, what)
    ensures Fits(k, Moved(s, k, i, what)) && !s.stages[k][i].Exited?
  {}

  lemma WorkKeepsOrder(s: State, c: Config, k: nat, i: nat, what: What)
    requires Shape(s) && |c.capacity| == 4 && Ordered(s, c) && Fitting(s) && WorkEnabled(s, c, k, i, what)
    ensures Shape(WorkStep(s, c, k, i, what)) && Ordered(WorkStep(s, c, k, i, what), c) && Fitting(WorkStep(s, c, k, i, what))
  {
    MovedFits(s, c, k, i, what);
    hide Moved, Fits, GateAfter, WorkEnabled, Queues, One;
    var t := WorkStep(s, c, k, i, what);
    assert |t.gate.workers| == |s.gate.workers| && |t.channels| == 4 by { SizesKept(s, c, k, i, what); }
    forall q: nat | q < 5 && s.pc > 3 * q + 1
      ensures AllExited(t.stages[q])
    {
      assert AllExited(s.stages[q]);
    }
  }

  lemma SizesKept(s: State, c: Config, k: nat, i: nat, what: What)
    requires Shape(s) && |c.capacity| == 4 && WorkEnabled(s, c, k, i, what)
    ensures |GateAfter(s, c, k, i, what).workers| == |s.gate.workers| && |Queues(s, k, i, what)| == 4
  {
    hide Gate.Step;
  }

  lemma WorkKeepsGate(s: State, c: Config, k: nat, i: nat, what: What)
    requires Inv(s, c) && WorkEnabled(s, c, k, i, what)
    ensures |WorkStep(s, c, k, i, what).gate.workers| == |s.gate.workers|
    ensures Gate.Inv(GateAfter(s, c, k, i, what), c.high, c.low)
    ensures forall j: nat :: j < |s.gate.workers| ==>
              (GateAfter(s, c, k, i, what).workers[j] != Gate.Outside <==> WorkStep(s, c, k, i, what).stages[DEMUX][j].Working?)
  {
    if k == DEMUX { InsideWhileWorking(s, c, i, what); }
    InStage(s, c, k, i, what);
    hide WorkEnabled, Gate.Inv, Ordered, Fitting, Gate.Step, Gate.Enabled, Moved, Queues, One, GateAction;
    if UsesGate(k, what) {
      Gate.StepKeepsInv(s.gate, i, GateAction(k, what), c.high, c.low);
      Gate.StepMovesOne(s.gate, i, GateAction(k, what), c.high, c.low);
    }
  }

  lemma InStage(s: State, c: Config, k: nat, i: nat, what: What)
    requires Shape(s) && |c.capacity| == 4 && WorkEnabled(s, c, k, i, what)
    ensures k < 5 && i < |s.stages[k]| && (UsesGate(k, what) ==> Gate.Enabled(s.gate, i, GateAction(k, what)))
  {}

  /** The demux worker that steps is at the gate afterwards exactly if it works on a frame. */
  lemma InsideWhileWorking(s: State, c: Config, i: nat, what: What)
    requires Inv(s, c) && WorkEnabled(s, c, DEMUX, i, what)
    ensures UsesGate(DEMUX, what) ==> (Moved(s, DEMUX, i, what).Working? <==> GateAction(DEMUX, what) != Gate.Decrement)
    ensures !UsesGate(DEMUX, what) ==> !Moved(s, DEMUX, i, what).Working? && !s.stages[DEMUX][i].Working?
  {
    hide Ordered, Gated;
  }

  lemma StepKeepsInv(s: State, c: Config, a: Action)
    requires Inv(s, c) && Enabled(s, c, a)
    ensures Inv(Step(s, c, a), c)
  {
    hide WorkEnabled, Fitting, MainStep, MainEnabled, Ordered, Gate.Inv, Moved, GateAfter, Queues, One;
    match a {
      case Main => MainKeepsInv(s, c);
      case Work(k, i, what) =>
        WorkKeepsOrder(s, c, k, i, what);
        WorkKeepsGate(s, c, k, i, what);
      case _ => WriterKeepsInv(s, c, a);
    }
  }

  lemma WriterKeepsInv(s: State, c: Config, a: Action)
    requires Inv(s, c) && Enabled(s, c, a) && (a.Tick? || a.WriterReceive? || a.WriterExit?)
    ensures Inv(Step(s, c, a), c)
  {
    hide Fits, Gate.Inv, AllExited;
  }

  // ---------------------------------------------------------------- runs

  /** Nothing has happened yet: all workers idle, all channels open and empty, main waiting for the signal. */
  ghost predicate Initial(s: State, c: Config) {
    && ValidConfig(c) && Shape(s)
    && (forall k: nat, i: nat :: k < 5 && i < |s.stages[k]| ==> s.stages[k][i] == Idle)
    && s.channels == [[], [], [], []] && s.gate == Gate.Initial(|s.stages[DEMUX]|)
    && s.cancelled == [false, false, false, false, false] && s.closed == [false, false, false, false]
    && s.batchCh == [] && s.batch == [] && !s.storageCancelled && !s.batchClosed && s.writerRunning == c.storageStarted
    && s.dropped == multiset{} && s.errored == multiset{} && s.delivered == multiset{} && s.received == 0 && s.pc == 0
  }

  ghost predicate Follows(s: State, t: State, c: Config) {
    ValidConfig(c) && Shape(s) && exists a: Action :: Enabled(s, c, a) && t == Step(s, c, a)
  }

  ghost predicate IsRun(run: seq<State>, c: Config) {
    && |run| > 0 && Initial(run[0], c)
    && forall k: nat :: k + 1 < |run| ==> Follows(run[k], run[k + 1], c)
  }

  lemma InitialInv(s: State, c: Config)
    requires Initial(s, c)
    ensures Inv(s, c)
  {
    Gate.InitialInv(|s.stages[DEMUX]|, c.high, c.low);
  }

  lemma {:induction false} RunKeepsInv(run: seq<State>, c: Config, n: nat)
    requires IsRun(run, c) && n < |run|
    ensures Inv(run[n], c)
  {
    hide Inv, Initial, Step, Enabled;
    if n == 0 {
      InitialInv(run[0], c);
    } else {
      RunKeepsInv(run, c, n - 1);
      assert Follows(run[n - 1], run[n - 1 + 1], c);
      var a :| Enabled(run[n - 1], c, a) && run[n] == Step(run[n - 1], c, a);
      StepKeepsInv(run[n - 1], c, a);
    }
  }

  /** A worker about to send, on its output channel or to the storage, would panic: that channel is closed. */
  ghost predicate Panics(s: State, k: nat, i: nat)
    requires Shape(s) && k < 5 && i < |s.stages[k]|
  {
    || (s.stages[k][i].Holding? && (k >= 4 || s.closed[k]))
    || (s.stages[k][i].Storing? && s.batchClosed)
  }

  /** In every run, whatever the interleaving, no worker ever sends on a closed channel, and each channel is closed once. */
  lemma NoSendOnClosed(run: seq<State>, c: Config, n: nat, k: nat, i: nat)
    requires IsRun(run, c) && n < |run|
    ensures Shape(run[n])
    ensures k < 5 && i < |run[n].stages[k]| ==> !Panics(run[n], k, i)
    ensures MainEnabled(run[n], c) && Instr(run[n].pc, c).Close? ==> !run[n].closed[Instr(run[n].pc, c).stage]
    ensures Instr(run[n].pc, c).CloseBatch? ==> !run[n].batchClosed
  {
    hide IsRun, Gated, Instr;
    var s := run[n];
    RunKeepsInv(run, c, n);
    InstrAt(s.pc, c);
    if k < 5 && i < |s.stages[k]| {
      assert Fits(k, s.stages[k][i]);
      assert s.pc > 3 * k + 1 ==> AllExited(s.stages[k]);
    }
  }

  // ---------------------------------------------------------------- every item is in exactly one place

  predicate Holds(w: Worker, x: nat) { (w.Working? || w.Storing? || w.Holding?) && w.item == x }

  function InHand(x: nat): (nat, Worker) -> nat { (k, w) => if Holds(w, x) then 1 else 0 }

  function InQueue(x: nat): (nat, nat) -> nat { (k, y) => if y == x then 1 else 0 }

  /** How many places item x is in. */
  function Places(s: State, x: nat): nat {
    Total(s.stages, InHand(x)) + Total(s.channels, InQueue(x)) + s.dropped[x] + s.errored[x] + s.delivered[x]
  }

  ghost predicate Conserved(s: State) {
    forall x: nat :: Places(s, x) == if x < s.received then 1 else 0
  }

  lemma QueuePlaces(s: State, c: Config, k: nat, i: nat, what: What, x: nat)
    requires Shape(s) && |c.capacity| == 4 && WorkEnabled(s, c, k, i, what)
    ensures Total(Queues(s, k, i, what), InQueue(x)) == Total(s.channels, InQueue(x))
      - (if what == Receive && s.channels[k - 1][0] == x then 1 else 0)
      + (if what == Send && s.stages[k][i].item == x then 1 else 0)
  {
    hide Total;
    if what == Receive { Taken(s.channels, InQueue(x), k - 1); }
    if what == Send { Appended(s.channels, InQueue(x), k, s.stages[k][i].item); }
  }

  /** The worker's step hands the item over: in from the queue or the socket, out to a queue or an outcome. */
  predicate Gives(k: nat, what: What) {
    what == Fail || what == Finish || what == DropFull || what == DropExit || what == Send || (k == SINK && (what == Accept || what == Reject))
  }

  lemma HandPlaces(s: State, c: Config, k: nat, i: nat, what: What, x: nat)
    requires Shape(s) && |c.capacity| == 4 && Fitting(s) && WorkEnabled(s, c, k, i, what)
    ensures InHand(x)(k, Moved(s, k, i, what)) == InHand(x)(k, s.stages[k][i])
      + (if (what == Receive && s.channels[k - 1][0] == x) || (what == Packet && s.received == x) then 1 else 0)
      - (if Gives(k, what) && Holds(s.stages[k][i], x) then 1 else 0)
  {
    hide Gate.Enabled;
    assert Fits(k, s.stages[k][i]);
  }

  lemma OutcomePlaces(s: State, c: Config, k: nat, i: nat, what: What, x: nat)
    requires Shape(s) && |c.capacity| == 4 && WorkEnabled(s, c, k, i, what)
    ensures var t := WorkStep(s, c, k, i, what);
      t.dropped[x] + t.errored[x] + t.delivered[x] == s.dropped[x] + s.errored[x] + s.delivered[x]
        + if Gives(k, what) && what != Send && Holds(s.stages[k][i], x) then 1 else 0
  {
    hide Moved, Queues, GateAfter;
    OnePlace(s.stages[k][i], x);
  }

  lemma OnePlace(w: Worker, x: nat)
    ensures One(w, false)[x] == 0 && One(w, true)[x] == if Holds(w, x) then 1 else 0
  {}

  lemma WorkPlaces(s: State, c: Config, k: nat, i: nat, what: What, x: nat)
    requires Shape(s) && |c.capacity| == 4 && Fitting(s) && WorkEnabled(s, c, k, i, what)
    ensures Places(WorkStep(s, c, k, i, what), x) == Places(s, x) + if what == Packet && x == s.received then 1 else 0
  {
    QueuePlaces(s, c, k, i, what, x);
    HandPlaces(s, c, k, i, what, x);
    OutcomePlaces(s, c, k, i, what, x);
    hide Total, Queues, GateAfter, Moved, One, InHand, InQueue, Gate.Enabled;
    ElementUpdate(s.stages, InHand(x), k, i, Moved(s, k, i, what));
  }

  lemma StepConserves(s: State, c: Config, a: Action)
    requires Inv(s, c) && Conserved(s) && Enabled(s, c, a)
    ensures Conserved(Step(s, c, a))
  {
    hide Places, WorkStep, MainStep, WorkEnabled, Gated, Ordered, Fitting;
    var t := Step(s, c, a);
    forall x: nat
      ensures Places(t, x) == if x < t.received then 1 else 0
    {
      match a {
        case Work(k, i, what) =>
          WorkPlaces(s, c, k, i, what, x);
          Received(s, c, k, i, what);
        case _ => OthersKeepPlaces(s, c, a, x);
      }
    }
  }

  lemma Received(s: State, c: Config, k: nat, i: nat, what: What)
    requires Shape(s) && |c.capacity| == 4 && WorkEnabled(s, c, k, i, what)
    ensures WorkStep(s, c, k, i, what).received == if what == Packet then s.received + 1 else s.received
  {
    hide Queues, GateAfter, One, Moved;
  }

  lemma OthersKeepPlaces(s: State, c: Config, a: Action, x: nat)
    requires Shape(s) && |c.capacity| == 4 && Enabled(s, c, a) && !a.Work?
    ensures Places(Step(s, c, a), x) == Places(s, x) && Step(s, c, a).received == s.received
  {
    hide Total, InHand, InQueue, AllExited, Instr;
  }

  /** Every item received so far is in exactly one channel, worker's hand or outcome, in every state of every run. */
  lemma {:induction false} RunConserves(run: seq<State>, c: Config, n: nat)
    requires IsRun(run, c) && n < |run|
    ensures Conserved(run[n])
  {
    hide Initial, Step, Enabled, Conserved;
    if n == 0 {
      StartsEmpty(run[0], c);
    } else {
      RunConserves(run, c, n - 1);
      RunKeepsInv(run, c, n - 1);
      assert Follows(run[n - 1], run[n - 1 + 1], c);
      var a :| Enabled(run[n - 1], c, a) && run[n] == Step(run[n - 1], c, a);
      StepConserves(run[n - 1], c, a);
    }
  }

  lemma StartsEmpty(s: State, c: Config)
    requires Initial(s, c)
    ensures Conserved(s)
  {
    forall x: nat
      ensures Places(s, x) == 0
    {
      TotalZero(s.stages, InHand(x));
      TotalZero(s.channels, InQueue(x));
    }
  }

  // ---------------------------------------------------------------- shutdown terminates

  /** How far a worker's item still has to go, and 1 for a worker that is still there. */
  function Weight(k: nat, w: Worker): nat {
    if w.Exited? then 0 else if w.Idle? || k > 4 then 1 else
      1 + 8 * (4 - k) + (if w.Holding? then 2 else if w.Storing? || w.Reading? then 4 else 6)
  }

  function QueueWeight(k: nat, x: nat): nat { if k > 4 then 0 else 8 * (4 - k) }

  /** Work left outside the gate: hands, queues, the batch channel, the writer and main's own steps. */
  function Load(s: State, c: Config): nat {
    Total(s.stages, Weight) + Total(s.channels, QueueWeight) + |s.batchCh| + (if s.writerRunning then 1 else 0)
    + (if s.pc < Last(c) then Last(c) - s.pc else 0)
  }

  /** A bound on the work left inside the gate. */
  function GateBound(n: nat): nat { n * (2 * n + 1) + 2 * n + 1 }

  ghost function Measure(s: State, c: Config): nat {
    Times(Load(s, c), GateBound(|s.gate.workers|)) + Gate.Remaining(s.gate)
  }

  /** What the step takes off the worker's weight covers what it adds to the queues. */
  lemma WeightDrops(s: State, c: Config, k: nat, i: nat, what: What)
    requires Shape(s) && |c.capacity| == 4 && Fitting(s) && WorkEnabled(s, c, k, i, what) && s.cancelled[UDP]
    ensures what.Pass? ==> Moved(s, k, i, what) == s.stages[k][i]
    ensures !what.Pass? ==>
      Weight(k, Moved(s, k, i, what)) + (if what == Send then QueueWeight(k, 0) else if what == Accept then 1 else 0)
        < Weight(k, s.stages[k][i]) + (if what == Receive then QueueWeight(k - 1, 0) else 0)
  {
    hide Gate.Enabled;
    assert Fits(k, s.stages[k][i]);
  }

  lemma QueueLoad(s: State, c: Config, k: nat, i: nat, what: What)
    requires Shape(s) && |c.capacity| == 4 && WorkEnabled(s, c, k, i, what)
    ensures Total(Queues(s, k, i, what), QueueWeight) == Total(s.channels, QueueWeight)
      - (if what == Receive then QueueWeight(k - 1, 0) else 0) + (if what == Send then QueueWeight(k, 0) else 0)
  {
    hide Total;
    if what == Receive { Taken(s.channels, QueueWeight, k - 1); }
    if what == Send { Appended(s.channels, QueueWeight, k, s.stages[k][i].item); }
  }

  lemma WorkLightens(s: State, c: Config, k: nat, i: nat, what: What)
    requires Shape(s) && |c.capacity| == 4 && Fitting(s) && WorkEnabled(s, c, k, i, what) && s.cancelled[UDP]
    ensures var t := WorkStep(s, c, k, i, what);
      if what.Pass? then Load(t, c) == Load(s, c) else Load(t, c) < Load(s, c)
  {
    WeightDrops(s, c, k, i, what);
    QueueLoad(s, c, k, i, what);
    hide Total, GateAfter, One, Moved, Queues, Weight, QueueWeight, Gate.Enabled;
    ElementUpdate(s.stages, Weight, k, i, Moved(s, k, i, what));
  }

  lemma OthersLighten(s: State, c: Config, a: Action)
    requires Shape(s) && |c.capacity| == 4 && Enabled(s, c, a) && !a.Work?
    ensures Step(s, c, a).gate == s.gate
    ensures if a.Tick? then Load(Step(s, c, a), c) == Load(s, c) else Load(Step(s, c, a), c) < Load(s, c)
  {
    hide Total, AllExited;
    if a.Main? && s.pc < Last(c) { InstrAt(s.pc, c); }
    hide Instr;
  }

  lemma RemainingBound(g: Gate.State)
    ensures Gate.Remaining(g) < GateBound(|g.workers|)
  {
    var n, m := |g.workers|, |g.workers| - Gate.Count(g.workers, Gate.Outside);
    Bounded(m, n, 2 * n + 1);
  }

  lemma Bounded(m: nat, n: nat, p: nat)
    requires m <= n
    ensures m * p <= n * p
  {}

  lemma Lexicographic(a: nat, b: nat, bound: nat, r: nat, q: nat)
    requires a < b && r < bound
    ensures Times(a, bound) + r < Times(b, bound) + q
  {
    TimesIs(a, bound);
    TimesIs(b, bound);
    Bounded(a + 1, b, bound);
  }

  /** Once shutdown has begun, every step but a flush tick lowers the measure, and a tick leaves it alone. */
  lemma StepLowersMeasure(s: State, c: Config, a: Action)
    requires Inv(s, c) && Enabled(s, c, a) && s.pc > 0
    ensures if a.Tick? then Measure(Step(s, c, a), c) == Measure(s, c) else Measure(Step(s, c, a), c) < Measure(s, c)
  {
    hide Load, WorkStep, WorkEnabled, Gated, Fitting, Gate.Remaining, GateBound, MainEnabled, MainStep, Gate.Step, Gate.Enabled;
    var t := Step(s, c, a);
    if a.Work? {
      var k, i, what := a.stage, a.index, a.what;
      assert s.cancelled[UDP];
      WorkLightens(s, c, k, i, what);
      GateOf(s, c, k, i, what);
      if what.Pass? {
        Gate.StepDrains(s.gate, i, what.a, c.high, c.low);
      } else {
        Lighter(s, t, c);
      }
    } else {
      OthersLighten(s, c, a);
      if !a.Tick? { Lighter(s, t, c); }
    }
  }

  lemma Lighter(s: State, t: State, c: Config)
    requires Load(t, c) < Load(s, c) && |t.gate.workers| == |s.gate.workers|
    ensures Measure(t, c) < Measure(s, c)
  {
    hide Load, GateBound, Gate.Remaining, Times;
    RemainingBound(t.gate);
    Lexicographic(Load(t, c), Load(s, c), GateBound(|s.gate.workers|), Gate.Remaining(t.gate), Gate.Remaining(s.gate));
  }

  lemma GateOf(s: State, c: Config, k: nat, i: nat, what: What)
    requires Shape(s) && |c.capacity| == 4 && WorkEnabled(s, c, k, i, what)
    ensures |WorkStep(s, c, k, i, what).gate.workers| == |s.gate.workers|
    ensures what.Pass? ==> what.a != Gate.Receive && Gate.Enabled(s.gate, i, what.a)
    ensures what.Pass? ==> WorkStep(s, c, k, i, what).gate == Gate.Step(s.gate, i, what.a, c.high, c.low)
  {
    hide Gate.Step, Moved, Queues, One;
  }

  // ---------------------------------------------------------------- shutdown cannot get stuck

  /** A worker that main waits for, or a peer at the gate, can always step. */
  lemma WorkerCanStep(s: State, c: Config, k: nat, i: nat) returns (j: nat, what: What)
    requires Inv(s, c) && k < 5 && i < |s.stages[k]| && !s.stages[k][i].Exited? && s.cancelled[k]
    ensures WorkEnabled(s, c, k, j, what)
  {
    hide Gate.Inv, Ordered;
    j := i;
    var w := s.stages[k][i];
    assert Fits(k, w);
    match w {
      case Idle => what := Exit;
      case Reading => what := ReadError;
      case Holding(_) => what := DropExit;
      case Storing(_) => what := if |s.batchCh| < 2 * c.batchSize then Accept else Reject;
      case Working(_) =>
        if k == DEMUX { j, what := GateCanStep(s, c, i); } else { what := Process; }
    }
  }

  lemma GateCanStep(s: State, c: Config, i: nat) returns (j: nat, what: What)
    requires Inv(s, c) && i < |s.stages[DEMUX]| && s.stages[DEMUX][i].Working?
    ensures WorkEnabled(s, c, DEMUX, j, what)
  {
    hide Ordered, Fitting;
    match s.gate.workers[i] {
      case AtGate => j, what := i, Pass(Gate.Check);
      case PastGate => j, what := i, Pass(Gate.Increment);
      case Inside => j, what := i, Process;
      case Waiting =>
        j := Gate.CountPositive(s.gate.workers, Gate.Inside);
        what := Process;
    }
  }

  /** After the signal, and until main is done, some goroutine can take a step that counts. */
  lemma ShutdownNeverStuck(s: State, c: Config) returns (a: Action)
    requires Inv(s, c) && 0 < s.pc < Last(c)
    ensures Enabled(s, c, a) && !a.Tick?
  {
    hide Gated, Fitting, WorkEnabled, Instr;
    InstrAt(s.pc, c);
    a := Main;
    match Instr(s.pc, c) {
      case Wait(k) =>
        if !AllExited(s.stages[k]) {
          var i: nat :| i < |s.stages[k]| && !s.stages[k][i].Exited?;
          var j, what := WorkerCanStep(s, c, k, i);
          a := Work(k, j, what);
        }
      case WaitWriter => if s.writerRunning { a := WriterExit; }
      case _ =>
    }
  }

  /** A stretch of a run without flush ticks. */
  ghost predicate Quiet(run: seq<State>, c: Config) {
    && |run| > 0 && Inv(run[0], c) && run[0].pc > 0
    && forall n: nat :: n + 1 < |run| ==> QuietStep(run[n], run[n + 1], c)
  }

  ghost predicate QuietStep(s: State, t: State, c: Config) {
    ValidConfig(c) && Shape(s) && exists a: Action :: !a.Tick? && Enabled(s, c, a) && t == Step(s, c, a)
  }

  /** After the signal at most Measure steps are left, whatever the interleaving. */
  lemma {:induction false} ShutdownIsBounded(run: seq<State>, c: Config, n: nat)
    requires Quiet(run, c) && n < |run|
    ensures Inv(run[n], c) && run[n].pc > 0 && n + Measure(run[n], c) <= Measure(run[0], c)
  {
    hide Inv, Step, Enabled, Measure;
    if n > 0 {
      ShutdownIsBounded(run, c, n - 1);
      var s := run[n - 1];
      assert QuietStep(s, run[n - 1 + 1], c);
      var a: Action :| !a.Tick? && Enabled(s, c, a) && run[n] == Step(s, c, a);
      StepKeepsInv(s, c, a);
      StepLowersMeasure(s, c, a);
      PcGrows(s, c, a);
    }
  }

  lemma PcGrows(s: State, c: Config, a: Action)
    requires Inv(s, c) && Enabled(s, c, a)
    ensures Step(s, c, a).pc >= s.pc
  {
    hide Gated, Fitting, Ordered, WorkEnabled, Moved, GateAfter, Queues, One;
  }

  /** A quiet run that cannot be extended has ended with main done and every worker gone. */
  lemma StuckMeansDone(run: seq<State>, c: Config)
    requires Quiet(run, c)
    requires forall a: Action :: Shape(run[|run| - 1]) && ValidConfig(c) && Enabled(run[|run| - 1], c, a) ==> a.Tick?
    ensures var s := run[|run| - 1];
      && Shape(s) && s.pc == Last(c) && (forall k: nat :: k < 5 ==> AllExited(s.stages[k]))
      && (c.storageStarted ==> !s.writerRunning && s.batchClosed)
  {
    hide Measure, Gated, Fitting, Enabled, AllExited;
    var s := run[|run| - 1];
    ShutdownIsBounded(run, c, |run| - 1);
    if s.pc < Last(c) {
      var a := ShutdownNeverStuck(s, c);
    }
  }

  /** From any state after the signal, the shutdown can be played to the end. */
  lemma {:induction false} ShutdownCompletes(s: State, c: Config) returns (run: seq<State>)
    requires Inv(s, c) && s.pc > 0
    ensures Quiet(run, c) && run[0] == s && run[|run| - 1].pc == Last(c)
    decreases Measure(s, c)
  {
    hide Inv, Step, Enabled, Measure;
    AtMostLast(s, c);
    if s.pc < Last(c) {
      var a := ShutdownNeverStuck(s, c);
      StepKeepsInv(s, c, a);
      StepLowersMeasure(s, c, a);
      PcGrows(s, c, a);
      var t := Step(s, c, a);
      var rest := ShutdownCompletes(t, c);
      run := [s] + rest;
      assert QuietStep(s, rest[0], c);
      QuietPrefix(s, rest, c);
    } else {
      run := [s];
    }
  }

  lemma AtMostLast(s: State, c: Config)
    requires Inv(s, c)
    ensures s.pc <= Last(c) && Shape(s) && ValidConfig(c) && |c.capacity| == 4
  {}

  lemma QuietPrefix(s: State, rest: seq<State>, c: Config)
    requires Quiet(rest, c) && Inv(s, c) && s.pc > 0 && QuietStep(s, rest[0], c)
    ensures Quiet([s] + rest, c)
  {
    hide Step, Enabled, Ordered, Gated, Fitting, QuietStep;
    var run := [s] + rest;
    forall n: nat | n + 1 < |run|
      ensures QuietStep(run[n], run[n + 1], c)
    {
      if n > 0 { assert QuietStep(rest[n - 1], rest[n - 1 + 1], c) && run[n] == rest[n - 1] && run[n + 1] == rest[n]; }
    }
  }

  /** When all is over nothing is in anybody's hand: each item was dropped, failed, delivered, or left in a channel. */
  lemma NothingInHand(s: State, c: Config, x: nat)
    requires Inv(s, c) && Conserved(s) && s.pc == Last(c)
    ensures Total(s.channels, InQueue(x)) + s.dropped[x] + s.errored[x] + s.delivered[x] == if x < s.received then 1 else 0
  {
    hide Gated, Fitting;
    forall k: nat, i: nat | k < |s.stages| && i < |s.stages[k]|
      ensures InHand(x)(k, s.stages[k][i]) == 0
    {
      assert AllExited(s.stages[k]);
    }
    TotalZero(s.stages, InHand(x));
    assert Places(s, x) == if x < s.received then 1 else 0;
  }
}
