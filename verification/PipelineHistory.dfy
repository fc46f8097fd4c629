/** What the runs of the pipeline do to their items, told by the actions that were taken. */
module PipelineHistory {
  import opened Pipeline
  import Gate = Backpressure
  import Writer = BatchWriter

  // ---------------------------------------------------------------- played runs

  /** The states a list of actions leads through. */
  ghost predicate Played(run: seq<State>, acts: seq<Action>, c: Config) {
    && |run| == |acts| + 1 && Initial(run[0], c)
    && forall k: nat :: k < |acts| ==> Plays(run[k], run[k + 1], acts[k], c)
  }

  ghost predicate Plays(s: State, t: State, a: Action, c: Config) {
    ValidConfig(c) && Shape(s) && Enabled(s, c, a) && t == Step(s, c, a)
  }

  /** Every run is played by some actions. */
  lemma {:induction false} RunIsPlayed(run: seq<State>, c: Config) returns (acts: seq<Action>)
    requires IsRun(run, c)
    ensures Played(run, acts, c)
  {
    hide Initial, Step, Enabled;
    var n := |run| - 1;
    if n == 0 { return []; }
    assert Follows(run[n - 1], run[n - 1 + 1], c);
    var a :| Enabled(run[n - 1], c, a) && run[n] == Step(run[n - 1], c, a);
    forall k: nat | k + 1 < |run[..n]|
      ensures Follows(run[..n][k], run[..n][k + 1], c)
    {
      assert Follows(run[k], run[k + 1], c);
    }
    var before := RunIsPlayed(run[..n], c);
    acts := before + [a];
    forall k: nat | k < |acts|
      ensures Plays(run[k], run[k + 1], acts[k], c)
    {
      if k < n - 1 { assert Plays(run[..n][k], run[..n][k + 1], before[k], c); }
    }
  }

  lemma PlayedIsRun(run: seq<State>, acts: seq<Action>, c: Config)
    requires Played(run, acts, c)
    ensures IsRun(run, c)
  {
    hide Initial, Step, Enabled;
    forall k: nat | k + 1 < |run|
      ensures Follows(run[k], run[k + 1], c)
    {
      assert Plays(run[k], run[k + 1], acts[k], c);
    }
  }

  lemma PlayedAt(run: seq<State>, acts: seq<Action>, c: Config, n: nat)
    requires Played(run, acts, c) && n <= |acts|
    ensures Inv(run[n], c) && (n < |acts| ==> Plays(run[n], run[n + 1], acts[n], c))
  {
    hide Inv, Initial, Plays, Follows;
    PlayedIsRun(run, acts, c);
    RunKeepsInv(run, c, n);
  }

  // ---------------------------------------------------------------- logs

  /** What is seen of the first n steps, in order. */
  ghost function Log(run: seq<State>, acts: seq<Action>, n: nat, seen: (State, Action, State) -> seq<nat>): seq<nat>
    requires n <= |acts| < |run|
  {
    if n == 0 then [] else Log(run, acts, n - 1, seen) + seen(run[n - 1], acts[n - 1], run[n])
  }

  /** The item in the hand of the worker that acts. */
  function Carried(s: State, a: Action): seq<nat> {
    if a.Work? && a.stage < |s.stages| && a.index < |s.stages[a.stage]| then
      var w := s.stages[a.stage][a.index];
      if w.Working? || w.Storing? || w.Holding? then [w.item] else []
    else []
  }

  /** Items stage k sends to the next channel. */
  function Sends(k: nat): (State, Action, State) -> seq<nat> {
    (s: State, a: Action, t: State) => if a.Work? && a.stage == k && a.what == Send then Carried(s, a) else []
  }

  /** Items a worker of stage k has in hand after receiving. */
  function Receives(k: nat): (State, Action, State) -> seq<nat> {
    (s: State, a: Action, t: State) => if a.Work? && a.stage == k && a.what == Receive then Carried(t, a) else []
  }

  /** Items the storage accepted. */
  function Accepts(): (State, Action, State) -> seq<nat> {
    (s: State, a: Action, t: State) => if a.Work? && a.what == Accept then Carried(s, a) else []
  }

  /** Items offered to the storage. */
  function Offers(): (State, Action, State) -> seq<nat> {
    (s: State, a: Action, t: State) => if a.Work? && (a.what == Accept || a.what == Reject) then Carried(s, a) else []
  }

  /** Items the writer took out of its channel. */
  function Takes(): (State, Action, State) -> seq<nat> {
    (s: State, a: Action, t: State) => if a.WriterReceive? && s.batchCh != [] then [s.batchCh[0]] else []
  }

  /** Items the writer handed to the database: all it had, when it has none after the step. */
  function Flushes(): (State, Action, State) -> seq<nat> {
    (s: State, a: Action, t: State) => if (a.Tick? || a.WriterReceive? || a.WriterExit?) && t.batch == [] then s.batch + Takes()(s, a, t) else []
  }

  lemma Carry(left: seq<nat>, entered: seq<nat>, before: seq<nat>, enters: seq<nat>, leaves: seq<nat>, after: seq<nat>)
    requires entered == left + before && before + enters == leaves + after
    ensures entered + enters == (left + leaves) + after
  {
    assert left + (before + enters) == (left + before) + enters && left + (leaves + after) == (left + leaves) + after;
  }

  // ---------------------------------------------------------------- channels

  lemma WorkMoves(s: State, c: Config, k: nat, i: nat, what: What)
    requires Shape(s) && |c.capacity| == 4 && WorkEnabled(s, c, k, i, what)
    ensures k < 5 && i < |s.stages[k]| && (what == Receive ==> k > 0 && s.channels[k - 1] != []) && (what == Send ==> k < 4 && s.stages[k][i].Holding?)
    ensures what == Send ==> |s.channels[k]| < c.capacity[k]
    ensures WorkStep(s, c, k, i, what).channels == Queues(s, k, i, what)
    ensures k < |WorkStep(s, c, k, i, what).stages| && i < |WorkStep(s, c, k, i, what).stages[k]| && WorkStep(s, c, k, i, what).stages[k][i] == Moved(s, k, i, what)
  {
    hide Queues, Moved, GateAfter, One, Gate.Enabled;
  }

  lemma OthersKeepChannels(s: State, c: Config, a: Action)
    requires Shape(s) && |c.capacity| == 4 && Enabled(s, c, a) && !a.Work?
    ensures Step(s, c, a).channels == s.channels
  {
    hide MainEnabled, Instr, Grown;
  }

  lemma WorkIsFifo(s: State, t: State, c: Config, k: nat, i: nat, what: What, q: nat)
    requires Inv(s, c) && WorkEnabled(s, c, k, i, what) && t == WorkStep(s, c, k, i, what) && q < 4
    ensures |t.channels| == 4 && s.channels[q] + Sends(q)(s, Work(k, i, what), t) == Receives(q + 1)(s, Work(k, i, what), t) + t.channels[q]
    ensures |t.channels[q]| <= |s.channels[q]| || |t.channels[q]| <= c.capacity[q]
  {
    hide Ordered, Gated, Fitting, WorkEnabled, WorkStep;
    WorkMoves(s, c, k, i, what);
    if what == Receive && k == q + 1 { assert s.channels[q] == [s.channels[q][0]] + s.channels[q][1..]; }
  }

  lemma StepIsFifo(s: State, t: State, a: Action, c: Config, k: nat)
    requires Inv(s, c) && Plays(s, t, a, c) && k < 4
    ensures |t.channels| == 4 && s.channels[k] + Sends(k)(s, a, t) == Receives(k + 1)(s, a, t) + t.channels[k]
    ensures |t.channels[k]| <= |s.channels[k]| || |t.channels[k]| <= c.capacity[k]
  {
    hide Ordered, Gated, Fitting, WorkEnabled, WorkStep, MainEnabled, MainStep;
    if a.Work? {
      WorkIsFifo(s, t, c, a.stage, a.index, a.what, k);
    } else {
      OthersKeepChannels(s, c, a);
    }
  }

  /** Each channel is first in, first out, loses nothing and invents nothing, and never holds more than its capacity. */
  lemma {:induction false} ChannelsAreFifo(run: seq<State>, acts: seq<Action>, c: Config, n: nat, k: nat)
    requires Played(run, acts, c) && n <= |acts| && k < 4
    ensures |run[n].channels| == |c.capacity| == 4
    ensures Log(run, acts, n, Sends(k)) == Log(run, acts, n, Receives(k + 1)) + run[n].channels[k]
    ensures |run[n].channels[k]| <= c.capacity[k]
  {
    hide Sends, Receives, Plays, Inv;
    if n > 0 {
      ChannelsAreFifo(run, acts, c, n - 1, k);
      PlayedAt(run, acts, c, n - 1);
      StepIsFifo(run[n - 1], run[n], acts[n - 1], c, k);
      Carry(Log(run, acts, n - 1, Receives(k + 1)), Log(run, acts, n - 1, Sends(k)), run[n - 1].channels[k],
            Sends(k)(run[n - 1], acts[n - 1], run[n]), Receives(k + 1)(run[n - 1], acts[n - 1], run[n]), run[n].channels[k]);
    }
  }

  // ---------------------------------------------------------------- the storage

  lemma WorkStores(s: State, t: State, c: Config, k: nat, i: nat, what: What)
    requires Inv(s, c) && WorkEnabled(s, c, k, i, what) && t == WorkStep(s, c, k, i, what)
    ensures t.batchCh == s.batchCh + Accepts()(s, Work(k, i, what), t) && t.batch == s.batch && t.writerRunning == s.writerRunning
    ensures |t.batchCh| <= |s.batchCh| || |t.batchCh| <= 2 * c.batchSize
  {
    hide Ordered, Gated, Fitting, Queues, Moved, GateAfter, One, Gate.Enabled;
  }

  lemma MainKeepsStore(s: State, c: Config)
    requires MainEnabled(s, c)
    ensures var t := MainStep(s, c); t.batchCh == s.batchCh && t.batch == s.batch && t.writerRunning == s.writerRunning
  {
    hide Instr, MainEnabled;
  }

  lemma StepStores(s: State, t: State, a: Action, c: Config)
    requires Inv(s, c) && Plays(s, t, a, c)
    ensures s.batchCh + Accepts()(s, a, t) == Takes()(s, a, t) + t.batchCh
    ensures s.batch + Takes()(s, a, t) == Flushes()(s, a, t) + t.batch
    ensures |t.batchCh| <= |s.batchCh| || |t.batchCh| <= 2 * c.batchSize
    ensures t.batch == s.batch || |t.batch| < Larger(1, c.batchSize)
  {
    hide Ordered, Gated, Fitting, WorkEnabled, WorkStep, MainEnabled, MainStep;
    if a.Work? { WorkStores(s, t, c, a.stage, a.index, a.what); }
    if a.Main? { MainKeepsStore(s, c); }
    if a.WriterReceive? { assert s.batchCh == [s.batchCh[0]] + s.batchCh[1..]; }
  }

  function Larger(a: nat, b: nat): nat { if a > b then a else b }

  /**
   In every state of every run: what the storage accepted is what the writer took, followed by what
   is queued; what the writer took is what it flushed, followed by the batch; neither overflows.
   */
  lemma {:induction false} AcceptedReachesWriter(run: seq<State>, acts: seq<Action>, c: Config, n: nat)
    requires Played(run, acts, c) && n <= |acts|
    ensures Log(run, acts, n, Accepts()) == Log(run, acts, n, Takes()) + run[n].batchCh
    ensures Log(run, acts, n, Takes()) == Log(run, acts, n, Flushes()) + run[n].batch
    ensures |run[n].batchCh| <= 2 * c.batchSize && (run[n].batch == [] || |run[n].batch| < c.batchSize)
  {
    hide Accepts, Takes, Flushes, Plays, Inv;
    if n > 0 {
      AcceptedReachesWriter(run, acts, c, n - 1);
      PlayedAt(run, acts, c, n - 1);
      var s, a, t := run[n - 1], acts[n - 1], run[n];
      StepStores(s, t, a, c);
      Carry(Log(run, acts, n - 1, Takes()), Log(run, acts, n - 1, Accepts()), s.batchCh, Accepts()(s, a, t), Takes()(s, a, t), t.batchCh);
      Carry(Log(run, acts, n - 1, Flushes()), Log(run, acts, n - 1, Takes()), s.batch, Takes()(s, a, t), Flushes()(s, a, t), t.batch);
    }
  }

  // ---------------------------------------------------------------- why an item is lost

  /** Nothing is refused or dropped without cause: the queue it was for is full to its capacity, or its stage was told to stop. */
  lemma LostForCause(run: seq<State>, acts: seq<Action>, c: Config, n: nat)
    requires Played(run, acts, c) && n < |acts| && acts[n].Work?
    ensures var s, k := run[n], acts[n].stage;
      && k < 5 && |s.channels| == |c.capacity| == 4
      && (acts[n].what == Reject ==> |s.batchCh| == 2 * c.batchSize)
      && (acts[n].what == DropFull ==> k < 4 && |s.channels[k]| == c.capacity[k] && s.pc <= 3 * k)
      && (acts[n].what == DropExit ==> s.pc > 3 * k)
  {
    var s, k, i := run[n], acts[n].stage, acts[n].index;
    PlayedAt(run, acts, c, n);
    WhyLost(s, c, k, i, acts[n].what);
    AcceptedReachesWriter(run, acts, c, n);
    if k < 4 { ChannelsAreFifo(run, acts, c, n, k); }
    hide *;
  }

  lemma WhyLost(s: State, c: Config, k: nat, i: nat, what: What)
    requires Inv(s, c) && WorkEnabled(s, c, k, i, what)
    ensures k < 5 && (what == Reject ==> |s.batchCh| >= 2 * c.batchSize)
    ensures what == DropFull ==> k < 4 && |s.channels[k]| >= c.capacity[k] && s.pc <= 3 * k
    ensures what == DropExit ==> s.pc > 3 * k
  {
    hide Gated, Gate.Enabled;
    assert Fits(k, s.stages[k][i]);
    if s.pc > 14 { assert AllExited(s.stages[k]); }
  }

  /**
   What a worker can do next, from its hand, the queues and main's position: an idle one takes what is
   queued, and leaves once its stage is stopped or its closed queue is empty; one that holds an item
   sends it exactly while there is room.
   */
  lemma ChoicesExactly(s: State, c: Config, k: nat, i: nat)
    requires Inv(s, c) && k < 5 && i < |s.stages[k]|
    ensures s.stages[k][i].Idle? ==>
      && (WorkEnabled(s, c, k, i, Read) <==> k == UDP && s.pc == 0)
      && (k != DEMUX ==> (WorkEnabled(s, c, k, i, Receive) <==> k > 0 && s.channels[k - 1] != []))
      && (WorkEnabled(s, c, k, i, Exit) <==> s.pc > 3 * k || (k > 0 && s.pc == 3 * k && s.channels[k - 1] == []))
    ensures s.stages[k][i].Holding? ==>
      && k < 4
      && (WorkEnabled(s, c, k, i, Send) <==> |s.channels[k]| < c.capacity[k])
      && (WorkEnabled(s, c, k, i, DropFull) <==> |s.channels[k]| >= c.capacity[k] && s.pc <= 3 * k)
      && (WorkEnabled(s, c, k, i, DropExit) <==> s.pc > 3 * k)
    ensures s.stages[k][i].Storing? ==>
      && (WorkEnabled(s, c, k, i, Accept) <==> |s.batchCh| < 2 * c.batchSize)
      && (WorkEnabled(s, c, k, i, Reject) <==> |s.batchCh| >= 2 * c.batchSize)
  {
    hide Gated, Gate.Enabled;
    assert Fits(k, s.stages[k][i]);
    if s.pc > 3 * k + 1 { assert AllExited(s.stages[k]); }
  }

  // ---------------------------------------------------------------- what the writer leaves behind

  /** The writer runs until the storage is told to stop, and never when it did not come up. */
  lemma {:induction false} WriterRuns(run: seq<State>, acts: seq<Action>, c: Config, n: nat)
    requires Played(run, acts, c) && n <= |acts|
    ensures run[n].writerRunning ==> c.storageStarted
    ensures c.storageStarted && run[n].pc <= 14 ==> run[n].writerRunning
  {
    hide Plays, Inv;
    if n > 0 {
      WriterRuns(run, acts, c, n - 1);
      PlayedAt(run, acts, c, n - 1);
      WriterStops(run[n - 1], run[n], acts[n - 1], c);
    }
  }

  lemma WriterStops(s: State, t: State, a: Action, c: Config)
    requires Inv(s, c) && Plays(s, t, a, c)
    ensures t.writerRunning ==> s.writerRunning
    ensures s.writerRunning && !t.writerRunning ==> a == WriterExit && s.pc > 14
    ensures t.pc >= s.pc
  {
    PcGrows(s, c, a);
    hide Gated, Fitting, WorkEnabled, WorkStep, MainEnabled, MainStep;
    if a.Work? { WorkStores(s, t, c, a.stage, a.index, a.what); }
    if a.Main? { MainKeepsStore(s, c); }
  }

  /** A storage that did not come up still accepts, but nothing is ever taken out of its queue. */
  lemma {:induction false} NothingTakenWithoutStorage(run: seq<State>, acts: seq<Action>, c: Config, n: nat)
    requires Played(run, acts, c) && n <= |acts| && !c.storageStarted
    ensures Log(run, acts, n, Takes()) == [] && run[n].batchCh == Log(run, acts, n, Accepts())
  {
    hide Inv, Plays, Played, Takes, Accepts;
    PlayedSize(run, acts, c);
    AcceptedReachesWriter(run, acts, c, n);
    if n > 0 {
      NothingTakenWithoutStorage(run, acts, c, n - 1);
      PlayedAt(run, acts, c, n - 1);
      WriterRuns(run, acts, c, n - 1);
      IdleWriterTakesNothing(run[n - 1], run[n], acts[n - 1], c);
    }
    assert [] + run[n].batchCh == run[n].batchCh;
  }

  lemma PlayedSize(run: seq<State>, acts: seq<Action>, c: Config)
    requires Played(run, acts, c)
    ensures |run| == |acts| + 1
  {
    hide Initial, Plays;
  }

  lemma IdleWriterTakesNothing(s: State, t: State, a: Action, c: Config)
    requires Plays(s, t, a, c) && !s.writerRunning
    ensures Takes()(s, a, t) == []
  {
    hide Step, WorkEnabled, MainEnabled;
  }

  /** Once the sink has stopped nothing more is accepted, and a queue the writer has left stays as it is. */
  lemma QueueSettles(s: State, t: State, a: Action, c: Config)
    requires Inv(s, c) && Plays(s, t, a, c) && s.pc > 13
    ensures Accepts()(s, a, t) == [] && !a.Work? && t.pc > 13
    ensures s.batchCh == [] ==> t.batchCh == []
    ensures !s.writerRunning ==> t.batchCh == s.batchCh && !t.writerRunning
  {
    PcGrows(s, c, a);
    StepStores(s, t, a, c);
    WriterStops(s, t, a, c);
    if a.Work? { NoWorkLeft(s, c, a.stage, a.index, a.what); }
    hide Inv, WorkEnabled, WorkStep, MainEnabled, MainStep;
  }

  lemma NoWorkLeft(s: State, c: Config, k: nat, i: nat, what: What)
    requires Inv(s, c) && s.pc > 13
    ensures !WorkEnabled(s, c, k, i, what)
  {
    hide Gated, Gate.Enabled;
    if k < 5 && i < |s.stages[k]| { assert AllExited(s.stages[k]) && s.stages[k][i].Exited?; }
  }

  lemma {:induction false} EmptyStaysEmpty(run: seq<State>, c: Config, n: nat)
    requires Quiet(run, c) && run[0].pc == 14 && run[0].batchCh == [] && n < |run|
    ensures run[n].batchCh == [] && run[n].pc > 13
  {
    hide Inv, Step, Enabled, Measure, Takes, Accepts;
    if n > 0 {
      EmptyStaysEmpty(run, c, n - 1);
      ShutdownIsBounded(run, c, n - 1);
      var s := run[n - 1];
      assert QuietStep(s, run[n - 1 + 1], c);
      var a: Action :| !a.Tick? && Enabled(s, c, a) && run[n] == Step(s, c, a);
      AtMostLast(s, c);
      QueueSettles(s, run[n], a, c);
    }
  }

  /** The writer is told to stop, notices that before the queue, and main waits for it. */
  lemma WriterMayLeave(s: State, c: Config) returns (run: seq<State>)
    requires Inv(s, c) && s.pc == 14 && c.storageStarted && s.writerRunning
    ensures Quiet(run, c) && run[0] == s && run[|run| - 1].pc == Last(c) && run[|run| - 1].batchCh == s.batchCh
  {
    hide Gated, Fitting;
    var s1 := s.(pc := 15, storageCancelled := true);
    var s2 := s1.(batch := [], writerRunning := false);
    var s3 := s2.(pc := 16, batchClosed := true);
    var s4 := s3.(pc := 17);
    assert Step(s, c, Main) == s1 && Step(s1, c, WriterExit) == s2 && Step(s2, c, Main) == s3 && Step(s3, c, Main) == s4;
    run := [s, s1, s2, s3, s4];
    assert QuietStep(s, s1, c) by { assert Enabled(s, c, Main); }
    assert QuietStep(s1, s2, c) by { assert Enabled(s1, c, WriterExit); }
    assert QuietStep(s2, s3, c) by { assert Enabled(s2, c, Main); }
    assert QuietStep(s3, s4, c) by { assert Enabled(s3, c, Main); }
  }

  /** A shutdown that starts from s, ends, and leaves accepted items in the queue. */
  ghost predicate LeavesBehind(rest: seq<State>, s: State, c: Config) {
    Quiet(rest, c) && rest[0] == s && rest[|rest| - 1].pc == Last(c) && rest[|rest| - 1].batchCh != []
  }

  /**
   When main is about to stop the storage, everything that will ever be accepted has been. Some way
   the shutdown can end leaves accepted items in the queue exactly when the queue is not empty then.
   */
  lemma LeftBehindExactly(run: seq<State>, acts: seq<Action>, c: Config, n: nat)
    requires Played(run, acts, c) && n <= |acts| && run[n].pc == 14 && c.storageStarted
    ensures (exists rest: seq<State> :: LeavesBehind(rest, run[n], c)) <==> run[n].batchCh != []
  {
    hide Inv, Measure, Initial, QuietStep;
    PlayedAt(run, acts, c, n);
    WriterRuns(run, acts, c, n);
    if run[n].batchCh != [] {
      var rest := WriterMayLeave(run[n], c);
      assert LeavesBehind(rest, run[n], c);
    } else {
      forall rest: seq<State> | LeavesBehind(rest, run[n], c)
        ensures false
      {
        EmptyStaysEmpty(rest, c, |rest| - 1);
      }
    }
  }

  // ---------------------------------------------------------------- the demux offers what it passes on

  /** An item in the hand of a demux worker that is about to pass it on has been offered to the storage. */
  ghost predicate OfferedFirst(s: State, offered: seq<nat>)
    requires Shape(s)
  {
    forall i: nat :: i < |s.stages[DEMUX]| && s.stages[DEMUX][i].Holding? ==> s.stages[DEMUX][i].item in offered
  }

  lemma {:induction false} DemuxOffersFirst(run: seq<State>, acts: seq<Action>, c: Config, n: nat)
    requires Played(run, acts, c) && n <= |acts|
    ensures Shape(run[n]) && OfferedFirst(run[n], Log(run, acts, n, Offers()))
    ensures forall x: nat :: x in Log(run, acts, n, Sends(DEMUX)) ==> x in Log(run, acts, n, Offers())
  {
    hide Plays, Inv, Offers, Sends, OfferedFirst;
    if n == 0 {
      NobodyHolds(run[0], c);
    } else {
      DemuxOffersFirst(run, acts, c, n - 1);
      PlayedAt(run, acts, c, n - 1);
      StepOffersFirst(run[n - 1], run[n], acts[n - 1], c, Log(run, acts, n - 1, Offers()));
    }
  }

  lemma NobodyHolds(s: State, c: Config)
    requires Initial(s, c)
    ensures Shape(s) && OfferedFirst(s, [])
  {}

  lemma WorkMovesOne(s: State, t: State, c: Config, k: nat, i: nat, what: What)
    requires Shape(s) && |c.capacity| == 4 && WorkEnabled(s, c, k, i, what) && t == WorkStep(s, c, k, i, what)
    ensures k < 5 && i < |s.stages[k]| && (what == Receive ==> k > 0 && s.channels[k - 1] != [])
    ensures t.stages == s.stages[k := s.stages[k][i := Moved(s, k, i, what)]]
    ensures k == DEMUX && Moved(s, k, i, what).Holding? ==>
      && (Carried(s, Work(k, i, what)) == [Moved(s, k, i, what).item])
      && (what == Accept || what == Reject || s.stages[k][i].Holding?)
    ensures k == DEMUX && what == Send ==> s.stages[k][i].Holding?
  {
    hide Queues, GateAfter, One, Gate.Enabled;
  }

  lemma OthersKeepWorkers(s: State, c: Config, a: Action)
    requires Shape(s) && |c.capacity| == 4 && Enabled(s, c, a) && !a.Work?
    ensures Step(s, c, a).stages == s.stages
  {
    hide MainEnabled, Instr, Grown;
  }

  lemma StepOffersFirst(s: State, t: State, a: Action, c: Config, offered: seq<nat>)
    requires Inv(s, c) && Plays(s, t, a, c) && Shape(s) && OfferedFirst(s, offered)
    ensures Shape(t) && OfferedFirst(t, offered + Offers()(s, a, t))
    ensures forall x: nat :: x in Sends(DEMUX)(s, a, t) ==> x in offered
  {
    StepKeepsInv(s, c, a);
    hide Ordered, Gated, Fitting, WorkEnabled, WorkStep, MainEnabled, MainStep, Moved;
    if a.Work? {
      WorkMovesOne(s, t, c, a.stage, a.index, a.what);
    } else {
      OthersKeepWorkers(s, c, a);
    }
  }

  // ---------------------------------------------------------------- the storage is the batching writer

  /** What a step of the pipeline is to the batching writer; `answer` is the database's, should it be asked. */
  function AsEvent(s: State, a: Action, c: Config, answer: Writer.Answer): (e: seq<Writer.Event<nat>>) {
    match a
    case Main => if Instr(s.pc, c).CancelStorage? then [Writer.Cancel] else []
    case Tick => [Writer.Flush(answer)]
    case WriterReceive => [Writer.Take(answer)]
    case WriterExit => [Writer.Flush(answer)]
    case Work(_, _, what) =>
      var x := Carried(s, a);
      if x == [] then [] else if what == Accept || what == Reject then [Writer.Offer(x[0], false)] else []
  }

  /** The ledger agrees with the pipeline's queue, batch and storage context. */
  ghost predicate Agrees(l: Writer.Ledger<nat>, s: State) {
    l.queued == s.batchCh && l.batched == s.batch && l.cancelled == s.storageCancelled
  }

  /** The ledger after the event, if there is one. */
  ghost function Booked(l: Writer.Ledger<nat>, e: seq<Writer.Event<nat>>, batchSize: nat): Writer.Ledger<nat>
    requires e != [] ==> Writer.Enabled(l, e[0])
  {
    if e == [] then l else Writer.Step(l, e[0], batchSize)
  }

  lemma MainAgrees(s: State, c: Config, l: Writer.Ledger<nat>, answer: Writer.Answer)
    requires MainEnabled(s, c) && Agrees(l, s)
    ensures var e := AsEvent(s, Main, c, answer);
      (e != [] ==> Writer.Enabled(l, e[0])) && Agrees(Booked(l, e, c.batchSize), MainStep(s, c)) && Booked(l, e, c.batchSize).accepted == l.accepted
  {
    hide Instr, MainEnabled;
  }

  lemma WriterAgrees(s: State, t: State, a: Action, c: Config, l: Writer.Ledger<nat>, answer: Writer.Answer)
    requires Shape(s) && |c.capacity| == 4 && (a.Tick? || a.WriterReceive? || a.WriterExit?) && Enabled(s, c, a) && t == Step(s, c, a) && Agrees(l, s)
    ensures var e := AsEvent(s, a, c, answer);
      (e != [] ==> Writer.Enabled(l, e[0])) && Agrees(Booked(l, e, c.batchSize), t) && Booked(l, e, c.batchSize).accepted == l.accepted
  {}

  lemma WorkAgrees(s: State, t: State, c: Config, k: nat, i: nat, what: What, l: Writer.Ledger<nat>, answer: Writer.Answer)
    requires Inv(s, c) && WorkEnabled(s, c, k, i, what) && t == WorkStep(s, c, k, i, what) && Agrees(l, s)
    ensures var a := Work(k, i, what); var e := AsEvent(s, a, c, answer);
      && (e != [] ==> Writer.Enabled(l, e[0])) && Agrees(Booked(l, e, c.batchSize), t)
      && Booked(l, e, c.batchSize).accepted == l.accepted + Accepts()(s, a, t)
  {
    WhyLost(s, c, k, i, what);
    WorkStores(s, t, c, k, i, what);
    OfferedRoom(s, t, c, k, i, what);
    hide Inv, WorkEnabled, WorkStep;
  }

  lemma OfferedRoom(s: State, t: State, c: Config, k: nat, i: nat, what: What)
    requires Shape(s) && |c.capacity| == 4 && WorkEnabled(s, c, k, i, what) && t == WorkStep(s, c, k, i, what)
    ensures what == Accept || what == Reject ==> Carried(s, Work(k, i, what)) != []
    ensures what == Accept ==> |s.batchCh| < 2 * c.batchSize
    ensures t.storageCancelled == s.storageCancelled
  {
    hide Queues, Moved, GateAfter, One, Gate.Enabled;
  }

  lemma StepAgrees(s: State, t: State, a: Action, c: Config, l: Writer.Ledger<nat>, answer: Writer.Answer)
    requires Inv(s, c) && Plays(s, t, a, c) && Agrees(l, s)
    ensures var e := AsEvent(s, a, c, answer);
      && (e != [] ==> Writer.Enabled(l, e[0])) && Agrees(Booked(l, e, c.batchSize), t)
      && Booked(l, e, c.batchSize).accepted == l.accepted + Accepts()(s, a, t)
  {
    hide Inv, WorkEnabled, WorkStep, MainEnabled, MainStep, AsEvent, Agrees, Booked;
    match a {
      case Main => MainAgrees(s, c, l, answer);
      case Work(k, i, what) => WorkAgrees(s, t, c, k, i, what, l, answer);
      case _ => WriterAgrees(s, t, a, c, l, answer);
    }
  }

  /**
   The pipeline's storage is a run of the batching writer, whatever the database answers: some events
   drive a ledger to the queue, the batch and the accepted items the pipeline has, in every state of every run.
   */
  lemma {:induction false} StorageIsBatchWriter(run: seq<State>, acts: seq<Action>, c: Config, n: nat, answers: nat -> Writer.Answer)
    returns (ledgers: seq<Writer.Ledger<nat>>, events: seq<Writer.Event<nat>>)
    requires Played(run, acts, c) && n <= |acts|
    ensures Writer.Drives(ledgers, events, c.batchSize) && |ledgers| > 0
    ensures Agrees(ledgers[|ledgers| - 1], run[n]) && ledgers[|ledgers| - 1].accepted == Log(run, acts, n, Accepts())
  {
    hide Inv, Plays, Accepts, AsEvent, Writer.Step, Writer.Enabled;
    if n == 0 {
      ledgers, events := [Writer.Start<nat>()], [];
    } else {
      var past, before := StorageIsBatchWriter(run, acts, c, n - 1, answers);
      PlayedAt(run, acts, c, n - 1);
      var l, e := past[|past| - 1], AsEvent(run[n - 1], acts[n - 1], c, answers(n - 1));
      StepAgrees(run[n - 1], run[n], acts[n - 1], c, l, answers(n - 1));
      ledgers, events := past, before;
      if e != [] {
        ledgers, events := past + [Booked(l, e, c.batchSize)], before + [e[0]];
        Extended(past, before, c.batchSize, e[0]);
      }
    }
  }

  lemma Extended(ledgers: seq<Writer.Ledger<nat>>, events: seq<Writer.Event<nat>>, batchSize: nat, e: Writer.Event<nat>)
    requires Writer.Drives(ledgers, events, batchSize) && Writer.Enabled(ledgers[|ledgers| - 1], e)
    ensures Writer.Drives(ledgers + [Writer.Step(ledgers[|ledgers| - 1], e, batchSize)], events + [e], batchSize)
  {
    hide Writer.Step, Writer.Enabled;
    var last := Writer.Step(ledgers[|ledgers| - 1], e, batchSize);
    forall k: nat | k < |events + [e]|
      ensures Writer.DrivenBy((ledgers + [last])[k], (ledgers + [last])[k + 1], (events + [e])[k], batchSize)
    {
      if k < |events| { assert Writer.DrivenBy(ledgers[k], ledgers[k + 1], events[k], batchSize); }
    }
  }

  // ---------------------------------------------------------------- a packet through the idle gateway

  /** The actions, taken from s, lead to t. */
  ghost predicate Leads(s: State, acts: seq<Action>, t: State, c: Config)
    decreases |acts|
  {
    if acts == [] then s == t else exists u: State :: Plays(s, u, acts[0], c) && Leads(u, acts[1..], t, c)
  }

  /** One more step in front. */
  lemma Then(s: State, a: Action, t: State, acts: seq<Action>, u: State, c: Config)
    requires Plays(s, t, a, c) && Leads(t, acts, u, c)
    ensures Leads(s, [a] + acts, u, c)
  {
    hide Plays;
    assert ([a] + acts)[1..] == acts;
  }

  lemma {:induction false} LeadsOn(s: State, first: seq<Action>, t: State, second: seq<Action>, u: State, c: Config)
    requires Leads(s, first, t, c) && Leads(t, second, u, c)
    ensures Leads(s, first + second, u, c)
    decreases |first|
  {
    hide Plays;
    if first == [] {
      assert first + second == second;
    } else {
      var v: State :| Plays(s, v, first[0], c) && Leads(v, first[1..], t, c);
      LeadsOn(v, first[1..], t, second, u, c);
      assert (first + second)[0] == first[0] && (first + second)[1..] == first[1..] + second;
    }
  }

  /** Worker i of stage k put to phase w. */
  function Put(s: State, k: nat, i: nat, w: Worker): State
    requires k < |s.stages| && i < |s.stages[k]|
  {
    s.(stages := s.stages[k := s.stages[k][i := w]])
  }

  /** Channel k put to q. */
  function Queued(s: State, k: nat, q: seq<nat>): State
    requires k < |s.channels|
  {
    s.(channels := s.channels[k := q])
  }

  lemma Putting(s: State, k: nat, i: nat, w: Worker, v: Worker)
    requires k < |s.stages| && i < |s.stages[k]|
    ensures Put(Put(s, k, i, w), k, i, v) == Put(s, k, i, v)
    ensures s.stages[k][i] == w ==> Put(s, k, i, w) == s
  {
    assert s.stages[k][i := w][i := v] == s.stages[k][i := v];
    assert s.stages[k := s.stages[k][i := w]][k := s.stages[k][i := v]] == s.stages[k := s.stages[k][i := v]];
    if s.stages[k][i] == w {
      assert s.stages[k][i := w] == s.stages[k];
      assert s.stages[k := s.stages[k]] == s.stages;
    }
  }

  lemma MayRead(s: State, c: Config)
    requires ValidConfig(c) && Shape(s) && |s.stages[UDP]| > 0 && s.stages[UDP][0].Idle? && !s.cancelled[UDP]
    ensures Plays(s, Put(s, UDP, 0, Reading), Work(UDP, 0, Read), c)
  {}

  lemma MayGetPacket(s: State, c: Config)
    requires ValidConfig(c) && Shape(s) && |s.stages[UDP]| > 0 && s.stages[UDP][0].Reading?
    ensures Plays(s, Put(s, UDP, 0, Holding(s.received)).(received := s.received + 1), Work(UDP, 0, Packet), c)
  {}

  lemma MaySend(s: State, c: Config, k: nat)
    requires ValidConfig(c) && Shape(s) && k < 4 && |s.stages[k]| > 0 && s.stages[k][0].Holding? && |s.channels[k]| < c.capacity[k]
    ensures Plays(s, Queued(Put(s, k, 0, Idle), k, s.channels[k] + [s.stages[k][0].item]), Work(k, 0, Send), c)
  {}

  lemma MayReceive(s: State, c: Config, k: nat)
    requires ValidConfig(c) && Shape(s) && 0 < k < 5 && k != DEMUX && |s.stages[k]| > 0 && s.stages[k][0].Idle? && s.channels[k - 1] != []
    ensures Plays(s, Queued(Put(s, k, 0, Working(s.channels[k - 1][0])), k - 1, s.channels[k - 1][1..]), Work(k, 0, Receive), c)
  {}

  lemma MayProcess(s: State, c: Config, k: nat)
    requires ValidConfig(c) && Shape(s) && 0 < k < 5 && k != DEMUX && |s.stages[k]| > 0 && s.stages[k][0].Working?
    ensures var x := s.stages[k][0].item; Plays(s, Put(s, k, 0, if k == SINK then Storing(x) else Holding(x)), Work(k, 0, Process), c)
  {
    Processing(s, c, k);
    hide GateAfter, Queues, One, Moved, Gate.Enabled;
  }

  lemma Processing(s: State, c: Config, k: nat)
    requires Shape(s) && 0 < k < 5 && k != DEMUX && |s.stages[k]| > 0 && s.stages[k][0].Working?
    ensures Queues(s, k, 0, Process) == s.channels && GateAfter(s, c, k, 0, Process) == s.gate && One(s.stages[k][0], false) == multiset{}
    ensures Moved(s, k, 0, Process) == if k == SINK then Storing(s.stages[k][0].item) else Holding(s.stages[k][0].item)
  {
    hide Gate.Step, Gate.Enabled;
  }

  lemma MayAccept(s: State, c: Config, k: nat)
    requires ValidConfig(c) && Shape(s) && (k == DEMUX || k == SINK) && |s.stages[k]| > 0 && s.stages[k][0].Storing? && |s.batchCh| < 2 * c.batchSize
    ensures var x := s.stages[k][0].item;
      Plays(s, Put(s, k, 0, if k == SINK then Idle else Holding(x)).(batchCh := s.batchCh + [x], delivered := if k == SINK then s.delivered + multiset{x} else s.delivered),
            Work(k, 0, Accept), c)
  {
    if k == DEMUX { DemuxAccepts(s, c); } else { SinkAccepts(s, c); }
    hide *;
  }

  lemma DemuxAccepts(s: State, c: Config)
    requires ValidConfig(c) && Shape(s) && |s.stages[DEMUX]| > 0 && s.stages[DEMUX][0].Storing? && |s.batchCh| < 2 * c.batchSize
    ensures var x := s.stages[DEMUX][0].item; Plays(s, Put(s, DEMUX, 0, Holding(x)).(batchCh := s.batchCh + [x]), Work(DEMUX, 0, Accept), c)
  {
    hide GateAfter, Queues, One, Moved;
    Accepting(s, c, DEMUX);
  }

  lemma SinkAccepts(s: State, c: Config)
    requires ValidConfig(c) && Shape(s) && |s.stages[SINK]| > 0 && s.stages[SINK][0].Storing? && |s.batchCh| < 2 * c.batchSize
    ensures var x := s.stages[SINK][0].item;
      Plays(s, Put(s, SINK, 0, Idle).(batchCh := s.batchCh + [x], delivered := s.delivered + multiset{x}), Work(SINK, 0, Accept), c)
  {
    hide GateAfter, Queues, One, Moved;
    Accepting(s, c, SINK);
  }

  lemma Accepting(s: State, c: Config, k: nat)
    requires Shape(s) && (k == DEMUX || k == SINK) && |s.stages[k]| > 0 && s.stages[k][0].Storing?
    ensures Queues(s, k, 0, Accept) == s.channels && GateAfter(s, c, k, 0, Accept) == s.gate
    ensures Moved(s, k, 0, Accept) == if k == SINK then Idle else Holding(s.stages[k][0].item)
    ensures One(s.stages[k][0], false) == multiset{} && One(s.stages[k][0], true) == multiset{s.stages[k][0].item}
  {
    hide Gate.Step, Gate.Enabled;
  }

  /** Four steps in a row. */
  lemma Chain(s: State, a: Action, s1: State, a1: Action, s2: State, a2: Action, s3: State, a3: Action, t: State, c: Config)
    requires Plays(s, s1, a, c) && Plays(s1, s2, a1, c) && Plays(s2, s3, a2, c) && Plays(s3, t, a3, c)
    ensures Leads(s, [a] + ([a1] + ([a2] + [a3])), t, c)
  {
    hide *;
    Single(s3, a3, t, c);
    Then(s2, a2, s3, [a3], t, c);
    Then(s1, a1, s2, [a2] + [a3], t, c);
    Then(s, a, s1, [a1] + ([a2] + [a3]), t, c);
  }

  lemma Single(s: State, a: Action, t: State, c: Config)
    requires Plays(s, t, a, c)
    ensures Leads(s, [a], t, c)
  {
    hide Plays;
    assert Leads(t, [], t, c);
    Then(s, a, t, [], t, c);
    assert [a] + [] == [a];
  }

  /** The demux worker enters the open gate, works, and leaves it as it was. */
  lemma MayDemux(s: State, c: Config) returns (acts: seq<Action>)
    requires ValidConfig(c) && Shape(s) && |s.stages[DEMUX]| > 0 && s.stages[DEMUX][0].Idle? && s.channels[2] != []
    requires s.gate == Gate.Initial(|s.stages[DEMUX]|)
    ensures Leads(s, acts, Queued(Put(s, DEMUX, 0, Storing(s.channels[2][0])), 2, s.channels[2][1..]), c)
  {
    hide Plays, Leads, Gate.Step, Gate.Enabled;
    var x, g := s.channels[2][0], s.gate;
    var s1 := Queued(Put(s, DEMUX, 0, Working(x)), 2, s.channels[2][1..]).(gate := Gate.State(g.workers[0 := Gate.AtGate], g.gate));
    var s2 := s1.(gate := Gate.State(g.workers[0 := Gate.PastGate], g.gate));
    var s3 := s2.(gate := Gate.State(g.workers[0 := Gate.Inside], Gate.Gate(1, 1 >= c.high)));
    var t := Queued(Put(s, DEMUX, 0, Storing(x)), 2, s.channels[2][1..]);
    GateTurn(s, s1, c);
    GatePass(s1, s2, c, Gate.Check);
    GatePass(s2, s3, c, Gate.Increment);
    Putting(s, DEMUX, 0, Working(x), Storing(x));
    GateLeave(s3, t, c, x);
    Chain(s, Work(DEMUX, 0, Receive), s1, Work(DEMUX, 0, Pass(Gate.Check)), s2, Work(DEMUX, 0, Pass(Gate.Increment)), s3, Work(DEMUX, 0, Process), t, c);
    acts := [Work(DEMUX, 0, Receive)] + ([Work(DEMUX, 0, Pass(Gate.Check))] + ([Work(DEMUX, 0, Pass(Gate.Increment))] + [Work(DEMUX, 0, Process)]));
  }

  lemma GateTurn(s: State, t: State, c: Config)
    requires ValidConfig(c) && Shape(s) && |s.stages[DEMUX]| > 0 && s.stages[DEMUX][0].Idle? && s.channels[2] != []
    requires s.gate.workers[0] == Gate.Outside
    requires t == Queued(Put(s, DEMUX, 0, Working(s.channels[2][0])), 2, s.channels[2][1..]).(gate := Gate.State(s.gate.workers[0 := Gate.AtGate], s.gate.gate))
    ensures Plays(s, t, Work(DEMUX, 0, Receive), c)
  {}

  lemma GatePass(s: State, t: State, c: Config, a: Gate.Action)
    requires ValidConfig(c) && Shape(s) && |s.stages[DEMUX]| > 0 && s.stages[DEMUX][0].Working?
    requires (a == Gate.Check && s.gate.workers[0] == Gate.AtGate) || (a == Gate.Increment && s.gate.workers[0] == Gate.PastGate)
    requires !s.gate.gate.paused
    requires t.gate.workers == s.gate.workers[0 := if a == Gate.Check then Gate.PastGate else Gate.Inside]
    requires t.gate.gate == if a == Gate.Check then s.gate.gate else Gate.Gate(s.gate.gate.load + 1, s.gate.gate.load + 1 >= c.high)
    requires t == s.(gate := t.gate)
    ensures Plays(s, t, Work(DEMUX, 0, Pass(a)), c)
  {
    Putting(s, DEMUX, 0, s.stages[DEMUX][0], Idle);
    Passing(s, t.gate, c, a);
    hide GateAfter, Queues, One, Moved, Gate.Enabled, Gate.Step;
  }

  lemma Passing(s: State, g: Gate.State, c: Config, a: Gate.Action)
    requires Shape(s) && |s.stages[DEMUX]| > 0 && s.stages[DEMUX][0].Working?
    requires (a == Gate.Check && s.gate.workers[0] == Gate.AtGate) || (a == Gate.Increment && s.gate.workers[0] == Gate.PastGate)
    requires !s.gate.gate.paused
    requires g.workers == s.gate.workers[0 := if a == Gate.Check then Gate.PastGate else Gate.Inside]
    requires g.gate == if a == Gate.Check then s.gate.gate else Gate.Gate(s.gate.gate.load + 1, s.gate.gate.load + 1 >= c.high)
    ensures Gate.Enabled(s.gate, 0, a) && GateAfter(s, c, DEMUX, 0, Pass(a)) == g
    ensures Queues(s, DEMUX, 0, Pass(a)) == s.channels && Moved(s, DEMUX, 0, Pass(a)) == s.stages[DEMUX][0]
    ensures One(s.stages[DEMUX][0], false) == multiset{}
  {}

  lemma GateLeave(s: State, t: State, c: Config, x: nat)
    requires ValidConfig(c) && Shape(s) && |s.stages[DEMUX]| > 0 && s.stages[DEMUX][0] == Working(x)
    requires s.gate == Gate.State(Gate.Initial(|s.stages[DEMUX]|).workers[0 := Gate.Inside], Gate.Gate(1, 1 >= c.high))
    requires t == Put(s, DEMUX, 0, Storing(x)).(gate := Gate.Initial(|s.stages[DEMUX]|))
    ensures Plays(s, t, Work(DEMUX, 0, Process), c)
  {
    assert s.gate.workers[0 := Gate.Outside] == t.gate.workers;
    assert Gate.Woken(t.gate.workers) == t.gate.workers;
  }

  /** Nothing in anybody's hand or queue, nothing stopped, somebody in every pool and room in every channel. */
  ghost predicate AtRest(s: State, c: Config) {
    && ValidConfig(c) && Shape(s)
    && (forall k: nat :: k < 5 ==> |s.stages[k]| > 0 && s.stages[k][0] == Idle)
    && s.channels == [[], [], [], []] && (forall k: nat :: k < 4 ==> c.capacity[k] > 0)
    && !s.cancelled[UDP] && s.gate == Gate.Initial(|s.stages[DEMUX]|)
  }

  /** The socket's worker reads a packet and sends it on. */
  lemma Enters(s: State, c: Config) returns (acts: seq<Action>)
    requires AtRest(s, c)
    ensures Leads(s, acts, Queued(s, 0, [s.received]).(received := s.received + 1), c)
  {
    hide Plays, Leads;
    var s1, s2 := Put(s, UDP, 0, Reading), Put(s, UDP, 0, Holding(s.received)).(received := s.received + 1);
    var t := Queued(s, 0, [s.received]).(received := s.received + 1);
    MayRead(s, c);
    Putting(s, UDP, 0, Reading, Holding(s.received));
    MayGetPacket(s1, c);
    Putting(s, UDP, 0, Holding(s.received), Idle);
    Putting(s, UDP, 0, Idle, Idle);
    MaySend(s2, c, UDP);
    assert s2.channels[0] + [s.received] == [s.received];
    Single(s2, Work(UDP, 0, Send), t, c);
    Then(s1, Work(UDP, 0, Packet), s2, [Work(UDP, 0, Send)], t, c);
    Then(s, Work(UDP, 0, Read), s1, [Work(UDP, 0, Packet)] + [Work(UDP, 0, Send)], t, c);
    acts := [Work(UDP, 0, Read)] + ([Work(UDP, 0, Packet)] + [Work(UDP, 0, Send)]);
  }

  /** What is queued and taken again leaves the queue as it was. */
  lemma TakenOut(s: State, k: nat, x: nat, q: nat, i: nat, w: Worker)
    requires k < |s.channels| && s.channels[k] == [] && q < |s.stages| && i < |s.stages[q]|
    ensures Queued(Put(Queued(s, k, [x]), q, i, w), k, Queued(s, k, [x]).channels[k][1..]) == Put(s, q, i, w)
  {
    assert s.channels[k := [x]][k := []] == s.channels && [x][1..] == [];
  }

  /** A framer or transform worker takes it and sends the result on. */
  lemma Crosses(s: State, c: Config, k: nat, x: nat) returns (acts: seq<Action>)
    requires AtRest(s, c) && (k == FRAMER || k == FFT)
    ensures Leads(Queued(s, k - 1, [x]), acts, Queued(s, k, [x]), c)
  {
    hide Plays, Leads;
    var before, t := Queued(s, k - 1, [x]), Queued(s, k, [x]);
    var s1, s2 := Put(s, k, 0, Working(x)), Put(s, k, 0, Holding(x));
    MayReceive(before, c, k);
    TakenOut(s, k - 1, x, k, 0, Working(x));
    Putting(s, k, 0, Working(x), Holding(x));
    MayProcess(s1, c, k);
    Putting(s, k, 0, Holding(x), Idle);
    Putting(s, k, 0, Idle, Idle);
    MaySend(s2, c, k);
    assert s2.channels[k] + [x] == [x];
    Single(s2, Work(k, 0, Send), t, c);
    Then(s1, Work(k, 0, Process), s2, [Work(k, 0, Send)], t, c);
    Then(before, Work(k, 0, Receive), s1, [Work(k, 0, Process)] + [Work(k, 0, Send)], t, c);
    acts := [Work(k, 0, Receive)] + ([Work(k, 0, Process)] + [Work(k, 0, Send)]);
  }

  /** The demux worker takes it through the gate, offers it to the storage and sends it on. */
  lemma Demuxed(s: State, c: Config, x: nat) returns (acts: seq<Action>)
    requires AtRest(s, c) && |s.batchCh| < 2 * c.batchSize
    ensures Leads(Queued(s, FFT, [x]), acts, Queued(s, DEMUX, [x]).(batchCh := s.batchCh + [x]), c)
  {
    hide Plays, Leads;
    var before := Queued(s, FFT, [x]);
    var s1, s2 := Put(s, DEMUX, 0, Storing(x)), Put(s, DEMUX, 0, Holding(x)).(batchCh := s.batchCh + [x]);
    var t := Queued(s, DEMUX, [x]).(batchCh := s.batchCh + [x]);
    var first := MayDemux(before, c);
    TakenOut(s, FFT, x, DEMUX, 0, Storing(x));
    MayAccept(s1, c, DEMUX);
    Putting(s, DEMUX, 0, Storing(x), Holding(x));
    MaySend(s2, c, DEMUX);
    Putting(s, DEMUX, 0, Holding(x), Idle);
    Putting(s, DEMUX, 0, Idle, Idle);
    assert s2.channels[DEMUX] + [x] == [x];
    Single(s2, Work(DEMUX, 0, Send), t, c);
    Then(s1, Work(DEMUX, 0, Accept), s2, [Work(DEMUX, 0, Send)], t, c);
    acts := first + ([Work(DEMUX, 0, Accept)] + [Work(DEMUX, 0, Send)]);
    LeadsOn(before, first, s1, [Work(DEMUX, 0, Accept)] + [Work(DEMUX, 0, Send)], t, c);
  }

  /** The sink takes it and offers it to the storage again. */
  lemma Sunk(s: State, c: Config, x: nat) returns (acts: seq<Action>)
    requires AtRest(s, c) && |s.batchCh| < 2 * c.batchSize
    ensures Leads(Queued(s, DEMUX, [x]), acts, s.(batchCh := s.batchCh + [x], delivered := s.delivered + multiset{x}), c)
  {
    hide Plays, Leads;
    var before := Queued(s, DEMUX, [x]);
    var s1, s2 := Put(s, SINK, 0, Working(x)), Put(s, SINK, 0, Storing(x));
    var t := s.(batchCh := s.batchCh + [x], delivered := s.delivered + multiset{x});
    MayReceive(before, c, SINK);
    TakenOut(s, DEMUX, x, SINK, 0, Working(x));
    MayProcess(s1, c, SINK);
    Putting(s, SINK, 0, Working(x), Storing(x));
    MayAccept(s2, c, SINK);
    Putting(s, SINK, 0, Storing(x), Idle);
    Putting(s, SINK, 0, Idle, Idle);
    Single(s2, Work(SINK, 0, Accept), t, c);
    Then(s1, Work(SINK, 0, Process), s2, [Work(SINK, 0, Accept)], t, c);
    Then(before, Work(SINK, 0, Receive), s1, [Work(SINK, 0, Process)] + [Work(SINK, 0, Accept)], t, c);
    acts := [Work(SINK, 0, Receive)] + ([Work(SINK, 0, Process)] + [Work(SINK, 0, Accept)]);
  }

  lemma Apart(s: State, x: nat)
    requires |s.channels| == 4
    ensures Queued(s, 0, [x]).(received := x + 1) == Queued(s.(received := x + 1), 0, [x])
    ensures Queued(s.(received := x + 1), DEMUX, [x]).(batchCh := s.batchCh + [x]) == Queued(s.(received := x + 1, batchCh := s.batchCh + [x]), DEMUX, [x])
  {}

  /**
   A packet that reaches the idle gateway can be carried to the sink, and is then queued for the
   database twice: once by the demux and once by the sink. Everything else is as before.
   */
  lemma PacketIsStoredTwice(s: State, c: Config) returns (acts: seq<Action>)
    requires AtRest(s, c) && |s.batchCh| + 2 <= 2 * c.batchSize
    ensures var x := s.received;
      Leads(s, acts, s.(received := x + 1, batchCh := s.batchCh + [x, x], delivered := s.delivered + multiset{x}), c)
  {
    hide Plays, Leads, Queued;
    var x := s.received;
    var after := s.(received := x + 1);
    var accepted := after.(batchCh := s.batchCh + [x]);
    assert Queued(s, 0, [x]).(received := x + 1) == Queued(after, 0, [x]) && Queued(after, DEMUX, [x]).(batchCh := s.batchCh + [x]) == Queued(accepted, DEMUX, [x]) by {
      Apart(s, x);
    }
    var t := s.(received := x + 1, batchCh := s.batchCh + [x, x], delivered := s.delivered + multiset{x});
    assert s.batchCh + [x, x] == s.batchCh + [x] + [x];
    var first := Enters(s, c);
    var second := Crosses(after, c, FRAMER, x);
    var third := Crosses(after, c, FFT, x);
    var fourth := Demuxed(after, c, x);
    var last := Sunk(accepted, c, x);
    acts := first + (second + (third + (fourth + last)));
    LeadsOn(Queued(after, FFT, [x]), fourth, Queued(accepted, DEMUX, [x]), last, t, c);
    LeadsOn(Queued(after, FRAMER, [x]), third, Queued(after, FFT, [x]), fourth + last, t, c);
    LeadsOn(Queued(after, UDP, [x]), second, Queued(after, FRAMER, [x]), third + (fourth + last), t, c);
    LeadsOn(s, first, Queued(after, UDP, [x]), second + (third + (fourth + last)), t, c);
  }
}
