/** The batching writer in front of the database, with the database's answers left open. */
module BatchWriter {
  // ---------------------------------------------------------------- the ledger

  /** What became of a measurement that left the batch. */
  datatype Fate = NeverSent | SentAndFailed | SentAndCopied

  /** The database's answer to one batch. */
  datatype Answer = AcquireFailed | CopyFailed | Copied(count: nat)

  datatype Ledger<T> = Ledger(accepted: seq<T>, queued: seq<T>, batched: seq<T>, flushed: seq<(T, Fate)>,
                              written: nat, batches: nat, writeErrors: nat, rejected: nat, missing: int, cancelled: bool)

  datatype Event<T> = Offer(m: T, aborts: bool) | Take(a: Answer) | Flush(b: Answer) | Cancel

  function FateOf(a: Answer): Fate {
    match a
    case AcquireFailed => NeverSent
    case CopyFailed => SentAndFailed
    case Copied(_) => SentAndCopied
  }

  function Tagged<T>(s: seq<T>, f: Fate): (t: seq<(T, Fate)>)
    ensures |t| == |s| && forall i: nat :: i < |s| ==> t[i] == (s[i], f)
  {
    seq(|s|, (i: nat) requires i < |s| => (s[i], f))
  }

  /** The batch goes to the database, or is given up, as a whole. */
  function Flushed<T>(l: Ledger<T>, a: Answer): Ledger<T> {
    if l.batched == [] then l else
      var n := |l.batched|;
      var t := l.(batched := [], flushed := l.flushed + Tagged(l.batched, FateOf(a)));
      if a.Copied? then t.(written := l.written + a.count, batches := l.batches + 1, missing := l.missing + n - a.count)
      else t.(writeErrors := l.writeErrors + n)
  }

  predicate Enabled<T>(l: Ledger<T>, e: Event<T>) {
    match e
    case Offer(_, aborts) => aborts ==> l.cancelled
    case Take(_) => l.queued != []
    case Flush(_) => true
    case Cancel => true
  }

  /** One event: an offer, the writer taking one measurement, a flush, or cancellation. */
  function Step<T>(l: Ledger<T>, e: Event<T>, batchSize: nat): Ledger<T>
    requires Enabled(l, e)
  {
    match e
    case Offer(m, aborts) =>
      if aborts then l
      else if |l.queued| < 2 * batchSize then l.(accepted := l.accepted + [m], queued := l.queued + [m])
      else l.(writeErrors := l.writeErrors + 1, rejected := l.rejected + 1)
    case Take(a) =>
      var t := l.(queued := l.queued[1..], batched := l.batched + [l.queued[0]]);
      if |t.batched| >= batchSize then Flushed(t, a) else t
    case Flush(a) => Flushed(l, a)
    case Cancel => l.(cancelled := true)
  }

  ghost function Start<T>(): Ledger<T> { Ledger([], [], [], [], 0, 0, 0, 0, 0, false) }

  ghost predicate IsRun<T(!new)>(run: seq<Ledger<T>>, batchSize: nat) {
    && |run| > 0 && run[0] == Start<T>()
    && forall k: nat :: k + 1 < |run| ==> Follows(run[k], run[k + 1], batchSize)
  }

  ghost predicate Follows<T(!new)>(l: Ledger<T>, t: Ledger<T>, batchSize: nat) {
    exists e: Event<T> :: Enabled(l, e) && t == Step(l, e, batchSize)
  }

  // ---------------------------------------------------------------- conservation

  function Items<T>(flushed: seq<(T, Fate)>): (s: seq<T>)
    ensures |s| == |flushed|
  {
    seq(|flushed|, (i: nat) requires i < |flushed| => flushed[i].0)
  }

  function CountFate<T>(flushed: seq<(T, Fate)>, copied: bool): (n: nat)
    ensures n <= |flushed|
  {
    if flushed == [] then 0 else
      CountFate(flushed[..|flushed| - 1], copied) + if (flushed[|flushed| - 1].1 == SentAndCopied) == copied then 1 else 0
  }

  lemma {:induction false} CountAppend<T>(flushed: seq<(T, Fate)>, more: seq<T>, f: Fate, copied: bool)
    ensures CountFate(flushed + Tagged(more, f), copied) == CountFate(flushed, copied) + if (f == SentAndCopied) == copied then |more| else 0
  {
    var s := flushed + Tagged(more, f);
    if more == [] {
      assert s == flushed;
    } else {
      assert s[..|s| - 1] == flushed + Tagged(more[..|more| - 1], f);
      CountAppend(flushed, more[..|more| - 1], f, copied);
    }
  }

  lemma {:induction false} FatesSplit<T>(flushed: seq<(T, Fate)>)
    ensures CountFate(flushed, true) + CountFate(flushed, false) == |flushed|
  {
    if flushed != [] { FatesSplit(flushed[..|flushed| - 1]); }
  }

  ghost predicate Inv<T>(l: Ledger<T>, batchSize: nat) {
    && l.accepted == Items(l.flushed) + l.batched + l.queued
    && l.written + l.missing == CountFate(l.flushed, true)
    && l.writeErrors == CountFate(l.flushed, false) + l.rejected
    && (batchSize >= 1 ==> |l.batched| < batchSize)
    && |l.queued| <= 2 * batchSize
  }

  /** Everything but the bound on the batch, which only holds between events. */
  ghost predicate Balanced<T>(l: Ledger<T>) {
    && l.accepted == Items(l.flushed) + l.batched + l.queued
    && l.written + l.missing == CountFate(l.flushed, true)
    && l.writeErrors == CountFate(l.flushed, false) + l.rejected
  }

  lemma ItemsAppend<T>(flushed: seq<(T, Fate)>, more: seq<T>, f: Fate)
    ensures Items(flushed + Tagged(more, f)) == Items(flushed) + more
  {}

  lemma FlushBalances<T>(l: Ledger<T>, a: Answer)
    requires Balanced(l)
    ensures Balanced(Flushed(l, a)) && Flushed(l, a).batched == [] && Flushed(l, a).queued == l.queued
  {
    hide CountFate, Items, Tagged;
    if l.batched != [] {
      CountAppend(l.flushed, l.batched, FateOf(a), true);
      CountAppend(l.flushed, l.batched, FateOf(a), false);
      ItemsAppend(l.flushed, l.batched, FateOf(a));
      assert Items(l.flushed) + l.batched + [] == Items(l.flushed) + l.batched;
    }
  }

  lemma StepKeepsInv<T>(l: Ledger<T>, e: Event<T>, batchSize: nat)
    requires Inv(l, batchSize) && Enabled(l, e)
    ensures Inv(Step(l, e, batchSize), batchSize)
  {
    hide CountFate, Flushed, Items;
    match e {
      case Take(a) =>
        var t := l.(queued := l.queued[1..], batched := l.batched + [l.queued[0]]);
        assert Balanced(t) by { assert l.batched + l.queued == t.batched + t.queued; }
        FlushBalances(t, a);
      case Flush(a) => FlushBalances(l, a);
      case _ =>
    }
  }

  lemma {:induction false} RunKeepsInv<T(!new)>(run: seq<Ledger<T>>, batchSize: nat, n: nat)
    requires IsRun(run, batchSize) && n < |run|
    ensures Inv(run[n], batchSize)
  {
    hide Inv, Step;
    if n == 0 {
      StartInv<T>(batchSize);
    } else {
      RunKeepsInv(run, batchSize, n - 1);
      assert Follows(run[n - 1], run[n - 1 + 1], batchSize);
      var e: Event<T> :| Enabled(run[n - 1], e) && run[n] == Step(run[n - 1], e, batchSize);
      StepKeepsInv(run[n - 1], e, batchSize);
    }
  }

  lemma StartInv<T>(batchSize: nat)
    ensures Inv(Start<T>(), batchSize)
  {}

  /**
   Accepted measurements are written, failed, queued or batched; nothing is counted twice. Copies that
   report fewer rows than they were given show up as missing, and failures are write errors that are
   not rejections.
   */
  lemma Conservation<T(!new)>(run: seq<Ledger<T>>, batchSize: nat, n: nat)
    requires IsRun(run, batchSize) && n < |run|
    ensures var l := run[n];
      && |l.accepted| == l.written + l.missing + (l.writeErrors - l.rejected) + |l.queued| + |l.batched|
      && (batchSize >= 1 ==> |l.batched| < batchSize) && |l.queued| <= 2 * batchSize
  {
    hide CountFate, IsRun;
    RunKeepsInv(run, batchSize, n);
    FatesSplit(run[n].flushed);
  }

  /** What has left the batch is exactly the first part of what was accepted, in order, each enqueue once. */
  lemma AcceptanceOrder<T(!new)>(run: seq<Ledger<T>>, batchSize: nat, n: nat)
    requires IsRun(run, batchSize) && n < |run|
    ensures var l := run[n]; |l.flushed| <= |l.accepted| && forall i: nat :: i < |l.flushed| ==> l.flushed[i].0 == l.accepted[i]
  {
    hide CountFate, IsRun;
    RunKeepsInv(run, batchSize, n);
    var l := run[n];
    forall i: nat | i < |l.flushed|
      ensures l.flushed[i].0 == l.accepted[i]
    {
      assert Items(l.flushed)[i] == l.flushed[i].0;
    }
  }

  /** Every copy reports the rows it was given. */
  ghost predicate FullCopies<T>(l: Ledger<T>, e: Event<T>, batchSize: nat) {
    match e
    case Take(a) => a.Copied? && |l.batched| + 1 >= batchSize ==> a.count == |l.batched| + 1
    case Flush(a) => a.Copied? && l.batched != [] ==> a.count == |l.batched|
    case _ => true
  }

  /** The run that a list of events drives. */
  ghost predicate Drives<T(!new)>(run: seq<Ledger<T>>, events: seq<Event<T>>, batchSize: nat) {
    && |run| == |events| + 1 && run[0] == Start<T>()
    && forall k: nat :: k < |events| ==> DrivenBy(run[k], run[k + 1], events[k], batchSize)
  }

  ghost predicate DrivenBy<T(!new)>(l: Ledger<T>, t: Ledger<T>, e: Event<T>, batchSize: nat) {
    Enabled(l, e) && t == Step(l, e, batchSize)
  }

  lemma DrivenIsRun<T(!new)>(run: seq<Ledger<T>>, events: seq<Event<T>>, batchSize: nat)
    requires Drives(run, events, batchSize)
    ensures IsRun(run, batchSize)
  {
    hide Step, Enabled;
    forall k: nat | k + 1 < |run|
      ensures Follows(run[k], run[k + 1], batchSize)
    {
      assert DrivenBy(run[k], run[k + 1], events[k], batchSize);
    }
  }

  /** What the counters claim: everything accepted is written, failed, queued or batched. */
  ghost predicate CountersBalance<T>(l: Ledger<T>) {
    |l.accepted| == l.written + (l.writeErrors - l.rejected) + |l.queued| + |l.batched|
  }

  /** The database reported every row it was given, in the first n events. */
  ghost predicate AllCopiesFull<T(!new)>(run: seq<Ledger<T>>, events: seq<Event<T>>, batchSize: nat, n: nat)
    requires n <= |events| < |run|
  {
    forall k: nat :: k < n ==> FullCopies(run[k], events[k], batchSize)
  }

  /** The database never reports more rows than it was given. */
  ghost predicate NoSurplus<T>(l: Ledger<T>, e: Event<T>, batchSize: nat) {
    match e
    case Take(a) => a.Copied? && |l.batched| + 1 >= batchSize ==> a.count <= |l.batched| + 1
    case Flush(a) => a.Copied? && l.batched != [] ==> a.count <= |l.batched|
    case _ => true
  }

  lemma MissingStep<T>(l: Ledger<T>, e: Event<T>, batchSize: nat)
    requires Enabled(l, e)
    ensures Step(l, e, batchSize).missing == l.missing <==> FullCopies(l, e, batchSize)
    ensures NoSurplus(l, e, batchSize) ==> Step(l, e, batchSize).missing >= l.missing
  {}

  lemma {:induction false} MissingOnRun<T(!new)>(run: seq<Ledger<T>>, events: seq<Event<T>>, batchSize: nat, n: nat)
    requires Drives(run, events, batchSize) && n <= |events|
    requires forall k: nat :: k < |events| ==> NoSurplus(run[k], events[k], batchSize)
    ensures run[n].missing >= 0
    ensures run[n].missing == 0 <==> AllCopiesFull(run, events, batchSize, n)
  {
    hide Step, Enabled, FullCopies, NoSurplus;
    if n > 0 {
      MissingOnRun(run, events, batchSize, n - 1);
      assert DrivenBy(run[n - 1], run[n - 1 + 1], events[n - 1], batchSize);
      MissingStep(run[n - 1], events[n - 1], batchSize);
    }
  }

  /** Against a database that never over-reports, the counters balance at a point of a run exactly when every copy up to there was full. */
  lemma BalanceExactly<T(!new)>(run: seq<Ledger<T>>, events: seq<Event<T>>, batchSize: nat, n: nat)
    requires Drives(run, events, batchSize) && n <= |events|
    requires forall k: nat :: k < |events| ==> NoSurplus(run[k], events[k], batchSize)
    ensures CountersBalance(run[n]) <==> AllCopiesFull(run, events, batchSize, n)
  {
    hide Step, Enabled, FullCopies, NoSurplus, IsRun;
    DrivenIsRun(run, events, batchSize);
    Conservation(run, batchSize, n);
    MissingOnRun(run, events, batchSize, n);
  }

  /** Against any database, they balance on every prefix exactly when every copy was full. */
  lemma {:induction false} BalanceThroughoutExactly<T(!new)>(run: seq<Ledger<T>>, events: seq<Event<T>>, batchSize: nat, n: nat)
    requires Drives(run, events, batchSize) && n <= |events|
    ensures (forall k: nat :: k <= n ==> CountersBalance(run[k])) <==> AllCopiesFull(run, events, batchSize, n)
  {
    hide Step, Enabled, FullCopies, IsRun, Drives;
    DrivenIsRun(run, events, batchSize);
    DrivenSizes(run, events, batchSize);
    Conservation(run, batchSize, n);
    if n > 0 {
      BalanceThroughoutExactly(run, events, batchSize, n - 1);
      DrivenAt(run, events, batchSize, n - 1);
      MissingStep(run[n - 1], events[n - 1], batchSize);
      Conservation(run, batchSize, n - 1);
    }
  }

  lemma DrivenSizes<T(!new)>(run: seq<Ledger<T>>, events: seq<Event<T>>, batchSize: nat)
    requires Drives(run, events, batchSize)
    ensures |run| == |events| + 1 && CountersBalance(run[0])
  {}

  lemma DrivenAt<T(!new)>(run: seq<Ledger<T>>, events: seq<Event<T>>, batchSize: nat, k: nat)
    requires Drives(run, events, batchSize) && k < |events|
    ensures k + 1 < |run| && Enabled(run[k], events[k]) && run[k + 1] == Step(run[k], events[k], batchSize)
  {
    hide Step, Enabled;
    assert DrivenBy(run[k], run[k + 1], events[k], batchSize);
  }

  /** A copy that reports none of the row it was given leaves an accepted measurement in no counter. */
  lemma CopyFallsShort<T(!new)>(m: T)
    ensures exists run: seq<Ledger<T>>, events: seq<Event<T>> ::
      Drives(run, events, 1) && |events| == 2 && |run[2].accepted| == 1 && !CountersBalance(run[2])
  {
    var offer, take := Offer(m, false), Take(Copied(0));
    var first := Step(Start<T>(), offer, 1);
    var run, events := [Start<T>(), first, Step(first, take, 1)], [offer, take];
    assert DrivenBy(run[0], run[1], events[0], 1) && DrivenBy(run[1], run[2], events[1], 1);
    assert Drives(run, events, 1);
  }

  // ---------------------------------------------------------------- measurements and the storage object

  datatype Payload = Cleared | Bytes(data: seq<int>)

  /** The measured values that go to the database as they are. */
  datatype Reading = Reading(timestamp: int, level: real, velocity: real, waveHeight: real, temperature: real, distance: real, volume: real, confidence: real)

  /** The columns, in the order in which they are named to the database. */
  datatype Row = Row(time: int, frameNumber: nat, level: real, velocity: real, waveHeight: real, snrDb: real,
                     temperature: real, distance: real, volume: real, confidence: real, rawData: Payload)

  datatype WriteError = NoError | NilMeasurement | ContextDone | BufferFull

  class LevelMeasurement {
    const frameNumber: nat
    const reading: Reading
    const snr: real
    var snrDb: real
    var rawData: Payload
    var refCount: int

    constructor (frameNumber: nat, reading: Reading, snr: real, rawData: Payload)
      ensures this.frameNumber == frameNumber && this.reading == reading && this.snr == snr && this.rawData == rawData && refCount == 0
    {
      this.frameNumber, this.reading, this.snr, this.rawData := frameNumber, reading, snr, rawData;
      snrDb, refCount := 0.0, 0;
    }

    method Ref()
      modifies `refCount
      ensures refCount == old(refCount) + 1
    {
      refCount := refCount + 1;
    }

    /** The payload is cleared when the last reference goes. */
    method Unref()
      modifies `refCount, `rawData
      ensures refCount == old(refCount) - 1
      ensures rawData == if refCount == 0 then Cleared else old(rawData)
    {
      refCount := refCount - 1;
      if refCount == 0 { rawData := Cleared; }
    }
  }

  class Storage {
    const batchSize: nat
    var batchCh: seq<LevelMeasurement>
    var batch: seq<LevelMeasurement>
    var measurementsWritten: nat
    var batchesFlushed: nat
    var writeErrors: nat
    var cancelled: bool
    ghost var accepted: seq<LevelMeasurement>
    ghost var flushed: seq<(LevelMeasurement, Fate)>
    ghost var rejected: nat
    ghost var missing: int
    ghost var sent: seq<Row>

    constructor (batchSize: nat)
      ensures this.batchSize == batchSize && View() == Start() && Valid() && sent == []
    {
      this.batchSize := batchSize;
      batchCh, batch, measurementsWritten, batchesFlushed, writeErrors, cancelled := [], [], 0, 0, 0, false;
      accepted, flushed, rejected, missing, sent := [], [], 0, 0, [];
    }

    ghost function View(): Ledger<LevelMeasurement>
      reads this
    {
      Ledger(accepted, batchCh, batch, flushed, measurementsWritten, batchesFlushed, writeErrors, rejected, missing, cancelled)
    }

    /** Each pending measurement carries one reference per pending occurrence and at least one more. */
    ghost predicate Valid()
      reads this, batch, batchCh
    {
      && (forall m :: m in batch ==> m.refCount >= 1 + Pending(m))
      && (forall m :: m in batchCh ==> m.refCount >= 1 + Pending(m))
    }

    /** How often m is waiting, in the batch or in the channel. */
    ghost function Pending(m: LevelMeasurement): nat
      reads this
    {
      Times(batch, m) + Times(batchCh, m)
    }

    /** A caller who holds a reference offers a measurement; aborts is the choice of the context branch when it is ready. */
    method WriteMeasurement(m: LevelMeasurement?, aborts: bool) returns (error: WriteError)
      requires Valid() && (aborts ==> cancelled)
      requires m != null ==> m.refCount >= 1 + Pending(m)
      modifies this, m
      ensures Valid()
      ensures m == null ==> error == NilMeasurement && View() == old(View())
      ensures m != null ==> View() == Step(old(View()), Offer(m, aborts), batchSize)
      ensures m != null ==> m.refCount == old(m.refCount) + (if error == NoError then 1 else 0)
      ensures m != null ==> m.rawData == old(m.rawData) && m.snrDb == old(m.snrDb)
      ensures m != null ==> error == if aborts then ContextDone else if |old(batchCh)| < 2 * batchSize then NoError else BufferFull
      ensures error == NoError ==> batchCh == old(batchCh) + [m] && accepted == old(accepted) + [m] && writeErrors == old(writeErrors)
      ensures error != NoError ==> batchCh == old(batchCh) && accepted == old(accepted)
      ensures writeErrors == old(writeErrors) + (if error == BufferFull then 1 else 0) && rejected == old(rejected) + (if error == BufferFull then 1 else 0)
      ensures sent == old(sent) && batch == old(batch) && flushed == old(flushed) && measurementsWritten == old(measurementsWritten)
    {
      hide Times;
      if m == null { return NilMeasurement; }
      m.Ref();
      if aborts {
        m.Unref();
        return ContextDone;
      }
      if |batchCh| < 2 * batchSize {
        var offered: LevelMeasurement := m;
        TimesAppend(batchCh, offered);
        batchCh := batchCh + [offered];
        accepted := accepted + [offered];
        return NoError;
      }
      m.Unref();
      writeErrors := writeErrors + 1;
      rejected := rejected + 1;
      return BufferFull;
    }

    /** The writer receives one measurement and flushes when the batch is full. */
    method TakeOne(db: Answer)
      requires Valid() && batchCh != []
      modifies this, batch, {batchCh[0]}
      ensures Valid() && View() == Step(old(View()), Take(db), batchSize)
      ensures forall m :: m in old(batch) || m in old(batchCh) ==> m.rawData == old(m.rawData)
      ensures batchCh == old(batchCh)[1..]
      ensures |old(batch)| + 1 < batchSize ==> batch == old(batch) + [old(batchCh)[0]] && flushed == old(flushed) && sent == old(sent)
      ensures |old(batch)| + 1 >= batchSize ==> batch == [] && |flushed| == |old(flushed)| + |old(batch)| + 1
    {
      hide Times;
      TimesHead(batchCh);
      TimesAppend(batch, batchCh[0]);
      batch := batch + [batchCh[0]];
      batchCh := batchCh[1..];
      if |batch| >= batchSize { FlushBatch(db); }
    }

    /** A flush of an empty batch does nothing; another one goes to the database. */
    method FlushBatch(db: Answer)
      requires Valid()
      modifies this, batch
      ensures Valid() && View() == Step(old(View()), Flush(db), batchSize)
      ensures forall m :: m in old(batch) || m in old(batchCh) ==> m.rawData == old(m.rawData)
      ensures forall m :: m in old(batch) ==> m.refCount == old(m.refCount) - (if db.AcquireFailed? then 0 else Times(old(batch), m))
      ensures |sent| == |old(sent)| + (if db.AcquireFailed? then 0 else |old(batch)|) && sent[..|old(sent)|] == old(sent)
      ensures !db.AcquireFailed? ==> forall i: nat :: i < |old(batch)| ==>
        var m, row := old(batch)[i], sent[|old(sent)| + i];
        && row.time == m.reading.timestamp && row.frameNumber == m.frameNumber && row.level == m.reading.level && row.velocity == m.reading.velocity
        && row.waveHeight == m.reading.waveHeight && row.snrDb == m.snr && row.temperature == m.reading.temperature && row.distance == m.reading.distance
        && row.volume == m.reading.volume && row.confidence == m.reading.confidence && row.rawData == old(batch[i].rawData)
      ensures batch == [] && batchCh == old(batchCh) && accepted == old(accepted) && cancelled == old(cancelled) && rejected == old(rejected)
      ensures measurementsWritten == old(measurementsWritten) + (if old(batch) != [] && db.Copied? then db.count else 0)
      ensures batchesFlushed == old(batchesFlushed) + (if old(batch) != [] && db.Copied? then 1 else 0)
      ensures writeErrors == old(writeErrors) + (if db.Copied? then 0 else |old(batch)|)
      ensures |flushed| == |old(flushed)| + |old(batch)| && flushed[..|old(flushed)|] == old(flushed)
      ensures forall i: nat :: i < |old(batch)| ==>
        flushed[|old(flushed)| + i] == (old(batch)[i], if db.AcquireFailed? then NeverSent else if db.CopyFailed? then SentAndFailed else SentAndCopied)
    {
      hide Times, Rows, Tagged, Flushed, Valid;
      TimesNone<LevelMeasurement>();
      if |batch| == 0 {
        NothingToFlush(View(), db);
        return;
      }
      FlushedIs(View(), db);
      RowsAre(batch);
      FlushSome(db);
    }

    /** Builds the rows, asks for a connection, copies, releases the references and empties the batch. */
    method FlushSome(db: Answer)
      requires Valid() && batch != []
      modifies this, batch
      ensures Valid() && View() == Flushed(old(View()), db)
      ensures forall m :: m in old(batch) || m in old(batchCh) ==> m.rawData == old(m.rawData)
      ensures forall m :: m in old(batch) ==> m.refCount == old(m.refCount) - (if db.AcquireFailed? then 0 else Times(old(batch), m))
      ensures sent == old(sent) + if db.AcquireFailed? then [] else old(Rows(batch))
    {
      hide Times, Rows, Tagged, Flushed;
      TimesNone<LevelMeasurement>();
      var rows := BuildRows();
      if !db.AcquireFailed? {
        sent := sent + rows;
        Release();
      }
      Account(db);
    }

    /** The counters and the emptied batch. */
    method Account(db: Answer)
      requires batch != []
      modifies this
      ensures View() == Flushed(old(View()), db) && sent == old(sent) && batch == [] && batchCh == old(batchCh)
    {
      if db.Copied? {
        measurementsWritten := measurementsWritten + db.count;
        batchesFlushed := batchesFlushed + 1;
        missing := missing + |batch| - db.count;
      } else {
        writeErrors := writeErrors + |batch|;
      }
      flushed := flushed + Tagged(batch, FateOf(db));
      batch := [];
    }

    method BuildRows() returns (rows: seq<Row>)
      modifies batch`snrDb
      ensures rows == old(Rows(batch))
    {
      rows := [];
      for i := 0 to |batch|
        invariant |rows| == i && forall j: nat :: j < i ==> rows[j] == RowOf(batch[j])
      {
        var m := batch[i];
        m.snrDb := m.snr;
        rows := rows + [Row(m.reading.timestamp, m.frameNumber, m.reading.level, m.reading.velocity, m.reading.waveHeight, m.snrDb,
                            m.reading.temperature, m.reading.distance, m.reading.volume, m.reading.confidence, m.rawData)];
      }
    }

    /** One reference less per occurrence in the batch; none of them is the last. */
    method Release()
      requires Valid()
      modifies batch`refCount, batch`rawData
      ensures forall m :: m in batch ==> m.refCount == old(m.refCount) - Times(batch, m) && m.rawData == old(m.rawData)
    {
      hide Times;
      TimesNone<LevelMeasurement>();
      for i := 0 to |batch|
        invariant forall m :: m in batch ==> m.refCount == old(m.refCount) - Times(batch[..i], m) && m.rawData == old(m.rawData)
      {
        var m := batch[i];
        assert batch[..i + 1] == batch[..i] + [m];
        TimesAppend(batch[..i], m);
        TimesPrefix(batch, i + 1, m);
        m.Unref();
      }
      assert batch[..|batch|] == batch;
    }
  }

  /** A flush empties the batch into the database's account: who was sent, what was counted. */
  lemma FlushedIs<T>(l: Ledger<T>, a: Answer)
    requires l.batched != []
    ensures var t, n := Flushed(l, a), |l.batched|;
      && t.batched == [] && t.queued == l.queued && t.accepted == l.accepted && t.cancelled == l.cancelled && t.rejected == l.rejected
      && t.written == l.written + (if a.Copied? then a.count else 0) && t.batches == l.batches + (if a.Copied? then 1 else 0)
      && t.writeErrors == l.writeErrors + (if a.Copied? then 0 else n) && t.missing == l.missing + (if a.Copied? then n - a.count else 0)
      && |t.flushed| == |l.flushed| + n && t.flushed[..|l.flushed|] == l.flushed
      && forall i: nat :: i < n ==>
           t.flushed[|l.flushed| + i] == (l.batched[i], if a.AcquireFailed? then NeverSent else if a.CopyFailed? then SentAndFailed else SentAndCopied)
  {}

  lemma NothingToFlush<T>(l: Ledger<T>, a: Answer)
    requires l.batched == []
    ensures Flushed(l, a) == l
  {}

  /** Occurrences of m in s. */
  ghost function Times<T>(s: seq<T>, m: T): nat { multiset(s)[m] }

  lemma TimesNone<T>()
    ensures forall m: T :: Times([], m) == 0
  {}

  lemma TimesAppend<T>(s: seq<T>, x: T)
    ensures forall m: T :: Times(s + [x], m) == Times(s, m) + if m == x then 1 else 0
  {}

  lemma TimesHead<T>(s: seq<T>)
    requires s != []
    ensures forall m: T :: Times(s[1..], m) == Times(s, m) - if m == s[0] then 1 else 0
  {
    assert s == [s[0]] + s[1..];
  }

  lemma TimesPrefix<T>(s: seq<T>, i: nat, m: T)
    requires i <= |s|
    ensures Times(s[..i], m) <= Times(s, m)
  {
    assert s == s[..i] + s[i..];
  }

  /** The row of one measurement; its ratio goes into the decibel column. */
  ghost function RowOf(m: LevelMeasurement): Row
    reads m
  {
    Row(m.reading.timestamp, m.frameNumber, m.reading.level, m.reading.velocity, m.reading.waveHeight, m.snr,
        m.reading.temperature, m.reading.distance, m.reading.volume, m.reading.confidence, m.rawData)
  }

  /** The rows for a batch: the payloads as they are when the batch is flushed. */
  ghost function Rows(batch: seq<LevelMeasurement>): (rows: seq<Row>)
    reads batch
    ensures |rows| == |batch|
  {
    seq(|batch|, (i: nat) requires i < |batch| reads batch => RowOf(batch[i]))
  }

  twostate lemma RowsAre(batch: seq<LevelMeasurement>)
    ensures forall i: nat :: i < |batch| ==> old(Rows(batch))[i] == old(RowOf(batch[i]))
  {}
}
