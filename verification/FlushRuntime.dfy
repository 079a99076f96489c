/** The per-source flush loop: batch, bounded retry, rollback and reset, drop with a report, durable cursor
    (internal/ingest/worker_runtime.go, internal/ingest/worker.go). Failures of the database and cancellation
    of the write context may happen at any point. */
module FlushRuntime {
  import opened Options
  import opened BatchCaches
  import EventRows

  const FLUSH_MAX_RETRIES := 3

  class BatchWriter {
    var tables: Tables
    /** source_progress.cursor */
    var durableCursor: Option<string>
    var batchSessionIds: set<string>
    var batchTurns: set<TurnKey>
    var lastCursor: Option<string>

    function Caches(): Caches
      reads this
    {
      BatchCaches.Caches(batchSessionIds, batchTurns)
    }

    predicate Reset()
      reads this
    {
      batchSessionIds == {} && batchTurns == {} && lastCursor == None
    }

    constructor ()
      ensures tables == EMPTY && durableCursor == None && Reset()
    {
      tables, durableCursor := EMPTY, None;
      batchSessionIds, batchTurns, lastCursor := {}, {}, None;
    }

    method ResetBatch()
      modifies this`batchSessionIds, this`batchTurns, this`lastCursor
      ensures Reset()
    {
      batchSessionIds, batchTurns, lastCursor := {}, {}, None;
    }

    method RequireSessionId(native: string, ts: int) returns (ok: bool)
      modifies this`tables, this`batchSessionIds
      ensures ok == (native != "")
      ensures ok ==> tables == (if native in old(batchSessionIds) then old(tables) else WithStub(old(tables), native, ts))
      ensures ok ==> batchSessionIds == old(batchSessionIds) + {native}
      ensures !ok ==> tables == old(tables) && batchSessionIds == old(batchSessionIds)
    {
      if native == "" {
        return false;
      }
      if native in batchSessionIds {
        return true;
      }
      if native !in tables.sessions {
        tables := tables.(sessions := tables.sessions[native := SessionRow(ts, 0, "running", ts)]);
      }
      batchSessionIds := batchSessionIds + {native};
      return true;
    }

    method Store(r: Applied) returns (ok: bool)
      modifies this`tables
      ensures ok == r.Ok? && tables == if ok then r.value else old(tables)
    {
      if r.Err? {
        return false;
      }
      tables := r.value;
      return true;
    }

    method ApplyOpStarted(ev: Event) returns (ok: bool)
      requires ev.OpStarted?
      modifies this`tables, this`batchTurns
      ensures var body := Body(old(tables), old(Caches()), ev); ok == body.Ok? && (ok ==> tables == body.value)
      ensures ok ==> batchTurns == old(batchTurns) + {TurnKey(ev.native, ev.turnSeq)}
    {
      var key := TurnKey(ev.native, ev.turnSeq);
      if key !in batchTurns {
        ok := Store(SynthesizeTurn(tables, key, ev.ts));
        if !ok {
          return;
        }
        batchTurns := batchTurns + {key};
      }
      ok := Store(PutOp(tables, ev));
    }

    method Apply(ev: Event) returns (ok: bool)
      modifies this`tables, this`batchSessionIds, this`batchTurns, this`lastCursor
      ensures var r := BatchCaches.Apply(old(tables), old(Caches()), ev); ok == r.Ok? && (ok ==> tables == r.value)
      ensures ok ==> Caches() == Cached(old(Caches()), ev)
      ensures ok ==> lastCursor == if ev.Progress? then Some(ev.cursor) else old(lastCursor)
    {
      if ev.Progress? {
        lastCursor := Some(ev.cursor);
        return true;
      }
      if ev.SessionStarted? {
        ok := Store(PutSession(tables, ev.native, ev.ts));
        return;
      }
      ok := RequireSessionId(ev.native, ev.ts);
      if !ok {
        return;
      }
      if ev.OpStarted? {
        ok := ApplyOpStarted(ev);
      } else {
        ok := Store(Body(tables, Caches(), ev));
      }
    }

    /** One transaction. `fault` is the event before which the database fails, |batch| standing for the
        progress row or the commit, and more than that for no fault. Whatever fails is rolled back; the
        caches are left as the attempt filled them. */
    method Flush(batch: seq<Event>, fault: nat) returns (ok: bool)
      requires Reset()
      modifies this
      ensures ok <==> fault > |batch| && PlainAll(old(tables), batch).Ok?
      ensures ok ==> PlainAll(old(tables), batch) == Ok(tables)
      ensures ok ==> EventRows.RowByRow(old(tables), batch, tables) && EventRows.FinalizesSettled(old(tables), batch, tables)
      ensures ok ==> durableCursor == if LastCursor(batch).Some? then LastCursor(batch) else old(durableCursor)
      ensures !ok ==> tables == old(tables) && durableCursor == old(durableCursor)
    {
      var begun, i := tables, 0;
      while i < |batch|
        invariant i <= |batch| && i <= fault && durableCursor == old(durableCursor)
        invariant PlainAll(begun, batch[..i]) == Ok(tables) && Backed(Caches(), tables)
        invariant lastCursor == LastCursor(batch[..i])
      {
        Step(begun, batch, i);
        CachedIsPlain(tables, Caches(), batch[i]);
        ok := i != fault;
        if ok {
          ok := Apply(batch[i]);
        }
        if !ok {
          tables := begun;
          return;
        }
        i := i + 1;
      }
      assert batch[..i] == batch;
      if fault == |batch| {
        tables := begun;
        return false;
      }
      if lastCursor.Some? {
        durableCursor := lastCursor;
      }
      EventRows.BatchSettles(begun, batch);
      return true;
    }
  }

  /** One more event; and a batch fails as soon as one of its events does. */
  lemma Step(t: Tables, batch: seq<Event>, i: nat)
    requires i < |batch| && PlainAll(t, batch[..i]).Ok?
    ensures PlainAll(t, batch[..i + 1]) == Plain(PlainAll(t, batch[..i]).value, batch[i])
    ensures PlainAll(t, batch[..i + 1]).Err? ==> PlainAll(t, batch).Err?
    ensures LastCursor(batch[..i + 1]) == if batch[i].Progress? then Some(batch[i].cursor) else LastCursor(batch[..i])
  {
    assert batch[..i + 1][..i] == batch[..i];
    Prefix(t, batch[..i + 1], batch[i + 1..]);
    assert batch == batch[..i + 1] + batch[i + 1..];
  }

  lemma Prefix(t: Tables, a: seq<Event>, b: seq<Event>)
    ensures PlainAll(t, a).Err? ==> PlainAll(t, a + b).Err?
  {
    PlainSplit(t, a, b);
  }

  // ----- what has become of the accepted events -----

  /** A batch that left the runtime. */
  datatype Settled = Committed(events: seq<Event>) | DroppedAfterReport(events: seq<Event>)
  datatype Report = Dropped(count: nat) | ReplayRequired(pending: nat)
  datatype Outcome = NothingToDo | Flushed | GaveUp | LeftForReplay

  function All(settled: seq<Settled>): seq<Event> {
    if settled == [] then [] else All(settled[..|settled| - 1]) + settled[|settled| - 1].events
  }

  function Kept(settled: seq<Settled>): seq<Event> {
    if settled == [] then []
    else Kept(settled[..|settled| - 1]) + if settled[|settled| - 1].Committed? then settled[|settled| - 1].events else []
  }

  function DropSizes(settled: seq<Settled>): seq<nat> {
    if settled == [] then []
    else DropSizes(settled[..|settled| - 1])
         + if settled[|settled| - 1].DroppedAfterReport? then [|settled[|settled| - 1].events|] else []
  }

  function ReportedDrops(reports: seq<Report>): seq<nat> {
    if reports == [] then []
    else ReportedDrops(reports[..|reports| - 1])
         + if reports[|reports| - 1].Dropped? then [reports[|reports| - 1].count] else []
  }

  lemma SettledOne(settled: seq<Settled>, s: Settled)
    ensures All(settled + [s]) == All(settled) + s.events
    ensures Kept(settled + [s]) == Kept(settled) + if s.Committed? then s.events else []
    ensures DropSizes(settled + [s]) == DropSizes(settled) + if s.DroppedAfterReport? then [|s.events|] else []
  {
    assert (settled + [s])[..|settled|] == settled;
  }

  lemma ReportedOne(reports: seq<Report>, r: Report)
    ensures ReportedDrops(reports + [r]) == ReportedDrops(reports) + if r.Dropped? then [r.count] else []
  {
    assert (reports + [r])[..|reports|] == reports;
  }

  /** The accepted events are those committed, those reported dropped and those in the batch, in order; the
      tables and the cursor are those of the committed events alone. */
  ghost predicate Accounted(accepted: seq<Event>, settled: seq<Settled>, batch: seq<Event>, tables: Tables, cursor: Option<string>,
                            reports: seq<Report>)
  {
    && accepted == All(settled) + batch
    && PlainAll(EMPTY, Kept(settled)) == Ok(tables)
    && cursor == LastCursor(Kept(settled))
    && ReportedDrops(reports) == DropSizes(settled)
  }

  /** The batch is settled: committed on top of the tables and the cursor, or dropped with a report. */
  lemma AccountNext(accepted: seq<Event>, settled: seq<Settled>, s: Settled, tables: Tables, cursor: Option<string>,
                    now: Tables, durable: Option<string>, reports: seq<Report>)
    requires Accounted(accepted, settled, s.events, tables, cursor, reports)
    requires if s.Committed?
             then PlainAll(tables, s.events) == Ok(now) && durable == (if LastCursor(s.events).Some? then LastCursor(s.events) else cursor)
             else now == tables && durable == cursor
    ensures Accounted(accepted, settled + [s], [], now, durable, if s.Committed? then reports else reports + [Dropped(|s.events|)])
  {
    SettledOne(settled, s);
    if s.Committed? {
      PlainSplit(EMPTY, Kept(settled), s.events);
      LastCursorSplit(Kept(settled), s.events);
    } else {
      ReportedOne(reports, Dropped(|s.events|));
      assert Kept(settled) + [] == Kept(settled);
    }
  }

  /** Where the durable cursor's progress event sits among the settled events: so everything accepted before
      it is committed or reported dropped, and whatever is still in the batch or the channel comes after it. */
  lemma {:induction false} CursorIsSafe(settled: seq<Settled>) returns (i: nat)
    requires LastCursor(Kept(settled)).Some?
    ensures i < |All(settled)| && All(settled)[i] == Progress(LastCursor(Kept(settled)).value)
  {
    var n := |settled| - 1;
    var past, last := settled[..n], settled[n];
    LastCursorSplit(Kept(past), last.events);
    if last.Committed? && LastCursor(last.events).Some? {
      i := LastProgress(last.events);
      i := |All(past)| + i;
    } else {
      assert LastCursor([]) == None;
      assert Kept(settled) == Kept(past) + if last.Committed? then last.events else [];
      assert Kept(past) + [] == Kept(past);
      i := CursorIsSafe(past);
    }
  }

  lemma {:induction false} LastProgress(evs: seq<Event>) returns (i: nat)
    requires LastCursor(evs).Some?
    ensures i < |evs| && evs[i] == Progress(LastCursor(evs).value)
    ensures forall j | i < j < |evs| :: !evs[j].Progress?
  {
    i := |evs| - 1;
    if !evs[i].Progress? {
      i := LastProgress(evs[..i]);
    }
  }

  /** The event before which the database fails in each attempt, as in Flush; and whether the write context is found
      cancelled before the first attempt, after the first failure, and so on. */
  datatype Conditions = Conditions(faults: nat -> nat, cancelled: nat -> bool)

  predicate Fails(tables: Tables, batch: seq<Event>, w: Conditions, attempt: nat) {
    w.faults(attempt) <= |batch| || PlainAll(tables, batch).Err?
  }

  /** The first n attempts have failed, under a context that was live all the while. */
  ghost predicate StillTrying(tables: Tables, batch: seq<Event>, w: Conditions, n: nat) {
    forall k: nat | k < n :: Fails(tables, batch, w, k) && !w.cancelled(k)
  }

  /** One event moved from the channel to the record. */
  lemma Regroup(accepted: seq<Event>, taken: seq<Event>, next: Event, left: seq<Event>, channel: seq<Event>)
    requires left != [] && left[0] == next && taken + left == channel
    ensures accepted + taken + [next] == accepted + (taken + [next])
    ensures taken + [next] + left[1..] == channel
  {
    assert left == [next] + left[1..];
  }

  class WorkerRuntime {
    const batchSize: nat
    const writer: BatchWriter
    /** The events waiting in the worker's channel. */
    var channel: seq<Event>
    var batch: seq<Event>
    var timerArmed: bool
    var reports: seq<Report>
    ghost var accepted: seq<Event>
    ghost var settled: seq<Settled>

    ghost predicate Valid()
      reads this, writer
    {
      writer.Reset() && Accounted(accepted, settled, batch, writer.tables, writer.durableCursor, reports)
    }

    constructor (batchSize: nat)
      ensures Valid() && accepted == [] && settled == [] && batch == [] && channel == [] && fresh(writer)
    {
      this.batchSize := batchSize;
      writer := new BatchWriter();
      channel, batch, timerArmed, reports, accepted, settled := [], [], false, [], [], [];
    }

    /** Whether the writer carries rollup buckets, which is outside this model. */
    method Perhaps() returns (b: bool) {
      b := *;
    }

    /** What the database and the context will do, attempt by attempt. */
    method AnyConditions() returns (given: Conditions) {
      given := *;
    }

    method RearmTimer()
      modifies this`timerArmed
    {
      timerArmed := Perhaps();
    }

    method ReportReplayRequired()
      requires Valid()
      modifies this`reports, this`timerArmed, writer
      ensures Valid() && reports == old(reports) + [ReplayRequired(|batch|)]
    {
      ReportedOne(reports, ReplayRequired(|batch|));
      reports := reports + [ReplayRequired(|batch|)];
      writer.ResetBatch();
      RearmTimer();
    }

    /** One attempt; a failed one is rolled back and its batch state reset. */
    method TryOnce(given: Conditions, attempt: nat) returns (flushed: bool)
      requires writer.Reset()
      modifies writer
      ensures flushed == !Fails(old(writer.tables), batch, given, attempt)
      ensures if flushed then AfterFlush(old(writer.tables), old(writer.durableCursor))
              else writer.Reset() && writer.tables == old(writer.tables) && writer.durableCursor == old(writer.durableCursor)
    {
      flushed := writer.Flush(batch, given.faults(attempt));
      if !flushed {
        writer.ResetBatch();
      }
    }

    /** The loop over the attempts. */
    method TryAll(given: Conditions) returns (outcome: Outcome, failures: nat)
      requires Valid() && batch != []
      modifies this`reports, this`timerArmed, writer
      ensures StillTrying(old(writer.tables), batch, given, failures)
      ensures match outcome
              case NothingToDo => false
              case Flushed => failures < 4 && !Fails(old(writer.tables), batch, given, failures) && !given.cancelled(failures)
              case GaveUp => failures == 4 && !given.cancelled(4)
              case LeftForReplay => given.cancelled(failures)
      ensures outcome == LeftForReplay ==> Valid() && reports == old(reports) + [ReplayRequired(|batch|)]
      ensures outcome == Flushed ==> reports == old(reports) && AfterFlush(old(writer.tables), old(writer.durableCursor))
      ensures outcome == GaveUp ==> reports == old(reports) + [Dropped(|batch|)]
                                    && writer.tables == old(writer.tables) && writer.durableCursor == old(writer.durableCursor)
    {
      if given.cancelled(0) {
        ReportReplayRequired();
        return LeftForReplay, 0;
      }
      failures := 0;
      while failures <= FLUSH_MAX_RETRIES
        invariant failures <= FLUSH_MAX_RETRIES + 1 && Valid() && reports == old(reports)
        invariant writer.tables == old(writer.tables) && writer.durableCursor == old(writer.durableCursor)
        invariant StillTrying(old(writer.tables), batch, given, failures) && !given.cancelled(failures)
      {
        var flushed := TryOnce(given, failures);
        if flushed {
          return Flushed, failures;
        }
        failures := failures + 1;
        if given.cancelled(failures) {
          ReportReplayRequired();
          return LeftForReplay, failures;
        }
      }
      reports := reports + [Dropped(|batch|)];
      outcome := GaveUp;
    }

    /** At most four attempts. The batch is committed as a whole by the first attempt that does not fail, or dropped with
        a report of its size after four failures under a live context, or kept because the context was cancelled. */
    method FlushBatchWithWriteContext(given: Conditions) returns (outcome: Outcome, failures: nat)
      requires Valid()
      modifies this`batch, this`settled, this`reports, this`timerArmed, writer
      ensures Valid() && accepted == old(accepted)
      ensures outcome != NothingToDo ==> StillTrying(old(writer.tables), old(batch), given, failures)
      ensures match outcome
              case NothingToDo => old(batch) == [] && batch == [] && settled == old(settled) && reports == old(reports)
              case Flushed =>
                && failures < 4 && !Fails(old(writer.tables), old(batch), given, failures) && !given.cancelled(failures)
                && batch == [] && settled == old(settled) + [Committed(old(batch))] && reports == old(reports)
              case GaveUp =>
                && failures == 4 && !given.cancelled(4)
                && batch == [] && settled == old(settled) + [DroppedAfterReport(old(batch))]
                && reports == old(reports) + [Dropped(|old(batch)|)]
              case LeftForReplay =>
                && given.cancelled(failures)
                && batch == old(batch) != [] && settled == old(settled) && reports == old(reports) + [ReplayRequired(|old(batch)|)]
    {
      if batch == [] {
        return NothingToDo, 0;
      }
      outcome, failures := TryAll(given);
      if outcome == LeftForReplay {
        return;
      }
      ghost var last := if outcome == GaveUp then DroppedAfterReport(batch) else Committed(batch);
      AccountNext(accepted, settled, last, old(writer.tables), old(writer.durableCursor), writer.tables, writer.durableCursor,
                  old(reports));
      Settle(last);
    }

    /** The committed batch on top of the tables it found. */
    ghost predicate AfterFlush(tables: Tables, cursor: Option<string>)
      reads this, writer
    {
      && PlainAll(tables, batch) == Ok(writer.tables)
      && writer.durableCursor == if LastCursor(batch).Some? then LastCursor(batch) else cursor
    }

    /** The batch leaves the runtime. */
    method Settle(ghost s: Settled)
      requires Accounted(accepted, settled + [s], [], writer.tables, writer.durableCursor, reports)
      modifies this`batch, this`settled, this`timerArmed, writer
      ensures Valid() && batch == [] && settled == old(settled) + [s]
    {
      settled := settled + [s];
      batch := [];
      writer.ResetBatch();
      RearmTimer();
    }

    /** What every step does to the record: it only grows. */
    twostate predicate Extends(more: seq<Event>)
      reads this
    {
      && accepted == old(accepted) + more
      && old(settled) <= settled && old(reports) <= reports
    }

    /** What a flush leaves: nothing, or the batch it was given, reported for replay. */
    twostate predicate FlushedOrLeft(was: seq<Event>)
      reads this
    {
      batch == [] || (batch == was && |reports| > |old(reports)| && reports[|reports| - 1] == ReplayRequired(|batch|))
    }

    method FlushBatch()
      requires Valid()
      modifies this`batch, this`settled, this`reports, this`timerArmed, writer
      ensures Valid() && Extends([]) && |batch| <= |old(batch)|
      ensures batch == [] || (batch == old(batch) && reports == old(reports) + [ReplayRequired(|batch|)])
    {
      assert accepted + [] == accepted;
      if batch == [] {
        return;
      }
      var given := AnyConditions();
      var outcome, failures := FlushBatchWithWriteContext(given);
    }

    method AppendEvent(ev: Event)
      requires Valid()
      modifies this`batch, this`accepted
      ensures Valid() && accepted == old(accepted) + [ev] && batch == old(batch) + [ev]
    {
      batch := batch + [ev];
      accepted := accepted + [ev];
    }

    method HandleEvent(ev: Event)
      requires Valid()
      modifies this`batch, this`accepted, this`settled, this`reports, this`timerArmed, writer
      ensures Valid() && Extends([ev])
      ensures |old(batch)| + 1 < batchSize ==> batch == old(batch) + [ev] && timerArmed
      ensures |old(batch)| + 1 >= batchSize ==> FlushedOrLeft(old(batch) + [ev])
    {
      AppendEvent(ev);
      timerArmed := true;
      if |batch| >= batchSize {
        FlushBatch();
      }
    }

    method IdleRefresh()
      requires Valid()
      modifies writer
      ensures Valid()
    {
      var pending := Perhaps();
      if pending {
        writer.ResetBatch();
      }
    }

    method HandleTimer()
      requires Valid()
      modifies this`batch, this`settled, this`reports, this`timerArmed, writer
      ensures Valid() && Extends([]) && FlushedOrLeft(old(batch))
    {
      assert accepted + [] == accepted;
      timerArmed := false;
      if |batch| > 0 {
        FlushBatch();
        return;
      }
      IdleRefresh();
      RearmTimer();
    }

    method DrainBufferedEvents()
      requires Valid()
      modifies this`channel, this`batch, this`accepted, this`settled, this`reports, this`timerArmed, writer
      ensures Valid() && channel == [] && Extends(old(channel))
    {
      assert accepted + [] == accepted;
      ghost var taken: seq<Event> := [];
      while |channel| > 0
        invariant Valid() && taken + channel == old(channel) && Extends(taken)
        decreases |channel|
      {
        ghost var next, left := channel[0], channel;
        TakeEvent();
        Regroup(old(accepted), taken, next, left, old(channel));
        taken := taken + [next];
      }
    }

    method TakeEvent()
      requires Valid() && channel != []
      modifies this`channel, this`batch, this`accepted, this`settled, this`reports, this`timerArmed, writer
      ensures Valid() && channel == old(channel)[1..] && Extends([old(channel)[0]])
      ensures if |old(batch)| + 1 < batchSize then batch == old(batch) + [old(channel)[0]] else FlushedOrLeft(old(batch) + [old(channel)[0]])
    {
      var ev := channel[0];
      channel := channel[1..];
      AppendEvent(ev);
      if |batch| >= batchSize {
        FlushBatch();
      }
    }

    /** Shutdown by cancellation: drain the channel, take one event that came late, flush what is left. */
    method HandleCancel(late: Option<Event>)
      requires Valid()
      modifies this`channel, this`batch, this`accepted, this`settled, this`reports, this`timerArmed, writer
      ensures Valid() && channel == [] && Extends(old(channel) + if late.Some? then [late.value] else [])
      ensures batch == [] || (reports != [] && reports[|reports| - 1] == ReplayRequired(|batch|))
    {
      DrainBufferedEvents();
      if late.Some? {
        AppendEvent(late.value);
      }
      assert accepted + [] == accepted;
      FlushBatch();
      IdleRefresh();
    }

    /** Shutdown by a closed channel. */
    method HandleClose()
      requires Valid()
      modifies this`batch, this`settled, this`reports, this`timerArmed, writer
      ensures Valid() && Extends([]) && FlushedOrLeft(old(batch))
    {
      assert accepted + [] == accepted;
      var given := AnyConditions();
      var outcome, failures := FlushBatchWithWriteContext(given);
      IdleRefresh();
    }
  }
}
