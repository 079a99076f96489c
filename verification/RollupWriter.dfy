/** The writer's rollup state and the refresh that works on it in place
    (internal/ingest/rollup_refresh.go, writer.go), each method tied to a step of RollupProtocol. */
module RollupWriting {
  import opened Options
  import opened PrimaryRows
  import opened OrderedRows
  import opened RollupRows
  import opened RollupMarks
  import RollupFold
  import P = RollupProtocol
  import Picking

  /** The tables one transaction works on. */
  class Store {
    var db: Db
    var hourly: Table
    var daily: Table
    const collapse: Rows -> Rows

    constructor (db: Db, collapse: Rows -> Rows)
      ensures this.db == db && hourly == map[] && daily == map[] && this.collapse == collapse
    {
      this.db := db;
      hourly, daily := map[], map[];
      this.collapse := collapse;
    }

    /** The store as the protocol sees it, with these writers. */
    ghost function Sys(writers: seq<P.Writer>): P.Sys
      reads this
    {
      P.Sys(db, hourly, daily, writers, collapse)
    }
  }

  predicate InWindow(f: OpFact, from: int, to: int, format: string) {
    from <= f.op.startTs < to && f.format == format
  }

  lemma WindowIsBucket(f: OpFact, g: Gran, bucket: int, format: string)
    requires BucketTS(bucket, g) == bucket
    ensures InWindow(f, bucket, bucket + Span(g), format) <==> OpIn(f, g, bucket, format)
  {
    InBucket(f.op.startTs, bucket, g);
  }

  /** The rows of one dimension of the fold's accumulators. */
  function RowsOf(acc: RollupFold.Acc, grp: Group): Rows {
    map s | s in acc && s.group == grp :: s.dimValue := acc[s]
  }

  lemma HeldRows(acc: RollupFold.Acc, facts: seq<OpFact>, starts: map<SessionId, StartFact>, g: Gran, grp: Group)
    requires RollupFold.Holds(acc, facts, starts, g)
    ensures RowsOf(acc, grp) == RowsFor(facts, starts, g, grp)
  {
    forall v: string
      ensures v in RowsOf(acc, grp) <==> v in RowsFor(facts, starts, g, grp)
      ensures v in RowsOf(acc, grp) ==> RowsOf(acc, grp)[v] == RowsFor(facts, starts, g, grp)[v]
    {
      RowsForAt(facts, starts, g, Slot(grp, v));
      assert v in RowsOf(acc, grp) <==> Slot(grp, v) in acc;
    }
  }

  /** The same buckets carried and staged. */
  ghost predicate SameWriter(a: P.Writer, b: P.Writer) {
    && a.format == b.format
    && (forall x :: x in a.hours <==> x in b.hours) && (forall x :: x in a.days <==> x in b.days)
    && (forall x :: x in a.pendingHours <==> x in b.pendingHours) && (forall x :: x in a.pendingDays <==> x in b.pendingDays)
  }

  ghost predicate SameRows(t: Table, u: Table) {
    forall grp :: P.At(t, grp) == P.At(u, grp)
  }

  class RollupWriter {
    const format: string
    var dirtyHours: set<int>
    var dirtyDays: set<int>
    var pendingHours: set<int>
    var pendingDays: set<int>

    constructor (format: string)
      ensures this.format == format && Value() == P.Writer(format, {}, {}, {}, {}) && Aligned()
    {
      this.format := format;
      dirtyHours, dirtyDays, pendingHours, pendingDays := {}, {}, {}, {};
    }

    function Value(): P.Writer
      reads this
    {
      P.Writer(format, dirtyHours, dirtyDays, pendingHours, pendingDays)
    }

    ghost predicate Aligned()
      reads this
    {
      && (forall b | b in dirtyHours :: BucketTS(b, Hourly) == b)
      && (forall b | b in dirtyDays :: BucketTS(b, Daily) == b)
    }

    method MarkDirtyRollupBucket(ts: int)
      requires Aligned()
      modifies this`dirtyHours, this`dirtyDays
      ensures Aligned()
      ensures Value() == P.Mark(old(Value()), {BucketTS(ts, Hourly)}, {BucketTS(ts, Daily)})
    {
      HourIsBucket(ts);
      DayIsBucket(ts);
      dirtyHours := dirtyHours + {BucketTS(ts, Hourly)};
      dirtyDays := dirtyDays + {BucketTS(ts, Daily)};
    }

    /** INSERT the collapsed rows of each dimension that has any. */
    method UpsertRollups(t: Table, bucket: int, acc: RollupFold.Acc, collapse: Rows -> Rows) returns (t': Table)
      requires forall d: Dimension :: Group(bucket, format, d) !in t
      ensures forall grp :: P.At(t', grp) ==
                if grp.format == format && grp.bucket == bucket then P.Collapsed(collapse, RowsOf(acc, grp)) else P.At(t, grp)
    {
      t' := t;
      var dimensions := [Total, Model, Provider, Tool, Agent, Cwd];
      for i := 0 to 6
        invariant forall grp :: P.At(t', grp) ==
                    if !(grp.format == format && grp.bucket == bucket) then P.At(t, grp)
                    else if grp.dimension in dimensions[..i] then P.Collapsed(collapse, RowsOf(acc, grp))
                    else map[]
      {
        var grp := Group(bucket, format, dimensions[i]);
        var rows := RowsOf(acc, grp);
        assert dimensions[..i + 1] == dimensions[..i] + [dimensions[i]];
        assert dimensions[i] !in dimensions[..i];
        if rows != map[] {
          t' := t'[grp := collapse(rows)];
        }
      }
      forall d: Dimension
        ensures d in dimensions[..6]
      {
        match d
        case Total => assert dimensions[0] == d;
        case Model => assert dimensions[1] == d;
        case Provider => assert dimensions[2] == d;
        case Tool => assert dimensions[3] == d;
        case Agent => assert dimensions[4] == d;
        case Cwd => assert dimensions[5] == d;
      }
    }

    /** Read and fold one window of the primary tables. */
    method FoldWindow(db: Db, bucket: int, g: Gran) returns (acc: RollupFold.Acc)
      requires BucketTS(bucket, g) == bucket
      ensures forall d: Dimension :: RowsOf(acc, Group(bucket, format, d)) == Fresh(db, g, Group(bucket, format, d))
    {
      var end := bucket + Span(g);
      var window := (f: OpFact) => InWindow(f, bucket, end, format);
      var ops := Sort(Order(db), Filter(window, Joined(db)));
      var starts := map id | id in Starts(db) && bucket <= Starts(db)[id].ts < end && Starts(db)[id].format == format :: Starts(db)[id];
      var ids := Picking.Listed(starts.Keys);
      acc := RollupFold.Rollup(ops, starts, ids, g);
      forall d: Dimension
        ensures RowsOf(acc, Group(bucket, format, d)) == Fresh(db, g, Group(bucket, format, d))
      {
        WindowRows(db, g, Group(bucket, format, d), window, starts);
        HeldRows(acc, ops, starts, g, Group(bucket, format, d));
      }
    }

    /** What a group's rows become when these buckets of this format are recomputed. */
    ghost predicate Recomputed(db: Db, collapse: Rows -> Rows, t: Table, g: Gran, buckets: set<int>, t': Table) {
      forall grp :: P.At(t', grp) ==
        if grp.format == format && grp.bucket in buckets then P.Collapsed(collapse, Fresh(db, g, grp)) else P.At(t, grp)
    }

    /** DELETE the cell, re-read and fold its window, INSERT the result. */
    method RecomputeBucket(db: Db, collapse: Rows -> Rows, t: Table, bucket: int, g: Gran) returns (t': Table)
      requires BucketTS(bucket, g) == bucket
      ensures Recomputed(db, collapse, t, g, {bucket}, t')
    {
      var acc := FoldWindow(db, bucket, g);
      t' := map grp | grp in t && !(grp.format == format && grp.bucket == bucket) :: t[grp];
      t' := UpsertRollups(t', bucket, acc, collapse);
    }

    /** The window read sees exactly what the group depends on. */
    lemma WindowRows(db: Db, g: Gran, grp: Group, window: OpFact -> bool, starts: map<SessionId, StartFact>)
      requires BucketTS(grp.bucket, g) == grp.bucket
      requires forall f :: window(f) <==> InWindow(f, grp.bucket, grp.bucket + Span(g), grp.format)
      requires forall id :: id in starts <==> id in Starts(db) && grp.bucket <= Starts(db)[id].ts < grp.bucket + Span(g) && Starts(db)[id].format == grp.format
      requires forall id | id in starts :: starts[id] == Starts(db)[id]
      ensures RowsFor(Sort(Order(db), Filter(window, Joined(db))), starts, g, grp) == Fresh(db, g, grp)
    {
      forall f
        ensures window(f) <==> OpIn(f, g, grp.bucket, grp.format)
      {
        WindowIsBucket(f, g, grp.bucket, grp.format);
      }
      forall id | id in Starts(db)
        ensures StartIn(Starts(db)[id], g, grp.bucket, grp.format) <==> id in starts
      {
        InBucket(Starts(db)[id].ts, grp.bucket, g);
      }
      assert StartsIn(starts, g, grp.bucket, grp.format) == StartsIn(Starts(db), g, grp.bucket, grp.format);
      FilterSort(window, Order(db), Joined(db));
      RowsForCell(Sort(Order(db), Joined(db)), Starts(db), g, grp, window, starts);
    }

    /** One granularity: snapshot the carried set, recompute every closed bucket, stage its removal. */
    method RefreshRollupBucketPass(db: Db, collapse: Rows -> Rows, t: Table, dirty: set<int>, g: Gran, openFrom: int)
      returns (t': Table, pending: set<int>)
      requires forall b | b in dirty :: BucketTS(b, g) == b
      ensures forall b :: b in pending <==> b in dirty && b < openFrom
      ensures Recomputed(db, collapse, t, g, pending, t')
    {
      var snapshot := Picking.Listed(dirty);
      t', pending := t, {};
      for i := 0 to |snapshot|
        invariant forall b :: b in pending <==> b in snapshot[..i] && b < openFrom
        invariant Recomputed(db, collapse, t, g, pending, t')
      {
        var b := snapshot[i];
        assert snapshot[..i + 1] == snapshot[..i] + [b];
        if b < openFrom {
          var t0 := t';
          t' := RecomputeBucket(db, collapse, t0, b, g);
          RecomputedTwice(db, collapse, t, g, pending, t0, b, t');
          pending := pending + {b};
        }
      }
      assert snapshot[..|snapshot|] == snapshot;
    }

    lemma RecomputedTwice(db: Db, collapse: Rows -> Rows, t: Table, g: Gran, done: set<int>, t0: Table, b: int, t1: Table)
      requires Recomputed(db, collapse, t, g, done, t0) && Recomputed(db, collapse, t0, g, {b}, t1)
      ensures Recomputed(db, collapse, t, g, done + {b}, t1)
    {
    }

    /** The tables and this writer are those of the protocol's refresh. */
    ghost predicate IsRefreshOf(store: Store, s: P.Sys, now: int)
      requires |s.writers| == 1
      reads this, store
    {
      var t := P.RefreshBy(s, 0, now);
      SameWriter(Value(), t.writers[0]) && SameRows(store.hourly, t.hourly) && SameRows(store.daily, t.daily)
    }

    method RefreshRollups(store: Store, now: int)
      requires Aligned()
      modifies store`hourly, store`daily, this`pendingHours, this`pendingDays
      ensures IsRefreshOf(store, old(store.Sys([Value()])), now)
    {
      ghost var s := store.Sys([Value()]);
      var hours, days;
      store.hourly, hours := RefreshRollupBucketPass(store.db, store.collapse, store.hourly, dirtyHours, Hourly, P.OpenFrom(now, Hourly));
      store.daily, days := RefreshRollupBucketPass(store.db, store.collapse, store.daily, dirtyDays, Daily, P.OpenFrom(now, Daily));
      pendingHours, pendingDays := pendingHours + hours, pendingDays + days;
      forall grp
        ensures P.At(store.hourly, grp) == P.At(P.RefreshBy(s, 0, now).hourly, grp)
        ensures P.At(store.daily, grp) == P.At(P.RefreshBy(s, 0, now).daily, grp)
      {
        P.RefreshByAt(s, 0, now, Hourly, grp);
        P.RefreshByAt(s, 0, now, Daily, grp);
      }
    }

    method DeleteEach(carried: set<int>, materialized: set<int>) returns (left: set<int>)
      ensures forall b :: b in left <==> b in carried && b !in materialized
    {
      var buckets := Picking.Listed(materialized);
      left := carried;
      for i := 0 to |buckets|
        invariant forall b :: b in left <==> b in carried && b !in buckets[..i]
      {
        assert buckets[..i + 1] == buckets[..i] + [buckets[i]];
        left := left - {buckets[i]};
      }
      assert buckets[..|buckets|] == buckets;
    }

    method PromoteMaterializedRollupBuckets()
      modifies this`dirtyHours, this`dirtyDays
      ensures forall b :: b in dirtyHours <==> b in old(dirtyHours) && b !in pendingHours
      ensures forall b :: b in dirtyDays <==> b in old(dirtyDays) && b !in pendingDays
    {
      dirtyHours := DeleteEach(dirtyHours, pendingHours);
      dirtyDays := DeleteEach(dirtyDays, pendingDays);
    }

    method ResetBatch()
      modifies this`pendingHours, this`pendingDays
      ensures Value() == P.Reset(old(Value()))
    {
      pendingHours, pendingDays := {}, {};
    }

    /** The idle refresh: its own transaction, then promotion on commit, and a reset on every exit. */
    method RefreshRollupsOnly(store: Store, now: int, suppressed: bool, commits: bool)
      requires Aligned()
      modifies store`hourly, store`daily, this
      ensures Aligned()
      ensures pendingHours == pendingDays == {} || suppressed
      ensures var t := P.Do(old(store.Sys([Value()])), P.Idle(0, now, suppressed, commits));
              SameWriter(Value(), t.writers[0]) && SameRows(store.hourly, t.hourly) && SameRows(store.daily, t.daily)
    {
      if suppressed {
        return;
      }
      var hourly, daily := store.hourly, store.daily;
      RefreshRollups(store, now);
      if commits {
        PromoteMaterializedRollupBuckets();
      } else {
        store.hourly, store.daily := hourly, daily;
      }
      ResetBatch();
    }

    /** The times' buckets have been added to the carried sets. */
    twostate predicate Added(times: set<int>)
      reads this
    {
      && pendingHours == old(pendingHours) && pendingDays == old(pendingDays)
      && (forall x :: x in dirtyHours <==> x in old(dirtyHours) || x in Buckets(times, Hourly))
      && (forall x :: x in dirtyDays <==> x in old(dirtyDays) || x in Buckets(times, Daily))
    }

    /** The session's start and every start of its ops. */
    method MarkSessionRollupBucketsDirty(db: Db, id: SessionId)
      requires Aligned() && id in db.sessions
      modifies this`dirtyHours, this`dirtyDays
      ensures Aligned() && Added(SessionTimes(db, id))
    {
      ghost var times := {db.sessions[id].startTs};
      MarkDirtyRollupBucket(db.sessions[id].startTs);
      for i := 0 to |db.ops|
        invariant Aligned() && Added(times)
        invariant forall ts :: ts in times <==> ts == db.sessions[id].startTs || exists j | 0 <= j < i :: db.ops[j].id.turn.session == id && db.ops[j].startTs == ts
      {
        if db.ops[i].id.turn.session == id {
          MarkDirtyRollupBucket(db.ops[i].startTs);
          times := times + {db.ops[i].startTs};
        }
      }
      forall ts
        ensures ts in times <==> ts in SessionTimes(db, id)
      {
        if j :| 0 <= j < |db.ops| && db.ops[j].id.turn.session == id && db.ops[j].startTs == ts {
          assert db.ops[j] in db.ops;
        }
      }
    }

    /** The marks of a session start, bucket by bucket. */
    lemma StartedBuckets(db: Db, ev: Event, pricer: Option<Pricer>)
      requires ev.SessionStarted?
      ensures var known := ev.id in db.sessions;
              forall g, x :: x in Buckets(MarkedTimes(db, ev, pricer), g) <==>
                || x == BucketTS(ev.ts, g)
                || (known && (ev.agent != "" || ev.cwd != "") && x in Buckets(SessionTimes(Apply(db, ev, pricer), ev.id), g))
                || (known && ev.ts < db.sessions[ev.id].startTs && x == BucketTS(db.sessions[ev.id].startTs, g))
    {
    }

    method ApplySessionStarted(store: Store, ev: Event, pricer: Option<Pricer>)
      requires Aligned() && ev.SessionStarted?
      modifies store`db, this`dirtyHours, this`dirtyDays
      ensures Aligned() && store.db == Apply(old(store.db), ev, pricer)
      ensures Added(MarkedTimes(old(store.db), ev, pricer))
    {
      var before := store.db;
      store.db := Apply(before, ev, pricer);
      StartedBuckets(before, ev, pricer);
      MarkDirtyRollupBucket(ev.ts);
      if ev.id in before.sessions {
        if ev.agent != "" || ev.cwd != "" {
          MarkSessionRollupBucketsDirty(store.db, ev.id);
        }
        if ev.ts < before.sessions[ev.id].startTs {
          MarkDirtyRollupBucket(before.sessions[ev.id].startTs);
        }
      }
    }

    /** Apply one event's rows and mark what it touched. */
    method ApplyEvent(store: Store, ev: Event, pricer: Option<Pricer>)
      requires Aligned()
      modifies store`db, this`dirtyHours, this`dirtyDays
      ensures Aligned()
      ensures store.db == Apply(old(store.db), ev, pricer)
      ensures Added(MarkedTimes(old(store.db), ev, pricer))
    {
      if ev.SessionStarted? {
        ApplySessionStarted(store, ev, pricer);
        return;
      }
      var before := store.db;
      store.db := Apply(before, ev, pricer);
      match ev
      case SessionStarted(_, _, _, _, _, _) =>
      case SessionUpdated(id, ts, agent, cwd, _) =>
        if agent != "" || cwd != "" {
          MarkSessionRollupBucketsDirty(store.db, id);
        }
      case OpBegan(e) =>
        MarkDirtyRollupBucket(e.ts);
      case OpEnded(e) =>
        var row := Lookup(before.ops, e.op);
        if row.Some? {
          MarkDirtyRollupBucket(row.value.startTs);
        }
      case Touched(_, _) =>
    }

    /** writeBatchRows: every event in order. */
    method ApplyBatch(store: Store, batch: seq<Event>, pricer: Option<Pricer>)
      requires Aligned()
      modifies store`db, this`dirtyHours, this`dirtyDays
      ensures Aligned()
      ensures store.db == P.ApplyAll(old(store.db), batch, pricer)
      ensures SameWriter(Value(), P.Mark(old(Value()), P.MarksAll(old(store.db), batch, pricer, Hourly), P.MarksAll(old(store.db), batch, pricer, Daily)))
    {
      ghost var db := store.db;
      for i := 0 to |batch|
        invariant Aligned() && pendingHours == old(pendingHours) && pendingDays == old(pendingDays)
        invariant P.ApplyAll(store.db, batch[i..], pricer) == P.ApplyAll(db, batch, pricer)
        invariant forall x :: x in dirtyHours || x in P.MarksAll(store.db, batch[i..], pricer, Hourly) <==>
                              x in old(dirtyHours) || x in P.MarksAll(db, batch, pricer, Hourly)
        invariant forall x :: x in dirtyDays || x in P.MarksAll(store.db, batch[i..], pricer, Daily) <==>
                              x in old(dirtyDays) || x in P.MarksAll(db, batch, pricer, Daily)
      {
        assert batch[i..][0] == batch[i] && batch[i..][1..] == batch[i + 1..];
        ApplyEvent(store, batch[i], pricer);
      }
    }

    /** One flush attempt: rows and marks, the refresh unless suppressed, then commit or rollback, and the
        reset every exit performs. An attempt that fails part-way through its batch leaves the marks of the events
        before the failure: it is this step for that prefix of the batch, rolled back. */
    method Flush(store: Store, batch: seq<Event>, pricer: Option<Pricer>, now: int, suppressed: bool, commits: bool)
      requires Aligned() && pendingHours == {} && pendingDays == {}
      modifies store`db, store`hourly, store`daily, this
      ensures Aligned() && pendingHours == {} && pendingDays == {}
      ensures var t := P.Do(old(store.Sys([Value()])), P.Batch(0, batch, pricer, now, suppressed, commits));
              && store.db == t.db && SameWriter(Value(), t.writers[0])
              && SameRows(store.hourly, t.hourly) && SameRows(store.daily, t.daily)
    {
      var db, hourly, daily := store.db, store.hourly, store.daily;
      ghost var s := store.Sys([Value()]);
      ApplyBatch(store, batch, pricer);
      ghost var applied := store.Sys([Value()]);
      ghost var s1 := P.BatchBody(s, 0, batch, pricer, now, true);
      if !suppressed {
        RefreshRollups(store, now);
        RefreshSame(applied, s1, now);
      }
      if commits {
        PromoteMaterializedRollupBuckets();
      } else {
        store.db, store.hourly, store.daily := db, hourly, daily;
      }
      ResetBatch();
    }
  }

  /** A refresh depends on the carried sets only through their elements. */
  lemma RefreshSame(a: P.Sys, b: P.Sys, now: int)
    requires |a.writers| == |b.writers| == 1 && SameWriter(a.writers[0], b.writers[0])
    requires a.(writers := []) == b.(writers := [])
    ensures var t, u := P.RefreshBy(a, 0, now), P.RefreshBy(b, 0, now);
            && SameWriter(t.writers[0], u.writers[0]) && SameRows(t.hourly, u.hourly) && SameRows(t.daily, u.daily)
  {
    forall g, grp
      ensures P.At(P.TableOf(P.RefreshBy(a, 0, now), g), grp) == P.At(P.TableOf(P.RefreshBy(b, 0, now), g), grp)
    {
      P.RefreshByAt(a, 0, now, g, grp);
      P.RefreshByAt(b, 0, now, g, grp);
      assert P.Stored(a, g, grp) == P.Stored(b, g, grp);
    }
    assert P.TableOf(P.RefreshBy(a, 0, now), Hourly) == P.RefreshBy(a, 0, now).hourly;
    assert P.TableOf(P.RefreshBy(a, 0, now), Daily) == P.RefreshBy(a, 0, now).daily;
  }
}
