/** The incremental tables against a rebuild from scratch: once nothing closed is left to materialize they
    are the same tables, row for row. Also what the rebuild loses to an idle refresh that had already passed
    the rebuild-flag test when the rebuild began. */
module RollupParity {
  import opened Options
  import opened PrimaryRows
  import opened OrderedRows
  import opened RollupRows
  import opened RollupMarks
  import opened RollupProtocol
  import opened RollupBackfill

  // ----- the rebuild with nothing else going on -----

  ghost function FlushAll(s: Sys, snap: Snapshot, days: seq<int>, cut: Cut): Sys
    decreases |days|
  {
    if days == [] then s else FlushAll(FlushDay(s, snap, days[0], cut), snap, days[1..], cut)
  }

  ghost function Rebuilt(s: Sys, days: seq<int>, now: int): Sys {
    FlushAll(Wipe(s).(writers := []), TakeSnapshot(s.db, CutAt(now)), days, CutAt(now))
  }

  ghost predicate FullDayList(s: Sys, days: seq<int>, now: int) {
    IsDayList(s.db, TakeSnapshot(s.db, CutAt(now)), CutAt(now), days) && forall row | row in s.db.ops :: row.startTs >= 0
  }

  lemma {:induction false} FlushAllOnTrack(s: Sys, snap: Snapshot, days: seq<int>, now: int, g: Gran, bucket: int, format: string)
    requires WellListed(Flushing(snap, days)) && bucket < OpenAt(CutAt(now), g)
    requires OnTrack(s, Flushing(snap, days), g, bucket, format)
    ensures var s' := FlushAll(s, snap, days, CutAt(now));
            Covered(s', g, bucket, format) && s'.db == s.db && s'.writers == s.writers && s'.collapse == s.collapse
    decreases |days|
  {
    if days != [] {
      FlushOnTrack(s, snap, days, now, g, bucket, format);
      FlushAllOnTrack(FlushDay(s, snap, days[0], CutAt(now)), snap, days[1..], now, g, bucket, format);
    }
  }

  /** From scratch, every closed bucket of every format gets its fold. */
  lemma RebuiltIsRight(s: Sys, days: seq<int>, now: int, g: Gran, grp: Group)
    requires FullDayList(s, days, now) && grp.bucket < OpenAt(CutAt(now), g)
    ensures At(TableOf(Rebuilt(s, days, now), g), grp) == Stored(s, g, grp)
  {
    var alone := Wipe(s).(writers := []);
    var snap := TakeSnapshot(s.db, CutAt(now));
    SnapOnTrack(alone, now, g, grp.bucket, grp.format);
    ListOnTrack(alone, snap, now, days, g, grp.bucket, grp.format);
    ListIsWell(s.db, snap, CutAt(now), days);
    FlushAllOnTrack(alone, snap, days, now, g, grp.bucket, grp.format);
    var s' := FlushAll(alone, snap, days, CutAt(now));
    assert grp == Group(grp.bucket, grp.format, grp.dimension);
    assert Stored(s', g, grp) == Stored(s, g, grp);
  }

  /** A day's flush writes nothing into an open bucket. */
  lemma FlushSparesOpen(s: Sys, snap: Snapshot, day: int, now: int, g: Gran, grp: Group)
    requires grp.bucket >= OpenAt(CutAt(now), g) && BucketTS(day, Daily) == day
    requires forall id | id in snap :: snap[id].ts < CutAt(now).openHour
    ensures At(TableOf(FlushDay(s, snap, day, CutAt(now)), g), grp) == At(TableOf(s, g), grp)
  {
    if !(g.Daily? && day >= CutAt(now).openDay) {
      OpenRowsAreEmpty(s, snap, day, now, g, grp);
    }
    FlushNothing(s, snap, day, CutAt(now), g, grp);
  }

  lemma OpenRowsAreEmpty(s: Sys, snap: Snapshot, day: int, now: int, g: Gran, grp: Group)
    requires grp.bucket >= OpenAt(CutAt(now), g) && BucketTS(day, Daily) == day && (g.Daily? ==> day < CutAt(now).openDay)
    requires forall id | id in snap :: snap[id].ts < CutAt(now).openHour
    ensures DayRows(s, snap, day, CutAt(now), g, grp) == map[]
  {
    var cut := CutAt(now);
    var facts, starts := DayOps(s.db, day, cut), DayStarts(snap, day);
    if v :| v in RowsFor(facts, starts, g, grp) {
      var slot := Slot(grp, v);
      RowsForAt(facts, starts, g, slot);
      HitIff(facts, starts, slot, g);
      if f :| f in facts && OpHits(f, g, slot) {
        SortMembers(Order(s.db), Filter((f: OpFact) => InDayWindow(f, day, cut), Joined(s.db)), f);
        FlushedIsClosed(f.op.startTs, day, now, g);
      }
      assert false;
    }
  }

  lemma FlushedIsClosed(ts: int, day: int, now: int, g: Gran)
    requires BucketTS(day, Daily) == day && (g.Daily? ==> day < CutAt(now).openDay)
    requires ts < CutAt(now).openHour && (day <= ts < day + DAY_US || BucketTS(ts, Daily) == day)
    ensures BucketTS(ts, g) < OpenAt(CutAt(now), g)
  {
    SameDay(ts, day, g);
    match g
    case Hourly =>
      CutIsBucket(now);
      ClosedMeansWhole(ts, CutAt(now).openHour, Hourly);
    case Daily =>
      DayIsBucket(ts);
  }

  lemma {:induction false} FlushAllSparesOpen(s: Sys, snap: Snapshot, days: seq<int>, now: int, g: Gran, grp: Group)
    requires grp.bucket >= OpenAt(CutAt(now), g) && WellListed(Flushing(snap, days))
    requires forall id | id in snap :: snap[id].ts < CutAt(now).openHour
    ensures At(TableOf(FlushAll(s, snap, days, CutAt(now)), g), grp) == At(TableOf(s, g), grp)
    decreases |days|
  {
    if days != [] {
      FlushSparesOpen(s, snap, days[0], now, g, grp);
      FlushAllSparesOpen(FlushDay(s, snap, days[0], CutAt(now)), snap, days[1..], now, g, grp);
    }
  }

  // ----- only closed buckets are ever materialized -----

  ghost predicate OnlyClosed(s: Sys, now: int) {
    forall g, grp: Group | grp.bucket >= OpenFrom(now, g) :: At(TableOf(s, g), grp) == map[]
  }

  /** Whatever time the step read, it was no later than now; a repair was of a bucket closed by now. */
  predicate NoLater(step: Step, now: int) {
    if step.Repair? then step.bucket < OpenFrom(now, step.g) else step.now <= now
  }

  /** While the clock does not run backwards, no step materializes an open bucket; a repair lists only
      closed ones. */
  lemma StepKeepsOnlyClosed(s: Sys, step: Step, now: int)
    requires Valid(s) && Enabled(s, step) && OnlyClosed(s, now)
    requires NoLater(step, now)
    ensures OnlyClosed(Do(s, step), now)
  {
    forall g, grp: Group | grp.bucket >= OpenFrom(now, g)
      ensures At(TableOf(Do(s, step), g), grp) == map[]
    {
      if step.Repair? {
        if step.commits {
          RepairSpares(s, step, g, grp);
        }
      } else {
        RefreshSparesOpen(s, step, now, g, grp);
      }
    }
  }

  lemma RefreshSparesOpen(s: Sys, step: Step, now: int, g: Gran, grp: Group)
    requires !step.Repair? && Enabled(s, step) && step.now <= now && grp.bucket >= OpenFrom(now, g)
    ensures At(TableOf(Do(s, step), g), grp) == At(TableOf(s, g), grp)
  {
    BucketMonotone(step.now, now, g);
    match step
    case Batch(i, evs, pricer, t, suppressed, commits) =>
      SuppressedBody(s, i, evs, pricer, t);
      RefreshByAt(BatchBody(s, i, evs, pricer, 0, true), i, t, g, grp);
    case Idle(i, t, suppressed, commits) =>
      RefreshByAt(s, i, t, g, grp);
  }

  lemma RepairSpares(s: Sys, step: Step, g: Gran, grp: Group)
    requires step.Repair? && step.commits && !(g == step.g && grp.format == step.format && grp.bucket == step.bucket)
    ensures At(TableOf(Do(s, step), g), grp) == At(TableOf(s, g), grp)
  {
    RefreshedAt(s, TableOf(s, step.g), step.g, step.format, {step.bucket}, grp);
    var t := Refreshed(s, TableOf(s, step.g), step.g, step.format, {step.bucket});
    assert TableOf(Do(s, step), g) == if g == step.g then t else TableOf(s, g);
  }

  lemma {:induction false} RunKeepsOnlyClosed(s: Sys, steps: seq<Step>, now: int)
    requires Valid(s) && Runs(s, steps) && OnlyClosed(s, now) && forall step | step in steps :: NoLater(step, now)
    ensures OnlyClosed(RunOf(s, steps), now)
    decreases |steps|
  {
    if steps != [] {
      assert steps[0] in steps;
      StepKeepsOnlyClosed(s, steps[0], now);
      StepKeepsValid(s, steps[0]);
      RunKeepsOnlyClosed(Do(s, steps[0]), steps[1..], now);
    }
  }

  // ----- parity -----

  lemma DrainedIsRebuilt(s: Sys, days: seq<int>, now: int, g: Gran, grp: Group)
    requires OnlyClosed(s, now) && Covered(s, g, grp.bucket, grp.format) && FullDayList(s, days, now)
    requires grp.bucket < OpenFrom(now, g) ==> !CarriedBySome(s, g, grp.bucket, grp.format)
    ensures At(TableOf(s, g), grp) == At(TableOf(Rebuilt(s, days, now), g), grp)
  {
    assert grp == Group(grp.bucket, grp.format, grp.dimension);
    if grp.bucket < OpenFrom(now, g) {
      RebuiltIsRight(s, days, now, g, grp);
    } else {
      var snap := TakeSnapshot(s.db, CutAt(now));
      ListIsWell(s.db, snap, CutAt(now), days);
      FlushAllSparesOpen(Wipe(s).(writers := []), snap, days, now, g, grp);
    }
  }

  ghost predicate EmptyStore(s: Sys) {
    s.db.sessions == map[] && s.db.ops == [] && s.hourly == map[] && s.daily == map[]
  }

  /** After any run from the empty store whose clock readings are no later than now: a group that no writer still
      has to materialize, and that no event changed unmarked, has the rows, cost terms included, that a rebuild
      from scratch at now gives it, whether its bucket is open or closed. */
  lemma DrainedRunIsRebuilt(s: Sys, steps: seq<Step>, days: seq<int>, now: int, g: Gran, grp: Group)
    requires Valid(s) && EmptyStore(s) && Runs(s, steps) && forall step | step in steps :: NoLater(step, now)
    requires RunSpares(s, steps, g, grp.bucket, grp.format) && FullDayList(RunOf(s, steps), days, now)
    requires grp.bucket < OpenFrom(now, g) ==> !CarriedBySome(RunOf(s, steps), g, grp.bucket, grp.format)
    ensures At(TableOf(RunOf(s, steps), g), grp) == At(TableOf(Rebuilt(RunOf(s, steps), days, now), g), grp)
  {
    EmptyCovers(s, g, grp.bucket, grp.format);
    RunCovers(s, steps, g, grp.bucket, grp.format);
    RunKeepsOnlyClosed(s, steps, now);
    DrainedIsRebuilt(RunOf(s, steps), days, now, g, grp);
  }

  /** So when every closed bucket is drained, both tables are the rebuild's, group for group. */
  lemma DrainedTablesAreRebuilt(s: Sys, steps: seq<Step>, days: seq<int>, now: int)
    requires Valid(s) && EmptyStore(s) && Runs(s, steps) && forall step | step in steps :: NoLater(step, now)
    requires forall g, bucket, format :: RunSpares(s, steps, g, bucket, format)
    requires FullDayList(RunOf(s, steps), days, now)
    requires forall g, bucket, format | bucket < OpenFrom(now, g) :: !CarriedBySome(RunOf(s, steps), g, bucket, format)
    ensures forall g, grp: Group :: At(TableOf(RunOf(s, steps), g), grp) == At(TableOf(Rebuilt(RunOf(s, steps), days, now), g), grp)
  {
    forall g, grp: Group {
      DrainedRunIsRebuilt(s, steps, days, now, g, grp);
    }
  }

  // ----- the idle refresh that slipped past the flag -----

  /** Every row that the ops and the snapshot give this bucket counts as many session starts in the snapshot as
      there are now. */
  ghost predicate SameStartCounts(db: Db, snap: Snapshot, g: Gran, bucket: int, format: string) {
    forall slot | slot in SlotsHit(Facts(db), snap, g) && slot.group.bucket == bucket && slot.group.format == format ::
      |StartsAt(snap, slot, g)| == |StartsAt(Starts(db), slot, g)|
  }

  /** The tail-collapse leaves the bucket's rows alone, as it does below its limit: those there should be, and
      those the snapshot's starts give. */
  ghost predicate Uncollapsed(s: Sys, snap: Snapshot, g: Gran, bucket: int, format: string) {
    forall d: Dimension ::
      && s.collapse(Fresh(s.db, g, Group(bucket, format, d))) == Fresh(s.db, g, Group(bucket, format, d))
      && s.collapse(RowsFor(Facts(s.db), snap, g, Group(bucket, format, d))) == RowsFor(Facts(s.db), snap, g, Group(bucket, format, d))
  }

  /** Rows written over the right ones, with another set of starts, leave them right exactly when each of them
      counts the same number. */
  lemma OverwrittenRows(facts: seq<OpFact>, starts: map<SessionId, StartFact>, snap: Snapshot, g: Gran, grp: Group)
    ensures RowsFor(facts, starts, g, grp) + RowsFor(facts, snap, g, grp) == RowsFor(facts, starts, g, grp) <==>
            forall v | Slot(grp, v) in SlotsHit(facts, snap, g) ::
              |StartsAt(snap, Slot(grp, v), g)| == |StartsAt(starts, Slot(grp, v), g)|
  {
    var right, over := RowsFor(facts, starts, g, grp), RowsFor(facts, snap, g, grp);
    forall v
      ensures (v in over ==> v in right && right[v] == over[v]) <==>
              (Slot(grp, v) in SlotsHit(facts, snap, g) ==>
                 |StartsAt(snap, Slot(grp, v), g)| == |StartsAt(starts, Slot(grp, v), g)|)
    {
      RowsForAt(facts, starts, g, Slot(grp, v));
      RowsForAt(facts, snap, g, Slot(grp, v));
      HitIff(facts, starts, Slot(grp, v), g);
      HitIff(facts, snap, Slot(grp, v), g);
    }
    OverIff(right, over);
  }

  lemma OverIff(right: Rows, over: Rows)
    ensures right + over == right <==> forall v | v in over :: v in right && right[v] == over[v]
  {
    if right + over == right {
      forall v | v in over
        ensures v in right && right[v] == over[v]
      {
        assert v in right + over && (right + over)[v] == over[v];
      }
    }
  }

  lemma FlushedGroup(s: Sys, snap: Snapshot, now: int, g: Gran, grp: Group)
    requires InStep(s, g, grp.bucket, grp.format) && grp.bucket < OpenFrom(now, g)
    requires Uncollapsed(s, snap, g, grp.bucket, grp.format)
    ensures var s' := FlushDay(s, snap, BucketTS(grp.bucket, Daily), CutAt(now));
            At(TableOf(s', g), grp) == Stored(s', g, grp) <==>
            forall v | Slot(grp, v) in SlotsHit(Facts(s.db), snap, g) ::
              |StartsAt(snap, Slot(grp, v), g)| == |StartsAt(Starts(s.db), Slot(grp, v), g)|
  {
    assert grp == Group(grp.bucket, grp.format, grp.dimension);
    DayIsBucket(grp.bucket);
    FlushAt(s, snap, BucketTS(grp.bucket, Daily), now, g, grp);
    DayRowsAreFold(s, snap, snap, now, g, grp);
    OverwrittenRows(Facts(s.db), Starts(s.db), snap, g, grp);
  }

  /** A flush of a bucket's day over rows that are right and that nobody carries. */
  lemma FlushOverRight(s: Sys, snap: Snapshot, now: int, g: Gran, bucket: int, format: string)
    requires InStep(s, g, bucket, format) && !CarriedBySome(s, g, bucket, format) && bucket < OpenFrom(now, g)
    requires Uncollapsed(s, snap, g, bucket, format)
    ensures Covered(FlushDay(s, snap, BucketTS(bucket, Daily), CutAt(now)), g, bucket, format) <==>
            SameStartCounts(s.db, snap, g, bucket, format)
  {
    var s' := FlushDay(s, snap, BucketTS(bucket, Daily), CutAt(now));
    assert !CarriedBySome(s', g, bucket, format);
    forall d: Dimension
      ensures At(TableOf(s', g), Group(bucket, format, d)) == Stored(s', g, Group(bucket, format, d)) <==>
              forall v | Slot(Group(bucket, format, d), v) in SlotsHit(Facts(s.db), snap, g) ::
                |StartsAt(snap, Slot(Group(bucket, format, d), v), g)| == |StartsAt(Starts(s.db), Slot(Group(bucket, format, d), v), g)|
    {
      FlushedGroup(s, snap, now, g, Group(bucket, format, d));
    }
    if InStep(s', g, bucket, format) {
      forall slot | slot in SlotsHit(Facts(s.db), snap, g) && slot.group.bucket == bucket && slot.group.format == format
        ensures |StartsAt(snap, slot, g)| == |StartsAt(Starts(s.db), slot, g)|
      {
        assert slot == Slot(Group(bucket, format, slot.group.dimension), slot.dimValue);
      }
    }
  }

  ghost predicate Snapshotted(ph: Phase, snap: Snapshot) {
    match ph
    case Wiped => false
    case Snapped(had) => had == snap
    case Flushing(had, _) => had == snap
  }

  /** What the slipped refresh leaves. */
  ghost function AfterSlip(s: Sys, i: nat, at: int): Sys
    requires i < |s.writers|
  {
    Do(s, Idle(i, at, false, true))
  }

  /** An idle refresh tests the rebuild flag before it opens its transaction (internal/ingest/worker.go:277-306), so
      writer i, which carries this bucket, may commit one between the rebuild's snapshot and the flush of the bucket's
      day. Meanwhile `acts` happen: batches with their refresh suppressed, the list of days, other days' flushes; and
      then it is the bucket's day's turn. */
  ghost predicate Slips(s: Sys, snap: Snapshot, ph: Phase, i: nat, at: int, now: int, acts: seq<Act>, g: Gran, bucket: int) {
    && Valid(s) && i < |s.writers| && bucket in Carried(s.writers[i], g) && bucket < OpenFrom(now, g)
    && Snapshotted(ph, snap) && WellListed(ph)
    && var s1 := AfterSlip(s, i, at);
       && CanRun(s1, ph, CutAt(now), acts) && ActsSpare(s1, ph, CutAt(now), acts, g, bucket, s.writers[i].format)
       && IsNext(RunActs(s1, ph, CutAt(now), acts).1, BucketTS(bucket, Daily))
  }

  predicate IsNext(ph: Phase, day: int) {
    ph.Flushing? && ph.left != [] && ph.left[0] == day
  }

  /** The state the bucket's day is flushed in. */
  ghost function AtItsTurn(s: Sys, ph: Phase, i: nat, at: int, now: int, acts: seq<Act>): Sys
    requires i < |s.writers| && CanRun(AfterSlip(s, i, at), ph, CutAt(now), acts)
  {
    RunActs(AfterSlip(s, i, at), ph, CutAt(now), acts).0
  }

  /** A day that is not on the list any more does not come back. */
  lemma {:induction false} DayStaysDone(s: Sys, ph: Phase, cut: Cut, acts: seq<Act>, day: int)
    requires CanRun(s, ph, cut, acts) && ph.Flushing? && day !in ph.left
    ensures !IsNext(RunActs(s, ph, cut, acts).1, day)
    decreases |acts|
  {
    if acts != [] {
      var r := Act1(s, ph, cut, acts[0]);
      DayStaysDone(r.0, r.1, cut, acts[1..], day);
    }
  }

  lemma ActKeepsCovered(s: Sys, ph: Phase, snap: Snapshot, now: int, act: Act, g: Gran, bucket: int, format: string)
    requires Valid(s) && Snapshotted(ph, snap) && WellListed(ph) && CanAct(s, ph, CutAt(now), act)
    requires ActSpares(s, act, g, bucket, format) && bucket < OpenFrom(now, g) && Covered(s, g, bucket, format)
    requires act.Flush? ==> ph.left[0] != BucketTS(bucket, Daily)
    ensures var r := Act1(s, ph, CutAt(now), act);
            Valid(r.0) && Snapshotted(r.1, snap) && WellListed(r.1) && Covered(r.0, g, bucket, format)
  {
    match act
    case Ingest(step) =>
      StepKeepsValid(s, step);
      StepCovers(s, step, g, bucket, format);
    case List(days) =>
      ListIsWell(s.db, ph.snap, CutAt(now), days);
    case Flush =>
      assert ph.left == [ph.left[0]] + ph.left[1..];
      FlushOtherDay(s, ph.snap, ph.left[0], now, g, bucket, format);
      assert CarriedBySome(FlushDay(s, ph.snap, ph.left[0], CutAt(now)), g, bucket, format) == CarriedBySome(s, g, bucket, format);
  }

  lemma {:induction false} CoveredUntilItsTurn(s: Sys, ph: Phase, snap: Snapshot, now: int, acts: seq<Act>, g: Gran, bucket: int,
                                               format: string)
    requires Valid(s) && Snapshotted(ph, snap) && WellListed(ph) && CanRun(s, ph, CutAt(now), acts)
    requires ActsSpare(s, ph, CutAt(now), acts, g, bucket, format) && bucket < OpenFrom(now, g) && Covered(s, g, bucket, format)
    requires IsNext(RunActs(s, ph, CutAt(now), acts).1, BucketTS(bucket, Daily))
    ensures Covered(RunActs(s, ph, CutAt(now), acts).0, g, bucket, format)
    decreases |acts|
  {
    if acts != [] {
      var r := Act1(s, ph, CutAt(now), acts[0]);
      if acts[0].Flush? && ph.left[0] == BucketTS(bucket, Daily) {
        assert ph.left == [ph.left[0]] + ph.left[1..];
        DayStaysDone(r.0, r.1, CutAt(now), acts[1..], BucketTS(bucket, Daily));
        assert false;
      }
      ActKeepsCovered(s, ph, snap, now, acts[0], g, bucket, format);
      CoveredUntilItsTurn(r.0, r.1, snap, now, acts[1..], g, bucket, format);
    }
  }

  /** When its turn comes the bucket is carried again, because a batch has marked it since, or still right. */
  lemma SlippedIsCovered(s: Sys, snap: Snapshot, ph: Phase, i: nat, at: int, now: int, acts: seq<Act>, g: Gran, bucket: int)
    requires Slips(s, snap, ph, i, at, now, acts, g, bucket)
    ensures Covered(AtItsTurn(s, ph, i, at, now, acts), g, bucket, s.writers[i].format)
  {
    var step, format := Idle(i, at, false, true), s.writers[i].format;
    CarriedHere(s, i, g, bucket);
    StepCovers(s, step, g, bucket, format);
    StepKeepsValid(s, step);
    CoveredUntilItsTurn(Do(s, step), ph, snap, now, acts, g, bucket, format);
  }

  /** The flush of the bucket's day, with the session starts of the snapshot, leaves the bucket carried or right if
      and only if a batch marked it since the refresh, or no row the flush writes for it counts another number of
      starts than there are by then. */
  lemma SlippedRefreshExactly(s: Sys, snap: Snapshot, ph: Phase, i: nat, at: int, now: int, acts: seq<Act>, g: Gran, bucket: int)
    requires Slips(s, snap, ph, i, at, now, acts, g, bucket)
    requires Uncollapsed(AtItsTurn(s, ph, i, at, now, acts), snap, g, bucket, s.writers[i].format)
    ensures var t := AtItsTurn(s, ph, i, at, now, acts);
            Covered(FlushDay(t, snap, BucketTS(bucket, Daily), CutAt(now)), g, bucket, s.writers[i].format) <==>
            CarriedBySome(t, g, bucket, s.writers[i].format) || SameStartCounts(t.db, snap, g, bucket, s.writers[i].format)
  {
    var t, format := AtItsTurn(s, ph, i, at, now, acts), s.writers[i].format;
    SlippedIsCovered(s, snap, ph, i, at, now, acts, g, bucket);
    if CarriedBySome(t, g, bucket, format) {
      assert CarriedBySome(FlushDay(t, snap, BucketTS(bucket, Daily), CutAt(now)), g, bucket, format);
    } else {
      FlushOverRight(t, snap, now, g, bucket, format);
    }
  }

  /** One session starts in the bucket, in the snapshot and now, under different agents. */
  ghost predicate Relabelled(db: Db, snap: Snapshot, g: Gran, bucket: int, format: string, id: SessionId, was: StartFact) {
    && StartIn(was, g, bucket, format) && was.agent != "" && id in Starts(db) && Starts(db)[id].agent != was.agent
    && StartsIn(snap, g, bucket, format) == map[id := was]
    && StartsIn(Starts(db), g, bucket, format) == map[id := Starts(db)[id]]
  }

  lemma RelabelledCounts(db: Db, snap: Snapshot, g: Gran, bucket: int, format: string, id: SessionId, was: StartFact)
    requires Relabelled(db, snap, g, bucket, format, id, was)
    ensures !SameStartCounts(db, snap, g, bucket, format)
  {
    var slot := Slot(Group(bucket, format, Agent), was.agent);
    StartsAtCell(snap, slot, g);
    StartsAtCell(Starts(db), slot, g);
    assert id in StartsIn(snap, g, bucket, format) && id in StartsAt(snap, slot, g);
    assert StartsAt(Starts(db), slot, g) == {};
    HitIff(Facts(db), snap, slot, g);
  }

  /** An input that loses the bucket although as many sessions start in it as in the snapshot: one session,
      relabelled from one agent to another. */
  lemma RelabelledStartIsLost(s: Sys, snap: Snapshot, ph: Phase, i: nat, at: int, now: int, acts: seq<Act>, g: Gran, bucket: int,
                              id: SessionId, was: StartFact)
    requires Slips(s, snap, ph, i, at, now, acts, g, bucket)
    requires Uncollapsed(AtItsTurn(s, ph, i, at, now, acts), snap, g, bucket, s.writers[i].format)
    requires !CarriedBySome(AtItsTurn(s, ph, i, at, now, acts), g, bucket, s.writers[i].format)
    requires Relabelled(AtItsTurn(s, ph, i, at, now, acts).db, snap, g, bucket, s.writers[i].format, id, was)
    ensures var t := AtItsTurn(s, ph, i, at, now, acts);
            !Covered(FlushDay(t, snap, BucketTS(bucket, Daily), CutAt(now)), g, bucket, s.writers[i].format)
  {
    RelabelledCounts(AtItsTurn(s, ph, i, at, now, acts).db, snap, g, bucket, s.writers[i].format, id, was);
    SlippedRefreshExactly(s, snap, ph, i, at, now, acts, g, bucket);
  }

  /** Whatever the tail-collapse does, the bucket is kept when by then its session starts are those of the snapshot. */
  lemma UnchangedStartsAreKept(s: Sys, snap: Snapshot, ph: Phase, i: nat, at: int, now: int, acts: seq<Act>, g: Gran, bucket: int)
    requires Slips(s, snap, ph, i, at, now, acts, g, bucket)
    requires SnapAgrees(AtItsTurn(s, ph, i, at, now, acts), snap, g, bucket, s.writers[i].format)
    ensures var t := AtItsTurn(s, ph, i, at, now, acts);
            Covered(FlushDay(t, snap, BucketTS(bucket, Daily), CutAt(now)), g, bucket, s.writers[i].format)
  {
    var t, format := AtItsTurn(s, ph, i, at, now, acts), s.writers[i].format;
    SlippedIsCovered(s, snap, ph, i, at, now, acts, g, bucket);
    if CarriedBySome(t, g, bucket, format) {
      assert CarriedBySome(FlushDay(t, snap, BucketTS(bucket, Daily), CutAt(now)), g, bucket, format);
    } else {
      forall d: Dimension {
        FlushGroupAgain(t, snap, now, g, Group(bucket, format, d));
      }
    }
  }

  lemma FlushGroupAgain(s: Sys, snap: Snapshot, now: int, g: Gran, grp: Group)
    requires At(TableOf(s, g), grp) == Stored(s, g, grp) && grp.bucket < OpenFrom(now, g)
    requires SnapAgrees(s, snap, g, grp.bucket, grp.format)
    ensures At(TableOf(FlushDay(s, snap, BucketTS(grp.bucket, Daily), CutAt(now)), g), grp) == Stored(s, g, grp)
  {
    DayIsBucket(grp.bucket);
    FlushAt(s, snap, BucketTS(grp.bucket, Daily), now, g, grp);
    DayRowsAreFresh(s, snap, now, g, grp);
  }

  /** And when the day's flush writes no row of it: no op starts in it, and in the snapshot no session did,
      however many do by then. */
  lemma NothingWrittenIsKept(s: Sys, snap: Snapshot, ph: Phase, i: nat, at: int, now: int, acts: seq<Act>, g: Gran, bucket: int)
    requires Slips(s, snap, ph, i, at, now, acts, g, bucket)
    requires var t := AtItsTurn(s, ph, i, at, now, acts);
             forall row | row in t.db.ops :: !OpIn(FactOf(t.db, row), g, bucket, s.writers[i].format)
    requires forall id | id in snap :: !StartIn(snap[id], g, bucket, s.writers[i].format)
    ensures var t := AtItsTurn(s, ph, i, at, now, acts);
            Covered(FlushDay(t, snap, BucketTS(bucket, Daily), CutAt(now)), g, bucket, s.writers[i].format)
  {
    var t, format := AtItsTurn(s, ph, i, at, now, acts), s.writers[i].format;
    SlippedIsCovered(s, snap, ph, i, at, now, acts, g, bucket);
    if CarriedBySome(t, g, bucket, format) {
      assert CarriedBySome(FlushDay(t, snap, BucketTS(bucket, Daily), CutAt(now)), g, bucket, format);
    } else {
      forall d: Dimension {
        FlushGroupEmpty(t, snap, now, g, Group(bucket, format, d));
      }
    }
  }

  lemma FlushGroupEmpty(s: Sys, snap: Snapshot, now: int, g: Gran, grp: Group)
    requires At(TableOf(s, g), grp) == Stored(s, g, grp) && grp.bucket < OpenFrom(now, g)
    requires forall row | row in s.db.ops :: !OpIn(FactOf(s.db, row), g, grp.bucket, grp.format)
    requires forall id | id in snap :: !StartIn(snap[id], g, grp.bucket, grp.format)
    ensures At(TableOf(FlushDay(s, snap, BucketTS(grp.bucket, Daily), CutAt(now)), g), grp) == Stored(s, g, grp)
  {
    if v :| v in RowsFor(Facts(s.db), snap, g, grp) {
      RowsForAt(Facts(s.db), snap, g, Slot(grp, v));
      HitIff(Facts(s.db), snap, Slot(grp, v), g);
      if f :| f in Facts(s.db) && OpHits(f, g, Slot(grp, v)) {
        SortMembers(Order(s.db), Joined(s.db), f);
      }
      assert false;
    }
    DayRowsAreFold(s, snap, snap, now, g, grp);
    FlushNothing(s, snap, BucketTS(grp.bucket, Daily), CutAt(now), g, grp);
  }
}
