/** The full rebuild (internal/ingest/rollup_backfill.go): wipe both tables, snapshot the session starts,
    list the days, then one transaction per day, while batches keep committing with their own refresh
    suppressed by the rebuild flag (internal/ingest/ingester.go:793-827). */
module RollupBackfill {
  import opened Options
  import opened Scalars
  import opened PrimaryRows
  import opened OrderedRows
  import opened RollupRows
  import opened RollupMarks
  import opened RollupProtocol

  /** The two independent cutoffs, both taken from one clock reading. */
  datatype Cut = Cut(openHour: int, openDay: int)

  function CutAt(now: int): Cut { Cut(BucketTS(now, Hourly), BucketTS(now, Daily)) }

  function OpenAt(cut: Cut, g: Gran): int { if g.Hourly? then cut.openHour else cut.openDay }

  type Snapshot = map<SessionId, StartFact>

  datatype Phase = Wiped | Snapped(snap: Snapshot) | Flushing(snap: Snapshot, left: seq<int>)

  // ----- one run -----

  ghost function Wipe(s: Sys): Sys { s.(hourly := map[], daily := map[]) }

  function TakeSnapshot(db: Db, cut: Cut): Snapshot {
    map id | id in Starts(db) && Starts(db)[id].ts < cut.openHour :: Starts(db)[id]
  }

  /** (start_ts / day) * day, in SQL: division truncates towards zero. */
  function SqlDay(ts: int): int {
    if ts >= 0 then (ts / DAY_US) * DAY_US else -((-ts / DAY_US) * DAY_US)
  }

  /** The days with a closed op, and those with a snapshotted start. */
  ghost predicate IsDayList(db: Db, snap: Snapshot, cut: Cut, days: seq<int>) {
    && (forall i, j | 0 <= i < j < |days| :: days[i] < days[j])
    && (forall row | row in db.ops && row.startTs < cut.openHour :: SqlDay(row.startTs) in days)
    && (forall id | id in snap :: BucketTS(snap[id].ts, Daily) in days)
    && (forall d | d in days ::
          || (exists row | row in db.ops :: row.startTs < cut.openHour && SqlDay(row.startTs) == d)
          || (exists id | id in snap :: BucketTS(snap[id].ts, Daily) == d))
  }

  function InDayWindow(f: OpFact, day: int, cut: Cut): bool {
    day <= f.op.startTs < Min(day + DAY_US, cut.openHour)
  }

  /** The day's closed ops of every format, in (start_ts, id) order. */
  ghost function DayOps(db: Db, day: int, cut: Cut): seq<OpFact> {
    Sort(Order(db), Filter((f: OpFact) => InDayWindow(f, day, cut), Joined(db)))
  }

  ghost function DayStarts(snap: Snapshot, day: int): Snapshot {
    map id | id in snap && BucketTS(snap[id].ts, Daily) == day :: snap[id]
  }

  ghost function DayRows(s: Sys, snap: Snapshot, day: int, cut: Cut, g: Gran, grp: Group): Rows {
    Collapsed(s.collapse, RowsFor(DayOps(s.db, day, cut), DayStarts(snap, day), g, grp))
  }

  ghost function GroupsHit(s: Sys, snap: Snapshot, day: int, cut: Cut, g: Gran): set<Group> {
    set slot | slot in SlotsHit(DayOps(s.db, day, cut), DayStarts(snap, day), g) :: slot.group
  }

  /** Row by row: INSERT ... ON CONFLICT DO UPDATE over whatever is there. */
  ghost function Upserted(s: Sys, t: Table, snap: Snapshot, day: int, cut: Cut, g: Gran): Table {
    t + map grp | grp in GroupsHit(s, snap, day, cut, g) :: At(t, grp) + DayRows(s, snap, day, cut, g, grp)
  }

  lemma UnhitIsEmpty(s: Sys, snap: Snapshot, day: int, cut: Cut, g: Gran, grp: Group)
    requires grp !in GroupsHit(s, snap, day, cut, g)
    ensures DayRows(s, snap, day, cut, g, grp) == map[]
  {
    if v :| v in RowsFor(DayOps(s.db, day, cut), DayStarts(snap, day), g, grp) {
      RowsForAt(DayOps(s.db, day, cut), DayStarts(snap, day), g, Slot(grp, v));
      assert false;
    }
  }

  lemma UpsertedAt(s: Sys, t: Table, snap: Snapshot, day: int, cut: Cut, g: Gran, grp: Group)
    ensures At(Upserted(s, t, snap, day, cut, g), grp) == At(t, grp) + DayRows(s, snap, day, cut, g, grp)
  {
    if grp !in GroupsHit(s, snap, day, cut, g) {
      UnhitIsEmpty(s, snap, day, cut, g, grp);
      assert At(t, grp) + map[] == At(t, grp);
    }
  }

  /** flushDay: every closed hour of the day, and the day itself when it is closed. */
  ghost function FlushDay(s: Sys, snap: Snapshot, day: int, cut: Cut): Sys {
    s.(hourly := Upserted(s, s.hourly, snap, day, cut, Hourly),
       daily := if day < cut.openDay then Upserted(s, s.daily, snap, day, cut, Daily) else s.daily)
  }

  // ----- a run interleaved with batches -----

  datatype Act =
    | Ingest(step: Step)
    | Snap
    | List(days: seq<int>)
    | Flush

  ghost predicate CanAct(s: Sys, ph: Phase, cut: Cut, act: Act) {
    match act
    case Ingest(step) => step.Batch? && step.suppressed && Enabled(s, step)
    case Snap => ph.Wiped?
    case List(days) => ph.Snapped? && IsDayList(s.db, ph.snap, cut, days) && forall row | row in s.db.ops :: row.startTs >= 0
    case Flush => ph.Flushing? && ph.left != []
  }

  ghost function Act1(s: Sys, ph: Phase, cut: Cut, act: Act): (Sys, Phase)
    requires CanAct(s, ph, cut, act)
  {
    match act
    case Ingest(step) => (Do(s, step), ph)
    case Snap => (s, Snapped(TakeSnapshot(s.db, cut)))
    case List(days) => (s, Flushing(ph.snap, days))
    case Flush => (FlushDay(s, ph.snap, ph.left[0], cut), Flushing(ph.snap, ph.left[1..]))
  }

  ghost predicate CanRun(s: Sys, ph: Phase, cut: Cut, acts: seq<Act>)
    decreases |acts|
  {
    acts != [] ==>
      && CanAct(s, ph, cut, acts[0])
      && var r := Act1(s, ph, cut, acts[0]); CanRun(r.0, r.1, cut, acts[1..])
  }

  ghost function RunActs(s: Sys, ph: Phase, cut: Cut, acts: seq<Act>): (Sys, Phase)
    requires CanRun(s, ph, cut, acts)
    decreases |acts|
  {
    if acts == [] then (s, ph)
    else var r := Act1(s, ph, cut, acts[0]); RunActs(r.0, r.1, cut, acts[1..])
  }

  /** No event committed meanwhile changes this bucket without marking it. */
  ghost predicate ActSpares(s: Sys, act: Act, g: Gran, bucket: int, format: string) {
    act.Ingest? ==> StepSpares(s, act.step, g, bucket, format)
  }

  ghost predicate ActsSpare(s: Sys, ph: Phase, cut: Cut, acts: seq<Act>, g: Gran, bucket: int, format: string)
    requires CanRun(s, ph, cut, acts)
    decreases |acts|
  {
    acts != [] ==>
      && ActSpares(s, acts[0], g, bucket, format)
      && var r := Act1(s, ph, cut, acts[0]); ActsSpare(r.0, r.1, cut, acts[1..], g, bucket, format)
  }

  // ----- what the run keeps, for one bucket closed at its cutoff -----

  ghost predicate Blank(s: Sys, g: Gran, bucket: int, format: string) {
    forall d: Dimension :: At(TableOf(s, g), Group(bucket, format, d)) == map[]
  }

  ghost predicate SnapAgrees(s: Sys, snap: Snapshot, g: Gran, bucket: int, format: string) {
    StartsIn(snap, g, bucket, format) == StartsIn(Starts(s.db), g, bucket, format)
  }

  /** Before its day is flushed a bucket is blank, and carried if a session start moved since the
      snapshot; afterwards it is carried or stored right. */
  ghost predicate OnTrack(s: Sys, ph: Phase, g: Gran, bucket: int, format: string) {
    match ph
    case Wiped => Blank(s, g, bucket, format)
    case Snapped(snap) =>
      Blank(s, g, bucket, format) && (CarriedBySome(s, g, bucket, format) || SnapAgrees(s, snap, g, bucket, format))
    case Flushing(snap, left) =>
      if BucketTS(bucket, Daily) in left then
        Blank(s, g, bucket, format) && (CarriedBySome(s, g, bucket, format) || SnapAgrees(s, snap, g, bucket, format))
      else Covered(s, g, bucket, format)
  }

  ghost predicate WellListed(ph: Phase) {
    ph.Flushing? ==>
      && (forall i, j | 0 <= i < j < |ph.left| :: ph.left[i] != ph.left[j])
      && (forall i | 0 <= i < |ph.left| :: BucketTS(ph.left[i], Daily) == ph.left[i])
  }

  lemma {:induction false} UnmarkedStartsAll(db: Db, evs: seq<Event>, pricer: Option<Pricer>, format: string, g: Gran, grp: Group)
    requires Closed(db) && OneFormat(db, evs, format) && Spares(db, evs, pricer, g, grp.bucket, grp.format)
    requires !(grp.format == format && grp.bucket in MarksAll(db, evs, pricer, g))
    ensures StartsIn(Starts(ApplyAll(db, evs, pricer)), g, grp.bucket, grp.format) == StartsIn(Starts(db), g, grp.bucket, grp.format)
    decreases |evs|
  {
    if evs != [] {
      assert evs[0] in evs && !Marked(db, evs[0], pricer, g, grp);
      UnmarkedStarts(db, evs[0], pricer, g, grp);
      StartsOutside(Starts(db), Starts(Apply(db, evs[0], pricer)), g, grp);
      ClosedIsKept(db, evs[0], pricer);
      FormatIsFixed(db, evs[0], pricer);
      UnmarkedStartsAll(Apply(db, evs[0], pricer), evs[1..], pricer, format, g, grp);
    }
  }

  lemma SuppressedStep(s: Sys, step: Step)
    requires Valid(s) && step.Batch? && step.suppressed && Enabled(s, step)
    ensures Do(s, step).hourly == s.hourly && Do(s, step).daily == s.daily
    ensures if step.commits then Do(s, step).db == ApplyAll(s.db, step.evs, step.pricer) else Do(s, step).db == s.db
    ensures forall g, bucket, format :: CarriedBySome(s, g, bucket, format) ==> CarriedBySome(Do(s, step), g, bucket, format)
    ensures forall g, bucket :: bucket in MarksAll(s.db, step.evs, step.pricer, g) ==>
              CarriedBySome(Do(s, step), g, bucket, s.writers[step.i].format)
  {
    var s' := Do(s, step);
    assert s.writers[step.i] in s.writers;
    forall g, bucket, format | CarriedBySome(s, g, bucket, format)
      ensures CarriedBySome(s', g, bucket, format)
    {
      var w :| w in s.writers && w.format == format && bucket in Carried(w, g);
      var j :| 0 <= j < |s.writers| && s.writers[j] == w;
      CarriedHere(s', j, g, bucket);
    }
    forall g, bucket | bucket in MarksAll(s.db, step.evs, step.pricer, g)
      ensures CarriedBySome(s', g, bucket, s.writers[step.i].format)
    {
      CarriedHere(s', step.i, g, bucket);
    }
  }

  lemma IngestOnTrack(s: Sys, ph: Phase, step: Step, g: Gran, bucket: int, format: string)
    requires Valid(s) && step.Batch? && step.suppressed && Enabled(s, step)
    requires StepSpares(s, step, g, bucket, format) && OnTrack(s, ph, g, bucket, format)
    ensures OnTrack(Do(s, step), ph, g, bucket, format)
  {
    SuppressedStep(s, step);
    var s' := Do(s, step);
    var own := s.writers[step.i].format;
    if ph.Flushing? && BucketTS(bucket, Daily) !in ph.left {
      StepCovers(s, step, g, bucket, format);
    } else if !ph.Wiped? && !CarriedBySome(s', g, bucket, format) && step.commits {
      UnmarkedStartsAll(s.db, step.evs, step.pricer, own, g, Group(bucket, format, Total));
    }
  }

  /** From the day's one ordered read a closed bucket gets the fold over all ops, with the snapshot's starts or
      any that are the same in the bucket. */
  lemma DayRowsAreFold(s: Sys, snap: Snapshot, starts: map<SessionId, StartFact>, now: int, g: Gran, grp: Group)
    requires grp.bucket < OpenAt(CutAt(now), g)
    requires StartsIn(snap, g, grp.bucket, grp.format) == StartsIn(starts, g, grp.bucket, grp.format)
    ensures DayRows(s, snap, BucketTS(grp.bucket, Daily), CutAt(now), g, grp) ==
            Collapsed(s.collapse, RowsFor(Sort(Order(s.db), Joined(s.db)), starts, g, grp))
  {
    var cut, day := CutAt(now), BucketTS(grp.bucket, Daily);
    var p := (f: OpFact) => InDayWindow(f, day, cut);
    forall f | f in Joined(s.db) && OpIn(f, g, grp.bucket, grp.format)
      ensures p(f)
    {
      ClosedIsInDay(f.op.startTs, now, g);
    }
    forall id | id in snap && StartIn(snap[id], g, grp.bucket, grp.format)
      ensures BucketTS(snap[id].ts, Daily) == day
    {
      ClosedIsInDay(snap[id].ts, now, g);
    }
    assert StartsIn(DayStarts(snap, day), g, grp.bucket, grp.format) == StartsIn(snap, g, grp.bucket, grp.format);
    forall f | f in Sort(Order(s.db), Joined(s.db)) && OpIn(f, g, grp.bucket, grp.format)
      ensures p(f)
    {
      SortMembers(Order(s.db), Joined(s.db), f);
    }
    FilterSort(p, Order(s.db), Joined(s.db));
    RowsForCell(Sort(Order(s.db), Joined(s.db)), starts, g, grp, p, DayStarts(snap, day));
  }

  /** A closed bucket of a listed day gets exactly its fold from the day's one ordered read. */
  lemma DayRowsAreFresh(s: Sys, snap: Snapshot, now: int, g: Gran, grp: Group)
    requires grp.bucket < OpenAt(CutAt(now), g) && SnapAgrees(s, snap, g, grp.bucket, grp.format)
    ensures DayRows(s, snap, BucketTS(grp.bucket, Daily), CutAt(now), g, grp) == Stored(s, g, grp)
  {
    DayRowsAreFold(s, snap, Starts(s.db), now, g, grp);
  }

  /** Anything in a closed bucket starts inside the bucket's day and before the open hour. */
  lemma ClosedIsInDay(ts: int, now: int, g: Gran)
    requires BucketTS(ts, g) < OpenAt(CutAt(now), g)
    ensures var day := BucketTS(BucketTS(ts, g), Daily);
            BucketTS(ts, Daily) == day && day <= ts < Min(day + DAY_US, CutAt(now).openHour)
  {
    ClosedIsBeforeCut(ts, now, g);
    DayOfBucket(ts, g);
  }

  lemma ClosedIsBeforeCut(ts: int, now: int, g: Gran)
    requires BucketTS(ts, g) < OpenAt(CutAt(now), g)
    ensures ts < CutAt(now).openHour
  {
    CutIsBucket(now);
    ClosedMeansWhole(ts, OpenAt(CutAt(now), g), g);
  }

  lemma DayOfBucket(ts: int, g: Gran)
    ensures var day := BucketTS(ts, Daily); BucketTS(BucketTS(ts, g), Daily) == day && day <= ts < day + DAY_US
  {
    match g
    case Hourly => DayOfHour(ts);
    case Daily => DayIsBucket(ts);
  }

  lemma CutIsBucket(now: int)
    ensures BucketTS(CutAt(now).openHour, Hourly) == CutAt(now).openHour
    ensures BucketTS(CutAt(now).openDay, Daily) == CutAt(now).openDay
    ensures CutAt(now).openDay <= CutAt(now).openHour
  {
    DayOfHour(now);
    HourIsBucket(now);
    DayIsBucket(now);
  }

  /** Another day's flush does not reach the bucket. */
  lemma OtherDayRows(s: Sys, snap: Snapshot, day: int, cut: Cut, g: Gran, grp: Group)
    requires BucketTS(grp.bucket, Daily) != day && BucketTS(day, Daily) == day
    ensures DayRows(s, snap, day, cut, g, grp) == map[]
  {
    var facts, starts := DayOps(s.db, day, cut), DayStarts(snap, day);
    var p := (f: OpFact) => InDayWindow(f, day, cut);
    if v :| v in RowsFor(facts, starts, g, grp) {
      var slot := Slot(grp, v);
      RowsForAt(facts, starts, g, slot);
      HitIff(facts, starts, slot, g);
      if f :| f in facts && OpHits(f, g, slot) {
        SortMembers(Order(s.db), Filter(p, Joined(s.db)), f);
        SameDay(f.op.startTs, day, g);
      }
      if id :| id in StartsAt(starts, slot, g) {
        SameDay(starts[id].ts, day, g);
      }
      assert false;
    }
  }

  lemma SameDay(ts: int, day: int, g: Gran)
    requires BucketTS(day, Daily) == day && (day <= ts < day + DAY_US || BucketTS(ts, Daily) == day)
    ensures BucketTS(BucketTS(ts, g), Daily) == day
  {
    DayOfHour(ts);
    InBucket(ts, day, Daily);
    DayIsBucket(ts);
  }

  lemma FlushedTable(s: Sys, snap: Snapshot, day: int, cut: Cut, g: Gran)
    ensures TableOf(FlushDay(s, snap, day, cut), g) ==
            if g.Daily? && day >= cut.openDay then TableOf(s, g) else Upserted(s, TableOf(s, g), snap, day, cut, g)
  {
  }

  /** Where the day's fold has no rows the flush changes nothing. */
  lemma FlushNothing(s: Sys, snap: Snapshot, day: int, cut: Cut, g: Gran, grp: Group)
    requires (g.Daily? && day >= cut.openDay) || DayRows(s, snap, day, cut, g, grp) == map[]
    ensures At(TableOf(FlushDay(s, snap, day, cut), g), grp) == At(TableOf(s, g), grp)
  {
    FlushedTable(s, snap, day, cut, g);
    if !(g.Daily? && day >= cut.openDay) {
      UpsertedAt(s, TableOf(s, g), snap, day, cut, g, grp);
      PlusNothing(At(TableOf(s, g), grp), DayRows(s, snap, day, cut, g, grp));
    }
  }

  lemma PlusNothing(r: Rows, n: Rows)
    requires n == map[]
    ensures r + n == r
  {
  }

  lemma FlushAt(s: Sys, snap: Snapshot, day: int, now: int, g: Gran, grp: Group)
    requires BucketTS(day, Daily) == day && grp.bucket < OpenAt(CutAt(now), g)
    ensures At(TableOf(FlushDay(s, snap, day, CutAt(now)), g), grp) ==
            if BucketTS(grp.bucket, Daily) == day then At(TableOf(s, g), grp) + DayRows(s, snap, day, CutAt(now), g, grp)
            else At(TableOf(s, g), grp)
  {
    var cut := CutAt(now);
    if BucketTS(grp.bucket, Daily) != day {
      OtherDayRows(s, snap, day, cut, g, grp);
      FlushNothing(s, snap, day, cut, g, grp);
    } else {
      BucketBounds(grp.bucket, Daily);
      FlushedTable(s, snap, day, cut, g);
      UpsertedAt(s, TableOf(s, g), snap, day, cut, g, grp);
    }
  }

  lemma FlushGroup(s: Sys, snap: Snapshot, now: int, g: Gran, grp: Group)
    requires grp.bucket < OpenAt(CutAt(now), g) && At(TableOf(s, g), grp) == map[]
    requires SnapAgrees(s, snap, g, grp.bucket, grp.format)
    ensures At(TableOf(FlushDay(s, snap, BucketTS(grp.bucket, Daily), CutAt(now)), g), grp) == Stored(s, g, grp)
  {
    DayIsBucket(grp.bucket);
    FlushAt(s, snap, BucketTS(grp.bucket, Daily), now, g, grp);
    DayRowsAreFresh(s, snap, now, g, grp);
    assert map[] + Stored(s, g, grp) == Stored(s, g, grp);
  }

  lemma FlushItsDay(s: Sys, snap: Snapshot, now: int, g: Gran, bucket: int, format: string)
    requires bucket < OpenAt(CutAt(now), g)
    requires Blank(s, g, bucket, format) && SnapAgrees(s, snap, g, bucket, format)
    ensures InStep(FlushDay(s, snap, BucketTS(bucket, Daily), CutAt(now)), g, bucket, format)
  {
    forall d: Dimension {
      FlushGroup(s, snap, now, g, Group(bucket, format, d));
    }
  }

  lemma FlushOtherDay(s: Sys, snap: Snapshot, day: int, now: int, g: Gran, bucket: int, format: string)
    requires BucketTS(day, Daily) == day && BucketTS(bucket, Daily) != day && bucket < OpenAt(CutAt(now), g)
    ensures var s' := FlushDay(s, snap, day, CutAt(now));
            && (Blank(s, g, bucket, format) ==> Blank(s', g, bucket, format))
            && (InStep(s, g, bucket, format) ==> InStep(s', g, bucket, format))
  {
    var s' := FlushDay(s, snap, day, CutAt(now));
    forall d: Dimension
      ensures At(TableOf(s', g), Group(bucket, format, d)) == At(TableOf(s, g), Group(bucket, format, d))
      ensures Stored(s', g, Group(bucket, format, d)) == Stored(s, g, Group(bucket, format, d))
    {
      FlushAt(s, snap, day, now, g, Group(bucket, format, d));
    }
  }

  lemma FlushOnTrack(s: Sys, snap: Snapshot, left: seq<int>, now: int, g: Gran, bucket: int, format: string)
    requires left != [] && WellListed(Flushing(snap, left)) && bucket < OpenAt(CutAt(now), g)
    requires OnTrack(s, Flushing(snap, left), g, bucket, format)
    ensures OnTrack(FlushDay(s, snap, left[0], CutAt(now)), Flushing(snap, left[1..]), g, bucket, format)
  {
    var s' := FlushDay(s, snap, left[0], CutAt(now));
    var day := BucketTS(bucket, Daily);
    assert left == [left[0]] + left[1..];
    assert CarriedBySome(s', g, bucket, format) == CarriedBySome(s, g, bucket, format);
    assert Starts(s'.db) == Starts(s.db);
    if day == left[0] {
      assert day !in left[1..];
      if !CarriedBySome(s, g, bucket, format) {
        FlushItsDay(s, snap, now, g, bucket, format);
      }
    } else {
      FlushOtherDay(s, snap, left[0], now, g, bucket, format);
    }
  }

  lemma SnapOnTrack(s: Sys, now: int, g: Gran, bucket: int, format: string)
    requires bucket < OpenAt(CutAt(now), g) && Blank(s, g, bucket, format)
    ensures OnTrack(s, Snapped(TakeSnapshot(s.db, CutAt(now))), g, bucket, format)
  {
    var cut := CutAt(now);
    forall id | id in Starts(s.db) && StartIn(Starts(s.db)[id], g, bucket, format)
      ensures Starts(s.db)[id].ts < cut.openHour
    {
      ClosedIsInDay(Starts(s.db)[id].ts, now, g);
    }
  }

  /** A bucket of a day that is not listed has nothing in it. */
  lemma UnlistedIsEmpty(s: Sys, snap: Snapshot, now: int, days: seq<int>, g: Gran, grp: Group)
    requires IsDayList(s.db, snap, CutAt(now), days) && forall row | row in s.db.ops :: row.startTs >= 0
    requires grp.bucket < OpenAt(CutAt(now), g) && BucketTS(grp.bucket, Daily) !in days
    requires SnapAgrees(s, snap, g, grp.bucket, grp.format)
    ensures Stored(s, g, grp) == map[]
  {
    if v :| v in Fresh(s.db, g, grp) {
      SlotIsListed(s, snap, now, days, g, Slot(grp, v));
      assert false;
    }
  }

  /** What puts a row into a closed bucket's fold puts the bucket's day on the list. */
  lemma SlotIsListed(s: Sys, snap: Snapshot, now: int, days: seq<int>, g: Gran, slot: Slot)
    requires IsDayList(s.db, snap, CutAt(now), days) && forall row | row in s.db.ops :: row.startTs >= 0
    requires slot.group.bucket < OpenAt(CutAt(now), g) && SnapAgrees(s, snap, g, slot.group.bucket, slot.group.format)
    requires slot.dimValue in Fresh(s.db, g, slot.group)
    ensures BucketTS(slot.group.bucket, Daily) in days
  {
    var facts := Sort(Order(s.db), Joined(s.db));
    RowsForAt(facts, Starts(s.db), g, slot);
    HitIff(facts, Starts(s.db), slot, g);
    if f :| f in facts && OpHits(f, g, slot) {
      SortMembers(Order(s.db), Joined(s.db), f);
      OpIsListed(s, snap, now, days, g, f);
    } else {
      StartsAtCell(Starts(s.db), slot, g);
      var id :| id in StartsAt(Starts(s.db), slot, g);
      assert id in StartsIn(Starts(s.db), g, slot.group.bucket, slot.group.format);
      ClosedIsInDay(snap[id].ts, now, g);
    }
  }

  lemma OpIsListed(s: Sys, snap: Snapshot, now: int, days: seq<int>, g: Gran, f: OpFact)
    requires IsDayList(s.db, snap, CutAt(now), days) && forall row | row in s.db.ops :: row.startTs >= 0
    requires f in Joined(s.db) && BucketTS(f.op.startTs, g) < OpenAt(CutAt(now), g)
    ensures BucketTS(BucketTS(f.op.startTs, g), Daily) in days
  {
    ClosedIsInDay(f.op.startTs, now, g);
    assert f.op in s.db.ops;
    assert SqlDay(f.op.startTs) == BucketTS(f.op.startTs, Daily);
  }

  lemma ListOnTrack(s: Sys, snap: Snapshot, now: int, days: seq<int>, g: Gran, bucket: int, format: string)
    requires IsDayList(s.db, snap, CutAt(now), days) && forall row | row in s.db.ops :: row.startTs >= 0
    requires bucket < OpenAt(CutAt(now), g) && OnTrack(s, Snapped(snap), g, bucket, format)
    ensures OnTrack(s, Flushing(snap, days), g, bucket, format)
  {
    if BucketTS(bucket, Daily) !in days && !CarriedBySome(s, g, bucket, format) {
      forall d: Dimension
        ensures Stored(s, g, Group(bucket, format, d)) == map[]
      {
        UnlistedIsEmpty(s, snap, now, days, g, Group(bucket, format, d));
      }
    }
  }

  lemma ListIsWell(db: Db, snap: Snapshot, cut: Cut, days: seq<int>)
    requires IsDayList(db, snap, cut, days) && forall row | row in db.ops :: row.startTs >= 0
    ensures WellListed(Flushing(snap, days))
  {
    forall i | 0 <= i < |days|
      ensures BucketTS(days[i], Daily) == days[i]
    {
      assert days[i] in days;
      if row :| row in db.ops && row.startTs < cut.openHour && SqlDay(row.startTs) == days[i] {
        assert SqlDay(row.startTs) == BucketTS(row.startTs, Daily);
        DayIsBucket(row.startTs);
      } else {
        var id :| id in snap && BucketTS(snap[id].ts, Daily) == days[i];
        DayIsBucket(snap[id].ts);
      }
    }
  }

  lemma ActKeeps(s: Sys, ph: Phase, now: int, act: Act, g: Gran, bucket: int, format: string)
    requires Valid(s) && WellListed(ph) && CanAct(s, ph, CutAt(now), act) && ActSpares(s, act, g, bucket, format)
    requires bucket < OpenAt(CutAt(now), g) && OnTrack(s, ph, g, bucket, format)
    ensures var r := Act1(s, ph, CutAt(now), act);
            Valid(r.0) && WellListed(r.1) && OnTrack(r.0, r.1, g, bucket, format)
  {
    match act
    case Ingest(step) =>
      StepKeepsValid(s, step);
      IngestOnTrack(s, ph, step, g, bucket, format);
    case Snap =>
      SnapOnTrack(s, now, g, bucket, format);
    case List(days) =>
      ListOnTrack(s, ph.snap, now, days, g, bucket, format);
      ListIsWell(s.db, ph.snap, CutAt(now), days);
    case Flush =>
      FlushOnTrack(s, ph.snap, ph.left, now, g, bucket, format);
  }

  lemma {:induction false} RunKeeps(s: Sys, ph: Phase, now: int, acts: seq<Act>, g: Gran, bucket: int, format: string)
    requires Valid(s) && WellListed(ph) && CanRun(s, ph, CutAt(now), acts) && ActsSpare(s, ph, CutAt(now), acts, g, bucket, format)
    requires bucket < OpenAt(CutAt(now), g) && OnTrack(s, ph, g, bucket, format)
    ensures var r := RunActs(s, ph, CutAt(now), acts);
            Valid(r.0) && WellListed(r.1) && OnTrack(r.0, r.1, g, bucket, format)
    decreases |acts|
  {
    if acts != [] {
      ActKeeps(s, ph, now, acts[0], g, bucket, format);
      var r := Act1(s, ph, CutAt(now), acts[0]);
      RunKeeps(r.0, r.1, now, acts[1..], g, bucket, format);
    }
  }

  /** However the rebuild is interleaved with batches, and whatever the tables held before, once its last
      day is flushed a bucket closed at its cutoff, which no committed event changed unmarked, is carried by a
      writer or stored right. */
  lemma RebuildCovers(s: Sys, now: int, acts: seq<Act>, g: Gran, bucket: int, format: string)
    requires Valid(s) && CanRun(Wipe(s), Wiped, CutAt(now), acts) && ActsSpare(Wipe(s), Wiped, CutAt(now), acts, g, bucket, format)
    requires var ph := RunActs(Wipe(s), Wiped, CutAt(now), acts).1; ph.Flushing? && ph.left == []
    requires bucket < OpenAt(CutAt(now), g)
    ensures Covered(RunActs(Wipe(s), Wiped, CutAt(now), acts).0, g, bucket, format)
  {
    RunKeeps(Wipe(s), Wiped, now, acts, g, bucket, format);
  }
}
