/** Several writers keeping the hourly and daily rollup tables in step with the primary tables
    (internal/ingest/rollup_refresh.go, worker.go, read_model_repair.go): batches that commit or roll
    back, idle refreshes, per-bucket repairs, and the carried sets that say what is still to be done. */
module RollupProtocol {
  import opened Options
  import opened PrimaryRows
  import opened RollupRows
  import opened RollupMarks

  /** A writer's rollup state: the buckets it carries, and those it has materialized in the open
      transaction but may only forget after the commit. */
  datatype Writer = Writer(format: string, hours: set<int>, days: set<int>, pendingHours: set<int>, pendingDays: set<int>)

  /** collapse is the tail-collapse of one group. */
  datatype Sys = Sys(db: Db, hourly: Table, daily: Table, writers: seq<Writer>, collapse: Rows -> Rows)

  function Carried(w: Writer, g: Gran): set<int> { if g.Hourly? then w.hours else w.days }

  function Pending(w: Writer, g: Gran): set<int> { if g.Hourly? then w.pendingHours else w.pendingDays }

  function TableOf(s: Sys, g: Gran): Table { if g.Hourly? then s.hourly else s.daily }

  function At(t: Table, grp: Group): Rows { if grp in t then t[grp] else map[] }

  function Collapsed(collapse: Rows -> Rows, r: Rows): Rows { if r == map[] then r else collapse(r) }

  /** What the stored rows of a group should be. */
  ghost function Stored(s: Sys, g: Gran, grp: Group): Rows { Collapsed(s.collapse, Fresh(s.db, g, grp)) }

  // ----- a refresh -----

  /** DELETE then INSERT for each of these buckets of one format. */
  ghost function Refreshed(s: Sys, t: Table, g: Gran, format: string, buckets: set<int>): Table {
    (map grp | grp in t && !(grp.format == format && grp.bucket in buckets) :: t[grp])
    + (map b, d: Dimension | b in buckets && Stored(s, g, Group(b, format, d)) != map[] :: Group(b, format, d) := Stored(s, g, Group(b, format, d)))
  }

  lemma RefreshedAt(s: Sys, t: Table, g: Gran, format: string, buckets: set<int>, grp: Group)
    ensures At(Refreshed(s, t, g, format, buckets), grp) ==
            if grp.format == format && grp.bucket in buckets then Stored(s, g, grp) else At(t, grp)
  {
  }

  function OpenFrom(now: int, g: Gran): int { BucketTS(now, g) }

  ghost function ClosedOf(buckets: set<int>, openFrom: int): set<int> {
    set b | b in buckets && b < openFrom
  }

  function Mark(w: Writer, hours: set<int>, days: set<int>): Writer {
    w.(hours := w.hours + hours, days := w.days + days)
  }

  function Stage(w: Writer, hours: set<int>, days: set<int>): Writer {
    w.(pendingHours := w.pendingHours + hours, pendingDays := w.pendingDays + days)
  }

  /** promoteMaterializedRollupBuckets */
  function Promote(w: Writer): Writer {
    w.(hours := w.hours - w.pendingHours, days := w.days - w.pendingDays)
  }

  /** resetBatch, as far as rollups are concerned. */
  function Reset(w: Writer): Writer { w.(pendingHours := {}, pendingDays := {}) }

  /** refreshRollups by writer i inside the open transaction. */
  ghost function RefreshBy(s: Sys, i: nat, now: int): Sys
    requires i < |s.writers|
  {
    var w := s.writers[i];
    var hours, days := ClosedOf(w.hours, OpenFrom(now, Hourly)), ClosedOf(w.days, OpenFrom(now, Daily));
    s.(hourly := Refreshed(s, s.hourly, Hourly, w.format, hours),
       daily := Refreshed(s, s.daily, Daily, w.format, days),
       writers := s.writers[i := Stage(w, hours, days)])
  }

  // ----- the steps -----

  ghost function ApplyAll(db: Db, evs: seq<Event>, pricer: Option<Pricer>): Db
    decreases |evs|
  {
    if evs == [] then db else ApplyAll(Apply(db, evs[0], pricer), evs[1..], pricer)
  }

  ghost function MarksAll(db: Db, evs: seq<Event>, pricer: Option<Pricer>, g: Gran): set<int>
    decreases |evs|
  {
    if evs == [] then {} else Marks(db, evs[0], pricer, g) + MarksAll(Apply(db, evs[0], pricer), evs[1..], pricer, g)
  }

  /** A writer's batch is all of its source's format. */
  predicate OneFormat(db: Db, evs: seq<Event>, format: string) {
    forall ev | ev in evs :: FormatOf(db, ev) == format
  }

  /** No event of the batch changes this bucket without marking it. */
  ghost predicate Spares(db: Db, evs: seq<Event>, pricer: Option<Pricer>, g: Gran, bucket: int, format: string)
    decreases |evs|
  {
    evs != [] ==>
      && !LeavesStale(db, evs[0], g, bucket, format)
      && Spares(Apply(db, evs[0], pricer), evs[1..], pricer, g, bucket, format)
  }

  /** suppressed: the source's deferral flag or the global rebuild flag is up. */
  datatype Step =
    | Batch(i: nat, evs: seq<Event>, pricer: Option<Pricer>, now: int, suppressed: bool, commits: bool)
    | Idle(i: nat, now: int, suppressed: bool, commits: bool)
    | Repair(g: Gran, bucket: int, format: string, commits: bool)

  predicate HasWriter(s: Sys, step: Step) {
    !step.Repair? ==> step.i < |s.writers|
  }

  ghost predicate Enabled(s: Sys, step: Step) {
    HasWriter(s, step) && (step.Batch? ==> OneFormat(s.db, step.evs, s.writers[step.i].format))
  }

  /** What the step commits changes this bucket only where it marks it. */
  ghost predicate StepSpares(s: Sys, step: Step, g: Gran, bucket: int, format: string) {
    step.Batch? && step.commits ==> Spares(s.db, step.evs, step.pricer, g, bucket, format)
  }

  function SetWriter(s: Sys, i: nat, w: Writer): Sys
    requires i < |s.writers|
  {
    s.(writers := s.writers[i := w])
  }

  /** The batch inside its transaction: rows applied and marked, then refreshed unless suppressed. */
  ghost function BatchBody(s: Sys, i: nat, evs: seq<Event>, pricer: Option<Pricer>, now: int, suppressed: bool): Sys
    requires i < |s.writers|
  {
    var marked := Mark(s.writers[i], MarksAll(s.db, evs, pricer, Hourly), MarksAll(s.db, evs, pricer, Daily));
    var s1 := SetWriter(s, i, marked).(db := ApplyAll(s.db, evs, pricer));
    if suppressed then s1 else RefreshBy(s1, i, now)
  }

  /** A rolled back transaction leaves every table as it was, but not the writer's memory. */
  ghost function Do(s: Sys, step: Step): Sys
    requires HasWriter(s, step)
  {
    match step
    case Batch(i, evs, pricer, now, suppressed, commits) =>
      var t := BatchBody(s, i, evs, pricer, now, suppressed);
      if commits then SetWriter(t, i, Reset(Promote(t.writers[i])))
      else SetWriter(s, i, Reset(t.writers[i]))
    case Idle(i, now, suppressed, commits) =>
      if suppressed then s
      else
        var t := RefreshBy(s, i, now);
        if commits then SetWriter(t, i, Reset(Promote(t.writers[i])))
        else SetWriter(s, i, Reset(t.writers[i]))
    case Repair(g, bucket, format, commits) =>
      if !commits then s
      else if g.Hourly? then s.(hourly := Refreshed(s, s.hourly, g, format, {bucket}))
      else s.(daily := Refreshed(s, s.daily, g, format, {bucket}))
  }

  // ----- the invariant -----

  /** Between transactions nothing is staged (every flush exit resets the batch), and foreign keys hold. */
  ghost predicate Valid(s: Sys) {
    Closed(s.db) && forall w | w in s.writers :: w.pendingHours == {} && w.pendingDays == {}
  }

  ghost predicate CarriedBySome(s: Sys, g: Gran, bucket: int, format: string) {
    exists w :: w in s.writers && w.format == format && bucket in Carried(w, g)
  }

  ghost predicate InStep(s: Sys, g: Gran, bucket: int, format: string) {
    forall d: Dimension :: At(TableOf(s, g), Group(bucket, format, d)) == Stored(s, g, Group(bucket, format, d))
  }

  /** The bucket is still to be materialized by some writer of the format, or its stored rows are the
      fold of all that format's ops and session starts in it. */
  ghost predicate Covered(s: Sys, g: Gran, bucket: int, format: string) {
    CarriedBySome(s, g, bucket, format) || InStep(s, g, bucket, format)
  }

  lemma CarriedHere(s: Sys, i: nat, g: Gran, bucket: int)
    requires i < |s.writers| && bucket in Carried(s.writers[i], g)
    ensures CarriedBySome(s, g, bucket, s.writers[i].format)
  {
    assert s.writers[i] in s.writers;
  }

  /** Other writers' marks survive a change of writer i that keeps its format. */
  lemma CarriedElsewhere(s: Sys, s': Sys, i: nat, g: Gran, bucket: int, format: string)
    requires i < |s.writers| && CarriedBySome(s, g, bucket, format)
    requires |s'.writers| == |s.writers| && forall j | 0 <= j < |s.writers| && j != i :: s'.writers[j] == s.writers[j]
    requires !(s.writers[i].format == format && bucket in Carried(s.writers[i], g))
    ensures CarriedBySome(s', g, bucket, format)
  {
    var w :| w in s.writers && w.format == format && bucket in Carried(w, g);
    var j :| 0 <= j < |s.writers| && s.writers[j] == w;
    assert s'.writers[j] in s'.writers;
  }

  lemma {:induction false} MarksAllCover(db: Db, evs: seq<Event>, pricer: Option<Pricer>, format: string, g: Gran, grp: Group)
    requires Closed(db) && OneFormat(db, evs, format) && Spares(db, evs, pricer, g, grp.bucket, grp.format)
    requires !(grp.format == format && grp.bucket in MarksAll(db, evs, pricer, g))
    ensures Fresh(ApplyAll(db, evs, pricer), g, grp) == Fresh(db, g, grp)
    decreases |evs|
  {
    if evs != [] {
      assert evs[0] in evs && !Marked(db, evs[0], pricer, g, grp);
      SparedIsCovered(db, evs[0], pricer, g, grp);
      ClosedIsKept(db, evs[0], pricer);
      FormatIsFixed(db, evs[0], pricer);
      MarksAllCover(Apply(db, evs[0], pricer), evs[1..], pricer, format, g, grp);
    }
  }

  lemma FormatIsFixed(db: Db, ev: Event, pricer: Option<Pricer>)
    ensures forall e :: FormatOf(Apply(db, ev, pricer), e) == FormatOf(db, e)
  {
  }

  lemma {:induction false} ApplyAllKeeps(db: Db, evs: seq<Event>, pricer: Option<Pricer>)
    requires Closed(db)
    ensures Closed(ApplyAll(db, evs, pricer))
    decreases |evs|
  {
    if evs != [] {
      ClosedIsKept(db, evs[0], pricer);
      ApplyAllKeeps(Apply(db, evs[0], pricer), evs[1..], pricer);
    }
  }

  lemma RefreshByAt(s: Sys, i: nat, now: int, g: Gran, grp: Group)
    requires i < |s.writers|
    ensures var w := s.writers[i];
            At(TableOf(RefreshBy(s, i, now), g), grp) ==
            if grp.format == w.format && grp.bucket in Carried(w, g) && grp.bucket < OpenFrom(now, g) then Stored(s, g, grp)
            else At(TableOf(s, g), grp)
  {
    var w := s.writers[i];
    RefreshedAt(s, s.hourly, Hourly, w.format, ClosedOf(w.hours, OpenFrom(now, Hourly)), grp);
    RefreshedAt(s, s.daily, Daily, w.format, ClosedOf(w.days, OpenFrom(now, Daily)), grp);
  }

  /** One refresh-and-commit by writer i: what it no longer carries is stored. */
  lemma CommitCovers(s: Sys, i: nat, now: int, g: Gran, bucket: int, format: string)
    requires i < |s.writers| && Pending(s.writers[i], g) == {}
    requires Covered(s, g, bucket, format)
    ensures var t := RefreshBy(s, i, now); Covered(SetWriter(t, i, Reset(Promote(t.writers[i]))), g, bucket, format)
  {
    var t := RefreshBy(s, i, now);
    var s' := SetWriter(t, i, Reset(Promote(t.writers[i])));
    var w := s.writers[i];
    forall d: Dimension
      ensures Stored(s', g, Group(bucket, format, d)) == Stored(s, g, Group(bucket, format, d))
      ensures At(TableOf(s', g), Group(bucket, format, d)) ==
              if format == w.format && bucket in Carried(w, g) && bucket < OpenFrom(now, g) then Stored(s, g, Group(bucket, format, d))
              else At(TableOf(s, g), Group(bucket, format, d))
    {
      RefreshByAt(s, i, now, g, Group(bucket, format, d));
    }
    if w.format == format && bucket in Carried(w, g) {
      if bucket >= OpenFrom(now, g) {
        CarriedHere(s', i, g, bucket);
      }
    } else if CarriedBySome(s, g, bucket, format) {
      CarriedElsewhere(s, s', i, g, bucket, format);
    }
  }

  /** Applying a batch's rows with its marks: a changed bucket is carried. */
  lemma MarkingCovers(s: Sys, i: nat, evs: seq<Event>, pricer: Option<Pricer>, g: Gran, bucket: int, format: string)
    requires i < |s.writers| && Valid(s) && OneFormat(s.db, evs, s.writers[i].format)
    requires Spares(s.db, evs, pricer, g, bucket, format)
    requires Covered(s, g, bucket, format)
    ensures Covered(BatchBody(s, i, evs, pricer, 0, true), g, bucket, format)
  {
    var s1 := BatchBody(s, i, evs, pricer, 0, true);
    var w := s.writers[i];
    if w.format == format && bucket in Carried(w, g) + MarksAll(s.db, evs, pricer, g) {
      CarriedHere(s1, i, g, bucket);
    } else if CarriedBySome(s, g, bucket, format) {
      CarriedElsewhere(s, s1, i, g, bucket, format);
    } else {
      forall d: Dimension
        ensures Stored(s1, g, Group(bucket, format, d)) == Stored(s, g, Group(bucket, format, d))
      {
        MarksAllCover(s.db, evs, pricer, w.format, g, Group(bucket, format, d));
      }
    }
  }

  /** A rollback keeps the tables and only adds to what the writer carries. */
  lemma RollbackCovers(s: Sys, i: nat, w': Writer, g: Gran, bucket: int, format: string)
    requires i < |s.writers| && Covered(s, g, bucket, format)
    requires w'.format == s.writers[i].format && Carried(s.writers[i], g) <= Carried(w', g)
    ensures Covered(SetWriter(s, i, w'), g, bucket, format)
  {
    var s' := SetWriter(s, i, w');
    if s.writers[i].format == format && bucket in Carried(s.writers[i], g) {
      CarriedHere(s', i, g, bucket);
    } else if CarriedBySome(s, g, bucket, format) {
      CarriedElsewhere(s, s', i, g, bucket, format);
    } else {
      assert forall d: Dimension :: Stored(s', g, Group(bucket, format, d)) == Stored(s, g, Group(bucket, format, d));
    }
  }

  lemma RepairAt(s: Sys, step: Step, g: Gran, grp: Group)
    requires step.Repair? && step.commits
    ensures At(TableOf(Do(s, step), g), grp) == At(TableOf(s, g), grp) || At(TableOf(Do(s, step), g), grp) == Stored(s, g, grp)
  {
    RefreshedAt(s, TableOf(s, step.g), step.g, step.format, {step.bucket}, grp);
    var t := Refreshed(s, TableOf(s, step.g), step.g, step.format, {step.bucket});
    assert TableOf(Do(s, step), g) == if g == step.g then t else TableOf(s, g);
  }

  lemma RepairCovers(s: Sys, step: Step, g: Gran, bucket: int, format: string)
    requires step.Repair? && step.commits && Covered(s, g, bucket, format)
    ensures Covered(Do(s, step), g, bucket, format)
  {
    var s' := Do(s, step);
    assert s'.writers == s.writers && s'.db == s.db && s'.collapse == s.collapse;
    if !CarriedBySome(s, g, bucket, format) {
      forall d: Dimension
        ensures At(TableOf(s', g), Group(bucket, format, d)) == Stored(s', g, Group(bucket, format, d))
      {
        RepairAt(s, step, g, Group(bucket, format, d));
      }
    }
  }

  lemma SuppressedBody(s: Sys, i: nat, evs: seq<Event>, pricer: Option<Pricer>, now: int)
    requires i < |s.writers|
    ensures BatchBody(s, i, evs, pricer, now, true) == BatchBody(s, i, evs, pricer, 0, true)
    ensures BatchBody(s, i, evs, pricer, now, false) == RefreshBy(BatchBody(s, i, evs, pricer, 0, true), i, now)
  {
  }

  /** No step, committed or not, leaves a bucket both forgotten and stale. */
  lemma StepCovers(s: Sys, step: Step, g: Gran, bucket: int, format: string)
    requires Valid(s) && Enabled(s, step) && StepSpares(s, step, g, bucket, format) && Covered(s, g, bucket, format)
    ensures Covered(Do(s, step), g, bucket, format)
  {
    match step
    case Batch(i, evs, pricer, now, suppressed, commits) =>
      SuppressedBody(s, i, evs, pricer, now);
      var s1 := BatchBody(s, i, evs, pricer, 0, true);
      assert s.writers[i] in s.writers;
      if !commits {
        RollbackCovers(s, i, Reset(BatchBody(s, i, evs, pricer, now, suppressed).writers[i]), g, bucket, format);
      } else {
        MarkingCovers(s, i, evs, pricer, g, bucket, format);
        if suppressed {
          assert Reset(Promote(s1.writers[i])) == s1.writers[i];
          assert Do(s, step).writers == s1.writers;
        } else {
          CommitCovers(s1, i, now, g, bucket, format);
        }
      }
    case Idle(i, now, suppressed, commits) =>
      assert s.writers[i] in s.writers;
      if !suppressed {
        if commits {
          CommitCovers(s, i, now, g, bucket, format);
        } else {
          RollbackCovers(s, i, Reset(RefreshBy(s, i, now).writers[i]), g, bucket, format);
        }
      }
    case Repair(_, _, _, commits) =>
      if commits {
        RepairCovers(s, step, g, bucket, format);
      }
  }

  lemma StepKeepsValid(s: Sys, step: Step)
    requires Valid(s) && Enabled(s, step)
    ensures Valid(Do(s, step))
  {
    if step.Batch? {
      ApplyAllKeeps(s.db, step.evs, step.pricer);
    }
  }

  // ----- whole runs -----

  ghost predicate Runs(s: Sys, steps: seq<Step>)
    decreases |steps|
  {
    steps != [] ==> Enabled(s, steps[0]) && Runs(Do(s, steps[0]), steps[1..])
  }

  ghost function RunOf(s: Sys, steps: seq<Step>): Sys
    requires Runs(s, steps)
    decreases |steps|
  {
    if steps == [] then s else RunOf(Do(s, steps[0]), steps[1..])
  }

  /** No event the run commits changes this bucket without marking it. */
  ghost predicate RunSpares(s: Sys, steps: seq<Step>, g: Gran, bucket: int, format: string)
    requires Runs(s, steps)
    decreases |steps|
  {
    steps != [] ==> StepSpares(s, steps[0], g, bucket, format) && RunSpares(Do(s, steps[0]), steps[1..], g, bucket, format)
  }

  /** Over any interleaving of the writers' batches, rollbacks, idle refreshes and repairs, an hour or day of a
      format is carried by a writer or stored right as long as no committed event changes it unmarked. */
  lemma {:induction false} RunCovers(s: Sys, steps: seq<Step>, g: Gran, bucket: int, format: string)
    requires Valid(s) && Runs(s, steps) && RunSpares(s, steps, g, bucket, format) && Covered(s, g, bucket, format)
    ensures Valid(RunOf(s, steps)) && Covered(RunOf(s, steps), g, bucket, format)
    decreases |steps|
  {
    if steps != [] {
      StepKeepsValid(s, steps[0]);
      StepCovers(s, steps[0], g, bucket, format);
      RunCovers(Do(s, steps[0]), steps[1..], g, bucket, format);
    }
  }

  /** An empty store covers everything. */
  lemma EmptyCovers(s: Sys, g: Gran, bucket: int, format: string)
    requires s.db.sessions == map[] && s.db.ops == [] && s.hourly == map[] && s.daily == map[]
    ensures Covered(s, g, bucket, format)
  {
    assert Starts(s.db) == map[];
    forall d: Dimension
      ensures Fresh(s.db, g, Group(bucket, format, d)) == map[]
    {
      var r := Fresh(s.db, g, Group(bucket, format, d));
      if v :| v in r {
        RowsForAt([], map[], g, Slot(Group(bucket, format, d), v));
      }
    }
  }

  lemma CommitForgets(s: Sys, i: nat, now: int, g: Gran, bucket: int)
    requires i < |s.writers| && Pending(s.writers[i], g) == {} && bucket in Carried(s.writers[i], g)
    ensures var t := RefreshBy(s, i, now);
            var s' := SetWriter(t, i, Reset(Promote(t.writers[i])));
            bucket !in Carried(s'.writers[i], g) ==> InStep(s', g, bucket, s.writers[i].format)
  {
    var t := RefreshBy(s, i, now);
    var s' := SetWriter(t, i, Reset(Promote(t.writers[i])));
    var format := s.writers[i].format;
    if bucket !in Carried(s'.writers[i], g) {
      forall d: Dimension
        ensures At(TableOf(s', g), Group(bucket, format, d)) == Stored(s', g, Group(bucket, format, d))
      {
        RefreshByAt(s, i, now, g, Group(bucket, format, d));
        assert Stored(s', g, Group(bucket, format, d)) == Stored(s, g, Group(bucket, format, d));
      }
    }
  }

  /** A bucket is closed at a clock reading exactly when its whole span is over. */
  lemma ClosedIsOver(bucket: int, now: int, g: Gran)
    requires BucketTS(bucket, g) == bucket
    ensures bucket < OpenFrom(now, g) <==> bucket + (if g.Hourly? then 3_600_000_000 else 86_400_000_000) <= now
  {
    BucketIsBucket(now, g);
    BucketBounds(now, g);
    if bucket + Span(g) <= now {
      BucketMonotone(bucket + Span(g), now, g);
      NextBucket(bucket, g);
    } else {
      BucketMonotone(now, bucket + Span(g) - 1, g);
      InBucket(bucket + Span(g) - 1, bucket, g);
    }
  }

  lemma NextHour(bucket: int)
    requires bucket % HOUR_US == 0
    ensures (bucket + HOUR_US) % HOUR_US == 0
  {
  }

  lemma NextDay(bucket: int)
    requires bucket % DAY_US == 0
    ensures (bucket + DAY_US) % DAY_US == 0
  {
  }

  lemma NextBucket(bucket: int, g: Gran)
    requires BucketTS(bucket, g) == bucket
    ensures BucketTS(bucket + Span(g), g) == bucket + Span(g)
  {
    match g
    case Hourly => NextHour(bucket);
    case Daily => NextDay(bucket);
  }

  /** The transaction of a batch or an idle refresh: its rows land exactly when it commits; its writer then
      carries what it carried and marked, less the closed buckets when a committed refresh ran, and those are
      stored right. */
  ghost predicate Ran(s: Sys, i: nat, marks: set<int>, now: int, refreshes: bool, commits: bool, s': Sys, g: Gran)
    requires i < |s.writers| == |s'.writers|
  {
    var w, w' := s.writers[i], s'.writers[i];
    && w'.format == w.format && (forall j | 0 <= j < |s.writers| && j != i :: s'.writers[j] == s.writers[j])
    && (forall b :: b in Carried(w', g) <==> (b in Carried(w, g) || b in marks) && !(refreshes && commits && b < OpenFrom(now, g)))
    && (forall b | (b in Carried(w, g) || b in marks) && b < OpenFrom(now, g) && refreshes && commits :: InStep(s', g, b, w.format))
    && (forall grp: Group ::
          || At(TableOf(s', g), grp) == At(TableOf(s, g), grp)
          || (refreshes && commits && grp.format == w.format && (grp.bucket in Carried(w, g) || grp.bucket in marks) && grp.bucket < OpenFrom(now, g)))
  }

  lemma RefreshRan(s: Sys, i: nat, now: int, g: Gran)
    requires i < |s.writers| && Pending(s.writers[i], g) == {}
    ensures var t := RefreshBy(s, i, now); Ran(s, i, {}, now, true, true, SetWriter(t, i, Reset(Promote(t.writers[i]))), g)
  {
    var t := RefreshBy(s, i, now);
    var s' := SetWriter(t, i, Reset(Promote(t.writers[i])));
    forall grp
      ensures At(TableOf(s', g), grp) == if grp.format == s.writers[i].format && grp.bucket in Carried(s.writers[i], g) && grp.bucket < OpenFrom(now, g)
                                         then Stored(s', g, grp) else At(TableOf(s, g), grp)
    {
      RefreshByAt(s, i, now, g, grp);
      assert Stored(s', g, grp) == Stored(s, g, grp);
    }
  }

  /** s1 is s with these marks added to writer i, in whatever else it differs. */
  ghost predicate MarkedBy(s: Sys, i: nat, marks: set<int>, s1: Sys, g: Gran)
    requires i < |s.writers| == |s1.writers|
  {
    && s1.writers[i].format == s.writers[i].format
    && (forall j | 0 <= j < |s.writers| && j != i :: s1.writers[j] == s.writers[j])
    && (forall b :: b in Carried(s1.writers[i], g) <==> b in Carried(s.writers[i], g) || b in marks)
    && TableOf(s1, g) == TableOf(s, g)
  }

  lemma RanAfterMarks(s: Sys, i: nat, marks: set<int>, s1: Sys, now: int, s': Sys, g: Gran)
    requires i < |s.writers| == |s1.writers| == |s'.writers|
    requires MarkedBy(s, i, marks, s1, g) && Ran(s1, i, {}, now, true, true, s', g)
    ensures Ran(s, i, marks, now, true, true, s', g)
  {
  }

  lemma MarkedBody(s: Sys, i: nat, evs: seq<Event>, pricer: Option<Pricer>, g: Gran)
    requires i < |s.writers|
    ensures MarkedBy(s, i, MarksAll(s.db, evs, pricer, g), BatchBody(s, i, evs, pricer, 0, true), g)
  {
  }

  lemma IdleRuns(s: Sys, step: Step, g: Gran)
    requires Valid(s) && Enabled(s, step) && step.Idle?
    ensures Do(s, step).db == s.db
    ensures Ran(s, step.i, {}, step.now, !step.suppressed, step.commits, Do(s, step), g)
  {
    assert s.writers[step.i] in s.writers;
    if !step.suppressed && step.commits {
      RefreshRan(s, step.i, step.now, g);
    }
  }

  lemma SuppressedRuns(s: Sys, step: Step, g: Gran)
    requires Valid(s) && Enabled(s, step) && step.Batch? && step.suppressed && step.commits
    ensures Ran(s, step.i, MarksAll(s.db, step.evs, step.pricer, g), step.now, false, true, Do(s, step), g)
  {
    assert s.writers[step.i] in s.writers;
    MarkedBody(s, step.i, step.evs, step.pricer, g);
    SuppressedBody(s, step.i, step.evs, step.pricer, step.now);
  }

  lemma RolledBackRuns(s: Sys, step: Step, g: Gran)
    requires Valid(s) && Enabled(s, step) && step.Batch? && !step.commits
    ensures Ran(s, step.i, MarksAll(s.db, step.evs, step.pricer, g), step.now, !step.suppressed, false, Do(s, step), g)
  {
    assert s.writers[step.i] in s.writers;
    MarkedBody(s, step.i, step.evs, step.pricer, g);
    SuppressedBody(s, step.i, step.evs, step.pricer, step.now);
  }

  lemma RefreshedRuns(s: Sys, step: Step, g: Gran)
    requires Valid(s) && Enabled(s, step) && step.Batch? && !step.suppressed && step.commits
    ensures Ran(s, step.i, MarksAll(s.db, step.evs, step.pricer, g), step.now, true, true, Do(s, step), g)
  {
    var i, s1 := step.i, BatchBody(s, step.i, step.evs, step.pricer, 0, true);
    assert s.writers[i] in s.writers;
    SuppressedBody(s, i, step.evs, step.pricer, step.now);
    MarkedBody(s, i, step.evs, step.pricer, g);
    RefreshRan(s1, i, step.now, g);
    RanAfterMarks(s, i, MarksAll(s.db, step.evs, step.pricer, g), s1, step.now, Do(s, step), g);
  }

  /** A batch makes this progress whether or not it refreshes. */
  lemma BatchRuns(s: Sys, step: Step, g: Gran)
    requires Valid(s) && Enabled(s, step) && step.Batch?
    ensures Do(s, step).db == if step.commits then ApplyAll(s.db, step.evs, step.pricer) else s.db
    ensures Ran(s, step.i, MarksAll(s.db, step.evs, step.pricer, g), step.now, !step.suppressed, step.commits, Do(s, step), g)
  {
    if step.commits && !step.suppressed {
      RefreshedRuns(s, step, g);
    } else if step.commits {
      SuppressedRuns(s, step, g);
    } else {
      RolledBackRuns(s, step, g);
    }
  }

  /** A committed repair of one bucket leaves it stored right and every other group alone. */
  lemma RepairRepairs(s: Sys, step: Step, g: Gran, grp: Group)
    requires step.Repair?
    ensures Do(s, step).db == s.db && Do(s, step).writers == s.writers
    ensures At(TableOf(Do(s, step), g), grp) ==
            if step.commits && g == step.g && grp.bucket == step.bucket && grp.format == step.format then Stored(s, g, grp)
            else At(TableOf(s, g), grp)
  {
    if step.commits && g == step.g {
      RefreshedAt(s, TableOf(s, g), g, step.format, {step.bucket}, grp);
      assert TableOf(Do(s, step), g) == Refreshed(s, TableOf(s, g), g, step.format, {step.bucket});
    }
  }

  /** A writer forgets a bucket only in a committed transaction that leaves the bucket stored right. */
  lemma ForgottenIsStored(s: Sys, step: Step, i: nat, g: Gran, bucket: int)
    requires Valid(s) && Enabled(s, step) && i < |s.writers|
    requires bucket in Carried(s.writers[i], g) && bucket !in Carried(Do(s, step).writers[i], g)
    ensures !step.Repair? && step.commits && step.i == i && InStep(Do(s, step), g, bucket, s.writers[i].format)
  {
    assert s.writers[i] in s.writers;
    match step
    case Batch(j, evs, pricer, now, suppressed, commits) =>
      SuppressedBody(s, j, evs, pricer, now);
      if j == i && commits && !suppressed {
        CommitForgets(BatchBody(s, i, evs, pricer, 0, true), i, now, g, bucket);
      }
    case Idle(j, now, suppressed, commits) =>
      if j == i && commits && !suppressed {
        CommitForgets(s, i, now, g, bucket);
      }
    case Repair(_, _, _, _) =>
  }

  // ----- a flush exit that does not reset -----

  /** The coalescer's error path: the transaction rolls back but the batch state is not reset, so what
      the failed attempt had staged stays staged (internal/ingest/coalescer.go:341-348). */
  ghost function RollbackWithoutReset(s: Sys, i: nat, now: int): Sys
    requires i < |s.writers|
  {
    SetWriter(s, i, RefreshBy(s, i, now).writers[i])
  }

  /** The retry, committed. */
  ghost function Retry(s: Sys, i: nat, now: int, suppressed: bool): Sys
    requires i < |s.writers|
  {
    var t := if suppressed then s else RefreshBy(s, i, now);
    SetWriter(t, i, Reset(Promote(t.writers[i])))
  }

  /** Take a closed, stale bucket that only writer i carries, and a failed attempt that is not reset. If
      the retry refreshes, the bucket ends up stored; if read-model refresh is suppressed by then, the
      retry forgets the bucket without ever having stored it. */
  lemma RetryWithoutReset(s: Sys, i: nat, now: int, suppressed: bool, g: Gran, bucket: int)
    requires Valid(s) && i < |s.writers|
    requires bucket in Carried(s.writers[i], g) && bucket < OpenFrom(now, g)
    requires forall j | 0 <= j < |s.writers| && j != i :: s.writers[j].format == s.writers[i].format ==> bucket !in Carried(s.writers[j], g)
    requires !InStep(s, g, bucket, s.writers[i].format)
    ensures Covered(s, g, bucket, s.writers[i].format)
    ensures Covered(Retry(RollbackWithoutReset(s, i, now), i, now, suppressed), g, bucket, s.writers[i].format) <==> !suppressed
  {
    var format := s.writers[i].format;
    assert s.writers[i] in s.writers;
    CarriedHere(s, i, g, bucket);
    var failed := RollbackWithoutReset(s, i, now);
    var done := Retry(failed, i, now, suppressed);
    forall d: Dimension
      ensures Stored(done, g, Group(bucket, format, d)) == Stored(failed, g, Group(bucket, format, d)) == Stored(s, g, Group(bucket, format, d))
      ensures !suppressed ==> At(TableOf(done, g), Group(bucket, format, d)) == Stored(s, g, Group(bucket, format, d))
    {
      RefreshByAt(failed, i, now, g, Group(bucket, format, d));
    }
    if suppressed {
      assert bucket !in Carried(done.writers[i], g);
      assert !CarriedBySome(done, g, bucket, format);
    }
  }
}
