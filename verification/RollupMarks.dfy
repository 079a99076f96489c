/** Which rollup buckets one canonical event changes, and which ones the writer marks
    (internal/ingest/writer.go). */
module RollupMarks {
  import opened Options
  import opened Scalars
  import opened PrimaryRows
  import opened OrderedRows
  import opened RollupRows

  /** captured says the row's extras carry real source metadata ($.capturePayloads). */
  datatype Session = Session(agent: string, cwd: string, startTs: int, captured: bool)

  /** The primary tables a rollup reads. hash gives the row ids' text order, formatOf the sources table. */
  datatype Db = Db(
    sessions: map<SessionId, Session>,
    ops: seq<OpRow>,
    hash: OpId -> nat,
    formatOf: string -> string)

  datatype Event =
    | SessionStarted(id: SessionId, ts: int, agent: string, cwd: string, synthetic: bool, captured: bool)
    | SessionUpdated(id: SessionId, ts: int, agent: string, cwd: string, capturedPatch: Option<bool>)
    | OpBegan(began: OpStarted)
    | OpEnded(ended: OpFinalized)
      // session finalized, turn started, turn finalized, payload ref, log entry
    | Touched(id: SessionId, ts: int)

  /** Foreign keys: every op's session is there. */
  ghost predicate Closed(db: Db) {
    UniqueIds(db.ops) && forall row | row in db.ops :: row.id.turn.session in db.sessions
  }

  // ----- the event's effect on the primary tables -----

  function RequireSession(sessions: map<SessionId, Session>, id: SessionId, ts: int): map<SessionId, Session> {
    if id in sessions then sessions else sessions[id := Session("", "", ts, false)]
  }

  function StartedSession(old_: Session, ev: Event): Session
    requires ev.SessionStarted?
  {
    var keep := ev.synthetic && old_.captured;
    Session(if keep then old_.agent else Coalesce(ev.agent, old_.agent),
            if keep then old_.cwd else Coalesce(ev.cwd, old_.cwd),
            Min(old_.startTs, ev.ts),
            keep || ev.captured)
  }

  function Apply(db: Db, ev: Event, pricer: Option<Pricer>): Db {
    match ev
    case SessionStarted(id, ts, agent, cwd, _, captured) =>
      db.(sessions := db.sessions[id := if id in db.sessions then StartedSession(db.sessions[id], ev) else Session(agent, cwd, ts, captured)])
    case SessionUpdated(id, ts, agent, cwd, patch) =>
      var sessions := RequireSession(db.sessions, id, ts);
      var s := sessions[id];
      db.(sessions := sessions[id := Session(Coalesce(agent, s.agent), Coalesce(cwd, s.cwd), s.startTs,
                                             if patch.Some? then patch.value else s.captured)])
    case OpBegan(e) =>
      db.(sessions := RequireSession(db.sessions, e.op.turn.session, e.ts), ops := UpsertStarted(db.ops, e))
    case OpEnded(e) =>
      db.(sessions := RequireSession(db.sessions, e.op.turn.session, e.ts), ops := UpdateFinalized(db.ops, e, pricer))
    case Touched(id, ts) =>
      db.(sessions := RequireSession(db.sessions, id, ts))
  }

  ghost function SessionTimes(db: Db, id: SessionId): set<int> {
    (if id in db.sessions then {db.sessions[id].startTs} else {})
    + (set row | row in db.ops && row.id.turn.session == id :: row.startTs)
  }

  /** The timestamps handed to markDirtyRollupBucket while the event is applied. */
  ghost function MarkedTimes(db: Db, ev: Event, pricer: Option<Pricer>): set<int> {
    match ev
    case SessionStarted(id, ts, agent, cwd, _, _) =>
      {ts}
      + (if id in db.sessions && (agent != "" || cwd != "") then SessionTimes(Apply(db, ev, pricer), id) else {})
      + (if id in db.sessions && ts < db.sessions[id].startTs then {db.sessions[id].startTs} else {})
    case SessionUpdated(id, ts, agent, cwd, _) =>
      if agent != "" || cwd != "" then SessionTimes(Apply(db, ev, pricer), id) else {}
    case OpBegan(e) => {e.ts}
    case OpEnded(e) => var row := Lookup(db.ops, e.op); if row.Some? then {row.value.startTs} else {}
    case Touched(_, _) => {}
  }

  function SessionOf(ev: Event): SessionId {
    match ev
    case OpBegan(e) => e.op.turn.session
    case OpEnded(e) => e.op.turn.session
    case _ => ev.id
  }

  /** The source format the event's rows are counted under. */
  function FormatOf(db: Db, ev: Event): string { db.formatOf(SessionOf(ev).source) }

  ghost function Buckets(times: set<int>, g: Gran): set<int> {
    set ts | ts in times :: BucketTS(ts, g)
  }

  ghost function Marks(db: Db, ev: Event, pricer: Option<Pricer>, g: Gran): set<int> {
    Buckets(MarkedTimes(db, ev, pricer), g)
  }

  // ----- what a group's rows are, over the tables -----

  function FactOf(db: Db, row: OpRow): OpFact {
    var id := row.id.turn.session;
    if id in db.sessions then OpFact(row, db.formatOf(id.source), db.sessions[id].agent, db.sessions[id].cwd)
    else OpFact(row, db.formatOf(id.source), "", "")
  }

  /** ops JOIN sessions JOIN sources, in rowid order. */
  function Joined(db: Db): (r: seq<OpFact>)
    ensures |r| == |db.ops|
  {
    seq(|db.ops|, i requires 0 <= i < |db.ops| => FactOf(db, db.ops[i]))
  }

  function Order(db: Db): OpFact -> SortKey {
    (f: OpFact) => (f.op.startTs, db.hash(f.op.id))
  }

  function Starts(db: Db): map<SessionId, StartFact> {
    map id | id in db.sessions :: StartFact(db.sessions[id].startTs, db.formatOf(id.source), db.sessions[id].agent, db.sessions[id].cwd)
  }

  /** The ops of every source, in (start_ts, id) order. */
  ghost function Facts(db: Db): seq<OpFact> { Sort(Order(db), Joined(db)) }

  /** The rows of a group by their definition: the ordered fold over all of the group's ops and starts. */
  ghost function Fresh(db: Db, g: Gran, grp: Group): Rows {
    RowsFor(Sort(Order(db), Joined(db)), Starts(db), g, grp)
  }

  lemma FreshOfCell(db: Db, g: Gran, grp: Group)
    ensures var p := (f: OpFact) => OpIn(f, g, grp.bucket, grp.format);
            Fresh(db, g, grp) == RowsFor(Sort(Order(db), Filter(p, Joined(db))), StartsIn(Starts(db), g, grp.bucket, grp.format), g, grp)
  {
    var p := (f: OpFact) => OpIn(f, g, grp.bucket, grp.format);
    FilterSort(p, Order(db), Joined(db));
    var cell := StartsIn(Starts(db), g, grp.bucket, grp.format);
    assert StartsIn(cell, g, grp.bucket, grp.format) == cell;
    RowsForCell(Sort(Order(db), Joined(db)), Starts(db), g, grp, p, cell);
  }

  /** If neither the ops nor the session starts of a bucket and format changed, neither did its rows. */
  lemma FreshUnchanged(db: Db, db': Db, g: Gran, grp: Group)
    requires db'.hash == db.hash
    requires var p := (f: OpFact) => OpIn(f, g, grp.bucket, grp.format);
             Filter(p, Joined(db')) == Filter(p, Joined(db))
    requires StartsIn(Starts(db'), g, grp.bucket, grp.format) == StartsIn(Starts(db), g, grp.bucket, grp.format)
    ensures Fresh(db', g, grp) == Fresh(db, g, grp)
  {
    FreshOfCell(db, g, grp);
    FreshOfCell(db', g, grp);
    assert Order(db) == Order(db');
  }

  // ----- marks cover changes: exactly when -----

  /** The event marked the bucket of this group, in the group's format. */
  ghost predicate Marked(db: Db, ev: Event, pricer: Option<Pricer>, g: Gran, grp: Group) {
    grp.bucket in Marks(db, ev, pricer, g) && grp.format == FormatOf(db, ev)
  }

  /** Every group the event changes is marked. */
  ghost predicate MarksCover(db: Db, ev: Event, pricer: Option<Pricer>) {
    forall g, grp | Fresh(Apply(db, ev, pricer), g, grp) != Fresh(db, g, grp) :: Marked(db, ev, pricer, g, grp)
  }

  /** The event creates a session stub on a path that marks nothing. */
  predicate UnmarkedStub(db: Db, ev: Event) {
    match ev
    case SessionUpdated(id, _, agent, cwd, _) => id !in db.sessions && agent == "" && cwd == ""
    case OpEnded(e) => e.op.turn.session !in db.sessions
    case Touched(id, _) => id !in db.sessions
    case _ => false
  }

  predicate SameDims(a: OpFact, b: OpFact) {
    forall d: Dimension :: OpDim(a, d) == OpDim(b, d)
  }

  /** A re-emitted op start names another hour than the stored one, and either moves the op there or
      changes a dimension it is counted under. */
  predicate UnmarkedMove(db: Db, ev: Event) {
    if !ev.OpBegan? then false
    else
      var row := Lookup(db.ops, ev.began.op);
      && row.Some?
      && BucketTS(ev.began.ts, Hourly) != BucketTS(row.value.startTs, Hourly)
      && (ev.began.ts < row.value.startTs
          || !SameDims(FactOf(db, row.value), FactOf(db, RestartedRow(row.value, ev.began))))
  }

  /** Where a stub made by the event starts. */
  function StubTime(ev: Event): int { if ev.OpBegan? then ev.began.ts else if ev.OpEnded? then ev.ended.ts else ev.ts }

  /** The event changes this bucket of the format without marking it: a stub starts in it, or an op in it is
      re-emitted from a bucket that is not it. */
  predicate LeavesStale(db: Db, ev: Event, g: Gran, bucket: int, format: string) {
    && FormatOf(db, ev) == format
    && ((UnmarkedStub(db, ev) && bucket == BucketTS(StubTime(ev), g))
        || (UnmarkedMove(db, ev) && bucket == BucketTS(Lookup(db.ops, ev.began.op).value.startTs, g) != BucketTS(ev.began.ts, g)))
  }

  lemma ClosedIsKept(db: Db, ev: Event, pricer: Option<Pricer>)
    requires Closed(db)
    ensures Closed(Apply(db, ev, pricer))
    ensures db.sessions.Keys <= Apply(db, ev, pricer).sessions.Keys
  {
    var db' := Apply(db, ev, pricer);
    forall row | row in db'.ops
      ensures row.id.turn.session in db'.sessions
    {
      match ev
      case OpBegan(e) =>
        var i := Find(db.ops, e.op);
        if row !in db.ops { assert row == db'.ops[i]; }
      case OpEnded(e) =>
        var i := Find(db.ops, e.op);
        if row !in db.ops { assert row == db'.ops[i] && db.ops[i] in db.ops; }
      case _ =>
    }
  }

  ghost predicate StartsDifferOutside(a: map<SessionId, StartFact>, b: map<SessionId, StartFact>, g: Gran, grp: Group) {
    forall id | id in a || id in b ::
      || (id in a && id in b && a[id] == b[id])
      || ((id in a ==> !StartIn(a[id], g, grp.bucket, grp.format)) && (id in b ==> !StartIn(b[id], g, grp.bucket, grp.format)))
  }

  lemma StartsOutside(a: map<SessionId, StartFact>, b: map<SessionId, StartFact>, g: Gran, grp: Group)
    requires StartsDifferOutside(a, b, g, grp)
    ensures StartsIn(a, g, grp.bucket, grp.format) == StartsIn(b, g, grp.bucket, grp.format)
  {
  }

  lemma FactsOutside(a: seq<OpFact>, b: seq<OpFact>, p: OpFact -> bool)
    requires |a| <= |b|
    requires forall i | 0 <= i < |a| :: b[i] == a[i] || (!p(b[i]) && !p(a[i]))
    requires forall i | |a| <= i < |b| :: !p(b[i])
    ensures Filter(p, b) == Filter(p, a)
  {
    var n := |a|;
    assert b == b[..n] + b[n..];
    FilterAppend(p, b[..n], b[n..]);
    FilterSame(p, a, b[..n]);
    FilterNone(p, b[n..]);
  }

  /** A change confined to facts and starts outside the bucket and format leaves the group alone. */
  lemma OutsideBucket(db: Db, db': Db, g: Gran, grp: Group)
    requires |db.ops| <= |db'.ops| && db'.hash == db.hash
    requires forall i | 0 <= i < |db.ops| ::
               || FactOf(db', db'.ops[i]) == FactOf(db, db.ops[i])
               || (!OpIn(FactOf(db', db'.ops[i]), g, grp.bucket, grp.format) && !OpIn(FactOf(db, db.ops[i]), g, grp.bucket, grp.format))
    requires forall i | |db.ops| <= i < |db'.ops| :: !OpIn(FactOf(db', db'.ops[i]), g, grp.bucket, grp.format)
    requires StartsDifferOutside(Starts(db), Starts(db'), g, grp)
    ensures Fresh(db', g, grp) == Fresh(db, g, grp)
  {
    var p := (f: OpFact) => OpIn(f, g, grp.bucket, grp.format);
    FactsOutside(Joined(db), Joined(db'), p);
    StartsOutside(Starts(db), Starts(db'), g, grp);
    FreshUnchanged(db, db', g, grp);
  }

  lemma SameHourSameBucket(a: int, b: int, g: Gran)
    requires BucketTS(a, Hourly) == BucketTS(b, Hourly)
    ensures BucketTS(a, g) == BucketTS(b, g)
  {
    DayOfHour(a);
    DayOfHour(b);
  }

  /** A session start that appears, moves or is relabelled has its bucket marked. */
  lemma UnmarkedStarts(db: Db, ev: Event, pricer: Option<Pricer>, g: Gran, grp: Group)
    requires Closed(db) && !LeavesStale(db, ev, g, grp.bucket, grp.format)
    requires !Marked(db, ev, pricer, g, grp)
    ensures StartsDifferOutside(Starts(db), Starts(Apply(db, ev, pricer)), g, grp)
  {
    assert forall ts | ts in MarkedTimes(db, ev, pricer) :: BucketTS(ts, g) in Marks(db, ev, pricer, g);
    var id := SessionOf(ev);
    if id !in db.sessions {
      NewStart(db, ev, pricer, g, grp);
    } else {
      assert forall x | x != id :: x in Apply(db, ev, pricer).sessions <==> x in db.sessions;
    }
  }

  /** The start of a session the event creates is marked, or is no stub left stale in this group. */
  lemma NewStart(db: Db, ev: Event, pricer: Option<Pricer>, g: Gran, grp: Group)
    requires !LeavesStale(db, ev, g, grp.bucket, grp.format) && !Marked(db, ev, pricer, g, grp)
    requires SessionOf(ev) !in db.sessions
    ensures !StartIn(Starts(Apply(db, ev, pricer))[SessionOf(ev)], g, grp.bucket, grp.format)
  {
    assert StubTime(ev) in MarkedTimes(db, ev, pricer) || UnmarkedStub(db, ev);
  }

  lemma CoverSession(db: Db, ev: Event, pricer: Option<Pricer>, g: Gran, grp: Group)
    requires Closed(db) && !LeavesStale(db, ev, g, grp.bucket, grp.format) && !ev.OpBegan? && !ev.OpEnded?
    requires !Marked(db, ev, pricer, g, grp)
    ensures Fresh(Apply(db, ev, pricer), g, grp) == Fresh(db, g, grp)
  {
    var db' := Apply(db, ev, pricer);
    var times := MarkedTimes(db, ev, pricer);
    assert forall ts | ts in times :: BucketTS(ts, g) in Marks(db, ev, pricer, g);
    assert db'.ops == db.ops;
    forall i | 0 <= i < |db.ops|
      ensures FactOf(db', db.ops[i]) == FactOf(db, db.ops[i]) || !OpIn(FactOf(db, db.ops[i]), g, grp.bucket, grp.format)
    {
      var row := db.ops[i];
      assert row in db.ops && row.id.turn.session in db.sessions;
      if FactOf(db', row) != FactOf(db, row) {
        assert row.startTs in SessionTimes(db', ev.id);
        assert row.startTs in times;
      }
    }
    UnmarkedStarts(db, ev, pricer, g, grp);
    OutsideBucket(db, db', g, grp);
  }

  lemma CoverRestarted(db: Db, ev: Event, pricer: Option<Pricer>, g: Gran, grp: Group)
    requires Closed(db) && !LeavesStale(db, ev, g, grp.bucket, grp.format) && ev.OpBegan? && Lookup(db.ops, ev.began.op).Some?
    requires !Marked(db, ev, pricer, g, grp)
    ensures Fresh(Apply(db, ev, pricer), g, grp) == Fresh(db, g, grp)
  {
    var db', e, i := Apply(db, ev, pricer), ev.began, Find(db.ops, ev.began.op);
    var row := db.ops[i];
    assert e.ts in MarkedTimes(db, ev, pricer);
    assert row in db.ops && db'.sessions == db.sessions;
    if !OpIn(FactOf(db, row), g, grp.bucket, grp.format) {
      OutsideBucket(db, db', g, grp);
    } else {
      if BucketTS(e.ts, Hourly) == BucketTS(row.startTs, Hourly) {
        SameHourSameBucket(e.ts, row.startTs, g);
        assert false;
      }
      assert AlikeSeq(Joined(db), Joined(db'));
      SameDimsSameRows(db, db', g, grp);
    }
  }

  lemma CoverBegan(db: Db, ev: Event, pricer: Option<Pricer>, g: Gran, grp: Group)
    requires Closed(db) && !LeavesStale(db, ev, g, grp.bucket, grp.format) && ev.OpBegan?
    requires !Marked(db, ev, pricer, g, grp)
    ensures Fresh(Apply(db, ev, pricer), g, grp) == Fresh(db, g, grp)
  {
    if Lookup(db.ops, ev.began.op).Some? {
      CoverRestarted(db, ev, pricer, g, grp);
    } else {
      var db' := Apply(db, ev, pricer);
      assert ev.began.ts in MarkedTimes(db, ev, pricer);
      FactsOfOthers(db, db');
      OutsideBucket(db, db', g, grp);
    }
  }

  /** Adding a session changes no stored op's fact: its session was there already. */
  lemma FactsOfOthers(db: Db, db': Db)
    requires Closed(db) && db'.formatOf == db.formatOf
    requires forall id | id in db.sessions :: id in db'.sessions && db'.sessions[id] == db.sessions[id]
    ensures forall row | row in db.ops :: FactOf(db', row) == FactOf(db, row)
  {
  }

  lemma CoverEnded(db: Db, ev: Event, pricer: Option<Pricer>, g: Gran, grp: Group)
    requires Closed(db) && !LeavesStale(db, ev, g, grp.bucket, grp.format) && ev.OpEnded?
    requires !Marked(db, ev, pricer, g, grp)
    ensures Fresh(Apply(db, ev, pricer), g, grp) == Fresh(db, g, grp)
  {
    var db', i := Apply(db, ev, pricer), Find(db.ops, ev.ended.op);
    FactsOfOthers(db, db');
    UnmarkedStarts(db, ev, pricer, g, grp);
    if i < |db.ops| {
      assert db.ops[i] in db.ops && db.ops[i].startTs in MarkedTimes(db, ev, pricer);
    }
    OutsideBucket(db, db', g, grp);
  }

  // ----- an identity change that moves the op between no dimensions -----

  /** Same place in every order and every row, same measures: only identity columns differ. */
  ghost predicate Alike(x: OpFact, y: OpFact) {
    && x.format == y.format && SameDims(x, y)
    && y.op == x.op.(kind := y.op.kind, name := y.op.name, toolNamespace := y.op.toolNamespace, model := y.op.model,
                     provider := y.op.provider, providerAlias := y.op.providerAlias)
  }

  ghost predicate AlikeSeq(a: seq<OpFact>, b: seq<OpFact>) {
    |a| == |b| && forall i | 0 <= i < |a| :: Alike(a[i], b[i])
  }

  lemma {:induction false} AlikeInsert(db: Db, x: OpFact, y: OpFact, a: seq<OpFact>, b: seq<OpFact>)
    requires Alike(x, y) && AlikeSeq(a, b)
    ensures AlikeSeq(Insert(Order(db), x, a), Insert(Order(db), y, b))
  {
    if a != [] && !Below(Order(db)(x), Order(db)(a[0])) {
      AlikeInsert(db, x, y, a[1..], b[1..]);
    }
  }

  lemma {:induction false} AlikeSort(db: Db, a: seq<OpFact>, b: seq<OpFact>)
    requires AlikeSeq(a, b)
    ensures AlikeSeq(Sort(Order(db), a), Sort(Order(db), b))
  {
    if a != [] {
      AlikeSort(db, a[1..], b[1..]);
      AlikeInsert(db, a[0], b[0], Sort(Order(db), a[1..]), Sort(Order(db), b[1..]));
    }
  }

  lemma {:induction false} AlikeFold(a: seq<OpFact>, b: seq<OpFact>, s: Slot, g: Gran, acc: Metrics)
    requires AlikeSeq(a, b)
    ensures Fold(a, s, g, acc) == Fold(b, s, g, acc)
  {
    if a != [] {
      AlikeFold(a[1..], b[1..], s, g, if OpHits(a[0], g, s) then AddOp(acc, a[0].op) else acc);
    }
  }

  lemma AlikeHits(a: seq<OpFact>, b: seq<OpFact>, s: Slot, g: Gran)
    requires AlikeSeq(a, b)
    ensures (exists f | f in a :: OpHits(f, g, s)) ==> (exists f | f in b :: OpHits(f, g, s))
  {
    if f :| f in a && OpHits(f, g, s) {
      var i :| 0 <= i < |a| && a[i] == f;
      assert b[i] in b && OpHits(b[i], g, s);
    }
  }

  lemma AlikeRow(a: seq<OpFact>, b: seq<OpFact>, starts: map<SessionId, StartFact>, g: Gran, s: Slot)
    requires AlikeSeq(a, b)
    ensures s in SlotsHit(a, starts, g) <==> s in SlotsHit(b, starts, g)
    ensures RowAt(a, starts, s, g) == RowAt(b, starts, s, g)
  {
    AlikeFold(a, b, s, g, NoMetrics());
    HitIff(a, starts, s, g);
    HitIff(b, starts, s, g);
    AlikeHits(a, b, s, g);
    AlikeHits(b, a, s, g);
  }

  lemma AlikeRows(a: seq<OpFact>, b: seq<OpFact>, starts: map<SessionId, StartFact>, g: Gran, grp: Group)
    requires AlikeSeq(a, b)
    ensures RowsFor(a, starts, g, grp) == RowsFor(b, starts, g, grp)
  {
    forall v: string
      ensures v in RowsFor(a, starts, g, grp) <==> v in RowsFor(b, starts, g, grp)
      ensures v in RowsFor(a, starts, g, grp) ==> RowsFor(a, starts, g, grp)[v] == RowsFor(b, starts, g, grp)[v]
    {
      AlikeRow(a, b, starts, g, Slot(grp, v));
      RowsForAt(a, starts, g, Slot(grp, v));
      RowsForAt(b, starts, g, Slot(grp, v));
    }
  }

  lemma SameDimsSameRows(db: Db, db': Db, g: Gran, grp: Group)
    requires db'.hash == db.hash && Starts(db') == Starts(db)
    requires AlikeSeq(Joined(db), Joined(db'))
    ensures Fresh(db', g, grp) == Fresh(db, g, grp)
  {
    AlikeSort(db, Joined(db), Joined(db'));
    assert Order(db) == Order(db');
    AlikeRows(Sort(Order(db), Joined(db)), Sort(Order(db), Joined(db')), Starts(db), g, grp);
  }

  // ----- the two ways a change goes unmarked -----

  ghost function OpCountAt(db: Db, g: Gran, s: Slot): int {
    if s.dimValue in Fresh(db, g, s.group) then Fresh(db, g, s.group)[s.dimValue].opCount else 0
  }

  lemma CountOfRow(db: Db, g: Gran, s: Slot)
    ensures OpCountAt(db, g, s) == |Filter((f: OpFact) => OpHits(f, g, s), Joined(db))|
  {
    var p := (f: OpFact) => OpHits(f, g, s);
    var sorted := Sort(Order(db), Joined(db));
    FilterSort(p, Order(db), Joined(db));
    SortSorts(Order(db), Filter(p, Joined(db)));
    FoldCounts(sorted, s, g, NoMetrics());
    assert p == ((f: OpFact) => OpHits(f, g, s));
    assert |Filter(p, sorted)| == |Filter(p, Joined(db))|;
    RowsForAt(sorted, Starts(db), g, s);
    HitIff(sorted, Starts(db), s, g);
    if s !in SlotsHit(sorted, Starts(db), g) {
      FilterNone(p, sorted);
    }
  }

  /** One op in place of another shows in a row that only one of them is counted in. */
  lemma ReplacedOpShows(db: Db, db': Db, i: nat, b: OpFact, g: Gran, s: Slot)
    requires i < |db.ops| && Joined(db') == Joined(db)[i := b]
    requires OpHits(Joined(db)[i], g, s) != OpHits(b, g, s)
    ensures Fresh(db', g, s.group) != Fresh(db, g, s.group)
  {
    CountOfRow(db, g, s);
    CountOfRow(db', g, s);
    FilterCountUpdate((x: OpFact) => OpHits(x, g, s), Joined(db), i, b);
  }

  /** The event changes rows of this bucket and does not mark it. */
  ghost predicate MissesBucket(db: Db, ev: Event, pricer: Option<Pricer>, g: Gran, bucket: int, format: string) {
    exists d: Dimension ::
      && Fresh(Apply(db, ev, pricer), g, Group(bucket, format, d)) != Fresh(db, g, Group(bucket, format, d))
      && !Marked(db, ev, pricer, g, Group(bucket, format, d))
  }

  /** A re-emit from another bucket that moves the op, or changes where it counts, leaves the op's bucket stale. */
  lemma MoveIsUnmarked(db: Db, ev: Event, pricer: Option<Pricer>, g: Gran)
    requires Closed(db) && UnmarkedMove(db, ev)
    requires BucketTS(ev.began.ts, g) != BucketTS(Lookup(db.ops, ev.began.op).value.startTs, g)
    ensures MissesBucket(db, ev, pricer, g, BucketTS(Lookup(db.ops, ev.began.op).value.startTs, g), FormatOf(db, ev))
  {
    var e, i, db' := ev.began, Find(db.ops, ev.began.op), Apply(db, ev, pricer);
    assert db.ops[i] in db.ops;
    var a, b := FactOf(db, db.ops[i]), FactOf(db', db'.ops[i]);
    var d: Dimension :| e.ts < a.op.startTs || OpDim(a, d) != OpDim(b, d);
    var dim := if e.ts < a.op.startTs then Total else d;
    var f := if OpDim(a, dim).Some? then a else b;
    var s := Slot(Group(BucketTS(a.op.startTs, g), a.format, dim), OpDim(f, dim).value);
    ReplacedOpShows(db, db', i, b, g, s);
    assert s.group.bucket !in Marks(db, ev, pricer, g);
  }

  ghost function StartCountAt(db: Db, g: Gran, s: Slot): int {
    if s.dimValue in Fresh(db, g, s.group) then Fresh(db, g, s.group)[s.dimValue].sessionStarts else 0
  }

  lemma StartCountOfRow(db: Db, g: Gran, s: Slot)
    ensures StartCountAt(db, g, s) == |StartsAt(Starts(db), s, g)|
  {
    var facts := Sort(Order(db), Joined(db));
    RowsForAt(facts, Starts(db), g, s);
    HitIff(facts, Starts(db), s, g);
  }

  /** One more session starting in a bucket is one more in its total row. */
  lemma NewSessionShows(db: Db, db': Db, id: SessionId, f: StartFact, g: Gran)
    requires id !in Starts(db) && Starts(db') == Starts(db)[id := f]
    ensures var grp := Group(BucketTS(f.ts, g), f.format, Total); Fresh(db', g, grp) != Fresh(db, g, grp)
  {
    var s := Slot(Group(BucketTS(f.ts, g), f.format, Total), "");
    assert StartsAt(Starts(db'), s, g) == StartsAt(Starts(db), s, g) + {id};
    StartCountOfRow(db, g, s);
    StartCountOfRow(db', g, s);
  }

  /** A stub made on a path that marks nothing leaves its start bucket one session short. */
  lemma StubIsUnmarked(db: Db, ev: Event, pricer: Option<Pricer>, g: Gran)
    requires Closed(db) && UnmarkedStub(db, ev)
    ensures MissesBucket(db, ev, pricer, g, BucketTS(StubTime(ev), g), FormatOf(db, ev))
  {
    var db', id := Apply(db, ev, pricer), SessionOf(ev);
    assert Starts(db') == Starts(db)[id := Starts(db')[id]];
    NewSessionShows(db, db', id, Starts(db')[id], g);
    if ev.OpEnded? {
      assert forall j | 0 <= j < |db.ops| :: db.ops[j] in db.ops && db.ops[j].id != ev.ended.op;
    }
    assert Marks(db, ev, pricer, g) == {};
  }

  lemma SparedIsCovered(db: Db, ev: Event, pricer: Option<Pricer>, g: Gran, grp: Group)
    requires Closed(db) && !LeavesStale(db, ev, g, grp.bucket, grp.format) && !Marked(db, ev, pricer, g, grp)
    ensures Fresh(Apply(db, ev, pricer), g, grp) == Fresh(db, g, grp)
  {
    if ev.OpBegan? {
      CoverBegan(db, ev, pricer, g, grp);
    } else if ev.OpEnded? {
      CoverEnded(db, ev, pricer, g, grp);
    } else {
      CoverSession(db, ev, pricer, g, grp);
    }
  }

  /** Bucket by bucket: an event changes a bucket that it does not mark exactly when it makes an unmarked stub
      there or an unmarked move from there. */
  lemma MarksBucketExactly(db: Db, ev: Event, pricer: Option<Pricer>, g: Gran, bucket: int, format: string)
    requires Closed(db)
    ensures MissesBucket(db, ev, pricer, g, bucket, format) <==> LeavesStale(db, ev, g, bucket, format)
  {
    if LeavesStale(db, ev, g, bucket, format) {
      if UnmarkedStub(db, ev) {
        StubIsUnmarked(db, ev, pricer, g);
      } else {
        MoveIsUnmarked(db, ev, pricer, g);
      }
    } else {
      forall d: Dimension | !Marked(db, ev, pricer, g, Group(bucket, format, d))
        ensures Fresh(Apply(db, ev, pricer), g, Group(bucket, format, d)) == Fresh(db, g, Group(bucket, format, d))
      {
        SparedIsCovered(db, ev, pricer, g, Group(bucket, format, d));
      }
    }
  }

  /** An event marks every bucket whose rows it changes, unless it makes an unmarked stub or an unmarked
      move; and then it always misses one. */
  lemma MarksCoverExactly(db: Db, ev: Event, pricer: Option<Pricer>)
    requires Closed(db)
    ensures MarksCover(db, ev, pricer) <==> !UnmarkedStub(db, ev) && !UnmarkedMove(db, ev)
  {
    if UnmarkedStub(db, ev) {
      StubIsUnmarked(db, ev, pricer, Hourly);
    } else if UnmarkedMove(db, ev) {
      MoveIsUnmarked(db, ev, pricer, Hourly);
    } else {
      forall g, grp: Group | !Marked(db, ev, pricer, g, grp)
        ensures Fresh(Apply(db, ev, pricer), g, grp) == Fresh(db, g, grp)
      {
        SparedIsCovered(db, ev, pricer, g, grp);
      }
    }
  }
}
