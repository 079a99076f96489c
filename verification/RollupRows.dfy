/** The pure rollup fold (internal/rollups/rollups.go) and the group-by it defines per bucket.

    Cost is summed in floating point, where the order of additions matters. Here a cost is the term of
    additions performed, so two equal costs are equal under any addition, associative or not. The R1
    tail-collapse works on one (bucket, format, dimension) group at a time; it is a parameter. */
module RollupRows {
  import opened Options
  import opened PrimaryRows
  import opened OrderedRows

  datatype Gran = Hourly | Daily

  const HOUR_US := 3_600_000_000
  const DAY_US := 86_400_000_000

  function Span(g: Gran): int {
    match g
    case Hourly => HOUR_US
    case Daily => DAY_US
  }

  /** Floor to the start of the UTC bucket, towards minus infinity. */
  function BucketTS(ts: int, g: Gran): int {
    match g
    case Hourly => ts - ts % HOUR_US
    case Daily => ts - ts % DAY_US
  }

  datatype Cost = NoCost | AddCost(sum: Cost, usd: real)

  datatype Metrics = Metrics(
    opCount: int,
    tokensIn: int,
    tokensOut: int,
    cacheRead: int,
    cacheWrite: int,
    cost: Cost,
    failures: int,
    durationUs: int,
    sessionStarts: int)

  function NoMetrics(): Metrics { Metrics(0, 0, 0, 0, 0, NoCost, 0, 0, 0) }

  /** One op joined with its session and source. */
  datatype OpFact = OpFact(op: OpRow, format: string, agent: string, cwd: string)

  datatype StartFact = StartFact(ts: int, format: string, agent: string, cwd: string)

  datatype Dimension = Total | Model | Provider | Tool | Agent | Cwd

  /** One (bucket, format, dimension); its rows are keyed by dimension value. */
  datatype Group = Group(bucket: int, format: string, dimension: Dimension)
  datatype Slot = Slot(group: Group, dimValue: string)
  type Rows = map<string, Metrics>
  type Table = map<Group, Rows>

  function ToolId(namespace_: string, name: string): string {
    if name == "" then "" else if namespace_ == "" then name else namespace_ + "." + name
  }

  predicate Running(op: OpRow) {
    op.endTs.None? || op.endTs.value <= op.startTs
  }

  function NonEmpty(v: string): Option<string> { if v == "" then None else Some(v) }

  /** The op's value for a dimension, if it contributes to that dimension. */
  function OpDim(f: OpFact, d: Dimension): Option<string> {
    match d
    case Total => Some("")
    case Model => if f.op.kind == LLM then NonEmpty(f.op.model) else None
    case Provider => NonEmpty(f.op.provider)
    case Tool => if f.op.kind == TOOL then NonEmpty(ToolId(f.op.toolNamespace, f.op.name)) else None
    case Agent => NonEmpty(f.agent)
    case Cwd => NonEmpty(f.cwd)
  }

  /** A session start counts on total, agent and cwd; never on model, provider or tool. */
  function StartDim(f: StartFact, d: Dimension): Option<string> {
    match d
    case Total => Some("")
    case Agent => NonEmpty(f.agent)
    case Cwd => NonEmpty(f.cwd)
    case _ => None
  }

  predicate OpHits(f: OpFact, g: Gran, s: Slot) {
    s.group.bucket == BucketTS(f.op.startTs, g) && s.group.format == f.format && OpDim(f, s.group.dimension) == Some(s.dimValue)
  }

  predicate StartHits(f: StartFact, g: Gran, s: Slot) {
    s.group.bucket == BucketTS(f.ts, g) && s.group.format == f.format && StartDim(f, s.group.dimension) == Some(s.dimValue)
  }

  /** The rows one op contributes to: at most one per dimension. */
  function OpSlots(f: OpFact, g: Gran): (r: set<Slot>)
    ensures forall s :: s in r <==> OpHits(f, g, s)
  {
    set d: Dimension | OpDim(f, d).Some? :: Slot(Group(BucketTS(f.op.startTs, g), f.format, d), OpDim(f, d).value)
  }

  function StartSlots(f: StartFact, g: Gran): (r: set<Slot>)
    ensures forall s :: s in r <==> StartHits(f, g, s)
  {
    set d: Dimension | StartDim(f, d).Some? :: Slot(Group(BucketTS(f.ts, g), f.format, d), StartDim(f, d).value)
  }

  function AddOp(m: Metrics, op: OpRow): Metrics {
    Metrics(m.opCount + 1, m.tokensIn + op.tokensIn, m.tokensOut + op.tokensOut, m.cacheRead + op.cacheRead,
            m.cacheWrite + op.cacheWrite, AddCost(m.cost, op.costUsd),
            m.failures + (if op.status == FAILED then 1 else 0),
            m.durationUs + (if Running(op) || op.durationUs.None? then 0 else op.durationUs.value),
            m.sessionStarts)
  }

  // ----- the definition of a rollup row -----

  /** The ops of a row, added in order. */
  function Fold(facts: seq<OpFact>, s: Slot, g: Gran, acc: Metrics): Metrics {
    if facts == [] then acc
    else Fold(facts[1..], s, g, if OpHits(facts[0], g, s) then AddOp(acc, facts[0].op) else acc)
  }

  ghost function StartsAt(starts: map<SessionId, StartFact>, s: Slot, g: Gran): set<SessionId> {
    set id | id in starts && StartHits(starts[id], g, s)
  }

  ghost function RowAt(facts: seq<OpFact>, starts: map<SessionId, StartFact>, s: Slot, g: Gran): Metrics {
    Fold(facts, s, g, NoMetrics()).(sessionStarts := |StartsAt(starts, s, g)|)
  }

  ghost function SlotsHit(facts: seq<OpFact>, starts: map<SessionId, StartFact>, g: Gran): set<Slot> {
    (set f, s | f in facts && s in OpSlots(f, g) :: s)
    + (set id, s | id in starts && s in StartSlots(starts[id], g) :: s)
  }

  lemma HitIff(facts: seq<OpFact>, starts: map<SessionId, StartFact>, s: Slot, g: Gran)
    ensures s in SlotsHit(facts, starts, g) <==> (exists f | f in facts :: OpHits(f, g, s)) || StartsAt(starts, s, g) != {}
  {
    if StartsAt(starts, s, g) != {} {
      var id :| id in StartsAt(starts, s, g);
      assert s in StartSlots(starts[id], g);
    }
    if id :| id in starts && s in StartSlots(starts[id], g) {
      assert id in StartsAt(starts, s, g);
    }
    if f :| f in facts && OpHits(f, g, s) {
      assert s in OpSlots(f, g);
    }
  }

  /** The rows of one group, before the tail-collapse. */
  ghost function RowsFor(facts: seq<OpFact>, starts: map<SessionId, StartFact>, g: Gran, grp: Group): Rows {
    map s | s in SlotsHit(facts, starts, g) && s.group == grp :: s.dimValue := RowAt(facts, starts, s, g)
  }

  lemma RowsForAt(facts: seq<OpFact>, starts: map<SessionId, StartFact>, g: Gran, s: Slot)
    ensures s.dimValue in RowsFor(facts, starts, g, s.group) <==> s in SlotsHit(facts, starts, g)
    ensures s in SlotsHit(facts, starts, g) ==> RowsFor(facts, starts, g, s.group)[s.dimValue] == RowAt(facts, starts, s, g)
  {
  }

  // ----- which inputs a group depends on -----

  predicate OpIn(f: OpFact, g: Gran, bucket: int, format: string) {
    BucketTS(f.op.startTs, g) == bucket && f.format == format
  }

  predicate StartIn(f: StartFact, g: Gran, bucket: int, format: string) {
    BucketTS(f.ts, g) == bucket && f.format == format
  }

  function StartsIn(starts: map<SessionId, StartFact>, g: Gran, bucket: int, format: string): map<SessionId, StartFact> {
    map id | id in starts && StartIn(starts[id], g, bucket, format) :: starts[id]
  }

  lemma {:induction false} FoldFilter(p: OpFact -> bool, facts: seq<OpFact>, s: Slot, g: Gran, acc: Metrics)
    requires forall f | f in facts && OpHits(f, g, s) :: p(f)
    ensures Fold(Filter(p, facts), s, g, acc) == Fold(facts, s, g, acc)
  {
    if facts != [] {
      var f, rest := facts[0], facts[1..];
      assert facts == [f] + rest;
      FoldFilter(p, rest, s, g, if OpHits(f, g, s) then AddOp(acc, f.op) else acc);
      if p(f) {
        assert ([f] + Filter(p, rest))[1..] == Filter(p, rest);
      }
    }
  }

  lemma StartsAtCell(starts: map<SessionId, StartFact>, s: Slot, g: Gran)
    ensures StartsAt(StartsIn(starts, g, s.group.bucket, s.group.format), s, g) == StartsAt(starts, s, g)
  {
  }

  lemma RowAtCell(facts: seq<OpFact>, starts: map<SessionId, StartFact>, g: Gran, s: Slot, p: OpFact -> bool,
                  starts': map<SessionId, StartFact>)
    requires forall f | f in facts && OpIn(f, g, s.group.bucket, s.group.format) :: p(f)
    requires StartsIn(starts', g, s.group.bucket, s.group.format) == StartsIn(starts, g, s.group.bucket, s.group.format)
    ensures s in SlotsHit(Filter(p, facts), starts', g) <==> s in SlotsHit(facts, starts, g)
    ensures RowAt(Filter(p, facts), starts', s, g) == RowAt(facts, starts, s, g)
  {
    FoldFilter(p, facts, s, g, NoMetrics());
    StartsAtCell(starts, s, g);
    StartsAtCell(starts', s, g);
    HitIff(facts, starts, s, g);
    HitIff(Filter(p, facts), starts', s, g);
  }

  /** A group is a function of the ops and session starts of its own bucket and format, in order: any
      larger ordered read gives the same rows. */
  lemma RowsForCell(facts: seq<OpFact>, starts: map<SessionId, StartFact>, g: Gran, grp: Group, p: OpFact -> bool,
                    starts': map<SessionId, StartFact>)
    requires forall f | f in facts && OpIn(f, g, grp.bucket, grp.format) :: p(f)
    requires StartsIn(starts', g, grp.bucket, grp.format) == StartsIn(starts, g, grp.bucket, grp.format)
    ensures RowsFor(Filter(p, facts), starts', g, grp) == RowsFor(facts, starts, g, grp)
  {
    var facts' := Filter(p, facts);
    var r, r' := RowsFor(facts, starts, g, grp), RowsFor(facts', starts', g, grp);
    forall v: string
      ensures v in r' <==> v in r
      ensures v in r ==> r'[v] == r[v]
    {
      RowAtCell(facts, starts, g, Slot(grp, v), p, starts');
      RowsForAt(facts, starts, g, Slot(grp, v));
      RowsForAt(facts', starts', g, Slot(grp, v));
    }
  }

  // ----- counting, to tell rows apart -----

  lemma {:induction false} FoldCounts(facts: seq<OpFact>, s: Slot, g: Gran, acc: Metrics)
    ensures Fold(facts, s, g, acc).opCount == acc.opCount + |Filter(f => OpHits(f, g, s), facts)|
  {
    if facts != [] {
      FoldCounts(facts[1..], s, g, if OpHits(facts[0], g, s) then AddOp(acc, facts[0].op) else acc);
    }
  }

  /** Buckets nest: the hour's day is the timestamp's day. */
  lemma DayOfHour(ts: int)
    ensures BucketTS(BucketTS(ts, Hourly), Daily) == BucketTS(ts, Daily)
    ensures BucketTS(ts, Daily) <= BucketTS(ts, Hourly) <= ts < BucketTS(ts, Hourly) + HOUR_US <= BucketTS(ts, Daily) + DAY_US
  {
    assert DAY_US == 24 * HOUR_US;
    var q, r := ts / HOUR_US, ts % HOUR_US;
    assert ts == q * HOUR_US + r;
    var d, h := q / 24, q % 24;
    assert q == 24 * d + h;
    assert ts == d * DAY_US + (h * HOUR_US + r);
    assert 0 <= h * HOUR_US + r < DAY_US;
    assert ts % DAY_US == h * HOUR_US + r;
    assert (ts - r) % DAY_US == h * HOUR_US;
  }

  lemma BucketBounds(ts: int, g: Gran)
    ensures BucketTS(ts, g) <= ts < BucketTS(ts, g) + Span(g)
  {
  }

  /** A bucket start is below a cutoff that is itself a bucket start exactly when all of its span is. */
  lemma ClosedMeansWhole(ts: int, cutoff: int, g: Gran)
    requires BucketTS(cutoff, g) == cutoff
    ensures BucketTS(ts, g) < cutoff <==> ts < cutoff
  {
    match g
    case Hourly =>
      assert cutoff % HOUR_US == 0;
      assert ts == HOUR_US * (ts / HOUR_US) + ts % HOUR_US;
      assert cutoff == HOUR_US * (cutoff / HOUR_US);
    case Daily =>
      assert cutoff % DAY_US == 0;
      assert ts == DAY_US * (ts / DAY_US) + ts % DAY_US;
      assert cutoff == DAY_US * (cutoff / DAY_US);
  }

  lemma InHour(ts: int, bucket: int)
    requires bucket % HOUR_US == 0
    ensures bucket <= ts < bucket + HOUR_US <==> ts - ts % HOUR_US == bucket
  {
    var q, b := ts / HOUR_US, bucket / HOUR_US;
    assert ts - ts % HOUR_US == q * HOUR_US && bucket == b * HOUR_US;
  }

  lemma InDay(ts: int, bucket: int)
    requires bucket % DAY_US == 0
    ensures bucket <= ts < bucket + DAY_US <==> ts - ts % DAY_US == bucket
  {
    var q, b := ts / DAY_US, bucket / DAY_US;
    assert ts - ts % DAY_US == q * DAY_US && bucket == b * DAY_US;
  }

  lemma InBucket(ts: int, bucket: int, g: Gran)
    requires BucketTS(bucket, g) == bucket
    ensures bucket <= ts < bucket + Span(g) <==> BucketTS(ts, g) == bucket
  {
    match g
    case Hourly => InHour(ts, bucket);
    case Daily => InDay(ts, bucket);
  }

  lemma HourIsBucket(ts: int)
    ensures BucketTS(BucketTS(ts, Hourly), Hourly) == BucketTS(ts, Hourly)
  {
    assert ts - ts % HOUR_US == (ts / HOUR_US) * HOUR_US;
  }

  lemma DayIsBucket(ts: int)
    ensures BucketTS(BucketTS(ts, Daily), Daily) == BucketTS(ts, Daily)
  {
    assert ts - ts % DAY_US == (ts / DAY_US) * DAY_US;
  }

  lemma BucketIsBucket(ts: int, g: Gran)
    ensures BucketTS(BucketTS(ts, g), g) == BucketTS(ts, g)
  {
    match g
    case Hourly => HourIsBucket(ts);
    case Daily => DayIsBucket(ts);
  }

  lemma BucketMonotone(a: int, b: int, g: Gran)
    requires a <= b
    ensures BucketTS(a, g) <= BucketTS(b, g)
  {
    BucketIsBucket(b, g);
    BucketBounds(a, g);
    BucketBounds(b, g);
    if a < BucketTS(b, g) {
      ClosedMeansWhole(a, BucketTS(b, g), g);
    } else {
      InBucket(a, BucketTS(b, g), g);
    }
  }
}
