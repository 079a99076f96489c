/** What a rollup row says, read off the op and session rows: which rows count in it and what each of its
    columns is over them. No statement here uses the steps of the fold. */
module RollupMeaning {
  import opened Options
  import opened PrimaryRows
  import opened OrderedRows
  import opened Sums
  import opened RollupRows
  import opened RollupMarks

  /** The bucket starting at `bucket` holds the timestamp. */
  predicate Holds(g: Gran, bucket: int, ts: int) {
    var span := if g.Hourly? then 3_600_000_000 else 86_400_000_000;
    bucket % span == 0 && bucket <= ts < bucket + span
  }

  /** The op counts in the row: by its bucket, its source's format and its value of the dimension. */
  predicate OpCounts(f: OpFact, g: Gran, s: Slot) {
    && Holds(g, s.group.bucket, f.op.startTs)
    && s.group.format == f.format
    && match s.group.dimension
       case Total => s.dimValue == ""
       case Model => f.op.kind == "llm" && s.dimValue == f.op.model != ""
       case Provider => s.dimValue == f.op.provider != ""
       case Tool =>
         && f.op.kind == "tool"
         && f.op.name != ""
         && s.dimValue == (if f.op.toolNamespace == "" then f.op.name else f.op.toolNamespace + "." + f.op.name)
       case Agent => s.dimValue == f.agent != ""
       case Cwd => s.dimValue == f.cwd != ""
  }

  predicate StartCounts(f: StartFact, g: Gran, s: Slot) {
    && Holds(g, s.group.bucket, f.ts)
    && s.group.format == f.format
    && ((s.group.dimension == Total && s.dimValue == "")
        || (s.group.dimension == Agent && s.dimValue == f.agent != "")
        || (s.group.dimension == Cwd && s.dimValue == f.cwd != ""))
  }

  /** The costs added, first to last. */
  function Costs(c: Cost): seq<real> {
    match c
    case NoCost => []
    case AddCost(sum, usd) => Costs(sum) + [usd]
  }

  function Usd(facts: seq<OpFact>): seq<real> {
    seq(|facts|, i requires 0 <= i < |facts| => facts[i].op.costUsd)
  }

  /** An op with an end after its start has a duration; a running one counts for none. */
  function EndedDuration(f: OpFact): int {
    if f.op.endTs.Some? && f.op.startTs < f.op.endTs.value && f.op.durationUs.Some? then f.op.durationUs.value else 0
  }

  /** Every column of a row over the ops that count in it, in the order they were read. */
  ghost predicate Columns(m: Metrics, ops: seq<OpFact>) {
    && m.opCount == |ops|
    && m.tokensIn == SumBy((f: OpFact) => f.op.tokensIn, ops)
    && m.tokensOut == SumBy((f: OpFact) => f.op.tokensOut, ops)
    && m.cacheRead == SumBy((f: OpFact) => f.op.cacheRead, ops)
    && m.cacheWrite == SumBy((f: OpFact) => f.op.cacheWrite, ops)
    && m.failures == |Filter((f: OpFact) => f.op.status == "failed", ops)|
    && m.durationUs == SumBy(EndedDuration, ops)
    && Costs(m.cost) == Usd(ops)
  }

  lemma BucketHolds(ts: int, g: Gran, bucket: int)
    ensures BucketTS(ts, g) == bucket <==> Holds(g, bucket, ts)
  {
    BucketIsBucket(ts, g);
    BucketBounds(ts, g);
    if Holds(g, bucket, ts) {
      InBucket(ts, bucket, g);
    }
  }

  lemma HitsIsCounts(f: OpFact, g: Gran, s: Slot)
    ensures OpHits(f, g, s) <==> OpCounts(f, g, s)
  {
    BucketHolds(f.op.startTs, g, s.group.bucket);
  }

  lemma StartHitsIsCounts(f: StartFact, g: Gran, s: Slot)
    ensures StartHits(f, g, s) <==> StartCounts(f, g, s)
  {
    BucketHolds(f.ts, g, s.group.bucket);
  }

  /** One op more in a row is one op more in every column. */
  lemma OneMore(m: Metrics, ops: seq<OpFact>, f: OpFact)
    requires Columns(m, ops)
    ensures Columns(AddOp(m, f.op), ops + [f])
  {
    OneRowMore(ops, f);
    assert Usd(ops + [f]) == Usd(ops) + [f.op.costUsd];
  }

  lemma {:induction false} FoldAdds(facts: seq<OpFact>, s: Slot, g: Gran, acc: Metrics, before: seq<OpFact>)
    requires Columns(acc, before)
    ensures Columns(Fold(facts, s, g, acc), before + Filter(f => OpCounts(f, g, s), facts))
  {
    if facts != [] {
      var f, rest := facts[0], facts[1..];
      var counting := Filter(f => OpCounts(f, g, s), rest);
      HitsIsCounts(f, g, s);
      if OpCounts(f, g, s) {
        OneMore(acc, before, f);
        FoldAdds(rest, s, g, AddOp(acc, f.op), before + [f]);
        assert before + ([f] + counting) == before + [f] + counting;
      } else {
        FoldAdds(rest, s, g, acc, before);
      }
    } else {
      assert before + [] == before;
    }
  }

  /** A row exists exactly when an op or a session start counts in it, and says what they add up to. */
  lemma RowMeans(facts: seq<OpFact>, starts: map<SessionId, StartFact>, g: Gran, s: Slot)
    ensures var ops := Filter(f => OpCounts(f, g, s), facts);
            var started := set id | id in starts && StartCounts(starts[id], g, s);
            && (s in SlotsHit(facts, starts, g) <==> ops != [] || started != {})
            && Columns(RowAt(facts, starts, s, g), ops)
            && RowAt(facts, starts, s, g).sessionStarts == |started|
  {
    var ops := Filter(f => OpCounts(f, g, s), facts);
    var started := set id | id in starts && StartCounts(starts[id], g, s);
    FoldAdds(facts, s, g, NoMetrics(), []);
    assert [] + ops == ops;
    forall id | id in starts
      ensures StartHits(starts[id], g, s) <==> StartCounts(starts[id], g, s)
    {
      StartHitsIsCounts(starts[id], g, s);
    }
    assert started == StartsAt(starts, s, g);
    HitIff(facts, starts, s, g);
    forall f | f in facts
      ensures OpHits(f, g, s) <==> f in ops
    {
      HitsIsCounts(f, g, s);
    }
    assert ops != [] ==> ops[0] in facts;
  }

  // ----- which rows are read, and in which order -----

  function Ops(facts: seq<OpFact>): seq<OpRow> {
    seq(|facts|, i requires 0 <= i < |facts| => facts[i].op)
  }

  lemma {:induction false} InsertOps(key: OpFact -> SortKey, f: OpFact, facts: seq<OpFact>)
    ensures multiset(Ops(Insert(key, f, facts))) == multiset(Ops(facts)) + multiset{f.op}
  {
    if facts == [] || Below(key(f), key(facts[0])) {
      assert Ops([f] + facts) == [f.op] + Ops(facts);
    } else {
      InsertOps(key, f, facts[1..]);
      assert Ops(facts) == [facts[0].op] + Ops(facts[1..]);
      assert Ops(Insert(key, f, facts)) == [facts[0].op] + Ops(Insert(key, f, facts[1..]));
    }
  }

  lemma {:induction false} SortOps(key: OpFact -> SortKey, facts: seq<OpFact>)
    ensures multiset(Ops(Sort(key, facts))) == multiset(Ops(facts))
  {
    if facts != [] {
      SortOps(key, facts[1..]);
      InsertOps(key, facts[0], Sort(key, facts[1..]));
      assert Ops(facts) == [facts[0].op] + Ops(facts[1..]);
    }
  }

  /** The op carries its source's format and its session's labels. */
  predicate Labelled(db: Db, f: OpFact) {
    var id := f.op.id.turn.session;
    && f.format == db.formatOf(id.source)
    && (id in db.sessions ==> f.agent == db.sessions[id].agent && f.cwd == db.sessions[id].cwd)
  }

  /** The fold reads every op row once, labelled, by start time and then by row id. */
  lemma FactsAreTheOps(db: Db)
    ensures multiset(Ops(Facts(db))) == multiset(db.ops)
    ensures forall f | f in Facts(db) :: Labelled(db, f)
    ensures forall i, j | 0 <= i < j < |Facts(db)| ::
              var a, b := Facts(db)[i].op, Facts(db)[j].op;
              a.startTs < b.startTs || (a.startTs == b.startTs && db.hash(a.id) <= db.hash(b.id))
  {
    SortOps(Order(db), Joined(db));
    assert Ops(Joined(db)) == db.ops;
    SortSorts(Order(db), Joined(db));
    forall f | f in Facts(db)
      ensures Labelled(db, f)
    {
      SortMembers(Order(db), Joined(db), f);
    }
  }

  /** The sessions whose start counts in the row. */
  ghost function SessionsCounting(db: Db, g: Gran, s: Slot): set<SessionId> {
    set id | id in db.sessions
             && StartCounts(StartFact(db.sessions[id].startTs, db.formatOf(id.source), db.sessions[id].agent, db.sessions[id].cwd), g, s)
  }

  /** What the tables mean: a row is there exactly when an op or a session start counts in it, and its columns
      are the counts and sums over those. */
  lemma FreshMeans(db: Db, g: Gran, s: Slot)
    ensures var ops := Filter(f => OpCounts(f, g, s), Facts(db));
            var rows := Fresh(db, g, s.group);
            && (s.dimValue in rows <==> ops != [] || SessionsCounting(db, g, s) != {})
            && (s.dimValue in rows ==>
                  Columns(rows[s.dimValue], ops) && rows[s.dimValue].sessionStarts == |SessionsCounting(db, g, s)|)
  {
    RowMeans(Facts(db), Starts(db), g, s);
    RowsForAt(Facts(db), Starts(db), g, s);
    assert SessionsCounting(db, g, s) == set id | id in Starts(db) && StartCounts(Starts(db)[id], g, s);
  }

  // ----- what an event writes and marks -----

  /** The session row an event leaves: labels only ever replaced by non-blank ones, and by a synthetic start only when
      the row has no metadata of its own; the start only moves back; a stub starts at the event's time, unlabelled. */
  ghost predicate SessionWritten(was: Option<Session>, ev: Event, ts: int, now: Session) {
    var old_ := if was.Some? then was.value else Session("", "", ts, false);
    match ev
    case SessionStarted(_, _, agent, cwd, synthetic, captured) =>
      if was.None? then now == Session(agent, cwd, ts, captured)
      else
        && now.startTs == (if ts < old_.startTs then ts else old_.startTs)
        && if synthetic && old_.captured then now.agent == old_.agent && now.cwd == old_.cwd && now.captured
           else
             && now.agent == (if agent == "" then old_.agent else agent)
             && now.cwd == (if cwd == "" then old_.cwd else cwd)
             && now.captured == captured
    case SessionUpdated(_, _, agent, cwd, patch) =>
      && now.startTs == old_.startTs
      && now.agent == (if agent == "" then old_.agent else agent)
      && now.cwd == (if cwd == "" then old_.cwd else cwd)
      && now.captured == (if patch.Some? then patch.value else old_.captured)
    case _ => now == old_
  }

  /** An event writes its session's row, and of the ops only what its own op event writes. */
  lemma EventWritesTables(db: Db, ev: Event, pricer: Option<Pricer>)
    ensures var db' := Apply(db, ev, pricer);
            var id := SessionOf(ev);
            && id in db'.sessions
            && SessionWritten(if id in db.sessions then Some(db.sessions[id]) else None, ev, StubTime(ev), db'.sessions[id])
            && (forall x | x != id :: (x in db'.sessions <==> x in db.sessions) && (x in db.sessions ==> db'.sessions[x] == db.sessions[x]))
            && db'.ops == (match ev
                           case OpBegan(e) => ApplyOpEvent(db.ops, Started(e), pricer)
                           case OpEnded(e) => ApplyOpEvent(db.ops, Finalized(e), pricer)
                           case _ => db.ops)
            && db'.hash == db.hash && db'.formatOf == db.formatOf
  {
  }

  /** The start times an event marks: its own for a session or op start, the stored one for an op finalize, the old
      one of a session that moves back, and with new labels the session's and all its ops'. */
  ghost predicate TimeMarked(db: Db, ev: Event, pricer: Option<Pricer>, ts: int) {
    var id := SessionOf(ev);
    var relabels := ((ev.SessionStarted? && id in db.sessions) || ev.SessionUpdated?) && (ev.agent != "" || ev.cwd != "");
    || (ev.SessionStarted? && ts == ev.ts)
    || (ev.OpBegan? && ts == ev.began.ts)
    || (ev.OpEnded? && exists i :: 0 <= i < |db.ops| && db.ops[i].id == ev.ended.op && db.ops[i].startTs == ts)
    || (ev.SessionStarted? && id in db.sessions && ev.ts < db.sessions[id].startTs == ts)
    || (relabels && Apply(db, ev, pricer).sessions[id].startTs == ts)
    || (relabels && exists i :: 0 <= i < |db.ops| && db.ops[i].id.turn.session == id && db.ops[i].startTs == ts)
  }

  lemma LookedUp(ops: seq<OpRow>, id: OpId, ts: int)
    requires UniqueIds(ops)
    ensures Lookup(ops, id).Some? && Lookup(ops, id).value.startTs == ts <==> exists i :: 0 <= i < |ops| && ops[i].id == id && ops[i].startTs == ts
  {
    if i :| 0 <= i < |ops| && ops[i].id == id && ops[i].startTs == ts {
      FindUnique(ops, i);
    }
  }

  lemma SessionTimesAre(db: Db, id: SessionId, ts: int)
    ensures ts in SessionTimes(db, id) <==>
            || (id in db.sessions && db.sessions[id].startTs == ts)
            || exists i :: 0 <= i < |db.ops| && db.ops[i].id.turn.session == id && db.ops[i].startTs == ts
  {
    if i :| 0 <= i < |db.ops| && db.ops[i].id.turn.session == id && db.ops[i].startTs == ts {
      assert db.ops[i] in db.ops;
    }
  }

  lemma MarkedTimesAre(db: Db, ev: Event, pricer: Option<Pricer>, ts: int)
    requires UniqueIds(db.ops)
    ensures ts in MarkedTimes(db, ev, pricer) <==> TimeMarked(db, ev, pricer, ts)
  {
    match ev
    case OpEnded(e) => LookedUp(db.ops, e.op, ts);
    case SessionStarted(id, _, _, _, _, _) => SessionTimesAre(Apply(db, ev, pricer), id, ts);
    case SessionUpdated(id, _, _, _, _) => SessionTimesAre(Apply(db, ev, pricer), id, ts);
    case _ =>
  }
}
