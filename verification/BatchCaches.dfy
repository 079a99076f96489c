/** The writer's per-batch session and turn caches (internal/ingest/writer.go). A cache hit skips a SELECT or an
    INSERT; foreign keys are enforced, so a hit on a row that was rolled back is an error or a lost row. */
module BatchCaches {
  import opened Options
  import opened Scalars

  datatype TurnKey = TurnKey(native: string, turnSeq: int)
  datatype OpKey = OpKey(turn: TurnKey, opSeq: int)

  datatype SessionRow = SessionRow(startTs: int, endTs: int, status: string, lastTs: int)
  datatype TurnRow = TurnRow(startTs: int, endTs: int, status: string)
  datatype OpRow = OpRow(parent: Option<OpKey>, startTs: int, endTs: int, status: string)
  datatype LogRow = LogRow(native: string, turn: Option<TurnKey>, op: Option<OpKey>, ts: int, message: string)

  /** One source's rows; a canonical id is its natural key. */
  datatype Tables = Tables(
    sessions: map<string, SessionRow>,
    turns: map<TurnKey, TurnRow>,
    ops: map<OpKey, OpRow>,
    logs: set<LogRow>)

  const EMPTY := Tables(map[], map[], map[], {})

  datatype Event =
    | SessionStarted(native: string, ts: int)
    | SessionFinalized(native: string, ts: int, endTs: int, status: string)
    | TurnStarted(native: string, turnSeq: int, ts: int)
    | TurnFinalized(native: string, turnSeq: int, ts: int, endTs: int, status: string)
    | OpStarted(native: string, turnSeq: int, opSeq: int, parentOpSeq: int, ts: int)
    | OpFinalized(native: string, turnSeq: int, opSeq: int, ts: int, endTs: int, status: string)
    | LogEntry(native: string, turnSeq: int, opSeq: int, ts: int, message: string)
    | Progress(cursor: string)

  datatype Failure = EmptyNativeId | ForeignKey
  type Applied = Result<Tables, Failure>

  datatype Caches = Caches(sessions: set<string>, turns: set<TurnKey>)

  const NO_CACHES := Caches({}, {})

  function NonEmpty(s: string, d: string): string { if s != "" then s else d }

  // ----- the statements -----

  function WithStub(t: Tables, native: string, ts: int): Tables {
    if native in t.sessions then t
    else t.(sessions := t.sessions[native := SessionRow(ts, 0, "running", ts)])
  }

  function PutSession(t: Tables, native: string, ts: int): Applied {
    if native == "" then Err(EmptyNativeId)
    else if native in t.sessions then
      var row := t.sessions[native];
      Ok(t.(sessions := t.sessions[native := row.(startTs := Min(row.startTs, ts), lastTs := Max(row.lastTs, ts))]))
    else Ok(WithStub(t, native, ts))
  }

  function FinalizeSession(t: Tables, ev: Event): Applied
    requires ev.SessionFinalized?
  {
    if ev.native !in t.sessions then Ok(t)
    else
      var row := t.sessions[ev.native];
      Ok(t.(sessions := t.sessions[ev.native := row.(endTs := ev.endTs, status := NonEmpty(ev.status, "completed"),
                                                       lastTs := Max(row.lastTs, ev.ts))]))
  }

  function PutTurn(t: Tables, key: TurnKey, row: TurnRow): Applied {
    if key.native in t.sessions then Ok(t.(turns := t.turns[key := row])) else Err(ForeignKey)
  }

  function StartTurn(t: Tables, key: TurnKey, ts: int): Applied {
    PutTurn(t, key, if key in t.turns then t.turns[key].(startTs := Min(t.turns[key].startTs, ts))
                    else TurnRow(ts, 0, "running"))
  }

  function FinalizeTurn(t: Tables, ev: Event): Applied
    requires ev.TurnFinalized?
  {
    var key := TurnKey(ev.native, ev.turnSeq);
    PutTurn(t, key, TurnRow(if key in t.turns then t.turns[key].startTs else ev.ts, ev.endTs, NonEmpty(ev.status, "completed")))
  }

  /** INSERT ... ON CONFLICT DO NOTHING. */
  function SynthesizeTurn(t: Tables, key: TurnKey, ts: int): Applied {
    if key in t.turns then Ok(t) else PutTurn(t, key, TurnRow(ts, 0, "running"))
  }

  function PutOp(t: Tables, ev: Event): Applied
    requires ev.OpStarted?
  {
    var turn := TurnKey(ev.native, ev.turnSeq);
    var key := OpKey(turn, ev.opSeq);
    var parent := if ev.parentOpSeq < 0 then None else Some(OpKey(turn, ev.parentOpSeq));
    var row := if key in t.ops
               then t.ops[key].(startTs := Min(t.ops[key].startTs, ev.ts),
                                parent := if t.ops[key].parent.Some? then t.ops[key].parent else parent)
               else OpRow(parent, ev.ts, 0, "running");
    if ev.native in t.sessions && turn in t.turns && (row.parent.None? || row.parent.value in t.ops || row.parent.value == key)
    then Ok(t.(ops := t.ops[key := row])) else Err(ForeignKey)
  }

  function FinalizeOp(t: Tables, ev: Event): Applied
    requires ev.OpFinalized?
  {
    var key := OpKey(TurnKey(ev.native, ev.turnSeq), ev.opSeq);
    if key !in t.ops then Ok(t)
    else
      var row := t.ops[key];
      var known := ev.endTs > 0 && row.startTs > 0 && ev.endTs >= row.startTs;
      Ok(t.(ops := t.ops[key := row.(endTs := if known then ev.endTs else row.endTs, status := NonEmpty(ev.status, "completed"))]))
  }

  function PutLog(t: Tables, ev: Event): Applied
    requires ev.LogEntry?
  {
    var turn := if ev.turnSeq > 0 then Some(TurnKey(ev.native, ev.turnSeq)) else None;
    var op := if ev.opSeq > 0 && turn.Some? then Some(OpKey(turn.value, ev.opSeq)) else None;
    if ev.native in t.sessions && (turn.Some? ==> turn.value in t.turns) && (op.Some? ==> op.value in t.ops)
    then Ok(t.(logs := t.logs + {LogRow(ev.native, turn, op, ev.ts, ev.message)})) else Err(ForeignKey)
  }

  // ----- one event, through the caches -----

  /** Events that resolve their session with requireSessionID. */
  predicate NeedsSession(ev: Event) { !ev.SessionStarted? && !ev.Progress? }

  /** requireSessionID: a hit touches nothing; a miss selects, and inserts a stub when there is no row. */
  function Required(t: Tables, c: Caches, ev: Event): Applied
    requires NeedsSession(ev)
  {
    if ev.native == "" then Err(EmptyNativeId)
    else if ev.native in c.sessions then Ok(t)
    else Ok(WithStub(t, ev.native, ev.ts))
  }

  /** The rest of the event, once its session is resolved. */
  function Body(t: Tables, c: Caches, ev: Event): Applied
    requires NeedsSession(ev)
  {
    match ev
    case SessionFinalized(_, _, _, _) => FinalizeSession(t, ev)
    case TurnStarted(n, s, ts) => StartTurn(t, TurnKey(n, s), ts)
    case TurnFinalized(_, _, _, _, _) => FinalizeTurn(t, ev)
    case OpStarted(n, s, _, _, ts) =>
      if TurnKey(n, s) in c.turns then PutOp(t, ev)
      else
        var turned := SynthesizeTurn(t, TurnKey(n, s), ts);
        if turned.Err? then turned else PutOp(turned.value, ev)
    case OpFinalized(_, _, _, _, _, _) => FinalizeOp(t, ev)
    case LogEntry(_, _, _, _, _) => PutLog(t, ev)
  }

  function Apply(t: Tables, c: Caches, ev: Event): Applied {
    match ev
    case SessionStarted(n, ts) => PutSession(t, n, ts)
    case Progress(_) => Ok(t)
    case _ =>
      var r := Required(t, c, ev);
      if r.Err? then r else Body(r.value, c, ev)
  }

  /** What the caches hold once the event has been applied. */
  function Cached(c: Caches, ev: Event): Caches {
    if !NeedsSession(ev) then c
    else Caches(c.sessions + {ev.native}, if ev.OpStarted? then c.turns + {TurnKey(ev.native, ev.turnSeq)} else c.turns)
  }

  /** The reference: always SELECT, always INSERT the turn. */
  function Plain(t: Tables, ev: Event): Applied {
    Apply(t, NO_CACHES, ev)
  }

  function PlainAll(t: Tables, evs: seq<Event>): Applied {
    if evs == [] then Ok(t)
    else
      var before := PlainAll(t, evs[..|evs| - 1]);
      if before.Err? then before else Plain(before.value, evs[|evs| - 1])
  }

  /** Everything cached is stored; an event with an empty native id never gets as far as the caches. */
  ghost predicate Backed(c: Caches, t: Tables) {
    && (forall n | n in c.sessions && n != "" :: n in t.sessions)
    && (forall k | k in c.turns && k.native != "" :: k in t.turns)
  }

  /** With backed caches an event does exactly what it does without them, and they stay backed. */
  lemma CachedIsPlain(t: Tables, c: Caches, ev: Event)
    requires Backed(c, t)
    ensures Apply(t, c, ev) == Plain(t, ev)
    ensures Apply(t, c, ev).Ok? ==> Backed(Cached(c, ev), Apply(t, c, ev).value)
  {
  }

  /** The event meets a cached session or turn that is not stored. */
  predicate StaleHit(t: Tables, c: Caches, ev: Event) {
    && NeedsSession(ev)
    && ((ev.native in c.sessions && ev.native !in t.sessions)
        || (ev.OpStarted? && TurnKey(ev.native, ev.turnSeq) in c.turns && TurnKey(ev.native, ev.turnSeq) !in t.turns))
  }

  /** An event that succeeds without caches does the same with them exactly when it meets nothing stale. */
  lemma CachedIsPlainIff(t: Tables, c: Caches, ev: Event)
    requires Plain(t, ev).Ok?
    ensures Apply(t, c, ev) == Plain(t, ev) <==> !StaleHit(t, c, ev)
  {
    if StaleHit(t, c, ev) && Apply(t, c, ev).Ok? {
      assert ev.native !in Apply(t, c, ev).value.sessions;
      assert ev.native in Plain(t, ev).value.sessions;
    }
  }

  function CachedAll(t: Tables, c: Caches, evs: seq<Event>): Applied
    decreases |evs|
  {
    if evs == [] then Ok(t)
    else
      var first := Apply(t, c, evs[0]);
      if first.Err? then first else CachedAll(first.value, Cached(c, evs[0]), evs[1..])
  }

  lemma PlainLast(t: Tables, evs: seq<Event>, ev: Event)
    ensures PlainAll(t, evs + [ev]) == if PlainAll(t, evs).Err? then PlainAll(t, evs) else Plain(PlainAll(t, evs).value, ev)
  {
    assert (evs + [ev])[..|evs|] == evs;
  }

  lemma {:induction false} PlainSplit(t: Tables, a: seq<Event>, b: seq<Event>)
    ensures PlainAll(t, a + b) == if PlainAll(t, a).Err? then PlainAll(t, a) else PlainAll(PlainAll(t, a).value, b)
  {
    if b == [] {
      assert a + b == a;
    } else {
      var n := |b| - 1;
      assert a + b == (a + b[..n]) + [b[n]];
      PlainSplit(t, a, b[..n]);
      PlainLast(t, a + b[..n], b[n]);
    }
  }

  lemma PlainFirst(t: Tables, evs: seq<Event>)
    requires evs != []
    ensures PlainAll(t, evs) == if Plain(t, evs[0]).Err? then Plain(t, evs[0]) else PlainAll(Plain(t, evs[0]).value, evs[1..])
  {
    assert evs == [evs[0]] + evs[1..];
    assert [evs[0]][..0] == [];
    PlainSplit(t, [evs[0]], evs[1..]);
  }

  function CachedAfter(c: Caches, evs: seq<Event>): Caches
    decreases |evs|
  {
    if evs == [] then c else CachedAfter(Cached(c, evs[0]), evs[1..])
  }

  /** The caches come to hold every session an event resolved and every turn an op start made, and nothing else. */
  lemma {:induction false} CachesFill(c: Caches, evs: seq<Event>, native: string, k: TurnKey)
    ensures native in CachedAfter(c, evs).sessions <==>
            native in c.sessions || exists i :: 0 <= i < |evs| && !evs[i].SessionStarted? && !evs[i].Progress? && evs[i].native == native
    ensures k in CachedAfter(c, evs).turns <==>
            k in c.turns || exists i :: 0 <= i < |evs| && evs[i].OpStarted? && TurnKey(evs[i].native, evs[i].turnSeq) == k
    decreases |evs|
  {
    if evs != [] {
      CachesFill(Cached(c, evs[0]), evs[1..], native, k);
      forall i | 0 < i < |evs|
        ensures evs[i] == evs[1..][i - 1]
      {
      }
    }
  }

  /** With backed caches a whole batch does what it does without them, failures included, and leaves them backed. */
  lemma {:induction false} CachedBatchIsPlain(t: Tables, c: Caches, evs: seq<Event>)
    requires Backed(c, t)
    ensures CachedAll(t, c, evs) == PlainAll(t, evs)
    ensures PlainAll(t, evs).Ok? ==> Backed(CachedAfter(c, evs), PlainAll(t, evs).value)
    decreases |evs|
  {
    if evs != [] {
      PlainFirst(t, evs);
      CachedIsPlain(t, c, evs[0]);
      if Apply(t, c, evs[0]).Ok? {
        CachedBatchIsPlain(Apply(t, c, evs[0]).value, Cached(c, evs[0]), evs[1..]);
      }
    }
  }

  /** Foreign keys: an op's turn is stored. */
  ghost predicate OpsHaveTurns(t: Tables) {
    forall k | k in t.ops :: k.turn in t.turns
  }

  /** Caches make no difference to any batch exactly when all they hold is stored. */
  lemma CachesHarmlessIff(t: Tables, c: Caches)
    requires OpsHaveTurns(t)
    ensures (forall evs :: CachedAll(t, c, evs) == PlainAll(t, evs)) <==> Backed(c, t)
  {
    if Backed(c, t) {
      forall evs {
        CachedBatchIsPlain(t, c, evs);
      }
    } else if n :| n in c.sessions && n != "" && n !in t.sessions {
      OneEventDiffers(t, c, TurnStarted(n, 0, 0));
    } else {
      var k :| k in c.turns && k.native != "" && k !in t.turns;
      OneEventDiffers(t, c, OpStarted(k.native, k.turnSeq, 0, -1, 0));
    }
  }

  lemma OneEventDiffers(t: Tables, c: Caches, ev: Event)
    requires Plain(t, ev).Ok? && Apply(t, c, ev).Err?
    ensures CachedAll(t, c, [ev]) != PlainAll(t, [ev])
  {
    PlainFirst(t, [ev]);
  }

  /** An event that inserts a row under its session. */
  predicate Inserts(ev: Event) {
    ev.TurnStarted? || ev.TurnFinalized? || ev.OpStarted? || ev.LogEntry?
  }

  // ----- a retry through caches that were not reset -----

  /** Sessions and turns that are cached but not stored, and so are neither selected nor inserted. */
  function StaleSessions(t: Tables, c: Caches): set<string> { set n | n in c.sessions && n !in t.sessions }
  function StaleTurns(t: Tables, c: Caches): set<TurnKey> { set k | k in c.turns && k !in t.turns }

  /** The events that insert the row all the same. */
  predicate HealsSession(ev: Event, native: string) { ev.SessionStarted? && ev.native == native }

  predicate HealsTurn(ev: Event, k: TurnKey) {
    (ev.TurnStarted? || ev.TurnFinalized?) && TurnKey(ev.native, ev.turnSeq) == k
  }

  /** The event inserts nothing under a stale session or turn. */
  predicate Safe(ev: Event, sessions: set<string>, turns: set<TurnKey>) {
    && (Inserts(ev) ==> ev.native !in sessions)
    && (ev.OpStarted? ==> TurnKey(ev.native, ev.turnSeq) !in turns)
  }

  /** Every insert under a stale session or turn comes after an event that heals it. */
  ghost predicate HealedFirst(evs: seq<Event>, sessions: set<string>, turns: set<TurnKey>) {
    && (forall i | 0 <= i < |evs| && Inserts(evs[i]) && evs[i].native in sessions ::
          exists j :: 0 <= j < i && HealsSession(evs[j], evs[i].native))
    && (forall i | 0 <= i < |evs| && evs[i].OpStarted? && TurnKey(evs[i].native, evs[i].turnSeq) in turns ::
          exists j :: 0 <= j < i && HealsTurn(evs[j], TurnKey(evs[i].native, evs[i].turnSeq)))
  }

  function LeftSessions(ev: Event, sessions: set<string>): set<string> {
    if ev.SessionStarted? then sessions - {ev.native} else sessions
  }

  function LeftTurns(ev: Event, turns: set<TurnKey>): set<TurnKey> {
    if ev.TurnStarted? || ev.TurnFinalized? then turns - {TurnKey(ev.native, ev.turnSeq)} else turns
  }

  lemma HealedNext(ev: Event, rest: seq<Event>, sessions: set<string>, turns: set<TurnKey>)
    requires Safe(ev, sessions, turns) && HealedFirst(rest, LeftSessions(ev, sessions), LeftTurns(ev, turns))
    ensures HealedFirst([ev] + rest, sessions, turns)
  {
    var evs := [ev] + rest;
    forall i | 0 <= i < |evs| && Inserts(evs[i]) && evs[i].native in sessions
      ensures exists j :: 0 <= j < i && HealsSession(evs[j], evs[i].native)
    {
      SessionHealed(ev, rest, sessions, turns, i);
    }
    forall i | 0 <= i < |evs| && evs[i].OpStarted? && TurnKey(evs[i].native, evs[i].turnSeq) in turns
      ensures exists j :: 0 <= j < i && HealsTurn(evs[j], TurnKey(evs[i].native, evs[i].turnSeq))
    {
      TurnHealed(ev, rest, sessions, turns, i);
    }
  }

  lemma SessionHealed(ev: Event, rest: seq<Event>, sessions: set<string>, turns: set<TurnKey>, i: nat)
    requires Safe(ev, sessions, turns) && HealedFirst(rest, LeftSessions(ev, sessions), LeftTurns(ev, turns))
    requires i <= |rest| && Inserts(([ev] + rest)[i]) && ([ev] + rest)[i].native in sessions
    ensures exists j :: 0 <= j < i && HealsSession(([ev] + rest)[j], ([ev] + rest)[i].native)
  {
    var evs := [ev] + rest;
    assert evs[i] == rest[i - 1];
    if rest[i - 1].native in LeftSessions(ev, sessions) {
      var j :| 0 <= j < i - 1 && HealsSession(rest[j], rest[i - 1].native);
      assert HealsSession(evs[j + 1], evs[i].native);
    } else {
      assert HealsSession(evs[0], evs[i].native);
    }
  }

  lemma TurnHealed(ev: Event, rest: seq<Event>, sessions: set<string>, turns: set<TurnKey>, i: nat)
    requires Safe(ev, sessions, turns) && HealedFirst(rest, LeftSessions(ev, sessions), LeftTurns(ev, turns))
    requires i <= |rest| && ([ev] + rest)[i].OpStarted? && TurnKey(([ev] + rest)[i].native, ([ev] + rest)[i].turnSeq) in turns
    ensures exists j :: 0 <= j < i && HealsTurn(([ev] + rest)[j], TurnKey(([ev] + rest)[i].native, ([ev] + rest)[i].turnSeq))
  {
    var evs := [ev] + rest;
    var k := TurnKey(evs[i].native, evs[i].turnSeq);
    assert evs[i] == rest[i - 1];
    if k in LeftTurns(ev, turns) {
      var j :| 0 <= j < i - 1 && HealsTurn(rest[j], k);
      assert HealsTurn(evs[j + 1], k);
    } else {
      assert HealsTurn(evs[0], k);
    }
  }

  lemma HealedRest(ev: Event, rest: seq<Event>, sessions: set<string>, turns: set<TurnKey>)
    requires HealedFirst([ev] + rest, sessions, turns)
    ensures Safe(ev, sessions, turns) && HealedFirst(rest, LeftSessions(ev, sessions), LeftTurns(ev, turns))
  {
    assert ([ev] + rest)[0] == ev;
    forall i | 0 <= i < |rest| && Inserts(rest[i]) && rest[i].native in LeftSessions(ev, sessions)
      ensures exists j :: 0 <= j < i && HealsSession(rest[j], rest[i].native)
    {
      SessionHealedLater(ev, rest, sessions, turns, i);
    }
    forall i | 0 <= i < |rest| && rest[i].OpStarted? && TurnKey(rest[i].native, rest[i].turnSeq) in LeftTurns(ev, turns)
      ensures exists j :: 0 <= j < i && HealsTurn(rest[j], TurnKey(rest[i].native, rest[i].turnSeq))
    {
      TurnHealedLater(ev, rest, sessions, turns, i);
    }
  }

  lemma SessionHealedLater(ev: Event, rest: seq<Event>, sessions: set<string>, turns: set<TurnKey>, i: nat)
    requires HealedFirst([ev] + rest, sessions, turns)
    requires i < |rest| && Inserts(rest[i]) && rest[i].native in LeftSessions(ev, sessions)
    ensures exists j :: 0 <= j < i && HealsSession(rest[j], rest[i].native)
  {
    var evs := [ev] + rest;
    assert evs[i + 1] == rest[i];
    var j :| 0 <= j < i + 1 && HealsSession(evs[j], evs[i + 1].native);
    assert j > 0 && HealsSession(rest[j - 1], rest[i].native);
  }

  lemma TurnHealedLater(ev: Event, rest: seq<Event>, sessions: set<string>, turns: set<TurnKey>, i: nat)
    requires HealedFirst([ev] + rest, sessions, turns)
    requires i < |rest| && rest[i].OpStarted? && TurnKey(rest[i].native, rest[i].turnSeq) in LeftTurns(ev, turns)
    ensures exists j :: 0 <= j < i && HealsTurn(rest[j], TurnKey(rest[i].native, rest[i].turnSeq))
  {
    var evs, k := [ev] + rest, TurnKey(rest[i].native, rest[i].turnSeq);
    assert evs[i + 1] == rest[i];
    var j :| 0 <= j < i + 1 && HealsTurn(evs[j], k);
    assert j > 0 && HealsTurn(rest[j - 1], k);
  }

  /** The tables without caches and those with them, while no event has been refused: the same turns and ops, and
      the same sessions but for stale ones. */
  ghost predicate TablesAlike(plain: Tables, cached: Tables, sessions: set<string>) {
    && plain.turns.Keys == cached.turns.Keys
    && plain.ops.Keys == cached.ops.Keys
    && (forall k | k in plain.ops :: plain.ops[k].parent == cached.ops[k].parent)
    && cached.sessions.Keys <= plain.sessions.Keys <= cached.sessions.Keys + sessions
  }

  /** What is cached is stored or stale, and what is stale is cached. */
  ghost predicate CachesFit(cached: Tables, c: Caches, sessions: set<string>, turns: set<TurnKey>) {
    && sessions <= c.sessions && sessions !! cached.sessions.Keys
    && turns <= c.turns && turns !! cached.turns.Keys
    && (forall n | n in c.sessions && n != "" :: n in cached.sessions || n in sessions)
    && (forall k | k in c.turns && k.native != "" :: k in cached.turns || k in turns)
  }

  ghost predicate Alike(plain: Tables, cached: Tables, c: Caches, sessions: set<string>, turns: set<TurnKey>) {
    TablesAlike(plain, cached, sessions) && CachesFit(cached, c, sessions, turns)
  }

  lemma RequiredAlike(plain: Tables, cached: Tables, c: Caches, sessions: set<string>, turns: set<TurnKey>, ev: Event)
    requires Alike(plain, cached, c, sessions, turns) && NeedsSession(ev) && ev.native != ""
    ensures var p, q := Required(plain, NO_CACHES, ev), Required(cached, c, ev);
            && p.Ok? && q.Ok? && Alike(p.value, q.value, Caches(c.sessions + {ev.native}, c.turns), sessions, turns)
            && ev.native in p.value.sessions && (ev.native in q.value.sessions <==> ev.native !in sessions)
  {
    var p, q := WithStub(plain, ev.native, ev.ts), Required(cached, c, ev).value;
    assert p.sessions.Keys == plain.sessions.Keys + {ev.native} && p == plain.(sessions := p.sessions);
    if ev.native !in c.sessions {
      assert q.sessions.Keys == cached.sessions.Keys + {ev.native} && q == cached.(sessions := q.sessions);
    }
  }

  lemma TurnAlike(plain: Tables, cached: Tables, c: Caches, sessions: set<string>, turns: set<TurnKey>, key: TurnKey, a: TurnRow, b: TurnRow)
    requires Alike(plain, cached, c, sessions, turns)
    requires key.native in plain.sessions && (key.native in cached.sessions <==> key.native !in sessions)
    ensures var p, q := PutTurn(plain, key, a), PutTurn(cached, key, b);
            && p.Ok? && (q.Ok? <==> key.native !in sessions)
            && (q.Ok? ==> Alike(p.value, q.value, c, sessions, turns - {key}))
  {
    if key.native !in sessions {
      var p, q := PutTurn(plain, key, a).value, PutTurn(cached, key, b).value;
      assert p.turns.Keys == plain.turns.Keys + {key} && q.turns.Keys == cached.turns.Keys + {key};
      assert p == plain.(turns := p.turns) && q == cached.(turns := q.turns);
    }
  }

  lemma SynthesizedAlike(plain: Tables, cached: Tables, c: Caches, sessions: set<string>, turns: set<TurnKey>, key: TurnKey, ts: int)
    requires Alike(plain, cached, c, sessions, turns) && key !in c.turns
    requires key.native in plain.sessions && key.native in cached.sessions
    ensures var p, q := SynthesizeTurn(plain, key, ts), SynthesizeTurn(cached, key, ts);
            && p.Ok? && q.Ok? && Alike(p.value, q.value, Caches(c.sessions, c.turns + {key}), sessions, turns)
            && key in p.value.turns && p.value.sessions == plain.sessions && q.value.sessions == cached.sessions
  {
    if key !in plain.turns {
      TurnAlike(plain, cached, c, sessions, turns, key, TurnRow(ts, 0, "running"), TurnRow(ts, 0, "running"));
      assert turns - {key} == turns;
    }
  }

  lemma OpAlike(plain: Tables, cached: Tables, c: Caches, sessions: set<string>, turns: set<TurnKey>, ev: Event)
    requires Alike(plain, cached, c, sessions, turns) && ev.OpStarted? && TurnKey(ev.native, ev.turnSeq) in plain.turns
    requires ev.native in plain.sessions && ev.native in cached.sessions
    ensures var p, q := PutOp(plain, ev), PutOp(cached, ev);
            p.Ok? == q.Ok? && (q.Ok? ==> Alike(p.value, q.value, c, sessions, turns))
  {
    if PutOp(plain, ev).Ok? && PutOp(cached, ev).Ok? {
      var p, q, key := PutOp(plain, ev).value, PutOp(cached, ev).value, OpKey(TurnKey(ev.native, ev.turnSeq), ev.opSeq);
      assert p.ops.Keys == plain.ops.Keys + {key} && q.ops.Keys == cached.ops.Keys + {key};
      assert p == plain.(ops := p.ops) && q == cached.(ops := q.ops);
    }
  }

  lemma OpStartedAlike(plain: Tables, cached: Tables, c: Caches, sessions: set<string>, turns: set<TurnKey>, ev: Event)
    requires Alike(plain, cached, c, sessions, turns) && ev.OpStarted? && ev.native != ""
    requires ev.native in plain.sessions && (ev.native in cached.sessions <==> ev.native !in sessions)
    ensures var p, q := Body(plain, NO_CACHES, ev), Body(cached, c, ev);
            && (q.Ok? <==> p.Ok? && Safe(ev, sessions, turns))
            && (q.Ok? ==> Alike(p.value, q.value, Caches(c.sessions, c.turns + {TurnKey(ev.native, ev.turnSeq)}), sessions, turns))
  {
    var key := TurnKey(ev.native, ev.turnSeq);
    if ev.native !in sessions && key !in turns {
      if key in c.turns {
        assert c.turns + {key} == c.turns;
        OpAlike(plain, cached, c, sessions, turns, ev);
      } else {
        SynthesizedAlike(plain, cached, c, sessions, turns, key, ev.ts);
        OpAlike(SynthesizeTurn(plain, key, ev.ts).value, SynthesizeTurn(cached, key, ev.ts).value,
                Caches(c.sessions, c.turns + {key}), sessions, turns, ev);
      }
    }
  }

  lemma FinalizedAlike(plain: Tables, cached: Tables, c: Caches, sessions: set<string>, turns: set<TurnKey>, ev: Event)
    requires Alike(plain, cached, c, sessions, turns) && (ev.SessionFinalized? || ev.OpFinalized?)
    ensures var p, q := Body(plain, NO_CACHES, ev), Body(cached, c, ev);
            p.Ok? && q.Ok? && Alike(p.value, q.value, c, sessions, turns)
  {
    var p, q := Body(plain, NO_CACHES, ev).value, Body(cached, c, ev).value;
    assert p.sessions.Keys == plain.sessions.Keys && q.sessions.Keys == cached.sessions.Keys;
    assert p.ops.Keys == plain.ops.Keys && q.ops.Keys == cached.ops.Keys;
    assert p.turns == plain.turns && q.turns == cached.turns;
  }

  lemma BodyAlike(plain: Tables, cached: Tables, c: Caches, sessions: set<string>, turns: set<TurnKey>, ev: Event)
    requires NeedsSession(ev) && ev.native != "" && ev.native in c.sessions && Alike(plain, cached, c, sessions, turns)
    requires ev.native in plain.sessions && (ev.native in cached.sessions <==> ev.native !in sessions)
    ensures var p, q := Body(plain, NO_CACHES, ev), Body(cached, c, ev);
            && (q.Ok? <==> p.Ok? && Safe(ev, sessions, turns))
            && (q.Ok? ==> Alike(p.value, q.value, Cached(c, ev), sessions, LeftTurns(ev, turns)))
  {
    assert c.sessions + {ev.native} == c.sessions;
    match ev
    case SessionFinalized(_, _, _, _) => FinalizedAlike(plain, cached, c, sessions, turns, ev);
    case OpFinalized(_, _, _, _, _, _) => FinalizedAlike(plain, cached, c, sessions, turns, ev);
    case OpStarted(_, _, _, _, _) => OpStartedAlike(plain, cached, c, sessions, turns, ev);
    case TurnStarted(n, s, ts) =>
      var key := TurnKey(n, s);
      TurnAlike(plain, cached, c, sessions, turns, key,
                if key in plain.turns then plain.turns[key].(startTs := Min(plain.turns[key].startTs, ts)) else TurnRow(ts, 0, "running"),
                if key in cached.turns then cached.turns[key].(startTs := Min(cached.turns[key].startTs, ts)) else TurnRow(ts, 0, "running"));
    case TurnFinalized(n, s, ts, endTs, status) =>
      var key := TurnKey(n, s);
      TurnAlike(plain, cached, c, sessions, turns, key,
                TurnRow(if key in plain.turns then plain.turns[key].startTs else ts, endTs, NonEmpty(status, "completed")),
                TurnRow(if key in cached.turns then cached.turns[key].startTs else ts, endTs, NonEmpty(status, "completed")));
    case LogEntry(_, _, _, _, _) =>
  }

  lemma StartedAlike(plain: Tables, cached: Tables, c: Caches, sessions: set<string>, turns: set<TurnKey>, ev: Event)
    requires Alike(plain, cached, c, sessions, turns) && ev.SessionStarted? && ev.native != ""
    ensures Alike(PutSession(plain, ev.native, ev.ts).value, PutSession(cached, ev.native, ev.ts).value, c, LeftSessions(ev, sessions), turns)
  {
    var p, q := PutSession(plain, ev.native, ev.ts).value, PutSession(cached, ev.native, ev.ts).value;
    assert p.sessions.Keys == plain.sessions.Keys + {ev.native} && q.sessions.Keys == cached.sessions.Keys + {ev.native};
    assert p == plain.(sessions := p.sessions) && q == cached.(sessions := q.sessions);
  }

  lemma ApplyAlike(plain: Tables, cached: Tables, c: Caches, sessions: set<string>, turns: set<TurnKey>, ev: Event)
    requires Alike(plain, cached, c, sessions, turns)
    ensures var p, q := Plain(plain, ev), Apply(cached, c, ev);
            && (q.Ok? <==> p.Ok? && Safe(ev, sessions, turns))
            && (q.Ok? ==> Alike(p.value, q.value, Cached(c, ev), LeftSessions(ev, sessions), LeftTurns(ev, turns)))
  {
    if NeedsSession(ev) && ev.native != "" {
      RequiredAlike(plain, cached, c, sessions, turns, ev);
      BodyAlike(Required(plain, NO_CACHES, ev).value, Required(cached, c, ev).value, Caches(c.sessions + {ev.native}, c.turns),
                sessions, turns, ev);
      assert c.sessions + {ev.native} + {ev.native} == c.sessions + {ev.native};
      assert Cached(Caches(c.sessions + {ev.native}, c.turns), ev) == Cached(c, ev);
      assert Body(Required(cached, c, ev).value, Caches(c.sessions + {ev.native}, c.turns), ev) == Body(Required(cached, c, ev).value, c, ev);
    } else if ev.SessionStarted? && ev.native != "" {
      StartedAlike(plain, cached, c, sessions, turns, ev);
    }
  }

  lemma {:induction false} RetryFrom(plain: Tables, cached: Tables, c: Caches, sessions: set<string>, turns: set<TurnKey>, evs: seq<Event>)
    requires Alike(plain, cached, c, sessions, turns)
    ensures CachedAll(cached, c, evs).Ok? <==> PlainAll(plain, evs).Ok? && HealedFirst(evs, sessions, turns)
    decreases |evs|
  {
    if evs != [] {
      var ev, rest := evs[0], evs[1..];
      assert evs == [ev] + rest;
      PlainFirst(plain, evs);
      ApplyAlike(plain, cached, c, sessions, turns, ev);
      if Apply(cached, c, ev).Ok? {
        RetryFrom(Plain(plain, ev).value, Apply(cached, c, ev).value, Cached(c, ev), LeftSessions(ev, sessions), LeftTurns(ev, turns), rest);
        if HealedFirst(rest, LeftSessions(ev, sessions), LeftTurns(ev, turns)) {
          HealedNext(ev, rest, sessions, turns);
        }
      }
      if HealedFirst(evs, sessions, turns) {
        HealedRest(ev, rest, sessions, turns);
      }
    }
  }

  /** The coalescer leaves the caches as a failed attempt filled them (internal/ingest/coalescer.go:341-348). A batch
      applies through them if and only if it does without caches and, besides, every insert under a session or turn
      that is cached but not stored comes after an event that stores it: a SessionStarted, a TurnStarted or a
      TurnFinalized. */
  lemma RetrySucceedsIff(t: Tables, c: Caches, evs: seq<Event>)
    ensures CachedAll(t, c, evs).Ok? <==> PlainAll(t, evs).Ok? && HealedFirst(evs, StaleSessions(t, c), StaleTurns(t, c))
  {
    RetryFrom(t, t, c, StaleSessions(t, c), StaleTurns(t, c), evs);
  }

  /** The last cursor a progress event carried. */
  function LastCursor(evs: seq<Event>): Option<string> {
    if evs == [] then None
    else if evs[|evs| - 1].Progress? then Some(evs[|evs| - 1].cursor)
    else LastCursor(evs[..|evs| - 1])
  }

  lemma {:induction false} LastCursorSplit(a: seq<Event>, b: seq<Event>)
    ensures LastCursor(a + b) == if LastCursor(b).Some? then LastCursor(b) else LastCursor(a)
  {
    if b == [] {
      assert a + b == a;
    } else {
      assert (a + b)[..|a + b| - 1] == a + b[..|b| - 1];
      LastCursorSplit(a, b[..|b| - 1]);
    }
  }
}
