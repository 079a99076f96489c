/** The turn and session aggregate columns (internal/ingest/aggregates.go): recomputed for the turns and sessions
    a batch touched, turns first, sessions from the turn rows. Costs are exact reals here. */
module Aggregates {
  import opened Options
  import opened PrimaryRows

  datatype Totals = Totals(tokensIn: int, tokensOut: int, cacheRead: int, cacheWrite: int, cost: real, count: int)

  const ZERO := Totals(0, 0, 0, 0, 0.0, 0)

  function Plus(a: Totals, b: Totals): Totals {
    Totals(a.tokensIn + b.tokensIn, a.tokensOut + b.tokensOut, a.cacheRead + b.cacheRead,
           a.cacheWrite + b.cacheWrite, a.cost + b.cost, a.count + b.count)
  }

  function OfOp(op: OpRow): Totals {
    Totals(op.tokensIn, op.tokensOut, op.cacheRead, op.cacheWrite, op.costUsd, 1)
  }

  datatype TurnRow = TurnRow(id: TurnId, totals: Totals)
  datatype SessionRow = SessionRow(id: SessionId, totals: Totals, turnCount: nat, failures: nat)

  // ----- the definitions: sums over ops -----

  /** The first n ops of the turn. */
  function TurnSum(ops: seq<OpRow>, n: nat, t: TurnId): Totals
    requires n <= |ops|
  {
    if n == 0 then ZERO
    else if ops[n - 1].id.turn == t then Plus(TurnSum(ops, n - 1, t), OfOp(ops[n - 1]))
    else TurnSum(ops, n - 1, t)
  }

  function SessionSum(ops: seq<OpRow>, n: nat, s: SessionId): Totals
    requires n <= |ops|
  {
    if n == 0 then ZERO
    else if ops[n - 1].id.turn.session == s then Plus(SessionSum(ops, n - 1, s), OfOp(ops[n - 1]))
    else SessionSum(ops, n - 1, s)
  }

  function FailedCount(ops: seq<OpRow>, n: nat, s: SessionId): nat
    requires n <= |ops|
  {
    if n == 0 then 0
    else FailedCount(ops, n - 1, s)
         + if ops[n - 1].id.turn.session == s && ops[n - 1].status == FAILED then 1 else 0
  }

  /** SUM over the session's turn rows, as the session refresh reads them. */
  function TurnRowsSum(turns: seq<TurnRow>, m: nat, s: SessionId): Totals
    requires m <= |turns|
  {
    if m == 0 then ZERO
    else if turns[m - 1].id.session == s then Plus(TurnRowsSum(turns, m - 1, s), turns[m - 1].totals)
    else TurnRowsSum(turns, m - 1, s)
  }

  function TurnCount(turns: seq<TurnRow>, m: nat, s: SessionId): nat
    requires m <= |turns|
  {
    if m == 0 then 0 else TurnCount(turns, m - 1, s) + if turns[m - 1].id.session == s then 1 else 0
  }

  ghost predicate UniqueTurns(turns: seq<TurnRow>) {
    forall i, j | 0 <= i < j < |turns| :: turns[i].id != turns[j].id
  }

  /** The foreign key: every op's turn has a row. */
  ghost predicate TurnsStored(turns: seq<TurnRow>, ops: seq<OpRow>) {
    forall i | 0 <= i < |ops| :: StoredTurn(turns, ops[i].id.turn)
  }

  ghost predicate StoredTurn(turns: seq<TurnRow>, t: TurnId) {
    exists j :: 0 <= j < |turns| && turns[j].id == t
  }

  // ----- summing by turn and then by session is summing by session -----

  /** The session's turns, each summed over its first n ops. */
  function DoubleSum(turns: seq<TurnRow>, m: nat, ops: seq<OpRow>, n: nat, s: SessionId): Totals
    requires m <= |turns| && n <= |ops|
  {
    if m == 0 then ZERO
    else if turns[m - 1].id.session == s then Plus(DoubleSum(turns, m - 1, ops, n, s), TurnSum(ops, n, turns[m - 1].id))
    else DoubleSum(turns, m - 1, ops, n, s)
  }

  predicate HasTurn(turns: seq<TurnRow>, m: nat, t: TurnId)
    requires m <= |turns|
  {
    m > 0 && (turns[m - 1].id == t || HasTurn(turns, m - 1, t))
  }

  lemma {:induction false} HasTurnMeans(turns: seq<TurnRow>, m: nat, t: TurnId)
    requires m <= |turns|
    ensures HasTurn(turns, m, t) <==> exists j :: 0 <= j < m && turns[j].id == t
    ensures m == |turns| ==> (HasTurn(turns, m, t) <==> StoredTurn(turns, t))
  {
    if m > 0 {
      HasTurnMeans(turns, m - 1, t);
    }
  }

  /** One op more adds to exactly one turn. */
  lemma {:induction false} OneOpMore(turns: seq<TurnRow>, m: nat, ops: seq<OpRow>, n: nat, s: SessionId)
    requires UniqueTurns(turns) && m <= |turns| && 0 < n <= |ops|
    ensures var op := ops[n - 1];
            DoubleSum(turns, m, ops, n, s) ==
            if HasTurn(turns, m, op.id.turn) && op.id.turn.session == s
            then Plus(DoubleSum(turns, m, ops, n - 1, s), OfOp(op)) else DoubleSum(turns, m, ops, n - 1, s)
  {
    if m > 0 {
      OneOpMore(turns, m - 1, ops, n, s);
      HasTurnMeans(turns, m - 1, ops[n - 1].id.turn);
    }
  }

  lemma {:induction false} NoOps(turns: seq<TurnRow>, m: nat, ops: seq<OpRow>, s: SessionId)
    requires m <= |turns|
    ensures DoubleSum(turns, m, ops, 0, s) == ZERO
  {
    if m > 0 {
      NoOps(turns, m - 1, ops, s);
    }
  }

  lemma {:induction false} SumExchange(turns: seq<TurnRow>, ops: seq<OpRow>, n: nat, s: SessionId)
    requires UniqueTurns(turns) && TurnsStored(turns, ops) && n <= |ops|
    ensures DoubleSum(turns, |turns|, ops, n, s) == SessionSum(ops, n, s)
  {
    if n == 0 {
      NoOps(turns, |turns|, ops, s);
    } else {
      SumExchange(turns, ops, n - 1, s);
      OneOpMore(turns, |turns|, ops, n, s);
      HasTurnMeans(turns, |turns|, ops[n - 1].id.turn);
    }
  }

  ghost predicate TurnRight(row: TurnRow, ops: seq<OpRow>) {
    row.totals == TurnSum(ops, |ops|, row.id)
  }

  lemma {:induction false} RightRowsSum(turns: seq<TurnRow>, m: nat, ops: seq<OpRow>, s: SessionId)
    requires m <= |turns|
    requires forall j | 0 <= j < m && turns[j].id.session == s :: TurnRight(turns[j], ops)
    ensures TurnRowsSum(turns, m, s) == DoubleSum(turns, m, ops, |ops|, s)
  {
    if m > 0 {
      RightRowsSum(turns, m - 1, ops, s);
      assert turns[m - 1].id.session == s ==> TurnRight(turns[m - 1], ops);
    }
  }

  /** When a session's turn rows are right, their sum is the sum over the session's ops. */
  lemma SessionFromTurns(turns: seq<TurnRow>, ops: seq<OpRow>, s: SessionId)
    requires UniqueTurns(turns) && TurnsStored(turns, ops)
    requires forall j | 0 <= j < |turns| && turns[j].id.session == s :: TurnRight(turns[j], ops)
    ensures TurnRowsSum(turns, |turns|, s) == SessionSum(ops, |ops|, s)
  {
    RightRowsSum(turns, |turns|, ops, s);
    SumExchange(turns, ops, |ops|, s);
  }

  // ----- what an op write leaves alone -----

  /** ops' differs from ops only in rows of turn t, and at its end. */
  ghost predicate OnlyTurn(ops: seq<OpRow>, ops': seq<OpRow>, t: TurnId) {
    && |ops| <= |ops'|
    && (forall i | 0 <= i < |ops| :: ops'[i].id == ops[i].id && (ops[i].id.turn != t ==> ops'[i] == ops[i]))
    && (forall i | |ops| <= i < |ops'| :: ops'[i].id.turn == t)
  }

  lemma ApplyIsOnlyTurn(ops: seq<OpRow>, ev: OpEvent, pricer: Option<Pricer>)
    ensures OnlyTurn(ops, ApplyOpEvent(ops, ev, pricer), (if ev.Started? then ev.started.op else ev.finalized.op).turn)
    ensures ev.Finalized? ==> |ApplyOpEvent(ops, ev, pricer)| == |ops|
  {
  }

  lemma {:induction false} OtherSums(ops: seq<OpRow>, ops': seq<OpRow>, t: TurnId, n: nat, u: TurnId, s: SessionId)
    requires OnlyTurn(ops, ops', t) && n <= |ops'|
    ensures var k := if n < |ops| then n else |ops|;
            && (u != t ==> TurnSum(ops', n, u) == TurnSum(ops, k, u))
            && (s != t.session ==> SessionSum(ops', n, s) == SessionSum(ops, k, s)
                                   && FailedCount(ops', n, s) == FailedCount(ops, k, s))
  {
    if n > 0 {
      OtherSums(ops, ops', t, n - 1, u, s);
    }
  }

  // ----- a batch -----

  datatype Store = Store(
    ops: seq<OpRow>,
    turns: seq<TurnRow>,
    sessions: seq<SessionRow>,
    dirtyTurns: set<TurnId>,
    dirtySessions: set<SessionId>)

  const EMPTY := Store([], [], [], {}, {})

  /** The events that write sessions, turns or ops rows. */
  datatype Event = SessionEvent(session: SessionId) | TurnEvent(turn: TurnId) | OpWrite(write: OpEvent)

  predicate HasSession(sessions: seq<SessionRow>, s: SessionId) {
    exists i :: 0 <= i < |sessions| && sessions[i].id == s
  }

  /** A missing session is inserted and marked. */
  function WithSession(st: Store, s: SessionId): Store {
    if HasSession(st.sessions, s) then st
    else st.(sessions := st.sessions + [SessionRow(s, ZERO, 0, 0)], dirtySessions := st.dirtySessions + {s})
  }

  function WithTurn(st: Store, t: TurnId): Store {
    if HasTurn(st.turns, |st.turns|, t) then st else st.(turns := st.turns + [TurnRow(t, ZERO)])
  }

  function Marked(st: Store, t: TurnId): Store {
    st.(dirtyTurns := st.dirtyTurns + {t}, dirtySessions := st.dirtySessions + {t.session})
  }

  function TurnOf(w: OpEvent): TurnId {
    (if w.Started? then w.started.op else w.finalized.op).turn
  }

  function Apply(st: Store, ev: Event, pricer: Option<Pricer>): Store {
    match ev
    case SessionEvent(s) => var st1 := WithSession(st, s); st1.(dirtySessions := st1.dirtySessions + {s})
    case TurnEvent(t) => Marked(WithTurn(WithSession(st, t.session), t), t)
    case OpWrite(w) =>
      var st1 := WithSession(st, TurnOf(w).session);
      var st2 := if w.Started? then WithTurn(st1, TurnOf(w)) else st1;
      Marked(st2.(ops := ApplyOpEvent(st2.ops, w, pricer)), TurnOf(w))
  }

  function RefreshedTurn(row: TurnRow, st: Store): TurnRow {
    if row.id in st.dirtyTurns then row.(totals := TurnSum(st.ops, |st.ops|, row.id)) else row
  }

  function RefreshedTurns(st: Store): seq<TurnRow> {
    seq(|st.turns|, j requires 0 <= j < |st.turns| => RefreshedTurn(st.turns[j], st))
  }

  function RefreshedSession(row: SessionRow, turns: seq<TurnRow>, st: Store): SessionRow {
    if row.id in st.dirtySessions
    then SessionRow(row.id, TurnRowsSum(turns, |turns|, row.id), TurnCount(turns, |turns|, row.id),
                    FailedCount(st.ops, |st.ops|, row.id))
    else row
  }

  /** Turns first, then sessions from the refreshed turns; the marks are cleared once committed. */
  function Refreshed(st: Store): Store {
    var turns := RefreshedTurns(st);
    Store(st.ops, turns,
          seq(|st.sessions|, i requires 0 <= i < |st.sessions| => RefreshedSession(st.sessions[i], turns, st)), {}, {})
  }

  function ApplyAll(st: Store, evs: seq<Event>, pricer: Option<Pricer>): Store {
    if evs == [] then st else Apply(ApplyAll(st, evs[..|evs| - 1], pricer), evs[|evs| - 1], pricer)
  }

  // ----- only marked rows are behind -----

  ghost predicate SessionRight(row: SessionRow, turns: seq<TurnRow>, ops: seq<OpRow>) {
    && row.totals == SessionSum(ops, |ops|, row.id)
    && row.failures == FailedCount(ops, |ops|, row.id)
    && row.turnCount == TurnCount(turns, |turns|, row.id)
  }

  ghost predicate TurnHolds(st: Store, j: nat)
    requires j < |st.turns|
  {
    st.turns[j].id in st.dirtyTurns || TurnRight(st.turns[j], st.ops)
  }

  ghost predicate SessionHolds(st: Store, i: nat)
    requires i < |st.sessions|
  {
    st.sessions[i].id in st.dirtySessions || SessionRight(st.sessions[i], st.turns, st.ops)
  }

  ghost predicate Consistent(st: Store) {
    && UniqueTurns(st.turns) && TurnsStored(st.turns, st.ops)
    && (forall j | 0 <= j < |st.turns| :: TurnHolds(st, j))
    && (forall i | 0 <= i < |st.sessions| :: SessionHolds(st, i))
    && (forall t | t in st.dirtyTurns :: t.session in st.dirtySessions)
  }

  /** Every turn and session row is what its ops say. */
  ghost predicate AllRight(st: Store) {
    && (forall j | 0 <= j < |st.turns| :: TurnRight(st.turns[j], st.ops))
    && (forall i | 0 <= i < |st.sessions| :: SessionRight(st.sessions[i], st.turns, st.ops))
  }

  lemma {:induction false} NoSuchTurn(ops: seq<OpRow>, n: nat, t: TurnId)
    requires n <= |ops| && forall i | 0 <= i < |ops| :: ops[i].id.turn != t
    ensures TurnSum(ops, n, t) == ZERO
  {
    if n > 0 {
      NoSuchTurn(ops, n - 1, t);
    }
  }

  lemma {:induction false} CountAppend(turns: seq<TurnRow>, row: TurnRow, m: nat, s: SessionId)
    requires m <= |turns|
    ensures TurnCount(turns + [row], m, s) == TurnCount(turns, m, s)
  {
    if m > 0 {
      CountAppend(turns, row, m - 1, s);
    }
  }

  /** A new turn row starts at zero, which is right: no op can have come before it. */
  lemma WithTurnHolds(st: Store, t: TurnId)
    requires Consistent(st) && t.session in st.dirtySessions
    ensures Consistent(WithTurn(st, t)) && HasTurn(WithTurn(st, t).turns, |WithTurn(st, t).turns|, t)
  {
    HasTurnMeans(st.turns, |st.turns|, t);
    if !HasTurn(st.turns, |st.turns|, t) {
      var st' := WithTurn(st, t);
      NoSuchTurn(st.ops, |st.ops|, t);
      forall j | 0 <= j < |st'.turns|
        ensures TurnHolds(st', j)
      {
        if j < |st.turns| { assert TurnHolds(st, j); }
      }
      forall i | 0 <= i < |st.sessions|
        ensures SessionHolds(st', i)
      {
        assert SessionHolds(st, i);
        CountAppend(st.turns, TurnRow(t, ZERO), |st.turns|, st.sessions[i].id);
      }
      forall i | 0 <= i < |st.ops|
        ensures StoredTurn(st'.turns, st.ops[i].id.turn)
      {
        assert StoredTurn(st.turns, st.ops[i].id.turn);
        var j :| 0 <= j < |st.turns| && st.turns[j].id == st.ops[i].id.turn;
        assert st'.turns[j].id == st.ops[i].id.turn;
      }
    }
  }

  lemma MarkedSession(st: Store, s: SessionId)
    requires Consistent(st)
    ensures Consistent(WithSession(st, s).(dirtySessions := WithSession(st, s).dirtySessions + {s}))
  {
    var st' := WithSession(st, s).(dirtySessions := WithSession(st, s).dirtySessions + {s});
    forall j | 0 <= j < |st'.turns|
      ensures TurnHolds(st', j)
    {
      assert TurnHolds(st, j);
    }
    forall i | 0 <= i < |st'.sessions|
      ensures SessionHolds(st', i)
    {
      if i < |st.sessions| { assert SessionHolds(st, i); }
    }
  }

  /** An op write touches one turn and its session, and marks both. */
  lemma OpWriteHolds(st: Store, w: OpEvent, pricer: Option<Pricer>)
    requires Consistent(st) && (w.Started? ==> HasTurn(st.turns, |st.turns|, TurnOf(w)))
    ensures Consistent(Marked(st.(ops := ApplyOpEvent(st.ops, w, pricer)), TurnOf(w)))
  {
    var t, ops' := TurnOf(w), ApplyOpEvent(st.ops, w, pricer);
    var st' := Marked(st.(ops := ops'), t);
    ApplyIsOnlyTurn(st.ops, w, pricer);
    forall j | 0 <= j < |st.turns|
      ensures TurnHolds(st', j)
    {
      assert TurnHolds(st, j);
      OtherSums(st.ops, ops', t, |ops'|, st.turns[j].id, t.session);
    }
    forall i | 0 <= i < |st.sessions|
      ensures SessionHolds(st', i)
    {
      assert SessionHolds(st, i);
      OtherSums(st.ops, ops', t, |ops'|, t, st.sessions[i].id);
    }
    OpTurnsStored(st.turns, st.ops, w, pricer);
  }

  lemma OpTurnsStored(turns: seq<TurnRow>, ops: seq<OpRow>, w: OpEvent, pricer: Option<Pricer>)
    requires TurnsStored(turns, ops) && (w.Started? ==> HasTurn(turns, |turns|, TurnOf(w)))
    ensures TurnsStored(turns, ApplyOpEvent(ops, w, pricer))
  {
    var ops' := ApplyOpEvent(ops, w, pricer);
    HasTurnMeans(turns, |turns|, TurnOf(w));
    ApplyIsOnlyTurn(ops, w, pricer);
    forall i | 0 <= i < |ops'|
      ensures StoredTurn(turns, ops'[i].id.turn)
    {
      if i < |ops| {
        assert ops'[i].id.turn == ops[i].id.turn && StoredTurn(turns, ops[i].id.turn);
      }
    }
  }

  lemma StepHolds(st: Store, ev: Event, pricer: Option<Pricer>)
    requires Consistent(st)
    ensures Consistent(Apply(st, ev, pricer))
  {
    match ev
    case SessionEvent(s) => MarkedSession(st, s);
    case TurnEvent(t) =>
      MarkedSession(st, t.session);
      var st1 := WithSession(st, t.session).(dirtySessions := WithSession(st, t.session).dirtySessions + {t.session});
      WithTurnHolds(st1, t);
      MarkTurn(WithTurn(st1, t), t);
    case OpWrite(w) =>
      var t := TurnOf(w);
      MarkedSession(st, t.session);
      var st1 := WithSession(st, t.session).(dirtySessions := WithSession(st, t.session).dirtySessions + {t.session});
      WithTurnHolds(st1, t);
      OpWriteHolds(if w.Started? then WithTurn(st1, t) else st1, w, pricer);
  }

  lemma MarkTurn(st: Store, t: TurnId)
    requires Consistent(st)
    ensures Consistent(Marked(st, t))
  {
    forall j | 0 <= j < |st.turns|
      ensures TurnHolds(Marked(st, t), j)
    {
      assert TurnHolds(st, j);
    }
    forall i | 0 <= i < |st.sessions|
      ensures SessionHolds(Marked(st, t), i)
    {
      assert SessionHolds(st, i);
    }
  }

  /** The refresh makes every row right. */
  lemma RefreshIsRight(st: Store)
    requires Consistent(st)
    ensures AllRight(Refreshed(st)) && Consistent(Refreshed(st))
  {
    var st' := Refreshed(st);
    RefreshTurnsRight(st);
    forall i | 0 <= i < |st.sessions|
      ensures SessionRight(st'.sessions[i], st'.turns, st'.ops)
    {
      var s := st.sessions[i].id;
      assert SessionHolds(st, i);
      SameCount(st.turns, st'.turns, |st.turns|, s);
      SessionFromTurns(st'.turns, st.ops, s);
    }
  }

  lemma RefreshTurnsRight(st: Store)
    requires Consistent(st)
    ensures var turns := RefreshedTurns(st);
            && UniqueTurns(turns) && TurnsStored(turns, st.ops)
            && forall j | 0 <= j < |turns| :: TurnRight(turns[j], st.ops)
  {
    var turns := RefreshedTurns(st);
    forall j | 0 <= j < |turns|
      ensures TurnRight(turns[j], st.ops)
    {
      assert TurnHolds(st, j);
    }
    SameIds(st.turns, turns, st.ops);
  }

  lemma SameIds(a: seq<TurnRow>, b: seq<TurnRow>, ops: seq<OpRow>)
    requires |a| == |b| && forall j | 0 <= j < |a| :: a[j].id == b[j].id
    requires UniqueTurns(a) && TurnsStored(a, ops)
    ensures UniqueTurns(b) && TurnsStored(b, ops)
  {
    forall i | 0 <= i < |ops|
      ensures StoredTurn(b, ops[i].id.turn)
    {
      assert StoredTurn(a, ops[i].id.turn);
      var j :| 0 <= j < |a| && a[j].id == ops[i].id.turn;
      assert b[j].id == ops[i].id.turn;
    }
  }

  lemma {:induction false} SameCount(a: seq<TurnRow>, b: seq<TurnRow>, m: nat, s: SessionId)
    requires |a| == |b| && m <= |a| && forall j | 0 <= j < |a| :: a[j].id == b[j].id
    ensures TurnCount(a, m, s) == TurnCount(b, m, s)
  {
    if m > 0 {
      SameCount(a, b, m - 1, s);
    }
  }

  lemma {:induction false} BatchHolds(st: Store, evs: seq<Event>, pricer: Option<Pricer>)
    requires Consistent(st)
    ensures Consistent(ApplyAll(st, evs, pricer))
  {
    if evs != [] {
      BatchHolds(st, evs[..|evs| - 1], pricer);
      StepHolds(ApplyAll(st, evs[..|evs| - 1], pricer), evs[|evs| - 1], pricer);
    }
  }

  // ----- every run -----

  datatype Flush = Flush(events: seq<Event>, pricer: Option<Pricer>, commits: bool)

  /** A failed flush is rolled back and its marks are reset. */
  function Run(flushes: seq<Flush>): Store {
    if flushes == [] then EMPTY
    else
      var before, f := Run(flushes[..|flushes| - 1]), flushes[|flushes| - 1];
      if f.commits then Refreshed(ApplyAll(before, f.events, f.pricer)) else before
  }

  /** After every flush, committed or not, every turn's columns are the sums over its ops and every session's
      the sums over all its ops, with the number of its turns and of its failed ops. */
  lemma {:induction false} RunIsRight(flushes: seq<Flush>)
    ensures AllRight(Run(flushes)) && Consistent(Run(flushes))
  {
    if flushes != [] {
      var f := flushes[|flushes| - 1];
      RunIsRight(flushes[..|flushes| - 1]);
      if f.commits {
        BatchHolds(Run(flushes[..|flushes| - 1]), f.events, f.pricer);
        RefreshIsRight(ApplyAll(Run(flushes[..|flushes| - 1]), f.events, f.pricer));
      }
    }
  }

  // ----- the same in place -----

  class AggregateStore {
    var ops: seq<OpRow>
    var turns: seq<TurnRow>
    var sessions: seq<SessionRow>
    var dirtyTurns: set<TurnId>
    var dirtySessions: set<SessionId>

    function State(): Store
      reads this
    {
      Store(ops, turns, sessions, dirtyTurns, dirtySessions)
    }

    constructor ()
      ensures State() == EMPTY
    {
      ops, turns, sessions, dirtyTurns, dirtySessions := [], [], [], {}, {};
    }

    method RequireSession(s: SessionId)
      modifies this`sessions, this`dirtySessions
      ensures State() == WithSession(old(State()), s)
    {
      var i := 0;
      while i < |sessions| && sessions[i].id != s
        invariant i <= |sessions| && forall j | 0 <= j < i :: sessions[j].id != s
      {
        i := i + 1;
      }
      if i == |sessions| {
        sessions := sessions + [SessionRow(s, ZERO, 0, 0)];
        dirtySessions := dirtySessions + {s};
      }
    }

    method InsertTurn(t: TurnId)
      modifies this`turns
      ensures State() == WithTurn(old(State()), t)
    {
      if !HasTurn(turns, |turns|, t) {
        turns := turns + [TurnRow(t, ZERO)];
      }
    }

    method Mark(t: TurnId)
      modifies this`dirtyTurns, this`dirtySessions
      ensures State() == Marked(old(State()), t)
    {
      dirtyTurns := dirtyTurns + {t};
      dirtySessions := dirtySessions + {t.session};
    }

    method ApplyEvent(ev: Event, pricer: Option<Pricer>)
      modifies this
      ensures State() == Apply(old(State()), ev, pricer)
    {
      match ev {
        case SessionEvent(s) =>
          RequireSession(s);
          dirtySessions := dirtySessions + {s};
        case TurnEvent(t) =>
          RequireSession(t.session);
          InsertTurn(t);
          Mark(t);
        case OpWrite(w) =>
          RequireSession(TurnOf(w).session);
          if w.Started? {
            InsertTurn(TurnOf(w));
          }
          ops := ApplyOpEvent(ops, w, pricer);
          Mark(TurnOf(w));
      }
    }

    /** UPDATE turns SET ... WHERE id IN (dirty). */
    method RefreshTurnAggregates()
      modifies this`turns
      ensures turns == RefreshedTurns(old(State()))
    {
      ghost var was := State();
      var j := 0;
      while j < |turns|
        invariant j <= |turns| == |was.turns| && State() == was.(turns := turns)
        invariant forall k | 0 <= k < j :: turns[k] == RefreshedTurn(was.turns[k], was)
        invariant forall k | j <= k < |turns| :: turns[k] == was.turns[k]
      {
        if turns[j].id in dirtyTurns {
          turns := turns[j := turns[j].(totals := TurnSum(ops, |ops|, turns[j].id))];
        }
        j := j + 1;
      }
    }

    /** UPDATE sessions SET ... WHERE id IN (dirty), over the turn rows as they now are. */
    method RefreshSessionAggregates()
      modifies this`sessions
      ensures |sessions| == |old(sessions)|
      ensures forall i | 0 <= i < |sessions| :: sessions[i] == RefreshedSession(old(sessions)[i], turns, old(State()))
    {
      ghost var was := State();
      var i := 0;
      while i < |sessions|
        invariant i <= |sessions| == |was.sessions| && State() == was.(sessions := sessions)
        invariant forall k | 0 <= k < i :: sessions[k] == RefreshedSession(was.sessions[k], turns, was)
        invariant forall k | i <= k < |sessions| :: sessions[k] == was.sessions[k]
      {
        var row := sessions[i];
        if row.id in dirtySessions {
          sessions := sessions[i := SessionRow(row.id, TurnRowsSum(turns, |turns|, row.id), TurnCount(turns, |turns|, row.id),
                                               FailedCount(ops, |ops|, row.id))];
        }
        i := i + 1;
      }
    }

    method RefreshAggregates()
      modifies this`turns, this`sessions
      ensures State() == Refreshed(old(State())).(dirtyTurns := old(dirtyTurns), dirtySessions := old(dirtySessions))
    {
      RefreshTurnAggregates();
      RefreshSessionAggregates();
    }

    /** One transaction: `fault` is the event before which it fails, |events| standing for the commit. */
    method FlushEvents(events: seq<Event>, pricer: Option<Pricer>, fault: nat) returns (ok: bool)
      requires dirtyTurns == {} && dirtySessions == {}
      modifies this
      ensures ok == (fault > |events|)
      ensures State() == if ok then Refreshed(ApplyAll(old(State()), events, pricer)) else old(State())
    {
      var wasOps, wasTurns, wasSessions := ops, turns, sessions;
      ghost var was := State();
      var i := 0;
      while i < |events| && i != fault
        invariant i <= |events| && i <= fault && State() == ApplyAll(was, events[..i], pricer)
      {
        assert events[..i + 1][..i] == events[..i];
        ApplyEvent(events[i], pricer);
        i := i + 1;
      }
      ok := fault > |events|;
      if ok {
        assert events[..i] == events;
        RefreshAggregates();
      } else {
        ops, turns, sessions := wasOps, wasTurns, wasSessions;
      }
      dirtyTurns, dirtySessions := {}, {};
    }
  }
}
