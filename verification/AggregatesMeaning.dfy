/** What the turn and session columns say, read off the op rows alone, and which rows there are. Nothing here uses the
    sums the refresh is defined by. */
module AggregatesMeaning {
  import opened Options
  import opened PrimaryRows
  import opened OrderedRows
  import opened Sums
  import opened Aggregates

  ghost predicate Columns(t: Totals, ops: seq<OpRow>) {
    && t.count == |ops|
    && t.tokensIn == SumBy((op: OpRow) => op.tokensIn, ops)
    && t.tokensOut == SumBy((op: OpRow) => op.tokensOut, ops)
    && t.cacheRead == SumBy((op: OpRow) => op.cacheRead, ops)
    && t.cacheWrite == SumBy((op: OpRow) => op.cacheWrite, ops)
    && t.cost == RealSumBy((op: OpRow) => op.costUsd, ops)
  }

  lemma NoRows()
    ensures Columns(ZERO, [])
  {
  }

  lemma OneMore(t: Totals, ops: seq<OpRow>, op: OpRow)
    requires Columns(t, ops)
    ensures Columns(Plus(t, OfOp(op)), ops + [op])
  {
    OneRowMore(ops, op);
  }

  lemma NextRow(t: Totals, ops: seq<OpRow>, op: OpRow, counts: bool, t': Totals, ops': seq<OpRow>)
    requires Columns(t, ops)
    requires t' == (if counts then Plus(t, OfOp(op)) else t) && ops' == ops + if counts then [op] else []
    ensures Columns(t', ops')
  {
    if counts {
      OneMore(t, ops, op);
    } else {
      assert ops' == ops;
    }
  }

  lemma {:induction false} TurnSumMeans(ops: seq<OpRow>, n: nat, t: TurnId, p: OpRow -> bool, rows: seq<OpRow>)
    requires n <= |ops| && (forall op :: p(op) <==> op.id.turn == t) && rows == Filter(p, ops[..n])
    ensures Columns(TurnSum(ops, n, t), rows)
  {
    if n == 0 {
      NoRows();
    } else {
      var before := Filter(p, ops[..n - 1]);
      TurnSumMeans(ops, n - 1, t, p, before);
      FilterNext(p, ops, n - 1);
      NextRow(TurnSum(ops, n - 1, t), before, ops[n - 1], p(ops[n - 1]), TurnSum(ops, n, t), rows);
    }
  }

  lemma {:induction false} SessionSumMeans(ops: seq<OpRow>, n: nat, s: SessionId, p: OpRow -> bool, rows: seq<OpRow>)
    requires n <= |ops| && (forall op :: p(op) <==> op.id.turn.session == s) && rows == Filter(p, ops[..n])
    ensures Columns(SessionSum(ops, n, s), rows)
  {
    if n == 0 {
      NoRows();
    } else {
      var before := Filter(p, ops[..n - 1]);
      SessionSumMeans(ops, n - 1, s, p, before);
      FilterNext(p, ops, n - 1);
      NextRow(SessionSum(ops, n - 1, s), before, ops[n - 1], p(ops[n - 1]), SessionSum(ops, n, s), rows);
    }
  }

  lemma {:induction false} FailedCountMeans(ops: seq<OpRow>, n: nat, s: SessionId, p: OpRow -> bool)
    requires n <= |ops| && forall op :: p(op) <==> op.id.turn.session == s && op.status == "failed"
    ensures FailedCount(ops, n, s) == |Filter(p, ops[..n])|
  {
    if n > 0 {
      FailedCountMeans(ops, n - 1, s, p);
      FilterNext(p, ops, n - 1);
    }
  }

  lemma {:induction false} TurnCountMeans(turns: seq<TurnRow>, m: nat, s: SessionId)
    requires m <= |turns|
    ensures TurnCount(turns, m, s) == |Filter((row: TurnRow) => row.id.session == s, turns[..m])|
  {
    if m > 0 {
      TurnCountMeans(turns, m - 1, s);
      FilterNext((row: TurnRow) => row.id.session == s, turns, m - 1);
    }
  }

  // ----- which rows there are -----

  /** The ops that the committed flushes' op events write, in order. */
  function Written(flushes: seq<Flush>): seq<OpRow> {
    if flushes == [] then []
    else
      var before, f := Written(flushes[..|flushes| - 1]), flushes[|flushes| - 1];
      if f.commits then AllWritten(before, f.events, f.pricer) else before
  }

  function AllWritten(ops: seq<OpRow>, evs: seq<Event>, pricer: Option<Pricer>): seq<OpRow> {
    if evs == [] then ops
    else
      var before, ev := AllWritten(ops, evs[..|evs| - 1], pricer), evs[|evs| - 1];
      if ev.OpWrite? then ApplyOpEvent(before, ev.write, pricer) else before
  }

  lemma {:induction false} BatchWrites(st: Store, evs: seq<Event>, pricer: Option<Pricer>)
    ensures ApplyAll(st, evs, pricer).ops == AllWritten(st.ops, evs, pricer)
  {
    if evs != [] {
      BatchWrites(st, evs[..|evs| - 1], pricer);
    }
  }

  /** The event's session has a row, and so has its turn when a turn or an op start names it. */
  ghost predicate Rowed(st: Store, ev: Event) {
    match ev
    case SessionEvent(s) => HasSession(st.sessions, s)
    case TurnEvent(t) => HasSession(st.sessions, t.session) && StoredTurn(st.turns, t)
    case OpWrite(Started(e)) => HasSession(st.sessions, e.op.turn.session) && StoredTurn(st.turns, e.op.turn)
    case OpWrite(Finalized(e)) => HasSession(st.sessions, e.op.turn.session)
  }

  /** Rows stay, in their places. */
  ghost predicate Keeps(st: Store, st': Store) {
    && |st.sessions| <= |st'.sessions| && (forall i | 0 <= i < |st.sessions| :: st'.sessions[i].id == st.sessions[i].id)
    && |st.turns| <= |st'.turns| && (forall j | 0 <= j < |st.turns| :: st'.turns[j].id == st.turns[j].id)
  }

  lemma KeptRowed(st: Store, st': Store, ev: Event)
    requires Keeps(st, st') && Rowed(st, ev)
    ensures Rowed(st', ev)
  {
    forall s | HasSession(st.sessions, s)
      ensures HasSession(st'.sessions, s)
    {
      var i :| 0 <= i < |st.sessions| && st.sessions[i].id == s;
      assert st'.sessions[i].id == s;
    }
    forall t | StoredTurn(st.turns, t)
      ensures StoredTurn(st'.turns, t)
    {
      var j :| 0 <= j < |st.turns| && st.turns[j].id == t;
      assert st'.turns[j].id == t;
    }
  }

  lemma SessionIsRowed(st: Store, s: SessionId)
    ensures HasSession(WithSession(st, s).sessions, s)
  {
    if !HasSession(st.sessions, s) {
      assert WithSession(st, s).sessions[|st.sessions|].id == s;
    }
  }

  lemma TurnIsRowed(st: Store, t: TurnId)
    ensures StoredTurn(WithTurn(st, t).turns, t)
  {
    HasTurnMeans(st.turns, |st.turns|, t);
    if !HasTurn(st.turns, |st.turns|, t) {
      assert WithTurn(st, t).turns[|st.turns|].id == t;
    }
  }

  lemma StepRows(st: Store, ev: Event, pricer: Option<Pricer>)
    ensures Keeps(st, Apply(st, ev, pricer)) && Rowed(Apply(st, ev, pricer), ev)
  {
    match ev
    case SessionEvent(s) => SessionIsRowed(st, s);
    case TurnEvent(t) =>
      SessionIsRowed(st, t.session);
      TurnIsRowed(WithSession(st, t.session), t);
    case OpWrite(w) =>
      SessionIsRowed(st, TurnOf(w).session);
      TurnIsRowed(WithSession(st, TurnOf(w).session), TurnOf(w));
  }

  lemma {:induction false} BatchRows(st: Store, evs: seq<Event>, pricer: Option<Pricer>)
    ensures Keeps(st, ApplyAll(st, evs, pricer))
    ensures forall ev | ev in evs :: Rowed(ApplyAll(st, evs, pricer), ev)
  {
    if evs != [] {
      var n := |evs| - 1;
      var st1 := ApplyAll(st, evs[..n], pricer);
      BatchRows(st, evs[..n], pricer);
      StepRows(st1, evs[n], pricer);
      forall ev | ev in evs
        ensures Rowed(Apply(st1, evs[n], pricer), ev)
      {
        if ev in evs[..n] {
          KeptRowed(st1, Apply(st1, evs[n], pricer), ev);
        }
      }
    }
  }

  lemma {:induction false} RunRows(flushes: seq<Flush>)
    ensures Run(flushes).ops == Written(flushes)
    ensures forall f, ev | f in flushes && f.commits && ev in f.events :: Rowed(Run(flushes), ev)
  {
    if flushes != [] {
      var n := |flushes| - 1;
      var before, f := Run(flushes[..n]), flushes[n];
      RunRows(flushes[..n]);
      var applied := ApplyAll(before, f.events, f.pricer);
      BatchWrites(before, f.events, f.pricer);
      BatchRows(before, f.events, f.pricer);
      forall g, ev | g in flushes && g.commits && ev in g.events
        ensures Rowed(Run(flushes), ev)
      {
        if f.commits {
          assert Keeps(applied, Refreshed(applied));
          if g in flushes[..n] {
            KeptRowed(before, applied, ev);
          }
          KeptRowed(applied, Refreshed(applied), ev);
        }
      }
    }
  }

  /** After every flush, committed or not: the ops are those the committed events wrote, every session and turn they
      name has a row, and each row's columns are the counts and sums over its ops. */
  lemma RunMeans(flushes: seq<Flush>)
    ensures var st := Run(flushes);
            && st.ops == Written(flushes)
            && (forall f, ev | f in flushes && f.commits && ev in f.events :: Rowed(st, ev))
            && (forall row | row in st.turns :: Columns(row.totals, Filter((op: OpRow) => op.id.turn == row.id, st.ops)))
            && (forall row | row in st.sessions ::
                  && Columns(row.totals, Filter((op: OpRow) => op.id.turn.session == row.id, st.ops))
                  && row.turnCount == |Filter((turn: TurnRow) => turn.id.session == row.id, st.turns)|
                  && row.failures == |Filter((op: OpRow) => op.id.turn.session == row.id && op.status == "failed", st.ops)|)
  {
    var st := Run(flushes);
    RunRows(flushes);
    RunIsRight(flushes);
    assert st.ops[..|st.ops|] == st.ops && st.turns[..|st.turns|] == st.turns;
    forall row | row in st.turns
      ensures Columns(row.totals, Filter((op: OpRow) => op.id.turn == row.id, st.ops))
    {
      assert TurnRight(row, st.ops);
      TurnSumMeans(st.ops, |st.ops|, row.id, (op: OpRow) => op.id.turn == row.id, Filter((op: OpRow) => op.id.turn == row.id, st.ops));
    }
    forall row | row in st.sessions
      ensures Columns(row.totals, Filter((op: OpRow) => op.id.turn.session == row.id, st.ops))
      ensures row.turnCount == |Filter((turn: TurnRow) => turn.id.session == row.id, st.turns)|
      ensures row.failures == |Filter((op: OpRow) => op.id.turn.session == row.id && op.status == "failed", st.ops)|
    {
      assert SessionRight(row, st.turns, st.ops);
      SessionSumMeans(st.ops, |st.ops|, row.id, (op: OpRow) => op.id.turn.session == row.id,
                      Filter((op: OpRow) => op.id.turn.session == row.id, st.ops));
      FailedCountMeans(st.ops, |st.ops|, row.id, (op: OpRow) => op.id.turn.session == row.id && op.status == "failed");
      TurnCountMeans(st.turns, |st.turns|, row.id);
    }
  }
}
