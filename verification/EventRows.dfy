/** What one event does to the stored rows, table by table and row by row, and when it is refused; nothing here uses
    the writer's statements or its caches (internal/ingest/writer.go). */
module EventRows {
  import opened Options
  import opened BatchCaches

  ghost predicate SameBut<K(!new), V>(a: map<K, V>, b: map<K, V>, k: K) {
    forall x | x != k :: (x in b <==> x in a) && (x in a ==> b[x] == a[x])
  }

  /** The session named: started, finalized, or a stub from the event's time when nobody has started it. */
  ghost predicate SessionAfter(a: map<string, SessionRow>, ev: Event, b: map<string, SessionRow>)
    requires !ev.Progress?
  {
    && SameBut(a, b, ev.native) && ev.native in b
    && var was := if ev.native in a then a[ev.native] else SessionRow(ev.ts, 0, "running", ev.ts);
       var now := b[ev.native];
       match ev
       case SessionStarted(_, ts) =>
         && now.startTs == (if ts < was.startTs then ts else was.startTs)
         && now.lastTs == (if ts > was.lastTs then ts else was.lastTs)
         && now.endTs == was.endTs && now.status == was.status
       case SessionFinalized(_, ts, endTs, status) =>
         && now.startTs == was.startTs && now.endTs == endTs
         && now.status == (if status == "" then "completed" else status)
         && now.lastTs == (if ts > was.lastTs then ts else was.lastTs)
       case _ => now == was
  }

  /** A turn start may move the start back; a finalize sets the end and the status; an op start only makes the turn. */
  ghost predicate TurnAfter(a: map<TurnKey, TurnRow>, ev: Event, b: map<TurnKey, TurnRow>) {
    if !ev.TurnStarted? && !ev.TurnFinalized? && !ev.OpStarted? then b == a
    else
      var k := TurnKey(ev.native, ev.turnSeq);
      && SameBut(a, b, k) && k in b
      && match ev
         case TurnStarted(_, _, ts) =>
           if k !in a then b[k].startTs == ts && b[k].endTs == 0 && b[k].status == "running"
           else b[k].startTs == (if ts < a[k].startTs then ts else a[k].startTs) && b[k].endTs == a[k].endTs && b[k].status == a[k].status
         case TurnFinalized(_, _, ts, endTs, status) =>
           && b[k].startTs == (if k in a then a[k].startTs else ts)
           && b[k].endTs == endTs && b[k].status == if status == "" then "completed" else status
         case _ => b[k] == if k in a then a[k] else TurnRow(ev.ts, 0, "running")
  }

  /** The parent an op start leaves the op with: the stored one, else the one named. */
  function ParentAfter(a: map<OpKey, OpRow>, ev: Event): Option<OpKey>
    requires ev.OpStarted?
  {
    var turn := TurnKey(ev.native, ev.turnSeq);
    if OpKey(turn, ev.opSeq) in a && a[OpKey(turn, ev.opSeq)].parent.Some? then a[OpKey(turn, ev.opSeq)].parent
    else if ev.parentOpSeq >= 0 then Some(OpKey(turn, ev.parentOpSeq))
    else None
  }

  /** A finalize gives a stored op the status, and the end when start and end are known and in order; an orphan
      finalize changes nothing. */
  ghost predicate OpAfter(a: map<OpKey, OpRow>, ev: Event, b: map<OpKey, OpRow>) {
    match ev
    case OpStarted(n, s, o, _, ts) =>
      var k := OpKey(TurnKey(n, s), o);
      && SameBut(a, b, k) && k in b && b[k].parent == ParentAfter(a, ev)
      && if k !in a then b[k].startTs == ts && b[k].endTs == 0 && b[k].status == "running"
         else b[k].startTs == (if ts < a[k].startTs then ts else a[k].startTs) && b[k].endTs == a[k].endTs && b[k].status == a[k].status
    case OpFinalized(n, s, o, _, endTs, status) =>
      var k := OpKey(TurnKey(n, s), o);
      && SameBut(a, b, k) && (k in b <==> k in a)
      && (k in a ==>
            && b[k].status == (if status == "" then "completed" else status)
            && b[k].endTs == (if 0 < a[k].startTs <= endTs then endTs else a[k].endTs)
            && b[k].startTs == a[k].startTs && b[k].parent == a[k].parent)
    case _ => b == a
  }

  /** A log entry points to its turn and op when it names them. */
  ghost predicate LogAfter(a: set<LogRow>, ev: Event, b: set<LogRow>) {
    match ev
    case LogEntry(n, s, o, ts, message) =>
      var turn := if s > 0 then Some(TurnKey(n, s)) else None;
      var op := if s > 0 && o > 0 then Some(OpKey(TurnKey(n, s), o)) else None;
      forall row :: row in b <==> row in a || row == LogRow(n, turn, op, ts, message)
    case _ => b == a
  }

  ghost predicate Does(t: Tables, ev: Event, t': Tables) {
    if ev.Progress? then t' == t
    else
      && SessionAfter(t.sessions, ev, t'.sessions) && TurnAfter(t.turns, ev, t'.turns)
      && OpAfter(t.ops, ev, t'.ops) && LogAfter(t.logs, ev, t'.logs)
  }

  /** No session is named, or a foreign key is not stored: an op's parent, a log entry's turn or op. */
  predicate Refused(t: Tables, ev: Event) {
    !ev.Progress? &&
    (ev.native == "" ||
     match ev
     case OpStarted(n, s, o, _, _) =>
       var parent := ParentAfter(t.ops, ev);
       parent.Some? && parent.value !in t.ops && parent.value != OpKey(TurnKey(n, s), o)
     case LogEntry(n, s, o, _, _) =>
       s > 0 && (TurnKey(n, s) !in t.turns || (o > 0 && OpKey(TurnKey(n, s), o) !in t.ops))
     case _ => false)
  }

  lemma StartedDoes(t: Tables, ev: Event)
    requires ev.OpStarted? && ev.native != ""
    ensures Plain(t, ev).Ok? <==> !Refused(t, ev)
    ensures Plain(t, ev).Ok? ==> Does(t, ev, Plain(t, ev).value)
  {
    var stubbed := WithStub(t, ev.native, ev.ts);
    var turned := SynthesizeTurn(stubbed, TurnKey(ev.native, ev.turnSeq), ev.ts);
    assert Plain(t, ev) == PutOp(turned.value, ev);
  }

  /** An event is refused exactly then, and otherwise does exactly this. */
  lemma PlainDoes(t: Tables, ev: Event)
    ensures Plain(t, ev).Ok? <==> !Refused(t, ev)
    ensures Plain(t, ev).Ok? ==> Does(t, ev, Plain(t, ev).value)
  {
    if ev.OpStarted? && ev.native != "" {
      StartedDoes(t, ev);
    }
  }

  /** Event after event, each doing that to the rows the one before left. */
  ghost predicate RowByRow(t: Tables, evs: seq<Event>, t': Tables) {
    if evs == [] then t' == t
    else exists mid :: LastDoes(mid, evs, t') && RowByRow(t, evs[..|evs| - 1], mid)
  }

  ghost predicate LastDoes(mid: Tables, evs: seq<Event>, t': Tables)
    requires evs != []
  {
    !Refused(mid, evs[|evs| - 1]) && Does(mid, evs[|evs| - 1], t')
  }

  lemma {:induction false} AppliedRowByRow(t: Tables, evs: seq<Event>)
    requires PlainAll(t, evs).Ok?
    ensures RowByRow(t, evs, PlainAll(t, evs).value)
  {
    if evs != [] {
      var n := |evs| - 1;
      AppliedRowByRow(t, evs[..n]);
      PlainDoes(PlainAll(t, evs[..n]).value, evs[n]);
      assert LastDoes(PlainAll(t, evs[..n]).value, evs, PlainAll(t, evs).value);
    }
  }

  // ----- what a finalize leaves after the whole batch -----

  predicate Finalizes(ev: Event, k: OpKey) {
    ev.OpFinalized? && OpKey(TurnKey(ev.native, ev.turnSeq), ev.opSeq) == k
  }

  /** An op stored before the batch, which the batch last finalizes so. */
  ghost predicate Settled(was: OpRow, ev: Event, now: OpRow)
    requires ev.OpFinalized?
  {
    && now.status == (if ev.status == "" then "completed" else ev.status)
    && now.startTs <= was.startTs
    && (0 < now.startTs && was.startTs <= ev.endTs ==> now.endTs == ev.endTs)
  }

  lemma {:induction false} StoredOpsStay(t: Tables, evs: seq<Event>, t': Tables, k: OpKey)
    requires RowByRow(t, evs, t') && k in t.ops
    ensures k in t'.ops && t'.ops[k].startTs <= t.ops[k].startTs
  {
    if evs != [] {
      var n := |evs| - 1;
      var mid :| LastDoes(mid, evs, t') && RowByRow(t, evs[..n], mid);
      StoredOpsStay(t, evs[..n], mid, k);
    }
  }

  ghost predicate LastFinalizes(evs: seq<Event>, i: nat, k: OpKey) {
    i < |evs| && Finalizes(evs[i], k) && forall j | i < j < |evs| :: !Finalizes(evs[j], k)
  }

  /** The last finalize of a stored op decides its status and its end, whatever else the batch holds. */
  lemma {:induction false} LastFinalizeSettles(t: Tables, evs: seq<Event>, t': Tables, i: nat, k: OpKey)
    requires RowByRow(t, evs, t') && LastFinalizes(evs, i, k) && k in t.ops
    ensures k in t'.ops && Settled(t.ops[k], evs[i], t'.ops[k])
  {
    var n := |evs| - 1;
    var mid :| LastDoes(mid, evs, t') && RowByRow(t, evs[..n], mid);
    StoredOpsStay(t, evs[..n], mid, k);
    if i < n {
      LastFinalizeSettles(t, evs[..n], mid, i, k);
    }
  }

  ghost predicate FinalizesSettled(t: Tables, evs: seq<Event>, t': Tables) {
    forall i: nat, k | LastFinalizes(evs, i, k) && k in t.ops :: k in t'.ops && Settled(t.ops[k], evs[i], t'.ops[k])
  }

  lemma BatchSettles(t: Tables, evs: seq<Event>)
    requires PlainAll(t, evs).Ok?
    ensures RowByRow(t, evs, PlainAll(t, evs).value) && FinalizesSettled(t, evs, PlainAll(t, evs).value)
  {
    var t' := PlainAll(t, evs).value;
    AppliedRowByRow(t, evs);
    forall i: nat, k | LastFinalizes(evs, i, k) && k in t.ops
      ensures k in t'.ops && Settled(t.ops[k], evs[i], t'.ops[k])
    {
      LastFinalizeSettles(t, evs, t', i, k);
    }
  }
}
