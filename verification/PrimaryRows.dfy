/** The primary rows of the store (ops) and what one canonical op event does to them
    (internal/ingest/writer.go). Every derived view in this project is stated over these rows.

    The ops table is a sequence in rowid order: rows are never deleted, so a row's rowid is its
    position plus one. Row ids are hashes of the natural key (internal/ingest/ids.go) and the hash is
    taken to be injective, so a row id is the natural key itself. "" stands for a NULL text column. */
module PrimaryRows {
  import opened Options
  import opened Scalars

  datatype SessionId = SessionId(source: string, native: string)
  datatype TurnId = TurnId(session: SessionId, turnSeq: int)
  datatype OpId = OpId(turn: TurnId, opSeq: int)

  const LLM := "llm"
  const TOOL := "tool"
  const RUNNING := "running"
  const COMPLETED := "completed"
  const FAILED := "failed"

  datatype OpRow = OpRow(
    id: OpId,
    kind: string,
    name: string,
    toolNamespace: string,
    model: string,
    provider: string,
    providerAlias: string,
    startTs: int,
    endTs: Option<int>,
    durationUs: Option<int>,
    status: string,
    errorClass: string,
    errorMessage: string,
    tokensIn: int,
    tokensOut: int,
    cacheRead: int,
    cacheWrite: int,
    costUsd: real)

  datatype OpStarted = OpStarted(
    op: OpId,
    ts: int,
    kind: string,
    name: string,
    toolNamespace: string,
    model: string,
    provider: string,
    providerAlias: string)

  datatype OpFinalized = OpFinalized(
    op: OpId,
    ts: int,
    status: string,
    errorClass: string,
    errorMessage: string,
    endTs: int,
    tokensIn: int,
    tokensOut: int,
    cacheRead: int,
    cacheWrite: int,
    costUsd: real)

  datatype OpEvent = Started(started: OpStarted) | Finalized(finalized: OpFinalized)

  /** One cost lookup; the pricing table behind it is not part of this model. */
  datatype PriceQuery = PriceQuery(
    provider: string, model: string, tsUs: int, tokensIn: int, tokensOut: int, cacheRead: int, cacheWrite: int)
  type Pricer = PriceQuery -> real

  ghost predicate UniqueIds(ops: seq<OpRow>) {
    forall i, j | 0 <= i < j < |ops| :: ops[i].id != ops[j].id
  }

  /** Position of the row with this id, or |ops| when there is none. */
  function Find(ops: seq<OpRow>, id: OpId): (i: nat)
    ensures i <= |ops|
    ensures i < |ops| ==> ops[i].id == id
    ensures forall j | 0 <= j < i :: ops[j].id != id
  {
    if ops == [] then 0
    else if ops[0].id == id then 0
    else
      var rest := Find(ops[1..], id);
      assert forall j | 0 < j < 1 + rest :: ops[j] == ops[1..][j - 1];
      1 + rest
  }

  lemma FindUnique(ops: seq<OpRow>, i: nat)
    requires UniqueIds(ops) && i < |ops|
    ensures Find(ops, ops[i].id) == i
  {
  }

  function Lookup(ops: seq<OpRow>, id: OpId): Option<OpRow> {
    var i := Find(ops, id);
    if i < |ops| then Some(ops[i]) else None
  }

  function InsertedRow(ev: OpStarted): OpRow {
    OpRow(ev.op, ev.kind, ev.name, ev.toolNamespace, ev.model, ev.provider, ev.providerAlias,
          ev.ts, None, None, RUNNING, "", "", 0, 0, 0, 0, 0.0)
  }

  function RestartedRow(row: OpRow, ev: OpStarted): OpRow {
    row.(kind := ev.kind, name := ev.name,
         toolNamespace := Coalesce(ev.toolNamespace, row.toolNamespace),
         model := Coalesce(ev.model, row.model),
         provider := Coalesce(ev.provider, row.provider),
         providerAlias := Coalesce(ev.providerAlias, row.providerAlias),
         startTs := Min(row.startTs, ev.ts))
  }

  /** The ops UPSERT of an OpStarted. */
  function UpsertStarted(ops: seq<OpRow>, ev: OpStarted): seq<OpRow> {
    var i := Find(ops, ev.op);
    if i < |ops| then ops[i := RestartedRow(ops[i], ev)] else ops + [InsertedRow(ev)]
  }

  predicate Priceable(row: OpRow) {
    row.provider != "" && row.model != "" && (row.kind == "" || row.kind == LLM)
  }

  /** The cost an OpFinalized persists: the source's own, else the pricer's at the op's start. */
  function ResolvedCost(ev: OpFinalized, row: OpRow, pricer: Option<Pricer>): real {
    if ev.costUsd != 0.0 || pricer.None? || !Priceable(row) then ev.costUsd
    else pricer.value(PriceQuery(row.provider, row.model, if row.startTs > 0 then row.startTs else ev.ts,
                                 ev.tokensIn, ev.tokensOut, ev.cacheRead, ev.cacheWrite))
  }

  predicate TimingKnown(ev: OpFinalized, startTs: int) {
    ev.endTs > 0 && startTs > 0 && ev.endTs >= startTs
  }

  function FinalizedRow(row: OpRow, ev: OpFinalized, pricer: Option<Pricer>): OpRow {
    var known := TimingKnown(ev, row.startTs);
    row.(endTs := if known then Some(ev.endTs) else row.endTs,
         durationUs := if known then Some(ev.endTs - row.startTs) else row.durationUs,
         status := if ev.status != "" then ev.status else COMPLETED,
         errorClass := ev.errorClass,
         errorMessage := ev.errorMessage,
         tokensIn := ev.tokensIn,
         tokensOut := ev.tokensOut,
         cacheRead := ev.cacheRead,
         cacheWrite := ev.cacheWrite,
         costUsd := ResolvedCost(ev, row, pricer))
  }

  /** The ops UPDATE of an OpFinalized; an orphan finalize touches no row. */
  function UpdateFinalized(ops: seq<OpRow>, ev: OpFinalized, pricer: Option<Pricer>): seq<OpRow> {
    var i := Find(ops, ev.op);
    if i < |ops| then ops[i := FinalizedRow(ops[i], ev, pricer)] else ops
  }

  function ApplyOpEvent(ops: seq<OpRow>, ev: OpEvent, pricer: Option<Pricer>): seq<OpRow> {
    match ev
    case Started(e) => UpsertStarted(ops, e)
    case Finalized(e) => UpdateFinalized(ops, e, pricer)
  }

  function ApplyOpEvents(ops: seq<OpRow>, evs: seq<OpEvent>, pricer: Option<Pricer>): seq<OpRow> {
    if evs == [] then ops
    else ApplyOpEvent(ApplyOpEvents(ops, evs[..|evs| - 1], pricer), evs[|evs| - 1], pricer)
  }

  lemma ApplyKeepsUnique(ops: seq<OpRow>, ev: OpEvent, pricer: Option<Pricer>)
    requires UniqueIds(ops)
    ensures UniqueIds(ApplyOpEvent(ops, ev, pricer))
    ensures |ops| <= |ApplyOpEvent(ops, ev, pricer)|
    ensures forall i | 0 <= i < |ops| :: ApplyOpEvent(ops, ev, pricer)[i].id == ops[i].id
  {
  }

  // ----- the two statements, column by column -----

  /** The columns an op start writes: kind and name always, the others only when it has them; the start may move back. */
  predicate Begun(was: Option<OpRow>, ev: OpStarted, row: OpRow) {
    && row.id == ev.op && row.kind == ev.kind && row.name == ev.name
    && match was
       case None =>
         && row.startTs == ev.ts && row.status == "running" && row.endTs == None && row.durationUs == None
         && row.toolNamespace == ev.toolNamespace && row.model == ev.model
         && row.provider == ev.provider && row.providerAlias == ev.providerAlias
         && row.errorClass == row.errorMessage == "" && row.costUsd == 0.0
         && row.tokensIn == row.tokensOut == row.cacheRead == row.cacheWrite == 0
       case Some(old_) =>
         && row.startTs == (if ev.ts < old_.startTs then ev.ts else old_.startTs)
         && row.toolNamespace == (if ev.toolNamespace == "" then old_.toolNamespace else ev.toolNamespace)
         && row.model == (if ev.model == "" then old_.model else ev.model)
         && row.provider == (if ev.provider == "" then old_.provider else ev.provider)
         && row.providerAlias == (if ev.providerAlias == "" then old_.providerAlias else ev.providerAlias)
         && row.status == old_.status && row.endTs == old_.endTs && row.durationUs == old_.durationUs
         && row.errorClass == old_.errorClass && row.errorMessage == old_.errorMessage && row.costUsd == old_.costUsd
         && row.tokensIn == old_.tokensIn && row.tokensOut == old_.tokensOut
         && row.cacheRead == old_.cacheRead && row.cacheWrite == old_.cacheWrite
  }

  /** The cost an op ends with: the source's own unless it is zero and the op can be priced, at the op's start. */
  ghost predicate Costed(was: OpRow, ev: OpFinalized, pricer: Option<Pricer>, usd: real) {
    if ev.costUsd == 0.0 && pricer.Some? && was.provider != "" && was.model != "" && was.kind in {"", "llm"} then
      usd == pricer.value(PriceQuery(
        provider := was.provider, model := was.model, tsUs := if was.startTs > 0 then was.startTs else ev.ts,
        tokensIn := ev.tokensIn, tokensOut := ev.tokensOut, cacheRead := ev.cacheRead, cacheWrite := ev.cacheWrite))
    else usd == ev.costUsd
  }

  /** The columns an op finalize writes; the end and the duration only when start and end are known and in order. */
  ghost predicate Ended(was: OpRow, ev: OpFinalized, pricer: Option<Pricer>, row: OpRow) {
    && row.id == was.id && row.kind == was.kind && row.name == was.name && row.startTs == was.startTs
    && row.toolNamespace == was.toolNamespace && row.model == was.model
    && row.provider == was.provider && row.providerAlias == was.providerAlias
    && row.status == (if ev.status == "" then "completed" else ev.status)
    && row.errorClass == ev.errorClass && row.errorMessage == ev.errorMessage
    && row.tokensIn == ev.tokensIn && row.tokensOut == ev.tokensOut
    && row.cacheRead == ev.cacheRead && row.cacheWrite == ev.cacheWrite
    && (if 0 < was.startTs <= ev.endTs then row.endTs == Some(ev.endTs) && row.durationUs == Some(ev.endTs - was.startTs)
        else row.endTs == was.endTs && row.durationUs == was.durationUs)
    && Costed(was, ev, pricer, row.costUsd)
  }

  /** What an op event does to the table: its op's row is written so, and added when an op start finds none; every
      other row stays, in its place. */
  lemma EventWrites(ops: seq<OpRow>, ev: OpEvent, pricer: Option<Pricer>)
    requires UniqueIds(ops)
    ensures var ops' := ApplyOpEvent(ops, ev, pricer);
            var id := if ev.Started? then ev.started.op else ev.finalized.op;
            var known := exists i :: 0 <= i < |ops| && ops[i].id == id;
            && |ops'| == |ops| + (if ev.Started? && !known then 1 else 0)
            && (forall i | 0 <= i < |ops| && ops[i].id != id :: ops'[i] == ops[i])
            && (forall i | 0 <= i < |ops| && ops[i].id == id ::
                  if ev.Started? then Begun(Some(ops[i]), ev.started, ops'[i]) else Ended(ops[i], ev.finalized, pricer, ops'[i]))
            && (ev.Started? && !known ==> Begun(None, ev.started, ops'[|ops|]))
  {
    forall i | 0 <= i < |ops| {
      FindUnique(ops, i);
    }
  }
}
