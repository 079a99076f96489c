/** The reprice pass (internal/ingest/pricing_backfill.go): price what has no cost, then recompute the cost
    columns of turns and sessions. It does not touch the catalog. It runs on a handle pinned to one connection
    (internal/store/store.go:146), which an open cursor holds: a statement issued meanwhile waits for it. */
module PricingBackfill {
  import opened Options
  import opened PrimaryRows
  import opened OrderedRows
  import opened Aggregates
  import Catalog

  predicate Unpriced(op: OpRow) {
    op.kind == LLM && op.costUsd == 0.0 && op.tokensIn > 0 && op.model != ""
  }

  /** No row the query selects has a provider that is NULL, which does not scan into a string. */
  predicate Scannable(ops: seq<OpRow>) {
    forall i | 0 <= i < |ops| :: Unpriced(ops[i]) ==> ops[i].provider != ""
  }

  function PriceOf(op: OpRow, pricer: Pricer): real {
    pricer(PriceQuery(op.provider, op.model, op.startTs, op.tokensIn, op.tokensOut, op.cacheRead, op.cacheWrite))
  }

  predicate Staged(op: OpRow, pricer: Pricer) {
    Unpriced(op) && PriceOf(op, pricer) != 0.0
  }

  function RepricedRow(op: OpRow, pricer: Pricer): OpRow {
    if Staged(op, pricer) then op.(costUsd := PriceOf(op, pricer)) else op
  }

  function Repriced(ops: seq<OpRow>, pricer: Pricer): seq<OpRow> {
    seq(|ops|, i requires 0 <= i < |ops| => RepricedRow(ops[i], pricer))
  }

  // ----- staging in batches -----

  datatype Price = Price(id: OpId, cost: real)

  /** What the first n ops put into the temp table. */
  function StagedRows(ops: seq<OpRow>, n: nat, pricer: Pricer): seq<Price>
    requires n <= |ops|
  {
    if n == 0 then []
    else StagedRows(ops, n - 1, pricer)
         + if Staged(ops[n - 1], pricer) then [Price(ops[n - 1].id, PriceOf(ops[n - 1], pricer))] else []
  }

  /** SELECT cost FROM reprice_batch WHERE id = ? */
  function CostIn(rows: seq<Price>, id: OpId): Option<real> {
    if rows == [] then None
    else if rows[|rows| - 1].id == id then Some(rows[|rows| - 1].cost)
    else CostIn(rows[..|rows| - 1], id)
  }

  lemma CostInAppended(rows: seq<Price>, p: Price, id: OpId)
    ensures CostIn(rows + [p], id) == if p.id == id then Some(p.cost) else CostIn(rows, id)
  {
    assert (rows + [p])[..|rows|] == rows;
  }

  lemma {:induction false} CostStaged(ops: seq<OpRow>, n: nat, i: nat, pricer: Pricer)
    requires UniqueIds(ops) && n <= |ops| && i < |ops|
    ensures CostIn(StagedRows(ops, n, pricer), ops[i].id) ==
            if i < n && Staged(ops[i], pricer) then Some(PriceOf(ops[i], pricer)) else None
  {
    if n > 0 {
      CostStaged(ops, n - 1, i, pricer);
      CostInAppended(StagedRows(ops, n - 1, pricer), Price(ops[n - 1].id, PriceOf(ops[n - 1], pricer)), ops[i].id);
      assert StagedRows(ops, n - 1, pricer) + [] == StagedRows(ops, n - 1, pricer);
    }
  }

  lemma {:induction false} StagedGrows(ops: seq<OpRow>, m: nat, n: nat, pricer: Pricer)
    requires m <= n <= |ops|
    ensures |StagedRows(ops, m, pricer)| <= |StagedRows(ops, n, pricer)|
  {
    if m < n {
      StagedGrows(ops, m, n - 1, pricer);
    }
  }

  /** Stuck: waiting for the connection the pass itself holds, until its context is cancelled. */
  datatype Scan = Complete | Unscannable | Stuck

  /** The pass gets past its cursor: every selected row scans, and the prices never fill a batch. */
  predicate Completes(ops: seq<OpRow>, pricer: Pricer, insertBatch: nat) {
    Scannable(ops) && |StagedRows(ops, |ops|, pricer)| < insertBatch
  }

  class Repricer {
    var staged: seq<Price>
    var pending: seq<Price>
    /** rows is open, and holds the connection. */
    var cursorOpen: bool

    constructor ()
      ensures staged == [] && pending == [] && !cursorOpen
    {
      staged, pending, cursorOpen := [], [], false;
    }

    /** INSERT INTO reprice_batch ... for the pending rows; without any, no statement is issued. */
    method FlushPending() returns (ok: bool)
      modifies this`staged, this`pending
      ensures ok <==> old(pending) == [] || !cursorOpen
      ensures ok ==> pending == [] && staged == old(staged) + old(pending)
      ensures !ok ==> staged == old(staged)
    {
      if pending == [] {
        return true;
      }
      if cursorOpen {
        return false;
      }
      staged := staged + pending;
      pending := [];
      return true;
    }

    /** Reading the ops in order, with an insert as soon as a batch is full, and one for the rest when the cursor is
        closed. It ends early at a row that does not scan, or, stuck for good, at the first full batch. */
    method StagePrices(ops: seq<OpRow>, pricer: Pricer, insertBatch: nat) returns (scan: Scan, priced: nat, skipped: nat)
      requires staged == [] && pending == [] && 0 < insertBatch
      modifies this
      ensures scan == Complete <==> Completes(ops, pricer, insertBatch)
      ensures scan == Stuck <==> exists n :: 0 <= n <= |ops| && Scannable(ops[..n]) && |StagedRows(ops, n, pricer)| == insertBatch
      ensures scan == Complete ==> staged == StagedRows(ops, |ops|, pricer)
      ensures scan == Complete ==> priced == |staged| && priced + skipped == UnpricedCount(ops, |ops|)
      ensures scan != Complete ==> staged == []
    {
      scan, priced, skipped := Complete, 0, 0;
      cursorOpen := true;
      var i := 0;
      while i < |ops|
        invariant i <= |ops| && cursorOpen && Scannable(ops[..i]) && staged == [] && scan == Complete
        invariant pending == StagedRows(ops, i, pricer) && priced == |pending| < insertBatch
        invariant priced + skipped == UnpricedCount(ops, i)
      {
        if Unpriced(ops[i]) {
          if ops[i].provider == "" {
            cursorOpen := false;
            NeverFull(ops, i, pricer, insertBatch);
            return Unscannable, priced, skipped;
          }
          var cost := PriceOf(ops[i], pricer);
          if cost == 0.0 {
            skipped := skipped + 1;
          } else {
            pending := pending + [Price(ops[i].id, cost)];
            priced := priced + 1;
            if |pending| >= insertBatch {
              var inserted := FlushPending();
              assert !inserted && Scannable(ops[..i + 1]);
              StagedGrows(ops, i + 1, |ops|, pricer);
              return Stuck, priced, skipped;
            }
          }
        }
        i := i + 1;
      }
      cursorOpen := false;
      assert ops[..|ops|] == ops;
      forall n | 0 <= n <= |ops| {
        StagedGrows(ops, n, |ops|, pricer);
      }
      var rest := FlushPending();
    }

    /** UPDATE ops SET cost_usd = staged WHERE id IN staged. */
    method UpdateOps(ops: seq<OpRow>, ghost pricer: Pricer) returns (updated: seq<OpRow>)
      requires UniqueIds(ops) && staged == StagedRows(ops, |ops|, pricer)
      ensures updated == Repriced(ops, pricer)
    {
      updated := ops;
      var i := 0;
      while i < |ops|
        invariant i <= |ops| == |updated|
        invariant forall j | 0 <= j < i :: updated[j] == RepricedRow(ops[j], pricer)
        invariant forall j | i <= j < |ops| :: updated[j] == ops[j]
      {
        CostStaged(ops, |ops|, i, pricer);
        var cost := CostIn(staged, ops[i].id);
        if cost.Some? {
          updated := updated[i := ops[i].(costUsd := cost.value)];
        }
        i := i + 1;
      }
    }
  }

  lemma {:induction false} NoneStaged(ops: seq<OpRow>, n: nat, pricer: Pricer)
    requires n <= |ops|
    ensures StagedRows(ops, n, pricer) == [] <==> forall i | 0 <= i < n :: !Staged(ops[i], pricer)
  {
    if n > 0 {
      NoneStaged(ops, n - 1, pricer);
    }
  }

  function UnpricedCount(ops: seq<OpRow>, n: nat): nat
    requires n <= |ops|
  {
    if n == 0 then 0 else UnpricedCount(ops, n - 1) + if Unpriced(ops[n - 1]) then 1 else 0
  }

  /** Before a row that does not scan no batch was full, and nothing after it is read. */
  lemma NeverFull(ops: seq<OpRow>, i: nat, pricer: Pricer, insertBatch: nat)
    requires i < |ops| && Unpriced(ops[i]) && ops[i].provider == "" && |StagedRows(ops, i, pricer)| < insertBatch
    ensures forall n | 0 <= n <= |ops| && Scannable(ops[..n]) :: |StagedRows(ops, n, pricer)| < insertBatch
    ensures !Scannable(ops)
  {
    forall n | 0 <= n <= |ops| && Scannable(ops[..n])
      ensures |StagedRows(ops, n, pricer)| < insertBatch
    {
      assert i < n ==> ops[..n][i] == ops[i];
      if n <= i {
        StagedGrows(ops, n, i, pricer);
      }
    }
  }

  // ----- the cascade -----

  predicate HasOp(ops: seq<OpRow>, t: TurnId) {
    exists i :: 0 <= i < |ops| && ops[i].id.turn == t
  }

  /** SELECT turn_id, SUM(cost_usd) FROM ops GROUP BY turn_id has a row only for turns with ops. */
  function RecostedTurn(row: TurnRow, ops: seq<OpRow>): TurnRow {
    if HasOp(ops, row.id) then row.(totals := row.totals.(cost := TurnSum(ops, |ops|, row.id).cost)) else row
  }

  function RecostedSession(row: SessionRow, turns: seq<TurnRow>): SessionRow {
    if TurnCount(turns, |turns|, row.id) > 0
    then row.(totals := row.totals.(cost := TurnRowsSum(turns, |turns|, row.id).cost)) else row
  }

  function Recosted(st: Store): Store {
    var turns := seq(|st.turns|, j requires 0 <= j < |st.turns| => RecostedTurn(st.turns[j], st.ops));
    st.(turns := turns,
        sessions := seq(|st.sessions|, i requires 0 <= i < |st.sessions| => RecostedSession(st.sessions[i], turns)))
  }

  /** A pass that completes; when nothing was priced it stops before the cascade. */
  function RepricedStore(st: Store, pricer: Pricer): Store {
    if forall i | 0 <= i < |st.ops| :: !Staged(st.ops[i], pricer) then st
    else Recosted(st.(ops := Repriced(st.ops, pricer)))
  }

  /** What a pass leaves, when the database does its part: the repriced store, or the store as it was. */
  function AfterReprice(st: Store, pricer: Pricer, insertBatch: nat): Store {
    if Completes(st.ops, pricer, insertBatch) then RepricedStore(st, pricer) else st
  }

  /** The pass gets anywhere if and only if every op it should price has a provider and fewer than a batch of them
      get a price; otherwise it fails, or is stuck until it is cancelled and then fails, with nothing repriced. */
  method BackfillPricing(st: Store, pricer: Pricer, insertBatch: nat) returns (ok: bool, after: Store)
    requires UniqueIds(st.ops) && 0 < insertBatch
    ensures ok <==> (forall i | 0 <= i < |st.ops| :: Unpriced(st.ops[i]) ==> st.ops[i].provider != "")
                    && |StagedRows(st.ops, |st.ops|, pricer)| < insertBatch
    ensures after == AfterReprice(st, pricer, insertBatch)
    ensures !ok ==> after == st
  {
    var r := new Repricer();
    var scan, priced, skipped := r.StagePrices(st.ops, pricer, insertBatch);
    if scan != Complete {
      return false, st;
    }
    NoneStaged(st.ops, |st.ops|, pricer);
    if priced == 0 {
      return true, st;
    }
    var ops := r.UpdateOps(st.ops, pricer);
    return true, Recosted(st.(ops := ops));
  }

  /** n unpriced ops of one turn, all with a model, a provider and tokens. */
  function Backlog(turn: TurnId, n: nat): seq<OpRow> {
    seq(n, i => OpRow(OpId(turn, i), LLM, "call", "", "model", "provider", "", 1, None, None, COMPLETED, "", "", 1, 0, 0, 0, 0.0))
  }

  lemma {:induction false} AllStaged(ops: seq<OpRow>, n: nat, pricer: Pricer)
    requires n <= |ops| && forall i | 0 <= i < n :: Staged(ops[i], pricer)
    ensures |StagedRows(ops, n, pricer)| == n
  {
    if n > 0 {
      AllStaged(ops, n - 1, pricer);
    }
  }

  /** A backlog is repriced exactly when it is smaller than a batch, by any pricer that has a price for it: with the
      code's batch of 1000, the thousandth op to price is one too many. */
  lemma FullBatchBlocks(turn: TurnId, n: nat, pricer: Pricer, insertBatch: nat)
    requires forall q :: pricer(q) != 0.0
    ensures UniqueIds(Backlog(turn, n)) && Scannable(Backlog(turn, n))
    ensures Completes(Backlog(turn, n), pricer, insertBatch) <==> n < insertBatch
  {
    AllStaged(Backlog(turn, n), n, pricer);
  }

  /** Such an op comes about whenever a source starts an LLM op with a model and no provider, and finalizes it
      with tokens and no cost: it is not priced then, and fails every later pass. */
  lemma BlankProviderFails(start: OpStarted, end: OpFinalized, pricer: Option<Pricer>)
    requires start.kind == LLM && start.model != "" && start.provider == ""
    requires end.op == start.op && end.tokensIn > 0 && end.costUsd == 0.0
    ensures !Scannable(ApplyOpEvents([], [Started(start), Finalized(end)], pricer))
    ensures forall p, insertBatch: nat :: !Completes(ApplyOpEvents([], [Started(start), Finalized(end)], pricer), p, insertBatch)
  {
    var evs := [Started(start), Finalized(end)];
    assert evs[..1] == [Started(start)] && evs[..1][..0] == [];
    var ops := UpsertStarted([], start);
    assert ApplyOpEvents([], evs[..1], pricer) == ops;
    assert Unpriced(ApplyOpEvents([], evs, pricer)[0]);
  }

  // ----- the aggregates stay right -----

  lemma {:induction false} OnlyCost(ops: seq<OpRow>, pricer: Pricer, n: nat, t: TurnId, s: SessionId)
    requires n <= |ops|
    ensures var now := Repriced(ops, pricer);
            && TurnSum(now, n, t).(cost := 0.0) == TurnSum(ops, n, t).(cost := 0.0)
            && SessionSum(now, n, s).(cost := 0.0) == SessionSum(ops, n, s).(cost := 0.0)
            && FailedCount(now, n, s) == FailedCount(ops, n, s)
  {
    if n > 0 {
      OnlyCost(ops, pricer, n - 1, t, s);
    }
  }

  lemma RecostedTurnRight(row: TurnRow, ops: seq<OpRow>, pricer: Pricer)
    requires TurnRight(row, ops)
    ensures TurnRight(RecostedTurn(row, Repriced(ops, pricer)), Repriced(ops, pricer))
  {
    OnlyCost(ops, pricer, |ops|, row.id, row.id.session);
    if !HasOp(Repriced(ops, pricer), row.id) {
      NoSuchTurn(Repriced(ops, pricer), |ops|, row.id);
      forall i | 0 <= i < |ops|
        ensures ops[i].id.turn != row.id
      {
        assert Repriced(ops, pricer)[i].id.turn != row.id;
      }
      NoSuchTurn(ops, |ops|, row.id);
    }
  }

  lemma {:induction false} NoTurns(turns: seq<TurnRow>, m: nat, s: SessionId)
    requires m <= |turns| && TurnCount(turns, m, s) == 0
    ensures TurnRowsSum(turns, m, s) == ZERO
  {
    if m > 0 {
      NoTurns(turns, m - 1, s);
    }
  }

  /** A reprice keeps every turn and session column right, the cost columns with the new prices. */
  lemma RepriceKeepsRight(st: Store, pricer: Pricer, insertBatch: nat)
    requires UniqueTurns(st.turns) && TurnsStored(st.turns, st.ops) && AllRight(st)
    ensures AllRight(AfterReprice(st, pricer, insertBatch))
    ensures AfterReprice(st, pricer, insertBatch).ops ==
            if Completes(st.ops, pricer, insertBatch) then Repriced(st.ops, pricer) else st.ops
  {
    var ops := Repriced(st.ops, pricer);
    var after := Recosted(st.(ops := ops));
    forall j | 0 <= j < |st.turns|
      ensures TurnRight(after.turns[j], ops)
    {
      RecostedTurnRight(st.turns[j], st.ops, pricer);
    }
    RepricedStored(st.turns, after.turns, st.ops, pricer);
    forall i | 0 <= i < |st.sessions|
      ensures SessionRight(after.sessions[i], after.turns, ops)
    {
      var s := st.sessions[i].id;
      assert SessionRight(st.sessions[i], st.turns, st.ops);
      OnlyCost(st.ops, pricer, |ops|, TurnId(s, 0), s);
      SameCount(st.turns, after.turns, |st.turns|, s);
      SessionFromTurns(after.turns, ops, s);
      if TurnCount(after.turns, |after.turns|, s) == 0 {
        NoTurns(after.turns, |after.turns|, s);
        NoTurns(st.turns, |st.turns|, s);
        SessionFromTurns(st.turns, st.ops, s);
      }
    }
    if forall i | 0 <= i < |st.ops| :: !Staged(st.ops[i], pricer) {
      assert ops == st.ops;
    }
  }

  lemma RepricedStored(turns: seq<TurnRow>, after: seq<TurnRow>, ops: seq<OpRow>, pricer: Pricer)
    requires UniqueTurns(turns) && TurnsStored(turns, ops)
    requires |after| == |turns| && forall j | 0 <= j < |turns| :: after[j].id == turns[j].id
    ensures UniqueTurns(after) && TurnsStored(after, Repriced(ops, pricer))
  {
    SameIds(turns, after, ops);
    forall i | 0 <= i < |ops|
      ensures StoredTurn(after, Repriced(ops, pricer)[i].id.turn)
    {
      assert StoredTurn(after, ops[i].id.turn);
    }
  }

  // ----- the pass, row by row -----

  /** The price of an op at its start, for its own four token counts. */
  function Quote(op: OpRow, pricer: Pricer): real {
    pricer(PriceQuery(
      provider := op.provider, model := op.model, tsUs := op.startTs,
      tokensIn := op.tokensIn, tokensOut := op.tokensOut, cacheRead := op.cacheRead, cacheWrite := op.cacheWrite))
  }

  /** An LLM op with a model and tokens, without a cost. */
  predicate ToPrice(op: OpRow) {
    op.kind == "llm" && op.model != "" && op.tokensIn > 0 && op.costUsd == 0.0
  }

  lemma {:induction false} StagedCount(ops: seq<OpRow>, n: nat, pricer: Pricer, p: OpRow -> bool)
    requires n <= |ops| && forall op :: p(op) <==> ToPrice(op) && Quote(op, pricer) != 0.0
    ensures |StagedRows(ops, n, pricer)| == |Filter(p, ops[..n])|
  {
    if n > 0 {
      StagedCount(ops, n - 1, pricer, p);
      FilterNext(p, ops, n - 1);
    }
  }

  /** Every op to price has a provider, and fewer than a batch of them a price. */
  ghost predicate Passes(ops: seq<OpRow>, pricer: Pricer, insertBatch: nat) {
    && (forall op | op in ops && ToPrice(op) :: op.provider != "")
    && |Filter(op => ToPrice(op) && Quote(op, pricer) != 0.0, ops)| < insertBatch
  }

  lemma PassesIff(ops: seq<OpRow>, pricer: Pricer, insertBatch: nat)
    ensures Completes(ops, pricer, insertBatch) <==> Passes(ops, pricer, insertBatch)
  {
    StagedCount(ops, |ops|, pricer, op => ToPrice(op) && Quote(op, pricer) != 0.0);
    assert ops[..|ops|] == ops;
    assert forall i | 0 <= i < |ops| :: Unpriced(ops[i]) == ToPrice(ops[i]) && ops[i] in ops;
  }

  /** Then exactly the ops to price that have a price get it, and nothing else in any op changes; of the turns and
      sessions only costs may. A pass that does not get through changes nothing. */
  lemma RepriceWrites(st: Store, pricer: Pricer, insertBatch: nat)
    ensures var after := AfterReprice(st, pricer, insertBatch);
            && (!Passes(st.ops, pricer, insertBatch) ==> after == st)
            && |after.ops| == |st.ops| && |after.turns| == |st.turns| && |after.sessions| == |st.sessions|
            && (Passes(st.ops, pricer, insertBatch) ==> forall i | 0 <= i < |st.ops| ::
                  var op := st.ops[i];
                  after.ops[i] == if ToPrice(op) && Quote(op, pricer) != 0.0 then op.(costUsd := Quote(op, pricer)) else op)
            && (forall j | 0 <= j < |st.turns| ::
                  after.turns[j] == st.turns[j].(totals := st.turns[j].totals.(cost := after.turns[j].totals.cost)))
            && (forall i | 0 <= i < |st.sessions| ::
                  after.sessions[i] == st.sessions[i].(totals := st.sessions[i].totals.(cost := after.sessions[i].totals.cost)))
  {
    PassesIff(st.ops, pricer, insertBatch);
  }

  // ----- the catalog falls behind -----

  lemma {:induction false} CatalogCost(v: Catalog.View, ops: seq<OpRow>, pricer: Pricer, n: nat, k: Catalog.Key)
    requires n <= |ops| && forall q :: pricer(q) >= 0.0
    ensures var was, now := Catalog.SumTo(v, ops, n, k), Catalog.SumTo(v, Repriced(ops, pricer), n, k);
            && now.costUsd >= was.costUsd
            && (now == was <==> forall i | 0 <= i < n :: !(Staged(ops[i], pricer) && Catalog.KeyOf(v, Catalog.IdentityOf(ops[i])) == Some(k)))
            && now.(costUsd := was.costUsd) == was
  {
    if n > 0 {
      CatalogCost(v, ops, pricer, n - 1, k);
    }
  }

  lemma RepricedCatalog(v: Catalog.View, table: Catalog.Table, ops: seq<OpRow>, pricer: Pricer)
    requires Catalog.IsView(v, table, ops) && forall q :: pricer(q) >= 0.0
    ensures Catalog.IsView(v, table, Repriced(ops, pricer)) <==>
            forall i | 0 <= i < |ops| :: Staged(ops[i], pricer) ==> Catalog.KeyOf(v, Catalog.IdentityOf(ops[i])).None?
  {
    var now := Repriced(ops, pricer);
    SameKeys(v, table, ops, pricer);
    forall k | k in table
      ensures table[k] == Catalog.GroupSum(v, now, k) <==>
              forall i | 0 <= i < |ops| :: !(Staged(ops[i], pricer) && Catalog.KeyOf(v, Catalog.IdentityOf(ops[i])) == Some(k))
    {
      CatalogCost(v, ops, pricer, |ops|, k);
    }
  }

  /** With prices that are never negative, a catalog table that was right is right after a reprice exactly when
      the pass got nowhere, or no op it gave a price to has a row in the table. */
  lemma RepriceLeavesCatalog(v: Catalog.View, table: Catalog.Table, st: Store, pricer: Pricer, insertBatch: nat)
    requires Catalog.IsView(v, table, st.ops) && forall q :: pricer(q) >= 0.0
    ensures Catalog.IsView(v, table, AfterReprice(st, pricer, insertBatch).ops) <==>
            || !Completes(st.ops, pricer, insertBatch)
            || forall i | 0 <= i < |st.ops| :: Staged(st.ops[i], pricer) ==> Catalog.KeyOf(v, Catalog.IdentityOf(st.ops[i])).None?
  {
    RepricedCatalog(v, table, st.ops, pricer);
    if forall i | 0 <= i < |st.ops| :: !Staged(st.ops[i], pricer) {
      assert Repriced(st.ops, pricer) == st.ops;
    }
  }

  /** The pass changes no key, so every key still has its row. */
  lemma SameKeys(v: Catalog.View, table: Catalog.Table, ops: seq<OpRow>, pricer: Pricer)
    requires Catalog.IsView(v, table, ops)
    ensures forall i | 0 <= i < |ops| && Catalog.KeyOf(v, Catalog.IdentityOf(ops[i])).Some? ::
              Catalog.KeyOf(v, Catalog.IdentityOf(ops[i])).value in table
    ensures forall row | row in Repriced(ops, pricer) && Catalog.KeyOf(v, Catalog.IdentityOf(row)).Some? ::
              Catalog.KeyOf(v, Catalog.IdentityOf(row)).value in table
  {
    var now := Repriced(ops, pricer);
    forall i | 0 <= i < |ops|
      ensures Catalog.IdentityOf(now[i]) == Catalog.IdentityOf(ops[i]) && ops[i] in ops
    {
    }
    forall row | row in now && Catalog.KeyOf(v, Catalog.IdentityOf(row)).Some?
      ensures Catalog.KeyOf(v, Catalog.IdentityOf(row)).value in table
    {
      var i :| 0 <= i < |now| && now[i] == row;
      assert ops[i] in ops;
    }
  }
}
