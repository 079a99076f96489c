/** The catalog tables (internal/ingest/catalog.go, catalog_finalize.go, catalog_migrate.go) as an
    incremental view: what a group-by over the ops table says each row is, and the deltas the writer
    applies instead. */
module Catalog {
  import opened Options
  import opened Scalars
  import opened PrimaryRows

  /** One catalog row's counters. A table that lacks a column keeps it at zero. */
  datatype Totals = Totals(
    calls: int,
    failures: int,
    tokensIn: int,
    tokensOut: int,
    cacheRead: int,
    cacheWrite: int,
    costUsd: real,
    durationUs: int)

  const ZERO := Totals(0, 0, 0, 0, 0, 0, 0.0, 0)

  function Plus(a: Totals, b: Totals): Totals {
    Totals(a.calls + b.calls, a.failures + b.failures, a.tokensIn + b.tokensIn, a.tokensOut + b.tokensOut,
           a.cacheRead + b.cacheRead, a.cacheWrite + b.cacheWrite, a.costUsd + b.costUsd, a.durationUs + b.durationUs)
  }

  function Minus(a: Totals, b: Totals): Totals {
    Totals(a.calls - b.calls, a.failures - b.failures, a.tokensIn - b.tokensIn, a.tokensOut - b.tokensOut,
           a.cacheRead - b.cacheRead, a.cacheWrite - b.cacheWrite, a.costUsd - b.costUsd, a.durationUs - b.durationUs)
  }

  type Key = (string, string)
  type Table = map<Key, Totals>
  datatype View = Providers | Models | Tools

  // ----- the definition of each view -----

  datatype Identity = Identity(
    kind: string, name: string, toolNamespace: string, model: string, provider: string, providerAlias: string)

  function IdentityOf(row: OpRow): Identity {
    Identity(row.kind, row.name, row.toolNamespace, row.model, row.provider, row.providerAlias)
  }

  function NormalizeNamespace(ns: string): string {
    if ns == "" then "builtin" else ns
  }

  /** The catalog row an op with this identity belongs to, if the view has one for it. */
  function KeyOf(v: View, id: Identity): Option<Key> {
    match v
    case Providers => if id.kind == LLM && id.provider != "" then Some((id.provider, id.providerAlias)) else None
    case Models => if id.kind == LLM && id.provider != "" && id.model != "" then Some((id.provider, id.model)) else None
    case Tools => if id.kind == TOOL && id.name != "" then Some((NormalizeNamespace(id.toolNamespace), id.name)) else None
  }

  function FailureInc(status: string): int {
    if status == FAILED then 1 else 0
  }

  /** What the op has booked beyond its call: tools carry no cache split, providers no duration. */
  function BookedTotals(v: View, row: OpRow): Totals {
    Totals(0, FailureInc(row.status), row.tokensIn, row.tokensOut,
           if v.Tools? then 0 else row.cacheRead,
           if v.Tools? then 0 else row.cacheWrite,
           row.costUsd,
           if v.Providers? || row.durationUs.None? then 0 else row.durationUs.value)
  }

  /** An op's whole share of its catalog row: the call and what it has booked. */
  function ShareOf(v: View, row: OpRow): Totals {
    BookedTotals(v, row).(calls := 1)
  }

  function Add(v: View, sum: Totals, row: OpRow, k: Key): Totals {
    if KeyOf(v, IdentityOf(row)) == Some(k) then Plus(sum, ShareOf(v, row)) else sum
  }

  function Drop(v: View, sum: Totals, row: OpRow, k: Key): Totals {
    if KeyOf(v, IdentityOf(row)) == Some(k) then Minus(sum, ShareOf(v, row)) else sum
  }

  /** The summed counters of the group k over the first n rows of the ops table. */
  ghost function SumTo(v: View, ops: seq<OpRow>, n: nat, k: Key): Totals
    requires n <= |ops|
  {
    if n == 0 then ZERO else Add(v, SumTo(v, ops, n - 1, k), ops[n - 1], k)
  }

  /** SELECT the summed counters of the group k over the ops table. */
  ghost function GroupSum(v: View, ops: seq<OpRow>, k: Key): Totals {
    SumTo(v, ops, |ops|, k)
  }

  /** The table is the group-by of the ops table: every row present equals its group's sums (so a row no
      op keys to any more is all zeros), and every op's key has a row. */
  ghost predicate IsView(v: View, table: Table, ops: seq<OpRow>) {
    && (forall k | k in table :: table[k] == GroupSum(v, ops, k))
    && (forall row | row in ops && KeyOf(v, IdentityOf(row)).Some? :: KeyOf(v, IdentityOf(row)).value in table)
  }

  lemma {:induction false} SumToSame(v: View, a: seq<OpRow>, b: seq<OpRow>, n: nat, k: Key)
    requires n <= |a| && n <= |b|
    requires forall i | 0 <= i < n :: a[i] == b[i]
    ensures SumTo(v, a, n, k) == SumTo(v, b, n, k)
  {
    if n > 0 {
      SumToSame(v, a, b, n - 1, k);
    }
  }

  /** Replacing one row and adding a later one commute. */
  lemma ReplaceThenAdd(v: View, sum: Totals, old_: OpRow, new_: OpRow, last: OpRow, k: Key)
    ensures Add(v, Add(v, Drop(v, sum, old_, k), new_, k), last, k) == Add(v, Drop(v, Add(v, sum, last, k), old_, k), new_, k)
  {
  }

  lemma {:induction false} SumToUpdate(v: View, ops: seq<OpRow>, n: nat, i: nat, row: OpRow, k: Key)
    requires i < n <= |ops|
    ensures SumTo(v, ops[i := row], n, k) == Add(v, Drop(v, SumTo(v, ops, n, k), ops[i], k), row, k)
  {
    if i == n - 1 {
      SumToSame(v, ops, ops[i := row], i, k);
      assert Drop(v, Add(v, SumTo(v, ops, i, k), ops[i], k), ops[i], k) == SumTo(v, ops, i, k);
    } else {
      SumToUpdate(v, ops, n - 1, i, row, k);
      ReplaceThenAdd(v, SumTo(v, ops, n - 1, k), ops[i], row, ops[n - 1], k);
    }
  }

  lemma GroupSumAppend(v: View, ops: seq<OpRow>, row: OpRow, k: Key)
    ensures GroupSum(v, ops + [row], k) == Add(v, GroupSum(v, ops, k), row, k)
  {
    SumToSame(v, ops, ops + [row], |ops|, k);
  }

  lemma {:induction false} SumToEmpty(v: View, ops: seq<OpRow>, n: nat, k: Key)
    requires n <= |ops|
    requires forall i | 0 <= i < n :: KeyOf(v, IdentityOf(ops[i])) != Some(k)
    ensures SumTo(v, ops, n, k) == ZERO
  {
    if n > 0 {
      SumToEmpty(v, ops, n - 1, k);
    }
  }

  // ----- what one event does to one table -----

  /** The identity the ops row will carry after the upsert. */
  function EffectiveIdentity(ev: OpStarted, prior: Option<OpRow>): Identity {
    var old_ := if prior.Some? then IdentityOf(prior.value) else Identity("", "", "", "", "", "");
    Identity(ev.kind, ev.name, Coalesce(ev.toolNamespace, old_.toolNamespace), Coalesce(ev.model, old_.model),
             Coalesce(ev.provider, old_.provider), Coalesce(ev.providerAlias, old_.providerAlias))
  }

  predicate IdentityChanged(eff: Identity, prior: Identity) {
    if eff.kind != prior.kind then true
    else if eff.kind == LLM then
      eff.provider != prior.provider || eff.providerAlias != prior.providerAlias || eff.model != prior.model
    else if eff.kind == TOOL then
      NormalizeNamespace(eff.toolNamespace) != NormalizeNamespace(prior.toolNamespace) || eff.name != prior.name
    else false
  }

  /** UPDATE ... SET counters = counters + d WHERE key = k: no row, no effect. */
  function ShiftAt(t: Table, k: Option<Key>, d: Totals): Table {
    if k.Some? && k.value in t then t[k.value := Plus(t[k.value], d)] else t
  }

  /** The same with minus signs. */
  function DrainAt(t: Table, k: Option<Key>, d: Totals): Table {
    if k.Some? && k.value in t then t[k.value := Minus(t[k.value], d)] else t
  }

  /** INSERT ... VALUES(.., 1) ON CONFLICT DO UPDATE SET call_count = call_count + inc. */
  function UpsertCall(t: Table, k: Key, inc: int): Table {
    t[k := if k in t then t[k].(calls := t[k].calls + inc) else ZERO.(calls := 1)]
  }

  function UpsertCallAt(t: Table, k: Option<Key>, inc: int): Table {
    if k.Some? then UpsertCall(t, k.value, inc) else t
  }

  /** Table v after onOpStarted. */
  function StartedTable(v: View, t: Table, ev: OpStarted, prior: Option<OpRow>): Table {
    var eff := EffectiveIdentity(ev, prior);
    var moved := prior.Some? && IdentityChanged(eff, IdentityOf(prior.value));
    var drained := if moved then DrainAt(t, KeyOf(v, IdentityOf(prior.value)), ShareOf(v, prior.value)) else t;
    var called := UpsertCallAt(drained, KeyOf(v, eff), if prior.None? || moved then 1 else 0);
    if moved then ShiftAt(called, KeyOf(v, eff), BookedTotals(v, prior.value)) else called
  }

  /** Table v after onOpFinalized: the delta between the row now persisted and the row before. */
  function FinalizedTable(v: View, t: Table, now: Option<OpRow>, prior: Option<OpRow>): Table {
    if now.None? then t
    else
      var booked := BookedTotals(v, now.value);
      ShiftAt(t, KeyOf(v, IdentityOf(now.value)),
              if prior.Some? then Minus(booked, BookedTotals(v, prior.value)) else booked)
  }

  /** The identity the migration is driven by is the one the upsert stores. */
  lemma EffectiveIdentityIsStored(ops: seq<OpRow>, ev: OpStarted)
    requires UniqueIds(ops)
    ensures var stored := Lookup(UpsertStarted(ops, ev), ev.op);
            stored.Some? && IdentityOf(stored.value) == EffectiveIdentity(ev, Lookup(ops, ev.op))
  {
    var i := Find(ops, ev.op);
    ApplyKeepsUnique(ops, Started(ev), None);
    FindUnique(UpsertStarted(ops, ev), i);
  }

  /** The test for "this re-emit lands elsewhere" errs only towards moving: when it says no, every
      view's key is the same. */
  lemma UnchangedIdentityKeepsKeys(eff: Identity, prior: Identity, v: View)
    requires !IdentityChanged(eff, prior)
    ensures KeyOf(v, eff) == KeyOf(v, prior)
  {
  }

  /** One key of one table across an OpStarted: its row loses the op's old share and gains the new one. */
  lemma StartedAtKey(v: View, t: Table, ev: OpStarted, prior: Option<OpRow>, row: OpRow, k: Key, sum: Totals)
    requires if k in t then t[k] == sum else sum == ZERO
    requires prior.Some? && KeyOf(v, IdentityOf(prior.value)).Some? ==> KeyOf(v, IdentityOf(prior.value)).value in t
    requires IdentityOf(row) == EffectiveIdentity(ev, prior)
    requires BookedTotals(v, row) == if prior.Some? then BookedTotals(v, prior.value) else ZERO
    ensures var t' := StartedTable(v, t, ev, prior);
            && t.Keys <= t'.Keys
            && (KeyOf(v, IdentityOf(row)) == Some(k) ==> k in t')
            && (k in t' ==> t'[k] == Add(v, if prior.Some? then Drop(v, sum, prior.value, k) else sum, row, k))
  {
    var eff := EffectiveIdentity(ev, prior);
    var to := KeyOf(v, eff);
    if prior.Some? && IdentityChanged(eff, IdentityOf(prior.value)) {
      var drained := DrainAt(t, KeyOf(v, IdentityOf(prior.value)), ShareOf(v, prior.value));
      assert drained.Keys == t.Keys && (k in t ==> drained[k] == Drop(v, sum, prior.value, k));
    } else if prior.Some? {
      UnchangedIdentityKeepsKeys(eff, IdentityOf(prior.value), v);
    }
  }

  lemma StartedKeepsView(v: View, t: Table, ops: seq<OpRow>, ev: OpStarted)
    requires UniqueIds(ops) && IsView(v, t, ops)
    ensures IsView(v, StartedTable(v, t, ev, Lookup(ops, ev.op)), UpsertStarted(ops, ev))
    ensures t.Keys <= StartedTable(v, t, ev, Lookup(ops, ev.op)).Keys
  {
    var i := Find(ops, ev.op);
    var prior := Lookup(ops, ev.op);
    var ops' := UpsertStarted(ops, ev);
    var t' := StartedTable(v, t, ev, prior);
    assert i < |ops| ==> ops[i] in ops;
    StartedAtKeys(v, t, ops, ev);
    forall r | r in ops' && KeyOf(v, IdentityOf(r)).Some?
      ensures KeyOf(v, IdentityOf(r)).value in t'
    {
      var k := KeyOf(v, IdentityOf(r)).value;
      if r in ops {
        assert k in t;
      } else {
        assert r == ops'[i];
      }
    }
  }

  lemma StartedAtKeys(v: View, t: Table, ops: seq<OpRow>, ev: OpStarted)
    requires UniqueIds(ops) && IsView(v, t, ops)
    ensures var t' := StartedTable(v, t, ev, Lookup(ops, ev.op));
            var ops' := UpsertStarted(ops, ev);
            && t.Keys <= t'.Keys
            && (forall k | k in t' :: t'[k] == GroupSum(v, ops', k))
            && (KeyOf(v, IdentityOf(ops'[Find(ops, ev.op)])).Some? ==>
                  KeyOf(v, IdentityOf(ops'[Find(ops, ev.op)])).value in t')
  {
    var i := Find(ops, ev.op);
    var prior := Lookup(ops, ev.op);
    var row := UpsertStarted(ops, ev)[i];
    assert i < |ops| ==> ops[i] in ops;
    forall k: Key
      ensures var t' := StartedTable(v, t, ev, prior);
              && t.Keys <= t'.Keys
              && (KeyOf(v, IdentityOf(row)) == Some(k) ==> k in t')
              && (k in t' ==> t'[k] == GroupSum(v, UpsertStarted(ops, ev), k))
    {
      if k !in t {
        SumToEmpty(v, ops, |ops|, k);
      }
      StartedAtKey(v, t, ev, prior, row, k, GroupSum(v, ops, k));
      if i < |ops| {
        SumToUpdate(v, ops, |ops|, i, row, k);
      } else {
        GroupSumAppend(v, ops, row, k);
      }
    }
  }

  lemma FinalizedAtKey(v: View, t: Table, prior: OpRow, row: OpRow, k: Key, sum: Totals)
    requires k in t && t[k] == sum
    requires IdentityOf(row) == IdentityOf(prior)
    ensures var t' := FinalizedTable(v, t, Some(row), Some(prior));
            t'.Keys == t.Keys && t'[k] == Add(v, Drop(v, sum, prior, k), row, k)
  {
  }

  lemma FinalizedKeepsView(v: View, t: Table, ops: seq<OpRow>, ev: OpFinalized, pricer: Option<Pricer>)
    requires UniqueIds(ops) && IsView(v, t, ops)
    ensures var ops' := UpdateFinalized(ops, ev, pricer);
            var t' := FinalizedTable(v, t, Lookup(ops', ev.op), Lookup(ops, ev.op));
            IsView(v, t', ops') && t'.Keys == t.Keys
  {
    var i := Find(ops, ev.op);
    var ops' := UpdateFinalized(ops, ev, pricer);
    ApplyKeepsUnique(ops, Finalized(ev), pricer);
    if i < |ops| {
      FindUnique(ops', i);
      var prior, row := ops[i], ops'[i];
      assert prior in ops;
      var t' := FinalizedTable(v, t, Some(row), Some(prior));
      assert t'.Keys == t.Keys;
      forall k | k in t'
        ensures t'[k] == GroupSum(v, ops', k)
      {
        SumToUpdate(v, ops, |ops|, i, row, k);
        FinalizedAtKey(v, t, prior, row, k, GroupSum(v, ops, k));
      }
      forall r | r in ops' && KeyOf(v, IdentityOf(r)).Some?
        ensures KeyOf(v, IdentityOf(r)).value in t'
      {
        if r != row {
          assert r in ops;
        }
      }
    }
  }

  // ----- whole runs -----

  function TableAfter(v: View, t: Table, ops: seq<OpRow>, ev: OpEvent, pricer: Option<Pricer>): Table {
    match ev
    case Started(e) => StartedTable(v, t, e, Lookup(ops, e.op))
    case Finalized(e) => FinalizedTable(v, t, Lookup(UpdateFinalized(ops, e, pricer), e.op), Lookup(ops, e.op))
  }

  function TableAfterRun(v: View, t: Table, ops: seq<OpRow>, evs: seq<OpEvent>, pricer: Option<Pricer>): Table {
    if evs == [] then t
    else
      var before := evs[..|evs| - 1];
      TableAfter(v, TableAfterRun(v, t, ops, before, pricer), ApplyOpEvents(ops, before, pricer), evs[|evs| - 1], pricer)
  }

  /** Whatever the events (re-emits, corrected kinds and identities, empty optional fields, orphan
      finalizes), the incrementally kept table is the group-by of the ops table, and no row is ever lost. */
  lemma {:induction false} RunKeepsView(v: View, t: Table, ops: seq<OpRow>, evs: seq<OpEvent>, pricer: Option<Pricer>)
    requires UniqueIds(ops) && IsView(v, t, ops)
    ensures UniqueIds(ApplyOpEvents(ops, evs, pricer))
    ensures IsView(v, TableAfterRun(v, t, ops, evs, pricer), ApplyOpEvents(ops, evs, pricer))
    ensures t.Keys <= TableAfterRun(v, t, ops, evs, pricer).Keys
  {
    if evs != [] {
      var before, ev := evs[..|evs| - 1], evs[|evs| - 1];
      RunKeepsView(v, t, ops, before, pricer);
      var t1, ops1 := TableAfterRun(v, t, ops, before, pricer), ApplyOpEvents(ops, before, pricer);
      ApplyKeepsUnique(ops1, ev, pricer);
      match ev
      case Started(e) => StartedKeepsView(v, t1, ops1, e);
      case Finalized(e) => FinalizedKeepsView(v, t1, ops1, e, pricer);
    }
  }

  /** A row no op keys to any more stays, with every counter at zero. */
  lemma EmptiedRowIsZero(v: View, t: Table, ops: seq<OpRow>, k: Key)
    requires IsView(v, t, ops) && k in t
    requires forall row | row in ops :: KeyOf(v, IdentityOf(row)) != Some(k)
    ensures t[k] == ZERO
  {
    SumToEmpty(v, ops, |ops|, k);
  }

  lemma RestartedTwice(v: View, t: Table, row: OpRow, ev: OpStarted)
    requires IdentityOf(row) == EffectiveIdentity(ev, Some(row))
    requires KeyOf(v, IdentityOf(row)).Some? ==> KeyOf(v, IdentityOf(row)).value in t
    ensures StartedTable(v, t, ev, Some(row)) == t
  {
  }

  lemma FinalizedTwice(v: View, t: Table, row: OpRow)
    ensures FinalizedTable(v, t, Some(row), Some(row)) == t
  {
    var k := KeyOf(v, IdentityOf(row));
    if k.Some? && k.value in t {
      assert Plus(t[k.value], Minus(BookedTotals(v, row), BookedTotals(v, row))) == t[k.value];
    }
  }

  /** Emitting an event a second time changes neither the ops table nor any catalog table. */
  lemma ReplayChangesNothing(v: View, t: Table, ops: seq<OpRow>, ev: OpEvent, pricer: Option<Pricer>)
    requires UniqueIds(ops) && IsView(v, t, ops)
    ensures var ops1 := ApplyOpEvent(ops, ev, pricer);
            var t1 := TableAfter(v, t, ops, ev, pricer);
            ApplyOpEvent(ops1, ev, pricer) == ops1 && TableAfter(v, t1, ops1, ev, pricer) == t1
  {
    match ev
    case Started(e) => ReplayStarted(v, t, ops, e);
    case Finalized(e) => ReplayFinalized(v, t, ops, e, pricer);
  }

  lemma ReplayStarted(v: View, t: Table, ops: seq<OpRow>, e: OpStarted)
    requires UniqueIds(ops) && IsView(v, t, ops)
    ensures var ops1 := UpsertStarted(ops, e);
            var t1 := StartedTable(v, t, e, Lookup(ops, e.op));
            UpsertStarted(ops1, e) == ops1 && StartedTable(v, t1, e, Lookup(ops1, e.op)) == t1
  {
    var i, ops1 := Find(ops, e.op), UpsertStarted(ops, e);
    ApplyKeepsUnique(ops, Started(e), None);
    FindUnique(ops1, i);
    var row := ops1[i];
    assert RestartedRow(row, e) == row;
    StartedKeepsView(v, t, ops, e);
    assert row in ops1;
    RestartedTwice(v, StartedTable(v, t, e, Lookup(ops, e.op)), row, e);
  }

  lemma ReplayFinalized(v: View, t: Table, ops: seq<OpRow>, e: OpFinalized, pricer: Option<Pricer>)
    requires UniqueIds(ops)
    ensures var ops1 := UpdateFinalized(ops, e, pricer);
            var t1 := FinalizedTable(v, t, Lookup(ops1, e.op), Lookup(ops, e.op));
            && UpdateFinalized(ops1, e, pricer) == ops1
            && FinalizedTable(v, t1, Lookup(ops1, e.op), Lookup(ops1, e.op)) == t1
  {
    var i, ops1 := Find(ops, e.op), UpdateFinalized(ops, e, pricer);
    ApplyKeepsUnique(ops, Finalized(e), pricer);
    if i < |ops| {
      FindUnique(ops1, i);
      assert FinalizedRow(ops1[i], e, pricer) == ops1[i];
      FinalizedTwice(v, FinalizedTable(v, t, Some(ops1[i]), Some(ops[i])), ops1[i]);
    }
  }

  // ----- each op under exactly one row -----

  ghost function CallsOver(t: Table, keys: set<Key>): int
    requires keys <= t.Keys
  {
    if keys == {} then 0
    else
      var k :| k in keys;
      t[k].calls + CallsOver(t, keys - {k})
  }

  lemma {:induction false} CallsOverRemove(t: Table, keys: set<Key>, k: Key)
    requires keys <= t.Keys && k in keys
    ensures CallsOver(t, keys) == t[k].calls + CallsOver(t, keys - {k})
    decreases |keys|
  {
    var j :| j in keys && CallsOver(t, keys) == t[j].calls + CallsOver(t, keys - {j});
    if j != k {
      CallsOverRemove(t, keys - {j}, k);
      CallsOverRemove(t, keys - {k}, j);
      assert keys - {j} - {k} == keys - {k} - {j};
    }
  }

  lemma {:induction false} CallsOverSame(t: Table, u: Table, keys: set<Key>)
    requires keys <= t.Keys && keys <= u.Keys
    requires forall k | k in keys :: t[k].calls == u[k].calls
    ensures CallsOver(t, keys) == CallsOver(u, keys)
    decreases |keys|
  {
    if keys != {} {
      var k :| k in keys;
      CallsOverRemove(t, keys, k);
      CallsOverRemove(u, keys, k);
      CallsOverSame(t, u, keys - {k});
    }
  }

  ghost function Keyed(v: View, ops: seq<OpRow>, n: nat): nat
    requires n <= |ops|
  {
    if n == 0 then 0
    else Keyed(v, ops, n - 1) + if KeyOf(v, IdentityOf(ops[n - 1])).Some? then 1 else 0
  }

  ghost function SumsTo(v: View, ops: seq<OpRow>, n: nat, keys: set<Key>): Table
    requires n <= |ops|
  {
    map k | k in keys :: SumTo(v, ops, n, k)
  }

  lemma {:induction false} CallsAreKeyedOps(v: View, ops: seq<OpRow>, n: nat, keys: set<Key>)
    requires n <= |ops|
    requires forall i | 0 <= i < n && KeyOf(v, IdentityOf(ops[i])).Some? :: KeyOf(v, IdentityOf(ops[i])).value in keys
    ensures CallsOver(SumsTo(v, ops, n, keys), keys) == Keyed(v, ops, n)
  {
    var now := SumsTo(v, ops, n, keys);
    if n == 0 {
      NoCalls(now, keys);
    } else {
      CallsAreKeyedOps(v, ops, n - 1, keys);
      var before := SumsTo(v, ops, n - 1, keys);
      var key := KeyOf(v, IdentityOf(ops[n - 1]));
      if key.Some? {
        CallsOverRemove(now, keys, key.value);
        CallsOverRemove(before, keys, key.value);
        CallsOverSame(now, before, keys - {key.value});
      } else {
        CallsOverSame(now, before, keys);
      }
    }
  }

  lemma {:induction false} NoCalls(t: Table, keys: set<Key>)
    requires keys <= t.Keys && forall k | k in keys :: t[k].calls == 0
    ensures CallsOver(t, keys) == 0
    decreases |keys|
  {
    if keys != {} {
      var k :| k in keys;
      CallsOverRemove(t, keys, k);
      NoCalls(t, keys - {k});
    }
  }

  /** The call counts of a whole table add up to the number of ops that have a key in it: no op is
      counted under two rows and none is lost. */
  lemma EachOpIsCountedOnce(v: View, t: Table, ops: seq<OpRow>)
    requires IsView(v, t, ops)
    ensures CallsOver(t, t.Keys) == Keyed(v, ops, |ops|)
  {
    CallsAreKeyedOps(v, ops, |ops|, t.Keys);
    CallsOverSame(t, SumsTo(v, ops, |ops|, t.Keys), t.Keys);
  }
}
