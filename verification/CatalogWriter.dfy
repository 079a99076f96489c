/** The writer that keeps the catalog tables in place: each statement updates one row of one table, and
    each method is tied to the table functions of module Catalog. */
module CatalogWriting {
  import opened Options
  import opened PrimaryRows
  import opened Catalog

  class CatalogWriter {
    var providers: Table
    var models: Table
    var tools: Table

    constructor ()
      ensures providers == models == tools == map[]
    {
      providers, models, tools := map[], map[], map[];
    }

    function TableAt(v: View): Table
      reads this
    {
      match v
      case Providers => providers
      case Models => models
      case Tools => tools
    }

    method UpsertProvider(name: string, alias: string, callInc: int)
      modifies this`providers
      ensures providers == UpsertCall(old(providers), (name, alias), callInc)
    {
      var k := (name, alias);
      if k in providers {
        providers := providers[k := providers[k].(calls := providers[k].calls + callInc)];
      } else {
        providers := providers[k := ZERO.(calls := 1)];
      }
    }

    method UpsertStartedModel(eff: Identity, callInc: int)
      requires eff.kind == LLM
      modifies this`models
      ensures models == UpsertCallAt(old(models), KeyOf(Models, eff), callInc)
    {
      if eff.provider == "" || eff.model == "" {
        return;
      }
      var k := (eff.provider, eff.model);
      if k in models {
        models := models[k := models[k].(calls := models[k].calls + callInc)];
      } else {
        models := models[k := ZERO.(calls := 1)];
      }
    }

    method UpsertStartedTool(eff: Identity, callInc: int)
      requires eff.kind == TOOL
      modifies this`tools
      ensures tools == UpsertCallAt(old(tools), KeyOf(Tools, eff), callInc)
    {
      if eff.name == "" {
        return;
      }
      var k := (NormalizeNamespace(eff.toolNamespace), eff.name);
      if k in tools {
        tools := tools[k := tools[k].(calls := tools[k].calls + callInc)];
      } else {
        tools := tools[k := ZERO.(calls := 1)];
      }
    }

    method UpsertStartedCatalog(eff: Identity, callInc: int)
      modifies this
      ensures forall v :: TableAt(v) == UpsertCallAt(old(TableAt(v)), KeyOf(v, eff), callInc)
    {
      if eff.kind == LLM {
        if eff.provider != "" {
          UpsertProvider(eff.provider, eff.providerAlias, callInc);
        }
        UpsertStartedModel(eff, callInc);
      } else if eff.kind == TOOL {
        UpsertStartedTool(eff, callInc);
      }
    }

    /** Back the op's whole contribution out of the rows it was booked under. */
    method RemoveOpContribution(prior: OpRow)
      modifies this
      ensures forall v :: TableAt(v) == DrainAt(old(TableAt(v)), KeyOf(v, IdentityOf(prior)), ShareOf(v, prior))
    {
      var duration := if prior.durationUs.Some? then prior.durationUs.value else 0;
      if prior.kind == LLM {
        if prior.provider != "" {
          var p := (prior.provider, prior.providerAlias);
          if p in providers {
            var r := providers[p];
            providers := providers[p := Totals(
              r.calls - 1, r.failures - FailureInc(prior.status), r.tokensIn - prior.tokensIn,
              r.tokensOut - prior.tokensOut, r.cacheRead - prior.cacheRead, r.cacheWrite - prior.cacheWrite,
              r.costUsd - prior.costUsd, r.durationUs)];
          }
          if prior.model != "" {
            var m := (prior.provider, prior.model);
            if m in models {
              var r := models[m];
              models := models[m := Totals(
                r.calls - 1, r.failures - FailureInc(prior.status), r.tokensIn - prior.tokensIn,
                r.tokensOut - prior.tokensOut, r.cacheRead - prior.cacheRead, r.cacheWrite - prior.cacheWrite,
                r.costUsd - prior.costUsd, r.durationUs - duration)];
            }
          }
        }
      } else if prior.kind == TOOL && prior.name != "" {
        var t := (NormalizeNamespace(prior.toolNamespace), prior.name);
        if t in tools {
          var r := tools[t];
          tools := tools[t := Totals(
            r.calls - 1, r.failures - FailureInc(prior.status), r.tokensIn - prior.tokensIn,
            r.tokensOut - prior.tokensOut, r.cacheRead, r.cacheWrite, r.costUsd - prior.costUsd,
            r.durationUs - duration)];
        }
      }
    }

    /** Add d to one row of one table: the UPDATE both the migration and the finalize issue. */
    method AddTotals(v: View, k: Key, d: Totals)
      modifies this
      ensures forall u :: TableAt(u) == if u == v then ShiftAt(old(TableAt(u)), Some(k), d) else old(TableAt(u))
    {
      match v
      case Providers => if k in providers { providers := providers[k := Plus(providers[k], d)]; }
      case Models => if k in models { models := models[k := Plus(models[k], d)]; }
      case Tools => if k in tools { tools := tools[k := Plus(tools[k], d)]; }
    }

    /** Re-book the totals, without the call, under the rows of the identity given. */
    method AddMigratedTotals(eff: Identity, prior: OpRow)
      modifies this
      ensures forall v :: TableAt(v) == ShiftAt(old(TableAt(v)), KeyOf(v, eff), BookedTotals(v, prior))
    {
      if eff.kind == LLM {
        if eff.provider != "" {
          AddTotals(Providers, (eff.provider, eff.providerAlias), BookedTotals(Providers, prior));
          if eff.model != "" {
            AddTotals(Models, (eff.provider, eff.model), BookedTotals(Models, prior));
          }
        }
      } else if eff.kind == TOOL && eff.name != "" {
        AddTotals(Tools, (NormalizeNamespace(eff.toolNamespace), eff.name), BookedTotals(Tools, prior));
      }
    }

    method OnOpStarted(ev: OpStarted, inserted: bool, prior: Option<OpRow>)
      requires inserted == prior.None?
      modifies this
      ensures forall v :: TableAt(v) == StartedTable(v, old(TableAt(v)), ev, prior)
    {
      var eff := EffectiveIdentity(ev, prior);
      var identityChanged := !inserted && prior.Some? && IdentityChanged(eff, IdentityOf(prior.value));
      var callInc := if inserted || identityChanged then 1 else 0;
      if identityChanged {
        RemoveOpContribution(prior.value);
      }
      UpsertStartedCatalog(eff, callInc);
      if identityChanged {
        AddMigratedTotals(eff, prior.value);
      }
    }

    method OnOpFinalized(now: Option<OpRow>, prior: Option<OpRow>)
      requires NoNamelessTool()
      modifies this
      ensures forall v :: TableAt(v) == FinalizedTable(v, old(TableAt(v)), now, prior)
    {
      if now.None? {
        return;
      }
      var row := now.value;
      if row.kind == LLM {
        if row.provider != "" {
          AddTotals(Providers, (row.provider, row.providerAlias), Delta(Providers, row, prior));
          if row.model != "" {
            AddTotals(Models, (row.provider, row.model), Delta(Models, row, prior));
          }
        }
      } else if row.kind == TOOL {
        AddTotals(Tools, (NormalizeNamespace(row.toolNamespace), row.name), Delta(Tools, row, prior));
      }
    }

    /** A nameless tool has no row, which is why the finalize can do without testing for it. */
    ghost predicate NoNamelessTool()
      reads this
    {
      forall k | k in tools :: k.1 != ""
    }

    static function Delta(v: View, row: OpRow, prior: Option<OpRow>): Totals {
      if prior.Some? then Minus(BookedTotals(v, row), BookedTotals(v, prior.value)) else BookedTotals(v, row)
    }
  }

  /** The ops table and the writer that books its catalog rows in the same transaction. */
  class OpWriter {
    var ops: seq<OpRow>
    const catalog: CatalogWriter
    const pricer: Option<Pricer>

    ghost predicate Valid()
      reads this, catalog
    {
      UniqueIds(ops) && catalog.NoNamelessTool() && forall v :: IsView(v, catalog.TableAt(v), ops)
    }

    constructor (pricer: Option<Pricer>)
      ensures Valid() && ops == [] && this.pricer == pricer && fresh(catalog)
    {
      ops := [];
      this.pricer := pricer;
      catalog := new CatalogWriter();
    }

    method ApplyOpStarted(ev: OpStarted)
      requires Valid()
      modifies this, catalog
      ensures Valid()
      ensures ops == UpsertStarted(old(ops), ev)
      ensures forall v :: old(catalog.TableAt(v)).Keys <= catalog.TableAt(v).Keys
    {
      var prior := Lookup(ops, ev.op);
      forall v {
        StartedKeepsView(v, catalog.TableAt(v), ops, ev);
      }
      ApplyKeepsUnique(ops, Started(ev), pricer);
      ops := UpsertStarted(ops, ev);
      catalog.OnOpStarted(ev, prior.None?, prior);
      assert catalog.TableAt(Tools) == StartedTable(Tools, old(catalog.TableAt(Tools)), ev, prior);
    }

    method ApplyOpFinalized(ev: OpFinalized)
      requires Valid()
      modifies this, catalog
      ensures Valid()
      ensures ops == UpdateFinalized(old(ops), ev, pricer)
      ensures forall v :: catalog.TableAt(v).Keys == old(catalog.TableAt(v)).Keys
    {
      var prior := Lookup(ops, ev.op);
      forall v {
        FinalizedKeepsView(v, catalog.TableAt(v), ops, ev, pricer);
      }
      ApplyKeepsUnique(ops, Finalized(ev), pricer);
      ops := UpdateFinalized(ops, ev, pricer);
      catalog.OnOpFinalized(Lookup(ops, ev.op), prior);
      assert catalog.TableAt(Tools) == FinalizedTable(Tools, old(catalog.TableAt(Tools)), Lookup(ops, ev.op), prior);
    }

    /** A batch of op events, applied in order in one transaction. */
    method ApplyBatch(batch: seq<OpEvent>)
      requires Valid()
      modifies this, catalog
      ensures Valid()
      ensures ops == ApplyOpEvents(old(ops), batch, pricer)
    {
      for i := 0 to |batch|
        invariant Valid()
        invariant ops == ApplyOpEvents(old(ops), batch[..i], pricer)
      {
        assert batch[..i + 1][..i] == batch[..i];
        match batch[i]
        case Started(e) => ApplyOpStarted(e);
        case Finalized(e) => ApplyOpFinalized(e);
      }
      assert batch[..|batch|] == batch;
    }
  }
}
