/** What a catalog row says, read off the op rows alone. Nothing here uses the writer's shares or deltas. */
module CatalogMeaning {
  import opened Options
  import opened PrimaryRows
  import opened OrderedRows
  import opened Sums
  import opened Catalog

  /** The op belongs to this catalog row. */
  predicate Belongs(v: View, row: OpRow, k: Key) {
    match v
    case Providers => row.kind == "llm" && row.provider != "" && k == (row.provider, row.providerAlias)
    case Models => row.kind == "llm" && row.provider != "" && row.model != "" && k == (row.provider, row.model)
    case Tools =>
      && row.kind == "tool"
      && row.name != ""
      && k == (if row.toolNamespace == "" then "builtin" else row.toolNamespace, row.name)
  }

  /** Every counter over the rows: tools have no cache columns, providers no duration. */
  ghost predicate Columns(v: View, t: Totals, rows: seq<OpRow>) {
    && t.calls == |rows|
    && t.failures == |Filter((r: OpRow) => r.status == "failed", rows)|
    && t.tokensIn == SumBy((r: OpRow) => r.tokensIn, rows)
    && t.tokensOut == SumBy((r: OpRow) => r.tokensOut, rows)
    && t.cacheRead == (if v.Tools? then 0 else SumBy((r: OpRow) => r.cacheRead, rows))
    && t.cacheWrite == (if v.Tools? then 0 else SumBy((r: OpRow) => r.cacheWrite, rows))
    && t.costUsd == RealSumBy((r: OpRow) => r.costUsd, rows)
    && t.durationUs == if v.Providers? then 0 else SumBy((r: OpRow) => if r.durationUs.Some? then r.durationUs.value else 0, rows)
  }

  lemma OneMore(v: View, t: Totals, rows: seq<OpRow>, row: OpRow)
    requires Columns(v, t, rows)
    ensures Columns(v, Plus(t, ShareOf(v, row)), rows + [row])
  {
    OneRowMore(rows, row);
  }

  lemma NoRows(v: View)
    ensures Columns(v, ZERO, [])
  {
  }

  lemma BelongsIff(v: View, row: OpRow, k: Key)
    ensures KeyOf(v, IdentityOf(row)) == Some(k) <==> Belongs(v, row, k)
  {
  }

  lemma NextRow(v: View, t: Totals, rows: seq<OpRow>, row: OpRow, k: Key, rows': seq<OpRow>)
    requires Columns(v, t, rows)
    requires rows' == if Belongs(v, row, k) then rows + [row] else rows
    ensures Columns(v, Add(v, t, row, k), rows')
  {
    BelongsIff(v, row, k);
    if Belongs(v, row, k) {
      OneMore(v, t, rows, row);
    }
  }

  lemma {:induction false} SumToMeans(v: View, ops: seq<OpRow>, n: nat, k: Key, p: OpRow -> bool, rows: seq<OpRow>)
    requires n <= |ops| && forall row :: p(row) <==> Belongs(v, row, k)
    requires rows == Filter(p, ops[..n])
    ensures Columns(v, SumTo(v, ops, n, k), rows)
  {
    if n == 0 {
      NoRows(v);
    } else {
      var before := Filter(p, ops[..n - 1]);
      SumToMeans(v, ops, n - 1, k, p, before);
      FilterNext(p, ops, n - 1);
      NextRow(v, SumTo(v, ops, n - 1, k), before, ops[n - 1], k, rows);
    }
  }

  /** What every catalog row is: the counts and sums over the ops that belong to it. */
  lemma GroupSumMeans(v: View, ops: seq<OpRow>, k: Key)
    ensures Columns(v, GroupSum(v, ops, k), Filter(row => Belongs(v, row, k), ops))
  {
    assert ops[..|ops|] == ops;
    SumToMeans(v, ops, |ops|, k, row => Belongs(v, row, k), Filter(row => Belongs(v, row, k), ops));
  }

  /** The table holds a row for every key an op belongs to, and every row it holds says what its ops add up to. */
  lemma ViewMeans(v: View, table: Table, ops: seq<OpRow>, k: Key)
    requires IsView(v, table, ops)
    ensures k in table ==> Columns(v, table[k], Filter(row => Belongs(v, row, k), ops))
    ensures Filter(row => Belongs(v, row, k), ops) != [] ==> k in table
  {
    GroupSumMeans(v, ops, k);
    var rows := Filter(row => Belongs(v, row, k), ops);
    if rows != [] {
      assert rows[0] in ops && KeyOf(v, IdentityOf(rows[0])) == Some(k);
    }
  }

  /** After any run of op events from an empty store: a catalog row is there for every key an op belongs to, and
      whatever row is there says what the ops that belong to it add up to. */
  lemma RunMeans(v: View, evs: seq<OpEvent>, pricer: Option<Pricer>, k: Key)
    ensures var ops := ApplyOpEvents([], evs, pricer);
            var table := TableAfterRun(v, map[], [], evs, pricer);
            var rows := Filter(row => Belongs(v, row, k), ops);
            (rows != [] ==> k in table) && (k in table ==> Columns(v, table[k], rows))
  {
    RunKeepsView(v, map[], [], evs, pricer);
    ViewMeans(v, TableAfterRun(v, map[], [], evs, pricer), ApplyOpEvents([], evs, pricer), k);
  }
}
