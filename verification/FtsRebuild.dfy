/** The full-text rebuild while batches keep committing (internal/ingest/fts_backfill.go, ingester.go:793-827). Loading
    a page and inserting it are two transactions, so a batch may come between them; it commits with its own refresh
    suppressed by the rebuild flag and marks its source for a repair (internal/ingest/worker.go:198-211). */
module FtsRebuild {
  import opened Options
  import opened PrimaryRows
  import opened OrderedRows
  import opened Keyset
  import opened Fts

  /** pending: the sources whose read models are to be repaired. */
  datatype Sys = Sys(ops: seq<OpRow>, fts: Index, pending: set<string>)

  datatype Phase = Scanning(cursor: nat) | Loaded(cursor: nat, page: seq<Numbered>) | Finished

  datatype Act = Commit(source: string, writes: seq<OpEvent>, pricer: Option<Pricer>) | Load | Insert

  /** The text order of op ids, every one above the empty cursor, and the page size. */
  datatype Scan = Scan(rank: OpId -> nat, limit: nat)

  ghost predicate Sensible(scan: Scan) {
    0 < scan.limit && (forall a :: scan.rank(a) > 0) && forall a, b | scan.rank(a) == scan.rank(b) :: a == b
  }

  function SourceOf(id: OpId): string { id.turn.session.source }

  ghost predicate CanAct(ph: Phase, act: Act) {
    match act
    case Commit(source, writes, _) => forall i | 0 <= i < |writes| :: SourceOf(OfWrite(writes[i])) == source
    case Load => ph.Scanning?
    case Insert => ph.Loaded?
  }

  /** INSERT row by row. */
  function Inserted(fts: Index, page: seq<Numbered>): Index {
    if page == [] then fts
    else Inserted(fts, page[..|page| - 1])[RowId(page[|page| - 1].rowid) := EntryOf(page[|page| - 1].op)]
  }

  function LoadPage(scan: Scan, ops: seq<OpRow>, cursor: nat): seq<Numbered> {
    Page((x: Numbered) => scan.rank(x.op.id), Rows(ops), cursor, scan.limit)
  }

  ghost function Do(scan: Scan, s: Sys, ph: Phase, act: Act): (Sys, Phase)
    requires CanAct(ph, act)
  {
    match act
    case Commit(source, writes, pricer) => (s.(ops := ApplyOpEvents(s.ops, writes, pricer), pending := s.pending + {source}), ph)
    case Load =>
      var page := LoadPage(scan, s.ops, ph.cursor);
      (s, if page == [] then Finished else Loaded(ph.cursor, page))
    case Insert =>
      (s.(fts := Inserted(s.fts, ph.page)),
       if |ph.page| < scan.limit || ph.page == [] then Finished else Scanning(scan.rank(ph.page[|ph.page| - 1].op.id)))
  }

  ghost predicate CanRun(scan: Scan, s: Sys, ph: Phase, acts: seq<Act>)
    decreases |acts|
  {
    acts != [] ==> CanAct(ph, acts[0]) && var r := Do(scan, s, ph, acts[0]); CanRun(scan, r.0, r.1, acts[1..])
  }

  ghost function Run(scan: Scan, s: Sys, ph: Phase, acts: seq<Act>): (Sys, Phase)
    requires CanRun(scan, s, ph, acts)
    decreases |acts|
  {
    if acts == [] then (s, ph) else var r := Do(scan, s, ph, acts[0]); Run(scan, r.0, r.1, acts[1..])
  }

  // ----- what a run keeps -----

  /** The op is of a source that is to be repaired anyway. */
  predicate Excused(s: Sys, i: nat)
    requires i < |s.ops|
  {
    SourceOf(s.ops[i].id) in s.pending
  }

  /** Entries are of stored ops up to the cursor only, and every op up to it is indexed or excused. */
  ghost predicate UpTo(scan: Scan, s: Sys, cursor: nat) {
    && (forall r | r in s.fts :: 1 <= r.n <= |s.ops| && scan.rank(s.ops[r.n - 1].id) <= cursor)
    && (forall i | 0 <= i < |s.ops| && scan.rank(s.ops[i].id) <= cursor :: Excused(s, i) || Indexed(s.fts, s.ops, i))
  }

  /** A row of the page is still of the op it was loaded from. */
  predicate SameOp(x: Numbered, ops: seq<OpRow>) {
    1 <= x.rowid <= |ops| && ops[x.rowid - 1].id == x.op.id
  }

  /** The page loaded above the cursor: distinct ops in key order, and every op above the cursor is on it as it is
      now, or beyond its end, or excused. */
  ghost predicate PageHolds(scan: Scan, s: Sys, cursor: nat, page: seq<Numbered>) {
    && page != []
    && (forall j | 0 <= j < |page| :: SameOp(page[j], s.ops) && cursor < scan.rank(page[j].op.id) <= scan.rank(page[|page| - 1].op.id))
    && (forall i, j | 0 <= i < j < |page| :: page[i].rowid != page[j].rowid)
    && (forall i | 0 <= i < |s.ops| && scan.rank(s.ops[i].id) > cursor ::
          || Excused(s, i) || Numbered(i + 1, s.ops[i]) in page
          || (|page| == scan.limit && scan.rank(page[|page| - 1].op.id) < scan.rank(s.ops[i].id)))
  }

  /** Every entry is of a stored op, and every op is indexed or excused. */
  ghost predicate AllIndexed(s: Sys) {
    && (forall r | r in s.fts :: 1 <= r.n <= |s.ops|)
    && (forall i | 0 <= i < |s.ops| :: Excused(s, i) || Indexed(s.fts, s.ops, i))
  }

  ghost predicate OnTrack(scan: Scan, s: Sys, ph: Phase) {
    && UniqueIds(s.ops)
    && match ph
       case Scanning(cursor) => UpTo(scan, s, cursor)
       case Loaded(cursor, page) => UpTo(scan, s, cursor) && PageHolds(scan, s, cursor, page)
       case Finished => AllIndexed(s)
  }

  /** A batch keeps every stored op in its place, and changes and adds only ops of its source. */
  lemma {:induction false} CommitTouches(ops: seq<OpRow>, source: string, writes: seq<OpEvent>, pricer: Option<Pricer>)
    requires UniqueIds(ops) && forall i | 0 <= i < |writes| :: SourceOf(OfWrite(writes[i])) == source
    ensures var now := ApplyOpEvents(ops, writes, pricer);
            && UniqueIds(now) && |ops| <= |now|
            && (forall i | 0 <= i < |ops| :: now[i].id == ops[i].id && (now[i] == ops[i] || SourceOf(ops[i].id) == source))
            && (forall i | |ops| <= i < |now| :: SourceOf(now[i].id) == source)
  {
    if writes != [] {
      var n := |writes| - 1;
      CommitTouches(ops, source, writes[..n], pricer);
      ApplyKeepsUnique(ApplyOpEvents(ops, writes[..n], pricer), writes[n], pricer);
    }
  }

  lemma CommitOnTrack(scan: Scan, s: Sys, ph: Phase, act: Act)
    requires OnTrack(scan, s, ph) && act.Commit? && CanAct(ph, act)
    ensures OnTrack(scan, Do(scan, s, ph, act).0, ph)
  {
    CommitTouches(s.ops, act.source, act.writes, act.pricer);
    var s' := Do(scan, s, ph, act).0;
    forall i | 0 <= i < |s'.ops|
      ensures Excused(s', i) || (i < |s.ops| && s'.ops[i] == s.ops[i] && !Excused(s, i))
    {
    }
    forall i | 0 <= i < |s'.ops| && !Excused(s', i)
      ensures Indexed(s'.fts, s'.ops, i) <==> Indexed(s.fts, s.ops, i)
    {
    }
    if ph.Loaded? {
      forall j | 0 <= j < |ph.page|
        ensures SameOp(ph.page[j], s'.ops)
      {
        assert SameOp(ph.page[j], s.ops);
      }
    }
  }

  lemma LoadOnTrack(scan: Scan, s: Sys, cursor: nat)
    requires Sensible(scan) && UniqueIds(s.ops) && UpTo(scan, s, cursor)
    ensures var page := LoadPage(scan, s.ops, cursor);
            if page == [] then AllIndexed(s) else PageHolds(scan, s, cursor, page)
  {
    var page := LoadPage(scan, s.ops, cursor);
    PageCovers(s.ops, scan.rank, cursor, scan.limit);
    assert Covers(page, s.ops, scan.rank, cursor, scan.limit);
    forall j | 0 <= j < |page|
      ensures SameOp(page[j], s.ops)
    {
      assert FromOps(page[j], s.ops);
    }
  }

  lemma {:induction false} InsertedAt(fts: Index, page: seq<Numbered>, r: RowId)
    requires forall i, j | 0 <= i < j < |page| :: page[i].rowid != page[j].rowid
    ensures r in Inserted(fts, page) <==> r in fts || OnPage(page, |page|, r.n)
    ensures !OnPage(page, |page|, r.n) && r in fts ==> Inserted(fts, page)[r] == fts[r]
    ensures forall j | 0 <= j < |page| && page[j].rowid == r.n :: Inserted(fts, page)[r] == EntryOf(page[j].op)
  {
    if page != [] {
      var n := |page| - 1;
      InsertedAt(fts, page[..n], r);
      assert forall j | 0 <= j < n :: page[..n][j] == page[j];
      assert OnPage(page, |page|, r.n) <==> OnPage(page[..n], n, r.n) || page[n].rowid == r.n by {
        if j :| 0 <= j < |page| && page[j].rowid == r.n {
          assert j == n || page[..n][j].rowid == r.n;
        }
        if OnPage(page[..n], n, r.n) {
          var j :| 0 <= j < n && page[..n][j].rowid == r.n;
          assert page[j].rowid == r.n;
        }
        assert page[n].rowid == r.n ==> OnPage(page, |page|, r.n);
      }
    }
  }

  /** The ops of the page, and no others, are new in the index. */
  lemma PageIsFree(scan: Scan, s: Sys, cursor: nat, page: seq<Numbered>)
    requires UpTo(scan, s, cursor) && PageHolds(scan, s, cursor, page)
    ensures forall j | 0 <= j < |page| :: RowId(page[j].rowid) !in s.fts
  {
    forall j | 0 <= j < |page|
      ensures RowId(page[j].rowid) !in s.fts
    {
      assert SameOp(page[j], s.ops);
    }
  }

  lemma InsertedOp(scan: Scan, s: Sys, cursor: nat, page: seq<Numbered>, i: nat)
    requires UniqueIds(s.ops) && UpTo(scan, s, cursor) && PageHolds(scan, s, cursor, page)
    requires i < |s.ops| && !Excused(s, i)
    requires scan.rank(s.ops[i].id) <= scan.rank(page[|page| - 1].op.id) || |page| < scan.limit
    ensures Indexed(Inserted(s.fts, page), s.ops, i)
  {
    InsertedAt(s.fts, page, RowId(i + 1));
    if scan.rank(s.ops[i].id) <= cursor {
      assert Indexed(s.fts, s.ops, i);
      forall j | 0 <= j < |page|
        ensures page[j].rowid != i + 1
      {
        assert SameOp(page[j], s.ops);
      }
    } else {
      var j :| 0 <= j < |page| && page[j] == Numbered(i + 1, s.ops[i]);
      assert OnPage(page, |page|, i + 1);
    }
  }

  lemma {:induction false} InsertedEntry(scan: Scan, s: Sys, cursor: nat, page: seq<Numbered>, r: RowId)
    requires UpTo(scan, s, cursor) && PageHolds(scan, s, cursor, page) && r in Inserted(s.fts, page)
    ensures 1 <= r.n <= |s.ops| && scan.rank(s.ops[r.n - 1].id) <= scan.rank(page[|page| - 1].op.id)
  {
    InsertedAt(s.fts, page, r);
    if r !in s.fts {
      var j :| 0 <= j < |page| && page[j].rowid == r.n;
      assert SameOp(page[j], s.ops);
    }
  }

  lemma InsertOnTrack(scan: Scan, s: Sys, cursor: nat, page: seq<Numbered>)
    requires Sensible(scan) && UniqueIds(s.ops) && UpTo(scan, s, cursor) && PageHolds(scan, s, cursor, page)
    ensures UpTo(scan, s.(fts := Inserted(s.fts, page)), scan.rank(page[|page| - 1].op.id))
    ensures |page| < scan.limit ==> AllIndexed(s.(fts := Inserted(s.fts, page)))
  {
    forall r | r in Inserted(s.fts, page)
      ensures 1 <= r.n <= |s.ops| && scan.rank(s.ops[r.n - 1].id) <= scan.rank(page[|page| - 1].op.id)
    {
      InsertedEntry(scan, s, cursor, page, r);
    }
    forall i | 0 <= i < |s.ops| && (scan.rank(s.ops[i].id) <= scan.rank(page[|page| - 1].op.id) || |page| < scan.limit)
      ensures Excused(s, i) || Indexed(Inserted(s.fts, page), s.ops, i)
    {
      if !Excused(s, i) {
        InsertedOp(scan, s, cursor, page, i);
      }
    }
    assert forall i | 0 <= i < |s.ops| :: Excused(s.(fts := Inserted(s.fts, page)), i) == Excused(s, i);
  }

  lemma ActOnTrack(scan: Scan, s: Sys, ph: Phase, act: Act)
    requires Sensible(scan) && OnTrack(scan, s, ph) && CanAct(ph, act)
    ensures var r := Do(scan, s, ph, act); OnTrack(scan, r.0, r.1)
  {
    match act
    case Commit(_, _, _) => CommitOnTrack(scan, s, ph, act);
    case Load => LoadOnTrack(scan, s, ph.cursor);
    case Insert => InsertOnTrack(scan, s, ph.cursor, ph.page);
  }

  lemma {:induction false} RunOnTrack(scan: Scan, s: Sys, ph: Phase, acts: seq<Act>)
    requires Sensible(scan) && OnTrack(scan, s, ph) && CanRun(scan, s, ph, acts)
    ensures var r := Run(scan, s, ph, acts); OnTrack(scan, r.0, r.1)
    decreases |acts|
  {
    if acts != [] {
      ActOnTrack(scan, s, ph, acts[0]);
      var r := Do(scan, s, ph, acts[0]);
      RunOnTrack(scan, r.0, r.1, acts[1..]);
    }
  }

  /** However batches come between the pages, and between loading a page and inserting it: no page is ever inserted
      over an existing entry, which would be an error; and when the scan ends every op has its entry, with its
      current text, unless its source is marked for a repair. */
  lemma RebuildIndexes(scan: Scan, s: Sys, acts: seq<Act>)
    requires Sensible(scan) && UniqueIds(s.ops) && s.fts == map[] && CanRun(scan, s, Scanning(0), acts)
    ensures var r := Run(scan, s, Scanning(0), acts);
            && (r.1.Loaded? ==> forall j | 0 <= j < |r.1.page| :: RowId(r.1.page[j].rowid) !in r.0.fts)
            && (r.1.Finished? ==> AllIndexed(r.0))
  {
    assert OnTrack(scan, s, Scanning(0));
    RunOnTrack(scan, s, Scanning(0), acts);
    var r := Run(scan, s, Scanning(0), acts);
    if r.1.Loaded? {
      PageIsFree(scan, r.0, r.1.cursor, r.1.page);
    }
  }

  /** The ops after the run's commits, in order. */
  function CommittedOps(ops: seq<OpRow>, acts: seq<Act>): seq<OpRow>
    decreases |acts|
  {
    if acts == [] then ops
    else CommittedOps(if acts[0].Commit? then ApplyOpEvents(ops, acts[0].writes, acts[0].pricer) else ops, acts[1..])
  }

  /** The rebuild writes no op; every commit lands, and marks its source. */
  lemma {:induction false} RunCommits(scan: Scan, s: Sys, ph: Phase, acts: seq<Act>, source: string)
    requires CanRun(scan, s, ph, acts)
    ensures var r := Run(scan, s, ph, acts);
            && r.0.ops == CommittedOps(s.ops, acts)
            && (source in r.0.pending <==> source in s.pending || exists act :: act in acts && act.Commit? && act.source == source)
    decreases |acts|
  {
    if acts != [] {
      var r := Do(scan, s, ph, acts[0]);
      assert acts == [acts[0]] + acts[1..];
      RunCommits(scan, r.0, r.1, acts[1..], source);
    }
  }

  lemma OneRound(scan: Scan, s: Sys, cursor: nat, rest: seq<Act>)
    requires LoadPage(scan, s.ops, cursor) != []
    requires var r := Do(scan, s, Loaded(cursor, LoadPage(scan, s.ops, cursor)), Insert); CanRun(scan, r.0, r.1, rest)
    ensures var r := Do(scan, s, Loaded(cursor, LoadPage(scan, s.ops, cursor)), Insert);
            && CanRun(scan, s, Scanning(cursor), [Load, Insert] + rest)
            && Run(scan, s, Scanning(cursor), [Load, Insert] + rest) == Run(scan, r.0, r.1, rest)
  {
    var acts := [Load, Insert] + rest;
    assert acts[0] == Load && acts[1..][0] == Insert && acts[1..][1..] == rest;
  }

  /** An empty or a short page is the last. */
  lemma LastRound(scan: Scan, s: Sys, cursor: nat) returns (acts: seq<Act>)
    requires |LoadPage(scan, s.ops, cursor)| < scan.limit
    ensures forall act | act in acts :: !act.Commit?
    ensures CanRun(scan, s, Scanning(cursor), acts) && Run(scan, s, Scanning(cursor), acts).1.Finished?
  {
    if LoadPage(scan, s.ops, cursor) == [] {
      acts := [Load];
      assert acts[1..] == [];
    } else {
      acts := [Load, Insert] + [];
      OneRound(scan, s, cursor, []);
    }
  }

  lemma FullPageAdvances(scan: Scan, s: Sys, cursor: nat)
    requires Sensible(scan) && UniqueIds(s.ops) && UpTo(scan, s, cursor) && LoadPage(scan, s.ops, cursor) != []
    ensures var page := LoadPage(scan, s.ops, cursor);
            var next := scan.rank(page[|page| - 1].op.id);
            cursor < next <= MaxRank(s.ops, scan.rank) && UpTo(scan, s.(fts := Inserted(s.fts, page)), next)
  {
    var page := LoadPage(scan, s.ops, cursor);
    LoadOnTrack(scan, s, cursor);
    InsertOnTrack(scan, s, cursor, page);
    assert SameOp(page[|page| - 1], s.ops);
  }

  /** Left alone, the scan ends. */
  lemma {:induction false} ScanEnds(scan: Scan, s: Sys, cursor: nat) returns (acts: seq<Act>)
    requires Sensible(scan) && UniqueIds(s.ops) && UpTo(scan, s, cursor)
    ensures forall act | act in acts :: !act.Commit?
    ensures CanRun(scan, s, Scanning(cursor), acts) && Run(scan, s, Scanning(cursor), acts).1.Finished?
    decreases MaxRank(s.ops, scan.rank) - cursor
  {
    var page := LoadPage(scan, s.ops, cursor);
    if |page| < scan.limit {
      acts := LastRound(scan, s, cursor);
    } else {
      FullPageAdvances(scan, s, cursor);
      var rest := ScanEnds(scan, s.(fts := Inserted(s.fts, page)), scan.rank(page[|page| - 1].op.id));
      acts := [Load, Insert] + rest;
      PageCovers(s.ops, scan.rank, cursor, scan.limit);
      OneRound(scan, s, cursor, rest);
    }
  }

  /** And then repairing the marked sources, in any order and as often as one likes, makes the whole index right. */
  lemma {:induction false} RepairsComplete(s: Sys, sources: seq<string>, indexes: seq<Index>)
    requires AllIndexed(s) && |indexes| == |sources| + 1 && indexes[0] == s.fts
    requires forall k | 0 <= k < |sources| :: SourceRepaired(indexes[k], indexes[k + 1], s.ops, sources[k])
    requires forall source | source in s.pending :: source in sources
    ensures IsProjection(indexes[|sources|], s.ops)
    decreases |sources|
  {
    if sources != [] {
      var now := Sys(s.ops, indexes[1], s.pending - {sources[0]});
      assert SourceRepaired(s.fts, indexes[1], s.ops, sources[0]);
      forall i | 0 <= i < |s.ops|
        ensures Excused(now, i) || Indexed(now.fts, s.ops, i)
      {
        assert Excused(s, i) || Indexed(s.fts, s.ops, i);
      }
      RepairsComplete(now, sources[1..], indexes[1..]);
    }
  }
}
