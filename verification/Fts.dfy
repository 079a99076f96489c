/** The full-text index over ops: refreshed for the ops a batch touched (internal/ingest/fts_refresh.go), or
    rebuilt and repaired page by page (internal/ingest/fts_backfill.go). */
module Fts {
  import opened Options
  import opened PrimaryRows
  import opened OrderedRows
  import opened Keyset
  import opened Picking

  datatype RowId = RowId(n: nat)

  datatype Entry = Entry(
    name: string, model: string, provider: string, toolNamespace: string, errorText: string,
    op: OpId, session: SessionId)

  type Index = map<RowId, Entry>

  function ComposeErrorText(errorClass: string, errorMessage: string): string {
    if errorClass == "" then errorMessage
    else if errorMessage == "" then errorClass
    else errorClass + " " + errorMessage
  }

  function EntryOf(op: OpRow): Entry {
    Entry(op.name, op.model, op.provider, op.toolNamespace, ComposeErrorText(op.errorClass, op.errorMessage),
          op.id, op.id.turn.session)
  }

  /** The definition: one entry per op, keyed by its rowid, holding its current text. */
  ghost predicate IsProjection(fts: Index, ops: seq<OpRow>) {
    && (forall r | r in fts :: 1 <= r.n <= |ops|)
    && (forall i | 0 <= i < |ops| :: Indexed(fts, ops, i))
  }

  ghost predicate Indexed(fts: Index, ops: seq<OpRow>, i: nat)
    requires i < |ops|
  {
    RowId(i + 1) in fts && fts[RowId(i + 1)] == EntryOf(ops[i])
  }

  /** Within a batch: only dirty ops may be behind. */
  ghost predicate Behind(fts: Index, ops: seq<OpRow>, dirty: set<OpId>) {
    && (forall r | r in fts :: 1 <= r.n <= |ops|)
    && (forall i | 0 <= i < |ops| :: ops[i].id in dirty || Indexed(fts, ops, i))
  }

  /** The definition has one answer, so an index kept up to date and one rebuilt from nothing are the same. */
  lemma OneProjection(a: Index, b: Index, ops: seq<OpRow>)
    requires IsProjection(a, ops) && IsProjection(b, ops)
    ensures a == b
  {
    forall r: RowId
      ensures r in a <==> r in b
      ensures r in a ==> a[r] == b[r]
    {
      if 1 <= r.n <= |ops| {
        assert Indexed(a, ops, r.n - 1) && Indexed(b, ops, r.n - 1);
        assert RowId(r.n - 1 + 1) == r;
      }
    }
  }

  /** Column by column: the op's own texts and ids, and its error class and message with one space between them when it
      has both. */
  predicate TellsOf(e: Entry, op: OpRow) {
    && e.name == op.name && e.model == op.model && e.provider == op.provider && e.toolNamespace == op.toolNamespace
    && e.errorText == op.errorClass + (if op.errorClass != "" && op.errorMessage != "" then " " else "") + op.errorMessage
    && e.op == op.id && e.session == op.id.turn.session
  }

  lemma EntryTells(e: Entry, op: OpRow)
    ensures e == EntryOf(op) <==> TellsOf(e, op)
  {
    assert ComposeErrorText(op.errorClass, op.errorMessage) ==
           op.errorClass + (if op.errorClass != "" && op.errorMessage != "" then " " else "") + op.errorMessage;
  }

  /** The index says so of every op, and has no entry but for the rowids of ops. */
  lemma ProjectionMeans(fts: Index, ops: seq<OpRow>)
    ensures IsProjection(fts, ops) <==>
            && (forall r: RowId :: r in fts <==> 1 <= r.n <= |ops|)
            && (forall r | r in fts :: TellsOf(fts[r], ops[r.n - 1]))
  {
    forall e, op
      ensures e == EntryOf(op) <==> TellsOf(e, op)
    {
      EntryTells(e, op);
    }
    if IsProjection(fts, ops) {
      forall r: RowId | 1 <= r.n <= |ops|
        ensures r in fts && fts[r] == EntryOf(ops[r.n - 1])
      {
        assert Indexed(fts, ops, r.n - 1);
      }
    }
  }

  /** A row of ops with its rowid. */
  datatype Numbered = Numbered(rowid: nat, op: OpRow)

  function Rows(ops: seq<OpRow>): seq<Numbered> {
    seq(|ops|, i requires 0 <= i < |ops| => Numbered(i + 1, ops[i]))
  }

  function OfWrite(w: OpEvent): OpId {
    if w.Started? then w.started.op else w.finalized.op
  }

  /** Every op write marks its op. */
  lemma WriteBehind(fts: Index, ops: seq<OpRow>, dirty: set<OpId>, w: OpEvent, pricer: Option<Pricer>)
    requires Behind(fts, ops, dirty)
    ensures Behind(fts, ApplyOpEvent(ops, w, pricer), dirty + {OfWrite(w)})
  {
    var ops' := ApplyOpEvent(ops, w, pricer);
    forall i | 0 <= i < |ops'|
      ensures ops'[i].id in dirty + {OfWrite(w)} || Indexed(fts, ops', i)
    {
      if i < |ops| && ops'[i] == ops[i] {
        assert ops[i].id in dirty || Indexed(fts, ops, i);
      }
    }
  }

  function ReindexedIndex(fts: Index, ops: seq<OpRow>, id: OpId): Index {
    var i := Find(ops, id);
    if i < |ops| then fts[RowId(i + 1) := EntryOf(ops[i])] else fts
  }

  /** Reindexing an op leaves the entries of the others, and makes its own right. */
  lemma ReindexedAt(was: Index, ops: seq<OpRow>, id: OpId, i: nat)
    requires UniqueIds(ops) && i < |ops|
    ensures Indexed(was, ops, i) || ops[i].id == id ==> Indexed(ReindexedIndex(was, ops, id), ops, i)
  {
    if ops[i].id == id {
      FindUnique(ops, i);
    }
  }

  lemma OneWriteMore(ops: seq<OpRow>, writes: seq<OpEvent>, i: nat, pricer: Option<Pricer>)
    requires i < |writes|
    ensures ApplyOpEvents(ops, writes[..i + 1], pricer) ==
            ApplyOpEvent(ApplyOpEvents(ops, writes[..i], pricer), writes[i], pricer)
  {
    assert writes[..i + 1][..i] == writes[..i];
  }

  function MaxRank(ops: seq<OpRow>, rank: OpId -> nat): (m: nat)
    ensures forall i | 0 <= i < |ops| :: rank(ops[i].id) <= m
  {
    if ops == [] then 0
    else
      var m := MaxRank(ops[..|ops| - 1], rank);
      assert forall i | 0 <= i < |ops| - 1 :: ops[i] == ops[..|ops| - 1][i];
      if rank(ops[|ops| - 1].id) > m then rank(ops[|ops| - 1].id) else m
  }

  /** Every op up to the cursor, and no other, has its entry. */
  ghost predicate IndexedUpTo(fts: Index, ops: seq<OpRow>, rank: OpId -> nat, cursor: nat) {
    && (forall r | r in fts :: 1 <= r.n <= |ops| && rank(ops[r.n - 1].id) <= cursor)
    && (forall i | 0 <= i < |ops| && rank(ops[i].id) <= cursor :: Indexed(fts, ops, i))
  }

  ghost predicate OnPage(page: seq<Numbered>, k: nat, n: nat)
    requires k <= |page|
  {
    exists j :: 0 <= j < k && page[j].rowid == n
  }

  /** The entries of the first k rows of a page have been added to what was there. */
  ghost predicate Added(was: Index, now: Index, page: seq<Numbered>, k: nat)
    requires k <= |page|
  {
    && (forall r :: r in now <==> r in was || OnPage(page, k, r.n))
    && (forall r | r in was && !OnPage(page, k, r.n) :: r in now && now[r] == was[r])
    && (forall j | 0 <= j < k :: RowId(page[j].rowid) in now && now[RowId(page[j].rowid)] == EntryOf(page[j].op))
  }

  lemma RowsDistinct(ops: seq<OpRow>, rank: OpId -> nat)
    requires UniqueIds(ops) && forall a, b | rank(a) == rank(b) :: a == b
    ensures DistinctKeys((x: Numbered) => rank(x.op.id), Rows(ops))
  {
  }

  lemma AddedNext(was: Index, now: Index, page: seq<Numbered>, k: nat)
    requires k < |page| && Added(was, now, page, k)
    requires forall i, j | 0 <= i < j < |page| :: page[i].rowid != page[j].rowid
    ensures RowId(page[k].rowid) in now ==> RowId(page[k].rowid) in was
    ensures Added(was, now[RowId(page[k].rowid) := EntryOf(page[k].op)], page, k + 1)
  {
  }

  lemma InRows(ops: seq<OpRow>, x: Numbered)
    ensures x in Rows(ops) <==> FromOps(x, ops)
  {
    if FromOps(x, ops) {
      assert Rows(ops)[x.rowid - 1] == x;
    }
  }

  predicate FromOps(x: Numbered, ops: seq<OpRow>) {
    1 <= x.rowid <= |ops| && x.op == ops[x.rowid - 1]
  }

  /** A page of ops: stored rows above the cursor in key order, and nothing above it left out below its end. */
  ghost predicate Covers(page: seq<Numbered>, ops: seq<OpRow>, rank: OpId -> nat, cursor: nat, limit: nat) {
    && |page| <= limit
    && (forall j | 0 <= j < |page| :: FromOps(page[j], ops) && cursor < rank(page[j].op.id) <= rank(page[|page| - 1].op.id))
    && (forall i, j | 0 <= i < j < |page| :: page[i].rowid != page[j].rowid)
    && (forall i | 0 <= i < |ops| && rank(ops[i].id) > cursor ::
          Numbered(i + 1, ops[i]) in page
          || (|page| == limit && (page != [] ==> rank(page[|page| - 1].op.id) < rank(ops[i].id))))
  }

  lemma PageCovers(ops: seq<OpRow>, rank: OpId -> nat, cursor: nat, limit: nat)
    requires UniqueIds(ops) && forall a, b | rank(a) == rank(b) :: a == b
    ensures Covers(Page((x: Numbered) => rank(x.op.id), Rows(ops), cursor, limit), ops, rank, cursor, limit)
  {
    var key := (x: Numbered) => rank(x.op.id);
    RowsDistinct(ops, rank);
    PageIsPage(key, Rows(ops), cursor, limit);
    IsPageCovers(Page(key, Rows(ops), cursor, limit), key, ops, rank, cursor, limit);
  }

  lemma IsPageCovers(page: seq<Numbered>, key: Numbered -> nat, ops: seq<OpRow>, rank: OpId -> nat, cursor: nat, limit: nat)
    requires IsPage(page, key, Rows(ops), cursor, limit) && forall x: Numbered :: key(x) == rank(x.op.id)
    ensures Covers(page, ops, rank, cursor, limit)
  {
    forall j | 0 <= j < |page|
      ensures FromOps(page[j], ops) && cursor < rank(page[j].op.id) <= rank(page[|page| - 1].op.id)
    {
      InRows(ops, page[j]);
      assert key(page[j]) <= key(page[|page| - 1]);
    }
    forall i, j | 0 <= i < j < |page|
      ensures page[i].rowid != page[j].rowid
    {
      InRows(ops, page[i]);
      InRows(ops, page[j]);
      assert key(page[i]) < key(page[j]);
    }
    forall i | 0 <= i < |ops| && rank(ops[i].id) > cursor
      ensures Numbered(i + 1, ops[i]) in page
              || (|page| == limit && (page != [] ==> rank(page[|page| - 1].op.id) < rank(ops[i].id)))
    {
      var x := Numbered(i + 1, ops[i]);
      InRows(ops, x);
      assert key(x) > cursor;
    }
  }

  /** A page moves the cursor to its last key; a short page, and so an empty one, is the last. */
  lemma PageAdvances(was: Index, now: Index, ops: seq<OpRow>, rank: OpId -> nat, cursor: nat, page: seq<Numbered>, limit: nat)
    requires 0 < limit && IndexedUpTo(was, ops, rank, cursor) && Covers(page, ops, rank, cursor, limit)
    requires Added(was, now, page, |page|)
    ensures page != [] ==> cursor < rank(page[|page| - 1].op.id) && IndexedUpTo(now, ops, rank, rank(page[|page| - 1].op.id))
    ensures |page| < limit ==> IsProjection(now, ops)
  {
    PageIndexes(was, now, ops, rank, cursor, page);
    if page != [] {
      var last := page[|page| - 1];
      forall r | r in now
        ensures rank(ops[r.n - 1].id) <= rank(last.op.id)
      {
        if rank(ops[r.n - 1].id) > cursor {
          var j :| 0 <= j < |page| && page[j] == Numbered(r.n, ops[r.n - 1]);
        }
      }
    }
  }

  lemma PageIndexes(was: Index, now: Index, ops: seq<OpRow>, rank: OpId -> nat, cursor: nat, page: seq<Numbered>)
    requires IndexedUpTo(was, ops, rank, cursor) && Added(was, now, page, |page|)
    requires forall j | 0 <= j < |page| :: FromOps(page[j], ops) && rank(page[j].op.id) > cursor
    ensures forall r | r in now :: 1 <= r.n <= |ops|
    ensures forall i | 0 <= i < |ops| && (rank(ops[i].id) <= cursor || Numbered(i + 1, ops[i]) in page) :: Indexed(now, ops, i)
    ensures forall r | r in now :: rank(ops[r.n - 1].id) <= cursor || Numbered(r.n, ops[r.n - 1]) in page
  {
    forall r | r in now
      ensures 1 <= r.n <= |ops|
      ensures rank(ops[r.n - 1].id) <= cursor || Numbered(r.n, ops[r.n - 1]) in page
    {
      if r !in was {
        var j :| 0 <= j < |page| && page[j].rowid == r.n;
        assert FromOps(page[j], ops) && page[j] == Numbered(r.n, ops[r.n - 1]);
      }
    }
    forall i | 0 <= i < |ops| && (rank(ops[i].id) <= cursor || Numbered(i + 1, ops[i]) in page)
      ensures Indexed(now, ops, i)
    {
      if j :| 0 <= j < |page| && page[j].rowid == i + 1 {
        assert FromOps(page[j], ops);
      } else {
        assert Indexed(was, ops, i);
      }
    }
  }

  lemma NotYet(fts: Index, ops: seq<OpRow>, rank: OpId -> nat, cursor: nat, page: seq<Numbered>, limit: nat)
    requires IndexedUpTo(fts, ops, rank, cursor) && Covers(page, ops, rank, cursor, limit)
    ensures forall j | 0 <= j < |page| :: RowId(page[j].rowid) !in fts
  {
    forall j | 0 <= j < |page|
      ensures RowId(page[j].rowid) !in fts
    {
      assert FromOps(page[j], ops);
    }
  }

  /** The rows a scan has visited: each op up to the cursor, once. */
  ghost predicate Visited(seen: seq<Numbered>, ops: seq<OpRow>, rank: OpId -> nat, cursor: nat) {
    && (forall i, j | 0 <= i < j < |seen| :: seen[i].rowid != seen[j].rowid)
    && (forall j | 0 <= j < |seen| :: FromOps(seen[j], ops) && rank(seen[j].op.id) <= cursor)
    && (forall i | 0 <= i < |ops| && rank(ops[i].id) <= cursor :: Numbered(i + 1, ops[i]) in seen)
  }

  lemma VisitedNext(seen: seq<Numbered>, ops: seq<OpRow>, rank: OpId -> nat, cursor: nat, page: seq<Numbered>, limit: nat)
    requires Visited(seen, ops, rank, cursor) && Covers(page, ops, rank, cursor, limit) && page != []
    ensures Visited(seen + page, ops, rank, rank(page[|page| - 1].op.id))
    ensures |page| < limit ==> forall i | 0 <= i < |ops| :: rank(ops[i].id) <= rank(page[|page| - 1].op.id)
  {
    var next := rank(page[|page| - 1].op.id);
    forall i, j | 0 <= i < |seen| && 0 <= j < |page|
      ensures seen[i].rowid != page[j].rowid
    {
      assert FromOps(seen[i], ops) && FromOps(page[j], ops);
    }
    forall i | 0 <= i < |ops| && (rank(ops[i].id) <= next || |page| < limit)
      ensures Numbered(i + 1, ops[i]) in seen + page && rank(ops[i].id) <= next
    {
      if rank(ops[i].id) > cursor {
        var j :| 0 <= j < |page| && page[j] == Numbered(i + 1, ops[i]);
      }
    }
  }

  /** Each op exactly once. */
  ghost predicate EachOnce(seen: seq<Numbered>, ops: seq<OpRow>) {
    && (forall i, j | 0 <= i < j < |seen| :: seen[i].rowid != seen[j].rowid)
    && (forall x :: x in seen <==> FromOps(x, ops))
  }

  lemma AllVisited(seen: seq<Numbered>, ops: seq<OpRow>, rank: OpId -> nat, cursor: nat)
    requires Visited(seen, ops, rank, cursor) && forall i | 0 <= i < |ops| :: rank(ops[i].id) <= cursor
    ensures EachOnce(seen, ops)
  {
    forall x
      ensures x in seen <==> FromOps(x, ops)
    {
      if FromOps(x, ops) {
        assert rank(ops[x.rowid - 1].id) <= cursor;
        assert x == Numbered(x.rowid - 1 + 1, ops[x.rowid - 1]);
      }
    }
  }

  /** One page of the scan. */
  lemma PageScanned(was: Index, seen: seq<Numbered>, ops: seq<OpRow>, rank: OpId -> nat, cursor: nat, page: seq<Numbered>,
                    limit: nat)
    requires IndexedUpTo(was, ops, rank, cursor) && Visited(seen, ops, rank, cursor)
    requires 0 < limit && Covers(page, ops, rank, cursor, limit)
    ensures forall j | 0 <= j < |page| :: RowId(page[j].rowid) !in was
    ensures forall i, j | 0 <= i < j < |page| :: page[i].rowid != page[j].rowid
    ensures page != [] ==>
              var next := rank(page[|page| - 1].op.id);
              && cursor < next <= MaxRank(ops, rank) && Visited(seen + page, ops, rank, next)
              && forall now | Added(was, now, page, |page|) :: IndexedUpTo(now, ops, rank, next)
    ensures |page| < limit ==> EachOnce(seen + page, ops) && forall now | Added(was, now, page, |page|) :: IsProjection(now, ops)
  {
    NotYet(was, ops, rank, cursor, page, limit);
    forall now | Added(was, now, page, |page|)
      ensures |page| < limit ==> IsProjection(now, ops)
      ensures page != [] ==> IndexedUpTo(now, ops, rank, rank(page[|page| - 1].op.id))
    {
      PageAdvances(was, now, ops, rank, cursor, page, limit);
    }
    if page != [] {
      assert FromOps(page[|page| - 1], ops);
      VisitedNext(seen, ops, rank, cursor, page, limit);
      if |page| < limit {
        AllVisited(seen + page, ops, rank, rank(page[|page| - 1].op.id));
      }
    } else {
      assert seen + page == seen;
      AllVisited(seen, ops, rank, cursor);
    }
  }

  // ----- repair -----

  /** The rowid belongs to a session done with, or to the first rows of session s. */
  predicate Reached(ops: seq<OpRow>, r: RowId, done: set<SessionId>, s: SessionId, cursor: nat) {
    1 <= r.n <= |ops| && (ops[r.n - 1].id.turn.session in done || (ops[r.n - 1].id.turn.session == s && r.n <= cursor))
  }

  /** The entries reached are now right; the others are as they were. */
  ghost predicate Repaired(was: Index, now: Index, ops: seq<OpRow>, done: set<SessionId>, s: SessionId, cursor: nat) {
    && (forall r | Reached(ops, r, done, s, cursor) :: Indexed(now, ops, r.n - 1))
    && (forall r | !Reached(ops, r, done, s, cursor) :: (r in now <==> r in was) && (r in now ==> now[r] == was[r]))
  }

  const NOBODY := SessionId("", "")

  /** The entries of the sessions done with are right; the others are as they were. */
  ghost predicate RepairedAll(was: Index, now: Index, ops: seq<OpRow>, done: set<SessionId>) {
    Repaired(was, now, ops, done, NOBODY, 0)
  }

  lemma AnySession(was: Index, now: Index, ops: seq<OpRow>, done: set<SessionId>, s: SessionId)
    ensures Repaired(was, now, ops, done, s, 0) <==> RepairedAll(was, now, ops, done)
  {
    forall r
      ensures Reached(ops, r, done, NOBODY, 0) <==> Reached(ops, r, done, s, 0)
    {
    }
  }

  function SessionRows(ops: seq<OpRow>, s: SessionId): seq<Numbered> {
    Filter((x: Numbered) => x.op.id.turn.session == s, Rows(ops))
  }

  lemma SessionRowsAre(ops: seq<OpRow>, s: SessionId)
    ensures DistinctKeys((x: Numbered) => x.rowid, SessionRows(ops, s))
    ensures forall x :: x in SessionRows(ops, s) <==> FromOps(x, ops) && x.op.id.turn.session == s
  {
    FilterDistinct((x: Numbered) => x.rowid, (x: Numbered) => x.op.id.turn.session == s, Rows(ops));
    forall x
      ensures x in Rows(ops) <==> FromOps(x, ops)
    {
      InRows(ops, x);
    }
  }

  /** A page of the session's rows: all of them between the cursor and its end, in order. */
  ghost predicate SessionPage(page: seq<Numbered>, ops: seq<OpRow>, s: SessionId, cursor: nat, limit: nat) {
    && |page| <= limit
    && (forall j | 0 <= j < |page| :: FromOps(page[j], ops) && page[j].op.id.turn.session == s
                                      && cursor < page[j].rowid <= page[|page| - 1].rowid)
    && (forall i, j | 0 <= i < j < |page| :: page[i].rowid != page[j].rowid)
    && (forall n | cursor < n <= |ops| && ops[n - 1].id.turn.session == s ::
          OnPage(page, |page|, n) || (|page| == limit && (page != [] ==> page[|page| - 1].rowid < n)))
  }

  lemma PageIsSessionPage(ops: seq<OpRow>, s: SessionId, cursor: nat, limit: nat)
    ensures SessionPage(Page((x: Numbered) => x.rowid, SessionRows(ops, s), cursor, limit), ops, s, cursor, limit)
  {
    var key := (x: Numbered) => x.rowid;
    SessionRowsAre(ops, s);
    PageIsPage(key, SessionRows(ops, s), cursor, limit);
    IsSessionPage(Page(key, SessionRows(ops, s), cursor, limit), key, ops, s, cursor, limit);
  }

  lemma IsSessionPage(page: seq<Numbered>, key: Numbered -> nat, ops: seq<OpRow>, s: SessionId, cursor: nat, limit: nat)
    requires IsPage(page, key, SessionRows(ops, s), cursor, limit) && forall x: Numbered :: key(x) == x.rowid
    ensures SessionPage(page, ops, s, cursor, limit)
  {
    SessionRowsAre(ops, s);
    forall j | 0 <= j < |page|
      ensures FromOps(page[j], ops) && page[j].op.id.turn.session == s && cursor < page[j].rowid <= page[|page| - 1].rowid
    {
      assert page[j] in SessionRows(ops, s);
      assert key(page[j]) <= key(page[|page| - 1]);
    }
    forall i, j | 0 <= i < j < |page|
      ensures page[i].rowid != page[j].rowid
    {
      assert key(page[i]) < key(page[j]);
    }
    forall n | cursor < n <= |ops| && ops[n - 1].id.turn.session == s
      ensures OnPage(page, |page|, n) || (|page| == limit && (page != [] ==> page[|page| - 1].rowid < n))
    {
      var x := Numbered(n, ops[n - 1]);
      assert x in SessionRows(ops, s) && key(x) > cursor;
      if x in page {
        var j :| 0 <= j < |page| && page[j] == x;
        assert OnPage(page, |page|, n);
      }
    }
  }

  lemma AddedMeans(was: Index, now: Index, ops: seq<OpRow>, page: seq<Numbered>)
    requires Added(was, now, page, |page|) && forall j | 0 <= j < |page| :: FromOps(page[j], ops)
    ensures forall r: RowId | OnPage(page, |page|, r.n) :: 1 <= r.n <= |ops| && Indexed(now, ops, r.n - 1)
    ensures forall r: RowId | !OnPage(page, |page|, r.n) :: (r in now <==> r in was) && (r in now ==> now[r] == was[r])
  {
    forall r: RowId | OnPage(page, |page|, r.n)
      ensures 1 <= r.n <= |ops| && Indexed(now, ops, r.n - 1)
    {
      var j :| 0 <= j < |page| && page[j].rowid == r.n;
      assert FromOps(page[j], ops);
    }
  }

  lemma ReachedNext(ops: seq<OpRow>, done: set<SessionId>, s: SessionId, cursor: nat, page: seq<Numbered>, limit: nat, r: RowId)
    requires SessionPage(page, ops, s, cursor, limit)
    ensures page != [] ==> (Reached(ops, r, done, s, page[|page| - 1].rowid)
                            <==> Reached(ops, r, done, s, cursor) || OnPage(page, |page|, r.n))
    ensures |page| < limit ==> (Reached(ops, r, done + {s}, s, 0) <==> Reached(ops, r, done, s, cursor) || OnPage(page, |page|, r.n))
  {
    if OnPage(page, |page|, r.n) {
      var j :| 0 <= j < |page| && page[j].rowid == r.n;
      assert FromOps(page[j], ops);
    }
  }

  /** A repaired page moves the cursor to its end; a short one finishes the session. */
  lemma PageRepaired(was: Index, mid: Index, now: Index, ops: seq<OpRow>, done: set<SessionId>, s: SessionId, cursor: nat,
                     page: seq<Numbered>, limit: nat)
    requires Repaired(was, mid, ops, done, s, cursor) && SessionPage(page, ops, s, cursor, limit)
    requires Added(mid, now, page, |page|)
    ensures page != [] ==> Repaired(was, now, ops, done, s, page[|page| - 1].rowid)
    ensures |page| < limit ==> Repaired(was, now, ops, done + {s}, s, 0)
  {
    AddedMeans(mid, now, ops, page);
    forall r
      ensures page != [] ==> (Reached(ops, r, done, s, page[|page| - 1].rowid)
                              <==> Reached(ops, r, done, s, cursor) || OnPage(page, |page|, r.n))
      ensures |page| < limit ==> (Reached(ops, r, done + {s}, s, 0)
                                  <==> Reached(ops, r, done, s, cursor) || OnPage(page, |page|, r.n))
    {
      ReachedNext(ops, done, s, cursor, page, limit, r);
    }
  }

  /** The rows a repair has visited: those reached, each once. */
  ghost predicate ReachedOnce(seen: seq<Numbered>, ops: seq<OpRow>, done: set<SessionId>, s: SessionId, cursor: nat) {
    && (forall i, j | 0 <= i < j < |seen| :: seen[i].rowid != seen[j].rowid)
    && (forall x :: x in seen <==> FromOps(x, ops) && Reached(ops, RowId(x.rowid), done, s, cursor))
  }

  lemma AnyReached(seen: seq<Numbered>, ops: seq<OpRow>, done: set<SessionId>, s: SessionId)
    ensures ReachedOnce(seen, ops, done, s, 0) <==> ReachedOnce(seen, ops, done, NOBODY, 0)
  {
    assert forall r :: Reached(ops, r, done, NOBODY, 0) <==> Reached(ops, r, done, s, 0);
  }

  lemma ReachedPage(seen: seq<Numbered>, ops: seq<OpRow>, done: set<SessionId>, s: SessionId, cursor: nat, page: seq<Numbered>, limit: nat)
    requires ReachedOnce(seen, ops, done, s, cursor) && SessionPage(page, ops, s, cursor, limit) && s !in done
    ensures page != [] ==> ReachedOnce(seen + page, ops, done, s, page[|page| - 1].rowid)
    ensures |page| < limit ==> ReachedOnce(seen + page, ops, done + {s}, s, 0)
  {
    forall i, j | 0 <= i < |seen| && 0 <= j < |page|
      ensures seen[i].rowid != page[j].rowid
    {
      assert seen[i] in seen;
    }
    forall x
      ensures x in page <==> FromOps(x, ops) && OnPage(page, |page|, x.rowid)
    {
      if j :| 0 <= j < |page| && page[j].rowid == x.rowid {
        assert FromOps(page[j], ops);
        assert FromOps(x, ops) ==> page[j] == x;
      }
    }
    forall x {:trigger x in page} | FromOps(x, ops)
      ensures page != [] ==> (Reached(ops, RowId(x.rowid), done, s, page[|page| - 1].rowid)
                              <==> Reached(ops, RowId(x.rowid), done, s, cursor) || x in page)
      ensures |page| < limit ==> (Reached(ops, RowId(x.rowid), done + {s}, s, 0)
                                  <==> Reached(ops, RowId(x.rowid), done, s, cursor) || x in page)
    {
      ReachedNext(ops, done, s, cursor, page, limit, RowId(x.rowid));
    }
  }

  lemma Reinserted(fts: Index, r: RowId, e: Entry)
    ensures (fts - {r})[r := e] == fts[r := e]
  {
  }

  /** The sessions of the source, and their pages. */
  predicate OfSource(s: SessionId, source: string) { s.source == source }

  /** Every op of the source has its entry, and nothing else has changed. */
  ghost predicate SourceRepaired(was: Index, now: Index, ops: seq<OpRow>, source: string) {
    && (forall i | 0 <= i < |ops| && OfSource(ops[i].id.turn.session, source) :: Indexed(now, ops, i))
    && (forall r: RowId | !(1 <= r.n <= |ops| && OfSource(ops[r.n - 1].id.turn.session, source)) ::
          (r in now <==> r in was) && (r in now ==> now[r] == was[r]))
  }

  /** Each op of the source exactly once. */
  ghost predicate SourceOnce(seen: seq<Numbered>, ops: seq<OpRow>, source: string) {
    && (forall i, j | 0 <= i < j < |seen| :: seen[i].rowid != seen[j].rowid)
    && (forall x :: x in seen <==> FromOps(x, ops) && OfSource(x.op.id.turn.session, source))
  }

  /** A page of a source's sessions: none between the cursor and its end is left out. */
  ghost predicate SourcePage(page: seq<SessionId>, sessions: seq<SessionId>, rank: SessionId -> nat, source: string,
                             cursor: nat, limit: nat)
  {
    && |page| <= limit
    && (forall j | 0 <= j < |page| :: page[j] in sessions && OfSource(page[j], source)
                                      && cursor < rank(page[j]) <= rank(page[|page| - 1]))
    && (forall i, j | 0 <= i < j < |page| :: page[i] != page[j])
    && (forall s | s in sessions && OfSource(s, source) && rank(s) > cursor ::
          s in page || (|page| == limit && (page != [] ==> rank(page[|page| - 1]) < rank(s))))
  }

  lemma PageIsSourcePage(sessions: seq<SessionId>, rank: SessionId -> nat, source: string, cursor: nat, limit: nat)
    requires (forall i, j | 0 <= i < j < |sessions| :: sessions[i] != sessions[j])
    requires forall a, b | rank(a) == rank(b) :: a == b
    ensures SourcePage(Page(rank, Filter((s: SessionId) => OfSource(s, source), sessions), cursor, limit),
                       sessions, rank, source, cursor, limit)
  {
    var rows := Filter((s: SessionId) => OfSource(s, source), sessions);
    assert DistinctKeys(rank, sessions);
    FilterDistinct(rank, (s: SessionId) => OfSource(s, source), sessions);
    PageIsPage(rank, rows, cursor, limit);
    IsSourcePage(Page(rank, rows, cursor, limit), rows, sessions, rank, source, cursor, limit);
  }

  lemma IsSourcePage(page: seq<SessionId>, rows: seq<SessionId>, sessions: seq<SessionId>, rank: SessionId -> nat, source: string,
                     cursor: nat, limit: nat)
    requires IsPage(page, rank, rows, cursor, limit) && forall s :: s in rows <==> s in sessions && OfSource(s, source)
    ensures SourcePage(page, sessions, rank, source, cursor, limit)
  {
    forall j | 0 <= j < |page|
      ensures page[j] in sessions && OfSource(page[j], source) && cursor < rank(page[j]) <= rank(page[|page| - 1])
    {
      assert page[j] in page;
      assert j < |page| - 1 ==> rank(page[j]) < rank(page[|page| - 1]);
    }
  }

  /** The source's sessions up to the cursor. */
  ghost predicate SessionsUpTo(done: set<SessionId>, sessions: seq<SessionId>, rank: SessionId -> nat, source: string, cursor: nat) {
    forall s :: s in done <==> s in sessions && OfSource(s, source) && rank(s) <= cursor
  }

  lemma SourcePageDone(done: set<SessionId>, sessions: seq<SessionId>, rank: SessionId -> nat, source: string, cursor: nat,
                       page: seq<SessionId>, limit: nat)
    requires SessionsUpTo(done, sessions, rank, source, cursor) && SourcePage(page, sessions, rank, source, cursor, limit)
    ensures page != [] ==> SessionsUpTo(done + (set s | s in page), sessions, rank, source, rank(page[|page| - 1]))
    ensures |page| < limit ==> forall s :: s in done + (set s | s in page) <==> s in sessions && OfSource(s, source)
  {
    forall s | s in page
      ensures s in sessions && OfSource(s, source) && cursor < rank(s) <= rank(page[|page| - 1])
    {
      var j :| 0 <= j < |page| && page[j] == s;
    }
  }

  function MaxSessionRank(sessions: seq<SessionId>, rank: SessionId -> nat): (m: nat)
    ensures forall s | s in sessions :: rank(s) <= m
  {
    if sessions == [] then 0
    else
      var m := MaxSessionRank(sessions[1..], rank);
      assert sessions == [sessions[0]] + sessions[1..];
      if rank(sessions[0]) > m then rank(sessions[0]) else m
  }

  class FtsStore {
    /** The order of op ids and of session ids as text; every id is above the empty cursor. */
    const rank: OpId -> nat
    const sessionRank: SessionId -> nat
    const pageSize: nat
    var ops: seq<OpRow>
    var sessions: seq<SessionId>
    var fts: Index
    var dirtyOps: set<OpId>

    ghost predicate Valid()
      reads this
    {
      && 0 < pageSize && UniqueIds(ops)
      && (forall a :: rank(a) > 0) && (forall a, b | rank(a) == rank(b) :: a == b)
      && (forall a :: sessionRank(a) > 0) && (forall a, b | sessionRank(a) == sessionRank(b) :: a == b)
      && (forall i, j | 0 <= i < j < |sessions| :: sessions[i] != sessions[j])
      && (forall i | 0 <= i < |ops| :: ops[i].id.turn.session in sessions)
    }

    constructor (rank: OpId -> nat, sessionRank: SessionId -> nat, pageSize: nat, sessions: seq<SessionId>)
      requires 0 < pageSize && forall i, j | 0 <= i < j < |sessions| :: sessions[i] != sessions[j]
      requires (forall a :: rank(a) > 0) && forall a, b | rank(a) == rank(b) :: a == b
      requires (forall a :: sessionRank(a) > 0) && forall a, b | sessionRank(a) == sessionRank(b) :: a == b
      ensures Valid() && IsProjection(fts, ops) && dirtyOps == {} && this.sessions == sessions
    {
      this.rank, this.sessionRank, this.pageSize := rank, sessionRank, pageSize;
      this.sessions := sessions;
      ops, fts, dirtyOps := [], map[], {};
    }

    // ----- the incremental refresh -----

    method ApplyOpWrite(w: OpEvent, pricer: Option<Pricer>)
      requires Valid() && Behind(fts, ops, dirtyOps) && OfWrite(w).turn.session in sessions
      modifies this`ops, this`dirtyOps
      ensures Valid() && Behind(fts, ops, dirtyOps) && ops == ApplyOpEvent(old(ops), w, pricer)
      ensures dirtyOps == old(dirtyOps) + {OfWrite(w)}
    {
      WriteBehind(fts, ops, dirtyOps, w, pricer);
      ApplyKeepsUnique(ops, w, pricer);
      ops := ApplyOpEvent(ops, w, pricer);
      dirtyOps := dirtyOps + {OfWrite(w)};
    }

    method DeleteRow(r: RowId)
      modifies this`fts
      ensures fts == old(fts) - {r}
    {
      fts := fts - {r};
    }

    /** An INSERT over an existing rowid is a constraint error, hence the precondition. */
    method InsertRow(r: RowId, e: Entry)
      requires r !in fts
      modifies this`fts
      ensures fts == old(fts)[r := e]
    {
      fts := fts[r := e];
    }

    /** Delete, then insert from the final row; an op without a row has nothing to index. */
    method ReindexOp(id: OpId)
      requires Valid()
      modifies this`fts
      ensures fts == ReindexedIndex(old(fts), ops, id)
    {
      var i := Find(ops, id);
      if i == |ops| {
        return;
      }
      DeleteRow(RowId(i + 1));
      InsertRow(RowId(i + 1), EntryOf(ops[i]));
    }

    method RefreshFts()
      requires Valid() && Behind(fts, ops, dirtyOps)
      modifies this`fts
      ensures IsProjection(fts, ops)
    {
      var ids := Listed(dirtyOps);
      var k := 0;
      while k < |ids|
        invariant k <= |ids| && (forall r | r in fts :: 1 <= r.n <= |ops|)
        invariant forall i | 0 <= i < |ops| :: ops[i].id in ids[k..] || Indexed(fts, ops, i)
      {
        forall i | 0 <= i < |ops|
          ensures ops[i].id in ids[k + 1..] || Indexed(ReindexedIndex(fts, ops, ids[k]), ops, i)
        {
          assert ids[k..] == [ids[k]] + ids[k + 1..];
          ReindexedAt(fts, ops, ids[k], i);
        }
        ReindexOp(ids[k]);
        k := k + 1;
      }
    }

    method ApplyOpWrites(writes: seq<OpEvent>, pricer: Option<Pricer>, fault: nat)
      requires Valid() && Behind(fts, ops, dirtyOps)
      requires forall i | 0 <= i < |writes| :: OfWrite(writes[i]).turn.session in sessions
      modifies this`ops, this`dirtyOps
      ensures Valid() && Behind(fts, ops, dirtyOps)
      ensures fault > |writes| ==> ops == ApplyOpEvents(old(ops), writes, pricer)
    {
      var i := 0;
      while i < |writes| && i != fault
        invariant i <= |writes| && i <= fault && Valid() && Behind(fts, ops, dirtyOps)
        invariant ops == ApplyOpEvents(old(ops), writes[..i], pricer)
      {
        OneWriteMore(old(ops), writes, i, pricer);
        ApplyOpWrite(writes[i], pricer);
        i := i + 1;
      }
      assert writes[..|writes|] == writes;
    }

    /** One batch: its op writes and the refresh commit together, or nothing does. */
    method FlushOps(writes: seq<OpEvent>, pricer: Option<Pricer>, fault: nat) returns (ok: bool)
      requires Valid() && IsProjection(fts, ops) && dirtyOps == {}
      requires forall i | 0 <= i < |writes| :: OfWrite(writes[i]).turn.session in sessions
      modifies this`ops, this`fts, this`dirtyOps
      ensures Valid() && IsProjection(fts, ops) && dirtyOps == {}
      ensures ok == (fault > |writes|)
      ensures ops == if ok then ApplyOpEvents(old(ops), writes, pricer) else old(ops)
    {
      var wasOps := ops;
      ApplyOpWrites(writes, pricer, fault);
      ok := fault > |writes|;
      if ok {
        RefreshFts();
      } else {
        ops := wasOps;
      }
      dirtyOps := {};
    }

    // ----- the rebuild, page by page -----

    method InsertFtsOpsBatch(page: seq<Numbered>)
      requires forall j | 0 <= j < |page| :: RowId(page[j].rowid) !in fts
      requires forall i, j | 0 <= i < j < |page| :: page[i].rowid != page[j].rowid
      modifies this`fts
      ensures Added(old(fts), fts, page, |page|)
    {
      var k := 0;
      while k < |page|
        invariant k <= |page| && Added(old(fts), fts, page, k)
      {
        AddedNext(old(fts), fts, page, k);
        InsertRow(RowId(page[k].rowid), EntryOf(page[k].op));
        k := k + 1;
      }
    }

    method RepairFtsOpsBatch(page: seq<Numbered>)
      requires forall i, j | 0 <= i < j < |page| :: page[i].rowid != page[j].rowid
      modifies this`fts
      ensures Added(old(fts), fts, page, |page|)
    {
      var k := 0;
      while k < |page|
        invariant k <= |page| && Added(old(fts), fts, page, k)
      {
        AddedNext(old(fts), fts, page, k);
        Reinserted(fts, RowId(page[k].rowid), EntryOf(page[k].op));
        DeleteRow(RowId(page[k].rowid));
        InsertRow(RowId(page[k].rowid), EntryOf(page[k].op));
        k := k + 1;
      }
    }

    method TruncateFts()
      modifies this`fts
      ensures fts == map[]
    {
      fts := map[];
    }

    method LoadOpsBatch(cursor: nat) returns (page: seq<Numbered>)
      ensures page == Page((x: Numbered) => rank(x.op.id), Rows(ops), cursor, pageSize)
    {
      page := Page((x: Numbered) => rank(x.op.id), Rows(ops), cursor, pageSize);
    }

    /** Whatever the page size, the scan visits every op once and ends with the definition. */
    method BackfillFtsOps() returns (total: nat, ghost seen: seq<Numbered>)
      requires Valid()
      modifies this`fts
      ensures IsProjection(fts, ops) && EachOnce(seen, ops) && total == |seen|
    {
      TruncateFts();
      total, seen := ScanPages();
    }

    method ScanPages() returns (total: nat, ghost seen: seq<Numbered>)
      requires Valid() && fts == map[]
      modifies this`fts
      ensures IsProjection(fts, ops) && EachOnce(seen, ops) && total == |seen|
    {
      var cursor := 0;
      total, seen := 0, [];
      while true
        invariant IndexedUpTo(fts, ops, rank, cursor) && Visited(seen, ops, rank, cursor) && total == |seen|
        invariant cursor <= MaxRank(ops, rank)
        decreases MaxRank(ops, rank) - cursor
      {
        var page := LoadOpsBatch(cursor);
        PageCovers(ops, rank, cursor, pageSize);
        PageScanned(fts, seen, ops, rank, cursor, page, pageSize);
        InsertFtsOpsBatch(page);
        if page == [] {
          return;
        }
        total := total + |page|;
        seen := seen + page;
        cursor := rank(page[|page| - 1].op.id);
        if |page| < pageSize {
          return;
        }
      }
    }

    // ----- the source-scoped repair -----

    /** The session's entries become right; no other entry changes. */
    method RepairSessionFtsOps(s: SessionId, ghost was: Index, ghost done: set<SessionId>, ghost seen0: seq<Numbered>)
      returns (total: nat, ghost seen: seq<Numbered>)
      requires Valid() && RepairedAll(was, fts, ops, done) && s !in done && ReachedOnce(seen0, ops, done, NOBODY, 0)
      modifies this`fts
      ensures RepairedAll(was, fts, ops, done + {s})
      ensures ReachedOnce(seen, ops, done + {s}, NOBODY, 0) && |seen| == |seen0| + total
    {
      var cursor := 0;
      AnySession(was, fts, ops, done, s);
      AnyReached(seen0, ops, done, s);
      total, seen := 0, seen0;
      while true
        invariant Repaired(was, fts, ops, done, s, cursor) && cursor <= |ops|
        invariant ReachedOnce(seen, ops, done, s, cursor) && |seen| == |seen0| + total
        decreases |ops| - cursor
      {
        var page := Page((x: Numbered) => x.rowid, SessionRows(ops, s), cursor, pageSize);
        PageIsSessionPage(ops, s, cursor, pageSize);
        ghost var mid := fts;
        RepairFtsOpsBatch(page);
        PageRepaired(was, mid, fts, ops, done, s, cursor, page, pageSize);
        AnySession(was, fts, ops, done + {s}, s);
        ReachedPage(seen, ops, done, s, cursor, page, pageSize);
        AnyReached(seen + page, ops, done + {s}, s);
        seen := seen + page;
        if page == [] {
          return;
        }
        assert FromOps(page[|page| - 1], ops);
        total := total + |page|;
        cursor := page[|page| - 1].rowid;
        if |page| < pageSize {
          return;
        }
      }
    }

    method RepairSessions(ids: seq<SessionId>, ghost was: Index, ghost done: set<SessionId>, ghost seen0: seq<Numbered>)
      returns (total: nat, ghost seen: seq<Numbered>)
      requires Valid() && RepairedAll(was, fts, ops, done) && ReachedOnce(seen0, ops, done, NOBODY, 0)
      requires forall i, j | 0 <= i < j < |ids| :: ids[i] != ids[j]
      requires forall id | id in ids :: id !in done
      modifies this`fts
      ensures RepairedAll(was, fts, ops, done + (set id | id in ids))
      ensures ReachedOnce(seen, ops, done + (set id | id in ids), NOBODY, 0) && |seen| == |seen0| + total
    {
      total, seen := 0, seen0;
      var k := 0;
      ghost var d := done;
      while k < |ids|
        invariant k <= |ids| && d == done + (set id | id in ids[..k]) && RepairedAll(was, fts, ops, d)
        invariant ReachedOnce(seen, ops, d, NOBODY, 0) && |seen| == |seen0| + total
      {
        assert ids[..k + 1] == ids[..k] + [ids[k]];
        var n;
        n, seen := RepairSessionFtsOps(ids[k], was, d, seen);
        d := d + {ids[k]};
        total := total + n;
        k := k + 1;
      }
      assert ids[..k] == ids;
    }

    /** Every op of the source is indexed as it is now; the entries of other sources are untouched. */
    method RepairSourceFtsOps(source: string) returns (total: nat, ghost seen: seq<Numbered>)
      requires Valid()
      modifies this`fts
      ensures SourceRepaired(old(fts), fts, ops, source)
      ensures SourceOnce(seen, ops, source) && total == |seen|
    {
      var cursor := 0;
      total, seen := 0, [];
      ghost var done: set<SessionId> := {};
      while true
        invariant ReachedOnce(seen, ops, done, NOBODY, 0) && total == |seen|
        invariant SessionsUpTo(done, sessions, sessionRank, source, cursor)
        invariant RepairedAll(old(fts), fts, ops, done)
        invariant cursor <= MaxSessionRank(sessions, sessionRank)
        decreases MaxSessionRank(sessions, sessionRank) - cursor
      {
        var page := Page(sessionRank, Filter((s: SessionId) => OfSource(s, source), sessions), cursor, pageSize);
        PageIsSourcePage(sessions, sessionRank, source, cursor, pageSize);
        SourcePageDone(done, sessions, sessionRank, source, cursor, page, pageSize);
        var n;
        n, seen := RepairSessions(page, old(fts), done, seen);
        done := done + (set s | s in page);
        if |page| < pageSize {
          SourceDone(old(fts), fts, ops, sessions, source, done, seen);
        }
        total := total + n;
        if page == [] {
          return;
        }
        cursor := sessionRank(page[|page| - 1]);
        if |page| < pageSize {
          return;
        }
      }
    }
  }

  lemma SourceDone(was: Index, now: Index, ops: seq<OpRow>, sessions: seq<SessionId>, source: string, done: set<SessionId>,
                   seen: seq<Numbered>)
    requires RepairedAll(was, now, ops, done) && ReachedOnce(seen, ops, done, NOBODY, 0)
    requires forall s :: s in done <==> s in sessions && OfSource(s, source)
    requires forall i | 0 <= i < |ops| :: ops[i].id.turn.session in sessions
    ensures SourceRepaired(was, now, ops, source) && SourceOnce(seen, ops, source)
  {
    forall r: RowId
      ensures Reached(ops, r, done, NOBODY, 0) <==> 1 <= r.n <= |ops| && OfSource(ops[r.n - 1].id.turn.session, source)
    {
    }
    forall i | 0 <= i < |ops| && OfSource(ops[i].id.turn.session, source)
      ensures Indexed(now, ops, i)
    {
      assert Reached(ops, RowId(i + 1), done, NOBODY, 0);
    }
  }
}
