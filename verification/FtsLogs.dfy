/** The rebuild of the log index while batches keep committing (internal/ingest/fts_backfill.go:433-463). A new log is
    indexed in the batch that writes it (internal/ingest/writer.go:1790-1806), rebuild or not, and the rebuild inserts
    without deleting: it fails when it reads a log that is already indexed. */
module FtsLogs {
  import opened OrderedRows
  import opened Keyset
  import opened Fts

  /** A row of log_entries, whose id is its position plus one: ids are handed out in order and rows are never deleted.
      indexable: it has a session, and the session's source indexes its logs. */
  datatype Log = Log(text: string, indexable: bool)

  datatype Sys = Sys(logs: seq<Log>, fts: map<RowId, Log>)

  datatype Phase = Scanning(cursor: nat) | Loaded(cursor: nat, page: seq<nat>) | Finished | Failed

  datatype Act = Commit(log: Log) | Load | Insert

  predicate CanAct(ph: Phase, act: Act) {
    match act
    case Commit(_) => true
    case Load => ph.Scanning?
    case Insert => ph.Loaded?
  }

  /** The ids of the indexable ones of the first n logs. */
  function Ids(logs: seq<Log>, n: nat): seq<nat>
    requires n <= |logs|
  {
    if n == 0 then [] else Ids(logs, n - 1) + if logs[n - 1].indexable then [n] else []
  }

  function LoadPage(logs: seq<Log>, cursor: nat, limit: nat): seq<nat> {
    Page((x: nat) => x, Ids(logs, |logs|), cursor, limit)
  }

  /** A new log is indexed in the transaction that writes it. */
  function WithLog(s: Sys, log: Log): Sys {
    Sys(s.logs + [log], if log.indexable then s.fts[RowId(|s.logs| + 1) := log] else s.fts)
  }

  predicate Collides(fts: map<RowId, Log>, page: seq<nat>) {
    exists j :: 0 <= j < |page| && RowId(page[j]) in fts
  }

  predicate Paged(s: Sys, page: seq<nat>, r: RowId) { 1 <= r.n <= |s.logs| && r.n in page }

  function WithPage(s: Sys, page: seq<nat>): (now: map<RowId, Log>)
    ensures forall r :: r in now <==> r in s.fts || Paged(s, page, r)
    ensures forall r | r in now :: now[r] == if Paged(s, page, r) then s.logs[r.n - 1] else s.fts[r]
  {
    s.fts + map x: nat | x in page && 1 <= x <= |s.logs| :: RowId(x) := s.logs[x - 1]
  }

  ghost function Do(limit: nat, s: Sys, ph: Phase, act: Act): (Sys, Phase)
    requires CanAct(ph, act)
  {
    match act
    case Commit(log) => (WithLog(s, log), ph)
    case Load =>
      var page := LoadPage(s.logs, ph.cursor, limit);
      (s, if page == [] then Finished else Loaded(ph.cursor, page))
    case Insert =>
      if Collides(s.fts, ph.page) then (s, Failed)
      else (s.(fts := WithPage(s, ph.page)),
            if |ph.page| < limit || ph.page == [] then Finished else Scanning(ph.page[|ph.page| - 1]))
  }

  ghost predicate CanRun(limit: nat, s: Sys, ph: Phase, acts: seq<Act>)
    decreases |acts|
  {
    acts != [] ==> CanAct(ph, acts[0]) && var r := Do(limit, s, ph, acts[0]); CanRun(limit, r.0, r.1, acts[1..])
  }

  ghost function Run(limit: nat, s: Sys, ph: Phase, acts: seq<Act>): (Sys, Phase)
    requires CanRun(limit, s, ph, acts)
    decreases |acts|
  {
    if acts == [] then (s, ph) else var r := Do(limit, s, ph, acts[0]); Run(limit, r.0, r.1, acts[1..])
  }

  lemma {:induction false} IdsAre(logs: seq<Log>, n: nat)
    requires n <= |logs|
    ensures DistinctKeys((x: nat) => x, Ids(logs, n))
    ensures forall x :: x in Ids(logs, n) <==> 1 <= x <= n && logs[x - 1].indexable
  {
    if n > 0 {
      var before := Ids(logs, n - 1);
      IdsAre(logs, n - 1);
      assert forall i, j | 0 <= i < j < |before| :: before[i] != before[j];
      assert forall i | 0 <= i < |before| :: before[i] in before;
    }
  }

  // ----- what a run keeps; `base` logs were there when the tables were wiped -----

  /** An indexable log has come since the wipe. */
  ghost predicate HasLate(logs: seq<Log>, base: nat) {
    exists i :: base <= i < |logs| && logs[i].indexable
  }

  /** Indexed are the logs up to the cursor and the late ones. */
  ghost predicate UpTo(s: Sys, base: nat, cursor: nat) {
    && cursor <= base <= |s.logs|
    && (forall r | r in s.fts :: 1 <= r.n <= |s.logs| && s.logs[r.n - 1].indexable && s.fts[r] == s.logs[r.n - 1]
                                 && (r.n <= cursor || base < r.n))
    && (forall i | 0 <= i < |s.logs| && s.logs[i].indexable && (i < cursor || base <= i) :: RowId(i + 1) in s.fts)
  }

  /** read: a late log was there when the page was loaded. */
  ghost predicate PageOf(s: Sys, base: nat, cursor: nat, page: seq<nat>, limit: nat, read: bool) {
    && base <= |s.logs| && page != [] && |page| <= limit
    && (forall i, j | 0 <= i < j < |page| :: page[i] < page[j])
    && (forall j | 0 <= j < |page| :: cursor < page[j] <= |s.logs| && s.logs[page[j] - 1].indexable)
    && (forall i | cursor <= i < base && s.logs[i].indexable :: i + 1 in page || (|page| == limit && page[|page| - 1] <= i))
    && (if read then HasLate(s.logs, base) && (base < page[|page| - 1] || |page| == limit) else forall j | 0 <= j < |page| :: page[j] <= base)
  }

  /** One entry per indexable log, equal to it. */
  ghost predicate AllIndexed(s: Sys) {
    && (forall r | r in s.fts :: 1 <= r.n <= |s.logs| && s.logs[r.n - 1].indexable && s.fts[r] == s.logs[r.n - 1])
    && (forall i | 0 <= i < |s.logs| && s.logs[i].indexable :: RowId(i + 1) in s.fts)
  }

  ghost predicate OnTrack(limit: nat, base: nat, s: Sys, ph: Phase, read: bool) {
    match ph
    case Scanning(cursor) => UpTo(s, base, cursor) && (read ==> HasLate(s.logs, base))
    case Loaded(cursor, page) => UpTo(s, base, cursor) && PageOf(s, base, cursor, page, limit, read)
    case Finished => !read && base <= |s.logs| && AllIndexed(s)
    case Failed => read
  }

  lemma LateAfter(logs: seq<Log>, base: nat, log: Log)
    requires base <= |logs|
    ensures HasLate(logs + [log], base) <==> HasLate(logs, base) || log.indexable
  {
    var all := logs + [log];
    if i :| base <= i < |logs| && logs[i].indexable {
      assert all[i].indexable;
    }
    if i :| base <= i < |all| && all[i].indexable {
      assert i < |logs| ==> logs[i].indexable;
    }
    assert all[|logs|] == log;
  }

  lemma LogKeepsUpTo(s: Sys, base: nat, cursor: nat, log: Log)
    requires UpTo(s, base, cursor)
    ensures UpTo(WithLog(s, log), base, cursor)
  {
  }

  lemma LogKeepsPage(s: Sys, base: nat, cursor: nat, page: seq<nat>, limit: nat, log: Log, read: bool)
    requires PageOf(s, base, cursor, page, limit, read)
    ensures PageOf(WithLog(s, log), base, cursor, page, limit, read)
  {
    LateAfter(s.logs, base, log);
  }

  lemma CommitOnTrack(limit: nat, base: nat, s: Sys, ph: Phase, log: Log, read: bool)
    requires base <= |s.logs| && OnTrack(limit, base, s, ph, read)
    ensures OnTrack(limit, base, WithLog(s, log), ph, read)
  {
    LateAfter(s.logs, base, log);
    match ph
    case Scanning(cursor) => LogKeepsUpTo(s, base, cursor, log);
    case Loaded(cursor, page) =>
      LogKeepsUpTo(s, base, cursor, log);
      LogKeepsPage(s, base, cursor, page, limit, log, read);
    case Finished =>
    case Failed =>
  }

  /** A page in plain words: indexable logs above the cursor in order, none left out below its end. */
  ghost predicate InOrder(page: seq<nat>, logs: seq<Log>, cursor: nat, limit: nat) {
    && |page| <= limit
    && (forall i, j | 0 <= i < j < |page| :: page[i] < page[j])
    && (forall j | 0 <= j < |page| :: cursor < page[j] <= |logs| && logs[page[j] - 1].indexable)
    && (forall i | cursor <= i < |logs| && logs[i].indexable ::
          i + 1 in page || (|page| == limit && (page != [] ==> page[|page| - 1] <= i)))
  }

  lemma PageIsInOrder(page: seq<nat>, key: nat -> nat, rows: seq<nat>, logs: seq<Log>, cursor: nat, limit: nat)
    requires IsPage(page, key, rows, cursor, limit) && forall x :: key(x) == x
    requires forall x :: x in rows <==> 1 <= x <= |logs| && logs[x - 1].indexable
    ensures InOrder(page, logs, cursor, limit)
  {
    forall j | 0 <= j < |page|
      ensures cursor < page[j] <= |logs| && logs[page[j] - 1].indexable
    {
      assert page[j] in page;
    }
    forall i | cursor <= i < |logs| && logs[i].indexable
      ensures i + 1 in page || (|page| == limit && (page != [] ==> page[|page| - 1] <= i))
    {
      assert i + 1 in rows && key(i + 1) > cursor;
      assert page != [] ==> page[|page| - 1] in page;
    }
  }

  lemma LoadedInOrder(logs: seq<Log>, cursor: nat, limit: nat)
    ensures InOrder(LoadPage(logs, cursor, limit), logs, cursor, limit)
  {
    var key := (x: nat) => x;
    IdsAre(logs, |logs|);
    PageIsPage(key, Ids(logs, |logs|), cursor, limit);
    PageIsInOrder(Page(key, Ids(logs, |logs|), cursor, limit), key, Ids(logs, |logs|), logs, cursor, limit);
  }

  lemma LoadOnTrack(limit: nat, base: nat, s: Sys, cursor: nat, page: seq<nat>)
    requires 0 < limit && UpTo(s, base, cursor) && InOrder(page, s.logs, cursor, limit)
    ensures if page == [] then !HasLate(s.logs, base) && AllIndexed(s) else PageOf(s, base, cursor, page, limit, HasLate(s.logs, base))
  {
    if HasLate(s.logs, base) {
      var i :| base <= i < |s.logs| && s.logs[i].indexable;
      assert i + 1 in page || |page| == limit;
      if i + 1 in page {
        var j :| 0 <= j < |page| && page[j] == i + 1;
        assert page[j] <= page[|page| - 1];
      }
    } else {
      forall j | 0 <= j < |page|
        ensures page[j] <= base
      {
        assert s.logs[page[j] - 1].indexable;
      }
    }
  }

  /** Without a collision there is no late log on the page. */
  lemma OldPage(s: Sys, base: nat, cursor: nat, page: seq<nat>)
    requires UpTo(s, base, cursor) && !Collides(s.fts, page)
    requires forall j | 0 <= j < |page| :: cursor < page[j] <= |s.logs| && s.logs[page[j] - 1].indexable
    ensures forall j | 0 <= j < |page| :: page[j] <= base
  {
    forall j | 0 <= j < |page|
      ensures page[j] <= base
    {
      assert RowId(page[j]) == RowId(page[j] - 1 + 1);
    }
  }

  lemma PageAdded(s: Sys, base: nat, cursor: nat, page: seq<nat>)
    requires UpTo(s, base, cursor) && page != [] && forall i, j | 0 <= i < j < |page| :: page[i] < page[j]
    requires forall j | 0 <= j < |page| :: cursor < page[j] <= base && s.logs[page[j] - 1].indexable
    ensures forall x | x in page :: 1 <= x <= page[|page| - 1] <= base && s.logs[x - 1].indexable && Paged(s, page, RowId(x))
  {
    forall x | x in page
      ensures 1 <= x <= page[|page| - 1] <= base && s.logs[x - 1].indexable
    {
      var j :| 0 <= j < |page| && page[j] == x;
    }
  }

  lemma InsertKeepsUpTo(s: Sys, base: nat, cursor: nat, page: seq<nat>, limit: nat, read: bool)
    requires UpTo(s, base, cursor) && PageOf(s, base, cursor, page, limit, read) && !Collides(s.fts, page)
    ensures UpTo(s.(fts := WithPage(s, page)), base, page[|page| - 1])
  {
    OldPage(s, base, cursor, page);
    PageAdded(s, base, cursor, page);
    var s' := s.(fts := WithPage(s, page));
    forall i | 0 <= i < |s.logs| && s.logs[i].indexable && (i < page[|page| - 1] || base <= i)
      ensures RowId(i + 1) in s'.fts
    {
      assert i + 1 in page ==> Paged(s, page, RowId(i + 1));
    }
  }

  lemma ShortPageIsLast(s: Sys, base: nat, cursor: nat, page: seq<nat>, limit: nat, read: bool)
    requires UpTo(s, base, cursor) && PageOf(s, base, cursor, page, limit, read) && !Collides(s.fts, page) && |page| < limit
    ensures !read && AllIndexed(s.(fts := WithPage(s, page)))
  {
    OldPage(s, base, cursor, page);
    PageAdded(s, base, cursor, page);
    var s' := s.(fts := WithPage(s, page));
    forall i | 0 <= i < |s.logs| && s.logs[i].indexable
      ensures RowId(i + 1) in s'.fts
    {
      assert i + 1 in page ==> Paged(s, page, RowId(i + 1));
    }
  }

  lemma LoadStep(limit: nat, base: nat, s: Sys, cursor: nat, read: bool)
    requires 0 < limit && OnTrack(limit, base, s, Scanning(cursor), read)
    ensures var r := Do(limit, s, Scanning(cursor), Load); OnTrack(limit, base, r.0, r.1, HasLate(s.logs, base))
  {
    LoadedInOrder(s.logs, cursor, limit);
    LoadOnTrack(limit, base, s, cursor, LoadPage(s.logs, cursor, limit));
  }

  lemma InsertStep(limit: nat, base: nat, s: Sys, cursor: nat, page: seq<nat>, read: bool)
    requires OnTrack(limit, base, s, Loaded(cursor, page), read)
    ensures var r := Do(limit, s, Loaded(cursor, page), Insert); OnTrack(limit, base, r.0, r.1, read)
  {
    if Collides(s.fts, page) {
      var j :| 0 <= j < |page| && RowId(page[j]) in s.fts;
      assert cursor < page[j];
    } else if |page| < limit {
      ShortPageIsLast(s, base, cursor, page, limit, read);
    } else {
      InsertKeepsUpTo(s, base, cursor, page, limit, read);
    }
  }

  lemma ActOnTrack(limit: nat, base: nat, s: Sys, ph: Phase, act: Act, read: bool)
    requires 0 < limit && base <= |s.logs| && OnTrack(limit, base, s, ph, read) && CanAct(ph, act)
    ensures var r := Do(limit, s, ph, act); OnTrack(limit, base, r.0, r.1, if act.Load? then HasLate(s.logs, base) else read)
  {
    match act
    case Commit(log) => CommitOnTrack(limit, base, s, ph, log, read);
    case Load => LoadStep(limit, base, s, ph.cursor, read);
    case Insert => InsertStep(limit, base, s, ph.cursor, ph.page, read);
  }

  /** An indexable log is committed, and a page is loaded after it. */
  ghost predicate ReadsLate(acts: seq<Act>) {
    exists k, m :: 0 <= k < m < |acts| && acts[k].Commit? && acts[k].log.indexable && acts[m].Load?
  }

  ghost predicate Loads(acts: seq<Act>) {
    exists m :: 0 <= m < |acts| && acts[m].Load?
  }

  lemma LoadsOrNot(act: Act, acts: seq<Act>)
    ensures Loads([act] + acts) <==> act.Load? || Loads(acts)
  {
    var all := [act] + acts;
    if m :| 0 <= m < |acts| && acts[m].Load? {
      assert all[m + 1].Load?;
    }
    if m :| 0 <= m < |all| && all[m].Load? {
      assert m > 0 ==> acts[m - 1].Load?;
    }
    assert all[0] == act;
  }

  lemma LateOrNot(act: Act, acts: seq<Act>)
    ensures ReadsLate([act] + acts) <==> ReadsLate(acts) || (act.Commit? && act.log.indexable && Loads(acts))
  {
    var all := [act] + acts;
    if act.Commit? && act.log.indexable && Loads(acts) {
      var m :| 0 <= m < |acts| && acts[m].Load?;
      assert all[0].Commit? && all[m + 1].Load?;
    }
    if k, m :| 0 <= k < m < |acts| && acts[k].Commit? && acts[k].log.indexable && acts[m].Load? {
      assert all[k + 1].Commit? && all[k + 1].log.indexable && all[m + 1].Load?;
    }
    if k, m :| 0 <= k < m < |all| && all[k].Commit? && all[k].log.indexable && all[m].Load? {
      assert acts[m - 1].Load?;
      assert k > 0 ==> acts[k - 1].Commit? && acts[k - 1].log.indexable;
    }
  }

  lemma LateNext(limit: nat, base: nat, s: Sys, ph: Phase, act: Act)
    requires base <= |s.logs| && CanAct(ph, act)
    ensures var r := Do(limit, s, ph, act);
            base <= |r.0.logs| && (HasLate(r.0.logs, base) <==> HasLate(s.logs, base) || (act.Commit? && act.log.indexable))
  {
    if act.Commit? {
      LateAfter(s.logs, base, act.log);
    }
  }

  lemma {:induction false} RunOnTrack(limit: nat, base: nat, s: Sys, ph: Phase, acts: seq<Act>, read: bool)
    requires 0 < limit && base <= |s.logs| && OnTrack(limit, base, s, ph, read) && CanRun(limit, s, ph, acts)
    ensures var r := Run(limit, s, ph, acts);
            OnTrack(limit, base, r.0, r.1, ReadsLate(acts) || (if Loads(acts) then HasLate(s.logs, base) else read))
    decreases |acts|
  {
    if acts != [] {
      var act, rest := acts[0], acts[1..];
      var r := Do(limit, s, ph, act);
      assert acts == [act] + rest;
      LoadsOrNot(act, rest);
      LateOrNot(act, rest);
      LateNext(limit, base, s, ph, act);
      ActOnTrack(limit, base, s, ph, act, read);
      RunOnTrack(limit, base, r.0, r.1, rest, if act.Load? then HasLate(s.logs, base) else read);
    }
  }

  /** However batches come in between: once the scan has ended it has failed if and only if an indexable log was
      committed between the wipe and the loading of some page; and if it has not failed every indexable log has its
      one entry. */
  lemma LogRebuildFailsIff(limit: nat, s: Sys, acts: seq<Act>)
    requires 0 < limit && s.fts == map[] && CanRun(limit, s, Scanning(0), acts)
    requires var ph := Run(limit, s, Scanning(0), acts).1; ph.Finished? || ph.Failed?
    ensures var r := Run(limit, s, Scanning(0), acts);
            && (r.1.Failed? <==> ReadsLate(acts))
            && (r.1.Finished? ==> AllIndexed(r.0))
  {
    RunOnTrack(limit, |s.logs|, s, Scanning(0), acts, false);
  }

  /** The logs the run commits, in order. */
  function CommittedLogs(acts: seq<Act>): seq<Log> {
    if acts == [] then [] else (if acts[0].Commit? then [acts[0].log] else []) + CommittedLogs(acts[1..])
  }

  lemma {:induction false} RunCommits(limit: nat, s: Sys, ph: Phase, acts: seq<Act>)
    requires CanRun(limit, s, ph, acts)
    ensures Run(limit, s, ph, acts).0.logs == s.logs + CommittedLogs(acts)
    decreases |acts|
  {
    if acts != [] {
      var r := Do(limit, s, ph, acts[0]);
      RunCommits(limit, r.0, r.1, acts[1..]);
    }
  }

  lemma OneRound(limit: nat, s: Sys, cursor: nat, rest: seq<Act>)
    requires LoadPage(s.logs, cursor, limit) != []
    requires var r := Do(limit, s, Loaded(cursor, LoadPage(s.logs, cursor, limit)), Insert); CanRun(limit, r.0, r.1, rest)
    ensures var r := Do(limit, s, Loaded(cursor, LoadPage(s.logs, cursor, limit)), Insert);
            && CanRun(limit, s, Scanning(cursor), [Load, Insert] + rest)
            && Run(limit, s, Scanning(cursor), [Load, Insert] + rest) == Run(limit, r.0, r.1, rest)
  {
    var acts := [Load, Insert] + rest;
    assert acts[0] == Load && acts[1..][0] == Insert && acts[1..][1..] == rest;
  }

  /** An empty page, a short one and one that collides are the last. */
  lemma LastRound(limit: nat, s: Sys, cursor: nat) returns (acts: seq<Act>)
    requires |LoadPage(s.logs, cursor, limit)| < limit || Collides(s.fts, LoadPage(s.logs, cursor, limit))
    ensures forall act | act in acts :: !act.Commit?
    ensures CanRun(limit, s, Scanning(cursor), acts)
    ensures var ph := Run(limit, s, Scanning(cursor), acts).1; ph.Finished? || ph.Failed?
  {
    if LoadPage(s.logs, cursor, limit) == [] {
      acts := [Load];
      assert acts[1..] == [];
    } else {
      acts := [Load, Insert] + [];
      OneRound(limit, s, cursor, []);
    }
  }

  /** A full page that does not collide moves the cursor. */
  lemma FullPageAdvances(limit: nat, s: Sys, cursor: nat) returns (s': Sys, next: nat)
    requires 0 < limit <= |LoadPage(s.logs, cursor, limit)| && !Collides(s.fts, LoadPage(s.logs, cursor, limit))
    ensures Do(limit, s, Loaded(cursor, LoadPage(s.logs, cursor, limit)), Insert) == (s', Scanning(next))
    ensures cursor < next <= |s.logs| == |s'.logs|
  {
    var page := LoadPage(s.logs, cursor, limit);
    LoadedInOrder(s.logs, cursor, limit);
    s', next := s.(fts := WithPage(s, page)), page[|page| - 1];
  }

  /** Left alone, the scan ends. */
  lemma {:induction false} ScanEnds(limit: nat, s: Sys, cursor: nat) returns (acts: seq<Act>)
    requires 0 < limit && cursor <= |s.logs|
    ensures forall act | act in acts :: !act.Commit?
    ensures CanRun(limit, s, Scanning(cursor), acts)
    ensures var ph := Run(limit, s, Scanning(cursor), acts).1; ph.Finished? || ph.Failed?
    decreases |s.logs| - cursor
  {
    var page := LoadPage(s.logs, cursor, limit);
    if |page| < limit || Collides(s.fts, page) {
      acts := LastRound(limit, s, cursor);
    } else {
      var s', next := FullPageAdvances(limit, s, cursor);
      var rest := ScanEnds(limit, s', next);
      acts := [Load, Insert] + rest;
      OneRound(limit, s, cursor, rest);
    }
  }
}
