/** The coalescer's flush (internal/ingest/coalescer.go): one transaction for a batch of several sources' events,
    grouped by source, through writers whose caches outlive the flush when it fails. */
module Coalescing {
  import opened Options
  import opened BatchCaches
  import EventRows

  datatype SourceId = SourceId(id: string)
  datatype Tagged = Tagged(source: SourceId, ev: Event)

  /** The source's own events, in the order they were accepted. */
  function Of(batch: seq<Tagged>, s: SourceId): seq<Event> {
    if batch == [] then []
    else Of(batch[..|batch| - 1], s) + if batch[|batch| - 1].source == s then [batch[|batch| - 1].ev] else []
  }

  /** In the batch s comes up before t does. */
  ghost predicate SeenBefore(batch: seq<Tagged>, s: SourceId, t: SourceId) {
    exists k :: 0 <= k < |batch| && batch[k].source == s && forall m | 0 <= m <= k :: batch[m].source != t
  }

  lemma SeenLater(batch: seq<Tagged>, te: Tagged, s: SourceId, t: SourceId)
    requires SeenBefore(batch, s, t)
    ensures SeenBefore(batch + [te], s, t)
  {
    var k :| 0 <= k < |batch| && batch[k].source == s && forall m | 0 <= m <= k :: batch[m].source != t;
    assert (batch + [te])[k].source == s;
  }

  lemma {:induction false} OfNothing(batch: seq<Tagged>, s: SourceId)
    ensures Of(batch, s) == [] <==> forall m | 0 <= m < |batch| :: batch[m].source != s
  {
    if batch != [] {
      OfNothing(batch[..|batch| - 1], s);
      assert forall m | 0 <= m < |batch| - 1 :: batch[m] == batch[..|batch| - 1][m];
    }
  }

  lemma NewcomerIsLast(batch: seq<Tagged>, te: Tagged, s: SourceId)
    requires Of(batch, s) != [] && Of(batch, te.source) == []
    ensures SeenBefore(batch + [te], s, te.source)
  {
    OfNothing(batch, s);
    OfNothing(batch, te.source);
    var k :| 0 <= k < |batch| && batch[k].source == s;
    assert SeenBefore(batch, s, te.source);
    SeenLater(batch, te, s, te.source);
  }

  /** The grouping so far. */
  ghost predicate Grouped(batch: seq<Tagged>, order: seq<SourceId>, bySource: map<SourceId, seq<Event>>) {
    && (forall i, j | 0 <= i < j < |order| :: SeenBefore(batch, order[i], order[j]))
    && (forall s :: s in order <==> s in bySource)
    && (forall s | s in bySource :: bySource[s] == Of(batch, s) != [])
    && (forall s | s !in bySource :: Of(batch, s) == [])
  }

  lemma StillInOrder(batch: seq<Tagged>, te: Tagged, order: seq<SourceId>, bySource: map<SourceId, seq<Event>>)
    requires Grouped(batch, order, bySource)
    ensures forall i, j | 0 <= i < j < |order| :: SeenBefore(batch + [te], order[i], order[j])
    ensures te.source !in bySource ==> forall i | 0 <= i < |order| :: SeenBefore(batch + [te], order[i], te.source)
  {
    forall i, j | 0 <= i < j < |order| {
      SeenLater(batch, te, order[i], order[j]);
    }
    if te.source !in bySource {
      forall i | 0 <= i < |order|
        ensures SeenBefore(batch + [te], order[i], te.source)
      {
        assert order[i] in order;
        NewcomerIsLast(batch, te, order[i]);
      }
    }
  }

  function OrderWith(order: seq<SourceId>, bySource: map<SourceId, seq<Event>>, s: SourceId): seq<SourceId> {
    if s in bySource then order else order + [s]
  }

  function EventsWith(bySource: map<SourceId, seq<Event>>, te: Tagged): map<SourceId, seq<Event>> {
    bySource[te.source := (if te.source in bySource then bySource[te.source] else []) + [te.ev]]
  }

  lemma GroupedNext(batch: seq<Tagged>, te: Tagged, order: seq<SourceId>, bySource: map<SourceId, seq<Event>>)
    requires Grouped(batch, order, bySource)
    ensures Grouped(batch + [te], OrderWith(order, bySource, te.source), EventsWith(bySource, te))
  {
    StillInOrder(batch, te, order, bySource);
    forall s
      ensures Of(batch + [te], s) == if s in EventsWith(bySource, te) then EventsWith(bySource, te)[s] else []
    {
      OfNext(batch, te, s);
    }
  }

  lemma OfNext(batch: seq<Tagged>, te: Tagged, s: SourceId)
    ensures Of(batch + [te], s) == Of(batch, s) + if te.source == s then [te.ev] else []
  {
    assert (batch + [te])[..|batch|] == batch;
  }

  /** Sources in first-seen order, each with its events. */
  method GroupBySource(batch: seq<Tagged>) returns (order: seq<SourceId>, bySource: map<SourceId, seq<Event>>)
    ensures Grouped(batch, order, bySource)
  {
    order, bySource := [], map[];
    var i := 0;
    while i < |batch|
      invariant i <= |batch| && Grouped(batch[..i], order, bySource)
    {
      var te := batch[i];
      assert batch[..i + 1] == batch[..i] + [te];
      GroupedNext(batch[..i], te, order, bySource);
      if te.source !in bySource {
        order := order + [te.source];
        bySource := bySource[te.source := [te.ev]];
      } else {
        bySource := bySource[te.source := bySource[te.source] + [te.ev]];
      }
      i := i + 1;
    }
    assert batch[..i] == batch;
  }

  lemma OrderIsDistinct(batch: seq<Tagged>, order: seq<SourceId>, bySource: map<SourceId, seq<Event>>)
    requires Grouped(batch, order, bySource)
    ensures forall i, j | 0 <= i < j < |order| :: order[i] != order[j]
  {
  }

  type Store = map<SourceId, Tables>
  type Writers = map<SourceId, Caches>

  function TablesOf(store: Store, s: SourceId): Tables {
    if s in store then store[s] else EMPTY
  }

  function CachesOf(writers: Writers, s: SourceId): Caches {
    if s in writers then writers[s] else NO_CACHES
  }

  /** The source's events of the batch, through its writer's caches. */
  function Attempt(store: Store, writers: Writers, batch: seq<Tagged>, s: SourceId): Applied {
    CachedAll(TablesOf(store, s), CachesOf(writers, s), Of(batch, s))
  }

  /** What a committed flush leaves: every registered source's events applied, and its writer's caches empty. */
  ghost predicate Committed(was: Store, writers: Writers, batch: seq<Tagged>, registered: set<SourceId>, now: Store, after: Writers) {
    && (forall s :: if s in registered then Attempt(was, writers, batch, s) == Ok(TablesOf(now, s)) else TablesOf(now, s) == TablesOf(was, s))
    && (forall s :: CachesOf(after, s) == if s in registered && Of(batch, s) != [] then NO_CACHES else CachesOf(writers, s))
  }

  predicate Within(c: Caches, d: Caches) { c.sessions <= d.sessions && c.turns <= d.turns }

  /** The caches as an attempt leaves them that stopped in event k: what the events before it put there, and at
      most what it puts there itself. */
  predicate StoppedAt(c: Caches, evs: seq<Event>, k: nat, left: Caches)
    requires k < |evs|
  {
    Within(CachedAfter(c, evs[..k]), left) && Within(left, CachedAfter(c, evs[..k + 1]))
  }

  /** What a failed attempt leaves of a writer's caches: untouched, or as its events filled them. */
  ghost predicate LeftOver(c: Caches, evs: seq<Event>, left: Caches) {
    left == c || left == CachedAfter(c, evs) || exists k :: 0 <= k < |evs| && StoppedAt(c, evs, k, left)
  }

  /** A flush that failed: no table changed, but the writers it got to keep what they cached. */
  ghost predicate Failed(was: Store, writers: Writers, batch: seq<Tagged>, now: Store, after: Writers) {
    now == was && forall s :: LeftOver(CachesOf(writers, s), Of(batch, s), CachesOf(after, s))
  }

  lemma CachedStep(t: Tables, c: Caches, evs: seq<Event>, i: nat)
    requires i < |evs|
    ensures CachedAfter(c, evs[..i + 1]) == Cached(CachedAfter(c, evs[..i]), evs[i])
    ensures CachedAll(t, c, evs[..i]).Ok? ==>
              CachedAll(t, c, evs[..i + 1]) == Apply(CachedAll(t, c, evs[..i]).value, CachedAfter(c, evs[..i]), evs[i])
    decreases i
  {
    if i > 0 {
      assert evs[..i][1..] == evs[1..][..i - 1] && evs[..i + 1][1..] == evs[1..][..i];
      var first := Apply(t, c, evs[0]);
      CachedStep(if first.Ok? then first.value else t, Cached(c, evs[0]), evs[1..], i - 1);
    } else {
      assert evs[..1][1..] == [] && evs[..0] == [];
    }
  }

  lemma CachedFails(t: Tables, c: Caches, evs: seq<Event>, i: nat)
    requires i <= |evs| && CachedAll(t, c, evs[..i]).Err?
    ensures CachedAll(t, c, evs).Err?
    decreases i
  {
    if i > 0 && Apply(t, c, evs[0]).Ok? {
      assert evs[..i][1..] == evs[1..][..i - 1];
      CachedFails(Apply(t, c, evs[0]).value, Cached(c, evs[0]), evs[1..], i - 1);
    }
  }

  /** One source's events inside the transaction; the database may fail before any of them. Whatever stops it,
      an event may already have cached its session and turn. */
  method ApplySource(t: Tables, c: Caches, evs: seq<Event>, fault: Option<nat>) returns (ok: bool, t': Tables, c': Caches)
    ensures ok ==> CachedAll(t, c, evs) == Ok(t') && c' == CachedAfter(c, evs)
    ensures !ok ==> LeftOver(c, evs, c')
    ensures fault.None? ==> (ok <==> CachedAll(t, c, evs).Ok?)
  {
    t', c' := t, c;
    var i := 0;
    while i < |evs|
      invariant i <= |evs| && CachedAll(t, c, evs[..i]) == Ok(t') && c' == CachedAfter(c, evs[..i])
    {
      CachedStep(t, c, evs, i);
      var r := Apply(t', c', evs[i]);
      if fault == Some(i) || r.Err? {
        var halfway: bool := *;
        c' := if halfway then Cached(c', evs[i]) else c';
        assert StoppedAt(c, evs, i, c');
        if r.Err? {
          CachedFails(t, c, evs, i + 1);
        }
        return false, t', c';
      }
      t', c' := r.value, Cached(c', evs[i]);
      i := i + 1;
    }
    assert evs[..i] == evs;
    ok := true;
  }

  /** The source's rows after the commit: each event did its part, and the last finalize of a stored op stands. */
  ghost predicate SettledRows(was: Tables, evs: seq<Event>, now: Tables) {
    EventRows.RowByRow(was, evs, now) && EventRows.FinalizesSettled(was, evs, now)
  }

  lemma CommittedRows(was: Store, writers: Writers, batch: seq<Tagged>, registered: set<SourceId>, now: Store, after: Writers)
    requires Committed(was, writers, batch, registered, now, after)
    ensures forall s | s in registered && Backed(CachesOf(writers, s), TablesOf(was, s)) ::
              SettledRows(TablesOf(was, s), Of(batch, s), TablesOf(now, s))
  {
    forall s | s in registered && Backed(CachesOf(writers, s), TablesOf(was, s))
      ensures SettledRows(TablesOf(was, s), Of(batch, s), TablesOf(now, s))
    {
      CachedBatchIsPlain(TablesOf(was, s), CachesOf(writers, s), Of(batch, s));
      EventRows.BatchSettles(TablesOf(was, s), Of(batch, s));
    }
  }

  /** One transaction. `fault` says before which event of which source the database fails, or, with no event of
      any source, that the commit does; a source that was unregistered meanwhile is skipped, without a report. On an
      error the function returns at once: the tables roll back, and no writer is reset. */
  method FlushBatch(store: Store, writers: Writers, batch: seq<Tagged>, registered: set<SourceId>, fault: Option<(SourceId, nat)>)
    returns (ok: bool, after: Store, writers': Writers)
    ensures if ok then Committed(store, writers, batch, registered, after, writers') else Failed(store, writers, batch, after, writers')
    ensures fault.None? ==> (ok <==> forall s | s in registered :: Attempt(store, writers, batch, s).Ok?)
    ensures ok ==> forall s | s in registered && Backed(CachesOf(writers, s), TablesOf(store, s)) ::
              SettledRows(TablesOf(store, s), Of(batch, s), TablesOf(after, s))
  {
    var order, bySource := GroupBySource(batch);
    OrderIsDistinct(batch, order, bySource);
    ok, after, writers' := FlushSources(store, writers, batch, registered, order, bySource, fault);
    if !ok {
      return false, store, writers';
    }
    if fault.Some? {
      StopsAtEnd(store, writers, batch, registered, order, after, writers');
      return false, store, writers';
    }
    var reset := ResetApplied(writers', order, registered);
    CommitsAll(store, writers, batch, registered, order, bySource, after, writers', reset);
    CommittedRows(store, writers, batch, registered, after, reset);
    return true, after, reset;
  }

  /** The loop over the sources, up to the first error. */
  method FlushSources(store: Store, writers: Writers, ghost batch: seq<Tagged>, registered: set<SourceId>, order: seq<SourceId>,
                      bySource: map<SourceId, seq<Event>>, fault: Option<(SourceId, nat)>)
    returns (ok: bool, after: Store, writers': Writers)
    requires Grouped(batch, order, bySource) && forall i, j | 0 <= i < j < |order| :: order[i] != order[j]
    ensures if ok then InProgress(store, writers, batch, registered, order, after, writers')
            else Failed(store, writers, batch, store, writers')
    ensures fault.None? && !ok ==> exists s :: s in registered && Attempt(store, writers, batch, s).Err?
  {
    after, writers' := store, writers;
    var k := 0;
    while k < |order|
      invariant k <= |order| && InProgress(store, writers, batch, registered, order[..k], after, writers')
    {
      var s := order[k];
      assert s in order && s !in order[..k] && order[..k + 1] == order[..k] + [s];
      if s in registered {
        var at := if fault.Some? && fault.value.0 == s then Some(fault.value.1) else None;
        ok, after, writers' := FlushSource(store, writers, batch, registered, order[..k], after, writers', s, bySource[s], at);
        if !ok {
          return;
        }
      } else {
        Skipped(store, writers, batch, registered, order[..k], after, writers', s);
      }
      k := k + 1;
    }
    assert order[..k] == order;
    ok := true;
  }

  lemma Skipped(was: Store, writers: Writers, batch: seq<Tagged>, registered: set<SourceId>, done: seq<SourceId>,
                now: Store, after: Writers, s: SourceId)
    requires InProgress(was, writers, batch, registered, done, now, after) && s !in registered
    ensures InProgress(was, writers, batch, registered, done + [s], now, after)
  {
  }

  /** One more source of the flush. */
  method FlushSource(ghost was: Store, ghost writers: Writers, ghost batch: seq<Tagged>, ghost registered: set<SourceId>,
                     ghost done: seq<SourceId>, now: Store, after: Writers, s: SourceId, evs: seq<Event>, fault: Option<nat>)
    returns (ok: bool, now': Store, after': Writers)
    requires InProgress(was, writers, batch, registered, done, now, after) && s !in done && s in registered && evs == Of(batch, s)
    ensures if ok then InProgress(was, writers, batch, registered, done + [s], now', after') else Failed(was, writers, batch, was, after')
    ensures fault.None? && !ok ==> Attempt(was, writers, batch, s).Err?
  {
    var t, c;
    ok, t, c := ApplySource(TablesOf(now, s), CachesOf(after, s), evs, fault);
    if ok {
      OneMore(was, writers, batch, registered, done, now, after, s, t);
    } else {
      StopsHere(was, writers, batch, registered, done, now, after, s, c);
    }
    now', after' := now[s := t], after[s := c];
  }

  /** Mid-flush: the sources done so far have their events applied and cached. */
  ghost predicate InProgress(was: Store, writers: Writers, batch: seq<Tagged>, registered: set<SourceId>, done: seq<SourceId>,
                             now: Store, after: Writers)
  {
    forall s ::
      if s in registered && s in done
      then Attempt(was, writers, batch, s) == Ok(TablesOf(now, s)) && CachesOf(after, s) == CachedAfter(CachesOf(writers, s), Of(batch, s))
      else TablesOf(now, s) == TablesOf(was, s) && CachesOf(after, s) == CachesOf(writers, s)
  }

  lemma OneMore(was: Store, writers: Writers, batch: seq<Tagged>, registered: set<SourceId>, done: seq<SourceId>,
                now: Store, after: Writers, s: SourceId, t: Tables)
    requires InProgress(was, writers, batch, registered, done, now, after) && s !in done && s in registered
    requires Attempt(was, writers, batch, s) == Ok(t)
    ensures InProgress(was, writers, batch, registered, done + [s], now[s := t],
                       after[s := CachedAfter(CachesOf(writers, s), Of(batch, s))])
  {
  }

  lemma StopsHere(was: Store, writers: Writers, batch: seq<Tagged>, registered: set<SourceId>, done: seq<SourceId>,
                  now: Store, after: Writers, s: SourceId, c: Caches)
    requires InProgress(was, writers, batch, registered, done, now, after)
    requires LeftOver(CachesOf(writers, s), Of(batch, s), c)
    ensures Failed(was, writers, batch, was, after[s := c])
  {
  }

  lemma StopsAtEnd(was: Store, writers: Writers, batch: seq<Tagged>, registered: set<SourceId>, done: seq<SourceId>,
                   now: Store, after: Writers)
    requires InProgress(was, writers, batch, registered, done, now, after)
    ensures Failed(was, writers, batch, was, after)
  {
  }

  lemma CommitsAll(was: Store, writers: Writers, batch: seq<Tagged>, registered: set<SourceId>, order: seq<SourceId>,
                   bySource: map<SourceId, seq<Event>>, now: Store, after: Writers, reset: Writers)
    requires Grouped(batch, order, bySource) && InProgress(was, writers, batch, registered, order, now, after)
    requires forall s :: CachesOf(reset, s) == if s in order && s in registered then NO_CACHES else CachesOf(after, s)
    ensures Committed(was, writers, batch, registered, now, reset)
    ensures forall s | s in registered :: Attempt(was, writers, batch, s).Ok?
  {
  }

  /** After the commit: every applied source's writer is reset. */
  method ResetApplied(writers: Writers, order: seq<SourceId>, registered: set<SourceId>) returns (after: Writers)
    ensures forall s :: CachesOf(after, s) == if s in order && s in registered then NO_CACHES else CachesOf(writers, s)
  {
    after := writers;
    for k := 0 to |order|
      invariant forall s :: CachesOf(after, s) == if s in order[..k] && s in registered then NO_CACHES else CachesOf(writers, s)
    {
      assert order[..k + 1] == order[..k] + [order[k]];
      if order[k] in registered {
        after := after[order[k] := NO_CACHES];
      }
    }
    assert order[..|order|] == order;
  }

  // ----- every run -----

  datatype State = State(store: Store, writers: Writers)
  datatype Flush = Flush(batch: seq<Tagged>, registered: set<SourceId>, commits: bool)

  /** Flush after flush; between two of them somebody may reset writers. */
  ghost predicate IsRun(flushes: seq<Flush>, before: seq<State>, after: seq<State>) {
    && |before| == |after| == |flushes| && (|before| > 0 ==> before[0].store == map[] && before[0].writers == map[])
    && (forall i | 0 <= i < |flushes| ::
          if flushes[i].commits
          then Committed(before[i].store, before[i].writers, flushes[i].batch, flushes[i].registered, after[i].store, after[i].writers)
          else Failed(before[i].store, before[i].writers, flushes[i].batch, after[i].store, after[i].writers))
    && (forall i | 0 < i < |flushes| ::
          && before[i].store == after[i - 1].store
          && forall s :: CachesOf(before[i].writers, s) == CachesOf(after[i - 1].writers, s) || CachesOf(before[i].writers, s) == NO_CACHES)
  }

  /** Every writer is reset after a failed flush, as the worker runtime does and the coalescer does not. */
  ghost predicate ResetsOnFailure(flushes: seq<Flush>, before: seq<State>)
    requires |before| == |flushes|
  {
    forall i, s | 0 < i < |flushes| && !flushes[i - 1].commits :: CachesOf(before[i].writers, s) == NO_CACHES
  }

  lemma CommitLeavesNone(a: State, f: Flush, b: State, s: SourceId)
    requires Committed(a.store, a.writers, f.batch, f.registered, b.store, b.writers) && CachesOf(a.writers, s) == NO_CACHES
    ensures CachesOf(b.writers, s) == NO_CACHES
  {
  }

  lemma {:induction false} NoCachesBefore(flushes: seq<Flush>, before: seq<State>, after: seq<State>, i: nat)
    requires IsRun(flushes, before, after) && ResetsOnFailure(flushes, before) && i < |flushes|
    ensures forall s :: CachesOf(before[i].writers, s) == NO_CACHES
  {
    if i > 0 {
      NoCachesBefore(flushes, before, after, i - 1);
      forall s
        ensures CachesOf(before[i].writers, s) == NO_CACHES
      {
        if flushes[i - 1].commits {
          CommitLeavesNone(before[i - 1], flushes[i - 1], after[i - 1], s);
        }
      }
    }
  }

  /** The source's events in those of the first n flushes that committed and found it registered. */
  function History(flushes: seq<Flush>, n: nat, s: SourceId): seq<Event>
    requires n <= |flushes|
  {
    if n == 0 then []
    else
      var f := flushes[n - 1];
      History(flushes, n - 1, s) + if f.commits && s in f.registered then Of(f.batch, s) else []
  }

  lemma FlushKeepsApart(a: State, f: Flush, b: State, s: SourceId, past: seq<Event>)
    requires if f.commits then Committed(a.store, a.writers, f.batch, f.registered, b.store, b.writers)
             else Failed(a.store, a.writers, f.batch, b.store, b.writers)
    requires Backed(CachesOf(a.writers, s), TablesOf(a.store, s)) && PlainAll(EMPTY, past) == Ok(TablesOf(a.store, s))
    ensures PlainAll(EMPTY, past + if f.commits && s in f.registered then Of(f.batch, s) else []) == Ok(TablesOf(b.store, s))
  {
    if f.commits && s in f.registered {
      CachedBatchIsPlain(TablesOf(a.store, s), CachesOf(a.writers, s), Of(f.batch, s));
      PlainSplit(EMPTY, past, Of(f.batch, s));
    } else {
      assert past + [] == past;
    }
  }

  /** Sharing transactions changes nothing as long as every writer's caches are backed when a flush begins, resets or
      not: each source's tables are those of its own committed events, in order, as a worker of its own would have
      left them. */
  lemma {:induction false} SourcesStayApart(flushes: seq<Flush>, before: seq<State>, after: seq<State>, n: nat, s: SourceId)
    requires IsRun(flushes, before, after) && 0 < n <= |flushes|
    requires forall i | 0 <= i < n :: Backed(CachesOf(before[i].writers, s), TablesOf(before[i].store, s))
    ensures PlainAll(EMPTY, History(flushes, n, s)) == Ok(TablesOf(after[n - 1].store, s))
  {
    if n > 1 {
      SourcesStayApart(flushes, before, after, n - 1, s);
    }
    FlushKeepsApart(before[n - 1], flushes[n - 1], after[n - 1], s, History(flushes, n - 1, s));
  }

  /** With the reset the worker runtime performs, that is every run. */
  lemma ResetKeepsSourcesApart(flushes: seq<Flush>, before: seq<State>, after: seq<State>, n: nat, s: SourceId)
    requires IsRun(flushes, before, after) && ResetsOnFailure(flushes, before) && 0 < n <= |flushes|
    ensures PlainAll(EMPTY, History(flushes, n, s)) == Ok(TablesOf(after[n - 1].store, s))
  {
    forall i | 0 <= i < n
      ensures CachesOf(before[i].writers, s) == NO_CACHES
    {
      NoCachesBefore(flushes, before, after, i);
    }
    SourcesStayApart(flushes, before, after, n, s);
  }

  /** Without it: a flush that no fault of the database stops commits if and only if every registered source's events
      apply without caches and none of them inserts under a session or turn that a failed attempt cached, and that is
      not stored, before an event that stores it. One source for which that fails holds up all the others. */
  lemma RetryCommitsIff(store: Store, writers: Writers, batch: seq<Tagged>, registered: set<SourceId>)
    ensures (forall s | s in registered :: Attempt(store, writers, batch, s).Ok?) <==>
            forall s | s in registered ::
              && PlainAll(TablesOf(store, s), Of(batch, s)).Ok?
              && HealedFirst(Of(batch, s), StaleSessions(TablesOf(store, s), CachesOf(writers, s)),
                             StaleTurns(TablesOf(store, s), CachesOf(writers, s)))
  {
    forall s | s in registered
      ensures Attempt(store, writers, batch, s).Ok? <==>
              && PlainAll(TablesOf(store, s), Of(batch, s)).Ok?
              && HealedFirst(Of(batch, s), StaleSessions(TablesOf(store, s), CachesOf(writers, s)),
                             StaleTurns(TablesOf(store, s), CachesOf(writers, s)))
    {
      RetrySucceedsIff(TablesOf(store, s), CachesOf(writers, s), Of(batch, s));
    }
  }

  /** So no flush commits while a session that a failed attempt cached is not stored and first comes up in an inserting
      event. */
  lemma RetryNeverCommits(store: Store, writers: Writers, batch: seq<Tagged>, registered: set<SourceId>, s: SourceId, i: nat)
    requires s in registered && i < |Of(batch, s)|
    requires var ev := Of(batch, s)[i];
             Inserts(ev) && ev.native in CachesOf(writers, s).sessions && ev.native !in TablesOf(store, s).sessions
    requires forall j | 0 <= j < i :: !Of(batch, s)[j].Progress? ==> Of(batch, s)[j].native != Of(batch, s)[i].native
    ensures forall now, after :: !Committed(store, writers, batch, registered, now, after)
  {
    var evs := Of(batch, s);
    RetrySucceedsIff(TablesOf(store, s), CachesOf(writers, s), evs);
    assert forall j | 0 <= j < i :: !HealsSession(evs[j], evs[i].native);
  }
}
