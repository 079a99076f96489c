/** Tail heartbeats and the staleness watchdog (internal/ingest/tail_liveness.go). Each method is one step that
    happens at once: a section under the lock, one move of a request between goroutines and the queue, or one
    transaction. They may interleave in any order. */
module TailLiveness {
  import opened Options

  datatype SourceId = SourceId(id: string)

  datatype Heartbeat = Heartbeat(lastUs: int, queuedUs: int, persistedUs: int)

  const NO_HEARTBEAT := Heartbeat(0, 0, 0)

  /** Where a persist request is: decided but not yet offered to the queue, refused by a full queue and about to
      be cleared, in the queue, being written, or written (or not) and about to be finished. */
  datatype Stage = Decided | Refused | Queued | Writing | Written(committed: bool)

  datatype Request = Request(source: SourceId, atUs: int, stage: Stage)

  datatype Lifecycle = Tailing | TailStale | Other(name: string)

  datatype Row = Row(state: Lifecycle, stateAt: int, heartbeatAt: Option<int>, startedAt: Option<int>)

  datatype Notify = Notify(source: SourceId, ts: int)

  function QueuedCount(requests: seq<Request>): nat {
    if requests == [] then 0 else QueuedCount(requests[1..]) + if requests[0].stage.Queued? then 1 else 0
  }

  function Heart(hearts: map<SourceId, Heartbeat>, source: SourceId): Heartbeat {
    if source in hearts then hearts[source] else NO_HEARTBEAT
  }

  ghost predicate NeverNegative(hearts: map<SourceId, Heartbeat>) {
    forall s :: Heart(hearts, s).persistedUs >= 0
  }

  lemma SetHeart(hearts: map<SourceId, Heartbeat>, source: SourceId, h: Heartbeat)
    requires NeverNegative(hearts) && h.persistedUs >= Heart(hearts, source).persistedUs
    ensures NeverNegative(hearts[source := h])
    ensures forall s :: Heart(hearts[source := h], s).persistedUs >= Heart(hearts, s).persistedUs
  {
    var after := hearts[source := h];
    forall s
      ensures Heart(after, s).persistedUs >= 0
    {
      assert Heart(hearts, s).persistedUs >= 0;
    }
  }

  /** The throttle: nothing outstanding, and nothing persisted yet or not for a while. */
  predicate Due(h: Heartbeat, at: int, everyUs: int) {
    h.queuedUs == 0 && (h.persistedUs == 0 || at - h.persistedUs >= everyUs)
  }

  /** The source has a request somewhere. */
  predicate Outstanding(requests: seq<Request>, source: SourceId) {
    exists i :: 0 <= i < |requests| && requests[i].source == source
  }

  /** At most one request per source, and one exactly when queuedUS is set, and then for that time. */
  ghost predicate Matched(hearts: map<SourceId, Heartbeat>, requests: seq<Request>) {
    && (forall i | 0 <= i < |requests| :: requests[i].atUs > 0 && Heart(hearts, requests[i].source).queuedUs == requests[i].atUs)
    && (forall i, j | 0 <= i < j < |requests| :: requests[i].source != requests[j].source)
    && (forall s :: Heart(hearts, s).queuedUs != 0 ==> Outstanding(requests, s))
  }

  lemma OneOutstanding(hearts: map<SourceId, Heartbeat>, requests: seq<Request>, s: SourceId)
    requires Matched(hearts, requests)
    ensures Outstanding(requests, s) <==> Heart(hearts, s).queuedUs != 0
    ensures forall i, j | 0 <= i < |requests| && 0 <= j < |requests| && requests[i].source == requests[j].source == s :: i == j
  {
  }

  function Without(requests: seq<Request>, i: nat): seq<Request>
    requires i < |requests|
  {
    requests[..i] + requests[i + 1..]
  }

  lemma StageMatched(hearts: map<SourceId, Heartbeat>, requests: seq<Request>, i: nat, stage: Stage)
    requires Matched(hearts, requests) && i < |requests|
    ensures Matched(hearts, requests[i := requests[i].(stage := stage)])
  {
    var after := requests[i := requests[i].(stage := stage)];
    forall s | Heart(hearts, s).queuedUs != 0
      ensures Outstanding(after, s)
    {
      assert Outstanding(requests, s);
      var k :| 0 <= k < |requests| && requests[k].source == s;
      assert after[k].source == s;
    }
  }

  lemma RemoveMatched(hearts: map<SourceId, Heartbeat>, requests: seq<Request>, i: nat, h: Heartbeat)
    requires Matched(hearts, requests) && i < |requests| && h.queuedUs == 0
    ensures Matched(hearts[requests[i].source := h], Without(requests, i))
    ensures !Outstanding(Without(requests, i), requests[i].source)
  {
    var after, source := Without(requests, i), requests[i].source;
    forall k | 0 <= k < |after|
      ensures after[k] == requests[if k < i then k else k + 1] && after[k].source != source
    {
    }
    forall s | Heart(hearts[source := h], s).queuedUs != 0
      ensures Outstanding(after, s)
    {
      assert Outstanding(requests, s);
      var k :| 0 <= k < |requests| && requests[k].source == s;
      assert after[if k < i then k else k - 1].source == s;
    }
  }

  lemma AddMatched(hearts: map<SourceId, Heartbeat>, requests: seq<Request>, r: Request, h: Heartbeat)
    requires Matched(hearts, requests) && Heart(hearts, r.source).queuedUs == 0 && h.queuedUs == r.atUs > 0
    ensures Matched(hearts[r.source := h], requests + [r])
  {
    var after := requests + [r];
    assert !Outstanding(requests, r.source) by { OneOutstanding(hearts, requests, r.source); }
    forall k | 0 <= k < |requests|
      ensures after[k] == requests[k] && after[k].source != r.source
    {
    }
    forall s | Heart(hearts[r.source := h], s).queuedUs != 0
      ensures Outstanding(after, s)
    {
      if s == r.source {
        assert after[|requests|].source == s;
      } else {
        assert Outstanding(requests, s);
        var k :| 0 <= k < |requests| && requests[k].source == s;
        assert after[k].source == s;
      }
    }
  }

  lemma SameMatched(hearts: map<SourceId, Heartbeat>, requests: seq<Request>, source: SourceId, h: Heartbeat)
    requires Matched(hearts, requests) && h.queuedUs == Heart(hearts, source).queuedUs
    ensures Matched(hearts[source := h], requests)
  {
    forall s
      ensures Heart(hearts[source := h], s).queuedUs == Heart(hearts, s).queuedUs
    {
    }
  }

  lemma {:induction false} AppendCount(requests: seq<Request>, r: Request)
    ensures QueuedCount(requests + [r]) == QueuedCount(requests) + if r.stage.Queued? then 1 else 0
  {
    if requests == [] {
      assert requests + [r] == [r];
    } else {
      assert (requests + [r])[1..] == requests[1..] + [r];
      AppendCount(requests[1..], r);
    }
  }

  lemma {:induction false} UpdateCount(requests: seq<Request>, i: nat, r: Request)
    requires i < |requests|
    ensures QueuedCount(requests[i := r]) ==
            QueuedCount(requests) - (if requests[i].stage.Queued? then 1 else 0) + (if r.stage.Queued? then 1 else 0)
  {
    if i == 0 {
      assert requests[i := r][1..] == requests[1..];
    } else {
      assert requests[i := r][1..] == requests[1..][i - 1 := r];
      UpdateCount(requests[1..], i - 1, r);
    }
  }

  lemma {:induction false} RemoveCount(requests: seq<Request>, i: nat)
    requires i < |requests|
    ensures QueuedCount(requests[..i] + requests[i + 1..]) == QueuedCount(requests) - if requests[i].stage.Queued? then 1 else 0
  {
    if i == 0 {
      assert requests[..0] + requests[1..] == requests[1..];
    } else {
      assert (requests[..i] + requests[i + 1..])[1..] == requests[1..][..i - 1] + requests[1..][i..];
      RemoveCount(requests[1..], i - 1);
    }
  }

  // ----- the durable rows -----

  /** The compare-and-set of a heartbeat: a stale source is tailing again, a tailing one is refreshed. */
  function Refreshed(row: Row, atUs: int): Row {
    match row.state
    case TailStale => row.(state := Tailing, stateAt := atUs, heartbeatAt := Some(atUs))
    case Tailing => row.(heartbeatAt := Some(atUs))
    case Other(_) => row
  }

  /** The compare-and-set of the watchdog. */
  function Staled(row: Row, atUs: int): Row {
    if row.state.Tailing? then row.(state := TailStale, stateAt := atUs) else row
  }

  /** COALESCE(tail_heartbeat_at, tail_started_at, lifecycle_state_at, 0) */
  function PersistedLast(row: Row): int {
    if row.heartbeatAt.Some? then row.heartbeatAt.value
    else if row.startedAt.Some? then row.startedAt.value
    else row.stateAt
  }

  predicate IsStale(row: Row, h: Heartbeat, now: int, staleAfterUs: int) {
    var last := if h.lastUs > PersistedLast(row) then h.lastUs else PersistedLast(row);
    row.state.Tailing? && !(last > 0 && now - last <= staleAfterUs)
  }

  /** A tailing source heard from in time is never called stale, whether the heartbeat is persisted or not. */
  lemma HeardIsNotStale(row: Row, h: Heartbeat, now: int, staleAfterUs: int)
    requires row.state.Tailing?
    requires (h.lastUs > 0 && now - h.lastUs <= staleAfterUs) || (PersistedLast(row) > 0 && now - PersistedLast(row) <= staleAfterUs)
    ensures !IsStale(row, h, now, staleAfterUs)
  {
  }

  /** The source was heard from at t: live, or by the row's heartbeat, else its start, else its last change of state. */
  predicate HeardAt(row: Row, h: Heartbeat, t: int) {
    || t == h.lastUs
    || row.heartbeatAt == Some(t)
    || (row.heartbeatAt == None && row.startedAt == Some(t))
    || (row.heartbeatAt == row.startedAt == None && t == row.stateAt)
  }

  /** A source is stale exactly when it is tailing and every time it was heard from is too long ago; times that are
      not positive do not count. */
  lemma StaleIff(row: Row, h: Heartbeat, now: int, staleAfterUs: int)
    ensures IsStale(row, h, now, staleAfterUs) <==>
            row.state == Tailing && forall t | HeardAt(row, h, t) && t > 0 :: now > t + staleAfterUs
  {
    assert HeardAt(row, h, h.lastUs) && HeardAt(row, h, PersistedLast(row));
  }

  /** A heartbeat makes a stale source tail again from its time on, is noted on one that tails, and is nothing to any
      other; the watchdog makes only a tailing source stale, and leaves its heartbeat alone. */
  lemma RowMoves(row: Row, at: int)
    ensures var beat, stale := Refreshed(row, at), Staled(row, at);
            && (beat.state == if row.state == TailStale then Tailing else row.state)
            && (beat.stateAt == if row.state == TailStale then at else row.stateAt)
            && (beat.heartbeatAt == if row.state.Other? then row.heartbeatAt else Some(at))
            && (stale.state == if row.state == Tailing then TailStale else row.state)
            && (stale.stateAt == if row.state == Tailing then at else row.stateAt)
            && stale.heartbeatAt == row.heartbeatAt && beat.startedAt == stale.startedAt == row.startedAt
  {
  }

  /** A heartbeat undoes what the watchdog did, up to the times. */
  lemma HeartbeatUndoesStale(row: Row, at: int, later: int)
    requires row.state.Tailing?
    ensures Refreshed(Staled(row, at), later) == Refreshed(row, later).(stateAt := later)
  {
  }

  class Liveness {
    const persistEveryUs: int
    const staleAfterUs: int
    const queueCap: nat
    var hearts: map<SourceId, Heartbeat>
    var requests: seq<Request>
    var rows: map<SourceId, Row>
    var notifies: seq<Notify>

    ghost predicate Valid()
      reads this
    {
      && Matched(hearts, requests) && QueuedCount(requests) <= queueCap
      && 0 < persistEveryUs && NeverNegative(hearts)
    }

    /** What no step undoes: persisted times only grow. */
    twostate predicate PersistedGrows()
      reads this
    {
      forall s :: Heart(hearts, s).persistedUs >= Heart(old(hearts), s).persistedUs
    }

    /** The rows are created, and otherwise moved, by the supervisors. */
    constructor (persistEveryUs: int, staleAfterUs: int, queueCap: nat, rows: map<SourceId, Row>)
      requires 0 < persistEveryUs
      ensures Valid() && hearts == map[] && requests == [] && this.rows == rows && notifies == []
    {
      this.persistEveryUs, this.staleAfterUs, this.queueCap := persistEveryUs, staleAfterUs, queueCap;
      hearts, requests, this.rows, notifies := map[], [], rows, [];
    }

    /** RecordTailHeartbeat, under the lock. */
    method Record(source: SourceId, at: int)
      requires Valid() && source.id != "" && at > 0
      modifies this`hearts, this`requests
      ensures Valid() && PersistedGrows()
      ensures var h := Heart(old(hearts), source);
              var due := h.queuedUs == 0 && (h.persistedUs == 0 || at - h.persistedUs >= persistEveryUs);
              && hearts == old(hearts)[source := h.(lastUs := at, queuedUs := if due then at else h.queuedUs)]
              && requests == old(requests) + if due then [Request(source, at, Decided)] else []
    {
      var state := Heart(hearts, source).(lastUs := at);
      SetHeart(hearts, source, state);
      SameMatched(hearts, requests, source, state);
      hearts := hearts[source := state];
      if Due(state, at, persistEveryUs) {
        AskAgain(source, state);
      }
    }

    /** The non-blocking send: into the queue, or refused when the queue is full. */
    method Offer(i: nat)
      requires Valid() && i < |requests| && requests[i].stage == Decided
      modifies this`requests
      ensures Valid()
      ensures requests == old(requests)[i := old(requests)[i].(stage := if QueuedCount(old(requests)) < queueCap then Queued else Refused)]
    {
      var stage := if QueuedCount(requests) < queueCap then Queued else Refused;
      StageMatched(hearts, requests, i, stage);
      UpdateCount(requests, i, requests[i].(stage := stage));
      requests := requests[i := requests[i].(stage := stage)];
    }

    /** clearQueuedTailHeartbeat, under the lock, for a refused request. */
    method Clear(i: nat)
      requires Valid() && i < |requests| && requests[i].stage == Refused
      modifies this`hearts, this`requests
      ensures Valid() && PersistedGrows() && requests == Without(old(requests), i)
      ensures var s := old(requests)[i].source; hearts == old(hearts)[s := Heart(old(hearts), s).(queuedUs := 0)]
    {
      var state := Heart(hearts, requests[i].source);
      if state.queuedUs == requests[i].atUs {
        state := state.(queuedUs := 0);
      }
      Forget(i, state);
    }

    /** The persistence loop takes a request from the queue. */
    method Dequeue(i: nat)
      requires Valid() && i < |requests| && requests[i].stage == Queued
      modifies this`requests
      ensures Valid() && requests == old(requests)[i := old(requests)[i].(stage := Writing)]
    {
      StageMatched(hearts, requests, i, Writing);
      UpdateCount(requests, i, requests[i].(stage := Writing));
      requests := requests[i := requests[i].(stage := Writing)];
    }

    /** persistTailHeartbeat: one transaction, with one notification exactly when the state changed. */
    method PersistTailHeartbeat(i: nat, commits: bool)
      requires Valid() && i < |requests| && requests[i].stage == Writing
      modifies this`requests, this`rows, this`notifies
      ensures Valid() && requests == old(requests)[i := old(requests)[i].(stage := Written(commits))]
      ensures var r := old(requests)[i];
              && rows == (if commits && r.source in old(rows) then old(rows)[r.source := Refreshed(old(rows)[r.source], r.atUs)] else old(rows))
              && notifies == old(notifies) + if commits && r.source in old(rows) && old(rows)[r.source].state.TailStale?
                                             then [Notify(r.source, r.atUs)] else []
    {
      var r := requests[i];
      if commits && r.source in rows {
        var row := rows[r.source];
        if row.state.TailStale? {
          rows := rows[r.source := row.(heartbeatAt := Some(r.atUs), state := Tailing, stateAt := r.atUs)];
          notifies := notifies + [Notify(r.source, r.atUs)];
        } else if row.state.Tailing? {
          rows := rows[r.source := row.(heartbeatAt := Some(r.atUs))];
        } else {
          assert rows == rows[r.source := row];
        }
      }
      assert old(notifies) + [] == old(notifies);
      StageMatched(hearts, requests, i, Written(commits));
      UpdateCount(requests, i, r.(stage := Written(commits)));
      requests := requests[i := r.(stage := Written(commits))];
    }

    /** finishTailHeartbeatPersist, under the lock. A heartbeat that came while the write was under way and is
        far enough ahead is asked for at once. */
    method Finish(i: nat)
      requires Valid() && i < |requests| && requests[i].stage.Written?
      modifies this`hearts, this`requests
      ensures Valid() && PersistedGrows()
      ensures var r := old(requests)[i];
              var h := Heart(old(hearts), r.source);
              var persisted := if r.stage.committed && r.atUs > h.persistedUs then r.atUs else h.persistedUs;
              var again := r.stage.committed && h.lastUs - persisted >= persistEveryUs;
              && hearts == old(hearts)[r.source := Heartbeat(h.lastUs, if again then h.lastUs else 0, persisted)]
              && requests == Without(old(requests), i) + if again then [Request(r.source, h.lastUs, Decided)] else []
    {
      var r := requests[i];
      var state := Heart(hearts, r.source);
      if state.queuedUs == r.atUs {
        state := state.(queuedUs := 0);
      }
      if r.stage.committed && r.atUs > state.persistedUs {
        state := state.(persistedUs := r.atUs);
      }
      Forget(i, state);
      if r.stage.committed && state.queuedUs == 0 && state.lastUs > state.persistedUs
         && state.lastUs - state.persistedUs >= persistEveryUs {
        AskAgain(r.source, state);
      }
    }

    /** The request is gone; the source has none. */
    method Forget(i: nat, state: Heartbeat)
      requires Valid() && i < |requests| && state.queuedUs == 0 && !requests[i].stage.Queued?
      requires state.persistedUs >= Heart(hearts, requests[i].source).persistedUs
      modifies this`hearts, this`requests
      ensures Valid() && PersistedGrows()
      ensures requests == Without(old(requests), i) && hearts == old(hearts)[old(requests)[i].source := state]
    {
      RemoveMatched(hearts, requests, i, state);
      RemoveCount(requests, i);
      SetHeart(hearts, requests[i].source, state);
      hearts := hearts[requests[i].source := state];
      requests := Without(requests, i);
    }

    method AskAgain(source: SourceId, state: Heartbeat)
      requires Valid() && state == Heart(hearts, source) && state.queuedUs == 0 && state.lastUs > 0
      modifies this`hearts, this`requests
      ensures Valid() && PersistedGrows()
      ensures hearts == old(hearts)[source := state.(queuedUs := state.lastUs)]
      ensures requests == old(requests) + [Request(source, state.lastUs, Decided)]
    {
      var next := Request(source, state.lastUs, Decided);
      AddMatched(hearts, requests, next, state.(queuedUs := state.lastUs));
      AppendCount(requests, next);
      SetHeart(hearts, source, state.(queuedUs := state.lastUs));
      hearts := hearts[source := state.(queuedUs := state.lastUs)];
      requests := requests + [next];
    }

    /** The watchdog's reading: which sources to mark, by the persisted row and the live heartbeat. */
    method StaleSources(now: int, sources: seq<SourceId>) returns (stale: seq<SourceId>)
      ensures forall s :: s in stale <==> s in sources && s in rows && IsStale(rows[s], Heart(hearts, s), now, staleAfterUs)
    {
      stale := [];
      var k := 0;
      while k < |sources|
        invariant k <= |sources|
        invariant forall s :: s in stale <==> s in sources[..k] && s in rows && IsStale(rows[s], Heart(hearts, s), now, staleAfterUs)
      {
        var s := sources[k];
        assert sources[..k + 1] == sources[..k] + [s];
        if s in rows && rows[s].state.Tailing? {
          var last := PersistedLast(rows[s]);
          if s in hearts && hearts[s].lastUs > last {
            last := hearts[s].lastUs;
          }
          if !(last > 0 && now - last <= staleAfterUs) {
            stale := stale + [s];
          }
        }
        k := k + 1;
      }
      assert sources[..k] == sources;
    }

    /** markTailStale: one transaction, which finds the source still tailing or changes nothing. */
    method MarkTailStale(source: SourceId, atUs: int)
      modifies this`rows, this`notifies
      ensures rows == if source in old(rows) then old(rows)[source := Staled(old(rows)[source], atUs)] else old(rows)
      ensures notifies == old(notifies) + if source in old(rows) && old(rows)[source].state.Tailing? then [Notify(source, atUs)] else []
    {
      assert old(notifies) + [] == old(notifies);
      if source in rows && rows[source].state.Tailing? {
        rows := rows[source := rows[source].(state := TailStale, stateAt := atUs)];
        notifies := notifies + [Notify(source, atUs)];
      } else {
        assert source in rows ==> rows == rows[source := rows[source]];
      }
    }
  }
}
