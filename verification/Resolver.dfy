/** Linking the session tree: parents from stashed native ids, then roots, explicit and transitive
    (internal/ingest/resolver.go). */
module Resolver {
  import opened Options
  import opened Picking
  import opened PrimaryRows

  /** A row of sessions; "" stands for an absent native id in the row's aiViewer stash. */
  datatype Session = Session(parent: Option<SessionId>, root: SessionId, parentNative: string, rootNative: string)

  type Sessions = map<SessionId, Session>

  // ----- what each UPDATE does to a row -----

  function NamedParent(id: SessionId, s: Session): SessionId { SessionId(id.source, s.parentNative) }
  function NamedRoot(id: SessionId, s: Session): SessionId { SessionId(id.source, s.rootNative) }

  predicate Orphan(t: Sessions, id: SessionId)
    requires id in t
  {
    t[id].parent.None? && t[id].parentNative != "" && NamedParent(id, t[id]) in t
  }

  function ParentedRow(t: Sessions, id: SessionId): Session
    requires id in t
  {
    if Orphan(t, id) then t[id].(parent := Some(NamedParent(id, t[id]))) else t[id]
  }

  function Parented(t: Sessions): (r: Sessions)
    ensures r.Keys == t.Keys
  {
    map id | id in t :: ParentedRow(t, id)
  }

  /** A self-rooted session whose stash names another stored session as its root. */
  predicate Explicit(t: Sessions, id: SessionId)
    requires id in t
  {
    && t[id].root == id && t[id].rootNative != "" && t[id].rootNative != id.native
    && NamedRoot(id, t[id]) in t
  }

  function ExplicitlyRootedRow(t: Sessions, id: SessionId): Session
    requires id in t
  {
    if Explicit(t, id) then t[id].(root := NamedRoot(id, t[id])) else t[id]
  }

  function ExplicitlyRooted(t: Sessions): (r: Sessions)
    ensures r.Keys == t.Keys
  {
    map id | id in t :: ExplicitlyRootedRow(t, id)
  }

  predicate Moves(t: Sessions, roots: map<SessionId, SessionId>, id: SessionId)
    requires id in t
  {
    id in roots && roots[id] != t[id].root
  }

  function RerootedRow(t: Sessions, roots: map<SessionId, SessionId>, id: SessionId): Session
    requires id in t
  {
    if Moves(t, roots, id) then t[id].(root := roots[id]) else t[id]
  }

  function Rerooted(t: Sessions, roots: map<SessionId, SessionId>): (r: Sessions)
    ensures r.Keys == t.Keys
  {
    map id | id in t :: RerootedRow(t, roots, id)
  }

  // ----- the top of a parent chain -----

  /** n parent links up from id. */
  function Climb(t: Sessions, id: SessionId, n: nat): (r: Option<SessionId>)
    ensures r.Some? ==> r.value in t
    decreases n
  {
    if id !in t then None
    else if n == 0 then Some(id)
    else if t[id].parent.None? then None
    else Climb(t, t[id].parent.value, n - 1)
  }

  ghost predicate TopAt(t: Sessions, id: SessionId, top: SessionId, n: nat) {
    Climb(t, id, n) == Some(top) && t[top].parent.None?
  }

  /** The parent chain of id ends, at top. */
  ghost predicate IsTop(t: Sessions, id: SessionId, top: SessionId) {
    exists n: nat :: TopAt(t, id, top, n)
  }

  lemma {:induction false} OneTop(t: Sessions, id: SessionId, a: SessionId, m: nat, b: SessionId, n: nat)
    requires TopAt(t, id, a, m) && TopAt(t, id, b, n)
    ensures a == b && m == n
    decreases m
  {
    if m > 0 && n > 0 {
      OneTop(t, t[id].parent.value, a, m - 1, b, n - 1);
    }
  }

  lemma TopOfParentless(t: Sessions, id: SessionId)
    requires id in t && t[id].parent.None?
    ensures IsTop(t, id, id)
  {
    assert TopAt(t, id, id, 0);
  }

  lemma TopOfChild(t: Sessions, id: SessionId, top: SessionId)
    requires id in t && t[id].parent.Some?
    ensures IsTop(t, id, top) <==> IsTop(t, t[id].parent.value, top)
  {
    if n: nat :| TopAt(t, id, top, n) {
      assert n > 0;
      assert TopAt(t, t[id].parent.value, top, n - 1);
    }
    if n: nat :| TopAt(t, t[id].parent.value, top, n) {
      assert TopAt(t, id, top, n + 1);
    }
  }

  /** Every session whose chain ends, with the top of it. */
  ghost predicate AreRoots(t: Sessions, roots: map<SessionId, SessionId>) {
    && (forall id | id in roots :: IsTop(t, id, roots[id]))
    && (forall id, top | IsTop(t, id, top) :: id in roots)
  }

  // ----- the recursive query -----

  datatype Row = Row(id: SessionId, root: SessionId)

  ghost predicate InRows(rows: seq<Row>, id: SessionId) {
    exists i :: 0 <= i < |rows| && rows[i].id == id
  }

  ghost predicate Closed(t: Sessions, roots: map<SessionId, SessionId>, queue: seq<Row>) {
    forall id | id in t ::
      (t[id].parent.None? || t[id].parent.value in roots) <==> (id in roots || InRows(queue, id))
  }

  ghost predicate Queued(t: Sessions, roots: map<SessionId, SessionId>, queue: seq<Row>) {
    && (forall i | 0 <= i < |queue| :: queue[i].id in t && queue[i].id !in roots && IsTop(t, queue[i].id, queue[i].root))
    && (forall i, j | 0 <= i < j < |queue| :: queue[i].id != queue[j].id)
  }

  lemma InAppended(a: seq<Row>, b: seq<Row>, id: SessionId)
    ensures InRows(a + b, id) <==> InRows(a, id) || InRows(b, id)
  {
    if i :| 0 <= i < |a| && a[i].id == id {
      assert (a + b)[i].id == id;
    }
    if i :| 0 <= i < |b| && b[i].id == id {
      assert (a + b)[|a| + i].id == id;
    }
  }

  lemma InTail(queue: seq<Row>, id: SessionId)
    requires queue != []
    ensures InRows(queue, id) <==> queue[0].id == id || InRows(queue[1..], id)
  {
    assert queue == [queue[0]] + queue[1..];
    InAppended([queue[0]], queue[1..], id);
    assert InRows([queue[0]], id) <==> queue[0].id == id by {
      if queue[0].id == id {
        assert [queue[0]][0].id == id;
      }
    }
  }

  method ParentlessRows(t: Sessions) returns (rows: seq<Row>)
    ensures Queued(t, map[], rows) && Closed(t, map[], rows)
  {
    var ids := Listed(set id | id in t && t[id].parent.None?);
    rows := seq(|ids|, i requires 0 <= i < |ids| => Row(ids[i], ids[i]));
    forall i | 0 <= i < |rows|
      ensures IsTop(t, rows[i].id, rows[i].root)
    {
      assert rows[i].id in ids;
      TopOfParentless(t, rows[i].id);
    }
    forall id | id in ids
      ensures InRows(rows, id)
    {
      var i :| 0 <= i < |ids| && ids[i] == id;
      assert rows[i].id == id;
    }
  }

  method ChildRows(t: Sessions, row: Row) returns (rows: seq<Row>)
    requires IsTop(t, row.id, row.root)
    ensures forall i | 0 <= i < |rows| :: rows[i].id in t && IsTop(t, rows[i].id, rows[i].root)
    ensures forall i, j | 0 <= i < j < |rows| :: rows[i].id != rows[j].id
    ensures forall id :: InRows(rows, id) <==> id in t && t[id].parent == Some(row.id)
  {
    var ids := Listed(set id | id in t && t[id].parent == Some(row.id));
    rows := seq(|ids|, i requires 0 <= i < |ids| => Row(ids[i], row.root));
    forall i | 0 <= i < |rows|
      ensures rows[i].id in t && t[rows[i].id].parent == Some(row.id) && IsTop(t, rows[i].id, rows[i].root)
    {
      assert rows[i].id in ids;
      TopOfChild(t, rows[i].id, row.root);
    }
    forall id | id in ids
      ensures InRows(rows, id)
    {
      var i :| 0 <= i < |ids| && ids[i] == id;
      assert rows[i].id == id;
    }
  }

  /** Taking a row: its children are new, and nothing else is. */
  lemma Taken(t: Sessions, roots: map<SessionId, SessionId>, queue: seq<Row>, children: seq<Row>)
    requires queue != [] && Queued(t, roots, queue) && Closed(t, roots, queue)
    requires forall i | 0 <= i < |children| :: children[i].id in t && IsTop(t, children[i].id, children[i].root)
    requires forall i, j | 0 <= i < j < |children| :: children[i].id != children[j].id
    requires forall id :: InRows(children, id) <==> id in t && t[id].parent == Some(queue[0].id)
    ensures var roots', queue' := roots[queue[0].id := queue[0].root], queue[1..] + children;
            Closed(t, roots', queue') && Queued(t, roots', queue')
  {
    var roots', queue' := roots[queue[0].id := queue[0].root], queue[1..] + children;
    forall id | id in t
      ensures (t[id].parent.None? || t[id].parent.value in roots') <==> (id in roots' || InRows(queue', id))
    {
      InTail(queue, id);
      InAppended(queue[1..], children, id);
    }
    NewRows(t, roots, queue, children);
  }

  lemma NewRows(t: Sessions, roots: map<SessionId, SessionId>, queue: seq<Row>, children: seq<Row>)
    requires queue != [] && Queued(t, roots, queue) && Closed(t, roots, queue)
    requires forall i | 0 <= i < |children| :: children[i].id in t && IsTop(t, children[i].id, children[i].root)
    requires forall i, j | 0 <= i < j < |children| :: children[i].id != children[j].id
    requires forall id :: InRows(children, id) <==> id in t && t[id].parent == Some(queue[0].id)
    ensures Queued(t, roots[queue[0].id := queue[0].root], queue[1..] + children)
  {
    forall i | 0 <= i < |children|
      ensures children[i].id !in roots && !InRows(queue, children[i].id) && children[i].id != queue[0].id
    {
      var id := children[i].id;
      assert InRows(children, id);
      assert queue[0].id !in roots;
      InTail(queue, id);
    }
    forall i, j | 0 <= i < |queue| && 0 <= j < |children|
      ensures queue[i].id != children[j].id
    {
      assert InRows(queue, queue[i].id);
    }
  }

  /** WITH RECURSIVE session_roots: start from the parentless rows, and for each row taken from the queue add
      its children. A session has one parent, so no row is produced twice, and cycles are never entered. */
  method SessionRoots(t: Sessions) returns (roots: map<SessionId, SessionId>)
    ensures AreRoots(t, roots) && roots.Keys <= t.Keys
  {
    roots := map[];
    var queue := ParentlessRows(t);
    while queue != []
      invariant Queued(t, roots, queue) && Closed(t, roots, queue)
      invariant forall id | id in roots :: id in t && IsTop(t, id, roots[id])
      decreases t.Keys - roots.Keys
    {
      var row := queue[0];
      var children := ChildRows(t, row);
      Taken(t, roots, queue, children);
      roots := roots[row.id := row.root];
      queue := queue[1..] + children;
    }
    forall id, top | IsTop(t, id, top)
      ensures id in roots
    {
      var n: nat :| TopAt(t, id, top, n);
      Reached(t, roots, id, top, n);
    }
  }

  lemma {:induction false} Reached(t: Sessions, roots: map<SessionId, SessionId>, id: SessionId, top: SessionId, n: nat)
    requires Closed(t, roots, []) && TopAt(t, id, top, n)
    ensures id in roots
    decreases n
  {
    if n > 0 {
      Reached(t, roots, t[id].parent.value, top, n - 1);
    }
  }

  // ----- the pass -----

  /** What an UPDATE's RETURNING clause names for a changed row: the row and its relatives. */
  predicate LinkNames(t: Sessions, id: SessionId, x: SessionId) {
    id in t && Orphan(t, id) && (x == id || x == NamedParent(id, t[id]) || x == t[id].root)
  }

  /** What it names, read off the changed row. */
  predicate Returned(t: Sessions, parents: bool, id: SessionId, x: SessionId) {
    id in t && (x == id || x == t[id].root || (parents && t[id].parent == Some(x)))
  }

  predicate ExplicitNames(t: Sessions, id: SessionId, x: SessionId) {
    id in t && Explicit(t, id) && (x == id || x == NamedRoot(id, t[id]))
  }

  predicate MoveNames(t: Sessions, roots: map<SessionId, SessionId>, id: SessionId, x: SessionId) {
    id in t && Moves(t, roots, id) && (x == id || t[id].parent == Some(x) || x == roots[id])
  }

  function Passed(t: Sessions, roots: map<SessionId, SessionId>): Sessions {
    Rerooted(ExplicitlyRooted(Parented(t)), roots)
  }

  // ----- the same, said of the rows before and after -----

  /** A row without a parent whose stash names a stored session of its source gets exactly that parent; every other
      row, and every other column, stays. */
  ghost predicate GetParents(t: Sessions, t': Sessions) {
    && t'.Keys == t.Keys
    && forall id | id in t ::
         var named := SessionId(id.source, t[id].parentNative);
         t'[id] == if t[id].parent == None && t[id].parentNative != "" && named in t then t[id].(parent := Some(named)) else t[id]
  }

  /** A row that is its own root, and whose stash names another stored session of its source, gets that root. */
  ghost predicate GetExplicitRoots(t: Sessions, t': Sessions) {
    && t'.Keys == t.Keys
    && forall id | id in t ::
         var named := SessionId(id.source, t[id].rootNative);
         t'[id] == if t[id].root == id && t[id].rootNative != "" && named != id && named in t then t[id].(root := named) else t[id]
  }

  /** x is a row that changed, its root, or (where the statement returns it) its parent. */
  ghost predicate NamedByChange(t: Sessions, t': Sessions, parents: bool, x: SessionId) {
    exists id :: id in t && id in t' && t'[id] != t[id] && (x == id || x == t'[id].root || (parents && t'[id].parent == Some(x)))
  }

  lemma ParentsAre(t: Sessions, x: SessionId)
    ensures GetParents(t, Parented(t))
    ensures (exists id :: LinkNames(t, id, x)) <==> NamedByChange(t, Parented(t), true, x)
  {
    if id :| LinkNames(t, id, x) {
      assert Parented(t)[id] != t[id];
    }
    if id :| id in t && Parented(t)[id] != t[id] && Returned(Parented(t), true, id, x) {
      assert LinkNames(t, id, x);
    }
  }

  lemma ExplicitRootsAre(t: Sessions, x: SessionId)
    ensures GetExplicitRoots(t, ExplicitlyRooted(t))
    ensures (exists id :: ExplicitNames(t, id, x)) <==> NamedByChange(t, ExplicitlyRooted(t), false, x)
  {
    if id :| ExplicitNames(t, id, x) {
      assert ExplicitlyRooted(t)[id] != t[id];
    }
    if id :| id in t && ExplicitlyRooted(t)[id] != t[id] && Returned(ExplicitlyRooted(t), false, id, x) {
      assert ExplicitNames(t, id, x);
    }
  }

  lemma MovesAre(t: Sessions, roots: map<SessionId, SessionId>, x: SessionId)
    ensures (exists id :: MoveNames(t, roots, id, x)) <==> NamedByChange(t, Rerooted(t, roots), true, x)
  {
    if id :| MoveNames(t, roots, id, x) {
      assert Rerooted(t, roots)[id] != t[id];
    }
    if id :| id in t && Rerooted(t, roots)[id] != t[id] && Returned(Rerooted(t, roots), true, id, x) {
      assert MoveNames(t, roots, id, x);
    }
  }

  class SessionTree {
    var sessions: Sessions
    var affected: set<SessionId>

    constructor (sessions: Sessions)
      ensures this.sessions == sessions && affected == {}
    {
      this.sessions, affected := sessions, {};
    }

    /** UPDATE sessions SET parent_session_id, row by row. */
    method UpdateParents() returns (changed: seq<SessionId>)
      modifies this`sessions
      ensures sessions.Keys == old(sessions).Keys
      ensures forall id | id in old(sessions) && Orphan(old(sessions), id) ::
                sessions[id] == old(sessions)[id].(parent := Some(NamedParent(id, old(sessions)[id])))
      ensures forall id | id in old(sessions) && !Orphan(old(sessions), id) :: sessions[id] == old(sessions)[id]
      ensures forall id :: id in changed <==> id in old(sessions) && Orphan(old(sessions), id)
    {
      ghost var t := sessions;
      changed := [];
      var ids := Listed(sessions.Keys);
      for i := 0 to |ids|
        invariant sessions.Keys == t.Keys
        invariant forall id | id in t :: sessions[id] == if id in ids[..i] then ParentedRow(t, id) else t[id]
        invariant forall id :: id in changed <==> id in ids[..i] && Orphan(t, id)
      {
        var id := ids[i];
        var s := sessions[id];
        assert ids[..i + 1] == ids[..i] + [id];
        if s.parent.None? && s.parentNative != "" && NamedParent(id, s) in sessions {
          sessions := sessions[id := s.(parent := Some(NamedParent(id, s)))];
          changed := changed + [id];
        }
      }
      assert ids[..|ids|] == ids;
    }

    /** UPDATE sessions SET root_session_id from the stash, row by row. */
    method UpdateExplicitRoots() returns (changed: seq<SessionId>)
      modifies this`sessions
      ensures sessions.Keys == old(sessions).Keys
      ensures forall id | id in old(sessions) && Explicit(old(sessions), id) ::
                sessions[id] == old(sessions)[id].(root := NamedRoot(id, old(sessions)[id]))
      ensures forall id | id in old(sessions) && !Explicit(old(sessions), id) :: sessions[id] == old(sessions)[id]
      ensures forall id :: id in changed <==> id in old(sessions) && Explicit(old(sessions), id)
    {
      ghost var t := sessions;
      changed := [];
      var ids := Listed(sessions.Keys);
      for i := 0 to |ids|
        invariant sessions.Keys == t.Keys
        invariant forall id | id in t :: sessions[id] == if id in ids[..i] then ExplicitlyRootedRow(t, id) else t[id]
        invariant forall id :: id in changed <==> id in ids[..i] && Explicit(t, id)
      {
        var id := ids[i];
        var s := sessions[id];
        assert ids[..i + 1] == ids[..i] + [id];
        if s.root == id && s.rootNative != "" && s.rootNative != id.native && NamedRoot(id, s) in sessions {
          sessions := sessions[id := s.(root := NamedRoot(id, s))];
          changed := changed + [id];
        }
      }
      assert ids[..|ids|] == ids;
    }

    /** UPDATE sessions SET root_session_id from the recursive query, row by row. */
    method UpdateTransitiveRoots(roots: map<SessionId, SessionId>) returns (changed: seq<SessionId>)
      modifies this`sessions
      ensures sessions.Keys == old(sessions).Keys
      ensures forall id | id in old(sessions) && Moves(old(sessions), roots, id) :: sessions[id] == old(sessions)[id].(root := roots[id])
      ensures forall id | id in old(sessions) && !Moves(old(sessions), roots, id) :: sessions[id] == old(sessions)[id]
      ensures forall id :: id in changed <==> id in old(sessions) && Moves(old(sessions), roots, id)
    {
      ghost var t := sessions;
      changed := [];
      var ids := Listed(sessions.Keys);
      for i := 0 to |ids|
        invariant sessions.Keys == t.Keys
        invariant forall id | id in t :: sessions[id] == if id in ids[..i] then RerootedRow(t, roots, id) else t[id]
        invariant forall id :: id in changed <==> id in ids[..i] && Moves(t, roots, id)
      {
        var id := ids[i];
        assert ids[..i + 1] == ids[..i] + [id];
        if id in roots && roots[id] != sessions[id].root {
          sessions := sessions[id := sessions[id].(root := roots[id])];
          changed := changed + [id];
        }
      }
      assert ids[..|ids|] == ids;
    }

    /** scanLinkedRows: what RETURNING gives for the changed rows is signalled, the parent only if it asks for it. */
    method ScanLinkedRows(changed: seq<SessionId>, parents: bool)
      requires forall id | id in changed :: id in sessions
      modifies this`affected
      ensures forall x :: x in affected <==> x in old(affected) || exists id :: id in changed && Returned(sessions, parents, id, x)
    {
      for i := 0 to |changed|
        invariant forall x :: x in affected <==> x in old(affected) || exists id :: id in changed[..i] && Returned(sessions, parents, id, x)
      {
        var id := changed[i];
        assert changed[..i + 1] == changed[..i] + [id];
        ghost var before := affected;
        var named := {id, sessions[id].root} + if parents && sessions[id].parent.Some? then {sessions[id].parent.value} else {};
        assert forall x :: x in named <==> Returned(sessions, parents, id, x);
        affected := affected + named;
        forall x
          ensures x in affected <==> x in old(affected) || exists y :: y in changed[..i + 1] && Returned(sessions, parents, y, x)
        {
          assert x in named ==> id in changed[..i + 1] && Returned(sessions, parents, id, x);
          if y :| y in changed[..i] && Returned(sessions, parents, y, x) {
            assert x in before && y in changed[..i + 1];
          }
        }
      }
      assert changed[..|changed|] == changed;
    }

    /** A row that has no parent, and whose stash names a stored session, gets that session as its parent; the row,
        its new parent and its root are signalled. */
    method LinkParents()
      modifies this
      ensures sessions == Parented(old(sessions)) && GetParents(old(sessions), sessions)
      ensures forall x :: x in affected <==> x in old(affected) || NamedByChange(old(sessions), sessions, true, x)
    {
      ghost var t := sessions;
      var changed := UpdateParents();
      assert sessions == Parented(t);
      assert forall id, x :: LinkNames(t, id, x) <==> id in changed && Returned(sessions, true, id, x);
      ScanLinkedRows(changed, true);
      forall x {
        ParentsAre(t, x);
      }
    }

    method LinkExplicitRoots()
      modifies this
      ensures sessions == ExplicitlyRooted(old(sessions)) && GetExplicitRoots(old(sessions), sessions)
      ensures forall x :: x in affected <==> x in old(affected) || NamedByChange(old(sessions), sessions, false, x)
    {
      ghost var t := sessions;
      var changed := UpdateExplicitRoots();
      assert sessions == ExplicitlyRooted(t);
      assert forall id, x :: ExplicitNames(t, id, x) <==> id in changed && Returned(sessions, false, id, x);
      ScanLinkedRows(changed, false);
      forall x {
        ExplicitRootsAre(t, x);
      }
    }

    method LinkTransitiveRoots() returns (ghost roots: map<SessionId, SessionId>)
      modifies this
      ensures AreRoots(old(sessions), roots) && sessions == Rerooted(old(sessions), roots)
      ensures forall x :: x in affected <==> x in old(affected) || NamedByChange(old(sessions), sessions, true, x)
    {
      ghost var t := sessions;
      var found := SessionRoots(sessions);
      var changed := UpdateTransitiveRoots(found);
      assert sessions == Rerooted(t, found);
      assert forall id, x :: MoveNames(t, found, id, x) <==> id in changed && Returned(sessions, true, id, x);
      ScanLinkedRows(changed, true);
      forall x {
        MovesAre(t, found, x);
      }
      roots := found;
    }

    method LinkRoots() returns (ghost roots: map<SessionId, SessionId>)
      modifies this
      ensures AreRoots(ExplicitlyRooted(old(sessions)), roots)
      ensures sessions == Rerooted(ExplicitlyRooted(old(sessions)), roots)
      ensures GetExplicitRoots(old(sessions), ExplicitlyRooted(old(sessions)))
      ensures var rooted := ExplicitlyRooted(old(sessions));
              forall x :: x in affected <==>
                x in old(affected) || NamedByChange(old(sessions), rooted, false, x) || NamedByChange(rooted, sessions, true, x)
    {
      LinkExplicitRoots();
      roots := LinkTransitiveRoots();
    }

    /** linkOrphans when sessions have changed: whatever its root was, every session whose parent chain ends
        gets the top of the chain; the others keep theirs, or take the one their stash names. */
    method LinkOrphans() returns (ghost roots: map<SessionId, SessionId>)
      modifies this
      ensures AreRoots(ExplicitlyRooted(Parented(old(sessions))), roots) && sessions == Passed(old(sessions), roots)
      ensures var linked := Parented(old(sessions));
              && GetParents(old(sessions), linked) && GetExplicitRoots(linked, ExplicitlyRooted(linked))
              && (forall id, top | id in linked && IsTop(linked, id, top) :: sessions[id] == linked[id].(root := top))
              && (forall id | id in linked && id !in roots :: sessions[id] == ExplicitlyRooted(linked)[id])
      ensures forall x :: x in affected <==> Signalled(old(sessions), roots, x)
      ensures var linked := Parented(old(sessions));
              var rooted := ExplicitlyRooted(linked);
              forall x :: x in affected <==>
                || NamedByChange(old(sessions), linked, true, x) || NamedByChange(linked, rooted, false, x)
                || NamedByChange(rooted, sessions, true, x)
    {
      affected := {};
      LinkParents();
      ghost var linked := sessions;
      assert linked == Parented(old(sessions));
      roots := LinkRoots();
      PassedRoots(linked, roots);
      SignalledIff(old(sessions), roots);
    }
  }

  lemma SignalledIff(t: Sessions, roots: map<SessionId, SessionId>)
    ensures var linked := Parented(t);
            var rooted := ExplicitlyRooted(linked);
            forall x :: Signalled(t, roots, x) <==>
              || NamedByChange(t, linked, true, x) || NamedByChange(linked, rooted, false, x)
              || NamedByChange(rooted, Rerooted(rooted, roots), true, x)
  {
    var linked := Parented(t);
    var rooted := ExplicitlyRooted(linked);
    forall x
      ensures Signalled(t, roots, x) <==>
        || NamedByChange(t, linked, true, x) || NamedByChange(linked, rooted, false, x)
        || NamedByChange(rooted, Rerooted(rooted, roots), true, x)
    {
      ParentsAre(t, x);
      ExplicitRootsAre(linked, x);
      MovesAre(rooted, roots, x);
    }
  }

  /** Roots do not matter to the chains. */
  lemma {:induction false} SameClimb(t: Sessions, u: Sessions, id: SessionId, n: nat)
    requires t.Keys == u.Keys && forall x | x in t :: t[x].parent == u[x].parent
    ensures Climb(t, id, n) == Climb(u, id, n)
    decreases n
  {
    if id in t && n > 0 && t[id].parent.Some? {
      SameClimb(t, u, t[id].parent.value, n - 1);
    }
  }

  lemma SameTop(t: Sessions, u: Sessions, id: SessionId, top: SessionId)
    requires t.Keys == u.Keys && forall x | x in t :: t[x].parent == u[x].parent
    ensures IsTop(t, id, top) <==> IsTop(u, id, top)
  {
    if n: nat :| TopAt(t, id, top, n) {
      SameClimb(t, u, id, n);
      assert TopAt(u, id, top, n);
    }
    if n: nat :| TopAt(u, id, top, n) {
      SameClimb(t, u, id, n);
      assert TopAt(t, id, top, n);
    }
  }

  /** A session has at most one top, and the query finds it. */
  lemma RootIsTop(t: Sessions, roots: map<SessionId, SessionId>, id: SessionId, top: SessionId)
    requires AreRoots(t, roots) && IsTop(t, id, top)
    ensures id in roots && roots[id] == top
  {
    var m: nat :| TopAt(t, id, top, m);
    var n: nat :| TopAt(t, id, roots[id], n);
    OneTop(t, id, top, m, roots[id], n);
  }

  lemma PassedRoot(linked: Sessions, roots: map<SessionId, SessionId>, id: SessionId, top: SessionId)
    requires AreRoots(ExplicitlyRooted(linked), roots) && id in linked && IsTop(linked, id, top)
    ensures Rerooted(ExplicitlyRooted(linked), roots)[id] == linked[id].(root := top)
  {
    SameTop(linked, ExplicitlyRooted(linked), id, top);
    RootIsTop(ExplicitlyRooted(linked), roots, id, top);
  }

  lemma PassedRoots(linked: Sessions, roots: map<SessionId, SessionId>)
    requires AreRoots(ExplicitlyRooted(linked), roots)
    ensures forall id, top | id in linked && IsTop(linked, id, top) ::
              Rerooted(ExplicitlyRooted(linked), roots)[id] == linked[id].(root := top)
  {
    forall id, top | id in linked && IsTop(linked, id, top) {
      PassedRoot(linked, roots, id, top);
    }
  }

  // ----- a second pass -----

  /** A parentless session whose stash names another stored session as its root. */
  predicate Flaps(t: Sessions, id: SessionId)
    requires id in t
  {
    t[id].parent.None? && t[id].rootNative != "" && t[id].rootNative != id.native && NamedRoot(id, t[id]) in t
  }

  /** After a pass, a session's root is itself only if it has no parent, unless nothing else can be its root. */
  lemma SelfRooted(t: Sessions, roots: map<SessionId, SessionId>, id: SessionId)
    requires AreRoots(ExplicitlyRooted(Parented(t)), roots) && id in t
    ensures Explicit(Passed(t, roots), id) <==> Flaps(Passed(t, roots), id)
  {
    var linked := Parented(t);
    if linked[id].parent.None? {
      TopOfParentless(linked, id);
      PassedRoot(linked, roots, id, id);
    } else if id in roots {
      var top := roots[id];
      SameTop(linked, ExplicitlyRooted(linked), id, top);
      PassedRoot(linked, roots, id, top);
      var n: nat :| TopAt(linked, id, top, n);
      assert top != id;
    }
  }

  /** The query's answer depends on the parents alone. */
  lemma OneAnswer(t: Sessions, u: Sessions, a: map<SessionId, SessionId>, b: map<SessionId, SessionId>, id: SessionId)
    requires t.Keys == u.Keys && forall x | x in t :: t[x].parent == u[x].parent
    requires AreRoots(t, a) && AreRoots(u, b)
    ensures id in a <==> id in b
    ensures id in a ==> a[id] == b[id]
  {
    if id in a {
      SameTop(t, u, id, a[id]);
      RootIsTop(u, b, id, a[id]);
    }
    if id in b {
      SameTop(t, u, id, b[id]);
      RootIsTop(t, a, id, b[id]);
    }
  }

  lemma RootOfParentless(t: Sessions, roots: map<SessionId, SessionId>, id: SessionId)
    requires AreRoots(t, roots) && id in t && t[id].parent.None?
    ensures id in roots && roots[id] == id
  {
    TopOfParentless(t, id);
    RootIsTop(t, roots, id, id);
  }

  lemma SecondExplicit(t: Sessions, roots: map<SessionId, SessionId>, again: map<SessionId, SessionId>, id: SessionId)
    requires AreRoots(ExplicitlyRooted(Parented(t)), roots) && id in t
    requires AreRoots(ExplicitlyRooted(Parented(Passed(t, roots))), again)
    ensures Passed(Passed(t, roots), again)[id] == Passed(t, roots)[id]
    ensures Moves(ExplicitlyRooted(Passed(t, roots)), again, id) <==> Flaps(Passed(t, roots), id)
  {
    SelfRooted(t, roots, id);
    StillParented(t, roots);
    OneAnswer(ExplicitlyRooted(Parented(t)), ExplicitlyRooted(Passed(t, roots)), roots, again, id);
    if Parented(t)[id].parent.None? {
      RootOfParentless(ExplicitlyRooted(Parented(t)), roots, id);
    }
  }

  lemma StillParented(t: Sessions, roots: map<SessionId, SessionId>)
    ensures Parented(Passed(t, roots)) == Passed(t, roots)
    ensures forall id | id in t :: !Orphan(Passed(t, roots), id) && Passed(t, roots)[id].parent == Parented(t)[id].parent
    ensures Passed(t, roots).Keys == t.Keys
  {
  }

  lemma SecondPassRows(t: Sessions, roots: map<SessionId, SessionId>, again: map<SessionId, SessionId>)
    requires AreRoots(ExplicitlyRooted(Parented(t)), roots)
    requires AreRoots(ExplicitlyRooted(Parented(Passed(t, roots))), again)
    ensures Passed(Passed(t, roots), again) == Passed(t, roots)
    ensures forall id | id in t :: Explicit(Passed(t, roots), id) <==> Flaps(Passed(t, roots), id)
    ensures forall id | id in t :: Moves(ExplicitlyRooted(Passed(t, roots)), again, id) <==> Flaps(Passed(t, roots), id)
  {
    forall id | id in t
      ensures Passed(Passed(t, roots), again)[id] == Passed(t, roots)[id]
      ensures Explicit(Passed(t, roots), id) <==> Flaps(Passed(t, roots), id)
      ensures Moves(ExplicitlyRooted(Passed(t, roots)), again, id) <==> Flaps(Passed(t, roots), id)
    {
      SelfRooted(t, roots, id);
      SecondExplicit(t, roots, again, id);
    }
  }

  /** The pass signals this session: one it changed, or a changed one's parent or root. */
  ghost predicate Signalled(t: Sessions, roots: map<SessionId, SessionId>, x: SessionId) {
    || (exists id :: LinkNames(t, id, x))
    || (exists id :: ExplicitNames(Parented(t), id, x))
    || (exists id :: MoveNames(ExplicitlyRooted(Parented(t)), roots, id, x))
  }

  /** A second pass leaves the sessions as they are. It signals nothing exactly when no parentless session
      names another stored session as its root: such a session is re-rooted and rooted back in every pass. */
  lemma SecondPass(t: Sessions, roots: map<SessionId, SessionId>, again: map<SessionId, SessionId>)
    requires AreRoots(ExplicitlyRooted(Parented(t)), roots)
    requires AreRoots(ExplicitlyRooted(Parented(Passed(t, roots))), again)
    ensures Passed(Passed(t, roots), again) == Passed(t, roots)
    ensures (exists x :: Signalled(Passed(t, roots), again, x)) <==> exists id :: id in Passed(t, roots) && Flaps(Passed(t, roots), id)
  {
    SecondPassRows(t, roots, again);
    StillParented(t, roots);
    var u := Passed(t, roots);
    if id :| id in u && Flaps(u, id) {
      assert ExplicitNames(Parented(u), id, id);
      assert Signalled(u, again, id);
    }
  }
}
