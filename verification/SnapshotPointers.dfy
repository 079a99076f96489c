/** No two artifacts of a snapshot claim the same place in it: the pointers the ai-agent v2 extractor emits
    (internal/parity/aiagent_v2_source_structural.go) are pairwise distinct. */
module SnapshotPointers {
  import opened Options
  import opened Decimals
  import opened JsonPointer
  import opened Snapshot

  predicate HasPointer(a: Artifact) { a.LogText? || a.InlinePayload? }

  ghost predicate Distinct(arts: seq<Artifact>) {
    forall i, j | 0 <= i < j < |arts| && HasPointer(arts[i]) && HasPointer(arts[j]) :: arts[i].pointer != arts[j].pointer
  }

  /** q leads to where p leads, or to somewhere inside. */
  predicate Under(p: string, q: string) {
    q == p || (|p| < |q| && q[..|p|] == p && q[|p|] == '/')
  }

  lemma UnderTrans(p: string, q: string, r: string)
    requires Under(p, q) && Under(q, r)
    ensures Under(p, r)
  {
    if q != p && r != q {
      assert r[..|p|] == r[..|q|][..|p|] == q[..|p|];
      assert r[|p|] == r[..|q|][|p|] == q[|p|];
    }
  }

  lemma UnderSub(p: string, key: string)
    ensures Under(p, Sub(p, key))
  {
    assert Sub(p, key)[..|p|] == p;
  }

  /** Below p a pointer passes through one member only. */
  lemma OneWay(p: string, a: string, b: string, q: string)
    requires '/' !in a && '/' !in b && |a| <= |b|
    requires Under(Sub(p, a), q) && Under(Sub(p, b), q)
    ensures a == b
  {
    var n := |p| + 1;
    assert Sub(p, a)[n..] == a && Sub(p, b)[n..] == b;
    assert q[..n + |a|] == Sub(p, a) && q[..n + |b|] == Sub(p, b);
    assert a == q[n..n + |a|] && b == q[n..n + |b|];
    assert forall k | 0 <= k < |b| :: q[n + k] == b[k] && b[k] in b;
  }

  /** The pointers are distinct, and each goes below p through one of these members. */
  ghost predicate Spread(p: string, keys: set<string>, arts: seq<Artifact>) {
    && Distinct(arts)
    && forall i | 0 <= i < |arts| && HasPointer(arts[i]) :: exists k :: k in keys && Under(Sub(p, k), arts[i].pointer)
  }

  lemma Joined(p: string, aKeys: set<string>, a: seq<Artifact>, bKeys: set<string>, b: seq<Artifact>)
    requires Spread(p, aKeys, a) && Spread(p, bKeys, b)
    requires forall k | k in aKeys || k in bKeys :: '/' !in k && !(k in aKeys && k in bKeys)
    ensures Spread(p, aKeys + bKeys, a + b)
  {
    forall i, j | 0 <= i < |a| && 0 <= j < |b| && HasPointer(a[i]) && HasPointer(b[j])
      ensures a[i].pointer != b[j].pointer
    {
      var ka :| ka in aKeys && Under(Sub(p, ka), a[i].pointer);
      var kb :| kb in bKeys && Under(Sub(p, kb), b[j].pointer);
      if a[i].pointer == b[j].pointer {
        if |ka| <= |kb| {
          OneWay(p, ka, kb, a[i].pointer);
        } else {
          OneWay(p, kb, ka, a[i].pointer);
        }
      }
    }
    forall i | 0 <= i < |a + b| && HasPointer((a + b)[i])
      ensures exists k :: k in aKeys + bKeys && Under(Sub(p, k), (a + b)[i].pointer)
    {
      if i < |a| {
        var k :| k in aKeys && Under(Sub(p, k), a[i].pointer);
        assert k in aKeys + bKeys;
      } else {
        var k :| k in bKeys && Under(Sub(p, k), b[i - |a|].pointer);
        assert k in aKeys + bKeys;
      }
    }
  }

  /** What is spread below a member goes through the member. */
  lemma Lifted(p: string, key: string, keys: set<string>, arts: seq<Artifact>)
    requires Spread(Sub(p, key), keys, arts)
    ensures Spread(p, {key}, arts)
  {
    forall i | 0 <= i < |arts| && HasPointer(arts[i])
      ensures Under(Sub(p, key), arts[i].pointer)
    {
      var k :| k in keys && Under(Sub(Sub(p, key), k), arts[i].pointer);
      UnderSub(Sub(p, key), k);
      UnderTrans(Sub(p, key), Sub(Sub(p, key), k), arts[i].pointer);
    }
  }

  lemma Pointless(p: string, arts: seq<Artifact>)
    requires forall i | 0 <= i < |arts| :: !HasPointer(arts[i])
    ensures Spread(p, {}, arts)
  {
  }

  lemma One(p: string, key: string, a: Artifact)
    requires HasPointer(a) && Under(Sub(p, key), a.pointer)
    ensures Spread(p, {key}, [a])
  {
  }

  // ----- list elements -----

  function Indices(n: nat): set<string> {
    set i: nat | i < n :: Format(i)
  }

  lemma IndexIsNew(n: nat)
    ensures Format(n) !in Indices(n) && Indices(n + 1) == Indices(n) + {Format(n)}
    ensures forall k | k in Indices(n + 1) :: '/' !in k
  {
    ValueOfFormat(n);
    forall i: nat | i <= n
      ensures '/' !in Format(i) && (Format(i) == Format(n) ==> i == n)
    {
      ValueOfFormat(i);
      assert Decimal(Format(i));
    }
  }

  /** One more element of a list. */
  lemma NextElement(p: string, a: seq<Artifact>, b: seq<Artifact>, n: nat)
    requires Spread(p, Indices(n), a) && Spread(p, {Format(n)}, b)
    ensures Spread(p, Indices(n + 1), a + b)
  {
    IndexIsNew(n);
    Joined(p, Indices(n), a, {Format(n)}, b);
  }

  // ----- the artifacts, from the leaves up -----

  /** The member names below a session, and those below an operation, differ from each other. */
  predicate NamesDiffer(f: Layout) {
    && PlainKeys(f)
    && f.turns != f.steps && f.turns != f.error && f.steps != f.error
    && f.request != f.response && f.request != f.logs && f.request != f.attributes && f.request != f.childSession
    && f.response != f.logs && f.response != f.attributes && f.response != f.childSession
    && f.logs != f.attributes && f.logs != f.childSession && f.attributes != f.childSession
  }

  lemma InlineSpread(f: Layout, payload: Option<Json>, side: string, scope: Scope, p: string)
    ensures Spread(p, {side}, InlineArts(f, payload, side, scope, p))
  {
    UnderSub(Sub(p, side), f.payload);
  }

  lemma {:induction false} LogsSpread(f: Layout, logs: seq<string>, n: nat, scope: Scope, p: string)
    requires n <= |logs|
    ensures Spread(Sub(p, f.logs), Indices(n), LogArts(f, logs, n, scope, p))
  {
    if n > 0 {
      LogsSpread(f, logs, n - 1, scope, p);
      var a := LogText(scope.trace, scope.turnSeq, Sub(At(p, f.logs, n - 1), f.message), logs[n - 1]);
      assert At(p, f.logs, n - 1) == Sub(Sub(p, f.logs), Format(n - 1));
      UnderSub(At(p, f.logs, n - 1), f.message);
      One(Sub(p, f.logs), Format(n - 1), a);
      NextElement(Sub(p, f.logs), LogArts(f, logs, n - 1, scope, p), [a], n - 1);
    }
  }

  lemma FailedLogSpread(f: Layout, op: Operation, scope: Scope, p: string)
    ensures Spread(p, {f.attributes}, FailedLogArts(f, op, scope, p))
  {
    UnderSub(Sub(p, f.attributes), f.error);
  }

  lemma OpSpread(f: Layout, op: Operation, scope: Scope, opSeq: nat, p: string)
    requires NamesDiffer(f)
    ensures Spread(p, {f.request, f.response, f.logs, f.attributes}, OpArts(f, op, scope, opSeq, p))
  {
    var head := [OpBoundary(scope.trace, scope.turnSeq, opSeq, op.kind)];
    var request, response := InlineArts(f, op.request, f.request, scope, p), InlineArts(f, op.response, f.response, scope, p);
    var logs, failed := LogArts(f, op.logs, |op.logs|, scope, p), FailedLogArts(f, op, scope, p);
    Pointless(p, head);
    InlineSpread(f, op.request, f.request, scope, p);
    InlineSpread(f, op.response, f.response, scope, p);
    LogsSpread(f, op.logs, |op.logs|, scope, p);
    Lifted(p, f.logs, Indices(|op.logs|), logs);
    FailedLogSpread(f, op, scope, p);
    Joined(p, {}, head, {f.request}, request);
    Joined(p, {} + {f.request}, head + request, {f.response}, response);
    Joined(p, {} + {f.request} + {f.response}, head + request + response, {f.logs}, logs);
    Joined(p, {} + {f.request} + {f.response} + {f.logs}, head + request + response + logs, {f.attributes}, failed);
    assert {} + {f.request} + {f.response} + {f.logs} + {f.attributes} == {f.request, f.response, f.logs, f.attributes};
  }

  lemma {:induction false} OpItemSpread(f: Layout, b: Block, i: nat, scope: Scope)
    requires NamesDiffer(f) && i < |b.ops|
    ensures Spread(Sub(scope.pointer, f.ops), {Format(i)}, OpItemArts(f, b, i, scope))
    decreases b, 0
  {
    var op, p := b.ops[i], At(scope.pointer, f.ops, i);
    var keys := {f.request, f.response, f.logs, f.attributes};
    assert p == Sub(Sub(scope.pointer, f.ops), Format(i));
    OpSpread(f, op, scope, i, p);
    ChildSpread(f, op, scope, p);
    Pointless(p, ReasoningArts(f, b, i, scope));
    Joined(p, keys, OpArts(f, op, scope, i, p), {}, ReasoningArts(f, b, i, scope));
    Joined(p, keys + {}, OpArts(f, op, scope, i, p) + ReasoningArts(f, b, i, scope), {f.childSession}, ChildArts(f, op, scope, p));
    Lifted(Sub(scope.pointer, f.ops), Format(i), keys + {} + {f.childSession}, OpItemArts(f, b, i, scope));
  }

  lemma {:induction false} OpsSpread(f: Layout, b: Block, n: nat, scope: Scope)
    requires NamesDiffer(f) && n <= |b.ops|
    ensures Spread(Sub(scope.pointer, f.ops), Indices(n), OpsArts(f, b, n, scope))
    decreases b, 1, n
  {
    if n > 0 {
      OpsSpread(f, b, n - 1, scope);
      OpItemSpread(f, b, n - 1, scope);
      NextElement(Sub(scope.pointer, f.ops), OpsArts(f, b, n - 1, scope), OpItemArts(f, b, n - 1, scope), n - 1);
    }
  }

  lemma {:induction false} ChildSpread(f: Layout, op: Operation, scope: Scope, p: string)
    requires NamesDiffer(f)
    ensures Spread(p, {f.childSession}, ChildArts(f, op, scope, p))
    decreases op, 0
  {
    if op.child.Some? {
      SessionSpread(f, op.child.value, scope.trace, f.subAgent, Sub(p, f.childSession));
      Lifted(p, f.childSession, {f.turns, f.steps, f.error}, ChildArts(f, op, scope, p));
    }
  }

  /** A turn or a step, whose pointer is that of element i of list p. */
  lemma {:induction false} BlockSpread(f: Layout, b: Block, scope: Scope, p: string, i: nat)
    requires NamesDiffer(f) && scope.pointer == Sub(p, Format(i))
    ensures Spread(p, {Format(i)}, BlockArts(f, b, scope))
    decreases b, 2
  {
    var head := [TurnBoundary(scope.trace, scope.turnSeq)];
    OpsSpread(f, b, |b.ops|, scope);
    Lifted(scope.pointer, f.ops, Indices(|b.ops|), OpsArts(f, b, |b.ops|, scope));
    Pointless(scope.pointer, head);
    Joined(scope.pointer, {}, head, {f.ops}, OpsArts(f, b, |b.ops|, scope));
    Lifted(p, Format(i), {} + {f.ops}, BlockArts(f, b, scope));
  }

  lemma {:induction false} TurnsSpread(f: Layout, t: OpTree, n: nat, p: string)
    requires NamesDiffer(f) && n <= |t.turns|
    ensures Spread(Sub(p, f.turns), Indices(n), TurnsArts(f, t, n, p))
    decreases t, 0, n
  {
    if n > 0 {
      var b := t.turns[n - 1];
      var scope := Scope(t.traceId, b.index, At(p, f.turns, n - 1));
      assert scope.pointer == Sub(Sub(p, f.turns), Format(n - 1));
      TurnsSpread(f, t, n - 1, p);
      BlockSpread(f, b, scope, Sub(p, f.turns), n - 1);
      NextElement(Sub(p, f.turns), TurnsArts(f, t, n - 1, p), BlockArts(f, b, scope), n - 1);
    }
  }

  lemma {:induction false} StepsSpread(f: Layout, t: OpTree, n: nat, p: string)
    requires NamesDiffer(f) && n <= |t.steps|
    ensures Spread(Sub(p, f.steps), Indices(n), StepsArts(f, t, n, p))
    decreases t, 0, n
  {
    if n > 0 {
      var b := t.steps[n - 1];
      var scope := Scope(t.traceId, STEP_INDEX_OFFSET + b.index, At(p, f.steps, n - 1));
      assert scope.pointer == Sub(Sub(p, f.steps), Format(n - 1));
      StepsSpread(f, t, n - 1, p);
      BlockSpread(f, b, scope, Sub(p, f.steps), n - 1);
      NextElement(Sub(p, f.steps), StepsArts(f, t, n - 1, p), BlockArts(f, b, scope), n - 1);
    }
  }

  lemma {:induction false} SessionSpread(f: Layout, t: OpTree, parent: string, kind: string, p: string)
    requires NamesDiffer(f)
    ensures Spread(p, {f.turns, f.steps, f.error}, SessionArts(f, t, parent, kind, p))
    decreases t, 1
  {
    var head := [SessionBoundary(t.traceId, parent, kind)];
    var turns, steps := TurnsArts(f, t, |t.turns|, p), StepsArts(f, t, |t.steps|, p);
    Pointless(p, head);
    TurnsSpread(f, t, |t.turns|, p);
    Lifted(p, f.turns, Indices(|t.turns|), turns);
    StepsSpread(f, t, |t.steps|, p);
    Lifted(p, f.steps, Indices(|t.steps|), steps);
    Joined(p, {}, head, {f.turns}, turns);
    Joined(p, {} + {f.turns}, head + turns, {f.steps}, steps);
    Joined(p, {} + {f.turns} + {f.steps}, head + turns + steps, {f.error}, ErrorArts(f, t, p));
    assert {} + {f.turns} + {f.steps} + {f.error} == {f.turns, f.steps, f.error};
  }

  /** For every operation tree, at any nesting: no pointer is emitted twice. */
  lemma V2PointersDiffer(refs: Json -> bool, t: OpTree)
    ensures Distinct(SessionArts(V2(refs), t, "", V2(refs).root, Sub("", V2(refs).opTree)))
  {
    PlainWords();
    SessionSpread(V2(refs), t, "", V2(refs).root, Sub("", V2(refs).opTree));
  }
}
