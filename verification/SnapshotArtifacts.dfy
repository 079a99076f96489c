/** Which artifacts the ai-agent v2 extractor makes of an operation tree, neither fewer nor more; how the tree follows
    from the document; and when recording fails (internal/parity/aiagent_v2_source_structural.go, _logs.go,
    _payload.go). */
module SnapshotArtifacts {
  import opened Options
  import opened Decimals
  import opened OrderedRows
  import opened JsonPointer
  import opened Snapshot

  // ----- the artifacts of one session -----

  /** A session of the tree, as the extractor comes to it. */
  datatype Visit = Visit(t: OpTree, parent: string, kind: string, pointer: string)

  /** The turns of the session, or its steps, which are numbered from ten thousand. */
  function Blocks(t: OpTree, steps: bool): seq<Block> { if steps then t.steps else t.turns }

  function ScopeOf(f: Layout, v: Visit, steps: bool, i: nat): Scope
    requires i < |Blocks(v.t, steps)|
  {
    Scope(v.t.traceId, (if steps then 10_000 else 0) + Blocks(v.t, steps)[i].index, At(v.pointer, if steps then f.steps else f.turns, i))
  }

  predicate Reasons(f: Layout, op: Operation) { op.kind == f.llm && op.reasoning != "" }

  /** Of an operation: itself, its inline payloads, its logs, the error of a failed one, and the reasoning operation
      split from it, numbered after all recorded ones. */
  ghost predicate OfOp(f: Layout, b: Block, i: nat, s: Scope, a: Artifact)
    requires i < |b.ops|
  {
    var op, p := b.ops[i], At(s.pointer, f.ops, i);
    || OwnOf(f, op, i, s, p, a)
    || (Reasons(f, op) && a == OpBoundary(s.trace, s.turnSeq, |b.ops| + |Filter(o => Reasons(f, o), b.ops[..i])|, f.reasoning))
  }

  ghost predicate OwnOf(f: Layout, op: Operation, i: nat, s: Scope, p: string, a: Artifact) {
    || a == OpBoundary(s.trace, s.turnSeq, i, op.kind)
    || (op.request.Some? && !f.refs(op.request.value)
        && a == InlinePayload(s.trace, s.turnSeq, Sub(Sub(p, f.request), f.payload), op.request.value))
    || (op.response.Some? && !f.refs(op.response.value)
        && a == InlinePayload(s.trace, s.turnSeq, Sub(Sub(p, f.response), f.payload), op.response.value))
    || (exists k :: 0 <= k < |op.logs| && a == LogText(s.trace, s.turnSeq, Sub(At(p, f.logs, k), f.message), op.logs[k]))
    || (op.status == f.failed && op.error != "" && a == LogText(s.trace, s.turnSeq, Sub(Sub(p, f.attributes), f.error), op.error))
  }

  ghost predicate OfBlock(f: Layout, b: Block, s: Scope, a: Artifact) {
    a == TurnBoundary(s.trace, s.turnSeq) || exists k :: 0 <= k < |b.ops| && OfOp(f, b, k, s, a)
  }

  /** Of a session: itself, its turns and steps, what their operations have, and the error of a failed one. */
  ghost predicate OfSession(f: Layout, v: Visit, a: Artifact) {
    || a == SessionBoundary(v.t.traceId, v.parent, v.kind)
    || (exists steps, i :: 0 <= i < |Blocks(v.t, steps)| && OfBlock(f, Blocks(v.t, steps)[i], ScopeOf(f, v, steps, i), a))
    || (v.t.success == Some(false) && v.t.error != "" && a == LogText(v.t.traceId, -1, Sub(v.pointer, f.error), v.t.error))
  }

  /** The operation's child session. */
  predicate IsChild(f: Layout, b: Block, i: nat, s: Scope, u: Visit)
    requires i < |b.ops|
  {
    b.ops[i].child == Some(u.t) && u == Visit(u.t, s.trace, f.subAgent, Sub(At(s.pointer, f.ops, i), f.childSession))
  }

  ghost predicate BlockChild(f: Layout, b: Block, s: Scope, u: Visit) {
    exists k :: 0 <= k < |b.ops| && IsChild(f, b, k, s, u)
  }

  ghost predicate ChildOf(f: Layout, v: Visit, u: Visit) {
    exists steps, i :: 0 <= i < |Blocks(v.t, steps)| && BlockChild(f, Blocks(v.t, steps)[i], ScopeOf(f, v, steps, i), u)
  }

  ghost function Children(f: Layout): (Visit, Visit) -> bool { (v, u) => ChildOf(f, v, u) }

  /** u is n child sessions below v. */
  ghost predicate Below(child: (Visit, Visit) -> bool, v: Visit, n: nat, u: Visit)
    decreases n
  {
    if n == 0 then u == v else exists w :: child(v, w) && Below(child, w, n - 1, u)
  }

  // ----- one session's loops -----

  predicate Has(f: Layout, v: Visit, a: Artifact) { a in SessionArts(f, v.t, v.parent, v.kind, v.pointer) }

  ghost predicate OpHas(f: Layout, b: Block, i: nat, s: Scope, a: Artifact)
    requires i < |b.ops|
  {
    OfOp(f, b, i, s, a) || exists u :: IsChild(f, b, i, s, u) && Has(f, u, a)
  }

  ghost predicate BlockHas(f: Layout, b: Block, s: Scope, a: Artifact) {
    a == TurnBoundary(s.trace, s.turnSeq) || exists i :: 0 <= i < |b.ops| && OpHas(f, b, i, s, a)
  }

  lemma {:induction false} LogsIn(f: Layout, logs: seq<string>, n: nat, s: Scope, p: string, a: Artifact)
    requires n <= |logs|
    ensures a in LogArts(f, logs, n, s, p) <==>
            exists k :: 0 <= k < n && a == LogText(s.trace, s.turnSeq, Sub(At(p, f.logs, k), f.message), logs[k])
  {
    if n > 0 {
      LogsIn(f, logs, n - 1, s, p, a);
    }
  }

  lemma {:induction false} ReasoningIs(f: Layout, ops: seq<Operation>, n: nat)
    requires n <= |ops|
    ensures ReasoningBefore(f, ops, n) == |Filter(o => Reasons(f, o), ops[..n])|
  {
    if n > 0 {
      ReasoningIs(f, ops, n - 1);
      FilterNext(o => Reasons(f, o), ops, n - 1);
    }
  }

  lemma OwnIn(f: Layout, op: Operation, i: nat, s: Scope, p: string, a: Artifact)
    ensures a in OpArts(f, op, s, i, p) <==> OwnOf(f, op, i, s, p, a)
  {
    LogsIn(f, op.logs, |op.logs|, s, p, a);
  }

  lemma OpIn(f: Layout, b: Block, i: nat, s: Scope, a: Artifact)
    requires i < |b.ops|
    ensures a in OpItemArts(f, b, i, s) <==> OpHas(f, b, i, s, a)
  {
    var op, p := b.ops[i], At(s.pointer, f.ops, i);
    OwnIn(f, op, i, s, p, a);
    ReasoningIs(f, b.ops, i);
    if op.child.Some? {
      var u := Visit(op.child.value, s.trace, f.subAgent, Sub(p, f.childSession));
      assert IsChild(f, b, i, s, u) && (a in ChildArts(f, op, s, p) <==> Has(f, u, a));
    } else {
      assert forall u :: !IsChild(f, b, i, s, u);
    }
  }

  lemma OneOpMore(f: Layout, b: Block, n: nat, s: Scope, a: Artifact)
    requires 0 < n <= |b.ops|
    ensures a in OpsArts(f, b, n, s) <==> a in OpsArts(f, b, n - 1, s) || a in OpItemArts(f, b, n - 1, s)
  {
  }

  /** What comes in with one of the first n. */
  lemma {:induction false} ComesIn(within: nat -> bool, has: nat -> bool, n: nat)
    requires !within(0) && forall i: nat | i < n :: within(i + 1) <==> within(i) || has(i)
    ensures within(n) <==> exists i: nat :: i < n && has(i)
  {
    if n > 0 {
      ComesIn(within, has, n - 1);
      assert within(n - 1 + 1) <==> within(n - 1) || has(n - 1);
    }
  }

  lemma OpsIn(f: Layout, b: Block, s: Scope, a: Artifact)
    ensures a in OpsArts(f, b, |b.ops|, s) <==> exists i :: 0 <= i < |b.ops| && OpHas(f, b, i, s, a)
  {
    var within := (n: nat) => n <= |b.ops| && a in OpsArts(f, b, n, s);
    var has := (i: nat) => i < |b.ops| && OpHas(f, b, i, s, a);
    forall i: nat | i < |b.ops|
      ensures within(i + 1) <==> within(i) || has(i)
    {
      OneOpMore(f, b, i + 1, s, a);
      OpIn(f, b, i, s, a);
    }
    assert !within(0);
    ComesIn(within, has, |b.ops|);
    assert forall i: nat :: has(i) <==> i < |b.ops| && OpHas(f, b, i, s, a);
  }

  lemma BlockIn(f: Layout, b: Block, s: Scope, a: Artifact)
    ensures a in BlockArts(f, b, s) <==> BlockHas(f, b, s, a)
  {
    OpsIn(f, b, s, a);
  }

  lemma {:induction false} TurnsIn(f: Layout, v: Visit, n: nat, a: Artifact)
    requires n <= |v.t.turns|
    ensures a in TurnsArts(f, v.t, n, v.pointer) <==>
            exists i :: 0 <= i < n && BlockHas(f, v.t.turns[i], ScopeOf(f, v, false, i), a)
  {
    if n > 0 {
      TurnsIn(f, v, n - 1, a);
      BlockIn(f, v.t.turns[n - 1], ScopeOf(f, v, false, n - 1), a);
    }
  }

  lemma {:induction false} StepsIn(f: Layout, v: Visit, n: nat, a: Artifact)
    requires n <= |v.t.steps|
    ensures a in StepsArts(f, v.t, n, v.pointer) <==>
            exists i :: 0 <= i < n && BlockHas(f, v.t.steps[i], ScopeOf(f, v, true, i), a)
  {
    if n > 0 {
      StepsIn(f, v, n - 1, a);
      BlockIn(f, v.t.steps[n - 1], ScopeOf(f, v, true, n - 1), a);
    }
  }

  lemma PartsIn(f: Layout, v: Visit, a: Artifact)
    ensures Has(f, v, a) <==>
            || a == SessionBoundary(v.t.traceId, v.parent, v.kind)
            || a in TurnsArts(f, v.t, |v.t.turns|, v.pointer) || a in StepsArts(f, v.t, |v.t.steps|, v.pointer)
            || (v.t.success == Some(false) && v.t.error != "" && a == LogText(v.t.traceId, -1, Sub(v.pointer, f.error), v.t.error))
  {
  }

  lemma BlocksIn(f: Layout, v: Visit, a: Artifact)
    ensures Has(f, v, a) <==>
            || a == SessionBoundary(v.t.traceId, v.parent, v.kind)
            || (exists steps, i :: 0 <= i < |Blocks(v.t, steps)| && BlockHas(f, Blocks(v.t, steps)[i], ScopeOf(f, v, steps, i), a))
            || (v.t.success == Some(false) && v.t.error != "" && a == LogText(v.t.traceId, -1, Sub(v.pointer, f.error), v.t.error))
  {
    PartsIn(f, v, a);
    TurnsIn(f, v, |v.t.turns|, a);
    StepsIn(f, v, |v.t.steps|, a);
    assert Blocks(v.t, true) == v.t.steps && Blocks(v.t, false) == v.t.turns;
  }

  lemma BlockSplits(f: Layout, b: Block, s: Scope, a: Artifact)
    ensures BlockHas(f, b, s, a) <==> OfBlock(f, b, s, a) || exists u :: BlockChild(f, b, s, u) && Has(f, u, a)
  {
    if BlockHas(f, b, s, a) && !OfBlock(f, b, s, a) {
      var k :| 0 <= k < |b.ops| && OpHas(f, b, k, s, a);
      var u :| IsChild(f, b, k, s, u) && Has(f, u, a);
      assert BlockChild(f, b, s, u);
    }
    if u :| BlockChild(f, b, s, u) && Has(f, u, a) {
      var k :| 0 <= k < |b.ops| && IsChild(f, b, k, s, u);
      assert OpHas(f, b, k, s, a);
    }
    if k :| 0 <= k < |b.ops| && OfOp(f, b, k, s, a) {
      assert OpHas(f, b, k, s, a);
    }
  }

  /** A session's artifacts are its own and those of its child sessions. */
  lemma SessionIn(f: Layout, v: Visit, a: Artifact)
    ensures Has(f, v, a) <==> OfSession(f, v, a) || exists u :: ChildOf(f, v, u) && Has(f, u, a)
  {
    BlocksIn(f, v, a);
    forall steps, i | 0 <= i < |Blocks(v.t, steps)|
      ensures var b, s := Blocks(v.t, steps)[i], ScopeOf(f, v, steps, i);
              BlockHas(f, b, s, a) <==> OfBlock(f, b, s, a) || exists u :: BlockChild(f, b, s, u) && Has(f, u, a)
    {
      BlockSplits(f, Blocks(v.t, steps)[i], ScopeOf(f, v, steps, i), a);
    }
  }

  // ----- the artifacts of a tree -----

  lemma ChildIsSmaller(f: Layout, v: Visit, u: Visit)
    requires ChildOf(f, v, u)
    ensures u.t < v.t
  {
    var steps, i :| 0 <= i < |Blocks(v.t, steps)| && BlockChild(f, Blocks(v.t, steps)[i], ScopeOf(f, v, steps, i), u);
    var b := Blocks(v.t, steps)[i];
    var k :| 0 <= k < |b.ops| && IsChild(f, b, k, ScopeOf(f, v, steps, i), u);
  }

  /** What holds of a session exactly when it is the session's own or holds of a child. */
  ghost predicate Inherited(child: (Visit, Visit) -> bool, has: Visit -> bool, own: Visit -> bool) {
    && (forall v :: has(v) <==> own(v) || exists u :: child(v, u) && has(u))
    && (forall v, u | child(v, u) :: u.t < v.t)
  }

  lemma {:induction false} BelowHas(child: (Visit, Visit) -> bool, v: Visit, n: nat, u: Visit, has: Visit -> bool, own: Visit -> bool)
    requires Inherited(child, has, own) && Below(child, v, n, u) && own(u)
    ensures has(v)
    decreases n
  {
    if n > 0 {
      var w :| child(v, w) && Below(child, w, n - 1, u);
      BelowHas(child, w, n - 1, u, has, own);
    }
  }

  lemma {:induction false} HasBelow(child: (Visit, Visit) -> bool, v: Visit, has: Visit -> bool, own: Visit -> bool)
    returns (n: nat, u: Visit)
    requires Inherited(child, has, own) && has(v)
    ensures Below(child, v, n, u) && own(u)
    decreases v.t
  {
    if own(v) {
      n, u := 0, v;
    } else {
      var w :| child(v, w) && has(w);
      n, u := HasBelow(child, w, has, own);
      n := n + 1;
    }
  }

  lemma Inherit(child: (Visit, Visit) -> bool, v: Visit, has: Visit -> bool, own: Visit -> bool)
    requires Inherited(child, has, own)
    ensures has(v) <==> exists n: nat, u :: Below(child, v, n, u) && own(u)
  {
    if has(v) {
      var n, u := HasBelow(child, v, has, own);
      assert Below(child, v, n, u) && own(u);
    } else {
      forall n: nat, u | Below(child, v, n, u)
        ensures !own(u)
      {
        if own(u) {
          BelowHas(child, v, n, u, has, own);
        }
      }
    }
  }

  lemma ArtifactsInherited(f: Layout, a: Artifact)
    ensures Inherited(Children(f), w => Has(f, w, a), w => OfSession(f, w, a))
  {
    forall v
      ensures Has(f, v, a) <==> OfSession(f, v, a) || exists u :: Children(f)(v, u) && Has(f, u, a)
    {
      SessionIn(f, v, a);
      assert forall u :: Children(f)(v, u) <==> ChildOf(f, v, u);
    }
    forall v, u | Children(f)(v, u)
      ensures u.t < v.t
    {
      ChildIsSmaller(f, v, u);
    }
  }

  /** At any nesting: the extractor makes exactly the artifacts of the sessions in the tree, with these pointers. */
  lemma ArtifactsAre(f: Layout, v: Visit, a: Artifact)
    ensures Has(f, v, a) <==> exists n: nat, u :: Below(Children(f), v, n, u) && OfSession(f, u, a)
  {
    ArtifactsInherited(f, a);
    Inherit(Children(f), v, w => Has(f, w, a), w => OfSession(f, w, a));
  }

  /** The pointers in the words of the format: the lists, */
  lemma V2Elements(refs: Json -> bool, p: string, i: nat)
    ensures At(p, V2(refs).turns, i) == p + "/turns/" + Format(i)
    ensures At(p, V2(refs).steps, i) == p + "/steps/" + Format(i)
    ensures At(p, V2(refs).ops, i) == p + "/ops/" + Format(i)
    ensures At(p, V2(refs).logs, i) == p + "/logs/" + Format(i)
  {
    assert "/" + "turns" + "/" == "/turns/" && "/" + "steps" + "/" == "/steps/";
    assert "/" + "ops" + "/" == "/ops/" && "/" + "logs" + "/" == "/logs/";
  }

  /** the members, */
  lemma V2Members(refs: Json -> bool, p: string)
    ensures Sub(p, V2(refs).error) == p + "/error" && Sub(p, V2(refs).childSession) == p + "/childSession"
    ensures Sub(p, V2(refs).opTree) == p + "/opTree" && Sub(p, V2(refs).message) == p + "/message"
    ensures Sub(p, V2(refs).request) == p + "/request" && Sub(p, V2(refs).response) == p + "/response"
    ensures Sub(p, V2(refs).payload) == p + "/payload" && Sub(p, V2(refs).attributes) == p + "/attributes"
  {
  }

  /** and the kinds. */
  lemma V2Kinds(refs: Json -> bool)
    ensures V2(refs).failed == "failed" && V2(refs).llm == "llm" && V2(refs).reasoning == "reasoning"
    ensures V2(refs).subAgent == "sub_agent" && V2(refs).root == "root" && V2(refs).refs == refs
    ensures V2(refs).traceId == "traceId" && V2(refs).success == "success" && V2(refs).index == "index"
    ensures V2(refs).kind == "kind" && V2(refs).status == "status" && V2(refs).final == "final"
  {
  }

  // ----- how a tree follows from its document -----

  predicate MemberIs(j: Json, key: string, v: Json) { j.Obj? && key in j.fields && j.fields[key] == v }

  predicate NestedIs(j: Json, key: string, sub: string, v: Json) {
    j.Obj? && key in j.fields && MemberIs(j.fields[key], sub, v)
  }

  predicate ListIs(j: Json, key: string, items: seq<Json>) {
    MemberIs(j, key, Arr(items)) || (items == [] && !(j.Obj? && key in j.fields && j.fields[key].Arr?))
  }

  /** Texts are those of the members, payloads any value but those of a side that is absent, logs one for each entry of
      the list, and the child session the tree of its member. */
  lemma OpDecodes(f: Layout, j: Json)
    ensures var op := OperationOf(f, j);
            && (forall t | t != "" :: op.kind == t <==> MemberIs(j, f.kind, Str(t)))
            && (forall t | t != "" :: op.status == t <==> MemberIs(j, f.status, Str(t)))
            && (forall t | t != "" :: op.error == t <==> NestedIs(j, f.attributes, f.error, Str(t)))
            && (forall t | t != "" :: op.reasoning == t <==> NestedIs(j, f.reasoning, f.final, Str(t)))
            && (forall v :: op.request == Some(v) <==> NestedIs(j, f.request, f.payload, v))
            && (forall v :: op.response == Some(v) <==> NestedIs(j, f.response, f.payload, v))
            && (forall c | c != Null && MemberIs(j, f.childSession, c) :: op.child == Some(TreeOf(f, c)))
            && (op.child.Some? ==> j.Obj? && f.childSession in j.fields && j.fields[f.childSession] != Null)
  {
  }

  lemma LogsDecode(f: Layout, j: Json, items: seq<Json>)
    requires ListIs(j, f.logs, items)
    ensures var logs := OperationOf(f, j).logs;
            |logs| == |items| && forall i, t | 0 <= i < |items| && t != "" :: logs[i] == t <==> MemberIs(items[i], f.message, Str(t))
  {
  }

  /** A printed number reads as itself, with or without a minus. */
  lemma BlockDecodes(f: Layout, j: Json, items: seq<Json>)
    requires ListIs(j, f.ops, items)
    ensures var b := BlockOf(f, j);
            && |b.ops| == |items| && (forall i | 0 <= i < |items| :: b.ops[i] == OperationOf(f, items[i]))
            && (forall n: nat | MemberIs(j, f.index, Number(Format(n))) :: b.index == n)
            && (forall n: nat | MemberIs(j, f.index, Number("-" + Format(n))) :: b.index == 0 - n)
  {
    forall n: nat
      ensures IntText(Format(n)) == n && IntText("-" + Format(n)) == 0 - n
    {
      ValueOfFormat(n);
      var s := "-" + Format(n);
      assert s[1..] == Format(n) && !IsDigit(s[0]);
    }
  }

  lemma TreeDecodes(f: Layout, j: Json, turns: seq<Json>, steps: seq<Json>)
    requires ListIs(j, f.turns, turns) && ListIs(j, f.steps, steps)
    ensures var t := TreeOf(f, j);
            && (forall x | x != "" :: t.traceId == x <==> MemberIs(j, f.traceId, Str(x)))
            && (forall x | x != "" :: t.error == x <==> MemberIs(j, f.error, Str(x)))
            && (forall x :: t.success == Some(x) <==> MemberIs(j, f.success, Bool(x)))
            && |t.turns| == |turns| && (forall i | 0 <= i < |turns| :: t.turns[i] == BlockOf(f, turns[i]))
            && |t.steps| == |steps| && (forall i | 0 <= i < |steps| :: t.steps[i] == BlockOf(f, steps[i]))
  {
  }

  // ----- when recording fails -----

  ghost predicate HasOp(t: OpTree, op: Operation) {
    || (exists i :: 0 <= i < |t.turns| && op in t.turns[i].ops)
    || (exists i :: 0 <= i < |t.steps| && op in t.steps[i].ops)
  }

  /** The operation occurs n child sessions below t. */
  ghost predicate Occurs(t: OpTree, op: Operation, n: nat) {
    if n == 0 then HasOp(t, op)
    else exists o :: HasOp(t, o) && o.child.Some? && Occurs(o.child.value, op, n - 1)
  }

  /** Every operation below can be read, and none with a child session is nested 32 deep. */
  ghost predicate Readable(readable: Operation -> bool, t: OpTree, depth: nat) {
    forall op, n: nat | Occurs(t, op, n) :: readable(op) && (op.child.Some? ==> depth + n < 32)
  }

  lemma {:induction false} RecordableOccurs(readable: Operation -> bool, t: OpTree, depth: nat, op: Operation, n: nat)
    requires Recordable(readable, t, depth) && Occurs(t, op, n)
    ensures readable(op) && (op.child.Some? ==> depth + n < 32)
    decreases n
  {
    if n == 0 {
      DirectRecordable(readable, t, depth, op);
    } else {
      var o :| HasOp(t, o) && o.child.Some? && Occurs(o.child.value, op, n - 1);
      DirectRecordable(readable, t, depth, o);
      RecordableOccurs(readable, o.child.value, depth + 1, op, n - 1);
    }
  }

  lemma DirectRecordable(readable: Operation -> bool, t: OpTree, depth: nat, op: Operation)
    requires Recordable(readable, t, depth) && HasOp(t, op)
    ensures OpRecordable(readable, op, depth) && (op.child.Some? ==> depth < 32)
  {
    if i :| 0 <= i < |t.turns| && op in t.turns[i].ops {
      assert BlockRecordable(readable, t.turns[i], depth);
      var k :| 0 <= k < |t.turns[i].ops| && t.turns[i].ops[k] == op;
      assert OpRecordable(readable, op, depth);
    } else {
      var i :| 0 <= i < |t.steps| && op in t.steps[i].ops;
      assert BlockRecordable(readable, t.steps[i], depth);
      var k :| 0 <= k < |t.steps[i].ops| && t.steps[i].ops[k] == op;
    }
    assert op.child.Some? ==> Recordable(readable, op.child.value, depth + 1);
  }

  lemma {:induction false} ReadableRecords(readable: Operation -> bool, t: OpTree, depth: nat)
    requires Readable(readable, t, depth) && depth <= 32
    ensures Recordable(readable, t, depth)
    decreases t, 1
  {
    forall i | 0 <= i < |t.turns|
      ensures BlockRecordable(readable, t.turns[i], depth)
    {
      BlockRecords(readable, t, t.turns[i], depth);
    }
    forall i | 0 <= i < |t.steps|
      ensures BlockRecordable(readable, t.steps[i], depth)
    {
      BlockRecords(readable, t, t.steps[i], depth);
    }
  }

  lemma {:induction false} BlockRecords(readable: Operation -> bool, t: OpTree, b: Block, depth: nat)
    requires Readable(readable, t, depth) && depth <= 32 && forall op | op in b.ops :: HasOp(t, op)
    ensures BlockRecordable(readable, b, depth)
    decreases b, 0
  {
    forall k | 0 <= k < |b.ops|
      ensures OpRecordable(readable, b.ops[k], depth)
    {
      var o := b.ops[k];
      assert Occurs(t, o, 0);
      if o.child.Some? {
        forall op, n: nat | Occurs(o.child.value, op, n)
          ensures readable(op) && (op.child.Some? ==> depth + 1 + n < 32)
        {
          assert Occurs(t, op, n + 1);
        }
        ReadableRecords(readable, o.child.value, depth + 1);
      }
    }
  }

  /** The extractor gets through a tree if and only if every operation in it, at any nesting, can be read, and no child
      session is nested more than 32 deep. */
  lemma RecordableIff(readable: Operation -> bool, t: OpTree)
    ensures Recordable(readable, t, 0) <==> Readable(readable, t, 0)
  {
    if Recordable(readable, t, 0) {
      forall op, n: nat | Occurs(t, op, n)
        ensures readable(op) && (op.child.Some? ==> 0 + n < 32)
      {
        RecordableOccurs(readable, t, 0, op, n);
      }
    } else if Readable(readable, t, 0) {
      ReadableRecords(readable, t, 0);
    }
  }
}
