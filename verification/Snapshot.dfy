/** The ai-agent v2 snapshot extractor (internal/parity/aiagent_v2_source_structural.go, _logs.go, _payload.go):
    which artifacts it makes of an operation tree, with which JSON pointers. */
module Snapshot {
  import opened Options
  import opened Decimals
  import opened JsonPointer

  /** The member names and values of the format, and whether a payload refers to payload files instead of
      holding the payload itself. */
  datatype Layout = Layout(
    opTree: string, traceId: string, success: string, error: string, turns: string, steps: string,
    index: string, ops: string, kind: string, status: string, attributes: string, logs: string, message: string,
    reasoning: string, final: string, request: string, response: string, payload: string, childSession: string,
    failed: string, llm: string, root: string, subAgent: string,
    refs: Json -> bool)

  function V2(refs: Json -> bool): Layout {
    Layout("opTree", "traceId", "success", "error", "turns", "steps",
           "index", "ops", "kind", "status", "attributes", "logs", "message",
           "reasoning", "final", "request", "response", "payload", "childSession",
           "failed", "llm", "root", "sub_agent",
           refs)
  }

  // ----- the decoded tree -----

  datatype OpTree = OpTree(traceId: string, success: Option<bool>, error: string, turns: seq<Block>, steps: seq<Block>)

  /** A turn or a step. */
  datatype Block = Block(index: int, ops: seq<Operation>)

  datatype Operation = Operation(
    kind: string,
    status: string,
    error: string,
    logs: seq<string>,
    reasoning: string,
    request: Option<Json>,
    response: Option<Json>,
    child: Option<OpTree>)

  function Field(j: Json, key: string): (r: Option<Json>) {
    if j.Obj? && key in j.fields && j.fields[key] != Null then Some(j.fields[key]) else None
  }

  function StrField(j: Json, key: string): string {
    if j.Obj? && key in j.fields && j.fields[key].Str? then j.fields[key].text else ""
  }

  function BoolField(j: Json, key: string): Option<bool> {
    if j.Obj? && key in j.fields && j.fields[key].Bool? then Some(j.fields[key].flag) else None
  }

  function ArrField(j: Json, key: string): (r: seq<Json>)
  {
    if j.Obj? && key in j.fields && j.fields[key].Arr? then j.fields[key].items else []
  }

  function SubStr(j: Json, key: string, sub: string): string {
    var g := Field(j, key);
    if g.Some? then StrField(g.value, sub) else ""
  }

  function IntText(s: string): int {
    if Decimal(s) then Value(s) else if |s| > 1 && s[0] == '-' && Decimal(s[1..]) then -(Value(s[1..]) as int) else 0
  }

  function IntField(j: Json, key: string): int {
    if j.Obj? && key in j.fields && j.fields[key].Number? then IntText(j.fields[key].text) else 0
  }

  /** The payload of a request or response: any JSON value, null included, or absent. */
  function PayloadField(f: Layout, j: Json, side: string): Option<Json> {
    var g := Field(j, side);
    if g.Some? && g.value.Obj? && f.payload in g.value.fields then Some(g.value.fields[f.payload]) else None
  }

  /** Decoding a parsed document. A member that is absent or null reads as zero; so does one of the wrong type,
      for which the decoder itself fails and nothing is extracted. */
  function TreeOf(f: Layout, j: Json): OpTree
    decreases j, 1
  {
    OpTree(StrField(j, f.traceId), BoolField(j, f.success), StrField(j, f.error),
           if j.Obj? && f.turns in j.fields && j.fields[f.turns].Arr? then BlocksOf(f, j.fields[f.turns]) else [],
           if j.Obj? && f.steps in j.fields && j.fields[f.steps].Arr? then BlocksOf(f, j.fields[f.steps]) else [])
  }

  function BlocksOf(f: Layout, j: Json): (r: seq<Block>)
    requires j.Arr?
    ensures |r| == |j.items| && forall i | 0 <= i < |r| :: r[i] == BlockOf(f, j.items[i])
    decreases j, 0
  {
    seq(|j.items|, i requires 0 <= i < |j.items| => BlockOf(f, j.items[i]))
  }

  function BlockOf(f: Layout, j: Json): Block
    decreases j, 1
  {
    Block(IntField(j, f.index), if j.Obj? && f.ops in j.fields && j.fields[f.ops].Arr? then OpsOf(f, j.fields[f.ops]) else [])
  }

  function OpsOf(f: Layout, j: Json): (r: seq<Operation>)
    requires j.Arr?
    ensures |r| == |j.items| && forall i | 0 <= i < |r| :: r[i] == OperationOf(f, j.items[i])
    decreases j, 0
  {
    seq(|j.items|, i requires 0 <= i < |j.items| => OperationOf(f, j.items[i]))
  }

  function OperationOf(f: Layout, j: Json): Operation
    decreases j, 1
  {
    Operation(StrField(j, f.kind), StrField(j, f.status), SubStr(j, f.attributes, f.error),
              LogsOf(f, ArrField(j, f.logs)), SubStr(j, f.reasoning, f.final),
              PayloadField(f, j, f.request), PayloadField(f, j, f.response),
              if j.Obj? && f.childSession in j.fields && j.fields[f.childSession] != Null
              then Some(TreeOf(f, j.fields[f.childSession])) else None)
  }

  function LogsOf(f: Layout, items: seq<Json>): (r: seq<string>)
    ensures |r| == |items| && forall i | 0 <= i < |r| :: r[i] == StrField(items[i], f.message)
  {
    seq(|items|, i requires 0 <= i < |items| => StrField(items[i], f.message))
  }

  // ----- the artifacts, in order -----

  const STEP_INDEX_OFFSET := 10000
  const MAX_CHILD_DEPTH := 32

  /** Boundaries, and what carries a JSON pointer; the artifacts without one are not listed. */
  datatype Artifact =
    | SessionBoundary(trace: string, parent: string, kind: string)
    | TurnBoundary(trace: string, turnSeq: int)
    | OpBoundary(trace: string, turnSeq: int, opSeq: nat, kind: string)
    | LogText(trace: string, turnSeq: int, pointer: string, text: string)
    | InlinePayload(trace: string, turnSeq: int, pointer: string, value: Json)

  datatype Scope = Scope(trace: string, turnSeq: int, pointer: string)

  function Sub(p: string, key: string): string {
    p + "/" + key
  }

  function At(p: string, key: string, i: nat): string {
    p + "/" + key + "/" + Format(i)
  }

  function InlineArts(f: Layout, payload: Option<Json>, side: string, scope: Scope, opPointer: string): seq<Artifact> {
    if payload.Some? && !f.refs(payload.value)
    then [InlinePayload(scope.trace, scope.turnSeq, Sub(Sub(opPointer, side), f.payload), payload.value)] else []
  }

  function LogArts(f: Layout, logs: seq<string>, n: nat, scope: Scope, opPointer: string): seq<Artifact>
    requires n <= |logs|
  {
    if n == 0 then []
    else LogArts(f, logs, n - 1, scope, opPointer)
         + [LogText(scope.trace, scope.turnSeq, Sub(At(opPointer, f.logs, n - 1), f.message), logs[n - 1])]
  }

  function FailedLogArts(f: Layout, op: Operation, scope: Scope, opPointer: string): seq<Artifact> {
    if op.status == f.failed && op.error != ""
    then [LogText(scope.trace, scope.turnSeq, Sub(Sub(opPointer, f.attributes), f.error), op.error)] else []
  }

  function OpArts(f: Layout, op: Operation, scope: Scope, opSeq: nat, opPointer: string): seq<Artifact> {
    [OpBoundary(scope.trace, scope.turnSeq, opSeq, op.kind)]
    + InlineArts(f, op.request, f.request, scope, opPointer) + InlineArts(f, op.response, f.response, scope, opPointer)
    + LogArts(f, op.logs, |op.logs|, scope, opPointer) + FailedLogArts(f, op, scope, opPointer)
  }

  predicate HasReasoning(f: Layout, op: Operation) {
    op.kind == f.llm && op.reasoning != ""
  }

  /** Reasoning operations are numbered after the recorded ones. */
  function ReasoningBefore(f: Layout, ops: seq<Operation>, n: nat): nat
    requires n <= |ops|
  {
    if n == 0 then 0 else ReasoningBefore(f, ops, n - 1) + if HasReasoning(f, ops[n - 1]) then 1 else 0
  }

  function ReasoningArts(f: Layout, b: Block, n: nat, scope: Scope): seq<Artifact>
    requires n < |b.ops|
  {
    if HasReasoning(f, b.ops[n])
    then [OpBoundary(scope.trace, scope.turnSeq, |b.ops| + ReasoningBefore(f, b.ops, n), f.reasoning)] else []
  }

  /** One operation, the reasoning operation split from it, and its child session. */
  function OpItemArts(f: Layout, b: Block, i: nat, scope: Scope): seq<Artifact>
    requires i < |b.ops|
    decreases b, 0
  {
    var op, opPointer := b.ops[i], At(scope.pointer, f.ops, i);
    OpArts(f, op, scope, i, opPointer) + ReasoningArts(f, b, i, scope) + ChildArts(f, op, scope, opPointer)
  }

  function OpsArts(f: Layout, b: Block, n: nat, scope: Scope): seq<Artifact>
    requires n <= |b.ops|
    decreases b, 1, n
  {
    if n == 0 then [] else OpsArts(f, b, n - 1, scope) + OpItemArts(f, b, n - 1, scope)
  }

  function ChildArts(f: Layout, op: Operation, scope: Scope, opPointer: string): seq<Artifact>
    decreases op, 0
  {
    if op.child.Some? then SessionArts(f, op.child.value, scope.trace, f.subAgent, Sub(opPointer, f.childSession)) else []
  }

  function BlockArts(f: Layout, b: Block, scope: Scope): seq<Artifact>
    decreases b, 2
  {
    [TurnBoundary(scope.trace, scope.turnSeq)] + OpsArts(f, b, |b.ops|, scope)
  }

  function TurnsArts(f: Layout, t: OpTree, n: nat, p: string): seq<Artifact>
    requires n <= |t.turns|
    decreases t, 0, n
  {
    if n == 0 then []
    else
      var b := t.turns[n - 1];
      TurnsArts(f, t, n - 1, p) + BlockArts(f, b, Scope(t.traceId, b.index, At(p, f.turns, n - 1)))
  }

  /** Steps are turns numbered from an offset. */
  function StepsArts(f: Layout, t: OpTree, n: nat, p: string): seq<Artifact>
    requires n <= |t.steps|
    decreases t, 0, n
  {
    if n == 0 then []
    else
      var b := t.steps[n - 1];
      StepsArts(f, t, n - 1, p) + BlockArts(f, b, Scope(t.traceId, STEP_INDEX_OFFSET + b.index, At(p, f.steps, n - 1)))
  }

  function ErrorArts(f: Layout, t: OpTree, p: string): seq<Artifact> {
    if t.success == Some(false) && t.error != "" then [LogText(t.traceId, -1, Sub(p, f.error), t.error)] else []
  }

  function SessionArts(f: Layout, t: OpTree, parent: string, kind: string, p: string): seq<Artifact>
    decreases t, 1
  {
    [SessionBoundary(t.traceId, parent, kind)] + TurnsArts(f, t, |t.turns|, p) + StepsArts(f, t, |t.steps|, p)
    + ErrorArts(f, t, p)
  }

  // ----- every pointer resolves -----

  /** Slices are shorter than the largest int. */
  ghost predicate Fits(j: Json) {
    match j
    case Arr(items) => |items| < MAX_INT && forall i | 0 <= i < |items| :: Fits(items[i])
    case Obj(fields) => forall k | k in fields :: Fits(fields[k])
    case _ => true
  }

  /** What it takes to follow pointers: from an object to a member, from an array member to an element. */
  type Path = (string, Json) -> bool

  ghost predicate Follows(leads: Path) {
    && (forall p, j, key | leads(p, j) && j.Obj? && key in j.fields && Plain(key) :: leads(Sub(p, key), j.fields[key]))
    && (forall p, j, key, i: nat | leads(p, j) && j.Obj? && key in j.fields && j.fields[key].Arr? && Plain(key)
                              && i < |j.fields[key].items| && i < MAX_INT :: leads(At(p, key, i), j.fields[key].items[i]))
  }

  predicate Plain(s: string) {
    forall i | 0 <= i < |s| :: s[i] != '~' && s[i] != '/'
  }

  /** No name that occurs in a pointer needs escaping. */
  predicate PlainKeys(f: Layout) {
    && Plain(f.opTree) && Plain(f.error) && Plain(f.turns) && Plain(f.steps) && Plain(f.ops) && Plain(f.attributes)
    && Plain(f.logs) && Plain(f.message) && Plain(f.request) && Plain(f.response) && Plain(f.payload) && Plain(f.childSession)
  }

  lemma PlainEscape(s: string)
    requires Plain(s)
    ensures Escape(s) == s
  {
    PlainText(s);
  }

  /** The artifact's pointer leads to exactly the artifact's value. A log with an empty text may also stand for a
      message that is absent, null or not text. */
  predicate Resolves(leads: Path, a: Artifact) {
    match a
    case LogText(_, _, p, text) => text == "" || leads(p, Str(text))
    case InlinePayload(_, _, p, value) => leads(p, value)
    case _ => true
  }

  predicate AllResolve(leads: Path, arts: seq<Artifact>) {
    forall i | 0 <= i < |arts| :: Resolves(leads, arts[i])
  }

  lemma ResolveAppend(leads: Path, a: seq<Artifact>, b: seq<Artifact>)
    requires AllResolve(leads, a) && AllResolve(leads, b)
    ensures AllResolve(leads, a + b)
  {
  }

  lemma ToMember(leads: Path, p: string, j: Json, key: string)
    requires Follows(leads) && leads(p, j) && j.Obj? && key in j.fields && Plain(key)
    ensures leads(Sub(p, key), j.fields[key])
  {
  }

  lemma ToElement(leads: Path, p: string, j: Json, key: string, i: nat)
    requires Follows(leads) && leads(p, j) && Fits(j) && Plain(key) && j.Obj? && key in j.fields && j.fields[key].Arr?
    requires i < |j.fields[key].items|
    ensures leads(At(p, key, i), j.fields[key].items[i]) && Fits(j.fields[key].items[i])
  {
    assert Fits(j.fields[key]);
  }

  lemma InlineResolves(f: Layout, leads: Path, j: Json, p: string, side: string, scope: Scope)
    requires PlainKeys(f) && Follows(leads) && leads(p, j) && Plain(side)
    ensures AllResolve(leads, InlineArts(f, PayloadField(f, j, side), side, scope, p))
  {
    if PayloadField(f, j, side).Some? {
      ToMember(leads, p, j, side);
      ToMember(leads, Sub(p, side), j.fields[side], f.payload);
    }
  }

  lemma {:induction false} LogsResolve(f: Layout, leads: Path, j: Json, p: string, n: nat, scope: Scope)
    requires PlainKeys(f) && Follows(leads) && leads(p, j) && Fits(j) && n <= |OperationOf(f, j).logs|
    ensures AllResolve(leads, LogArts(f, OperationOf(f, j).logs, n, scope, p))
  {
    if n > 0 {
      LogsResolve(f, leads, j, p, n - 1, scope);
      ToElement(leads, p, j, f.logs, n - 1);
      var log := j.fields[f.logs].items[n - 1];
      if StrField(log, f.message) != "" {
        ToMember(leads, At(p, f.logs, n - 1), log, f.message);
      }
    }
  }

  lemma FailedLogResolves(f: Layout, leads: Path, j: Json, p: string, scope: Scope)
    requires PlainKeys(f) && Follows(leads) && leads(p, j)
    ensures AllResolve(leads, FailedLogArts(f, OperationOf(f, j), scope, p))
  {
    if OperationOf(f, j).error != "" {
      ToMember(leads, p, j, f.attributes);
      ToMember(leads, Sub(p, f.attributes), j.fields[f.attributes], f.error);
    }
  }

  lemma OpResolves(f: Layout, leads: Path, j: Json, p: string, scope: Scope, opSeq: nat)
    requires PlainKeys(f) && Follows(leads) && leads(p, j) && Fits(j)
    ensures AllResolve(leads, OpArts(f, OperationOf(f, j), scope, opSeq, p))
  {
    InlineResolves(f, leads, j, p, f.request, scope);
    InlineResolves(f, leads, j, p, f.response, scope);
    LogsResolve(f, leads, j, p, |OperationOf(f, j).logs|, scope);
    FailedLogResolves(f, leads, j, p, scope);
  }

  lemma {:induction false} OpItemResolves(f: Layout, leads: Path, j: Json, i: nat, scope: Scope)
    requires PlainKeys(f) && Follows(leads) && leads(scope.pointer, j) && Fits(j) && i < |BlockOf(f, j).ops|
    ensures AllResolve(leads, OpItemArts(f, BlockOf(f, j), i, scope))
    decreases j, 0
  {
    ToElement(leads, scope.pointer, j, f.ops, i);
    var jop, opPointer := j.fields[f.ops].items[i], At(scope.pointer, f.ops, i);
    var op := OperationOf(f, jop);
    assert BlockOf(f, j).ops[i] == op;
    OpResolves(f, leads, jop, opPointer, scope, i);
    ChildResolves(f, leads, jop, opPointer, scope);
    ResolveAppend(leads, OpArts(f, op, scope, i, opPointer), ReasoningArts(f, BlockOf(f, j), i, scope));
    ResolveAppend(leads, OpArts(f, op, scope, i, opPointer) + ReasoningArts(f, BlockOf(f, j), i, scope),
                  ChildArts(f, op, scope, opPointer));
  }

  lemma {:induction false} OpsResolve(f: Layout, leads: Path, j: Json, n: nat, scope: Scope)
    requires PlainKeys(f) && Follows(leads) && leads(scope.pointer, j) && Fits(j) && n <= |BlockOf(f, j).ops|
    ensures AllResolve(leads, OpsArts(f, BlockOf(f, j), n, scope))
    decreases j, 1, n
  {
    if n > 0 {
      OpsResolve(f, leads, j, n - 1, scope);
      OpItemResolves(f, leads, j, n - 1, scope);
      ResolveAppend(leads, OpsArts(f, BlockOf(f, j), n - 1, scope), OpItemArts(f, BlockOf(f, j), n - 1, scope));
    }
  }

  lemma BlockResolves(f: Layout, leads: Path, j: Json, scope: Scope)
    requires PlainKeys(f) && Follows(leads) && leads(scope.pointer, j) && Fits(j)
    ensures AllResolve(leads, BlockArts(f, BlockOf(f, j), scope))
    decreases j, 2
  {
    OpsResolve(f, leads, j, |BlockOf(f, j).ops|, scope);
    ResolveAppend(leads, [TurnBoundary(scope.trace, scope.turnSeq)], OpsArts(f, BlockOf(f, j), |BlockOf(f, j).ops|, scope));
  }

  lemma {:induction false} ChildResolves(f: Layout, leads: Path, j: Json, p: string, scope: Scope)
    requires PlainKeys(f) && Follows(leads) && leads(p, j) && Fits(j)
    ensures AllResolve(leads, ChildArts(f, OperationOf(f, j), scope, p))
    decreases j, 0
  {
    if OperationOf(f, j).child.Some? {
      ToMember(leads, p, j, f.childSession);
      assert Fits(j.fields[f.childSession]);
      SessionResolves(f, leads, j.fields[f.childSession], scope.trace, f.subAgent, Sub(p, f.childSession));
    }
  }

  lemma {:induction false} TurnsResolve(f: Layout, leads: Path, j: Json, n: nat, p: string)
    requires PlainKeys(f) && Follows(leads) && leads(p, j) && Fits(j) && n <= |TreeOf(f, j).turns|
    ensures AllResolve(leads, TurnsArts(f, TreeOf(f, j), n, p))
    decreases j, 0, n
  {
    if n > 0 {
      var t := TreeOf(f, j);
      var scope := Scope(t.traceId, t.turns[n - 1].index, At(p, f.turns, n - 1));
      TurnsResolve(f, leads, j, n - 1, p);
      ToElement(leads, p, j, f.turns, n - 1);
      BlockResolves(f, leads, j.fields[f.turns].items[n - 1], scope);
      ResolveAppend(leads, TurnsArts(f, t, n - 1, p), BlockArts(f, t.turns[n - 1], scope));
    }
  }

  lemma {:induction false} StepsResolve(f: Layout, leads: Path, j: Json, n: nat, p: string)
    requires PlainKeys(f) && Follows(leads) && leads(p, j) && Fits(j) && n <= |TreeOf(f, j).steps|
    ensures AllResolve(leads, StepsArts(f, TreeOf(f, j), n, p))
    decreases j, 0, n
  {
    if n > 0 {
      var t := TreeOf(f, j);
      var scope := Scope(t.traceId, STEP_INDEX_OFFSET + t.steps[n - 1].index, At(p, f.steps, n - 1));
      StepsResolve(f, leads, j, n - 1, p);
      ToElement(leads, p, j, f.steps, n - 1);
      BlockResolves(f, leads, j.fields[f.steps].items[n - 1], scope);
      ResolveAppend(leads, StepsArts(f, t, n - 1, p), BlockArts(f, t.steps[n - 1], scope));
    }
  }

  lemma ErrorResolves(f: Layout, leads: Path, j: Json, p: string)
    requires PlainKeys(f) && Follows(leads) && leads(p, j)
    ensures AllResolve(leads, ErrorArts(f, TreeOf(f, j), p))
  {
    if ErrorArts(f, TreeOf(f, j), p) != [] {
      ToMember(leads, p, j, f.error);
    }
  }

  /** At any nesting of child sessions, turns, steps, operations and logs. */
  lemma {:induction false} SessionResolves(f: Layout, leads: Path, j: Json, parent: string, kind: string, p: string)
    requires PlainKeys(f) && Follows(leads) && leads(p, j) && Fits(j)
    ensures AllResolve(leads, SessionArts(f, TreeOf(f, j), parent, kind, p))
    decreases j, 1
  {
    TurnsResolve(f, leads, j, |TreeOf(f, j).turns|, p);
    StepsResolve(f, leads, j, |TreeOf(f, j).steps|, p);
    ErrorResolves(f, leads, j, p);
  }

  /** JSON pointers follow. */
  lemma PointersFollow(doc: Json)
    ensures Follows((p, j) => WellFormed(p) && PointerValue(doc, p) == Ok(j))
  {
    var leads := (p, j) => WellFormed(p) && PointerValue(doc, p) == Ok(j);
    forall p, j, key | leads(p, j) && j.Obj? && key in j.fields && Plain(key)
      ensures leads(Sub(p, key), j.fields[key])
    {
      PlainEscape(key);
      Member(doc, p, key);
    }
    forall p, j, key, i: nat | leads(p, j) && j.Obj? && key in j.fields && j.fields[key].Arr? && Plain(key)
                          && i < |j.fields[key].items| && i < MAX_INT
      ensures leads(At(p, key, i), j.fields[key].items[i])
    {
      PlainEscape(key);
      Member(doc, p, key);
      Element(doc, Sub(p, key), i);
    }
  }

  /** The snapshot document holds the root session under "opTree". Every pointer the extractor emits, at any
      nesting, leads in the document to exactly the value it is emitted with. */
  lemma SnapshotResolves(f: Layout, doc: Json)
    requires PlainKeys(f) && doc.Obj? && f.opTree in doc.fields && Fits(doc)
    ensures AllResolve((p, j) => WellFormed(p) && PointerValue(doc, p) == Ok(j),
                       SessionArts(f, TreeOf(f, doc.fields[f.opTree]), "", f.root, Sub("", f.opTree)))
  {
    var leads := (p, j) => WellFormed(p) && PointerValue(doc, p) == Ok(j);
    PointersFollow(doc);
    assert leads("", doc);
    ToMember(leads, "", doc, f.opTree);
    SessionResolves(f, leads, doc.fields[f.opTree], "", f.root, Sub("", f.opTree));
  }

  lemma PlainWords()
    ensures Plain("opTree") && Plain("error") && Plain("turns") && Plain("steps") && Plain("ops") && Plain("attributes")
    ensures Plain("logs") && Plain("message") && Plain("request") && Plain("response") && Plain("payload") && Plain("childSession")
  {
  }

  /** The same for the format as it is. */
  lemma V2SnapshotResolves(refs: Json -> bool, doc: Json)
    requires doc.Obj? && V2(refs).opTree in doc.fields && Fits(doc)
    ensures AllResolve((p, j) => WellFormed(p) && PointerValue(doc, p) == Ok(j),
                       SessionArts(V2(refs), TreeOf(V2(refs), doc.fields[V2(refs).opTree]), "", V2(refs).root,
                                   Sub("", V2(refs).opTree)))
  {
    PlainWords();
    SnapshotResolves(V2(refs), doc);
  }

  /** A log's pointer leads to its text exactly when the log has a message and it is text. The extractor emits the
      pointer for every log (internal/parity/aiagent_v2_source_logs.go:9-13). */
  lemma LogResolvesIff(f: Layout, doc: Json, j: Json, p: string, i: nat)
    requires PlainKeys(f) && f.message != "" && !IsDigit(f.message[0])
    requires WellFormed(p) && PointerValue(doc, p) == Ok(j) && Fits(j) && i < |OperationOf(f, j).logs|
    ensures var log := j.fields[f.logs].items[i];
            PointerValue(doc, Sub(At(p, f.logs, i), f.message)) == Ok(Str(OperationOf(f, j).logs[i]))
            <==> log.Obj? && f.message in log.fields && log.fields[f.message].Str?
  {
    LogLeads(f, doc, j, p, i);
    MessageIff(doc, At(p, f.logs, i), j.fields[f.logs].items[i], f.message);
  }

  lemma LogLeads(f: Layout, doc: Json, j: Json, p: string, i: nat)
    requires PlainKeys(f) && WellFormed(p) && PointerValue(doc, p) == Ok(j) && Fits(j) && i < |OperationOf(f, j).logs|
    ensures WellFormed(At(p, f.logs, i)) && PointerValue(doc, At(p, f.logs, i)) == Ok(j.fields[f.logs].items[i])
  {
    var leads := (p, j) => WellFormed(p) && PointerValue(doc, p) == Ok(j);
    PointersFollow(doc);
    ToElement(leads, p, j, f.logs, i);
  }

  lemma MessageIff(doc: Json, p: string, log: Json, key: string)
    requires WellFormed(p) && PointerValue(doc, p) == Ok(log) && Plain(key) && key != "" && !IsDigit(key[0])
    ensures PointerValue(doc, Sub(p, key)) == Ok(Str(StrField(log, key))) <==> log.Obj? && key in log.fields && log.fields[key].Str?
  {
    if log.Obj? {
      PlainEscape(key);
      Member(doc, p, key);
    } else {
      NotAnObject(doc, p, key);
    }
  }

  lemma NotAnObject(doc: Json, p: string, key: string)
    requires Plain(key) && WellFormed(p) && PointerValue(doc, p).Ok? && !PointerValue(doc, p).value.Obj?
    requires key != "" && !IsDigit(key[0])
    ensures PointerValue(doc, Sub(p, key)).Err?
  {
    PlainText(key);
    ThenToken(doc, p, key);
  }

  // ----- operation numbers -----

  lemma {:induction false} ReasoningGrows(f: Layout, ops: seq<Operation>, i: nat, k: nat)
    requires i < k <= |ops| && HasReasoning(f, ops[i])
    ensures ReasoningBefore(f, ops, i) < ReasoningBefore(f, ops, k)
  {
    if k > i + 1 {
      ReasoningGrows(f, ops, i, k - 1);
    }
  }

  /** The number of an operation of the block, or of the reasoning operation split from it. */
  function NumberOf(f: Layout, b: Block, i: nat, reasoning: bool): nat
    requires i < |b.ops|
  {
    if reasoning then |b.ops| + ReasoningBefore(f, b.ops, i) else i
  }

  /** Within a turn no two recorded operations get the same number, so their native ids differ. */
  lemma NumbersDiffer(f: Layout, b: Block, i: nat, k: nat, ri: bool, rk: bool)
    requires i < |b.ops| && k < |b.ops| && (ri ==> HasReasoning(f, b.ops[i])) && (rk ==> HasReasoning(f, b.ops[k]))
    ensures NumberOf(f, b, i, ri) == NumberOf(f, b, k, rk) <==> i == k && ri == rk
  {
    if ri && rk {
      if i < k {
        ReasoningGrows(f, b.ops, i, k);
      } else if k < i {
        ReasoningGrows(f, b.ops, k, i);
      }
    }
  }

  // ----- the extractor -----

  /** No child session is nested deeper than the cap, and every operation above the cap passes the test of its payload
      files, payload references and attributes. */
  predicate Recordable(readable: Operation -> bool, t: OpTree, depth: nat)
    decreases t, 1
  {
    && depth <= MAX_CHILD_DEPTH
    && (forall i | 0 <= i < |t.turns| :: BlockRecordable(readable, t.turns[i], depth))
    && (forall i | 0 <= i < |t.steps| :: BlockRecordable(readable, t.steps[i], depth))
  }

  predicate BlockRecordable(readable: Operation -> bool, b: Block, depth: nat)
    decreases b, 0
  {
    forall i | 0 <= i < |b.ops| :: OpRecordable(readable, b.ops[i], depth)
  }

  predicate OpRecordable(readable: Operation -> bool, op: Operation, depth: nat)
    decreases op, 0
  {
    readable(op) && (op.child.Some? ==> Recordable(readable, op.child.value, depth + 1))
  }

  lemma OpsNext(f: Layout, now: seq<Artifact>, before: seq<Artifact>, b: Block, i: nat, scope: Scope)
    requires i < |b.ops| && now == before + OpsArts(f, b, i, scope)
    ensures now + OpItemArts(f, b, i, scope) == before + OpsArts(f, b, i + 1, scope)
  {
  }

  class SourceState {
    const f: Layout
    /** Whether an operation's payload files, payload references and attributes can be read. */
    const readable: Operation -> bool
    var artifacts: seq<Artifact>

    constructor (f: Layout, readable: Operation -> bool)
      ensures this.f == f && this.readable == readable && artifacts == []
    {
      this.f, this.readable, artifacts := f, readable, [];
    }

    method RecordPayload(payload: Option<Json>, side: string, scope: Scope, opPointer: string)
      modifies this
      ensures artifacts == old(artifacts) + InlineArts(f, payload, side, scope, opPointer)
    {
      if payload.Some? && !f.refs(payload.value) {
        artifacts := artifacts + [InlinePayload(scope.trace, scope.turnSeq, Sub(Sub(opPointer, side), f.payload), payload.value)];
      }
    }

    method RecordOpLogs(op: Operation, scope: Scope, opPointer: string)
      modifies this
      ensures artifacts == old(artifacts) + LogArts(f, op.logs, |op.logs|, scope, opPointer)
    {
      var i := 0;
      while i < |op.logs|
        invariant i <= |op.logs| && artifacts == old(artifacts) + LogArts(f, op.logs, i, scope, opPointer)
      {
        artifacts := artifacts + [LogText(scope.trace, scope.turnSeq, Sub(At(opPointer, f.logs, i), f.message), op.logs[i])];
        i := i + 1;
      }
    }

    method RecordFailedOpLog(op: Operation, scope: Scope, opPointer: string)
      modifies this
      ensures artifacts == old(artifacts) + FailedLogArts(f, op, scope, opPointer)
    {
      if op.status != f.failed || op.error == "" {
        return;
      }
      artifacts := artifacts + [LogText(scope.trace, scope.turnSeq, Sub(Sub(opPointer, f.attributes), f.error), op.error)];
    }

    method RecordOp(op: Operation, scope: Scope, opSeq: nat, opPointer: string) returns (ok: bool)
      modifies this
      ensures ok <==> readable(op)
      ensures ok ==> artifacts == old(artifacts) + OpArts(f, op, scope, opSeq, opPointer)
    {
      artifacts := artifacts + [OpBoundary(scope.trace, scope.turnSeq, opSeq, op.kind)];
      ok := readable(op);
      if !ok {
        return;
      }
      RecordPayload(op.request, f.request, scope, opPointer);
      RecordPayload(op.response, f.response, scope, opPointer);
      RecordOpLogs(op, scope, opPointer);
      RecordFailedOpLog(op, scope, opPointer);
    }

    method RecordReasoningOp(b: Block, i: nat, scope: Scope, nextReasoningSeq: nat)
      requires i < |b.ops| && nextReasoningSeq == |b.ops| + ReasoningBefore(f, b.ops, i)
      modifies this
      ensures artifacts == old(artifacts) + ReasoningArts(f, b, i, scope)
    {
      if HasReasoning(f, b.ops[i]) {
        artifacts := artifacts + [OpBoundary(scope.trace, scope.turnSeq, nextReasoningSeq, f.reasoning)];
      }
    }

    method RecordChild(op: Operation, scope: Scope, opPointer: string, depth: nat) returns (ok: bool)
      modifies this
      ensures ok <==> (op.child.Some? ==> Recordable(readable, op.child.value, depth + 1))
      ensures ok ==> artifacts == old(artifacts) + ChildArts(f, op, scope, opPointer)
      decreases op, 2
    {
      ok := true;
      if op.child.Some? {
        ok := RecordSession(op.child.value, scope.trace, f.subAgent, Sub(opPointer, f.childSession), depth + 1);
      }
    }

    /** The body of the loop over a turn's operations. */
    method RecordOpItem(b: Block, i: nat, scope: Scope, nextReasoningSeq: nat, depth: nat) returns (ok: bool)
      requires i < |b.ops| && nextReasoningSeq == |b.ops| + ReasoningBefore(f, b.ops, i)
      modifies this
      ensures ok <==> OpRecordable(readable, b.ops[i], depth)
      ensures ok ==> artifacts == old(artifacts) + OpItemArts(f, b, i, scope)
      decreases b, 0
    {
      var op, opPointer := b.ops[i], At(scope.pointer, f.ops, i);
      ok := RecordOp(op, scope, i, opPointer);
      if !ok {
        return;
      }
      RecordReasoningOp(b, i, scope, nextReasoningSeq);
      ok := RecordChild(op, scope, opPointer, depth);
    }

    method RecordOps(b: Block, scope: Scope, depth: nat) returns (ok: bool)
      modifies this
      ensures ok <==> BlockRecordable(readable, b, depth)
      ensures ok ==> artifacts == old(artifacts) + OpsArts(f, b, |b.ops|, scope)
      decreases b, 1
    {
      var nextReasoningSeq := |b.ops|;
      var i := 0;
      while i < |b.ops|
        invariant i <= |b.ops| && nextReasoningSeq == |b.ops| + ReasoningBefore(f, b.ops, i)
        invariant artifacts == old(artifacts) + OpsArts(f, b, i, scope)
        invariant forall k | 0 <= k < i :: OpRecordable(readable, b.ops[k], depth)
      {
        OpsNext(f, artifacts, old(artifacts), b, i, scope);
        ok := RecordOpItem(b, i, scope, nextReasoningSeq, depth);
        if !ok {
          return;
        }
        if HasReasoning(f, b.ops[i]) {
          nextReasoningSeq := nextReasoningSeq + 1;
        }
        i := i + 1;
      }
      ok := true;
    }

    /** A turn or a step. */
    method RecordBlock(b: Block, scope: Scope, depth: nat) returns (ok: bool)
      modifies this
      ensures ok <==> BlockRecordable(readable, b, depth)
      ensures ok ==> artifacts == old(artifacts) + BlockArts(f, b, scope)
      decreases b, 2
    {
      artifacts := artifacts + [TurnBoundary(scope.trace, scope.turnSeq)];
      ok := RecordOps(b, scope, depth);
    }

    method RecordSessionErrorLog(t: OpTree, p: string)
      modifies this
      ensures artifacts == old(artifacts) + ErrorArts(f, t, p)
    {
      if t.success == None || t.success.value || t.error == "" {
        return;
      }
      artifacts := artifacts + [LogText(t.traceId, -1, Sub(p, f.error), t.error)];
    }

    method RecordTurns(t: OpTree, p: string, depth: nat) returns (ok: bool)
      modifies this
      ensures ok <==> forall i | 0 <= i < |t.turns| :: BlockRecordable(readable, t.turns[i], depth)
      ensures ok ==> artifacts == old(artifacts) + TurnsArts(f, t, |t.turns|, p)
      decreases t, 0
    {
      var i := 0;
      while i < |t.turns|
        invariant i <= |t.turns| && artifacts == old(artifacts) + TurnsArts(f, t, i, p)
        invariant forall k | 0 <= k < i :: BlockRecordable(readable, t.turns[k], depth)
      {
        ok := RecordBlock(t.turns[i], Scope(t.traceId, t.turns[i].index, At(p, f.turns, i)), depth);
        if !ok {
          return;
        }
        i := i + 1;
      }
      ok := true;
    }

    method RecordSteps(t: OpTree, p: string, depth: nat) returns (ok: bool)
      modifies this
      ensures ok <==> forall i | 0 <= i < |t.steps| :: BlockRecordable(readable, t.steps[i], depth)
      ensures ok ==> artifacts == old(artifacts) + StepsArts(f, t, |t.steps|, p)
      decreases t, 0
    {
      var i := 0;
      while i < |t.steps|
        invariant i <= |t.steps| && artifacts == old(artifacts) + StepsArts(f, t, i, p)
        invariant forall k | 0 <= k < i :: BlockRecordable(readable, t.steps[k], depth)
      {
        ok := RecordBlock(t.steps[i], Scope(t.traceId, STEP_INDEX_OFFSET + t.steps[i].index, At(p, f.steps, i)), depth);
        if !ok {
          return;
        }
        i := i + 1;
      }
      ok := true;
    }

    /** Fails exactly when a child session is nested deeper than the cap or some operation cannot be read. */
    method RecordSession(t: OpTree, parent: string, kind: string, p: string, depth: nat) returns (ok: bool)
      modifies this
      ensures ok <==> Recordable(readable, t, depth)
      ensures ok ==> artifacts == old(artifacts) + SessionArts(f, t, parent, kind, p)
      decreases t, 1
    {
      if depth > MAX_CHILD_DEPTH {
        return false;
      }
      artifacts := artifacts + [SessionBoundary(t.traceId, parent, kind)];
      ok := RecordTurns(t, p, depth);
      if !ok {
        return;
      }
      ok := RecordSteps(t, p, depth);
      if !ok {
        return;
      }
      RecordSessionErrorLog(t, p);
    }
  }
}
