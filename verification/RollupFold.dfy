/** The fold as the source runs it: one pass over the ops, one over the session starts, into a map of
    accumulators (internal/rollups/rollups.go). */
module RollupFold {
  import opened Options
  import opened PrimaryRows
  import opened OrderedRows
  import opened RollupRows

  type Acc = map<Slot, Metrics>

  function At(acc: Acc, s: Slot): Metrics {
    if s in acc then acc[s] else NoMetrics()
  }

  /** acc' is acc with one op added to every row it contributes to. */
  ghost predicate WithOp(acc: Acc, f: OpFact, g: Gran, acc': Acc) {
    && (forall s :: s in acc' <==> s in acc || OpHits(f, g, s))
    && (forall s | s in acc' :: acc'[s] == if OpHits(f, g, s) then AddOp(At(acc, s), f.op) else acc[s])
  }

  /** acc is acc0 with this op added on the dimensions done so far. */
  ghost predicate AddedOn(acc0: Acc, done: set<Dimension>, acc: Acc, f: OpFact, g: Gran) {
    && (forall s :: s in acc <==> s in acc0 || (OpHits(f, g, s) && s.group.dimension in done))
    && (forall s | s in acc ::
          acc[s] == if OpHits(f, g, s) && s.group.dimension in done then AddOp(At(acc0, s), f.op) else acc0[s])
  }

  /** addOpMetrics on one dimension, when the op has a value for it. */
  method AddOpMetrics(acc: Acc, f: OpFact, g: Gran, d: Dimension, ghost acc0: Acc, ghost done: set<Dimension>) returns (acc': Acc)
    requires AddedOn(acc0, done, acc, f, g) && d !in done
    ensures forall done' | done' == done + {d} :: AddedOn(acc0, done', acc', f, g)
  {
    acc' := acc;
    match OpDim(f, d)
    case None =>
    case Some(v) =>
      var key := Slot(Group(BucketTS(f.op.startTs, g), f.format, d), v);
      acc' := acc[key := AddOp(At(acc, key), f.op)];
  }

  method FoldOp(acc: Acc, f: OpFact, g: Gran) returns (acc': Acc)
    ensures WithOp(acc, f, g, acc')
  {
    acc' := AddOpMetrics(acc, f, g, Total, acc, {});
    acc' := AddOpMetrics(acc', f, g, Model, acc, {Total});
    acc' := AddOpMetrics(acc', f, g, Provider, acc, {Total, Model});
    acc' := AddOpMetrics(acc', f, g, Tool, acc, {Total, Model, Provider});
    acc' := AddOpMetrics(acc', f, g, Agent, acc, {Total, Model, Provider, Tool});
    acc' := AddOpMetrics(acc', f, g, Cwd, acc, {Total, Model, Provider, Tool, Agent});
    AllDimensions(acc, {Total, Model, Provider, Tool, Agent, Cwd}, acc', f, g);
  }

  lemma AllDimensions(acc0: Acc, done: set<Dimension>, acc: Acc, f: OpFact, g: Gran)
    requires AddedOn(acc0, done, acc, f, g)
    requires Total in done && Model in done && Provider in done && Tool in done && Agent in done && Cwd in done
    ensures WithOp(acc0, f, g, acc)
  {
    forall d: Dimension
      ensures d in done
    {
      match d
      case Total =>
      case Model =>
      case Provider =>
      case Tool =>
      case Agent =>
      case Cwd =>
    }
  }

  function Started(m: Metrics): Metrics { m.(sessionStarts := m.sessionStarts + 1) }

  ghost predicate WithStart(acc: Acc, f: StartFact, g: Gran, acc': Acc) {
    && (forall s :: s in acc' <==> s in acc || StartHits(f, g, s))
    && (forall s | s in acc' :: acc'[s] == if StartHits(f, g, s) then Started(At(acc, s)) else acc[s])
  }

  method FoldSessionStart(acc: Acc, f: StartFact, g: Gran) returns (acc': Acc)
    ensures WithStart(acc, f, g, acc')
  {
    var b := BucketTS(f.ts, g);
    var total := Slot(Group(b, f.format, Total), "");
    acc' := acc[total := Started(At(acc, total))];
    if f.agent != "" {
      var s := Slot(Group(b, f.format, Agent), f.agent);
      acc' := acc'[s := Started(At(acc', s))];
    }
    if f.cwd != "" {
      var s := Slot(Group(b, f.format, Cwd), f.cwd);
      acc' := acc'[s := Started(At(acc', s))];
    }
  }

  lemma {:induction false} FoldSnoc(facts: seq<OpFact>, f: OpFact, s: Slot, g: Gran, acc: Metrics)
    ensures Fold(facts + [f], s, g, acc) ==
            var m := Fold(facts, s, g, acc); if OpHits(f, g, s) then AddOp(m, f.op) else m
  {
    if facts == [] {
      assert facts + [f] == [f];
      assert [f][1..] == [];
      assert Fold([f][1..], s, g, if OpHits(f, g, s) then AddOp(acc, f.op) else acc) == if OpHits(f, g, s) then AddOp(acc, f.op) else acc;
    } else {
      assert (facts + [f])[1..] == facts[1..] + [f];
      FoldSnoc(facts[1..], f, s, g, if OpHits(facts[0], g, s) then AddOp(acc, facts[0].op) else acc);
    }
  }

  /** acc holds exactly the rows of these ops and of the first n sessions. */
  ghost predicate Holds(acc: Acc, facts: seq<OpFact>, starts: map<SessionId, StartFact>, g: Gran) {
    && (forall s :: s in acc <==> s in SlotsHit(facts, starts, g))
    && (forall s | s in acc :: acc[s] == RowAt(facts, starts, s, g))
  }

  lemma HoldsWithOp(acc: Acc, facts: seq<OpFact>, f: OpFact, g: Gran, acc': Acc)
    requires Holds(acc, facts, map[], g) && WithOp(acc, f, g, acc')
    ensures Holds(acc', facts + [f], map[], g)
  {
    forall s
      ensures s in SlotsHit(facts + [f], map[], g) <==> s in SlotsHit(facts, map[], g) || OpHits(f, g, s)
      ensures RowAt(facts + [f], map[], s, g) ==
              if OpHits(f, g, s) then AddOp(RowAt(facts, map[], s, g), f.op) else RowAt(facts, map[], s, g)
      ensures s !in SlotsHit(facts, map[], g) ==> RowAt(facts, map[], s, g) == NoMetrics()
    {
      OneMoreOp(facts, f, s, g);
    }
  }

  lemma OneMoreOp(facts: seq<OpFact>, f: OpFact, s: Slot, g: Gran)
    ensures s in SlotsHit(facts + [f], map[], g) <==> s in SlotsHit(facts, map[], g) || OpHits(f, g, s)
    ensures RowAt(facts + [f], map[], s, g) ==
            if OpHits(f, g, s) then AddOp(RowAt(facts, map[], s, g), f.op) else RowAt(facts, map[], s, g)
    ensures s !in SlotsHit(facts, map[], g) ==> RowAt(facts, map[], s, g) == NoMetrics()
  {
    FoldSnoc(facts, f, s, g, NoMetrics());
    FoldMissing(facts, s, g, NoMetrics());
    FoldMissing(facts + [f], s, g, NoMetrics());
    assert StartsAt(map[], s, g) == {};
    HitIff(facts, map[], s, g);
    HitIff(facts + [f], map[], s, g);
    assert f in facts + [f];
  }

  lemma {:induction false} FoldMissing(facts: seq<OpFact>, s: Slot, g: Gran, acc: Metrics)
    ensures Fold(facts, s, g, acc).sessionStarts == acc.sessionStarts
    ensures (forall f | f in facts :: !OpHits(f, g, s)) ==> Fold(facts, s, g, acc) == acc
  {
    if facts != [] {
      assert facts == [facts[0]] + facts[1..];
      FoldMissing(facts[1..], s, g, if OpHits(facts[0], g, s) then AddOp(acc, facts[0].op) else acc);
    }
  }

  lemma HoldsWithStart(acc: Acc, facts: seq<OpFact>, starts: map<SessionId, StartFact>, id: SessionId, f: StartFact, g: Gran, acc': Acc)
    requires Holds(acc, facts, starts, g) && id !in starts && WithStart(acc, f, g, acc')
    ensures Holds(acc', facts, starts[id := f], g)
  {
    forall s
      ensures s in SlotsHit(facts, starts[id := f], g) <==> s in SlotsHit(facts, starts, g) || StartHits(f, g, s)
      ensures RowAt(facts, starts[id := f], s, g) ==
              if StartHits(f, g, s) then Started(RowAt(facts, starts, s, g)) else RowAt(facts, starts, s, g)
      ensures s !in SlotsHit(facts, starts, g) ==> RowAt(facts, starts, s, g) == NoMetrics()
    {
      OneMoreStart(facts, starts, id, f, s, g);
      OneMoreHit(facts, starts, id, f, s, g);
      NoHitNoMetrics(facts, starts, s, g);
    }
  }

  lemma OneMoreStart(facts: seq<OpFact>, starts: map<SessionId, StartFact>, id: SessionId, f: StartFact, s: Slot, g: Gran)
    requires id !in starts
    ensures RowAt(facts, starts[id := f], s, g) ==
            if StartHits(f, g, s) then Started(RowAt(facts, starts, s, g)) else RowAt(facts, starts, s, g)
  {
    assert StartsAt(starts[id := f], s, g) == StartsAt(starts, s, g) + if StartHits(f, g, s) then {id} else {};
  }

  lemma OneMoreHit(facts: seq<OpFact>, starts: map<SessionId, StartFact>, id: SessionId, f: StartFact, s: Slot, g: Gran)
    requires id !in starts
    ensures s in SlotsHit(facts, starts[id := f], g) <==> s in SlotsHit(facts, starts, g) || StartHits(f, g, s)
  {
    assert StartsAt(starts[id := f], s, g) == StartsAt(starts, s, g) + if StartHits(f, g, s) then {id} else {};
    HitIff(facts, starts, s, g);
    HitIff(facts, starts[id := f], s, g);
  }

  lemma NoHitNoMetrics(facts: seq<OpFact>, starts: map<SessionId, StartFact>, s: Slot, g: Gran)
    ensures s !in SlotsHit(facts, starts, g) ==> RowAt(facts, starts, s, g) == NoMetrics()
  {
    FoldMissing(facts, s, g, NoMetrics());
    HitIff(facts, starts, s, g);
  }

  /** One pass over the ops in the order read, then one over the session starts in any order, leaves
      every row equal to its definition and no other row. */
  method Rollup(facts: seq<OpFact>, starts: map<SessionId, StartFact>, ids: seq<SessionId>, g: Gran) returns (acc: Acc)
    requires forall id :: id in ids <==> id in starts
    requires forall i, j | 0 <= i < j < |ids| :: ids[i] != ids[j]
    ensures Holds(acc, facts, starts, g)
  {
    acc := map[];
    for i := 0 to |facts|
      invariant Holds(acc, facts[..i], map[], g)
    {
      var acc' := FoldOp(acc, facts[i], g);
      HoldsWithOp(acc, facts[..i], facts[i], g, acc');
      assert facts[..i] + [facts[i]] == facts[..i + 1];
      acc := acc';
    }
    assert facts[..|facts|] == facts;
    ghost var done: map<SessionId, StartFact> := map[];
    for i := 0 to |ids|
      invariant done == map id | id in ids[..i] :: starts[id]
      invariant Holds(acc, facts, done, g)
    {
      assert ids[i] !in done;
      var acc' := FoldSessionStart(acc, starts[ids[i]], g);
      HoldsWithStart(acc, facts, done, ids[i], starts[ids[i]], g, acc');
      acc := acc';
      done := done[ids[i] := starts[ids[i]]];
    }
    assert done == starts;
  }
}
