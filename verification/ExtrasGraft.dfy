/** The extras column on a re-emit: replaced as a whole, except for the resolver's join keys under aiViewer; and a
    synthetic session start never overwrites a session's real metadata (internal/ingest/writer.go). */
module ExtrasGraft {
  import opened Options
  import opened Scalars

  datatype Value = Null | False | True | Number(n: int) | Text(s: string) | Json(text: string)

  /** The members of aiViewer. */
  datatype Key = ToolUseId | ChildNativeId | ParentNativeId | ParentOpKey | RootNativeId | OtherKey(name: string)

  /** The other members of an extras object. */
  datatype Field = SynthesizedFromParent | CapturePayloads | OtherField(name: string)

  /** An extras object; aiViewer is an object or absent. */
  datatype Extras = Extras(viewer: Option<map<Key, Value>>, fields: map<Field, Value>)

  const BARE := Extras(None, map[])

  predicate IsStash(k: Key) { k.ToolUseId? || k.ChildNativeId? }

  predicate IsLinkage(k: Key) { !k.OtherKey? }

  /** What SQLite makes of a JSON value: it has no booleans. */
  function Scalar(v: Value): Value {
    match v
    case True => Number(1)
    case False => Number(0)
    case _ => v
  }

  /** json_extract(e, '$.aiViewer.k'): SQL NULL when the member, its parent or the whole is absent or null. */
  function Extract(e: Option<Extras>, k: Key): Option<Value> {
    if e.Some? && e.value.viewer.Some? && k in e.value.viewer.value && e.value.viewer.value[k] != Null
    then Some(Scalar(e.value.viewer.value[k])) else None
  }

  /** json_set(e, '$.aiViewer.k', v), which makes aiViewer when there is none. */
  function Set(e: Extras, k: Key, v: Value): Extras {
    e.(viewer := Some((if e.viewer.Some? then e.viewer.value else map[])[k := v]))
  }

  // ----- the graft of a re-emit -----

  function GraftKey(base: Extras, existing: Option<Extras>, k: Key): Extras {
    if Extract(existing, k).Some? && Extract(Some(base), k).None? then Set(base, k, Extract(existing, k).value) else base
  }

  function GraftKeyOnto(base: Extras, existing: Option<Extras>, k: Key): Extras {
    if Extract(existing, k).Some? then Set(base, k, Extract(existing, k).value) else base
  }

  function StashOnly(existing: Option<Extras>): Option<Extras> {
    var s := GraftKeyOnto(GraftKeyOnto(BARE, existing, ToolUseId), existing, ChildNativeId);
    if s.viewer.None? then None else Some(s)
  }

  /** ON CONFLICT DO UPDATE SET extras_json = ... */
  function Graft(existing: Option<Extras>, emitted: Option<Extras>): Option<Extras> {
    if emitted.None? then StashOnly(existing)
    else if existing.None? then emitted
    else Some(GraftKey(GraftKey(emitted.value, existing, ToolUseId), existing, ChildNativeId))
  }

  /** The column after a first insert and any number of re-emits. */
  function AfterEmits(emits: seq<Option<Extras>>): Option<Extras>
    requires emits != []
  {
    if |emits| == 1 then emits[0] else Graft(AfterEmits(emits[..|emits| - 1]), emits[|emits| - 1])
  }

  /** The most recent value that was not null. */
  function Latest(emits: seq<Option<Extras>>, k: Key): Option<Value> {
    if emits == [] then None
    else if Extract(emits[|emits| - 1], k).Some? then Extract(emits[|emits| - 1], k)
    else Latest(emits[..|emits| - 1], k)
  }

  /** The member itself, null or not; None when it is not there. */
  function Member(e: Option<Extras>, k: Key): Option<Value> {
    if e.Some? && e.value.viewer.Some? && k in e.value.viewer.value then Some(e.value.viewer.value[k]) else None
  }

  function FieldsOf(e: Option<Extras>): map<Field, Value> {
    if e.Some? then e.value.fields else map[]
  }

  lemma SetMembers(e: Extras, k: Key, v: Value)
    ensures forall x :: Member(Some(Set(e, k, v)), x) == if x == k then Some(v) else Member(Some(e), x)
    ensures Set(e, k, v).fields == e.fields
  {
    forall x
      ensures Member(Some(Set(e, k, v)), x) == if x == k then Some(v) else Member(Some(e), x)
    {
    }
  }

  /** One re-emit: a stash key keeps its value unless a new one came, every other member and field is the
      emitted one, nulls included. */
  lemma GraftMembers(existing: Option<Extras>, emitted: Option<Extras>, k: Key)
    ensures var after := Graft(existing, emitted);
            && Extract(after, k) == (if !IsStash(k) || Extract(emitted, k).Some? then Extract(emitted, k) else Extract(existing, k))
            && (!IsStash(k) || Extract(emitted, k).Some? ==> Member(after, k) == Member(emitted, k))
            && (IsStash(k) && Extract(emitted, k).None? && Extract(existing, k).Some? ==> Member(after, k) == Extract(existing, k))
            && FieldsOf(after) == FieldsOf(emitted)
  {
    if emitted.None? {
      StashMembers(existing, k);
    } else if existing.Some? {
      var one := GraftKey(emitted.value, existing, ToolUseId);
      if Extract(existing, ToolUseId).Some? {
        SetMembers(emitted.value, ToolUseId, Extract(existing, ToolUseId).value);
      }
      if Extract(existing, ChildNativeId).Some? {
        SetMembers(one, ChildNativeId, Extract(existing, ChildNativeId).value);
      }
    }
  }

  lemma StashMembers(existing: Option<Extras>, k: Key)
    ensures Extract(StashOnly(existing), k) == if IsStash(k) then Extract(existing, k) else None
    ensures Member(StashOnly(existing), k) == if IsStash(k) then Extract(existing, k) else None
    ensures FieldsOf(StashOnly(existing)) == map[]
  {
    var one := GraftKeyOnto(BARE, existing, ToolUseId);
    if Extract(existing, ToolUseId).Some? {
      SetMembers(BARE, ToolUseId, Extract(existing, ToolUseId).value);
    }
    if Extract(existing, ChildNativeId).Some? {
      SetMembers(one, ChildNativeId, Extract(existing, ChildNativeId).value);
    }
  }

  /** Over any sequence of emits: each stash key holds its most recent non-null emitted value, as emitted if the last
      emit carried it and otherwise as SQLite reads it, which turns a boolean into 1 or 0; every other member and
      field is exactly what the last emit carried. */
  lemma {:induction false} EmitsKeepStash(emits: seq<Option<Extras>>, k: Key)
    requires emits != []
    ensures var after, last := AfterEmits(emits), emits[|emits| - 1];
            && Extract(after, k) == (if IsStash(k) then Latest(emits, k) else Extract(last, k))
            && (!IsStash(k) || Extract(last, k).Some? ==> Member(after, k) == Member(last, k))
            && (IsStash(k) && Extract(last, k).None? && Latest(emits, k).Some? ==> Member(after, k) == Latest(emits, k))
            && FieldsOf(after) == FieldsOf(last)
  {
    var n := |emits| - 1;
    if n == 0 {
      assert Latest(emits[..0], k) == None;
    } else {
      EmitsKeepStash(emits[..n], k);
      GraftMembers(AfterEmits(emits[..n]), emits[n], k);
    }
  }

  // ----- sessions -----

  datatype SessionRow = SessionRow(
    parent: Option<string>,
    root: string,
    kind: string,
    agentName: string,
    model: string,
    provider: string,
    providerAlias: string,
    cwd: string,
    callPath: string,
    startTs: int,
    lastActivityTs: int,
    extras: Option<Extras>)

  /** A parent-side start that only hints at linkage, meeting a row with real metadata. */
  predicate PreservesReal(existing: SessionRow, emitted: SessionRow) {
    && SynthesizedFromParent in FieldsOf(emitted.extras)
    && Scalar(FieldsOf(emitted.extras)[SynthesizedFromParent]) == Number(1)
    && CapturePayloads in FieldsOf(existing.extras)
  }

  predicate Blank(v: Option<Value>) {
    v.None? || v.value == Text("")
  }

  function LinkKey(base: Extras, incoming: Option<Extras>, k: Key): Extras {
    if !Blank(Extract(incoming, k)) && Blank(Extract(Some(base), k)) then Set(base, k, Extract(incoming, k).value) else base
  }

  const LINKAGE: seq<Key> := [ParentNativeId, ParentOpKey, RootNativeId, ToolUseId, ChildNativeId]

  function LinkKeys(base: Extras, incoming: Option<Extras>, keys: seq<Key>): Extras {
    if keys == [] then base else LinkKey(LinkKeys(base, incoming, keys[..|keys| - 1]), incoming, keys[|keys| - 1])
  }

  /** The hint contradicts what the row already says of its lineage. */
  predicate ConflictsOn(existing: SessionRow, emitted: SessionRow, k: Key) {
    && PreservesReal(existing, emitted)
    && !Blank(Extract(existing.extras, k))
    && (Blank(Extract(emitted.extras, k)) || Extract(emitted.extras, k) != Extract(existing.extras, k))
  }

  /** The sessions UPSERT of a SessionStarted on an existing row. */
  function Restarted(existing: SessionRow, emitted: SessionRow): SessionRow {
    var keep := PreservesReal(existing, emitted);
    SessionRow(
      if ConflictsOn(existing, emitted, ParentNativeId) || existing.parent.Some? then existing.parent else emitted.parent,
      if ConflictsOn(existing, emitted, RootNativeId) then existing.root else emitted.root,
      if keep then existing.kind else emitted.kind,
      if keep then existing.agentName else Coalesce(emitted.agentName, existing.agentName),
      if keep then existing.model else Coalesce(emitted.model, existing.model),
      if keep then existing.provider else Coalesce(emitted.provider, existing.provider),
      if keep then existing.providerAlias else Coalesce(emitted.providerAlias, existing.providerAlias),
      if keep then existing.cwd else Coalesce(emitted.cwd, existing.cwd),
      if keep then existing.callPath else Coalesce(emitted.callPath, existing.callPath),
      Min(existing.startTs, emitted.startTs),
      Max(existing.lastActivityTs, emitted.lastActivityTs),
      if keep then Some(LinkKeys(existing.extras.value, emitted.extras, LINKAGE)) else Graft(existing.extras, emitted.extras))
  }

  lemma {:induction false} LinkMembers(base: Extras, incoming: Option<Extras>, keys: seq<Key>, k: Key)
    ensures var after := LinkKeys(base, incoming, keys);
            && after.fields == base.fields
            && (k !in keys ==> Member(Some(after), k) == Member(Some(base), k))
            && (!Blank(Extract(Some(base), k)) ==> Member(Some(after), k) == Member(Some(base), k))
            && (k in keys && Blank(Extract(Some(base), k)) && !Blank(Extract(incoming, k)) ==>
                  Extract(Some(after), k) == Extract(incoming, k))
            && (Blank(Extract(incoming, k)) ==> Member(Some(after), k) == Member(Some(base), k))
  {
    if keys != [] {
      var n := |keys| - 1;
      var before := LinkKeys(base, incoming, keys[..n]);
      assert keys == keys[..n] + [keys[n]];
      LinkMembers(base, incoming, keys[..n], k);
      if Extract(incoming, keys[n]).Some? {
        SetMembers(before, keys[n], Extract(incoming, keys[n]).value);
      }
    }
  }

  /** A synthetic replay leaves a row with real metadata as it is, but for the linkage members that were blank,
      the linkage ids, and the activity times. */
  lemma SyntheticKeepsReal(existing: SessionRow, emitted: SessionRow, k: Key)
    requires PreservesReal(existing, emitted)
    ensures var after := Restarted(existing, emitted);
            && after == existing.(parent := after.parent, root := after.root, startTs := after.startTs,
                                  lastActivityTs := after.lastActivityTs, extras := after.extras)
            && FieldsOf(after.extras) == FieldsOf(existing.extras)
            && (var filled := IsLinkage(k) && Blank(Extract(existing.extras, k)) && !Blank(Extract(emitted.extras, k));
                if filled then Extract(after.extras, k) == Extract(emitted.extras, k)
                else Member(after.extras, k) == Member(existing.extras, k))
            && (existing.parent.Some? ==> after.parent == existing.parent)
  {
    LinkMembers(existing.extras.value, emitted.extras, LINKAGE, k);
    assert IsLinkage(k) <==> k in LINKAGE;
  }

  /** A synthetic start, and a row that has captured metadata of its own. */
  predicate Hint(existing: Option<Extras>, emitted: Option<Extras>) {
    && emitted.Some? && SynthesizedFromParent in emitted.value.fields
    && emitted.value.fields[SynthesizedFromParent] in {True, Number(1)}
    && existing.Some? && CapturePayloads in existing.value.fields
  }

  /** The row already names another session. */
  predicate Contradicts(existing: Option<Extras>, emitted: Option<Extras>, k: Key) {
    var told := Extract(existing, k);
    told != None && told != Some(Text("")) && Extract(emitted, k) != told
  }

  /** Column by column: a hint changes no label, and no linkage it contradicts; any other start replaces the kind and
      every label it has, and the extras but for the stash. A parent once set stays, and the times only widen. */
  lemma RestartWrites(existing: SessionRow, emitted: SessionRow)
    ensures var row, hint := Restarted(existing, emitted), Hint(existing.extras, emitted.extras);
            && (row.parent == if existing.parent.Some? || (hint && Contradicts(existing.extras, emitted.extras, ParentNativeId))
                              then existing.parent else emitted.parent)
            && (row.root == if hint && Contradicts(existing.extras, emitted.extras, RootNativeId) then existing.root else emitted.root)
            && (row.kind == if hint then existing.kind else emitted.kind)
            && (row.agentName == if hint || emitted.agentName == "" then existing.agentName else emitted.agentName)
            && (row.model == if hint || emitted.model == "" then existing.model else emitted.model)
            && (row.provider == if hint || emitted.provider == "" then existing.provider else emitted.provider)
            && (row.providerAlias == if hint || emitted.providerAlias == "" then existing.providerAlias else emitted.providerAlias)
            && (row.cwd == if hint || emitted.cwd == "" then existing.cwd else emitted.cwd)
            && (row.callPath == if hint || emitted.callPath == "" then existing.callPath else emitted.callPath)
            && (row.startTs == if emitted.startTs < existing.startTs then emitted.startTs else existing.startTs)
            && (row.lastActivityTs == if emitted.lastActivityTs > existing.lastActivityTs then emitted.lastActivityTs else existing.lastActivityTs)
            && (!hint ==> row.extras == Graft(existing.extras, emitted.extras))
  {
    assert PreservesReal(existing, emitted) <==> Hint(existing.extras, emitted.extras);
  }

  /** So a row with real metadata keeps it, however many synthetic replays follow. */
  lemma {:induction false} ReplaysKeepReal(existing: SessionRow, replays: seq<SessionRow>)
    requires CapturePayloads in FieldsOf(existing.extras)
    requires forall i | 0 <= i < |replays| :: PreservesReal(existing, replays[i])
    ensures var after := Replayed(existing, replays);
            && after == existing.(parent := after.parent, root := after.root, startTs := after.startTs,
                                  lastActivityTs := after.lastActivityTs, extras := after.extras)
            && FieldsOf(after.extras) == FieldsOf(existing.extras)
            && forall k | !IsLinkage(k) || !Blank(Extract(existing.extras, k)) :: Member(after.extras, k) == Member(existing.extras, k)
  {
    if replays != [] {
      var n := |replays| - 1;
      var before := Replayed(existing, replays[..n]);
      ReplaysKeepReal(existing, replays[..n]);
      forall k
        ensures PreservesReal(before, replays[n])
        ensures !IsLinkage(k) || !Blank(Extract(existing.extras, k)) ==>
                  Member(Restarted(before, replays[n]).extras, k) == Member(existing.extras, k)
      {
        SyntheticKeepsReal(before, replays[n], k);
      }
      SyntheticKeepsReal(before, replays[n], ToolUseId);
    }
  }

  function Replayed(existing: SessionRow, replays: seq<SessionRow>): SessionRow {
    if replays == [] then existing else Restarted(Replayed(existing, replays[..|replays| - 1]), replays[|replays| - 1])
  }
}
