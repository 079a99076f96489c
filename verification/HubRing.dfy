/** The replay ring: a fixed array that always holds the newest events, oldest first
    (internal/notify/subscription.go). */
module HubRing {
  import opened Options
  import opened HubIds
  import opened OrderedRows

  datatype Event = Event(id: string, kind: string, session: string, root: string, source: string, ts: int)

  const BLANK := Event("", "", "", "", "", 0)

  function LastN<T>(s: seq<T>, n: nat): seq<T> {
    if |s| <= n then s else s[|s| - n..]
  }

  lemma LastNext<T>(s: seq<T>, x: T, n: nat)
    ensures var l := LastN(s, n);
            LastN(s + [x], n) == if n == 0 then [] else if |l| < n then l + [x] else l[1..] + [x]
  {
  }

  class ReplayRing {
    const buf: array<Event>
    var head: nat
    var size: nat
    /** Every event ever recorded. */
    ghost var history: seq<Event>

    ghost predicate Valid()
      reads this, buf
    {
      && size <= buf.Length
      && (head < buf.Length || head == buf.Length == 0)
      && (size < buf.Length ==> head == 0)
      && Contents() == LastN(history, buf.Length)
    }

    /** The valid entries, oldest first. */
    ghost function Contents(): (s: seq<Event>)
      requires size <= buf.Length && (head < buf.Length || head == buf.Length == 0)
      reads this, buf
      ensures |s| == size
      ensures forall i | 0 <= i < size :: s[i] == buf[SlotOf(head, i, buf.Length)]
    {
      if head + size <= buf.Length then buf[head..head + size] else buf[head..] + buf[..head + size - buf.Length]
    }

    constructor (capacity: int)
      ensures Valid() && history == []
      ensures buf.Length == (if capacity <= 0 then 0 else capacity)
      ensures fresh(buf)
    {
      buf := new Event[if capacity <= 0 then 0 else capacity](_ => BLANK);
      head, size, history := 0, 0, [];
    }

    /** O(1): fill the next slot, or overwrite the oldest and move the head. */
    method Append(ev: Event)
      requires Valid()
      modifies this, buf
      ensures Valid() && history == old(history) + [ev]
      ensures Contents() == LastN(old(history) + [ev], buf.Length)
    {
      LastNext(history, ev, buf.Length);
      history := history + [ev];
      var n := buf.Length;
      if n == 0 {
        return;
      }
      if size < n {
        Grow(ev);
      } else {
        Turn(ev);
      }
    }

    /** Room left: write just past the newest entry. */
    method Grow(ev: Event)
      requires size < buf.Length && head == 0
      modifies this`size, buf
      ensures size == old(size) + 1 && Contents() == old(Contents()) + [ev]
    {
      buf[SlotOf(head, size, buf.Length)] := ev;
      size := size + 1;
    }

    /** Full: overwrite the oldest entry and move the head. */
    method Turn(ev: Event)
      requires 0 < size == buf.Length && head < buf.Length
      modifies this`head, buf
      ensures head < buf.Length && Contents() == old(Contents())[1..] + [ev]
    {
      buf[head] := ev;
      head := SlotOf(head, 1, buf.Length);
    }

    method Oldest() returns (ev: Option<Event>)
      requires Valid()
      ensures ev == if Contents() == [] then None else Some(Contents()[0])
    {
      if size == 0 {
        return None;
      }
      return Some(buf[head]);
    }

    method Newest() returns (ev: Option<Event>)
      requires Valid()
      ensures ev == if Contents() == [] then None else Some(Contents()[|Contents()| - 1])
    {
      if size == 0 {
        return None;
      }
      return Some(buf[SlotOf(head, size - 1, buf.Length)]);
    }

    method Ordered() returns (out: seq<Event>)
      requires Valid()
      ensures out == Contents()
    {
      out := [];
      var i := 0;
      while i < size
        invariant i <= size && out == Contents()[..i]
      {
        out := out + [buf[SlotOf(head, i, buf.Length)]];
        i := i + 1;
      }
    }
  }

  /** Slot i of a ring whose oldest entry is at `head`. */
  function SlotOf(head: nat, i: nat, n: nat): (r: nat)
    requires head < n && i <= n
    ensures r == if head + i < n then head + i else head + i - n
  {
    ModOnce(head + i, n);
    (head + i) % n
  }

  lemma ModOnce(a: nat, n: nat)
    requires 0 < n && a < 2 * n
    ensures a % n == if a < n then a else a - n
  {
    var q, r := a / n, a % n;
    assert a == n * q + r;
    Grows(n, q);
    if q == 1 {
      assert n * q == n;
    } else {
      assert n * q == 0;
    }
  }

  lemma Grows(n: nat, q: nat)
    ensures q >= 2 ==> n * q >= 2 * n
  {
    if q >= 2 {
      assert n * q == 2 * n + n * (q - 2);
    }
  }

  // ----- replay after a given id -----

  function IdOf(ev: Event): nat {
    match ParseId(ev.id) case Some(n) => n case None => 0
  }

  /** Ids parse, and grow: what the counter mints under the hub's lock. */
  ghost predicate Increasing(s: seq<Event>) {
    && (forall i | 0 <= i < |s| :: ParseId(s[i].id).Some?)
    && (forall i, j | 0 <= i < j < |s| :: IdOf(s[i]) < IdOf(s[j]))
  }

  predicate Newer(ev: Event, last: nat) {
    ParseId(ev.id).Some? && ParseId(ev.id).value > last
  }

  /** The retained events can prove they cover everything after `last`. */
  predicate Provable(ring: seq<Event>, last: string) {
    && ParseId(last).Some? && ring != []
    && ParseId(ring[0].id).Some? && ParseId(ring[|ring| - 1].id).Some?
    && ParseId(ring[0].id).value <= ParseId(last).value <= ParseId(ring[|ring| - 1].id).value
  }

  datatype Replay = Replay(events: seq<Event>, covered: bool)

  function ReplaySince(ring: seq<Event>, last: string): Replay {
    if last == "" then Replay([], true)
    else if Provable(ring, last) then Replay(After(ring, ParseId(last).value), true)
    else Replay([], false)
  }

  method ParseAndValidateBounds(ring: ReplayRing, lastEventId: string) returns (last: Option<nat>)
    requires ring.Valid()
    ensures last == if Provable(ring.Contents(), lastEventId) then ParseId(lastEventId) else None
  {
    var id := ParseId(lastEventId);
    if id.None? {
      return None;
    }
    var oldest := ring.Oldest();
    if oldest.None? {
      return None;
    }
    var o := ParseId(oldest.value.id);
    if o.None? || o.value > id.value {
      return None;
    }
    var newest := ring.Newest();
    if newest.None? {
      return None;
    }
    var n := ParseId(newest.value.id);
    if n.None? || id.value > n.value {
      return None;
    }
    return id;
  }

  method ReplayFrom(ring: ReplayRing, lastEventId: string) returns (r: Replay)
    requires ring.Valid()
    ensures r == ReplaySince(ring.Contents(), lastEventId)
  {
    if lastEventId == "" {
      return Replay([], true);
    }
    var last := ParseAndValidateBounds(ring, lastEventId);
    if last.None? {
      return Replay([], false);
    }
    var ordered := ring.Ordered();
    var out := SelectAfter(ordered, last.value);
    return Replay(out, true);
  }

  method SelectAfter(ordered: seq<Event>, last: nat) returns (out: seq<Event>)
    ensures out == After(ordered, last)
  {
    out := [];
    var i := 0;
    while i < |ordered|
      invariant i <= |ordered| && out == After(ordered[..i], last)
    {
      AfterOneMore(ordered, i, last);
      if Newer(ordered[i], last) {
        out := out + [ordered[i]];
      }
      i := i + 1;
    }
    assert ordered[..i] == ordered;
  }

  function After(s: seq<Event>, last: nat): seq<Event> {
    Filter(e => Newer(e, last), s)
  }

  lemma AfterOneMore(s: seq<Event>, i: nat, last: nat)
    requires i < |s|
    ensures After(s[..i + 1], last) == After(s[..i], last) + if Newer(s[i], last) then [s[i]] else []
  {
    assert s[..i + 1] == s[..i] + [s[i]];
    FilterAppend(e => Newer(e, last), s[..i], [s[i]]);
  }

  /** With growing ids, a non-empty id is covered exactly when it lies between the oldest and the newest
      retained one, and then the replay is precisely the events ever delivered after it, in order. */
  lemma ReplayIsExact(delivered: seq<Event>, capacity: nat, last: string)
    requires Increasing(delivered)
    ensures var ring, r := LastN(delivered, capacity), ReplaySince(LastN(delivered, capacity), last);
            && (last != "" ==>
                  (r.covered <==> ParseId(last).Some? && ring != []
                                  && IdOf(ring[0]) <= ParseId(last).value <= IdOf(ring[|ring| - 1])))
            && (r.covered && last != "" ==> r.events == After(delivered, ParseId(last).value))
            && (!r.covered ==> r.events == [])
            && (last == "" ==> r == Replay([], true))
  {
    var ring := LastN(delivered, capacity);
    if Provable(ring, last) {
      SkipOlder(delivered, |delivered| - |ring|, ParseId(last).value);
    }
  }

  /** Nothing before an entry that is not newer is newer. */
  lemma SkipOlder(s: seq<Event>, k: nat, last: nat)
    requires Increasing(s) && k < |s| && IdOf(s[k]) <= last
    ensures After(s, last) == After(s[k..], last)
  {
    assert s == s[..k] + s[k..];
    forall e | e in s[..k]
      ensures !Newer(e, last)
    {
      var i :| 0 <= i < k && s[i] == e;
      assert IdOf(s[i]) < IdOf(s[k]);
    }
    FilterAppend(e => Newer(e, last), s[..k], s[k..]);
    FilterNone(e => Newer(e, last), s[..k]);
  }
}
