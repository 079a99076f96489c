/** One subscription's delivery channel: bounded, drop-oldest, with a reader that may take events at any
    moment (internal/notify/subscription.go). */
module HubFeed {
  import opened Options
  import HubIds
  import opened HubRing

  datatype Fate = Consumed | Dropped

  /** The channel with its history: what became of each event that has left it. */
  datatype Feed = Feed(delivered: seq<Event>, fates: seq<Fate>, queue: seq<Event>, consumed: seq<Event>, dropped: nat)

  const EMPTY := Feed([], [], [], [], 0)

  /** How many events the reader takes before the first send, between the failed send and the drop, and
      between the drop and the second send. */
  datatype Race = Race(before: nat, during: nat, after: nat)

  function Take(f: Feed, n: nat): Feed
    decreases n
  {
    if n == 0 || f.queue == [] then f
    else Take(f.(queue := f.queue[1..], consumed := f.consumed + [f.queue[0]], fates := f.fates + [Consumed]), n - 1)
  }

  function Drop(f: Feed): Feed {
    if f.queue == [] then f
    else f.(queue := f.queue[1..], dropped := f.dropped + 1, fates := f.fates + [Dropped])
  }

  function Send(f: Feed, ev: Event): Feed {
    f.(delivered := f.delivered + [ev], queue := f.queue + [ev])
  }

  function Push(f: Feed, cap: nat, ev: Event, race: Race): Feed {
    var ready := Take(f, race.before);
    if |ready.queue| < cap then Send(ready, ev)
    else Send(Take(Drop(Take(ready, race.during)), race.after), ev)
  }

  lemma {:induction false} TakeDelivers(f: Feed, n: nat)
    ensures Take(f, n).delivered == f.delivered && Take(f, n).dropped == f.dropped
    ensures Take(f, n).queue == if n <= |f.queue| then f.queue[n..] else []
    decreases n
  {
    if n > 0 && f.queue != [] {
      TakeDelivers(f.(queue := f.queue[1..], consumed := f.consumed + [f.queue[0]], fates := f.fates + [Consumed]), n - 1);
    }
  }

  lemma PushDelivers(f: Feed, cap: nat, ev: Event, race: Race)
    ensures Push(f, cap, ev, race).delivered == f.delivered + [ev]
  {
    var ready := Take(f, race.before);
    TakeDelivers(f, race.before);
    TakeDelivers(ready, race.during);
    TakeDelivers(Drop(Take(ready, race.during)), race.after);
  }

  // ----- nothing is lost or reordered -----

  function Kept(s: seq<Event>, fates: seq<Fate>): seq<Event>
    requires |s| == |fates|
  {
    if s == [] then []
    else
      var n := |s| - 1;
      Kept(s[..n], fates[..n]) + if fates[n].Consumed? then [s[n]] else []
  }

  function Lost(fates: seq<Fate>): nat {
    if fates == [] then 0
    else Lost(fates[..|fates| - 1]) + if fates[|fates| - 1].Dropped? then 1 else 0
  }

  /** The events that left the channel are a prefix of the deliveries, each consumed or dropped; the rest
      are queued, in order. */
  ghost predicate Conserved(f: Feed) {
    && |f.delivered| == |f.fates| + |f.queue|
    && f.queue == f.delivered[|f.fates|..]
    && f.consumed == Kept(f.delivered[..|f.fates|], f.fates)
    && f.dropped == Lost(f.fates)
  }

  lemma LeaveConserves(f: Feed, fate: Fate)
    requires Conserved(f) && f.queue != []
    ensures Conserved(f.(queue := f.queue[1..], fates := f.fates + [fate],
                         consumed := f.consumed + (if fate.Consumed? then [f.queue[0]] else []),
                         dropped := f.dropped + if fate.Dropped? then 1 else 0))
  {
    var n := |f.fates|;
    assert f.delivered[..n + 1][..n] == f.delivered[..n];
    assert (f.fates + [fate])[..n] == f.fates;
    assert f.delivered[n] == f.queue[0];
  }

  lemma {:induction false} TakeConserves(f: Feed, n: nat)
    requires Conserved(f)
    ensures Conserved(Take(f, n))
    ensures Take(f, n).delivered == f.delivered && Take(f, n).dropped == f.dropped
    ensures Take(f, n).queue == if n <= |f.queue| then f.queue[n..] else []
    decreases n
  {
    TakeDelivers(f, n);
    if n > 0 && f.queue != [] {
      LeaveConserves(f, Consumed);
      assert f.consumed + [f.queue[0]] == f.consumed + (if Consumed.Consumed? then [f.queue[0]] else []);
      TakeConserves(f.(queue := f.queue[1..], consumed := f.consumed + [f.queue[0]], fates := f.fates + [Consumed]), n - 1);
    }
  }

  lemma DropConserves(f: Feed)
    requires Conserved(f)
    ensures Conserved(Drop(f))
    ensures Drop(f).delivered == f.delivered
  {
    if f.queue != [] {
      LeaveConserves(f, Dropped);
      assert f.consumed + [] == f.consumed;
    }
  }

  lemma SendConserves(f: Feed, ev: Event)
    requires Conserved(f)
    ensures Conserved(Send(f, ev))
  {
    assert Send(f, ev).delivered[..|f.fates|] == f.delivered[..|f.fates|];
  }

  /** A push, whatever the reader does meanwhile: the newest event is queued, at most one event is dropped,
      and only when the channel was full. */
  lemma PushConserves(f: Feed, cap: nat, ev: Event, race: Race)
    requires Conserved(f) && 0 < cap && |f.queue| <= cap
    ensures var g := Push(f, cap, ev, race);
            && Conserved(g) && g.delivered == f.delivered + [ev]
            && 0 < |g.queue| <= cap && g.queue[|g.queue| - 1] == ev
            && f.dropped <= g.dropped <= f.dropped + 1
            && (g.dropped > f.dropped ==> race.before == 0 && |f.queue| == cap && race.during < cap)
            && (race == Race(0, 0, 0) ==> g.queue == LastN(f.queue + [ev], cap))
  {
    var ready := Take(f, race.before);
    TakeConserves(f, race.before);
    if |ready.queue| < cap {
      SendConserves(ready, ev);
    } else {
      PushFull(ready, ev, race);
    }
  }

  lemma PushFull(f: Feed, ev: Event, race: Race)
    requires Conserved(f) && f.queue != []
    ensures var g := Send(Take(Drop(Take(f, race.during)), race.after), ev);
            && Conserved(g) && g.delivered == f.delivered + [ev]
            && 0 < |g.queue| <= |f.queue| && g.queue[|g.queue| - 1] == ev
            && g.dropped == f.dropped + (if race.during < |f.queue| then 1 else 0)
            && (race.during == race.after == 0 ==> g.queue == f.queue[1..] + [ev])
  {
    var raced := Take(f, race.during);
    TakeConserves(f, race.during);
    DropConserves(raced);
    TakeConserves(Drop(raced), race.after);
    SendConserves(Take(Drop(raced), race.after), ev);
  }

  /** delivered = consumed + queued + dropped. */
  lemma Counted(f: Feed)
    requires Conserved(f)
    ensures |f.delivered| == |f.consumed| + |f.queue| + f.dropped
  {
    KeptCount(f.delivered[..|f.fates|], f.fates);
  }

  lemma {:induction false} KeptCount(s: seq<Event>, fates: seq<Fate>)
    requires |s| == |fates|
    ensures |Kept(s, fates)| + Lost(fates) == |s|
  {
    if s != [] {
      KeptCount(s[..|s| - 1], fates[..|s| - 1]);
    }
  }

  /** Where the i-th event the client sees (consumed, then queued) sits among the deliveries. */
  ghost predicate InOrder(seen: seq<Event>, delivered: seq<Event>, at: seq<nat>) {
    && |at| == |seen|
    && (forall i | 0 <= i < |at| :: at[i] < |delivered| && delivered[at[i]] == seen[i])
    && (forall i, j | 0 <= i < j < |at| :: at[i] < at[j])
  }

  /** What the client has seen or will see is a subsequence of the deliveries, and it ends with the newest. */
  lemma SeenInOrder(f: Feed) returns (at: seq<nat>)
    requires Conserved(f)
    ensures InOrder(f.consumed + f.queue, f.delivered, at)
  {
    var n := |f.fates|;
    var left := KeptInOrder(f.delivered[..n], f.fates);
    at := left + seq(|f.queue|, i => n + i);
  }

  lemma {:induction false} KeptInOrder(s: seq<Event>, fates: seq<Fate>) returns (at: seq<nat>)
    requires |s| == |fates|
    ensures InOrder(Kept(s, fates), s, at)
  {
    if s == [] {
      at := [];
    } else {
      var n := |s| - 1;
      at := KeptInOrder(s[..n], fates[..n]);
      OneMoreInOrder(Kept(s[..n], fates[..n]), s, at);
      if fates[n].Consumed? {
        at := at + [n];
      }
    }
  }

  lemma OneMoreInOrder(seen: seq<Event>, s: seq<Event>, at: seq<nat>)
    requires s != [] && InOrder(seen, s[..|s| - 1], at)
    ensures InOrder(seen, s, at) && InOrder(seen + [s[|s| - 1]], s, at + [|s| - 1])
  {
  }

  class Subscription {
    const id: string
    const channelCap: nat
    const ring: ReplayRing
    var queue: seq<Event>
    var dropped: nat
    var closed: bool
    var attached: bool
    var gen: HubIds.Counter
    ghost var feed: Feed

    ghost predicate Aligned()
      reads this
    {
      |queue| <= channelCap && feed.queue == queue && feed.dropped == dropped
    }

    ghost predicate Valid()
      reads this, ring, ring.buf
    {
      0 < channelCap && Aligned() && ring.Valid() && ring.history == feed.delivered
    }

    constructor (id: string, channelCap: nat, replayCap: int)
      requires 0 < channelCap
      ensures Valid() && this.id == id && this.channelCap == channelCap
      ensures ring.buf.Length == (if replayCap <= 0 then 0 else replayCap)
      ensures feed == EMPTY && !closed && !attached && gen == 0
      ensures fresh(ring) && fresh(ring.buf)
    {
      this.id, this.channelCap := id, channelCap;
      ring := new ReplayRing(replayCap);
      queue, dropped, closed, attached, gen := [], 0, false, false, 0;
      feed := EMPTY;
    }

    /** The stream goroutine: takes any number of queued events, without the hub's lock. */
    method Reader() returns (n: nat)
      requires Aligned()
      modifies this`queue, this`feed
      ensures Aligned() && feed == Take(old(feed), n)
      ensures |queue| <= |old(queue)| && feed.delivered == old(feed.delivered)
    {
      n :| n <= |queue|;
      TakeDelivers(feed, n);
      feed := Take(feed, n);
      queue := queue[n..];
    }

    /** The non-blocking send; on a closed channel it panics, hence the precondition. */
    method TrySend(ev: Event) returns (sent: bool)
      requires Aligned() && !closed
      modifies this`queue, this`feed
      ensures Aligned() && sent == (|old(queue)| < channelCap)
      ensures feed == if sent then Send(old(feed), ev) else old(feed)
    {
      sent := |queue| < channelCap;
      if sent {
        feed := Send(feed, ev);
        queue := queue + [ev];
      }
    }

    /** The non-blocking receive that makes room. */
    method DropOldest()
      requires Aligned()
      modifies this`queue, this`dropped, this`feed
      ensures Aligned() && feed == Drop(old(feed))
    {
      feed := Drop(feed);
      if queue != [] {
        queue := queue[1..];
        dropped := dropped + 1;
      }
    }

    method Enqueue(ev: Event) returns (ghost race: Race)
      requires Valid() && !closed
      modifies this`queue, this`dropped, this`feed, ring, ring.buf
      ensures Valid() && feed == Push(old(feed), channelCap, ev, race)
      ensures ring.Contents() == LastN(feed.delivered, ring.buf.Length)
    {
      ring.Append(ev);
      race := PushOut(ev);
    }

    /** The loop ends whatever the reader does: a failed send is followed by one event less in the channel. */
    method PushOut(ev: Event) returns (ghost race: Race)
      requires 0 < channelCap && Aligned() && !closed
      modifies this`queue, this`dropped, this`feed
      ensures Aligned() && feed == Push(old(feed), channelCap, ev, race)
      ensures feed.delivered == old(feed.delivered) + [ev]
    {
      race := Race(0, 0, 0);
      ghost var failed := false;
      while true
        invariant Aligned() && feed.delivered == old(feed.delivered)
        invariant !failed ==> feed == old(feed)
        invariant failed ==> |queue| < channelCap && |Take(old(feed), race.before).queue| >= channelCap
                             && feed == Drop(Take(Take(old(feed), race.before), race.during))
        decreases |queue|
      {
        var n := Reader();
        var sent := TrySend(ev);
        if sent {
          race := if failed then race.(after := n) else Race(n, 0, 0);
          return;
        }
        var m := Reader();
        race, failed := Race(n, m, 0), true;
        DropOldest();
      }
    }

    /** Closing a closed channel panics, hence the precondition. */
    method Close()
      requires Valid() && !closed
      modifies this`closed
      ensures Valid() && closed
    {
      closed := true;
    }

    /** A client becomes the single consumer. */
    method Claim()
      requires Valid() && !attached
      modifies this`attached
      ensures Valid() && attached
    {
      attached := true;
    }

    /** The client is gone: a new retention window, numbered on a 64-bit counter. */
    method Release()
      requires Valid() && attached
      modifies this`attached, this`gen
      ensures Valid() && !attached && gen == HubIds.Bump(old(gen))
    {
      attached := false;
      gen := HubIds.Bump(gen);
    }
  }
}
