/** What each call of the hub does, told by the log and the channels alone, in any state a run can reach
    (internal/notify/hub.go). */
module HubCalls {
  import opened Options
  import opened HubIds
  import opened HubRing
  import opened HubFeed
  import opened HubProtocol

  /** The event as it is sent: with its own id, or the next value of the 64-bit counter as decimal text. */
  predicate SentAs(ev: Event, sent: Event, minted: Counter) {
    && sent.kind == ev.kind && sent.session == ev.session && sent.root == ev.root && sent.source == ev.source && sent.ts == ev.ts
    && if ev.id != "" then sent.id == ev.id
       else ParseId(sent.id) == Some((minted + 1) % 18_446_744_073_709_551_616) && sent.id == FormatId((minted + 1) % 18_446_744_073_709_551_616)
  }

  /** One more event was sent to object o, and nothing to any other. */
  ghost predicate OneMoreSent(h: Hub, o: nat, sent: Event, h': Hub) {
    && SentTo(h'.log, o) == SentTo(h.log, o) + [sent]
    && (forall p: nat | p != o :: SentTo(h'.log, p) == SentTo(h.log, p))
    && h'.subs == h.subs && h'.shutdown == h.shutdown
  }

  lemma BumpWraps(n: Counter)
    ensures Bump(n) == (n + 1) % 18_446_744_073_709_551_616
  {
  }

  lemma StampedAs(h: Hub, ev: Event)
    ensures SentAs(ev, Stamped(h, ev), h.minted)
  {
    BumpWraps(h.minted);
    ParseFormat(Bump(h.minted));
  }

  lemma DeliverySent(h: Hub, id: string, ev: Event, race: Race)
    requires Sound(h) && !h.shutdown && id in h.subs
    ensures var h' := Do(h, Deliver(id, ev, race));
            && SentAs(ev, Stamped(h, ev), h.minted) && OneMoreSent(h, h.subs[id], Stamped(h, ev), h')
            && h'.minted == if ev.id == "" then (h.minted + 1) % 18_446_744_073_709_551_616 else h.minted
  {
    BumpWraps(h.minted);
    StampedAs(h, ev);
  }

  /** The event was sent, and is the newest in its channel. */
  ghost predicate SentNow(h: Hub, o: nat, ev: Event, h': Hub) {
    && o < |h'.objects|
    && var queue := h'.objects[o].feed.queue;
       && queue != []
       && SentAs(ev, queue[|queue| - 1], h.minted) && OneMoreSent(h, o, queue[|queue| - 1], h')
       && h'.objects[o].feed.delivered == SentTo(h'.log, o)
       && h'.minted == if ev.id == "" then (h.minted + 1) % 18_446_744_073_709_551_616 else h.minted
  }

  lemma DeliveredNow(h: Hub, id: string, ev: Event, race: Race)
    requires Agrees(h) && AllConserved(h) && 0 < h.channelCap && !h.shutdown && id in h.subs
    ensures SentNow(h, h.subs[id], ev, Do(h, Deliver(id, ev, race)))
  {
    var h', o := Do(h, Deliver(id, ev, race)), h.subs[id];
    DeliverySent(h, id, ev, race);
    PushConserves(h.objects[o].feed, h.channelCap, Stamped(h, ev), race);
    DeliverAgrees(h, id, ev, race);
    assert ObjectAgrees(h', o);
  }

  /** In any run: a delivery to a registered id of a hub that is not shut down is sent, attached or not, and is
      the newest event queued; any other delivery changes nothing. */
  lemma DeliverySends(channelCap: nat, replayCap: nat, actions: seq<Action>, id: string, ev: Event, race: Race)
    requires 0 < channelCap
    ensures var h := Run(Fresh(channelCap, replayCap), actions);
            var h' := Do(h, Deliver(id, ev, race));
            if Did(h.log, Down) || id !in h.subs then h' == h else SentNow(h, h.subs[id], ev, h')
  {
    var h := Run(Fresh(channelCap, replayCap), actions);
    RunAgrees(channelCap, replayCap, actions);
    RunConserves(channelCap, replayCap, actions);
    if !Did(h.log, Down) && id in h.subs {
      DeliveredNow(h, id, ev, race);
    }
  }

  /** The id's object is one that was created and not closed, of a hub that is not down. */
  ghost predicate Serves(h: Hub, id: string) {
    id in h.subs && Open(h.log, h.subs[id])
  }

  /** Every call but a delivery and a retention callback: when it acts, and what it then does. */
  ghost predicate Answers(h: Hub, a: Action, h': Hub)
    requires Sound(h)
  {
    match a
    case Add(id) =>
      if Did(h.log, Down) || id in h.subs then h' == h
      else
        var o := |h.objects|;
        && h'.log == Then(h.log, Created(o)) && h'.subs == h.subs[id := o]
        && !InUse(h'.log, o) && SentTo(h'.log, o) == [] && h'.objects == h.objects + [Object(id, false, 0, 0, false, false, EMPTY)]
    case Remove(id) =>
      if id !in h.subs then h' == h
      else
        && h'.log == Then(h.log, Closed(h.subs[id])) && Owed(h'.log, h.subs[id])
        && forall x :: if x == id then x !in h'.subs else (x in h'.subs <==> x in h.subs) && (x in h.subs ==> h'.subs[x] == h.subs[x])
    case Attach(id, last) =>
      if !Serves(h, id) || InUse(h.log, h.subs[id]) then h' == h
      else h'.subs == h.subs && h'.log == Then(h.log, Attached(h.subs[id], ReplayFor(h, h.subs[id], last)))
    case Detach(id) =>
      if !Serves(h, id) || !InUse(h.log, h.subs[id]) then h' == h
      else
        var o := h.subs[id];
        && h'.subs == h.subs && h'.log == Then(h.log, Armed(o, |h.timers|)) && |h'.timers| == |h.timers| + 1
        && IdleSince(h'.log, o, |h.timers|) && !h'.timers[|h.timers|].fired && h'.timers[|h.timers|].serial == o
        && h'.timers[..|h.timers|] == h.timers
    case Hook(o) =>
      if !Owed(h.log, o) then h' == h
      else h'.log == Then(h.log, Hooked(o)) && h'.subs == h.subs && !Owed(h'.log, o)
    case Read(o, count) =>
      && h'.log == h.log && h'.subs == h.subs && |h'.objects| == |h.objects|
      && forall p | 0 <= p < |h.objects| ::
           var f, f' := h.objects[p].feed, h'.objects[p].feed;
           var n := if p != o then 0 else if count < |f.queue| then count else |f.queue|;
           f'.consumed == f.consumed + f.queue[..n] && f'.queue == f.queue[n..] && f'.dropped == f.dropped
    case Shutdown =>
      if Did(h.log, Down) then h' == h
      else
        && Did(h'.log, Down) && h'.subs == map[]
        && forall o: nat ::
             && (Did(h'.log, Closed(o)) <==> Did(h.log, Created(o)))
             && SentTo(h'.log, o) == SentTo(h.log, o) && Owed(h'.log, o) == Owed(h.log, o)
    case _ => true
  }

  lemma ServesIff(h: Hub, id: string)
    requires Agrees(h)
    ensures Serves(h, id) <==> id in h.subs && !h.shutdown
  {
    if id in h.subs {
      assert ObjectAgrees(h, h.subs[id]);
    }
  }

  lemma {:induction false} TakeTakes(f: Feed, n: nat)
    ensures var k := if n < |f.queue| then n else |f.queue|;
            Take(f, n).consumed == f.consumed + f.queue[..k] && Take(f, n).queue == f.queue[k..] && Take(f, n).dropped == f.dropped
    decreases n
  {
    if n > 0 && f.queue != [] {
      TakeTakes(f.(queue := f.queue[1..], consumed := f.consumed + [f.queue[0]], fates := f.fates + [Consumed]), n - 1);
    }
  }

  lemma AddAnswers(h: Hub, id: string)
    requires Agrees(h)
    ensures Answers(h, Add(id), Do(h, Add(id)))
  {
    NotBeforeCreated(h.log, |h.objects|);
  }

  lemma RemoveAnswers(h: Hub, id: string)
    requires Agrees(h)
    ensures Answers(h, Remove(id), Do(h, Remove(id)))
  {
    if id in h.subs {
      RemoveAgrees(h, id);
      assert ObjectAgrees(Do(h, Remove(id)), h.subs[id]);
    }
  }

  lemma AttachAnswers(h: Hub, id: string, last: string)
    requires Agrees(h)
    ensures Answers(h, Attach(id, last), Do(h, Attach(id, last)))
  {
    ServesIff(h, id);
    if id in h.subs {
      assert ObjectAgrees(h, h.subs[id]);
    }
  }

  lemma DetachAnswers(h: Hub, id: string)
    requires Agrees(h)
    ensures Answers(h, Detach(id), Do(h, Detach(id)))
  {
    ServesIff(h, id);
    if id in h.subs {
      assert ObjectAgrees(h, h.subs[id]);
    }
  }

  lemma HookAnswers(h: Hub, o: nat)
    requires Agrees(h)
    ensures Answers(h, Hook(o), Do(h, Hook(o)))
  {
    if o < |h.objects| {
      assert ObjectAgrees(h, o);
      if h.objects[o].hookDue {
        HookAgrees(h, o);
        assert ObjectAgrees(Do(h, Hook(o)), o);
      }
    } else {
      NotBeforeCreated(h.log, o);
    }
  }

  lemma ReadAnswers(h: Hub, o: nat, count: nat)
    requires Agrees(h)
    ensures Answers(h, Read(o, count), Do(h, Read(o, count)))
  {
    if o < |h.objects| {
      TakeTakes(h.objects[o].feed, count);
    }
  }

  lemma ShutdownAnswers(h: Hub)
    requires Agrees(h)
    ensures Answers(h, Shutdown, Do(h, Shutdown))
  {
    if !h.shutdown {
      forall o: nat
        ensures Did(Do(h, Shutdown).log, Closed(o)) <==> Did(h.log, Created(o))
        ensures SentTo(Do(h, Shutdown).log, o) == SentTo(h.log, o) && Owed(Do(h, Shutdown).log, o) == Owed(h.log, o)
      {
        ClosingsSee(h, |h.objects|, o);
        if o < |h.objects| {
          assert ObjectAgrees(h, o);
        } else {
          NotBeforeCreated(h.log, o);
        }
      }
      ClosingsSee(h, |h.objects|, 0);
    }
  }

  /** In any run, whatever was done before: each call acts exactly when the log says it may, and does this. */
  lemma CallsAnswer(channelCap: nat, replayCap: nat, actions: seq<Action>, a: Action)
    ensures var h := Run(Fresh(channelCap, replayCap), actions); Answers(h, a, Do(h, a))
  {
    var h := Run(Fresh(channelCap, replayCap), actions);
    RunAgrees(channelCap, replayCap, actions);
    match a
    case Add(id) => AddAnswers(h, id);
    case Remove(id) => RemoveAnswers(h, id);
    case Attach(id, last) => AttachAnswers(h, id, last);
    case Detach(id) => DetachAnswers(h, id);
    case Hook(o) => HookAnswers(h, o);
    case Read(o, count) => ReadAnswers(h, o, count);
    case Shutdown => ShutdownAnswers(h);
    case _ =>
  }
}
