/** The hub itself: subscriptions that are updated in place, each call proved to be one step of the state
    machine (internal/notify/hub.go). */
module HubClass {
  import opened Options
  import opened Picking
  import opened HubIds
  import opened HubRing
  import opened HubFeed
  import Protocol = HubProtocol
  import Calls = HubCalls

  datatype AttachStatus = AttachUnknown | AttachOK | AttachBusy

  /** What a detach hands to its timer. */
  datatype Callback = Callback(id: string, sub: Subscription, gen: Counter)

  ghost predicate Same(s: Subscription, o: Protocol.Object)
    reads s
  {
    && s.id == o.id && s.attached == o.attached && s.closed == o.closed
    && s.feed == o.feed && s.gen == o.gen
  }

  class Hub {
    const channelCap: nat
    const replayCap: nat
    var subs: map<string, Subscription>
    var shutdown: bool
    var counter: Counter
    /** Every subscription ever made, by number. */
    ghost var objects: seq<Subscription>
    ghost var model: Protocol.Hub

    /** Every part of every subscription, with the subscription's number: no two of them share anything. */
    ghost var owner: map<object, nat>

    ghost predicate Owns(o: nat, x: object)
      reads this
    {
      x in owner && owner[x] == o
    }

    /** Number o: its parts belong to the hub, and its fields are the model's. */
    ghost predicate Held(o: nat)
      requires o < |objects| == |model.objects|
      reads this, owner.Keys
    {
      var s := objects[o];
      && Owns(o, s) && Owns(o, s.ring) && Owns(o, s.ring.buf)
      && s.Valid() && s.channelCap == channelCap && s.ring.buf.Length == replayCap
      && Same(s, model.objects[o])
    }

    ghost predicate Valid()
      reads this, owner.Keys
    {
      && this !in owner
      && 0 < channelCap && 0 < replayCap
      && Protocol.Sound(model)
      && model.channelCap == channelCap && model.replayCap == replayCap
      && model.shutdown == shutdown && model.minted == counter
      && |model.objects| == |objects|
      && (forall o | 0 <= o < |objects| :: Held(o))
      && (forall id :: id in subs <==> id in model.subs)
      && (forall id | id in subs :: subs[id] == objects[model.subs[id]] && !model.objects[model.subs[id]].closed)
    }

    lemma Found(id: string)
      requires Valid() && id in subs
      ensures id in model.subs && model.subs[id] < |objects| && Held(model.subs[id])
      ensures subs[id] == objects[model.subs[id]] && !subs[id].closed && subs[id].id == id
    {
    }

    /** A step that changes no subscription but number o leaves the others in order. */
    twostate lemma OthersHeld(o: nat)
      requires old(Valid()) && o < |objects|
      requires objects == old(objects) && owner == old(owner) && |model.objects| == |objects| && Held(o)
      requires forall p | 0 <= p < |objects| && p != o :: model.objects[p] == old(model).objects[p]
      requires forall x | x in owner && owner[x] != o :: unchanged(x)
      ensures forall p | 0 <= p < |objects| :: Held(p)
    {
      forall p | 0 <= p < |objects| && p != o
        ensures Held(p)
      {
        assert old(Held(p));
      }
    }

    /** So it keeps the hub valid when, besides, the same ids are registered. */
    twostate lemma OneChanged(o: nat)
      requires old(Valid()) && o < |objects|
      requires objects == old(objects) && owner == old(owner) && |model.objects| == |objects| && Held(o)
      requires forall p | 0 <= p < |objects| && p != o :: model.objects[p] == old(model).objects[p]
      requires forall x | x in owner && owner[x] != o :: unchanged(x)
      requires Protocol.Sound(model) && subs == old(subs) && model.subs == old(model).subs
      requires model.channelCap == channelCap && model.replayCap == replayCap
      requires model.shutdown == shutdown && model.minted == counter
      requires model.objects[o].closed == old(model).objects[o].closed
      ensures Valid()
    {
      OthersHeld(o);
    }

    /** The same for a step that changes no subscription at all. */
    twostate lemma NoneChanged()
      requires old(Valid()) && objects == old(objects) && owner == old(owner) && model.objects == old(model).objects
      requires forall x | x in owner :: unchanged(x)
      ensures forall p | 0 <= p < |objects| :: Held(p)
    {
      forall p | 0 <= p < |objects|
        ensures Held(p)
      {
        assert old(Held(p));
      }
    }

    /** The same for a step that makes one more subscription. */
    twostate lemma AddedOne(new s: Subscription)
      requires old(Valid()) && objects == old(objects) + [s] && forall x | x in old(owner) :: x in owner && owner[x] == old(owner)[x]
      requires |model.objects| == |objects| && Held(|objects| - 1)
      requires s !in old(owner) && s.ring !in old(owner) && s.ring.buf !in old(owner)
      requires forall p | 0 <= p < |old(objects)| :: model.objects[p] == old(model).objects[p]
      requires forall x | x in old(owner) :: unchanged(x)
      ensures forall p | 0 <= p < |objects| :: Held(p)
    {
      forall p | 0 <= p < |old(objects)|
        ensures Held(p)
      {
        assert old(Held(p));
      }
    }

    twostate lemma AddedKeepsValid(id: string, new s: Subscription)
      requires old(Valid()) && !old(shutdown) && id !in old(subs) && this !in owner
      requires |objects| == |old(objects)| + 1 && |model.objects| == |objects|
      requires forall p | 0 <= p < |objects| :: Held(p)
      requires objects == old(objects) + [s] && subs == old(subs)[id := s]
      requires shutdown == old(shutdown) && counter == old(counter) && model == Protocol.Adding(old(model), id)
      ensures Valid()
    {
    }

    lemma Retained(o: nat)
      requires o < |objects| == |model.objects| && Held(o) && model.replayCap == replayCap
      ensures forall last :: ReplaySince(objects[o].ring.Contents(), last) == Protocol.ReplayFor(model, o, last)
    {
    }

    /** withDefaults: non-positive options take the protocol's defaults. */
    constructor (channelCap: int, replayBuffer: int)
      ensures Valid() && model == Protocol.Fresh(this.channelCap, this.replayCap)
      ensures this.channelCap == (if channelCap <= 0 then 256 else channelCap)
      ensures this.replayCap == (if replayBuffer <= 0 then 100 else replayBuffer)
      ensures owner == map[]
    {
      this.channelCap := if channelCap <= 0 then 256 else channelCap;
      this.replayCap := if replayBuffer <= 0 then 100 else replayBuffer;
      subs, shutdown, counter := map[], false, 0;
      objects := [];
      model := Protocol.Fresh(if channelCap <= 0 then 256 else channelCap, if replayBuffer <= 0 then 100 else replayBuffer);
      owner := map[];
    }

    method Add(id: string)
      requires Valid()
      modifies this
      ensures Valid() && model == Protocol.Adding(old(model), id)
      ensures fresh(owner.Keys - old(owner.Keys))
    {
      if shutdown || id in subs {
        return;
      }
      AddNew(id);
    }

    method AddNew(id: string)
      requires Valid() && !shutdown && id !in subs
      modifies this
      ensures Valid() && model == Protocol.Adding(old(model), id)
      ensures fresh(owner.Keys - old(owner.Keys))
    {
      var s := new Subscription(id, channelCap, replayCap);
      Register(id, s);
      AddedOne(s);
      AddedKeepsValid(id, s);
    }

    method Register(id: string, s: Subscription)
      requires |objects| == |model.objects| && Protocol.Sound(model) && !model.shutdown && id !in model.subs && this !in owner
      requires s.Valid() && s.channelCap == channelCap && s.ring.buf.Length == replayCap
      requires s.id == id && s.feed == EMPTY && !s.closed && !s.attached && s.gen == 0
      requires s !in owner && s.ring !in owner && s.ring.buf !in owner
      modifies this`subs, this`objects, this`owner, this`model
      ensures model == Protocol.Adding(old(model), id) && |model.objects| == |objects|
      ensures subs == old(subs)[id := s] && objects == old(objects) + [s] && Held(|objects| - 1)
      ensures owner.Keys == old(owner.Keys) + {s, s.ring, s.ring.buf}
      ensures forall x | x in old(owner) :: owner[x] == old(owner)[x]
    {
      subs := subs[id := s];
      owner := owner[s := |objects|][s.ring := |objects|][s.ring.buf := |objects|];
      objects := objects + [s];
      model := Protocol.Adding(model, id);
    }

    /** Closing a channel twice panics: that the subscription is still open is what the state machine keeps. */
    method RemoveLocked(id: string) returns (removed: bool)
      requires Valid()
      modifies this, if id in subs then {subs[id]} else {}
      ensures Valid() && model == Protocol.Removing(old(model), id)
      ensures removed == (id in old(subs)) && owner == old(owner)
    {
      if id !in subs {
        return false;
      }
      ghost var o := model.subs[id];
      Found(id);
      Forget(o, subs[id], id);
      OthersHeld(o);
      return true;
    }

    method Forget(ghost o: nat, s: Subscription, id: string)
      requires o < |objects| == |model.objects| && s == objects[o] && Held(o) && !s.closed
      requires Protocol.Sound(model) && id in model.subs && model.subs[id] == o
      modifies this`subs, this`model, s
      ensures model == Protocol.Removing(old(model), id) && subs == old(subs) - {id}
      ensures |model.objects| == |objects| && Held(o)
    {
      s.Close();
      subs := subs - {id};
      model := Protocol.Removing(model, id);
    }

    /** The part under the lock; returns whether the removal hook is to be called once the lock is released. */
    method Remove(id: string) returns (hook: bool)
      requires Valid()
      modifies this, if id in subs then {subs[id]} else {}
      ensures Valid() && model == Protocol.Removing(old(model), id)
      ensures hook == (id in old(subs)) && owner == old(owner)
      ensures hook ==> HookDue(old(model).subs[id], id)
    {
      hook := RemoveLocked(id);
    }

    /** Number o was removed from under this id, and the hook is still to be told. */
    ghost predicate HookDue(o: nat, id: string)
      reads this
    {
      o < |model.objects| && model.objects[o].hookDue && model.objects[o].id == id
    }

    /** hook(id): the lock is not held, so any other call may have come since the removal. */
    method CallHook(id: string, ghost o: nat)
      requires Valid() && HookDue(o, id)
      modifies this`model
      ensures Valid() && model == Protocol.Hooking(old(model), o) && !HookDue(o, id)
    {
      assert Held(o);
      model := Protocol.Hooking(model, o);
      OneChanged(o);
    }

    method Deliver(id: string, ev: Event) returns (delivered: bool, ghost race: Race)
      requires Valid()
      modifies this, if id in subs then {subs[id], subs[id].ring, subs[id].ring.buf} else {}
      ensures Valid() && model == Protocol.Delivering(old(model), id, ev, race)
      ensures delivered == (!old(shutdown) && id in old(subs)) && owner == old(owner)
      ensures if delivered
              then exists sent :: Calls.SentAs(ev, sent, old(counter)) && Calls.OneMoreSent(old(model), old(model).subs[id], sent, model)
              else model == old(model)
    {
      race := Race(0, 0, 0);
      if shutdown {
        return false, race;
      }
      if id !in subs {
        return false, race;
      }
      race := DeliverOpen(id, subs[id], ev);
      Calls.DeliverySent(old(model), id, ev, race);
      delivered := true;
    }

    method DeliverOpen(id: string, s: Subscription, ev: Event) returns (ghost race: Race)
      requires Valid() && !shutdown && id in subs && s == subs[id]
      modifies this`counter, this`model, s, s.ring, s.ring.buf
      ensures Valid() && model == Protocol.Delivering(old(model), id, ev, race)
    {
      ghost var o, was := model.subs[id], model;
      Found(id);
      var sent := Stamp(ev);
      race := DeliverTo(o, s, sent, ev.id == "");
      OneChanged(o);
      assert model == Protocol.Delivering(was, id, ev, race);
    }

    /** An event without an id gets the next one, under the lock. */
    method Stamp(ev: Event) returns (sent: Event)
      requires model.minted == counter
      ensures sent == Protocol.Stamped(model, ev)
    {
      sent := if ev.id == "" then ev.(id := FormatId(Bump(counter))) else ev;
    }

    method DeliverTo(ghost o: nat, s: Subscription, sent: Event, mint: bool) returns (ghost race: Race)
      requires o < |objects| == |model.objects| && s == objects[o] && Held(o) && !s.closed && Protocol.Sound(model)
      requires model.channelCap == channelCap
      modifies this`counter, this`model, s, s.ring, s.ring.buf
      ensures |model.objects| == |objects| && Held(o)
      ensures counter == if mint then Bump(old(counter)) else old(counter)
      ensures model == Protocol.Fed(old(model), o, sent, Push(old(model).objects[o].feed, old(model).channelCap, sent, race), counter)
    {
      race := s.Enqueue(sent);
      counter := if mint then Bump(counter) else counter;
      model := Protocol.Fed(model, o, sent, s.feed, counter);
    }

    method Attach(id: string, lastEventId: string) returns (ch: Option<Subscription>, replay: Replay, status: AttachStatus)
      requires Valid()
      modifies this, if id in subs then {subs[id]} else {}
      ensures Valid() && model == Protocol.Attaching(old(model), id, lastEventId)
      ensures owner == old(owner)
      ensures status == if id !in old(subs) || old(shutdown) then AttachUnknown
                        else if old(subs[id].attached) then AttachBusy else AttachOK
      ensures if status == AttachOK
              then ch == Some(old(subs)[id])
                   && model.log == Protocol.Then(old(model).log, Protocol.Attached(old(model).subs[id], replay))
              else ch == None && replay == Replay([], false)
    {
      if id !in subs || shutdown {
        return None, Replay([], false), AttachUnknown;
      }
      var s := subs[id];
      ghost var o := model.subs[id];
      Found(id);
      if s.attached {
        return None, Replay([], false), AttachBusy;
      }
      replay := AttachTo(o, s, id, lastEventId);
      OneChanged(o);
      return Some(s), replay, AttachOK;
    }

    method AttachTo(ghost o: nat, s: Subscription, id: string, lastEventId: string) returns (replay: Replay)
      requires o < |objects| == |model.objects| && s == objects[o] && Held(o) && !s.attached
      requires Protocol.Sound(model) && !model.shutdown && id in model.subs && model.subs[id] == o
      requires model.replayCap == replayCap
      modifies this`model, s
      ensures model == Protocol.Attaching(old(model), id, lastEventId)
      ensures |model.objects| == |objects| && Held(o)
      ensures replay == Protocol.ReplayFor(old(model), o, lastEventId)
    {
      Retained(o);
      replay := ReplayFrom(s.ring, lastEventId);
      s.Claim();
      model := Protocol.Attaching(model, id, lastEventId);
    }

    /** The returned callback is what the new retention timer will run. */
    method Detach(id: string) returns (armed: Option<Callback>)
      requires Valid()
      modifies this, if id in subs then {subs[id]} else {}
      ensures Valid() && model == Protocol.Detaching(old(model), id)
      ensures owner == old(owner)
      ensures if id !in old(subs) || old(shutdown) || !old(subs[id].attached) then armed == None && model == old(model)
              else armed.Some? && ArmedAs(armed.value, |old(model).timers|) && |model.timers| == |old(model).timers| + 1
    {
      if id !in subs || shutdown {
        return None;
      }
      var s := subs[id];
      ghost var o := model.subs[id];
      Found(id);
      if !s.attached {
        return None;
      }
      DetachFrom(o, s, id);
      OneChanged(o);
      return Some(Callback(id, s, s.gen));
    }

    method DetachFrom(ghost o: nat, s: Subscription, id: string)
      requires o < |objects| == |model.objects| && s == objects[o] && Held(o) && s.attached
      requires Protocol.Sound(model) && !model.shutdown && id in model.subs && model.subs[id] == o
      modifies this`model, s
      ensures model == Protocol.Detaching(old(model), id)
      ensures |model.objects| == |objects| && Held(o)
    {
      s.Release();
      model := Protocol.Detaching(model, id);
    }

    /** The callback is the one timer t was armed with. */
    ghost predicate ArmedAs(c: Callback, t: nat)
      reads this
    {
      && t < |model.timers| && model.timers[t].serial < |objects|
      && c.sub == objects[model.timers[t].serial] && c.id == c.sub.id
      && c.gen == model.timers[t].gen
    }

    /** The retention callback of timer t, which may run although the timer was stopped. */
    method Expire(c: Callback, ghost t: nat) returns (hook: bool)
      requires Valid() && ArmedAs(c, t) && !model.timers[t].fired
      modifies this, c.sub
      ensures Valid() && model == Protocol.Firing(old(model), t)
      ensures owner == old(owner)
      ensures hook == Protocol.Current(old(model), old(model).timers[t])
      ensures hook ==> HookDue(old(model).timers[t].serial, c.id)
    {
      ghost var was := model;
      ghost var o := model.timers[t].serial;
      model := Protocol.Fired(model, t);
      NoneChanged();
      assert Held(o);
      if c.id !in subs || subs[c.id] != c.sub {
        return false;
      }
      Found(c.id);
      assert model.subs[c.id] == o;
      if c.sub.attached || c.sub.gen != c.gen {
        return false;
      }
      hook := RemoveLocked(c.id);
    }

    /** A stream goroutine takes events from its channel between two calls. */
    method Read(ghost o: nat, s: Subscription) returns (n: nat)
      requires Valid() && o < |objects| && s == objects[o]
      modifies this`model, s
      ensures Valid() && model == Protocol.Reading(old(model), o, n)
      ensures owner == old(owner)
    {
      assert Held(o);
      n := s.Reader();
      model := Protocol.Reading(model, o, n);
      OneChanged(o);
    }

    /** Lock-free, and 0 for an unknown id. */
    method DroppedCount(id: string) returns (n: nat)
      requires Valid()
      ensures n == if id in model.subs then model.objects[model.subs[id]].feed.dropped else 0
    {
      if id !in subs {
        return 0;
      }
      Found(id);
      return subs[id].dropped;
    }

    method Shutdown()
      requires Valid()
      modifies this, subs.Values
      ensures Valid() && model == Protocol.ShuttingDown(old(model))
      ensures owner == old(owner)
    {
      if shutdown {
        return;
      }
      NoneClosedYet();
      CloseAll();
      GoDown();
    }

    method GoDown()
      requires |objects| == |model.objects| && Protocol.Sound(model) && !model.shutdown && ClosedBut({}) && this !in owner
      modifies this`shutdown, this`subs, this`model
      ensures shutdown && subs == map[] && model == Protocol.ShuttingDown(old(model)) && Protocol.Sound(model)
      ensures model == old(model).(shutdown := true, subs := map[], objects := model.objects, log := model.log)
      ensures |model.objects| == |objects| && forall o | 0 <= o < |objects| :: Held(o)
    {
      shutdown := true;
      subs := map[];
      model := Protocol.ShuttingDown(model);
      NowClosed();
    }

    twostate lemma NowClosed()
      requires |old(objects)| == |old(model).objects| && objects == old(objects) && owner == old(owner)
      requires |model.objects| == |objects|
      requires forall x | x in owner :: unchanged(x)
      requires forall o | 0 <= o < |objects| :: old(HeldButClosed(o))
      requires forall o | 0 <= o < |objects| :: model.objects[o] == old(model).objects[o].(closed := old(objects[o].closed))
      ensures forall o | 0 <= o < |objects| :: Held(o)
    {
      forall o | 0 <= o < |objects|
        ensures Held(o)
      {
        assert old(HeldButClosed(o));
      }
    }

    /** Mid-shutdown: every subscription is closed but the registered ones in `left`. */
    ghost predicate ClosedBut(left: set<string>)
      requires |objects| == |model.objects|
      reads this, owner.Keys
    {
      forall o | 0 <= o < |objects| ::
        && HeldButClosed(o)
        && objects[o].closed == (model.objects[o].closed || (Protocol.Live(model, o) && model.objects[o].id !in left))
    }

    method CloseOne(id: string, ghost o: nat, s: Subscription, ghost left: set<string>)
      requires |objects| == |model.objects| && ClosedBut(left) && id in left && Registered(id, o) && s == subs[id]
      modifies s
      ensures ClosedBut(left - {id})
    {
      assert HeldButClosed(o);
      OnlyThis(id, o, left);
      s.Close();
      OthersAsBefore(o);
    }

    /** Among the live objects only number o has the id. */
    lemma OnlyThis(id: string, o: nat, left: set<string>)
      requires Registered(id, o)
      ensures forall p | 0 <= p < |objects| && p != o && Protocol.Live(model, p) ::
                model.objects[p].id !in left <==> model.objects[p].id !in left - {id}
    {
    }

    twostate lemma OthersAsBefore(o: nat)
      requires |old(objects)| == |old(model).objects| && o < |objects|
      requires objects == old(objects) && owner == old(owner) && model == old(model)
      requires forall p | 0 <= p < |objects| :: old(HeldButClosed(p))
      requires forall x | x in owner && owner[x] != o :: unchanged(x)
      ensures forall p | 0 <= p < |objects| && p != o :: HeldButClosed(p) && objects[p].closed == old(objects[p].closed)
    {
      forall p | 0 <= p < |objects| && p != o
        ensures HeldButClosed(p) && objects[p].closed == old(objects[p].closed)
      {
        assert old(HeldButClosed(p));
      }
    }

    lemma NoneClosedYet()
      requires Valid()
      ensures ClosedBut(subs.Keys)
      ensures forall id | id in subs :: id in model.subs && Registered(id, model.subs[id])
    {
      forall o | 0 <= o < |objects|
        ensures HeldButClosed(o) && objects[o].closed == model.objects[o].closed
      {
        assert Held(o);
      }
    }

    /** The id's subscription is number o, live and open. */
    ghost predicate Registered(id: string, o: nat)
      reads this
    {
      && id in subs && o < |objects| == |model.objects| && subs[id] == objects[o]
      && Protocol.Live(model, o) && model.objects[o].id == id && !model.objects[o].closed
    }

    /** The shutdown's loop, in whatever order the map is walked. */
    method CloseAll()
      requires |objects| == |model.objects| && ClosedBut(subs.Keys)
      requires forall id | id in subs :: id in model.subs && Registered(id, model.subs[id])
      modifies subs.Values
      ensures ClosedBut({})
    {
      var left := subs.Keys;
      while left != {}
        invariant left <= subs.Keys && ClosedBut(left)
        decreases left
      {
        var id := AnyOf(left);
        CloseOne(id, model.subs[id], subs[id], left);
        left := left - {id};
      }
    }

    ghost predicate HeldButClosed(o: nat)
      requires o < |objects| == |model.objects|
      reads this, owner.Keys
    {
      var s := objects[o];
      && Owns(o, s) && Owns(o, s.ring) && Owns(o, s.ring.buf)
      && s.Valid() && s.channelCap == channelCap && s.ring.buf.Length == replayCap
      && Same(s, model.objects[o].(closed := s.closed))
    }
  }
}
