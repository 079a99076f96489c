/** The hub as a state machine over its calls, the readers' moves and its retention timers
    (internal/notify/hub.go). Every call holds the one mutex, so each is one step, but for the removal hook: it
    is called after the mutex is released, so it is a step of its own, with any others before it. An object's
    number is its identity: removing a subscription and adding it again under the same id gives a new number.
    Stopping a timer may lose the race with its firing, so any armed timer may still fire, once, at any later
    step. */
module HubProtocol {
  import opened Options
  import opened HubIds
  import opened HubRing
  import opened HubFeed

  /** `detaches` is the true number of detaches, `gen` the 64-bit counter that stands for it; `hookDue` says the
      subscription was removed and its hook is still to be called. */
  datatype Object = Object(id: string, attached: bool, gen: Counter, detaches: nat, closed: bool, hookDue: bool, feed: Feed)
  datatype Timer = Timer(serial: nat, gen: Counter, detaches: nat, fired: bool)

  /** What the world sees of a step. */
  datatype Effect =
    | Created(serial: nat)
    | Sent(serial: nat, ev: Event)
    | Closed(serial: nat)
    | Hooked(serial: nat)
    | Attached(serial: nat, replay: Replay)
    | Armed(serial: nat, timer: nat)
    | Down

  /** Everything done so far, newest last. */
  datatype Log = Nothing | Then(past: Log, effect: Effect)

  datatype Hub = Hub(
    channelCap: nat,
    replayCap: nat,
    subs: map<string, nat>,
    objects: seq<Object>,
    timers: seq<Timer>,
    shutdown: bool,
    minted: Counter,
    log: Log)

  datatype Action =
    | Add(id: string)
    | Remove(id: string)
    | Deliver(id: string, ev: Event, race: Race)
    | Attach(id: string, last: string)
    | Detach(id: string)
    | Fire(timer: nat)
    | Hook(serial: nat)
    | Read(serial: nat, count: nat)
    | Shutdown

  function Fresh(channelCap: nat, replayCap: nat): Hub {
    Hub(channelCap, replayCap, map[], [], [], false, 0, Nothing)
  }

  ghost predicate Sound(h: Hub) {
    && (forall id | id in h.subs :: |h.objects| > h.subs[id] && h.objects[h.subs[id]].id == id)
    && (forall t | 0 <= t < |h.timers| :: |h.objects| > h.timers[t].serial)
  }

  predicate Live(h: Hub, o: nat)
    requires o < |h.objects|
  {
    h.objects[o].id in h.subs && h.subs[h.objects[o].id] == o
  }

  /** seq.Add(1) on a 64-bit counter, then its decimal text. */
  function Mint(h: Hub): string { FormatId(Bump(h.minted)) }

  function Adding(h: Hub, id: string): (r: Hub)
    requires Sound(h)
    ensures Sound(r)
  {
    if h.shutdown || id in h.subs then h
    else h.(subs := h.subs[id := |h.objects|], objects := h.objects + [Object(id, false, 0, 0, false, false, EMPTY)],
            log := Then(h.log, Created(|h.objects|)))
  }

  function Removing(h: Hub, id: string): (r: Hub)
    requires Sound(h)
    ensures Sound(r)
  {
    if id !in h.subs then h
    else
      var o := h.subs[id];
      h.(subs := h.subs - {id}, objects := h.objects[o := h.objects[o].(closed := true, hookDue := true)],
         log := Then(h.log, Closed(o)))
  }

  /** hook(id), after the lock is released. */
  function Hooking(h: Hub, o: nat): (r: Hub)
    requires Sound(h)
    ensures Sound(r)
  {
    if o >= |h.objects| || !h.objects[o].hookDue then h
    else h.(objects := h.objects[o := h.objects[o].(hookDue := false)], log := Then(h.log, Hooked(o)))
  }

  function Stamped(h: Hub, ev: Event): Event {
    if ev.id == "" then ev.(id := Mint(h)) else ev
  }

  /** The event is in the object's feed. */
  function Fed(h: Hub, o: nat, sent: Event, feed: Feed, minted: Counter): (r: Hub)
    requires Sound(h) && o < |h.objects|
    ensures Sound(r) && r.channelCap == h.channelCap && r.replayCap == h.replayCap && r.shutdown == h.shutdown
    ensures r.subs == h.subs && r.minted == minted && |r.objects| == |h.objects|
    ensures r.objects[o].closed == h.objects[o].closed && forall p | 0 <= p < |h.objects| && p != o :: r.objects[p] == h.objects[p]
  {
    h.(objects := h.objects[o := h.objects[o].(feed := feed)], minted := minted, log := Then(h.log, Sent(o, sent)))
  }

  function Delivering(h: Hub, id: string, ev: Event, race: Race): (r: Hub)
    requires Sound(h)
    ensures Sound(r)
  {
    if h.shutdown || id !in h.subs then h
    else
      var o := h.subs[id];
      Fed(h, o, Stamped(h, ev), Push(h.objects[o].feed, h.channelCap, Stamped(h, ev), race),
          if ev.id == "" then Bump(h.minted) else h.minted)
  }

  function ReplayFor(h: Hub, o: nat, last: string): Replay
    requires o < |h.objects|
  {
    HubRing.ReplaySince(LastN(h.objects[o].feed.delivered, h.replayCap), last)
  }

  function Attaching(h: Hub, id: string, last: string): (r: Hub)
    requires Sound(h)
    ensures Sound(r)
  {
    if h.shutdown || id !in h.subs || h.objects[h.subs[id]].attached then h
    else
      var o := h.subs[id];
      h.(objects := h.objects[o := h.objects[o].(attached := true)],
         log := Then(h.log, Attached(o, ReplayFor(h, o, last))))
  }

  function Detaching(h: Hub, id: string): (r: Hub)
    requires Sound(h)
    ensures Sound(r)
  {
    if h.shutdown || id !in h.subs || !h.objects[h.subs[id]].attached then h
    else
      var o := h.subs[id];
      var gen, detaches := Bump(h.objects[o].gen), h.objects[o].detaches + 1;
      h.(objects := h.objects[o := h.objects[o].(attached := false, gen := gen, detaches := detaches)],
         timers := h.timers + [Timer(o, gen, detaches, false)], log := Then(h.log, Armed(o, |h.timers|)))
  }

  /** The retention callback's test, turned round: same object, still detached, same generation. */
  predicate Current(h: Hub, t: Timer)
    requires t.serial < |h.objects|
  {
    && Live(h, t.serial)
    && !h.objects[t.serial].attached
    && h.objects[t.serial].gen == t.gen
  }

  function Fired(h: Hub, t: nat): (r: Hub)
    requires Sound(h) && t < |h.timers|
    ensures Sound(r)
  {
    h.(timers := h.timers[t := h.timers[t].(fired := true)])
  }

  function Firing(h: Hub, t: nat): (r: Hub)
    requires Sound(h)
    ensures Sound(r)
  {
    if t >= |h.timers| || h.timers[t].fired then h
    else if Current(h, h.timers[t]) then Removing(Fired(h, t), h.objects[h.timers[t].serial].id)
    else Fired(h, t)
  }

  function Reading(h: Hub, o: nat, count: nat): (r: Hub)
    requires Sound(h)
    ensures Sound(r)
  {
    if o >= |h.objects| then h
    else h.(objects := h.objects[o := h.objects[o].(feed := Take(h.objects[o].feed, count))])
  }

  /** The shutdown's closes, for the first n objects. */
  function Closings(h: Hub, n: nat): Log
    requires n <= |h.objects|
  {
    if n == 0 then Then(h.log, Down)
    else if Live(h, n - 1) then Then(Closings(h, n - 1), Closed(n - 1))
    else Closings(h, n - 1)
  }

  function AllClosed(h: Hub): seq<Object> {
    seq(|h.objects|, o requires 0 <= o < |h.objects| => if Live(h, o) then h.objects[o].(closed := true) else h.objects[o])
  }

  function ShuttingDown(h: Hub): (r: Hub)
    requires Sound(h)
    ensures Sound(r)
  {
    if h.shutdown then h
    else h.(shutdown := true, subs := map[], objects := AllClosed(h), log := Closings(h, |h.objects|))
  }

  function Do(h: Hub, a: Action): (r: Hub)
    requires Sound(h)
    ensures Sound(r)
  {
    match a
    case Add(id) => Adding(h, id)
    case Remove(id) => Removing(h, id)
    case Deliver(id, ev, race) => Delivering(h, id, ev, race)
    case Attach(id, last) => Attaching(h, id, last)
    case Detach(id) => Detaching(h, id)
    case Fire(t) => Firing(h, t)
    case Hook(o) => Hooking(h, o)
    case Read(o, count) => Reading(h, o, count)
    case Shutdown => ShuttingDown(h)
  }

  function Run(h: Hub, actions: seq<Action>): (r: Hub)
    requires Sound(h)
    ensures Sound(r)
  {
    if actions == [] then h else Do(Run(h, actions[..|actions| - 1]), actions[|actions| - 1])
  }

  // ----- the law of effects -----

  predicate Did(log: Log, e: Effect) {
    log.Then? && (log.effect == e || Did(log.past, e))
  }

  /** The last attach or detach of the object was an attach. */
  predicate InUse(log: Log, o: nat) {
    match log
    case Nothing => false
    case Then(past, e) => (e.Attached? && e.serial == o) || (!(e.Armed? && e.serial == o) && InUse(past, o))
  }

  /** The timer was armed for the object, and the object has had no attach since. */
  predicate IdleSince(log: Log, o: nat, t: nat) {
    match log
    case Nothing => false
    case Then(past, e) => e == Armed(o, t) || (!(e.Attached? && e.serial == o) && IdleSince(past, o, t))
  }

  function SentTo(log: Log, o: nat): seq<Event> {
    match log
    case Nothing => []
    case Then(past, e) => SentTo(past, o) + if e.Sent? && e.serial == o then [e.ev] else []
  }

  predicate Open(past: Log, o: nat) {
    Did(past, Created(o)) && !Did(past, Closed(o)) && !Did(past, Down)
  }

  /** The object was removed, not closed by a shutdown, and its hook has not been called. */
  predicate Owed(log: Log, o: nat) {
    match log
    case Nothing => false
    case Then(past, e) => (e == Closed(o) && !Did(past, Down)) || (e != Hooked(o) && Owed(past, o))
  }

  /** What may come after `past`: an object is created once; it is sent to, attached and detached only while
      open, and by one consumer at a time; it is closed once; a hook is called only when it is owed for a
      removal; and a hub is shut down once. */
  predicate Allowed(past: Log, e: Effect) {
    match e
    case Created(o) => !Did(past, e) && !Did(past, Down)
    case Sent(o, _) => Open(past, o)
    case Closed(o) => Did(past, Created(o)) && !Did(past, e)
    case Hooked(o) => Owed(past, o)
    case Attached(o, _) => Open(past, o) && !InUse(past, o)
    case Armed(o, _) => Open(past, o) && InUse(past, o)
    case Down => !Did(past, Down)
  }

  predicate Lawful(log: Log) {
    log.Then? ==> Lawful(log.past) && Allowed(log.past, log.effect)
  }

  // ----- the fields agree with what was done -----

  ghost predicate ObjectAgrees(h: Hub, o: nat)
    requires o < |h.objects|
  {
    && (h.objects[o].closed <==> Did(h.log, Closed(o)))
    && (h.objects[o].closed <==> !Live(h, o))
    && (h.objects[o].hookDue <==> Owed(h.log, o))
    && (h.objects[o].attached <==> InUse(h.log, o))
    && (h.objects[o].detaches < WIDTH ==> h.objects[o].gen == h.objects[o].detaches)
    && h.objects[o].feed.delivered == SentTo(h.log, o)
  }

  ghost predicate TimerAgrees(h: Hub, t: nat)
    requires t < |h.timers|
  {
    var o := h.timers[t].serial;
    && o < |h.objects|
    && h.timers[t].detaches <= h.objects[o].detaches
    && (h.timers[t].detaches < WIDTH ==> h.timers[t].gen == h.timers[t].detaches)
    && (IdleSince(h.log, o, t) <==> !h.objects[o].attached && h.objects[o].detaches == h.timers[t].detaches)
  }

  ghost predicate LogAgrees(h: Hub) {
    && Lawful(h.log)
    && (forall o: nat :: Did(h.log, Created(o)) <==> o < |h.objects|)
    && (forall o: nat, t: nat :: IdleSince(h.log, o, t) ==> t < |h.timers|)
    && (Did(h.log, Down) <==> h.shutdown)
    && (h.shutdown ==> forall id :: id !in h.subs)
  }

  ghost predicate Agrees(h: Hub) {
    && Sound(h) && LogAgrees(h)
    && (forall o | 0 <= o < |h.objects| :: ObjectAgrees(h, o))
    && (forall t | 0 <= t < |h.timers| :: TimerAgrees(h, t))
  }

  /** No effect mentions an object before it is created. */
  lemma {:induction false} NotBeforeCreated(log: Log, o: nat)
    requires Lawful(log) && !Did(log, Created(o))
    ensures !Did(log, Closed(o)) && !Owed(log, o) && !InUse(log, o) && SentTo(log, o) == []
  {
    if log.Then? {
      NotBeforeCreated(log.past, o);
    }
  }

  lemma Next(log: Log, e: Effect)
    ensures forall x :: Did(Then(log, e), x) <==> e == x || Did(log, x)
    ensures forall o: nat, t: nat :: IdleSince(Then(log, e), o, t) ==> e == Armed(o, t) || IdleSince(log, o, t)
  {
  }

  lemma LogNext(h: Hub, h': Hub, e: Effect)
    requires LogAgrees(h) && Allowed(h.log, e) && !e.Down? && h'.log == Then(h.log, e)
    requires |h'.objects| == |h.objects| + (if e.Created? then 1 else 0) && (e.Created? ==> e.serial == |h.objects|)
    requires |h'.timers| == |h.timers| + (if e.Armed? then 1 else 0) && (e.Armed? ==> e.timer == |h.timers|)
    requires h'.shutdown == h.shutdown && (h.shutdown ==> h'.subs == h.subs)
    ensures LogAgrees(h')
  {
    Next(h.log, e);
  }

  lemma AddObjects(h: Hub, id: string)
    requires Agrees(h) && !h.shutdown && id !in h.subs
    ensures forall o | 0 <= o <= |h.objects| :: ObjectAgrees(Adding(h, id), o)
  {
    var h', n := Adding(h, id), |h.objects|;
    NotBeforeCreated(h.log, n);
    forall o | 0 <= o < n
      ensures ObjectAgrees(h', o)
    {
      assert ObjectAgrees(h, o);
      assert h'.objects[o] == h.objects[o];
    }
  }

  lemma AddAgrees(h: Hub, id: string)
    requires Agrees(h)
    ensures Agrees(Adding(h, id))
  {
    if !h.shutdown && id !in h.subs {
      var h', n := Adding(h, id), |h.objects|;
      NotBeforeCreated(h.log, n);
      LogNext(h, h', Created(n));
      AddObjects(h, id);
      forall t | 0 <= t < |h.timers|
        ensures TimerAgrees(h', t)
      {
        assert TimerAgrees(h, t);
      }
    }
  }

  lemma RemoveAgrees(h: Hub, id: string)
    requires Agrees(h)
    ensures Agrees(Removing(h, id))
  {
    if id in h.subs {
      var h' := Removing(h, id);
      var o := h.subs[id];
      assert ObjectAgrees(h, o);
      LogNext(h, h', Closed(o));
      forall p | 0 <= p < |h.objects|
        ensures ObjectAgrees(h', p)
      {
        assert ObjectAgrees(h, p);
      }
      forall t | 0 <= t < |h.timers|
        ensures TimerAgrees(h', t)
      {
        assert TimerAgrees(h, t);
      }
    }
  }

  lemma DeliverAgrees(h: Hub, id: string, ev: Event, race: Race)
    requires Agrees(h)
    ensures Agrees(Delivering(h, id, ev, race))
  {
    if !h.shutdown && id in h.subs {
      var h', o := Delivering(h, id, ev, race), h.subs[id];
      assert ObjectAgrees(h, o);
      LogNext(h, h', Sent(o, Stamped(h, ev)));
      PushDelivers(h.objects[o].feed, h.channelCap, Stamped(h, ev), race);
      forall p | 0 <= p < |h.objects|
        ensures ObjectAgrees(h', p)
      {
        assert ObjectAgrees(h, p);
      }
      forall t | 0 <= t < |h.timers|
        ensures TimerAgrees(h', t)
      {
        assert TimerAgrees(h, t);
      }
    }
  }

  lemma AttachAgrees(h: Hub, id: string, last: string)
    requires Agrees(h)
    ensures Agrees(Attaching(h, id, last))
  {
    if !h.shutdown && id in h.subs && !h.objects[h.subs[id]].attached {
      var h', o := Attaching(h, id, last), h.subs[id];
      assert ObjectAgrees(h, o);
      LogNext(h, h', Attached(o, ReplayFor(h, o, last)));
      forall p | 0 <= p < |h.objects|
        ensures ObjectAgrees(h', p)
      {
        assert ObjectAgrees(h, p);
      }
      forall t | 0 <= t < |h.timers|
        ensures TimerAgrees(h', t)
      {
        assert TimerAgrees(h, t);
      }
    }
  }

  lemma DetachAgrees(h: Hub, id: string)
    requires Agrees(h)
    ensures Agrees(Detaching(h, id))
  {
    if !h.shutdown && id in h.subs && h.objects[h.subs[id]].attached {
      var h', o := Detaching(h, id), h.subs[id];
      assert ObjectAgrees(h, o);
      LogNext(h, h', Armed(o, |h.timers|));
      forall p | 0 <= p < |h.objects|
        ensures ObjectAgrees(h', p)
      {
        assert ObjectAgrees(h, p);
      }
      forall t | 0 <= t < |h'.timers|
        ensures TimerAgrees(h', t)
      {
        if t < |h.timers| { assert TimerAgrees(h, t); }
      }
    }
  }

  lemma FiredAgrees(h: Hub, t: nat)
    requires Agrees(h) && t < |h.timers|
    ensures Agrees(Fired(h, t))
  {
    var h' := Fired(h, t);
    forall o | 0 <= o < |h.objects|
      ensures ObjectAgrees(h', o)
    {
      assert ObjectAgrees(h, o);
    }
    forall u | 0 <= u < |h.timers|
      ensures TimerAgrees(h', u)
    {
      assert TimerAgrees(h, u);
    }
  }

  lemma FireAgrees(h: Hub, t: nat)
    requires Agrees(h)
    ensures Agrees(Firing(h, t))
  {
    if t < |h.timers| && !h.timers[t].fired {
      FiredAgrees(h, t);
      RemoveAgrees(Fired(h, t), h.objects[h.timers[t].serial].id);
    }
  }

  lemma HookAgrees(h: Hub, o: nat)
    requires Agrees(h)
    ensures Agrees(Hooking(h, o))
  {
    if o < |h.objects| && h.objects[o].hookDue {
      var h' := Hooking(h, o);
      assert ObjectAgrees(h, o);
      LogNext(h, h', Hooked(o));
      forall p | 0 <= p < |h.objects|
        ensures ObjectAgrees(h', p)
      {
        assert ObjectAgrees(h, p);
      }
      forall t | 0 <= t < |h.timers|
        ensures TimerAgrees(h', t)
      {
        assert TimerAgrees(h, t);
      }
    }
  }

  lemma ReadAgrees(h: Hub, o: nat, count: nat)
    requires Agrees(h)
    ensures Agrees(Reading(h, o, count))
  {
    var h' := Reading(h, o, count);
    forall p | 0 <= p < |h.objects|
      ensures ObjectAgrees(h', p)
    {
      assert ObjectAgrees(h, p);
      TakeDelivers(h.objects[p].feed, count);
    }
    forall t | 0 <= t < |h.timers|
      ensures TimerAgrees(h', t)
    {
      assert TimerAgrees(h, t);
    }
  }

  // ----- shutdown -----

  lemma {:induction false} ClosingsSee(h: Hub, n: nat, o: nat)
    requires n <= |h.objects|
    ensures var log := Closings(h, n);
            && InUse(log, o) == InUse(h.log, o) && SentTo(log, o) == SentTo(h.log, o)
            && (forall t: nat :: IdleSince(log, o, t) == IdleSince(h.log, o, t))
            && (Did(log, Closed(o)) <==> Did(h.log, Closed(o)) || (o < n && Live(h, o)))
            && (Did(log, Created(o)) <==> Did(h.log, Created(o)))
            && Owed(log, o) == Owed(h.log, o)
            && Did(log, Down)
  {
    if n > 0 {
      ClosingsSee(h, n - 1, o);
    }
  }

  lemma {:induction false} ClosingsLawful(h: Hub, n: nat)
    requires Agrees(h) && !h.shutdown && n <= |h.objects|
    ensures Lawful(Closings(h, n))
  {
    if n > 0 {
      ClosingsLawful(h, n - 1);
      ClosingsSee(h, n - 1, n - 1);
      assert ObjectAgrees(h, n - 1);
    }
  }

  lemma ShutdownLog(h: Hub)
    requires Agrees(h) && !h.shutdown
    ensures LogAgrees(ShuttingDown(h)) && Did(ShuttingDown(h).log, Down)
  {
    var log, n := ShuttingDown(h).log, |h.objects|;
    assert log == Closings(h, n);
    ClosingsLawful(h, n);
    ClosingsSee(h, n, 0);
    forall o: nat
      ensures Did(log, Created(o)) <==> o < n
    {
      ClosingsSee(h, n, o);
    }
    forall o: nat, t: nat | IdleSince(log, o, t)
      ensures t < |h.timers|
    {
      ClosingsSee(h, n, o);
    }
  }

  lemma ShutdownAgrees(h: Hub)
    requires Agrees(h)
    ensures Agrees(ShuttingDown(h))
  {
    if !h.shutdown {
      var h', n := ShuttingDown(h), |h.objects|;
      ShutdownLog(h);
      forall o | 0 <= o < n
        ensures ObjectAgrees(h', o)
      {
        assert ObjectAgrees(h, o);
        ClosingsSee(h, n, o);
      }
      forall t | 0 <= t < |h.timers|
        ensures TimerAgrees(h', t)
      {
        assert TimerAgrees(h, t);
        ClosingsSee(h, n, h.timers[t].serial);
      }
    }
  }

  // ----- every run -----

  /** Every step does only what is allowed, and the fields keep telling what was done. */
  lemma StepAgrees(h: Hub, a: Action)
    requires Agrees(h)
    ensures Agrees(Do(h, a))
  {
    match a
    case Add(id) => AddAgrees(h, id);
    case Remove(id) => RemoveAgrees(h, id);
    case Deliver(id, ev, race) => DeliverAgrees(h, id, ev, race);
    case Attach(id, last) => AttachAgrees(h, id, last);
    case Detach(id) => DetachAgrees(h, id);
    case Fire(t) => FireAgrees(h, t);
    case Hook(o) => HookAgrees(h, o);
    case Read(o, count) => ReadAgrees(h, o, count);
    case Shutdown => ShutdownAgrees(h);
  }

  /** Over every run: each channel is closed at most once and nothing is sent to it afterwards, one consumer
      at a time, no hook but one that is owed for a removal; and the state tells all of it. */
  lemma {:induction false} RunAgrees(channelCap: nat, replayCap: nat, actions: seq<Action>)
    ensures Agrees(Run(Fresh(channelCap, replayCap), actions))
  {
    if actions != [] {
      RunAgrees(channelCap, replayCap, actions[..|actions| - 1]);
      StepAgrees(Run(Fresh(channelCap, replayCap), actions[..|actions| - 1]), actions[|actions| - 1]);
    }
  }

  /** A retention callback removes its subscription exactly when that very object is still registered and
      nobody has attached to it since the detach that armed the timer; otherwise it changes nothing. */
  lemma CallbackRemoves(h: Hub, t: nat)
    requires Agrees(h) && t < |h.timers| && !h.timers[t].fired
    requires h.objects[h.timers[t].serial].detaches < WIDTH
    ensures var o := h.timers[t].serial;
            if Live(h, o) && IdleSince(h.log, o, t)
            then Do(h, Fire(t)) == Do(Fired(h, t), Remove(h.objects[o].id))
                 && Do(h, Fire(t)).log == Then(h.log, Closed(o)) && Do(h, Fire(t)).objects[o].hookDue
            else Do(h, Fire(t)) == Fired(h, t)
  {
    assert TimerAgrees(h, t);
    assert ObjectAgrees(h, h.timers[t].serial);
  }

  /** How often an effect happened. */
  function Times(log: Log, e: Effect): nat {
    match log
    case Nothing => 0
    case Then(past, last) => Times(past, e) + if last == e then 1 else 0
  }

  /** What had happened before the object's close. */
  function BeforeClose(log: Log, o: nat): Log {
    match log
    case Nothing => Nothing
    case Then(past, e) => if e == Closed(o) then past else BeforeClose(past, o)
  }

  /** An object is closed at most once. The hook of a removed one is owed or has been called, once and after the
      close; a shutdown's closes have none. */
  lemma {:induction false} OnceAtMost(log: Log, o: nat)
    requires Lawful(log)
    ensures Times(log, Closed(o)) == (if Did(log, Closed(o)) then 1 else 0)
    ensures Times(log, Hooked(o)) + (if Owed(log, o) then 1 else 0) ==
            (if Did(log, Closed(o)) && !Did(BeforeClose(log, o), Down) then 1 else 0)
  {
    if log.Then? {
      OnceAtMost(log.past, o);
    }
  }

  /** For every object of every run, in every state it passes through: it is registered, or it was closed once;
      and if a removal closed it, its hook is due or was called once, while a shutdown calls no hook. */
  lemma RunClosesOnce(channelCap: nat, replayCap: nat, actions: seq<Action>, o: nat)
    ensures var h := Run(Fresh(channelCap, replayCap), actions);
            o < |h.objects| ==>
              && Times(h.log, Closed(o)) == (if Live(h, o) then 0 else 1)
              && Times(h.log, Hooked(o)) + (if h.objects[o].hookDue then 1 else 0) ==
                 (if Live(h, o) || Did(BeforeClose(h.log, o), Down) then 0 else 1)
  {
    RunAgrees(channelCap, replayCap, actions);
    var h := Run(Fresh(channelCap, replayCap), actions);
    if o < |h.objects| {
      assert ObjectAgrees(h, o);
      OnceAtMost(h.log, o);
    }
  }

  // ----- a late hook -----

  /** b was created after a was closed. */
  predicate Follows(log: Log, a: nat, b: nat) {
    match log
    case Nothing => false
    case Then(past, e) => (e == Created(b) && Did(past, Closed(a))) || Follows(past, a, b)
  }

  /** An id is given to a new object only after the one before it was closed. */
  ghost predicate OneByOne(h: Hub) {
    forall a, b | 0 <= a < b < |h.objects| && h.objects[a].id == h.objects[b].id :: Follows(h.log, a, b)
  }

  predicate Extends(log: Log, past: Log) {
    log == past || (log.Then? && Extends(log.past, past))
  }

  lemma {:induction false} FollowsStill(log: Log, past: Log, a: nat, b: nat)
    requires Extends(log, past) && Follows(past, a, b)
    ensures Follows(log, a, b)
  {
    if log != past {
      FollowsStill(log.past, past, a, b);
    }
  }

  lemma {:induction false} ClosingsExtend(h: Hub, n: nat)
    requires n <= |h.objects|
    ensures Extends(Closings(h, n), h.log)
  {
    if n > 0 {
      ClosingsExtend(h, n - 1);
    }
  }

  /** Nothing but Add makes an object, and the log only grows. */
  lemma StepExtends(h: Hub, a: Action)
    requires Sound(h)
    ensures Extends(Do(h, a).log, h.log)
    ensures forall o | 0 <= o < |h.objects| :: o < |Do(h, a).objects| && Do(h, a).objects[o].id == h.objects[o].id
    ensures |Do(h, a).objects| == |h.objects| || (a.Add? && !h.shutdown && a.id !in h.subs)
  {
    if a.Shutdown? {
      ClosingsExtend(h, |h.objects|);
    }
  }

  lemma StepOneByOne(h: Hub, action: Action)
    requires Agrees(h) && OneByOne(h)
    ensures OneByOne(Do(h, action))
  {
    var h' := Do(h, action);
    StepExtends(h, action);
    forall a, b | 0 <= a < b < |h'.objects| && h'.objects[a].id == h'.objects[b].id
      ensures Follows(h'.log, a, b)
    {
      if b < |h.objects| {
        FollowsStill(h'.log, h.log, a, b);
      } else {
        assert ObjectAgrees(h, a);
      }
    }
  }

  lemma {:induction false} RunOneByOne(channelCap: nat, replayCap: nat, actions: seq<Action>)
    ensures OneByOne(Run(Fresh(channelCap, replayCap), actions))
  {
    if actions != [] {
      var n := |actions| - 1;
      RunOneByOne(channelCap, replayCap, actions[..n]);
      RunAgrees(channelCap, replayCap, actions[..n]);
      StepOneByOne(Run(Fresh(channelCap, replayCap), actions[..n]), actions[n]);
    }
  }

  /** The hook is given only the id. In any run, when a hook is due its id is registered if and only if the id was
      added again after the removal and that subscription has not been closed: then the hook drops a newcomer's
      state. */
  lemma HookMeetsNewcomer(channelCap: nat, replayCap: nat, actions: seq<Action>, o: nat)
    requires var h := Run(Fresh(channelCap, replayCap), actions); o < |h.objects| && h.objects[o].hookDue
    ensures var h := Run(Fresh(channelCap, replayCap), actions);
            h.objects[o].id in h.subs <==>
            exists p :: o < p < |h.objects| && h.objects[p].id == h.objects[o].id && Follows(h.log, o, p) && !Did(h.log, Closed(p))
  {
    var h := Run(Fresh(channelCap, replayCap), actions);
    RunAgrees(channelCap, replayCap, actions);
    RunOneByOne(channelCap, replayCap, actions);
    OnceAtMost(h.log, o);
    assert ObjectAgrees(h, o);
    if h.objects[o].id in h.subs {
      var p := h.subs[h.objects[o].id];
      assert ObjectAgrees(h, p);
      if p < o {
        FollowsClosed(h.log, p, o);
      }
    }
    if p :| o < p < |h.objects| && h.objects[p].id == h.objects[o].id && Follows(h.log, o, p) && !Did(h.log, Closed(p)) {
      assert ObjectAgrees(h, p);
    }
  }

  lemma {:induction false} FollowsClosed(log: Log, a: nat, b: nat)
    requires Follows(log, a, b)
    ensures Did(log, Closed(a))
  {
    if !(log.effect == Created(b) && Did(log.past, Closed(a))) {
      FollowsClosed(log.past, a, b);
    }
  }

  /** It happens: the id is added again between a removal and its hook. */
  lemma LateHook(channelCap: nat, replayCap: nat, id: string)
    ensures var h := Run(Fresh(channelCap, replayCap), [Add(id), Remove(id), Add(id)]);
            |h.objects| == 2 && h.objects[0].hookDue && h.objects[0].id == id && id in h.subs && Do(h, Hook(0)).subs == h.subs
  {
    var f, acts := Fresh(channelCap, replayCap), [Add(id), Remove(id), Add(id)];
    assert acts[..2] == [Add(id), Remove(id)] && acts[..2][..1] == [Add(id)] && acts[..2][..1][..0] == [];
    var h1 := Do(f, Add(id));
    var h2 := Do(h1, Remove(id));
    assert Run(f, acts[..2][..1]) == h1;
    assert Run(f, acts[..2]) == h2;
    assert Run(f, acts) == Do(h2, Add(id));
  }

  // ----- what a subscription has been sent -----

  /** Only events the hub numbers itself. */
  predicate HubMinted(actions: seq<Action>) {
    forall i | 0 <= i < |actions| :: actions[i].Deliver? ==> actions[i].ev.id == ""
  }

  ghost predicate Numbered(h: Hub, o: nat)
    requires o < |h.objects|
  {
    && Increasing(h.objects[o].feed.delivered)
    && forall i | 0 <= i < |h.objects[o].feed.delivered| :: IdOf(h.objects[o].feed.delivered[i]) <= h.minted
  }

  ghost predicate AllNumbered(h: Hub) {
    forall o | 0 <= o < |h.objects| :: Numbered(h, o)
  }

  ghost predicate AllConserved(h: Hub) {
    forall o | 0 <= o < |h.objects| :: Conserved(h.objects[o].feed) && |h.objects[o].feed.queue| <= h.channelCap
  }

  lemma PushNumbered(f: Feed, cap: nat, minted: nat, sent: Event, race: Race)
    requires Increasing(f.delivered) && forall i | 0 <= i < |f.delivered| :: IdOf(f.delivered[i]) <= minted
    requires minted + 1 < WIDTH && sent.id == FormatId(minted + 1)
    ensures var delivered := Push(f, cap, sent, race).delivered;
            Increasing(delivered) && forall i | 0 <= i < |delivered| :: IdOf(delivered[i]) <= minted + 1
  {
    PushDelivers(f, cap, sent, race);
    ParseFormat(minted + 1);
  }

  lemma DeliverNumbered(h: Hub, id: string, ev: Event, race: Race)
    requires Sound(h) && AllNumbered(h) && ev.id == "" && h.minted + 1 < WIDTH
    ensures AllNumbered(Delivering(h, id, ev, race))
  {
    if !h.shutdown && id in h.subs {
      var h', o, sent := Delivering(h, id, ev, race), h.subs[id], Stamped(h, ev);
      assert Numbered(h, o);
      PushNumbered(h.objects[o].feed, h.channelCap, h.minted, sent, race);
      forall p | 0 <= p < |h.objects|
        ensures Numbered(h', p)
      {
        assert Numbered(h, p);
      }
    }
  }

  lemma ReadNumbered(h: Hub, o: nat, count: nat)
    requires Sound(h) && AllNumbered(h)
    ensures AllNumbered(Reading(h, o, count))
  {
    forall p | 0 <= p < |h.objects|
      ensures Numbered(Reading(h, o, count), p)
    {
      assert Numbered(h, p);
      TakeDelivers(h.objects[p].feed, count);
    }
  }

  /** Only deliveries and reads move events. */
  lemma FeedsStay(h: Hub, a: Action)
    requires Sound(h) && !a.Deliver? && !a.Read?
    ensures var h' := Do(h, a);
            && h'.minted == h.minted && h'.channelCap == h.channelCap && |h.objects| <= |h'.objects|
            && forall o | 0 <= o < |h'.objects| :: h'.objects[o].feed == if o < |h.objects| then h.objects[o].feed else EMPTY
  {
  }

  lemma StepNumbered(h: Hub, a: Action)
    requires Sound(h) && AllNumbered(h) && (a.Deliver? ==> a.ev.id == "" && h.minted + 1 < WIDTH)
    ensures AllNumbered(Do(h, a)) && Do(h, a).minted <= h.minted + 1
  {
    match a
    case Deliver(id, ev, race) => DeliverNumbered(h, id, ev, race);
    case Read(o, count) => ReadNumbered(h, o, count);
    case _ =>
      FeedsStay(h, a);
      forall o | 0 <= o < |Do(h, a).objects|
        ensures Numbered(Do(h, a), o)
      {
        assert o < |h.objects| ==> Numbered(h, o);
      }
  }

  /** Ids the hub mints are numeric and grow along every subscription, as long as the counter does not wrap. */
  lemma {:induction false} RunNumbered(channelCap: nat, replayCap: nat, actions: seq<Action>)
    requires HubMinted(actions) && |actions| < WIDTH
    ensures var h := Run(Fresh(channelCap, replayCap), actions); AllNumbered(h) && h.minted <= |actions|
  {
    if actions != [] {
      var n := |actions| - 1;
      RunNumbered(channelCap, replayCap, actions[..n]);
      StepNumbered(Run(Fresh(channelCap, replayCap), actions[..n]), actions[n]);
    }
  }

  lemma DeliverConserved(h: Hub, id: string, ev: Event, race: Race)
    requires Sound(h) && AllConserved(h) && 0 < h.channelCap
    ensures AllConserved(Delivering(h, id, ev, race))
  {
    if !h.shutdown && id in h.subs {
      PushConserves(h.objects[h.subs[id]].feed, h.channelCap, Stamped(h, ev), race);
    }
  }

  lemma StepConserved(h: Hub, a: Action)
    requires Sound(h) && AllConserved(h) && 0 < h.channelCap
    ensures AllConserved(Do(h, a)) && Do(h, a).channelCap == h.channelCap
  {
    match a
    case Deliver(id, ev, race) => DeliverConserved(h, id, ev, race);
    case Read(o, count) =>
      if o < |h.objects| {
        TakeConserves(h.objects[o].feed, count);
      }
    case _ =>
      FeedsStay(h, a);
      assert Conserved(EMPTY);
  }

  /** Over every run and whatever the readers do: delivered = consumed + queued + dropped, in order. */
  lemma {:induction false} RunConserves(channelCap: nat, replayCap: nat, actions: seq<Action>)
    requires 0 < channelCap
    ensures var h := Run(Fresh(channelCap, replayCap), actions); AllConserved(h) && h.channelCap == channelCap
  {
    if actions != [] {
      var n := |actions| - 1;
      RunConserves(channelCap, replayCap, actions[..n]);
      StepConserved(Run(Fresh(channelCap, replayCap), actions[..n]), actions[n]);
    }
  }

  /** Attaching with the id of a seen event replays exactly the events ever sent after it, or says it cannot;
      and it can exactly when that id lies between the oldest and the newest retained one. With no id there is
      nothing to replay and nothing missed. */
  lemma AttachReplays(channelCap: nat, replayCap: nat, actions: seq<Action>, id: string, last: string)
    requires HubMinted(actions) && |actions| < WIDTH
    requires var h := Run(Fresh(channelCap, replayCap), actions); !h.shutdown && id in h.subs && !h.objects[h.subs[id]].attached
    ensures var h := Run(Fresh(channelCap, replayCap), actions);
            var o := h.subs[id];
            var ring, r := LastN(SentTo(h.log, o), h.replayCap), ReplayFor(h, o, last);
            && Do(h, Attach(id, last)).log == Then(h.log, Attached(o, r))
            && if last == "" then r == Replay([], true)
               else
                 && (r.covered <==> ParseId(last).Some? && ring != []
                                    && IdOf(ring[0]) <= ParseId(last).value <= IdOf(ring[|ring| - 1]))
                 && r.events == if r.covered then After(SentTo(h.log, o), ParseId(last).value) else []
  {
    RunAgrees(channelCap, replayCap, actions);
    RunNumbered(channelCap, replayCap, actions);
    AttachReplaysAt(Run(Fresh(channelCap, replayCap), actions), id, last);
  }

  lemma AttachReplaysAt(h: Hub, id: string, last: string)
    requires Agrees(h) && AllNumbered(h)
    requires !h.shutdown && id in h.subs && !h.objects[h.subs[id]].attached
    ensures var o := h.subs[id];
            var ring, r := LastN(SentTo(h.log, o), h.replayCap), ReplayFor(h, o, last);
            && Do(h, Attach(id, last)).log == Then(h.log, Attached(o, r))
            && if last == "" then r == Replay([], true)
               else
                 && (r.covered <==> ParseId(last).Some? && ring != []
                                    && IdOf(ring[0]) <= ParseId(last).value <= IdOf(ring[|ring| - 1]))
                 && r.events == if r.covered then After(SentTo(h.log, o), ParseId(last).value) else []
  {
    var o := h.subs[id];
    assert ObjectAgrees(h, o) && Numbered(h, o);
    ReplayIsExact(h.objects[o].feed.delivered, h.replayCap, last);
    AttachLogs(h, id, last);
  }

  lemma AttachLogs(h: Hub, id: string, last: string)
    requires Sound(h) && !h.shutdown && id in h.subs && !h.objects[h.subs[id]].attached
    ensures Do(h, Attach(id, last)).log == Then(h.log, Attached(h.subs[id], ReplayFor(h, h.subs[id], last)))
  {
  }

  ghost predicate NoRepeats(s: seq<Event>) {
    forall i, j | 0 <= i < j < |s| :: s[i] != s[j]
  }

  lemma {:induction false} AfterIncreasing(s: seq<Event>, last: nat)
    requires Increasing(s)
    ensures NoRepeats(After(s, last)) && forall e :: e in After(s, last) <==> e in s && Newer(e, last)
  {
    if s != [] {
      AfterIncreasing(s[1..], last);
      assert s == [s[0]] + s[1..];
      if s[0] in s[1..] {
        assert false;
      }
    }
  }

  /** The events after an id, followed by those still queued. */
  lemma RepeatsQueued(f: Feed, last: nat)
    requires Conserved(f) && Increasing(f.delivered)
    ensures NoRepeats(After(f.delivered, last) + f.queue) <==> forall i | 0 <= i < |f.queue| :: !Newer(f.queue[i], last)
  {
    var r, q := After(f.delivered, last), f.queue;
    AfterIncreasing(f.delivered, last);
    if i :| 0 <= i < |q| && Newer(q[i], last) {
      assert q[i] == f.delivered[|f.fates| + i];
      var j :| 0 <= j < |r| && r[j] == q[i];
      assert (r + q)[j] == (r + q)[|r| + i];
    } else {
      forall i, j | 0 <= i < j < |r + q|
        ensures (r + q)[i] != (r + q)[j]
      {
        if i < |r| <= j {
          assert r[i] in r;
          assert !Newer(q[j - |r|], last);
        } else if |r| <= i {
          assert IdOf(f.delivered[|f.fates| + i - |r|]) < IdOf(f.delivered[|f.fates| + j - |r|]);
        }
      }
    }
  }

  /** In any run: a covered reconnect is answered with the replay followed by what the channel still holds, and the
      client gets nothing twice exactly when the channel holds nothing newer than its last id. Whatever was queued
      while it was away is in both. */
  lemma ReplayRepeatsQueued(channelCap: nat, replayCap: nat, actions: seq<Action>, id: string, last: string)
    requires 0 < channelCap && HubMinted(actions) && |actions| < WIDTH && last != ""
    requires var h := Run(Fresh(channelCap, replayCap), actions); !h.shutdown && id in h.subs && !h.objects[h.subs[id]].attached
    requires var h := Run(Fresh(channelCap, replayCap), actions); ReplayFor(h, h.subs[id], last).covered
    ensures var h := Run(Fresh(channelCap, replayCap), actions);
            var o := h.subs[id];
            var queue := h.objects[o].feed.queue;
            && ParseId(last).Some?
            && (NoRepeats(ReplayFor(h, o, last).events + queue) <==>
                forall i | 0 <= i < |queue| :: !Newer(queue[i], ParseId(last).value))
  {
    var h := Run(Fresh(channelCap, replayCap), actions);
    AttachReplays(channelCap, replayCap, actions, id, last);
    RunAgrees(channelCap, replayCap, actions);
    RunNumbered(channelCap, replayCap, actions);
    RunConserves(channelCap, replayCap, actions);
    var o := h.subs[id];
    assert ObjectAgrees(h, o) && Numbered(h, o);
    RepeatsQueued(h.objects[o].feed, ParseId(last).value);
  }
}
