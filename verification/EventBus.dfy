/** The event bus. */
module EventBuses {
  // Deduplicated publishing: the pruned cache of recent fingerprints decides as the full
  // history of deliveries would (src/evomesh/events.py).

  type Fingerprint = string

  datatype Event = Event(kind: string, key: Fingerprint)

  /** A delivery and when it happened. */
  datatype Delivery = Delivery(event: Event, at: real)

  datatype Subscription = Subscription(handler: nat, accepts: set<Fingerprint>)

  /** What the bus holds, and in `delivered` all it ever delivered. */
  datatype Bus = Bus(recent: map<Fingerprint, real>, history: seq<Event>, delivered: seq<Delivery>)

  const EMPTY := Bus(map[], [], [])

  /** `_recent` after a delivery: the stale entries go. */
  function Pruned(recent: map<Fingerprint, real>, now: real, window: real): map<Fingerprint, real> {
    map key | key in recent && now - recent[key] <= window :: recent[key]
  }

  predicate Suppressed(recent: map<Fingerprint, real>, event: Event, now: real, window: real) {
    event.key in recent && now - recent[event.key] <= window
  }

  function Newest(history: seq<Event>, limit: nat): (r: seq<Event>)
    requires limit > 0
    ensures |r| <= limit
  {
    if |history| <= limit then history else history[|history| - limit..]
  }

  /** `publish`, apart from the handlers. */
  function Published(b: Bus, event: Event, now: real, window: real, limit: nat): Bus
    requires limit > 0
  {
    if Suppressed(b.recent, event, now, window) then b
    else Bus(Pruned(b.recent[event.key := now], now, window), Newest(b.history + [event], limit), b.delivered + [Delivery(event, now)])
  }

  // ---- the full history as the reference ----

  /** An equal event was delivered no longer ago than the window. */
  ghost predicate SeenWithin(delivered: seq<Delivery>, key: Fingerprint, now: real, window: real) {
    exists i :: 0 <= i < |delivered| && delivered[i].event.key == key && now - delivered[i].at <= window
  }

  /** The cache holds, for every fingerprint delivered within the window, the time of its last
      delivery; nothing it holds was never delivered; nothing lies ahead of `now`. */
  ghost predicate Refines(b: Bus, now: real, window: real) {
    && (forall i :: 0 <= i < |b.delivered| ==> b.delivered[i].at <= now)
    && (forall p :: p in b.recent ==> exists i :: 0 <= i < |b.delivered| && b.delivered[i] == Delivery(b.delivered[i].event, b.recent[p]) && b.delivered[i].event.key == p)
    && (forall i :: 0 <= i < |b.delivered| && now - b.delivered[i].at <= window ==>
          b.delivered[i].event.key in b.recent && b.recent[b.delivered[i].event.key] >= b.delivered[i].at)
  }

  /** Under the refinement an event is suppressed exactly when the full history says so. */
  lemma SuppressedExactly(b: Bus, event: Event, now: real, later: real, window: real)
    requires Refines(b, now, window) && now <= later
    ensures Suppressed(b.recent, event, later, window) <==> SeenWithin(b.delivered, event.key, later, window)
  {
    if Suppressed(b.recent, event, later, window) {
      var i :| 0 <= i < |b.delivered| && b.delivered[i] == Delivery(b.delivered[i].event, b.recent[event.key]) && b.delivered[i].event.key == event.key;
      assert later - b.delivered[i].at <= window;
    }
    if SeenWithin(b.delivered, event.key, later, window) {
      var i :| 0 <= i < |b.delivered| && b.delivered[i].event.key == event.key && later - b.delivered[i].at <= window;
      assert now - b.delivered[i].at <= window;
    }
  }

  lemma PublishRefines(b: Bus, event: Event, now: real, later: real, window: real, limit: nat)
    requires Refines(b, now, window) && now <= later && limit > 0 && window >= 0.0
    ensures Refines(Published(b, event, later, window, limit), later, window)
  {
    if !Suppressed(b.recent, event, later, window) {
      CacheWasDelivered(b, event, now, later, window, limit);
      DeliveredIsCached(b, event, now, later, window, limit);
    }
  }

  lemma CacheWasDelivered(b: Bus, event: Event, now: real, later: real, window: real, limit: nat)
    requires Refines(b, now, window) && limit > 0 && !Suppressed(b.recent, event, later, window)
    ensures var after := Published(b, event, later, window, limit);
      forall p :: p in after.recent ==>
        exists i :: 0 <= i < |after.delivered| && after.delivered[i] == Delivery(after.delivered[i].event, after.recent[p]) && after.delivered[i].event.key == p
  {
    hide Newest, Suppressed;
    var after := Published(b, event, later, window, limit);
    forall p | p in after.recent
      ensures exists i :: 0 <= i < |after.delivered| && after.delivered[i] == Delivery(after.delivered[i].event, after.recent[p]) && after.delivered[i].event.key == p
    {
      if p == event.key {
        assert after.delivered[|b.delivered|] == Delivery(event, later);
      } else {
        var i :| 0 <= i < |b.delivered| && b.delivered[i] == Delivery(b.delivered[i].event, b.recent[p]) && b.delivered[i].event.key == p;
        assert after.delivered[i] == b.delivered[i];
      }
    }
  }

  lemma DeliveredIsCached(b: Bus, event: Event, now: real, later: real, window: real, limit: nat)
    requires Refines(b, now, window) && now <= later && limit > 0 && window >= 0.0 && !Suppressed(b.recent, event, later, window)
    ensures var after := Published(b, event, later, window, limit);
      forall i :: 0 <= i < |after.delivered| && later - after.delivered[i].at <= window ==>
        after.delivered[i].event.key in after.recent && after.recent[after.delivered[i].event.key] >= after.delivered[i].at
  {
    hide Newest, Suppressed;
    var after := Published(b, event, later, window, limit);
    forall i | 0 <= i < |after.delivered| && later - after.delivered[i].at <= window
      ensures after.delivered[i].event.key in after.recent && after.recent[after.delivered[i].event.key] >= after.delivered[i].at
    {
      if i < |b.delivered| {
        assert after.delivered[i] == b.delivered[i] && now - b.delivered[i].at <= window;
      }
    }
  }

  // ---- runs ----

  datatype Call = Call(event: Event, now: real)

  ghost predicate Monotone(calls: seq<Call>) {
    forall i, j :: 0 <= i < j < |calls| ==> calls[i].now <= calls[j].now
  }

  function Run(calls: seq<Call>, window: real, limit: nat): Bus
    requires limit > 0
  {
    if calls == [] then EMPTY
    else
      var last := calls[|calls| - 1];
      Published(Run(calls[..|calls| - 1], window, limit), last.event, last.now, window, limit)
  }

  /** The deliveries a bus that never forgot anything would make. */
  function Remembered(calls: seq<Call>, window: real): (delivered: seq<Delivery>) {
    if calls == [] then []
    else
      var before, last := Remembered(calls[..|calls| - 1], window), calls[|calls| - 1];
      if Recent(before, last.event.key, last.now, window) then before else before + [Delivery(last.event, last.now)]
  }

  predicate Recent(delivered: seq<Delivery>, key: Fingerprint, now: real, window: real) {
    delivered != [] && ((delivered[0].event.key == key && now - delivered[0].at <= window) || Recent(delivered[1..], key, now, window))
  }

  lemma {:induction false} RecentIsSeen(delivered: seq<Delivery>, key: Fingerprint, now: real, window: real)
    ensures Recent(delivered, key, now, window) <==> SeenWithin(delivered, key, now, window)
  {
    if delivered != [] {
      RecentIsSeen(delivered[1..], key, now, window);
      if SeenWithin(delivered[1..], key, now, window) {
        var i :| 0 <= i < |delivered[1..]| && delivered[1..][i].event.key == key && now - delivered[1..][i].at <= window;
        assert delivered[i + 1].event.key == key;
      }
      if SeenWithin(delivered, key, now, window) && !(delivered[0].event.key == key && now - delivered[0].at <= window) {
        var i :| 0 <= i < |delivered| && delivered[i].event.key == key && now - delivered[i].at <= window;
        assert delivered[1..][i - 1].event.key == key;
      }
    }
  }

  lemma {:induction false} RunRefines(calls: seq<Call>, window: real, limit: nat, now: real)
    requires Monotone(calls) && limit > 0 && window >= 0.0
    requires calls != [] ==> calls[|calls| - 1].now <= now
    ensures Refines(Run(calls, window, limit), now, window)
    ensures Run(calls, window, limit).delivered == Remembered(calls, window)
  {
    hide Refines, Suppressed;
    if calls == [] {
      NothingDelivered(now, window);
    } else {
      var n := |calls| - 1;
      var before, last := Run(calls[..n], window, limit), calls[n];
      RunRefines(calls[..n], window, limit, last.now);
      SuppressedExactly(before, last.event, last.now, last.now, window);
      RecentIsSeen(before.delivered, last.event.key, last.now, window);
      PublishRefines(before, last.event, last.now, last.now, window, limit);
      Ages(Run(calls, window, limit), last.now, now, window);
    }
  }

  lemma NothingDelivered(now: real, window: real)
    ensures Refines(EMPTY, now, window)
  {
  }

  lemma Ages(b: Bus, now: real, later: real, window: real)
    requires Refines(b, now, window) && now <= later
    ensures Refines(b, later, window)
  {
  }

  /** Under a clock that never goes back, `publish` suppresses an event exactly when an equal
      one was delivered no longer ago than the window, although the cache is pruned at every
      delivery; so it delivers exactly what a bus that forgot nothing would. */
  lemma PrunedCacheIsEnough(calls: seq<Call>, event: Event, now: real, window: real, limit: nat)
    requires Monotone(calls + [Call(event, now)]) && limit > 0 && window >= 0.0
    ensures var b := Run(calls, window, limit);
      && (Suppressed(b.recent, event, now, window) <==> SeenWithin(b.delivered, event.key, now, window))
      && b.delivered == Remembered(calls, window)
  {
    var all := calls + [Call(event, now)];
    assert all[|calls|] == Call(event, now) && forall i :: 0 <= i < |calls| ==> all[i] == calls[i];
    assert Monotone(calls);
    assert calls != [] ==> all[|calls| - 1].now <= all[|calls|].now;
    RunRefines(calls, window, limit, now);
    SuppressedExactly(Run(calls, window, limit), event, now, now, window);
  }

  // ---- the bounded history, and who is called ----

  /** The history is the events of the latest deliveries, as many as it is long. */
  ghost predicate HistoryOk(b: Bus, limit: nat) {
    && |b.history| == (if |b.delivered| <= limit then |b.delivered| else limit)
    && forall i :: 0 <= i < |b.history| ==> b.history[i] == b.delivered[|b.delivered| - |b.history| + i].event
  }

  lemma {:induction false} HistoryIsLatest(calls: seq<Call>, window: real, limit: nat)
    requires limit > 0
    ensures HistoryOk(Run(calls, window, limit), limit)
  {
    hide Published, HistoryOk;
    if calls == [] {
      NoHistory(limit);
    } else {
      var n := |calls| - 1;
      HistoryIsLatest(calls[..n], window, limit);
      PublishKeepsHistory(Run(calls[..n], window, limit), calls[n].event, calls[n].now, window, limit);
    }
  }

  lemma NoHistory(limit: nat)
    ensures HistoryOk(EMPTY, limit)
  {
  }

  lemma PublishKeepsHistory(b: Bus, event: Event, now: real, window: real, limit: nat)
    requires limit > 0 && HistoryOk(b, limit)
    ensures HistoryOk(Published(b, event, now, window, limit), limit)
  {
    hide Pruned, Suppressed;
    if !Suppressed(b.recent, event, now, window) {
      var after, longer := Published(b, event, now, window, limit), b.history + [event];
      var skipped := |longer| - |after.history|;
      forall i | 0 <= i < |after.history| ensures after.history[i] == after.delivered[|after.delivered| - |after.history| + i].event {
        assert after.history[i] == longer[skipped + i];
      }
    }
  }

  /** How many of the subscriptions take the event. */
  function Interested(subscriptions: seq<Subscription>, event: Event): nat {
    if subscriptions == [] then 0
    else (if event.key in subscriptions[0].accepts then 1 else 0) + Interested(subscriptions[1..], event)
  }

  /** Every interested handler is called once with the event, behind the interested ones
      registered before it; no other handler is called. */
  lemma {:induction false} CallsInOrder(subscriptions: seq<Subscription>, event: Event, i: nat)
    requires i < |subscriptions|
    ensures |Calls(subscriptions, event)| == Interested(subscriptions, event)
    ensures event.key in subscriptions[i].accepts ==>
      Interested(subscriptions[..i], event) < Interested(subscriptions, event)
      && Calls(subscriptions, event)[Interested(subscriptions[..i], event)] == (subscriptions[i].handler, event)
  {
    var rest := subscriptions[1..];
    if rest == [] {
      assert Calls(rest, event) == [] && subscriptions[..i] == [];
    } else {
      CallsInOrder(rest, event, if i == 0 then 0 else i - 1);
    }
    if i == 0 {
      assert subscriptions[..i] == [];
    } else {
      assert subscriptions[..i] == [subscriptions[0]] + rest[..i - 1];
      assert subscriptions[..i][1..] == rest[..i - 1];
    }
  }

  // ---- the object ----

  class EventBus {
    const maxHistory: nat
    const window: real
    var recent: map<Fingerprint, real>
    var history: seq<Event>
    var handlers: map<string, seq<Subscription>>
    /** Everything delivered, and the handler calls made for it in order. */
    ghost var delivered: seq<Delivery>
    var called: seq<(nat, Event)>

    ghost function View(): Bus
      reads this
    {
      Bus(recent, history, delivered)
    }

    constructor (maxHistory: nat, dedupWindow: real)
      requires maxHistory >= 1
      ensures this.maxHistory == maxHistory && window == (if dedupWindow < 0.0 then 0.0 else dedupWindow)
      ensures View() == EMPTY && handlers == map[] && called == []
    {
      this.maxHistory := maxHistory;
      window := if dedupWindow < 0.0 then 0.0 else dedupWindow;
      recent, history, handlers, called, delivered := map[], [], map[], [], [];
    }

    function HandlersOf(kind: string): seq<Subscription>
      reads this`handlers
    {
      if kind in handlers then handlers[kind] else []
    }

    /** `subscribe`: once each. */
    method Subscribe(kind: string, subscription: Subscription)
      modifies this`handlers
      ensures HandlersOf(kind) == if subscription in old(HandlersOf(kind)) then old(HandlersOf(kind)) else old(HandlersOf(kind)) + [subscription]
      ensures forall other :: other != kind ==> HandlersOf(other) == old(HandlersOf(other))
    {
      var registered := HandlersOf(kind);
      if subscription !in registered {
        registered := registered + [subscription];
      }
      handlers := handlers[kind := registered];
    }

    /** `publish`: suppressed, or delivered to the interested handlers in registration order. */
    method Publish(event: Event, now: real)
      requires maxHistory >= 1
      modifies this`recent, this`history, this`called, this`delivered
      ensures View() == Published(old(View()), event, now, window, maxHistory)
      ensures called == old(called) + if Suppressed(old(recent), event, now, window) then [] else Calls(HandlersOf(event.kind), event)
    {
      hide Pruned;
      if event.key in recent && now - recent[event.key] <= window {
        assert called + [] == called;
        return;
      }
      recent := recent[event.key := now];
      recent := Pruned(recent, now, window);
      history := Newest(history + [event], maxHistory);
      delivered := delivered + [Delivery(event, now)];
      var subscriptions := HandlersOf(event.kind);
      var k := 0;
      assert subscriptions[0..] == subscriptions;
      while k < |subscriptions|
        invariant k <= |subscriptions|
        invariant View() == Published(old(View()), event, now, window, maxHistory)
        invariant called + Calls(subscriptions[k..], event) == old(called) + Calls(subscriptions, event)
      {
        assert subscriptions[k..][0] == subscriptions[k] && subscriptions[k..][1..] == subscriptions[k + 1..];
        if event.key in subscriptions[k].accepts {
          ghost var before := called;
          called := called + [(subscriptions[k].handler, event)];
          assert before + ([(subscriptions[k].handler, event)] + Calls(subscriptions[k + 1..], event)) == called + Calls(subscriptions[k + 1..], event);
        }
        k := k + 1;
      }
      assert called + [] == called;
    }
  }

  /** The handler calls one delivery makes. */
  function Calls(subscriptions: seq<Subscription>, event: Event): seq<(nat, Event)> {
    if subscriptions == [] then []
    else if event.key in subscriptions[0].accepts then [(subscriptions[0].handler, event)] + Calls(subscriptions[1..], event)
    else Calls(subscriptions[1..], event)
  }
}
