/** Fan-out of sandbox events to the humans watching, with replay for a watcher that
    comes back. */
module Broadcasting {
  import opened Events
  import opened Retention

  const SubscriberQueue := 256

  /** What a subscriber is handed before live events: a marker for what it can no longer
      be shown, then everything retained after its position. */
  function Replay(sandboxId: string, log: seq<Event>, k: nat, after: nat): seq<Event>
    requires k <= |log|
  {
    var (events, missed) := SinceIn(log, k, after);
    (if missed > 0 then [GapEvent(sandboxId, missed)] else []) + events
  }

  function GapEvent(sandboxId: string, missed: nat): Event {
    Blank.(sandboxId := sandboxId, kind := Gap, missed := missed)
  }

  /** A full queue takes nothing more. */
  function Queued(queue: seq<Event>, e: Event): seq<Event> {
    if |queue| < SubscriberQueue then queue + [e] else queue
  }

  /** One watcher's live channel. */
  class Subscription {
    var queue: seq<Event>
    var closed: bool
    var lagged: bool

    /** The sandbox watched. */
    ghost const id: string

    /** The log length when the watcher registered, the log as it last saw it grow, and
        the live events already taken from the channel. */
    ghost const start: nat
    ghost var seen: seq<Event>
    ghost var taken: seq<Event>

    /** What the channel has been given is one contiguous stretch of the log. */
    ghost predicate Valid()
      reads this
    {
      && start <= |seen|
      && taken + queue == seen[start..]
      && |queue| <= SubscriberQueue
      && (lagged ==> closed)
    }

    constructor (ghost id: string, ghost log: seq<Event>)
      ensures Valid() && this.id == id && start == |log| && seen == log && taken == [] && queue == []
      ensures !closed && !lagged
    {
      queue, closed, lagged := [], false, false;
      this.id := id;
      start, seen, taken := |log|, log, [];
    }

    /** Ends the subscription; the first reason given is the one that sticks. */
    method Close(asLagged: bool)
      requires Valid()
      modifies `closed, `lagged
      ensures Valid() && closed
      ensures lagged == if old(closed) then old(lagged) else asLagged
    {
      if closed {
        return;
      }
      closed := true;
      lagged := asLagged;
    }

    /** A send that does not wait: it fails when the channel is full. */
    method Offer(e: Event) returns (ok: bool)
      requires Valid()
      modifies `queue, `seen
      ensures Valid()
      ensures ok == (|old(queue)| < 256)
      ensures ok ==> queue == old(queue) + [e] && seen == old(seen) + [e]
      ensures !ok ==> queue == old(queue) && seen == old(seen)
    {
      ok := |queue| < SubscriberQueue;
      if ok {
        queue := queue + [e];
        seen := seen + [e];
      }
    }

    /** What a publish does to an attached watcher: the event is queued, or the watcher
        is cut off as lagging with its queue as it was. */
    twostate predicate Offered(e: Event)
      reads this
    {
      && Valid() && taken == old(taken)
      && queue == Queued(old(queue), e)
      && if |old(queue)| < 256
         then seen == old(seen) + [e] && closed == old(closed) && lagged == old(lagged)
         else seen == old(seen) && closed && lagged
    }

    /** Reads the channel: the oldest waiting event, if there is one. A closed channel
        still yields what it holds. */
    method Receive() returns (e: Event, ok: bool)
      requires Valid()
      modifies `queue, `taken
      ensures Valid()
      ensures ok == (old(queue) != [])
      ensures ok ==> e == old(queue)[0] && queue == old(queue)[1..] && taken == old(taken) + [e]
      ensures !ok ==> queue == old(queue) && taken == old(taken)
    {
      if queue == [] {
        return Blank, false;
      }
      e, ok := queue[0], true;
      taken := taken + [queue[0]];
      queue := queue[1..];
    }
  }

  class Broadcaster {
    const limitBytes: int
    var rings: map<string, Ring>
    var subscribers: map<string, set<Subscription>>

    ghost function Log(id: string): seq<Event>
      reads `rings, rings.Values
    {
      if id in rings then rings[id].log else []
    }

    /** Where the ring of `id` starts. */
    ghost function Oldest(id: string): int
      reads `rings, rings.Values
    {
      if id in rings then rings[id].Start() else 0
    }

    ghost function Watching(id: string): set<Subscription>
      reads `subscribers
    {
      if id in subscribers then subscribers[id] else {}
    }

    ghost function AllWatching(): set<Subscription>
      reads `subscribers
    {
      set id, s | id in subscribers && s in subscribers[id] :: s
    }

    ghost predicate RingsValid()
      reads `rings, rings.Values
    {
      && (forall id :: id in rings ==> rings[id].Valid() && rings[id].id == id && rings[id].limitBytes == limitBytes)
    }

    /** Every attached channel is open and has been given the log up to its end. */
    ghost predicate Valid()
      reads this, rings.Values, AllWatching()
    {
      && limitBytes > 0
      && RingsValid()
      && (forall id, s :: id in subscribers && s in subscribers[id] ==>
            s.Valid() && s.id == id && !s.closed && s.seen == Log(id))
    }

    constructor (limit: int)
      ensures Valid() && rings == map[] && subscribers == map[]
      ensures limitBytes == if limit <= 0 then 262144 else limit
    {
      limitBytes := if limit <= 0 then DefaultStreamBufferBytes else limit;
      rings, subscribers := map[], map[];
    }

    method RingFor(id: string) returns (r: Ring)
      requires Valid()
      modifies `rings
      ensures Valid()
      ensures id in rings && r == rings[id]
      ensures id in old(rings) ==> rings == old(rings)
      ensures id !in old(rings) ==> fresh(r) && rings == old(rings)[id := r] && r.log == [] && r.Start() == 0
      ensures forall x :: Log(x) == old(Log(x)) && Oldest(x) == old(Oldest(x))
    {
      hide IsOldest, Stamped, TotalSize, Ring.Valid, Subscription.Valid;
      if id !in rings {
        r := new Ring(limitBytes, id);
        rings := rings[id := r];
      }
      r := rings[id];
    }

    /** Detaches `sub` and closes it; a subscription that is not attached is left alone. */
    method RemoveLocked(id: string, sub: Subscription, asLagged: bool)
      requires sub.Valid()
      modifies `subscribers, sub`closed, sub`lagged
      ensures sub.Valid()
      ensures forall x :: Watching(x) == old(Watching(x)) - if x == id then {sub} else {}
      ensures forall x :: x in subscribers ==> x in old(subscribers)
      ensures (forall x :: x in old(subscribers) ==> old(subscribers)[x] != {})
              ==> forall x :: x in subscribers ==> subscribers[x] != {}
      ensures old(sub in Watching(id) && !sub.closed) ==> sub.closed && sub.lagged == asLagged
      ensures old(sub !in Watching(id)) ==> sub.closed == old(sub.closed) && sub.lagged == old(sub.lagged)
    {
      if id !in subscribers || sub !in subscribers[id] {
        return;
      }
      var subs := subscribers[id] - {sub};
      subscribers := if subs == {} then subscribers - {id} else subscribers[id := subs];
      sub.Close(asLagged);
    }

    /** Stamps `e`, retains it, and offers it to every current watcher. */
    method Publish(e: Event) returns (stamped: Event)
      requires Valid()
      modifies `rings, `subscribers, rings.Values, Watching(e.sandboxId)
      ensures Valid()
      ensures stamped == e.(seqNo := |old(Log(e.sandboxId))| + 1)
      ensures forall x :: Log(x) == old(Log(x)) + if x == e.sandboxId then [stamped] else []
      ensures forall x :: x != e.sandboxId ==> Oldest(x) == old(Oldest(x)) && Watching(x) == old(Watching(x))
      ensures 0 <= old(Oldest(e.sandboxId)) < |Log(e.sandboxId)|
      ensures Oldest(e.sandboxId) == Evict(limitBytes, Log(e.sandboxId), old(Oldest(e.sandboxId)))
      ensures 0 <= Oldest(e.sandboxId) < |Log(e.sandboxId)| && FillsBudget(limitBytes, Log(e.sandboxId), |Log(e.sandboxId)| - Oldest(e.sandboxId))
      ensures forall s :: s in old(Watching(e.sandboxId)) ==> s.Offered(stamped)
      ensures forall s :: s in Watching(e.sandboxId)
                          <==> s in old(Watching(e.sandboxId)) && |old(s.queue)| < 256
    {
      hide Ring.Valid, Subscription.Valid, RingsValid, Evict, FillsBudget;
      stamped := Retain(e);
      Deliver(e.sandboxId, stamped);
    }

    /** Everything is in order except that the watchers of `id` have yet to be offered the
        newest event. */
    ghost predicate Owing(id: string, e: Event)
      reads this, rings.Values, AllWatching()
    {
      && limitBytes > 0
      && RingsValid()
      && (forall x, s :: x in subscribers && s in subscribers[x] ==>
            s.Valid() && s.id == x && !s.closed && s.seen + (if x == id then [e] else []) == Log(x))
    }

    method Retain(e: Event) returns (stamped: Event)
      requires Valid()
      modifies `rings, rings.Values
      ensures Owing(e.sandboxId, stamped) && fresh(rings.Values - old(rings.Values))
      ensures stamped == e.(seqNo := |old(Log(e.sandboxId))| + 1)
      ensures forall x :: Log(x) == old(Log(x)) + if x == e.sandboxId then [stamped] else []
      ensures forall x :: x != e.sandboxId ==> Oldest(x) == old(Oldest(x))
      ensures 0 <= old(Oldest(e.sandboxId)) < |Log(e.sandboxId)|
      ensures Oldest(e.sandboxId) == Evict(limitBytes, Log(e.sandboxId), old(Oldest(e.sandboxId)))
      ensures 0 <= Oldest(e.sandboxId) < |Log(e.sandboxId)| && FillsBudget(limitBytes, Log(e.sandboxId), |Log(e.sandboxId)| - Oldest(e.sandboxId))
    {
      hide Evict, Ring.Valid, Subscription.Valid, RingsValid, FillsBudget;
      var _ := RingFor(e.sandboxId);
      stamped := AppendTo(e.sandboxId, e);
    }

    method AppendTo(id: string, e: Event) returns (stamped: Event)
      requires Valid() && id in rings
      modifies rings[id]
      ensures Owing(id, stamped)
      ensures stamped == e.(seqNo := |old(Log(id))| + 1)
      ensures forall x :: Log(x) == old(Log(x)) + if x == id then [stamped] else []
      ensures forall x :: x != id ==> Oldest(x) == old(Oldest(x))
      ensures 0 <= old(Oldest(id)) < |Log(id)|
      ensures Oldest(id) == Evict(limitBytes, Log(id), old(Oldest(id)))
      ensures 0 <= Oldest(id) < |Log(id)| && FillsBudget(limitBytes, Log(id), |Log(id)| - Oldest(id))
    {
      hide Evict, Ring.Valid, Subscription.Valid, FillsBudget;
      assert forall x :: x in rings && rings[x] == rings[id] ==> x == id;
      stamped := rings[id].Append(e);
      assert RingsValid();
    }

    /** Queues the event for one watcher, or cuts it off if its channel is full. */
    method OfferTo(id: string, s: Subscription, e: Event)
      requires s.Valid() && !s.closed && s in Watching(id)
      modifies `subscribers, s
      ensures s.Offered(e)
      ensures forall x :: Watching(x)
                == old(Watching(x)) - if x == id && |old(s.queue)| >= SubscriberQueue then {s} else {}
      ensures forall x :: x in subscribers ==> x in old(subscribers)
    {
      var ok := s.Offer(e);
      if !ok {
        RemoveLocked(id, s, true);
      }
    }

    method Deliver(id: string, e: Event)
      requires Owing(id, e)
      modifies `subscribers, Watching(id)
      ensures Valid()
      ensures forall s :: s in old(Watching(id)) ==> s.Offered(e)
      ensures forall s :: s in Watching(id) <==> s in old(Watching(id)) && |old(s.queue)| < 256
      ensures forall x :: x != id ==> Watching(x) == old(Watching(x))
    {
      hide RingsValid, Log, Subscription.Valid;
      OfferAll(id, e);
      assert forall x, s :: x in subscribers && s in subscribers[x] ==> s in Watching(x);
    }

    /** Offers the event to each watcher in turn. */
    method OfferAll(id: string, e: Event)
      requires forall s :: s in Watching(id) ==> s.Valid() && !s.closed
      modifies `subscribers, Watching(id)
      ensures forall s :: s in old(Watching(id)) ==> s.Offered(e)
      ensures forall s :: s in Watching(id) <==> s in old(Watching(id)) && |old(s.queue)| < 256
      ensures forall x :: x != id ==> Watching(x) == old(Watching(x))
      ensures forall x :: x in subscribers ==> x in old(subscribers)
    {
      hide Subscription.Valid;
      var todo := if id in subscribers then subscribers[id] else {};
      while todo != {}
        invariant todo <= Watching(id) <= old(Watching(id))
        invariant forall s :: s in todo ==> s.Valid() && !s.closed && s.closed == old(s.closed) && s.seen == old(s.seen)
                                            && s.queue == old(s.queue) && s.taken == old(s.taken) && s.lagged == old(s.lagged)
        invariant forall s :: s in old(Watching(id)) && s !in todo ==>
                    s.Offered(e) && (s in Watching(id) <==> |old(s.queue)| < SubscriberQueue)
        invariant forall x :: x != id ==> Watching(x) == old(Watching(x))
        invariant forall x :: x in subscribers ==> x in old(subscribers)
      {
        var s :| s in todo;
        todo := todo - {s};
        OfferTo(id, s, e);
      }
    }

    /** Ends `sub` at the watcher's own wish; one that has already ended keeps its reason. */
    method Unsubscribe(id: string, sub: Subscription)
      requires Valid() && sub.Valid() && (sub.closed || sub in Watching(id))
      modifies `subscribers, sub`closed, sub`lagged
      ensures Valid() && sub.Valid() && sub.closed
      ensures sub.lagged == old(sub.closed && sub.lagged)
      ensures forall x :: Watching(x) == old(Watching(x)) - if x == id then {sub} else {}
      ensures forall x :: Log(x) == old(Log(x))
    {
      hide Ring.Valid, RingsValid, Subscription.Valid, Log;
      assert forall x, s :: s in Watching(x) ==> s in subscribers[x] && !s.closed && s.id == x;
      RemoveLocked(id, sub, false);
      assert forall x, s :: x in subscribers && s in subscribers[x] ==> s in Watching(x) && s in old(Watching(x)) && s != sub;
    }

    method LastSeq(id: string) returns (n: nat)
      requires Valid()
      modifies `rings
      ensures Valid() && n == |Log(id)| && forall x :: Log(x) == old(Log(x))
    {
      hide Ring.Valid, Subscription.Valid;
      var ring := RingFor(id);
      n := ring.LastSeq();
    }

    /** Registers a watcher resuming after `after`. */
    method Subscribe(id: string, after: nat) returns (replay: seq<Event>, sub: Subscription)
      requires Valid() && after < TwoTo64
      modifies `rings, `subscribers
      ensures Valid()
      ensures fresh(sub) && sub.start == |Log(id)| && sub.seen == Log(id) && sub.taken == [] && sub.queue == []
      ensures sub.Valid() && sub.id == id && !sub.closed
      ensures forall x :: Log(x) == old(Log(x)) && Oldest(x) == old(Oldest(x))
      ensures forall x :: Watching(x) == old(Watching(x)) + if x == id then {sub} else {}
      ensures 0 <= Oldest(id) <= |Log(id)| && replay == Replay(id, Log(id), Oldest(id), after)
    {
      hide Replay, Ring.Valid, Subscription.Valid;
      replay := ReplayAfter(id, after);
      sub := new Subscription(id, Log(id));
      Attach(id, sub);
    }

    method ReplayAfter(id: string, after: nat) returns (replay: seq<Event>)
      requires Valid() && after < TwoTo64
      modifies `rings
      ensures Valid() && fresh(rings.Values - old(rings.Values))
      ensures forall x :: Log(x) == old(Log(x)) && Oldest(x) == old(Oldest(x))
      ensures 0 <= Oldest(id) <= |Log(id)| && replay == Replay(id, Log(id), Oldest(id), after)
    {
      hide IsOldest, Stamped, TotalSize, SinceIn, Subscription.Valid;
      var ring := RingFor(id);
      var retained, missed := ring.Since(after);
      replay := (if missed > 0 then [GapEvent(id, missed)] else []) + retained;
    }

    method Attach(id: string, sub: Subscription)
      requires Valid() && sub.Valid() && sub.id == id && !sub.closed && sub.seen == Log(id)
      modifies `subscribers
      ensures Valid()
      ensures forall x :: Watching(x) == old(Watching(x)) + if x == id then {sub} else {}
    {
      hide Ring.Valid, Subscription.Valid;
      subscribers := subscribers[id := (if id in subscribers then subscribers[id] else {}) + {sub}];
    }
  }
}
