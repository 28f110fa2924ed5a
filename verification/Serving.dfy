/** The server's end of one watcher's connection. Each operation on the broadcaster does
    what the step of the same name does in the system of a server and a page. */
module Serving {
  import opened Events
  import opened Retention
  import opened Broadcasting
  import opened Resuming

  /** The broadcaster, and the subscription of the connection if there is one, are the
      server's side of the system's state. */
  ghost predicate Shows(b: Broadcaster, sub: Subscription?, s: Sys)
    reads b, b.rings.Values, b.AllWatching(), sub
  {
    && b.Valid() && b.limitBytes == s.limit
    && b.Log(s.id) == s.log && b.Oldest(s.id) == s.oldest <= |s.log|
    && (sub == null <==> s.conn.None?)
    && (sub != null ==> Serves(b, sub, s.id, s.conn.value))
  }

  ghost predicate Serves(b: Broadcaster, sub: Subscription, id: string, c: Conn)
    reads b, sub
  {
    && sub.Valid() && sub.id == id && sub.queue == c.queue
    && (c.attached <==> sub in b.Watching(id))
    && (c.attached <==> !sub.closed) && (sub.closed ==> sub.lagged)
  }

  /** A publish to the page's own sandbox is the system's step; one to any other leaves
      everything the page depends on alone. */
  method Publish(b: Broadcaster, sub: Subscription?, e: Event, ghost s: Sys)
    requires Shows(b, sub, s)
    requires e.sandboxId == s.id ==> Enabled(s, Action.Publish(e))
    modifies b`rings, b`subscribers, b.rings.Values, b.Watching(e.sandboxId)
    ensures Shows(b, sub, if e.sandboxId == s.id then Apply(s, Action.Publish(e)) else s)
  {
    hide Ring.Valid, Subscription.Valid, Broadcaster.Valid, Evict;
    AttachedHere(b, sub, s, e.sandboxId);
    var _ := b.Publish(e);
  }

  /** A watcher is attached under its own sandbox and no other. */
  lemma AttachedHere(b: Broadcaster, sub: Subscription?, s: Sys, id: string)
    requires Shows(b, sub, s)
    ensures sub != null && sub in b.Watching(id) ==> id == s.id
  {
    hide Broadcaster.RingsValid, Broadcaster.Log, Broadcaster.Oldest, Subscription.Valid;
  }

  /** Connecting hands over the system's replay and attaches where it ends. */
  method Connect(b: Broadcaster, ghost s: Sys, id: string, after: nat) returns (replay: seq<Event>, sub: Subscription)
    requires Shows(b, null, s) && id == s.id && after == s.lastSeq < TwoTo64 && Enabled(s, Action.Connect)
    modifies b`rings, b`subscribers
    ensures fresh(sub) && Shows(b, sub, Apply(s, Action.Connect))
    ensures replay == Apply(s, Action.Connect).conn.value.pending
  {
    hide Ring.Valid, Subscription.Valid, Broadcaster.Valid, Replay;
    replay, sub := b.Subscribe(id, after);
  }

  /** Sending the next live event, if one is waiting; what was queued before a watcher was
      cut off is still sent. */
  method NextLive(b: Broadcaster, sub: Subscription, ghost s: Sys) returns (e: Event, ok: bool)
    requires Shows(b, sub, s) && s.conn.value.pending == []
    modifies sub`queue, sub`taken
    ensures ok <==> Enabled(s, SendLive)
    ensures ok ==> Shows(b, sub, Apply(s, SendLive)) && Apply(s, SendLive).conn.value.wire == s.conn.value.wire + [e]
    ensures !ok ==> Shows(b, sub, s)
  {
    hide Ring.Valid, Broadcaster.RingsValid;
    e, ok := sub.Receive();
  }

  /** However the connection ends, the watcher is detached. */
  method Cut(b: Broadcaster, sub: Subscription, id: string, ghost s: Sys)
    requires Shows(b, sub, s) && id == s.id
    modifies b`subscribers, sub`closed, sub`lagged
    ensures Shows(b, null, Apply(s, Action.Cut)) && sub !in b.Watching(sub.id)
    ensures sub.lagged == !s.conn.value.attached
  {
    hide Ring.Valid, Subscription.Valid, Broadcaster.Valid;
    b.Unsubscribe(id, sub);
  }
}
