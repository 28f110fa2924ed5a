/** One watcher's view of a sandbox across any number of connections.

    The server side is the ring and the broadcaster with the handler that drains one
    subscription into a socket; the client side is the page that remembers the last
    sequence number it saw and comes back with it. Publishing, sending, receiving and
    losing the connection are separate steps and happen in any order. */
module Resuming {
  import opened Wrappers
  import opened Events
  import opened Retention
  import opened Broadcasting

  /** One connection. `after` is the position it was opened with; `from` and `upto` bound
      the stretch of the log handed to it so far and are read by no step. */
  datatype Conn = Conn(
    after: nat,
    from: nat,
    upto: nat,
    attached: bool,          // still subscribed: not cut off as lagging
    pending: seq<Event>,     // replay the handler has yet to send
    queue: seq<Event>,       // the subscription's channel
    wire: seq<Event>,        // sent, not yet received
    got: seq<Event>)         // received by the page

  /** What the page received over one connection. */
  datatype Session = Session(after: nat, from: nat, got: seq<Event>)

  datatype Sys = Sys(
    id: string,
    limit: int,
    log: seq<Event>,
    oldest: nat,             // where the ring starts
    conn: Option<Conn>,
    lastSeq: nat,            // the page's position
    past: seq<Session>)

  predicate Initial(s: Sys) {
    s.limit > 0 && s.log == [] && s.oldest == 0 && s.conn == None && s.lastSeq == 0 && s.past == []
  }

  datatype Action =
    | Publish(e: Event)
    | Connect
    | SendReplay
    | SendLive
    | Receive
    | Cut                    // for any reason, at any moment; what is on the wire is lost

  predicate Enabled(s: Sys, a: Action) {
    match a
    case Publish(_) => |s.log| < TwoTo64 - 2
    case Connect => s.conn.None? && s.oldest <= |s.log|
    case SendReplay => s.conn.Some? && s.conn.value.pending != []
    case SendLive => s.conn.Some? && s.conn.value.pending == [] && s.conn.value.queue != []
    case Receive => s.conn.Some? && s.conn.value.wire != []
    case Cut => s.conn.Some?
  }

  /** The page's position after a message: markers carry no sequence number. */
  function OnMessage(lastSeq: nat, e: Event): nat {
    if e.seqNo != 0 then e.seqNo else lastSeq
  }

  function Max(a: nat, b: nat): nat { if a < b then b else a }

  function Apply(s: Sys, a: Action): Sys
    requires Enabled(s, a)
  {
    match a
    case Publish(e) =>
      var stamped := e.(seqNo := |s.log| + 1);
      var log := s.log + [stamped];
      s.(log := log, oldest := Evict(s.limit, log, if s.oldest < |log| then s.oldest else 0),
         conn := if s.conn.Some? then Some(Offer(s.conn.value, stamped)) else None)
    case Connect =>
      var from := Max(s.oldest, s.lastSeq);
      s.(conn := Some(Conn(s.lastSeq, from, |s.log|, true, Replay(s.id, s.log, s.oldest, s.lastSeq), [], [], [])))
    case SendReplay =>
      var c := s.conn.value;
      s.(conn := Some(c.(pending := c.pending[1..], wire := c.wire + [c.pending[0]])))
    case SendLive =>
      var c := s.conn.value;
      s.(conn := Some(c.(queue := c.queue[1..], wire := c.wire + [c.queue[0]])))
    case Receive =>
      var c := s.conn.value;
      s.(conn := Some(c.(wire := c.wire[1..], got := c.got + [c.wire[0]])),
         lastSeq := OnMessage(s.lastSeq, c.wire[0]))
    case Cut =>
      var c := s.conn.value;
      s.(conn := None, past := s.past + [Session(c.after, c.from, c.got)])
  }

  /** A publish reaching the connection's subscription, if it still has one. */
  function Offer(c: Conn, e: Event): Conn {
    if !c.attached then c
    else if |c.queue| < SubscriberQueue then c.(queue := Queued(c.queue, e), upto := c.upto + 1)
    else c.(attached := false)
  }

  ghost predicate IsRun(ss: seq<Sys>, acts: seq<Action>) {
    && |ss| == |acts| + 1
    && Initial(ss[0])
    && forall i :: 0 <= i < |acts| ==> Enabled(ss[i], acts[i]) && ss[i + 1] == Apply(ss[i], acts[i])
  }

  // ---- what a connection is given ----

  function Marker(id: string, missed: nat): seq<Event> {
    if missed > 0 then [GapEvent(id, missed)] else []
  }

  /** A marker counting what was skipped, if anything was, then one stretch of the log. */
  function Stretch(id: string, log: seq<Event>, after: nat, from: nat, upto: nat): seq<Event>
    requires after <= from <= upto <= |log|
  {
    Marker(id, from - after) + log[from..upto]
  }

  /** Where a page that opened at `after` stands once it has received `got`. */
  function Position(after: nat, got: seq<Event>): nat {
    if got == [] then after else OnMessage(Position(after, got[..|got| - 1]), got[|got| - 1])
  }

  /** The real events received: those with a sequence number. */
  function Reals(got: seq<Event>): seq<Event> {
    if got == [] then []
    else Reals(got[..|got| - 1]) + if got[|got| - 1].seqNo != 0 then [got[|got| - 1]] else []
  }

  /** The events received markers say were skipped. */
  function Missed(got: seq<Event>): nat {
    if got == [] then 0
    else Missed(got[..|got| - 1]) + if got[|got| - 1].seqNo == 0 then got[|got| - 1].missed else 0
  }

  ghost predicate ConnOk(id: string, log: seq<Event>, c: Conn) {
    && c.after <= c.from <= c.upto <= |log|
    && (c.attached ==> c.upto == |log|)
    && c.got + c.wire + c.pending + c.queue == Stretch(id, log, c.after, c.from, c.upto)
    && (c.after < c.from ==> c.from < c.upto)
  }

  ghost predicate SessionOk(id: string, log: seq<Event>, s: Session) {
    && s.after <= s.from <= |log|
    && s.got <= Stretch(id, log, s.after, s.from, |log|)
  }

  /** Where the page stands after a run of sessions, each opened where the last one left it. */
  function EndOf(past: seq<Session>): nat {
    if past == [] then 0 else Position(past[|past| - 1].after, past[|past| - 1].got)
  }

  ghost predicate Chained(id: string, log: seq<Event>, past: seq<Session>) {
    past == [] ||
    var last := past[|past| - 1];
    var init := past[..|past| - 1];
    Chained(id, log, init) && last.after == EndOf(init) && SessionOk(id, log, last)
  }

  ghost predicate Inv(s: Sys) {
    && s.limit > 0 && |s.log| < TwoTo64 - 1
    && Stamped(s.log) && IsOldest(s.limit, s.log, s.oldest)
    && Chained(s.id, s.log, s.past) && EndOf(s.past) <= |s.log|
    && match s.conn
       case None => s.lastSeq == EndOf(s.past)
       case Some(c) => ConnOk(s.id, s.log, c) && c.after == EndOf(s.past) && s.lastSeq == Position(c.after, c.got)
  }

  // ---- one stretch, seen by the page ----

  lemma OneMore(after: nat, got: seq<Event>, e: Event)
    ensures Position(after, got + [e]) == OnMessage(Position(after, got), e)
    ensures Reals(got + [e]) == Reals(got) + if e.seqNo != 0 then [e] else []
    ensures Missed(got + [e]) == Missed(got) + if e.seqNo == 0 then e.missed else 0
  {
    assert (got + [e])[..|got|] == got;
  }

  lemma StretchAt(id: string, log: seq<Event>, after: nat, from: nat, upto: nat, n: nat)
    requires after <= from <= upto <= |log| && Stamped(log) && n < |Stretch(id, log, after, from, upto)|
    ensures var e := Stretch(id, log, after, from, upto)[n];
            var m := |Marker(id, from - after)|;
            if n < m then n == 0 && e.seqNo == 0 && e.missed == from - after
            else e == log[from + n - m] && e.seqNo == from + n - m + 1
  {
  }

  lemma StretchSize(id: string, log: seq<Event>, after: nat, from: nat, upto: nat)
    requires after <= from <= upto <= |log|
    ensures |Marker(id, from - after)| == if from > after then 1 else 0
    ensures |Stretch(id, log, after, from, upto)| == |Marker(id, from - after)| + upto - from
  {
  }

  lemma NoneGot(after: nat)
    ensures Position(after, []) == after && Reals([]) == [] && Missed([]) == 0
  {
  }

  lemma {:induction false} PositionIn(id: string, log: seq<Event>, after: nat, from: nat, upto: nat, n: nat)
    requires after <= from <= upto <= |log| && Stamped(log)
    requires n <= |Stretch(id, log, after, from, upto)|
    ensures var got := Stretch(id, log, after, from, upto)[..n];
            var m := |Marker(id, from - after)|;
            && Position(after, got) == (if n <= m then after else from + n - m)
            && Reals(got) == (if n <= m then [] else log[from..from + n - m])
            && Missed(got) == (if n == 0 then 0 else from - after)
  {
    hide Stretch, Marker, Stamped, Position, Reals, Missed;
    var all := Stretch(id, log, after, from, upto);
    var m := |Marker(id, from - after)|;
    StretchSize(id, log, after, from, upto);
    if n == 0 {
      assert all[..0] == [];
      NoneGot(after);
    } else {
      PositionIn(id, log, after, from, upto, n - 1);
      StretchAt(id, log, after, from, upto, n - 1);
      assert all[..n] == all[..n - 1] + [all[n - 1]];
      OneMore(after, all[..n - 1], all[n - 1]);
      if n > m {
        assert log[from..from + n - m] == log[from..from + n - 1 - m] + [log[from + n - 1 - m]];
      }
    }
  }

  // ---- every step keeps the invariant ----

  lemma {:induction false} ChainedGrows(id: string, log: seq<Event>, e: Event, past: seq<Session>)
    requires Chained(id, log, past)
    ensures Chained(id, log + [e], past)
  {
    if past != [] {
      ChainedGrows(id, log, e, past[..|past| - 1]);
      var last := past[|past| - 1];
      StretchGrows(id, log, e, last.after, last.from);
    }
  }

  lemma StretchGrows(id: string, log: seq<Event>, e: Event, after: nat, from: nat)
    requires after <= from <= |log|
    ensures Stretch(id, log + [e], after, from, |log| + 1) == Stretch(id, log, after, from, |log|) + [e]
    ensures forall upto :: from <= upto <= |log| ==>
              Stretch(id, log + [e], after, from, upto) == Stretch(id, log, after, from, upto)
  {
    forall upto | from <= upto <= |log|
      ensures Stretch(id, log + [e], after, from, upto) == Stretch(id, log, after, from, upto)
    {
      assert (log + [e])[from..upto] == log[from..upto];
    }
    assert (log + [e])[from..|log| + 1] == log[from..] + [e];
    assert log[from..] == log[from..|log|];
  }

  lemma OfferOk(id: string, log: seq<Event>, e: Event, c: Conn)
    requires ConnOk(id, log, c)
    ensures ConnOk(id, log + [e], Offer(c, e))
  {
    StretchGrows(id, log, e, c.after, c.from);
    if c.attached && |c.queue| < SubscriberQueue {
      assert c.got + c.wire + c.pending + (c.queue + [e]) == c.got + c.wire + c.pending + c.queue + [e];
    }
  }

  lemma PublishKeeps(s: Sys, e: Event)
    requires Inv(s) && Enabled(s, Publish(e))
    ensures Inv(Apply(s, Publish(e)))
  {
    hide Chained, ConnOk, IsOldest, Position, Evict;
    var stamped := e.(seqNo := |s.log| + 1);
    AppendKeepsOldest(s.limit, s.log, stamped, s.oldest);
    OldestInRange(s);
    StampedSnoc(s.log, stamped);
    ChainedGrows(s.id, s.log, stamped, s.past);
    if s.conn.Some? {
      OfferOk(s.id, s.log, stamped, s.conn.value);
    }
  }

  lemma OldestInRange(s: Sys)
    requires IsOldest(s.limit, s.log, s.oldest)
    ensures s.oldest <= |s.log| && (s.log != [] ==> s.oldest < |s.log|)
  {
  }

  /** A watcher connecting is handed exactly the stretch from its position, or from the
      oldest event retained if that is later, with what lies between counted; a marker is
      always followed by an event. */
  lemma ConnectGives(s: Sys)
    requires Inv(s) && Enabled(s, Connect)
    ensures var from := Max(s.oldest, s.lastSeq);
            && s.lastSeq <= from <= |s.log|
            && Apply(s, Connect).conn.value.pending == Stretch(s.id, s.log, s.lastSeq, from, |s.log|)
            && (s.lastSeq < from ==> from < |s.log|)
  {
    hide Chained, ConnOk, IsOldest, Position, Stamped;
    OldestInRange(s);
    SinceMeaning(s.limit, s.log, s.oldest, s.lastSeq);
    var from := Max(s.oldest, s.lastSeq);
    assert s.log[from..] == s.log[from..|s.log|];
  }

  lemma EndIsSession(id: string, log: seq<Event>, c: Conn)
    requires Stamped(log) && ConnOk(id, log, c)
    ensures SessionOk(id, log, Session(c.after, c.from, c.got)) && Position(c.after, c.got) <= |log|
  {
    hide Position;
    var whole := Stretch(id, log, c.after, c.from, |log|);
    assert log[c.from..c.upto] <= log[c.from..|log|];
    assert Stretch(id, log, c.after, c.from, c.upto) <= whole;
    assert c.got <= c.got + c.wire + c.pending + c.queue;
    PositionIn(id, log, c.after, c.from, |log|, |c.got|);
    assert whole[..|c.got|] == c.got;
  }

  lemma CutKeeps(s: Sys)
    requires Inv(s) && Enabled(s, Cut)
    ensures Inv(Apply(s, Cut))
  {
    hide IsOldest, Replay, Evict, Offer, Position;
    var c := s.conn.value;
    var past := s.past + [Session(c.after, c.from, c.got)];
    assert past[..|past| - 1] == s.past;
    EndIsSession(s.id, s.log, c);
  }

  lemma ConnStepKeeps(s: Sys, a: Action)
    requires Inv(s) && Enabled(s, a) && (a.SendReplay? || a.SendLive? || a.Receive?)
    ensures Inv(Apply(s, a))
  {
    hide Chained, IsOldest, Stamped, EndOf, Stretch, Position, Replay, Evict, Offer;
    var c := s.conn.value;
    var c' := Apply(s, a).conn.value;
    assert c'.got + c'.wire + c'.pending + c'.queue == c.got + c.wire + c.pending + c.queue;
    if a.Receive? {
      OneMore(c.after, c.got, c.wire[0]);
    }
  }

  /** Every step keeps the invariant. */
  lemma StepKeeps(s: Sys, a: Action)
    requires Inv(s) && Enabled(s, a)
    ensures Inv(Apply(s, a))
  {
    match a {
      case Publish(e) => PublishKeeps(s, e);
      case Connect => ConnectKeeps(s);
      case Cut => CutKeeps(s);
      case _ => ConnStepKeeps(s, a);
    }
  }

  lemma ConnectKeeps(s: Sys)
    requires Inv(s) && Enabled(s, Connect)
    ensures Inv(Apply(s, Connect))
  {
    hide Chained, IsOldest, Stamped, EndOf, Stretch, Replay;
    ConnectGives(s);
    var c := Apply(s, Connect).conn.value;
    assert c.got + c.wire + c.pending + c.queue == c.pending;
  }

  lemma {:induction false} Reachable(ss: seq<Sys>, acts: seq<Action>, i: nat)
    requires IsRun(ss, acts) && i < |ss|
    ensures Inv(ss[i])
  {
    if i == 0 {
      assert ss[0].log == [];
    } else {
      Reachable(ss, acts, i - 1);
      assert ss[i - 1 + 1] == Apply(ss[i - 1], acts[i - 1]);
      hide Inv, Apply, Enabled;
      StepKeeps(ss[i - 1], acts[i - 1]);
    }
  }

  // ---- main results ----

  /** In every run, what the page has received over its current connection is a prefix
      of an optional marker followed by one contiguous stretch of the log, and with what
      is still on its way the marker is followed by an event. */
  lemma OneStretch(ss: seq<Sys>, acts: seq<Action>, i: nat)
    requires IsRun(ss, acts) && i < |ss| && ss[i].conn.Some?
    ensures var s := ss[i];
            var c := s.conn.value;
            && c.after <= c.from <= c.upto <= |s.log|
            && c.got <= Stretch(s.id, s.log, c.after, c.from, c.upto)
            && c.got + c.wire + c.pending + c.queue == Stretch(s.id, s.log, c.after, c.from, c.upto)
            && (c.after < c.from ==> c.from < c.upto)
            && (c.attached ==> c.upto == |s.log|)
  {
    Reachable(ss, acts, i);
    var c := ss[i].conn.value;
    assert c.got <= c.got + c.wire + c.pending + c.queue;
  }

  /** The connections so far, the current one included. */
  function Sessions(s: Sys): seq<Session> {
    match s.conn
    case None => s.past
    case Some(c) => s.past + [Session(c.after, c.from, c.got)]
  }

  lemma SessionsChained(s: Sys)
    requires Inv(s)
    ensures Chained(s.id, s.log, Sessions(s)) && EndOf(Sessions(s)) == s.lastSeq
  {
    if s.conn.Some? {
      CutKeeps(s);
      assert Apply(s, Cut).past == Sessions(s);
    }
  }

  /** The real events received over a run of connections, in the order received. */
  function AllReals(past: seq<Session>): seq<Event> {
    if past == [] then [] else AllReals(past[..|past| - 1]) + Reals(past[|past| - 1].got)
  }

  /** What the connections that delivered a real event account for: the events they
      delivered and those their markers counted. */
  function Accounted(past: seq<Session>): nat {
    if past == [] then 0
    else
      var got := past[|past| - 1].got;
      Accounted(past[..|past| - 1]) + if Reals(got) == [] then 0 else Missed(got) + |Reals(got)|
  }

  /** Whatever the page receives without a number is a gap notice about its own sandbox that
      counts what its connection skipped, and holds no output. */
  lemma MarkersSay(ss: seq<Sys>, acts: seq<Action>, i: nat, j: nat)
    requires IsRun(ss, acts) && i < |ss| && j < |Sessions(ss[i])|
    ensures var x := Sessions(ss[i])[j];
            forall e :: e in x.got && e.seqNo == 0 ==>
              e.kind == Gap && e.sandboxId == ss[i].id && e.execId == "" && e.data == []
              && e.missed == x.from - x.after > 0
  {
    Reachable(ss, acts, i);
    SessionsChained(ss[i]);
    ChainedAt(ss[i].id, ss[i].log, Sessions(ss[i]), j);
    MarkersIn(ss[i].id, ss[i].log, Sessions(ss[i])[j]);
  }

  lemma MarkersIn(id: string, log: seq<Event>, x: Session)
    requires Stamped(log) && SessionOk(id, log, x)
    ensures forall e :: e in x.got && e.seqNo == 0 ==>
              e.kind == Gap && e.sandboxId == id && e.execId == "" && e.data == [] && e.missed == x.from - x.after > 0
  {
    var all := Stretch(id, log, x.after, x.from, |log|);
    forall k | 0 <= k < |x.got| && x.got[k].seqNo == 0
      ensures var e := x.got[k];
              e.kind == Gap && e.sandboxId == id && e.execId == "" && e.data == [] && e.missed == x.from - x.after > 0
    {
      assert x.got[k] == all[k];
      StretchAt(id, log, x.after, x.from, |log|, k);
    }
  }

  lemma SessionAccounts(id: string, log: seq<Event>, s: Session)
    requires Stamped(log) && SessionOk(id, log, s)
    ensures var n := |Reals(s.got)|;
            && Position(s.after, s.got) == (if n == 0 then s.after else s.from + n)
            && s.from + n <= |log| && Reals(s.got) == log[s.from..s.from + n]
            && (n > 0 ==> Missed(s.got) + n == Position(s.after, s.got) - s.after)
  {
    var all := Stretch(id, log, s.after, s.from, |log|);
    assert s.got == all[..|s.got|];
    PositionIn(id, log, s.after, s.from, |log|, |s.got|);
    if Reals(s.got) == [] {
      assert log[s.from..s.from] == [];
    }
  }

  /** Events carrying their own place in the log, each after the one before it. */
  ghost predicate InOrder(log: seq<Event>, es: seq<Event>, upto: nat) {
    && (forall i :: 0 <= i < |es| ==> 1 <= es[i].seqNo <= upto && upto <= |log| && es[i] == log[es[i].seqNo - 1])
    && (forall i, j :: 0 <= i < j < |es| ==> es[i].seqNo < es[j].seqNo)
  }

  lemma {:induction false} ChainedInOrder(id: string, log: seq<Event>, past: seq<Session>)
    requires Stamped(log) && Chained(id, log, past)
    ensures EndOf(past) <= |log| && InOrder(log, AllReals(past), EndOf(past))
    ensures Accounted(past) == EndOf(past)
  {
    if past != [] {
      var init, last := past[..|past| - 1], past[|past| - 1];
      ChainedInOrder(id, log, init);
      SessionAccounts(id, log, last);
      hide SessionOk, InOrder, Position, Missed;
      ExtendOrder(log, AllReals(init), EndOf(init), last.from, last.from + |Reals(last.got)|, EndOf(past));
    }
  }

  lemma ExtendOrder(log: seq<Event>, es: seq<Event>, end: nat, from: nat, upto: nat, end': nat)
    requires Stamped(log) && InOrder(log, es, end) && end <= from <= upto <= |log|
    requires end' == if from == upto then end else upto
    ensures InOrder(log, es + log[from..upto], end')
  {
    var more := log[from..upto];
    forall j | 0 <= j < |more| ensures more[j].seqNo == from + j + 1 && more[j] == log[from + j] {
    }
  }

  /** Across any number of disconnects and reconnects, real events reach the page with
      strictly increasing sequence numbers, each of them the event published under that
      number: nothing is repeated, reordered or altered. */
  lemma NeverRepeated(ss: seq<Sys>, acts: seq<Action>, i: nat)
    requires IsRun(ss, acts) && i < |ss|
    ensures ss[i].lastSeq <= |ss[i].log|
    ensures InOrder(ss[i].log, AllReals(Sessions(ss[i])), ss[i].lastSeq)
  {
    hide Chained, InOrder, Sessions;
    Reachable(ss, acts, i);
    SessionsChained(ss[i]);
    ChainedInOrder(ss[i].id, ss[i].log, Sessions(ss[i]));
  }

  /** Everything up to the page's position was either delivered or counted by a marker
      ahead of something delivered, exactly once. */
  lemma NothingUnaccounted(ss: seq<Sys>, acts: seq<Action>, i: nat)
    requires IsRun(ss, acts) && i < |ss|
    ensures Accounted(Sessions(ss[i])) == ss[i].lastSeq
  {
    hide Chained, InOrder, Sessions;
    Reachable(ss, acts, i);
    SessionsChained(ss[i]);
    ChainedInOrder(ss[i].id, ss[i].log, Sessions(ss[i]));
  }

  /** In each connection that delivers a real event, what was missed plus what was
      delivered is how far the page moved. */
  lemma EachConnectionAccounts(ss: seq<Sys>, acts: seq<Action>, i: nat, j: nat)
    requires IsRun(ss, acts) && i < |ss| && j < |Sessions(ss[i])|
    ensures var x := Sessions(ss[i])[j];
            Reals(x.got) != [] ==> Missed(x.got) + |Reals(x.got)| == Position(x.after, x.got) - x.after
  {
    Reachable(ss, acts, i);
    SessionsChained(ss[i]);
    ChainedAt(ss[i].id, ss[i].log, Sessions(ss[i]), j);
    SessionAccounts(ss[i].id, ss[i].log, Sessions(ss[i])[j]);
  }

  lemma {:induction false} ChainedAt(id: string, log: seq<Event>, past: seq<Session>, j: nat)
    requires Chained(id, log, past) && j < |past|
    ensures SessionOk(id, log, past[j])
  {
    if j < |past| - 1 {
      ChainedAt(id, log, past[..|past| - 1], j);
    }
  }

  /** A connection cut after the marker alone leaves the position where it was, so the
      next one reports the same gap again. */
  lemma GapRepeats(s: Sys)
    requires Inv(s) && s.conn == None && s.lastSeq < s.oldest
    ensures Enabled(s, Connect)
    ensures var s1 := Apply(s, Connect);
            && Enabled(s1, SendReplay)
            && var s2 := Apply(s1, SendReplay);
            && Enabled(s2, Receive)
            && var s3 := Apply(s2, Receive);
            && Enabled(s3, Cut)
            && var s4 := Apply(s3, Cut);
            && Enabled(s4, Connect)
            && s3.conn.value.got == Marker(s.id, s.oldest - s.lastSeq)
            && s4.lastSeq == s.lastSeq
            && Apply(s4, Connect).conn.value.pending == s1.conn.value.pending
  {
    hide Inv, Evict;
    assert Inv(s);
    assert Enabled(s, Connect) by { Unfold(s); }
    ConnectGives(s);
    var s1 := Apply(s, Connect);
    assert s1.conn.value.pending[0] == GapEvent(s.id, s.oldest - s.lastSeq);
  }

  lemma Unfold(s: Sys)
    requires Inv(s)
    ensures s.oldest <= |s.log|
  {
  }
}
