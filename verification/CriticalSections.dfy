/** The objects behind the protocol: the hub's record of one connection, and the worker's
    table of requests in flight. Each method is one critical section, or one goroutine
    that happens not to be interrupted, and does what the steps of the protocol do. */
module CriticalSections {
  import opened Calls
  import CallsOnce
  import CallsCancel

  /** The channel one call waits on; it has room for one answer. */
  class Waiter {
    const call: nat
    var queue: seq<Answer>

    constructor (call: nat)
      ensures this.call == call && queue == []
    {
      this.call, queue := call, [];
    }

    /** A send to a full channel would block, so there has to be room. */
    method Send(a: Answer)
      requires queue == []
      modifies this
      ensures queue == [a]
    {
      queue := [a];
    }
  }

  class Worker {
    var closed: bool
    var nextID: nat
    var pending: map<nat, Waiter>

    constructor ()
      ensures !closed && nextID == 0 && pending == map[]
    {
      closed, nextID, pending := false, 0, map[];
    }

    /** The object is connection `k` of the protocol's state. */
    ghost predicate Shows(s: State, k: nat)
      reads this, pending.Values
    {
      && k < |s.conns|
      && closed == s.conns[k].closed && nextID == s.conns[k].nextID
      && pending.Keys == s.conns[k].pending.Keys
      && (forall i :: i in pending ==> Matches(pending[i], s, s.conns[k].pending[i]))
      && (forall i, j :: i in pending && j in pending && i != j ==> pending[i] != pending[j])
    }

    /** Gives a call an id and a channel, unless the connection is closed. */
    method Register(c: nat, ghost s: State, ghost k: nat) returns (id: nat, waiter: Waiter?)
      requires Shows(s, k) && CallsOnce.Inv(s) && Enabled(s, Action.Register(c)) && s.calls[c].conn == k
      modifies this
      ensures Shows(Apply(s, Action.Register(c)), k)
      ensures waiter == null <==> old(closed)
      ensures waiter != null ==>
                && fresh(waiter) && waiter.call == c && waiter.queue == []
                && id !in old(pending) && pending == old(pending)[id := waiter]
                && Apply(s, Action.Register(c)).calls[c].id == id
      ensures waiter == null ==> pending == old(pending)
    {
      hide Apply, Enabled, CallsOnce.Inv;
      RegisterEffect(s, c);
      if closed {
        return 0, null;
      }
      nextID := nextID + 1;
      id := nextID;
      waiter := new Waiter(c);
      pending := pending[id := waiter];
    }

    /** A caller whose request could not be sent takes its channel back. */
    method Forget(id: nat, ghost s: State, ghost k: nat, ghost c: nat)
      requires Shows(s, k) && Enabled(s, Action.Forget(c)) && s.calls[c].conn == k && s.calls[c].id == id
      modifies this
      ensures Shows(Apply(s, Action.Forget(c)), k) && pending == old(pending) - {id}
    {
      pending := pending - {id};
    }

    /** A caller whose context ended takes its channel back. */
    method GiveUp(id: nat, ghost s: State, ghost k: nat, ghost c: nat)
      requires Shows(s, k) && Enabled(s, Action.GiveUp(c)) && s.calls[c].conn == k && s.calls[c].id == id
      modifies this
      ensures Shows(Apply(s, Action.GiveUp(c)), k) && pending == old(pending) - {id}
    {
      pending := pending - {id};
    }

    /** Hands a result to whoever waits for it, if anyone still does. */
    method Deliver(id: nat, a: Answer, ghost s: State, ghost k: nat)
      requires Shows(s, k) && CallsOnce.Inv(s)
      requires Enabled(s, ReadResult(k)) && s.conns[k].toHub[0] == Result(id, a)
      modifies this, pending.Values
      ensures Shows(Delivered(s, k), k) && pending == old(pending) - {id}
      ensures id in old(pending) ==>
                old(pending[id]).queue == [a] && Matches(old(pending[id]), Delivered(s, k), old(pending[id]).call)
      ensures forall i :: i in old(pending) && i != id ==> old(pending[i]).queue == old(pending[i].queue)
    {
      hide Apply, Enabled, CallsOnce.Inv, Delivered;
      DeliverEffect(s, k);
      var waiter: Waiter? := if id in pending then pending[id] else null;
      pending := pending - {id};
      if waiter != null {
        waiter.Send(a);
      }
    }

    /** Closes the connection to new calls and fails every call waiting on it. */
    method Drop(ghost s: State, ghost k: nat) returns (ghost acts: seq<Action>)
      requires Shows(s, k) && CallsOnce.Inv(s) && s.conns[k].reader.Dropping?
      modifies this, pending.Values
      ensures closed && pending == map[]
      ensures forall i :: i in old(pending) ==> old(pending[i]).queue == [Disconnected]
      ensures Legal(s, acts) && Shows(Final(s, acts), k) && Final(s, acts).conns[k].reader.Finished?
      ensures forall i :: i in old(pending) ==> Matches(old(pending[i]), Final(s, acts), old(pending[i]).call)
    {
      hide Apply, Enabled, CallsOnce.Inv, Legal, Final;
      DropEffect(s, k);
      var waiters := pending;
      closed, pending := true, map[];
      assert CallsOf(waiters, waiters.Keys) == s.conns[k].pending.Values;
      var rest := FailAll(waiters, Apply(s, Close(k)), k);
      CloseFirst(s, k, rest);
      acts := [Close(k)] + rest;
    }
  }

  /** Tells every waiter that the worker is gone. */
  method FailAll(waiters: map<nat, Waiter>, ghost s: State, ghost k: nat) returns (ghost acts: seq<Action>)
    requires CallsOnce.Inv(s) && k < |s.conns|
    requires s.conns[k].reader == Failing(CallsOf(waiters, waiters.Keys))
    requires forall i :: i in waiters ==> Matches(waiters[i], s, waiters[i].call)
    requires forall i, j :: i in waiters && j in waiters && i != j ==>
               waiters[i] != waiters[j] && waiters[i].call != waiters[j].call
    modifies waiters.Values
    ensures forall i :: i in waiters ==> waiters[i].queue == [Disconnected]
    ensures Legal(s, acts) && k < |Final(s, acts).conns|
    ensures Final(s, acts).conns[k] == s.conns[k].(reader := Finished)
    ensures forall i :: i in waiters ==> Matches(waiters[i], Final(s, acts), waiters[i].call)
  {
    hide Apply, Enabled, CallsOnce.Inv, Legal, Final;
    ghost var t := s;
    acts := [];
    var todo := waiters.Keys;
    assert Legal(s, []) && Final(s, []) == s by { NoSteps(s); }
    while todo != {}
      invariant todo <= waiters.Keys
      invariant CallsOnce.Inv(t) && Legal(s, acts) && Final(s, acts) == t && k < |t.conns|
      invariant t.conns[k] == s.conns[k].(reader := Failing(CallsOf(waiters, todo)))
      invariant forall i :: i in waiters ==> Matches(waiters[i], t, waiters[i].call)
      invariant forall i :: i in waiters && i !in todo ==> waiters[i].queue == [Disconnected]
    {
      var i :| i in todo;
      ghost var c := waiters[i].call;
      OneLess(waiters, todo, i);
      FailEffect(t, k, c);
      waiters[i].Send(Disconnected);
      StepOn(s, acts, FailOne(k, c));
      t := Apply(t, FailOne(k, c));
      acts := acts + [FailOne(k, c)];
      todo := todo - {i};
    }
    assert CallsOf(waiters, {}) == {};
    FinishEffect(t, k);
    StepOn(s, acts, Finish(k));
    acts := acts + [Finish(k)];
  }

  function CallsOf(waiters: map<nat, Waiter>, ids: set<nat>): set<nat>
    requires ids <= waiters.Keys
  {
    set i | i in ids :: waiters[i].call
  }

  lemma OneLess(waiters: map<nat, Waiter>, ids: set<nat>, i: nat)
    requires ids <= waiters.Keys && i in ids
    requires forall j :: j in ids && j != i ==> waiters[j].call != waiters[i].call
    ensures CallsOf(waiters, ids - {i}) == CallsOf(waiters, ids) - {waiters[i].call}
    ensures waiters[i].call in CallsOf(waiters, ids)
  {
  }

  lemma NoSteps(s: State)
    ensures Legal(s, []) && Final(s, []) == s
  {
  }

  lemma CloseFirst(s: State, k: nat, rest: seq<Action>)
    requires Enabled(s, Close(k)) && Legal(Apply(s, Close(k)), rest)
    ensures Legal(s, [Close(k)] + rest) && Final(s, [Close(k)] + rest) == Final(Apply(s, Close(k)), rest)
  {
    hide Apply, Enabled;
    OneStep(s, Close(k));
    RunOn(s, [Close(k)], rest);
  }

  /** The channel holds what the protocol says the call's inbox does. */
  ghost predicate Matches(w: Waiter, s: State, c: nat)
    reads w
  {
    w.call == c && c in s.calls && w.queue == s.calls[c].inbox
  }

  /** The state once the next result on the connection has been read and handed over. */
  ghost function Delivered(s: State, k: nat): State
    requires Enabled(s, ReadResult(k))
  {
    var read := Apply(s, ReadResult(k));
    if Enabled(read, Action.Deliver(k)) then Apply(read, Action.Deliver(k)) else read
  }

  /** Calls other than `c` keep what their channels hold. */
  ghost predicate InboxesKept(s: State, s': State, c: nat) {
    forall d :: d in s.calls && d != c ==> d in s'.calls && s'.calls[d].inbox == s.calls[d].inbox
  }

  lemma RegisterEffect(s: State, c: nat)
    requires CallsOnce.Inv(s) && Enabled(s, Register(c))
    ensures var k := s.calls[c].conn;
            var x, id := s.conns[k], s.conns[k].nextID + 1;
            var s' := Apply(s, Register(c));
            && |s'.conns| == |s.conns| && InboxesKept(s, s', c)
            && c in s'.calls && s'.calls[c].inbox == s.calls[c].inbox == []
            && if x.closed then s'.conns[k] == x
               else && id !in x.pending && s'.calls[c].id == id
                    && s'.conns[k].closed == x.closed && s'.conns[k].nextID == id
                    && s'.conns[k].pending == x.pending[id := c]
  {
    assert CallsOnce.CallOk(s, c) && CallsOnce.ConnOk(s, s.calls[c].conn);
  }

  lemma PendingRoom(s: State, k: nat)
    requires CallsOnce.Inv(s) && k < |s.conns|
    ensures var p := s.conns[k].pending;
            && (forall i :: i in p ==> p[i] in s.calls && s.calls[p[i]].inbox == [])
            && (forall i, j :: i in p && j in p && i != j ==> p[i] != p[j])
  {
    assert CallsOnce.ConnOk(s, k);
    forall i | i in s.conns[k].pending
      ensures CallsOnce.Owed(s, k, s.conns[k].pending[i], i) && s.calls[s.conns[k].pending[i]].inbox == []
    {
      assert CallsOnce.CallOk(s, s.conns[k].pending[i]);
    }
  }

  lemma DeliverEffect(s: State, k: nat)
    requires CallsOnce.Inv(s) && Enabled(s, ReadResult(k))
    ensures var x, s' := s.conns[k], Delivered(s, k);
            var f := x.toHub[0];
            && |s'.conns| == |s.conns|
            && s'.conns[k].closed == x.closed && s'.conns[k].nextID == x.nextID
            && s'.conns[k].pending == x.pending - {f.id}
            && (forall i :: i in x.pending ==> x.pending[i] in s.calls && s.calls[x.pending[i]].inbox == [])
            && (forall i, j :: i in x.pending && j in x.pending && i != j ==> x.pending[i] != x.pending[j])
            && if f.id in x.pending
               then InboxesKept(s, s', x.pending[f.id])
                    && x.pending[f.id] in s'.calls && s'.calls[x.pending[f.id]].inbox == [f.a]
               else s'.calls == s.calls
  {
    hide CallsOnce.Inv;
    PendingRoom(s, k);
  }

  lemma DropEffect(s: State, k: nat)
    requires CallsOnce.Inv(s) && k < |s.conns| && s.conns[k].reader.Dropping?
    ensures Enabled(s, Close(k))
    ensures var x, s' := s.conns[k], Apply(s, Close(k));
            && CallsOnce.Inv(s')
            && |s'.conns| == |s.conns| && s'.calls == s.calls
            && s'.conns[k].closed && s'.conns[k].nextID == x.nextID
            && s'.conns[k].pending == map[] && s'.conns[k].reader == Failing(x.pending.Values)
            && (forall i, j :: i in x.pending && j in x.pending && i != j ==> x.pending[i] != x.pending[j])
  {
    PendingRoom(s, k);
    CallsOnce.StepKeeps(s, Close(k));
  }

  lemma FailEffect(s: State, k: nat, c: nat)
    requires CallsOnce.Inv(s) && k < |s.conns| && s.conns[k].reader.Failing? && c in s.conns[k].reader.rest
    ensures Enabled(s, FailOne(k, c))
    ensures var x, s' := s.conns[k], Apply(s, FailOne(k, c));
            && CallsOnce.Inv(s') && c in s.calls && s.calls[c].inbox == []
            && |s'.conns| == |s.conns| && InboxesKept(s, s', c)
            && c in s'.calls && s'.calls[c].inbox == [Disconnected]
            && s'.conns[k] == x.(reader := Failing(x.reader.rest - {c}))
  {
    assert CallsOnce.ConnOk(s, k) && CallsOnce.HeldOk(s, k, c) && CallsOnce.CallOk(s, c);
    hide CallsOnce.Inv;
    CallsOnce.StepKeeps(s, FailOne(k, c));
  }

  lemma FinishEffect(s: State, k: nat)
    requires k < |s.conns| && s.conns[k].reader == Failing({})
    ensures Enabled(s, Finish(k))
    ensures var x, s' := s.conns[k], Apply(s, Finish(k));
            && s'.calls == s.calls && |s'.conns| == |s.conns| && s'.conns[k] == x.(reader := Finished)
  {
  }

  // ---- the worker's side ----

  /** One request being handled, and whether it has been told to stop. */
  class Handling {
    const number: nat
    var cancelled: bool

    constructor (number: nat)
      ensures this.number == number && !cancelled
    {
      this.number, cancelled := number, false;
    }
  }

  class Link {
    var inflight: map<nat, Handling>

    constructor ()
      ensures inflight == map[]
    {
      inflight := map[];
    }

    ghost predicate Shows(s: State)
      reads this, inflight.Values
    {
      && inflight.Keys == s.inflight.Keys
      && (forall i :: i in inflight ==> Tracks(inflight[i], s, s.inflight[i]))
    }

    /** A handler starting up puts itself in the table under its request's id. */
    method Enter(id: nat, x: Handling, ghost s: State)
      requires Shows(s) && CallsCancel.NewOk(s) && Enabled(s, Action.Enter(x.number)) && s.handlers[x.number].id == id
      requires !x.cancelled
      modifies this
      ensures Shows(Apply(s, Action.Enter(x.number))) && inflight == old(inflight)[id := x]
    {
      inflight := inflight[id := x];
    }

    /** Stops the request named by a cancel, if it is in the table. */
    method Cancel(id: nat, ghost s: State)
      requires Shows(s) && CallsCancel.EntriesOk(s)
      requires Enabled(s, ReadCancel) && s.conns[Cur(s)].toWorker[0] == Frame.Cancel(id)
      modifies this, inflight.Values
      ensures Shows(Apply(s, ReadCancel)) && inflight == old(inflight) - {id}
      ensures id in old(inflight) ==> old(inflight[id]).cancelled
      ensures forall i :: i in old(inflight) && i != id ==> old(inflight[i]).cancelled == old(inflight[i].cancelled)
    {
      hide Apply, Enabled, CallsCancel.EntriesOk;
      CancelEffect(s);
      if id in inflight {
        var x := inflight[id];
        inflight := inflight - {id};
        x.cancelled := true;
      } else {
        inflight := inflight - {id};
      }
    }

    /** A handler that has answered takes its request's id out of the table. */
    method Leave(id: nat, ghost s: State, ghost h: nat)
      requires Shows(s) && Enabled(s, Action.Leave(h)) && s.handlers[h].id == id
      modifies this
      ensures Shows(Apply(s, Action.Leave(h))) && inflight == old(inflight) - {id}
    {
      inflight := inflight - {id};
    }
  }

  lemma CancelEffect(s: State)
    requires CallsCancel.EntriesOk(s) && Enabled(s, ReadCancel)
    ensures var id, s' := s.conns[Cur(s)].toWorker[0].id, Apply(s, ReadCancel);
            && s'.inflight == s.inflight - {id} && s'.handlers.Keys == s.handlers.Keys
            && (forall i :: i in s.inflight ==> s.inflight[i] in s.handlers)
            && (forall i :: i in s.inflight && i != id && id in s.inflight ==> s.inflight[i] != s.inflight[id])
            && (forall h :: h in s.handlers ==>
                  s'.handlers[h].cancelled == (s.handlers[h].cancelled || (id in s.inflight && h == s.inflight[id])))
  {
    hide CallerEnabled, CallerApply, ReaderEnabled, ReaderApply, HandlerEnabled, HandlerApply;
  }

  ghost predicate Tracks(x: Handling, s: State, h: nat)
    reads x
  {
    x.number == h && h in s.handlers && x.cancelled == s.handlers[h].cancelled
  }
}
