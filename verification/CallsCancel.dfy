/** A cancel stops the request it names, if that request has reached the in-flight table.

    The table is keyed by request id and outlives a connection, so this is for runs that
    reconnect only when every earlier handler is gone. */
module CallsCancel {
  import opened Wrappers
  import opened Calls
  import opened CallsPerformed
  import opened CallsRuns

  /** Entered in the in-flight table and not yet left. */
  predicate InTable(h: Handler) { h.progress.Running? || h.progress.Computed? || h.progress.Replied? }

  predicate AllGone(s: State) { forall h :: h in s.handlers ==> s.handlers[h].progress.Gone? }

  /** Each entry is a handler in the table, under its own id. */
  ghost predicate EntriesOk(s: State) {
    forall i :: i in s.inflight ==>
      var h := s.inflight[i]; h in s.handlers && s.handlers[h].id == i && InTable(s.handlers[h])
  }

  /** Each handler in the table that has not been cancelled has its entry. */
  ghost predicate CoveredOk(s: State) {
    forall h :: h in s.handlers && InTable(s.handlers[h]) && !s.handlers[h].cancelled ==>
      s.handlers[h].id in s.inflight && s.inflight[s.handlers[h].id] == h
  }

  /** No handler is cancelled before it has entered. */
  ghost predicate NewOk(s: State) {
    forall h :: h in s.handlers && s.handlers[h].progress.Spawned? ==> !s.handlers[h].cancelled
  }

  ghost predicate TableOk(s: State) {
    && EntriesOk(s) && CoveredOk(s) && NewOk(s)
    && (forall h :: h in s.handlers && !s.handlers[h].progress.Gone? ==> s.handlers[h].conn == |s.conns| - 1)
  }

  /** Handlers of one connection have different ids. */
  ghost predicate Distinct(s: State) {
    forall g, h | g in s.handlers && h in s.handlers
                  && s.handlers[g].conn == s.handlers[h].conn && s.handlers[g].id == s.handlers[h].id :: g == h
  }

  lemma DistinctIds(s: State)
    requires Ordered(s)
    ensures Distinct(s)
  {
    forall g, h | g in s.handlers && h in s.handlers && s.handlers[g].conn == s.handlers[h].conn
                  && s.handlers[g].id == s.handlers[h].id
      ensures g == h
    {
      assert HandlerOk(s, g) && HandlerOk(s, h);
    }
  }

  /** Every step, reconnects among them, keeps each entry a handler in the table under its own
      id, and handlers yet to enter uncancelled. */
  lemma EntriesKept(s: State, a: Action)
    requires EntriesOk(s) && NewOk(s) && Enabled(s, a)
    ensures EntriesOk(Apply(s, a)) && NewOk(Apply(s, a))
  {
    if HandlerStep(a) {
      HandlerEntries(s, a);
    } else if a.ReadRequest? || a.ReadCancel? {
      ReadEntries(s, a);
    } else {
      hide Apply, Enabled;
      OtherEffect(s, a);
    }
  }

  lemma HandlerEntries(s: State, a: Action)
    requires EntriesOk(s) && NewOk(s) && Enabled(s, a) && HandlerStep(a)
    ensures EntriesOk(Apply(s, a)) && NewOk(Apply(s, a))
  {
    hide CallerEnabled, CallerApply, ReaderEnabled, ReaderApply, LinkEnabled, LinkApply;
  }

  lemma ReadEntries(s: State, a: Action)
    requires EntriesOk(s) && NewOk(s) && Enabled(s, a) && (a.ReadRequest? || a.ReadCancel?)
    ensures EntriesOk(Apply(s, a)) && NewOk(Apply(s, a))
  {
    hide CallerEnabled, CallerApply, ReaderEnabled, ReaderApply, HandlerEnabled, HandlerApply;
  }

  lemma {:induction false} RunKeepsEntries(s: State, acts: seq<Action>)
    requires EntriesOk(s) && NewOk(s) && Legal(s, acts)
    ensures EntriesOk(Final(s, acts)) && NewOk(Final(s, acts))
    decreases |acts|
  {
    hide EntriesOk, NewOk, Apply, Enabled;
    if acts != [] {
      EntriesKept(s, acts[0]);
      RunKeepsEntries(Apply(s, acts[0]), acts[1..]);
    }
  }

  lemma AlwaysEntries(acts: seq<Action>)
    requires Legal(Start, acts)
    ensures EntriesOk(Final(Start, acts)) && NewOk(Final(Start, acts))
  {
    RunKeepsEntries(Start, acts);
  }

  lemma TableStep(s: State, a: Action)
    requires TableOk(s) && Distinct(s) && Enabled(s, a) && (a.Connect? ==> AllGone(s))
    ensures TableOk(Apply(s, a))
  {
    if a.Enter? || a.Leave? || a.ReadCancel? || a.Compute? || a.ReadRequest? || a.Reply? || a.ReplyFails? {
      HandlerTable(s, a);
    } else {
      OtherTable(s, a);
    }
  }

  lemma OtherTable(s: State, a: Action)
    requires TableOk(s) && Enabled(s, a) && (a.Connect? ==> AllGone(s))
    requires !(a.Enter? || a.Leave? || a.ReadCancel? || a.Compute? || a.ReadRequest? || a.Reply? || a.ReplyFails?)
    ensures TableOk(Apply(s, a))
  {
    hide Apply, Enabled;
    OtherEffect(s, a);
  }

  lemma OtherEffect(s: State, a: Action)
    requires Enabled(s, a)
    requires !(a.Enter? || a.Leave? || a.ReadCancel? || a.Compute? || a.ReadRequest? || a.Reply? || a.ReplyFails?)
    ensures Apply(s, a).handlers == s.handlers && Apply(s, a).inflight == s.inflight
    ensures a.Connect? || |Apply(s, a).conns| == |s.conns|
  {
    if CallerStep(a) {
      CallerLeavesWorker(s, a);
    } else if ReaderStep(a) {
      ReaderLeavesWorker(s, a);
    } else {
      hide CallerEnabled, CallerApply, ReaderEnabled, ReaderApply, HandlerEnabled, HandlerApply;
    }
  }

  lemma HandlerTable(s: State, a: Action)
    requires TableOk(s) && Distinct(s) && Enabled(s, a)
    requires a.Enter? || a.Leave? || a.ReadCancel? || a.Compute? || a.ReadRequest? || a.Reply? || a.ReplyFails?
    ensures TableOk(Apply(s, a))
  {
    match a {
      case Enter(h) => EnterTable(s, h);
      case Leave(h) => LeaveTable(s, h);
      case ReadCancel => CancelTable(s);
      case _ => ProgressTable(s, a);
    }
  }

  lemma EnterTable(s: State, h: nat)
    requires TableOk(s) && Distinct(s) && Enabled(s, Enter(h))
    ensures TableOk(Apply(s, Enter(h)))
  {
    hide CallerEnabled, CallerApply, ReaderEnabled, ReaderApply, LinkEnabled, LinkApply;
  }

  lemma LeaveTable(s: State, h: nat)
    requires TableOk(s) && Distinct(s) && Enabled(s, Leave(h))
    ensures TableOk(Apply(s, Leave(h)))
  {
    hide Enabled, Apply;
    LeaveEffect(s, h);
    LeaveFrame(s, Apply(s, Leave(h)), h);
  }

  lemma LeaveEffect(s: State, h: nat)
    requires Enabled(s, Leave(h))
    ensures h in s.handlers && InTable(s.handlers[h])
    ensures var s' := Apply(s, Leave(h));
            && s'.inflight == s.inflight - {s.handlers[h].id} && |s'.conns| == |s.conns|
            && s'.handlers == s.handlers[h := s.handlers[h].(progress := Gone)]
  {
    hide CallerEnabled, CallerApply, ReaderEnabled, ReaderApply, LinkEnabled, LinkApply;
  }

  lemma LeaveFrame(s: State, s': State, h: nat)
    requires TableOk(s) && Distinct(s) && h in s.handlers && InTable(s.handlers[h])
    requires s'.inflight == s.inflight - {s.handlers[h].id} && |s'.conns| == |s.conns|
    requires s'.handlers == s.handlers[h := s.handlers[h].(progress := Gone)]
    ensures TableOk(s')
  {
    LeaveEntries(s, s', h);
    LeaveCovered(s, s', h);
    hide EntriesOk, CoveredOk, Distinct;
  }

  lemma LeaveEntries(s: State, s': State, h: nat)
    requires EntriesOk(s) && h in s.handlers && s'.inflight == s.inflight - {s.handlers[h].id}
    requires s'.handlers == s.handlers[h := s.handlers[h].(progress := Gone)]
    ensures EntriesOk(s')
  {
  }

  lemma LeaveCovered(s: State, s': State, h: nat)
    requires TableOk(s) && Distinct(s) && h in s.handlers && InTable(s.handlers[h])
    requires s'.inflight == s.inflight - {s.handlers[h].id}
    requires s'.handlers == s.handlers[h := s.handlers[h].(progress := Gone)]
    ensures CoveredOk(s')
  {
    forall g | g in s'.handlers && InTable(s'.handlers[g]) && !s'.handlers[g].cancelled
      ensures s'.handlers[g].id in s'.inflight && s'.inflight[s'.handlers[g].id] == g
    {
      assert g != h && s'.handlers[g] == s.handlers[g];
      assert s.handlers[g].conn == s.handlers[h].conn;
    }
  }

  lemma CancelTable(s: State)
    requires TableOk(s) && Enabled(s, ReadCancel)
    ensures TableOk(Apply(s, ReadCancel))
  {
    hide CallerEnabled, CallerApply, ReaderEnabled, ReaderApply, HandlerEnabled, HandlerApply;
  }

  lemma ProgressTable(s: State, a: Action)
    requires TableOk(s) && Enabled(s, a) && (a.Compute? || a.ReadRequest? || a.Reply? || a.ReplyFails?)
    ensures TableOk(Apply(s, a))
  {
    hide Apply, Enabled;
    ProgressEffect(s, a);
    Progressed(s, Apply(s, a), a.h);
  }

  /** One handler starts, or moves on within the table. */
  ghost predicate Moves(s: State, s': State, h: nat) {
    && s'.inflight == s.inflight && |s'.conns| == |s.conns|
    && h in s'.handlers && s'.handlers == s.handlers[h := s'.handlers[h]]
    && var y := s'.handlers[h];
       if h in s.handlers
       then var x := s.handlers[h];
            InTable(x) && InTable(y) && y.id == x.id && y.conn == x.conn && y.cancelled == x.cancelled
       else y.progress.Spawned? && !y.cancelled && y.conn == |s.conns| - 1
  }

  lemma ProgressEffect(s: State, a: Action)
    requires Enabled(s, a) && (a.Compute? || a.ReadRequest? || a.Reply? || a.ReplyFails?)
    ensures Moves(s, Apply(s, a), a.h)
  {
    hide CallerEnabled, CallerApply, ReaderEnabled, ReaderApply;
  }

  lemma Progressed(s: State, s': State, h: nat)
    requires TableOk(s) && Moves(s, s', h)
    ensures TableOk(s')
  {
    assert forall g :: g in s.handlers && g != h ==> s'.handlers[g] == s.handlers[g];
  }

  /** Every reconnect in the run finds all earlier handlers gone. */
  ghost predicate Idle(s: State, acts: seq<Action>)
    requires Legal(s, acts)
    decreases |acts|
  {
    acts == [] || ((acts[0].Connect? ==> AllGone(s)) && Idle(Apply(s, acts[0]), acts[1..]))
  }

  lemma {:induction false} RunKeeps(s: State, acts: seq<Action>)
    requires Ordered(s) && TableOk(s) && Legal(s, acts) && Idle(s, acts)
    ensures Ordered(Final(s, acts)) && TableOk(Final(s, acts))
    decreases |acts|
  {
    hide Ordered, TableOk, Apply, Enabled;
    if acts != [] {
      DistinctIds(s);
      TableStep(s, acts[0]);
      StepKeepsOrder(s, acts[0]);
      RunKeeps(Apply(s, acts[0]), acts[1..]);
    }
  }

  /** Reading the next cancel cancels the handler of the named request on this connection
      if it is in the table, and no other. A handler that has not entered the table yet is
      not stopped: the cancel is lost. */
  ghost predicate StopsExactly(s: State)
    requires Enabled(s, ReadCancel)
  {
    var k := Cur(s);
    var id := s.conns[k].toWorker[0].id;
    var s' := Apply(s, ReadCancel);
    && s'.handlers.Keys == s.handlers.Keys
    && forall h :: h in s.handlers ==>
         (s'.handlers[h].cancelled <==>
          s.handlers[h].cancelled
          || (s.handlers[h].conn == k && s.handlers[h].id == id && InTable(s.handlers[h])))
  }

  /** As long as reconnects find every earlier handler gone, each cancel stops exactly the
      request it names, which is one whose caller has given up. */
  lemma CancelExactly(acts: seq<Action>)
    requires Legal(Start, acts) && Idle(Start, acts) && Enabled(Final(Start, acts), ReadCancel)
    ensures StopsExactly(Final(Start, acts)) && NamesAbandoned(Final(Start, acts))
  {
    IdleKeeps(acts);
    CancelNamesAbandoned(acts);
    CancelHits(Final(Start, acts));
  }

  lemma IdleKeeps(acts: seq<Action>)
    requires Legal(Start, acts) && Idle(Start, acts)
    ensures Ordered(Final(Start, acts)) && TableOk(Final(Start, acts))
  {
    assert Ordered(Start) && TableOk(Start);
    RunKeeps(Start, acts);
  }

  lemma CancelHits(s: State)
    requires TableOk(s) && Enabled(s, ReadCancel)
    ensures StopsExactly(s)
  {
    hide CallerEnabled, CallerApply, ReaderEnabled, ReaderApply, HandlerEnabled, HandlerApply;
  }

  /** Such a cancel does get lost: a caller gives up, its cancel is read before the handler
      enters the table, and the handler then runs as if nothing had happened. */
  lemma CancelLost(r: Request) returns (acts: seq<Action>)
    ensures Legal(Start, acts)
    ensures var s := Final(Start, acts);
            && 0 in s.calls && s.calls[0].phase == Abandoned
            && 0 in s.handlers && s.handlers[0] == Handler(0, 1, r, Running, None, false)
            && |s.conns| == 1 && s.conns[0].toWorker == []
  {
    hide Enabled, Apply, Legal, Final;
    var sent := CancelSent(r);
    LostSteps(Final(Start, sent), r);
    StepOn(Start, sent, ReadRequest(0));
    StepOn(Start, sent + [ReadRequest(0)], ReadCancel);
    StepOn(Start, sent + [ReadRequest(0)] + [ReadCancel], Enter(0));
    acts := sent + [ReadRequest(0)] + [ReadCancel] + [Enter(0)];
  }

  lemma LostSteps(s: State, r: Request)
    requires s.inSession && s.handlers == map[] && s.inflight == map[]
    requires |s.conns| == 1 && s.conns[0].toWorker == [Req(1, r), Cancel(1)]
    ensures Enabled(s, ReadRequest(0))
    ensures Enabled(Apply(s, ReadRequest(0)), ReadCancel)
    ensures Enabled(Apply(Apply(s, ReadRequest(0)), ReadCancel), Enter(0))
    ensures var s' := Apply(Apply(Apply(s, ReadRequest(0)), ReadCancel), Enter(0));
            && s'.calls == s.calls && 0 in s'.handlers && s'.handlers[0] == Handler(0, 1, r, Running, None, false)
            && |s'.conns| == 1 && s'.conns[0].toWorker == []
  {
    var s1 := Apply(s, ReadRequest(0));
    assert s1.conns[0].toWorker == [Cancel(1)] && s1.inSession && s1.inflight == map[];
    var s2 := Apply(s1, ReadCancel);
    assert s2.conns[0].toWorker == [] && s2.handlers == s1.handlers;
  }

  lemma CancelSent(r: Request) returns (acts: seq<Action>)
    ensures Legal(Start, acts)
    ensures var s := Final(Start, acts);
            && s.inSession && s.handlers == map[] && s.inflight == map[]
            && |s.conns| == 1 && s.conns[0].toWorker == [Req(1, r), Cancel(1)]
            && 0 in s.calls && s.calls[0].phase == Abandoned
  {
    var sent := RequestSent(r);
    var s := Final(Start, sent);
    var s1 := Apply(s, GiveUp(0));
    StepOn(Start, sent, GiveUp(0));
    StepOn(Start, sent + [GiveUp(0)], SendCancel(0));
    acts := sent + [GiveUp(0)] + [SendCancel(0)];
  }
}
