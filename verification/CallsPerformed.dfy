/** Each request is performed once, and every frame to the worker says what its call says.

    This holds in every run, whatever handlers outlive their connection. */
module CallsPerformed {
  import opened Calls
  import CallsOnce

  /** Has yet to answer. */
  predicate Answerable(h: Handler) { h.progress.Spawned? || h.progress.Running? || h.progress.Computed? }

  predicate Sent(x: Call) { !(x.phase.Resolved? || x.phase.Registered? || x.phase.Refused?) }

  /** Handler `h` is performing the request of the call that was given `id` on `k`. */
  ghost predicate ForCall(s: State, h: nat, k: nat, id: nat)
    requires h in s.handlers
  {
    && s.handlers[h].conn == k < |s.conns| && s.handlers[h].id == id
    && id in s.conns[k].issued && s.conns[k].issued[id] in s.calls
    && s.calls[s.conns[k].issued[id]].req == s.handlers[h].req
    && Sent(s.calls[s.conns[k].issued[id]])
  }

  predicate AnswerOk(x: Handler) {
    && (x.answer.Some? <==> x.progress.Computed? || x.progress.Replied? || x.progress.Gone?)
    && (x.answer.Some? ==> !x.answer.value.Disconnected?)
  }

  ghost predicate HandlerOk(s: State, h: nat) {
    h in s.handlers &&
    var x := s.handlers[h];
    && ForCall(s, h, x.conn, x.id)
    && x.id in s.conns[x.conn].performed && s.conns[x.conn].performed[x.id] == h
    && AnswerOk(x)
  }

  ghost predicate PerformedOk(s: State, k: nat, id: nat)
    requires k < |s.conns| && id in s.conns[k].performed
  {
    var h := s.conns[k].performed[id];
    h in s.handlers && ForCall(s, h, k, id)
  }

  /** A frame on its way to the worker says what its call says. */
  ghost predicate FrameOk(s: State, k: nat, f: Frame)
    requires k < |s.conns|
  {
    var x := s.conns[k];
    && !f.Result? && f.id in x.issued && x.issued[f.id] in s.calls
    && Sent(s.calls[x.issued[f.id]])
    && (f.Req? ==> s.calls[x.issued[f.id]].req == f.r)
    && (f.Cancel? ==> s.calls[x.issued[f.id]].phase.Abandoned?)
  }

  ghost predicate Requests(x: Conn) {
    && (forall i :: 0 <= i < |x.toWorker| && x.toWorker[i].Req? ==> x.toWorker[i].id !in x.performed)
    && (forall i, j :: 0 <= i < j < |x.toWorker| && x.toWorker[i].Req? && x.toWorker[j].Req? ==>
          x.toWorker[i].id != x.toWorker[j].id)
  }

  ghost predicate OutOk(s: State, k: nat)
    requires k < |s.conns|
  {
    && (forall i :: 0 <= i < |s.conns[k].toWorker| ==> FrameOk(s, k, s.conns[k].toWorker[i]))
    && Requests(s.conns[k])
    && (forall id :: id in s.conns[k].performed ==> PerformedOk(s, k, id))
  }

  /** Requests, their handlers and the frames that name them are in order, on every
      connection there has been. */
  ghost predicate Ordered(s: State) {
    && CallsOnce.Inv(s)
    && (forall h :: h in s.handlers ==> HandlerOk(s, h))
    && (forall k :: 0 <= k < |s.conns| ==> OutOk(s, k))
  }

  // ---- what only grows ----

  ghost predicate ConnGrows(x: Conn, y: Conn) {
    && (forall i :: i in x.issued ==> i in y.issued && y.issued[i] == x.issued[i])
    && (forall i :: i in x.performed ==> i in y.performed && y.performed[i] == x.performed[i])
  }

  ghost predicate CallGrows(x: Call, y: Call) {
    && y.conn == x.conn && y.req == x.req && (x.id > 0 ==> y.id == x.id)
    && (Sent(x) ==> Sent(y)) && (x.phase.Abandoned? ==> y.phase.Abandoned?)
  }

  ghost predicate HandlerGrows(x: Handler, y: Handler) {
    && y.conn == x.conn && y.id == x.id && y.req == x.req && (x.answer.Some? ==> y.answer == x.answer)
    && (!Answerable(x) ==> !Answerable(y))
  }

  ghost predicate Grows(s: State, s': State) {
    && |s.conns| <= |s'.conns|
    && (forall k :: 0 <= k < |s.conns| ==> ConnGrows(s.conns[k], s'.conns[k]))
    && (forall c :: c in s.calls ==> c in s'.calls && CallGrows(s.calls[c], s'.calls[c]))
    && (forall h :: h in s.handlers ==> h in s'.handlers && HandlerGrows(s.handlers[h], s'.handlers[h]))
  }

  lemma ForCallGrows(s: State, s': State, h: nat, k: nat, id: nat)
    requires Grows(s, s') && h in s.handlers && ForCall(s, h, k, id)
    ensures ForCall(s', h, k, id)
  {
    assert ConnGrows(s.conns[k], s'.conns[k]);
    assert HandlerGrows(s.handlers[h], s'.handlers[h]);
    assert CallGrows(s.calls[s.conns[k].issued[id]], s'.calls[s.conns[k].issued[id]]);
  }

  lemma FrameGrows(s: State, s': State, k: nat, f: Frame)
    requires Grows(s, s') && k < |s.conns| && FrameOk(s, k, f)
    ensures FrameOk(s', k, f)
  {
    assert ConnGrows(s.conns[k], s'.conns[k]);
    assert CallGrows(s.calls[s.conns[k].issued[f.id]], s'.calls[s.conns[k].issued[f.id]]);
  }

  lemma CallerGrows(s: State, a: Action)
    requires CallsOnce.Inv(s) && Enabled(s, a) && CallerStep(a)
    ensures Grows(s, Apply(s, a))
  {
    if a.Register? {
      var k := s.calls[a.c].conn;
      assert CallsOnce.ConnOk(s, k) && CallsOnce.CallOk(s, a.c);
      assert s.conns[k].nextID + 1 !in s.conns[k].issued && s.calls[a.c].id == 0;
      hide CallsOnce.Inv, CallsOnce.ConnOk, CallsOnce.CallOk;
      RegisterGrows(s, a.c);
    } else {
      hide CallsOnce.Inv;
      OtherCallerGrows(s, a);
    }
  }

  lemma RegisterGrows(s: State, c: nat)
    requires Enabled(s, Register(c)) && s.calls[c].id == 0
    requires s.conns[s.calls[c].conn].nextID + 1 !in s.conns[s.calls[c].conn].issued
    ensures Grows(s, Apply(s, Register(c)))
  {
    hide ReaderEnabled, ReaderApply, WorkerEnabled, WorkerApply;
  }

  lemma OtherCallerGrows(s: State, a: Action)
    requires Enabled(s, a) && CallerStep(a) && !a.Register?
    ensures Grows(s, Apply(s, a))
  {
    hide ReaderEnabled, ReaderApply, WorkerEnabled, WorkerApply;
    if SendingStep(a) {
      hide OpeningEnabled, OpeningApply;
    } else {
      hide SendingEnabled, SendingApply;
    }
    var s' := Apply(s, a);
    HubLeavesHandlers(s, a);
    forall k | 0 <= k < |s.conns| ensures ConnGrows(s.conns[k], s'.conns[k]) {
    }
    forall c | c in s.calls ensures c in s'.calls && CallGrows(s.calls[c], s'.calls[c]) {
    }
    hide Apply, Enabled, ConnGrows, CallGrows;
  }

  lemma ReaderGrows(s: State, a: Action)
    requires Enabled(s, a) && ReaderStep(a)
    ensures Grows(s, Apply(s, a))
  {
    hide CallerEnabled, CallerApply, WorkerEnabled, WorkerApply;
    ReaderConnsGrow(s, a);
    var s' := Apply(s, a);
    assert s'.handlers == s.handlers;
    forall c | c in s.calls ensures c in s'.calls && CallGrows(s.calls[c], s'.calls[c]) {
    }
    hide Apply, Enabled, ConnGrows, CallGrows;
  }

  lemma ReaderConnsGrow(s: State, a: Action)
    requires Enabled(s, a) && ReaderStep(a)
    ensures |Apply(s, a).conns| == |s.conns|
    ensures forall k :: 0 <= k < |s.conns| ==> ConnGrows(s.conns[k], Apply(s, a).conns[k])
  {
    hide CallerEnabled, CallerApply, WorkerEnabled, WorkerApply;
  }

  lemma WorkerGrows(s: State, a: Action)
    requires Ordered(s) && Enabled(s, a) && !CallerStep(a) && !ReaderStep(a)
    ensures Grows(s, Apply(s, a))
  {
    if a.ReadRequest? {
      assert OutOk(s, Cur(s));
      assert s.conns[Cur(s)].toWorker[0].id !in s.conns[Cur(s)].performed;
    }
    if !a.Connect? && !a.EndSession? && !a.ReadRequest? && !a.ReadCancel? {
      assert HandlerOk(s, a.h);
      assert s.handlers[a.h].answer.Some? ==> !a.Compute?;
    }
    hide Ordered, OutOk, HandlerOk;
    if a.Connect? || a.EndSession? || a.ReadRequest? || a.ReadCancel? {
      LinkGrows(s, a);
    } else {
      HandlerStepGrows(s, a);
    }
  }

  lemma LinkGrows(s: State, a: Action)
    requires Enabled(s, a) && (a.Connect? || a.EndSession? || a.ReadRequest? || a.ReadCancel?)
    requires a.ReadRequest? ==> s.conns[Cur(s)].toWorker[0].id !in s.conns[Cur(s)].performed
    ensures Grows(s, Apply(s, a))
  {
    hide ConnGrows;
    ReadConnsGrow(s, a);
    LinkLeavesHub(s, a);
    hide CallerEnabled, CallerApply, ReaderEnabled, ReaderApply, HandlerEnabled, HandlerApply;
  }

  lemma ReadConnsGrow(s: State, a: Action)
    requires Enabled(s, a) && (a.Connect? || a.EndSession? || a.ReadRequest? || a.ReadCancel?)
    requires a.ReadRequest? ==> s.conns[Cur(s)].toWorker[0].id !in s.conns[Cur(s)].performed
    ensures |s.conns| <= |Apply(s, a).conns|
    ensures forall k :: 0 <= k < |s.conns| ==> ConnGrows(s.conns[k], Apply(s, a).conns[k])
  {
    hide CallerEnabled, CallerApply, ReaderEnabled, ReaderApply, HandlerEnabled, HandlerApply;
  }

  lemma HandlerStepGrows(s: State, a: Action)
    requires Enabled(s, a) && HandlerStep(a) && (a.Compute? ==> s.handlers[a.h].answer.None?)
    ensures Grows(s, Apply(s, a))
  {
    hide CallerEnabled, CallerApply, ReaderEnabled, ReaderApply, LinkEnabled, LinkApply;
    var s' := Apply(s, a);
    forall k | 0 <= k < |s.conns| ensures |s'.conns| == |s.conns| && ConnGrows(s.conns[k], s'.conns[k]) {
    }
    assert s'.calls == s.calls;
    forall h | h in s.handlers ensures h in s'.handlers && HandlerGrows(s.handlers[h], s'.handlers[h]) {
    }
    hide Apply, Enabled, ConnGrows, HandlerGrows;
  }

  lemma StepGrows(s: State, a: Action)
    requires Ordered(s) && Enabled(s, a)
    ensures Grows(s, Apply(s, a))
  {
    if CallerStep(a) {
      CallerGrows(s, a);
    } else if ReaderStep(a) {
      ReaderGrows(s, a);
    } else {
      WorkerGrows(s, a);
    }
  }

  // ---- handlers ----

  lemma HandlerKept(s: State, s': State, h: nat)
    requires HandlerOk(s, h) && Grows(s, s')
    requires AnswerOk(s'.handlers[h])
    ensures HandlerOk(s', h)
  {
    var x := s.handlers[h];
    ForCallGrows(s, s', h, x.conn, x.id);
    assert HandlerGrows(x, s'.handlers[h]);
    assert ConnGrows(s.conns[x.conn], s'.conns[x.conn]);
  }

  lemma OfOrdered(s: State)
    requires Ordered(s)
    ensures CallsOnce.Inv(s)
    ensures forall h :: h in s.handlers ==> HandlerOk(s, h)
    ensures forall k :: 0 <= k < |s.conns| ==> OutOk(s, k)
  {
  }

  lemma AnswerOf(s: State, h: nat)
    requires HandlerOk(s, h)
    ensures h in s.handlers && AnswerOk(s.handlers[h])
  {
  }

  /** The frame the worker reads next. */
  lemma FirstFrame(s: State)
    requires s.conns != [] && OutOk(s, Cur(s)) && s.conns[Cur(s)].toWorker != []
    ensures FrameOk(s, Cur(s), s.conns[Cur(s)].toWorker[0])
    ensures s.conns[Cur(s)].toWorker[0].Req? ==>
              s.conns[Cur(s)].toWorker[0].id !in s.conns[Cur(s)].performed
  {
  }

  lemma OnlyReadStarts(s: State, a: Action, h: nat)
    requires Enabled(s, a) && h in Apply(s, a).handlers && h !in s.handlers
    ensures a == ReadRequest(h)
  {
    if CallerStep(a) || ReaderStep(a) {
      hide Enabled, Apply;
      HubLeavesHandlers(s, a);
    } else {
      hide CallerEnabled, CallerApply, ReaderEnabled, ReaderApply;
    }
  }

  lemma StartedOk(s: State, h: nat)
    requires Ordered(s) && Enabled(s, ReadRequest(h))
    ensures HandlerOk(Apply(s, ReadRequest(h)), h)
  {
    OfOrdered(s);
    hide Ordered, OutOk, CallerEnabled, CallerApply, ReaderEnabled, ReaderApply, HandlerEnabled, HandlerApply;
    FirstFrame(s);
  }

  lemma HandlersKept(s: State, a: Action)
    requires Ordered(s) && Enabled(s, a) && Grows(s, Apply(s, a))
    ensures forall h :: h in Apply(s, a).handlers ==> HandlerOk(Apply(s, a), h)
  {
    hide Ordered, Apply, Enabled, Grows, HandlerOk, OutOk;
    var s' := Apply(s, a);
    OfOrdered(s);
    forall h | h in s'.handlers ensures HandlerOk(s', h) {
      if h in s.handlers {
        AnswerOf(s, h);
        ProgressStep(s, a, h);
        HandlerKept(s, s', h);
      } else {
        OnlyReadStarts(s, a, h);
        StartedOk(s, h);
      }
    }
  }

  lemma ProgressStep(s: State, a: Action, h: nat)
    requires Enabled(s, a) && h in s.handlers && AnswerOk(s.handlers[h])
    ensures h in Apply(s, a).handlers && AnswerOk(Apply(s, a).handlers[h])
  {
    if CallerStep(a) || ReaderStep(a) {
      HubLeavesHandlers(s, a);
    } else {
      WorkerProgress(s, a, h);
    }
  }

  lemma HubLeavesHandlers(s: State, a: Action)
    requires Enabled(s, a) && (CallerStep(a) || ReaderStep(a))
    ensures Apply(s, a).handlers == s.handlers && |Apply(s, a).conns| == |s.conns|
  {
    hide Enabled, Apply;
    if CallerStep(a) {
      CallerLeavesWorker(s, a);
    } else {
      ReaderLeavesWorker(s, a);
    }
  }

  lemma WorkerProgress(s: State, a: Action, h: nat)
    requires Enabled(s, a) && !CallerStep(a) && !ReaderStep(a)
    requires h in s.handlers && AnswerOk(s.handlers[h])
    ensures h in Apply(s, a).handlers && AnswerOk(Apply(s, a).handlers[h])
  {
    hide CallerEnabled, CallerApply, ReaderEnabled, ReaderApply;
    if HandlerStep(a) {
      hide LinkEnabled, LinkApply;
    } else {
      hide HandlerEnabled, HandlerApply;
    }
  }

  // ---- frames to the worker ----

  lemma PerformedGrows(s: State, s': State, k: nat, id: nat)
    requires Grows(s, s') && k < |s.conns| && id in s.conns[k].performed && PerformedOk(s, k, id)
    ensures id in s'.conns[k].performed && PerformedOk(s', k, id)
  {
    assert ConnGrows(s.conns[k], s'.conns[k]);
    ForCallGrows(s, s', s.conns[k].performed[id], k, id);
  }

  /** A connection whose outgoing queue only lost frames, or gained one in order. */
  lemma OutKept(s: State, s': State, k: nat)
    requires Grows(s, s') && k < |s.conns| && OutOk(s, k) && Requests(s'.conns[k])
    requires forall i :: 0 <= i < |s'.conns[k].toWorker| ==>
               s'.conns[k].toWorker[i] in s.conns[k].toWorker || FrameOk(s', k, s'.conns[k].toWorker[i])
    requires forall id :: id in s'.conns[k].performed ==> id in s.conns[k].performed || PerformedOk(s', k, id)
    ensures OutOk(s', k)
  {
    forall i | 0 <= i < |s'.conns[k].toWorker| ensures FrameOk(s', k, s'.conns[k].toWorker[i]) {
      var f := s'.conns[k].toWorker[i];
      if f in s.conns[k].toWorker {
        FrameGrows(s, s', k, f);
      }
    }
    forall id | id in s'.conns[k].performed ensures PerformedOk(s', k, id) {
      if id in s.conns[k].performed {
        PerformedGrows(s, s', k, id);
      }
    }
  }

  /** The frame a caller puts on its connection, if its step puts one. */
  function Put(s: State, a: Action): seq<Frame>
    requires Enabled(s, a)
  {
    match a
    case Send(c) => [Req(s.calls[c].id, s.calls[c].req)]
    case SendFails(c, out) => if out then [Req(s.calls[c].id, s.calls[c].req)] else []
    case SendCancel(c) => [Cancel(s.calls[c].id)]
    case CancelFails(c, out) => if out then [Cancel(s.calls[c].id)] else []
    case _ => []
  }

  lemma CallerPuts(s: State, a: Action)
    requires Enabled(s, a) && CallerStep(a)
    ensures var s' := Apply(s, a);
            && |s'.conns| == |s.conns|
            && (forall k :: 0 <= k < |s.conns| ==>
                  && s'.conns[k].performed == s.conns[k].performed
                  && s'.conns[k].toHub == s.conns[k].toHub && s'.conns[k].reader == s.conns[k].reader
                  && s'.conns[k].toWorker
                     == s.conns[k].toWorker + if a.c in s.calls && s.calls[a.c].conn == k then Put(s, a) else [])
  {
    hide ReaderEnabled, ReaderApply, WorkerEnabled, WorkerApply;
    if SendingStep(a) {
      hide OpeningEnabled, OpeningApply;
    } else {
      hide SendingEnabled, SendingApply;
    }
    CallerPutsQueue(s, a);
    var s' := Apply(s, a);
    forall k | 0 <= k < |s.conns|
      ensures s'.conns[k].performed == s.conns[k].performed && s'.conns[k].toHub == s.conns[k].toHub
      ensures s'.conns[k].reader == s.conns[k].reader
    {
    }
    hide Apply, Enabled, Put;
  }

  lemma CallerPutsQueue(s: State, a: Action)
    requires Enabled(s, a) && CallerStep(a)
    ensures |Apply(s, a).conns| == |s.conns|
    ensures forall k :: 0 <= k < |s.conns| ==>
              Apply(s, a).conns[k].toWorker
              == s.conns[k].toWorker + if a.c in s.calls && s.calls[a.c].conn == k then Put(s, a) else []
  {
    hide ReaderEnabled, ReaderApply, WorkerEnabled, WorkerApply;
    if SendingStep(a) {
      hide OpeningEnabled, OpeningApply;
    } else {
      hide SendingEnabled, SendingApply;
    }
  }

  /** A call that has not been sent has no frame on its way and no handler. */
  lemma Unsent(s: State, k: nat, c: nat)
    requires k < |s.conns| && OutOk(s, k) && c in s.calls && !Sent(s.calls[c])
    requires s.calls[c].id in s.conns[k].issued && s.conns[k].issued[s.calls[c].id] == c
    ensures s.calls[c].id !in s.conns[k].performed
    ensures forall i :: 0 <= i < |s.conns[k].toWorker| ==> s.conns[k].toWorker[i].id != s.calls[c].id
  {
    forall i | 0 <= i < |s.conns[k].toWorker| ensures s.conns[k].toWorker[i].id != s.calls[c].id {
      assert FrameOk(s, k, s.conns[k].toWorker[i]);
    }
  }

  /** A call that can send has an id of its own. */
  lemma HasId(s: State, a: Action)
    requires CallsOnce.Inv(s) && Enabled(s, a) && CallerStep(a) && Put(s, a) != []
    ensures SendingStep(a) && a.c in s.calls
    ensures var x := s.calls[a.c];
            x.conn < |s.conns| && x.id in s.conns[x.conn].issued && s.conns[x.conn].issued[x.id] == a.c
  {
    hide ReaderEnabled, WorkerEnabled;
    assert CallsOnce.CallOk(s, a.c);
    hide CallsOnce.Inv;
  }

  lemma PutShape(s: State, a: Action)
    requires Enabled(s, a) && SendingStep(a) && Put(s, a) != []
    requires var x := s.calls[a.c]; x.id in s.conns[x.conn].issued && s.conns[x.conn].issued[x.id] == a.c
    ensures |Put(s, a)| == 1 && FrameOk(Apply(s, a), s.calls[a.c].conn, Put(s, a)[0])
    ensures Put(s, a)[0].id == s.calls[a.c].id && (Put(s, a)[0].Req? ==> !Sent(s.calls[a.c]))
  {
    hide ReaderEnabled, ReaderApply, WorkerEnabled, WorkerApply, OpeningEnabled, OpeningApply;
  }

  lemma PutOk(s: State, a: Action)
    requires CallsOnce.Inv(s) && Enabled(s, a) && CallerStep(a) && Put(s, a) != []
    ensures |Put(s, a)| == 1 && FrameOk(Apply(s, a), s.calls[a.c].conn, Put(s, a)[0])
    ensures var x := s.calls[a.c];
            && Put(s, a)[0].id == x.id && (Put(s, a)[0].Req? ==> !Sent(x))
            && x.id in s.conns[x.conn].issued && s.conns[x.conn].issued[x.id] == a.c
  {
    hide CallsOnce.Inv, Apply;
    HasId(s, a);
    PutShape(s, a);
  }

  lemma RequestsPut(x: Conn, y: Conn, f: Frame)
    requires Requests(x) && y.performed == x.performed && y.toWorker == x.toWorker + [f]
    requires f.Req? ==> f.id !in x.performed && forall i :: 0 <= i < |x.toWorker| ==> x.toWorker[i].id != f.id
    ensures Requests(y)
  {
  }

  lemma RequestsOf(s: State, k: nat)
    requires k < |s.conns| && OutOk(s, k)
    ensures Requests(s.conns[k])
  {
  }

  lemma RequestsLess(x: Conn, y: Conn)
    requires Requests(x) && y.performed == x.performed
    requires y.toWorker == x.toWorker || (x.toWorker != [] && y.toWorker == x.toWorker[1..])
    ensures Requests(y) && forall f :: f in y.toWorker ==> f in x.toWorker
  {
  }

  lemma RequestsTaken(x: Conn, y: Conn, h: nat)
    requires Requests(x) && x.toWorker != [] && x.toWorker[0].Req? && y.toWorker == x.toWorker[1..]
    requires y.performed == x.performed[x.toWorker[0].id := h]
    ensures Requests(y) && forall f :: f in y.toWorker ==> f in x.toWorker
  {
  }

  lemma TakeEffect(s: State, h: nat)
    requires Enabled(s, ReadRequest(h))
    ensures var x, s' := s.conns[Cur(s)], Apply(s, ReadRequest(h));
            && x.toWorker != [] && x.toWorker[0].Req? && |s'.conns| == |s.conns|
            && s'.conns[Cur(s)].toWorker == x.toWorker[1..]
            && s'.conns[Cur(s)].performed == x.performed[x.toWorker[0].id := h]
            && h in s'.handlers && s'.handlers[h].conn == Cur(s) && s'.handlers[h].id == x.toWorker[0].id
  {
  }

  lemma OthersQueue(s: State, a: Action, k: nat)
    requires Enabled(s, a) && a.ReadRequest? && k < |s.conns| && k != Cur(s)
    ensures k < |Apply(s, a).conns| && Apply(s, a).conns[k] == s.conns[k]
  {
    hide CallerEnabled, CallerApply, ReaderEnabled, ReaderApply, HandlerEnabled, HandlerApply;
  }

  lemma CallerOut(s: State, a: Action, k: nat)
    requires Ordered(s) && Enabled(s, a) && CallerStep(a) && Grows(s, Apply(s, a)) && k < |s.conns|
    ensures k < |Apply(s, a).conns| && OutOk(Apply(s, a), k)
  {
    hide Ordered, Apply, Enabled, Grows, OutOk, FrameOk, Requests, Put;
    var s' := Apply(s, a);
    OfOrdered(s);
    CallerPuts(s, a);
    RequestsOf(s, k);
    if a.c in s.calls && s.calls[a.c].conn == k && Put(s, a) != [] {
      PutOk(s, a);
      var f := Put(s, a)[0];
      assert Put(s, a) == [f];
      if f.Req? {
        Unsent(s, k, a.c);
      }
      RequestsPut(s.conns[k], s'.conns[k], f);
    } else {
      assert s'.conns[k].toWorker == s.conns[k].toWorker;
      RequestsLess(s.conns[k], s'.conns[k]);
    }
    OutKept(s, s', k);
  }

  lemma RequestTaken(s: State, h: nat)
    requires Ordered(s) && Enabled(s, ReadRequest(h)) && Grows(s, Apply(s, ReadRequest(h)))
    ensures OutOk(Apply(s, ReadRequest(h)), Cur(s))
  {
    hide Ordered, Apply, Grows, OutOk, FrameOk, Requests, ForCall;
    var s', k := Apply(s, ReadRequest(h)), Cur(s);
    OfOrdered(s);
    RequestsOf(s, k);
    StartedOk(s, h);
    TakeEffect(s, h);
    var x, y := s.conns[k], s'.conns[k];
    RequestsTaken(x, y, h);
    forall id | id in y.performed && id !in x.performed ensures PerformedOk(s', k, id) {
      assert id == x.toWorker[0].id;
    }
    OutKept(s, s', k);
  }

  lemma WorkerOut(s: State, a: Action, k: nat)
    requires Ordered(s) && Enabled(s, a) && !CallerStep(a) && !a.ReadRequest? && Grows(s, Apply(s, a))
    requires k < |s.conns|
    ensures k < |Apply(s, a).conns| && OutOk(Apply(s, a), k)
  {
    hide Ordered, Apply, Enabled, Grows, OutOk, FrameOk, Requests;
    OfOrdered(s);
    RequestsOf(s, k);
    WorkerQueues(s, a, k);
    RequestsLess(s.conns[k], Apply(s, a).conns[k]);
    OutKept(s, Apply(s, a), k);
  }

  lemma WorkerQueues(s: State, a: Action, k: nat)
    requires Enabled(s, a) && !CallerStep(a) && !a.ReadRequest? && k < |s.conns|
    ensures k < |Apply(s, a).conns|
    ensures var x, y := s.conns[k], Apply(s, a).conns[k];
            y.performed == x.performed && (y.toWorker == x.toWorker || (x.toWorker != [] && y.toWorker == x.toWorker[1..]))
  {
    hide Enabled, Apply;
    if ReaderStep(a) {
      ReaderQueues(s, a, k);
    } else if HandlerStep(a) {
      HandlerQueues(s, a, k);
    } else {
      LinkQueues(s, a, k);
    }
  }

  lemma ReaderQueues(s: State, a: Action, k: nat)
    requires Enabled(s, a) && ReaderStep(a) && k < |s.conns|
    ensures k < |Apply(s, a).conns|
    ensures var x, y := s.conns[k], Apply(s, a).conns[k]; y.performed == x.performed && y.toWorker == x.toWorker
  {
    hide CallerEnabled, CallerApply, WorkerEnabled, WorkerApply;
  }

  lemma HandlerQueues(s: State, a: Action, k: nat)
    requires Enabled(s, a) && HandlerStep(a) && k < |s.conns|
    ensures k < |Apply(s, a).conns|
    ensures var x, y := s.conns[k], Apply(s, a).conns[k]; y.performed == x.performed && y.toWorker == x.toWorker
  {
    hide CallerEnabled, CallerApply, ReaderEnabled, ReaderApply, LinkEnabled, LinkApply;
  }

  lemma LinkQueues(s: State, a: Action, k: nat)
    requires Enabled(s, a) && (a.Connect? || a.EndSession? || a.ReadCancel?) && k < |s.conns|
    ensures k < |Apply(s, a).conns|
    ensures var x, y := s.conns[k], Apply(s, a).conns[k];
            y.performed == x.performed && (y.toWorker == x.toWorker || (x.toWorker != [] && y.toWorker == x.toWorker[1..]))
  {
    hide CallerEnabled, CallerApply, ReaderEnabled, ReaderApply, HandlerEnabled, HandlerApply;
  }

  lemma OutsKept(s: State, a: Action, k: nat)
    requires Ordered(s) && Enabled(s, a) && Grows(s, Apply(s, a)) && k < |Apply(s, a).conns|
    ensures OutOk(Apply(s, a), k)
  {
    if k >= |s.conns| {
      NewConnOut(s, a, k);
      return;
    }
    hide Ordered, Apply, Grows, OutOk;
    if CallerStep(a) {
      CallerOut(s, a, k);
    } else if a.ReadRequest? && k == Cur(s) {
      RequestTaken(s, a.h);
    } else if a.ReadRequest? {
      OtherOut(s, a, k);
    } else {
      WorkerOut(s, a, k);
    }
  }

  lemma OtherOut(s: State, a: Action, k: nat)
    requires Ordered(s) && Enabled(s, a) && Grows(s, Apply(s, a)) && a.ReadRequest? && k < |s.conns| && k != Cur(s)
    ensures k < |Apply(s, a).conns| && OutOk(Apply(s, a), k)
  {
    hide Ordered, Apply, Enabled, Grows, OutOk, FrameOk, Requests;
    OfOrdered(s);
    RequestsOf(s, k);
    OthersQueue(s, a, k);
    RequestsLess(s.conns[k], Apply(s, a).conns[k]);
    OutKept(s, Apply(s, a), k);
  }

  lemma NewConnOut(s: State, a: Action, k: nat)
    requires Enabled(s, a) && |s.conns| <= k < |Apply(s, a).conns|
    ensures Apply(s, a).conns[k] == NewConn && OutOk(Apply(s, a), k)
  {
    hide Enabled, Apply;
    ConnCount(s, a);
  }

  // ---- runs ----

  /** Every step of any kind keeps the order. */
  lemma StepKeepsOrder(s: State, a: Action)
    requires Ordered(s) && Enabled(s, a)
    ensures Ordered(Apply(s, a))
  {
    var s' := Apply(s, a);
    StepGrows(s, a);
    CallsOnce.StepKeeps(s, a);
    HandlersKept(s, a);
    forall k | 0 <= k < |s'.conns| ensures OutOk(s', k) {
      OutsKept(s, a, k);
    }
  }

  lemma {:induction false} RunKeepsOrder(s: State, acts: seq<Action>)
    requires Ordered(s) && Legal(s, acts)
    ensures Ordered(Final(s, acts))
    decreases |acts|
  {
    hide Ordered, Apply, Enabled;
    if acts != [] {
      StepKeepsOrder(s, acts[0]);
      RunKeepsOrder(Apply(s, acts[0]), acts[1..]);
    }
  }

  lemma AlwaysOrdered(acts: seq<Action>)
    requires Legal(Start, acts)
    ensures Ordered(Final(Start, acts))
  {
    assert Ordered(Start);
    RunKeepsOrder(Start, acts);
  }

  /** In every run no request is performed twice: one handler per connection and id. */
  lemma PerformedOnce(acts: seq<Action>, h: nat, h': nat)
    requires Legal(Start, acts)
    requires var s := Final(Start, acts);
             && h in s.handlers && h' in s.handlers
             && s.handlers[h].conn == s.handlers[h'].conn && s.handlers[h].id == s.handlers[h'].id
    ensures h == h'
  {
    AlwaysOrdered(acts);
    var s := Final(Start, acts);
    assert HandlerOk(s, h) && HandlerOk(s, h');
  }

  /** In every run a cancel that reaches the worker names a request of this connection
      whose caller has given up. */
  lemma CancelNamesAbandoned(acts: seq<Action>)
    requires Legal(Start, acts) && Enabled(Final(Start, acts), ReadCancel)
    ensures NamesAbandoned(Final(Start, acts))
  {
    var s := Final(Start, acts);
    AlwaysOrdered(acts);
    hide Legal, Final;
    assert OutOk(s, Cur(s));
    hide Ordered;
    assert FrameOk(s, Cur(s), s.conns[Cur(s)].toWorker[0]);
  }

  predicate NamesAbandoned(s: State)
    requires Enabled(s, ReadCancel)
  {
    var x := s.conns[Cur(s)];
    var id := x.toWorker[0].id;
    id in x.issued && x.issued[id] in s.calls && s.calls[x.issued[id]].phase.Abandoned?
  }
}
