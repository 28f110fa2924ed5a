/** A successful call holds the result of its own request.

    Handlers outlive the connection their request came on and answer on the current
    one, where request ids start again from one. So this holds as long as no handler
    still has an answer to give when the worker reconnects. */
module CallsMatch {
  import opened Wrappers
  import opened Calls
  import CallsOnce
  import opened CallsPerformed

  /** No handler has an answer left to give. */
  predicate Settled(s: State) { forall h :: h in s.handlers ==> !Answerable(s.handlers[h]) }

  /** The worker computed `a` for exactly the request that connection `k` issued as `id`. */
  ghost predicate Matched(s: State, k: nat, id: nat, a: Answer) {
    k < |s.conns| && id in s.conns[k].performed &&
    var h := s.conns[k].performed[id];
    && h in s.handlers && s.handlers[h].answer == Some(a)
    && ForCall(s, h, k, id)
  }

  ghost predicate InOk(s: State, k: nat)
    requires k < |s.conns|
  {
    var x := s.conns[k];
    && (forall i :: 0 <= i < |x.toHub| ==> x.toHub[i].Result? && Matched(s, k, x.toHub[i].id, x.toHub[i].a))
    && (x.reader.Delivering? ==> x.reader.call in s.calls
                                 && Matched(s, k, s.calls[x.reader.call].id, x.reader.a))
  }

  /** What a call has been told is its own result, or that the worker went away. */
  ghost predicate ToldOk(s: State, c: nat) {
    c in s.calls &&
    var x := s.calls[c];
    && (forall i :: 0 <= i < |x.inbox| ==> x.inbox[i] == Disconnected || Matched(s, x.conn, x.id, x.inbox[i]))
    && (x.phase.Answered? ==> x.phase.a == Disconnected || Matched(s, x.conn, x.id, x.phase.a))
  }

  /** A handler with an answer still to give is for the current connection. */
  predicate Current(s: State, h: nat)
    requires h in s.handlers
  {
    Answerable(s.handlers[h]) ==> s.handlers[h].conn == |s.conns| - 1
  }

  ghost predicate Inv(s: State) {
    && Ordered(s)
    && (forall h :: h in s.handlers ==> Current(s, h))
    && (forall k :: 0 <= k < |s.conns| ==> InOk(s, k))
    && (forall c :: c in s.calls ==> ToldOk(s, c))
  }

  // ---- handlers ----

  lemma CurrentKept(s: State, a: Action, h: nat)
    requires Ordered(s) && Enabled(s, a) && h in Apply(s, a).handlers
    requires forall g :: g in s.handlers ==> Current(s, g)
    requires a.Connect? ==> Settled(s)
    ensures Current(Apply(s, a), h)
  {
    if CallerStep(a) || ReaderStep(a) {
      HubLeavesHandlers(s, a);
    } else if h in s.handlers {
      AnswersFewer(s, a, h);
    }
  }

  /** A step other than a new request leaves no handler with more to answer. */
  lemma AnswersFewer(s: State, a: Action, h: nat)
    requires Enabled(s, a) && !CallerStep(a) && !ReaderStep(a) && h in s.handlers
    requires a.Connect? ==> Settled(s)
    ensures h in Apply(s, a).handlers
    ensures var y := Apply(s, a).handlers[h];
            && y.conn == s.handlers[h].conn
            && (Answerable(y) ==> Answerable(s.handlers[h]) && |Apply(s, a).conns| == |s.conns|)
  {
    hide CallerEnabled, CallerApply, ReaderEnabled, ReaderApply;
    if HandlerStep(a) {
      hide LinkEnabled, LinkApply;
    } else {
      hide HandlerEnabled, HandlerApply;
    }
  }

  // ---- frames to the hub, and what callers are told ----

  lemma MatchedGrows(s: State, s': State, k: nat, id: nat, a: Answer)
    requires Grows(s, s') && Matched(s, k, id, a)
    ensures Matched(s', k, id, a)
  {
    var h := s.conns[k].performed[id];
    ForCallGrows(s, s', h, k, id);
    assert ConnGrows(s.conns[k], s'.conns[k]);
    assert HandlerGrows(s.handlers[h], s'.handlers[h]);
  }

  lemma NewConnIn(s: State, a: Action, k: nat)
    requires Enabled(s, a) && |s.conns| <= k < |Apply(s, a).conns|
    ensures InOk(Apply(s, a), k)
  {
    NewConnOut(s, a, k);
    hide Apply, Enabled;
  }

  lemma InKept(s: State, s': State, k: nat)
    requires Grows(s, s') && k < |s.conns| && InOk(s, k)
    requires forall i :: 0 <= i < |s'.conns[k].toHub| ==>
               var f := s'.conns[k].toHub[i]; f in s.conns[k].toHub || (f.Result? && Matched(s', k, f.id, f.a))
    requires var r := s'.conns[k].reader;
             r.Delivering? ==> r == s.conns[k].reader
                               || (r.call in s'.calls && Matched(s', k, s'.calls[r.call].id, r.a))
    requires var r := s.conns[k].reader; r.Delivering? && r.call in s.calls ==> s.calls[r.call].id > 0
    ensures InOk(s', k)
  {
    forall i | 0 <= i < |s'.conns[k].toHub|
      ensures var f := s'.conns[k].toHub[i]; f.Result? && Matched(s', k, f.id, f.a)
    {
      var f := s'.conns[k].toHub[i];
      if f in s.conns[k].toHub {
        MatchedGrows(s, s', k, f.id, f.a);
      }
    }
    var r := s'.conns[k].reader;
    if r.Delivering? && r == s.conns[k].reader {
      assert CallGrows(s.calls[r.call], s'.calls[r.call]);
      MatchedGrows(s, s', k, s.calls[r.call].id, r.a);
    }
  }

  lemma HeldHasId(s: State, k: nat)
    requires CallsOnce.Inv(s) && k < |s.conns|
    ensures var r := s.conns[k].reader; r.Delivering? ==> r.call in s.calls && s.calls[r.call].id > 0
    ensures forall i :: i in s.conns[k].pending ==>
              s.conns[k].pending[i] in s.calls && s.calls[s.conns[k].pending[i]].id == i
  {
    assert CallsOnce.ConnOk(s, k);
  }

  lemma ReadIn(s: State, a: Action)
    requires Inv(s) && Enabled(s, a) && a.ReadResult? && Grows(s, Apply(s, a))
    ensures InOk(Apply(s, a), a.k)
  {
    hide Inv, Apply, Grows, Matched;
    var s' := Apply(s, a);
    var k := a.k;
    InOf(s, k);
    HeldHasId(s, k);
    ReadTakes(s, k);
    hide Enabled;
    var f := s.conns[k].toHub[0];
    assert Matched(s, k, f.id, f.a);
    MatchedGrows(s, s', k, f.id, f.a);
    InKept(s, s', k);
  }

  lemma ReadTakes(s: State, k: nat)
    requires Enabled(s, ReadResult(k))
    ensures var s' := Apply(s, ReadResult(k));
            var x, y, f := s.conns[k], s'.conns[k], s.conns[k].toHub[0];
            && s'.calls == s.calls && |s'.conns| == |s.conns| && y.toHub == x.toHub[1..]
            && (y.reader.Delivering? ==> f.id in x.pending && y.reader == Delivering(x.pending[f.id], f.a))
  {
    hide CallerEnabled, CallerApply, WorkerEnabled, WorkerApply;
  }

  lemma ReplyIn(s: State, a: Action)
    requires Inv(s) && Enabled(s, a) && (a.Reply? || a.ReplyFails?) && Grows(s, Apply(s, a))
    ensures |Apply(s, a).conns| == |s.conns| && InOk(Apply(s, a), Cur(s))
  {
    hide Inv, Apply, Grows, Matched;
    var k := Cur(s);
    AnswerMatched(s, a.h);
    InOf(s, k);
    HeldHasId(s, k);
    ReplyPuts(s, a);
    hide Enabled;
    var h := s.handlers[a.h];
    MatchedGrows(s, Apply(s, a), k, h.id, h.answer.value);
    InKept(s, Apply(s, a), k);
  }

  lemma InvOrdered(s: State)
    requires Inv(s)
    ensures Ordered(s)
  {
  }

  lemma InOf(s: State, k: nat)
    requires Inv(s) && k < |s.conns|
    ensures InOk(s, k) && CallsOnce.Inv(s)
  {
  }

  /** A handler with an answer to give performs a request of the current connection. */
  lemma AnswerMatched(s: State, h: nat)
    requires Inv(s) && h in s.handlers && s.handlers[h].progress.Computed? && s.conns != []
    ensures s.handlers[h].answer.Some? && Matched(s, Cur(s), s.handlers[h].id, s.handlers[h].answer.value)
  {
    assert HandlerOk(s, h) && Current(s, h);
    hide Inv;
  }

  lemma ReplyPuts(s: State, a: Action)
    requires Enabled(s, a) && (a.Reply? || a.ReplyFails?)
    ensures var s' := Apply(s, a);
            var x, y, h := s.conns[Cur(s)], s'.conns[Cur(s)], s.handlers[a.h];
            && |s'.conns| == |s.conns| && s'.calls == s.calls && y.reader == x.reader
            && (y.toHub == x.toHub || y.toHub == x.toHub + [Result(h.id, h.answer.value)])
  {
    hide CallerEnabled, CallerApply, ReaderEnabled, ReaderApply;
  }

  lemma InsKept(s: State, a: Action, k: nat)
    requires Inv(s) && Enabled(s, a) && Grows(s, Apply(s, a)) && k < |Apply(s, a).conns|
    ensures InOk(Apply(s, a), k)
  {
    if k >= |s.conns| {
      NewConnIn(s, a, k);
      return;
    }
    hide Inv, Apply, Grows, InOk;
    if a.ReadResult? && a.k == k {
      ReadIn(s, a);
    } else if (a.Reply? || a.ReplyFails?) && k == Cur(s) {
      ReplyIn(s, a);
    } else {
      QuietIn(s, a, k);
    }
  }

  lemma QuietIn(s: State, a: Action, k: nat)
    requires Inv(s) && Enabled(s, a) && Grows(s, Apply(s, a)) && k < |s.conns|
    requires !(a.ReadResult? && a.k == k) && !((a.Reply? || a.ReplyFails?) && k == Cur(s))
    ensures k < |Apply(s, a).conns| && InOk(Apply(s, a), k)
  {
    var s' := Apply(s, a);
    assert InOk(s, k);
    HeldHasId(s, k);
    QuietQueues(s, a, k);
    hide Inv, Apply, Enabled, Grows, Matched;
    InKept(s, s', k);
  }

  lemma QuietQueues(s: State, a: Action, k: nat)
    requires Enabled(s, a) && k < |s.conns|
    requires !(a.ReadResult? && a.k == k) && !((a.Reply? || a.ReplyFails?) && k == Cur(s))
    ensures k < |Apply(s, a).conns|
    ensures var x, y := s.conns[k], Apply(s, a).conns[k];
            y.toHub == x.toHub && (y.reader.Delivering? ==> y.reader == x.reader)
  {
    if CallerStep(a) {
      CallerPuts(s, a);
    }
  }

  /** What a step adds to a call's inbox. */
  function Told(s: State, a: Action, c: nat): seq<Answer>
    requires Enabled(s, a)
  {
    match a
    case Deliver(k) => if s.conns[k].reader.call == c then [s.conns[k].reader.a] else []
    case FailOne(_, d) => if d == c then [Disconnected] else []
    case _ => []
  }

  /** The call begins, is told something, takes what it was told, or is left alone. */
  predicate ToldBy(s: State, s': State, c: nat, told: seq<Answer>)
    requires c in s'.calls
  {
    var y := s'.calls[c];
    if c !in s.calls then y.inbox == [] && !y.phase.Answered?
    else
      var x := s.calls[c];
      && (y.phase.Answered? ==> y.phase == x.phase || (x.inbox != [] && y.phase.a == x.inbox[0]))
      && (y.inbox == x.inbox + told || (x.inbox != [] && y.inbox == x.inbox[1..]))
  }

  lemma ToldStep(s: State, a: Action, c: nat)
    requires Enabled(s, a) && c in Apply(s, a).calls
    ensures ToldBy(s, Apply(s, a), c, Told(s, a, c))
  {
    if CallerStep(a) {
      CallerTold(s, a, c);
    } else {
      OtherTold(s, a, c);
    }
  }

  lemma CallerTold(s: State, a: Action, c: nat)
    requires Enabled(s, a) && CallerStep(a) && c in Apply(s, a).calls
    ensures ToldBy(s, Apply(s, a), c, Told(s, a, c))
  {
    hide ReaderEnabled, ReaderApply, WorkerEnabled, WorkerApply;
    if SendingStep(a) {
      hide OpeningEnabled, OpeningApply;
    } else {
      hide SendingEnabled, SendingApply;
    }
    assert c in s.calls ==> s.calls[c].inbox + [] == s.calls[c].inbox;
  }

  lemma OtherTold(s: State, a: Action, c: nat)
    requires Enabled(s, a) && !CallerStep(a) && c in Apply(s, a).calls
    ensures ToldBy(s, Apply(s, a), c, Told(s, a, c))
  {
    if ReaderStep(a) {
      hide CallerEnabled, CallerApply, WorkerEnabled, WorkerApply;
    } else {
      hide CallerEnabled, CallerApply, ReaderEnabled, ReaderApply;
    }
    assert c in s.calls ==> s.calls[c].inbox + [] == s.calls[c].inbox;
  }

  lemma ToldInOrder(s: State, k: nat)
    requires Inv(s) && k < |s.conns| && s.conns[k].reader.Delivering?
    ensures var r := s.conns[k].reader;
            r.call in s.calls && s.calls[r.call].conn == k && Matched(s, k, s.calls[r.call].id, r.a)
  {
    InOf(s, k);
    hide Inv, Matched;
    assert CallsOnce.ConnOk(s, k);
  }

  /** What a call is told by a step is its own result, or the loss of the worker. */
  lemma ToldIsOwn(s: State, a: Action, c: nat)
    requires Inv(s) && Enabled(s, a) && c in s.calls && Told(s, a, c) != []
    ensures |Told(s, a, c)| == 1
    ensures Told(s, a, c)[0] == Disconnected || Matched(s, s.calls[c].conn, s.calls[c].id, Told(s, a, c)[0])
  {
    hide Apply, Matched;
    if a.Deliver? {
      hide Enabled;
      ToldInOrder(s, a.k);
    }
  }

  lemma ToldFrame(s: State, s': State, c: nat, told: seq<Answer>)
    requires Grows(s, s') && c in s.calls && ToldOk(s, c)
    requires s.calls[c].id == 0 ==> s.calls[c].inbox == [] && told == [] && !s.calls[c].phase.Answered?
    requires forall i :: 0 <= i < |told| ==>
               told[i] == Disconnected || Matched(s, s.calls[c].conn, s.calls[c].id, told[i])
    requires var x, y := s.calls[c], s'.calls[c];
             && (y.phase.Answered? ==> y.phase == x.phase || (x.inbox != [] && y.phase.a == x.inbox[0]))
             && (y.inbox == x.inbox + told || (x.inbox != [] && y.inbox == x.inbox[1..]))
    ensures ToldOk(s', c)
  {
    var x, y := s.calls[c], s'.calls[c];
    assert CallGrows(x, y);
    forall m | m in x.inbox + told || (x.phase.Answered? && x.phase.a == m)
      ensures m == Disconnected || Matched(s', y.conn, y.id, m)
    {
      if m != Disconnected {
        MatchedGrows(s, s', x.conn, x.id, m);
      }
    }
  }

  lemma ToldKept(s: State, a: Action, c: nat)
    requires Inv(s) && Enabled(s, a) && Grows(s, Apply(s, a)) && c in Apply(s, a).calls
    ensures ToldOk(Apply(s, a), c)
  {
    ToldStep(s, a, c);
    if c in s.calls {
      assert ToldOk(s, c);
      NoIdNothingTold(s, a, c);
      hide CallsOnce.Inv, Apply, Enabled, Grows, Matched, Told, ToldOk;
      if Told(s, a, c) != [] {
        ToldIsOwn(s, a, c);
      }
      hide Inv;
      ToldFrame(s, Apply(s, a), c, Told(s, a, c));
    }
  }

  lemma NoIdNothingTold(s: State, a: Action, c: nat)
    requires CallsOnce.Inv(s) && Enabled(s, a) && c in s.calls
    ensures s.calls[c].id == 0 ==> s.calls[c].inbox == [] && Told(s, a, c) == [] && !s.calls[c].phase.Answered?
  {
    assert CallsOnce.CallOk(s, c);
    if a.Deliver? || a.FailOne? {
      assert CallsOnce.ConnOk(s, a.k);
    }
  }

  /** Every step keeps the invariant, provided the worker reconnects only when settled. */
  lemma StepKeeps(s: State, a: Action)
    requires Inv(s) && Enabled(s, a) && (a.Connect? ==> Settled(s))
    ensures Inv(Apply(s, a))
  {
    var s' := Apply(s, a);
    StepGrows(s, a);
    StepKeepsOrder(s, a);
    forall h | h in s'.handlers ensures Current(s', h) {
      CurrentKept(s, a, h);
    }
    hide Ordered, Current;
    forall k | 0 <= k < |s'.conns| ensures InOk(s', k) {
      InsKept(s, a, k);
    }
    forall c | c in s'.calls ensures ToldOk(s', c) {
      ToldKept(s, a, c);
    }
  }

  // ---- main results ----

  /** Every reconnect in the run finds the worker settled. */
  ghost predicate Quiet(s: State, acts: seq<Action>)
    requires Legal(s, acts)
    decreases |acts|
  {
    acts == [] || ((acts[0].Connect? ==> Settled(s)) && Quiet(Apply(s, acts[0]), acts[1..]))
  }

  lemma {:induction false} RunKeeps(s: State, acts: seq<Action>)
    requires Inv(s) && Legal(s, acts) && Quiet(s, acts)
    ensures Inv(Final(s, acts))
    decreases |acts|
  {
    hide Inv, Apply, Enabled, Settled;
    if acts != [] {
      StepKeeps(s, acts[0]);
      RunKeeps(Apply(s, acts[0]), acts[1..]);
    }
  }

  lemma Reachable(acts: seq<Action>)
    requires Legal(Start, acts) && Quiet(Start, acts)
    ensures Inv(Final(Start, acts))
  {
    assert Inv(Start);
    RunKeeps(Start, acts);
  }

  /** A call that has taken an answer holds what the worker computed for exactly that
      call's agent, operation and payload, or learned that the worker is gone. */
  ghost predicate Correlated(s: State, c: nat)
    requires c in s.calls
  {
    var x := s.calls[c];
    x.phase.Answered? && x.phase.a != Disconnected ==>
      exists h :: h in s.handlers && s.handlers[h].conn == x.conn && s.handlers[h].id == x.id
                  && s.handlers[h].req == x.req && s.handlers[h].answer == Some(x.phase.a)
  }

  lemma ResultsAreOwn(acts: seq<Action>, c: nat)
    requires Legal(Start, acts) && Quiet(Start, acts) && c in Final(Start, acts).calls
    ensures Correlated(Final(Start, acts), c)
  {
    Reachable(acts);
    OwnResult(Final(Start, acts), c);
  }

  lemma OwnResult(s: State, c: nat)
    requires Inv(s) && c in s.calls
    ensures Correlated(s, c)
  {
    assert ToldOk(s, c) && CallsOnce.CallOk(s, c);
    var x := s.calls[c];
    if x.phase.Answered? && x.phase.a != Disconnected {
      var h := s.conns[x.conn].performed[x.id];
      assert s.handlers[h].answer == Some(x.phase.a);
    }
  }

  /** Over a single connection there is nothing to assume. */
  lemma OneConnectionIsQuiet(acts: seq<Action>)
    requires Legal(Start, acts) && |Final(Start, acts).conns| <= 1
    ensures Quiet(Start, acts)
  {
    QuietUntilTwo(Start, acts);
  }

  lemma {:induction false} QuietUntilTwo(s: State, acts: seq<Action>)
    requires Legal(s, acts) && |Final(s, acts).conns| <= 1 && (s.conns == [] ==> s.handlers == map[])
    ensures Quiet(s, acts)
    decreases |acts|
  {
    if acts != [] {
      var s' := Apply(s, acts[0]);
      FirstConn(s, acts[0]);
      hide Apply, Enabled;
      ConnsStay(s', acts[1..]);
      QuietUntilTwo(s', acts[1..]);
    }
  }

  lemma FirstConn(s: State, a: Action)
    requires Enabled(s, a) && (s.conns == [] ==> s.handlers == map[])
    ensures Apply(s, a).conns == [] ==> Apply(s, a).handlers == map[]
    ensures |Apply(s, a).conns| == |s.conns| + if a.Connect? then 1 else 0
  {
    hide Enabled, Apply;
    ConnCount(s, a);
    if CallerStep(a) || ReaderStep(a) {
      HubLeavesHandlers(s, a);
    } else if s.conns == [] && !a.Connect? {
      NothingToDo(s, a);
    }
  }

  lemma NothingToDo(s: State, a: Action)
    requires Enabled(s, a) && s.conns == [] && !CallerStep(a) && !ReaderStep(a) && !a.Connect?
    ensures Apply(s, a).handlers == s.handlers
  {
    hide CallerEnabled, CallerApply, ReaderEnabled, ReaderApply;
  }

  lemma {:induction false} ConnsStay(s: State, acts: seq<Action>)
    requires Legal(s, acts)
    ensures |s.conns| <= |Final(s, acts).conns|
    decreases |acts|
  {
    if acts != [] {
      hide Apply, Enabled;
      ConnCount(s, acts[0]);
      ConnsStay(Apply(s, acts[0]), acts[1..]);
    }
  }
}
