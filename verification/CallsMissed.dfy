/** What happens to cancels when the worker reconnects with a handler still in its
    in-flight table.

    A handler takes its request's id out of the table as it leaves, whoever entered under
    that id since; and after a reconnect ids start again. */
module CallsMissed {
  import opened Wrappers
  import opened Calls
  import opened CallsPerformed
  import opened CallsRuns
  import opened CallsCancel
  import CallsMatch
  import CallsReconnect

  /** Steps that bring a handler to the point of leaving, with nothing sent. */
  lemma BringToLeave(s: State, h: nat) returns (acts: seq<Action>)
    requires h in s.handlers && !s.handlers[h].progress.Gone? && AnswerOk(s.handlers[h]) && s.conns != []
    ensures Legal(s, acts) && NoConnect(acts)
    ensures var s' := Final(s, acts);
            && s'.conns == s.conns && s'.inSession == s.inSession && s'.calls == s.calls
            && s'.handlers.Keys == s.handlers.Keys
            && s'.handlers[h].progress.Replied? && s'.handlers[h].id == s.handlers[h].id
  {
    if s.handlers[h].progress.Replied? {
      acts := [];
    } else {
      var a1, a := CallsReconnect.BringToAnswer(s, h);
      var s1 := Final(s, a1);
      assert Enabled(s1, ReplyFails(h, false));
      acts := Then(s, a1, ReplyFails(h, false));
    }
  }

  /** A call is registered as `n` on the idle connection `k`, and a handler about to leave
      has the same id. */
  ghost predicate Ready(s: State, k: nat, c: nat, h: nat, g: nat, r: Request, n: nat) {
    && s.inSession && k < |s.conns| && k == |s.conns| - 1 && s.conns[k].toWorker == []
    && c in s.calls && s.calls[c] == Call(k, r, n, Registered, [], 0)
    && h in s.handlers && s.handlers[h].id == n && s.handlers[h].progress.Replied?
    && g !in s.handlers
  }

  /** The call waits, and its own handler has entered the table. */
  ghost predicate Entered(s: State, k: nat, c: nat, h: nat, g: nat, r: Request, n: nat) {
    && s.inSession && k < |s.conns| && k == |s.conns| - 1 && s.conns[k].toWorker == []
    && c in s.calls && s.calls[c] == Call(k, r, n, Waiting, [], 0)
    && h in s.handlers && s.handlers[h].id == n && s.handlers[h].progress.Replied? && h != g
    && g in s.handlers && s.handlers[g] == Handler(k, n, r, Running, None, false)
  }

  lemma SendAndEnter(s: State, k: nat, c: nat, h: nat, g: nat, r: Request, n: nat) returns (acts: seq<Action>)
    requires Ready(s, k, c, h, g, r, n)
    ensures Legal(s, acts) && NoConnect(acts) && Entered(Final(s, acts), k, c, h, g, r, n)
  {
    var s1 := Apply(s, Send(c));
    assert s1.conns[k].toWorker == [Req(n, r)] && |s1.conns| == |s.conns| && s1.handlers == s.handlers;
    hide Apply, Enabled;
    OneStep(s, Send(c));
    ReadAndEnter(s1, k, c, h, g, r, n);
    var a2 := Then(s, [Send(c)], ReadRequest(g));
    acts := Then(s, a2, Enter(g));
  }

  lemma ReadAndEnter(s: State, k: nat, c: nat, h: nat, g: nat, r: Request, n: nat)
    requires s.inSession && k < |s.conns| && k == |s.conns| - 1 && s.conns[k].toWorker == [Req(n, r)]
    requires c in s.calls && s.calls[c] == Call(k, r, n, Waiting, [], 0)
    requires h in s.handlers && s.handlers[h].id == n && s.handlers[h].progress.Replied? && g !in s.handlers
    ensures Enabled(s, ReadRequest(g)) && Enabled(Apply(s, ReadRequest(g)), Enter(g))
    ensures Entered(Apply(Apply(s, ReadRequest(g)), Enter(g)), k, c, h, g, r, n)
  {
    var s1 := Apply(s, ReadRequest(g));
    assert s1.conns[k].toWorker == [] && s1.handlers[g] == Handler(k, n, r, Spawned, None, false);
  }

  /** The old handler leaves, taking the new one's entry with it, and a cancel is sent. */
  lemma LeaveAndCancel(s: State, k: nat, c: nat, h: nat, g: nat, r: Request, n: nat) returns (acts: seq<Action>)
    requires Entered(s, k, c, h, g, r, n)
    ensures Legal(s, acts) && NoConnect(acts) && Missing(Final(s, acts), k, g, r, n)
  {
    var s1 := Apply(s, Leave(h));
    assert n !in s1.inflight && s1.conns == s.conns && s1.calls == s.calls && s1.inSession == s.inSession;
    hide Apply, Enabled;
    OneStep(s, Leave(h));
    GiveUpAndCancel(s1, k, c, g, r, n);
    var a2 := Then(s, [Leave(h)], GiveUp(c));
    acts := Then(s, a2, SendCancel(c));
  }

  /** A cancel is about to be read for a handler that is running but not in the table. */
  ghost predicate Missing(s: State, k: nat, g: nat, r: Request, n: nat) {
    && s.inSession && k < |s.conns| && k == |s.conns| - 1 && s.conns[k].toWorker == [Cancel(n)]
    && n !in s.inflight && g in s.handlers && s.handlers[g] == Handler(k, n, r, Running, None, false)
  }

  lemma GiveUpAndCancel(s: State, k: nat, c: nat, g: nat, r: Request, n: nat)
    requires s.inSession && k < |s.conns| && k == |s.conns| - 1 && s.conns[k].toWorker == [] && n !in s.inflight
    requires c in s.calls && s.calls[c] == Call(k, r, n, Waiting, [], 0)
    requires g in s.handlers && s.handlers[g] == Handler(k, n, r, Running, None, false)
    ensures Enabled(s, GiveUp(c)) && Enabled(Apply(s, GiveUp(c)), SendCancel(c))
    ensures Missing(Apply(Apply(s, GiveUp(c)), SendCancel(c)), k, g, r, n)
  {
  }

  lemma NotStopped(s: State, k: nat, g: nat, r: Request, n: nat)
    requires Missing(s, k, g, r, n)
    ensures Enabled(s, ReadCancel) && !StopsExactly(s)
  {
  }

  /** If the worker reconnects while a handler has yet to leave, some later cancel misses
      the handler it names although that handler has entered the table. */
  lemma CancelMissed(s: State, h: nat, r: Request) returns (acts: seq<Action>)
    requires Ordered(s) && Enabled(s, Connect) && h in s.handlers && !s.handlers[h].progress.Gone?
    ensures var s1 := Apply(s, Connect);
            && Legal(s1, acts) && NoConnect(acts)
            && Enabled(Final(s1, acts), ReadCancel) && !StopsExactly(Final(s1, acts))
  {
    hide Ordered, Apply, Enabled, Legal, Final, StopsExactly;
    var s1 := Apply(s, Connect);
    var n, k := s.handlers[h].id, |s.conns|;
    CallsReconnect.OldHandlers(s, h);
    Reconnected(s);
    var a1 := BringToLeave(s1, h);
    var s2 := Final(s1, a1);
    var c0 := Above(s2.calls.Keys);
    var a2 := IssueMany(s2, k, c0, n, r);
    var s3 := Final(s2, a2);
    var g := Above(s3.handlers.Keys);
    var c := c0 + n - 1;
    var a3 := SendAndEnter(s3, k, c, h, g, r, n);
    var s4 := Final(s3, a3);
    var a4 := LeaveAndCancel(s4, k, c, h, g, r, n);
    NotStopped(Final(s4, a4), k, g, r, n);
    RunOn(s1, a1, a2);
    RunOn(s1, a1 + a2, a3);
    RunOn(s1, a1 + a2 + a3, a4);
    acts := a1 + a2 + a3 + a4;
  }

  lemma Reconnected(s: State)
    requires Enabled(s, Connect)
    ensures var s1 := Apply(s, Connect);
            s1.inSession && s1.conns == s.conns + [NewConn] && s1.handlers == s.handlers
  {
  }

  lemma {:induction false} NoConnectIsIdle(s: State, acts: seq<Action>)
    requires Legal(s, acts) && NoConnect(acts)
    ensures Idle(s, acts)
    decreases |acts|
  {
    hide Apply, Enabled;
    if acts != [] {
      NoConnectIsIdle(Apply(s, acts[0]), acts[1..]);
    }
  }

  /** Exactly when a reconnect leaves cancels working. After a run whose reconnects all found
      earlier handlers gone, reconnecting keeps every later cancel stopping exactly what it
      names, whatever happens next, if and only if every handler is gone. */
  lemma CancelsExactly(before: seq<Action>)
    requires Legal(Start, before) && Idle(Start, before) && Enabled(Final(Start, before), Connect)
    ensures var s := Final(Start, before);
            AllGone(s) <==>
            forall acts :: Legal(Apply(s, Connect), acts) && Idle(Apply(s, Connect), acts)
                           && Enabled(Final(Apply(s, Connect), acts), ReadCancel)
                           ==> StopsExactly(Final(Apply(s, Connect), acts))
  {
    hide Apply, Enabled, Ordered, TableOk, StopsExactly;
    var s := Final(Start, before);
    IdleKeeps(before);
    if AllGone(s) {
      DistinctIds(s);
      TableStep(s, Connect);
      StepKeepsOrder(s, Connect);
      forall acts | Legal(Apply(s, Connect), acts) && Idle(Apply(s, Connect), acts)
                    && Enabled(Final(Apply(s, Connect), acts), ReadCancel)
        ensures StopsExactly(Final(Apply(s, Connect), acts))
      {
        RunKeeps(Apply(s, Connect), acts);
        CancelHits(Final(Apply(s, Connect), acts));
      }
    } else {
      var h :| h in s.handlers && !s.handlers[h].progress.Gone?;
      var acts := CancelMissed(s, h, Request("", "", ""));
      NoConnectIsIdle(Apply(s, Connect), acts);
    }
  }

  // ---- such runs exist ----

  /** A run in which a handler outlives its connection: with its answer still to give, or,
      if `answered`, with only its entry in the table left to take out. */
  lemma Outlived(r: Request, answered: bool) returns (acts: seq<Action>)
    ensures Legal(Start, acts) && CallsMatch.Quiet(Start, acts) && Idle(Start, acts)
    ensures var s := Final(Start, acts);
            && Enabled(s, Connect) && s.handlers.Keys == {0}
            && s.handlers[0].progress == if answered then Replied else Spawned
  {
    hide CallsMatch.Quiet, Idle;
    var sent := RequestSent(r);
    var s0 := Final(Start, sent);
    var s1 := Apply(s0, ReadRequest(0));
    StepOn(Start, sent, ReadRequest(0));
    var a1 := sent + [ReadRequest(0)];
    assert s1.handlers == map[0 := Handler(0, 1, r, Spawned, None, false)];
    assert s1.inSession && |s1.conns| == 1 && s1.conns[0].reader.Reading?;
    var more := [];
    assert Legal(s1, []) && Final(s1, []) == s1;
    if answered {
      more := BringToLeave(s1, 0);
    }
    RunOn(Start, a1, more);
    var s2 := Final(s1, more);
    assert s2.handlers.Keys == {0};
    hide Legal, Final;
    Dropping(s2);
    StepOn(Start, a1 + more, ReadFails(0));
    StepOn(Start, a1 + more + [ReadFails(0)], EndSession);
    acts := a1 + more + [ReadFails(0)] + [EndSession];
    CallsMatch.OneConnectionIsQuiet(acts);
    FirstConnectIsIdle(Start, acts);
  }

  lemma Dropping(s: State)
    requires s.inSession && |s.conns| == 1 && s.conns[0].reader.Reading?
    ensures Enabled(s, ReadFails(0)) && Enabled(Apply(s, ReadFails(0)), EndSession)
    ensures var s' := Apply(Apply(s, ReadFails(0)), EndSession);
            Enabled(s', Connect) && s'.handlers == s.handlers && |s'.conns| == 1
  {
  }

  lemma {:induction false} FirstConnectIsIdle(s: State, acts: seq<Action>)
    requires Legal(s, acts) && |Final(s, acts).conns| <= 1 && (s.conns == [] ==> s.handlers == map[])
    ensures Idle(s, acts)
    decreases |acts|
  {
    if acts != [] {
      CallsMatch.FirstConn(s, acts[0]);
      hide Apply, Enabled;
      CallsMatch.ConnsStay(Apply(s, acts[0]), acts[1..]);
      FirstConnectIsIdle(Apply(s, acts[0]), acts[1..]);
    }
  }

  /** From the very start: a call accepts the answer to a request of the connection before. */
  lemma AnswerMixedUp(r: Request, r': Request) returns (acts: seq<Action>, c: nat)
    ensures Legal(Start, acts) && c in Final(Start, acts).calls && Final(Start, acts).calls[c].req == r'
    ensures !CallsMatch.Correlated(Final(Start, acts), c)
  {
    hide Apply, Enabled, CallsMatch.Inv, CallsMatch.Correlated;
    var before := Outlived(r, false);
    CallsMatch.Reachable(before);
    var s := Final(Start, before);
    var more, c', _ := CallsReconnect.StaleAnswer(s, 0, r');
    StepOn(Start, before, Connect);
    RunOn(Start, before + [Connect], more);
    acts, c := before + [Connect] + more, c';
  }

  /** From the very start, with every reconnect settled: a cancel misses the running handler
      it names. */
  lemma SettledMissesCancel(r: Request, r': Request) returns (acts: seq<Action>)
    ensures Legal(Start, acts) && CallsMatch.Quiet(Start, acts)
    ensures Enabled(Final(Start, acts), ReadCancel) && !StopsExactly(Final(Start, acts))
  {
    hide Apply, Enabled, Ordered, StopsExactly;
    var before := Outlived(r, true);
    AlwaysOrdered(before);
    var s := Final(Start, before);
    var more := CancelMissed(s, 0, r');
    StepOn(Start, before, Connect);
    RunOn(Start, before + [Connect], more);
    CallsReconnect.NoConnectIsQuiet(Apply(s, Connect), more);
    QuietOn(Start, before, Connect);
    QuietThen(Start, before + [Connect], more);
    acts := before + [Connect] + more;
  }

  lemma {:induction false} QuietOn(s: State, acts: seq<Action>, a: Action)
    requires Legal(s, acts) && CallsMatch.Quiet(s, acts) && Enabled(Final(s, acts), a)
    requires a.Connect? ==> CallsMatch.Settled(Final(s, acts))
    ensures Legal(s, acts + [a]) && CallsMatch.Quiet(s, acts + [a])
  {
    hide Apply, Enabled;
    StepOn(s, acts, a);
    OneStep(Final(s, acts), a);
    assert [a][1..] == [];
    QuietThen(s, acts, [a]);
  }

  lemma {:induction false} QuietThen(s: State, a: seq<Action>, b: seq<Action>)
    requires Legal(s, a) && CallsMatch.Quiet(s, a) && Legal(Final(s, a), b) && CallsMatch.Quiet(Final(s, a), b)
    ensures Legal(s, a + b) && CallsMatch.Quiet(s, a + b)
    decreases |a|
  {
    hide Apply, Enabled, CallsMatch.Settled;
    RunOn(s, a, b);
    if a == [] {
      assert a + b == b;
    } else {
      assert (a + b)[1..] == a[1..] + b;
      QuietThen(Apply(s, a[0]), a[1..], b);
    }
  }
}
