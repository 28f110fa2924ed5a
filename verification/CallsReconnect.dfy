/** What happens when the worker reconnects with a handler still to answer. */
module CallsReconnect {
  import opened Wrappers
  import opened Calls
  import opened CallsPerformed
  import opened CallsRuns
  import opened CallsMatch
  import CallsOnce

  lemma {:induction false} NoConnectIsQuiet(s: State, acts: seq<Action>)
    requires Legal(s, acts) && NoConnect(acts)
    ensures Quiet(s, acts)
    decreases |acts|
  {
    hide Apply, Enabled;
    if acts != [] {
      NoConnectIsQuiet(Apply(s, acts[0]), acts[1..]);
    }
  }

  /** Steps that bring a handler with an answer still to give to the point of giving it. */
  lemma BringToAnswer(s: State, h: nat) returns (acts: seq<Action>, a: Answer)
    requires h in s.handlers && Answerable(s.handlers[h]) && AnswerOk(s.handlers[h]) && s.conns != []
    ensures Legal(s, acts) && NoConnect(acts) && !a.Disconnected?
    ensures var s' := Final(s, acts);
            && s'.conns == s.conns && s'.inSession == s.inSession && s'.calls == s.calls
            && s'.handlers.Keys == s.handlers.Keys
            && (forall g :: g in s.handlers && g != h ==> s'.handlers[g] == s.handlers[g])
            && s'.handlers[h] == s.handlers[h].(progress := Computed, answer := Some(a))
  {
    var x := s.handlers[h];
    if x.progress.Computed? {
      acts, a := [], x.answer.value;
    } else if x.progress.Running? {
      acts, a := [Compute(h, Ok(""))], Ok("");
      OneStep(s, Compute(h, Ok("")));
    } else {
      a := Ok("");
      var s1 := Apply(s, Enter(h));
      OneStep(s, Enter(h));
      assert Enabled(s1, Compute(h, a));
      acts := Then(s, [Enter(h)], Compute(h, a));
    }
  }

  /** A call is waiting on connection `k` under id `n`, and one result under that id is in. */
  ghost predicate ResultIn(s: State, k: nat, c: nat, r: Request, n: nat, a: Answer) {
    && k < |s.conns| && k == |s.conns| - 1
    && s.conns[k].reader.Reading? && s.conns[k].toHub == [Result(n, a)]
    && n in s.conns[k].pending && s.conns[k].pending[n] == c
    && c in s.calls && s.calls[c] == Call(k, r, n, Waiting, [], 0)
  }

  /** The request goes out, and a handler holding an answer under the same id replies. */
  lemma SendAndReply(s: State, k: nat, c: nat, h: nat, r: Request, n: nat, a: Answer) returns (acts: seq<Action>)
    requires Open(s, k) && c in s.calls && s.calls[c] == Call(k, r, n, Registered, [], 0)
    requires n in s.conns[k].pending && s.conns[k].pending[n] == c
    requires h in s.handlers && s.handlers[h].id == n && s.handlers[h].progress.Computed? && s.handlers[h].answer == Some(a)
    ensures Legal(s, acts) && NoConnect(acts)
    ensures ResultIn(Final(s, acts), k, c, r, n, a)
    ensures Final(s, acts).handlers == s.handlers[h := s.handlers[h].(progress := Replied)]
  {
    var s1 := Apply(s, Send(c));
    assert Enabled(s1, Reply(h)) && s1.handlers == s.handlers && Open(s1, k);
    assert s1.conns[k].pending == s.conns[k].pending && s1.calls[c] == Call(k, r, n, Waiting, [], 0);
    Replies(s1, h, k, c, r, n, a);
    hide Apply, Enabled;
    OneStep(s, Send(c));
    acts := Then(s, [Send(c)], Reply(h));
  }

  lemma Replies(s: State, h: nat, k: nat, c: nat, r: Request, n: nat, a: Answer)
    requires Enabled(s, Reply(h)) && Open(s, k) && s.handlers[h].id == n && s.handlers[h].answer == Some(a)
    requires n in s.conns[k].pending && s.conns[k].pending[n] == c
    requires c in s.calls && s.calls[c] == Call(k, r, n, Waiting, [], 0)
    ensures ResultIn(Apply(s, Reply(h)), k, c, r, n, a)
    ensures Apply(s, Reply(h)).handlers == s.handlers[h := s.handlers[h].(progress := Replied)]
  {
  }

  /** The result is read, delivered and taken. */
  lemma TakeResult(s: State, k: nat, c: nat, r: Request, n: nat, a: Answer) returns (acts: seq<Action>)
    requires ResultIn(s, k, c, r, n, a)
    ensures Legal(s, acts) && NoConnect(acts)
    ensures var s' := Final(s, acts);
            && s'.handlers == s.handlers
            && c in s'.calls && s'.calls[c] == Call(k, r, n, Answered(a), [], 1)
  {
    var s1 := Apply(s, ReadResult(k));
    assert s1.conns[k].reader == Delivering(c, a) && s1.calls == s.calls && s1.handlers == s.handlers;
    hide Enabled;
    assert Enabled(s, ReadResult(k)) by { ReadEnabled(s, k, c, r, n, a); }
    DeliverAndTake(s1, k, c, r, n, a);
    hide Apply;
    OneStep(s, ReadResult(k));
    var b := Then(s, [ReadResult(k)], Deliver(k));
    acts := Then(s, b, TakeAnswer(c));
  }

  lemma ReadEnabled(s: State, k: nat, c: nat, r: Request, n: nat, a: Answer)
    requires ResultIn(s, k, c, r, n, a)
    ensures Enabled(s, ReadResult(k))
  {
  }

  lemma DeliverAndTake(s: State, k: nat, c: nat, r: Request, n: nat, a: Answer)
    requires k < |s.conns| && s.conns[k].reader == Delivering(c, a)
    requires c in s.calls && s.calls[c] == Call(k, r, n, Waiting, [], 0)
    ensures Enabled(s, Deliver(k)) && Enabled(Apply(s, Deliver(k)), TakeAnswer(c))
    ensures var s' := Apply(Apply(s, Deliver(k)), TakeAnswer(c));
            s'.handlers == s.handlers && c in s'.calls && s'.calls[c] == Call(k, r, n, Answered(a), [], 1)
  {
    var s1 := Apply(s, Deliver(k));
    assert s1.calls[c] == Call(k, r, n, Waiting, [a], 1);
  }

  /** From a registered call with id `n`, a handler holding an answer under the same id
      answers it. */
  lemma AnswerCall(s: State, k: nat, c: nat, h: nat, r: Request, n: nat, a: Answer) returns (acts: seq<Action>)
    requires Open(s, k) && c in s.calls && s.calls[c] == Call(k, r, n, Registered, [], 0)
    requires n in s.conns[k].pending && s.conns[k].pending[n] == c
    requires h in s.handlers && s.handlers[h].id == n && s.handlers[h].progress.Computed? && s.handlers[h].answer == Some(a)
    ensures Legal(s, acts) && NoConnect(acts)
    ensures var s' := Final(s, acts);
            && c in s'.calls && s'.calls[c] == Call(k, r, n, Answered(a), [], 1)
            && s'.handlers == s.handlers[h := s.handlers[h].(progress := Replied)]
  {
    hide Apply, Enabled, ResultIn;
    var a1 := SendAndReply(s, k, c, h, r, n, a);
    var a2 := TakeResult(Final(s, a1), k, c, r, n, a);
    RunOn(s, a1, a2);
    acts := a1 + a2;
  }

  /** If the worker reconnects while a handler has yet to answer, some later call,
      whatever it asks for, is given that handler's answer. */
  lemma StaleAnswer(s: State, h: nat, r: Request) returns (acts: seq<Action>, c: nat, a: Answer)
    requires Inv(s) && Enabled(s, Connect) && h in s.handlers && Answerable(s.handlers[h])
    ensures var s1 := Apply(s, Connect);
            && Legal(s1, acts) && NoConnect(acts)
            && var s' := Final(s1, acts);
            && c in s'.calls && s'.calls[c].req == r && s'.calls[c].phase == Answered(a) && !a.Disconnected?
            && s'.calls[c].id == s.handlers[h].id
            && !Correlated(s', c)
  {
    hide Inv, Ordered, Apply, Enabled, Legal, Final, Correlated;
    InvOrdered(s);
    var n := s.handlers[h].id;
    var k := |s.conns|;
    var s1 := Apply(s, Connect);
    OldHandlers(s, h);
    var a1, ans := BringToAnswer(s1, h);
    a := ans;
    var s2 := Final(s1, a1);
    var c0 := Above(s2.calls.Keys);
    var a2 := IssueMany(s2, k, c0, n, r);
    c := c0 + n - 1;
    var s3 := Final(s2, a2);
    var a3 := AnswerCall(s3, k, c, h, r, n, a);
    RunOn(s1, a1, a2);
    RunOn(s1, a1 + a2, a3);
    acts := a1 + a2 + a3;
    NotCorrelated(Final(s1, acts), c, k, a);
  }

  /** Every handler of the past belongs to an earlier connection than the new one. */
  lemma OldHandlers(s: State, h: nat)
    requires Ordered(s) && Enabled(s, Connect) && h in s.handlers
    ensures s.handlers[h].id > 0 && AnswerOk(s.handlers[h])
    ensures forall g :: g in s.handlers ==> s.handlers[g].conn < |s.conns|
    ensures var s1 := Apply(s, Connect);
            && Open(s1, |s.conns|) && s1.conns[|s.conns|].nextID == 0
            && s1.handlers == s.handlers && s1.conns != []
  {
    assert HandlerOk(s, h);
    assert CallsOnce.ConnOk(s, s.handlers[h].conn);
    forall g | g in s.handlers ensures s.handlers[g].conn < |s.conns| {
      assert HandlerOk(s, g);
    }
    hide Ordered;
  }

  lemma NotCorrelated(s: State, c: nat, k: nat, a: Answer)
    requires c in s.calls && s.calls[c].conn == k && s.calls[c].phase == Answered(a) && !a.Disconnected?
    requires forall g :: g in s.handlers ==> s.handlers[g].conn < k
    ensures !Correlated(s, c)
  {
  }

  /** Every answer taken is the call's own. */
  ghost predicate AllCorrelated(s: State) { forall c :: c in s.calls ==> Correlated(s, c) }

  /** Exactly when a reconnect is safe. After a run whose reconnects were all settled,
      reconnecting keeps every later answer the call's own, whatever happens next, if and
      only if no handler still has an answer to give. */
  lemma ReconnectExactly(before: seq<Action>)
    requires Legal(Start, before) && Quiet(Start, before) && Enabled(Final(Start, before), Connect)
    ensures var s := Final(Start, before);
            Settled(s) <==>
            forall acts :: Legal(Apply(s, Connect), acts) && Quiet(Apply(s, Connect), acts)
                           ==> AllCorrelated(Final(Apply(s, Connect), acts))
  {
    hide Apply, Enabled, Inv, Correlated;
    var s := Final(Start, before);
    Reachable(before);
    if Settled(s) {
      StepKeeps(s, Connect);
      forall acts | Legal(Apply(s, Connect), acts) && Quiet(Apply(s, Connect), acts)
        ensures AllCorrelated(Final(Apply(s, Connect), acts))
      {
        RunKeeps(Apply(s, Connect), acts);
        forall c | c in Final(Apply(s, Connect), acts).calls ensures Correlated(Final(Apply(s, Connect), acts), c) {
          OwnResult(Final(Apply(s, Connect), acts), c);
        }
      }
    } else {
      var h :| h in s.handlers && Answerable(s.handlers[h]);
      var acts, c, _ := StaleAnswer(s, h, Request("", "", ""));
      NoConnectIsQuiet(Apply(s, Connect), acts);
    }
  }
}
