/** What goes over a connection, in both directions: nothing is made up, changed, repeated or
    reordered on the way, and what was not read yet is still on its way. */
module CallsWire {
  import opened Wrappers
  import opened Calls
  import CallsMatch

  /** What a step of a caller puts on connection `k`. */
  function AskedBy(s: State, a: Action, k: nat): seq<Frame>
    requires Enabled(s, a)
  {
    match a
    case Send(c) => if s.calls[c].conn == k then [Req(s.calls[c].id, s.calls[c].req)] else []
    case SendFails(c, out) => if out && s.calls[c].conn == k then [Req(s.calls[c].id, s.calls[c].req)] else []
    case SendCancel(c) => if s.calls[c].conn == k then [Cancel(s.calls[c].id)] else []
    case CancelFails(c, out) => if out && s.calls[c].conn == k then [Cancel(s.calls[c].id)] else []
    case _ => []
  }

  function Asked(s: State, acts: seq<Action>, k: nat): seq<Frame>
    requires Legal(s, acts)
    decreases |acts|
  {
    if acts == [] then [] else AskedBy(s, acts[0], k) + Asked(Apply(s, acts[0]), acts[1..], k)
  }

  /** What a step of the worker reads from connection `k`: the request that it starts a
      handler for, or a cancel. */
  function HeardBy(s: State, a: Action, k: nat): seq<Frame>
    requires Enabled(s, a)
  {
    match a
    case ReadRequest(h) =>
      if k == |s.conns| - 1 && h in Apply(s, a).handlers
      then [Req(Apply(s, a).handlers[h].id, Apply(s, a).handlers[h].req)] else []
    case ReadCancel => if k == |s.conns| - 1 then [s.conns[k].toWorker[0]] else []
    case _ => []
  }

  function Heard(s: State, acts: seq<Action>, k: nat): seq<Frame>
    requires Legal(s, acts)
    decreases |acts|
  {
    if acts == [] then [] else HeardBy(s, acts[0], k) + Heard(Apply(s, acts[0]), acts[1..], k)
  }

  function Queue(s: State, k: nat): seq<Frame> { if k < |s.conns| then s.conns[k].toWorker else [] }

  lemma QueueStep(s: State, a: Action, k: nat)
    requires Enabled(s, a)
    ensures Queue(s, k) + AskedBy(s, a, k) == HeardBy(s, a, k) + Queue(Apply(s, a), k)
  {
    assert Queue(s, k) + [] == Queue(s, k) && [] + Queue(s, k) == Queue(s, k);
    if CallerStep(a) {
      CallerQueues(s, a, k);
    } else if ReaderStep(a) {
      ReaderQueues(s, a, k);
    } else if HandlerStep(a) {
      HandlerQueues(s, a, k);
    } else {
      LinkQueues(s, a, k);
    }
  }

  lemma CallerQueues(s: State, a: Action, k: nat)
    requires Enabled(s, a) && CallerStep(a)
    ensures HeardBy(s, a, k) == [] && Queue(Apply(s, a), k) == Queue(s, k) + AskedBy(s, a, k)
  {
    hide ReaderEnabled, ReaderApply, WorkerEnabled, WorkerApply;
  }

  lemma ReaderQueues(s: State, a: Action, k: nat)
    requires Enabled(s, a) && ReaderStep(a)
    ensures AskedBy(s, a, k) == [] == HeardBy(s, a, k) && Queue(Apply(s, a), k) == Queue(s, k)
  {
    hide CallerEnabled, CallerApply, WorkerEnabled, WorkerApply;
  }

  lemma HandlerQueues(s: State, a: Action, k: nat)
    requires Enabled(s, a) && HandlerStep(a)
    ensures AskedBy(s, a, k) == [] == HeardBy(s, a, k) && Queue(Apply(s, a), k) == Queue(s, k)
  {
    hide CallerEnabled, CallerApply, ReaderEnabled, ReaderApply, LinkEnabled, LinkApply;
  }

  lemma LinkQueues(s: State, a: Action, k: nat)
    requires Enabled(s, a) && !CallerStep(a) && !ReaderStep(a) && !HandlerStep(a)
    ensures AskedBy(s, a, k) == [] && Queue(s, k) == HeardBy(s, a, k) + Queue(Apply(s, a), k)
  {
    hide CallerEnabled, CallerApply, ReaderEnabled, ReaderApply, HandlerEnabled, HandlerApply;
  }

  /** What the callers sent on a connection is what the worker read from it and then what is
      still on its way, in the same order. */
  lemma {:induction false} RequestsInOrder(s: State, acts: seq<Action>, k: nat)
    requires Legal(s, acts)
    ensures Queue(s, k) + Asked(s, acts, k) == Heard(s, acts, k) + Queue(Final(s, acts), k)
    decreases |acts|
  {
    hide Apply, Enabled, Queue, AskedBy, HeardBy;
    if acts != [] {
      var a := acts[0];
      QueueStep(s, a, k);
      RequestsInOrder(Apply(s, a), acts[1..], k);
      calc {
        Queue(s, k) + Asked(s, acts, k);
        (Queue(s, k) + AskedBy(s, a, k)) + Asked(Apply(s, a), acts[1..], k);
        HeardBy(s, a, k) + (Queue(Apply(s, a), k) + Asked(Apply(s, a), acts[1..], k));
        Heard(s, acts, k) + Queue(Final(s, acts), k);
      }
    }
  }

  // ---- the other way ----

  /** What a step of a handler puts on connection `k`. */
  function RepliedBy(s: State, a: Action, k: nat): seq<Frame>
    requires Enabled(s, a)
  {
    match a
    case Reply(h) => if k == |s.conns| - 1 then [Result(s.handlers[h].id, s.handlers[h].answer.value)] else []
    case ReplyFails(h, out) =>
      if out && k == |s.conns| - 1 then [Result(s.handlers[h].id, s.handlers[h].answer.value)] else []
    case _ => []
  }

  function Replied(s: State, acts: seq<Action>, k: nat): seq<Frame>
    requires Legal(s, acts)
    decreases |acts|
  {
    if acts == [] then [] else RepliedBy(s, acts[0], k) + Replied(Apply(s, acts[0]), acts[1..], k)
  }

  function TakenBy(s: State, a: Action, k: nat): seq<Frame>
    requires Enabled(s, a)
  {
    match a
    case ReadResult(x) => if x == k then [s.conns[k].toHub[0]] else []
    case _ => []
  }

  function Taken(s: State, acts: seq<Action>, k: nat): seq<Frame>
    requires Legal(s, acts)
    decreases |acts|
  {
    if acts == [] then [] else TakenBy(s, acts[0], k) + Taken(Apply(s, acts[0]), acts[1..], k)
  }

  function Back(s: State, k: nat): seq<Frame> { if k < |s.conns| then s.conns[k].toHub else [] }

  lemma BackStep(s: State, a: Action, k: nat)
    requires Enabled(s, a)
    ensures Back(s, k) + RepliedBy(s, a, k) == TakenBy(s, a, k) + Back(Apply(s, a), k)
  {
    assert Back(s, k) + [] == Back(s, k) && [] + Back(s, k) == Back(s, k);
    if CallerStep(a) {
      CallerKeepsBack(s, a, k);
    } else if ReaderStep(a) {
      ReaderTakesBack(s, a, k);
    } else if HandlerStep(a) {
      HandlerAddsBack(s, a, k);
    } else {
      LinkKeepsBack(s, a, k);
    }
  }

  lemma CallerKeepsBack(s: State, a: Action, k: nat)
    requires Enabled(s, a) && CallerStep(a)
    ensures RepliedBy(s, a, k) == [] == TakenBy(s, a, k) && Back(Apply(s, a), k) == Back(s, k)
  {
    hide ReaderEnabled, ReaderApply, WorkerEnabled, WorkerApply;
  }

  lemma ReaderTakesBack(s: State, a: Action, k: nat)
    requires Enabled(s, a) && ReaderStep(a)
    ensures RepliedBy(s, a, k) == [] && Back(s, k) == TakenBy(s, a, k) + Back(Apply(s, a), k)
  {
    hide CallerEnabled, CallerApply, WorkerEnabled, WorkerApply;
  }

  lemma HandlerAddsBack(s: State, a: Action, k: nat)
    requires Enabled(s, a) && HandlerStep(a)
    ensures TakenBy(s, a, k) == [] && Back(Apply(s, a), k) == Back(s, k) + RepliedBy(s, a, k)
  {
    hide CallerEnabled, CallerApply, ReaderEnabled, ReaderApply, LinkEnabled, LinkApply;
  }

  lemma LinkKeepsBack(s: State, a: Action, k: nat)
    requires Enabled(s, a) && !CallerStep(a) && !ReaderStep(a) && !HandlerStep(a)
    ensures RepliedBy(s, a, k) == [] == TakenBy(s, a, k) && Back(Apply(s, a), k) == Back(s, k)
  {
    hide CallerEnabled, CallerApply, ReaderEnabled, ReaderApply, HandlerEnabled, HandlerApply;
  }

  /** What the worker answered over a connection is what the hub read from it and then what is
      still on its way, in the same order. */
  lemma {:induction false} ResultsInOrder(s: State, acts: seq<Action>, k: nat)
    requires Legal(s, acts)
    ensures Back(s, k) + Replied(s, acts, k) == Taken(s, acts, k) + Back(Final(s, acts), k)
    decreases |acts|
  {
    hide Apply, Enabled, Back, RepliedBy, TakenBy;
    if acts != [] {
      var a := acts[0];
      BackStep(s, a, k);
      ResultsInOrder(Apply(s, a), acts[1..], k);
      calc {
        Back(s, k) + Replied(s, acts, k);
        (Back(s, k) + RepliedBy(s, a, k)) + Replied(Apply(s, a), acts[1..], k);
        TakenBy(s, a, k) + (Back(Apply(s, a), k) + Replied(Apply(s, a), acts[1..], k));
        Taken(s, acts, k) + Back(Final(s, acts), k);
      }
    }
  }

  // ---- giving up ----

  /** Before each cancel among the frames comes the request that it cancels. */
  ghost predicate CancelsFollow(frames: seq<Frame>) {
    forall n :: 0 <= n < |frames| && frames[n].Cancel? ==> RequestIn(frames[..n], frames[n].id)
  }

  ghost predicate RequestIn(frames: seq<Frame>, id: nat) { exists f :: f in frames && f.Req? && f.id == id }

  ghost predicate AbandonedTold(s: State, frames: seq<Frame>, k: nat) {
    forall c :: c in s.calls && s.calls[c].conn == k && (s.calls[c].phase.Waiting? || s.calls[c].phase.GivingUp?) ==>
      RequestIn(frames, s.calls[c].id)
  }

  lemma AskStep(s: State, a: Action, k: nat, frames: seq<Frame>)
    requires Enabled(s, a) && CancelsFollow(frames) && AbandonedTold(s, frames, k)
    ensures CancelsFollow(frames + AskedBy(s, a, k)) && AbandonedTold(Apply(s, a), frames + AskedBy(s, a, k), k)
  {
    var more := frames + AskedBy(s, a, k);
    forall id | RequestIn(frames, id) ensures RequestIn(more, id) {
      var f :| f in frames && f.Req? && f.id == id;
      assert f in more;
    }
    Follow(s, a, k, frames);
    forall c | c in Apply(s, a).calls && Apply(s, a).calls[c].conn == k
               && (Apply(s, a).calls[c].phase.Waiting? || Apply(s, a).calls[c].phase.GivingUp?)
      ensures RequestIn(more, Apply(s, a).calls[c].id)
    {
      WaitingWas(s, a, c);
      if a == Send(c) {
        assert more[|frames|] == Req(s.calls[c].id, s.calls[c].req);
        assert more[|frames|] in more;
      }
    }
  }

  lemma Follow(s: State, a: Action, k: nat, frames: seq<Frame>)
    requires Enabled(s, a) && CancelsFollow(frames) && AbandonedTold(s, frames, k)
    ensures CancelsFollow(frames + AskedBy(s, a, k))
  {
    hide Apply, ReaderEnabled, WorkerEnabled, RequestIn;
    var more := frames + AskedBy(s, a, k);
    forall n | 0 <= n < |more| && more[n].Cancel? ensures RequestIn(more[..n], more[n].id) {
      assert if n < |frames| then more[..n] == frames[..n] else n == |frames| && more[..n] == frames;
    }
  }

  /** Only a call whose request was sent waits for its answer, and only such a call gives up. */
  lemma WaitingWas(s: State, a: Action, c: nat)
    requires Enabled(s, a) && c in Apply(s, a).calls
    requires Apply(s, a).calls[c].phase.Waiting? || Apply(s, a).calls[c].phase.GivingUp?
    ensures c in s.calls && s.calls[c].conn == Apply(s, a).calls[c].conn && s.calls[c].id == Apply(s, a).calls[c].id
    ensures a == Send(c) || s.calls[c].phase.Waiting? || s.calls[c].phase.GivingUp?
  {
    if CallerStep(a) {
      CallerWas(s, a, c);
    } else if ReaderStep(a) {
      ReaderWas(s, a);
    } else if HandlerStep(a) {
      HandlerLeavesHub(s, a);
    } else {
      LinkLeavesHub(s, a);
    }
    hide Apply, Enabled;
  }

  lemma CallerWas(s: State, a: Action, c: nat)
    requires Enabled(s, a) && CallerStep(a) && c in Apply(s, a).calls
    requires Apply(s, a).calls[c].phase.Waiting? || Apply(s, a).calls[c].phase.GivingUp?
    ensures c in s.calls && s.calls[c].conn == Apply(s, a).calls[c].conn && s.calls[c].id == Apply(s, a).calls[c].id
    ensures a == Send(c) || s.calls[c].phase.Waiting? || s.calls[c].phase.GivingUp?
  {
    hide ReaderEnabled, ReaderApply, WorkerEnabled, WorkerApply;
    if SendingStep(a) {
      SenderWas(s, a, c);
    } else {
      hide SendingEnabled, SendingApply;
    }
  }

  lemma SenderWas(s: State, a: Action, c: nat)
    requires Enabled(s, a) && SendingStep(a) && c in SendingApply(s, a).calls
    requires SendingApply(s, a).calls[c].phase.Waiting? || SendingApply(s, a).calls[c].phase.GivingUp?
    ensures c in s.calls && s.calls[c].conn == SendingApply(s, a).calls[c].conn && s.calls[c].id == SendingApply(s, a).calls[c].id
    ensures a == Send(c) || s.calls[c].phase.Waiting? || s.calls[c].phase.GivingUp?
  {
    hide ReaderEnabled, WorkerEnabled, OpeningEnabled;
  }

  lemma ReaderWas(s: State, a: Action)
    requires Enabled(s, a) && ReaderStep(a)
    ensures forall c :: c in Apply(s, a).calls ==>
              && c in s.calls && s.calls[c].phase == Apply(s, a).calls[c].phase
              && s.calls[c].conn == Apply(s, a).calls[c].conn && s.calls[c].id == Apply(s, a).calls[c].id
  {
    hide CallerEnabled, CallerApply, WorkerEnabled, WorkerApply;
  }

  lemma {:induction false} AskedOnward(s: State, acts: seq<Action>, k: nat, frames: seq<Frame>)
    requires Legal(s, acts) && CancelsFollow(frames) && AbandonedTold(s, frames, k)
    ensures CancelsFollow(frames + Asked(s, acts, k))
    decreases |acts|
  {
    hide Apply, Enabled, CancelsFollow, AbandonedTold, AskedBy;
    if acts == [] {
      assert frames + [] == frames;
    } else {
      var a := acts[0];
      AskStep(s, a, k, frames);
      AskedOnward(Apply(s, a), acts[1..], k, frames + AskedBy(s, a, k));
      assert frames + AskedBy(s, a, k) + Asked(Apply(s, a), acts[1..], k) == frames + Asked(s, acts, k);
    }
  }

  lemma Nothing(k: nat)
    ensures CancelsFollow([]) && AbandonedTold(Start, [], k) && Queue(Start, k) == []
  {
  }

  /** In every run, the worker reads a cancel only after the request that it cancels. */
  lemma CancelReadAfter(acts: seq<Action>, k: nat)
    requires Legal(Start, acts)
    ensures CancelsFollow(Heard(Start, acts, k))
  {
    hide Apply, Enabled, CancelsFollow, Queue, Legal, Final, Asked, Heard, Start;
    Nothing(k);
    AskedOnward(Start, acts, k, []);
    assert [] + Asked(Start, acts, k) == Asked(Start, acts, k);
    RequestsInOrder(Start, acts, k);
    Prefix(Heard(Start, acts, k), Queue(Final(Start, acts), k));
  }

  lemma Prefix(heard: seq<Frame>, rest: seq<Frame>)
    requires CancelsFollow(heard + rest)
    ensures CancelsFollow(heard)
  {
    hide RequestIn;
    forall n | 0 <= n < |heard| && heard[n].Cancel? ensures RequestIn(heard[..n], heard[n].id) {
      assert heard[..n] == (heard + rest)[..n] && heard[n] == (heard + rest)[n];
    }
  }

  // ---- where answers come from ----

  lemma AnswerWas(s: State, a: Action, h: nat)
    requires Enabled(s, a) && h in Apply(s, a).handlers && Apply(s, a).handlers[h].answer.Some?
    ensures a == Compute(h, Apply(s, a).handlers[h].answer.value)
            || (h in s.handlers && s.handlers[h].answer == Apply(s, a).handlers[h].answer)
  {
    if CallerStep(a) {
      CallerLeavesWorker(s, a);
    } else if ReaderStep(a) {
      ReaderLeavesWorker(s, a);
    } else {
      WorkerAnswerWas(s, a, h);
    }
    hide Apply, Enabled;
  }

  lemma WorkerAnswerWas(s: State, a: Action, h: nat)
    requires Enabled(s, a) && !CallerStep(a) && !ReaderStep(a)
    requires h in Apply(s, a).handlers && Apply(s, a).handlers[h].answer.Some?
    ensures a == Compute(h, Apply(s, a).handlers[h].answer.value)
            || (h in s.handlers && s.handlers[h].answer == Apply(s, a).handlers[h].answer)
  {
    hide CallerEnabled, CallerApply, ReaderEnabled, ReaderApply;
  }

  lemma {:induction false} AnswerComputed(s: State, acts: seq<Action>, h: nat)
    requires Legal(s, acts) && h in Final(s, acts).handlers && Final(s, acts).handlers[h].answer.Some?
    ensures Compute(h, Final(s, acts).handlers[h].answer.value) in acts
            || (h in s.handlers && s.handlers[h].answer == Final(s, acts).handlers[h].answer)
    decreases |acts|
  {
    hide Apply, Enabled;
    if acts != [] {
      AnswerComputed(Apply(s, acts[0]), acts[1..], h);
      if Compute(h, Final(s, acts).handlers[h].answer.value) !in acts[1..] {
        AnswerWas(s, acts[0], h);
      }
    }
  }

  lemma CallWas(s: State, a: Action, c: nat)
    requires Enabled(s, a) && c in Apply(s, a).calls
    ensures var x := Apply(s, a).calls[c];
            a == Begin(c, x.conn, x.req) || (c in s.calls && s.calls[c].conn == x.conn && s.calls[c].req == x.req)
  {
    if CallerStep(a) {
      CallerCallWas(s, a, c);
    } else if ReaderStep(a) {
      ReaderCallWas(s, a, c);
    } else if HandlerStep(a) {
      HandlerLeavesHub(s, a);
    } else {
      LinkLeavesHub(s, a);
    }
    hide Apply, Enabled;
  }

  lemma CallerCallWas(s: State, a: Action, c: nat)
    requires Enabled(s, a) && CallerStep(a) && c in Apply(s, a).calls
    ensures var x := Apply(s, a).calls[c];
            a == Begin(c, x.conn, x.req) || (c in s.calls && s.calls[c].conn == x.conn && s.calls[c].req == x.req)
  {
    hide ReaderEnabled, ReaderApply, WorkerEnabled, WorkerApply;
  }

  lemma ReaderCallWas(s: State, a: Action, c: nat)
    requires Enabled(s, a) && ReaderStep(a) && c in Apply(s, a).calls
    ensures c in s.calls && s.calls[c].conn == Apply(s, a).calls[c].conn && s.calls[c].req == Apply(s, a).calls[c].req
  {
    hide CallerEnabled, CallerApply, WorkerEnabled, WorkerApply;
  }

  lemma {:induction false} CallBegun(s: State, acts: seq<Action>, c: nat)
    requires Legal(s, acts) && c in Final(s, acts).calls
    ensures var x := Final(s, acts).calls[c];
            || Begin(c, x.conn, x.req) in acts
            || (c in s.calls && s.calls[c].conn == x.conn && s.calls[c].req == x.req)
    decreases |acts|
  {
    hide Apply, Enabled;
    if acts != [] {
      var x := Final(s, acts).calls[c];
      CallBegun(Apply(s, acts[0]), acts[1..], c);
      if Begin(c, x.conn, x.req) !in acts[1..] {
        CallWas(s, acts[0], c);
      }
    }
  }

  /** In a run whose reconnects were settled, an answer that a call took is one that the
      worker computed, in that run, for the very request that the call was begun with. */
  lemma AnswerIsComputed(acts: seq<Action>, c: nat) returns (h: nat, k: nat)
    requires Legal(Start, acts) && CallsMatch.Quiet(Start, acts) && c in Final(Start, acts).calls
    requires Final(Start, acts).calls[c].phase.Answered? && Final(Start, acts).calls[c].phase.a != Disconnected
    ensures var s := Final(Start, acts);
            && Compute(h, s.calls[c].phase.a) in acts
            && h in s.handlers && Begin(c, k, s.handlers[h].req) in acts
  {
    hide Apply, Enabled, CallsMatch.Quiet;
    var s := Final(Start, acts);
    CallsMatch.ResultsAreOwn(acts, c);
    h :| h in s.handlers && s.handlers[h].conn == s.calls[c].conn && s.handlers[h].req == s.calls[c].req
         && s.handlers[h].answer == Some(s.calls[c].phase.a);
    k := s.calls[c].conn;
    AnswerComputed(Start, acts, h);
    CallBegun(Start, acts, c);
  }
}
