/** Requests and results between the hub and one worker, over any number of its
    connections.

    Every critical section, every frame sent or read and every channel operation is a
    step of its own, and the steps of callers, of each connection's reader and of the
    worker's handlers interleave freely. A connection is a pair of FIFO queues; a frame
    that is never read is a frame lost. Fields marked as history are read by no step. */
module Calls {
  import opened Wrappers

  datatype Request = Request(agent: string, op: string, payload: string)

  /** What a call is told: the worker's result or error, or, from the hub itself, that the
      worker is gone. */
  datatype Answer = Ok(payload: string) | Failed(message: string) | Disconnected

  datatype Frame = Req(id: nat, r: Request) | Cancel(id: nat) | Result(id: nat, a: Answer)

  /** The goroutine reading a connection at the hub; when the connection ends it removes
      the worker, closes it to new calls and fails whoever is still waiting. */
  datatype Reader =
    | Reading
    | Delivering(call: nat, a: Answer)
    | Dropping
    | Failing(rest: set<nat>)
    | Finished

  datatype Conn = Conn(
    closed: bool,
    nextID: nat,
    pending: map<nat, nat>,     // request id to the call waiting on it
    reader: Reader,
    toWorker: seq<Frame>,
    toHub: seq<Frame>,
    issued: map<nat, nat>,      // history: the call each id was given to
    performed: map<nat, nat>)   // history: the handler started for each id

  datatype Phase =
    | Resolved                  // has a connection
    | Registered                // has an id and a waiter
    | Waiting                   // request sent
    | SendFailed                // about to give its id back
    | GivingUp                  // its context ended; about to tell the worker
    | Answered(a: Answer)
    | Refused                   // the connection was already closed
    | NotSent
    | Abandoned

  /** One call; `inbox` is its waiter channel, of capacity one. */
  datatype Call = Call(
    conn: nat,
    req: Request,
    id: nat,
    phase: Phase,
    inbox: seq<Answer>,
    sends: nat)                 // history: how often the channel was sent to

  datatype Progress = Spawned | Running | Computed | Replied | Gone

  /** One request being handled at the worker. */
  datatype Handler = Handler(
    conn: nat,                  // history: the connection it came from
    id: nat,
    req: Request,
    progress: Progress,
    answer: Option<Answer>,
    cancelled: bool)

  datatype State = State(
    conns: seq<Conn>,           // the last one is the worker's current connection
    inSession: bool,            // the worker is reading it
    calls: map<nat, Call>,
    handlers: map<nat, Handler>,
    inflight: map<nat, nat>)

  const Start := State([], false, map[], map[], map[])

  const NewConn := Conn(false, 0, map[], Reading, [], [], map[], map[])

  // ---- steps ----

  datatype Action =
    // a call
    | Begin(c: nat, k: nat, r: Request)
    | Register(c: nat)
    | Send(c: nat)
    | SendFails(c: nat, out: bool)   // a write that reports an error may still have gone out
    | Forget(c: nat)
    | TakeAnswer(c: nat)
    | GiveUp(c: nat)
    | SendCancel(c: nat)
    | CancelFails(c: nat, out: bool)
    // the reader of connection k
    | ReadResult(k: nat)
    | Deliver(k: nat)
    | ReadFails(k: nat)
    | Close(k: nat)
    | FailOne(k: nat, c: nat)
    | Finish(k: nat)
    // the worker
    | Connect
    | EndSession
    | ReadRequest(h: nat)
    | ReadCancel
    | Enter(h: nat)             // the handler puts itself in the in-flight table
    | Compute(h: nat, a: Answer)
    | Reply(h: nat)
    | ReplyFails(h: nat, out: bool)
    | Leave(h: nat)

  predicate CallIn(s: State, c: nat, phase: Phase) {
    c in s.calls && s.calls[c].phase == phase && s.calls[c].conn < |s.conns|
  }

  predicate HandlerIn(s: State, h: nat, progress: Progress) {
    h in s.handlers && s.handlers[h].progress == progress && s.conns != []
  }

  function Cur(s: State): nat
    requires s.conns != []
  {
    |s.conns| - 1
  }

  /** The connection has left the hub's registry, so its worker id is free again. */
  predicate Dropped(x: Conn) { x.reader.Dropping? || x.reader.Failing? || x.reader.Finished? }

  predicate CanTake(s: State, c: nat) { c in s.calls && s.calls[c].inbox == [] }

  /** Steps of a call; the rest are a reader's at the hub, or the worker's. */
  predicate CallerStep(a: Action) {
    a.Begin? || a.Register? || a.Send? || a.SendFails? || a.Forget? || a.TakeAnswer? || a.GiveUp?
    || a.SendCancel? || a.CancelFails?
  }

  predicate SendingStep(a: Action) { a.Send? || a.SendFails? || a.SendCancel? || a.CancelFails? }

  predicate HandlerStep(a: Action) { a.Enter? || a.Compute? || a.Reply? || a.ReplyFails? || a.Leave? }

  predicate ReaderStep(a: Action) {
    a.ReadResult? || a.Deliver? || a.ReadFails? || a.Close? || a.FailOne? || a.Finish?
  }

  predicate Enabled(s: State, a: Action) {
    if CallerStep(a) then CallerEnabled(s, a)
    else if ReaderStep(a) then ReaderEnabled(s, a)
    else WorkerEnabled(s, a)
  }

  predicate CallerEnabled(s: State, a: Action)
    requires CallerStep(a)
  {
    if SendingStep(a) then SendingEnabled(s, a) else OpeningEnabled(s, a)
  }

  predicate SendingEnabled(s: State, a: Action)
    requires SendingStep(a)
  {
    match a
    case Send(c) => CallIn(s, c, Registered)
    case SendFails(c, _) => CallIn(s, c, Registered)
    case SendCancel(c) => CallIn(s, c, GivingUp)
    case CancelFails(c, _) => CallIn(s, c, GivingUp)
  }

  predicate OpeningEnabled(s: State, a: Action)
    requires CallerStep(a) && !SendingStep(a)
  {
    match a
    case Begin(c, k, _) => c !in s.calls && k < |s.conns|
    case Register(c) => CallIn(s, c, Resolved)
    case Forget(c) => CallIn(s, c, SendFailed)
    case TakeAnswer(c) => CallIn(s, c, Waiting) && s.calls[c].inbox != []
    case GiveUp(c) => CallIn(s, c, Waiting)
  }

  predicate ReaderEnabled(s: State, a: Action)
    requires ReaderStep(a)
  {
    match a
    case ReadResult(k) =>
      k < |s.conns| && s.conns[k].reader.Reading? && s.conns[k].toHub != [] && s.conns[k].toHub[0].Result?
    case Deliver(k) =>
      k < |s.conns| && s.conns[k].reader.Delivering? && CanTake(s, s.conns[k].reader.call)
    case ReadFails(k) => k < |s.conns| && s.conns[k].reader.Reading?
    case Close(k) => k < |s.conns| && s.conns[k].reader.Dropping?
    case FailOne(k, c) =>
      k < |s.conns| && s.conns[k].reader.Failing? && c in s.conns[k].reader.rest && CanTake(s, c)
    case Finish(k) => k < |s.conns| && s.conns[k].reader == Failing({})
  }

  predicate WorkerEnabled(s: State, a: Action)
    requires !CallerStep(a) && !ReaderStep(a)
  {
    if HandlerStep(a) then HandlerEnabled(s, a) else LinkEnabled(s, a)
  }

  predicate HandlerEnabled(s: State, a: Action)
    requires HandlerStep(a)
  {
    match a
    case Enter(h) => HandlerIn(s, h, Spawned)
    case Compute(h, a) => HandlerIn(s, h, Running) && !a.Disconnected?
    case Reply(h) => HandlerIn(s, h, Computed) && s.handlers[h].answer.Some?
    case ReplyFails(h, _) => HandlerIn(s, h, Computed) && s.handlers[h].answer.Some?
    case Leave(h) => HandlerIn(s, h, Replied)
  }

  predicate LinkEnabled(s: State, a: Action)
    requires !CallerStep(a) && !ReaderStep(a) && !HandlerStep(a)
  {
    match a
    case Connect => !s.inSession && (s.conns != [] ==> Dropped(s.conns[|s.conns| - 1]))
    case EndSession => s.inSession
    case ReadRequest(h) =>
      s.inSession && s.conns != [] && h !in s.handlers
      && s.conns[Cur(s)].toWorker != [] && s.conns[Cur(s)].toWorker[0].Req?
    case ReadCancel =>
      s.inSession && s.conns != [] && s.conns[Cur(s)].toWorker != [] && s.conns[Cur(s)].toWorker[0].Cancel?
  }

  function SetConn(s: State, k: nat, x: Conn): State
    requires k < |s.conns|
  {
    s.(conns := s.conns[k := x])
  }

  function SetCall(s: State, c: nat, x: Call): State { s.(calls := s.calls[c := x]) }

  function SetHandler(s: State, h: nat, x: Handler): State { s.(handlers := s.handlers[h := x]) }

  /** A send to a call's waiter channel. */
  function Notify(s: State, c: nat, a: Answer): State
    requires c in s.calls
  {
    SetCall(s, c, s.calls[c].(inbox := s.calls[c].inbox + [a], sends := s.calls[c].sends + 1))
  }

  function Unpend(s: State, c: nat): State
    requires c in s.calls && s.calls[c].conn < |s.conns|
  {
    var k := s.calls[c].conn;
    SetConn(s, k, s.conns[k].(pending := s.conns[k].pending - {s.calls[c].id}))
  }

  function ToWorker(s: State, k: nat, f: Frame): State
    requires k < |s.conns|
  {
    SetConn(s, k, s.conns[k].(toWorker := s.conns[k].toWorker + [f]))
  }

  /** A result goes out on whatever connection is current, not the one its request came on. */
  function SendResult(s: State, h: nat): State
    requires s.conns != [] && h in s.handlers && s.handlers[h].answer.Some?
  {
    var k := Cur(s);
    var x := s.conns[k];
    SetConn(s, k, x.(toHub := x.toHub + [Result(s.handlers[h].id, s.handlers[h].answer.value)]))
  }

  function Apply(s: State, a: Action): State
    requires Enabled(s, a)
  {
    if CallerStep(a) then CallerApply(s, a)
    else if ReaderStep(a) then ReaderApply(s, a)
    else WorkerApply(s, a)
  }

  function CallerApply(s: State, a: Action): State
    requires CallerStep(a) && CallerEnabled(s, a)
  {
    if SendingStep(a) then SendingApply(s, a) else OpeningApply(s, a)
  }

  function SendingApply(s: State, a: Action): State
    requires SendingStep(a) && SendingEnabled(s, a)
  {
    match a
    case Send(c) =>
      SetCall(ToWorker(s, s.calls[c].conn, Req(s.calls[c].id, s.calls[c].req)), c, s.calls[c].(phase := Waiting))
    case SendFails(c, out) =>
      var sent := if out then ToWorker(s, s.calls[c].conn, Req(s.calls[c].id, s.calls[c].req)) else s;
      SetCall(sent, c, s.calls[c].(phase := SendFailed))
    case SendCancel(c) =>
      SetCall(ToWorker(s, s.calls[c].conn, Cancel(s.calls[c].id)), c, s.calls[c].(phase := Abandoned))
    case CancelFails(c, out) =>
      var sent := if out then ToWorker(s, s.calls[c].conn, Cancel(s.calls[c].id)) else s;
      SetCall(sent, c, s.calls[c].(phase := Abandoned))
  }

  function OpeningApply(s: State, a: Action): State
    requires CallerStep(a) && !SendingStep(a) && OpeningEnabled(s, a)
  {
    match a
    case Begin(c, k, r) =>
      SetCall(s, c, Call(k, r, 0, Resolved, [], 0))
    case Register(c) =>
      var k := s.calls[c].conn;
      var x := s.conns[k];
      if x.closed then SetCall(s, c, s.calls[c].(phase := Refused))
      else
        var id := x.nextID + 1;
        SetCall(SetConn(s, k, x.(nextID := id, pending := x.pending[id := c], issued := x.issued[id := c])),
                c, s.calls[c].(id := id, phase := Registered))
    case Forget(c) =>
      SetCall(Unpend(s, c), c, s.calls[c].(phase := NotSent))
    case TakeAnswer(c) =>
      SetCall(s, c, s.calls[c].(phase := Answered(s.calls[c].inbox[0]), inbox := s.calls[c].inbox[1..]))
    case GiveUp(c) =>
      SetCall(Unpend(s, c), c, s.calls[c].(phase := GivingUp))
  }

  function ReaderApply(s: State, a: Action): State
    requires ReaderStep(a) && ReaderEnabled(s, a)
  {
    match a
    case ReadResult(k) =>
      var x := s.conns[k];
      var f := x.toHub[0];
      var read := x.(toHub := x.toHub[1..]);
      SetConn(s, k, if f.id in x.pending
                    then read.(pending := x.pending - {f.id}, reader := Delivering(x.pending[f.id], f.a))
                    else read)
    case Deliver(k) =>
      var x := s.conns[k];
      Notify(SetConn(s, k, x.(reader := Reading)), x.reader.call, x.reader.a)
    case ReadFails(k) =>
      SetConn(s, k, s.conns[k].(reader := Dropping))
    case Close(k) =>
      var x := s.conns[k];
      SetConn(s, k, x.(closed := true, pending := map[], reader := Failing(x.pending.Values)))
    case FailOne(k, c) =>
      var x := s.conns[k];
      Notify(SetConn(s, k, x.(reader := Failing(x.reader.rest - {c}))), c, Disconnected)
    case Finish(k) =>
      SetConn(s, k, s.conns[k].(reader := Finished))
  }

  function WorkerApply(s: State, a: Action): State
    requires !CallerStep(a) && !ReaderStep(a) && WorkerEnabled(s, a)
  {
    if HandlerStep(a) then HandlerApply(s, a) else LinkApply(s, a)
  }

  function HandlerApply(s: State, a: Action): State
    requires HandlerStep(a) && HandlerEnabled(s, a)
  {
    match a
    case Enter(h) =>
      SetHandler(s.(inflight := s.inflight[s.handlers[h].id := h]), h, s.handlers[h].(progress := Running))
    case Compute(h, a) =>
      SetHandler(s, h, s.handlers[h].(progress := Computed, answer := Some(a)))
    case Reply(h) =>
      SetHandler(SendResult(s, h), h, s.handlers[h].(progress := Replied))
    case ReplyFails(h, out) =>
      SetHandler(if out then SendResult(s, h) else s, h, s.handlers[h].(progress := Replied))
    case Leave(h) =>
      SetHandler(s.(inflight := s.inflight - {s.handlers[h].id}), h, s.handlers[h].(progress := Gone))
  }

  function LinkApply(s: State, a: Action): State
    requires !CallerStep(a) && !ReaderStep(a) && !HandlerStep(a) && LinkEnabled(s, a)
  {
    match a
    case Connect =>
      s.(conns := s.conns + [NewConn], inSession := true)
    case EndSession =>
      s.(inSession := false)
    case ReadRequest(h) =>
      var k := Cur(s);
      var x := s.conns[k];
      var f := x.toWorker[0];
      SetHandler(SetConn(s, k, x.(toWorker := x.toWorker[1..], performed := x.performed[f.id := h])),
                 h, Handler(k, f.id, f.r, Spawned, None, false))
    case ReadCancel =>
      var k := Cur(s);
      var x := s.conns[k];
      var id := x.toWorker[0].id;
      var read := SetConn(s, k, x.(toWorker := x.toWorker[1..]));
      if id in s.inflight && s.inflight[id] in s.handlers
      then SetHandler(read.(inflight := s.inflight - {id}), s.inflight[id], s.handlers[s.inflight[id]].(cancelled := true))
      else read
  }

  // ---- what a step leaves alone ----

  /** The worker's state, and how many connections there have been. */
  predicate SameWorker(s: State, s': State) {
    && s'.handlers == s.handlers && s'.inflight == s.inflight && s'.inSession == s.inSession
    && |s'.conns| == |s.conns|
  }

  lemma CallerLeavesWorker(s: State, a: Action)
    requires Enabled(s, a) && CallerStep(a)
    ensures SameWorker(s, Apply(s, a))
  {
    hide ReaderEnabled, ReaderApply, WorkerEnabled, WorkerApply;
  }

  lemma ReaderLeavesWorker(s: State, a: Action)
    requires Enabled(s, a) && ReaderStep(a)
    ensures SameWorker(s, Apply(s, a))
  {
    hide CallerEnabled, CallerApply, WorkerEnabled, WorkerApply;
  }

  lemma HandlerLeavesHub(s: State, a: Action)
    requires Enabled(s, a) && HandlerStep(a)
    ensures Apply(s, a).calls == s.calls && |Apply(s, a).conns| == |s.conns|
  {
    hide CallerEnabled, CallerApply, ReaderEnabled, ReaderApply, LinkEnabled, LinkApply;
  }

  lemma LinkLeavesHub(s: State, a: Action)
    requires Enabled(s, a) && !CallerStep(a) && !ReaderStep(a) && !HandlerStep(a)
    ensures Apply(s, a).calls == s.calls
    ensures if a.Connect? then Apply(s, a).conns == s.conns + [NewConn] else |Apply(s, a).conns| == |s.conns|
  {
    hide CallerEnabled, CallerApply, ReaderEnabled, ReaderApply, HandlerEnabled, HandlerApply;
  }

  /** Only connecting makes a connection. */
  lemma ConnCount(s: State, a: Action)
    requires Enabled(s, a)
    ensures if a.Connect? then Apply(s, a).conns == s.conns + [NewConn] else |Apply(s, a).conns| == |s.conns|
  {
    hide Enabled, Apply;
    if CallerStep(a) {
      CallerLeavesWorker(s, a);
    } else if ReaderStep(a) {
      ReaderLeavesWorker(s, a);
    } else if HandlerStep(a) {
      HandlerLeavesHub(s, a);
    } else {
      LinkLeavesHub(s, a);
    }
  }

  predicate Legal(s: State, acts: seq<Action>)
    decreases |acts|
  {
    acts == [] || (Enabled(s, acts[0]) && Legal(Apply(s, acts[0]), acts[1..]))
  }

  function Final(s: State, acts: seq<Action>): State
    requires Legal(s, acts)
    decreases |acts|
  {
    if acts == [] then s else Final(Apply(s, acts[0]), acts[1..])
  }

  lemma {:induction false} RunOn(s: State, a: seq<Action>, b: seq<Action>)
    requires Legal(s, a) && Legal(Final(s, a), b)
    ensures Legal(s, a + b) && Final(s, a + b) == Final(Final(s, a), b)
    decreases |a|
  {
    hide Apply, Enabled;
    if a == [] {
      assert a + b == b;
    } else {
      assert (a + b)[1..] == a[1..] + b;
      RunOn(Apply(s, a[0]), a[1..], b);
    }
  }

  lemma OneStep(s: State, a: Action)
    requires Enabled(s, a)
    ensures Legal(s, [a]) && Final(s, [a]) == Apply(s, a)
  {
    hide Apply, Enabled;
    assert [a][1..] == [];
  }

  lemma StepOn(s: State, acts: seq<Action>, a: Action)
    requires Legal(s, acts) && Enabled(Final(s, acts), a)
    ensures Legal(s, acts + [a]) && Final(s, acts + [a]) == Apply(Final(s, acts), a)
  {
    hide Apply, Enabled;
    OneStep(Final(s, acts), a);
    RunOn(s, acts, [a]);
  }
}
