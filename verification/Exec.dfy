/** Commands running side by side in one sandbox: who publishes what, in which order.

    Each command has one goroutine that announces it, waits for its two pumps and
    reports its end; operators stop commands from goroutines of their own. Every
    action below is one step of one of them, and steps interleave freely. */
module Exec {
  import opened Utf8
  import opened Chunks
  import opened CappedOutput
  import opened Events
  import opened Pumping

  // ---- state ----

  /** A stream being pumped: what the reads returned, and what the pump did with it. */
  datatype Pumper = Pumper(got: seq<Bytes>, st: PumpState, done: bool)

  /** How far the command's own goroutine has come. */
  datatype Phase = Tracked | Pumping | Reported | Gone

  datatype Cmd = Cmd(phase: Phase, out: Pumper, err: Pumper)

  /** A published event, with the commands registered as running at that moment. */
  datatype Entry = Entry(event: Event, running: set<string>)

  datatype World = World(
    limit: int,
    cmds: map<string, Cmd>,
    running: set<string>,
    killers: map<nat, set<string>>,
    log: seq<Entry>)

  const NewPumper := Pumper([], Fresh, false)

  predicate Initial(w: World) {
    w.cmds == map[] && w.running == {} && w.killers == map[] && w.log == []
  }

  /** How a command ended: out of its time, which is told as text, stopped, or by itself. */
  datatype Outcome = TimedOut(time: Bytes) | Stopped | Exited(code: int)

  datatype Action =
    | Track(id: string)                                  // started, and registered as running
    | Announce(id: string, line: Bytes, workDir: Bytes)  // publishes its start
    | ReadOut(id: string, got: Bytes)
    | ReadErr(id: string, got: Bytes)
    | EofOut(id: string)
    | EofErr(id: string)
    | Report(id: string, outcome: Outcome)               // both pumps done: publishes its end
    | Untrack(id: string)
    | Snapshot(killer: nat)                              // an operator's stop lists what is running
    | Kill(killer: nat, id: string, actor: string, reason: Bytes)

  // ---- steps ----

  predicate InPhase(w: World, id: string, phase: Phase) {
    id in w.cmds && w.cmds[id].phase == phase
  }

  predicate Enabled(w: World, a: Action) {
    match a
    case Track(id) => id !in w.cmds
    case Announce(id, _, _) => InPhase(w, id, Tracked)
    case ReadOut(id, _) => InPhase(w, id, Pumping) && !w.cmds[id].out.done
    case ReadErr(id, _) => InPhase(w, id, Pumping) && !w.cmds[id].err.done
    case EofOut(id) => InPhase(w, id, Pumping) && !w.cmds[id].out.done
    case EofErr(id) => InPhase(w, id, Pumping) && !w.cmds[id].err.done
    case Report(id, _) => InPhase(w, id, Pumping) && w.cmds[id].out.done && w.cmds[id].err.done
    case Untrack(id) => InPhase(w, id, Reported)
    case Snapshot(k) => k !in w.killers
    case Kill(k, id, _, _) => k in w.killers && id in w.killers[k]
  }

  function StartedEvent(id: string, line: Bytes, workDir: Bytes): Event {
    Blank.(kind := Started, execId := id, command := line, workDir := workDir)
  }

  function EndReason(outcome: Outcome): Bytes {
    match outcome
    case TimedOut(time) => Ascii("timed out after ") + time
    case Stopped => Ascii("stopped before completion")
    case Exited(_) => []
  }

  function FinishedEvent(id: string, outcome: Outcome, truncated: bool): Event {
    var code := if outcome.Exited? then outcome.code else -1;
    Blank.(kind := Finished, execId := id, exitCode := code, truncated := truncated, reason := EndReason(outcome))
  }

  function KilledEvent(id: string, actor: string, reason: Bytes): Event {
    Blank.(kind := Killed, execId := id, byActor := actor, reason := reason)
  }

  /** The chunks the pump publishes between two of its states. */
  function NewChunks(before: PumpState, after: PumpState): seq<Bytes> {
    if |before.chunks| <= |after.chunks| then after.chunks[|before.chunks|..] else []
  }

  function Feed(p: Pumper, got: Bytes): Pumper { Pumper(p.got + [got], OnRead(p.st, got), p.done) }

  function Close(p: Pumper): Pumper { Pumper(p.got, OnEof(p.st), true) }

  function Publish(w: World, es: seq<Event>): World {
    w.(log := w.log + seq(|es|, i requires 0 <= i < |es| => Entry(es[i], w.running)))
  }

  function SetCmd(w: World, id: string, c: Cmd): World { w.(cmds := w.cmds[id := c]) }

  predicate OverLimit(limit: int, c: Cmd) {
    SetsTruncated(limit, NonEmpty(c.out.got)) || SetsTruncated(limit, NonEmpty(c.err.got))
  }

  function Apply(w: World, a: Action): World
    requires Enabled(w, a)
  {
    match a
    case Track(id) =>
      SetCmd(w, id, Cmd(Tracked, NewPumper, NewPumper)).(running := w.running + {id})
    case Announce(id, line, workDir) =>
      SetCmd(Publish(w, [StartedEvent(id, line, workDir)]), id, w.cmds[id].(phase := Pumping))
    case ReadOut(id, got) =>
      var c := w.cmds[id];
      var p := Feed(c.out, got);
      SetCmd(Publish(w, ChunkEvents(Stdout, id, NewChunks(c.out.st, p.st))), id, c.(out := p))
    case ReadErr(id, got) =>
      var c := w.cmds[id];
      var p := Feed(c.err, got);
      SetCmd(Publish(w, ChunkEvents(Stderr, id, NewChunks(c.err.st, p.st))), id, c.(err := p))
    case EofOut(id) =>
      var c := w.cmds[id];
      var p := Close(c.out);
      SetCmd(Publish(w, ChunkEvents(Stdout, id, NewChunks(c.out.st, p.st))), id, c.(out := p))
    case EofErr(id) =>
      var c := w.cmds[id];
      var p := Close(c.err);
      SetCmd(Publish(w, ChunkEvents(Stderr, id, NewChunks(c.err.st, p.st))), id, c.(err := p))
    case Report(id, outcome) =>
      var c := w.cmds[id];
      SetCmd(Publish(w, [FinishedEvent(id, outcome, OverLimit(w.limit, c))]), id, c.(phase := Reported))
    case Untrack(id) =>
      SetCmd(w, id, w.cmds[id].(phase := Gone)).(running := w.running - {id})
    case Snapshot(k) =>
      w.(killers := w.killers[k := w.running])
    case Kill(k, id, actor, reason) =>
      Publish(w, [KilledEvent(id, actor, reason)]).(killers := w.killers[k := w.killers[k] - {id}])
  }

  ghost predicate IsRun(ws: seq<World>, acts: seq<Action>) {
    && |ws| == |acts| + 1
    && Initial(ws[0])
    && forall i :: 0 <= i < |acts| ==> Enabled(ws[i], acts[i]) && ws[i + 1] == Apply(ws[i], acts[i])
  }

  // ---- one command's share of the log ----

  predicate Mine(e: Event, id: string) { e.execId == id && e.kind != Killed }

  /** The events of command `id`, leaving out the notices that it was stopped. */
  function Own(log: seq<Entry>, id: string): seq<Event> {
    if log == [] then []
    else
      var last := log[|log| - 1].event;
      Own(log[..|log| - 1], id) + if Mine(last, id) then [last] else []
  }

  /** The data of the events of one kind. */
  function DataOf(es: seq<Event>, kind: Kind): seq<Bytes> {
    if es == [] then []
    else
      var last := es[|es| - 1];
      DataOf(es[..|es| - 1], kind) + if last.kind == kind then [last.data] else []
  }

  predicate AllOutput(es: seq<Event>) { forall e :: e in es ==> IsOutput(e) }

  ghost predicate PumperOk(p: Pumper) {
    p.st == if p.done then OnEof(AfterReads(p.got)) else AfterReads(p.got)
  }

  /** One start, then output chunks, then, once reported, one end; the chunks are
      those the two pumps published. */
  ghost predicate CmdOk(limit: int, c: Cmd, own: seq<Event>) {
    && PumperOk(c.out) && PumperOk(c.err)
    && (c.phase == Tracked ==> own == [] && c.out == NewPumper && c.err == NewPumper)
    && (c.phase == Pumping ==> Opened(own) && Carries(c, own[1..]))
    && (c.phase == Reported || c.phase == Gone ==>
          && c.out.done && c.err.done
          && Closed(own) && Carries(c, own[1..|own| - 1])
          && own[|own| - 1].truncated == OverLimit(limit, c))
  }

  ghost predicate Opened(own: seq<Event>) {
    own != [] && own[0].kind == Started
  }

  ghost predicate Closed(own: seq<Event>) {
    |own| >= 2 && own[0].kind == Started && own[|own| - 1].kind == Finished
  }

  ghost predicate Carries(c: Cmd, mid: seq<Event>) {
    && AllOutput(mid)
    && DataOf(mid, Stdout) == c.out.st.chunks
    && DataOf(mid, Stderr) == c.err.st.chunks
  }

  ghost predicate LogOk(log: seq<Entry>) {
    forall i :: 0 <= i < |log| && log[i].event.kind != Killed ==> log[i].event.execId in log[i].running
  }

  ghost predicate Inv(w: World) {
    && (forall id :: id in w.cmds ==> CmdOk(w.limit, w.cmds[id], Own(w.log, id)))
    && (forall id :: id !in w.cmds ==> Own(w.log, id) == [])
    && (forall id :: id in w.running <==> id in w.cmds && w.cmds[id].phase != Gone)
    && LogOk(w.log)
  }

  // ---- proofs ----

  lemma {:induction false} OwnAppend(log: seq<Entry>, more: seq<Entry>, id: string)
    ensures Own(log + more, id) == Own(log, id) + Own(more, id)
  {
    if more == [] {
      assert log + more == log;
    } else {
      var init := more[..|more| - 1];
      assert (log + more)[..|log + more| - 1] == log + init;
      OwnAppend(log, init, id);
    }
  }

  lemma {:induction false} DataAppend(es: seq<Event>, more: seq<Event>, kind: Kind)
    ensures DataOf(es + more, kind) == DataOf(es, kind) + DataOf(more, kind)
  {
    if more == [] {
      assert es + more == es;
    } else {
      var init := more[..|more| - 1];
      assert (es + more)[..|es + more| - 1] == es + init;
      DataAppend(es, init, kind);
    }
  }

  /** Publishing a command's own events adds them to its share and to no other. */
  lemma {:induction false} OwnOfPublished(w: World, es: seq<Event>, who: string, id: string)
    requires forall e :: e in es ==> Mine(e, who)
    ensures Own(Publish(w, es).log, id) == Own(w.log, id) + if id == who then es else []
    decreases |es|
  {
    var entries := Publish(w, es).log[|w.log|..];
    assert Publish(w, es).log == w.log + entries;
    OwnAppend(w.log, entries, id);
    OwnOfEntries(entries, es, who, id);
  }

  lemma {:induction false} OwnOfEntries(entries: seq<Entry>, es: seq<Event>, who: string, id: string)
    requires |entries| == |es| && forall i :: 0 <= i < |es| ==> entries[i].event == es[i] && Mine(es[i], who)
    ensures Own(entries, id) == if id == who then es else []
  {
    if es != [] {
      var n := |es| - 1;
      OwnOfEntries(entries[..n], es[..n], who, id);
      assert es == es[..n] + [es[n]];
    }
  }

  lemma {:induction false} DataOfChunks(kind: Kind, id: string, chunks: seq<Bytes>, k: Kind)
    ensures DataOf(ChunkEvents(kind, id, chunks), k) == if k == kind then chunks else []
  {
    if chunks != [] {
      var n := |chunks| - 1;
      assert ChunkEvents(kind, id, chunks)[..n] == ChunkEvents(kind, id, chunks[..n]);
      DataOfChunks(kind, id, chunks[..n], k);
      assert chunks == chunks[..n] + [chunks[n]];
    }
  }

  lemma EmitsGrow(before: PumpState, after: PumpState)
    requires (exists got :: after == OnRead(before, got)) || after == OnEof(before)
    ensures before.chunks + NewChunks(before, after) == after.chunks
  {
  }

  /** A pump's step keeps the command's share in order and carries its new chunks. */
  lemma PumpStepOk(limit: int, c: Cmd, c': Cmd, own: seq<Event>, id: string, kind: Kind, chunks: seq<Bytes>)
    requires c.phase == Pumping && CmdOk(limit, c, own)
    requires kind == Stdout || kind == Stderr
    requires c'.phase == Pumping && PumperOk(c'.out) && PumperOk(c'.err)
    requires c'.out.st.chunks == c.out.st.chunks + if kind == Stdout then chunks else []
    requires c'.err.st.chunks == c.err.st.chunks + if kind == Stderr then chunks else []
    ensures CmdOk(limit, c', own + ChunkEvents(kind, id, chunks))
  {
    hide AfterReads, OnEof, DataOf;
    var more := ChunkEvents(kind, id, chunks);
    assert (own + more)[1..] == own[1..] + more;
    DataAppend(own[1..], more, Stdout);
    DataAppend(own[1..], more, Stderr);
    DataOfChunks(kind, id, chunks, Stdout);
    DataOfChunks(kind, id, chunks, Stderr);
  }

  lemma FeedOk(p: Pumper, got: Bytes)
    requires PumperOk(p) && !p.done
    ensures PumperOk(Feed(p, got)) && PumperOk(Close(p))
    ensures Feed(p, got).st.chunks == p.st.chunks + NewChunks(p.st, Feed(p, got).st)
    ensures Close(p).st.chunks == p.st.chunks + NewChunks(p.st, Close(p).st)
  {
    assert (p.got + [got])[..|p.got|] == p.got;
    EmitsGrow(p.st, OnRead(p.st, got));
    EmitsGrow(p.st, OnEof(p.st));
  }

  lemma LogStepOk(w: World, es: seq<Event>)
    requires LogOk(w.log)
    requires forall e :: e in es ==> e.kind == Killed || e.execId in w.running
    ensures LogOk(Publish(w, es).log)
  {
  }

  /** A registered command publishing events of its own keeps the invariant. */
  lemma OwnStep(w: World, who: string, es: seq<Event>, c': Cmd)
    requires Inv(w) && who in w.cmds && who in w.running
    requires forall e :: e in es ==> Mine(e, who)
    requires CmdOk(w.limit, c', Own(w.log, who) + es) && c'.phase != Gone
    ensures Inv(SetCmd(Publish(w, es), who, c'))
  {
    hide CmdOk, Own;
    var w' := SetCmd(Publish(w, es), who, c');
    forall id ensures Own(w'.log, id) == Own(w.log, id) + if id == who then es else [] {
      OwnOfPublished(w, es, who, id);
    }
    forall id ensures id != who ==> Own(w'.log, id) == Own(w.log, id) {
      assert Own(w.log, id) + [] == Own(w.log, id);
    }
    LogStepOk(w, es);
  }

  lemma PumpOk(w: World, id: string, kind: Kind, c': Cmd, chunks: seq<Bytes>)
    requires Inv(w) && InPhase(w, id, Pumping)
    requires kind == Stdout || kind == Stderr
    requires var c := w.cmds[id];
             && c'.phase == Pumping && PumperOk(c'.out) && PumperOk(c'.err)
             && c'.out.st.chunks == c.out.st.chunks + (if kind == Stdout then chunks else [])
             && c'.err.st.chunks == c.err.st.chunks + (if kind == Stderr then chunks else [])
    ensures Inv(SetCmd(Publish(w, ChunkEvents(kind, id, chunks)), id, c'))
  {
    hide CmdOk, Own, PumperOk, AfterReads;
    PumpStepOk(w.limit, w.cmds[id], c', Own(w.log, id), id, kind, chunks);
    OwnStep(w, id, ChunkEvents(kind, id, chunks), c');
  }

  lemma PumpsKeep(w: World, a: Action)
    requires Inv(w) && Enabled(w, a) && (a.ReadOut? || a.ReadErr? || a.EofOut? || a.EofErr?)
    ensures Inv(Apply(w, a))
  {
    hide Own, AfterReads, OnRead, OnEof, NewChunks, Carries, Opened, Closed, ChunkEvents, Publish;
    var id := a.id;
    var c := w.cmds[id];
    assert CmdOk(w.limit, c, Own(w.log, id));
    match a {
      case ReadOut(_, got) =>
        FeedOk(c.out, got);
        PumpOk(w, id, Stdout, c.(out := Feed(c.out, got)), NewChunks(c.out.st, Feed(c.out, got).st));
      case ReadErr(_, got) =>
        FeedOk(c.err, got);
        PumpOk(w, id, Stderr, c.(err := Feed(c.err, got)), NewChunks(c.err.st, Feed(c.err, got).st));
      case EofOut(_) =>
        FeedOk(c.out, []);
        PumpOk(w, id, Stdout, c.(out := Close(c.out)), NewChunks(c.out.st, Close(c.out).st));
      case EofErr(_) =>
        FeedOk(c.err, []);
        PumpOk(w, id, Stderr, c.(err := Close(c.err)), NewChunks(c.err.st, Close(c.err).st));
    }
  }

  lemma JustAnnounced(limit: int, c: Cmd, e: Event)
    requires c == Cmd(Pumping, NewPumper, NewPumper) && e.kind == Started
    ensures CmdOk(limit, c, [e])
  {
    assert [e][1..] == [];
  }

  lemma AnnounceKeeps(w: World, id: string, line: Bytes, workDir: Bytes)
    requires Inv(w) && Enabled(w, Announce(id, line, workDir))
    ensures Inv(Apply(w, Announce(id, line, workDir)))
  {
    hide Own;
    var e := StartedEvent(id, line, workDir);
    assert CmdOk(w.limit, w.cmds[id], Own(w.log, id));
    assert Own(w.log, id) + [e] == [e];
    JustAnnounced(w.limit, w.cmds[id].(phase := Pumping), e);
    hide CmdOk;
    OwnStep(w, id, [e], w.cmds[id].(phase := Pumping));
  }

  lemma JustReported(limit: int, c: Cmd, own: seq<Event>, e: Event)
    requires c.phase == Pumping && c.out.done && c.err.done && CmdOk(limit, c, own)
    requires e.kind == Finished && e.truncated == OverLimit(limit, c)
    ensures CmdOk(limit, c.(phase := Reported), own + [e])
  {
    hide SetsTruncated, AfterReads, OnEof, DataOf;
    assert (own + [e])[1..|own + [e]| - 1] == own[1..];
  }

  lemma ReportKeeps(w: World, id: string, outcome: Outcome)
    requires Inv(w) && Enabled(w, Report(id, outcome))
    ensures Inv(Apply(w, Report(id, outcome)))
  {
    hide Own, SetsTruncated, AfterReads, OnEof, OverLimit, CmdOk;
    var c := w.cmds[id];
    var e := FinishedEvent(id, outcome, OverLimit(w.limit, c));
    JustReported(w.limit, c, Own(w.log, id), e);
    OwnStep(w, id, [e], c.(phase := Reported));
  }

  lemma KilledNotOwn(w: World, e: Event, id: string)
    requires e.kind == Killed
    ensures Own(Publish(w, [e]).log, id) == Own(w.log, id)
  {
    assert Publish(w, [e]).log[..|w.log|] == w.log;
  }

  /** Every step of every goroutine keeps the invariant. */
  lemma StepKeeps(w: World, a: Action)
    requires Inv(w) && Enabled(w, a)
    ensures Inv(Apply(w, a))
  {
    hide CmdOk, Own, AfterReads;
    match a {
      case Track(id) =>
        CmdOkTracked(w.limit);
      case Announce(id, line, workDir) =>
        AnnounceKeeps(w, id, line, workDir);
      case Report(id, outcome) =>
        ReportKeeps(w, id, outcome);
      case Untrack(id) =>
        CmdOkGone(w.limit, w.cmds[id], Own(w.log, id));
      case Snapshot(k) =>
      case Kill(k, id, actor, reason) =>
        var e := KilledEvent(id, actor, reason);
        forall who ensures Own(Publish(w, [e]).log, who) == Own(w.log, who) {
          KilledNotOwn(w, e, who);
        }
        LogStepOk(w, [e]);
      case _ =>
        PumpsKeep(w, a);
    }
  }

  lemma CmdOkTracked(limit: int)
    ensures CmdOk(limit, Cmd(Tracked, NewPumper, NewPumper), [])
  {
  }

  lemma CmdOkGone(limit: int, c: Cmd, own: seq<Event>)
    requires c.phase == Reported && CmdOk(limit, c, own)
    ensures CmdOk(limit, c.(phase := Gone), own)
  {
  }

  lemma {:induction false} Reachable(ws: seq<World>, acts: seq<Action>, i: nat)
    requires IsRun(ws, acts) && i < |ws|
    ensures Inv(ws[i])
  {
    hide Inv, Apply, Enabled;
    if i == 0 {
      InitOk(ws[0]);
    } else {
      Reachable(ws, acts, i - 1);
      assert ws[i - 1 + 1] == Apply(ws[i - 1], acts[i - 1]);
      StepKeeps(ws[i - 1], acts[i - 1]);
    }
  }

  lemma InitOk(w: World)
    requires Initial(w)
    ensures Inv(w)
  {
  }

  // ---- main results ----

  /** In every interleaving, a reported command's events, stop notices aside, are one
      start, then output chunks, then one end, and the chunks of each stream spell
      exactly what that stream's reads returned. */
  lemma EventsOfACommand(ws: seq<World>, acts: seq<Action>, i: nat, id: string)
    requires IsRun(ws, acts) && i < |ws|
    requires id in ws[i].cmds && (ws[i].cmds[id].phase == Reported || ws[i].cmds[id].phase == Gone)
    ensures var c := ws[i].cmds[id];
            var own := Own(ws[i].log, id);
            var n := |own|;
            && n >= 2
            && own[0].kind == Started && own[n - 1].kind == Finished
            && (forall k :: 0 < k < n - 1 ==> own[k].kind == Stdout || own[k].kind == Stderr)
            && Concat(DataOf(own, Stdout)) == Concat(c.out.got)
            && Concat(DataOf(own, Stderr)) == Concat(c.err.got)
  {
    hide Apply, Enabled, CmdOk;
    Reachable(ws, acts, i);
    ReportedShape(ws[i].limit, ws[i].cmds[id], Own(ws[i].log, id));
  }

  lemma ReportedShape(limit: int, c: Cmd, own: seq<Event>)
    requires CmdOk(limit, c, own) && (c.phase == Reported || c.phase == Gone)
    ensures var n := |own|;
            && n >= 2
            && own[0].kind == Started && own[n - 1].kind == Finished
            && (forall k :: 0 < k < n - 1 ==> own[k].kind == Stdout || own[k].kind == Stderr)
            && Concat(DataOf(own, Stdout)) == Concat(c.out.got)
            && Concat(DataOf(own, Stderr)) == Concat(c.err.got)
  {
    hide AfterReads, OnEof, OverLimit;
    PublishedIsOutput(c.out.got);
    PublishedIsOutput(c.err.got);
    DataOfEnds(own, Stdout);
    DataOfEnds(own, Stderr);
    var n := |own|;
    forall k | 0 < k < n - 1 ensures IsOutput(own[k]) {
      assert own[1..n - 1][k - 1] == own[k];
    }
  }

  /** All that was read but for at most the three bytes of a character yet to be finished. */
  predicate NearlyAll(published: Bytes, read: Bytes) {
    published <= read && |read| - |published| <= 3
  }

  /** Until then they are nothing at all, or one start and then, for each stream, the output
      read so far, in order and all but the end of it: a command is never reported before it
      is announced, nor twice. */
  lemma EventsSoFar(ws: seq<World>, acts: seq<Action>, i: nat, id: string)
    requires IsRun(ws, acts) && i < |ws| && id in ws[i].cmds
    ensures var own := Own(ws[i].log, id);
            match ws[i].cmds[id].phase
            case Tracked => own == []
            case Pumping => own != [] && own[0].kind == Started && AllOutput(own[1..])
                            && NearlyAll(Concat(DataOf(own[1..], Stdout)), Concat(ws[i].cmds[id].out.got))
                            && NearlyAll(Concat(DataOf(own[1..], Stderr)), Concat(ws[i].cmds[id].err.got))
            case _ => own != [] && own[|own| - 1].kind == Finished
  {
    hide Apply, Enabled, AfterReads, Own;
    Reachable(ws, acts, i);
    var c := ws[i].cmds[id];
    assert CmdOk(ws[i].limit, c, Own(ws[i].log, id));
    hide Inv;
    PumpedSoFar(c.out);
    PumpedSoFar(c.err);
  }

  lemma PumpedSoFar(p: Pumper)
    requires PumperOk(p)
    ensures NearlyAll(Concat(p.st.chunks), Concat(p.got))
  {
    NothingLost(p.got);
    PublishedIsOutput(p.got);
  }

  /** The end is marked truncated exactly when a stream outgrew the result's limit. */
  lemma TruncatedMark(ws: seq<World>, acts: seq<Action>, i: nat, id: string)
    requires IsRun(ws, acts) && i < |ws| && ws[i].limit >= 0
    requires id in ws[i].cmds && (ws[i].cmds[id].phase == Reported || ws[i].cmds[id].phase == Gone)
    ensures var c := ws[i].cmds[id];
            var own := Own(ws[i].log, id);
            && own != []
            && (own[|own| - 1].truncated
                <==> |Concat(c.out.got)| > ws[i].limit || |Concat(c.err.got)| > ws[i].limit)
  {
    hide Apply, Enabled, AfterReads, OnEof, Own, SetsTruncated;
    Reachable(ws, acts, i);
    var c := ws[i].cmds[id];
    assert CmdOk(ws[i].limit, c, Own(ws[i].log, id));
    NonEmptySpells(c.out.got);
    NonEmptySpells(c.err.got);
    TruncatedMeansDropped(ws[i].limit, NonEmpty(c.out.got));
    TruncatedMeansDropped(ws[i].limit, NonEmpty(c.err.got));
  }

  lemma {:induction false} NonEmptySpells(got: seq<Bytes>)
    ensures Concat(NonEmpty(got)) == Concat(got)
    ensures forall i :: 0 <= i < |NonEmpty(got)| ==> NonEmpty(got)[i] != []
  {
    if got != [] {
      NonEmptySpells(got[..|got| - 1]);
      InitLast(got);
      ConcatSnoc(NonEmpty(got[..|got| - 1]), got[|got| - 1]);
    }
  }

  lemma DataOfEnds(own: seq<Event>, kind: Kind)
    requires Closed(own) && (kind == Stdout || kind == Stderr)
    ensures DataOf(own, kind) == DataOf(own[1..|own| - 1], kind)
  {
    var n := |own|;
    assert own == [own[0]] + own[1..n - 1] + [own[n - 1]];
    DataAppend([own[0]] + own[1..n - 1], [own[n - 1]], kind);
    DataAppend([own[0]], own[1..n - 1], kind);
  }

  /** A command is registered as running whenever it publishes anything: an operator's
      stop issued after its start is announced and before its end finds it. */
  lemma RunningWhilePublishing(ws: seq<World>, acts: seq<Action>, i: nat, k: nat)
    requires IsRun(ws, acts) && i < |ws| && k < |ws[i].log|
    requires ws[i].log[k].event.kind != Killed
    ensures ws[i].log[k].event.execId in ws[i].log[k].running
  {
    Reachable(ws, acts, i);
  }

  /** What the reads of one of a command's streams returned. */
  function GotOf(c: Cmd, kind: Kind): seq<Bytes> { if kind == Stdout then c.out.got else c.err.got }

  /** When the output of one of the command's streams is well-formed text, so is every chunk
      of it that is published. */
  lemma ChunksWellFormed(ws: seq<World>, acts: seq<Action>, i: nat, id: string, kind: Kind)
    requires IsRun(ws, acts) && i < |ws| && (kind == Stdout || kind == Stderr)
    requires id in ws[i].cmds && (ws[i].cmds[id].phase == Reported || ws[i].cmds[id].phase == Gone)
    requires Valid(Concat(GotOf(ws[i].cmds[id], kind)))
    ensures AllValid(DataOf(Own(ws[i].log, id), kind))
  {
    hide Apply, Enabled, AfterReads, OnEof, Own, Valid;
    Reachable(ws, acts, i);
    var c := ws[i].cmds[id];
    assert CmdOk(ws[i].limit, c, Own(ws[i].log, id));
    hide Inv;
    DataOfEnds(Own(ws[i].log, id), kind);
    PublishedAreCharacters(GotOf(c, kind));
  }

  /** A stop notice can precede the start it refers to. */
  lemma KilledBeforeStarted(w: World, id: string, actor: string, reason: Bytes)
    returns (ws: seq<World>, acts: seq<Action>)
    requires Initial(w)
    ensures IsRun(ws, acts) && |acts| == 4
    ensures var log := ws[4].log;
            |log| == 2 && log[0].event == KilledEvent(id, actor, reason) && log[1].event == StartedEvent(id, [], [])
  {
    acts := [Track(id), Snapshot(0), Kill(0, id, actor, reason), Announce(id, [], [])];
    var w1 := Apply(w, acts[0]);
    var w2 := Apply(w1, acts[1]);
    var w3 := Apply(w2, acts[2]);
    ws := [w, w1, w2, w3, Apply(w3, acts[3])];
  }

  /** A stop notice can follow the end of the command it stopped. */
  lemma KilledAfterFinished(w: World, id: string, actor: string, reason: Bytes)
    returns (ws: seq<World>, acts: seq<Action>)
    requires Initial(w)
    ensures IsRun(ws, acts) && |acts| == 7
    ensures var log := ws[7].log;
            |log| == 3 && log[1].event.kind == Finished && log[2].event == KilledEvent(id, actor, reason)
  {
    hide SetsTruncated;
    acts := [Track(id), Snapshot(0), Announce(id, [], []), EofOut(id), EofErr(id),
             Report(id, Exited(0)), Kill(0, id, actor, reason)];
    var w1 := Apply(w, acts[0]);
    var w2 := Apply(w1, acts[1]);
    var w3 := Apply(w2, acts[2]);
    var w4 := Apply(w3, acts[3]);
    var w5 := Apply(w4, acts[4]);
    var w6 := Apply(w5, acts[5]);
    ws := [w, w1, w2, w3, w4, w5, w6, Apply(w6, acts[6])];
  }
}
