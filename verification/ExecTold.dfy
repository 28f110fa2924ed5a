/** What is told of a command, against what was done: over the actions of a run, not by the
    functions that make the events. */
module ExecTold {
  import opened Utf8
  import opened Chunks
  import opened Events
  import opened Pumping
  import opened Exec

  /** What a step adds to the share of command `id`. */
  function Adds(w: World, a: Action, id: string): seq<Event>
    requires Enabled(w, a)
  {
    match a
    case Announce(x, line, workDir) => if x == id then [StartedEvent(id, line, workDir)] else []
    case ReadOut(x, got) =>
      if x == id then ChunkEvents(Stdout, id, NewChunks(w.cmds[id].out.st, Feed(w.cmds[id].out, got).st)) else []
    case ReadErr(x, got) =>
      if x == id then ChunkEvents(Stderr, id, NewChunks(w.cmds[id].err.st, Feed(w.cmds[id].err, got).st)) else []
    case EofOut(x) =>
      if x == id then ChunkEvents(Stdout, id, NewChunks(w.cmds[id].out.st, Close(w.cmds[id].out).st)) else []
    case EofErr(x) =>
      if x == id then ChunkEvents(Stderr, id, NewChunks(w.cmds[id].err.st, Close(w.cmds[id].err).st)) else []
    case Report(x, outcome) => if x == id then [FinishedEvent(id, outcome, OverLimit(w.limit, w.cmds[id]))] else []
    case _ => []
  }

  lemma OwnAfter(w: World, a: Action, id: string)
    requires Enabled(w, a)
    ensures Own(Apply(w, a).log, id) == Own(w.log, id) + Adds(w, a, id)
  {
    hide Own, ChunkEvents, NewChunks, OnRead, OnEof, OverLimit, Publish;
    assert Own(w.log, id) + [] == Own(w.log, id);
    match a {
      case Announce(x, line, workDir) => OwnOfPublished(w, [StartedEvent(x, line, workDir)], x, id);
      case ReadOut(x, got) => ChunksAdded(w, x, Stdout, NewChunks(w.cmds[x].out.st, Feed(w.cmds[x].out, got).st), id);
      case ReadErr(x, got) => ChunksAdded(w, x, Stderr, NewChunks(w.cmds[x].err.st, Feed(w.cmds[x].err, got).st), id);
      case EofOut(x) => ChunksAdded(w, x, Stdout, NewChunks(w.cmds[x].out.st, Close(w.cmds[x].out).st), id);
      case EofErr(x) => ChunksAdded(w, x, Stderr, NewChunks(w.cmds[x].err.st, Close(w.cmds[x].err).st), id);
      case Report(x, outcome) =>
        OwnOfPublished(w, [FinishedEvent(x, outcome, OverLimit(w.limit, w.cmds[x]))], x, id);
      case Kill(_, x, actor, reason) => KilledNotOwn(w, KilledEvent(x, actor, reason), id);
      case _ =>
    }
  }

  lemma ChunksAdded(w: World, who: string, kind: Kind, chunks: seq<Bytes>, id: string)
    requires kind == Stdout || kind == Stderr
    ensures Own(Publish(w, ChunkEvents(kind, who, chunks)).log, id)
            == Own(w.log, id) + if id == who then ChunkEvents(kind, who, chunks) else []
  {
    hide Own, Publish;
    OwnOfPublished(w, ChunkEvents(kind, who, chunks), who, id);
  }

  /** What the reads of a stream of command `id` returned, in a run of actions. */
  function ReadsOf(acts: seq<Action>, id: string, kind: Kind): seq<Bytes> {
    if acts == [] then []
    else
      var a := acts[|acts| - 1];
      ReadsOf(acts[..|acts| - 1], id, kind)
      + (if a.ReadOut? && kind == Stdout && a.id == id then [a.got]
         else if a.ReadErr? && kind == Stderr && a.id == id then [a.got]
         else [])
  }

  /** A command's streams hold what its reads returned, nothing else and in order. */
  lemma {:induction false} GotIsRead(ws: seq<World>, acts: seq<Action>, i: nat, id: string, kind: Kind)
    requires IsRun(ws, acts) && i < |ws| && (kind == Stdout || kind == Stderr)
    ensures if id in ws[i].cmds then GotOf(ws[i].cmds[id], kind) == ReadsOf(acts[..i], id, kind)
            else ReadsOf(acts[..i], id, kind) == []
  {
    if i > 0 {
      GotIsRead(ws, acts, i - 1, id, kind);
      var w, a := ws[i - 1], acts[i - 1];
      assert ws[i - 1 + 1] == Apply(w, a);
      assert acts[..i][..i - 1] == acts[..i - 1];
      GotAfter(w, a, id, kind);
      hide Apply, Enabled;
    }
  }

  lemma GotAfter(w: World, a: Action, id: string, kind: Kind)
    requires Enabled(w, a) && (kind == Stdout || kind == Stderr)
    ensures id in w.cmds ==> id in Apply(w, a).cmds
    ensures id in Apply(w, a).cmds && id !in w.cmds ==> a == Track(id) && GotOf(Apply(w, a).cmds[id], kind) == []
    ensures id in w.cmds ==>
              GotOf(Apply(w, a).cmds[id], kind)
              == GotOf(w.cmds[id], kind)
                 + (if a.ReadOut? && kind == Stdout && a.id == id then [a.got]
                    else if a.ReadErr? && kind == Stderr && a.id == id then [a.got]
                    else [])
    ensures (a.ReadOut? || a.ReadErr?) && a.id == id ==> id in w.cmds
  {
    hide OnRead, OnEof, NewChunks, ChunkEvents, OverLimit, Publish;
    assert id in w.cmds ==> GotOf(w.cmds[id], kind) + [] == GotOf(w.cmds[id], kind);
    assert forall es :: Publish(w, es).cmds == w.cmds by { PublishKeepsCmds(w); }
  }

  lemma PublishKeepsCmds(w: World)
    ensures forall es :: Publish(w, es).cmds == w.cmds
  {
  }

  // ---- the start and the end ----

  /** The start that watchers are told of names the command line and the directory that the
      command was announced with. */
  lemma {:induction false} StartTold(ws: seq<World>, acts: seq<Action>, i: nat, id: string)
    returns (m: nat, line: Bytes, workDir: Bytes)
    requires IsRun(ws, acts) && i < |ws| && Own(ws[i].log, id) != []
    ensures m < i && acts[m] == Announce(id, line, workDir)
    ensures Own(ws[i].log, id)[0] == Event(0, "", Started, id, [], line, workDir, 0, false, "", [], 0)
  {
    hide Own, Apply, Enabled, Adds;
    assert i > 0 by { NothingYet(ws, acts, id); }
    var w, a := ws[i - 1], acts[i - 1];
    assert ws[i - 1 + 1] == Apply(w, a);
    OwnAfter(w, a, id);
    if Own(w.log, id) != [] {
      m, line, workDir := StartTold(ws, acts, i - 1, id);
    } else {
      FirstIsAnnounced(ws, acts, i - 1, a, id);
      m, line, workDir := i - 1, a.line, a.workDir;
    }
  }

  lemma NothingYet(ws: seq<World>, acts: seq<Action>, id: string)
    requires IsRun(ws, acts)
    ensures Own(ws[0].log, id) == []
  {
  }

  /** Only its announcement is published of a command that nothing was published of. */
  lemma FirstIsAnnounced(ws: seq<World>, acts: seq<Action>, i: nat, a: Action, id: string)
    requires IsRun(ws, acts) && i < |ws| && Own(ws[i].log, id) == [] && Enabled(ws[i], a) && Adds(ws[i], a, id) != []
    ensures a.Announce? && a.id == id
    ensures Adds(ws[i], a, id)[0] == Event(0, "", Started, id, [], a.line, a.workDir, 0, false, "", [], 0)
  {
    hide IsRun, Own, ChunkEvents, NewChunks, OnRead, OnEof, OverLimit;
    if id in ws[i].cmds {
      EventsSoFar(ws, acts, i, id);
    }
  }

  lemma PhaseAfter(w: World, a: Action, id: string)
    requires Enabled(w, a) && id in Apply(w, a).cmds
    requires Apply(w, a).cmds[id].phase == Reported || Apply(w, a).cmds[id].phase == Gone
    ensures id in w.cmds
    ensures if w.cmds[id].phase == Reported || w.cmds[id].phase == Gone then Adds(w, a, id) == [] else a.Report? && a.id == id
  {
    hide OnRead, OnEof, NewChunks, ChunkEvents, OverLimit, Publish;
    PublishKeepsCmds(w);
  }

  /** The end that watchers are told of gives the code the command ended with, or -1 and the
      reason if it ran out of time or was stopped. */
  lemma {:induction false} EndTold(ws: seq<World>, acts: seq<Action>, i: nat, id: string)
    returns (m: nat, outcome: Outcome)
    requires IsRun(ws, acts) && i < |ws|
    requires id in ws[i].cmds && (ws[i].cmds[id].phase == Reported || ws[i].cmds[id].phase == Gone)
    ensures m < i && acts[m] == Report(id, outcome) && Own(ws[i].log, id) != []
    ensures var own := Own(ws[i].log, id);
            var e := own[|own| - 1];
            && e == Event(0, "", Finished, id, [], [], [], e.exitCode, e.truncated, "", e.reason, 0)
            && match outcome
               case Exited(code) => e.exitCode == code && e.reason == []
               case TimedOut(time) => e.exitCode == -1 && e.reason == Ascii("timed out after ") + time
               case Stopped => e.exitCode == -1 && e.reason == Ascii("stopped before completion")
  {
    hide Own, Apply, Enabled, Adds, Ascii;
    var w, a := ws[i - 1], acts[i - 1];
    assert ws[i - 1 + 1] == Apply(w, a);
    OwnAfter(w, a, id);
    PhaseAfter(w, a, id);
    if w.cmds[id].phase == Reported || w.cmds[id].phase == Gone {
      m, outcome := EndTold(ws, acts, i - 1, id);
    } else {
      m, outcome := i - 1, a.outcome;
      EndAdded(w, a, id);
    }
  }

  lemma EndAdded(w: World, a: Action, id: string)
    requires Enabled(w, a) && a.Report? && a.id == id
    ensures |Adds(w, a, id)| == 1
    ensures var e := Adds(w, a, id)[0];
            && e == Event(0, "", Finished, id, [], [], [], e.exitCode, e.truncated, "", e.reason, 0)
            && match a.outcome
               case Exited(code) => e.exitCode == code && e.reason == []
               case TimedOut(time) => e.exitCode == -1 && e.reason == Ascii("timed out after ") + time
               case Stopped => e.exitCode == -1 && e.reason == Ascii("stopped before completion")
  {
    hide OverLimit, Ascii;
  }

  // ---- stops ----

  /** A stop tells of the command it stops, who stopped it and why. */
  lemma StopTold(w: World, k: nat, id: string, actor: string, reason: Bytes)
    requires Enabled(w, Kill(k, id, actor, reason))
    ensures var log := Apply(w, Kill(k, id, actor, reason)).log;
            && |log| == |w.log| + 1 && log[..|w.log|] == w.log
            && log[|w.log|].event == Event(0, "", Killed, id, [], [], [], 0, false, actor, reason, 0)
  {
  }

  /** Stop `k` has told of command `id` between two moments. */
  ghost predicate ToldBetween(acts: seq<Action>, i: nat, j: nat, k: nat, id: string)
    requires j <= |acts|
  {
    exists m :: i <= m < j && acts[m].Kill? && acts[m].killer == k && acts[m].id == id
  }

  /** What a stop still has to do is what was running when it was asked for, less what it
      has done: when it is through, it has stopped exactly those commands, each once. */
  lemma {:induction false} StopsWhatRan(ws: seq<World>, acts: seq<Action>, i: nat, j: nat, k: nat)
    requires IsRun(ws, acts) && i < j < |ws| && acts[i] == Snapshot(k)
    ensures k in ws[j].killers
    ensures forall id :: id in ws[i].running <==> id in ws[j].killers[k] || ToldBetween(acts, i, j, k, id)
    ensures forall id :: !(id in ws[j].killers[k] && ToldBetween(acts, i, j, k, id))
    decreases j
  {
    hide Apply, Enabled;
    var w, a := ws[j - 1], acts[j - 1];
    assert ws[j - 1 + 1] == Apply(w, a);
    if i == j - 1 {
      Snapped(w, k);
    } else {
      StopsWhatRan(ws, acts, i, j - 1, k);
      KillersAfter(w, a, k);
      forall id ensures ToldBetween(acts, i, j, k, id)
                        <==> ToldBetween(acts, i, j - 1, k, id) || (a.Kill? && a.killer == k && a.id == id)
      {
        if a.Kill? && a.killer == k && a.id == id {
          assert acts[j - 1].Kill?;
        }
      }
    }
  }

  lemma Snapped(w: World, k: nat)
    requires Enabled(w, Snapshot(k))
    ensures k in Apply(w, Snapshot(k)).killers && Apply(w, Snapshot(k)).killers[k] == w.running
  {
  }

  lemma KillersAfter(w: World, a: Action, k: nat)
    requires Enabled(w, a) && k in w.killers
    ensures k in Apply(w, a).killers
    ensures if a.Kill? && a.killer == k
            then a.id in w.killers[k] && Apply(w, a).killers[k] == w.killers[k] - {a.id}
            else Apply(w, a).killers[k] == w.killers[k]
  {
    hide OnRead, OnEof, NewChunks, ChunkEvents, OverLimit, Publish;
    assert forall es :: Publish(w, es).killers == w.killers by { PublishKeepsKillers(w); }
  }

  lemma PublishKeepsKillers(w: World)
    ensures forall es :: Publish(w, es).killers == w.killers
  {
  }
}
