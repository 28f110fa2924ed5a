/** A command that prints one stray byte, watched from its start to its end. */
module Witness {
  import opened Wrappers
  import opened Utf8
  import opened Events
  import opened Transport
  import opened Pipeline
  import Exec
  import Pumping
  import Resuming
  import Broadcasting
  import Retention
  import CappedOutput

  const Stray: Bytes := [0xFF]

  /** What the command publishes. */
  function Printed(id: string): seq<Event> {
    [Exec.StartedEvent(id, [], []), Pumping.ChunkEvent(Stdout, id, Stray), Exec.FinishedEvent(id, Exec.Exited(0), false)]
  }

  lemma StrayPassesWhole()
    ensures Pumping.OnRead(Pumping.Fresh, Stray) == Pumping.PumpState([], [Stray])
    ensures Pumping.OnEof(Pumping.PumpState([], [Stray])) == Pumping.PumpState([], [Stray])
    ensures Pumping.OnEof(Pumping.Fresh) == Pumping.Fresh
  {
    assert [] + Stray == Stray && Stray[..1] == Stray && Stray[1..] == [];
    assert SplitPoint(Stray) == 1;
  }

  function Pumped(read: bool, done: bool): Exec.Pumper {
    Exec.Pumper(if read then [Stray] else [], Pumping.PumpState([], if read then [Stray] else []), done)
  }

  /** The sandbox with `n` of the command's events published. */
  function Then(id: string, phase: Exec.Phase, out: Exec.Pumper, err: Exec.Pumper, n: nat): Exec.World
    requires n <= 3
  {
    Exec.World(100, map[id := Exec.Cmd(phase, out, err)], {id}, map[],
               seq(n, i requires 0 <= i < n => Exec.Entry(Printed(id)[i], {id})))
  }

  lemma Starts(id: string)
    ensures var w0, w1 := Exec.World(100, map[], {}, map[], []), Then(id, Exec.Tracked, Exec.NewPumper, Exec.NewPumper, 0);
            && Exec.Initial(w0) && Exec.Enabled(w0, Exec.Track(id)) && Exec.Apply(w0, Exec.Track(id)) == w1
            && Exec.Enabled(w1, Exec.Announce(id, [], []))
            && Exec.Apply(w1, Exec.Announce(id, [], [])) == Then(id, Exec.Pumping, Pumped(false, false), Pumped(false, false), 1)
  {
    var w1 := Then(id, Exec.Tracked, Exec.NewPumper, Exec.NewPumper, 0);
    assert {} + {id} == {id};
    assert Exec.Apply(w1, Exec.Announce(id, [], [])).log == [Exec.Entry(Printed(id)[0], {id})];
  }

  lemma Reads(id: string)
    ensures var w := Then(id, Exec.Pumping, Pumped(false, false), Pumped(false, false), 1);
            && Exec.Enabled(w, Exec.ReadOut(id, Stray))
            && Exec.Apply(w, Exec.ReadOut(id, Stray)) == Then(id, Exec.Pumping, Pumped(true, false), Pumped(false, false), 2)
  {
    hide Pumping.OnRead;
    StrayPassesWhole();
    var w := Then(id, Exec.Pumping, Pumped(false, false), Pumped(false, false), 1);
    assert Exec.NewChunks(Pumping.Fresh, Pumping.PumpState([], [Stray])) == [Stray];
    assert [] + [Stray] == [Stray];
    assert Exec.Feed(w.cmds[id].out, Stray) == Pumped(true, false);
    assert Pumping.ChunkEvents(Stdout, id, [Stray]) == [Printed(id)[1]];
    OneMoreEvent(id, w.log, 1);
    assert Exec.Publish(w, [Printed(id)[1]]).log == w.log + [Exec.Entry(Printed(id)[1], {id})];
  }

  lemma OneMoreEvent(id: string, log: seq<Exec.Entry>, n: nat)
    requires n < 3 && log == Then(id, Exec.Pumping, Exec.NewPumper, Exec.NewPumper, n).log
    ensures log + [Exec.Entry(Printed(id)[n], {id})] == Then(id, Exec.Pumping, Exec.NewPumper, Exec.NewPumper, n + 1).log
  {
  }

  lemma Ends(id: string)
    ensures var w := Then(id, Exec.Pumping, Pumped(true, false), Pumped(false, false), 2);
            && Exec.Enabled(w, Exec.EofOut(id))
            && Exec.Apply(w, Exec.EofOut(id)) == Then(id, Exec.Pumping, Pumped(true, true), Pumped(false, false), 2)
    ensures var w := Then(id, Exec.Pumping, Pumped(true, true), Pumped(false, false), 2);
            && Exec.Enabled(w, Exec.EofErr(id))
            && Exec.Apply(w, Exec.EofErr(id)) == Then(id, Exec.Pumping, Pumped(true, true), Pumped(false, true), 2)
  {
    hide Pumping.OnEof;
    StrayPassesWhole();
  }

  lemma Reports(id: string)
    ensures var w := Then(id, Exec.Pumping, Pumped(true, true), Pumped(false, true), 2);
            && Exec.Enabled(w, Exec.Report(id, Exec.Exited(0)))
            && Exec.Apply(w, Exec.Report(id, Exec.Exited(0))) == Then(id, Exec.Reported, Pumped(true, true), Pumped(false, true), 3)
  {
    FitsTheLimit();
    hide Exec.OverLimit;
    var w := Then(id, Exec.Pumping, Pumped(true, true), Pumped(false, true), 2);
    OneMoreEvent(id, w.log, 2);
    assert Exec.Publish(w, [Printed(id)[2]]).log == w.log + [Exec.Entry(Printed(id)[2], {id})];
  }

  lemma FitsTheLimit()
    ensures !Exec.OverLimit(100, Exec.Cmd(Exec.Pumping, Pumped(true, true), Pumped(false, true)))
  {
    Exec.NonEmptySpells([Stray]);
    Exec.NonEmptySpells([]);
    CappedOutput.TruncatedMeansDropped(100, Pumping.NonEmpty([Stray]));
    CappedOutput.TruncatedMeansDropped(100, Pumping.NonEmpty([]));
    assert [Stray][1..] == [];
  }

  /** The command's run: it starts, prints the byte, and ends. */
  lemma PrintsStray(id: string) returns (ws: seq<Exec.World>, acts: seq<Exec.Action>)
    ensures Exec.IsRun(ws, acts) && |ws| == 7
    ensures id in ws[6].cmds && ws[6].cmds[id].out.got == [Stray]
    ensures Exec.Own(ws[6].log, id) == Printed(id)
  {
    hide Exec.Apply, Exec.Enabled, Exec.Initial, Exec.Own, Printed;
    Starts(id);
    Reads(id);
    Ends(id);
    Reports(id);
    acts := [Exec.Track(id), Exec.Announce(id, [], []), Exec.ReadOut(id, Stray), Exec.EofOut(id), Exec.EofErr(id),
             Exec.Report(id, Exec.Exited(0))];
    ws := [Exec.World(100, map[], {}, map[], []),
           Then(id, Exec.Tracked, Exec.NewPumper, Exec.NewPumper, 0),
           Then(id, Exec.Pumping, Pumped(false, false), Pumped(false, false), 1),
           Then(id, Exec.Pumping, Pumped(true, false), Pumped(false, false), 2),
           Then(id, Exec.Pumping, Pumped(true, true), Pumped(false, false), 2),
           Then(id, Exec.Pumping, Pumped(true, true), Pumped(false, true), 2),
           Then(id, Exec.Reported, Pumped(true, true), Pumped(false, true), 3)];
    OwnAll(ws[6].log, id);
  }

  lemma OwnAll(log: seq<Exec.Entry>, id: string)
    requires |log| == 3 && forall i :: 0 <= i < 3 ==> log[i].event == Printed(id)[i]
    ensures Exec.Own(log, id) == Printed(id)
  {
    Exec.OwnOfEntries(log, Printed(id), id, id);
  }

  // ---- the page's run ----

  const Sandbox := "s"

  /** The first `n` of the command's events, as the hub retains them. */
  function Retained(wire: Bytes -> Bytes, id: string, n: nat): seq<Event>
    requires n <= 3
  {
    seq(n, i requires 0 <= i < n => Encoded(wire, Printed(id)[i]).(sandboxId := Sandbox, seqNo := i + 1))
  }

  function Limit(wire: Bytes -> Bytes, id: string): nat { TotalSize(Retained(wire, id, 3)) + 1 }

  function Published(wire: Bytes -> Bytes, id: string, n: nat): Resuming.Sys
    requires n <= 3
  {
    Resuming.Sys(Sandbox, Limit(wire, id), Retained(wire, id, n), 0, None, 0, [])
  }

  /** The page connected, the server having sent `m` events and the page received `n`. */
  function Receiving(wire: Bytes -> Bytes, id: string, m: nat, n: nat): Resuming.Sys
    requires n <= m <= 3
  {
    var log := Retained(wire, id, 3);
    Published(wire, id, 3).(lastSeq := n,
                            conn := Some(Resuming.Conn(0, 0, 3, true, log[m..], [], log[n..m], log[..n])))
  }

  lemma Grows(wire: Bytes -> Bytes, id: string, n: nat)
    requires n < 3
    ensures Retained(wire, id, n + 1) == Retained(wire, id, n) + [Retained(wire, id, 3)[n]]
    ensures Retained(wire, id, n) == Retained(wire, id, 3)[..n]
  {
  }

  lemma Fits(wire: Bytes -> Bytes, id: string, n: nat)
    requires n <= 3
    ensures n > 0 ==> Retention.Evict(Limit(wire, id), Retained(wire, id, n), 0) == 0
  {
    hide TotalSize;
    var log := Retained(wire, id, 3);
    assert Retained(wire, id, n) == log[..n] && log == log[..n] + log[n..];
    TotalSizeAppend(log[..n], log[n..]);
    assert Retained(wire, id, n)[0..] == Retained(wire, id, n);
  }

  lemma PublishStep(wire: Bytes -> Bytes, id: string, n: nat) returns (a: Resuming.Action)
    requires n < 3
    ensures Resuming.Enabled(Published(wire, id, n), a)
    ensures Resuming.Apply(Published(wire, id, n), a) == Published(wire, id, n + 1)
  {
    hide Retention.Evict, Limit;
    a := Resuming.Publish(Encoded(wire, Printed(id)[n]).(sandboxId := Sandbox));
    Grows(wire, id, n);
    Fits(wire, id, n + 1);
  }

  lemma ConnectStep(wire: Bytes -> Bytes, id: string)
    ensures Resuming.Enabled(Published(wire, id, 3), Resuming.Connect)
    ensures Resuming.Apply(Published(wire, id, 3), Resuming.Connect) == Receiving(wire, id, 0, 0)
  {
    hide Limit;
    var log := Retained(wire, id, 3);
    assert log[0..] == log && log[0..0] == [] && log[..0] == [];
    assert Retention.SinceIn(log, 0, 0) == (log, 0);
    assert Broadcasting.Replay(Sandbox, log, 0, 0) == log;
  }

  lemma SendStep(wire: Bytes -> Bytes, id: string, m: nat)
    requires m < 3
    ensures Resuming.Enabled(Receiving(wire, id, m, 0), Resuming.SendReplay)
    ensures Resuming.Apply(Receiving(wire, id, m, 0), Resuming.SendReplay) == Receiving(wire, id, m + 1, 0)
  {
    hide Limit;
    var log := Retained(wire, id, 3);
    assert log[m..][1..] == log[m + 1..] && log[0..m] + [log[m..][0]] == log[0..m + 1];
  }

  lemma ReceiveStep(wire: Bytes -> Bytes, id: string, n: nat)
    requires n < 3
    ensures Resuming.Enabled(Receiving(wire, id, 3, n), Resuming.Receive)
    ensures Resuming.Apply(Receiving(wire, id, 3, n), Resuming.Receive) == Receiving(wire, id, 3, n + 1)
  {
    hide Limit;
    var log := Retained(wire, id, 3);
    assert log[n..3][1..] == log[n + 1..3] && log[..n] + [log[n..3][0]] == log[..n + 1];
  }

  /** A run, one step longer. */
  lemma Longer(ss: seq<Resuming.Sys>, acts: seq<Resuming.Action>, a: Resuming.Action)
    returns (more: seq<Resuming.Sys>, done: seq<Resuming.Action>)
    requires Resuming.IsRun(ss, acts) && Resuming.Enabled(ss[|acts|], a)
    ensures Resuming.IsRun(more, done) && |more| == |ss| + 1 == |done| + 1
    ensures more[|ss|] == Resuming.Apply(ss[|acts|], a)
  {
    hide Resuming.Apply, Resuming.Enabled, Resuming.Initial;
    more, done := ss + [Resuming.Apply(ss[|acts|], a)], acts + [a];
  }

  lemma PageReceives(wire: Bytes -> Bytes, id: string) returns (ss: seq<Resuming.Sys>, acts: seq<Resuming.Action>)
    ensures Resuming.IsRun(ss, acts) && |ss| == 11 && ss[10] == Receiving(wire, id, 3, 3)
  {
    hide Resuming.Apply, Resuming.Enabled;
    ss, acts := [Published(wire, id, 0)], [];
    assert Resuming.IsRun(ss, acts) by { hide Limit; }
    hide Published, Receiving, Resuming.IsRun;
    for n := 0 to 3
      invariant |ss| == n + 1 == |acts| + 1 && ss[n] == Published(wire, id, n) && Resuming.IsRun(ss, acts)
    {
      var a := PublishStep(wire, id, n);
      ss, acts := Longer(ss, acts, a);
    }
    ConnectStep(wire, id);
    ss, acts := Longer(ss, acts, Resuming.Connect);
    for n := 0 to 3
      invariant |ss| == n + 5 == |acts| + 1 && ss[n + 4] == Receiving(wire, id, n, 0) && Resuming.IsRun(ss, acts)
    {
      SendStep(wire, id, n);
      ss, acts := Longer(ss, acts, Resuming.SendReplay);
    }
    for n := 0 to 3
      invariant |ss| == n + 8 == |acts| + 1 && ss[n + 7] == Receiving(wire, id, 3, n) && Resuming.IsRun(ss, acts)
    {
      ReceiveStep(wire, id, n);
      ss, acts := Longer(ss, acts, Resuming.Receive);
    }
  }

  // ---- together ----

  lemma AllReceived(wire: Bytes -> Bytes, id: string)
    ensures Resuming.AllReals(Resuming.Sessions(Receiving(wire, id, 3, 3))) == Retained(wire, id, 3)
  {
    hide Limit;
    var log := Retained(wire, id, 3);
    assert log[..3] == log && log[..3][..2] == log[..2] && log[..2][..1] == log[..1] && log[..1][..0] == [];
    var one := Resuming.Session(0, 0, log);
    assert Resuming.Sessions(Receiving(wire, id, 3, 3)) == [one] && [one][..0] == [];
    RealsAll(log);
  }

  lemma {:induction false} RealsAll(es: seq<Event>)
    requires forall i :: 0 <= i < |es| ==> es[i].seqNo != 0
    ensures Resuming.Reals(es) == es
  {
    if es != [] {
      RealsAll(es[..|es| - 1]);
      assert es == es[..|es| - 1] + [es[|es| - 1]];
    }
  }

  lemma {:induction false} AllOfIt(es: seq<Event>, id: string)
    requires forall i :: 0 <= i < |es| ==> Exec.Mine(es[i], id)
    ensures OfCommand(es, id) == es
  {
    if es != [] {
      AllOfIt(es[..|es| - 1], id);
      assert es == es[..|es| - 1] + [es[|es| - 1]];
    }
  }

  /** There are such a command and such a page, and the byte is not what the page shows. */
  lemma StrayByteWatched(wire: Bytes -> Bytes, id: string)
    returns (ws: seq<Exec.World>, wacts: seq<Exec.Action>, ss: seq<Resuming.Sys>, acts: seq<Resuming.Action>)
    requires IsWire(wire) && id != ""
    ensures |ws| == 7 && |ss| == 11 && Watched(ws, wacts, 6, ss, acts, 10, wire, id, 0, 2)
    ensures id in ws[6].cmds && ws[6].cmds[id].out.got == [Stray]
    ensures Shown(wire, ss[10], id, Stdout) != Stray
  {
    hide Exec.IsRun, Exec.Own, Resuming.IsRun, Resuming.AllReals, Resuming.Sessions, OfCommand, IsWire, Limit;
    hide Shown;
    ws, wacts := PrintsStray(id);
    ss, acts := PageReceives(wire, id);
    var log := Retained(wire, id, 3);
    AllReceived(wire, id);
    AllOfIt(log, id);
    assert Keeps(wire, Printed(id), log);
    StrayByteNeverShown(ws, wacts, 6, ss, acts, 10, wire, id, 0, 2);
  }
}
