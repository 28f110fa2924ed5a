/** From a process's output to the text on a watcher's page, end to end. */
module Pipeline {
  import opened Utf8
  import opened Chunks
  import opened Events
  import opened Transport
  import opened Ansi
  import Exec
  import ExecTold
  import Resuming
  import Retention
  import Screen

  // ---- what the page received, against the log ----

  /** Everything the page received, markers included. */
  function AllGot(past: seq<Resuming.Session>): seq<Event> {
    if past == [] then [] else AllGot(past[..|past| - 1]) + past[|past| - 1].got
  }

  /** What markers counted, on the connections that went on to deliver an event. */
  function MissedIn(past: seq<Resuming.Session>): nat {
    if past == [] then 0
    else
      var got := past[|past| - 1].got;
      MissedIn(past[..|past| - 1]) + if Resuming.Reals(got) == [] then 0 else Resuming.Missed(got)
  }

  lemma {:induction false} AccountedSplits(past: seq<Resuming.Session>)
    ensures Resuming.Accounted(past) == MissedIn(past) + |Resuming.AllReals(past)|
  {
    if past != [] {
      AccountedSplits(past[..|past| - 1]);
    }
  }

  lemma {:induction false} ByPlace(log: seq<Event>, es: seq<Event>, upto: nat)
    requires Resuming.InOrder(log, es, upto) && upto <= |log|
    ensures |es| <= upto
    ensures |es| == upto ==> es == log[..upto]
  {
    if es != [] {
      var init, e := es[..|es| - 1], es[|es| - 1];
      ByPlace(log, init, e.seqNo - 1);
      assert |es| == upto ==> log[..upto] == log[..upto - 1] + [log[upto - 1]];
      assert es == init + [e];
    }
  }

  /** Unless a marker counted something ahead of a delivered event, and only then, the
      page holds every event up to its position: the log itself. */
  lemma HoldsTheLog(ss: seq<Resuming.Sys>, acts: seq<Resuming.Action>, i: nat)
    requires Resuming.IsRun(ss, acts) && i < |ss|
    ensures var past := Resuming.Sessions(ss[i]);
            && ss[i].lastSeq <= |ss[i].log|
            && (MissedIn(past) == 0 <==> Resuming.AllReals(past) == ss[i].log[..ss[i].lastSeq])
  {
    hide Resuming.IsRun, Resuming.InOrder, Resuming.Sessions;
    Resuming.NeverRepeated(ss, acts, i);
    Resuming.NothingUnaccounted(ss, acts, i);
    AccountedSplits(Resuming.Sessions(ss[i]));
    ByPlace(ss[i].log, Resuming.AllReals(Resuming.Sessions(ss[i])), ss[i].lastSeq);
  }

  /** The events published under the numbers from `k0 + 1` to `k + 1` were all received. */
  predicate SpanReceived(log: seq<Event>, es: seq<Event>, k0: nat, k: nat) {
    forall p :: k0 <= p <= k && p < |log| ==> log[p] in es
  }

  /** A page can tell by the numbers: between two events it received, as many apart in what
      it received as in number, nothing was skipped. */
  lemma UnbrokenIsReceived(ss: seq<Resuming.Sys>, acts: seq<Resuming.Action>, i: nat, a: nat, b: nat)
    requires Resuming.IsRun(ss, acts) && i < |ss|
    requires var es := Resuming.AllReals(Resuming.Sessions(ss[i]));
             a <= b < |es| && es[b].seqNo - es[a].seqNo == b - a
    ensures var es := Resuming.AllReals(Resuming.Sessions(ss[i]));
            && 0 < es[a].seqNo <= es[b].seqNo <= |ss[i].log|
            && es[a] == ss[i].log[es[a].seqNo - 1] && es[b] == ss[i].log[es[b].seqNo - 1]
            && SpanReceived(ss[i].log, es, es[a].seqNo - 1, es[b].seqNo - 1)
  {
    hide Resuming.IsRun, Resuming.Sessions, Resuming.AllReals;
    Resuming.NeverRepeated(ss, acts, i);
    var log, es := ss[i].log, Resuming.AllReals(Resuming.Sessions(ss[i]));
    forall p | es[a].seqNo - 1 <= p <= es[b].seqNo - 1 && p < |log| ensures log[p] in es {
      var t := p + 1 - es[a].seqNo;
      StepsApart(log, es, ss[i].lastSeq, a, a + t);
      StepsApart(log, es, ss[i].lastSeq, a + t, b);
      assert es[a + t] == log[es[a + t].seqNo - 1];
    }
  }

  lemma {:induction false} StepsApart(log: seq<Event>, es: seq<Event>, upto: nat, a: nat, b: nat)
    requires Resuming.InOrder(log, es, upto) && a <= b < |es|
    ensures es[b].seqNo - es[a].seqNo >= b - a
    decreases b - a
  {
    if a < b {
      StepsApart(log, es, upto, a, b - 1);
      assert es[b - 1].seqNo < es[b].seqNo;
    }
  }

  // ---- one command's share of what the page received ----

  lemma {:induction false} RealsOf(got: seq<Event>, id: string)
    requires forall e :: e in got && e.seqNo == 0 ==> !Exec.Mine(e, id)
    ensures OfCommand(Resuming.Reals(got), id) == OfCommand(got, id)
  {
    if got != [] {
      var init, e := got[..|got| - 1], got[|got| - 1];
      RealsOf(init, id);
      assert e in got && got == init + [e];
      OfSnoc(init, e, id);
      OfSnoc(Resuming.Reals(init), e, id);
      assert Resuming.Reals(got) == if e.seqNo != 0 then Resuming.Reals(init) + [e] else Resuming.Reals(init);
    }
  }

  lemma UnstampedAreMarkers(sandbox: string, log: seq<Event>, s: Resuming.Session, id: string)
    requires Retention.Stamped(log) && Resuming.SessionOk(sandbox, log, s) && id != ""
    ensures forall e :: e in s.got && e.seqNo == 0 ==> !Exec.Mine(e, id)
  {
    var all := Resuming.Stretch(sandbox, log, s.after, s.from, |log|);
    forall k | 0 <= k < |all| && all[k].seqNo == 0 ensures !Exec.Mine(all[k], id) {
    }
    assert forall k :: 0 <= k < |s.got| ==> s.got[k] == all[k];
  }

  lemma {:induction false} GotOf(sandbox: string, log: seq<Event>, past: seq<Resuming.Session>, id: string)
    requires Retention.Stamped(log) && Resuming.Chained(sandbox, log, past) && id != ""
    ensures OfCommand(AllGot(past), id) == OfCommand(Resuming.AllReals(past), id)
  {
    if past != [] {
      var init, last := past[..|past| - 1], past[|past| - 1];
      GotOf(sandbox, log, init, id);
      UnstampedAreMarkers(sandbox, log, last, id);
      RealsOf(last.got, id);
      OfAppend(AllGot(init), last.got, id);
      OfAppend(Resuming.AllReals(init), Resuming.Reals(last.got), id);
    }
  }

  /** Received in the order of the log and none of the command's left out, the command's
      share of what was received is its share of the log. */
  lemma {:induction false} SameShare(log: seq<Event>, es: seq<Event>, n: nat, id: string)
    requires Retention.Stamped(log) && Resuming.InOrder(log, es, n) && n <= |log|
    requires forall p :: 0 <= p < n && Exec.Mine(log[p], id) ==> log[p] in es
    ensures OfCommand(es, id) == OfCommand(log[..n], id)
    decreases n
  {
    hide Resuming.InOrder, Retention.Stamped, OfCommand;
    if n == 0 {
      assert es == [] && log[..0] == [] by { NoneReceived(log, es); }
    } else {
      assert log[..n] == log[..n - 1] + [log[n - 1]];
      OfSnoc(log[..n - 1], log[n - 1], id);
      if es != [] && es[|es| - 1].seqNo == n {
        var init := es[..|es| - 1];
        WithoutLast(log, es, n);
        OfSnoc(init, log[n - 1], id);
        SameShare(log, init, n - 1, id);
      } else {
        NotLast(log, es, n);
        SameShare(log, es, n - 1, id);
      }
    }
  }

  lemma NoneReceived(log: seq<Event>, es: seq<Event>)
    requires Resuming.InOrder(log, es, 0)
    ensures es == [] && log[..0] == []
  {
    ByPlace(log, es, 0);
  }

  lemma WithoutLast(log: seq<Event>, es: seq<Event>, n: nat)
    requires Retention.Stamped(log) && Resuming.InOrder(log, es, n) && 0 < n <= |log|
    requires es != [] && es[|es| - 1].seqNo == n
    ensures es == es[..|es| - 1] + [log[n - 1]] && Resuming.InOrder(log, es[..|es| - 1], n - 1)
    ensures forall p :: 0 <= p < n - 1 && log[p] in es ==> log[p] in es[..|es| - 1]
  {
    var init, last := es[..|es| - 1], |es| - 1;
    assert es[last] == log[n - 1] && es == init + [es[last]];
    forall i | 0 <= i < last ensures init[i] == es[i] && es[i].seqNo < n {
      assert es[i].seqNo < es[last].seqNo;
    }
    forall p | 0 <= p < n - 1 && log[p] in es ensures log[p] in init {
      assert log[p].seqNo == p + 1;
    }
  }

  lemma NotLast(log: seq<Event>, es: seq<Event>, n: nat)
    requires Retention.Stamped(log) && Resuming.InOrder(log, es, n) && 0 < n <= |log|
    requires es == [] || es[|es| - 1].seqNo != n
    ensures Resuming.InOrder(log, es, n - 1) && log[n - 1] !in es
  {
    forall i | 0 <= i < |es| ensures es[i].seqNo <= n - 1 {
      assert i < |es| - 1 ==> es[i].seqNo < es[|es| - 1].seqNo;
    }
  }

  // ---- a command's end, and its start ----

  lemma Announced(ws: seq<Exec.World>, acts: seq<Exec.Action>, j: nat, id: string)
    requires Exec.IsRun(ws, acts) && j < |ws| && Exec.Own(ws[j].log, id) != []
    ensures id in ws[j].cmds
  {
    Exec.Reachable(ws, acts, j);
  }

  /** A command whose end has been published has published all it ever will, and its end is
      the last of it. */
  lemma EndIsLast(ws: seq<Exec.World>, acts: seq<Exec.Action>, j: nat, id: string, q: nat)
    requires Exec.IsRun(ws, acts) && j < |ws|
    requires q < |Exec.Own(ws[j].log, id)| && Exec.Own(ws[j].log, id)[q].kind == Finished
    ensures id in ws[j].cmds && (ws[j].cmds[id].phase == Exec.Reported || ws[j].cmds[id].phase == Exec.Gone)
    ensures q == |Exec.Own(ws[j].log, id)| - 1
    ensures forall p :: 0 <= p < |Exec.Own(ws[j].log, id)| && Exec.Own(ws[j].log, id)[p].kind == Started ==> p == 0
  {
    hide Exec.IsRun, Exec.Own, Exec.DataOf, Concat;
    var own := Exec.Own(ws[j].log, id);
    Announced(ws, acts, j, id);
    Exec.EventsSoFar(ws, acts, j, id);
    assert q > 0 ==> own[1..][q - 1] == own[q] && own[q] in own[1..];
    Exec.EventsOfACommand(ws, acts, j, id);
  }

  /** With a command's start and end in the retained log, all it published lies between. */
  lemma AllBetween(ws: seq<Exec.World>, wacts: seq<Exec.Action>, j: nat, wire: Bytes -> Bytes, log: seq<Event>,
                   id: string, k0: nat, k: nat)
    requires Exec.IsRun(ws, wacts) && j < |ws| && Keeps(wire, Exec.Own(ws[j].log, id), OfCommand(log, id))
    requires k0 < |log| && log[k0].kind == Started && log[k0].execId == id
    requires k < |log| && log[k].kind == Finished && log[k].execId == id
    ensures id in ws[j].cmds && (ws[j].cmds[id].phase == Exec.Reported || ws[j].cmds[id].phase == Exec.Gone)
    ensures var own := Exec.Own(ws[j].log, id);
            && |OfCommand(log, id)| == |own| > 0
            && Carried(wire, own[0], log[k0]) && Carried(wire, own[|own| - 1], log[k])
    ensures forall p :: 0 <= p < |log| && Exec.Mine(log[p], id) ==> k0 <= p <= k
  {
    hide Exec.IsRun, Exec.Own, OfCommand;
    OfAt(log, id, k0);
    OfAt(log, id, k);
    var own, q0, q := Exec.Own(ws[j].log, id), |OfCommand(log[..k0], id)|, |OfCommand(log[..k], id)|;
    assert Carried(wire, own[q0], OfCommand(log, id)[q0]) && Carried(wire, own[q], OfCommand(log, id)[q]);
    EndIsLast(ws, wacts, j, id, q);
    NoneOutside(log, id, k0, k);
  }

  lemma NoneOutside(log: seq<Event>, id: string, k0: nat, k: nat)
    requires k0 < |log| && k < |log| && OfCommand(log[..k0], id) == [] && OfCommand(log[k + 1..], id) == []
    ensures forall p :: 0 <= p < |log| && Exec.Mine(log[p], id) ==> k0 <= p <= k
  {
    hide OfCommand;
    forall p | 0 <= p < |log| && Exec.Mine(log[p], id) ensures k0 <= p <= k {
      if p < k0 {
        OfHas(log[..k0], id, p);
      } else if p > k {
        OfHas(log[k + 1..], id, p - k - 1);
      }
    }
  }

  // ---- the page ----

  /** What the page is handed: everything it received, encoded once more on the way. */
  function Page(wire: Bytes -> Bytes, s: Resuming.Sys): seq<Event> {
    EncodedAll(wire, AllGot(Resuming.Sessions(s)))
  }

  /** Each chunk of a stream reaches the page with what the page takes out of it gone. */
  lemma {:induction false} WholeText(strip: Bytes -> Bytes, es: seq<Event>, kind: Kind, id: string)
    requires kind == Stdout || kind == Stderr
    ensures Screen.TextOf(Screen.Whole(strip, es), kind, id)
            == Concat(Each(strip, Exec.DataOf(OfCommand(es, id), kind)))
  {
    hide Screen.TextOf, Screen.Whole, Exec.DataOf, OfCommand, Concat, Screen.ReduceEvent;
    if es == [] {
      NothingDrawn(strip, kind, id);
    } else {
      var init, e := es[..|es| - 1], es[|es| - 1];
      WholeText(strip, init, kind, id);
      WholeNext(strip, es);
      Screen.ReduceText(strip, Screen.Whole(strip, init), e, kind, id);
      assert es == init + [e];
      var chunks := Exec.DataOf(OfCommand(init, id), kind);
      OfSnoc(init, e, id);
      DataSnoc(OfCommand(init, id), e, kind);
      assert Each(strip, chunks + [e.data]) == Each(strip, chunks) + [strip(e.data)];
      ConcatSnoc(Each(strip, chunks), strip(e.data));
      NothingMore(chunks, OfCommand(init, id));
      NothingMore(Each(strip, chunks), []);
    }
  }

  lemma NothingDrawn(strip: Bytes -> Bytes, kind: Kind, id: string)
    ensures Screen.TextOf(Screen.Whole(strip, []), kind, id)
            == Concat(Each(strip, Exec.DataOf(OfCommand([], id), kind))) == []
  {
  }

  lemma WholeNext(strip: Bytes -> Bytes, es: seq<Event>)
    requires es != []
    ensures Screen.Whole(strip, es) == Screen.ReduceEvent(strip, Screen.Whole(strip, es[..|es| - 1]), es[|es| - 1])
  {
  }

  lemma NothingMore(chunks: seq<Bytes>, es: seq<Event>)
    ensures chunks + [] == chunks && es + [] == es && Concat(chunks) + [] == Concat(chunks)
  {
  }

  /** What of the whole page is no longer on it. */
  function Dropped(items: seq<Screen.Item>): seq<Screen.Item> {
    items[..|items| - |Screen.Trim(items)|]
  }

  /** Some of the stream's output is no longer on the page. */
  predicate ScrolledOff(strip: Bytes -> Bytes, es: seq<Event>, kind: Kind, id: string) {
    exists x :: x in Dropped(Screen.Whole(strip, es)) && Screen.SameStream(x, kind, id)
  }

  lemma {:induction false} TextAppend(a: seq<Screen.Item>, b: seq<Screen.Item>, kind: Kind, id: string)
    ensures Screen.TextOf(a + b, kind, id) == Screen.TextOf(a, kind, id) + Screen.TextOf(b, kind, id)
  {
    if b == [] {
      assert a + b == a;
    } else {
      var init := Screen.Init(b);
      assert Screen.Init(a + b) == a + init && Screen.Last(a + b) == Screen.Last(b);
      TextAppend(a, init, kind, id);
    }
  }

  lemma {:induction false} NoText(items: seq<Screen.Item>, kind: Kind, id: string)
    requires forall x :: x in items && x.Output? ==> x.text != []
    ensures Screen.TextOf(items, kind, id) == [] <==> !exists x :: x in items && Screen.SameStream(x, kind, id)
  {
    if items != [] {
      NoText(Screen.Init(items), kind, id);
      assert items == Screen.Init(items) + [Screen.Last(items)];
    }
  }

  /** What is still on the page is all of a stream exactly when none of it scrolled off. */
  lemma StillThere(strip: Bytes -> Bytes, es: seq<Event>, kind: Kind, id: string)
    ensures Screen.TextOf(Screen.Drawn(strip, es), kind, id) == Screen.TextOf(Screen.Whole(strip, es), kind, id)
            <==> !ScrolledOff(strip, es, kind, id)
  {
    hide Screen.TextOf, Screen.Merged, Screen.Whole, Screen.Drawn, Screen.Trim;
    var whole := Screen.Whole(strip, es);
    var off := Dropped(whole);
    Screen.DrawnIsTail(strip, es);
    TailAndRest(whole);
    TextAppend(off, Screen.Trim(whole), kind, id);
    Screen.WholeMerged(strip, es);
    NoneEmpty(whole);
    NoText(off, kind, id);
  }

  lemma TailAndRest(items: seq<Screen.Item>)
    ensures items == Dropped(items) + Screen.Trim(items)
  {
  }

  lemma NoneEmpty(items: seq<Screen.Item>)
    requires Screen.Merged(items)
    ensures forall x :: x in Dropped(items) && x.Output? ==> x.text != []
  {
    forall x | x in Dropped(items) && x.Output? ensures x.text != [] {
      assert x in items;
    }
  }

  predicate TextsValid(items: seq<Screen.Item>, kind: Kind, id: string) {
    forall x :: x in items && Screen.SameStream(x, kind, id) ==> Valid(x.text)
  }

  lemma ReduceValid(strip: Bytes -> Bytes, items: seq<Screen.Item>, e: Event, kind: Kind, id: string)
    requires TextsValid(items, kind, id) && (e.execId == id ==> Valid(strip(e.data)))
    ensures TextsValid(Screen.ReduceEvent(strip, items, e), kind, id)
  {
    hide Valid;
    if items != [] && Screen.SameStream(Screen.Last(items), kind, id) && e.execId == id {
      assert Screen.Last(items) in items;
      ValidConcat(Screen.Last(items).text, strip(e.data));
    }
    assert items != [] ==> forall x :: x in Screen.Init(items) ==> x in items;
  }

  lemma {:induction false} WholeValid(strip: Bytes -> Bytes, es: seq<Event>, kind: Kind, id: string)
    requires forall e :: e in es ==> Valid(strip(e.data))
    ensures TextsValid(Screen.Whole(strip, es), kind, id)
  {
    if es != [] {
      WholeValid(strip, Screen.Init(es), kind, id);
      assert Screen.Last(es) in es;
      hide TextsValid, Valid;
      ReduceValid(strip, Screen.Whole(strip, Screen.Init(es)), Screen.Last(es), kind, id);
    }
  }

  lemma {:induction false} TextValid(items: seq<Screen.Item>, kind: Kind, id: string)
    requires TextsValid(items, kind, id)
    ensures Valid(Screen.TextOf(items, kind, id))
  {
    if items != [] {
      TextValid(Screen.Init(items), kind, id);
      assert Screen.Last(items) in items;
      if Screen.SameStream(Screen.Last(items), kind, id) {
        ValidConcat(Screen.TextOf(Screen.Init(items), kind, id), Screen.Last(items).text);
      }
      hide Valid;
      assert Screen.TextOf(Screen.Init(items), kind, id) + [] == Screen.TextOf(Screen.Init(items), kind, id);
    }
  }

  lemma DrawnValid(strip: Bytes -> Bytes, es: seq<Event>, kind: Kind, id: string)
    requires forall e :: e in es ==> Valid(strip(e.data))
    ensures Valid(Screen.TextOf(Screen.Drawn(strip, es), kind, id))
  {
    WholeValid(strip, es, kind, id);
    Screen.DrawnIsTail(strip, es);
    TextValid(Screen.Drawn(strip, es), kind, id);
  }

  // ---- end to end ----

  /** A page watched a command from its start to its end: no frame of the command's was lost
      on the way to the retained log, where its start is event `k0 + 1` and its end event
      `k + 1`, and the page received everything between the two. */
  ghost predicate Watched(ws: seq<Exec.World>, wacts: seq<Exec.Action>, j: nat,
                          ss: seq<Resuming.Sys>, acts: seq<Resuming.Action>, i: nat,
                          wire: Bytes -> Bytes, id: string, k0: nat, k: nat)
  {
    && Exec.IsRun(ws, wacts) && j < |ws| && Resuming.IsRun(ss, acts) && i < |ss| && IsWire(wire) && id != ""
    && var log := ss[i].log;
       && Keeps(wire, Exec.Own(ws[j].log, id), OfCommand(log, id))
       && k0 < |log| && log[k0].kind == Started && log[k0].execId == id
       && k < |log| && log[k].kind == Finished && log[k].execId == id
       && SpanReceived(log, Resuming.AllReals(Resuming.Sessions(ss[i])), k0, k)
  }

  /** Before anything scrolls off, the page shows the chunks the command published, as the
      wire has them and with what the page takes out gone. */
  lemma WholeShows(ws: seq<Exec.World>, wacts: seq<Exec.Action>, j: nat,
                   ss: seq<Resuming.Sys>, acts: seq<Resuming.Action>, i: nat,
                   wire: Bytes -> Bytes, strip: Bytes -> Bytes, id: string, k0: nat, k: nat, kind: Kind)
    requires Watched(ws, wacts, j, ss, acts, i, wire, id, k0, k) && (kind == Stdout || kind == Stderr)
    ensures id in ws[j].cmds && (ws[j].cmds[id].phase == Exec.Reported || ws[j].cmds[id].phase == Exec.Gone)
    ensures Screen.TextOf(Screen.Whole(strip, Page(wire, ss[i])), kind, id)
            == Concat(Each(strip, Each(wire, Exec.DataOf(Exec.Own(ws[j].log, id), kind))))
  {
    hide Exec.IsRun, Exec.Own, Exec.DataOf, Resuming.IsRun, Resuming.Sessions, Screen.TextOf, Screen.Whole;
    hide Concat, AllGot, OfCommand, Resuming.AllReals, Resuming.Chained, Resuming.InOrder, IsWire, Retention.Stamped;
    var s := ss[i];
    var log, past := s.log, Resuming.Sessions(s);
    var own, kept := Exec.Own(ws[j].log, id), OfCommand(log, id);
    AllBetween(ws, wacts, j, wire, log, id, k0, k);
    PageHas(ss, acts, i, id, k0, k);
    DataEncoded(wire, own, kept, kind);
    OfEncoded(wire, AllGot(past), id);
    DataEncoded(wire, kept, EncodedAll(wire, kept), kind);
    WireTwice(wire, Exec.DataOf(own, kind));
    WholeText(strip, Page(wire, s), kind, id);
  }

  /** The command's share of what the page received is its share of the log. */
  lemma PageHas(ss: seq<Resuming.Sys>, acts: seq<Resuming.Action>, i: nat, id: string, k0: nat, k: nat)
    requires Resuming.IsRun(ss, acts) && i < |ss| && id != ""
    requires SpanReceived(ss[i].log, Resuming.AllReals(Resuming.Sessions(ss[i])), k0, k)
    requires forall p :: 0 <= p < |ss[i].log| && Exec.Mine(ss[i].log[p], id) ==> k0 <= p <= k
    ensures OfCommand(AllGot(Resuming.Sessions(ss[i])), id) == OfCommand(ss[i].log, id)
  {
    hide Resuming.IsRun, Resuming.Sessions, Resuming.AllReals, Resuming.Chained, Retention.IsOldest, OfCommand;
    var s := ss[i];
    var log, es := s.log, Resuming.AllReals(Resuming.Sessions(s));
    Resuming.Reachable(ss, acts, i);
    Resuming.SessionsChained(s);
    GotOf(s.id, log, Resuming.Sessions(s), id);
    Resuming.NeverRepeated(ss, acts, i);
    assert Resuming.InOrder(log, es, |log|);
    assert log[..|log|] == log;
    SameShare(log, es, |log|, id);
  }

  /** What the page shows of one stream of the command. */
  function Shown(wire: Bytes -> Bytes, s: Resuming.Sys, id: string, kind: Kind): Bytes {
    Screen.TextOf(Screen.Drawn(StripAnsi, Page(wire, s)), kind, id)
  }

  /** A page that watched a command from its start to its end shows a stream of its output
      byte for byte exactly when the output is well-formed text, none of it has scrolled off,
      and no chunk of it holds anything that the page takes out: however often its connection
      was lost, however the output was read in pieces, and whatever else ran, was stopped, or
      was said by the hub beside it. */
  lemma OutputReachesThePage(ws: seq<Exec.World>, wacts: seq<Exec.Action>, j: nat,
                             ss: seq<Resuming.Sys>, acts: seq<Resuming.Action>, i: nat,
                             wire: Bytes -> Bytes, id: string, k0: nat, k: nat, kind: Kind)
    requires Watched(ws, wacts, j, ss, acts, i, wire, id, k0, k) && (kind == Stdout || kind == Stderr)
    ensures id in ws[j].cmds
    ensures var printed := Concat(Exec.GotOf(ws[j].cmds[id], kind));
            Shown(wire, ss[i], id, kind) == printed
            <==> && Valid(printed)
                 && !ScrolledOff(StripAnsi, Page(wire, ss[i]), kind, id)
                 && forall c :: c in Exec.DataOf(Exec.Own(ws[j].log, id), kind) ==> StripAnsi(c) == c
  {
    hide Exec.IsRun, Exec.Own, Exec.DataOf, Resuming.IsRun, Screen.TextOf, Screen.Whole, Screen.Drawn;
    hide Concat, ScrolledOff, Valid, Keeps, SpanReceived, StripAnsi;
    var page, chunks := Page(wire, ss[i]), Exec.DataOf(Exec.Own(ws[j].log, id), kind);
    WholeShows(ws, wacts, j, ss, acts, i, wire, StripAnsi, id, k0, k, kind);
    Exec.EventsOfACommand(ws, wacts, j, id);
    var printed := Concat(Exec.GotOf(ws[j].cmds[id], kind));
    assert printed == Concat(chunks);
    StillThere(StripAnsi, page, kind, id);
    ShownValid(wire, ss[i], id, kind);
    if Valid(printed) {
      Exec.ChunksWellFormed(ws, wacts, j, id, kind);
      assert Each(wire, chunks) == chunks;
      PiecesUnchanged(chunks);
      ShownIsLess(wire, ss[i], id, kind);
    }
  }

  /** Whatever was printed, what the page shows of it is well-formed. */
  lemma ShownValid(wire: Bytes -> Bytes, s: Resuming.Sys, id: string, kind: Kind)
    requires IsWire(wire)
    ensures Valid(Shown(wire, s, id, kind))
  {
    hide Valid, StripAnsi, Screen.TextOf, Screen.Drawn;
    forall e | e in Page(wire, s) ensures Valid(StripAnsi(e.data)) {
      StripValid(e.data);
    }
    DrawnValid(StripAnsi, Page(wire, s), kind, id);
  }

  /** What is still on the page is no longer than all that was drawn. */
  lemma ShownIsLess(wire: Bytes -> Bytes, s: Resuming.Sys, id: string, kind: Kind)
    ensures |Shown(wire, s, id, kind)| <= |Screen.TextOf(Screen.Whole(StripAnsi, Page(wire, s)), kind, id)|
    ensures |Shown(wire, s, id, kind)| == |Screen.TextOf(Screen.Whole(StripAnsi, Page(wire, s)), kind, id)|
            ==> Shown(wire, s, id, kind) == Screen.TextOf(Screen.Whole(StripAnsi, Page(wire, s)), kind, id)
  {
    hide Screen.TextOf, Screen.Whole, Screen.Drawn, StripAnsi;
    var whole := Screen.Whole(StripAnsi, Page(wire, s));
    Screen.DrawnIsTail(StripAnsi, Page(wire, s));
    TailAndRest(whole);
    TextAppend(Dropped(whole), Screen.Trim(whole), kind, id);
  }

  /** When no cut between the chunks shows, and nothing has scrolled off, what such a page
      shows is what stripping the whole output at once would leave: of the output itself, if
      it is well-formed, and else of what the wire made of it. */
  lemma StrippedOutputShown(ws: seq<Exec.World>, wacts: seq<Exec.Action>, j: nat,
                            ss: seq<Resuming.Sys>, acts: seq<Resuming.Action>, i: nat,
                            wire: Bytes -> Bytes, id: string, k0: nat, k: nat, kind: Kind)
    requires Watched(ws, wacts, j, ss, acts, i, wire, id, k0, k) && (kind == Stdout || kind == Stderr)
    requires CutsOk(Each(wire, Exec.DataOf(Exec.Own(ws[j].log, id), kind)))
    requires !ScrolledOff(StripAnsi, Page(wire, ss[i]), kind, id)
    ensures id in ws[j].cmds
    ensures var printed := Concat(Exec.GotOf(ws[j].cmds[id], kind));
            var sent := Concat(Each(wire, Exec.DataOf(Exec.Own(ws[j].log, id), kind)));
            && Shown(wire, ss[i], id, kind) == StripAnsi(sent)
            && (Valid(printed) ==> sent == printed)
  {
    hide Exec.IsRun, Exec.Own, Exec.DataOf, Resuming.IsRun, Screen.TextOf, Screen.Whole, Screen.Drawn;
    hide Concat, ScrolledOff, Valid, Keeps, SpanReceived, StripAnsi, CutsOk;
    var chunks := Exec.DataOf(Exec.Own(ws[j].log, id), kind);
    var sent := Each(wire, chunks);
    WholeShows(ws, wacts, j, ss, acts, i, wire, StripAnsi, id, k0, k, kind);
    Exec.EventsOfACommand(ws, wacts, j, id);
    StillThere(StripAnsi, Page(wire, ss[i]), kind, id);
    PiecesExactly(sent);
    assert sent[..|sent|] == sent;
    if Valid(Concat(Exec.GotOf(ws[j].cmds[id], kind))) {
      Exec.ChunksWellFormed(ws, wacts, j, id, kind);
      assert sent == chunks;
    }
  }

  /** A command that prints a byte no text contains: whatever the page shows, it is not
      that byte. */
  lemma StrayByteNeverShown(ws: seq<Exec.World>, wacts: seq<Exec.Action>, j: nat,
                            ss: seq<Resuming.Sys>, acts: seq<Resuming.Action>, i: nat,
                            wire: Bytes -> Bytes, id: string, k0: nat, k: nat)
    requires Watched(ws, wacts, j, ss, acts, i, wire, id, k0, k)
    requires id in ws[j].cmds && ws[j].cmds[id].out.got == [[0xFF]]
    ensures Shown(wire, ss[i], id, Stdout) != [0xFF]
  {
    hide Watched, Shown;
    assert [[0xFF as bv8]][1..] == [];
    assert Concat([[0xFF]]) == [0xFF];
    assert !Valid([0xFF]);
    OutputReachesThePage(ws, wacts, j, ss, acts, i, wire, id, k0, k, Stdout);
  }

  /** Among the events, the command's start with this line and directory. */
  ghost predicate StartAmong(es: seq<Event>, wire: Bytes -> Bytes, id: string, line: Bytes, workDir: Bytes) {
    exists e :: e in es && e.kind == Started && e.execId == id && e.command == wire(line) && e.workDir == wire(workDir)
  }

  /** Among the events, the command's end, telling of this outcome. */
  ghost predicate EndAmong(es: seq<Event>, wire: Bytes -> Bytes, id: string, outcome: Exec.Outcome) {
    exists e :: e in es && e.kind == Finished && e.execId == id
                && match outcome
                   case Exited(code) => e.exitCode == code
                   case TimedOut(time) => e.exitCode == -1 && e.reason == wire(Ascii("timed out after ") + time)
                   case Stopped => e.exitCode == -1 && e.reason == wire(Ascii("stopped before completion"))
  }

  /** Such a page is also told the command line and directory the command was announced with,
      and how it ended: its own code, or -1 and why. */
  lemma NoticesReachThePage(ws: seq<Exec.World>, wacts: seq<Exec.Action>, j: nat,
                            ss: seq<Resuming.Sys>, acts: seq<Resuming.Action>, i: nat,
                            wire: Bytes -> Bytes, id: string, k0: nat, k: nat)
    returns (line: Bytes, workDir: Bytes, outcome: Exec.Outcome)
    requires Watched(ws, wacts, j, ss, acts, i, wire, id, k0, k)
    ensures Exec.Announce(id, line, workDir) in wacts && Exec.Report(id, outcome) in wacts
    ensures StartAmong(Page(wire, ss[i]), wire, id, line, workDir)
    ensures EndAmong(Page(wire, ss[i]), wire, id, outcome)
  {
    hide Exec.IsRun, Exec.Own, Resuming.IsRun, Resuming.AllReals, Resuming.Sessions, OfCommand, Exec.DataOf, Concat;
    hide Ascii, Keeps, AllGot, Valid, Page, StartAmong, EndAmong;
    var log, own := ss[i].log, Exec.Own(ws[j].log, id);
    AllBetween(ws, wacts, j, wire, log, id, k0, k);
    assert Exec.Mine(log[k0], id) && Exec.Mine(log[k], id);
    OnThePage(wire, ss[i], log[k0]);
    OnThePage(wire, ss[i], log[k]);
    line, workDir := StartIn(ws, wacts, j, id);
    outcome := EndIn(ws, wacts, j, id);
    StartSeen(Page(wire, ss[i]), wire, id, own[0], log[k0], line, workDir);
    EndSeen(Page(wire, ss[i]), wire, id, own[|own| - 1], log[k], outcome);
  }

  lemma StartIn(ws: seq<Exec.World>, wacts: seq<Exec.Action>, j: nat, id: string)
    returns (line: Bytes, workDir: Bytes)
    requires Exec.IsRun(ws, wacts) && j < |ws| && Exec.Own(ws[j].log, id) != []
    ensures Exec.Announce(id, line, workDir) in wacts
    ensures var e := Exec.Own(ws[j].log, id)[0];
            e.kind == Started && e.execId == id && e.command == line && e.workDir == workDir
  {
    hide Exec.Own, Exec.Apply, Exec.Enabled;
    var m;
    m, line, workDir := ExecTold.StartTold(ws, wacts, j, id);
  }

  lemma EndIn(ws: seq<Exec.World>, wacts: seq<Exec.Action>, j: nat, id: string)
    returns (outcome: Exec.Outcome)
    requires Exec.IsRun(ws, wacts) && j < |ws|
    requires id in ws[j].cmds && (ws[j].cmds[id].phase == Exec.Reported || ws[j].cmds[id].phase == Exec.Gone)
    ensures Exec.Report(id, outcome) in wacts && Exec.Own(ws[j].log, id) != []
    ensures var own := Exec.Own(ws[j].log, id);
            var e := own[|own| - 1];
            && e.kind == Finished && e.execId == id
            && match outcome
               case Exited(code) => e.exitCode == code
               case TimedOut(time) => e.exitCode == -1 && e.reason == Ascii("timed out after ") + time
               case Stopped => e.exitCode == -1 && e.reason == Ascii("stopped before completion")
  {
    hide Exec.Own, Exec.Apply, Exec.Enabled, Ascii;
    var m;
    m, outcome := ExecTold.EndTold(ws, wacts, j, id);
  }

  lemma StartSeen(page: seq<Event>, wire: Bytes -> Bytes, id: string, sent: Event, e: Event, line: Bytes, workDir: Bytes)
    requires IsWire(wire) && Carried(wire, sent, e) && Encoded(wire, e) in page
    requires sent.kind == Started && sent.execId == id && sent.command == line && sent.workDir == workDir
    ensures StartAmong(page, wire, id, line, workDir)
  {
    hide Valid;
  }

  lemma EndSeen(page: seq<Event>, wire: Bytes -> Bytes, id: string, sent: Event, e: Event, outcome: Exec.Outcome)
    requires IsWire(wire) && Carried(wire, sent, e) && Encoded(wire, e) in page
    requires sent.kind == Finished && sent.execId == id
    requires match outcome
             case Exited(code) => sent.exitCode == code
             case TimedOut(time) => sent.exitCode == -1 && sent.reason == Ascii("timed out after ") + time
             case Stopped => sent.exitCode == -1 && sent.reason == Ascii("stopped before completion")
    ensures EndAmong(page, wire, id, outcome)
  {
    hide Valid, Ascii;
  }

  /** Whatever was received is on the page, encoded. */
  lemma OnThePage(wire: Bytes -> Bytes, s: Resuming.Sys, e: Event)
    requires e in Resuming.AllReals(Resuming.Sessions(s))
    ensures Encoded(wire, e) in Page(wire, s)
  {
    hide Resuming.Sessions;
    var got := AllGot(Resuming.Sessions(s));
    RealsAreGot(Resuming.Sessions(s), e);
    var n :| 0 <= n < |got| && got[n] == e;
    assert EncodedAll(wire, got)[n] == Encoded(wire, e);
  }

  lemma {:induction false} RealsAreGot(past: seq<Resuming.Session>, e: Event)
    requires e in Resuming.AllReals(past)
    ensures e in AllGot(past)
  {
    var init, got := past[..|past| - 1], past[|past| - 1].got;
    if e in Resuming.AllReals(init) {
      RealsAreGot(init, e);
    } else {
      RealIsGot(got, e);
    }
  }

  lemma {:induction false} RealIsGot(got: seq<Event>, e: Event)
    requires e in Resuming.Reals(got)
    ensures e in got
  {
    if e in Resuming.Reals(got[..|got| - 1]) {
      RealIsGot(got[..|got| - 1], e);
    }
  }
}
