/** A sandbox's events on their way to the page: encoded as text twice, and joined in the
    retained log by what the hub itself has to say about the sandbox. */
module Transport {
  import opened Utf8
  import opened Chunks
  import opened Events
  import Exec

  /** What encoding bytes as text makes of them: well-formed text stays as it is, and
      whatever is not comes out as some well-formed text instead. */
  ghost predicate IsWire(wire: Bytes -> Bytes) {
    forall b :: Valid(wire(b)) && (Valid(b) ==> wire(b) == b)
  }

  function Encoded(wire: Bytes -> Bytes, e: Event): Event {
    e.(data := wire(e.data), command := wire(e.command), workDir := wire(e.workDir), reason := wire(e.reason))
  }

  function EncodedAll(wire: Bytes -> Bytes, es: seq<Event>): seq<Event> {
    seq(|es|, i requires 0 <= i < |es| => Encoded(wire, es[i]))
  }

  /** An event that says nothing but text is not changed on the way. */
  lemma TextPasses(wire: Bytes -> Bytes, e: Event)
    requires IsWire(wire) && Valid(e.data) && Valid(e.command) && Valid(e.workDir) && Valid(e.reason)
    ensures Encoded(wire, e) == e
  {
    hide Valid;
  }

  // ---- one command's share of a sequence of events ----

  function OfCommand(es: seq<Event>, id: string): seq<Event> {
    if es == [] then []
    else OfCommand(es[..|es| - 1], id) + if Exec.Mine(es[|es| - 1], id) then [es[|es| - 1]] else []
  }

  lemma {:induction false} OfAppend(a: seq<Event>, b: seq<Event>, id: string)
    ensures OfCommand(a + b, id) == OfCommand(a, id) + OfCommand(b, id)
  {
    if b == [] {
      assert a + b == a;
    } else {
      var init := b[..|b| - 1];
      assert (a + b)[..|a + b| - 1] == a + init;
      OfAppend(a, init, id);
    }
  }

  lemma OfSnoc(es: seq<Event>, e: Event, id: string)
    ensures OfCommand(es + [e], id) == OfCommand(es, id) + if Exec.Mine(e, id) then [e] else []
  {
    assert (es + [e])[..|es|] == es;
  }

  lemma {:induction false} OfHas(es: seq<Event>, id: string, k: nat)
    requires k < |es| && Exec.Mine(es[k], id)
    ensures OfCommand(es, id) != []
  {
    if k < |es| - 1 {
      OfHas(es[..|es| - 1], id, k);
    }
  }

  /** Where an event of the command stands in the command's share. */
  lemma OfAt(es: seq<Event>, id: string, k: nat)
    requires k < |es| && Exec.Mine(es[k], id)
    ensures var n := |OfCommand(es[..k], id)|;
            && OfCommand(es, id) == OfCommand(es[..k], id) + [es[k]] + OfCommand(es[k + 1..], id)
            && n < |OfCommand(es, id)| && OfCommand(es, id)[n] == es[k]
  {
    assert es == es[..k] + [es[k]] + es[k + 1..];
    OfAppend(es[..k] + [es[k]], es[k + 1..], id);
    OfSnoc(es[..k], es[k], id);
  }

  lemma {:induction false} OfEncoded(wire: Bytes -> Bytes, es: seq<Event>, id: string)
    ensures OfCommand(EncodedAll(wire, es), id) == EncodedAll(wire, OfCommand(es, id))
  {
    if es != [] {
      var init, e := es[..|es| - 1], es[|es| - 1];
      OfEncoded(wire, init, id);
      assert es == init + [e];
      assert EncodedAll(wire, es) == EncodedAll(wire, init) + [Encoded(wire, e)];
      OfSnoc(init, e, id);
      OfSnoc(EncodedAll(wire, init), Encoded(wire, e), id);
    }
  }

  lemma DataSnoc(es: seq<Event>, e: Event, kind: Kind)
    ensures Exec.DataOf(es + [e], kind) == Exec.DataOf(es, kind) + if e.kind == kind then [e.data] else []
  {
    assert (es + [e])[..|es|] == es;
  }

  lemma {:induction false} DataEncoded(wire: Bytes -> Bytes, es: seq<Event>, fs: seq<Event>, kind: Kind)
    requires |es| == |fs|
    requires forall i :: 0 <= i < |es| ==> fs[i].kind == es[i].kind && fs[i].data == wire(es[i].data)
    ensures Exec.DataOf(fs, kind) == Each(wire, Exec.DataOf(es, kind))
  {
    if es != [] {
      var n := |es| - 1;
      DataEncoded(wire, es[..n], fs[..n], kind);
      assert es == es[..n] + [es[n]] && fs == fs[..n] + [fs[n]];
      DataSnoc(es[..n], es[n], kind);
      DataSnoc(fs[..n], fs[n], kind);
    }
  }

  /** Text that has been on the wire does not change on it again. */
  lemma WireTwice(wire: Bytes -> Bytes, chunks: seq<Bytes>)
    requires IsWire(wire)
    ensures Each(wire, Each(wire, chunks)) == Each(wire, chunks)
  {
  }

  /** There are such encodings. */
  lemma SomeWire()
    ensures IsWire((b: Bytes) => if Valid(b) then b else [])
  {
  }

  // ---- the sandbox's own log, against the retained one ----

  /** Published by the hub itself: a block, a release, or the loss of the worker. */
  predicate ByHub(e: Event) { e.execId == "" && (e.kind == Killed || e.kind == Blocked || e.kind == Released) }

  predicate Carried(wire: Bytes -> Bytes, sent: Event, e: Event) {
    e.(seqNo := 0, sandboxId := "") == Encoded(wire, sent)
  }

  /** The retained log is what the sandbox published, in order, stamped and encoded, with
      the hub's own events anywhere in between. */
  ghost predicate Interleaved(wire: Bytes -> Bytes, entries: seq<Exec.Entry>, log: seq<Event>)
    decreases |log|
  {
    if log == [] then entries == []
    else
      var e, init := log[|log| - 1], log[..|log| - 1];
      || (ByHub(e) && Interleaved(wire, entries, init))
      || (entries != [] && Carried(wire, entries[|entries| - 1].event, e)
          && Interleaved(wire, entries[..|entries| - 1], init))
  }

  /** The command's share of the retained log is what it published so far. */
  ghost predicate Keeps(wire: Bytes -> Bytes, own: seq<Event>, kept: seq<Event>) {
    |kept| <= |own| && forall i :: 0 <= i < |kept| ==> Carried(wire, own[i], kept[i])
  }

  lemma {:induction false} InterleavedAll(wire: Bytes -> Bytes, entries: seq<Exec.Entry>, log: seq<Event>, id: string)
    requires Interleaved(wire, entries, log) && id != ""
    ensures |OfCommand(log, id)| == |Exec.Own(entries, id)| && Keeps(wire, Exec.Own(entries, id), OfCommand(log, id))
    decreases |log|
  {
    if log != [] {
      var e, init := log[|log| - 1], log[..|log| - 1];
      if ByHub(e) && Interleaved(wire, entries, init) {
        InterleavedAll(wire, entries, init, id);
      } else {
        InterleavedAll(wire, entries[..|entries| - 1], init, id);
      }
    }
  }

  /** Whatever the hub says in between, and however much is still on its way, the command's
      share is in order. */
  lemma InterleavedKeeps(wire: Bytes -> Bytes, entries: seq<Exec.Entry>, m: nat, log: seq<Event>, id: string)
    requires m <= |entries| && Interleaved(wire, entries[..m], log) && id != ""
    ensures Keeps(wire, Exec.Own(entries, id), OfCommand(log, id))
  {
    InterleavedAll(wire, entries[..m], log, id);
    assert entries == entries[..m] + entries[m..];
    Exec.OwnAppend(entries[..m], entries[m..], id);
  }
}
