/** What happens in a sandbox, as the watchers are told. */
module Events {
  import opened Utf8

  datatype Kind = Started | Stdout | Stderr | Finished | Killed | Blocked | Released | Gap

  /** One event; the fields a kind does not use are left empty. Zero is the sequence
      number of an event nobody has stamped. */
  datatype Event = Event(
    seqNo: nat,
    sandboxId: string,
    kind: Kind,
    execId: string,
    data: Bytes,
    command: Bytes,
    workDir: Bytes,
    exitCode: int,
    truncated: bool,
    byActor: string,
    reason: Bytes,
    missed: nat)

  const Blank := Event(0, "", Gap, "", [], [], [], 0, false, "", [], 0)

  predicate IsOutput(e: Event) { e.kind == Stdout || e.kind == Stderr }

  const FixedOverhead := 256

  /** What an event costs the retention budget. */
  function Size(e: Event): (n: nat)
    ensures n >= FixedOverhead
  {
    |e.data| + |e.command| + |e.workDir| + |e.reason| + FixedOverhead
  }

  function TotalSize(es: seq<Event>): nat {
    if es == [] then 0 else Size(es[0]) + TotalSize(es[1..])
  }

  lemma {:induction false} TotalSizeAppend(a: seq<Event>, b: seq<Event>)
    ensures TotalSize(a + b) == TotalSize(a) + TotalSize(b)
  {
    if a == [] {
      assert a + b == b;
    } else {
      assert (a + b)[1..] == a[1..] + b;
      TotalSizeAppend(a[1..], b);
    }
  }

  lemma TotalSizeSnoc(es: seq<Event>, e: Event)
    ensures TotalSize(es + [e]) == TotalSize(es) + Size(e)
  {
    TotalSizeAppend(es, [e]);
    assert [e][1..] == [];
  }

  /** The bytes of text that events hold. */
  function TextBytes(es: seq<Event>): nat {
    if es == [] then 0
    else |es[0].data| + |es[0].command| + |es[0].workDir| + |es[0].reason| + TextBytes(es[1..])
  }

  /** An event costs its text and 256 bytes more. */
  lemma {:induction false} TotalSizeInBytes(es: seq<Event>)
    ensures TotalSize(es) == 256 * |es| + TextBytes(es)
  {
    if es != [] {
      TotalSizeInBytes(es[1..]);
    }
  }
}
