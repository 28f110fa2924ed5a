/** Copying a command's output to its result and to the watchers, in whole characters. */
module Pumping {
  import opened Utf8
  import opened Chunks
  import opened CappedOutput
  import opened Events

  /** A pump between two reads: the bytes held back, and the chunks published so far. */
  datatype PumpState = PumpState(carry: Bytes, chunks: seq<Bytes>)

  const Fresh := PumpState([], [])

  function Emit(chunks: seq<Bytes>, chunk: Bytes): seq<Bytes> {
    if chunk == [] then chunks else chunks + [chunk]
  }

  /** One read returning `got`. */
  function OnRead(st: PumpState, got: Bytes): PumpState {
    if got == [] then st
    else
      var chunk := st.carry + got;
      var p := SplitPoint(chunk);
      PumpState(chunk[p..], Emit(st.chunks, chunk[..p]))
  }

  /** The read that returned an error, after its bytes have been taken. */
  function OnEof(st: PumpState): PumpState {
    PumpState([], Emit(st.chunks, st.carry))
  }

  /** The pump after a run of reads. */
  function AfterReads(pieces: seq<Bytes>): PumpState {
    if pieces == [] then Fresh
    else OnRead(AfterReads(pieces[..|pieces| - 1]), pieces[|pieces| - 1])
  }

  /** Everything the pump publishes for a stream read to its end. */
  function Published(pieces: seq<Bytes>): seq<Bytes> {
    OnEof(AfterReads(pieces)).chunks
  }

  function ChunkEvent(kind: Kind, execId: string, chunk: Bytes): Event {
    Blank.(kind := kind, execId := execId, data := chunk)
  }

  function ChunkEvents(kind: Kind, execId: string, chunks: seq<Bytes>): seq<Event> {
    seq(|chunks|, i requires 0 <= i < |chunks| => ChunkEvent(kind, execId, chunks[i]))
  }

  function NonEmpty(pieces: seq<Bytes>): seq<Bytes> {
    if pieces == [] then []
    else
      var init := NonEmpty(pieces[..|pieces| - 1]);
      if pieces[|pieces| - 1] == [] then init else init + [pieces[|pieces| - 1]]
  }

  /** Where a sandbox's events go. */
  class EventSink {
    var events: seq<Event>

    constructor ()
      ensures events == []
    {
      events := [];
    }

    method Publish(e: Event)
      modifies this
      ensures events == old(events) + [e]
    {
      events := events + [e];
    }
  }

  /** The bytes of one read: into the result, and on to the watchers up to the last
      whole character. */
  method Take(got: Bytes, carry: Bytes, kind: Kind, execId: string, sink: CappedBuffer, bus: EventSink,
              ghost chunks: seq<Bytes>) returns (tail: Bytes)
    requires got != [] && sink.Valid()
    modifies sink, bus
    ensures sink.Valid() && sink.writes == old(sink.writes) + [got]
    ensures var next := OnRead(PumpState(carry, chunks), got);
            && tail == next.carry
            && forall was :: old(bus.events) == was + ChunkEvents(kind, execId, chunks)
                             ==> bus.events == was + ChunkEvents(kind, execId, next.chunks)
  {
    var _ := sink.Write(got);
    var emit, rest := SplitCompleteRunes(carry + got);
    if |emit| > 0 {
      ChunkEventsSnoc(kind, execId, chunks, emit);
      bus.Publish(ChunkEvent(kind, execId, emit));
    }
    return rest;
  }

  /** Pumps one stream to its end. `pieces` is what each read returns; the last one
      comes with the error that ends the stream. */
  method Pump(pieces: seq<Bytes>, kind: Kind, execId: string, sink: CappedBuffer, bus: EventSink)
    requires pieces != []
    requires sink.Valid()
    modifies sink, bus
    ensures sink.Valid() && sink.writes == old(sink.writes) + NonEmpty(pieces)
    ensures bus.events == old(bus.events) + ChunkEvents(kind, execId, Published(pieces))
  {
    hide Valid, SplitPoint, SetsTruncated, Kept, AfterReads, NonEmpty, ChunkEvents;
    NoReads();
    var carry: Bytes := [];
    ghost var st := Fresh;
    ghost var was := bus.events;
    var i := 0;
    while true
      invariant 0 <= i < |pieces| && st == AfterReads(pieces[..i])
      invariant sink.Valid() && sink.writes == old(sink.writes) + NonEmpty(pieces[..i])
      invariant carry == st.carry
      invariant bus.events == was + ChunkEvents(kind, execId, st.chunks)
      decreases |pieces| - i
    {
      var got, atEnd := pieces[i], i == |pieces| - 1;
      TakeOne(pieces, i);
      if |got| > 0 {
        carry := Take(got, carry, kind, execId, sink, bus, st.chunks);
      }
      i, st := i + 1, OnRead(st, got);
      if atEnd {
        assert pieces[..i] == pieces;
        if |carry| > 0 {
          ChunkEventsSnoc(kind, execId, st.chunks, carry);
          bus.Publish(ChunkEvent(kind, execId, carry));
        }
        return;
      }
    }
  }

  lemma NoReads()
    ensures AfterReads([]) == Fresh && NonEmpty([]) == []
    ensures forall kind, execId :: ChunkEvents(kind, execId, []) == []
  {
  }

  lemma TakeOne(pieces: seq<Bytes>, i: nat)
    requires i < |pieces|
    ensures AfterReads(pieces[..i + 1]) == OnRead(AfterReads(pieces[..i]), pieces[i])
    ensures NonEmpty(pieces[..i + 1]) == NonEmpty(pieces[..i]) + if pieces[i] == [] then [] else [pieces[i]]
  {
    assert pieces[..i + 1][..i] == pieces[..i];
  }

  lemma ChunkEventsSnoc(kind: Kind, execId: string, chunks: seq<Bytes>, chunk: Bytes)
    ensures ChunkEvents(kind, execId, chunks + [chunk])
            == ChunkEvents(kind, execId, chunks) + [ChunkEvent(kind, execId, chunk)]
  {
  }

  // ---- what watchers can rely on ----

  lemma EmitConcat(chunks: seq<Bytes>, chunk: Bytes)
    ensures Concat(Emit(chunks, chunk)) == Concat(chunks) + chunk
  {
    ConcatSnoc(chunks, chunk);
  }

  lemma InitLast(pieces: seq<Bytes>)
    requires pieces != []
    ensures Concat(pieces) == Concat(pieces[..|pieces| - 1]) + pieces[|pieces| - 1]
  {
    assert pieces == pieces[..|pieces| - 1] + [pieces[|pieces| - 1]];
    ConcatSnoc(pieces[..|pieces| - 1], pieces[|pieces| - 1]);
  }

  lemma OnReadKeeps(st: PumpState, got: Bytes)
    ensures var next := OnRead(st, got);
            && Concat(next.chunks) + next.carry == Concat(st.chunks) + st.carry + got
            && (|st.carry| <= 3 ==> |next.carry| <= 3)
  {
    if got != [] {
      var chunk := st.carry + got;
      var p := SplitPoint(chunk);
      EmitConcat(st.chunks, chunk[..p]);
      assert Concat(st.chunks) + chunk[..p] + chunk[p..] == Concat(st.chunks) + chunk;
      assert Concat(st.chunks) + st.carry + got == Concat(st.chunks) + chunk;
    }
  }

  /** After any run of reads, published output plus what is held back is exactly what
      was read, and never more than three bytes are held back. */
  lemma {:induction false} NothingLost(pieces: seq<Bytes>)
    ensures var st := AfterReads(pieces);
            Concat(st.chunks) + st.carry == Concat(pieces) && |st.carry| <= 3
  {
    if pieces != [] {
      NothingLost(pieces[..|pieces| - 1]);
      InitLast(pieces);
      OnReadKeeps(AfterReads(pieces[..|pieces| - 1]), pieces[|pieces| - 1]);
    }
  }

  /** However the output was cut into reads, the chunks of a finished stream spell it. */
  lemma PublishedIsOutput(pieces: seq<Bytes>)
    ensures Concat(Published(pieces)) == Concat(pieces)
  {
    NothingLost(pieces);
    var st := AfterReads(pieces);
    EmitConcat(st.chunks, st.carry);
  }

  ghost predicate AllValid(chunks: seq<Bytes>) {
    forall i :: 0 <= i < |chunks| ==> Valid(chunks[i])
  }

  /** The pump has read `m` bytes of the text `all` and published up to the last
      character boundary among them. */
  ghost predicate AtBoundary(all: Bytes, m: nat, st: PumpState)
    requires Valid(all) && m <= |all|
  {
    && Concat(st.chunks) == all[..Floor(all, m)]
    && st.carry == all[Floor(all, m)..m]
    && AllValid(st.chunks)
  }

  lemma BoundaryStep(all: Bytes, m: nat, n: nat, st: PumpState)
    requires Valid(all) && m < n <= |all| && AtBoundary(all, m, st)
    ensures AtBoundary(all, n, OnRead(st, all[m..n]))
  {
    hide Valid, Floor, SplitPoint, CharLen;
    var p := Floor(all, m);
    var chunk := all[p..n];
    assert st.carry + all[m..n] == chunk;
    var q := CutFromBoundary(all, m, n);
    EmitConcat(st.chunks, chunk[..q]);
    assert all[..p] + chunk[..q] == all[..p + q];
    assert chunk[q..] == all[p + q..n];
  }

  /** From the last boundary on, the output is again well-formed text. */
  lemma CutFromBoundary(all: Bytes, m: nat, n: nat) returns (q: nat)
    requires Valid(all) && m <= n <= |all|
    ensures q == SplitPoint(all[Floor(all, m)..n]) && Floor(all, n) == Floor(all, m) + q
    ensures Valid(all[Floor(all, m)..n][..q])
  {
    hide Valid, Floor, SplitPoint, CharLen;
    var p := Floor(all, m);
    var text := all[p..];
    FloorIsLongest(all, m);
    assert all == all[..p] + text;
    ValidCancel(all[..p], text);
    assert text[..n - p] == all[p..n];
    SplitIsLongest(text, n - p);
    FloorShift(all, p, n);
    q := Floor(text, n - p);
    assert all[p..n][..q] == text[..q];
  }

  /** While well-formed output is being read, what has been published is its longest
      well-formed prefix, and every chunk is well-formed by itself. */
  lemma {:induction false} ChunksAreCharacters(pieces: seq<Bytes>, rest: Bytes)
    requires Valid(Concat(pieces) + rest)
    ensures AtBoundary(Concat(pieces) + rest, |Concat(pieces)|, AfterReads(pieces))
    decreases |pieces|
  {
    hide AtBoundary, Valid, Concat, OnRead;
    var all := Concat(pieces) + rest;
    if pieces == [] {
      NothingReadYet(rest);
    } else {
      var init, got := pieces[..|pieces| - 1], pieces[|pieces| - 1];
      InitLast(pieces);
      var m := |Concat(init)|;
      assert all == Concat(init) + (got + rest);
      ChunksAreCharacters(init, got + rest);
      if got == [] {
        NothingRead(AfterReads(init));
      } else {
        assert all[m..m + |got|] == got;
        BoundaryStep(all, m, m + |got|, AfterReads(init));
      }
    }
  }

  lemma NothingReadYet(all: Bytes)
    requires Valid(Concat([]) + all)
    ensures Concat([]) == [] && AtBoundary(Concat([]) + all, 0, AfterReads([]))
  {
  }

  lemma NothingRead(st: PumpState)
    ensures OnRead(st, []) == st
  {
  }

  /** The last boundary before `n` can be looked for from any earlier boundary. */
  lemma FloorShift(s: Bytes, p: nat, n: nat)
    requires Valid(s) && p <= n <= |s| && Valid(s[..p]) && Valid(s[p..])
    ensures Floor(s, n) == p + Floor(s[p..], n - p)
  {
    hide Floor, Valid;
    var t := s[p..];
    var f, g := Floor(t, n - p), Floor(s, n);
    FloorIsLongest(s, n);
    FloorIsLongest(t, n - p);
    LongestBeyond(s, p, n, f);
    LongestUnique(s, n, g, p + f);
  }

  /** For well-formed output every chunk published, the last included, is well-formed. */
  lemma PublishedAreCharacters(pieces: seq<Bytes>)
    requires Valid(Concat(pieces))
    ensures AllValid(Published(pieces))
  {
    var all := Concat(pieces);
    assert all + [] == all;
    ChunksAreCharacters(pieces, []);
    FloorIsLongest(all, |all|);
    assert all[..|all|] == all;
  }
}
