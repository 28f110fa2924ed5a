/** What the page draws from the events it receives. */
module Screen {
  import opened Utf8
  import opened Events
  import opened Ansi

  /** One line, block of output or notice on the page. */
  datatype Item = Output(kind: Kind, execId: string, text: Bytes, seqNo: nat) | Notice(event: Event)

  const MaxLines := 2000

  predicate SameStream(x: Item, kind: Kind, execId: string) { x.Output? && x.kind == kind && x.execId == execId }

  function Last<T>(s: seq<T>): T
    requires s != []
  {
    s[|s| - 1]
  }

  function Init<T>(s: seq<T>): seq<T>
    requires s != []
  {
    s[..|s| - 1]
  }

  /** Output of the stream last drawn joins what is there; `strip` takes out the colour
      codes of one chunk. */
  function AppendChunk(strip: Bytes -> Bytes, items: seq<Item>, e: Event): seq<Item> {
    var text := strip(e.data);
    if text == [] then items
    else if items != [] && SameStream(Last(items), e.kind, e.execId) then
      Init(items) + [Last(items).(text := Last(items).text + text, seqNo := e.seqNo)]
    else items + [Output(e.kind, e.execId, text, e.seqNo)]
  }

  function ReduceEvent(strip: Bytes -> Bytes, items: seq<Item>, e: Event): seq<Item> {
    if IsOutput(e) then AppendChunk(strip, items, e) else items + [Notice(e)]
  }

  function Trim(items: seq<Item>): seq<Item> {
    if |items| > MaxLines then items[|items| - MaxLines..] else items
  }

  /** The page after the events, with the oldest items dropped as it goes. */
  function Drawn(strip: Bytes -> Bytes, es: seq<Event>): seq<Item> {
    if es == [] then [] else Trim(ReduceEvent(strip, Drawn(strip, Init(es)), Last(es)))
  }

  /** The page had nothing ever been dropped. */
  function Whole(strip: Bytes -> Bytes, es: seq<Event>): seq<Item> {
    if es == [] then [] else ReduceEvent(strip, Whole(strip, Init(es)), Last(es))
  }

  lemma TrimThenReduce(strip: Bytes -> Bytes, items: seq<Item>, e: Event)
    ensures Trim(ReduceEvent(strip, Trim(items), e)) == Trim(ReduceEvent(strip, items, e))
  {
    hide ReduceEvent;
    if |items| > MaxLines {
      TailReduces(strip, items, e, |items| - MaxLines);
    }
  }

  /** Reducing sees the last item only. */
  lemma TailReduces(strip: Bytes -> Bytes, items: seq<Item>, e: Event, n: nat)
    requires n < |items|
    ensures |ReduceEvent(strip, items, e)| >= |items|
    ensures ReduceEvent(strip, items[n..], e) == ReduceEvent(strip, items, e)[n..]
  {
    assert Last(items[n..]) == Last(items);
    assert Init(items[n..]) == Init(items)[n..];
  }

  /** Dropping items as it goes leaves exactly the end of the whole page. */
  lemma {:induction false} DrawnIsTail(strip: Bytes -> Bytes, es: seq<Event>)
    ensures Drawn(strip, es) == Trim(Whole(strip, es))
    ensures var n := |Whole(strip, es)|;
            Drawn(strip, es) == if n > 2000 then Whole(strip, es)[n - 2000..] else Whole(strip, es)
  {
    if es != [] {
      DrawnIsTail(strip, Init(es));
      TrimThenReduce(strip, Whole(strip, Init(es)), Last(es));
    }
  }

  // ---- what a page says, whatever it is cut into ----

  /** A notice is told without the number of its event, which the page does not draw. */
  datatype Mark = Letter(kind: Kind, execId: string, letter: bv8) | Told(event: Event)

  function Letters(kind: Kind, execId: string, text: Bytes): seq<Mark> {
    seq(|text|, i requires 0 <= i < |text| => Letter(kind, execId, text[i]))
  }

  function Unnumbered(e: Event): Event { e.(seqNo := 0) }

  function SpellItem(x: Item): seq<Mark> {
    match x
    case Output(kind, execId, text, _) => Letters(kind, execId, text)
    case Notice(e) => [Told(Unnumbered(e))]
  }

  function Spell(items: seq<Item>): seq<Mark> {
    if items == [] then [] else Spell(Init(items)) + SpellItem(Last(items))
  }

  /** What one event adds to what is said. */
  function Adds(strip: Bytes -> Bytes, e: Event): seq<Mark> {
    if e.kind == Stdout || e.kind == Stderr then Letters(e.kind, e.execId, strip(e.data)) else [Told(e.(seqNo := 0))]
  }

  /** What the events say, chunk boundaries apart. */
  function Said(strip: Bytes -> Bytes, es: seq<Event>): seq<Mark> {
    if es == [] then []
    else Said(strip, Init(es)) + Adds(strip, Last(es))
  }

  lemma LettersAppend(kind: Kind, execId: string, a: Bytes, b: Bytes)
    ensures Letters(kind, execId, a + b) == Letters(kind, execId, a) + Letters(kind, execId, b)
  {
  }

  lemma SpellSnoc(items: seq<Item>, x: Item)
    ensures Spell(items + [x]) == Spell(items) + SpellItem(x)
  {
    assert Init(items + [x]) == items;
  }

  lemma ReduceSays(strip: Bytes -> Bytes, items: seq<Item>, e: Event)
    ensures Spell(ReduceEvent(strip, items, e)) == Spell(items) + Adds(strip, e)
  {
    hide Spell;
    if IsOutput(e) && strip(e.data) != [] && items != [] && SameStream(Last(items), e.kind, e.execId) {
      var last := Last(items);
      SpellSnoc(Init(items), last.(text := last.text + strip(e.data), seqNo := e.seqNo));
      SpellSnoc(Init(items), last);
      assert items == Init(items) + [last];
      LettersAppend(e.kind, e.execId, last.text, strip(e.data));
    } else if IsOutput(e) && strip(e.data) != [] {
      SpellSnoc(items, Output(e.kind, e.execId, strip(e.data), e.seqNo));
    } else if !IsOutput(e) {
      SpellSnoc(items, Notice(e));
    }
  }

  /** The page says what the events said: every letter of every stream and every notice,
      in order, and nothing else. */
  lemma {:induction false} WholeSays(strip: Bytes -> Bytes, es: seq<Event>)
    ensures Spell(Whole(strip, es)) == Said(strip, es)
  {
    if es != [] {
      WholeSays(strip, Init(es));
      ReduceSays(strip, Whole(strip, Init(es)), Last(es));
    }
  }

  /** No empty block, and no two neighbours that could be one. */
  ghost predicate Merged(items: seq<Item>) {
    && (forall i :: 0 <= i < |items| && items[i].Output? ==> items[i].text != [])
    && (forall i :: 0 < i < |items| && items[i].Output? ==> !SameStream(items[i - 1], items[i].kind, items[i].execId))
  }

  lemma {:induction false} WholeMerged(strip: Bytes -> Bytes, es: seq<Event>)
    ensures Merged(Whole(strip, es))
  {
    if es != [] {
      WholeMerged(strip, Init(es));
    }
  }

  /** What of an item shows: everything but the number of the event it came from. */
  function LookOf(x: Item): Item { if x.Output? then x.(seqNo := 0) else Notice(Unnumbered(x.event)) }

  function Look(items: seq<Item>): seq<Item> {
    seq(|items|, i requires 0 <= i < |items| => LookOf(items[i]))
  }

  lemma LastLetterSame(a: seq<Item>, b: seq<Item>)
    requires a != [] && b != [] && Merged(a) && Merged(b) && Spell(a) == Spell(b)
    ensures Last(Spell(a)) == Last(SpellItem(Last(a))) == Last(SpellItem(Last(b)))
    ensures Last(a).Output? ==> SameStream(Last(b), Last(a).kind, Last(a).execId)
    ensures Last(a).Notice? ==> Last(b).Notice? && LookOf(Last(b)) == LookOf(Last(a))
  {
    assert SpellItem(Last(a)) != [] && SpellItem(Last(b)) != [];
    assert Last(Spell(a)) == Last(SpellItem(Last(a)));
    assert Last(Spell(b)) == Last(SpellItem(Last(b)));
  }

  /** What comes before the last block is not of its stream. */
  lemma BlockBegins(a: seq<Item>)
    requires a != [] && Merged(a) && Last(a).Output? && |Spell(a)| > |Last(a).text|
    ensures var m := Spell(a)[|Spell(a)| - |Last(a).text| - 1];
            m.Letter? ==> m.kind != Last(a).kind || m.execId != Last(a).execId
  {
    var init := Init(a);
    assert init != [] && SpellItem(Last(init)) != [];
    assert Spell(a)[|Spell(a)| - |Last(a).text| - 1] == Last(Spell(init)) == Last(SpellItem(Last(init)));
    assert Last(init) == a[|a| - 2];
  }

  lemma NotShorter(a: seq<Item>, b: seq<Item>)
    requires a != [] && b != [] && Merged(a) && Merged(b) && Spell(a) == Spell(b)
    requires Last(a).Output? && Last(b).Output? && Last(a).kind == Last(b).kind && Last(a).execId == Last(b).execId
    ensures |Last(a).text| >= |Last(b).text|
  {
    hide Merged, Spell;
    var all, x, y := Spell(a), Last(a), Last(b);
    SpellsLast(a);
    SpellsLast(b);
    if |all| > |x.text| {
      BlockBegins(a);
    }
  }

  lemma SameTail(all: seq<Mark>, x: Item, y: Item)
    requires x.Output? && SameStream(y, x.kind, x.execId) && |x.text| == |y.text| <= |all|
    requires all[|all| - |x.text|..] == SpellItem(x) == SpellItem(y)
    ensures x.text == y.text
  {
    forall i | 0 <= i < |x.text| ensures x.text[i] == y.text[i] {
      assert SpellItem(x)[i] == SpellItem(y)[i];
    }
  }

  lemma SpellsLast(a: seq<Item>)
    requires a != [] && Last(a).Output?
    ensures |Last(a).text| <= |Spell(a)| && Spell(a)[|Spell(a)| - |Last(a).text|..] == SpellItem(Last(a))
  {
  }

  lemma SameLook(x: Item, y: Item)
    requires if x.Output? then SameStream(y, x.kind, x.execId) && x.text == y.text else y.Notice? && LookOf(x) == LookOf(y)
    ensures Look([x]) == Look([y]) && SpellItem(x) == SpellItem(y)
  {
  }

  /** The last items of two merged pages that say the same differ in number at most. */
  lemma SameLast(a: seq<Item>, b: seq<Item>)
    requires a != [] && b != [] && Merged(a) && Merged(b) && Spell(a) == Spell(b)
    ensures Look([Last(a)]) == Look([Last(b)]) && SpellItem(Last(a)) == SpellItem(Last(b))
  {
    hide Merged, Look;
    LastLetterSame(a, b);
    if Last(a).Output? {
      NotShorter(a, b);
      NotShorter(b, a);
      SpellsLast(a);
      SpellsLast(b);
      hide Spell, SpellItem;
      SameTail(Spell(a), Last(a), Last(b));
    }
    SameLook(Last(a), Last(b));
  }

  /** Only a page with nothing on it says nothing. */
  lemma NothingSaid(a: seq<Item>)
    requires Merged(a)
    ensures Spell(a) == [] <==> a == []
  {
    if a != [] {
      assert SpellItem(Last(a)) != [];
    }
  }

  lemma LookTrim(a: seq<Item>)
    ensures Look(Trim(a)) == Trim(Look(a))
  {
  }

  lemma LookSnoc(a: seq<Item>)
    requires a != []
    ensures Look(a) == Look(Init(a)) + Look([Last(a)])
  {
  }

  /** Two merged pages that say the same look the same. */
  lemma {:induction false} MergedUnique(a: seq<Item>, b: seq<Item>)
    requires Merged(a) && Merged(b) && Spell(a) == Spell(b)
    ensures Look(a) == Look(b)
    decreases |a|
  {
    NothingSaid(a);
    NothingSaid(b);
    if a != [] {
      SameLast(a, b);
      assert Merged(Init(a)) && Merged(Init(b));
      hide Look, Merged, SpellItem;
      var n := |Spell(a)| - |SpellItem(Last(a))|;
      assert Spell(Init(a)) == Spell(a)[..n] && Spell(Init(b)) == Spell(b)[..n];
      MergedUnique(Init(a), Init(b));
      LookSnoc(a);
      LookSnoc(b);
    }
  }

  lemma {:induction false} SpellLook(items: seq<Item>)
    ensures Spell(Look(items)) == Spell(items)
  {
    if items != [] {
      SpellLook(Init(items));
      LookSnoc(items);
      SpellSnoc(Look(Init(items)), Look([Last(items)])[0]);
    }
  }

  /** Two pages look the same exactly when the events behind them say the same. */
  lemma LookIsSaid(strip: Bytes -> Bytes, es: seq<Event>, fs: seq<Event>)
    ensures Look(Whole(strip, es)) == Look(Whole(strip, fs)) <==> Said(strip, es) == Said(strip, fs)
  {
    hide Look, Spell, Whole, Said, Merged;
    var a, b := Whole(strip, es), Whole(strip, fs);
    WholeSays(strip, es);
    WholeSays(strip, fs);
    WholeMerged(strip, es);
    WholeMerged(strip, fs);
    if Said(strip, es) == Said(strip, fs) {
      MergedUnique(a, b);
    }
    SpellLook(a);
    SpellLook(b);
  }

  // ---- which cuts show ----

  /** Takes nothing out. */
  function Raw(b: Bytes): Bytes { b }

  /** The event that would have drawn an item. */
  function EventOf(x: Item): Event {
    match x
    case Output(kind, execId, text, n) => Blank.(seqNo := n, kind := kind, execId := execId, data := text)
    case Notice(e) => e
  }

  function Joined(items: seq<Item>): seq<Event> {
    if items == [] then [] else Joined(Init(items)) + [EventOf(Last(items))]
  }

  /** The same events with each uninterrupted run of one stream in a single chunk. */
  function Uncut(es: seq<Event>): seq<Event> { Joined(Whole(Raw, es)) }

  /** Event `n` carries on the run of output before it. */
  predicate IsCut(es: seq<Event>, n: nat)
    requires n < |es|
  {
    var before := Whole(Raw, es[..n]);
    IsOutput(es[n]) && es[n].data != [] && before != [] && SameStream(Last(before), es[n].kind, es[n].execId)
  }

  /** The run of output that event `n` carries on. */
  function RunBefore(es: seq<Event>, n: nat): Bytes
    requires n < |es| && IsCut(es, n)
  {
    Last(Whole(Raw, es[..n])).text
  }

  predicate CutHolds(strip: Bytes -> Bytes, es: seq<Event>, n: nat)
    requires n < |es|
  {
    IsCut(es, n) ==> strip(RunBefore(es, n) + es[n].data) == strip(RunBefore(es, n)) + strip(es[n].data)
  }

  lemma SaidSnoc(strip: Bytes -> Bytes, es: seq<Event>, e: Event)
    ensures Said(strip, es + [e]) == Said(strip, es) + Adds(strip, e)
  {
    assert Init(es + [e]) == es;
  }

  ghost predicate Drawable(items: seq<Item>) {
    forall x :: x in items ==> if x.Output? then x.kind == Stdout || x.kind == Stderr else !IsOutput(x.event)
  }

  lemma {:induction false} WholeDrawable(strip: Bytes -> Bytes, es: seq<Event>)
    ensures Drawable(Whole(strip, es))
  {
    if es != [] {
      WholeDrawable(strip, Init(es));
    }
  }

  function SaidJoined(strip: Bytes -> Bytes, items: seq<Item>): seq<Mark> { Said(strip, Joined(items)) }

  lemma JoinedSnoc(strip: Bytes -> Bytes, items: seq<Item>, x: Item)
    ensures SaidJoined(strip, items + [x]) == SaidJoined(strip, items) + Adds(strip, EventOf(x))
  {
    assert Init(items + [x]) == items;
    SaidSnoc(strip, Joined(items), EventOf(x));
  }

  lemma LettersEqual(kind: Kind, execId: string, a: Bytes, b: Bytes)
    ensures Letters(kind, execId, a) == Letters(kind, execId, b) <==> a == b
  {
    if Letters(kind, execId, a) == Letters(kind, execId, b) {
      forall i | 0 <= i < |a| ensures a[i] == b[i] {
        assert Letters(kind, execId, a)[i] == Letters(kind, execId, b)[i];
      }
    }
  }

  lemma WholeSnoc(es: seq<Event>, e: Event)
    ensures Whole(Raw, es + [e]) == ReduceEvent(Raw, Whole(Raw, es), e)
  {
    assert Init(es + [e]) == es;
  }

  /** An event after a page that looks uncut leaves it so exactly when its cut holds. */
  lemma CutStep(strip: Bytes -> Bytes, es: seq<Event>, n: nat)
    requires n < |es| && strip([]) == [] && Said(strip, es[..n]) == Said(strip, Uncut(es[..n]))
    ensures Said(strip, es[..n + 1]) == Said(strip, Uncut(es[..n + 1])) <==> CutHolds(strip, es, n)
  {
    hide Said, Joined, Whole;
    var e, before := es[n], Whole(Raw, es[..n]);
    assert es[..n + 1] == es[..n] + [e];
    SaidSnoc(strip, es[..n], e);
    WholeSnoc(es[..n], e);
    if IsCut(es, n) {
      var last := Last(before);
      assert before == Init(before) + [last];
      JoinedSnoc(strip, Init(before), last);
      JoinedSnoc(strip, Init(before), last.(text := last.text + e.data, seqNo := e.seqNo));
      CutMerges(strip, SaidJoined(strip, Init(before)), e, last.text);
    } else if IsOutput(e) && e.data == [] {
      assert Adds(strip, e) == [];
    } else {
      JoinedSnoc(strip, before, if IsOutput(e) then Output(e.kind, e.execId, e.data, e.seqNo) else Notice(e));
    }
  }

  lemma CutMerges(strip: Bytes -> Bytes, said: seq<Mark>, e: Event, run: Bytes)
    ensures said + Letters(e.kind, e.execId, strip(run)) + Letters(e.kind, e.execId, strip(e.data))
            == said + Letters(e.kind, e.execId, strip(run + e.data))
            <==> strip(run + e.data) == strip(run) + strip(e.data)
  {
    LettersAppend(e.kind, e.execId, strip(run), strip(e.data));
    LettersEqual(e.kind, e.execId, strip(run + e.data), strip(run) + strip(e.data));
    var x, y := Letters(e.kind, e.execId, strip(run) + strip(e.data)), Letters(e.kind, e.execId, strip(run + e.data));
    assert said + Letters(e.kind, e.execId, strip(run)) + Letters(e.kind, e.execId, strip(e.data)) == said + x;
    assert (said + x)[|said|..] == x && (said + y)[|said|..] == y;
  }

  lemma NothingUncut(strip: Bytes -> Bytes)
    ensures Said(strip, []) == Said(strip, Uncut([]))
  {
  }

  lemma {:induction false} CutsUpTo(strip: Bytes -> Bytes, es: seq<Event>, m: nat)
    requires m <= |es| && strip([]) == []
    ensures (forall n :: 0 <= n <= m ==> LooksUncut(strip, es[..n])) <==> forall n :: 0 <= n < m ==> CutHolds(strip, es, n)
  {
    hide Said, Uncut, CutHolds, LooksUncut;
    LooksUncutIs(strip, es[..m]);
    if m == 0 {
      NothingUncut(strip);
      assert es[..0] == [];
    } else {
      CutsUpTo(strip, es, m - 1);
      LooksUncutIs(strip, es[..m - 1]);
      if LooksUncut(strip, es[..m - 1]) {
        CutStep(strip, es, m - 1);
      }
    }
  }

  predicate LooksUncut(strip: Bytes -> Bytes, es: seq<Event>) {
    Look(Whole(strip, es)) == Look(Whole(strip, Uncut(es)))
  }

  lemma LooksUncutIs(strip: Bytes -> Bytes, es: seq<Event>)
    ensures LooksUncut(strip, es) <==> Said(strip, es) == Said(strip, Uncut(es))
  {
    LookIsSaid(strip, es, Uncut(es));
  }

  /** The page looks at every moment as if output came uncut exactly when every cut in it
      falls where cutting does not show. */
  lemma CutsShowExactly(es: seq<Event>)
    ensures (forall n :: 0 <= n <= |es| ==> LooksUncut(StripAnsi, es[..n]))
            <==> forall n :: 0 <= n < |es| && IsCut(es, n) ==> CutOk(RunBefore(es, n), es[n].data)
  {
    CutsUpTo(StripAnsi, es, |es|);
    forall n | 0 <= n < |es|
      ensures CutHolds(StripAnsi, es, n) <==> (IsCut(es, n) ==> CutOk(RunBefore(es, n), es[n].data))
    {
      if IsCut(es, n) {
        CutExactly(RunBefore(es, n), es[n].data);
      }
    }
  }

  /** A colour code cut in two is drawn. */
  lemma CutShows(id: string)
    ensures var a, b := [Esc, Bracket, 0x33], [0x31, 0x6D, 0x58]; // ESC [ 3, then 1 m X
            var cut := [ChunkOf(id, a), ChunkOf(id, b)];
            && Look(Drawn(StripAnsi, cut)) == [Output(Stdout, id, a + b, 0)]
            && Look(Drawn(StripAnsi, [ChunkOf(id, a + b)])) == [Output(Stdout, id, [0x58], 0)]
  {
    hide StripAnsi, Drawn;
    ColourCut();
    var a, b: Bytes := [Esc, Bracket, 0x33], [0x31, 0x6D, 0x58];
    DrawnOne(id, a);
    DrawnOne(id, a + b);
    DrawnTwo(id, a, b);
    hide ChunkOf;
    assert Look([Output(Stdout, id, a + b, 0)]) == [Output(Stdout, id, a + b, 0)];
    assert Look([Output(Stdout, id, [0x58], 0)]) == [Output(Stdout, id, [0x58], 0)];
  }

  lemma DrawnOne(id: string, a: Bytes)
    requires StripAnsi(a) != []
    ensures Drawn(StripAnsi, [ChunkOf(id, a)]) == [Output(Stdout, id, StripAnsi(a), 0)]
  {
    hide StripAnsi;
    assert Init([ChunkOf(id, a)]) == [];
  }

  lemma DrawnTwo(id: string, a: Bytes, b: Bytes)
    requires StripAnsi(a) != [] && StripAnsi(b) != []
    ensures Drawn(StripAnsi, [ChunkOf(id, a), ChunkOf(id, b)]) == [Output(Stdout, id, StripAnsi(a) + StripAnsi(b), 0)]
  {
    hide StripAnsi;
    DrawnOne(id, a);
    assert Init([ChunkOf(id, a), ChunkOf(id, b)]) == [ChunkOf(id, a)];
  }

  function ChunkOf(id: string, data: Bytes): Event { Blank.(kind := Stdout, execId := id, data := data) }

  lemma {:induction false} JoinedLook(strip: Bytes -> Bytes, a: seq<Item>, b: seq<Item>)
    requires Look(a) == Look(b) && Drawable(a) && Drawable(b)
    ensures SaidJoined(strip, a) == SaidJoined(strip, b)
    decreases |a|
  {
    assert |a| == |Look(a)| == |Look(b)| == |b|;
    if a != [] {
      LookSnoc(a);
      LookSnoc(b);
      assert Look(a)[|a| - 1] == Look(b)[|a| - 1];
      assert Look(Init(a)) == Look(a)[..|a| - 1] && Look(Init(b)) == Look(b)[..|a| - 1];
      JoinedLook(strip, Init(a), Init(b));
      assert a == Init(a) + [Last(a)] && b == Init(b) + [Last(b)];
      JoinedSnoc(strip, Init(a), Last(a));
      JoinedSnoc(strip, Init(b), Last(b));
      assert Adds(strip, EventOf(Last(a))) == Adds(strip, EventOf(Last(b)));
    }
  }

  /** Events that bring the same text of each stream and the same notices in the same order
      draw the same page, when no cut in them shows. */
  lemma CutsNeverShow(es: seq<Event>, fs: seq<Event>)
    requires Said(Raw, es) == Said(Raw, fs)
    requires forall n :: 0 <= n < |es| && IsCut(es, n) ==> CutOk(RunBefore(es, n), es[n].data)
    requires forall n :: 0 <= n < |fs| && IsCut(fs, n) ==> CutOk(RunBefore(fs, n), fs[n].data)
    ensures Look(Drawn(StripAnsi, es)) == Look(Drawn(StripAnsi, fs))
  {
    hide Look, Trim, Said, Whole, Drawn, IsCut, CutOk, RunBefore;
    CutsShowExactly(es);
    CutsShowExactly(fs);
    assert es[..|es|] == es && fs[..|fs|] == fs;
    LookIsSaid(Raw, es, fs);
    WholeDrawable(Raw, es);
    WholeDrawable(Raw, fs);
    JoinedLook(StripAnsi, Whole(Raw, es), Whole(Raw, fs));
    LookIsSaid(StripAnsi, Uncut(es), Uncut(fs));
    DrawnIsTail(StripAnsi, es);
    DrawnIsTail(StripAnsi, fs);
    LookTrim(Whole(StripAnsi, es));
    LookTrim(Whole(StripAnsi, fs));
  }

  /** Output in one chunk or in two, and a notice after it whose number differs for that. */
  lemma OneChunkOrTwo(id: string, a: Bytes, b: Bytes, end: Event)
    requires a != [] && b != [] && CutOk(a, b) && !IsOutput(end)
    ensures Look(Drawn(StripAnsi, [ChunkOf(id, a).(seqNo := 1), ChunkOf(id, b).(seqNo := 2), end.(seqNo := 3)]))
            == Look(Drawn(StripAnsi, [ChunkOf(id, a + b).(seqNo := 1), end.(seqNo := 2)]))
  {
    var x, y, z := ChunkOf(id, a).(seqNo := 1), ChunkOf(id, b).(seqNo := 2), ChunkOf(id, a + b).(seqNo := 1);
    var es, fs := [x, y, end.(seqNo := 3)], [z, end.(seqNo := 2)];
    SameSaid(id, a, b, end);
    CutsOfThree(x, y, end.(seqNo := 3));
    CutsOfTwo(z, end.(seqNo := 2));
    hide StripAnsi, CutOk, Drawn, Look, Said, IsCut, RunBefore;
    CutsNeverShow(es, fs);
  }

  lemma SameSaid(id: string, a: Bytes, b: Bytes, end: Event)
    requires !IsOutput(end)
    ensures Said(Raw, [ChunkOf(id, a).(seqNo := 1), ChunkOf(id, b).(seqNo := 2), end.(seqNo := 3)])
            == Said(Raw, [ChunkOf(id, a + b).(seqNo := 1), end.(seqNo := 2)])
  {
    var x, y, z := ChunkOf(id, a).(seqNo := 1), ChunkOf(id, b).(seqNo := 2), ChunkOf(id, a + b).(seqNo := 1);
    hide Said;
    SaidTwo(x, y);
    SaidSnoc(Raw, [x, y], end.(seqNo := 3));
    assert [x, y] + [end.(seqNo := 3)] == [x, y, end.(seqNo := 3)];
    SaidTwo(z, end.(seqNo := 2));
    LettersAppend(Stdout, id, a, b);
  }

  lemma SaidTwo(x: Event, y: Event)
    ensures Said(Raw, [x, y]) == Adds(Raw, x) + Adds(Raw, y)
  {
    hide Said, Adds;
    NothingSaidYet(Raw);
    SaidSnoc(Raw, [], x);
    SaidSnoc(Raw, [x], y);
    assert [] + [x] == [x] && [x] + [y] == [x, y];
  }

  lemma NothingSaidYet(strip: Bytes -> Bytes)
    ensures Said(strip, []) == [] && Whole(strip, []) == []
  {
  }

  /** The one cut among two chunks and a notice. */
  lemma CutsOfThree(x: Event, y: Event, end: Event)
    requires IsOutput(x) && x.data != [] && !IsOutput(end)
    ensures forall n :: 0 <= n < 3 && IsCut([x, y, end], n) ==> n == 1 && RunBefore([x, y, end], n) == x.data
  {
    hide Whole;
    var es := [x, y, end];
    NothingSaidYet(Raw);
    WholeSnoc([], x);
    assert es[..0] == [] && es[..1] == [] + [x];
  }

  lemma CutsOfTwo(z: Event, end: Event)
    requires !IsOutput(end)
    ensures forall n :: 0 <= n < 2 ==> !IsCut([z, end], n)
  {
    hide Whole;
    NothingSaidYet(Raw);
    assert [z, end][..0] == [];
  }

  /** The text of one stream of one command among the items. */
  function TextOf(items: seq<Item>, kind: Kind, execId: string): Bytes {
    if items == [] then []
    else TextOf(Init(items), kind, execId) + if SameStream(Last(items), kind, execId) then Last(items).text else []
  }

  lemma TextSnoc(items: seq<Item>, x: Item, kind: Kind, execId: string)
    ensures TextOf(items + [x], kind, execId)
            == TextOf(items, kind, execId) + if SameStream(x, kind, execId) then x.text else []
  {
    assert Init(items + [x]) == items;
  }

  /** An event adds its text to its own stream and leaves every other as it was. */
  lemma ReduceText(strip: Bytes -> Bytes, items: seq<Item>, e: Event, kind: Kind, execId: string)
    requires kind == Stdout || kind == Stderr
    ensures TextOf(ReduceEvent(strip, items, e), kind, execId)
            == TextOf(items, kind, execId) + if e.kind == kind && e.execId == execId then strip(e.data) else []
  {
    if !IsOutput(e) {
      TextSnoc(items, Notice(e), kind, execId);
    } else if strip(e.data) != [] {
      if items != [] && SameStream(Last(items), e.kind, e.execId) {
        TextSnoc(Init(items), Last(items).(text := Last(items).text + strip(e.data), seqNo := e.seqNo), kind, execId);
      } else {
        TextSnoc(items, Output(e.kind, e.execId, strip(e.data), e.seqNo), kind, execId);
      }
    }
  }
}
