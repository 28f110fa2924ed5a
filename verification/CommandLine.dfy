/** How a program and its arguments are shown to a watcher. */
module CommandLine {
  import opened Wrappers
  import opened Utf8
  import opened Chunks

  const Space: bv8 := 0x20
  const Quote: bv8 := 0x22
  const Backslash: bv8 := 0x5C

  /** Bytes that make an argument need quoting: space, tab, newline, either quote, and
      the backslash. */
  predicate IsSpecial(b: bv8) {
    b == Space || b == 0x09 || b == 0x0A || b == Quote || b == 0x27 || b == Backslash
  }

  predicate Plain(arg: Bytes) { forall i :: 0 <= i < |arg| ==> !IsSpecial(arg[i]) }

  function EscapeByte(b: bv8): Bytes { if b == Quote || b == Backslash then [Backslash, b] else [b] }

  /** Each quote and backslash gets a backslash before it. */
  function Escape(arg: Bytes): Bytes {
    if arg == [] then []
    else EscapeByte(arg[0]) + Escape(arg[1..])
  }

  function QuoteArg(arg: Bytes): Bytes {
    if arg == [] then [Quote, Quote]
    else if Plain(arg) then arg
    else [Quote] + Escape(arg) + [Quote]
  }

  function QuoteAll(args: seq<Bytes>): seq<Bytes> {
    if args == [] then [] else [QuoteArg(args[0])] + QuoteAll(args[1..])
  }

  /** The parts with a space between each two. */
  function Join(parts: seq<Bytes>): Bytes {
    if parts == [] then [] else if |parts| == 1 then parts[0] else parts[0] + [Space] + Join(parts[1..])
  }

  function Rendered(program: Bytes, args: seq<Bytes>): Bytes {
    Join(QuoteAll([program] + args))
  }

  // ---- how an argument is shown, byte by byte ----

  /** Every byte of the argument in turn, a backslash going before each double quote and each
      backslash. */
  function Escaped(arg: Bytes): seq<Bytes> {
    seq(|arg|, i requires 0 <= i < |arg| => if arg[i] == 0x22 || arg[i] == 0x5C then [0x5C, arg[i]] else [arg[i]])
  }

  /** An argument that is not empty and holds no space, tab, line feed, quote or backslash is
      shown as it is, and every other one between double quotes, escaped. */
  predicate ShownAs(arg: Bytes, part: Bytes) {
    if arg != [] && forall i :: 0 <= i < |arg| ==>
         arg[i] != 0x20 && arg[i] != 0x09 && arg[i] != 0x0A && arg[i] != 0x22 && arg[i] != 0x27 && arg[i] != 0x5C
    then part == arg
    else |part| >= 2 && part[0] == 0x22 && part[|part| - 1] == 0x22 && part[1..|part| - 1] == Concat(Escaped(arg))
  }

  /** The parts, in order, with one space before each but the first. */
  function Spaced(parts: seq<Bytes>): Bytes
    requires parts != []
  {
    parts[0] + Concat(seq(|parts| - 1, i requires 0 <= i < |parts| - 1 => [0x20] + parts[i + 1]))
  }

  lemma {:induction false} EscapeBytes(arg: Bytes)
    ensures Escape(arg) == Concat(Escaped(arg))
  {
    if arg != [] {
      EscapeBytes(arg[1..]);
      assert Escaped(arg) == [Escaped(arg)[0]] + Escaped(arg[1..]);
    }
  }

  lemma QuoteExactly(arg: Bytes)
    ensures ShownAs(arg, QuoteArg(arg))
  {
    EscapeBytes(arg);
    var quoted := [Quote] + Escape(arg) + [Quote];
    assert quoted[1..|quoted| - 1] == Escape(arg);
    assert [Quote, Quote][1..1] == [];
    assert arg == [] ==> Concat(Escaped(arg)) == [];
  }

  lemma {:induction false} JoinSpaced(parts: seq<Bytes>)
    requires parts != []
    ensures Join(parts) == Spaced(parts)
  {
    var gaps := seq(|parts| - 1, i requires 0 <= i < |parts| - 1 => [0x20] + parts[i + 1]);
    if |parts| == 1 {
      assert gaps == [];
    } else {
      JoinSpaced(parts[1..]);
      var rest := parts[1..];
      var more := seq(|rest| - 1, i requires 0 <= i < |rest| - 1 => [0x20] + rest[i + 1]);
      assert gaps == [[0x20] + parts[1]] + more;
      assert Concat(gaps) == [0x20] + parts[1] + Concat(more);
    }
  }

  /** The line that watchers are shown: the program and each argument as `ShownAs` has it,
      one space between every two. */
  method Render(program: Bytes, args: seq<Bytes>) returns (line: Bytes, ghost parts: seq<Bytes>)
    ensures line == Rendered(program, args)
    ensures |parts| == |args| + 1 && line == Spaced(parts)
    ensures ShownAs(program, parts[0]) && forall i :: 0 <= i < |args| ==> ShownAs(args[i], parts[i + 1])
  {
    hide QuoteArg, ShownAs;
    var built := [QuoteArg(program)];
    QuoteExactly(program);
    for i := 0 to |args|
      invariant built == QuoteAll([program] + args[..i]) && |built| == i + 1
      invariant ShownAs(program, built[0]) && forall k :: 0 <= k < i ==> ShownAs(args[k], built[k + 1])
    {
      QuoteAllAppend([program] + args[..i], args[i]);
      assert [program] + args[..i + 1] == [program] + args[..i] + [args[i]];
      QuoteExactly(args[i]);
      built := built + [QuoteArg(args[i])];
    }
    assert args[..|args|] == args;
    parts := built;
    JoinSpaced(parts);
    return Join(built), parts;
  }

  lemma {:induction false} QuoteAllAppend(args: seq<Bytes>, arg: Bytes)
    ensures QuoteAll(args + [arg]) == QuoteAll(args) + [QuoteArg(arg)]
  {
    if args == [] {
      assert args + [arg] == [arg];
    } else {
      assert (args + [arg])[1..] == args[1..] + [arg];
      QuoteAllAppend(args[1..], arg);
    }
  }

  // ---- reading a line back ----

  /** Reads a quoted argument after its opening quote: the argument, and what follows its
      closing quote. */
  function ReadQuoted(line: Bytes): (r: Option<(Bytes, Bytes)>)
    ensures r.Some? ==> |r.value.1| < |line|
  {
    if line == [] then None
    else if line[0] == Quote then Some(([], line[1..]))
    else if line[0] == Backslash then
      if |line| < 2 then None
      else match ReadQuoted(line[2..])
           case None => None
           case Some(r) => Some(([line[1]] + r.0, r.1))
    else match ReadQuoted(line[1..])
         case None => None
         case Some(r) => Some(([line[0]] + r.0, r.1))
  }

  /** Reads a bare argument up to the next space. */
  function ReadBare(line: Bytes): (r: (Bytes, Bytes))
    ensures |r.1| <= |line|
  {
    if line == [] || line[0] == Space then ([], line)
    else var r := ReadBare(line[1..]); ([line[0]] + r.0, r.1)
  }

  function ReadArg(line: Bytes): (r: Option<(Bytes, Bytes)>)
    ensures r.Some? ==> |r.value.1| <= |line|
  {
    if line != [] && line[0] == Quote then ReadQuoted(line[1..]) else Some(ReadBare(line))
  }

  /** Splits a line into its arguments; None if it is not a rendered line. */
  function Parse(line: Bytes): Option<seq<Bytes>>
    decreases |line|
  {
    match ReadArg(line)
    case None => None
    case Some((arg, rest)) =>
      if rest == [] then Some([arg])
      else if rest[0] != Space then None
      else match Parse(rest[1..])
           case None => None
           case Some(args) => Some([arg] + args)
  }

  lemma ReadsOneByte(b: bv8, tail: Bytes)
    ensures ReadQuoted(EscapeByte(b) + tail)
            == match ReadQuoted(tail)
               case None => None
               case Some(r) => Some(([b] + r.0, r.1))
  {
    assert (EscapeByte(b) + tail)[|EscapeByte(b)|..] == tail;
  }

  lemma {:induction false} ReadsEscaped(arg: Bytes, rest: Bytes)
    ensures ReadQuoted(Escape(arg) + [Quote] + rest) == Some((arg, rest))
  {
    if arg == [] {
      assert Escape(arg) + [Quote] + rest == [Quote] + rest;
    } else {
      ReadsEscaped(arg[1..], rest);
      ReadsOneByte(arg[0], Escape(arg[1..]) + [Quote] + rest);
      hide ReadQuoted;
      assert [arg[0]] + arg[1..] == arg;
      var head := EscapeByte(arg[0]);
      assert head + Escape(arg[1..]) + [Quote] + rest == head + (Escape(arg[1..]) + [Quote] + rest);
    }
  }

  lemma {:induction false} ReadsBare(arg: Bytes, rest: Bytes)
    requires Plain(arg) && (rest == [] || rest[0] == Space)
    ensures ReadBare(arg + rest) == (arg, rest)
  {
    if arg == [] {
      assert arg + rest == rest;
    } else {
      assert (arg + rest)[1..] == arg[1..] + rest;
      ReadsBare(arg[1..], rest);
      assert [arg[0]] + arg[1..] == arg;
    }
  }

  lemma EscapeEmpty()
    ensures Escape([]) == []
  {
  }

  lemma ReadsOne(arg: Bytes, rest: Bytes)
    requires rest == [] || rest[0] == Space
    ensures ReadArg(QuoteArg(arg) + rest) == Some((arg, rest))
    ensures QuoteArg(arg) != []
  {
    hide Escape, ReadBare, ReadQuoted;
    var line := QuoteArg(arg) + rest;
    if arg != [] && Plain(arg) {
      ReadsBare(arg, rest);
      assert line[0] == arg[0];
    } else {
      assert line[1..] == Escape(arg) + [Quote] + rest by { EscapeEmpty(); }
      ReadsEscaped(arg, rest);
    }
  }

  lemma {:induction false} ParsesAll(args: seq<Bytes>)
    requires args != []
    ensures Parse(Join(QuoteAll(args))) == Some(args)
    decreases |args|
  {
    var line := Join(QuoteAll(args));
    if |args| == 1 {
      ReadsOne(args[0], []);
      assert line == QuoteArg(args[0]) + [];
      assert args == [args[0]];
    } else {
      var rest := [Space] + Join(QuoteAll(args[1..]));
      assert line == QuoteArg(args[0]) + rest;
      ReadsOne(args[0], rest);
      assert rest[1..] == Join(QuoteAll(args[1..]));
      ParsesAll(args[1..]);
      assert [args[0]] + args[1..] == args;
    }
  }

  /** Every rendered line reads back as exactly the program and its arguments. */
  lemma RoundTrip(program: Bytes, args: seq<Bytes>)
    ensures Parse(Rendered(program, args)) == Some([program] + args)
  {
    ParsesAll([program] + args);
  }

  /** So two different commands never look alike. */
  lemma NeverAlike(p: Bytes, args: seq<Bytes>, q: Bytes, args': seq<Bytes>)
    requires Rendered(p, args) == Rendered(q, args')
    ensures p == q && args == args'
  {
    RoundTrip(p, args);
    RoundTrip(q, args');
    assert ([p] + args)[0] == ([q] + args')[0];
    assert ([p] + args)[1..] == args && ([q] + args')[1..] == args';
  }
}
