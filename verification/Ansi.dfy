/** Taking escape sequences out of a chunk of output, and which cuts that shows.

    The patterns consist of ASCII characters and their complements, so they read the same
    on bytes as on characters. */
module Ansi {
  import opened Utf8
  import opened Chunks

  const Bel: bv8 := 0x07
  const Lf: bv8 := 0x0A
  const Cr: bv8 := 0x0D
  const Esc: bv8 := 0x1B
  const Bracket: bv8 := 0x5B      // [
  const Backslash: bv8 := 0x5C
  const CloseBracket: bv8 := 0x5D // ]

  predicate IsParameter(b: bv8) { 0x30 <= b <= 0x39 || b == 0x3B || b == 0x3F }
  predicate IsIntermediate(b: bv8) { 0x20 <= b <= 0x2F }
  predicate IsFinal(b: bv8) { 0x40 <= b <= 0x7E }
  predicate IsTitle(b: bv8) { b != Bel && b != Esc }
  predicate IsSecond(b: bv8) { 0x40 <= b <= 0x5A || 0x5C <= b <= 0x5F }

  /** Where a run of bytes of one class ends. */
  function Skip(t: Bytes, i: nat, class_: bv8 -> bool): (j: nat)
    requires i <= |t|
    ensures i <= j <= |t| && (j < |t| ==> !class_(t[j]))
    ensures forall k :: i <= k < j ==> class_(t[k])
    decreases |t| - i
  {
    if i < |t| && class_(t[i]) then Skip(t, i + 1, class_) else i
  }

  /** The length of the control sequence `t` starts with, or 0. */
  function Csi(t: Bytes): (n: nat)
    ensures n <= |t|
  {
    if |t| < 2 || t[0] != Esc || t[1] != Bracket then 0
    else
      var j := Skip(t, Skip(t, 2, IsParameter), IsIntermediate);
      if j < |t| && IsFinal(t[j]) then j + 1 else 0
  }

  /** The length of the window title `t` starts with, or 0. */
  function Osc(t: Bytes): (n: nat)
    ensures n <= |t|
  {
    if |t| < 2 || t[0] != Esc || t[1] != CloseBracket then 0
    else
      var j := Skip(t, 2, IsTitle);
      if j < |t| && t[j] == Bel then j + 1
      else if j + 1 < |t| && t[j] == Esc && t[j + 1] == Backslash then j + 2
      else 0
  }

  /** How much of the front of `t` is taken out: a sequence, or a carriage return that does
      not end a line. */
  function MatchLen(t: Bytes): (n: nat)
    ensures n <= |t|
  {
    if t == [] then 0
    else if t[0] == Cr then if |t| > 1 && t[1] == Lf then 0 else 1
    else if Csi(t) > 0 then Csi(t)
    else if Osc(t) > 0 then Osc(t)
    else if |t| > 1 && t[0] == Esc && IsSecond(t[1]) then 2
    else 0
  }

  function StripAnsi(t: Bytes): Bytes
    decreases |t|
  {
    if t == [] then []
    else if MatchLen(t) > 0 then StripAnsi(t[MatchLen(t)..])
    else [t[0]] + StripAnsi(t[1..])
  }

  // ---- the patterns, stated by themselves ----

  /** ESC [, then digits, ';' and '?', then bytes from space to '/', then one from '@' to '~'. */
  ghost predicate IsCsi(t: Bytes, n: nat) {
    && 3 <= n <= |t| && t[0] == 0x1B && t[1] == 0x5B && 0x40 <= t[n - 1] <= 0x7E
    && exists j :: 2 <= j <= n - 1 && ChangesAt(t, n, j)
  }

  /** Digits, ';' and '?' from place 2 to `j`, and bytes from space to '/' from there to the
      last but one of `n`. */
  ghost predicate ChangesAt(t: Bytes, n: nat, j: nat)
    requires 0 < n <= |t|
  {
    && (forall k :: 2 <= k < j && k < n - 1 ==> 0x30 <= t[k] <= 0x39 || t[k] == 0x3B || t[k] == 0x3F)
    && (forall k :: 2 <= k && j <= k < n - 1 ==> 0x20 <= t[k] <= 0x2F)
  }

  /** ESC ], then bytes other than BEL and ESC, then BEL or ESC \. */
  ghost predicate IsOsc(t: Bytes, n: nat) {
    && 3 <= n <= |t| && t[0] == 0x1B && t[1] == 0x5D
    && (if t[n - 1] == 0x07 then forall k :: 2 <= k < n - 1 ==> t[k] != 0x07 && t[k] != 0x1B
        else n >= 4 && t[n - 2] == 0x1B && t[n - 1] == 0x5C && forall k :: 2 <= k < n - 2 ==> t[k] != 0x07 && t[k] != 0x1B)
  }

  /** ESC and one byte from '@' to 'Z' or from '\' to '_'. */
  predicate IsTwo(t: Bytes) {
    |t| >= 2 && t[0] == 0x1B && (0x40 <= t[1] <= 0x5A || 0x5C <= t[1] <= 0x5F)
  }

  /** A carriage return with no line feed after it. */
  predicate IsBareCr(t: Bytes) { |t| >= 1 && t[0] == 0x0D && (|t| == 1 || t[1] != 0x0A) }

  lemma CsiExactly(t: Bytes, n: nat)
    requires n > 0
    ensures Csi(t) == n <==> IsCsi(t, n)
  {
    if |t| >= 2 && t[0] == Esc && t[1] == Bracket {
      var p := Skip(t, 2, IsParameter);
      var q := Skip(t, p, IsIntermediate);
      if IsCsi(t, n) {
        var j :| 2 <= j <= n - 1 && ChangesAt(t, n, j);
        assert j < |t| && !IsParameter(t[j]);
        assert p == j;
        assert q == n - 1;
      }
      if Csi(t) == n {
        assert ChangesAt(t, n, p);
      }
    }
  }

  lemma OscExactly(t: Bytes, n: nat)
    requires n > 0
    ensures Osc(t) == n <==> IsOsc(t, n)
  {
    if |t| >= 2 && t[0] == Esc && t[1] == CloseBracket {
      var j := Skip(t, 2, IsTitle);
      if IsOsc(t, n) {
        assert j == if t[n - 1] == 0x07 then n - 1 else n - 2;
      }
    }
  }

  /** What is taken out at the front of a text: a control sequence, or else a window title, or
      else two bytes, or else a bare carriage return; and nothing when there is none. */
  lemma MatchExactly(t: Bytes, n: nat)
    requires n > 0
    ensures MatchLen(t) == n
            <==> || IsCsi(t, n) || IsOsc(t, n)
                 || (n == 2 && IsTwo(t) && forall m :: m > 0 ==> !IsOsc(t, m))
                 || (n == 1 && IsBareCr(t))
  {
    hide Csi, Osc, IsCsi, IsOsc;
    CsiExactly(t, n);
    OscExactly(t, n);
    Opening(t);
    if forall m :: m > 0 ==> !IsOsc(t, m) {
      if Osc(t) > 0 {
        OscExactly(t, Osc(t));
      }
    } else {
      var m :| m > 0 && IsOsc(t, m);
      OscExactly(t, m);
    }
  }

  lemma Opening(t: Bytes)
    ensures Csi(t) > 0 ==> |t| >= 2 && t[0] == Esc && t[1] == Bracket && Osc(t) == 0
    ensures Osc(t) > 0 ==> |t| >= 2 && t[0] == Esc && t[1] == CloseBracket && Csi(t) == 0
  {
  }

  /** The first `n` bytes are taken out at the front of a text. */
  ghost predicate TakesOut(t: Bytes, n: nat) {
    || IsCsi(t, n) || IsOsc(t, n)
    || (n == 2 && IsTwo(t) && forall m :: m > 0 ==> !IsOsc(t, m))
    || (n == 1 && IsBareCr(t))
  }

  /** Stripping takes out what stands at the front and goes on after it, or, where nothing
      does, keeps one byte and goes on. */
  lemma StripExactly(t: Bytes)
    requires t != []
    ensures StripAnsi([]) == []
    ensures forall n :: 0 < n && TakesOut(t, n) ==> n <= |t| && StripAnsi(t) == StripAnsi(t[n..])
    ensures (forall n :: n > 0 ==> !TakesOut(t, n)) ==> StripAnsi(t) == [t[0]] + StripAnsi(t[1..])
  {
    hide TakesOut;
    StripStep(t);
    forall n: nat | n > 0 ensures TakesOut(t, n) <==> MatchLen(t) == n {
      TakesOutIs(t, n);
    }
    if MatchLen(t) > 0 {
      TakesOutIs(t, MatchLen(t));
    }
    NothingLeft();
    hide StripAnsi, MatchLen;
  }

  lemma TakesOutIs(t: Bytes, n: nat)
    requires n > 0
    ensures TakesOut(t, n) <==> MatchLen(t) == n
  {
    MatchExactly(t, n);
  }

  lemma NothingLeft()
    ensures StripAnsi([]) == []
  {
  }

  /** Nothing to take out. */
  predicate Plain(t: Bytes) { forall i :: 0 <= i < |t| ==> t[i] != Esc && t[i] != Cr }

  lemma PlainFirst(b: bv8, rest: Bytes)
    requires b != Esc && b != Cr
    ensures StripAnsi([b] + rest) == [b] + StripAnsi(rest)
  {
    var t := [b] + rest;
    assert MatchLen(t) == 0 && t[1..] == rest;
  }

  lemma {:induction false} PlainPrefix(t: Bytes, u: Bytes)
    requires Plain(t)
    ensures StripAnsi(t + u) == t + StripAnsi(u)
    decreases |t|
  {
    hide StripAnsi;
    if t == [] {
      assert t + u == u && t + StripAnsi(u) == StripAnsi(u);
    } else {
      var s := StripAnsi(u);
      PlainPrefix(t[1..], u);
      PlainFirst(t[0], t[1..] + u);
      assert t == [t[0]] + t[1..];
      assert [t[0]] + (t[1..] + u) == t + u;
      assert [t[0]] + (t[1..] + s) == t + s;
    }
  }

  /** Text without escapes or carriage returns is drawn as it is. */
  lemma PlainUnchanged(t: Bytes)
    requires Plain(t)
    ensures StripAnsi(t) == t
  {
    PlainPrefix(t, []);
    assert t + [] == t;
  }

  // ---- what is left ----

  /** Stripping only takes out. */
  lemma {:induction false} StripShrinks(t: Bytes)
    ensures |StripAnsi(t)| <= |t| && (|StripAnsi(t)| == |t| ==> StripAnsi(t) == t)
    decreases |t|
  {
    if t != [] {
      StripStep(t);
      hide StripAnsi, MatchLen;
      if MatchLen(t) > 0 {
        StripShrinks(t[MatchLen(t)..]);
      } else {
        StripShrinks(t[1..]);
        assert t == [t[0]] + t[1..];
      }
    }
  }

  lemma MatchEndsLow(t: Bytes)
    requires MatchLen(t) > 0
    ensures t[MatchLen(t) - 1] < 0x80
  {
  }

  /** What is left of well-formed text is well-formed. */
  lemma {:induction false} StripValid(t: Bytes)
    requires Valid(t)
    ensures Valid(StripAnsi(t))
    decreases |t|
  {
    if t != [] {
      var n, c := MatchLen(t), CharLen(t);
      if n > 0 {
        MatchEndsLow(t);
        AsciiSplit(t, n);
        StripValid(t[n..]);
      } else {
        CharKept(t);
        StripValid(t[c..]);
        CharValid(t);
        hide Valid, StripAnsi;
        ValidConcat(t[..c], StripAnsi(t[c..]));
      }
    }
  }

  /** A first character that begins nothing to take out is kept whole. */
  lemma CharKept(t: Bytes)
    requires CharLen(t) > 0 && MatchLen(t) == 0
    ensures StripAnsi(t) == t[..CharLen(t)] + StripAnsi(t[CharLen(t)..])
  {
    var c := CharLen(t);
    HighBytes(t);
    hide CharLen;
    if c == 1 {
      StripStep(t);
      assert t[..1] == [t[0]];
    } else {
      assert t == t[..c] + t[c..];
      PlainPrefix(t[..c], t[c..]);
    }
  }

  lemma StripStep(t: Bytes)
    requires t != []
    ensures StripAnsi(t) == if MatchLen(t) > 0 then StripAnsi(t[MatchLen(t)..]) else [t[0]] + StripAnsi(t[1..])
  {
  }

  // ---- what a longer text changes ----

  lemma {:induction false} SkipExtends(a: Bytes, b: Bytes, i: nat, class_: bv8 -> bool)
    requires i <= |a|
    ensures Skip(a, i, class_) < |a| ==> Skip(a + b, i, class_) == Skip(a, i, class_)
    ensures Skip(a + b, i, class_) < |a| ==> Skip(a, i, class_) == Skip(a + b, i, class_)
    decreases |a| - i
  {
    if i < |a| && class_(a[i]) {
      SkipExtends(a, b, i + 1, class_);
    }
  }

  lemma CsiExtends(a: Bytes, b: Bytes)
    ensures Csi(a) > 0 ==> Csi(a + b) == Csi(a)
    ensures 0 < Csi(a + b) <= |a| ==> Csi(a) == Csi(a + b)
  {
    if |a| >= 2 {
      SkipExtends(a, b, 2, IsParameter);
      SkipExtends(a, b, Skip(a, 2, IsParameter), IsIntermediate);
    }
  }

  lemma OscExtends(a: Bytes, b: Bytes)
    ensures Osc(a) > 0 ==> Osc(a + b) == Osc(a)
    ensures 0 < Osc(a + b) <= |a| ==> Osc(a) == Osc(a + b)
  {
    if |a| >= 2 {
      SkipExtends(a, b, 2, IsTitle);
    }
  }

  /** What more text does to the match at the front, unless it completes a line ending. */
  lemma MatchExtends(a: Bytes, b: Bytes)
    requires a != [] && !(a == [Cr] && b != [] && b[0] == Lf)
    ensures 0 < MatchLen(a + b) <= |a| ==> MatchLen(a) == MatchLen(a + b)
    ensures MatchLen(a + b) == 0 ==> MatchLen(a) == 0
  {
    CsiExtends(a, b);
    OscExtends(a, b);
  }

  // ---- which cuts show ----

  predicate AllCr(t: Bytes) { forall i :: 0 <= i < |t| ==> t[i] == Cr }

  /** The first `n` bytes are a window title of nothing but carriage returns, ended by an
      escape, and `cut` falls in between. Cut there, its halves go as well. */
  predicate BlankTitle(t: Bytes, n: nat, cut: nat)
    requires n <= |t|
  {
    && 4 <= n && 2 <= cut <= n - 2 && t[1] == CloseBracket && AllCr(t[2..n - 2])
    && t[n - 2] == Esc && t[n - 1] == Backslash
  }

  /** Cutting `a + b` after `a` does not show: the cut falls inside nothing that is taken
      out, except a blank title, and not between a carriage return and its line feed. */
  predicate CutOk(a: Bytes, b: Bytes)
    decreases |a|
  {
    if a == [] then true
    else
      var n := MatchLen(a + b);
      if n > |a| then BlankTitle(a + b, n, |a|)
      else if n > 0 then CutOk(a[n..], b)
      else !(a == [Cr] && b != [] && b[0] == Lf) && CutOk(a[1..], b)
  }

  // ---- a cut inside something taken out ----

  /** Cut in two, a sequence whose halves hold nothing to take out is drawn. */
  lemma PlainStraddle(a: Bytes, rest: Bytes, u: Bytes)
    requires a != [] && MatchLen(a) == 0 && Plain(a[1..]) && Plain(rest)
    ensures StripAnsi(a) + StripAnsi(rest + u) != StripAnsi(u)
  {
    PlainUnchanged(a[1..]);
    PlainPrefix(rest, u);
    assert |StripAnsi(a)| > 0;
  }

  /** Halves that strip as the whole does. */
  predicate Distributes(a: Bytes, b: Bytes) { StripAnsi(a + b) == StripAnsi(a) + StripAnsi(b) }

  predicate NoEsc(t: Bytes) { forall i :: 0 <= i < |t| ==> t[i] != Esc }

  lemma {:induction false} TitlePrefix(t: Bytes, v: Bytes)
    requires NoEsc(t) && (v != [] ==> v[0] != Lf)
    ensures StripAnsi(t + v) == StripAnsi(t) + StripAnsi(v)
    decreases |t|
  {
    if t == [] {
      assert t + v == v;
    } else {
      assert (t + v)[1..] == t[1..] + v;
      TitlePrefix(t[1..], v);
      assert MatchLen(t) == MatchLen(t + v) <= 1;
    }
  }

  lemma {:induction false} BlankExactly(t: Bytes)
    requires NoEsc(t)
    ensures StripAnsi(t) == [] <==> AllCr(t)
    decreases |t|
  {
    if t != [] && MatchLen(t) > 0 {
      BlankExactly(t[1..]);
      assert AllCr(t) <==> AllCr(t[1..]) by {
        assert forall i :: 0 <= i < |t[1..]| ==> t[1..][i] == t[i + 1];
        assert forall i :: 1 <= i < |t| ==> t[i] == t[1..][i - 1];
      }
    } else if t != [] {
      assert t[0] == Cr ==> t[1] == Lf;
    }
  }

  lemma StripBel(u: Bytes)
    ensures StripAnsi([Bel] + u) == [Bel] + StripAnsi(u)
  {
    PlainPrefix([Bel], u);
  }

  lemma StripTerminator(u: Bytes)
    ensures StripAnsi([Esc, Backslash] + u) == StripAnsi(u)
  {
    var t := [Esc, Backslash] + u;
    assert MatchLen(t) == 2 && t[2..] == u;
  }

  /** The front of a title, cut off from its end, goes without its text. */
  lemma OpenTitle(a: Bytes)
    requires |a| >= 2 && a[0] == Esc && a[1] == CloseBracket && Osc(a) == 0
    ensures StripAnsi(a) == StripAnsi(a[2..])
  {
  }

  lemma TitleCut(a: Bytes, t2: Bytes, bel: bool, u: Bytes)
    requires |a| >= 2 && a[0] == Esc && a[1] == CloseBracket && Osc(a) == 0 && NoEsc(a[2..]) && NoEsc(t2)
    ensures var end := if bel then [Bel] else [Esc, Backslash];
            StripAnsi(a) + StripAnsi(t2 + (end + u)) == StripAnsi(u) <==> !bel && AllCr(a[2..]) && AllCr(t2)
  {
    var end := if bel then [Bel] else [Esc, Backslash];
    OpenTitle(a);
    TitlePrefix(t2, end + u);
    BlankExactly(a[2..]);
    BlankExactly(t2);
    StripBel(u);
    StripTerminator(u);
    var x, y, z := StripAnsi(a), StripAnsi(t2), StripAnsi(end + u);
    assert |x + (y + z)| == |x| + |y| + |z|;
    if x == [] && y == [] {
      assert x + (y + z) == z;
    }
  }

  lemma EndCut(a: Bytes, title: Bytes, u: Bytes)
    requires |a| >= 2 && a[0] == Esc && a[1] == CloseBracket && Osc(a) == 0 && a[2..] == title + [Esc] && NoEsc(title)
    ensures StripAnsi(a) + StripAnsi([Backslash] + u) != StripAnsi(u)
  {
    OpenTitle(a);
    TitlePrefix(title, [Esc]);
    PlainPrefix([Backslash], u);
    assert [Esc][1..] == [] && MatchLen([Esc]) == 0;
    assert |StripAnsi([Esc])| == 1;
  }

  lemma FirstCut(a: Bytes, title: Bytes, bel: bool, u: Bytes)
    requires a == [Esc] && NoEsc(title)
    ensures var end := if bel then [Bel] else [Esc, Backslash];
            StripAnsi(a) + StripAnsi([CloseBracket] + (title + (end + u))) != StripAnsi(u)
  {
    var end := if bel then [Bel] else [Esc, Backslash];
    PlainPrefix([CloseBracket], title + (end + u));
    TitlePrefix(title, end + u);
    StripBel(u);
    StripTerminator(u);
    assert |StripAnsi(end + u)| >= |StripAnsi(u)|;
  }

  /** A window title is its opening, its text and one of two endings. */
  lemma OscParts(t: Bytes)
    requires Osc(t) > 0
    ensures var n := Osc(t);
            var bel := t[n - 1] == Bel;
            var end := if bel then [Bel] else [Esc, Backslash];
            && n >= 2 + |end| && NoEsc(t[2..n - |end|]) && t[n - |end|..n] == end
            && t[0] == Esc && t[1] == CloseBracket
  {
    var j := Skip(t, 2, IsTitle);
    assert t[j] == Bel ==> Osc(t) == j + 1;
    assert forall i :: 0 <= i < j - 2 ==> t[2..j][i] == t[i + 2];
  }

  /** The cut falls inside a window title: after its first byte, in its text, or inside its
      ending. */
  lemma OscStraddles(a: Bytes, b: Bytes)
    requires a != [] && Osc(a + b) > |a|
    ensures StripAnsi(a) + StripAnsi(b) == StripAnsi((a + b)[Osc(a + b)..])
            <==> BlankTitle(a + b, Osc(a + b), |a|)
  {
    hide Osc, StripAnsi, NoEsc, AllCr;
    var t := a + b;
    OscParts(t);
    OscExtends(a, b);
    if |a| == 1 {
      OscFirst(a, b);
    } else if t[Osc(t) - 1] == Bel || |a| <= Osc(t) - 2 {
      OscText(a, b, t[Osc(t) - 1] == Bel);
    } else {
      OscEnd(a, b);
    }
  }

  /** What `OscParts` says of a text, and a cut in it. */
  predicate Titled(a: Bytes, b: Bytes, n: nat, bel: bool) {
    var t := a + b;
    var end := if bel then [Bel] else [Esc, Backslash];
    && |a| < n <= |t| && n >= 2 + |end| && NoEsc(t[2..n - |end|]) && t[n - |end|..n] == end
    && t[0] == Esc && t[1] == CloseBracket
  }

  lemma OscFirst(a: Bytes, b: Bytes)
    requires |a| == 1 < Osc(a + b) && Titled(a, b, Osc(a + b), (a + b)[Osc(a + b) - 1] == Bel)
    ensures StripAnsi(a) + StripAnsi(b) != StripAnsi((a + b)[Osc(a + b)..])
  {
    hide Osc, StripAnsi, NoEsc;
    var t, n := a + b, Osc(a + b);
    var bel := t[n - 1] == Bel;
    var j := if bel then n - 1 else n - 2;
    assert a == [t[0]] && b == t[1..];
    assert t[1..] == [t[1]] + (t[2..j] + (t[j..n] + t[n..]));
    FirstCut(a, t[2..j], bel, t[n..]);
  }

  lemma OscText(a: Bytes, b: Bytes, bel: bool)
    requires |a| >= 2 && Osc(a) == 0 && Titled(a, b, Osc(a + b), bel) && (!bel ==> |a| <= Osc(a + b) - 2)
    requires bel == ((a + b)[Osc(a + b) - 1] == Bel)
    ensures StripAnsi(a) + StripAnsi(b) == StripAnsi((a + b)[Osc(a + b)..])
            <==> BlankTitle(a + b, Osc(a + b), |a|)
  {
    hide Osc, StripAnsi, NoEsc, AllCr;
    var t, n := a + b, Osc(a + b);
    var j := if bel then n - 1 else n - 2;
    var t2 := t[|a|..j];
    assert a[0] == t[0] && a[1] == t[1];
    assert b == t2 + (t[j..n] + t[n..]);
    assert t[2..j] == a[2..] + t2;
    assert !bel ==> t[j..n][0] == t[j] && t[j..n][1] == t[j + 1];
    NoEscParts(a[2..], t2);
    TitleCut(a, t2, bel, t[n..]);
    AllCrParts(a[2..], t2);
  }

  lemma OscEnd(a: Bytes, b: Bytes)
    requires Titled(a, b, Osc(a + b), false) && |a| == Osc(a + b) - 1 && Osc(a) == 0
    ensures StripAnsi(a) + StripAnsi(b) != StripAnsi((a + b)[Osc(a + b)..])
  {
    hide Osc, StripAnsi, NoEsc;
    var t, n := a + b, Osc(a + b);
    assert a[0] == t[0] && a[1] == t[1];
    assert t[n - 2] == t[n - 2..n][0] && t[n - 1] == t[n - 2..n][1];
    assert b == [t[n - 1]] + t[n..];
    assert a[2..] == t[2..n - 2] + [t[n - 2]];
    EndCut(a, t[2..n - 2], t[n..]);
  }

  lemma NoEscParts(a: Bytes, b: Bytes)
    requires NoEsc(a + b)
    ensures NoEsc(a) && NoEsc(b)
  {
    assert forall i :: 0 <= i < |a| ==> (a + b)[i] == a[i];
    assert forall i :: 0 <= i < |b| ==> (a + b)[|a| + i] == b[i];
  }

  lemma AllCrParts(a: Bytes, b: Bytes)
    ensures AllCr(a + b) <==> AllCr(a) && AllCr(b)
  {
    assert forall i :: 0 <= i < |a| ==> (a + b)[i] == a[i];
    assert forall i :: 0 <= i < |b| ==> (a + b)[|a| + i] == b[i];
  }

  /** The cut falls inside some other sequence. */
  lemma OtherStraddles(a: Bytes, b: Bytes)
    requires a != [] && MatchLen(a + b) > |a| && Osc(a + b) == 0
    ensures StripAnsi(a) + StripAnsi(b) != StripAnsi((a + b)[MatchLen(a + b)..])
    ensures !BlankTitle(a + b, MatchLen(a + b), |a|)
  {
    var t, n := a + b, MatchLen(a + b);
    var rest, u := t[|a|..n], t[n..];
    assert b == rest + u;
    assert Plain(t[1..n]);
    assert Plain(a[1..]) && Plain(rest) by {
      assert forall i :: 0 <= i < |a| - 1 ==> a[1..][i] == t[1..n][i];
      assert forall i :: 0 <= i < |rest| ==> rest[i] == t[1..n][|a| - 1 + i];
    }
    CsiExtends(a, b);
    OscExtends(a, b);
    assert MatchLen(a) == 0;
    PlainStraddle(a, rest, u);
  }

  lemma Straddles(a: Bytes, b: Bytes)
    requires a != [] && MatchLen(a + b) > |a|
    ensures Distributes(a, b) <==> BlankTitle(a + b, MatchLen(a + b), |a|)
  {
    if Csi(a + b) == 0 && Osc(a + b) > 0 {
      OscStraddles(a, b);
    } else {
      OtherStraddles(a, b);
    }
  }

  lemma LineEndCut(a: Bytes, b: Bytes)
    requires a == [Cr] && b != [] && b[0] == Lf
    ensures MatchLen(a + b) == 0 && !Distributes(a, b)
  {
    assert (a + b)[1..] == b;
    assert StripAnsi(a) == [] by { assert a[1..] == []; }
    assert StripAnsi(a + b) == [Cr] + StripAnsi(b);
    assert |[Cr] + StripAnsi(b)| != |StripAnsi(b)|;
  }

  lemma TakenStep(a: Bytes, b: Bytes)
    requires a != [] && 0 < MatchLen(a + b) <= |a| && MatchLen(a) == MatchLen(a + b)
    ensures Distributes(a, b) <==> Distributes(a[MatchLen(a)..], b)
  {
    hide StripAnsi, MatchLen;
    StripStep(a);
    StripStep(a + b);
    assert (a + b)[MatchLen(a)..] == a[MatchLen(a)..] + b;
  }

  lemma KeptStep(a: Bytes, b: Bytes)
    requires a != [] && MatchLen(a + b) == 0 && MatchLen(a) == 0
    ensures Distributes(a, b) <==> Distributes(a[1..], b)
  {
    hide StripAnsi, MatchLen;
    StripStep(a);
    StripStep(a + b);
    assert (a + b)[1..] == a[1..] + b;
    var x, y, z := StripAnsi(a[1..] + b), StripAnsi(a[1..]), StripAnsi(b);
    assert [a[0]] + y + z == [a[0]] + (y + z);
    assert ([a[0]] + x)[1..] == x && ([a[0]] + (y + z))[1..] == y + z;
  }

  lemma {:induction false} CutExactlyStep(a: Bytes, b: Bytes)
    ensures Distributes(a, b) <==> CutOk(a, b)
    decreases |a|
  {
    hide Distributes, MatchLen, BlankTitle;
    if a == [] {
      NoCut(b);
    } else if MatchLen(a + b) > |a| {
      Straddles(a, b);
    } else if a == [Cr] && b != [] && b[0] == Lf {
      LineEndCut(a, b);
    } else {
      MatchExtends(a, b);
      if MatchLen(a + b) > 0 {
        TakenStep(a, b);
        CutExactlyStep(a[MatchLen(a)..], b);
      } else {
        KeptStep(a, b);
        CutExactlyStep(a[1..], b);
      }
    }
  }

  lemma NoCut(b: Bytes)
    ensures Distributes([], b)
  {
    assert [] + b == b;
  }

  /** Stripping the two halves of a text gives what stripping the whole gives exactly when
      the cut is one of those. */
  lemma CutExactly(a: Bytes, b: Bytes)
    ensures StripAnsi(a + b) == StripAnsi(a) + StripAnsi(b) <==> CutOk(a, b)
  {
    CutExactlyStep(a, b);
  }

  /** A colour code cut in two: each half is drawn, where the whole is not. */
  lemma ColourCut()
    ensures var a, b := [Esc, Bracket, 0x33], [0x31, 0x6D, 0x58]; // ESC [ 3, then 1 m X
            StripAnsi(a) == a && StripAnsi(b) == b && StripAnsi(a + b) == [0x58]
  {
    var a, b: Bytes := [Esc, Bracket, 0x33], [0x31, 0x6D, 0x58];
    hide StripAnsi, MatchLen;
    PlainUnchanged(b);
    PlainUnchanged(a[1..]);
    PlainUnchanged([0x58]);
    OpenColour();
    StripStep(a);
    WholeColour();
    StripStep(a + b);
    assert (a + b)[5..] == [0x58];
  }

  lemma OpenColour()
    ensures MatchLen([Esc, Bracket, 0x33]) == 0
  {
    assert Skip([Esc, Bracket, 0x33], 2, IsParameter) == 3;
  }

  lemma WholeColour()
    ensures MatchLen([Esc, Bracket, 0x33] + [0x31, 0x6D, 0x58]) == 5
  {
    var t: Bytes := [Esc, Bracket, 0x33] + [0x31, 0x6D, 0x58];
    assert Skip(t, 4, IsParameter) == 4;
    assert Skip(t, 2, IsParameter) == 4;
    assert Skip(t, 4, IsIntermediate) == 4;
  }

  // ---- text that comes in many pieces ----

  /** No cut between the pieces shows. */
  predicate CutsOk(pieces: seq<Bytes>) {
    forall n :: 0 <= n < |pieces| ==> CutOk(Concat(pieces[..n]), pieces[n])
  }

  /** Stripping piece by piece gives at every moment what stripping all that has come gives,
      exactly when every cut is one that does not show. */
  lemma {:induction false} PiecesExactly(pieces: seq<Bytes>)
    ensures (forall m :: 0 <= m <= |pieces| ==>
               Concat(Each(StripAnsi, pieces[..m])) == StripAnsi(Concat(pieces[..m])))
            <==> CutsOk(pieces)
  {
    PiecesUpTo(pieces, |pieces|);
  }

  predicate SameStripped(pieces: seq<Bytes>) { Concat(Each(StripAnsi, pieces)) == StripAnsi(Concat(pieces)) }

  lemma {:induction false} PiecesUpTo(pieces: seq<Bytes>, m: nat)
    requires m <= |pieces|
    ensures (forall n :: 0 <= n <= m ==> SameStripped(pieces[..n]))
            <==> forall n :: 0 <= n < m ==> CutOk(Concat(pieces[..n]), pieces[n])
  {
    hide CutOk, SameStripped;
    if m == 0 {
      assert pieces[..0] == [];
      NoPieces();
    } else {
      PiecesUpTo(pieces, m - 1);
      if SameStripped(pieces[..m - 1]) {
        assert pieces[..m] == pieces[..m - 1] + [pieces[m - 1]];
        OnePiece(pieces[..m - 1], pieces[m - 1]);
      }
    }
  }

  lemma NoPieces()
    ensures SameStripped([])
  {
  }

  lemma OnePiece(before: seq<Bytes>, piece: Bytes)
    requires SameStripped(before)
    ensures SameStripped(before + [piece]) <==> CutOk(Concat(before), piece)
  {
    hide StripAnsi, Concat, CutOk;
    ConcatSnoc(before, piece);
    assert Each(StripAnsi, before + [piece]) == Each(StripAnsi, before) + [StripAnsi(piece)];
    ConcatSnoc(Each(StripAnsi, before), StripAnsi(piece));
    CutExactly(Concat(before), piece);
  }

  /** Piece by piece, stripping leaves a text as it is exactly when it leaves every piece. */
  lemma {:induction false} PiecesUnchanged(pieces: seq<Bytes>)
    ensures |Concat(Each(StripAnsi, pieces))| <= |Concat(pieces)|
    ensures |Concat(Each(StripAnsi, pieces))| == |Concat(pieces)| <==> Each(StripAnsi, pieces) == pieces
    ensures Each(StripAnsi, pieces) == pieces <==> forall i :: 0 <= i < |pieces| ==> StripAnsi(pieces[i]) == pieces[i]
  {
    hide StripAnsi;
    if pieces != [] {
      PiecesUnchanged(pieces[1..]);
      StripShrinks(pieces[0]);
      assert Each(StripAnsi, pieces) == [StripAnsi(pieces[0])] + Each(StripAnsi, pieces[1..]);
      assert pieces == [pieces[0]] + pieces[1..];
    }
  }
}
