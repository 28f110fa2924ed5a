/** UTF-8 text as bytes: the grammar of section 4 of RFC 3629, and the scan the
    program uses to find where the last complete character of a buffer ends. */
module Utf8 {

  type Bytes = seq<bv8>

  /** The bytes of a text of ASCII characters. */
  function Ascii(s: string): (b: Bytes)
    requires forall i :: 0 <= i < |s| ==> s[i] < 128 as char
    ensures |b| == |s| && forall i :: 0 <= i < |s| ==> b[i] as int == s[i] as int
  {
    seq(|s|, i requires 0 <= i < |s| => AsciiByte(s[i]))
  }

  function AsciiByte(c: char): (b: bv8)
    requires c < 128 as char
    ensures b as int == c as int
  {
    (c as int) as bv8
  }

  // ---- the grammar ----

  predicate IsTail(b: bv8) { 0x80 <= b <= 0xBF }

  /** First two bytes of a three-byte character: UTF8-3 of the grammar, which
      leaves out overlong forms and surrogates. */
  predicate StartsThree(b0: bv8, b1: bv8) {
    || (b0 == 0xE0 && 0xA0 <= b1 <= 0xBF)
    || (0xE1 <= b0 <= 0xEC && IsTail(b1))
    || (b0 == 0xED && 0x80 <= b1 <= 0x9F)
    || (0xEE <= b0 <= 0xEF && IsTail(b1))
  }

  /** First two bytes of a four-byte character: UTF8-4 of the grammar. */
  predicate StartsFour(b0: bv8, b1: bv8) {
    || (b0 == 0xF0 && 0x90 <= b1 <= 0xBF)
    || (0xF1 <= b0 <= 0xF3 && IsTail(b1))
    || (b0 == 0xF4 && 0x80 <= b1 <= 0x8F)
  }

  /** Length of the character `s` starts with, or 0 if `s` does not start with a
      complete well-formed character. */
  function CharLen(s: Bytes): (n: nat)
    ensures n <= 4 && n <= |s|
  {
    if |s| >= 1 && s[0] <= 0x7F then 1
    else if |s| >= 2 && 0xC2 <= s[0] <= 0xDF && IsTail(s[1]) then 2
    else if |s| >= 3 && StartsThree(s[0], s[1]) && IsTail(s[2]) then 3
    else if |s| >= 4 && StartsFour(s[0], s[1]) && IsTail(s[2]) && IsTail(s[3]) then 4
    else 0
  }

  /** UTF8-octets of the grammar: a run of well-formed characters. */
  predicate Valid(s: Bytes) {
    s == [] || (CharLen(s) > 0 && Valid(s[CharLen(s)..]))
  }

  /** `p` is the end of the longest well-formed prefix of `s` within `n` bytes. */
  ghost predicate IsLongestValid(s: Bytes, n: nat, p: nat)
    requires n <= |s|
  {
    && p <= n
    && Valid(s[..p])
    && forall q :: p < q <= n ==> !Valid(s[..q])
  }

  /** End of the last character of `s` that lies wholly within the first `n` bytes. */
  function Floor(s: Bytes, n: nat): (p: nat)
    requires Valid(s) && n <= |s|
    ensures p <= n
  {
    if s == [] || n < CharLen(s) then 0 else CharLen(s) + Floor(s[CharLen(s)..], n - CharLen(s))
  }

  // ---- theory ----

  lemma CharLenExtends(s: Bytes, t: Bytes)
    requires CharLen(s) > 0
    ensures CharLen(s + t) == CharLen(s)
  {
  }

  // ---- characters by their bits, as section 3 of RFC 3629 lays them out ----

  function Bits(b: bv8, mask: bv8): bv32 { (b & mask) as bv32 }

  predicate Continues(b: bv8) { b & 0xC0 == 0x80 }

  function TwoBytes(s: Bytes): bv32
    requires |s| >= 2
  {
    Bits(s[0], 0x1F) * 64 + Bits(s[1], 0x3F)
  }

  function ThreeBytes(s: Bytes): bv32
    requires |s| >= 3
  {
    Bits(s[0], 0x0F) * 4096 + Bits(s[1], 0x3F) * 64 + Bits(s[2], 0x3F)
  }

  function FourBytes(s: Bytes): bv32
    requires |s| >= 4
  {
    Bits(s[0], 0x07) * 262144 + Bits(s[1], 0x3F) * 4096 + Bits(s[2], 0x3F) * 64 + Bits(s[3], 0x3F)
  }

  /** A text starts with a character of `n` bytes exactly when its first bytes have the bit
      pattern for `n` of section 3 of RFC 3629, and the number they spell needs that many,
      is none of the surrogates, and is at most 10FFFF. */
  lemma CharLenInBits(s: Bytes)
    ensures CharLen(s) == 1 <==> |s| >= 1 && s[0] & 0x80 == 0
    ensures CharLen(s) == 2 <==> |s| >= 2 && s[0] & 0xE0 == 0xC0 && Continues(s[1]) && TwoBytes(s) >= 0x80
    ensures CharLen(s) == 3
            <==> |s| >= 3 && s[0] & 0xF0 == 0xE0 && Continues(s[1]) && Continues(s[2])
                 && ThreeBytes(s) >= 0x800 && !(0xD800 <= ThreeBytes(s) <= 0xDFFF)
    ensures CharLen(s) == 4
            <==> |s| >= 4 && s[0] & 0xF8 == 0xF0 && Continues(s[1]) && Continues(s[2]) && Continues(s[3])
                 && 0x10000 <= FourBytes(s) <= 0x10FFFF
  {
  }

  lemma {:induction false} ValidConcat(a: Bytes, b: Bytes)
    requires Valid(a) && Valid(b)
    ensures Valid(a + b)
  {
    if a == [] {
      assert a + b == b;
    } else {
      var c := CharLen(a);
      CharLenExtends(a, b);
      assert (a + b)[c..] == a[c..] + b;
      ValidConcat(a[c..], b);
    }
  }

  /** Characters are self-delimiting: what follows well-formed text in well-formed
      text is well-formed. */
  lemma {:induction false} ValidCancel(a: Bytes, b: Bytes)
    requires Valid(a) && Valid(a + b)
    ensures Valid(b)
  {
    if a == [] {
      assert a + b == b;
    } else {
      var c := CharLen(a);
      CharLenExtends(a, b);
      assert (a + b)[c..] == a[c..] + b;
      ValidCancel(a[c..], b);
    }
  }

  lemma SplitPrefix(s: Bytes, p: nat, q: nat)
    requires p <= q <= |s|
    ensures s[..q] == s[..p] + s[p..][..q - p]
  {
  }

  lemma {:induction false} FloorIsLongest(s: Bytes, n: nat)
    requires Valid(s) && n <= |s|
    ensures IsLongestValid(s, n, Floor(s, n))
  {
    var c := CharLen(s);
    if s == [] {
    } else if n < c {
      forall q | 0 < q <= n ensures !Valid(s[..q]) {
        assert s == s[..q] + s[q..];
        if Valid(s[..q]) {
          CharLenExtends(s[..q], s[q..]);
        }
      }
    } else {
      var r := s[c..];
      FloorIsLongest(r, n - c);
      var p := Floor(r, n - c);
      CharValid(s);
      LongestBeyond(s, c, n, p);
    }
  }

  lemma LongestBeyond(s: Bytes, c: nat, n: nat, p: nat)
    requires c <= n <= |s| && Valid(s[..c]) && IsLongestValid(s[c..], n - c, p)
    ensures IsLongestValid(s, n, c + p)
  {
    hide Valid;
    SplitPrefix(s, c, c + p);
    ValidConcat(s[..c], s[c..][..p]);
    forall q | c + p < q <= n ensures !Valid(s[..q]) {
      if Valid(s[..q]) {
        SplitPrefix(s, c, q);
        ValidCancel(s[..c], s[c..][..q - c]);
      }
    }
  }

  lemma CharValid(s: Bytes)
    requires CharLen(s) > 0
    ensures Valid(s[..CharLen(s)])
  {
    var c := CharLen(s);
    assert CharLen(s[..c]) == c;
    assert s[..c][c..] == [];
  }

  /** There is only one longest well-formed prefix. */
  lemma LongestUnique(s: Bytes, n: nat, p: nat, q: nat)
    requires n <= |s| && IsLongestValid(s, n, p) && IsLongestValid(s, n, q)
    ensures p == q
  {
  }

  // ---- the program's scan ----

  /** Bytes the character led by `b` occupies; 1 for a byte that leads none. */
  function RuneByteLen(b: bv8): (n: nat)
    ensures 1 <= n <= 4
    ensures n == 1 <==> b < 0xC0 || 0xF8 <= b
    ensures n == 2 <==> 0xC0 <= b < 0xE0
    ensures n == 3 <==> 0xE0 <= b < 0xF0
    ensures n == 4 <==> 0xF0 <= b < 0xF8
  {
    if b < 0x80 then 1
    else if b & 0xE0 == 0xC0 then 2
    else if b & 0xF0 == 0xE0 then 3
    else if b & 0xF8 == 0xF0 then 4
    else 1
  }

  predicate IsContinuation(b: bv8) { 0x80 <= b < 0xC0 }

  /** Where the scan cuts `b`: it looks back over at most four bytes for the byte
      leading the last character and cuts there if that character is unfinished. */
  function SplitPoint(b: Bytes): (p: nat)
    ensures p <= |b| && |b| - p <= 3
  {
    ScanBack(b, |b|)
  }

  /** The scan with every byte from `i` on already known to continue a character. */
  function ScanBack(b: Bytes, i: nat): (p: nat)
    requires i <= |b| <= i + 4
    ensures p <= |b| && |b| - p <= 3
  {
    if i == 0 || i + 4 == |b| then |b|
    else if IsContinuation(b[i - 1]) then ScanBack(b, i - 1)
    else if i - 1 + RuneByteLen(b[i - 1]) > |b| then i - 1
    else |b|
  }

  method SplitCompleteRunes(b: Bytes) returns (complete: Bytes, carry: Bytes)
    ensures complete == b[..SplitPoint(b)] && carry == b[SplitPoint(b)..]
  {
    var start := if |b| - 4 > 0 then |b| - 4 else 0;
    var i := |b| - 1;
    while i >= start
      invariant start - 1 <= i < |b|
      invariant SplitPoint(b) == ScanBack(b, i + 1)
    {
      if 0x80 <= b[i] && b[i] < 0xC0 {
        i := i - 1;
        continue;
      }
      if i + RuneByteLen(b[i]) > |b| {
        return b[..i], b[i..];
      }
      return b, [];
    }
    return b, [];
  }

  method TrimIncompleteRune(b: Bytes) returns (kept: Bytes)
    ensures kept == b[..SplitPoint(b)]
  {
    var complete, _ := SplitCompleteRunes(b);
    return complete;
  }

  /** A tail that announces more bytes than it has: a leading byte, then only
      continuation bytes, fewer than the leading byte asks for. */
  predicate IsUnfinished(t: Bytes) {
    && 0 < |t| < RuneByteLen(t[0])
    && forall k :: 0 < k < |t| ==> IsContinuation(t[k])
  }

  lemma ScanBackExact(b: Bytes, i: nat)
    requires i <= |b| <= i + 4
    requires forall k :: i <= k < |b| ==> IsContinuation(b[k])
    ensures ScanBack(b, i) < |b| ==> IsUnfinished(b[ScanBack(b, i)..])
    ensures forall q :: 0 <= q < |b| && IsUnfinished(b[q..]) ==> q == ScanBack(b, i)
  {
    forall q | 0 <= q < |b| && IsUnfinished(b[q..]) ensures q == ScanBack(b, i) {
      assert b[q..][0] == b[q];
      assert forall k :: q < k < |b| ==> b[k] == b[q..][k - q];
    }
  }

  /** For any bytes at all, what is held back is exactly the unfinished tail: it is
      held back if there is one, and nothing is held back otherwise. */
  lemma SplitPointExact(b: Bytes, q: nat)
    requires q < |b|
    ensures SplitPoint(b) == q <==> IsUnfinished(b[q..])
  {
    ScanBackExact(b, |b|);
  }

  lemma ScanStopsAtLead(b: Bytes, i: nat, q: nat)
    requires q < i <= |b| <= q + 4
    requires !IsContinuation(b[q])
    requires forall k :: q < k < |b| ==> IsContinuation(b[k])
    ensures ScanBack(b, i) == if q + RuneByteLen(b[q]) > |b| then q else |b|
  {
  }

  lemma CharShape(s: Bytes)
    requires CharLen(s) > 0
    ensures !IsContinuation(s[0]) && RuneByteLen(s[0]) == CharLen(s)
    ensures forall k :: 0 < k < CharLen(s) ==> IsContinuation(s[k])
  {
  }

  /** Only a character of one byte has a byte below 0x80. */
  lemma HighBytes(s: Bytes)
    requires CharLen(s) > 0
    ensures if CharLen(s) == 1 then s[0] < 0x80 else forall k :: 0 <= k < CharLen(s) ==> s[k] >= 0x80
  {
  }

  /** Just after a byte below 0x80 there is a character boundary. */
  lemma {:induction false} AsciiSplit(t: Bytes, n: nat)
    requires Valid(t) && 0 < n <= |t| && t[n - 1] < 0x80
    ensures Valid(t[..n]) && Valid(t[n..])
    decreases n
  {
    var c := CharLen(t);
    HighBytes(t);
    CharValid(t);
    if n > c {
      var r := t[c..];
      assert r[n - c - 1] == t[n - 1];
      AsciiSplit(r, n - c);
      SplitPrefix(t, c, n);
      assert r[n - c..] == t[n..];
      ValidConcat(t[..c], r[..n - c]);
    }
  }

  /** The scan finds the last character boundary of cut text, whatever came before it. */
  lemma {:induction false} SplitAfter(a: Bytes, s: Bytes, n: nat)
    requires Valid(s) && 0 < n <= |s|
    ensures SplitPoint(a + s[..n]) == |a| + Floor(s, n)
    decreases |s|
  {
    var c := CharLen(s);
    var b := a + s[..n];
    CharShape(s);
    hide SplitPoint;
    if n <= c {
      assert forall k :: 0 <= k < n ==> b[|a| + k] == s[k];
      ScanStopsAtLead(b, |b|, |a|);
      assert n == c ==> Floor(s[c..], 0) == 0;
    } else {
      SplitPrefix(s, c, n);
      assert b == (a + s[..c]) + s[c..][..n - c];
      SplitAfter(a + s[..c], s[c..], n - c);
    }
  }

  /** Cutting well-formed text anywhere and trimming the cut leaves its longest
      well-formed prefix. */
  lemma SplitIsLongest(s: Bytes, n: nat)
    requires Valid(s) && n <= |s|
    ensures SplitPoint(s[..n]) == Floor(s, n)
    ensures IsLongestValid(s, n, SplitPoint(s[..n]))
  {
    FloorIsLongest(s, n);
    if n > 0 {
      assert [] + s[..n] == s[..n];
      SplitAfter([], s, n);
    }
  }
}
