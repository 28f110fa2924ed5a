/** Output collected up to a byte limit, and audit targets cut to one. */
module CappedOutput {
  import opened Utf8
  import opened Chunks

  function Min(a: int, b: int): int { if a < b then a else b }

  /** The most a buffer with this limit can hold; a negative limit holds nothing. */
  function Room(limit: int): nat { if limit < 0 then 0 else limit }

  /** What a buffer of `limit` bytes keeps of a stream. */
  function Kept(limit: int, all: Bytes): Bytes {
    all[..Min(Room(limit), |all|)]
  }

  /** Whether a run of writes sets the truncated flag: the stream is over the limit,
      or a write, even an empty one, arrives with no room left. */
  predicate SetsTruncated(limit: int, writes: seq<Bytes>) {
    || |Concat(writes)| > Room(limit)
    || exists i :: 0 <= i < |writes| && ArrivesFull(limit, writes, i)
  }

  predicate ArrivesFull(limit: int, writes: seq<Bytes>, i: nat)
    requires i < |writes|
  {
    |Concat(writes[..i])| >= limit
  }

  class CappedBuffer {
    var buf: Bytes
    const limit: int
    var truncated: bool

    /** Every write made so far. */
    ghost var writes: seq<Bytes>

    ghost predicate Valid()
      reads this
    {
      && buf == Kept(limit, Concat(writes))
      && truncated == SetsTruncated(limit, writes)
    }

    constructor (limit: int)
      ensures Valid() && this.limit == limit && writes == []
    {
      this.limit := limit;
      buf, truncated, writes := [], false, [];
    }

    method Write(p: Bytes) returns (n: int)
      requires Valid()
      modifies this
      ensures Valid() && writes == old(writes) + [p]
      ensures n == |p|
    {
      ghost var before := writes;
      ghost var all := Concat(before);
      WriteExtends(limit, before, p);
      writes := before + [p];
      var remaining := limit - |buf|;
      if remaining <= 0 {
        truncated := true;
        return |p|;
      }
      if |p| > remaining {
        buf := buf + p[..remaining];
        truncated := true;
        assert buf == (all + p)[..limit];
        return |p|;
      }
      buf := buf + p;
      return |p|;
    }

    method Truncated() returns (t: bool)
      requires Valid()
      ensures t == SetsTruncated(limit, writes)
    {
      return truncated;
    }

    method String() returns (s: Bytes)
      requires Valid()
      ensures s == Shown(limit, writes)
    {
      if truncated {
        s := TrimIncompleteRune(buf);
        return;
      }
      return buf;
    }
  }

  /** What the buffer returns after a run of writes. */
  function Shown(limit: int, writes: seq<Bytes>): Bytes {
    var buf := Kept(limit, Concat(writes));
    if SetsTruncated(limit, writes) then buf[..SplitPoint(buf)] else buf
  }

  lemma WriteExtends(limit: int, before: seq<Bytes>, p: Bytes)
    ensures Concat(before + [p]) == Concat(before) + p
    ensures SetsTruncated(limit, before + [p])
            <==> SetsTruncated(limit, before) || |Concat(before)| >= limit
                 || |Concat(before)| + |p| > Room(limit)
  {
    ConcatSnoc(before, p);
    var after := before + [p];
    assert after[..|before|] == before;
    forall i | 0 <= i < |before| ensures ArrivesFull(limit, after, i) == ArrivesFull(limit, before, i) {
      assert after[..i] == before[..i];
    }
    if |Concat(before)| >= limit {
      assert ArrivesFull(limit, after, |before|);
    }
    if i :| 0 <= i < |before| && ArrivesFull(limit, before, i) {
      assert ArrivesFull(limit, after, i);
    }
  }

  lemma {:induction false} PrefixShorter(writes: seq<Bytes>, i: nat)
    requires i <= |writes|
    ensures Concat(writes) == Concat(writes[..i]) + Concat(writes[i..])
  {
    assert writes == writes[..i] + writes[i..];
    ConcatAppend(writes[..i], writes[i..]);
  }

  /** With a usable limit and no empty write, the flag says exactly that output was
      dropped. */
  lemma TruncatedMeansDropped(limit: int, writes: seq<Bytes>)
    requires limit >= 0
    requires forall i :: 0 <= i < |writes| ==> writes[i] != []
    ensures SetsTruncated(limit, writes) <==> |Concat(writes)| > limit
    ensures SetsTruncated(limit, writes) <==> Kept(limit, Concat(writes)) != Concat(writes)
  {
    if i :| 0 <= i < |writes| && ArrivesFull(limit, writes, i) {
      PrefixShorter(writes, i);
    }
  }

  lemma FullAndFitting(limit: int, writes: seq<Bytes>, i: nat)
    requires i < |writes| && ArrivesFull(limit, writes, i)
    requires |Concat(writes)| <= Room(limit)
    ensures |Concat(writes)| == Room(limit) && writes[|writes| - 1] == []
  {
    var n := |writes|;
    PrefixShorter(writes, i);
    PrefixShorter(writes[i..], n - 1 - i);
    ConcatSnoc([], writes[n - 1]);
    assert writes[i..][n - 1 - i..] == [] + [writes[n - 1]];
  }

  lemma EmptyAtTheBrim(limit: int, writes: seq<Bytes>)
    requires writes != [] && writes[|writes| - 1] == [] && |Concat(writes)| == Room(limit)
    ensures ArrivesFull(limit, writes, |writes| - 1)
  {
    ConcatSnoc(writes[..|writes| - 1], []);
    assert writes == writes[..|writes| - 1] + [[]];
  }

  lemma KeptAll(limit: int, all: Bytes)
    ensures Kept(limit, all) == all <==> |all| <= Room(limit)
  {
  }

  /** Over all limits and writes, the flag is right exactly unless the last write is
      empty and the output fills the buffer to the byte. */
  lemma TruncatedExactly(limit: int, writes: seq<Bytes>)
    ensures (SetsTruncated(limit, writes) <==> Kept(limit, Concat(writes)) != Concat(writes))
            <==> !(writes != [] && writes[|writes| - 1] == [] && |Concat(writes)| == Room(limit))
  {
    KeptAll(limit, Concat(writes));
    if |Concat(writes)| <= Room(limit) {
      if i :| 0 <= i < |writes| && ArrivesFull(limit, writes, i) {
        FullAndFitting(limit, writes, i);
      }
      if writes != [] && writes[|writes| - 1] == [] && |Concat(writes)| == Room(limit) {
        EmptyAtTheBrim(limit, writes);
      }
    }
  }

  /** An empty write to a full buffer sets the flag though nothing was dropped. */
  lemma EmptyWriteSetsFlag(full: Bytes)
    ensures SetsTruncated(|full|, [full, []])
    ensures Kept(|full|, Concat([full, []])) == Concat([full, []]) == full
  {
    assert [full, []][..1] == [full];
    ConcatSnoc([], full);
    ConcatSnoc([full], []);
    assert [] + [full] == [full] && [full] + [[]] == [full, []];
    assert ArrivesFull(|full|, [full, []], 1);
  }

  /** For well-formed output the string returned is the longest well-formed prefix
      within the limit, whatever the writes it arrived in. */
  lemma ShownIsLongest(limit: int, writes: seq<Bytes>)
    requires Valid(Concat(writes))
    ensures var all := Concat(writes);
            IsLongestValid(all, Min(Room(limit), |all|), |Shown(limit, writes)|)
    ensures Shown(limit, writes) <= Concat(writes)
  {
    var all := Concat(writes);
    var n := Min(Room(limit), |all|);
    SplitIsLongest(all, n);
    if !SetsTruncated(limit, writes) {
      assert all[..n] == all;
    }
  }

  // ---- audit targets ----

  const MaxTargetBytes := 2048

  /** The ellipsis appended to a cut target. */
  const Ellipsis: Bytes := [0xE2, 0x80, 0xA6]

  predicate RuneStart(b: bv8) { !IsContinuation(b) }

  /** Where a long target is cut: the last byte at or before `cut` that can begin a
      character, or the start of the text. */
  ghost predicate IsCut(s: Bytes, limit: nat, cut: nat)
    requires limit < |s|
  {
    && cut <= limit
    && (cut > 0 ==> RuneStart(s[cut]))
    && forall k :: cut < k <= limit ==> !RuneStart(s[k])
  }

  method TruncateTarget(s: Bytes) returns (r: Bytes)
    ensures |s| <= 2048 ==> r == s
    ensures |s| > 2048 ==> exists cut :: 0 <= cut <= 2048 && IsCut(s, 2048, cut) && r == s[..cut] + [0xE2, 0x80, 0xA6]
    ensures Valid(s) && |s| > 2048 ==> r == s[..Floor(s, 2048)] + [0xE2, 0x80, 0xA6]
  {
    if |s| <= MaxTargetBytes {
      return s;
    }
    var cut := MaxTargetBytes;
    while cut > 0 && !RuneStart(s[cut])
      invariant 0 <= cut <= MaxTargetBytes
      invariant forall k :: cut < k <= MaxTargetBytes ==> !RuneStart(s[k])
    {
      cut := cut - 1;
    }
    assert IsCut(s, MaxTargetBytes, cut);
    if Valid(s) {
      CutIsFloor(s, MaxTargetBytes, cut);
    }
    return s[..cut] + Ellipsis;
  }

  /** In well-formed text the backward scan stops on the last character boundary. */
  lemma {:induction false} CutIsFloor(s: Bytes, limit: nat, cut: nat)
    requires Valid(s) && limit < |s| && IsCut(s, limit, cut)
    ensures cut == Floor(s, limit)
  {
    var c := CharLen(s);
    CharShape(s);
    if limit >= c {
      assert s[c..] != [];
      CharShape(s[c..]);
      assert s[c] == s[c..][0];
      assert cut >= c;
      CutIsFloor(s[c..], limit - c, cut - c);
    } else if cut > 0 {
      assert false;
    }
  }

  /** A cut target is well-formed text: the longest prefix of at most 2048 bytes that
      ends on a character boundary, then an ellipsis. */
  lemma TruncatedTargetValid(s: Bytes)
    requires Valid(s) && |s| > MaxTargetBytes
    ensures IsLongestValid(s, MaxTargetBytes, Floor(s, MaxTargetBytes))
    ensures Valid(s[..Floor(s, MaxTargetBytes)] + Ellipsis)
  {
    FloorIsLongest(s, MaxTargetBytes);
    assert Ellipsis[3..] == [];
    ValidConcat(s[..Floor(s, MaxTargetBytes)], Ellipsis);
  }
}
