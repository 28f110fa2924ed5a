/** Byte strings delivered in pieces. */
module Chunks {
  import opened Utf8

  /** What the pieces spell when put together. */
  function Concat(pieces: seq<Bytes>): Bytes {
    if pieces == [] then [] else pieces[0] + Concat(pieces[1..])
  }

  lemma {:induction false} ConcatAppend(a: seq<Bytes>, b: seq<Bytes>)
    ensures Concat(a + b) == Concat(a) + Concat(b)
  {
    if a == [] {
      assert a + b == b;
    } else {
      assert (a + b)[1..] == a[1..] + b;
      ConcatAppend(a[1..], b);
    }
  }

  lemma ConcatSnoc(a: seq<Bytes>, last: Bytes)
    ensures Concat(a + [last]) == Concat(a) + last
  {
    ConcatAppend(a, [last]);
    assert [last][1..] == [];
  }

  /** Something done to each piece. */
  function Each(f: Bytes -> Bytes, pieces: seq<Bytes>): seq<Bytes> {
    seq(|pieces|, i requires 0 <= i < |pieces| => f(pieces[i]))
  }
}
