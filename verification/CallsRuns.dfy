/** Pieces that runs of the protocol are put together from. */
module CallsRuns {
  import opened Calls

  predicate NoConnect(acts: seq<Action>) { forall a :: a in acts ==> !a.Connect? }

  /** Extends a run by one step. */
  lemma Then(s: State, acts: seq<Action>, a: Action) returns (more: seq<Action>)
    requires Legal(s, acts) && NoConnect(acts) && Enabled(Final(s, acts), a) && !a.Connect?
    ensures Legal(s, more) && NoConnect(more) && Final(s, more) == Apply(Final(s, acts), a)
  {
    hide Apply, Enabled;
    StepOn(s, acts, a);
    more := acts + [a];
  }

  ghost predicate FreshFrom(s: State, c0: nat) { forall c: nat :: c >= c0 ==> c !in s.calls }

  lemma {:induction false} Above(ids: set<nat>) returns (top: nat)
    ensures forall i :: i in ids ==> i < top
    decreases |ids|
  {
    if ids == {} {
      top := 0;
    } else {
      var i :| i in ids;
      var t := Above(ids - {i});
      top := if t > i then t else i + 1;
      assert forall j :: j in ids ==> j == i || j in ids - {i};
    }
  }

  /** The current connection is open and its reader idle. */
  ghost predicate Open(s: State, k: nat) {
    k < |s.conns| && k == |s.conns| - 1 && !s.conns[k].closed && s.conns[k].reader.Reading? && s.conns[k].toHub == []
  }

  /** `m` calls have begun and registered on connection `k`, the last of them as `c`. */
  ghost predicate Issued(s: State, s': State, k: nat, m: nat, c: nat, r: Request) {
    && Open(s, k) && Open(s', k)
    && s'.handlers == s.handlers && |s'.conns| == |s.conns|
    && s'.inflight == s.inflight && s'.inSession == s.inSession && s'.conns[k].toWorker == s.conns[k].toWorker
    && s'.conns[k].nextID == s.conns[k].nextID + m
    && c in s'.calls && s'.calls[c] == Call(k, r, s'.conns[k].nextID, Registered, [], 0)
    && s'.conns[k].nextID in s'.conns[k].pending && s'.conns[k].pending[s'.conns[k].nextID] == c
    && FreshFrom(s', c + 1)
  }

  lemma IssueOne(s: State, k: nat, c: nat, r: Request) returns (acts: seq<Action>)
    requires Open(s, k) && FreshFrom(s, c)
    ensures Legal(s, acts) && NoConnect(acts) && Issued(s, Final(s, acts), k, 1, c, r)
  {
    var s1 := Apply(s, Begin(c, k, r));
    var s2 := Apply(s1, Register(c));
    assert Issued(s, s2, k, 1, c, r);
    hide Apply, Enabled;
    OneStep(s, Begin(c, k, r));
    acts := Then(s, [Begin(c, k, r)], Register(c));
  }

  lemma {:induction false} IssueMany(s: State, k: nat, c0: nat, m: nat, r: Request) returns (acts: seq<Action>)
    requires Open(s, k) && FreshFrom(s, c0) && m > 0
    ensures Legal(s, acts) && NoConnect(acts) && Issued(s, Final(s, acts), k, m, c0 + m - 1, r)
    decreases m
  {
    hide Apply, Enabled;
    if m == 1 {
      acts := IssueOne(s, k, c0, r);
    } else {
      var first := IssueMany(s, k, c0, m - 1, r);
      var last := IssueOne(Final(s, first), k, c0 + m - 1, r);
      RunOn(s, first, last);
      acts := first + last;
    }
  }

  lemma RequestSent(r: Request) returns (acts: seq<Action>)
    ensures Legal(Start, acts)
    ensures var s := Final(Start, acts);
            && s.inSession && s.handlers == map[] && s.inflight == map[]
            && |s.conns| == 1 && s.conns[0].toWorker == [Req(1, r)] && s.conns[0].reader.Reading?
            && 0 in s.calls && s.calls[0] == Call(0, r, 1, Waiting, [], 0)
  {
    var s1 := Apply(Start, Connect);
    var s2 := Apply(s1, Begin(0, 0, r));
    var s3 := Apply(s2, Register(0));
    OneStep(Start, Connect);
    StepOn(Start, [Connect], Begin(0, 0, r));
    StepOn(Start, [Connect] + [Begin(0, 0, r)], Register(0));
    StepOn(Start, [Connect] + [Begin(0, 0, r)] + [Register(0)], Send(0));
    acts := [Connect] + [Begin(0, 0, r)] + [Register(0)] + [Send(0)];
  }
}
