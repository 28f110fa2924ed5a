/** Every call is told at most once, and nobody is left waiting on a dropped worker. */
module CallsOnce {
  import opened Calls

  /** Still expecting to be told something: its id has not been given back. */
  predicate Active(x: Call) { x.phase.Registered? || x.phase.Waiting? || x.phase.SendFailed? }

  /** The reader has taken the call's waiter and is about to send to it. */
  predicate Held(r: Reader, c: nat) {
    (r.Delivering? && r.call == c) || (r.Failing? && c in r.rest)
  }

  /** The right to tell a call is in one place: its pending entry, the reader that took
      the entry, or spent. */
  ghost predicate CallOk(s: State, c: nat) {
    c in s.calls &&
    var x := s.calls[c];
    && x.conn < |s.conns|
    && (x.id == 0 <==> x.phase.Resolved? || x.phase.Refused?)
    && (x.id == 0 ==> x.sends == 0)
    && (x.id > 0 ==> x.id in s.conns[x.conn].issued && s.conns[x.conn].issued[x.id] == c)
    && x.sends == |x.inbox| + (if x.phase.Answered? then 1 else 0)
    && x.sends <= 1
    && (Active(x) ==> x.id in s.conns[x.conn].pending || Held(s.conns[x.conn].reader, c) || x.sends == 1)
  }

  ghost predicate Owed(s: State, k: nat, c: nat, id: nat) {
    c in s.calls && s.calls[c].conn == k && s.calls[c].id == id && id > 0 && s.calls[c].sends == 0
  }

  ghost predicate ConnOk(s: State, k: nat)
    requires k < |s.conns|
  {
    var x := s.conns[k];
    && (forall i :: i in x.pending ==> Owed(s, k, x.pending[i], i) && Active(s.calls[x.pending[i]])
                                       && i in x.issued && x.issued[i] == x.pending[i])
    && (forall i :: i in x.issued ==> 0 < i <= x.nextID && x.issued[i] in s.calls
                                      && s.calls[x.issued[i]].conn == k && s.calls[x.issued[i]].id == i)
    && (x.closed <==> x.reader.Failing? || x.reader.Finished?)
    && (x.closed ==> x.pending == map[])
    && (x.reader.Delivering? ==> HeldOk(s, k, x.reader.call))
    && (x.reader.Failing? ==> forall c :: c in x.reader.rest ==> HeldOk(s, k, c))
  }

  ghost predicate HeldOk(s: State, k: nat, c: nat)
    requires k < |s.conns|
  {
    && c in s.calls && Owed(s, k, c, s.calls[c].id)
    && s.calls[c].id in s.conns[k].issued && s.conns[k].issued[s.calls[c].id] == c
    && s.calls[c].id !in s.conns[k].pending
  }

  ghost predicate Inv(s: State) {
    && (forall c :: c in s.calls ==> CallOk(s, c))
    && (forall k :: 0 <= k < |s.conns| ==> ConnOk(s, k))
  }

  predicate SameCore(x: Conn, y: Conn) {
    x.closed == y.closed && x.nextID == y.nextID && x.pending == y.pending && x.reader == y.reader && x.issued == y.issued
  }

  lemma CallFrame(s: State, s': State, c: nat)
    requires CallOk(s, c) && c in s'.calls && s'.calls[c] == s.calls[c]
    requires |s'.conns| >= |s.conns| && SameCore(s.conns[s.calls[c].conn], s'.conns[s.calls[c].conn])
    ensures CallOk(s', c)
  {
  }

  lemma ConnFrame(s: State, s': State, k: nat)
    requires k < |s.conns| && ConnOk(s, k) && k < |s'.conns| && SameCore(s.conns[k], s'.conns[k])
    requires forall c :: c in s.calls && s.calls[c].conn == k ==> c in s'.calls && s'.calls[c] == s.calls[c]
    ensures ConnOk(s', k)
  {
  }

  /** A step that touches one connection and calls on it leaves the others in order. */
  lemma Local(s: State, s': State, k: nat)
    requires Inv(s) && |s'.conns| == |s.conns| && k < |s.conns|
    requires forall j :: 0 <= j < |s.conns| && j != k ==> SameCore(s.conns[j], s'.conns[j])
    requires forall c :: c in s.calls && s.calls[c].conn != k ==> c in s'.calls && s'.calls[c] == s.calls[c]
    requires forall c :: c in s'.calls && s'.calls[c].conn != k ==> c in s.calls && s.calls[c] == s'.calls[c]
    requires ConnOk(s', k)
    requires forall c :: c in s'.calls && s'.calls[c].conn == k ==> CallOk(s', c)
    ensures Inv(s')
  {
    forall c | c in s'.calls ensures CallOk(s', c) {
      if s'.calls[c].conn != k {
        assert CallOk(s, c);
        CallFrame(s, s', c);
      }
    }
    hide CallOk;
    forall j | 0 <= j < |s'.conns| ensures ConnOk(s', j) {
      if j != k {
        assert ConnOk(s, j);
        ConnFrame(s, s', j);
      }
    }
  }

  predicate WorkerOnly(s: State, s': State) {
    && s'.calls == s.calls && |s'.conns| >= |s.conns|
    && (forall j :: 0 <= j < |s.conns| ==> SameCore(s.conns[j], s'.conns[j]))
    && (forall j :: |s.conns| <= j < |s'.conns| ==> s'.conns[j] == NewConn)
  }

  lemma WorkerEffect(s: State, a: Action)
    requires Enabled(s, a) && !CallerStep(a) && !ReaderStep(a)
    ensures WorkerOnly(s, Apply(s, a))
  {
    hide CallerEnabled, CallerApply, ReaderEnabled, ReaderApply;
    if HandlerStep(a) {
      hide LinkEnabled, LinkApply;
    } else {
      hide HandlerEnabled, HandlerApply;
    }
  }

  lemma WorkerKeeps(s: State, a: Action)
    requires Inv(s) && Enabled(s, a) && !CallerStep(a) && !ReaderStep(a)
    ensures Inv(Apply(s, a))
  {
    hide Apply, Enabled;
    WorkerEffect(s, a);
    var s' := Apply(s, a);
    forall c | c in s'.calls ensures CallOk(s', c) {
      assert CallOk(s, c);
      CallFrame(s, s', c);
    }
    hide CallOk;
    forall j | 0 <= j < |s'.conns| ensures ConnOk(s', j) {
      if j < |s.conns| {
        assert ConnOk(s, j);
        ConnFrame(s, s', j);
      }
    }
  }

  ghost predicate Touches(s: State, s': State, k: nat, c: nat) {
    && |s'.conns| == |s.conns| && k < |s.conns|
    && (forall j :: 0 <= j < |s.conns| && j != k ==> SameCore(s.conns[j], s'.conns[j]))
    && c in s'.calls && s'.calls[c].conn == k && (c in s.calls ==> s.calls[c].conn == k)
    && (forall d :: d != c ==> (d in s.calls <==> d in s'.calls))
    && (forall d :: d != c && d in s.calls ==> s'.calls[d] == s.calls[d])
    && var x, y := s.conns[k], s'.conns[k];
       && (forall i :: i in x.issued && x.issued[i] != c ==> i in y.issued && y.issued[i] == x.issued[i])
       && (forall i :: i in x.pending && x.pending[i] != c ==> i in y.pending)
       && (forall d :: d != c && Held(x.reader, d) ==> Held(y.reader, d))
  }

  /** On one connection, a step of one call that leaves every other call's place alone. */
  lemma OneCall(s: State, s': State, k: nat, c: nat)
    requires Inv(s) && Touches(s, s', k, c)
    requires ConnOk(s', k) && CallOk(s', c)
    ensures Inv(s')
  {
    forall d | d in s'.calls && s'.calls[d].conn == k ensures CallOk(s', d) {
      if d != c {
        assert CallOk(s, d);
        if s.calls[d].id in s.conns[k].pending {
          assert ConnOk(s, k);
        }
      }
    }
    Local(s, s', k);
  }

  lemma CallerKeeps(s: State, a: Action)
    requires Inv(s) && Enabled(s, a) && CallerStep(a)
    ensures Inv(Apply(s, a))
  {
    var k := if a.Begin? then a.k else s.calls[a.c].conn;
    assert ConnOk(s, k) && (a.Begin? || CallOk(s, a.c));
    hide Inv;
    CallerCall(s, a, k);
    CallerConn(s, a, k);
    CallerTouches(s, a, k);
    hide ConnOk, CallOk, Apply, Touches;
    OneCall(s, Apply(s, a), k, a.c);
  }

  lemma CallerTouches(s: State, a: Action, k: nat)
    requires Enabled(s, a) && CallerStep(a)
    requires k == (if a.Begin? then a.k else s.calls[a.c].conn) && ConnOk(s, k) && (a.Begin? || CallOk(s, a.c))
    ensures Touches(s, Apply(s, a), k, a.c)
  {
    if a.Register? {
      RegisterTouches(s, a.c);
    } else if a.Forget? || a.GiveUp? {
      UnpendTouches(s, a);
    } else {
      QuietEffect(s, a, k);
      hide Apply, Enabled;
    }
  }

  lemma RegisterTouches(s: State, c: nat)
    requires Enabled(s, Register(c)) && ConnOk(s, s.calls[c].conn) && CallOk(s, c)
    ensures Touches(s, Apply(s, Register(c)), s.calls[c].conn, c)
  {
    hide ReaderEnabled, ReaderApply, WorkerEnabled, WorkerApply;
  }

  lemma UnpendTouches(s: State, a: Action)
    requires Enabled(s, a) && (a.Forget? || a.GiveUp?) && ConnOk(s, s.calls[a.c].conn) && CallOk(s, a.c)
    ensures Touches(s, Apply(s, a), s.calls[a.c].conn, a.c)
  {
    hide ReaderEnabled, ReaderApply, WorkerEnabled, WorkerApply;
  }

  lemma CallerCall(s: State, a: Action, k: nat)
    requires Enabled(s, a) && CallerStep(a)
    requires k == (if a.Begin? then a.k else s.calls[a.c].conn) && ConnOk(s, k) && (a.Begin? || CallOk(s, a.c))
    ensures CallOk(Apply(s, a), a.c)
  {
    if a.Begin? || a.Register? || a.TakeAnswer? {
      MovedCall(s, a, k);
    } else {
      EndingCall(s, a, k);
    }
  }

  lemma MovedCall(s: State, a: Action, k: nat)
    requires Enabled(s, a) && (a.Begin? || a.Register? || a.TakeAnswer?)
    requires k == (if a.Begin? then a.k else s.calls[a.c].conn) && ConnOk(s, k) && (a.Begin? || CallOk(s, a.c))
    ensures CallOk(Apply(s, a), a.c)
  {
    hide ReaderEnabled, ReaderApply, WorkerEnabled, WorkerApply;
  }

  lemma EndingCall(s: State, a: Action, k: nat)
    requires Enabled(s, a) && CallerStep(a) && !a.Begin? && !a.Register? && !a.TakeAnswer?
    requires k == s.calls[a.c].conn && ConnOk(s, k) && CallOk(s, a.c)
    ensures CallOk(Apply(s, a), a.c)
  {
    hide ReaderEnabled, ReaderApply, WorkerEnabled, WorkerApply;
    if SendingStep(a) {
      hide OpeningEnabled, OpeningApply;
    } else {
      hide SendingEnabled, SendingApply;
    }
  }

  /** Where the conn's own entries stand after one of its calls takes a step. */
  lemma CallerConn(s: State, a: Action, k: nat)
    requires Enabled(s, a) && CallerStep(a)
    requires k == (if a.Begin? then a.k else s.calls[a.c].conn) && ConnOk(s, k) && (a.Begin? || CallOk(s, a.c))
    ensures ConnOk(Apply(s, a), k)
  {
    if a.Register? {
      RegisterConn(s, a.c, k);
    } else if a.Forget? || a.GiveUp? {
      UnpendConn(s, a, k);
    } else {
      QuietConn(s, a, k);
    }
  }

  lemma RegisterConn(s: State, c: nat, k: nat)
    requires Enabled(s, Register(c)) && k == s.calls[c].conn && ConnOk(s, k) && CallOk(s, c)
    ensures ConnOk(Apply(s, Register(c)), k)
  {
    hide ReaderEnabled, ReaderApply, WorkerEnabled, WorkerApply;
    var s' := Apply(s, Register(c));
    if s.conns[k].closed {
      assert s' == SetCall(s, c, s.calls[c].(phase := Refused));
      hide Apply, Enabled;
      RefusedConn(s, s', c, k);
    } else {
      var x, y := s.conns[k], s'.conns[k];
      var id := x.nextID + 1;
      assert y == x.(nextID := id, pending := x.pending[id := c], issued := x.issued[id := c]);
      assert s'.calls == s.calls[c := s.calls[c].(id := id, phase := Registered)];
      hide Apply, Enabled;
      IssuedConn(s, s', c, k);
    }
  }

  lemma RefusedConn(s: State, s': State, c: nat, k: nat)
    requires k < |s.conns| && ConnOk(s, k) && CallOk(s, c) && s.calls[c].phase.Resolved? && s.calls[c].conn == k
    requires s' == SetCall(s, c, s.calls[c].(phase := Refused))
    ensures ConnOk(s', k)
  {
    assert forall d :: d in s.calls && d != c ==> s'.calls[d] == s.calls[d];
  }

  lemma IssuedConn(s: State, s': State, c: nat, k: nat)
    requires k < |s.conns| && k < |s'.conns| && ConnOk(s, k) && CallOk(s, c)
    requires s.calls[c].phase.Resolved? && s.calls[c].conn == k && !s.conns[k].closed
    requires var x := s.conns[k];
             var id := x.nextID + 1;
             && s'.conns[k] == x.(nextID := id, pending := x.pending[id := c], issued := x.issued[id := c])
             && s'.calls == s.calls[c := s.calls[c].(id := id, phase := Registered)]
    ensures ConnOk(s', k)
  {
    var x, y := s.conns[k], s'.conns[k];
    forall i | i in y.issued
      ensures 0 < i <= y.nextID && y.issued[i] in s'.calls && s'.calls[y.issued[i]].conn == k && s'.calls[y.issued[i]].id == i
    {
      assert i == x.nextID + 1 || y.issued[i] != c;
    }
    if y.reader.Delivering? {
      assert HeldOk(s, k, y.reader.call);
      assert y.reader.call != c;
    }
    forall i | i in y.pending ensures Owed(s', k, y.pending[i], i) && Active(s'.calls[y.pending[i]]) {
      assert i == x.nextID + 1 || (i in x.pending && Owed(s, k, x.pending[i], i));
    }
  }

  lemma UnpendConn(s: State, a: Action, k: nat)
    requires Enabled(s, a) && (a.Forget? || a.GiveUp?) && k == s.calls[a.c].conn && ConnOk(s, k) && CallOk(s, a.c)
    ensures ConnOk(Apply(s, a), k)
  {
    hide Apply, ConnOk;
    UnpendEffect(s, a);
    UnpendFrame(s, Apply(s, a), k, a.c);
  }

  lemma UnpendFrame(s: State, s': State, k: nat, c: nat)
    requires k < |s.conns| && ConnOk(s, k) && c in s.calls && s.calls[c].conn == k && |s'.conns| == |s.conns|
    requires s'.conns[k] == s.conns[k].(pending := s.conns[k].pending - {s.calls[c].id})
    requires c in s'.calls && s'.calls == s.calls[c := s.calls[c].(phase := s'.calls[c].phase)]
    ensures ConnOk(s', k)
  {
    assert forall i :: i in s.conns[k].pending && i != s.calls[c].id ==> s.conns[k].pending[i] != c;
    assert forall d :: d in s.calls && d != c ==> d in s'.calls && s'.calls[d] == s.calls[d];
  }

  lemma UnpendEffect(s: State, a: Action)
    requires Enabled(s, a) && (a.Forget? || a.GiveUp?)
    ensures var s', x := Apply(s, a), s.calls[a.c];
            && |s'.conns| == |s.conns|
            && s'.conns[x.conn] == s.conns[x.conn].(pending := s.conns[x.conn].pending - {x.id})
            && a.c in s'.calls && s'.calls == s.calls[a.c := x.(phase := s'.calls[a.c].phase)]
  {
    hide ReaderEnabled, ReaderApply, WorkerEnabled, WorkerApply;
  }

  /** Steps that give no id out or back. */
  lemma QuietConn(s: State, a: Action, k: nat)
    requires Enabled(s, a) && CallerStep(a) && !a.Register? && !a.Forget? && !a.GiveUp?
    requires k == (if a.Begin? then a.k else s.calls[a.c].conn) && ConnOk(s, k) && (a.Begin? || CallOk(s, a.c))
    ensures ConnOk(Apply(s, a), k)
  {
    var s' := Apply(s, a);
    QuietEffect(s, a, k);
    hide Apply, Enabled;
    QuietFrame(s, s', k, a.c);
  }

  /** The call moves on within its place, or begins; its connection's core is untouched. */
  ghost predicate MovesOn(s: State, s': State, k: nat, c: nat) {
    && |s'.conns| == |s.conns| && k < |s.conns| && SameCore(s.conns[k], s'.conns[k])
    && (forall j :: 0 <= j < |s.conns| && j != k ==> s'.conns[j] == s.conns[j])
    && c in s'.calls && s'.calls == s.calls[c := s'.calls[c]]
    && (c in s.calls ==>
          && s'.calls[c].conn == s.calls[c].conn && s'.calls[c].id == s.calls[c].id && s'.calls[c].sends == s.calls[c].sends
          && (Active(s.calls[c]) && !Active(s'.calls[c]) ==> s.calls[c].sends == 1))
  }

  lemma QuietEffect(s: State, a: Action, k: nat)
    requires Enabled(s, a) && CallerStep(a) && !a.Register? && !a.Forget? && !a.GiveUp?
    requires k == (if a.Begin? then a.k else s.calls[a.c].conn) && (a.Begin? || CallOk(s, a.c))
    ensures MovesOn(s, Apply(s, a), k, a.c) && Apply(s, a).calls[a.c].conn == k
    ensures a.Begin? ==> a.c !in s.calls
  {
    hide ReaderEnabled, ReaderApply, WorkerEnabled, WorkerApply;
    QuietConns(s, a, k);
    assert a.Begin? || Apply(s, a).calls[a.c].conn == k;
  }

  lemma QuietConns(s: State, a: Action, k: nat)
    requires Enabled(s, a) && CallerStep(a) && !a.Register? && !a.Forget? && !a.GiveUp?
    requires k == (if a.Begin? then a.k else s.calls[a.c].conn)
    ensures var s' := Apply(s, a);
            && |s'.conns| == |s.conns| && k < |s.conns| && SameCore(s.conns[k], s'.conns[k])
            && (forall j :: 0 <= j < |s.conns| && j != k ==> s'.conns[j] == s.conns[j])
  {
    hide ReaderEnabled, ReaderApply, WorkerEnabled, WorkerApply;
    if SendingStep(a) {
      hide OpeningEnabled, OpeningApply;
    } else {
      hide SendingEnabled, SendingApply;
    }
  }

  lemma QuietFrame(s: State, s': State, k: nat, c: nat)
    requires k < |s.conns| && ConnOk(s, k) && MovesOn(s, s', k, c)
    ensures ConnOk(s', k)
  {
    assert forall d :: d in s.calls && d != c ==> s'.calls[d] == s.calls[d];
  }

  lemma NotifyKeeps(s: State, a: Action)
    requires Inv(s) && Enabled(s, a) && (a.Deliver? || a.FailOne?)
    ensures Inv(Apply(s, a))
  {
    var c := if a.Deliver? then s.conns[a.k].reader.call else a.c;
    assert ConnOk(s, a.k) && CallOk(s, c);
    hide Inv;
    NotifyLocal(s, a, c);
    NotifyTouches(s, a, c);
    hide ConnOk, CallOk, Touches, Apply;
    OneCall(s, Apply(s, a), a.k, c);
  }

  lemma NotifyTouches(s: State, a: Action, c: nat)
    requires Enabled(s, a) && (a.Deliver? || a.FailOne?) && ConnOk(s, a.k) && CallOk(s, c)
    requires c == if a.Deliver? then s.conns[a.k].reader.call else a.c
    ensures Touches(s, Apply(s, a), a.k, c)
  {
    hide CallerEnabled, CallerApply, WorkerEnabled, WorkerApply;
  }

  lemma NotifyLocal(s: State, a: Action, c: nat)
    requires Enabled(s, a) && (a.Deliver? || a.FailOne?) && ConnOk(s, a.k) && CallOk(s, c)
    requires c == if a.Deliver? then s.conns[a.k].reader.call else a.c
    ensures ConnOk(Apply(s, a), a.k) && CallOk(Apply(s, a), c)
  {
    hide ConnOk, CallOk;
    NotifyConn(s, a, c);
    NotifyCall(s, a, c);
  }

  lemma NotifyConn(s: State, a: Action, c: nat)
    requires Enabled(s, a) && (a.Deliver? || a.FailOne?) && ConnOk(s, a.k) && CallOk(s, c)
    requires c == if a.Deliver? then s.conns[a.k].reader.call else a.c
    ensures ConnOk(Apply(s, a), a.k)
  {
    hide CallerEnabled, CallerApply, WorkerEnabled, WorkerApply;
  }

  lemma NotifyCall(s: State, a: Action, c: nat)
    requires Enabled(s, a) && (a.Deliver? || a.FailOne?) && ConnOk(s, a.k) && CallOk(s, c)
    requires c == if a.Deliver? then s.conns[a.k].reader.call else a.c
    ensures CallOk(Apply(s, a), c)
  {
    hide CallerEnabled, CallerApply, WorkerEnabled, WorkerApply;
  }

  lemma ReadKeeps(s: State, a: Action)
    requires Inv(s) && Enabled(s, a) && a.ReadResult?
    ensures Inv(Apply(s, a))
  {
    var s' := Apply(s, a);
    var x, f := s.conns[a.k], s.conns[a.k].toHub[0];
    assert ConnOk(s, a.k);
    if f.id in x.pending {
      var c := x.pending[f.id];
      assert CallOk(s, c);
      ReadTakes(s, a, c);
      hide Inv, ConnOk, CallOk, Touches, Apply;
      OneCall(s, s', a.k, c);
    } else {
      hide ConnOk;
      ConnFrame(s, s', a.k);
      forall d | d in s'.calls && s'.calls[d].conn == a.k ensures CallOk(s', d) {
        assert CallOk(s, d);
        CallFrame(s, s', d);
      }
      hide Inv, CallOk;
      Local(s, s', a.k);
    }
  }

  lemma ReadTakes(s: State, a: Action, c: nat)
    requires Enabled(s, a) && a.ReadResult? && ConnOk(s, a.k) && CallOk(s, c)
    requires var x := s.conns[a.k]; x.toHub[0].id in x.pending && x.pending[x.toHub[0].id] == c
    ensures ConnOk(Apply(s, a), a.k) && CallOk(Apply(s, a), c) && Touches(s, Apply(s, a), a.k, c)
  {
    hide CallerEnabled, CallerApply, WorkerEnabled, WorkerApply;
  }

  lemma EndKeeps(s: State, a: Action)
    requires Inv(s) && Enabled(s, a) && (a.ReadFails? || a.Close? || a.Finish?)
    ensures Inv(Apply(s, a))
  {
    var s' := Apply(s, a);
    assert ConnOk(s, a.k);
    EndConn(s, a);
    assert s'.calls == s.calls;
    assert forall j :: 0 <= j < |s.conns| && j != a.k ==> s'.conns[j] == s.conns[j];
    forall d | d in s'.calls && s'.calls[d].conn == a.k ensures CallOk(s', d) {
      assert CallOk(s, d);
      EndCall(s, a, d);
    }
    hide Inv, CallOk, ConnOk, Apply, Enabled;
    Local(s, s', a.k);
  }

  lemma EndConn(s: State, a: Action)
    requires Enabled(s, a) && (a.ReadFails? || a.Close? || a.Finish?) && ConnOk(s, a.k)
    ensures ConnOk(Apply(s, a), a.k)
  {
  }

  lemma EndCall(s: State, a: Action, d: nat)
    requires Enabled(s, a) && (a.ReadFails? || a.Close? || a.Finish?) && ConnOk(s, a.k)
    requires CallOk(s, d) && s.calls[d].conn == a.k
    ensures CallOk(Apply(s, a), d)
  {
  }

  /** Every step of every goroutine keeps the invariant. */
  lemma StepKeeps(s: State, a: Action)
    requires Inv(s) && Enabled(s, a)
    ensures Inv(Apply(s, a))
  {
    hide Inv, Apply;
    if CallerStep(a) {
      CallerKeeps(s, a);
      return;
    }
    match a {
      case Deliver(_) => NotifyKeeps(s, a);
      case FailOne(_, _) => NotifyKeeps(s, a);
      case ReadResult(_) => ReadKeeps(s, a);
      case ReadFails(_) => EndKeeps(s, a);
      case Close(_) => EndKeeps(s, a);
      case Finish(_) => EndKeeps(s, a);
      case _ => WorkerKeeps(s, a);
    }
  }

  lemma {:induction false} RunKeeps(s: State, acts: seq<Action>)
    requires Inv(s) && Legal(s, acts)
    ensures Inv(Final(s, acts))
    decreases |acts|
  {
    hide Inv, Apply, Enabled;
    if acts != [] {
      StepKeeps(s, acts[0]);
      RunKeeps(Apply(s, acts[0]), acts[1..]);
    }
  }

  lemma Reachable(acts: seq<Action>)
    requires Legal(Start, acts)
    ensures Inv(Final(Start, acts))
  {
    assert Inv(Start);
    RunKeeps(Start, acts);
  }

  // ---- main results ----

  /** In every interleaving, at most one thing is ever sent to a call's channel. */
  lemma ToldAtMostOnce(acts: seq<Action>, c: nat)
    requires Legal(Start, acts) && c in Final(Start, acts).calls
    ensures var x := Final(Start, acts).calls[c];
            x.sends <= 1 && x.sends == |x.inbox| + (if x.phase.Answered? then 1 else 0)
  {
    Reachable(acts);
    assert CallOk(Final(Start, acts), c);
  }

  lemma HeldCanTake(s: State, k: nat)
    requires Inv(s) && k < |s.conns|
    ensures s.conns[k].reader.Delivering? ==> Enabled(s, Deliver(k))
    ensures s.conns[k].reader.Failing? ==> forall c :: c in s.conns[k].reader.rest ==> Enabled(s, FailOne(k, c))
  {
    assert ConnOk(s, k);
    assert forall c :: c in s.calls ==> CallOk(s, c);
    hide Inv;
  }

  /** The channel a reader is about to send to always has room, so neither the reader of
      results nor the end of a connection ever blocks. */
  lemma SendsNeverBlock(acts: seq<Action>, k: nat)
    requires Legal(Start, acts) && k < |Final(Start, acts).conns|
    ensures var s := Final(Start, acts);
            && (s.conns[k].reader.Delivering? ==>
                  Enabled(s, Deliver(k)) && s.conns[k].reader.call in s.calls && s.calls[s.conns[k].reader.call].inbox == [])
            && (s.conns[k].reader.Failing? ==> forall c :: c in s.conns[k].reader.rest ==>
                  Enabled(s, FailOne(k, c)) && c in s.calls && s.calls[c].inbox == [])
  {
    hide Legal, Final;
    Reachable(acts);
    HeldCanTake(Final(Start, acts), k);
  }

  /** Once a connection's end has been dealt with, every call still waiting on it has
      been told something, and a call arriving later is refused at once. */
  lemma NobodyLeftWaiting(acts: seq<Action>, k: nat)
    requires Legal(Start, acts) && k < |Final(Start, acts).conns|
    requires Final(Start, acts).conns[k].reader.Finished?
    ensures var s := Final(Start, acts);
            && s.conns[k].closed && s.conns[k].pending == map[]
            && (forall c :: c in s.calls && s.calls[c].conn == k && s.calls[c].phase.Waiting? ==>
                  Enabled(s, TakeAnswer(c)))
            && (forall c :: Enabled(s, Register(c)) && s.calls[c].conn == k ==>
                  Apply(s, Register(c)).calls[c].phase == Refused && Apply(s, Register(c)).conns == s.conns)
  {
    var s := Final(Start, acts);
    Reachable(acts);
    assert ConnOk(s, k);
    forall c | c in s.calls && s.calls[c].conn == k && s.calls[c].phase.Waiting? ensures Enabled(s, TakeAnswer(c)) {
      assert CallOk(s, c);
    }
  }

  /** A connection whose end has been dealt with stays that way. */
  lemma {:induction false} FinishedForGood(s: State, acts: seq<Action>, k: nat)
    requires Legal(s, acts) && k < |s.conns| && s.conns[k].reader.Finished?
    ensures k < |Final(s, acts).conns| && Final(s, acts).conns[k].reader.Finished?
    decreases |acts|
  {
    if acts != [] {
      FinishedStep(s, acts[0], k);
      hide Apply, Enabled;
      FinishedForGood(Apply(s, acts[0]), acts[1..], k);
    }
  }

  lemma FinishedStep(s: State, a: Action, k: nat)
    requires Enabled(s, a) && k < |s.conns| && s.conns[k].reader.Finished?
    ensures k < |Apply(s, a).conns| && Apply(s, a).conns[k].reader.Finished?
  {
    if !ReaderStep(a) {
      ReadersKept(s, a, k);
    }
  }

  lemma ReadersKept(s: State, a: Action, k: nat)
    requires Enabled(s, a) && k < |s.conns| && !ReaderStep(a)
    ensures k < |Apply(s, a).conns| && Apply(s, a).conns[k].reader == s.conns[k].reader
  {
    hide ReaderEnabled, ReaderApply;
    if CallerStep(a) {
      hide WorkerEnabled, WorkerApply;
    } else {
      hide CallerEnabled, CallerApply;
    }
  }

  predicate Ended(p: Phase) { p.Answered? || p.Refused? || p.NotSent? || p.Abandoned? }

  /** A call ends once: answered, refused, unsent or abandoned, it stays what it is. */
  lemma {:induction false} EndsOnce(s: State, acts: seq<Action>, c: nat)
    requires Legal(s, acts) && c in s.calls && Ended(s.calls[c].phase)
    ensures c in Final(s, acts).calls && Final(s, acts).calls[c].phase == s.calls[c].phase
    decreases |acts|
  {
    if acts != [] {
      EndedStep(s, acts[0], c);
      hide Apply, Enabled;
      EndsOnce(Apply(s, acts[0]), acts[1..], c);
    }
  }

  lemma EndedStep(s: State, a: Action, c: nat)
    requires Enabled(s, a) && c in s.calls && Ended(s.calls[c].phase)
    ensures c in Apply(s, a).calls && Apply(s, a).calls[c].phase == s.calls[c].phase
  {
    hide Enabled, Apply;
    if CallerStep(a) {
      EndedCaller(s, a, c);
    } else if ReaderStep(a) {
      EndedReader(s, a, c);
    } else if HandlerStep(a) {
      HandlerLeavesHub(s, a);
    } else {
      LinkLeavesHub(s, a);
    }
  }

  lemma EndedCaller(s: State, a: Action, c: nat)
    requires Enabled(s, a) && CallerStep(a) && c in s.calls && Ended(s.calls[c].phase)
    ensures c in Apply(s, a).calls && Apply(s, a).calls[c] == s.calls[c]
  {
    hide ReaderEnabled, ReaderApply, WorkerEnabled, WorkerApply;
  }

  lemma EndedReader(s: State, a: Action, c: nat)
    requires Enabled(s, a) && ReaderStep(a) && c in s.calls
    ensures c in Apply(s, a).calls && Apply(s, a).calls[c].phase == s.calls[c].phase
  {
    hide CallerEnabled, CallerApply, WorkerEnabled, WorkerApply;
  }
}
