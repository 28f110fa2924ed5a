/** Which worker serves which agent: the hub's registry of connections and pins. */
module Routing {

  // ---- worker ids in the order Go compares strings ----

  predicate Less(a: string, b: string) {
    b != [] && (a == [] || a[0] < b[0] || (a[0] == b[0] && Less(a[1..], b[1..])))
  }

  /** Earlier in byte order: a proper prefix, or less where they first differ. */
  ghost predicate Precedes(a: string, b: string) {
    exists i :: 0 <= i <= |a| && i < |b| && a[..i] == b[..i] && (i == |a| || a[i] < b[i])
  }

  lemma SameFirst(a: string, b: string, i: nat)
    requires i <= |a| && i <= |b| && a[..i] == b[..i]
    ensures i == 0 || a[0] == b[0]
  {
    if i > 0 {
      assert a[..i][0] == b[..i][0];
    }
  }

  lemma {:induction false} LessExactly(a: string, b: string)
    ensures Less(a, b) <==> Precedes(a, b)
  {
    if a != [] && b != [] && a[0] == b[0] {
      LessExactly(a[1..], b[1..]);
      if Precedes(a[1..], b[1..]) {
        var i :| 0 <= i <= |a[1..]| && i < |b[1..]| && a[1..][..i] == b[1..][..i] && (i == |a[1..]| || a[1..][i] < b[1..][i]);
        assert a[..i + 1] == [a[0]] + a[1..][..i] && b[..i + 1] == [b[0]] + b[1..][..i];
      }
      if Precedes(a, b) {
        var i :| 0 <= i <= |a| && i < |b| && a[..i] == b[..i] && (i == |a| || a[i] < b[i]);
        assert i > 0;
        assert a[1..][..i - 1] == a[..i][1..] && b[1..][..i - 1] == b[..i][1..];
      }
    } else if a != [] && b != [] && a[0] != b[0] {
      if Precedes(a, b) {
        var i :| 0 <= i <= |a| && i < |b| && a[..i] == b[..i] && (i == |a| || a[i] < b[i]);
        SameFirst(a, b, i);
      } else {
        assert a[..0] == b[..0];
      }
    } else if b != [] {
      assert a[..0] == b[..0];
    }
  }

  lemma {:induction false} LessTotal(a: string, b: string)
    ensures a == b || Less(a, b) || Less(b, a)
    ensures !(Less(a, b) && Less(b, a))
    ensures Less(a, b) ==> a != b
  {
    if a != [] && b != [] && a[0] == b[0] {
      LessTotal(a[1..], b[1..]);
      assert a == [a[0]] + a[1..] && b == [b[0]] + b[1..];
    }
  }

  lemma {:induction false} LessTransitive(a: string, b: string, c: string)
    requires Less(a, b) && Less(b, c)
    ensures Less(a, c)
  {
    if a != [] && a[0] == b[0] && b[0] == c[0] {
      LessTransitive(a[1..], b[1..], c[1..]);
    }
  }

  /** One accepted connection. Two connections of one worker are two of these. */
  class Worker {
    const id: string

    constructor (id: string)
      ensures this.id == id
    {
      this.id := id;
    }
  }

  type Pins = map<string, Worker>

  /** How many agents the worker named `id` serves. */
  function Load(pins: Pins, id: string): nat {
    |set a | a in pins && pins[a].id == id|
  }

  /** `v` is preferred to `w`: it serves fewer agents, or as many and its id comes first. */
  predicate Preferred(pins: Pins, v: Worker, w: Worker) {
    || Load(pins, v.id) < Load(pins, w.id)
    || (Load(pins, v.id) == Load(pins, w.id) && Less(v.id, w.id))
  }

  ghost predicate IsBest(workers: map<string, Worker>, pins: Pins, w: Worker) {
    && w in workers.Values
    && forall v :: v in workers.Values && v != w ==> Preferred(pins, w, v)
  }

  /** No worker has fewer agents, and none that has as many comes earlier by its id. */
  ghost predicate LeastLoaded(workers: map<string, Worker>, pins: Pins, w: Worker) {
    && w in workers.Values
    && forall v :: v in workers.Values ==>
         && Load(pins, w.id) <= Load(pins, v.id)
         && (Load(pins, v.id) == Load(pins, w.id) ==> !Precedes(v.id, w.id))
  }

  lemma BestIsLeast(workers: map<string, Worker>, pins: Pins, w: Worker)
    requires forall id :: id in workers ==> workers[id].id == id
    ensures IsBest(workers, pins, w) <==> LeastLoaded(workers, pins, w)
  {
    forall v: Worker ensures Less(v.id, w.id) <==> Precedes(v.id, w.id) {
      LessExactly(v.id, w.id);
    }
    forall v: Worker
      ensures v.id == w.id || Less(v.id, w.id) || Less(w.id, v.id)
      ensures !(Less(v.id, w.id) && Less(w.id, v.id)) && !Less(w.id, w.id)
    {
      LessTotal(v.id, w.id);
      LessTotal(w.id, w.id);
    }
    hide Less, Precedes;
    if LeastLoaded(workers, pins, w) {
      forall v | v in workers.Values && v != w ensures Preferred(pins, w, v) {
        var i :| i in workers && workers[i] == v;
        var j :| j in workers && workers[j] == w;
        assert v.id != w.id;
      }
    }
  }

  /** However the registry is walked, there is one best worker. */
  lemma BestUnique(workers: map<string, Worker>, pins: Pins, v: Worker, w: Worker)
    requires IsBest(workers, pins, v) && IsBest(workers, pins, w)
    ensures v == w
  {
    LessTotal(v.id, w.id);
  }

  lemma PreferredTransitive(pins: Pins, u: Worker, v: Worker, w: Worker)
    requires Preferred(pins, u, v) && Preferred(pins, v, w)
    ensures Preferred(pins, u, w)
  {
    if Less(u.id, v.id) && Less(v.id, w.id) {
      LessTransitive(u.id, v.id, w.id);
    }
  }

  lemma PreferredTotal(pins: Pins, v: Worker, w: Worker)
    requires v.id != w.id
    ensures Preferred(pins, v, w) || Preferred(pins, w, v)
  {
    LessTotal(v.id, w.id);
  }

  /** The pins after `w` says which agents it already holds: an agent somebody serves
      stays where it is. */
  function Reclaim(pins: Pins, w: Worker, agents: seq<string>): Pins {
    if agents == [] then pins
    else
      var before := Reclaim(pins, w, agents[..|agents| - 1]);
      var a := agents[|agents| - 1];
      if a == "" || (a in before && before[a] != w) then before else before[a := w]
  }

  /** A claim pins exactly the unclaimed, non-empty agents named, and moves nobody. */
  lemma {:induction false} ReclaimMeaning(pins: Pins, w: Worker, agents: seq<string>)
    ensures var after := Reclaim(pins, w, agents);
            && (forall a :: a in pins ==> a in after && after[a] == pins[a])
            && (forall a :: a in after && a !in pins <==> a !in pins && a != "" && a in agents)
            && (forall a :: a in after && a !in pins ==> after[a] == w)
  {
    if agents != [] {
      var n := |agents| - 1;
      ReclaimMeaning(pins, w, agents[..n]);
      assert agents == agents[..n] + [agents[n]];
    }
  }

  function Without(pins: Pins, w: Worker): Pins {
    map a | a in pins && pins[a] != w :: pins[a]
  }

  /** The registry is keyed by id, and every pin points to a registered connection. */
  ghost predicate Sound(workers: map<string, Worker>, pins: Pins) {
    && (forall id :: id in workers ==> workers[id].id == id)
    && (forall a :: a in pins ==> pins[a].id in workers && workers[pins[a].id] == pins[a])
  }

  lemma DropSound(workers: map<string, Worker>, pins: Pins, w: Worker)
    requires Sound(workers, pins) && w.id in workers && workers[w.id] == w
    ensures Sound(workers - {w.id}, Without(pins, w))
  {
  }

  class Hub {
    var workers: map<string, Worker>
    var assignments: Pins

    ghost predicate Valid()
      reads this
    {
      Sound(workers, assignments)
    }

    constructor ()
      ensures Valid() && workers == map[] && assignments == map[]
    {
      workers, assignments := map[], map[];
    }

    /** Registers a connection whose hello was accepted; a second connection under a live
        id is refused and changes nothing. */
    method Register(w: Worker, agents: seq<string>) returns (ok: bool)
      requires Valid()
      modifies this
      ensures Valid()
      ensures ok == (w.id !in old(workers))
      ensures !ok ==> workers == old(workers) && assignments == old(assignments)
      ensures ok ==> workers == old(workers)[w.id := w]
      ensures ok ==> assignments == Reclaim(old(assignments), w, agents)
    {
      if w.id in workers {
        return false;
      }
      workers := workers[w.id := w];
      for i := 0 to |agents|
        invariant workers == old(workers)[w.id := w]
        invariant assignments == Reclaim(old(assignments), w, agents[..i])
      {
        assert agents[..i + 1][..i] == agents[..i];
        var a := agents[i];
        if a == "" {
          continue;
        }
        if a in assignments && assignments[a] != w {
          continue;
        }
        assignments := assignments[a := w];
      }
      assert agents[..|agents|] == agents;
      ReclaimMeaning(old(assignments), w, agents);
      return true;
    }

    /** Forgets a connection and unpins every agent it served. */
    method Drop(w: Worker) returns (orphaned: seq<string>)
      requires Valid() && w.id in workers && workers[w.id] == w
      modifies this
      ensures Valid()
      ensures workers == old(workers) - {w.id}
      ensures assignments == Without(old(assignments), w)
      ensures forall a :: a in orphaned <==> a in old(assignments) && old(assignments)[a] == w
      ensures |orphaned| == |old(assignments)| - |assignments|
    {
      hide Sound;
      DropSound(workers, assignments, w);
      workers := workers - {w.id};
      orphaned := [];
      var todo := assignments.Keys;
      while todo != {}
        invariant workers == old(workers) - {w.id}
        invariant todo <= assignments.Keys <= old(assignments).Keys
        invariant forall a :: a in assignments ==> assignments[a] == old(assignments)[a]
        invariant forall a :: a in old(assignments) ==>
                    (a !in assignments <==> a !in todo && old(assignments)[a] == w)
        invariant forall a :: a in orphaned <==> a in old(assignments) && a !in assignments
        invariant |orphaned| + |assignments| == |old(assignments)|
      {
        var a :| a in todo;
        todo := todo - {a};
        if assignments[a] == w {
          RemoveOne(assignments, a);
          assignments := assignments - {a};
          orphaned := orphaned + [a];
        }
      }
      assert assignments == Without(old(assignments), w);
    }

    /** The worker serving `agent`, pinning the best one on first use. */
    method WorkerFor(agent: string) returns (w: Worker?)
      requires Valid()
      modifies `assignments
      ensures Valid()
      ensures agent in old(assignments) ==> w == old(assignments)[agent] && assignments == old(assignments)
      ensures agent !in old(assignments) && workers == map[] ==> w == null && assignments == old(assignments)
      ensures agent !in old(assignments) && workers != map[] ==>
                && w != null && IsBest(workers, old(assignments), w) && LeastLoaded(workers, old(assignments), w)
                && assignments == old(assignments)[agent := w]
    {
      if agent in assignments {
        return assignments[agent];
      }
      if |workers| == 0 {
        return null;
      }
      var load := Loads();
      var ids := workers.Keys;
      var best: Worker? := null;
      while ids != {}
        invariant assignments == old(assignments) && ids <= workers.Keys
        invariant best == null <==> ids == workers.Keys
        invariant best != null ==> best in workers.Values && best.id !in ids
        invariant forall id :: id in workers && id !in ids && workers[id] != best ==> Preferred(assignments, best, workers[id])
      {
        var id :| id in ids;
        var w := workers[id];
        if best == null {
          best := w;
        } else {
          var wl, bl := Get(load, w.id), Get(load, best.id);
          if wl < bl || (wl == bl && Less(w.id, best.id)) {
            Improves(best, w, workers.Keys - ids);
            best := w;
          } else {
            PreferredTotal(assignments, best, w);
          }
        }
        ids := ids - {id};
      }
      assert IsBest(workers, assignments, best);
      BestIsLeast(workers, assignments, best);
      assignments := assignments[agent := best];
      return best;
    }

    lemma Improves(best: Worker, w: Worker, done: set<string>)
      requires Preferred(assignments, w, best) && done <= workers.Keys
      requires forall id :: id in done && workers[id] != best ==> Preferred(assignments, best, workers[id])
      ensures forall id :: id in done ==> Preferred(assignments, w, workers[id])
    {
      forall id | id in done && workers[id] != best ensures Preferred(assignments, w, workers[id]) {
        PreferredTransitive(assignments, w, best, workers[id]);
      }
    }

    /** Counts the agents of each worker id. */
    method Loads() returns (load: map<string, nat>)
      ensures forall id :: Get(load, id) == Load(assignments, id)
    {
      load := map[];
      var todo := assignments.Keys;
      while todo != {}
        invariant todo <= assignments.Keys
        invariant forall id :: Get(load, id) == Counted(assignments, assignments.Keys - todo, id)
      {
        var a :| a in todo;
        var id := assignments[a].id;
        CountOne(assignments, assignments.Keys - todo, a);
        load := load[id := Get(load, id) + 1];
        assert assignments.Keys - (todo - {a}) == (assignments.Keys - todo) + {a};
        todo := todo - {a};
      }
      assert assignments.Keys - todo == assignments.Keys;
      forall id ensures Counted(assignments, assignments.Keys, id) == Load(assignments, id) {
        CountedAll(assignments, id);
      }
    }
  }

  /** A missing key of a Go map reads as zero. */
  function Get(load: map<string, nat>, id: string): nat {
    if id in load then load[id] else 0
  }

  lemma RemoveOne(pins: Pins, a: string)
    requires a in pins
    ensures |pins - {a}| == |pins| - 1
  {
    assert (pins - {a}).Keys == pins.Keys - {a};
    assert |(pins - {a}).Keys| == |pins - {a}| && |pins.Keys| == |pins|;
  }

  function Counted(pins: Pins, done: set<string>, id: string): nat {
    |set a | a in done && a in pins && pins[a].id == id|
  }

  lemma CountedAll(pins: Pins, id: string)
    ensures Counted(pins, pins.Keys, id) == Load(pins, id)
  {
    assert (set a | a in pins.Keys && a in pins && pins[a].id == id) == (set a | a in pins && pins[a].id == id);
  }

  lemma CountOne(pins: Pins, done: set<string>, a: string)
    requires a !in done && a in pins
    ensures forall id :: Counted(pins, done + {a}, id) == Counted(pins, done, id) + if id == pins[a].id then 1 else 0
  {
    forall id ensures Counted(pins, done + {a}, id) == Counted(pins, done, id) + if id == pins[a].id then 1 else 0 {
      var before := set b | b in done && b in pins && pins[b].id == id;
      var after := set b | b in done + {a} && b in pins && pins[b].id == id;
      assert after == before + if id == pins[a].id then {a} else {};
    }
  }

  // ---- runs of the hub ----

  /** The registry at one moment; `seen` are the connections accepted so far. */
  datatype State = State(workers: map<string, Worker>, pins: Pins, seen: set<Worker>)

  datatype Action =
    | Register(w: Worker, agents: seq<string>)  // a new connection
    | Drop(w: Worker)
    | Place(agent: string, w: Worker)           // first use of an agent

  predicate Initial(s: State) { s == State(map[], map[], {}) }

  ghost predicate Enabled(s: State, a: Action) {
    match a
    case Register(w, _) => w !in s.seen
    case Drop(w) => w.id in s.workers && s.workers[w.id] == w
    case Place(agent, w) => agent !in s.pins && IsBest(s.workers, s.pins, w)
  }

  function Apply(s: State, a: Action): State {
    match a
    case Register(w, agents) =>
      if w.id in s.workers then s.(seen := s.seen + {w})
      else State(s.workers[w.id := w], Reclaim(s.pins, w, agents), s.seen + {w})
    case Drop(w) => State(s.workers - {w.id}, Without(s.pins, w), s.seen)
    case Place(agent, w) => s.(pins := s.pins[agent := w])
  }

  ghost predicate IsRun(ss: seq<State>, acts: seq<Action>) {
    && |ss| == |acts| + 1
    && Initial(ss[0])
    && forall i :: 0 <= i < |acts| ==> Enabled(ss[i], acts[i]) && ss[i + 1] == Apply(ss[i], acts[i])
  }

  ghost predicate Inv(s: State) {
    Sound(s.workers, s.pins) && s.workers.Values <= s.seen
  }

  predicate Registered(s: State, w: Worker) { w.id in s.workers && s.workers[w.id] == w }

  lemma StepKeeps(s: State, a: Action)
    requires Inv(s) && Enabled(s, a)
    ensures Inv(Apply(s, a))
  {
    match a {
      case Register(w, agents) =>
        if w.id !in s.workers {
          RegisterSound(s.workers, s.pins, w, agents);
        }
      case Drop(w) => DropSound(s.workers, s.pins, w);
      case Place(_, _) =>
    }
  }

  lemma RegisterSound(workers: map<string, Worker>, pins: Pins, w: Worker, agents: seq<string>)
    requires Sound(workers, pins) && w.id !in workers
    ensures Sound(workers[w.id := w], Reclaim(pins, w, agents))
  {
    hide Reclaim;
    ReclaimMeaning(pins, w, agents);
    var after := Reclaim(pins, w, agents);
    forall a | a in after ensures after[a] == w || (a in pins && after[a] == pins[a]) {
    }
  }

  lemma {:induction false} Reachable(ss: seq<State>, acts: seq<Action>, i: nat)
    requires IsRun(ss, acts) && i < |ss|
    ensures Inv(ss[i])
  {
    if i > 0 {
      Reachable(ss, acts, i - 1);
      StepKeeps(ss[i - 1], acts[i - 1]);
      assert ss[i - 1 + 1] == Apply(ss[i - 1], acts[i - 1]);
    }
  }

  /** In every reachable state each pinned agent's connection is registered. */
  lemma PinsAreLive(ss: seq<State>, acts: seq<Action>, i: nat, agent: string)
    requires IsRun(ss, acts) && i < |ss| && agent in ss[i].pins
    ensures Registered(ss[i], ss[i].pins[agent])
  {
    Reachable(ss, acts, i);
  }

  /** One step moves no agent off a connection that is still registered after it, and a
      connection that is gone never comes back. */
  lemma StepKeepsPin(s: State, a: Action, agent: string)
    requires Inv(s) && Enabled(s, a) && agent in s.pins
    ensures var s' := Apply(s, a);
            Registered(s', s.pins[agent]) ==> agent in s'.pins && s'.pins[agent] == s.pins[agent]
    ensures var s' := Apply(s, a);
            forall w :: w in s.seen && Registered(s', w) ==> Registered(s, w)
    ensures s.seen <= Apply(s, a).seen
  {
    if a.Register? {
      ReclaimMeaning(s.pins, a.w, a.agents);
    }
  }

  /** An agent's pin never changes while the connection it points to stays registered:
      seen pinned to a connection at one moment, and that connection registered at a
      later one, the agent is still pinned to it then. */
  lemma {:induction false} PinsAreStable(ss: seq<State>, acts: seq<Action>, i: nat, j: nat, agent: string)
    requires IsRun(ss, acts) && i <= j < |ss| && agent in ss[i].pins
    requires Registered(ss[j], ss[i].pins[agent])
    ensures agent in ss[j].pins && ss[j].pins[agent] == ss[i].pins[agent]
    decreases j - i
  {
    var w := ss[i].pins[agent];
    if i < j {
      Reachable(ss, acts, i);
      assert w in ss[i].workers.Values;
      SeenGrows(ss, acts, i, j - 1);
      Reachable(ss, acts, j - 1);
      StepKeepsPinFor(ss[j - 1], acts[j - 1], w);
      assert ss[j - 1 + 1] == Apply(ss[j - 1], acts[j - 1]);
      PinsAreStable(ss, acts, i, j - 1, agent);
      StepKeepsPin(ss[j - 1], acts[j - 1], agent);
    }
  }

  lemma StepKeepsPinFor(s: State, a: Action, w: Worker)
    requires Inv(s) && Enabled(s, a) && w in s.seen && Registered(Apply(s, a), w)
    ensures Registered(s, w)
  {
  }

  lemma {:induction false} SeenGrows(ss: seq<State>, acts: seq<Action>, i: nat, j: nat)
    requires IsRun(ss, acts) && i <= j < |ss|
    ensures ss[i].seen <= ss[j].seen
    decreases j - i
  {
    if i < j {
      SeenGrows(ss, acts, i, j - 1);
      assert ss[j - 1 + 1] == Apply(ss[j - 1], acts[j - 1]);
    }
  }

  /** No two registered workers differ by more than one agent. */
  ghost predicate Balanced(s: State) {
    forall v, w :: v in s.workers && w in s.workers ==> Load(s.pins, v) <= Load(s.pins, w) + 1
  }

  lemma PlaceLoads(pins: Pins, agent: string, w: Worker, id: string)
    requires agent !in pins
    ensures Load(pins[agent := w], id) == Load(pins, id) + if id == w.id then 1 else 0
  {
    var pins' := pins[agent := w];
    var before := set a | a in pins && pins[a].id == id;
    var after := set a | a in pins' && pins'[a].id == id;
    assert Load(pins, id) == |before| && Load(pins', id) == |after|;
    hide Load;
    if id == w.id {
      assert after == before + {agent} && agent !in before;
    } else {
      assert after == before;
    }
  }

  lemma PlaceKeepsBalance(s: State, agent: string, w: Worker)
    requires Inv(s) && Enabled(s, Place(agent, w)) && Balanced(s)
    ensures Balanced(Apply(s, Place(agent, w)))
  {
    var s' := Apply(s, Place(agent, w));
    forall u, v | u in s'.workers && v in s'.workers ensures Load(s'.pins, u) <= Load(s'.pins, v) + 1 {
      PlaceLoads(s.pins, agent, w, u);
      PlaceLoads(s.pins, agent, w, v);
      var x, y := s.workers[u], s.workers[v];
      assert x in s.workers.Values && y in s.workers.Values;
      if u == w.id && v != w.id {
        assert Preferred(s.pins, w, y);
      }
    }
  }

  /** From a balanced pool, any number of first uses keeps it balanced. */
  lemma {:induction false} PlacementsStayBalanced(ss: seq<State>, acts: seq<Action>, i: nat, j: nat)
    requires IsRun(ss, acts) && i <= j < |ss|
    requires Balanced(ss[i]) && forall k :: i <= k < j ==> acts[k].Place?
    ensures Balanced(ss[j]) && ss[j].workers == ss[i].workers
    decreases j - i
  {
    if i < j {
      PlacementsStayBalanced(ss, acts, i, j - 1);
      Reachable(ss, acts, j - 1);
      PlaceKeepsBalance(ss[j - 1], acts[j - 1].agent, acts[j - 1].w);
      assert ss[j - 1 + 1] == Apply(ss[j - 1], acts[j - 1]);
    }
  }

  /** Placement never gets stuck: with a worker registered there is a best one. */
  lemma {:induction false} BestExists(workers: map<string, Worker>, pins: Pins, ids: set<string>) returns (w: Worker)
    requires (forall id :: id in workers ==> workers[id].id == id) && {} != ids <= workers.Keys
    ensures w.id in ids && workers[w.id] == w
    ensures forall id :: id in ids && workers[id] != w ==> Preferred(pins, w, workers[id])
    decreases |ids|
  {
    var id :| id in ids;
    var rest := ids - {id};
    if rest == {} {
      w := workers[id];
    } else {
      var b := BestExists(workers, pins, rest);
      var v := workers[id];
      PreferredTotal(pins, b, v);
      if Preferred(pins, b, v) {
        w := b;
      } else {
        w := v;
        forall x | x in ids && workers[x] != w ensures Preferred(pins, w, workers[x]) {
          if workers[x] != b {
            PreferredTransitive(pins, v, b, workers[x]);
          }
        }
      }
    }
  }

  /** With a worker registered, an agent without a pin can always be placed. */
  lemma PlaceEnabled(ss: seq<State>, acts: seq<Action>, i: nat, agent: string) returns (w: Worker)
    requires IsRun(ss, acts) && i < |ss| && ss[i].workers != map[] && agent !in ss[i].pins
    ensures Enabled(ss[i], Place(agent, w))
  {
    Reachable(ss, acts, i);
    w := BestExists(ss[i].workers, ss[i].pins, ss[i].workers.Keys);
  }
}
