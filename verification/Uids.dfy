/** One user id per agent, with the file system as the register of who has which. */
module Uids {
  import opened Wrappers
  import opened Handover

  const UserNamespaceIDs := 65536
  const FirstUnreserved := 1000

  datatype UIDRange = UIDRange(first: Uint32, count: Uint32) {
    predicate Enabled() { count > 0 && first > 0 }

    /** The end of the range as 32-bit arithmetic gives it. */
    function End(): Uint32 { (first + count) % TwoTo32 }

    predicate Contains(id: Uint32) { Enabled() && id >= first && id < End() }

    predicate Validates() {
      Enabled() ==> first + count <= UserNamespaceIDs && first >= FirstUnreserved
    }
  }

  /** In a validated range the 32-bit test for membership is the true one. */
  lemma ContainsExactly(r: UIDRange, id: Uint32)
    requires r.Validates() && r.Enabled()
    ensures r.Contains(id) <==> r.first <= id < r.first + r.count
  {
  }

  /** A user namespace maps the id into a pod, and no distribution reserves it. */
  predicate Mappable(id: int) { 1000 <= id < 65536 }

  /** A range that hands out ids is accepted exactly when each of its ids is one a user
      namespace maps, and none is a distribution's own; one that hands out none always is. */
  lemma ValidatesExactly(r: UIDRange)
    ensures if r.first == 0 || r.count == 0 then r.Validates() && !r.Enabled() && forall id :: !r.Contains(id)
            else r.Enabled() && (r.Validates() <==> forall id :: r.first <= id < r.first + r.count ==> Mappable(id))
  {
    if r.first > 0 && r.count > 0 && forall id :: r.first <= id < r.first + r.count ==> Mappable(id) {
      var last := r.first + r.count - 1;
      assert Mappable(r.first) && Mappable(last);
    }
  }

  /** Who owns each agent's directory. */
  type Claims = map<string, Uint32>

  predicate Claimed(claims: Claims, id: Uint32) { exists a :: a in claims && claims[a] == id }

  /** `id` is the lowest in the range that no directory belongs to. */
  ghost predicate IsLowestFree(r: UIDRange, claims: Claims, id: Uint32) {
    && r.Contains(id) && !Claimed(claims, id)
    && forall j: Uint32 :: r.first <= j < id ==> Claimed(claims, j)
  }

  ghost predicate AllClaimed(r: UIDRange, claims: Claims) {
    forall j: Uint32 :: r.Contains(j) ==> Claimed(claims, j)
  }

  /** The first unclaimed id from `id` up. */
  ghost function FreshFrom(r: UIDRange, claims: Claims, id: Uint32): Option<Uint32>
    decreases r.End() - id
  {
    if id >= r.End() then None else if !Claimed(claims, id) then Some(id) else FreshFrom(r, claims, id + 1)
  }

  /** The id the register has to offer an agent without one. */
  ghost function Fresh(r: UIDRange, claims: Claims): Option<Uint32> { FreshFrom(r, claims, r.first) }

  lemma {:induction false} FreshFromMeaning(r: UIDRange, claims: Claims, id: Uint32)
    requires r.Validates() && r.Enabled() && r.first <= id
    requires forall j: Uint32 :: r.first <= j < id ==> Claimed(claims, j)
    ensures match FreshFrom(r, claims, id)
            case None => AllClaimed(r, claims)
            case Some(uid) => IsLowestFree(r, claims, uid)
    decreases r.End() - id
  {
    if id < r.End() && Claimed(claims, id) {
      FreshFromMeaning(r, claims, id + 1);
    }
  }

  /** A fresh id is the lowest one free, and there is none exactly when every id in the
      range is claimed. */
  lemma FreshMeaning(r: UIDRange, claims: Claims)
    requires r.Validates() && r.Enabled()
    ensures Fresh(r, claims).None? <==> AllClaimed(r, claims)
    ensures Fresh(r, claims).Some? ==> IsLowestFree(r, claims, Fresh(r, claims).value)
  {
    FreshFromMeaning(r, claims, r.first);
    if Fresh(r, claims).Some? {
      assert r.Contains(Fresh(r, claims).value);
    }
  }

  /** How far an attempt to set a directory up gets before the system refuses a step. */
  datatype Fate =
    | Succeeds
    | FailsEarly    // before an id is picked
    | FailsMaking   // with an id picked, but before the directory is made or touched
    | FailsHanding  // in the hand-over, with the directory still the worker's
    | FailsAfter    // with the directory handed over, building the sandbox on it

  datatype Outcome = Got(uid: Uint32) | Exhausted | Broken | NoAgent

  /** The registry on disk, and the sandboxes this process has built. */
  datatype State = State(claims: Claims, instances: Claims)

  /** Settling an agent's id and directory. */
  ghost function Assign(r: UIDRange, worker: Uint32, claims: Claims, agent: string, fate: Fate): (Claims, Outcome) {
    if !r.Enabled() then (claims, Got(0))
    else if fate.FailsEarly? then (claims, Broken)
    else if agent in claims && r.Contains(claims[agent]) then (claims, Got(claims[agent]))
    else match Fresh(r, claims)
      case None => (claims, Exhausted)
      case Some(uid) =>
        if fate.FailsMaking? then (claims, Broken)
        else if fate.FailsHanding? then (claims[agent := worker], Broken) else (claims[agent := uid], Got(uid))
  }

  /** Getting an agent's sandbox, building it on first use. */
  ghost function Get(r: UIDRange, worker: Uint32, s: State, agent: string, fate: Fate): (State, Outcome) {
    if agent == "" then (s, NoAgent)
    else if agent in s.instances then (s, Got(s.instances[agent]))
    else
      var (claims, out) := Assign(r, worker, s.claims, agent, fate);
      if !out.Got? then (s.(claims := claims), out)
      else if fate.FailsAfter? then (s.(claims := claims), Broken)
      else (State(claims, s.instances[agent := out.uid]), out)
  }

  // ---- the register, as the volume holds it ----

  predicate IsEntry(root: Path, p: Path) { |p| == |root| + 1 && p[..|root|] == root }

  /** Who owns each agent's directory, one level below the root. */
  ghost function ClaimsIn(owners: map<Path, Uint32>, root: Path): Claims {
    var agents := set p | p in owners && IsEntry(root, p) :: p[|root|];
    map a | a in agents && root + [a] in owners :: owners[root + [a]]
  }

  lemma ClaimsAre(owners: map<Path, Uint32>, root: Path)
    ensures forall a :: a in ClaimsIn(owners, root) <==> root + [a] in owners
    ensures forall a :: a in ClaimsIn(owners, root) ==> ClaimsIn(owners, root)[a] == owners[root + [a]]
    ensures forall p :: p in owners && IsEntry(root, p) ==> root + [p[|root|]] == p
  {
    forall a | root + [a] in owners ensures a in ClaimsIn(owners, root) {
      var p := root + [a];
      assert IsEntry(root, p) && p[|root|] == a;
    }
  }

  /** Changing one agent's tree, and the root itself, changes one claim. */
  lemma OneClaim(before: map<Path, Uint32>, after: map<Path, Uint32>, root: Path, agent: string)
    requires root + [agent] in after
    requires forall b :: b != agent ==> (root + [b] in before <==> root + [b] in after)
    requires forall b :: b != agent && root + [b] in before ==> after[root + [b]] == before[root + [b]]
    ensures ClaimsIn(after, root) == ClaimsIn(before, root)[agent := after[root + [agent]]]
  {
    ClaimsAre(before, root);
    ClaimsAre(after, root);
  }

  lemma SameClaims(before: map<Path, Uint32>, after: map<Path, Uint32>, root: Path)
    requires forall b :: root + [b] in before <==> root + [b] in after
    requires forall b :: root + [b] in before ==> after[root + [b]] == before[root + [b]]
    ensures ClaimsIn(after, root) == ClaimsIn(before, root)
  {
    ClaimsAre(before, root);
    ClaimsAre(after, root);
  }

  /** An agent's tree holds no other agent's directory. */
  lemma ApartFromOthers(root: Path, agent: string, contents: Trees)
    ensures forall b :: b != agent ==> !InTree(root, Node(agent, contents), root + [b])
    ensures !InTree(root, Node(agent, contents), root) && InTree(root, Node(agent, contents), root + [agent])
  {
    forall b | InTree(root, Node(agent, contents), root + [b]) ensures b == agent {
      assert (root + [b])[|root|..][0] == b;
    }
    assert (root + [agent])[|root|..] == [agent] && (root + [agent])[..|root|] == root;
  }

  lemma EmptyHolds(root: Path, agent: string)
    ensures forall p :: InTree(root, Node(agent, Empty), p) ==> p == root + [agent]
  {
    forall p | InTree(root, Node(agent, Empty), p) ensures p == root + [agent] {
      var names := p[|root|..];
      assert !Among(Empty, names[1..]);
      assert names == [agent];
      assert p == p[..|root|] + names;
    }
  }

  /** Where the system refuses an attempt: finding the directory, making or taking over the
      root, making the directory, listing it, or any numbered step of the hand-over. */
  datatype Trouble = Trouble(stat: bool, root: bool, make: bool, walk: bool, steps: set<nat>)

  class Manager {
    const range: UIDRange
    const worker: Uint32
    const root: Path
    const volume: Volume
    var instances: Claims

    ghost function Register(): Claims
      reads volume
    {
      ClaimsIn(volume.owners, root)
    }

    ghost function View(): State
      reads this, volume
    {
      State(Register(), instances)
    }

    /** A manager over a volume that may already hold directories. */
    constructor (range: UIDRange, worker: Uint32, root: Path, volume: Volume)
      requires range.Validates()
      ensures this.range == range && this.worker == worker && this.root == root && this.volume == volume
      ensures instances == map[]
    {
      this.range, this.worker, this.root, this.volume, instances := range, worker, root, volume, map[];
    }

    /** Reads the register for the lowest id nobody has. */
    method NextFreeUID() returns (found: Option<Uint32>)
      requires range.Validates() && range.Enabled()
      ensures found == Fresh(range, Register())
    {
      var taken := Taken();
      var uid := range.first;
      while uid < range.End()
        invariant range.first <= uid <= range.End()
        invariant Fresh(range, Register()) == FreshFrom(range, Register(), uid)
      {
        if uid !in taken {
          return Some(uid);
        }
        uid := uid + 1;
      }
      return None;
    }

    /** The owners of the agents' directories. */
    method Taken() returns (taken: set<Uint32>)
      ensures forall id: Uint32 :: id in taken <==> Claimed(Register(), id)
    {
      hide ClaimsIn;
      ClaimsAre(volume.owners, root);
      taken := {};
      var entries := set p | p in volume.owners && IsEntry(root, p);
      var todo := entries;
      while todo != {}
        invariant todo <= entries
        invariant forall p :: p in entries && p !in todo ==> volume.owners[p] in taken
        invariant forall id :: id in taken ==> Claimed(Register(), id)
      {
        var p :| p in todo;
        assert p[|root|] in Register();
        taken := taken + {volume.owners[p]};
        todo := todo - {p};
      }
      TakenIsClaimed(volume.owners, root, taken);
    }

    /** The directory is as the volume has it: there with these contents, or missing. */
    ghost predicate Holds(agent: string, contents: Trees)
      reads volume
    {
      && Proper(Node(agent, contents))
      && if root + [agent] in volume.owners
         then forall p :: InTree(root, Node(agent, contents), p) ==> p in volume.owners
         else contents.Empty?
    }

    /** Gives the agent an id, and its directory to that id. */
    method AssignUID(agent: string, contents: Trees, trouble: Trouble) returns (out: Outcome, ghost fate: Fate)
      requires range.Validates() && Holds(agent, contents)
      modifies volume
      ensures (Register(), out) == Assign(range, worker, old(Register()), agent, fate)
      ensures out.Got? ==> fate.Succeeds?
      ensures out.Broken? ==>
                (NothingClaimed(range, old(Register()), Register()) <==>
                 Register() == old(Register()) || !range.Contains(worker) || Claimed(old(Register()), worker))
      ensures out.Got? && range.Enabled() && old(Register()) != Register() ==>
                forall p :: InTree(root, Node(agent, contents), p) ==> p in volume.owners && volume.owners[p] == out.uid
    {
      if !range.Enabled() {
        return Got(0), Succeeds;
      }
      if trouble.stat {
        return Broken, FailsEarly;
      }
      var dir := root + [agent];
      ClaimsAre(volume.owners, root);
      if dir in volume.owners && range.Contains(volume.owners[dir]) {
        return Got(volume.owners[dir]), Succeeds;
      }
      var found := NextFreeUID();
      match found {
        case None => return Exhausted, Succeeds;
        case Some(uid) =>
          ghost var before := Register();
          out, fate := SetUp(agent, contents, uid, trouble);
          NothingNew(range, before);
          WorkersOwn(range, before, agent, worker);
      }
    }

    /** Makes the root and the directory if need be, and hands the directory over. */
    method SetUp(agent: string, contents: Trees, uid: Uint32, trouble: Trouble) returns (out: Outcome, ghost fate: Fate)
      requires Holds(agent, contents)
      modifies volume
      ensures out == Got(uid) || out == Broken
      ensures out.Got? ==> fate.Succeeds? && Register() == old(Register())[agent := uid]
      ensures out.Broken? ==> (fate.FailsMaking? && Register() == old(Register()))
                              || (fate.FailsHanding? && Register() == old(Register())[agent := worker])
      ensures out.Got? ==>
                forall p :: InTree(root, Node(agent, contents), p) ==> p in volume.owners && volume.owners[p] == uid
    {
      hide ClaimsIn, InTree, Proper;
      var ready := Prepare(agent, contents, trouble);
      if !ready {
        return Broken, FailsMaking;
      }
      ghost var made := volume.owners;
      var ok := volume.ChownTree(root, Node(agent, contents), uid, worker, trouble.walk, trouble.steps);
      ApartFromOthers(root, agent, contents);
      TreeClaim(made, volume.owners, root, agent, contents);
      if ok {
        return Got(uid), Succeeds;
      }
      return Broken, if volume.owners[root + [agent]] != worker then FailsMaking else FailsHanding;
    }

    /** Makes the root, and the directory if it is missing, in the worker's own name. */
    method Prepare(agent: string, contents: Trees, trouble: Trouble) returns (ok: bool)
      requires Holds(agent, contents)
      modifies volume
      ensures !ok ==> Register() == old(Register())
      ensures ok ==> Register() == if agent in old(Register()) then old(Register()) else old(Register())[agent := worker]
      ensures ok ==> forall p :: InTree(root, Node(agent, contents), p) ==> p in volume.owners
      ensures ok ==> Proper(Node(agent, contents))
    {
      hide ClaimsIn, Proper;
      ghost var was := volume.owners;
      var dir := root + [agent];
      ClaimsAre(was, root);
      NotTheRoot(root);
      volume.MakeDir(root, worker, !trouble.root);
      SameClaims(was, volume.owners, root);
      if trouble.root {
        return false;
      }
      volume.AdoptDir(root, worker, true);
      SameClaims(was, volume.owners, root);
      if trouble.make {
        return false;
      }
      ghost var rooted := volume.owners;
      volume.MakeDir(dir, worker, true);
      Siblings(root);
      OneClaim(rooted, volume.owners, root, agent);
      EmptyHolds(root, agent);
      return true;
    }

    /** Builds the sandbox on the directory, or fails to. */
    method GetSandbox(agent: string, contents: Trees, trouble: Trouble, built: bool)
      returns (out: Outcome, ghost fate: Fate)
      requires range.Validates() && Holds(agent, contents)
      modifies this, volume
      ensures (View(), out) == Get(range, worker, old(View()), agent, fate)
    {
      if agent == "" {
        return NoAgent, Succeeds;
      }
      if agent in instances {
        return Got(instances[agent]), Succeeds;
      }
      out, fate := AssignUID(agent, contents, trouble);
      if !out.Got? {
        return;
      }
      if !built {
        return Broken, FailsAfter;
      }
      instances := instances[agent := out.uid];
    }
  }

  lemma NotTheRoot(root: Path)
    ensures forall b: string :: root + [b] != root
  {
    assert forall b: string :: |root + [b]| == |root| + 1;
  }

  lemma Siblings(root: Path)
    ensures forall a: string, b: string :: a != b ==> root + [a] != root + [b]
  {
    assert forall a: string :: (root + [a])[|root|] == a;
  }

  /** A hand-over of the agent's tree changes no claim but the agent's. */
  lemma TreeClaim(before: map<Path, Uint32>, after: map<Path, Uint32>, root: Path, agent: string, contents: Trees)
    requires before.Keys == after.Keys && root + [agent] in after
    requires forall p :: p in after && !InTree(root, Node(agent, contents), p) ==> after[p] == before[p]
    ensures ClaimsIn(after, root) == ClaimsIn(before, root)[agent := after[root + [agent]]]
  {
    hide InTree, ClaimsIn;
    ApartFromOthers(root, agent, contents);
    OneClaim(before, after, root, agent);
  }

  lemma TakenIsClaimed(owners: map<Path, Uint32>, root: Path, taken: set<Uint32>)
    requires forall p :: p in owners && IsEntry(root, p) ==> owners[p] in taken
    requires forall id :: id in taken ==> Claimed(ClaimsIn(owners, root), id)
    ensures forall id: Uint32 :: id in taken <==> Claimed(ClaimsIn(owners, root), id)
  {
    ClaimsAre(owners, root);
    forall a | a in ClaimsIn(owners, root) ensures ClaimsIn(owners, root)[a] in taken {
      assert IsEntry(root, root + [a]);
    }
  }

  /** No id of the range is claimed that was not, or freed that was claimed. */
  ghost predicate NothingClaimed(r: UIDRange, before: Claims, after: Claims) {
    forall id: Uint32 :: r.Contains(id) ==> (Claimed(after, id) <==> Claimed(before, id))
  }

  /** Left with the worker, a directory claims no id of the range, unless the worker's own
      id is one, and no directory had it. */
  lemma WorkersOwn(r: UIDRange, before: Claims, agent: string, worker: Uint32)
    requires agent in before ==> !r.Contains(before[agent])
    ensures NothingClaimed(r, before, before[agent := worker]) <==> !r.Contains(worker) || Claimed(before, worker)
  {
    var after := before[agent := worker];
    assert Claimed(after, worker) by { assert agent in after && after[agent] == worker; }
    forall id: Uint32 | r.Contains(id) && id != worker ensures Claimed(after, id) <==> Claimed(before, id) {
      if a :| a in before && before[a] == id {
        assert a in after && after[a] == id;
      }
    }
  }

  // ---- runs, restarts included ----

  datatype Action = Call(agent: string, fate: Fate) | Restart

  ghost function Apply(r: UIDRange, worker: Uint32, s: State, a: Action): State {
    match a
    case Call(agent, fate) => Get(r, worker, s, agent, fate).0
    case Restart => s.(instances := map[])
  }

  /** The states of a run over a volume that starts out with directories `ss[0].claims`. */
  ghost predicate IsRun(r: UIDRange, worker: Uint32, ss: seq<State>, acts: seq<Action>) {
    && |ss| == |acts| + 1
    && ss[0].instances == map[] && OneEach(r, ss[0].claims)
    && forall i :: 0 <= i < |acts| ==> ss[i + 1] == Apply(r, worker, ss[i], acts[i])
  }

  /** No two directories belong to the same id of the range. */
  ghost predicate OneEach(r: UIDRange, claims: Claims) {
    forall a, b :: a in claims && b in claims && a != b && r.Contains(claims[a]) ==> claims[a] != claims[b]
  }

  /** Every sandbox built runs as the owner of its directory. */
  ghost predicate Agrees(r: UIDRange, s: State) {
    forall a :: a in s.instances ==> a in s.claims && s.claims[a] == s.instances[a] && r.Contains(s.instances[a])
  }

  /** No claim moves: an id of the range stays with whoever has it. */
  ghost predicate ClaimsKept(r: UIDRange, before: Claims, after: Claims) {
    forall x :: x in before && r.Contains(before[x]) ==> x in after && after[x] == before[x]
  }

  /** The worker's own id, which half-made directories belong to, is not one of several that
      it hands out. */
  predicate Apart(r: UIDRange, worker: Uint32) { !r.Contains(worker) || r.count == 1 }

  lemma AssignKeeps(r: UIDRange, worker: Uint32, claims: Claims, agent: string, fate: Fate)
    requires r.Validates() && r.Enabled()
    ensures var (after, out) := Assign(r, worker, claims, agent, fate);
            && ClaimsKept(r, claims, after)
            && (out.Got? ==> agent in after && after[agent] == out.uid && r.Contains(out.uid))
            && (Apart(r, worker) && OneEach(r, claims) ==> OneEach(r, after))
  {
    hide Fresh;
    FreshMeaning(r, claims);
    if Fresh(r, claims).Some? {
      assert forall x :: x in claims ==> claims[x] != Fresh(r, claims).value;
    }
  }

  /** Every call, failed attempt and restart leaves the ids of the range where they are. */
  lemma StepKeepsClaims(r: UIDRange, worker: Uint32, s: State, a: Action)
    requires r.Validates() && r.Enabled() && Agrees(r, s)
    ensures Agrees(r, Apply(r, worker, s, a)) && ClaimsKept(r, s.claims, Apply(r, worker, s, a).claims)
  {
    hide Assign;
    if a.Call? {
      AssignKeeps(r, worker, s.claims, a.agent, a.fate);
    }
  }

  /** And unshared, the worker's own id permitting. */
  lemma StepKeeps(r: UIDRange, worker: Uint32, s: State, a: Action)
    requires r.Validates() && r.Enabled() && Apart(r, worker) && OneEach(r, s.claims)
    ensures OneEach(r, Apply(r, worker, s, a).claims)
  {
    hide Assign;
    if a.Call? {
      AssignKeeps(r, worker, s.claims, a.agent, a.fate);
    }
  }

  lemma {:induction false} Reachable(r: UIDRange, worker: Uint32, ss: seq<State>, acts: seq<Action>, i: nat)
    requires r.Validates() && r.Enabled() && IsRun(r, worker, ss, acts) && i < |ss|
    ensures Agrees(r, ss[i]) && (Apart(r, worker) ==> OneEach(r, ss[i].claims))
  {
    hide Apply, OneEach;
    if i > 0 {
      Reachable(r, worker, ss, acts, i - 1);
      StepKeepsClaims(r, worker, ss[i - 1], acts[i - 1]);
      if Apart(r, worker) {
        StepKeeps(r, worker, ss[i - 1], acts[i - 1]);
      }
      assert ss[i - 1 + 1] == Apply(r, worker, ss[i - 1], acts[i - 1]);
    }
  }

  /** Across restarts and failed attempts, no two agents' directories ever belong to the
      same id of the range, exactly when the worker's own id is not one of several in it. */
  lemma NeverShared(r: UIDRange, worker: Uint32)
    requires r.Validates() && r.Enabled()
    ensures Apart(r, worker) <==>
            forall ss: seq<State>, acts: seq<Action>, i: nat :: IsRun(r, worker, ss, acts) && i < |ss| ==> OneEach(r, ss[i].claims)
  {
    hide IsRun, OneEach;
    if Apart(r, worker) {
      forall ss: seq<State>, acts: seq<Action>, i: nat | IsRun(r, worker, ss, acts) && i < |ss| ensures OneEach(r, ss[i].claims) {
        Reachable(r, worker, ss, acts, i);
      }
    } else {
      var ss, acts := WorkersIdShared(r, worker);
      assert !OneEach(r, ss[2].claims);
    }
  }

  /** With the worker's own id among several: two attempts that fail in the hand-over leave
      both directories with that id, and after that both agents are given it. */
  lemma WorkersIdShared(r: UIDRange, worker: Uint32) returns (ss: seq<State>, acts: seq<Action>)
    requires r.Validates() && r.Enabled() && !Apart(r, worker)
    ensures IsRun(r, worker, ss, acts) && |ss| == 5 && !OneEach(r, ss[2].claims)
    ensures acts[2] == Call("a", Succeeds) && acts[3] == Call("b", Succeeds)
    ensures Get(r, worker, ss[2], "a", Succeeds).1 == Get(r, worker, ss[3], "b", Succeeds).1 == Got(worker)
  {
    hide Fresh, IsRun;
    acts := [Call("a", FailsHanding), Call("b", FailsHanding), Call("a", Succeeds), Call("b", Succeeds)];
    var s0, s1 := State(map[], map[]), State(map["a" := worker], map[]);
    var s2 := State(map["a" := worker, "b" := worker], map[]);
    var s3, s4 := s2.(instances := map["a" := worker]), s2.(instances := map["a" := worker, "b" := worker]);
    SomeFresh(r, map[]);
    SomeFresh(r, map["a" := worker]);
    assert Apply(r, worker, s0, acts[0]) == s1;
    assert Apply(r, worker, s1, acts[1]) == s2;
    assert Apply(r, worker, s2, acts[2]) == s3;
    assert Apply(r, worker, s3, acts[3]) == s4;
    ss := [s0, s1, s2, s3, s4];
    FiveStates(r, worker, ss, acts);
    assert "a" in s2.claims && "b" in s2.claims && "a" != "b";
  }

  lemma FiveStates(r: UIDRange, worker: Uint32, ss: seq<State>, acts: seq<Action>)
    requires |ss| == 5 && |acts| == 4 && ss[0] == State(map[], map[])
    requires ss[1] == Apply(r, worker, ss[0], acts[0]) && ss[2] == Apply(r, worker, ss[1], acts[1])
    requires ss[3] == Apply(r, worker, ss[2], acts[2]) && ss[4] == Apply(r, worker, ss[3], acts[3])
    ensures IsRun(r, worker, ss, acts)
  {
    hide Apply;
  }

  /** With fewer directories than ids there is an id to give. */
  lemma SomeFresh(r: UIDRange, claims: Claims)
    requires r.Validates() && r.Enabled() && |claims| < r.count && |claims| <= 1
    ensures Fresh(r, claims).Some?
  {
    FreshMeaning(r, claims);
    assert r.Contains(r.first) && (r.count > 1 ==> r.Contains(r.first + 1));
    hide Fresh;
    if |claims| == 1 {
      var a :| a in claims;
      assert |claims.Keys - {a}| == 0;
      assert forall b :: b in claims ==> b == a;
    } else {
      assert claims == map[];
    }
  }

  /** Once an agent's directory belongs to an id of the range, it stays so for good, and
      every later attempt that yields a sandbox yields one under that id. */
  lemma {:induction false} SameIdForGood(r: UIDRange, worker: Uint32, ss: seq<State>, acts: seq<Action>,
                                         i: nat, j: nat, agent: string)
    requires r.Validates() && r.Enabled() && IsRun(r, worker, ss, acts) && i <= j < |ss|
    requires agent != "" && agent in ss[i].claims && r.Contains(ss[i].claims[agent])
    ensures agent in ss[j].claims && ss[j].claims[agent] == ss[i].claims[agent]
    ensures forall fate :: var out := Get(r, worker, ss[j], agent, fate).1;
                           out == Got(ss[i].claims[agent]) || out == Broken
    decreases j - i
  {
    Reachable(r, worker, ss, acts, j);
    if i < j {
      SameIdForGood(r, worker, ss, acts, i, j - 1, agent);
      Reachable(r, worker, ss, acts, j - 1);
      StepKeepsClaims(r, worker, ss[j - 1], acts[j - 1]);
      assert ss[j - 1 + 1] == Apply(r, worker, ss[j - 1], acts[j - 1]);
    }
  }

  /** Two agents given sandboxes one after the other, at any two points of the run. */
  ghost predicate BothGiven(r: UIDRange, worker: Uint32, ss: seq<State>, acts: seq<Action>,
                            i: nat, j: nat, a: string, b: string, fa: Fate, fb: Fate)
  {
    && IsRun(r, worker, ss, acts) && i < j < |ss| && a != b && acts[i] == Call(a, fa)
    && Get(r, worker, ss[i], a, fa).1.Got? && Get(r, worker, ss[j], b, fb).1.Got?
  }

  /** Whenever two agents are given sandboxes, and however often the process restarted in
      between, their ids differ, exactly when the worker's own id is not one of several. */
  lemma DifferentAgentsDifferentIds(r: UIDRange, worker: Uint32)
    requires r.Validates() && r.Enabled()
    ensures Apart(r, worker) <==>
            forall ss: seq<State>, acts: seq<Action>, i: nat, j: nat, a, b, fa, fb :: BothGiven(r, worker, ss, acts, i, j, a, b, fa, fb) ==>
              Get(r, worker, ss[i], a, fa).1 != Get(r, worker, ss[j], b, fb).1
  {
    hide IsRun, Get;
    if Apart(r, worker) {
      forall ss: seq<State>, acts: seq<Action>, i: nat, j: nat, a, b, fa, fb | BothGiven(r, worker, ss, acts, i, j, a, b, fa, fb)
        ensures Get(r, worker, ss[i], a, fa).1 != Get(r, worker, ss[j], b, fb).1
      {
        DifferentIds(r, worker, ss, acts, i, j, a, b, fa, fb);
      }
    } else {
      var ss, acts := WorkersIdShared(r, worker);
      assert BothGiven(r, worker, ss, acts, 2, 3, "a", "b", Succeeds, Succeeds) by {
        GivenTwice(r, worker, ss, acts);
      }
    }
  }

  lemma GivenTwice(r: UIDRange, worker: Uint32, ss: seq<State>, acts: seq<Action>)
    requires IsRun(r, worker, ss, acts) && |ss| == 5 && acts[2] == Call("a", Succeeds)
    requires Get(r, worker, ss[2], "a", Succeeds).1.Got? && Get(r, worker, ss[3], "b", Succeeds).1.Got?
    ensures BothGiven(r, worker, ss, acts, 2, 3, "a", "b", Succeeds, Succeeds)
  {
    assert "a" != "b";
  }

  lemma DifferentIds(r: UIDRange, worker: Uint32, ss: seq<State>, acts: seq<Action>,
                     i: nat, j: nat, a: string, b: string, fa: Fate, fb: Fate)
    requires r.Validates() && r.Enabled() && Apart(r, worker) && BothGiven(r, worker, ss, acts, i, j, a, b, fa, fb)
    ensures Get(r, worker, ss[i], a, fa).1 != Get(r, worker, ss[j], b, fb).1
  {
    hide Fresh, Get;
    GotIsClaim(r, worker, ss, acts, i, a, fa);
    SameIdForGood(r, worker, ss, acts, i + 1, j, a);
    Reachable(r, worker, ss, acts, j);
    ClaimAfter(r, worker, ss[j], b, fb);
    StepKeeps(r, worker, ss[j], Call(b, fb));
    StepKeepsClaims(r, worker, ss[j], Call(b, fb));
  }

  lemma ClaimAfter(r: UIDRange, worker: Uint32, s: State, agent: string, fate: Fate)
    requires r.Validates() && r.Enabled() && Agrees(r, s) && Get(r, worker, s, agent, fate).1.Got?
    ensures var (s', out) := Get(r, worker, s, agent, fate);
            agent != "" && agent in s'.claims && s'.claims[agent] == out.uid && r.Contains(out.uid)
  {
    hide Assign;
    AssignKeeps(r, worker, s.claims, agent, fate);
  }

  lemma GotIsClaim(r: UIDRange, worker: Uint32, ss: seq<State>, acts: seq<Action>, i: nat, agent: string, fate: Fate)
    requires r.Validates() && r.Enabled() && IsRun(r, worker, ss, acts)
    requires i < |acts| && acts[i] == Call(agent, fate) && Get(r, worker, ss[i], agent, fate).1.Got?
    ensures var out := Get(r, worker, ss[i], agent, fate).1;
            agent != "" && agent in ss[i + 1].claims && ss[i + 1].claims[agent] == out.uid && r.Contains(out.uid)
  {
    Reachable(r, worker, ss, acts, i);
    ClaimAfter(r, worker, ss[i], agent, fate);
    assert ss[i + 1] == Apply(r, worker, ss[i], acts[i]);
  }

  /** Allocation runs out exactly when every id of the range belongs to some directory and
      the agent has none of its own; and an attempt that fails in between claims nothing,
      unless the directory is left with the worker, whose own id is in the range and was
      nobody's. */
  lemma ExhaustionAndInterruption(r: UIDRange, worker: Uint32, s: State, agent: string, fate: Fate)
    requires r.Validates() && r.Enabled() && agent != ""
    ensures Get(r, worker, s, agent, fate).1 == Exhausted
            <==> !fate.FailsEarly? && agent !in s.instances
                 && !(agent in s.claims && r.Contains(s.claims[agent])) && AllClaimed(r, s.claims)
    ensures fate.FailsMaking? || fate.FailsHanding? ==>
              var after := Get(r, worker, s, agent, fate).0.claims;
              (NothingClaimed(r, s.claims, after) <==>
               after == s.claims || !r.Contains(worker) || Claimed(s.claims, worker))
  {
    FreshMeaning(r, s.claims);
    hide Fresh, NothingClaimed, Claimed, AllClaimed;
    NothingNew(r, s.claims);
    if !(agent in s.claims && r.Contains(s.claims[agent])) {
      WorkersOwn(r, s.claims, agent, worker);
    }
  }

  lemma NothingNew(r: UIDRange, claims: Claims)
    ensures NothingClaimed(r, claims, claims)
  {
  }
}
