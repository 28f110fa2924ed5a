/** Handing a directory tree to an agent's user id, from the leaves up. */
module Handover {

  const TwoTo32 := 0x1_0000_0000

  type Uint32 = x: int | 0 <= x < TwoTo32

  type Path = seq<string>

  /** A directory tree, and the entries of one directory. */
  datatype Tree = Node(name: string, kids: Trees)
  datatype Trees = Empty | More(first: Tree, rest: Trees)

  predicate Has(ts: Trees, name: string) { ts.More? && (ts.first.name == name || Has(ts.rest, name)) }

  /** Entries of one directory have different names. */
  predicate Proper(t: Tree)
    decreases t
  {
    ProperAll(t.kids)
  }

  predicate ProperAll(ts: Trees)
    decreases ts
  {
    ts.More? ==> Proper(ts.first) && !Has(ts.rest, ts.first.name) && ProperAll(ts.rest)
  }

  /** Every path of the tree, each directory before what it holds. */
  function Walk(at: Path, t: Tree): seq<Path>
    decreases t
  {
    [at + [t.name]] + WalkAll(at + [t.name], t.kids)
  }

  function WalkAll(at: Path, ts: Trees): seq<Path>
    decreases ts
  {
    match ts
    case Empty => []
    case More(first, rest) => Walk(at, first) + WalkAll(at, rest)
  }

  // ---- what a tree holds ----

  /** The names lead from the tree's own, by descent, to something in it. */
  predicate Reaches(t: Tree, names: Path)
    decreases t
  {
    && names != [] && names[0] == t.name
    && (|names| == 1 || Among(t.kids, names[1..]))
  }

  /** The names lead into one of the entries. */
  predicate Among(ts: Trees, names: Path)
    decreases ts
  {
    ts.More? && (Reaches(ts.first, names) || Among(ts.rest, names))
  }

  /** The path is the tree's, which stands in `at`, or leads to something in it. */
  predicate InTree(at: Path, t: Tree, p: Path) {
    |p| > |at| && p[..|at|] == at && Reaches(t, p[|at|..])
  }

  /** The walk lists exactly what the tree holds. */
  lemma {:induction false} WalkListsAll(at: Path, t: Tree, p: Path)
    ensures p in Walk(at, t) <==> InTree(at, t, p)
    decreases t
  {
    var top := at + [t.name];
    WalkAllListsAll(top, t.kids, p);
    if |p| > |at| && p[..|at|] == at {
      assert p == at + p[|at|..];
      assert p[|at|..][1..] == p[|at| + 1..];
      assert p[|at|] == t.name ==> p[..|at| + 1] == top;
      assert p == top <==> p[|at|..] == [t.name];
    }
    assert |p| > |top| && p[..|top|] == top ==> p[..|at|] == at && p[|at|] == t.name by {
      if |p| > |top| && p[..|top|] == top {
        assert p[..|top|][..|at|] == at && p[..|top|][|at|] == t.name;
      }
    }
  }

  lemma {:induction false} WalkAllListsAll(at: Path, ts: Trees, p: Path)
    ensures p in WalkAll(at, ts) <==> |p| > |at| && p[..|at|] == at && Among(ts, p[|at|..])
    decreases ts
  {
    if ts.More? {
      WalkListsAll(at, ts.first, p);
      WalkAllListsAll(at, ts.rest, p);
    }
  }

  predicate Above(p: Path, q: Path) { |p| < |q| && p == q[..|p|] }

  lemma {:induction false} WalkBelow(at: Path, t: Tree, p: Path)
    requires p in Walk(at, t)
    ensures |p| > |at| && p[..|at| + 1] == at + [t.name]
    decreases t
  {
    if p != at + [t.name] {
      WalkAllBelow(at + [t.name], t.kids, p);
      assert p[..|at| + 1] == at + [t.name];
    } else {
      assert p[..|at| + 1] == p;
    }
  }

  lemma {:induction false} WalkAllBelow(at: Path, ts: Trees, p: Path)
    requires p in WalkAll(at, ts)
    ensures |p| > |at| && p[..|at|] == at && Has(ts, p[|at|])
    decreases ts
  {
    if p in Walk(at, ts.first) {
      WalkBelow(at, ts.first, p);
      assert p[..|at|] == p[..|at| + 1][..|at|] == at;
      assert p[|at|] == p[..|at| + 1][|at|];
    } else {
      WalkAllBelow(at, ts.rest, p);
    }
  }

  /** In a walk, a directory never comes after, or at the place of, something under it. */
  ghost predicate TopDown(ps: seq<Path>) {
    forall i, j :: 0 <= i <= j < |ps| ==> !Above(ps[j], ps[i])
  }

  ghost predicate NoRepeats(ps: seq<Path>) {
    forall i, j :: 0 <= i < j < |ps| ==> ps[i] != ps[j]
  }

  lemma {:induction false} WalkTopDown(at: Path, t: Tree)
    requires Proper(t)
    ensures TopDown(Walk(at, t)) && NoRepeats(Walk(at, t))
    decreases t
  {
    var top := at + [t.name];
    var inner := WalkAll(top, t.kids);
    WalkAllTopDown(top, t.kids);
    forall p | p in inner ensures |p| > |top| {
      WalkAllBelow(top, t.kids, p);
    }
    JoinTopDown([top], inner);
  }

  lemma {:induction false} WalkAllTopDown(at: Path, ts: Trees)
    requires ProperAll(ts)
    ensures TopDown(WalkAll(at, ts)) && NoRepeats(WalkAll(at, ts))
    decreases ts
  {
    if ts.More? {
      var a, b := Walk(at, ts.first), WalkAll(at, ts.rest);
      WalkTopDown(at, ts.first);
      WalkAllTopDown(at, ts.rest);
      forall p, q | p in a && q in b ensures !Above(q, p) && p != q {
        WalkBelow(at, ts.first, p);
        WalkAllBelow(at, ts.rest, q);
        assert p[..|at| + 1][|at|] == p[|at|] == ts.first.name;
      }
      JoinTopDown(a, b);
    }
  }

  lemma JoinTopDown(a: seq<Path>, b: seq<Path>)
    requires TopDown(a) && TopDown(b) && NoRepeats(a) && NoRepeats(b)
    requires forall p, q :: p in a && q in b ==> !Above(q, p) && p != q
    ensures TopDown(a + b) && NoRepeats(a + b)
  {
  }

  /** One change of ownership, with who owned what when it was made. */
  datatype Change = Change(path: Path, owners: map<Path, Uint32>)

  /** The volume, as this worker sees it. */
  class Volume {
    var owners: map<Path, Uint32>

    /** The changes made on agents' behalf, oldest first. */
    ghost var changes: seq<Change>

    constructor (owners: map<Path, Uint32>)
      ensures this.owners == owners && changes == []
    {
      this.owners, changes := owners, [];
    }

    /** Gives one path away. `ok` is what the system call answers. */
    method Lchown(p: Path, uid: Uint32, ok: bool)
      modifies this
      ensures ok ==> owners == old(owners)[p := uid] && changes == old(changes) + [Change(p, old(owners))]
      ensures !ok ==> owners == old(owners) && changes == old(changes)
    {
      if ok {
        changes := changes + [Change(p, owners)];
        owners := owners[p := uid];
      }
    }

    /** Makes a directory, which is then the worker's, unless it is there already. */
    method MakeDir(p: Path, worker: Uint32, ok: bool)
      modifies `owners
      ensures owners == if ok && p !in old(owners) then old(owners)[p := worker] else old(owners)
    {
      if ok && p !in owners {
        owners := owners[p := worker];
      }
    }

    /** Takes a directory for the worker itself, unless it already has it. */
    method AdoptDir(p: Path, worker: Uint32, ok: bool)
      requires p in owners
      modifies `owners
      ensures owners == if ok then old(owners)[p := worker] else old(owners)
    {
      if ok && owners[p] != worker {
        owners := owners[p := worker];
      }
    }

    /** Hands the directory `t` and everything in it to `uid`. `faults` are the steps, by
        number, that the system refuses: step 0 is taking the directory over, and the
        directory itself is handed over last. */
    method ChownTree(at: Path, t: Tree, uid: Uint32, worker: Uint32, walkFails: bool, faults: set<nat>) returns (ok: bool)
      requires Proper(t)
      requires forall p :: InTree(at, t, p) ==> p in owners
      modifies this
      ensures owners.Keys == old(owners).Keys
      ensures ok ==> forall p :: p in owners ==> owners[p] == if InTree(at, t, p) then uid else old(owners)[p]
      ensures at + [t.name] in owners && (!ok ==> owners[at + [t.name]] == worker || owners == old(owners))
      ensures forall p :: p in owners && !InTree(at, t, p) ==> owners[p] == old(owners)[p]
      ensures |changes| >= |old(changes)| && changes[..|old(changes)|] == old(changes)
      ensures var made := changes[|old(changes)|..];
              && (ok ==> |made| == |Walk(at, t)| && made[|made| - 1].path == at + [t.name])
              && (ok ==> forall p :: InTree(at, t, p) ==> exists c :: c in made && c.path == p)
              && AllReachable(made, at, t, old(owners), worker)
    {
      hide Walk, TopDown, NoRepeats, Proper, AllReachable, GivenAway, InTree, Listed;
      var dir := at + [t.name];
      ghost var all, was := Walk(at, t), owners;
      WalkIsTree(at, t);
      WalkTopDown(at, t);
      WalkFirst(at, t);
      NoChanges(at, t, was, worker);
      AdoptDir(dir, worker, 0 !in faults);
      if 0 in faults {
        assert changes[|old(changes)|..] == [];
        return false;
      }
      assert changes[|old(changes)|..] == [];
      if walkFails {
        return false;
      }
      ghost var taken := owners;
      GivenKeeps(taken, all, uid);
      var done, upto := GiveInner(at, t, uid, worker, was, faults);
      if !done || |Walk(at, t)| in faults {
        return false;
      }
      ghost var sofar := changes;
      GiveOne(was, taken, changes[|old(changes)|..], at, t, 0, uid, worker);
      Lchown(dir, uid, true);
      assert changes[|old(changes)|..] == sofar[|old(changes)|..] + [changes[|changes| - 1]];
      AllGiven(was, taken, all, uid);
      GivenTree(was, at, t, uid);
      AllListed(changes[|old(changes)|..], at, t, dir, sofar[|old(changes)|..], changes[|changes| - 1]);
      return true;
    }

    /** Hands over everything in the directory, deepest first. `upto` is how far down the
        walk that leaves. */
    method GiveInner(at: Path, t: Tree, uid: Uint32, worker: Uint32, ghost was: map<Path, Uint32>, faults: set<nat>)
      returns (ok: bool, ghost upto: nat)
      requires TopDown(Walk(at, t)) && owners == Taken(was, at + [t.name], worker)
      requires forall p :: p in Walk(at, t) ==> p in was
      modifies this
      ensures 1 <= upto <= |Walk(at, t)| && (ok ==> upto == 1)
      ensures owners == GivenAway(old(owners), Walk(at, t), upto, uid)
      ensures |changes| == |old(changes)| + |Walk(at, t)| - upto && changes[..|old(changes)|] == old(changes)
      ensures AllReachable(changes[|old(changes)|..], at, t, was, worker)
      ensures Listed(changes[|old(changes)|..], Walk(at, t), upto)
    {
      hide Walk, TopDown, AllReachable, GivenAway, Listed;
      ghost var all, taken, before := Walk(at, t), owners, changes;
      WalkFirst(at, t);
      NoChanges(at, t, was, worker);
      GivenKeeps(taken, all, uid);
      var inner := Walk(at, t)[1..];
      var i := |inner| - 1;
      upto := |all|;
      ghost var made := [];
      assert Listed(made, all, upto) by { NoneListed(all); }
      while i >= 0
        invariant -1 <= i < |inner| && upto == i + 2
        invariant owners == GivenAway(taken, all, upto, uid)
        invariant changes == before + made && AllReachable(made, at, t, was, worker) && Listed(made, all, upto)
      {
        if (i + 1) in faults {
          ListedCount(made, all, upto);
          assert changes[|before|..] == made;
          return false, upto;
        }
        GiveNext(was, taken, made, at, t, i + 1, uid, worker);
        assert inner[i] == all[i + 1];
        made := made + [Change(inner[i], owners)];
        Lchown(inner[i], uid, true);
        i, upto := i - 1, upto - 1;
      }
      assert |made| == |all| - upto by { ListedCount(made, all, upto); }
      assert changes[|before|..] == made;
      return true, upto;
    }
  }

  /** The owners once everything in the walk from position `i` on has been given away. */
  function GivenAway(owners: map<Path, Uint32>, all: seq<Path>, i: nat, uid: Uint32): map<Path, Uint32>
    requires i <= |all|
  {
    map p | p in owners :: if p in all[i..] then uid else owners[p]
  }

  /** The owners as the hand-over found them, with the directory itself taken over. */
  function Taken(was: map<Path, Uint32>, dir: Path, worker: Uint32): map<Path, Uint32> { was[dir := worker] }

  /** When a path changed hands, every directory above it, up to and including the
      sandbox itself, was still as the worker left it: the sandbox its own, the rest
      untouched. */
  ghost predicate StillReachable(c: Change, at: Path, t: Tree, was: map<Path, Uint32>, worker: Uint32) {
    forall p :: InTree(at, t, p) && |p| < |c.path| && p == c.path[..|p|] ==>
      p in c.owners && (p == at + [t.name] ==> c.owners[p] == worker)
      && (p != at + [t.name] && p in was ==> c.owners[p] == was[p])
  }

  /** Each of the changes was made to a path of the tree that could still be reached. */
  ghost predicate AllReachable(cs: seq<Change>, at: Path, t: Tree, was: map<Path, Uint32>, worker: Uint32) {
    forall c :: c in cs ==> InTree(at, t, c.path) && StillReachable(c, at, t, was, worker)
  }

  /** In a tree that was the worker's, all that lies above a path is the worker's still when
      the path changes hands. */
  lemma AboveIsTheWorkers(cs: seq<Change>, at: Path, t: Tree, was: map<Path, Uint32>, worker: Uint32)
    requires AllReachable(cs, at, t, was, worker)
    requires forall p :: InTree(at, t, p) ==> p in was && was[p] == worker
    ensures forall c, p :: c in cs && InTree(at, t, p) && Above(p, c.path) ==> p in c.owners && c.owners[p] == worker
  {
    hide InTree;
    forall c, p | c in cs && InTree(at, t, p) && Above(p, c.path) ensures p in c.owners && c.owners[p] == worker {
      assert StillReachable(c, at, t, was, worker);
    }
  }

  lemma WalkIsTree(at: Path, t: Tree)
    ensures forall p :: p in Walk(at, t) <==> InTree(at, t, p)
  {
    hide Walk, InTree;
    forall p ensures p in Walk(at, t) <==> InTree(at, t, p) {
      WalkListsAll(at, t, p);
    }
  }

  /** The changes went through the walk from its end to position `upto`. */
  ghost predicate Listed(cs: seq<Change>, all: seq<Path>, upto: nat) {
    && upto <= |all| && |cs| == |all| - upto
    && forall i :: 0 <= i < |cs| ==> cs[i].path == all[|all| - 1 - i]
  }

  lemma NoneListed(all: seq<Path>)
    ensures Listed([], all, |all|)
  {
  }

  lemma OneListed(cs: seq<Change>, all: seq<Path>, upto: nat, c: Change)
    requires Listed(cs, all, upto) && upto > 0 && c.path == all[upto - 1]
    ensures Listed(cs + [c], all, upto - 1)
  {
  }

  lemma ListedCount(cs: seq<Change>, all: seq<Path>, upto: nat)
    requires Listed(cs, all, upto)
    ensures |cs| == |all| - upto
  {
  }

  lemma GiveNext(was: map<Path, Uint32>, taken: map<Path, Uint32>, cs: seq<Change>, at: Path, t: Tree, i: nat,
                 uid: Uint32, worker: Uint32)
    requires i < |Walk(at, t)| && TopDown(Walk(at, t)) && AllReachable(cs, at, t, was, worker)
    requires Listed(cs, Walk(at, t), i + 1)
    requires taken == Taken(was, at + [t.name], worker) && forall p :: p in Walk(at, t) ==> p in was
    ensures var p, now := Walk(at, t)[i], GivenAway(taken, Walk(at, t), i + 1, uid);
            && GivenAway(taken, Walk(at, t), i, uid) == now[p := uid]
            && AllReachable(cs + [Change(p, now)], at, t, was, worker)
            && Listed(cs + [Change(p, now)], Walk(at, t), i)
  {
    hide Walk, TopDown, AllReachable, GivenAway, Listed;
    GiveOne(was, taken, cs, at, t, i, uid, worker);
    OneListed(cs, Walk(at, t), i + 1, Change(Walk(at, t)[i], GivenAway(taken, Walk(at, t), i + 1, uid)));
  }

  lemma AllListed(made: seq<Change>, at: Path, t: Tree, dir: Path, inner: seq<Change>, last: Change)
    requires Listed(inner, Walk(at, t), 1) && last.path == dir == at + [t.name] && made == inner + [last]
    ensures forall p :: InTree(at, t, p) ==> exists c :: c in made && c.path == p
  {
    hide Walk, InTree;
    WalkFirst(at, t);
    WalkIsTree(at, t);
    var all := Walk(at, t);
    OneListed(inner, all, 1, last);
    forall p | InTree(at, t, p) ensures exists c :: c in made && c.path == p {
      var i :| 0 <= i < |all| && all[i] == p;
      assert made[|all| - 1 - i] in made && made[|all| - 1 - i].path == p;
    }
  }

  lemma GivenTree(was: map<Path, Uint32>, at: Path, t: Tree, uid: Uint32)
    ensures forall p :: p in was ==>
              GivenAway(was, Walk(at, t), 0, uid)[p] == if InTree(at, t, p) then uid else was[p]
  {
    hide Walk, InTree;
    WalkIsTree(at, t);
    assert Walk(at, t)[0..] == Walk(at, t);
  }

  lemma NoChanges(at: Path, t: Tree, was: map<Path, Uint32>, worker: Uint32)
    ensures AllReachable([], at, t, was, worker)
  {
  }

  /** Giving away the path at `i` once all after it are: what it changes, and that it can. */
  lemma GiveOne(was: map<Path, Uint32>, taken: map<Path, Uint32>, cs: seq<Change>, at: Path, t: Tree, i: nat,
                uid: Uint32, worker: Uint32)
    requires i < |Walk(at, t)| && TopDown(Walk(at, t)) && AllReachable(cs, at, t, was, worker)
    requires taken == Taken(was, at + [t.name], worker) && forall p :: p in Walk(at, t) ==> p in was
    ensures var p, now := Walk(at, t)[i], GivenAway(taken, Walk(at, t), i + 1, uid);
            && GivenAway(taken, Walk(at, t), i, uid) == now[p := uid]
            && AllReachable(cs + [Change(p, now)], at, t, was, worker)
  {
    hide Walk, TopDown, StillReachable, GivenAway, InTree;
    WalkIsTree(at, t);
    OneMore(taken, Walk(at, t), i, uid);
    Reachable(was, taken, at, t, i, uid, worker);
  }

  lemma WalkFirst(at: Path, t: Tree)
    ensures Walk(at, t) != [] && Walk(at, t)[0] == at + [t.name]
  {
  }

  lemma GivenKeeps(owners: map<Path, Uint32>, all: seq<Path>, uid: Uint32)
    ensures GivenAway(owners, all, |all|, uid) == owners
    ensures forall i: nat :: i <= |all| ==>
              && GivenAway(owners, all, i, uid).Keys == owners.Keys
              && forall p :: p in owners && (i == |all| || p !in all[i..]) ==> GivenAway(owners, all, i, uid)[p] == owners[p]
  {
    assert all[|all|..] == [];
  }

  lemma OneMore(owners: map<Path, Uint32>, all: seq<Path>, i: nat, uid: Uint32)
    requires i < |all| && all[i] in owners
    ensures GivenAway(owners, all, i, uid) == GivenAway(owners, all, i + 1, uid)[all[i] := uid]
  {
    assert all[i..] == [all[i]] + all[i + 1..];
  }

  lemma AllGiven(was: map<Path, Uint32>, taken: map<Path, Uint32>, all: seq<Path>, uid: Uint32)
    requires all != [] && all[0] in was && taken.Keys == was.Keys
    requires forall p :: p in was && p != all[0] ==> taken[p] == was[p]
    ensures GivenAway(taken, all, 0, uid) == GivenAway(was, all, 0, uid)
  {
    assert all[0..] == all;
  }

  lemma Reachable(was: map<Path, Uint32>, taken: map<Path, Uint32>, at: Path, t: Tree, i: nat, uid: Uint32, worker: Uint32)
    requires i < |Walk(at, t)| && TopDown(Walk(at, t))
    requires taken == Taken(was, at + [t.name], worker) && forall p :: p in Walk(at, t) ==> p in was
    ensures StillReachable(Change(Walk(at, t)[i], GivenAway(taken, Walk(at, t), i + 1, uid)), at, t, was, worker)
  {
    hide Walk, InTree;
    WalkIsTree(at, t);
    var all := Walk(at, t);
    forall p | p in all && Above(p, all[i]) ensures p !in all[i + 1..] {
      assert forall j :: i + 1 <= j < |all| ==> all[j] != p;
    }
  }
}
