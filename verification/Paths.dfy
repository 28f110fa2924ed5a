/** Which paths lie inside a sandbox, as far as the text of a path can say.

    A path is the list of what stands between its separators, so a component may be
    empty, "." or ".."; the root is absolute and clean. */
module Paths {

  type Comps = seq<string>

  datatype Path = Path(abs: bool, comps: Comps)

  datatype Result<T> = Ok(value: T) | Outside

  const Up := ".."

  predicate IsNoop(c: string) { c == "" || c == "." }

  predicate IsName(c: string) { !IsNoop(c) && c != Up }

  /** A clean absolute path: names only. */
  predicate Names(comps: Comps) { forall i :: 0 <= i < |comps| ==> IsName(comps[i]) }

  // ---- cleaning ----

  /** What one more component does to a clean path: a name is added, ".." takes the last
      name away, or stays where there is none, except at the root. */
  function CleanStep(abs: bool, out: Comps, c: string): Comps {
    if IsNoop(c) then out
    else if c != Up then out + [c]
    else if out != [] && out[|out| - 1] != Up then out[..|out| - 1]
    else if abs then out
    else out + [Up]
  }

  function CleanComps(abs: bool, comps: Comps): Comps {
    if comps == [] then []
    else CleanStep(abs, CleanComps(abs, comps[..|comps| - 1]), comps[|comps| - 1])
  }

  function Clean(p: Path): Path { Path(p.abs, CleanComps(p.abs, p.comps)) }

  /** The relative path ".". */
  predicate IsDot(p: Path) { !p.abs && p.comps == [] }

  // ---- where a path leads ----

  /** Following components one by one from a directory; the root's parent is the root. */
  function Walk(cwd: Comps, comps: Comps): Comps {
    if comps == [] then cwd
    else
      var at := Walk(cwd, comps[..|comps| - 1]);
      var c := comps[|comps| - 1];
      if c == "" || c == "." then at
      else if c != ".." then at + [c]
      else if at == [] then at
      else at[..|at| - 1]
  }

  /** Clean paths are ".."s, then names. */
  ghost predicate UpsThenNames(comps: Comps, k: nat) {
    k <= |comps| && (forall i :: 0 <= i < k ==> comps[i] == Up) && Names(comps[k..])
  }

  /** Names seen minus ".."s seen: how deep a walk is relative to where it started. */
  function Depth(comps: Comps): int {
    if comps == [] then 0
    else
      var c := comps[|comps| - 1];
      Depth(comps[..|comps| - 1]) + if c == "" || c == "." then 0 else if c == ".." then -1 else 1
  }

  /** The lowest point of a walk, as a height lost. */
  function Lowest(comps: Comps): nat {
    if comps == [] then 0
    else
      var before := Lowest(comps[..|comps| - 1]);
      if -Depth(comps) > before then -Depth(comps) else before
  }

  /** Cleaning gives as many ".."s as the walk ever goes above its start, then names down
      to where it ends. */
  lemma {:induction false} CleanShape(comps: Comps)
    ensures UpsThenNames(CleanComps(false, comps), Lowest(comps))
    ensures |CleanComps(false, comps)| == 2 * Lowest(comps) + Depth(comps)
  {
    if comps != [] {
      CleanShape(comps[..|comps| - 1]);
    }
  }

  lemma {:induction false} CleanAbsNames(comps: Comps)
    ensures Names(CleanComps(true, comps))
    ensures CleanComps(true, comps) == Walk([], comps)
  {
    if comps != [] {
      CleanAbsNames(comps[..|comps| - 1]);
    }
  }

  lemma {:induction false} WalkAppend(cwd: Comps, a: Comps, b: Comps)
    ensures Walk(cwd, a + b) == Walk(Walk(cwd, a), b)
  {
    if b == [] {
      assert a + b == a;
    } else {
      assert (a + b)[..|a + b| - 1] == a + b[..|b| - 1];
      WalkAppend(cwd, a, b[..|b| - 1]);
    }
  }

  lemma {:induction false} WalkNames(cwd: Comps, names: Comps)
    requires Names(names)
    ensures Walk(cwd, names) == cwd + names
  {
    if names != [] {
      WalkNames(cwd, names[..|names| - 1]);
      assert names == names[..|names| - 1] + [names[|names| - 1]];
    } else {
      assert cwd + names == cwd;
    }
  }

  lemma WalkStep(cwd: Comps, comps: Comps, c: string)
    ensures Walk(cwd, comps + [c])
            == var at := Walk(cwd, comps);
               if IsNoop(c) then at else if c != Up then at + [c] else if at == [] then at else at[..|at| - 1]
  {
    assert (comps + [c])[..|comps|] == comps;
  }

  /** Cleaning never changes where a path leads, whatever directory it is followed from. */
  lemma {:induction false} CleanKeepsMeaning(cwd: Comps, comps: Comps)
    ensures Walk(cwd, CleanComps(false, comps)) == Walk(cwd, comps)
  {
    hide Lowest, Depth, UpsThenNames;
    if comps != [] {
      var init, c := comps[..|comps| - 1], comps[|comps| - 1];
      CleanKeepsMeaning(cwd, init);
      CleanShape(init);
      assert comps == init + [c];
      WalkStep(cwd, init, c);
      StepKeepsMeaning(cwd, CleanComps(false, init), c, Lowest(init));
    }
  }

  lemma StepKeepsMeaning(cwd: Comps, out: Comps, c: string, ups: nat)
    requires UpsThenNames(out, ups)
    ensures Walk(cwd, CleanStep(false, out, c)) == Walk(cwd, out + [c])
  {
    hide Walk;
    WalkStep(cwd, out, c);
    if c == Up && out != [] && out[|out| - 1] != Up {
      LastIsName(out, ups);
      hide UpsThenNames;
      assert out == out[..|out| - 1] + [out[|out| - 1]];
      WalkStep(cwd, out[..|out| - 1], out[|out| - 1]);
      assert (Walk(cwd, out[..|out| - 1]) + [out[|out| - 1]])[..|Walk(cwd, out[..|out| - 1])|] == Walk(cwd, out[..|out| - 1]);
    }
  }

  lemma LastIsName(out: Comps, k: nat)
    requires UpsThenNames(out, k) && out != [] && out[|out| - 1] != Up
    ensures IsName(out[|out| - 1])
  {
    assert out[k..][|out| - 1 - k] == out[|out| - 1];
  }

  /** Cleaning a clean path changes nothing. */
  lemma {:induction false} CleanNames(abs: bool, names: Comps)
    requires Names(names)
    ensures CleanComps(abs, names) == names
  {
    if names != [] {
      CleanNames(abs, names[..|names| - 1]);
    }
  }

  // ---- relative to the root ----

  /** How many leading components two paths share. */
  function Common(a: Comps, b: Comps): (n: nat)
    ensures n <= |a| && n <= |b| && a[..n] == b[..n]
    ensures n < |a| && n < |b| ==> a[n] != b[n]
  {
    if a == [] || b == [] || a[0] != b[0] then 0 else 1 + Common(a[1..], b[1..])
  }

  /** The path from one clean absolute path to another. */
  function Rel(base: Comps, target: Comps): Comps {
    var n := Common(base, target);
    seq(|base| - n, _ => Up) + target[n..]
  }

  predicate StartsUp(comps: Comps) { comps != [] && comps[0] == Up }

  lemma RelInside(base: Comps, target: Comps)
    requires Names(base) && Names(target)
    ensures StartsUp(Rel(base, target)) <==> !(base <= target)
    ensures base <= target ==> Rel(base, target) == target[|base|..]
  {
    var n := Common(base, target);
    assert n == |base| ==> Rel(base, target) == target[n..];
    assert n < |base| ==> Rel(base, target)[0] == Up;
  }

  /** The name the file operations use, relative to the root. */
  function RelativeName(root: Comps, p: Path): Result<Comps> {
    var cleaned := Clean(p);
    if IsDot(cleaned) then Ok([])
    else
      var comps := if cleaned.abs then Rel(root, cleaned.comps) else cleaned.comps;
      if StartsUp(comps) then Outside else Ok(comps)
  }

  function Join(root: Comps, comps: Comps): Comps { CleanComps(true, root + comps) }

  /** The absolute path the same input resolves to. */
  function ResolvePath(root: Comps, p: Path): Result<Comps> {
    var cleaned := Clean(p);
    if IsDot(cleaned) then Ok(root)
    else
      var target := if cleaned.abs then cleaned.comps else Join(root, cleaned.comps);
      if StartsUp(Rel(root, target)) then Outside else Ok(target)
  }

  /** Where the path leads when followed from the root of the sandbox. */
  function Destination(root: Comps, p: Path): Comps {
    Walk(if p.abs then [] else root, p.comps)
  }

  lemma JoinWalks(root: Comps, comps: Comps)
    requires Names(root)
    ensures Join(root, comps) == Walk(root, comps) && Names(Join(root, comps))
  {
    CleanAbsNames(root + comps);
    WalkAppend([], root, comps);
    WalkNames([], root);
    assert [] + root == root;
  }

  /** Resolving accepts a path exactly when following it ends at the root or beneath it,
      and answers where it ends. */
  lemma ResolvesExactly(root: Comps, p: Path)
    requires Names(root)
    ensures var d := Destination(root, p);
            ResolvePath(root, p) == if root <= d then Ok(d) else Outside
  {
    var cleaned := Clean(p);
    if p.abs {
      CleanAbsNames(p.comps);
      RelInside(root, cleaned.comps);
    } else {
      JoinWalks(root, cleaned.comps);
      CleanKeepsMeaning(root, p.comps);
      RelInside(root, Join(root, cleaned.comps));
    }
  }

  /** An absolute path is named exactly when it leads inside; a relative one exactly when
      following it never goes above the root, not even to come back. */
  lemma NamesExactly(root: Comps, p: Path)
    requires Names(root)
    ensures RelativeName(root, p).Ok?
            <==> if p.abs then root <= Destination(root, p) else Lowest(p.comps) == 0
    ensures RelativeName(root, p).Ok? ==>
              && Names(RelativeName(root, p).value)
              && Destination(root, p) == root + RelativeName(root, p).value
  {
    var cleaned := Clean(p);
    if p.abs {
      CleanAbsNames(p.comps);
      RelInside(root, cleaned.comps);
      if root <= cleaned.comps {
        assert cleaned.comps == root + cleaned.comps[|root|..];
      }
    } else {
      CleanShape(p.comps);
      CleanKeepsMeaning(root, p.comps);
      if Lowest(p.comps) == 0 {
        assert cleaned.comps[0..] == cleaned.comps;
        WalkNames(root, cleaned.comps);
      }
    }
  }

  /** A name that was accepted is a fixed point: it, and the absolute path it stands for,
      are named the same again, and resolving the original gives that absolute path. */
  lemma NameIsStable(root: Comps, p: Path)
    requires Names(root) && RelativeName(root, p).Ok?
    ensures var n := RelativeName(root, p).value;
            && Names(n)
            && RelativeName(root, Path(false, n)) == Ok(n)
            && RelativeName(root, Path(true, root + n)) == Ok(n)
            && ResolvePath(root, p) == Ok(root + n)
  {
    NamesExactly(root, p);
    ResolvesExactly(root, p);
    var n := RelativeName(root, p).value;
    CleanNames(false, n);
    CleanNames(true, root + n);
    RelInside(root, root + n);
    assert (root + n)[|root|..] == n;
  }

  /** What resolving accepts and naming refuses: relative paths that leave the root and
      come back, and nothing else. */
  lemma ResolversDifferExactly(root: Comps, p: Path)
    requires Names(root)
    ensures ResolvePath(root, p).Ok? && RelativeName(root, p).Outside?
            <==> !p.abs && Lowest(p.comps) > 0 && root <= Walk(root, p.comps)
    ensures RelativeName(root, p).Ok? ==> ResolvePath(root, p).Ok?
  {
    NamesExactly(root, p);
    ResolvesExactly(root, p);
  }

  lemma WalkUpThenDown(root: Comps, comps: Comps)
    requires root != [] && |comps| == 3 && comps[0] == Up && IsName(comps[1]) && IsName(comps[2])
    ensures Walk(root, comps) == root[..|root| - 1] + [comps[1]] + [comps[2]]
  {
    assert comps[..2][..1] == comps[..1] && comps[..1][..0] == [];
    assert Walk(root, comps[..1]) == root[..|root| - 1];
    assert Walk(root, comps[..2]) == root[..|root| - 1] + [comps[1]];
  }

  lemma UpThenDown(root: Comps, comps: Comps)
    requires root != [] && |comps| == 3 && comps[0] == Up && IsName(comps[1]) && IsName(comps[2])
    ensures Walk(root, comps) == root[..|root| - 1] + [comps[1]] + [comps[2]]
    ensures Lowest(comps) > 0
  {
    hide Walk, Lowest;
    WalkUpThenDown(root, comps);
    FirstUp(comps[..1]);
    LowestGrows(comps[..2]);
    LowestGrows(comps);
    assert comps[..2][..1] == comps[..1];
  }

  lemma FirstUp(comps: Comps)
    requires |comps| == 1 && comps[0] == Up
    ensures Lowest(comps) == 1
  {
    assert comps[..0] == [];
  }

  lemma LowestGrows(comps: Comps)
    requires comps != []
    ensures Lowest(comps) >= Lowest(comps[..|comps| - 1])
  {
  }

  /** Such paths exist under every root that has a name. */
  lemma LeavesAndReturns(root: Comps, x: string)
    requires Names(root) && root != [] && IsName(x)
    ensures var p := Path(false, [Up, root[|root| - 1], x]);
            ResolvePath(root, p) == Ok(root + [x]) && RelativeName(root, p) == Outside
  {
    var last := root[|root| - 1];
    var p := Path(false, [Up, last, x]);
    UpThenDown(root, p.comps);
    hide Walk, Lowest;
    assert root[..|root| - 1] + [last] == root;
    ResolvesExactly(root, p);
    NamesExactly(root, p);
  }
}
