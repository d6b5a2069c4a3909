// Paths as the program spells them, and what they resolve to.
module Paths {
  import opened Wrappers
  import opened Trees

  // What `Path::components` yields. The root appears only as a first component in a
  // path the standard library built; pushing one anywhere restarts the path.
  datatype Component = RootDir | CurDir | ParentDir | Normal(name: Name)
  type RawPath = seq<Component>

  predicate IsAbsolute(p: RawPath) {
    p != [] && p[0] == RootDir
  }

  // `Path::join`: an absolute right-hand side replaces the left one.
  function Join(a: RawPath, b: RawPath): RawPath {
    if IsAbsolute(b) then b else a + b
  }

  // `PathBuf::pop`: neither the root nor an empty path has anything to give up.
  function Pop(p: RawPath): RawPath {
    if p != [] && p[|p| - 1].Normal? then p[..|p| - 1] else p
  }

  // One round of the normalising loop.
  function Fold(acc: RawPath, c: Component): RawPath {
    match c
    case CurDir => acc
    case ParentDir => Pop(acc)
    case RootDir => [RootDir]
    case Normal(_) => acc + [c]
  }

  function NormalizeOnto(acc: RawPath, p: RawPath): RawPath
    decreases |p|
  {
    if p == [] then acc else NormalizeOnto(Fold(acc, p[0]), p[1..])
  }

  function Normalized(p: RawPath): RawPath {
    NormalizeOnto([], p)
  }

  method Normalize(path: RawPath) returns (normalized: RawPath)
    ensures normalized == Normalized(path)
  {
    normalized := [];
    for i := 0 to |path|
      invariant NormalizeOnto(normalized, path[i..]) == Normalized(path)
    {
      match path[i] {
        case CurDir =>
        case ParentDir => normalized := Pop(normalized);
        case RootDir => normalized := [RootDir];
        case Normal(_) => normalized := normalized + [path[i]];
      }
      assert path[i..][1..] == path[i + 1..];
    }
  }

  lemma {:induction false} NormalizeOntoAppend(acc: RawPath, a: RawPath, b: RawPath)
    ensures NormalizeOnto(acc, a + b) == NormalizeOnto(NormalizeOnto(acc, a), b)
    decreases |a|
  {
    if a == [] {
      assert a + b == b;
    } else {
      assert (a + b)[1..] == a[1..] + b;
      NormalizeOntoAppend(Fold(acc, a[0]), a[1..], b);
    }
  }

  // Nothing is left of `.` and `..`: at most a root, then names.
  predicate IsNormal(p: RawPath) {
    forall i | 0 <= i < |p| :: p[i].Normal? || (i == 0 && p[i] == RootDir)
  }

  lemma {:induction false} NormalizeOntoIsNormal(acc: RawPath, p: RawPath)
    requires IsNormal(acc)
    ensures IsNormal(NormalizeOnto(acc, p))
    decreases |p|
  {
    if p != [] {
      NormalizeOntoIsNormal(Fold(acc, p[0]), p[1..]);
    }
  }

  lemma {:induction false} NormalPathsStay(acc: RawPath, p: RawPath)
    requires IsNormal(acc + p) && (acc == [] || p == [] || p[0].Normal?)
    ensures NormalizeOnto(acc, p) == acc + p
    decreases |p|
  {
    if p == [] {
      assert acc + p == acc;
    } else {
      assert (acc + p)[|acc|] == p[0];
      assert Fold(acc, p[0]) == acc + [p[0]];
      assert acc + [p[0]] + p[1..] == acc + p;
      if |p| > 1 {
        assert (acc + p)[|acc| + 1] == p[1];
      }
      NormalPathsStay(acc + [p[0]], p[1..]);
    }
  }

  // `normalize` is idempotent, leaves nothing to fold, and may be applied to a prefix
  // first - which is what resolving an existing ancestor and adding the rest relies on.
  lemma NormalizeLaws(a: RawPath, b: RawPath)
    ensures IsNormal(Normalized(a))
    ensures Normalized(Normalized(a)) == Normalized(a)
    ensures Normalized(a + b) == Normalized(Normalized(a) + b)
  {
    NormalizeOntoIsNormal([], a);
    var n := Normalized(a);
    assert [] + n == n;
    NormalPathsStay([], n);
    NormalizeOntoAppend([], a, b);
    NormalizeOntoAppend([], n, b);
  }

  // ---- Resolving against a file system ----

  function Spelled(p: Path): RawPath {
    [RootDir] + seq(|p|, i requires 0 <= i < |p| => Normal(p[i]))
  }

  lemma SpelledAppend(p: Path, name: Name)
    ensures Spelled(p + [name]) == Spelled(p) + [Normal(name)]
  {
  }

  lemma SpelledInjective(p: Path, q: Path)
    requires Spelled(p) == Spelled(q)
    ensures p == q
  {
    assert |p| == |q|;
    forall i | 0 <= i < |p| ensures p[i] == q[i] {
      assert Spelled(p)[i + 1] == Normal(p[i]);
      assert Spelled(q)[i + 1] == Normal(q[i]);
    }
  }

  function Names(p: RawPath): Path
    requires IsNormal(p) && IsAbsolute(p)
  {
    seq(|p| - 1, i requires 0 <= i < |p| - 1 => p[i + 1].name)
  }

  lemma NamesOfSpelled(p: Path)
    ensures IsNormal(Spelled(p)) && IsAbsolute(Spelled(p)) && Names(Spelled(p)) == p
  {
  }

  function Up(p: Path): Path {
    if p == [] then [] else Parent(p)
  }

  // The names a path comes to when read from the directory `at`.
  function Resolved(at: Path, p: RawPath): Path
    decreases |p|
  {
    if p == [] then at
    else
      var next := match p[0]
        case RootDir => []
        case CurDir => at
        case ParentDir => Up(at)
        case Normal(name) => at + [name];
      Resolved(next, p[1..])
  }

  lemma {:induction false} ResolvedIsNormalized(at: Path, p: RawPath)
    ensures NormalizeOnto(Spelled(at), p) == Spelled(Resolved(at, p))
    decreases |p|
  {
    if p != [] {
      match p[0] {
        case RootDir =>
          assert Spelled([]) == [RootDir];
          ResolvedIsNormalized([], p[1..]);
        case CurDir =>
          ResolvedIsNormalized(at, p[1..]);
        case ParentDir =>
          if at == [] {
            assert Pop(Spelled(at)) == Spelled(at);
          } else {
            SpelledAppend(Parent(at), at[|at| - 1]);
            assert Parent(at) + [at[|at| - 1]] == at;
            assert Pop(Spelled(at)) == Spelled(Parent(at));
          }
          ResolvedIsNormalized(Up(at), p[1..]);
        case Normal(name) =>
          SpelledAppend(at, name);
          ResolvedIsNormalized(at + [name], p[1..]);
      }
    }
  }

  // The operating system's reading: every step has to exist, and `..` is only
  // meaningful from a directory.
  function Walk(t: Node, at: Path, p: RawPath): Option<Path>
    decreases |p|
  {
    if p == [] then
      if Exists(t, at) then Some(at) else None
    else match p[0]
      case RootDir => Walk(t, [], p[1..])
      case CurDir => if IsDir(t, at) then Walk(t, at, p[1..]) else None
      case ParentDir => if IsDir(t, at) then Walk(t, Up(at), p[1..]) else None
      case Normal(name) => if IsDir(t, at) && Exists(t, at + [name]) then Walk(t, at + [name], p[1..]) else None
  }

  // `..` folded out by name and `..` taken through the directories agree wherever the
  // second is possible at all.
  lemma {:induction false} WalkIsResolved(t: Node, at: Path, p: RawPath)
    requires Walk(t, at, p).Some?
    ensures Walk(t, at, p).value == Resolved(at, p)
    ensures Exists(t, Resolved(at, p))
    decreases |p|
  {
    if p != [] {
      match p[0] {
        case RootDir => WalkIsResolved(t, [], p[1..]);
        case CurDir => WalkIsResolved(t, at, p[1..]);
        case ParentDir => WalkIsResolved(t, Up(at), p[1..]);
        case Normal(name) => WalkIsResolved(t, at + [name], p[1..]);
      }
    }
  }

  // `std::fs::canonicalize`. A relative path only gets this far when there is no
  // current directory to read it from, and then there is nothing to find.
  function Canonicalize(t: Node, p: RawPath): Option<RawPath> {
    var at := Walk(t, [], p);
    if IsAbsolute(p) && at.Some? then Some(Spelled(at.value)) else None
  }

  function Absolute(cwd: Option<Path>, p: RawPath): RawPath {
    if IsAbsolute(p) then p
    else if cwd.Some? then Join(Spelled(cwd.value), p)
    else p
  }

  // Whatever exists along the way, the answer is the absolute path with `.` and `..`
  // folded out.
  method Resolve(t: Node, cwd: Option<Path>, path: RawPath) returns (resolved: RawPath)
    ensures resolved == Normalized(Absolute(cwd, path))
    ensures cwd.Some? ==> resolved == Spelled(Resolved(cwd.value, path))
  {
    var absolute := Absolute(cwd, path);
    AbsoluteResolves(cwd, path);
    var missing: RawPath := [];
    var current := absolute;
    while true
      invariant current + missing == absolute
      decreases |current|
    {
      var found := Canonicalize(t, current);
      if found.Some? {
        CanonicalIsNormalized(t, current);
        NormalizeLaws(current, missing);
        resolved := Normalize(found.value + missing);
        return;
      }
      if current == [] || !current[|current| - 1].Normal? {
        resolved := Normalize(absolute);
        return;
      }
      missing := [current[|current| - 1]] + missing;
      var parent := current[..|current| - 1];
      assert parent + missing == absolute;
      if parent == [] {
        resolved := Normalize(absolute);
        return;
      }
      current := parent;
    }
  }

  lemma AbsoluteResolves(cwd: Option<Path>, path: RawPath)
    ensures cwd.Some? ==> Normalized(Absolute(cwd, path)) == Spelled(Resolved(cwd.value, path))
    ensures cwd.Some? ==> IsAbsolute(Absolute(cwd, path))
  {
    if cwd.Some? {
      var at := cwd.value;
      if IsAbsolute(path) {
        assert Spelled([]) == [RootDir];
        ResolvedIsNormalized([], path[1..]);
      } else {
        NormalizeOntoAppend([], Spelled(at), path);
        SpelledIsNormal(at);
        NormalPathsStay([], Spelled(at));
        assert [] + Spelled(at) == Spelled(at);
        ResolvedIsNormalized(at, path);
      }
    }
  }

  lemma SpelledIsNormal(p: Path)
    ensures IsNormal(Spelled(p))
  {
  }

  lemma CanonicalIsNormalized(t: Node, current: RawPath)
    requires Canonicalize(t, current).Some?
    ensures Canonicalize(t, current).value == Normalized(current)
  {
    WalkIsResolved(t, [], current);
    AbsoluteResolves(Some([]), current);
  }

  // ---- The four names a copy onto `to` may use ----

  function Beside(p: Path, suffix: string): Path {
    if p == [] then ["." + suffix]
    else Parent(p) + [p[|p| - 1] + "." + suffix]
  }

  function Staged(to: Path): Path { Beside(to, "partial") }

  function Displaced(to: Path): Path { Beside(to, "old") }

  function Ownership(to: Path): Path { Beside(to, "copy-owner.json") }

  function Footprint(to: Path): set<Path> {
    {to, Staged(to), Displaced(to), Ownership(to)}
  }

  lemma SiblingsApart(p: Path, a: Name, b: Name)
    requires a != b
    ensures Apart(p + [a], p + [b])
  {
    assert (p + [a])[|p|] != (p + [b])[|p|];
  }

  // The four are siblings, and no two are one.
  lemma FootprintApart(to: Path)
    requires to != []
    ensures Apart(to, Staged(to)) && Apart(to, Displaced(to)) && Apart(to, Ownership(to))
    ensures Apart(Staged(to), Displaced(to)) && Apart(Staged(to), Ownership(to)) && Apart(Displaced(to), Ownership(to))
    ensures Parent(Staged(to)) == Parent(Displaced(to)) == Parent(Ownership(to)) == Parent(to)
    ensures Staged(to) != [] && Displaced(to) != [] && Ownership(to) != []
    ensures forall p | p in Footprint(to) :: !(p <= Parent(to))
  {
    var up, name := Parent(to), to[|to| - 1];
    assert to == up + [name];
    assert |name + ".partial"| == |name| + 8 && |name + ".old"| == |name| + 4
        && |name + ".copy-owner.json"| == |name| + 16;
    assert name + "." + "partial" == name + ".partial";
    assert name + "." + "old" == name + ".old";
    assert name + "." + "copy-owner.json" == name + ".copy-owner.json";
    SiblingsApart(up, name, name + ".partial");
    SiblingsApart(up, name, name + ".old");
    SiblingsApart(up, name, name + ".copy-owner.json");
    SiblingsApart(up, name + ".partial", name + ".old");
    SiblingsApart(up, name + ".partial", name + ".copy-owner.json");
    SiblingsApart(up, name + ".old", name + ".copy-owner.json");
  }

  // Two destinations whose four names stay off each other's own name stay off all of
  // each other's names: the suffixes alone cannot make them meet.
  lemma FootprintsStayApart(a: Path, b: Path)
    requires a != [] && b != []
    requires Clear(Footprint(a), b) && Clear(Footprint(b), a)
    ensures forall p, q | p in Footprint(a) && q in Footprint(b) :: Apart(p, q)
  {
    forall p, q | p in Footprint(a) && q in Footprint(b)
      ensures Apart(p, q)
    {
      NotBelow(a, b, p, q);
      NotBelow(b, a, q, p);
    }
  }

  lemma NotBelow(a: Path, b: Path, p: Path, q: Path)
    requires a != [] && b != []
    requires Clear(Footprint(a), b) && Clear(Footprint(b), a)
    requires p in Footprint(a) && q in Footprint(b)
    ensures !(p <= q)
  {
    FootprintApart(b);
    assert Apart(p, b) && Apart(q, a);
    if p <= q {
      if |p| < |q| {
        AboveASibling(p, q, b);
      } else {
        assert p == q;
        FootprintsShareNothing(a, b, p);
      }
      assert false;
    }
  }

  lemma AboveASibling(p: Path, q: Path, b: Path)
    requires p <= q && |p| < |q| && b != [] && Parent(q) == Parent(b)
    ensures p <= b
  {
  }

  lemma FootprintsShareNothing(a: Path, b: Path, p: Path)
    requires a != [] && b != []
    requires p in Footprint(a) && p in Footprint(b)
    ensures p == a || p == b || a == b
  {
    if p != a && p != b {
      var x, y, s, r := a[|a| - 1], b[|b| - 1], SuffixOf(a, p), SuffixOf(b, p);
      SameSibling(Parent(a), Parent(b), x + "." + s, y + "." + r);
      SuffixUnique(x, y, s, r);
      assert a == Parent(a) + [x] && b == Parent(b) + [y];
    }
  }

  lemma SameSibling(up: Path, up': Path, x: Name, y: Name)
    requires up + [x] == up' + [y]
    ensures up == up' && x == y
  {
    assert |up| == |up'|;
    assert x == (up + [x])[|up|];
    assert up == (up + [x])[..|up|];
  }

  function SuffixOf(a: Path, p: Path): (s: string)
    requires a != [] && p in Footprint(a) && p != a
    ensures s in SUFFIXES && p == Parent(a) + [a[|a| - 1] + "." + s]
  {
    if p == Staged(a) then "partial" else if p == Displaced(a) then "old" else "copy-owner.json"
  }

  const SUFFIXES: set<string> := {"partial", "old", "copy-owner.json"}

  // A name followed by one of the suffixes says which name and which suffix.
  lemma SuffixUnique(x: Name, y: Name, s: string, r: string)
    requires s in SUFFIXES && r in SUFFIXES
    requires x + "." + s == y + "." + r
    ensures x == y && s == r
  {
    var last := x + "." + s;
    assert last[|last| - 1] == s[|s| - 1] == r[|r| - 1];
    assert "partial"[6] == 'l' && "old"[2] == 'd' && "copy-owner.json"[14] == 'n';
    assert x == last[..|last| - |s| - 1] && y == last[..|last| - |r| - 1];
  }

  predicate Contains(outer: Path, inner: Path) {
    inner != outer && outer <= inner
  }

  predicate Overlaps(a: Path, b: Path) {
    a == b || Contains(a, b) || Contains(b, a)
  }

  // Whether something at `d` would be at or below both paths.
  predicate AtOrBelowBoth(d: Path, a: Path, b: Path) {
    a <= d && b <= d
  }

  // Two paths overlap exactly when something could be in both directories.
  lemma OverlapsIsCommonDescendant(a: Path, b: Path)
    ensures Overlaps(a, b) <==> exists d :: AtOrBelowBoth(d, a, b)
    ensures Overlaps(a, b) <==> !Apart(a, b)
  {
    if Overlaps(a, b) {
      assert AtOrBelowBoth(if a <= b then b else a, a, b);
    }
    if exists d :: AtOrBelowBoth(d, a, b) {
      var d :| AtOrBelowBoth(d, a, b);
      PrefixesOfOne(a, b, d);
    }
  }

  // Neither name is the other, nor the other with a suffix.
  predicate Unlike(a: Name, b: Name) {
    a != b && forall x | x in SUFFIXES :: a != b + "." + x && b != a + "." + x
  }

  // Siblings with unlike names keep off each other's four names.
  lemma NeighboursApart(up: Path, a: Name, b: Name)
    requires Unlike(a, b)
    ensures Clear(Footprint(up + [a]), up + [b])
  {
    var to := up + [a];
    forall p | p in Footprint(to) ensures Apart(p, up + [b]) {
      assert Parent(to) == up && to[|to| - 1] == a;
      var name := if p == to then a else a + "." + SuffixOf(to, p);
      SiblingsApart(up, name, b);
    }
  }
}
