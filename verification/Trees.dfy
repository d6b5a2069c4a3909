// A link-free file system: a tree of directories and files, and the paths into it.
//
// A path here is resolved and absolute, so it is the list of names below the root.
// One copy of the program's state is one value of type `Node`; the steps that change
// it are in Disk.dfy.
module Trees {
  import opened Values
  import opened Wrappers

  type Name = string
  type Path = seq<Name>

  datatype Node = File(content: Bytes) | Dir(entries: map<Name, Node>)

  // What is at `p`, if anything is.
  function Lookup(t: Node, p: Path): Option<Node>
  {
    if p == [] then Some(t)
    else if t.Dir? && p[0] in t.entries then Lookup(t.entries[p[0]], p[1..])
    else None
  }

  predicate Exists(t: Node, p: Path) {
    Lookup(t, p).Some?
  }

  predicate IsDir(t: Node, p: Path) {
    var found := Lookup(t, p);
    found.Some? && found.value.Dir?
  }

  function Parent(p: Path): Path
    requires p != []
  {
    p[..|p| - 1]
  }

  // The tree with `n` at `p`, whose parent has to be a directory.
  function Put(t: Node, p: Path, n: Node): Node
    requires p != [] ==> IsDir(t, Parent(p))
  {
    if p == [] then n
    else
      HeadIsADirectory(t, p);
      if |p| == 1 then Dir(t.entries[p[0] := n])
      else Dir(t.entries[p[0] := Put(t.entries[p[0]], p[1..], n)])
  }

  lemma HeadIsADirectory(t: Node, p: Path)
    requires p != [] && IsDir(t, Parent(p))
    ensures t.Dir?
    ensures |p| > 1 ==> p[0] in t.entries && IsDir(t.entries[p[0]], Parent(p[1..]))
  {
    if |p| > 1 {
      assert Parent(p)[1..] == Parent(p[1..]);
    }
  }

  // The tree without whatever is at `p`.
  function Delete(t: Node, p: Path): Node
    requires p != []
  {
    if t.File? || p[0] !in t.entries then t
    else if |p| == 1 then Dir(t.entries - {p[0]})
    else Dir(t.entries[p[0] := Delete(t.entries[p[0]], p[1..])])
  }

  // Neither path is the other or above the other.
  predicate Apart(a: Path, b: Path) {
    !(a <= b) && !(b <= a)
  }

  // Apart from every path of a region.
  predicate Clear(region: set<Path>, q: Path) {
    forall p | p in region :: Apart(p, q)
  }

  lemma PrefixesOfOne(a: Path, b: Path, c: Path)
    requires a <= c && b <= c
    ensures a <= b || b <= a
  {
  }

  lemma {:induction false} LookupPut(t: Node, p: Path, n: Node, q: Path)
    requires p != [] ==> IsDir(t, Parent(p))
    ensures Lookup(Put(t, p, n), p) == Some(n)
    ensures Apart(p, q) ==> Lookup(Put(t, p, n), q) == Lookup(t, q)
    ensures IsDir(t, q) && !(p <= q) ==> IsDir(Put(t, p, n), q)
    decreases |p|
  {
    if p != [] {
      HeadIsADirectory(t, p);
      if |p| > 1 {
        if q != [] && q[0] == p[0] {
          LookupPut(t.entries[p[0]], p[1..], n, q[1..]);
          assert p == [p[0]] + p[1..] && q == [q[0]] + q[1..];
        } else {
          LookupPut(t.entries[p[0]], p[1..], n, []);
        }
      } else if q != [] && q[0] == p[0] {
        assert p <= q;
      }
    }
  }

  lemma {:induction false} LookupDelete(t: Node, p: Path, q: Path)
    requires p != []
    ensures Lookup(Delete(t, p), p) == None
    ensures Apart(p, q) ==> Lookup(Delete(t, p), q) == Lookup(t, q)
    ensures IsDir(t, q) && !(p <= q) ==> IsDir(Delete(t, p), q)
    decreases |p|
  {
    if t.Dir? && p[0] in t.entries {
      if |p| > 1 {
        if q != [] && q[0] == p[0] {
          LookupDelete(t.entries[p[0]], p[1..], q[1..]);
          assert p == [p[0]] + p[1..] && q == [q[0]] + q[1..];
        } else {
          LookupDelete(t.entries[p[0]], p[1..], []);
        }
      } else if q != [] && q[0] == p[0] {
        assert p <= q;
      }
    }
  }

  lemma {:induction false} LookupBelow(t: Node, p: Path, q: Path)
    ensures Lookup(t, p + q) == if Exists(t, p) then Lookup(Lookup(t, p).value, q) else None
    decreases |p|
  {
    if p == [] {
      assert p + q == q;
    } else if t.Dir? && p[0] in t.entries {
      LookupBelow(t.entries[p[0]], p[1..], q);
      assert (p + q)[1..] == p[1..] + q;
    }
  }

  // A path that leads somewhere leads there through directories.
  lemma AncestorsAreDirectories(t: Node, p: Path, q: Path)
    requires p < q && Exists(t, q)
    ensures IsDir(t, p)
  {
    LookupBelow(t, p, q[|p|..]);
    assert p + q[|p|..] == q;
  }

  // Whatever is on the way to `p`, `p` included, is a directory.
  ghost predicate ClearWay(t: Node, p: Path) {
    forall q | q <= p && Exists(t, q) :: IsDir(t, q)
  }

  lemma DirectoriesAllTheWay(t: Node, p: Path)
    requires IsDir(t, p)
    ensures ClearWay(t, p)
  {
    forall q | q <= p ensures IsDir(t, q) {
      if |q| < |p| {
        AncestorsAreDirectories(t, q, p);
      } else {
        assert q == p;
      }
    }
  }

  lemma FreeNameHasAClearWay(t: Node, p: Path)
    requires p != [] && IsDir(t, Parent(p)) && !Exists(t, p)
    ensures ClearWay(t, p)
  {
    DirectoriesAllTheWay(t, Parent(p));
    forall q | q <= p && Exists(t, q) ensures IsDir(t, q) {
      assert q <= Parent(p) || q == p;
    }
  }

  lemma NothingBelow(t: Node, p: Path, q: Path)
    requires !Exists(t, p) && p <= q
    ensures !Exists(t, q)
  {
    LookupBelow(t, p, q[|p|..]);
    assert p + q[|p|..] == q;
  }

  lemma ChildLookup(t: Node, p: Path, name: Name)
    ensures Lookup(t, p + [name]) ==
            if IsDir(t, p) && name in Lookup(t, p).value.entries
            then Some(Lookup(t, p).value.entries[name]) else None
  {
    LookupBelow(t, p, [name]);
  }

  // A directory is its children, one by one.
  lemma DirectoryIsItsChildren(t: Node, p: Path, m: map<Name, Node>)
    requires IsDir(t, p)
    requires forall name :: Lookup(t, p + [name]) == if name in m then Some(m[name]) else None
    ensures Lookup(t, p) == Some(Dir(m))
  {
    var there := Lookup(t, p).value.entries;
    forall name
      ensures name in there <==> name in m
      ensures name in m ==> there[name] == m[name]
    {
      ChildLookup(t, p, name);
      assert Lookup(t, p + [name]) == if name in m then Some(m[name]) else None;
    }
    assert there == m;
  }

  // What a copy counts: the bytes of every file in the tree.
  ghost function Size(n: Node): nat
    decreases n, 1
  {
    match n
    case File(content) => |content|
    case Dir(entries) => SizeOfEntries(n, entries.Keys)
  }

  ghost function SizeOfEntries(n: Node, names: set<Name>): nat
    requires n.Dir? && names <= n.entries.Keys
    decreases n, 0, names
  {
    if names == {} then 0
    else
      var name :| name in names;
      Size(n.entries[name]) + SizeOfEntries(n, names - {name})
  }

  // The total does not depend on the order the directory is read in.
  lemma {:induction false} SizeTakingAny(n: Node, names: set<Name>, name: Name)
    requires n.Dir? && names <= n.entries.Keys && name in names
    ensures SizeOfEntries(n, names) == Size(n.entries[name]) + SizeOfEntries(n, names - {name})
    decreases names
  {
    var first :| first in names
        && SizeOfEntries(n, names) == Size(n.entries[first]) + SizeOfEntries(n, names - {first});
    if first != name {
      SizeTakingAny(n, names - {first}, name);
      SizeTakingAny(n, names - {name}, first);
      assert names - {first} - {name} == names - {name} - {first};
    }
  }

  // Entries of the same sizes come to the same total, whatever else is in the directories.
  lemma {:induction false} SizeByEntries(a: Node, b: Node, names: set<Name>)
    requires a.Dir? && b.Dir? && names <= a.entries.Keys && names <= b.entries.Keys
    requires forall name | name in names :: a.entries[name] == b.entries[name]
    ensures SizeOfEntries(a, names) == SizeOfEntries(b, names)
    decreases names
  {
    if names != {} {
      var name :| name in names;
      SizeTakingAny(a, names, name);
      SizeTakingAny(b, names, name);
      SizeByEntries(a, b, names - {name});
    }
  }

  // An empty directory counts nothing, and one entry more counts what is in it.
  lemma SizeOfOneEntryMore(entries: map<Name, Node>, name: Name, n: Node)
    requires name !in entries
    ensures Size(Dir(map[])) == 0
    ensures Size(Dir(entries[name := n])) == Size(Dir(entries)) + Size(n)
  {
    var more := Dir(entries[name := n]);
    SizeTakingAny(more, more.entries.Keys, name);
    assert more.entries.Keys - {name} == entries.Keys;
    SizeByEntries(more, Dir(entries), entries.Keys);
  }
}
