// Copying a tree and clearing one away: many small steps, each of which may fail.
module Copying {
  import opened Values
  import opened Wrappers
  import opened Trees
  import opened Disks

  // Makes `p` a directory, with whatever is missing above it.
  method CreateDirAll(disk: Disk, p: Path) returns (ok: bool)
    requires disk.Valid()
    modifies disk
    ensures disk.Valid() && old(disk.passed) <= disk.passed && old(disk.failures) <= disk.failures
    ensures forall i | |old(disk.passed)| <= i < |disk.passed| :: MadeOnTheWay(old(disk.root), disk.passed[i], p)
    ensures MadeOnTheWay(old(disk.root), disk.root, p)
    ensures ok ==> IsDir(disk.root, p)
    ensures old(IsDir(disk.root, p)) ==> disk.root == old(disk.root) && disk.passed == old(disk.passed)
    ensures !ok && old(ClearWay(disk.root, p)) ==> disk.failures > old(disk.failures)
  {
    hide MadeOnTheWay, ClearWay;
    var made := 0;
    ok := true;
    NothingMade(disk.root, p);
    while made < |p| && ok
      invariant 0 <= made <= |p|
      invariant disk.Valid() && old(disk.passed) <= disk.passed && old(disk.failures) <= disk.failures
      invariant forall i | |old(disk.passed)| <= i < |disk.passed| :: MadeOnTheWay(old(disk.root), disk.passed[i], p)
      invariant MadeOnTheWay(old(disk.root), disk.root, p)
      invariant ok ==> IsDir(disk.root, p[..made])
      invariant ok ==> forall q | q <= p && |q| > made :: Lookup(disk.root, q) == old(Lookup(disk.root, q))
      invariant !ok && old(ClearWay(disk.root, p)) ==> disk.failures > old(disk.failures)
      invariant old(IsDir(disk.root, p)) ==> disk.root == old(disk.root) && disk.passed == old(disk.passed)
    {
      made := made + 1;
      var next := p[..made];
      if old(IsDir(disk.root, p)) {
        TheWayIsThere(disk.root, next, p);
      }
      if Exists(disk.root, next) {
        ok := IsDir(disk.root, next);
        if !ok {
          BlockedWay(old(disk.root), p, next);
        }
      } else {
        ghost var before := disk.root;
        assert Parent(next) == p[..made - 1];
        ok := disk.MakeDir(next);
        MadeFurther(old(disk.root), before, disk.root, next, p);
        if ok {
          EmptyBelow(before, disk.root, next);
        }
      }
    }
    assert p[..|p|] == p;
  }

  lemma TheWayIsThere(t: Node, q: Path, p: Path)
    requires q <= p && IsDir(t, p)
    ensures IsDir(t, q)
  {
    if q == p {
      return;
    }
    AncestorsAreDirectories(t, q, p);
  }

  lemma NothingMade(s: Node, p: Path)
    ensures MadeOnTheWay(s, s, p)
  {
  }

  lemma BlockedWay(t: Node, p: Path, q: Path)
    requires q <= p && Exists(t, q) && !IsDir(t, q)
    ensures !ClearWay(t, p)
  {
  }

  // A directory that was just made has nothing below it, and nor had the free name.
  lemma EmptyBelow(s: Node, t: Node, p: Path)
    requires !Exists(s, p) && Lookup(t, p) == Some(Dir(map[]))
    ensures forall q | p < q :: Lookup(t, q) == Lookup(s, q) == None
  {
    forall q | p < q ensures Lookup(t, q) == Lookup(s, q) == None {
      assert p + q[|p|..] == q;
      LookupBelow(s, p, q[|p|..]);
      LookupBelow(t, p, q[|p|..]);
    }
  }

  lemma MadeFurther(s: Node, t: Node, u: Node, a: Path, p: Path)
    requires MadeOnTheWay(s, t, p) && MadeOnTheWay(t, u, a) && a <= p
    ensures MadeOnTheWay(s, u, p)
  {
  }

  // Fills a new file. The contents arrive in pieces of whatever size the platform
  // chooses, so the file may be left holding any part of them.
  method WriteAll(disk: Disk, p: Path, content: Bytes) returns (ok: bool)
    requires disk.Valid() && Lookup(disk.root, p) == Some(File([]))
    modifies disk
    ensures disk.Valid() && old(disk.passed) <= disk.passed && old(disk.failures) <= disk.failures
    ensures forall i | |old(disk.passed)| <= i < |disk.passed| :: SameOutside(old(disk.root), disk.passed[i], {p})
    ensures SameOutside(old(disk.root), disk.root, {p})
    ensures if ok then Lookup(disk.root, p) == Some(File(content)) else disk.failures > old(disk.failures)
  {
    ok := true;
    var written := 0;
    while written < |content| && ok
      invariant 0 <= written <= |content|
      invariant disk.Valid() && old(disk.passed) <= disk.passed && old(disk.failures) <= disk.failures
      invariant forall i | |old(disk.passed)| <= i < |disk.passed| :: SameOutside(old(disk.root), disk.passed[i], {p})
      invariant SameOutside(old(disk.root), disk.root, {p})
      invariant if ok then Lookup(disk.root, p) == Some(File(content[..written]))
                else disk.failures > old(disk.failures)
    {
      var upTo :| written < upTo <= |content|;
      ok := disk.Append(p, content[written..upTo]);
      assert content[..written] + content[written..upTo] == content[..upTo];
      written := upTo;
    }
    assert content[..|content|] == content;
  }

  method CopyFile(disk: Disk, from: Path, to: Path) returns (r: Option<nat>)
    requires disk.Valid() && Apart(from, to) && !Exists(disk.root, to)
    requires Exists(disk.root, from) && Lookup(disk.root, from).value.File?
    modifies disk
    ensures disk.Valid() && old(disk.passed) <= disk.passed && old(disk.failures) <= disk.failures
    ensures forall i | |old(disk.passed)| <= i < |disk.passed| :: SameOutside(old(disk.root), disk.passed[i], {to})
    ensures SameOutside(old(disk.root), disk.root, {to})
    ensures r.Some? ==>
              Lookup(disk.root, to) == old(Lookup(disk.root, from))
                  && r.value == Size(old(Lookup(disk.root, from)).value)
    ensures r.None? && old(IsDir(disk.root, Parent(to))) ==> disk.failures > old(disk.failures)
  {
    var content := Lookup(disk.root, from).value.content;
    var ok := disk.CreateNew(to);
    if ok {
      ok := WriteAll(disk, to, content);
    }
    return if ok then Some(|content|) else None;
  }

  // `CreateDirAll` where nothing is yet: what it leaves is an empty directory.
  method FreshDir(disk: Disk, p: Path) returns (ok: bool)
    requires disk.Valid() && !Exists(disk.root, p) && p != []
    modifies disk
    ensures disk.Valid() && old(disk.passed) <= disk.passed && old(disk.failures) <= disk.failures
    ensures forall i | |old(disk.passed)| <= i < |disk.passed| :: SameOutside(old(disk.root), disk.passed[i], {p})
    ensures SameOutside(old(disk.root), disk.root, {p})
    ensures ok ==> Lookup(disk.root, p) == Some(Dir(map[]))
    ensures !ok && old(IsDir(disk.root, Parent(p))) ==> disk.failures > old(disk.failures)
  {
    ghost var start := disk.root;
    if IsDir(start, Parent(p)) {
      FreeNameHasAClearWay(start, p);
    }
    ok := CreateDirAll(disk, p);
    forall i | |old(disk.passed)| <= i < |disk.passed| ensures SameOutside(start, disk.passed[i], {p}) {
      MadeIsOutside(start, disk.passed[i], p);
    }
    MadeIsOutside(start, disk.root, p);
    if ok {
      forall name { NothingBelow(start, p, p + [name]); }
      DirectoryIsItsChildren(disk.root, p, map[]);
    }
  }

  // Copies a directory into a fresh one, returning how many bytes of files it wrote.
  method CopyTree(disk: Disk, from: Path, to: Path) returns (r: Option<nat>)
    requires disk.Valid() && Apart(from, to) && IsDir(disk.root, from) && !Exists(disk.root, to)
    modifies disk
    ensures disk.Valid() && old(disk.passed) <= disk.passed && old(disk.failures) <= disk.failures
    ensures forall i | |old(disk.passed)| <= i < |disk.passed| :: SameOutside(old(disk.root), disk.passed[i], {to})
    ensures SameOutside(old(disk.root), disk.root, {to})
    ensures r.Some? ==>
              Lookup(disk.root, to) == old(Lookup(disk.root, from))
                  && r.value == Size(old(Lookup(disk.root, from)).value)
    ensures r.None? && old(IsDir(disk.root, Parent(to))) ==> disk.failures > old(disk.failures)
    decreases Lookup(disk.root, from).value
  {
    hide SameOutside;
    ghost var start := disk.root;
    var source := Lookup(disk.root, from).value;
    var made := FreshDir(disk, to);
    if !made {
      return None;
    }
    ApartIsSame(start, disk.root, to, from);
    var fault := disk.Fails();
    if fault {
      return None;
    }
    var bytes := 0;
    var todo := source.entries.Keys;
    EntriesLeft(source.entries);
    while todo != {}
      invariant todo <= source.entries.Keys
      invariant disk.Valid() && old(disk.passed) <= disk.passed && old(disk.failures) <= disk.failures
      invariant forall i | |old(disk.passed)| <= i < |disk.passed| :: SameOutside(start, disk.passed[i], {to})
      invariant SameOutside(start, disk.root, {to})
      invariant Lookup(disk.root, from) == Some(source)
      invariant Lookup(disk.root, to) == Some(Dir(source.entries - todo))
      invariant bytes + SizeOfEntries(source, todo) == Size(source)
      decreases todo
    {
      var name :| name in todo;
      ghost var before := disk.root;
      var copied := CopyEntry(disk, from, to, name, source, source.entries - todo);
      FromHereOn(start, before, {to});
      if copied.None? {
        return None;
      }
      ApartIsSame(before, disk.root, to, from);
      SizeTakingAny(source, todo, name);
      bytes := bytes + copied.value;
      OneEntryLess(source.entries, todo, name);
      todo := todo - {name};
    }
    return Some(bytes);
  }

  lemma EntriesLeft(entries: map<Name, Node>)
    ensures entries - entries.Keys == map[] && entries - {} == entries
  {
  }

  lemma OneEntryLess(entries: map<Name, Node>, todo: set<Name>, name: Name)
    requires name in todo && todo <= entries.Keys
    ensures (entries - todo)[name := entries[name]] == entries - (todo - {name})
  {
  }

  // One entry of the directory being copied.
  method CopyEntry(disk: Disk, from: Path, to: Path, name: Name, source: Node, ghost done: map<Name, Node>)
    returns (r: Option<nat>)
    requires disk.Valid() && Apart(from, to)
    requires source.Dir? && Lookup(disk.root, from) == Some(source) && name in source.entries
    requires Lookup(disk.root, to) == Some(Dir(done)) && name !in done
    modifies disk
    ensures disk.Valid() && old(disk.passed) <= disk.passed && old(disk.failures) <= disk.failures
    ensures forall i | |old(disk.passed)| <= i < |disk.passed| :: SameOutside(old(disk.root), disk.passed[i], {to})
    ensures SameOutside(old(disk.root), disk.root, {to})
    ensures r.Some? ==> Lookup(disk.root, to) == Some(Dir(done[name := source.entries[name]]))
    ensures if r.Some? then r.value == Size(source.entries[name]) else disk.failures > old(disk.failures)
    decreases source, 0
  {
    hide SameOutside, Apart;
    ghost var start := disk.root;
    ChildLookup(disk.root, from, name);
    ChildLookup(disk.root, to, name);
    WithinTheDirectory(start, to, name);
    NothingOutside(start, {to});
    var fault := disk.Fails();
    if fault {
      return None;
    }
    StillApart(from, to, [name]);
    if source.entries[name].Dir? {
      r := CopyTree(disk, from + [name], to + [name]);
    } else {
      r := CopyFile(disk, from + [name], to + [name]);
    }
    if r.Some? {
      OnlyChildChanged(start, disk.root, to, name, done, done[name := source.entries[name]]);
    }
  }

  lemma WithinTheDirectory(s: Node, p: Path, name: Name)
    ensures forall t | SameOutside(s, t, {p + [name]}) :: SameOutside(s, t, {p})
  {
    forall t | SameOutside(s, t, {p + [name]}) ensures SameOutside(s, t, {p}) {
      SameOutsideWider(s, t, {p + [name]}, {p});
    }
  }

  lemma NothingOutside(s: Node, region: set<Path>)
    ensures SameOutside(s, s, region)
  {
  }

  // Knowing what became of one child is knowing what became of its directory.
  lemma OnlyChildChanged(s: Node, t: Node, p: Path, name: Name, m: map<Name, Node>, m': map<Name, Node>)
    requires SameOutside(s, t, {p + [name]})
    requires Lookup(s, p) == Some(Dir(m))
    requires Lookup(t, p + [name]) == if name in m' then Some(m'[name]) else None
    requires m - {name} == m' - {name}
    ensures Lookup(t, p) == Some(Dir(m'))
  {
    assert NotWithin({p + [name]}, p);
    forall other ensures Lookup(t, p + [other]) == if other in m' then Some(m'[other]) else None {
      if other != name {
        assert (p + [other])[|p|] != (p + [name])[|p|];
        assert Clear({p + [name]}, p + [other]);
        ChildLookup(s, p, other);
        assert other in m <==> other in m - {name};
        assert other in m' <==> other in m' - {name};
        assert other in m ==> m[other] == (m - {name})[other] == (m' - {name})[other] == m'[other];
      }
    }
    DirectoryIsItsChildren(t, p, m');
  }

  lemma StillApart(a: Path, b: Path, c: Path)
    requires Apart(a, b)
    ensures Apart(a + c, b + c) && Apart(a, b + c) && Apart(a + c, b)
  {
    var i := Difference(a, b);
    DifferentIsApart(a + c, b + c, i);
    DifferentIsApart(a, b + c, i);
    DifferentIsApart(a + c, b, i);
  }

  // Paths are apart when they go different ways somewhere, and only then.
  lemma Difference(a: Path, b: Path) returns (i: nat)
    requires Apart(a, b)
    ensures i < |a| && i < |b| && a[i] != b[i]
  {
    if |a| <= |b| {
      assert a != b[..|a|];
      i :| 0 <= i < |a| && a[i] != b[..|a|][i];
    } else {
      assert b != a[..|b|];
      i :| 0 <= i < |b| && b[i] != a[..|b|][i];
    }
  }

  lemma DifferentIsApart(a: Path, b: Path, i: nat)
    requires i < |a| && i < |b| && a[i] != b[i]
    ensures Apart(a, b)
  {
  }

  // Removes whatever is at `p`; nothing being there is a success.
  method RemoveAny(disk: Disk, p: Path) returns (ok: bool)
    requires disk.Valid() && p != []
    modifies disk
    ensures disk.Valid() && old(disk.passed) <= disk.passed && old(disk.failures) <= disk.failures
    ensures forall i | |old(disk.passed)| <= i < |disk.passed| :: SameOutside(old(disk.root), disk.passed[i], {p})
    ensures SameOutside(old(disk.root), disk.root, {p})
    ensures ok ==> !Exists(disk.root, p)
    ensures !ok ==> disk.failures > old(disk.failures)
    ensures !old(Exists(disk.root, p)) ==> disk.passed == old(disk.passed) && disk.root == old(disk.root)
    ensures old(Exists(disk.root, p)) && old(Lookup(disk.root, p)).value.File? ==>
              if ok then disk.passed == old(disk.passed) + [disk.root]
              else disk.passed == old(disk.passed) && disk.root == old(disk.root)
    decreases if Exists(disk.root, p) then 1 else 0,
              if Exists(disk.root, p) then Lookup(disk.root, p).value else disk.root
  {
    if !Exists(disk.root, p) {
      var fault := disk.Fails();
      return !fault;
    }
    var there := Lookup(disk.root, p).value;
    if there.Dir? {
      var emptied := RemoveEntries(disk, p, there);
      if !emptied {
        return false;
      }
    }
    ok := disk.RemoveOne(p);
  }

  method RemoveEntries(disk: Disk, p: Path, there: Node) returns (ok: bool)
    requires disk.Valid() && p != [] && there.Dir? && Lookup(disk.root, p) == Some(there)
    modifies disk
    ensures disk.Valid() && old(disk.passed) <= disk.passed && old(disk.failures) <= disk.failures
    ensures forall i | |old(disk.passed)| <= i < |disk.passed| :: SameOutside(old(disk.root), disk.passed[i], {p})
    ensures SameOutside(old(disk.root), disk.root, {p})
    ensures ok ==> Lookup(disk.root, p) == Some(Dir(map[]))
    ensures !ok ==> disk.failures > old(disk.failures)
    decreases 1, there, 1
  {
    hide SameOutside;
    ghost var start := disk.root;
    NothingOutside(start, {p});
    var todo := there.entries.Keys;
    assert (map name | name in todo :: there.entries[name]) == there.entries;
    while todo != {}
      invariant todo <= there.entries.Keys
      invariant disk.Valid() && old(disk.passed) <= disk.passed && old(disk.failures) <= disk.failures
      invariant forall i | |old(disk.passed)| <= i < |disk.passed| :: SameOutside(start, disk.passed[i], {p})
      invariant SameOutside(start, disk.root, {p})
      invariant Lookup(disk.root, p) == Some(Dir(map name | name in todo :: there.entries[name]))
      decreases todo
    {
      var name :| name in todo;
      ghost var left := map name | name in todo :: there.entries[name];
      ghost var before := disk.root;
      var gone := RemoveEntry(disk, p, name, there, left);
      FromHereOn(start, before, {p});
      if !gone {
        return false;
      }
      todo := todo - {name};
      assert left - {name} == (map name | name in todo :: there.entries[name]);
    }
    return true;
  }

  method RemoveEntry(disk: Disk, p: Path, name: Name, there: Node, ghost left: map<Name, Node>) returns (ok: bool)
    requires disk.Valid() && Lookup(disk.root, p) == Some(Dir(left))
    requires there.Dir? && name in there.entries && name in left && left[name] == there.entries[name]
    modifies disk
    ensures disk.Valid() && old(disk.passed) <= disk.passed && old(disk.failures) <= disk.failures
    ensures forall i | |old(disk.passed)| <= i < |disk.passed| :: SameOutside(old(disk.root), disk.passed[i], {p})
    ensures SameOutside(old(disk.root), disk.root, {p})
    ensures ok ==> Lookup(disk.root, p) == Some(Dir(left - {name}))
    ensures !ok ==> disk.failures > old(disk.failures)
    decreases 1, there, 0
  {
    hide SameOutside;
    ghost var start := disk.root;
    ChildLookup(disk.root, p, name);
    WithinTheDirectory(start, p, name);
    ok := RemoveAny(disk, p + [name]);
    if ok {
      OnlyChildChanged(start, disk.root, p, name, left, left - {name});
    }
  }
}
