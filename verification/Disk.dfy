// The disk as the program sees it: a tree that changes one system call at a time,
// where any call may fail and the machine may stop between any two.
//
// `passed` records every state the disk has been in. A crash is then nothing more
// than being left in one of them, so a statement about every state a method passed
// through is a statement about every moment it could have been killed.
module Disks {
  import opened Values
  import opened Wrappers
  import opened Trees

  ghost predicate NotWithin(region: set<Path>, q: Path) {
    forall p | p in region :: !(p <= q)
  }

  // `t` differs from `s` only at or below the paths of `region`, apart from
  // directories made on the way there.
  ghost predicate SameOutside(s: Node, t: Node, region: set<Path>) {
    && (forall q | Clear(region, q) :: Lookup(t, q) == Lookup(s, q))
    && (forall q | IsDir(s, q) && NotWithin(region, q) :: IsDir(t, q))
  }

  // `t` is `s` with directories made where there was nothing, at `p` or above it.
  ghost predicate MadeOnTheWay(s: Node, t: Node, p: Path) {
    && (forall q | !(q <= p) :: Lookup(t, q) == Lookup(s, q))
    && (forall q | IsDir(s, q) :: IsDir(t, q))
  }

  lemma SameOutsideTransitive(s: Node, t: Node, u: Node, region: set<Path>)
    requires SameOutside(s, t, region) && SameOutside(t, u, region)
    ensures SameOutside(s, u, region)
  {
  }

  // What happens within a region from here on happens within it from the start.
  lemma FromHereOn(s: Node, t: Node, region: set<Path>)
    requires SameOutside(s, t, region)
    ensures forall u | SameOutside(t, u, region) :: SameOutside(s, u, region)
  {
  }

  lemma ApartIsSame(s: Node, t: Node, p: Path, q: Path)
    requires SameOutside(s, t, {p}) && Apart(p, q)
    ensures Lookup(t, q) == Lookup(s, q)
  {
    assert Clear({p}, q);
  }

  lemma SameOutsideWider(s: Node, t: Node, inner: set<Path>, outer: set<Path>)
    requires SameOutside(s, t, inner)
    requires forall p | p in inner :: exists o | o in outer :: o <= p
    ensures SameOutside(s, t, outer)
  {
  }

  lemma MadeIsOutside(s: Node, t: Node, p: Path)
    requires MadeOnTheWay(s, t, p)
    ensures SameOutside(s, t, {p})
  {
  }

  class Disk {
    var root: Node
    var passed: seq<Node>
    // How many calls have failed since the machine came up.
    ghost var failures: nat

    ghost predicate Valid() reads this {
      && root.Dir?
      && passed != []
      && passed[|passed| - 1] == root
      && forall i | 0 <= i < |passed| :: passed[i].Dir?
    }

    constructor (start: Node)
      requires start.Dir?
      ensures Valid() && root == start && passed == [start] && failures == 0
    {
      root, passed, failures := start, [start], 0;
    }

    // One system call taking effect.
    method Step(next: Node)
      requires Valid() && next.Dir?
      modifies this`root, this`passed
      ensures Valid() && root == next && passed == old(passed) + [next]
    {
      root, passed := next, passed + [next];
    }

    // The machine stops somewhere in what has happened since `since`; what is left on
    // the disk is the state it was in then.
    method Crash(since: nat)
      requires Valid() && since < |passed|
      modifies this
      ensures Valid() && failures == 0
      ensures exists i | since <= i < |old(passed)| :: passed == old(passed)[..i + 1] && root == old(passed)[i]
    {
      var i :| since <= i < |passed|;
      root, passed, failures := passed[i], passed[..i + 1], 0;
    }

    // Whether the next call fails is not the program's to decide.
    method Fails() returns (fault: bool)
      modifies this`failures
      ensures failures == old(failures) + if fault then 1 else 0
    {
      fault := *;
      failures := failures + if fault then 1 else 0;
    }

    method MakeDir(p: Path) returns (ok: bool)
      requires Valid()
      modifies this
      ensures Valid() && old(passed) <= passed && old(failures) <= failures
      ensures ok ==> !old(Exists(root, p)) && Lookup(root, p) == Some(Dir(map[])) && passed == old(passed) + [root]
      ensures MadeOnTheWay(old(root), root, p)
      ensures SameOutside(old(root), root, {p})
      ensures !ok ==> root == old(root) && passed == old(passed)
      ensures !ok && p != [] && !Exists(root, p) && IsDir(root, Parent(p)) ==> failures > old(failures)
    {
      var fault := Fails();
      if fault || p == [] || Exists(root, p) || !IsDir(root, Parent(p)) {
        return false;
      }
      forall q
        ensures !(q <= p) ==> Lookup(Put(root, p, Dir(map[])), q) == Lookup(root, q)
      {
        LookupPut(root, p, Dir(map[]), q);
        if p < q {
          LookupBelow(root, p, q[|p|..]);
          LookupBelow(Put(root, p, Dir(map[])), p, q[|p|..]);
          assert p + q[|p|..] == q;
        }
      }
      forall q { LookupPut(root, p, Dir(map[]), q); }
      forall q | p <= q { NothingBelow(root, p, q); }
      Step(Put(root, p, Dir(map[])));
      return true;
    }

    method CreateNew(p: Path) returns (ok: bool)
      requires Valid()
      modifies this
      ensures Valid() && old(passed) <= passed && old(failures) <= failures
      ensures ok ==> !old(Exists(root, p)) && Lookup(root, p) == Some(File([])) && passed == old(passed) + [root]
      ensures SameOutside(old(root), root, {p})
      ensures !ok ==> root == old(root) && passed == old(passed)
      ensures !ok && p != [] && !Exists(root, p) && IsDir(root, Parent(p)) ==> failures > old(failures)
    {
      var fault := Fails();
      if fault || p == [] || Exists(root, p) || !IsDir(root, Parent(p)) {
        return false;
      }
      forall q { LookupPut(root, p, File([]), q); }
      Step(Put(root, p, File([])));
      return true;
    }

    method Append(p: Path, chunk: Bytes) returns (ok: bool)
      requires Valid() && Exists(root, p) && Lookup(root, p).value.File?
      modifies this
      ensures Valid() && old(passed) <= passed && old(failures) <= failures
      ensures ok ==>
                Lookup(root, p) == Some(File(old(Lookup(root, p)).value.content + chunk))
                    && passed == old(passed) + [root]
      ensures SameOutside(old(root), root, {p})
      ensures !ok ==> root == old(root) && passed == old(passed) && failures > old(failures)
    {
      var fault := Fails();
      if fault {
        return false;
      }
      assert p != [];
      AncestorsAreDirectories(root, Parent(p), p);
      var n := File(Lookup(root, p).value.content + chunk);
      forall q { LookupPut(root, p, n, q); }
      Step(Put(root, p, n));
      return true;
    }

    // Removing one file, or one directory that is empty by now.
    method RemoveOne(p: Path) returns (ok: bool)
      requires Valid() && Exists(root, p) && p != []
      requires Lookup(root, p).value.Dir? ==> Lookup(root, p).value.entries == map[]
      modifies this
      ensures Valid() && old(passed) <= passed && old(failures) <= failures
      ensures ok ==> !Exists(root, p) && passed == old(passed) + [root]
      ensures SameOutside(old(root), root, {p})
      ensures !ok ==> root == old(root) && passed == old(passed) && failures > old(failures)
    {
      var fault := Fails();
      if fault {
        return false;
      }
      forall q { LookupDelete(root, p, q); }
      Step(Delete(root, p));
      return true;
    }

    // A rename within one file system. The callers only ever rename onto a free name,
    // so what the platforms do with a taken one plays no part.
    method Rename(from: Path, to: Path) returns (ok: bool)
      requires Valid() && Apart(from, to) && Exists(root, from) && !Exists(root, to) && to != []
      modifies this
      ensures Valid() && old(passed) <= passed && old(failures) <= failures
      ensures ok ==>
                Lookup(root, to) == old(Lookup(root, from)) && !Exists(root, from) && passed == old(passed) + [root]
      ensures SameOutside(old(root), root, {from, to})
      ensures !ok ==> root == old(root) && passed == old(passed)
      ensures !ok && IsDir(root, Parent(to)) ==> failures > old(failures)
    {
      var fault := Fails();
      if fault || !IsDir(root, Parent(to)) {
        return false;
      }
      var moved := Lookup(root, from).value;
      var without := Delete(root, from);
      forall q { LookupDelete(root, from, q); }
      assert !(from <= Parent(to));
      forall q { LookupPut(without, to, moved, q); }
      assert SameOutside(root, without, {from, to});
      Step(Put(without, to, moved));
      return true;
    }
  }
}
