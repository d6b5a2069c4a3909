// Recovery at startup, and whole histories: runs and recoveries, one after another,
// each of them possibly cut short at any of its steps.
module Histories {
  import opened Values
  import opened Wrappers
  import opened Lists
  import opened Trees
  import opened Disks
  import opened Paths
  import opened Swap
  import opened Plans
  import opened Transfers

  // ---- Startup ----

  predicate DistinctIds(profiles: seq<Profile>) {
    forall i, j | 0 <= i < j < |profiles| :: profiles[i].id != profiles[j].id
  }

  predicate Rooted(host: Host, profiles: seq<Profile>) {
    forall i | 0 <= i < |profiles| :: OwnDir(host, profiles[i]) != []
  }

  // One of the profile's four names is, holds or lies in another profile's directory.
  predicate Crowded(host: Host, profiles: seq<Profile>, i: nat)
    requires i < |profiles|
  {
    exists j, n | 0 <= j < |profiles| && n in Footprint(Resolved(host.cwd, profiles[i].dir)) ::
      profiles[j].id != profiles[i].id && Overlaps(n, Resolved(host.cwd, profiles[j].dir))
  }

  lemma RecoveredUnlessCrowded(host: Host, profiles: seq<Profile>, i: nat)
    requires i < |profiles|
    ensures MayRecover(host, profiles, i) <==> !Crowded(host, profiles, i)
  {
    hide Footprint, Resolved, Overlaps, Apart;
    forall a, b { OverlapsIsCommonDescendant(a, b); }
    if !Crowded(host, profiles, i) {
      forall j, n | 0 <= j < |profiles| && profiles[j].id != profiles[i].id && n in Footprint(OwnDir(host, profiles[i]))
        ensures Apart(n, OwnDir(host, profiles[j]))
      {
        assert !Overlaps(n, Resolved(host.cwd, profiles[j].dir));
      }
    }
  }

  // No other profile's directory is near the names this one's recovery may touch.
  predicate MayRecover(host: Host, profiles: seq<Profile>, i: nat)
    requires i < |profiles|
  {
    forall j | 0 <= j < |profiles| && profiles[j].id != profiles[i].id ::
      Clear(Footprint(OwnDir(host, profiles[i])), OwnDir(host, profiles[j]))
  }

  predicate NeedsPuttingBack(host: Host, t: Node, to: Path) {
    !Exists(t, to) && Exists(t, Displaced(to)) && Marked(host, t, to)
  }

  function RecoveryRegion(host: Host, profiles: seq<Profile>): set<Path> {
    set i, p | 0 <= i < |profiles| && MayRecover(host, profiles, i) && p in Footprint(OwnDir(host, profiles[i])) :: p
  }

  lemma SameFourMeans(host: Host, s: Node, t: Node, to: Path)
    requires SameFour(s, t, to)
    ensures Held(host, t, to) == Held(host, s, to)
    ensures Marked(host, t, to) == Marked(host, s, to)
    ensures Clean(t, to) == Clean(s, to)
    ensures Settled(host, t, to) == Settled(host, s, to)
    ensures Unowned(host, t, to) == Unowned(host, s, to)
    ensures NeedsPuttingBack(host, t, to) == NeedsPuttingBack(host, s, to)
  {
  }

  // What the recoveries at startup can have made of a tree.
  ghost predicate Restoring(host: Host, s: Node, t: Node, profiles: seq<Profile>) {
    && SameOutside(s, t, RecoveryRegion(host, profiles))
    && forall j | 0 <= j < |profiles| && MayRecover(host, profiles, j) :: Kept(host, s, t, OwnDir(host, profiles[j]))
  }

  ghost predicate Kept(host: Host, s: Node, t: Node, to: Path) {
    && Held(host, t, to) == Held(host, s, to)
    && (Settled(host, s, to) ==> Settled(host, t, to))
    && (Unowned(host, s, to) ==> SameFour(s, t, to))
  }

  // How one profile came out, `failed` calls having failed over it. It is named exactly when
  // its original had to be put back and nothing is left beside it. A copy of ours that was
  // cut short is dealt with - unless a call failed, and then the record is still there.
  ghost predicate Answered(host: Host, s: Node, t: Node, to: Path, named: bool, failed: nat) {
    && (named <==> NeedsPuttingBack(host, s, to) && Clean(t, to))
    && (Marked(host, s, to) ==> Clean(t, to) || (Marked(host, t, to) && failed > 0))
    && (Marked(host, s, to) && Clean(t, to) ==> Lookup(t, to) == Held(host, s, to))
  }

  function Total(counts: seq<nat>): nat {
    if counts == [] then 0 else Total(counts[..|counts| - 1]) + counts[|counts| - 1]
  }

  lemma {:induction false} TotalOfNothing(counts: seq<nat>)
    requires Total(counts) == 0
    ensures forall i | 0 <= i < |counts| :: counts[i] == 0
  {
    if counts != [] {
      TotalOfNothing(counts[..|counts| - 1]);
      assert forall i | 0 <= i < |counts| - 1 :: counts[..|counts| - 1][i] == counts[i];
    }
  }

  method RecoverUserDataDirs(host: Host, disk: Disk, profiles: seq<Profile>)
    returns (putBack: seq<string>, ghost named: seq<bool>, ghost failed: seq<nat>)
    requires disk.Valid() && DistinctIds(profiles) && Rooted(host, profiles)
    modifies disk
    ensures disk.Valid() && old(disk.passed) <= disk.passed && old(disk.failures) <= disk.failures
    ensures forall i | |old(disk.passed)| <= i < |disk.passed| ::
              Restoring(host, old(disk.root), disk.passed[i], profiles)
    ensures Restoring(host, old(disk.root), disk.root, profiles)
    ensures |named| == |failed| == |profiles|
    ensures Selects(WithNames(profiles, named), (it: (string, bool)) => it.1, (it: (string, bool)) => it.0, putBack)
    ensures disk.failures == old(disk.failures) + Total(failed)
    // A profile is passed over only where another's directory is near; its own is not touched.
    ensures forall j | 0 <= j < |profiles| ::
              var own := Resolved(host.cwd, profiles[j].dir);
              if Crowded(host, profiles, j) then !named[j] && Lookup(disk.root, own) == old(Lookup(disk.root, own))
              else Answered(host, old(disk.root), disk.root, own, named[j], failed[j])
    // With no call failing, everything of ours is dealt with and everyone put back is named.
    ensures disk.failures == old(disk.failures) ==> AllDealtWith(host, old(disk.root), disk.root, profiles, named)
  {
    hide RecoveredUpTo, Restoring, Answered, MayRecover, AllDealtWith, NamesWhere, OwnDir, Crowded, Resolved,
        Selects, WithNames;
    var resolved := ResolveOwnDirs(host, disk.root, profiles);
    ghost var start := disk.root;
    NobodyNamed(profiles);
    putBack, named, failed := [], [], [];
    RestoringStarts(host, start, profiles);
    for i := 0 to |profiles|
      invariant disk.Valid() && old(disk.passed) <= disk.passed
      invariant forall k | |old(disk.passed)| <= k < |disk.passed| :: Restoring(host, start, disk.passed[k], profiles)
      invariant RecoveredUpTo(host, start, disk.root, profiles, named, failed, i)
      invariant disk.failures == old(disk.failures) + Total(failed)
      invariant |named| == i && putBack == NamesWhere(profiles[..i], named)
    {
      ghost var before := disk.failures;
      var back := RecoverOne(host, disk, start, profiles, resolved, named, failed, i);
      if back {
        putBack := putBack + [profiles[i].name];
      }
      OneMoreNamed(profiles, named, i, back);
      OneMoreCounted(failed, disk.failures - before);
      named, failed := named + [back], failed + [disk.failures - before];
    }
    assert profiles[..|profiles|] == profiles;
    NamedInOrder(profiles, named);
    AllAnswered(host, start, disk.root, profiles, named, failed);
    forall j | 0 <= j < |profiles|
      ensures var own := Resolved(host.cwd, profiles[j].dir);
              if Crowded(host, profiles, j) then !named[j] && Lookup(disk.root, own) == Lookup(start, own)
              else Answered(host, start, disk.root, own, named[j], failed[j])
    {
      OwnDirResolves(host, profiles[j]);
      RecoveredUnlessCrowded(host, profiles, j);
      if Crowded(host, profiles, j) {
        PassedOverKeepsItsData(host, start, disk.root, profiles, j);
      }
    }
    if disk.failures == old(disk.failures) {
      NoFailuresNoExcuse(host, start, disk.root, profiles, named, failed);
    }
  }

  lemma OwnDirResolves(host: Host, p: Profile)
    ensures OwnDir(host, p) == Resolved(host.cwd, p.dir)
  {
  }

  lemma PassedOverKeepsItsData(host: Host, s: Node, t: Node, profiles: seq<Profile>, j: nat)
    requires DistinctIds(profiles) && j < |profiles| && Crowded(host, profiles, j)
    requires Restoring(host, s, t, profiles)
    ensures Lookup(t, OwnDir(host, profiles[j])) == Lookup(s, OwnDir(host, profiles[j]))
  {
    hide Crowded, OwnDir, Footprint;
    RecoveredUnlessCrowded(host, profiles, j);
    var own := OwnDir(host, profiles[j]);
    forall p | p in RecoveryRegion(host, profiles) ensures Apart(p, own) {
      var i :| 0 <= i < |profiles| && MayRecover(host, profiles, i) && p in Footprint(OwnDir(host, profiles[i]));
      assert profiles[i].id != profiles[j].id;
      assert Clear(Footprint(OwnDir(host, profiles[i])), own);
    }
    assert Clear(RecoveryRegion(host, profiles), own);
  }

  lemma NobodyNamed(profiles: seq<Profile>)
    ensures NamesWhere(profiles[..0], []) == []
  {
  }

  lemma OneMoreNamed(profiles: seq<Profile>, named: seq<bool>, i: nat, back: bool)
    requires i == |named| < |profiles|
    ensures NamesWhere(profiles[..i + 1], named + [back])
         == NamesWhere(profiles[..i], named) + if back then [profiles[i].name] else []
  {
    assert profiles[..i + 1][..i] == profiles[..i] && (named + [back])[..i] == named;
  }

  lemma OneMoreCounted(counts: seq<nat>, n: nat)
    ensures Total(counts + [n]) == Total(counts) + n
  {
    assert (counts + [n])[..|counts|] == counts;
  }

  lemma AllAnswered(host: Host, s: Node, t: Node, profiles: seq<Profile>, named: seq<bool>, failed: seq<nat>)
    requires RecoveredUpTo(host, s, t, profiles, named, failed, |profiles|)
    ensures |named| == |failed| == |profiles| && Restoring(host, s, t, profiles)
    ensures forall j | 0 <= j < |profiles| ::
              if MayRecover(host, profiles, j) then Answered(host, s, t, OwnDir(host, profiles[j]), named[j], failed[j])
              else !named[j]
  {
    hide Restoring, Answered, MayRecover;
  }

  ghost predicate AllDealtWith(host: Host, s: Node, t: Node, profiles: seq<Profile>, named: seq<bool>)
    requires |named| == |profiles|
  {
    forall j | 0 <= j < |profiles| && !Crowded(host, profiles, j) ::
      var to := Resolved(host.cwd, profiles[j].dir);
      && (named[j] <==> NeedsPuttingBack(host, s, to))
      && (Marked(host, s, to) ==> Clean(t, to) && Lookup(t, to) == Held(host, s, to))
  }

  lemma NoFailuresNoExcuse(host: Host, s: Node, t: Node, profiles: seq<Profile>, named: seq<bool>, failed: seq<nat>)
    requires RecoveredUpTo(host, s, t, profiles, named, failed, |profiles|) && Total(failed) == 0
    ensures AllDealtWith(host, s, t, profiles, named)
  {
    hide Held, Marked, Clean, Restoring, MayRecover, Crowded, Resolved;
    TotalOfNothing(failed);
    forall j | 0 <= j < |profiles| && !Crowded(host, profiles, j)
      ensures var to := Resolved(host.cwd, profiles[j].dir);
              (named[j] <==> NeedsPuttingBack(host, s, to))
              && (Marked(host, s, to) ==> Clean(t, to) && Lookup(t, to) == Held(host, s, to))
    {
      RecoveredUnlessCrowded(host, profiles, j);
      assert Answered(host, s, t, OwnDir(host, profiles[j]), named[j], failed[j]);
    }
  }

  // Naming is exact and no more. Between the rename that puts an original back and the end of
  // the clearing up a call may fail: then the profile has its data, and is not named - not at
  // this startup, nor, having nothing to be put back any more, at the next.
  lemma PutBackYetNeverNamed(host: Host, s: Node, to: Path) returns (t: Node)
    requires s.Dir? && to != [] && NeedsPuttingBack(host, s, to)
    ensures Recovering(host, s, t, to) && Lookup(t, to) == Lookup(s, Displaced(to)) && Exists(t, to)
    ensures !Exists(t, Displaced(to)) && Marked(host, t, to)
    ensures Answered(host, s, t, to, false, 1)
    ensures forall u, named, failed | Answered(host, t, u, to, named, failed) :: !named
  {
    hide Lookup, Beside, Marked, SameOutside, Recovering;
    FootprintApart(to);
    MarkedHasAPlace(host, s, to);
    assert !(Displaced(to) <= Parent(to));
    t := RenamedTree(s, Displaced(to), to);
    OriginalBack(host, s, t, to);
    assert !Clean(t, to) by { RecordIsAFile(host, t, to); }
  }

  lemma RenamedTree(s: Node, from: Path, to: Path) returns (t: Node)
    requires from != [] && to != [] && Exists(s, from) && Apart(from, to)
    requires IsDir(s, Parent(to)) && !(from <= Parent(to))
    ensures Lookup(t, to) == Lookup(s, from) && !Exists(t, from) && SameOutside(s, t, {from, to})
  {
    var moved := Lookup(s, from).value;
    var without := Delete(s, from);
    forall q { LookupDelete(s, from, q); }
    forall q { LookupPut(without, to, moved, q); }
    assert SameOutside(s, without, {from, to});
    t := Put(without, to, moved);
  }

  // `n` at `p`, and nothing else but the way there.
  function Wrapped(n: Node, p: Path): Node {
    if p == [] then n else Dir(map[p[0] := Wrapped(n, p[1..])])
  }

  lemma {:induction false} WrappedLookup(n: Node, p: Path, q: Path)
    ensures Lookup(Wrapped(n, p), p + q) == Lookup(n, q)
    ensures Exists(Wrapped(n, p), q) && !(p <= q) ==> IsDir(Wrapped(n, p), q)
    decreases |p|
  {
    if p == [] {
      assert p + q == q;
    } else {
      assert (p + q)[1..] == p[1..] + q;
      WrappedLookup(n, p[1..], q);
      if q != [] && q[0] == p[0] {
        WrappedLookup(n, p[1..], q[1..]);
        assert p == [p[0]] + p[1..] && q == [q[0]] + q[1..];
      }
    }
  }

  // There is such a directory to begin with, in whatever place, and nothing else need be.
  lemma SomethingToPutBack(host: Host, to: Path) returns (s: Node)
    requires host.codec.Faithful() && to != []
    ensures s.Dir? && NeedsPuttingBack(host, s, to)
    ensures !Exists(s, Staged(to)) && forall q :: Exists(s, q) && !IsDir(s, q) ==> q == Ownership(to)
  {
    hide Beside;
    var record := CopyOwner(OWNER_FORMAT, Id(""), Spelled(to));
    FootprintApart(to);
    var up, aside, mark := Parent(to), Displaced(to)[|to| - 1], Ownership(to)[|to| - 1];
    SiblingsByName(to);
    var leaf := Dir(map[aside := Dir(map[]), mark := File(host.codec.write(record))]);
    s := Wrapped(leaf, up);
    InTheLeaf(leaf, up, aside);
    InTheLeaf(leaf, up, mark);
    InTheLeaf(leaf, up, to[|to| - 1]);
    InTheLeaf(leaf, up, Staged(to)[|to| - 1]);
    assert s.Dir?;
    hide Wrapped;
    OwnRecordCounts(host, s, to);
    hide Lookup;
    forall q | Exists(s, q) && !IsDir(s, q) ensures q == Ownership(to) {
      FilesAreInTheLeaf(leaf, up, q);
      OnlyTheRecord(leaf, aside, mark, q[|up|..]);
    }
  }

  lemma OwnRecordCounts(host: Host, s: Node, to: Path)
    requires host.codec.Faithful()
    requires Lookup(s, Ownership(to)) == Some(File(host.codec.write(CopyOwner(OWNER_FORMAT, Id(""), Spelled(to)))))
    ensures Marked(host, s, to)
  {
    var record := CopyOwner(OWNER_FORMAT, Id(""), Spelled(to));
    assert host.codec.read(host.codec.write(record)) == Some(record);
  }

  lemma InTheLeaf(leaf: Node, up: Path, name: Name)
    requires leaf.Dir?
    ensures Lookup(Wrapped(leaf, up), up + [name])
         == if name in leaf.entries then Some(leaf.entries[name]) else None
  {
    WrappedLookup(leaf, up, [name]);
  }

  lemma FilesAreInTheLeaf(leaf: Node, up: Path, q: Path)
    requires Exists(Wrapped(leaf, up), q) && !IsDir(Wrapped(leaf, up), q)
    ensures up <= q && Exists(leaf, q[|up|..]) && !IsDir(leaf, q[|up|..])
  {
    WrappedLookup(leaf, up, q);
    assert q == up + q[|up|..];
    WrappedLookup(leaf, up, q[|up|..]);
  }

  lemma SiblingsByName(to: Path)
    requires to != []
    ensures |Displaced(to)| == |Ownership(to)| == |to|
    ensures to == Parent(to) + [to[|to| - 1]]
    ensures Displaced(to) == Parent(to) + [Displaced(to)[|to| - 1]]
    ensures Ownership(to) == Parent(to) + [Ownership(to)[|to| - 1]]
    ensures to[|to| - 1] != Displaced(to)[|to| - 1] && to[|to| - 1] != Ownership(to)[|to| - 1]
    ensures |Staged(to)| == |to| && Staged(to) == Parent(to) + [Staged(to)[|to| - 1]]
    ensures Displaced(to)[|to| - 1] != Ownership(to)[|to| - 1]
    ensures Staged(to)[|to| - 1] !in {Displaced(to)[|to| - 1], Ownership(to)[|to| - 1]}
  {
    FootprintApart(to);
  }

  lemma OnlyTheRecord(leaf: Node, aside: Name, mark: Name, q: Path)
    requires leaf.Dir? && leaf.entries.Keys == {aside, mark} && aside != mark
    requires leaf.entries[aside] == Dir(map[]) && leaf.entries[mark].File?
    requires Exists(leaf, q) && !IsDir(leaf, q)
    ensures q == [mark]
  {
    assert q != [] && q[0] in leaf.entries;
    var inner := leaf.entries[q[0]];
    assert Lookup(leaf, q) == Lookup(inner, q[1..]);
    assert q[1..] == [];
    assert q == [q[0]];
  }

  // ---- Who is recovered ----

  // Side by side in one directory, each under a name of its own.
  ghost predicate Neighbours(host: Host, profiles: seq<Profile>, up: Path, names: seq<Name>) {
    && |names| == |profiles|
    && (forall i | 0 <= i < |profiles| :: Resolved(host.cwd, profiles[i].dir) == up + [names[i]])
    && (forall i, j | 0 <= i < |profiles| && 0 <= j < |profiles| && i != j :: Unlike(names[i], names[j]))
  }

  // Such profiles are all recovered, and all that were put back are named.
  lemma NeighboursAreRecovered(host: Host, s: Node, t: Node, profiles: seq<Profile>, named: seq<bool>, up: Path,
                               names: seq<Name>)
    requires Neighbours(host, profiles, up, names)
    requires |named| == |profiles| && AllDealtWith(host, s, t, profiles, named)
    ensures forall j | 0 <= j < |profiles| ::
              && !Crowded(host, profiles, j)
              && (named[j] <==> NeedsPuttingBack(host, s, up + [names[j]]))
              && (Marked(host, s, up + [names[j]]) ==>
                    Clean(t, up + [names[j]]) && Lookup(t, up + [names[j]]) == Held(host, s, up + [names[j]]))
  {
    hide Unlike, Resolved, Marked, Clean, Held, NeedsPuttingBack, Footprint, Overlaps;
    forall j | 0 <= j < |profiles| ensures !Crowded(host, profiles, j) {
      forall i, n | 0 <= i < |profiles| && n in Footprint(up + [names[j]]) && profiles[i].id != profiles[j].id
        ensures !Overlaps(n, up + [names[i]])
      {
        NeighboursApart(up, names[j], names[i]);
        OverlapsIsCommonDescendant(n, up + [names[i]]);
      }
    }
  }

  // One that is passed over keeps its own directory, but one of its other three names may
  // be, or be above, the directory of another that is recovered - and that may come back.
  // That is the only way any of them changes.
  ghost predicate ANeighbourIsWithin(host: Host, profiles: seq<Profile>, n: Path) {
    exists k | 0 <= k < |profiles| :: !Crowded(host, profiles, k) && n <= Resolved(host.cwd, profiles[k].dir)
  }

  ghost predicate NeverChanges(host: Host, profiles: seq<Profile>, n: Path) {
    forall s, t, named | |named| == |profiles| && Restoring(host, s, t, profiles)
        && AllDealtWith(host, s, t, profiles, named) ::
      Lookup(t, n) == Lookup(s, n)
  }

  lemma PassedOverNamesStay(host: Host, profiles: seq<Profile>, j: nat, n: Path)
    requires host.codec.Faithful() && DistinctIds(profiles) && Rooted(host, profiles)
    requires j < |profiles| && Crowded(host, profiles, j) && n in Footprint(Resolved(host.cwd, profiles[j].dir))
    ensures NeverChanges(host, profiles, n) <==> !ANeighbourIsWithin(host, profiles, n)
  {
    hide Crowded, Restoring, AllDealtWith;
    if ANeighbourIsWithin(host, profiles, n) {
      var k :| 0 <= k < |profiles| && !Crowded(host, profiles, k) && n <= Resolved(host.cwd, profiles[k].dir);
      ghost var s, t, named := ANameChanges(host, profiles, k, n);
    } else {
      forall s, t | Restoring(host, s, t, profiles) ensures Lookup(t, n) == Lookup(s, n) {
        ANameStays(host, s, t, profiles, j, n);
      }
    }
  }

  lemma ANameStays(host: Host, s: Node, t: Node, profiles: seq<Profile>, j: nat, n: Path)
    requires DistinctIds(profiles) && Rooted(host, profiles) && Restoring(host, s, t, profiles)
    requires j < |profiles| && Crowded(host, profiles, j) && n in Footprint(Resolved(host.cwd, profiles[j].dir))
    requires !ANeighbourIsWithin(host, profiles, n)
    ensures Lookup(t, n) == Lookup(s, n)
  {
    hide Crowded, Footprint, Resolved;
    var own := OwnDir(host, profiles[j]);
    RecoveredUnlessCrowded(host, profiles, j);
    forall p | p in RecoveryRegion(host, profiles) ensures Apart(p, n) {
      var i :| 0 <= i < |profiles| && MayRecover(host, profiles, i) && p in Footprint(OwnDir(host, profiles[i]));
      RecoveredUnlessCrowded(host, profiles, i);
      assert profiles[i].id != profiles[j].id;
      assert !(n <= OwnDir(host, profiles[i]));
      OffUnlessAbove(OwnDir(host, profiles[i]), own, p, n);
    }
    assert Clear(RecoveryRegion(host, profiles), n);
  }

  // Of two footprints the first of which is clear of the second's own name, a name of the
  // second is off all of the first unless it is at or above its own name.
  lemma OffUnlessAbove(a: Path, b: Path, p: Path, n: Path)
    requires a != [] && b != [] && Clear(Footprint(a), b) && p in Footprint(a) && n in Footprint(b) && !(n <= a)
    ensures Apart(p, n)
  {
    hide Beside;
    FootprintApart(a);
    FootprintApart(b);
    assert a in Footprint(a) && Apart(p, b);
    if p <= n {
      if |p| < |n| {
        AboveASibling(p, n, b);
      } else {
        assert p == n;
        FootprintsShareNothing(a, b, p);
      }
      assert false;
    }
    if n <= p {
      AboveASibling(n, p, a);
      assert false;
    }
  }

  lemma AllPutBack(host: Host, s: Node, u: Node, t: Node, to: Path)
    requires s.Dir? && to != [] && NeedsPuttingBack(host, s, to) && !Exists(s, Staged(to))
    requires Lookup(u, to) == Lookup(s, Displaced(to)) && !Exists(u, Displaced(to))
    requires SameOutside(s, u, {Displaced(to), to}) && t == Delete(u, Ownership(to))
    ensures Recovering(host, s, t, to) && Clean(t, to) && Lookup(t, to) == Held(host, s, to) && Exists(t, to)
  {
    hide Beside, Lookup;
    FootprintApart(to);
    OriginalBack(host, s, u, to);
    var region := {Displaced(to), to};
    assert Clear(region, Staged(to));
    forall q { LookupDelete(u, Ownership(to), q); }
    assert SameOutside(u, t, {Ownership(to)});
    RecordRemoved(host, s, u, t, to);
  }

  lemma OnlyOneRestored(host: Host, s: Node, t: Node, profiles: seq<Profile>, k: nat)
    requires DistinctIds(profiles) && Rooted(host, profiles) && k < |profiles| && !Crowded(host, profiles, k)
    requires Recovering(host, s, t, OwnDir(host, profiles[k])) && Marked(host, s, OwnDir(host, profiles[k]))
    ensures Restoring(host, s, t, profiles)
  {
    hide Crowded, OwnDir, SameOutside, Footprint, Marked, Held, Clean;
    RecoveredUnlessCrowded(host, profiles, k);
    var to := OwnDir(host, profiles[k]);
    forall p | p in Footprint(to) ensures exists o | o in RecoveryRegion(host, profiles) :: o <= p {
      assert p in RecoveryRegion(host, profiles) && p <= p;
    }
    SameOutsideWider(s, t, Footprint(to), RecoveryRegion(host, profiles));
    forall j | 0 <= j < |profiles| && MayRecover(host, profiles, j)
      ensures Kept(host, s, t, OwnDir(host, profiles[j]))
    {
      if j != k {
        RecoveriesApart(host, s, t, profiles, k, j);
        SameFourMeans(host, s, t, OwnDir(host, profiles[j]));
      } else {
        RecoveringKeeps(host, s, t, to);
      }
    }
  }

  lemma RecoveringKeeps(host: Host, s: Node, t: Node, to: Path)
    requires Recovering(host, s, t, to) && Marked(host, s, to)
    ensures Kept(host, s, t, to)
  {
  }

  lemma OnlyOneNamed(host: Host, s: Node, t: Node, profiles: seq<Profile>, k: nat, named: seq<bool>)
    requires DistinctIds(profiles) && Rooted(host, profiles) && k < |profiles| && !Crowded(host, profiles, k)
    requires |named| == |profiles| && forall j | 0 <= j < |profiles| :: named[j] == (j == k)
    requires var to := OwnDir(host, profiles[k]);
             && NeedsPuttingBack(host, s, to) && Clean(t, to) && Lookup(t, to) == Held(host, s, to)
             && forall q :: Exists(s, q) && !IsDir(s, q) ==> q == Ownership(to)
    ensures AllDealtWith(host, s, t, profiles, named)
  {
    hide Crowded, Resolved, Beside, Lookup, Held, Clean;
    forall j | 0 <= j < |profiles| && j != k && !Crowded(host, profiles, j)
      ensures !Marked(host, s, OwnDir(host, profiles[j]))
    {
      RecoveredUnlessCrowded(host, profiles, j);
      RecoveredUnlessCrowded(host, profiles, k);
      FootprintsStayApart(OwnDir(host, profiles[k]), OwnDir(host, profiles[j]));
      assert Apart(Ownership(OwnDir(host, profiles[k])), Ownership(OwnDir(host, profiles[j])));
      if Marked(host, s, OwnDir(host, profiles[j])) {
        RecordIsAFile(host, s, OwnDir(host, profiles[j]));
      }
    }
  }

  lemma ANameChanges(host: Host, profiles: seq<Profile>, k: nat, n: Path)
    returns (s: Node, t: Node, named: seq<bool>)
    requires host.codec.Faithful() && DistinctIds(profiles) && Rooted(host, profiles)
    requires k < |profiles| && !Crowded(host, profiles, k) && n <= Resolved(host.cwd, profiles[k].dir)
    ensures |named| == |profiles| && Restoring(host, s, t, profiles) && AllDealtWith(host, s, t, profiles, named)
    ensures Lookup(t, n) != Lookup(s, n)
  {
    hide Crowded, Lookup, Beside, Marked, SameOutside, Resolved;
    var to := OwnDir(host, profiles[k]);
    FootprintApart(to);
    s := SomethingToPutBack(host, to);
    AncestorsAreDirectories(s, Parent(to), Displaced(to));
    var u := RenamedTree(s, Displaced(to), to);
    t := Delete(u, Ownership(to));
    named := seq(|profiles|, i => i == k);
    AllPutBack(host, s, u, t, to);
    OnlyOneRestored(host, s, t, profiles, k);
    OnlyOneNamed(host, s, t, profiles, k, named);
    LookupBelow(s, n, to[|n|..]);
    LookupBelow(t, n, to[|n|..]);
    assert n + to[|n|..] == to;
  }

  ghost function NamesWhere(profiles: seq<Profile>, restored: seq<bool>): seq<string>
    requires |profiles| == |restored|
  {
    if profiles == [] then []
    else
      var n := |profiles| - 1;
      NamesWhere(profiles[..n], restored[..n]) + (if restored[n] then [profiles[n].name] else [])
  }

  function WithNames(profiles: seq<Profile>, named: seq<bool>): seq<(string, bool)>
    requires |profiles| == |named|
  {
    seq(|profiles|, i requires 0 <= i < |profiles| => (profiles[i].name, named[i]))
  }

  lemma {:induction false} NamedInOrder(profiles: seq<Profile>, named: seq<bool>)
    requires |profiles| == |named|
    ensures Selects(WithNames(profiles, named), (it: (string, bool)) => it.1, (it: (string, bool)) => it.0,
                    NamesWhere(profiles, named))
  {
    if profiles == [] {
      SelectsNothing((it: (string, bool)) => it.1, (it: (string, bool)) => it.0);
    } else {
      hide Selects;
      var n := |profiles| - 1;
      NamedInOrder(profiles[..n], named[..n]);
      assert WithNames(profiles, named) == WithNames(profiles[..n], named[..n]) + [(profiles[n].name, named[n])];
      SelectsOneMore(WithNames(profiles[..n], named[..n]), (profiles[n].name, named[n]),
                     (it: (string, bool)) => it.1, (it: (string, bool)) => it.0,
                     NamesWhere(profiles[..n], named[..n]));
    }
  }

  ghost predicate RecoveredUpTo(host: Host, s: Node, t: Node, profiles: seq<Profile>, named: seq<bool>,
                                failed: seq<nat>, i: nat) {
    && i <= |profiles| && |named| == |failed| == i
    && Restoring(host, s, t, profiles)
    && (forall j | 0 <= j < i ::
          if MayRecover(host, profiles, j) then Answered(host, s, t, OwnDir(host, profiles[j]), named[j], failed[j])
          else !named[j])
    && (forall j | i <= j < |profiles| && MayRecover(host, profiles, j) :: SameFour(s, t, OwnDir(host, profiles[j])))
  }

  lemma RestoringStarts(host: Host, s: Node, profiles: seq<Profile>)
    ensures RecoveredUpTo(host, s, s, profiles, [], [], 0)
  {
  }

  method RecoverOne(host: Host, disk: Disk, ghost start: Node, profiles: seq<Profile>, resolved: seq<Path>,
                    ghost named: seq<bool>, ghost failed: seq<nat>, i: nat)
    returns (back: bool)
    requires disk.Valid() && DistinctIds(profiles) && Rooted(host, profiles) && i < |profiles|
    requires |resolved| == |profiles| && forall j | 0 <= j < |profiles| :: resolved[j] == OwnDir(host, profiles[j])
    requires RecoveredUpTo(host, start, disk.root, profiles, named, failed, i)
    modifies disk
    ensures disk.Valid() && old(disk.passed) <= disk.passed && old(disk.failures) <= disk.failures
    ensures forall k | |old(disk.passed)| <= k < |disk.passed| :: Restoring(host, start, disk.passed[k], profiles)
    ensures RecoveredUpTo(host, start, disk.root, profiles, named + [back],
                          failed + [disk.failures - old(disk.failures)], i + 1)
  {
    hide RecoveredUpTo, Restoring, SameOutside, Answered;
    if exists j | 0 <= j < |profiles| ::
        profiles[j].id != profiles[i].id && exists p | p in Footprint(resolved[i]) :: Overlaps(p, resolved[j]) {
      PassedOver(host, start, disk.root, profiles, named, failed, i, 0);
      return false;
    }
    assert MayRecover(host, profiles, i);
    ghost var before := disk.root;
    var to := resolved[i];
    var r := Recover(host, disk, to);
    forall k | |old(disk.passed)| <= k < |disk.passed|
      ensures Restoring(host, start, disk.passed[k], profiles)
    {
      RecoveringOne(host, start, before, disk.passed[k], profiles, named, failed, i);
    }
    back := r.Ok? && r.value;
    if Marked(host, before, to) {
      RecoveringOne(host, start, before, disk.root, profiles, named, failed, i);
      AnsweredNow(host, start, before, disk.root, profiles, named, failed, i, back, disk.failures - old(disk.failures));
    } else {
      NothingToRecover(host, start, before, profiles, named, failed, i, disk.failures - old(disk.failures));
    }
  }

  lemma PassedOver(host: Host, s: Node, t: Node, profiles: seq<Profile>, named: seq<bool>, failed: seq<nat>, i: nat,
                   spent: nat)
    requires i < |profiles| && !MayRecover(host, profiles, i) && RecoveredUpTo(host, s, t, profiles, named, failed, i)
    ensures RecoveredUpTo(host, s, t, profiles, named + [false], failed + [spent], i + 1)
  {
  }

  lemma NothingToRecover(host: Host, s: Node, t: Node, profiles: seq<Profile>, named: seq<bool>, failed: seq<nat>,
                         i: nat, spent: nat)
    requires i < |profiles| && MayRecover(host, profiles, i) && RecoveredUpTo(host, s, t, profiles, named, failed, i)
    requires !Marked(host, t, OwnDir(host, profiles[i]))
    ensures RecoveredUpTo(host, s, t, profiles, named + [false], failed + [spent], i + 1)
  {
  }

  // Profiles that may be recovered have footprints of their own.
  lemma RecoveriesApart(host: Host, s: Node, t: Node, profiles: seq<Profile>, i: nat, j: nat)
    requires DistinctIds(profiles) && Rooted(host, profiles)
    requires i < |profiles| && j < |profiles| && i != j
    requires MayRecover(host, profiles, i) && MayRecover(host, profiles, j)
    requires SameOutside(s, t, Footprint(OwnDir(host, profiles[i])))
    ensures SameFour(s, t, OwnDir(host, profiles[j]))
  {
    var a, b := OwnDir(host, profiles[i]), OwnDir(host, profiles[j]);
    assert profiles[i].id != profiles[j].id;
    FootprintsStayApart(a, b);
    forall q | q in Footprint(b) ensures Lookup(t, q) == Lookup(s, q) {
      assert Clear(Footprint(a), q);
    }
  }

  lemma RecoveringOne(host: Host, start: Node, s: Node, t: Node, profiles: seq<Profile>, named: seq<bool>,
                      failed: seq<nat>, i: nat)
    requires DistinctIds(profiles) && Rooted(host, profiles)
    requires i < |profiles| && MayRecover(host, profiles, i)
             && RecoveredUpTo(host, start, s, profiles, named, failed, i)
    requires Recovering(host, s, t, OwnDir(host, profiles[i])) && Marked(host, s, OwnDir(host, profiles[i]))
    ensures Restoring(host, start, t, profiles)
  {
    var to := OwnDir(host, profiles[i]);
    forall p | p in Footprint(to) ensures exists o | o in RecoveryRegion(host, profiles) :: o <= p {
      assert p in RecoveryRegion(host, profiles) && p <= p;
    }
    SameOutsideWider(s, t, Footprint(to), RecoveryRegion(host, profiles));
    SameOutsideTransitive(start, s, t, RecoveryRegion(host, profiles));
    forall j | 0 <= j < |profiles| && MayRecover(host, profiles, j)
      ensures Kept(host, start, t, OwnDir(host, profiles[j]))
    {
      if j != i {
        RecoveriesApart(host, s, t, profiles, i, j);
        SameFourMeans(host, s, t, OwnDir(host, profiles[j]));
      }
      assert Kept(host, start, s, OwnDir(host, profiles[j]));
    }
  }

  lemma AnsweredNow(host: Host, start: Node, s: Node, t: Node, profiles: seq<Profile>,
                    named: seq<bool>, failed: seq<nat>, i: nat, back: bool, spent: nat)
    requires DistinctIds(profiles) && Rooted(host, profiles)
    requires i < |profiles| && MayRecover(host, profiles, i)
             && RecoveredUpTo(host, start, s, profiles, named, failed, i)
    requires Recovering(host, s, t, OwnDir(host, profiles[i])) && Restoring(host, start, t, profiles)
    requires DealtWith(host, s, t, OwnDir(host, profiles[i]), back, spent)
    ensures RecoveredUpTo(host, start, t, profiles, named + [back], failed + [spent], i + 1)
  {
    hide SameOutside, Restoring, Answered, SameFour, MayRecover, DealtWith, OwnDir;
    OwnAnswer(host, start, s, t, OwnDir(host, profiles[i]), back, spent);
    OthersStand(host, start, s, t, profiles, named, failed, i);
    assert (named + [back])[i] == back && (failed + [spent])[i] == spent;
    assert forall j | 0 <= j < i :: (named + [back])[j] == named[j] && (failed + [spent])[j] == failed[j];
  }

  // What one recovery comes to, where there is a record.
  ghost predicate DealtWith(host: Host, s: Node, t: Node, to: Path, back: bool, spent: nat) {
    && Marked(host, s, to)
    && (back <==> NeedsPuttingBack(host, s, to) && Clean(t, to))
    && if Clean(t, to) then Lookup(t, to) == Held(host, s, to) else Marked(host, t, to) && spent > 0
  }

  lemma OwnAnswer(host: Host, start: Node, s: Node, t: Node, to: Path, back: bool, spent: nat)
    requires SameFour(start, s, to) && DealtWith(host, s, t, to, back, spent)
    ensures Answered(host, start, t, to, back, spent)
  {
    SameFourMeans(host, start, s, to);
  }

  lemma OthersStand(host: Host, start: Node, s: Node, t: Node, profiles: seq<Profile>, named: seq<bool>,
                    failed: seq<nat>, i: nat)
    requires DistinctIds(profiles) && Rooted(host, profiles)
    requires i < |profiles| && MayRecover(host, profiles, i)
             && RecoveredUpTo(host, start, s, profiles, named, failed, i)
    requires SameOutside(s, t, Footprint(OwnDir(host, profiles[i])))
    ensures forall j | 0 <= j < i ::
              if MayRecover(host, profiles, j)
                  then Answered(host, start, t, OwnDir(host, profiles[j]), named[j], failed[j])
              else !named[j]
    ensures forall j | i < j < |profiles| && MayRecover(host, profiles, j) ::
              SameFour(start, t, OwnDir(host, profiles[j]))
  {
    forall j | 0 <= j < |profiles| && j != i && MayRecover(host, profiles, j)
      ensures SameFour(s, t, OwnDir(host, profiles[j]))
    {
      RecoveriesApart(host, s, t, profiles, i, j);
    }
    hide SameOutside, MayRecover;
    forall j | 0 <= j < i && MayRecover(host, profiles, j)
      ensures Answered(host, start, t, OwnDir(host, profiles[j]), named[j], failed[j])
    {
      var other := OwnDir(host, profiles[j]);
      SameFourMeans(host, s, t, other);
      assert other in Footprint(other);
      assert Answered(host, start, s, other, named[j], failed[j]);
    }
    forall j | i < j < |profiles| && MayRecover(host, profiles, j)
      ensures SameFour(start, t, OwnDir(host, profiles[j]))
    {
      assert SameFour(start, s, OwnDir(host, profiles[j]));
    }
  }

  // ---- A recovery that is itself cut short ----

  // Stopped any number of times and then let finish, it ends where an undisturbed one does.
  // The last attempt succeeds unless a call in it fails - whatever became of the earlier
  // ones - and answers whether the original was still aside when it began; and then there
  // is nothing left for another to do.
  method RecoverAtLast(host: Host, disk: Disk, to: Path, crashes: nat)
    returns (r: Result<bool, SwapError>, again: Result<bool, SwapError>, ghost last: Node)
    requires disk.Valid() && to != [] && Marked(host, disk.root, to)
    modifies disk
    ensures disk.Valid() && old(disk.passed) <= disk.passed
    ensures forall i | |old(disk.passed)| <= i < |disk.passed| :: Recovering(host, old(disk.root), disk.passed[i], to)
    ensures last in disk.passed && Recovering(host, old(disk.root), last, to)
            && (crashes == 0 ==> last == old(disk.root))
    ensures r.Ok? ==> Clean(disk.root, to) && Lookup(disk.root, to) == old(Held(host, disk.root, to))
    ensures r.Ok? ==> r.value == NeedsPuttingBack(host, last, to) && again == Ok(false)
    ensures r.Err? ==> r == again && Marked(host, disk.root, to)
    ensures r.Err? ==> disk.failures > if crashes == 0 then old(disk.failures) else 0
  {
    hide SameOutside, Recovering, Held, Marked, Clean, NeedsPuttingBack;
    ghost var start := disk.root;
    RecoveringNothing(host, start, to);
    for n := 0 to crashes
      invariant disk.Valid() && old(disk.passed) <= disk.passed
      invariant Recovering(host, start, disk.root, to)
      invariant forall i | |old(disk.passed)| <= i < |disk.passed| :: Recovering(host, start, disk.passed[i], to)
      invariant if n == 0 then disk.root == start && disk.failures == old(disk.failures) else disk.failures == 0
    {
      var since := |disk.passed| - 1;
      var _ := RecoverFurther(host, disk, start, to);
      disk.Crash(since);
    }
    last := disk.root;
    r := RecoverFurther(host, disk, start, to);
    if r.Err? {
      again := r;
      return;
    }
    CleanIsUnmarked(host, disk.root, to);
    again := Recover(host, disk, to);
  }

  lemma CleanIsUnmarked(host: Host, t: Node, to: Path)
    requires Clean(t, to)
    ensures !Marked(host, t, to)
  {
  }

  method RecoverFurther(host: Host, disk: Disk, ghost start: Node, to: Path) returns (r: Result<bool, SwapError>)
    requires disk.Valid() && to != [] && Recovering(host, start, disk.root, to)
    modifies disk
    ensures disk.Valid() && old(disk.passed) <= disk.passed && old(disk.failures) <= disk.failures
    ensures forall i | |old(disk.passed)| <= i < |disk.passed| :: Recovering(host, start, disk.passed[i], to)
    ensures Recovering(host, start, disk.root, to)
    ensures r.Ok? ==> Clean(disk.root, to) && Lookup(disk.root, to) == Held(host, start, to)
    ensures r.Ok? ==> r.value == old(NeedsPuttingBack(host, disk.root, to))
    ensures r.Err? ==> Marked(host, disk.root, to) && disk.failures > old(disk.failures)
  {
    ghost var s := disk.root;
    r := Recover(host, disk, to);
    forall t | Recovering(host, s, t, to) ensures Recovering(host, start, t, to) {
      SameOutsideTransitive(start, s, t, Footprint(to));
    }
  }

  // ---- Histories ----

  datatype Event =
    | Attempt(ordered: seq<Profile>, running: set<ProfileId>, directory: RawPath, direction: Direction)
    | Startup(profiles: seq<Profile>)

  predicate ApartOrSame(a: Path, b: Path) {
    a == b || forall p, q | p in Footprint(a) && q in Footprint(b) :: Apart(p, q)
  }

  // Every destination the event could write is this one or has nothing to do with it.
  predicate Tidy(host: Host, to: Path, event: Event) {
    match event
    case Attempt(ordered, _, directory, direction) =>
      forall p | p in ordered :: ApartOrSame(CopyOf(host, directory, direction, p).to, to)
    case Startup(profiles) =>
      && DistinctIds(profiles) && Rooted(host, profiles)
      && forall p | p in profiles :: ApartOrSame(OwnDir(host, p), to)
  }

  // What the event would put at this destination, were it to start from `t`: the whole
  // of a source directory.
  predicate Offers(host: Host, t: Node, to: Path, event: Event, n: Node) {
    && event.Attempt?
    && exists p | p in event.ordered ::
      var c := CopyOf(host, event.directory, event.direction, p);
      c.to == to && IsDir(t, c.from) && Lookup(t, c.from) == Some(n)
  }

  ghost predicate StandsFor(host: Host, s: Node, t: Node, to: Path, event: Event) {
    && (Held(host, t, to) == Held(host, s, to)
        || (Held(host, t, to).Some? && Offers(host, s, to, event, Held(host, t, to).value)))
    && (Settled(host, s, to) ==> Settled(host, t, to))
    && (Unowned(host, s, to) ==> SameFour(s, t, to))
  }

  // What the event is for, done: every copy made, or everything of ours dealt with.
  ghost predicate Finished(host: Host, s: Node, t: Node, event: Event) {
    match event
    case Attempt(ordered, running, directory, direction) =>
      var copies := CopiesOf(host, s, ordered, directory, direction);
      RunningNames(ordered, running) == [] && Acceptable(host, copies, ordered) && Unhindered(host, s, copies) ==>
        Through(host, s, t, copies, |copies|)
    case Startup(profiles) => NothingLeftToRecover(host, s, t, profiles)
  }

  ghost predicate NothingLeftToRecover(host: Host, s: Node, t: Node, profiles: seq<Profile>) {
    forall j | 0 <= j < |profiles| && !Crowded(host, profiles, j) && Marked(host, s, OwnDir(host, profiles[j])) ::
      var to := OwnDir(host, profiles[j]);
      Clean(t, to) && Lookup(t, to) == Held(host, s, to)
  }

  method Happen(host: Host, disk: Disk, to: Path, event: Event)
    requires disk.Valid() && host.codec.Faithful() && to != [] && Tidy(host, to, event)
    modifies disk
    ensures disk.Valid() && old(disk.passed) <= disk.passed && old(disk.failures) <= disk.failures
    ensures forall i | |old(disk.passed)| <= i < |disk.passed| ::
              StandsFor(host, old(disk.root), disk.passed[i], to, event)
    ensures disk.failures == old(disk.failures) ==> Finished(host, old(disk.root), disk.root, event)
  {
    hide StandsFor, Restoring, Acceptable, Through, Unhindered, MidwaySomewhere;
    ghost var start := disk.root;
    match event {
      case Attempt(ordered, running, directory, direction) =>
        ghost var copies, reached;
        var r;
        r, copies, reached := Transfer(host, disk, ordered, running, directory, direction);
        forall i | |old(disk.passed)| <= i < |disk.passed|
          ensures StandsFor(host, start, disk.passed[i], to, event)
        {
          RunStandsFor(host, start, disk.passed[i], to, event, copies);
        }
      case Startup(profiles) =>
        ghost var named, failed;
        var putBack;
        putBack, named, failed := RecoverUserDataDirs(host, disk, profiles);
        forall i | |old(disk.passed)| <= i < |disk.passed|
          ensures StandsFor(host, start, disk.passed[i], to, event)
        {
          StartupStandsFor(host, start, disk.passed[i], to, event);
        }
    }
  }

  lemma RunStandsFor(host: Host, s: Node, t: Node, to: Path, event: Event, copies: seq<Copy>)
    requires event.Attempt? && Tidy(host, to, event)
    requires copies == CopiesOf(host, s, event.ordered, event.directory, event.direction)
    requires MidwaySomewhere(host, s, t, copies)
    ensures StandsFor(host, s, t, to, event)
  {
    CopiesComeFromProfiles(host, s, event.ordered, event.directory, event.direction);
    EveryDestinationIsOldOrNew(host, s, t, copies);
    if exists c | c in copies :: c.to == to {
      var c :| c in copies && c.to == to;
      var p :| p in event.ordered && c == CopyOf(host, event.directory, event.direction, p);
    } else {
      forall q | q in Footprint(to) ensures Lookup(t, q) == Lookup(s, q) {
        forall p | p in AllFootprints(copies) ensures Apart(p, q) {
          var c :| c in copies && p in Footprint(c.to);
          var from :| from in event.ordered && c == CopyOf(host, event.directory, event.direction, from);
          assert ApartOrSame(c.to, to);
        }
        assert Clear(AllFootprints(copies), q);
      }
      SameFourMeans(host, s, t, to);
    }
  }

  lemma StartupStandsFor(host: Host, s: Node, t: Node, to: Path, event: Event)
    requires event.Startup? && Tidy(host, to, event) && Restoring(host, s, t, event.profiles)
    ensures StandsFor(host, s, t, to, event)
  {
    var profiles := event.profiles;
    if exists i | 0 <= i < |profiles| :: MayRecover(host, profiles, i) && OwnDir(host, profiles[i]) == to {
      var i :| 0 <= i < |profiles| && MayRecover(host, profiles, i) && OwnDir(host, profiles[i]) == to;
      assert Kept(host, s, t, OwnDir(host, profiles[i]));
    } else {
      forall q | q in Footprint(to) ensures Lookup(t, q) == Lookup(s, q) {
        forall p | p in RecoveryRegion(host, profiles) ensures Apart(p, q) {
          var i :| 0 <= i < |profiles| && MayRecover(host, profiles, i) && p in Footprint(OwnDir(host, profiles[i]));
          assert profiles[i] in profiles && ApartOrSame(OwnDir(host, profiles[i]), to);
        }
        assert Clear(RecoveryRegion(host, profiles), q);
      }
      SameFourMeans(host, s, t, to);
    }
  }

  // ---- Any history ----

  // `passed[i]` accounted for, of a history whose events began at `marks`: the destination
  // stands for what it stood for at first, or for the whole of what the source of a run begun
  // by then held as that run began. Leftovers there that are not ours are as they were.
  ghost predicate Explained(host: Host, passed: seq<Node>, marks: seq<nat>, to: Path, events: seq<Event>, i: nat) {
    && marks != [] && marks[0] < |passed| && i < |passed|
    && var first, t := passed[marks[0]], passed[i];
       && (Held(host, t, to) == Held(host, first, to)
           || exists k | 0 <= k < |marks| && k < |events| :: BegunBy(host, passed, marks[k], to, events[k], i))
       && (Settled(host, first, to) ==> Settled(host, t, to))
       && (Unowned(host, first, to) ==> SameFour(first, t, to))
  }

  ghost predicate BegunBy(host: Host, passed: seq<Node>, mark: nat, to: Path, event: Event, i: nat) {
    && mark < i < |passed|
    && Held(host, passed[i], to).Some?
    && Offers(host, passed[mark], to, event, Held(host, passed[i], to).value)
  }

  // Where events begin and end: each where the one before it ended.
  ghost predicate Marks(marks: seq<nat>, from: nat, upTo: nat) {
    && marks != [] && marks[0] == from && marks[|marks| - 1] == upTo
    && forall j, k | 0 <= j <= k < |marks| :: marks[j] <= marks[k]
  }

  // Whatever the history, and wherever the events of it that are cut short are cut short,
  // every state it passes through is accounted for. Where nothing is cut short and no call
  // fails, every event does what it is for.
  method History(host: Host, disk: Disk, to: Path, events: seq<Event>, cut: seq<bool>) returns (ghost marks: seq<nat>)
    requires disk.Valid() && host.codec.Faithful() && to != [] && |cut| == |events|
    requires forall k | 0 <= k < |events| :: Tidy(host, to, events[k])
    modifies disk
    ensures disk.Valid() && old(disk.passed) <= disk.passed
    ensures |marks| == |events| + 1 && Marks(marks, |old(disk.passed)| - 1, |disk.passed| - 1)
    ensures forall i | |old(disk.passed)| - 1 <= i < |disk.passed| :: Explained(host, disk.passed, marks, to, events, i)
    ensures true !in cut && disk.failures == old(disk.failures) ==>
              forall k | 0 <= k < |events| ::
                  Finished(host, disk.passed[marks[k]], disk.passed[marks[k + 1]], events[k])
  {
    hide Explained, Finished, Tidy;
    marks := [|disk.passed| - 1];
    FirstIsExplained(host, disk.passed, to, events);
    for k := 0 to |events|
      invariant disk.Valid() && old(disk.passed) <= disk.passed
      invariant |marks| == k + 1 && Marks(marks, |old(disk.passed)| - 1, |disk.passed| - 1)
      invariant forall i | |old(disk.passed)| - 1 <= i < |disk.passed| ::
                Explained(host, disk.passed, marks, to, events, i)
      invariant true !in cut[..k] ==> old(disk.failures) <= disk.failures
      invariant true !in cut[..k] && disk.failures == old(disk.failures) ==>
                  forall j | 0 <= j < k :: Finished(host, disk.passed[marks[j]], disk.passed[marks[j + 1]], events[j])
    {
      assert cut[..k + 1] == cut[..k] + [cut[k]];
      marks := OneEvent(host, disk, to, events, k, cut[k], marks, |old(disk.passed)| - 1);
    }
    assert cut[..|events|] == cut;
  }

  lemma FirstIsExplained(host: Host, passed: seq<Node>, to: Path, events: seq<Event>)
    requires passed != []
    ensures Explained(host, passed, [|passed| - 1], to, events, |passed| - 1)
  {
  }

  // One event, to its end or to a crash somewhere inside it.
  method OneEvent(host: Host, disk: Disk, to: Path, events: seq<Event>, k: nat, cut: bool, ghost marks: seq<nat>,
                  ghost from: nat)
    returns (ghost marks': seq<nat>)
    requires disk.Valid() && host.codec.Faithful() && to != []
    requires |marks| == k + 1 && k < |events| && Tidy(host, to, events[k])
    requires Marks(marks, from, |disk.passed| - 1)
    requires forall i | from <= i < |disk.passed| :: Explained(host, disk.passed, marks, to, events, i)
    modifies disk
    ensures disk.Valid() && old(disk.passed) <= disk.passed
    ensures marks' == marks + [|disk.passed| - 1] && Marks(marks', from, |disk.passed| - 1)
    ensures forall i | from <= i < |disk.passed| :: Explained(host, disk.passed, marks', to, events, i)
    ensures !cut ==> old(disk.failures) <= disk.failures
    ensures !cut && disk.failures == old(disk.failures) ==>
              Finished(host, disk.passed[marks'[k]], disk.passed[marks'[k + 1]], events[k])
  {
    hide Explained, Finished, Tidy, StandsFor;
    ghost var before := disk.passed;
    var since := |disk.passed| - 1;
    Happen(host, disk, to, events[k]);
    if cut {
      disk.Crash(since);
    }
    marks' := marks + [|disk.passed| - 1];
    forall i | from <= i < |disk.passed|
      ensures Explained(host, disk.passed, marks', to, events, i)
    {
      if i < |before| {
        StillExplained(host, before, disk.passed, marks, marks', to, events, i);
      } else {
        NewlyExplained(host, before, disk.passed, marks, marks', to, events, i);
      }
    }
  }

  lemma StillExplained(host: Host, before: seq<Node>, passed: seq<Node>, marks: seq<nat>, marks': seq<nat>,
                       to: Path, events: seq<Event>, i: nat)
    requires before <= passed && marks <= marks' && Explained(host, before, marks, to, events, i)
    ensures Explained(host, passed, marks', to, events, i)
  {
    var t := before[i];
    if Held(host, t, to) != Held(host, before[marks[0]], to) {
      var k :| 0 <= k < |marks| && k < |events| && BegunBy(host, before, marks[k], to, events[k], i);
      assert BegunBy(host, passed, marks'[k], to, events[k], i);
    }
  }

  lemma NewlyExplained(host: Host, before: seq<Node>, passed: seq<Node>, marks: seq<nat>, marks': seq<nat>,
                       to: Path, events: seq<Event>, i: nat)
    requires before <= passed && marks <= marks' && 0 < |marks| <= |events|
    requires marks[|marks| - 1] == |before| - 1 && Explained(host, before, marks, to, events, |before| - 1)
    requires |before| <= i < |passed|
    requires StandsFor(host, before[|before| - 1], passed[i], to, events[|marks| - 1])
    ensures Explained(host, passed, marks', to, events, i)
  {
    var k, s, t := |marks| - 1, before[|before| - 1], passed[i];
    if Held(host, t, to) != Held(host, s, to) {
      assert BegunBy(host, passed, marks'[k], to, events[k], i);
    } else if Held(host, s, to) != Held(host, before[marks[0]], to) {
      var j :| 0 <= j < |marks| && j < |events| && BegunBy(host, before, marks[j], to, events[j], |before| - 1);
      assert BegunBy(host, passed, marks'[j], to, events[j], i);
    }
    if Unowned(host, before[marks[0]], to) {
      SameFourMeans(host, before[marks[0]], s, to);
    }
  }
}
