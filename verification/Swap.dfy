// Putting a finished copy in place of a directory, and making sense of what a run
// that was cut short left behind.
//
// The destination's data is in one of two places: under its own name, or - between
// the two renames of a swap - under `.old`, and then only if the ownership record says
// the swap is ours. `Held` is that data. Everything here is said in terms of it: no
// step of a swap or of a recovery changes it, except the one rename that completes a
// copy.
module Swap {
  import opened Values
  import opened Wrappers
  import opened Trees
  import opened Disks
  import opened Copying
  import opened Paths

  const OWNER_FORMAT := "fp-browser-copy-v1"

  datatype CopyOwner = CopyOwner(format: string, operation: Id, destination: RawPath)

  // How a record becomes bytes and how bytes are read back. All that is asked of the
  // reader is that it reads what was written; what it makes of anything else, a record
  // torn in the middle included, is left open.
  datatype Codec = Codec(write: CopyOwner -> Bytes, read: Bytes -> Option<CopyOwner>)
  {
    ghost predicate Faithful() {
      forall record :: read(write(record)) == Some(record)
    }
  }

  // Where relative spellings are read from, and how records are spelled.
  datatype Host = Host(cwd: Path, codec: Codec)

  // A record that names this destination, by spelling or by place.
  predicate Owns(host: Host, bytes: Bytes, to: Path) {
    var record := host.codec.read(bytes);
    && record.Some?
    && (record.value.destination == Spelled(to) || Resolved(host.cwd, record.value.destination) == to)
    && record.value.format == OWNER_FORMAT
  }

  predicate Marked(host: Host, t: Node, to: Path) {
    var marker := Lookup(t, Ownership(to));
    marker.Some? && marker.value.File? && Owns(host, marker.value.content, to)
  }

  // A record that was written counts exactly where it was meant to: by the place it names,
  // however that is spelled, and in this format only.
  lemma RecordsCountByPlace(host: Host, t: Node, to: Path, record: CopyOwner)
    requires host.codec.Faithful() && Lookup(t, Ownership(to)) == Some(File(host.codec.write(record)))
    ensures Marked(host, t, to) <==>
              record.format == "fp-browser-copy-v1" && Resolved(host.cwd, record.destination) == to
  {
    assert host.codec.read(host.codec.write(record)) == Some(record);
    SpelledResolves(host.cwd, to);
  }

  predicate Clean(t: Node, to: Path) {
    !Exists(t, Ownership(to)) && !Exists(t, Displaced(to)) && !Exists(t, Staged(to))
  }

  // Leftovers that carry no valid record: someone else's, or a record cut short.
  predicate Unowned(host: Host, t: Node, to: Path) {
    !Marked(host, t, to) && !Clean(t, to)
  }

  // The data the destination stands for.
  function Held(host: Host, t: Node, to: Path): Option<Node> {
    if Exists(t, to) then Lookup(t, to)
    else if Marked(host, t, to) then Lookup(t, Displaced(to))
    else None
  }

  ghost predicate SameFour(s: Node, t: Node, to: Path) {
    forall q | q in Footprint(to) :: Lookup(t, q) == Lookup(s, q)
  }

  // What a run may leave for the next one: a valid record answering for whatever is
  // beside the destination, or nothing beside it - save perhaps a record cut short.
  predicate Settled(host: Host, t: Node, to: Path) {
    Marked(host, t, to) || (!Exists(t, Displaced(to)) && !Exists(t, Staged(to)))
  }

  // A record that cannot be read just now is reported in the words of one that is not ours.
  datatype SwapError = NotOurs | Unreadable | Io

  // ---- What the steps of a recovery can have made of a tree ----

  ghost predicate Recovering(host: Host, s: Node, t: Node, to: Path) {
    && SameOutside(s, t, Footprint(to))
    && Held(host, t, to) == Held(host, s, to)
    && (Marked(host, t, to) || Clean(t, to))
  }

  method Recover(host: Host, disk: Disk, to: Path) returns (r: Result<bool, SwapError>)
    requires disk.Valid() && to != []
    modifies disk
    ensures disk.Valid() && old(disk.passed) <= disk.passed && old(disk.failures) <= disk.failures
    // Nothing is touched that is not marked as ours.
    ensures !old(Marked(host, disk.root, to)) ==> disk.passed == old(disk.passed) && disk.root == old(disk.root)
    ensures r == Err(Unreadable) ==> disk.passed == old(disk.passed) && disk.root == old(disk.root)
    ensures !old(Marked(host, disk.root, to)) ==>
              if old(Clean(disk.root, to)) then r == Ok(false) else r.Err? && r.error != Io
    // Where it is ours, no step loses the data, and every step leaves something the next
    // recovery can finish from.
    ensures old(Marked(host, disk.root, to)) ==>
              forall i | |old(disk.passed)| <= i < |disk.passed| :: Recovering(host, old(disk.root), disk.passed[i], to)
    ensures old(Marked(host, disk.root, to)) ==> Recovering(host, old(disk.root), disk.root, to)
    ensures old(Marked(host, disk.root, to)) && r.Err? ==> r.error != NotOurs && Marked(host, disk.root, to)
    // And it gets done, unless some call fails.
    ensures old(Marked(host, disk.root, to)) && r.Err? ==> disk.failures > old(disk.failures)
    // Done means done: the data is under its own name and nothing is beside it.
    ensures r.Ok? ==> Clean(disk.root, to) && Lookup(disk.root, to) == old(Held(host, disk.root, to))
    ensures r.Ok? ==>
              r.value == old(!Exists(disk.root, to) && Exists(disk.root, Displaced(to)) && Marked(host, disk.root, to))
  {
    if !Exists(disk.root, Ownership(to)) {
      if Exists(disk.root, Displaced(to)) || Exists(disk.root, Staged(to)) {
        return Err(NotOurs);
      }
      return Ok(false);
    }
    var unreadable := disk.Fails();
    if unreadable {
      return Err(Unreadable);
    }
    if !Marked(host, disk.root, to) {
      return Err(NotOurs);
    }
    r := RecoverOwned(host, disk, to);
  }

  method RecoverOwned(host: Host, disk: Disk, to: Path) returns (r: Result<bool, SwapError>)
    requires disk.Valid() && to != [] && Marked(host, disk.root, to)
    modifies disk
    ensures disk.Valid() && old(disk.passed) <= disk.passed && old(disk.failures) <= disk.failures
    ensures forall i | |old(disk.passed)| <= i < |disk.passed| :: Recovering(host, old(disk.root), disk.passed[i], to)
    ensures Recovering(host, old(disk.root), disk.root, to)
    ensures r.Err? ==> r.error == Io && Marked(host, disk.root, to) && disk.failures > old(disk.failures)
    ensures r.Ok? ==> Clean(disk.root, to) && Lookup(disk.root, to) == old(Held(host, disk.root, to))
    ensures r.Ok? ==> r.value == (!old(Exists(disk.root, to)) && old(Exists(disk.root, Displaced(to))))
  {
    hide SameOutside, Recovering, Held, Marked, Clean, Lookup, Beside, Footprint, Apart;
    FootprintApart(to);
    ghost var start := disk.root;
    RecoveringNothing(host, start, to);
    var putBack := false;
    if !Exists(disk.root, to) && Exists(disk.root, Displaced(to)) {
      AncestorsAreDirectories(disk.root, Parent(to), Displaced(to));
      var renamed := disk.Rename(Displaced(to), to);
      if !renamed {
        return Err(Io);
      }
      OriginalBack(host, start, disk.root, to);
      putBack := true;
    }
    var cleared := ClearLeftovers(host, disk, start, to);
    return if cleared then Ok(putBack) else Err(Io);
  }

  lemma RecoveringNothing(host: Host, t: Node, to: Path)
    requires Marked(host, t, to)
    ensures Recovering(host, t, t, to)
  {
  }

  lemma OriginalBack(host: Host, s: Node, t: Node, to: Path)
    requires to != [] && Marked(host, s, to) && !Exists(s, to)
    requires SameOutside(s, t, {Displaced(to), to})
    requires Lookup(t, to) == Lookup(s, Displaced(to)) && Exists(t, to)
    ensures Recovering(host, s, t, to) && Marked(host, t, to)
  {
    FootprintApart(to);
    Renamed(host, s, t, Displaced(to), to, to);
  }

  lemma WithinFootprint(s: Node, t: Node, region: set<Path>, to: Path)
    requires SameOutside(s, t, region) && region <= Footprint(to)
    ensures SameOutside(s, t, Footprint(to))
  {
  }

  // `.old`, then the staging directory, and the record last, so that it is there for as
  // long as there is anything it answers for.
  method ClearLeftovers(host: Host, disk: Disk, ghost start: Node, to: Path) returns (ok: bool)
    requires disk.Valid() && to != []
    requires Marked(host, disk.root, to) && Recovering(host, start, disk.root, to)
    requires Exists(disk.root, to) || !Exists(disk.root, Displaced(to))
    modifies disk
    ensures disk.Valid() && old(disk.passed) <= disk.passed && old(disk.failures) <= disk.failures
    ensures forall i | |old(disk.passed)| <= i < |disk.passed| :: Recovering(host, start, disk.passed[i], to)
    ensures Recovering(host, start, disk.root, to)
    ensures ok ==> Clean(disk.root, to) && Lookup(disk.root, to) == Held(host, start, to)
    ensures !ok ==> Marked(host, disk.root, to) && disk.failures > old(disk.failures)
  {
    hide SameOutside, Recovering, Held, Marked, Clean, Lookup, Beside, Apart;
    FootprintApart(to);
    ok := ClearOne(host, disk, start, to, Displaced(to));
    if !ok {
      return;
    }
    ok := ClearOne(host, disk, start, to, Staged(to));
    if !ok {
      return;
    }
    ghost var before := disk.root;
    RecordIsAFile(host, before, to);
    ok := RemoveAny(disk, Ownership(to));
    if ok {
      RecordRemoved(host, start, before, disk.root, to);
    }
  }

  lemma MarkedHasAPlace(host: Host, t: Node, to: Path)
    requires to != [] && Marked(host, t, to)
    ensures IsDir(t, Parent(to))
  {
    FootprintApart(to);
    AncestorsAreDirectories(t, Parent(to), Ownership(to));
  }

  lemma RecordIsAFile(host: Host, t: Node, to: Path)
    requires Marked(host, t, to)
    ensures Exists(t, Ownership(to)) && Lookup(t, Ownership(to)).value.File?
  {
  }

  lemma RecordRemoved(host: Host, start: Node, s: Node, t: Node, to: Path)
    requires to != [] && Recovering(host, start, s, to) && Marked(host, s, to)
    requires !Exists(s, Displaced(to)) && !Exists(s, Staged(to))
    requires SameOutside(s, t, {Ownership(to)}) && !Exists(t, Ownership(to))
    ensures Recovering(host, start, t, to) && Clean(t, to)
    ensures Lookup(t, to) == Held(host, start, to)
  {
    WithinFootprint(s, t, {Ownership(to)}, to);
    ElsewhereTheSame(s, t, Ownership(to), to);
    SameOutsideTransitive(start, s, t, Footprint(to));
  }

  method ClearOne(host: Host, disk: Disk, ghost start: Node, to: Path, p: Path) returns (ok: bool)
    requires disk.Valid() && to != [] && (p == Displaced(to) || p == Staged(to))
    requires Marked(host, disk.root, to) && Recovering(host, start, disk.root, to)
    requires Exists(disk.root, to) || !Exists(disk.root, Displaced(to))
    modifies disk
    ensures disk.Valid() && old(disk.passed) <= disk.passed && old(disk.failures) <= disk.failures
    ensures forall i | |old(disk.passed)| <= i < |disk.passed| :: Recovering(host, start, disk.passed[i], to)
    ensures Recovering(host, start, disk.root, to) && Marked(host, disk.root, to)
    ensures Exists(disk.root, to) || !Exists(disk.root, Displaced(to))
    ensures if ok then !Exists(disk.root, p) else disk.failures > old(disk.failures)
    ensures forall q | q in Footprint(to) && q != p :: Lookup(disk.root, q) == old(Lookup(disk.root, q))
  {
    ghost var before := disk.root;
    FootprintApart(to);
    ok := RemoveAny(disk, p);
    forall i | |old(disk.passed)| <= i < |disk.passed|
      ensures Recovering(host, start, disk.passed[i], to)
    {
      StillRecovering(host, start, before, disk.passed[i], to, p);
    }
    StillRecovering(host, start, before, disk.root, to, p);
  }

  // While the destination is in place, or there is nothing else it could be, its two
  // leftovers do not matter to it.
  lemma StillRecovering(host: Host, start: Node, s: Node, t: Node, to: Path, p: Path)
    requires to != [] && (p == Displaced(to) || p == Staged(to))
    requires Recovering(host, start, s, to) && Marked(host, s, to)
    requires SameOutside(s, t, {p})
    requires Exists(s, to) || !Exists(s, Displaced(to))
    requires !Exists(s, p) ==> t == s
    ensures Recovering(host, start, t, to) && Marked(host, t, to)
    ensures Exists(t, to) || !Exists(t, Displaced(to))
    ensures forall q | q in Footprint(to) && q != p :: Lookup(t, q) == Lookup(s, q)
  {
    FootprintApart(to);
    WithinFootprint(s, t, {p}, to);
    ElsewhereTheSame(s, t, p, to);
    SameOutsideTransitive(start, s, t, Footprint(to));
  }

  lemma ElsewhereTheSame(s: Node, t: Node, p: Path, to: Path)
    requires to != [] && p in Footprint(to) && SameOutside(s, t, {p})
    ensures forall q | q in Footprint(to) && q != p :: Lookup(t, q) == Lookup(s, q)
  {
  }

  // ---- One copy, from the claim to the second rename ----

  // What one copy of `source` can have made of a tree at any moment.
  ghost predicate Replacing(host: Host, s: Node, t: Node, to: Path, source: Option<Node>) {
    && SameOutside(s, t, Footprint(to))
    && (Held(host, t, to) == Held(host, s, to) || Held(host, t, to) == source)
    && Settled(host, t, to)
  }

  method Claim(host: Host, disk: Disk, to: Path, operation: Id) returns (ok: bool)
    requires disk.Valid() && to != [] && host.codec.Faithful()
    modifies disk
    ensures disk.Valid() && old(disk.passed) <= disk.passed && old(disk.failures) <= disk.failures
    ensures forall i | |old(disk.passed)| <= i < |disk.passed| :: OnlyClaimed(old(disk.root), disk.passed[i], to)
    ensures OnlyClaimed(old(disk.root), disk.root, to)
    ensures ok ==> Marked(host, disk.root, to) && !old(Exists(disk.root, Ownership(to)))
    ensures !ok && old(ClearWay(disk.root, Parent(to)) && !Exists(disk.root, Ownership(to))) ==>
              disk.failures > old(disk.failures)
  {
    hide SameOutside, OnlyClaimed, Owns, Lookup, Beside, Footprint, Apart, ClearWay;
    FootprintApart(to);
    ghost var start := disk.root;
    ok := MakeRoom(disk, to);
    if !ok {
      return;
    }
    ghost var parented := disk.root;
    ok := disk.CreateNew(Ownership(to));
    if ok {
      ClaimTouchesRecord(start, parented, disk.root, to);
      var record := ComposeRecord(host, disk.root, to, operation);
      ok := WriteRecord(disk, start, to, record);
    }
  }

  method ComposeRecord(host: Host, t: Node, to: Path, operation: Id) returns (bytes: Bytes)
    requires host.codec.Faithful()
    ensures Owns(host, bytes, to)
  {
    var destination := Resolve(t, Some(host.cwd), Spelled(to));
    SpelledResolves(host.cwd, to);
    bytes := host.codec.write(CopyOwner(OWNER_FORMAT, operation, destination));
  }

  method MakeRoom(disk: Disk, to: Path) returns (ok: bool)
    requires disk.Valid() && to != []
    modifies disk
    ensures disk.Valid() && old(disk.passed) <= disk.passed && old(disk.failures) <= disk.failures
    ensures forall i | |old(disk.passed)| <= i < |disk.passed| :: OnlyClaimed(old(disk.root), disk.passed[i], to)
    ensures OnlyClaimed(old(disk.root), disk.root, to)
    ensures Lookup(disk.root, Ownership(to)) == old(Lookup(disk.root, Ownership(to)))
    ensures if ok then IsDir(disk.root, Parent(to))
            else old(ClearWay(disk.root, Parent(to))) ==> disk.failures > old(disk.failures)
  {
    ghost var start := disk.root;
    ok := CreateDirAll(disk, Parent(to));
    forall i | |old(disk.passed)| <= i < |disk.passed|
      ensures OnlyClaimed(start, disk.passed[i], to)
    {
      ParentMade(start, disk.passed[i], to);
    }
    ParentMade(start, disk.root, to);
  }

  method WriteRecord(disk: Disk, ghost start: Node, to: Path, bytes: Bytes) returns (ok: bool)
    requires disk.Valid() && to != [] && OnlyClaimed(start, disk.root, to)
    requires Lookup(disk.root, Ownership(to)) == Some(File([]))
    modifies disk
    ensures disk.Valid() && old(disk.passed) <= disk.passed && old(disk.failures) <= disk.failures
    ensures forall i | |old(disk.passed)| <= i < |disk.passed| :: OnlyClaimed(start, disk.passed[i], to)
    ensures OnlyClaimed(start, disk.root, to)
    ensures if ok then Lookup(disk.root, Ownership(to)) == Some(File(bytes)) else disk.failures > old(disk.failures)
  {
    ghost var before := disk.root;
    ok := WriteAll(disk, Ownership(to), bytes);
    forall i | |old(disk.passed)| <= i < |disk.passed|
      ensures OnlyClaimed(start, disk.passed[i], to)
    {
      ClaimTouchesRecord(start, before, disk.passed[i], to);
    }
    ClaimTouchesRecord(start, before, disk.root, to);
    if ok {
      // `sync_all` may fail with everything written.
      var fault := disk.Fails();
      ok := !fault;
    }
  }

  // Nothing of the four is different but the record.
  ghost predicate OnlyClaimed(s: Node, t: Node, to: Path) {
    && SameOutside(s, t, Footprint(to))
    && Lookup(t, to) == Lookup(s, to)
    && Lookup(t, Displaced(to)) == Lookup(s, Displaced(to))
    && Lookup(t, Staged(to)) == Lookup(s, Staged(to))
  }

  lemma ParentMade(s: Node, t: Node, to: Path)
    requires to != [] && MadeOnTheWay(s, t, Parent(to))
    ensures OnlyClaimed(s, t, to) && Lookup(t, Ownership(to)) == Lookup(s, Ownership(to))
  {
  }

  lemma ClaimTouchesRecord(start: Node, s: Node, t: Node, to: Path)
    requires to != [] && OnlyClaimed(start, s, to) && SameOutside(s, t, {Ownership(to)})
    ensures OnlyClaimed(start, t, to)
  {
    FootprintApart(to);
    WithinFootprint(s, t, {Ownership(to)}, to);
    ElsewhereTheSame(s, t, Ownership(to), to);
    SameOutsideTransitive(start, s, t, Footprint(to));
  }

  lemma SpelledResolves(at: Path, p: Path)
    ensures Resolved(at, Spelled(p)) == p
  {
    ResolvedIsNormalized(at, Spelled(p));
    assert Spelled(p)[1..] == seq(|p|, i requires 0 <= i < |p| => Normal(p[i]));
    NormalizeOntoAppend(Spelled(at), [RootDir], Spelled(p)[1..]);
    assert [RootDir] + Spelled(p)[1..] == Spelled(p);
    assert NormalizeOnto(Spelled(at), [RootDir]) == [RootDir];
    SpelledIsNormal(p);
    NormalPathsStay([RootDir], Spelled(p)[1..]);
    SpelledInjective(Resolved(at, Spelled(p)), p);
  }

  // The two renames.
  method Commit(host: Host, disk: Disk, to: Path) returns (ok: bool)
    requires disk.Valid() && to != []
    requires Marked(host, disk.root, to) && Exists(disk.root, Staged(to)) && !Exists(disk.root, Displaced(to))
    modifies disk
    ensures disk.Valid() && old(disk.passed) <= disk.passed && old(disk.failures) <= disk.failures
    ensures forall i | |old(disk.passed)| <= i < |disk.passed| ::
              Replacing(host, old(disk.root), disk.passed[i], to, old(Lookup(disk.root, Staged(to))))
              && Marked(host, disk.passed[i], to)
    ensures SameOutside(old(disk.root), disk.root, Footprint(to)) && Marked(host, disk.root, to)
    ensures Held(host, disk.root, to) == if ok then old(Lookup(disk.root, Staged(to)))
              else old(Held(host, disk.root, to))
    ensures if ok then Exists(disk.root, to) else disk.failures > old(disk.failures)
  {
    hide SameOutside, Marked, Held, Replacing, Lookup, Beside, Footprint, Apart;
    FootprintApart(to);
    ghost var start := disk.root;
    MarkedHasAPlace(host, start, to);
    if !Exists(disk.root, to) {
      ok := disk.Rename(Staged(to), to);
      if ok {
        NameTaken(host, start, disk.root, to);
      } else {
        NothingReplaced(host, start, to);
      }
      return;
    }
    ok := disk.Rename(to, Displaced(to));
    if !ok {
      NothingReplaced(host, start, to);
      return;
    }
    ghost var aside := disk.root;
    SetAside(host, start, aside, to);
    ok := TakeTheName(host, disk, to);
    ReplacingFromHere(host, start, aside, to, Lookup(start, Staged(to)));
    SameOutsideTransitive(start, aside, disk.root, Footprint(to));
  }

  lemma NothingReplaced(host: Host, s: Node, to: Path)
    ensures SameOutside(s, s, Footprint(to))
  {
  }

  // The copy has the name.
  lemma NameTaken(host: Host, s: Node, t: Node, to: Path)
    requires to != [] && Marked(host, s, to) && Exists(s, Staged(to))
    requires SameOutside(s, t, {Staged(to), to}) && Lookup(t, to) == Lookup(s, Staged(to))
    ensures Replacing(host, s, t, to, Lookup(s, Staged(to))) && Marked(host, t, to)
    ensures SameOutside(s, t, Footprint(to)) && Held(host, t, to) == Lookup(s, Staged(to))
  {
    hide SameOutside, Marked;
    FootprintApart(to);
    Renamed(host, s, t, Staged(to), to, to);
  }

  // The original is under `.old`, which is where the record says to look for it.
  lemma SetAside(host: Host, s: Node, t: Node, to: Path)
    requires to != [] && Marked(host, s, to) && Exists(s, to)
    requires SameOutside(s, t, {to, Displaced(to)}) && Lookup(t, Displaced(to)) == Lookup(s, to) && !Exists(t, to)
    ensures SameOutside(s, t, Footprint(to)) && Marked(host, t, to) && Held(host, t, to) == Held(host, s, to)
    ensures Lookup(t, Staged(to)) == Lookup(s, Staged(to))
    ensures forall source :: Replacing(host, s, t, to, source)
  {
    hide SameOutside, Marked;
    FootprintApart(to);
    Renamed(host, s, t, to, Displaced(to), to);
  }

  // With the original aside, the copy takes its name - or the original has it back.
  method TakeTheName(host: Host, disk: Disk, to: Path) returns (ok: bool)
    requires disk.Valid() && to != [] && Marked(host, disk.root, to)
    requires !Exists(disk.root, to) && Exists(disk.root, Staged(to)) && Exists(disk.root, Displaced(to))
    modifies disk
    ensures disk.Valid() && old(disk.passed) <= disk.passed && old(disk.failures) <= disk.failures
    ensures forall i | |old(disk.passed)| <= i < |disk.passed| ::
              Replacing(host, old(disk.root), disk.passed[i], to, old(Lookup(disk.root, Staged(to))))
              && Marked(host, disk.passed[i], to)
    ensures SameOutside(old(disk.root), disk.root, Footprint(to)) && Marked(host, disk.root, to)
    ensures Held(host, disk.root, to) == if ok then old(Lookup(disk.root, Staged(to)))
              else old(Held(host, disk.root, to))
    ensures if ok then Exists(disk.root, to) else disk.failures > old(disk.failures)
  {
    hide SameOutside, Marked, Held, Replacing, Lookup, Beside, Footprint, Apart;
    FootprintApart(to);
    ghost var aside := disk.root;
    MarkedHasAPlace(host, aside, to);
    ok := disk.Rename(Staged(to), to);
    if ok {
      NameTaken(host, aside, disk.root, to);
      return;
    }
    // The original is put back before the failure is reported; if that fails too, it
    // is still there under the record.
    var back := disk.Rename(Displaced(to), to);
    if back {
      OriginalIsBack(host, aside, disk.root, to);
    } else {
      NothingReplaced(host, aside, to);
    }
  }

  lemma OriginalIsBack(host: Host, s: Node, t: Node, to: Path)
    requires to != [] && Marked(host, s, to) && !Exists(s, to) && Exists(s, Displaced(to))
    requires SameOutside(s, t, {Displaced(to), to}) && Lookup(t, to) == Lookup(s, Displaced(to))
    ensures SameOutside(s, t, Footprint(to)) && Marked(host, t, to) && Held(host, t, to) == Held(host, s, to)
    ensures forall source :: Replacing(host, s, t, to, source)
  {
    hide SameOutside, Marked, Held;
    OriginalBack(host, s, t, to);
  }

  lemma Renamed(host: Host, s: Node, t: Node, a: Path, b: Path, to: Path)
    requires to != [] && a in Footprint(to) && b in Footprint(to)
    requires a != Ownership(to) && b != Ownership(to)
    requires SameOutside(s, t, {a, b})
    ensures SameOutside(s, t, Footprint(to))
    ensures Marked(host, t, to) == Marked(host, s, to)
    ensures forall q | q in Footprint(to) && q != a && q != b :: Lookup(t, q) == Lookup(s, q)
  {
    FootprintApart(to);
    WithinFootprint(s, t, {a, b}, to);
    forall q | q in Footprint(to) && q != a && q != b ensures Lookup(t, q) == Lookup(s, q) {
      assert Clear({a, b}, q);
    }
  }

  // One destination of a run: recover, claim, copy beside, swap, recover.
  method CopyOnto(host: Host, disk: Disk, from: Path, to: Path, operation: Id) returns (r: Result<nat, SwapError>)
    requires disk.Valid() && to != [] && host.codec.Faithful()
    requires IsDir(disk.root, from) && Clear(Footprint(to), from)
    modifies disk
    ensures disk.Valid() && old(disk.passed) <= disk.passed && old(disk.failures) <= disk.failures
    // Leftovers that are not ours stop it before it has done anything.
    ensures old(Unowned(host, disk.root, to)) ==> r.Err? && r.error != Io
    ensures old(Unowned(host, disk.root, to)) ==> disk.passed == old(disk.passed) && disk.root == old(disk.root)
    ensures r == Err(NotOurs) ==> old(Unowned(host, disk.root, to))
    // At every moment the destination stands for its original or for the whole copy.
    ensures forall i | |old(disk.passed)| <= i < |disk.passed| ::
              Replacing(host, old(disk.root), disk.passed[i], to, old(Lookup(disk.root, from)))
    ensures !old(Unowned(host, disk.root, to)) ==>
              Replacing(host, old(disk.root), disk.root, to, old(Lookup(disk.root, from)))
    ensures r.Ok? ==> Clean(disk.root, to) && Lookup(disk.root, to) == old(Lookup(disk.root, from))
    ensures r.Ok? ==> r.value == Size(old(Lookup(disk.root, from)).value)
    // Nothing else stops it but a file where a directory has to be, or a call that fails.
    ensures r.Err? && old(!Unowned(host, disk.root, to) && ClearWay(disk.root, Parent(to))) ==>
              disk.failures > old(disk.failures)
  {
    ghost var start := disk.root;
    ghost var source := Lookup(disk.root, from);
    var recovered := Recover(host, disk, to);
    RecoveringIsReplacing(host, start, to, source);
    if recovered.Err? {
      return Err(recovered.error);
    }
    assert Lookup(disk.root, from) == source;
    if ClearWay(start, Parent(to)) {
      WayStaysClear(host, start, disk.root, to);
    }
    r := CopyOntoClean(host, disk, start, from, to, operation);
  }

  // A recovery puts nothing in the way of what follows it.
  lemma WayStaysClear(host: Host, s: Node, t: Node, to: Path)
    requires to != [] && ClearWay(s, Parent(to))
    requires if Marked(host, s, to) then SameOutside(s, t, Footprint(to)) else t == s
    ensures ClearWay(t, Parent(to))
  {
    if Marked(host, s, to) {
      MarkedHasAPlace(host, s, to);
      FootprintApart(to);
      assert IsDir(t, Parent(to));
      DirectoriesAllTheWay(t, Parent(to));
    }
  }

  lemma RecoveringIsReplacing(host: Host, s: Node, to: Path, source: Option<Node>)
    ensures forall t | Recovering(host, s, t, to) :: Replacing(host, s, t, to, source)
  {
  }

  method CopyOntoClean(host: Host, disk: Disk, ghost start: Node, from: Path, to: Path, operation: Id)
    returns (r: Result<nat, SwapError>)
    requires disk.Valid() && to != [] && host.codec.Faithful()
    requires IsDir(disk.root, from) && Clear(Footprint(to), from)
    requires Clean(disk.root, to)
    requires SameOutside(start, disk.root, Footprint(to)) && Held(host, disk.root, to) == Held(host, start, to)
    modifies disk
    ensures disk.Valid() && old(disk.passed) <= disk.passed && old(disk.failures) <= disk.failures
    ensures r != Err(NotOurs)
    ensures forall i | |old(disk.passed)| <= i < |disk.passed| ::
              Replacing(host, start, disk.passed[i], to, old(Lookup(disk.root, from)))
    ensures Replacing(host, start, disk.root, to, old(Lookup(disk.root, from)))
    ensures r.Ok? ==> Clean(disk.root, to) && Lookup(disk.root, to) == old(Lookup(disk.root, from))
    ensures r.Ok? ==> r.value == Size(old(Lookup(disk.root, from)).value)
    ensures r.Err? && old(ClearWay(disk.root, Parent(to))) ==> disk.failures > old(disk.failures)
  {
    ghost var source := Lookup(disk.root, from);
    ghost var clean := disk.root;
    var claimed := Claim(host, disk, to, operation);
    ClaimKeeps(host, start, clean, to, source);
    if !claimed {
      return Err(Io);
    }
    assert Lookup(disk.root, from) == source;
    r := CopyClaimed(host, disk, start, from, to);
  }

  lemma ClaimKeeps(host: Host, start: Node, s: Node, to: Path, source: Option<Node>)
    requires Clean(s, to)
    requires SameOutside(start, s, Footprint(to)) && Held(host, s, to) == Held(host, start, to)
    ensures forall t | OnlyClaimed(s, t, to) ::
              Replacing(host, start, t, to, source) && Held(host, t, to) == Held(host, start, to)
  {
    forall t | OnlyClaimed(s, t, to)
      ensures Replacing(host, start, t, to, source) && Held(host, t, to) == Held(host, start, to)
    {
      SameOutsideTransitive(start, s, t, Footprint(to));
    }
  }

  method CopyClaimed(host: Host, disk: Disk, ghost start: Node, from: Path, to: Path)
    returns (r: Result<nat, SwapError>)
    requires disk.Valid() && to != []
    requires IsDir(disk.root, from) && Clear(Footprint(to), from)
    requires Marked(host, disk.root, to) && !Exists(disk.root, Staged(to)) && !Exists(disk.root, Displaced(to))
    requires SameOutside(start, disk.root, Footprint(to)) && Held(host, disk.root, to) == Held(host, start, to)
    modifies disk
    ensures disk.Valid() && old(disk.passed) <= disk.passed && old(disk.failures) <= disk.failures
    ensures r != Err(NotOurs)
    ensures forall i | |old(disk.passed)| <= i < |disk.passed| ::
              Replacing(host, start, disk.passed[i], to, old(Lookup(disk.root, from)))
    ensures Replacing(host, start, disk.root, to, old(Lookup(disk.root, from)))
    ensures r.Ok? ==> Clean(disk.root, to) && Lookup(disk.root, to) == old(Lookup(disk.root, from))
    ensures r.Ok? ==> r.value == Size(old(Lookup(disk.root, from)).value)
    ensures r.Err? ==> disk.failures > old(disk.failures)
  {
    ghost var source := Lookup(disk.root, from);
    ghost var claimed := disk.root;
    FootprintApart(to);
    MarkedHasAPlace(host, claimed, to);
    assert Apart(from, Staged(to));
    var bytes := CopyTree(disk, from, Staged(to));
    StagingKeeps(host, start, claimed, to, source);
    if bytes.None? {
      // The unfinished copy never becomes the destination's replacement.
      ghost var staged := disk.root;
      var _ := Recover(host, disk, to);
      ReplacingThenRecovering(host, start, staged, to, source);
      return Err(Io);
    }
    r := FinishCopy(host, disk, start, to, bytes.value);
  }

  lemma StagingKeeps(host: Host, start: Node, s: Node, to: Path, source: Option<Node>)
    requires to != [] && Marked(host, s, to) && !Exists(s, Displaced(to))
    requires SameOutside(start, s, Footprint(to)) && Held(host, s, to) == Held(host, start, to)
    ensures forall t | SameOutside(s, t, {Staged(to)}) ::
              Replacing(host, start, t, to, source) && Marked(host, t, to) && !Exists(t, Displaced(to))
              && Held(host, t, to) == Held(host, start, to)
  {
    FootprintApart(to);
    forall t | SameOutside(s, t, {Staged(to)})
      ensures Replacing(host, start, t, to, source) && Marked(host, t, to) && !Exists(t, Displaced(to))
      ensures Held(host, t, to) == Held(host, start, to)
    {
      WithinFootprint(s, t, {Staged(to)}, to);
      ElsewhereTheSame(s, t, Staged(to), to);
      SameOutsideTransitive(start, s, t, Footprint(to));
    }
  }

  lemma ReplacingThenRecovering(host: Host, start: Node, s: Node, to: Path, source: Option<Node>)
    requires Replacing(host, start, s, to, source)
    ensures forall t | Recovering(host, s, t, to) :: Replacing(host, start, t, to, source)
  {
  }

  method FinishCopy(host: Host, disk: Disk, ghost start: Node, to: Path, bytes: nat) returns (r: Result<nat, SwapError>)
    requires disk.Valid() && to != []
    requires Marked(host, disk.root, to) && Exists(disk.root, Staged(to)) && !Exists(disk.root, Displaced(to))
    requires SameOutside(start, disk.root, Footprint(to)) && Held(host, disk.root, to) == Held(host, start, to)
    modifies disk
    ensures disk.Valid() && old(disk.passed) <= disk.passed && old(disk.failures) <= disk.failures
    ensures r.Ok? ==> r.value == bytes
    ensures r != Err(NotOurs)
    ensures forall i | |old(disk.passed)| <= i < |disk.passed| ::
              Replacing(host, start, disk.passed[i], to, old(Lookup(disk.root, Staged(to))))
    ensures Replacing(host, start, disk.root, to, old(Lookup(disk.root, Staged(to))))
    ensures r.Ok? ==> Clean(disk.root, to) && Lookup(disk.root, to) == old(Lookup(disk.root, Staged(to)))
    ensures r.Err? ==> disk.failures > old(disk.failures)
  {
    ghost var source := Lookup(disk.root, Staged(to));
    ghost var staged := disk.root;
    var committed := Commit(host, disk, to);
    ReplacingFromHere(host, start, staged, to, source);
    if !committed {
      return Err(Io);
    }
    ghost var swapped := disk.root;
    var recovered := Recover(host, disk, to);
    ReplacingThenRecovering(host, start, swapped, to, source);
    return if recovered.Ok? then Ok(bytes) else Err(recovered.error);
  }

  lemma ReplacingFromHere(host: Host, start: Node, s: Node, to: Path, source: Option<Node>)
    requires SameOutside(start, s, Footprint(to)) && Held(host, s, to) == Held(host, start, to)
    ensures forall t | Replacing(host, s, t, to, source) :: Replacing(host, start, t, to, source)
  {
  }
}
