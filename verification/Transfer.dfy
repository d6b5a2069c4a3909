// A whole run: every copy in turn, stopping at the first that fails.
module Transfers {
  import opened Values
  import opened Wrappers
  import opened Trees
  import opened Disks
  import opened Paths
  import opened Lists
  import opened Swap
  import opened Plans

  datatype Report = Report(copied: seq<string>, skipped: seq<string>, bytes: nat)

  function AllFootprints(copies: seq<Copy>): set<Path> {
    set c, p | c in copies && p in Footprint(c.to) :: p
  }

  function NamesOfCopies(copies: seq<Copy>): seq<string> {
    seq(|copies|, i requires 0 <= i < |copies| => copies[i].profile)
  }

  ghost function TotalSize(t: Node, copies: seq<Copy>): nat {
    if copies == [] then 0
    else
      var source := Lookup(t, copies[|copies| - 1].from);
      TotalSize(t, copies[..|copies| - 1]) + (if source.Some? then Size(source.value) else 0)
  }

  function RunningNames(ordered: seq<Profile>, running: set<ProfileId>): seq<string> {
    if ordered == [] then []
    else
      var p := ordered[|ordered| - 1];
      RunningNames(ordered[..|ordered| - 1], running) + (if p.id in running then [p.name] else [])
  }

  // ---- What a run is for ----

  // A backup that was made holds, in each profile's place, all that its directory held; and
  // after a restore each profile's directory holds all that the backup held of it. Who is
  // copied and who is skipped is said by name and in order.
  ghost predicate Delivered(host: Host, s: Node, t: Node, ordered: seq<Profile>, directory: RawPath,
                            direction: Direction, report: Report) {
    match direction
    case ToBackup =>
      && Selects(ordered, p => HasData(host, s, p), (p: Profile) => p.name, report.copied)
      && Selects(ordered, p => !HasData(host, s, p), (p: Profile) => p.name, report.skipped)
      && forall p | p in ordered && HasData(host, s, p) ::
           && Lookup(t, BackupPlace(host, directory, p)) == Lookup(s, Resolved(host.cwd, p.dir))
           && Lookup(t, Resolved(host.cwd, p.dir)) == Lookup(s, Resolved(host.cwd, p.dir))
    case FromBackup =>
      && Selects(ordered, p => HasBackup(host, s, directory, p), (p: Profile) => p.name, report.copied)
      && Selects(ordered, p => !HasBackup(host, s, directory, p), (p: Profile) => p.name, report.skipped)
      && forall p | p in ordered && HasBackup(host, s, directory, p) ::
           && Lookup(t, Resolved(host.cwd, p.dir)) == Lookup(s, BackupPlace(host, directory, p))
           && Lookup(t, BackupPlace(host, directory, p)) == Lookup(s, BackupPlace(host, directory, p))
  }

  lemma NamesOfSelected(ordered: seq<Profile>, chosen: Profile -> bool, what: Profile -> Copy, copies: seq<Copy>)
    requires Selects(ordered, chosen, what, copies) && forall p :: what(p).profile == p.name
    ensures Selects(ordered, chosen, (p: Profile) => p.name, NamesOfCopies(copies))
  {
    var from: seq<nat> :| SelectsFrom(ordered, chosen, what, copies, from);
    assert SelectsFrom(ordered, chosen, (p: Profile) => p.name, NamesOfCopies(copies), from);
  }

  lemma SelectedIsThere(ordered: seq<Profile>, chosen: Profile -> bool, what: Profile -> Copy, copies: seq<Copy>,
                        p: Profile)
    requires Selects(ordered, chosen, what, copies) && p in ordered && chosen(p)
    ensures what(p) in copies
  {
    var from: seq<nat> :| SelectsFrom(ordered, chosen, what, copies, from);
    var i :| 0 <= i < |ordered| && ordered[i] == p;
    var k :| 0 <= k < |from| && from[k] == i;
  }

  lemma AllDelivered(host: Host, s: Node, t: Node, ordered: seq<Profile>, directory: RawPath, direction: Direction,
                     copies: seq<Copy>, skipped: seq<string>, bytes: nat)
    requires Asked(host, s, ordered, directory, direction, copies, skipped)
    requires forall c | c in copies :: Lookup(t, c.to) == Lookup(s, c.from) == Lookup(t, c.from)
    ensures Delivered(host, s, t, ordered, directory, direction, Report(NamesOfCopies(copies), skipped, bytes))
  {
    hide Selects, HasData, HasBackup, BackupPlace, Resolved;
    if direction == ToBackup {
      var what := (p: Profile) => Copy(p.id, p.name, Resolved(host.cwd, p.dir), BackupPlace(host, directory, p));
      NamesOfSelected(ordered, p => HasData(host, s, p), what, copies);
      forall p | p in ordered && HasData(host, s, p) ensures what(p) in copies {
        SelectedIsThere(ordered, p => HasData(host, s, p), what, copies, p);
      }
    } else {
      var what := (p: Profile) => Copy(p.id, p.name, BackupPlace(host, directory, p), Resolved(host.cwd, p.dir));
      NamesOfSelected(ordered, p => HasBackup(host, s, directory, p), what, copies);
      forall p | p in ordered && HasBackup(host, s, directory, p) ensures what(p) in copies {
        SelectedIsThere(ordered, p => HasBackup(host, s, directory, p), what, copies, p);
      }
    }
  }

  lemma ThroughIsDelivered(host: Host, s: Node, t: Node, ordered: seq<Profile>, directory: RawPath,
                           direction: Direction, copies: seq<Copy>, skipped: seq<string>, bytes: nat)
    requires Asked(host, s, ordered, directory, direction, copies, skipped) && Acceptable(host, copies, ordered)
    requires Through(host, s, t, copies, |copies|)
    ensures Delivered(host, s, t, ordered, directory, direction, Report(NamesOfCopies(copies), skipped, bytes))
  {
    hide Asked, Delivered, Acceptable;
    NothingElseIsWritten(host, s, t, copies, ordered);
    AllDelivered(host, s, t, ordered, directory, direction, copies, skipped, bytes);
  }

  // Who is in the way of a run, by name: those who are running, in their order.
  lemma {:induction false} RunningAreNamed(ordered: seq<Profile>, running: set<ProfileId>)
    ensures Selects(ordered, (p: Profile) => p.id in running, (p: Profile) => p.name, RunningNames(ordered, running))
    ensures RunningNames(ordered, running) == [] <==> forall p | p in ordered :: p.id !in running
  {
    if ordered == [] {
      SelectsNothing((p: Profile) => p.id in running, (p: Profile) => p.name);
    } else {
      hide Selects;
      var before, p := ordered[..|ordered| - 1], ordered[|ordered| - 1];
      assert ordered == before + [p];
      RunningAreNamed(before, running);
      SelectsOneMore(before, p, (p: Profile) => p.id in running, (p: Profile) => p.name, RunningNames(before, running));
    }
  }

  // ---- How far a run has come ----

  // The destination holds what its source held when the run began, with nothing beside it -
  // nor was there then anything that was not ours.
  ghost predicate Committed(host: Host, s: Node, t: Node, c: Copy) {
    !Unowned(host, s, c.to) && Clean(t, c.to) && Lookup(t, c.to) == Lookup(s, c.from)
  }

  ghost predicate Untouched(s: Node, t: Node, c: Copy) {
    forall q | q in PathsOf(c) :: Lookup(t, q) == Lookup(s, q)
  }

  // The first `k` copies are made and the rest are as they were.
  ghost predicate Through(host: Host, s: Node, t: Node, copies: seq<Copy>, k: nat) {
    && k <= |copies|
    && SameOutside(s, t, AllFootprints(copies))
    && (forall j | 0 <= j < k :: Committed(host, s, t, copies[j]))
    && (forall j | k <= j < |copies| :: Untouched(s, t, copies[j]))
  }

  // The destination stands for what it stood for, or for all of its source.
  ghost predicate OldOrNew(host: Host, s: Node, t: Node, c: Copy) {
    Held(host, t, c.to) == Held(host, s, c.to) || Held(host, t, c.to) == Lookup(s, c.from)
  }

  // Somewhere inside the copy at `k`.
  ghost predicate Midway(host: Host, s: Node, t: Node, copies: seq<Copy>, k: nat) {
    && k < |copies|
    && SameOutside(s, t, AllFootprints(copies))
    && (forall j | 0 <= j < k :: Committed(host, s, t, copies[j]))
    && (forall j | k < j < |copies| :: Untouched(s, t, copies[j]))
    && OldOrNew(host, s, t, copies[k])
    && (Settled(host, s, copies[k].to) ==> Settled(host, t, copies[k].to))
    && (Unowned(host, s, copies[k].to) ==> SameFour(s, t, copies[k].to))
  }

  ghost predicate MidwaySomewhere(host: Host, s: Node, t: Node, copies: seq<Copy>) {
    exists k :: Midway(host, s, t, copies, k)
  }

  // Leftovers that are not ours are what is said to be in the way exactly when they were -
  // unless the record could not be read, which says as much without knowing it.
  predicate Blamed(host: Host, s: Node, to: Path, cause: SwapError) {
    && (cause == NotOurs ==> Unowned(host, s, to))
    && (Unowned(host, s, to) ==> cause != Io)
  }

  // No leftovers at a destination that are not ours, and no file where a directory that
  // leads to one has to be.
  ghost predicate Unhindered(host: Host, t: Node, copies: seq<Copy>) {
    forall c | c in copies :: !Unowned(host, t, c.to) && (c.to != [] ==> ClearWay(t, Parent(c.to)))
  }

  method Transfer(host: Host, disk: Disk, ordered: seq<Profile>, running: set<ProfileId>, directory: RawPath,
                  direction: Direction)
    returns (r: Result<Report, RunError>, ghost copies: seq<Copy>, ghost reached: nat)
    requires disk.Valid() && host.codec.Faithful()
    modifies disk
    ensures disk.Valid() && old(disk.passed) <= disk.passed && old(disk.failures) <= disk.failures
    ensures copies == CopiesOf(host, old(disk.root), ordered, directory, direction)
    // Refusals come before the first byte. What is running is named, and nothing else is.
    ensures r.Err? && r.error.Running? <==> exists p :: p in ordered && p.id in running
    ensures r.Err? && r.error.Running? ==>
              Selects(ordered, (p: Profile) => p.id in running, (p: Profile) => p.name, r.error.names)
    ensures RunningNames(ordered, running) != [] ==> r == Err(Running(RunningNames(ordered, running)))
    ensures RunningNames(ordered, running) == [] && !Acceptable(host, copies, ordered) ==>
              r.Err? && Witnessed(host, copies, ordered, r.error)
    ensures RunningNames(ordered, running) != [] || !Acceptable(host, copies, ordered) ==>
              disk.root == old(disk.root) && disk.passed == old(disk.passed)
    // At every moment some copies are made whole, at most one is under way and loses
    // nothing, and the rest have not been touched.
    ensures forall i | |old(disk.passed)| <= i < |disk.passed| ::
              MidwaySomewhere(host, old(disk.root), disk.passed[i], copies)
    ensures Acceptable(host, copies, ordered) || disk.passed == old(disk.passed)
    // Success is every copy made, counted exactly; failure is a stop at one of them.
    ensures r.Ok? ==> Acceptable(host, copies, ordered) && Through(host, old(disk.root), disk.root, copies, |copies|)
    ensures r.Ok? ==>
              r.value == Report(NamesOfCopies(copies), SkippedOf(host, old(disk.root), ordered, directory, direction),
                                TotalSize(old(disk.root), copies))
    // In the profiles' own terms: everything is where it was asked to be.
    ensures r.Ok? ==> Delivered(host, old(disk.root), disk.root, ordered, directory, direction, r.value)
    ensures r.Err? && r.error.Unusable? ==>
              && Acceptable(host, copies, ordered)
              && Midway(host, old(disk.root), disk.root, copies, reached)
              && r.error.profile == copies[reached].profile
              && Blamed(host, old(disk.root), copies[reached].to, r.error.cause)
    ensures RunningNames(ordered, running) == [] && Acceptable(host, copies, ordered) && r.Err? ==> r.error.Unusable?
    // And it succeeds, unless there is something in the way or some call fails.
    ensures RunningNames(ordered, running) == [] && Acceptable(host, copies, ordered) && r.Err? ==>
              Unhindered(host, old(disk.root), copies) ==> disk.failures > old(disk.failures)
  {
    hide Asked, Selects, Delivered, Acceptable, Unhindered, Through, Midway, MidwaySomewhere, Witnessed, Blamed;
    copies := CopiesOf(host, disk.root, ordered, directory, direction);
    ghost var start := disk.root;
    reached := 0;
    RunningAreNamed(ordered, running);
    var blocked := Blocked(ordered, running);
    if blocked != [] {
      r := Err(Running(blocked));
      return;
    }
    var planned := Plan(host, disk.root, ordered, directory, direction);
    if planned.Err? {
      RefusalsAreOfPaths(host, copies, ordered, planned.error);
      r := Err(planned.error);
      return;
    }
    CopiesComeFromProfiles(host, disk.root, ordered, directory, direction);
    var (todo, skipped) := planned.value;
    var done;
    done, reached := MakeCopies(host, disk, todo, ordered);
    if done.Err? {
      r := Err(done.error);
      return;
    }
    r := Ok(Report(done.value.0, skipped, done.value.1));
    ThroughIsDelivered(host, start, disk.root, ordered, directory, direction, copies, skipped, done.value.1);
  }

  lemma RefusalsAreOfPaths(host: Host, copies: seq<Copy>, ordered: seq<Profile>, error: RunError)
    requires Witnessed(host, copies, ordered, error)
    ensures !error.Running? && !error.Unusable?
  {
  }

  method Blocked(ordered: seq<Profile>, running: set<ProfileId>) returns (names: seq<string>)
    ensures names == RunningNames(ordered, running)
  {
    names := [];
    for i := 0 to |ordered|
      invariant names == RunningNames(ordered[..i], running)
    {
      assert ordered[..i + 1][..i] == ordered[..i];
      if ordered[i].id in running {
        names := names + [ordered[i].name];
      }
    }
    assert ordered[..|ordered|] == ordered;
  }

  method MakeCopies(host: Host, disk: Disk, copies: seq<Copy>, ghost ordered: seq<Profile>)
    returns (r: Result<(seq<string>, nat), RunError>, ghost reached: nat)
    requires disk.Valid() && host.codec.Faithful() && Acceptable(host, copies, ordered)
    requires forall c | c in copies :: IsDir(disk.root, c.from)
    modifies disk
    ensures disk.Valid() && old(disk.passed) <= disk.passed && old(disk.failures) <= disk.failures
    ensures forall i | |old(disk.passed)| <= i < |disk.passed| ::
              MidwaySomewhere(host, old(disk.root), disk.passed[i], copies)
    ensures r.Ok? ==> Through(host, old(disk.root), disk.root, copies, |copies|)
    ensures r.Ok? ==> r.value == (NamesOfCopies(copies), TotalSize(old(disk.root), copies))
    ensures r.Err? ==> Midway(host, old(disk.root), disk.root, copies, reached)
    ensures r.Err? ==> r.error.Unusable? && r.error.profile == copies[reached].profile
    ensures r.Err? ==> Blamed(host, old(disk.root), copies[reached].to, r.error.cause)
    ensures r.Err? && Unhindered(host, old(disk.root), copies) ==> disk.failures > old(disk.failures)
  {
    hide Midway, Through, Acceptable, MidwaySomewhere, WaysClear, Unhindered;
    ghost var start := disk.root;
    StartedThrough(host, start, copies);
    if Unhindered(host, start, copies) {
      NothingInTheWay(host, start, copies, ordered);
    }
    var names: seq<string>, bytes: nat := [], 0;
    reached := 0;
    for k := 0 to |copies|
      invariant reached == k
      invariant disk.Valid() && old(disk.passed) <= disk.passed && old(disk.failures) <= disk.failures
      invariant forall i | |old(disk.passed)| <= i < |disk.passed| ::
                MidwaySomewhere(host, start, disk.passed[i], copies)
      invariant Through(host, start, disk.root, copies, k)
      invariant names == NamesOfCopies(copies[..k])
      invariant bytes == TotalSize(start, copies[..k])
      invariant Unhindered(host, start, copies) ==> WaysClear(disk.root, copies, k)
    {
      var copied := MakeCopy(host, disk, start, copies, ordered, k);
      if copied.Err? {
        r := Err(Unusable(copies[k].profile, copied.error));
        return;
      }
      assert copies[..k + 1][..k] == copies[..k];
      bytes := bytes + copied.value;
      names := names + [copies[k].profile];
      reached := k + 1;
    }
    assert copies[..|copies|] == copies;
    r := Ok((names, bytes));
  }

  ghost predicate WaysClear(t: Node, copies: seq<Copy>, k: nat) {
    forall j | k <= j < |copies| :: copies[j].to != [] && ClearWay(t, Parent(copies[j].to))
  }

  lemma NothingInTheWay(host: Host, t: Node, copies: seq<Copy>, ordered: seq<Profile>)
    requires Unhindered(host, t, copies) && Acceptable(host, copies, ordered)
    ensures WaysClear(t, copies, 0)
  {
    forall j | 0 <= j < |copies| ensures copies[j].to != [] && ClearWay(t, Parent(copies[j].to)) {
      AcceptedCopy(host, copies, ordered, j);
      assert copies[j] in copies;
    }
  }

  // A copy that was made is in nobody's way: what is on the way to another destination
  // was there before, or is a directory that leads to this one.
  lemma WaysStayClear(host: Host, s: Node, t: Node, copies: seq<Copy>, ordered: seq<Profile>, k: nat)
    requires Acceptable(host, copies, ordered) && k < |copies| && WaysClear(s, copies, k)
    requires SameOutside(s, t, Footprint(copies[k].to)) && Exists(t, copies[k].to)
    ensures WaysClear(t, copies, k + 1)
  {
    var a := copies[k].to;
    AcceptedRunsKeepApart(host, copies, ordered);
    forall j, q | k < j < |copies| && q <= Parent(copies[j].to) && Exists(t, q) ensures IsDir(t, q) {
      var b := copies[j].to;
      assert b in PathsOf(copies[j]) && Clear(Footprint(a), b);
      OneWayStaysClear(s, t, a, b, q);
    }
  }

  lemma OneWayStaysClear(s: Node, t: Node, a: Path, b: Path, q: Path)
    requires a != [] && b != [] && Clear(Footprint(a), b)
    requires SameOutside(s, t, Footprint(a)) && Exists(t, a)
    requires ClearWay(s, Parent(b)) && q <= Parent(b) && Exists(t, q)
    ensures IsDir(t, q)
  {
    hide Lookup, Beside;
    FootprintApart(a);
    assert q <= b;
    if q < a {
      AncestorsAreDirectories(t, q, a);
    } else {
      forall p | p in Footprint(a) ensures Apart(p, q) {
        assert Apart(p, b) && |p| == |a| && Parent(p) == Parent(a);
        if q <= p {
          AboveASibling(q, p, a);
        }
      }
      assert Clear(Footprint(a), q);
    }
  }

  lemma StartedThrough(host: Host, s: Node, copies: seq<Copy>)
    ensures Through(host, s, s, copies, 0)
  {
  }

  // One round of the loop.
  method MakeCopy(host: Host, disk: Disk, ghost start: Node, copies: seq<Copy>, ghost ordered: seq<Profile>, k: nat)
    returns (r: Result<nat, SwapError>)
    requires disk.Valid() && host.codec.Faithful() && Acceptable(host, copies, ordered)
    requires k < |copies| && IsDir(start, copies[k].from)
    requires Through(host, start, disk.root, copies, k)
    modifies disk
    ensures disk.Valid() && old(disk.passed) <= disk.passed && old(disk.failures) <= disk.failures
    ensures forall i | |old(disk.passed)| <= i < |disk.passed| :: MidwaySomewhere(host, start, disk.passed[i], copies)
    ensures r.Ok? ==>
              Through(host, start, disk.root, copies, k + 1) && r.value == Size(Lookup(start, copies[k].from).value)
    ensures r.Err? ==> Midway(host, start, disk.root, copies, k)
    ensures r.Err? ==> Blamed(host, start, copies[k].to, r.error)
    ensures r.Err? && Unhindered(host, start, copies) && old(WaysClear(disk.root, copies, k)) ==>
              disk.failures > old(disk.failures)
    ensures r.Ok? && old(WaysClear(disk.root, copies, k)) ==> WaysClear(disk.root, copies, k + 1)
  {
    hide SameOutside, Acceptable, Midway, MidwaySomewhere, Replacing, ClearWay;
    ghost var before := disk.root;
    var c := copies[k];
    AcceptedCopy(host, copies, ordered, k);
    LooksTheSame(host, start, before, c);
    var operation: Id := *;
    r := CopyOnto(host, disk, c.from, c.to, operation);
    forall i | |old(disk.passed)| <= i < |disk.passed|
      ensures MidwaySomewhere(host, start, disk.passed[i], copies)
    {
      OneCopyFurther(host, start, before, disk.passed[i], copies, ordered, k);
    }
    if Unowned(host, before, c.to) {
      AboutToCopy(host, start, before, copies, k);
    } else {
      OneCopyFurther(host, start, before, disk.root, copies, ordered, k);
    }
    if r.Ok? && WaysClear(before, copies, k) {
      ReplacingIsWithin(host, before, disk.root, c.to, Lookup(before, c.from));
      WaysStayClear(host, before, disk.root, copies, ordered, k);
    }
  }

  lemma ReplacingIsWithin(host: Host, s: Node, t: Node, to: Path, source: Option<Node>)
    requires Replacing(host, s, t, to, source)
    ensures SameOutside(s, t, Footprint(to))
  {
  }

  lemma AcceptedCopy(host: Host, copies: seq<Copy>, ordered: seq<Profile>, k: nat)
    requires Acceptable(host, copies, ordered) && k < |copies|
    ensures copies[k].to != [] && Clear(Footprint(copies[k].to), copies[k].from)
  {
    AcceptedRunsKeepApart(host, copies, ordered);
  }

  lemma LooksTheSame(host: Host, s: Node, t: Node, c: Copy)
    requires Untouched(s, t, c)
    ensures Held(host, t, c.to) == Held(host, s, c.to)
    ensures Marked(host, t, c.to) == Marked(host, s, c.to)
    ensures Clean(t, c.to) == Clean(s, c.to)
    ensures Lookup(t, c.from) == Lookup(s, c.from)
  {
  }

  // What a copy does to its own four names, it does to nothing of any other copy.
  lemma OneCopyFurther(host: Host, start: Node, s: Node, t: Node, copies: seq<Copy>, ordered: seq<Profile>, k: nat)
    requires Acceptable(host, copies, ordered)
    requires k < |copies| && Through(host, start, s, copies, k)
    requires Replacing(host, s, t, copies[k].to, Lookup(s, copies[k].from)) && !Unowned(host, s, copies[k].to)
    ensures Midway(host, start, t, copies, k) && MidwaySomewhere(host, start, t, copies)
    ensures Committed(host, start, t, copies[k]) ==> Through(host, start, t, copies, k + 1)
  {
    hide SameOutside, Replacing, Acceptable, Committed, Untouched, OldOrNew, Settled, Unowned, SameFour, Lookup;
    var c := copies[k];
    ReplacedIsOldOrNew(host, start, s, t, c);
    WithinAllFootprints(s, t, copies, k);
    SameOutsideTransitive(start, s, t, AllFootprints(copies));
    forall j | 0 <= j < |copies| && j != k
      ensures Untouched(s, t, copies[j])
    {
      OtherCopiesUntouched(host, s, t, copies, ordered, k, j);
    }
    forall j | 0 <= j < k ensures Committed(host, start, t, copies[j]) {
      StillCommitted(host, start, s, t, copies[j]);
    }
    forall j | k < j < |copies| ensures Untouched(start, t, copies[j]) {
      StillUntouched(start, s, t, copies[j]);
    }
    assert Midway(host, start, t, copies, k);
  }

  lemma ReplacedIsOldOrNew(host: Host, start: Node, s: Node, t: Node, c: Copy)
    requires Untouched(start, s, c) && Replacing(host, s, t, c.to, Lookup(s, c.from)) && !Unowned(host, s, c.to)
    ensures OldOrNew(host, start, t, c) && Settled(host, t, c.to) && !Unowned(host, start, c.to)
    ensures SameOutside(s, t, Footprint(c.to))
  {
    LooksTheSame(host, start, s, c);
  }

  lemma StillCommitted(host: Host, start: Node, s: Node, t: Node, c: Copy)
    requires Committed(host, start, s, c) && Untouched(s, t, c)
    ensures Committed(host, start, t, c)
  {
    LooksTheSame(host, s, t, c);
    assert c.to in PathsOf(c);
  }

  lemma StillUntouched(start: Node, s: Node, t: Node, c: Copy)
    requires Untouched(start, s, c) && Untouched(s, t, c)
    ensures Untouched(start, t, c)
  {
  }

  lemma WithinAllFootprints(s: Node, t: Node, copies: seq<Copy>, k: nat)
    requires k < |copies| && SameOutside(s, t, Footprint(copies[k].to))
    ensures SameOutside(s, t, AllFootprints(copies))
  {
    var c := copies[k];
    forall p | p in Footprint(c.to) ensures exists o | o in AllFootprints(copies) :: o <= p {
      assert p in AllFootprints(copies) && p <= p;
    }
    SameOutsideWider(s, t, Footprint(c.to), AllFootprints(copies));
  }

  lemma OtherCopiesUntouched(host: Host, s: Node, t: Node, copies: seq<Copy>, ordered: seq<Profile>, k: nat, j: nat)
    requires Acceptable(host, copies, ordered)
    requires k < |copies| && j < |copies| && j != k && SameOutside(s, t, Footprint(copies[k].to))
    ensures Untouched(s, t, copies[j])
  {
    AcceptedRunsKeepApart(host, copies, ordered);
    forall q | q in PathsOf(copies[j]) ensures Lookup(t, q) == Lookup(s, q) {
      assert Clear(Footprint(copies[k].to), q);
    }
  }

  lemma AboutToCopy(host: Host, start: Node, s: Node, copies: seq<Copy>, k: nat)
    requires k < |copies| && Through(host, start, s, copies, k)
    ensures Midway(host, start, s, copies, k)
  {
    LooksTheSame(host, start, s, copies[k]);
  }

  // Whatever a run did, no source is different, nor any profile's own directory but the
  // one a restore was pointed at.
  lemma NothingElseIsWritten(host: Host, s: Node, t: Node, copies: seq<Copy>, ordered: seq<Profile>)
    requires Acceptable(host, copies, ordered) && SameOutside(s, t, AllFootprints(copies))
    ensures forall c | c in copies :: Lookup(t, c.from) == Lookup(s, c.from)
    ensures forall o | o in ordered && (forall c | c in copies && c.id == o.id :: c.from == OwnDir(host, o)) ::
              Lookup(t, OwnDir(host, o)) == Lookup(s, OwnDir(host, o))
  {
    AcceptedRunsKeepApart(host, copies, ordered);
    forall d | d in copies ensures Clear(AllFootprints(copies), d.from) {
    }
    forall o | o in ordered && (forall c | c in copies && c.id == o.id :: c.from == OwnDir(host, o))
      ensures Clear(AllFootprints(copies), OwnDir(host, o))
    {
      forall c, p | c in copies && p in Footprint(c.to) ensures Apart(p, OwnDir(host, o)) {
        if c.id != o.id {
          assert Clear(Footprint(c.to), OwnDir(host, o));
        } else {
          assert Clear(Footprint(c.to), c.from);
        }
      }
    }
  }

  lemma OneDestination(host: Host, s: Node, t: Node, copies: seq<Copy>, k: nat, j: nat)
    requires Midway(host, s, t, copies, k) && j < |copies|
    ensures OldOrNew(host, s, t, copies[j]) && (Settled(host, s, copies[j].to) ==> Settled(host, t, copies[j].to))
    ensures Unowned(host, s, copies[j].to) ==> SameFour(s, t, copies[j].to)
  {
    hide SameOutside, Marked, Beside;
    if j < k {
      CommittedIsNew(host, s, t, copies[j]);
    } else if j > k {
      UntouchedIsOld(host, s, t, copies[j]);
    }
  }

  lemma CommittedIsNew(host: Host, s: Node, t: Node, c: Copy)
    requires Committed(host, s, t, c)
    ensures OldOrNew(host, s, t, c) && Settled(host, t, c.to)
  {
  }

  lemma UntouchedIsOld(host: Host, s: Node, t: Node, c: Copy)
    requires Untouched(s, t, c)
    ensures OldOrNew(host, s, t, c) && Settled(host, t, c.to) == Settled(host, s, c.to) && SameFour(s, t, c.to)
  {
  }

  // At any moment of a run, every destination in it stands for what it stood for or for
  // the whole of its source; and what was found there that is not ours is as it was.
  lemma EveryDestinationIsOldOrNew(host: Host, s: Node, t: Node, copies: seq<Copy>)
    requires MidwaySomewhere(host, s, t, copies)
    ensures forall c | c in copies :: OldOrNew(host, s, t, c) && (Settled(host, s, c.to) ==> Settled(host, t, c.to))
    ensures forall c | c in copies && Unowned(host, s, c.to) :: SameFour(s, t, c.to)
  {
    hide Midway, OldOrNew, Settled, Unowned, SameFour;
    var k :| Midway(host, s, t, copies, k);
    forall c | c in copies
      ensures OldOrNew(host, s, t, c) && (Settled(host, s, c.to) ==> Settled(host, t, c.to))
      ensures Unowned(host, s, c.to) ==> SameFour(s, t, c.to)
    {
      var j :| 0 <= j < |copies| && copies[j] == c;
      OneDestination(host, s, t, copies, k, j);
    }
  }
}
