// Which copies a run will make, and the refusal of any run whose paths could meet.
module Plans {
  import opened Values
  import opened Wrappers
  import opened Trees
  import opened Paths
  import opened Lists
  import opened Swap

  datatype Profile = Profile(id: ProfileId, name: string, dir: RawPath)

  datatype Direction = ToBackup | FromBackup

  datatype Copy = Copy(id: ProfileId, profile: string, from: Path, to: Path)

  datatype RunError =
    | Running(names: seq<string>)
    | SameDirectory(profile: string, path: Path)
    | Overlap(profile: string, from: Path, to: Path)
    | ProfilesOverlap(firstProfile: string, secondProfile: string, first: Path, second: Path)
    | Unusable(profile: string, cause: SwapError)

  // ---- What a run asks for ----

  function OwnDir(host: Host, p: Profile): Path {
    Resolved(host.cwd, p.dir)
  }

  function BackupSpelling(directory: RawPath, id: ProfileId): RawPath {
    Join(Join(directory, [Normal("profiles")]), [Normal(id.text)])
  }

  function FromSpelling(directory: RawPath, direction: Direction, p: Profile): RawPath {
    if direction == ToBackup then p.dir else BackupSpelling(directory, p.id)
  }

  function ToSpelling(directory: RawPath, direction: Direction, p: Profile): RawPath {
    if direction == ToBackup then BackupSpelling(directory, p.id) else p.dir
  }

  // `Path::is_dir` on a path as spelled.
  predicate IsDirSpelled(host: Host, t: Node, p: RawPath) {
    var at := Walk(t, host.cwd, p);
    at.Some? && IsDir(t, at.value)
  }

  function CopyOf(host: Host, directory: RawPath, direction: Direction, p: Profile): Copy {
    Copy(p.id, p.name,
         Resolved(host.cwd, FromSpelling(directory, direction, p)),
         Resolved(host.cwd, ToSpelling(directory, direction, p)))
  }

  function CopiesOf(host: Host, t: Node, ordered: seq<Profile>, directory: RawPath, direction: Direction): seq<Copy> {
    if ordered == [] then []
    else
      var before, p := ordered[..|ordered| - 1], ordered[|ordered| - 1];
      CopiesOf(host, t, before, directory, direction)
      + (if IsDirSpelled(host, t, FromSpelling(directory, direction, p)) then [CopyOf(host, directory, direction, p)]
         else [])
  }

  function SkippedOf(host: Host, t: Node, ordered: seq<Profile>, directory: RawPath,
                     direction: Direction): seq<string> {
    if ordered == [] then []
    else
      var before, p := ordered[..|ordered| - 1], ordered[|ordered| - 1];
      SkippedOf(host, t, before, directory, direction)
      + (if IsDirSpelled(host, t, FromSpelling(directory, direction, p)) then [] else [p.name])
  }

  lemma {:induction false} CopiesComeFromProfiles(host: Host, t: Node, ordered: seq<Profile>, directory: RawPath,
                                                  direction: Direction)
    ensures forall c | c in CopiesOf(host, t, ordered, directory, direction) ::
              IsDir(t, c.from) && exists p | p in ordered :: c == CopyOf(host, directory, direction, p)
  {
    if ordered != [] {
      var before, p := ordered[..|ordered| - 1], ordered[|ordered| - 1];
      CopiesComeFromProfiles(host, t, before, directory, direction);
      if IsDirSpelled(host, t, FromSpelling(directory, direction, p)) {
        WalkIsResolved(t, host.cwd, FromSpelling(directory, direction, p));
      }
      assert ordered == before + [p];
    }
  }

  // Every profile is copied or named as skipped.
  lemma {:induction false} EveryProfileIsConsidered(host: Host, t: Node, ordered: seq<Profile>, directory: RawPath,
                                                    direction: Direction)
    ensures |CopiesOf(host, t, ordered, directory, direction)| + |SkippedOf(host, t, ordered, directory, direction)|
              == |ordered|
  {
    if ordered != [] {
      EveryProfileIsConsidered(host, t, ordered[..|ordered| - 1], directory, direction);
    }
  }

  // ---- Said of the profiles themselves ----

  // Where a backup at `directory` keeps a profile.
  function BackupPlace(host: Host, directory: RawPath, p: Profile): Path {
    Resolved(host.cwd, directory) + ["profiles", p.id.text]
  }

  // The profile's directory, as spelled, can be reached and is one.
  predicate HasData(host: Host, t: Node, p: Profile) {
    Walk(t, host.cwd, p.dir).Some? && IsDir(t, Resolved(host.cwd, p.dir))
  }

  // The backup, as spelled, can be reached and keeps a directory for the profile.
  predicate HasBackup(host: Host, t: Node, directory: RawPath, p: Profile) {
    Walk(t, host.cwd, directory).Some? && IsDir(t, BackupPlace(host, directory, p))
  }

  // Backing up reads each profile's own directory and writes its place in the backup, and
  // a restore is the other way about: for the profiles that have what is to be read, in
  // their order, the others being named.
  ghost predicate Asked(host: Host, t: Node, ordered: seq<Profile>, directory: RawPath, direction: Direction,
                        copies: seq<Copy>, skipped: seq<string>) {
    match direction
    case ToBackup =>
      && Selects(ordered, p => HasData(host, t, p),
                 (p: Profile) => Copy(p.id, p.name, Resolved(host.cwd, p.dir), BackupPlace(host, directory, p)), copies)
      && Selects(ordered, p => !HasData(host, t, p), (p: Profile) => p.name, skipped)
    case FromBackup =>
      && Selects(ordered, p => HasBackup(host, t, directory, p),
                 (p: Profile) => Copy(p.id, p.name, BackupPlace(host, directory, p), Resolved(host.cwd, p.dir)), copies)
      && Selects(ordered, p => !HasBackup(host, t, directory, p), (p: Profile) => p.name, skipped)
  }

  lemma ResolvedFirst(at: Path, p: RawPath)
    requires p != []
    ensures Resolved(at, p) == Resolved(Resolved(at, [p[0]]), p[1..])
  {
    assert [p[0]][1..] == [];
  }

  lemma {:induction false} ResolvedOnwards(at: Path, a: RawPath, b: RawPath)
    ensures Resolved(at, a + b) == Resolved(Resolved(at, a), b)
    decreases |a|
  {
    if a == [] {
      assert a + b == b;
    } else {
      assert (a + b)[1..] == a[1..] + b && (a + b)[0] == a[0];
      ResolvedFirst(at, a);
      ResolvedFirst(at, a + b);
      ResolvedOnwards(Resolved(at, [a[0]]), a[1..], b);
    }
  }

  lemma {:induction false} WalkOnwards(t: Node, at: Path, a: RawPath, b: RawPath)
    requires b != [] && b[0].Normal?
    ensures Walk(t, at, a + b).Some? ==> Walk(t, at, a).Some?
    ensures Walk(t, at, a).Some? ==> Walk(t, at, a + b) == Walk(t, Resolved(at, a), b)
    decreases |a|
  {
    if a == [] {
      assert a + b == b;
    } else {
      assert (a + b)[1..] == a[1..] + b && (a + b)[0] == a[0] && [a[0]][1..] == [];
      ResolvedFirst(at, a);
      WalkOnwards(t, Resolved(at, [a[0]]), a[1..], b);
    }
  }

  lemma BackupIsBelow(host: Host, t: Node, directory: RawPath, p: Profile)
    ensures Resolved(host.cwd, BackupSpelling(directory, p.id)) == BackupPlace(host, directory, p)
    ensures IsDirSpelled(host, t, BackupSpelling(directory, p.id)) <==> HasBackup(host, t, directory, p)
  {
    var names := [Normal("profiles"), Normal(p.id.text)];
    assert BackupSpelling(directory, p.id) == directory + names;
    ResolvedOnwards(host.cwd, directory, names);
    WalkOnwards(t, host.cwd, directory, names);
    var base, place := Resolved(host.cwd, directory), BackupPlace(host, directory, p);
    TwoNamesOn(t, base, "profiles", p.id.text);
  }

  lemma TwoNamesOn(t: Node, at: Path, a: Name, b: Name)
    ensures Resolved(at, [Normal(a), Normal(b)]) == at + [a, b]
    ensures IsDir(t, at + [a, b]) ==> Walk(t, at, [Normal(a), Normal(b)]).Some?
    ensures Walk(t, at, [Normal(a), Normal(b)]) in {None, Some(at + [a, b])}
  {
    var p := [Normal(a), Normal(b)];
    assert p[1..] == [Normal(b)] && p[1..][1..] == [];
    assert p[0] == Normal(a) && p[1..][0] == Normal(b);
    var next, place := at + [a], at + [a, b];
    assert next + [b] == place;
    assert Resolved(next, p[1..]) == Resolved(place, []) == place;
    assert Resolved(at, p) == place;
    assert Walk(t, at, p) == if IsDir(t, at) && Exists(t, next) then Walk(t, next, p[1..]) else None;
    assert Walk(t, next, p[1..]) == if IsDir(t, next) && Exists(t, place) then Walk(t, place, []) else None;
    if IsDir(t, at + [a, b]) {
      AncestorsAreDirectories(t, at, at + [a, b]);
      AncestorsAreDirectories(t, at + [a], at + [a, b]);
    }
  }

  lemma OwnIsSpelled(host: Host, t: Node, p: Profile)
    ensures IsDirSpelled(host, t, p.dir) <==> HasData(host, t, p)
  {
    if Walk(t, host.cwd, p.dir).Some? {
      WalkIsResolved(t, host.cwd, p.dir);
    }
  }

  lemma {:induction false} RunsAreAsAsked(host: Host, t: Node, ordered: seq<Profile>, directory: RawPath,
                                          direction: Direction)
    ensures Asked(host, t, ordered, directory, direction, CopiesOf(host, t, ordered, directory, direction),
                  SkippedOf(host, t, ordered, directory, direction))
  {
    hide Selects;
    if ordered == [] {
      if direction == ToBackup {
        SelectsNothing(p => HasData(host, t, p), (p: Profile) =>
            Copy(p.id, p.name, Resolved(host.cwd, p.dir), BackupPlace(host, directory, p)));
        SelectsNothing(p => !HasData(host, t, p), (p: Profile) => p.name);
      } else {
        SelectsNothing(p => HasBackup(host, t, directory, p), (p: Profile) =>
            Copy(p.id, p.name, BackupPlace(host, directory, p), Resolved(host.cwd, p.dir)));
        SelectsNothing(p => !HasBackup(host, t, directory, p), (p: Profile) => p.name);
      }
    } else {
      var before, p := ordered[..|ordered| - 1], ordered[|ordered| - 1];
      assert ordered == before + [p];
      RunsAreAsAsked(host, t, before, directory, direction);
      OneMoreAsked(host, t, before, p, directory, direction,
                   CopiesOf(host, t, before, directory, direction), SkippedOf(host, t, before, directory, direction));
    }
  }

  lemma OneMoreAsked(host: Host, t: Node, before: seq<Profile>, p: Profile, directory: RawPath, direction: Direction,
                     copies: seq<Copy>, skipped: seq<string>)
    requires Asked(host, t, before, directory, direction, copies, skipped)
    ensures var comes := IsDirSpelled(host, t, FromSpelling(directory, direction, p));
            Asked(host, t, before + [p], directory, direction,
                  copies + (if comes then [CopyOf(host, directory, direction, p)] else []),
                  skipped + (if comes then [] else [p.name]))
  {
    hide Selects, HasData, HasBackup, IsDirSpelled, BackupSpelling, BackupPlace;
    BackupIsBelow(host, t, directory, p);
    OwnIsSpelled(host, t, p);
    if direction == ToBackup {
      SelectsOneMore(before, p, p => HasData(host, t, p), (p: Profile) =>
          Copy(p.id, p.name, Resolved(host.cwd, p.dir), BackupPlace(host, directory, p)), copies);
      SelectsOneMore(before, p, p => !HasData(host, t, p), (p: Profile) => p.name, skipped);
    } else {
      SelectsOneMore(before, p, p => HasBackup(host, t, directory, p), (p: Profile) =>
          Copy(p.id, p.name, BackupPlace(host, directory, p), Resolved(host.cwd, p.dir)), copies);
      SelectsOneMore(before, p, p => !HasBackup(host, t, directory, p), (p: Profile) => p.name, skipped);
    }
  }

  // Without `..` in it, a spelling leads to a directory exactly when there is one in the
  // place it resolves to.
  predicate NeverGoesUp(p: RawPath) {
    forall i | 0 <= i < |p| :: p[i].Normal? || p[i].CurDir? || (i == 0 && p[i].RootDir?)
  }

  lemma {:induction false} NoWayUp(t: Node, at: Path, p: RawPath)
    requires forall i | 0 <= i < |p| :: p[i].Normal? || p[i].CurDir?
    ensures at <= Resolved(at, p)
    ensures IsDir(t, Resolved(at, p)) ==> Walk(t, at, p) == Some(Resolved(at, p))
    decreases |p|
  {
    if p != [] {
      var next := Resolved(at, [p[0]]);
      ResolvedFirst(at, p);
      assert [p[0]][1..] == [] && next == (if p[0].CurDir? then at else at + [p[0].name]);
      NoWayUp(t, next, p[1..]);
      if IsDir(t, Resolved(at, p)) && next < Resolved(at, p) {
        AncestorsAreDirectories(t, next, Resolved(at, p));
      }
      if IsDir(t, Resolved(at, p)) && at < Resolved(at, p) {
        AncestorsAreDirectories(t, at, Resolved(at, p));
      }
    }
  }

  lemma DataIsWhereItResolves(host: Host, t: Node, p: Profile)
    requires NeverGoesUp(p.dir)
    ensures HasData(host, t, p) <==> IsDir(t, Resolved(host.cwd, p.dir))
  {
    if p.dir != [] && p.dir[0].RootDir? {
      NoWayUp(t, [], p.dir[1..]);
    } else {
      NoWayUp(t, host.cwd, p.dir);
    }
  }

  // With it, it need not: `/gone/../here` resolves to `/here`, and cannot be reached.
  lemma ResolvedButNotReached(host: Host, id: ProfileId, name: string)
    ensures var t, p := Dir(map["here" := Dir(map[])]),
                        Profile(id, name, [RootDir, Normal("gone"), ParentDir, Normal("here")]);
            IsDir(t, Resolved(host.cwd, p.dir)) && !HasData(host, t, p)
  {
    var p: RawPath := [RootDir, Normal("gone"), ParentDir, Normal("here")];
    var t := Dir(map["here" := Dir(map[])]);
    ThereAndBack(t, "gone", "here");
    assert p == [RootDir] + [Normal("gone"), ParentDir, Normal("here")];
    assert !Exists(t, ["gone"]) && IsDir(t, ["here"]);
    hide Lookup;
  }

  lemma ThereAndBack(t: Node, away: Name, name: Name)
    ensures var p := [Normal(away), ParentDir, Normal(name)];
            Resolved([], p) == [name] && (!Exists(t, [away]) ==> Walk(t, [], p) == None)
  {
    hide Lookup;
    var p := [Normal(away), ParentDir, Normal(name)];
    var q := p[1..];
    OneStep([], p);
    OneStep([away], q);
    OneStep([], q[1..]);
    assert q == [ParentDir, Normal(name)] && q[1..] == [Normal(name)] && q[1..][1..] == [];
    hide Resolved;
    assert [] + [away] == [away] && [] + [name] == [name] && Up([away]) == [];
  }

  lemma OneStep(at: Path, p: RawPath)
    requires p != []
    ensures p[0].Normal? ==> Resolved(at, p) == Resolved(at + [p[0].name], p[1..])
    ensures p[0].ParentDir? ==> Resolved(at, p) == Resolved(Up(at), p[1..])
    ensures |p| == 1 && p[0].Normal? ==> Resolved(at, p) == at + [p[0].name]
  {
  }

  // ---- What makes a run acceptable ----

  function PathsOf(c: Copy): set<Path> {
    {c.from} + Footprint(c.to)
  }

  predicate OwnPathsApart(c: Copy) {
    c.from != c.to && forall p | p in Footprint(c.to) :: !Overlaps(c.from, p)
  }

  predicate ApartFromProfiles(host: Host, c: Copy, ordered: seq<Profile>) {
    forall p, o | p in Footprint(c.to) && o in ordered :: o.id == c.id || !Overlaps(p, OwnDir(host, o))
  }

  predicate CopiesApart(a: Copy, b: Copy) {
    forall p, q | p in PathsOf(a) && q in PathsOf(b) :: !Overlaps(p, q)
  }

  predicate Acceptable(host: Host, copies: seq<Copy>, ordered: seq<Profile>) {
    && (forall c | c in copies :: OwnPathsApart(c) && ApartFromProfiles(host, c, ordered))
    && (forall i, j | 0 <= i < j < |copies| :: CopiesApart(copies[i], copies[j]))
  }

  // What a refusal says is so.
  predicate Witnessed(host: Host, copies: seq<Copy>, ordered: seq<Profile>, error: RunError) {
    match error
    case SameDirectory(profile, path) =>
      exists c | c in copies :: c.profile == profile && c.from == c.to == path
    case Overlap(profile, from, to) =>
      exists c | c in copies :: c.profile == profile && c.from == from && to in Footprint(c.to) && Overlaps(from, to)
    case ProfilesOverlap(first, second, a, b) =>
      && Overlaps(a, b)
      && exists c | c in copies ::
        && c.profile == first && a in PathsOf(c)
        && ((exists o | o in ordered :: o.id != c.id && o.name == second && b == OwnDir(host, o))
            || (exists d | d in copies :: d.profile == second && b in PathsOf(d)))
    case _ => false
  }

  function FootprintInOrder(to: Path): (s: seq<Path>)
    ensures forall p :: p in s <==> p in Footprint(to)
  {
    [to, Staged(to), Displaced(to), Ownership(to)]
  }

  function PathsInOrder(c: Copy): (s: seq<Path>)
    ensures forall p :: p in s <==> p in PathsOf(c)
  {
    [c.from] + FootprintInOrder(c.to)
  }

  // ---- The decision, as it is made ----

  method ResolveNames(host: Host, t: Node, p: RawPath) returns (names: Path)
    ensures names == Resolved(host.cwd, p)
  {
    var resolved := Resolve(t, Some(host.cwd), p);
    NamesOfSpelled(Resolved(host.cwd, p));
    names := Names(resolved);
  }

  // Every profile's own directory, resolved once.
  method ResolveOwnDirs(host: Host, t: Node, profiles: seq<Profile>) returns (resolved: seq<Path>)
    ensures |resolved| == |profiles|
    ensures forall j | 0 <= j < |profiles| :: resolved[j] == OwnDir(host, profiles[j])
  {
    resolved := [];
    for i := 0 to |profiles|
      invariant |resolved| == i
      invariant forall j | 0 <= j < i :: resolved[j] == OwnDir(host, profiles[j])
    {
      var dir := ResolveNames(host, t, profiles[i].dir);
      resolved := resolved + [dir];
    }
  }

  method Plan(host: Host, t: Node, ordered: seq<Profile>, directory: RawPath, direction: Direction)
    returns (r: Result<(seq<Copy>, seq<string>), RunError>)
    ensures r.Ok? <==> Acceptable(host, CopiesOf(host, t, ordered, directory, direction), ordered)
    ensures r.Ok? ==> r.value.0 == CopiesOf(host, t, ordered, directory, direction)
    ensures r.Ok? ==> r.value.1 == SkippedOf(host, t, ordered, directory, direction)
    ensures r.Ok? ==> Asked(host, t, ordered, directory, direction, r.value.0, r.value.1)
    ensures r.Err? ==> Witnessed(host, CopiesOf(host, t, ordered, directory, direction), ordered, r.error)
  {
    hide Asked;
    RunsAreAsAsked(host, t, ordered, directory, direction);
    var sources := ResolveOwnDirs(host, t, ordered);
    var copies, skipped := Gather(host, t, ordered, directory, direction);
    var refusal := CheckEach(host, copies, ordered, sources);
    if refusal.None? {
      refusal := CheckPairs(copies, ordered);
    }
    return if refusal.Some? then Err(refusal.value) else Ok((copies, skipped));
  }

  method Gather(host: Host, t: Node, ordered: seq<Profile>, directory: RawPath, direction: Direction)
    returns (copies: seq<Copy>, skipped: seq<string>)
    ensures copies == CopiesOf(host, t, ordered, directory, direction)
    ensures skipped == SkippedOf(host, t, ordered, directory, direction)
  {
    copies, skipped := [], [];
    for i := 0 to |ordered|
      invariant copies == CopiesOf(host, t, ordered[..i], directory, direction)
      invariant skipped == SkippedOf(host, t, ordered[..i], directory, direction)
    {
      var p := ordered[i];
      assert ordered[..i + 1][..|ordered[..i + 1]| - 1] == ordered[..i];
      var from := FromSpelling(directory, direction, p);
      if !IsDirSpelled(host, t, from) {
        skipped := skipped + [p.name];
      } else {
        var to := ResolveNames(host, t, ToSpelling(directory, direction, p));
        var source := ResolveNames(host, t, from);
        copies := copies + [Copy(p.id, p.name, source, to)];
      }
    }
    assert ordered[..|ordered|] == ordered;
  }

  method CheckEach(host: Host, copies: seq<Copy>, ordered: seq<Profile>, sources: seq<Path>)
    returns (refusal: Option<RunError>)
    requires |sources| == |ordered| && forall j | 0 <= j < |ordered| :: sources[j] == OwnDir(host, ordered[j])
    ensures refusal.None? <==> forall c | c in copies :: OwnPathsApart(c) && ApartFromProfiles(host, c, ordered)
    ensures refusal.Some? ==> Witnessed(host, copies, ordered, refusal.value)
  {
    for i := 0 to |copies|
      invariant forall c | c in copies[..i] :: OwnPathsApart(c) && ApartFromProfiles(host, c, ordered)
    {
      refusal := CheckAlone(host, copies, i, ordered, sources);
      if refusal.Some? {
        return;
      }
      assert copies[..i + 1] == copies[..i] + [copies[i]];
    }
    assert copies[..|copies|] == copies;
    return None;
  }

  method CheckPairs(copies: seq<Copy>, ordered: seq<Profile>) returns (refusal: Option<RunError>)
    ensures refusal.None? <==> forall i, j | 0 <= i < j < |copies| :: CopiesApart(copies[i], copies[j])
    ensures forall host :: refusal.Some? ==> Witnessed(host, copies, ordered, refusal.value)
  {
    hide CopiesApart, Witnessed;
    for i := 0 to |copies|
      invariant forall k, j | 0 <= k < i && k < j < |copies| :: CopiesApart(copies[k], copies[j])
    {
      refusal := CheckAgainstLater(copies, i, ordered);
      if refusal.Some? {
        return;
      }
    }
    return None;
  }

  // A path is off everything a copy reads or writes.
  predicate OffAll(a: Path, c: Copy) {
    forall q | q in PathsOf(c) :: !Overlaps(a, q)
  }

  // The paths of one copy, one by one, against every copy after it.
  method CheckAgainstLater(copies: seq<Copy>, i: nat, ordered: seq<Profile>) returns (refusal: Option<RunError>)
    requires i < |copies|
    ensures refusal.None? <==> forall j | i < j < |copies| :: CopiesApart(copies[i], copies[j])
    ensures forall host :: refusal.Some? ==> Witnessed(host, copies, ordered, refusal.value)
  {
    hide Witnessed, PathsOf, Overlaps, OffAll;
    var paths := PathsInOrder(copies[i]);
    for k := 0 to |paths|
      invariant forall p, j | p in paths[..k] && i < j < |copies| :: OffAll(p, copies[j])
    {
      var met := FirstToMeet(paths[k], copies, i);
      if met.Some? {
        assert paths[k] in paths;
        MeetingIsWitness(copies, ordered, i, met.value.0, paths[k], met.value.1);
        return Some(ProfilesOverlap(copies[i].profile, copies[met.value.0].profile, paths[k], met.value.1));
      }
      assert paths[..k + 1] == paths[..k] + [paths[k]];
    }
    assert paths[..|paths|] == paths;
    forall j | i < j < |copies| ensures CopiesApart(copies[i], copies[j]) {
      ApartByPaths(copies[i], copies[j]);
    }
    return None;
  }

  lemma ApartByPaths(a: Copy, b: Copy)
    ensures CopiesApart(a, b) <==> forall p | p in PathsOf(a) :: OffAll(p, b)
  {
  }

  method FirstToMeet(a: Path, copies: seq<Copy>, i: nat) returns (met: Option<(nat, Path)>)
    requires i < |copies|
    ensures met.None? <==> forall j | i < j < |copies| :: OffAll(a, copies[j])
    ensures met.Some? ==> i < met.value.0 < |copies| && met.value.1 in PathsOf(copies[met.value.0])
                          && Overlaps(a, met.value.1)
  {
    hide PathsOf, Overlaps, OffAll;
    for j := i + 1 to |copies|
      invariant forall l | i < l < j :: OffAll(a, copies[l])
    {
      var b := FirstMeeting(a, copies[j]);
      if b.Some? {
        return Some((j, b.value));
      }
    }
    return None;
  }

  method FirstMeeting(a: Path, c: Copy) returns (b: Option<Path>)
    ensures b.None? <==> OffAll(a, c)
    ensures b.Some? ==> b.value in PathsOf(c) && Overlaps(a, b.value)
  {
    hide PathsOf, Overlaps;
    var paths := PathsInOrder(c);
    for k := 0 to |paths|
      invariant forall q | q in paths[..k] :: !Overlaps(a, q)
    {
      if Overlaps(a, paths[k]) {
        assert paths[k] in paths;
        return Some(paths[k]);
      }
      assert paths[..k + 1] == paths[..k] + [paths[k]];
    }
    assert paths[..|paths|] == paths;
    return None;
  }

  lemma MeetingIsWitness(copies: seq<Copy>, ordered: seq<Profile>, i: nat, j: nat, a: Path, b: Path)
    requires i < |copies| && j < |copies| && a in PathsOf(copies[i]) && b in PathsOf(copies[j]) && Overlaps(a, b)
    ensures forall host :: Witnessed(host, copies, ordered, ProfilesOverlap(copies[i].profile, copies[j].profile, a, b))
  {
    hide PathsOf, Overlaps;
    assert copies[i] in copies && copies[j] in copies;
  }

  // One name of a copy against every other profile's own directory.
  method FirstNear(host: Host, p: Path, id: ProfileId, ordered: seq<Profile>, sources: seq<Path>)
    returns (at: Option<nat>)
    requires |sources| == |ordered| && forall j | 0 <= j < |ordered| :: sources[j] == OwnDir(host, ordered[j])
    ensures at.None? <==> forall o | o in ordered :: o.id == id || !Overlaps(p, OwnDir(host, o))
    ensures at.Some? ==> at.value < |ordered| && ordered[at.value].id != id && Overlaps(p, sources[at.value])
  {
    hide Overlaps, OwnDir;
    for j := 0 to |ordered|
      invariant forall o | o in ordered[..j] :: o.id == id || !Overlaps(p, OwnDir(host, o))
    {
      var o := ordered[j];
      if o.id != id && Overlaps(p, sources[j]) {
        return Some(j);
      }
      assert ordered[..j + 1] == ordered[..j] + [o];
    }
    assert ordered[..|ordered|] == ordered;
    return None;
  }

  // What keeps a name of a copy clear: its own source, and every other profile's directory.
  predicate NameClear(host: Host, c: Copy, p: Path, ordered: seq<Profile>) {
    !Overlaps(c.from, p) && forall o | o in ordered :: o.id == c.id || !Overlaps(p, OwnDir(host, o))
  }

  // One copy against itself and against every other profile's own directory.
  method CheckAlone(host: Host, copies: seq<Copy>, at: nat, ordered: seq<Profile>, sources: seq<Path>)
    returns (refusal: Option<RunError>)
    requires at < |copies| && |sources| == |ordered|
    requires forall j | 0 <= j < |ordered| :: sources[j] == OwnDir(host, ordered[j])
    ensures refusal.None? <==> OwnPathsApart(copies[at]) && ApartFromProfiles(host, copies[at], ordered)
    ensures refusal.Some? ==> Witnessed(host, copies, ordered, refusal.value)
  {
    hide Overlaps, OwnDir, Footprint, Witnessed, NameClear, OwnPathsApart, ApartFromProfiles;
    var c := copies[at];
    var paths := FootprintInOrder(c.to);
    NamesClear(host, c, ordered);
    assert c.to in paths;
    if c.from == c.to {
      WitnessedAlone(host, copies, at, ordered, c.to, None);
      return Some(SameDirectory(c.profile, c.from));
    }
    for i := 0 to |paths|
      invariant forall p | p in paths[..i] :: NameClear(host, c, p, ordered)
    {
      var p := paths[i];
      assert p in Footprint(c.to);
      OneNameClear(host, c, p, ordered);
      if Overlaps(c.from, p) {
        WitnessedAlone(host, copies, at, ordered, p, None);
        return Some(Overlap(c.profile, c.from, p));
      }
      var near := FirstNear(host, p, c.id, ordered, sources);
      if near.Some? {
        WitnessedAlone(host, copies, at, ordered, p, Some(ordered[near.value]));
        return Some(ProfilesOverlap(c.profile, ordered[near.value].name, p, sources[near.value]));
      }
      assert paths[..i + 1] == paths[..i] + [p];
    }
    assert paths[..|paths|] == paths;
    return None;
  }

  lemma OneNameClear(host: Host, c: Copy, p: Path, ordered: seq<Profile>)
    ensures NameClear(host, c, p, ordered) <==>
              !Overlaps(c.from, p) && forall o | o in ordered :: o.id == c.id || !Overlaps(p, OwnDir(host, o))
  {
  }

  lemma NamesClear(host: Host, c: Copy, ordered: seq<Profile>)
    ensures OwnPathsApart(c) && ApartFromProfiles(host, c, ordered) <==>
              c.from != c.to && forall p | p in Footprint(c.to) :: NameClear(host, c, p, ordered)
  {
    hide Overlaps, OwnDir, Footprint;
  }

  // A refusal over one copy says what is so.
  lemma WitnessedAlone(host: Host, copies: seq<Copy>, at: nat, ordered: seq<Profile>, p: Path, other: Option<Profile>)
    requires at < |copies| && p in Footprint(copies[at].to)
    ensures var c := copies[at];
            && (c.from == c.to ==> Witnessed(host, copies, ordered, SameDirectory(c.profile, c.from)))
            && (Overlaps(c.from, p) ==> Witnessed(host, copies, ordered, Overlap(c.profile, c.from, p)))
            && (other.Some? && other.value in ordered && other.value.id != c.id
                && Overlaps(p, OwnDir(host, other.value)) ==>
                  var dir := OwnDir(host, other.value);
                  Witnessed(host, copies, ordered, ProfilesOverlap(c.profile, other.value.name, p, dir)))
  {
    hide Overlaps, OwnDir, Footprint;
    var c := copies[at];
    assert c in copies && p in PathsOf(c);
  }

  // ---- What acceptance buys ----

  // No source, and no other profile's own directory, is anywhere near what a run may
  // write; nor are two copies' destinations near each other, suffixes included.
  lemma AcceptedRunsKeepApart(host: Host, copies: seq<Copy>, ordered: seq<Profile>)
    requires Acceptable(host, copies, ordered)
    ensures forall c | c in copies :: c.to != []
    ensures forall c, d | c in copies && d in copies :: Clear(Footprint(c.to), d.from)
    ensures forall i, j | 0 <= i < |copies| && 0 <= j < |copies| && i != j ::
              forall p | p in PathsOf(copies[j]) :: Clear(Footprint(copies[i].to), p)
    ensures forall c, o | c in copies && o in ordered && o.id != c.id :: Clear(Footprint(c.to), OwnDir(host, o))
  {
    forall c | c in copies ensures c.to != [] {
      assert !Overlaps(c.from, c.to);
    }
    forall i, j, p, q | 0 <= i < |copies| && 0 <= j < |copies| && i != j && p in PathsOf(copies[j])
        && q in Footprint(copies[i].to)
      ensures Apart(q, p)
    {
      if i < j {
        assert CopiesApart(copies[i], copies[j]);
        assert !Overlaps(q, p);
      } else {
        assert CopiesApart(copies[j], copies[i]);
        assert !Overlaps(p, q);
      }
    }
    forall c, d, q | c in copies && d in copies && q in Footprint(c.to) ensures Apart(q, d.from) {
      var i :| 0 <= i < |copies| && copies[i] == c;
      var j :| 0 <= j < |copies| && copies[j] == d;
      if i == j {
        assert OwnPathsApart(c) && !Overlaps(c.from, q);
      } else {
        assert d.from in PathsOf(copies[j]);
      }
    }
    forall c, o, q | c in copies && o in ordered && o.id != c.id && q in Footprint(c.to)
      ensures Apart(q, OwnDir(host, o))
    {
      assert ApartFromProfiles(host, c, ordered);
      assert !Overlaps(q, OwnDir(host, o));
    }
  }

  // ---- Which runs are accepted, said of the profiles ----

  predicate Goes(host: Host, t: Node, directory: RawPath, direction: Direction, p: Profile) {
    if direction == ToBackup then HasData(host, t, p) else HasBackup(host, t, directory, p)
  }

  function Source(host: Host, directory: RawPath, direction: Direction, p: Profile): Path {
    if direction == ToBackup then Resolved(host.cwd, p.dir) else BackupPlace(host, directory, p)
  }

  function Target(host: Host, directory: RawPath, direction: Direction, p: Profile): Path {
    if direction == ToBackup then BackupPlace(host, directory, p) else Resolved(host.cwd, p.dir)
  }

  predicate AllApart(a: set<Path>, b: set<Path>) {
    forall p, q | p in a && q in b :: Apart(p, q)
  }

  // The four names of the profile's target are apart from its source and from the
  // directory of every other profile, there or not.
  ghost predicate OneKeepsApart(host: Host, ordered: seq<Profile>, directory: RawPath, direction: Direction,
                                p: Profile) {
    var target := Footprint(Target(host, directory, direction, p));
    && Clear(target, Source(host, directory, direction, p))
    && forall o | o in ordered && o.id != p.id :: Clear(target, Resolved(host.cwd, o.dir))
  }

  // And no two profiles that go have anything to do with each other.
  ghost predicate TwoKeepApart(host: Host, directory: RawPath, direction: Direction, p: Profile, q: Profile) {
    AllApart({Source(host, directory, direction, p)} + Footprint(Target(host, directory, direction, p)),
             {Source(host, directory, direction, q)} + Footprint(Target(host, directory, direction, q)))
  }

  ghost predicate KeepsApart(host: Host, t: Node, ordered: seq<Profile>, directory: RawPath, direction: Direction) {
    && (forall p | p in ordered && Goes(host, t, directory, direction, p) ::
          OneKeepsApart(host, ordered, directory, direction, p))
    && (forall i, j | 0 <= i < j < |ordered| && Goes(host, t, directory, direction, ordered[i])
            && Goes(host, t, directory, direction, ordered[j]) ::
          TwoKeepApart(host, directory, direction, ordered[i], ordered[j]))
  }

  function CopyFor(host: Host, directory: RawPath, direction: Direction, p: Profile): Copy {
    Copy(p.id, p.name, Source(host, directory, direction, p), Target(host, directory, direction, p))
  }

  // `from` says which profile each copy is of.
  ghost predicate CopiesFrom(host: Host, t: Node, ordered: seq<Profile>, directory: RawPath, direction: Direction,
                             copies: seq<Copy>, from: seq<nat>) {
    && |copies| == |from|
    && (forall k, l | 0 <= k < l < |from| :: from[k] < from[l])
    && (forall k | 0 <= k < |from| ::
          && from[k] < |ordered| && Goes(host, t, directory, direction, ordered[from[k]])
          && copies[k] == CopyFor(host, directory, direction, ordered[from[k]]))
    && (forall i | 0 <= i < |ordered| && Goes(host, t, directory, direction, ordered[i]) :: i in from)
  }

  lemma CopiesAreThoseThatGo(host: Host, t: Node, ordered: seq<Profile>, directory: RawPath, direction: Direction)
    returns (from: seq<nat>)
    ensures CopiesFrom(host, t, ordered, directory, direction,
                       CopiesOf(host, t, ordered, directory, direction), from)
  {
    hide Resolved, HasData, HasBackup, BackupPlace, CopiesOf;
    RunsAreAsAsked(host, t, ordered, directory, direction);
    var copies := CopiesOf(host, t, ordered, directory, direction);
    if direction == ToBackup {
      from :| SelectsFrom(ordered, p => HasData(host, t, p), (p: Profile) =>
          Copy(p.id, p.name, Resolved(host.cwd, p.dir), BackupPlace(host, directory, p)), copies, from);
      GoingToBackup(host, t, ordered, directory, copies, from);
    } else {
      from :| SelectsFrom(ordered, p => HasBackup(host, t, directory, p), (p: Profile) =>
          Copy(p.id, p.name, BackupPlace(host, directory, p), Resolved(host.cwd, p.dir)), copies, from);
      GoingBack(host, t, ordered, directory, copies, from);
    }
  }

  lemma GoingToBackup(host: Host, t: Node, ordered: seq<Profile>, directory: RawPath, copies: seq<Copy>, from: seq<nat>)
    requires SelectsFrom(ordered, p => HasData(host, t, p), (p: Profile) =>
                 Copy(p.id, p.name, Resolved(host.cwd, p.dir), BackupPlace(host, directory, p)), copies, from)
    ensures CopiesFrom(host, t, ordered, directory, ToBackup, copies, from)
  {
    hide Resolved, HasData, BackupPlace;
  }

  lemma GoingBack(host: Host, t: Node, ordered: seq<Profile>, directory: RawPath, copies: seq<Copy>, from: seq<nat>)
    requires SelectsFrom(ordered, p => HasBackup(host, t, directory, p), (p: Profile) =>
                 Copy(p.id, p.name, BackupPlace(host, directory, p), Resolved(host.cwd, p.dir)), copies, from)
    ensures CopiesFrom(host, t, ordered, directory, FromBackup, copies, from)
  {
    hide Resolved, HasBackup, BackupPlace;
  }

  lemma IsItsOwn(to: Path)
    ensures to in Footprint(to)
  {
  }

  lemma OneIsAccepted(host: Host, ordered: seq<Profile>, directory: RawPath, direction: Direction, p: Profile)
    ensures var c := CopyFor(host, directory, direction, p);
            (OwnPathsApart(c) && ApartFromProfiles(host, c, ordered)) <==>
                OneKeepsApart(host, ordered, directory, direction, p)
  {
    hide Source, Target, Footprint, Resolved;
    forall a, b { OverlapsIsCommonDescendant(a, b); }
    IsItsOwn(Target(host, directory, direction, p));
  }

  lemma TwoAreAccepted(host: Host, directory: RawPath, direction: Direction, p: Profile, q: Profile)
    ensures CopiesApart(CopyFor(host, directory, direction, p), CopyFor(host, directory, direction, q))
        <==> TwoKeepApart(host, directory, direction, p, q)
  {
    hide Source, Target, Footprint;
    forall a, b { OverlapsIsCommonDescendant(a, b); }
  }

  // A run is accepted exactly when these paths are apart: nothing else is ever refused.
  lemma AcceptedExactlyWhenApart(host: Host, t: Node, ordered: seq<Profile>, directory: RawPath, direction: Direction)
    ensures Acceptable(host, CopiesOf(host, t, ordered, directory, direction), ordered)
        <==> KeepsApart(host, t, ordered, directory, direction)
  {
    hide CopiesOf, Acceptable, KeepsApart, CopiesFrom;
    var copies := CopiesOf(host, t, ordered, directory, direction);
    var from := CopiesAreThoseThatGo(host, t, ordered, directory, direction);
    if Acceptable(host, copies, ordered) {
      AcceptedKeepApart(host, t, ordered, directory, direction, copies, from);
    }
    if KeepsApart(host, t, ordered, directory, direction) {
      ApartAreAccepted(host, t, ordered, directory, direction, copies, from);
    }
  }

  lemma AcceptedKeepApart(host: Host, t: Node, ordered: seq<Profile>, directory: RawPath, direction: Direction,
                          copies: seq<Copy>, from: seq<nat>)
    requires CopiesFrom(host, t, ordered, directory, direction, copies, from) && Acceptable(host, copies, ordered)
    ensures KeepsApart(host, t, ordered, directory, direction)
  {
    hide OwnPathsApart, ApartFromProfiles, CopiesApart, OneKeepsApart, TwoKeepApart, Goes, CopyFor;
    forall p | p in ordered && Goes(host, t, directory, direction, p)
      ensures OneKeepsApart(host, ordered, directory, direction, p)
    {
      var i :| 0 <= i < |ordered| && ordered[i] == p;
      var k :| 0 <= k < |from| && from[k] == i;
      assert copies[k] in copies;
      OneIsAccepted(host, ordered, directory, direction, p);
    }
    forall i, j | 0 <= i < j < |ordered| && Goes(host, t, directory, direction, ordered[i])
        && Goes(host, t, directory, direction, ordered[j])
      ensures TwoKeepApart(host, directory, direction, ordered[i], ordered[j])
    {
      var k :| 0 <= k < |from| && from[k] == i;
      var l :| 0 <= l < |from| && from[l] == j;
      assert k < l;
      assert CopiesApart(copies[k], copies[l]);
      TwoAreAccepted(host, directory, direction, ordered[i], ordered[j]);
    }
  }

  lemma ApartAreAccepted(host: Host, t: Node, ordered: seq<Profile>, directory: RawPath, direction: Direction,
                         copies: seq<Copy>, from: seq<nat>)
    requires CopiesFrom(host, t, ordered, directory, direction, copies, from)
    requires KeepsApart(host, t, ordered, directory, direction)
    ensures Acceptable(host, copies, ordered)
  {
    hide OwnPathsApart, ApartFromProfiles, CopiesApart, OneKeepsApart, TwoKeepApart, Goes, CopyFor;
    forall c | c in copies ensures OwnPathsApart(c) && ApartFromProfiles(host, c, ordered) {
      var k :| 0 <= k < |copies| && copies[k] == c;
      assert ordered[from[k]] in ordered;
      OneIsAccepted(host, ordered, directory, direction, ordered[from[k]]);
    }
    forall k, l | 0 <= k < l < |copies| ensures CopiesApart(copies[k], copies[l]) {
      TwoAreAccepted(host, directory, direction, ordered[from[k]], ordered[from[l]]);
    }
  }

  // Profiles side by side in one directory, each under a name of its own, and a backup
  // somewhere else.
  ghost predicate Ordinary(host: Host, ordered: seq<Profile>, directory: RawPath, data: Path, names: seq<Name>) {
    && |names| == |ordered|
    && (forall i | 0 <= i < |ordered| :: Resolved(host.cwd, ordered[i].dir) == data + [names[i]])
    && (forall i, j | 0 <= i < |ordered| && 0 <= j < |ordered| && i != j ::
          Unlike(names[i], names[j]) && Unlike(ordered[i].id.text, ordered[j].id.text))
    && Apart(data, Resolved(host.cwd, directory) + ["profiles"])
  }

  lemma BelowApart(a: Path, b: Path, p: Path, q: Path)
    requires Apart(a, b) && a <= p && b <= q
    ensures Apart(p, q)
  {
    if p <= q {
      PrefixesOfOne(a, b, q);
    }
    if q <= p {
      PrefixesOfOne(a, b, p);
    }
  }

  lemma FootprintIsBelow(up: Path, name: Name)
    ensures forall p | p in Footprint(up + [name]) :: up <= p
  {
    FootprintApart(up + [name]);
    assert Parent(up + [name]) == up;
  }

  // Wherever the data is, such a run is accepted, in either direction.
  lemma OrdinaryRunsAreAccepted(host: Host, t: Node, ordered: seq<Profile>, directory: RawPath, direction: Direction,
                                data: Path, names: seq<Name>)
    requires Ordinary(host, ordered, directory, data, names)
    ensures Acceptable(host, CopiesOf(host, t, ordered, directory, direction), ordered)
  {
    hide Goes, OneKeepsApart, TwoKeepApart, Unlike, Resolved, CopiesOf, Footprint, Apart;
    AcceptedExactlyWhenApart(host, t, ordered, directory, direction);
    forall i | 0 <= i < |ordered| ensures OneKeepsApart(host, ordered, directory, direction, ordered[i]) {
      OrdinaryOne(host, ordered, directory, direction, data, names, i);
    }
    forall i, j | 0 <= i < j < |ordered|
      ensures TwoKeepApart(host, directory, direction, ordered[i], ordered[j])
    {
      OrdinaryTwo(host, ordered, directory, direction, data, names, i, j);
    }
  }

  // Where the four names of a profile's two places are.
  lemma PlacesApart(host: Host, ordered: seq<Profile>, directory: RawPath, data: Path, names: seq<Name>, i: nat, j: nat)
    requires Ordinary(host, ordered, directory, data, names) && i < |ordered| && j < |ordered|
    ensures var a, b := Resolved(host.cwd, ordered[i].dir), BackupPlace(host, directory, ordered[j]);
            AllApart(Footprint(a), Footprint(b)) && AllApart(Footprint(b), Footprint(a))
  {
    hide Footprint, Apart, Resolved;
    var base := Resolved(host.cwd, directory) + ["profiles"];
    assert BackupPlace(host, directory, ordered[j]) == base + [ordered[j].id.text];
    FootprintIsBelow(data, names[i]);
    FootprintIsBelow(base, ordered[j].id.text);
    forall p, q | p in Footprint(data + [names[i]]) && q in Footprint(base + [ordered[j].id.text])
      ensures Apart(p, q) && Apart(q, p)
    {
      BelowApart(data, base, p, q);
      ApartBothWays(p, q);
    }
  }

  lemma ApartBothWays(p: Path, q: Path)
    ensures Apart(p, q) == Apart(q, p)
  {
  }

  lemma SidesApart(up: Path, a: Name, b: Name)
    requires Unlike(a, b)
    ensures AllApart(Footprint(up + [a]), Footprint(up + [b]))
  {
    NeighboursApart(up, a, b);
    NeighboursApart(up, b, a);
    FootprintsStayApart(up + [a], up + [b]);
  }

  lemma OrdinaryOne(host: Host, ordered: seq<Profile>, directory: RawPath, direction: Direction, data: Path,
                    names: seq<Name>, i: nat)
    requires Ordinary(host, ordered, directory, data, names) && i < |ordered|
    ensures OneKeepsApart(host, ordered, directory, direction, ordered[i])
  {
    hide Footprint, Apart, Resolved, BackupPlace, Unlike;
    forall to { IsItsOwn(to); }
    PlacesApart(host, ordered, directory, data, names, i, i);
    forall o | o in ordered && o.id != ordered[i].id
      ensures Clear(Footprint(Target(host, directory, direction, ordered[i])), Resolved(host.cwd, o.dir))
    {
      var j :| 0 <= j < |ordered| && ordered[j] == o;
      if direction == ToBackup {
        PlacesApart(host, ordered, directory, data, names, j, i);
      } else {
        SidesApart(data, names[i], names[j]);
      }
    }
  }

  lemma OrdinaryTwo(host: Host, ordered: seq<Profile>, directory: RawPath, direction: Direction, data: Path,
                    names: seq<Name>, i: nat, j: nat)
    requires Ordinary(host, ordered, directory, data, names) && i < |ordered| && j < |ordered| && i != j
    ensures TwoKeepApart(host, directory, direction, ordered[i], ordered[j])
  {
    hide Footprint, Apart, Resolved, Unlike;
    forall to { IsItsOwn(to); }
    PlacesApart(host, ordered, directory, data, names, i, j);
    PlacesApart(host, ordered, directory, data, names, j, i);
    SidesApart(data, names[i], names[j]);
    var base := Resolved(host.cwd, directory) + ["profiles"];
    SidesApart(base, ordered[i].id.text, ordered[j].id.text);
    assert BackupPlace(host, directory, ordered[i]) == base + [ordered[i].id.text];
    assert BackupPlace(host, directory, ordered[j]) == base + [ordered[j].id.text];
  }
}
