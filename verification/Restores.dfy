// Restore: making an installation be what a document says, all of it or none of it.
module Restores {
  import opened Values
  import opened Wrappers
  import opened Lists
  import opened Configuration
  import opened Imports

  datatype Mode = OnlyWhenEmpty | Replace

  datatype RestorePlan = RestorePlan(cores: seq<Core>, proxies: seq<Proxy>, profiles: seq<Profile>, notes: Notes)

  datatype RestoreError =
    | NotEmpty(present: Counts)
    | Duplicate(kind: Kind)
    | Unacceptable(kind: Kind, name: string)
    | Unresolved(name: string, kind: Kind)
    | CredentialsExcluded(count: nat)

  // `repeats`
  method Repeats(ids: seq<Id>) returns (twice: bool)
    ensures twice <==> exists i, j :: 0 <= i < j < |ids| && ids[i] == ids[j]
  {
    var seen: set<Id> := {};
    for j := 0 to |ids|
      invariant seen == set i | 0 <= i < j :: ids[i]
      invariant forall i, k | 0 <= i < k < j :: ids[i] != ids[k]
    {
      if ids[j] in seen {
        return true;
      }
      seen := seen + {ids[j]};
    }
    return false;
  }

  function Mapped<T, U>(records: seq<T>, f: T -> U): seq<U> {
    seq(|records|, i requires 0 <= i < |records| => f(records[i]))
  }

  // ---- What a document can be refused for ----

  predicate Unrepeated(document: Document) {
    && DistinctBy(document.cores, CoreKey)
    && DistinctBy(document.proxies, ProxyKey)
    && DistinctBy(document.profiles, ProfileKey)
  }

  predicate FirstRepeated(document: Document, kind: Kind) {
    match kind
    case CoreKind => !DistinctBy(document.cores, CoreKey)
    case ProxyKind => DistinctBy(document.cores, CoreKey) && !DistinctBy(document.proxies, ProxyKey)
    case ProfileKind =>
      DistinctBy(document.cores, CoreKey) && DistinctBy(document.proxies, ProxyKey)
          && !DistinctBy(document.profiles, ProfileKey)
  }

  predicate CoresPass(rules: Rules, document: Document) {
    forall c | c in document.cores :: ValidCore(rules, c)
  }

  predicate ProxiesPass(rules: Rules, document: Document) {
    forall p | p in document.proxies :: ValidProxy(rules, p)
  }

  // The document is all a profile's references can lead to.
  function Fault(rules: Rules, document: Document, p: Profile): Option<RestoreError> {
    if !ValidProfile(rules, p) then Some(Unacceptable(ProfileKind, p.shown.name))
    else if p.core !in Ids(document.cores, CoreKey) then Some(Unresolved(p.shown.name, CoreKind))
    else if Astray(Ids(document.proxies, ProxyKey), p) then Some(Unresolved(p.shown.name, ProxyKind))
    else None
  }

  predicate Faultless(rules: Rules, document: Document, profiles: seq<Profile>) {
    forall p | p in profiles :: Fault(rules, document, p) == None
  }

  predicate Restorable(rules: Rules, document: Document) {
    && Unrepeated(document)
    && CoresPass(rules, document)
    && ProxiesPass(rules, document)
    && Faultless(rules, document, document.profiles)
  }

  predicate NothingIn(present: Snapshot) {
    present.cores == [] && present.proxies == [] && present.profiles == []
  }

  function CountsOf(present: Snapshot): Counts {
    Counts(|present.cores|, |present.proxies|, |present.profiles|)
  }

  predicate Barred(present: Snapshot, mode: Mode) {
    mode.OnlyWhenEmpty? && !NothingIn(present)
  }

  predicate FirstFailing<T>(records: seq<T>, passes: T -> bool, i: int) {
    0 <= i < |records| && !passes(records[i]) && forall j | 0 <= j < i :: passes(records[j])
  }

  function Unusable(rules: Rules): Proxy -> Option<string> {
    (p: Proxy) => if ValidProxy(rules, p) then None else Some(p.name)
  }

  function FaultFree(rules: Rules, document: Document): Profile -> bool {
    (p: Profile) => Fault(rules, document, p).None?
  }

  // The error names the first thing wrong, in the order the checks are made.
  ghost predicate Explained(rules: Rules, document: Document, present: Snapshot, mode: Mode, error: RestoreError) {
    match error
    case NotEmpty(counts) => Barred(present, mode) && counts == CountsOf(present)
    case Duplicate(kind) => !Barred(present, mode) && FirstRepeated(document, kind)
    case CredentialsExcluded(count) =>
      && !Barred(present, mode) && Unrepeated(document) && CoresPass(rules, document)
      && document.credentials.Excluded? && count == |Picked(document.proxies, Unusable(rules))| && count > 0
    case Unresolved(_, _) => ProfileFault(rules, document, present, mode, error)
    case Unacceptable(kind, name) =>
      match kind
      case CoreKind =>
        && !Barred(present, mode) && Unrepeated(document)
        && exists i :: FirstFailing(document.cores, CoreRule(rules), i) && name == document.cores[i].name
      case ProxyKind =>
        && !Barred(present, mode) && Unrepeated(document) && CoresPass(rules, document)
            && document.credentials.Included?
        && NamesFirst(rules, document.proxies, name)
      case ProfileKind => ProfileFault(rules, document, present, mode, error)
  }

  ghost predicate ProfileFault(rules: Rules, document: Document, present: Snapshot, mode: Mode, error: RestoreError) {
    && !Barred(present, mode) && Unrepeated(document) && CoresPass(rules, document) && ProxiesPass(rules, document)
    && exists i :: FirstFailing(document.profiles, FaultFree(rules, document), i)
                   && Fault(rules, document, document.profiles[i]) == Some(error)
  }

  // ---- Planning ----

  function Rehoused(machine: Machine): Profile -> Option<Profile> {
    (p: Profile) => Some(Housed(machine, p))
  }

  function MovedAway(machine: Machine): Profile -> Option<Repointed> {
    (p: Profile) => if machine.isHere(p.dir) then None else Some(Repointed(p.shown.name, p.dir, machine.home(p.id)))
  }

  function Restoring(document: Document, machine: Machine): RestorePlan {
    RestorePlan(document.cores, document.proxies, Picked(document.profiles, Rehoused(machine)),
                Notes(Counts(0, 0, 0), [], [], [], Picked(document.profiles, MovedAway(machine)),
                      document.credentials.Excluded?))
  }

  method CheckRepeats(document: Document) returns (error: Option<RestoreError>)
    ensures error.None? <==> Unrepeated(document)
    ensures error.Some? ==> error.value.Duplicate? && FirstRepeated(document, error.value.kind)
  {
    var twice := Repeats(Mapped(document.cores, CoreKey));
    if twice {
      return Some(Duplicate(CoreKind));
    }
    RepeatsAreNotDistinct(document.cores, CoreKey);
    twice := Repeats(Mapped(document.proxies, ProxyKey));
    RepeatsAreNotDistinct(document.proxies, ProxyKey);
    if twice {
      return Some(Duplicate(ProxyKind));
    }
    twice := Repeats(Mapped(document.profiles, ProfileKey));
    RepeatsAreNotDistinct(document.profiles, ProfileKey);
    if twice {
      return Some(Duplicate(ProfileKind));
    }
    return None;
  }

  lemma RepeatsAreNotDistinct<T>(records: seq<T>, id: T -> Id)
    ensures (exists i, j :: 0 <= i < j < |records| && Mapped(records, id)[i] == Mapped(records, id)[j]) <==>
              !DistinctBy(records, id)
  {
    if !DistinctBy(records, id) {
      var i, j :| 0 <= i < j < |records| && id(records[i]) == id(records[j]);
      assert Mapped(records, id)[i] == Mapped(records, id)[j];
    }
  }

  method FirstBadCore(rules: Rules, cores: seq<Core>) returns (bad: Option<nat>)
    ensures bad.None? <==> forall c | c in cores :: ValidCore(rules, c)
    ensures bad.Some? ==> FirstFailing(cores, CoreRule(rules), bad.value)
  {
    for i := 0 to |cores|
      invariant forall j | 0 <= j < i :: ValidCore(rules, cores[j])
    {
      if !ValidCore(rules, cores[i]) {
        return Some(i);
      }
    }
    return None;
  }

  // The name of the first proxy that does not pass.
  ghost predicate NamesFirst(rules: Rules, proxies: seq<Proxy>, name: string) {
    exists i :: FirstFailing(proxies, ProxyRule(rules), i) && name == proxies[i].name
  }

  method UnusableProxies(rules: Rules, proxies: seq<Proxy>) returns (unusable: seq<string>)
    ensures unusable == Picked(proxies, Unusable(rules))
    ensures if unusable == [] then forall p | p in proxies :: ValidProxy(rules, p)
              else NamesFirst(rules, proxies, unusable[0])
  {
    hide Picked, ValidProxy, NamesFirst;
    unusable := [];
    PickedFromNothing(proxies, Unusable(rules));
    for i := 0 to |proxies|
      invariant unusable == Picked(proxies[..i], Unusable(rules))
      invariant if unusable == [] then forall j | 0 <= j < i :: ValidProxy(rules, proxies[j])
                else NamesFirst(rules, proxies, unusable[0])
    {
      PickedNext(proxies, i, Unusable(rules));
      if !ValidProxy(rules, proxies[i]) {
        if unusable == [] {
          FirstIsNamed(rules, proxies, i);
        }
        unusable := unusable + [proxies[i].name];
      }
    }
    assert proxies[..|proxies|] == proxies;
  }

  lemma FirstIsNamed(rules: Rules, proxies: seq<Proxy>, i: nat)
    requires FirstFailing(proxies, ProxyRule(rules), i)
    ensures NamesFirst(rules, proxies, proxies[i].name)
  {
  }

  method CheckRecords(rules: Rules, document: Document) returns (error: Option<RestoreError>)
    ensures error.None? <==> CoresPass(rules, document) && ProxiesPass(rules, document)
    ensures error.Some? && error.value.Unacceptable? ==>
              || (error.value.kind.CoreKind?
                  && exists i ::
                      FirstFailing(document.cores, CoreRule(rules), i) && error.value.name == document.cores[i].name)
              || (error.value.kind.ProxyKind? && CoresPass(rules, document) && document.credentials.Included?
                  && NamesFirst(rules, document.proxies, error.value.name))
    ensures error.Some? && !error.value.Unacceptable? ==>
              CoresPass(rules, document) && document.credentials.Excluded?
              && error.value == CredentialsExcluded(|Picked(document.proxies, Unusable(rules))|)
                  && error.value.count > 0
  {
    hide Picked, ValidProxy, ValidCore, NamesFirst;
    var bad := FirstBadCore(rules, document.cores);
    if bad.Some? {
      return Some(Unacceptable(CoreKind, document.cores[bad.value].name));
    }
    var unusable := UnusableProxies(rules, document.proxies);
    if unusable == [] {
      return None;
    }
    SomeDoNotPass(rules, document);
    if document.credentials.Excluded? {
      return Some(CredentialsExcluded(|unusable|));
    }
    return Some(Unacceptable(ProxyKind, unusable[0]));
  }

  lemma SomeDoNotPass(rules: Rules, document: Document)
    requires Picked(document.proxies, Unusable(rules)) != []
    ensures !ProxiesPass(rules, document)
  {
    if ProxiesPass(rules, document) {
      PickedNone(document.proxies, Unusable(rules));
    }
  }

  method CheckProfiles(rules: Rules, machine: Machine, document: Document)
    returns (error: Option<RestoreError>, profiles: seq<Profile>, repointed: seq<Repointed>)
    ensures error.None? <==> Faultless(rules, document, document.profiles)
    ensures error.Some? ==> exists i :: FirstFailing(document.profiles, FaultFree(rules, document), i)
                                        && Fault(rules, document, document.profiles[i]) == error
    ensures error.None? ==> profiles == Picked(document.profiles, Rehoused(machine))
                            && repointed == Picked(document.profiles, MovedAway(machine))
  {
    hide Picked, ValidProfile;
    PickedFromNothing(document.profiles, Rehoused(machine));
    PickedFromNothing(document.profiles, MovedAway(machine));
    var heldCores, heldProxies := Ids(document.cores, CoreKey), Ids(document.proxies, ProxyKey);
    profiles, repointed := [], [];
    for i := 0 to |document.profiles|
      invariant forall j | 0 <= j < i :: Fault(rules, document, document.profiles[j]) == None
      invariant profiles == Picked(document.profiles[..i], Rehoused(machine))
      invariant repointed == Picked(document.profiles[..i], MovedAway(machine))
    {
      PickedNext(document.profiles, i, Rehoused(machine));
      PickedNext(document.profiles, i, MovedAway(machine));
      var profile := document.profiles[i];
      error := None;
      if !ValidProfile(rules, profile) {
        error := Some(Unacceptable(ProfileKind, profile.shown.name));
      } else if profile.core !in heldCores {
        error := Some(Unresolved(profile.shown.name, CoreKind));
      } else if profile.proxy.Some? && profile.proxy.value !in heldProxies {
        error := Some(Unresolved(profile.shown.name, ProxyKind));
      }
      if error.Some? {
        assert FirstFailing(document.profiles, FaultFree(rules, document), i);
        return;
      }
      var arriving := profile;
      if !machine.isHere(profile.dir) {
        var to := machine.home(profile.id);
        repointed := repointed + [Repointed(profile.shown.name, profile.dir, to)];
        arriving := arriving.(dir := to);
      }
      profiles := profiles + [arriving];
    }
    error := None;
    assert document.profiles[..|document.profiles|] == document.profiles;
  }

  method PlanRestore(rules: Rules, machine: Machine, document: Document, present: Snapshot, mode: Mode)
    returns (r: Result<RestorePlan, RestoreError>)
    ensures r.Ok? <==> !Barred(present, mode) && Restorable(rules, document)
    ensures r.Ok? ==> r.value == Restoring(document, machine)
    ensures r.Err? ==> Explained(rules, document, present, mode, r.error)
  {
    if mode.OnlyWhenEmpty? && !NothingIn(present) {
      return Err(NotEmpty(CountsOf(present)));
    }
    var error := CheckRepeats(document);
    if error.Some? {
      return Err(error.value);
    }
    error := CheckRecords(rules, document);
    if error.Some? {
      return Err(error.value);
    }
    var profiles, repointed;
    error, profiles, repointed := CheckProfiles(rules, machine, document);
    if error.Some? {
      return Err(error.value);
    }
    return Ok(RestorePlan(document.cores, document.proxies, profiles,
                          Notes(Counts(0, 0, 0), [], [], [], repointed, document.credentials.Excluded?)));
  }

  datatype RestoreReport = RestoreReport(added: Counts, removed: Counts, notes: Notes, failed: seq<Failure>)

  method ApplyRestore(services: Services, plan: RestorePlan, present: Snapshot)
    returns (r: Result<RestoreReport, Refusal>)
    modifies services
    ensures r.Ok? <==> Replaceable(plan.cores, plan.proxies, plan.profiles)
    ensures r.Ok? ==>
              r.value == RestoreReport(Counts(|plan.cores|, |plan.proxies|, |plan.profiles|), CountsOf(present),
                                       plan.notes, [])
    ensures services.State() == if r.Ok? then Rebuilt(plan.cores, plan.proxies, plan.profiles)
              else old(services.State())
  {
    var refusal := services.Replace(plan.cores, plan.proxies, plan.profiles);
    if refusal.Some? {
      return Err(refusal.value);
    }
    return Ok(RestoreReport(Counts(|plan.cores|, |plan.proxies|, |plan.profiles|), CountsOf(present), plan.notes, []));
  }
}
