// Import: adding a document's records to a configuration that may already hold some.
// A document is untrusted - it may repeat identifiers, name what it does not hold, and
// carry records no form would accept.
module Imports {
  import opened Values
  import opened Wrappers
  import opened Lists
  import opened Configuration

  datatype Credentials = Included | Excluded

  datatype Document = Document(credentials: Credentials, cores: seq<Core>, proxies: seq<Proxy>, profiles: seq<Profile>)

  datatype Snapshot = Snapshot(cores: seq<Core>, proxies: seq<Proxy>, profiles: seq<Profile>)

  datatype Counts = Counts(cores: nat, proxies: nat, profiles: nat)

  datatype Repointed = Repointed(profile: string, from: Directory, to: Directory)

  datatype Notes = Notes(kept: Counts, differing: seq<string>, missingCore: seq<string>, missingProxy: seq<string>,
                         repointed: seq<Repointed>, credentialsExcluded: bool)

  datatype ImportPlan = ImportPlan(cores: seq<Core>, proxies: seq<Proxy>, profiles: seq<Profile>, notes: Notes)

  datatype Kind = CoreKind | ProxyKind | ProfileKind

  datatype Failure = Failure(kind: Kind, name: string, refusal: Refusal)

  datatype Report = Report(added: Counts, notes: Notes, failed: seq<Failure>)

  // Which directories are on this machine, and where one that is not goes.
  datatype Machine = Machine(isHere: Directory -> bool, home: ProfileId -> Directory)

  // The snapshot lists what the store holds, each record once.
  ghost predicate Describes(present: Snapshot, s: Store) {
    && DistinctBy(present.cores, CoreKey) && DistinctBy(present.proxies, ProxyKey)
        && DistinctBy(present.profiles, ProfileKey)
    && (forall c :: c in present.cores <==> c.id in s.cores && s.cores[c.id] == c)
    && (forall p :: p in present.proxies <==> p.id in s.proxies && s.proxies[p.id] == p)
    && (forall p :: p in present.profiles <==> p.id in s.profiles && s.profiles[p.id] == p)
  }

  // ---- Deciding ----

  function Ids<T(==)>(records: seq<T>, id: T -> Id): set<Id> {
    set r | r in records :: id(r)
  }

  // A core or a proxy: kept when its identifier is taken, and worth a word when the two differ.
  function Arriving<T>(held: set<Id>, id: T -> Id): T -> Option<T> {
    (r: T) => if id(r) in held then None else Some(r)
  }

  function Kept<T>(held: set<Id>, id: T -> Id): T -> Option<T> {
    (r: T) => if id(r) in held then Some(r) else None
  }

  function Differing<T(==)>(present: seq<T>, id: T -> Id, name: T -> string): T -> Option<string> {
    (r: T) => if id(r) in Ids(present, id) && r !in present then Some(name(r)) else None
  }

  function CoreName(c: Core): string { c.name }
  function ProxyName(p: Proxy): string { p.name }

  // `profile_matches`: the same in everything but where its directory is.
  predicate Matches(file: Profile, stored: Profile) {
    file.(dir := stored.dir) == stored
  }

  // What a profile may name: what is held and what arrives with it.
  datatype Nameable = Nameable(cores: set<CoreId>, proxies: set<ProxyId>)

  predicate Astray(proxies: set<ProxyId>, p: Profile) {
    p.proxy.Some? && p.proxy.value !in proxies
  }

  function Cleared(proxies: set<ProxyId>, p: Profile): Profile {
    if Astray(proxies, p) then p.(proxy := None) else p
  }

  function Housed(machine: Machine, p: Profile): Profile {
    if machine.isHere(p.dir) then p else p.(dir := machine.home(p.id))
  }

  predicate Comes(held: set<ProfileId>, nameable: Nameable, p: Profile) {
    p.id !in held && p.core in nameable.cores
  }

  function ArrivingProfile(held: set<ProfileId>, nameable: Nameable, machine: Machine): Profile -> Option<Profile> {
    (p: Profile) => if Comes(held, nameable, p) then Some(Housed(machine, Cleared(nameable.proxies, p))) else None
  }

  function DifferingProfile(present: seq<Profile>): Profile -> Option<string> {
    (p: Profile) => if p.id in Ids(present, ProfileKey) && !exists q | q in present :: Matches(p, q)
        then Some(p.shown.name) else None
  }

  function Coreless(held: set<ProfileId>, nameable: Nameable): Profile -> Option<string> {
    (p: Profile) => if p.id !in held && p.core !in nameable.cores then Some(p.shown.name) else None
  }

  function Proxyless(held: set<ProfileId>, nameable: Nameable): Profile -> Option<string> {
    (p: Profile) => if Comes(held, nameable, p) && Astray(nameable.proxies, p) then Some(p.shown.name) else None
  }

  function Moved(held: set<ProfileId>, nameable: Nameable, machine: Machine): Profile -> Option<Repointed> {
    (p: Profile) => if Comes(held, nameable, p) && !machine.isHere(p.dir)
                    then Some(Repointed(p.shown.name, p.dir, machine.home(p.id))) else None
  }

  function NameableIn(document: Document, present: Snapshot): Nameable {
    Nameable(Ids(present.cores, CoreKey) + Ids(document.cores, CoreKey),
             Ids(present.proxies, ProxyKey) + Ids(document.proxies, ProxyKey))
  }

  function Planned(document: Document, present: Snapshot, machine: Machine): ImportPlan {
    var heldCores, heldProxies := Ids(present.cores, CoreKey), Ids(present.proxies, ProxyKey);
    var held := Ids(present.profiles, ProfileKey);
    var nameable := NameableIn(document, present);
    ImportPlan(
      Picked(document.cores, Arriving(heldCores, CoreKey)),
      Picked(document.proxies, Arriving(heldProxies, ProxyKey)),
      Picked(document.profiles, ArrivingProfile(held, nameable, machine)),
      Notes(
        Counts(|Picked(document.cores, Kept(heldCores, CoreKey))|,
               |Picked(document.proxies, Kept(heldProxies, ProxyKey))|,
               |Picked(document.profiles, Kept(held, ProfileKey))|),
        Picked(document.cores, Differing(present.cores, CoreKey, CoreName))
        + Picked(document.proxies, Differing(present.proxies, ProxyKey, ProxyName))
        + Picked(document.profiles, DifferingProfile(present.profiles)),
        Picked(document.profiles, Coreless(held, nameable)),
        Picked(document.profiles, Proxyless(held, nameable)),
        Picked(document.profiles, Moved(held, nameable, machine)),
        document.credentials.Excluded?))
  }

  // One list of cores or proxies.
  method PlanRecords<T(==)>(records: seq<T>, present: seq<T>, id: T -> Id, name: T -> string)
    returns (arriving: seq<T>, kept: nat, differing: seq<string>)
    ensures arriving == Picked(records, Arriving(Ids(present, id), id))
    ensures kept == |Picked(records, Kept(Ids(present, id), id))|
    ensures differing == Picked(records, Differing(present, id, name))
  {
    var held := Ids(present, id);
    arriving, kept, differing := [], 0, [];
    for i := 0 to |records|
      invariant arriving == Picked(records[..i], Arriving(held, id))
      invariant kept == |Picked(records[..i], Kept(held, id))|
      invariant differing == Picked(records[..i], Differing(present, id, name))
    {
      PickedNext(records, i, Arriving(held, id));
      PickedNext(records, i, Kept(held, id));
      PickedNext(records, i, Differing(present, id, name));
      var record := records[i];
      if id(record) in held {
        kept := kept + 1;
        if record !in present {
          differing := differing + [name(record)];
        }
        continue;
      }
      arriving := arriving + [record];
    }
    assert records[..|records|] == records;
  }

  lemma NothingPickedYet(profiles: seq<Profile>, held: set<ProfileId>, nameable: Nameable, machine: Machine,
                         present: seq<Profile>)
    ensures Picked(profiles[..0], ArrivingProfile(held, nameable, machine)) == []
            && Picked(profiles[..0], Kept(held, ProfileKey)) == []
    ensures Picked(profiles[..0], DifferingProfile(present)) == []
            && Picked(profiles[..0], Coreless(held, nameable)) == []
    ensures Picked(profiles[..0], Proxyless(held, nameable)) == []
            && Picked(profiles[..0], Moved(held, nameable, machine)) == []
  {
  }

  method PlanImport(document: Document, present: Snapshot, machine: Machine) returns (plan: ImportPlan)
    ensures plan == Planned(document, present, machine)
  {
    var cores, keptCores, differingCores := PlanRecords(document.cores, present.cores, CoreKey, CoreName);
    var proxies, keptProxies, differingProxies := PlanRecords(document.proxies, present.proxies, ProxyKey, ProxyName);
    var nameable := NameableIn(document, present);
    var held := Ids(present.profiles, ProfileKey);
    hide Picked;
    var profiles: seq<Profile> := [];
    NothingPickedYet(document.profiles, held, nameable, machine, present.profiles);
    var kept, differing, missingCore, missingProxy, repointed := 0, [], [], [], [];
    for i := 0 to |document.profiles|
      invariant profiles == Picked(document.profiles[..i], ArrivingProfile(held, nameable, machine))
      invariant kept == |Picked(document.profiles[..i], Kept(held, ProfileKey))|
      invariant differing == Picked(document.profiles[..i], DifferingProfile(present.profiles))
      invariant missingCore == Picked(document.profiles[..i], Coreless(held, nameable))
      invariant missingProxy == Picked(document.profiles[..i], Proxyless(held, nameable))
      invariant repointed == Picked(document.profiles[..i], Moved(held, nameable, machine))
    {
      var profile := document.profiles[i];
      PickedNext(document.profiles, i, ArrivingProfile(held, nameable, machine));
      PickedNext(document.profiles, i, Kept(held, ProfileKey));
      PickedNext(document.profiles, i, DifferingProfile(present.profiles));
      PickedNext(document.profiles, i, Coreless(held, nameable));
      PickedNext(document.profiles, i, Proxyless(held, nameable));
      PickedNext(document.profiles, i, Moved(held, nameable, machine));
      if profile.id in held {
        kept := kept + 1;
        if !exists q | q in present.profiles :: Matches(profile, q) {
          differing := differing + [profile.shown.name];
        }
        continue;
      }
      if profile.core !in nameable.cores {
        missingCore := missingCore + [profile.shown.name];
        continue;
      }
      var arriving := profile;
      if profile.proxy.Some? && profile.proxy.value !in nameable.proxies {
        missingProxy := missingProxy + [profile.shown.name];
        arriving := arriving.(proxy := None);
      }
      if !machine.isHere(profile.dir) {
        var to := machine.home(profile.id);
        repointed := repointed + [Repointed(profile.shown.name, profile.dir, to)];
        arriving := arriving.(dir := to);
      }
      profiles := profiles + [arriving];
    }
    assert document.profiles[..|document.profiles|] == document.profiles;
    plan := ImportPlan(cores, proxies, profiles,
                       Notes(Counts(keptCores, keptProxies, kept), differingCores + differingProxies + differing,
                             missingCore, missingProxy, repointed, document.credentials.Excluded?));
  }

  // ---- Writing ----

  function CoreRule(rules: Rules): Core -> bool { (c: Core) => ValidCore(rules, c) }
  function ProxyRule(rules: Rules): Proxy -> bool { (p: Proxy) => ValidProxy(rules, p) }

  function CoreAdded(rules: Rules): Core -> Option<Core> { (c: Core) => if ValidCore(rules, c) then Some(c) else None }
  function ProxyAdded(rules: Rules): Proxy -> Option<Proxy> {
    (p: Proxy) => if ValidProxy(rules, p) then Some(p) else None
  }

  function CoreFailed(rules: Rules): Core -> Option<Failure> {
    (c: Core) => if ValidCore(rules, c) then None else Some(Failure(CoreKind, c.name, Invalid))
  }

  function ProxyFailed(rules: Rules): Proxy -> Option<Failure> {
    (p: Proxy) => if ValidProxy(rules, p) then None else Some(Failure(ProxyKind, p.name, Invalid))
  }

  function WithRecords(rules: Rules, s: Store, plan: ImportPlan): Store {
    s.(cores := Upserted(s.cores, plan.cores, CoreKey, CoreRule(rules)),
       proxies := Upserted(s.proxies, plan.proxies, ProxyKey, ProxyRule(rules)))
  }

  // What came of the plan's profiles so far.
  datatype Outcome = Outcome(profiles: map<ProfileId, Profile>, added: nat, missingCore: seq<string>,
                             missingProxy: seq<string>, failed: seq<Failure>)

  // One profile, against the cores and proxies that were read back.
  function Settle(rules: Rules, s: Store, o: Outcome, p: Profile): Outcome {
    if p.core !in s.cores then o.(missingCore := o.missingCore + [p.shown.name])
    else
      var noted := if Astray(s.proxies.Keys, p) then o.(missingProxy := o.missingProxy + [p.shown.name]) else o;
      var change := InsertProfile(Cleared(s.proxies.Keys, p));
      match Answer(rules, s.(profiles := o.profiles), change)
      case None => noted.(profiles := Written(s.(profiles := o.profiles), change).profiles, added := o.added + 1)
      case Some(refusal) => noted.(failed := o.failed + [Failure(ProfileKind, p.shown.name, refusal)])
  }

  function Settled(rules: Rules, s: Store, profiles: seq<Profile>): Outcome {
    if profiles == [] then Outcome(s.profiles, 0, [], [], [])
    else
      var n := |profiles| - 1;
      Settle(rules, s, Settled(rules, s, profiles[..n]), profiles[n])
  }

  function Stored(rules: Rules, s: Store, plan: ImportPlan): Store {
    var t := WithRecords(rules, s, plan);
    t.(profiles := Settled(rules, t, plan.profiles).profiles)
  }

  function Reported(rules: Rules, s: Store, plan: ImportPlan): Report {
    var o := Settled(rules, WithRecords(rules, s, plan), plan.profiles);
    Report(Counts(|Picked(plan.cores, CoreAdded(rules))|, |Picked(plan.proxies, ProxyAdded(rules))|, o.added),
           plan.notes.(missingCore := plan.notes.missingCore + o.missingCore,
                       missingProxy := plan.notes.missingProxy + o.missingProxy),
           Picked(plan.cores, CoreFailed(rules)) + Picked(plan.proxies, ProxyFailed(rules)) + o.failed)
  }

  method ApplyCores(services: Services, cores: seq<Core>) returns (added: nat, failed: seq<Failure>)
    modifies services`cores
    ensures services.cores == Upserted(old(services.cores), cores, CoreKey, CoreRule(services.rules))
    ensures added == |Picked(cores, CoreAdded(services.rules))| && failed == Picked(cores, CoreFailed(services.rules))
  {
    var rules := services.rules;
    added, failed := 0, [];
    for i := 0 to |cores|
      invariant services.cores == Upserted(old(services.cores), cores[..i], CoreKey, CoreRule(rules))
      invariant added == |Picked(cores[..i], CoreAdded(rules))| && failed == Picked(cores[..i], CoreFailed(rules))
    {
      UpsertedNext(old(services.cores), cores, i, CoreKey, CoreRule(rules));
      PickedNext(cores, i, CoreAdded(rules));
      PickedNext(cores, i, CoreFailed(rules));
      var refusal := services.InsertCore(cores[i]);
      match refusal
      case None => added := added + 1;
      case Some(why) => failed := failed + [Failure(CoreKind, cores[i].name, why)];
    }
    assert cores[..|cores|] == cores;
  }

  method ApplyProxies(services: Services, proxies: seq<Proxy>) returns (added: nat, failed: seq<Failure>)
    modifies services`proxies
    ensures services.proxies == Upserted(old(services.proxies), proxies, ProxyKey, ProxyRule(services.rules))
    ensures added == |Picked(proxies, ProxyAdded(services.rules))|
            && failed == Picked(proxies, ProxyFailed(services.rules))
  {
    var rules := services.rules;
    added, failed := 0, [];
    for i := 0 to |proxies|
      invariant services.proxies == Upserted(old(services.proxies), proxies[..i], ProxyKey, ProxyRule(rules))
      invariant added == |Picked(proxies[..i], ProxyAdded(rules))| && failed == Picked(proxies[..i], ProxyFailed(rules))
    {
      UpsertedNext(old(services.proxies), proxies, i, ProxyKey, ProxyRule(rules));
      PickedNext(proxies, i, ProxyAdded(rules));
      PickedNext(proxies, i, ProxyFailed(rules));
      var refusal := services.InsertProxy(proxies[i]);
      match refusal
      case None => added := added + 1;
      case Some(why) => failed := failed + [Failure(ProxyKind, proxies[i].name, why)];
    }
    assert proxies[..|proxies|] == proxies;
  }

  method ApplyProfiles(services: Services, profiles: seq<Profile>) returns (o: Outcome)
    modifies services`profiles
    ensures o == Settled(services.rules, old(services.State()), profiles)
    ensures services.profiles == o.profiles
  {
    var rules := services.rules;
    ghost var start := services.State();
    var here, hereProxies := services.cores.Keys, services.proxies.Keys;
    var added, missingCore, missingProxy, failed := 0, [], [], [];
    for i := 0 to |profiles|
      invariant Outcome(services.profiles, added, missingCore, missingProxy, failed)
                == Settled(rules, start, profiles[..i])
    {
      assert profiles[..i + 1][..i] == profiles[..i];
      assert services.State() == start.(profiles := services.profiles);
      var profile := profiles[i];
      if profile.core !in here {
        missingCore := missingCore + [profile.shown.name];
        continue;
      }
      var arriving := profile;
      if arriving.proxy.Some? && arriving.proxy.value !in hereProxies {
        missingProxy := missingProxy + [arriving.shown.name];
        arriving := arriving.(proxy := None);
      }
      var refusal := services.InsertProfile(arriving);
      match refusal
      case None => added := added + 1;
      case Some(why) => failed := failed + [Failure(ProfileKind, profile.shown.name, why)];
    }
    assert profiles[..|profiles|] == profiles;
    o := Outcome(services.profiles, added, missingCore, missingProxy, failed);
  }

  method ApplyImport(services: Services, plan: ImportPlan) returns (report: Report)
    modifies services
    ensures services.State() == Stored(services.rules, old(services.State()), plan)
    ensures report == Reported(services.rules, old(services.State()), plan)
  {
    var addedCores, failedCores := ApplyCores(services, plan.cores);
    var addedProxies, failedProxies := ApplyProxies(services, plan.proxies);
    var o := ApplyProfiles(services, plan.profiles);
    report := Report(Counts(addedCores, addedProxies, o.added),
                     plan.notes.(missingCore := plan.notes.missingCore + o.missingCore,
                                 missingProxy := plan.notes.missingProxy + o.missingProxy),
                     failedCores + failedProxies + o.failed);
  }
}
