// How restore, import and export fit together, and what every session keeps.
module RestoreLaws {
  import opened Values
  import opened Wrappers
  import opened Lists
  import opened Configuration
  import opened Imports
  import opened ImportLaws
  import opened Restores

  const NOTHING := Snapshot([], [], [])

  // ---- A plan that was accepted can be written ----

  lemma {:induction false} HousedProfiles(machine: Machine, profiles: seq<Profile>)
    ensures var housed := Picked(profiles, Rehoused(machine));
            |housed| == |profiles| && forall i | 0 <= i < |profiles| :: housed[i] == Housed(machine, profiles[i])
  {
    if profiles != [] {
      HousedProfiles(machine, profiles[..|profiles| - 1]);
    }
  }

  lemma AcceptedPlansCommit(rules: Rules, machine: Machine, document: Document)
    requires Restorable(rules, document)
    ensures var plan := Restoring(document, machine); Replaceable(plan.cores, plan.proxies, plan.profiles)
  {
    hide Picked, Upserted;
    var plan := Restoring(document, machine);
    HousedProfiles(machine, document.profiles);
    UpsertedKeys(map[], document.cores, CoreKey, Any);
    UpsertedKeys(map[], document.proxies, ProxyKey, Any);
    forall i, j | 0 <= i < j < |plan.profiles| ensures ProfileKey(plan.profiles[i]) != ProfileKey(plan.profiles[j]) {
      assert ProfileKey(document.profiles[i]) != ProfileKey(document.profiles[j]);
    }
    forall p | p in plan.profiles ensures Resolves(Rebuilt(plan.cores, plan.proxies, []), p) {
      var i :| 0 <= i < |plan.profiles| && plan.profiles[i] == p;
      assert Fault(rules, document, document.profiles[i]) == None;
    }
  }

  // ---- Restore onto nothing is import onto nothing ----

  lemma {:induction false} UpsertedAlike<T>(records: seq<T>, id: T -> Id, valid: T -> bool)
    requires forall r | r in records :: valid(r)
    ensures Upserted(map[], records, id, valid) == Upserted(map[], records, id, Any)
  {
    if records != [] {
      var n := |records| - 1;
      assert records[n] in records;
      assert forall r | r in records[..n] :: r in records;
      UpsertedAlike(records[..n], id, valid);
    }
  }

  lemma OneSettles(rules: Rules, s: Store, o: Outcome, p: Profile)
    requires ValidProfile(rules, p) && Resolves(s, p) && p.id !in o.profiles
    ensures Settle(rules, s, o, p) == o.(profiles := o.profiles[p.id := p], added := o.added + 1)
  {
  }

  lemma LastIsNew(profiles: seq<Profile>)
    requires profiles != [] && DistinctBy(profiles, ProfileKey)
    ensures profiles[|profiles| - 1].id !in Upserted(map[], profiles[..|profiles| - 1], ProfileKey, Any)
  {
    var n := |profiles| - 1;
    UpsertedKeys(map[], profiles[..n], ProfileKey, Any);
    forall p | p in profiles[..n] ensures ProfileKey(p) != ProfileKey(profiles[n]) {
      var j :| 0 <= j < n && profiles[..n][j] == p;
      assert ProfileKey(profiles[j]) != ProfileKey(profiles[n]);
    }
  }

  lemma {:induction false} AllSettle(rules: Rules, s: Store, profiles: seq<Profile>)
    requires s.profiles == map[] && DistinctBy(profiles, ProfileKey)
    requires forall p | p in profiles :: ValidProfile(rules, p) && Resolves(s, p)
    ensures Settled(rules, s, profiles) == Outcome(Upserted(map[], profiles, ProfileKey, Any), |profiles|, [], [], [])
  {
    hide Settle, ValidProfile, Resolves;
    if profiles != [] {
      var n := |profiles| - 1;
      assert profiles[n] in profiles;
      assert forall p | p in profiles[..n] :: p in profiles;
      AllSettle(rules, s, profiles[..n]);
      LastIsNew(profiles);
      OneSettles(rules, s, Settled(rules, s, profiles[..n]), profiles[n]);
    }
  }

  // What import makes of a document restore accepts: every record arrives as it is.
  lemma AcceptedDocumentsArriveWhole(rules: Rules, machine: Machine, document: Document)
    requires Restorable(rules, document)
    ensures var plan := Planned(document, NOTHING, machine);
            && plan.cores == document.cores && plan.proxies == document.proxies
            && plan.profiles == Restoring(document, machine).profiles
            && plan.notes == Restoring(document, machine).notes
  {
    hide Picked;
    var nameable := NameableIn(document, NOTHING);
    assert Ids(NOTHING.cores, CoreKey) == {} && Ids(NOTHING.proxies, ProxyKey) == {}
        && Ids(NOTHING.profiles, ProfileKey) == {};
    PickedAll(document.cores, Arriving({}, CoreKey));
    PickedAll(document.proxies, Arriving({}, ProxyKey));
    PickedNone(document.cores, Kept({}, CoreKey));
    PickedNone(document.proxies, Kept({}, ProxyKey));
    PickedNone(document.profiles, Kept({}, ProfileKey));
    PickedNone(document.cores, Differing([], CoreKey, CoreName));
    PickedNone(document.proxies, Differing([], ProxyKey, ProxyName));
    PickedNone(document.profiles, DifferingProfile([]));
    forall p | p in document.profiles ensures Comes({}, nameable, p) && !Astray(nameable.proxies, p) {
      assert Fault(rules, document, p) == None;
    }
    PickedNone(document.profiles, Coreless({}, nameable));
    PickedNone(document.profiles, Proxyless({}, nameable));
    PickedAlike(document.profiles, ArrivingProfile({}, nameable, machine), Rehoused(machine));
    PickedAlike(document.profiles, Moved({}, nameable, machine), MovedAway(machine));
  }

  lemma RestoreIsImportOntoNothing(rules: Rules, machine: Machine, document: Document)
    requires Restorable(rules, document)
    ensures var plan, restoring := Planned(document, NOTHING, machine), Restoring(document, machine);
            && Reported(rules, EMPTY, plan).failed == []
            && Reported(rules, EMPTY, plan).notes == restoring.notes
            && Reported(rules, EMPTY, plan).added == Counts(|document.cores|, |document.proxies|, |document.profiles|)
            && Stored(rules, EMPTY, plan) == Rebuilt(restoring.cores, restoring.proxies, restoring.profiles)
  {
    hide Picked, Planned, Settled;
    var plan := Planned(document, NOTHING, machine);
    AcceptedDocumentsArriveWhole(rules, machine, document);
    PickedNone(document.cores, CoreFailed(rules));
    PickedNone(document.proxies, ProxyFailed(rules));
    PickedAll(document.cores, CoreAdded(rules));
    PickedAll(document.proxies, ProxyAdded(rules));
    UpsertedAlike(document.cores, CoreKey, CoreRule(rules));
    UpsertedAlike(document.proxies, ProxyKey, ProxyRule(rules));
    AcceptedPlansCommit(rules, machine, document);
    HousedProfiles(machine, document.profiles);
    var t := WithRecords(rules, EMPTY, plan);
    forall p | p in plan.profiles ensures ValidProfile(rules, p) && Resolves(t, p) {
      assert Resolves(Rebuilt(plan.cores, plan.proxies, []), p);
      var i :| 0 <= i < |plan.profiles| && plan.profiles[i] == p;
      assert Fault(rules, document, document.profiles[i]) == None;
    }
    AllSettle(rules, t, plan.profiles);
  }

  // Conversely: if nothing was refused on the way in, there was nothing to refuse.
  lemma {:induction false} NothingRefused(rules: Rules, s: Store, profiles: seq<Profile>)
    requires s.profiles == map[]
    requires Settled(rules, s, profiles).failed == [] && Settled(rules, s, profiles).missingCore == []
    ensures forall p | p in profiles :: ValidProfile(rules, p) && p.id in Settled(rules, s, profiles).profiles
    ensures DistinctBy(profiles, ProfileKey)
  {
    hide Settle, ValidProfile;
    if profiles != [] {
      var n := |profiles| - 1;
      var o, p := Settled(rules, s, profiles[..n]), profiles[n];
      OneNotRefused(rules, s, o, p);
      NothingRefused(rules, s, profiles[..n]);
      assert profiles == profiles[..n] + [p];
      OneMoreDistinct(profiles[..n], p);
    }
  }

  lemma OneMoreDistinct(profiles: seq<Profile>, p: Profile)
    requires DistinctBy(profiles, ProfileKey) && forall q | q in profiles :: q.id != p.id
    ensures DistinctBy(profiles + [p], ProfileKey)
  {
    var more := profiles + [p];
    forall i, j | 0 <= i < j < |more| ensures ProfileKey(more[i]) != ProfileKey(more[j]) {
      assert more[i] in profiles;
      if j < |profiles| {
        assert ProfileKey(profiles[i]) != ProfileKey(profiles[j]);
      }
    }
  }

  lemma OneNotRefused(rules: Rules, s: Store, o: Outcome, p: Profile)
    requires Settle(rules, s, o, p).failed == [] && Settle(rules, s, o, p).missingCore == []
    ensures o.failed == [] && o.missingCore == []
    ensures ValidProfile(rules, p) && p.id !in o.profiles
    ensures Settle(rules, s, o, p).profiles.Keys == o.profiles.Keys + {p.id}
  {
  }

  lemma {:induction false} NothingPicked<T, U>(records: seq<T>, pick: T -> Option<U>)
    requires Picked(records, pick) == []
    ensures forall r | r in records :: pick(r).None?
  {
    if records != [] {
      var n := |records| - 1;
      NothingPicked(records[..n], pick);
      assert records == records[..n] + [records[n]];
    }
  }

  // Nothing missing, nothing failed, in an import onto nothing.
  ghost predicate ImportsWhole(rules: Rules, machine: Machine, document: Document) {
    var report := Reported(rules, EMPTY, Planned(document, NOTHING, machine));
    report.failed == [] && report.notes.missingCore == [] && report.notes.missingProxy == []
  }

  lemma WholeImportsAreFaultless(rules: Rules, machine: Machine, document: Document)
    requires ImportsWhole(rules, machine, document)
    ensures CoresPass(rules, document) && ProxiesPass(rules, document)
    ensures Faultless(rules, document, document.profiles) && DistinctBy(document.profiles, ProfileKey)
  {
    hide Picked, Settled;
    var plan, nameable := Planned(document, NOTHING, machine), NameableIn(document, NOTHING);
    assert Ids(NOTHING.cores, CoreKey) == {} && Ids(NOTHING.proxies, ProxyKey) == {}
        && Ids(NOTHING.profiles, ProfileKey) == {};
    PickedAll(document.cores, Arriving({}, CoreKey));
    PickedAll(document.proxies, Arriving({}, ProxyKey));
    NothingPicked(document.cores, CoreFailed(rules));
    NothingPicked(document.proxies, ProxyFailed(rules));
    NothingPicked(document.profiles, Coreless({}, nameable));
    NothingPicked(document.profiles, Proxyless({}, nameable));
    forall p | p in document.profiles ensures Comes({}, nameable, p) && !Astray(nameable.proxies, p) {
      assert Coreless({}, nameable)(p).None? && Proxyless({}, nameable)(p).None?;
    }
    PickedAlike(document.profiles, ArrivingProfile({}, nameable, machine), Rehoused(machine));
    HousedProfiles(machine, document.profiles);
    NothingRefused(rules, WithRecords(rules, EMPTY, plan), plan.profiles);
    FaultlessAsHoused(rules, machine, document, plan.profiles);
  }

  lemma FaultlessAsHoused(rules: Rules, machine: Machine, document: Document, housed: seq<Profile>)
    requires |housed| == |document.profiles|
    requires forall i | 0 <= i < |housed| :: housed[i] == Housed(machine, document.profiles[i])
    requires forall p | p in housed :: ValidProfile(rules, p)
    requires DistinctBy(housed, ProfileKey)
    requires forall p | p in document.profiles ::
              p.core in Ids(document.cores, CoreKey) && !Astray(Ids(document.proxies, ProxyKey), p)
    ensures Faultless(rules, document, document.profiles) && DistinctBy(document.profiles, ProfileKey)
  {
    forall p | p in document.profiles ensures Fault(rules, document, p) == None {
      var i :| 0 <= i < |housed| && document.profiles[i] == p;
      assert housed[i] in housed;
    }
    forall i, j | 0 <= i < j < |housed| ensures ProfileKey(document.profiles[i]) != ProfileKey(document.profiles[j]) {
      assert ProfileKey(housed[i]) != ProfileKey(housed[j]);
    }
  }

  // Restore accepts exactly the documents an import onto nothing takes whole and in which
  // no core and no proxy could have been written over by another.
  lemma RestoreAcceptsWhatImportsWhole(rules: Rules, machine: Machine, document: Document)
    ensures Restorable(rules, document) <==>
              && DistinctBy(document.cores, CoreKey) && DistinctBy(document.proxies, ProxyKey)
              && ImportsWhole(rules, machine, document)
  {
    hide Reported, Faultless, CoresPass, ProxiesPass;
    if Restorable(rules, document) {
      RestoreIsImportOntoNothing(rules, machine, document);
    }
    if ImportsWhole(rules, machine, document) {
      WholeImportsAreFaultless(rules, machine, document);
    }
  }

  // ---- Export, then restore ----

  function Exported(credentials: Credentials, p: Proxy): Proxy {
    match credentials
    case Included => p
    case Excluded => StrippedProxy(p)
  }

  // `ConfigBackup::build`
  function Build(snapshot: Snapshot, credentials: Credentials): Document {
    Document(credentials, snapshot.cores, Mapped(snapshot.proxies, p => Exported(credentials, p)), snapshot.profiles)
  }

  // An export holds every record, in order and under its own statement about credentials; and
  // if that is that they are left out, no secret is in it anywhere.
  lemma ExportHoldsWhatItSays(snapshot: Snapshot, credentials: Credentials)
    ensures var document := Build(snapshot, credentials);
            && document.credentials == credentials
            && document.cores == snapshot.cores && document.profiles == snapshot.profiles
            && |document.proxies| == |snapshot.proxies|
            && forall i | 0 <= i < |snapshot.proxies| ::
                 var written, stored := document.proxies[i], snapshot.proxies[i];
                 && written.id == stored.id && written.name == stored.name
                 && SameButSecrets(stored.outbound, written.outbound)
                 && SecretsOf(written.outbound)
                      == if credentials.Included? then SecretsOf(stored.outbound) else NO_SECRETS
  {
    hide SecretsOf, Stripped;
    forall o { StrippingTakesTheSecretsOnly(o); }
  }

  ghost predicate AllValid(rules: Rules, s: Store) {
    && (forall k | k in s.cores :: ValidCore(rules, s.cores[k]))
    && (forall k | k in s.proxies :: ValidProxy(rules, s.proxies[k]))
    && (forall k | k in s.profiles :: ValidProfile(rules, s.profiles[k]))
  }

  // The same configuration, each profile in its directory on this machine.
  function Exporting(s: Store, credentials: Credentials, machine: Machine): Store {
    Store(s.cores, map k | k in s.proxies :: Exported(credentials, s.proxies[k]),
          map k | k in s.profiles :: Housed(machine, s.profiles[k]))
  }

  predicate NeedsNoCredentials(p: Proxy) {
    p.outbound.Socks5? || p.outbound.Http?
  }

  lemma ExportIsFaultless(rules: Rules, s: Store, snapshot: Snapshot, credentials: Credentials)
    requires Sound(s) && AllValid(rules, s) && Describes(snapshot, s)
    ensures var document := Build(snapshot, credentials);
            Unrepeated(document) && CoresPass(rules, document) && Faultless(rules, document, document.profiles)
  {
    var document := Build(snapshot, credentials);
    forall i, j | 0 <= i < j < |document.proxies|
      ensures ProxyKey(document.proxies[i]) != ProxyKey(document.proxies[j])
    {
      assert ProxyKey(snapshot.proxies[i]) != ProxyKey(snapshot.proxies[j]);
    }
    forall p | p in document.profiles ensures Fault(rules, document, p) == None {
      assert Resolves(s, p);
      assert s.cores[p.core] in document.cores && CoreKey(s.cores[p.core]) == p.core;
      if p.proxy.Some? {
        var q := s.proxies[p.proxy.value];
        var i :| 0 <= i < |snapshot.proxies| && snapshot.proxies[i] == q;
        assert document.proxies[i] in document.proxies && ProxyKey(document.proxies[i]) == p.proxy.value;
      }
    }
  }

  lemma ExportedProxiesPass(rules: Rules, s: Store, snapshot: Snapshot, credentials: Credentials)
    requires rules.Sane() && AllValid(rules, s) && Describes(snapshot, s)
    ensures ProxiesPass(rules, Build(snapshot, credentials)) <==>
              credentials.Included? || forall p | p in snapshot.proxies :: NeedsNoCredentials(p)
  {
    var document := Build(snapshot, credentials);
    forall i | 0 <= i < |snapshot.proxies|
      ensures ValidProxy(rules, document.proxies[i]) <==>
                credentials.Included? || NeedsNoCredentials(snapshot.proxies[i])
    {
      var p := snapshot.proxies[i];
      assert ValidProxy(rules, p);
      StrippedIsUsable(rules, p);
    }
    if ProxiesPass(rules, document) {
      forall p | p in snapshot.proxies ensures credentials.Included? || NeedsNoCredentials(p) {
        var i :| 0 <= i < |snapshot.proxies| && snapshot.proxies[i] == p;
        assert document.proxies[i] in document.proxies;
      }
    }
  }

  // An accepted export rebuilds what was exported: on any machine, over anything.
  lemma ExportThenRestore(rules: Rules, machine: Machine, s: Store, snapshot: Snapshot, credentials: Credentials)
    requires rules.Sane() && Sound(s) && AllValid(rules, s) && Describes(snapshot, s)
    ensures var document := Build(snapshot, credentials);
            (Restorable(rules, document) <==>
                credentials.Included? || forall p | p in snapshot.proxies :: NeedsNoCredentials(p))
    ensures var plan := Restoring(Build(snapshot, credentials), machine);
            Rebuilt(plan.cores, plan.proxies, plan.profiles) == Exporting(s, credentials, machine)
    ensures var plan := Restoring(Build(snapshot, credentials), machine);
            SameConfiguration(machine, s, credentials, Rebuilt(plan.cores, plan.proxies, plan.profiles))
  {
    hide Upserted, Picked, Unrepeated, CoresPass, ProxiesPass, Faultless, Sound, AllValid, Describes,
        NeedsNoCredentials, Housed, Exported;
    ExportIsFaultless(rules, s, snapshot, credentials);
    ExportedProxiesPass(rules, s, snapshot, credentials);
    CoresRebuilt(s, snapshot);
    ProxiesRebuilt(s, snapshot, credentials);
    ProfilesRebuilt(machine, s, snapshot);
    ExportingIsTheSame(machine, s, credentials);
  }

  // `t` is `s` on this machine: core by core the same; proxy by proxy the same but for
  // secrets that were left out; profile by profile the same but for a directory that is not here.
  ghost predicate SameConfiguration(machine: Machine, s: Store, credentials: Credentials, t: Store) {
    && t.cores == s.cores && t.proxies.Keys == s.proxies.Keys && t.profiles.Keys == s.profiles.Keys
    && (forall k | k in s.proxies ::
          && t.proxies[k].id == s.proxies[k].id && t.proxies[k].name == s.proxies[k].name
          && if credentials.Included? then t.proxies[k] == s.proxies[k]
             else SameButSecrets(s.proxies[k].outbound, t.proxies[k].outbound)
                  && SecretsOf(t.proxies[k].outbound) == NO_SECRETS)
    && (forall k | k in s.profiles ::
          var p := s.profiles[k];
          t.profiles[k] == if machine.isHere(p.dir) then p else p.(dir := machine.home(p.id)))
  }

  lemma ExportingIsTheSame(machine: Machine, s: Store, credentials: Credentials)
    ensures SameConfiguration(machine, s, credentials, Exporting(s, credentials, machine))
  {
    hide SameButSecrets, SecretsOf, Stripped;
    forall o { StrippingTakesTheSecretsOnly(o); }
  }

  // A table rebuilt from a list of what another list has become, identifiers apart.
  lemma RebuiltTable<T>(records: seq<T>, id: T -> Id, after: seq<T>)
    requires DistinctBy(records, id) && |after| == |records|
    requires forall i | 0 <= i < |records| :: id(after[i]) == id(records[i])
    ensures Upserted(map[], after, id, Any).Keys == Ids(records, id)
    ensures forall i | 0 <= i < |records| ::
              id(records[i]) in Upserted(map[], after, id, Any)
                  && Upserted(map[], after, id, Any)[id(records[i])] == after[i]
  {
    hide Upserted;
    StillDistinct(records, id, after);
    UpsertedDistinct(after, id, Any);
    var rebuilt := Upserted(map[], after, id, Any);
    hide DistinctBy;
    forall i | 0 <= i < |records| ensures id(records[i]) in rebuilt && rebuilt[id(records[i])] == after[i] {
      assert after[i] in after && id(after[i]) == id(records[i]);
    }
    forall k | k in rebuilt ensures k in Ids(records, id) {
      var i :| 0 <= i < |after| && id(after[i]) == k;
      assert records[i] in records && id(records[i]) == k;
    }
    forall k | k in Ids(records, id) ensures k in rebuilt {
      var i :| 0 <= i < |records| && id(records[i]) == k;
    }
  }

  lemma StillDistinct<T>(records: seq<T>, id: T -> Id, after: seq<T>)
    requires DistinctBy(records, id) && |after| == |records|
    requires forall i | 0 <= i < |records| :: id(after[i]) == id(records[i])
    ensures DistinctBy(after, id)
  {
    forall i, j | 0 <= i < j < |after| ensures id(after[i]) != id(after[j]) {
      assert id(records[i]) != id(records[j]);
    }
  }

  lemma CoresRebuilt(s: Store, snapshot: Snapshot)
    requires Sound(s) && Describes(snapshot, s)
    ensures Upserted(map[], snapshot.cores, CoreKey, Any) == s.cores
  {
    hide Upserted;
    HeldIsStored(snapshot, s);
    RebuiltTable(snapshot.cores, CoreKey, snapshot.cores);
    var rebuilt := Upserted(map[], snapshot.cores, CoreKey, Any);
    hide Ids, Sound;
    forall k | k in s.cores ensures rebuilt[k] == s.cores[k] {
      var i :| 0 <= i < |snapshot.cores| && snapshot.cores[i] == s.cores[k];
      CoreIsUnderItsId(s, k);
    }
  }

  lemma CoreIsUnderItsId(s: Store, k: CoreId)
    requires Sound(s) && k in s.cores
    ensures CoreKey(s.cores[k]) == k
  {
  }

  lemma ProxiesRebuilt(s: Store, snapshot: Snapshot, credentials: Credentials)
    requires Sound(s) && Describes(snapshot, s)
    ensures Upserted(map[], Build(snapshot, credentials).proxies, ProxyKey, Any)
         == map k | k in s.proxies :: Exported(credentials, s.proxies[k])
  {
    hide Upserted, Exported;
    var after := Build(snapshot, credentials).proxies;
    HeldIsStored(snapshot, s);
    forall i | 0 <= i < |snapshot.proxies| ensures ProxyKey(after[i]) == ProxyKey(snapshot.proxies[i]) {
      ExportedKeepsItsId(credentials, snapshot.proxies[i]);
    }
    RebuiltTable(snapshot.proxies, ProxyKey, after);
    var rebuilt := Upserted(map[], after, ProxyKey, Any);
    hide Ids, Sound;
    forall k | k in s.proxies ensures rebuilt[k] == Exported(credentials, s.proxies[k]) {
      var i :| 0 <= i < |snapshot.proxies| && snapshot.proxies[i] == s.proxies[k];
      ProxyIsUnderItsId(s, k);
    }
  }

  lemma ExportedKeepsItsId(credentials: Credentials, p: Proxy)
    ensures Exported(credentials, p).id == p.id
  {
  }

  lemma ProxyIsUnderItsId(s: Store, k: ProxyId)
    requires Sound(s) && k in s.proxies
    ensures ProxyKey(s.proxies[k]) == k
  {
  }

  lemma ProfilesRebuilt(machine: Machine, s: Store, snapshot: Snapshot)
    requires Sound(s) && Describes(snapshot, s)
    ensures Upserted(map[], Picked(snapshot.profiles, Rehoused(machine)), ProfileKey, Any)
         == map k | k in s.profiles :: Housed(machine, s.profiles[k])
  {
    hide Upserted, Picked, Housed;
    var after := Picked(snapshot.profiles, Rehoused(machine));
    HeldIsStored(snapshot, s);
    HousedProfiles(machine, snapshot.profiles);
    forall i | 0 <= i < |snapshot.profiles| ensures ProfileKey(after[i]) == ProfileKey(snapshot.profiles[i]) {
      HousedKeepsItsId(machine, snapshot.profiles[i]);
    }
    RebuiltTable(snapshot.profiles, ProfileKey, after);
    var rebuilt := Upserted(map[], after, ProfileKey, Any);
    hide Ids, Sound;
    forall k | k in s.profiles ensures rebuilt[k] == Housed(machine, s.profiles[k]) {
      var i :| 0 <= i < |snapshot.profiles| && snapshot.profiles[i] == s.profiles[k];
      ProfileIsUnderItsId(s, k);
    }
  }

  lemma HousedKeepsItsId(machine: Machine, p: Profile)
    ensures Housed(machine, p).id == p.id
  {
  }

  lemma ProfileIsUnderItsId(s: Store, k: ProfileId)
    requires Sound(s) && k in s.profiles
    ensures ProfileKey(s.profiles[k]) == k
  {
  }

  function NeedsCredentials(): Proxy -> Option<Proxy> {
    (p: Proxy) => if NeedsNoCredentials(p) then None else Some(p)
  }

  // Otherwise it was exported without credentials something needs, and the refusal counts
  // exactly the proxies that needed them.
  lemma ExcludedIsRefusedByCount(rules: Rules, s: Store, snapshot: Snapshot, present: Snapshot, error: RestoreError)
    requires rules.Sane() && Sound(s) && AllValid(rules, s) && Describes(snapshot, s)
    requires Explained(rules, Build(snapshot, Excluded), present, Replace, error)
    ensures error == CredentialsExcluded(|Picked(snapshot.proxies, NeedsCredentials())|)
  {
    hide Picked, ValidProxy, ValidCore, ValidProfile;
    var document := Build(snapshot, Excluded);
    ExportIsFaultless(rules, s, snapshot, Excluded);
    assert forall i :: !FirstFailing(document.cores, CoreRule(rules), i);
    assert forall i :: !FirstFailing(document.profiles, FaultFree(rules, document), i);
    assert error.CredentialsExcluded?;
    forall p | p in snapshot.proxies ensures ValidProxy(rules, StrippedProxy(p)) <==> NeedsNoCredentials(p) {
      assert ValidProxy(rules, p);
      StrippedIsUsable(rules, p);
    }
    SameCount(rules, snapshot.proxies, document.proxies);
  }

  lemma {:induction false} SameCount(rules: Rules, before: seq<Proxy>, stripped: seq<Proxy>)
    requires |before| == |stripped| && forall i | 0 <= i < |before| :: stripped[i] == StrippedProxy(before[i])
    requires forall p | p in before :: ValidProxy(rules, StrippedProxy(p)) <==> NeedsNoCredentials(p)
    ensures |Picked(stripped, Unusable(rules))| == |Picked(before, NeedsCredentials())|
  {
    hide ValidProxy, StrippedProxy, NeedsNoCredentials;
    if before != [] {
      var n := |before| - 1;
      assert before[n] in before;
      assert forall p | p in before[..n] :: p in before;
      SameCount(rules, before[..n], stripped[..n]);
    }
  }

  // Some identifier is on the list twice.
  ghost predicate CoreTwice(cores: seq<Core>) {
    exists i, j :: 0 <= i < j < |cores| && cores[i].id == cores[j].id
  }

  ghost predicate ProxyTwice(proxies: seq<Proxy>) {
    exists i, j :: 0 <= i < j < |proxies| && proxies[i].id == proxies[j].id
  }

  ghost predicate ProfileTwice(profiles: seq<Profile>) {
    exists i, j :: 0 <= i < j < |profiles| && profiles[i].id == profiles[j].id
  }

  lemma NothingTwice(document: Document)
    ensures DistinctBy(document.cores, CoreKey) <==> !CoreTwice(document.cores)
    ensures DistinctBy(document.proxies, ProxyKey) <==> !ProxyTwice(document.proxies)
    ensures DistinctBy(document.profiles, ProfileKey) <==> !ProfileTwice(document.profiles)
  {
    if CoreTwice(document.cores) {
      var i, j :| 0 <= i < j < |document.cores| && document.cores[i].id == document.cores[j].id;
      assert CoreKey(document.cores[i]) == CoreKey(document.cores[j]);
    }
    if ProxyTwice(document.proxies) {
      var i, j :| 0 <= i < j < |document.proxies| && document.proxies[i].id == document.proxies[j].id;
      assert ProxyKey(document.proxies[i]) == ProxyKey(document.proxies[j]);
    }
    if ProfileTwice(document.profiles) {
      var i, j :| 0 <= i < j < |document.profiles| && document.profiles[i].id == document.profiles[j].id;
      assert ProfileKey(document.profiles[i]) == ProfileKey(document.profiles[j]);
    }
  }

  // What a refusal before the profiles says is so: something is there already, a kind of
  // record repeats when no kind before it does, or so many proxies - all that break a rule -
  // break it in a document without credentials.
  lemma RefusalsAreTrue(rules: Rules, document: Document, present: Snapshot, mode: Mode, error: RestoreError)
    returns (names: seq<string>)
    requires Explained(rules, document, present, mode, error)
    ensures error.NotEmpty? <==> mode == OnlyWhenEmpty && present != NOTHING
    ensures error.NotEmpty? ==>
              error.present == Counts(|present.cores|, |present.proxies|, |present.profiles|)
    ensures error == Duplicate(CoreKind) ==> CoreTwice(document.cores)
    ensures error == Duplicate(ProxyKind) ==> !CoreTwice(document.cores) && ProxyTwice(document.proxies)
    ensures error == Duplicate(ProfileKind) ==>
              !CoreTwice(document.cores) && !ProxyTwice(document.proxies) && ProfileTwice(document.profiles)
    ensures !error.NotEmpty? && !error.Duplicate? ==>
              !CoreTwice(document.cores) && !ProxyTwice(document.proxies) && !ProfileTwice(document.profiles)
    ensures Selects(document.proxies, p => !ValidProxy(rules, p), (p: Proxy) => p.name, names)
    ensures error.CredentialsExcluded? ==> document.credentials == Excluded && error.count == |names| > 0
  {
    hide ValidProxy, ValidCore, ValidProfile, Selects, Picked, CoreTwice, ProxyTwice, ProfileTwice, FirstFailing, Fault;
    NothingTwice(document);
    hide DistinctBy;
    names := Picked(document.proxies, Unusable(rules));
    PickedSelects(document.proxies, Unusable(rules), p => !ValidProxy(rules, p), (p: Proxy) => p.name);
  }

  // A refusal over a profile is over the first that breaks a rule or names a record the
  // document does not hold, by its name, and says which it was.
  lemma ProfileFaultIsTheFirst(rules: Rules, document: Document, present: Snapshot, mode: Mode, error: RestoreError)
    returns (i: nat)
    requires ProfileFault(rules, document, present, mode, error)
    ensures i < |document.profiles| && !InOrder(rules, document, document.profiles[i])
    ensures forall j | 0 <= j < i :: InOrder(rules, document, document.profiles[j])
    ensures var p := document.profiles[i];
            error == if !ValidProfile(rules, p) then Unacceptable(ProfileKind, p.shown.name)
                     else Unresolved(p.shown.name, if !HoldsItsCore(document, p) then CoreKind else ProxyKind)
  {
    hide Ids;
    var first :| FirstFailing(document.profiles, FaultFree(rules, document), first)
        && Fault(rules, document, document.profiles[first]) == Some(error);
    i := first;
    forall p: Profile {
      CoreIdIsThere(document.cores, p.core);
    }
    forall p: Profile | p.proxy.Some? {
      ProxyIdIsThere(document.proxies, p.proxy.value);
    }
    assert forall j | 0 <= j < i :: FaultFree(rules, document)(document.profiles[j]);
  }

  predicate HoldsItsCore(document: Document, p: Profile) {
    exists c | c in document.cores :: c.id == p.core
  }

  predicate InOrder(rules: Rules, document: Document, p: Profile) {
    && ValidProfile(rules, p) && HoldsItsCore(document, p)
    && (p.proxy.Some? ==> exists x | x in document.proxies :: x.id == p.proxy.value)
  }

  // ---- Whole sessions ----

  datatype Event =
    | Change(change: Change)
    | Import(plan: ImportPlan)
    | Restore(cores: seq<Core>, proxies: seq<Proxy>, profiles: seq<Profile>)

  function Following(rules: Rules, s: Store, event: Event): Store {
    match event
    case Change(change) => After(rules, s, change)
    case Import(plan) => Stored(rules, s, plan)
    case Restore(cores, proxies, profiles) =>
      if Replaceable(cores, proxies, profiles) then Rebuilt(cores, proxies, profiles) else s
  }

  function Session(rules: Rules, s: Store, events: seq<Event>): Store {
    if events == [] then s
    else Following(rules, Session(rules, s, events[..|events| - 1]), events[|events| - 1])
  }

  lemma RebuiltKeepsReferences(cores: seq<Core>, proxies: seq<Proxy>, profiles: seq<Profile>)
    requires Replaceable(cores, proxies, profiles)
    ensures Sound(Rebuilt(cores, proxies, profiles))
  {
    var t := Rebuilt(cores, proxies, profiles);
    UpsertedRows(map[], cores, CoreKey, Any);
    UpsertedRows(map[], proxies, ProxyKey, Any);
    UpsertedRows(map[], profiles, ProfileKey, Any);
    forall k | k in t.profiles ensures Resolves(t, t.profiles[k]) {
      assert Resolves(Rebuilt(cores, proxies, []), t.profiles[k]);
    }
  }

  // Whatever is done, in whatever order, with whatever plans: no reference leads nowhere.
  lemma {:induction false} EverySessionKeepsReferences(rules: Rules, s: Store, events: seq<Event>)
    requires Sound(s)
    ensures Sound(Session(rules, s, events))
  {
    if events != [] {
      var n := |events| - 1;
      EverySessionKeepsReferences(rules, s, events[..n]);
      var t := Session(rules, s, events[..n]);
      match events[n]
      case Change(change) => ChangesKeepReferences(rules, t, change);
      case Import(plan) => ImportKeepsReferences(rules, t, plan);
      case Restore(cores, proxies, profiles) =>
        if Replaceable(cores, proxies, profiles) {
          RebuiltKeepsReferences(cores, proxies, profiles);
        }
    }
  }
}
