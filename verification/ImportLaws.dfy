// What an import promises, whatever the document and whatever the configuration it meets.
module ImportLaws {
  import opened Values
  import opened Wrappers
  import opened Lists
  import opened Configuration
  import opened Imports

  // ---- References ----

  lemma RecordsKeepReferences(rules: Rules, s: Store, plan: ImportPlan)
    requires Sound(s)
    ensures Sound(WithRecords(rules, s, plan))
  {
    UpsertedKeys(s.cores, plan.cores, CoreKey, CoreRule(rules));
    UpsertedRows(s.cores, plan.cores, CoreKey, CoreRule(rules));
    UpsertedKeys(s.proxies, plan.proxies, ProxyKey, ProxyRule(rules));
    UpsertedRows(s.proxies, plan.proxies, ProxyKey, ProxyRule(rules));
    forall k | k in s.profiles ensures Resolves(WithRecords(rules, s, plan), s.profiles[k]) {
      assert Resolves(s, s.profiles[k]);
    }
  }

  // A profile is offered to the database only with references that lead somewhere, and
  // never over a row that is there.
  lemma {:induction false} SettledKeepsReferences(rules: Rules, s: Store, profiles: seq<Profile>)
    requires Sound(s)
    ensures Sound(s.(profiles := Settled(rules, s, profiles).profiles))
    ensures forall f | f in Settled(rules, s, profiles).failed :: f.refusal in {Invalid, Taken}
    ensures forall k | k in s.profiles ::
              k in Settled(rules, s, profiles).profiles && Settled(rules, s, profiles).profiles[k] == s.profiles[k]
  {
    if profiles == [] {
      assert s.(profiles := s.profiles) == s;
    } else {
      hide Settle, Sound;
      var n := |profiles| - 1;
      SettledKeepsReferences(rules, s, profiles[..n]);
      SettleKeepsReferences(rules, s, Settled(rules, s, profiles[..n]), profiles[n]);
    }
  }

  lemma SettleKeepsReferences(rules: Rules, s: Store, o: Outcome, p: Profile)
    requires Sound(s.(profiles := o.profiles))
    ensures Sound(s.(profiles := Settle(rules, s, o, p).profiles))
    ensures forall f | f in Settle(rules, s, o, p).failed :: f in o.failed || f.refusal in {Invalid, Taken}
    ensures forall k | k in o.profiles ::
              k in Settle(rules, s, o, p).profiles && Settle(rules, s, o, p).profiles[k] == o.profiles[k]
  {
    hide Sound;
    ChangesKeepReferences(rules, s.(profiles := o.profiles), InsertProfile(Cleared(s.proxies.Keys, p)));
  }

  // Any plan, made for this store or not.
  lemma ImportKeepsReferences(rules: Rules, s: Store, plan: ImportPlan)
    requires Sound(s)
    ensures Sound(Stored(rules, s, plan))
    ensures forall f | f in Reported(rules, s, plan).failed :: f.refusal in {Invalid, Taken}
  {
    RecordsKeepReferences(rules, s, plan);
    var t := WithRecords(rules, s, plan);
    SettledKeepsReferences(rules, t, plan.profiles);
    PickedMembers(plan.cores, CoreFailed(rules));
    PickedMembers(plan.proxies, ProxyFailed(rules));
  }

  // ---- Nothing stored is touched ----

  lemma {:induction false} ArrivingMembers<T>(records: seq<T>, held: set<Id>, id: T -> Id)
    ensures forall r | r in Picked(records, Arriving(held, id)) :: r in records && id(r) !in held
    ensures forall r | r in records && id(r) !in held :: r in Picked(records, Arriving(held, id))
  {
    if records != [] {
      var n := |records| - 1;
      ArrivingMembers(records[..n], held, id);
      assert records == records[..n] + [records[n]];
    }
  }

  lemma ArrivalsWriteOverNothing<T>(table: map<Id, T>, records: seq<T>, id: T -> Id, valid: T -> bool)
    ensures var t := Upserted(table, Picked(records, Arriving(table.Keys, id)), id, valid);
            forall k | k in table :: k in t && t[k] == table[k]
  {
    ArrivingMembers(records, table.Keys, id);
    UpsertedKeys(table, Picked(records, Arriving(table.Keys, id)), id, valid);
  }

  lemma ImportChangesNothingStored(rules: Rules, s: Store, document: Document, present: Snapshot, machine: Machine)
    requires Sound(s) && Describes(present, s)
    ensures var t := Stored(rules, s, Planned(document, present, machine));
            && (forall k | k in s.cores :: k in t.cores && t.cores[k] == s.cores[k])
            && (forall k | k in s.proxies :: k in t.proxies && t.proxies[k] == s.proxies[k])
            && (forall k | k in s.profiles :: k in t.profiles && t.profiles[k] == s.profiles[k])
  {
    hide Picked, Upserted, Settled;
    var plan := Planned(document, present, machine);
    HeldIsStored(present, s);
    ArrivalsWriteOverNothing(s.cores, document.cores, CoreKey, CoreRule(rules));
    ArrivalsWriteOverNothing(s.proxies, document.proxies, ProxyKey, ProxyRule(rules));
    RecordsKeepReferences(rules, s, plan);
    SettledKeepsReferences(rules, WithRecords(rules, s, plan), plan.profiles);
  }

  lemma HeldIsStored(present: Snapshot, s: Store)
    requires Sound(s) && Describes(present, s)
    ensures Ids(present.cores, CoreKey) == s.cores.Keys
    ensures Ids(present.proxies, ProxyKey) == s.proxies.Keys
    ensures Ids(present.profiles, ProfileKey) == s.profiles.Keys
  {
  }

  // ---- What arrives, and what is said of what does not ----

  // `p` is the file's `q` on this machine: the same profile, in its directory or its home
  // here, with its proxy or - that being nowhere - with none.
  predicate ArrivesAs(nameable: Nameable, machine: Machine, q: Profile, p: Profile) {
    && p.id == q.id && p.core == q.core && p.shown == q.shown
    && p.core in nameable.cores
    && p.dir == (if machine.isHere(q.dir) then q.dir else machine.home(q.id))
    && (p.proxy == q.proxy || (p.proxy.None? && q.proxy.value !in nameable.proxies))
    && (p.proxy.Some? ==> p.proxy.value in nameable.proxies)
  }

  lemma PlannedProfilesAreTheFiles(document: Document, present: Snapshot, machine: Machine)
    ensures forall p | p in Planned(document, present, machine).profiles ::
              p.id !in Ids(present.profiles, ProfileKey)
              && exists q | q in document.profiles :: ArrivesAs(NameableIn(document, present), machine, q, p)
  {
    hide Picked, ArrivesAs, Housed, Cleared, ArrivingProfile;
    var held, nameable := Ids(present.profiles, ProfileKey), NameableIn(document, present);
    ArrivingProfiles(document.profiles, held, nameable, machine);
    forall p | p in Planned(document, present, machine).profiles
      ensures p.id !in held && exists q | q in document.profiles :: ArrivesAs(nameable, machine, q, p)
    {
      var q :| q in document.profiles && Comes(held, nameable, q) && p == Housed(machine, Cleared(nameable.proxies, q));
      HousedArrives(nameable, machine, q);
    }
  }

  lemma HousedArrives(nameable: Nameable, machine: Machine, q: Profile)
    requires q.core in nameable.cores
    ensures var p := Housed(machine, Cleared(nameable.proxies, q)); ArrivesAs(nameable, machine, q, p) && p.id == q.id
  {
  }

  predicate CoreSomewhere(s: Store, document: Document, id: CoreId) {
    id in s.cores || exists c | c in document.cores :: c.id == id
  }

  predicate ProxySomewhere(s: Store, document: Document, id: ProxyId) {
    id in s.proxies || exists p | p in document.proxies :: p.id == id
  }

  // A profile that is new here, and whose core is stored or comes with it.
  predicate IsNew(s: Store, document: Document, p: Profile) {
    p.id !in s.profiles && CoreSomewhere(s, document, p.core)
  }

  predicate LosesItsProxy(s: Store, document: Document, p: Profile) {
    p.proxy.Some? && !ProxySomewhere(s, document, p.proxy.value)
  }

  function AsItArrives(s: Store, document: Document, machine: Machine, p: Profile): Profile {
    p.(proxy := if LosesItsProxy(s, document, p) then None else p.proxy,
       dir := if machine.isHere(p.dir) then p.dir else machine.home(p.id))
  }

  lemma NameableIsSomewhere(s: Store, document: Document, present: Snapshot, id: Id)
    requires Sound(s) && Describes(present, s)
    ensures id in NameableIn(document, present).cores <==> CoreSomewhere(s, document, id)
    ensures id in NameableIn(document, present).proxies <==> ProxySomewhere(s, document, id)
  {
    HeldIsStored(present, s);
    CoreIdIsThere(document.cores, id);
    ProxyIdIsThere(document.proxies, id);
  }

  lemma CoreIdIsThere(cores: seq<Core>, id: CoreId)
    ensures id in Ids(cores, CoreKey) <==> exists c | c in cores :: c.id == id
  {
    if c :| c in cores && c.id == id {
      assert CoreKey(c) == id;
    }
  }

  lemma ProxyIdIsThere(proxies: seq<Proxy>, id: ProxyId)
    ensures id in Ids(proxies, ProxyKey) <==> exists p | p in proxies :: p.id == id
  {
    if p :| p in proxies && p.id == id {
      assert ProxyKey(p) == id;
    }
  }

  lemma ArrivalsAreNew(s: Store, document: Document, present: Snapshot, machine: Machine, p: Profile)
    requires Sound(s) && Describes(present, s)
    ensures Comes(Ids(present.profiles, ProfileKey), NameableIn(document, present), p) <==> IsNew(s, document, p)
    ensures Astray(NameableIn(document, present).proxies, p) <==> LosesItsProxy(s, document, p)
    ensures Housed(machine, Cleared(NameableIn(document, present).proxies, p)) == AsItArrives(s, document, machine, p)
  {
    HeldIsStored(present, s);
    NameableIsSomewhere(s, document, present, p.core);
    if p.proxy.Some? {
      NameableIsSomewhere(s, document, present, p.proxy.value);
    }
    hide CoreSomewhere, ProxySomewhere, NameableIn, Ids, Sound, Describes;
  }

  // The plan is, list by list and in the file's order, all of the file that is new here.
  lemma PlanIsWhatIsNew(s: Store, document: Document, present: Snapshot, machine: Machine)
    requires Sound(s) && Describes(present, s)
    ensures var plan := Planned(document, present, machine);
            && Selects(document.cores, (c: Core) => c.id !in s.cores, (c: Core) => c, plan.cores)
            && Selects(document.proxies, (p: Proxy) => p.id !in s.proxies, (p: Proxy) => p, plan.proxies)
            && Selects(document.profiles, p => IsNew(s, document, p), p => AsItArrives(s, document, machine, p),
                       plan.profiles)
  {
    hide Selects, Picked, IsNew, AsItArrives, NameableIn, Arriving, ArrivingProfile, Differing, DifferingProfile;
    HeldIsStored(present, s);
    hide Ids, Sound, Describes;
    NewRecords(s, document);
    NewProfiles(s, document, present, machine);
  }

  lemma NewRecords(s: Store, document: Document)
    ensures Selects(document.cores, (c: Core) => c.id !in s.cores, (c: Core) => c,
                    Picked(document.cores, Arriving(s.cores.Keys, CoreKey)))
    ensures Selects(document.proxies, (p: Proxy) => p.id !in s.proxies, (p: Proxy) => p,
                    Picked(document.proxies, Arriving(s.proxies.Keys, ProxyKey)))
  {
    hide Selects, Picked;
    forall c: Core ensures Arriving(s.cores.Keys, CoreKey)(c) == if c.id !in s.cores then Some(c) else None {
      assert CoreKey(c) == c.id;
    }
    PickedSelects(document.cores, Arriving(s.cores.Keys, CoreKey), (c: Core) => c.id !in s.cores, (c: Core) => c);
    forall p: Proxy ensures Arriving(s.proxies.Keys, ProxyKey)(p) == if p.id !in s.proxies then Some(p) else None {
      assert ProxyKey(p) == p.id;
    }
    PickedSelects(document.proxies, Arriving(s.proxies.Keys, ProxyKey), (p: Proxy) => p.id !in s.proxies,
                  (p: Proxy) => p);
  }

  lemma NewProfiles(s: Store, document: Document, present: Snapshot, machine: Machine)
    requires Sound(s) && Describes(present, s)
    ensures Selects(document.profiles, p => IsNew(s, document, p), p => AsItArrives(s, document, machine, p),
                    Picked(document.profiles,
                           ArrivingProfile(s.profiles.Keys, NameableIn(document, present), machine)))
  {
    hide Selects, Picked, Comes, Housed, Cleared, IsNew, AsItArrives, NameableIn;
    HeldIsStored(present, s);
    forall p { ArrivalsAreNew(s, document, present, machine, p); }
    hide Ids, Sound, Describes;
    PickedSelects(document.profiles, ArrivingProfile(s.profiles.Keys, NameableIn(document, present), machine),
                  p => IsNew(s, document, p), p => AsItArrives(s, document, machine, p));
  }

  // The same in everything but, perhaps, where its directory is.
  predicate AsStored(s: Store, p: Profile)
    requires p.id in s.profiles
  {
    s.profiles[p.id] == p.(dir := s.profiles[p.id].dir)
  }

  // What is said beside the plan. Named as differing, kind by kind: whatever was kept though
  // the stored record is another. Named further on: the new profiles that come without
  // their core and so not at all, those whose proxy is nowhere, and those that are moved -
  // from where and to where.
  lemma NotesAreExact(s: Store, document: Document, present: Snapshot, machine: Machine)
    returns (cores: seq<string>, proxies: seq<string>, profiles: seq<string>)
    requires Sound(s) && Describes(present, s)
    ensures Planned(document, present, machine).notes.differing == cores + proxies + profiles
    ensures Selects(document.cores, (c: Core) => c.id in s.cores && s.cores[c.id] != c, (c: Core) => c.name, cores)
    ensures Selects(document.proxies, (p: Proxy) => p.id in s.proxies && s.proxies[p.id] != p, (p: Proxy) => p.name,
                    proxies)
    ensures Selects(document.profiles, (p: Profile) => p.id in s.profiles && !AsStored(s, p),
                    (p: Profile) => p.shown.name, profiles)
    ensures var notes := Planned(document, present, machine).notes;
            && Selects(document.profiles, (p: Profile) => p.id !in s.profiles && !CoreSomewhere(s, document, p.core),
                       (p: Profile) => p.shown.name, notes.missingCore)
            && Selects(document.profiles, p => IsNew(s, document, p) && LosesItsProxy(s, document, p),
                       (p: Profile) => p.shown.name, notes.missingProxy)
            && Selects(document.profiles, p => IsNew(s, document, p) && !machine.isHere(p.dir),
                       (p: Profile) => Repointed(p.shown.name, p.dir, machine.home(p.id)), notes.repointed)
            && (notes.credentialsExcluded <==> document.credentials == Excluded)
  {
    cores := Picked(document.cores, Differing(present.cores, CoreKey, CoreName));
    proxies := Picked(document.proxies, Differing(present.proxies, ProxyKey, ProxyName));
    profiles := Picked(document.profiles, DifferingProfile(present.profiles));
    DifferingAreNamed(s, document, present);
    OthersAreNamed(s, document, present, machine);
  }

  lemma DifferingAreNamed(s: Store, document: Document, present: Snapshot)
    requires Sound(s) && Describes(present, s)
    ensures Selects(document.cores, (c: Core) => c.id in s.cores && s.cores[c.id] != c, (c: Core) => c.name,
                    Picked(document.cores, Differing(present.cores, CoreKey, CoreName)))
    ensures Selects(document.proxies, (p: Proxy) => p.id in s.proxies && s.proxies[p.id] != p, (p: Proxy) => p.name,
                    Picked(document.proxies, Differing(present.proxies, ProxyKey, ProxyName)))
    ensures Selects(document.profiles, (p: Profile) => p.id in s.profiles && !AsStored(s, p),
                    (p: Profile) => p.shown.name, Picked(document.profiles, DifferingProfile(present.profiles)))
  {
    hide Selects, Picked;
    HeldIsStored(present, s);
    forall c: Core { KeptDiffers(s.cores, present.cores, CoreKey, CoreName, c); }
    forall p: Proxy { KeptDiffers(s.proxies, present.proxies, ProxyKey, ProxyName, p); }
    forall p: Profile { KeptProfileDiffers(s.profiles, present.profiles, p); }
    hide Sound, Describes, Ids, Matches;
    PickedSelects(document.cores, Differing(present.cores, CoreKey, CoreName),
                  (c: Core) => c.id in s.cores && s.cores[c.id] != c, (c: Core) => c.name);
    PickedSelects(document.proxies, Differing(present.proxies, ProxyKey, ProxyName),
                  (p: Proxy) => p.id in s.proxies && s.proxies[p.id] != p, (p: Proxy) => p.name);
    PickedSelects(document.profiles, DifferingProfile(present.profiles),
                  (p: Profile) => p.id in s.profiles && !AsStored(s, p), (p: Profile) => p.shown.name);
  }

  lemma OthersAreNamed(s: Store, document: Document, present: Snapshot, machine: Machine)
    requires Sound(s) && Describes(present, s)
    ensures var notes := Planned(document, present, machine).notes;
            && Selects(document.profiles, (p: Profile) => p.id !in s.profiles && !CoreSomewhere(s, document, p.core),
                       (p: Profile) => p.shown.name, notes.missingCore)
            && Selects(document.profiles, p => IsNew(s, document, p) && LosesItsProxy(s, document, p),
                       (p: Profile) => p.shown.name, notes.missingProxy)
            && Selects(document.profiles, p => IsNew(s, document, p) && !machine.isHere(p.dir),
                       (p: Profile) => Repointed(p.shown.name, p.dir, machine.home(p.id)), notes.repointed)
  {
    hide Selects, Picked, Housed, Cleared, AsItArrives, NameableIn, Astray, LosesItsProxy, CoreSomewhere;
    HeldIsStored(present, s);
    forall p { ArrivalsAreNew(s, document, present, machine, p); }
    forall p: Profile { NameableIsSomewhere(s, document, present, p.core); }
    hide Ids, Sound, Describes;
    var held, nameable := s.profiles.Keys, NameableIn(document, present);
    PickedSelects(document.profiles, Coreless(held, nameable),
                  (p: Profile) => p.id !in s.profiles && !CoreSomewhere(s, document, p.core),
                  (p: Profile) => p.shown.name);
    PickedSelects(document.profiles, Proxyless(held, nameable),
                  p => IsNew(s, document, p) && LosesItsProxy(s, document, p), (p: Profile) => p.shown.name);
    PickedSelects(document.profiles, Moved(held, nameable, machine),
                  p => IsNew(s, document, p) && !machine.isHere(p.dir),
                  (p: Profile) => Repointed(p.shown.name, p.dir, machine.home(p.id)));
  }

  // A kept record is named as differing exactly when the stored one is another - for a
  // profile, in more than where its directory is.
  lemma DifferingIsDisagreement(s: Store, present: Snapshot, core: Core, proxy: Proxy, profile: Profile)
    requires Sound(s) && Describes(present, s)
    ensures Differing(present.cores, CoreKey, CoreName)(core).Some? <==> core.id in s.cores && s.cores[core.id] != core
    ensures Differing(present.proxies, ProxyKey, ProxyName)(proxy).Some? <==>
              proxy.id in s.proxies && s.proxies[proxy.id] != proxy
    ensures DifferingProfile(present.profiles)(profile).Some? <==>
              profile.id in s.profiles && s.profiles[profile.id] != profile.(dir := s.profiles[profile.id].dir)
  {
    hide Ids, Matches;
    HeldIsStored(present, s);
    KeptDiffers(s.cores, present.cores, CoreKey, CoreName, core);
    KeptDiffers(s.proxies, present.proxies, ProxyKey, ProxyName, proxy);
    KeptProfileDiffers(s.profiles, present.profiles, profile);
  }

  lemma KeptDiffers<T>(table: map<Id, T>, present: seq<T>, id: T -> Id, name: T -> string, r: T)
    requires Ids(present, id) == table.Keys
    requires forall q :: q in present <==> id(q) in table && table[id(q)] == q
    ensures Differing(present, id, name)(r).Some? <==> id(r) in table && table[id(r)] != r
  {
  }

  lemma KeptProfileDiffers(table: map<ProfileId, Profile>, present: seq<Profile>, p: Profile)
    requires Ids(present, ProfileKey) == table.Keys
    requires forall q: Profile :: q in present <==> q.id in table && table[q.id] == q
    requires forall k | k in table :: table[k].id == k
    ensures DifferingProfile(present)(p).Some? <==> p.id in table && table[p.id] != p.(dir := table[p.id].dir)
  {
    hide Ids;
    assert ProfileKey(p) == p.id;
    if p.id in table {
      assert table[p.id] in present;
    }
  }

  // `row` is the planned `p`, its proxy cleared if that was not stored.
  predicate LandsAs(proxies: set<ProxyId>, p: Profile, row: Profile) {
    row == if p.proxy.Some? && p.proxy.value !in proxies then p.(proxy := None) else p
  }

  // A row that is one of these profiles, as it could be written.
  predicate LandedFrom(rules: Rules, s: Store, profiles: seq<Profile>, k: ProfileId, row: Profile) {
    exists p | p in profiles ::
        p.id == k && ValidProfile(rules, p) && p.core in s.cores && LandsAs(s.proxies.Keys, p, row)
  }

  lemma {:induction false} SettledRows(rules: Rules, s: Store, profiles: seq<Profile>)
    ensures var rows := Settled(rules, s, profiles).profiles;
            forall k | k in rows ::
                (k in s.profiles && rows[k] == s.profiles[k]) || LandedFrom(rules, s, profiles, k, rows[k])
  {
    if profiles != [] {
      hide Settle, LandedFrom;
      var n := |profiles| - 1;
      SettledRows(rules, s, profiles[..n]);
      SettledRow(rules, s, Settled(rules, s, profiles[..n]), profiles, n);
    }
  }

  lemma SettledRow(rules: Rules, s: Store, o: Outcome, profiles: seq<Profile>, n: nat)
    requires n < |profiles|
    ensures var rows := Settle(rules, s, o, profiles[n]).profiles;
            forall k | k in rows ::
                (k in o.profiles && rows[k] == o.profiles[k]) || LandedFrom(rules, s, profiles, k, rows[k])
    ensures forall k, row | LandedFrom(rules, s, profiles[..n], k, row) :: LandedFrom(rules, s, profiles, k, row)
  {
    var p, rows := profiles[n], Settle(rules, s, o, profiles[n]).profiles;
    assert p in profiles && forall q | q in profiles[..n] :: q in profiles;
    if rows != o.profiles {
      assert LandsAs(s.proxies.Keys, p, rows[p.id]);
      assert LandedFrom(rules, s, profiles, p.id, rows[p.id]);
    }
  }

  // Every row after an import was there before or is a valid record of the plan.
  lemma StoredRowsArePlanned(rules: Rules, s: Store, plan: ImportPlan)
    ensures var t := Stored(rules, s, plan);
            && (forall k | k in t.cores :: (k in s.cores && t.cores[k] == s.cores[k])
                                           || (t.cores[k] in plan.cores && ValidCore(rules, t.cores[k])))
            && (forall k | k in t.proxies :: (k in s.proxies && t.proxies[k] == s.proxies[k])
                                             || (t.proxies[k] in plan.proxies && ValidProxy(rules, t.proxies[k])))
            && (forall k | k in t.profiles :: (k in s.profiles && t.profiles[k] == s.profiles[k])
                                              || LandedFrom(rules, t, plan.profiles, k, t.profiles[k]))
  {
    hide Upserted, Settled, ValidCore, ValidProxy, ValidProfile;
    UpsertedRows(s.cores, plan.cores, CoreKey, CoreRule(rules));
    UpsertedRows(s.proxies, plan.proxies, ProxyKey, ProxyRule(rules));
    SettledRows(rules, WithRecords(rules, s, plan), plan.profiles);
  }

  // ---- Twice is once ----

  // Which of the profiles a write leaves out: only those it could not have written.
  lemma {:induction false} LeftOut(rules: Rules, s: Store, profiles: seq<Profile>)
    ensures forall k | k in s.profiles :: k in Settled(rules, s, profiles).profiles
    ensures forall p | p in profiles && p.id !in Settled(rules, s, profiles).profiles ::
              !ValidProfile(rules, p) || p.core !in s.cores
  {
    if profiles != [] {
      var n := |profiles| - 1;
      LeftOut(rules, s, profiles[..n]);
      OneLeftOut(rules, s, Settled(rules, s, profiles[..n]), profiles[n]);
      assert profiles == profiles[..n] + [profiles[n]];
    }
  }

  lemma OneLeftOut(rules: Rules, s: Store, o: Outcome, p: Profile)
    ensures o.profiles.Keys <= Settle(rules, s, o, p).profiles.Keys
    ensures p.id !in Settle(rules, s, o, p).profiles ==> !ValidProfile(rules, p) || p.core !in s.cores
  {
  }

  lemma {:induction false} NothingToSettle(rules: Rules, s: Store, profiles: seq<Profile>)
    requires forall p | p in profiles :: p.id in s.profiles || !ValidProfile(rules, p) || p.core !in s.cores
    ensures Settled(rules, s, profiles).profiles == s.profiles && Settled(rules, s, profiles).added == 0
  {
    if profiles != [] {
      var n := |profiles| - 1;
      assert forall p | p in profiles[..n] :: p in profiles;
      NothingToSettle(rules, s, profiles[..n]);
      assert profiles[n] in profiles;
    }
  }

  // What the second look at a list finds arriving failed its rule the first time.
  lemma OnlyRefusedRecordsComeBack<T>(table: map<Id, T>, records: seq<T>, id: T -> Id, valid: T -> bool, again: set<Id>)
    requires again == Upserted(table, Picked(records, Arriving(table.Keys, id)), id, valid).Keys
    ensures forall r | r in Picked(records, Arriving(again, id)) :: !valid(r)
    ensures again <= table.Keys + Ids(records, id)
  {
    hide Picked, Upserted, Arriving;
    var arriving := Picked(records, Arriving(table.Keys, id));
    ArrivingMembers(records, table.Keys, id);
    ArrivingMembers(records, again, id);
    UpsertedKeys(table, arriving, id, valid);
    forall r | r in Picked(records, Arriving(again, id)) ensures !valid(r) {
      assert id(r) !in table.Keys;
      assert r in arriving;
    }
    forall k | k in again && k !in table ensures k in Ids(records, id) {
      var r :| r in arriving && id(r) == k && valid(r);
    }
  }

  lemma ArrivingProfiles(profiles: seq<Profile>, held: set<ProfileId>, nameable: Nameable, machine: Machine)
    ensures forall p :: p in Picked(profiles, ArrivingProfile(held, nameable, machine)) <==>
              exists q | q in profiles :: Comes(held, nameable, q) && p == Housed(machine, Cleared(nameable.proxies, q))
  {
  }

  // A profile that comes on the second look came on the first.
  lemma ProfilesThatComeBack(profiles: seq<Profile>, held: set<ProfileId>, nameable: Nameable, machine: Machine,
                             heldLater: set<ProfileId>, nameableLater: Nameable, laterMachine: Machine, p: Profile)
    returns (r: Profile)
    requires held <= heldLater && nameableLater.cores <= nameable.cores
    requires p in Picked(profiles, ArrivingProfile(heldLater, nameableLater, laterMachine))
    ensures r in Picked(profiles, ArrivingProfile(held, nameable, machine))
    ensures r.id == p.id && r.core == p.core && r.shown == p.shown && p.id !in heldLater
  {
    hide Picked;
    ArrivingProfiles(profiles, held, nameable, machine);
    ArrivingProfiles(profiles, heldLater, nameableLater, laterMachine);
    var q :| q in profiles && Comes(heldLater, nameableLater, q)
        && p == Housed(laterMachine, Cleared(nameableLater.proxies, q));
    assert Comes(held, nameable, q);
    r := Housed(machine, Cleared(nameable.proxies, q));
  }

  lemma OnlyRefusedProfilesComeBack(rules: Rules, s: Store, document: Document, present: Snapshot, machine: Machine,
                                    later: Snapshot, laterMachine: Machine)
    requires Sound(s) && Describes(present, s)
    requires Describes(later, Stored(rules, s, Planned(document, present, machine)))
    ensures var t := Stored(rules, s, Planned(document, present, machine));
            forall p | p in Planned(document, later, laterMachine).profiles ::
                !ValidProfile(rules, p) || p.core !in t.cores
  {
    hide Picked, Upserted, Settled, ArrivingProfile, Sound, ValidProfile;
    var plan, t := Planned(document, present, machine), Stored(rules, s, Planned(document, present, machine));
    ImportKeepsReferences(rules, s, plan);
    ImportChangesNothingStored(rules, s, document, present, machine);
    HeldIsStored(present, s);
    HeldIsStored(later, t);
    RecordsKeepReferences(rules, s, plan);
    OnlyRefusedRecordsComeBack(s.cores, document.cores, CoreKey, CoreRule(rules), t.cores.Keys);
    LeftOut(rules, WithRecords(rules, s, plan), plan.profiles);
    forall p | p in Planned(document, later, laterMachine).profiles
      ensures !ValidProfile(rules, p) || p.core !in t.cores
    {
      var r := ProfilesThatComeBack(document.profiles, s.profiles.Keys, NameableIn(document, present), machine,
                                    t.profiles.Keys, NameableIn(document, later), laterMachine, p);
      SameForm(rules, r, p);
    }
  }

  lemma SameForm(rules: Rules, p: Profile, q: Profile)
    requires p.shown == q.shown
    ensures ValidProfile(rules, p) == ValidProfile(rules, q)
  {
  }

  // Importing the same document again adds nothing and changes nothing, even if the
  // directories that are here have changed meanwhile.
  lemma ImportTwiceIsOnce(rules: Rules, s: Store, document: Document, present: Snapshot, machine: Machine,
                          later: Snapshot, laterMachine: Machine)
    requires Sound(s) && Describes(present, s)
    requires Describes(later, Stored(rules, s, Planned(document, present, machine)))
    ensures var t := Stored(rules, s, Planned(document, present, machine));
            var again := Planned(document, later, laterMachine);
            Stored(rules, t, again) == t && Reported(rules, t, again).added == Counts(0, 0, 0)
  {
    var t, again := Stored(rules, s, Planned(document, present, machine)), Planned(document, later, laterMachine);
    ImportKeepsReferences(rules, s, Planned(document, present, machine));
    HeldIsStored(present, s);
    HeldIsStored(later, t);
    OnlyRefusedRecordsComeBack(s.cores, document.cores, CoreKey, CoreRule(rules), t.cores.Keys);
    OnlyRefusedRecordsComeBack(s.proxies, document.proxies, ProxyKey, ProxyRule(rules), t.proxies.Keys);
    UpsertedNothing(t.cores, again.cores, CoreKey, CoreRule(rules));
    UpsertedNothing(t.proxies, again.proxies, ProxyKey, ProxyRule(rules));
    PickedNone(again.cores, CoreAdded(rules));
    PickedNone(again.proxies, ProxyAdded(rules));
    OnlyRefusedProfilesComeBack(rules, s, document, present, machine, later, laterMachine);
    assert WithRecords(rules, t, again) == t;
    NothingToSettle(rules, t, again.profiles);
  }

  // ---- Accounting ----

  // Every record of the document is planned, kept, or a profile without its core.
  lemma PlanAccountsForTheDocument(document: Document, present: Snapshot, machine: Machine)
    ensures var plan := Planned(document, present, machine);
            && |plan.cores| + plan.notes.kept.cores == |document.cores|
            && |plan.proxies| + plan.notes.kept.proxies == |document.proxies|
            && |plan.profiles| + plan.notes.kept.profiles + |plan.notes.missingCore| == |document.profiles|
  {
    var heldCores, heldProxies := Ids(present.cores, CoreKey), Ids(present.proxies, ProxyKey);
    var held := Ids(present.profiles, ProfileKey);
    PickedNone(document.cores, Never<Core>());
    PickedNone(document.proxies, Never<Proxy>());
    PickedAccounts(document.cores, Arriving(heldCores, CoreKey), Kept(heldCores, CoreKey), Never<Core>());
    PickedAccounts(document.proxies, Arriving(heldProxies, ProxyKey), Kept(heldProxies, ProxyKey), Never<Proxy>());
    PickedAccounts(document.profiles, ArrivingProfile(held, NameableIn(document, present), machine),
                   Kept(held, ProfileKey), Coreless(held, NameableIn(document, present)));
  }

  function Never<T>(): T -> Option<T> { (r: T) => None }

  lemma {:induction false} SettledAccounts(rules: Rules, s: Store, profiles: seq<Profile>)
    ensures var o := Settled(rules, s, profiles);
            o.added + |o.missingCore| + |o.failed| == |profiles| && forall f | f in o.failed :: f.kind == ProfileKind
  {
    if profiles != [] {
      SettledAccounts(rules, s, profiles[..|profiles| - 1]);
    }
  }

  function OfKind(kind: Kind): Failure -> Option<Failure> {
    (f: Failure) => if f.kind == kind then Some(f) else None
  }

  lemma FailuresOf(failed: seq<Failure>, kind: Kind)
    requires forall f | f in failed :: f.kind == kind
    ensures Picked(failed, OfKind(kind)) == failed
    ensures forall other | other != kind :: Picked(failed, OfKind(other)) == []
  {
  }

  lemma FailuresByKind(cores: seq<Failure>, proxies: seq<Failure>, profiles: seq<Failure>)
    requires forall f | f in cores :: f.kind == CoreKind
    requires forall f | f in proxies :: f.kind == ProxyKind
    requires forall f | f in profiles :: f.kind == ProfileKind
    ensures Picked(cores + proxies + profiles, OfKind(CoreKind)) == cores
    ensures Picked(cores + proxies + profiles, OfKind(ProxyKind)) == proxies
    ensures Picked(cores + proxies + profiles, OfKind(ProfileKind)) == profiles
  {
    hide Picked, OfKind;
    FailuresOf(cores, CoreKind);
    FailuresOf(proxies, ProxyKind);
    FailuresOf(profiles, ProfileKind);
    FailuresAppended(cores, proxies, profiles, CoreKind);
    FailuresAppended(cores, proxies, profiles, ProxyKind);
    FailuresAppended(cores, proxies, profiles, ProfileKind);
  }

  lemma FailuresAppended(cores: seq<Failure>, proxies: seq<Failure>, profiles: seq<Failure>, kind: Kind)
    ensures Picked(cores + proxies + profiles, OfKind(kind))
         == Picked(cores, OfKind(kind)) + Picked(proxies, OfKind(kind)) + Picked(profiles, OfKind(kind))
  {
    PickedAppended(cores + proxies, profiles, OfKind(kind));
    PickedAppended(cores, proxies, OfKind(kind));
  }

  // Every planned record is added, refused by name, or a profile whose core was refused.
  lemma ReportAccountsForThePlan(rules: Rules, s: Store, plan: ImportPlan)
    ensures var report := Reported(rules, s, plan);
            && report.added.cores + |Picked(report.failed, OfKind(CoreKind))| == |plan.cores|
            && report.added.proxies + |Picked(report.failed, OfKind(ProxyKind))| == |plan.proxies|
            && report.added.profiles + |Picked(report.failed, OfKind(ProfileKind))|
               + (|report.notes.missingCore| - |plan.notes.missingCore|) == |plan.profiles|
  {
    hide Picked;
    var o := Settled(rules, WithRecords(rules, s, plan), plan.profiles);
    PickedNone(plan.cores, Never<Core>());
    PickedNone(plan.proxies, Never<Proxy>());
    PickedAccounts(plan.cores, CoreAdded(rules), CoreFailed(rules), Never<Core>());
    PickedAccounts(plan.proxies, ProxyAdded(rules), ProxyFailed(rules), Never<Proxy>());
    SettledAccounts(rules, WithRecords(rules, s, plan), plan.profiles);
    PickedMembers(plan.cores, CoreFailed(rules));
    PickedMembers(plan.proxies, ProxyFailed(rules));
    FailuresByKind(Picked(plan.cores, CoreFailed(rules)), Picked(plan.proxies, ProxyFailed(rules)), o.failed);
  }

  // ---- What the report says ----

  // A profile the database could take, but for what is there already.
  predicate Lands(rules: Rules, s: Store, p: Profile) {
    p.core in s.cores && ValidProfile(rules, p)
  }

  predicate LosesItsProxyNow(s: Store, p: Profile) {
    p.core in s.cores && p.proxy.Some? && p.proxy.value !in s.proxies
  }

  // Each profile with those that come before it.
  function WithBefore(profiles: seq<Profile>): seq<(seq<Profile>, Profile)> {
    if profiles == [] then []
    else WithBefore(profiles[..|profiles| - 1]) + [(profiles[..|profiles| - 1], profiles[|profiles| - 1])]
  }

  // By then the identifier is in use: by a stored profile, or by an earlier one of the plan.
  predicate InUseBy(rules: Rules, s: Store, before: seq<Profile>, id: ProfileId) {
    id in s.profiles || exists q | q in before :: Lands(rules, s, q) && q.id == id
  }

  predicate Fails(rules: Rules, s: Store, it: (seq<Profile>, Profile)) {
    it.1.core in s.cores && (!ValidProfile(rules, it.1) || InUseBy(rules, s, it.0, it.1.id))
  }

  function FailureOf(rules: Rules, it: (seq<Profile>, Profile)): Failure {
    Failure(ProfileKind, it.1.shown.name, if ValidProfile(rules, it.1) then Taken else Invalid)
  }

  function WithoutLostProxy(s: Store, p: Profile): Profile {
    if LosesItsProxyNow(s, p) then p.(proxy := None) else p
  }

  // What came of the plan's profiles, in their own terms. The first of several with one
  // identifier is the one that is stored.
  ghost predicate CameOut(rules: Rules, s: Store, profiles: seq<Profile>, o: Outcome) {
    && Selects(profiles, (p: Profile) => p.core !in s.cores, (p: Profile) => p.shown.name, o.missingCore)
    && Selects(profiles, p => LosesItsProxyNow(s, p), (p: Profile) => p.shown.name, o.missingProxy)
    && Selects(WithBefore(profiles), it => Fails(rules, s, it), it => FailureOf(rules, it), o.failed)
    && (forall k :: k in o.profiles <==> InUseBy(rules, s, profiles, k))
    && (forall k | k in s.profiles :: o.profiles[k] == s.profiles[k])
    && (forall i | 0 <= i < |profiles| && Lands(rules, s, profiles[i])
            && !InUseBy(rules, s, profiles[..i], profiles[i].id) ::
          o.profiles[profiles[i].id] == WithoutLostProxy(s, profiles[i]))
  }

  lemma {:induction false} AllCameOut(rules: Rules, s: Store, profiles: seq<Profile>)
    ensures CameOut(rules, s, profiles, Settled(rules, s, profiles))
  {
    if profiles == [] {
      SelectsNothing((p: Profile) => p.core !in s.cores, (p: Profile) => p.shown.name);
      SelectsNothing(p => LosesItsProxyNow(s, p), (p: Profile) => p.shown.name);
      SelectsNothing(it => Fails(rules, s, it), it => FailureOf(rules, it));
    } else {
      hide CameOut, Settle;
      var before, p := profiles[..|profiles| - 1], profiles[|profiles| - 1];
      AllCameOut(rules, s, before);
      assert profiles == before + [p];
      OneCameOut(rules, s, before, p, Settled(rules, s, before));
    }
  }

  // What one profile does to the lists and to the rows.
  lemma SettleIs(rules: Rules, s: Store, o: Outcome, p: Profile)
    ensures var o' := Settle(rules, s, o, p);
            && o'.missingCore == o.missingCore + (if p.core !in s.cores then [p.shown.name] else [])
            && o'.missingProxy == o.missingProxy + (if LosesItsProxyNow(s, p) then [p.shown.name] else [])
            && o'.failed == o.failed
                 + (if p.core in s.cores && (!ValidProfile(rules, p) || p.id in o.profiles)
                    then [FailureOf(rules, ([], p))] else [])
            && o'.profiles == if Lands(rules, s, p) && p.id !in o.profiles
                              then o.profiles[p.id := WithoutLostProxy(s, p)] else o.profiles
  {
  }

  lemma InUseByOneMore(rules: Rules, s: Store, before: seq<Profile>, p: Profile, id: ProfileId)
    ensures InUseBy(rules, s, before + [p], id) <==>
              InUseBy(rules, s, before, id) || (Lands(rules, s, p) && p.id == id)
  {
    hide Lands;
    assert p in before + [p] && forall q | q in before :: q in before + [p];
  }

  lemma OneCameOut(rules: Rules, s: Store, before: seq<Profile>, p: Profile, o: Outcome)
    requires CameOut(rules, s, before, o)
    ensures CameOut(rules, s, before + [p], Settle(rules, s, o, p))
  {
    hide Selects, Settle, Lands, LosesItsProxyNow, ValidProfile, InUseBy, WithoutLostProxy, FailureOf;
    var all := before + [p];
    SettleIs(rules, s, o, p);
    OneMoreSaid(rules, s, before, p, o);
    assert all[..|before|] == before;
    forall k { InUseByOneMore(rules, s, before, p, k); }
    forall i | 0 <= i < |before| ensures all[..i] == before[..i] && all[i] == before[i] {
    }
    forall i | 0 <= i < |before| && Lands(rules, s, before[i]) ensures InUseBy(rules, s, before, before[i].id) {
      EarlierIsInUse(rules, s, before, i);
    }
    forall k | k in s.profiles ensures InUseBy(rules, s, before, k) {
      StoredIsInUse(rules, s, before, k);
    }
  }

  lemma EarlierIsInUse(rules: Rules, s: Store, before: seq<Profile>, i: nat)
    requires i < |before| && Lands(rules, s, before[i])
    ensures InUseBy(rules, s, before, before[i].id)
  {
    hide Lands;
    assert before[i] in before;
  }

  lemma StoredIsInUse(rules: Rules, s: Store, before: seq<Profile>, k: ProfileId)
    requires k in s.profiles
    ensures InUseBy(rules, s, before, k)
  {
  }

  lemma OneMoreSaid(rules: Rules, s: Store, before: seq<Profile>, p: Profile, o: Outcome)
    requires CameOut(rules, s, before, o)
    ensures var all, o' := before + [p], Settle(rules, s, o, p);
            && Selects(all, (p: Profile) => p.core !in s.cores, (p: Profile) => p.shown.name, o'.missingCore)
            && Selects(all, p => LosesItsProxyNow(s, p), (p: Profile) => p.shown.name, o'.missingProxy)
            && Selects(WithBefore(all), it => Fails(rules, s, it), it => FailureOf(rules, it), o'.failed)
  {
    hide Selects, Settle, Lands, LosesItsProxyNow, ValidProfile, InUseBy, WithoutLostProxy;
    SettleIs(rules, s, o, p);
    assert (before + [p])[..|before|] == before;
    SelectsOneMore(before, p, (p: Profile) => p.core !in s.cores, (p: Profile) => p.shown.name, o.missingCore);
    SelectsOneMore(before, p, p => LosesItsProxyNow(s, p), (p: Profile) => p.shown.name, o.missingProxy);
    SelectsOneMore(WithBefore(before), (before, p), it => Fails(rules, s, it), it => FailureOf(rules, it), o.failed);
  }

  // A report names every record that could not be written, kind by kind and each with why;
  // to the plan's notes it adds the profiles whose core or proxy was refused on the way; and
  // it says nothing else.
  lemma ReportIsExact(rules: Rules, s: Store, plan: ImportPlan)
    returns (cores: seq<Failure>, proxies: seq<Failure>, o: Outcome)
    ensures var t, report := Stored(rules, s, plan), Reported(rules, s, plan);
            && report.failed == cores + proxies + o.failed
            && Selects(plan.cores, c => !ValidCore(rules, c), (c: Core) => Failure(CoreKind, c.name, Invalid), cores)
            && Selects(plan.proxies, p => !ValidProxy(rules, p), (p: Proxy) => Failure(ProxyKind, p.name, Invalid),
                       proxies)
            && CameOut(rules, t.(profiles := s.profiles), plan.profiles, o) && t.profiles == o.profiles
            && report.notes == plan.notes.(missingCore := plan.notes.missingCore + o.missingCore,
                                           missingProxy := plan.notes.missingProxy + o.missingProxy)
  {
    hide Selects, Picked, Settled, ValidCore, ValidProxy, CameOut, Upserted;
    var t := WithRecords(rules, s, plan);
    cores, proxies := Picked(plan.cores, CoreFailed(rules)), Picked(plan.proxies, ProxyFailed(rules));
    o := Settled(rules, t, plan.profiles);
    PickedSelects(plan.cores, CoreFailed(rules), c => !ValidCore(rules, c),
                  (c: Core) => Failure(CoreKind, c.name, Invalid));
    PickedSelects(plan.proxies, ProxyFailed(rules), p => !ValidProxy(rules, p),
                  (p: Proxy) => Failure(ProxyKind, p.name, Invalid));
    AllCameOut(rules, t, plan.profiles);
    assert Stored(rules, s, plan).(profiles := s.profiles) == t;
  }
}
