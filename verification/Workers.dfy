// Everybody at once. Each worker is somewhere in what it is doing, and the critical
// sections of all of them interleave in any order.
module Workers {
  import opened Values
  import opened Wrappers
  import opened Leases

  type WorkerId = nat

  // Where a worker is with the profiles. `asked[..taken]` is what a lease has so far,
  // `asked[freed..taken]` what a refused one still has to give back.
  datatype Work =
    | Idle
    | Leasing(asked: seq<ProfileId>, taken: nat, operation: Operation)
    | RollingBack(asked: seq<ProfileId>, taken: nat, freed: nat, operation: Operation, busy: Busy)
    | Holding(asked: seq<ProfileId>, operation: Operation)
    | Dropping(asked: seq<ProfileId>, freed: nat, operation: Operation)
    | Direct(profile: ProfileId, operation: Operation)
    | Calling                            // inside one mutation of a coordinated service

  datatype Lease = NoLease | Shared | Exclusive

  datatype Worker = Worker(work: Work, lease: Lease)

  datatype State = State(held: Registry, installation: Sharing, workers: map<WorkerId, Worker>)

  const START := State(map[], Sharing(0, false), map[])

  datatype Action =
    | Spawn
    | Acquire(exclusive: bool)
    | ReleaseLease
    | BeginLease(profiles: seq<ProfileId>, operation: Operation)
    | LeaseStep
    | RollBackStep
    | BeginDrop
    | DropStep
    | DirectTake(profile: ProfileId, direct: Operation)
    | DirectFree
    | BeginCall
    | EndCall

  // The worker's next step, or nothing if it is not at a point where it could take it.
  function Do(s: State, id: WorkerId, action: Action): Option<State> {
    if id !in s.workers then
      if action.Spawn? then Some(s.(workers := s.workers[id := Worker(Idle, NoLease)])) else None
    else
      var w := s.workers[id];
      match action
      case Spawn => None
      case Acquire(exclusive) =>
        // A refusal is an answer, not a wait, and leaves everything as it is.
        if !(w.work.Idle? && w.lease == NoLease) then None
        else
          var next := Acquired(s.installation, exclusive);
          if next.None? then Some(s)
          else Some(s.(installation := next.value,
                       workers := s.workers[id := w.(lease := if exclusive then Exclusive else Shared)]))
      case ReleaseLease =>
        // The installation goes back last: a `Held` drops its profiles before its fields,
        // and a mutation's lease outlives its call. Only a queued start outlives it.
        if w.lease.NoLease? || !(w.work.Idle? || w.work.Direct?) then None
        else if w.lease.Shared? && s.installation.shared == 0 then None
        else Some(s.(installation := Released(s.installation, w.lease.Exclusive?),
                     workers := s.workers[id := w.(lease := NoLease)]))
      case BeginLease(profiles, operation) =>
        if w.work.Idle? then Some(At(s, id, Leasing(profiles, 0, operation))) else None
      case LeaseStep =>
        if !w.work.Leasing? || w.work.taken > |w.work.asked| then None
        else if w.work.taken == |w.work.asked| then Some(At(s, id, Holding(w.work.asked, w.work.operation)))
        else
          var p := w.work.asked[w.work.taken];
          if p in s.held then
            Some(At(s, id, RollingBack(w.work.asked, w.work.taken, 0, w.work.operation, Busy(p, s.held[p]))))
          else
            Some(At(s, id, Leasing(w.work.asked, w.work.taken + 1, w.work.operation))
                 .(held := Taken(s.held, p, w.work.operation)))
      case RollBackStep =>
        if !w.work.RollingBack? || w.work.taken > |w.work.asked| then None
        else if w.work.freed >= w.work.taken then Some(At(s, id, Idle))
        else Some(At(s, id, RollingBack(w.work.asked, w.work.taken, w.work.freed + 1, w.work.operation, w.work.busy))
                  .(held := Freed(s.held, w.work.asked[w.work.freed], w.work.operation)))
      case BeginDrop =>
        if w.work.Holding? then Some(At(s, id, Dropping(w.work.asked, 0, w.work.operation))) else None
      case DropStep =>
        if !w.work.Dropping? then None
        else if w.work.freed >= |w.work.asked| then Some(At(s, id, Idle))
        else Some(At(s, id, Dropping(w.work.asked, w.work.freed + 1, w.work.operation))
                  .(held := Freed(s.held, w.work.asked[w.work.freed], w.work.operation)))
      case DirectTake(profile, operation) =>
        if !w.work.Idle? then None
        else if profile in s.held then Some(s)
        else Some(At(s, id, Direct(profile, operation)).(held := Taken(s.held, profile, operation)))
      case DirectFree =>
        if w.work.Direct? then Some(At(s, id, Idle).(held := Freed(s.held, w.work.profile, w.work.operation))) else None
      case BeginCall =>
        if w.work.Idle? && w.lease == Shared then Some(At(s, id, Calling)) else None
      case EndCall =>
        if w.work.Calling? then Some(At(s, id, Idle)) else None
  }

  function At(s: State, id: WorkerId, work: Work): State
    requires id in s.workers
  {
    s.(workers := s.workers[id := s.workers[id].(work := work)])
  }

  function Run(s: State, steps: seq<(WorkerId, Action)>): Option<State> {
    if steps == [] then Some(s)
    else
      var before := Run(s, steps[..|steps| - 1]);
      if before.None? then None
      else Do(before.value, steps[|steps| - 1].0, steps[|steps| - 1].1)
  }

  // ---- What every reachable state keeps ----

  predicate WellFormed(work: Work) {
    match work
    case Leasing(asked, taken, _) => taken <= |asked|
    case RollingBack(asked, taken, freed, _, _) => freed <= taken <= |asked|
    case Dropping(asked, freed, _) => freed <= |asked|
    case _ => true
  }

  // The profiles a worker has in the registry.
  function Claims(work: Work): seq<ProfileId>
    requires WellFormed(work)
  {
    match work
    case Leasing(asked, taken, _) => asked[..taken]
    case RollingBack(asked, taken, freed, _, _) => asked[freed..taken]
    case Holding(asked, _) => asked
    case Dropping(asked, freed, _) => asked[freed..]
    case Direct(profile, _) => [profile]
    case _ => []
  }

  predicate HasOperation(work: Work) {
    !work.Idle? && !work.Calling?
  }

  predicate Distinct(s: seq<ProfileId>) {
    forall i, j | 0 <= i < j < |s| :: s[i] != s[j]
  }

  predicate Owns(work: Work, p: ProfileId) {
    WellFormed(work) && p in Claims(work)
  }

  // One worker's part of the registry.
  ghost predicate Registered(held: Registry, work: Work) {
    && WellFormed(work)
    && Distinct(Claims(work))
    && forall p | Owns(work, p) :: p in held && HasOperation(work) && held[p] == work.operation
  }

  ghost predicate AllRegistered(s: State) {
    forall id | id in s.workers :: Registered(s.held, s.workers[id].work)
  }

  ghost predicate OneOwner(s: State) {
    forall a, b, p | a in s.workers && b in s.workers && Owns(s.workers[a].work, p) && Owns(s.workers[b].work, p) ::
        a == b
  }

  ghost predicate AllOwned(s: State) {
    forall p | p in s.held :: Owned(s, p)
  }

  ghost predicate Owned(s: State, p: ProfileId) {
    exists id | id in s.workers :: Owns(s.workers[id].work, p)
  }

  ghost predicate RegistryInv(s: State) {
    AllRegistered(s) && OneOwner(s) && AllOwned(s)
  }

  function WithLease(s: State, lease: Lease): set<WorkerId> {
    set id | id in s.workers && s.workers[id].lease == lease
  }

  ghost predicate InstallationInv(s: State) {
    && s.installation.shared == |WithLease(s, Shared)|
    && |WithLease(s, Exclusive)| == (if s.installation.exclusive then 1 else 0)
    && (s.installation.exclusive ==> s.installation.shared == 0)
    && (forall id | id in s.workers && s.workers[id].work.Calling? :: s.workers[id].lease == Shared)
  }

  // The installation and the worker's lease on it change together or not at all.
  lemma LeaseEffect(s: State, id: WorkerId, action: Action)
    requires Do(s, id, action).Some?
    ensures var t := Do(s, id, action).value;
            var was := if id in s.workers then s.workers[id].lease else NoLease;
            && id in t.workers && t.workers == s.workers[id := t.workers[id]]
            && (|| (t.workers[id].lease == was && t.installation == s.installation)
                || (was == NoLease && t.workers[id].lease == Shared
                    && Acquired(s.installation, false) == Some(t.installation))
                || (was == NoLease && t.workers[id].lease == Exclusive
                    && Acquired(s.installation, true) == Some(t.installation))
                || (was == Shared && t.workers[id].lease == NoLease
                    && s.installation.shared > 0 && t.installation == Released(s.installation, false))
                || (was == Exclusive && t.workers[id].lease == NoLease
                    && t.installation == Released(s.installation, true)))
            && (t.workers[id].work.Calling? ==>
                t.workers[id].lease == was && (was == Shared || s.workers[id].work.Calling?))
  {
  }

  lemma InstallationStep(s: State, id: WorkerId, action: Action)
    requires InstallationInv(s) && Do(s, id, action).Some?
    ensures InstallationInv(Do(s, id, action).value)
  {
    var t := Do(s, id, action).value;
    LeaseEffect(s, id, action);
    hide Do;
    LeasesCounted(s, t, id, Shared);
    LeasesCounted(s, t, id, Exclusive);
    hide WithLease;
  }

  lemma LeasesCounted(s: State, t: State, id: WorkerId, kind: Lease)
    requires id in t.workers && t.workers == s.workers[id := t.workers[id]] && kind != NoLease
    ensures var was := if id in s.workers then s.workers[id].lease else NoLease;
            |WithLease(t, kind)|
                == |WithLease(s, kind)|
                    + (if t.workers[id].lease == kind then 1 else 0) - (if was == kind then 1 else 0)
  {
    var was := WithLease(s, kind);
    var others := was - {id};
    WithLeaseAfter(s, t, id, kind);
    hide WithLease;
    OneMember(was, id);
    OneMember(WithLease(t, kind), id);
    assert WithLease(t, kind) - {id} == others;
  }

  lemma OneMember(a: set<WorkerId>, id: WorkerId)
    ensures |a| == |a - {id}| + if id in a then 1 else 0
  {
    assert a == a - {id} + if id in a then {id} else {};
  }

  lemma WithLeaseAfter(s: State, t: State, id: WorkerId, kind: Lease)
    requires id in t.workers && t.workers == s.workers[id := t.workers[id]]
    ensures id in WithLease(s, kind) <==> id in s.workers && s.workers[id].lease == kind
    ensures WithLease(t, kind) == WithLease(s, kind) - {id} + if t.workers[id].lease == kind then {id} else {}
  {
  }

  // What the worker had before this step.
  ghost predicate Had(s: State, id: WorkerId, p: ProfileId) {
    id in s.workers && Owns(s.workers[id].work, p)
  }

  // A worker's claims may change, and the registry with them, without anyone else's part
  // becoming wrong.
  ghost predicate MindsItsOwn(s: State, t: State, id: WorkerId)
    requires id in t.workers
  {
    && Registered(t.held, t.workers[id].work)
    && (forall p | p in s.held && !Had(s, id, p) :: p in t.held && t.held[p] == s.held[p])
    && (forall p | p in t.held :: Owns(t.workers[id].work, p) || (p in s.held && !Had(s, id, p)))
    && (forall p | Owns(t.workers[id].work, p) :: Had(s, id, p) || p !in s.held)
  }

  // What somebody else owns is not touched, nor claimed by the worker that took the step.
  lemma OthersKeepTheirs(s: State, t: State, id: WorkerId, other: WorkerId, p: ProfileId)
    requires AllRegistered(s) && OneOwner(s) && id in t.workers && MindsItsOwn(s, t, id)
    requires other in s.workers && other != id && Owns(s.workers[other].work, p)
    ensures p in s.held && p in t.held && t.held[p] == s.held[p] && !Owns(t.workers[id].work, p)
  {
    hide Owns, Distinct;
    assert Registered(s.held, s.workers[other].work);
    assert !Had(s, id, p);
  }

  lemma OtherStaysRegistered(s: State, t: State, id: WorkerId, other: WorkerId)
    requires AllRegistered(s) && OneOwner(s) && id in t.workers && MindsItsOwn(s, t, id)
    requires other in s.workers && other != id
    ensures Registered(t.held, s.workers[other].work)
  {
    hide Owns, Distinct, AllRegistered, OneOwner, MindsItsOwn;
    var work := s.workers[other].work;
    IsRegistered(s, other);
    forall p | Owns(work, p) ensures p in t.held && t.held[p] == work.operation {
      OthersKeepTheirs(s, t, id, other, p);
    }
  }

  lemma IsRegistered(s: State, id: WorkerId)
    requires AllRegistered(s) && id in s.workers
    ensures Registered(s.held, s.workers[id].work)
  {
  }

  lemma StillOneOwner(s: State, t: State, id: WorkerId)
    requires AllRegistered(s) && OneOwner(s)
    requires id in t.workers && t.workers == s.workers[id := t.workers[id]] && MindsItsOwn(s, t, id)
    ensures OneOwner(t)
  {
    hide Owns, AllRegistered, MindsItsOwn, Registered;
    forall a, b, p | a in t.workers && b in t.workers && Owns(t.workers[a].work, p) && Owns(t.workers[b].work, p)
      ensures a == b
    {
      if a != id {
        OthersKeepTheirs(s, t, id, a, p);
      }
      if b != id {
        OthersKeepTheirs(s, t, id, b, p);
      }
    }
  }

  lemma StillOwned(s: State, t: State, id: WorkerId, p: ProfileId)
    requires AllOwned(s) && id in t.workers && t.workers == s.workers[id := t.workers[id]]
    requires MindsItsOwn(s, t, id) && p in t.held
    ensures Owned(t, p)
  {
    hide Owns, Registered;
    if !Owns(t.workers[id].work, p) {
      assert Owned(s, p) && !Had(s, id, p);
      var other :| other in s.workers && Owns(s.workers[other].work, p);
      assert other != id && other in t.workers && t.workers[other] == s.workers[other];
    }
  }

  lemma OwnIsRegistered(s: State, t: State, id: WorkerId)
    requires id in t.workers && MindsItsOwn(s, t, id)
    ensures Registered(t.held, t.workers[id].work)
  {
  }

  lemma RegistryStep(s: State, t: State, id: WorkerId)
    requires RegistryInv(s)
    requires id in t.workers && t.workers == s.workers[id := t.workers[id]]
    requires MindsItsOwn(s, t, id)
    ensures RegistryInv(t)
  {
    hide Owns, Registered, MindsItsOwn, OneOwner, Owned;
    forall other | other in t.workers ensures Registered(t.held, t.workers[other].work) {
      if other == id {
        OwnIsRegistered(s, t, id);
      } else {
        OtherStaysRegistered(s, t, id, other);
      }
    }
    StillOneOwner(s, t, id);
    forall p | p in t.held ensures Owned(t, p) {
      StillOwned(s, t, id, p);
    }
  }

  lemma RegistryKept(s: State, id: WorkerId, action: Action)
    requires RegistryInv(s) && Do(s, id, action).Some?
    ensures RegistryInv(Do(s, id, action).value)
  {
    var t := Do(s, id, action).value;
    LeaseEffect(s, id, action);
    if id in s.workers {
      assert Registered(s.held, s.workers[id].work);
    }
    StepMindsItsOwn(s, t, id, action);
    hide Do, MindsItsOwn;
    if t != s {
      RegistryStep(s, t, id);
    }
  }

  lemma StepMindsItsOwn(s: State, t: State, id: WorkerId, action: Action)
    requires Do(s, id, action) == Some(t) && id in t.workers
    requires id in s.workers ==> Registered(s.held, s.workers[id].work)
    ensures t == s || MindsItsOwn(s, t, id)
  {
    match action {
      case LeaseStep => LeaseStepKept(s, t, id);
      case RollBackStep => GivingBackKept(s, t, id);
      case DropStep => GivingBackKept(s, t, id);
      case DirectTake(_, _) => DirectStepKept(s, t, id, action);
      case DirectFree => DirectStepKept(s, t, id, action);
      case _ =>
        ClaimsNothingNew(s, t, id, action);
        hide Do;
        SameClaimsKept(s, t, id);
    }
  }

  function ClaimsOf(s: State, id: WorkerId): seq<ProfileId>
    requires id in s.workers ==> WellFormed(s.workers[id].work)
  {
    if id in s.workers then Claims(s.workers[id].work) else []
  }

  // The steps that have nothing to do with the registry.
  lemma ClaimsNothingNew(s: State, t: State, id: WorkerId, action: Action)
    requires Do(s, id, action) == Some(t) && id in t.workers
    requires id in s.workers ==> WellFormed(s.workers[id].work)
    requires !action.LeaseStep? && !action.RollBackStep? && !action.DropStep? && !action.DirectTake?
             && !action.DirectFree?
    ensures t.held == s.held && WellFormed(t.workers[id].work)
    ensures Claims(t.workers[id].work) == ClaimsOf(s, id)
    ensures ClaimsOf(s, id) != [] ==> HasOperation(s.workers[id].work) && HasOperation(t.workers[id].work)
                                      && t.workers[id].work.operation == s.workers[id].work.operation
  {
  }

  lemma SameClaimsKept(s: State, t: State, id: WorkerId)
    requires id in s.workers ==> Registered(s.held, s.workers[id].work)
    requires id in t.workers && t.held == s.held && WellFormed(t.workers[id].work)
    requires Claims(t.workers[id].work) == ClaimsOf(s, id)
    requires ClaimsOf(s, id) != [] ==> HasOperation(s.workers[id].work) && HasOperation(t.workers[id].work)
                                       && t.workers[id].work.operation == s.workers[id].work.operation
    ensures MindsItsOwn(s, t, id)
  {
    hide Claims, WellFormed, HasOperation;
    var work := t.workers[id].work;
    assert forall p :: Owns(work, p) <==> Had(s, id, p);
  }

  lemma DirectStepKept(s: State, t: State, id: WorkerId, action: Action)
    requires Do(s, id, action) == Some(t) && (action.DirectTake? || action.DirectFree?)
    requires id in s.workers && Registered(s.held, s.workers[id].work)
    ensures t == s || (id in t.workers && MindsItsOwn(s, t, id))
  {
    var work := s.workers[id].work;
    if action.DirectFree? {
      assert Owns(work, work.profile);
    }
  }

  lemma LeaseStepKept(s: State, t: State, id: WorkerId)
    requires Do(s, id, LeaseStep) == Some(t) && id in s.workers && Registered(s.held, s.workers[id].work)
    ensures id in t.workers && MindsItsOwn(s, t, id)
  {
    var work := s.workers[id].work;
    if work.taken < |work.asked| && work.asked[work.taken] !in s.held {
      OneMoreTaken(s, t, id);
    } else {
      assert work.asked[..|work.asked|] == work.asked;
      assert work.asked[0..work.taken] == work.asked[..work.taken];
      hide Do;
      SameClaimsKept(s, t, id);
    }
  }

  lemma OneMoreTaken(s: State, t: State, id: WorkerId)
    requires id in s.workers && id in t.workers && Registered(s.held, s.workers[id].work)
    requires var work := s.workers[id].work;
             && work.Leasing? && work.taken < |work.asked| && work.asked[work.taken] !in s.held
             && t.workers[id].work == Leasing(work.asked, work.taken + 1, work.operation)
             && t.held == Taken(s.held, work.asked[work.taken], work.operation)
    ensures MindsItsOwn(s, t, id)
  {
    var work, work' := s.workers[id].work, t.workers[id].work;
    var p := work.asked[work.taken];
    assert Claims(work') == Claims(work) + [p];
    assert !Owns(work, p);
    assert forall q :: Owns(work', q) <==> Owns(work, q) || q == p;
    hide Claims, WellFormed;
  }

  lemma GivingBackKept(s: State, t: State, id: WorkerId)
    requires id in s.workers && Registered(s.held, s.workers[id].work)
    requires Do(s, id, RollBackStep) == Some(t) || Do(s, id, DropStep) == Some(t)
    ensures id in t.workers && MindsItsOwn(s, t, id)
  {
    var work := s.workers[id].work;
    GivingBackStep(s, t, id);
    hide Do;
    if Claims(work) != [] {
      assert Owns(work, Claims(work)[0]);
      FirstGivenBack(s, t, id);
    }
  }

  // The step frees the first of what is left to give back, or there is nothing left.
  lemma GivingBackStep(s: State, t: State, id: WorkerId)
    requires id in s.workers && WellFormed(s.workers[id].work)
    requires Do(s, id, RollBackStep) == Some(t) || Do(s, id, DropStep) == Some(t)
    ensures id in t.workers && WellFormed(t.workers[id].work)
    ensures var claims := Claims(s.workers[id].work);
            if claims == [] then t.held == s.held && t.workers[id].work == Idle
            else && HasOperation(t.workers[id].work) && t.workers[id].work.operation == s.workers[id].work.operation
                 && t.held == Freed(s.held, claims[0], s.workers[id].work.operation)
                 && Claims(t.workers[id].work) == claims[1..]
  {
    var work := s.workers[id].work;
    if work.RollingBack? && work.freed < work.taken {
      assert work.asked[work.freed..work.taken][1..] == work.asked[work.freed + 1..work.taken];
    }
    if work.Dropping? && work.freed < |work.asked| {
      assert work.asked[work.freed..][1..] == work.asked[work.freed + 1..];
    }
  }

  lemma FirstGivenBack(s: State, t: State, id: WorkerId)
    requires id in s.workers && id in t.workers && Registered(s.held, s.workers[id].work)
    requires WellFormed(t.workers[id].work) && Claims(s.workers[id].work) != []
    requires HasOperation(t.workers[id].work) && t.workers[id].work.operation == s.workers[id].work.operation
    requires t.held == Freed(s.held, Claims(s.workers[id].work)[0], s.workers[id].work.operation)
    requires Claims(t.workers[id].work) == Claims(s.workers[id].work)[1..]
    ensures MindsItsOwn(s, t, id)
  {
    var work, work' := s.workers[id].work, t.workers[id].work;
    var first := Claims(work)[0];
    FreesItsFirst(Claims(work));
    assert Owns(work, first);
    assert t.held == s.held - {first};
    assert forall p :: Owns(work, p) <==> p == first || Owns(work', p);
    hide Owns, Claims, WellFormed, HasOperation, Distinct;
    assert forall p :: Had(s, id, p) <==> Owns(work, p);
  }

  lemma FreesItsFirst(claims: seq<ProfileId>)
    requires claims != [] && Distinct(claims)
    ensures claims[0] !in claims[1..] && Distinct(claims[1..])
    ensures forall p | p in claims :: p == claims[0] || p in claims[1..]
  {
  }

  lemma {:induction false} EveryRunKeepsBoth(steps: seq<(WorkerId, Action)>)
    requires Run(START, steps).Some?
    ensures RegistryInv(Run(START, steps).value) && InstallationInv(Run(START, steps).value)
  {
    var s := Run(START, steps).value;
    if steps == [] {
      assert WithLease(s, Shared) == {} && WithLease(s, Exclusive) == {};
    } else {
      EveryRunKeepsBoth(steps[..|steps| - 1]);
      var before := Run(START, steps[..|steps| - 1]).value;
      var (id, action) := steps[|steps| - 1];
      RegistryKept(before, id, action);
      InstallationStep(before, id, action);
    }
  }

  // ---- What that means ----

  // The registry is exactly what the live holders hold, each profile held by one of them
  // and for its operation.
  lemma RegistryIsTheHolders(steps: seq<(WorkerId, Action)>, p: ProfileId)
    requires Run(START, steps).Some?
    ensures var s := Run(START, steps).value;
            && (p in s.held <==> exists id | id in s.workers :: Owns(s.workers[id].work, p))
            && (forall a, b | a in s.workers && b in s.workers && Owns(s.workers[a].work, p)
                && Owns(s.workers[b].work, p) :: a == b)
            && (forall id | id in s.workers && Owns(s.workers[id].work, p) ::
                  HasOperation(s.workers[id].work) && s.held[p] == s.workers[id].work.operation)
  {
    EveryRunKeepsBoth(steps);
    hide Do, Run, Owns;
    var s := Run(START, steps).value;
    assert forall id | id in s.workers :: Registered(s.held, s.workers[id].work);
  }

  // No step of one worker changes what another holds - not a rollback, not a drop.
  lemma NobodyElseLosesAnything(steps: seq<(WorkerId, Action)>, id: WorkerId, action: Action, other: WorkerId,
                                p: ProfileId)
    requires Run(START, steps).Some? && Do(Run(START, steps).value, id, action).Some?
    requires other != id && other in Run(START, steps).value.workers
    requires Owns(Run(START, steps).value.workers[other].work, p)
    ensures var s := Run(START, steps).value;
            var t := Do(s, id, action).value;
            && other in t.workers && t.workers[other] == s.workers[other]
            && p in s.held && p in t.held && t.held[p] == s.held[p]
  {
    EveryRunKeepsBoth(steps);
    var s := Run(START, steps).value;
    var t := Do(s, id, action).value;
    RegistryKept(s, id, action);
    LeaseEffect(s, id, action);
    hide Do, Run;
    assert Registered(s.held, s.workers[other].work) && Registered(t.held, t.workers[other].work);
  }

  // A refused lease ends with none of its profiles, and one that is granted has all of
  // what was asked; asking for a profile twice is never granted. What a rollback or a
  // drop is about to give back is always there, under its own operation.
  lemma AllOrNothing(steps: seq<(WorkerId, Action)>, id: WorkerId)
    requires Run(START, steps).Some? && id in Run(START, steps).value.workers
    ensures var s := Run(START, steps).value;
            var work := s.workers[id].work;
            && WellFormed(work)
            && (work.Idle? ==>
                forall p | p in s.held :: exists o | o in s.workers && o != id :: Owns(s.workers[o].work, p))
            && (work.Holding? ==>
                Distinct(work.asked) && forall p | p in work.asked :: p in s.held && s.held[p] == work.operation)
            && (work.RollingBack? ==> forall i | work.freed <= i < work.taken ::
                  work.asked[i] in s.held && s.held[work.asked[i]] == work.operation)
            && (work.Dropping? ==> forall i | work.freed <= i < |work.asked| ::
                  work.asked[i] in s.held && s.held[work.asked[i]] == work.operation)
  {
    EveryRunKeepsBoth(steps);
    hide Do, Run;
    var s := Run(START, steps).value;
    var work := s.workers[id].work;
    assert Registered(s.held, work);
    hide Registered;
    OwnPartIsThere(s.held, work);
    if work.Idle? {
      forall p | p in s.held ensures exists o | o in s.workers && o != id :: Owns(s.workers[o].work, p) {
        var o :| o in s.workers && Owns(s.workers[o].work, p);
        assert o != id;
      }
    }
  }

  lemma OwnPartIsThere(held: Registry, work: Work)
    requires Registered(held, work)
    ensures WellFormed(work)
    ensures work.Holding? ==>
              Distinct(work.asked) && forall p | p in work.asked :: p in held && held[p] == work.operation
    ensures work.RollingBack? ==>
              forall i | work.freed <= i < work.taken :: work.asked[i] in held && held[work.asked[i]] == work.operation
    ensures work.Dropping? ==>
              forall i | work.freed <= i < |work.asked| ::
                  work.asked[i] in held && held[work.asked[i]] == work.operation
  {
  }

  // Nobody is ever stuck in the middle: the next step of a lease, a rollback or a drop can
  // be taken, and a lease on the installation can be given back without the count running
  // under.
  lemma NobodyIsStuck(steps: seq<(WorkerId, Action)>, id: WorkerId)
    requires Run(START, steps).Some? && id in Run(START, steps).value.workers
    ensures var s := Run(START, steps).value;
            var w := s.workers[id];
            && (w.work.Leasing? ==> Do(s, id, LeaseStep).Some?)
            && (w.work.RollingBack? ==> Do(s, id, RollBackStep).Some?)
            && (w.work.Dropping? ==> Do(s, id, DropStep).Some?)
            && (w.lease == Shared ==> s.installation.shared > 0)
            && (w.lease != NoLease && w.work.Idle? ==> Do(s, id, ReleaseLease).Some?)
  {
    EveryRunKeepsBoth(steps);
    hide Run;
    var s := Run(START, steps).value;
    assert Registered(s.held, s.workers[id].work);
    if s.workers[id].lease == Shared {
      assert id in WithLease(s, Shared);
    }
  }

  // No mutation of a service is under way while anyone has the installation alone, and
  // the counter counts the leases that are out.
  lemma MutationsAndMaintenanceExclude(steps: seq<(WorkerId, Action)>, a: WorkerId, b: WorkerId)
    requires Run(START, steps).Some?
    requires a in Run(START, steps).value.workers && b in Run(START, steps).value.workers
    ensures var s := Run(START, steps).value;
            && s.installation.shared == |WithLease(s, Shared)|
            && (s.workers[a].lease == Exclusive ==> s.installation.exclusive && s.installation.shared == 0)
            && (s.workers[a].lease == Exclusive ==> !s.workers[b].work.Calling? && s.workers[b].lease != Shared)
            && (s.workers[a].lease == Exclusive && s.workers[b].lease == Exclusive ==> a == b)
  {
    EveryRunKeepsBoth(steps);
    var s := Run(START, steps).value;
    if s.workers[a].lease == Exclusive {
      assert a in WithLease(s, Exclusive);
      assert s.installation.exclusive;
      assert WithLease(s, Shared) == {};
      assert b !in WithLease(s, Shared);
      if s.workers[b].lease == Exclusive && a != b {
        assert |{a, b}| == 2;
        assert {a, b} <= WithLease(s, Exclusive);
        SubsetIsSmaller({a, b}, WithLease(s, Exclusive));
        assert false;
      }
    }
  }

  lemma SubsetIsSmaller(a: set<WorkerId>, b: set<WorkerId>)
    requires a <= b
    ensures |a| <= |b|
  {
    assert b == a + (b - a);
  }

  // The installation is granted whenever it can be: to share it, exactly when nobody has it
  // alone; to have it alone, exactly when nobody has it at all. A refusal changes nothing.
  lemma GrantedWheneverItCanBe(steps: seq<(WorkerId, Action)>, id: WorkerId, exclusive: bool)
    requires Run(START, steps).Some? && id in Run(START, steps).value.workers
    requires Run(START, steps).value.workers[id] == Worker(Idle, NoLease)
    ensures var s := Run(START, steps).value;
            var t := Do(s, id, Acquire(exclusive));
            var inTheWay := WithLease(s, Exclusive) + if exclusive then WithLease(s, Shared) else {};
            && t.Some? && t.value.held == s.held
            && if inTheWay == {} then t.value.workers
                     == s.workers[id := Worker(Idle, if exclusive then Exclusive else Shared)]
               else t.value == s
  {
    EveryRunKeepsBoth(steps);
    hide Run, RegistryInv;
    var s := Run(START, steps).value;
    CountedOrNot(WithLease(s, Exclusive));
    CountedOrNot(WithLease(s, Shared));
  }

  lemma CountedOrNot(a: set<WorkerId>)
    ensures |a| == 0 <==> a == {}
  {
  }

  // So is a profile: the next one a lease asks for is taken exactly when no worker has it.
  // Otherwise the lease is refused over that profile, and for what its holder is doing.
  lemma TakenWheneverItIsFree(steps: seq<(WorkerId, Action)>, id: WorkerId)
    requires Run(START, steps).Some? && id in Run(START, steps).value.workers
    requires var work := Run(START, steps).value.workers[id].work; work.Leasing? && work.taken < |work.asked|
    ensures var s := Run(START, steps).value;
            var work, t := s.workers[id].work, Do(s, id, LeaseStep);
            var p := work.asked[work.taken];
            && t.Some? && t.value.installation == s.installation && id in t.value.workers
            && (if Owned(s, p) then
                  && t.value.held == s.held && t.value.workers[id].work.RollingBack?
                  && t.value.workers[id].work.busy.profile == p
                  && forall o | o in s.workers && Owns(s.workers[o].work, p) ::
                       HasOperation(s.workers[o].work)
                       && t.value.workers[id].work.busy.operation == s.workers[o].work.operation
                else
                  && t.value.held == s.held[p := work.operation]
                  && t.value.workers[id].work == Leasing(work.asked, work.taken + 1, work.operation))
  {
    EveryRunKeepsBoth(steps);
    var s := Run(START, steps).value;
    hide Run, InstallationInv;
    var work := s.workers[id].work;
    HeldIsOwned(s, work.asked[work.taken]);
    hide RegistryInv, Owned, Owns;
  }

  // What is left of a lease, taken with nobody coming in between.
  function LeasedOn(s: State, id: WorkerId): State
    requires id in s.workers && s.workers[id].work.Leasing? && WellFormed(s.workers[id].work)
    decreases |s.workers[id].work.asked| - s.workers[id].work.taken
  {
    var t := Do(s, id, LeaseStep).value;
    if s.workers[id].work.taken < |s.workers[id].work.asked| && t.workers[id].work.Leasing? then LeasedOn(t, id) else t
  }

  // Step by step it comes to what it does in one piece: all that was asked is held exactly
  // when all of it was free, and asked for once.
  lemma {:induction false} LeasedInSteps(s: State, id: WorkerId)
    requires id in s.workers && s.workers[id].work.Leasing? && WellFormed(s.workers[id].work)
    ensures var work, t := s.workers[id].work, LeasedOn(s, id);
            && id in t.workers
            && if AllFree(s.held, work.asked[work.taken..]) then
                 && t.workers[id].work == Holding(work.asked, work.operation)
                 && t.held == WithAll(s.held, work.asked[work.taken..], work.operation)
               else t.workers[id].work.RollingBack?
    decreases |s.workers[id].work.asked| - s.workers[id].work.taken
  {
    var work := s.workers[id].work;
    var rest := work.asked[work.taken..];
    if rest == [] {
      assert WithAll(s.held, rest, work.operation) == s.held;
    } else if rest[0] in s.held {
      assert !AllFree(s.held, rest);
    } else {
      var t := Do(s, id, LeaseStep).value;
      assert work.asked[work.taken + 1..] == rest[1..];
      LeasedInSteps(t, id);
      FirstOfThem(s.held, rest, work.operation);
    }
  }

  lemma FirstOfThem(held: Registry, profiles: seq<ProfileId>, operation: Operation)
    requires profiles != [] && profiles[0] !in held
    ensures AllFree(held[profiles[0] := operation], profiles[1..]) <==> AllFree(held, profiles)
    ensures WithAll(held[profiles[0] := operation], profiles[1..], operation) == WithAll(held, profiles, operation)
  {
    hide AllFree, WithAll;
    var p, rest := profiles[0], profiles[1..];
    assert profiles == [p] + rest;
    if AllFree(held, profiles) {
      FirstIsAlone(held, profiles);
      OthersStillFree(held, p, rest, operation);
    }
    if AllFree(held[p := operation], rest) {
      FirstIsFreeToo(held, p, rest, operation);
    }
    FirstAmongAll(held, p, rest, operation);
  }

  lemma OthersStillFree(held: Registry, p: ProfileId, rest: seq<ProfileId>, operation: Operation)
    requires AllFree(held, rest) && p !in rest
    ensures AllFree(held[p := operation], rest)
  {
  }

  lemma FirstIsFreeToo(held: Registry, p: ProfileId, rest: seq<ProfileId>, operation: Operation)
    requires AllFree(held[p := operation], rest) && p !in held
    ensures AllFree(held, [p] + rest)
  {
    var all := [p] + rest;
    assert forall i | 0 < i < |all| :: all[i] == rest[i - 1] && rest[i - 1] !in held[p := operation];
    forall i, j | 0 <= i < j < |all| ensures all[i] != all[j] {
      if i > 0 {
        assert rest[i - 1] != rest[j - 1];
      }
    }
  }

  lemma FirstAmongAll(held: Registry, p: ProfileId, rest: seq<ProfileId>, operation: Operation)
    ensures WithAll(held[p := operation], rest, operation) == WithAll(held, [p] + rest, operation)
  {
  }

  // And a profile asked for on its own.
  lemma TakenAloneWheneverItIsFree(steps: seq<(WorkerId, Action)>, id: WorkerId, p: ProfileId, operation: Operation)
    requires Run(START, steps).Some? && id in Run(START, steps).value.workers
    requires Run(START, steps).value.workers[id].work == Idle
    ensures var s := Run(START, steps).value;
            var t := Do(s, id, DirectTake(p, operation));
            t == Some(if Owned(s, p) then s
                      else s.(held := s.held[p := operation],
                              workers := s.workers[id := Worker(Direct(p, operation), s.workers[id].lease)]))
  {
    EveryRunKeepsBoth(steps);
    var s := Run(START, steps).value;
    hide Run, InstallationInv;
    HeldIsOwned(s, p);
    hide RegistryInv, Owned;
  }

  lemma HeldIsOwned(s: State, p: ProfileId)
    requires RegistryInv(s)
    ensures p in s.held <==> Owned(s, p)
    ensures forall o | o in s.workers && Owns(s.workers[o].work, p) ::
              p in s.held && HasOperation(s.workers[o].work) && s.held[p] == s.workers[o].work.operation
  {
    hide Owns;
    assert forall o | o in s.workers :: Registered(s.held, s.workers[o].work);
  }

  // When everyone has gone home, everything has been given back.
  lemma NothingLeaks(steps: seq<(WorkerId, Action)>)
    requires Run(START, steps).Some?
    requires forall id | id in Run(START, steps).value.workers ::
              Run(START, steps).value.workers[id] == Worker(Idle, NoLease)
    ensures Run(START, steps).value.held == map[]
    ensures Run(START, steps).value.installation == Sharing(0, false)
  {
    EveryRunKeepsBoth(steps);
    var s := Run(START, steps).value;
    assert WithLease(s, Shared) == {} && WithLease(s, Exclusive) == {};
    assert forall p :: p !in s.held;
  }

  // A release is matched by operation and not by holder. So one that comes from nobody
  // who holds the profile is harmless exactly when the holder's operation is another.
  lemma StrayFree(steps: seq<(WorkerId, Action)>, holder: WorkerId, p: ProfileId, operation: Operation)
    requires Run(START, steps).Some? && holder in Run(START, steps).value.workers
    requires Owns(Run(START, steps).value.workers[holder].work, p)
    ensures var s := Run(START, steps).value;
            HasOperation(s.workers[holder].work)
            && (RegistryInv(s.(held := Freed(s.held, p, operation))) <==> s.workers[holder].work.operation != operation)
  {
    EveryRunKeepsBoth(steps);
    hide Do, Run;
    var s := Run(START, steps).value;
    var t := s.(held := Freed(s.held, p, operation));
    assert Registered(s.held, s.workers[holder].work);
    if s.workers[holder].work.operation == operation {
      assert p !in t.held;
      assert !Registered(t.held, t.workers[holder].work);
    } else {
      assert t == s;
    }
  }

  // One worker takes a profile and gives it back, and another takes it for the same
  // operation. The first giving it back once more would give away the second's.
  function TakenOver(p: ProfileId, operation: Operation): seq<(WorkerId, Action)> {
    [(1, Spawn), (2, Spawn), (1, DirectTake(p, operation)), (1, DirectFree), (2, DirectTake(p, operation))]
  }

  lemma LateReleaseGivesAway(p: ProfileId, operation: Operation)
    ensures var end := Run(START, TakenOver(p, operation));
            && end.Some? && 1 in end.value.workers && 2 in end.value.workers
            && end.value.workers[1].work == Idle && Owns(end.value.workers[2].work, p)
            && var s := end.value.(held := Freed(end.value.held, p, operation));
               !RegistryInv(s) && Owns(s.workers[2].work, p) && p !in s.held
  {
    hide Run, RegistryInv;
    var steps := TakenOver(p, operation);
    assert Run(START, steps[..0]) == Some(START) by { RunOfNothing(START); assert steps[..0] == []; }
    ghost var s := START;
    for k := 0 to 5
      invariant Run(START, steps[..k]) == Some(s)
      invariant s == TakingOver(p, operation, k)
    {
      RunOneMore(START, steps, k);
      s := Do(s, steps[k].0, steps[k].1).value;
    }
    assert steps[..5] == steps;
    var t := s.(held := Freed(s.held, p, operation));
    StrayFree(steps, 2, p, operation);
  }

  // The state after `k` of those steps.
  function TakingOver(p: ProfileId, operation: Operation, k: nat): State {
    var idle, with := Worker(Idle, NoLease), Worker(Direct(p, operation), NoLease);
    if k == 0 then START
    else if k == 1 then START.(workers := map[1 := idle])
    else if k == 2 then START.(workers := map[1 := idle, 2 := idle])
    else if k == 3 then START.(held := map[p := operation], workers := map[1 := with, 2 := idle])
    else if k == 4 then START.(workers := map[1 := idle, 2 := idle])
    else START.(held := map[p := operation], workers := map[1 := idle, 2 := with])
  }

  lemma RunOfNothing(s: State)
    ensures Run(s, []) == Some(s)
  {
  }

  lemma RunOneMore(s: State, steps: seq<(WorkerId, Action)>, k: nat)
    requires k < |steps|
    ensures Run(s, steps[..k + 1])
         == if Run(s, steps[..k]).None? then None else Do(Run(s, steps[..k]).value, steps[k].0, steps[k].1)
  {
    assert steps[..k + 1][..k] == steps[..k];
  }
}
