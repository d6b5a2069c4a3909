// Who is using what: a lease per profile, and one reader/writer lease on the whole
// installation. Neither ever waits; what is taken is refused.
module Leases {
  import opened Values
  import opened Wrappers

  datatype Operation = Starting | Copying

  datatype Busy = Busy(profile: ProfileId, operation: Operation)

  type Registry = map<ProfileId, Operation>

  // ---- One critical section at a time ----

  function Taken(held: Registry, profile: ProfileId, operation: Operation): Registry {
    if profile in held then held else held[profile := operation]
  }

  function Freed(held: Registry, profile: ProfileId, operation: Operation): Registry {
    if profile in held && held[profile] == operation then held - {profile} else held
  }

  class Operations {
    var held: Registry

    constructor ()
      ensures held == map[]
    {
      held := map[];
    }

    method Take(profile: ProfileId, operation: Operation) returns (busy: Option<Busy>)
      modifies this
      ensures held == Taken(old(held), profile, operation)
      ensures busy == if profile in old(held) then Some(Busy(profile, old(held)[profile])) else None
    {
      if profile in held {
        return Some(Busy(profile, held[profile]));
      }
      held := held[profile := operation];
      return None;
    }

    method Free(profile: ProfileId, operation: Operation) returns (gave: bool)
      modifies this
      ensures held == Freed(old(held), profile, operation)
      ensures gave == (profile in old(held) && old(held)[profile] == operation)
    {
      if profile in held && held[profile] == operation {
        held := held - {profile};
        return true;
      }
      return false;
    }

    // All of them or none. With nobody else about, it is refused exactly when one of
    // them is held already or is asked for twice, and then it names the first such and
    // what that is busy with - and the registry is what it was.
    method Lease(profiles: seq<ProfileId>, operation: Operation) returns (r: Result<seq<ProfileId>, Busy>)
      modifies this
      ensures r.Ok? <==> AllFree(old(held), profiles)
      ensures r.Ok? ==> r.value == profiles && held == WithAll(old(held), profiles, operation)
      ensures r.Err? ==> held == old(held)
      ensures r.Err? ==> exists i | 0 <= i < |profiles| ::
                && AllFree(old(held), profiles[..i]) && !AllFree(old(held), profiles[..i + 1])
                && r.error == Busy(profiles[i], if profiles[i] in old(held) then old(held)[profiles[i]] else operation)
    {
      ghost var before := held;
      for i := 0 to |profiles|
        invariant AllFree(before, profiles[..i])
        invariant held == WithAll(before, profiles[..i], operation)
      {
        TakeOne(before, profiles, i, operation);
        var busy := Take(profiles[i], operation);
        if busy.Some? {
          TakenTwice(before, profiles, i);
          GiveBack(profiles[..i], operation, before);
          return Err(busy.value);
        }
      }
      assert profiles[..|profiles|] == profiles;
      return Ok(profiles);
    }

    // What a failed lease does with what it took, and what dropping a held one does.
    method GiveBack(profiles: seq<ProfileId>, operation: Operation, ghost before: Registry)
      requires AllFree(before, profiles) && held == WithAll(before, profiles, operation)
      modifies this
      ensures held == before
    {
      for i := 0 to |profiles|
        invariant AllFree(before, profiles[i..])
        invariant held == WithAll(before, profiles[i..], operation)
      {
        assert profiles[i..][1..] == profiles[i + 1..];
        GiveOne(before, profiles[i..], operation);
        var _ := Free(profiles[i], operation);
      }
      assert WithAll(before, [], operation) == before;
    }
  }

  predicate AllFree(held: Registry, profiles: seq<ProfileId>) {
    && (forall i | 0 <= i < |profiles| :: profiles[i] !in held)
    && (forall i, j | 0 <= i < j < |profiles| :: profiles[i] != profiles[j])
  }

  function WithAll(held: Registry, profiles: seq<ProfileId>, operation: Operation): Registry {
    held + map p | p in profiles :: operation
  }

  lemma TakeOne(before: Registry, profiles: seq<ProfileId>, i: nat, operation: Operation)
    requires i < |profiles| && AllFree(before, profiles[..i])
    ensures var p, held := profiles[i], WithAll(before, profiles[..i], operation);
            && (p in held <==> p in before || p in profiles[..i])
            && (p in held ==> held[p] == if p in before then before[p] else operation)
            && (p !in held ==> AllFree(before, profiles[..i + 1])
                               && Taken(held, p, operation) == WithAll(before, profiles[..i + 1], operation))
  {
    var p, some := profiles[i], profiles[..i];
    assert profiles[..i + 1] == some + [p];
    OneMore(before, some, p, operation);
    if p !in before && p !in some {
      assert AllFree(before, some + [p]);
    }
  }

  lemma OneMore(before: Registry, some: seq<ProfileId>, p: ProfileId, operation: Operation)
    ensures WithAll(before, some + [p], operation) == WithAll(before, some, operation)[p := operation]
  {
  }

  lemma GiveOne(before: Registry, profiles: seq<ProfileId>, operation: Operation)
    requires profiles != [] && AllFree(before, profiles)
    ensures Freed(WithAll(before, profiles, operation), profiles[0], operation)
              == WithAll(before, profiles[1..], operation)
    ensures AllFree(before, profiles[1..])
  {
    FirstIsAlone(before, profiles);
    hide AllFree, WithAll, Freed;
    var p, rest := profiles[0], profiles[1..];
    var less := WithAll(before, rest, operation);
    NotAmong(before, rest, p, operation);
    OneFirst(before, p, rest, operation);
    AddedAndFreed(less, p, operation);
  }

  lemma AddedAndFreed(held: Registry, p: ProfileId, operation: Operation)
    requires p !in held
    ensures Freed(held[p := operation], p, operation) == held
  {
    assert held[p := operation] - {p} == held;
  }

  lemma FirstIsAlone(before: Registry, profiles: seq<ProfileId>)
    requires profiles != [] && AllFree(before, profiles)
    ensures profiles[0] !in before && profiles[0] !in profiles[1..] && profiles == [profiles[0]] + profiles[1..]
    ensures AllFree(before, profiles[1..])
  {
    var rest := profiles[1..];
    forall i | 0 <= i < |rest| ensures rest[i] !in before && rest[i] != profiles[0] {
      assert rest[i] == profiles[i + 1];
    }
    forall i, j | 0 <= i < j < |rest| ensures rest[i] != rest[j] {
      assert rest[i] == profiles[i + 1] && rest[j] == profiles[j + 1];
    }
  }

  lemma NotAmong(before: Registry, profiles: seq<ProfileId>, p: ProfileId, operation: Operation)
    requires p !in before && p !in profiles
    ensures p !in WithAll(before, profiles, operation)
  {
  }

  lemma OneFirst(before: Registry, p: ProfileId, rest: seq<ProfileId>, operation: Operation)
    ensures WithAll(before, [p] + rest, operation) == WithAll(before, rest, operation)[p := operation]
  {
  }

  lemma TakenTwice(before: Registry, profiles: seq<ProfileId>, i: nat)
    requires i < |profiles| && (profiles[i] in before || profiles[i] in profiles[..i])
    ensures !AllFree(before, profiles[..i + 1]) && !AllFree(before, profiles)
  {
  }

  // The installation: how many share it, and whether one has it alone.
  datatype Sharing = Sharing(shared: nat, exclusive: bool)

  function Acquired(state: Sharing, exclusive: bool): Option<Sharing> {
    if state.exclusive || (exclusive && state.shared != 0) then None
    else if exclusive then Some(state.(exclusive := true))
    else Some(state.(shared := state.shared + 1))
  }

  function Released(state: Sharing, exclusive: bool): Sharing
    requires exclusive || state.shared > 0
  {
    if exclusive then state.(exclusive := false) else state.(shared := state.shared - 1)
  }

  class Installation {
    var state: Sharing

    constructor ()
      ensures state == Sharing(0, false)
    {
      state := Sharing(0, false);
    }

    // Sharing is refused only while someone has it alone, and having it alone while anyone
    // has it at all.
    method Acquire(exclusive: bool) returns (ok: bool)
      modifies this
      ensures ok <==> !old(state.exclusive) && (exclusive ==> old(state.shared) == 0)
      ensures ok ==>
                state == if exclusive then Sharing(old(state.shared), true) else Sharing(old(state.shared) + 1, false)
      ensures !ok ==> state == old(state)
      ensures ok == Acquired(old(state), exclusive).Some?
      ensures state == if ok then Acquired(old(state), exclusive).value else old(state)
    {
      if state.exclusive || (exclusive && state.shared != 0) {
        return false;
      }
      if exclusive {
        state := state.(exclusive := true);
      } else {
        state := state.(shared := state.shared + 1);
      }
      return true;
    }

    method Release(exclusive: bool)
      requires exclusive || state.shared > 0
      modifies this
      ensures state == Released(old(state), exclusive)
      ensures state == if exclusive then Sharing(old(state.shared), false)
                else Sharing(old(state.shared) - 1, old(state.exclusive))
    {
      if exclusive {
        state := state.(exclusive := false);
      } else {
        state := state.(shared := state.shared - 1);
      }
    }
  }
}
