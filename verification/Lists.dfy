// Filtering, upserting and telling identifiers apart, for lists read front to back.
module Lists {
  import opened Values
  import opened Wrappers

  // What `pick` takes from the records, in their order.
  function Picked<T, U>(records: seq<T>, pick: T -> Option<U>): seq<U> {
    if records == [] then []
    else
      var n := |records| - 1;
      Picked(records[..n], pick) + (if pick(records[n]).Some? then [pick(records[n]).value] else [])
  }

  lemma PickedFromNothing<T, U>(records: seq<T>, pick: T -> Option<U>)
    ensures Picked(records[..0], pick) == []
  {
  }

  // One step of a loop that picks.
  lemma PickedNext<T, U>(records: seq<T>, i: nat, pick: T -> Option<U>)
    requires i < |records|
    ensures Picked(records[..i + 1], pick)
         == Picked(records[..i], pick) + (if pick(records[i]).Some? then [pick(records[i]).value] else [])
  {
    assert records[..i + 1][..i] == records[..i];
  }

  lemma {:induction false} PickedMembers<T, U>(records: seq<T>, pick: T -> Option<U>)
    ensures forall u :: u in Picked(records, pick) <==> exists r | r in records :: pick(r) == Some(u)
  {
    if records != [] {
      var n := |records| - 1;
      PickedMembers(records[..n], pick);
      assert records == records[..n] + [records[n]];
      forall u ensures u in Picked(records, pick) <==> exists r | r in records :: pick(r) == Some(u) {
        if r :| r in records && pick(r) == Some(u) {
          assert r in records[..n] || r == records[n];
        }
      }
    }
  }

  lemma AllButTheLast<T>(a: seq<T>, b: seq<T>)
    requires b != []
    ensures (a + b)[..|a + b| - 1] == a + b[..|b| - 1] && (a + b)[|a + b| - 1] == b[|b| - 1]
  {
  }

  lemma {:induction false} PickedAppended<T, U>(a: seq<T>, b: seq<T>, pick: T -> Option<U>)
    ensures Picked(a + b, pick) == Picked(a, pick) + Picked(b, pick)
  {
    if b == [] {
      assert a + b == a;
    } else {
      var n := |b| - 1;
      PickedAppended(a, b[..n], pick);
      AllButTheLast(a, b);
    }
  }

  function Tally<U>(o: Option<U>): nat { if o.Some? then 1 else 0 }

  lemma PickedOnTop<T, U>(records: seq<T>, pick: T -> Option<U>)
    requires records != []
    ensures |Picked(records, pick)| == |Picked(records[..|records| - 1], pick)| + Tally(pick(records[|records| - 1]))
  {
  }

  // Three picks of which exactly one takes each record account for all of them.
  lemma {:induction false} PickedAccounts<T, A, B, C>(records: seq<T>, a: T -> Option<A>, b: T -> Option<B>,
                                                      c: T -> Option<C>)
    requires forall r | r in records :: Tally(a(r)) + Tally(b(r)) + Tally(c(r)) == 1
    ensures |Picked(records, a)| + |Picked(records, b)| + |Picked(records, c)| == |records|
  {
    if records != [] {
      hide Picked, Tally;
      var n := |records| - 1;
      assert records[n] in records;
      forall r | r in records[..n] ensures Tally(a(r)) + Tally(b(r)) + Tally(c(r)) == 1 {
        assert r in records;
      }
      PickedAccounts(records[..n], a, b, c);
      PickedOnTop(records, a);
      PickedOnTop(records, b);
      PickedOnTop(records, c);
    }
  }

  lemma {:induction false} PickedNone<T, U>(records: seq<T>, pick: T -> Option<U>)
    requires forall r | r in records :: pick(r).None?
    ensures Picked(records, pick) == []
  {
    if records != [] {
      var n := |records| - 1;
      assert records[n] in records;
      assert forall r | r in records[..n] :: r in records;
      PickedNone(records[..n], pick);
    }
  }

  lemma {:induction false} PickedAll<T>(records: seq<T>, pick: T -> Option<T>)
    requires forall r | r in records :: pick(r) == Some(r)
    ensures Picked(records, pick) == records
  {
    if records != [] {
      var n := |records| - 1;
      assert records[n] in records;
      assert forall r | r in records[..n] :: r in records;
      PickedAll(records[..n], pick);
      assert records == records[..n] + [records[n]];
    }
  }

  lemma {:induction false} PickedAlike<T, U>(records: seq<T>, a: T -> Option<U>, b: T -> Option<U>)
    requires forall r | r in records :: a(r) == b(r)
    ensures Picked(records, a) == Picked(records, b)
  {
    if records != [] {
      var n := |records| - 1;
      assert records[n] in records;
      assert forall r | r in records[..n] :: r in records;
      PickedAlike(records[..n], a, b);
    }
  }

  // ---- What a list is a selection of ----

  // `from` lists, in order, the places of all the chosen records and no others.
  ghost predicate Places<T>(records: seq<T>, chosen: T -> bool, from: seq<nat>) {
    && (forall i, j | 0 <= i < j < |from| :: from[i] < from[j])
    && (forall i | 0 <= i < |from| :: from[i] < |records| && chosen(records[from[i]]))
    && (forall k | 0 <= k < |records| && chosen(records[k]) :: k in from)
  }

  ghost predicate SelectsFrom<T, U>(records: seq<T>, chosen: T -> bool, what: T -> U, out: seq<U>, from: seq<nat>) {
    && Places(records, chosen, from)
    && |out| == |from|
    && forall i | 0 <= i < |out| :: out[i] == what(records[from[i]])
  }

  // `out` says `what` of each chosen record, of no other, and in their order.
  ghost predicate Selects<T, U>(records: seq<T>, chosen: T -> bool, what: T -> U, out: seq<U>) {
    exists from :: SelectsFrom(records, chosen, what, out, from)
  }

  lemma SelectsNothing<T, U>(chosen: T -> bool, what: T -> U)
    ensures Selects([], chosen, what, [])
  {
    assert SelectsFrom([], chosen, what, [], []);
  }

  lemma SelectsOneMore<T, U>(records: seq<T>, r: T, chosen: T -> bool, what: T -> U, out: seq<U>)
    requires Selects(records, chosen, what, out)
    ensures Selects(records + [r], chosen, what, out + if chosen(r) then [what(r)] else [])
  {
    var from: seq<nat> :| SelectsFrom(records, chosen, what, out, from);
    if chosen(r) {
      OnePlaceMore(records, r, chosen, from);
      assert SelectsFrom(records + [r], chosen, what, out + [what(r)], from + [|records|]);
    } else {
      assert Places(records + [r], chosen, from);
      assert SelectsFrom(records + [r], chosen, what, out + [], from);
    }
  }

  lemma OnePlaceMore<T>(records: seq<T>, r: T, chosen: T -> bool, from: seq<nat>)
    requires Places(records, chosen, from) && chosen(r)
    ensures Places(records + [r], chosen, from + [|records|])
  {
    forall k | 0 <= k < |records + [r]| && chosen((records + [r])[k]) ensures k in from + [|records|] {
      if k < |records| {
        assert chosen(records[k]);
      }
    }
  }

  lemma {:induction false} PickedSelects<T, U>(records: seq<T>, pick: T -> Option<U>, chosen: T -> bool, what: T -> U)
    requires forall r | r in records :: pick(r) == if chosen(r) then Some(what(r)) else None
    ensures Selects(records, chosen, what, Picked(records, pick))
  {
    if records == [] {
      SelectsNothing(chosen, what);
    } else {
      hide Selects;
      var n := |records| - 1;
      assert records == records[..n] + [records[n]];
      assert forall r | r in records[..n] :: r in records;
      PickedSelects(records[..n], pick, chosen, what);
      SelectsOneMore(records[..n], records[n], chosen, what, Picked(records[..n], pick));
    }
  }

  // There is only one such list.
  lemma SelectionIsUnique<T, U>(records: seq<T>, chosen: T -> bool, what: T -> U, a: seq<U>, b: seq<U>)
    requires Selects(records, chosen, what, a) && Selects(records, chosen, what, b)
    ensures a == b
  {
    hide Places;
    var x: seq<nat> :| SelectsFrom(records, chosen, what, a, x);
    var y: seq<nat> :| SelectsFrom(records, chosen, what, b, y);
    SamePlaces(records, chosen, x, y, |x|);
    SamePlaces(records, chosen, y, x, |y|);
    assert x[..|x|] == x && y[..|y|] == y;
  }

  lemma {:induction false} SamePlaces<T>(records: seq<T>, chosen: T -> bool, x: seq<nat>, y: seq<nat>, n: nat)
    requires Places(records, chosen, x) && Places(records, chosen, y) && n <= |x|
    ensures n <= |y| && x[..n] == y[..n]
  {
    hide Places;
    if n > 0 {
      SamePlaces(records, chosen, x, y, n - 1);
      PlaceComesNext(records, chosen, x, y, n - 1);
      PlaceComesNext(records, chosen, y, x, n - 1);
      assert x[..n] == x[..n - 1] + [x[n - 1]] && y[..n] == y[..n - 1] + [y[n - 1]];
    }
  }

  lemma PlaceComesNext<T>(records: seq<T>, chosen: T -> bool, x: seq<nat>, y: seq<nat>, n: nat)
    requires Places(records, chosen, x) && Places(records, chosen, y)
    requires n < |x| && n <= |y| && x[..n] == y[..n]
    ensures n < |y| && y[n] <= x[n]
  {
    assert chosen(records[x[n]]);
    assert forall i | 0 <= i < n :: y[i] == x[..n][i];
    var k :| 0 <= k < |y| && y[k] == x[n];
    assert k >= n;
  }

  predicate DistinctBy<T>(records: seq<T>, id: T -> Id) {
    forall i, j | 0 <= i < j < |records| :: id(records[i]) != id(records[j])
  }

  // Upserts, one after another, of the records that pass.
  function Upserted<T>(table: map<Id, T>, records: seq<T>, id: T -> Id, valid: T -> bool): map<Id, T> {
    if records == [] then table
    else
      var n := |records| - 1;
      var before := Upserted(table, records[..n], id, valid);
      if valid(records[n]) then before[id(records[n]) := records[n]] else before
  }

  lemma UpsertedNext<T>(table: map<Id, T>, records: seq<T>, i: nat, id: T -> Id, valid: T -> bool)
    requires i < |records|
    ensures Upserted(table, records[..i + 1], id, valid)
         == if valid(records[i]) then Upserted(table, records[..i], id, valid)[id(records[i]) := records[i]]
            else Upserted(table, records[..i], id, valid)
  {
    assert records[..i + 1][..i] == records[..i];
  }

  // Whose identifiers are in the table afterwards, and which rows are as they were.
  lemma {:induction false} UpsertedKeys<T>(table: map<Id, T>, records: seq<T>, id: T -> Id, valid: T -> bool)
    ensures forall k :: k in Upserted(table, records, id, valid) <==>
                        k in table || exists r | r in records :: id(r) == k && valid(r)
    ensures forall k | k in table && (forall r | r in records :: id(r) == k ==> !valid(r)) ::
              Upserted(table, records, id, valid)[k] == table[k]
  {
    if records != [] {
      var n := |records| - 1;
      var r := records[n];
      UpsertedKeys(table, records[..n], id, valid);
      assert records == records[..n] + [r];
      var before, after := Upserted(table, records[..n], id, valid), Upserted(table, records, id, valid);
      forall k ensures k in after <==> k in table || exists q | q in records :: id(q) == k && valid(q) {
        if k in before && k !in table {
          var q :| q in records[..n] && id(q) == k && valid(q);
          assert q in records;
        }
        if q :| q in records && id(q) == k && valid(q) {
          assert q == r || q in records[..n];
        }
      }
      assert forall q | q in records[..n] :: q in records;
    }
  }

  // Every row is an old one or one of the records, under its own identifier.
  lemma {:induction false} UpsertedRows<T>(table: map<Id, T>, records: seq<T>, id: T -> Id, valid: T -> bool)
    ensures forall k | k in Upserted(table, records, id, valid) ::
              || (k in table && Upserted(table, records, id, valid)[k] == table[k])
              || (Upserted(table, records, id, valid)[k] in records
                  && id(Upserted(table, records, id, valid)[k]) == k && valid(Upserted(table, records, id, valid)[k]))
  {
    if records != [] {
      var n := |records| - 1;
      UpsertedRows(table, records[..n], id, valid);
      assert forall q | q in records[..n] :: q in records;
      assert records[n] in records;
    }
  }

  lemma UpsertedNothing<T>(table: map<Id, T>, records: seq<T>, id: T -> Id, valid: T -> bool)
    requires forall r | r in records :: !valid(r)
    ensures Upserted(table, records, id, valid) == table
  {
  }

  // With distinct identifiers nothing is written over.
  lemma {:induction false} UpsertedDistinct<T>(records: seq<T>, id: T -> Id, valid: T -> bool)
    requires DistinctBy(records, id) && forall r | r in records :: valid(r)
    ensures forall k :: k in Upserted(map[], records, id, valid) <==> exists r | r in records :: id(r) == k
    ensures forall r | r in records ::
              id(r) in Upserted(map[], records, id, valid) && Upserted(map[], records, id, valid)[id(r)] == r
  {
    UpsertedKeys(map[], records, id, valid);
    UpsertedRows(map[], records, id, valid);
    forall r | r in records ensures Upserted(map[], records, id, valid)[id(r)] == r {
      var q := Upserted(map[], records, id, valid)[id(r)];
      var i :| 0 <= i < |records| && records[i] == r;
      var j :| 0 <= j < |records| && records[j] == q;
      assert i == j;
    }
  }
}
