/** The loops that bring the stored environment variables, config mounts and volume bindings of an
    application to the requested ones (swiftwave_service/core/application.operations.go). */
module Reconcile {
  import opened Wrappers

  /** A stored row; `extra` is what the request does not say. */
  datatype Row<V, E> = Row(application: string, key: string, value: V, extra: E)

  datatype Entry<V> = Entry(key: string, value: V)

  // ------------------------------------------------------------------
  // From the request's list to a map
  // ------------------------------------------------------------------

  /** Of entries with the same key the last one counts. */
  predicate IsLast<V>(list: seq<Entry<V>>, i: nat) {
    i < |list| && forall j :: i < j < |list| ==> list[j].key != list[i].key
  }

  ghost predicate Requests<V>(list: seq<Entry<V>>, wanted: map<string, V>) {
    && (forall e :: e in list ==> e.key in wanted)
    && (forall k :: k in wanted ==> exists i: nat :: IsLast(list, i) && list[i].key == k && list[i].value == wanted[k])
  }

  predicate NoRepeatedKey<V>(list: seq<Entry<V>>) {
    forall i, j :: 0 <= i < j < |list| ==> list[i].key != list[j].key
  }

  method ToMap<V>(list: seq<Entry<V>>) returns (wanted: map<string, V>)
    ensures Requests(list, wanted)
  {
    wanted := map[];
    assert Requests(list[..0], wanted);
    hide Requests;
    for i := 0 to |list|
      invariant Requests(list[..i], wanted)
    {
      AddsRequest(list[..i], list[i], wanted);
      assert list[..i] + [list[i]] == list[..i + 1];
      wanted := wanted[list[i].key := list[i].value];
    }
    assert list[..|list|] == list;
  }

  lemma AddsRequest<V>(list: seq<Entry<V>>, e: Entry<V>, wanted: map<string, V>)
    requires Requests(list, wanted)
    ensures Requests(list + [e], wanted[e.key := e.value])
  {
    var list', wanted' := list + [e], wanted[e.key := e.value];
    forall k | k in wanted' ensures exists i: nat ::
        IsLast(list', i) && list'[i].key == k &&
        list'[i].value == wanted'[k] {
      if k == e.key {
        assert IsLast(list', |list|);
      } else {
        var i: nat :| IsLast(list, i) && list[i].key == k && list[i].value == wanted[k];
        assert IsLast(list', i) && list'[i] == list[i];
      }
    }
  }

  // ------------------------------------------------------------------
  // One table
  // ------------------------------------------------------------------

  ghost predicate Of<V, E>(rows: map<nat, Row<V, E>>, application: string, id: nat) {
    id in rows && rows[id].application == application
  }

  /** The application's rows are the requested keys, each once and with the requested value. */
  ghost predicate HoldsExactly<V, E>(rows: map<nat, Row<V, E>>, application: string, wanted: map<string, V>) {
    && (forall id :: Of(rows, application, id) ==> rows[id].key in wanted && rows[id].value == wanted[rows[id].key])
    && (forall k :: k in wanted ==> exists id :: Of(rows, application, id) && rows[id].key == k)
    && (forall i, j :: Of(rows, application, i) && Of(rows, application, j) && rows[i].key == rows[j].key ==> i == j)
  }

  /** Every other application keeps its rows. */
  ghost predicate OthersKept<V, E>(before: map<nat, Row<V, E>>, after: map<nat, Row<V, E>>, application: string) {
    && (forall id :: id in before && before[id].application != application ==> id in after && after[id] == before[id])
    && (forall id :: id in after && after[id].application != application ==> id in before && before[id] == after[id])
  }

  /** What became of the old rows that are still there, and what the new ones look like. */
  ghost predicate RowsFollow<V, E>(before: map<nat, Row<V, E>>, after: map<nat, Row<V, E>>, application: string,
      onUpdate: E -> E, initial: E) {
    forall id :: Of(after, application, id) ==>
                   if id !in before then after[id].extra == initial && forall i :: Of(before, application, i) ==>
                       before[i].key != after[id].key
                   else before[id].application == application && before[id].key == after[id].key
                        && after[id].extra ==
                            if after[id].value == before[id].value then before[id].extra else onUpdate(before[id].extra)
  }

  /** What a visited row became, if it is still there. */
  ghost predicate Follows<V, E>(before: Row<V, E>, after: Row<V, E>, onUpdate: E -> E) {
    && before.application == after.application && before.key == after.key
    && after.extra == if after.value == before.value then before.extra else onUpdate(before.extra)
  }

  lemma FollowsUpdate<V, E>(row: Row<V, E>, value: V, onUpdate: E -> E)
    ensures Follows(row, row, onUpdate)
    ensures (value != row.value ==> Follows(row, row.(value := value, extra := onUpdate(row.extra)), onUpdate))
  {
  }

  // ------------------------------------------------------------------
  // The first loop: what holds while rows remain to be visited
  // ------------------------------------------------------------------

  /** Rows only go away or follow their old selves; the remaining ones and those of other
      applications are untouched. */
  ghost predicate Frame<V, E>(before: map<nat, Row<V, E>>, rows: map<nat, Row<V, E>>, application: string,
      remaining: set<nat>, onUpdate: E -> E) {
    && (forall id :: id in rows ==> id in before && Follows(before[id], rows[id], onUpdate))
    && (forall id :: id in before && before[id].application != application ==> id in rows)
    && (forall id :: id in rows && rows[id].application != application ==> rows[id] == before[id])
    && (forall id :: id in remaining ==> Of(rows, application, id) && rows[id] == before[id])
  }

  /** A key that is no longer pending is held by one visited row, and visited rows hold such keys. */
  ghost predicate Held<V, E>(rows: map<nat, Row<V, E>>, application: string, remaining: set<nat>,
      wanted: map<string, V>, pending: map<string, V>, holder: map<string, nat>) {
    && holder.Keys == wanted.Keys - pending.Keys
    && (forall k :: k in pending ==> k in wanted && pending[k] == wanted[k])
    && (forall k :: k in holder ==>
          holder[k] !in remaining && Of(rows, application, holder[k]) &&
          rows[holder[k]].key == k && rows[holder[k]].value == wanted[k])
    && (forall id ::
          Of(rows, application, id) && id !in remaining ==> rows[id].key in holder && holder[rows[id].key] == id)
  }

  /** No visited row had a key that is still pending. */
  ghost predicate Awaited<V, E>(before: map<nat, Row<V, E>>, application: string, remaining: set<nat>,
      pending: map<string, V>) {
    forall i :: Of(before, application, i) && i !in remaining ==> before[i].key !in pending
  }

  ghost predicate Differs<V, E>(before: map<nat, Row<V, E>>, rows: map<nat, Row<V, E>>, remaining: set<nat>) {
    exists id :: id in before && id !in remaining && (id !in rows || rows[id] != before[id])
  }

  lemma FirstLoopStarts<V, E>(rows: map<nat, Row<V, E>>, application: string, remaining: set<nat>, onUpdate: E -> E,
      wanted: map<string, V>)
    requires remaining == set id | id in rows && rows[id].application == application
    ensures Frame(rows, rows, application, remaining, onUpdate)
    ensures Held(rows, application, remaining, wanted, wanted, map[])
    ensures Awaited(rows, application, remaining, wanted)
  {
  }

  lemma RemainingIsThere<V, E>(before: map<nat, Row<V, E>>, rows: map<nat, Row<V, E>>, application: string,
      remaining: set<nat>, onUpdate: E -> E, id: nat)
    requires Frame(before, rows, application, remaining, onUpdate) && id in remaining
    ensures id in rows && id in before && rows[id] == before[id]
  {
  }

  lemma DiffersMeans<V, E>(before: map<nat, Row<V, E>>, rows: map<nat, Row<V, E>>, remaining: set<nat>)
    requires Differs(before, rows, remaining)
    ensures rows != before
  {
  }

  lemma KeepStep<V, E>(before: map<nat, Row<V, E>>, rows: map<nat, Row<V, E>>, application: string,
      remaining: set<nat>, onUpdate: E -> E, wanted: map<string, V>, pending: map<string, V>,
      holder: map<string, nat>, id: nat, row: Row<V, E>)
    requires Frame(before, rows, application, remaining, onUpdate)
    requires Held(rows, application, remaining, wanted, pending, holder)
    requires id in remaining && rows[id].key in pending && row.key == rows[id].key && row.value == pending[row.key]
    requires Follows(rows[id], row, onUpdate)
    ensures Frame(before, rows[id := row], application, remaining - {id}, onUpdate)
    ensures Held(rows[id := row], application, remaining - {id}, wanted, pending - {row.key}, holder[row.key := id])
  {
    KeepHeld(rows, application, remaining, wanted, pending, holder, id, row);
    hide Held;
  }

  lemma KeepHeld<V, E>(rows: map<nat, Row<V, E>>, application: string, remaining: set<nat>, wanted: map<string, V>,
      pending: map<string, V>, holder: map<string, nat>, id: nat, row: Row<V, E>)
    requires Held(rows, application, remaining, wanted, pending, holder)
    requires id in remaining && Of(rows, application, id) && row.application == application
    requires row.key == rows[id].key && row.key in pending && row.value == pending[row.key]
    ensures Held(rows[id := row], application, remaining - {id}, wanted, pending - {row.key}, holder[row.key := id])
  {
  }

  lemma KeepStepDiffers<V, E>(before: map<nat, Row<V, E>>, rows: map<nat, Row<V, E>>, application: string,
      remaining: set<nat>, onUpdate: E -> E, pending: map<string, V>, id: nat, row: Row<V, E>)
    requires Frame(before, rows, application, remaining, onUpdate) && id in remaining && row.key == rows[id].key
    ensures Awaited(before, application, remaining, pending) ==>
              Awaited(before, application, remaining - {id}, pending - {row.key})
    ensures row != rows[id] || Differs(before, rows, remaining) ==> Differs(before, rows[id := row], remaining - {id})
  {
    if row != rows[id] {
      assert id in before && rows[id := row][id] != before[id];
    } else if Differs(before, rows, remaining) {
      var i :| i in before && i !in remaining && (i !in rows || rows[i] != before[i]);
      assert i !in rows[id := row] || rows[id := row][i] != before[i];
    }
  }

  lemma DropStep<V, E>(before: map<nat, Row<V, E>>, rows: map<nat, Row<V, E>>, application: string,
      remaining: set<nat>, onUpdate: E -> E, wanted: map<string, V>, pending: map<string, V>,
      holder: map<string, nat>, id: nat)
    requires Frame(before, rows, application, remaining, onUpdate)
    requires Held(rows, application, remaining, wanted, pending, holder)
    requires id in remaining
    ensures Frame(before, rows - {id}, application, remaining - {id}, onUpdate)
    ensures Held(rows - {id}, application, remaining - {id}, wanted, pending, holder)
    ensures Awaited(before, application, remaining, pending) && rows[id].key !in pending ==>
              Awaited(before, application, remaining - {id}, pending)
    ensures Differs(before, rows - {id}, remaining - {id})
  {
    assert id in before && id !in rows - {id};
  }

  /** When the table already holds the request, every row that remains is pending with its value. */
  lemma NothingToDo<V, E>(before: map<nat, Row<V, E>>, rows: map<nat, Row<V, E>>, application: string,
      remaining: set<nat>, onUpdate: E -> E, wanted: map<string, V>, pending: map<string, V>,
      holder: map<string, nat>, id: nat)
    requires Frame(before, rows, application, remaining, onUpdate)
    requires Held(rows, application, remaining, wanted, pending, holder)
    requires HoldsExactly(before, application, wanted) && id in remaining
    ensures rows[id].key in pending && rows[id].value == pending[rows[id].key]
  {
    var key := rows[id].key;
    assert Of(before, application, id);
    forall k | k in holder ensures k != key {
      assert Of(before, application, holder[k]) && before[holder[k]].key == k;
    }
  }

  // ------------------------------------------------------------------
  // The second loop
  // ------------------------------------------------------------------

  /** One new row for each pending key, and nothing else. */
  ghost predicate Inserted<V, E>(before: map<nat, Row<V, E>>, rows: map<nat, Row<V, E>>, from: nat,
      application: string, pending: map<string, V>, initial: E, newIds: map<string, nat>) {
    && (forall id :: id in before ==> id in rows && rows[id] == before[id])
    && (forall id :: id in rows && id !in before ==> rows[id].key in newIds && newIds[rows[id].key] == id)
    && newIds.Keys == pending.Keys
    && (forall k :: k in newIds ==>
          newIds[k] !in before && newIds[k] >= from &&
          newIds[k] in rows && rows[newIds[k]] == Row(application, k, pending[k], initial))
  }

  lemma NothingInserted<V, E>(rows: map<nat, Row<V, E>>, from: nat, application: string, initial: E)
    ensures Inserted<V, E>(rows, rows, from, application, map[], initial, map[])
  {
  }

  lemma InsertStep<V, E>(before: map<nat, Row<V, E>>, rows: map<nat, Row<V, E>>, from: nat, application: string,
      pending: map<string, V>, initial: E, newIds: map<string, nat>, key: string, value: V, id: nat)
    requires Inserted(before, rows, from, application, pending, initial, newIds)
    requires key !in pending && id !in rows && id >= from
    ensures Inserted(before, rows[id := Row(application, key, value, initial)], from, application,
              pending[key := value], initial, newIds[key := id])
  {
  }

  lemma BothLoopsHold<V, E>(middle: map<nat, Row<V, E>>, rows: map<nat, Row<V, E>>, from: nat, application: string,
      wanted: map<string, V>, pending: map<string, V>, initial: E, holder: map<string, nat>, newIds: map<string, nat>)
    requires Held(middle, application, {}, wanted, pending, holder)
    requires Inserted(middle, rows, from, application, pending, initial, newIds)
    ensures HoldsExactly(rows, application, wanted)
  {
    forall k | k in wanted ensures exists id :: Of(rows, application, id) && rows[id].key == k {
      var id := if k in pending then newIds[k] else holder[k];
      assert Of(middle, application, id) || id in newIds.Values;
      assert Of(rows, application, id) && rows[id].key == k;
    }
    forall id | Of(rows, application, id)
      ensures rows[id].key in wanted && rows[id].value == wanted[rows[id].key] && id ==
                if rows[id].key in pending then newIds[rows[id].key] else holder[rows[id].key]
    {
      assert id in middle ==> Of(middle, application, id);
    }
  }

  lemma BothLoopsFollow<V, E>(before: map<nat, Row<V, E>>, middle: map<nat, Row<V, E>>, rows: map<nat, Row<V, E>>,
      from: nat, application: string, wanted: map<string, V>, pending: map<string, V>, onUpdate: E -> E, initial: E,
      newIds: map<string, nat>)
    requires Frame(before, middle, application, {}, onUpdate) && Awaited(before, application, {}, pending)
    requires Inserted(middle, rows, from, application, pending, initial, newIds)
    requires forall id :: id in before ==> id < from
    ensures OthersKept(before, rows, application)
    ensures RowsFollow(before, rows, application, onUpdate, initial)
    ensures pending != map[] ==> rows != before
    ensures pending == map[] ==> rows == middle
  {
    if pending != map[] {
      var k :| k in pending;
      assert newIds[k] in rows && newIds[k] !in before;
    }
  }

  class Table<V(==), E> {
    var rows: map<nat, Row<V, E>>
    var nextId: nat

    ghost predicate Valid() reads this {
      forall id :: id in rows ==> id < nextId
    }

    constructor ()
      ensures Valid() && rows == map[]
    {
      rows, nextId := map[], 0;
    }

    /** One pass of the first loop: update, keep or delete the row. */
    method Visit(id: nat, pending: map<string, V>, onUpdate: E -> E)
      returns (changed: bool, stillPending: map<string, V>)
      requires Valid() && id in rows
      modifies this`rows
      ensures Valid() && stillPending == pending - {old(rows[id]).key}
      ensures old(rows[id]).key !in pending ==> rows == old(rows) - {id} && changed
      ensures old(rows[id]).key in pending ==>
                var row, value := old(rows[id]), pending[old(rows[id]).key];
                && (changed <==> row.value != value)
                && rows ==
                   if changed then old(rows)[id := row.(value := value, extra := onUpdate(row.extra))] else old(rows)
    {
      var row := rows[id];
      if row.key in pending {
        if row.value != pending[row.key] {
          rows := rows[id := row.(value := pending[row.key], extra := onUpdate(row.extra))];
          stillPending := pending - {row.key};
          changed := true;
        } else {
          stillPending := pending - {row.key};
          changed := false;
        }
      } else {
        rows := rows - {id};
        stillPending := pending;
        changed := true;
      }
    }

    /** The first loop, over the application's rows in any order. */
    method KeepRequested(application: string, wanted: map<string, V>, onUpdate: E -> E)
      returns (changed: bool, pending: map<string, V>, ghost holder: map<string, nat>)
      requires Valid()
      modifies this`rows
      ensures Valid()
      ensures Frame(old(rows), rows, application, {}, onUpdate) && Held(rows, application, {}, wanted, pending, holder)
      ensures Awaited(old(rows), application, {}, pending)
      ensures changed <==> rows != old(rows)
      ensures HoldsExactly(old(rows), application, wanted) ==> !changed
    {
      hide Frame, Held, Awaited, Differs, HoldsExactly, Follows;
      pending, changed, holder := wanted, false, map[];
      ghost var before := rows;
      var remaining := set id | id in rows && rows[id].application == application;
      FirstLoopStarts(rows, application, remaining, onUpdate, wanted);
      while remaining != {}
        invariant Valid()
        invariant Frame(before, rows, application, remaining, onUpdate)
        invariant Held(rows, application, remaining, wanted, pending, holder)
        invariant Awaited(before, application, remaining, pending)
        invariant if changed then Differs(before, rows, remaining) else rows == before
        invariant HoldsExactly(before, application, wanted) ==> !changed
      {
        var id :| id in remaining;
        RemainingIsThere(before, rows, application, remaining, onUpdate, id);
        ghost var row, kept := rows[id], rows[id].key in pending;
        if HoldsExactly(before, application, wanted) {
          NothingToDo(before, rows, application, remaining, onUpdate, wanted, pending, holder, id);
        }
        if kept {
          var value := pending[row.key];
          var row' := if row.value == value then row else row.(value := value, extra := onUpdate(row.extra));
          FollowsUpdate(row, value, onUpdate);
          KeepStep(before, rows, application, remaining, onUpdate, wanted, pending, holder, id, row');
          KeepStepDiffers(before, rows, application, remaining, onUpdate, pending, id, row');
          holder := holder[row.key := id];
        } else {
          DropStep(before, rows, application, remaining, onUpdate, wanted, pending, holder, id);
        }
        assert rows[id := row] == rows && (!kept ==> pending - {row.key} == pending);
        var visited;
        visited, pending := Visit(id, pending, onUpdate);
        changed := changed || visited;
        remaining := remaining - {id};
      }
      if changed {
        DiffersMeans(before, rows, remaining);
      }
    }

    /** The second loop, over the requested keys that no row had. */
    method AddMissing(application: string, pending: map<string, V>, initial: E)
      returns (changed: bool, ghost newIds: map<string, nat>)
      requires Valid()
      modifies this
      ensures Valid() && (changed <==> pending != map[])
      ensures Inserted(old(rows), rows, old(nextId), application, pending, initial, newIds)
    {
      changed, newIds := false, map[];
      hide Inserted;
      ghost var before, from, done := rows, nextId, map[];
      NothingInserted(rows, from, application, initial);
      var left := pending.Keys;
      while left != {}
        invariant done.Keys == pending.Keys - left && left <= pending.Keys
        invariant forall k :: k in done ==> done[k] == pending[k]
        invariant Valid() && nextId >= from && (changed <==> left != pending.Keys)
        invariant Inserted(before, rows, from, application, done, initial, newIds)
      {
        var key :| key in left;
        left := left - {key};
        InsertStep(before, rows, from, application, done, initial, newIds, key, pending[key], nextId);
        done, newIds := done[key := pending[key]], newIds[key := nextId];
        rows := rows[nextId := Row(application, key, pending[key], initial)];
        nextId := nextId + 1;
        changed := true;
      }
      assert done == pending;
    }

    /** Both loops: whatever rows were there, the table then holds exactly the request, and a reload is
        asked for exactly when it did not before. */
    method ReconcileRows(application: string, wanted: map<string, V>, onUpdate: E -> E, initial: E)
      returns (reload: bool)
      requires Valid()
      modifies this
      ensures Valid() && HoldsExactly(rows, application, wanted)
      ensures OthersKept(old(rows), rows, application)
      ensures RowsFollow(old(rows), rows, application, onUpdate, initial)
      ensures reload <==> rows != old(rows)
      ensures reload <==> !HoldsExactly(old(rows), application, wanted)
    {
      ghost var before := rows;
      var changed, pending, holder := KeepRequested(application, wanted, onUpdate);
      ghost var middle := rows;
      var added, newIds := AddMissing(application, pending, initial);
      reload := changed || added;
      BothLoopsHold(middle, rows, old(nextId), application, wanted, pending, initial, holder, newIds);
      BothLoopsFollow(before, middle, rows, old(nextId), application, wanted, pending, onUpdate, initial, newIds);
      hide HoldsExactly, Frame, Held, Awaited, Inserted, OthersKept, RowsFollow;
    }
  }

  // ------------------------------------------------------------------
  // The three tables of an application
  // ------------------------------------------------------------------

  datatype Mount = Mount(content: string, uid: nat, gid: nat)

  /** The swarm config that was made for the mount, and its mode. */
  datatype MountExtra = MountExtra(configId: string, fileMode: nat)

  /** ConfigMount.Update */
  function WithoutConfig(e: MountExtra): MountExtra { e.(configId := "") }

  const NEW_MOUNT := MountExtra("", 444)

  datatype Error = DuplicateMountingPath

  /** A list determines its map. */
  lemma RequestsDetermine<V>(list: seq<Entry<V>>, w: map<string, V>, w': map<string, V>)
    requires Requests(list, w) && Requests(list, w')
    ensures w == w'
  {
    assert forall k :: k in w ==> k in w' by {
      assert forall i: nat :: IsLast(list, i) ==> list[i] in list;
    }
    assert forall k :: k in w' ==> k in w by {
      assert forall i: nat :: IsLast(list, i) ==> list[i] in list;
    }
    forall k | k in w ensures w[k] == w'[k] {
      var i: nat :| IsLast(list, i) && list[i].key == k && list[i].value == w[k];
      var j: nat :| IsLast(list, j) && list[j].key == k && list[j].value == w'[k];
      assert i == j;
    }
  }

  lemma SeenKeyRepeats<V>(list: seq<Entry<V>>, i: nat, wanted: map<string, V>)
    requires i < |list| && Requests(list[..i], wanted) && list[i].key in wanted
    ensures !NoRepeatedKey(list)
  {
    var k: nat :| IsLast(list[..i], k) && list[..i][k].key == list[i].key;
    assert list[k].key == list[i].key;
  }

  lemma NewKeyKeeps<V>(list: seq<Entry<V>>, i: nat, wanted: map<string, V>)
    requires i < |list| && Requests(list[..i], wanted) && list[i].key !in wanted && NoRepeatedKey(list[..i])
    ensures NoRepeatedKey(list[..i + 1])
  {
    assert forall k :: 0 <= k < i ==> list[..i][k] in list[..i] && list[..i][k] == list[k];
  }

  /** The loop that refuses a mounting path used twice. */
  method ToMapWithoutRepetition<V>(list: seq<Entry<V>>) returns (r: Result<map<string, V>, Error>)
    ensures r.Ok? <==> NoRepeatedKey(list)
    ensures r.Ok? ==> Requests(list, r.value)
  {
    var wanted: map<string, V> := map[];
    assert Requests(list[..0], wanted) && NoRepeatedKey(list[..0]);
    hide Requests, NoRepeatedKey;
    for i := 0 to |list|
      invariant Requests(list[..i], wanted) && NoRepeatedKey(list[..i])
    {
      if list[i].key in wanted {
        SeenKeyRepeats(list, i, wanted);
        return Err(DuplicateMountingPath);
      }
      NewKeyKeeps(list, i, wanted);
      AddsRequest(list[..i], list[i], wanted);
      assert list[..i] + [list[i]] == list[..i + 1];
      wanted := wanted[list[i].key := list[i].value];
    }
    assert list[..|list|] == list;
    return Ok(wanted);
  }

  /** A table holds what a list asks for. */
  ghost predicate Holds<V(!new), E>(rows: map<nat, Row<V, E>>, application: string, list: seq<Entry<V>>) {
    forall wanted :: Requests(list, wanted) ==> HoldsExactly(rows, application, wanted)
  }

  lemma HoldsIs<V(!new), E>(rows: map<nat, Row<V, E>>, application: string, list: seq<Entry<V>>, wanted: map<string, V>)
    requires Requests(list, wanted)
    ensures Holds(rows, application, list) <==> HoldsExactly(rows, application, wanted)
  {
    forall w | Requests(list, w) ensures w == wanted {
      RequestsDetermine(list, w, wanted);
    }
  }

  method ReconcileList<V(==,!new), E>(table: Table<V, E>, application: string, list: seq<Entry<V>>,
      wanted: map<string, V>, onUpdate: E -> E, initial: E)
    returns (reload: bool)
    requires table.Valid() && Requests(list, wanted)
    modifies table
    ensures table.Valid() && Holds(table.rows, application, list)
    ensures OthersKept(old(table.rows), table.rows, application)
    ensures RowsFollow(old(table.rows), table.rows, application, onUpdate, initial)
    ensures reload <==> !Holds(old(table.rows), application, list)
    ensures reload <==> table.rows != old(table.rows)
  {
    HoldsIs(table.rows, application, list, wanted);
    hide Holds, HoldsExactly, Requests, OthersKept, RowsFollow;
    reload := table.ReconcileRows(application, wanted, onUpdate, initial);
    HoldsIs(table.rows, application, list, wanted);
  }

  /** The reconciling part of Application.Update. A mounting path used twice is refused, but only after
      the variables and the config mounts were changed: these stay changed, and no reload is asked for
      them, then or later. */
  method UpdateTables(application: string, env: Table<string, ()>, mounts: Table<Mount, MountExtra>,
      volumes: Table<nat, ()>, variables: seq<Entry<string>>, configMounts: seq<Entry<Mount>>,
      bindings: seq<Entry<nat>>)
    returns (r: Result<bool, Error>)
    requires env.Valid() && mounts.Valid() && volumes.Valid()
    modifies env, mounts, volumes
    ensures env.Valid() && mounts.Valid() && volumes.Valid()
    ensures Holds(env.rows, application, variables) && Holds(mounts.rows, application, configMounts)
    ensures r.Ok? <==> NoRepeatedKey(bindings)
    ensures if r.Ok? then Holds(volumes.rows, application, bindings) else volumes.rows == old(volumes.rows)
    ensures r.Ok? ==>
              (r.value <==>
               !Holds(old(env.rows), application, variables) ||
               !Holds(old(mounts.rows), application, configMounts) ||
               !Holds(old(volumes.rows), application, bindings))
    // Refused or not, variables and mounts stay as they are exactly when they were what is requested.
    ensures env.rows == old(env.rows) <==> Holds(old(env.rows), application, variables)
    ensures mounts.rows == old(mounts.rows) <==> Holds(old(mounts.rows), application, configMounts)
    // A config mount keeps its swarm config exactly as long as its row is unchanged.
    ensures RowsFollow(old(mounts.rows), mounts.rows, application, WithoutConfig, NEW_MOUNT)
    ensures OthersKept(old(env.rows), env.rows, application) && OthersKept(old(mounts.rows), mounts.rows, application)
    ensures OthersKept(old(volumes.rows), volumes.rows, application)
  {
    hide Holds, HoldsExactly, Requests, RowsFollow;
    var wantedEnv := ToMap(variables);
    var envChanged := ReconcileList(env, application, variables, wantedEnv, e => e, ());
    var wantedMounts := ToMap(configMounts);
    var mountsChanged := ReconcileList(mounts, application, configMounts, wantedMounts, WithoutConfig, NEW_MOUNT);
    var wantedVolumes := ToMapWithoutRepetition(bindings);
    if wantedVolumes.Err? {
      return Err(wantedVolumes.error);
    }
    var volumesChanged := ReconcileList(volumes, application, bindings, wantedVolumes.value, e => e, ());
    return Ok(envChanged || mountsChanged || volumesChanged);
  }

  /** A request with one new variable and a mounting path used twice is refused, and the variable is
      stored all the same. */
  method RefusedUpdateChanges(application: string, name: string, value: string, path: string, volume: nat)
    returns (env: Table<string, ()>, r: Result<bool, Error>)
    ensures r.Err?
    ensures exists id :: id in env.rows && env.rows[id].application == application && env.rows[id].key == name &&
              env.rows[id].value == value
  {
    env := new Table<string, ()>();
    var mounts := new Table<Mount, MountExtra>();
    var volumes := new Table<nat, ()>();
    var variables, bindings := [Entry(name, value)], [Entry(path, volume), Entry(path, volume)];
    assert bindings[0].key == bindings[1].key;
    assert !NoRepeatedKey(bindings);
    hide RowsFollow, OthersKept, NoRepeatedKey;
    r := UpdateTables(application, env, mounts, volumes, variables, [], bindings);
    OneRequest(name, value);
    HoldsIs(env.rows, application, variables, map[name := value]);
    hide Holds, Requests;
    ghost var id :| Of(env.rows, application, id) && env.rows[id].key == name;
  }

  lemma OneRequest(name: string, value: string)
    ensures Requests([Entry(name, value)], map[name := value])
  {
    var list := [Entry(name, value)];
    assert IsLast(list, 0) && list[0].key == name && list[0].value == value;
  }

  /** A mount has a swarm config afterwards exactly when its row is one of the old rows, unchanged. */
  lemma ConfigSurvivesExactlyUnchanged(before: map<nat, Row<Mount, MountExtra>>,
      after: map<nat, Row<Mount, MountExtra>>, application: string, id: nat)
    requires RowsFollow(before, after, application, WithoutConfig, NEW_MOUNT)
    requires Of(after, application, id) && (id in before ==> before[id].extra.configId != "")
    ensures after[id].extra.configId != "" <==> id in before && after[id] == before[id]
  {
  }
}
