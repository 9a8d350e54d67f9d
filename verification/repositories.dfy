/**
 * The street repository: the `Streets` table as a map from primary key to row,
 * the identity counter that hands out keys, and the operations that read and
 * change the table, including the two strategies for adding a point to a
 * street's line.
 */
module Repositories {
  import opened Wrappers
  import opened Geometry
  import opened Models
  import opened Sql

  /** Every row sits under its own non-zero key and satisfies the schema. */
  ghost predicate TableValid(t: map<Int32, Street>)
  {
    forall id :: id in t ==> t[id].id == id && id != 0 && SchemaValid(t[id])
  }

  /**
   * The outcome of inserting `row`, whose key is already fixed, into `t`: a schema
   * violation, which the database finds before it checks the primary key, and
   * then a taken key are refused and leave the table as it was.
   */
  ghost predicate RowInserted(t: map<Int32, Street>, row: Street, t': map<Int32, Street>, r: Result<Int32, StorageError>)
  {
    if !SchemaValid(row) then t' == t && r == Failure(ConstraintViolation)
    else if row.id in t then t' == t && r == Failure(DuplicateKey(row.id))
    else t' == t[row.id := row] && r == Success(row.id)
  }

  /**
   * The outcome of `Streets.AddAsync(street)` followed by `SaveChangesAsync()`:
   * an unset id (0) takes the identity column's next value, which is used up
   * whether or not the insert succeeds; a set id is inserted as given.
   */
  ghost predicate Inserted(t: map<Int32, Street>, next: nat, street: Street,
                           t': map<Int32, Street>, next': nat, r: Result<Int32, StorageError>)
  {
    if street.id != 0 then
      next' == next && RowInserted(t, street, t', r)
    else if MaxId < next then
      next' == next && t' == t && r == Failure(SequenceExhausted)
    else
      next' == next + 1 && RowInserted(t, street.(id := next as Int32), t', r)
  }

  /** The in-memory strategy: read the coordinates, add the point to the list, write the row back. */
  function InMemoryAddPointUpdate(t: map<Int32, Street>, id: Int32, point: Coord, addToEnd: bool): (r: map<Int32, Street>)
    ensures r.Keys == t.Keys
    ensures forall k :: k in t && k != id ==> r[k] == t[k]
    ensures id in t ==> && r[id] == t[id].(geometry := r[id].geometry)
                        && r[id].geometry.Some?
                        && |r[id].geometry.value| == |GeometryOrEmpty(t[id].geometry)| + 1
                        && r[id].geometry.value[if addToEnd then |GeometryOrEmpty(t[id].geometry)| else 0] == point
  {
    if id !in t then t
    else t[id := t[id].(geometry := Some(AddCoordinate(GeometryOrEmpty(t[id].geometry), point, addToEnd)))]
  }

  /**
   * The database strategy, with the intended statement (see `Sql.IntendedStatement`);
   * a statement that fails writes nothing.
   */
  function DatabaseAddPointUpdate(t: map<Int32, Street>, id: Int32, point: Coord, addToEnd: bool): (r: map<Int32, Street>)
    ensures r.Keys == t.Keys
    ensures forall k :: k in t && k != id ==> r[k] == t[k]
    ensures id in t && t[id].geometry.None? ==> r == t
    ensures id in t && t[id].geometry.Some? ==>
              r[id] == t[id].(geometry := Some(AddCoordinate(t[id].geometry.value, point, addToEnd)))
  {
    IntendedStatementEffect(t, id, point, addToEnd);
    match ExecuteAddPoint(t, IntendedStatement(addToEnd), id, point)
    case Success(t') => t'
    case Failure(_) => t
  }

  /** What `AddPointToStreetGeometryAsync` reports after running a statement: true, or the statement's error. */
  function Reported(outcome: Result<map<Int32, Street>, StorageError>): Result<bool, StorageError>
  {
    match outcome
    case Success(_) => Success(true)
    case Failure(e) => Failure(e)
  }

  /** The table after `AddPointToStreetGeometryAsync(id, point, addToEnd, useDatabaseOperation)`. */
  function AddPointToTable(t: map<Int32, Street>, id: Int32, point: Coord, addToEnd: bool, useDatabaseOperation: bool)
    : (r: map<Int32, Street>)
    ensures r.Keys == t.Keys
    ensures forall k :: k in t && k != id ==> r[k] == t[k]
    ensures id in t ==> r[id].id == t[id].id && r[id].name == t[id].name && r[id].capacity == t[id].capacity
  {
    if useDatabaseOperation then DatabaseAddPointUpdate(t, id, point, addToEnd)
    else InMemoryAddPointUpdate(t, id, point, addToEnd)
  }

  /**
   * On a valid table, whichever strategy is chosen, adding a point changes only
   * the target row's geometry, and that to the old line with the point added at
   * the chosen end; an absent id leaves the table alone. The table stays valid.
   */
  lemma AddPointEffect(t: map<Int32, Street>, id: Int32, point: Coord, addToEnd: bool, useDatabaseOperation: bool)
    requires TableValid(t)
    ensures id !in t ==> AddPointToTable(t, id, point, addToEnd, useDatabaseOperation) == t
    ensures id in t ==> AddPointToTable(t, id, point, addToEnd, useDatabaseOperation)
                        == t[id := t[id].(geometry := Some(AddCoordinate(t[id].geometry.value, point, addToEnd)))]
    ensures TableValid(AddPointToTable(t, id, point, addToEnd, useDatabaseOperation))
  {
    IntendedStatementEffect(t, id, point, addToEnd);
  }

  /** On a valid table the two strategies give the same table. */
  lemma StrategiesAgree(t: map<Int32, Street>, id: Int32, point: Coord, addToEnd: bool)
    requires TableValid(t)
    ensures AddPointToTable(t, id, point, addToEnd, true) == AddPointToTable(t, id, point, addToEnd, false)
  {
    AddPointEffect(t, id, point, addToEnd, true);
    AddPointEffect(t, id, point, addToEnd, false);
  }

  /**
   * The strategies agree on a present street exactly when its geometry is not
   * NULL. On a NULL geometry the database statement writes nothing, while the
   * in-memory path reads an empty line and stores the one-point line; a valid
   * table has no such row.
   */
  lemma StrategiesAgreeIffGeometryPresent(t: map<Int32, Street>, id: Int32, point: Coord, addToEnd: bool)
    requires id in t
    ensures AddPointToTable(t, id, point, addToEnd, true) == AddPointToTable(t, id, point, addToEnd, false)
            <==> t[id].geometry.Some?
    ensures t[id].geometry.None? ==> AddPointToTable(t, id, point, addToEnd, true) == t
    ensures t[id].geometry.None? ==> AddPointToTable(t, id, point, addToEnd, false)[id].geometry == Some([point])
  {
    IntendedStatementEffect(t, id, point, addToEnd);
    if t[id].geometry.None? {
      assert AddCoordinate([], point, addToEnd) == [point];
      assert AddPointToTable(t, id, point, addToEnd, false)[id] != t[id];
    }
  }

  /**
   * The in-memory edit as the repository performs it: the coordinates are copied
   * into a list one longer than the line, shifted one place when the point goes
   * first, and the point is stored at the end or at index 0.
   */
  method InMemoryAddPoint(geometry: Option<seq<Coord>>, point: Coord, addToEnd: bool) returns (line: seq<Coord>)
    ensures line == AddCoordinate(GeometryOrEmpty(geometry), point, addToEnd)
  {
    var coordinates := GeometryOrEmpty(geometry);
    var n := |coordinates|;
    var list := new Coord[n + 1];
    var shift := if addToEnd then 0 else 1;
    for i := 0 to n
      invariant forall k :: 0 <= k < i ==> list[k + shift] == coordinates[k]
    {
      list[i + shift] := coordinates[i];
    }
    list[if addToEnd then n else 0] := point;
    line := list[..];
    ghost var expected := AddCoordinate(coordinates, point, addToEnd);
    assert forall k :: 0 <= k < n + 1 ==> line[k] == expected[k] by {
      forall k | 0 <= k < n + 1
        ensures line[k] == expected[k]
      {
        if k != (if addToEnd then n else 0) {
          var j := k - shift;
          assert line[j + shift] == coordinates[j];
        }
      }
    }
  }

  class StreetRepository {
    /** The `Streets` table. */
    var streets: map<Int32, Street>
    /** The value the identity column hands out next; `MaxId + 1` once it is used up. */
    var nextId: nat

    ghost predicate Valid()
      reads this
    {
      1 <= nextId <= MaxId + 1 && TableValid(streets)
    }

    /** A repository over the rows the database holds already. */
    constructor (rows: map<Int32, Street>, next: nat)
      requires TableValid(rows) && 1 <= next <= MaxId + 1
      ensures Valid()
      ensures streets == rows && nextId == next
    {
      streets := rows;
      nextId := next;
    }

    /** `Streets.FindAsync(id)`: the row under `id`, or null when there is none. */
    method GetStreetById(id: Int32) returns (r: Option<Street>)
      requires Valid()
      ensures r.Some? <==> id in streets
      ensures r.Some? ==> r.value == streets[id] && r.value.id == id && SchemaValid(r.value)
    {
      if id in streets {
        r := Some(streets[id]);
      } else {
        r := None;
      }
    }

    /**
     * `AddAsync` then `SaveChangesAsync`: on success the street is stored under a
     * key no row had before, and every earlier row is unchanged; on failure
     * nothing is stored.
     */
    method AddStreet(street: Street) returns (r: Result<Int32, StorageError>)
      requires Valid()
      modifies this
      ensures Valid()
      ensures Inserted(old(streets), old(nextId), street, streets, nextId, r)
      ensures r.Success? ==> && r.value !in old(streets)
                             && streets == old(streets)[r.value := street.(id := r.value)]
      ensures r.Success? <==> SchemaValid(street) && (street.id == 0 ==> old(nextId) <= MaxId)
                              && (if street.id == 0 then old(nextId) as Int32 else street.id) !in old(streets)
      ensures r.Failure? ==> streets == old(streets)
    {
      var row := street;
      if street.id == 0 {
        if MaxId < nextId {
          return Failure(SequenceExhausted);
        }
        row := street.(id := nextId as Int32);
        nextId := nextId + 1;
      }
      if !SchemaValid(row) {
        r := Failure(ConstraintViolation);
      } else if row.id in streets {
        r := Failure(DuplicateKey(row.id));
      } else {
        streets := streets[row.id := row];
        r := Success(row.id);
      }
    }

    /**
     * `Streets.Update(street)` then `SaveChangesAsync`: a street whose id is unset
     * is tracked as new and inserted; otherwise only the row with the street's id
     * is replaced, and an id that no row has is refused.
     */
    method UpdateStreet(street: Street) returns (r: Result<Int32, StorageError>)
      requires Valid()
      modifies this
      ensures Valid()
      ensures street.id == 0 ==> Inserted(old(streets), old(nextId), street, streets, nextId, r)
      ensures street.id != 0 ==> nextId == old(nextId)
      ensures street.id != 0 && street.id !in old(streets) ==>
                r == Failure(NoRowAffected(street.id)) && streets == old(streets)
      ensures street.id != 0 && street.id in old(streets) && !SchemaValid(street) ==>
                r == Failure(ConstraintViolation) && streets == old(streets)
      ensures street.id != 0 && street.id in old(streets) && SchemaValid(street) ==>
                r == Success(street.id) && streets == old(streets)[street.id := street]
    {
      if street.id == 0 {
        r := AddStreet(street);
      } else if street.id !in streets {
        r := Failure(NoRowAffected(street.id));
      } else if !SchemaValid(street) {
        r := Failure(ConstraintViolation);
      } else {
        streets := streets[street.id := street];
        r := Success(street.id);
      }
    }

    /** Find, then remove if found: the row under `id` is gone and nothing else changes. */
    method DeleteStreet(id: Int32)
      requires Valid()
      modifies this
      ensures Valid()
      ensures streets == old(streets) - {id}
      ensures id !in old(streets) ==> streets == old(streets)
      ensures nextId == old(nextId)
    {
      var found := GetStreetById(id);
      if found.Some? {
        streets := streets - {id};
      }
    }

    /**
     * Adds `point` at the end or at the start of the line of street `streetId`,
     * by the intended database statement or by the in-memory edit; false when no
     * street has that id, and a statement's failure is passed on. Either way the
     * statement does not fail on a valid table, the new line is the old one with
     * the point added at the chosen end, and no other row or column changes.
     */
    method AddPointToStreetGeometry(streetId: Int32, point: Coord, addToEnd: bool, useDatabaseOperation: bool)
      returns (r: Result<bool, StorageError>)
      requires Valid()
      modifies this
      ensures Valid()
      ensures r == Success(streetId in old(streets))
      ensures streets == AddPointToTable(old(streets), streetId, point, addToEnd, useDatabaseOperation)
      ensures streetId !in old(streets) ==> streets == old(streets)
      ensures streetId in old(streets) ==> streets == old(streets)[streetId :=
                old(streets)[streetId].(geometry := Some(AddCoordinate(old(streets)[streetId].geometry.value, point, addToEnd)))]
      ensures nextId == old(nextId)
    {
      AddPointEffect(streets, streetId, point, addToEnd, useDatabaseOperation);
      var found := GetStreetById(streetId);
      if found.None? {
        return Success(false);
      }
      var street := found.value;
      if useDatabaseOperation {
        var outcome := ExecuteAddPoint(streets, IntendedStatement(addToEnd), streetId, point);
        streets := if outcome.Success? then outcome.value else streets;
        r := Reported(outcome);
      } else {
        var line := InMemoryAddPoint(street.geometry, point, addToEnd);
        street := street.(geometry := Some(line));
        streets := streets[streetId := street];
        r := Success(true);
      }
    }
  }

  /** One `AddPointToStreetGeometryAsync` request, without the strategy flag. */
  datatype PointRequest = PointRequest(streetId: Int32, point: Coord, addToEnd: bool)

  /** The table after a series of point requests, all made with the same strategy. */
  function ApplyPointRequests(t: map<Int32, Street>, requests: seq<PointRequest>, useDatabaseOperation: bool): map<Int32, Street>
    decreases |requests|
  {
    if requests == [] then t
    else
      var q := requests[0];
      ApplyPointRequests(AddPointToTable(t, q.streetId, q.point, q.addToEnd, useDatabaseOperation), requests[1..], useDatabaseOperation)
  }

  /** How many of `requests` target street `id`. */
  function RequestsFor(requests: seq<PointRequest>, id: Int32): nat
    decreases |requests|
  {
    if requests == [] then 0
    else (if requests[0].streetId == id then 1 else 0) + RequestsFor(requests[1..], id)
  }

  /** Which strategy is fixed makes no difference to what a series of requests leaves in a valid table. */
  lemma {:induction false} StrategyIrrelevant(t: map<Int32, Street>, requests: seq<PointRequest>)
    requires TableValid(t)
    ensures ApplyPointRequests(t, requests, true) == ApplyPointRequests(t, requests, false)
    decreases |requests|
  {
    if requests != [] {
      var q := requests[0];
      StrategiesAgree(t, q.streetId, q.point, q.addToEnd);
      AddPointEffect(t, q.streetId, q.point, q.addToEnd, false);
      StrategyIrrelevant(AddPointToTable(t, q.streetId, q.point, q.addToEnd, false), requests[1..]);
    }
  }

  /**
   * A series of point requests keeps the table valid and its set of keys, never
   * touches a street's id, name or capacity, and grows each street's line by
   * exactly the number of requests aimed at it.
   */
  lemma {:induction false} ApplyPointRequestsEffect(t: map<Int32, Street>, requests: seq<PointRequest>, useDatabaseOperation: bool)
    requires TableValid(t)
    ensures var t' := ApplyPointRequests(t, requests, useDatabaseOperation);
      && TableValid(t')
      && t'.Keys == t.Keys
      && forall id :: id in t ==>
           && t'[id].id == t[id].id && t'[id].name == t[id].name && t'[id].capacity == t[id].capacity
           && |t'[id].geometry.value| == |t[id].geometry.value| + RequestsFor(requests, id)
    decreases |requests|
  {
    if requests != [] {
      var q := requests[0];
      var t1 := AddPointToTable(t, q.streetId, q.point, q.addToEnd, useDatabaseOperation);
      AddPointEffect(t, q.streetId, q.point, q.addToEnd, useDatabaseOperation);
      ApplyPointRequestsEffect(t1, requests[1..], useDatabaseOperation);
    }
  }
}
