/**
 * The coordinate sequence of a street's polyline and the two ways the
 * repository adds a coordinate to it: the .NET list edit done in application
 * memory, and the PostGIS function `ST_AddPoint` run inside the database.
 */
module Geometry {
  import opened Wrappers

  /** A double, carried as its 64-bit IEEE 754 pattern: no arithmetic is ever done on it. */
  type Double = bv64

  /** The (x, y) pair of a NetTopologySuite `Coordinate` (or of the `Point` a request carries). */
  datatype Coord = Coord(x: Double, y: Double)

  /**
   * `List<Coordinate>.Add(c)` when `addToEnd`, otherwise `List<Coordinate>.Insert(0, c)`:
   * the new coordinate becomes the last, or the first, and every old one keeps
   * its order, shifted by one place in the prepend case.
   */
  function AddCoordinate(line: seq<Coord>, c: Coord, addToEnd: bool): (r: seq<Coord>)
    ensures |r| == |line| + 1
    ensures r[if addToEnd then |line| else 0] == c
    ensures forall i :: 0 <= i < |line| ==> r[if addToEnd then i else i + 1] == line[i]
  {
    if addToEnd then line + [c] else [c] + line
  }

  /** The error PostGIS raises when `ST_AddPoint` is given a position outside -1..n. */
  datatype SpatialError = InvalidOffset(position: int)

  /** The index at which `ST_AddPoint` places the point: -1 stands for "after the last point". */
  function InsertionIndex(n: nat, position: int): int
  {
    if position == -1 then n else position
  }

  /**
   * PostGIS `ST_AddPoint(line, point, position)`: the point is inserted before the
   * 0-based `position`; position -1 (also what an omitted position means) appends.
   * Any other position outside 0..n is an error.
   */
  function StAddPoint(line: seq<Coord>, point: Coord, position: int): (r: Result<seq<Coord>, SpatialError>)
    ensures r.Success? <==> -1 <= position <= |line|
    ensures r.Failure? ==> r.error == InvalidOffset(position)
    ensures r.Success? ==>
      var at := InsertionIndex(|line|, position);
      && |r.value| == |line| + 1
      && r.value[at] == point
      && (forall i :: 0 <= i < at ==> r.value[i] == line[i])
      && (forall i :: at <= i < |line| ==> r.value[i + 1] == line[i])
  {
    if position < -1 || |line| < position then
      Failure(InvalidOffset(position))
    else
      var at := InsertionIndex(|line|, position);
      Success(line[..at] + [point] + line[at..])
  }

  /**
   * `ST_AddPoint` with no position (-1) appends and with position 0 prepends,
   * building the same coordinate sequence as the list edit; neither position is
   * ever rejected.
   */
  lemma StAddPointAgreesWithList(line: seq<Coord>, point: Coord, addToEnd: bool)
    ensures StAddPoint(line, point, if addToEnd then -1 else 0) == Success(AddCoordinate(line, point, addToEnd))
  {
    var r := StAddPoint(line, point, if addToEnd then -1 else 0);
    var expected := AddCoordinate(line, point, addToEnd);
    assert r.Success?;
    assert |r.value| == |expected|;
    forall i | 0 <= i < |expected|
      ensures r.value[i] == expected[i]
    {
      if addToEnd {
        if i < |line| { assert expected[i] == line[i]; }
      } else {
        if 0 < i { assert expected[(i - 1) + 1] == line[i - 1]; }
      }
    }
    assert r.value == expected;
  }
}
