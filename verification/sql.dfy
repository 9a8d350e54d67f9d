/**
 * The raw statement of the repository's database strategy, as PostgreSQL
 * reads it: unquoted names are folded to lower case before they are looked
 * up, and `ST_AddPoint` is found by the types of its arguments.
 */
module Sql {
  import opened Wrappers
  import opened Geometry
  import opened Models

  /** A name in SQL text: quoted names keep their case, unquoted ones do not. */
  datatype Identifier = Quoted(text: string) | Unquoted(text: string)

  function LowerChar(c: char): char
  {
    if 'A' <= c <= 'Z' then (c as int + 32) as char else c
  }

  /**
   * The name PostgreSQL looks up for an identifier: a quoted name as it is, an
   * unquoted one with every capital A-Z turned into its small letter and every
   * other character kept.
   */
  function Fold(name: Identifier): (r: string)
    ensures |r| == |name.text|
    ensures name.Quoted? ==> r == name.text
    ensures name.Unquoted? ==> forall i :: 0 <= i < |r| ==> !('A' <= r[i] <= 'Z')
    ensures name.Unquoted? ==> forall i :: 0 <= i < |r| ==>
              r[i] == name.text[i] || ('A' <= name.text[i] <= 'Z' && r[i] as int == name.text[i] as int + 32)
  {
    match name
    case Quoted(text) => text
    case Unquoted(text) => seq(|text|, i requires 0 <= i < |text| => LowerChar(text[i]))
  }

  /** An argument of the `ST_AddPoint` call: the geometry column, `ST_MakePoint(x, y)`, or an integer literal. */
  datatype Argument = ColumnArgument | PointArgument | IntegerArgument(n: int)

  /** `UPDATE table SET column = ST_AddPoint(arguments) WHERE key = id`. */
  datatype AddPointStatement = AddPointStatement(table: Identifier, column: Identifier, key: Identifier, arguments: seq<Argument>)

  /**
   * Overload resolution for `ST_AddPoint`: PostGIS has `(geometry, geometry)`,
   * which appends, and `(geometry, geometry, integer)`, which inserts at the
   * integer; the position PostGIS then uses, or None when no overload fits.
   */
  function ResolveAddPoint(arguments: seq<Argument>): Option<int>
  {
    if arguments == [ColumnArgument, PointArgument] then Some(-1)
    else if |arguments| == 3 && arguments[0] == ColumnArgument && arguments[1] == PointArgument && arguments[2].IntegerArgument?
    then Some(arguments[2].n)
    else None
  }

  /**
   * Runs the statement against the table. Names are checked first, then the
   * function call; a key no row has updates nothing; a NULL geometry makes
   * `ST_AddPoint` return NULL, which the NOT NULL column refuses. A failing
   * statement writes nothing; a succeeding one changes only row `id`'s geometry.
   */
  function ExecuteAddPoint(t: map<Int32, Street>, s: AddPointStatement, id: Int32, point: Coord)
    : (r: Result<map<Int32, Street>, StorageError>)
    ensures r.Success? ==> r.value.Keys == t.Keys
    ensures r.Success? ==> forall k :: k in t && k != id ==> r.value[k] == t[k]
    ensures r.Success? && id in t ==> r.value[id] == t[id].(geometry := r.value[id].geometry)
    ensures Fold(s.table) != TableName ==> r == Failure(UndefinedTable)
  {
    if Fold(s.table) != TableName then Failure(UndefinedTable)
    else if Fold(s.column) != GeometryColumn || Fold(s.key) != KeyColumn then Failure(UndefinedColumn)
    else
      match ResolveAddPoint(s.arguments)
      case None => Failure(UndefinedFunction)
      case Some(position) =>
        if id !in t then Success(t)
        else
          match t[id].geometry
          case None => Failure(ConstraintViolation)
          case Some(line) =>
            match StAddPoint(line, point, position)
            case Failure(e) => Failure(SpatialFailure(e))
            case Success(line') => Success(t[id := t[id].(geometry := Some(line'))])
  }

  /**
   * The statement as the repository writes it: unquoted names, and for the
   * prepend the position 0 placed before the point.
   */
  function WrittenStatement(addToEnd: bool): (s: AddPointStatement)
    ensures s.table == Unquoted(TableName) && s.column == Unquoted(GeometryColumn) && s.key == Unquoted(KeyColumn)
    ensures ResolveAddPoint(s.arguments) == if addToEnd then Some(-1) else None
  {
    AddPointStatement(Unquoted("Streets"), Unquoted("Geometry"), Unquoted("Id"),
      if addToEnd then [ColumnArgument, PointArgument] else [ColumnArgument, IntegerArgument(0), PointArgument])
  }

  /** The statement as evidently intended: the migration's quoted names, and the position after the point. */
  function IntendedStatement(addToEnd: bool): (s: AddPointStatement)
    ensures Fold(s.table) == TableName && Fold(s.column) == GeometryColumn && Fold(s.key) == KeyColumn
    ensures ResolveAddPoint(s.arguments) == Some(if addToEnd then -1 else 0)
  {
    AddPointStatement(Quoted(TableName), Quoted(GeometryColumn), Quoted(KeyColumn),
      if addToEnd then [ColumnArgument, PointArgument] else [ColumnArgument, PointArgument, IntegerArgument(0)])
  }

  /**
   * As written, the statement never runs: the unquoted `Streets` names the
   * table `streets`, which does not exist, whatever the table holds and
   * whichever end is asked for.
   */
  lemma WrittenStatementFails(t: map<Int32, Street>, id: Int32, point: Coord, addToEnd: bool)
    ensures ExecuteAddPoint(t, WrittenStatement(addToEnd), id, point) == Failure(UndefinedTable)
  {
    var folded := Fold(WrittenStatement(addToEnd).table);
    assert folded[0] == 's';
    assert TableName[0] == 'S';
  }

  /**
   * Even with the names quoted, the prepend as written still fails: no
   * `ST_AddPoint` overload takes (geometry, integer, geometry). The append with
   * quoted names is the intended statement.
   */
  lemma WrittenPrependArgumentsUnresolved(t: map<Int32, Street>, id: Int32, point: Coord)
    ensures ExecuteAddPoint(t, WrittenStatement(false).(table := Quoted(TableName), column := Quoted(GeometryColumn),
                                                        key := Quoted(KeyColumn)), id, point)
            == Failure(UndefinedFunction)
    ensures WrittenStatement(true).(table := Quoted(TableName), column := Quoted(GeometryColumn),
                                    key := Quoted(KeyColumn)) == IntendedStatement(true)
  {
  }

  /**
   * The intended statement adds the point at the chosen end of the stored line
   * exactly as the list edit does, and changes nothing else; a key no row has
   * leaves the table alone. It fails only on a NULL geometry.
   */
  lemma IntendedStatementEffect(t: map<Int32, Street>, id: Int32, point: Coord, addToEnd: bool)
    ensures id !in t ==> ExecuteAddPoint(t, IntendedStatement(addToEnd), id, point) == Success(t)
    ensures id in t && t[id].geometry.None? ==>
              ExecuteAddPoint(t, IntendedStatement(addToEnd), id, point) == Failure(ConstraintViolation)
    ensures id in t && t[id].geometry.Some? ==>
              ExecuteAddPoint(t, IntendedStatement(addToEnd), id, point)
              == Success(t[id := t[id].(geometry := Some(AddCoordinate(t[id].geometry.value, point, addToEnd)))])
  {
    var s := IntendedStatement(addToEnd);
    assert Fold(s.table) == TableName && Fold(s.column) == GeometryColumn && Fold(s.key) == KeyColumn;
    assert ResolveAddPoint(s.arguments) == Some(if addToEnd then -1 else 0);
    if id in t && t[id].geometry.Some? {
      StAddPointAgreesWithList(t[id].geometry.value, point, addToEnd);
    }
  }
}
