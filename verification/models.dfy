/** The `Street` record and the constraints the `Streets` table puts on it. */
module Models {
  import opened Wrappers
  import opened Geometry

  /** A C# `int` (the `integer` columns `Id` and `Capacity`). */
  newtype Int32 = x: int | -0x8000_0000 <= x < 0x8000_0000

  /** The largest value the `integer` identity column can hand out. */
  const MaxId: int := 0x7fff_ffff

  /** The longest name the `character varying(100)` column accepts. */
  const MaxNameLength: int := 100

  /**
   * A street: `id` 0 is the C# default and means "not yet assigned"; `geometry`
   * is the coordinate sequence of its `LineString`, `None` for a null reference.
   */
  datatype Street = Street(id: Int32, name: string, capacity: Int32, geometry: Option<seq<Coord>>)

  /** The table and column names the migration creates (quoted, so their case is kept). */
  const TableName: string := "Streets"
  const GeometryColumn: string := "Geometry"
  const KeyColumn: string := "Id"

  /** What the database rejects when a statement runs. */
  datatype StorageError =
    | DuplicateKey(id: Int32)            // a row with that primary key exists already
    | ConstraintViolation                // name longer than 100, or NULL geometry
    | NoRowAffected(id: Int32)           // an UPDATE of a key no row has
    | SequenceExhausted                  // the identity column has no value left
    | UndefinedTable                     // a statement names a table that does not exist
    | UndefinedColumn                    // a statement names a column that does not exist
    | UndefinedFunction                  // no function overload takes the given argument types
    | SpatialFailure(cause: SpatialError) // PostGIS refused its arguments

  /** A row the `Streets` schema admits: name of at most 100 characters, geometry not NULL. */
  predicate SchemaValid(s: Street)
  {
    |s.name| <= MaxNameLength && s.geometry.Some?
  }

  /** `street.Geometry?.Coordinates.ToList() ?? new List<Coordinate>()`: a null line reads as no coordinates. */
  function GeometryOrEmpty(g: Option<seq<Coord>>): seq<Coord>
  {
    match g
    case None => []
    case Some(line) => line
  }
}
