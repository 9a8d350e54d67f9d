# StreetHub street store, modelled in Dafny

StreetHub keeps `Street` records in a PostgreSQL/PostGIS table. Each street has an id, a name, a capacity and a polyline geometry. The one operation with real logic adds a coordinate to the end or the start of a street's line. It can do this in two ways, chosen once by a feature flag:

- the **database strategy** runs `ST_AddPoint` on the stored column;
- the **in-memory strategy** copies the coordinate list, adds the point with `Add` or `Insert(0, …)`, and writes the row back.

This project models the repository and the service that sits on it:

- `wrappers.dfy`: `Option` stands for a null reference. `Result` stands for a call that may throw.
- `geometry.dfy`: coordinates, the list edit (`AddCoordinate`), and PostGIS `ST_AddPoint` (`StAddPoint`) with its positional contract. It also proves that the two agree for the positions the intended SQL uses: none to append, 0 to prepend.
- `models.dfy`: the `Street` record, the C# `int` range, and the rules the `Streets` schema enforces (name at most 100 characters, geometry NOT NULL). It also holds the storage errors a statement can raise.
- `sql.dfy`: the raw `UPDATE … ST_AddPoint(…)` statement of the database strategy, as PostgreSQL reads it. Unquoted names are folded to lower case, and `ST_AddPoint` is chosen by the types of its arguments. The module holds the statement as written, which never succeeds (see "## Findings"), and the intended statement, which the rest of the model uses.
- `repositories.dfy`: class `StreetRepository`. It holds the table as a `map` from key to row, plus the identity column's next value. Its methods state each table change exactly. The module also has the table-level definition of both strategies, the lemmas that they agree on every valid table, and lemmas about whole series of point requests.
- `services.dfy`: class `StreetService`. The strategy flag is a `const` field read once from configuration, and every method forwards to the repository. `MainStreetScenario` is a client that shows what the contracts let a caller conclude.

Modelling choices:

- **Ids follow Entity Framework and the `IDENTITY BY DEFAULT` column.**
  - A street whose id is 0 (the C# default) gets the column's next value. That value is used up even if the insert then fails, because PostgreSQL sequences are not transactional.
  - A non-zero id is inserted as given. A row that fits the schema but whose key is taken is `DuplicateKey`.
  - A row that breaks the schema is `ConstraintViolation`, even when its key is also taken. PostgreSQL checks the column values before the primary key.
  - `Update` of a street whose id is 0 inserts it. EF tracks such an entity as Added.
  - `Update` of an id that no row has is `NoRowAffected`. This is the concurrency exception EF raises.
  - Once the identity column has used up the `integer` range, an insert is `SequenceExhausted`.
- **Null geometry.** The C# `LineString` may be null, so the geometry is an `Option`. The in-memory path reads null as an empty line. `ST_AddPoint` returns NULL for a NULL input, and the NOT NULL column then refuses the update, so the database path writes nothing. Since the schema stores no NULL geometry, the repository's invariant `Valid()` rules this case out. `StrategiesAgreeIffGeometryPresent` shows that, with the intended statement, this is the only place the two paths differ.
- **Errors.** A failed statement writes nothing. The model returns that as a `Failure` value instead of an exception.
- **The database statement.** The repository's raw SQL cannot run as written (see "## Findings"). The repository class therefore runs the intended statement: quoted names as the migration creates them, and the position 0 after the point.

## Model

| member | source | states |
|---|---|---|
| Geometry.AddCoordinate | StreetHub/Repositories/Implementations/StreetRepository.cs:90-93 | the list edit gives a line one longer, with the point last (`Add`) or first (`Insert(0, …)`) and the old coordinates in order, shifted one place when the point goes first |
| Geometry.StAddPoint | StreetHub/Repositories/Implementations/StreetRepository.cs:82-84 | `ST_AddPoint` succeeds exactly for positions -1..n; the point lands at the position (at the end for -1), coordinates before it keep their index, those after move up one; other positions give `InvalidOffset` |
| Geometry.StAddPointAgreesWithList | StreetHub/Repositories/Implementations/StreetRepository.cs:82-93 | for every line, `ST_AddPoint` with no position, or with position 0 after the point (the intended prepend), succeeds and gives the same sequence as `Add` or `Insert(0, …)` on the list |
| Sql.Fold | StreetHub/Repositories/Implementations/StreetRepository.cs:83-84 | a quoted name is looked up exactly as written. An unquoted name in the raw SQL is looked up in lower case: it keeps its length, each capital A-Z becomes its lower-case letter, every other character is kept, and no capital is left |
| Sql.ExecuteAddPoint | StreetHub/Repositories/Implementations/StreetRepository.cs:82-85 | the raw `UPDATE` fails with `UndefinedTable` when its table name does not resolve to `Streets`. When it succeeds it keeps the table's keys and changes only the geometry of row `id` |
| Sql.WrittenStatement | StreetHub/Repositories/Implementations/StreetRepository.cs:83-84 | the statement as the repository writes it names `Streets`, `Geometry` and `Id` unquoted. Its append call resolves to position -1, and its prepend call, with the position before the point, resolves to no `ST_AddPoint` overload |
| Sql.IntendedStatement | StreetHub/Repositories/Implementations/StreetRepository.cs:83-84 | the corrected statement's names resolve to the migration's `Streets`, `Geometry` and `Id`, and its call resolves to position -1 for the append and 0 for the prepend |
| Sql.WrittenStatementFails | StreetHub/Repositories/Implementations/StreetRepository.cs:82-85 | the statement as written fails with `UndefinedTable` for every table, street, point and end, so the database strategy never adds a point |
| Sql.WrittenPrependArgumentsUnresolved | StreetHub/Repositories/Implementations/StreetRepository.cs:84 | with the names quoted, the prepend as written still fails: no `ST_AddPoint` overload takes (geometry, integer, geometry). The append with quoted names is the intended statement |
| Sql.IntendedStatementEffect | StreetHub/Repositories/Implementations/StreetRepository.cs:82-85 | the intended statement adds the point at the chosen end exactly as the list edit does, and changes nothing else. An absent id leaves the table alone, and it fails only on a NULL geometry |
| Repositories.InMemoryAddPointUpdate | StreetHub/Repositories/Implementations/StreetRepository.cs:89-97 | the in-memory strategy keeps the table's keys and every other row. The target row changes only its geometry, which becomes non-null and one longer than the old line (empty for null), with the point at the end or at index 0 |
| Repositories.DatabaseAddPointUpdate | StreetHub/Repositories/Implementations/StreetRepository.cs:82-85 | the database strategy, with the intended statement, keeps the table's keys and every other row. A NULL geometry leaves the whole table unchanged; otherwise the target's geometry becomes the old line with the point added at the chosen end |
| Repositories.AddPointToTable | StreetHub/Repositories/Implementations/StreetRepository.cs:80-98 | under either flag the table keeps its keys and every other row, and the target street keeps its id, name and capacity |
| Repositories.InMemoryAddPoint | StreetHub/Repositories/Implementations/StreetRepository.cs:89-95 | copying the coordinates (none for a null line) into a list and adding the point at the end or at index 0 gives the old line with the point added at that end |
| Repositories.AddPointEffect | StreetHub/Repositories/Implementations/StreetRepository.cs:75-98 | on a valid table, under either strategy (the database one with the intended statement), an absent id leaves the table unchanged. Otherwise only the target row's geometry changes, to the old line with the point added at the chosen end, and the table stays valid |
| Repositories.StrategiesAgree | StreetHub/Repositories/Implementations/StreetRepository.cs:80-95 | on a valid table the database strategy (with the intended statement) and the in-memory strategy leave the same table |
| Repositories.StrategiesAgreeIffGeometryPresent | StreetHub/Repositories/Implementations/StreetRepository.cs:82-89 | for a present street, the two strategies (the database one with the intended statement) leave the same table exactly when its geometry is not NULL. On NULL the database statement writes nothing, while the in-memory path stores the one-point line |
| Repositories.StrategyIrrelevant | StreetHub/Services/Implementations/StreetService.cs:58-61 | on a valid table, any series of point requests made with the flag fixed one way leaves the same table as with the flag fixed the other way (the database strategy with the intended statement) |
| Repositories.ApplyPointRequestsEffect | StreetHub/Repositories/Implementations/StreetRepository.cs:75-98 | a series of point requests keeps the table valid and its keys. It never changes a street's id, name or capacity, and it grows each line by exactly the number of requests aimed at that street (the database strategy with the intended statement) |
| Repositories.StreetRepository.constructor | StreetHub/Repositories/Implementations/StreetRepository.cs:15-18 | the repository works over the rows the database already holds, and the identity column's next value |
| Repositories.StreetRepository.GetStreetById | StreetHub/Repositories/Implementations/StreetRepository.cs:25-28 | returns the stored row exactly when its key is `id`, and null (`None`) when no row has that key |
| Repositories.StreetRepository.AddStreet | StreetHub/Repositories/Implementations/StreetRepository.cs:35-39 | on success the street is stored under a key that no row had before (the identity column's next value, or its own non-zero id), and every earlier row is unchanged. It succeeds exactly when the row fits the schema and its key is free. A schema violation is reported before a taken key. On failure the table is unchanged. An unset id uses up one identity value |
| Repositories.StreetRepository.UpdateStreet | StreetHub/Repositories/Implementations/StreetRepository.cs:46-50 | replaces only the row whose key is the street's id and leaves all others untouched. An unset id inserts as `AddStreet` does. An id that no row has is refused and changes nothing |
| Repositories.StreetRepository.DeleteStreet | StreetHub/Repositories/Implementations/StreetRepository.cs:57-65 | the table afterwards is the old table without key `id`. An absent id changes nothing, so deleting twice is deleting once |
| Repositories.StreetRepository.AddPointToStreetGeometry | StreetHub/Repositories/Implementations/StreetRepository.cs:75-100 | never fails on a valid table. It returns false, with the table unchanged, exactly when no street has the id, and otherwise true. The street's line becomes the old line with the point at the end or the start, under either strategy (the database one with the intended statement), and nothing else in the table changes |
| Services.StreetService.constructor | StreetHub/Services/Implementations/StreetService.cs:15-19 | the strategy flag is the configured value of `FeatureFlags:UseDatabaseGeometryManipulation`, false when absent, and is fixed for the service's lifetime |
| Services.StreetService.GetStreetById | StreetHub/Services/Implementations/StreetService.cs:26-29 | returns exactly what the repository returns, including null for a missing id |
| Services.StreetService.CreateStreet | StreetHub/Services/Implementations/StreetService.cs:36-39 | the store changes exactly as one repository `AddStreet` with the same street changes it |
| Services.StreetService.DeleteStreet | StreetHub/Services/Implementations/StreetService.cs:46-49 | the store changes exactly as one repository `DeleteStreet` with the same id changes it |
| Services.StreetService.AddPointToStreetGeometry | StreetHub/Services/Implementations/StreetService.cs:58-61 | passes the id, the point and the end through with the flag fixed at construction, and returns the repository's result, which never fails on a valid store (the database strategy with the intended statement). So every point addition through one service uses the same strategy |

## Findings

| source | as written | input that shows it | evidently intended | confidence | as-written member | corrected member |
|---|---|---|---|---|---|---|
| StreetHub/Repositories/Implementations/StreetRepository.cs:83-84 | the raw SQL names `Streets`, `Geometry` and `Id` unquoted, so PostgreSQL looks up `streets`, `geometry` and `id`. The migration creates the quoted names `"Streets"`, `"Geometry"` and `"Id"` | any existing street with `useDatabaseOperation` true: the statement fails, nothing is written, and the call throws instead of returning true | quoted names, `UPDATE "Streets" SET "Geometry" = … WHERE "Id" = …` | not executed; follows from PostgreSQL's case folding and the migration's quoted names | Sql.WrittenStatementFails | Sql.IntendedStatementEffect |
| StreetHub/Repositories/Implementations/StreetRepository.cs:84 | the prepend calls `ST_AddPoint(Geometry, 0, ST_MakePoint(x, y))`, with the position before the point, and no overload takes (geometry, integer, geometry) | any existing street with `useDatabaseOperation` true and `addToEnd` false, even with the names quoted: the call does not resolve | `ST_AddPoint(Geometry, ST_MakePoint(x, y), 0)` | not executed; follows from the two PostGIS signatures of `ST_AddPoint` | Sql.WrittenPrependArgumentsUnresolved | Repositories.StrategiesAgree |

## Left out

- StrategiesAgree, StrategiesAgreeIffGeometryPresent, AddPointEffect, StrategyIrrelevant, ApplyPointRequestsEffect, StAddPointAgreesWithList, DatabaseAddPointUpdate, StreetRepository.AddPointToStreetGeometry and StreetService.AddPointToStreetGeometry: these state what the database strategy does with the intended statement. As written, that strategy always fails (see "## Findings"). In the source only the in-memory strategy ever adds a point; with the flag on, every call on an existing street throws.
- StreetService.constructor: configuration values are taken as already-parsed booleans. The exception `GetValue<bool>` raises on a value that does not parse as a boolean is not modelled.

- Asynchrony (`async`/`Task`), EF change tracking, and transactions. Two requests racing on the same street, and the lost update they can cause, are also not modelled. Each operation is one atomic step on the table.
- How the SQL text is built by string interpolation, and how doubles are formatted into it. Only the statement's names, its function call and what the call computes are modelled. The database path is modelled by what `ST_AddPoint` computes. Coordinates are opaque 64-bit patterns, and no floating-point behaviour is modelled.
- SRID 4326 on the column against the SRID-less `ST_MakePoint`, and any Z or M value on the request's point. Only (x, y) is carried.
- NetTopologySuite `LineString` construction is treated as total. Its own rule against one-point lines is not part of this model, and neither is PostGIS's treatment of such lines.
- `ST_AddPoint` positions other than -1 and 0..n are treated as errors. Negative positions that count from the end, as some PostGIS versions accept, are not modelled; the repository never passes them.
- A null street name, and PostgreSQL's silent trimming of trailing spaces beyond 100 characters. Names are non-null strings, and any name over 100 characters is refused.
- `int` overflow of `Capacity` and of ids supplied by callers is ruled out by the `Int32` type. It is not modelled as wrap-around.
- The HTTP controller, dependency-injection wiring, JSON setup and migrations, apart from the schema constraints taken from them.
- Failures of the database itself, such as a lost connection. Only failures the schema or the statement causes are modelled.
