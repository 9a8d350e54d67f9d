/**
 * The street service: fixes the geometry strategy once, from configuration,
 * and forwards every call to the repository.
 */
module Services {
  import opened Wrappers
  import opened Geometry
  import opened Models
  import opened Repositories

  /** The configuration key of the strategy flag. */
  const UseDatabaseGeometryManipulationKey: string := "FeatureFlags:UseDatabaseGeometryManipulation"

  class StreetService {
    const repository: StreetRepository
    /** Read once, in the constructor; a `const` field cannot change afterwards. */
    const useDatabaseGeometryManipulation: bool

    ghost predicate Valid()
      reads repository
    {
      repository.Valid()
    }

    /** `config.GetValue<bool>(key)` is the configured value, and false when the key is absent. */
    constructor (repository: StreetRepository, config: map<string, bool>)
      ensures this.repository == repository
      ensures useDatabaseGeometryManipulation <==>
                UseDatabaseGeometryManipulationKey in config && config[UseDatabaseGeometryManipulationKey]
    {
      this.repository := repository;
      useDatabaseGeometryManipulation :=
        UseDatabaseGeometryManipulationKey in config && config[UseDatabaseGeometryManipulationKey];
    }

    /** Exactly what the repository finds: the row under `id`, or null. */
    method GetStreetById(id: Int32) returns (r: Option<Street>)
      requires Valid()
      ensures r.Some? <==> id in repository.streets
      ensures r.Some? ==> r.value == repository.streets[id] && r.value.id == id
    {
      r := repository.GetStreetById(id);
    }

    /** One `AddStreet` call with the same street: its effect on the store is the repository's. */
    method CreateStreet(street: Street) returns (r: Result<Int32, StorageError>)
      requires Valid()
      modifies repository
      ensures Valid()
      ensures Inserted(old(repository.streets), old(repository.nextId), street, repository.streets, repository.nextId, r)
      ensures r.Success? ==> && r.value !in old(repository.streets)
                             && repository.streets == old(repository.streets)[r.value := street.(id := r.value)]
      ensures r.Failure? ==> repository.streets == old(repository.streets)
    {
      r := repository.AddStreet(street);
    }

    /** One `DeleteStreet` call with the same id. */
    method DeleteStreet(id: Int32)
      requires Valid()
      modifies repository
      ensures Valid()
      ensures repository.streets == old(repository.streets) - {id}
      ensures repository.nextId == old(repository.nextId)
    {
      repository.DeleteStreet(id);
    }

    /**
     * Passes the request through with the flag fixed at construction, so every
     * point addition through this service uses the same strategy.
     */
    method AddPointToStreetGeometry(streetId: Int32, point: Coord, addToEnd: bool) returns (r: Result<bool, StorageError>)
      requires Valid()
      modifies repository
      ensures Valid()
      ensures r == Success(streetId in old(repository.streets))
      ensures repository.streets
              == AddPointToTable(old(repository.streets), streetId, point, addToEnd, useDatabaseGeometryManipulation)
      ensures streetId in old(repository.streets) ==> repository.streets == old(repository.streets)[streetId :=
                old(repository.streets)[streetId].(geometry :=
                  Some(AddCoordinate(old(repository.streets)[streetId].geometry.value, point, addToEnd)))]
      ensures repository.nextId == old(repository.nextId)
    {
      r := repository.AddPointToStreetGeometry(streetId, point, addToEnd, useDatabaseGeometryManipulation);
    }
  }

  /**
   * A client of the service: create "Main St" with an empty line, append (1, 1),
   * prepend (0, 0), and delete an id no street has; under either flag value.
   */
  method MainStreetScenario(useDatabase: bool)
  {
    var repository := new StreetRepository(map[], 1);
    var service := new StreetService(repository, map[UseDatabaseGeometryManipulationKey := useDatabase]);
    var created := service.CreateStreet(Street(0, "Main St", 2, Some([])));
    assert created == Success(1);
    assert repository.streets == map[1 := Street(1, "Main St", 2, Some([]))];
    var one: Double := 0x3FF0_0000_0000_0000;
    var ok := service.AddPointToStreetGeometry(1, Coord(one, one), true);
    assert AddCoordinate([], Coord(one, one), true) == [Coord(one, one)];
    assert ok == Success(true) && repository.streets == map[1 := Street(1, "Main St", 2, Some([Coord(one, one)]))];
    ok := service.AddPointToStreetGeometry(1, Coord(0, 0), false);
    assert AddCoordinate([Coord(one, one)], Coord(0, 0), false) == [Coord(0, 0), Coord(one, one)];
    assert ok == Success(true) && repository.streets[1].geometry == Some([Coord(0, 0), Coord(one, one)]);
    var before := repository.streets;
    service.DeleteStreet(9999);
    assert repository.streets == before;
    ok := service.AddPointToStreetGeometry(9999, Coord(0, 0), true);
    assert ok == Success(false) && repository.streets == before;
  }
}
