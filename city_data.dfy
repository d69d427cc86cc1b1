/**
 * The entities of the city registry.
 *
 * `Record` is the object that is serialised under a record key (it has no id:
 * the id lives in the key); `City` is the in-memory `CityData` the
 * application lists, which takes its id from the index entry it was loaded
 * by.  Numbers are unbounded integers: the stored values of other writers are
 * not checked, so nothing here is restricted to the ranges the create form
 * produces.
 */
module CityData {

  datatype Record = Record(
    name: string,
    population: int,
    satisfaction: int,
    buildings: int,
    timestamp: int,
    owner: string,
    encryptedData: string)

  datatype City = City(
    id: string,
    name: string,
    population: int,
    satisfaction: int,
    buildings: int,
    timestamp: int,
    owner: string,
    encryptedData: string)

  /** The user's input in the create form (`newCityData`). */
  datatype Draft = Draft(name: string, population: int, buildings: int)

  /** The listed city built from a stored record found under index entry `id`. */
  function WithId(id: string, r: Record): (c: City)
    ensures c.id == id && Stored(c) == r
  {
    City(id, r.name, r.population, r.satisfaction, r.buildings, r.timestamp, r.owner, r.encryptedData)
  }

  /** The part of a listed city that is persisted. */
  function Stored(c: City): Record {
    Record(c.name, c.population, c.satisfaction, c.buildings, c.timestamp, c.owner, c.encryptedData)
  }
}
