/** Values shared by the scraper, the store and the valuators. */
module Records {

  /** The two kinds of exception the scrape loop tells apart. */
  datatype Fault = StaleElement | OtherError

  /** A value, or the exception raised while computing it (a DOM read, an index, an unpacking). */
  datatype Outcome<+T> = Ok(value: T) | Raised(fault: Fault)

  datatype Option<+T> = None | Some(value: T)

  /** A coordinate as the geocoder hands it over: `None` or a float, modelled exactly. */
  type Coordinate = Option<real>

  /** Python truthiness of a coordinate: neither `None` nor zero. */
  predicate Truthy(c: Coordinate) {
    c.Some? && c.value != 0.0
  }

  /** What `get_coordinates` returns: `(latitude, longitude)`. */
  datatype Coords = Coords(latitude: Coordinate, longitude: Coordinate)

  /**
   * One listing dictionary as the scraper appends it and `store_data_in_postgis` reads it
   * (keys postcode, unit, street_address, bedroom_num, bathroom_num, parking_num, price,
   * property_type, latitude, longitude, description).
   */
  datatype ListingRecord = ListingRecord(
    postcode: int,
    unit: string,
    streetAddress: string,
    bedrooms: int,
    bathrooms: int,
    parking: int,
    price: int,
    propertyType: int,
    latitude: Coordinate,
    longitude: Coordinate,
    description: string)

  /** A day, as `datetime.today().date()` returns it; the calendar itself is not modelled. */
  type Date = int

  /** Concatenation is associative (a step the solver does not always take on its own). */
  lemma ConcatAssoc<T>(a: seq<T>, b: seq<T>, c: seq<T>)
    ensures a + (b + c) == (a + b) + c
  {
  }
}
