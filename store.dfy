/**
 * The ingestion side of the PostGIS store: two tables of rows, `rental_properties` and
 * `sold_properties`, filled by `store_data_in_postgis`, and the guard in front of the
 * nearest-properties procedure.
 */
module Store {
  import opened Records

  /** `ST_SetSRID(ST_MakePoint(x, y), srid)`: x is the longitude, y the latitude. */
  datatype Point = Point(x: real, y: real, srid: int)

  /** The spatial reference the rows are stored in (WGS 84). */
  const Srid: int := 4326

  /** One row of either table, in the column order of `create_tables`. */
  datatype StoredRow = StoredRow(
    id: nat,
    unit: string,
    streetAddress: string,
    bedrooms: int,
    bathrooms: int,
    parking: int,
    price: int,
    propertyType: int,
    recordDate: Date,
    latitude: real,
    longitude: real,
    geom: Point,
    description: string)

  /** The column names of both tables, in declaration order. */
  const TableColumns: seq<string> := ["id", "unit", "street_address", "bedroom_num", "bathroom_num",
    "parking_num", "price", "property_type", "record_date", "latitude", "longitude", "geom", "description"]

  /** A column value, as a row tuple holds it. */
  datatype Value = IntValue(i: int) | TextValue(s: string) | DateValue(d: Date) | RealValue(r: real) | PointValue(p: Point)

  /** A row as the tuple `SELECT *` returns: one value per column, in `TableColumns` order. */
  function Columns(row: StoredRow): (values: seq<Value>)
    ensures |values| == |TableColumns|
  {
    [IntValue(row.id), TextValue(row.unit), TextValue(row.streetAddress), IntValue(row.bedrooms),
     IntValue(row.bathrooms), IntValue(row.parking), IntValue(row.price), IntValue(row.propertyType),
     DateValue(row.recordDate), RealValue(row.latitude), RealValue(row.longitude), PointValue(row.geom),
     TextValue(row.description)]
  }

  /** The index the valuators read the price at. */
  const PriceColumn: nat := 6

  /** Column 6 of a row tuple is the price column, and holds the row's price. */
  lemma PriceIsColumnSix(row: StoredRow)
    ensures PriceColumn < |TableColumns| && TableColumns[PriceColumn] == "price"
    ensures Columns(row)[PriceColumn] == IntValue(row.price)
  {
  }

  /** `row["longitude"] and row["latitude"]`: both coordinates present and non-zero. */
  predicate HasCoordinates(r: ListingRecord) {
    Truthy(r.longitude) && Truthy(r.latitude)
  }

  /** The row one INSERT adds for a record: today's date, an empty description, the point (longitude, latitude). */
  function MakeRow(r: ListingRecord, id: nat, recordDate: Date): (row: StoredRow)
    requires HasCoordinates(r)
    ensures row.id == id && row.geom == Point(row.longitude, row.latitude, Srid)
  {
    StoredRow(id, r.unit, r.streetAddress, r.bedrooms, r.bathrooms, r.parking, r.price, r.propertyType,
              recordDate, r.latitude.value, r.longitude.value, Point(r.longitude.value, r.latitude.value, Srid), "")
  }

  /** The ids of a table count up from `first`, as a SERIAL key hands them out. */
  predicate NumberedFrom(rows: seq<StoredRow>, first: nat) {
    forall k :: 0 <= k < |rows| ==> rows[k].id == first + k
  }

  /**
   * The rows `store_data_in_postgis` adds from `data[i..]`, the next id being `nextId`: rows
   * without coordinates are passed over, and the first insert that fails (`fails(i)`) ends the
   * batch.
   */
  function InsertFrom(data: seq<ListingRecord>, i: nat, nextId: nat, today: Date, fails: nat -> bool)
    : (rows: seq<StoredRow>)
    ensures NumberedFrom(rows, nextId)
    ensures i <= |data| ==> |rows| <= |data| - i
    decreases |data| - i
  {
    if i >= |data| then []
    else if !HasCoordinates(data[i]) then InsertFrom(data, i + 1, nextId, today, fails)
    else if fails(i) then []
    else [MakeRow(data[i], nextId, today)] + InsertFrom(data, i + 1, nextId + 1, today, fails)
  }

  /** The records of `data[i..]` that have both coordinates, in input order. */
  function Qualifying(data: seq<ListingRecord>, i: nat): (q: seq<ListingRecord>)
    ensures i <= |data| ==> |q| <= |data| - i
    ensures forall r :: r in q ==> HasCoordinates(r)
    ensures forall k :: i <= k < |data| && HasCoordinates(data[k]) ==> data[k] in q
    decreases |data| - i
  {
    if i >= |data| then []
    else (if HasCoordinates(data[i]) then [data[i]] else []) + Qualifying(data, i + 1)
  }

  /** The records kept from `data[i..]` are those kept before `j`, then those kept from `j` on, in input order. */
  lemma {:induction false} QualifyingSplit(data: seq<ListingRecord>, i: nat, j: nat)
    requires i <= j <= |data|
    ensures Qualifying(data, i) == Qualifying(data[..j], i) + Qualifying(data, j)
    decreases j - i
  {
    if i < j {
      QualifyingSplit(data, i + 1, j);
      assert data[..j][i] == data[i];
      var head := if HasCoordinates(data[i]) then [data[i]] else [];
      assert Qualifying(data[..j], i) == head + Qualifying(data[..j], i + 1);
      ConcatAssoc(head, Qualifying(data[..j], i + 1), Qualifying(data, j));
    }
  }

  /** The rows for records that all have coordinates, numbered from `nextId`. */
  function RowsFor(records: seq<ListingRecord>, nextId: nat, today: Date): (rows: seq<StoredRow>)
    requires forall r :: r in records ==> HasCoordinates(r)
    ensures |rows| == |records|
  {
    if records == [] then []
    else [MakeRow(records[0], nextId, today)] + RowsFor(records[1..], nextId + 1, today)
  }

  /** Row `k` is the row of record `k`, with id `nextId + k`. */
  lemma {:induction false} RowsForAt(records: seq<ListingRecord>, nextId: nat, today: Date, k: nat)
    requires forall r :: r in records ==> HasCoordinates(r)
    requires k < |records|
    ensures RowsFor(records, nextId, today)[k] == MakeRow(records[k], nextId + k, today)
  {
    if k > 0 {
      RowsForAt(records[1..], nextId + 1, today, k - 1);
    }
  }

  /** Every stored row carries the batch date, an empty description and the point (longitude, latitude). */
  lemma {:induction false} InsertedRowsShape(data: seq<ListingRecord>, i: nat, nextId: nat, today: Date,
                                             fails: nat -> bool)
    ensures forall row :: row in InsertFrom(data, i, nextId, today, fails) ==>
      && row.recordDate == today && row.description == ""
      && row.geom == Point(row.longitude, row.latitude, 4326)
      && row.latitude != 0.0 && row.longitude != 0.0
    decreases |data| - i
  {
    if i < |data| {
      InsertedRowsShape(data, i + 1, nextId, today, fails);
      InsertedRowsShape(data, i + 1, nextId + 1, today, fails);
    }
  }

  /** Without a failing insert every record with coordinates is stored, once each and in input order. */
  lemma {:induction false} NoFailureStoresEveryQualifyingRow(data: seq<ListingRecord>, i: nat, nextId: nat,
                                                             today: Date, fails: nat -> bool)
    requires forall k :: i <= k < |data| ==> !fails(k)
    ensures InsertFrom(data, i, nextId, today, fails) == RowsFor(Qualifying(data, i), nextId, today)
    decreases |data| - i
  {
    if i < |data| {
      if HasCoordinates(data[i]) {
        NoFailureStoresEveryQualifyingRow(data, i + 1, nextId + 1, today, fails);
        var rest := Qualifying(data, i + 1);
        assert Qualifying(data, i) == [data[i]] + rest;
        RowsForCons(data[i], rest, nextId, today);
      } else {
        NoFailureStoresEveryQualifyingRow(data, i + 1, nextId, today, fails);
        assert [] + Qualifying(data, i + 1) == Qualifying(data, i + 1);
        assert Qualifying(data, i) == Qualifying(data, i + 1);
      }
    }
  }

  lemma RowsForCons(r: ListingRecord, records: seq<ListingRecord>, nextId: nat, today: Date)
    requires HasCoordinates(r) && forall x :: x in records ==> HasCoordinates(x)
    ensures RowsFor([r] + records, nextId, today) == [MakeRow(r, nextId, today)] + RowsFor(records, nextId + 1, today)
  {
    assert ([r] + records)[1..] == records;
  }

  /** A failing insert at position `k` stores nothing from `k` on: the batch is `data[..k]`'s. */
  lemma {:induction false} FailureEndsBatch(data: seq<ListingRecord>, i: nat, nextId: nat, today: Date,
                                            fails: nat -> bool, k: nat)
    requires i <= k < |data| && HasCoordinates(data[k]) && fails(k)
    ensures InsertFrom(data, i, nextId, today, fails) == InsertFrom(data[..k], i, nextId, today, fails)
    decreases k - i
  {
    if i < k {
      assert data[..k][i] == data[i];
      FailureEndsBatch(data, i + 1, nextId, today, fails, k);
      FailureEndsBatch(data, i + 1, nextId + 1, today, fails, k);
    }
  }

  /** A batch in which no record has both coordinates stores nothing. */
  lemma {:induction false} NoCoordinatesStoresNothing(data: seq<ListingRecord>, i: nat, nextId: nat, today: Date,
                                                      fails: nat -> bool)
    requires forall k :: i <= k < |data| ==> !HasCoordinates(data[k])
    ensures InsertFrom(data, i, nextId, today, fails) == []
    decreases |data| - i
  {
    if i < |data| {
      NoCoordinatesStoresNothing(data, i + 1, nextId, today, fails);
    }
  }

  /**
   * There is no lookup of existing rows: storing the same batch again adds the same rows
   * again, with the next ids.
   */
  lemma StoringTwiceDuplicates(data: seq<ListingRecord>, nextId: nat, today: Date)
    ensures var first := RowsFor(Qualifying(data, 0), nextId, today);
            var second := RowsFor(Qualifying(data, 0), nextId + |first|, today);
            && |first| == |second| == |Qualifying(data, 0)|
            && forall k :: 0 <= k < |first| ==> second[k] == first[k].(id := first[k].id + |first|)
  {
    var q := Qualifying(data, 0);
    var first, second := RowsFor(q, nextId, today), RowsFor(q, nextId + |q|, today);
    forall k | 0 <= k < |first|
      ensures second[k] == first[k].(id := first[k].id + |first|)
    {
      RowsForAt(q, nextId, today, k);
      RowsForAt(q, nextId + |q|, today, k);
    }
  }

  /** The arguments of `get_k_nearest_properties`, in the order they are passed. */
  datatype NearestCall = NearestCall(
    longitude: real, latitude: real, k: int, mode: int, propertyType: int,
    bedrooms: int, bathrooms: int, parking: int, rangePercentage: int)

  /** The database: the two tables. */
  class PropertyStore {
    var rental: seq<StoredRow>
    var sold: seq<StoredRow>

    /** Both tables are numbered 1, 2, 3, ... */
    ghost predicate Valid()
      reads this
    {
      NumberedFrom(rental, 1) && NumberedFrom(sold, 1)
    }

    /** Freshly created tables are empty. */
    constructor ()
      ensures rental == [] && sold == [] && Valid()
    {
      rental := [];
      sold := [];
    }

    /** One INSERT: the row for `r` goes at the end of the chosen table, with the next id. */
    method InsertRow(intoSold: bool, r: ListingRecord, recordDate: Date)
      requires Valid() && HasCoordinates(r)
      modifies this
      ensures Valid()
      ensures intoSold ==> sold == old(sold) + [MakeRow(r, |old(sold)| + 1, recordDate)] && rental == old(rental)
      ensures !intoSold ==> rental == old(rental) + [MakeRow(r, |old(rental)| + 1, recordDate)] && sold == old(sold)
    {
      if intoSold {
        sold := sold + [MakeRow(r, |sold| + 1, recordDate)];
      } else {
        rental := rental + [MakeRow(r, |rental| + 1, recordDate)];
      }
    }

    /**
     * `store_data_in_postgis`: a non-zero `mode` writes `sold_properties`, zero writes
     * `rental_properties`; the other table is left alone. Rows inserted before a failure stay.
     */
    method StoreData(data: seq<ListingRecord>, mode: int, today: Date, fails: nat -> bool)
      requires Valid()
      modifies this
      ensures Valid()
      ensures mode != 0 ==> sold == old(sold) + InsertFrom(data, 0, |old(sold)| + 1, today, fails)
                            && rental == old(rental)
      ensures mode == 0 ==> rental == old(rental) + InsertFrom(data, 0, |old(rental)| + 1, today, fails)
                            && sold == old(sold)
    {
      var intoSold := mode != 0;
      var recordDate := today;
      var i := 0;
      while i < |data|
        invariant 0 <= i <= |data|
        invariant Valid()
        invariant intoSold ==> rental == old(rental)
                               && old(sold) + InsertFrom(data, 0, |old(sold)| + 1, today, fails)
                                  == sold + InsertFrom(data, i, |sold| + 1, today, fails)
        invariant !intoSold ==> sold == old(sold)
                                && old(rental) + InsertFrom(data, 0, |old(rental)| + 1, today, fails)
                                   == rental + InsertFrom(data, i, |rental| + 1, today, fails)
      {
        var row := data[i];
        if HasCoordinates(row) {
          if fails(i) {
            break;
          }
          InsertRow(intoSold, row, recordDate);
        }
        i := i + 1;
      }
    }

    /**
     * `query_k_nearest_properties`: `None` when the address does not geocode to two non-zero
     * coordinates or when the procedure raises; otherwise the procedure's rows, unchanged.
     * The procedure sees the tables and is passed the longitude before the latitude.
     */
    function QueryKNearest(address: string, areaName: string, k: int, mode: int, propertyType: int,
                           bedrooms: int, bathrooms: int, parking: int, rangePercentage: int,
                           geocode: (string, string) -> Coords,
                           procedure: (NearestCall, seq<StoredRow>, seq<StoredRow>) -> Outcome<seq<StoredRow>>)
      : (r: Option<seq<StoredRow>>)
      reads this
      ensures r.Some? <==>
        && Truthy(geocode(address, areaName).latitude) && Truthy(geocode(address, areaName).longitude)
        && procedure(NearestCall(geocode(address, areaName).longitude.value, geocode(address, areaName).latitude.value,
                                 k, mode, propertyType, bedrooms, bathrooms, parking, rangePercentage),
                     rental, sold).Ok?
      ensures r.Some? ==>
        r.value == procedure(NearestCall(geocode(address, areaName).longitude.value, geocode(address, areaName).latitude.value,
                                         k, mode, propertyType, bedrooms, bathrooms, parking, rangePercentage),
                             rental, sold).value
    {
      var coords := geocode(address, areaName);
      if Truthy(coords.longitude) && Truthy(coords.latitude) then
        match procedure(NearestCall(coords.longitude.value, coords.latitude.value, k, mode, propertyType,
                                    bedrooms, bathrooms, parking, rangePercentage), rental, sold)
        case Ok(rows) => Some(rows)
        case Raised(_) => None
      else None
    }
  }

  /** Without coordinates the procedure is not consulted: any two procedures give the same `None`. */
  lemma UnresolvedAddressSkipsProcedure(store: PropertyStore, address: string, areaName: string, k: int, mode: int,
                                        propertyType: int, bedrooms: int, bathrooms: int, parking: int,
                                        rangePercentage: int, geocode: (string, string) -> Coords,
                                        procedure: (NearestCall, seq<StoredRow>, seq<StoredRow>) -> Outcome<seq<StoredRow>>,
                                        other: (NearestCall, seq<StoredRow>, seq<StoredRow>) -> Outcome<seq<StoredRow>>)
    requires !Truthy(geocode(address, areaName).latitude) || !Truthy(geocode(address, areaName).longitude)
    ensures store.QueryKNearest(address, areaName, k, mode, propertyType, bedrooms, bathrooms, parking,
                                rangePercentage, geocode, procedure) == None
    ensures store.QueryKNearest(address, areaName, k, mode, propertyType, bedrooms, bathrooms, parking,
                                rangePercentage, geocode, other) == None
  {
  }
}
