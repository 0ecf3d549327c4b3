/** The domain records: Restaurant, RestaurantFound and SearchQuery, and the
    field validation that turns a key-value record into a Restaurant. */
module Models {
  import opened Wrappers

  /** A position in degrees, latitude first: the domain's axis order. */
  datatype Coordinate = Coordinate(latitude: real, longitude: real)

  /** The ranges the coordinate validator accepts. The validator belongs to a
      library outside this model; these bounds are assumed, not derived. */
  predicate InRange(latitude: real, longitude: real) {
    -90.0 <= latitude <= 90.0 && -180.0 <= longitude <= 180.0
  }

  datatype Restaurant = Restaurant(id: string, name: string, coordinate: Coordinate)

  /** A search hit: the restaurant and its distance to the query centre in metres,
      as stored (that is, after rounding). */
  datatype RestaurantFound = RestaurantFound(restaurant: Restaurant, distance: real)

  /** Builds a RestaurantFound as its constructor does: the distance field
      validator rounds the raw value once, when the field is set. The rounding
      to two decimals is floating-point library behaviour and comes in as
      `round2`. */
  function NewRestaurantFound(restaurant: Restaurant, distance: real, round2: real -> real): (found: RestaurantFound)
    ensures found.restaurant == restaurant
    ensures found.distance == round2(distance)
  {
    RestaurantFound(restaurant, round2(distance))
  }

  /** A strictly positive integer, the type of a search radius. */
  type PositiveInt = n: int | n > 0 witness 1

  datatype SearchQuery = SearchQuery(coordinate: Coordinate, radius: PositiveInt)

  /** A value of a key-value record as the validator sees it. */
  datatype Value = Text(text: string) | Numbers(numbers: seq<real>)

  /** The fields Restaurant declares, in declaration order. */
  const RestaurantFields: seq<string> := ["id", "name", "coordinate"]

  /** The position of a declared field in `RestaurantFields`. */
  function DeclarationIndex(field: string): nat {
    if field == "id" then 0 else if field == "name" then 1 else 2
  }

  /** Whether the record supplies a usable value for the declared field `field`:
      a string for `id` and `name`, an in-range (latitude, longitude) pair for
      `coordinate`. */
  predicate FieldValid(fields: map<string, Value>, field: string) {
    field in fields &&
    if field == "coordinate" then
      fields[field].Numbers? && |fields[field].numbers| == 2 &&
      InRange(fields[field].numbers[0], fields[field].numbers[1])
    else
      fields[field].Text?
  }

  /** Restaurant validation of a key-value record: every declared field must be
      present and well-formed; keys the model does not declare are ignored. On
      failure the error lists every offending field, in declaration order. */
  function ValidateRestaurant(fields: map<string, Value>): (r: Result<Restaurant, seq<string>>)
    ensures r.Ok? <==> forall field :: field in RestaurantFields ==> FieldValid(fields, field)
    ensures r.Err? ==> r.error != []
    ensures r.Err? ==>
      forall field :: field in r.error <==> field in RestaurantFields && !FieldValid(fields, field)
    ensures r.Err? ==>
      forall i, j :: 0 <= i < j < |r.error| ==> DeclarationIndex(r.error[i]) < DeclarationIndex(r.error[j])
    ensures r.Ok? ==>
      && r.value.id == fields["id"].text
      && r.value.name == fields["name"].text
      && [r.value.coordinate.latitude, r.value.coordinate.longitude] == fields["coordinate"].numbers
  {
    var bad :=
      (if FieldValid(fields, "id") then [] else ["id"]) +
      (if FieldValid(fields, "name") then [] else ["name"]) +
      (if FieldValid(fields, "coordinate") then [] else ["coordinate"]);
    if bad != [] then
      Err(bad)
    else
      var pair := fields["coordinate"].numbers;
      Ok(Restaurant(fields["id"].text, fields["name"].text, Coordinate(pair[0], pair[1])))
  }
}
