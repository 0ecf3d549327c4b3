/** Feature normalisation and the load mapping: a GeoJSON feature becomes a
    flat record (identifier, name, coordinates in latitude-first order), and a
    list of features becomes a list of restaurants, all or nothing. */
module LoadData {
  import opened Wrappers
  import opened Models

  /** The `geometry` object of a feature; each key may be absent. */
  datatype Geometry = Geometry(kind: Option<string>, coordinates: Option<seq<real>>)

  /** A GeoJSON feature: its `geometry` and `properties` keys may be absent. */
  datatype Feature = Feature(geometry: Option<Geometry>, properties: Option<map<string, string>>)

  /** The record normalisation emits, under the keys `full_id`, `name` and
      `coordinates`. */
  datatype Record = Record(fullId: string, name: string, coordinates: seq<real>)

  /** Why a feature cannot be loaded: not a Point, a key looked up and absent,
      or restaurant validation rejecting the listed fields. */
  datatype Error = NotAValidPoint | MissingKey(key: string) | Invalid(fields: seq<string>)

  /** The sequence in the opposite order. */
  function Reversed(s: seq<real>): (r: seq<real>)
    ensures |r| == |s|
    ensures forall i :: 0 <= i < |s| ==> r[i] == s[|s| - 1 - i]
  {
    if s == [] then [] else Reversed(s[1..]) + [s[0]]
  }

  /** Reversing twice gives back the original sequence. */
  lemma {:induction false} ReversedTwice(s: seq<real>)
    ensures Reversed(Reversed(s)) == s
  {
    var r := Reversed(s);
    var rr := Reversed(r);
    assert |rr| == |s|;
    forall i | 0 <= i < |s|
      ensures rr[i] == s[i]
    {
      assert rr[i] == r[|s| - 1 - i];
    }
  }

  /** The geometry is present, has a type, and that type is not "Point". */
  predicate IsNonPoint(feature: Feature) {
    feature.geometry.Some? && feature.geometry.value.kind.Some? &&
    feature.geometry.value.kind.value != "Point"
  }

  /** Everything normalisation looks up is present and the geometry is a Point. */
  predicate IsCompletePoint(feature: Feature) {
    && feature.geometry.Some?
    && feature.geometry.value.kind == Some("Point")
    && feature.properties.Some?
    && "full_id" in feature.properties.value
    && "name" in feature.properties.value
    && feature.geometry.value.coordinates.Some?
  }

  /** Turns a feature into a record. The geometry type is checked first, so a
      non-Point feature is rejected whatever else it lacks; then the keys are
      looked up in the order `full_id`, `name`, `coordinates`, and the first
      absent one is reported. GeoJSON positions are (longitude, latitude), so
      the coordinate sequence is reversed. */
  function Normalize(feature: Feature): (r: Result<Record, Error>)
    ensures r == Err(NotAValidPoint) <==> IsNonPoint(feature)
    ensures r.Ok? <==> IsCompletePoint(feature)
    ensures r.Err? && !IsNonPoint(feature) ==> r.error.MissingKey?
    ensures r.Ok? ==>
      && r.value.fullId == feature.properties.value["full_id"]
      && r.value.name == feature.properties.value["name"]
      && |r.value.coordinates| == |feature.geometry.value.coordinates.value|
      && forall i :: 0 <= i < |r.value.coordinates| ==>
           r.value.coordinates[i] == feature.geometry.value.coordinates.value[|r.value.coordinates| - 1 - i]
  {
    match feature.geometry
    case None => Err(MissingKey("geometry"))
    case Some(geometry) =>
      match geometry.kind
      case None => Err(MissingKey("type"))
      case Some(kind) =>
        if kind != "Point" then
          Err(NotAValidPoint)
        else
          match feature.properties
          case None => Err(MissingKey("properties"))
          case Some(properties) =>
            if "full_id" !in properties then
              Err(MissingKey("full_id"))
            else if "name" !in properties then
              Err(MissingKey("name"))
            else
              match geometry.coordinates
              case None => Err(MissingKey("coordinates"))
              case Some(position) => Ok(Record(properties["full_id"], properties["name"], Reversed(position)))
  }

  /** Which key a failing feature reports. */
  lemma MissingKeyReported(feature: Feature)
    ensures feature.geometry.None? ==> Normalize(feature) == Err(MissingKey("geometry"))
    ensures feature.geometry.Some? && feature.geometry.value.kind.None? ==>
      Normalize(feature) == Err(MissingKey("type"))
    ensures feature.geometry.Some? && feature.geometry.value.kind == Some("Point") && feature.properties.None? ==>
      Normalize(feature) == Err(MissingKey("properties"))
    ensures IsNonPoint(feature) && feature.properties.None? ==> Normalize(feature) == Err(NotAValidPoint)
    ensures PointWithProperties(feature) && "full_id" !in feature.properties.value ==>
      Normalize(feature) == Err(MissingKey("full_id"))
    ensures PointWithProperties(feature) && "full_id" in feature.properties.value &&
            "name" !in feature.properties.value ==>
      Normalize(feature) == Err(MissingKey("name"))
    ensures PointWithProperties(feature) && "full_id" in feature.properties.value &&
            "name" in feature.properties.value && feature.geometry.value.coordinates.None? ==>
      Normalize(feature) == Err(MissingKey("coordinates"))
  {
  }

  /** A Point geometry and a `properties` object are present. */
  predicate PointWithProperties(feature: Feature) {
    feature.geometry.Some? && feature.geometry.value.kind == Some("Point") && feature.properties.Some?
  }

  /** Reversing the output coordinates gives back the GeoJSON position: the
      axis swap loses nothing. */
  lemma NormalizeRoundTrip(feature: Feature)
    requires Normalize(feature).Ok?
    ensures Reversed(Normalize(feature).value.coordinates) == feature.geometry.value.coordinates.value
  {
    ReversedTwice(feature.geometry.value.coordinates.value);
  }

  /** A GeoJSON pair [longitude, latitude] comes out as [latitude, longitude]. */
  lemma NormalizeSwapsAxes(feature: Feature, longitude: real, latitude: real)
    requires IsCompletePoint(feature)
    requires feature.geometry.value.coordinates == Some([longitude, latitude])
    ensures Normalize(feature).value.coordinates == [latitude, longitude]
  {
  }

  /** Only the geometry and the `full_id` and `name` properties influence the
      result: other properties are ignored. */
  lemma NormalizeIgnoresOtherProperties(f: Feature, g: Feature)
    requires f.geometry == g.geometry
    requires f.properties.Some? <==> g.properties.Some?
    requires f.properties.Some? ==>
      forall key :: key in {"full_id", "name"} ==>
        (key in f.properties.value <==> key in g.properties.value) &&
        (key in f.properties.value ==> f.properties.value[key] == g.properties.value[key])
    ensures Normalize(f) == Normalize(g)
  {
    if f.properties.Some? {
      assert "full_id" in {"full_id", "name"};
      assert "name" in {"full_id", "name"};
    }
  }

  /** One feature through both stages: normalisation, then the conversion of
      the record into a Restaurant. */
  function LoadOne(feature: Feature, convert: Record -> Result<Restaurant, Error>): (r: Result<Restaurant, Error>)
    ensures r.Ok? <==> Normalize(feature).Ok? && convert(Normalize(feature).value).Ok?
    ensures Normalize(feature).Err? ==> r == Err(Normalize(feature).error)
    ensures Normalize(feature).Ok? ==> r == convert(Normalize(feature).value)
  {
    match Normalize(feature)
    case Err(e) => Err(e)
    case Ok(record) => convert(record)
  }

  /** The load mapping: every feature in order; the first failure aborts the
      whole batch and is the one reported. */
  function Load(features: seq<Feature>, convert: Record -> Result<Restaurant, Error>): (r: Result<seq<Restaurant>, Error>)
    ensures r.Ok? <==> forall i :: 0 <= i < |features| ==> LoadOne(features[i], convert).Ok?
    ensures r.Ok? ==> |r.value| == |features|
    ensures r.Ok? ==> forall i :: 0 <= i < |features| ==> LoadOne(features[i], convert) == Ok(r.value[i])
    ensures r.Err? ==>
      exists i :: 0 <= i < |features| && LoadOne(features[i], convert) == Err(r.error) &&
        forall j :: 0 <= j < i ==> LoadOne(features[j], convert).Ok?
  {
    if features == [] then
      Ok([])
    else
      match LoadOne(features[0], convert)
      case Err(e) => Err(e)
      case Ok(restaurant) =>
        match Load(features[1..], convert)
        case Err(e) =>
          var i :| 0 <= i < |features[1..]| && LoadOne(features[1..][i], convert) == Err(e) &&
            forall j :: 0 <= j < i ==> LoadOne(features[1..][j], convert).Ok?;
          assert LoadOne(features[i + 1], convert) == Err(e);
          Err(e)
        case Ok(rest) => Ok([restaurant] + rest)
  }

  /** The record under the keys normalisation gives it. */
  function RecordFields(record: Record): map<string, Value> {
    map["full_id" := Text(record.fullId), "name" := Text(record.name), "coordinates" := Numbers(record.coordinates)]
  }

  /** The conversion as the source writes it: the emitted record handed to
      Restaurant validation unchanged. Restaurant declares `id` and
      `coordinate`, which the record does not have, so every record is rejected. */
  function ConvertAsWritten(record: Record): (r: Result<Restaurant, Error>)
    ensures r == Err(Invalid(["id", "coordinate"]))
  {
    var fields := RecordFields(record);
    assert !FieldValid(fields, "id") && FieldValid(fields, "name") && !FieldValid(fields, "coordinate");
    assert ["id"] + [] + ["coordinate"] == ["id", "coordinate"];
    match ValidateRestaurant(fields)
    case Ok(restaurant) => Ok(restaurant)
    case Err(fields) => Err(Invalid(fields))
  }

  /** Loading as written fails on every non-empty batch. */
  lemma AsWrittenLoadFails(features: seq<Feature>)
    ensures Load(features, ConvertAsWritten).Ok? <==> features == []
  {
    if features != [] {
      assert !LoadOne(features[0], ConvertAsWritten).Ok?;
    }
  }

  /** The record under the names Restaurant declares: `full_id` becomes `id`
      and `coordinates` becomes `coordinate`. */
  function RestaurantRecordFields(record: Record): map<string, Value> {
    map["id" := Text(record.fullId), "name" := Text(record.name), "coordinate" := Numbers(record.coordinates)]
  }

  /** The intended conversion: rename the keys, then validate. */
  function Convert(record: Record): (r: Result<Restaurant, Error>)
    ensures r.Ok? <==> |record.coordinates| == 2 && InRange(record.coordinates[0], record.coordinates[1])
    ensures r.Ok? ==> r.value == Restaurant(record.fullId, record.name,
                                            Coordinate(record.coordinates[0], record.coordinates[1]))
    ensures r.Err? ==> r == Err(Invalid(["coordinate"]))
  {
    var fields := RestaurantRecordFields(record);
    assert FieldValid(fields, "id") && FieldValid(fields, "name");
    assert [] + [] + ["coordinate"] == ["coordinate"];
    match ValidateRestaurant(fields)
    case Ok(restaurant) => Ok(restaurant)
    case Err(bad) => Err(Invalid(bad))
  }

  /** A feature the intended pipeline accepts: a complete Point whose GeoJSON
      position is an in-range (longitude, latitude) pair. */
  predicate Loadable(feature: Feature) {
    IsCompletePoint(feature) &&
    var position := feature.geometry.value.coordinates.value;
    |position| == 2 && InRange(position[1], position[0])
  }

  /** With the intended conversion, a batch loads exactly when every feature is
      loadable, and each restaurant carries its feature's identifier, name and
      position with latitude first. */
  lemma {:induction false} LoadRestaurantsSucceeds(features: seq<Feature>)
    ensures Load(features, Convert).Ok? <==> forall i :: 0 <= i < |features| ==> Loadable(features[i])
    ensures Load(features, Convert).Ok? ==> forall i :: 0 <= i < |features| ==>
      var restaurant := Load(features, Convert).value[i];
      var position := features[i].geometry.value.coordinates.value;
      && restaurant.id == features[i].properties.value["full_id"]
      && restaurant.name == features[i].properties.value["name"]
      && restaurant.coordinate == Coordinate(position[1], position[0])
  {
    forall i | 0 <= i < |features|
      ensures LoadOne(features[i], Convert).Ok? <==> Loadable(features[i])
    {
      LoadOneLoadable(features[i]);
    }
  }

  lemma LoadOneLoadable(feature: Feature)
    ensures LoadOne(feature, Convert).Ok? <==> Loadable(feature)
    ensures LoadOne(feature, Convert).Ok? ==>
      var position := feature.geometry.value.coordinates.value;
      LoadOne(feature, Convert).value ==
        Restaurant(feature.properties.value["full_id"], feature.properties.value["name"],
                   Coordinate(position[1], position[0]))
  {
    if IsCompletePoint(feature) {
      var record := Normalize(feature).value;
      assert |record.coordinates| == 2 ==> record.coordinates == [feature.geometry.value.coordinates.value[1], feature.geometry.value.coordinates.value[0]];
    }
  }

  /** An abridged Le Severo feature of the normalisation test: of its many
      properties only `full_id`, `name`, `osm_id` and `cuisine` are kept.
      `NormalizeIgnoresOtherProperties` carries the result over to the full
      feature, which has the same geometry, `full_id` and `name`. */
  lemma SeveroExample()
    ensures
      var properties := map["full_id" := "n175539450", "osm_id" := "175539450", "name" := "Le Severo", "cuisine" := "french"];
      var feature := Feature(Some(Geometry(Some("Point"), Some([2.3245488, 48.8319929]))), Some(properties));
      Normalize(feature) == Ok(Record("n175539450", "Le Severo", [48.8319929, 2.3245488]))
  {
    var properties := map["full_id" := "n175539450", "osm_id" := "175539450", "name" := "Le Severo", "cuisine" := "french"];
    var feature := Feature(Some(Geometry(Some("Point"), Some([2.3245488, 48.8319929]))), Some(properties));
    NormalizeSwapsAxes(feature, 2.3245488, 48.8319929);
  }

  /** The two failure tests: a non-Point geometry with nothing else, and an
      empty feature. */
  lemma FailureExamples()
    ensures Normalize(Feature(Some(Geometry(Some("Something"), None)), None)) == Err(NotAValidPoint)
    ensures Normalize(Feature(None, None)) == Err(MissingKey("geometry"))
  {
  }
}
