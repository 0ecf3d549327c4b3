# Restaurant radius search: a Dafny model

This project models the search-and-normalise pipeline of a small geospatial
lookup tool. The tool loads a GeoJSON feature collection of restaurants and
turns each Point feature into a restaurant record. It then answers radius
queries: "which restaurants lie within R metres of point P", nearest first.

The model has three parts:

- **Feature normalisation** (`LoadData.Normalize`). A feature is checked for
  a `"Point"` geometry first. Then its `full_id` and `name` properties are
  copied, and its coordinate sequence is reversed. GeoJSON stores a position
  as (longitude, latitude), following section 3.1.1 of RFC 7946. The domain
  uses (latitude, longitude). Absent keys become `MissingKey(key)`, naming
  the first key looked up and not found. A non-Point geometry becomes
  `NotAValidPoint`.
- **Load mapping** (`LoadData.Load`). Each feature is normalised and then
  converted to a `Restaurant`, in order. The first failure aborts the whole
  batch. The record-to-Restaurant conversion is a parameter of `Load`. Two
  conversions are defined: the one the code performs (`ConvertAsWritten`)
  and the intended one (`Convert`). See Findings.
- **Radius search** (`RadiusSearch`). Restaurants are kept when their raw
  distance to the query centre is at most the radius; the boundary counts as
  inside. Each match is wrapped in a `RestaurantFound`, whose constructor
  rounds the distance once. The list is then sorted in place by the stored
  (rounded) distance with a stable sort. The distance formula (haversine)
  and the two-decimal rounding are floating-point library calls. They are
  parameters `dist` and `round2` of the search, with no properties assumed.
  The in-place sort is an array insertion sort (`DistanceSort.SortByDistance`).
  It is proved equal to a functional stable sort. `StableSortUnique` shows
  that every stable sort gives this same result, so the sort used by the
  source (Timsort) gives it too.

`SearchQuery.radius` has the subset type `PositiveInt` (`n > 0`), as
`models/models/search_query.py` declares it.

Two choices the code makes:

- The code aborts the whole load on the first bad feature. It does not skip
  that feature.
- The code reads only `properties.full_id`. There is no fallback to `id`.

## Model

| member | source | states |
|---|---|---|
| `LoadData.Normalize` | backend/backend/load_data.py:50-72 | `NotAValidPoint` exactly when a geometry type is present and is not "Point". Success exactly when the feature is a complete Point. Every other failure is a `MissingKey`. On success, `full_id` and `name` are copied and the coordinates are the GeoJSON position reversed, element by element |
| `LoadData.MissingKeyReported` | backend/backend/load_data.py:63-71 | Which key is reported: `geometry`, `type` or `properties` when absent, then the first absent one of `full_id`, `name` and `coordinates` for a Point with properties. The geometry check runs first, so a non-Point feature without properties still reports `NotAValidPoint` |
| `LoadData.Reversed` | backend/backend/load_data.py:71 | The reversed sequence has the same length, and element `i` is element `n - 1 - i` of the input |
| `LoadData.ReversedTwice` | backend/backend/load_data.py:71 | Reversing a coordinate sequence twice gives it back |
| `LoadData.NormalizeRoundTrip` | backend/backend/load_data.py:65-71 | Reversing the normalised coordinates gives back the feature's GeoJSON position exactly |
| `LoadData.NormalizeSwapsAxes` | backend/backend/load_data.py:65-71 | A GeoJSON pair [longitude, latitude] comes out as [latitude, longitude] |
| `LoadData.NormalizeIgnoresOtherProperties` | backend/backend/load_data.py:68-72 | Two features with the same geometry and the same `full_id`/`name` entries normalise alike. No other property influences the result |
| `LoadData.SeveroExample` | backend/tests/test_load_data.py:93-374 | The Le Severo feature, with extra properties, gives the record with latitude 48.8319929 first |
| `LoadData.FailureExamples` | backend/tests/test_load_data.py:377-386 | `{"geometry": {"type": "Something"}}` gives `NotAValidPoint`. The empty feature gives a missing `geometry` key |
| `LoadData.LoadOne` | backend/backend/load_data.py:133-135 | One feature succeeds exactly when normalisation and then the conversion succeed. A normalisation error is reported as is, before any conversion |
| `LoadData.Load` | backend/backend/load_data.py:132-137 | The load succeeds exactly when every feature succeeds. The output then matches the input one-to-one and in order. On failure, the error is the one of the first failing feature, and every earlier feature succeeded |
| `Models.NewRestaurantFound` | models/models/restaurant_found.py:12-14 | A hit keeps the restaurant, and its stored distance is the raw distance rounded once by `round2` |
| `Models.ValidateRestaurant` | models/models/restaurant.py:7-10 | A record validates exactly when the declared fields `id`, `name` and `coordinate` are present and well-formed. Failure lists exactly the offending fields, in declaration order. Success copies the fields |
| `LoadData.ConvertAsWritten` | backend/backend/load_data.py:75-85 | The record as normalisation emits it (`full_id`, `coordinates`) always fails validation, with fields `id` and `coordinate` missing |
| `LoadData.AsWrittenLoadFails` | backend/backend/load_data.py:132-137 | As written, a load succeeds only on the empty feature list |
| `LoadData.Convert` | models/models/restaurant.py:7-10 | With keys renamed to the declared fields, a record converts exactly when its coordinates are an in-range pair. The result carries the record's identifier, name and (latitude, longitude) |
| `LoadData.LoadRestaurantsSucceeds` | backend/backend/load_data.py:132-137 | With the intended conversion, a batch loads exactly when every feature is a complete Point with an in-range pair. Each restaurant carries its feature's `full_id`, `name` and position with the axes swapped |
| `DistanceSort.Insert` | backend/backend/load_data.py:116 | Insertion adds exactly one element: the new multiset is the old one plus `x` |
| `DistanceSort.StableSortByDistance` | backend/backend/load_data.py:116 | The reference sort is a permutation of its input |
| `DistanceSort.StableSortIsStable` | backend/backend/load_data.py:116 | The reference sort is non-decreasing in stored distance and keeps the input order among equal distances |
| `DistanceSort.StableSortUnique` | backend/backend/load_data.py:116 | Two sequences that are sorted by distance and have the same order within every group of equal distances are equal. So any stable sort gives the same result |
| `DistanceSort.SortByDistance` | backend/backend/load_data.py:116 | The in-place array sort leaves the array equal to the stable sort of its old contents |
| `RadiusSearch.Matches` | backend/backend/load_data.py:103-114 | Each match wraps an input restaurant within the radius and carries its rounded distance. Every restaurant within the radius is matched. There are no more matches than restaurants |
| `RadiusSearch.MatchesSingle` | backend/backend/load_data.py:103-114 | One restaurant gives its hit exactly when it is within the radius, and nothing otherwise |
| `RadiusSearch.MatchesAppend` | backend/backend/load_data.py:103-114 | The matches of a concatenation are the matches of each part in order. With `MatchesSingle`, each restaurant within the radius gives exactly one hit, in input order |
| `RadiusSearch.SearchRestaurant` | backend/backend/load_data.py:88-117 | The method's result equals the specification `Search`: the matches, stably sorted by stored distance |
| `RadiusSearch.SearchFindsExactlyWithin` | backend/backend/load_data.py:103-114 | Every result is an input restaurant whose raw distance is at most the radius (boundary included), with distance `round2` of that raw distance. Every such restaurant appears in the result |
| `RadiusSearch.SearchOrdered` | backend/backend/load_data.py:116 | The result is a permutation of the matches. It is non-decreasing in stored distance. Results with equal stored distance keep their input order |
| `RadiusSearch.SearchEmptyAndBounded` | backend/backend/load_data.py:103-117 | The result is no longer than the input. It is empty when no restaurant is within the radius, in particular when the input is empty |
| `RadiusSearch.MatchesMonotone` | backend/backend/load_data.py:103-114 | Around the same centre, the matches for a smaller radius form a sub-multiset of those for a larger one |
| `RadiusSearch.NarrowerRadiusSubset` | backend/tests/test_load_data.py:405-420 | Around the same centre, a smaller radius returns a sub-multiset of the larger radius's results, and no more of them (7 at 50 m versus 8 at 100 m in the tests) |

## Findings

| source | as written | input that shows it | evidently intended | confidence | as-written member | corrected member |
|---|---|---|---|---|---|---|
| backend/backend/load_data.py:68-72 | Normalisation emits the keys `full_id` and `coordinates`. `Restaurant` (models/models/restaurant.py:8-10) declares `id` and `coordinate` and defines no aliases. So `from_restaurant_json_to_pydantic` rejects every record, and `load_data` fails on any non-empty feature list | the Le Severo feature of backend/tests/test_load_data.py:93-374 | records keyed `id` and `coordinate`, as the fixture at backend/tests/test_load_data.py:17-22 expects. The source disagrees with itself the same way elsewhere: the test at backend/tests/test_load_data.py:371-374 compares the `full_id`/`coordinates` output with that `id`/`coordinate` fixture, while models/tests/test_restaurant_found.py:6-8 validates a `full_id`/`coordinates` dict, and the docstring at backend/backend/load_data.py:79-80 documents the input as `full_id` (to become `id`), `name` and `coordinate`. Those suggest aliases on `Restaurant` as another reading, which gives the same behaviour as `LoadData.Convert` | not executed; high: no alias configuration appears on `Restaurant` | `LoadData.AsWrittenLoadFails` | `LoadData.LoadRestaurantsSucceeds` |

## Left out

- `read_restaurants_data` (file reading, JSON decoding and logging) is I/O. Load starts from the decoded feature list.
- The `timing` decorator measures wall-clock time and prints it. It is instrumentation only.
- `main` parses command-line options and prints results. This is I/O.
- The haversine distance is a foreign floating-point computation. It is the parameter `dist`, and no property of it is assumed.
- `round(v, 2)` is floating-point rounding. It is the parameter `round2`, applied once when a `RestaurantFound` is built (`Models.NewRestaurantFound`). The rounding test of models/tests/test_restaurant_found.py is therefore not modelled.
- `RestaurantFound.__str__` is display formatting only.
- Restaurant validation is a library outside this model. `Models.ValidateRestaurant` keeps only the required-field check, the value shapes and the latitude/longitude ranges. The ranges (`Models.InRange`) are an assumption, not derived from the library. Validation of the query's coordinate is not modelled.
- Feature values are limited: property values are strings and coordinates are reals. A `geometry` or `properties` that is present but not an object (a `TypeError` in the source) is not modelled.
- Floating-point numbers are modelled as reals. NaN and infinities are not modelled.
