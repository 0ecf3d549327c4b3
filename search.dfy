/** The radius search: keep the restaurants whose raw distance to the query
    centre is at most the radius, wrap each with its rounded distance, and sort
    the hits nearest first, stably. The distance formula and the rounding are
    floating-point library calls and come in as the parameters `dist` and
    `round2`. */
module RadiusSearch {
  import opened Models
  import opened DistanceSort

  /** The raw distance from the restaurant to the query centre is within the
      radius; the boundary is included. */
  predicate Within(restaurant: Restaurant, query: SearchQuery, dist: (Coordinate, Coordinate) -> real) {
    dist(restaurant.coordinate, query.coordinate) <= query.radius as real
  }

  /** The hit the search builds for a restaurant. */
  function Hit(restaurant: Restaurant, query: SearchQuery, dist: (Coordinate, Coordinate) -> real,
               round2: real -> real): RestaurantFound {
    NewRestaurantFound(restaurant, dist(restaurant.coordinate, query.coordinate), round2)
  }

  /** The filtering comprehension: the hits of the restaurants within the
      radius, in input order. */
  function Matches(restaurants: seq<Restaurant>, query: SearchQuery, dist: (Coordinate, Coordinate) -> real,
                   round2: real -> real): (m: seq<RestaurantFound>)
    ensures |m| <= |restaurants|
    ensures forall x :: x in m ==>
      x.restaurant in restaurants && Within(x.restaurant, query, dist) && x == Hit(x.restaurant, query, dist, round2)
    ensures forall r :: r in restaurants && Within(r, query, dist) ==> Hit(r, query, dist, round2) in m
  {
    if restaurants == [] then
      []
    else
      var rest := Matches(restaurants[1..], query, dist, round2);
      assert forall r :: r in restaurants[1..] ==> r in restaurants;
      assert forall r :: r in restaurants ==> r == restaurants[0] || r in restaurants[1..];
      if Within(restaurants[0], query, dist) then [Hit(restaurants[0], query, dist, round2)] + rest else rest
  }

  /** The matches of a single restaurant: its hit when it is within the
      radius, nothing otherwise. */
  lemma MatchesSingle(r: Restaurant, query: SearchQuery, dist: (Coordinate, Coordinate) -> real,
                      round2: real -> real)
    ensures Matches([r], query, dist, round2) == if Within(r, query, dist) then [Hit(r, query, dist, round2)] else []
  {
    assert [r][1..] == [];
  }

  /** The matches of a concatenation are the matches of each part, in order:
      one hit per restaurant within the radius, in input order. */
  lemma {:induction false} MatchesAppend(a: seq<Restaurant>, b: seq<Restaurant>, query: SearchQuery,
                                         dist: (Coordinate, Coordinate) -> real, round2: real -> real)
    ensures Matches(a + b, query, dist, round2) == Matches(a, query, dist, round2) + Matches(b, query, dist, round2)
    decreases |a|
  {
    if a == [] {
      assert a + b == b;
    } else {
      assert (a + b)[0] == a[0];
      assert (a + b)[1..] == a[1..] + b;
      MatchesAppend(a[1..], b, query, dist, round2);
    }
  }

  /** What the search returns: the matches, stably sorted by stored distance. */
  function Search(restaurants: seq<Restaurant>, query: SearchQuery, dist: (Coordinate, Coordinate) -> real,
                  round2: real -> real): seq<RestaurantFound> {
    StableSortByDistance(Matches(restaurants, query, dist, round2))
  }

  /** The search: builds the list of matches, then sorts it in place. */
  method SearchRestaurant(restaurants: seq<Restaurant>, query: SearchQuery,
                          dist: (Coordinate, Coordinate) -> real, round2: real -> real)
    returns (found: seq<RestaurantFound>)
    ensures found == Search(restaurants, query, dist, round2)
  {
    var matches := Matches(restaurants, query, dist, round2);
    var hits := new RestaurantFound[|matches|](i requires 0 <= i < |matches| => matches[i]);
    assert hits[..] == matches;
    SortByDistance(hits);
    found := hits[..];
  }

  /** Every hit is a restaurant of the input within the radius, carrying its
      rounded distance; every restaurant within the radius is among the hits. */
  lemma SearchFindsExactlyWithin(restaurants: seq<Restaurant>, query: SearchQuery,
                                 dist: (Coordinate, Coordinate) -> real, round2: real -> real)
    ensures forall x :: x in Search(restaurants, query, dist, round2) ==>
      && x.restaurant in restaurants
      && Within(x.restaurant, query, dist)
      && x.distance == round2(dist(x.restaurant.coordinate, query.coordinate))
    ensures forall r :: r in restaurants && Within(r, query, dist) ==>
      Hit(r, query, dist, round2) in Search(restaurants, query, dist, round2)
  {
    var m := Matches(restaurants, query, dist, round2);
    assert forall x :: x in Search(restaurants, query, dist, round2) <==> x in multiset(m);
  }

  /** The result is a permutation of the matches, non-decreasing in stored
      distance, and hits of equal stored distance keep their input order. */
  lemma {:induction false} SearchOrdered(restaurants: seq<Restaurant>, query: SearchQuery,
                                         dist: (Coordinate, Coordinate) -> real, round2: real -> real)
    ensures multiset(Search(restaurants, query, dist, round2)) == multiset(Matches(restaurants, query, dist, round2))
    ensures SortedByDistance(Search(restaurants, query, dist, round2))
    ensures SameTies(Search(restaurants, query, dist, round2), Matches(restaurants, query, dist, round2))
  {
    StableSortIsStable(Matches(restaurants, query, dist, round2));
  }

  /** No restaurant within the radius (in particular, no restaurant at all):
      the result is empty. At most one hit per restaurant. */
  lemma SearchEmptyAndBounded(restaurants: seq<Restaurant>, query: SearchQuery,
                              dist: (Coordinate, Coordinate) -> real, round2: real -> real)
    ensures |Search(restaurants, query, dist, round2)| <= |restaurants|
    ensures (forall r :: r in restaurants ==> !Within(r, query, dist)) ==> Search(restaurants, query, dist, round2) == []
  {
  }

  /** Matches for a smaller radius are a sub-multiset of those for a larger one. */
  lemma {:induction false} MatchesMonotone(restaurants: seq<Restaurant>, small: SearchQuery, large: SearchQuery,
                                           dist: (Coordinate, Coordinate) -> real, round2: real -> real)
    requires small.coordinate == large.coordinate && small.radius <= large.radius
    ensures multiset(Matches(restaurants, small, dist, round2)) <= multiset(Matches(restaurants, large, dist, round2))
  {
    if restaurants != [] {
      MatchesMonotone(restaurants[1..], small, large, dist, round2);
      assert Hit(restaurants[0], small, dist, round2) == Hit(restaurants[0], large, dist, round2);
    }
  }

  /** Narrowing the radius around the same centre can only drop hits. */
  lemma NarrowerRadiusSubset(restaurants: seq<Restaurant>, small: SearchQuery, large: SearchQuery,
                             dist: (Coordinate, Coordinate) -> real, round2: real -> real)
    requires small.coordinate == large.coordinate && small.radius <= large.radius
    ensures multiset(Search(restaurants, small, dist, round2)) <= multiset(Search(restaurants, large, dist, round2))
    ensures |Search(restaurants, small, dist, round2)| <= |Search(restaurants, large, dist, round2)|
  {
    MatchesMonotone(restaurants, small, large, dist, round2);
    SearchOrdered(restaurants, small, dist, round2);
    SearchOrdered(restaurants, large, dist, round2);
    var a := multiset(Search(restaurants, small, dist, round2));
    var b := multiset(Search(restaurants, large, dist, round2));
    assert b == a + (b - a);
  }
}
