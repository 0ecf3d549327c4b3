/** The in-place sort of search hits by stored distance. The list sort the
    source uses is stable; any stable sort gives the same result, so the array
    insertion sort here is proved equal to a functional stable sort. */
module DistanceSort {
  import opened Models

  /** Non-decreasing in stored distance. */
  predicate SortedByDistance(s: seq<RestaurantFound>) {
    forall i, j :: 0 <= i < j < |s| ==> s[i].distance <= s[j].distance
  }

  /** The hits of `s` whose stored distance is `d`, in their order in `s`. */
  function WithDistance(s: seq<RestaurantFound>, d: real): seq<RestaurantFound> {
    if s == [] then []
    else (if s[0].distance == d then [s[0]] else []) + WithDistance(s[1..], d)
  }

  /** `t` orders every group of equal distances as `s` does: what a stable
      sort keeps. */
  ghost predicate SameTies(t: seq<RestaurantFound>, s: seq<RestaurantFound>) {
    forall d :: WithDistance(t, d) == WithDistance(s, d)
  }

  lemma WithDistanceCons(x: RestaurantFound, s: seq<RestaurantFound>, d: real)
    ensures WithDistance([x] + s, d) == (if x.distance == d then [x] else []) + WithDistance(s, d)
  {
    assert ([x] + s)[1..] == s;
  }

  lemma {:induction false} WithDistanceAppend(a: seq<RestaurantFound>, b: seq<RestaurantFound>, d: real)
    ensures WithDistance(a + b, d) == WithDistance(a, d) + WithDistance(b, d)
    decreases |a|
  {
    if a != [] {
      var head := if a[0].distance == d then [a[0]] else [];
      calc {
        WithDistance(a + b, d);
        { assert a + b == [a[0]] + (a[1..] + b); WithDistanceCons(a[0], a[1..] + b, d); }
        head + WithDistance(a[1..] + b, d);
        { WithDistanceAppend(a[1..], b, d); }
        head + (WithDistance(a[1..], d) + WithDistance(b, d));
        { assert a == [a[0]] + a[1..]; WithDistanceCons(a[0], a[1..], d); }
        WithDistance(a, d) + WithDistance(b, d);
      }
    } else {
      assert a + b == b;
    }
  }

  /** Every element of the group of distance `d` is in `s` and has distance `d`. */
  lemma {:induction false} WithDistanceMember(s: seq<RestaurantFound>, d: real, x: RestaurantFound)
    requires x in WithDistance(s, d)
    ensures x in s && x.distance == d
  {
    if s[0].distance != d || x != s[0] {
      WithDistanceMember(s[1..], d, x);
    }
  }

  /** Every element of `s` is found in the group of its own distance. */
  lemma {:induction false} WithDistanceFinds(s: seq<RestaurantFound>, i: int)
    requires 0 <= i < |s|
    ensures s[i] in WithDistance(s, s[i].distance)
  {
    if i > 0 {
      WithDistanceFinds(s[1..], i - 1);
    }
  }

  /** Inserts `x` before the first element whose distance is not smaller. */
  function Insert(x: RestaurantFound, s: seq<RestaurantFound>): (r: seq<RestaurantFound>)
    ensures |r| == |s| + 1
    ensures multiset(r) == multiset(s) + multiset{x}
    ensures r[0] == x || (s != [] && r[0] == s[0])
  {
    if s == [] || x.distance <= s[0].distance then [x] + s
    else
      assert s == [s[0]] + s[1..];
      [s[0]] + Insert(x, s[1..])
  }

  lemma {:induction false} InsertSorted(x: RestaurantFound, s: seq<RestaurantFound>)
    requires SortedByDistance(s)
    ensures SortedByDistance(Insert(x, s))
  {
    if s != [] && x.distance > s[0].distance {
      var tail := Insert(x, s[1..]);
      InsertSorted(x, s[1..]);
      var r := [s[0]] + tail;
      forall i, j | 0 <= i < j < |r|
        ensures r[i].distance <= r[j].distance
      {
        if i == 0 {
          assert tail[0] == x || tail[0] == s[1];
          assert r[0].distance <= tail[0].distance;
          assert tail[0].distance <= tail[j - 1].distance || j == 1;
        }
      }
    }
  }

  /** Moving `x` past an element `y` of another distance keeps the group of
      distance `d`. */
  lemma TiesPastOther(x: RestaurantFound, y: RestaurantFound, rest: seq<RestaurantFound>,
                      moved: seq<RestaurantFound>, d: real)
    requires x.distance != y.distance
    requires WithDistance(moved, d) == WithDistance([x] + rest, d)
    ensures WithDistance([y] + moved, d) == WithDistance([x] + ([y] + rest), d)
  {
    var hx := if x.distance == d then [x] else [];
    var hy := if y.distance == d then [y] else [];
    var w := WithDistance(rest, d);
    WithDistanceCons(y, moved, d);
    WithDistanceCons(x, rest, d);
    WithDistanceCons(x, [y] + rest, d);
    WithDistanceCons(y, rest, d);
    assert hx == [] || hy == [];
    assert hy + (hx + w) == hx + (hy + w);
  }

  /** Insert only moves `x` past elements of other distances. */
  lemma {:induction false} InsertTiesAt(x: RestaurantFound, s: seq<RestaurantFound>, d: real)
    ensures WithDistance(Insert(x, s), d) == WithDistance([x] + s, d)
  {
    if s != [] && x.distance > s[0].distance {
      InsertTiesAt(x, s[1..], d);
      TiesPastOther(x, s[0], s[1..], Insert(x, s[1..]), d);
      assert s == [s[0]] + s[1..];
    }
  }

  /** The reference stable sort: insertion sort. */
  function StableSortByDistance(s: seq<RestaurantFound>): (r: seq<RestaurantFound>)
    ensures |r| == |s|
    ensures multiset(r) == multiset(s)
  {
    if s == [] then []
    else
      assert s == [s[0]] + s[1..];
      Insert(s[0], StableSortByDistance(s[1..]))
  }

  lemma {:induction false} StableSortSorted(s: seq<RestaurantFound>)
    ensures SortedByDistance(StableSortByDistance(s))
  {
    if s != [] {
      StableSortSorted(s[1..]);
      InsertSorted(s[0], StableSortByDistance(s[1..]));
    }
  }

  lemma {:induction false} StableSortTiesAt(s: seq<RestaurantFound>, d: real)
    ensures WithDistance(StableSortByDistance(s), d) == WithDistance(s, d)
  {
    if s != [] {
      var rest := StableSortByDistance(s[1..]);
      StableSortTiesAt(s[1..], d);
      InsertTiesAt(s[0], rest, d);
      WithDistanceCons(s[0], rest, d);
      assert s == [s[0]] + s[1..];
      WithDistanceCons(s[0], s[1..], d);
    }
  }

  /** The reference sort orders by distance and keeps the order of ties. */
  lemma StableSortIsStable(s: seq<RestaurantFound>)
    ensures SortedByDistance(StableSortByDistance(s))
    ensures SameTies(StableSortByDistance(s), s)
  {
    StableSortSorted(s);
    forall d
      ensures WithDistance(StableSortByDistance(s), d) == WithDistance(s, d)
    {
      StableSortTiesAt(s, d);
    }
  }

  /** The first element of a sorted sequence has the least distance. */
  lemma SortedHeadLeast(t: seq<RestaurantFound>, x: RestaurantFound)
    requires SortedByDistance(t) && x in t
    ensures t[0].distance <= x.distance
  {
    var i :| 0 <= i < |t| && t[i] == x;
    if i > 0 {
      assert t[0].distance <= t[i].distance;
    }
  }

  /** Two sorted sequences with the same ties start with the same element. */
  lemma SameTiesSameHead(t: seq<RestaurantFound>, u: seq<RestaurantFound>)
    requires SortedByDistance(t) && SortedByDistance(u)
    requires SameTies(t, u)
    requires t != [] && u != []
    ensures t[0] == u[0]
  {
    var k, m := t[0].distance, u[0].distance;
    WithDistanceFinds(u, 0);
    assert WithDistance(u, m) == WithDistance(t, m);
    WithDistanceMember(t, m, u[0]);
    SortedHeadLeast(t, u[0]);
    WithDistanceFinds(t, 0);
    assert WithDistance(t, k) == WithDistance(u, k);
    WithDistanceMember(u, k, t[0]);
    SortedHeadLeast(u, t[0]);
    assert k == m;
    assert WithDistance(t, k) == [t[0]] + WithDistance(t[1..], k);
    assert WithDistance(u, k) == [u[0]] + WithDistance(u[1..], k);
    assert WithDistance(t, k)[0] == t[0];
    assert WithDistance(u, k)[0] == u[0];
  }

  /** Removing a common first element keeps the ties equal. */
  lemma SameTiesTail(t: seq<RestaurantFound>, u: seq<RestaurantFound>)
    requires t != [] && u != [] && t[0] == u[0]
    requires SameTies(t, u)
    ensures SameTies(t[1..], u[1..])
  {
    forall d
      ensures WithDistance(t[1..], d) == WithDistance(u[1..], d)
    {
      var head := if t[0].distance == d then [t[0]] else [];
      assert WithDistance(t, d) == head + WithDistance(t[1..], d);
      assert WithDistance(u, d) == head + WithDistance(u[1..], d);
      assert WithDistance(t[1..], d) == WithDistance(t, d)[|head|..];
    }
  }

  /** A stable sort has only one possible result: two sequences sorted by
      distance with the same ties are equal. */
  lemma {:induction false} StableSortUnique(t: seq<RestaurantFound>, u: seq<RestaurantFound>)
    requires SortedByDistance(t) && SortedByDistance(u)
    requires SameTies(t, u)
    ensures t == u
    decreases |t|
  {
    if t == [] || u == [] {
      if t != [] {
        WithDistanceFinds(t, 0);
      } else if u != [] {
        WithDistanceFinds(u, 0);
      }
    } else {
      SameTiesSameHead(t, u);
      SameTiesTail(t, u);
      StableSortUnique(t[1..], u[1..]);
      assert t == [t[0]] + t[1..];
      assert u == [u[0]] + u[1..];
    }
  }

  /** `s` with its neighbours at `j - 1` and `j` exchanged. */
  function Swapped(s: seq<RestaurantFound>, j: int): seq<RestaurantFound>
    requires 0 < j < |s|
  {
    s[j - 1 := s[j]][j := s[j - 1]]
  }

  /** Swapping two neighbours of different distances keeps every group of ties. */
  lemma SwapKeepsTies(s: seq<RestaurantFound>, j: int)
    requires 0 < j < |s|
    requires s[j - 1].distance != s[j].distance
    ensures SameTies(Swapped(s, j), s)
  {
    forall d
      ensures WithDistance(Swapped(s, j), d) == WithDistance(s, d)
    {
      var p, q := s[..j - 1], s[j + 1..];
      assert s == p + ([s[j - 1]] + [s[j]]) + q;
      assert Swapped(s, j) == p + ([s[j]] + [s[j - 1]]) + q;
      WithDistanceAppend(p + ([s[j]] + [s[j - 1]]), q, d);
      WithDistanceAppend(p, [s[j]] + [s[j - 1]], d);
      WithDistanceAppend(p + ([s[j - 1]] + [s[j]]), q, d);
      WithDistanceAppend(p, [s[j - 1]] + [s[j]], d);
      WithDistanceAppend([s[j]], [s[j - 1]], d);
      WithDistanceAppend([s[j - 1]], [s[j]], d);
    }
  }

  /** During insertion of the element now at `j`: the prefix up to `i` is
      sorted apart from position `j`, and the element at `j` is strictly
      nearer than everything after it up to `i`. */
  ghost predicate Inserting(s: seq<RestaurantFound>, i: int, j: int)
    requires 0 <= j <= i < |s|
  {
    && (forall p, q :: 0 <= p < q <= i && p != j && q != j ==> s[p].distance <= s[q].distance)
    && (forall q :: j < q <= i ==> s[j].distance < s[q].distance)
  }

  lemma InsertingStart(s: seq<RestaurantFound>, i: int)
    requires 0 <= i < |s| && SortedByDistance(s[..i])
    ensures Inserting(s, i, i)
  {
    forall p, q | 0 <= p < q < i
      ensures s[p].distance <= s[q].distance
    {
      assert s[..i][p] == s[p] && s[..i][q] == s[q];
    }
  }

  lemma InsertingStep(s: seq<RestaurantFound>, i: int, j: int)
    requires 0 < j <= i < |s| && Inserting(s, i, j)
    requires s[j - 1].distance > s[j].distance
    ensures Inserting(Swapped(s, j), i, j - 1)
  {
  }

  lemma InsertingDone(s: seq<RestaurantFound>, i: int, j: int)
    requires 0 <= j <= i < |s| && Inserting(s, i, j)
    requires j == 0 || s[j - 1].distance <= s[j].distance
    ensures SortedByDistance(s[..i + 1])
  {
    forall p, q | 0 <= p < q <= i
      ensures s[p].distance <= s[q].distance
    {
      if q == j && p < j - 1 {
        assert s[p].distance <= s[j - 1].distance;
      }
    }
  }

  /** Sorts the array in place by stored distance, keeping the order of ties:
      the result is the one every stable sort gives. */
  method SortByDistance(a: array<RestaurantFound>)
    modifies a
    ensures a[..] == StableSortByDistance(old(a[..]))
  {
    var i := 0;
    while i < a.Length
      invariant 0 <= i <= a.Length
      invariant SortedByDistance(a[..i])
      invariant SameTies(a[..], old(a[..]))
    {
      InsertingStart(a[..], i);
      var j := i;
      while j > 0 && a[j - 1].distance > a[j].distance
        invariant 0 <= j <= i
        invariant Inserting(a[..], i, j)
        invariant SameTies(a[..], old(a[..]))
      {
        ghost var before := a[..];
        SwapKeepsTies(before, j);
        InsertingStep(before, i, j);
        a[j - 1], a[j] := a[j], a[j - 1];
        assert a[..] == Swapped(before, j);
        j := j - 1;
      }
      InsertingDone(a[..], i, j);
      i := i + 1;
    }
    assert a[..] == a[..a.Length];
    StableSortIsStable(old(a[..]));
    StableSortUnique(a[..], StableSortByDistance(old(a[..])));
  }
}
