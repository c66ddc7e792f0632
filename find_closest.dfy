/**
  The `findClosestRestaurant` tool: among the candidate restaurants, pick the
  one nearest to the reference point and attach its distance.

  The haversine distance is not modelled: it is the parameter `dist`, any
  function from two points to a non-negative number of kilometres.
 */
module FindClosestRestaurant {

  import opened Optional
  import opened Coordinates

  /** A candidate as the tool receives it, with `mapx` and `mapy` already parsed. */
  datatype Restaurant = Restaurant(title: string, mapx: int, mapy: int, roadAddress: string, link: string)

  /** `{ ...restaurant, distance }`: the candidate with every field kept, plus its distance. */
  datatype Ranked = Ranked(restaurant: Restaurant, distance: Km)

  /** The running minimum: JavaScript's `Infinity` before any candidate is kept. */
  datatype Bound = Infinity | Finite(value: real)

  /** The distance from `user` to a candidate's decoded position. */
  function DistanceTo(user: GeoPoint, r: Restaurant, dist: (GeoPoint, GeoPoint) -> Km): (d: Km)
  {
    dist(user, Locate(r.mapx, r.mapy))
  }

  /**
    A candidate's distance is measured from `user` (first argument) to the
    point whose latitude scales to `mapy` and whose longitude scales to `mapx`.
   */
  lemma DistanceToDecodedPoint(user: GeoPoint, r: Restaurant, dist: (GeoPoint, GeoPoint) -> Km, p: GeoPoint)
    requires p.lat * Scale == r.mapy as real && p.lng * Scale == r.mapx as real
    ensures DistanceTo(user, r, dist) == dist(user, p)
  {
    assert Locate(r.mapx, r.mapy) == p;
  }

  /** `d < minDistance` on a bound that may be infinite. */
  function Below(d: real, b: Bound): (r: bool)
    ensures b.Infinity? ==> r
    ensures b.Finite? ==> (r <==> d < b.value)
  {
    b.Infinity? || d < b.value
  }

  /**
    Index `k` holds a candidate at the minimum distance, and every candidate
    before it is strictly farther.
   */
  ghost predicate IsFirstNearest(user: GeoPoint, rs: seq<Restaurant>, dist: (GeoPoint, GeoPoint) -> Km, k: int)
  {
    0 <= k < |rs| &&
    (forall j :: 0 <= j < |rs| ==> DistanceTo(user, rs[k], dist) <= DistanceTo(user, rs[j], dist)) &&
    (forall j :: 0 <= j < k ==> DistanceTo(user, rs[k], dist) < DistanceTo(user, rs[j], dist))
  }

  /**
    Reference definition of the winner's index, independent of the tool's
    loop: it recurses from the front and prefers the head on a tie.
   */
  function FirstNearestIndex(user: GeoPoint, rs: seq<Restaurant>, dist: (GeoPoint, GeoPoint) -> Km): (k: nat)
    requires rs != []
    ensures IsFirstNearest(user, rs, dist, k)
    decreases |rs|
  {
    if |rs| == 1 then 0
    else
      var k' := FirstNearestIndex(user, rs[1..], dist);
      if DistanceTo(user, rs[0], dist) <= DistanceTo(user, rs[1 + k'], dist) then 0 else 1 + k'
  }

  /** At most one index is the first at the minimum distance. */
  lemma FirstNearestUnique(user: GeoPoint, rs: seq<Restaurant>, dist: (GeoPoint, GeoPoint) -> Km, k: int)
    requires IsFirstNearest(user, rs, dist, k)
    ensures k == FirstNearestIndex(user, rs, dist)
  {
  }

  /** The outcome the tool promises: no result for no candidates, else the first nearest one. */
  function Closest(user: GeoPoint, rs: seq<Restaurant>, dist: (GeoPoint, GeoPoint) -> Km): (c: Option<Ranked>)
    ensures c.None? <==> rs == []
    ensures c.Some? ==> c.value.restaurant in rs
    ensures c.Some? ==> c.value.distance == DistanceTo(user, c.value.restaurant, dist)
    ensures c.Some? ==> forall j :: 0 <= j < |rs| ==> c.value.distance <= DistanceTo(user, rs[j], dist)
  {
    if rs == [] then None
    else
      var k := FirstNearestIndex(user, rs, dist);
      Some(Ranked(rs[k], DistanceTo(user, rs[k], dist)))
  }

  /**
    Tie-break: the winner is the candidate of lowest index among those at
    the minimum distance.
   */
  lemma ClosestIsFirstAtMinimum(user: GeoPoint, rs: seq<Restaurant>, dist: (GeoPoint, GeoPoint) -> Km, k: int)
    requires 0 <= k < |rs|
    requires forall j :: 0 <= j < |rs| ==> DistanceTo(user, rs[k], dist) <= DistanceTo(user, rs[j], dist)
    requires forall j :: 0 <= j < k ==> DistanceTo(user, rs[k], dist) < DistanceTo(user, rs[j], dist)
    ensures Closest(user, rs, dist) == Some(Ranked(rs[k], DistanceTo(user, rs[k], dist)))
  {
    FirstNearestUnique(user, rs, dist, k);
  }

  /**
    One more candidate replaces the current winner exactly when it is
    strictly nearer; this is the step the tool's loop takes.
   */
  lemma {:induction false} ClosestSnoc(user: GeoPoint, rs: seq<Restaurant>, r: Restaurant, dist: (GeoPoint, GeoPoint) -> Km)
    ensures Closest(user, rs + [r], dist) ==
      match Closest(user, rs, dist)
      case None => Some(Ranked(r, DistanceTo(user, r, dist)))
      case Some(best) =>
        if DistanceTo(user, r, dist) < best.distance then Some(Ranked(r, DistanceTo(user, r, dist)))
        else Some(best)
  {
    var s := rs + [r];
    var n := |rs|;
    assert s[n] == r;
    if rs == [] {
      ClosestIsFirstAtMinimum(user, s, dist, 0);
    } else {
      var k := FirstNearestIndex(user, rs, dist);
      if DistanceTo(user, r, dist) < DistanceTo(user, rs[k], dist) {
        ClosestIsFirstAtMinimum(user, s, dist, n);
      } else {
        assert s[k] == rs[k];
        ClosestIsFirstAtMinimum(user, s, dist, k);
      }
    }
  }

  /**
    Candidates appended later that are no nearer than the current winner do
    not change it: the first candidate reached at the minimum stays.
   */
  lemma {:induction false} ClosestKeepsFirstReached(user: GeoPoint, rs: seq<Restaurant>, more: seq<Restaurant>, dist: (GeoPoint, GeoPoint) -> Km)
    requires rs != []
    requires forall j :: 0 <= j < |more| ==> Closest(user, rs, dist).value.distance <= DistanceTo(user, more[j], dist)
    ensures Closest(user, rs + more, dist) == Closest(user, rs, dist)
    decreases |more|
  {
    if more == [] {
      assert rs + more == rs;
    } else {
      var init := more[..|more| - 1];
      var last := more[|more| - 1];
      assert more == init + [last];
      ClosestKeepsFirstReached(user, rs, init, dist);
      assert rs + more == (rs + init) + [last];
      ClosestSnoc(user, rs + init, last, dist);
    }
  }

  /** The kept distance never grows as candidates are added. */
  lemma ClosestNeverFartherWithMore(user: GeoPoint, rs: seq<Restaurant>, more: seq<Restaurant>, dist: (GeoPoint, GeoPoint) -> Km)
    requires rs != []
    ensures Closest(user, rs + more, dist).value.distance <= Closest(user, rs, dist).value.distance
  {
    var k := FirstNearestIndex(user, rs, dist);
    assert (rs + more)[k] == rs[k];
  }

  /**
    The tool's `execute`: a single pass that keeps `closest` and
    `minDistance` and replaces them only on a strictly smaller distance.
   */
  method FindClosest(user: GeoPoint, restaurants: seq<Restaurant>, dist: (GeoPoint, GeoPoint) -> Km)
    returns (closest: Option<Ranked>)
    ensures closest == Closest(user, restaurants, dist)
  {
    closest := None;
    var minDistance := Infinity;
    var i := 0;
    while i < |restaurants|
      invariant 0 <= i <= |restaurants|
      invariant closest == Closest(user, restaurants[..i], dist)
      invariant closest.None? ==> minDistance == Infinity
      invariant closest.Some? ==> minDistance == Finite(closest.value.distance)
    {
      var restaurant := restaurants[i];
      var lat := Decode(restaurant.mapy);
      var lng := Decode(restaurant.mapx);
      var distance := dist(user, GeoPoint(lat, lng));
      if Below(distance, minDistance) {
        minDistance := Finite(distance);
        closest := Some(Ranked(restaurant, distance));
      }
      ClosestSnoc(user, restaurants[..i], restaurant, dist);
      assert restaurants[..i + 1] == restaurants[..i] + [restaurant];
      i := i + 1;
    }
    assert restaurants[..i] == restaurants;
  }
}
