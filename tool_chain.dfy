/**
  How the tools are meant to be chained: the searched place is geocoded,
  restaurants near it are searched, and the one nearest to the geocoded
  point is recommended.
 */
module ToolChain {

  import opened Optional
  import opened Coordinates
  import opened GetCoordinatesFromQuery
  import opened FindClosestRestaurant

  /**
    When one candidate sits exactly at the geocoded place and the distance
    of a point to itself is zero, the recommendation is at distance zero.
   */
  lemma NearestToGeocodedPlace(query: string, items: Option<seq<LocalItem>>, rs: seq<Restaurant>,
                               dist: (GeoPoint, GeoPoint) -> Km, i: int)
    requires Geocode(query, items).Found?
    requires forall p :: dist(p, p) == 0.0
    requires 0 <= i < |rs| && rs[i].mapx == items.value[0].mapx && rs[i].mapy == items.value[0].mapy
    ensures Closest(GeoPoint(Geocode(query, items).lat, Geocode(query, items).lng), rs, dist).Some?
    ensures Closest(GeoPoint(Geocode(query, items).lat, Geocode(query, items).lng), rs, dist).value.distance == 0.0
  {
    var g := Geocode(query, items);
    var user := GeoPoint(g.lat, g.lng);
    assert Locate(rs[i].mapx, rs[i].mapy) == user;
    assert DistanceTo(user, rs[i], dist) == 0.0;
  }
}
