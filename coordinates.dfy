/**
  Coordinates of the Naver local-search API. A place's `mapx` (longitude) and
  `mapy` (latitude) arrive as integers scaled by 10^7; the chat route divides
  them by 1e7 to obtain degrees.
 */
module Coordinates {

  /** A point on the globe, in degrees. */
  datatype GeoPoint = GeoPoint(lat: real, lng: real)

  /** A distance in kilometres: never negative. */
  type Km = d: real | 0.0 <= d

  /** The scale factor of an encoded coordinate (1e7). */
  const Scale: real := 10000000.0

  /** Degrees from an encoded coordinate. */
  function Decode(encoded: int): (deg: real)
    ensures deg * Scale == encoded as real
    ensures 0 <= encoded <==> 0.0 <= deg
  {
    encoded as real / Scale
  }

  /** No two encodings decode to the same degree value. */
  lemma DecodeInjective(a: int, b: int)
    requires Decode(a) == Decode(b)
    ensures a == b
  {
  }

  /** Decoding keeps the order of encoded values. */
  lemma DecodeMonotonic(a: int, b: int)
    ensures a <= b <==> Decode(a) <= Decode(b)
  {
  }

  /** The point of a place: `mapy` is its latitude and `mapx` its longitude. */
  function Locate(mapx: int, mapy: int): (p: GeoPoint)
    ensures p.lat * Scale == mapy as real
    ensures p.lng * Scale == mapx as real
  {
    GeoPoint(Decode(mapy), Decode(mapx))
  }
}
