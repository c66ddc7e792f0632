/**
  The `getCoordinatesFromQuery` tool: the local-search API is asked for one
  place matching a name or address, and the first item of its answer is
  shaped into a title, an address and a decoded latitude and longitude.
 */
module GetCoordinatesFromQuery {

  import opened Optional
  import opened Coordinates

  /** One item of a local-search answer, with `mapx` and `mapy` already parsed. */
  datatype LocalItem = LocalItem(title: string, mapx: int, mapy: int, address: string, roadAddress: string)

  /** What the tool hands back to the model: an error payload, or the place found. */
  datatype Geocoded =
    | NotFound(error: string)
    | Found(title: string, address: string, lat: real, lng: real)

  const NotFoundTail: string := "'에 대한 좌표를 찾을 수 없습니다."

  /** The error text for a query with no match: the query quoted, then "coordinates not found". */
  function NotFoundMessage(query: string): (m: string)
    ensures |m| == |query| + 1 + |NotFoundTail|
    ensures m[0] == '\'' && m[1..|query| + 1] == query
  {
    "'" + query + NotFoundTail
  }

  /** The original query can be read back from the error text. */
  lemma NotFoundMessageNamesQuery(a: string, b: string)
    requires NotFoundMessage(a) == NotFoundMessage(b)
    ensures a == b
  {
    assert a == NotFoundMessage(a)[1..|a| + 1];
  }

  /** JavaScript's `roadAddress || address`: an empty road address falls back to the lot address. */
  function PreferredAddress(item: LocalItem): (a: string)
    ensures a == item.roadAddress || a == item.address
    ensures a != "" <==> (item.roadAddress != "" || item.address != "")
    ensures item.roadAddress != "" ==> a == item.roadAddress
  {
    if item.roadAddress != "" then item.roadAddress else item.address
  }

  /**
    The tool's result for `query`, given the answer's `items` (None when the
    answer has no `items` field).
   */
  function Geocode(query: string, items: Option<seq<LocalItem>>): (r: Geocoded)
    ensures r.NotFound? <==> items.None? || items.value == []
    ensures r.NotFound? ==> r.error == NotFoundMessage(query)
    ensures r.Found? ==> r.title == items.value[0].title
    ensures r.Found? ==> r.lat * Scale == items.value[0].mapy as real
    ensures r.Found? ==> r.lng * Scale == items.value[0].mapx as real
    ensures r.Found? && items.value[0].roadAddress != "" ==> r.address == items.value[0].roadAddress
    ensures r.Found? && items.value[0].roadAddress == "" ==> r.address == items.value[0].address
  {
    if items.None? || |items.value| == 0 then
      NotFound(NotFoundMessage(query))
    else
      var item := items.value[0];
      var p := Locate(item.mapx, item.mapy);
      Found(item.title, PreferredAddress(item), p.lat, p.lng)
  }

  /** Only the first item of a non-empty answer matters. */
  lemma GeocodeUsesFirstItemOnly(query: string, first: LocalItem, rest: seq<LocalItem>)
    ensures Geocode(query, Some([first] + rest)) == Geocode(query, Some([first]))
  {
  }
}
