/**
  The `getRestaurant` tool: it turns the area the user asked about into the
  free-text query sent to the local-search API.
 */
module GetRestaurant {

  /** The fixed search term appended to the area ("matjip", a good place to eat). */
  const Suffix: string := " 맛집"

  /** The search query for an area: the area followed by the suffix. */
  function SearchQuery(location: string): (query: string)
    ensures |query| == |location| + 3
    ensures query[..|location|] == location
    ensures query[|location|..] == [' ', '맛', '집']
  {
    location + Suffix
  }

  /** Different areas are never sent as the same query. */
  lemma SearchQueryInjective(a: string, b: string)
    requires SearchQuery(a) == SearchQuery(b)
    ensures a == b
  {
    assert a == SearchQuery(a)[..|a|];
  }
}
