# Nearest-restaurant selection of the restaurant chat bot

The chat route of this restaurant-recommending chat bot offers a language
model three tools: `getRestaurant` (search an area for restaurants),
`getCoordinatesFromQuery` (geocode a place name) and `findClosestRestaurant`
(pick the candidate nearest to a reference point). This project models the
logic inside those tools:

- `Coordinates` (coordinates.dfy): the local-search API's encoded coordinates,
  integers scaled by 10^7, decoded to degrees; `mapy` is the latitude and
  `mapx` the longitude.
- `GetRestaurant` (get_restaurant.dfy): the search query, the area followed
  by `" 맛집"`.
- `GetCoordinatesFromQuery` (get_coordinates.dfy): shaping the local-search
  answer into an error payload or the first item's title, address and point.
- `FindClosestRestaurant` (find_closest.dfy): the arg-min loop, a method with a
  `while` loop over the candidates that keeps `closest` and `minDistance` and
  replaces them only on a strictly smaller distance. It is proved equal to
  `Closest`, a reference definition built on `FirstNearestIndex`, which
  recurses from the front of the list. Lemmas about `Closest` state
  minimality, the first-reached tie-break and the single loop step.
- `ToolChain` (tool_chain.dfy): geocoding and selection used together.
- `Optional` (optional.dfy): `Option`, the model of a JavaScript value that may be
  `null` or `undefined`.

The haversine distance is a parameter `dist: (GeoPoint, GeoPoint) -> Km` of
the selection, where `Km` is the non-negative reals. Every property is proved
for every such function. Encoded coordinates are `int`s and degrees are
`real`s, so division by 10^7 is exact.

On an empty list the code still builds the message, and `closest?.title`
and `closest?.distance.toFixed(2)` both become `undefined`
(src/app/api/chat/route.ts:77). The model returns `None` and leaves the
message out.

## Model

| member | source | states |
|---|---|---|
| Coordinates.Decode | src/app/api/chat/route.ts:65-66 | the decoded degrees times 10^7 give back the encoded integer exactly, and the sign is kept |
| Coordinates.DecodeInjective | src/app/api/chat/route.ts:65-66 | two different encodings never decode to the same degrees |
| Coordinates.DecodeMonotonic | src/app/api/chat/route.ts:65-66 | decoding keeps the order of encoded values, in both directions |
| Coordinates.Locate | src/app/api/chat/route.ts:65-66 | a place's latitude is its decoded `mapy` and its longitude its decoded `mapx` |
| GetRestaurant.SearchQuery | src/app/api/chat/route.ts:20 | the query is the location as a prefix followed by exactly the three characters `" 맛집"` |
| GetRestaurant.SearchQueryInjective | src/app/api/chat/route.ts:20 | two different locations never give the same query |
| GetCoordinatesFromQuery.NotFoundMessage | src/app/api/chat/route.ts:97 | the error text starts with a quote followed by the original query |
| GetCoordinatesFromQuery.NotFoundMessageNamesQuery | src/app/api/chat/route.ts:97 | the query can be recovered from the error text: different queries give different texts |
| GetCoordinatesFromQuery.PreferredAddress | src/app/api/chat/route.ts:106 | the fallback from `roadAddress` to `address`: the result is one of the two addresses, it is empty only when both are, and a non-empty road address is preferred |
| GetCoordinatesFromQuery.Geocode | src/app/api/chat/route.ts:96-108 | error payload with the query's message exactly when `items` is missing or empty; otherwise the title, address fallback and decoded `mapy`/`mapx` of `items[0]` |
| GetCoordinatesFromQuery.GeocodeUsesFirstItemOnly | src/app/api/chat/route.ts:100 | items after the first never change the result |
| FindClosestRestaurant.DistanceToDecodedPoint | src/app/api/chat/route.ts:65-67 | a candidate's distance (`DistanceTo`) is measured from the user's point to the point whose latitude scales to `mapy` and whose longitude scales to `mapx` |
| FindClosestRestaurant.Below | src/app/api/chat/route.ts:62-69 | `distance < minDistance` with `minDistance` starting at `Infinity`: every distance is below `Infinity`, and below a finite bound exactly when strictly smaller |
| FindClosestRestaurant.FirstNearestIndex | src/app/api/chat/route.ts:64-73 | for a non-empty list, an index whose candidate has minimal distance and every earlier candidate is strictly farther |
| FindClosestRestaurant.FirstNearestUnique | src/app/api/chat/route.ts:69 | only one index can be the first at the minimum distance |
| FindClosestRestaurant.Closest | src/app/api/chat/route.ts:61-75 | no result exactly for an empty list; otherwise a member of the list, carrying its own distance from the reference point, no farther than any candidate |
| FindClosestRestaurant.ClosestIsFirstAtMinimum | src/app/api/chat/route.ts:69 | the winner is the lowest-index candidate at the minimum distance, with that distance attached |
| FindClosestRestaurant.ClosestSnoc | src/app/api/chat/route.ts:67-72 | one more candidate becomes the winner exactly when there was none or it is strictly nearer; otherwise the winner stays |
| FindClosestRestaurant.ClosestKeepsFirstReached | src/app/api/chat/route.ts:69-72 | candidates appended later that are no nearer than the winner leave it unchanged |
| FindClosestRestaurant.ClosestNeverFartherWithMore | src/app/api/chat/route.ts:69-70 | the kept minimum distance never grows as candidates are added |
| FindClosestRestaurant.FindClosest | src/app/api/chat/route.ts:47-79 | the loop's `closest` equals `Closest` of the whole list; its invariants keep `minDistance` infinite while `closest` is null and equal to `closest.distance` afterwards |
| ToolChain.NearestToGeocodedPlace | src/app/api/chat/route.ts:61-108 | if a candidate sits at the geocoded point and a point's distance to itself is zero, a recommendation exists and is at distance zero |

## Left out

- The haversine body (`deg2rad`, sine, cosine, `atan2`, radius 6371 km): floating-point trigonometry; it is the parameter `dist`, assumed only non-negative.
- `parseFloat` of the `mapx`/`mapy` strings and its NaN results: coordinates are modelled as already-parsed integers, so every distance is a finite real and the first candidate always beats `Infinity`.
- Coordinates.Decode: exact over the reals; the double-precision rounding of `parseFloat(…) / 1e7` (src/app/api/chat/route.ts:65-66, 101-102) is not modelled, so in JavaScript the decoded value need not give back the encoded integer exactly.
- The `message` strings of `findClosestRestaurant` and of a found geocoding result: float-to-string formatting (`toFixed(2)`, interpolation of numbers).
- The `fetch` calls to the local-search API, their URL encoding, the `display` and `sort` parameters, the credential headers from the environment, `response.json()` and `console.log`: network and process I/O.
- `getRestaurant`'s result: the raw `items` of the answer, passed through unchanged.
- The model call: `streamText`, the model choice, the system prompt, the `maxSteps: 5` cap, the 30-second `maxDuration` and the streamed response are library orchestration.
- The `zod` parameter schemas: validation done by a library not part of this model. The candidate datatype has exactly the fields of the schema.
- src/app/page.tsx: the chat page user interface, which is not part of this model.
