# Boundary check: a Dafny model

This project models the logic of a small mobile map page. The page tells a
birder whether their current position is inside one of the neighborhood
boundaries of a birding competition. The model covers:

- the boundary lookup: a first-match search over the loaded GeoJSON features;
- the region-name fallback;
- the normalisation of the loaded boundary document into a feature list;
- the projection of lookups, geolocation errors and load outcomes onto the
  page's status line;
- the page state (feature list, status category, status text) and the
  handlers that change it.

Modules:

- `Wrappers` (wrappers.dfy): `Option`.
- `GeoJson` (geojson.dfy): positions, geometries and GeoJSON objects (RFC 7946). Also `Normalize`, the document-to-feature-list step.
- `Membership` (membership.dfy): `Locate`, the first-match lookup, and `DisplayName`, the name fallback. Also the lemmas on ordering, skipping and fallback.
- `Status` (status.dfy): the status categories and texts, and the pure projections.
- `Session` (session.dfy): the class `Page` holding the page's mutable state, and its handlers.

The polygon test is Turf's `booleanPointInPolygon`. It is an input of the
model: a function parameter `contains: (GeoObject, Position) -> bool`. Every
lemma holds for every such predicate. So what is proved is the logic around
the test: ordering, skipping features without geometry, and the fallback.

What the page does and does not do:

- The page does not validate the boundary document. Any document that is not
  a FeatureCollection with a `features` member becomes a one-element feature
  list. A feature without geometry is only skipped at lookup time.
- A FeatureCollection with an empty `features` array is accepted as an empty
  list, because an empty array is truthy.
- If drawing the layer throws after the list is assigned (app.js:115-135),
  the new list stays and the status shows "Failed to load boundary".
- After a failed load the list stays empty. Lookups are not blocked: a later
  check reports "Outside boundary" (`Session.FailedLoadThenLocate`).
- A location request is a single `getCurrentPosition` call. There is no retry,
  no secondary attempt and no cancellation of earlier requests.

## Model

| member | source | states |
|---|---|---|
| `GeoJson.Normalize` | app.js:109-113 | A FeatureCollection with `features` yields exactly that list; every other document yields the one-element list holding it; the list is empty only for a FeatureCollection whose `features` is empty |
| `Membership.DisplayName` | app.js:31 | The name is never empty: it is `properties.Name` when present and non-empty, else `'Competition area'` (an empty name also falls back) |
| `Membership.Locate` | app.js:25-36 | Inside exactly when some feature with geometry contains the point, and then named after the earliest such feature; otherwise `{inside: false}`, in particular for an empty list |
| `Membership.FirstMatchWins` | app.js:27-33 | When feature i is the first match, the result is inside with feature i's name |
| `Membership.LaterFeaturesIgnored` | app.js:27-33 | Once the list has a match, appending any features leaves the result unchanged |
| `Membership.NotConsultedAfterMatch` | app.js:27-33 | Two containment tests that agree up to and including the first match give the same result: the test is never consulted after the match |
| `Membership.GeometrylessSkipped` | app.js:28 | Removing every feature without geometry leaves the result unchanged |
| `Membership.WithGeometryKeeps` | app.js:28 | The features with geometry, which the loop's guard lets through to the containment test, are all kept by the filter used in `GeometrylessSkipped` |
| `Membership.GeometrylessNeverMatch` | app.js:28 | A feature without geometry never matches, whatever the containment test says about it: tests that agree on the features with geometry give the same result |
| `Membership.LoadedLookup` | app.js:109-113 | After normalisation, a collection is searched through its own features; any other document is searched as a single feature |
| `Status.ErrorMessage` | app.js:58-68 | Code 1 gives the denial message, code 2 "Location unavailable" and code 3 "Location request timed out", each if and only if; every other code gives "Unable to get location" |
| `Status.LookupStatus` | app.js:41-45 | Category `inside` exactly for an inside lookup, with text "Inside boundary · " + name; otherwise `outside` with "Outside boundary"; exactly one of the two |
| `Status.LookupStatusCoherent` | app.js:41-45 | Every lookup result with a non-empty name projects onto a coherent status line |
| `Status.TextDeterminesCategory` | app.js:20-23 | Two coherent status lines with the same text have the same category, so the text shows which category is active |
| `Session.Page.constructor` | app.js:14 | The feature list starts empty; the status line is the page's initial one |
| `Session.Page.SetStatus` | app.js:20-23 | Overwrites category and text and leaves the feature list alone |
| `Session.Page.IsPointInBoundary` | app.js:25-36 | The loop with early return computes `Locate` on the current features at position (lng, lat) |
| `Session.Page.UpdateLocation` | app.js:38-45 | The status becomes the projection of the lookup at (lng, lat), coherent; the features are unchanged |
| `Session.Page.HandleLocationError` | app.js:58-69 | Every error code sets category `error`, with that code's message; the features are unchanged |
| `Session.Page.RequestLocation` | app.js:71-85 | Shows "Getting location…" first; without geolocation, ends with "Geolocation not supported" and issues no request; otherwise issues exactly one request with options (no high accuracy, 15000 ms timeout, 60000 ms maximum age) |
| `Session.Page.OnPositionOutcome` | app.js:80-84 | A position updates the status through the lookup at (longitude, latitude); an error code goes to the error projection |
| `Session.Page.LoadBoundary` | app.js:104-144 | An unreadable document leaves the features unchanged; a parsed one replaces them with its normalisation; status is the tap prompt on success, else "Failed to load boundary" |
| `Session.FailedLoadThenLocate` | app.js:104-143 | After a failed load, a successful position fix reports "Outside boundary" and the feature list stays empty |

## Left out

- Turf's `turf.point` and `booleanPointInPolygon` (app.js:26-28): foreign geometry over floating-point numbers. The test is a parameter, and Turf exceptions are not modelled.
- Coordinates are `real`. NaN and infinite values, and floating-point rounding, are not modelled.
- Feature names are `Option<string>`. A `Name` that is not a string (for example a number) is not modelled.
- The drawing with Leaflet is not modelled: the map, tile layer, zoom control, marker, tooltips, `fitBounds` and `setView` (app.js:47-55, 87-102, 115-135). Only whether drawing threw (including `getBounds`/`fitBounds`) is an input to `LoadBoundary`.
- `fetch` and `resp.json()` are inputs, not modelled (app.js:106-107): their outcome is the `LoadOutcome` passed to `LoadBoundary`. A JSON `null` document fails at the `type` access and counts as `Unreadable`.
- `navigator.geolocation` is an input, not modelled: whether it exists is a parameter of `RequestLocation`, and the callback's outcome is the input of `OnPositionOutcome`.
- `GeoJson.GeoObject` covers only documents whose `features` is absent, null or a list of objects, and whose `geometry` and `features` are objects or absent. The page accepts more, because its guards are truthiness tests:
  - a `null` or `undefined` element of `features` makes `feature.geometry` (app.js:28) throw inside the success callback, so the status stays "Getting location…"; `Session.Page.UpdateLocation` always ends in `inside` or `outside`;
  - a truthy `features` that is not an array passes app.js:109 and becomes the feature list: an object then makes the loop at app.js:27 throw, and a string is walked character by character with every character skipped;
  - a falsy non-null `geometry` or `features` (`0`, `false`, `""`) behaves like an absent one, which is how `None` is read.
- The `console.warn` (app.js:59) and `console.error` (app.js:141) logging is not modelled: it has no effect on the page's state.
- The CSS class string `status status-<type>` written by `setStatus` is represented by the category value.
- The page's initial status line comes from index.html, which is not part of this model: the constructor takes it as a parameter.
- Service-worker registration and DOM-ready start-up (app.js:146-162) are not modelled; sw.js (caching) and server.js (static server) are not part of this model.
