/**
 * The parsed boundary document, as the page sees it after `resp.json()`:
 * a GeoJSON object (RFC 7946) that is either a FeatureCollection with a
 * `features` list (section 3.3) or anything else, which the page treats as
 * a single feature (section 3.2).
 */
module GeoJson {
  import opened Wrappers

  /** A GeoJSON position: longitude first, then latitude (section 3.1.1 of RFC 7946). */
  datatype Position = Position(lng: real, lat: real)

  /** A geometry object. Only the boundary's polygonal kinds are spelled out. */
  datatype Geometry =
    | Polygon(rings: seq<seq<Position>>)
    | MultiPolygon(polygons: seq<seq<seq<Position>>>)
    | OtherGeometry(kind: string)

  /**
   * A GeoJSON object as a JavaScript value:
   * - `kind` is its `type` member;
   * - `geometry` is None when the member is absent or falsy (a feature
   *   with null geometry is allowed by section 3.2 of RFC 7946);
   * - `name` is `properties.Name`, None when `properties` or `Name` is absent;
   * - `features` is None when the member is absent or falsy.
   */
  datatype GeoObject = GeoObject(
    kind: string,
    geometry: Option<Geometry>,
    name: Option<string>,
    features: Option<seq<GeoObject>>)

  /**
   * The test on app.js:109: `type === 'FeatureCollection' && features`.
   * Any array is truthy in JavaScript, so an empty list passes the test.
   */
  predicate IsFeatureCollection(doc: GeoObject) {
    doc.kind == "FeatureCollection" && doc.features.Some?
  }

  /**
   * The feature list the page keeps after loading `doc`: the collection's
   * own list, or `doc` itself wrapped as a one-element list.
   */
  function Normalize(doc: GeoObject): (fs: seq<GeoObject>)
    ensures IsFeatureCollection(doc) ==> Some(fs) == doc.features
    ensures !IsFeatureCollection(doc) ==> fs == [doc]
    ensures fs == [] <==> doc.kind == "FeatureCollection" && doc.features == Some([])
  {
    if IsFeatureCollection(doc) then doc.features.value else [doc]
  }
}
