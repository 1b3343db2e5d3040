/**
 * The boundary lookup of app.js:25-36: walk the loaded features in order,
 * skip those without geometry, and report the first one whose polygon
 * contains the point.
 *
 * The polygon test itself is Turf's `booleanPointInPolygon`, which is not
 * part of this model: every member here takes it as a parameter `contains`,
 * and every lemma holds whatever that predicate answers.
 */
module Membership {
  import opened Wrappers
  import opened GeoJson

  /** The name reported when a matching feature has no usable `Name`. */
  const FallbackName: string := "Competition area"

  /** The result object of the lookup: `{inside: true, neighborhood}` or `{inside: false}`. */
  datatype Lookup = Within(neighborhood: string) | NotWithin

  /** The containment test: does the polygon of the feature contain the position? */
  type Containment = (GeoObject, Position) -> bool

  /**
   * The reported region name, `properties?.Name || 'Competition area'`:
   * an absent name and the (falsy) empty name both fall back.
   */
  function DisplayName(f: GeoObject): (name: string)
    ensures name != ""
    ensures f.name.Some? && f.name.value != "" ==> name == f.name.value
    ensures f.name.None? || f.name.value == "" ==> name == FallbackName
  {
    if f.name.Some? && f.name.value != "" then f.name.value else FallbackName
  }

  /** The loop's guard, `feature.geometry && booleanPointInPolygon(point, feature)`. */
  predicate Matches(f: GeoObject, contains: Containment, p: Position) {
    f.geometry.Some? && contains(f, p)
  }

  /** Feature `i` matches and no earlier feature does. */
  predicate IsFirstMatch(fs: seq<GeoObject>, contains: Containment, p: Position, i: int) {
    && 0 <= i < |fs|
    && Matches(fs[i], contains, p)
    && forall j :: 0 <= j < i ==> !Matches(fs[j], contains, p)
  }

  /**
   * The lookup as a first-match search: inside exactly when some feature
   * matches, and then with the name of the earliest matching feature.
   */
  function Locate(fs: seq<GeoObject>, contains: Containment, p: Position): (r: Lookup)
    ensures r.Within? <==> exists i :: 0 <= i < |fs| && Matches(fs[i], contains, p)
    ensures r.Within? ==>
      exists i :: IsFirstMatch(fs, contains, p, i) && r.neighborhood == DisplayName(fs[i])
  {
    if fs == [] then NotWithin
    else if Matches(fs[0], contains, p) then
      assert IsFirstMatch(fs, contains, p, 0);
      Within(DisplayName(fs[0]))
    else
      var r := Locate(fs[1..], contains, p);
      assert forall i :: 0 < i < |fs| ==> fs[i] == fs[1..][i - 1];
      assert forall i :: IsFirstMatch(fs[1..], contains, p, i) ==> IsFirstMatch(fs, contains, p, i + 1);
      r
  }

  /** First match wins: the earliest matching feature gives the reported name. */
  lemma {:induction false} FirstMatchWins(fs: seq<GeoObject>, contains: Containment, p: Position, i: int)
    requires IsFirstMatch(fs, contains, p, i)
    ensures Locate(fs, contains, p) == Within(DisplayName(fs[i]))
  {
    if i > 0 {
      assert IsFirstMatch(fs[1..], contains, p, i - 1);
      FirstMatchWins(fs[1..], contains, p, i - 1);
    }
  }

  /** Features after a match are never consulted: appending features changes nothing. */
  lemma {:induction false} LaterFeaturesIgnored(fs: seq<GeoObject>, rest: seq<GeoObject>, contains: Containment, p: Position)
    requires Locate(fs, contains, p).Within?
    ensures Locate(fs + rest, contains, p) == Locate(fs, contains, p)
  {
    assert fs != [] && (fs + rest)[0] == fs[0];
    if !Matches(fs[0], contains, p) {
      assert (fs + rest)[1..] == fs[1..] + rest;
      LaterFeaturesIgnored(fs[1..], rest, contains, p);
    }
  }

  /**
   * Nor is the containment test consulted after the first match: two tests
   * that agree up to and including the first match give the same result.
   */
  lemma {:induction false} NotConsultedAfterMatch(fs: seq<GeoObject>, c1: Containment, c2: Containment, p: Position, i: int)
    requires IsFirstMatch(fs, c1, p, i)
    requires forall j :: 0 <= j <= i ==> c1(fs[j], p) == c2(fs[j], p)
    ensures Locate(fs, c2, p) == Locate(fs, c1, p)
  {
    if i > 0 {
      assert IsFirstMatch(fs[1..], c1, p, i - 1);
      NotConsultedAfterMatch(fs[1..], c1, c2, p, i - 1);
    }
  }

  /** The features that have a geometry, in their original order. */
  function WithGeometry(fs: seq<GeoObject>): (gs: seq<GeoObject>)
    ensures |gs| <= |fs|
    ensures forall g :: g in gs ==> g in fs && g.geometry.Some?
  {
    if fs == [] then []
    else if fs[0].geometry.Some? then [fs[0]] + WithGeometry(fs[1..])
    else WithGeometry(fs[1..])
  }

  /** Every feature with geometry is kept by the filter. */
  lemma {:induction false} WithGeometryKeeps(fs: seq<GeoObject>, i: int)
    requires 0 <= i < |fs| && fs[i].geometry.Some?
    ensures fs[i] in WithGeometry(fs)
  {
    if i > 0 {
      WithGeometryKeeps(fs[1..], i - 1);
    }
  }

  /** Geometry-less features are skipped: dropping them leaves the result unchanged. */
  lemma {:induction false} GeometrylessSkipped(fs: seq<GeoObject>, contains: Containment, p: Position)
    ensures Locate(WithGeometry(fs), contains, p) == Locate(fs, contains, p)
  {
    if fs != [] {
      GeometrylessSkipped(fs[1..], contains, p);
      if fs[0].geometry.Some? {
        assert ([fs[0]] + WithGeometry(fs[1..]))[1..] == WithGeometry(fs[1..]);
      }
    }
  }

  /**
   * A feature without geometry never matches, whatever the containment test
   * says about it: tests that agree on the features with geometry give the
   * same result.
   */
  lemma {:induction false} GeometrylessNeverMatch(fs: seq<GeoObject>, c1: Containment, c2: Containment, p: Position)
    requires forall i :: 0 <= i < |fs| && fs[i].geometry.Some? ==> c1(fs[i], p) == c2(fs[i], p)
    ensures Locate(fs, c1, p) == Locate(fs, c2, p)
  {
    if fs != [] {
      assert forall i :: 0 <= i < |fs| - 1 ==> fs[1..][i] == fs[i + 1];
      GeometrylessNeverMatch(fs[1..], c1, c2, p);
    }
  }

  /** What loading a document means for the lookup (app.js:109-113 followed by app.js:25-36). */
  lemma LoadedLookup(doc: GeoObject, contains: Containment, p: Position)
    ensures IsFeatureCollection(doc) ==>
      Locate(Normalize(doc), contains, p) == Locate(doc.features.value, contains, p)
    ensures !IsFeatureCollection(doc) ==>
      Locate(Normalize(doc), contains, p) ==
        if Matches(doc, contains, p) then Within(DisplayName(doc)) else NotWithin
  {
    if !IsFeatureCollection(doc) {
      assert Normalize(doc)[1..] == [];
    }
  }
}
