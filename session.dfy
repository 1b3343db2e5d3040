/**
 * The page's mutable state (app.js:14-23): the loaded feature list
 * `boundaryFeatures` and the status line, with the handlers that change
 * them. The network fetch, the JSON parse and the geolocation callbacks are
 * not part of this model; their outcomes are the handlers' inputs.
 */
module Session {
  import opened Wrappers
  import opened GeoJson
  import opened Membership
  import opened Status

  /** The options `requestLocation` passes to `getCurrentPosition` (app.js:83). */
  datatype PositionOptions = PositionOptions(enableHighAccuracy: bool, timeoutMs: nat, maximumAgeMs: nat)

  const RequestOptions: PositionOptions := PositionOptions(false, 15000, 60000)

  /** How a `getCurrentPosition` request settles: a position or an error code. */
  datatype PositionOutcome =
    | Located(latitude: real, longitude: real)
    | LocationError(code: int)

  /**
   * How loading the boundary document ends.
   * - Unreadable: the fetch, `resp.json()` or the `type` access threw, so
   *   nothing was assigned.
   * - Parsed: the document was read; `drawn` is false when drawing it with
   *   Leaflet or fitting the map to it (app.js:115-135) threw after the
   *   feature list was assigned.
   */
  datatype LoadOutcome =
    | Unreadable
    | Parsed(document: GeoObject, drawn: bool)

  class Page {
    /** `boundaryFeatures` */
    var features: seq<GeoObject>
    /** the status element's category (its class) and text */
    var category: Category
    var text: string
    /** every status line set so far, oldest first */
    ghost var shown: seq<Status>

    function CurrentStatus(): Status
      reads this
    {
      Status(category, text)
    }

    /** The status line is the last one set. */
    ghost predicate Valid()
      reads this
    {
      shown != [] && shown[|shown| - 1] == CurrentStatus()
    }

    /** The page as loaded: no features yet, the status line from the page markup. */
    constructor(initial: Status)
      ensures Valid()
      ensures features == [] && CurrentStatus() == initial && shown == [initial]
    {
      features := [];
      category := initial.category;
      text := initial.text;
      shown := [initial];
    }

    /** `setStatus(type, text)` (app.js:20-23). */
    method SetStatus(c: Category, t: string)
      modifies this`category, this`text, this`shown
      ensures Valid()
      ensures CurrentStatus() == Status(c, t)
      ensures shown == old(shown) + [Status(c, t)]
    {
      category, text := c, t;
      shown := shown + [Status(c, t)];
    }

    /**
     * `isPointInBoundary(lng, lat)` (app.js:25-36): the loop over the
     * features with its early return, which computes the first-match lookup.
     */
    method IsPointInBoundary(contains: Containment, lng: real, lat: real) returns (r: Lookup)
      ensures r == Locate(features, contains, Position(lng, lat))
    {
      var point := Position(lng, lat);
      var i := 0;
      while i < |features|
        invariant 0 <= i <= |features|
        invariant Locate(features[i..], contains, point) == Locate(features, contains, point)
      {
        var feature := features[i];
        if feature.geometry.Some? && contains(feature, point) {
          return Within(DisplayName(feature));
        }
        i := i + 1;
      }
      return NotWithin;
    }

    /**
     * `updateLocation(lat, lng)`, status part (app.js:38-45): the lookup is
     * made at position (lng, lat) and projected onto the status line.
     */
    method UpdateLocation(contains: Containment, lat: real, lng: real)
      modifies this`category, this`text, this`shown
      ensures Valid() && features == old(features)
      ensures CurrentStatus() == LookupStatus(Locate(features, contains, Position(lng, lat)))
      ensures shown == old(shown) + [CurrentStatus()]
      ensures Coherent(CurrentStatus())
    {
      var result := IsPointInBoundary(contains, lng, lat);
      LookupStatusCoherent(result);
      if result.Within? {
        SetStatus(Category.Inside, InsidePrefix + result.neighborhood);
      } else {
        SetStatus(Category.Outside, OutsideText);
      }
    }

    /** `handleLocationError(err)` (app.js:58-69). */
    method HandleLocationError(code: int)
      modifies this`category, this`text, this`shown
      ensures Valid() && features == old(features)
      ensures CurrentStatus() == Status(Error, ErrorMessage(code))
      ensures shown == old(shown) + [CurrentStatus()]
      ensures Coherent(CurrentStatus())
    {
      var msg := GenericMessage;
      if code == PermissionDenied {
        msg := DeniedMessage;
      } else if code == PositionUnavailable {
        msg := UnavailableMessage;
      } else if code == Timeout {
        msg := TimeoutMessage;
      }
      SetStatus(Error, msg);
    }

    /**
     * `requestLocation()` (app.js:71-85): shows "Getting location…", then
     * either fails at once when geolocation is missing, or issues exactly
     * one request, returned here with its options.
     */
    method RequestLocation(geolocationAvailable: bool) returns (request: Option<PositionOptions>)
      modifies this`category, this`text, this`shown
      ensures Valid() && features == old(features)
      ensures request.Some? <==> geolocationAvailable
      ensures request.Some? ==> request.value == RequestOptions
      ensures geolocationAvailable ==> shown == old(shown) + [Status(Unknown, GettingLocation)]
      ensures !geolocationAvailable ==>
        shown == old(shown) + [Status(Unknown, GettingLocation), Status(Error, NotSupported)]
      ensures Coherent(CurrentStatus())
    {
      SetStatus(Unknown, GettingLocation);
      if !geolocationAvailable {
        SetStatus(Error, NotSupported);
        return None;
      }
      request := Some(RequestOptions);
    }

    /** The two callbacks given to `getCurrentPosition` (app.js:80-84). */
    method OnPositionOutcome(contains: Containment, outcome: PositionOutcome)
      modifies this`category, this`text, this`shown
      ensures Valid() && features == old(features)
      ensures outcome.Located? ==>
        CurrentStatus() == LookupStatus(Locate(features, contains, Position(outcome.longitude, outcome.latitude)))
      ensures outcome.LocationError? ==> CurrentStatus() == Status(Error, ErrorMessage(outcome.code))
      ensures shown == old(shown) + [CurrentStatus()]
      ensures Coherent(CurrentStatus())
    {
      match outcome
      case Located(latitude, longitude) => UpdateLocation(contains, latitude, longitude);
      case LocationError(code) => HandleLocationError(code);
    }

    /**
     * `loadBoundary()`, apart from the drawing (app.js:104-144): a readable
     * document replaces the feature list; the status line then prompts for a
     * tap, or reports the failure when reading or drawing threw.
     */
    method LoadBoundary(outcome: LoadOutcome)
      modifies this
      ensures Valid()
      ensures outcome.Unreadable? ==> features == old(features)
      ensures outcome.Parsed? ==> features == Normalize(outcome.document)
      ensures CurrentStatus() ==
        if outcome.Parsed? && outcome.drawn then Status(Unknown, TapPrompt)
        else Status(Error, LoadFailed)
      ensures shown == old(shown) + [CurrentStatus()]
      ensures Coherent(CurrentStatus())
    {
      match outcome
      case Unreadable =>
        SetStatus(Error, LoadFailed);
      case Parsed(document, drawn) =>
        if IsFeatureCollection(document) {
          features := document.features.value;
        } else {
          features := [document];
        }
        if drawn {
          SetStatus(Unknown, TapPrompt);
        } else {
          SetStatus(Error, LoadFailed);
        }
    }
  }

  /**
   * A failed load leaves the feature list empty, and a later tap on
   * "Check Location" then reports "Outside boundary", whatever the position.
   */
  method FailedLoadThenLocate(contains: Containment, initial: Status, lat: real, lng: real)
    returns (page: Page)
    ensures page.Valid() && page.features == []
    ensures page.CurrentStatus() == Status(Outside, OutsideText)
    ensures page.shown == [initial, Status(Error, LoadFailed),
                           Status(Unknown, GettingLocation), Status(Outside, OutsideText)]
  {
    page := new Page(initial);
    page.LoadBoundary(Unreadable);
    var request := page.RequestLocation(true);
    page.OnPositionOutcome(contains, Located(lat, lng));
  }
}
