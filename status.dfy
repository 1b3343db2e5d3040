/**
 * The status line of the page (app.js:20-23): a category, shown as the CSS
 * class `status status-<category>`, and a text. The functions here are the
 * page's projections of a lookup result, a geolocation error code and a
 * load outcome onto that line.
 */
module Status {
  import opened Membership

  datatype Category = Unknown | Inside | Outside | Error

  /** What `setStatus` writes: the category and the text. */
  datatype Status = Status(category: Category, text: string)

  // The two longest texts are written as two literals each, so that the
  // prover can see their leading characters.
  const InsidePrefix: string := "Inside boundary · "
  const OutsideText: string := "Outside boundary"
  const TapPrompt: string := "Tap \"Check Location\" " + "to see if you're inside the boundary"
  const GettingLocation: string := "Getting location…"
  const NotSupported: string := "Geolocation not supported"
  const LoadFailed: string := "Failed to load boundary"

  const DeniedMessage: string :=
    "Location denied. " + "Open in Safari (not home screen), or Settings → Safari → Clear History to reset."
  const UnavailableMessage: string := "Location unavailable"
  const TimeoutMessage: string := "Location request timed out"
  const GenericMessage: string := "Unable to get location"

  /** The codes of the W3C Geolocation API's `GeolocationPositionError`. */
  const PermissionDenied: int := 1
  const PositionUnavailable: int := 2
  const Timeout: int := 3

  /**
   * The message of `handleLocationError` for `err.code`: one message per
   * known code, each code recognised by its own message, and the generic
   * message exactly for every other code.
   */
  function ErrorMessage(code: int): (msg: string)
    ensures msg == DeniedMessage <==> code == PermissionDenied
    ensures msg == UnavailableMessage <==> code == PositionUnavailable
    ensures msg == TimeoutMessage <==> code == Timeout
    ensures msg == GenericMessage <==> code !in {PermissionDenied, PositionUnavailable, Timeout}
  {
    if code == PermissionDenied then DeniedMessage
    else if code == PositionUnavailable then UnavailableMessage
    else if code == Timeout then TimeoutMessage
    else GenericMessage
  }

  /**
   * The status `updateLocation` shows for a lookup result: category `inside`
   * exactly when the lookup is inside, otherwise `outside`, and the text
   * names the region exactly in the inside case.
   */
  function LookupStatus(m: Lookup): (s: Status)
    ensures s.category == Inside <==> m.Within?
    ensures s.category == Outside <==> m.NotWithin?
    ensures m.Within? ==> s.text == InsidePrefix + m.neighborhood
    ensures m.NotWithin? ==> s.text == OutsideText
  {
    match m
    case Within(name) => Status(Inside, InsidePrefix + name)
    case NotWithin => Status(Outside, OutsideText)
  }

  /** The error texts the page can show. */
  predicate IsErrorText(t: string) {
    || t == DeniedMessage || t == UnavailableMessage || t == TimeoutMessage
    || t == GenericMessage || t == NotSupported || t == LoadFailed
  }

  /** A status line the page itself can produce (apart from the page's initial markup). */
  predicate Coherent(s: Status) {
    match s.category
    case Unknown => s.text == TapPrompt || s.text == GettingLocation
    case Inside => |s.text| > |InsidePrefix| && s.text[..|InsidePrefix|] == InsidePrefix
    case Outside => s.text == OutsideText
    case Error => IsErrorText(s.text)
  }

  /** Every lookup result projects onto a coherent status line. */
  lemma LookupStatusCoherent(m: Lookup)
    requires m.Within? ==> m.neighborhood != ""
    ensures Coherent(LookupStatus(m))
  {
    if m.Within? {
      assert (InsidePrefix + m.neighborhood)[..|InsidePrefix|] == InsidePrefix;
    }
  }

  /**
   * Exactly one category is active and the text tells which: two coherent
   * status lines with the same text have the same category.
   */
  lemma TextDeterminesCategory(a: Status, b: Status)
    requires Coherent(a) && Coherent(b) && a.text == b.text
    ensures a.category == b.category
  {
    var t := a.text;
    if a.category == Inside || b.category == Inside {
      assert |t| > 18 && t[..18] == InsidePrefix;
      assert t[0] == 'I';
      assert t != OutsideText && t != TapPrompt && t != GettingLocation by {
        assert OutsideText[0] == 'O' && TapPrompt[0] == 'T' && GettingLocation[0] == 'G';
      }
      assert !IsErrorText(t) by {
        assert DeniedMessage[0] == 'L' && UnavailableMessage[0] == 'L' && TimeoutMessage[0] == 'L';
        assert GenericMessage[0] == 'U' && NotSupported[0] == 'G' && LoadFailed[0] == 'F';
        assert NotSupported[1] == 'e' && GettingLocation[1] == 'e';
      }
    }
  }
}
