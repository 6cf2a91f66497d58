/**
 * The client's top-level authentication state: the check of the stored
 * token when the app loads, the reaction to storage changes made in other
 * tabs, and the choice of what to render. Token storage is a parameter and
 * decoding the token's payload is an abstract partial function.
 */
module ClientApp {
  import opened Wrappers
  import opened Text
  import opened Http

  /**
   * Decoding a payload segment with `atob` and then `JSON.parse`: the parsed
   * value, or `None` when either throws. It is given `None` when the token
   * has no second segment.
   */
  type Decoder = Option<string> -> Option<Json>

  datatype AppState = AppState(authenticated: bool, loading: bool)

  const Initial := AppState(false, true)

  /** A stored value counts only when present and non-empty. */
  predicate HasToken(v: Option<string>) {
    v.Some? && v.value != ""
  }

  /** The second dot-separated segment of a token, the one holding the payload. */
  function PayloadSegment(token: string): (r: Option<string>)
    ensures r.Some? <==> '.' in token
    ensures r.Some? ==> '.' !in r.value
  {
    var parts := Split(token, '.');
    if |parts| >= 2 then Some(parts[1])
    else
      assert parts == [parts[0]];
      assert Join(parts, ".") == parts[0];
      None
  }

  /**
   * `payload.exp * 1000`, for a parsed payload other than `null` (reading a
   * field of `null` throws). The multiplication converts `exp` to a number
   * first, so `null`, `false`, `""` and `[]` give 0 and numeric text gives
   * its value; `None` is NaN, which a missing `exp` (also on a payload that
   * is a number, a string, a boolean or an array) and an object give.
   */
  function ExpiryMillis(payload: Json): (r: Option<int>)
    ensures Property(payload, "exp").None? ==> r.None?
    ensures Property(payload, "exp").Some? ==>
      (r.Some? <==> ToNumber(payload.fields["exp"]).Some?)
  {
    match Property(payload, "exp")
    case None => None
    case Some(e) =>
      match ToNumber(e)
      case None => None
      case Some(n) => Some(n * 1000)
  }

  /** The clock is in milliseconds; a comparison with NaN is false, so such a token never counts as expired. */
  predicate Expired(millis: Option<int>, now: int) {
    millis.Some? && millis.value < now
  }

  /** The decoder produced a value whose `exp` can be read: decoding did not throw and the value is not `null`. */
  predicate Readable(d: Option<Json>) {
    d.Some? && !d.value.JNull?
  }

  /**
   * The check on load, from the stored token, the decoder and the clock;
   * the second component is the stored token afterwards.
   */
  function CheckAuth(stored: Option<string>, decode: Decoder, now: int): (r: (AppState, Option<string>))
    ensures !r.0.loading
    ensures r.0.authenticated ==> HasToken(stored) && r.1 == stored
    ensures r.1 == stored || r.1 == None
    ensures r.1 == None ==> !r.0.authenticated
  {
    if !HasToken(stored) then (AppState(false, false), stored)
    else
      match decode(PayloadSegment(stored.value))
      case None => (AppState(false, false), None)
      case Some(payload) =>
        if payload.JNull? then (AppState(false, false), None)
        else if Expired(ExpiryMillis(payload), now) then (AppState(false, false), None)
        else (AppState(true, false), stored)
  }

  /**
   * The app starts authenticated exactly when a non-empty token is stored,
   * its payload decodes to something other than `null`, and it has not
   * expired; a token that fails in any of these ways is removed, and any
   * other stored value is kept.
   */
  lemma CheckAuthIff(stored: Option<string>, decode: Decoder, now: int)
    ensures var r := CheckAuth(stored, decode, now);
      && (r.0.authenticated <==>
            HasToken(stored) && Readable(decode(PayloadSegment(stored.value))) &&
            !Expired(ExpiryMillis(decode(PayloadSegment(stored.value)).value), now))
      && (r.1 == None && stored != None <==>
            HasToken(stored) && (!Readable(decode(PayloadSegment(stored.value))) ||
            Expired(ExpiryMillis(decode(PayloadSegment(stored.value)).value), now)))
  {
  }

  /** With nothing stored the app is signed out, and loading still ends. */
  lemma NoTokenSignedOut(stored: Option<string>, decode: Decoder, now: int)
    requires !HasToken(stored)
    ensures CheckAuth(stored, decode, now) == (AppState(false, false), stored)
  {
  }

  /** Expiry is strict: a token whose expiry equals the current time still counts as valid. */
  lemma ExpiryBoundary(token: string, decode: Decoder, p: Json, e: int)
    requires token != "" && decode(PayloadSegment(token)) == Some(p)
    requires p.JObj? && "exp" in p.fields && ToNumber(p.fields["exp"]) == Some(e)
    ensures CheckAuth(Some(token), decode, e * 1000).0.authenticated
    ensures !CheckAuth(Some(token), decode, e * 1000 + 1).0.authenticated
    ensures CheckAuth(Some(token), decode, e * 1000 + 1).1 == None
  {
  }

  /**
   * A payload without `exp` never expires; this includes a payload that is
   * a number, a string, a boolean or an array, whose `exp` is undefined.
   */
  lemma MissingExpiryAccepted(token: string, decode: Decoder, p: Json, now: int)
    requires token != "" && decode(PayloadSegment(token)) == Some(p)
    requires !p.JNull? && !(p.JObj? && "exp" in p.fields)
    ensures CheckAuth(Some(token), decode, now) == (AppState(true, false), Some(token))
  {
  }

  /** A payload that parses to `null` throws when `exp` is read, so the token is removed. */
  lemma NullPayloadRemoved(token: string, decode: Decoder, now: int)
    requires token != "" && decode(PayloadSegment(token)) == Some(JNull)
    ensures CheckAuth(Some(token), decode, now) == (AppState(false, false), None)
  {
  }

  /**
   * An `exp` of `null`, `false`, `""` or `[]` converts to 0, so the token
   * has expired at any positive time; an `exp` written as numeric text is
   * read as its number.
   */
  lemma CoercedExpiry(token: string, decode: Decoder, f: map<string, Json>, now: int, n: int)
    requires token != "" && decode(PayloadSegment(token)) == Some(JObj(f)) && "exp" in f
    ensures f["exp"] in {JNull, JBool(false), JStr(""), JArr([])} && now > 0 ==>
      CheckAuth(Some(token), decode, now) == (AppState(false, false), None)
    ensures f["exp"] == JStr(Decimal(n)) ==> ExpiryMillis(JObj(f)) == Some(n * 1000)
  {
    ZeroCoercions();
    NumberTextRoundTrip(n);
  }

  /** A storage event sets the state from the mere presence of a token; nothing is decoded or checked. */
  function HandleStorageChange(s: AppState, stored: Option<string>): (r: AppState)
    ensures r.authenticated <==> HasToken(stored)
    ensures r.loading == s.loading
  {
    s.(authenticated := HasToken(stored))
  }

  /** After a storage event an expired token is enough to be shown as signed in. */
  lemma StorageEventSkipsExpiry(s: AppState, token: string, decode: Decoder, now: int)
    requires token != "" && decode(PayloadSegment(token)) == Some(JObj(map["exp" := JNum(0)])) && now > 0
    ensures !CheckAuth(Some(token), decode, now).0.authenticated
    ensures HandleStorageChange(s, Some(token)).authenticated
  {
  }

  /** What the app shows; the landing page is rendered without a user. */
  datatype View = Spinner | Landing | SignInPage

  function Render(s: AppState): (v: View)
    ensures v == Spinner <==> s.loading
    ensures v == Landing <==> !s.loading && s.authenticated
    ensures v == SignInPage <==> !s.loading && !s.authenticated
  {
    if s.loading then Spinner
    else if s.authenticated then Landing
    else SignInPage
  }

  /** The app shows the spinner until the check runs, and afterwards never again. */
  lemma SpinnerOnlyBeforeCheck(stored: Option<string>, decode: Decoder, now: int, later: Option<string>)
    ensures Render(Initial) == Spinner
    ensures Render(CheckAuth(stored, decode, now).0) != Spinner
    ensures Render(HandleStorageChange(CheckAuth(stored, decode, now).0, later)) != Spinner
  {
  }
}
