/**
 * HTTP methods, JSON values and responses as the backend sends them, and the
 * JavaScript conversions the client applies to parsed JSON values.
 */
module Http {
  import opened Wrappers
  import opened Text

  datatype Method = GET | HEAD | POST | PUT | DELETE | PATCH | OPTIONS

  /** A route registered for `verb` serves a request with method `m`: Express answers `HEAD` with a `GET` route. */
  predicate Serves(verb: Method, m: Method) {
    verb == m || (verb == GET && m == HEAD)
  }

  /** A JSON value; numbers are integral. */
  datatype Json =
    | JNull
    | JBool(b: bool)
    | JNum(n: int)
    | JStr(s: string)
    | JArr(items: seq<Json>)
    | JObj(fields: map<string, Json>)

  datatype Response = Response(status: int, body: Json)

  /** The `{ success: false, message }` body every rejection uses. */
  function FailureBody(message: string): Json {
    JObj(map["success" := JBool(false), "message" := JStr(message)])
  }

  /** The body reports `success: false`. */
  predicate Unsuccessful(body: Json) {
    body.JObj? && "success" in body.fields && body.fields["success"] == JBool(false)
  }

  // ---------------------------------------------------------------------------
  // JavaScript's view of a parsed value

  /** JavaScript's truthiness of a parsed JSON value. */
  predicate Truthy(v: Json) {
    match v
    case JNull => false
    case JBool(b) => b
    case JNum(n) => n != 0
    case JStr(s) => s != ""
    case JArr(_) => true
    case JObj(_) => true
  }

  /**
   * `v[key]` on a value that is not `null`: an object's own field, and
   * `undefined` (`None`) on an object without it or on any other value.
   */
  function Property(v: Json, key: string): (r: Option<Json>)
    ensures r.Some? <==> v.JObj? && key in v.fields
    ensures r.Some? ==> r.value == v.fields[key]
  {
    if v.JObj? && key in v.fields then Some(v.fields[key]) else None
  }

  /** JavaScript's `String(v)`; an array joins its elements' texts with commas, a `null` element giving "". */
  function ToText(v: Json): string
    decreases v
  {
    match v
    case JNull => "null"
    case JBool(b) => if b then "true" else "false"
    case JNum(n) => Decimal(n)
    case JStr(s) => s
    case JArr(items) => Join(seq(|items|, i requires 0 <= i < |items| => if items[i].JNull? then "" else ToText(items[i])), ",")
    case JObj(_) => "[object Object]"
  }

  /** JavaScript's `Number(s)` for integer text: blank text is 0; `None` is NaN. */
  function TextToNumber(s: string): Option<int> {
    var t := Trim(s);
    if t == "" then Some(0) else ParseInteger(t)
  }

  /** JavaScript's `Number(v)` (the conversion `v * 1000` applies); `None` is NaN. */
  function ToNumber(v: Json): Option<int> {
    match v
    case JNull => Some(0)
    case JBool(b) => Some(if b then 1 else 0)
    case JNum(n) => Some(n)
    case JStr(s) => TextToNumber(s)
    case JArr(_) => TextToNumber(ToText(v))
    case JObj(_) => None
  }

  /** A number written out and read back is the same number, as is a string holding its text. */
  lemma NumberTextRoundTrip(n: int)
    ensures ToNumber(JStr(ToText(JNum(n)))) == Some(n)
    ensures ToNumber(JArr([JNum(n)])) == Some(n)
  {
    DecimalRoundTrip(n);
    TrimOfTrimmed(Decimal(n));
    assert ToText(JArr([JNum(n)])) == Join([Decimal(n)], ",");
  }

  /** The coercions that surprise: `null`, `false`, `""` and `[]` are 0, numeric text is its number, and an object is NaN. */
  lemma NumberCoercions(s: string)
    requires IsTrimmed(s) && ParseInteger(s).Some?
    ensures ToNumber(JNull) == Some(0) && ToNumber(JBool(false)) == Some(0)
    ensures ToNumber(JStr("")) == Some(0) && ToNumber(JArr([])) == Some(0)
    ensures ToNumber(JStr(s)) == ParseInteger(s) && ToNumber(JStr(" " + s)) == ParseInteger(s)
    ensures forall f :: ToNumber(JObj(f)) == None
  {
    ZeroCoercions();
    TrimOfTrimmed(s);
    TrimLeadingSpace(s);
  }

  /** The values that convert to 0. */
  lemma ZeroCoercions()
    ensures ToNumber(JNull) == Some(0) && ToNumber(JBool(false)) == Some(0)
    ensures ToNumber(JStr("")) == Some(0) && ToNumber(JArr([])) == Some(0)
  {
    TrimOfTrimmed("");
    assert ToText(JArr([])) == Join([], ",");
  }
}
