/**
 * The application's own request handling: the CORS origin decision, the
 * level at which a finished request is logged, the health endpoint, the
 * mounted API router, the not-found fallback for paths under `/api/` and the root endpoint.
 */
module Server {
  import opened Wrappers
  import opened Text
  import opened Http

  const DefaultOrigins: seq<string> := ["http://localhost:3000", "http://localhost:5173"]
  const CorsMessage := "Not allowed by CORS"

  /**
   * The origins the `ALLOWED_ORIGINS` variable lists, split on commas with
   * no trimming; the two local development origins apply only when the
   * variable is unset. A set but empty variable lists the single origin "".
   */
  function AllowedOrigins(env: Option<string>): (r: seq<string>)
    ensures env.None? ==> r == DefaultOrigins
    ensures env.Some? ==> |r| >= 1 && Join(r, ",") == env.value
    ensures env.Some? ==> forall i :: 0 <= i < |r| ==> ',' !in r[i]
  {
    match env
    case None => DefaultOrigins
    case Some(v) => Split(v, ',')
  }

  datatype CorsDecision = Allow | Deny(message: string)

  /** The origin callback: no origin (or an empty one) is allowed; otherwise the origin must be listed exactly. */
  function CorsOrigin(origin: Option<string>, env: Option<string>): (d: CorsDecision)
    ensures d.Allow? <==> origin.None? || origin.value == "" || origin.value in AllowedOrigins(env)
    ensures d.Deny? ==> d.message == CorsMessage
  {
    match origin
    case None => Allow
    case Some(o) =>
      if o == "" then Allow
      else if o in AllowedOrigins(env) then Allow
      else Deny(CorsMessage)
  }

  /** With the variable unset, a present origin is allowed exactly when it is one of the two local origins. */
  lemma DefaultsWhenUnset(o: string)
    requires o != ""
    ensures CorsOrigin(Some(o), None).Allow? <==> o == "http://localhost:3000" || o == "http://localhost:5173"
  {
  }

  /**
   * With the variable set to a comma-joined list of comma-free origins, a
   * present origin is allowed exactly when it is one of them; the defaults
   * no longer apply.
   */
  lemma ListedOrigins(parts: seq<string>, o: string)
    requires |parts| >= 1
    requires forall i :: 0 <= i < |parts| ==> ',' !in parts[i]
    requires o != ""
    ensures CorsOrigin(Some(o), Some(Join(parts, ","))).Allow? <==> o in parts
  {
    SplitJoin(parts, ',');
  }

  /** A set but empty variable allows no present origin at all. */
  lemma EmptyVariableAllowsNone(o: string)
    requires o != ""
    ensures CorsOrigin(Some(o), Some("")).Deny?
  {
    SplitWithoutSeparator("", ',');
  }

  /** Entries are not trimmed: after a comma, a space belongs to the next origin. */
  lemma EntriesNotTrimmed()
    ensures CorsOrigin(Some("b"), Some("a, b")).Deny?
    ensures CorsOrigin(Some(" b"), Some("a, b")).Allow?
  {
    SplitWithoutSeparator(" b", ',');
    assert "a, b" == "a" + [','] + " b";
    SplitAtSeparator("a", ',', " b");
  }

  datatype Level = Info | Warn

  /** The level of the line logged when a response finishes. */
  function LogLevel(status: int): (l: Level)
    ensures l == Warn <==> status >= 400
  {
    if status >= 400 then Warn else Info
  }

  /** `path` is under the API mount point. */
  predicate UnderApi(path: string) {
    path == "/api" || (|path| >= 5 && path[..5] == "/api/")
  }

  /** `path` matches the fallback pattern for paths under `/api/`. */
  predicate ApiWildcard(path: string) {
    |path| >= 5 && path[..5] == "/api/"
  }

  const NotFoundMessage := "API endpoint not found"

  function ApiNotFound(path: string): Response {
    Response(404, JObj(map["success" := JBool(false), "message" := JStr(NotFoundMessage), "path" := JStr(path)]))
  }

  /** The health answer; uptime, timestamp, environment and version are not part of this model. */
  const HealthResponse := Response(200, JObj(map["status" := JStr("OK"), "database" := JStr("Supabase - Connected")]))

  const RootResponse := Response(200, JObj(map[
    "message" := JStr("Job Application Tracker API"),
    "version" := JStr("1.0.0"),
    "documentation" := JStr("/api/health"),
    "status" := JStr("active")
  ]))

  datatype Handling =
    | CorsRejected(message: string)               // passed to the error handler, before request logging is set up
    | Preflight                                   // answered by the CORS middleware itself, before request logging
    | Answered(response: Response, level: Level)
    | NoRoute(level: Level)                       // no handler matched; Express's own 404 answers it

  /** A route added with `app.get`, which Express also runs for `HEAD`, serves `m` at `path`. */
  predicate GetRoute(m: Method, path: string, at: string) {
    Serves(GET, m) && path == at
  }

  /**
   * One request through the application. `routed` is what the mounted API
   * router answered for this request, `None` when none of its routes
   * matched.
   */
  function Handle(m: Method, path: string, origin: Option<string>, env: Option<string>,
                  routed: Option<Response>): (h: Handling)
    ensures h.CorsRejected? <==> CorsOrigin(origin, env).Deny?
    ensures h.Preflight? <==> CorsOrigin(origin, env).Allow? && m == OPTIONS
    ensures h.Answered? ==>
      h.response == HealthResponse || Some(h.response) == routed || h.response == ApiNotFound(path) || h.response == RootResponse
    ensures h.Answered? ==> h.level == LogLevel(h.response.status)
    ensures h.NoRoute? <==>
      && CorsOrigin(origin, env).Allow? && m != OPTIONS
      && !ApiWildcard(path) && !(UnderApi(path) && routed.Some?) && !GetRoute(m, path, "/")
    ensures h.NoRoute? ==> h.level == Warn
  {
    match CorsOrigin(origin, env)
    case Deny(msg) => CorsRejected(msg)
    case Allow =>
      if m == OPTIONS then Preflight
      else
        var answer :=
          if GetRoute(m, path, "/api/health") then Some(HealthResponse)
          else if UnderApi(path) && routed.Some? then routed
          else if ApiWildcard(path) then Some(ApiNotFound(path))
          else if GetRoute(m, path, "/") then Some(RootResponse)
          else None;
        match answer
        case Some(r) => Answered(r, LogLevel(r.status))
        case None => NoRoute(LogLevel(404))
  }

  /** A disallowed origin reaches no route and is never logged by the request logger. */
  lemma CorsRejectionStopsEverything(m: Method, path: string, origin: Option<string>, env: Option<string>,
                                     routed: Option<Response>)
    requires CorsOrigin(origin, env).Deny?
    ensures Handle(m, path, origin, env, routed) == CorsRejected(CorsMessage)
  {
  }

  /**
   * An unmatched path under `/api/` gets the JSON not-found answer naming
   * the path, logged as a warning; a path outside the API gets no JSON
   * not-found answer.
   */
  lemma ApiFallback(m: Method, path: string, origin: Option<string>, env: Option<string>)
    requires CorsOrigin(origin, env).Allow? && m != OPTIONS
    requires !GetRoute(m, path, "/api/health")
    ensures ApiWildcard(path) ==> Handle(m, path, origin, env, None) == Answered(ApiNotFound(path), Warn)
    ensures ApiWildcard(path) ==> Unsuccessful(ApiNotFound(path).body)
    ensures !UnderApi(path) ==> forall routed: Option<Response> :: Handle(m, path, origin, env, routed) != Answered(ApiNotFound(path), Warn)
  {
    if !UnderApi(path) {
      forall routed: Option<Response> ensures Handle(m, path, origin, env, routed) != Answered(ApiNotFound(path), Warn) {
        assert !ApiWildcard(path);
        if GetRoute(m, path, "/") {
          assert RootResponse.status == 200;
        }
      }
    }
  }

  /** The API router answers before the fallback: whatever it answers under `/api` is what the client gets. */
  lemma RouterTakesPrecedence(m: Method, path: string, origin: Option<string>, env: Option<string>, r: Response)
    requires CorsOrigin(origin, env).Allow? && m != OPTIONS
    requires UnderApi(path) && !GetRoute(m, path, "/api/health")
    ensures Handle(m, path, origin, env, Some(r)) == Answered(r, LogLevel(r.status))
  {
  }

  /** The health endpoint, for `GET` and `HEAD`, is matched before the API router and is logged at info level. */
  lemma HealthFirst(origin: Option<string>, env: Option<string>, routed: Option<Response>)
    requires CorsOrigin(origin, env).Allow?
    ensures Handle(GET, "/api/health", origin, env, routed) == Answered(HealthResponse, Info)
    ensures Handle(HEAD, "/api/health", origin, env, routed) == Answered(HealthResponse, Info)
  {
  }
}
