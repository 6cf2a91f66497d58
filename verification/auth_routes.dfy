/**
 * The authentication router: each route is a pipeline of middleware run in
 * order. Validators record errors and always pass the request on; the
 * `authenticate` middleware may answer and stop the pipeline; a controller
 * ends it. Controllers are not part of this model, so a pipeline that reaches
 * one is reported as delegated to it, with the attached user and the recorded
 * validation errors.
 */
module AuthRoutes {
  import opened Wrappers
  import opened Http
  import opened Validation
  import opened AuthMiddleware

  datatype Rules = RegisterRules | LoginRules | ProfileUpdateRules | PasswordChangeRules

  datatype Controller = Register | Login | GetProfile | UpdateProfile | ChangePassword

  datatype Stage = Authenticate | Validate(rules: Rules) | Handle(controller: Controller) | TestHandler

  datatype Route = Route(verb: Method, path: string, stages: seq<Stage>)

  /** The routes, in registration order. */
  const Routes: seq<Route> := [
    Route(POST, "/register", [Validate(RegisterRules), Handle(Register)]),
    Route(POST, "/login", [Validate(LoginRules), Handle(Login)]),
    Route(GET, "/profile", [Authenticate, Handle(GetProfile)]),
    Route(PUT, "/profile", [Authenticate, Validate(ProfileUpdateRules), Handle(UpdateProfile)]),
    Route(PUT, "/change-password", [Authenticate, Validate(PasswordChangeRules), Handle(ChangePassword)]),
    Route(GET, "/test", [Authenticate, TestHandler])
  ]

  datatype Request = Request(authorization: Option<string>, body: AuthBody)

  /** The collaborators outside the model: token verification, user lookup, and validator.js. */
  datatype Services = Services(gate: Gate, lib: Library)

  datatype Outcome =
    | Responded(response: Response, ran: seq<Stage>)
    | Delegated(controller: Controller, user: Option<UserRow>, errors: seq<FieldError>, ran: seq<Stage>)
    | HandlerThrew(ran: seq<Stage>)   // the test handler read `req.user` when no user was attached
    | FellThrough(ran: seq<Stage>)    // every stage called `next`

  function ErrorsOf(rules: Rules, lib: Library, body: AuthBody): seq<FieldError> {
    match rules
    case RegisterRules => ValidateRegister(lib, body)
    case LoginRules => ValidateLogin(lib, body)
    case ProfileUpdateRules => ValidateProfileUpdate(body)
    case PasswordChangeRules => ValidatePasswordChange(body)
  }

  const TestMessage := "Authentication is working!"

  /** The `/test` handler's answer: only the id, the email and the first name of the attached user. */
  function TestResponse(u: UserRow): Response {
    Response(200, JObj(map[
      "success" := JBool(true),
      "message" := JStr(TestMessage),
      "user" := JObj(map["id" := JStr(u.id), "email" := JStr(u.email), "firstName" := JStr(u.firstName)])
    ]))
  }

  /** Runs the remaining `stages`; `ran` lists the stages already run. */
  function Run(stages: seq<Stage>, req: Request, svc: Services, user: Option<UserRow>,
               errors: seq<FieldError>, ran: seq<Stage>): Outcome
    decreases |stages|
  {
    if |stages| == 0 then FellThrough(ran)
    else
      var stage := stages[0];
      match stage
      case Authenticate =>
        (match AuthMiddleware.Authenticate(req.authorization, svc.gate)
         case Respond(r) => Responded(r, ran + [stage])
         case Next(u) => Run(stages[1..], req, svc, Some(u), errors, ran + [stage]))
      case Validate(rules) => Run(stages[1..], req, svc, user, errors + ErrorsOf(rules, svc.lib, req.body), ran + [stage])
      case Handle(c) => Delegated(c, user, errors, ran + [stage])
      case TestHandler =>
        (match user
         case None => HandlerThrew(ran + [stage])
         case Some(u) => Responded(TestResponse(u), ran + [stage]))
  }

  /** The first route that serves this method and path, as the router matches it. */
  function FindRoute(m: Method, path: string): Option<Route> {
    match FindFrom(m, path, 0)
    case None => None
    case Some(k) => Some(Routes[k])
  }

  /** The index of the first route at or after `i` that serves this method and path. */
  function FindFrom(m: Method, path: string, i: nat): (r: Option<nat>)
    ensures r.Some? ==> i <= r.value < |Routes| && Serves(Routes[r.value].verb, m) && Routes[r.value].path == path
    decreases |Routes| - i
  {
    if i >= |Routes| then None
    else if Serves(Routes[i].verb, m) && Routes[i].path == path then Some(i)
    else FindFrom(m, path, i + 1)
  }

  /** The route found is the first that serves the request, and none is found only when no route serves it. */
  lemma {:induction false} FindFromFirst(m: Method, path: string, i: nat)
    ensures var r := FindFrom(m, path, i);
      && (r.Some? ==> forall k :: i <= k < r.value ==> !(Serves(Routes[k].verb, m) && Routes[k].path == path))
      && (r.None? ==> forall k :: i <= k < |Routes| ==> !(Serves(Routes[k].verb, m) && Routes[k].path == path))
    decreases |Routes| - i
  {
    if i < |Routes| && !(Serves(Routes[i].verb, m) && Routes[i].path == path) {
      FindFromFirst(m, path, i + 1);
    }
  }

  /** Handles a request that reached this router, if some route matches it. */
  function Dispatch(m: Method, path: string, req: Request, svc: Services): Option<Outcome> {
    match FindRoute(m, path)
    case None => None
    case Some(route) => Some(Run(route.stages, req, svc, None, [], []))
  }

  /**
   * The table's shape: registration and login have no authentication step;
   * every other route authenticates first; every pipeline ends in a handler.
   */
  lemma RouteTableShape()
    ensures forall k :: 0 <= k < |Routes| ==>
      |Routes[k].stages| >= 2 && (Routes[k].stages[|Routes[k].stages| - 1].Handle? || Routes[k].stages[|Routes[k].stages| - 1].TestHandler?)
    ensures forall k :: 0 <= k < |Routes| ==>
      (Authenticate in Routes[k].stages <==> Routes[k].path != "/register" && Routes[k].path != "/login")
    ensures forall k :: 0 <= k < |Routes| && Authenticate in Routes[k].stages ==> Routes[k].stages[0] == Authenticate
  {
  }

  /** Runs the pipeline that ends in a controller after a validator, once any preceding stages have run. */
  lemma ValidateThenHandle(rules: Rules, c: Controller, req: Request, svc: Services, user: Option<UserRow>, ran: seq<Stage>)
    ensures Run([Validate(rules), Handle(c)], req, svc, user, [], ran) ==
      Delegated(c, user, ErrorsOf(rules, svc.lib, req.body), ran + [Validate(rules), Handle(c)])
  {
    var stages := [Validate(rules), Handle(c)];
    var errs := ErrorsOf(rules, svc.lib, req.body);
    assert stages[1..] == [Handle(c)];
    assert [] + errs == errs;
    assert Run(stages, req, svc, user, [], ran) == Run([Handle(c)], req, svc, user, errs, ran + [Validate(rules)]);
    assert ran + [Validate(rules)] + [Handle(c)] == ran + [Validate(rules), Handle(c)];
  }

  /** Registration and login run their validator and then their controller, with no authentication step. */
  lemma PublicRoutes(req: Request, svc: Services)
    ensures Dispatch(POST, "/register", req, svc) ==
      Some(Delegated(Register, None, ValidateRegister(svc.lib, req.body), [Validate(RegisterRules), Handle(Register)]))
    ensures Dispatch(POST, "/login", req, svc) ==
      Some(Delegated(Login, None, ValidateLogin(svc.lib, req.body), [Validate(LoginRules), Handle(Login)]))
  {
    Lookups();
    ValidateThenHandle(RegisterRules, Register, req, svc, None, []);
    ValidateThenHandle(LoginRules, Login, req, svc, None, []);
    assert ErrorsOf(RegisterRules, svc.lib, req.body) == ValidateRegister(svc.lib, req.body);
    assert ErrorsOf(LoginRules, svc.lib, req.body) == ValidateLogin(svc.lib, req.body);
    assert [] + [Validate(RegisterRules), Handle(Register)] == [Validate(RegisterRules), Handle(Register)];
    assert [] + [Validate(LoginRules), Handle(Login)] == [Validate(LoginRules), Handle(Login)];
  }

  /**
   * A pipeline that authenticates first: a request the middleware rejects
   * gets its answer and reaches no later stage; one it accepts runs the
   * rest of the pipeline with the user attached.
   */
  lemma AuthenticatedPipeline(stages: seq<Stage>, req: Request, svc: Services)
    requires |stages| > 0 && stages[0] == Authenticate
    ensures var a := AuthMiddleware.Authenticate(req.authorization, svc.gate);
      && (a.Respond? ==> Run(stages, req, svc, None, [], []) == Responded(a.response, [Authenticate]))
      && (a.Next? ==> Run(stages, req, svc, None, [], []) == Run(stages[1..], req, svc, Some(a.user), [], [Authenticate]))
  {
    assert [] + [Authenticate] == [Authenticate];
  }

  /** Each path of the table is found under its own method, at its own row. */
  lemma Lookups()
    ensures FindRoute(POST, "/register") == Some(Routes[0])
    ensures FindRoute(POST, "/login") == Some(Routes[1])
    ensures FindRoute(GET, "/profile") == Some(Routes[2])
    ensures FindRoute(PUT, "/profile") == Some(Routes[3])
    ensures FindRoute(PUT, "/change-password") == Some(Routes[4])
    ensures FindRoute(GET, "/test") == Some(Routes[5])
  {
  }

  /**
   * No route is registered for `HEAD`, so a `HEAD` request runs whatever
   * `GET` route has the same path: `/profile` and `/test` answer it.
   */
  lemma HeadServedByGet(path: string)
    ensures FindRoute(HEAD, path) == FindRoute(GET, path)
    ensures FindRoute(HEAD, "/profile") == Some(Routes[2]) && FindRoute(HEAD, "/test") == Some(Routes[5])
  {
    assert forall k :: 0 <= k < |Routes| ==> (Serves(Routes[k].verb, HEAD) <==> Serves(Routes[k].verb, GET));
    var h := FindFrom(HEAD, path, 0);
    var g := FindFrom(GET, path, 0);
    FindFromFirst(HEAD, path, 0);
    FindFromFirst(GET, path, 0);
    if h.Some? && g.Some? {
      assert !(h.value < g.value) && !(g.value < h.value);
    }
  }

  /** `GET /profile`: authentication, then the profile controller with no validator. */
  lemma GetProfileRoute(req: Request, svc: Services)
    ensures var a := AuthMiddleware.Authenticate(req.authorization, svc.gate);
      && (a.Respond? ==> Dispatch(GET, "/profile", req, svc) == Some(Responded(a.response, [Authenticate])))
      && (a.Next? ==>
            Dispatch(GET, "/profile", req, svc) ==
            Some(Delegated(GetProfile, Some(a.user), [], [Authenticate, Handle(GetProfile)])))
  {
    Lookups();
    AuthenticatedPipeline(Routes[2].stages, req, svc);
    assert Routes[2].stages[1..] == [Handle(GetProfile)];
    assert [Authenticate] + [Handle(GetProfile)] == [Authenticate, Handle(GetProfile)];
  }

  /** `PUT /profile`: authentication, then the profile-update validator, then the controller. */
  lemma UpdateProfileRoute(req: Request, svc: Services)
    ensures var a := AuthMiddleware.Authenticate(req.authorization, svc.gate);
      && (a.Respond? ==> Dispatch(PUT, "/profile", req, svc) == Some(Responded(a.response, [Authenticate])))
      && (a.Next? ==>
            Dispatch(PUT, "/profile", req, svc) ==
            Some(Delegated(UpdateProfile, Some(a.user), ValidateProfileUpdate(req.body),
                           [Authenticate, Validate(ProfileUpdateRules), Handle(UpdateProfile)])))
  {
    var a := AuthMiddleware.Authenticate(req.authorization, svc.gate);
    Lookups();
    AuthenticatedPipeline(Routes[3].stages, req, svc);
    if a.Next? {
      assert Routes[3].stages[1..] == [Validate(ProfileUpdateRules), Handle(UpdateProfile)];
      ValidateThenHandle(ProfileUpdateRules, UpdateProfile, req, svc, Some(a.user), [Authenticate]);
      assert ErrorsOf(ProfileUpdateRules, svc.lib, req.body) == ValidateProfileUpdate(req.body);
      assert [Authenticate] + [Validate(ProfileUpdateRules), Handle(UpdateProfile)] == [Authenticate, Validate(ProfileUpdateRules), Handle(UpdateProfile)];
    }
  }

  /** `PUT /change-password`: authentication, then the password-change validator, then the controller. */
  lemma ChangePasswordRoute(req: Request, svc: Services)
    ensures var a := AuthMiddleware.Authenticate(req.authorization, svc.gate);
      && (a.Respond? ==> Dispatch(PUT, "/change-password", req, svc) == Some(Responded(a.response, [Authenticate])))
      && (a.Next? ==>
            Dispatch(PUT, "/change-password", req, svc) ==
            Some(Delegated(ChangePassword, Some(a.user), ValidatePasswordChange(req.body),
                           [Authenticate, Validate(PasswordChangeRules), Handle(ChangePassword)])))
  {
    var a := AuthMiddleware.Authenticate(req.authorization, svc.gate);
    Lookups();
    AuthenticatedPipeline(Routes[4].stages, req, svc);
    if a.Next? {
      assert Routes[4].stages[1..] == [Validate(PasswordChangeRules), Handle(ChangePassword)];
      ValidateThenHandle(PasswordChangeRules, ChangePassword, req, svc, Some(a.user), [Authenticate]);
      assert ErrorsOf(PasswordChangeRules, svc.lib, req.body) == ValidatePasswordChange(req.body);
      assert [Authenticate] + [Validate(PasswordChangeRules), Handle(ChangePassword)] == [Authenticate, Validate(PasswordChangeRules), Handle(ChangePassword)];
    }
  }

  /** `GET /test`: authentication, then the test handler's answer about the attached user. */
  lemma TestRoute(req: Request, svc: Services)
    ensures var a := AuthMiddleware.Authenticate(req.authorization, svc.gate);
      && (a.Respond? ==> Dispatch(GET, "/test", req, svc) == Some(Responded(a.response, [Authenticate])))
      && (a.Next? ==>
            Dispatch(GET, "/test", req, svc) ==
            Some(Responded(TestResponse(a.user), [Authenticate, TestHandler])))
  {
    var a := AuthMiddleware.Authenticate(req.authorization, svc.gate);
    var stages := Routes[5].stages;
    Lookups();
    assert Dispatch(GET, "/test", req, svc) == Some(Run(stages, req, svc, None, [], []));
    AuthenticatedPipeline(stages, req, svc);
    if a.Next? {
      assert stages[1..] == [TestHandler];
      assert [Authenticate] + [TestHandler] == [Authenticate, TestHandler];
      assert Run([TestHandler], req, svc, Some(a.user), [], [Authenticate]) == Responded(TestResponse(a.user), [Authenticate, TestHandler]);
    }
  }

  /** A request for an unknown method and path pair is not handled by this router. */
  lemma UnknownRoute(m: Method, path: string, req: Request, svc: Services)
    requires path !in {"/register", "/login", "/profile", "/change-password", "/test"}
    ensures Dispatch(m, path, req, svc).None?
  {
    assert forall k :: 0 <= k < |Routes| ==> Routes[k].path != path;
  }

  /** The `/test` answer exposes exactly `id`, `email` and `firstName`, the last copied from the first-name column. */
  lemma TestProjection(u: UserRow)
    ensures TestResponse(u).status == 200
    ensures TestResponse(u).body.fields["user"].fields.Keys == {"id", "email", "firstName"}
    ensures TestResponse(u).body.fields["user"].fields["firstName"] == JStr(u.firstName)
    ensures TestResponse(u).body.fields["success"] == JBool(true)
  {
  }
}
