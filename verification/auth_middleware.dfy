/**
 * The `authenticate` middleware: a request with a bearer token either
 * continues with the token's user attached, or is answered with a 401 or 500
 * and a `{ success: false, message }` body. Token verification and the user
 * lookup are outside the model and enter as their possible results.
 */
module AuthMiddleware {
  import opened Wrappers
  import opened Text
  import opened Http

  /** A row of the `users` table, password hash included. */
  datatype StoredUser = StoredUser(
    id: string,
    email: string,
    passwordHash: string,
    firstName: string,
    lastName: string,
    skills: seq<string>,
    resumeUrl: Option<string>,
    createdAt: string,
    updatedAt: string)

  /** The columns the middleware selects: id, email, first_name, last_name, skills, resume_url, created_at. */
  datatype UserRow = UserRow(
    id: string,
    email: string,
    firstName: string,
    lastName: string,
    skills: seq<string>,
    resumeUrl: Option<string>,
    createdAt: string)

  /** The projection the lookup's column list performs. */
  function SelectColumns(u: StoredUser): UserRow {
    UserRow(u.id, u.email, u.firstName, u.lastName, u.skills, u.resumeUrl, u.createdAt)
  }

  /** What `jwt.verify` does with a token: returns a payload with a user id, or throws an error with a name. */
  datatype VerifyResult = Verified(userId: string) | Threw(name: string)

  /** What the single-row lookup by id yields: the row, or an error or no row. */
  datatype LookupResult = Found(row: StoredUser) | Missing

  /** The collaborators of the middleware: token verification and the user lookup. */
  datatype Gate = Gate(verify: string -> VerifyResult, lookup: string -> LookupResult)

  /** `next()` with `req.user` set, or a response and no call to `next`. */
  datatype Outcome = Next(user: UserRow) | Respond(response: Response) {
    /** How many times the middleware calls `next`. */
    function NextCalls(): nat {
      if Next? then 1 else 0
    }
  }

  const Scheme := "Bearer "
  const NoTokenMessage := "Access denied. No token provided."
  const BadFormatMessage := "Access denied. Invalid token format."
  const UserNotFoundMessage := "Invalid token. User not found."
  const InvalidTokenMessage := "Invalid token."
  const ExpiredMessage := "Token expired."
  const ServerErrorMessage := "Server error during authentication."

  /** The catch block: the error's name picks the answer. */
  function Classify(errorName: string): Response {
    if errorName == "JsonWebTokenError" then Response(401, FailureBody(InvalidTokenMessage))
    else if errorName == "TokenExpiredError" then Response(401, FailureBody(ExpiredMessage))
    else Response(500, FailureBody(ServerErrorMessage))
  }

  /** The token is the header with the first `Bearer ` removed, wherever it occurs. */
  function TokenOf(header: string): string {
    RemoveFirst(header, Scheme)
  }

  /** `authenticate(req, res, next)` for a request whose Authorization header is `header`. */
  function Authenticate(header: Option<string>, gate: Gate): Outcome {
    if header.None? || header.value == "" then Respond(Response(401, FailureBody(NoTokenMessage)))
    else
      var token := TokenOf(header.value);
      if token == "" then Respond(Response(401, FailureBody(BadFormatMessage)))
      else match gate.verify(token)
        case Threw(name) => Respond(Classify(name))
        case Verified(userId) =>
          match gate.lookup(userId)
          case Missing => Respond(Response(401, FailureBody(UserNotFoundMessage)))
          case Found(row) => Next(SelectColumns(row))
  }

  /** Without an Authorization header (or with an empty one) the answer is 401 and `next` is never called. */
  lemma NoHeaderRejected(header: Option<string>, gate: Gate)
    requires header.None? || header == Some("")
    ensures Authenticate(header, gate) == Respond(Response(401, FailureBody(NoTokenMessage)))
    ensures Authenticate(header, gate).NextCalls() == 0
  {
  }

  /** Removing `Bearer ` leaves nothing exactly when the header is `Bearer ` itself. */
  lemma {:induction false} EmptyTokenIff(h: string)
    requires h != ""
    ensures TokenOf(h) == "" <==> h == Scheme
  {
    if h == Scheme {
      assert OccursAt(h, Scheme, 0);
    }
  }

  /** A non-empty header gives the invalid-format answer exactly when it is `Bearer ` alone. */
  lemma BadFormatIff(h: string, gate: Gate)
    requires h != ""
    ensures Authenticate(Some(h), gate) == Respond(Response(401, FailureBody(BadFormatMessage))) <==> h == Scheme
  {
    EmptyTokenIff(h);
    if h != Scheme {
      var r := Authenticate(Some(h), gate);
      if r.Respond? && r.response.status == 401 {
        assert r.response.body != FailureBody(BadFormatMessage) by {
          assert FailureBody(BadFormatMessage).fields["message"] == JStr(BadFormatMessage);
          assert BadFormatMessage != InvalidTokenMessage && BadFormatMessage != ExpiredMessage
            && BadFormatMessage != UserNotFoundMessage;
        }
      }
    }
  }

  /** `Bearer ` is removed where it first occurs, not only as a prefix, and only there. */
  lemma SchemeRemovedAnywhere(h: string, i: nat)
    requires i <= |h| && OccursAt(h, Scheme, i) && forall j :: 0 <= j < i ==> !OccursAt(h, Scheme, j)
    ensures TokenOf(h) == h[..i] + h[i + |Scheme|..]
  {
    RemoveFirstCases(h, Scheme);
  }

  /** A header without `Bearer ` anywhere is taken as the token unchanged. */
  lemma NoSchemeKept(h: string)
    requires forall j :: 0 <= j <= |h| ==> !OccursAt(h, Scheme, j)
    ensures TokenOf(h) == h
  {
    RemoveFirstCases(h, Scheme);
  }

  /** Examples: a scheme after a prefix, a doubled scheme, and no scheme at all. */
  lemma SchemeRemovalExamples()
    ensures TokenOf("xBearer abc") == "xabc"
    ensures TokenOf("Bearer Bearer ") == Scheme
    ensures TokenOf("abc") == "abc"
  {
    var x := "xBearer abc";
    assert x[0..7][0] != Scheme[0];
    assert x[1..8] == Scheme;
    assert IndexOfFrom(x, Scheme, 0) == Some(1);
    assert x[..1] + x[8..] == "xabc";
    assert OccursAt("Bearer Bearer ", Scheme, 0);
    var s := "abc";
    assert IndexOfFrom(s, Scheme, 0).None? by {
      assert forall j :: 0 <= j <= |s| ==> !OccursAt(s, Scheme, j);
    }
  }

  /** A verify failure is answered by its name: two 401 messages, and 500 for any other error. */
  lemma VerifyFailuresClassified(h: string, gate: Gate, name: string)
    requires TokenOf(h) != "" && gate.verify(TokenOf(h)) == Threw(name)
    ensures name == "JsonWebTokenError" ==> Authenticate(Some(h), gate) == Respond(Response(401, FailureBody(InvalidTokenMessage)))
    ensures name == "TokenExpiredError" ==> Authenticate(Some(h), gate) == Respond(Response(401, FailureBody(ExpiredMessage)))
    ensures name != "JsonWebTokenError" && name != "TokenExpiredError" ==>
      Authenticate(Some(h), gate) == Respond(Response(500, FailureBody(ServerErrorMessage)))
  {
  }

  /** A token that verifies but names no user is answered 401. */
  lemma UnknownUserRejected(h: string, gate: Gate, userId: string)
    requires TokenOf(h) != "" && gate.verify(TokenOf(h)) == Verified(userId) && gate.lookup(userId) == Missing
    ensures Authenticate(Some(h), gate) == Respond(Response(401, FailureBody(UserNotFoundMessage)))
  {
  }

  /**
   * `next` is called, once, exactly when the token verifies and its user is
   * found, and `req.user` is then that user's selected columns.
   */
  lemma ContinuesIff(h: string, gate: Gate)
    ensures Authenticate(Some(h), gate).Next? <==>
      && h != "" && TokenOf(h) != ""
      && gate.verify(TokenOf(h)).Verified?
      && gate.lookup(gate.verify(TokenOf(h)).userId).Found?
    ensures Authenticate(Some(h), gate).Next? ==>
      && Authenticate(Some(h), gate).NextCalls() == 1
      && Authenticate(Some(h), gate).user == SelectColumns(gate.lookup(gate.verify(TokenOf(h)).userId).row)
  {
  }

  /** Every answer the middleware gives is a 401 or a 500 with `success: false`. */
  lemma RejectionsUnsuccessful(header: Option<string>, gate: Gate)
    ensures Authenticate(header, gate).Respond? ==>
      && Authenticate(header, gate).response.status in {401, 500}
      && Unsuccessful(Authenticate(header, gate).response.body)
  {
  }

  /** Two lookup results that differ at most in the stored password hash. */
  predicate SameButHash(a: LookupResult, b: LookupResult) {
    match a
    case Missing => b.Missing?
    case Found(u) => b.Found? && b.row == u.(passwordHash := b.row.passwordHash)
  }

  /** The password hash never reaches the request: changing only stored hashes changes nothing the middleware does. */
  lemma HashNeverAttached(header: Option<string>, g1: Gate, g2: Gate)
    requires forall t :: g1.verify(t) == g2.verify(t)
    requires forall id :: SameButHash(g1.lookup(id), g2.lookup(id))
    ensures Authenticate(header, g1) == Authenticate(header, g2)
  {
    if header.Some? && header.value != "" && TokenOf(header.value) != "" {
      var v := g1.verify(TokenOf(header.value));
      assert v == g2.verify(TokenOf(header.value));
      if v.Verified? {
        assert SameButHash(g1.lookup(v.userId), g2.lookup(v.userId));
      }
    }
  }
}
