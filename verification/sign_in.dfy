/**
 * The sign-in page's state logic: field edits, the ordered client-side form
 * checks, the choice of endpoint and payload, the handling of the server's
 * answer and the switch between login and registration. The network call
 * and the browser's token storage are parameters.
 */
module SignIn {
  import opened Wrappers
  import opened Text
  import opened Http

  datatype MessageKind = Plain | Error | Success

  /** The shown message; its text is whatever value the page put there, a server's `message` field included. */
  datatype Message = Message(kind: MessageKind, text: Json)
  const Cleared := Message(Plain, JStr(""))

  /** `lastName` is undefined until the first mode switch, which sets it to ""; no input edits it. */
  datatype Form = Form(email: string, password: string, firstName: string, confirmPassword: string,
                       lastName: Option<string>)

  /** The inputs the page renders, by their `name` attribute. */
  datatype Field = Email | Password | FirstName | ConfirmPassword

  datatype State = State(isLogin: bool, loading: bool, message: Message, form: Form)

  const Initial := State(true, false, Cleared, Form("", "", "", "", None))

  const RequiredMessage := "Email and password are required"
  const FirstNameMessage := "First name is required for registration"
  const MismatchMessage := "Passwords do not match"
  const ShortPasswordMessage := "Password must be at least 6 characters"
  const LoginSuccessMessage := "Login successful!"
  const RegisterSuccessMessage := "Registration successful!"
  const FailedMessage := "Authentication failed"
  const NetworkMessage := "Network error. Please check if your backend server is running."

  const LoginEndpoint := "/api/auth/login"
  const RegisterEndpoint := "/api/auth/register"

  /**
   * A shown message has truthy text and a message with falsy text carries no
   * kind; every operation below keeps this, and `lastName` is never anything
   * but undefined or "".
   */
  predicate Valid(s: State) {
    && (!Truthy(s.message.text) <==> s.message.kind == Plain)
    && (s.form.lastName.None? || s.form.lastName == Some(""))
  }

  /** Editing an input stores its value and clears any shown message. */
  function HandleInputChange(s: State, f: Field, value: string): (r: State)
    ensures !Truthy(r.message.text) && r.isLogin == s.isLogin && r.loading == s.loading
    ensures Truthy(s.message.text) ==> r.message == Cleared
    ensures !Truthy(s.message.text) ==> r.message == s.message
    ensures f == Email ==> r.form == s.form.(email := value)
    ensures f == Password ==> r.form == s.form.(password := value)
    ensures f == FirstName ==> r.form == s.form.(firstName := value)
    ensures f == ConfirmPassword ==> r.form == s.form.(confirmPassword := value)
    ensures Valid(s) ==> Valid(r)
  {
    var form := match f
      case Email => s.form.(email := value)
      case Password => s.form.(password := value)
      case FirstName => s.form.(firstName := value)
      case ConfirmPassword => s.form.(confirmPassword := value);
    s.(form := form, message := if Truthy(s.message.text) then Cleared else s.message)
  }

  /** The client-side checks: `None` when the form passes, else the message of the first failing check. */
  function ValidateForm(isLogin: bool, form: Form): (r: Option<string>)
    ensures r.None? <==>
      (form.email != "" && form.password != "" &&
       (isLogin || (form.firstName != "" && form.password == form.confirmPassword && |form.password| >= 6)))
  {
    if form.email == "" || form.password == "" then Some(RequiredMessage)
    else if !isLogin then
      if form.firstName == "" then Some(FirstNameMessage)
      else if form.password != form.confirmPassword then Some(MismatchMessage)
      else if |form.password| < 6 then Some(ShortPasswordMessage)
      else None
    else None
  }

  /** A check: whether it passes, and the message shown when it does not. */
  datatype Check = Check(passes: bool, message: string)

  /** The checks of each mode, in the order the page states them. */
  function Checks(isLogin: bool, form: Form): seq<Check> {
    [Check(form.email != "" && form.password != "", RequiredMessage)] +
    (if isLogin then [] else [
      Check(form.firstName != "", FirstNameMessage),
      Check(form.password == form.confirmPassword, MismatchMessage),
      Check(|form.password| >= 6, ShortPasswordMessage)
    ])
  }

  /** Check `i` fails and every earlier one passes. */
  predicate FailsFirstAt(checks: seq<Check>, i: nat)
    requires i < |checks|
  {
    !checks[i].passes && forall j :: 0 <= j < i ==> checks[j].passes
  }

  /** The message of the first failing check, if any. */
  function FirstFailure(checks: seq<Check>): (r: Option<string>)
    ensures r.None? <==> forall i :: 0 <= i < |checks| ==> checks[i].passes
    ensures r.Some? ==> exists i :: 0 <= i < |checks| && FailsFirstAt(checks, i) && checks[i].message == r.value
  {
    if |checks| == 0 then None
    else if !checks[0].passes then Some(checks[0].message)
    else
      var r := FirstFailure(checks[1..]);
      assert forall i :: 1 <= i < |checks| ==> checks[i] == checks[1..][i - 1];
      if r.Some? then
        var i :| 0 <= i < |checks[1..]| && FailsFirstAt(checks[1..], i) && checks[1..][i].message == r.value;
        assert FailsFirstAt(checks, i + 1) && checks[i + 1].message == r.value;
        r
      else r
  }

  /** The form checks are the checks of the mode, taken in order, reporting only the first failure. */
  lemma ValidateFormInOrder(isLogin: bool, form: Form)
    ensures ValidateForm(isLogin, form) == FirstFailure(Checks(isLogin, form))
  {
    var c := Checks(isLogin, form);
    if !isLogin {
      assert c[1..] == [c[1], c[2], c[3]];
      assert c[1..][1..] == [c[2], c[3]];
      assert c[1..][1..][1..] == [c[3]];
    }
  }

  /** An empty email or password is reported first, in either mode. */
  lemma RequiredFirst(isLogin: bool, form: Form)
    requires form.email == "" || form.password == ""
    ensures ValidateForm(isLogin, form) == Some(RequiredMessage)
  {
  }

  /** In login mode there are no format or length checks: any non-empty email and password pass. */
  lemma LoginOnlyNeedsBoth(form: Form)
    ensures ValidateForm(true, form).None? <==> form.email != "" && form.password != ""
  {
  }

  datatype Request = Request(endpoint: string, payload: map<string, string>)

  /** The outcome of pressing submit: blocked by the checks, or a request on its way. */
  datatype Submit =
    | Blocked(state: State)
    | Sending(state: State, asLogin: bool, request: Request)

  /**
   * The JSON body sent: email and password for a login; first name, last
   * name, email and password for a registration, where an undefined last
   * name is omitted by the serialiser.
   */
  function Payload(isLogin: bool, form: Form): map<string, string> {
    if isLogin then map["email" := form.email, "password" := form.password]
    else
      var base := map["firstName" := form.firstName, "email" := form.email, "password" := form.password];
      match form.lastName
      case None => base
      case Some(l) => base["lastName" := l]
  }

  /** Pressing submit: a failed check shows its message and sends nothing; otherwise the request starts. */
  function BeginSubmit(s: State): (r: Submit)
    ensures r.Blocked? <==> ValidateForm(s.isLogin, s.form).Some?
    ensures r.Blocked? ==> r.state == s.(message := Message(Error, JStr(ValidateForm(s.isLogin, s.form).value)))
    ensures r.Sending? ==> r.state == s.(loading := true, message := Cleared) && r.asLogin == s.isLogin
    ensures r.Sending? ==> r.request.payload == Payload(s.isLogin, s.form)
    ensures r.Sending? ==> (r.request.endpoint == LoginEndpoint <==> s.isLogin)
    ensures r.Sending? ==> (r.request.endpoint == RegisterEndpoint <==> !s.isLogin)
  {
    match ValidateForm(s.isLogin, s.form)
    case Some(msg) => Blocked(s.(message := Message(Error, JStr(msg))))
    case None =>
      Sending(s.(loading := true, message := Cleared), s.isLogin,
              Request(if s.isLogin then LoginEndpoint else RegisterEndpoint, Payload(s.isLogin, s.form)))
  }

  /** The login payload holds exactly the email and the password; a registration sends the first name too. */
  lemma PayloadFields(form: Form)
    ensures Payload(true, form).Keys == {"email", "password"}
    ensures Payload(true, form)["email"] == form.email && Payload(true, form)["password"] == form.password
    ensures {"firstName", "email", "password"} <= Payload(false, form).Keys
    ensures "lastName" in Payload(false, form) <==> form.lastName.Some?
  {
  }

  /** What the request produced: the parsed body with the `ok` flag, or a thrown error (network failure or a body that is not JSON). */
  datatype FetchOutcome = Received(ok: bool, data: Json) | Threw

  /** The body's `key` field is present and truthy. */
  predicate HasTruthy(data: Json, key: string) {
    Property(data, key).Some? && Truthy(Property(data, key).value)
  }

  /**
   * The answer to a request sent in the mode `asLogin`, applied to the
   * page's current state `s`; `stored` is the browser's saved token before
   * and the second component after. A `null` body makes the read of
   * `data.token` or `data.message` throw, which the page reports like a
   * network error.
   */
  function FinishSubmit(s: State, asLogin: bool, outcome: FetchOutcome, stored: Option<string>): (r: (State, Option<string>))
    ensures r.0.loading == false
    ensures r.0.isLogin == s.isLogin && r.0.form == s.form
    ensures Truthy(r.0.message.text) && r.0.message.kind != Plain
    ensures r.1 != stored ==> outcome.Received? && outcome.ok && HasTruthy(outcome.data, "token")
  {
    match outcome
    case Threw => (s.(loading := false, message := Message(Error, JStr(NetworkMessage))), stored)
    case Received(ok, data) =>
      if data.JNull? then (s.(loading := false, message := Message(Error, JStr(NetworkMessage))), stored)
      else if ok then
        var text := if asLogin then LoginSuccessMessage else RegisterSuccessMessage;
        var saved := if HasTruthy(data, "token") then Some(ToText(Property(data, "token").value)) else stored;
        (s.(loading := false, message := Message(Success, JStr(text))), saved)
      else
        var text := if HasTruthy(data, "message") then Property(data, "message").value else JStr(FailedMessage);
        (s.(loading := false, message := Message(Error, text)), stored)
  }

  /**
   * A successful answer whose `token` field is truthy, whatever its type,
   * saves that value as `localStorage` converts it to text; any other
   * answer leaves the stored token as it was.
   */
  lemma TokenSavedIff(s: State, asLogin: bool, ok: bool, data: Json, stored: Option<string>)
    ensures ok && !data.JNull? && HasTruthy(data, "token") ==>
      FinishSubmit(s, asLogin, Received(ok, data), stored).1 == Some(ToText(data.fields["token"]))
    ensures !(ok && !data.JNull? && HasTruthy(data, "token")) ==>
      FinishSubmit(s, asLogin, Received(ok, data), stored).1 == stored
    ensures ok && data.JObj? && "token" in data.fields && data.fields["token"].JStr? && data.fields["token"].s != "" ==>
      FinishSubmit(s, asLogin, Received(ok, data), stored).1 == Some(data.fields["token"].s)
    ensures forall n: int :: n != 0 ==> FinishSubmit(s, asLogin, Received(true, JObj(map["token" := JNum(n)])), stored).1 == Some(Decimal(n))
  {
  }

  /**
   * The message shown for each kind of answer: a failure shows the body's
   * `message` field when it is truthy, whatever its type.
   */
  lemma AnswerMessages(s: State, asLogin: bool, data: Json, stored: Option<string>)
    ensures !data.JNull? ==> (FinishSubmit(s, asLogin, Received(true, data), stored).0.message ==
      Message(Success, JStr(if asLogin then LoginSuccessMessage else RegisterSuccessMessage)))
    ensures !data.JNull? && HasTruthy(data, "message") ==>
      FinishSubmit(s, asLogin, Received(false, data), stored).0.message == Message(Error, data.fields["message"])
    ensures !data.JNull? && !HasTruthy(data, "message") ==>
      FinishSubmit(s, asLogin, Received(false, data), stored).0.message == Message(Error, JStr(FailedMessage))
    ensures forall ok :: FinishSubmit(s, asLogin, Received(ok, JNull), stored) == FinishSubmit(s, asLogin, Threw, stored)
    ensures FinishSubmit(s, asLogin, Threw, stored).0.message == Message(Error, JStr(NetworkMessage))
  {
  }

  /**
   * One submission from start to finish: `loading` is set while the request
   * is on its way and cleared however it ends; a blocked submission never
   * touches `loading` or the stored token.
   */
  lemma LoadingLifecycle(s: State, outcome: FetchOutcome, stored: Option<string>)
    requires !s.loading
    ensures var b := BeginSubmit(s);
      && (b.Blocked? ==> !b.state.loading)
      && (b.Sending? ==> b.state.loading && !FinishSubmit(b.state, b.asLogin, outcome, stored).0.loading)
  {
  }

  /** Switching mode flips it, empties every field (the last name becomes "") and clears the message. */
  function ToggleMode(s: State): (r: State)
    ensures r.isLogin == !s.isLogin && r.loading == s.loading
    ensures r.form == Form("", "", "", "", Some("")) && r.message == Cleared
  {
    s.(isLogin := !s.isLogin, form := Form("", "", "", "", Some("")), message := Cleared)
  }

  /** Switching twice returns to the mode one started in, with an empty form. */
  lemma ToggleTwice(s: State)
    ensures ToggleMode(ToggleMode(s)).isLogin == s.isLogin
    ensures ToggleMode(ToggleMode(s)) == ToggleMode(s).(isLogin := s.isLogin)
  {
  }

  /** The page's invariant holds initially and after every operation. */
  lemma ValidPreserved(s: State, f: Field, v: string, outcome: FetchOutcome, asLogin: bool, stored: Option<string>)
    requires Valid(s)
    ensures Valid(Initial)
    ensures Valid(HandleInputChange(s, f, v))
    ensures Valid(BeginSubmit(s).state)
    ensures Valid(FinishSubmit(s, asLogin, outcome, stored).0)
    ensures Valid(ToggleMode(s))
  {
  }
}
