# Job application tracker: authentication core in Dafny

This project models the authentication core of the job application tracker and
proves properties of it. The backend side is:

- the express-validator rule chains (`validation.js`);
- the `authenticate` middleware (`middleware/auth.js`);
- the authentication router's per-route pipelines (`routes/auth.js`);
- the CORS origin decision, the request-log level and the `/api/*` fallback of
  the Express application (`app.js`).

The frontend side is:

- the sign-in page's form checks, submission and mode switch (`SignInPage.jsx`);
- the profile editor's skills join and parse and its save and cancel
  (`Profile.jsx`);
- the app shell's stored-token expiry gate and render choice (`App.jsx`).

Every operation is a pure function over immutable data.

- Collaborators the code only calls are parameters:
  - validator.js's `isEmail`, `normalizeEmail`, `isURL` and `isInt` parsing are
    the fields of `Validation.Library`;
  - `jwt.verify` and the Supabase user query are the fields of
    `AuthMiddleware.Gate`, giving `Verified(userId)` / `Threw(name)` and
    `Found(row)` / `Missing`;
  - the token decoder (`atob` + `JSON.parse`) is `ClientApp.Decoder`;
  - the clock is an `int` argument;
  - `localStorage` is the stored token passed in and returned.
- A validator is the concatenation of its chains' failed-validator messages, in
  chain order. Every failing validator of a chain records its message; no
  chain stops early.
- A non-optional absent field reads as `""`. `optional()` skips a chain only
  when the field is absent.
- Whether the recorded errors lead to a 400 is decided by the controllers, which
  are not part of this model, so no contract claims it.

Modules:

- `Wrappers`: `Option`.
- `Text`: JavaScript's `trim`, `split`, `join` and `replace` on strings, and integers as decimal text.
- `Pattern`: the anchored regular expressions the validators use.
- `Http`: HTTP methods, JSON values and responses, and JavaScript's truthiness, `String` and `Number` on parsed JSON values.
- `Validation`, `AuthMiddleware`, `AuthRoutes`, `Server`, `SignIn`, `Profile`
  and `ClientApp`: one module for each of the source files above.

## Model

| member | source | states |
|---|---|---|
| `Validation.Collect` | job-application-tracker-backend/src/middleware/validation.js:9-29 | A validator records no error exactly when every one of its chains recorded none. |
| `Validation.CollectHas` | job-application-tracker-backend/src/middleware/validation.js:9-29 | An error with a given field and message is recorded iff some chain for that field produced that message. |
| `Validation.NamePatternIff` | job-application-tracker-backend/src/middleware/validation.js:14 | `/^[a-zA-Z\s'-]+$/` matches iff the text is non-empty and every character is a letter, white space, `'` or `-`. |
| `Validation.FirstNameAcceptedIff` | job-application-tracker-backend/src/middleware/validation.js:10-15 | The first-name chain records nothing iff the trimmed name has 2 to 50 characters, each a letter, white space, `-` or `'`. |
| `Validation.FirstNameTrimmedFirst` | job-application-tracker-backend/src/middleware/validation.js:10-11 | The chain trims before checking, so a name and its trim get the same messages. |
| `Validation.RegisterPasswordAcceptedIff` | job-application-tracker-backend/src/middleware/validation.js:24-28 | A registration password is accepted iff it has 6 to 128 characters and contains a lower-case letter, an upper-case letter and a digit. |
| `Validation.PasswordPoliciesCompared` | job-application-tracker-backend/src/middleware/validation.js:79-83 | The new-password chain applies the same policy as registration. The login chain (lines 38-40) accepts every strong password, and also accepts `"a"`, which the policy rejects. |
| `Validation.SkillProblemIff` | job-application-tracker-backend/src/middleware/validation.js:61-67 | One skills entry passes the loop iff it is a string, not all white space, with at most 100 characters. |
| `Validation.FirstSkillFailure` | job-application-tracker-backend/src/middleware/validation.js:61-68 | The loop stops at the first entry that fails: the index found fails, every entry before it passes, and nothing is found iff all entries pass. |
| `Validation.SkillsAcceptedIff` | job-application-tracker-backend/src/middleware/validation.js:53-70 | A skills array is accepted iff it has at most 50 entries and every entry is a valid skill. |
| `Validation.TooManySkills` | job-application-tracker-backend/src/middleware/validation.js:58-60 | More than 50 entries record exactly `Maximum 50 skills allowed`, whatever the entries are. |
| `Validation.FirstFailingSkillReported` | job-application-tracker-backend/src/middleware/validation.js:57-69 | With at most 50 entries, the one message recorded is that of the first failing entry; later entries do not matter. |
| `Validation.SkillEntryChecks` | job-application-tracker-backend/src/middleware/validation.js:62-67 | A blank entry is reported as empty even when it is also too long. Otherwise an entry passes iff it has at most 100 characters, so 100 pass and 101 fail. |
| `Validation.RegisterAcceptedIff` | job-application-tracker-backend/src/middleware/validation.js:9-29 | Registration records no error iff the trimmed first name is acceptable, the email is valid, its normalized form has at most 255 characters, and the password is strong. |
| `Validation.LoginAcceptedIff` | job-application-tracker-backend/src/middleware/validation.js:32-41 | Login records no error iff the email is valid and the password is non-empty. |
| `Validation.ProfileUpdateAcceptedIff` | job-application-tracker-backend/src/middleware/validation.js:44-71 | A profile update records no error iff a present first name is acceptable and present skills are an array of at most 50 valid entries. Absent fields pass. |
| `Validation.PasswordChangeAcceptedIff` | job-application-tracker-backend/src/middleware/validation.js:74-84 | A password change records no error iff the current password is non-empty and the new one is strong. |
| `Validation.JobApplicationFieldErrors` | job-application-tracker-backend/src/middleware/validation.js:87-143 | The errors recorded against a field that only one application chain checks are exactly that chain's messages. |
| `Validation.ApplicationPercentageCheck` | job-application-tracker-backend/src/middleware/validation.js:114-117 | The match percentage is flagged iff it is present and not an integer in [0, 100]. |
| `Validation.ApplicationStatusCheck` | job-application-tracker-backend/src/middleware/validation.js:119-122 | An application status is flagged iff it is present and not one of applied, interview, rejected, accepted, withdrawn. |
| `Validation.PhonePatternIff` | job-application-tracker-backend/src/middleware/validation.js:162 | `/^[\+]?[1-9][\d]{0,15}$/` matches iff the text is an optional `+` followed by 1 to 16 digits, the first not `0`. |
| `Validation.PhoneLengthRuleSubsumed` | job-application-tracker-backend/src/middleware/validation.js:160-165 | A number the pattern accepts has at most 17 characters, so the 50-character rule never fires on it. |
| `Validation.PhoneFlaggedIff` | job-application-tracker-backend/src/middleware/validation.js:160-163 | The phone chain records its pattern message iff the number does not have that shape. |
| `Validation.ContactFieldErrors` | job-application-tracker-backend/src/middleware/validation.js:146-191 | The errors recorded against a field that only one contact chain checks are exactly that chain's messages. |
| `Validation.ContactPhoneCheck` | job-application-tracker-backend/src/middleware/validation.js:160-165 | A contact's phone is flagged iff it is present and does not have the phone shape. |
| `Validation.JobApplicationAcceptedIff` | job-application-tracker-backend/src/middleware/validation.js:87-143 | A job application records no error iff the URL is valid and at most 2000 characters, the trimmed company and position have 1 to 255 characters, and each optional field that is present meets its rule: description ≤ 10000, skills matched an array, match percentage an integer in [0, 100], a listed status, salary range ≤ 100, location ≤ 255, work type ≤ 50, notes ≤ 5000. |
| `Validation.ContactAcceptedIff` | job-application-tracker-backend/src/middleware/validation.js:146-191 | A recruiter contact records no error iff the trimmed name has 1 to 255 characters and each optional field that is present meets its rule: a valid email at most 255 characters once normalized, a phone of the pattern's shape, company and position ≤ 255, a valid LinkedIn URL, notes ≤ 5000, a listed status. |
| `Validation.ContactStatusCheck` | job-application-tracker-backend/src/middleware/validation.js:187-190 | A contact status is flagged iff it is present and not one of active, inactive, responded. |
| `Text.TrimSpec` | job-application-tracker-backend/src/middleware/validation.js:11 | `trim` returns the infix after the leading white space. Everything it drops is white space, and the result has no white space at either end. |
| `Text.TrimIdempotent` | job-application-tracker-frontend/src/components/Profile.jsx:14 | Trimming twice is trimming once. |
| `Text.TrimEmptyIff` | job-application-tracker-backend/src/middleware/validation.js:62 | `skill.trim().length === 0` iff every character is white space. |
| `Text.Split` | job-application-tracker-backend/src/app.js:30 | `split(',')` yields at least one piece, no piece contains the separator, and joining the pieces with it gives back the input. |
| `Text.SplitJoin` | job-application-tracker-backend/src/app.js:30 | Splitting the join of separator-free pieces returns those pieces. |
| `Text.RemoveFirstCases` | job-application-tracker-backend/src/middleware/auth.js:21 | `replace` with a string pattern removes its first occurrence only, anywhere in the text, and leaves text without it unchanged. |
| `Http.NumberCoercions` | job-application-tracker-frontend/src/App.jsx:18 | The number conversion behind `exp * 1000`: `null`, `false`, `""` and `[]` are 0, integer text (also after white space) is its value, and an object is NaN. |
| `Http.NumberTextRoundTrip` | job-application-tracker-frontend/src/App.jsx:18 | The text of an integer, as a string or as a one-element array, converts back to that integer. |
| `AuthMiddleware.NoHeaderRejected` | job-application-tracker-backend/src/middleware/auth.js:12-19 | A missing or empty header gets 401 `Access denied. No token provided.` and `next` is never called. |
| `AuthMiddleware.EmptyTokenIff` | job-application-tracker-backend/src/middleware/auth.js:21-23 | For a non-empty header, the token is empty iff the header is exactly `Bearer `. |
| `AuthMiddleware.BadFormatIff` | job-application-tracker-backend/src/middleware/auth.js:21-28 | The answer is 401 `Access denied. Invalid token format.` iff the header is exactly `Bearer `. |
| `AuthMiddleware.SchemeRemovedAnywhere` | job-application-tracker-backend/src/middleware/auth.js:21 | For every header, if `Bearer ` first occurs at index `i`, the token is the header with those seven characters cut out at `i`, whatever comes before or after. |
| `AuthMiddleware.NoSchemeKept` | job-application-tracker-backend/src/middleware/auth.js:21 | A header without `Bearer ` anywhere is the token unchanged. |
| `AuthMiddleware.SchemeRemovalExamples` | job-application-tracker-backend/src/middleware/auth.js:21 | `xBearer abc` gives `xabc`, `Bearer Bearer ` gives `Bearer `, and `abc` gives `abc`. |
| `AuthMiddleware.VerifyFailuresClassified` | job-application-tracker-backend/src/middleware/auth.js:52-71 | `JsonWebTokenError` gives 401 `Invalid token.`, `TokenExpiredError` gives 401 `Token expired.`, and any other error gives 500 `Server error during authentication.` |
| `AuthMiddleware.UnknownUserRejected` | job-application-tracker-backend/src/middleware/auth.js:34-46 | A token that verifies but whose user lookup fails gets 401 `Invalid token. User not found.` |
| `AuthMiddleware.ContinuesIff` | job-application-tracker-backend/src/middleware/auth.js:31-50 | `next` is called iff the token is non-empty, verifies, and its user is found. It is then called exactly once, with `req.user` set to that user's selected columns. |
| `AuthMiddleware.RejectionsUnsuccessful` | job-application-tracker-backend/src/middleware/auth.js:14-71 | Every answer the middleware gives is a 401 or a 500 whose body has `success: false`. |
| `AuthMiddleware.HashNeverAttached` | job-application-tracker-backend/src/middleware/auth.js:34-49 | Two user stores that differ only in password hashes give the same outcome, so `req.user` never carries the hash. |
| `AuthRoutes.RouteTableShape` | job-application-tracker-backend/src/routes/auth.js:27-36 | Every pipeline ends in a handler. A route authenticates iff it is not `/register` or `/login`, and then authentication comes first. |
| `AuthRoutes.ValidateThenHandle` | job-application-tracker-backend/src/routes/auth.js:27-28 | A validator followed by a controller delegates to the controller with the validator's errors and the user passed in. |
| `AuthRoutes.PublicRoutes` | job-application-tracker-backend/src/routes/auth.js:27-28 | `POST /register` and `POST /login` run their validator and then their controller, with no user and no authentication step. |
| `AuthRoutes.AuthenticatedPipeline` | job-application-tracker-backend/src/routes/auth.js:31-36 | In a pipeline that starts with `authenticate`, a rejection is the final answer and no later stage runs. Acceptance runs the rest with the user attached. |
| `AuthRoutes.Lookups` | job-application-tracker-backend/src/routes/auth.js:27-36 | Each method and path of the table is found at its own row. |
| `AuthRoutes.FindFromFirst` | job-application-tracker-backend/src/routes/auth.js:27-36 | The route found is the first in registration order that serves the method and path, and none is found only when no route serves them. |
| `AuthRoutes.HeadServedByGet` | job-application-tracker-backend/src/routes/auth.js:31-36 | A `HEAD` request finds exactly the route a `GET` for the same path finds, so `/profile` and `/test` answer it. |
| `AuthRoutes.GetProfileRoute` | job-application-tracker-backend/src/routes/auth.js:31 | `GET /profile` answers the middleware's rejection, or delegates to the profile controller with the user and no errors. |
| `AuthRoutes.UpdateProfileRoute` | job-application-tracker-backend/src/routes/auth.js:32 | `PUT /profile`: an unauthenticated request is answered before the profile-update validator runs. An authenticated one is validated, then delegated. |
| `AuthRoutes.ChangePasswordRoute` | job-application-tracker-backend/src/routes/auth.js:33 | `PUT /change-password`: an unauthenticated request is answered before the validator runs. An authenticated one is validated, then delegated. |
| `AuthRoutes.TestRoute` | job-application-tracker-backend/src/routes/auth.js:36-46 | `GET /test` answers the middleware's rejection, or answers 200 about the attached user. |
| `AuthRoutes.UnknownRoute` | job-application-tracker-backend/src/routes/auth.js:27-36 | A path that is not in the table is not handled by this router. |
| `AuthRoutes.TestProjection` | job-application-tracker-backend/src/routes/auth.js:37-45 | The `/test` user object has exactly the keys `id`, `email` and `firstName`, the last copied from the `first_name` column. |
| `Server.AllowedOrigins` | job-application-tracker-backend/src/app.js:30-33 | With the variable unset, the list is the two localhost defaults. When it is set, even to `""`, the list is its comma-free pieces, which join back to it. |
| `Server.CorsOrigin` | job-application-tracker-backend/src/app.js:29-42 | An origin is allowed iff it is missing (or empty) or exactly in the list. Otherwise the error is `Not allowed by CORS`. |
| `Server.DefaultsWhenUnset` | job-application-tracker-backend/src/app.js:30-33 | With the variable unset, exactly the two localhost origins are allowed. |
| `Server.ListedOrigins` | job-application-tracker-backend/src/app.js:30-41 | With the variable set to comma-joined entries, an origin is allowed iff it is one of them. |
| `Server.EmptyVariableAllowsNone` | job-application-tracker-backend/src/app.js:30 | A variable set to `""` allows no present origin; the defaults do not apply. |
| `Server.EntriesNotTrimmed` | job-application-tracker-backend/src/app.js:30 | Entries are not trimmed: with `a, b`, the origin `b` is rejected and ` b` is allowed. |
| `Server.LogLevel` | job-application-tracker-backend/src/app.js:73-77 | A request is logged at warn iff its status is at least 400, and at info otherwise. |
| `Server.Handle` | job-application-tracker-backend/src/app.js:29-116 | A request is rejected iff its origin is denied, and is a preflight iff the origin is allowed and the method is `OPTIONS`. An answer is the health body, the router's answer, the API 404 or the root body, logged at its status's level. No handler matches iff the origin is allowed, the method is not `OPTIONS`, the path is not under `/api/`, the router has not answered an `/api` path, and the request is not `GET`/`HEAD /`; that is logged at warn. |
| `Server.CorsRejectionStopsEverything` | job-application-tracker-backend/src/app.js:35-49 | A rejected origin stops the request before any route runs, whatever the router would answer. |
| `Server.ApiFallback` | job-application-tracker-backend/src/app.js:100-106 | An unmatched `/api/*` path gets 404 `{success:false, message:'API endpoint not found', path}`, logged at warn. A path outside `/api` never gets it. |
| `Server.RouterTakesPrecedence` | job-application-tracker-backend/src/app.js:97-100 | When the router answers an `/api` request, that answer is final. |
| `Server.HealthFirst` | job-application-tracker-backend/src/app.js:83-94 | `GET` and `HEAD /api/health` are answered 200 by the health handler before the router is consulted, and logged at info. |
| `SignIn.HandleInputChange` | job-application-tracker-frontend/src/components/SignInPage.jsx:17-23 | An edit changes only the named field. A message with truthy text is cleared and any other is kept, so no message is shown afterwards. |
| `SignIn.ValidateForm` | job-application-tracker-frontend/src/components/SignInPage.jsx:25-46 | The form passes iff email and password are non-empty and, when registering, the first name is non-empty, the passwords match, and the password has at least 6 characters. |
| `SignIn.FirstFailure` | job-application-tracker-frontend/src/components/SignInPage.jsx:25-46 | The reference definition: no message iff every check passes. Otherwise the message is that of a check that fails while every earlier one passes. |
| `SignIn.ValidateFormInOrder` | job-application-tracker-frontend/src/components/SignInPage.jsx:25-46 | The page's checks are those of the mode, in order, and only the first failure's message is shown. |
| `SignIn.RequiredFirst` | job-application-tracker-frontend/src/components/SignInPage.jsx:26-29 | An empty email or password shows `Email and password are required` in either mode. |
| `SignIn.LoginOnlyNeedsBoth` | job-application-tracker-frontend/src/components/SignInPage.jsx:25-46 | In login mode, any non-empty email and password pass. |
| `SignIn.BeginSubmit` | job-application-tracker-frontend/src/components/SignInPage.jsx:48-65 | A failed check shows its message and sends nothing. Otherwise loading starts, the message is cleared, and the endpoint is `/api/auth/login` iff in login mode. |
| `SignIn.PayloadFields` | job-application-tracker-frontend/src/components/SignInPage.jsx:58-65 | The login payload holds exactly the email and the password. A registration sends first name, email and password, plus the last name when one is defined. |
| `SignIn.FinishSubmit` | job-application-tracker-frontend/src/components/SignInPage.jsx:75-98 | Every answer ends loading, keeps mode and form, and shows a message with truthy text. The stored token changes only when an ok answer has a truthy `token` field. |
| `SignIn.TokenSavedIff` | job-application-tracker-frontend/src/components/SignInPage.jsx:77-91 | For a body that is not `null`, the token is stored iff the response is ok and `data.token` is truthy, whatever its JSON type. What is stored is `String(data.token)`: a string as it is, a number such as `42` as its digits. Otherwise the stored token is unchanged. |
| `SignIn.AnswerMessages` | job-application-tracker-frontend/src/components/SignInPage.jsx:77-95 | An ok answer shows the mode's success text. A failed one shows `data.message` itself if it is truthy, whatever its JSON type, else `Authentication failed`. A `null` body throws when its fields are read and, like a thrown fetch, shows the network-error text. |
| `SignIn.LoadingLifecycle` | job-application-tracker-frontend/src/components/SignInPage.jsx:51-98 | `loading` is true while a request is on its way and false after every outcome. A blocked submission never sets it. |
| `SignIn.ToggleMode` | job-application-tracker-frontend/src/components/SignInPage.jsx:101-105 | Toggling flips the mode, sets every field to `""` and clears the message. |
| `SignIn.ToggleTwice` | job-application-tracker-frontend/src/components/SignInPage.jsx:101-105 | Toggling twice restores the mode and leaves the form reset. |
| `SignIn.ValidPreserved` | job-application-tracker-frontend/src/components/SignInPage.jsx:8-15 | Every transition keeps the page invariant: the message text is falsy iff its kind is plain, and the last name is undefined or `""`. |
| `Profile.InitialBuffer` | job-application-tracker-frontend/src/components/Profile.jsx:4-8 | The edit buffer starts with the user's first name and email. An empty skills list becomes `""`, and a single skill is the text itself. |
| `Profile.Clean` | job-application-tracker-frontend/src/components/Profile.jsx:14 | The trim-and-filter step keeps no empty entry, every entry equals its own trim, and there are no more entries than pieces. |
| `Profile.ParseSkills` | job-application-tracker-frontend/src/components/Profile.jsx:14 | Parsed skills are non-empty, trimmed and comma-free. |
| `Profile.CleanKeepsNonBlank` | job-application-tracker-frontend/src/components/Profile.jsx:14 | Every piece that is not blank appears in the result trimmed, and every entry of the result is the trim of some piece. |
| `Profile.CleanConcat` | job-application-tracker-frontend/src/components/Profile.jsx:14 | The trim-and-filter step works piece by piece and keeps order: cleaning a concatenation gives the concatenation of the cleanings. |
| `Profile.CleanSingle` | job-application-tracker-frontend/src/components/Profile.jsx:14 | One piece cleans to its trim, or to nothing when it is blank. |
| `Profile.ParseSkillsKeepsNonBlank` | job-application-tracker-frontend/src/components/Profile.jsx:14 | The saved skills are exactly the trims of the comma-separated pieces that are not blank. |
| `Profile.BlankPiecesDropped` | job-application-tracker-frontend/src/components/Profile.jsx:14 | `" a ,, b"` saves `["a", "b"]`. |
| `Profile.SkillsRoundTrip` | job-application-tracker-frontend/src/components/Profile.jsx:4-14 | Parsing the `', '`-joined text of non-empty, trimmed, comma-free skills returns the original list. |
| `Profile.ParseStable` | job-application-tracker-frontend/src/components/Profile.jsx:14 | Parsing the joined result of a parse gives that parse again. |
| `Profile.UnchangedBufferSavesSameSkills` | job-application-tracker-frontend/src/components/Profile.jsx:4-14 | For clean skills, the initial buffer's skills text parses back to the user's skills. |
| `Profile.SavedRecord` | job-application-tracker-frontend/src/components/Profile.jsx:11-15 | The computed record keeps the email and every other field, takes the buffer's first name, and has clean skills. |
| `Profile.EditFirstName` | job-application-tracker-frontend/src/components/Profile.jsx:32 | The first-name input changes only the buffer's first name. |
| `Profile.EditSkills` | job-application-tracker-frontend/src/components/Profile.jsx:51 | The skills input changes only the buffer's skills text. |
| `Profile.StartEditing` | job-application-tracker-frontend/src/components/Profile.jsx:96 | "Edit Profile" opens the editor on the same buffer. |
| `Profile.Cancel` | job-application-tracker-frontend/src/components/Profile.jsx:65 | Cancel closes the editor and applies no update. |
| `Profile.SaveAsWritten` | job-application-tracker-frontend/src/components/Profile.jsx:10-17 | As written, save throws at the undefined `setUser`: the editor is unchanged and no update is delivered. |
| `Profile.SaveAsWrittenStaysEditing` | job-application-tracker-frontend/src/components/Profile.jsx:10-17 | As written, saving leaves the editor open, delivers nothing, and so differs from the intended save. |
| `Profile.Save` | job-application-tracker-frontend/src/components/Profile.jsx:10-17 | The intended save closes the editor and delivers the computed record. |
| `Profile.SaveChangesOnlyNameAndSkills` | job-application-tracker-frontend/src/components/Profile.jsx:10-17 | After any edits, the delivered record is the user with only `firstName` and `skills` replaced. |
| `Profile.SaveWithoutEditsIsIdentity` | job-application-tracker-frontend/src/components/Profile.jsx:4-16 | Opening the editor on a user with clean skills and saving at once delivers that user unchanged. |
| `ClientApp.PayloadSegment` | job-application-tracker-frontend/src/App.jsx:17 | `token.split('.')[1]` exists iff the token contains a dot, and it contains no dot. |
| `ClientApp.CheckAuth` | job-application-tracker-frontend/src/App.jsx:11-33 | After the check, loading is false. The app is authenticated only with a truthy stored token that is kept. The token is either kept or removed, and a removed one leaves the app signed out. |
| `ClientApp.CheckAuthIff` | job-application-tracker-frontend/src/App.jsx:11-33 | Authenticated iff a non-empty token is stored, its payload decodes to a value other than `null`, and it has not expired. The token is removed iff it is non-empty and fails to decode, decodes to `null`, or has expired. |
| `ClientApp.NoTokenSignedOut` | job-application-tracker-frontend/src/App.jsx:12-14 | With no stored token, the app is signed out and loading ends. |
| `ClientApp.ExpiryBoundary` | job-application-tracker-frontend/src/App.jsx:17-25 | Expiry is strict: with `exp` converting to `e`, at `now == e*1000` the token is still valid; one millisecond later it is removed. |
| `ClientApp.MissingExpiryAccepted` | job-application-tracker-frontend/src/App.jsx:17-21 | A payload without `exp`, including one that parses to a number, string, boolean or array, compares false (NaN), so the token is kept and the app is authenticated. |
| `ClientApp.NullPayloadRemoved` | job-application-tracker-frontend/src/App.jsx:17-28 | A payload that parses to `null` throws when `exp` is read, so the token is removed and the app is signed out. |
| `ClientApp.CoercedExpiry` | job-application-tracker-frontend/src/App.jsx:17-25 | An `exp` of `null`, `false`, `""` or `[]` converts to 0, so the token is removed at any positive time; an `exp` written as integer text counts as that number. |
| `ClientApp.HandleStorageChange` | job-application-tracker-frontend/src/App.jsx:40-43 | A storage event sets authenticated to whether a non-empty token is stored. |
| `ClientApp.StorageEventSkipsExpiry` | job-application-tracker-frontend/src/App.jsx:40-43 | An expired token the load check rejects is accepted by the storage handler, which does not check expiry. |
| `ClientApp.Render` | job-application-tracker-frontend/src/App.jsx:51-66 | Spinner iff loading. Otherwise Landing iff authenticated, else SignInPage. |
| `ClientApp.SpinnerOnlyBeforeCheck` | job-application-tracker-frontend/src/App.jsx:51-60 | The spinner shows only before the load check; after it, or after any storage event, it never shows again. |

## Left out

- JavaScript's exact white-space set for `trim` and `\s`: `Text.IsSpace` is a fixed subset of it (ASCII white space, NBSP, BOM, and the line and paragraph separators).
- The difference between UTF-16 code units and characters: lengths are sequence lengths.
- The regex `.` versus newline difference: the password lookaheads are modelled as "occurs somewhere".
- validator.js's `isEmail`, `normalizeEmail`, `isURL` and `isInt` parsing are uninterpreted `Library` functions.
- Body values of the wrong JSON type in string fields. A field is present text or absent.
- A `skills` or `skillsMatched` value that is neither an array nor a string is not modelled. A string in place of `skills` is iterated character by character, as the loop does.
- The sanitized values (trimmed, normalized) that the chains write back into `req.body`. Only recorded errors are modelled.
- The controllers (register, login, profile, password change) are not part of this model. A pipeline that reaches one is reported as delegated, with the user and the errors.
- `logger` calls, `helmet`, body parsing, `trust proxy` and the request timer are left out; only the level choice is modelled.
- The health body's uptime, timestamp, environment and version fields are left out. `Server.HealthResponse` keeps only its constant `status` and `database` fields.
- How `routes/index.js` mounts the router is not modelled. `Server.Handle` takes the router's answer as a parameter.
- Express routing details are left out: case-insensitive and trailing-slash path matching, and `req.path` being relative to the mount in the 404 fallback. Paths are compared exactly, and the fallback echoes the path it is given.
- The CORS preflight handling inside the `cors` package is left out. An allowed `OPTIONS` request is reported as `Preflight`.
- The shape of `decoded.userId` and a lookup that throws instead of returning an error are left out. Verify results are a datatype.
- `server.js`, `setup-db.js` and the presentational components are left out: Dashboard, StatCard, ApplicationRow, the Landing tabs, JobExtractor and ResumeMatch.
- `App.jsx` renders `Landing` without the `user` prop that `Landing.jsx` reads. The view is reported as `Landing` and the missing prop is not modelled.
- `atob(undefined)` for a token without a dot is left to the abstract decoder: it is passed `None`.
- `Http.Json`: JSON numbers are unbounded exact integers, not IEEE doubles. A fractional number, such as a fractional `exp` or `token`, is not modelled. Nor is the rounding `JSON.parse` applies above 2^53 (`9007199254740993` arrives as `9007199254740992`), nor the exponent form `String(n)` uses from 1e21 on (`1e+21`, where `Http.ToText` writes all the digits).
- `SignIn.TokenSavedIff`: the saved text of a numeric token is its full decimal digits; for a magnitude of 1e21 or more, or one above 2^53, the page stores the double's exponent or rounded form instead.
- `Http.ToNumber`: text converts only when, after trimming, it is empty or an optional sign followed by decimal digits. Fraction, exponent, hexadecimal, binary, octal and `Infinity` forms are read as NaN, although JavaScript reads them as numbers.
- `ClientApp.ExpiryMillis`: assumes an integral `exp`, as `Http.Json` does, and computes `exp * 1000` exactly. In JavaScript the product is a double, which is exact only while its magnitude stays within 2^53 (an `exp` below about 9.007e12); beyond that the product is rounded and the model does not follow it.
- `SignIn.FinishSubmit`: the page state keeps `data.message` as the value it is. How React renders a non-string message is not modelled: a number shows its digits, `true` shows nothing, and an object makes rendering throw.
- The `HEAD` answer's body is not dropped: a `HEAD` request is reported with the `GET` handler's response.
- The submit button's `disabled` attribute and the password visibility toggle are not modelled.
- `Text.Trim`: its own contract only bounds the length. What it keeps and strips is stated by the lemma `Text.TrimSpec`.
- `Profile.Clean`: its own contract states only the shape of the entries. Which pieces survive, and in what order, is stated by `Profile.CleanKeepsNonBlank`, `Profile.CleanConcat` and `Profile.CleanSingle`.
- `Profile.ParseSkills`: its own contract states only the shape of the entries. Which pieces survive is stated by `Profile.ParseSkillsKeepsNonBlank`.

## Findings

| source | as written | input that shows it | evidently intended | confidence | as-written member | corrected member |
|---|---|---|---|---|---|---|
| job-application-tracker-frontend/src/components/Profile.jsx:11 | `handleSave` calls `setUser`, which is not defined in the component, so it throws a ReferenceError before `setEditing(false)`. | Any press of "Save Changes" while editing | Hand the computed record to the parent's `handleUserUpdate` (passed by `Landing.jsx` line 50) and end editing. | not executed | `Profile.SaveAsWritten` (with `Profile.SaveAsWrittenStaysEditing`) | `Profile.Save` (with `Profile.SaveChangesOnlyNameAndSkills`) |
