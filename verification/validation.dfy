/**
 * The express-validator rule chains of the backend's validation middleware.
 *
 * Each chain checks one body field. Every validator of a chain that fails
 * records one error; no chain stops at its first failure, and the chains run
 * in the order they are listed, so a validator's result is the concatenation
 * of its chains' errors. The chains only record errors: what is done with them
 * is decided by the controllers, which are not part of this model.
 *
 * Non-optional fields that are absent are read as the empty string;
 * `optional()` skips the chain when the field is absent.
 */
module Validation {
  import opened Wrappers
  import opened Text
  import opened Pattern

  /** The body fields the chains check. */
  datatype Field =
    | FirstName
    | Email
    | Password
    | CurrentPassword
    | NewPassword
    | Skills
    | JobUrl
    | Company
    | Position
    | JobDescription
    | SkillsMatched
    | MatchPercentage
    | Status
    | SalaryRange
    | Location
    | WorkType
    | Notes
    | Name
    | Phone
    | LinkedinUrl
  {
    /** The field's name in the request body and in recorded errors. */
    function Key(): string {
      match this
      case FirstName => "firstName"
      case Email => "email"
      case Password => "password"
      case CurrentPassword => "currentPassword"
      case NewPassword => "newPassword"
      case Skills => "skills"
      case JobUrl => "jobUrl"
      case Company => "company"
      case Position => "position"
      case JobDescription => "jobDescription"
      case SkillsMatched => "skillsMatched"
      case MatchPercentage => "matchPercentage"
      case Status => "status"
      case SalaryRange => "salaryRange"
      case Location => "location"
      case WorkType => "workType"
      case Notes => "notes"
      case Name => "name"
      case Phone => "phone"
      case LinkedinUrl => "linkedinUrl"
    }
  }

  /** The messages the validators record. */
  datatype Message =
    | FirstNameLength
    | FirstNameChars
    | EmailInvalid
    | EmailLength
    | PasswordLength
    | PasswordClasses
    | PasswordRequired
    | SkillsNotArray
    | MaxSkillsExceeded
    | EmptySkill
    | LongSkill
    | CurrentPasswordRequired
    | NewPasswordLength
    | NewPasswordClasses
    | JobUrlInvalid
    | JobUrlLength
    | CompanyRequired
    | PositionRequired
    | JobDescriptionLength
    | SkillsMatchedNotArray
    | MatchPercentageRange
    | ApplicationStatusInvalid
    | SalaryRangeLength
    | LocationLength
    | WorkTypeLength
    | NotesLength
    | NameRequired
    | PhoneInvalid
    | PhoneLength
    | CompanyLength
    | PositionLength
    | LinkedinInvalid
    | ContactStatusInvalid
  {
    /** The text recorded in the error. */
    function Text(): string {
      match this
      case FirstNameLength => "First name must be between 2 and 50 characters"
      case FirstNameChars => "First name can only contain letters, spaces, hyphens, and apostrophes"
      case EmailInvalid => "Please provide a valid email address"
      case EmailLength => "Email must not exceed 255 characters"
      case PasswordLength => "Password must be between 6 and 128 characters"
      case PasswordClasses => "Password must contain at least one lowercase letter, one uppercase letter, and one number"
      case PasswordRequired => "Password is required"
      case SkillsNotArray => "Skills must be an array"
      case MaxSkillsExceeded => "Maximum 50 skills allowed"
      case EmptySkill => "Each skill must be a non-empty string"
      case LongSkill => "Each skill must not exceed 100 characters"
      case CurrentPasswordRequired => "Current password is required"
      case NewPasswordLength => "New password must be between 6 and 128 characters"
      case NewPasswordClasses => "New password must contain at least one lowercase letter, one uppercase letter, and one number"
      case JobUrlInvalid => "Please provide a valid job URL"
      case JobUrlLength => "Job URL must not exceed 2000 characters"
      case CompanyRequired => "Company name is required and must not exceed 255 characters"
      case PositionRequired => "Position is required and must not exceed 255 characters"
      case JobDescriptionLength => "Job description must not exceed 10000 characters"
      case SkillsMatchedNotArray => "Skills matched must be an array"
      case MatchPercentageRange => "Match percentage must be between 0 and 100"
      case ApplicationStatusInvalid => "Status must be one of: applied, interview, rejected, accepted, withdrawn"
      case SalaryRangeLength => "Salary range must not exceed 100 characters"
      case LocationLength => "Location must not exceed 255 characters"
      case WorkTypeLength => "Work type must not exceed 50 characters"
      case NotesLength => "Notes must not exceed 5000 characters"
      case NameRequired => "Name is required and must not exceed 255 characters"
      case PhoneInvalid => "Please provide a valid phone number"
      case PhoneLength => "Phone number must not exceed 50 characters"
      case CompanyLength => "Company must not exceed 255 characters"
      case PositionLength => "Position must not exceed 255 characters"
      case LinkedinInvalid => "Please provide a valid LinkedIn URL"
      case ContactStatusInvalid => "Status must be one of: active, inactive, responded"
    }
  }

  datatype FieldError = FieldError(field: Field, message: Message)

  /**
   * The validator.js predicates and sanitizers the chains call, whose
   * definitions are not modelled: `isEmail`, `normalizeEmail`, `isURL`, and
   * the integer a string denotes under `isInt`'s syntax, if any.
   */
  datatype Library = Library(
    isEmail: string -> bool,
    normalizeEmail: string -> string,
    isUrl: string -> bool,
    intValue: string -> Option<int>)

  /** A JSON array element as the skills check sees it: a string, or any other value. */
  datatype Item = ItemText(s: string) | ItemOther

  /** A field where an array is expected: an array, or a string in its place. */
  datatype ArrayValue = ArrayOf(items: seq<Item>) | StringValue(s: string)

  /** The body fields read by the authentication routes' validators. */
  datatype AuthBody = AuthBody(
    firstName: Option<string>,
    email: Option<string>,
    password: Option<string>,
    currentPassword: Option<string>,
    newPassword: Option<string>,
    skills: Option<ArrayValue>)

  /** One `body(field)` chain and the messages of the validators in it that failed, in order. */
  datatype Chain = Chain(field: Field, messages: seq<Message>)

  /** The errors a validator records: each chain's messages against its field, chain by chain. */
  function Collect(chains: seq<Chain>): (errs: seq<FieldError>)
    ensures |errs| == 0 <==> forall k :: 0 <= k < |chains| ==> chains[k].messages == []
  {
    if |chains| == 0 then []
    else
      var rest := Collect(chains[1..]);
      assert forall k :: 1 <= k < |chains| ==> chains[k] == chains[1..][k - 1];
      seq(|chains[0].messages|, i requires 0 <= i < |chains[0].messages| => FieldError(chains[0].field, chains[0].messages[i]))
      + rest
  }

  /** An error is recorded iff some chain for that field produced the message. */
  lemma {:induction false} CollectHas(chains: seq<Chain>, f: Field, m: Message)
    ensures FieldError(f, m) in Collect(chains) <==>
      exists k :: 0 <= k < |chains| && chains[k].field == f && m in chains[k].messages
    decreases |chains|
  {
    if |chains| > 0 {
      CollectHas(chains[1..], f, m);
      var head := seq(|chains[0].messages|, i requires 0 <= i < |chains[0].messages| => FieldError(chains[0].field, chains[0].messages[i]));
      assert Collect(chains) == head + Collect(chains[1..]);
      assert FieldError(f, m) in head <==> chains[0].field == f && m in chains[0].messages by {
        if FieldError(f, m) in head {
          var i :| 0 <= i < |head| && head[i] == FieldError(f, m);
        }
        if chains[0].field == f && m in chains[0].messages {
          var i :| 0 <= i < |chains[0].messages| && chains[0].messages[i] == m;
          assert head[i] == FieldError(f, m);
        }
      }
      if exists k :: 0 <= k < |chains| && chains[k].field == f && m in chains[k].messages {
        var k :| 0 <= k < |chains| && chains[k].field == f && m in chains[k].messages;
        if k > 0 {
          assert chains[1..][k - 1] == chains[k];
        }
      }
      if exists k :: 0 <= k < |chains[1..]| && chains[1..][k].field == f && m in chains[1..][k].messages {
        var k :| 0 <= k < |chains[1..]| && chains[1..][k].field == f && m in chains[1..][k].messages;
        assert chains[k + 1] == chains[1..][k];
      }
    }
  }

  /** One validator of a chain: its message when the check fails, nothing otherwise. */
  function Rule(ok: bool, message: Message): seq<Message> {
    if ok then [] else [message]
  }

  /** The text a non-optional chain sees. */
  function TextOf(v: Option<string>): string {
    v.GetOr("")
  }

  /** Chains from their fields and the messages each recorded. */
  function Pair(fields: seq<Field>, messages: seq<seq<Message>>): (r: seq<Chain>)
    requires |fields| == |messages|
    ensures |r| == |fields|
    ensures forall k :: 0 <= k < |r| ==> r[k].field == fields[k] && r[k].messages == messages[k]
  {
    seq(|fields|, k requires 0 <= k < |fields| => Chain(fields[k], messages[k]))
  }

  /** Paired chains record nothing iff every chain's message list is empty. */
  lemma CollectPairEmpty(fields: seq<Field>, messages: seq<seq<Message>>)
    requires |fields| == |messages|
    ensures Collect(Pair(fields, messages)) == [] <==> forall k :: 0 <= k < |messages| ==> messages[k] == []
  {
    var c := Pair(fields, messages);
    assert forall k :: 0 <= k < |c| ==> c[k].messages == messages[k];
  }

  /** The errors recorded against a field that only chain `k` checks are that chain's messages. */
  lemma {:induction false} CollectSingleField(fields: seq<Field>, messages: seq<seq<Message>>, k: nat, m: Message)
    requires |fields| == |messages| && k < |fields|
    requires forall j :: 0 <= j < |fields| && j != k ==> fields[j] != fields[k]
    ensures FieldError(fields[k], m) in Collect(Pair(fields, messages)) <==> m in messages[k]
  {
    CollectHas(Pair(fields, messages), fields[k], m);
  }

  /** The messages of an `optional()` chain: none when the field is absent. */
  function IfPresent(v: Option<string>, rules: string -> seq<Message>): seq<Message> {
    match v
    case None => []
    case Some(s) => rules(s)
  }

  /** An optional `isLength({ max })` chain. */
  function MaxLengthRules(v: Option<string>, max: nat, message: Message): seq<Message> {
    match v
    case None => []
    case Some(s) => Rule(|s| <= max, message)
  }

  // ---------------------------------------------------------------------------
  // First name

  predicate IsNameChar(c: char) {
    IsLetter(c) || IsSpace(c) || c == '\'' || c == '-'
  }

  /** `/^[a-zA-Z\s'-]+$/` */
  const NamePattern: seq<Piece> := [Piece(IsNameChar, 1, Unbounded)]

  /** `trim()`, then `isLength({ min: 2, max: 50 })`, then `matches(NamePattern)`, on the trimmed text. */
  function FirstNameRules(value: string): seq<Message> {
    var v := Trim(value);
    Rule(2 <= |v| <= 50, FirstNameLength) + Rule(Match(NamePattern, v), FirstNameChars)
  }

  /** A first name the policy admits: 2 to 50 characters, each a letter, white space, `-` or `'`. */
  ghost predicate AcceptableFirstName(v: string) {
    2 <= |v| <= 50 && forall i :: 0 <= i < |v| ==> IsNameChar(v[i])
  }

  lemma NamePatternIff(s: string)
    ensures Match(NamePattern, s) <==> |s| >= 1 && forall i :: 0 <= i < |s| ==> IsNameChar(s[i])
  {
    MatchIff(NamePattern, s);
    AllIff(s, IsNameChar);
    if |s| >= 1 && All(s, IsNameChar) {
      assert s[..|s|] == s;
      assert Match(NamePattern[1..], s[|s|..]);
    }
    if Match(NamePattern, s) {
      var k :| 1 <= k <= |s| && All(s[..k], IsNameChar) && Match(NamePattern[1..], s[k..]);
      assert k == |s|;
      assert s[..k] == s;
    }
  }

  /** A first name is accepted iff its trim has 2 to 50 characters, all letters, white space, `-` or `'`. */
  lemma FirstNameAcceptedIff(value: string)
    ensures FirstNameRules(value) == [] <==> AcceptableFirstName(Trim(value))
  {
    NamePatternIff(Trim(value));
  }

  /** White space around a first name never matters: the chain trims before checking. */
  lemma FirstNameTrimmedFirst(value: string)
    ensures FirstNameRules(value) == FirstNameRules(Trim(value))
  {
    TrimIdempotent(value);
  }

  // ---------------------------------------------------------------------------
  // Email

  /** `isEmail()`, `normalizeEmail()`, then `isLength({ max: 255 })` on the normalized address. */
  function EmailRules(lib: Library, value: string): seq<Message> {
    Rule(lib.isEmail(value), EmailInvalid) + Rule(|lib.normalizeEmail(value)| <= 255, EmailLength)
  }

  // ---------------------------------------------------------------------------
  // Passwords

  /**
   * `isLength({ min: 6, max: 128 })`, then `matches(/^(?=.*[a-z])(?=.*[A-Z])(?=.*\d)/)`:
   * three lookaheads, each satisfied when the class occurs somewhere.
   */
  function StrengthRules(lengthMessage: Message, classesMessage: Message, p: string): seq<Message> {
    Rule(6 <= |p| <= 128, lengthMessage) + Rule(Any(p, IsLower) && Any(p, IsUpper) && Any(p, IsDigit), classesMessage)
  }

  /** The password strength policy: 6 to 128 characters with a lower-case letter, an upper-case letter and a digit. */
  ghost predicate StrongPassword(p: string) {
    && 6 <= |p| <= 128
    && (exists i :: 0 <= i < |p| && IsLower(p[i]))
    && (exists i :: 0 <= i < |p| && IsUpper(p[i]))
    && (exists i :: 0 <= i < |p| && IsDigit(p[i]))
  }

  function RegisterPasswordRules(p: string): seq<Message> {
    StrengthRules(PasswordLength, PasswordClasses, p)
  }

  function NewPasswordRules(p: string): seq<Message> {
    StrengthRules(NewPasswordLength, NewPasswordClasses, p)
  }

  /** `notEmpty()` */
  function RequiredRule(value: string, message: Message): seq<Message> {
    Rule(|value| != 0, message)
  }

  /** A registration password is accepted iff it meets the strength policy. */
  lemma RegisterPasswordAcceptedIff(p: string)
    ensures RegisterPasswordRules(p) == [] <==> StrongPassword(p)
  {
    AnyIff(p, IsLower);
    AnyIff(p, IsUpper);
    AnyIff(p, IsDigit);
  }

  /**
   * Changing a password applies the registration policy to the new one (only
   * the messages differ), while login only asks for a non-empty password, so
   * login accepts passwords the policy rejects.
   */
  lemma PasswordPoliciesCompared(p: string)
    ensures NewPasswordRules(p) == [] <==> StrongPassword(p)
    ensures |NewPasswordRules(p)| == |RegisterPasswordRules(p)|
    ensures StrongPassword(p) ==> RequiredRule(p, PasswordRequired) == []
    ensures RequiredRule("a", PasswordRequired) == [] && !StrongPassword("a")
  {
    RegisterPasswordAcceptedIff(p);
  }

  // ---------------------------------------------------------------------------
  // Skills

  /** The first check one entry fails, if any: string-ness and non-blank first, then length. */
  function SkillProblem(item: Item): Option<Message> {
    match item
    case ItemOther => Some(EmptySkill)
    case ItemText(s) =>
      if Trim(s) == [] then Some(EmptySkill)
      else if |s| > 100 then Some(LongSkill)
      else None
  }

  /** A skill the policy admits: a string that is not all white space, of at most 100 characters. */
  ghost predicate ValidSkill(item: Item) {
    item.ItemText? && !(forall k :: 0 <= k < |item.s| ==> IsSpace(item.s[k])) && |item.s| <= 100
  }

  lemma SkillProblemIff(item: Item)
    ensures SkillProblem(item).None? <==> ValidSkill(item)
  {
    if item.ItemText? {
      TrimEmptyIff(item.s);
      AllIff(item.s, IsSpace);
    }
  }

  /** The loop over the entries: the index of the first entry that fails, if any. */
  function FirstSkillFailure(items: seq<Item>): (r: Option<nat>)
    ensures r.None? <==> forall i :: 0 <= i < |items| ==> SkillProblem(items[i]).None?
    ensures r.Some? ==> r.value < |items| && SkillProblem(items[r.value]).Some?
    ensures r.Some? ==> forall j :: 0 <= j < r.value ==> SkillProblem(items[j]).None?
  {
    if |items| == 0 then None
    else if SkillProblem(items[0]).Some? then Some(0)
    else
      var r := FirstSkillFailure(items[1..]);
      assert forall i :: 1 <= i < |items| ==> items[i] == items[1..][i - 1];
      match r
      case None => None
      case Some(i) => Some(i + 1)
  }

  /** The custom validator: the count is checked before any entry, then the first failing entry's message. */
  function SkillsCustom(items: seq<Item>): Option<Message> {
    if |items| > 50 then Some(MaxSkillsExceeded)
    else match FirstSkillFailure(items)
      case None => None
      case Some(i) => SkillProblem(items[i])
  }

  /** What `for (const skill of value)` iterates when the value is a string: its characters. */
  function Chars(s: string): seq<Item> {
    seq(|s|, i requires 0 <= i < |s| => ItemText([s[i]]))
  }

  /** `isArray()`, then the custom check, which also runs when `isArray` failed. */
  function SkillsRules(v: ArrayValue): seq<Message> {
    var custom := match v
      case ArrayOf(items) => SkillsCustom(items)
      case StringValue(s) => SkillsCustom(Chars(s));
    Rule(v.ArrayOf?, SkillsNotArray) + (match custom case None => [] case Some(m) => [m])
  }

  /** A skills array is accepted iff it has at most 50 entries and every entry is a valid skill. */
  lemma SkillsAcceptedIff(items: seq<Item>)
    ensures SkillsRules(ArrayOf(items)) == [] <==> |items| <= 50 && forall i :: 0 <= i < |items| ==> ValidSkill(items[i])
  {
    forall i | 0 <= i < |items| {
      SkillProblemIff(items[i]);
    }
  }

  /** More than 50 entries give the count message alone, whatever the entries are. */
  lemma TooManySkills(items: seq<Item>)
    requires |items| > 50
    ensures SkillsRules(ArrayOf(items)) == [MaxSkillsExceeded]
  {
  }

  /**
   * With at most 50 entries, the reported message is that of the first
   * failing entry, whatever the later entries are.
   */
  lemma {:induction false} FirstFailingSkillReported(items: seq<Item>, i: nat)
    requires |items| <= 50 && i < |items|
    requires forall j :: 0 <= j < i ==> SkillProblem(items[j]).None?
    requires SkillProblem(items[i]).Some?
    ensures SkillsRules(ArrayOf(items)) == [SkillProblem(items[i]).value]
  {
  }

  /** One entry: a blank string fails as empty even when it is also too long; 100 characters pass, 101 fail. */
  lemma SkillEntryChecks(s: string)
    ensures All(s, IsSpace) ==> SkillProblem(ItemText(s)) == Some(EmptySkill)
    ensures !All(s, IsSpace) ==> (SkillProblem(ItemText(s)) == None <==> |s| <= 100)
    ensures !All(s, IsSpace) && |s| > 100 ==> SkillProblem(ItemText(s)) == Some(LongSkill)
  {
    TrimEmptyIff(s);
  }

  // ---------------------------------------------------------------------------
  // The validators of the authentication routes

  /** `validateRegister`: first name, email, password. */
  function RegisterChains(lib: Library, b: AuthBody): seq<Chain> {
    [ Chain(FirstName, FirstNameRules(TextOf(b.firstName))),
      Chain(Email, EmailRules(lib, TextOf(b.email))),
      Chain(Password, RegisterPasswordRules(TextOf(b.password))) ]
  }

  /** `validateLogin`: a valid email and a non-empty password, with no strength policy. */
  function LoginChains(lib: Library, b: AuthBody): seq<Chain> {
    [ Chain(Email, Rule(lib.isEmail(TextOf(b.email)), EmailInvalid)),
      Chain(Password, RequiredRule(TextOf(b.password), PasswordRequired)) ]
  }

  /** `validateProfileUpdate`: both chains are optional. */
  function ProfileUpdateChains(b: AuthBody): seq<Chain> {
    [ Chain(FirstName, IfPresent(b.firstName, FirstNameRules)),
      Chain(Skills, match b.skills case None => [] case Some(v) => SkillsRules(v)) ]
  }

  /** `validatePasswordChange`: a non-empty current password and a strong new one. */
  function PasswordChangeChains(b: AuthBody): seq<Chain> {
    [ Chain(CurrentPassword, RequiredRule(TextOf(b.currentPassword), CurrentPasswordRequired)),
      Chain(NewPassword, NewPasswordRules(TextOf(b.newPassword))) ]
  }

  function ValidateRegister(lib: Library, b: AuthBody): seq<FieldError> { Collect(RegisterChains(lib, b)) }
  function ValidateLogin(lib: Library, b: AuthBody): seq<FieldError> { Collect(LoginChains(lib, b)) }
  function ValidateProfileUpdate(b: AuthBody): seq<FieldError> { Collect(ProfileUpdateChains(b)) }
  function ValidatePasswordChange(b: AuthBody): seq<FieldError> { Collect(PasswordChangeChains(b)) }

  lemma RegisterAcceptedIff(lib: Library, b: AuthBody)
    ensures ValidateRegister(lib, b) == [] <==>
      && AcceptableFirstName(Trim(TextOf(b.firstName)))
      && lib.isEmail(TextOf(b.email))
      && |lib.normalizeEmail(TextOf(b.email))| <= 255
      && StrongPassword(TextOf(b.password))
  {
    var c := RegisterChains(lib, b);
    assert Collect(c) == [] <==> c[0].messages == [] && c[1].messages == [] && c[2].messages == [];
    FirstNameAcceptedIff(TextOf(b.firstName));
    RegisterPasswordAcceptedIff(TextOf(b.password));
  }

  lemma LoginAcceptedIff(lib: Library, b: AuthBody)
    ensures ValidateLogin(lib, b) == [] <==> lib.isEmail(TextOf(b.email)) && TextOf(b.password) != ""
  {
    var c := LoginChains(lib, b);
    assert Collect(c) == [] <==> c[0].messages == [] && c[1].messages == [];
  }

  /** An absent field passes; a present first name meets the registration rule; a present skills value must be a valid array. */
  lemma ProfileUpdateAcceptedIff(b: AuthBody)
    ensures ValidateProfileUpdate(b) == [] <==>
      && (b.firstName.Some? ==> AcceptableFirstName(Trim(b.firstName.value)))
      && (b.skills.Some? ==>
            && b.skills.value.ArrayOf?
            && |b.skills.value.items| <= 50
            && forall i :: 0 <= i < |b.skills.value.items| ==> ValidSkill(b.skills.value.items[i]))
  {
    var c := ProfileUpdateChains(b);
    assert Collect(c) == [] <==> c[0].messages == [] && c[1].messages == [];
    if b.firstName.Some? {
      FirstNameAcceptedIff(b.firstName.value);
    }
    if b.skills.Some? && b.skills.value.ArrayOf? {
      SkillsAcceptedIff(b.skills.value.items);
    }
  }

  lemma PasswordChangeAcceptedIff(b: AuthBody)
    ensures ValidatePasswordChange(b) == [] <==> TextOf(b.currentPassword) != "" && StrongPassword(TextOf(b.newPassword))
  {
    var c := PasswordChangeChains(b);
    assert Collect(c) == [] <==> c[0].messages == [] && c[1].messages == [];
    PasswordPoliciesCompared(TextOf(b.newPassword));
  }

  // ---------------------------------------------------------------------------
  // Job applications

  const ApplicationStatuses: seq<string> := ["applied", "interview", "rejected", "accepted", "withdrawn"]

  datatype ApplicationBody = ApplicationBody(
    jobUrl: Option<string>,
    company: Option<string>,
    position: Option<string>,
    jobDescription: Option<string>,
    skillsMatched: Option<ArrayValue>,
    matchPercentage: Option<string>,
    status: Option<string>,
    salaryRange: Option<string>,
    location: Option<string>,
    workType: Option<string>,
    notes: Option<string>)

  /** `isInt({ min, max })`: the text denotes an integer in `[min, max]`. */
  predicate IsIntIn(lib: Library, s: string, min: int, max: int) {
    lib.intValue(s).Some? && min <= lib.intValue(s).value <= max
  }

  /** A required text chain: `trim()`, then `isLength({ min: 1, max: 255 })`. */
  function RequiredTextRules(v: Option<string>, message: Message): seq<Message> {
    Rule(1 <= |Trim(TextOf(v))| <= 255, message)
  }

  /** An optional `isArray()` chain. */
  function SkillsMatchedRules(v: Option<ArrayValue>): seq<Message> {
    match v
    case None => []
    case Some(a) => Rule(a.ArrayOf?, SkillsMatchedNotArray)
  }

  /** An optional `isInt({ min: 0, max: 100 })` chain. */
  function MatchPercentageRules(lib: Library, v: Option<string>): seq<Message> {
    match v
    case None => []
    case Some(s) => Rule(IsIntIn(lib, s, 0, 100), MatchPercentageRange)
  }

  /** An optional `isIn(values)` chain: exact membership. */
  function InListRules(v: Option<string>, values: seq<string>, message: Message): seq<Message> {
    match v
    case None => []
    case Some(s) => Rule(s in values, message)
  }

  /** `validateJobApplication`: the fields its chains check, in order. */
  const JobApplicationFields: seq<Field> :=
    [JobUrl, Company, Position, JobDescription, SkillsMatched, MatchPercentage, Status, SalaryRange, Location, WorkType, Notes]

  /** The messages each of those chains records. */
  function JobApplicationMessages(lib: Library, b: ApplicationBody): seq<seq<Message>> {
    [ Rule(lib.isUrl(TextOf(b.jobUrl)), JobUrlInvalid)
        + Rule(|TextOf(b.jobUrl)| <= 2000, JobUrlLength),
      RequiredTextRules(b.company, CompanyRequired),
      RequiredTextRules(b.position, PositionRequired),
      MaxLengthRules(b.jobDescription, 10000, JobDescriptionLength),
      SkillsMatchedRules(b.skillsMatched),
      MatchPercentageRules(lib, b.matchPercentage),
      InListRules(b.status, ApplicationStatuses, ApplicationStatusInvalid),
      MaxLengthRules(b.salaryRange, 100, SalaryRangeLength),
      MaxLengthRules(b.location, 255, LocationLength),
      MaxLengthRules(b.workType, 50, WorkTypeLength),
      MaxLengthRules(b.notes, 5000, NotesLength) ]
  }

  function JobApplicationChains(lib: Library, b: ApplicationBody): seq<Chain> {
    Pair(JobApplicationFields, JobApplicationMessages(lib, b))
  }

  function ValidateJobApplication(lib: Library, b: ApplicationBody): seq<FieldError> {
    Collect(JobApplicationChains(lib, b))
  }

  /** The errors recorded against the field of chain `k` of `validateJobApplication` are that chain's messages. */
  lemma JobApplicationFieldErrors(lib: Library, b: ApplicationBody, k: nat, m: Message)
    requires k < |JobApplicationFields|
    requires forall j :: 0 <= j < |JobApplicationFields| && j != k ==> JobApplicationFields[j] != JobApplicationFields[k]
    ensures FieldError(JobApplicationFields[k], m) in ValidateJobApplication(lib, b) <==>
      m in JobApplicationMessages(lib, b)[k]
  {
    CollectSingleField(JobApplicationFields, JobApplicationMessages(lib, b), k, m);
  }

  /** The match percentage is flagged iff it is present and not an integer in [0, 100]. */
  lemma ApplicationPercentageCheck(lib: Library, b: ApplicationBody)
    ensures FieldError(MatchPercentage, MatchPercentageRange) in ValidateJobApplication(lib, b) <==>
      b.matchPercentage.Some? && !IsIntIn(lib, b.matchPercentage.value, 0, 100)
  {
    var fields := JobApplicationFields;
    assert fields[5] == MatchPercentage;
    assert forall j :: 0 <= j < |fields| && j != 5 ==> fields[j] != MatchPercentage;
    JobApplicationFieldErrors(lib, b, 5, MatchPercentageRange);
    assert JobApplicationMessages(lib, b)[5] == MatchPercentageRules(lib, b.matchPercentage);
  }

  /** The status is flagged iff it is present and not one of the five application statuses. */
  lemma ApplicationStatusCheck(lib: Library, b: ApplicationBody)
    ensures FieldError(Status, ApplicationStatusInvalid) in ValidateJobApplication(lib, b) <==>
      b.status.Some? && b.status.value !in {"applied", "interview", "rejected", "accepted", "withdrawn"}
  {
    var fields := JobApplicationFields;
    assert fields[6] == Status;
    assert forall j :: 0 <= j < |fields| && j != 6 ==> fields[j] != Status;
    JobApplicationFieldErrors(lib, b, 6, ApplicationStatusInvalid);
    assert JobApplicationMessages(lib, b)[6] == InListRules(b.status, ApplicationStatuses, ApplicationStatusInvalid);
    if b.status.Some? {
      StatusListed(b.status.value);
    }
  }

  /**
   * A job application records no error iff the URL is valid and at most
   * 2000 characters, the trimmed company and position have 1 to 255
   * characters, and every optional field that is present meets its rule.
   */
  lemma JobApplicationAcceptedIff(lib: Library, b: ApplicationBody)
    ensures ValidateJobApplication(lib, b) == [] <==>
      && lib.isUrl(TextOf(b.jobUrl)) && |TextOf(b.jobUrl)| <= 2000
      && 1 <= |Trim(TextOf(b.company))| <= 255
      && 1 <= |Trim(TextOf(b.position))| <= 255
      && (b.jobDescription.Some? ==> |b.jobDescription.value| <= 10000)
      && (b.skillsMatched.Some? ==> b.skillsMatched.value.ArrayOf?)
      && (b.matchPercentage.Some? ==> IsIntIn(lib, b.matchPercentage.value, 0, 100))
      && (b.status.Some? ==> b.status.value in {"applied", "interview", "rejected", "accepted", "withdrawn"})
      && (b.salaryRange.Some? ==> |b.salaryRange.value| <= 100)
      && (b.location.Some? ==> |b.location.value| <= 255)
      && (b.workType.Some? ==> |b.workType.value| <= 50)
      && (b.notes.Some? ==> |b.notes.value| <= 5000)
  {
    var msgs := JobApplicationMessages(lib, b);
    CollectPairEmpty(JobApplicationFields, msgs);
    ElevenEmpty(msgs);
    RequiredTextEmpty(b.company, CompanyRequired);
    RequiredTextEmpty(b.position, PositionRequired);
    MaxLengthEmpty(b.jobDescription, 10000, JobDescriptionLength);
    MaxLengthEmpty(b.salaryRange, 100, SalaryRangeLength);
    MaxLengthEmpty(b.location, 255, LocationLength);
    MaxLengthEmpty(b.workType, 50, WorkTypeLength);
    MaxLengthEmpty(b.notes, 5000, NotesLength);
    ApplicationStatusEmpty(b.status);
  }

  /** Eleven message lists are all empty iff each one is. */
  lemma ElevenEmpty(m: seq<seq<Message>>)
    requires |m| == 11
    ensures (forall k :: 0 <= k < |m| ==> m[k] == []) <==>
      && m[0] == [] && m[1] == [] && m[2] == [] && m[3] == [] && m[4] == [] && m[5] == []
      && m[6] == [] && m[7] == [] && m[8] == [] && m[9] == [] && m[10] == []
  {
  }

  lemma RequiredTextEmpty(v: Option<string>, message: Message)
    ensures RequiredTextRules(v, message) == [] <==> 1 <= |Trim(TextOf(v))| <= 255
  {
  }

  lemma MaxLengthEmpty(v: Option<string>, max: nat, message: Message)
    ensures MaxLengthRules(v, max, message) == [] <==> (v.Some? ==> |v.value| <= max)
  {
  }

  lemma ApplicationStatusEmpty(v: Option<string>)
    ensures InListRules(v, ApplicationStatuses, ApplicationStatusInvalid) == [] <==>
      (v.Some? ==> v.value in {"applied", "interview", "rejected", "accepted", "withdrawn"})
  {
    if v.Some? {
      StatusListed(v.value);
    }
  }

  lemma StatusListed(s: string)
    ensures s in ApplicationStatuses <==> s in {"applied", "interview", "rejected", "accepted", "withdrawn"}
  {
  }

  // ---------------------------------------------------------------------------
  // Recruiter contacts

  const ContactStatuses: seq<string> := ["active", "inactive", "responded"]

  datatype ContactBody = ContactBody(
    name: Option<string>,
    email: Option<string>,
    phone: Option<string>,
    company: Option<string>,
    position: Option<string>,
    linkedinUrl: Option<string>,
    notes: Option<string>,
    status: Option<string>)

  predicate IsPlus(c: char) { c == '+' }
  predicate IsNonZeroDigit(c: char) { '1' <= c <= '9' }

  /** `/^[\+]?[1-9][\d]{0,15}$/` */
  const PhonePattern: seq<Piece> :=
    [Piece(IsPlus, 0, Finite(1)), Piece(IsNonZeroDigit, 1, Finite(1)), Piece(IsDigit, 0, Finite(15))]

  /** `matches(PhonePattern)`, then `isLength({ max: 50 })`. */
  function PhoneRules(p: string): seq<Message> {
    Rule(Match(PhonePattern, p), PhoneInvalid) + Rule(|p| <= 50, PhoneLength)
  }

  /** The digits of a phone number: the text after an optional leading `+`. */
  function PhoneDigits(s: string): string {
    if |s| > 0 && s[0] == '+' then s[1..] else s
  }

  /** A phone number the pattern describes: 1 to 16 digits, the first not `0`, after an optional `+`. */
  ghost predicate PhoneShape(s: string) {
    var d := PhoneDigits(s);
    1 <= |d| <= 16 && d[0] != '0' && forall i :: 0 <= i < |d| ==> IsDigit(d[i])
  }

  lemma DigitRunIff(u: string)
    ensures Match(PhonePattern[2..], u) <==> |u| <= 15 && All(u, IsDigit)
  {
    var ps := PhonePattern[2..];
    MatchIff(ps, u);
    if |u| <= 15 && All(u, IsDigit) {
      assert u[..|u|] == u;
      assert Match(ps[1..], u[|u|..]);
    }
    if Match(ps, u) {
      var k :| 0 <= k <= |u| && WithinMax(k, ps[0].max) && All(u[..k], IsDigit) && Match(ps[1..], u[k..]);
      assert k == |u|;
      assert u[..k] == u;
    }
  }

  lemma LeadDigitIff(t: string)
    ensures Match(PhonePattern[1..], t) <==> |t| >= 1 && IsNonZeroDigit(t[0]) && |t| - 1 <= 15 && All(t[1..], IsDigit)
  {
    var ps := PhonePattern[1..];
    assert ps[1..] == PhonePattern[2..];
    MatchIff(ps, t);
    if |t| >= 1 {
      DigitRunIff(t[1..]);
      assert All(t[..1], IsNonZeroDigit) <==> IsNonZeroDigit(t[0]);
      if IsNonZeroDigit(t[0]) && |t| - 1 <= 15 && All(t[1..], IsDigit) {
        assert SplitsFrom(ps, t, 1);
      }
    }
  }

  lemma PhonePatternIff(s: string)
    ensures Match(PhonePattern, s) <==> PhoneShape(s)
  {
    MatchIff(PhonePattern, s);
    assert PhonePattern[1..][1..] == PhonePattern[2..];
    var d := PhoneDigits(s);
    LeadDigitIff(d);
    if |d| >= 1 {
      AllIff(d[1..], IsDigit);
      assert forall i :: 1 <= i < |d| ==> d[i] == d[1..][i - 1];
    }
    if |s| > 0 && s[0] == '+' {
      LeadDigitIff(s);
      assert s[..1] == "+";
      assert !SplitsFrom(PhonePattern, s, 0) ==> !Match(PhonePattern[1..], s[0..]) && !SplitsFrom(PhonePattern, s, 1);
      assert s[1..] == d;
      assert All(s[..1], IsPlus);
      if Match(PhonePattern[1..], d) {
        assert WithinMax(1, PhonePattern[0].max);
        assert SplitsFrom(PhonePattern, s, 0);
      }
    } else {
      assert s[0..] == s;
      if Match(PhonePattern[1..], s) {
        assert SplitsFrom(PhonePattern, s, 0);
      }
      if |s| > 0 {
        assert !All(s[..1], IsPlus);
      }
    }
  }

  /** A phone number the pattern accepts has at most 17 characters, so the 50-character rule never flags it. */
  lemma PhoneLengthRuleSubsumed(p: string)
    requires Match(PhonePattern, p)
    ensures |p| <= 17
    ensures PhoneRules(p) == []
  {
    PhonePatternIff(p);
  }

  function OptionalEmailRules(lib: Library, v: Option<string>): seq<Message> {
    match v
    case None => []
    case Some(e) => EmailRules(lib, e)
  }

  function LinkedinRules(lib: Library, v: Option<string>): seq<Message> {
    match v
    case None => []
    case Some(u) => Rule(lib.isUrl(u), LinkedinInvalid)
  }

  /** `validateRecruiterContact`: the fields its chains check, in order. */
  const RecruiterContactFields: seq<Field> := [Name, Email, Phone, Company, Position, LinkedinUrl, Notes, Status]

  /** The messages each of those chains records. */
  function RecruiterContactMessages(lib: Library, b: ContactBody): seq<seq<Message>> {
    [ RequiredTextRules(b.name, NameRequired),
      OptionalEmailRules(lib, b.email),
      IfPresent(b.phone, PhoneRules),
      MaxLengthRules(b.company, 255, CompanyLength),
      MaxLengthRules(b.position, 255, PositionLength),
      LinkedinRules(lib, b.linkedinUrl),
      MaxLengthRules(b.notes, 5000, NotesLength),
      InListRules(b.status, ContactStatuses, ContactStatusInvalid) ]
  }

  function RecruiterContactChains(lib: Library, b: ContactBody): seq<Chain> {
    Pair(RecruiterContactFields, RecruiterContactMessages(lib, b))
  }

  function ValidateRecruiterContact(lib: Library, b: ContactBody): seq<FieldError> {
    Collect(RecruiterContactChains(lib, b))
  }

  /** The phone chain records its pattern message iff the number is not of the described shape. */
  lemma PhoneFlaggedIff(p: string)
    ensures PhoneInvalid in PhoneRules(p) <==> !PhoneShape(p)
  {
    PhonePatternIff(p);
  }

  /** The errors recorded against the field of chain `k` of `validateRecruiterContact` are that chain's messages. */
  lemma ContactFieldErrors(lib: Library, b: ContactBody, k: nat, m: Message)
    requires k < |RecruiterContactFields|
    requires forall j :: 0 <= j < |RecruiterContactFields| && j != k ==> RecruiterContactFields[j] != RecruiterContactFields[k]
    ensures FieldError(RecruiterContactFields[k], m) in ValidateRecruiterContact(lib, b) <==>
      m in RecruiterContactMessages(lib, b)[k]
  {
    CollectSingleField(RecruiterContactFields, RecruiterContactMessages(lib, b), k, m);
  }

  /** A contact's phone is flagged iff it is present and not of the described shape. */
  lemma ContactPhoneCheck(lib: Library, b: ContactBody)
    ensures FieldError(Phone, PhoneInvalid) in ValidateRecruiterContact(lib, b) <==>
      b.phone.Some? && !PhoneShape(b.phone.value)
  {
    var fields := RecruiterContactFields;
    assert fields[2] == Phone;
    assert forall j :: 0 <= j < |fields| && j != 2 ==> fields[j] != Phone;
    ContactFieldErrors(lib, b, 2, PhoneInvalid);
    assert RecruiterContactMessages(lib, b)[2] == IfPresent(b.phone, PhoneRules);
    if b.phone.Some? {
      PhoneFlaggedIff(b.phone.value);
    }
  }

  /**
   * A recruiter contact records no error iff the trimmed name has 1 to 255
   * characters and every optional field that is present meets its rule:
   * a valid email of at most 255 characters once normalized, a phone of the
   * pattern's shape, company and position of at most 255 characters, a valid
   * LinkedIn URL, notes of at most 5000 characters and a listed status.
   */
  lemma ContactAcceptedIff(lib: Library, b: ContactBody)
    ensures ValidateRecruiterContact(lib, b) == [] <==>
      && 1 <= |Trim(TextOf(b.name))| <= 255
      && (b.email.Some? ==> lib.isEmail(b.email.value) && |lib.normalizeEmail(b.email.value)| <= 255)
      && (b.phone.Some? ==> PhoneShape(b.phone.value))
      && (b.company.Some? ==> |b.company.value| <= 255)
      && (b.position.Some? ==> |b.position.value| <= 255)
      && (b.linkedinUrl.Some? ==> lib.isUrl(b.linkedinUrl.value))
      && (b.notes.Some? ==> |b.notes.value| <= 5000)
      && (b.status.Some? ==> b.status.value in {"active", "inactive", "responded"})
  {
    var msgs := RecruiterContactMessages(lib, b);
    CollectPairEmpty(RecruiterContactFields, msgs);
    EightEmpty(msgs);
    RequiredTextEmpty(b.name, NameRequired);
    OptionalPhoneEmpty(b.phone);
    MaxLengthEmpty(b.company, 255, CompanyLength);
    MaxLengthEmpty(b.position, 255, PositionLength);
    MaxLengthEmpty(b.notes, 5000, NotesLength);
    ContactStatusEmpty(b.status);
  }

  /** Eight message lists are all empty iff each one is. */
  lemma EightEmpty(m: seq<seq<Message>>)
    requires |m| == 8
    ensures (forall k :: 0 <= k < |m| ==> m[k] == []) <==>
      && m[0] == [] && m[1] == [] && m[2] == [] && m[3] == []
      && m[4] == [] && m[5] == [] && m[6] == [] && m[7] == []
  {
  }

  lemma OptionalPhoneEmpty(v: Option<string>)
    ensures IfPresent(v, PhoneRules) == [] <==> (v.Some? ==> PhoneShape(v.value))
  {
    if v.Some? {
      PhonePatternIff(v.value);
      if Match(PhonePattern, v.value) {
        PhoneLengthRuleSubsumed(v.value);
      }
    }
  }

  lemma ContactStatusEmpty(v: Option<string>)
    ensures InListRules(v, ContactStatuses, ContactStatusInvalid) == [] <==>
      (v.Some? ==> v.value in {"active", "inactive", "responded"})
  {
  }

  /** A contact's status is flagged iff it is present and not one of the three contact statuses. */
  lemma ContactStatusCheck(lib: Library, b: ContactBody)
    ensures FieldError(Status, ContactStatusInvalid) in ValidateRecruiterContact(lib, b) <==>
      b.status.Some? && b.status.value !in {"active", "inactive", "responded"}
  {
    var fields := RecruiterContactFields;
    assert fields[7] == Status;
    assert forall j :: 0 <= j < |fields| && j != 7 ==> fields[j] != Status;
    ContactFieldErrors(lib, b, 7, ContactStatusInvalid);
    assert RecruiterContactMessages(lib, b)[7] == InListRules(b.status, ContactStatuses, ContactStatusInvalid);
  }
}
