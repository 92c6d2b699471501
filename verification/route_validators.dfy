/**
 * The request-body validator chains of the artist routes, in the style of
 * express-validator: each rule names a body path and a chain of checks;
 * every failing check contributes one error (no chain bails early), and a
 * check's message is the one given by the `withMessage` that follows it, or
 * "Invalid value". Also the route table: which routes run the artist
 * authentication middleware.
 */
module RouteValidators {
  import opened Wrappers

  /**
   * One value of a parsed JSON request body. `Other` is any non-string JSON
   * value (number, boolean, null, object, array), carried by the text the
   * standard validators see for it and by its JavaScript truthiness.
   */
  datatype Value = Absent | Str(s: string) | Other(text: string, truthy: bool)

  /** A request body, keyed by validator path such as "fullname.firstname". */
  type Body = map<string, Value>

  function Get(b: Body, path: string): Value {
    if path in b then b[path] else Absent
  }

  /** The string the standard validators test: `undefined` reads as "". */
  function Text(v: Value): string {
    match v
    case Absent => ""
    case Str(s) => s
    case Other(t, _) => t
  }

  /** JavaScript truthiness of a body value. */
  predicate Truthy(v: Value) {
    match v
    case Absent => false
    case Str(s) => s != ""
    case Other(_, t) => t
  }

  /** The stored form of a field: absent stays absent, anything else is cast to its text. */
  function Cast(v: Value): Option<string> {
    if v.Absent? then None else Some(Text(v))
  }

  /** `v || undefined`: falsy values are dropped. */
  function OrUndefined(v: Value): Option<string> {
    if Truthy(v) then Some(Text(v)) else None
  }

  datatype Check =
    | IsString(message: string)
    | MinLength(min: nat, message: string)
    | IsEmail(message: string)

  datatype Rule = Rule(path: string, checks: seq<Check>)

  datatype ValidationError = ValidationError(path: string, message: string)

  const DefaultMessage := "Invalid value"

  /** Whether one check accepts a value; `isEmail` is the library's address test. */
  predicate Passes(c: Check, v: Value, isEmail: string -> bool) {
    match c
    case IsString(_) => v.Str?
    case MinLength(min, _) => |Text(v)| >= min
    case IsEmail(_) => isEmail(Text(v))
  }

  /** The errors one chain reports, in chain order. */
  function ChainErrors(path: string, checks: seq<Check>, v: Value, isEmail: string -> bool): (r: seq<ValidationError>)
    ensures |r| <= |checks|
    ensures forall e | e in r :: e.path == path
  {
    if checks == [] then []
    else (if Passes(checks[0], v, isEmail) then [] else [ValidationError(path, checks[0].message)])
         + ChainErrors(path, checks[1..], v, isEmail)
  }

  /** `validationResult(req).array()` after the rules have run on body `b`. */
  function RunRules(rules: seq<Rule>, b: Body, isEmail: string -> bool): seq<ValidationError> {
    if rules == [] then []
    else ChainErrors(rules[0].path, rules[0].checks, Get(b, rules[0].path), isEmail)
         + RunRules(rules[1..], b, isEmail)
  }

  /** Every rule's every check accepts its value. */
  ghost predicate AllPass(rules: seq<Rule>, b: Body, isEmail: string -> bool) {
    forall i, k | 0 <= i < |rules| && 0 <= k < |rules[i].checks| ::
      Passes(rules[i].checks[k], Get(b, rules[i].path), isEmail)
  }

  lemma {:induction false} ChainErrorsEmptyIff(path: string, checks: seq<Check>, v: Value, isEmail: string -> bool)
    ensures ChainErrors(path, checks, v, isEmail) == [] <==>
            forall k | 0 <= k < |checks| :: Passes(checks[k], v, isEmail)
  {
    if checks != [] {
      ChainErrorsEmptyIff(path, checks[1..], v, isEmail);
      assert forall k | 1 <= k < |checks| :: checks[k] == checks[1..][k - 1];
    }
  }

  /** The error list is empty exactly when every check of every rule passes. */
  lemma {:induction false} RunRulesEmptyIff(rules: seq<Rule>, b: Body, isEmail: string -> bool)
    ensures RunRules(rules, b, isEmail) == [] <==> AllPass(rules, b, isEmail)
  {
    if rules != [] {
      RunRulesEmptyIff(rules[1..], b, isEmail);
      ChainErrorsEmptyIff(rules[0].path, rules[0].checks, Get(b, rules[0].path), isEmail);
      assert forall i | 1 <= i < |rules| :: rules[i] == rules[1..][i - 1];
    }
  }

  /** POST /register. */
  const RegisterRules: seq<Rule> := [
    Rule("email", [IsEmail(DefaultMessage), MinLength(5, DefaultMessage)]),
    Rule("password", [IsString(DefaultMessage), MinLength(5, DefaultMessage)]),
    Rule("fullname.firstname", [IsString(DefaultMessage), MinLength(3, DefaultMessage)]),
    Rule("city", [IsString(DefaultMessage), MinLength(2, DefaultMessage)])
  ]

  /** POST /login. */
  const LoginRules: seq<Rule> := [
    Rule("email", [IsString(DefaultMessage), MinLength(5, "Email Invalid")]),
    Rule("password", [IsString(DefaultMessage), MinLength(5, "Password Invalid")])
  ]

  /** POST /create. */
  const CreateRules: seq<Rule> := [
    Rule("title", [IsString(DefaultMessage), MinLength(3, "Email Listing Title")]),
    Rule("description", [IsString(DefaultMessage), MinLength(5, "Email Listing Description")]),
    Rule("image", [IsString("Email Listing Image")]),
    Rule("typeOfArt", [IsString(DefaultMessage), MinLength(2, "Invalid Art Type")]),
    Rule("price", [IsString("Price Is Invalid")])
  ]

  /** A string body value of at least `min` characters. */
  predicate StringOfLength(v: Value, min: nat) {
    v.Str? && |v.s| >= min
  }

  /** Registration passes validation exactly on the documented field requirements. */
  lemma RegisterAccepts(b: Body, isEmail: string -> bool)
    ensures RunRules(RegisterRules, b, isEmail) == [] <==>
            && isEmail(Text(Get(b, "email"))) && |Text(Get(b, "email"))| >= 5
            && StringOfLength(Get(b, "password"), 5)
            && StringOfLength(Get(b, "fullname.firstname"), 3)
            && StringOfLength(Get(b, "city"), 2)
  {
    RunRulesEmptyIff(RegisterRules, b, isEmail);
    if AllPass(RegisterRules, b, isEmail) {
      assert Passes(RegisterRules[0].checks[0], Get(b, "email"), isEmail);
      assert Passes(RegisterRules[0].checks[1], Get(b, "email"), isEmail);
      assert Passes(RegisterRules[1].checks[0], Get(b, "password"), isEmail);
      assert Passes(RegisterRules[1].checks[1], Get(b, "password"), isEmail);
      assert Passes(RegisterRules[2].checks[0], Get(b, "fullname.firstname"), isEmail);
      assert Passes(RegisterRules[2].checks[1], Get(b, "fullname.firstname"), isEmail);
      assert Passes(RegisterRules[3].checks[0], Get(b, "city"), isEmail);
      assert Passes(RegisterRules[3].checks[1], Get(b, "city"), isEmail);
    }
  }

  /** Login passes validation exactly when e-mail and password are strings of five or more characters. */
  lemma LoginAccepts(b: Body, isEmail: string -> bool)
    ensures RunRules(LoginRules, b, isEmail) == [] <==>
            StringOfLength(Get(b, "email"), 5) && StringOfLength(Get(b, "password"), 5)
  {
    RunRulesEmptyIff(LoginRules, b, isEmail);
    if AllPass(LoginRules, b, isEmail) {
      assert Passes(LoginRules[0].checks[0], Get(b, "email"), isEmail);
      assert Passes(LoginRules[0].checks[1], Get(b, "email"), isEmail);
      assert Passes(LoginRules[1].checks[0], Get(b, "password"), isEmail);
      assert Passes(LoginRules[1].checks[1], Get(b, "password"), isEmail);
    }
  }

  /** Listing creation passes validation exactly on the documented field requirements. */
  lemma CreateAccepts(b: Body, isEmail: string -> bool)
    ensures RunRules(CreateRules, b, isEmail) == [] <==>
            && StringOfLength(Get(b, "title"), 3)
            && StringOfLength(Get(b, "description"), 5)
            && Get(b, "image").Str?
            && StringOfLength(Get(b, "typeOfArt"), 2)
            && Get(b, "price").Str?
  {
    RunRulesEmptyIff(CreateRules, b, isEmail);
    if AllPass(CreateRules, b, isEmail) {
      assert Passes(CreateRules[0].checks[0], Get(b, "title"), isEmail);
      assert Passes(CreateRules[0].checks[1], Get(b, "title"), isEmail);
      assert Passes(CreateRules[1].checks[0], Get(b, "description"), isEmail);
      assert Passes(CreateRules[1].checks[1], Get(b, "description"), isEmail);
      assert Passes(CreateRules[2].checks[0], Get(b, "image"), isEmail);
      assert Passes(CreateRules[3].checks[0], Get(b, "typeOfArt"), isEmail);
      assert Passes(CreateRules[3].checks[1], Get(b, "typeOfArt"), isEmail);
      assert Passes(CreateRules[4].checks[0], Get(b, "price"), isEmail);
    }
  }

  datatype Verb = GET | POST | PUT | DELETE

  /** The endpoints of the artist router, in registration order. */
  datatype Endpoint =
    | PostRegister | PostLogin | GetLogout | GetProfile | PostCreate | PutUpdate | DeleteOne
    | GetShow | GetShowOne | GetLoggedIn | GetArtOwner | PostUpload | GetMap

  /**
   * One entry of the artist router: its body rules and whether the artist
   * authentication middleware runs before the handler.
   */
  datatype Route = Route(verb: Verb, path: string, rules: seq<Rule>, authArtist: bool)

  function RouteOf(e: Endpoint): Route {
    match e
    case PostRegister => Route(POST, "/register", RegisterRules, false)
    case PostLogin => Route(POST, "/login", LoginRules, false)
    case GetLogout => Route(GET, "/logout", [], true)
    case GetProfile => Route(GET, "/getArtist", [], true)
    case PostCreate => Route(POST, "/create", CreateRules, true)
    case PutUpdate => Route(PUT, "/update/:id", [], true)
    case DeleteOne => Route(DELETE, "/delete/:id", [], true)
    case GetShow => Route(GET, "/show", [], false)
    case GetShowOne => Route(GET, "/show/:id", [], false)
    case GetLoggedIn => Route(GET, "/loggedIn", [], false)
    case GetArtOwner => Route(GET, "/artOwner/:id", [], true)
    case PostUpload => Route(POST, "/upload", [], false)
    case GetMap => Route(GET, "/map/:id", [], false)
  }

  /**
   * The authentication middleware guards exactly the session routes, the
   * three listing mutations and the owner check; only registration, login
   * and listing creation carry body rules, so an update body is unchecked.
   */
  lemma RouteGuards(e: Endpoint)
    ensures RouteOf(e).authArtist <==> e in {GetLogout, GetProfile, PostCreate, PutUpdate, DeleteOne, GetArtOwner}
    ensures RouteOf(e).rules != [] <==> e in {PostRegister, PostLogin, PostCreate}
  {
  }
}
