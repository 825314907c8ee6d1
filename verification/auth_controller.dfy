/** The two request handlers of the authentication controller, `signUp` and
    `signIn`, as pure functions from a request, the user store and the
    behaviour of the collaborators to a response and the store afterwards. */
module AuthController {
  import opened Options
  import opened JsStrings
  import opened EmailFormat
  import opened Jwt
  import opened UserStore

  // ---------------------------------------------------------------- constants

  /** Why a request was refused; `Text` is the `message` the response carries. */
  datatype Reason =
    | FillAllFields | InvalidEmail | PasswordTooShort | UserExists | UserNotCreated
    | UserNotFound | InvalidPassword | LoginFailed
  {
    function Text(): string {
      match this
      case FillAllFields => "Please fill all fields"
      case InvalidEmail => "Invalid email"
      case PasswordTooShort => "Password must be at least 6 characters"
      case UserExists => "User already exists"
      case UserNotCreated => "User wasn't created"
      case UserNotFound => "User not found"
      case InvalidPassword => "Invalid password"
      case LoginFailed => "Login failed"
    }
  }

  const MinPasswordLength := 6
  /** The bcrypt cost factor passed to `hash`. */
  const SaltRounds := 10
  /** The `expiresIn` option passed to `sign`. */
  const TokenLifetime := "2h"

  // ---------------------------------------------------------------- requests and responses

  /** The body of `POST /signup`; `password` is the field `current_password`. */
  datatype SignUpRequest = SignUpRequest(fullname: Option<string>, email: Option<string>, password: Option<string>)

  /** The body of `POST /signin`. */
  datatype SignInRequest = SignInRequest(email: Option<string>, password: Option<string>)

  /** A response body: a refusal, the created record, or a token with the
      signed-in user's id. */
  datatype Body =
    | Refusal(reason: Reason)
    | CreatedUser(user: User)
    | Token(token: string, id: nat)
  {
    /** The body's `message` field. */
    function Message(): string {
      match this
      case Refusal(reason) => reason.Text()
      case CreatedUser(_) => "User created successfully"
      case Token(_, _) => "User authenticated successfully"
    }
  }

  datatype Response = Response(status: nat, body: Body)

  /** A handler's response together with the store it leaves behind. */
  datatype Outcome = Outcome(response: Response, store: Store)

  /** How the collaborators behave for this request. `None` means the call
      throws: the store lookup (`findUnique`), bcrypt's `hash` and `compare`,
      the store insert (`create`, which otherwise yields the id the database
      assigns) and the token library's `sign` over a payload and a lifetime. */
  datatype Backend = Backend(
    lookupFails: bool,
    hash: (string, nat) -> Option<string>,
    createdId: Option<nat>,
    compare: (string, string) -> Option<bool>,
    sign: (Claims, string) -> Option<string>)

  // ---------------------------------------------------------------- validation

  /** JavaScript truthiness of an optional string: present and not empty. */
  predicate Truthy(v: Option<string>) {
    v.Some? && v.value != ""
  }

  /** `r` is `s` lower-cased, with a whitespace-only margin cut off on each
      side: the first `a` characters and everything after `a + |r|`. */
  predicate LowerTrimmedAt(r: string, s: string, a: nat) {
    && a + |r| <= |s|
    && AllWhitespace(s[..a])
    && AllWhitespace(s[a + |r|..])
    && forall i :: 0 <= i < |r| ==> r[i] == LowerChar(s[a + i])
  }

  /** `if (email) email = email.toLowerCase().trim()`: a truthy address is
      lower-cased and loses its surrounding whitespace; anything else is
      left as it is. */
  function NormalizeEmail(email: Option<string>): (r: Option<string>)
    ensures !Truthy(email) ==> r == email
    ensures r.None? <==> email.None?
    ensures Truthy(r) <==> email.Some? && !AllWhitespace(email.value)
    ensures Truthy(r) ==> IsTrimmed(r.value) && IsLowered(r.value)
    ensures Truthy(r) ==> exists a :: LowerTrimmedAt(r.value, email.value, a)
  {
    if Truthy(email) then
      NormalizedShape(email.value);
      Some(Trim(ToLower(email.value)))
    else email
  }

  /** What lower-casing and then trimming yields: a trimmed, lower-case
      stretch of the input between whitespace margins, empty exactly when the
      input is all whitespace. */
  lemma NormalizedShape(s: string)
    ensures var n := Trim(ToLower(s));
      && IsTrimmed(n) && IsLowered(n) && (n == [] <==> AllWhitespace(s))
      && exists a :: LowerTrimmedAt(n, s, a)
  {
    var l := ToLower(s);
    var n := Trim(l);
    TrimmedLowered(l, n);
    LowerKeepsWhitespace(s);
    var a: nat :| TrimmedAt(n, l, a);
    TrimmedOfLowerIsLowerTrimmed(s, l, n, a);
  }

  /** A stretch of the lower-cased string between whitespace margins is the
      lower-cased stretch of the original, between the same margins. */
  lemma TrimmedOfLowerIsLowerTrimmed(s: string, l: string, n: string, a: nat)
    requires l == ToLower(s) && TrimmedAt(n, l, a)
    ensures LowerTrimmedAt(n, s, a)
  {
    forall i | 0 <= i < a
      ensures IsJsWhitespace(s[..a][i])
    {
      assert l[..a][i] == l[i];
    }
    var tail := s[a + |n|..];
    forall i | 0 <= i < |tail|
      ensures IsJsWhitespace(tail[i])
    {
      assert l[a + |n|..][i] == l[a + |n| + i];
    }
    forall i | 0 <= i < |n|
      ensures n[i] == LowerChar(s[a + i])
    {
      assert n[i] == l[a + i];
    }
  }

  /** The converse: the lower-cased stretch of `s` between whitespace margins
      is a stretch of `ToLower(s)` between the same margins. */
  lemma LowerTrimmedIsTrimmedOfLower(s: string, n: string, a: nat)
    requires LowerTrimmedAt(n, s, a)
    ensures TrimmedAt(n, ToLower(s), a)
  {
    var l := ToLower(s);
    forall i | 0 <= i < a
      ensures IsJsWhitespace(l[..a][i])
    {
      assert s[..a][i] == s[i];
    }
    var tail := l[a + |n|..];
    forall i | 0 <= i < |tail|
      ensures IsJsWhitespace(tail[i])
    {
      assert s[a + |n|..][i] == s[a + |n| + i];
    }
    assert n == l[a..a + |n|];
  }

  /** Normalisation is pinned down by its contract: a trimmed string that is
      the lower-cased stretch of an address between whitespace margins is
      that address's normal form. */
  lemma NormalizeEmailIsUnique(s: string, n: string, a: nat)
    requires LowerTrimmedAt(n, s, a) && IsTrimmed(n)
    ensures NormalizeEmail(Some(s)) == Some(n)
  {
    if s != [] {
      LowerTrimmedIsTrimmedOfLower(s, n, a);
      TrimIsUnique(ToLower(s), n, a);
    }
  }

  lemma TrimmedLowered(lowered: string, trimmed: string)
    requires IsLowered(lowered) && trimmed == Trim(lowered)
    ensures IsLowered(trimmed)
  {
    forall i | 0 <= i < |trimmed|
      ensures LowerChar(trimmed[i]) == trimmed[i]
    {
      var j :| 0 <= j < |lowered| && lowered[j] == trimmed[i];
    }
  }

  lemma LowerKeepsWhitespace(s: string)
    ensures AllWhitespace(ToLower(s)) <==> AllWhitespace(s)
  {
    var l := ToLower(s);
    assert forall i :: 0 <= i < |s| ==> (IsJsWhitespace(l[i]) <==> IsJsWhitespace(s[i]));
  }

  /** Normalising an already normalised address changes nothing. */
  lemma NormalizeEmailIdempotent(email: Option<string>)
    ensures NormalizeEmail(NormalizeEmail(email)) == NormalizeEmail(email)
  {
    var n := NormalizeEmail(email);
    if Truthy(n) {
      TrimOfTrimmed(n.value);
    }
  }

  // ---------------------------------------------------------------- handlers

  function Reject(store: Store, status: nat, reason: Reason): Outcome {
    Outcome(Response(status, Refusal(reason)), store)
  }

  /** The first of `signUp`'s input checks that fails, as its message, on the
      already normalised address: required fields, address format, password
      length. */
  function SignUpInputError(fullname: Option<string>, email: Option<string>, password: Option<string>): (r: Option<Reason>)
    ensures r == Some(FillAllFields) <==> !Truthy(fullname) || !Truthy(email) || !Truthy(password)
    ensures r == Some(InvalidEmail) <==>
      Truthy(fullname) && Truthy(email) && Truthy(password) && !MatchesEmailPattern(email.value)
    ensures r == Some(PasswordTooShort) <==>
      && Truthy(fullname) && Truthy(email) && Truthy(password) && MatchesEmailPattern(email.value)
      && Utf16Length(password.value) < MinPasswordLength
    ensures r.None? <==>
      && Truthy(fullname) && Truthy(email) && Truthy(password) && MatchesEmailPattern(email.value)
      && Utf16Length(password.value) >= MinPasswordLength
  {
    if !Truthy(fullname) || !Truthy(email) || !Truthy(password) then Some(FillAllFields)
    else if !IsValidEmail(email.value) then Some(InvalidEmail)
    else if Utf16Length(password.value) < MinPasswordLength then Some(PasswordTooShort)
    else None
  }

  /** The `try` block of `signUp`: look the address up, refuse a duplicate,
      hash the password with cost factor 10 and insert the new record. */
  function Register(fullname: string, email: string, password: string, store: Store, backend: Backend): (out: Outcome)
    ensures out.response.status in {200, 400, 500}
    ensures out.response.status != 200 ==> out.store == store && out.response.body.Refusal?
    ensures out.response.status == 200 ==>
      && email !in store
      && out.store.Keys == store.Keys + {email}
      && (forall k :: k in store ==> out.store[k] == store[k])
      && out.store[email].email == email
      && out.store[email].fullname == fullname
      && Some(out.store[email].passwordHash) == backend.hash(password, SaltRounds)
      && Some(out.store[email].id) == backend.createdId
      && out.response.body == CreatedUser(out.store[email])
    ensures KeyedByEmail(store) ==> KeyedByEmail(out.store)
  {
    if backend.lookupFails then
      Reject(store, 500, UserNotCreated)
    else if email in store then
      Reject(store, 400, UserExists)
    else
      match backend.hash(password, SaltRounds)
      case None => Reject(store, 500, UserNotCreated)
      case Some(hashed) =>
        match backend.createdId
        case None => Reject(store, 500, UserNotCreated)
        case Some(id) =>
          var user := User(id, fullname, email, hashed);
          Outcome(Response(200, CreatedUser(user)), store[email := user])
  }

  /** `signUp`: normalise the address, run the input checks, then register;
      any error thrown while registering becomes 500. */
  function SignUp(req: SignUpRequest, store: Store, backend: Backend): (out: Outcome)
    ensures out.response.status in {200, 400, 500}
    ensures out.response.status != 200 ==> out.store == store && out.response.body.Refusal?
    ensures out.response.status == 200 ==>
      && Truthy(req.fullname) && Truthy(req.password) && Truthy(NormalizeEmail(req.email))
      && var e := NormalizeEmail(req.email).value;
      && e !in store
      && out.store.Keys == store.Keys + {e}
      && (forall k :: k in store ==> out.store[k] == store[k])
      && out.store[e].email == e
      && out.store[e].fullname == req.fullname.value
      && Some(out.store[e].passwordHash) == backend.hash(req.password.value, SaltRounds)
      && Some(out.store[e].id) == backend.createdId
      && out.response.body == CreatedUser(out.store[e])
    ensures KeyedByEmail(store) ==> KeyedByEmail(out.store)
  {
    SignUpNormalized(req.fullname, NormalizeEmail(req.email), req.password, store, backend)
  }

  /** `signUp` from the input checks on, given the normalised address. */
  function SignUpNormalized(fullname: Option<string>, email: Option<string>, password: Option<string>,
                            store: Store, backend: Backend): (out: Outcome)
    ensures out.response.status in {200, 400, 500}
    ensures out.response.status != 200 ==> out.store == store && out.response.body.Refusal?
    ensures out.response.status == 200 ==>
      && Truthy(fullname) && Truthy(password) && Truthy(email)
      && email.value !in store
      && out.store.Keys == store.Keys + {email.value}
      && (forall k :: k in store ==> out.store[k] == store[k])
      && out.store[email.value].email == email.value
      && out.store[email.value].fullname == fullname.value
      && Some(out.store[email.value].passwordHash) == backend.hash(password.value, SaltRounds)
      && Some(out.store[email.value].id) == backend.createdId
      && out.response.body == CreatedUser(out.store[email.value])
    ensures KeyedByEmail(store) ==> KeyedByEmail(out.store)
  {
    match SignUpInputError(fullname, email, password)
    case Some(reason) => Reject(store, 400, reason)
    case None => Register(fullname.value, email.value, password.value, store, backend)
  }

  /** The claims `signIn` signs: the user's id and e-mail address. */
  function SignInClaims(u: User): (c: Claims)
    ensures c.Keys == {"id", "email"}
    ensures c["id"] == Number(u.id) && c["email"] == Text(u.email)
  {
    map["id" := Number(u.id), "email" := Text(u.email)]
  }

  /** The first of `signIn`'s input checks that fails, as its message, on the
      already normalised address: the same required-field and format checks
      as `signUp`, without the name and without the length check. */
  function SignInInputError(email: Option<string>, password: Option<string>): (r: Option<Reason>)
    ensures r == Some(FillAllFields) <==> !Truthy(email) || !Truthy(password)
    ensures r == Some(InvalidEmail) <==> Truthy(email) && Truthy(password) && !MatchesEmailPattern(email.value)
    ensures r.None? <==> Truthy(email) && Truthy(password) && MatchesEmailPattern(email.value)
  {
    if !Truthy(email) || !Truthy(password) then Some(FillAllFields)
    else if !IsValidEmail(email.value) then Some(InvalidEmail)
    else None
  }

  /** The `try` block of `signIn`: look the address up, compare the password
      with the stored hash and, on a match, sign a token over the id and
      address that lives for two hours. */
  function Authenticate(email: string, password: string, store: Store, backend: Backend): (out: Outcome)
    ensures out.store == store
    ensures out.response.status in {200, 400, 500}
    ensures out.response.status == 200 <==> out.response.body.Token?
    ensures out.response.body.Token? ==>
      && email in store
      && backend.compare(password, store[email].passwordHash) == Some(true)
      && Some(out.response.body.token) == backend.sign(SignInClaims(store[email]), TokenLifetime)
      && out.response.body.id == store[email].id
  {
    if backend.lookupFails then
      Reject(store, 500, LoginFailed)
    else if email !in store then
      Reject(store, 400, UserNotFound)
    else
      var user := store[email];
      match backend.compare(password, user.passwordHash)
      case None => Reject(store, 500, LoginFailed)
      case Some(false) => Reject(store, 400, InvalidPassword)
      case Some(true) =>
        match backend.sign(SignInClaims(user), TokenLifetime)
        case None => Reject(store, 500, LoginFailed)
        case Some(token) => Outcome(Response(200, Token(token, user.id)), store)
  }

  /** `signIn`: normalise the address, run the input checks, then
      authenticate; any error thrown while authenticating becomes 500. */
  function SignIn(req: SignInRequest, store: Store, backend: Backend): (out: Outcome)
    ensures out.store == store
    ensures out.response.status in {200, 400, 500}
    ensures out.response.status == 200 <==> out.response.body.Token?
    ensures out.response.body.Token? ==>
      && Truthy(NormalizeEmail(req.email)) && Truthy(req.password)
      && var e := NormalizeEmail(req.email).value;
      && e in store
      && backend.compare(req.password.value, store[e].passwordHash) == Some(true)
      && Some(out.response.body.token) == backend.sign(SignInClaims(store[e]), TokenLifetime)
      && out.response.body.id == store[e].id
  {
    SignInNormalized(NormalizeEmail(req.email), req.password, store, backend)
  }

  /** `signIn` from the input checks on, given the normalised address. */
  function SignInNormalized(email: Option<string>, password: Option<string>, store: Store, backend: Backend): (out: Outcome)
    ensures out.store == store
    ensures out.response.status in {200, 400, 500}
    ensures out.response.status == 200 <==> out.response.body.Token?
    ensures out.response.body.Token? ==>
      && Truthy(email) && Truthy(password)
      && email.value in store
      && backend.compare(password.value, store[email.value].passwordHash) == Some(true)
      && Some(out.response.body.token) == backend.sign(SignInClaims(store[email.value]), TokenLifetime)
      && out.response.body.id == store[email.value].id
  {
    match SignInInputError(email, password)
    case Some(reason) => Reject(store, 400, reason)
    case None => Authenticate(email.value, password.value, store, backend)
  }

  /** An address of nothing but whitespace, the empty one included,
      normalises to "", and both handlers refuse it as a missing field before
      anything else happens. */
  lemma WhitespaceEmailIsMissing(email: string, fullname: Option<string>, password: Option<string>,
                                 store: Store, backend: Backend)
    requires AllWhitespace(email)
    ensures NormalizeEmail(Some(email)) == Some("")
    ensures SignUp(SignUpRequest(fullname, Some(email), password), store, backend)
         == Outcome(Response(400, Refusal(FillAllFields)), store)
    ensures SignIn(SignInRequest(Some(email), password), store, backend)
         == Outcome(Response(400, Refusal(FillAllFields)), store)
  {
  }
}
