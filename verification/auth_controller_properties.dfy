/** Properties of `signUp` and `signIn` that relate several calls or several
    inputs: the order of the checks, that the checks run before the store is
    touched, that both handlers validate addresses alike, and that a
    registration is followed by a working sign-in. */
module AuthControllerProperties {
  import opened Options
  import opened JsStrings
  import opened EmailFormat
  import opened Jwt
  import opened UserStore
  import opened AuthController

  /** Each `signUp` rejection fires exactly when every earlier check has passed
      and its own condition holds. */
  lemma SignUpCheckOrder(req: SignUpRequest, store: Store, backend: Backend)
    ensures SignUpOrdered(req.fullname, NormalizeEmail(req.email), req.password, store, backend,
                          SignUp(req, store, backend).response)
  {
    SignUpNormalizedCheckOrder(req.fullname, NormalizeEmail(req.email), req.password, store, backend);
  }

  /** The response `signUp` owes a request, check by check, in the order the
      checks run, for the normalised address `email`. */
  ghost predicate SignUpOrdered(fullname: Option<string>, email: Option<string>, password: Option<string>,
                                store: Store, backend: Backend, r: Response)
  {
    var missing := !Truthy(fullname) || !Truthy(email) || !Truthy(password);
    var badEmail := !missing && !MatchesEmailPattern(email.value);
    var shortPassword := !missing && !badEmail && Utf16Length(password.value) < MinPasswordLength;
    var inputsOk := !missing && !badEmail && !shortPassword;
    && (r == Response(400, Refusal(FillAllFields)) <==> missing)
    && (r == Response(400, Refusal(InvalidEmail)) <==> badEmail)
    && (r == Response(400, Refusal(PasswordTooShort)) <==> shortPassword)
    && (r == Response(400, Refusal(UserExists)) <==>
          inputsOk && !backend.lookupFails && email.value in store)
    && (r == Response(500, Refusal(UserNotCreated)) <==>
          inputsOk && (backend.lookupFails
            || (email.value !in store
                && (backend.hash(password.value, SaltRounds).None? || backend.createdId.None?))))
    && (r.status == 200 <==>
          inputsOk && !backend.lookupFails && email.value !in store
          && backend.hash(password.value, SaltRounds).Some? && backend.createdId.Some?)
  }

  lemma SignUpNormalizedCheckOrder(fullname: Option<string>, email: Option<string>, password: Option<string>,
                                   store: Store, backend: Backend)
    ensures SignUpOrdered(fullname, email, password, store, backend,
                          SignUpNormalized(fullname, email, password, store, backend).response)
  {
  }

  /** Each `signIn` rejection fires exactly when every earlier check has passed
      and its own condition holds; a token needs all of them to pass. */
  lemma SignInCheckOrder(req: SignInRequest, store: Store, backend: Backend)
    ensures SignInOrdered(NormalizeEmail(req.email), req.password, store, backend,
                          SignIn(req, store, backend).response)
  {
    SignInNormalizedCheckOrder(NormalizeEmail(req.email), req.password, store, backend);
  }

  /** The response `signIn` owes a request, check by check, in the order the
      checks run, for the normalised address `email`. */
  ghost predicate SignInOrdered(email: Option<string>, password: Option<string>,
                                store: Store, backend: Backend, r: Response)
  {
    var missing := !Truthy(email) || !Truthy(password);
    var badEmail := !missing && !MatchesEmailPattern(email.value);
    var inputsOk := !missing && !badEmail;
    var found := inputsOk && !backend.lookupFails && email.value in store;
    var verdict := if found then backend.compare(password.value, store[email.value].passwordHash) else None;
    && (r == Response(400, Refusal(FillAllFields)) <==> missing)
    && (r == Response(400, Refusal(InvalidEmail)) <==> badEmail)
    && (r == Response(400, Refusal(UserNotFound)) <==>
          inputsOk && !backend.lookupFails && email.value !in store)
    && (r == Response(400, Refusal(InvalidPassword)) <==> found && verdict == Some(false))
    && (r == Response(500, Refusal(LoginFailed)) <==>
          inputsOk && (backend.lookupFails || (found && verdict.None?)
            || (found && verdict == Some(true)
                && backend.sign(SignInClaims(store[email.value]), TokenLifetime).None?)))
    && (r.body.Token? <==>
          found && verdict == Some(true)
          && backend.sign(SignInClaims(store[email.value]), TokenLifetime).Some?)
  }

  lemma SignInNormalizedCheckOrder(email: Option<string>, password: Option<string>, store: Store, backend: Backend)
    ensures SignInOrdered(email, password, store, backend, SignInNormalized(email, password, store, backend).response)
  {
  }

  /** A request that fails `signUp`'s input checks gets the same answer whatever
      the store holds and however the collaborators would behave: the checks
      run before the store, bcrypt or the insert are consulted. */
  lemma SignUpChecksPrecedeStore(req: SignUpRequest, store1: Store, store2: Store, backend1: Backend, backend2: Backend)
    requires SignUpInputError(req.fullname, NormalizeEmail(req.email), req.password).Some?
    ensures SignUp(req, store1, backend1).response == SignUp(req, store2, backend2).response
    ensures SignUp(req, store1, backend1).response.status == 400
  {
  }

  /** Likewise for `signIn`: a request failing the input checks never reaches
      the lookup, bcrypt or the token library. */
  lemma SignInChecksPrecedeStore(req: SignInRequest, store1: Store, store2: Store, backend1: Backend, backend2: Backend)
    requires SignInInputError(NormalizeEmail(req.email), req.password).Some?
    ensures SignIn(req, store1, backend1).response == SignIn(req, store2, backend2).response
    ensures SignIn(req, store1, backend1).response.status == 400
  {
  }

  /** Given a name and a password, both handlers answer an address with the
      same required-field and format verdicts. */
  lemma HandlersValidateAlike(fullname: string, email: Option<string>, password: string,
                              store: Store, signUpBackend: Backend, signInBackend: Backend)
    requires fullname != [] && password != []
    ensures var signUpResponse := SignUp(SignUpRequest(Some(fullname), email, Some(password)), store, signUpBackend).response;
      var signInResponse := SignIn(SignInRequest(email, Some(password)), store, signInBackend).response;
      && (signUpResponse == Response(400, Refusal(FillAllFields)) <==> signInResponse == Response(400, Refusal(FillAllFields)))
      && (signUpResponse == Response(400, Refusal(InvalidEmail)) <==> signInResponse == Response(400, Refusal(InvalidEmail)))
  {
    SignUpCheckOrder(SignUpRequest(Some(fullname), email, Some(password)), store, signUpBackend);
    SignInCheckOrder(SignInRequest(email, Some(password)), store, signInBackend);
  }

  /** A store keyed by e-mail stays free of duplicate addresses across any
      `signUp`, whatever its outcome. */
  lemma SignUpPreservesEmailUniqueness(req: SignUpRequest, store: Store, backend: Backend)
    requires KeyedByEmail(store)
    ensures EmailUnique(SignUp(req, store, backend).store)
  {
    KeyedByEmailIsUnique(SignUp(req, store, backend).store);
  }

  /** When the database hands out an id no record uses yet, ids stay unique. */
  lemma SignUpPreservesIdUniqueness(req: SignUpRequest, store: Store, backend: Backend)
    requires IdsUnique(store)
    requires backend.createdId.Some? ==> forall k :: k in store ==> store[k].id != backend.createdId.value
    ensures IdsUnique(SignUp(req, store, backend).store)
  {
    var email := NormalizeEmail(req.email);
    if SignUpInputError(req.fullname, email, req.password).None? {
      RegisterPreservesIdUniqueness(req.fullname.value, email.value, req.password.value, store, backend);
    }
  }

  lemma RegisterPreservesIdUniqueness(fullname: string, email: string, password: string, store: Store, backend: Backend)
    requires IdsUnique(store)
    requires backend.createdId.Some? ==> forall k :: k in store ==> store[k].id != backend.createdId.value
    ensures IdsUnique(Register(fullname, email, password, store, backend).store)
  {
    var out := Register(fullname, email, password, store, backend);
    if out.response.status == 200 {
      forall a, b | a in out.store && b in out.store && out.store[a].id == out.store[b].id
        ensures a == b
      {
        if a != email && b != email {
          assert out.store[a] == store[a] && out.store[b] == store[b];
        }
      }
    }
  }

  /** A `signUp` collaborator that throws on the call the handler makes never
      lets the request succeed; once the input checks have passed, the answer
      is 500 "User wasn't created" and the store is left as it was. The hash
      and the insert are only reached for an address not yet registered. */
  lemma SignUpFailuresGive500(req: SignUpRequest, store: Store, backend: Backend)
    ensures var out := SignUp(req, store, backend);
      var email := NormalizeEmail(req.email);
      var checked := SignUpInputError(req.fullname, email, req.password).None?;
      var refused := Outcome(Response(500, Refusal(UserNotCreated)), store);
      && (backend.lookupFails ==> out.response.status != 200 && (checked ==> out == refused))
      && (Truthy(req.password) && backend.hash(req.password.value, SaltRounds).None? ==>
            out.response.status != 200 && (checked && email.value !in store ==> out == refused))
      && (backend.createdId.None? ==>
            out.response.status != 200 && (checked && email.value !in store ==> out == refused))
  {
  }

  /** Likewise for `signIn`: a lookup, a comparison or a signing that throws
      on the call the handler makes gives 500 "Login failed" once the input
      checks have passed, and never a token. */
  lemma SignInFailuresGive500(req: SignInRequest, store: Store, backend: Backend)
    ensures var out := SignIn(req, store, backend);
      var email := NormalizeEmail(req.email);
      var checked := SignInInputError(email, req.password).None?;
      var refused := Outcome(Response(500, Refusal(LoginFailed)), store);
      && (backend.lookupFails ==> out.response.status != 200 && (checked ==> out == refused))
      && (checked && !backend.lookupFails && email.value in store ==>
            var user := store[email.value];
            var verdict := backend.compare(req.password.value, user.passwordHash);
            && (verdict.None? ==> out == refused)
            && (verdict == Some(true) && backend.sign(SignInClaims(user), TokenLifetime).None? ==> out == refused))
  {
  }

  /** After a successful registration, signing in with the same address (in
      any letter case, with any surrounding whitespace) and password yields a
      token for the new record, provided bcrypt's `compare` accepts the
      password against its own hash and signing succeeds. */
  lemma {:induction false} SignUpThenSignIn(req: SignUpRequest, email: Option<string>, store: Store,
                                            backend: Backend, later: Backend)
    requires SignUp(req, store, backend).response.status == 200
    requires NormalizeEmail(email) == NormalizeEmail(req.email)
    requires !later.lookupFails
    requires forall p, h :: Some(h) == backend.hash(p, SaltRounds) ==> later.compare(p, h) == Some(true)
    requires forall c, t :: later.sign(c, t).Some?
    ensures var out := SignUp(req, store, backend);
      var r := SignIn(SignInRequest(email, req.password), out.store, later).response;
      && r.status == 200
      && r.body.Token?
      && Some(r.body.id) == backend.createdId
  {
    var out := SignUp(req, store, backend);
    var e := NormalizeEmail(req.email).value;
    var u := out.store[e];
    assert later.compare(req.password.value, u.passwordHash) == Some(true);
    assert later.sign(SignInClaims(u), TokenLifetime).Some?;
    assert SignInInputError(NormalizeEmail(email), req.password).None?;
  }

  /** Registering the same address again, however it is cased or padded, is
      refused as a duplicate and leaves the store as it is. */
  lemma {:induction false} SignUpTwiceIsRefused(first: SignUpRequest, second: SignUpRequest, store: Store,
                                                backend: Backend, later: Backend)
    requires SignUp(first, store, backend).response.status == 200
    requires NormalizeEmail(second.email) == NormalizeEmail(first.email)
    requires SignUpInputError(second.fullname, NormalizeEmail(second.email), second.password).None?
    requires !later.lookupFails
    ensures var out := SignUp(first, store, backend);
      SignUp(second, out.store, later) == Outcome(Response(400, Refusal(UserExists)), out.store)
  {
    var out := SignUp(first, store, backend);
    assert NormalizeEmail(first.email).value in out.store;
  }
}
