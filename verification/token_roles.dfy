/** How the tokens `signIn` issues fare at the role gate. `signIn` signs over
    the user's id and e-mail address only, so a payload that verifies to those
    claims (plus the registered `iat` and `exp` the token library adds) has no
    `role`, and the gate answers 403 whatever role it requires. */
module TokenRoles {
  import opened Options
  import opened Jwt
  import opened UserStore
  import opened AuthController
  import opened AuthMiddleware

  /** The claims a verified `signIn` token can carry. */
  predicate FromSignIn(fields: Claims, u: User) {
    fields.Keys <= SignInClaims(u).Keys + {"iat", "exp"}
  }

  /** A verified token whose payload holds only `signIn`'s claims is refused
      with 403, and `req.user` is still set to that payload. */
  lemma SignInTokenLacksRole(u: User, requiredRole: string, authorization: Option<string>,
                             verify: string -> Verification, fields: Claims)
    requires ExtractToken(authorization).Some?
    requires verify(ExtractToken(authorization).value) == Verified(ObjectPayload(fields))
    requires FromSignIn(fields, u)
    ensures AuthorizeRole(requiredRole, authorization, verify)
         == GateResult(Deny(InsufficientRole), Some(ObjectPayload(fields)))
  {
    assert "role" !in SignInClaims(u).Keys + {"iat", "exp"};
  }
}
