/** The role gate `authorizeRole(requiredRole)`: a request passes on to the
    next handler only with a bearer token that verifies and whose payload
    carries exactly the required role. */
module AuthMiddleware {
  import opened Options
  import opened JsStrings
  import opened Jwt

  /** Why the gate stopped a request. */
  datatype Denial = NoToken | InvalidToken | InsufficientRole {

    function Status(): nat {
      match this
      case NoToken => 401
      case InvalidToken => 401
      case InsufficientRole => 403
    }

    function Text(): string {
      match this
      case NoToken => "Access denied. No token provided."
      case InvalidToken => "Invalid token."
      case InsufficientRole => "Access denied. Insufficient permissions."
    }
  }

  /** Either a refusal, or a call of `next()`. */
  datatype Decision = Deny(denial: Denial) | Next

  /** The decision, and what the gate left in `req.user`. */
  datatype GateResult = GateResult(decision: Decision, user: Option<Payload>)

  /** `req.headers.authorization?.split(" ")[1]`, kept only when truthy: the
      second space-separated segment of the header. The word before the first
      space is not looked at. */
  function ExtractToken(authorization: Option<string>): (token: Option<string>)
    ensures token.Some? ==> authorization.Some? && token.value != "" && ' ' !in token.value
  {
    match authorization
    case None => None
    case Some(header) =>
      var parts := Split(header, ' ');
      if |parts| >= 2 && parts[1] != "" then Some(parts[1]) else None
  }

  /** `decoded.role === requiredRole`: the payload is an object whose `role`
      is the very same string. A missing role, a role of another JSON type or
      a bare-string payload never matches. */
  predicate HasRole(decoded: Payload, requiredRole: string) {
    decoded.ObjectPayload? && "role" in decoded.fields && decoded.fields["role"] == Text(requiredRole)
  }

  /** The middleware `authorizeRole(requiredRole)` applied to a request with
      the given `Authorization` header; `verify` is the token library's
      verification under the server's secret. */
  function AuthorizeRole(requiredRole: string, authorization: Option<string>,
                         verify: string -> Verification): (r: GateResult)
    ensures r.decision.Next? <==>
      && ExtractToken(authorization).Some?
      && verify(ExtractToken(authorization).value).Verified?
      && HasRole(verify(ExtractToken(authorization).value).payload, requiredRole)
    ensures r.decision == Deny(NoToken) <==> ExtractToken(authorization).None?
    ensures r.decision == Deny(InvalidToken) <==>
      ExtractToken(authorization).Some? && verify(ExtractToken(authorization).value).VerifyFailed?
    ensures r.user.Some? <==>
      ExtractToken(authorization).Some? && verify(ExtractToken(authorization).value).Verified?
    ensures r.user.Some? ==> r.user.value == verify(ExtractToken(authorization).value).payload
    ensures r.decision == Deny(InsufficientRole) ==> r.user.Some? && !HasRole(r.user.value, requiredRole)
  {
    match ExtractToken(authorization)
    case None => GateResult(Deny(NoToken), None)
    case Some(token) =>
      match verify(token)
      case VerifyFailed => GateResult(Deny(InvalidToken), None)
      case Verified(decoded) =>
        if HasRole(decoded, requiredRole) then GateResult(Next, Some(decoded))
        else GateResult(Deny(InsufficientRole), Some(decoded))
  }

  /** Without a token the answer is 401 whatever `verify` would say: the
      verifier is never consulted. */
  lemma NoTokenNeverVerifies(requiredRole: string, authorization: Option<string>,
                             verify1: string -> Verification, verify2: string -> Verification)
    requires ExtractToken(authorization).None?
    ensures AuthorizeRole(requiredRole, authorization, verify1) == AuthorizeRole(requiredRole, authorization, verify2)
    ensures AuthorizeRole(requiredRole, authorization, verify1).decision.denial.Status() == 401
  {
  }

  /** A header of the form `<scheme> <token><rest>`, where neither the scheme
      nor the token holds a space and the rest is empty or starts with one,
      yields the token whatever the scheme, or nothing when the token is
      empty (as with two spaces in a row). */
  lemma {:induction false} TokenFollowsFirstSpace(scheme: string, token: string, rest: string)
    requires ' ' !in scheme && ' ' !in token
    requires rest == [] || rest[0] == ' '
    ensures ExtractToken(Some(scheme + " " + token + rest)) == (if token == [] then None else Some(token))
  {
    var header := scheme + " " + token + rest;
    assert header == scheme + [' '] + (token + rest);
    SplitAfterPrefix(scheme, ' ', token + rest);
    FirstPiece(token, rest);
    var parts := Split(header, ' ');
    assert |parts| >= 2 && parts[1] == token;
  }

  /** The first piece of `token + rest` is `token` when the token holds no
      space and the rest is empty or starts with one. */
  lemma FirstPiece(token: string, rest: string)
    requires ' ' !in token
    requires rest == [] || rest[0] == ' '
    ensures Split(token + rest, ' ')[0] == token
  {
    if rest == [] {
      assert token + rest == token;
    } else {
      assert token + rest == token + [' '] + rest[1..];
      SplitAfterPrefix(token, ' ', rest[1..]);
    }
  }

  /** A header without a space carries no token. */
  lemma NoSpaceNoToken(header: string)
    requires ' ' !in header
    ensures ExtractToken(Some(header)) == None
  {
    assert Split(header, ' ') == [header];
  }

  /** Roles are compared by strict equality, with no hierarchy: for one request,
      at most one required role lets it through. */
  lemma RoleGateIsStrict(role1: string, role2: string, authorization: Option<string>,
                         verify: string -> Verification)
    requires AuthorizeRole(role1, authorization, verify).decision.Next?
    requires AuthorizeRole(role2, authorization, verify).decision.Next?
    ensures role1 == role2
  {
  }

  /** A token that fails verification is answered 401 and leaves `req.user`
      unset, whatever role is required. */
  lemma FailedVerificationIs401(requiredRole: string, authorization: Option<string>,
                                verify: string -> Verification)
    requires ExtractToken(authorization).Some?
    requires verify(ExtractToken(authorization).value).VerifyFailed?
    ensures AuthorizeRole(requiredRole, authorization, verify) == GateResult(Deny(InvalidToken), None)
    ensures AuthorizeRole(requiredRole, authorization, verify).decision.denial.Status() == 401
  {
  }
}
