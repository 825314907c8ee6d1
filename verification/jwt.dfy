/** The shapes the token library hands back and forth. Signing and verifying
    themselves are not modelled: the handlers receive them as functions. */
module Jwt {

  /** A JSON value in a token payload, as far as the code distinguishes it. */
  datatype Claim = Text(text: string) | Number(number: int) | OtherJson

  type Claims = map<string, Claim>

  /** What verifying a token yields: a JSON object, or a bare string when the
      token was signed over a string. */
  datatype Payload = ObjectPayload(fields: Claims) | TextPayload(text: string)

  /** The outcome of verifying a token: its payload, or a thrown error (bad
      signature, expired, malformed). */
  datatype Verification = Verified(payload: Payload) | VerifyFailed
}
