# Authentication handlers and role gate, modelled in Dafny

This project models the authentication core of a small Express backend:

- the two handlers of `src/controllers/AuthController.js`, `signUp` and `signIn`;
- the middleware `authorizeRole(requiredRole)` of `src/middlewares/authMiddleware.js`.

Each handler is a pure function. It takes a request, a user store and the behaviour
of its collaborators, and returns an `Outcome`: the HTTP status, the body and the
store afterwards. The store is the `users` table. It is modelled as a map from the
normalised e-mail address to the record (`UserStore`). The collaborators are
Prisma's `findUnique` and `create`, bcrypt's `hash` and `compare`, and the token
library's `sign` and `verify`. They are fields of a `Backend` value or function
parameters, and nothing is assumed about them. A call that throws is modelled as
`None`, or for `findUnique` as the flag `lookupFails`. The handler's `catch` turns
it into status 500.

The modules follow the source:

- `JsStrings`: the JavaScript string operations the code uses. These are
  `toLowerCase`, `trim`, `length` in UTF-16 code units, and `split(" ")`. Trimming
  and the regular-expression class `\s` share one whitespace set, the ECMAScript
  WhiteSpace and LineTerminator code points.
- `EmailFormat`: the address pattern `^[^\s@]+@[^\s@]+\.[^\s@]+$`. It is written as
  a plain string predicate and proved equal to a literal reading of the pattern.
- `Jwt`: token payloads and the outcome of verification.
- `UserStore`: the user record and the uniqueness invariants.
- `AuthController` and `AuthControllerProperties`: the two handlers and what they
  guarantee. This covers the order of the checks and that the checks run before
  the store is consulted. It also covers that the store changes only by one new
  record on a 200 from `signUp`, and never in `signIn`. Finally, a token comes only
  after `compare` returned true.
- `AuthMiddleware`: token extraction and the 401 / 403 / `next()` decision.
- `TokenRoles`: a consequence of combining the two files. `signIn` signs over
  `{id, email}` only. A token it issues therefore carries no `role`, and the role
  gate answers it with 403 whatever role is required.

Some behaviour of the code is worth stating plainly:

- The controller exports only `signUp` and `signIn`. The routes file imports
  `verifyCode` and `resendVerificationCode` from it, but they are not defined.
- `signUp` answers 200 and returns the whole created record, including the hashed
  password.
- `signIn` issues the access token directly, with no further step.
- `signIn` answers a missing user with 400 "User not found".

## Model

| member | source | states |
|---|---|---|
| JsStrings.IsJsWhitespace | src/controllers/AuthController.js:12 | the code points `trim` strips and `\s` matches: the ECMAScript WhiteSpace and LineTerminator sets |
| JsStrings.ToLower | src/controllers/AuthController.js:12 | each character becomes a lower-case character with the same lower-case form as the input's, so the result is the input lower-cased; length and whitespace positions are kept |
| JsStrings.TrimStart | src/controllers/AuthController.js:12 | the result is the longest suffix not starting with whitespace; everything dropped is whitespace |
| JsStrings.TrimEnd | src/controllers/AuthController.js:12 | the result is the longest prefix not ending in whitespace; everything dropped is whitespace |
| JsStrings.Trim | src/controllers/AuthController.js:12 | the result is a contiguous stretch of the input with only whitespace before and after it; it neither starts nor ends with whitespace, and is empty exactly when the input is all whitespace |
| JsStrings.TrimIsUnique | src/controllers/AuthController.js:12 | any stretch between whitespace margins that neither starts nor ends with whitespace equals `trim`'s result, so the contract of `Trim` determines it |
| JsStrings.TrimIdempotent | src/controllers/AuthController.js:12 | trimming twice equals trimming once |
| JsStrings.Utf16Length | src/controllers/AuthController.js:25 | `length` lies between the number of code points and twice that, and equals it exactly when every code point is in the Basic Multilingual Plane |
| JsStrings.Utf16LengthOfChar | src/controllers/AuthController.js:25 | one character has `length` 1, or 2 when it lies outside the Basic Multilingual Plane |
| JsStrings.Utf16LengthAppend | src/controllers/AuthController.js:25 | `length` of a concatenation is the sum of the lengths; with the previous row this gives the exact value the `< 6` check compares |
| JsStrings.IndexOf | src/middlewares/authMiddleware.js:11 | finds the first occurrence of the character, or reports that there is none |
| JsStrings.Split | src/middlewares/authMiddleware.js:11 | `split` yields at least one piece, and no piece contains the separator |
| JsStrings.JoinSplit | src/middlewares/authMiddleware.js:11 | joining the pieces of a split with the separator gives back the string |
| JsStrings.SplitJoin | src/middlewares/authMiddleware.js:11 | splitting a join of separator-free pieces gives back the pieces |
| EmailFormat.IsValidEmail | src/controllers/AuthController.js:20-23 | `emailRegex.test(email)` is true exactly when the string matches the pattern read literally |
| EmailFormat.EmailShapeMatchesPattern | src/controllers/AuthController.js:20-23 | the string predicate holds exactly for local + "@" + host + "." + tld with three non-empty runs free of whitespace and `@`. That is: no whitespace, one `@` after a non-empty local part, and a dot strictly inside the domain |
| AuthController.Truthy | src/controllers/AuthController.js:11-18 | JavaScript truthiness of a string field: present and not empty |
| AuthController.NormalizeEmail | src/controllers/AuthController.js:11-13 | a non-truthy address is left as it is. A truthy one becomes the input lower-cased with its whitespace-only margins cut off, and neither starts nor ends with whitespace. It is truthy afterwards exactly when it held a non-whitespace character |
| AuthController.NormalizeEmailIsUnique | src/controllers/AuthController.js:11-13 | any trimmed, lower-cased stretch of the address between whitespace margins is its normal form, so the contract of `NormalizeEmail` determines it |
| AuthController.NormalizeEmailIdempotent | src/controllers/AuthController.js:11-13 | normalising twice equals normalising once |
| AuthController.WhitespaceEmailIsMissing | src/controllers/AuthController.js:11-18 | a whitespace-only address, the empty one included, becomes "". Both handlers then answer 400 "Please fill all fields" and leave the store as it was |
| AuthController.SignUpInputError | src/controllers/AuthController.js:16-29 | the first failing input check: a missing field, then an address the pattern does not match, then a password shorter than 6 UTF-16 code units. No error exactly when all three pass |
| AuthController.Register | src/controllers/AuthController.js:30-59 | statuses are 200, 400 or 500. Every refusal leaves the store unchanged. A 200 adds exactly one record under a previously absent address; it holds the given name, bcrypt's hash at cost 10 and the id the database assigned. Every other record is kept, and keying by address is preserved |
| AuthController.SignUp | src/controllers/AuthController.js:8-60 | the same guarantees for the whole handler, stated for the normalised address: only a 200 changes the store, and it adds one record keyed by the normalised address holding `hash(password, 10)` |
| AuthController.SignUpNormalized | src/controllers/AuthController.js:15-59 | given the already normalised address: statuses are 200, 400 or 500. Every refusal leaves the store unchanged. A 200 needs all three fields truthy and adds exactly one record under that address, leaving every other record as it was |
| AuthController.SignInInputError | src/controllers/AuthController.js:71-78 | the first failing input check of `signIn`: a missing field, then an address the pattern does not match. No error exactly when both pass |
| AuthController.SignInClaims | src/controllers/AuthController.js:101-108 | the signed payload has exactly the keys `id` and `email`, holding the user's id and address |
| AuthController.Authenticate | src/controllers/AuthController.js:80-118 | the store is never changed. 200 comes exactly with a token. A token implies the user exists, `compare(password, storedHash)` returned true, and the token is `sign` over the user's claims with lifetime "2h" |
| AuthController.SignIn | src/controllers/AuthController.js:62-119 | the same for the whole handler: `signIn` never changes the store, and a token is issued only after a successful comparison for the normalised address |
| AuthController.SignInNormalized | src/controllers/AuthController.js:70-118 | given the already normalised address: the store is never changed, and a token needs both fields truthy, a stored user, a true `compare` against that user's hash and a successful `sign` over that user's claims |
| AuthControllerProperties.SignUpCheckOrder | src/controllers/AuthController.js:15-59 | each refusal happens exactly when all earlier checks passed and its own condition holds. The order is missing field, invalid email, short password, then 500 on lookup failure, then duplicate user, then 500 on hash or insert failure. 200 comes exactly when everything passed |
| AuthControllerProperties.SignInCheckOrder | src/controllers/AuthController.js:70-118 | likewise for `signIn`: missing field, invalid email, 500 on lookup failure, user not found, then `compare` false gives invalid password and `compare` throwing gives 500; a token comes exactly when `compare` is true and signing succeeds |
| AuthControllerProperties.SignUpChecksPrecedeStore | src/controllers/AuthController.js:15-31 | a request failing the input checks gets the same 400 whatever the store and collaborators are |
| AuthControllerProperties.SignInChecksPrecedeStore | src/controllers/AuthController.js:70-81 | a `signIn` request failing the input checks gets the same 400 whatever the store and collaborators are |
| AuthControllerProperties.HandlersValidateAlike | src/controllers/AuthController.js:16-78 | with a name and a password given, both handlers refuse the same addresses as missing and the same as invalid |
| AuthControllerProperties.SignUpPreservesEmailUniqueness | src/controllers/AuthController.js:31-50 | a store keyed by address has no duplicate addresses after any `signUp` |
| AuthControllerProperties.SignUpPreservesIdUniqueness | src/controllers/AuthController.js:44-50 | when the database assigns an unused id, ids stay unique after any `signUp` |
| AuthControllerProperties.SignUpFailuresGive500 | src/controllers/AuthController.js:30-59 | a lookup, a `hash` of this password or an insert that throws never gives 200. Once the input checks pass it gives 500 "User wasn't created" with the store unchanged; for `hash` and the insert this holds when the address is not yet registered, because only then are they called |
| AuthControllerProperties.SignInFailuresGive500 | src/controllers/AuthController.js:80-118 | a lookup that throws never gives 200. Once the input checks pass, a lookup, a `compare` against the user's hash or a `sign` of the user's claims that throws gives 500 "Login failed" with the store unchanged |
| AuthControllerProperties.SignUpThenSignIn | src/controllers/AuthController.js:42-114 | after a 200 from `signUp`, signing in with the same password and an address with the same normalised form yields 200 with a token for the new record's id. This assumes `compare` accepts a password against its own hash and signing succeeds |
| AuthControllerProperties.SignUpTwiceIsRefused | src/controllers/AuthController.js:31-40 | after a 200 from `signUp`, a valid second registration of the same normalised address gets 400 "User already exists" and the store stays as it is |
| UserStore.KeyedByEmailIsUnique | src/controllers/AuthController.js:31-35 | a store whose records sit under their own address holds no address twice |
| AuthMiddleware.HasRole | src/middlewares/authMiddleware.js:22-25 | `decoded.role === requiredRole`: the payload is an object whose `role` is exactly the required string |
| AuthMiddleware.ExtractToken | src/middlewares/authMiddleware.js:11-14 | a token, when found, comes from a present header, is non-empty and contains no space |
| AuthMiddleware.AuthorizeRole | src/middlewares/authMiddleware.js:7-31 | `next()` happens exactly when a token is present, verifies and carries the required role. 401 "No token provided" happens exactly when there is no token. 401 "Invalid token." happens exactly when verification fails. `req.user` is the decoded payload exactly when verification succeeds, including on the 403 path |
| AuthMiddleware.NoTokenNeverVerifies | src/middlewares/authMiddleware.js:11-14 | without a token the result is 401 and does not depend on `verify` |
| AuthMiddleware.TokenFollowsFirstSpace | src/middlewares/authMiddleware.js:11 | for `<scheme> <token><rest>` the token is the segment after the first space, whatever the scheme; an empty segment gives no token |
| AuthMiddleware.NoSpaceNoToken | src/middlewares/authMiddleware.js:11-14 | a header without a space gives no token |
| AuthMiddleware.RoleGateIsStrict | src/middlewares/authMiddleware.js:22-25 | roles are compared by strict equality: at most one required role lets a given request through |
| AuthMiddleware.FailedVerificationIs401 | src/middlewares/authMiddleware.js:16-30 | a present token that fails verification gets 401 "Invalid token." and `req.user` stays unset |
| TokenRoles.SignInTokenLacksRole | src/middlewares/authMiddleware.js:19-25 | a verified payload holding only `signIn`'s claims (plus `iat`, `exp`) is refused with 403, and `req.user` is set to it |

## Left out

- `verifyCode` and `resendVerificationCode`: the routes import them, but the controller does not define them, so there is nothing to model.
- The other controllers (admin, users, external API fan-out), the SMS service, the database setup, routing and file upload: they are wiring or network calls.
- JsStrings.ToLower: only ASCII letters are mapped. The Unicode case mappings of other characters are not modelled, and the normalisation lemmas rely on no other property of them.
- Request fields that are JSON values other than strings are not modelled. For example, a numeric `email` throws before the `try`, and a numeric password has no `length`. Fields are absent, or present strings.
- Strings holding lone surrogate code units are not representable, because a `string` here is a sequence of Unicode scalar values.
- AuthController.Register: states that the stored password is bcrypt's `hash` output. It does not state that this output differs from the plain text, because `hash` is uninterpreted.
- AuthControllerProperties.SignUpPreservesIdUniqueness: assumes the database hands out an unused id. That is the database's guarantee, not the code's.
- The database's own unique constraint on `email` under concurrent requests: each handler is one sequential step. `console.log` and `async` scheduling are left out too.
- The token library's internals: `sign` and `verify` are arbitrary functions. The server secret is folded into them, and expiry is part of `verify`.
- Columns of `users` that the handlers do not touch, such as role or status: the schema is not part of this model. Ids are natural numbers.
- An exception thrown by `res.json` or by the next handler is not modelled. Such an exception would land in the middleware's `catch`.
