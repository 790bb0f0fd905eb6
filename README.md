# Authentication service: a Dafny model

This project models `AuthService`, the authentication core of a university
platform's server. The service has three entry operations and one private
helper:

- `register` hashes the trimmed password and creates the user row. First
  name, last name and father's initial are normalised on the way. If an
  avatar was sent, it is stored and its path recorded on the row. Then the
  service mints a token pair whose payload holds the new id and no
  universities. The refresh token goes into a cookie; the access token is
  returned.
- `login` looks the user up by email and verifies the password as typed
  against the stored hash. It then computes the user's current scopes, mints
  a token pair carrying them, sets the cookie and returns the access token.
- `refreshTokens` decodes the request's refresh-token cookie. It recomputes
  the scopes of that token's user and mints a new pair. The new payload is
  the old one with only `user.universities` replaced.
- `getUniversitiesScopes` folds the user's `universityUser` rows into a map.
  The map goes from university id to `{scopes: {name: true, ...}}`, and a
  later row for a university replaces an earlier one.

Modules:

- `Scopes`: the two folds of `getUniversitiesScopes`, as pure functions.
- `JsString`: ECMAScript `trim`, with its exact whitespace set, and
  `toUpperCase`.
- `AuthTypes`: inputs, payloads, outcomes, thrown errors, the collaborators,
  and the `Response` object whose refresh-token cookie is written.
- `Prisma`: the two tables the service queries, as a `Store` class with one
  method per query. A query of a kind listed in `failing` throws and changes
  nothing.
- `AuthSpec`: one function per operation. Each gives the outcome, the user
  rows afterwards and the cookie afterwards.
- `Service`: the `AuthService` class. `Register`, `Login` and
  `RefreshTokens` take the steps of `AuthService.register`, `login` and
  `refreshTokens` in the same order. Each is proved to end exactly as the
  matching `AuthSpec` function says.
- `AuthProperties`: what those functions guarantee.

Collaborators are values of function type; their results are `Ok(value)` or
`Threw(error)`. This covers the password hasher (`hash`, `verify`), the token
service (`generateTokens`, `getPayloadFromToken`) and the file service
(`createUserAvatar`). How a call ends is an `AuthOutcome`:

- `Authenticated`: the access token.
- `BadRequest`: the field-scoped `MyBadRequestException`.
- `InternalServerError`.
- `Uncaught`: a collaborator's exception that no catch block handles.

The new user's id, which the database generates, is a parameter of
`register`. The `Store` class keeps the table's unique constraints on `id`
and `email` as its invariant; `LoginOnlyRowWithEmail` uses it.

Registration hashes the trimmed password, but login verifies the password
exactly as typed. `AuthProperties.LoginAfterRegister` states the
consequence: with a faithful hasher, a password registered with surrounding
whitespace and typed the same way at login is refused.

## Model

| member | source | states |
|---|---|---|
| Scopes.ScopeNamesMap | cod/modul-autentificare-functionalitati-server-service.ts:184-190 | the inner fold maps exactly the listed scope names, each to `true` |
| Scopes.UniversitiesScopes | cod/modul-autentificare-functionalitati-server-service.ts:180-194 | the outer fold's keys are exactly the universities the records mention, and each entry is the scope-name map of the last record for that university |
| Scopes.NoMembershipsNoScopes | cod/modul-autentificare-functionalitati-server-service.ts:180-194 | the scope map is empty if and only if there are no membership records |
| Scopes.ScopesOfConcat | cod/modul-autentificare-functionalitati-server-service.ts:180-194 | folding `p + q` is the fold of `p` overridden by the fold of `q` |
| Scopes.LaterRecordReplaces | cod/modul-autentificare-functionalitati-server-service.ts:181-192 | a later record for a university replaces an earlier one's entry entirely |
| Scopes.ScopeNamesSetSemantics | cod/modul-autentificare-functionalitati-server-service.ts:184-190 | two scope lists with the same set of names give the same map, so order and repetition do not matter |
| Scopes.DuplicateScopeNameIgnored | cod/modul-autentificare-functionalitati-server-service.ts:184-190 | listing a scope name again leaves the map unchanged |
| JsString.Trim | cod/modul-autentificare-functionalitati-server-service.ts:40 | the trimmed string neither starts nor ends with whitespace, and is no longer than the input |
| JsString.TrimSlice | cod/modul-autentificare-functionalitati-server-service.ts:40 | `trim` yields a slice of the input with only whitespace before and after it |
| JsString.TrimUnique | cod/modul-autentificare-functionalitati-server-service.ts:40 | any split of the input into whitespace, a trimmed slice and whitespace has `trim`'s result as its slice |
| JsString.TrimIdempotent | cod/modul-autentificare-functionalitati-server-service.ts:40 | trimming twice is trimming once |
| JsString.ToUpperCase | cod/modul-autentificare-functionalitati-server-service.ts:41-42 | upper-casing keeps the length and maps each character through `UpperChar` |
| JsString.TrimToUpperCaseCommute | cod/modul-autentificare-functionalitati-server-service.ts:41-42 | trimming then upper-casing equals upper-casing then trimming |
| JsString.NormalizeNameIdempotent | cod/modul-autentificare-functionalitati-server-service.ts:41-42 | a stored last name or father's initial is a fixed point of the normalisation |
| Prisma.CreateOutcome | cod/modul-autentificare-functionalitati-server-service.ts:37-45 | `user.create` succeeds if and only if the database is up and neither the id nor the email is taken; the row then holds the data as given, with no avatar |
| Prisma.CreateKeepsUnique | cod/modul-autentificare-functionalitati-server-service.ts:37-45 | a successful create keeps ids and emails unique |
| Prisma.WithAvatarKeepsUnique | cod/modul-autentificare-functionalitati-server-service.ts:51-58 | setting an avatar keeps ids and emails unique |
| Prisma.FindById | cod/modul-autentificare-functionalitati-server-service.ts:51-58 | the row `user.update` targets is found if and only if some row has that id, and it has that id |
| Prisma.FindByEmail | cod/modul-autentificare-functionalitati-server-service.ts:89-97 | a row is found if and only if some row has that email, and the row found is a table row with that email |
| Prisma.MembershipsOf | cod/modul-autentificare-functionalitati-server-service.ts:162-178 | the membership query returns exactly the memberships some row gives the user |
| Prisma.MembershipsOfUniversities | cod/modul-autentificare-functionalitati-server-service.ts:162-178 | the universities of the query's result are exactly those in which the user has a row |
| Prisma.Store.UserCreate | cod/modul-autentificare-functionalitati-server-service.ts:37-45 | appends the created row or changes nothing, keeps ids and emails unique, and returns what `Create` says |
| Prisma.Store.UserUpdateAvatar | cod/modul-autentificare-functionalitati-server-service.ts:51-58 | sets the avatar of the row with that id or changes nothing, and keeps ids and emails unique |
| Prisma.Store.UserFindUniqueByEmail | cod/modul-autentificare-functionalitati-server-service.ts:89-97 | returns the row with that email, none, or the refused query's error |
| Prisma.Store.UniversityUserFindMany | cod/modul-autentificare-functionalitati-server-service.ts:162-178 | returns the user's memberships in row order, or the refused query's error |
| AuthTypes.Response.SetRefreshTokenCookie | cod/modul-autentificare-functionalitati-server-service.ts:69 | the response's refresh-token cookie now holds the given token |
| JsString.NormalizeName | cod/modul-autentificare-functionalitati-server-service.ts:41-42 | defines the normalisation applied to last name and father's initial: `trim`, then upper-case |
| Prisma.Create | cod/modul-autentificare-functionalitati-server-service.ts:37-45 | decides `user.create`: a refused query throws the connection error; a taken id or email throws a P2002 unique violation whose target names that column (id checked first); otherwise the data is stored as given under the new id with no avatar |
| Prisma.UpdateAvatar | cod/modul-autentificare-functionalitati-server-service.ts:51-58 | decides `user.update` of the avatar: a refused query throws the connection error, a missing id throws P2025, otherwise the row with that id gets the path as its avatar |
| Prisma.FindByEmailOnlyRow | cod/modul-autentificare-functionalitati-server-service.ts:89-97 | with the table's unique emails, the row `findUnique` returns is the only row with that email |
| AuthSpec.RegisterCatch | cod/modul-autentificare-functionalitati-server-service.ts:71-81 | the catch block of `register`: a P2002 whose target names `email` becomes the email field error "Email is already in use"; anything else becomes an internal error, so the result is always one of those two |
| AuthSpec.LoginCatch | cod/modul-autentificare-functionalitati-server-service.ts:113-121 | the catch block around verification in `login`: an error with the message `incorrect password` becomes the password field error "Incorrect password"; anything else an internal error, so the result is always one of those two |
| AuthSpec.RegistrationData | cod/modul-autentificare-functionalitati-server-service.ts:37-44 | the `data` of `user.create`: the email as given, the trimmed first name, the trimmed upper-cased last name and father's initial, and the hash |
| AuthSpec.RegisterSpec | cod/modul-autentificare-functionalitati-server-service.ts:35-82 | `register` as a function: the trimmed password is hashed, a throwing hash ends in `RegisterCatch`, otherwise `RegisterHashed` runs on `RegistrationData` |
| AuthSpec.RegisterHashed | cod/modul-autentificare-functionalitati-server-service.ts:37-82 | from `user.create` on: a refused create ends in `RegisterCatch`; an accepted row is appended and kept; then `AttachAvatar`, whose throw ends in `RegisterCatch` with the row kept, and `RegisterMint` |
| AuthSpec.AttachAvatar | cod/modul-autentificare-functionalitati-server-service.ts:46-59 | the avatar step: without a file nothing happens; with one, a throw from the file service or from `user.update` is passed on, and on success the row gets the returned path |
| AuthSpec.RegisterMint | cod/modul-autentificare-functionalitati-server-service.ts:61-70 | the end of `register`: tokens minted for `{user: {id, universities: {}}}`; a throw ends in `RegisterCatch`; on success the cookie gets the refresh token and the caller the access token |
| AuthSpec.LoginSpec | cod/modul-autentificare-functionalitati-server-service.ts:89-132 | `login` as a function: a refused lookup escapes; no row gives the "no user" email error; verification of the untrimmed password goes through `LoginCatch` (a false result counts as the `incorrect password` error); then the scope query and minting, whose throws escape; success sets the cookie |
| AuthSpec.UniversitiesScopesOf | cod/modul-autentificare-functionalitati-server-service.ts:159-195 | `getUniversitiesScopes`: a refused membership query throws, otherwise the fold of the user's memberships in row order |
| AuthSpec.RefreshSpec | cod/modul-autentificare-functionalitati-server-service.ts:135-156 | `refreshTokens` as a function: decode the cookie as a `refresh` token, recompute the scopes of its user, mint `RefreshedPayload`, set the cookie; nothing is caught |
| AuthSpec.RefreshedPayload | cod/modul-autentificare-functionalitati-server-service.ts:144-150 | the new payload: the old one with only `user.universities` replaced |
| Service.AuthService.Register | cod/modul-autentificare-functionalitati-server-service.ts:24-83 | the outcome, the user rows and the cookie after the call are exactly `RegisterSpec` of the state before; ids and emails stay unique; the membership table is unchanged |
| Service.AuthService.CreateAccount | cod/modul-autentificare-functionalitati-server-service.ts:37-82 | `register` from `user.create` on ends exactly as `RegisterHashed` says |
| Service.AuthService.SaveAvatar | cod/modul-autentificare-functionalitati-server-service.ts:46-59 | the avatar step ends as `AttachAvatar` says: rows unchanged without a file, the path recorded on success, nothing changed on failure |
| Service.AuthService.MintFirstTokens | cod/modul-autentificare-functionalitati-server-service.ts:61-70 | minting for the new id ends as `RegisterMint` says |
| Service.AuthService.Login | cod/modul-autentificare-functionalitati-server-service.ts:85-133 | the outcome and the cookie after the call are exactly `LoginSpec` of the database and the cookie before |
| Service.AuthService.RefreshTokens | cod/modul-autentificare-functionalitati-server-service.ts:135-157 | the outcome and the cookie after the call are exactly `RefreshSpec` of the database and the cookie before |
| Service.AuthService.GetUniversitiesScopes | cod/modul-autentificare-functionalitati-server-service.ts:159-195 | returns the fold of the user's memberships; its keys are exactly the user's universities; it throws if and only if the membership query is refused |
| AuthProperties.AccountRefused | cod/modul-autentificare-functionalitati-server-service.ts:71-82 | a refused `user.create` ends the call through the catch block with no row added and the cookie untouched |
| AuthProperties.AccountRowKept | cod/modul-autentificare-functionalitati-server-service.ts:37-59 | an accepted row stays whatever happens next (no rollback); earlier rows are untouched; only its avatar may change |
| AuthProperties.AccountAvatar | cod/modul-autentificare-functionalitati-server-service.ts:46-59 | on success the new row's avatar is the file service's path, or none when no file was sent |
| AuthProperties.AccountCookie | cod/modul-autentificare-functionalitati-server-service.ts:61-70 | on success the caller gets the access token and the cookie gets the refresh token of the pair minted for the new id with no universities; on failure the cookie is unchanged |
| AuthProperties.AccountOutcomes | cod/modul-autentificare-functionalitati-server-service.ts:71-82 | from `user.create` on, the outcome is the access token, the email field error or an internal error |
| AuthProperties.RegisterOutcomes | cod/modul-autentificare-functionalitati-server-service.ts:35-82 | `register` ends in the access token, the email field error or an internal error: never a password error, never an escaping exception |
| AuthProperties.RegisterNoRowUnlessCreated | cod/modul-autentificare-functionalitati-server-service.ts:36-45 | no row is added unless the hash succeeds, the database is up and neither the id nor the email is taken |
| AuthProperties.RegisterStoresNormalisedRow | cod/modul-autentificare-functionalitati-server-service.ts:36-45 | when creation succeeds, exactly one row is appended and kept. It holds the email as given, the trimmed first name, the trimmed upper-cased last name and father's initial, and the hash of the trimmed password |
| AuthProperties.RegisterStoresAvatar | cod/modul-autentificare-functionalitati-server-service.ts:46-59 | after a successful registration the new row's avatar is the stored file's path, or none without a file |
| AuthProperties.RegisterDuplicateEmail | cod/modul-autentificare-functionalitati-server-service.ts:72-78 | registering an email that already has a row yields the "Email is already in use" field error and adds no row |
| AuthProperties.RegisterCatchReportsEmailOnly | cod/modul-autentificare-functionalitati-server-service.ts:71-82 | the email field error is reported if and only if the error is a unique violation whose target names `email`; every other error is an internal error |
| AuthProperties.AccountStepFailures | cod/modul-autentificare-functionalitati-server-service.ts:46-81 | once the row exists, a throw from storing the avatar or from minting ends in the catch block with that same error, and a refused avatar update ends in an internal error |
| AuthProperties.AccountEmailErrorCause | cod/modul-autentificare-functionalitati-server-service.ts:37-81 | from `user.create` on, the email field error means the email already had a row, or the file service or token service threw a P2002 naming `email` |
| AuthProperties.RegisterHashFailure | cod/modul-autentificare-functionalitati-server-service.ts:35-36 | a throwing hash ends `register` in the catch block with that error, with no row added and the cookie unchanged |
| AuthProperties.RegisterStepFailures | cod/modul-autentificare-functionalitati-server-service.ts:46-81 | after a successful create, a throw from `createUserAvatar` or `generateTokens` ends `register` in `RegisterCatch` of that error, and a refused `user.update` ends it in an internal error |
| AuthProperties.RegisterEmailErrorCause | cod/modul-autentificare-functionalitati-server-service.ts:35-81 | the converse of `RegisterDuplicateEmail`: the email field error means the email already had a row, or the hasher, the file service or the token service threw a P2002 naming `email` |
| AuthProperties.RegisterMintsEmptyScopes | cod/modul-autentificare-functionalitati-server-service.ts:61-70 | a successful registration returns the access token of the pair minted for `{user: {id, universities: {}}}` and puts only its refresh token in the cookie; a failed one leaves the cookie |
| AuthProperties.RegisterTwice | cod/modul-autentificare-functionalitati-server-service.ts:72-78 | after one registration creates a row, a second registration under the same email is refused with the email field error and adds no row |
| AuthProperties.LoginUnknownEmail | cod/modul-autentificare-functionalitati-server-service.ts:99-103 | `login` reports "There is no user registered with this email" if and only if the lookup succeeds and finds no row |
| AuthProperties.LoginWrongPassword | cod/modul-autentificare-functionalitati-server-service.ts:105-121 | the password field error occurs if and only if verification says no or throws with the message `incorrect password`; an internal error occurs if and only if verification throws anything else |
| AuthProperties.LoginSuccessPayload | cod/modul-autentificare-functionalitati-server-service.ts:123-132 | a successful login verified the untrimmed password against the row found by email. The minted payload holds that row's id and one scope entry per university of the user, and the cookie gets the refresh token |
| AuthProperties.LoginOnlyRowWithEmail | cod/modul-autentificare-functionalitati-server-service.ts:89-132 | with unique emails, a successful login mints the id and scopes of whichever row holds the email |
| AuthProperties.LoginOutcomes | cod/modul-autentificare-functionalitati-server-service.ts:89-133 | `login` changes no row, and the only exceptions it lets through come from the database or from minting |
| AuthProperties.LoginChecksStoredHash | cod/modul-autentificare-functionalitati-server-service.ts:105-121 | with a faithful hasher, a login gets past the password check if and only if the typed password is the one the stored hash was made from |
| AuthProperties.LoginAfterRegister | cod/modul-autentificare-functionalitati-server-service.ts:106-109 | after registering (which hashes the trimmed password, line 36), login gets past the password check if and only if the typed password equals the trimmed one |
| AuthProperties.RefreshReplacesOnlyScopes | cod/modul-autentificare-functionalitati-server-service.ts:144-156 | a successful refresh decoded the cookie as a refresh token and minted the old payload with only `user.universities` replaced. The new scopes' keys are exactly the user's current universities, and the cookie gets the new refresh token |
| AuthProperties.RefreshIgnoresStaleScopes | cod/modul-autentificare-functionalitati-server-service.ts:141-150 | decoded payloads that differ only in `user.universities` lead to the same run, so revoked memberships do not survive a refresh |
| AuthProperties.RefreshDecodeFailure | cod/modul-autentificare-functionalitati-server-service.ts:136-140 | a token that fails to decode ends the call with that exception and nothing changed; a refresh ends only in success or an uncaught exception |
| AuthProperties.FailureLeavesCookie | cod/modul-autentificare-functionalitati-server-service.ts:85-157 | `login` and `refreshTokens` write the cookie on success only; any error leaves it as it was |

## Left out

- JsString.ToUpperCase: only ASCII letters are upper-cased. ECMAScript's full Unicode case mapping (for example `ß` becoming `SS`, which changes the length) is not modelled.
- JsString.Trim: the function's own contract states only that the result is trimmed and no longer than the input. The full characterisation is in `TrimSlice` and `TrimUnique`.
- Token signing, expiry and verification inside the token service are not modelled. `generateTokens` and `getPayloadFromToken` are arbitrary functions, so no sign/verify round trip is claimed.
- The cookie's name and attributes are not modelled. `setRefreshTokenCookie` is modelled as writing the response's cookie and never throwing.
- The password hasher is an arbitrary pair of functions. Argon2's random salt is folded into the `hash` function value.
- The file service's storage is not modelled. It is a function from id and upload to a path or an error.
- The database is modelled as two tables:
  - Query failure is modelled per query kind (the `failing` set), and every refused query throws the same connection error.
  - The generated id is a parameter. An id clash is checked before an email clash.
  - `findUnique`'s `select` of id and password is modelled as returning the whole row.
  - `findMany` returns rows in table order.
  - A unique violation's `meta.target` is modelled as a list of field names. Prisma versions that report the constraint name as a string, and a P2002 error with no `meta`, are not modelled.
- The request's cookie map is reduced to the value of the refresh-token cookie, if any.
- `async`/`await` and concurrency are not modelled: each operation runs atomically. Two concurrent registrations racing on the same email are not modelled.
- The GraphQL resolver, including `logout`, is not part of this model. Nor is input validation (`IsEmail`, `IsNotEmpty`, `IsAlpha`, `Length(1, 1)`): every operation accepts any input.
- NestJS exception classes are modelled as `AuthOutcome` constructors; HTTP status codes and response bodies are not modelled.
