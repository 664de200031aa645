# Session-token lifecycle of echo-cms, modelled in Dafny

echo-cms is a content-management backend written in Go. Its one part with real behaviour is
authentication. Login mints a JWT access token (30 minutes) and a refresh token (7 days).
Both token ids are written into Redis with matching time-to-lives. Every protected request
passes a gate that decodes the access token and checks that its id is still in Redis. Logout
deletes the access id. Refresh deletes the presented refresh id and mints a new pair.

This project models that lifecycle and proves what it does:

- `Wrappers`: Option and Result.
- `Utils` (utils/message.go, utils/response.go): the three-entry message table and the
  success/error envelopes.
- `Jwt`: the JWT library, kept abstract. A `Codec` bundles three opaque functions: signing
  into a compact string, parsing back, and the library's `exp` comparison (section 4.1.4 of
  RFC 7519). A decoded `Token` carries its header `alg`, the key its signature was made with,
  and its claims. `Jwt.Parse` is jwt-go's parse with a key function. It reports malformed
  input, a refusing key function, or an expired claim set and/or bad signature. `Lawful`
  states what the proofs assume of a real codec:
  - parsing undoes signing;
  - compact tokens contain no space;
  - the empty string does not parse;
  - an `exp` in the future has not expired, and a nonzero one in the past has. The library
    reads an `exp` of zero as unset, so such a token never expires.
- `Store`: Redis as a class `TtlStore` holding a map from key to `(value, deadline)` and an
  explicit clock. An entry is live iff `now < deadline`, which is SET-with-TTL semantics.
  A failing Redis command is an `Option<string>` parameter: `None` means the command
  succeeds, `Some(text)` means it returns that error. These stand for command errors
  after the connection's ping has succeeded; a failed ping panics (see "## Left out").
- `Tokens` (auth/token.go): `CreateToken` and its specification `Issue`, `ExtractToken` over a
  model of `strings.Split`, the HMAC-only key function, `VerifyToken`, `TokenValid`,
  `ExtractTokenMetadata`, and the refresh endpoint's decoder.
- `Auth` (auth/auth.go and `Refresh` of auth/token.go):
  - `CreateAuth`, `FetchAuth` and `DeleteAuth`;
  - `Login`, `Logout` and `Refresh`, as methods on the store.
  Each handler method is proved equal to a step function on the store's entries
  (`LoginStep`, `LogoutStep`, `RefreshStep`), and the lemmas are about those functions.
- `Middleware` (middleware/middleware.go): the gate `TokenAuthMiddleware`, the `ErrorHandler`
  with its loop over validation errors, and lemmas that chain Login, Logout, Refresh and
  the gate.

Fresh token ids (`xid.New()`) and the clock (`time.Now()`) come in as parameters.
- A fresh id contains no `'+'`, and no stored key starts with it (`Auth.Fresh`). xid ids
  are fixed-length base32 strings that are never reused.
- A request reads the store's clock.

Facts about the code that the proofs bring out:
- `Refresh` never looks the presented refresh id up in the store. It only deletes it. A
  rotated refresh token is therefore accepted again until its own `exp`
  (`Auth.RefreshAnswerIgnoresStore`, `Middleware.SessionRotation`). The same holds after
  a logout.
- Every gate rejection is 401 with the same message. The first stage returns an
  `echo.HTTPError`, which reaches the client through the error handler's
  `{status, code, message}` envelope. The other two stages write the message as a bare JSON
  string. So the response's shape separates a bad token from a revoked one
  (`Middleware.GateRejectionShapes`).
- `ExtractToken` splits on one space character. `"Bearer  t"` (two spaces) gives three
  fields and so yields `""`, which the gate refuses at its first stage
  (`Middleware.GateRefusesMalformedHeader`). The scheme word is never checked, so `"Basic t"` yields `t`.
  This does not fully implement section 2.1 of RFC 6750.
- Rotation in `Refresh` is not best-effort. A failed DEL ends the request with 422 before
  any new token is minted (auth/token.go:157-160).
- A failed refresh-id write in `Login` leaves the access entry live. The handler then
  panics at auth/auth.go:57 instead of answering; the model answers 422 (see `Auth.Login`
  under "## Left out").

## Model

| member | source | states |
|---|---|---|
| `Utils.GetMessage` | utils/message.go:11-27 | "Saved", "Updated", "Deleted" map to their fixed texts; every other input, "" and "saved" included, comes back unchanged; no output is itself a key |
| `Utils.GetMessageIdempotent` | utils/message.go:11-27 | translating a translated message changes nothing |
| `Utils.NewSuccess` | utils/response.go:17-26 | status is true and code 200 whatever the arguments; the message is GetMessage of the argument; data passes through unchanged |
| `Utils.NewError` | utils/response.go:29-37 | status is false, code is the argument, the message is GetMessage of the argument |
| `Utils.NewErrorReportsMessage` | utils/response.go:29-42 | `Error()` of an error envelope is exactly its translated message, and rebuilding the envelope from it gives the same envelope |
| `Utils.ErrorIsMessage` | utils/response.go:40-42 | `Error()` of every envelope is its message; rebuilding an error envelope whose message is already translated with NewError gives it back |
| `Jwt.Parse` | auth/token.go:78-91 | a token is accepted iff it parses, the key function yields a key, its `exp` has not expired and its signature matches that key; an unparsable string is Malformed |
| `Store.Get` | auth/auth.go:104 | a value comes back iff the connection works and the key is live, and it is the stored value |
| `Store.TtlStore.Set` | auth/auth.go:89 | on success the key now holds the value with deadline now + ttl, and nothing else changes; on failure nothing changes |
| `Store.TtlStore.Del` | auth/auth.go:114 | on success exactly the key is removed, whether or not it was present; on failure nothing changes |
| `Tokens.CreateToken` | auth/token.go:31-63 | access expiry is now + 1800 and refresh expiry now + 604800; the refresh id is TokenUuid ++ "++" ++ userId; the access token is signed HS256 with the access secret over exactly {access_uuid, user_id, exp} and the refresh token with the refresh secret over exactly {refresh_uuid, user_id, exp}; no details are returned iff either signing fails |
| `Tokens.Split` | auth/token.go:68 | strings.Split yields one more field than there are separators, and no field contains the separator |
| `Tokens.SplitJoin` | auth/token.go:68 | joining the fields with the separator gives back the header |
| `Tokens.ExtractToken` | auth/token.go:65-74 | with exactly one space the result is the text after it and the header is scheme + " " + result with no space in either; otherwise "" |
| `Tokens.ExtractTokenTwoFields` | auth/token.go:65-74 | any space-free scheme word, not only "Bearer", followed by a space and a space-free token yields that token |
| `Tokens.ExtractBearer` | auth/token.go:66-71 | "Bearer " + token yields the token when it has no space |
| `Tokens.HmacKey` | auth/token.go:78-85 | the key function yields the secret iff the header algorithm is HS256, HS384 or HS512 |
| `Tokens.VerifyToken` | auth/token.go:76-92 | succeeds iff the header's token parses, is HMAC, was signed with the access secret and has not expired, and then yields the parsed token; a non-HMAC algorithm is refused as unverifiable |
| `Tokens.DecodeRefresh` | auth/token.go:134-140 | the same decision as VerifyToken with the refresh secret, on the body's token |
| `Tokens.TokenValid` | auth/token.go:94-104 | nil exactly when VerifyToken succeeds, and VerifyToken's error otherwise |
| `Tokens.ExtractTokenMetadata` | auth/token.go:106-124 | succeeds exactly when VerifyToken does, with the token's access_uuid and user_id claims; otherwise VerifyToken's error |
| `Tokens.RefreshIdExtends` | auth/token.go:50 | the access id is a strict prefix of the refresh id, so the two differ |
| `Tokens.RefreshIdDerived` | auth/token.go:50 | for a '+'-free access id, the refresh id differs from every '+'-free id and both the access id and the user id can be split back out of it |
| `Tokens.RefreshIdInjective` | auth/token.go:50 | two sessions with '+'-free access ids share a refresh id only if they share access id and user |
| `Tokens.IssuedExpiries` | auth/token.go:33-49 | an issued pair expires at now + 1800 and now + 604800, access strictly first |
| `Tokens.IssuedAccessTokenVerifies` | auth/token.go:38-43 | an issued access token sent as a bearer token before its expiry verifies and its metadata is exactly (TokenUuid, userId) |
| `Tokens.IssuedAccessTokenExpires` | auth/token.go:33-43 | after its expiry the issued access token fails as expired, with a good signature, provided its expiry is not the library's unset value 0 |
| `Tokens.IssuedRefreshTokenDecodes` | auth/token.go:49-58 | an issued refresh token decodes before its expiry, with exactly the refresh claims |
| `Tokens.RefreshOutlivesAccess` | auth/token.go:33-58 | whenever the access token of a pair verifies, its refresh token decodes, provided the access expiry is not the library's unset value 0 |
| `Tokens.IssuedTokensAreNotInterchangeable` | auth/token.go:42-58 | with distinct secrets an issued refresh token never passes VerifyToken and an issued access token never passes the refresh decoder |
| `Auth.CreateAuth` | auth/auth.go:83-100 | equals CreateAuthStep: TokenUuid is written with TTL AtExpires - now, then RefreshUuid with TTL RtExpires - now, stopping at the first failure |
| `Auth.FetchAuth` | auth/auth.go:102-110 | returns the user id stored under AccessUuid iff the key is live and the store reachable, and the redis nil error for an absent or expired key |
| `Auth.DeleteAuth` | auth/auth.go:112-119 | equals DeleteAuthStep: one DEL of the given key |
| `Auth.CreateAuthWritesTwoKeys` | auth/auth.go:89-99 | on success the keys are the old keys plus the two ids, both mapped to the user with deadlines AtExpires and RtExpires, and every other entry is unchanged |
| `Auth.CreateAuthPartialFailure` | auth/auth.go:89-97 | a failed access write changes nothing and the refresh write is not attempted; a failed refresh write leaves the access entry |
| `Auth.DeleteAuthRemovesOneKey` | auth/auth.go:112-119 | deletion removes exactly the key, absent or not, without error, and leaves every other entry |
| `Auth.Login` | auth/auth.go:37-65 | equals LoginStep on the store's entries and clock; the clock is unchanged |
| `Auth.LoginCredentialFailures` | auth/auth.go:37-48 | an unknown email gives 400 "Users not found", a wrong password 400 "Invalid password", and neither writes to the store |
| `Auth.LoginSuccess` | auth/auth.go:50-65 | 200 iff user found, password right, both tokens signed and both writes succeed; then the reply is exactly the two tokens minted for dbUser.ID.Hex() and both ids are stored and live for that user |
| `Auth.LoginFailureLeavesSessions` | auth/auth.go:50-58 | login never changes an existing entry; a failure returns no tokens, and writes only the access entry, when the refresh write failed |
| `Auth.Logout` | auth/auth.go:68-81 | equals LogoutStep on the store's entries and clock |
| `Auth.LogoutDeletesOnlyAccessEntry` | auth/auth.go:68-81 | an undecodable token gives 401 and no change; 200 "Successfully logged out" iff the token decodes and the delete succeeds, which removes only the access id and leaves the session's refresh entry live |
| `Auth.LogoutIdempotent` | auth/auth.go:75-80 | a second logout with the same token again answers 200 and changes nothing |
| `Auth.Refresh` | auth/token.go:126-181 | equals RefreshStep on the store's entries and clock |
| `Auth.RefreshRejections` | auth/token.go:141-160 | a refresh token that does not decode gives 401 "Refresh token expired" and no change; a failed delete gives 422 "Failed refresh token" and no change |
| `Auth.RefreshSuccessIff` | auth/token.go:141-176 | 201 iff the token decodes with the refresh secret, a new pair signs for its user and the delete and both writes succeed |
| `Auth.RefreshAnswerIgnoresStore` | auth/token.go:150-176 | the answer of Refresh is the same whatever the store holds: the presented refresh id is never looked up |
| `Auth.IssuedRefreshTokenPresented` | auth/token.go:133-154 | an issued refresh token in the body decodes before its expiry to the session's refresh id and user id |
| `Auth.RefreshRotates` | auth/token.go:156-176 | on 201 the reply is exactly the new pair; the store is the old one minus the presented refresh id plus the two new ids for the token's user; the presented refresh id is gone and every other entry, the old access entry included, is unchanged |
| `Auth.RefreshLateFailures` | auth/token.go:161-170 | a signing or save failure after the delete gives 403, with the presented refresh entry already removed |
| `Auth.RefreshRefusesAccessToken` | auth/token.go:134-144 | with distinct secrets, an issued access token presented for refresh gives 401 and no change |
| `Middleware.TokenAuthMiddleware` | middleware/middleware.go:71-92 | calls next iff the access token verifies, its metadata extracts, and its access id is live in a reachable store; every rejection is 401 with "Error: Access Token is not valid or has expired", given that the store's ping succeeds |
| `Middleware.GateRejectionShapes` | middleware/middleware.go:75-88 | a token that does not verify is refused by returning an HTTPError(401, message); a verified token whose id is not live, or whose lookup fails, is refused by writing the message as a bare 401 JSON string |
| `Middleware.GateRefusesMalformedHeader` | middleware/middleware.go:75-78 | a header without exactly one space is refused at the gate's first stage with HTTPError(401, message) |
| `Middleware.GateIgnoresStoredUser` | middleware/middleware.go:85-90 | changing the user id stored under any key changes no gate decision |
| `Middleware.LoginThenGateAdmits` | middleware/middleware.go:74-91 | after a successful login its access token passes the gate at every time before its expiry |
| `Middleware.LogoutThenGateBlocks` | middleware/middleware.go:85-88 | after a successful logout the same token is refused by the gate at any time |
| `Middleware.RefreshKeepsAdmittedTokens` | auth/token.go:156-170 | at the same clock, a successful refresh revokes no access token the gate admitted, except one whose id is the presented refresh id |
| `Middleware.SessionRotation` | auth/token.go:156-176 | login then refresh before the access expiry: refresh answers 201 and the old refresh id is gone; the old access token still passes the gate; the same refresh token is accepted again |
| `Middleware.ErrorHandler` | middleware/middleware.go:34-65 | an echo.HTTPError keeps its code and message; any other error becomes 500 with its own text, validation errors included; only the first field error is examined; the four tags give their fixed formats and others keep the message; the reply is NewError(code, message) |

## Left out

- HMAC-SHA256 signing and verification, base64url and JSON encoding: opaque functions of `Jwt.Codec`. Every property of a real codec that a proof needs is an explicit `Lawful` hypothesis.
- The `exp` comparison at `exp == now`: decided inside the library, so it stays open in `Lawful`.
- Tokens.IssuedAccessTokenExpires and Tokens.RefreshOutlivesAccess: both assume the access expiry is not 0. The library reads an `exp` of 0 as unset, which never expires. That happens only when the clock reads -1800.
- A header whose `alg` is unregistered or missing: `Jwt.Alg` lists only the registered methods. So such a string can only parse to `None`, and the model reports it as Malformed, where the library reports it as unverifiable. The only visible difference is the error text in Logout's 401 body (auth/auth.go:72).
- The library's `iat` and `nbf` checks of map claims: not modelled. The tokens minted here carry neither claim.
- The library's own error texts (malformed token, expired, bad signature): `TokenError` values. The key function's text "unexpected signing method: <alg>" is from the source and is modelled.
- Tokens.CreateToken: reads the clock once. The source calls `time.Now()` separately for the two expiries (auth/token.go:33 and :49), so the refresh expiry can fall one second later than modelled.
- Middleware.TokenAuthMiddleware: one clock value per request. The source's two decodes (middleware/middleware.go:75 and :80) read the clock separately, so in the source a token can expire between them. In the model the second stage cannot fail once the first passes.
- Unreachable branches that follow a successful parse: auth/token.go:99-101, :123, :146-148 and :177-179. jwt-go always yields valid map claims once it returns no error.
- The unchecked claim type assertions (auth/token.go:114-115, :153-154): preconditions (`AccessClaimsTyped`, `RefreshRequestTyped`), not panics.
- Login's request binding, validation and database connection (auth/auth.go:20-35): not modelled. The user lookup is the `dbUser` parameter, and bcrypt's comparison is the `passwordOk` parameter.
- Auth.Login: on a failed save, auth/auth.go:57 formats the nil `err` instead of `saveErr`. Go panics on that. The model answers 422 with the save error's text and no tokens.
- Store.TtlStore.Set: the deadline is now + ttl for every ttl. The go-redis v8 client sends no expiry for a TTL of zero or less, so such a key never expires. The model instead stores an entry that is already dead.
- Auth.CreateAuth: a TokenDetails whose expiry is not after the clock gives such a non-positive TTL, and the model's entry is dead where the real key would persist. Login and Refresh never produce that case, because they mint at the current clock. The TTL is also counted in whole seconds; the source's `time.Duration` counts nanoseconds.
- `c.Bind` of the refresh body: the `Bound` value. A bind failure's text is a parameter.
- Writing JSON (`c.JSON`) and the logger call in ErrorHandler: not modelled. No lemma feeds the gate's raised error through `ErrorHandler`, because the handler is a method.
- Middleware.TokenAuthMiddleware, Auth.CreateAuth, Auth.FetchAuth, Auth.DeleteAuth: each store call first runs `DB.InitRedis()` (auth/auth.go:84, :103, :113). That function pings Redis and panics when the ping fails (db/redis.go:17-20). `New` installs no recovering middleware, so the request then gets no answer: no 401 from the gate or Logout, no 422 or 403 from Login or Refresh, and the call whose ping fails writes nothing (a Refresh whose delete already succeeded keeps that delete). The fault parameters stand only for command errors after a successful ping; a failed ping is not modelled.
- `New`, `CustomValidator.Validate`, the CORS and logging setup, the CRUD controllers, routers, models, `main.go` and the MongoDB connection: not modelled, because none of them takes part in the token lifecycle. The Redis connection's ping takes part only through the panic described above.
- Concurrency between requests and Redis atomicity: every operation is one sequential step on the store.
