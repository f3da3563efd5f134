# Session tokens and update flags of a restaurant reservation backend

This project models in Dafny the two stateful pieces of the backend:

- **Session tokens** (`auth.py`). `create_access_token` and `create_refresh_token` copy a claims dictionary and set its `exp` claim. The access token gets 15 minutes and the refresh token 30 days. Both sign the result with HS256. `verify_token` guards every protected handler: it reads the `access_token` cookie, decodes it and returns `(sub, role)`, or it raises HTTP 403 with one of three details. `refresh_token` decodes a refresh token and returns a new access token, or it raises 403 with one of three details, or it lets a `KeyError` escape when the payload has no `sub`.
- **Update flags** (`redis_funcs.py`). A Redis key `update_flag:<restaurant id>` is set to `"1"` by `set_update_flag`. `check_for_updates` is a test-and-clear. It returns true and deletes the key only when the stored value is exactly `b"1"`.

Modules:

- `Jwt` (`jwt.dfy`) models the JSON Web Token codec of RFC 7519. A token is either the compact serialization made by signing a claims map with some algorithm and key, or any other text. Checking a signature becomes comparing the token's algorithm and key with the expected ones. `Decode(token, key, alg, now)` yields `Ok(payload)`, `Expired` or `Invalid`. It reports `Expired` when an integer `exp` (section 4.1.4 of RFC 7519) is at or before `now`, as the Python library does. Claim values are `Null | Str | Int`. `Null` stands for Python's `None`, so a missing claim and a JSON null read the same through `Get`, just as through `payload.get`.
- `Roles` (`roles.dfy`) holds the `Role` string enum of `classes.py`.
- `Auth` (`auth.dfy`) holds the builders, `VerifyToken` and `RefreshToken` as functions. Each exception is the `Raise` variant of `Outcome`. The signing secret and the current time (whole seconds) are parameters. The request is modelled by its cookie map.
- `UpdateFlags` (`update_flags.dfy`) holds a `RedisClient` class whose `store` field is the key space, with the three Redis commands used (SET, GET, DEL). `SetUpdateFlag` and `CheckForUpdates` are methods that change the client's store. Each is specified by a function on the key space (`SetFlag`, `ClearFlag`), and the lemmas are proved about those functions. `Replay` runs a sequence of set and check calls one after another. Two lemmas about it prove that every set is consumed at most once and that no set is lost.
- `Wrappers` (`wrappers.dfy`) holds `Option`.

Both builders take the caller's dictionary as a map value and return a new map. The caller's dictionary is therefore unchanged by construction, just as the source's `data.copy()` keeps it unchanged.

## Model

| member | source | states |
|---|---|---|
| `Jwt.Get` | auth.py:50-51 | `payload.get(name)`: a non-null result is the stored claim; a missing claim reads as `Null` (None) |
| `Jwt.Encode` | auth.py:77 | an encoded token is never the empty (falsy) string |
| `Jwt.Decode` | auth.py:49 | a successful decode yields exactly the claims that were signed with the expected key and algorithm, and its `exp`, if any, is an integer later than `now`; `Expired` exactly when such a token's integer `exp` is at or before `now` |
| `Jwt.DecodeEncode` | auth.py:64 | decoding a signed token gives its claims back before `exp`, and `Expired` from `exp` on |
| `Jwt.DecodeOtherKey` | auth.py:49 | a token signed with another key is `Invalid` |
| `Roles.Parse` | classes.py:4-7 | a string converts to a role only if it is that role's value |
| `Roles.ParseName` | classes.py:4-7 | each of the three roles converts back from its own value |
| `Auth.WithExpiry` | auth.py:74-76 | the copy has `exp` set to the given time, overriding any caller-supplied `exp`, and every other key and value unchanged |
| `Auth.CreateAccessToken` | auth.py:73-78 | at issue the token decodes to the caller's claims with `exp` 15 minutes on; at that second it is `Expired` (all times: `AccessTokenClaims`) |
| `Auth.CreateRefreshToken` | auth.py:81-86 | at issue the token decodes to the caller's claims with `exp` 30 days on; at that second it is `Expired` (all times: `RefreshTokenClaims`) |
| `Auth.AccessTokenClaims` | auth.py:73-78 | an access token issued at `now` decodes to the caller's claims with `exp = now + 15*60` until that second; from then on it is `Expired` |
| `Auth.RefreshTokenClaims` | auth.py:81-86 | a refresh token issued at `now` decodes to the caller's claims with `exp = now + 30*86400` until that second; from then on it is `Expired` |
| `Auth.RefreshOutlivesAccess` | auth.py:15-16 | the access lifetime is shorter than the refresh lifetime; when the access token expires, a refresh token issued at the same time still decodes |
| `Auth.VerifyToken` | auth.py:43-56 | every raise is a 403 `HTTPException` (never another exception); a returned pair never contains None |
| `Auth.VerifyWithoutCookie` | auth.py:44-46 | a missing or empty `access_token` cookie gives 403 "Token not found", whatever the secret and time (nothing is decoded) |
| `Auth.VerifyDecodeFailure` | auth.py:55-56 | every decode failure, expiry included, gives 403 "Could not validate credentials" |
| `Auth.VerifyDecodedClaims` | auth.py:49-54 | after a successful decode, the session is returned if and only if `sub` and `role` are both present and not null, and it is exactly `(sub, role)`; otherwise 403 "Invalid token", not rewritten to "Could not validate credentials" |
| `Auth.VerifyAcceptsUnknownRole` | auth.py:51-53 | the role is checked for presence only: for every id and every role string that names no `Role` member, a current access token carrying them verifies to exactly that pair |
| `Auth.VerifyIssuedAccessToken` | auth.py:43-56 | an access token issued with `sub` and `role` verifies to exactly those values for 15 minutes, then gives 403 "Could not validate credentials" |
| `Auth.RefreshToken` | auth.py:59-70 | every raise is a 403 `HTTPException` or a `KeyError` on `sub` |
| `Auth.RefreshWithoutToken` | auth.py:60-61 | a missing or empty refresh token gives 403 "Refresh token not found" |
| `Auth.RefreshDecodeFailure` | auth.py:67-70 | an expired refresh token gives 403 "Refresh token expired" and is never reported as invalid; every other decode failure gives 403 "Invalid refresh token" |
| `Auth.RefreshIssuesAccessToken` | auth.py:63-66 | on success the new access token's claims are exactly `sub` and an `exp` 15 minutes on; `role` is dropped |
| `Auth.RefreshMissingSubEscapes` | auth.py:65 | every non-empty refresh token that decodes to a payload without `sub` raises `KeyError("sub")`, not a 403 |
| `Auth.RefreshedTokenFailsVerify` | auth.py:65 | any access token returned by `refresh_token` is refused by `verify_token`: "Invalid token" while current, "Could not validate credentials" once expired |
| `Auth.LoginRefreshVerify` | auth.py:59-70 | login tokens for (id, role): after 15 minutes the access token is refused, the refresh succeeds, and its access token is refused with "Invalid token" |
| `Auth.RefreshTokenKeepingRole` | auth.py:59-70 | corrected exchange: every raise is a 403 `HTTPException`; no `KeyError` escapes |
| `Auth.RefreshKeepingRoleVerifies` | auth.py:59-70 | corrected exchange: the returned access token verifies to the refresh token's own `(sub, role)` for 15 minutes |
| `UpdateFlags.FlagKey` | redis_funcs.py:11 | every flag key starts with `update_flag:` and is as long as that prefix plus the id |
| `UpdateFlags.FlagKeyInjective` | redis_funcs.py:11 | different restaurant ids have different flag keys |
| `UpdateFlags.SetFlag` | redis_funcs.py:10-11 | after a set the flag reads `b"1"`; the key set gains the flag key only, and every other key keeps its value |
| `UpdateFlags.ClearFlag` | redis_funcs.py:15-19 | after a check the flag is not pending; its key is removed only if it held `b"1"`; nothing else changes and no value is altered |
| `UpdateFlags.RedisClient.constructor` | redis_funcs.py:6 | a new client sees the key space the server already holds |
| `UpdateFlags.RedisClient.Set` | redis_funcs.py:11 | SET maps the key to the value and leaves other keys alone |
| `UpdateFlags.RedisClient.Get` | redis_funcs.py:16 | GET returns the stored bytes, or nil when the key is absent |
| `UpdateFlags.RedisClient.Delete` | redis_funcs.py:17 | DEL removes the key only, and returns how many keys it removed |
| `UpdateFlags.SetUpdateFlag` | redis_funcs.py:10-11 | the client's new key space is `SetFlag` of the old one |
| `UpdateFlags.CheckForUpdates` | redis_funcs.py:15-19 | returns true if and only if the stored value was exactly `b"1"`; the new key space is `ClearFlag` of the old one |
| `UpdateFlags.SetFlagIdempotent` | redis_funcs.py:11 | setting a flag twice gives the same key space as setting it once |
| `UpdateFlags.SetThenCheck` | redis_funcs.py:10-18 | a check right after a set reports true and removes exactly the flag key |
| `UpdateFlags.CheckTwice` | redis_funcs.py:16-19 | after a check the flag is not pending, so a repeated check reports false and changes nothing |
| `UpdateFlags.OtherValueKept` | redis_funcs.py:16-19 | a flag key holding anything other than `b"1"` is reported false and not deleted |
| `UpdateFlags.FlagsIndependent` | redis_funcs.py:11-17 | setting or checking restaurant `a` changes neither the stored value nor the pending state of restaurant `b != a` |
| `UpdateFlags.FlagScenario` | redis_funcs.py:10-19 | on a server with no keys: set `a`, then check `a` is true, check `a` again is false, and check `b` is false |
| `UpdateFlags.ConsumedAtMostOnce` | redis_funcs.py:10-19 | over any sequence of calls, the true reports for a restaurant plus its final pending flag never exceed its sets plus its initial pending flag |
| `UpdateFlags.NoUpdateLost` | redis_funcs.py:10-19 | over any sequence of calls, a flag that was pending or was set is reported by some check or still pending at the end |

## Left out

- `get_password_hash` and `verify_password` (auth.py:21-40) are left out: they call bcrypt and a Postgres account table. Note that a missing account would crash on subscripting `None` (auth.py:39).
- The HMAC-SHA256 signature itself is left out. A token records the key and algorithm it was signed with, and verification compares them.
- Jwt.Decode: treats a non-integer `exp` as a malformed token. The Python library converts `exp` with `int(...)`, so it also accepts a string of digits, a float or a boolean, and it raises `TypeError` on a null `exp`.
- Claim values are only `Null`, strings and integers. JSON booleans, floats, arrays and objects are not modelled, although `verify_token` would hand any non-None `sub` or `role` on unchanged. Claims other than `exp` (`nbf`, `iat`, `aud`, `iss`) are never produced here and are not checked.
- Token strings are modelled as the `Token` datatype rather than as text. The request is modelled by its cookie map from names to tokens.
- The wall clock (`datetime.utcnow`) is a parameter `now` in whole seconds. The library drops sub-second parts when it encodes `exp`, so nothing is lost.
- The signing secret comes from the environment (envs.py). Here it is a parameter. envs.py is not part of this model.
- main.py is not part of this model: routing, cookie setting, Firestore and storage calls, the fixed login principal, and the empty `update_vacancy`.
- The race between the separate GET and DEL in `check_for_updates` (redis_funcs.py:16-17) is left out. The model is sequential, so `CheckForUpdates` runs as one step.
- Redis connection errors and the client's configuration (host, port, database) are left out.

## Findings

| source | as written | input that shows it | evidently intended | confidence | as-written member | corrected member |
|---|---|---|---|---|---|---|
| auth.py:65 | the refreshed access token carries only `sub` and `exp`, so `verify_token` rejects it with 403 "Invalid token" | log in as (`r1`, `admin`), wait 15 minutes, refresh, then call any protected endpoint with the new access token | the new access token carries the refresh token's `role` too, and verifies to the same `(sub, role)` | high, not executed | `Auth.RefreshedTokenFailsVerify` | `Auth.RefreshKeepingRoleVerifies` |
| auth.py:65 | `payload["sub"]` raises `KeyError`, which neither handler catches, so the request fails with a server error | a correctly signed, unexpired refresh token whose claims are `{role: "admin"}` | a 403 "Invalid refresh token" like every other unusable refresh token | medium, not executed | `Auth.RefreshMissingSubEscapes` | `Auth.RefreshTokenKeepingRole` |
