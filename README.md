# Kdyby Google: session credentials and configuration checks

A Dafny model of two parts of the Kdyby/Google integration of the Google
API client into the Nette framework.

**The session component** (`Kdyby\Google\Google`) finds out which access
token and which Google user belong to the current browser session. It
keeps two in-memory memos (the access token and the user id) and a
per-session record (`SessionStorage`) with the fields `code`, `state`,
`access_token`, `refresh_token`, `token_payload` and `user_id`. The token is
resolved along a chain:

1. a new CSRF-checked authorization code is exchanged;
2. otherwise a stored refresh token is used;
3. otherwise a stored token that has expired (less than 30 seconds of
   lifetime left) is dropped;
4. otherwise the stored token is returned.

A failed code exchange, a failed refresh, an expired token and a derived
user id that is falsy (null, 0 or empty) each clear the whole session. The user id comes from the `sub`
claim of the verified ID token, or from the user profile when there are no
claims. The verified claims are cached in the session.

**The DI extension** (`GoogleExtension::loadConfiguration`) validates the
configuration:

- only one credential syntax may be used (appId/appSecret or
  clientId/clientSecret);
- the client-style keys are renamed to the application-style keys;
- the app id, the 24-character secret, the 39-character API key and the
  scope list must have the right shape;
- the access type must be `online` or `offline`;
- the return destination must be a URL with a scheme and a path, or a
  presenter name, possibly with arguments.

Modules:

- `Php` (php.dfy): PHP values, arrays as maps, truthiness, `isset`,
  `?? null`, and thrown exceptions as an `Outcome`.
- `Session` (session.dfy): the session record as a value (`Record`) and as
  the object the component mutates (`SessionStorage`, with `ClearAll`).
- `Auth` (auth.dfy): each operation of the session component as a
  function from a snapshot of the state (both memos and the session record)
  to its result and the next snapshot. The preserved invariant is `Valid`.
- `Client` (client.dfy): the class `Google`. Its fields are the two memos
  and the session object, which its methods update in place. Each method
  is proved to end in the state, and with the result, that the matching
  `Auth` function gives.
- `AuthProperties` (auth_properties.dfy): the properties that relate
  operations: the branches of the resolution chain, memoisation, claim
  caching, user derivation and logout, plus worked scenarios.
- `Config` (config.dfy): the configuration checks, the return-destination
  rules and the presenter-name grammar. `LoadConfiguration` rewrites the
  configuration map in place.

The identity provider's answers and the clock enter as the fields of an
`Env` value:

- exchanging a code;
- the refresh grant followed by decoding the client's token;
- verifying the ID token;
- the profile id;
- the current time.

URL parsing enters as a function `shapeOf` that tells whether a string
looks like a URL and whether it has a scheme and a path.

## Model

| member | source | states |
|---|---|---|
| Php.Lookup | src/Kdyby/Google/Google.php:251 | `$a[$k] ?? null`: null exactly when the key is not set, otherwise the stored value |
| Session.Record.UserId | src/Kdyby/Google/Google.php:335 | `get('user_id', 0)`: the cached id, or 0 when none is cached |
| Session.SessionStorage.ClearAll | src/Kdyby/Google/Google.php:439 | `clearAll` leaves every field of the session unset |
| Auth.GetRequest | src/Kdyby/Google/Google.php:505-516 | a parameter is found exactly when POST or the query string holds a truthy value for it; POST wins, and a falsy POST value falls through to the query string |
| Auth.Code | src/Kdyby/Google/Google.php:357-366 | a code is returned exactly when the request carries a truthy code and a truthy state equal to the session's state; the session state is then used up; otherwise nothing changes |
| Auth.AccessTokenFromCode | src/Kdyby/Google/Google.php:302-323 | a token is returned exactly when the code is non-empty and the provider answers with a non-empty array, and it is that array; an empty code, an empty or non-array answer, or a throw gives false |
| Auth.UserAccessToken | src/Kdyby/Google/Google.php:245-295 | the chain keeps the session invariant; a returned token is the stored one; no token means a cleared session or only the CSRF state used up; the cached user id survives unless the session is cleared; the token changes only through a new code, a refresh or a clear |
| Auth.SetAccessToken | src/Kdyby/Google/Google.php:125-145 | it throws InvalidArgument exactly when the token does not decode to an array with `access_token`, and then nothing changes; otherwise the token is memoised and its `refresh_token`, if set, replaces the session's; nothing else changes |
| Auth.AccessToken | src/Kdyby/Google/Google.php:158-169 | a memoised token is returned with no change; otherwise the chain runs: a falsy result is not memoised and null is returned; a truthy result with `access_token` is memoised and returned, its `refresh_token` (if set) going to the session; a truthy result without `access_token` throws InvalidArgument after the chain's session changes; the user memo is untouched and the invariant is kept |
| Auth.AccessTokenEntry | src/Kdyby/Google/Google.php:164-166 | `getAccessToken($key)`: the memoised token's entry, null when missing; with no token memoised, a TypeError; the state is that of `getAccessToken()` |
| Auth.VerifiedIdToken | src/Kdyby/Google/Google.php:400-429 | any claims returned are non-empty and stored in `token_payload`; they exist only for a memoised token with `id_token`; a throw of `getAccessToken` and a throwing verification of uncached claims pass the throw on, with no further change; the user memo is untouched and the invariant is kept |
| Auth.UserFromAccessToken | src/Kdyby/Google/Google.php:375-394 | the state is that left by claim verification alone; the profile fetch changes nothing |
| Auth.UserFromAvailableDataAsWritten | src/Kdyby/Google/Google.php:333-347 | as written: without a token the cached id is returned; a throw of `getAccessToken` is passed on with its state; the invariant is kept |
| Auth.UserFromAvailableData | src/Kdyby/Google/Google.php:333-347 | corrected: without a token the cached id is returned; a throw of `getAccessToken` is passed on with its state; a truthy id returned alongside a token is cached as `user_id`; the user memo is untouched and the invariant is kept |
| Auth.UserMemo | src/Kdyby/Google/Google.php:228-229 | assigning a derived user to the memo: a null leaves it undetermined, anything else is memoised |
| Auth.User | src/Kdyby/Google/Google.php:226-233 | a memoised user is returned with no change; otherwise the derived user is returned and memoised unless it is null, and the new state is the derivation's state with that memo; a throw leaves the memo as it was; the invariant, including "no memoised null", is kept |
| Auth.DestroySession | src/Kdyby/Google/Google.php:435-440 | both memos are forgotten and the session is cleared, so no token is stored and the cached user id reads 0; the invariant holds afterwards |
| Auth.IdToken | src/Kdyby/Google/Google.php:196-207 | a throw of `getUser` is passed on; a falsy user gives null; a throwing verification after a truthy user is passed on; a truthy user with verified claims gives all the claims, or with a key that claim (null when missing); no claims give null; a non-null answer is a cached claim set or one of its set claims; the invariant is kept |
| Client.Google.constructor | src/Kdyby/Google/Google.php:71-78 | both memos start undetermined over the given session |
| Client.Google.SetAccessToken | src/Kdyby/Google/Google.php:125-145 | in place, the result and new state are those of `Auth.SetAccessToken` |
| Client.Google.GetAccessToken | src/Kdyby/Google/Google.php:158-169 | in place, the result and new state are those of `Auth.AccessToken` |
| Client.Google.GetAccessTokenEntry | src/Kdyby/Google/Google.php:158-169 | in place, the result and new state are those of `Auth.AccessTokenEntry` |
| Client.Google.SetRefreshToken | src/Kdyby/Google/Google.php:176-180 | only the session's refresh token changes, to the given value |
| Client.Google.GetRefreshToken | src/Kdyby/Google/Google.php:186-189 | returns the session's refresh token |
| Client.Google.GetIdToken | src/Kdyby/Google/Google.php:196-207 | in place, the result and new state are those of `Auth.IdToken`; as there, a throw of `getUser` or of the verification is passed on |
| Client.Google.GetUser | src/Kdyby/Google/Google.php:226-233 | in place, the result and new state are those of `Auth.User`; as there, a throw of `getAccessToken` is passed on |
| Client.Google.GetUserAccessToken | src/Kdyby/Google/Google.php:245-295 | in place, the result and new session are those of `Auth.UserAccessToken` |
| Client.Google.GetUserFromAvailableData | src/Kdyby/Google/Google.php:333-347 | in place, the result and new state are those of the corrected `Auth.UserFromAvailableData`; as there, a throw of `getAccessToken` is passed on |
| Client.Google.GetCode | src/Kdyby/Google/Google.php:357-366 | in place, the result and new session are those of `Auth.Code` |
| Client.Google.GetUserFromAccessToken | src/Kdyby/Google/Google.php:375-394 | in place, the result and new state are those of `Auth.UserFromAccessToken` |
| Client.Google.GetVerifiedIdToken | src/Kdyby/Google/Google.php:400-429 | in place, the result and new state are those of `Auth.VerifiedIdToken`; as there, a throw of `getAccessToken` or of the verification is passed on |
| Client.Google.DestroySession | src/Kdyby/Google/Google.php:435-440 | both memos are forgotten and the session is cleared |
| AuthProperties.CodeIsSingleUse | src/Kdyby/Google/Google.php:360-362 | once a code has been extracted, the same request yields no code again and changes nothing more |
| AuthProperties.NewCodeExchanged | src/Kdyby/Google/Google.php:247-253 | a new CSRF-valid code that is exchanged sets `code`, clears `token_payload`, replaces `refresh_token` with the new token's (null if it has none), and stores and returns the token |
| AuthProperties.NewCodeRejected | src/Kdyby/Google/Google.php:255-257 | a new code the provider does not exchange clears the session and gives false |
| AuthProperties.SameCodeFallsThrough | src/Kdyby/Google/Google.php:247 | a code equal to the exchanged one is not exchanged again; resolution proceeds as with no code, after the CSRF state is used up |
| AuthProperties.RefreshPath | src/Kdyby/Google/Google.php:260-279 | with no stored token but a refresh token, success returns the answer with the stored refresh token attached, forgets `code` and stores the token; any failure clears the session |
| AuthProperties.ExpiryCheck | src/Kdyby/Google/Google.php:281-294 | otherwise an expired stored token clears the session, and a live one is returned unchanged |
| AuthProperties.ExpiredMeansUnderMargin | src/Kdyby/Google/Google.php:284 | a token with `created` and `expires_in` is expired exactly when fewer than 30 seconds of its lifetime remain |
| AuthProperties.AccessTokenIdempotent | src/Kdyby/Google/Google.php:158-169 | a second `getAccessToken` in the same request gives the same answer and state, whatever the provider and clock now say |
| AuthProperties.UserIsMemoised | src/Kdyby/Google/Google.php:226-233 | after a non-null user, a second `getUser` returns the memoised id and changes nothing |
| AuthProperties.NullUserDerivedAgain | src/Kdyby/Google/Google.php:228-229 | after a null user the memo stays undetermined and the next `getUser` derives the user again |
| AuthProperties.TokenWithoutAccessTokenThrows | src/Kdyby/Google/Google.php:135-137 | a token the chain returns without `access_token` makes `getUser` and `getIdToken` throw InvalidArgument, keeping the chain's session writes and leaving both memos undetermined |
| AuthProperties.CachedClaimsReused | src/Kdyby/Google/Google.php:410-412 | cached non-empty claims are returned without verification |
| AuthProperties.NoIdTokenNoClaims | src/Kdyby/Google/Google.php:406-408 | a token without `id_token` gives no claims and changes nothing |
| AuthProperties.VerificationCached | src/Kdyby/Google/Google.php:419-428 | a failed verification stores and returns null; a successful one stores and returns the claims; a throwing one is passed on and changes nothing |
| AuthProperties.VerifyIgnoresProfile | src/Kdyby/Google/Google.php:400-429 | verifying the claims does not depend on the profile fetch |
| AuthProperties.UserDerivation | src/Kdyby/Google/Google.php:375-394 | the user is `sub` when the claims have it; 0 when they lack it, with the profile not consulted; the profile id when there are no claims; 0 on a throw |
| AuthProperties.NoTokenKeepsCachedUser | src/Kdyby/Google/Google.php:335-346 | with no access token the cached `user_id` is returned as is |
| AuthProperties.DerivedUserStoredOrCleared | src/Kdyby/Google/Google.php:338-344 | a re-derived user that is falsy clears the session; a truthy one is stored as `user_id` |
| AuthProperties.CachedUserSurvivesExpiry | src/Kdyby/Google/Google.php:284-286 | an expired token clears the session, yet `getUser` answers the id cached before, which it read first |
| AuthProperties.LoggedOutAfterDestroy | src/Kdyby/Google/Google.php:435-440 | after `destroySession`, `getUser` answers 0 whatever the request and the provider |
| AuthProperties.ChangedTokenRederives | src/Kdyby/Google/Google.php:337-339 | corrected: when the token in use differs from the one stored before the call, the user is derived from it afresh |
| AuthProperties.CachedUserReused | src/Kdyby/Google/Google.php:337-345 | corrected: while the token in use is the one stored before the call, a truthy cached `user_id` is returned with no identity call and no change beyond resolving the token |
| AuthProperties.AsWrittenRederivesOnlyWithoutCachedUser | src/Kdyby/Google/Google.php:335-344 | as written, after the chain resolved and stored a token, the user is derived again exactly when no user id is cached; a falsy result clears the session, a truthy one is cached |
| AuthProperties.AsWrittenRederivesForOutOfBandToken | src/Kdyby/Google/Google.php:338-344 | as written, a token memoised out of band that differs from the session's token makes the user be derived again, with the same clear-or-cache effect |
| AuthProperties.StaleUserAfterNewCode | src/Kdyby/Google/Google.php:338 | as written, a login with a new code for another user returns the previous user's cached id; corrected, it returns the new user |
| AuthProperties.CodeLoginScenario | src/Kdyby/Google/Google.php:245-258 | a code login stores the code, the token and its refresh token, and caches the profile's user id |
| AuthProperties.RefreshScenario | src/Kdyby/Google/Google.php:260-273 | a silent refresh attaches the stored refresh token and forgets the code |
| AuthProperties.RefreshFailureScenario | src/Kdyby/Google/Google.php:274-277 | a refused refresh gives no token and wipes the session |
| Config.IsPresenterName | src/Kdyby/Google/DI/GoogleExtension.php:159-162 | the case-insensitive presenter-name pattern, with `$` also matching before a final newline, written as prefix stripping and a character test; it has no contract of its own, and `PresenterNameMatchesForm` characterises it |
| Config.PresenterNameMatchesForm | src/Kdyby/Google/DI/GoogleExtension.php:159-162 | `isPresenterName` accepts exactly: an optional `//`, an optional `:`, a letter or digit, one or more letters, digits or colons, and an optional final newline |
| Config.MatchHasForm | src/Kdyby/Google/DI/GoogleExtension.php:159-162 | every string `isPresenterName` accepts has the decomposed form |
| Config.FormMatches | src/Kdyby/Google/DI/GoogleExtension.php:159-162 | every string of the decomposed form is accepted by `isPresenterName` |
| Config.AllNameCharsIff | src/Kdyby/Google/DI/GoogleExtension.php:161 | the repeated class `[a-z0-9:]` holds exactly when every character is a letter, a digit or a colon |
| Config.PresenterNameShape | src/Kdyby/Google/DI/GoogleExtension.php:161 | an accepted name has at least two characters and starts with a letter or digit, `//` or `:` |
| Config.ReturnDestination | src/Kdyby/Google/DI/GoogleExtension.php:81-122 | an entity is accepted exactly when its name is a presenter name, keeping its arguments; a URL-like string exactly when it has both a scheme and a path, failing on the scheme first; any other string exactly when it is a presenter name; an accepted URL registers that URL and an accepted non-URL string registers that presenter name; a boolean, integer or array fails with the TypeError of the URL test; null sets no destination |
| Config.MergeOver | src/Kdyby/Google/DI/GoogleExtension.php:46-48 | the merged options hold every configured and every default key; a configured value wins, except that a configured null keeps an array default |
| Config.DefaultsHoldOptions | src/Kdyby/Google/DI/GoogleExtension.php:27-38 | the defaults hold every checked option: `appId`, `appSecret`, `clientId`, `clientSecret`, `apiKey` and `returnUri` are null, `accessType` is `online`, `scopes` is `profile`, `email`, `clearAllWithLogout` is true and `debugger` is `%debugMode%` |
| Config.DefaultScopesAreList | src/Kdyby/Google/DI/GoogleExtension.php:34 | the default scopes form a list |
| Config.RenameClientKeys | src/Kdyby/Google/DI/GoogleExtension.php:56-58 | with the client-style syntax the client id and secret become the app id and secret, the client keys are removed and every other option is kept |
| Config.Effective | src/Kdyby/Google/DI/GoogleExtension.php:46-59 | the configuration the checks see holds every checked option, whichever syntax was used |
| Config.FirstError | src/Kdyby/Google/DI/GoogleExtension.php:61-122 | the checks fail in order: a non-string app id; then a secret that is not a 24-character string; then an API key that is neither null nor a 39-character string; then scopes that are not a list; then an access type other than `online` or `offline`; then the return destination's own error; none exactly when every check passes, and never mixed syntax |
| Config.CheckOptions | src/Kdyby/Google/DI/GoogleExtension.php:61-128 | a failure is the one `FirstError` names, so the checks run in the source's order; they pass exactly when the credentials and scopes have their shapes, the access type is allowed and the return destination passes; a well-shaped configuration with another access type fails on the access type; the registered id, secret, key, scopes, access type and destination are the configured ones |
| Config.NullScopesKeepDefault | src/Kdyby/Google/DI/GoogleExtension.php:34 | `scopes: null` keeps the default list `profile`, `email` |
| Config.LoadConfiguration | src/Kdyby/Google/DI/GoogleExtension.php:46-128 | the options are merged over the defaults; mixing the syntaxes fails exactly when both are set; the configuration is accepted exactly when the syntaxes are not mixed, the credentials and scopes have their shapes, the access type is allowed and the return destination passes; client keys are renamed and removed; any other failure is the one `FirstError` names for the effective configuration; an accepted setup registers the effective configuration's app id, its 24-character secret, its 39-character key or none, its scope list, its allowed access type and its checked destination |

## Left out

- Google API client calls are not modelled. Exchanging a code, the refresh grant, reading the client's token, ID-token verification and the profile fetch are inputs (`Env`). So is the clock. Each answer is fixed for the duration of one operation.
- JSON decoding in `setAccessToken` is an input: `JsonToken` carries the decoded value, or None when the text is not valid JSON. Encoding the token for the client is not modelled.
- Logging (`Debugger::log`) is not modelled: it has no effect on state.
- The redirect URI is not modelled. This covers `getCurrentUrl`, `getReturnLink`, `createLoginDialog`, `getClient`, `getConfig` and `getSession`, which build links from framework objects.
- PHP arrays are maps with no insertion order. So `===` between arrays ignores order, and the list check accepts keys 0..n-1 in any order.
- Request parameters are strings. An array-valued parameter is not modelled.
- Auth.UserAccessToken: the loose `!=` between the request code and `session.code` is string inequality. Numeric-string coercion is not modelled.
- Auth.Expired: a `created` or `expires_in` that is set but is not an integer counts as not expired. PHP's arithmetic on numeric strings and floats is not modelled.
- Auth.User, Auth.IdToken, Client.Google.GetUser, Client.Google.GetIdToken: these use the corrected user derivation (see Findings). On the Findings input they answer "bob" where the code as written answers "alice"; the as-written behaviour is `Auth.UserFromAvailableDataAsWritten`.
- Env: a throw from the API client is an `\Exception`, which the `catch` blocks catch. An `\Error` raised inside the client is not modelled.
- Auth.UserFromAvailableData: when the derived user is 0, the session is cleared but the in-memory token memo is kept, as the code does.
- Client.Google: the session object is not shared with other components, and no other code writes it during a call.
- Config.MergeOver: a configured array replaces an array default. Nette merges the two recursively and appends a configured list to the default one, so configured scopes would be added to `profile` and `email`. Nette appends every integer-keyed configured entry, not only those of a list: configured scopes such as `{1: "email"}` become a list there and are accepted, where the model rejects them with `InvalidScopes`. That merge depends on array order, which the model does not keep. The `_extends` marker is not modelled either.
- Config.Effective: `%debugMode%` is not expanded. The options other than the checked ones (`clearAllWithLogout`, `debugger`) are carried but not checked.
- Config.LoadConfiguration: lengths are counted in characters, where `Validators` counts bytes. A multi-byte secret or key is not modelled.
- Config.ReturnDestination: the `isUrl` regex and the scheme and path from `UrlScript` are the input `shapeOf`.
- Config.ReturnDestination: the destination keeps the raw string. Wrapping a URL in a `UrlScript` statement is not modelled.
- Container wiring is not modelled: service definitions, setup calls, the logout hook and `register`.

## Findings

| source | as written | input that shows it | evidently intended | confidence | as-written member | corrected member |
|---|---|---|---|---|---|---|
| src/Kdyby/Google/Google.php:338 | the cached `user_id` is kept when `$this->session->access_token === $accessToken`. The session token is read after `getAccessToken()` has run, and that call has just stored any newly exchanged token in the session, so the two are then always equal | session holds token TA, `user_id` "alice" and CSRF state "xyz"; the request brings code "c2" and state "xyz"; the provider exchanges "c2" for token TB whose profile is "bob". `getUser` answers "alice" | compare with the token the session held before the call, as the comment on line 337 says ("if the cached access token has changed"). The new login's user "bob" is then derived | not executed | Auth.UserFromAvailableDataAsWritten, AuthProperties.StaleUserAfterNewCode | Auth.UserFromAvailableData, AuthProperties.ChangedTokenRederives |
