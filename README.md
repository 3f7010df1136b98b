# playtz-api authentication core and handler rules, in Dafny

This project models the authentication core of the playtz-api backend, a Go
web service built on the Gin framework. It also models the rules in the
content handlers that go beyond database plumbing. It covers:

- **The session registry** (`Sessions`). An in-memory map from a random
  session handle to a session record. Each record holds the user's identity,
  the time of its last use and its expiry.
  - Creating a session stores a record that expires ten minutes later.
  - A lookup refuses and deletes an expired record. It slides a live record's
    window forward to the current time.
  - A periodic sweep deletes expired or idle records.
  - `SessionStore` is a class whose `sessions` field the methods update. Each
    method is proved against a pure function of the old map (`Inserted`,
    `LookupAt`, `Removed`, `Swept`). The multi-step properties are lemmas about
    those functions, for example create-then-lookup, delete-then-lookup and
    the sliding window.
- **The request gates** (`Middleware`).
  - `RequireAuth` takes the session handle from the `session_id` cookie or the
    `X-Session-ID` header. It resolves the handle against the registry and
    either attaches the identity to the request context or stops the chain
    with 401.
  - `RequireRole` is an exact, case-sensitive allow-list test on the attached
    role name. It answers 403 when the name is missing or not listed.
  - `RequirePermission` lets every request through.
  - The per-request context is the class `Http.Context`. It holds the key/value
    store, the JSON reply, the response headers written in order, and the
    aborted and continued flags.
- **Bearer tokens** (`Tokens`). JWTs as in RFC 7519, signed with HMAC-SHA256
  as in section 3.2 of RFC 7518. The signing key is read once from
  `JWT_SECRET`, falls back to a fixed development key, and is then cached.
  Issued claims expire 24 hours after issue. Validation refuses any token
  whose header names a non-HMAC method. The JWT library itself is a parameter,
  and validation takes the time at which the library checks the expiry.
  `ExtractTokenFromHeader` strips a case-sensitive `Bearer ` prefix.
- **The auth handlers** (`AuthHandlers`).
  - Login checks, in order: the bound body (400), the user lookup (401 or
    500), the active flag (403) and the password (401). It then creates the
    session and writes a `Max-Age=600` cookie.
  - Logout deletes the session and always answers success. It sets two
    cookie-clearing headers in turn, and the framework's `Header` replaces the
    first with the second. It then adds a third through `SetCookie`. The
    response therefore carries the `Expires` header and the added one, and
    not the `Max-Age=0` header.
  - The optional current-user endpoint never returns an error status.
  - The required current-user and change-password endpoints enforce their
    guards.
  - Database rows, password hashing and comparison are inputs.
- **Mixes** (`Mixes`).
  - The `contains` helper is an "ends with one of these suffixes" test.
  - A track's type defaults to video for links ending in `.mp4`, `.webm` or
    `.m3u8`, and to audio otherwise.
  - A single track gets number `COALESCE(MAX(number), 0) + 1`.
  - Bulk-added tracks are numbered by their index in the request list. Empty
    links and failed inserts leave gaps.
  - The `track_number` of a removal is validated with Go's `strconv.Atoi`
    rules.
- **News** (`News`).
  - Both read handlers give an article an excerpt: the content when it has at
    most 200 bytes, otherwise its first 200 bytes followed by `...`.
  - A created article is always unpublished.
- **The admin dashboard** (`Admin`). The role name read from the database
  picks the recent lists, each limited to five records:
  - `Admin` and `Super Admin` get news, events and orders;
  - `Editor` and `Content Manager` get news and events;
  - `Manager` gets orders;
  - any other name gets none. This includes the seeded role, spelled `admin`
    (`database/seed.go:42`).

**Conventions.**
- Time is an integer number of seconds. The clock is a parameter (`now`).
- Randomly generated identifiers are parameters (`handle`, `id`).
- A request's cookies hold their values after URL unescaping. A value that
  does not unescape reads as "", so the session header is consulted instead.
- A request's headers are keyed by canonical name, as Go's server stores
  them. `GetHeader` canonicalises the name it is asked for, so a client's
  `x-session-id` is the `X-Session-ID` header the code reads.
- The response headers map each name to its values. `Context.Header` replaces
  a header's values (an empty value deletes it), and `Context.SetCookie`
  appends one Set-Cookie line in the framework's rendering.
- `Db.Query` is the outcome of a single-row query: a row, no rows, or another
  failure.
- Replies are the datatype `Http.Reply`. Its `Error(code, message)`
  constructor stands for `{"error": message}` with that status.

Details of the code that the model keeps as written:
- `RequireAuth` attaches only the session, the user id, the role id and the
  role name. It does not attach the username or the email.
- The login cookie carries exactly the attributes the code writes.
- `GetAdminDashboard` uses the role name of the freshly read user row, not
  the role recorded in the session.
- `CreateNews` returns the excerpt sent in the request body. It does not
  compute one.

## Model

| member | source | states |
|---|---|---|
| Sessions.Inserted | auth/session.go:50-64 | the record stored under the handle has the given identity (handle, user id, username, email, role id and role name), last activity now and expiry one timeout later; the key set gains the handle and other records stay |
| Sessions.LookupAt | auth/session.go:69-89 | a record is found exactly when present and not expired, with its identity and a new expiry one timeout after now; only an expired record is removed, and other records stay |
| Sessions.Removed | auth/session.go:92-96 | the key set loses the handle and the other records stay |
| Sessions.Swept | auth/session.go:99-114 | the sweep keeps exactly the records that are neither past their expiry nor idle for longer than the timeout, unchanged, and none it keeps is expired |
| Sessions.CreateAddsOneRecord | auth/session.go:46-66 | creating under a fresh handle adds exactly one record, carrying the given identity, with last activity now and expiry one timeout later; every other record is unchanged |
| Sessions.LookupAbsent | auth/session.go:73-76 | an unknown handle is not found and the registry is unchanged |
| Sessions.LookupExpired | auth/session.go:78-82 | a record strictly past its expiry is not returned and is deleted; no other record changes |
| Sessions.LookupLive | auth/session.go:84-88 | a record at or before its expiry is returned with its identity intact, last activity set to now and expiry one timeout later; the key set and all other records are unchanged |
| Sessions.CreateThenLookup | auth/session.go:46-89 | a lookup at any time within one timeout of creation returns the identity given at creation |
| Sessions.DeleteThenLookup | auth/session.go:92-96 | after a deletion the handle is never found |
| Sessions.DeleteProperties | auth/session.go:92-96 | deletion removes only that handle, is a no-op on an absent handle, and is idempotent |
| Sessions.StaleIsExpired | auth/session.go:106-110 | on records the registry built, the sweep's idle test removes nothing the expiry test would keep |
| Sessions.OperationsKeepConsistency | auth/session.go:46-114 | create, lookup, delete and sweep all keep every record stored under its own handle with expiry equal to last activity plus the timeout |
| Sessions.IdleSessionDies | auth/session.go:69-114 | a record idle for longer than the timeout is refused and deleted by a lookup and removed by the sweep |
| Sessions.KeepAlive | auth/session.go:84-86 | lookups at non-decreasing times, each at most one timeout after the previous one, keep the session alive indefinitely with its identity unchanged (sliding window) |
| Sessions.SessionStore.constructor | auth/session.go:33-38 | the registry starts empty with the ten-minute timeout |
| Sessions.SessionStore.CreateSession | auth/session.go:46-66 | the registry becomes the old one with the new record inserted; the handle is returned; the invariant is kept |
| Sessions.SessionStore.GetSession | auth/session.go:69-89 | the result and new registry are those of the lookup function; found exactly when present and not expired; the returned record has the stored identity and a window slid to now |
| Sessions.SessionStore.DeleteSession | auth/session.go:92-96 | the registry becomes the old one without the handle |
| Sessions.SessionStore.Sweep | auth/session.go:99-114 | the registry becomes the sweep of the old one; no expired record remains |
| Sessions.CreateLookupDeleteScenario | auth/session.go:46-96 | two sessions created back to back each resolve to their own identity; deleting one leaves the other alive for the full timeout |
| Tokens.SecretFrom | auth/jwt.go:25-31 | the key is the environment value when set, otherwise the fixed development key; never empty |
| Tokens.SecretCache.constructor | auth/jwt.go:11 | the cache starts empty |
| Tokens.SecretCache.GetJWTSecret | auth/jwt.go:24-34 | the first call fills the cache from the environment or the fallback; every later call returns the cached key, whatever the environment says |
| Tokens.SecretIsStable | auth/jwt.go:24-34 | two successive calls return the same non-empty key |
| Tokens.TokenClaims | auth/jwt.go:37-52 | the claims carry the given identity, subject equal to the user id, issuer playtz-api, issued now and expiring 24 hours later |
| Tokens.GenerateToken | auth/jwt.go:37-61 | the result is the token the library signs for those claims with HS256 under the key, and the signing error exactly when signing fails |
| Tokens.ValidateToken | auth/jwt.go:64-84 | a token is accepted at a given time if and only if it decodes, its header names an HMAC method and the library verifies it under the key at that time; the result is its claims, and an HMAC token the library refuses is an invalid token |
| Tokens.NonHmacIsRejected | auth/jwt.go:67-71 | a token naming a non-HMAC method is refused whatever its signature |
| Tokens.IssueThenValidate | auth/jwt.go:37-84 | with a library that decodes what it signed and verifies it under the same key while it is unexpired, a token GenerateToken issues at `now` validates under the same key at any time before `now` plus 24 hours, to the identity it was issued for, from this issuer, issued at `now` and expiring 24 hours later |
| Tokens.IssuedTokenExpires | auth/jwt.go:37-84 | with a library that decodes what it signed and refuses it, under any key, at or after the expiry it carries, the token is refused as invalid at any time from 24 hours after issue on |
| Tokens.TokenWithoutExpiryIsAlwaysAccepted | auth/jwt.go:66-83 | an HMAC token signed under the key whose claims carry no expiry is accepted, with its claims, at every time |
| Tokens.ExtractTokenFromHeader | auth/jwt.go:87-92 | the token is non-empty if and only if the header is the `Bearer ` prefix followed by at least one character, and then the header is the prefix plus the token |
| Tokens.ExtractRoundTrip | auth/jwt.go:87-92 | prefixing a non-empty token with `Bearer ` and extracting gives the token back |
| Tokens.ExtractEdgeCases | auth/jwt.go:87-92 | the bare prefix, a lower-case scheme, no scheme and the empty header all give "" |
| Middleware.WithSession | middleware/auth.go:32-35 | exactly the keys session, user_id, role_id and role_name are set, from the session; every other key is kept |
| Http.CanonicalKey | middleware/auth.go:15 | a header name made only of token characters gets its first letter and each letter after a `-` in upper case and the other letters in lower case, keeping its length; any other name is kept as it is |
| Http.GetHeader | middleware/auth.go:15 | the value stored under the canonical form of the name asked for, or "" when there is none |
| Http.CanonicalKeyIdempotent | middleware/auth.go:15 | canonicalising a canonical name changes nothing |
| Http.SessionHeaderCanonical | middleware/auth.go:15 | the session header the code asks for is stored as `X-Session-Id` |
| Http.LowerCaseSessionHeader | middleware/auth.go:15 | a client's lower-case `x-session-id` names the same header |
| Http.NameWithSpaceKept | middleware/auth.go:15 | a name holding a space is not canonicalised |
| Middleware.SessionIdOf | middleware/auth.go:12-21 | a non-empty cookie wins; otherwise the header; the credential is empty exactly when neither is present |
| Middleware.RequireAuth | middleware/auth.go:10-39 | no credential gives 401 Authentication required with the chain aborted and the registry untouched; otherwise one registry lookup; not found gives 401 Invalid or expired session; found attaches session, user id, role id and role name and continues |
| Middleware.HasRole | middleware/auth.go:51-58 | the role is admitted if and only if it equals some listed name exactly |
| Middleware.CaseSensitiveRoles | middleware/auth.go:53-58 | the role `admin` is not admitted by a list naming `Admin` and `Super Admin` |
| Middleware.RequireRole | middleware/auth.go:42-68 | no role name gives 403 Access denied; an unlisted one gives 403 Insufficient permissions; a listed one continues; the context keys are unchanged |
| Middleware.RequirePermission | middleware/auth.go:71-77 | every request continues and nothing else changes |
| Middleware.AuthThenRole | middleware/auth.go:10-68 | the two gates in sequence admit a request if and only if it has a credential whose session is live and whose role name is listed |
| Numbers.Atoi | handlers/mixes.go:353 | Go's integer parse: none for the empty string, and any value it accepts fits a signed 64-bit integer |
| Numbers.AtoiDecimal | handlers/mixes.go:353 | every natural up to the 64-bit maximum, written in decimal, parses back to itself |
| Numbers.AtoiNegativeDecimal | handlers/mixes.go:353 | every negative number down to the 64-bit minimum, written with a minus sign, parses back to itself |
| AuthHandlers.UserOf | handlers/auth.go:75-78 | the returned user carries every field of the row (id, email, username, first and last name, role id, active); a null role name becomes "" |
| AuthHandlers.LoginCookieMatchesTimeout | handlers/auth.go:95 | the cookie's Max-Age is the decimal rendering of the registry's idle timeout in seconds (`Decimal`, which renders a natural number as `strconv.Itoa` does, is this row's helper) and parses back to it |
| AuthHandlers.LoginRefusal | handlers/auth.go:29-73 | login is refused unless the body binds, the user exists, is active and the password matches; an unbound body is 400, an unknown user 401, a failed query 500, an inactive account 403 and a wrong password 401, each with the code's message |
| AuthHandlers.InactiveBeforePassword | handlers/auth.go:62-73 | an inactive account gets 403 whatever the password comparison would say |
| AuthHandlers.UnknownUserLooksLikeWrongPassword | handlers/auth.go:53-73 | an unknown user and a wrong password get the same reply |
| AuthHandlers.Login | handlers/auth.go:28-103 | a refusal writes its reply and leaves the registry and headers untouched; otherwise the registry gains the user's session, the Set-Cookie header becomes the session cookie alone (`LoginCookie`, the header line at handlers/auth.go:95) and the reply carries the handle and the user |
| AuthHandlers.LoginThenAuthenticate | handlers/auth.go:83-95 | after a successful login, a request carrying the new cookie within the timeout is admitted by RequireAuth with the logged-in user's id and role name |
| AuthHandlers.Logout | handlers/auth.go:106-132 | the credential's session is deleted when there is a credential; the Set-Cookie values end as the Expires clearing header followed by the one SetCookie adds, the Max-Age header having been replaced; the reply is always success |
| AuthHandlers.ClearCookieAdded | handlers/auth.go:126 | the SetCookie call renders as `session_id=; Path=/; Max-Age=0; HttpOnly; Secure`, without SameSite |
| AuthHandlers.LogoutThenAuthenticate | handlers/auth.go:106-117 | after logout the same request is refused by RequireAuth |
| AuthHandlers.GetCurrentUserOptional | handlers/auth.go:136-189 | the reply is always status 200; authenticated with the fresh user exactly when the credential resolves to a live session and the user row is read; the lookup refreshes the session like RequireAuth |
| AuthHandlers.GetCurrentUser | handlers/auth.go:192-230 | without a session in the context 401 Not authenticated; otherwise the fresh user row, or 500 when it cannot be read |
| AuthHandlers.ChangePassword | handlers/auth.go:239-296 | the guards in order (401, 400 unless the current password is given and the new one has at least six characters, 404, 500, 401 wrong current password, 500 hashing); the new hash is written for the session's own user only after all of them pass |
| Mixes.Contains | handlers/mixes.go:383-390 | true if and only if the string ends with one of the listed suffixes |
| Mixes.LinkType | handlers/mixes.go:309-312 | the bulk add's type is video exactly for links ending in a video suffix, audio otherwise |
| Mixes.TrackType | handlers/mixes.go:247-258 | a requested type is kept; otherwise video exactly for links ending in a video suffix, audio for everything else |
| Mixes.ClassificationsAgree | handlers/mixes.go:309-312 | the bulk add classifies every link as the single add does; a video link has at least four characters |
| Mixes.VideoLinkExample | handlers/mixes.go:250-251 | a link ending in `.m3u8` is a video |
| Mixes.UpperCaseSuffixExample | handlers/mixes.go:383-390 | `.MP4` is not a video suffix: matching is case-sensitive |
| Mixes.QueryStringExample | handlers/mixes.go:383-390 | a link with a query string after `.mp4` is audio: the suffix must be at the very end |
| Mixes.DefaultAndRequestedExamples | handlers/mixes.go:248-257 | an empty link with no requested type is audio; a requested type is kept whatever the link |
| Mixes.MaxNumber | handlers/mixes.go:244 | 0 for a mix without tracks, otherwise a number in use that no other exceeds |
| Mixes.NextTrackNumber | handlers/mixes.go:243-245 | the new number exceeds every number in use, is 1 for an empty mix, and is one past a number in use otherwise |
| Mixes.AddTrackToMix | handlers/mixes.go:233-280 | 400 on an unbound body, 500 when the insert fails; otherwise the body's track typed by the classification rule and numbered one past the highest number in use, or 1 when the maximum query fails |
| Mixes.FailedMaxQueryReusesNumberOne | handlers/mixes.go:243-245 | with the maximum query failing, a mix that has a track 1 gets another track 1; with it succeeding the new number is unused |
| Mixes.ScannedMax | handlers/mixes.go:243-244 | the maximum the add handlers read: 0 when the query fails, whose error is ignored; otherwise a number in use that bounds all the others, or 0 for an empty mix (also handlers/mixes.go:300-301) |
| Mixes.BulkTrack | handlers/mixes.go:310-327 | the track recorded for the link at index i is numbered the maximum plus i plus 1, keeps the link, has no title, artist or duration, and is video exactly when the link ends in a video suffix |
| Mixes.PlannedShape | handlers/mixes.go:299-329 | bulk-added tracks (`Planned`, the list the loop at handlers/mixes.go:304-328 builds, is this row's helper) come from non-empty links whose insert succeeded, are numbered by the link's index after the maximum, strictly increase, lie in (maximum, maximum + count] and are no more than the links |
| Mixes.PlannedComplete | handlers/mixes.go:304-328 | every non-empty link whose insert succeeds gets its track |
| Mixes.GapExample | handlers/mixes.go:304-315 | links a, "", b after maximum 7 get numbers 8 and 10 |
| Mixes.AddLinks | handlers/mixes.go:304-328 | the bulk loop returns exactly the planned list: in order, one track per non-empty link whose insert succeeded, numbered from the maximum by the link's index and typed by its suffix |
| Mixes.AddTracksToMix | handlers/mixes.go:283-341 | an unbound body is 400 Invalid request body and an empty list 400 No track links provided; otherwise the returned tracks are the planned ones, strictly increasing, from non-empty links, all above the maximum |
| Mixes.ParseTrackNumber | handlers/mixes.go:347-357 | an empty parameter is 400 Track number required; one Atoi refuses is 400 Invalid track number; otherwise its value |
| Mixes.RemoveTrackFromMix | handlers/mixes.go:344-380 | validation errors first; then 500 when the delete fails, 404 when it removes nothing, otherwise success echoing the parameter as given |
| Mixes.RemovalParameterExamples | handlers/mixes.go:347-379 | `+07` removes track 7 and the reply echoes `+07`; `7a` and a lone `-` are 400 Invalid track number |
| Mixes.AssignedNumbersAreRemovable | handlers/mixes.go:353-357 | every number the add handlers can assign, written in decimal, is accepted for removal |
| News.Excerpt | handlers/news.go:44-48 | content of at most 200 bytes is its own excerpt; longer content gives its first 200 bytes followed by `...`, 203 bytes in all |
| News.Listed | handlers/news.go:34-50 | no more articles than rows, each one a scanned row given the excerpt of its content |
| News.WithExcerpt | handlers/news.go:77-81 | the article's excerpt becomes the excerpt of its content and nothing else changes |
| News.GetNews | handlers/news.go:26-53 | a failed query is 500; otherwise the rows that scan, in order, each with the excerpt of its content |
| News.GetNewsByID | handlers/news.go:56-84 | 404 for an unknown id, 500 on a failed query, otherwise the article with the excerpt of its content |
| News.ReadHandlersAgree | handlers/news.go:44-81 | both read handlers give the same article the same excerpt |
| News.CreateNews | handlers/news.go:87-119 | 400 on an unbound body, 500 when the insert fails; otherwise status 201 with the body under the new id and never published |
| Admin.RecentLists | handlers/admin.go:80-93 | orders exactly for Admin, Super Admin and Manager; news and events exactly for Admin, Super Admin, Editor and Content Manager; each list limited to five |
| Admin.GetAdminDashboard | handlers/admin.go:31-96 | any failure to read the user is 500; otherwise the user, the counters for every role, and the recent lists chosen by the row's role name, none when it is null |
| Admin.AdminSeesMost | handlers/admin.go:80-93 | no role sees a list that Admin does not, and Super Admin sees the same as Admin |
| Admin.LowercaseAdminSeesNoList | handlers/admin.go:80-93 | a user whose role is spelled `admin` gets the counters and no recent list |

## Left out

- Concurrency: the registry's mutex, the `sync.Once` singleton, the cleanup goroutine and its one-minute ticker. `Sweep` models one pass of the ticker loop.
- Sessions.SessionStore.GetSession: the registry hands out a pointer to the stored record, so later refreshes are visible through a context that still holds it. The model returns a copy of the record.
- Sessions.SessionStore.GetSession: the two readings of the clock in the lookup (expiry test and refresh) are one `now` parameter.
- Handle generation: 32 random bytes, base64-encoded. The handle is a parameter. `CreateSession` does not assume it is fresh.
- Tokens: encoding, signing, signature checking and the library's expiry and registered-claims checks are the abstract `JwtLibrary`. What the lemmas ask of it is stated as three laws, each about tokens the library itself signed:
  - `SignThenDecode`: such a token decodes to the method and claims it was signed with.
  - `VerifiesUnexpired`: it verifies under the same non-empty key at any time at which it is unexpired. A token with no expiry is unexpired at all times.
  - `SignedExpires`: under any key, it is refused at or after the expiry it carries.
  These are golang-jwt v5 with default parser options, which check the expiry only when present and do not check the issue time. Nothing is asked of tokens the library did not sign. Tampering is the library's business and is not restated.
- Tokens.GenerateToken: the key is a parameter, standing for the value `GetJWTSecret` returns.
- Tokens.TokenClaims: the code reads the clock twice, once for the expiry and once for the issue time. The model uses one `now` for both, so the claims expire exactly 24 hours after issue. In the code they differ by the time between the two readings.
- Tokens.IssueThenValidate: the library laws are an assumption about the JWT library, not proved of it. The same goes for Tokens.IssuedTokenExpires and Tokens.TokenWithoutExpiryIsAlwaysAccepted. The library reads the claims' times back through a 64-bit float. So the laws, and the issue time in both lemmas, are limited to times within 2^53 seconds of the epoch. Leeway and the one-second rounding of `NumericDate` are left out, because time here is already whole seconds.
- Tokens.ValidateToken: a token without an expiry is accepted at any time (`TokenWithoutExpiryIsAlwaysAccepted`). So the model does not promise that every accepted token is unexpired, only that tokens this API issued expire 24 hours after issue. Claims other than the ones listed in `Claims` (`nbf`, `aud`, `jti`) are not represented.
- Password hashing and comparison (bcrypt) are function parameters.
- Database access: the outcomes the replies depend on are parameters. This includes the maximum-number query of both add handlers, whose ignored failure leaves the maximum at 0. The dashboard counters, the mix track counts and the `UPDATE` of a mix's track total do not affect any reply the model states and are left out.
- Mixes.AddTrackToMix, Mixes.RemoveTrackFromMix and News.CreateNews: the database driver's error text appended to their 500 messages is left out.
- Timestamps and their RFC 3339 formatting are left out.
- AuthHandlers.Logout: `Context.SetCookie` takes its value already URL-escaped, and the framework's checks on cookie names, paths and domains are left out. Logout's values need neither.
- News.GetNews: a nil article list, serialised as JSON `null` when no row scans, and an empty list are not told apart.
- The recent-list helpers' row loops and the contents of the lists are left out. `Admin.RecentLists` states which lists are requested and with what limit.
- JSON binding: each body is an `Option`, with None for a body that does not bind. The binding rules the structs declare are modelled as predicates (`LoginBound`, `ChangePasswordBound`).
- All other handlers and routes of the service (events, merchandise, carts, checkout, rooms, careers, uploads, users, roles, backups) are not part of this model.
