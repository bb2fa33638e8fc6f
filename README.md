# Victor aviation back office — a Dafny model

This project models the core of the Victor aviation back office. It has two
back ends that serve the same flights, plus two browser front ends that keep a
signed-in session:

- **The JavaScript back end** (`backend/src/**/*.js`):
  - the login / refresh / logout controller and its `refresh_tokens` ledger;
  - the bearer-token and role middleware;
  - the error handler;
  - the SQL flight service, which builds the query text and parameters for `listFlights` and writes the `flights` table.
- **The TypeScript back end** (`backend/src/modules/**`, `core/`, `middleware/*.ts`):
  - the session service (`auth.service.ts`);
  - the `AppError` taxonomy and its JSON envelope;
  - pagination;
  - the Zod request schemas for airports, users and templates;
  - the Prisma services for flights, airports, templates, authority views, passengers, baggage, QR passes, documents and users.
- **The admin panel** (`admin-panel/`):
  - the `useApi` hook;
  - the `AuthProvider`, which persists its session to local storage and retries a request once after a silent refresh.
- **The admin portal** (`admin-portal/`):
  - its axios-style client;
  - its `AuthProvider`;
  - the `ProtectedRoute` gate.

The model is built as follows:

- **Tokens.** JSON Web Tokens are symbolic: a token is `Signed(secret, claims)` or a forged string.
  - Verification checks the secret and `exp`, using the rule that a token is expired once the current NumericDate (whole seconds) reaches `exp`.
  - Signing is deterministic, as HS256 is.
- **Passwords.** bcrypt hashes are symbolic: cost, salt, and the 72 key bytes bcrypt reads from the password (its UTF-8 encoding and a zero byte, repeated), so passwords that agree on those bytes match the same hash.
- **Database.**
  - The ledger and the JavaScript `flights` table are Dafny classes whose methods update their fields.
  - The Prisma tables are one `Store.Database` class with one sequence field per table. The service methods change only the tables they name.
- **Pure code.** Schemas, where-builders and orderings are functions. Each has lemmas that relate it to an independent statement of what it selects or accepts.
- **Outside inputs.** Clocks, random ids and tokens, salts, the HTTP peer and local storage are all parameters.

## Model

| member | source | states |
|---|---|---|
| RefreshLedger.WithoutToken | backend/src/services/auth-service.js:24-27 | exactly the rows whose token differs survive, unchanged; afterwards no row carries the token |
| RefreshLedger.WithoutUser | backend/src/services/auth-service.js:29-32 | exactly the rows of other users survive, unchanged; the user has no row left |
| RefreshLedger.WithoutAbsentToken | backend/src/services/auth-service.js:24-27 | deleting a token no row carries leaves the table unchanged |
| RefreshLedger.WithoutUserIdempotent | backend/src/services/auth-service.js:29-32 | deleting one user's rows twice equals once, and other users' rows are untouched |
| RefreshLedger.FindAfterInsert | backend/src/services/auth-service.js:3-22 | an inserted token value is found afterwards |
| RefreshLedger.Ledger.CreateRefreshToken | backend/src/services/auth-service.js:3-10 | inserts the row iff its id is new; a duplicate primary key changes nothing |
| RefreshLedger.Ledger.FindRefreshToken | backend/src/services/auth-service.js:12-22 | null iff no row has the token; otherwise a stored row with that token, with its id |
| RefreshLedger.Ledger.DeleteRefreshToken | backend/src/services/auth-service.js:24-27 | the new table is the old one without that token's rows |
| RefreshLedger.Ledger.DeleteRefreshTokensForUser | backend/src/services/auth-service.js:29-32 | the new table is the old one without that user's rows |
| AuthController.FindUserByEmail | backend/src/controllers/auth-controller.js:32 | a user with that e-mail, or none iff no user has it |
| AuthController.WithLastLogin | backend/src/controllers/auth-controller.js:61 | only that user's last-login time changes |
| AuthController.DifferenceInSeconds | backend/src/controllers/auth-controller.js:67 | the whole seconds between two instants, truncated toward zero: `r` seconds are within one second of the difference, on the side of zero |
| AuthController.RefreshPayload | backend/src/controllers/auth-controller.js:52-56 | the refresh payload carries sub, email and role, plus the record id as `jti` only in the corrected issuance |
| AuthController.IssueRefresh | backend/src/controllers/auth-controller.js:52-60 | a token under the refresh secret with the refresh payload, verifying now and expiring seven days after the issue second |
| AuthController.ExpiryMs | backend/src/controllers/auth-controller.js:58-60 | a record's expiry is the token's `exp` in milliseconds |
| AuthController.LoginStep | backend/src/controllers/auth-controller.js:25-70 | 422 on validation errors; every reply other than 200 leaves ledger and users unchanged |
| AuthController.RefreshStep | backend/src/controllers/auth-controller.js:72-116 | 422 on validation errors; a token the ledger does not hold gives 401 and changes nothing |
| AuthController.LogoutStep | backend/src/controllers/auth-controller.js:118-129 | 422 on validation errors, otherwise 200 with the logged-out message |
| AuthController.LoginKeepsSound | backend/src/controllers/auth-controller.js:43-60 | login keeps every ledger row a verifiable refresh token of its own user with matching expiry |
| AuthController.RefreshKeepsSound | backend/src/controllers/auth-controller.js:93-108 | refresh keeps the ledger sound |
| AuthController.LogoutKeepsSound | backend/src/controllers/auth-controller.js:124-126 | logout keeps the ledger sound |
| AuthController.LoginFailsUniformly | backend/src/controllers/auth-controller.js:32-41 | unknown e-mail, inactive account and wrong password give the same 401 and leave the ledger alone |
| AuthController.LoginLooksUpLowercased | backend/src/controllers/auth-controller.js:32-37 | an e-mail with no user under its lower-cased form gets "Invalid credentials" |
| AuthController.LoginCaseInsensitive | backend/src/controllers/auth-controller.js:32 | two e-mails that lower-case alike give the same login outcome |
| AuthController.LoginSucceeded | backend/src/controllers/auth-controller.js:43-69 | a successful login found an active user with that password, replaced the user's rows by one holding the new refresh token and its expiry, stamped last-login, and replied with the token, `expiresIn` and the user |
| AuthController.LoginLeavesSingleSession | backend/src/controllers/auth-controller.js:43-67 | after login the user has exactly one ledger row, holding the returned refresh token with `expires_at` its expiry; `expiresIn` is the lifetime or one second less; other users keep their rows |
| AuthController.ExpiresInWithinLifetime | backend/src/controllers/auth-controller.js:58-67 | `expiresIn` is the lifetime exactly when the clock is on a whole second, and one second less otherwise (one clock reading per request) |
| AuthController.RefreshDeletesInvalid | backend/src/controllers/auth-controller.js:85-91 | a presented token that fails verification is deleted and refused |
| AuthController.ExpiredRecordRefused | backend/src/controllers/auth-controller.js:79-91 | on a sound ledger (every `expires_at` is its token's `exp`) a row past its `expires_at` is refused and deleted, because its JWT no longer verifies |
| AuthController.ExpiresAtNeverRead | backend/src/controllers/auth-controller.js:79-108 | as written, the refresh reply does not depend on any row's `expires_at`: a row whose JWT still verifies is honoured whatever its `expires_at` |
| AuthController.RefreshRotates | backend/src/controllers/auth-controller.js:93-108 | a successful refresh deletes the presented token, stores the new one for the same user and answers with it; the presented token survives iff the new one equals it |
| AuthController.RefreshIgnoresUserStatus | backend/src/controllers/auth-controller.js:78-116 | any stored token that verifies is refreshed; no user record is consulted, so a disabled account still refreshes |
| AuthController.RefreshIsOneShot | backend/src/controllers/auth-controller.js:93-108 | with a `jti`, a refreshed token can never be refreshed again |
| AuthController.RefreshReplayWithinIssueSecond | backend/src/controllers/auth-controller.js:93-108 | as written, a refresh in the same second as issue leaves the presented token valid |
| AuthController.SecondLoginSameSecondKeepsToken | backend/src/controllers/auth-controller.js:43-60 | as written, a second login in the same second reissues the identical refresh token |
| AuthController.SecondLoginRevokesWithJti | backend/src/controllers/auth-controller.js:43-60 | with a `jti`, a second login always revokes the first login's token |
| AuthController.LogoutIsLenient | backend/src/controllers/auth-controller.js:124-128 | answers 200 whether or not a token is given; a given token's rows are deleted, otherwise nothing changes |
| AuthController.UserStore.FindByEmail | backend/src/controllers/auth-controller.js:32 | the loop returns `FindUserByEmail` of the table |
| AuthController.UserStore.UpdateLastLogin | backend/src/controllers/auth-controller.js:61 | the users table becomes `WithLastLogin` of the old one |
| AuthController.AuthController.Login | backend/src/controllers/auth-controller.js:25-70 | reply, ledger and users table are those of `LoginStep` |
| AuthController.AuthController.Refresh | backend/src/controllers/auth-controller.js:72-116 | reply and ledger are those of `RefreshStep` |
| AuthController.AuthController.Logout | backend/src/controllers/auth-controller.js:118-129 | reply and ledger are those of `LogoutStep` |
| Jwt.NumericDate | backend/src/utils/token.js:14-18 | whole seconds, floored, of a millisecond clock |
| Jwt.Sign | backend/src/utils/token.js:4-12 | the token carries the payload, `iat` and `exp = iat + lifetime` under the given secret |
| Jwt.Verify | backend/src/utils/token.js:14-18 | accepts exactly tokens signed with this secret whose `exp` is still ahead |
| Jwt.VerifySigned | backend/src/utils/token.js:4-18 | a token signed now verifies under its secret until its lifetime elapses, and gives back its claims |
| Jwt.SecretsSeparate | backend/src/utils/token.js:4-18 | an access token never verifies as a refresh token, and the reverse |
| Jwt.SignDeterministic | backend/src/utils/token.js:4-12 | signing the same payload in the same second yields the same token |
| Jwt.DurationSeconds | backend/src/config.js:22-25 | a result exactly for decimal digits followed by one of the units s, m, h and d; its value is the number times that unit's seconds |
| Jwt.DurationRoundTrip | backend/src/config.js:22-25 | a number of units written out and read back gives that many units' worth of seconds |
| Jwt.LifetimesMatchDurations | backend/src/lib/tokens.ts:12-16 | "1h", "7d", "15m" and "30d" denote the lifetimes the model uses |
| Passwords.HashPassword | backend/src/lib/crypto.ts:6-8 | the hash has cost 12 and the given salt, and its own password matches it |
| Passwords.CompareHashed | backend/src/lib/crypto.ts:10-12 | a hash matches exactly the passwords whose 72 bcrypt key bytes equal those of the password it was made from; its own password always matches |
| Passwords.Utf8Char | backend/src/lib/crypto.ts:6-12 | the UTF-8 bytes of one character: length read off the first byte, decodes back to the character, no zero byte unless NUL |
| Passwords.KeyStartsWithEncoding | backend/src/lib/crypto.ts:6-12 | a password whose encoding is under 72 bytes keys as that encoding followed by a zero byte |
| Passwords.Utf8Injective | backend/src/lib/crypto.ts:6-12 | different passwords have different encodings |
| Passwords.ShortPasswordsExact | backend/src/lib/crypto.ts:10-12 | passwords without NUL whose encodings are under 72 bytes share a key only when they are equal |
| Passwords.LongPasswordsTruncated | backend/src/lib/crypto.ts:10-12 | passwords whose encodings agree on the first 72 bytes have the same key |
| Passwords.SeventyThirdCharacterIgnored | backend/src/lib/crypto.ts:10-12 | 72 "a"s then "X" opens a hash of 72 "a"s then "Y" |
| SessionService.Tokens | backend/src/lib/tokens.ts:11-17 | access and refresh tokens verify for the user under their own secrets, for 15 minutes and 30 days |
| SessionService.LoginStep | backend/src/modules/auth/auth.service.ts:11-55 | unknown e-mail or wrong password: "Invalid credentials"; right password on an inactive account: "User account is not active"; otherwise tokens for the user's claims and last-login stamped |
| SessionService.Login | backend/src/modules/auth/auth.service.ts:11-55 | the users table and result are those of `LoginStep` |
| SessionService.RefreshSession | backend/src/modules/auth/auth.service.ts:57-86 | new tokens iff the refresh token verifies and its subject is an existing active user; otherwise 401 "Invalid refresh token" |
| SessionService.LoginThenRefresh | backend/src/modules/auth/auth.service.ts:11-86 | the refresh token of a login is accepted iff fewer than 30 days have passed since the login second |
| SessionService.RefreshTokenReusable | backend/src/modules/auth/auth.service.ts:57-86 | an accepted refresh token is accepted again at any later time before its `exp` |
| SessionService.DisabledUserLockedOut | backend/src/modules/auth/auth.service.ts:28-30 | when no user is active, every login and every refresh fails |
| JsAuthGate.BearerToken | backend/src/middleware/auth.js:5-10 | the text after "Bearer " iff the header starts with it |
| JsAuthGate.Authenticate | backend/src/middleware/auth.js:4-20 | passes with the token's claims iff a bearer token verifies under the access secret; otherwise 401 |
| JsAuthGate.RunAuthenticate | backend/src/middleware/auth.js:4-20 | the exchange's outcome is `Authenticate`'s |
| JsAuthGate.RoleDecision | backend/src/middleware/auth.js:22-36 | no user: 401. Empty list or a listed role: pass. Otherwise 403 |
| JsAuthGate.RunRequireRoles | backend/src/middleware/auth.js:22-36 | the exchange's outcome is `RoleDecision`'s |
| JsAuthGate.OperatorEditsButCannotDelete | backend/src/routes/flight.routes.js:42-60 | an OperatorAdmin passes the update guard and is refused by the delete guard |
| TsAuthGate.BearerToken | backend/src/middleware/auth.ts:9-13 | the trimmed text after "Bearer ", iff the header starts with it |
| TsAuthGate.SameHeadersTrimmedToken | backend/src/middleware/auth.ts:13 | both back ends accept the same headers, and this one's token is the other's trimmed |
| TsAuthGate.DoubleSpaceHeader | backend/src/middleware/auth.ts:13 | on "Bearer " followed by a space and a token, the JavaScript back end passes the token with its leading space, this one the bare token |
| TsAuthGate.Authenticate | backend/src/middleware/auth.ts:6-26 | passes with sub, role and email iff the bearer token verifies under the access secret |
| TsAuthGate.RunAuthenticate | backend/src/middleware/auth.ts:6-26 | the exchange's outcome is `Authenticate`'s |
| TsAuthGate.LoginTokenAuthenticates | backend/src/middleware/auth.ts:13-24 | an access token signed at login admits exactly while its fifteen-minute lifetime has not run out, and then as the payload's id, e-mail and role |
| TsAuthGate.RefreshTokenRefused | backend/src/middleware/auth.ts:13-24 | a refresh token presented as bearer is refused |
| Permissions.RequireRoles | backend/src/middleware/permissions.ts:8-20 | no user: 401. Role listed: pass. Otherwise 403 |
| Permissions.RunRequireRoles | backend/src/middleware/permissions.ts:8-20 | the exchange's outcome is `RequireRoles`'s |
| Permissions.EmptyAllowListContrast | backend/src/middleware/permissions.ts:14 | an empty list refuses everyone here, but admits everyone in the JavaScript gate |
| Permissions.OnlyVictorAdminManagesUsers | backend/src/modules/users/users.routes.ts:9-10 | the users routes admit exactly the VictorAdmin role |
| AppErrors.Raise | backend/src/core/error.ts:9-50 | each error kind carries its status, code and message, with its default message when none is given |
| AppErrors.NotFoundError | backend/src/core/error.ts:22-26 | status 404, code NOT_FOUND |
| AppErrors.UnauthorizedError | backend/src/core/error.ts:28-32 | status 401, code UNAUTHORIZED |
| AppErrors.ValidationError | backend/src/core/error.ts:40-44 | status 422, code VALIDATION_FAILED, the given message and the given details |
| AppErrors.ConflictError | backend/src/core/error.ts:46-50 | status 409, code CONFLICT, the given message and the given details |
| AppErrors.TaxonomyInjective | backend/src/core/error.ts:1-50 | distinct kinds have distinct statuses and codes, all in the 4xx range |
| ErrorEnvelope.EnvelopeBody | backend/src/middleware/errorHandler.ts:9-15 | an AppError's body carries its code and message, plus details only when present |
| ErrorEnvelope.HandleError | backend/src/middleware/errorHandler.ts:6-26 | AppErrors answer with their own status and envelope; anything else answers 500 INTERNAL_ERROR "Internal server error" |
| ErrorEnvelope.NoLeak | backend/src/middleware/errorHandler.ts:18-25 | an unexpected error's own message never reaches the body |
| ErrorEnvelope.RaisedErrorResponse | backend/src/middleware/errorHandler.ts:7-16 | a raised error's response has the status and code the taxonomy assigns |
| JsErrorHandler.NotFoundHandler | backend/src/middleware/error-handler.js:3-5 | 404 with the message "Resource not found" |
| JsErrorHandler.HandleError | backend/src/middleware/error-handler.js:7-14 | the error's status or 500, its message or "Unexpected error", and its stack iff not in production |
| JsErrorHandler.ProductionHidesStack | backend/src/middleware/error-handler.js:9-13 | in production two errors with the same status and message get the same response |
| Pagination.GetPaginationParams | backend/src/core/pagination.ts:16-24 | page at least 1 (or Infinity), pageSize within 1..100, defaults for falsy values, in-range values kept |
| Pagination.WholeQueryWholeParams | backend/src/core/pagination.ts:16-24 | integer queries are clamped: page to at least 1, pageSize to 1..100, with 0 taking the default 25 |
| Pagination.BuildMeta | backend/src/core/pagination.ts:26-33 | echoes page, pageSize and total, with the page count |
| Pagination.TotalPages | backend/src/modules/flights/flights.service.ts:67 | at least 1; for a non-empty result the least page count whose pages hold every row |
| Pagination.TotalPagesLeast | backend/src/modules/flights/flights.service.ts:67 | the page count is the least number of pages that holds every row |
| FlightsService.BuildWhere | backend/src/modules/flights/flights.service.ts:12-41 | each filter field is set exactly when its query value is present |
| FlightsService.BuildWhereSelects | backend/src/modules/flights/flights.service.ts:12-41 | a flight matches iff it meets every present filter |
| FlightsService.EmptyFilterSelectsAll | backend/src/modules/flights/flights.service.ts:12-41 | no filter selects every flight |
| FlightsService.Selected | backend/src/modules/flights/flights.service.ts:43-56 | every flight in it is stored and matches, and every stored match is in it |
| FlightsService.SelectedCounts | backend/src/modules/flights/flights.service.ts:43-56 | each matching flight is selected as often as it is stored, and no other flight is |
| FlightsService.ListFlights | backend/src/modules/flights/flights.service.ts:43-69 | total counts every flight matching the filters; the page is the window at `(page-1)*pageSize` of those matches, latest departure first, at most `pageSize` of them, each a matching flight; `totalPages` is the ceiling of total over page size, at least 1 |
| FlightsService.PageBeyondLastIsEmpty | backend/src/modules/flights/flights.service.ts:52-67 | a page past the last one is empty |
| FlightsService.GetFlightById | backend/src/modules/flights/flights.service.ts:71-89 | the flight with that id, or NotFound iff there is none |
| FlightsService.NewFlight | backend/src/modules/flights/flights.service.ts:91-107 | the created row carries the uid, status and details, zero counts and the initial version |
| FlightsService.CreateFlight | backend/src/modules/flights/flights.service.ts:91-107 | a taken uid gives Conflict and changes nothing; otherwise appends `NewFlight` |
| FlightsService.Patched | backend/src/modules/flights/flights.service.ts:109-123 | given fields replace, details merge key by key, the counts are kept, and the version goes up by exactly 1 |
| FlightsService.EmptyPatchOnlyBumps | backend/src/modules/flights/flights.service.ts:109-123 | an empty patch changes only the version |
| FlightsService.UpdateFlight | backend/src/modules/flights/flights.service.ts:109-123 | NotFound on a missing id; a uid held by another flight fails; otherwise only that row becomes `Patched` |
| JsFlightService.Offset | backend/src/services/flight-service.js:44-55 | offset plus limit is page times limit, and never negative for page at least 1 |
| JsFlightService.ConditionsBalanced | backend/src/services/flight-service.js:59-95 | the "?" marks across the conditions equal the number of params |
| JsFlightService.BuildConditions | backend/src/services/flight-service.js:59-95 | the loop pushes conditions and params in the fixed filter order |
| JsFlightService.SearchBindsFourLikes | backend/src/services/flight-service.js:59-65 | a search adds one condition with four `%search%` params |
| JsFlightService.WhereClause | backend/src/services/flight-service.js:97 | empty when there are no conditions; it holds as many "?" marks as the conditions |
| JsFlightService.NoFiltersNoWhere | backend/src/services/flight-service.js:97 | no truthy filter gives no WHERE and no params |
| JsFlightService.StatusOnly | backend/src/services/flight-service.js:67-97 | a lone status gives "WHERE f.status = ?" with that one param |
| JsFlightService.ListFlights | backend/src/services/flight-service.js:43-119 | the data query binds the filter params and then limit and offset; the count query binds the filter params only; page and limit are echoed; marks and params balance |
| JsFlightService.InsertedRow | backend/src/services/flight-service.js:130-165 | absent counts default to 0; status, turnaround and purpose default to PLANNED, NOT_STARTED and PRIVATE |
| JsFlightService.GetFlightById | backend/src/services/flight-service.js:121-128 | null iff no joined row has that id |
| JsFlightService.InsertedIsFound | backend/src/services/flight-service.js:121-128 | after appending a row under a fresh id, the joined read of that id gives the row when its references resolve and null otherwise |
| JsFlightService.FlightTable.CreateFlight | backend/src/services/flight-service.js:130-168 | a taken id or a reference that does not resolve fails and writes nothing; otherwise appends `InsertedRow` and returns that row, so an accepted insert is always found |
| JsFlightService.UpdatedRow | backend/src/services/flight-service.js:170-222 | what an insert would write, keeping id, flight_uid and created_by |
| JsFlightService.UpdateIdempotent | backend/src/services/flight-service.js:170-222 | repeating an update changes nothing more |
| JsFlightService.FlightTable.UpdateFlight | backend/src/services/flight-service.js:170-224 | new references that do not resolve fail and write nothing; otherwise only the row with that id becomes `UpdatedRow`, and the read-back is present exactly when the id existed |
| JsFlightService.WithoutFlight | backend/src/services/flight-service.js:228 | exactly the rows with another id remain |
| JsFlightService.DeletedIsGone | backend/src/services/flight-service.js:226-229 | after a delete the id reads as null |
| JsFlightService.FlightTable.DeleteFlight | backend/src/services/flight-service.js:226-229 | the table becomes `WithoutFlight` and keeps its primary key |
| AirportSchemas.ListAirportsQuery | backend/src/modules/airports/airports.schemas.ts:5-14 | accepts string or absent fields and trims them |
| AirportSchemas.CreateAirportSchema | backend/src/modules/airports/airports.schemas.ts:16-35 | accepts iff every length rule holds; id and codes are upper-cased, name, city, country and timezone are kept as sent |
| AirportSchemas.UpdateAirportSchema | backend/src/modules/airports/airports.schemas.ts:37-49 | every field is optional, and an empty patch is refused; each output field is present exactly when the body has it, holding the body's text (the codes upper-cased) |
| AirportSchemas.UpdateIgnoresId | backend/src/modules/airports/airports.schemas.ts:37-38 | an `id` key does not affect the outcome |
| AirportSchemas.UpdateNeedsAField | backend/src/modules/airports/airports.schemas.ts:46-49 | a body without a known field is rejected |
| UserSchemas.ParseStatus | backend/src/modules/users/users.schemas.ts:10 | parses exactly the status names |
| UserSchemas.ParseStatusName | backend/src/modules/users/users.schemas.ts:10 | every status's name parses back to it |
| UserSchemas.CreateUserSchema | backend/src/modules/users/users.schemas.ts:6-11 | requires an e-mail, a password of at least 10 characters and a known role; the output holds the body's e-mail, password, role and status |
| UserSchemas.UpdateUserSchema | backend/src/modules/users/users.schemas.ts:13-22 | every field is optional, with the same checks; an empty patch is refused; each output field is present exactly when the body has it, holding the body's value |
| UserSchemas.ShortPasswordRefused | backend/src/modules/users/users.schemas.ts:8-16 | a password under 10 characters is refused by both schemas |
| TemplateSchemas.ParseDocType | backend/src/modules/templates/templates.schemas.ts:5 | parses exactly the document type names |
| TemplateSchemas.ParseTypeName | backend/src/modules/templates/templates.schemas.ts:5 | every type's name parses back to it |
| TemplateSchemas.ListTemplatesQuery | backend/src/modules/templates/templates.schemas.ts:4-10 | `active` is true iff the text is exactly "true" |
| TemplateSchemas.CreateTemplateSchema | backend/src/modules/templates/templates.schemas.ts:12-19 | version defaults to "v1"; the required strings are non-empty; name, description, type, storageKey and isActive are the body's |
| TemplateSchemas.UpdateTemplateSchema | backend/src/modules/templates/templates.schemas.ts:21-31 | every field is optional, and an empty patch is refused; each output field is present exactly when the body has it, holding the body's value |
| TemplateSchemas.UpdateIgnoresType | backend/src/modules/templates/templates.schemas.ts:21-31 | a `type` key does not affect the outcome |
| AirportsService.BuildWhere | backend/src/modules/airports/airports.service.ts:11-30 | the trimmed search iff a search is given, the country iff one is given |
| AirportsService.EmptyQuerySelectsAll | backend/src/modules/airports/airports.service.ts:11-30 | blank filters select every airport |
| AirportsService.SecondTrimIsRedundant | backend/src/modules/airports/airports.service.ts:11-30 | the service's trim after the schema's changes nothing |
| AirportsService.ListAirports | backend/src/modules/airports/airports.service.ts:32-42 | each matching airport as often as it is stored and nothing else, ordered by country then city; the database is untouched |
| AirportsService.CountryCityOrdered | backend/src/modules/airports/airports.service.ts:32-42 | a list sorted by the country-then-city key is ordered by country, and by city within a country |
| AirportsService.NewAirport | backend/src/modules/airports/airports.service.ts:44-48 | the created row is the validated data |
| AirportsService.CreateAirport | backend/src/modules/airports/airports.service.ts:44-48 | a taken id fails and changes nothing; otherwise appends `NewAirport` |
| AirportsService.PatchedAirport | backend/src/modules/airports/airports.service.ts:50-61 | each of the six fields takes the patch value when given and keeps the stored one otherwise; the id never changes |
| AirportsService.EmptyPatchChangesNothing | backend/src/modules/airports/airports.service.ts:50-61 | an empty patch is the identity |
| AirportsService.UpdateAirport | backend/src/modules/airports/airports.service.ts:50-61 | NotFound on a missing id; otherwise only that row changes |
| TemplatesService.BuildWhere | backend/src/modules/templates/templates.service.ts:11-26 | type and active filters apply exactly when given |
| TemplatesService.ActiveFalseSelectsInactive | backend/src/modules/templates/templates.service.ts:11-26 | `active=false` selects exactly the inactive templates |
| TemplatesService.TypeRank | backend/src/modules/templates/templates.service.ts:28-35 | each document type has a rank below 4 |
| TemplatesService.TypeRankInjective | backend/src/modules/templates/templates.service.ts:28-35 | distinct types have distinct ranks |
| TemplatesService.ListTemplates | backend/src/modules/templates/templates.service.ts:28-35 | each matching template as often as it is stored and nothing else, by type and then newest version |
| TemplatesService.TypeVersionOrdered | backend/src/modules/templates/templates.service.ts:28-35 | a list sorted by the type-then-version key is ordered by type, and by version, highest first, within a type |
| TemplatesService.NewTemplate | backend/src/modules/templates/templates.service.ts:38-49 | the created row carries the input, active by default |
| TemplatesService.CreateDefaults | backend/src/modules/templates/templates.service.ts:38-49 | a body without version and isActive creates an active template of version "v1" |
| TemplatesService.CreateTemplate | backend/src/modules/templates/templates.service.ts:38-49 | appends `NewTemplate` |
| TemplatesService.PatchedTemplate | backend/src/modules/templates/templates.service.ts:51-62 | given fields replace, absent fields keep |
| TemplatesService.UpdateTemplate | backend/src/modules/templates/templates.service.ts:51-62 | NotFound on a missing id; otherwise only that row changes |
| AuthorityService.BuildAuthorityWhere | backend/src/modules/authority/authority.service.ts:7-28 | the flights filter with operator and status cleared |
| AuthorityService.AuthorityIgnoresOperatorAndStatus | backend/src/modules/authority/authority.service.ts:7-28 | operator and status never affect the selection |
| AuthorityService.Project | backend/src/modules/authority/authority.service.ts:36-46 | id and departure, plus only the aircraft type and scheduled arrival of the details |
| AuthorityService.TopFlights | backend/src/modules/authority/authority.service.ts:30-49 | the first 200 matches (or all, if fewer), latest departure first; a matching flight left out departs no later than the last one shown, and only when 200 are shown; no flight is shown more often than it is stored |
| AuthorityService.ListAuthorityFlights | backend/src/modules/authority/authority.service.ts:30-49 | the projection of `TopFlights`, latest departure first; the database is untouched |
| AuthorityService.GetLatestGeneralDeclaration | backend/src/modules/authority/authority.service.ts:51-62 | the newest general declaration of the flight, or NotFound iff there is none |
| PassengersService.ListPassengers | backend/src/modules/passengers/passengers.service.ts:5-23 | NotFound on an unknown flight; otherwise each of that flight's passengers as often as it is stored and nothing else, by name |
| PassengersService.NewPassenger | backend/src/modules/passengers/passengers.service.ts:25-44 | the created row carries the name, the flight and the other fields of the input |
| PassengersService.Counted | backend/src/modules/passengers/passengers.service.ts:25-44 | the flight's passenger count goes up by one and its update time is stamped; nothing else changes |
| PassengersService.CreatePassenger | backend/src/modules/passengers/passengers.service.ts:25-44 | NotFound on an unknown flight; otherwise appends `NewPassenger` and the flight becomes `Counted` |
| PassengersService.CreateKeepsCount | backend/src/modules/passengers/passengers.service.ts:25-44 | a count equal to the flight's passengers stays equal after a create |
| PassengersService.PatchedPassenger | backend/src/modules/passengers/passengers.service.ts:46-63 | given fields replace, absent fields keep |
| PassengersService.UpdatePassenger | backend/src/modules/passengers/passengers.service.ts:46-63 | NotFound unless the passenger is on that flight; otherwise only that row changes |
| PassengersService.UpdateKeepsCount | backend/src/modules/passengers/passengers.service.ts:46-63 | an update never changes how many passengers a flight has |
| BaggageService.ListBaggage | backend/src/modules/baggage/baggage.service.ts:13-21 | NotFound on an unknown flight; otherwise each of that flight's bags as often as it is stored and nothing else, oldest first |
| BaggageService.NewBaggage | backend/src/modules/baggage/baggage.service.ts:23-43 | the created bag carries the flight and passenger, status "created" by default, and no scan |
| BaggageService.CreateBaggage | backend/src/modules/baggage/baggage.service.ts:23-43 | NotFound on an unknown flight or on a given passenger not on it; otherwise appends `NewBaggage` |
| BaggageService.SpreadFields | backend/src/modules/baggage/baggage.service.ts:54-57 | spreading an object copies its fields, and spreading null copies none |
| BaggageService.ScanMetadata | backend/src/modules/baggage/baggage.service.ts:54-57 | the earlier metadata fields are kept, with `lastLocation` set to the scan location or null |
| BaggageService.RescanOverwritesLocation | backend/src/modules/baggage/baggage.service.ts:54-57 | a second scan replaces the location and keeps the other fields |
| BaggageService.Scanned | backend/src/modules/baggage/baggage.service.ts:45-67 | status, scan time and metadata change; id, flight, passenger and tag are kept |
| BaggageService.ScanBaggage | backend/src/modules/baggage/baggage.service.ts:45-67 | NotFound on a missing bag; otherwise only that bag becomes `Scanned` |
| QrPassService.BuildExpiresAt | backend/src/modules/qrpass/qrpass.service.ts:6-13 | the requested expiry as given, otherwise the current time plus 48 hours |
| QrPassService.HolderOf | backend/src/modules/qrpass/qrpass.service.ts:36-38 | the flight, holder and kind a pass is for |
| QrPassService.FindPass | backend/src/modules/qrpass/qrpass.service.ts:36-38 | the first pass for that holder, or none iff there is none |
| QrPassService.Upserted | backend/src/modules/qrpass/qrpass.service.ts:36-67 | an existing pass is reissued in place, else one is appended |
| QrPassService.UpsertKeepsOnePass | backend/src/modules/qrpass/qrpass.service.ts:36-67 | each holder keeps at most one pass, the upserted pass carries the new token, and the table grows only when there was none |
| QrPassService.UpsertPass | backend/src/modules/qrpass/qrpass.service.ts:36-67 | the passes table becomes `Upserted` |
| QrPassService.LevelOr | backend/src/modules/qrpass/qrpass.schemas.ts:14 | the level sent, or the fallback when none was; "passenger" (the schema default) and "crew" (the service default) are its two uses |
| QrPassService.CrewAccessLevelAsWritten | backend/src/modules/qrpass/qrpass.service.ts:98 | the crew level after the schema's default: "passenger" when absent |
| QrPassService.CrewDefaultIsDead | backend/src/modules/qrpass/qrpass.service.ts:98 | the `'crew'` fallback is never reached after the schema; the corrected default gives "crew" |
| QrPassService.GeneratePassengerQrPass | backend/src/modules/qrpass/qrpass.service.ts:15-68 | NotFound unless the passenger is on the flight; otherwise upserts its pass |
| QrPassService.CrewLevel | backend/src/modules/qrpass/qrpass.service.ts:98 | a level that was sent is kept; an absent one is "passenger" as written and "crew" under the corrected default |
| QrPassService.GenerateCrewQrPass | backend/src/modules/qrpass/qrpass.service.ts:70-120 | NotFound, writing nothing, unless the crew member is on the flight; otherwise upserts its pass with the level `CrewLevel` gives: as written "passenger" when the body had none, "crew" under the corrected default |
| QrPassService.GetQrPassPublic | backend/src/modules/qrpass/qrpass.service.ts:122-158 | NotFound exactly when no pass has the token; otherwise that pass with the flight its `flightId` names and the passenger and crew member its ids name, looked up by id (absent ids give none) |
| QrPassService.IssuedPassIsFound | backend/src/modules/qrpass/qrpass.service.ts:40-67 | the new token finds the upserted pass, and a replaced token finds nothing |
| DocumentsService.ListDocuments | backend/src/modules/documents/documents.service.ts:13-20 | NotFound on an unknown flight; otherwise each of that flight's documents as often as it is stored and nothing else, newest first |
| DocumentsService.GetDocument | backend/src/modules/documents/documents.service.ts:22-32 | the document with that id, or NotFound iff there is none |
| DocumentsService.Stamp | backend/src/modules/documents/documents.service.ts:41-42 | the ISO time with every ":" and "." replaced, every other character kept |
| DocumentsService.StorageKeyShape | backend/src/modules/documents/documents.service.ts:41-42 | the key is "documents/", the flight and "/", then the lower-cased type and "-", ending ".pdf" |
| DocumentsService.StorageKeyDistinguishesStamps | backend/src/modules/documents/documents.service.ts:41-42 | times differing outside the separators give different keys |
| DocumentsService.DocumentMetadata | backend/src/modules/documents/documents.service.ts:50-53 | exactly the template version ("default" when absent) and the options |
| DocumentsService.GenerateDocument | backend/src/modules/documents/documents.service.ts:34-58 | NotFound on an unknown flight; otherwise appends one GENERATED document with that key and metadata |
| UsersService.Sanitize | backend/src/modules/users/users.service.ts:8-22 | id, e-mail, status, role name and timestamps; no password hash or last-login |
| UsersService.SanitizeHidesSecrets | backend/src/modules/users/users.service.ts:8-22 | users differing only in their hash sanitize alike |
| UsersService.SafeOf | backend/src/modules/users/users.service.ts:26-30 | `Sanitize` after resolving the role |
| UsersService.UsersNewestFirst | backend/src/modules/users/users.service.ts:24-28 | a permutation of the users, newest first |
| UsersService.SafeAll | backend/src/modules/users/users.service.ts:30 | the sanitized users, in order |
| UsersService.ListUsers | backend/src/modules/users/users.service.ts:24-31 | the sanitized users, newest first; the database is untouched |
| UsersService.NewUser | backend/src/modules/users/users.service.ts:40-50 | a hash of the password at cost 12, the role's id, status ACTIVE by default, never logged in |
| UsersService.CreateUser | backend/src/modules/users/users.service.ts:33-53 | an unknown role gives ValidationError, a taken e-mail fails, and neither changes anything; otherwise appends `NewUser` |
| UsersService.BuildUpdate | backend/src/modules/users/users.service.ts:62-87 | exactly the truthy fields are set, a new password is hashed, an unknown role gives ValidationError |
| UsersService.CollectUpdate | backend/src/modules/users/users.service.ts:62-87 | filling `data` one field at a time yields exactly `BuildUpdate`, the unknown-role error included |
| UsersService.Applied | backend/src/modules/users/users.service.ts:89-93 | set fields replace, unset fields keep, timestamps and last-login are kept |
| UsersService.PasswordChangeTakesEffect | backend/src/modules/users/users.service.ts:73-75 | after a password change the hash opens exactly for passwords with the new one's bcrypt key bytes, which for NUL-free passwords under 72 bytes means the new password alone; without a new password the hash is kept |
| UsersService.ReplaceUser | backend/src/modules/users/users.service.ts:89-93 | only that row changes, and the table stays valid |
| UsersService.UpdateUser | backend/src/modules/users/users.service.ts:55-96 | NotFound on a missing id, ValidationError on an unknown role, failure on a taken e-mail; otherwise only that user becomes `Applied` |
| ApiHooks.KeptEntries | admin-panel/src/hooks/use-api.ts:9-19 | drops undefined, null and empty-string values, in order |
| ApiHooks.Pairs | admin-panel/src/hooks/use-api.ts:9-19 | one encoded key=value per kept entry |
| ApiHooks.BuildQueryShape | admin-panel/src/hooks/use-api.ts:9-19 | "" when nothing is kept; otherwise "?" and the pairs joined by "&" |
| ApiHooks.DroppedEntryIgnored | admin-panel/src/hooks/use-api.ts:9-19 | an empty value does not change the query |
| ApiHooks.ZeroIsSent | admin-panel/src/hooks/use-api.ts:9-19 | the number 0 is kept |
| ApiHooks.QueryPairsRecoverable | admin-panel/src/hooks/use-api.ts:9-19 | splitting the query on "&" gives back the pairs |
| ApiHooks.Get | admin-panel/src/hooks/use-api.ts:24-35 | GET of base + path + query, with no body |
| ApiHooks.Send | admin-panel/src/hooks/use-api.ts:37-57 | `post` and `put` alike: the given verb and the URL, and the stringified body exactly when it is truthy |
| ApiHooks.Del | admin-panel/src/hooks/use-api.ts:59-64 | DELETE with no body |
| ApiHooks.FalsyBodiesDropped | admin-panel/src/hooks/use-api.ts:41 | a null, 0, false or empty-string body sends nothing |
| PanelAuth.ReadStoredSession | admin-panel/src/contexts/auth-context.tsx:43-60 | a session iff in the browser with a non-empty stored record that parses |
| PanelAuth.PersistSession | admin-panel/src/contexts/auth-context.tsx:62-72 | only the session key changes: written for a session, removed for none, untouched outside the browser |
| PanelAuth.PersistThenRead | admin-panel/src/contexts/auth-context.tsx:43-72 | reading back a persisted session gives it back |
| PanelAuth.ErrorMessage | admin-panel/src/contexts/auth-context.tsx:98-100 | the server's message, or the fallback |
| PanelAuth.RefusedLoginChangesNothing | admin-panel/src/contexts/auth-context.tsx:98-101 | a refused login leaves session and storage unchanged |
| PanelAuth.AcceptedLoginPersists | admin-panel/src/contexts/auth-context.tsx:103-118 | an accepted login is held and stored readably, stamped with the time, and navigates to /dashboard |
| PanelAuth.TokenTypeDefaultsToBearer | admin-panel/src/contexts/auth-context.tsx:103-118 | a missing token type becomes "Bearer" |
| PanelAuth.LogoutForgetsSession | admin-panel/src/contexts/auth-context.tsx:121-136 | after logout nothing is stored, and at most one request was sent |
| PanelAuth.RefreshReplacesTokens | admin-panel/src/contexts/auth-context.tsx:138-168 | an accepted refresh replaces both tokens and keeps the user |
| PanelAuth.FirstHeaders | admin-panel/src/contexts/auth-context.tsx:176-186 | Authorization from the session; a caller's content-type kept, otherwise `application/json` added exactly when an explicit method other than GET is given; other headers kept |
| PanelAuth.Finish | admin-panel/src/contexts/auth-context.tsx:208-215 | a non-OK answer fails with its message; OK gives the body |
| PanelAuth.FetchNeedsSession | admin-panel/src/contexts/auth-context.tsx:170-174 | without a session nothing is sent and the call fails |
| PanelAuth.FetchSendsAtMostThree | admin-panel/src/contexts/auth-context.tsx:170-218 | at most the request, one refresh and one retry |
| PanelAuth.NoRetryWithout401 | admin-panel/src/contexts/auth-context.tsx:190-206 | only a 401 triggers the refresh |
| PanelAuth.ExpiredAfterRefusedRefresh | admin-panel/src/contexts/auth-context.tsx:190-206 | a refused refresh logs out and fails as expired |
| PanelAuth.RetryOnceWithNewToken | admin-panel/src/contexts/auth-context.tsx:190-206 | after a refresh the retry carries the new token |
| PanelAuth.RestoreSpec | admin-panel/src/contexts/auth-context.tsx:79-85 | loading ends; a stored session replaces the held one, else it is kept |
| PanelAuth.LogoutSpec | admin-panel/src/contexts/auth-context.tsx:121-136 | the session is dropped, storage cleared, and /signin is navigated to |
| PanelAuth.RefreshSpec | admin-panel/src/contexts/auth-context.tsx:138-168 | without a session nothing happens; with one a refresh request is sent |
| PanelAuth.AuthProvider.Restore | admin-panel/src/contexts/auth-context.tsx:79-85 | the held session becomes the stored one |
| PanelAuth.AuthProvider.Login | admin-panel/src/contexts/auth-context.tsx:87-119 | state, storage and requests follow `LoginSpec` |
| PanelAuth.AuthProvider.Logout | admin-panel/src/contexts/auth-context.tsx:121-136 | state, storage and requests follow `LogoutSpec` |
| PanelAuth.AuthProvider.Refresh | admin-panel/src/contexts/auth-context.tsx:138-168 | state, storage and requests follow `RefreshSpec` |
| PanelAuth.AuthProvider.FetchWithAuth | admin-panel/src/contexts/auth-context.tsx:170-218 | state, storage and requests follow `FetchSpec` |
| PortalClient.Client.SetAccessToken | admin-portal/src/api/client.ts:8-10 | only the held token changes |
| PortalClient.Client.RegisterUnauthorizedHandler | admin-portal/src/api/client.ts:12-14 | only the handler changes |
| PortalClient.Client.ClearUnauthorizedHandler | admin-portal/src/api/client.ts:16-18 | the handler is removed |
| PortalClient.Client.WithAuthorization | admin-portal/src/api/client.ts:25-33 | adds `Bearer token` iff a token is held |
| PortalClient.Client.HandlerFor | admin-portal/src/api/client.ts:35-43 | the handler runs iff the answer is 401 and one is registered |
| PortalClient.Client.Post | admin-portal/src/api/client.ts:20-43 | sends with the held token and reports 401 to the handler |
| PortalClient.NullTokenSendsNoHeader | admin-portal/src/api/client.ts:25-33 | no token, no Authorization header |
| PortalClient.ClearedHandlerNotCalled | admin-portal/src/api/client.ts:16-18 | a cleared handler is never run |
| PortalClient.OnlyUnauthorizedCallsHandler | admin-portal/src/api/client.ts:35-43 | other statuses never run it |
| PortalSession.AuthProvider.Restore | admin-portal/src/contexts/AuthContext.tsx:63-82 | a parsable stored record becomes the state and the client token; an unparsable one is removed; initialized either way |
| PortalSession.AuthProvider.RestoreSynced | admin-portal/src/contexts/AuthContext.tsx:63-82 | after restore the client holds the state's token |
| PortalSession.AuthProvider.Login | admin-portal/src/contexts/AuthContext.tsx:84-94 | an accepted login is held, persisted and pushed to the client; a refused one is reported, and it logs out (state, storage entry and client token cleared) exactly when the interceptor called this provider's handler, otherwise nothing changes |
| PortalSession.AuthProvider.LoginSynced | admin-portal/src/contexts/AuthContext.tsx:40-49 | after login storage, state and client still agree |
| PortalSession.AuthProvider.Logout | admin-portal/src/contexts/AuthContext.tsx:96-105 | clears state, storage and the client token |
| PortalSession.AuthProvider.Refresh | admin-portal/src/contexts/AuthContext.tsx:107-124 | no refresh token: logs out without a request; accepted: both tokens replaced and stored, user kept; refused: reported, and a logout exactly when the interceptor called this provider's handler, otherwise nothing changes |
| PortalSession.AuthProvider.RefreshSynced | admin-portal/src/contexts/AuthContext.tsx:107-124 | after a refresh that is not refused, storage, state and client agree |
| PortalSession.AuthProvider.RegisterHandler | admin-portal/src/contexts/AuthContext.tsx:126-135 | the client's 401 handler becomes the provider's logout |
| PortalSession.AuthProvider.UnregisterHandler | admin-portal/src/contexts/AuthContext.tsx:126-135 | the handler is cleared on unmount |
| PortalSession.AuthProvider.RunHandler | admin-portal/src/contexts/AuthContext.tsx:126-135 | running the registered handler logs out |
| PortalSession.AuthProvider.Call | admin-portal/src/contexts/AuthContext.tsx:126-135 | one request; a 401 with this provider's handler registered logs out (state, storage entry and client token cleared); a reply or any other error leaves state, storage and token as they were |
| PortalSession.AuthenticatedNeedsBoth | admin-portal/src/contexts/AuthContext.tsx:140 | authenticated iff a user and a non-empty access token are held |
| ProtectedRoute.Decide | admin-portal/src/routes/ProtectedRoute.tsx:11-32 | spinner until initialized, login redirect when signed out, unauthorized iff the role is not listed, else the page |
| ProtectedRoute.OutletNeedsSession | admin-portal/src/routes/ProtectedRoute.tsx:23-25 | the page is shown only with a user and a non-empty token |
| ProtectedRoute.LoggedOutGoesToLogin | admin-portal/src/routes/ProtectedRoute.tsx:23-25 | a logged-out state redirects to login with the location |
| ProtectedRoute.EmptyRolesAdmitNobody | admin-portal/src/routes/ProtectedRoute.tsx:27-29 | an empty roles array refuses everyone; no prop admits everyone |
| ProtectedRoute.WiderRolesAdmitMore | admin-portal/src/routes/ProtectedRoute.tsx:27-29 | widening the roles never turns away an admitted user |

## Left out

- JWT and bcrypt are symbolic:
  - no base64url, HMAC or Blowfish (a bcrypt hash keeps its key bytes instead of the Blowfish digest);
  - a compact token string is decoded by a function parameter;
  - forging a signature is assumed impossible by construction.
- Clocks, generated ids, random refresh and QR tokens, bcrypt salts, the HTTP peer and local storage are parameters. Freshness of generated values is a precondition.
- SQL is not executed. `flight-service.js` is modelled as the text and parameters it binds, and a function parameter stands for the four joins of its base SELECT.
- String handling:
  - case mapping covers ASCII letters only;
  - `trim` uses the JavaScript whitespace set;
  - e-mail syntax (`z.string().email()`) and UUID syntax are predicates given as parameters.
- QrPassService.BuildExpiresAt adds 48 hours of milliseconds. Local-time `setHours` across a daylight-saving change is not modelled.
- Prisma `@updatedAt` stamping and relations loaded with `include` are not modelled. The Prisma schema is not part of this model. Uniqueness of ids, e-mails, flight uids and QR tokens is the table invariant `Valid()`.
- Network failures (a rejected `fetch` or axios call) in the two front ends are left out. Every request gets an answer from the server function.
- React rendering, effects, batching of state updates, and concurrent requests are left out.
- Express routing is left out except for the two guard chains that the role lemmas cite. Request logging and environment parsing are also left out.
- Integers are unbounded. JavaScript numbers are not limited to 2^53 here.
- AuthController.ExpiresInWithinLifetime and AuthController.LoginLeavesSingleSession assume one clock reading per request. The source reads the clock again for `expiresIn` after several awaits, so a slow database can make `expiresIn` smaller than these lemmas say. `last_login_at` is the database's `CURRENT_TIMESTAMP` in the source and `nowMs` in the model.
- AuthController.FindUserByEmail, AuthController.UserStore.FindByEmail, RefreshLedger.Ledger.FindRefreshToken and the ledger's token deletions compare text exactly. The MySQL tables use the `utf8mb4_unicode_ci` collation, which ignores letter case and trailing spaces; those matches are not modelled.
- Ordering.StrLeq orders text by code point. The database's collation order is not modelled.
- TemplatesService.TypeRank assumes the `DocumentType` enum is declared in the order GENERAL_DECLARATION, PASSENGER_MANIFEST, CREW_LIST, BAGGAGE_REPORT, and that the database sorts the enum in that order. The Prisma schema that declares it is not part of this model.
- Passwords.Utf8 encodes Unicode scalar values. A JavaScript string holding a lone surrogate has no counterpart here.
- FlightsService.ListFlights and FlightsService.BuildWhere take the date conversion as a total function, so any `dateFrom`/`dateTo` text gives a listing. In the source, text that is not a date becomes an Invalid Date (flights.service.ts:33,36), the database client rejects the query, and the error handler answers 500; that failure is not modelled.
- AuthorityService.ListAuthorityFlights and AuthorityService.BuildAuthorityWhere: the same for the authority console's date filter (authority.service.ts:20,23); an unparseable date lists flights here and is a 500 in the source.
- FlightsService.ListFlights takes whole numbers `page >= 1` and `pageSize >= 1`. `getPaginationParams` can pass a fractional page such as 1.5, or Infinity, and Prisma refuses such a `skip`; that failure is not modelled.
- JsFlightService.ListFlights takes whole page and limit values. A query value that `Number` turns into NaN or a fraction reaches `LIMIT`/`OFFSET` in the source; that case is not modelled.
- JsFlightService.FlightTable.DeleteFlight models the `flights` table only. The `ON DELETE CASCADE` removal of the flight's passengers, crew, baggage, documents, QR passes, notifications and sync rows is not modelled.
- Zod.StrWithin counts string length in Unicode code points. zod's `.min`, `.max` and `.length` count UTF-16 code units, so characters outside the Basic Multilingual Plane count once here and twice in the source.
- ApiHooks.BuildQuery keeps the parameter record's order. JavaScript's `Object.entries` lists integer-like keys first, in ascending order. Parameter values are text or whole numbers; `String` of a fractional number is not modelled.
- PanelAuth.ErrorMessage uses the fallback when `message` is a number, boolean, array or object. The source passes such a value to `new Error`, which turns it into text.

## Findings

| source | as written | input that shows it | evidently intended | confidence | as-written member | corrected member |
|---|---|---|---|---|---|---|
| backend/src/controllers/auth-controller.js:93-108 | a refresh token carries only sub, email, role, iat and exp, so re-signing in the same second reproduces the presented token; deleting the old value and inserting the "new" one leaves it valid | refresh a token within the same second it was issued, then present it again | a used refresh token is never accepted again | not executed | AuthController.RefreshReplayWithinIssueSecond | AuthController.RefreshIsOneShot |
| backend/src/controllers/auth-controller.js:43-60 | two logins of one user within one second receive the identical refresh token, so the first device's token survives the second login's revocation | log in twice within one second | a new login revokes every earlier refresh token | not executed | AuthController.SecondLoginSameSecondKeepsToken | AuthController.SecondLoginRevokesWithJti |
| backend/src/modules/qrpass/qrpass.service.ts:98 | `accessLevel ?? 'crew'` never applies, because the payload schema already defaults the level to 'passenger' (qrpass.schemas.ts:14) | request a crew pass without `accessLevel` | a crew pass without a level gets 'crew' | not executed | QrPassService.CrewAccessLevelAsWritten | QrPassService.CrewLevel |
