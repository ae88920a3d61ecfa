# kg-auth in Dafny

A model of the authentication service of `kg-auth`, a NestJS service for a chess site.
It covers:

- Registration and its input validation, including the four per-game-type rating rows seeded for each new account.
- Login by username or by email, with the error taxonomy and its order: unknown account, disabled account, wrong password.
- Issuing an access/refresh token pair. The account's single refresh-token slot is overwritten with 32 random bytes written as hex.
- Rotating that slot on refresh, so the consumed refresh token matches no account after the rotation.
- The JWT strategy: it reads the access token from the `access_token` cookie, refuses to start without a secret, enforces expiry and forwards `sub`, `email` and `username` only.
- The HTTP handlers for login and refresh. Each sets two cookies with fixed options and lifetimes, and returns a body without tokens.
- Rating bookkeeping: game results, colour history, colour balance and the per-type rating summary.

Modules follow the source files:

| module | file | models |
|---|---|---|
| `CreateUserDto` | `create_user_dto.dfy` | `UserRole` and the registration validator |
| `UpdateEloDto` | `update_elo_dto.dfy` | the game-result and colour enums and their validator |
| `UserRatingEntity` | `user_rating_entity.dfy` | `GameType`, the rating row with its defaults, `winRate`, `colorBalance` |
| `UserEntity` | `user_entity.dfy` | the account record, the directory `map<int, User>` with its uniqueness invariants, and the refresh slot |
| `UserService` | `user_service.dfy` | class `UserService` over the account map and the rating map keyed by (userId, gameType) |
| `JwtStrategy` | `jwt_strategy.dfy` | cookie extraction, the secret guard, expiry and the claims projection |
| `AuthService` | `auth_service.dfy` | the identifier classifier, and class `AuthService` holding a `UserService` |
| `AuthController` | `auth_controller.dfy` | cookie shaping, the response body, and class `AuthController` writing to an `HttpResponse` |
| `Hex`, `Wrappers` | `hex.dfy`, `wrappers.dfy` | `Buffer.toString('hex')`; `Option` and `Result` |

Collaborators outside the model are passed in:

- bcrypt's comparison is the `passwordMatches` function of `AuthService`, and bcrypt's hash is the `hashedPassword` argument of `Create`.
- class-validator's `IsEmail` is the `isEmail` argument of the registration validator.
- `crypto.randomBytes(32)` is a `random` argument. The caller promises that its hex encoding is held by no account. This freshness assumption is what makes refresh tokens unique across accounts: the database does not enforce it, so `AuthService.AuthService.Valid` carries it as an invariant.
- JWT signing and verification are a `Signer` pair of functions. The round trip verify(sign(p)) = p is a hypothesis, stated by the `Sound` predicate, of the one lemma that needs it.
- The clock is a `now` argument.

## Model

| member | source | states |
|---|---|---|
| `CreateUserDto.ParseRole` | src/user/dto/create-user.dto.ts:3-6 | a role string is accepted exactly when it is `admin` or `user`, and parsing returns the enum value whose string it is |
| `CreateUserDto.RoleRoundTrip` | src/user/dto/create-user.dto.ts:3-6 | every role parses back from its string value |
| `CreateUserDto.CountedLength` | src/user/dto/create-user.dto.ts:10-11 | the length the length validators see is at most the number of characters |
| `CreateUserDto.CountedLengthOfPlainText` | src/user/dto/create-user.dto.ts:10-11 | text without the presentation selectors U+FE0E/U+FE0F is counted character by character |
| `CreateUserDto.CountedLengthSkipsSelector` | src/user/dto/create-user.dto.ts:17-18 | appending U+FE0E or U+FE0F leaves the counted length unchanged |
| `CreateUserDto.ShortUsernameWithSelector` | src/user/dto/create-user.dto.ts:10 | `ab` followed by U+FE0F counts as 2, below the username minimum of 3 |
| `CreateUserDto.Validate` | src/user/dto/create-user.dto.ts:8-29 | a request is accepted exactly when the username's counted length is 3..20, the email passes the email check, the password's counted length is 6..50, the role is absent or valid and elo is in 800..2000; the counted length skips the presentation selectors U+FE0E/U+FE0F, as the length validators do; an accepted DTO carries the request's fields unchanged; a rejection names a non-empty set of fields, and each of the username, email, password, role and elo fields appears in it exactly when its own constraint fails |
| `UpdateEloDto.ParseGameResult` | src/user/dto/update-elo.dto.ts:8-9 | accepted exactly for `win`, `loss`, `draw`, returning the value with that string |
| `UpdateEloDto.ParseColor` | src/user/dto/update-elo.dto.ts:11-12 | accepted exactly for `white`, `black`, returning the value with that string |
| `UpdateEloDto.Validate` | src/user/dto/update-elo.dto.ts:4-13 | accepted exactly when both enum fields parse; `newRating` is taken as is with no range bound; a rejection names the failing fields |
| `UpdateEloDto.EnumRoundTrips` | src/user/dto/update-elo.dto.ts:8-12 | every game result and colour parses back from its string value |
| `UserRatingEntity.AllGameTypesEnumerates` | src/entities/user-rating.entity.ts:4-9 | the game-type list has exactly four distinct entries and contains every game type |
| `UserRatingEntity.NewRow` | src/entities/user-rating.entity.ts:28-49 | a created row has every counter at 0, the given rating and peak, and the key (userId, gameType) |
| `UserRatingEntity.DefaultRow` | src/entities/user-rating.entity.ts:33-49 | a default row has rating and peak 1200 and is well formed: wins + losses + draws = gamesPlayed and rating ≤ peak |
| `UserRatingEntity.WinRate` | src/entities/user-rating.entity.ts:61-63 | 0 when no game was played; otherwise the percentage of wins rounded half up, which is within 0..100 whenever wins ≤ gamesPlayed |
| `UserRatingEntity.ColorBalance` | src/entities/user-rating.entity.ts:65-69 | 0 (as 0/1) when no colour was played; otherwise (white − black)/(white + black) with a non-zero denominator, lying in −1..1 and positive exactly when white exceeds black |
| `UserEntity.WithoutPassword` | src/entities/auth.service.ts:71-72 | removing the password loses nothing else: putting the same hash back gives the original record |
| `UserEntity.WithoutPasswordForgetsOnlyPassword` | src/entities/auth.service.ts:71-72 | the password-free view does not depend on the stored hash |
| `UserEntity.NewUser` | src/entities/user.entity.ts:19-36 | a new account takes id, email, username and hash from its inputs, has role `user` unless one was given, is active, and has an empty refresh slot |
| `UserEntity.UniqueEmails` | src/entities/user.entity.ts:10-11 | no two accounts share an email |
| `UserEntity.UniqueUsernames` | src/entities/user.entity.ts:13-14 | no two accounts share a username |
| `UserEntity.TokenHolders` | src/user/user.service.ts:161-165 | the holders of a token are exactly the accounts whose slot equals it |
| `UserEntity.AtMostOneHolder` | src/entities/user.entity.ts:35-36 | while refresh tokens are unique, a token has at most one holder |
| `UserEntity.WithRefreshToken` | src/user/user.service.ts:157-159 | writing a slot keeps the set of accounts, changes only that account's `refreshToken`, and changes nothing for an unknown id |
| `UserEntity.Rotation` | src/entities/auth.service.ts:32-35 | writing a fresh token into one slot keeps tokens unique; the new token's only holder is that account; every other token loses that account and gains no holder |
| `UserEntity.SlotWriteKeepsConstraints` | src/entities/user.entity.ts:10-14 | a slot write keeps ids, emails and usernames unique |
| `UserService.SeedRatings` | src/user/user.service.ts:47-54 | registration seeds one row for each game type, all for the new account, with rating = peak = elo |
| `UserService.SeedRatingsShape` | src/user/user.service.ts:47-56 | for a valid DTO the seed has exactly four rows, each well formed with rating and peak in 800..2000 |
| `UserService.RecordGame` | src/user/user.service.ts:128-140 | a recorded game adds exactly 1 to gamesPlayed, to the one result counter named and to the one colour counter named; rating becomes the new rating; peak becomes the maximum of the old peak and the new rating; well-formedness is kept |
| `UserService.RecordColor` | src/user/user.service.ts:220-224 | only the chosen colour counter grows, by 1, and every other field is unchanged |
| `UserService.LastRatingOfUniqueRow` | src/user/user.service.ts:101-103 | when a game type has a single loaded row, the collected rating is that row's rating |
| `UserService.LastRatingOfMissingType` | src/user/user.service.ts:105-109 | a game type without a loaded row collects no rating |
| `UserService.ServiceBalanceIsEntityBalance` | src/user/user.service.ts:194-197 | on a well-formed row the service's `> 0` guard and the entity's `=== 0` guard give the same balance |
| `UserService.UserService.Valid` | src/entities/user-rating.entity.ts:11-59 | the directory invariant: accounts are keyed by their id, emails and usernames are unique, ids lie below the next generated id, every rating row is stored under its own (userId, gameType) key so there is one row per pair, belongs to an existing account, and is well formed |
| `UserService.UserService.Create` | src/user/user.service.ts:20-60 | fails exactly when some account shares the username or the email, changing nothing; the username is compared first: "username exists" when only usernames clash, "email exists" when only emails clash, and "email exists" only ever for an account whose email clashes while its username does not, so an account clashing on both gives "username exists"; otherwise inserts the new account under the next id, advances the id counter by one, adds the four seeded rows and returns the account without its password; the directory invariants are kept |
| `UserService.UserService.FindByEmail` | src/user/user.service.ts:62-66 | returns the account with that email, or none exactly when no account has it |
| `UserService.UserService.FindById` | src/user/user.service.ts:68-70 | returns the account with that id, or none exactly when the id is unknown |
| `UserService.UserService.FindByUsername` | src/user/user.service.ts:72-76 | returns the account with that username, or none exactly when no account has it |
| `UserService.UserService.FormatUserRatings` | src/user/user.service.ts:99-112 | has an entry for every game type: 1200 when the relation is not loaded, when the type has no row, or when the collected rating is 0; the collected rating otherwise |
| `UserService.UserService.UpdateRating` | src/user/user.service.ts:114-143 | a missing (userId, gameType) row fails with "rating not found" and changes nothing; otherwise the row becomes the recorded game of the old row and nothing else changes |
| `UserService.UserService.ApplyGame` | src/user/user.service.ts:128-140 | the in-place increments produce exactly the recorded game |
| `UserService.UserService.GetUserRating` | src/user/user.service.ts:145-149 | returns the row stored under (userId, gameType), or none exactly when there is none |
| `UserService.UserService.SaveRefreshToken` | src/user/user.service.ts:157-159 | the account map becomes the slot write of the old map; ratings and the id counter are unchanged |
| `UserService.UserService.FindByRefreshToken` | src/user/user.service.ts:161-165 | returns an account whose slot equals the token exactly, or none exactly when no slot holds it |
| `UserService.UserService.GetColorBalance` | src/user/user.service.ts:171-198 | an existing row's balance is returned unchanged; a missing row for a known account is inserted as the 1200 default and 0 is returned; for an unknown account the insert fails and nothing changes |
| `UserService.UserService.UpdateColorHistory` | src/user/user.service.ts:200-227 | an existing row gets one more game in the chosen colour; a missing row for a known account is first created as the 1200 default; for an unknown account the save fails and nothing changes; rows of other keys and the accounts are unchanged |
| `JwtStrategy.CookieExtractor` | src/strategies/jwt.strategy.ts:7-12 | yields a token exactly when the request and its cookies exist and `access_token` is present and non-empty, and that token is the cookie's value |
| `JwtStrategy.FromExtractors` | src/strategies/jwt.strategy.ts:24 | yields nothing exactly when every extractor yields nothing, otherwise the first extractor's token |
| `JwtStrategy.ExtractAccessToken` | src/strategies/jwt.strategy.ts:24 | the only source of the access token is the cookie extractor |
| `JwtStrategy.NewJwtStrategy` | src/strategies/jwt.strategy.ts:16-28 | construction fails with the missing-secret message exactly when the secret is absent or empty; otherwise it uses that secret and enforces expiry |
| `JwtStrategy.Validate` | src/strategies/jwt.strategy.ts:30-36 | the request identity is the payload's `sub`, `email` and `username` |
| `JwtStrategy.RoleNeverForwarded` | src/strategies/jwt.strategy.ts:30-36 | the request identity does not depend on the role or on the times in the payload |
| `JwtStrategy.VerifyToken` | src/strategies/jwt.strategy.ts:25-26 | a token is accepted exactly when it verifies under the secret and, unless expiry is ignored, the current time is before `exp`; the accepted payload is the verified one |
| `JwtStrategy.Authenticate` | src/strategies/jwt.strategy.ts:23-36 | no cookie token gives "no token"; with a cookie token, the request is accepted exactly when the token verifies under the secret and is unexpired, failing otherwise with the verifier's own error; success yields the projection of the verified payload |
| `Hex.DigitValue` | src/entities/auth.service.ts:32 | a character has a value exactly when it is a lower-case hex digit, and that value maps back to it |
| `Hex.Encode` | src/entities/auth.service.ts:32 | the encoding has two hex digits per byte |
| `Hex.DecodeEncode` | src/entities/auth.service.ts:32 | decoding the encoding gives back the bytes |
| `Hex.EncodeInjective` | src/entities/auth.service.ts:32 | distinct byte strings give distinct tokens |
| `AuthService.IsEmail` | src/entities/auth.service.ts:16-19 | the whole text is a non-empty run of characters other than JavaScript whitespace and `@`, then `@`, another such run, `.`, and a third such run |
| `AuthService.EmailFromParts` | src/entities/auth.service.ts:16-19 | any `local@domain.tld` whose three parts are non-empty and free of whitespace and `@` is classified as an email |
| `AuthService.EmailParts` | src/entities/auth.service.ts:16-19 | every text classified as an email splits into such three parts |
| `AuthService.NoAtIsNotEmail` | src/entities/auth.service.ts:16-19 | text without `@` is never classified as an email |
| `AuthService.IdentifiesAtMostOne` | src/entities/auth.service.ts:52-56 | with unique emails and usernames, an identifier designates at most one account |
| `AuthService.AccessPayload` | src/entities/auth.service.ts:23-29 | the access token's claims are the account's id as `sub`, its email, username and role, issued now and expiring 900 s later |
| `AuthService.IssuedAccessTokenAuthenticates` | src/entities/auth.service.ts:29 | with a sound signer, an issued access token in the cookie authenticates as its account before its expiry second and is refused as expired from then on |
| `AuthService.RefreshCandidates` | src/entities/auth.service.ts:95-96 | the refresh lookup can return exactly the accounts whose slot holds the presented token, and none when no token is presented |
| `AuthService.RefreshCandidatesAsWritten` | src/auth/auth.controller.ts:55-56 | as the lookup is written, a missing cookie can return every account; with a cookie it agrees with the corrected lookup |
| `AuthService.AbsentCookieMatchesAsWritten` | src/auth/auth.controller.ts:55-56 | a one-account directory whose account never logged in is matched by a refresh without cookie as written, and not by the corrected lookup |
| `AuthService.AuthService.ValidateUser` | src/entities/auth.service.ts:50-73 | fails with "account disabled" exactly when the designated account is inactive, whatever the password; succeeds exactly when it is active and the password matches, returning it without its password; otherwise fails with "invalid credentials", the same error for an unknown account and a wrong password |
| `AuthService.AuthService.GenerateTokens` | src/entities/auth.service.ts:21-48 | returns the signed access token, the hex of the random bytes (64 hex digits), `Bearer`, 900 and the account summary; the only change is that account's slot, which becomes the new token's sole holder while every other token loses it |
| `AuthService.FailureResponses` | src/entities/auth.service.ts:58-69 | every refusal is a 401 except the missing account, the only 404; no two refusals share a message, and an unknown account and a wrong password are the same refusal |
| `AuthService.AuthService.Register` | src/entities/auth.service.ts:75-82 | fails exactly when the username or email is taken, passing on create's error: "username exists" or "email exists", the username compared first as in `create`, so "email exists" only for an account whose email clashes while its username does not, and a clash on one field alone gives that field's error; then the accounts, the rating rows and the id counter are unchanged; otherwise the account is created under the next id with the hashed password, its four seeded rating rows are added, the counter advances by one, and the answer is the success message |
| `AuthService.AuthService.Login` | src/entities/auth.service.ts:84-93 | fails like `validateUser` and then changes nothing; on success it returns "Login successful" with the pair issued for the designated account and rotates that account's slot |
| `AuthService.AuthService.RefreshToken` | src/entities/auth.service.ts:95-109 | succeeds exactly when an active account holds the presented token, issuing it a new pair and rotating its slot so that the presented token then matches no account; otherwise fails with "invalid refresh token" and changes nothing; a request without a token is refused, following the corrected lookup of the Finding below |
| `AuthService.AuthService.GetUserInfo` | src/entities/auth.service.ts:111-130 | a missing or zero subject is unauthorized; a subject with no account is not found (404); otherwise the answer is only the account's id, username and email |
| `AuthService.RotationScenario` | src/entities/auth.service.ts:84-109 | after registering and logging in with token A and refreshing with A to get B, replaying A fails and refreshing with B succeeds for the same account |
| `AuthController.SessionCookieOptions` | src/auth/auth.controller.ts:22-31 | every session cookie is httpOnly, secure, SameSite none, path `/`, domain `.onrender.com` |
| `AuthController.SessionCookies` | src/auth/auth.controller.ts:22-42 | exactly two cookies, `access_token` with the access token and a lifetime of `expires_in` × 1000 ms, then `refresh_token` with the refresh token and 7 days |
| `AuthController.Body` | src/auth/auth.controller.ts:44-50 | the body is success, message, user, expires_in and token_type of the session result |
| `AuthController.BodyHidesTokens` | src/auth/auth.controller.ts:44-50 | the body does not depend on either token |
| `AuthController.PresentedRefreshToken` | src/auth/auth.controller.ts:55 | the presented token is the `refresh_token` cookie, absent exactly when the cookie is |
| `AuthController.HttpResponse.Cookie` | src/auth/auth.controller.ts:22 | setting a cookie appends it to the response |
| `AuthController.AuthController.Respond` | src/auth/auth.controller.ts:58-87 | a successful session appends its two cookies to the response and answers with its token-free body |
| `AuthController.AuthController.Login` | src/auth/auth.controller.ts:17-51 | passes the `username` field as the identifier; fails with "account disabled" exactly when the designated account is inactive; on failure no cookie is set and no account changes; on success the response gets the two cookies of the issued pair and the body of the login result, and the only account change is the designated account's refresh slot, which now holds the new token; the rating rows and the id counter never change |
| `AuthController.AuthController.Refresh` | src/auth/auth.controller.ts:53-88 | succeeds exactly when an active account holds the `refresh_token` cookie's value; on success it sets the two cookies of the new pair, answers with the token-free body, the only account change is the holder's refresh slot, which now holds the new token, and the consumed token then matches no account; the rating rows and the id counter never change; on failure no cookie is set and no account changes; a request without the cookie is refused, following the corrected lookup of the Finding below |

## Left out

- Password hashing and comparison (bcrypt), JWT signing and verification, and random-byte generation are foreign code. They are parameters, as described above.
- Time is a parameter. Passport's clock tolerance and the `iat`/`exp` encoding are not modelled, beyond `exp = iat + 900`.
- AuthService.AuthService.GenerateTokens: requires that the new token is held by no account. The source does not check this and relies on 256 random bits. The requirement excludes only tokens held now, so a later issuance may reuse a consumed value, after which that value is accepted again; that a consumed token never matches again rests on the randomness of the 256 bits, which is not modelled.
- UserRatingEntity.WinRate: uses exact rational rounding, half up, instead of `Math.round` over a floating-point quotient. The two can disagree only where the float quotient lands on the other side of a `.5` boundary.
- UserRatingEntity.ColorBalance: returns the quotient as a fraction (numerator, denominator) instead of a floating-point number.
- UserService.UserService.GetColorBalance: returns the same fraction, not a float.
- Numbers are unbounded integers. A non-integral `elo` or `newRating` that `IsNumber` accepts is not modelled.
- CreateUserDto.Validate: lengths are counted as the length validators count them: a character outside the Basic Multilingual Plane counts once, and the presentation selectors U+FE0E and U+FE0F are not counted. A Dafny string here is a sequence of code points, so the UTF-16 encoding is not modelled.
- class-validator's type checks (`IsString`, `IsNumber`) and the validation pipe's whitelist, forbidden-property and transform options are not modelled. Requests arrive already typed.
- Email syntax for registration (`IsEmail`) is an abstract parameter. The login classifier `isEmail` is modelled exactly.
- TypeORM is replaced by maps:
  - The `...WithRatings` lookups are the plain lookups.
  - The loaded `ratings` relation is the optional row list given to `FormatUserRatings`.
  - Timestamps and the rating row's own generated id are not kept.
  - Async execution and exceptions become `Result` values. Exception messages are the error constructors, apart from the auth errors, whose messages and statuses are given.
- `getAllUserRatings` and `removeRefreshToken` are not modelled. Neither is called by the core, and `removeRefreshToken` relies on TypeORM's handling of an `undefined` update.
- The controller's `register` and `me` handlers are not modelled. They are plain delegations to `AuthService.AuthService.Register` and `AuthService.AuthService.GetUserInfo`. The commented-out logout and profile handlers are not modelled either.
- `src/user/user.controller.ts` is routing glue and is not part of this model. That includes its `parseInt` of path parameters and its error remapping. `UpdateRating` takes exactly the three validated `UpdateEloDto` fields, plus the user id and game type the route supplies.
- AuthService.AuthService.RefreshToken: an absent token is refused, as the corrected lookup `AuthService.RefreshCandidates` prescribes; the code as written sends `undefined` to the lookup, which can match any account (see Findings, `AuthService.RefreshCandidatesAsWritten`).
- AuthController.AuthController.Refresh: a request without the `refresh_token` cookie is refused through the same corrected lookup, not the as-written behaviour recorded under Findings.
- Two concurrent refreshes with the same token can both succeed, because the slot write has no compare-and-swap. The model is sequential and does not capture this race.
- Module wiring, configuration defaults, CORS, cookie parsing and the bootstrap are not part of this model.

## Findings

| source | as written | input that shows it | evidently intended | confidence | as-written member | corrected member |
|---|---|---|---|---|---|---|
| src/auth/auth.controller.ts:55-56 | a refresh request without a `refresh_token` cookie passes `undefined` to `findByRefreshToken`, whose `where: { refreshToken: undefined }` places no condition, so an arbitrary account is returned and issued tokens | `POST /api/auth/refresh_token` with no cookies while one active account exists | refused with "Invalid refresh token" | not executed; medium: it depends on the ORM version skipping `undefined` where-keys | `AuthService.RefreshCandidatesAsWritten` | `AuthService.RefreshCandidates` |
