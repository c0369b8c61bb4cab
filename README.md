# Authentication path of the sleepr services, modelled in Dafny

This project models the sequential logic of the authentication path shared by
the sleepr services (auth, reservation, payment, notification), and the
generic document store under it:

- the JWT_EXPIRATION parser (`JwtTime`): a positive seconds count, or digits
  followed by one of `s`, `m`, `h`, `d`, with one error per rejected form;
- the generic repository (`Database.AbstractRepository`): a class holding the
  collection as a sequence of records with unique `_id`s. `findOne`,
  `findOneAndUpdate` and `findOneAndDelete` fail with NotFound when nothing
  matches. `find` never fails. `create` stores one record under a fresh id;
- the user service (`Users.UserService`): registration refuses a stored
  email and otherwise stores the bcrypt digest. Lookups are by hex id or by
  email, and `verifyUser` checks the password against the digest. bcrypt is
  a pair of function values bound by one property: a digest verifies against
  the password it came from;
- the local strategy (`LocalStrategy`): every failure of `verifyUser`
  becomes the same Unauthorized "Invalid credentials";
- login (`Auth`): the `Authentication` cookie expires at now + TTL. It is
  always HttpOnly, SameSite=Lax and Path=/. Secure comes from
  JWT_SECURE_COOKIE, and when that is unset it is on only in production.
  Any failure becomes InternalServerError "Login failed" and sets no cookie;
- the JWT strategy (`JwtStrategy`): the extractor prefers the cookie and
  falls back to the RPC payload field, and `validate` resolves the payload's
  `userId` through the store;
- the guard of the peer services (`JwtAuthGuard`): with no token it returns
  false and makes no call. Otherwise it makes exactly one `authenticate` call
  and attaches the answer to `request.user` before yielding true;
- the reservation service (`Reservations`): a reservation is stored only
  after the `create_charge` reply. `update` is a `$set` field merge and
  `remove` deletes by id.

Remote calls go through `ClientProxy.Client`. It logs every message it sends
(the call counter), and its answers come from an oracle indexed by call
number, so each answer may be a value or an error. Time is whole seconds
since the epoch. A token is an opaque non-empty string from which its
payload can be read back (`Tokens`). Ids are natural numbers whose hex form
(`toHexString`) has at least 24 digits. Hex forms are compared exactly, and
distinct ids have distinct hex forms.

Files: `common.dfy`, `numerals.dfy`, `jwt_time.dfy`,
`abstract_repository.dfy`, `user_service.dfy`, `local_strategy.dfy`,
`tokens.dfy`, `auth_service.dfy`, `jwt_strategy.dfy`, `client_proxy.dfy`,
`jwt_auth_guard.dfy`, `reservation_service.dfy`.

## Model

| member | source | states |
|---|---|---|
| `JwtTime.JsNumber` | apps/auth/src/utils/jwt-time.util.ts:9-10 | `Number()` of a non-empty string of decimal digits is the value those digits denote |
| `JwtTime.TimePattern` | apps/auth/src/utils/jwt-time.util.ts:22 | a match of `^(\d+)([smhd]?)$` splits the string into a non-empty digit group and an empty or one-letter unit group, which together make up the whole string |
| `Numerals.ValueIsZero` | apps/auth/src/utils/jwt-time.util.ts:29-30 | `parseInt` of the digit group is zero exactly when every digit is zero |
| `Numerals.ValueLeadingZero` | apps/auth/src/utils/jwt-time.util.ts:29 | a leading zero does not change the value `parseInt` reads |
| `JwtTime.Multiplier` | apps/auth/src/utils/jwt-time.util.ts:35-36 | for the units the pattern can produce (the empty string or one of s, m, h, d), a unit has a multiplier exactly when it is one of the keys s, m, h, d |
| `JwtTime.ParseTimeStringToSeconds` | apps/auth/src/utils/jwt-time.util.ts:21-43 | a returned value is strictly positive; the only unit it can refuse is the empty one |
| `JwtTime.Message` | apps/auth/src/utils/jwt-time.util.ts:12-38 | the format error quotes the whole input, and the unit error the whole unit, right after their fixed prefixes |
| `JwtTime.MessageInjective` | apps/auth/src/utils/jwt-time.util.ts:12-38 | distinct errors throw distinct messages, so the message identifies the error and the quoted input or unit |
| `JwtTime.ParseJwtExpirationToSeconds` | apps/auth/src/utils/jwt-time.util.ts:7-19 | whenever the parser returns, the number of seconds is strictly positive |
| `JwtTime.DecimalIsNumber` | apps/auth/src/utils/jwt-time.util.ts:9-15 | a digits-only string is taken as seconds: its value when positive, otherwise "must be a positive number" |
| `JwtTime.NonPositiveNumberRejected` | apps/auth/src/utils/jwt-time.util.ts:10-13 | a string that is a number at most zero ("0", "-5") is refused with "JWT_EXPIRATION must be a positive number" |
| `JwtTime.MalformedRejected` | apps/auth/src/utils/jwt-time.util.ts:22-27 | a string that is neither a number nor digits plus an optional unit is refused with the format error quoting the input |
| `JwtTime.SuffixedValue` | apps/auth/src/utils/jwt-time.util.ts:29-42 | digits followed by a unit letter give value times the unit's seconds; a zero value is refused with "JWT_EXPIRATION value must be positive" |
| `JwtTime.ParseFormatted` | apps/auth/src/utils/jwt-time.util.ts:7-43 | round trip: any positive TTL written as digits, with or without a unit letter, parses back to value times the unit's seconds |
| `JwtTime.InvalidUnitUnreachable` | apps/auth/src/utils/jwt-time.util.ts:7-40 | from the entry point, no string ever produces the "Invalid JWT time unit" error |
| `JwtTime.DigitsOnlyReachInvalidUnitDirectly` | apps/auth/src/utils/jwt-time.util.ts:34-40 | called directly, the suffixed parser refuses a positive digits-only string for its empty unit, so that branch is dead only because of the numeric branch |
| `JwtTime.AcceptedExamples` | apps/auth/src/utils/jwt-time.util.ts:7-42 | "3600" is 3600, "1h" is 3600, "30m" is 1800, "1d" is 86400 |
| `JwtTime.RejectedExamples` | apps/auth/src/utils/jwt-time.util.ts:9-32 | "0" and "-5" are not positive numbers; "0h" and "000s" have a zero value; "1w", "h", "-5s" and "10 m" are malformed |
| `Database.HexStringInjective` | apps/auth/src/auth.service.ts:23 | two ids with the same `toHexString()` are the same id |
| `Database.ToHexString` | apps/auth/src/auth.service.ts:23 | the hex form of an id has at least 24 digits |
| `Database.ById` | apps/auth/src/user/user.service.ts:26 | the filter `{ _id: id }` accepts a record exactly when the record's hex id is `id` |
| `Database.FirstMatch` | libs/common/src/database/abstract.repository.ts:32-34 | the index found is the first record in store order that the filter accepts; none is found exactly when no record matches |
| `Database.MatchIndices` | libs/common/src/database/abstract.repository.ts:63-66 | the positions of the matching records: strictly increasing, each a match, and every match among them |
| `Database.Matching` | libs/common/src/database/abstract.repository.ts:63-66 | the result is the subsequence of the store at the matching positions: each match once, in store order, and nothing else |
| `Database.MatchingEverything` | apps/reservation/src/reservation.service.ts:36-38 | a filter accepting every record, such as the empty filter, returns the whole store, in order |
| `Database.OnlyOneWithId` | apps/reservation/src/reservation.service.ts:40-42 | with unique ids, the filter `{ _id: id }` finds exactly the record whose id has that hex form |
| `Database.RemoveKeepsUniqueIds` | libs/common/src/database/abstract.repository.ts:68-83 | deleting a record keeps the remaining ids unique |
| `Database.AbstractRepository.constructor` | libs/common/src/database/abstract.repository.ts:16 | a new repository is empty and valid |
| `Database.AbstractRepository.Create` | libs/common/src/database/abstract.repository.ts:18-28 | appends exactly one record with the given body under an id no stored record has, returns it, and leaves every earlier record as it was |
| `Database.AbstractRepository.FindOne` | libs/common/src/database/abstract.repository.ts:30-42 | returns a stored record the filter accepts (the first in store order) when one exists; otherwise NotFound "Document not found "; it changes nothing |
| `Database.AbstractRepository.Find` | libs/common/src/database/abstract.repository.ts:63-66 | returns the matching records, each once and in store order, possibly none, and never fails |
| `Database.AbstractRepository.FindOneAndUpdate` | libs/common/src/database/abstract.repository.ts:44-61 | replaces the first matching record by its updated version, keeps its id, returns the new version, and leaves every other record alone; with no match it fails NotFound and changes nothing |
| `Database.AbstractRepository.FindOneAndDelete` | libs/common/src/database/abstract.repository.ts:68-83 | removes the first matching record and returns it, so the store shrinks by one; with no match it fails NotFound and changes nothing |
| `Users.AppendKeepsUniqueEmails` | apps/auth/src/user/user.service.ts:15-23 | adding a user whose email no stored user has keeps emails unique |
| `Users.FirstByEmailIsTheOne` | apps/auth/src/user/user.service.ts:29-31 | in an email-unique store, `findOne({ email })` finds the one user with that email |
| `Users.ByEmail` | apps/auth/src/user/user.service.ts:30 | the filter `{ email }` accepts a record exactly when its email is `email` |
| `Users.AlreadyExists` | apps/auth/src/user/user.service.ts:43-45 | the registration error is UnprocessableEntity whose message quotes the email right after "User with email " |
| `Users.UserService.constructor` | apps/auth/src/user/user.service.ts:13 | the service works on the given repository and bcrypt, and starts valid |
| `Users.UserService.ValidateCreateUserDto` | apps/auth/src/user/user.service.ts:37-45 | passes exactly when no stored user has the email; otherwise fails UnprocessableEntity "User with email ... already exists" |
| `Users.UserService.Create` | apps/auth/src/user/user.service.ts:15-23 | a taken email is refused and the store is unchanged. A fresh email adds exactly one user holding the email and the bcrypt digest of the password, under a fresh id. The stored digest verifies against the password. Email uniqueness is preserved, and the new user then passes `verifyUser` |
| `Users.UserService.GetUser` | apps/auth/src/user/user.service.ts:25-27 | returns a stored user with that hex id, or NotFound when there is none |
| `Users.UserService.VerifyUser` | apps/auth/src/user/user.service.ts:29-35 | returns a stored user with that email whose digest verifies the password. An unknown email is exactly the NotFound case. Every other failure is Unauthorized "Invalid credentials". With unique emails it succeeds iff the password verifies |
| `LocalStrategy.Validate` | apps/auth/src/strategies/local.strategy.ts:15-21 | on success, returns exactly what `verifyUser` returns; every failure is Unauthorized "Invalid credentials", and no other error escapes |
| `LocalStrategy.UnknownEmailLikeWrongPassword` | apps/auth/src/strategies/local.strategy.ts:18-20 | an unknown email and a wrong password for a known email give the same Unauthorized answer |
| `LocalStrategy.RightPasswordLogsIn` | apps/auth/src/strategies/local.strategy.ts:15-17 | with unique emails, the right password of a stored user returns that user |
| `Tokens.Sign` | apps/auth/src/auth.service.ts:24 | a signed token is never empty |
| `Tokens.DecodeSign` | apps/auth/src/auth.service.ts:23-24 | a signed token reads back to the payload it was signed with |
| `Tokens.Decode` | apps/auth/src/strategies/jwt.strategy.ts:15-20 | a token that decodes is exactly the signature of the payload it decodes to |
| `Tokens.CookieToken` | libs/common/src/auth/jwt-auth.guard.ts:22 | `cookies?.Authentication`: present exactly when there are cookies and one is named `Authentication`, and then it is that cookie's value |
| `Tokens.Truthy` | libs/common/src/auth/jwt-auth.guard.ts:23 | a token passes the `!jwt` test exactly when it is present and non-empty |
| `Auth.GetJwtExpirationInSeconds` | apps/auth/src/auth.service.ts:39-49 | an unset or empty JWT_EXPIRATION fails "JWT_EXPIRATION is required but not configured"; otherwise the parsed TTL (positive) or the parser's error message |
| `Auth.GetCookieSecurityOptions` | apps/auth/src/auth.service.ts:51-78 | the cookie expires at the given instant and is always HttpOnly, SameSite lax, Path /. Secure equals JWT_SECURE_COOKIE when set, and otherwise holds iff NODE_ENV (default "development") is "production" |
| `Auth.DefaultIsDevelopment` | apps/auth/src/auth.service.ts:52-67 | with neither NODE_ENV nor JWT_SECURE_COOKIE set, the cookie is not Secure |
| `Auth.Environment` | apps/auth/src/auth.service.ts:52-55 | NODE_ENV, or "development" when it is unset |
| `Auth.PayloadOf` | apps/auth/src/auth.service.ts:23 | the login payload's `userId` is the user's hex id, of at least 24 digits |
| `Auth.PayloadNamesOneUser` | apps/auth/src/auth.service.ts:23 | two users with the same login payload have the same id |
| `Auth.LoginCookie` | apps/auth/src/auth.service.ts:21-37 | the `Authentication` cookie's token reads back to `{ userId: user._id.toHexString() }`. It expires at now + the parsed TTL, strictly later than now, and has the fixed attributes. It fails exactly when the TTL does, with InternalServerError "Login failed" |
| `Auth.Response.Cookie` | apps/auth/src/auth.service.ts:31 | `response.cookie` appends one Set-Cookie with the given name, value and options |
| `Auth.Login` | apps/auth/src/auth.service.ts:21-37 | on success the response gains exactly the login cookie; on any failure it throws "Login failed" and sets no cookie |
| `JwtStrategy.ExtractJwt` | apps/auth/src/strategies/jwt.strategy.ts:18-19 | the token is the `Authentication` cookie when that is non-empty, otherwise the request's top-level `Authentication` field; a null request yields undefined, never a failure |
| `JwtStrategy.ExtractsRpcPayload` | apps/auth/src/strategies/jwt.strategy.ts:18-19 | the `{ Authentication: jwt }` payload a guard sends is extracted as `jwt` |
| `JwtStrategy.Validate` | apps/auth/src/strategies/jwt.strategy.ts:25-31 | returns the stored user whose hex id is the payload's `userId`. It fails NotFound exactly when there is none, so "User not found" is never thrown. It changes nothing |
| `JwtStrategy.Authenticate` | apps/auth/src/strategies/jwt.strategy.ts:15-31 | a request without a non-empty token, or whose token does not decode, is Unauthorized; otherwise the answer is `validate` of the decoded payload, so a success is the stored user whose hex id is the token's `userId` |
| `JwtStrategy.LoginTokenResolvesToUser` | apps/auth/src/auth.service.ts:23-31 | the token of a login cookie resolves back to the user who logged in, whether it comes as the cookie or as the RPC payload field |
| `ClientProxy.Client.constructor` | libs/common/src/auth/jwt-auth.guard.ts:14 | a new client has sent nothing |
| `ClientProxy.Client.Send` | libs/common/src/auth/jwt-auth.guard.ts:27-28 | one call logs one message with its pattern and data and returns the transport's answer for that call |
| `JwtAuthGuard.CanActivate` | libs/common/src/auth/jwt-auth.guard.ts:21-35 | missing cookies or a missing/empty token: false, no call, request untouched. Otherwise exactly one `authenticate` message `{ Authentication: token }`. On a reply, `request.user` is the reply and the result is true. On an error, `user` is untouched and the error is passed on, never true |
| `Reservations.NewReservation` | apps/reservation/src/reservation.service.ts:26-31 | the stored document has the DTO's fields, its `charge`, `invoiceId` = the charge reply's id and `userId` = the caller's id, the last two overriding |
| `Reservations.SetFields` | apps/reservation/src/reservation.service.ts:44-50 | `$set` overwrites the patch's fields and keeps every other field |
| `Reservations.SetFieldsIdempotent` | apps/reservation/src/reservation.service.ts:44-50 | applying the same `$set` twice is applying it once |
| `Reservations.ReservationService.constructor` | apps/reservation/src/reservation.service.ts:12-15 | the service works on the given repository and payment client |
| `Reservations.ReservationService.Create` | apps/reservation/src/reservation.service.ts:17-34 | exactly one `create_charge` call with the DTO's charge. On its reply one reservation is stored under a fresh id, with the invoice and caller ids, and returned. On its error nothing is stored and the error is passed on |
| `Reservations.ReservationService.FindAll` | apps/reservation/src/reservation.service.ts:36-38 | returns every stored reservation, in order |
| `Reservations.ReservationService.FindOne` | apps/reservation/src/reservation.service.ts:40-42 | returns the reservation with that hex id, or NotFound when there is none |
| `Reservations.ReservationService.Update` | apps/reservation/src/reservation.service.ts:44-51 | the reservation with that id gets the patch's fields, keeps the others and its id, and is returned; every other reservation is untouched; an unknown id fails NotFound and changes nothing |
| `Reservations.ReservationService.Remove` | apps/reservation/src/reservation.service.ts:53-55 | deletes exactly the reservation with that id and returns it; an unknown id fails NotFound and changes nothing |

## Left out

- JwtTime.JsNumber: JavaScript's `Number()` is modelled only on strings made of digits, `+`, `-` and the unit letters. Over that alphabet it is exact: "" is 0, an optionally signed run of digits is its value, anything else is NaN. Forms such as " 5 ", "1e3", "0x10", "1.5" and "Infinity" are numbers in JavaScript, but the model treats them as NaN. Their fractional results are floats.
- JwtTime.ParseJwtExpirationToSeconds: integers are unbounded, so digit strings beyond 2^53 keep their exact value, where JavaScript rounds them to a float.
- Signing and verifying JWTs (signature, the `exp` claim of section 4.1.4 of RFC 7519, the secret) is done by `@nestjs/jwt` and `passport-jwt`, which are not part of this model. A token is an opaque string whose payload can be read back (`Tokens.Sign`, `Tokens.Decode`). The token's own expiry is configured in apps/auth/src/auth.module.ts, so whether it agrees with the cookie's is not modelled.
- bcrypt is foreign, salted and non-deterministic. It is two function values with one property: a digest verifies against its password. The salt is an input, and the cost of 10 rounds is passed through. Timing and the 72-byte limit are not modelled.
- Mongoose internals are not modelled: query operators, ObjectId generation (a counter stands in), casting of `_id` strings (upper-case hex and malformed ids are simply not found), `lean()`/`toJSON()`, schema strictness (the reservation's `charge` field is kept as spread), write errors and database-side races. Filters are predicates on records. Updates are functions on the body, and the id never changes.
- Users.UserService.ValidateCreateUserDto: the source swallows every error of the lookup. In the model the lookup can fail only with NotFound, so a store failure reading as "email free" is not modelled.
- RxJS and the transport are not modelled: Observables, laziness, timeouts, cancellation and concurrency. Each remote call is one synchronous answer from `ClientProxy.Client.reply`, either a value or an error.
- Dates: `new Date()` and `setSeconds` become whole seconds given as `now`. Milliseconds and the limits of the Date range are left out.
- `payment.service.ts` (a Stripe call and a notification emit), the notification service, controllers, decorators, Nest modules, the Joi configuration schemas, `main.ts` bootstraps and all logging are outside this model. `current-user` only reads `request.user`, which `JwtAuthGuard.CanActivate` sets.
