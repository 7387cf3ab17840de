# Bookly backend: authentication, authorisation and the book and review tables

This project is a Dafny model of the request-handling core of the Bookly
FastAPI backend. The core is:

- the session-token codec (a JWT with `user`, `exp`, `jti` and `refresh` claims) and the
  URL-safe action-link codec of `auth/utils.py`;
- the Redis revocation registry of `db/redis.py`;
- the guard chain of `auth/dependecies.py`: the bearer, its access/refresh variants,
  `get_current_user`, `RoleChecker` and `sanitize_input`;
- the request-body constraints of `auth/schemas.py`, including `PASSWORD_REGEX` as a regex;
- the handlers of the authentication router;
- `BookService` and the book router's route policy;
- `ReviewService.add_review_to_book` and its route;
- the table models, their foreign keys and delete cascades.

How the pieces are modelled:

- **Outcomes.** Every handler returns a `Result`. `Fail(status, detail)` is an
  `HTTPException` or error response the code raises on purpose. `Crash(reason)` is an
  exception nobody catches, which the framework answers with 500.
- **Database session.** The session is a class `Database.Session` with the three tables as
  `seq` fields. Each method keeps the invariant `Integrity`: keys are unique and every
  foreign key names an existing row.
- **Revocation registry.** The registry is a class with its key/expiry map and the Redis
  server's clock.
- **Identifiers.** `uuid.uuid4()` (and bcrypt's random salt) is a supply object
  `Ids.UuidSupply` that never hands out the same identifier twice.
- **Database faults.** A failing read or commit is a parameter `Fault`.
- **Pure parts.** The decision stages are functions: the bearer, `get_current_user`,
  `RoleChecker`, the decoders and the validators.
- **Imperative parts.** What mutates is a method whose `ensures` gives the new state:
  `sanitize_input`, `create_url_safe_token`, the handlers and the `update_book` loop.

Where the design description and the code disagree, the model follows the code:

- **Duplicate signup.** The code answers 403, not a conflict status.
- **Bad tokens.** An expired or malformed session token is answered 401 by `decode_token`
  before the bearer's own 403 branch can run. With one clock reading per request, that
  403 branch is unreachable, which is proved.
- **Password mismatch.** It is raised with status 200.
- **Review failures.** A failed review commit is not rolled back.
- **Null in a book update.** It is not stored. It fails the commit on a NOT NULL column,
  so the route answers 500.

## Model

| member | source | states |
|---|---|---|
| Passwords.GeneratePassHash | backend/auth/utils.py:23-26 | the hash keeps the drawn salt, and exactly the hashed password verifies against it |
| Passwords.SaltedHashesDiffer | backend/auth/utils.py:23-29 | one password under two salts gives two different hashes, and both verify |
| Ids.UuidSupply.Fresh | backend/auth/utils.py:53 | the identifier handed out was never handed out before, and is recorded as issued |
| Ids.NatToStringInjective | backend/auth/utils.py:53 | different supply counters give different identifiers |
| SessionTokens.CreateAccessToken | backend/auth/utils.py:44-64 | the payload has exactly the keys user, exp, jti, refresh; exp is issue time plus the expiry (60 minutes by default); refresh as given; the token is signed with the server's key and algorithm and decodes to its payload strictly before exp and is reported expired from exp on |
| SessionTokens.DecodeToken | backend/auth/utils.py:67-78 | a decoded payload is exactly what this server signed, and any exp it has lies in the future; every failure is a 401 or an uncaught exception |
| SessionTokens.DecodeEncoded | backend/auth/utils.py:67-74 | round trip: a token this server signed decodes to its own claims before exp |
| SessionTokens.EncodedExpires | backend/auth/utils.py:75-76 | from exp on, the same token is a 401 "Token has expired" |
| SessionTokens.TamperedClaimsRejected | backend/auth/utils.py:77-78 | claims changed under an existing signature are a 401 "Invalid token" |
| SessionTokens.ForeignKeyRejected | backend/auth/utils.py:77-78 | a token signed with another key is a 401 "Invalid token" |
| SessionTokens.ForeignAlgorithmCrashes | backend/auth/utils.py:67-78 | a token naming another algorithm raises an error `decode_token` does not catch |
| ActionTokens.CreateUrlSafeToken | backend/auth/utils.py:88-91 | the caller's dict gains "exp" = the expiry in seconds, and the token signs the dict as it now is |
| ActionTokens.DecodeUrlSafeToken | backend/auth/utils.py:93-99 | data comes back iff the token parses, is signed by this server and is between 0 and max_age seconds old; the data is returned as stored, exp included |
| ActionTokens.UrlTokenRoundTrip | backend/auth/utils.py:88-99 | within a day of signing, the link decodes to its data unchanged |
| ActionTokens.UrlTokenExpires | backend/auth/utils.py:93-99 | after max_age the link is refused, whatever exp it carries |
| ActionTokens.UrlTokenTamperRejected | backend/auth/utils.py:93-99 | a link whose data was altered is refused |
| Blocklist.RedisGet | backend/db/redis.py:12-14 | a value is returned iff the key is stored and not yet expired |
| Blocklist.TokenBlocklist.AddJtiToBlocklist | backend/db/redis.py:5-10 | the jti is stored with value "" and expiry now plus 3600; it is then a member, and membership of every other jti is unchanged |
| Blocklist.EmptyValueIsPresent | backend/db/redis.py:12-14 | an empty stored value still counts as present |
| Blocklist.MembershipWindow | backend/db/redis.py:5-14 | after an add at time t, the jti is a member exactly up to t plus 3600 |
| Blocklist.ReAddResetsExpiry | backend/db/redis.py:5-10 | re-adding a jti restarts its window from the second add |
| Blocklist.RevokedAccessTokenOutlived | backend/db/redis.py:5-10 | a default access token revoked before its exp stays revoked for as long as it would still decode |
| Text.EscapeChar | backend/auth/dependecies.py:21 | an escaped character contains no raw markup, and a non-special character is kept |
| Text.HtmlEscape | backend/auth/dependecies.py:21 | the escaped text contains no raw `<`, `>`, `"` or `'` and is no shorter |
| Text.UnescapeEscape | backend/auth/dependecies.py:21 | escaping loses nothing: unescaping gives the original back |
| Text.HtmlEscapeInjective | backend/auth/dependecies.py:21 | two different usernames never sanitise to the same one |
| Text.LStrip | backend/auth/dependecies.py:22 | the result is a suffix, everything removed is whitespace, and it does not start with whitespace |
| Text.RStrip | backend/auth/dependecies.py:22 | the result is a prefix, everything removed is whitespace, and it does not end with whitespace |
| Text.StripTrims | backend/auth/dependecies.py:22 | a stripped string starts and ends with non-whitespace |
| Text.StripOfTrimmed | backend/auth/dependecies.py:22 | stripping an already trimmed string changes nothing |
| Text.Lower | backend/auth/dependecies.py:22 | same length, each character lower-cased where it is an upper-case letter |
| Text.NormalizeEmail | backend/auth/dependecies.py:22 | the normalised address is trimmed and has no upper-case letter |
| Text.NormalizeEmailIdempotent | backend/auth/dependecies.py:22 | normalising an address twice is the same as once |
| Schemas.PasswordPolicyIsRegex | backend/auth/schemas.py:13 | with `\w` and `\d` read as ASCII classes, a password matches `PASSWORD_REGEX` iff, apart from one optional final newline, it is at least 8 characters of the class with a letter, a digit and a special character |
| Schemas.RegexImpliesMinLength | backend/auth/schemas.py:13 | every password the regex accepts has at least 8 characters |
| Schemas.LowerCaseOnlyAccepted | backend/auth/schemas.py:13-24 | "abcd1234!" matches, so no upper-case letter is required despite the error message |
| Schemas.TrailingNewlineAccepted | backend/auth/schemas.py:13 | a password with one trailing newline matches |
| Schemas.WithoutFinalNewline | backend/auth/schemas.py:13 | the text `$` compares against drops at most one final character |
| Schemas.LoginSkipsRegex | backend/auth/schemas.py:50-52 | a login body is accepted with a password the signup rules refuse |
| Schemas.ResetFieldsIndependent | backend/auth/schemas.py:71-79 | the reset form accepts two different valid passwords; equality is not checked there |
| Schemas.UserCreateModel.constructor | backend/auth/schemas.py:15-18 | the form holds the fields given |
| Models.RemoveTimezone | backend/db/models.py:11-13 | the result is naive, keeps the wall-clock fields, and a naive input comes back unchanged |
| Models.RemoveTimezoneIdempotent | backend/db/models.py:11-13 | removing the zone twice is the same as once |
| Models.UserJson | backend/db/models.py:16-28 | the serialised user has every column but password_hash |
| Models.DeleteBookCascade | backend/db/models.py:51 | the book goes and exactly the reviews of that book go with it; users stay |
| Models.DeleteUserCascade | backend/db/models.py:30-31 | the user goes, with their books, the reviews of those books, and their own reviews |
| Models.DeleteBookKeepsIntegrity | backend/db/models.py:51-64 | the book cascade leaves no review pointing at a missing book |
| Models.DeleteUserKeepsIntegrity | backend/db/models.py:30-64 | the user cascade leaves no dangling foreign key |
| Database.ReplaceUserById | backend/auth/routes.py:107 | the row with the updated user's id is overwritten, every other row is kept, and the set of ids is unchanged |
| Database.Session.CreateUser | backend/auth/routes.py:72 | exactly one user is appended with role "user", unverified and without names; the other tables and integrity are kept |
| Database.Session.ReplaceUser | backend/auth/routes.py:107 | the users table becomes the one with that row replaced; integrity is kept |
| Guards.RedisKey | backend/auth/dependecies.py:50 | a string jti is looked up as itself, an int as its decimal text; other values raise |
| Guards.KindCheck | backend/auth/dependecies.py:74-89 | an empty payload passes both kind checks; a non-empty one passes the access check iff its refresh is falsy or missing, and the refresh check iff it is truthy |
| Guards.Authenticate | backend/auth/dependecies.py:29-60 | a missing credential is a 401; a decode error comes back unchanged; the 403 of `token_valid` never occurs; a success returns the decoded payload unchanged, with a jti that is not revoked and the right kind; every failure is a 401, a 403 or a 500 |
| Guards.AccessAndRefreshExclusive | backend/auth/dependecies.py:74-89 | no credential passes both the access bearer and the refresh bearer |
| Guards.RevokedTokenRefused | backend/auth/dependecies.py:50-56 | a live token whose jti is revoked is a 403 "HAS BEEN REVOKED" for either bearer |
| Guards.IssuedTokenKind | backend/auth/dependecies.py:74-89 | an unrevoked live token passes the bearer of its refresh flag with its claims intact, and is a 403 at the other |
| Guards.CurrentUserFromClaims | backend/auth/dependecies.py:96-106 | a falsy user claim is a 401 "Invalid token format" and a truthy non-dict one an uncaught error; within a dict, a falsy email is a 401 "Email missing in token", a truthy non-string one an uncaught error, and a non-empty string email gives exactly the lookup by it, possibly none |
| Guards.CurrentUser | backend/auth/dependecies.py:92-106 | the access bearer runs first and its failure comes back unchanged; otherwise the result is the lookup above |
| Guards.CurrentUserMatchesToken | backend/auth/dependecies.py:96-106 | the user a request is served for has exactly the email its access token names |
| Guards.RoleCheck | backend/auth/dependecies.py:113-128 | a pass iff the stored user exists, is verified and has a role in the allowed list; an unverified user is a 403 before the role is considered; a wrong role is a 403; a missing user raises |
| Guards.RoleCheckMonotone | backend/auth/dependecies.py:123-124 | widening the allowed roles never refuses a user the narrower list let in |
| Guards.SanitizeInput | backend/auth/dependecies.py:19-23 | the username is escaped and the email normalised in place; the password is untouched |
| Guards.SanitizedFormProperties | backend/auth/dependecies.py:21-22 | the cleaned email is a fixed point of normalisation; the cleaned username has no raw markup and determines the original |
| AuthRoutes.MakeLink | backend/auth/routes.py:74 | the link signs `{"email": email, "exp": 86400}` |
| AuthRoutes.LinkNamesEmail | backend/auth/routes.py:95-98 | for a day, the link decodes to data whose email is the signed-up address |
| AuthRoutes.AppendedUserFound | backend/auth/routes.py:64-72 | a user appended under a new address is the one found by that address |
| AuthRoutes.CreateUserAccount | backend/auth/routes.py:58-90 | an invalid body is a 422 and a known email a 403, both with the tables unchanged; otherwise the signup succeeds, and exactly one unverified "user" is appended under a fresh id, found by its email, whose hash verifies exactly the given password, and the link signs `{email, exp}` |
| AuthRoutes.VerifyUserAccount | backend/auth/routes.py:93-115 | an unreadable link is a 400; a link whose email is falsy is the 500 "Error occured during verification", one whose email is another truthy value an uncaught error; a non-empty address no user has is a 404 and one a user has succeeds; every failure leaves the tables unchanged; on success the user the link names is rewritten with only is_verified set to true |
| AuthRoutes.LoginUser | backend/auth/routes.py:118-143 | as written: an unknown username is a 403; a wrong password for a known user raises; otherwise the access and refresh tokens are issued, signed with the server's key, under two jtis never issued before, and is_verified is never consulted |
| AuthRoutes.IssueAccessToken | backend/auth/routes.py:131 | the access token carries email, user_uid and role for an hour, is signed with the server's key, and has a new jti |
| AuthRoutes.IssueRefreshToken | backend/auth/routes.py:134 | the refresh token carries email and user_uid for two days with refresh set, is signed with the server's key, and has a new jti |
| AuthRoutes.LoginTokensPassGuards | backend/auth/routes.py:129-140 | until the access token expires and while neither jti is revoked, login's access token passes the access bearer and its refresh token the refresh bearer, claims intact |
| AuthRoutes.LoginUserIntended | backend/auth/routes.py:118-143 | corrected: an unknown username or a wrong password is a 403; tokens are issued iff the password verifies, signed with the server's key under two new jtis |
| AuthRoutes.GetNewAccessToken | backend/auth/routes.py:146-154 | refresh-bearer failures come back unchanged; with one clock reading per request the 400 never occurs; the new token is a non-refresh token with the default lifetime and the refresh token's user claim, is signed with the server's key under a jti never issued before, and decodes at once |
| AuthRoutes.GetMe | backend/auth/routes.py:157-159 | the profile is returned iff the current user exists, is verified and is an admin or a user |
| AuthRoutes.RevokeToken | backend/auth/routes.py:162-170 | bearer failures change nothing; on success exactly the presented jti is added to the registry, after which the same token is a 403 "HAS BEEN REVOKED" |
| AuthRoutes.PasswordResetRequest | backend/auth/routes.py:173-193 | the reply is the same fixed message for every address, and the link signs `{email, exp}` |
| AuthRoutes.ResetAccountPassword | backend/auth/routes.py:195-222 | a mismatch is raised with status 200 before the link is read; an unreadable link is a 400; a link whose email is falsy is the 500 "Error occured during password reset", another truthy non-string value an uncaught error; a non-empty address no user has is a 404 and one a user has succeeds; every failure leaves the tables unchanged; on success only the password hash of the named user changes, to one that verifies exactly the new password |
| BookService.InsertDescSorted | backend/books/service.py:11 | inserting into a newest-first sequence keeps it newest-first |
| BookService.InsertDescPermutes | backend/books/service.py:11 | inserting adds exactly that book and loses none |
| BookService.OwnedBy | backend/books/service.py:76 | exactly the books whose owner is the given user |
| BookService.GetAllBooks | backend/books/service.py:9-16 | a failed read is a 500; otherwise every book, newest first, as a permutation of the table |
| BookService.GetUserBooks | backend/books/service.py:74-81 | a failed read is a 500; otherwise exactly the user's books, newest first |
| BookService.GetBook | backend/books/service.py:18-27 | the book with that id, or a 500 for a failed read or a missing book (the 404 is re-raised as a 500) |
| BookService.CreateBook | backend/books/service.py:29-40 | success iff the database is healthy and the owner column is null or names a user; a refused commit leaves the tables unchanged; otherwise one book with the body's fields, the owner and a fresh id is appended |
| BookService.AddBookKeepsIntegrity | backend/db/models.py:37-47 | a book with a fresh id whose owner is null or exists keeps integrity and uses one more id |
| BookService.SetAllThenEmit | backend/books/service.py:47-48 | one more item after a prefix is one more `setattr` |
| BookService.SetAllAssigned | backend/books/service.py:45-48 | the `setattr` loop over the sent fields gives the patched book: each sent value replaces the old one, and every other field is kept |
| BookService.AnyNullAssigned | backend/books/service.py:45-50 | the loop meets a null exactly when the body sends one |
| BookService.SetAttrs | backend/books/service.py:47-48 | the loop leaves the book as the items say, and reports whether one was null |
| BookService.EmptyPatchChangesNothing | backend/books/service.py:45-48 | a body with no field sent changes nothing |
| BookService.PatchIdempotent | backend/books/service.py:45-48 | sending the same update twice is the same as once |
| BookService.PatchKeepsIdentity | backend/books/service.py:45-48 | an update never changes the id, the owner or the timestamps |
| BookService.ReplaceBookById | backend/books/service.py:50 | the row with the updated book's id is overwritten and the others kept |
| BookService.ReplaceBookKeepsIntegrity | backend/books/service.py:50 | overwriting a book with the same id and owner keeps integrity |
| BookService.UpdateBook | backend/books/service.py:42-58 | a failed read or a missing book is a 500; a sent null or a refused commit is a 500 and rolls back; otherwise only that book changes, to the patched one |
| BookService.DeleteBook | backend/books/service.py:60-71 | a failed read or a missing book is a 500; a refused commit rolls back; otherwise the book and its reviews are gone and nothing else changes |
| BookRoutes.RolePolicy | backend/books/routes.py:14-15 | delete admits only verified admins; the other routes admit verified admins and users |
| BookRoutes.Authorize | backend/books/routes.py:17-21 | the access bearer, then `get_current_user`, then the route's role checker; the bearer's payload is handed on; every failure is a 401, a 403 or a 500 |
| BookRoutes.AuthorizedUser | backend/books/routes.py:14-15 | an authorised request belongs to a stored, verified user with the token's email, and an admin on delete |
| BookRoutes.ListBooksRoute | backend/books/routes.py:17-23 | guard failures come back unchanged; past the guards a failed read is the 500 "Failed to fetch books", otherwise every book, newest first |
| BookRoutes.GetUserBookRoute | backend/books/routes.py:26-33 | guard failures come back unchanged; past the guards a failed read is the 500 "Failed to fetch books", otherwise the user's books, newest first |
| BookRoutes.CreateBooksRoute | backend/books/routes.py:37-45 | guard failures come back unchanged and leave the tables unchanged; past the guards, a user claim without user_uid is an uncaught KeyError, and otherwise the book is created iff the database is healthy and the user_uid is null or names a user, any other outcome being the service's 500; a refused commit leaves the tables unchanged, and an accepted one appends one book and touches no other table, even when the refresh after it fails; a created book is owned by the token's user_uid claim and appended |
| BookRoutes.GetBookRoute | backend/books/routes.py:53-65 | the book is returned iff the guards pass, the read works and the book exists; the route's 404 never occurs |
| BookRoutes.DeleteBookRouteHandler | backend/books/routes.py:68-80 | only an authorised admin deletes; the route's 404 never occurs; success applies the book cascade |
| BookRoutes.UpdateBookRouteHandler | backend/books/routes.py:83-96 | any authorised user patches any book, and only the books table changes; the route's 404 never occurs |
| ReviewService.ParseReviewBody | backend/reviews/schemas.py:17-20 | the body validates iff the rating lies in 1..5; a missing created_at takes the request time |
| ReviewService.AddReviewKeepsIntegrity | backend/db/models.py:61-64 | a review with a fresh id whose user and book exist keeps integrity and uses one more id |
| ReviewService.AddReviewToBook | backend/reviews/service.py:14-46 | the book is read before the user; a missing book is the 500 of `get_book`, a missing user a 404, a failed commit a 500, all with the tables unchanged; on success exactly one review is appended with the body's rating and text and links to the found user and book |
| ReviewRoutes.CurrentUserHasAddress | backend/reviews/routes.py:21-26 | the lookup by the current user's email finds a user with that email |
| ReviewRoutes.AddReviewRoute | backend/reviews/routes.py:13-28 | `get_current_user` failures come first, then a 422 for a bad rating; a token naming no stored user raises; no role check; the 404 "User not found" never occurs; the review is attributed to the stored user with the current user's email |

## Left out

- Cryptography: bcrypt, the JWT signature and the itsdangerous HMAC are abstract values
  that record what they sign. The cost of forging them is not modelled.
- Passwords.GeneratePassHash: `VerifyPass` is exact equality of passwords. bcrypt reads
  only the first 72 bytes of a password, while the schemas admit up to 100 characters, so in
  the source two passwords sharing their first 72 bytes verify against one hash (or the
  library refuses the longer one, depending on its version). For such a password
  `AuthRoutes.LoginUser` answers with its wrong-password crash where the source logs in.
- Mail and task queues: mail delivery, the Celery task, the `/send_mail` route and
  background tasks are I/O. The verification and reset links are returned as token values,
  not as URLs with the configured domain.
- Plumbing: the logging middleware, configuration loading, engine and session wiring,
  application routing prefixes and the migration scripts.
- `EmailStr` and `validate_email`: the address check is a foreign validator. A body with a
  malformed address is treated as valid.
- `UserService` (`auth/service.py`) is not part of this model. Lookups by email or username
  return the first matching row. `create_user` and `update_user` are modelled as
  `Database.Session.CreateUser` and `Database.Session.ReplaceUser`.
- Time:
  - times are integer seconds, although the source's `exp` is a float timestamp;
  - the local-time conversion in the refresh handler is reduced to comparing `exp` with the
    current time;
  - the application clock (`now`) and the Redis server's clock are separate inputs;
  - one clock reading per request: the source reads the clock again in each `jwt.decode`
    (the bearer's own, then the one inside `token_valid`) and in the refresh handler's
    `datetime.now()`. A token whose `exp` falls between two readings reaches the bearer's
    403 or the refresh handler's 400, which the model treats as unreachable.
- Identifiers are decimal strings from a counter. Parsing a `uuid.UUID` path parameter, and
  the 422 for a malformed one, are not modelled.
- `HTTPBearer`'s own refusal of a missing or non-Bearer Authorization header (it has
  `auto_error=True`) is not modelled. A missing credential takes the explicit 401 branch.
- Repeated dependencies: the access bearer, which a route's role checker runs a second
  time, is modelled once. Both runs read the same state and give the same answer.
- Error details of the 500s keep their fixed prefix and drop the exception text.
  Structured details (`{"error", "resolution"}`) are reduced to their message.
- Response shaping is not modelled: `response_model` filtering, status codes of successful
  replies (201, 204), cookies and their flags, and `session.refresh`.
- Json values hold no floats or lists.
- Text.Lower: lower-cases ASCII letters only. Python's `str.lower` also maps other Unicode
  letters.
- Schemas.IsWordChar: `\w` is taken as ASCII letters, digits and underscore. Python's
  Unicode `\w` also accepts other letters.
- Schemas.IsAsciiDigit: `\d` is taken as ASCII 0-9. Python's Unicode `\d` also accepts other
  decimal digits (category Nd), so a password such as "abcdefg" followed by an Arabic-Indic
  digit and "!" matches `PASSWORD_REGEX` in the source but not in the model, and
  `Schemas.PasswordPolicyIsRegex` is stated for the ASCII classes only.
- BookService.UpdateBook: a null sent for a column is modelled as a failed commit (every
  such column is NOT NULL), not as a null stored in the row.
- ReviewService.AddReviewToBook: the source does not roll back after a failed commit. The
  model still leaves the tables unchanged, since a failed commit writes nothing.
- Concurrency: async scheduling and concurrent requests are not modelled. Each handler runs
  alone against the state it is given.

## Findings

| source | as written | input that shows it | evidently intended | confidence | as-written member | corrected member |
|---|---|---|---|---|---|---|
| backend/auth/routes.py:127-139 | for a known user with a wrong password, `access_token` is never assigned, but the response reads it; the `UnboundLocalError` becomes a 500 | an existing username with a wrong password of valid length | answer 403 "invalid username & password", as for an unknown username | not executed | AuthRoutes.LoginUser | AuthRoutes.LoginUserIntended |
