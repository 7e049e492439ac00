# Casting agency API: movie endpoints and their authorization gate

This project models the core of a small Flask/SQLAlchemy service that manages
movies behind Auth0 bearer tokens. It has three parts:

- **Auth** (`auth.dfy`). This is the bearer-token gate that wraps every movie
  route:
  - extract the token from the `Authorization` header;
  - choose the signing key whose `kid` matches the token's header, from the
    identity provider's key set;
  - let the JOSE library verify and decode the token;
  - check that the decoded payload grants the route's permission.

  Every `AuthError` the gate raises becomes a 401 abort carrying the error's
  dict. The key-selection loop is a method proved equal to a function that
  picks the last matching key.
- **Models** (`models.dfy`). The `movies` table is a class whose fields are a
  map from id to row and the id sequence's next value. Its `insert`,
  `update` and `delete` methods change those fields in place. A commit that
  raises leaves the fields as they were. The file also holds `format` and the
  database URL configuration, which rewrites a legacy `postgres://` URL to
  `postgresql://`.
- **App** (`app.dfy`). This covers the five movie handlers, the permission
  each route requires, and the error handlers that turn an `abort(status)`
  into a JSON body. Each handler is a method proved against a pure function
  that gives its response and the table it leaves behind. Lemmas about those
  functions relate one request to the next: a created movie can be read back,
  a deleted one reads 404, and a failed request changes nothing.

`text.dfy` models the Python string builtins the core relies on:
- `str.split()` with no argument, over exactly the code points
  `str.isspace()` accepts;
- `lower()` on ASCII letters;
- `startswith`;
- `replace(old, new, 1)`.

`wrappers.dfy` holds `Option` and `Result`. `json.dfy` holds the JSON values
the handlers return.

The `AuthError`s of the gate carry 400, 401 or 403 (`auth.py:74`, `auth.py:80`,
`auth.py:150`, `auth.py:154`), but `requires_auth` aborts every one of them
with 401 and passes the error dict on (`auth.py:175-176`). The model follows
the gate:
- A token that lacks the route's permission gets 401. The test at
  `test_app.py:194` expects exactly that.
- A payload without a `permissions` claim, a key that cannot be found and an
  unparsable token also get 401, although their `AuthError`s carry 400.
- A 401 body's `message` is the error dict `{code, description}`, and its
  `error` field is 401.

`add_movie` and `update_movie` test only `is None`
(`app.py:137`, `app.py:166`): a missing title or release date is rejected,
and an empty title is accepted.

## Model

| member | source | states |
|---|---|---|
| Text.IsSpace | auth.py:45 | the characters `split()` treats as whitespace: space, tab, newline and carriage return are, letters and digits are not |
| Text.Split | auth.py:45 | every part of `split()` is a non-empty run of non-whitespace characters |
| Text.SplitReassembles | auth.py:45 | a string is its whitespace gaps interleaved with its `split()` parts, and only the first and last gaps may be empty, so splitting loses nothing but whitespace |
| Text.SplitInterleave | auth.py:45 | splitting words joined by whitespace gaps gives back exactly those words |
| Text.Lower | auth.py:52 | `lower()` keeps the length and lowers each ASCII capital |
| Text.LowerIsBearer | auth.py:52 | a part lowers to `bearer` exactly when it has six letters, each being that letter of `bearer` in either case |
| Text.StartsWith | models.py:21 | `startswith` holds exactly when the prefix occurs at position 0, and then the string is the prefix followed by the rest |
| Text.ReplaceFirst | models.py:22 | `replace(old, new, 1)` either leaves the string as it was or replaces one occurrence, changing the length by the difference of the two lengths |
| Text.ReplaceFirstAtLeftmost | models.py:22 | `replace(old, new, 1)` replaces the leftmost occurrence and keeps everything around it |
| Text.ReplaceFirstWithoutOccurrence | models.py:22 | `replace(old, new, 1)` leaves a string without an occurrence unchanged |
| Auth.GetTokenAuthHeader | auth.py:32-58 | an absent or empty header fails with `authorization_header_missing`; a header that does not split into exactly two parts fails with "Header invalid"; two parts whose first does not lower to `bearer` fail with the "must start with Bearer" error; success exactly otherwise, and the token is the second part, which holds no whitespace; every failure carries 401 |
| Auth.BearerHeaderAccepted | auth.py:45-58 | any mix of cases of `bearer`, with any whitespace around and between, yields the token |
| Auth.AcceptedHeaderShape | auth.py:45-58 | an accepted header is a `bearer` word and the token between whitespace gaps, so nothing else was in it |
| Auth.SchemeOnlyHeaderRejected | auth.py:45-51 | a scheme with no token after it, whatever whitespace surrounds it, is one part and fails with "Header invalid" |
| Auth.BlankTokenHeaderRejected | auth.py:45-51 | the header `"Bearer "`, which the test suite sends with a blank token (test_app.py:9), fails with "Header invalid" |
| Auth.ThreePartHeaderRejected | auth.py:47-51 | a header of three words fails with "Header invalid" / 401 |
| Auth.CheckPermissions | auth.py:60-81 | true exactly when the `permissions` claim is present and holds the permission; a missing claim gives `invalid_claims`/400 before membership is looked at; a missing permission gives `unauthorized`/403 |
| Auth.LastMatch | auth.py:113-121 | no position exactly when no `kid` matches; otherwise a matching position after which no key matches |
| Auth.LastMatchingKey | auth.py:113-121 | no key exactly when no `kid` matches; otherwise a key of the set with that `kid` after which no key matches |
| Auth.SelectKey | auth.py:106-121 | the loop that overwrites `rsa_key` ends with the last key whose `kid` matches |
| Auth.VerifyDecodeJwt | auth.py:83-154 | a failing key-set fetch or header parse escapes as a non-`AuthError` exception; a header without `kid` raises "Authorization malformed."; a `kid` no key carries raises "Unable to find the appropriate key."; otherwise the last key matching the `kid` decides: a decoded token passes with its payload, an expired one raises `token_expired`, bad claims raise `invalid_claims`, anything else raises "Unable to parse authentication token."; a payload only ever comes from decoding with that key |
| Auth.MissingKidRejected | auth.py:106-111 | a header without `kid` gives "Authorization malformed." / 401 |
| Auth.UnknownKidRejected | auth.py:151-154 | a `kid` no key carries gives "Unable to find the appropriate key." / 400 |
| Auth.DuplicateKidUsesLastKey | auth.py:113-150 | with two keys of the same `kid`, the outcome, whatever decoding gives, is that of a key set holding only the second key; a successful decode with it yields its payload |
| Auth.RequiresAuth | auth.py:156-181 | the handler runs on the decoded payload exactly when extraction, verification and the permission check all pass; an `AuthError` raised by extraction, verification or the permission check aborts with 401 carrying exactly that error; other exceptions escape only from verification |
| Auth.GateIgnoresHandlerOnFailure | auth.py:170-178 | a request the gate stops has the same outcome whatever the wrapped handler is |
| Auth.MissingHeaderAborts | auth.py:38-43 | no header aborts with 401 and `authorization_header_missing`, whatever the permission |
| Auth.MissingPermissionAborts401 | auth.py:171-176 | a verified token lacking the permission aborts with 401, although its `AuthError` carries 403 |
| Models.NormalizeDatabaseUrl | models.py:21-22 | a `postgres://` URL gets `postgresql://` in place of that prefix with the rest unchanged; any other URL is unchanged; the result never starts with `postgres://` |
| Models.NormalizeIdempotent | models.py:21-22 | rewriting twice is rewriting once |
| Models.LegacyAndModernAgree | models.py:17-22 | a legacy URL and its `postgresql://` spelling end up identical |
| Models.DatabasePath | models.py:14-22 | in the test environment the test URL is taken unrewritten; otherwise an unset `DATABASE_URL` raises and a set one is rewritten |
| Models.TableState.Get | app.py:112 | `Movie.query.get(id)` finds a movie exactly when the id is stored, and it carries that id and its row |
| Models.Format | models.py:90-95 | the record has exactly the keys `id`, `title` and `release_date`, holding the movie's id, title and release date |
| Models.FormatInjective | models.py:90-95 | the record carries the movie's id, title and release date: two movies format alike only when equal |
| Models.Inserted | models.py:52-67 | an insert adds one row under a fresh id, the count grows by one, and no existing row changes |
| Models.Updated | models.py:74-75 | an update stores the movie's current values under its id; keys, count and other rows are unchanged |
| Models.Deleted | models.py:82-84 | a delete removes exactly that row; the count drops by one and other rows are untouched |
| Models.MovieTable.constructor | models.py:49-54 | a new table is empty and its ids start at 1 |
| Models.MovieTable.Get | models.py:49-58 | `query.get(id)` raises when the query fails and otherwise finds a movie exactly when the id is stored, with its row |
| Models.MovieTable.All | models.py:49-58 | `query.all()` raises when the query fails and otherwise lists every stored movie once with its row |
| Models.MovieTable.Insert | models.py:65-67 | a committed insert moves the table to `Inserted` and returns the movie under the old next id; a failed commit changes nothing |
| Models.MovieTable.Update | models.py:74-75 | a committed update moves the table to `Updated`; a failed commit changes nothing |
| Models.MovieTable.Delete | models.py:82-84 | a committed delete moves the table to `Deleted`; a failed commit changes nothing |
| App.ErrorResponse | app.py:208-260 | every error body is `success: false` with `error` equal to the status; 400 "bad request", 401 the abort's description, 403 "forbidden", 404 "resource not found", 422 "unprocessable", 500 "internal server error" |
| App.ErrorResponseIdentifiesError | app.py:208-260 | distinct aborts give distinct error responses |
| App.SuccessResponse | app.py:99-102 | a handler's success body is `success: true` plus its one payload key |
| App.ErrorDict | auth.py:175-176 | the dict a 401 abort carries holds the `AuthError`'s code and description |
| App.RequiredPermission | app.py:91-92 | both GET routes need `get:movies`, POST `post:movies`, PATCH `patch:movies`, DELETE `delete:movies` |
| App.FormatAll | app.py:101 | the listing formats every movie in order |
| App.MovieByIdResponse | app.py:106-123 | a failed lookup gives 422, an unknown id 404, a stored id 200 with that movie's record |
| App.AddMovieOutcome | app.py:125-147 | a missing title or release date gives 400, a failed commit 422, both with the table unchanged; otherwise 201 with the input echoed under the next id and the table `Inserted` |
| App.UpdateMovieOutcome | app.py:149-180 | in order: failed lookup 500, unknown id 404 whatever the body, missing field 400, failed commit 422, all with the table unchanged; otherwise 200 with both fields replaced in that row only |
| App.DeleteMovieOutcome | app.py:182-203 | failed lookup 500, unknown id 404, failed commit 500, all with the table unchanged; otherwise 200 echoing the id with exactly that row removed |
| App.DistinctIdsCount | app.py:97 | a listing without repeated ids has as many entries as distinct ids |
| App.ListingHasEveryRowOnce | app.py:97-101 | a listing of the table has exactly as many entries as the table has rows |
| App.DeleteChangesListingLength | app.py:182-203 | listings taken before and after a successful DELETE differ by exactly one movie, and by none after a failed one |
| App.CreatedMovieIsShown | app.py:125-147 | after a successful POST, GET of the new id shows the record the POST returned |
| App.UpdatedMovieIsShown | app.py:149-180 | after a successful PATCH, GET of that id shows the record the PATCH returned |
| App.DeletedMovieIsGone | app.py:182-203 | after a successful DELETE, GET and a second DELETE of that id both give 404 |
| App.PatchWithCurrentValuesKeepsTable | app.py:169-175 | a PATCH sending the current values leaves the table as it was |
| App.CreateThenDeleteRestoresRows | app.py:125-203 | creating a movie and deleting it restores every row; only the id sequence has moved on |
| App.Gate | app.py:92 | `@requires_auth` with the route's permission lets a request through only with a payload granting that permission, aborts only with 401, and aborts a request without a header with `authorization_header_missing` |
| App.Refusal | auth.py:171-176 | a stopped request gets 401 with the `AuthError`'s dict, or 500 when another exception escaped |
| App.MissingTokenRefused | auth.py:38-43 | a request without a header is refused with 401 on every route |
| App.ReadOnlyTokenCannotWrite | app.py:125-203 | a token granting only `get:movies` passes both GET routes and is refused with 401 on POST, PATCH and DELETE |
| App.FailedRequestChangesNothing | app.py:91-203 | on every route, a response that does not report success leaves the table as it was |
| App.GetMovies | app.py:91-104 | the listing handler answers 500 on a failed query, otherwise 200 with every movie once |
| App.GetMovieById | app.py:106-123 | the handler's response is `MovieByIdResponse` of the current table |
| App.AddMovie | app.py:125-147 | the handler's response and new table are `AddMovieOutcome` of the old table |
| App.UpdateMovie | app.py:149-180 | the handler's response and new table are `UpdateMovieOutcome` of the old table |
| App.DeleteMovie | app.py:182-203 | the handler's response and new table are `DeleteMovieOutcome` of the old table |
| App.Handle | app.py:91-203 | a request the gate stops gets the gate's refusal and never reaches the table; one it lets through is served by its route's handler |

## Left out

- Fetching the key set over the network and the JOSE calls (`get_unverified_header`, `decode`, with RS256 signature, audience, issuer and expiry checks) are parameters of an identity-provider value. A fetch or header parse that raises is a non-`AuthError` exception, answered with 500.
- Key-set entries lacking one of `kid`, `kty`, `use`, `n`, `e` (a `KeyError`), and a `permissions` claim that is not a list, are not modelled. Keys and payloads are well-formed records.
- `lower()` is modelled on ASCII letters only. That is exact for the comparison with `bearer`, since no other character lowers to one of its letters.
- The OAuth login, callback and logout routes, `jwtcontrol` and `requires_signed_in` are not part of this model. They are session and redirect plumbing.
- Flask app construction, CORS, the `after_request` headers, templates and the `handle_auth_error` handler are not modelled. The gate never lets an `AuthError` escape to that handler.
- SQLAlchemy sessions, transactions and SQL are not modelled. A query or commit that raises is a boolean fault, and a failed commit leaves the table as it was. An insert whose commit fails is modelled as consuming no id, and the session is not left in a failed state.
- Release dates are opaque values. Parsing them and rendering them as GMT strings depend on the database and the JSON encoder.
- Request bodies that are not JSON objects, and field values that are not strings, are not modelled.
- Models.MovieTable.All: lists movies in ascending id order. Its contract promises only "every row once", because `query.all()` has no `ORDER BY`.
- The `Actor` model and `manage.py` are not part of this model.
