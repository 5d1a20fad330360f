# Short-URL service: a verified model of the request core

This project models the request logic of a URL-shortening service written in
Rust (axum + sqlx over SQLite). The service maps short alphanumeric codes to
target URLs, redirects visitors and logs each visit. The model covers:

- **allocation** (`shorten_url`): validation, the custom-code conflict check,
  the bounded retry loop over generated candidates, the single insert and the
  short URL built on `http://localhost:3000/`;
- **redirect resolution** (`redirect_url`): lookup, the strict expiry test,
  best-effort client metadata (first `x-forwarded-for` hop, user agent) and the
  appended visit;
- **statistics** (`get_stats`): lookup without an expiry test, the 100 newest
  visits newest-first, and the full visit count;
- the **lookup guard** of `generate_qr`;
- the **error type** (`AppError`): the conversion from a storage error and
  the mapping of each variant to an HTTP status and a body `{"error": message}`.

The backend is the class `Store.Database`. Its `urls` field is a map from
code to row, and its `visits` field is the append-only visit log. Each SQL
statement the handlers issue is one method of the class. The field `outage`
stands for an unreachable backend. While it is set, every statement fails
with that error, which the handler turns into `DatabaseError` (the `?`
operator). Each handler is a method over a `Database`. Beside it stands a
pure function that specifies it (`Allocate`, `Resolve`, `StatsOf`), and
lemmas state what those functions promise.

Inputs the source takes from its environment are parameters:
- the clock (`now`, and `recordedAt` for the moment the visit is written);
- the random code generator (`candidates`, consumed from the front);
- the URL syntax check of the `validator` crate (`isUrl`).

Timestamps are integers.

Where the code and its own annotations or comments differ, the model follows the code:

- An expired code gives 404 `UrlNotFound`, never 410, although the route's
  OpenAPI annotation (`src/handlers.rs:99`) lists a 410 response.
- The retry loop makes up to 11 existence checks (the first candidate and
  10 retries, `attempts > 10`).
- Exhausting the retries is an `InternalServerError`, not a conflict.
- A duplicate-key failure at insert time is returned as `DatabaseError`.
  It is not turned into a conflict or a retry.
- The statistics response carries `original_url`, as the handler sets it.
  The response struct in `src/models.rs` declares no such field.

## Model

| member | source | states |
|---|---|---|
| `Errors.FromDbError` | src/error.rs:17-21 | every storage error becomes `DatabaseError` carrying that error |
| `Errors.StatusAndMessage` | src/error.rs:25-37 | each variant gets one of 400, 404, 409 and 500; 500 exactly for `DatabaseError` and `InternalServerError`, with the fixed message "Database error" or "Internal server error" and not the payload |
| `Errors.IntoResponse` | src/error.rs:23-45 | the body has exactly the key "error"; 500 exactly for `DatabaseError` and `InternalServerError`, with the fixed messages "Database error" / "Internal server error"; 404 "URL not found", 400 "Invalid URL" and 409 "Short code already exists" each exactly for their variant |
| `Errors.ResponseHidesPayload` | src/error.rs:26-36 | the response of any error equals that of the error with its payload removed, so no storage detail or internal message reaches the client |
| `Errors.DatabaseErrorsIndistinguishable` | src/error.rs:26-29 | two storage failures with any details give identical responses |
| `Errors.InternalErrorsIndistinguishable` | src/error.rs:33-36 | two internal errors with any messages give identical responses |
| `Errors.ResponseDeterminesRedactedVariant` | src/error.rs:25-37 | equal responses imply the same variant, so the mapping distinguishes all five variants |
| `ClientInfo.ToStr` | src/handlers.rs:127 | a header value is readable as text exactly when every byte is visible ASCII or tab, and the text has the same characters |
| `ClientInfo.ToStrRoundTrip` | src/handlers.rs:132 | visible-ASCII text sent as a header value is read back unchanged |
| `ClientInfo.HeaderText` | src/handlers.rs:125-132 | a header's text is present exactly when the header is present and readable |
| `ClientInfo.TrimStart` | src/handlers.rs:133 | the result is a suffix of the input, the dropped prefix is all whitespace, and the result does not start with whitespace |
| `ClientInfo.TrimEnd` | src/handlers.rs:133 | the result is a prefix of the input, the dropped suffix is all whitespace, and the result does not end with whitespace |
| `ClientInfo.Trim` | src/handlers.rs:133 | the result neither starts nor ends with whitespace (what it is for every padded input is `TrimPadded`) |
| `ClientInfo.TrimPadded` | src/handlers.rs:133 | a trimmed text padded on both sides with whitespace trims back to exactly that text |
| `ClientInfo.FirstSegment` | src/handlers.rs:133 | the result is the comma-free prefix that ends at the first comma or at the end of the input |
| `ClientInfo.FirstHop` | src/handlers.rs:133 | the first hop contains no comma and is trimmed |
| `ClientInfo.ClientIp` | src/handlers.rs:130-134 | "unknown" when `x-forwarded-for` is missing or unreadable, otherwise the first hop of its text; never contains a comma, always trimmed |
| `ClientInfo.UserAgent` | src/handlers.rs:125-128 | present exactly when the `user-agent` header is present and all visible ASCII; then it has one character per byte, each character's code being that byte |
| `ClientInfo.TrimStartAfterWhitespace` | src/handlers.rs:133 | whitespace followed by a part that does not start with whitespace trims to that part |
| `ClientInfo.TrimEndBeforeWhitespace` | src/handlers.rs:133 | a part that does not end with whitespace, followed by whitespace, trims to that part |
| `ClientInfo.FirstSegmentOfPrefix` | src/handlers.rs:133 | a comma-free text followed by nothing or by a comma is its own first segment |
| `ClientInfo.FirstHopOfChain` | src/handlers.rs:130-134 | for a chain `pre + ip + post + rest` (whitespace padding, a trimmed comma-free address, then nothing or a comma and more hops) the recorded address is exactly `ip` |
| `Stats.VisitsFor` | src/handlers.rs:175 | `WHERE url_id = ?`: the selection is no longer than the log (its contents are stated by `VisitsForSelects`) |
| `Stats.VisitsForSelects` | src/handlers.rs:175-180 | the selection of a code holds each of its visits as often as the log does, and no visit of another code |
| `Stats.VisitsForAppend` | src/handlers.rs:180 | selecting from two concatenated logs is the concatenation of the selections |
| `Stats.Insert` | src/handlers.rs:175 | inserting into a newest-first sequence keeps it newest-first and adds exactly that visit |
| `Stats.SortNewestFirst` | src/handlers.rs:175 | the result is newest-first and a permutation of its input |
| `Stats.Recent` | src/handlers.rs:175 | `ORDER BY visited_at DESC LIMIT n`: at most `limit` visits (their contents, order and length are stated by `RecentWindowShape` and `RecentHoldsNewest`) |
| `Stats.Window` | src/handlers.rs:175 | the reported list has one entry per visit of `Recent`, in the same order, each the visit's address, agent and time |
| `Stats.CountFor` | src/handlers.rs:180 | `COUNT(*) ... WHERE url_id = ?`: never more than the log's length (its change on each write is `CountAfterAppend`) |
| `Stats.RecentWindowShape` | src/handlers.rs:175-178 | the window holds min(limit, count) visits, all of the code, in non-increasing `visited_at` order |
| `Stats.RecentHoldsNewest` | src/handlers.rs:175-178 | the window is taken from the code's visits, and every visit of the code that is left out is no newer than any visit shown |
| `Stats.PrefixIsNewest` | src/handlers.rs:175 | a prefix of a newest-first sequence is newest-first, and what it leaves out is no newer than anything it holds |
| `Stats.OnlyVisitsOfCode` | src/handlers.rs:175 | every sorted, selected visit belongs to the requested code |
| `Stats.WindowIsBoundedAndOrdered` | src/handlers.rs:175-178 | the reported list has at most `limit` entries and no more than the count, all of them when the count is within the limit, in non-increasing `visited_at` order |
| `Stats.CountAfterAppend` | src/handlers.rs:180-183 | appending a visit raises the count of its own code by one and leaves every other code's count unchanged |
| `Store.Database.Exists` | src/handlers.rs:39-42 | the existence query answers whether the code is stored, and counts one more check; during an outage it fails with the backend's error |
| `Store.Database.FindUrl` | src/handlers.rs:107-110 | the lookup yields the stored row exactly when the code is stored; during an outage it fails |
| `Store.Database.InsertUrl` | src/handlers.rs:68-74 | the insert adds the row under its id when the id is new, rejects a duplicate id, fails during an outage, and keeps every row under its own id |
| `Store.Database.InsertVisit` | src/handlers.rs:137-143 | the visit is appended to the log, or nothing changes during an outage |
| `Store.Database.RecentVisits` | src/handlers.rs:175-178 | the query yields the reported window of the code's newest visits |
| `Store.Database.CountVisits` | src/handlers.rs:180-183 | the query yields the number of the code's visits |
| `Handlers.ShortUrl` | src/handlers.rs:77 | the short URL is `http://localhost:3000/` followed by exactly the code |
| `Handlers.ShortUrlRoundTrip` | src/handlers.rs:77 | the code is recovered from its short URL, so distinct codes have distinct short URLs |
| `Handlers.FirstFree` | src/handlers.rs:50-64 | the result is the first of the 11 candidates that is not a stored code, with all earlier ones stored; it is absent exactly when all 11 are stored |
| `Handlers.Allocate` | src/handlers.rs:33-64 | an invalid payload gives `InvalidUrl`; a stored custom code gives `CodeAlreadyExists`, a new one is used as is; without a custom code the result fails exactly when all 11 candidates are stored, then with `InternalServerError("Failed to generate unique code")`, and otherwise is one of them; every allocated code is absent beforehand; a generated code is the first of the 11 candidates that is not stored, every earlier one being stored |
| `Handlers.ShortenUrl` | src/handlers.rs:29-88 | on the outcome of `Allocate` (or `DatabaseError` during an outage) exactly one row (code, url, now, expires_at) is inserted on success and nothing on failure; the response echoes the code, URL, short URL and expiry; visits are untouched; at most 11 existence checks are made |
| `Handlers.FirstFreeIgnoresLaterCandidates` | src/handlers.rs:50-64 | only the first 11 candidates influence the search |
| `Handlers.AllocateIgnoresLaterCandidates` | src/handlers.rs:50-64 | the allocation outcome depends on the first 11 candidates only |
| `Handlers.StuckGeneratorExhausts` | src/handlers.rs:57-63 | a generator that repeats one stored code ends in `InternalServerError("Failed to generate unique code")` |
| `Handlers.GeneratedCodeShape` | src/handlers.rs:52 | when every candidate has 6 alphanumeric characters, so does an allocated generated code |
| `Handlers.Resolve` | src/handlers.rs:107-121 | redirect succeeds exactly when the code is stored and has no expiry or `now <= expires_at`, with its original URL as target; otherwise `UrlNotFound` |
| `Handlers.VisitOf` | src/handlers.rs:125-141 | the visit carries the looked-up code, the extracted address, the user agent and the time of the write |
| `Handlers.RedirectUrl` | src/handlers.rs:102-147 | the result is `Resolve`'s (or `DatabaseError` during an outage); a success appends exactly that one visit, a failure appends none; the urls table is not written |
| `Handlers.ShortenThenResolve` | src/handlers.rs:107-121 | after a successful allocation the new code redirects to the submitted URL while it is live |
| `Handlers.Validates` | src/handlers.rs:33-35 | `payload.validate()` with the rules of `src/models.rs:9-14`: the URL passes the URL check and a custom code has 3 to 20 characters (a predicate; its effect is stated by `Allocate` and `CustomCodeLengthRule`) |
| `Handlers.CustomCodeLengthRule` | src/handlers.rs:33-35 | with a valid URL, a custom code is refused with `InvalidUrl` exactly when it has fewer than 3 or more than 20 characters, whatever is stored |
| `Handlers.CustomCodeTwice` | src/handlers.rs:37-46 | a new custom code is allocated as is, and allocating it again conflicts |
| `Handlers.StatsOf` | src/handlers.rs:164-190 | not found exactly when the code is absent, whatever its expiry; otherwise the code, its target, the count of all its visits, and at most 100 of them newest first, all of them when there are at most 100; the list is exactly `Window` of the code with limit 100, so by `RecentWindowShape` and `RecentHoldsNewest` it holds only that code's visits and the newest ones |
| `Handlers.GetStats` | src/handlers.rs:160-191 | the result is `StatsOf` of the current tables (or `DatabaseError` during an outage), and nothing is written |
| `Handlers.ExpiredStillHasStats` | src/handlers.rs:164-173 | an expired code no longer redirects, but its statistics are still returned |
| `Handlers.RedirectCountsOnce` | src/handlers.rs:136-144 | a successful redirect's visit raises that code's total by one and no other code's |
| `Handlers.StatsCapBeyondLimit` | src/handlers.rs:175-183 | with more than 100 visits exactly 100 are listed while the total is the full count |
| `Handlers.QrTarget` | src/handlers.rs:208-219 | an absent code is not found; a stored one yields its short URL as the text to encode |

## Left out

- Router wiring, the OpenAPI documentation, static files, CORS and tracing
  layers, and socket binding (src/main.rs) are framework plumbing. So are
  pool construction, the `DATABASE_URL` read and migrations (src/db.rs).
- The server-side `tracing::error!` logging of the storage error and of the
  internal message (`src/error.rs:27`, `src/error.rs:34`) is not modelled.
  It is output only, and the client-visible response is modelled in full.
- QR rendering through the `qrcode` crate is a foreign library, and so is its
  failure "QR generation failed". Only the lookup guard is modelled.
- The random code generator is a supplied sequence of candidates. Its
  uniform distribution is not modelled. At least 11 candidates are required
  because the real generator never runs dry.
- The URL syntax check of the `validator` crate is the parameter `isUrl`.
  The length rule for custom codes (3 to 20 characters) is modelled.
- Concurrency is not modelled: the spawned task, concurrent requests and the
  check-then-insert race between allocators. The visit is written at once,
  and the write's result is discarded as in the source. Two consequences:
  a visit lost to a failed background write is not modelled, and neither is
  an insert that collides after a negative existence check.
- Backend failures are all-or-nothing: `outage` is fixed for the life of a
  `Database`. A statement that fails after an earlier one in the same
  request succeeded is not modelled.
- The tie-break among visits with equal `visited_at` is unspecified in SQL.
  The model keeps log order among equal timestamps. So the exact lists
  promised by `Store.Database.RecentVisits`, `Handlers.StatsOf` and
  `Handlers.GetStats` (equal to `Window`) fix one tie-break that SQL does not
  guarantee. The window lemmas (`RecentWindowShape`, `RecentHoldsNewest`,
  `WindowIsBoundedAndOrdered`) state order, length, membership and "newest"
  properties that hold for any tie-break.
- `Handlers.StatsOf`: `total_visits` is an unbounded count, not a 64-bit
  integer, because the log cannot reach 2^63 rows.
- Only the first value of a repeated header is modelled. That is the value
  `HeaderMap::get` returns.
- Timestamps are integers in one unit. Time zones and the textual date
  format are not modelled.
