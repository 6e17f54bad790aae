# Mock question-answering API: a verified model of its core

The repository is a mock backend for an ESG question-answering service. It
takes a `(question, company)` submission, stores it as a job, moves the job
from `queued` to `running` to `done` or `failed` on two timers, and keeps
the ten most recent answers. It also lists those answers, pushes job updates
over WebSocket, limits calls to a simulated upstream to ten per minute per
client address, and summarises uploaded company CSV files. All of this is in
`mock-api/server.js`. This Dafny project models that logic and proves what
the code promises about it.

Layout, one module per file:

- `common.dfy` (`Common`): shared types. `Present` is JavaScript truthiness of an optional string field.
- `jobs.dfy` (`Jobs`): the job record and its status, the answer record, the invariant every stored job keeps (`Consistent`), and the GET projection.
- `uuid.dfy` (`Uuid`): the job-id shape check (the UUID version 4 text form of RFC 9562 section 5.4), with a group-by-group reference definition.
- `history.dfy` (`History`): the bounded answer history (insert at the front, pop once past ten) and its listing.
- `lifecycle.dfy` (`Lifecycle`): the two timer callbacks of `simulateAIMLProcessing` as a state machine over the job store and the history.
- `subscribers.dfy` (`Subscribers`): the `wsConnections` map, authentication, close and broadcast, as class `Hub`.
- `jobservice.dfy` (`JobService`): the question-and-answer routes and the timer callbacks over the live store, as class `JobStore`.
- `ratelimit.dfy` (`RateLimit`): `checkAIMLRateLimit` as class `RateLimiter`, and the admission part of POST /aiml/answer.
- `upload.dfy` (`CompanyUpload`): the admin check and the CSV summary of the upload route.

Modelling choices:

- Each `setTimeout` callback is an event: `QueueTimerFired(id, at)` or `ProcessingTimerFired(id, outcome, at)`.
  - The random failure draw, the generated answer and the confidence arrive in `outcome`.
  - The clock reading arrives in `at`.
  - The environment may fire any event for any id. The guard in each callback makes a stray firing a no-op, and the lemmas hold for every order of events.
- Clock readings are millisecond integers. An ISO timestamp string is never empty, so a stored timestamp is always truthy.
- `uuidv4()` is the `freshId` parameter with no precondition. A collision would overwrite the stored job, as `jobs.set` does.
- Token verification is the `userId`/`verdict`/`role` parameters.
- In-place updates of a job object are updates of its entry in the `jobs` map. The source never mutates a result object after it is stored, so the history holds result values.
- `wsConnections` is a sequence of entries, not a map. A JavaScript Map iterates in insertion order, `set` on a present key keeps that key's position, and the close handler deletes the FIRST matching entry, so order matters. `AsMap` gives the map the entries stand for.
- `line.trim()` is falsy when the line consists only of characters `String.prototype.trim` removes: the ECMAScript WhiteSpace and LineTerminator characters, listed in `CompanyUpload.IsTrimmed`.
- `readyState === OPEN` is membership in `Hub.open`. Everything sent is appended to `Hub.outbox`.

Behaviour of the code worth knowing:

- A broadcast reaches only connections whose socket is open.
- POST /api/v1/qa requires a non-empty `company` as well as a `question`.
- The question-length check counts the string's length. There is no separate emptiness rule beyond truthiness, and the later `question.length === 0` check can never fire for a string (`CheckSubmission`).
- The id check ignores letter case, but the lookup uses the id exactly as given. An upper-case spelling of a stored lower-case id passes the check and then gets 404 (`CaseVariantNotFound`).

## Model

| member | source | states |
|---|---|---|
| `Jobs.Consistent` | mock-api/server.js:112-127 | a consistent job never carries both a result and an error, and a queued or running one carries neither, nor a completion time |
| `Jobs.NewJob` | mock-api/server.js:249-259 | a submitted job is queued, has the caller's user id, question, company and submission time, no result, error or completion time, and is consistent |
| `Jobs.Project` | mock-api/server.js:286-302 | the view always has jobId, status and submittedAt; it has completedAt and result exactly when the job has them, and error exactly when the job's error is non-empty |
| `Jobs.ViewMatchesStatus` | mock-api/server.js:286-302 | for a consistent job the view shows a result and completedAt exactly when done, an error exactly when failed, never both |
| `Uuid.IsUuidV4` | mock-api/server.js:275-276 | an accepted id has 36 characters, dashes at 8, 13, 18 and 23, version digit 4, a variant digit 8, 9, a or b, and hex digits everywhere else |
| `Uuid.FormatAccepted` | mock-api/server.js:275-276 | every string the pattern describes (8-4-4-4-12 hex, version 4, variant 8/9/a/b, either case) passes the check |
| `Uuid.AcceptedIsFormatted` | mock-api/server.js:275-276 | every string that passes the check splits into well-formed groups that rebuild it |
| `Uuid.AcceptsExactlyThePattern` | mock-api/server.js:275-278 | the check accepts a string if and only if it has the pattern's form |
| `Uuid.CaseInsensitive` | mock-api/server.js:275 | the match is case-insensitive: two strings equal up to ASCII letter case are both accepted or both rejected |
| `Uuid.UpperCaseAccepted` | mock-api/server.js:275 | both spellings of `123e4567-e89b-4d3a-a456-426614174000`, lower and upper case, pass |
| `Uuid.Rejections` | mock-api/server.js:275-278 | "not-a-uuid", an id with version digit `1`, one with variant digit `c` and a 37-character string are rejected |
| `History.Insert` | mock-api/server.js:129-132 | the new record comes first, the length grows by one until it reaches ten, and behind the new record is the old history in order, cut to fit |
| `History.InsertFront` | mock-api/server.js:128-132 | after an insert the new record is first, the rest is the previous history less its last entry if it held ten, and the length is at most ten |
| `History.InsertEvictsOldest` | mock-api/server.js:129-132 | inserting into a full history drops exactly its oldest entry |
| `History.Listing` | mock-api/server.js:307-311 | the listing has at most ten entries, is the whole history when it holds ten or fewer, and its first ten otherwise, in order |
| `History.InsertAllKeepsNewest` | mock-api/server.js:129-132 | after any run of inserts the history is the ten newest records, newest first, then what remains of the old history: eviction is by insertion order only |
| `Lifecycle.StartProcessing` | mock-api/server.js:103-107 | the first callback keeps the ids and the history and touches no other job; it changes something exactly when the job is queued, and then only its status, to running |
| `Lifecycle.FinishProcessing` | mock-api/server.js:110-136 | the second callback keeps the ids and touches no other job; it changes something exactly when the job is running, leaving it done or failed under the same id; the history is unchanged or has the job's new result inserted |
| `Lifecycle.Apply` | mock-api/server.js:103-136 | a timer firing keeps the ids, touches only the job it names, and a change moves that job exactly one step along queued, running, done or failed |
| `Lifecycle.Notice` | mock-api/server.js:105-134 | an update is broadcast exactly when the callback's guard holds for the named job, and it carries that job's id, the firing time and a status past queued |
| `Lifecycle.ApplyGuarded` | mock-api/server.js:103-112 | a timer changes only the job it names and keeps the set of ids; the first changes a job only if queued, to running; the second only if running; otherwise the store is unchanged |
| `Lifecycle.FinishPayloads` | mock-api/server.js:114-132 | on timeout the job is failed with the fixed message and no result or completion time; on success it is done with completion time and a result echoing its question and company, which is also inserted into the history |
| `Lifecycle.ApplyPreservesInvariant` | mock-api/server.js:103-138 | every timer keeps each job filed under its own id and consistent (result iff done, error iff failed) and the history at most ten long |
| `Lifecycle.ApplyMonotone` | mock-api/server.js:103-136 | a timer never moves a job back, moves it at most one step, and never changes a done or failed job |
| `Lifecycle.NoticeExactlyOnChange` | mock-api/server.js:105-134 | a broadcast is made exactly when a timer changes the job table, and it carries the job's id, new status and the time |
| `Lifecycle.RunMonotone` | mock-api/server.js:98-139 | over any sequence of timer events no job's status goes back and a terminal job stays exactly as it was |
| `Lifecycle.RunPreservesInvariant` | mock-api/server.js:98-139 | over any sequence of timer events the store invariant holds |
| `Lifecycle.RunningComesFromQueued` | mock-api/server.js:103-107 | a job becomes running only through its first timer and only from queued |
| `Lifecycle.HappyPath` | mock-api/server.js:103-136 | a fresh queued job with both timers fired in order and success drawn is done, its result names its question and company, that result heads the history, and other jobs are untouched |
| `Subscribers.Assign` | mock-api/server.js:399 | `set` makes the user present, keeps every other user, stores the new connection and no connection from elsewhere, and adds an entry only for a new user |
| `Subscribers.RemoveFirst` | mock-api/server.js:410-417 | the close loop removes exactly one entry when some entry holds the connection and none otherwise, and adds no user or connection |
| `Subscribers.Fanout` | mock-api/server.js:160-171 | no more copies than entries, each carrying the message and addressed to an open connection |
| `Subscribers.AssignSpec` | mock-api/server.js:399 | registering a user sets its connection and replaces any earlier one, other users keep theirs, and users stay distinct |
| `Subscribers.RemoveFirstSpec` | mock-api/server.js:410-417 | closing leaves the map unchanged when the connection is not stored, otherwise deletes exactly one user whose value is the closing connection |
| `Subscribers.FanoutSpec` | mock-api/server.js:160-171 | a broadcast sends the same message to every stored connection that is open and to no other |
| `Subscribers.FanoutCount` | mock-api/server.js:167-171 | a broadcast sends one copy per map entry whose connection is open |
| `Subscribers.ReplacedConnectionStopsReceiving` | mock-api/server.js:399 | after a user re-authenticates on a new connection, when no other user holds the old connection, broadcasts no longer reach the old one and reach the new one if it is open |
| `Subscribers.Hub.constructor` | mock-api/server.js:62 | no subscribers, no open sockets, nothing sent |
| `Subscribers.Hub.Connect` | mock-api/server.js:390 | a new connection is open and is held by no subscriber entry yet; nothing else changes |
| `Subscribers.Hub.Receive` | mock-api/server.js:393-408 | an auth message with a token registers the user on a good token and acknowledges success, so the subscriber map afterwards sends that user to this connection; on a bad token it acknowledges an error without closing; any other message changes nothing |
| `Subscribers.Hub.Close` | mock-api/server.js:410-419 | the socket is no longer open and the first entry holding it is deleted |
| `Subscribers.Hub.Broadcast` | mock-api/server.js:160-172 | the outbox grows by one copy of the update per open stored connection, in map order; the map is unchanged |
| `JobService.CheckSubmission` | mock-api/server.js:237-247 | a body is accepted iff question and company are non-empty and the question has at most 10000 characters; otherwise it gets 400 for a missing field or 413 for a long question, and the empty-question 400 never fires |
| `JobService.GetJob` | mock-api/server.js:271-305 | a malformed id gives 400 whatever is stored; a well-formed absent id gives 404; otherwise the job's projection |
| `JobService.GetShowsConsistentJob` | mock-api/server.js:280-304 | for a store keeping the invariant, a found job is shown under its id with a result exactly when done and an error exactly when failed |
| `JobService.CaseVariantNotFound` | mock-api/server.js:275-284 | an upper-case spelling of a stored id passes the shape check but is not found |
| `JobService.JobStore.constructor` | mock-api/server.js:41-42 | the store and history start empty and keep the invariant |
| `JobService.JobStore.Submit` | mock-api/server.js:234-269 | a rejected body stores nothing; an accepted one adds exactly one queued job under the fresh id with the caller's user id, changes no other entry, and replies queued |
| `JobService.JobStore.Get` | mock-api/server.js:271-305 | the GET reply over the live store: 400 exactly for a malformed id, 404 exactly for a well-formed id with no stored job, and a found job is its projection |
| `JobService.JobStore.ListAnswers` | mock-api/server.js:307-312 | at most ten answers; the whole history when the store keeps its invariant |
| `JobService.JobStore.FireQueueTimer` | mock-api/server.js:103-108 | the store becomes the first timer's transition of the old store, the invariant is kept, and the running update goes to every open subscriber exactly when the job changed |
| `JobService.JobStore.FireProcessingTimer` | mock-api/server.js:110-136 | the store becomes the second timer's transition of the old store (history insert included), the invariant is kept, and the terminal update goes to every open subscriber exactly when the job changed |
| `JobService.SubmitAndComplete` | mock-api/server.js:234-312 | submit, then both timers with success: the reply says queued, the job reads done with its answer, the listing is that answer, and the subscribed socket got the auth ack and both updates |
| `RateLimit.Recent` | mock-api/server.js:183 | the filter keeps no more than it is given and only timestamps after the window start |
| `RateLimit.RecentCount` | mock-api/server.js:183 | the filter keeps exactly as many timestamps as lie after the window start |
| `RateLimit.RecentMultiset` | mock-api/server.js:183 | the filter keeps every timestamp after the window start, as often as it occurs, and nothing else |
| `RateLimit.Admits` | mock-api/server.js:183-187 | an address with fewer than ten stored timestamps is always admitted |
| `RateLimit.AdmitsIffFewerThanLimit` | mock-api/server.js:183-187 | a call is refused exactly when ten or more stored timestamps are later than now minus 60000 ms |
| `RateLimit.AdmittedWindowBounded` | mock-api/server.js:183-190 | after an admitted call the address holds at most ten timestamps, each inside the window or equal to now |
| `RateLimit.RateLimiter.constructor` | mock-api/server.js:46 | no address has an entry |
| `RateLimit.RateLimiter.Check` | mock-api/server.js:174-192 | admitted iff fewer than ten recent timestamps; on refusal the address's list is unchanged (an empty one is created if there was none); on admission it becomes the pruned list plus now; other addresses are unchanged |
| `RateLimit.AimlAnswer` | mock-api/server.js:359-373 | a body without question or company gets 400 and uses no slot; otherwise 429 exactly when the limiter refuses, and the address's stored list becomes the limiter's new list for it (pruned plus now when admitted, unchanged when refused) |
| `RateLimit.BurstThenRecover` | mock-api/server.js:174-192 | ten calls within one second are admitted, an eleventh in the same minute is refused, and a call after the minute is admitted |
| `CompanyUpload.Split` | mock-api/server.js:321 | splitting on a character gives at least one piece and no piece contains the separator |
| `CompanyUpload.JoinSplit` | mock-api/server.js:321 | joining the pieces of a split with the separator gives back the text |
| `CompanyUpload.BlankExamples` | mock-api/server.js:321 | for `line.trim()` truthiness: the empty line, spaces and tabs, a lone `\r`, and the no-break space with the byte-order mark are blank; a line holding a letter or a comma is not |
| `CompanyUpload.DropBlank` | mock-api/server.js:321 | what remains after dropping blank lines has no blank line |
| `CompanyUpload.DropBlankMultiset` | mock-api/server.js:321 | the filter keeps every non-blank line as often as it occurs and drops every blank one |
| `CompanyUpload.DropBlankFirst` | mock-api/server.js:321 | the filter keeps order: its first element is the first non-blank line, followed by the filter of what comes after it |
| `CompanyUpload.Lines` | mock-api/server.js:321 | every line kept is non-blank and contains no newline |
| `CompanyUpload.Lower` | mock-api/server.js:327 | `toLowerCase()` as ASCII folding: the length is kept, `A`-`Z` become `a`-`z`, every other character is unchanged, and no upper-case ASCII letter remains |
| `CompanyUpload.Includes` | mock-api/server.js:328 | `includes`: a word included in a text fits in it, and the empty word is always included |
| `CompanyUpload.IncludesIff` | mock-api/server.js:328 | `includes` holds exactly when the word occurs in the text at some offset |
| `CompanyUpload.IncludesInContext` | mock-api/server.js:328 | a text includes a word written in it, whatever stands before and after |
| `CompanyUpload.HeaderOk` | mock-api/server.js:327-328 | a header passes exactly when its lower-cased text contains `companyname`, `isin` and `sector`, each at some offset; a passing header is at least as long as `companyname` |
| `CompanyUpload.HeaderIgnoresCase` | mock-api/server.js:327 | two headers that differ only in letter case pass or fail together |
| `CompanyUpload.ColumnsInOrderPass` | mock-api/server.js:327-328 | a header whose lower-cased text has the three names in order passes whatever text, other columns included, stands before, between and after them |
| `CompanyUpload.Summarize` | mock-api/server.js:320-347 | no non-blank line gives 400 empty; a header lacking companyname, isin or sector (any case) gives 400; otherwise the row count is the non-blank lines minus the header, with the one ISIN error exactly when there are more than five rows |
| `CompanyUpload.TrailingNewlineIgnored` | mock-api/server.js:320-336 | a trailing newline does not change the summary |
| `CompanyUpload.HeaderExample` | mock-api/server.js:327-328 | the header `CompanyName,ISIN,Sector` passes |
| `CompanyUpload.HeaderWithExtraColumns` | mock-api/server.js:327-328 | the header `id,CompanyName,Country,ISIN,Sector,Notes` passes |
| `CompanyUpload.Upload` | mock-api/server.js:315-318 | a non-admin gets 403 before anything else, an admin without a file 400, and an admin with a file the summary |

## Left out

- HTTP and framework glue: Express routing, the cors, JSON and static middleware, `server.listen`, SIGINT handling, and the 500 and 404 handlers (mock-api/server.js:10-21, 422-454). These are framework calls.
- Login, logout and health (mock-api/server.js:197-231): the credential lookup and token issuance belong to the JWT layer.
- `generateToken` and `verifyToken` (mock-api/server.js:65-89). These are the JWT library. A verified token is represented by the identity or role it carries, so the 401 replies are not modelled.
- multer's 2 MB size limit and CSV MIME filter, and the 413/415 replies (mock-api/server.js:50-59, 348-356). These are library behaviour. `Buffer.toString` decoding is not modelled; the upload is taken as text.
- Timer delays (1-3 s, 2-7 s) and every `Math.random` draw. Delays become the order of events and draws become parameters. Which timers are pending is not tracked; the guards make any firing safe.
- `generateAnswer` and `generateConfidence` (mock-api/server.js:141-158). Random templates and floating-point rounding: the answer text and confidence are opaque inputs, so the 5% out-of-range confidence of 1.2 is not modelled.
- POST /aiml/answer after the rate check: the random 500 and the delayed reply (mock-api/server.js:375-386).
- Subscribers.Hub.Connect: each socket is a connection never seen before (`c !in used`), as a new `ws` object always is; a connection identifier is never reused.
- The `CLOSING` ready state: a socket is open until its close event and closed after it. A broadcast in between, which the source skips, is modelled as sent.
- WebSocket transport, JSON serialisation of statuses and messages, JSON parsing of inbound messages and send failures. An inbound message is either unparseable or an object with optional string `type` and `token`. JSON values of other types in those fields are not modelled.
- `simulateAIMLProcessing`'s initial `if (!job) return;` (mock-api/server.js:99-100). It is only called right after the job is stored, so it never fires.
- CompanyUpload.Lower: folds ASCII letters only. Outside ASCII, `toLowerCase` maps into ASCII letters only the Kelvin sign (to `k`) and the capital I with dot above (to `i` plus a combining dot). No column name contains `k`, and in none is an `i` followed by a combining dot, so the header check decides every header as the source does; for other uses of the lowered text the two differ.
- `console.log` output.
- JobService.CheckSubmission: lengths count Unicode scalar values, while JavaScript's `length` counts UTF-16 code units, so a question with characters outside the Basic Multilingual Plane that is over the limit in JavaScript can be within it here. Body fields of non-string JSON types are not modelled.
- JobService.JobStore.FireProcessingTimer: one clock reading `at` is used for `completedAt`, `result.timestamp` and the broadcast timestamp. The source reads the clock three times within one callback.
- Test and load scripts (perf/, submission/, automation-starters/). These are HTTP clients with no logic of their own.
