# Interview session core, modelled in Dafny

This project models the per-owner session object of an interview tool. A
session owns a small SQL store with two tables:

- `interviews`: a header per interview, with title, skills, status and two timestamps;
- `messages`: the transcript rows.

The session writes every new message to that store first. It then sends the
stored message, as a `{...message, type: "message"}` frame, to every open
socket the host reports for the session.

The model follows the source file by file:

- `types.dfy` (`Types`): the closed enumerations (skill, title, status,
  message role), each with its string encoding and an exact decoder, and the
  record shapes `Message`, `TranscriptEntry` and `InterviewData`.
- `errors.dfy` (`Errors`): the error codes, the `AppError` family with its
  HTTP status codes, `InterviewError` with its default status 500, and the
  store's DATABASE_ERROR wrapping.
- `sql_engine.dfy` (`SqlEngine`): the storage as a value. Each table is absent
  or a sequence of rows, and primary keys are unique. It also gives the
  meaning of each SQL statement the store sends: conditional table creation,
  the index, both inserts, the `ORDER BY createdAt DESC` list, and the
  LEFT JOIN with `json_group_array`.
- `database.dfy` (`Database`): `parseInterviewRecord` and the store class
  `InterviewDatabaseService`. Its writes are methods that change the storage
  field. A specification function describes each operation, and lemmas state
  what the list and single-interview reads return.
- `session.dfy` (`Session`): sockets as values, the broadcast loop, and the
  `Interview` class. It has the write-then-broadcast order and isolates a
  failure on one socket from the others.
- `routes.dfy` (`Routes`): the input guard of the create route. The handler
  runs the guard before it calls the session.
- `scenario.dfy` (`Scenario`): one interview and two messages, with two open
  viewers, a closed viewer and an open viewer whose `send` throws, traced
  end to end.

`crypto.randomUUID()` and `Date.now()` are parameters (`interviewId`, `now`).
The sockets returned by the host's `ctx.getWebSockets()` are a field of the
session, given to its constructor.

Where the declared TypeScript types and the code's runtime behaviour differ,
the model follows the code:

- Title, skills and status are stored as text. The casts to the enumerations
  are unchecked, and the create route lets any non-empty title through
  (`Routes.MembershipNotChecked`).
- `getInterview` returns transcript entries without `interviewId`, although
  the declared type is `Message[]` (`Types.TranscriptEntry`).
- The aggregate has no ORDER BY, so the read-back transcript is stated as a
  collection: each stored message of that interview appears exactly once.
  Append order is not claimed.
- No snapshot is pushed on connect. No connection registry, join, leave or
  pruning exists: `fetch` answers with a constant, and the `session` map is
  never used.
- Nothing checks that a message's interview exists. The foreign key names a
  table that does not exist.

## Model

| member | source | states |
|---|---|---|
| `Types.ParseSkill` | src/types.ts:12-18 | decoding a string gives a skill exactly when that skill's name is the string: the five names are distinct and round-trip |
| `Types.ParseTitle` | src/types.ts:20-28 | decoding gives a title exactly when that title's name is the string: the seven names are distinct and round-trip |
| `Types.ParseStatus` | src/types.ts:30-36 | decoding gives a status exactly when that status's name is the string: the five names are distinct and round-trip |
| `Types.ParseRole` | src/types.ts:38 | a string is a role exactly when it is "user", "assistant" or "system", and it decodes to the role of that name |
| `Types.EncodingsRoundTrip` | src/types.ts:12-38 | decode(encode(x)) == x for every skill, title, status and role |
| `Errors.CodeNamesDistinct` | src/errors.ts:1-6 | the four error codes are four distinct strings |
| `Errors.Name` | src/errors.ts:14-43 | the `name` is "InterviewError" exactly for an `InterviewError` and "AppError" exactly for a base `AppError` |
| `Errors.NameIdentifiesClass` | src/errors.ts:8-45 | two errors share a `name` exactly when they are instances of the same class |
| `Errors.NewAppError` | src/errors.ts:8-16 | an `AppError` keeps its message and status code, and is named "AppError" |
| `Errors.NewUnauthorizedError` | src/errors.ts:18-22 | status code 401, message kept, name "UnauthorizedError" |
| `Errors.NewBadRequestError` | src/errors.ts:24-28 | status code 400, message kept, name "BadRequestError" |
| `Errors.NewNotFoundError` | src/errors.ts:30-34 | status code 404, message kept, name "NotFoundError" |
| `Errors.NewInterviewError` | src/errors.ts:36-45 | keeps message and code; status code is the one given, or 500 when omitted |
| `Errors.StatusCodesByClass` | src/errors.ts:18-45 | the three subclasses have distinct 4xx codes; an `InterviewError` defaults to 500 |
| `Errors.DatabaseFailure` | src/services/InterviewDatabaseService.ts:65-71 | the store's rethrow is a DATABASE_ERROR `InterviewError` with status 500 whose message is the prefix followed by the cause's message |
| `SqlEngine.TableNames` | src/services/InterviewDatabaseService.ts:27-28 | the existing-table set names "interviews" / "messages" exactly when those tables exist |
| `SqlEngine.CreateInterviewsTable` | src/services/InterviewDatabaseService.ts:181-190 | afterwards the interviews table exists: a new one is empty, an existing one is untouched; the other table and index are unchanged |
| `SqlEngine.CreateMessagesTable` | src/services/InterviewDatabaseService.ts:192-201 | afterwards the messages table exists: a new one is empty, an existing one is untouched; the rest is unchanged |
| `SqlEngine.CreateMessagesIndex` | src/services/InterviewDatabaseService.ts:203-205 | the index statement fails exactly when there is no messages table; otherwise only the index flag changes |
| `SqlEngine.WithTables` | src/services/InterviewDatabaseService.ts:25-38 | after table creation both tables and the index exist, a table that was missing is empty, and primary-key uniqueness is kept |
| `SqlEngine.WithTablesIdempotent` | src/services/InterviewDatabaseService.ts:25-38 | creating the tables twice is the same as once; existing rows of either table are kept; ready storage is left unchanged |
| `SqlEngine.InsertInterview` | src/services/InterviewDatabaseService.ts:207-211 | the insert succeeds exactly when the table exists and the id is new; it then appends exactly that row and keeps keys unique |
| `SqlEngine.InsertMessage` | src/services/InterviewDatabaseService.ts:219-223 | succeeds exactly when the table exists and the message id is new (the interview need not exist); appends exactly that row and keeps keys unique |
| `SqlEngine.InsertByCreatedDesc` | src/services/InterviewDatabaseService.ts:216 | inserting a row into a newest-first list gives a newest-first list with that row added (as a multiset) |
| `SqlEngine.SortByCreatedDesc` | src/services/InterviewDatabaseService.ts:213-217 | `ORDER BY createdAt DESC` yields a permutation of the rows with `createdAt` non-increasing |
| `SqlEngine.SelectAllInterviews` | src/services/InterviewDatabaseService.ts:213-217 | the list query fails exactly when the interviews table is missing |
| `SqlEngine.TranscriptOf` | src/services/InterviewDatabaseService.ts:235-246 | the joined entries are exactly the projections of the message rows with that interview id |
| `SqlEngine.GroupArray` | src/services/InterviewDatabaseService.ts:233-244 | the aggregate is the single `null` exactly when the interview has no messages; otherwise it holds no `null` and has one element per transcript entry, position by position |
| `SqlEngine.SelectInterview` | src/services/InterviewDatabaseService.ts:225-249 | the join fails exactly when either table is missing |
| `SqlEngine.RowsWithId` | src/services/InterviewDatabaseService.ts:245-248 | the rows selected by id are exactly those with that key: none when the id is absent, at most one under unique keys |
| `Database.PresentEntries` | src/services/InterviewDatabaseService.ts:164-166 | filtering keeps every non-null aggregated entry, once per occurrence, and nothing else |
| `Database.PresentEntriesOfSome` | src/services/InterviewDatabaseService.ts:164-172 | filtering an aggregate without nulls gives back the entries unchanged |
| `Database.ParseInterviewRecord` | src/services/InterviewDatabaseService.ts:148-178 | rejects with DATABASE_ERROR "Invalid interview data in database" exactly when the id is empty or a timestamp is 0; otherwise copies the columns and keeps every non-null message, once per occurrence, and nothing else |
| `Database.ParseAll` | src/services/InterviewDatabaseService.ts:81 | mapping the parser succeeds exactly when every record parses, giving each record's parse in order; otherwise throws the invalid-record error |
| `Database.ParseListRecords` | src/services/InterviewDatabaseService.ts:81 | parsing list records succeeds exactly when every row is valid, and then yields each row's summary in order |
| `Database.AllInterviewsSpec` | src/services/InterviewDatabaseService.ts:75-90 | one entry per stored interview, `createdAt` non-increasing, every entry with no messages; fails exactly when some row is invalid, with the error rewrapped as "Failed to get all interviews: …" |
| `Database.TranscriptOfDistinct` | src/services/InterviewDatabaseService.ts:193-195 | with unique message keys the transcript holds every message at most once |
| `Database.InterviewByIdSpec` | src/services/InterviewDatabaseService.ts:92-111 | null exactly when no row has the id; a found interview has the row's columns and, as a collection, exactly that interview's messages, each once and without `interviewId`, empty when it has none; fails exactly when the row is invalid, rewrapped as "Failed to get interview: …" |
| `Database.CreateInterviewTransition` | src/services/InterviewDatabaseService.ts:49-73 | on success exactly one row is appended (given title and skills, status "created", createdAt == updatedAt == now) and its id returned, messages untouched; otherwise the store is unchanged and a "Failed to create interview: " DATABASE_ERROR is thrown |
| `Database.AddMessageTransition` | src/services/InterviewDatabaseService.ts:113-146 | on success exactly one message row is appended and the returned message equals the arguments plus the timestamp; otherwise the store is unchanged and a "Failed to add message: " DATABASE_ERROR is thrown |
| `Database.InterviewDatabaseService.constructor` | src/services/InterviewDatabaseService.ts:23 | the service wraps the given storage |
| `Database.AllInterviews` | src/services/InterviewDatabaseService.ts:75-90 | fails when the interviews table is missing; every failure is a "Failed to get all interviews: " DATABASE_ERROR; a success has one entry per stored row |
| `Database.InterviewById` | src/services/InterviewDatabaseService.ts:92-111 | fails when either table is missing; every failure is a "Failed to get interview: " DATABASE_ERROR; a found interview carries the requested id, which is stored |
| `Database.InterviewDatabaseService.CreateTables` | src/services/InterviewDatabaseService.ts:25-47 | creates only the missing tables, then the index; the new storage is `WithTables` of the old |
| `Database.InterviewDatabaseService.CreateInterview` | src/services/InterviewDatabaseService.ts:49-73 | its answer and new storage are those of `CreateInterviewTransition` |
| `Database.InterviewDatabaseService.GetAllInterviews` | src/services/InterviewDatabaseService.ts:75-90 | returns the list read of the current storage |
| `Database.InterviewDatabaseService.GetInterview` | src/services/InterviewDatabaseService.ts:92-111 | returns the single-interview read of the current storage |
| `Database.InterviewDatabaseService.AddMessage` | src/services/InterviewDatabaseService.ts:113-146 | its answer and new storage are those of `AddMessageTransition` |
| `Session.Envelope` | src/interview.ts:47-52 | the frame is `type: "message"` plus exactly the stored message's fields |
| `Session.Send` | src/interview.ts:59-65 | a socket receives the frame only when open and its send does not throw; a throw is swallowed and leaves the socket as it was |
| `Session.Broadcasted` | src/interview.ts:58-66 | every socket that accepts gets the frame exactly once; no other socket gets anything |
| `Session.BroadcastIsolation` | src/interview.ts:58-66 | what one socket gets does not depend on any other socket (closed or throwing) |
| `Session.BroadcastAllInOrder` | src/interview.ts:47-62 | across successive broadcasts an accepting socket's received frames grow by the payloads in issue order; others get nothing |
| `Session.Interview.constructor` | src/interview.ts:14-20 | the store is created over the storage and `createTables` has run before any method can be called |
| `Session.Interview.CreateInterview` | src/interview.ts:26-28 | delegates to the store's create; sockets unchanged |
| `Session.Interview.GetAllInterviews` | src/interview.ts:30-32 | delegates to the store's list read |
| `Session.Interview.AddMessage` | src/interview.ts:34-55 | the store write comes first; its answer is returned unchanged; on success the stored message's frame is broadcast, on failure no socket changes and the error propagates |
| `Session.Interview.Broadcast` | src/interview.ts:57-67 | the loop leaves the sockets as `Broadcasted` of the old ones |
| `Routes.ValidateInterviewInput` | src/routes/interview.ts:18-27 | rejects with `BadRequestError("Invalid input")` a missing or empty title, missing skills, non-array skills or an empty skills array; accepts everything else |
| `Routes.MembershipNotChecked` | src/routes/interview.ts:18-27 | a title and skill outside the enumerations pass the guard |
| `Routes.HandleCreateInterview` | src/routes/interview.ts:35-46 | rejected input throws the bad-request error and leaves the store unchanged; accepted input is stored and answered `{success: true, interviewId}` with the store's id, or the store's error is rethrown |
| `Scenario.Conversation` | src/interview.ts:34-66 | from empty storage: two healthy viewers receive both frames in append order, a closed viewer and one whose `send` throws receive none, and the read-back holds both messages, one each, in no promised order |
| `Scenario.StoreSteps` | src/services/InterviewDatabaseService.ts:49-146 | on fresh storage the tables are created empty, the interview row is stored under the given id, and each message is appended behind the previous one |
| `Scenario.ViewerSteps` | src/interview.ts:57-67 | two broadcasts give each healthy viewer both frames in order; the closed viewer is skipped and the open viewer whose `send` throws gets nothing |
| `Scenario.ReadBack` | src/services/InterviewDatabaseService.ts:92-111 | reading back an interview with two stored messages gives its columns and both messages, each once, as a multiset (no order is promised) |
| `Scenario.SelectTwoMessages` | src/services/InterviewDatabaseService.ts:225-249 | the join over one interview row and two of its messages yields that row once, with both messages as non-null aggregate elements |
| `Scenario.TwoMessageTranscript` | src/services/InterviewDatabaseService.ts:235-246 | two messages of the interview give a two-entry transcript, one projection each |
| `Scenario.PresentTwo` | src/services/InterviewDatabaseService.ts:164-166 | filtering two non-null elements keeps both |

## Left out

- SQL engine internals: the model states the meaning of each statement over abstract tables. `PRAGMA table_list` is reduced to the set of table names.
- `JSON.stringify`/`JSON.parse` of skills and of the aggregate: modelled as the identity.
- Engine error text: the model uses SQLite's wording. Contracts state only the store's prefix and code.
- The catch branch of `createTables`: it cannot be reached in the model, because its statements (`CREATE ... IF NOT EXISTS`, then the index once the table exists) cannot fail there.
- Storage I/O failures: failures other than a missing table or a duplicate key are not modelled.
- SQLite NULL keys: SQLite accepts a NULL value in a TEXT primary key. Not modelled, because every id the code binds is a string.
- Non-numeric timestamps: `Number(...)` yielding NaN is not modelled. Both timestamp columns are INTEGER NOT NULL, and only `Date.now()` is written to them.
- Ties under `ORDER BY createdAt DESC`: SQL leaves their order open. The model picks one order and claims only non-increasing `createdAt` and a permutation.
- Transcript order: nothing orders the aggregate, so no order is claimed.
- `crypto.randomUUID()` and `Date.now()`: foreign calls, passed in as parameters.
- `fetch` and the unused `session` map: the constant response is not modelled, and there is no snapshot, upgrade, join or leave.
- The host: the `DurableObject` base class, `ctx.getWebSockets()` (the sockets are a given field), `idFromName`/`get` routing and the one-instance-per-owner guarantee.
- Hono: routing, `ctx.req.json()` (including a body that is not JSON), `ctx.json` serialisation, the list route and the stream route.
- Title and skill shapes: a truthy title that is not a string, and skill elements that are not strings, are outside the modelled input shape.
- Auth: cookie login and the auth middleware (src/routes/auth.ts, src/middleware/auth.ts).
- `console.error` logging of a failed send.
- Session.Interview.AddMessage: requires a role other than "system", as its declared parameter type does.
