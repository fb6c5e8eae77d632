# A verified model of the in-memory workflow backend emulator

This project models, in Dafny, the engine that fakes a durable-workflow
backend inside the browser. It covers four parts:

- **Record service** (`Service`, `MessageQueue`, `Waits`). It keeps the
  runs, steps, events and hooks of one database and a small message queue
  with idempotent enqueue, claim-by-poll, ack, nack with a 5 s back-off,
  heartbeat and reclaiming of messages stuck for 30 s. `processWaits` turns
  elapsed `wait_created` events into `wait_completed` events plus
  continuation messages.
- **Store registry** (`Storage`). It holds the record types and creates one
  store per database name on first use.
- **Request gateway** (`Gateway`). `handleRequest` maps a method, path, query
  and `x-dbname` header to one service call, a 404, a pass-through, or a 500
  error envelope.
- **Socket broker** (`Broker`). It covers the `db:queue` subscription keys,
  subscribe and disconnect, the choice of an OPEN worker, one polling tick,
  and the emulated socket's `readyState`, `send` and `close`.

Two tester panels read runs back, and the model covers both (`Signals`,
`Chat`). The workflow tester finds which signals a run is waiting for and
builds the actor cards. The chat tester matches received signals to their
definitions and replays the event log into a user transcript and a
back-office transcript.

Every operation is a pure function from the current state to the new state
and the operation's result. A thrown error is a `Failure` result. Several
things become explicit parameters:

- the clock reading `now`;
- freshly generated ids;
- date-string parsing;
- the random draw that picks a worker.

A JavaScript `Map` is an insertion-ordered association list (`Table`), and
`undefined` is `None`. A request body is a record of the fields the service
reads. `idempotencyKey` stands for the body's `opts.idempotencyKey`.

Supporting modules:

- `Wrappers`: `Option` and `Result`.
- `Json`: payload values, `||`, property reads.
- `Text`: `split`, `startsWith`, `parseInt`, code-unit string order.
- `Seqs`: `find`, `findLastIndex`, `filter`, counting.
- `Sorting`: a stable comparator sort.

## Model

| member | source | states |
|---|---|---|
| Storage.StatusName | emulator/storage.ts:58 | A queue message's status is always written as one of `pending`, `processing`, `completed` or `failed`. |
| Storage.StatusNameRoundTrip | emulator/storage.ts:58 | Each of the four statuses reads back from its text, so the text names exactly one status. |
| Storage.EmptyStore | emulator/storage.ts:66-72 | A new store has empty runs, steps, hooks and streams maps and empty event and queue lists. |
| Storage.GetStore | emulator/storage.ts:77-82 | `get` returns the store registered under the name. Only a new name gets an empty store registered. Every other name keeps its store. |
| Storage.GetTwiceSameStore | emulator/storage.ts:77-82 | A second `get` of the same name returns the same store and registers nothing more. |
| Storage.Update | emulator/storage.ts:77-82 | Writing a changed store back under its name changes no other registration. |
| Storage.GetAfterUpdate | emulator/storage.ts:77-82 | A store changed in place is what the next `get` of that name returns. |
| Storage.UpdateUnchanged | emulator/storage.ts:77-82 | Writing back an unchanged store leaves the registry as it was. |
| Storage.Clear | emulator/storage.ts:84-86 | `clear` forgets every store. |
| Storage.GetAfterClear | emulator/storage.ts:84-86 | After `clear`, every `get` returns a fresh empty store. |
| Table.Set | emulator/service.ts:36 | `map.set`: the key reads back the new value and every other key reads as before. An existing key keeps its place; a new key goes last. |
| Table.SetNew | emulator/service.ts:36 | Setting a key not yet present appends exactly one entry at the end. |
| Table.SetExisting | emulator/service.ts:36 | Setting a key to the value it already holds changes nothing. |
| Table.SetUnique | emulator/service.ts:36 | `set` never makes a key occur twice. |
| Table.DeleteWhere | emulator/service.ts:57-59 | Deleting while iterating keeps exactly the entries whose value fails the test, in their original order. The `k`-th kept entry is the entry at the `k`-th position that fails the test. Nothing is added or reordered. |
| Json.Or | emulator/service.ts:147 | `a \|\| b` gives `a` when it is truthy and `b` otherwise, with `undefined`, `null`, `false`, `0` and `""` falsy. |
| Json.DateMillis | emulator/service.ts:288 | `new Date(v)` converts to a primitive first: an array is read as its comma-joined text and an object as `[object Object]`, both through the date parser. A number is milliseconds and a string goes through the parser. `null` is the epoch, and booleans are 0 or 1. `undefined` is invalid, and so is any time more than 8.64e15 ms from the epoch. |
| Json.TimeClip | emulator/service.ts:288 | A time is valid exactly when it lies within 8.64e15 ms of the epoch, and is then kept unchanged. |
| Json.SingletonArrayDate | emulator/service.ts:288 | An array holding one string is the same date as that string. |
| Service.OrString | emulator/service.ts:29 | `s \|\| d` for a string: `s` when it is present and non-empty, otherwise `d`. |
| Service.CreateRun | emulator/service.ts:24-38 | The new run is pending, with no start or completion time and both timestamps `now`. Defaults: deployment `default`, input `[]`, execution context `{}`. It is stored under its fresh id; no other run or table changes. |
| Service.GetRun | emulator/service.ts:40-45 | Succeeds exactly when the id is stored, returning that run. Otherwise it throws `Run <id> not found`. |
| Service.CreateThenGetRun | emulator/service.ts:24-45 | A created run reads back unchanged by its id. |
| Service.UpdateRun | emulator/service.ts:47-65 | An unknown id throws and changes nothing. `Object.assign` overwrites each field the body carries (status, output, error, input, execution context, deployment id, workflow name, run id) and keeps the rest. `running` stamps `startedAt` only when unset. A terminal status stamps `completedAt` every time. It also deletes exactly the hooks owned by the run and keeps the others in their order. Other runs and tables stay unchanged. |
| Service.UpdateRunAllowsBackwardTransition | emulator/service.ts:51-62 | No status order is enforced: a completed run can be set back to `running`, and it keeps its first `startedAt`. |
| Service.UpdateRunRestampsCompletedAt | emulator/service.ts:54-55 | A second terminal update re-stamps `completedAt` with its own, later time. |
| Service.TerminalRunHasNoHooks | emulator/service.ts:54-60 | Once a run is terminal, no token lookup returns one of its hooks. |
| Service.PageLimit | emulator/service.ts:80 | `parseInt(limit) \|\| 100` is never 0. A missing limit, one `parseInt` reads as `NaN`, and one that reads as 0 all give 100. Any other reading is the limit as parsed, negative values included. |
| Service.PageLimitOfDecimal | emulator/service.ts:80 | A limit written as a non-zero decimal integer is the page size, sign included. |
| Service.SliceEnd | emulator/service.ts:81 | `slice(0, limit)` keeps `min(limit, n)` runs for a non-negative limit. A negative limit drops runs from the end. |
| Service.RunIdDescendingIsTotal | emulator/service.ts:78 | The newest-first comparator is total and transitive, so the sort is well defined. |
| Service.MatchingRuns | emulator/service.ts:69-76 | Every run kept comes from the store and passes the `workflowName` and `status` filters that are in force. |
| Service.SortedMatches | emulator/service.ts:78 | The matching runs, permuted into descending run-id order. |
| Service.PageRuns | emulator/service.ts:78-81 | The page is sorted newest first and cut to the slice length. All its runs match and come from the store. |
| Service.PlaceInSortedMatches | emulator/service.ts:69-78 | Every stored run that passes the filters appears in the sorted matches. |
| Service.ListRuns | emulator/service.ts:67-88 | It throws exactly when a negative limit leaves an empty page while `hasMore` holds. `hasMore` holds exactly when more runs matched than the limit. The cursor is the page's last run id exactly when `hasMore`, and absent otherwise. |
| Service.ListRunsNewestFirst | emulator/service.ts:78-81 | A matching run left off the page sorts no later than any run on it. |
| Service.ListRunsDefaultLimit | emulator/service.ts:80-86 | Without a limit, a page lists at most 100 runs, and `hasMore` holds exactly when more than 100 match. |
| Service.StepKeyInjective | emulator/service.ts:92 | Run ids without `-` never share a step key, so `runId-stepId` determines both ids. |
| Service.StepKeyCollision | emulator/service.ts:92 | A run id containing `-` can share a key with another run's step: `a-b`/`c` and `a`/`b-c`. |
| Service.CreateStep | emulator/service.ts:90-106 | The new step is pending, with no attempts, no start or completion time, and the given ids, name and input. It is stored under `runId-stepId`, replacing any step with that key; other keys are unchanged. |
| Service.GetStep | emulator/service.ts:108-114 | Succeeds exactly when `runId-stepId` is stored, returning that step. Otherwise it throws `Step <stepId> not found`. |
| Service.CreateThenGetStep | emulator/service.ts:90-114 | A created step reads back unchanged under the ids it was created with. |
| Service.UpdateStep | emulator/service.ts:116-130 | An unknown step throws and changes nothing. `Object.assign` overwrites each field the body carries (run id, step id, step name, status, input, output, error, attempt) and keeps the rest, including the internal id. `running` stamps `startedAt` only when unset, and `completed` or `failed` stamps `completedAt`. No hooks are cleaned up, and other steps and tables stay unchanged. |
| Service.UpdateThenGetStep | emulator/service.ts:108-130 | An update of a stored step succeeds, and `getStep` under the same ids returns the step as updated. |
| Service.CreatedNoLaterIsOrder | emulator/service.ts:136 | Ordering steps by creation time is total and transitive. |
| Service.ListSteps | emulator/service.ts:132-138 | Exactly the run's steps, as a permutation, oldest first, in one page with no more to come. Steps with the same creation time keep their map order. |
| Service.CreateEvent | emulator/service.ts:140-152 | The log grows by exactly one event, at the end, and nothing else in the store changes. The event has the fresh id, the given run id, type and correlation id, and the creation time. Its payload is a defined `payload`, else a defined `eventData`, else `{}`. |
| Service.ListEvents | emulator/service.ts:154-159 | Exactly the run's events, as a permutation, in ascending event-id order. |
| Service.CreateEventIsListed | emulator/service.ts:140-159 | An event created for a run is listed among that run's events: the listing holds exactly one more copy of it than before. |
| Service.CreateHook | emulator/service.ts:161-173 | The hook is stored under the body's `hookId`, or under the fresh id when that is missing or empty. Other hooks are unchanged. |
| Service.GetHookByToken | emulator/service.ts:175-182 | Returns the first hook in insertion order whose token matches. It throws `Hook not found` exactly when no hook carries the token. |
| Service.CreateThenGetHookByToken | emulator/service.ts:161-182 | A hook created with a token no stored hook carries is what the lookup of that token returns. |
| MessageQueue.Duplicate | emulator/service.ts:187-190 | Finds the first message on the same queue under the same key, and only when the key is truthy. |
| MessageQueue.Enqueue | emulator/service.ts:184-208 | A duplicate returns the existing message's id and changes nothing. Otherwise it appends a pending message (attempt 0, `maxAttempts` 3, `notBefore` now) and returns its fresh id. |
| MessageQueue.EnqueueIdempotent | emulator/service.ts:187-192 | Enqueuing twice with the same truthy key on the same queue returns the first id, and the second call changes nothing. |
| MessageQueue.EnqueueKeyPerQueue | emulator/service.ts:187-192 | The same key on another queue where it is unused creates a new message. |
| MessageQueue.FirstEligible | emulator/service.ts:213-217 | The first message, in insertion order, that is on the queue, pending, and not before `now`. |
| MessageQueue.Claimed | emulator/service.ts:221-223 | Claiming sets `processing`, adds exactly one attempt, stamps `updatedAt`, and changes no other field. |
| MessageQueue.Delivery | emulator/service.ts:225-229 | The claim returns the message id, payload and new attempt count. A message stored without a payload throws. |
| MessageQueue.Poll | emulator/service.ts:210-230 | With no eligible message it returns nothing and changes nothing. Otherwise only the first eligible message is claimed, and the claim is returned. |
| MessageQueue.PollClaimsOnce | emulator/service.ts:213-222 | The next poll, of any queue at any time, does not hand out a message just claimed. |
| MessageQueue.EnqueueThenPoll | emulator/service.ts:184-230 | A message queued without a key is what the next poll of its queue claims, with its payload and attempt 1, when nothing queued earlier is waiting there. |
| MessageQueue.MessageIndex | emulator/service.ts:234 | The first message with the given id. An absent id matches nothing. |
| MessageQueue.Ack | emulator/service.ts:232-241 | An unknown id changes nothing. Otherwise only that message becomes `completed`, with `processedAt` and `updatedAt` stamped. |
| MessageQueue.Nack | emulator/service.ts:243-252 | An unknown id changes nothing. Otherwise only that message returns to `pending` with `notBefore` 5000 ms ahead; its attempts are kept. |
| MessageQueue.Touch | emulator/service.ts:254-261 | An unknown id changes nothing. Otherwise only that message's `updatedAt` changes. |
| MessageQueue.AckedNeverPolled | emulator/service.ts:234-236 | An acknowledged message is never handed out by a later poll. |
| MessageQueue.NackedWaitsOutBackoff | emulator/service.ts:247-248 | A released message is not handed out during its 5 s back-off. |
| MessageQueue.NackedEligibleAfterBackoff | emulator/service.ts:247-248 | Once the back-off is over, a released message is eligible on its queue again. |
| MessageQueue.Reclaim | emulator/service.ts:270-275 | A message processing without a heartbeat for more than 30000 ms goes back to pending, claimable at once. Any other message is unchanged. |
| MessageQueue.CleanupStuckMessages | emulator/service.ts:263-280 | Reclaims exactly the stuck messages, returns how many there were, and leaves every other message and table untouched. No stuck message remains. |
| MessageQueue.ReclaimedIsEligible | emulator/service.ts:274-275 | A reclaimed message can be claimed by the very next poll of its queue. |
| MessageQueue.TouchDefersReclaim | emulator/service.ts:258 | A heartbeat keeps a claimed message from being reclaimed for the 30 s that follow. |
| Waits.WorkflowQueue | emulator/service.ts:308 | The continuation queue is `__wkf_workflow_` followed by the workflow name, or by `undefined` when the run has none. |
| Waits.Continuation | emulator/service.ts:308-313 | The continuation carries the run's id, input and execution context, and its workflow name when the run has one. |
| Waits.Resolution | emulator/service.ts:300-304 | The resolving event is a `wait_completed` for the same run and correlation id, with payload `{}`, stamped `now`. |
| Waits.ResolveOne | emulator/service.ts:293-316 | An already-completed wait changes nothing. Otherwise it appends one resolution, then enqueues one continuation only when the wait's run is stored. |
| Waits.CompletedInExtension | emulator/service.ts:293-297 | A wait completed in a log stays completed in every extension of that log. |
| Waits.ProcessWaits | emulator/service.ts:282-319 | Only resolutions are appended: one per due wait not yet completed, each the first for its run and correlation id. For each resolution whose run is stored, in order, one continuation is queued. It is a pending message on that run's workflow queue, whose payload carries the run's id, workflow name, input and execution context, with attempt 0 of 3 and `notBefore` now. Every due wait ends resolved, and the count is the number of events added. A log with nothing due is left as is. A `null` wait payload throws before anything changes. |
| Waits.SecondCallFindsNothing | emulator/service.ts:286-297 | After a call, every due wait in the grown log is completed, so a second call at the same time adds nothing and returns 0. |
| Gateway.SearchGet | vendor/emularor/fetch-interceptor.ts:86 | `searchParams.get`: the first value given for the name, absent exactly when the name is not given. |
| Gateway.FromEntries | vendor/emularor/fetch-interceptor.ts:37 | `Object.fromEntries` of the query: each name maps to the last value given for it. |
| Gateway.RepeatedParameter | vendor/emularor/fetch-interceptor.ts:37 | For a repeated name, `searchParams.get` reads the first value and `listRuns` sees the last. |
| Gateway.DbName | vendor/emularor/fetch-interceptor.ts:15 | The database is the `x-dbname` header when it is non-empty, otherwise `postgres`. |
| Gateway.Route | vendor/emularor/fetch-interceptor.ts:9-114 | A path outside `/api/workflows` passes through. Every other request is dispatched to the header's database. |
| Gateway.RouteRoundTrip | vendor/emularor/fetch-interceptor.ts:20-112 | For every endpoint whose ids contain no `/` (and a run id other than `events`), routing the request a client sends for it on a named database yields exactly that endpoint on that database. |
| Gateway.RouteGetRun | vendor/emularor/fetch-interceptor.ts:24-30 | GET `/runs/<id>`, for an id without `/` other than `events`, reaches `getRun` with that id on the header's database. |
| Gateway.RoutePatchRun | vendor/emularor/fetch-interceptor.ts:31-35 | PATCH `/runs/<id>`, for an id without `/`, reaches `updateRun` with that id. |
| Gateway.RouteGetStep | vendor/emularor/fetch-interceptor.ts:48-53 | GET `/steps/<run>/<step>`, for ids without `/`, reaches `getStep` with both ids. |
| Gateway.RouteListSteps | vendor/emularor/fetch-interceptor.ts:54-56 | GET `/steps/<run>`, for an id without `/`, reaches `listSteps` with that id. |
| Gateway.RoutePatchStep | vendor/emularor/fetch-interceptor.ts:58-64 | PATCH `/steps/<run>/<step>`, for ids without `/`, reaches `updateStep` with both ids. |
| Gateway.RoutePatchStepNoId | vendor/emularor/fetch-interceptor.ts:58-64 | PATCH `/steps/<run>` reaches `updateStep` with an undefined step id. |
| Gateway.RouteListEvents | vendor/emularor/fetch-interceptor.ts:73-76 | GET `/runs/<id>/events`, for an id without `/`, reaches `listEvents` with that id, not `getRun`. |
| Gateway.RoutePollQueue | vendor/emularor/fetch-interceptor.ts:109-112 | GET `/queue/<name>`, for a name without `/`, reaches `poll` with that name. |
| Gateway.RouteRunsStepsFixed | vendor/emularor/fetch-interceptor.ts:20-47 | POST and GET `/runs` and POST `/steps` reach `createRun`, `listRuns` and `createStep`. |
| Gateway.RouteEventsHooksFixed | vendor/emularor/fetch-interceptor.ts:67-92 | POST `/events`, POST `/hooks` and GET `/hooks?token=<t>` reach `createEvent`, `createHook` and `getHookByToken`. |
| Gateway.RouteQueueFixed | vendor/emularor/fetch-interceptor.ts:95-114 | POST `/queue`, `/queue/ack` and `/queue/nack` reach `queue`, `ack` and `nack`. A DELETE of `/api/workflows` itself reaches no route and is a 404. |
| Gateway.HookWithoutTokenNotFound | vendor/emularor/fetch-interceptor.ts:85-114 | GET `/hooks` without a non-empty `token` falls through to 404 and touches no store. |
| Gateway.Ok | vendor/emularor/fetch-interceptor.ts:120-125 | A success is status 200 with a JSON content type and the value as body. |
| Gateway.ServerError | vendor/emularor/fetch-interceptor.ts:115-117 | A thrown error is status 500 with a JSON content type and body `{error: message}`. |
| Gateway.Invoke | vendor/emularor/fetch-interceptor.ts:18-112 | Each routed call answers with the kind of value its endpoint returns. Only the get, update, list-runs, hook-by-token and poll calls can throw, and all but poll throw before changing the store. Reads change nothing. Each write touches only its own tables: runs (and hooks for a run update), steps, events, hooks or the queue. Streams never change. |
| Gateway.Respond | vendor/emularor/fetch-interceptor.ts:18-117 | A call's value is answered with 200, and whatever it throws with 500 and its message. |
| Gateway.Handle | vendor/emularor/fetch-interceptor.ts:9-118 | A pass-through gives no response and changes nothing; an unknown route gives 404 and changes nothing. Otherwise the answer is 200 or a 500 envelope. Only the request's database can change or be created, and an unreadable body fails before any store is touched. |
| Gateway.CreatedRunIsServed | vendor/emularor/fetch-interceptor.ts:20-30 | A run created over HTTP is served back unchanged by the next GET of its id on the same database. |
| Gateway.MissingRunIsServerError | vendor/emularor/fetch-interceptor.ts:24-30 | A GET of a run the database lacks answers 500 with `Run <id> not found`. |
| Gateway.EnqueuedIsPolled | vendor/emularor/fetch-interceptor.ts:94-111 | A message queued over HTTP is answered with its id. The next GET poll of that queue on the same database returns it with its payload as attempt 1, when nothing older there is waiting. |
| Broker.SplitKey | vendor/emularor/ws-emulator.ts:19-20 | The tick reads the database as the text before the first `:`, so it never contains `:`. |
| Broker.SplitScopedKey | vendor/emularor/ws-emulator.ts:19-20 | A key built from a database name without `:` splits back into that name and the queue, even when the queue contains `:`. |
| Broker.ColonInDatabaseName | vendor/emularor/ws-emulator.ts:19-20 | A database name containing `:` is read back wrongly: `a:b` with queue `q` polls queue `b:q` of database `a`. |
| Broker.AddClient | vendor/emularor/ws-emulator.ts:44 | `set.add`: the set gains the socket, stays unchanged if it was there, and never holds a socket twice. |
| Broker.HandleSubscribe | vendor/emularor/ws-emulator.ts:39-45 | The key's set gains the socket. The set is created at the end of the map on first use, and every other key is unchanged. |
| Broker.SubscribeIdempotent | vendor/emularor/ws-emulator.ts:39-45 | Subscribing twice leaves the same subscriptions as subscribing once. |
| Broker.SubscribeKeepsWellFormed | vendor/emularor/ws-emulator.ts:39-45 | Subscribing keeps one entry per key and no socket twice in a set. |
| Broker.RemoveClient | vendor/emularor/ws-emulator.ts:49 | `set.delete`: the set loses exactly that socket. |
| Broker.HandleDisconnect | vendor/emularor/ws-emulator.ts:47-51 | Every set loses the socket, and the now possibly empty sets stay in the map. |
| Broker.DisconnectLeavesOthers | vendor/emularor/ws-emulator.ts:47-51 | After a disconnect the socket is in no set, and every other socket is in exactly the sets it was in. |
| Broker.DisconnectKeepsWellFormed | vendor/emularor/ws-emulator.ts:47-51 | Disconnecting keeps one entry per key and no socket twice in a set. |
| Broker.SelectWorker | vendor/emularor/ws-emulator.ts:53-59 | Returns nothing exactly when no socket of the set is OPEN; otherwise it returns an OPEN socket of the set. |
| Broker.EveryOpenWorkerCanBeChosen | vendor/emularor/ws-emulator.ts:56-58 | Every OPEN subscriber is chosen by some draw of the random number. |
| Broker.Serve | vendor/emularor/ws-emulator.ts:17-34 | An empty set is skipped. Otherwise the key's queue is polled once on its database. A job that is delivered went to an OPEN subscriber and is the job that poll returned. Only that database can change. Broker.OpenWorkerGetsJob gives the other direction. |
| Broker.OpenWorkerGetsJob | vendor/emularor/ws-emulator.ts:17-30 | When the poll claims a job and some subscriber of the key is OPEN, the job is delivered, to the one socket `selectWorker` picks. The key's database keeps the claim the poll made, with no nack. |
| Broker.NoWorkerNacks | vendor/emularor/ws-emulator.ts:24-30 | With no OPEN subscriber, the claimed job is sent nowhere. It goes back to pending with the back-off, keeping its id and the counted attempt. |
| Broker.TickOver | vendor/emularor/ws-emulator.ts:16-35 | One pass sends at most one job per key, each a job frame to an OPEN subscriber. |
| Broker.TickOverPerKey | vendor/emularor/ws-emulator.ts:16-35 | A pass's frames are the per-key outcomes in map order, at most one per key. The `k`-th key's job goes to an OPEN socket of that key's own set. It is the job that polling the key's queue returned, on the key's database as the earlier keys left it. |
| Broker.TickOverCreates | vendor/emularor/ws-emulator.ts:16-23 | A pass registers exactly the databases of the keys with a non-empty set. |
| Broker.TickOverLeavesOthers | vendor/emularor/ws-emulator.ts:16-23 | A pass leaves every database it does not poll as it was. |
| Broker.Tick | vendor/emularor/ws-emulator.ts:15-36 | A tick appends to the delivered frames exactly the pass's per-key outcomes, in key order. Each is a job for an OPEN socket subscribed to that key. Subscriptions and sockets are unchanged. |
| Broker.Connect | vendor/emularor/ws-emulator.ts:80-84 | A new socket starts CONNECTING on the URL's `db` parameter, or on `postgres` when that is missing or empty. |
| Broker.OpenTimer | vendor/emularor/ws-emulator.ts:85-90 | The open timer turns a CONNECTING socket OPEN and leaves a closed one closed (corrected behaviour, see Findings). |
| Broker.OpenTimerAsWritten | vendor/emularor/ws-emulator.ts:85-90 | As written, the open timer sets OPEN whatever the socket's state is by then. Nothing else changes: the socket keeps its database, other sockets are untouched, and so are the subscriptions and the delivered frames. |
| Broker.Send | vendor/emularor/ws-emulator.ts:99-112 | A SUBSCRIBE subscribes the socket to the queue on its own database and is answered with SUBSCRIBED. Anything else changes nothing. |
| Broker.Close | vendor/emularor/ws-emulator.ts:114-120 | `close` sets CLOSED (3) and removes the socket from every subscription. |
| Broker.SubscribedUntilClose | vendor/emularor/ws-emulator.ts:99-116 | A subscribed socket stays among its key's subscribers when another socket closes, and leaves when it closes itself. |
| Broker.ClosedSocketReopens | vendor/emularor/ws-emulator.ts:85-90 | As written, a socket closed before its open timer fires is OPEN afterwards and can subscribe again. |
| Broker.ClosedSocketStaysClosed | vendor/emularor/ws-emulator.ts:85-90 | With the corrected timer, a closed socket stays CLOSED and no tick hands it a job. |
| Signals.WaitingCorrelation | components/WorkflowTester.tsx:35-43 | A returned correlation id always belongs to some wait for the signal in the log. |
| Signals.WaitingCorrelationIsNewestOpenWait | components/WorkflowTester.tsx:35-43 | The awaited id is that of the newest wait for the signal, unless some received signal anywhere in the log carries it. |
| Signals.Actions | components/WorkflowTester.tsx:58-67 | Each button carries its signal's label and a non-empty correlation id that the signal is awaited under. |
| Signals.ActionsAreAwaitedSignals | components/WorkflowTester.tsx:58-67 | The buttons are exactly the actor's signals being waited for, in declaration order. |
| Signals.CardOf | components/WorkflowTester.tsx:69-77 | A card is waiting exactly when it has buttons, exactly when some signal is awaited. Its status is `Needs to ` plus the first awaited signal's label in lower case, and absent otherwise. |
| Chat.BestMatch | components/chat/ChatWorkflowTester.tsx:116-129 | Picks the only match, else the first whose configured data fits the event's data. If none fits, it falls back to the first. |
| Chat.FindSignalDefinition | components/chat/ChatWorkflowTester.tsx:110-132 | Nothing exactly when no actor declares the name. Otherwise it picks the first declaring actor, in actor order, and the best match among its signals of that name. |
| Chat.DeclaresIffMatches | components/chat/ChatWorkflowTester.tsx:113-114 | An actor declares a name exactly when filtering its signals by that name keeps something. |
| Chat.SpaceSeparators | components/chat/ChatWorkflowTester.tsx:136 | Every `-` and `_` becomes a space, and every other character stays. |
| Chat.CapitalizeWords | components/chat/ChatWorkflowTester.tsx:136 | Exactly the characters matching `\b\w` are upper-cased. |
| Chat.Humanize | components/chat/ChatWorkflowTester.tsx:134-137 | `""` stays `""`. Otherwise separators become spaces and each word-initial character is upper-cased, with the length kept. |
| Chat.HumanizeShape | components/chat/ChatWorkflowTester.tsx:134-137 | A humanized name has no `-` or `_`, and no word of it starts with a lower-case letter. |
| Chat.HumanizeIdempotent | components/chat/ChatWorkflowTester.tsx:134-137 | Humanizing a humanized name changes nothing. |
| Chat.OnStepCompleted | components/chat/ChatWorkflowTester.tsx:143-153 | A step output targeting `user` or `manager` appends one system message to that side only. Any other output changes nothing. |
| Chat.DisableOffer | components/chat/ChatWorkflowTester.tsx:179-190 | On the answering side, the first message offering a button with the correlation id gets all its buttons disabled. Every other message, and the other side, is unchanged. With no such message nothing changes. |
| Chat.DisableAll | components/chat/ChatWorkflowTester.tsx:186-189 | Every button is kept, now disabled. |
| Chat.PostAs | components/chat/ChatWorkflowTester.tsx:176-177 | A user's message goes to the user side and a manager's to the back office; a system actor's goes nowhere. |
| Chat.OnSignalReceived | components/chat/ChatWorkflowTester.tsx:155-193 | An answer that cannot be traced to a wait and a declared signal changes nothing. Otherwise one message is added to the user or manager side of the sender. A system actor's answer is not posted. |
| Chat.ReceivedPostsAnswer | components/chat/ChatWorkflowTester.tsx:166-177 | The sender's answer, in its chat label, else its label, else its humanized name, is the newest message on their side. |
| Chat.ReceivedChangesOnlyButtons | components/chat/ChatWorkflowTester.tsx:179-190 | A received signal changes nothing but buttons in the messages already there. |
| Chat.OfferedActions | components/chat/ChatWorkflowTester.tsx:206-214 | One button per signal of the waited-for name, in order, each with the wait's correlation id and the shared disabled state. |
| Chat.Offer | components/chat/ChatWorkflowTester.tsx:216-230 | When the last message is a system message without buttons, it gets the buttons and keeps its id, text and time. Otherwise a new system message is appended with the event's id, the given text and the event's time. Earlier messages are unchanged. |
| Chat.OnSignalWaiting | components/chat/ChatWorkflowTester.tsx:195-232 | An undeclared signal changes nothing. Otherwise only the first declaring actor's side changes. Its last system message without buttons gets the offered buttons and keeps its id, text and time. Otherwise a new message appears with the event's id, the text `Action required: ` plus the humanized name, and the event's time. |
| Chat.OfferedActionsAreOwnerSignals | components/chat/ChatWorkflowTester.tsx:201-214 | A wait's buttons are exactly the owner's signals of that name. There is at least one, in declaration order, none is left out, and each carries the wait's correlation id. |
| Chat.Apply | components/chat/ChatWorkflowTester.tsx:140-233 | An event that is not `step_completed`, `signal_received` or `signal_waiting` changes nothing. No event removes a message, and each adds at most one message to the two sides together. |
| Chat.Replay | components/chat/ChatWorkflowTester.tsx:140-233 | The `events.forEach` fold: after `n` events the two sides hold at most `n` messages together. |
| Chat.ReplayGrows | components/chat/ChatWorkflowTester.tsx:140-233 | Replaying more of the log never shrinks either side: messages are only ever added. |
| Chat.ReplayHonest | components/chat/ChatWorkflowTester.tsx:140-233 | After any prefix of the log, every button is disabled exactly when the log answers its correlation id, and one message's buttons answer one wait. |
| Chat.ButtonsDisabledExactlyWhenAnswered | components/chat/ChatWorkflowTester.tsx:195-213 | In the final transcripts, a button is disabled exactly when some `signal_received` event carries its correlation id. |
| Chat.ReplayKeepsSides | components/chat/ChatWorkflowTester.tsx:140-233 | The user transcript never holds a manager's message, and the back office never a user's. |
| Chat.RoleWaitingIffCardWaiting | components/chat/ChatWorkflowTester.tsx:305-315 | A side is waiting exactly when the card of one of its actors says so. |
| Chat.WaitingRoleHasWaitingCard | components/chat/ChatWorkflowTester.tsx:305-315 | A waiting side has an actor whose card is waiting. |
| Chat.WaitingCardMakesRoleWaiting | components/chat/ChatWorkflowTester.tsx:305-315 | An actor with a waiting card makes its side waiting. |
| Text.JoinSplit | vendor/emularor/fetch-interceptor.ts:49 | Joining the pieces of `split("/")` gives back the path. |
| Text.SplitCons | vendor/emularor/fetch-interceptor.ts:49 | Splitting `a/b`, with `a` free of `/`, yields `a` followed by the pieces of `b`. |
| Text.LeTotal | emulator/service.ts:78 | The string order used for `localeCompare` is total. |
| Text.LeTransitive | emulator/service.ts:78 | The string order is transitive. |
| Text.LeAntisymmetric | emulator/service.ts:78 | The string order is antisymmetric. |
| Text.ParseDecimal | emulator/service.ts:80 | `parseInt` reads back the decimal text of every integer. |
| Text.ToLower | components/WorkflowTester.tsx:76 | Lower-casing keeps the length and maps each character on its own. |
| Sorting.Sort | emulator/service.ts:78 | The comparator sort returns a permutation of its input, ordered by the comparator. It is stable: elements the comparator ties keep their input order. |
| Seqs.FindReversed | components/WorkflowTester.tsx:36 | Finding in the reversed list finds the last matching element. |
| Seqs.FilterHeadIsFirst | components/chat/ChatWorkflowTester.tsx:113 | The first element `filter` keeps is the one `findIndex` finds. |

## Left out

- JSON text is not modelled. Request bodies arrive as records of the fields the service reads, or as unreadable with the error text that reading them throws. Stored payloads are JSON values, and a payload that serialized to nothing (`undefined`) is a message with no payload. `JSON.stringify` dropping `undefined` fields is modelled only for the continuation's `workflowName`.
- Numbers are integers; floating point is not modelled. Times are integer milliseconds, and `new Date(string)` is a parser passed in as a parameter.
- Service.Data: each body field is either absent or present with the type the record interfaces give it. A JSON `null` or a value of another type cannot be represented. Examples are PATCH `{status: null}`, which `Object.assign` would write into the run, `{input: "abc"}`, and a `correlationId: null` as distinct from an absent one. The code does not check these types, and the model does not cover such bodies.
- `Object.assign` is modelled for the fields a body can carry. Extra keys, including timestamps a body might carry, are not modelled.
- `localeCompare` is modelled as code-unit order, not locale collation.
- Letter case covers ASCII letters only, in `toLowerCase`, `toUpperCase` and `\w`.
- `generateId`, `Date.now` and `Math.random` are parameters: fresh ids, `now`, and the draw `pick`, taken modulo the number of OPEN sockets. For `processWaits`, the k-th due wait takes its ids from `ids(2k)` and `ids(2k+1)`.
- `setInterval` and `setTimeout` scheduling is left to the caller. A tick is one function call, and the open timer is a separate step.
- The ordering between the delayed SUBSCRIBED reply and a tick's job delivery is not modelled: the reply is recorded at once.
- `async` interleavings are not modelled; every service operation is atomic.
- `install` and `installWebSocketEmulator` are not modelled: they are global monkey-patching of `fetch` and `WebSocket`.
- URL parsing is not modelled. A request arrives with its path, its query as ordered pairs, and its headers with lower-case names (`Headers.get` ignores case).
- `receive`, `dispatchEvent` and the `onopen`, `onmessage` and `onclose` callbacks are not modelled. Delivered frames are recorded in order instead.
- A SUBSCRIBE whose queue is not a string, and a `send` of text that is not JSON (which throws), are not modelled.
- `console.error` logging of a failed poll is not modelled; the failed poll is skipped.
- The `streams` table is modelled but empty: no operation of the core uses it.
- `maxAttempts` is stored as 3 but never enforced, as in the source.
- Chat.OnSignalWaiting: a `null` payload on a `signal_waiting` event makes the source throw when it reads `payload.name`. The model reads the name as `undefined`, which no actor declares.
- Signals.WaitingCorrelation: `null` and `undefined` are the same `None`, since every caller only tests truthiness. A `null` payload is read as having no name, where the source throws.
- Chat.BestMatch: `Object.keys` of an array or a string counts as no keys.
- Broker.SplitScopedKey: the round trip of a subscription key is proved only for database names without `:`. For other names the model keeps the split as written (Broker.ColonInDatabaseName): the tick reads the text before the first `:` as the database. Database names come from a URL parameter the emulator does not restrict, and nothing shows which reading is meant, so this is not listed as a finding.
- Chat.OnSignalWaiting: a non-string signal name humanizes to `""` in the "Action required" text, where the source would throw or print it.
- A missing `signals` list is the empty list, and a missing or empty chat label is `""`; the source treats each pair alike.
- Message timestamps are the events' `createdAt` milliseconds, not `Date` objects.
- React rendering, `handleSignal` and the button `onClick` handlers are not modelled.
- Service.UpdateRun: the code enforces no forward-only status order and re-stamps `completedAt` on every terminal update; the model does the same (Service.UpdateRunAllowsBackwardTransition, Service.UpdateRunRestampsCompletedAt).
- Waits.ProcessWaits: a wait counts as completed only when a `wait_completed` has the same run id and correlation id, as the code checks.
- Json.DateMillis: numbers are integers, so the fractional milliseconds `new Date` truncates do not arise. Inside an array, a number of 21 or more digits is joined as its decimal digits, where JavaScript writes it in exponent notation. The date-string parser itself is a parameter.
- `vendor/emularor/service.ts` is not part of this model. The gateway and broker call the service as defined in `emulator/service.ts`.

## Findings

| source | as written | input that shows it | evidently intended | confidence | as-written member | corrected member |
|---|---|---|---|---|---|---|
| vendor/emularor/ws-emulator.ts:85-90 | The open timer sets `readyState = 1` unconditionally, even after `close()` set it to 3. | Construct a socket, call `close()` within 10 ms, and let the timer fire. The closed socket is OPEN again; a SUBSCRIBE from its `onopen` handler re-registers it, and ticks can then hand it jobs. | A closed socket stays CLOSED: the timer opens only a CONNECTING socket. | medium, not executed | Broker.OpenTimerAsWritten, Broker.ClosedSocketReopens | Broker.OpenTimer, Broker.ClosedSocketStaysClosed |
