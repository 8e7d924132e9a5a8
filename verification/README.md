# Posthook request engine, modelled in Dafny

Posthook hands out webhook URLs of the form `/h/{slug}`.

- **Worker** (`deploy.ts`). One Cloudflare Worker receives every request.
  - It answers the front end's rate-limit pre-check itself.
  - It routes webhook traffic and socket upgrades to a per-slug Durable Object, the **receiver**.
  - It serves the JSON API and the single-page app.
- **Trace guard** (`trace.ts`). Every request that does work is a **flow** in the trace guard's log.
  - An environment record opens the flow.
  - Then come `step(node, enter|exit|error)` records. They are checked against a per-flow state machine that refuses stale or forged handles and anything after an error.
- **Receiver** (`reciever.ts`). It handles webhooks in order:
  - a global **slug quota** (`rate-limiter.ts`: two slugs per IP per 24 hours for anonymous callers);
  - a per-minute **throttle**;
  - the body parse, storage in D1 (`storage.ts`), and a broadcast to the slug's open sockets;
  - on connect, it sends a new socket one page of history.
- **API handler** (`handler.ts`). It serves `/events`, `/trace/{id}` and `GET /post/{slug}`, and ingests other `/post` requests with its own flow.
- **Browser.** The browser keeps a live list fed by the socket (`useWebSocket.ts`). It holds the slug in local storage and switches slugs after probing the quota (`useWebhookData.ts`). It shows toasts (`useNotification.ts`) and renders the list's "time ago" and payload preview (`requests.tsx`).

The model is pure Dafny: every handler is a function from a state and a request to a reply and a new state. Everything outside the code is a parameter:

- the clock, and the random id suffixes;
- `JSON.parse` / `JSON.stringify` (`Json.Codec`) and form decoding;
- D1's insert and query outcomes (`Storage.Database`);
- which socket sends succeed;
- the asset binding;
- whether `new WebSocket` throws.

Modules follow the source files:

- `Trace`, `Sorting` (the replay sort), `RateLimiter`, `Storage`, `Receiver`, `Handler` and `Deploy` for the server;
- `SocketClient`, `WebhookData`, `Notifications` and `RequestsView` for the browser;
- `Wrappers`, `Json`, `Strings` and `Http` are the shared vocabulary: JavaScript truthiness, `startsWith`, `split`, `replace`, `parseInt`, headers and body reading.

The central invariant is `Trace.Valid`: each flow's log agrees with its state. It is proved to be kept by `createEnv` and `step`, and by every entry point that uses them.

## Model

| member | source | states |
|---|---|---|
| Trace.CreateEnv | src/debug/trace.ts:20-47 | a non-object or null payload is refused; otherwise exactly one environment record is logged and the flow opens at step 0 with no nodes, leaving all other flows alone |
| Trace.Step | src/debug/trace.ts:49-126 | a step is accepted exactly when all guards hold; then one record with step id + 1 is logged, only that node's status moves, and an `error` closes the flow; a refused step logs nothing |
| Trace.Replay | src/debug/trace.ts:128-140 | an empty id is refused; otherwise the records of that id, env record first and steps by step id |
| Trace.CreateEnvPreservesValid | src/debug/trace.ts:20-47 | opening a flow under a fresh id keeps every flow's log consistent with its state |
| Trace.StepPreservesValid | src/debug/trace.ts:49-126 | every step, accepted or refused, keeps the store consistent |
| Trace.ReplayOfOpenedFlow | src/debug/trace.ts:128-140 | on a consistent store the replay of a flow is its env record followed by steps 1 .. lastStepId, in log order |
| Trace.ReplayOfUnknownFlow | src/debug/trace.ts:128-140 | an id never opened replays to the empty list |
| Trace.StaleHandleRejected | src/debug/trace.ts:75-77 | reusing a handle after it was stepped is refused as out of sequence and logs nothing |
| Trace.ForeignEnvRejected | src/debug/trace.ts:65-68 | a handle with another flow's env id is refused |
| Trace.NegativeStepRejected | src/debug/trace.ts:70-73 | a negative step id is refused |
| Trace.NodeRuleFromLog | src/debug/trace.ts:84-105 | for an in-sequence handle on an open flow, exit/error is accepted exactly when the node's latest logged record is an enter, and enter exactly when it is not |
| Trace.ClosedFlowStaysClosed | src/debug/trace.ts:79-82 | after an error no sequence of later calls reopens the flow or adds a record to it |
| Trace.OtherFlowsAreIsolated | src/debug/trace.ts:59-63 | calls on other flows never change a flow's state or its records |
| Trace.ReplayLeIsTotalPreorder | src/debug/trace.ts:135-139 | the replay comparator is total and transitive, so the sort is well defined |
| Sorting.SortOrders | src/debug/trace.ts:133-139 | the replay sort's output is ordered by the comparator |
| Sorting.SortOfSorted | src/debug/trace.ts:133-139 | input already in order comes back unchanged |
| RateLimiter.Fetch | src/shared/rate-limiter.ts:30-74 | only POST is served (405 otherwise), an unreadable body is a 400 with `allowed: false`, a truthy `userId` bypasses the quota, otherwise the quota answers |
| RateLimiter.AuthenticatedBypass | src/shared/rate-limiter.ts:42-50 | an identified caller is allowed with reason `authenticated` and storage is not touched |
| RateLimiter.AnonymousStatusMapping | src/shared/rate-limiter.ts:52-62 | for an anonymous caller the status is 429 exactly when the quota refuses, and the remaining header reads back as 2 minus the slug count, floored at 0 |
| RateLimiter.CheckIPLimit | src/shared/rate-limiter.ts:80-194 | the quota's answer and storage for each of: first sight, reused slug, full, new slug; a dry run never writes |
| RateLimiter.AllowedExactly | src/shared/rate-limiter.ts:129-170 | a call is allowed exactly when the slug is among the IP's recent slugs or fewer than two recent slugs exist |
| RateLimiter.FirstSightOfIp | src/shared/rate-limiter.ts:95-127 | an unknown IP is allowed; a real call creates a record holding just this slug |
| RateLimiter.ReuseKeepsSlot | src/shared/rate-limiter.ts:132-153 | a recent slug is allowed without using a slot; a real call prunes expired entries and refreshes only that slug's last use |
| RateLimiter.DenyWhenFull | src/shared/rate-limiter.ts:155-170 | a third slug is refused and nothing is written; the listed slugs are the recent ones, ordered by first use, oldest first; the reset is one window after the oldest |
| RateLimiter.DeniedSlugsOldestFirst | src/shared/rate-limiter.ts:156-166 | a refusal lists exactly the recent slugs, ordered by first use, oldest first |
| RateLimiter.AppendNewSlug | src/shared/rate-limiter.ts:172-193 | a new slug with room is allowed and a real call stores the recent entries plus the new one |
| RateLimiter.WritesOnlyRecent | src/shared/rate-limiter.ts:129-130 | every record written holds only entries first used within the last 24 hours |
| RateLimiter.CheckPreservesQuota | src/shared/rate-limiter.ts:80-194 | no IP ever holds more than two entries or two entries for one slug |
| RateLimiter.AllowedSlugIsCounted | src/shared/rate-limiter.ts:172-193 | after an allowed real call the requested slug is among at most two recent slugs |
| RateLimiter.ExpiredRecordActsAbsent | src/shared/rate-limiter.ts:93-130 | a record whose entries all expired answers exactly like a missing one, so dropping it by TTL changes nothing |
| RateLimiter.RecordExpiresWithItsEntries | src/shared/rate-limiter.ts:116-118 | one window after a write every entry of the written record has expired, which is when the storage TTL may drop it |
| Storage.BuildQuery | src/shared/storage.ts:200-221 | the SQL has a WHERE clause exactly when a filter is given, pathname before trace_id, then ordering and paging, with parameters in placeholder order |
| Storage.QueryShapes | src/shared/storage.ts:202-221 | the four exact SQL texts for the four filter combinations |
| Storage.QueryEvents | src/shared/storage.ts:191-226 | a database exception propagates, missing results read as the empty list |
| Storage.StoreEvent | src/shared/storage.ts:40-138 | a refused `store/enter` propagates and logs nothing; success logs enter and exit with the new `evt_` id |
| Storage.StoreProtocol | src/shared/storage.ts:55-137 | once `store/enter` is accepted the call either returns a handle two steps on or records `store/error`, closing the flow, and rethrows |
| Storage.StoreEventPreservesValid | src/shared/storage.ts:40-138 | storing an event keeps the trace store consistent whatever the database does |
| Http.ClientIp | src/shared/handler.ts:119 | `cf-connecting-ip`, else `x-forwarded-for`, else absent; never the empty string |
| Http.EnvPayload | src/shared/handler.ts:118-122 | the env payload is an object with all request headers, plus IP and user agent when known |
| Http.ReadBody | src/shared/reciever.ts:309-324 | a parse failure is possible only under a JSON content type; JSON content is parsed as JSON |
| Http.QueryParam | src/shared/handler.ts:28-30 | a query parameter is present exactly when it is given and non-empty |
| Strings.ReplaceFirst | src/shared/handler.ts:21 | only the first occurrence of the pattern is replaced, the rest of the text kept |
| Strings.Field | src/shared/reciever.ts:96 | `split('/')[i]` exists exactly when there are more than i fields and never contains the separator |
| Strings.SplitJoin | src/shared/reciever.ts:96 | splitting and rejoining with the same separator gives the text back |
| Strings.ParseIntOfNatToString | src/shared/handler.ts:31-32 | `parseInt` of a rendered number is that number |
| Strings.ParseIntOfNegative | src/shared/handler.ts:31-32 | a minus sign in front of a rendered number gives its negation |
| Strings.ParseIntSkipsSpace | src/shared/handler.ts:31-32 | any ECMAScript white space or line terminator before the text, NBSP and BOM included, leaves the result unchanged |
| Strings.ParseIntOfHex | src/shared/handler.ts:31-32 | a `0x` prefix reads the following hexadecimal digits in radix 16, so `0x10` is 16 |
| Strings.ParseIntOfNonNumeric | src/shared/handler.ts:31-32 | text that starts with no digit, white space or sign is NaN |
| Strings.TruncateIdempotent | src/react/scripts/requests.tsx:21 | truncating a truncated preview changes nothing |
| Receiver.GetUserId | src/shared/reciever.ts:62-76 | the API user when the key matches a configured secret; otherwise the non-empty Clerk header; never the empty string |
| Receiver.BearerTokenAuthenticates | src/shared/reciever.ts:64-66 | a bearer token equal to the secret authenticates when no API key header is sent |
| Receiver.ApiKeyHeaderTakesPrecedence | src/shared/reciever.ts:64-75 | a non-empty `x-api-key` header is the key that counts; a wrong one falls back to the Clerk header |
| Receiver.GetIP | src/shared/reciever.ts:81-85 | the client IP headers in order, else `unknown` |
| Receiver.CheckRateLimit | src/shared/reciever.ts:151-202 | at or past the limit (100 identified, 25 anonymous) the call is refused and nothing is written; otherwise the minute's count goes up by one |
| Receiver.ThrottleAdmitsUpToLimit | src/shared/reciever.ts:151-202 | within one minute a caller gets exactly as many calls through as the limit leaves, and the count never passes the limit |
| Receiver.CheckGlobalRateLimit | src/shared/reciever.ts:91-145 | a 429 with `Retry-After` of a day exactly when the limiter does not allow the path's slug |
| Receiver.LimiterAnswer | src/shared/reciever.ts:91-117 | an identified caller is allowed and the limiter untouched; an anonymous one gets the quota's verdict on its IP and slug |
| Receiver.QuotaDecision | src/shared/reciever.ts:117-140 | an anonymous caller is refused exactly when the quota refuses the path's slug for its IP; an identified one never is |
| Receiver.ClerkHeaderPassesQuota | src/shared/reciever.ts:69-75 | any non-empty Clerk user id header passes the slug quota |
| Receiver.Broadcast | src/shared/reciever.ts:379-397 | every socket is sent the event; the count is the number of sends that did not throw |
| Receiver.AllDeliveredIffNoFailure | src/shared/reciever.ts:387-395 | the count equals the number of sockets exactly when no send failed |
| Receiver.HandleWebhook | src/shared/reciever.ts:282-293 | a quota refusal is returned before anything else, then a throttle refusal |
| Receiver.QuotaRefusalComesFirst | src/shared/reciever.ts:283-287 | when the quota refuses, the throttle is not consulted and no flow is opened |
| Receiver.ThrottleRefusalComesSecond | src/shared/reciever.ts:289-293 | when the throttle refuses, only the quota's bookkeeping changed and no flow is opened |
| Receiver.PastLimitsIngests | src/shared/reciever.ts:282-302 | past both limits the call is ingested and counted by the throttle |
| Receiver.DeliverAlwaysSucceeds | src/shared/reciever.ts:346-409 | whatever the database does, the reply is 200 with the trace id and the number of sockets that took the event |
| Receiver.ReceivedReplies | src/shared/reciever.ts:309-344 | after `receive/enter` a JSON body that does not parse closes the flow with a 400; any other body gets a 200 |
| Receiver.ParseFailedReplies | src/shared/reciever.ts:327-344 | the parse failure is logged as `receive/error` with `PARSE_FAILED`, closing the flow, and answered 400 with the trace id |
| Receiver.IngestReplies | src/shared/reciever.ts:295-409 | ingestion never trips the guard: 400 exactly when the body does not parse, 200 otherwise, broadcast only on success |
| Receiver.IngestLogsFlow | src/shared/reciever.ts:295-331 | the new flow starts with its env record and `receive/enter`; a parse failure adds exactly one closing record |
| Receiver.HandleWebhookPreservesValid | src/shared/reciever.ts:282-410 | the whole webhook path keeps the trace store consistent under a fresh trace id |
| Receiver.Disconnect | src/shared/reciever.ts:48-57 | a closing or failing socket leaves the session set and nothing else changes |
| Receiver.HandleWebSocket | src/shared/reciever.ts:234-280 | the new socket always joins the sessions; it is sent the loaded history, or the empty history when loading or the first send throws, and the reply is 101; when the send in the `catch` throws as well, the error escapes, nothing was delivered and there is no 101 |
| Receiver.AnsweredIffHistoryDelivered | src/shared/reciever.ts:243-280 | the upgrade is answered exactly when a history message was delivered, and fails exactly when the first send throws and no second send succeeds |
| Receiver.FormatAll | src/shared/reciever.ts:248-258 | rows are converted one by one in order; the whole conversion fails exactly when some row's headers or payload do not parse |
| Receiver.HistoryIsOnePage | src/shared/reciever.ts:244-271 | the history query asks for one page of 50 of the path's rows; loading fails when the query throws or any row does not decode, and otherwise yields every row decoded |
| Receiver.ConnectThenCloseRestoresSessions | src/shared/reciever.ts:48-51 | a socket that connects then closes leaves the session set as it was, whether or not its upgrade was answered |
| Receiver.Fetch | src/shared/reciever.ts:204-232 | preflight first, then upgrade (the socket joins; a reply is 101 and comes exactly when history was sent), then POST to the webhook handler, otherwise 405 with state unchanged |
| Handler.RouteRewritesSlugPaths | src/shared/handler.ts:20-23 | the rewrite swaps exactly the leading `/h/` for `/post/` and keeps the rest of the path |
| Handler.EventsEndpointAnswers | src/shared/handler.ts:25-57 | `/events` answers 500 exactly when the query throws, otherwise 200 with every row and their count |
| Handler.EventsDefaultPage | src/shared/handler.ts:28-34 | without paging parameters `/events` asks for 50 rows from offset 0 with the non-empty filters |
| Handler.NonNumericLimitIsNull | src/shared/handler.ts:31 | a non-numeric `limit` reaches the database as NaN and is echoed as null |
| Handler.TraceEndpointAnswers | src/shared/handler.ts:59-99 | 400 without an id, 404 for an unknown id, else 200 with the flow's records and their count |
| Handler.PostEndpoint | src/shared/handler.ts:103-115 | `GET /post/{slug}` answers the page of that path's rows; a query failure is not caught |
| Handler.PostEndpointQuery | src/shared/handler.ts:106 | the read filters by exactly the path and asks for one page of 50 |
| Handler.PositionIn | src/shared/handler.ts:167-169 | the error position is present exactly when the message contains `position` followed by digits |
| Handler.PositionOfRenderedNumber | src/shared/handler.ts:168-169 | a position rendered into a syntax-error message is read back exactly |
| Handler.ParseFailureMeta | src/shared/handler.ts:174-181 | the failure record carries code, reason and content type, the body's length, a preview of at most 203 characters that is the body itself when short, and the position when the message names one |
| Handler.JsonParseFailureMeta | src/shared/handler.ts:141-181 | the metadata the `catch` records after `request.json()` fails: code, reason, content type and position, never the body's length or preview |
| Handler.RejectReplies | src/shared/handler.ts:164-196 | a parse failure closes the flow with one `parse/error` record carrying that metadata, without length or preview, and answers 400 naming the trace and its replay URL |
| Handler.RejectCorrectedReplies | src/shared/handler.ts:164-196 | the corrected failure path appends the same record but with the body's length and, for a non-empty body, its preview |
| Handler.JsonParseFailureLosesPreview | src/shared/handler.ts:141-181 | a `/post` request whose JSON body does not parse ends in a 400 whose last `parse/error` record has no body length or preview, while the corrected path from the same store records both |
| Handler.AcceptReplies | src/shared/handler.ts:198-243 | after `parse/exit` storage is entered with the guard's consent and the reply is 200 with the payload and trace id whatever the database does |
| Handler.IngestReplies | src/shared/handler.ts:117-243 | outside `/post` a 404, an unparseable body a 400, anything else a 200; never an uncaught guard error |
| Handler.HandleRequest | src/shared/handler.ts:14-122 | the dispatch in the source's order: `GET /events`, then `GET /trace/`, then `GET /post/`, each answered without touching the trace store, and every other request is ingested |
| Handler.ReadsLeaveTraceAlone | src/shared/handler.ts:25-122 | reads never touch the trace store; every other request opens exactly one flow |
| Handler.HandleRequestPreservesValid | src/shared/handler.ts:14-244 | the handler keeps the trace store consistent under a fresh trace id |
| Deploy.RateLimitCheckIsReadOnly | deploy.ts:35-61 | the pre-check never spends a slot; it answers 200 exactly when the Clerk header is set or the IP could still take a new slug, else 429 |
| Deploy.Fetch | deploy.ts:31-61 | the pre-check route answers the limiter's verdict and changes no state |
| Deploy.Forward | deploy.ts:63-88 | a missing slug is a 400 with no state change; otherwise only that slug's receiver is created or changed |
| Deploy.SocketsJoinTheirSlug | deploy.ts:82-87 | an upgrade joins the receiver of its own slug only; any reply it gets is 101, and it gets one whenever the history send succeeds |
| Deploy.ServeAsset | deploy.ts:115-137 | a found asset is returned; a failing asset fetch is a 500 `Error loading page`; an asset answering 400 or more is replaced by the index page at `/`, and a failing index fetch escapes uncaught |
| Deploy.UnknownRoutesShareTheIndex | deploy.ts:125-128 | every route the assets lack gets the same answer, the index page, whatever its path |
| Deploy.WorkerFlowSteps | deploy.ts:90-148 | the worker's flow is opened, then exited before the API handler, left open for assets, or closed with `METHOD_NOT_ALLOWED` before a 405 |
| Deploy.OtherMethodsUnderSlugAreRefused | deploy.ts:68-148 | other methods under `/h/` are not forwarded: 405 with the worker flow closed |
| Deploy.FetchPreservesValid | deploy.ts:31-149 | every worker route keeps the trace store consistent when each flow opened gets a fresh id |
| SocketClient.Apply | src/react/hooks/useWebSocket.ts:54-73 | a history message replaces the list with its events; any other non-null message is put in front; null or a history without events leaves the list alone |
| SocketClient.Receive | src/react/hooks/useWebSocket.ts:54-73 | an unparseable message changes nothing, and a message changes nothing but the list |
| SocketClient.BroadcastsPrependNewestFirst | src/react/hooks/useWebSocket.ts:64-69 | after a run of broadcasts the list is that run newest first in front of the previous list |
| SocketClient.HistoryResetsTheList | src/react/hooks/useWebSocket.ts:59-63 | after a history message, what came before no longer matters |
| SocketClient.Connect | src/react/hooks/useWebSocket.ts:32-45 | an empty slug is a no-op; a created socket is kept in the ref; a throwing constructor sets `Failed to connect` and disconnected |
| SocketClient.Opened | src/react/hooks/useWebSocket.ts:47-52 | open sets connected, clears the error and resets the attempts, nothing else |
| SocketClient.Errored | src/react/hooks/useWebSocket.ts:75-78 | an error event sets `Connection error` only |
| SocketClient.Closed | src/react/hooks/useWebSocket.ts:80-104 | close always disconnects and clears the ref; only an abnormal close on the current slug schedules a reconnect after the backoff |
| SocketClient.Backoff | src/react/hooks/useWebSocket.ts:95 | the delay is 1000·2^attempt capped at 30000, so it lies in [1000, 30000] |
| SocketClient.BackoffMonotone | src/react/hooks/useWebSocket.ts:93-95 | the delay never shrinks as attempts grow |
| SocketClient.BackoffDoublesUpToCap | src/react/hooks/useWebSocket.ts:95 | each further attempt doubles the delay until the cap, which it reaches from the sixth attempt |
| SocketClient.TimerFired | src/react/hooks/useWebSocket.ts:99-102 | a pending timer firing leaves the pending list, counts one more attempt and reconnects to its own slug; a timer not pending changes nothing |
| SocketClient.Cancel | src/react/hooks/useWebSocket.ts:132-135 | `clearTimeout` removes exactly the pending timer with that handle |
| SocketClient.ChangeSlug | src/react/hooks/useWebSocket.ts:113-138 | a slug change closes the old socket, cancels only the reconnect whose handle is in the ref, clears the list, flags and attempts, and connects the new slug |
| SocketClient.ChangeSlugCorrected | src/react/hooks/useWebSocket.ts:113-138 | a slug change that cancels every pending reconnect |
| SocketClient.StaleReconnectRevivesOldSlug | src/react/hooks/useWebSocket.ts:91-156 | a manual reconnect while a reconnect is pending, an abnormal close, a slug change and the older timer firing leave the hook on the new slug with a socket on the old one |
| SocketClient.CorrectedChangeSlugCancelsAll | src/react/hooks/useWebSocket.ts:113-138 | after the corrected slug change nothing is pending, so no timer firing changes the state |
| SocketClient.Reconnect | src/react/hooks/useWebSocket.ts:154-156 | a manual reconnect connects the current slug without touching the list or the schedule |
| SocketClient.OldSocketNeverReconnects | src/react/hooks/useWebSocket.ts:85-103 | after a slug change the old socket's close never schedules a reconnect |
| SocketClient.RetriesBackOff | src/react/hooks/useWebSocket.ts:91-102 | after k failed rounds the attempts are k higher, the other pending reconnects are untouched, and the next delay is the backoff of that count, never shorter than before |
| SocketClient.OpenRestartsBackoff | src/react/hooks/useWebSocket.ts:47-102 | after a successful open the next abnormal close schedules a reconnect after the base delay |
| WebhookData.GenerateSlug | src/react/hooks/useWebhookData.ts:11-18 | a generated slug is exactly nine decimal digits, each the one its random draw picks |
| WebhookData.InitialSlug | src/react/hooks/useWebhookData.ts:20-24 | the saved slug unless it is missing or empty, else a generated one |
| WebhookData.Persist | src/react/hooks/useWebhookData.ts:32-36 | a non-empty slug is stored under `pothook_slug`; an empty one stores nothing; other keys are untouched |
| WebhookData.PersistedSlugIsRestored | src/react/hooks/useWebhookData.ts:20-36 | a persisted slug is the slug the next load starts with |
| WebhookData.FirstVisitGenerates | src/react/hooks/useWebhookData.ts:20-24 | without a saved slug the generated one is used |
| WebhookData.WarningText | src/react/hooks/useWebhookData.ts:64 | the warning is the body's `message` when truthy, else its `error` |
| WebhookData.RefusalBody | src/react/hooks/useWebhookData.ts:55-66 | a refusal body is read only from a 429 whose body parses to a non-null value |
| WebhookData.SwitchUnlessRefused | src/react/hooks/useWebhookData.ts:47-73 | the slug switches, with selection reset to 0, exactly when the probe is not a readable 429; a kept slug adds one 8-second warning |
| WebhookData.ThrownProbeSwitches | src/react/hooks/useWebhookData.ts:67-72 | a probe that throws never blocks the switch |
| WebhookData.SelectedEvent | src/react/hooks/useWebhookData.ts:87 | the selected event exists exactly when the index is in range and that event is truthy |
| WebhookData.SwitchSelectsNewest | src/react/hooks/useWebhookData.ts:71-87 | after a switch the newest event is the selected one |
| Notifications.NotificationId | src/react/hooks/useNotification.ts:18 | ids start with `notification-` |
| Notifications.Show | src/react/hooks/useNotification.ts:13-37 | appends exactly one entry with the given kind and message and duration defaulting to 5000, returns its id, leaves earlier entries, and schedules removal only for a positive duration |
| Notifications.Remove | src/react/hooks/useNotification.ts:39-41 | every entry with the id goes and every other entry stays |
| Notifications.RemoveAppend | src/react/hooks/useNotification.ts:39-41 | removal distributes over concatenation, so the survivors keep their order |
| Notifications.RemoveIdempotent | src/react/hooks/useNotification.ts:39-41 | removing twice is removing once |
| Notifications.RemoveCommutes | src/react/hooks/useNotification.ts:39-41 | removals of different ids commute |
| Notifications.ShowThenExpire | src/react/hooks/useNotification.ts:13-35 | the scheduled removal of a toast with a fresh id restores the list as it was before showing it |
| Notifications.ClearAll | src/react/hooks/useNotification.ts:43-45 | after clearing no entry remains |
| RequestsView.FormatTimeAgo | src/react/scripts/requests.tsx:7-16 | under a minute (negative included) is `Just now`; an unreadable time is `NaNd ago` |
| RequestsView.MinutesAgo | src/react/scripts/requests.tsx:13 | between a minute and an hour the text is the whole minutes elapsed, 1 to 59, then `m ago` |
| RequestsView.EveryAgeHasOneBucket | src/react/scripts/requests.tsx:7-16 | every readable age gets `Just now` or the largest whole number of minutes, hours or days elapsed |
| RequestsView.TruncatePayload | src/react/scripts/requests.tsx:18-22 | a falsy payload is `No body content`; otherwise its text, cut to 50 characters plus `...` when longer, so at most 53 characters |
| RequestsView.PreviewIsStable | src/react/scripts/requests.tsx:18-22 | previewing a preview gives the same preview |

## Left out

- Logging, `console` output and the D1 schema set-up (`initDatabase`) are not modelled.
- Cloudflare plumbing is modelled by what it delivers:
  - Durable Object stubs are direct calls;
  - sockets are numbers;
  - `getWebSockets()` is the list of send outcomes;
  - D1 is a pair of insert and query oracles.
- `JSON.parse`, `JSON.stringify`, `URLSearchParams`, `Date` and ISO rendering are parameters. No round-trip of the JSON codec is assumed or proved.
- JSON numbers are integers: every number the engine produces is a count, an id or a millisecond time.
- Random id suffixes are parameters. The preservation lemmas ask for a trace id not yet in use, which the source leaves to chance.
- Separate isolates are not modelled. The worker and each receiver run in separate isolates, each with its own trace log. The model keeps one trace store for all of them. Flows never interact, so the records each flow writes are the same either way (`Trace.OtherFlowsAreIsolated`).
- Handler.TraceEndpoint: replay across isolates and across isolate restarts is not modelled. In the model the worker's `/trace/{id}` reads the one shared store, so it answers 200 for a flow a receiver opened (the `trace_id` in the receiver's 200 and 400 replies). In the source it reads only its own isolate's in-memory log, so it answers 404 "Trace not found" for such a flow, and for every flow after its isolate restarts.
- The throttle counters' 60-second TTL is not modelled: the key names the minute, so a counter past its TTL is never read again.
- The slug quota's 24-hour record TTL is covered by `RateLimiter.ExpiredRecordActsAbsent` and is not modelled as storage behaviour.
- A failure of `request.text()` itself (a broken stream) is not modelled: bodies are strings.
- The Clerk user id header is trusted as sent, as in the source. No JWT is decoded.
- Deploy.ServeAsset: the index fetch for an unknown route is returned without being awaited, so its rejection escapes the `catch`; the model gives that case an uncaught failure rather than the 500 the `catch` would produce.
- SocketClient.Reconnect: a socket already open when `reconnect()` is called is overwritten in the ref but not closed; the model tracks only the socket in the ref, so messages and the close of the orphaned socket are not modelled.
- Deploy.Fetch: its contract covers only the pre-check route. The slug routes and the worker routes are stated by `Deploy.Forward`, `Deploy.WorkerFlowSteps` and `Deploy.OtherMethodsUnderSlugAreRefused`.
- SocketClient.Apply: a history message whose `events` is a string, number, boolean or object replaces the list with that non-list value in the source. The model leaves the list unchanged there, because its list is a sequence.
- React scheduling is not modelled (batched state updates, effects running twice). Each listener and effect is one transition.
- `copyToClipboard`, the `copied` flag and the auto-select effect are not modelled. The auto-select effect only sets the index to 0 when it already is 0.
- RequestsView.TruncatePayload: lengths count Dafny characters. JavaScript counts UTF-16 code units, so the two differ for text outside the Basic Multilingual Plane.
- Strings.ParseInt: results are exact integers. JavaScript's `parseInt` returns a double, so digit runs beyond 2^53 lose precision, and `-0` is kept as 0, which `JSON.stringify` writes the same way.
- Notifications.ShowThenExpire: it needs the new id to be unused. The source draws it from the clock and `Math.random`, which does not guarantee that.

## Findings

| source | as written | input that shows it | evidently intended | confidence | as-written member | corrected member |
|---|---|---|---|---|---|---|
| src/shared/handler.ts:141-181 | `rawBody` is assigned only in the form and fallback branches, which cannot throw; the one branch that can throw (`request.json()`) never assigns it, so `body_length` and `body_preview` are always undefined in `parse/error` | POST `/post/x` with `Content-Type: application/json` and body `{bad` | read the raw text first and record its length and its first 200 characters (plus `...`) when parsing fails | high, not executed | Handler.Reject (shown by Handler.JsonParseFailureLosesPreview) | Handler.RejectCorrected (proved by Handler.RejectCorrectedReplies, using Handler.ParseFailureMeta) |
| src/react/hooks/useWebSocket.ts:99, 132-135 | each `setTimeout` overwrites the handle in `reconnectTimeoutRef` without clearing the timer before it, and a slug change clears only the handle in the ref | an abnormal close schedules T1; `reconnect()`; that socket closes abnormally and schedules T2; the slug changes to `b`, cancelling T2; T1 fires and connects `/h/a` while the hook shows `b` | a slug change cancels every reconnect still pending | medium (needs a manual `reconnect()` while a reconnect is pending), not executed | SocketClient.ChangeSlug (shown by SocketClient.StaleReconnectRevivesOldSlug) | SocketClient.ChangeSlugCorrected (proved by SocketClient.CorrectedChangeSlugCancelsAll) |

The rest of the model follows the program as written: `Handler.Parsed`, and through it ingestion, `Handler.HandleRequest` and the worker, log the as-written metadata, and `SocketClient.ChangeSlug` is the slug effect as written.
