# Verified model of two Firefox components: the WebGL client context and Places history expiration

This project models two pieces of Firefox and proves properties about them.

**The WebGL client context** (`dom/canvas/ClientWebGLContext.h`) is the content-side half of a WebGL
context. Every resource handle it hands to the page belongs to one generation of the context. That
generation is the `NotLostData` record the live context owns. A handle is usable only while its
generation is still the context's current one and it has not been deleted. Programs and shaders are
special: they are deleted when their keep-alive token dies, not when deletion is requested. The
context also keeps:

- an id counter;
- a completed-sync watermark;
- the name of the outermost API call, to which errors are attributed;
- a coalesced deferred flush, dispatched after draws.

Its entry points check their arguments before they forward a call to the host. The model covers
`bindBufferBase`, `bindBufferRange`, `framebufferTextureMultiview` and `drawRangeElements`, plus the
helpers `ValidateSubrange`, `ValidateNonNegative` and `MakeArrayFromList`.

- `webgl_validate.dfy` (module `WebGLValidate`): the argument checks as pure functions. Each returns
  the error it would enqueue, or the arguments it forwards. The unsigned casts are written out as
  two's-complement wrap-around.
- `webgl_context.dfy` (module `ClientWebGL`): the context, the handles, the keep-alive tokens, the
  function scopes and the framebuffer's attachment map, as classes whose methods update their fields.
  The entry points run the checks inside a function scope. Queued errors and host calls are recorded
  in sequence fields.

**Places history expiration** (`toolkit/components/places/PlacesExpiration.sys.mjs`) removes old
visits and orphaned data from the history database.

- A repeating timer fires every few minutes. Its period is three times longer while history is not
  DIRTY.
- On each tick the component compares the page count with a pages limit, then runs a small or a large
  expiration step.
- Idle, daily-idle, shutdown and a debug topic start other expirations.
- A run executes the SQL queries whose action mask contains the run's action.
- Each row a query returns counts down the expected-results counter and becomes a visit-removed
  notification.
- At the end of the run, a counter that reached zero marks history DIRTY; any other value marks it
  CLEAN.

The model's files:

- `places_queries.dfy` (module `ExpirationQueries`): the constants, the enumerations, the query table
  with its action masks, and the selection of queries for an action.
- `places_parse.dfy` (module `JsParseInt`): `parseInt` as the debug topic applies it to its data.
- `places_policy.dfy` (module `ExpirationPolicy`): the pure policy. It covers the step limits and the
  parameters bound into each query, the timer interval, the choice made on a timer tick, the debug
  request, the pages-limit arithmetic, the expected-results countdown and the notifications.
- `places_expiration.dfy` (module `PlacesExpiration`): the component object. Its setters, observer,
  timer tick, shutdown blocker and expiration run are methods that update its fields. The run's query
  loop is proved against the pure policy.
- `wrappers.dfy`: the `Option` and `Result` types.

The database is not modelled. What a run reads from it is passed in:

- the rows of each query;
- the page statistics;
- whether the transaction failed.

What the component hands to others is recorded in sequence fields: notification batches, interval
announcements, telemetry samples and finished-run topics.

## Model

| member | source | states |
|---|---|---|
| WebGLValidate.ToUint32 | dom/canvas/ClientWebGLContext.h:1584-1587 | the `static_cast<uint32_t>` of a signed 32-bit value keeps non-negative values and adds 2^32 to negative ones |
| WebGLValidate.ToUint64 | dom/canvas/ClientWebGLContext.h:1503-1504 | the `static_cast<uint64_t>` of a signed 64-bit value keeps non-negative values and adds 2^64 to negative ones |
| WebGLValidate.ValidateSubrange | dom/canvas/ClientWebGLContext.h:1941-1961 | fails with INVALID_VALUE exactly when the offset lies past the end, or a non-zero override exceeds what follows the offset; the offset error is reported first; on success the result is the elements from the offset on, of the override's length (or to the end when the override is 0) |
| WebGLValidate.SubrangeReachesEnd | dom/canvas/ClientWebGLContext.h:1941-1961 | a zero override yields exactly the suffix from the offset |
| WebGLValidate.SubrangeFullOverride | dom/canvas/ClientWebGLContext.h:1941-1961 | an override equal to the remaining length gives the same range as no override |
| WebGLValidate.ValidateNonNegative | dom/canvas/ClientWebGLContext.h:949-956 | passes exactly the non-negative values; otherwise it yields INVALID_VALUE naming the argument |
| WebGLValidate.BindBufferBase | dom/canvas/ClientWebGLContext.h:1479-1485 | does nothing on a lost context; otherwise forwards offset 0 and size 0 |
| WebGLValidate.BindBufferRange | dom/canvas/ClientWebGLContext.h:1487-1505 | does nothing on a lost context; rejects exactly a non-null buffer with a negative offset (reported first) or a size below 1; otherwise forwards the casts of offset and size |
| WebGLValidate.NullBufferRangeWraps | dom/canvas/ClientWebGLContext.h:1493-1504 | with a null buffer, offset and size -1 are forwarded as 2^64-1 |
| WebGLValidate.FramebufferTextureMultiview | dom/canvas/ClientWebGLContext.h:1574-1588 | does nothing on a lost context; rejects exactly a texture with fewer than one view layer; otherwise forwards the three unsigned casts |
| WebGLValidate.DrawRangeElements | dom/canvas/ClientWebGLContext.h:2202-2210 | checks no lost context; rejects exactly `end < start`; otherwise forwards an instanced draw of one instance, dropping the range |
| WebGLValidate.MakeArrayFromList | dom/canvas/ClientWebGLContext.h:2080-2104 | succeeds exactly when the list converts and holds at least N elements, yielding its first N; otherwise INVALID_VALUE, for a short list or for a failed conversion |
| ClientWebGL.ErrorOnDeleted | dom/canvas/ClientWebGLContext.h:259 | INVALID_OPERATION for every kind except programs and shaders, which override it to INVALID_VALUE |
| ClientWebGL.KeepAlive.constructor | dom/canvas/ClientWebGLContext.h:116-123 | a new token has its parent and one owner |
| ClientWebGL.KeepAlive.Share | dom/canvas/ClientWebGLContext.h:340-343 | copying the shared pointer into another owner (a shader attachment's `keepAlive`, or the active program's keep-alive at :540) adds one owner |
| ClientWebGL.KeepAlive.Release | dom/canvas/ClientWebGLContext.h:369 | resetting a shared pointer removes one owner |
| ClientWebGL.ObjectJS.constructor | dom/canvas/ClientWebGLContext.h:213-224 | a new handle belongs to the current generation, is not deleted, and takes a fresh id one above the last; a program or shader solely owns a new token whose parent is the handle |
| ClientWebGL.ObjectJS.IsForContext | dom/canvas/ClientWebGLContext.h:2425-2431 | a handle is for the context only while the context is live and the handle has a generation |
| ClientWebGL.ObjectJS.IsDeleted | dom/canvas/ClientWebGLContext.h:378 | a program or shader is deleted exactly when its token has no owner; any other kind exactly when deletion was requested |
| ClientWebGL.ObjectJS.IsUsable | dom/canvas/ClientWebGLContext.h:239-241 | a usable handle is for a live context and not deleted |
| ClientWebGL.ObjectJS.ValidateUsable | dom/canvas/ClientWebGLContext.h:236-249 | true exactly when the context is live, the handle is of its generation and is not deleted; an invalid-use warning with the id and argument name is recorded exactly when false |
| ClientWebGL.ObjectJS.Finalize | dom/canvas/ClientWebGLContext.h:368-375 | the destructor drops the handle's own owner of the token; if others still own it, the token's back-pointer is cleared |
| ClientWebGL.LostContextHasNoUsableHandle | dom/canvas/ClientWebGLContext.h:2425-2431 | on a lost context no handle is for the context or usable |
| ClientWebGL.DeletedErrorFollowsToken | dom/canvas/ClientWebGLContext.h:377-379 | the kinds that raise INVALID_VALUE on deleted use are exactly those whose deletion follows a token |
| ClientWebGL.FuncScope.constructor | dom/canvas/ClientWebGLContext.h:857-865 | entering a call installs its scope only when no outer scope is active, and holds the current generation |
| ClientWebGL.FuncScope.End | dom/canvas/ClientWebGLContext.h:867-871 | leaving a call clears the current scope only when it is this one, so the scope is cleared exactly when the outermost call ends |
| ClientWebGL.ClientWebGLContext.constructor | dom/canvas/ClientWebGLContext.h:777-781 | a new context has no generation, no id issued, no pending flush and no scope |
| ClientWebGL.ClientWebGLContext.LoseGeneration | dom/canvas/ClientWebGLContext.h:777 | a loss releases the generation record |
| ClientWebGL.ClientWebGLContext.BeginGeneration | dom/canvas/ClientWebGLContext.h:193-210 | a restored context owns a fresh generation record, to which no earlier handle belongs |
| ClientWebGL.ClientWebGLContext.NextId | dom/canvas/ClientWebGLContext.h:784 | ids go up by one and are never issued twice |
| ClientWebGL.ClientWebGLContext.OnSyncComplete | dom/canvas/ClientWebGLContext.h:2277-2282 | the completed-sync watermark becomes the larger of itself and the id |
| ClientWebGL.ClientWebGLContext.FuncName | dom/canvas/ClientWebGLContext.h:882-884 | no name when no call is active; otherwise the outermost active call's name |
| ClientWebGL.ClientWebGLContext.EnqueueError | dom/canvas/ClientWebGLContext.h:887-909 | appends the error, attributed to the outermost active call |
| ClientWebGL.ClientWebGLContext.AutoEnqueueFlush | dom/canvas/ClientWebGLContext.h:1120-1140 | sets the pending flag, dispatching a task only when none was pending |
| ClientWebGL.ClientWebGLContext.CancelAutoFlush | dom/canvas/ClientWebGLContext.h:1142 | clears the pending flag |
| ClientWebGL.ClientWebGLContext.AfterDrawCall | dom/canvas/ClientWebGLContext.h:1146-1154 | on a live context, marks the canvas dirty exactly when no draw framebuffer is bound, then schedules a flush; on a lost context, nothing changes |
| ClientWebGL.ClientWebGLContext.Conclude | dom/canvas/ClientWebGLContext.h:1491-1504 | a rejected check queues its error, and a passed check records the host call |
| ClientWebGL.ClientWebGLContext.BindBufferBase | dom/canvas/ClientWebGLContext.h:1479-1485 | queues no error; forwards exactly when the context is live |
| ClientWebGL.IdOf | dom/canvas/ClientWebGLContext.h:1503-1504 | the handle forwarded to the host: none for a null handle, otherwise its id |
| ClientWebGL.ClientWebGLContext.BindBufferRange | dom/canvas/ClientWebGLContext.h:1487-1505 | queues the check's error, attributed to the outermost call, or forwards its arguments; the scope is restored afterwards |
| ClientWebGL.ClientWebGLContext.FramebufferTextureMultiview | dom/canvas/ClientWebGLContext.h:1574-1588 | queues the view-layer error or forwards the attachment; the scope is restored afterwards |
| ClientWebGL.ClientWebGLContext.DrawRangeElements | dom/canvas/ClientWebGLContext.h:2202-2210 | queues exactly the end-before-start error, or forwards one instanced draw |
| ClientWebGL.DeferredFlush | dom/canvas/ClientWebGLContext.h:1124-1134 | a task for a destroyed context does nothing; otherwise it flushes once only if the flag was still pending and the preference allows it, always leaving the flag cleared |
| ClientWebGL.WebGLFramebufferJS.constructor | dom/canvas/ClientWebGLContext.h:299 | a new framebuffer has no attachments |
| ClientWebGL.WebGLFramebufferJS.GetAttachment | dom/canvas/ClientWebGLContext.h:316-323 | a hit returns the slot without changes; a miss ensures the colour attachments, which adds the missing colour slots and keeps every existing slot as it was, then returns the slot exactly when it is present afterwards |
| ClientWebGL.StaleAfterLoss | dom/canvas/ClientWebGLContext.h:2425-2431 | a handle made before a loss is not for the context after a later restore |
| ClientWebGL.NestedCallsAttributeOutermost | dom/canvas/ClientWebGLContext.h:851-884 | an error raised inside a nested call names the outer call, and no scope remains afterwards |
| ClientWebGL.DrawsCoalesceFlushes | dom/canvas/ClientWebGLContext.h:1120-1154 | two draws dispatch one task, and that task flushes once |
| ClientWebGL.AttachedShaderOutlivesHandle | dom/canvas/ClientWebGLContext.h:467-477 | a shader whose token is shared is not deleted when its handle is destroyed, and is deleted once the last owner lets go |
| ExpirationQueries.SelectedMembers | toolkit/components/places/PlacesExpiration.sys.mjs:789-791 | a query runs in a run exactly when it is in the table, its mask holds the action, and it is not disabled |
| ExpirationQueries.ActionsOf | toolkit/components/places/PlacesExpiration.sys.mjs:164-403 | every query's mask holds IDLE_DIRTY, IDLE_DAILY and DEBUG |
| ExpirationQueries.Runs | toolkit/components/places/PlacesExpiration.sys.mjs:791 | every query but the interactions one runs exactly when its mask holds the action |
| ExpirationQueries.Selected | toolkit/components/places/PlacesExpiration.sys.mjs:789-791 | the loop runs at most the queries it walks |
| ExpirationQueries.SelectedSnoc | toolkit/components/places/PlacesExpiration.sys.mjs:789-791 | walking one more query adds it exactly when it runs |
| ExpirationQueries.SelectedKeepsOrder | toolkit/components/places/PlacesExpiration.sys.mjs:789-791 | the queries of a run execute in declaration order |
| ExpirationQueries.QueriesInDeclarationOrder | toolkit/components/places/PlacesExpiration.sys.mjs:138-410 | the table lists each query at its declaration position |
| ExpirationQueries.AllQueriesListed | toolkit/components/places/PlacesExpiration.sys.mjs:138-410 | every query is in the table the run walks |
| ExpirationQueries.SelectedRunsListed | toolkit/components/places/PlacesExpiration.sys.mjs:791 | a listed query is selected exactly when its mask holds the action and it is enabled |
| ExpirationQueries.TimedRuns | toolkit/components/places/PlacesExpiration.sys.mjs:211-386 | the TIMED bit is set exactly on the URI, hosts, annotations, input-history and notification queries |
| ExpirationQueries.TimedStepSelection | toolkit/components/places/PlacesExpiration.sys.mjs:211-386 | a plain timed step runs exactly those seven queries |
| ExpirationQueries.VisitsSearchedExactly | toolkit/components/places/PlacesExpiration.sys.mjs:146-190 | both visit-finding queries run for every action except TIMED and SHUTDOWN_DIRTY |
| ExpirationQueries.InteractionsFollowPreference | toolkit/components/places/PlacesExpiration.sys.mjs:389-408 | interactions expire exactly when their preference enables them and the action is not TIMED |
| JsParseInt.SkipWhitespace | toolkit/components/places/PlacesExpiration.sys.mjs:510 | the result is the suffix of the input that starts at its first non-white-space character |
| JsParseInt.DigitRun | toolkit/components/places/PlacesExpiration.sys.mjs:510 | the leading run of digits is maximal |
| JsParseInt.Decimal | toolkit/components/places/PlacesExpiration.sys.mjs:510 | decimal text is a non-empty string of digits |
| JsParseInt.DecimalValue | toolkit/components/places/PlacesExpiration.sys.mjs:510 | decimal text is all digits, and its digits are worth the number written |
| JsParseInt.ParseIntDecimal | toolkit/components/places/PlacesExpiration.sys.mjs:510 | `parseInt` reads decimal text back as its number |
| JsParseInt.ParseUnsignedDecimal | toolkit/components/places/PlacesExpiration.sys.mjs:510 | the unsigned part of `parseInt` reads decimal text back as its number |
| JsParseInt.ParseIntMinus | toolkit/components/places/PlacesExpiration.sys.mjs:510 | a leading minus negates the number read after it, and text with no digits stays NaN |
| JsParseInt.ParseIntMinusOne | toolkit/components/places/PlacesExpiration.sys.mjs:510-511 | the text "-1" reads as -1 |
| JsParseInt.ParseIntShape | toolkit/components/places/PlacesExpiration.sys.mjs:510 | `parseInt` of blank text, or of text that starts with neither a sign nor a digit, is NaN; a negative result needs a leading minus |
| ExpirationPolicy.StepLimit | toolkit/components/places/PlacesExpiration.sys.mjs:866-888 | the base limit for the limit kind (-1, 6, 60 or the debug limit), tripled on DIRTY history for a non-debug action when positive |
| ExpirationPolicy.BaseLimit | toolkit/components/places/PlacesExpiration.sys.mjs:866-882 | -1 when unlimited, 6 for a small step, 60 for a large one, the debug limit for a debug run |
| ExpirationPolicy.QueryParamsFor | toolkit/components/places/PlacesExpiration.sys.mjs:890-931 | exactly six queries get parameters; the visits query binds the pages limit; the exotic and plain visits queries and interactions bind the step limit, or 0 visits in an unlimited debug run; URIs and input history bind the step limit; annotations bind three times the step limit |
| ExpirationPolicy.OnlyVisitsQueryReadsPagesLimit | toolkit/components/places/PlacesExpiration.sys.mjs:890-931 | no query except the visits query depends on the pages limit |
| ExpirationPolicy.DirtyExpiresNineTimesFaster | toolkit/components/places/PlacesExpiration.sys.mjs:47-57 | per unit of time, dirty history expires nine times as many entries as clean history when the base limit is positive |
| ExpirationPolicy.IntervalPref | toolkit/components/places/PlacesExpiration.sys.mjs:443-453 | the interval preference keeps positive values and replaces the others with 180 |
| ExpirationPolicy.TimerInterval | toolkit/components/places/PlacesExpiration.sys.mjs:955-959 | the timer period is the interval on DIRTY history and three times the interval otherwise |
| ExpirationPolicy.TimedRequest | toolkit/components/places/PlacesExpiration.sys.mjs:565-581 | TIMED_OVERLIMIT exactly when pages exceed the limit; LARGE exactly when they exceed it by more than 1000 |
| ExpirationPolicy.TimedRequestConsistent | toolkit/components/places/PlacesExpiration.sys.mjs:572-577 | a large timed step is always over the limit, and a timed step looks for visits exactly when over the limit |
| ExpirationPolicy.DebugRequest | toolkit/components/places/PlacesExpiration.sys.mjs:507-528 | -1 runs unlimited and keeps the debug limit; a positive value becomes the debug limit; anything else, NaN included, sets it to -1 |
| ExpirationPolicy.DebugTopicVisitLimit | toolkit/components/places/PlacesExpiration.sys.mjs:507-528 | a debug topic with a number in decimal binds that many visits into the visits query |
| ExpirationPolicy.DebugTopicUnlimited | toolkit/components/places/PlacesExpiration.sys.mjs:510-515 | the topic data "-1" runs unlimited and binds -1 visits |
| ExpirationPolicy.CeilDiv | toolkit/components/places/PlacesExpiration.sys.mjs:706 | `Math.ceil` of a division by a positive divisor is the least multiple count covering the dividend |
| ExpirationPolicy.AvgUriSize | toolkit/components/places/PlacesExpiration.sys.mjs:705-711 | the rounded-up average entry size, replaced by 700 when there are no URIs or it exceeds 2100 |
| ExpirationPolicy.MeasuredPagesLimit | toolkit/components/places/PlacesExpiration.sys.mjs:701-712 | the least page count filling 75 MiB at the average size, between 37450 and 78643200 |
| ExpirationPolicy.PagesLimit | toolkit/components/places/PlacesExpiration.sys.mjs:678-722 | the cached value if any, else a non-negative max_pages, else the measured limit, else 100000 |
| ExpirationPolicy.PagesLimitLowerBound | toolkit/components/places/PlacesExpiration.sys.mjs:705-721 | without max_pages the limit is never below 37450 |
| ExpirationPolicy.CountRow | toolkit/components/places/PlacesExpiration.sys.mjs:594-603 | a row expecting nothing leaves the counter; otherwise the counter starts at the row's expectation if absent, and drops by one while positive |
| ExpirationPolicy.CountRowsSnoc | toolkit/components/places/PlacesExpiration.sys.mjs:797-799 | counting one more row continues the countdown |
| ExpirationPolicy.CountRows | toolkit/components/places/PlacesExpiration.sys.mjs:594-603 | a running counter stays present, never grows and never drops below 0 |
| ExpirationPolicy.CountRowsConcat | toolkit/components/places/PlacesExpiration.sys.mjs:789-801 | counting over consecutive queries is counting over their rows in sequence |
| ExpirationPolicy.CountdownFrom | toolkit/components/places/PlacesExpiration.sys.mjs:594-603 | a running counter drops by one per positive row and stops at 0 |
| ExpirationPolicy.CountdownFresh | toolkit/components/places/PlacesExpiration.sys.mjs:594-603 | starting absent, the counter stays absent exactly when no row expects anything; otherwise it ends at the first expectation minus the positive rows, floored at 0 |
| ExpirationPolicy.StatusAfterRun | toolkit/components/places/PlacesExpiration.sys.mjs:825-826 | DIRTY exactly when the counter reached 0, else CLEAN |
| ExpirationPolicy.DirtyIffAllExpectedFound | toolkit/components/places/PlacesExpiration.sys.mjs:820-826 | a run that started without a counter ends DIRTY exactly when it found as many rows as the first expectation |
| ExpirationPolicy.NextTelemetrySteps | toolkit/components/places/PlacesExpiration.sys.mjs:829-840 | the step count goes up while DIRTY and is reset to 1 otherwise |
| ExpirationPolicy.Notification | toolkit/components/places/PlacesExpiration.sys.mjs:622-634 | the notification carries the row's URL and GUID; it marks a whole-entry removal, or otherwise a partial removal when the visit date is positive, never both |
| ExpirationPolicy.ExpectedColumn | toolkit/components/places/PlacesExpiration.sys.mjs:594 | one expected_results value per row, in row order |
| ExpirationPolicy.Notifications | toolkit/components/places/PlacesExpiration.sys.mjs:622-634 | one notification per row, in row order |
| PlacesExpiration.Expiration.constructor | toolkit/components/places/PlacesExpiration.sys.mjs:412-453 | the initial fields and preference values, with the interval preference made positive |
| PlacesExpiration.Expiration.NewTimer | toolkit/components/places/PlacesExpiration.sys.mjs:940-971 | the old timer is cancelled; unless shutting down, idle is observed and a live timer runs at the status's interval, announced in testing mode |
| PlacesExpiration.Expiration.SetExpireOnIdle | toolkit/components/places/PlacesExpiration.sys.mjs:735-754 | idle is observed exactly when not shutting down; idle expiration is on exactly when requested and no debug limit was ever set |
| PlacesExpiration.Expiration.SetStatus | toolkit/components/places/PlacesExpiration.sys.mjs:646-655 | a changed status cancels the timer and, unless shutting down, starts one at the new status's interval (announced in testing mode); idle is observed exactly before shutdown, and idle expiration is on exactly when history became DIRTY; an unchanged status changes nothing |
| PlacesExpiration.Expiration.SetIntervalPref | toolkit/components/places/PlacesExpiration.sys.mjs:443-453 | the transformed interval is stored; before shutdown the timer is renewed with it, idle is observed and, in testing mode, the new interval is announced; during shutdown the old timer is only cancelled and nothing else changes |
| PlacesExpiration.Expiration.SetMaxPagesPref | toolkit/components/places/PlacesExpiration.sys.mjs:430-440 | a max_pages change drops the cached pages limit |
| PlacesExpiration.Expiration.OnDatabaseInitialized | toolkit/components/places/PlacesExpiration.sys.mjs:472-477 | once the database is set up, before shutdown the timer starts at the status's interval, idle is observed and, in testing mode, the interval is announced; during shutdown the old timer is only cancelled and nothing else changes |
| PlacesExpiration.Expiration.GetPagesLimit | toolkit/components/places/PlacesExpiration.sys.mjs:678-722 | returns the pages limit and caches it |
| PlacesExpiration.Expiration.Notify | toolkit/components/places/PlacesExpiration.sys.mjs:565-581 | a tick requests the timed expiration that the page count and the pages limit choose |
| PlacesExpiration.Expiration.Observe | toolkit/components/places/PlacesExpiration.sys.mjs:502-557 | nothing after shutdown; otherwise, per topic: a debug request from the parsed data; idle start stops the timer and expires if idle expiration is on; idle end restarts a missing timer; daily idle requests a large step; the testing and init topics set their flags; each topic leaves the timer, the idle observer, the announcements and the other topics' flags unchanged |
| PlacesExpiration.Expiration.StartDebug | toolkit/components/places/PlacesExpiration.sys.mjs:507-528 | the debug topic requests a debug expiration with the limit the parsed data picks, and sets the debug limit unless the data is -1 |
| PlacesExpiration.Expiration.OnIdleBegin | toolkit/components/places/PlacesExpiration.sys.mjs:529-538 | idle start drops the timer, and requests a large idle step exactly when idle expiration is on |
| PlacesExpiration.Expiration.OnIdleEnd | toolkit/components/places/PlacesExpiration.sys.mjs:539-543 | idle end keeps a running timer, and otherwise starts one at the status's interval |
| PlacesExpiration.Expiration.OnHistoryCleared | toolkit/components/places/PlacesExpiration.sys.mjs:548-555 | clearing history makes the status CLEAN; a change renews the timer at the CLEAN interval and turns idle expiration off |
| PlacesExpiration.Expiration.Shutdown | toolkit/components/places/PlacesExpiration.sys.mjs:483-498 | runs once: shutting down, idle no longer observed, no idle expiration, no timer, and a large shutdown step exactly when DIRTY |
| PlacesExpiration.Expiration.HandleRow | toolkit/components/places/PlacesExpiration.sys.mjs:583-635 | after shutdown a row changes nothing; before it, the row counts down and appends its notification |
| PlacesExpiration.Expiration.HandleRows | toolkit/components/places/PlacesExpiration.sys.mjs:797-799 | a query's rows, in order, count down the counter and append their notifications |
| PlacesExpiration.Expiration.GetQueryParams | toolkit/components/places/PlacesExpiration.sys.mjs:792-796 | the parameters of one query; only the visits query fills the pages-limit cache |
| PlacesExpiration.Expiration.HandleQueryRows | toolkit/components/places/PlacesExpiration.sys.mjs:797-799 | one more query's rows are accounted for after those of the earlier queries |
| PlacesExpiration.Expiration.RunQueries | toolkit/components/places/PlacesExpiration.sys.mjs:788-802 | the transaction executes the selected queries in order with their parameters; the counter and the notifications are those of all their rows, in order; the pages-limit cache is filled exactly when the visits query was among them |
| PlacesExpiration.Expiration.RunQuery | toolkit/components/places/PlacesExpiration.sys.mjs:791-799 | one more query executes with its parameters, and its rows are counted and notified after the earlier ones; the pages-limit cache is filled if it is the visits query and untouched otherwise |
| PlacesExpiration.Expiration.FinishRun | toolkit/components/places/PlacesExpiration.sys.mjs:805-849 | the end of a run that did not fail: a non-empty batch is notified, a kept counter decides status and telemetry and is dropped, a status change renews the timer at the new status's interval, and the finished topic is sent |
| PlacesExpiration.Expiration.SettleStatus | toolkit/components/places/PlacesExpiration.sys.mjs:824-840 | the counter sets the status, with the timer and idle fields the status setter leaves; telemetry counts dirty steps and records the count when the status leaves DIRTY |
| PlacesExpiration.Expiration.Run | toolkit/components/places/PlacesExpiration.sys.mjs:783-849 | a run that is not skipped: the transaction, then the end of the run unless it failed, timer renewal on a status change included; a failed run leaves the status, timer and notifications as they were; the pages-limit cache is filled exactly when the visits query ran |
| PlacesExpiration.Expiration.Expire | toolkit/components/places/PlacesExpiration.sys.mjs:776-850 | after shutdown only the shutdown step runs; otherwise the run executes and ends as the transaction's outcome dictates, the pages-limit cache being filled exactly when the visits query ran |
| PlacesExpiration.SelectedPrefixStep | toolkit/components/places/PlacesExpiration.sys.mjs:789-791 | the queries selected from one more table entry |
| PlacesExpiration.PlanSnoc | toolkit/components/places/PlacesExpiration.sys.mjs:792-797 | one more executed query appends its parameters to the plan |
| PlacesExpiration.NextQuery | toolkit/components/places/PlacesExpiration.sys.mjs:797-799 | one more query's rows are counted and notified after the earlier ones |

## Left out

- Inter-process communication with the host WebGL context is not modelled. Nor is any host-side
  behaviour: a forwarded call is only recorded.
- Compositing, canvas presentation and the contents of `NotLostData` are not modelled, apart from
  the bound draw framebuffer.
- Some methods are only declared in the header; their bodies live elsewhere. The model gives them
  bodies on these assumptions:
  - the `ObjectJS` constructor records the context's current generation, takes `NextId()`, and gives
    a program or shader a token it solely owns;
  - `WarnInvalidUse` records the handle's id and the argument's name;
  - `EnsureColorAttachments` adds colour slots that are missing and keeps the slots already present.
    The slots it adds are a parameter of `GetAttachment`;
  - `MarkCanvasDirty` is counted.
- The context-loss machinery (`mLossStatus`, restore timers) is reduced to losing and installing a
  generation record.
- ClientWebGL.ClientWebGLContext.NextId: the 64-bit id counter is unbounded. The wrap-around after
  2^64 ids is not modelled.
- ClientWebGL.WebGLFramebufferJS.GetAttachment: returns the attachment by value, not a pointer into
  the map. Aliasing through that pointer is not modelled.
- The keep-alive tokens are reference counts. `shared_ptr` and `weak_ptr` are not modelled.
- `FuncScope` holds the generation record that was current when the call began. Nothing in the model
  reads it, and what that strong reference keeps alive is not modelled.
- Floating point is not modelled. The Places arithmetic (`Math.ceil`, the pages limit, `parseInt`) is
  exact integer arithmetic. `parseInt` precision beyond 2^53 and exponent forms are ignored.
- Query action masks are sets of actions, not bit masks.
- The SQL of the queries and the database itself are not modelled. Each query's rows and the page
  statistics are parameters.
- Date.now and the most-recent-expired-visit telemetry are not modelled.
- Promise scheduling is not modelled. A run is atomic: no other event interleaves between its `await`
  points, and the shutdown flag is read once per run.
- A transaction that throws is modelled as failing after all its queries ran. A failure part-way
  through is not modelled.
- The idle service, observer registration and the timer are flags and a value. The dispatch of the
  tick to an idle callback is not modelled.
- The telemetry probes are recorded as samples only.
- ExpirationPolicy.PagesLimit: requires a measured database to have a positive page size and at least
  one page in use. The source would divide by a zero size.
- The `browser.places.interactions.enabled` preference and the `expireDays` preference are
  parameters.
