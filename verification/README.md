# Verified model of the zenstats ingestion core

A Dafny model of the parts of zenstats that turn requests into rows and keep counters and caches
right while many goroutines run, with proofs of what these parts promise. `dafny verify
dfyconfig.toml` checks all of it.

The model has three layers.

- **Sessions** (`internal/session`). Every update of a session appends a cancelling copy of its old row
  and its new row to a write buffer; the rows travel through in-flight batches to a collapsing table.
  `SessionRows` and `SessionFold` say what a row means, `CollapsingTable` what the table makes of a
  log of rows, `SessionProtocol` is the state machine of all workers, flushes and evictions,
  `SessionInvariant` and `SessionSteps` prove its invariant, `SessionTheorems` draws the
  consequences, `SessionManager` has the classes as the code has them, `SessionHandling` and
  `SessionChoice` show that what they do is a run of the state machine, `SessionOrder` shows what one
  missing guarantee of the code costs, and `SessionShutdown` what the last flushes leave behind.
- **The pipeline around it** (`internal/event`, `pkg/generic`, `internal/session/balancer.go`):
  `DynamicQueue`, `Pipeline` (dispatcher, worker, pool, ordered shutdown), `Balancer`, `EventBuffer`
  (slices and arrays of the event buffer), `EventBufferRuns` (its interleavings), `Retry` and
  `AdaptiveBatch`. `Ingest` puts the pipeline, the balancer and the sessions together into one system.
- **Counters, limits, caches and calculations**: `Quota` and `QuotaRuns`, `RateLimiter` (calls one after
  the other), `RateLimiterRuns` and `RateLimiterBursts` (concurrent calls), `ApiKeys` and `ApiKeyRuns`,
  `ShieldRules` and `ShieldRuleRuns`, `Calendar` and `ReportPeriods`, `Referrer`.

Concurrent code is modelled as a state machine: a step is one lock section, one atomic operation, one
channel operation or one call to a database, and a theorem about runs is about every sequence of
enabled steps. Fields marked "recorded" decide no step. Sequential code is modelled by classes
and methods that are proved against functions on values, and the state machines use the same
functions.

## Hypotheses

- Session ids are fresh. A process may find rows of earlier ones: every stored session has collapsed to its
  newest state, no stored version is above the start of the version counter, and no two sessions of a
  visitor start at the same time (`SessionProtocol.BaseOk`). A process that has flushed everything leaves
  such a table (`SessionTheorems.RestartIsSafe`).
- `GetActiveSessionAt` answers as its query says on the collapsed table: the live row with the latest
  start, then the greatest version, among those whose window contains the time and that start at most
  seven days before it.
- No batch of rows fails for good.
- Runs are orderly: no session batch leaves `inflight` while memory keeps only older states of one of its
  sessions (`SessionProtocol.Orderly`). Runs whose batches leave in the order in which they were taken are
  (`SessionOrder.TakenOrderIsOrderly`). The code does not enforce either, and the condition is exact: see the
  first item below.
- The goroutine pool accepts every task, and blocks the submitter while it is full.
- The clock does not go back, in the modules where it matters.
- A database call that reports an error has changed nothing, except in `Retry`, where a lost
  acknowledgement is the point.

## What turned out false of the code

- Two live rows for one session are possible: `SessionOrder.OvertakingBreaksCollapse`. The exact condition is
  `SessionOrder.LeaveSafeIff`: when no event is in progress, a batch may leave memory without danger to any
  session, whatever follows, if and only if no session keeps an older state in memory than the batch takes
  away. With an idle worker every batch that violates it can break its session
  (`SessionOrder.UnsafeLeaveBreaks`); runs without such a batch never break one
  (`SessionTheorems.EverySessionCollapses`).
- A request accepted between the dispatcher's last empty `Dequeue` and its `IsClosed` is lost although
  `Enqueue` returned nil: `Pipeline.GapLosesRequest`; `Pipeline.LosesNothingIff` says that nothing
  else is.
- An `Add` of the event buffer that has passed the `closed` check when `Shutdown` runs can leave its event
  in the buffer for good: `EventBufferRuns.LateAddIsStranded`; `EventBufferRuns.ShutdownSafeIff` says that
  this is the only case. In the pipeline it cannot happen, because the pool is empty before the
  buffer is closed (`Pipeline.NothingRefused`).
- `Enqueue` of a queue made with capacity 0 blocks for ever with the lock held: the contract of
  `DynamicQueue.DynamicQueue.Enqueue`.
- A stored quota count can be wrong: a failed `loadFromDB` makes the next flush overwrite it
  (`QuotaRuns.FailedLoadForgets`), and snapshots of one month written out of order lose counts
  (`QuotaRuns.OvertakenWriteForgets`). `QuotaRuns.StoredRightIff` says for every row and moment exactly when it
  is right.
- A deleted key, or the key of a suspended user, can be accepted for up to the TTL after `DeleteAPIKey` or
  `UpdateUserStatus` has returned: `ApiKeyRuns.DeletedKeyAccepted` and `ApiKeyRuns.SuspendedKeyAccepted`.
  `ApiKeyRuns.DeletesAtOnceIff` and `ApiKeyRuns.SuspendsAtOnceIff` say exactly when this cannot happen, and
  `ApiKeyRuns.StaleAtMostTTL` for how long it can last.
- Twice the limit bounds what the rate limiter allows in an interval as long as a window only when calls come
  one after the other (`RateLimiter.AtMostTwiceTheLimit`). A call reads the clock before it takes a lock, so
  concurrent calls can get one less than three times the limit (`RateLimiterBursts.AlmostThreeTimesIsReached`),
  which is the most they can get (`RateLimiterRuns.AtMostMost`); `RateLimiterBursts.TwiceSufficesIff` says for
  which delays and limits twice the limit remains the bound.
- The exit page of a session depends on the order in which its events arrive:
  `SessionFold.ExitPageDependsOnOrder` says for which events.
- An initial batch size from 1 to 49 is outside its own bounds: `AdaptiveBatch.StartsInRange`.
- `internal/session/README.md` gives the session cache a capacity of 1000 and says that a mutex serialises
  users; the code uses 200,000 entries and 100 workers. The model follows the code.

## Model

| member | source | states |
|---|---|---|
| SessionRows.HistoryGrows | internal/session/session.go:126-235 | along the states of a session identity, start and sign stay, versions strictly grow, and a time inside an earlier window is inside every later one |
| SessionFold.RowCounts | internal/session/session.go:130-245 | visitor and details are those of the first event, `Events` and `PageViews` are counts, `Timestamp` is the maximum, `Start` the first arrival's time, `Duration` the whole seconds between them without the clamp, and `IsBounce` is 1 iff there was at most one pageview and every interactive event was a pageview or an engagement |
| SessionFold.RowPages | internal/session/session.go:192-221 | the exit page is the path of the last pageview not older than everything before it (or of the first event); entry page and host are the first non-empty values offered |
| SessionFold.HistoryIsFold | internal/session/session.go:192-235 | a session's row is the fold of its events up to the version |
| SessionFold.OrderIrrelevant | internal/session/session.go:192-235 | permuting the events after the first changes no column but exit page, entry page and host |
| SessionFold.SameEventsSameRow | internal/session/session.go:192-235 | two sessions with the same first event and the same later events in any order end in rows equal but for those three columns, version and session id |
| SessionFold.ExitPageDependsOnOrder | internal/session/session.go:208-217 | two events in the opposite order give another exit page iff both are pageviews of different paths at one time not older than the row, or one is a pageview not older than the row, of another path than its exit page, and the other a later event that is none |
| CollapsingTable.ZigCounts | internal/session/session.go:116-121 | in the log of a session every replaced version occurs once with each sign |
| SessionInvariant.PendingHasNewest | internal/session/buffer.go:142-169 | if any state of a session is among the pending rows, so is its newest |
| CollapsingTable.ReplacedIsNotLive | sql/clickhouse/clickhouse.sql:308-311 | once the log of a session is in the table, none of its replaced states is live |
| CollapsingTable.NewestIsLive | sql/clickhouse/clickhouse.sql:308-311 | and its newest state is |
| SessionInvariant.PendingLookup | internal/session/buffer.go:142-169 | `FindPendingAt` returns the newest state of a session whose window contains the time; nothing only if no session with a state in memory contains it |
| SessionInvariant.TableLookup | internal/store/clickhouse/repository/sessions.go:118-144 | the database, asked after memory was searched, returns the newest state although rows moved to it in between, and of the sessions that contain the event and started in the seven days before it the one that started last |
| SessionSteps.StepKeeps | internal/session/session.go:96-124 | every step of a worker, a flush or an eviction keeps the invariant, as long as batches leave safely: cache entries newest, and table, batches not inserted and buffer together the log |
| SessionSteps.Reachable | internal/session/session.go:55-124 | the invariant holds after every orderly run of a process that starts on a table of earlier ones |
| SessionTheorems.EverySessionCollapses | internal/session/session.go:96-124 | in every orderly run, whenever no event of its visitor is being handled, the rows of a session, stored by this process or an earlier one, cancel to exactly one, of the greatest version: every older state is there a second time, equal in every column but the sign -1, and there is no other row |
| SessionTheorems.TableShowsNewest | internal/session/buffer.go:90-111 | when nothing is pending, the live rows of the table are exactly the newest states |
| SessionTheorems.ChosenIsNewest | internal/session/session.go:91-128 | the state chosen for update is the newest of its session, of the same user and site, and the event falls between its start and 30 minutes after its last event; a session is opened only if every newest state with that property started more than seven days before the event |
| SessionTheorems.CacheIsNewest | internal/session/session.go:247-254 | a cached entry whose visitor has no event in progress is never stale |
| SessionTheorems.Conservation | internal/session/session.go:72-124 | this process has added to the signed sums of events, pageviews and rows the calls that returned a session, those of them that were pageviews, and the sessions it opened |
| SessionTheorems.RowIsFoldOfCalls | internal/session/session.go:72-124 | the row a session has collapsed to counts exactly the events stored before and those of the calls that returned it, in call order |
| SessionTheorems.RestartIsSafe | internal/session/session.go:61-63 | a process that has flushed everything leaves a table on which the next one may start with any counter at least as high |
| SessionHandling.HandleIsRun | internal/session/session.go:106-123 | `handleEvent` without interruption is a run of the state machine with the effect `Handle` |
| SessionChoice.LookupIsDefined | internal/session/buffer.go:142-169 | in an orderly run memory never holds two states of one session and version, so the lookup has one answer |
| SessionChoice.ChooseIsRun | internal/session/session.go:91-105 | the session that the manager chooses (cache, memory, database) is one that the worker of the state machine chooses |
| SessionShutdown.ShutdownFlushesAll | internal/session/buffer.go:224-230 | after the last call the flushes can always finish, and then the live rows of the table are the newest states and the next process can start |
| SessionOrder.OvertakingBreaksCollapse | internal/session/buffer.go:102-111 | a run in which a later batch overtakes an earlier one leaves a session with two live rows and a doubly cancelled one |
| SessionOrder.UnsafeLeaveBreaks | internal/session/buffer.go:102-111 | after any batch that takes away a newer state of a session than memory keeps, with the worker idle, the run can go on so that the session never collapses |
| SessionOrder.LeaveSafeIff | internal/session/buffer.go:102-111 | with no event in progress, every session collapses whatever follows until the next batch leaves, iff the batch takes away no newer state of a session than memory keeps |
| SessionOrder.TakenOrderIsOrderly | internal/session/buffer.go:90-111 | runs whose batches leave in the order taken have only such batches |
| SessionOrder.MemorySorted | internal/session/buffer.go:90-111 | in-flight batches and buffer together hold the states of every session in the order of their versions |
| SessionOrder.RunIsWellNumbered | internal/session/session.go:298-301 | a session has one visitor, one start and one state per version, and no two sessions of a visitor start together |
| SessionOrder.PendingLookupRight | internal/session/buffer.go:142-169 | `FindPendingAt` returns only newest states, for every time, iff the newest state of every session in memory is there |
| SessionOrder.InOrderNotOvertaken | internal/session/buffer.go:102-111 | every state of an orderly run meets that condition |
| SessionManager.WriteBuffer.Add | internal/session/buffer.go:60-68 | refused after shutdown, otherwise appended at the end |
| SessionManager.WriteBuffer.TakeBatch | internal/session/buffer.go:90-100 | the whole buffer becomes one in-flight batch |
| SessionManager.WriteBuffer.FindPendingAt | internal/session/buffer.go:142-169 | the two scans and the choice compute the pending lookup of the state machine: of the unreplaced states whose window contains the time the one that started last |
| SessionManager.Manager.UpdateSession | internal/session/session.go:192-235 | the field by field update makes a fresh struct equal to `UpdateRow`; the bounce flag stays 1 iff it was, there is at most one pageview and the event is not interactive, a pageview or an engagement |
| SessionManager.Manager.UpdateSessionCache | internal/session/session.go:247-254 | a late event of an earlier session does not evict the current one, and otherwise the new pointer is cached; other visitors' entries stay |
| SessionManager.Manager.Load | internal/session/session.go:271-284 | memory first, then the database; the result is a copy |
| SessionManager.Manager.HandleEvent | internal/session/session.go:96-124 | counter, cache and buffer change as `Handle` says, through fresh structs only, so rows already buffered or cached keep their values; an update appends a copy of the old row with sign -1 in all other columns the same, then the new row |
| Balancer.OneAtATimeInOrder | internal/session/balancer.go:26-43 | a worker runs its tasks one at a time in the order they entered its queue; a user's tasks all go to one worker |
| Balancer.ReplyMatchesRun | internal/session/balancer.go:56-76 | a call that returned a value ran its task exactly once and got that run's result; one that timed out ran it not at all |
| Balancer.EveryCallReturns | internal/session/balancer.go:38-76 | from every reachable state, without new calls and without timeouts, every call returns, with a value unless it had timed out |
| Balancer.EveryStepCounts | internal/session/balancer.go:38-76 | every step but a new call decreases a measure, so under every schedule the calls there are come to their end |
| Balancer.RunWorker | internal/session/balancer.go:38-43 | the loop runs the queue in order and records every result |
| Ingest.HandOversAgree | internal/event/event.go:300-309 | the balancer, the session worker and `processEvent` never wait for each other at a hand-over |
| Ingest.CallWrites | internal/session/session.go:72-124 | a call that returned a session has added exactly one new state of it, after the tombstone of the one it replaces; a call that failed, timed out at the queue or had no session, and a request dropped before it, have added nothing; nothing else adds rows |
| Ingest.StoredAreReturned | internal/event/event.go:300-309 | `processEvent` hands an event to the buffer exactly for the requests whose call returned a session, once each |
| Ingest.TablesAgree | internal/event/event.go:300-309 | when no request is being processed, the signed sum of `events` over the session rows has grown by the number of events given to the event buffer, which refused none |
| DynamicQueue.DynamicQueue.Enqueue | pkg/generic/queue.go:29-64 | appends or refuses as the abstract queue does; blocks exactly for a capacity of 0 that would have to grow |
| DynamicQueue.DynamicQueue.Dequeue | pkg/generic/queue.go:67-84 | removes and returns the first item, stashed or not |
| DynamicQueue.DynamicQueue.Peek | pkg/generic/queue.go:90-112 | returns the first item and changes nothing observable |
| DynamicQueue.Fifo | pkg/generic/queue.go:29-143 | over every run, what left followed by what is inside is what entered; the capacity stays between its initial value and `maxSize`; after `Close` nothing enters |
| DynamicQueue.DrainsInOrder | pkg/generic/queue.go:67-84 | dequeuing n times returns the first n items in order, closed or not |
| Pipeline.NothingRefused | internal/event/event.go:314-330 | no event meets a closed buffer, nothing is processed after a shutdown of buffer or sessions, no loop leaves through the cancelled context, requests reach the pool in order |
| Pipeline.ShutdownDrains | internal/event/event.go:95-154 | after the pool wait every accepted request outside the gap was processed exactly once and each of its events is in the buffer |
| Pipeline.LosesNothingIff | internal/event/event.go:134-154 | shutdown loses nothing iff no request was accepted between the last empty `Dequeue` and the `IsClosed` after it |
| Pipeline.GapLosesRequest | internal/event/event.go:134-154 | a run in which such a request is lost |
| Pipeline.DrainingEnds | internal/event/event.go:314-328 | after the queue is closed every run has a bounded number of steps |
| Pipeline.ShutdownCompletes | internal/event/event.go:314-328 | every run after the close can be continued until `Shutdown` has finished |
| Pipeline.Drain | internal/event/event.go:126-154 | the dispatcher's loop on a closed queue sends all that is left, in order, and returns |
| EventBuffer.WriteBuffer.Add | internal/event/buffer.go:84-110 | refused after shutdown, dropped and counted at the limit, otherwise appended; batches being written do not change |
| EventBuffer.WriteBuffer.TakeBatch | internal/event/buffer.go:132-143 | the batch has the buffer's events in its own array; buffer, in-flight and pooled slices never share an array |
| EventBuffer.WriteBuffer.Recycle | internal/event/buffer.go:145-147 | a written batch goes back to the pool and no other batch or the buffer changes |
| EventBufferRuns.EachEventInOnePlace | internal/event/buffer.go:84-148 | at every step each event added is in exactly one place; the buffer is within its limit and at most 8 spawned flushes run |
| EventBufferRuns.ShutdownSettlesAll | internal/event/buffer.go:155-221 | after the wait of `Shutdown` every event was written, failed, dropped or refused, unless an `Add` was caught between its check and the lock |
| EventBufferRuns.ShutdownSafeIff | internal/event/buffer.go:84-221 | `Shutdown` leaves nothing behind, whatever the schedule, iff no `Add` is between its check and the lock when the buffer is closed (the only-if half for batch sizes from 2) |
| EventBufferRuns.LateAddIsStranded | internal/event/buffer.go:84-221 | a run in which such an event stays in the buffer for good |
| Retry.WriteBatch | internal/event/buffer.go:177-204 | no error is returned iff some try reports success and no wait before it is cut short; with a fresh token the rows are stored once if some try stores them up to the first that reports success or is cut short, and not at all otherwise, and once if no error is returned |
| Retry.EachBatchOnce | internal/session/buffer.go:198-222 | however attempts of many batches interleave, the table has each batch that got through exactly once |
| Retry.DuplicateWithoutToken | internal/event/buffer.go:187-193 | for any number of attempts: without a token the rows are stored once iff exactly one attempt goes through, with one iff at least one does |
| AdaptiveBatch.StartsInRange | internal/event/buffer.go:42-61 | the initial size is inside its bounds iff it is not 1 to 49 |
| AdaptiveBatch.StaysInRange | internal/event/buffer.go:223-258 | with racing adjustments the size stays between half the initial size, or 50, and twice the initial size |
| AdaptiveBatch.FastReachesMax | internal/event/buffer.go:239-257 | repeated fast averages reach the upper bound within (max - size) / 5 adjustments |
| AdaptiveBatch.SlowReachesMin | internal/event/buffer.go:239-257 | repeated slow averages reach the lower bound within (size - min) / 5 adjustments |
| AdaptiveBatch.Tuner.AdjustBatchSize | internal/event/buffer.go:223-258 | grows the size by a tenth when the mean duration is below 100 ms, shrinks it by a tenth when it is above 500 ms, up to its bounds, and leaves it otherwise |
| AdaptiveBatch.AverageIsMean | internal/event/buffer.go:233-237 | the sum adds up and the average is the mean rounded toward zero |
| Quota.MonthlyQuota.TryIncrement | internal/event/quota.go:60-77 | counts the call iff the maximum is negative or the count of the current month is below it; a finished month's table is handed out and never changed again |
| Quota.MonthlyQuota.Increment | internal/event/quota.go:43-55 | counts the call and returns the new count, with the same hand-over |
| Quota.MonthlyQuota.FlushSnapshot | internal/event/quota.go:137-166 | sets the rows of the job, in any order, and no other |
| Quota.MonthlyQuota.Flush | internal/event/quota.go:195-204 | sets the rows of the month in memory, finished or current, to the counts in memory, and no other |
| QuotaRuns.CountIsGranted | internal/event/quota.go:43-121 | a count is the loaded value, in the starting month only, plus the calls counted this month |
| QuotaRuns.CapIsExact | internal/event/quota.go:60-77 | under a fixed maximum the count is the loaded value plus the attempts, cut off at the maximum |
| QuotaRuns.HandedOutOnce | internal/event/quota.go:88-99 | months are handed out in strictly increasing order, once, with their final counts |
| QuotaRuns.EveryMonthHandedOut | internal/event/quota.go:88-99 | every finished month in which a call was counted has been handed out |
| QuotaRuns.StoredIsGranted | internal/event/quota.go:102-204 | once a row has been copied after its last counted call and its writes have landed in order, it holds what it held at the start plus the calls counted, iff the load succeeded or had nothing to lose there; other rows do not matter |
| QuotaRuns.StoredRightIff | internal/event/quota.go:102-204 | at every moment a stored count is its start value plus the calls counted iff the write that landed last on the row was copied or handed out after the row's last counted call and did not replace a count missed by a failed load |
| QuotaRuns.FailedLoadForgets | internal/event/quota.go:102-121 | a run in which a failed load loses a stored count |
| QuotaRuns.OvertakenWriteForgets | internal/event/quota.go:137-166 | a run in which writes out of order lose counts |
| ApiKeys.Service.Validate | internal/service/apikey.go:221-276 | with the cache the answer is the database's: a stored key is expired iff its expiry time is past, then suspended iff the status is "suspended", else its user's |
| ApiKeys.Service.Delete | internal/service/apikey.go:186-206 | removes the key with its cache entry, or nothing |
| ApiKeys.Service.UpdateUserStatus | internal/service/users.go:172-186 | fails without a configuration, otherwise sets the status and leaves no stale entry |
| ApiKeys.Service.InvalidateUser | internal/service/apikey.go:210-217 | drops exactly the user's entries |
| ApiKeys.Service.FlushDirty | internal/service/apikey.go:75-109 | writes each dirty last use to its own row and drops exactly the clean entries that are too old |
| ApiKeyRuns.HitIsLookup | internal/service/apikey.go:221-276 | under any interleaving an answer from the cache, once running changes have returned, is the database's, except exactly when a change was written while the call behind the entry held its reads and the key is gone or, before its expiry, the status differs; it is "expired" iff the expiry time is past |
| ApiKeyRuns.DeletesAtOnceIff | internal/service/apikey.go:186-276 | a deletion takes effect as soon as it has returned, whatever the schedule, iff no call holds the key as read when the row is deleted |
| ApiKeyRuns.SuspendsAtOnceIff | internal/service/users.go:172-186 | a suspension takes effect as soon as it has returned, whatever the schedule, iff no call holds an active status of the user for an unexpired key when it is written |
| ApiKeyRuns.StaleAtMostTTL | internal/service/apikey.go:36-38 | a deleted key or an old status is served for at most ten minutes plus the duration of the reads behind the entry |
| ApiKeyRuns.DeletedKeyAccepted | internal/service/apikey.go:186-276 | a run in which a key is accepted after its deletion has returned |
| ApiKeyRuns.SuspendedKeyAccepted | internal/service/users.go:172-186 | a run in which the key of a suspended user is accepted after `UpdateUserStatus` has returned |
| ShieldRules.SiteService.List | internal/service/sites.go:509-527 | the stored rules, cached or not |
| ShieldRules.SiteService.AddRule | internal/service/sites.go:1030-1051 | stores the rule first in its list unless it is malformed or, except for referrers, the same site has a rule about the same subject, and changes no other list; rules of other sites never stand in the way |
| ShieldRules.SiteService.RemoveRule | internal/service/sites.go:530-552 | takes exactly that rule of that site out of its list, or fails |
| ShieldRules.OthersUnchanged | internal/service/sites.go:484-552 | a change touches no list but its own |
| ShieldRuleRuns.CachesCoherent | internal/service/sites.go:484-552 | whenever no change holds the lock every cached list is the stored one |
| ShieldRuleRuns.ListIsCurrent | internal/service/sites.go:1054-1070 | a listing holds exactly the rules its site has when it returns |
| ShieldRuleRuns.StoreIsSerial | internal/service/sites.go:484-552 | the store is what the changes make of it one after the other |
| RateLimiter.Limiter.Allow | internal/api/external/externalevent.go:52-92 | refuses exactly when the key's window is open and full, counts an allowed call there or in a new window of the scale in seconds, and touches no other key |
| RateLimiter.Limiter.Cleanup | internal/api/external/externalevent.go:95-104 | removes exactly the windows that are over |
| RateLimiter.AnswerIsPerKey | internal/api/external/externalevent.go:52-104 | two histories with the same calls of a key give the same answer, whatever other keys did and however often the windows were cleaned |
| RateLimiter.WindowsExact | internal/api/external/externalevent.go:76-91 | windows of a key never overlap and cover its calls, and in each the answers that allow number exactly the smaller of its calls and the limit |
| RateLimiter.StaysRefused | internal/api/external/externalevent.go:52-104 | a refused key stays refused until its scale in seconds has passed since the call that opened the window, which has allowed exactly the limit |
| RateLimiter.AtMostTwiceTheLimit | internal/api/external/externalevent.go:52-92 | in any interval as long as a window, ends included, at most twice the limit of a key's calls are allowed |
| RateLimiter.TwiceIsReached | internal/api/external/externalevent.go:52-92 | for every limit a run in which twice the limit are allowed |
| RateLimiterRuns.WindowsHold | internal/api/external/externalevent.go:52-92 | under every interleaving a window allows at most its limit, only calls that read the clock before its end, and refuses only when exactly the limit has been allowed |
| RateLimiterRuns.AtMostMost | internal/api/external/externalevent.go:52-104 | under every interleaving of calls and cleanups in which calls take at most a quarter of the window, an interval as long as a window sees at most one less than three times the limit allowed, and twice the limit if calls take no time |
| RateLimiterRuns.UninterruptedIsAllow | internal/api/external/externalevent.go:52-104 | calls and cleanups that nobody interrupts do what the atomic `Allow` and `Cleanup` do |
| RateLimiterBursts.AlmostThreeTimesIsReached | internal/api/external/externalevent.go:52-104 | for every limit a run with one less than three times the limit: a cleanup between a call's clock reading and its update lets a window start early |
| RateLimiterBursts.LateCallsAreCounted | internal/api/external/externalevent.go:52-92 | for every limit a run without cleanup with two less than three times the limit: late calls are counted by the next window |
| RateLimiterBursts.TwiceSufficesIff | internal/api/external/externalevent.go:52-104 | twice the limit is the bound under concurrency iff calls take no time, or the limit is 1, or it is 2 and calls take one nanosecond at most |
| Calendar.DateOfRight | internal/service/email_report.go:344-353 | the date computed for a day number is a date with that number |
| Calendar.DateOfDayNumber | internal/service/email_report.go:344-353 | and the date of a date's number is that date |
| Calendar.NextDate | internal/service/email_report.go:344-353 | dates follow each other by the Gregorian rules, with the first of January 1970 in its place |
| Calendar.NextWeekday | internal/service/email_report.go:337-339 | and so do the days of the week |
| ReportPeriods.WeeklyTrigger | internal/service/email_report.go:337-347 | for every offset from UTC-12 to UTC+14 a run up to 140 hours after Monday 00:00 UTC reports the Monday to Sunday just over |
| ReportPeriods.WeeklyRightIff | internal/service/email_report.go:311-347 | the run reports the week just over iff lateness, the 14 hours of the anchor and the offset add up to at least nothing and less than a week |
| ReportPeriods.MonthlyTrigger | internal/service/email_report.go:349-353 | a run up to 26 days after the 1st 01:00 UTC reports the whole month just over, leap years included |
| ReportPeriods.ConsecutiveTile | internal/service/email_report.go:337-353 | consecutive reports leave no gap and do not overlap |
| ReportPeriods.InOneWeek | internal/service/email_report.go:337-347 | every whole second is in exactly one weekly report |
| ReportPeriods.InOneMonth | internal/service/email_report.go:349-353 | every whole second is in exactly one monthly report |
| ReportPeriods.UnshiftedRightIff | internal/service/email_report.go:311-317 | without the anchor shift the weekly report is right iff the site is not west of UTC |
| ReportPeriods.AdHocIs | internal/service/email_report.go:355-358 | any other report covers the 168 hours before its run |
| Referrer.RuleAction | internal/event/event.go:687-700 | the best-so-far loop returns the action of the newest of the most specific rules that apply |
| Referrer.AppliesMeans | internal/event/event.go:687-700 | a rule applies iff it allows or denies and its host, without one leading "*.", is a label suffix of the host |
| Referrer.IsSpam | internal/event/referrer_blocklist.go:47-65 | the walk finds exactly the hosts with a label suffix in the list |
| Referrer.SpamIsUnder | internal/event/referrer_blocklist.go:47-65 | that is, the hosts that are or are under a listed domain |
| Referrer.EqualLengthIsEqual | internal/event/event.go:687-700 | two domains of equal length that contain the host are the same |
| Referrer.OrderMattersForTiesOnly | internal/event/event.go:670-685 | swapping neighbouring rules about different domains never changes the decision |
| Referrer.Drops | internal/event/event.go:672-685 | the site's deciding rule, else the block list |

## Left out

- Crashes and several processes at once: a process starts on what earlier ones have flushed, and runs alone.
- Widths and rounding: counters are unbounded integers, `DateTime` columns keep nanoseconds, the factors 1.1 and 0.9 are exact tenths.
- Seed and historical events (`createHistoricalSession`, `WriteSession`): rows with version 1 and no session logic.
- `FindPending`: unused by `OnEvent`.
- The columns that are only copied are one opaque value. `UserAgent`, which `CopySession` does not copy, is never set on a session.
- Session ids, salts and user ids: given, and fresh; their bit layout is not modelled.
- Rows that the ClickHouse driver refuses to append are not modelled.
- The LRU and its TTL: an entry may disappear at any step.
- Real time: tickers, backoff and the 30 seconds after which `Shutdown` returns early are steps that may happen at any time or not at all; the 30-second return itself is not modelled.
- The dispatcher's and the worker's loops run concurrently and are steps of `Pipeline`; only the drain of a closed queue is also written as a loop.
- DynamicQueue.DynamicQueue.Enqueue: does not model callers waiting for the lock that a blocked call holds.
- QuotaRuns.StoredRightIff: assumes that stored counts are not negative and that months after the first have no stored rows at the start; the query and update of one row are one step, and a creation that finds the row created meanwhile is a failed write.
- EventBufferRuns.ShutdownSafeIff: the only-if half is not stated for a batch size below 2, where every late `Add` tries to spawn a flush of its own.
- Ingest: historical events, which bypass the session calls, and the checks before them; a request dropped by those is one whose `processEvent` returns without a call.
- ShieldRules: deletion of a whole site, which cascades to its rules, and writes that take effect but report an error.
- RateLimiter.Limiter.Allow: one call is one step; its sections under the read lock and the write lock are separate steps in `RateLimiterRuns` only.
- RateLimiterRuns.AtMostMost: says nothing of calls that take longer than a quarter of the window.
- ReportPeriods.WeeklyTrigger: fixed offsets only; a change of daylight saving time inside a period is not modelled.
- `NormalizeHostname`, URL, user-agent and GeoIP parsing: inputs are taken as normalised.
- HTTP handlers, routing, authentication, mail rendering, configuration and the report queries: plumbing without a protocol.
