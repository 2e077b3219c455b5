# Verified models of the MCP memory server

These Dafny modules model the parts of the server that hold state across
goroutines or across calls, and prove what that state keeps. `dafny verify
dfyconfig.toml` checks all of them.

Code that runs under one lock, or on one goroutine, is a class whose methods
change its fields; where calls interleave, a labelled step system has one label
for each atomic action of the source (an atomic load, store or add, a channel
operation, a locked section), and statements range over all its runs. The two
are tied: a class method's new state is a step, or a run, of the system.

| files | component |
|---|---|
| `AsyncPipeline`, `AsyncHandlers`, `FactoryShutdown` | the asynchronous log pipeline: producers, bounded channel, consumer, Flush, Close; the batching front end; closing a factory built on it |
| `OtlpExporter` | the batching OTLP exporter |
| `TimeWindow`, `TimeWindowCounters` | the sliding-window counter, an array compacted in place |
| `ErrorMetricsModel`, `MapSums` | error tallies by code, operation and component |
| `SseTransport`, `SseServer` | SSE connections, message queues, broadcasts, Stop |
| `SessionManagement` | sessions and their two-phase expiry |
| `AuditRotation` | the audit log and its rotating files |
| `SpanTables`, `TraceParent` | active spans; the traceparent header of W3C Trace Context |
| `AdaptiveRate`, `SamplingRules`, `RuleOverlap`, `Sampling` | the rate controller, the priority rules, and the strategies combined by the sampler |
| `EntityTables`, `EntityStatistics`, `StorageBackends`, `KnowledgeManager` | the two storage backends and the create-entities request |
| `LevelPatterns`, `LoggerFactory` | component levels and the logger cache |
| `Options`, `Counting` | shared: optional values, counters along a run |

Channels are sequences, times are integers passed in as `now`, and floating
point rates are real numbers. History that the program does not keep (what was
accepted, dropped, lost) is recorded beside the state so that statements can
mention it. What a counter, a size or an answer means is stated apart from the
function that computes it: as the cardinality of a set of calls, or in terms of
the calls alone (`CountersExact`, `ActivityIsLastTouch`, `StoredAsAsked`).

Some promises of the code, its names or its comments hold only under a
condition. For each, the exact condition is proved, together with a failing
input or run:

* Closing the async handler is safe, and complete, exactly when no goroutine is
  between its closed check and its send, no derived handler has copied the flag
  while it was open and none has been closed (`ShutdownSafeIffNobodyAtRisk`,
  `CrashAfterCheck`). In the joint runs of handler and factory, closing the
  factory is therefore safe exactly when it never built a logger
  (`CloseSafeIffNoLoggers`). A closed copy makes the next Handle on an open root
  panic (`HandleCrashesIffCopyClosed`).
* Flush can return with the entry in flight undelivered
  (`FlushLeavesAtMostOne`, `FlushCanReturnEarly`).
* Closing the OTLP handler exports everything accepted exactly when the queue is
  empty at the call, or the loop cannot start (`ShutdownExportsIff`,
  `RecordLost`); a second Close panics, as does a negative BatchSize
  (`OneCloseIsSafe`).
* Rate queries are exact up to size*interval and not beyond (`QueriesExactIff`,
  `LongQueryMisses`).
* The client map is the set of live connections exactly while no session is
  shared (`ExactIffUnshared`, `SharedSessionMissed`); a Stop panics exactly when
  a client is still mapped that an earlier Stop signalled (`StopPanicsIff`,
  `TwoStopsPanic`).
* MaxFiles bounds the audit files from 2 on (`FilesBounded`); with 1, two files
  remain and `.1` is overwritten (`FileBound`, `Rotate`).
* The tracing health report is healthy exactly when the limit is not negative
  (`HealthBalances`).
* `FormatTraceParentAdvanced` asks for 64 bits of a 128-bit trace id
  (`AdvancedFormatSucceedsIff`); `ParseTraceParentAdvanced` does not check for
  hex digits although its comments ask for them (`AdvancedAcceptsNonHex`), and
  reads the flags as a signed byte (`BitZeroReportedIff`, `FlagsMisread`).
* Priority rules are tried in list order, not "higher priority first". On every
  record the highest matching priority is used exactly when no rule can meet a
  later one of higher priority (`PriorityOrderIff`). Field by field this is a
  question about the conditions (`PriorityOrderDecided`), answered from them
  alone if no field is compared both as a text and as a number
  (`SeparateDecidable`); the default rules break the promise
  (`DefaultRulesMisordered`).
* `UpdateConfig` of the adaptive strategy does not clamp the rate; how long it
  stays outside the limits is given by `NextInRangeIff`, `ReturnFromBelowIff` and
  `ReturnFromAboveIff` (`StillOutOfRange`). The ticker's own period is refused
  after a change (`TickRefusedIff`).
* The two backends agree exactly under the conditions of `AcceptanceAgreesIff`
  and `EqualTablesIff` (`BackendsDiffer`); the reported count is the growth of the table under that
  of `CountIsGrowthIff` (`CountExceedsGrowth`); creation is audited before it
  happens (`AuditTruthfulIff`, `AuditReportsUnstored`).
* A component cannot be made more verbose than the global level
  (`UpdateTakesEffectIff`), and a logger kept across an update keeps its old
  level (`KeptLoggerCurrentIff`, `StaleLogger`).
* A level lookup with wildcards depends on map iteration order unless nested
  patterns agree (`OrderFreeIff`), and removing an entry restores the default
  only if no pattern covers the component (`RemoveComponentLevel`).

## Model

| member | source | states |
|---|---|---|
| `AsyncPipeline.AlwaysConserved` | pkg/logging/async.go:124-249 | In every state of every interleaving of producers, consumer and Close: accepted entries = delivered, in flight, buffered, in order; the buffer is within its size; every counter plus the updates still pending equals what it counts |
| `AsyncPipeline.DropsOnlyWhenFull` | pkg/logging/async.go:134-142 | An entry is dropped exactly when its producer reaches the select with `bufferSize` entries in the channel, and a dropped entry is never accepted |
| `AsyncPipeline.StatisticsBalance` | pkg/logging/async.go:124-249 | BufferedEntries plus pending updates equals ProcessedEntries + ErrorCount + pending + in flight + buffered; exact equality at quiescence |
| `AsyncPipeline.CountersExact` | pkg/logging/async.go:195-202 | ProcessedEntries is the number of returns of the inner handler without an error, ErrorCount the number with one, but for an update still to be made |
| `AsyncPipeline.FlushesExact` | pkg/logging/async.go:252-265 | FlushCount is the number of calls of Flush that found the handler open |
| `AsyncPipeline.FlushLeavesAtMostOne` | pkg/logging/async.go:252-265 | When Flush sees the buffer empty, at most one entry accepted before it started is undelivered, namely the one in flight, and exactly when the consumer holds it and nothing was accepted meanwhile |
| `AsyncPipeline.FlushCanReturnEarly` | pkg/logging/async.go:252-265 | Witness run in which Flush returns with nothing delivered |
| `AsyncPipeline.ShutdownComplete` | pkg/logging/async.go:183-293 | If nobody is at risk when Close sets the flag, and nobody closes a copy, nothing panics or is accepted afterwards, and when doneCh closes every accepted entry was delivered once, in order, and counted, on both exit paths |
| `AsyncPipeline.AwaitedCloseDelivered` | pkg/logging/async.go:278-293 | Under the same hypothesis a Close that returns on doneCh returns after the last delivery |
| `AsyncPipeline.ShutdownSafeIffNobodyAtRisk` | pkg/logging/async.go:124-175 | Once the flag is set, every continuation short of closing a copy is safe if and only if no producer sits between its closed check and its send, no derived handler holds a stale flag and none has been closed |
| `AsyncPipeline.CopyCloseCrashes` | pkg/logging/async.go:146-175 | A derived handler has its own closeOnce: closing it beside the original panics, in either order |
| `AsyncPipeline.HandleCrashesIffCopyClosed` | pkg/logging/async.go:124-143 | On a root that is still open, a Handle that nobody interrupts panics if and only if a derived handler has been closed |
| `FactoryShutdown.CloseSafeIffNoLoggers` | pkg/logging/factory.go:144-326 | In every joint run of factory and async handler, where building a logger copies the handler and Close holds the mutex: from the moment the flag is set, every continuation shuts down safely and completely if and only if no logger has ever been built |
| `AsyncPipeline.ConsumerCanMove` | pkg/logging/async.go:183-249 | Once closeCh is closed the consumer has an action to take until it has exited |
| `AsyncPipeline.ConsumerFinishes` | pkg/logging/async.go:183-249 | From a quiet closing state the consumer takes at most 3 actions per buffered entry plus a constant, on any interleaving |
| `AsyncHandlers.HandleIsARun` | pkg/logging/async.go:124-143 | An uninterrupted Handle is a run of the step system |
| `AsyncHandlers.DrainDelivers` | pkg/logging/async.go:230-249 | Draining appends exactly the buffer to the delivered entries and counts each once |
| `AsyncHandlers.DrainTallied` | pkg/logging/async.go:237-244 | While draining, ErrorCount stays the number of delivered entries on which the inner handler fails and ProcessedEntries the number of the others |
| `AsyncHandlers.DrainIsARun` | pkg/logging/async.go:230-249 | The drain loop is a run of the step system |
| `AsyncHandlers.ExitsAgree` | pkg/logging/async.go:186-208 | Whichever case the select takes, receiving or draining, the final state is the same |
| `AsyncHandlers.CloseIsARun` | pkg/logging/async.go:268-293 | A Close that no Handle overlaps is a run that delivers everything accepted and returns on doneCh |
| `AsyncHandlers.AsyncHandler.constructor` | pkg/logging/async.go:85-121 | A new handler is in an initial state; a non-positive size means 1000 |
| `AsyncHandlers.AsyncHandler.Handle` | pkg/logging/async.go:124-143 | Error exactly when closed; otherwise the entry is accepted or dropped and one counter moves |
| `AsyncHandlers.AsyncHandler.ProcessEntry` | pkg/logging/async.go:195-202 | Takes and delivers the first entry, and adds to ErrorCount if the inner handler failed, to ProcessedEntries if not; Valid ties both counters to the delivered entries |
| `AsyncHandlers.AsyncHandler.DrainBuffer` | pkg/logging/async.go:230-249 | The loop ends in the drained state |
| `AsyncHandlers.AsyncHandler.ProcessLoop` | pkg/logging/async.go:183-210 | After the close signal the loop and the drain together end in the drained state, whatever the select chooses |
| `AsyncHandlers.TimeoutIsARun` | pkg/logging/async.go:284-289 | A Close that gives up after the time limit loses nothing from the buffer |
| `AsyncHandlers.AsyncHandler.Close` | pkg/logging/async.go:268-293 | Idempotent; ends in the state CloseIsARun describes, or that of TimeoutIsARun |
| `AsyncHandlers.BatchingAsyncHandler.constructor` | pkg/logging/async.go:411-429 | Empty batch; a non-positive batch size means 100; the inner buffer holds 1000 |
| `AsyncHandlers.BatchingAsyncHandler.ForwardBatch` | pkg/logging/async.go:471-476 | Hands over the whole batch in order, or nothing at all to a closed handler |
| `AsyncHandlers.BatchingAsyncHandler.ProcessBatch` | pkg/logging/async.go:466-482 | Clears the batch exactly when it was handed over |
| `AsyncHandlers.BatchingAsyncHandler.LockedHandle` | pkg/logging/async.go:442-462 | Forwarded entries followed by the batch remain the handled entries, even on a handler closed after the check; the error says exactly that a full batch met a closed handler |
| `AsyncHandlers.BatchingAsyncHandler.Handle` | pkg/logging/async.go:432-463 | The same invariant, with the batch shorter than batchSize after every call on an open handler |
| `AsyncHandlers.BatchingAsyncHandler.BatchTimeout` | pkg/logging/async.go:456-460 | The timer callback forwards the whole batch |
| `AsyncHandlers.BatchingAsyncHandler.Close` | pkg/logging/async.go:485-498 | Everything handled before Close has been offered once and in order; unless it times out everything accepted is delivered and the rest was dropped |
| `OtlpExporter.AlwaysConserved` | pkg/logging/otlp.go:54-137 | Exported batches concatenated, current batch and queue are the accepted records in order; batches are non-empty and within the limit; failures count the drops |
| `OtlpExporter.DropsOnlyWhenFull` | pkg/logging/otlp.go:64-72 | A record is dropped exactly when it finds the queue full, and accepted otherwise |
| `OtlpExporter.ExportSizes` | pkg/logging/otlp.go:116-133 | An export has exactly BatchSize records if and only if a record triggered it |
| `OtlpExporter.TickExports` | pkg/logging/otlp.go:123-134 | After a tick, and after the loop has returned, everything taken from the queue has been exported, in one more batch if there was any |
| `OtlpExporter.ShutdownExports` | pkg/logging/otlp.go:129-134 | After the loop returns, the records not exported are exactly those left in the queue, where they stay |
| `OtlpExporter.ShutdownExportsIff` | pkg/logging/otlp.go:201-207 | At the call of Close: every continuation in which the loop returns exports all that was accepted by then, if and only if the queue is empty at that moment or the loop has yet to start and cannot |
| `OtlpExporter.RecordLost` | pkg/logging/otlp.go:129-134 | A run in which an accepted record is never exported |
| `OtlpExporter.OneCloseIsSafe` | pkg/logging/otlp.go:110-112 | The handler crashes exactly when Close has been called twice, on it or on copies, or its loop has started with a negative BatchSize or without a positive Timeout |
| `OtlpExporter.ClosedAlone` | pkg/logging/otlp.go:201-207 | When a Close that nobody disturbs returns, what was accepted before it is exported or still queued, in order, and nothing else has been accepted or dropped |
| `OtlpExporter.OTLPHandler.Handle` | pkg/logging/otlp.go:54-75 | Passes on the next handler's error and then leaves the state alone, as it does when disabled; otherwise one enqueue step, or a handoff on an unbuffered queue |
| `OtlpExporter.OTLPHandler.Iterate` | pkg/logging/otlp.go:114-136 | One loop iteration is the step of the select case taken; every attempt succeeds |
| `OtlpExporter.OTLPHandler.RunToEnd` | pkg/logging/otlp.go:114-136 | Once done is closed the loop, left to itself, stops after finitely many of its own steps, whichever ready case it takes |
| `OtlpExporter.OTLPHandler.Close` | pkg/logging/otlp.go:201-207 | Nothing when disabled; otherwise a run that closes done: the original returns only when the loop has returned, a copy at once; panics exactly on a second call or when the loop it waits for cannot start |
| `TimeWindow.RemIsMod` | pkg/logging/error_metrics.go:189-189 | The remainder used for Truncate is the arithmetical one |
| `TimeWindow.WindowsWellFormed` | pkg/logging/error_metrics.go:181-206 | For every call sequence, on any clock: at most `size` windows, strictly increasing, multiples of the interval |
| `TimeWindow.EvictedIsStale` | pkg/logging/error_metrics.go:193-197 | A window evicted from a full list is already out of reach of every query of at most size intervals |
| `TimeWindow.WindowedEqualsHistory` | pkg/logging/error_metrics.go:181-253 | On a non-decreasing clock a query of at most size*interval sums exactly what the complete event history would |
| `TimeWindow.RateIsBracketed` | pkg/logging/error_metrics.go:209-232 | The total lies between the true amounts of the last duration-interval and of the last duration |
| `TimeWindow.QueriesExactIff` | pkg/logging/error_metrics.go:209-253 | Queries of a duration are exact on all runs if and only if the duration is at most size*interval |
| `TimeWindow.VisibleCounts` | pkg/logging/error_metrics.go:218-223 | The number of visible windows is the size of the set of windows after the cutoff |
| `TimeWindow.SeesIff` | pkg/logging/error_metrics.go:209-228 | On a non-decreasing clock a query of any duration sees a window if and only if the history has an event after the cutoff, truncated |
| `TimeWindowCounters.NewTimeWindowCounter` | pkg/logging/error_metrics.go:45-51 | No counter for a negative window count, on which make panics; otherwise an empty one of the given size and interval |
| `TimeWindowCounters.TimeWindowCounter.DropFirst` | pkg/logging/error_metrics.go:247-248 | The in-place shift and truncation removes exactly the first k windows |
| `TimeWindowCounters.TimeWindowCounter.CleanOldWindows` | pkg/logging/error_metrics.go:241-253 | Removes the windows before the first fresh one, and nothing when all are stale |
| `TimeWindowCounters.TimeWindowCounter.IncrementBy` | pkg/logging/error_metrics.go:181-206 | The buffer is the replay of all calls since the last Reset, this one included; panics exactly on a counter of no windows |
| `TimeWindowCounters.TimeWindowCounter.SumVisible` | pkg/logging/error_metrics.go:216-224 | The loop's total and count |
| `TimeWindowCounters.TimeWindowCounter.AnswersLikeHistory` | pkg/logging/error_metrics.go:209-232 | The object answers as its complete history would |
| `TimeWindowCounters.TimeWindowCounter.GetRate` | pkg/logging/error_metrics.go:209-232 | On a non-decreasing clock: the total of the complete history per second for any positive duration up to size*interval, zero when no event is visible, and not finite exactly for a zero duration with a visible event |
| `TimeWindowCounters.QuotientIsPerSecond` | pkg/logging/error_metrics.go:230-231 | The rate times the duration in seconds is the total |
| `TimeWindowCounters.TimeWindowCounter.Reset` | pkg/logging/error_metrics.go:235-239 | Empties windows and history |
| `ErrorMetricsModel.CodeCountsExact` | pkg/logging/error_metrics.go:66-66 | Each code's count is the number of events with that code |
| `ErrorMetricsModel.TableExact` | pkg/logging/error_metrics.go:69-82 | Each cell counts the events of its code and group; the empty group has none |
| `ErrorMetricsModel.TablesExact` | pkg/logging/error_metrics.go:68-81 | The table by operation counts the events of an operation, the one by component those of a component |
| `ErrorMetricsModel.CodesSumToTotal` | pkg/logging/error_metrics.go:63-66 | The counts of all codes add up to the total |
| `ErrorMetricsModel.GroupsSumPerCode` | pkg/logging/error_metrics.go:69-82 | A code's cells add up to its events that name a group, never more than its count |
| `ErrorMetricsModel.ErrorMetrics.constructor` | pkg/logging/error_metrics.go:34-42 | Empty tables, enabled, 60 one-minute windows |
| `ErrorMetricsModel.ErrorMetrics.RecordError` | pkg/logging/error_metrics.go:54-86 | Tables stay exact tallies of the events since the last Reset, and the rate counter sees the same events; nothing changes while disabled |
| `ErrorMetricsModel.ErrorMetrics.Reset` | pkg/logging/error_metrics.go:143-152 | No events remain; the enabled flag stays |
| `SseTransport.ClientsAlwaysSound` | internal/transport/sse.go:312-349 | In every reachable state each mapped client is a live connection of that session with an open channel, even when connections share a session |
| `SseTransport.BroadcastNeverPanics` | internal/transport/sse.go:464-476 | No step but Stop panics: a broadcast never sends on a closed channel |
| `SseTransport.FirstStop` | internal/transport/sse.go:130-139 | The first Stop does not panic and signals exactly the mapped clients |
| `SseTransport.PanicNeedsSecondStop` | internal/transport/sse.go:130-139 | A crash of the transport needs a second Stop |
| `SseTransport.StopPanicsIff` | internal/transport/sse.go:130-139 | A Stop panics if and only if it finds a client mapped that an earlier Stop found mapped too |
| `SseTransport.TwoStopsPanic` | internal/transport/sse.go:130-139 | A run of two Stops that panics |
| `SseTransport.ExactIffUnshared` | internal/transport/sse.go:312-349 | Along a run the map is exactly the set of live connections if and only if nobody registers under a session in use |
| `SseTransport.StopSignalsEveryone` | internal/transport/sse.go:130-139 | The first Stop signals every live connection if and only if the map holds exactly the live connections, as it does with unshared sessions |
| `SseTransport.SharedSessionMissed` | internal/transport/sse.go:319-322 | A run with two connections under one session: the first stays live, unmapped and unsignalled |
| `SseTransport.MessagesAlwaysSound` | internal/transport/sse.go:329-392 | Per session: taken then queued = accepted, in order; at most 100 queued; no response reaches a connection of another session |
| `SseTransport.ReconnectFindsBacklog` | internal/transport/sse.go:329-335 | A serving connection reads the channel that holds everything accepted and not taken |
| `SseTransport.AlwaysAccounted` | internal/transport/sse.go:447-461 | Each produced response is accepted, dropped, unrouted or still with its sender, exactly one of them |
| `SseServer.SSETransport.RegisterClient` | internal/transport/sse.go:319-322 | Registration is one step |
| `SseServer.SSETransport.BindQueue` | internal/transport/sse.go:330-335 | Get-or-create of the queue is one step |
| `SseServer.SSETransport.ServeMessage` | internal/transport/sse.go:383-392 | Takes the oldest queued response of the connection's channel |
| `SseServer.SSETransport.ServeEvent` | internal/transport/sse.go:394-405 | Takes the oldest event of the connection's own channel |
| `SseServer.SSETransport.Disconnect` | internal/transport/sse.go:338-349 | Teardown is a run: unmap, then close; queues stay |
| `SseServer.SSETransport.SendResponse` | internal/transport/sse.go:447-461 | Queued exactly when the session has a queue with room; that queue gains the response, the others are untouched |
| `SseServer.SSETransport.BroadcastEvent` | internal/transport/sse.go:464-476 | The loop is a run of the system; every mapped client with room gets the event and nobody else |
| `SseServer.SSETransport.StopClients` | internal/transport/sse.go:135-139 | The loop is the Stop step, panic included; before a panic exactly the sessions visited have been signalled |
| `SessionManagement.AlwaysSound` | internal/transport/session.go:33-67 | Keys are session ids; CreatedAt <= LastActivity <= now |
| `SessionManagement.ActivityIsLastTouch` | internal/transport/session.go:33-67 | LastActivity is the time of the last Create or Get of the session, CreatedAt and the transport are those of its Create |
| `SessionManagement.UsedSessionsSurvive` | internal/transport/session.go:56-96 | A session that nobody removes, and that is created or used within the timeout before every scan, is never removed |
| `SessionManagement.IdleSessionsGo` | internal/transport/session.go:77-96 | A session not created or used within the timeout before some scan is gone once a pass is over |
| `SessionManagement.ActiveSessionsSurvive` | internal/transport/session.go:77-95 | A session within the timeout at every scan is never removed by the cleanup |
| `SessionManagement.PassRemovesExactlyExpired` | internal/transport/session.go:77-95 | After a pass, of the sessions present at its scan exactly those idle beyond the timeout then are gone, touched in between or not |
| `SessionManagement.RemovedStaysRemoved` | internal/transport/session.go:56-74 | A removed session never comes back, even while the cleanup still lists it |
| `SessionManagement.SessionManager.CreateSession` | internal/transport/session.go:33-53 | Nothing changes when the random source fails, else one creation step |
| `SessionManagement.SessionManager.GetSession` | internal/transport/session.go:56-67 | Sets the last activity of that session only to the time of the call, and returns the session if present |
| `SessionManagement.SessionManager.RemoveSession` | internal/transport/session.go:70-74 | Deletes one key |
| `SessionManagement.SessionManager.FindExpired` | internal/transport/session.go:79-88 | The scan lists each expired session once and no other |
| `SessionManagement.SessionManager.CleanupExpiredSessions` | internal/transport/session.go:77-95 | An undisturbed pass removes exactly the expired sessions |
| `AuditRotation.RotationKeepsOrder` | pkg/logging/audit.go:380-422 | A rotation loses exactly the highest kept file; the rest, read from the highest suffix down, keeps its order |
| `AuditRotation.ShiftKeepsOrder` | pkg/logging/audit.go:387-399 | So does a rotation abandoned after the loop |
| `AuditRotation.TurnMovesUp` | pkg/logging/audit.go:387-399 | One turn of the loop keeps all suffixes above moved up and the next one free |
| `AuditRotation.FileBound` | pkg/logging/audit.go:387-403 | A rotation keeps the bound of MaxFiles files if and only if MaxFiles is at least 2; with 1 it leaves two |
| `AuditRotation.SizeIsAdditive` | pkg/logging/audit.go:366-377 | The size compared with the limit is the sum of the bytes of all events of the file |
| `AuditRotation.AuditLogger.FilesBounded` | pkg/logging/audit.go:387-403 | In every reachable state of a logger with MaxFiles of at least 2, whatever failed, at most MaxFiles files exist |
| `AuditRotation.AuditLogger.constructor` | pkg/logging/audit.go:115-157 | Opens on any disk contents; non-positive limits get defaults |
| `AuditRotation.AuditLogger.ShiftFiles` | pkg/logging/audit.go:387-399 | The loop shifts the files, no rename landing on an existing one |
| `AuditRotation.AuditLogger.Rotate` | pkg/logging/audit.go:380-422 | Lost events, then the files, are the initial files, then the logged events, under every failure; the last rename overwrites a file exactly when MaxFiles is 1 and .1 exists |
| `AuditRotation.AuditLogger.Log` | pkg/logging/audit.go:165-210 | The same invariant; an event is logged exactly when the call succeeds; a file below MaxFileSize stays as written, a full one is rotated; a write error stays with the encoder and a failed rotation with the handle, so that every later call fails; without a fault the current file ends below the limit, rotated exactly when its old size plus the event reached it |
| `SpanTables.AlwaysSound` | pkg/logging/tracing.go:142-239 | Each created span is active or has left exactly once, by finish or by timeout; the counters say how many did which; the table is within its limit |
| `SpanTables.CountersExact` | pkg/logging/tracing.go:142-239 | TotalSpansCreated, TotalSpansFinished and SpansDropped are the numbers of calls that created, finished, and timed out or refused a span |
| `SpanTables.SpansAsCreated` | pkg/logging/tracing.go:142-239 | A span in the table is there as it was created, and has been neither finished nor timed out since |
| `SpanTables.HealthBalances` | pkg/logging/tracing.go:347-388 | Created + refusals = finished + dropped + active; the health report is healthy if and only if the limit is not negative |
| `SpanTables.TraceManager.CreateSpan` | pkg/logging/tracing.go:142-197 | One creation step; refused when disabled or at the limit |
| `SpanTables.TraceManager.FinishSpan` | pkg/logging/tracing.go:200-239 | One finish step; a second call changes nothing |
| `SpanTables.TraceManager.CleanupSpanAfterTimeout` | pkg/logging/tracing.go:363-388 | One expiry step; nothing once finished |
| `SpanTables.TraceManager.GetTracingHealth` | pkg/logging/tracing.go:347-360 | The report of HealthBalances |
| `TraceParent.SplitJoins` | pkg/logging/tracing.go:539-542 | The parts of a split hold no dash and join back to the header |
| `TraceParent.ParseInvertsFormat` | pkg/logging/context.go:302-331 | Parse inverts print for all ids of 32 and 16 characters |
| `TraceParent.FormatInvertsParse` | pkg/logging/context.go:302-331 | Print inverts parse exactly on 55-character version-00 headers with both dashes and flags 00 or 01, and on the print of the empty context |
| `TraceParent.AdvancedFormatSucceedsIff` | pkg/logging/tracing.go:581-605 | The advanced printer succeeds exactly on hex ids of the right lengths with a zero upper half of the trace id |
| `TraceParent.AdvancedFormatBlames` | pkg/logging/tracing.go:581-596 | Its message names the first thing wrong with the ids |
| `TraceParent.AdvancedAcceptsIff` | pkg/logging/tracing.go:532-578 | The advanced parser accepts exactly the headers with dashes at the fixed offsets only and non-zero ids, and returns what sits there |
| `TraceParent.AdvancedRoundTrip` | pkg/logging/tracing.go:532-605 | When the advanced printer succeeds, the advanced parser gives the context back exactly if neither id is all zero |
| `TraceParent.ParsersAgree` | pkg/logging/context.go:302-322 | Whenever the advanced parser accepts, both parsers return the same ids; the sampled flags are read off the flags field and differ exactly when the field counts as set without being 01 |
| `TraceParent.BitZeroReportedIff` | pkg/logging/tracing.go:572-575 | On hexadecimal flags the advanced parser reports bit 0 if and only if bit 7 is not set with it |
| `TraceParent.FlagsMisread` | pkg/logging/tracing.go:572-575 | Flags 03, where the parsers differ, and 81, where both miss bit 0 |
| `TraceParent.AdvancedAcceptsNonHex` | pkg/logging/tracing.go:544-560 | Witness: the advanced parser does not check for hex digits |
| `AdaptiveRate.RateStaysInRange` | pkg/logging/sampling_strategies.go:383-407 | Whatever the readings, the rate stays in [MinRate, MaxRate] |
| `AdaptiveRate.RateMovesIff` | pkg/logging/sampling_strategies.go:383-407 | Within the interval the rate stays; otherwise it falls if and only if the load or the memory is above its threshold, and rises if and only if neither is, short of its limits |
| `AdaptiveRate.RecoveryIsExact` | pkg/logging/sampling_strategies.go:399-406 | After n spaced unstressed readings the rate is exactly min(MaxRate, r*1.1^n) |
| `AdaptiveRate.BackoffIsExact` | pkg/logging/sampling_strategies.go:395-398 | After n spaced stressed readings it is exactly max(MinRate, r*0.8^n) |
| `AdaptiveRate.FullRecovery` | pkg/logging/sampling_strategies.go:113-122 | With the built-in limits 49 spaced unstressed readings restore full sampling from any rate, and 48 do not from the minimum |
| `AdaptiveRate.StressOnlyLowers` | pkg/logging/sampling_strategies.go:394-401 | Stressed readings only lower the rate, unstressed ones only raise it |
| `AdaptiveRate.TickRefusedIff` | pkg/logging/sampling_strategies.go:388-406 | A tick one interval after a change is refused if and only if time passed between the two clock readings of that change |
| `AdaptiveRate.NextInRangeIff` | pkg/logging/sampling_strategies.go:409-418 | After an UpdateConfig that leaves the rate outside the limits, one effective reading brings it back if and only if it moves away from the limit or is one step short of it |
| `AdaptiveRate.ReturnFromBelowIff` | pkg/logging/sampling_strategies.go:399-406 | Below the new minimum, n spaced unstressed readings suffice if and only if r*1.1^n reaches it |
| `AdaptiveRate.ReturnFromAboveIff` | pkg/logging/sampling_strategies.go:395-398 | Above the new maximum, n spaced stressed readings if and only if r*0.8^n is down to it |
| `AdaptiveRate.StillOutOfRange` | pkg/logging/sampling_strategies.go:409-418 | A rate of 0.8 under a maximum of 0.5 after an adjustment |
| `Sampling.StressOnlyShrinks` | pkg/logging/sampling_strategies.go:345-364 | Any number of stressed readings only shrinks the set of keys the adaptive strategy samples |
| `Sampling.LastPriorityWins` | pkg/logging/sampling_strategies.go:155-173 | The last priority strategy other than the default decides; without one the default does |
| `Sampling.TailTallied` | pkg/logging/sampling_strategies.go:635-690 | The tail strategy counts every error as sampled, a slow trace by its own rate and the rest by the default rate |
| `SamplingRules.PriorityOrderIff` | pkg/logging/sampling_strategies.go:455-490 | Rules are tried in list order: on every record, text and number of a value belonging together, the highest matching priority is used if and only if no rule meets a later one of higher priority on a record that no earlier rule matches |
| `SamplingRules.NumbersCompare` | pkg/logging/sampling_strategies.go:516-538 | gt, lt, gte and lte compare the numbers, and fail without one on both sides |
| `SamplingRules.TextsCompare` | pkg/logging/sampling_strategies.go:507-515 | eq, ne and contains compare the texts |
| `SamplingRules.TextAndNumberAgree` | pkg/logging/sampling_strategies.go:540-558 | The number a value is compared as is what its text reads as, if the library reads back what it prints |
| `SamplingRules.MissingAttribute` | pkg/logging/sampling_strategies.go:492-505 | A missing attribute equals the text <nil> and satisfies no number comparison |
| `SamplingRules.LevelTextInjective` | pkg/logging/sampling_strategies.go:496-497 | The level text names the next level below, and no two levels have the same text |
| `SamplingRules.DefaultRulesMisordered` | pkg/logging/sampling_strategies.go:748-765 | Under the default rules an error slower than a second is treated by the rule of lower priority |
| `RuleOverlap.MeetDecided` | pkg/logging/sampling_strategies.go:483-538 | Whether two rules meet is decided by their conditions and those of the rules before them, given the answers to single-field questions that mix text and number comparisons |
| `RuleOverlap.SeparateDecidable` | pkg/logging/sampling_strategies.go:507-538 | If each attribute is compared either as a text or as a number throughout, and no component as a number, no such question arises |
| `RuleOverlap.PriorityOrderDecided` | pkg/logging/sampling_strategies.go:455-538 | So whether the promise holds on every record is computed from the rule list and those answers |
| `RuleOverlap.ExclusiveLevelsInAnyOrder` | pkg/logging/sampling_strategies.go:492-510 | Rules for different levels may stand in any order |
| `RuleOverlap.OneValueInAnyOrder` | pkg/logging/sampling_strategies.go:507-538 | So may a rule for the text 5 and one for numbers above 1000 on the same attribute, as no value is both |
| `Sampling.BuiltSound` | pkg/logging/sampling_strategies.go:104-144 | In the constructed sampler only the default can be a priority strategy; rates in range, tallies balanced |
| `Sampling.DefaultDecides` | pkg/logging/sampling_strategies.go:155-173 | The override loop never changes the default's decision |
| `Sampling.DefaultAnswer` | pkg/logging/sampling_strategies.go:448-481 | With rules the first that matches decides by its flag or rate, and without a match the record is dropped; without rules the adaptive rate decides, or the fixed rate of 1 |
| `Sampling.AlwaysFollowsDefault` | pkg/logging/sampling_strategies.go:147-226 | Over every run of decisions, override loop included, and adjustments, each strategy has been consulted as often as the sampler, and the overall statistics are the default strategy's own |
| `Sampling.AdvancedSampler.constructor` | pkg/logging/sampling_strategies.go:86-101 | Builds that sampler |
| `Sampling.AdvancedSampler.InitializeStrategies` | pkg/logging/sampling_strategies.go:104-144 | The default is the priority strategy if there are rules, else the adaptive one if enabled, else the fixed rate; no other strategy is priority-based |
| `Sampling.AdvancedSampler.ShouldSample` | pkg/logging/sampling_strategies.go:147-187 | True when disabled; with rules true if and only if the first that matches is alwaysSample or the hash is below its rate; otherwise if and only if the key hash is below the adaptive rate, or below 1; the answer is tallied |
| `Sampling.AdvancedSampler.AdjustSamplingRates` | pkg/logging/sampling_strategies.go:218-226 | Adjusts every adaptive strategy and nothing else |
| `Sampling.AdvancedSampler.ResetStrategy` | pkg/logging/sampling_strategies.go:428-435 | Reset keeps the invariant; an adaptive strategy returns to its initial rate |
| `EntityTables.PutAllKeepsLast` | internal/storage/memory.go:74-81 | The map keeps the last entity of each id |
| `EntityTables.UpsertAllKeepsBirth` | internal/storage/sqlite.go:158-167 | SQLite keeps the last entity of each id with the first time of creation |
| `EntityTables.TablesAgreeButCreated` | internal/storage/sqlite.go:158-167 | On any batch the two tables have the same ids and differ at most in created_at |
| `EntityTables.EqualTablesIff` | internal/storage/sqlite.go:158-167 | They are equal if and only if the last entity of each id carries the time SQLite keeps |
| `EntityTables.DistinctNewTablesEqual` | internal/storage/sqlite.go:158-167 | On distinct new ids they are equal |
| `EntityTables.AcceptanceAgreesIff` | internal/storage/memory.go:57-72 | Both backends accept or both refuse if and only if the batch holds a blank id or no id already present |
| `EntityTables.MemoryAnswers` | internal/storage/memory.go:35-97 | The first entity that is blank or present decides the error, the blank id first; nothing is written unless all pass |
| `EntityTables.SqliteAnswers` | internal/storage/sqlite.go:130-242 | What fails first, in the order of the statements, decides the error and rolls back; nothing begins under a canceled context |
| `EntityTables.EmptyBatchSucceeds` | internal/storage/sqlite.go:130-134 | An empty batch succeeds in both backends, even canceled |
| `EntityTables.AcceptedTablesAgree` | internal/storage/memory.go:57-81 | What the map accepts SQLite accepts, with tables equal but for created_at, and equal for distinct ids |
| `EntityTables.BackendsDiffer` | internal/storage/sqlite.go:158-167 | An id already present is refused by the map and accepted by SQLite; a repeated one leaves two times of creation |
| `EntityTables.RunsAgree` | internal/storage/memory.go:35-97 | Along every run whose batches the map accepts, the backends stay in step |
| `EntityTables.CreateKeepsSound` | internal/storage/memory.go:57-81 | Rows are filed under their own, non-blank id |
| `EntityTables.MemoryNeverAlters` | internal/storage/memory.go:35-97 | No run of batches alters or removes an entity already in memory |
| `EntityTables.SqliteKeepsBirths` | internal/storage/sqlite.go:130-242 | No run of upserts, failing or not, removes a row or changes its time of creation |
| `EntityTables.GrowthIff` | internal/storage/sqlite.go:158-167 | A batch adds its length in rows if and only if its ids are all different and new |
| `EntityStatistics.TotalIsSumOfTypes` | internal/storage/memory.go:222-243 | The total is the sum of the type counts plus the untyped entities |
| `EntityStatistics.StatisticsExact` | internal/storage/sqlite.go:382-418 | The statistics hold the total and, for each non-empty type that occurs, the number of its entities |
| `EntityStatistics.StatisticsOnly` | internal/storage/sqlite.go:382-418 | and nothing else |
| `EntityStatistics.MemoryGrowthIff` | internal/storage/memory.go:222-224 | An accepted batch raises the total by its length if and only if its ids are all different |
| `EntityStatistics.SqliteGrowthIff` | internal/storage/sqlite.go:382-388 | For SQLite, if and only if they are all different and all new |
| `StorageBackends.MemoryBackend.CreateEntities` | internal/storage/memory.go:35-97 | Validate-all-then-write: all or nothing, with the error of the first offending entity |
| `StorageBackends.MemoryBackend.GetStatistics` | internal/storage/memory.go:204-246 | The loops compute the statistics of the table |
| `StorageBackends.MemoryBackend.SearchEntities` | internal/storage/memory.go:142-201 | Every hit exactly once and nothing else |
| `StorageBackends.SqliteBackend.CreateEntities` | internal/storage/sqlite.go:130-242 | The transaction folds the upsert; a canceled context or a failure at any stage leaves the table unchanged |
| `StorageBackends.SqliteBackend.GetStatistics` | internal/storage/sqlite.go:379-418 | Reports the same statistics as the map would |
| `StorageBackends.AddTypes` | internal/storage/memory.go:238-241 | The loop adds each non-empty type once under its prefixed key |
| `KnowledgeManager.CountIsGrowthIff` | internal/knowledge/manager.go:200-215 | With fresh generated ids, the count in a successful reply is the growth of the total if and only if the caller's own ids are neither repeated nor already present |
| `KnowledgeManager.AllOrNothing` | internal/knowledge/manager.go:109-215 | A request not answered with a count changes nothing; one that is adds exactly its ids |
| `KnowledgeManager.ReplyIff` | internal/knowledge/manager.go:114-174 | When a request is answered as canceled, when with which undecodable element, and when it reaches the audit log |
| `KnowledgeManager.StoredAsAsked` | internal/knowledge/manager.go:161-206 | An answered request has stored, under each id, the last element that has it: as given, updated now, and created as given or now |
| `KnowledgeManager.OthersUntouched` | internal/knowledge/manager.go:200-206 | Rows of other ids stay as they were |
| `KnowledgeManager.CountExceedsGrowth` | internal/knowledge/manager.go:212-215 | An accepted request naming one id twice is answered with 2 and stores one entity |
| `KnowledgeManager.AuditTruthfulIff` | internal/knowledge/manager.go:188-206 | Creation is audited before it happens: the audited ids are in the table afterwards if and only if the loop stopped before, or the batch passes the backend's guards, or all its ids are there already |
| `KnowledgeManager.AuditReportsUnstored` | internal/knowledge/manager.go:188-206 | A blank id is audited as created and stored by neither backend |
| `KnowledgeManager.Manager.HandleCreateEntities` | internal/knowledge/manager.go:109-215 | Decodes, completes and stores the batch, stopping at the first cancellation or undecodable element |
| `KnowledgeManager.Manager.Store` | internal/knowledge/manager.go:200-206 | The call goes to the configured backend |
| `LevelPatterns.OrderFreeIff` | pkg/logging/level.go:124-143 | A level lookup is independent of the map's iteration order, for every component, if and only if patterns one of which extends the other carry the same level |
| `LevelPatterns.CoversIff` | pkg/logging/level.go:124-143 | A trailing star stands for any rest, a star elsewhere for itself, and a name without one covers nothing |
| `LevelPatterns.LevelHandler.GetLevelForComponent` | pkg/logging/level.go:124-143 | The loop returns a possible level: the exact entry, else that of some matching pattern, else the default |
| `LevelPatterns.LevelHandler.SetComponentLevel` | pkg/logging/level.go:146-151 | After it the component's level is the one set |
| `LevelPatterns.LevelHandler.RemoveComponentLevel` | pkg/logging/level.go:153-159 | The component reverts to the default if and only if no remaining pattern covers it with another level; lookups the entry did not concern stay |
| `LoggerFactory.AlwaysCoherent` | pkg/logging/factory.go:144-177 | In every interleaving each cached logger is the one its component's current configured level calls for |
| `LoggerFactory.ReturnedLoggerPassesIff` | pkg/logging/level.go:53-95 | A returned logger passes a record if and only if its level reaches both the global level and the component's level at that moment |
| `LoggerFactory.FilteredAsConfigured` | pkg/logging/factory.go:160-168 | A component without an entry is filtered by the global level, one with an entry by both |
| `LoggerFactory.LevelsAreSlogs` | pkg/logging/factory.go:257-270 | The four level names stand for the levels slog prints under those names, any other text for info |
| `LoggerFactory.SameLoggerIff` | pkg/logging/factory.go:144-177 | Two calls for a component return the same logger if and only if no update of that component lies between them |
| `LoggerFactory.UpdateTakesEffectIff` | pkg/logging/factory.go:273-284 | An update makes records pass from the requested level on if and only if that level is not below the global one |
| `LoggerFactory.KeptLoggerCurrentIff` | pkg/logging/factory.go:273-284 | A logger kept across updates still filters as configured if and only if its component's threshold has not moved |
| `LoggerFactory.StaleLogger` | pkg/logging/factory.go:273-284 | A run in which a logger kept across an update still writes what the configuration no longer asks for |
| `LoggerFactory.Factory.GetLogger` | pkg/logging/factory.go:144-177 | An undisturbed call is the lookup step followed, on a miss, by the build step |
| `LoggerFactory.Factory.CreateLogger` | pkg/logging/factory.go:153-177 | The locked part, second look included |
| `LoggerFactory.Factory.UpdateLevel` | pkg/logging/factory.go:273-284 | Sets the level and evicts that component only |

## Left out

- HTTP handling, JSON encoding, CORS, heartbeats, the wire format of events, stdio and the admin server: plumbing around the modelled state.
- Go's runtime: slices share backing arrays, maps hold pointers; fields here hold values, except for the array of TimeWindowCounter. Connections and channels are numbered instead, so that a captured channel stays the same one.
- Responses are never nil, and a response counts as taken when the event loop receives it; a later marshalling or write failure is not modelled.
- Timers, tickers and sleeps are nondeterministic steps; the 30 s limit of Close may fire at any moment (`GiveUp`). Goroutine scheduling and fairness are not modelled, so termination is a bound on the consumer's own actions.
- The inner log handler is assumed to return, with or without an error.
- AsyncPipeline.ShutdownSafeIffNobodyAtRisk: a second closed copy's own wait for doneCh is not modelled; any Close of a copy beside the original panics before it (CopyCloseCrashes).
- FactoryShutdown.CloseSafeIffNoLoggers: nobody but the factory uses its handler, nor closes the copy inside a logger, which slog hides; the sampling handler and level handlers in between only pass calls on.
- OtlpExporter.OTLPHandler.constructor: a negative QueueSize, on which make panics, is not modelled; the health fields of a copy are its own and are left out.
- The periodic flush of the async handler is any number of `Flush` steps; BufferUtilization, GetHealthStatus and ResizeBuffer only read.
- AsyncHandlers.BatchingAsyncHandler.Close: run as one call under its mutex; interleaving with the producers of other handlers is covered by the step system, not by the class.
- TimeWindowCounters.TimeWindowCounter.GetRate: integers stand for int64 counts and time.Duration, without overflow; division is exact.
- The unlocked read of `enabled` in RecordError and the statistics written under a read lock by the sampler: those calls are atomic here.
- Session, span and entity ids are fresh values supplied by the caller; collisions of random ids and the generators themselves are left out.
- AuditRotation.AuditLogger.Log: enrichment, masking and the checksum are left out and validation is a verdict passed in; a failed write leaves nothing in the file; renames inside the loop succeed (the source ignores their errors), while failures of write, stat, close, the final rename and the reopening are modelled.
- SpanTables.TraceManager.CreateSpan: trace ids, parents, tags and events of a span are left out; only membership and counters matter to the results.
- Sampling.AdvancedSampler.ShouldSample: FNV hashes are inputs; sample rates derived from the tallies are left out, as are the trace buffers that tail sampling never fills. Resetting a single strategy is not part of the runs of AlwaysFollowsDefault, whose equality of tallies it ends.
- RuleOverlap.MeetDecided: what a field can hold that is compared both as a text and as a number depends on which texts ParseFloat accepts and what %v prints, which are parameters, so those single-field questions are answered by a parameter too. Some character has to occur in no condition. Level conditions are decided by trying every int64 level, a finite search that is not meant to be run. Numbers are reals, without infinities.
- AdaptiveRate.RateStaysInRange: real arithmetic; float64 rounding is left out.
- StorageBackends.SqliteBackend.CreateEntities: SQLite itself is a map with a transaction's own copy; a commit that reports failure has changed nothing. Observations are stored as given, without the JSON text in between.
- StorageBackends.MemoryBackend.SearchEntities: case-insensitive matching is a predicate on texts; SQLite's LIKE search is left out.
- KnowledgeManager.Manager.HandleCreateEntities: an audit logger is taken to be configured and to succeed; decoding is an input, the type checks of `args` and the final marshalling of the reply are left out.
- LoggerFactory.Factory.GetLogger: the base handler is one level check, which is what the JSON, text, sampling and async handlers delegate to; a config edited outside the factory is not modelled.
- Hierarchical, dynamic, load-based and time-based level handlers, masking, Prometheus metrics, `pkg/config`, error-code tables: they would only add easy members.
