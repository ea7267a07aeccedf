# Syslogx backend: a verified model

Syslogx receives syslog messages over UDP and TCP, parses them, and writes them in batches to
a log store, from which they can be searched page by page or followed live. This project models
the parts of its backend that carry state or work on bytes, and proves what they promise for
every input, every interleaving and every run. `dafny verify dfyconfig.toml` checks all of it.

## The parts

**The ingestion pipeline.** `FrameQueue.dfy` is the queue as the source has it: a slice, a read
index, lazy compaction and a broadcast channel that is replaced on every change. It is proved
against the plain queue of `Fifo.dfy`. `Pipeline.dfy` puts that queue into a state machine with
any number of producers and parse workers, the 64-slot channel, the batch worker with its retry
loop, and `Stop`; one step is one atomic action of one goroutine. `PipelineSafety.dfy` has the
invariant, `PipelineDrain.dfy` the main results: conservation of every frame, no lost wake-up,
no send on a closed channel, and a `Stop` that cannot get stuck and returns under every
scheduler that never stops doing work. `PipelineStop.dfy` says what `Stop` has accounted for and exactly when a frame can be
lost, `PipelineCounters.dfy` what each counter counts and that `Submit` refuses while draining,
`DrainBatch.dfy` how large the batch of a cancel drain can become. `BatchWorker.dfy` and
`Retry.dfy` are the batch and retry loops by themselves, and `BatcherLoops.dfy` shows that the
state machine takes the same steps.

**The listeners.** `Listeners.dfy` is the accept, track and close protocol around the
connections: the connection limit, the snapshot that `Close` takes, and why nothing can call
`Submit` once `Close` has returned. `ListenersClose.dfy` shows that `Close` does return. (`main.go` clears `accepting` before closing the listeners;
in the pipeline model this is the step `Refuse`, which may come any time before the queue is
closed.)

**Wire decoding.** `Framing.dfy` has the RFC 6587 readers over a buffered reader of any size,
`Rfc5424.dfy` the RFC 5424 parser with its structured-data scanner, `Rfc5424Grammar.dfy` the exact
language that it accepts with the meaning of every text in it, `Rfc5424RoundTrip.dfy` a printer and
the round trip, and `YearInference.dfy` the year of an RFC 3164 timestamp. The
parsers are methods with the source's loops, each proved equal to a recursive function, and the
results are stated about these functions. Strings are byte strings.

**Reading and storing.** `LiveTail.dfy` and `TailOverStore.dfy` treat the de-duplication of the
live tail, `Pagination.dfy` a client that follows cursors, `DirectRow.dfy` the mapping of an entry
to a storage row, `RowOrder.dfy` when that row depends on the order of its fields, and `UuidV7.dfy`
the identifiers.

## Where the obvious claim is false

- docs/configuration.md:34 says that events remaining after the shutdown deadline are accounted
  as dropped. `StopCanLoseAFrame` gives, for every configuration and every frame that fits, a run
  that ends with the frame in no counter: one in which `Stop` returns an error after its deadline,
  and one in which it returns nil because the parent context was cancelled. `LossIff` is the exact
  condition, at the deadline or at any other moment after the queue was closed: a frame can be
  lost if and only if more frames are queued than workers are about to dequeue (`StopLosesIff` for
  each of the two answers of `Stop`). `WorstLoss`: exactly that surplus can be lost, and no more.
  As `main.go` cancels the parent context only after `Stop`, its nil answers lose nothing
  (`NilMeansNothingLost`).
- The batch that the cancel drain builds has no size limit. `SizedIff`: all batches are within the
  limits if and only if there was no cancellation, or the held batch with everything still to come
  is empty or within the limits. `DrainBatchIsUnlimited`: while the queue is open the batch can
  reach any size if the parent context is cancelled. `DrainBatchFitsCapacities`: if only the
  deadline of `Stop` cancels, the batch is at most queue, workers, channel and batch limit together,
  and `DeadlineExceedsLimit` is a run in which it is over the batch limit.
- A line must leave room for its LF, or CR and LF, within the limit; a counted message and an
  unterminated last line may use the whole limit (`LineFitsIff`, `CountedFitsIff`,
  `LastLineFitsIff`).
- A line that ends in LF, or CR and LF, survives auto-detection exactly when it does not begin like a count
  (`LineSurvivesAutoIff`); an unterminated last line must also hold a byte that is no digit, or it is
  dropped with a clean end of stream (`LastLineSurvivesAutoIff`). Lines that begin with `<` survive.
- After NILVALUE structured data one leading space of the message is lost; `TextSurvivesIff` is
  the exact condition under which the message text comes back.
- February 29 is always rejected by the year inference (`NearestRfc3164Time`, `InferredIff`).
- The default limit of 100 never reaches the store query: limit 0 returns no rows
  (`QueryWithoutLimit`).
- Following cursors loses rows that share the time of the last row of a truncated page;
  `MissedIff` and `CompleteIffNoSplit` say which and when.
- The retry backoff overflows as soon as a backoff of 2^62 ns is doubled (`BackoffIsIdealIff`),
  and a wait overflows when its backoff leaves no room for the jitter; `WaitsExactIff` is the exact
  condition on a policy. The configuration check excludes neither (`LargestBackoffIsUnsafe`).
- The storage row of an entry depends on map iteration order if and only if a field key that the
  base row has taken comes together with its own `event.` key (`OrderFreeIff`).
- A field value can be overwritten: every order keeps every value if and only if there is no such
  pair of keys and no field has the `label.` key of a label (`KeepsAllIff`).
- The RFC 5424 parser accepts more than the standard: several spaces between tokens, no space
  between parameters, a signed priority, a backslash before any byte, which then stays. `ParsedIff`
  is the exact language.
- The live tail's bounded memory agrees with an unbounded one if and only if no key comes back
  after more than 4096 first sendings (`BoundedIsEnoughIff`).

## Model

| member | source | states |
|---|---|---|
| `Fifo.RunIsFifo` | backend/internal/ingestion/queue.go:39-114 | over every run of operations, what left followed by what is still inside is what entered, in order, and both limits hold |
| `Fifo.NothingEntersAfterClose` | backend/internal/ingestion/queue.go:46-51 | once a run has closed the queue, no continuation admits a frame |
| `Fifo.ClosedQueueDrains` | backend/internal/ingestion/queue.go:71-108 | a closed queue reports "closed" exactly when every frame that entered has been handed out |
| `Fifo.EnqueueAnswers` | backend/internal/ingestion/queue.go:40-60 | each answer of `enqueue` with its exact condition on the limits: admitted if and only if the queue is open and one more event and its bytes stay within both |
| `Fifo.DequeueAnswers` | backend/internal/ingestion/queue.go:73-92 | each answer of `dequeue` with its exact condition, and the first frame out |
| `FrameQueues.FrameQueue.constructor` | backend/internal/ingestion/queue.go:33-35 | a new queue is the empty open plain queue |
| `FrameQueues.FrameQueue.NotifyLocked` | backend/internal/ingestion/queue.go:37 | the channel number goes up by one; waiters of a smaller number can go on |
| `FrameQueues.FrameQueue.TryEnqueue` | backend/internal/ingestion/queue.go:39-60 | one pass of `enqueue` refines the plain queue: oversized, closed, admitted at the end, or the channel to wait on; limits, byte sum, order and cost account are kept |
| `FrameQueues.FrameQueue.TryDequeue` | backend/internal/ingestion/queue.go:71-92 | one pass of `dequeue` refines the plain queue through zeroing and compaction; afterwards the dead prefix is at most 1024 slots or under half of the slice, and slots copied so far never exceed frames handed out |
| `FrameQueues.FrameQueue.Compact` | backend/internal/ingestion/queue.go:79-82 | the live frames move to a fresh slice and nothing observable changes |
| `FrameQueues.FrameQueue.Shut` | backend/internal/ingestion/queue.go:101-108 | closing refines the plain queue and notifies once |
| `FrameQueues.FrameQueue.UsageNow` | backend/internal/ingestion/queue.go:110-114 | the number of live frames and the exact sum of their sizes |
| `FrameQueues.FrameQueue.BackingIsBounded` | backend/internal/ingestion/queue.go:52-57 | the backing slice has at most maxEvents + max(1024, maxEvents) slots, and total copying is at most the number of dequeues |
| `FrameQueues.Replay` | backend/internal/ingestion/queue.go:33-114 | any sequence of operations on a new queue gives exactly the plain queue's answers |
| `PipelineSafety.RunInv` | backend/internal/ingestion/pipeline.go:51-227 | every state of every run satisfies the invariant: limits, wake-ups, close order, batch limits, order and accounts |
| `PipelineSafety.ProducerInv` | backend/internal/ingestion/pipeline.go:66-85 | every step of a caller of `Submit` keeps the invariant |
| `PipelineSafety.WorkerInv` | backend/internal/ingestion/pipeline.go:108-141 | every step of a parse worker keeps the invariant |
| `PipelineSafety.BatcherInv` | backend/internal/ingestion/pipeline.go:143-227 | every step of the batch worker and its retries keeps the invariant |
| `PipelineSafety.BatcherBatches` | backend/internal/ingestion/pipeline.go:147-184 | between iterations the batch is under both limits; what is handed over is not empty and, outside the cancel drain, within both limits or a single entry |
| `PipelineDrain.Conservation` | docs/decisions/0005-delivery-semantics.md:12 | in every state of every run each received frame is inside `Submit`, rejected or admitted, and each admitted frame is in exactly one stage or has exactly one outcome, counted with multiplicity |
| `PipelineDrain.LimitsAndOrder` | backend/internal/ingestion/pipeline.go:108-186 | in every state queue, channel and batch respect their limits, and storage sees entries in the order in which workers sent them |
| `PipelineDrain.NoLostWakeUp` | backend/internal/ingestion/queue.go:37-108 | in every state a waiting worker can wake or the queue is open and empty; a waiting producer can wake or the queue is open and one more event or its bytes would exceed a limit |
| `PipelineDrain.NoSendOnClosedChannel` | backend/internal/ingestion/pipeline.go:62-63 | no worker sends on `parsed` after it is closed or after the batch worker has begun to end |
| `PipelineDrain.StepDescends` | backend/internal/ingestion/pipeline.go:93-186 | once the queue is closed every step that does work lowers a lexicographic measure, and every other step leaves it alone |
| `PipelineDrain.Progress` | backend/internal/ingestion/pipeline.go:93-186 | once the queue is closed a step that does work is possible until `Stop` has returned |
| `PipelineDrain.DrainCompletes` | backend/internal/ingestion/pipeline.go:93-106 | whatever a scheduler picks, idle steps included, as long as working steps never stop coming, the batch worker ends and `Stop` returns after finitely many steps |
| `PipelineCounters.CountersCount` | backend/internal/ingestion/pipeline.go:66-215 | in every state of every run each counter is the number of steps so far that it stands for, told from the step and the state before it |
| `PipelineCounters.NoAdmissionWhileRefusing` | backend/internal/ingestion/pipeline.go:69-72 | once `accepting` is cleared, only frames that were inside `Submit` by then are admitted |
| `PipelineCounters.LateFrameIsRejected` | backend/internal/ingestion/pipeline.go:69-72 | a frame that first arrives after that is never admitted: every arrival is rejected |
| `PipelineCounters.AcceptedFrameIsTried` | backend/internal/ingestion/pipeline.go:69-73 | an arriving frame goes on to the queue if and only if `accepting` is set |
| `PipelineStop.FinishedAccount` | backend/internal/ingestion/pipeline.go:134-139 | when the batch worker has ended, the frames without an outcome are exactly those left in the queue, and there are some only after a cancellation |
| `PipelineStop.LossIff` | backend/internal/ingestion/pipeline.go:93-141 | from any state with the queue closed, a run can end with a frame in no counter if and only if more frames are queued than workers are about to dequeue |
| `PipelineStop.StopLosesIff` | backend/internal/ingestion/pipeline.go:96-105 | while `Stop` waits, it can return nil, or an error, with a frame left if and only if more frames are queued than workers are about to dequeue |
| `PipelineStop.WorstLoss` | backend/internal/ingestion/pipeline.go:93-141 | from any state with the queue closed, some run loses exactly as many frames as are queued beyond the workers about to dequeue, and none loses more |
| `PipelineStop.ExcessFalls` | backend/internal/ingestion/queue.go:71-98 | once the queue is closed, no step adds to the frames queued beyond the workers about to dequeue |
| `PipelineStop.NilMeansNothingLost` | backend/cmd/syslogx/main.go:126-130 | in every run in which only `Stop` cancels, a nil answer means that everything admitted is stored or dropped |
| `PipelineStop.StopNilAccountsForAll` | backend/internal/ingestion/pipeline.go:93-98 | if `Stop` returned nil and the context was never cancelled, everything admitted is stored or dropped and every stage is empty |
| `PipelineStop.StopCanLoseAFrame` | docs/configuration.md:34 | for every configuration and every frame that fits, a stop can return with the frame in no counter, with an error after its deadline and with nil after the parent context was cancelled |
| `BatchWorker.Flush` | backend/internal/ingestion/pipeline.go:149-156 | a non-empty batch is handed over and the locals start afresh |
| `BatchWorker.AddEntry` | backend/internal/ingestion/pipeline.go:164-174 | one received entry moves the locals as the specification says, the byte count staying the exact sum |
| `BatchWorker.JoinWithin` | backend/internal/ingestion/pipeline.go:164-174 | a received entry leaves handed batches within the limits and the held batch strictly under both |
| `BatchWorker.Collect` | backend/internal/ingestion/pipeline.go:157-177 | for any entries and ticks the loop's locals are those of the specification |
| `BatchWorker.CollectedIsWhole` | backend/internal/ingestion/pipeline.go:157-177 | for any entries and ticks, handed batches followed by the held batch are the entries received |
| `BatchWorker.CollectedWithin` | backend/internal/ingestion/pipeline.go:157-177 | for any entries and ticks every handed batch is within the limits and the held one strictly under both |
| `BatchWorker.FlushedOnlyAtLimit` | backend/internal/ingestion/pipeline.go:164-174 | an entry just joins the held batch if and only if both together stay strictly under both limits; whatever is handed over had reached a limit or could not take the entry |
| `BatchWorker.SmallEntriesStayTogether` | backend/internal/ingestion/pipeline.go:157-174 | entries that together stay strictly under both limits are held in one batch |
| `BatchWorker.Drain` | backend/internal/ingestion/pipeline.go:178-181 | the drain appends everything still to come to the held batch |
| `BatchWorker.RunBatchWorker` | backend/internal/ingestion/pipeline.go:143-186 | the batches joined are exactly the entries received, and the last one is the held batch followed, after a cancellation, by everything that was left |
| `BatchWorker.SizedIff` | backend/internal/ingestion/pipeline.go:178-183 | all batches are within the limits if and only if the end is no cancellation, or the held batch with what was left is empty or within the limits |
| `BatcherLoops.TickIsFlush` | backend/internal/ingestion/pipeline.go:175-177 | a tick of the state machine, with its append and whatever becomes of it, is one flush of the loop |
| `BatcherLoops.ReceiveIsJoined` | backend/internal/ingestion/pipeline.go:159-174 | a receive of the state machine, with its appends and whatever becomes of them, is one round of the loop |
| `BatcherLoops.PlayIsRetry` | backend/internal/ingestion/pipeline.go:198-227 | the retry steps of the state machine end as the retry loop does, with the batch stored once or dropped once |
| `DrainBatch.DrainBatchIsUnlimited` | backend/internal/ingestion/pipeline.go:178-183 | for every configuration and every number a run hands a batch of that many entries to storage |
| `DrainBatch.DrainBatchBound` | backend/internal/ingestion/pipeline.go:178-183 | once the queue is closed, the batch of a cancel drain holds at most what is inside, hence at most the four capacities together if the drain had not begun |
| `DrainBatch.DrainBatchFitsCapacities` | backend/cmd/syslogx/main.go:126-130 | in every state of every run in which only `Stop` cancels, the batch of the cancel drain is at most the four capacities together |
| `DrainBatch.DeadlineExceedsLimit` | backend/internal/ingestion/pipeline.go:99-103 | for every configuration there is such a run whose drain batch has one entry more than the batch limit, if that many small entries stay under the byte limit |
| `Retry.AppendWithRetry` | backend/internal/ingestion/pipeline.go:198-227 | one outcome per batch; calls = retries + 1 <= MaxAttempts; every call before the last failed with the context alive; dropped only at the last attempt or with the context done; every wait is the 64-bit sum of its backoff and a jitter |
| `Retry.CutWaitIsTheLast` | backend/internal/ingestion/pipeline.go:213-224 | with a context that stays done, only the last wait can be cut short |
| `Retry.BackoffIsIdealIff` | backend/internal/ingestion/pipeline.go:225 | the loop's backoff is min(initial * 2^k, max) up to wait k if and only if the backoff before it is below 2^62 ns |
| `Retry.WaitIsExactIff` | backend/internal/ingestion/pipeline.go:219 | no jitter makes the 64-bit sum overflow if and only if there is room for the longest one |
| `Retry.WaitsExactIff` | backend/internal/ingestion/pipeline.go:219-225 | every wait after up to k full waits is the described backoff plus its jitter if and only if the last doubling starts below 2^62 ns and the last backoff leaves room for its jitter |
| `Retry.WaitsAreBounded` | backend/internal/ingestion/pipeline.go:219-225 | under a policy with that property each wait lies between the described backoff and 3/2 of it |
| `Retry.SmallMaximumIsSafe` | backend/internal/config/config.go:223-225 | a maximum below 2^62 ns gives that property for any number of attempts |
| `Retry.LargestBackoffIsUnsafe` | backend/internal/config/config.go:223-225 | the configuration check accepts a policy whose first wait can be negative |
| `Listeners.RunInv` | backend/internal/transport/syslog/manager.go:67-199 | every state of every run satisfies the protocol invariant: each connection in one place, tracking and semaphore slots held by exactly the right connections, close order |
| `Listeners.ConnectionLimit` | backend/internal/transport/syslog/manager.go:133-170 | in every state a source has at most MaxConnections tracked connections |
| `Listeners.RefusedOnlyWhenFull` | backend/internal/transport/syslog/manager.go:145-158 | a connection is turned away only while MaxConnections others of its source hold a slot, each with a handler still to release it |
| `Listeners.SnapshotCovers` | backend/internal/transport/syslog/manager.go:76-82 | after the accept loops are done the tracked set only shrinks and no handler starts, and the snapshot holds every connection still open |
| `Listeners.CloseProgress` | backend/internal/transport/syslog/manager.go:67-88 | until `Close` returns there is always a step that no peer has to make happen |
| `ListenersClose.StepLowers` | backend/internal/transport/syslog/manager.go:67-199 | every step of a loop, a handler or `Close`, other than new traffic, lowers a lexicographic measure |
| `ListenersClose.OnlyBufferedTraffic` | backend/internal/transport/syslog/manager.go:73-76 | once every listener is shut, new work can only come from connections that already have a handler |
| `ListenersClose.CloseCompletes` | backend/internal/transport/syslog/manager.go:67-88 | if traffic stops at some time, `Close` returns after finitely many steps under every schedule, with no reader and no handler left |
| `Listeners.NoSubmitAfterClose` | backend/cmd/syslogx/main.go:124-128 | when `Close` has returned no reader or handler is left, nothing is tracked, every slot is free, and no step is possible: nobody calls `Submit` |
| `Framing.Reader.ReadSlice` | backend/internal/transport/syslog/manager.go:284 | a part up to the next LF, a full buffer, or what is left |
| `Framing.LooksOctetCounted` | backend/internal/transport/syslog/manager.go:235-250 | peeking byte by byte computes the detection function without consuming anything |
| `Framing.ReadDigits` | backend/internal/transport/syslog/manager.go:252-266 | reading the count byte by byte computes the counting function, including the stop after eleven digits |
| `Framing.ReadOctetCounted` | backend/internal/transport/syslog/manager.go:252-279 | the reader equals its function: payload and rest, or which error |
| `Framing.ReadNewline` | backend/internal/transport/syslog/manager.go:281-305 | the line read does not depend on where the buffer cuts the stream |
| `Framing.ReadFrame` | backend/internal/transport/syslog/manager.go:216-233 | the reader in each mode equals its function |
| `Framing.Serve` | backend/internal/transport/syslog/manager.go:177-198 | for every buffer size the payloads of the session are submitted and its error ends the loop; if `Submit` refuses one, exactly those up to it were submitted |
| `Framing.LineSurvivesAutoIff` | backend/internal/transport/syslog/manager.go:235-250 | a line that ends in LF or CR and LF comes back from auto-detection if and only if it has fewer than ten leading digits and no space right after them |
| `Framing.MixedStreamDecodes` | backend/internal/transport/syslog/manager.go:216-305 | any mixture of counted messages and lines, ended by LF or CR and LF, decodes to exactly those messages, in order, and then end of stream |
| `Framing.LineFitsIff` | backend/internal/transport/syslog/manager.go:281-305 | a line comes back without its LF, or CR and LF, if its length with them is within the limit, and is too large otherwise |
| `Framing.LastLineFitsIff` | backend/internal/transport/syslog/manager.go:286-305 | an unterminated last line comes back without a final CR if its length with it is within the limit, and is too large otherwise |
| `Framing.BadCounts` | backend/internal/transport/syslog/manager.go:248-277 | which error a missing, malformed, cut off or short count gives, and a count of ten digits under auto-detection |
| `Framing.ElevenDigits` | backend/internal/transport/syslog/manager.go:254-266 | after eleven digits the count ends without a space |
| `Framing.LastLineSurvivesAutoIff` | backend/internal/transport/syslog/manager.go:235-240 | under auto-detection an unterminated last line is read if and only if it is within the limit, holds a byte that is no digit and does not begin like a count; a short run of digits is dropped as end of stream |
| `Framing.CountedFitsIff` | backend/internal/transport/syslog/manager.go:252-279 | a counted message of any bytes is read if its length is within the limit and too large otherwise, with octet counting and under auto-detection |
| `Rfc5424.ReadValue` | backend/internal/parser/parser.go:254-280 | the loop over a quoted value computes the value with escapes undone, or reports that it is not closed |
| `Rfc5424.ReadParams` | backend/internal/parser/parser.go:237-282 | the loop over the parameters of an element computes the fields, last value winning, and the place of the bracket |
| `Rfc5424.ParseStructuredData` | backend/internal/parser/parser.go:216-289 | the scanner computes the remaining text and the fields, or fails, as its function says |
| `Rfc5424.CutHeader` | backend/internal/parser/parser.go:168-176 | the loop cuts six tokens, or fails exactly when there are fewer |
| `Rfc5424.Parse` | backend/internal/parser/parser.go:154-199 | the parser equals its function on every payload, error cases included |
| `Rfc5424.PriorityIsSplit` | backend/internal/parser/parser.go:80-87 | every parsed event has priority 8 * facility + severity with facility at most 23 and severity at most 7 |
| `Rfc5424.CutTokenSplits` | backend/internal/parser/parser.go:201-207 | there is a token exactly when there is a space; the string is the token, which has no space, one or more spaces, and the rest, which does not begin with one |
| `Rfc5424.ReadElements` | backend/internal/parser/parser.go:226-288 | the loop over the elements computes the remaining text and the fields, or fails |
| `Rfc5424RoundTrip.PriorityReads` | backend/internal/parser/parser.go:80-87 | every priority up to 191 is read back from its decimal form |
| `Rfc5424Grammar.ValueOfUnits` | backend/internal/parser/parser.go:254-280 | the exact value of a quoted text, a backslash staying before any byte but quote, backslash and bracket, and that there is none without a closing quote |
| `Rfc5424Grammar.UnitsOfValue` | backend/internal/parser/parser.go:254-280 | every string is such a text up to a quote, the end, or a single backslash, so the two together cover all strings |
| `Rfc5424Grammar.ElementsScan` | backend/internal/parser/parser.go:226-288 | scanning the text of elements gives the last-write-wins fold of their parameters and stops right after them |
| `Rfc5424Grammar.TextIsParsed` | backend/internal/parser/parser.go:154-289 | every text of the language is parsed to its meaning |
| `Rfc5424Grammar.ParsedIff` | backend/internal/parser/parser.go:154-289 | a payload is parsed to an event if and only if it is a text of the language with that meaning; everything else is rejected |
| `Rfc5424Grammar.DetectIff` | backend/internal/parser/parser.go:61-78 | each format is detected if and only if the payload has a number in brackets and then a version or a match of the RFC 3164 pattern |
| `Rfc5424Grammar.AtoiIff` | backend/internal/parser/parser.go:81 | a number is an optional sign and at least one digit, and nothing else |
| `Rfc5424RoundTrip.EscapeIsText` | backend/internal/parser/parser.go:256-277 | the escaped form of any value is a quoted text with that value |
| `Rfc5424RoundTrip.RoundTrip` | backend/internal/parser/parser.go:154-289 | parsing a printed message gives back priority, header fields, structured-data fields and text |
| `Rfc5424RoundTrip.TextSurvivesIff` | backend/internal/parser/parser.go:196-221 | the text comes back unchanged if and only if it does not end in CR or LF, does not begin with a BOM and, after NILVALUE data, does not begin with a space |
| `Rfc5424RoundTrip.PrintedIsDetected` | backend/internal/parser/parser.go:61-78 | auto-detection sends every printed message to the RFC 5424 parser |
| `YearInference.AtIsTheCalendar` | backend/internal/parser/parser.go:121 | instants follow the calendar second by second over the ends of minutes, hours, days, months and years |
| `YearInference.NearestCandidate` | backend/internal/parser/parser.go:118-133 | the loop fails exactly when one candidate does not parse and otherwise returns the first of the nearest |
| `YearInference.NearestOfThree` | backend/internal/parser/parser.go:118-133 | for the years around the receive time: which of the three wins, the earlier one on a tie |
| `YearInference.NearestRfc3164Time` | backend/internal/parser/parser.go:112-134 | the result exists exactly for dates that every year has; it is nearest over all years, the earliest on a tie, and within 183 days |
| `YearInference.NearestIsGlobal` | backend/internal/parser/parser.go:120-132 | nearest among the three years tried is nearest among all years |
| `YearInference.NearestIsClose` | backend/internal/parser/parser.go:120-132 | the year chosen puts the stamp within 183 days of the receive time |
| `YearInference.InferredIff` | backend/internal/parser/parser.go:120-124 | all three candidates parse if and only if the date is not February 29, is otherwise valid, and the years have four digits |
| `LiveTail.Remember` | backend/internal/api/server.go:337-342 | map and list stay equal, duplicate-free, at most 4096 long, and hold the last marks |
| `LiveTail.HandlePoll` | backend/internal/api/server.go:331-350 | one poll emits the rows of its answer, oldest first, that are not among the last 4096 emitted |
| `LiveTail.RunTail` | backend/internal/api/server.go:314-356 | the whole loop over any polls emits exactly the specified rows |
| `LiveTail.TailSeparates` | backend/internal/api/server.go:331-342 | for any answers, two emissions of one key are more than 4096 emissions apart |
| `LiveTail.BoundedIsUnboundedIff` | backend/internal/api/server.go:334-342 | the bounded memory agrees with an unbounded one if and only if no key is emitted twice |
| `LiveTail.BoundedIsEnoughIff` | backend/internal/api/server.go:334-342 | the bounded memory agrees with an unbounded one if and only if, in the answers, a key that comes back is always among the last 4096 first sendings |
| `TailOverStore.EmittedIff` | backend/internal/api/server.go:320-350 | over a store that only gains newer rows, a row is emitted if and only if some answered poll returned it |
| `TailOverStore.MissedRowHasGap` | backend/internal/api/server.go:328-330 | a row in the window of an answered poll that is never emitted means that this poll was truncated and a gap was reported |
| `TailOverStore.AtMostOnceInOrder` | backend/internal/api/server.go:314-350 | over a store that only gains newer rows, each row is emitted at most once over any run of polls, in time order |
| `TailOverStore.UntruncatedPollIsComplete` | backend/internal/api/server.go:320-342 | after an untruncated poll every row of its 30 s window has been emitted |
| `TailOverStore.NoRowIsForgotten` | backend/internal/api/server.go:314-342 | over such a store the bounded memory does what an unbounded one would |
| `Pagination.ClientQuery` | backend/internal/storage/victorialogs/client.go:131-151 | a page is the next `limit` rows strictly before the cursor; it is truncated exactly when more follow and then carries the last time as cursor; limits outside 0..1000 are refused |
| `Pagination.StartIsFilter` | backend/internal/query/builder.go:65-71 | on a sorted store the rows strictly before the cursor are those from the page start on |
| `Pagination.QueryWithoutLimit` | backend/internal/query/builder.go:22-39 | with limit 0 a query returns no rows and no cursor, and reports truncation exactly when rows match |
| `Pagination.FollowCursors` | backend/internal/storage/victorialogs/client.go:136-149 | following cursors ends with the rows of the visited positions |
| `Pagination.VisitedIncreases` | backend/internal/storage/victorialogs/client.go:136-149 | positions are visited in increasing order: no repeats, newest first |
| `Pagination.MissedIff` | backend/internal/query/builder.go:65-74 | a row is missed if and only if it follows the last row of a truncated page with the same time |
| `Pagination.CompleteIffNoSplit` | backend/internal/query/builder.go:65-74 | the run returns every row if and only if no truncated page ends between two rows of one time |
| `Pagination.DistinctTimesAreComplete` | backend/internal/storage/victorialogs/client.go:131-151 | with distinct times the run is the full sorted result |
| `DirectRow.BaseValues` | backend/internal/storage/victorialogs/row.go:12-47 | the value under every key of the base row: the fixed ones, strings that are not empty, numbers that are known |
| `DirectRow.AddFields` | backend/internal/storage/victorialogs/row.go:48-54 | the loop over the fields, in any order, computes the row function |
| `DirectRow.AddLabels` | backend/internal/storage/victorialogs/row.go:55-57 | the loop over the labels, in any order, computes the row function |
| `DirectRow.ToDirectRow` | backend/internal/storage/victorialogs/row.go:11-59 | base row, then fields, then labels, in any orders |
| `DirectRow.BaseIsNeverOverwritten` | backend/internal/storage/victorialogs/row.go:48-57 | for every order and all keys, what was written before the loops stays |
| `DirectRow.RowIsOrderFree` | backend/internal/storage/victorialogs/row.go:48-57 | without a clash every order of fields and labels gives the same row |
| `DirectRow.NothingIsLost` | backend/internal/storage/victorialogs/row.go:48-57 | without a clash every label is kept, and every field is kept under its own or `event.` key unless a label has that key |
| `RowOrder.ClashBreaksOrder` | backend/internal/storage/victorialogs/row.go:48-54 | for every map of fields with a clash there are two orders of which only one leaves a certain `event.` key in the row |
| `RowOrder.OrderFreeIff` | backend/internal/storage/victorialogs/row.go:11-59 | the row of an entry is the same for every order of fields and labels if and only if no taken field key comes with its own `event.` key |
| `RowOrder.ClashOverwrites` | backend/internal/storage/victorialogs/row.go:48-54 | for every map of fields with a clash there is an order in which one field's value is overwritten by another's |
| `RowOrder.KeepsAllIff` | backend/internal/storage/victorialogs/row.go:48-57 | whatever the values, every order keeps every field and label if and only if there is no clash and no field has the key of a label |
| `UuidV7.VersionMask` | backend/internal/normalization/normalizer.go:53 | masking with 0x0f and setting 0x70 keeps the low four bits |
| `UuidV7.VariantMask` | backend/internal/normalization/normalizer.go:54 | masking with 0x3f and setting 0x80 keeps the low six bits |
| `UuidV7.StampBytes` | backend/internal/normalization/normalizer.go:46-54 | time, version and variant are written in place over the random bytes |
| `UuidV7.Format` | backend/internal/normalization/normalizer.go:55-65 | the buffer is filled with the five hex groups and four hyphens |
| `UuidV7.Generate` | backend/internal/normalization/normalizer.go:41-66 | the identifier is the text of the stamped bytes |
| `UuidV7.TextIsHexWithHyphens` | backend/internal/normalization/normalizer.go:55-65 | hyphens at exactly four places and lower-case hex digits everywhere else |
| `UuidV7.TextOrderIsTimeOrder` | backend/internal/normalization/normalizer.go:46-65 | for all random bytes and times below 2^48 ms, an earlier time gives a lexicographically smaller identifier |
| `UuidV7.TextKeepsTime` | backend/internal/normalization/normalizer.go:46-65 | the time can be read back from the identifier |
| `UuidV7.TextKeepsRandomBits` | backend/internal/normalization/normalizer.go:53-65 | version 7 and variant 10 of section 5.7 of RFC 9562, and every other random bit is kept |

## Left out

- Real time: timers, deadlines, timeouts and cancellation are steps that may happen at any moment; the wait loops of `enqueue` and `dequeue` are therefore steps of the pipeline, not loops of the queue class.
- Counters: a frame counts as admitted when it enters the queue, although the accepted metric is raised later, and a successful append counts the whole batch as stored, although the source adds the number the backend reports.
- Integer width: queue byte counters and batch byte sums do not wrap at 2^63; retry durations and UUID bytes do have their width.
- Listener start-up: sources are started before the first step, and a listener that fails to start is not modelled.
- Sockets, HTTP, JSON, metrics and log output, and read errors other than end of stream in framing; an error while writing the live tail ends the loop and is not modelled.
- LogsQL text and the query engine: the store is a sorted sequence of the matching rows with a stable order among equal times; validation of time range, text and filters, and the base64 form of cursors, are not part of the model.
- The RFC 3164 regular expression and tag parsing; RFC 3339 timestamps are a partial function given from outside; zones have a fixed offset; no UTF-8 repair.
- FrameQueues.FrameQueue.NotifyLocked: the broadcast channel is a number that goes up; what closing it does for waiters is in the wake steps of the pipeline.
- ListenersClose.CloseCompletes: connection buffers are not modelled, so that traffic stops at some time is an assumption.
- Storage rows: times and the schema version are already text.
- UuidV7.Generate: takes its sixteen random bytes as an argument, so a failing random source is not modelled.
- Normalization other than the identifier, statistics, export, field discovery, configuration loading, saved searches, sources, PostgreSQL, authentication, the frontend and the load generator: straight-line code that would only add easy members.
