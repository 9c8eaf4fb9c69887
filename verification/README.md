# A verified model of go-fries/fries

This project models the hard packages of go-fries/fries in Dafny and proves what they promise: the GCRA
rate limiter with its expiry heap, the debouncer, the batcher and the worker pool with their shared
admission protocol, the result stream, the token-fenced idempotency store and its executor, the wildcard
matcher, the interval algebra, the grouping log handler, the task queue and the lifecycle runner.
`dafny verify dfyconfig.toml` checks everything.

How the Go code is rendered:

- Code that updates fields or loops is a class or a method. Its contract ties the new state to a function of
  the old one, and the lemmas are about those functions.
- Concurrent packages are transition systems as well. A mutex section, a channel operation or a context
  check is one step, and so is a clock reading taken outside a lock; steps of different goroutines
  interleave freely. A run is any sequence of enabled
  steps from the initial state, and the theorems speak of every state of every run.
- What Go punishes with a panic (a send on a closed channel, a channel closed twice) is counted or flagged
  in the state and proved absent.
- Clock readings are integers that never go back. Handlers, callbacks, providers and contexts are oracles:
  what they return is a parameter of the step. Some fields record history (what was accepted, handled or
  delivered) so that the theorems can refer to it.
- The rate limiter's arithmetic is written twice, over the integers and with 64-bit wrap-around, and the two
  are proved equal where the code is meant to be used. Go's `int` is taken to be 64 bits wide.

| files | package |
|---|---|
| Limits, Gcra, LeakyBucket, RateRuns, HeapOrder, RateStore | ratelimit, ratelimit/memory |
| Debounce, DebounceRuns | debounce |
| Admission, Batcher, BatcherRuns, Pool | batcher, parallel (pool) |
| Stream | parallel (stream) |
| IdempotencyStore, IdempotencyClaims, IdempotencyExecutor | idempotency, idempotency/memory |
| Wildcard | strings |
| Periods | time/period |
| Slog | log/slog/enrich, log/slog/syslog |
| Queue, QueueRuns | queue, queue/adapter/memory |
| Lifecycle, LifecycleRuns | lifecycle |

## Model

| member | source | states |
|---|---|---|
| `Limits.DivideRoundUp` | ratelimit/limit.go:70-76 | the result is the ceiling of the quotient |
| `Limits.IntervalIsExactCeiling` | ratelimit/memory/store.go:155-168 | rounding up in two stages gives exactly the ceiling of Period over Rate microseconds, and Rate intervals cover at least a Period |
| `Limits.ValidateLimitExact` | ratelimit/limit.go:41-68 | a limit is accepted if and only if its fields are positive, its exact interval is at least a microsecond and its burst duration fits a time.Duration; the interval it checks is the one Take uses |
| `Limits.CeilingOfCeiling` | ratelimit/memory/store.go:155-168 | rounding up by one divisor and then by another is rounding up by their product |
| `Limits.ValidLimitBounds` | ratelimit/limit.go:41-68 | every accepted limit has an interval of at least one microsecond and a burst span that fits |
| `Gcra.RemainingIsExact` | ratelimit/memory/store.go:98-125 | straight after any decision a further cost is allowed if and only if it is at most Remaining, which is between zero and Burst |
| `Gcra.RetryAfterIsExact` | ratelimit/memory/store.go:98-107 | a rejected cost is rejected at every microsecond before RetryAfter and allowed from it on |
| `Gcra.ResetAfterIsExact` | ratelimit/memory/store.go:98-125 | a full burst is first allowed exactly when ResetAfter has elapsed |
| `Gcra.TakeDoesNotOverflow` | ratelimit/memory/store.go:86-125 | with the clock two burst spans inside the 64-bit range and a stored tat at most a burst ahead of it, every intermediate value fits, the machine computes the exact decision, durations are non-negative and the stored tat stays at most a burst ahead |
| `LeakyBucket.PourDecides` | ratelimit/memory/store.go:89-125 | the store's virtual scheduling and a leaking bucket give the same verdict, ResetAfter is the bucket's content and RetryAfter its excess |
| `LeakyBucket.BucketAllowsTheSame` | ratelimit/memory/store.go:89-125 | over every sequence of takes the schedule and the leaking bucket allow the same ones |
| `LeakyBucket.FreshKeyHasItsBurst` | ratelimit/memory/store.go:92-99 | an unused key allows a cost if and only if it is at most Burst |
| `RateRuns.StoreRefinesPlainMap` | ratelimit/memory/store.go:72-153 | for a clock that never goes back, every run of the lazily cleaned store answers exactly like a map that never forgets a tat, in 64-bit arithmetic too |
| `RateRuns.KeysAreIndependent` | ratelimit/memory/store.go:72-153 | what a run answers to one key is what a store serving only that key would answer |
| `RateRuns.ResetForgets` | ratelimit/memory/store.go:129-146 | a Reset forgets the key's tat and leaves every other key's alone |
| `RateRuns.ResetRestoresBurst` | ratelimit/memory/store.go:129-146 | in every run of the store, a key never used, or reset and not used since, is allowed its next take, with exactly the burst less the cost remaining |
| `RateRuns.MachineIsExactOnKey` | ratelimit/memory/store.go:86-125 | for one key under one policy the machine keeps the exact tat and grants the exact units, whatever policies other keys use |
| `RateRuns.TatCarriesRun` | ratelimit/memory/store.go:92-116 | every unit granted since an event has pushed the tat a full interval past the clock of that event, and the tat is at most a burst ahead |
| `RateRuns.MachineRunIsExact` | ratelimit/memory/store.go:86-125 | over a whole run with one policy per key and representable clocks the machine computes the exact answers and tats, and every tat stays at most a burst ahead of the clock |
| `RateRuns.GrantedWithinBudget` | ratelimit/memory/store.go:86-126 | for a key used under one policy, from any event to the end of any run in which that key is not reset since, whatever the other keys do: units granted times the interval are at most a burst span plus the time elapsed |
| `RateRuns.GrantedWithinPolicy` | ratelimit/memory/store.go:86-126 | the same in the policy's terms: never more than Burst plus Rate times elapsed over Period |
| `RateRuns.BoundIsAttained` | ratelimit/memory/store.go:86-126 | the bound cannot be lowered: for every policy and number of intervals, a full burst followed by one unit per interval is granted whole and meets it with equality |
| `HeapOrder.SwapWithParent` | ratelimit/memory/store.go:24-32 | one exchange of container/heap's up moves the only disorder to the parent's slot |
| `HeapOrder.SwapWithLeastChild` | ratelimit/memory/store.go:24-32 | one exchange of down moves the only disorder to the smaller child's slot |
| `HeapOrder.HeapAroundReplaced` | ratelimit/memory/store.go:109-111 | changing one tat leaves disorder around that slot only |
| `HeapOrder.DownSettles` | ratelimit/memory/store.go:24-32 | where no child is smaller the slot is settled below, and the whole is a heap if it is settled above as well |
| `HeapOrder.RootIsLeast` | ratelimit/memory/store.go:148-153 | the first record of a heap has the least tat |
| `RateStore.Store.Swap` | ratelimit/memory/store.go:28-32 | two slots are exchanged and every record still knows its slot |
| `RateStore.Store.Up` | ratelimit/memory/store.go:24-38 | moving a record up restores heap order and indices over the same records |
| `RateStore.Store.Down` | ratelimit/memory/store.go:24-48 | moving a record down restores heap order if it moved, and leaves only the way up to check if it did not |
| `RateStore.Store.Push` | ratelimit/memory/store.go:34-38 | the heap holds the old records and the new one, in heap order, every index right |
| `RateStore.Store.DropLast` | ratelimit/memory/store.go:40-48 | the last record leaves with index -1 |
| `RateStore.Store.Fix` | ratelimit/memory/store.go:109-111 | after one tat changed, heap order and indices are restored over the same records |
| `RateStore.Store.RemoveAt` | ratelimit/memory/store.go:141-144 | exactly the record at that slot leaves a heap that stays ordered and indexed |
| `RateStore.Store.Pop` | ratelimit/memory/store.go:149-151 | exactly the first record leaves a heap that stays ordered and indexed |
| `RateStore.Store.Remove` | ratelimit/memory/store.go:141-144 | a known key leaves map and heap together and nothing else changes |
| `RateStore.Store.Write` | ratelimit/memory/store.go:109-117 | a new tat is written in place and its record re-sorted, or a new record enters map and heap |
| `RateStore.Store.Cleanup` | ratelimit/memory/store.go:148-153 | exactly the keys whose tat lies ahead of the clock remain; map and heap still hold the same records |
| `RateStore.Store.Take` | ratelimit/memory/store.go:72-126 | a context error changes nothing; otherwise decision and new state are those of the reference step, and the invariant of map and heap holds |
| `RateStore.Store.Reset` | ratelimit/memory/store.go:129-146 | a context error changes nothing; otherwise the expired keys and the given key are gone from map and heap |
| `RateClient.Serve` | ratelimit/memory/store.go:54-153 | any list of operations put to one store object is answered like by the map that never forgets |
| `DebounceSections.Debouncer.TriggerValue` | debounce/debouncer.go:96-110 | a closed or canceled debouncer refuses; otherwise the pending value is replaced or begun, its due time restarted and the worker notified |
| `DebounceSections.Debouncer.SelectFlush` | debounce/debouncer.go:162-179 | which invocation a flush waits for and whether it must come back; the pending one is frozen only into a free slot |
| `DebounceSections.Debouncer.StopOnce` | debounce/debouncer.go:181-198 | the first call closes, cancels, discards pending and frozen and notifies; later ones change nothing |
| `DebounceSections.Debouncer.NextCall` | debounce/worker.go:37-57 | the frozen invocation, or a due pending one, becomes the running one; otherwise the wait is the time to its due time |
| `DebounceSections.Debouncer.FinishRunning` | debounce/worker.go:59-68 | the running invocation is completed with the handler's error and its slot freed |
| `DebounceRuns.RunKeepsInv` | debounce/debouncer.go:96-227 | every reachable state keeps the joint invariant of slots, runs, worker, timer, calls and flushes |
| `DebounceRuns.NoLostWakeup` | debounce/worker.go:8-57 | while the worker parks, a frozen value or closure has a token in the wake channel, and a pending value a token or a timer set for its current due time: it fires exactly then, late only by the time the worker took from next to arming it |
| `DebounceRuns.TriggersAreRecorded` | debounce/debouncer.go:96-110 | the triggers on record are exactly the Trigger calls that found the debouncer neither closed nor canceled, with their values and times, in order |
| `DebounceRuns.StepRecords` | debounce/debouncer.go:96-110 | a Trigger that finds the debouncer open is recorded in the invocation then pending and notifies the worker; a refused one changes nothing, and no other step records one |
| `DebounceRuns.OpenUntilStopped` | debounce/debouncer.go:181-198 | the debouncer is closed exactly once Close or the worker's stop has run, and canceled exactly once those or the context have |
| `DebounceRuns.TokensAreSpent` | debounce/debouncer.go:200-205 | the worker is woken by the channel no more often than it was notified |
| `DebounceRuns.NextIsPrompt` | debounce/worker.go:37-57 | asked for work, the worker takes a frozen value, else a pending one that is due, and leaves once closed or canceled |
| `DebounceRuns.TriggersFormRuns` | debounce/debouncer.go:96-110 | accepted triggers split into consecutive runs, one per invocation, each ending in its latest trigger |
| `DebounceRuns.HandlerCallsFollowRuns` | debounce/worker.go:37-68 | the k-th handler call is for the k-th invocation, reads the last value of its run and, unless flushed, comes no sooner than a full delay after the run's latest trigger |
| `DebounceRuns.HandlerGetsLastTrigger` | debounce/worker.go:37-68 | the k-th handler call gets the value of the last Trigger call of the k-th run and, unless flushed, comes no sooner than a full delay after it |
| `DebounceRuns.CompletedExactlyOnce` | debounce/debouncer.go:222-227 | no invocation is completed twice, none is open once the worker is gone, and discarded ones never reached the handler |
| `DebounceRuns.OnlyClosureDiscards` | debounce/debouncer.go:181-198 | an invocation becomes discarded only by the closing step, and only from the pending or the frozen slot |
| `DebounceRuns.FlushGuarantee` | debounce/debouncer.go:129-148 | when Flush returns the outcome of an invocation that was not discarded, or nil because idle, every value accepted before the call was handled or replaced by a later value that was handled, along the retry loop too |
| `DebounceRuns.FlushMarkIsCallTime` | debounce/debouncer.go:129-134 | the mark the guarantee speaks of is the number of triggers accepted when Flush was called |
| `DebounceRuns.FlushAnswers` | debounce/debouncer.go:129-148 | the outcome Flush returns is what the handler returned for that invocation unless closure discarded it, and it answers closed only when the debouncer is closed or canceled |
| `DebounceRuns.SelectAnswers` | debounce/debouncer.go:162-179 | Flush is told closed exactly when closed or canceled, and nil exactly when nothing is pending, frozen or running |
| `DebounceRuns.CompletedKeepNoValue` | debounce/debouncer.go:222-227 | a completed invocation keeps no value |
| `DebounceRuns.CloseProgresses` | debounce/debouncer.go:157-160 | once closed, every step of the worker or of a flush lowers a measure, and no other step touches them |
| `DebounceRuns.CloseNeverStuck` | debounce/debouncer.go:157-160 | once closed, some step is possible exactly until the done channel is closed and every Flush has returned, without counting on a flush giving up |
| `Admission.StepKeepsInv` | batcher/batcher.go:164-199 | no step of any submitter, closer or receiver leaves the invariant: no send reached a closed channel, the channel is closed at most once and only with no submitter left, and no submitter registered after the wait began |
| `Admission.StepKeepsCount` | batcher/batcher.go:164-199 | the wait group counts exactly the registered submitters |
| `Admission.StepIsFifo` | parallel/pool.go:148-209 | requests are received in acceptance order and none accepted is lost or altered |
| `Admission.AnswersAreTrue` | batcher/batcher.go:108-121 | exactly the requests whose callers are told so are accepted; every submitter leaves its select with its answer, and no step touches another submitter |
| `Admission.ClosedAcceptsNothing` | batcher/batcher.go:194-197 | once the request channel is closed only receiving is possible |
| `Admission.LoadDecreases` | parallel/pool.go:246-260 | after stop every step of the protocol strictly lowers what is left to do |
| `Admission.ClosedGateMoves` | batcher/batcher.go:188-199 | a closed gate is never stuck before its channel is closed and empty |
| `Admission.Admitter.RegisterSubmitter` | batcher/batcher.go:168-176 | a submitter is refused once closed and otherwise counted |
| `Admission.Admitter.TrySubmit` | parallel/pool.go:196-209 | which of accepted, closed and full is answered, and that a refusal changes nothing |
| `Admission.Admitter.StopOnce` | batcher/batcher.go:188-199 | the first call closes admission, later ones change nothing |
| `BatchWorker.ProcessedFits` | batcher/worker.go:39-55 | handling any request keeps the worker's invariant: nothing lost, reordered or handled twice, batches within size, the timer running exactly while a batch is open, the first error remembered, every barrier served |
| `BatchWorker.FlushFits` | batcher/worker.go:57-72 | a flush hands over exactly the current batch and keeps the invariant |
| `BatchWorker.ProcessedTimer` | batcher/worker.go:46-54 | accepting a request keeps the timer running for exactly an interval from when the first item of the batch was taken |
| `BatchWorker.BarrierServesItself` | batcher/worker.go:39-45 | a barrier answered right after a flush has exactly the items before it handled, with the first error of those batches |
| `BatchWorker.Worker.Flush` | batcher/worker.go:57-72 | a non-empty batch is handed over once, emptied, its timer stopped and its error kept only if none came before; an empty one changes nothing |
| `BatchWorker.Worker.Accept` | batcher/worker.go:39-55 | an item joins the batch, starts the timer for an interval if first and flushes a full batch; a barrier flushes and is completed with the first error so far |
| `BatchWorker.Worker.Run` | batcher/worker.go:19-37 | over any schedule of requests and ticks exactly the requests are seen, all items are handled in order and the first handler error is returned |
| `BatcherRuns.NeverFaults` | batcher/batcher.go:108-121 | no reachable state has sent on a closed channel, closed one twice or overfilled the queue |
| `BatcherRuns.ToldIsAccepted` | batcher/batcher.go:164-186 | the accepted requests are exactly those whose Add, TryAdd or Flush was told so, each at its own position |
| `BatcherRuns.BatchesKeepTheirErrors` | batcher/worker.go:57-72 | every batch is on record with the error the handler returned for it |
| `BatcherRuns.StepStamps` | batcher/worker.go:39-55 | items are stamped with the clock when received and when taken into the batch |
| `BatcherRuns.RunKeepsInv` | batcher/batcher.go:108-199 | every reachable state keeps the joint invariant of gate, worker, barriers and closer |
| `BatcherRuns.ItemsConserved` | batcher/worker.go:19-72 | handled batches, then the current batch, then what is in hand, then the queue, are the accepted items in order; every batch has between one and batchSize items |
| `BatcherRuns.PartialBatchTimesOut` | batcher/worker.go:39-55 | with a partial batch and the worker at its select, the flush timer can fire exactly from one interval after the first item was taken into the batch; no item then has waited longer than the interval and the time from receiving the first item to taking it |
| `BatcherRuns.BarrierGuarantee` | batcher/batcher.go:137-144 | when a flush barrier has completed, exactly the items accepted before it have been handled, these include all accepted before Flush was called, and its error is the first among those batches |
| `BatcherRuns.BarriersCompleteOnce` | batcher/batcher.go:218-221 | no two completions are for the same barrier |
| `BatcherRuns.FinishedMeansDrained` | batcher/batcher.go:81-85 | the finished signal means every accepted item handled, every accepted barrier completed and the run's first error reported |
| `BatcherRuns.FinishedIsFinal` | batcher/batcher.go:146-162 | after it no step of any caller or of the worker is possible |
| `BatcherRuns.DrainProgresses` | batcher/batcher.go:146-162 | after Shutdown every step strictly lowers a measure, and the passing of time leaves it alone |
| `BatcherRuns.DrainNeverStuck` | batcher/batcher.go:146-162 | after Shutdown some step is possible exactly until the finished signal, so every schedule ends in it |
| `Pool.NeverFaults` | parallel/pool.go:84-87 | no future or done channel is closed twice, no task called twice, no send on a closed channel |
| `Pool.ToldIsAccepted` | parallel/pool.go:148-209 | the accepted tasks are exactly those whose Submit or TrySubmit was given a future, each at its own position |
| `Pool.RunKeepsInv` | parallel/pool.go:148-278 | every reachable state keeps the joint invariant of gate, workers, futures and closer |
| `Pool.StartsInOrder` | parallel/pool.go:262-268 | the next task a worker receives is the oldest accepted one not yet received |
| `Pool.FutureHoldsItsOutcome` | parallel/pool.go:270-278 | a future is complete exactly when its task was executed, and holds the cause its context ended with, the task not called, or what the one call returned |
| `Pool.CompletedIsFinal` | parallel/pool.go:60-87 | a completed future never changes, so every Wait gives the same answer |
| `Pool.DoneMeansDrained` | parallel/pool.go:246-260 | the done signal means every accepted task processed and every accepted future completed, exactly once |
| `Pool.DrainProgresses` | parallel/pool.go:224-260 | after Shutdown every step strictly lowers a measure |
| `Pool.DrainNeverStuck` | parallel/pool.go:224-260 | after Shutdown some step is possible exactly until the done signal |
| `Stream.StreamSafety` | parallel/stream.go:175-200 | the i-th value received carries index i, at most limit inputs are in flight, and no result is sent after the result channel closes |
| `Stream.RunKeepsInv` | parallel/stream.go:57-110 | every reachable state keeps the joint invariant of input gate, workers, results and terminal status |
| `Stream.ResultsAreOwn` | parallel/stream.go:84-100 | each result carries the index of a received input and that input's own callback value, and no two results carry the same index |
| `Stream.CallbacksGetTheirInputs` | parallel/stream.go:84-100 | the inputs on record are the values taken from the channel, in order, every callback is given the value of the input whose index its result carries, and none returns that was not called |
| `Stream.WorkersStay` | parallel/stream.go:84-100 | a worker returns only once the input is closed or the stream is canceled |
| `Stream.OnlyCancellationDrops` | parallel/stream.go:87-98 | while the stream is not canceled, every received input is delivered or held by a worker |
| `Stream.NilMeansAllDelivered` | parallel/stream.go:101-107 | a nil terminal error means each received input was delivered exactly once with its own index and result |
| `Stream.TerminalErrorIsCause` | parallel/stream.go:101-107 | a terminal error is the cause the stream was canceled with before all workers had returned |
| `Stream.CancellationProgresses` | parallel/stream.go:134-137 | once canceled, every step strictly lowers a measure |
| `Stream.CanceledNeverStuck` | parallel/stream.go:134-137 | once canceled, a step of the stream itself is possible exactly until its done channel is closed |
| `IdempotencyLedger.EagerAnswersLikeLedger` | idempotency/memory/store.go:39-120 | a store that drops records at their expiry answers like a ledger that never drops any |
| `IdempotencyStore.Store.ScheduleCleanup` | idempotency/memory/store.go:137-141 | the watermark becomes the earlier of the two times |
| `IdempotencyStore.Store.Cleanup` | idempotency/memory/store.go:122-135 | skipping below the watermark and rebuilding it while scanning both leave exactly the unexpired records |
| `IdempotencyStore.Store.BeginClaim` | idempotency/memory/store.go:39-70 | reply and new records are the reference ruling on the unexpired records: claim, conflict or found |
| `IdempotencyStore.Store.CompleteClaim` | idempotency/memory/store.go:73-98 | only the owning token's active claim becomes a result; otherwise claim lost |
| `IdempotencyStore.Store.AbortClaim` | idempotency/memory/store.go:101-120 | only the owning token's active claim is removed; otherwise claim lost |
| `IdempotencyStore.Store.Perform` | idempotency/memory/store.go:39-120 | a nil or ended context changes nothing; otherwise the three operations follow the reference ruling |
| `IdempotencyStore.Serve` | idempotency/memory/store.go:21-141 | any list of operations put to one store object with its single watermark is answered like by the ledger |
| `IdempotencyClaims.SettlingOwnsTheClaim` | idempotency/memory/store.go:73-120 | an accepted Complete or Abort settles the claim its own token acquired, with no acquisition or settlement of the key in between |
| `IdempotencyClaims.OvertakenClaimIsLost` | idempotency/memory/store.go:86-90 | a claim that was overtaken can never record its result nor remove its successor |
| `IdempotencyClaims.ClaimTtlExcludes` | idempotency/memory/store.go:39-70 | mutual exclusion: while its owner has neither completed nor aborted it, an acquired key is not acquired again before the claim's TTL has passed |
| `IdempotencyClaims.ResultTtlSeparates` | idempotency/memory/store.go:91-96 | after a Complete the key is neither acquired nor completed again before that result's TTL |
| `IdempotencyClaims.ReplayedResultWasRecorded` | idempotency/memory/store.go:63-69 | a Begin told Completed gets the very bytes of an earlier Complete that has not expired |
| `IdempotencyClaims.BusyHasOwner` | idempotency/memory/store.go:63-69 | a Begin is told InProgress only while a claim acquired before it is neither settled nor expired |
| `IdempotencyClaims.FingerprintDecides` | idempotency/memory/store.go:63-69 | a Begin that does not acquire the key is told of a conflict exactly when it names a fingerprint other than that of the key's latest acquisition, running or completed |
| `IdempotencyClaims.AcquiresWhenFree` | idempotency/memory/store.go:39-70 | a Begin acquires its key exactly when no claim on it is unsettled and unexpired and no result is alive |
| `IdempotencyClaims.LiveResultIsFound` | idempotency/memory/store.go:63-69 | while a result lives a Begin is given it, or told of a conflict |
| `IdempotencyClaims.LiveClaimIsFound` | idempotency/memory/store.go:63-69 | while a claim is neither settled nor expired a Begin is told InProgress, or of a conflict |
| `IdempotencyExecutor.RunKeepsInv` | idempotency/executor.go:46-159 | in every interleaving of Do calls each call's outcome agrees with the store's log |
| `IdempotencyExecutor.SuccessesAreSeparated` | idempotency/executor.go:46-71 | two Do calls on a key that both ran their handler and returned nil completed at least the first one's result TTL apart |
| `IdempotencyExecutor.HandlersOverlapOnlyAfterTtl` | idempotency/executor.go:46-139 | two Do calls on one key that both hold a claim, a running handler among them, began at least the earlier one's execution TTL apart |
| `IdempotencyExecutor.SuccessWasNotOvertaken` | idempotency/executor.go:141-150 | nobody acquired the key between a successful Do's claim and its completion |
| `IdempotencyExecutor.ReplayHasSource` | idempotency/executor.go:63-65 | a Do that returns without running its handler does so on the living result of a Do that succeeded, and returns that very result |
| `IdempotencyExecutor.BusyHasHolder` | idempotency/executor.go:86-139 | a Do is refused as in progress only while another claim on the key is neither settled nor expired |
| `IdempotencyExecutor.ConflictHasCause` | idempotency/executor.go:86-139 | a Do returns a key conflict when its fingerprint differs from that of the key's latest claim, and no other refusal or replay does |
| `IdempotencyExecutor.HandlerDecides` | idempotency/executor.go:46-71 | a call whose handler succeeded is completed with its own result, one whose handler failed is aborted and never completed, and one that did not run its handler never succeeds |
| `IdempotencyExecutor.OnlySuccessIsCompleted` | idempotency/executor.go:67-71 | nothing is ever offered to the store as a result but what a handler returned with success |
| `IdempotencyExecutor.StartAnswers` | idempotency/executor.go:86-139 | on a free key a Do holds the claim and runs its handler, or gives the claim back if its context has ended; on a living result it replays it, on a living claim it is busy, unless the fingerprint conflicts |
| `IdempotencyExecutor.InTimeIsAccepted` | idempotency/executor.go:141-159 | a Do that gets back to the store within its execution TTL is never refused: a handler that succeeded makes it succeed, one that failed gives the claim back |
| `Wildcard.LaterStarSuffices` | strings/strings.go:39-44 | once a literal segment is read and another star follows, the earlier star need never move again |
| `Wildcard.Is` | strings/strings.go:30-66 | true exactly when the value matches the pattern with a star standing for any byte sequence; the loop ends by a lexicographic measure |
| `Periods.EqualMeansSamePoints` | time/period/period.go:59-65 | equal if and only if the same time points |
| `Periods.ContainsPeriodMeansSubset` | time/period/period.go:76-82 | contained if and only if every point is |
| `Periods.OverlapsMeansSharedPoint` | time/period/period.go:86-88 | overlapping if and only if a point is shared |
| `Periods.IntersectMeansSharedPoints` | time/period/period.go:99-112 | the non-empty interval of exactly the shared points, and nothing exactly when there are none |
| `Periods.AdjacentMeansTouching` | time/period/period.go:93-95 | two intervals are adjacent if and only if both are non-empty, they share no point and their union is one interval |
| `Periods.CanonicalUnique` | time/period/set.go:5-10 | a set of points has at most one list of sorted, non-empty, non-touching intervals |
| `Periods.Sort` | time/period/set.go:21-27 | the sorted permutation of the inputs |
| `Periods.NonEmpty` | time/period/set.go:12-17 | only non-empty intervals are kept, and they cover the same points |
| `Periods.AbsorbSlot` | time/period/set.go:28-36 | the next interval is joined to the last kept one exactly when they overlap or touch, and kept apart otherwise |
| `Periods.Compact` | time/period/set.go:28-39 | compacting the sorted buffer in place leaves the canonical list of its points in the first slots |
| `Periods.Merge` | time/period/set.go:11-40 | the canonical list covering exactly the points of the inputs |
| `Periods.MergeIdempotent` | time/period/set.go:11-40 | merging a merged list changes nothing |
| `Periods.MergeDependsOnPointsOnly` | time/period/set.go:11-40 | order and repetition of the inputs do not matter |
| `Periods.GapsAreTheUncoveredPart` | time/period/set.go:50-61 | the gaps cover exactly the uncovered points between covered ones |
| `Periods.Gaps` | time/period/set.go:50-61 | the canonical list of the points between covered points that are not covered; merged and gap lengths add up to the extent |
| `Periods.Subtract` | time/period/period.go:122-146 | the canonical list of exactly the points of p outside all cuts |
| `Syslog.WithAttrs` | log/slog/syslog/handler.go:91-104 | each attribute is stored with the groups open at the time |
| `Syslog.FormatRecord` | log/slog/syslog/handler.go:140-151 | the buffer holds the message, the bound attributes and the record's attributes, in order |
| `Syslog.EmptyGroupsPrintNothing` | log/slog/syslog/handler.go:159-163 | leaving out empty groups does not change the text |
| `Fields.KeyIsDotted` | log/slog/syslog/handler.go:183-189 | a qualified key is the path of names to it with dots between |
| `Fields.LinePrintsFields` | log/slog/syslog/handler.go:140-189 | a line is the message and then its fields, each leaf once, in order, with its whole path and text |
| `ShownFields.DirectLineShows` | log/slog/syslog/handler.go:91-151 | told from the calls alone: the syslog handler shows every attribute bound before and in the record, under the groups open when it was bound |
| `ShownFields.EnrichedLineShows` | log/slog/enrich/handler.go:58-170 | the enrich handler shows the fields bound before the first group, then those of its sources under no group, then what the syslog handler shows after the former |
| `Enrich.GroupAttr` | log/slog/enrich/handler.go:102-127 | the backward loop builds the recursive tree, and nothing when it would be empty |
| `Enrich.Handle` | log/slog/enrich/handler.go:58-98 | the line is what the wrapped handler prints for dynamic attributes followed by record or tree |
| `Enrich.TreeRendersLikeGroups` | log/slog/enrich/handler.go:102-127 | the rebuilt tree prints what native grouping prints |
| `Enrich.CallsMirror` | log/slog/enrich/handler.go:138-170 | after any calls the handler's scopes hold what native grouping would have bound |
| `Enrich.DelegatingHandlerIsDirect` | log/slog/enrich/handler.go:138-170 | with WithCurrentGroup the wrapped handler is the one the calls themselves would have built |
| `Enrich.EnrichedLineIsDirectLine` | log/slog/enrich/handler.go:58-170 | for every sequence of WithAttrs and WithGroup calls and every record, the line is the syslog handler's own line with the dynamic attributes inserted unqualified right after the attributes bound before the first group |
| `Enrich.CurrentGroupLine` | log/slog/enrich/handler.go:159-170 | with WithCurrentGroup the line is the syslog handler's own line with the dynamic attributes before the record's |
| `TaskQueue.Queue.Enqueue` | queue/adapter/memory/queue.go:31-50 | an ended context or no task changes nothing; otherwise the task joins the end of its queue, a nameless one the default queue, and waiters are notified |
| `TaskQueue.EnqueuedAt` | queue/adapter/memory/queue.go:31-50 | a task joins the end of its own queue, a nameless one that of the default queue, and no other queue changes |
| `TaskQueue.Queue.Signal` | queue/adapter/memory/queue.go:182-185 | every notify channel handed out so far is closed, so all who wait are woken; the one handed out next is open; the channel closed was open, so none is closed twice |
| `TaskQueue.Queue.Next` | queue/adapter/memory/queue.go:157-180 | the oldest task due by the clock reading leaves with its attempt counted and the others keep their order; otherwise the wait is the least time to a task, zero if there is none; the channel handed out is open |
| `TaskQueue.LeastWaitIsLeast` | queue/adapter/memory/queue.go:157-180 | with no task due, the wait is positive, is that of some task and is at most that of every task; it is zero exactly when there is none |
| `TaskQueue.Queue.Retry` | queue/adapter/memory/queue.go:123-134 | the task goes back with its new due time, or nothing changes |
| `TaskQueue.Queue.DeadLetter` | queue/adapter/memory/queue.go:136-155 | the task joins the dead letters with its reason, or nothing changes |
| `QueueRuns.TasksConserved` | queue/worker.go:414-493 | every enqueued task is in exactly one of queued, in delivery, acknowledged, dead-lettered, lost to a failed settlement |
| `QueueRuns.ProducedAreRecorded` | queue/adapter/memory/queue.go:31-50 | the tasks on record are exactly those producers enqueued |
| `QueueRuns.TasksKeptWhole` | queue/adapter/memory/queue.go:157-180 | a queued task and one handed to a handler are the task that was enqueued but for attempt and due time; a dead letter has its reason added |
| `QueueRuns.SettledAsReturned` | queue/worker.go:414-493 | a delivery is acknowledged after success or discard, dead-lettered with the handler's reason or for want of a handler, and lost with the loop stopped if its settlement fails |
| `QueueRuns.LoopsKeepGoing` | queue/worker.go:357-402 | a loop stops exactly when its context ends or a settlement of its own fails |
| `QueueRuns.RunKeepsInv` | queue/worker.go:357-493 | every reachable state keeps the joint invariant of queue, deliveries, dead letters, scanning and parked receivers, the clock reading and the scan being separate steps |
| `QueueRuns.AttemptCountsDeliveries` | queue/adapter/memory/queue.go:174-176 | a task's Attempt is what it was enqueued with plus its deliveries so far |
| `QueueRuns.DeliveriesBounded` | queue/worker.go:436-438 | a task enqueued with attempt zero is delivered at most maxAttempts times |
| `QueueRuns.GivenUpOnlyWhenExhausted` | queue/worker.go:436-448 | a failure that handler or policy want retried sends the task back exactly while attempts are left and otherwise to the dead letters; from attempt zero that is after exactly maxAttempts deliveries |
| `QueueRuns.DeliveredWhenDue` | queue/adapter/memory/queue.go:157-180 | no delivery comes before the time its task was enqueued or last retried for |
| `QueueRuns.RetriedNoSooner` | queue/adapter/memory/queue.go:123-134 | a retried task is not delivered again, then or ever after, before its delay has passed since the retry's clock reading |
| `QueueClient.Perform` | queue/adapter/memory/queue.go:31-180 | each step of a run done by the queue object leaves it in the run's next state, and a scan answers as the run says; other named queues share only the notify channel |
| `QueueClient.Play` | queue/adapter/memory/queue.go:31-180 | every run can be played on one queue object that ends in the run's last state |
| `QueueRuns.NoLostWakeup` | queue/adapter/memory/queue.go:72-98 | whatever is queued, a parked receiver can be woken by its closed notify channel, or its timer is set to fire no later after the task's due time than the receiver took from reading the clock, before the lock, to starting the timer |
| `QueueRuns.StepReadsClock` | queue/adapter/memory/queue.go:157-160 | the lag is counted from a true clock reading |
| `QueueRuns.DrainProgresses` | queue/worker.go:414-448 | unless it enqueues, every step that touches a task, settlements among them, strictly lowers a measure, and the others leave all tasks alone |
| `QueueRuns.ZeroMeansTerminal` | queue/worker.go:414-448 | that measure is zero exactly when every task has reached its end |
| `LifecycleTree.BootstrapLoop` | lifecycle/runner.go:179-193 | the loop starts providers in order, each with the context of the one before, up to the first failure |
| `LifecycleTree.Bootstrap` | lifecycle/runner.go:61-98 | starting a nested runner starts its children and, after a failure, stops those that had started |
| `LifecycleTree.ShutdownLoop` | lifecycle/runner.go:208-226 | the loop stops all providers in reverse order, past failures, each with the context of the last one that succeeded |
| `LifecycleTree.Shutdown` | lifecycle/runner.go:107-149 | stopping a nested runner stops its children |
| `LifecycleTree.BootAllCalls` | lifecycle/runner.go:179-193 | starting a list of trees calls its leaves in a row up to the first failure, and undoes the tree that failed |
| `LifecycleTree.BootOneCalls` | lifecycle/runner.go:61-98 | starting any tree calls its leaves in a row; a failure is followed by the shutdown, in reverse, of exactly the leaves that had started |
| `LifecycleTree.StopOneCalls` | lifecycle/runner.go:208-226 | shutting down any tree calls every leaf once, in reverse order, whatever fails |
| `LifecycleTree.StopOneResult` | lifecycle/runner.go:208-226 | shutting down any tree succeeds exactly when stopping its leaves in a row does, each with the context of the last that succeeded, and then ends in the same context |
| `LifecycleTree.NestingIsTransparent` | lifecycle/runner.go:61-226 | a tree of nested runners makes the same sequence of leaf calls as one runner over its flattened providers, rollback included, and ends in the same context or in failure alike |
| `LifecycleRuns.ShutdownReversesBootstrap` | lifecycle/runner.go:61-149 | under any interleaving of callers the shutdown calls are the reverse of the successfully bootstrapped prefix, each provider at most once, none missing once stopped, each done channel closed at most once |
| `LifecycleRuns.RunKeepsInv` | lifecycle/runner.go:61-149 | every reachable state keeps the joint invariant of state field, callers, done channels and calls made |
| `LifecycleRuns.OneActor` | lifecycle/runner.go:61-149 | at most one caller at a time starts or stops providers |
| `LifecycleRuns.ShutdownsAgree` | lifecycle/runner.go:136-143 | every Shutdown after a Bootstrap returns only once all is stopped, with one shared result |
| `LifecycleRuns.ShutdownStops` | lifecycle/runner.go:107-149 | a Shutdown called after Bootstrap has been called returns only when the runner is stopped and every provider that started has been shut down |
| `LifecycleRuns.NewUntilBootstrap` | lifecycle/runner.go:64-71 | a runner is new exactly until Bootstrap is first called |
| `LifecycleRuns.StepEarly` | lifecycle/runner.go:113-116 | a Shutdown is told it came early only by finding the runner new |
| `LifecycleRuns.ResultsAreTrue` | lifecycle/runner.go:61-149 | a stopped runner's shared result is a failure exactly when a shutdown call failed; Bootstrap succeeded exactly when every provider started, and a failed one has stopped the runner again |
| `LifecycleRuns.NeverStuck` | lifecycle/runner.go:107-149 | while any caller has not returned, some caller can take a step |
| `LifecycleRuns.CallersProgress` | lifecycle/runner.go:61-149 | without new calls every step strictly lowers a measure over all callers |
| `LifecycleRuns.ZeroMeansReturned` | lifecycle/runner.go:61-149 | that measure is zero exactly when every caller has returned, so every caller does |
| `LifecycleRuns.Runner.LookAtState` | lifecycle/runner.go:110-148 | what one turn of Shutdown's loop does in each state |
| `LifecycleRuns.Runner.BeginBootstrap` | lifecycle/runner.go:64-71 | only the first caller finds the runner new and starts it, as the transition system says |
| `LifecycleRuns.Runner.EndBootstrap` | lifecycle/runner.go:82-97 | running or stopped is published with the started prefix or the rollback's result, and waiters are released |
| `LifecycleRuns.Runner.EndShutdown` | lifecycle/runner.go:128-135 | the shared result is stored and waiters are released |

## Left out

- Redis, RabbitMQ, S3, OSS, MySQL, GORM and Ent adapters rest on servers and client libraries.
- HTTP, UDP, chi, gin, crontab, jsonrpc, hyperf/jet, otel, codec, hashing, encrypter and webhook packages are I/O plumbing or wrap the standard library.
- Option builders, context carriers, support, x and most of slices and strings would only add easy members.
- Liveness under a fair scheduler is stated as invariants, decreasing measures and absence of deadlock.
- Admission, Pool, Stream, IdempotencyExecutor and QueueRuns model their goroutines on values as transition systems; aliasing between Go pointers is represented by indices.
- ratelimit.Limiter's argument checks (nil context, empty key, cost outside one to burst) come before Store.Take and are not modelled; Take is modelled on the arguments it demands.
- slices.SortFunc is modelled by an insertion sort; the order is total on intervals, so the sorted list is the same.
- The tokens of idempotency claims are inputs; where a theorem needs them fresh it says so.
- DoValue's encoding and decoding of results, and the claim it leaves behind when encoding fails, are not modelled; results are bytes.
- Time arithmetic outside the rate limiter is unbounded, so the saturation of time.Duration and time.Time is not modelled.
- UTC normalisation and monotonic clock readings of time/period are not modelled; a time point is an integer.
- Callbacks for observation (WithOnResult, WithOnError, queue observers), logging, panics and stack traces do not affect the properties; handlers are taken to return.
- The text syslog prints for a single value is an arbitrary string of that value; levels and the writer are not modelled.
- The shutdown timeout of lifecycle and the settlement timeout of queue appear only as calls that may fail. After a failed shutdown call the contexts handed to the remaining leaves can differ between a nested and a flattened runner; the sequence of calls and the result do not.
- Runner.Run is Bootstrap, a handler and Shutdown in a row and is not modelled by itself.
- The retry predicate and the backoff of queue are oracles, since either may depend on more than the task; the retry package is not modelled.
- QueueRuns covers one named queue beside others that only signal, and handlers that leave the task's envelope alone.
- A queue worker's Run and Stop bookkeeping (start, finish, the error channel) is not modelled; a loop may stop whenever it is not processing.
