# Surfin, a model and its proofs

Surfin is a restartable batch engine in the manner of JSR-352. This project models the four parts in which a run has to
treat a stream of items correctly whatever fails on the way, and proves what they keep.

* **The chunk engine.** `ChunkStep.Execute` reads items, processes them, writes them a chunk at a time inside one
  transaction, and saves a checkpoint after each commit. Reads and processing are retried and skipped within budgets; a
  chunk whose write fails is retried as a whole or split into single items. `ChunkModel` is the engine as a state machine,
  one step for each call to the outside world, so that a crash can happen between any two calls and an execution can be
  started again any number of times. `ChunkSafety`, `ChunkFates`, `ChunkRestart`, `ChunkTermination`, `ChunkStatistics`,
  `ChunkRetry` and `ChunkRejected` prove what every run of that machine keeps; `ChunkStep` is the engine's own form, a class with its nested loops and early
  exits, proved to make exactly the machine's steps. `CursorReaders` holds the CSV and the SQL cursor reader,
  `ReaderRefinement` ties them to the engine's cursor, `BulkWriter` is the batched upsert, and `Upsert` the table under DO
  NOTHING and DO UPDATE.
* **Two concurrent pipelines.** `MetricRecorder` is the asynchronous metric recorder (locked counters, a bounded queue, one
  worker, shutdown) and `ParquetExport` the export tasklet (a reading goroutine, a bounded channel, a batching writer), both
  as atomic actions over arbitrary schedules; `ParquetWriter` is the partitioned buffer and its flush.
* **Flows.** `FlowDefinition` and `FlowCompiler` turn a declared flow into a core flow in two passes over a map, and
  `FlowRun` runs it.
* **Contexts and expressions.** `NestedContext` is the store behind dotted keys and the promotion of step values to the job;
  `Expressions` and `ExpressionIdempotence` are the scanner of hash-brace expressions.

`dafny verify dfyconfig.toml` checks everything.

## Reading the model

* What the outside world does (reader, processor, writer, transaction manager, repository, cancellation, uploads, decisions)
  is an answer chosen freely at each call: the `Answer` of a call, the action of a schedule, or a function of the number of
  the call. Whether a policy retries or skips an error is part of the answer.
* The repository hands out its own copy of the checkpoint map, an execution is started again under the same StepExecution
  ID, and finds no transaction left open by an earlier one. A Commit that fails ends its transaction and may or may not
  have taken effect.
* `maxAttempts` and `skipLimit` are natural numbers (a negative limit behaves like 0). The batch size of the bulk writer and
  the buffer size of the export are positive; the chunk size is any integer.
* The checkpointed reader is a cursor reader, and the writer hands back the map it was opened with, as the bulk writer does.
* Counts are unbounded integers: 64-bit wrap-around is not modelled.
* Listeners, metrics, tracing and logging have no effect on the engine.
* The rows on lost items, read order, completion and crashes are about runs in which every write retry has set the reader back
  to the first record of its chunk (`misplaced` is false); Findings says exactly when a retry does.

## Findings

Properties that one might expect and that do not hold, each with a counterexample or the exact condition under which it does:

* The architecture notes (docs/architecture/03_fault_tolerance_and_tx.md:18) say that a chunk whose write fails with a
  retryable error is rolled back and executed again as a whole. As coded the reader goes back to the first record of the chunk
  if and only if the step's own context holds that record's position (`ChunkRetry.RetryRereadsChunkIff`). For the first retry
  of an execution whose last settled chunk was committed as a whole, that is the case if and only if the reader's count without
  the items of the chunk is that position, which is to say if the execution rejected no record before the chunk
  (`FirstRetryRereadsChunkIff`). Before the first commit of a restarted execution it need not be, and then one transient error
  is enough to lose an item (`OneTransientErrorLosesAnItem`); and every further retry of an execution leaves the reader where
  its count points, so a chunk without malformed records is given up for good (`FurtherRetryGivesChunkUp`, `GivenUpForGood`,
  `TwoTransientErrorsLoseAnItem`). The claims on loss, order, completion and crashes hold for all runs whose write retries do
  go back; only the bounds on calls are for runs without write retry.
* A reader that met m records which it could not map resumes m records early: never past an item that was not delivered, but
  in place only if m is 0 (`CursorReaders.ResumeRoundTrip`, `RestartSql`). A CSV reader cannot be reopened at all if one of
  the records it has to skip cannot be parsed, so a step that has skipped such a record early can never be resumed
  (`RestartCsv` has the exact condition, `SomeRestartFailsIff` says of which streams this happens, `RestartFails` is a run).
* An execution can end with a transaction left open: exactly when it ends by a fatal read, or by a cancelled backoff in read
  or process (`ChunkSafety.LeftOpenIff`). Some run does, unless the chunk size is zero or less (`ChunkFates.OpenAtReturnIff`).
* The skip limits bound all executions of a step together as long as none of them crashes; every crash can bring a new budget,
  and no more than that (`ChunkStatistics.SkipLimitAcrossExecutions`). So a step that crashes can split any number of chunks
  under any limit but zero, and drop any number of items as well under a limit of two or more (`CrashesForgetSkips`,
  `SkipLimitHoldsIff`).
* Items written by splitting are counted on the StepExecution, and that count is overwritten at the end of the execution: the
  write count at return leaves them out (`ChunkStatistics.StatisticsOfExecution`).
* A record that cannot be mapped is consumed all the same, so a retry of the read delivers the next one: the record is passed
  over and no skip is counted. In an execution without a write retry each rejected record was skipped, passed over in this way,
  or fatal (`ChunkRejected.RejectedAccounting`), and a source of rejected records only can be completed with nothing read and no
  skip counted (`AllRejectedUncounted`).
* With a chunk size of zero or less an execution completes without reading anything (`ChunkFates.NoChunkSizeReadsNothing`).
* If the export's writer fails while the channel is full, the reader waits for ever. That is the only deadlock
  (`ParquetExport.Progress`), and it can happen exactly if the source has more than two buffers of rows
  (`DeadlockReachableIff`). Under cancellation an error can be given up unsent, and every export with rows can then complete
  without them (`CancelledExportCanLoseRows`); a completed export in which no error was given up is exact (`ExportExact`).
* Not every accepted metric event is delivered. The worker takes the length of the queue when it sees the stop signal: exactly
  the events accepted before that are delivered, and those accepted while it drains stay in the queue as do those accepted
  after it has exited (`MetricRecorder.DeliveredExactly`, `ExitedDelivered`, `NothingAfterExit`). For every event that is not
  counted there is a run that loses it in this way (`LostWhileDraining`).
* Whether a flow with a split is accepted depends on the order of a map iteration; a flow without one is never affected
  (`FlowCompiler.OrderMattersIff`, `SomeOrderWorks`).
* The exit status in a transition rule is ignored: all runs of a flow that end by its transitions take the same path and, if
  that ends in a rule, get the same final status (`FlowRun.SameEnding`). So a job that one run completes by a rule is completed
  by every undisturbed run, whichever of its steps fail (`CompletedDespiteFailure`). And a step that is already completed is
  executed again on a restart (`CompletedStepRunsAgain`).
* Promoting two values whose targets lead through one another depends on a map iteration
  (`NestedContext.PromotionOrderMatters`, `PutsCommuteIff`).
* Resolving an expression twice can differ from resolving it once, even if no value contains a special character: an empty
  value is enough (`ExpressionIdempotence.EmptyValueBreaks`). `IdempotentIff` gives the exact condition on the values.

## Model

| member | source | states |
|---|---|---|
| Upsert.UpsertAllConcat | pkg/batch/component/step/writer/sql_bulk_writer.go:114-130 | upserting a concatenation is upserting its parts one after the other, so cutting an upsert into batches changes nothing, under DO NOTHING and DO UPDATE |
| Upsert.ReplayAbsorbed | pkg/batch/engine/step/item/chunk_step.go:381-410 | rows applied before a replay from an earlier position leave no trace in the table, under DO NOTHING and DO UPDATE, if the table knows the keys replayed before them |
| Upsert.UpsertAllKeys | pkg/batch/component/step/writer/sql_bulk_writer.go:122-127 | after an upsert exactly the old keys and the upserted ones are in the table |
| Upsert.UpsertedRow | pkg/batch/component/step/writer/sql_bulk_writer.go:122-127 | the row under an upserted key is the table's or else the first one mentioned, under DO UPDATE with the updated column of the last one mentioned |
| BulkWriter.BatchCount | pkg/batch/component/step/writer/sql_bulk_writer.go:114-121 | there are as many batches as whole ones fit, and one more for a rest |
| BulkWriter.SqlBulkWriter.Write | pkg/batch/component/step/writer/sql_bulk_writer.go:103-134 | success exactly when no batch is refused, and then the table is that of one upsert of all items after one upsert a batch; after a refusal exactly some whole batches at the front have been applied and one more was tried; no transaction is an error unless there is nothing to write |
| CursorReaders.AtoiItoa | pkg/batch/component/step/reader/csv_cursor_reader.go:73-84 | a stored count is parsed back to itself |
| CursorReaders.AtoiAccepts | pkg/batch/component/step/reader/csv_cursor_reader.go:75-79 | exactly digits behind at most one sign are a count, with or without zeros in front |
| CursorReaders.AtoiSigned | pkg/batch/component/step/reader/csv_cursor_reader.go:75-79 | a sign makes a count negative or leaves it |
| CursorReaders.GetIntFinds | pkg/batch/core/domain/model/models.go:312-325 | an integer is found as it is and a float without its fraction, towards zero, and nothing else is a number |
| CursorReaders.ResumeRoundTrip | pkg/batch/component/step/reader/sql_cursor_reader.go:43-119 | for the positional reader that both readers refine: after p records of which m failed, the position of the saved count is p - m, never past an undelivered record, and the same if and only if m is 0 |
| CursorReaders.RestartCsv | pkg/batch/component/step/reader/csv_cursor_reader.go:66-127 | any number of reads, and a fresh reader opened on the saved context, through JSON or not: it opens if and only if none of the first p - m records is one that cannot be parsed, and then it stands at record p - m |
| CursorReaders.SomeRestartFailsIff | pkg/batch/component/step/reader/csv_cursor_reader.go:86-95 | a stream has a point from which its reader cannot be opened again if and only if a record that cannot be parsed is among its first d, where d of its records can be delivered |
| CursorReaders.RestartFails | pkg/batch/component/step/reader/csv_cursor_reader.go:86-95 | such a stream: after reading it a fresh reader does not open on the saved context |
| CursorReaders.RestartSql | pkg/batch/component/step/reader/sql_cursor_reader.go:43-119 | the same for the SQL reader, with iteration errors in between: it always stands at record p - m |
| CursorReaders.CsvCursorReader.Open | pkg/batch/component/step/reader/csv_cursor_reader.go:66-98 | a fresh reader opens at the saved count, or at the end if the stream is shorter; a count that cannot be parsed, or a bad record among the skipped ones, is an error |
| CursorReaders.CsvCursorReader.Read | pkg/batch/component/step/reader/csv_cursor_reader.go:109-127 | moves the position as the positional reader does and stores the count in the shared context only for a delivered item |
| CursorReaders.CsvEntryRestores | pkg/batch/component/step/reader/csv_cursor_reader.go:73-84 | the entry a CSV reader stores gives back its count, also after a round through JSON |
| CursorReaders.SqlCursorReader.Open | pkg/batch/component/step/reader/sql_cursor_reader.go:43-76 | the cursor opens behind as many rows as the saved count says, at the first row without one |
| CursorReaders.SqlCursorReader.Read | pkg/batch/component/step/reader/sql_cursor_reader.go:87-119 | moves the position as the positional reader does, end of data leaves it alone, and a reader that is not open fails |
| CursorReaders.SqlCursorReader.Close | pkg/batch/component/step/reader/sql_cursor_reader.go:122-132 | the cursor is gone unless closing it fails, which is harmless without one; the count and the context stay |
| CursorReaders.SqlCursorReader.SetExecutionContext | pkg/batch/component/step/reader/sql_cursor_reader.go:154-164 | the count follows the new context, 0 without an entry, and the cursor does not move |
| CursorReaders.SqlEntryRestores | pkg/batch/component/step/reader/sql_cursor_reader.go:48-53 | the entry a SQL reader stores gives back its count, also after a round through JSON |
| ReaderRefinement.EngineReadsPositionally | pkg/batch/engine/step/item/chunk_step.go:482-533 | a read of the engine moves its cursor exactly as the readers move, and not at all if the source was not reached |
| ReaderRefinement.EngineResumesPositionally | pkg/batch/engine/step/item/chunk_step.go:387-404 | a restarted engine stands where a reader opened with the saved count stands |
| ChunkSafety.TransactionDiscipline | pkg/batch/engine/step/item/chunk_step.go:455-745 | in every run, with write retry, splitting and crashes: never two open transactions, no write or commit outside one, and none with a write left open before the next one or at return |
| ChunkSafety.LeftOpenIff | pkg/batch/engine/step/item/chunk_step.go:498-521 | an execution leaves its transaction open exactly if it ends by a fatal read or by a cancelled backoff in read or process, and the finalization does not touch it |
| ChunkSafety.CommitsWholeChunks | pkg/batch/engine/step/item/chunk_step.go:634-745 | in every run one move of the system commits nothing, the whole chunk in progress, or one split item |
| ChunkSafety.SkipBudgets | pkg/batch/engine/step/item/chunk_step.go:507-514 | in every run each skip count stays within the limit, and the write skips of an execution are its splits plus its dropped items, so these together stay within it too |
| ChunkStatistics.StatisticsOfExecution | pkg/batch/engine/step/item/chunk_step.go:792-794 | in every run each statistic of an execution is the one it began with and the number of calls of its kind since then, told from answers and from what the engine does next: items read, written, filtered and written by splitting, commits, rollbacks, skips of reads, of process calls and of writes; at return the loop's counts are on the StepExecution, in place of the items written by splitting |
| ChunkStatistics.BeginsAtCheckpoint | pkg/batch/engine/step/item/chunk_step.go:387-404 | an execution begins with the read and write counts and at the record of the checkpoint saved last, without one at the first record, and with the other statistics and the context of the StepExecution |
| ChunkStatistics.CrashKeepsStored | pkg/batch/engine/step/item/chunk_step.go:377-386 | a crash leaves the statistics and the context that were stored last, at the start of an execution or by an update at its end |
| ChunkStatistics.CrashAtHeadCostsNothing | pkg/batch/engine/step/item/chunk_step.go:743-776 | after a chunk that was committed as a whole the checkpoint is up to date: an execution that crashes at the head of the next chunk, without a write retry before, is followed by one that begins with its read and write counts at the count of its reader's entry |
| ChunkStatistics.SkipLimitAcrossExecutions | pkg/batch/engine/step/item/chunk_step.go:564-571 | over all executions of a step, failed and started again, the skipped reads, the skipped process calls, and the splits and drops of writing are each exactly the count on the StepExecution and within the limit as long as there is no crash; with n crashes each is at most n + 1 times the limit |
| ChunkStatistics.GivesUpIff | pkg/batch/engine/step/item/chunk_step.go:491-521 | in runs without a crash a failing read, process call or write ends the execution exactly if the wait before its retry is cancelled, or no attempt is left and the error cannot be skipped or the skips counted in the run are as many as the limit |
| ChunkStatistics.RetriedInPlace | pkg/batch/engine/step/item/chunk_step.go:484-505 | an item whose read or process call keeps failing is tried once and as often again as the policy allows, and until then nothing but the number of attempts changes |
| ChunkStatistics.CompletesIff | pkg/batch/engine/step/item/chunk_step.go:778-815 | an execution is over without an error exactly if a chunk short of the chunk size has been saved, or the source ended before anything was delivered for a chunk, or the chunk size leaves no room; it is completed unless the finalization fails |
| ChunkStatistics.CrashesForgetSkips | pkg/batch/engine/step/item/chunk_step.go:984-1016 | for every step whose first chunk can come to its write and every limit but zero, and for every n, there is a run in which n chunks are split and, under a limit of two or more, n items are dropped |
| ChunkStatistics.SkipLimitHoldsIff | pkg/batch/engine/step/item/chunk_step.go:676-698 | so the limit is one of all runs of such a step, crashes included, if and only if it is zero |
| ChunkSafety.CompletedAccounting | pkg/batch/engine/step/item/chunk_step.go:792-794 | a completed execution has read as many items as it wrote, wrote by splitting, filtered, dropped, or gave up in write retries |
| ChunkFates.NoItemLost | pkg/batch/engine/step/item/chunk_step.go:904-945 | in every run whose write retries went back to the first record of their chunk the saved position is at most the number of settled records, however many crashes, failures, retries and split chunks there were, and each settled record met a fate that its content allows |
| ChunkRestart.EverySavedRecordSettled | pkg/batch/engine/step/item/chunk_step.go:772-776 | in those runs, for each record before the saved position there was a moment at which it was settled with a fate that its content allows; if it was written its row is in the committed store |
| ChunkFates.CommittedInReadOrder | pkg/batch/engine/step/item/chunk_step.go:962-1016 | in those runs at every moment, in the middle of splitting and after a failure too, an execution has committed exactly the processed forms of its written records, in read order |
| ChunkFates.CompletedSettlesAll | pkg/batch/engine/step/item/chunk_step.go:778-786 | a completed execution has read to the end and settled every record from its start on |
| ChunkFates.CleanCompletion | pkg/batch/engine/step/item/chunk_step.go:427-786 | without skips and drops a completed execution has committed the processed form of every item from its start on, once and in order |
| ChunkFates.OpenAtReturnIff | pkg/batch/engine/step/item/chunk_step.go:498-521 | some run of a step returns with a transaction open if and only if the chunk size is positive |
| ChunkFates.NoChunkSizeReadsNothing | pkg/batch/engine/step/item/chunk_step.go:472 | with a chunk size of zero or less no execution of any run reads, commits or saves anything, and it completes once its transaction can be begun |
| ChunkRestart.CrashEquivalence | pkg/batch/engine/step/item/chunk_step.go:381-410 | after any number of crashes, failures and restarts, also between a commit and its checkpoint, the table of a completed run is that of one uninterrupted execution in which the records meet the same fates, under DO NOTHING and DO UPDATE |
| ChunkRestart.CleanCrashEquivalence | pkg/batch/engine/step/item/chunk_step.go:731-776 | without skips and drops that table is the initial one with the processed form of every item upserted once in read order, with no assumption on another run |
| ChunkTermination.StepLowersRank | pkg/batch/engine/step/item/chunk_step.go:427-632 | every call of a running execution that is not a write retry lowers a measure of items left, skips left and attempts left |
| ChunkTermination.ExecutionTerminates | pkg/batch/engine/step/item/chunk_step.go:427-868 | if the writer never answers with a retryable error, an execution is done after at most as many calls as its measure says |
| ChunkTermination.CallBounds | pkg/batch/engine/step/item/chunk_step.go:477-593 | in a run without write retry an execution on n records makes at most (n + skipLimit + 2)(maxAttempts + 1) calls to Read and n(maxAttempts + 1) calls to Process |
| ChunkRetry.RetryRereadsChunkIff | pkg/batch/engine/step/item/chunk_step.go:650-673 | the records of a chunk, its queued ones among them, reach from its first record to the reader, and a write retry goes back to that first record if and only if the step's context holds its position, in every state in which no earlier retry of the same execution has led the reader astray, whatever earlier executions did; otherwise the run is outside the claims on loss from then on |
| ChunkRetry.FirstRetryIsNotAstray | pkg/batch/engine/step/item/chunk_step.go:660-663 | so this covers the first retry of every execution |
| ChunkRetry.FirstRetryRereadsChunkIff | pkg/batch/engine/step/item/chunk_step.go:650-673 | the first retry of an execution whose last settled chunk was committed as a whole goes back to the first record of its chunk if and only if the reader's count less the items of the chunk is that record's position |
| ChunkRetry.FurtherRetryGivesChunkUp | pkg/batch/engine/step/item/chunk_step.go:660-672 | every further write retry of an execution sets the reader to the record its count names, which is behind the chunk exactly if no record was malformed; the queued items are dropped and nothing is committed |
| ChunkRetry.GivenUpForGood | pkg/batch/engine/step/item/chunk_step.go:660-672 | from then on the execution reads no record before that one |
| ChunkRetry.TwoTransientErrorsLoseAnItem | pkg/batch/engine/step/item/chunk_step.go:650-673 | there is a run with two transient write errors that is completed with an item neither written nor skipped |
| ChunkRetry.OneTransientErrorLosesAnItem | pkg/batch/engine/step/item/chunk_step.go:904-945 | there is a run with two crashes and one transient write error, in a restarted execution before its first commit, that is completed without the second item: the checkpoint saved after the retry is the stale one |
| ChunkRejected.RejectedAccounting | pkg/batch/engine/step/item/chunk_step.go:484-521 | in every run, each record that the mapper rejected in an execution without write retry was skipped, was passed over by a retry of the read, or ended the execution, and the growth of the read-skip count is the skipped ones and the skips of reads that consumed nothing |
| ChunkRejected.AllRejectedUncounted | pkg/batch/engine/step/item/chunk_step.go:491-505 | a step with no more records than read retries, all of them rejected, has a run that completes with every record settled as rejected, nothing committed and all counts zero |
| ChunkSteps.ChunkStep.LoadCheckpoint | pkg/batch/engine/step/item/chunk_step.go:381-418 | brings all fields to the start state of the machine |
| ChunkSteps.ChunkStep.ReadItem | pkg/batch/engine/step/item/chunk_step.go:475-534 | the read retry loop takes the machine from reading to processing, to the next item, to the end of the source or to a fatal end, call by call |
| ChunkSteps.ChunkStep.ProcessItem | pkg/batch/engine/step/item/chunk_step.go:537-600 | the process retry loop takes the machine over one item, call by call |
| ChunkSteps.ChunkStep.FillChunk | pkg/batch/engine/step/item/chunk_step.go:472-632 | the read and process loop takes the machine to writing, to committing or out of the loop |
| ChunkSteps.ChunkStep.WriteChunk | pkg/batch/engine/step/item/chunk_step.go:634-718 | one write takes the machine to committing, to the retry, to splitting or to a fatal end |
| ChunkSteps.ChunkStep.CommitChunk | pkg/batch/engine/step/item/chunk_step.go:731-763 | the commit takes the machine to saving or out of the loop, and brings the step's context up to date |
| ChunkSteps.ChunkStep.SaveCheckpoint | pkg/batch/engine/step/item/chunk_step.go:772-783 | the checkpoint takes the machine to the next chunk, or out of the loop on an error, which may have been stored all the same, or at the end of the source |
| ChunkSteps.ChunkStep.HandleSkippableWriteFailure | pkg/batch/engine/step/item/chunk_step.go:962-1016 | the splitting loop takes the machine through one transaction an item, to the next chunk or to a fatal end |
| ChunkSteps.ChunkStep.RunChunk | pkg/batch/engine/step/item/chunk_step.go:426-786 | one turn of the chunk loop is a sequence of steps of the machine, and lowers its measure unless the write was retried |
| ChunkSteps.ChunkStep.FinishExecution | pkg/batch/engine/step/item/chunk_step.go:789-868 | the finalization takes the machine to its end, with the failure it reports |
| ChunkSteps.ChunkStep.Execute | pkg/batch/engine/step/item/chunk_step.go:358-868 | the whole execution ends in the state that the machine reaches after the same calls, it does end if the writer retries only finitely often, and a completed one whose write retries went back has settled every record from its start and appended exactly the processed forms of the written ones |
| MetricRecorder.MetricConservation | pkg/batch/listener/metrics/async_recorder.go:152-182 | in every interleaving what was recorded of a counted kind is delivered, in the worker's hand, in the queue, in the counter or dropped, and every dropped event left exactly one error of its kind |
| MetricRecorder.MetricShutdown | pkg/batch/listener/metrics/async_recorder.go:87-163 | in every interleaving delivered, in hand and queued events are the accepted ones in order, the queue respects its bound, the drain loop never blocks, and when Close returns every event accepted before the stop signal has been delivered once |
| MetricRecorder.DroppedIffFull | pkg/batch/listener/metrics/async_recorder.go:152-163 | in every reachable state a sent event is dropped, with one error of its kind, if and only if the queue holds as many events as its size, and otherwise becomes the last one of the queue |
| MetricRecorder.NothingDroppedIff | pkg/batch/listener/metrics/async_recorder.go:152-163 | a schedule drops no event if and only if it never sends into a full queue |
| MetricRecorder.DeliveredExactly | pkg/batch/listener/metrics/async_recorder.go:94-104 | in every schedule in which the worker has seen the stop signal and exited, exactly the events accepted before it saw the signal have been delivered, and those accepted since then, while it drained or later, are what is left in the queue |
| MetricRecorder.ExitedDelivered | pkg/batch/listener/metrics/async_recorder.go:94-104 | a worker that has exited has seen the stop signal at some moment, and has delivered the events accepted up to then and no others |
| MetricRecorder.LostWhileDraining | pkg/batch/listener/metrics/async_recorder.go:96-103 | for every event that is not counted there is a run in which it is accepted and Close returns without its being delivered |
| MetricRecorder.NothingAfterExit | pkg/batch/listener/metrics/async_recorder.go:94-104 | after the worker has exited nothing is delivered any more, whatever is recorded, and what is queued stays |
| MetricRecorder.AsyncMetricRecorder.constructor | pkg/batch/listener/metrics/async_recorder.go:73-90 | the recorder is the initial state of the machine, with a buffer of 100 if the requested size is not positive |
| MetricRecorder.AsyncMetricRecorder.Send | pkg/batch/listener/metrics/async_recorder.go:152-164 | sending in place is one send of the machine: queued if there is room, otherwise lost with one error, so conservation and order hold of it |
| MetricRecorder.AsyncMetricRecorder.FlushCounters | pkg/batch/listener/metrics/async_recorder.go:174-183 | in any map order the flush is a schedule of flush actions of the machine, and leaves no counter positive and the others as they were |
| MetricRecorder.AsyncMetricRecorder.RecordStepEnd | pkg/batch/listener/metrics/async_recorder.go:201-205 | flush actions of the machine and then one send of the step's event, behind which no positive count is left |
| MetricRecorder.AsyncMetricRecorder.Drain | pkg/batch/listener/metrics/async_recorder.go:96-103 | without interference the drain is a schedule of drain actions of the machine that delivers the queued events in order and exits; sends during the drain are schedules of the machine |
| ParquetWriters.ParquetWriter.Write | pkg/batch/component/step/writer/parquet_writer.go:186-208 | every item goes to the end of its partition's buffer up to the first item without a key, which is an error and leaves the ones before it buffered |
| ParquetWriters.ParquetWriter.Flush | pkg/batch/component/step/writer/parquet_writer.go:216-280 | in any map order each partition gains one file of its buffered rows if its upload succeeds and none otherwise, success exactly when all uploads do, the buffer is empty in any case, and file numbers of a partition keep rising |
| ParquetWriters.UploadNumbered | pkg/batch/component/step/writer/parquet_writer.go:283-299 | numbers of a partition's files rise strictly and stay below its sequence |
| ParquetWriters.FlushDelivers | pkg/batch/component/step/writer/parquet_writer.go:239-277 | a write and a flush append to an uploaded partition exactly the rows with its key, in order |
| ParquetExport.ExportExact | pkg/batch/component/tasklet/generic/parquet_export_tasklet.go:552-698 | in every schedule in which no error was given up unsent, cancelled or not, a completed export has uploaded for each key exactly the source rows with that key in read order, every row has a key, and it completes if and only if neither goroutine failed; without cancellation no error is given up |
| ParquetExport.MemoryBound | pkg/batch/component/tasklet/generic/parquet_export_tasklet.go:552-682 | in every reachable state at most 2B + 1 distinct rows are held, and the buffer holds no others |
| ParquetExport.Progress | pkg/batch/component/tasklet/generic/parquet_export_tasklet.go:584-682 | a reachable state that has not returned cannot move if and only if the writer has failed, the channel is full, the reader is sending and the context is not cancelled |
| ParquetExport.ExportTerminates | pkg/batch/component/tasklet/generic/parquet_export_tasklet.go:552-682 | no schedule has more than 8 actions a row and 2 more |
| ParquetExport.EarlyWriterErrorHangs | pkg/batch/component/tasklet/generic/parquet_export_tasklet.go:608-621 | after a writer error with more than a channel's worth of rows to come the export never returns, unless a read fails as well |
| ParquetExport.DeadlockReachableIff | pkg/batch/component/tasklet/generic/parquet_export_tasklet.go:584-620 | some schedule deadlocks if and only if the source has more than two buffers of rows |
| ParquetExport.CancelledSendFails | pkg/batch/component/tasklet/generic/parquet_export_tasklet.go:584-597 | a reader that a cancellation stops in the middle of sending reports it, so that export never completes |
| ParquetExport.CancelledExportCanLoseRows | pkg/batch/component/tasklet/generic/parquet_export_tasklet.go:570-581 | every export with rows of some key can, when it is cancelled, complete without having uploaded exactly these rows |
| FlowDefinitions.FlowDefinition.AddElement | pkg/batch/core/domain/model/models.go:875-881 | an element is added exactly if its ID is new, and no other changes |
| FlowDefinitions.FlowDefinition.AddTransitionRule | pkg/batch/core/domain/model/models.go:884-889 | the rule goes to the end of the element's rules without its status, and no other element's rules change |
| FlowCompiler.ValidateTransition | pkg/batch/core/config/jsl/step_adapter.go:822-854 | a rule is valid exactly if it has a status, exactly one of to, end, fail and stop, and an existing target |
| FlowCompiler.BuildElement | pkg/batch/core/config/jsl/step_adapter.go:169-520 | an element is built exactly if its ID is its key and its parts are sound; a split moreover only if all its steps have been built before it as plain steps |
| FlowCompiler.FirstPass | pkg/batch/core/config/jsl/step_adapter.go:154-521 | succeeds exactly if every element can be built and no split is visited before one of its steps |
| FlowCompiler.FinishElement | pkg/batch/core/config/jsl/step_adapter.go:524-731 | succeeds exactly if all rules are valid and a partition's worker can be built, and then has added the element with all its rules |
| FlowCompiler.Convert | pkg/batch/core/config/jsl/step_adapter.go:128-734 | accepts exactly the well-formed flows whose splits come late enough in the map order, and yields exactly the declared elements and rules |
| FlowCompiler.WellFormedIff | pkg/batch/core/config/jsl/step_adapter.go:128-734 | a flow can be accepted if and only if its start exists and every element is of a known kind, under its own ID and built, with rules that each say exactly one thing and have an existing target; steps work themselves or through one worker that does, decisions have rules, and splits are not empty and consist of steps without workers |
| FlowCompiler.CompiledAsDeclared | pkg/batch/core/config/jsl/step_adapter.go:524-731 | every element of an accepted flow is the declared one of the same kind, a split with the declared steps in order, and its rules are the declared ones in order, field by field |
| FlowCompiler.CompiledIsSafe | pkg/batch/core/config/jsl/step_adapter.go:150-152 | in an accepted flow the start exists, every element lies under its own ID, and every rule has exactly one of to, end, fail and stop with an existing target |
| FlowCompiler.SplitStepsExist | pkg/batch/core/config/jsl/step_adapter.go:487-507 | the steps of an accepted split are plain steps of the flow |
| FlowCompiler.OrderMattersIff | pkg/batch/core/config/jsl/step_adapter.go:486-505 | a well-formed flow is accepted in every map order if and only if it has no split |
| FlowCompiler.SomeOrderWorks | pkg/batch/core/config/jsl/step_adapter.go:156-521 | there is a map order in which a well-formed flow is accepted |
| FlowRun.CompiledFlowRunsSafely | pkg/batch/core/job/runner/flow_job.go:143-424 | every run of an accepted flow from its start finds every element it looks up, ends only by a rule that says one thing, and ends with the final status and an end time |
| FlowRun.LookupsSucceed | pkg/batch/core/job/runner/flow_job.go:154-162 | the same lookups for a run of a safe flow that starts at any of its elements |
| FlowRun.EveryReturnIsFinal | pkg/batch/core/job/runner/flow_job.go:387-424 | every return of every flow leaves an end time and the status that its way of ending demands, and no other |
| FlowRun.PathDeterminism | pkg/batch/core/job/runner/flow_job.go:387-424 | two runs from the same element visit sequences one of which is a prefix of the other, whatever statuses, errors and cancellations occur |
| FlowRun.NoElementTwice | pkg/batch/core/job/runner/flow_job.go:143-424 | a run that ends by its transitions visits no element twice |
| FlowRun.RunEndsIff | pkg/batch/core/job/runner/flow_job.go:143-424 | an undisturbed run of a safe flow ends if and only if it has ended after as many turns as there are elements |
| FlowRun.TurnByFirstRule | pkg/batch/core/job/runner/flow_job.go:143-424 | a turn ends by cancellation, a missing element or a failed save, in this order, and otherwise the first rule in the element's list completes, fails or stops the job or leads to its target, and without a rule the element's own error decides |
| FlowRun.FurtherRulesIdle | pkg/batch/core/domain/model/models.go:892-899 | rules behind the first one of an element never matter: every run of a flow is, state by state, the run without them |
| FlowRun.RunsAsDeclared | pkg/batch/core/job/runner/flow_job.go:387-424 | at every undisturbed turn of every run of an accepted flow the first rule declared for the element completes, fails or stops the job as it says, or leads to the target it names |
| FlowRun.BeginsAt | pkg/batch/core/job/runner/flow_job.go:133-141 | a run begins at the current step of a job that is restarted or resumed, and at the flow's start otherwise |
| FlowRun.TurnFailures | pkg/batch/core/job/runner/flow_job.go:262-424 | a turn lists exactly the interruption, or the step's or decision's error and what a failing end adds, and marks a job that goes on by that error alone |
| FlowRun.EndingIsLastRule | pkg/batch/core/job/runner/flow_job.go:387-424 | a run that ends by its transitions ends by the first rule of the element visited last or, without one, by that element's own error |
| FlowRun.SameEnding | pkg/batch/core/domain/model/models.go:892-899 | two runs from the same element that end by their transitions visit the same elements; if one ends by a rule both end by it with the same status, whatever statuses and errors occurred, and otherwise the last element's error alone decides |
| FlowRun.CompletedDespiteFailure | pkg/batch/core/domain/model/models.go:892-899 | if some run completes the job by an end rule, every undisturbed run completes it by that rule on the same elements, although each failing step or decision is on the list of failures |
| FlowRun.HistoryKept | pkg/batch/core/domain/model/models.go:780-788 | from any moment of a run to any later one failures are only added and never twice, and completed step executions stay as they are |
| FlowRun.StepExecutionsAfter | pkg/batch/core/job/runner/flow_job.go:179-235 | running a step runs its first open execution, or a new one if it has none, and changes no other; one that could not be saved stays as it was |
| FlowRun.CompletedStepRunsAgain | pkg/batch/core/job/runner/flow_job.go:133-229 | every run of a restarted job whose current step has only completed executions executes that step once more as a new execution, which stays in the history with the completed ones: the branch that would skip it is never taken |
| FlowRun.FindExecution | pkg/batch/core/job/runner/flow_job.go:185-192 | the first execution of the step that is not completed, if there is one |
| FlowRun.JobExecution.AddFailureException | pkg/batch/core/domain/model/models.go:780-788 | a message is added to the failures unless it is there |
| FlowRun.JobExecution.MarkAsFailed | pkg/batch/core/domain/model/models.go:752-759 | status, exit status and end time are set and the failure is listed once |
| FlowRun.JobExecution.ExecuteStep | pkg/batch/core/job/runner/flow_job.go:179-235 | the step's open execution is found or made, saved when it is new, and run, with the effect of the value function on the whole job |
| FlowRun.JoinErrors | pkg/batch/core/job/runner/flow_job.go:360-375 | a split has an error exactly if one of its steps has, and it joins them all in order |
| FlowRun.JoinedLines | pkg/batch/core/job/runner/flow_job.go:360-375 | the messages of a split's errors are joined a line each |
| FlowRun.TakeTurn | pkg/batch/core/job/runner/flow_job.go:143-424 | one iteration of the loop in place does what a turn does on values |
| FlowRun.RunFlow | pkg/batch/core/job/runner/flow_job.go:98-428 | the loop returns in the state that the turns reach, with a final status, an end time and its history kept, and with an error exactly if it was cancelled, an element was missing or a step could not be saved |
| NestedContext.JoinSplit | pkg/batch/core/domain/model/models.go:238 | joining the parts of a dotted key gives it back, so different keys are different paths |
| NestedContext.GetAfterPut | pkg/batch/core/domain/model/models.go:232-288 | get after put returns the value, or the flat entry if the dotted key itself is an entry |
| NestedContext.PutFrame | pkg/batch/core/domain/model/models.go:232-288 | a put changes no key whose path is not a prefix or an extension of its own |
| NestedContext.PathsCommuteIff | pkg/batch/core/domain/model/models.go:238-257 | two puts of plain values on different paths commute if and only if neither path leads through the other |
| NestedContext.PutsCommuteIff | pkg/batch/core/domain/model/models.go:232-258 | the same for dotted keys, which are different exactly if their paths are |
| NestedContext.PromotedValues | pkg/batch/core/job/runner/flow_job.go:238-253 | with prefix-free targets every promoted key reads back the step's value unless a flat entry shadows it, and a missing value changes nothing |
| NestedContext.PromotedKeys | pkg/batch/core/job/runner/flow_job.go:238-253 | of a promotion none of whose targets leads through another, every promoted key and every renamed key reads back the step's value under its target, in every map order, unless a flat entry shadows it or the step has no value |
| NestedContext.PromoteFrame | pkg/batch/core/job/runner/flow_job.go:238-253 | a promotion changes no key whose path is unrelated to all targets |
| NestedContext.PromoteAnyOrder | pkg/batch/core/job/runner/flow_job.go:247-253 | prefix-free promotions give the same context in every order |
| NestedContext.PromotionOrderIrrelevant | pkg/batch/core/job/runner/flow_job.go:238-253 | so the order in which the map of renamed keys is visited is irrelevant |
| NestedContext.PromotionOrderMatters | pkg/batch/core/job/runner/flow_job.go:247-253 | where one target leads through another the map order decides what is promoted |
| NestedContext.ExecutionContext.PutNested | pkg/batch/core/domain/model/models.go:232-258 | the update in place of a tree of contexts has the value of the put, and keeps it a tree |
| NestedContext.ExecutionContext.GetNested | pkg/batch/core/domain/model/models.go:261-288 | the walk down the contexts finds what get finds on their value |
| Expressions.TokenEndIsShortest | pkg/batch/core/support/expression/resolver.go:25 | a token is the shortest match of the pattern at its place, and there is none only if the pattern does not match there at all |
| Expressions.ResolveLeftmost | pkg/batch/core/support/expression/resolver.go:35-64 | resolving replaces the leftmost shortest match by its value as it stands and goes on behind it, so nothing inside a value is resolved |
| Expressions.ParameterReplaced | pkg/batch/core/support/expression/resolver.go:70-83 | a reference to a job parameter, with blanks around it or not and with any text around it, is replaced with the parameter's value, and stays if there is none; the text before it stays and the text behind it is resolved by itself |
| Expressions.ContextEntryReplaced | pkg/batch/core/support/expression/resolver.go:86-99 | the same for a reference to an entry of the job's context |
| Expressions.OtherStays | pkg/batch/core/support/expression/resolver.go:55-64 | any other expression leaves its token as it is |
| Expressions.ResolveWithoutToken | pkg/batch/core/support/expression/resolver.go:29-32 | a string without a match is returned as it is |
| Expressions.NoJobNoChange | pkg/batch/core/support/expression/resolver.go:39-43 | without a job execution tokens and the text between them reassemble the string |
| ExpressionIdempotence.IdempotentIff | pkg/batch/core/support/expression/resolver.go:28-67 | resolving twice is resolving once on every string if and only if every value that can be substituted is calm: with or without a hash in front it resolves to itself and ends in no unfinished token |
| ExpressionIdempotence.PlainValuesIdempotent | pkg/batch/core/support/expression/resolver.go:28-67 | it is so when no value is empty, contains a hash or starts with a brace |
| ExpressionIdempotence.EmptyValueBreaks | pkg/batch/core/support/expression/resolver.go:28-67 | one empty job parameter is enough for a string that resolves differently the second time |
| ExpressionIdempotence.DeadByShape | pkg/batch/core/support/expression/resolver.go:70-99 | a token whose inside starts with a closing brace, or ends with an opening one, is never resolved |

## Left out

- ChunkStep.Close and its checkpoint outside the loop (chunk_step.go:879-888) are not part of the model.
- The early returns of ChunkStep.Execute before the loop (status update, loading the checkpoint, opening reader and writer, lines 377-410) leave the step as it was; a connection that cannot be resolved is a transaction that cannot be begun.
- In a write retry the reopening of the reader is assumed to succeed, and the reader to be one whose source can be opened again: a CSV reader on a half-read stream skips records of the rest of it.
- Failing GetExecutionContext calls in saving a checkpoint are failures of the save.
- ChunkTermination.ExecutionTerminates: assumes that the writer answers with no retryable error, because write retries have no bound as coded.
- ChunkRestart.CrashEquivalence: assumes that a record meets the same fate whenever it is settled; a transient error that skips it in one run and not in another changes the table in the code as well.
- CursorReaders.AtoiItoa: range errors of 64-bit integers are not modelled.
- ReaderRefinement.EngineResumesPositionally: a CSV reader that cannot be reopened makes Execute return before the loop, which is left out.
- CursorReaders.RestartSql: the query that reopens the cursor is assumed to succeed; a failing one is in Open.
- CursorReaders.CsvCursorReader.Open: a second Open on the same half-read stream is covered only as a move of the stream's position.
- MetricRecorder: the payload of events other than kind and count, and a second Close, which panics.
- Parquet encoding, file contents and names other than the sequence number, compression, and the partition key function, which is an attribute of the row.
- ParquetExport: the reader is opened once before the goroutines start, and closing connections afterwards is left out.
- FlowCompiler: component lookups, property resolution and builders are a flag that says whether they all succeed; YAML decoding is left out.
- FlowRun: listeners, tracing and the repository are left out except for saving a step execution.
- FlowRun.JobExecution.ExecuteStep: promotion (flow_job.go:237-259) is modelled apart in NestedContext, because no status depends on it.
- FlowRun.TakeTurn: the step executions made by a split are not tracked, because its goroutines append to the list without a lock.
- FlowRun.RunFlow: is about runs that return; a cyclic flow that is never cancelled runs for ever, and RunEndsIff says exactly when.
- NestedContext.ExecutionContext.PutNested: stores plain values; storing a context, which is then shared and no longer a tree, is modelled on values only, so aliasing between a step's and a job's context is not captured.
- NestedContext.ExecutionContext.PutPath: the loop down the path is written as a tail call.
- Expressions: stepExecution references, which the code never resolves, and the formatting of values.
- Launcher, operator, repositories, policies, adapters, configuration merging, parameter incrementers and status transition tables: wiring, or finite facts that would only add easy members.
