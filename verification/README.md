# Verification of the research monitor backend

A Dafny model of the stateful and text-processing cores of the backend, with proofs of what they promise
over every input and every run. `dafny verify dfyconfig.toml` checks the whole project.

The model has four parts, each a group of modules; `Common` holds the option type and the clock readings.

**Download registry** (`DownloadTypes`, `DownloadProtocol`, `DownloadSafety`, `DownloadGuarantees`,
`DownloadRecords`, `DownloadJob`, `DownloadRegistry`, `DownloadStream`). Each critical section under a job's mutex and each
turn of an SSE handler is one atomic step; a run is any interleaving of one worker, any number of
subscribers and handlers, and disconnects. `JobRecord`, `Channel` and `Registry` are the objects the
program updates in place, the aliasing compaction of the subscriber slice included; their methods are
proved equal to the protocol's steps, `RunJob` to the worker's run among any steps of others, and the
registry's reads to the registry machine's. A channel has `!closed` as the precondition of sending and
closing, so the proofs also exclude the panics.

**Extraction queue** (`ExtractionTable`, `ExtractionVerdict`, `ExtractionQueue`, `ExtractionSafety`,
`ExtractionGuarantees`, `ExtractionRepository`, `ExtractionWorker`). The status machine behind guarded
updates, the lossy wake channel, the worker's peek, expire-or-claim, process loop, resubmission at any
moment, storage faults, crashes and start-up are interleaved steps over one table. `Repository` and the
drain loop are the imperative form; `Drain` is proved to be a run of the queue.

**Normalization** (`Text`, `LineRules`, `LineMeaning`, `Normalize`, `NormalizeMeaning`, `MathLaws`,
`NormalizeLaws`, `NormalizeOutputs`, `NormalizeNotIdempotent`). The five stages, the line-skipping scanner and
the title search; what each stage does to a text by positions and pieces of it, when a text is a fixed point,
what every output satisfies, and that words never increase.

**Supporting cores.** The PDF cache under concurrent `Ensure` calls (`PdfStore`, `PdfStoreSafety`,
`PdfLocalStore`), the fetch that saves and schedules new papers (`ArxivFetch`, `ArxivFetchSafety`,
`ArxivUseCase`), the byte cap on failure descriptions (`ErrFields`, with the encoding table of RFC 3629,
section 3) and the id split (`AbsID`).

## Where the code and its descriptions differ

The model follows the code in each case.

- Normalizing is not idempotent, although `internal/domain/extraction/normalize_test.go:297-313` checks
  one text for which it is. `NormalizeNotIdempotent` has two texts that change again;
  `NormalizeOutputs.OutputClean` says exactly which outputs do not.
- A drain that ends by a failed peek does not re-check the table, against the note at
  `internal/bootstrap/app.go:163` (`PeekFaultStrands`). A row is left unattended exactly when the last step
  was such a peek with no signal left; the next submission or start-up mends it (`NoLostWakeUp`).
- A request that falls between a peek and its claim is not extracted: its row becomes done with the earlier
  request's artifact (`StaleArtifact`); `DoneProvenance` says exactly when the two differ.
- An overwrite is said to get a full expiry window (`internal/infrastructure/persistence/extraction/repo.go:33`).
  A request that falls between a peek and its expiry fails at once as expired (`StaleExpiry`);
  `ExpiredOwnRequest` says exactly when an expired row's own request was out of time.
- `sanitize` is documented as a cap of 256 characters; it caps bytes.
- The handler's comment names registry shutdown as a cause of the error frame; no code closes the channels
  then, and the error frame appears only after a drop (`StreamOutcome`).
- A key whose source type is a lone dot passes validation. Its file name may then be another key's
  directory, and a locator can name that directory (`LocatorsAreGood`, `DirectoryServed`).
- A call whose save fails part-way, or whose batch the scheduler refuses, leaves the rows it saved, and no
  later call schedules them (`FailedSaveStrands`).

## Model

| member | source | states |
|---|---|---|
| `DownloadGuarantees.HandOff` | internal/application/pdfdownload/service.go:193-224 | In every interleaving, backlog then received then buffered events are a gap-free, repetition-free prefix of the job's log; they are the whole log while registered, and the final log ending in the Summary exactly for subscribers never dropped |
| `DownloadGuarantees.DroppedIffMissing` | internal/application/pdfdownload/worker.go:100-121 | A subscriber lacks events of the log if and only if some step found its channel full |
| `DownloadGuarantees.DropStep` | internal/application/pdfdownload/worker.go:106-114 | The step at which a subscriber starts missing events is the one that drops it, with exactly SubscriberBuffer unread events, and its channel is closed by it |
| `DownloadGuarantees.DropBound` | internal/application/pdfdownload/service.go:152-154 | A subscriber with a backlog of k events is never dropped when the buffer holds at least Total + 1 - k; a dropped one was given at least k plus the buffer |
| `DownloadGuarantees.DropBoundIsTight` | internal/application/pdfdownload/worker.go:100-114 | Of a finished job, every subscriber whose backlog, receives and buffer together fall short of Total + 1 was dropped, for every Total, backlog and run |
| `DownloadGuarantees.ShortBufferDrops` | internal/application/pdfdownload/service.go:152-154 | For every job, backlog of k events and buffer below Total + 1 - k there is a run that drops the subscriber |
| `DownloadGuarantees.ChannelSafety` | internal/application/pdfdownload/worker.go:86-119 | Over whole runs the subscriber list is distinct and is exactly the open channels; no step reopens, closes again or sends to a closed one |
| `DownloadGuarantees.SnapshotAgrees` | internal/application/pdfdownload/worker.go:126-147 | At every state entry i is the i-th Progress event or pending, Succeeded + Failed counts the Progress events, the log never exceeds Total + 1, and a completed job's snapshot is its Summary's, for good |
| `DownloadRecords.EntriesRecord` | internal/application/pdfdownload/errfields.go:49-62 | Over every run entry k is what the k-th attempt came to: success exactly for a stored download, with its size when known, and otherwise failed under the error's own category with its text; entries not attempted are pending and empty |
| `DownloadRecords.SnapshotCountsDownloads` | internal/application/pdfdownload/worker.go:126-147 | In every reachable state a snapshot's succeeded is the number of attempts that stored their file, and its failed the number of the others |
| `DownloadRecords.CompletionDate` | internal/application/pdfdownload/worker.go:77-95 | A job is complete exactly once its worker has ended; its date is the clock reading of that step, and its log closes with a summary of all entries carrying that date |
| `DownloadRecords.CountIsSize` | internal/application/pdfdownload/worker.go:127-135 | A status count is the number of entries with that status |
| `DownloadGuarantees.StreamOutcome` | internal/http/controller/paper/pdfdownload_controller.go:78-116 | A stream that ended by itself is every progress frame in request order and one summary, or a proper prefix of the log and one error frame; the latter only after a drop |
| `DownloadGuarantees.StreamFrames` | internal/http/controller/paper/pdfdownload_controller.go:104-139 | Before its end every stream shows progress frame k for entry k; the error frame carries its reason |
| `DownloadGuarantees.StreamTerminates` | internal/http/controller/paper/pdfdownload_controller.go:98-115 | Once the job is finished a stream is never blocked: it ends within its unread events plus one turn, with the summary unless it was dropped |
| `DownloadGuarantees.EndedStream` | internal/http/controller/paper/pdfdownload_controller.go:104-110 | On a finished job an ended stream shows the error frame if and only if it lacks events |
| `DownloadSafety.RunInv` | internal/application/pdfdownload/worker.go:29-40 | Log, channel, subscription and handler invariants hold in every reachable state of the protocol |
| `DownloadSafety.StepInv` | internal/application/pdfdownload/worker.go:65-95 | Each critical section and each handler turn keeps all four invariants |
| `DownloadSafety.KeptIsFilter` | internal/application/pdfdownload/worker.go:104-119 | The compaction keeps exactly the subscribers with room, each once |
| `DownloadSafety.KeptInOrder` | internal/application/pdfdownload/worker.go:104-119 | Kept subscribers come from increasing places of the list |
| `DownloadSafety.RunSplits` | internal/application/pdfdownload/worker.go:29-40 | A run of the protocol can be cut anywhere |
| `DownloadJob.JobRecord.SendAll` | internal/application/pdfdownload/worker.go:104-114 | The aliasing in-place compaction equals the order-preserving filter, and every subscriber is sent the event or closed |
| `DownloadJob.JobRecord.FanOutLocked` | internal/application/pdfdownload/worker.go:100-121 | The in-place fan-out is the protocol's fan-out step, reports how many were dropped, and leaves the tail of the array nil |
| `DownloadJob.JobRecord.AppendAndFanOut` | internal/application/pdfdownload/worker.go:65-72 | Commit, append and fan-out are one protocol step |
| `DownloadJob.JobRecord.FinishJob` | internal/application/pdfdownload/worker.go:77-95 | The log gains exactly the Summary, which is the returned snapshot: all entries, counted, dated with the given reading; the job is complete with that date, all as one protocol step |
| `DownloadJob.JobRecord.BuildSnapshotLocked` | internal/application/pdfdownload/worker.go:126-147 | The counting loop yields the numbers of entries with status success and failed, beside the job's id, size, entries and completion |
| `DownloadJob.JobRecord.RunJob` | internal/application/pdfdownload/worker.go:21-49 | Whatever subscriptions and receives come between its critical sections, the worker ends in the state of that interleaving of the protocol, with every request's own outcome on record and a dated summary of all of them closing the log |
| `DownloadJob.JobRecord.WorkOnce` | internal/application/pdfdownload/worker.go:152-179 | One attempt records its own outcome in its own entry, logs it, and leaves all other entries |
| `DownloadJob.JobRecord.Others` | internal/application/pdfdownload/service.go:208-223 | Any steps of subscribers and clients change the record as the protocol says |
| `DownloadJob.JobRecord.Subscribe` | internal/application/pdfdownload/service.go:208-223 | Backlog copy and registration are one protocol step; a completed job hands out a closed channel and registers nothing |
| `DownloadJob.JobRecord.ReceiveFrom` | internal/http/controller/paper/pdfdownload_controller.go:103 | A client receive is the protocol's receive step: the oldest buffered event |
| `DownloadRegistry.LazyIsEager` | internal/application/pdfdownload/service.go:180-206 | With a non-decreasing clock a read at `now` knows an id exactly when it was scheduled and no end of its worker lies at least Retention before `now`; jobs in progress are always known |
| `DownloadRegistry.PlayHistory` | internal/application/pdfdownload/service.go:246-264 | A job is there once scheduled and expires by its own worker's end only, both read off the moves |
| `DownloadRegistry.EvictedForGood` | internal/application/pdfdownload/service.go:246-264 | An evicted id never returns |
| `DownloadRegistry.JobsAreIndependent` | internal/application/pdfdownload/service.go:64-66 | Inside any run of the registry each job's history is a run of its own protocol |
| `DownloadRegistry.Registry.SweepLocked` | internal/application/pdfdownload/service.go:246-264 | Deleting while ranging leaves exactly the jobs not completed with age of at least Retention |
| `DownloadRegistry.Registry.Sweep` | internal/application/pdfdownload/service.go:246-264 | The sweep of a read takes the registry to the registry machine's state after that read |
| `DownloadRegistry.Registry.Schedule` | internal/application/pdfdownload/service.go:128-176 | An empty batch schedules nothing; otherwise exactly one fresh job in its initial state is added, sharing nothing with the others: the registry machine's schedule step |
| `DownloadRegistry.Registry.Snapshot` | internal/application/pdfdownload/service.go:180-191 | Unknown or expired is not found; otherwise the job's current snapshot. Found exactly when the registry machine knows the id after the read |
| `DownloadRegistry.Registry.Subscribe` | internal/application/pdfdownload/service.go:198-224 | Unknown or expired is not found; otherwise the protocol's subscription on that job. All other jobs keep their state, and the registry is in the registry machine's state after read and attachment |
| `DownloadStream.Stream` | internal/http/controller/paper/pdfdownload_controller.go:78-116 | The frames are those of backlog and live events through the first Summary, then one error frame exactly when the channel closed before any |
| `DownloadStream.StreamToSummary` | internal/http/controller/paper/pdfdownload_controller.go:92-115 | With a first Summary among backlog and live events the response is the frame of each event through it, and nothing after |
| `DownloadStream.StreamToEnd` | internal/http/controller/paper/pdfdownload_controller.go:98-115 | Without one every event has its frame, and the response stands open, left, or closed with one error frame, as the first select that is no event says |
| `DownloadStream.WriteDownloadEvent` | internal/http/controller/paper/pdfdownload_controller.go:120-139 | One frame per event, with the entry or the Summary's id and counts in it; terminal exactly for a Summary |
| `DownloadStream.HandlerIsStream` | internal/http/controller/paper/pdfdownload_controller.go:92-115 | A handler of the interleaved protocol has written exactly what the loop writes for the events it consumed |
| `ExtractionGuarantees.NoLostWakeUp` | internal/application/extraction/usecase.go:55-70 | With a buffer of at least 1, after any run with any faults and crashes: a pending row is without a buffered signal, a worker short of an empty peek and a submission about to signal exactly when the very last step was a failed peek and no signal was left |
| `ExtractionGuarantees.AttendedStep` | internal/application/extraction/worker.go:62-91 | No step but such a failed peek ends with a row unattended, not even from a state where one was |
| `ExtractionGuarantees.PeekFaultStrands` | internal/application/extraction/worker.go:84-88 | One failed peek is enough to leave a pending row with nobody coming for it |
| `ExtractionGuarantees.SignalsAccounted` | internal/application/extraction/notifier.go:30-36 | Between start-ups every receive takes one signal, and none is lost while the buffer has room |
| `ExtractionGuarantees.DoneProvenance` | internal/application/extraction/worker.go:84-125 | A done row's artifact is the verdict of an extractor run made for that row on the payload last peeked for it; that is the row's payload exactly when the last upsert between peek and claim, if any, repeated it; its word count is at most the threshold |
| `ExtractionGuarantees.FailedProvenance` | internal/application/extraction/worker.go:93-108 | Every failure reason comes from a run made for that row on the peeked payload, an expiry of the peeked request, or a restart; too_large only ever names a raw text over the threshold |
| `ExtractionGuarantees.ExpiredOwnRequest` | internal/application/extraction/worker.go:93-108 | The request of an expired row had itself expired exactly when none was upserted between peek and expiry, or the last one upserted there was out of time as well |
| `ExtractionGuarantees.StaleArtifact` | internal/application/extraction/worker.go:84-125 | An upsert between peek and claim can end as a done row of the new request with the old request's artifact and nothing pending |
| `ExtractionGuarantees.StaleExpiry` | internal/infrastructure/persistence/extraction/repo.go:30-41 | An upsert between peek and expiry can end as a fresh request failed as expired within its window, with nothing pending |
| `ExtractionGuarantees.NewRequestSurvives` | internal/infrastructure/persistence/extraction/repo.go:206-229 | A request upserted after the claim makes the overtaken run's update fail and stays pending with the newest payload |
| `ExtractionGuarantees.RowMachine` | internal/infrastructure/persistence/extraction/repo.go:175-250 | Every step moves every row along the status machine; done and failed rows change only by an upsert of their key; no row runs right after recovery |
| `ExtractionGuarantees.AtMostOneRunning` | internal/application/extraction/worker.go:110-125 | While the process is up the running rows are exactly those whose final update was lost and the one the worker holds; so nothing else runs if and only if no update was lost |
| `ExtractionGuarantees.LostUpdateStrands` | internal/application/extraction/usecase.go:85-150 | Losing one final update leaves a row running that nobody holds |
| `ExtractionSafety.Reachable` | internal/infrastructure/persistence/extraction/repo.go:42-250 | Unique keys, columns that fit the status, provenance of every row and the worker's knowledge hold in every reachable state |
| `ExtractionSafety.StepInv` | internal/application/extraction/worker.go:78-138 | Every step, faults and crashes included, keeps those invariants |
| `ExtractionTable.ColumnsRoundTrip` | internal/infrastructure/persistence/extraction/model.go:46-116 | Storing what was read back loses nothing exactly when the columns fit the status |
| `ExtractionTable.UpsertKeeps` | internal/infrastructure/persistence/extraction/repo.go:42-129 | An upsert keeps keys unique and ids stable, resets exactly the row of its key and touches no other |
| `ExtractionTable.RecoverKeeps` | internal/infrastructure/persistence/extraction/repo.go:231-250 | Recovery leaves no running row, the same pending rows, and is idempotent |
| `ExtractionTable.ClaimKeeps` | internal/infrastructure/persistence/extraction/repo.go:175-179 | A claim keeps the table invariant and the ids |
| `ExtractionTable.DoneKeeps` | internal/infrastructure/persistence/extraction/repo.go:181-189 | Marking done keeps the table invariant and the ids |
| `ExtractionTable.FailedKeeps` | internal/infrastructure/persistence/extraction/repo.go:191-204 | Marking failed keeps the table invariant and the ids |
| `ExtractionVerdict.WordGate` | internal/application/extraction/usecase.go:117-141 | Only what fits becomes an artifact, and a document whose raw text fits is never too_large |
| `ExtractionVerdict.VerdictOf` | internal/application/extraction/usecase.go:85-150 | A run never fails as expired or as a restart |
| `ExtractionVerdict.VerdictIsJudged` | internal/application/extraction/usecase.go:85-168 | Each extractor error gives its own failure reason with its text, an excess of words too_large, and anything else the artifact: normalized body, its words, the source type, and the first heading or the fallback as title |
| `ExtractionVerdict.FallbackIsStem` | internal/application/extraction/usecase.go:117 | The fallback title is the last path element without its final extension; trailing slashes keep the extension |
| `ExtractionVerdict.FallbackOfNothing` | internal/application/extraction/usecase.go:117 | A path without an element gives a dot or a slash |
| `ExtractionRepository.Repository.Upsert` | internal/infrastructure/persistence/extraction/repo.go:42-129 | The row of the request's source type and id, and only it, is pending with the new request, no outcome and a new creation time; it keeps its id and its prior state is reported exactly when there was one; a fault stores nothing |
| `ExtractionRepository.Repository.PeekNextPending` | internal/infrastructure/persistence/extraction/repo.go:153-173 | A pending row that no pending row predates, or nothing exactly when none is pending |
| `ExtractionRepository.Repository.ListPendingIDs` | internal/infrastructure/persistence/extraction/repo.go:252-266 | Every pending row once, oldest first; a fault lists nothing |
| `ExtractionRepository.Repository.Transition` | internal/infrastructure/persistence/extraction/repo.go:206-229 | The update happens exactly when the row is in the expected status, otherwise it is refused and nothing changes |
| `ExtractionRepository.Repository.ClaimPending` | internal/infrastructure/persistence/extraction/repo.go:175-179 | Succeeds exactly on a pending row and then changes its status only |
| `ExtractionRepository.Repository.MarkDone` | internal/infrastructure/persistence/extraction/repo.go:181-189 | Succeeds exactly on a running row and then stores the artifact and nothing else |
| `ExtractionRepository.Repository.MarkFailed` | internal/infrastructure/persistence/extraction/repo.go:191-204 | Succeeds exactly on a pending row for an expiry and on a running row for every other reason, and then stores reason and message and nothing else |
| `ExtractionRepository.Repository.RecoverRunningOnStartup` | internal/infrastructure/persistence/extraction/repo.go:231-250 | Every running row fails as a restart and the count is zero exactly when nothing changed; a fault changes nothing |
| `ExtractionRepository.ChannelNotifier.Notify` | internal/application/extraction/notifier.go:30-36 | One more signal unless the buffer is full |
| `ExtractionRepository.Submit` | internal/application/extraction/usecase.go:45-73 | Blank fields, a foreign source type and a storage fault each give their own error, in that order, store nothing and signal nobody; otherwise the request's row is pending, no other row has changed, and a signal is buffered |
| `ExtractionRepository.ValidateByCharacters` | internal/domain/extraction/requests.go:19-29 | A request is refused exactly when a field holds nothing but space, or else when its source type is not `paper` |
| `ExtractionRepository.StartUp` | internal/bootstrap/app.go:148-175 | Recovery, then one signal per surviving pending row, lost ones included; a failing recovery or listing stops the start-up with no signal sent and no worker started |
| `ExtractionRepository.SignalsFill` | internal/bootstrap/app.go:163-171 | As many signals as the buffer has room for |
| `ExtractionWorker.Drain` | internal/application/extraction/worker.go:78-138 | All the loop does is a run of the queue; it peeks at most pending rows + submissions + failed calls + 1 times, never in a turn that finds it cancelled and never after a failed peek; it stops for an empty peek, a failed one or cancellation only; undisturbed it settles exactly the pending rows, oldest first |
| `ExtractionWorker.PendingCanBeServed` | internal/application/extraction/worker.go:62-138 | From every attended state the worker's own fault-free steps, with the signals of stored submissions, can leave nothing pending |
| `ExtractionWorker.Serve` | internal/application/extraction/worker.go:62-76 | One round of the outer loop: one signal is taken, then the drain runs |
| `ExtractionWorker.TakeTurn` | internal/application/extraction/worker.go:78-138 | Each iteration removes a row from pending or is charged to a submission or a failed call |
| `ExtractionWorker.Take` | internal/application/extraction/worker.go:93-117 | Expired or claimed by the clock alone; a failed claim ends the drain exactly when it finds itself cancelled |
| `ExtractionWorker.Complete` | internal/application/extraction/worker.go:122-136 | A cancelled run that failed, or whose result could not be stored, ends the drain |
| `ExtractionWorker.Handle` | internal/application/extraction/worker.go:93-137 | Expire or claim and process: undisturbed, the peeked row is settled and no other row changes |
| `ExtractionWorker.Process` | internal/application/extraction/usecase.go:85-150 | A row still running gets, and no other row does, what its run came to: each extractor error by its own reason and text, too many words as too_large with both numbers, or the artifact with body, title, source type and word count; a cancelled failed run writes nothing |
| `ExtractionWorker.SettledMeans` | internal/application/extraction/worker.go:93-125 | A row settled by the undisturbed drain is expired when its window had passed at the visit, and otherwise what its run came to |
| `ExtractionWorker.SweptAll` | internal/application/extraction/worker.go:84-91 | When nothing is pending any more the visits were to exactly the rows that were |
| `ExtractionWorker.UpsertPending` | internal/infrastructure/persistence/extraction/repo.go:42-129 | An upsert adds at most one pending row and loses none |
| `NormalizeLaws.FixedPoint` | internal/domain/extraction/normalize.go:58-142 | A text is its own normalized body exactly when it has no delimiter pair, heading, table, image or caption line, blank run or final newline |
| `NormalizeOutputs.OutputClean` | internal/domain/extraction/normalize.go:58-142 | Every output meets all of these except possibly the pair and table conditions, and normalizing it again changes nothing exactly when it meets those two |
| `NormalizeNotIdempotent.NestedDelimiters` | internal/domain/extraction/normalize.go:78-82 | Nested delimiters leave a pair behind: the second normalization changes the text again |
| `NormalizeNotIdempotent.TableBroughtTogether` | internal/domain/extraction/normalize.go:101-136 | An image line between a bar line and a separator: dropping it makes a table the second normalization removes |
| `NormalizeNotIdempotent.TablePair` | internal/domain/extraction/normalize.go:101-136 | The same for every bar line, dropped line and separator |
| `NormalizeOutputs.WordsNeverGrow` | internal/domain/extraction/normalize.go:58-142 | The word count of the body is at most that of the raw text; the math stage keeps it exactly |
| `NormalizeOutputs.BodyLines` | internal/domain/extraction/normalize.go:88-142 | No line of any output is a references heading, image or caption |
| `MathLaws.RewritesLeftmostNearest` | internal/domain/extraction/normalize.go:16-24 | The rewritten pair is the leftmost opening delimiter with its nearest close at least one character later, and only delimiters change |
| `MathLaws.RewriteFixed` | internal/domain/extraction/normalize.go:78-82 | Rewriting never lengthens and leaves a text alone exactly when it has no pair |
| `MathLaws.RewriteKeepsWords` | internal/domain/extraction/normalize.go:78-82 | Rewriting keeps the number of words exactly, whatever precedes the text |
| `NormalizeLaws.TruncateFixed` | internal/domain/extraction/normalize.go:88-96 | Truncation leaves a text alone exactly when no line is a references heading |
| `NormalizeLaws.StripFixed` | internal/domain/extraction/normalize.go:101-136 | Stripping leaves a text alone exactly when it has no table, image or caption line |
| `NormalizeLaws.CollapseFixed` | internal/domain/extraction/normalize.go:138-142 | Collapsing leaves a text alone exactly when it has no run of three newlines, and its result has none |
| `NormalizeOutputs.CollapseKeepsLines` | internal/domain/extraction/normalize.go:138-142 | Collapsing removes empty lines only |
| `Normalize.TruncateAtReferencesLoop` | internal/domain/extraction/normalize.go:88-96 | The loop returns the text before the first heading line, or the text itself |
| `Normalize.StripBlocksLoop` | internal/domain/extraction/normalize.go:101-136 | The index-skipping scanner equals the recursive stripping of lines |
| `Normalize.SkipBars` | internal/domain/extraction/normalize.go:112-117 | The skip stops at the first line without a bar and passes bar lines only |
| `NormalizeMeaning.StripMeaning` | internal/domain/extraction/normalize.go:101-136 | The result is the join of exactly the lines that are not dropped and lie in no table block; a block is a bar line, a separator and the longest run of bar lines after them, and no header is outside a block |
| `NormalizeMeaning.TruncateMeaning` | internal/domain/extraction/normalize.go:88-96 | Every line before the first heading is kept and nothing else; without a heading the text is left as it is |
| `NormalizeMeaning.CollapseMeaning` | internal/domain/extraction/normalize.go:138-142 | A run of newlines becomes as many, but never more than two, and the texts around it collapse by themselves |
| `NormalizeMeaning.TrimNewlinesMeaning` | internal/domain/extraction/normalize.go:63 | Every newline comes off the end, and nothing else |
| `NormalizeMeaning.DisplayMeaning` | internal/domain/extraction/normalize.go:79 | The first display pair with its nearest close turns to `$$` on both sides and the rewriting goes on after it |
| `NormalizeMeaning.InlineMeaning` | internal/domain/extraction/normalize.go:80 | The first inline pair with its nearest close turns to `$` on both sides and the rewriting goes on after it |
| `LineMeaning.MarkdownRules` | internal/domain/extraction/normalize.go:105-130 | Headings, bars, images and captions are told on the trimmed line, separators on the line as it is, each exactly by its pattern |
| `LineMeaning.HeadingMeaning` | internal/domain/extraction/normalize.go:31 | One to six hashes, white space, one of three words in any case, and nothing else |
| `LineMeaning.SeparatorMeaning` | internal/domain/extraction/normalize.go:37 | Two or more padded cells of three or more dashes with optional colons, bars between them, optional bars around |
| `LineMeaning.ImageMeaning` | internal/domain/extraction/normalize.go:42 | Brackets and parentheses of an image from the first character to the last |
| `LineMeaning.WordCountMeaning` | internal/domain/extraction/normalize.go:66 | The word count is the number of positions at which a word starts |
| `Normalize.SelectTitle` | internal/domain/extraction/normalize.go:148-155 | The loop finds that first heading line |
| `Normalize.TitleIsFirst` | internal/domain/extraction/normalize.go:148-155 | The title is the trimmed rest of the first level-1 heading line, the fallback exactly when there is none |
| `Normalize.Normalize` | internal/domain/extraction/normalize.go:58-73 | The stages in order; the word count is the final body's, and the title its first heading or the fallback |
| `PdfStoreSafety.AtomicPublish` | internal/infrastructure/pdf/local/store.go:85-166 | In every interleaving a key's path is absent, as it started, or the complete non-empty body of a finished fetch for it; failing that, another key's directory |
| `PdfStoreSafety.StaysPublished` | internal/infrastructure/pdf/local/store.go:85-166 | Once a path has content it has content for good, whatever later calls do or fail at |
| `PdfStoreSafety.LocatorsAreGood` | internal/infrastructure/pdf/local/store.go:96-109 | Every locator names its key's path, which is non-empty, and a file unless a directory was there from the start or a key of type `.` shares its file name with the type of another call's valid key |
| `PdfStoreSafety.AcceptedAreValid` | internal/infrastructure/pdf/local/store.go:86-94 | Only calls with valid keys ever get past the first check |
| `PdfStoreSafety.DirectoryServed` | internal/infrastructure/pdf/local/store.go:102-109 | In that exceptional case a call does return a locator on a directory |
| `PdfStoreSafety.NothingLeftBehind` | internal/infrastructure/pdf/local/store.go:132-156 | When all calls have returned and every removal worked, what is new on disk is directories and complete files |
| `PdfStoreSafety.Reachable` | internal/infrastructure/pdf/local/store.go:85-166 | Temporary files are unshared, hold what was written so far, and every path has a known origin |
| `PdfStore.PathsAreKeys` | internal/infrastructure/pdf/local/store.go:74-76 | The path is source type, unless a lone dot, and id with `.pdf`; valid keys are told apart by it, it stays below the root, and one key's file is another's directory only under the type `.` |
| `PdfStore.TempNames` | internal/infrastructure/pdf/local/store.go:137 | Temporary names and canonical names never coincide |
| `PdfStore.PlainElement` | internal/domain/pdf/model.go:50-69 | A validated identifier is one plain path element or a lone dot |
| `PdfStore.ValidByTrimming` | internal/domain/pdf/model.go:50-69 | Validity of a key, stated by its characters, is what trimming and substring search decide |
| `PdfLocalStore.LocalStore.Ensure` | internal/infrastructure/pdf/local/store.go:85-166 | Every result and the whole disk, case by case over what the filesystem, fetcher and context answer; each call is a sequence of the protocol's moves; an error leaves the key's file as it was |
| `PdfLocalStore.LocalStore.PublishBody` | internal/infrastructure/pdf/local/store.go:126-165 | The body ends up in place whole, or the disk is unchanged but for a temporary file that could not be removed |
| `PdfLocalStore.PublicationIsMoves` | internal/infrastructure/pdf/local/store.go:126-165 | Every outcome of a publication is a sequence of the protocol's moves |
| `ArxivFetchSafety.ScheduledAtMostOnce` | internal/application/arxiv/usecase.go:88-142 | Over any interleaving each paper is scheduled at most once: once exactly when the call that inserted its row handed it to the scheduler |
| `ArxivFetchSafety.SchedulesSubsequence` | internal/application/arxiv/usecase.go:98-134 | A call schedules an order-preserving subsequence of what it fetched, with distinct keys |
| `ArxivFetchSafety.FailedSaveStrands` | internal/application/arxiv/usecase.go:104-140 | What a call had saved before a save failed, or before the scheduler refused it, stays known and is never scheduled by any call |
| `ArxivFetchSafety.Reachable` | internal/infrastructure/persistence/paper/repo.go:33-57 | Every row not there from the start is owned by exactly the call that found it new |
| `ArxivFetch.Requests` | internal/application/pdfdownload/types.go:29-38 | One request per entry, in order, with its source, id, version and PDF address |
| `ArxivUseCase.PaperRepository.Save` | internal/infrastructure/persistence/paper/repo.go:33-57 | A row is inserted exactly when its key is new; a collision is a skip, a fault stores nothing |
| `ArxivUseCase.FirstSeenWins` | internal/infrastructure/persistence/paper/repo.go:29-57 | Saving in order keeps every old row and the first entry of every new key |
| `ArxivUseCase.NewOfIsPicked` | internal/application/arxiv/usecase.go:115-121 | A call alone hands on what the interleaved protocol picks when no other call interferes |
| `ArxivUseCase.SaveEach` | internal/application/arxiv/usecase.go:98-122 | The loop reports each saved entry, new exactly when first seen, and stops at the first failure |
| `ArxivUseCase.RequestsFromEntries` | internal/application/pdfdownload/types.go:29-38 | One request per entry, in order, with the entry's identity and URL |
| `ArxivUseCase.Fetch` | internal/application/arxiv/usecase.go:88-142 | Success reports all entries in order and schedules one job for the new ones, if any; when the scheduler refuses, the same report without a job; a failure schedules nothing and reports nothing |
| `ErrFields.CapKeepsCharacters` | internal/application/pdfdownload/errfields.go:79-88 | For every text the capped bytes encode its longest character prefix of at most 256 bytes, losing at most 3 bytes below the cap |
| `ErrFields.EncodeMeaning` | internal/application/pdfdownload/errfields.go:79-88 | The bytes carry the character's bits under the marks of its length, in the fewest bytes, as RFC 3629 tabulates them |
| `ErrFields.WalkBackFits` | internal/application/pdfdownload/errfields.go:83-86 | At any position of an encoded text the walk back removes only the character it would split |
| `ErrFields.CapIsFinal` | internal/application/pdfdownload/errfields.go:79-89 | On any bytes the cap yields a prefix of at most 256 bytes and is idempotent |
| `ErrFields.Sanitize` | internal/application/pdfdownload/errfields.go:79-89 | The loop computes the cap and leaves short texts alone |
| `AbsID.SplitAbsID` | internal/infrastructure/arxiv/parser.go:131-145 | Source id and version join to the trimmed id, without the abs prefix if it has it; the version is empty exactly when there is no `v` with digits after a non-empty id |
| `AbsID.SplitIsUnique` | internal/infrastructure/arxiv/parser.go:136-143 | An id can be split in at most one way |
| `AbsID.KeysAreInjective` | internal/application/pdfdownload/types.go:97-99 | Artifact keys of parsed ids are equal exactly when both parts are |
| `AbsID.KeyRoundTrip` | internal/application/pdfdownload/types.go:97-99 | The abs id rebuilt from an artifact key splits into the same two parts, and no others |

## Left out

- HTTP routing, DTO mapping, authentication, Swagger, configuration parsing, analyzer, source and user
  management: field copies, framework calls and one-branch validators.
- GORM and SQLite: a table is a map, each statement or transaction one atomic step, a failed call one that
  stores nothing. An upsert's insert and the overwrite after its conflict are one step; rows are never
  deleted, so nothing can come between them that matters.
- `updated_at`, logging, UUIDs (fresh ids instead) and clocks (parameters instead). `FindByID` is a lookup.
- Malformed stored payload JSON, which the writers never store.
- Formatted failure messages: the model keeps their operands instead of the text.
- Network fetches, XML decoding, the PDF extractor and the LLM: arbitrary inputs.
- Regular expression engines: headings, separators, image lines and math pairs are predicates and searches
  on code points that accept what the patterns accept. Strings that are not valid UTF-8 are not modelled in
  the text stages and the id split.
- The redaction patterns of `sanitize`: the cap is applied to text already redacted.
- Registry shutdown, which no code path connects to a job's channels. `runEntry`'s store key and stat call:
  the outcome of a download is an input of the worker's step.
- Subscriber buffers of size 0, where a send succeeds only to a receiver already waiting: the buffer is
  positive, as `internal/bootstrap/env.go:171` enforces. The proofs hold for size 0 as well, read as a
  channel that never takes an event.
- Wake channels of size 0: the signal buffer is positive too (`internal/bootstrap/env.go:135`), and
  `NoLostWakeUp` needs it.
- Temporary files left by a process that dies between creating and renaming one; later calls never reuse
  such a name, since names are created fresh.
- `NewStore`'s writability probe and `Locator.Open`.
- `List` and `FindByKey` of the paper catalogue: reads without branching on state.
