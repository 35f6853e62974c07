# Verified models of the CRM's maintenance scripts, view state and stream readers

A Dafny model of the parts of the CRM whose correctness depends on more than one line at a time:
crash-safe evidence of destructive maintenance runs, optimistic view changes with rollback,
incremental reading of server-sent events, polling with generations, and four data migrations and
checks. `dafny verify dfyconfig.toml` checks all of it.

Code that changes state is a class whose methods follow the original statement by statement. Each
method's `ensures` ties the new state to a step of a specification machine, and the theorems are
about every run of that machine.

## What is modelled

**Evidence of maintenance runs** (`EvidenceFiles`, `JournaledCleanup`, `JournaledCleanupScript`,
`CheckpointCutover`, `CheckpointCutoverScript`, `Completion`). Three commands delete rows in one
transaction, write a journal row in it, and publish a JSON report; they differ in names only and are
one machine, `JournaledCleanup`. The fourth, the checkpoint cutover, recovers by running its
transaction again. A disk has what programs see and what would survive a power loss: renames and
unlinks become durable at a directory fsync, and a power loss keeps any subset of the pending ones,
each wholly or not at all. A run of the machine is any sequence of calls by any number of
invocations (each call on files or the database may return, raise, or raise although its effect took
place), process crashes and power losses.

The three journal-checked commands meet their promise in full. The cutover does not: a staged report
can be visible but not durable (a process killed between its rename and the directory fsync leaves
it so), and the recovery path commits without syncing it. If the power then fails, the database has
committed and no evidence is left; the next run succeeds with a report of zero deletions.
`LostEvidenceIsReportedAsNoDeletion` is that run, and `RollForwardIsAttestedIffStageSurvives` is the exact condition. A staged report
that no longer fits its cutoff or its rerun blocks the cutover: `FaultFreeCutoverCompletesIff` says
exactly which invocations complete, and `StagedReportBlocks` that nothing else gets past it.

**Custom views** (`ViewApply`, `CustomFilterViews`). Applying a view changes the page at once and
is confirmed or rolled back when a refresh completes; refreshes may finish in any order. Two things
should hold throughout: an idle page shows the committed view, and leaving custom views restores the
last built-in one. `ViewsAreKeptIff` says for every event exactly when it keeps each of them. A retry
breaks the first if something was committed since the failure: the edit is lost when the retry fails
(`RetryRollsBackFaithfullyIff`, `EditBeforeRetryIsLost`). A retry or an edit that enters a custom tab
without the right snapshot saved breaks the second (`EnteringThenLeavingRestoresIff`,
`RetryThenLeaveRestoresIff`); `PaymentRecords.vue` makes such an edit when a view is unknown, and loses
the built-in view on the way back (`UnknownCustomTabLosesView`).

**Server-sent events** (`SseFraming`, `AssistantFraming`, `AssistantBlocks`, `AssistantStream`,
`AssistantAnswers`, `AssistantRoundTrip`, `AgentStream`, `AgentRoundTrip`): a subset of sections 9.2.5 and 9.2.6 of the
WHATWG HTML Standard. The assistant's splitter rewrites CRLF in its own buffer at every push, so a
CR CR LF loses carriage returns for as long as it is buffered. Its returned blocks and its buffer
together are independent of chunking exactly without CR CR LF (`ChunkInvariantIff`). The blocks alone
are so exactly if no blank line follows a CR CR LF and there is no CR CR CR LF; this is proved of all
texts but those without such a blank line in which only white space follows the first CR CR CR LF
(`BlocksAreChunkInvariantIff`). "a", CR, CR, LF, LF, "b" in one piece and cut behind the first LF gives
different blocks (`BlocksCanDiffer`). The agent's splitter needs no condition. What the handlers are
called with is described frame by frame in `AssistantAnswers`; `CallsFit` and `FittingCallsAreUnique`
say that exactly those calls are made.

**Polling** (`PollScheduler`, `OperationPolling`). Timers, polls and page loads in flight belong to
a generation. After a switch of session the client behaves for good as one that has just opened that
session, whatever was requested before and whenever it is answered (`SwitchStartsAfresh`); an
acknowledgement names no session and is stored with whichever is open. Two runs stop polling an
operation that is still shown as running. A terminal answer older than the stored projection is
dropped by the merge, yet ends the polling (`OldTerminalAnswerStopsPolling`). And the history is paged
by offset from its newest entry (`CRM-Server/app/services/agent/async_operation_service.py`, lines 661
to 667), so an operation created between two page requests makes another one come in twice; its
terminal answer replaces one copy and ends the polling of both (`PageShiftStopsPolling`).
`CoverageIsKeptIff` says for every event exactly when it keeps the coverage.

**Migrations and checks.** `TeamIsolation`, `TeamTables` and `TeamUpgrade` copy parent and child tables to every team.
`MessageMigration` is the resumable batch run. `DesignSystemDocs` is the link check with its
recursive visit. `PermissionCodes` merges and renames permission codes, and `PermissionUpdates` holds
the script's own two tables; five of the six targets of its first step are only created by its
second, so on a table still in the old form the role grants are lost (`TargetCreatedTooLate`;
`MergeIsKeptIff` is the condition). `HeldAfterBoth` and `ScriptHolds` say what every role holds after
both steps, and exactly when they raise. `role_permissions` has no unique key on role and permission,
so `INSERT IGNORE` does not avoid duplicates as its comment says: `Step1MovesGrants` counts the rows.

Where code and its comments or documentation disagree, the model follows the code.

## Model

| member | source | states |
|---|---|---|
| EvidenceFiles.DisksStayConsistent | CRM-Server/scripts/cleanup_agent_async_operation_history.py:51-76 | What programs see is always what a power loss that loses nothing would leave, through every rename, unlink, fsync and power loss |
| JournaledCleanup.OutputTellsTheTruth | CRM-Server/scripts/cleanup_agent_async_operation_history.py:111-122 | In every run an output file COMPLETED with r implies that the database committed exactly r |
| JournaledCleanup.CommittedEvidenceSurvives | CRM-Server/scripts/cleanup_agent_async_operation_history.py:65-76 | In every run a committed r is held by the staged or the output report, on the visible disk and on every disk a power loss can leave |
| JournaledCleanup.CommitsAtMostOnce | CRM-Server/scripts/recover_agent_runtime_after_forced_schema_upgrade.py:208-265 | In every run at most one transaction takes effect, the service is only reached without a journal row, and exit 2 is only reached by an invocation that committed nothing |
| JournaledCleanup.LockExcludes | CRM-Server/scripts/cleanup_background_runtime_after_agent_recovery.py:267-283 | At most one invocation is between taking and releasing the file lock |
| JournaledCleanup.ExitZeroMeansPublished | CRM-Server/scripts/cleanup_agent_async_operation_history.py:183-242 | Exit 0 is only reached with the committed result published |
| JournaledCleanup.FaultFreeRunCompletes | CRM-Server/scripts/cleanup_background_runtime_after_agent_recovery.py:192-264 | After any history, an invocation that has the lock and none of whose calls fails exits 0 with the output COMPLETED, whatever others try meanwhile: the result committed before, if any, else its own |
| JournaledCleanup.FaultFreeCommandCompletes | CRM-Server/scripts/cleanup_agent_async_operation_history.py:183-261 | The same for a whole command that finds the lock free: three calls to get it, 22 more to exit 0 with the right result published |
| JournaledCleanup.FailureIsReported | CRM-Server/scripts/cleanup_agent_async_operation_history.py:209-237 | After any history: a transaction that fails before its commit, whose four later calls return, leaves a durable output file FAILED, the stage, the journal and everything else as they were, and exits 2 if the service named blockers and 1 otherwise, whatever others try meanwhile |
| JournaledCleanup.OutputSaysHowFar | CRM-Server/scripts/cleanup_agent_async_operation_history.py:204-237 | In every run the output file says IN_PROGRESS from the progress report to the publication, and FAILED once a failure is being reported |
| JournaledCleanup.ExitTwoMeansFailed | CRM-Server/scripts/cleanup_agent_async_operation_history.py:220-237 | Status 2 is only reached with nothing committed and an output file that says FAILED or IN_PROGRESS; no other status than 0, 1 and 2 is |
| JournaledCleanup.NothingIsPending | CRM-Server/scripts/cleanup_agent_async_operation_history.py:65-76 | In every run, whoever is about to rename a report, to run the service or to commit has no rename or unlink pending that a power loss could take |
| JournaledCleanup.SyncedForGood | CRM-Server/scripts/cleanup_agent_async_operation_history.py:172-180 | A stale stage that was removed, and what a command finds after its first fsync, no power loss brings back or takes away |
| JournaledCleanup.RefinesCompletion | CRM-Server/scripts/recover_agent_runtime_after_forced_schema_upgrade.py:208-284 | Every event is a step of the two-state machine NotDone to Done(r), seen through the output file |
| JournaledCleanupScript.CleanupScript.WritePayload | CRM-Server/scripts/cleanup_agent_async_operation_history.py:65-76 | Follows the machine's durable write: directory fsync, write and rename, directory fsync, stopping at the first that fails; which report it writes is said by OutputSaysHowFar and FailureIsReported |
| JournaledCleanupScript.CleanupScript.VerifyCompletedReport | CRM-Server/scripts/cleanup_agent_async_operation_history.py:111-114 | Succeeds only on a COMPLETED report equal to the journal |
| JournaledCleanupScript.CleanupScript.PublishCompletedReport | CRM-Server/scripts/cleanup_agent_async_operation_history.py:117-122 | Verify, fsync, rename, fsync; success means the committed result is published |
| JournaledCleanupScript.CleanupScript.RemoveStaleStageIfUncommitted | CRM-Server/scripts/cleanup_agent_async_operation_history.py:172-180 | Drops the stage only where the journal was read and is empty |
| JournaledCleanupScript.CleanupScript.CommitAndUnlock | CRM-Server/scripts/cleanup_agent_async_operation_history.py:141-169 | Commit and unlock, either of which may raise before or after taking effect |
| JournaledCleanupScript.CleanupScript.RunServiceAndStage | CRM-Server/scripts/cleanup_agent_async_operation_history.py:209-219 | The service run with the durable stage write inside the transaction |
| JournaledCleanupScript.CleanupScript.RunLockedTransaction | CRM-Server/scripts/recover_agent_runtime_after_forced_schema_upgrade.py:155-190 | The locked connection around the service run |
| JournaledCleanupScript.CleanupScript.ExecuteLocked | CRM-Server/scripts/cleanup_background_runtime_after_agent_recovery.py:207-264 | Every path through recovery, progress report, transaction, failure report and publication takes only steps of the machine |
| JournaledCleanupScript.CleanupScript.Execute | CRM-Server/scripts/cleanup_agent_async_operation_history.py:245-261 | The same with the non-blocking file lock; exit 0 means published, exit 2 means nothing committed |
| JournaledCleanupScript.RunCleanup | CRM-Server/scripts/cleanup_agent_async_operation_history.py:245-261 | One command on whatever any history left: it ends in a reachable state, exits 0 only if published, and changes the journal only from empty to what the service yields |
| CheckpointCutover.OutputHashesAreCommitted | CRM-Server/scripts/cutover_agent_checkpoints.py:94-129 | In every run a COMPLETED output file has the committed hashes, also after a power loss |
| CheckpointCutover.DeletesAtMostOnce | CRM-Server/scripts/cutover_agent_checkpoints.py:132-197 | In every run at most one transaction deletes rows, and exit 2 means that this invocation deleted none |
| CheckpointCutover.RollForwardIsAttestedIffStageSurvives | CRM-Server/scripts/cutover_agent_checkpoints.py:119-129 | A roll-forward keeps its evidence through every power loss if and only if its staged report was durable when it committed |
| CheckpointCutover.CommittedReceiptSurvives | CRM-Server/scripts/cutover_agent_checkpoints.py:63-84 | In every run whose roll-forwards found their stage durable, the committed receipt, counts and cutoff included, survives every power loss |
| CheckpointCutover.RollForwardIsAllOrNothing | CRM-Server/scripts/cutover_agent_checkpoints.py:94-142 | However its calls turn out and whatever others try meanwhile, a recovery of a staged, uncommitted cutover either changes nothing and exits 1, or commits exactly the staged evidence, published or still staged |
| CheckpointCutover.MatchingRerunPublishes | CRM-Server/scripts/cutover_agent_checkpoints.py:132-142 | If none of its calls fails and the rerun yields the staged evidence, the recovery publishes it with its sixth call and exits 0, whatever others try meanwhile |
| CheckpointCutover.FaultFreeCutoverCompletesIff | CRM-Server/scripts/cutover_agent_checkpoints.py:132-197 | After any history, an invocation that has the lock and none of whose calls fails is at its end after 14 calls, whatever others try; it exits 0 if and only if the staged report, or without one the output file, is of its cutoff, and a staged one has the evidence the rerun yields or the committed hashes |
| CheckpointCutover.FaultFreeCutoverLeaves | CRM-Server/scripts/cutover_agent_checkpoints.py:119-142 | Exit 0 leaves the committed hashes for its cutoff in the output file; exit 1 leaves disk, journal and deletions exactly as they were |
| CheckpointCutover.FailureIsReported | CRM-Server/scripts/cutover_agent_checkpoints.py:156-191 | As for the other commands: a failed transaction whose two later calls return leaves a durable FAILED, nothing else changed, and exits 2 for blockers and 1 otherwise |
| CheckpointCutover.OutputSaysHowFar | CRM-Server/scripts/cutover_agent_checkpoints.py:150-195 | In every run the output file says IN_PROGRESS from the progress report to the commit, and FAILED once a failure is being reported |
| CheckpointCutover.ExitTwoMeansFailed | CRM-Server/scripts/cutover_agent_checkpoints.py:167-179 | Status 2 is only reached by an invocation that commits nothing with that call, with an output file that says FAILED or IN_PROGRESS |
| CheckpointCutover.StagedReportBlocks | CRM-Server/scripts/cutover_agent_checkpoints.py:94-142 | A durable uncommitted report stays staged through failures, kills and power losses, and nothing is committed or published until a rerun for its cutoff yields the very evidence staged |
| CheckpointCutover.LostEvidenceIsReportedAsNoDeletion | CRM-Server/scripts/cutover_agent_checkpoints.py:63-71 | A run after which rows are deleted and no evidence is left, and the next one exits 0 reporting zero deletions |
| CheckpointCutover.RefinesCompletion | CRM-Server/scripts/cutover_agent_checkpoints.py:132-197 | The cutover, seen by its hashes, refines the same two-state machine |
| CheckpointCutoverScript.CutoverScript.WriteDurableText | CRM-Server/scripts/cutover_agent_checkpoints.py:63-71 | Write and rename, then directory fsync, with no fsync of the directory before |
| CheckpointCutoverScript.CutoverScript.VerifyCompletedReport | CRM-Server/scripts/cutover_agent_checkpoints.py:94-116 | Reruns the service in its own transaction and compares hashes; where there is no journal row this commits |
| CheckpointCutoverScript.CutoverScript.PublishCompletedReport | CRM-Server/scripts/cutover_agent_checkpoints.py:119-129 | Verify, rename, fsync, as steps of the machine |
| CheckpointCutoverScript.CutoverScript.ExecuteLocked | CRM-Server/scripts/cutover_agent_checkpoints.py:132-197 | Every path takes only steps of the machine |
| CheckpointCutoverScript.CutoverScript.Execute | CRM-Server/scripts/cutover_agent_checkpoints.py:200-221 | The same with the file lock |
| CheckpointCutoverScript.RunCutover | CRM-Server/scripts/cutover_agent_checkpoints.py:200-221 | One command on whatever any history left ends in a reachable state |
| ViewApply.ApplyingIsTheCurrentRequest | CRM-Client/src/composables/useCustomFilterViews.ts:351-444 | In every run `applying` holds exactly while a request with the current sequence number is in flight; then the pending record is that request and there is no error; otherwise a pending record exists exactly when an error is shown |
| ViewApply.AppliedViewIsShown | CRM-Client/src/composables/useCustomFilterViews.ts:351-404 | In every run, applying a custom view shows its tab, filters, sorts and columns at once, with its display mode normalised if the page has one; the request in flight is to commit exactly what is shown and to go back to what was committed |
| ViewApply.AppliedViewIsCommitted | CRM-Client/src/composables/useCustomFilterViews.ts:359-381 | In every run, a current request that completes finds its view still shown; success commits it, failure reports its tab |
| ViewApply.RetriedViewIsShown | CRM-Client/src/composables/useCustomFilterViews.ts:406-410 | In every run, a retry shows the failed view again and goes back to where the first attempt would |
| ViewApply.SwitchingShows | CRM-Client/src/composables/useCustomFilterViews.ts:418-444 | In every run, switching to a built-in tab keeps the view of a built-in one, restores the saved view from a custom one, and without one shows nothing but the mode of built-in tabs |
| ViewApply.IdleViewIsCommitted | CRM-Client/src/composables/useCustomFilterViews.ts:129-181 | In every run without an edit before a retry, once the watcher has drained and nothing is applying, the page shows the committed snapshot |
| ViewApply.FailureRestoresCommitted | CRM-Client/src/composables/useCustomFilterViews.ts:359-380 | In every run a failed current request restores the snapshot it remembers and commits nothing, and a stale one changes nothing; without an edit before a retry that is the committed snapshot |
| ViewApply.EditSurvivesCompletions | CRM-Client/src/composables/useCustomFilterViews.ts:159-178 | In every run an edit made during an apply is committed, and no completion in any order changes it |
| ViewApply.LeavingCustomViewsUndoesThem | CRM-Client/src/composables/useCustomFilterViews.ts:418-444 | After any run whose retries and edits enter custom tabs only with the right snapshot saved, switching from a custom to a built-in tab restores filters, sorts, columns and mode of the last snapshot committed on a built-in tab, and no completion undoes it |
| ViewApply.ViewsAreKeptIff | CRM-Client/src/composables/useCustomFilterViews.ts:129-444 | Every event in order keeps the invariant of flags, modes and remembered snapshots. It keeps "an idle page shows the committed view, and a failure goes back to it" if and only if it is not a retry whose rollback target is no longer committed; and "where custom views can be left, the last built-in view is saved" if and only if it is no retry and no edit that enters a custom tab with another view saved |
| ViewApply.EnteringThenLeavingRestoresIff | CRM-Client/src/composables/useCustomFilterViews.ts:406-441 | In every run, a retry or an edit that enters a custom tab with something saved: leaving again restores the last built-in view if and only if that is the one saved at the time |
| ViewApply.FaithfulRunsAreSaved | CRM-Client/src/composables/useCustomFilterViews.ts:383-441 | A run without an edit before a retry and without an edit that turns a built-in tab into a custom one meets the condition of LeavingCustomViewsUndoesThem |
| ViewApply.UnknownCustomTabLosesView | CRM-Client/src/composables/useCustomFilterViews.ts:431-441 | A page that puts a custom key without a view into its active tab loses its filters and sorts when it goes back |
| ViewApply.RetryRollsBackFaithfullyIff | CRM-Client/src/composables/useCustomFilterViews.ts:406-410 | In every run, a retry that fails leaves the page on the committed snapshot if and only if the rollback target of the failed apply is still the committed snapshot |
| ViewApply.RetryThenLeaveRestoresIff | CRM-Client/src/composables/useCustomFilterViews.ts:383-410 | In every run, leaving custom views after a retry restores the last built-in view if and only if the saved snapshot, or the empty view if none is saved, looks like it; from and to built-in tabs that is the condition of the rollback |
| ViewApply.EditBeforeRetryIsLost | CRM-Client/src/composables/useCustomFilterViews.ts:406-410 | Apply, fail, edit, retry, fail: a concrete run that loses the edit |
| CustomFilterViews.FilterViews.PerformViewApply | CRM-Client/src/composables/useCustomFilterViews.ts:351-360 | Up to its wait: the state the machine has after starting an apply |
| CustomFilterViews.FilterViews.CompleteViewApply | CRM-Client/src/composables/useCustomFilterViews.ts:360-381 | From the refresh's result on: commit, rollback, or nothing if stale |
| CustomFilterViews.FilterViews.ApplyCustomViewTab | CRM-Client/src/composables/useCustomFilterViews.ts:383-404 | Saves the built-in snapshot when leaving a built-in tab and starts the apply; unknown tabs change nothing |
| CustomFilterViews.FilterViews.RetryViewApply | CRM-Client/src/composables/useCustomFilterViews.ts:406-410 | Applies the pending target again with the old rollback target |
| CustomFilterViews.FilterViews.OnStateChange | CRM-Client/src/composables/useCustomFilterViews.ts:151-181 | The watcher: one suppressed change, cancellation by an edit, or a new committed snapshot |
| CustomFilterViews.FilterViews.ConsumeFailedViewApply | CRM-Client/src/composables/useCustomFilterViews.ts:412-416 | Clears the failed tab only if it is this one |
| CustomFilterViews.FilterViews.ApplyBuiltInTab | CRM-Client/src/composables/useCustomFilterViews.ts:418-444 | Invalidates the current request and restores the saved built-in snapshot |
| SseFraming.FramesResume | CRM-Client/src/api/agent.ts:266-273 | For either separator, framing can stop anywhere and resume with the tail: frames and tail of a text are those of its first part, then those of the first part's tail with the rest |
| AssistantFraming.FramesAreChunkInvariant | CRM-Client/src/api/assistant.ts:108-134 | For every stream without CR CR LF and every chunking, all blocks of the pushes and the flush are those of the text normalised once and cut at blank lines |
| AssistantFraming.ChunkInvariantIff | CRM-Client/src/api/assistant.ts:110-131 | The blocks of the pushes together with the buffer are the same for all chunkings of a text if and only if it has no CR CR LF |
| AssistantBlocks.BlocksAreThoseOfTheText | CRM-Client/src/api/assistant.ts:108-134 | Without a CR CR CR LF and without a blank line after a CR CR LF, the blocks of every chunking are those of the text normalised twice |
| AssistantBlocks.BlocksAreChunkInvariantIff | CRM-Client/src/api/assistant.ts:108-134 | The blocks returned are the same for all chunkings if and only if there is no CR CR CR LF and no blank line after a CR CR LF; for every text except those without such a blank line in which only white space follows the first CR CR CR LF |
| AssistantBlocks.CuttingBeforeBlankDiffers | CRM-Client/src/api/assistant.ts:111-121 | For every text with a blank line after a CR CR LF, cutting behind it gives other blocks than not cutting |
| AssistantBlocks.BlocksCanDiffer | CRM-Client/src/api/assistant.ts:111-121 | Two chunkings of one text whose blocks differ |
| AssistantStream.SseSplitter.Take | CRM-Client/src/api/assistant.ts:110-127 | Returns the blocks of the normalised buffer and keeps its tail, although a final CR is held back; a final call adds a non-blank tail and empties the buffer |
| AssistantStream.SseSplitter.Push | CRM-Client/src/api/assistant.ts:128-131 | The same for the buffer with a chunk appended |
| AssistantStream.FirstFrame | CRM-Client/src/api/assistant.ts:116-121 | The first `\n\n` ends the first frame, and without one there is none |
| AssistantStream.ParseSseBlock | CRM-Client/src/api/assistant.ts:92-105 | The last event line and all data lines, `null` if both are empty |
| AssistantRoundTrip.FrameOfLines | CRM-Client/src/api/assistant.ts:92-105 | A block of any lines, with LF, CRLF or CR between them, is the frame of its last event line, trimmed, and of all its data lines in order; `null` if both are empty |
| SseFraming.Trimmed | CRM-Client/src/api/assistant.ts:98 | Trimming takes away exactly the white space at both ends |
| AssistantRoundTrip.RoundTrip | CRM-Client/src/api/assistant.ts:92-134 | Any list of plain events, written with LF or CRLF, cut into any chunks, split and parsed, is the list again |
| AssistantAnswers.CallsFit | CRM-Client/src/api/assistant.ts:149-266 | Whatever the blocks: one call for each frame before the first that stops, in order, with that frame's own fields and the turn in force; an incomplete waiting or error gives onTerminalInvalid with its issues; then the call of the waiting or error that ends the turn, or onNetworkLost if none does or a payload is `null` |
| AssistantAnswers.FittingCallsAreUnique | CRM-Client/src/api/assistant.ts:149-266 | No other list of calls fits that description |
| AssistantStream.SubmitStream.Deliver | CRM-Client/src/api/assistant.ts:149-216 | One block: which handler is called with what, whether the stream stops, and the exception of a `null` payload; what these calls are is said by AssistantAnswers.CallsFit |
| AssistantStream.SubmitStream.Submit | CRM-Client/src/api/assistant.ts:218-266 | For every connection, chunking and point of failure the handlers get exactly the calls of the blocks received |
| AssistantStream.ExactlyOneEndAndNothingAfter | CRM-Client/src/api/assistant.ts:143-266 | Exactly one of onWaiting, onError and onNetworkLost is called, and it is the last call |
| AssistantStream.CallsDependOnTextOnly | CRM-Client/src/api/assistant.ts:245-256 | Under the condition on the blocks the handler calls do not depend on the chunking |
| AssistantRoundTrip.WrittenEventsAreAnswered | CRM-Client/src/api/assistant.ts:149-256 | End to end: the calls for a server's written events are the ones those events ask for, in the sense of CallsFit |
| AssistantRoundTrip.LastEventNeedsNoBlankLine | CRM-Client/src/api/assistant.ts:122-126 | If the stream simply ends, its last event is handled with or without a line end behind it, unless its data ends in white space |
| AssistantRoundTrip.BrokenStreamLosesItsTail | CRM-Client/src/api/assistant.ts:245-266 | If the connection breaks instead, an event without its blank line is not handled |
| AgentStream.ChatStream.ProcessFrame | CRM-Client/src/api/agent.ts:253-264 | One frame: ignored, delivered, `done`, or an exception |
| AgentStream.ChatStream.Chat | CRM-Client/src/api/agent.ts:248-281 | For every chunking, the delivered events and how the call ends are a function of the text (and of a failing read) |
| AgentStream.OutcomeFits | CRM-Client/src/api/agent.ts:145-166 | That outcome: payloads in order up to the first `done`, stopping at the first invalid one, "ended before done" exactly without `done` and `transport_error` |
| AgentStream.FittingIsUnique | CRM-Client/src/api/agent.ts:253-281 | No other outcome meets that description |
| AgentRoundTrip.BodyGivesTexts | CRM-Client/src/api/agent.ts:160-166 | The data lines of a frame are found, whatever the line ends and other lines, and lose the spaces after the colon only |
| AgentRoundTrip.WrittenEventsAreDelivered | CRM-Client/src/api/agent.ts:160-166 | Events a server writes up to `done`, each over any number of data lines, among other lines, with LF and CRLF in any mixture, are all delivered and the call returns, whatever follows |
| AgentRoundTrip.LastEventNeedsNoBlankLine | CRM-Client/src/api/agent.ts:275-281 | A last frame without a blank line, with or without a line end, is processed when the stream ends, and `done` in it completes the conversation |
| PollScheduler.MergedListsAre | CRM-Client/src/composables/useAgentAsyncOperations.ts:76-91 | For lists without duplicates: the incoming operations in order, each merged with its current projection, then the current ones that did not come in |
| PollScheduler.MergeIsKeyUnion | CRM-Client/src/composables/useAgentAsyncOperations.ts:76-91 | The merged list has no duplicates and exactly the ids of both |
| PollScheduler.NewerWins | CRM-Client/src/components/agent/agentAsyncOperations.ts:223-242 | Of two projections the one from the server beats a provisional one; otherwise the greater sequence wins, then the later update, then the incoming one |
| PollScheduler.StoredInItsPlace | CRM-Client/src/components/agent/agentAsyncOperations.ts:244-256 | One projection is merged in the place of its operation, or put behind all others; nothing else in the list changes |
| PollScheduler.PagesWantedIsLeast | CRM-Client/src/composables/useAgentAsyncOperations.ts:179-185 | The number of pages asked for is the least, at least one, that covers both the announced page count and the announced total |
| PollScheduler.LoadAsksForEveryPage | CRM-Client/src/composables/useAgentAsyncOperations.ts:177-195 | In every run a load of the session shown completes with a page if and only if that is the last one the first page announced, and then the old list is merged with all of them; before, only the load changes |
| PollScheduler.PageIsAt | CRM-Client/src/composables/useAgentAsyncOperations.ts:192 | The pages are laid out last page first, each in its own order, with nothing in between |
| PollScheduler.AskedAtOnce | CRM-Client/src/composables/useAgentAsyncOperations.ts:136-142 | In every run an acknowledged operation, and one whose timer fires, is asked for at once in the current generation |
| PollScheduler.OneTimerPerOperation | CRM-Client/src/composables/useAgentAsyncOperations.ts:107-142 | In every run an operation has at most one armed timer, of the current generation |
| PollScheduler.SwitchStartsAfresh | CRM-Client/src/composables/useAgentAsyncOperations.ts:136-201 | After any run, a switch of session and any further events: list, timers, session and the requests of the current generation are those of a client that has just opened the session and saw the same further events |
| PollScheduler.ErasingOldAnswersChangesNothing | CRM-Client/src/composables/useAgentAsyncOperations.ts:144-187 | Erasing from the further events every answer, page, failure and timer that such a client has not itself started leaves the same |
| PollScheduler.DisposalForgetsRequests | CRM-Client/src/composables/useAgentAsyncOperations.ts:214-217 | After any run and a disposal, what was requested before has no effect on the rest of the run |
| PollScheduler.PollingCoversOperations | CRM-Client/src/composables/useAgentAsyncOperations.ts:136-217 | In every sound run every stored operation that is not terminal has a timer or a poll of the current generation, except from a disposal to the next resume, load or switch |
| PollScheduler.CoverageIsKeptIff | CRM-Client/src/composables/useAgentAsyncOperations.ts:136-212 | Apart from disposal, an event keeps that coverage if and only if it is sound |
| PollScheduler.AnswerKeepsCoverageIff | CRM-Client/src/composables/useAgentAsyncOperations.ts:144-159 | For any list and any answer: a terminal answer keeps the coverage if and only if another poll is in flight or it replaces every running entry with that id; another answer if and only if what it stores is polled |
| PollScheduler.LoadCoversIff | CRM-Client/src/composables/useAgentAsyncOperations.ts:190-200 | A completed load covers everything, whatever was polled before, if and only if no id in the merged list ends terminal after being running, unless a poll is in flight |
| PollScheduler.ListsStayUnique | CRM-Client/src/composables/useAgentAsyncOperations.ts:76-91 | If the pages of a load never repeat an operation, no list ever does |
| PollScheduler.UniqueListsAreTidy | CRM-Client/src/composables/useAgentAsyncOperations.ts:200-212 | Then loads and resumes always cover everything |
| PollScheduler.PageShiftStopsPolling | CRM-Client/src/composables/useAgentAsyncOperations.ts:179-200 | A concrete run in which a page shift leaves a running operation unpolled |
| PollScheduler.OldTerminalAnswerStopsPolling | CRM-Client/src/components/agent/agentAsyncOperations.ts:223-242 | A concrete run in which a stored running operation is no longer polled |
| OperationPolling.OperationsController.ClearPollTimers | CRM-Client/src/composables/useAgentAsyncOperations.ts:113-116 | Disarms every timer of the table and empties it |
| OperationPolling.OperationsController.SchedulePoll | CRM-Client/src/composables/useAgentAsyncOperations.ts:136-142 | Arms a timer unless the generation is old or there is one |
| OperationPolling.OperationsController.PollAnswered | CRM-Client/src/composables/useAgentAsyncOperations.ts:144-159 | An answer or a failure: merged, cleared, or scheduled again, as the machine says |
| OperationPolling.OperationsController.LoadSession | CRM-Client/src/composables/useAgentAsyncOperations.ts:169-177 | A switch of session starts a new generation with an empty list and no timer |
| OperationPolling.OperationsController.PageArrived | CRM-Client/src/composables/useAgentAsyncOperations.ts:177-201 | A page is dropped, kept for later, or completes the load: last page first, merged, everything polled |
| OperationPolling.OperationsController.AcknowledgeScheduled | CRM-Client/src/composables/useAgentAsyncOperations.ts:203-208 | Stores the provisional projection and polls at once |
| OperationPolling.OperationsController.ResumePolling | CRM-Client/src/composables/useAgentAsyncOperations.ts:210-212 | Every stored operation is polled or, if terminal, its timer cleared |
| OperationPolling.OperationsController.Dispose | CRM-Client/src/composables/useAgentAsyncOperations.ts:214-217 | A new generation without timers |
| OperationPolling.MergeOperationLists | CRM-Client/src/composables/useAgentAsyncOperations.ts:76-91 | The loop computes the merge the lemmas are about |
| TeamIsolation.ParentsAreCopiedOnceForEachTeam | CRM-Server/migrations/add_team_isolation_phase1.py:53-96 | Each team's mapping is a bijection from the template parents onto the team's own new rows, which equal their templates up to id and team (that these are fresh: CopiedTablesKeepTeamsApart) |
| TeamIsolation.ChildrenFollowTheirParents | CRM-Server/migrations/add_team_isolation_phase1.py:99-138 | Each team has one copy of each child, with its data and with the team's own copy of the referenced parent |
| TeamIsolation.NoChildCrossesTeams | CRM-Server/migrations/add_team_isolation_phase1.py:117-127 | If template children reference template parents, every new child references a new parent of its own team (that no other row has that id: CopiedTablesKeepTeamsApart) |
| TeamIsolation.CopiedTablesKeepTeamsApart | CRM-Server/migrations/add_team_isolation_phase1.py:53-138 | On the final tables ids are unique and new ids fresh, and if template children reference template parents, every copied child has a parent row and every parent row with that id, old or new, is of its team |
| TeamIsolation.NoParentsNoChildren | CRM-Server/migrations/add_team_isolation_phase1.py:108-113 | Without template parents no child is copied |
| TeamIsolation.CopiesAreNoTemplates | CRM-Server/migrations/add_team_isolation_phase1.py:67-70 | Inserting copies does not change what the next team's query selects |
| TeamTables.TemplatesAreTheTeamless | CRM-Server/migrations/add_team_isolation_phase1.py:67-71 | The rows selected are all rows without a team, in order and as often as they are in the table |
| TeamTables.EveryPlaceIsTaken | CRM-Server/migrations/add_team_isolation_phase1.py:82-93 | Every new row is the copy of a row without a team for one team |
| TeamTables.PlacesDiffer | CRM-Server/migrations/add_team_isolation_phase1.py:82-93 | No new row is a copy twice: different teams and rows have different places |
| TeamTables.CopiedTablesFollow | CRM-Server/migrations/add_team_isolation_phase1.py:53-138 | Parents and children together: each team's copy of a child references that team's copy of the same parent, and without a parent to copy no child is copied |
| TeamUpgrade.Table.CopyParentTableData | CRM-Server/migrations/add_team_isolation_phase1.py:53-96 | Old rows stay; for each team and each row without a team, in order, one new row with that team, a fresh id and the same columns follows; the mapping returned leads from old to new ids and knows no others |
| TeamUpgrade.Table.CopyChildTableData | CRM-Server/migrations/add_team_isolation_phase1.py:99-138 | Old rows stay; for each team with a mapping and each row without a team one new row follows, with its foreign key mapped |
| TeamUpgrade.Upgrade | CRM-Server/migrations/add_team_isolation_phase1.py:173-189 | On the tables themselves: all three parent tables and both child tables have one new row for each team and each row without a team, and no others; a copied child has the id of its own team's copy of its parent; ids are unique, new ones fresh, and copied children reference parents of their own team only |
| DesignSystemDocs.LinkVisitor.Visit | CRM-Docs/scripts/check-design-system-docs.js:68-73 | Ends on every graph, cycles included: it adds only names that are reached, with all their links visited, or raises because a chain of links leaves the files |
| DesignSystemDocs.VisitedIsReachable | CRM-Docs/scripts/check-design-system-docs.js:67-74 | From nothing visited, a name is visited if and only if a chain of links leads to it |
| DesignSystemDocs.EdgeIsALink | CRM-Docs/scripts/check-design-system-docs.js:48-64 | One file leads to another if and only if one of its links does, whether or not its anchor is found, and the other is a Markdown file |
| DesignSystemDocs.BuildGraph | CRM-Docs/scripts/check-design-system-docs.js:31-65 | The graph has a node for each file and an edge for each existing Markdown target, and broken links and anchors are reported exactly |
| DesignSystemDocs.ValidateDesignSystem | CRM-Docs/scripts/check-design-system-docs.js:67-81 | Raises if and only if a chain from README.md leaves the files; otherwise reports a file unreachable if and only if it is not ignored and no chain leads to it |
| MessageMigration.CompletesIffAllValid | CRM-Server/scripts/migrate_agent_messages.py:67-109 | Without faults the run completes if and only if every message beyond the cursor is valid, and otherwise fails for invalid source data |
| MessageMigration.InvalidDataIsThere | CRM-Server/scripts/migrate_agent_messages.py:135-140 | Whatever faults occur, a run that reports invalid source data has an invalid message beyond its cursor |
| MessageMigration.CompletedRunMigratesAll | CRM-Server/scripts/migrate_agent_messages.py:44-64 | A completed run has given every message beyond the cursor its target and changed nothing else; its final report counts exactly those messages in source, target and validated rows, the written ones in migrated rows, has as many batches as they take, and ends with the id of the last |
| MessageMigration.PendingIdsIncrease | CRM-Server/app/services/agent/message_migration.py:101-108 | Ids are written in increasing order, so none twice |
| MessageMigration.PendingIdsAre | CRM-Server/app/services/agent/message_migration.py:101-108 | The ids written are exactly those of the messages in the stretch that had no target |
| MessageMigration.BatchesAreLinked | CRM-Server/scripts/migrate_agent_messages.py:80-100 | In every run, failed or not, each batch reported is read from behind the last id of the one before, ends with the message its last id names, counts the messages in between, and says whether there are more |
| MessageMigration.ResumedRunEqualsUninterrupted | CRM-Server/scripts/migrate_agent_messages.py:143-179 | A failed run resumed with the cursor read from any report it can leave on disk, `last_id` or else `start_after_id`, with any batch size, leaves the messages of an uninterrupted run and has written the same ids, none twice, also if a commit took effect but raised or a report could not be written |
| MessageMigration.RunMigratesAStretch | CRM-Server/scripts/migrate_agent_messages.py:80-100 | Every run, failed or not, has migrated one stretch from its cursor on, and none of its reports says to go on beyond it |
| MessageMigration.MigrationScript.MigrateBatch | CRM-Server/app/services/agent/message_migration.py:97-206 | One transaction: the next rows by id, all or none |
| MessageMigration.MigrationScript.RunMessageMigration | CRM-Server/scripts/migrate_agent_messages.py:67-109 | The batch loop, which ends, with the progress report after each batch |
| MessageMigration.MigrationScript.ExecuteMessageMigration | CRM-Server/scripts/migrate_agent_messages.py:143-179 | Exit 0 exactly on completion with the final report written; the report on disk has the status and failure code of what happened and is one from which the run can be resumed |
| PermissionCodes.Step1MovesGrants | CRM-Server/scripts/migrate_permission_codes.py:155-212 | Exactly how many rows give a role a code after step 1: none for a redundant code, else those it had plus those of the codes merged into it, if the permission exists |
| PermissionCodes.MergeIsKeptIff | CRM-Server/scripts/migrate_permission_codes.py:186-199 | A role holding a redundant code holds its target afterwards if and only if the target's permission exists |
| PermissionUpdates.RedundantFits | CRM-Server/scripts/migrate_permission_codes.py:18-25 | The script's own list names each code once and deletes no target |
| PermissionUpdates.UpdatesFitTheirConditions | CRM-Server/scripts/migrate_permission_codes.py:30-141 | The script's own 90 rows: keys are distinct, so are new codes, a new code that is also a key belongs to that key alone, and none is redundant |
| PermissionUpdates.ScriptTwiceIsOnce | CRM-Server/scripts/migrate_permission_codes.py:155-261 | The script with its own tables, run twice, does what it does when run once |
| PermissionCodes.Step2KeepsRows | CRM-Server/scripts/migrate_permission_codes.py:215-261 | Step 2 keeps every grant and every permission's id, and ids, codes and names stay unique |
| PermissionCodes.MigratingTwiceIsOnce | CRM-Server/scripts/migrate_permission_codes.py:155-261 | For any tables that meet the conditions, running both steps twice is running them once |
| PermissionCodes.Step2RaisesIff | CRM-Server/scripts/migrate_permission_codes.py:215-261 | Step 2 raises if and only if some update applies to the table it is given and assigns a name that another row has by then; otherwise each row is the original one with its own update, if that applies |
| PermissionCodes.Step2WritesRows | CRM-Server/scripts/migrate_permission_codes.py:240-251 | After step 2 a row whose update applies has that update's code, name, resource, action and scope and its own id and other columns; every other row is unchanged |
| PermissionCodes.UpdatedIsApplying | CRM-Server/scripts/migrate_permission_codes.py:253-261 | The number of updates reported is that of the updates that apply to the table step 2 is given |
| PermissionCodes.HeldAfterBoth | CRM-Server/scripts/migrate_permission_codes.py:155-261 | After both steps a role holds a code through the rows of the code that goes by it now and those of the redundant codes merged into that one, counted in the original table, and nothing else |
| PermissionUpdates.ScriptHolds | CRM-Server/scripts/migrate_permission_codes.py:18-261 | Both for the script with its own tables |
| PermissionCodes.TargetCreatedTooLate | CRM-Server/scripts/migrate_permission_codes.py:186-204 | A role loses its permission although the target exists in the end |
| PermissionCodes.PermissionTables.DeleteRedundantPermissions | CRM-Server/scripts/migrate_permission_codes.py:155-212 | The loop's tables are those of step 1 |
| PermissionCodes.PermissionTables.UpdatePermissions | CRM-Server/scripts/migrate_permission_codes.py:215-261 | The loop's tables are those of step 2, or a name clash raised |
| PermissionCodes.PermissionTables.Migrate | CRM-Server/scripts/migrate_permission_codes.py:355-397 | Both steps, or after an exception the tables as they were |

## Left out

- Services behind the maintenance commands: known by their promises only (verification succeeds only against an equal journal, journal reads that return are truthful, the run writes the journal row and stages inside its transaction; the cutover's run deletes nothing once committed).
- Exit codes of uncaught exceptions: status 1 stands for them too. In the cleanup of operation history an exception other than OSError or the service's own error escapes from the removal of a stale stage; the other two commands return 1 there.
- MySQL details: table locks and their implicit commits, autocommit, chmod, and the non-MySQL branch. A commit that raises is decided by the time the call returns; a failed fsync leaves the directory operations pending. A rollback is effective even if it raises: in the scripts `UNLOCK TABLES` follows in the `finally` block, and on a connection that is still open it would commit implicitly what a rollback that raised without effect has left.
- Report contents: a report is a status and, if completed, its result; failure codes of the maintenance reports, blockers and formatting are not modelled. The temporary file behind each rename is not an entity of its own.
- Durability of exit 0 on an output already COMPLETED: nothing is synced on that path, so visibility and recoverability are claimed.
- CheckpointCutover.CommittedReceiptSurvives: assumes that every roll-forward found its stage durable, because the code does not ensure it; the exact condition and the failing run are proved.
- ViewApply.IdleViewIsCommitted: excludes a retry after an edit, because the code does not ensure it there; ViewsAreKeptIff makes the condition exact for every event.
- ViewApply.LeavingCustomViewsUndoesThem: is about runs whose retries and edits enter custom tabs with the right snapshot saved, because the code does not ensure it in others; ViewsAreKeptIff and EnteringThenLeavingRestoresIff make the condition exact for every such event, and UnknownCustomTabLosesView is a run that violates it.
- AssistantBlocks.BlocksAreChunkInvariantIff: does not decide texts with a CR CR CR LF in which only white space follows the first one and no blank line follows a CR CR LF. There it depends on how the trailing white space collapses: "a", CR, CR, CR, LF always gives one block "a".
- Custom views: aliasing of cloned snapshots, creation, renaming, deletion and reordering on the server, toasts and dialogs. Their writes to the list state are edits.
- Streams: fetch, UTF-8 decoding, JSON and schemas. Decoding a payload is a parameter; handlers do not raise. The agent client's errors before the first read (HTTP status, missing body) are not modelled.
- PollScheduler.PollingCoversOperations: is about runs of sound events, because the code does not ensure coverage in others; CoverageIsKeptIff makes the condition exact for every event, and two runs that violate it are given.
- Polling: notifications to the page (changed, waiting for the user, terminal) and real time.
- TeamUpgrade.Table.Insert: ids are consecutive; gaps left by other sessions are not modelled. Columns other than the foreign key are one value. The downgrade and a second upgrade (which copies again) are left out.
- DesignSystemDocs.ValidateDesignSystem: says which violations are reported, not in which order; line limits, forbidden text, link parsing and an anchor on a directory are left out.
- MessageMigration.ResumedRunEqualsUninterrupted: whether a message is valid and what its target is depends on that message alone, and a migrated message stays valid; the service also looks at neighbouring rows. Checksums are left out.
- PermissionCodes.PermissionTables.Migrate: steps 3 to 5 of the script (action codes, counts, cache) are left out.
- Other readers of event streams, dialog guards, context stacks, permission grouping: smaller copies or easy facts.
