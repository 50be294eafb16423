# Strata: a verified model

This project models the parts of Strata, a desktop Git client with built-in agents, that keep
state, run protocols or parse text, and proves what they promise over every input and every run.

| area | modules |
|---|---|
| Durable agent goals: the write-ahead journal of tool calls, crash recovery, usage accounting, the status machine, steering | `ToolJournal`, `JournalSteps`, `JournalRuns`, `SliceAccounting`, `SliceBills`, `AgentGoal`, `GoalSteps`, `GoalRuns`, `Steering`, `GoalStatus` |
| The registry of running agents with cancellations that may arrive first | `RunRegistry`, `CancellationLog`, `RegistryRuns` |
| One-shot tool approvals | `ToolApprovals` |
| Template expressions and attribute names | `Expression`, `SealedText`, `PrintedTrees`, `ExpressionTrees`, `LooseTrees`, `AttributeCase` |
| Conflict markers and the line splice of the conflict editor | `TextLines`, `ConflictMarkers`, `LineSplice` |
| Commits reachable from HEAD | `CommitGraph` |
| The canonical work-tree snapshot and the transactional commit of a group | `EntryOrder`, `ChangeEvidence`, `CommitGroup` |
| Bounded history evidence | `HistoryEvidence` |
| Shared: options, byte lengths of texts | `Options`, `Utf8` |
| The 64-bit FNV-1 fold (section 2 of draft-eastlake-fnv) behind workspace digests and session ids | `WorkspaceDigest` |

Code that updates state in place is a class or a method with loops, proved against functions on
values; the results about whole runs are lemmas about those functions. Runs are sequences of
events. An event stands for one critical section or one mutation of the program, and one that
cannot happen in a state changes nothing, so every statement about a run covers every interleaving.

Files, diffs, clocks, save failures, the model provider, the verifier, the plan builder, the
snapshot hasher and the values of the host language are parameters or arbitrary functions.

## Where the program falls short of its own description

- One file written under two spellings of its path, such as `src/a.txt` and `src//a.txt`, ends with
  receipts that do not match it, although nobody else wrote it (`JournalRuns.TwoSpellingsConflict`):
  resources are compared as they are spelled, and paths are resolved by their components.
- Reconciling a goal while a write may still take effect drops the intent, and the file stays
  unexplained until something else touches it (`JournalRuns.LateEffectIsUnexplained`,
  `JournalRuns.StaysUnexplained`). A cancellation blocks a goal while its tool is still running, and
  a status query then reconciles it (`JournalRuns.LateEffectHappens`).
- A reconciliation stores what it found on a snapshot without looking at the goal again: an old
  receipt can come after a newer one (`JournalRuns.StaleFindingsConflict`; when exactly:
  `JournalRuns.StaleFindings`), and a completed goal can be paused (`GoalRuns.CompletedIsReopened`).
- A failed write stays pending, and becomes ambiguous when it is tried again with other contents
  (`JournalRuns.RetriedWriteIsAmbiguous`; when exactly: `JournalRuns.AmbiguousExactly`).
- A requested pause is lost at three events (`GoalRuns.PauseLostExactly`, `GoalRuns.PauseIsLost`);
  between them it holds (`GoalRuns.PauseHolds`).
- A cancelled goal can be revived by changes that do not look at the status
  (`GoalRuns.RevivedExactly`, `GoalRuns.CancelledGoalRevives`); a completed one only by the findings
  of an earlier reconciliation (`GoalRuns.CompletedChangesExactly`, `GoalRuns.CompletedIsFinal`).
- Cancelling a goal resets the counters of its open slice although they were billed
  (`SliceAccounting.CancelledUsageIsLost`; when exactly anything is missing:
  `SliceAccounting.PlainExactly`), and a goal that is then revived never gets them back
  (`GoalRuns.RevivedGoalLosesSlice`).
- A steering message that still waits when its goal is cancelled is lost to a goal that is revived
  (`Steering.ClearedIsLost`; when exactly: `Steering.DeliveredOnceInOrder`).
- A steering message that arrives after the goal was read for its completion does not stop the
  completion (`GoalRuns.LateSteeringIsMissed`, `GoalRuns.LateSteeringHappens`).
- A repeated cancellation does not renew the one that waits (`RegistryRuns.RepeatedCancelIsNotRenewed`).
- With a repeated approval id a call can be denied although nobody decided on it
  (`ToolApprovals.RepeatedIdMayBeDenied`; when exactly: `ToolApprovals.DeniedByNobodyExactly`).
- Quotes do not protect `=` and `!` in a template expression (`ExpressionTrees.QuotedTextExactly`).
- Picking a side in the conflict editor leaves a blank line behind when the picked side is empty,
  and glues lines when the region starts at the end (`LineSplice.SpliceIsExact`).
- `create_agent_goal` returns without finishing its registration exactly when the work tree cannot
  be digested (`RegistryRuns.CreateRestoresExactly`); the goal and its resource then stay busy
  (`RegistryRuns.FailedDigestStaysBusy`).

## Model

| member | source | states |
|---|---|---|
| ToolJournal.ClassifyPendingIntents | app/src-tauri/src/agent_run_manager.rs:1165-1224 | The loop sorts every pending intent in order: reads are discarded, a `filesystem.write` or `patch.apply` whose resource and digests are known is recovered, tried again or ambiguous by the digest of its file, everything else is ambiguous; it fails exactly when the repository cannot be opened or a file that decides cannot be read. |
| ToolJournal.ClassesPartition | app/src-tauri/src/agent_run_manager.rs:1170-1222 | Every intent is in exactly one of discard, recovered, retry and ambiguous, as often as it is pending. |
| ToolJournal.ResolvedExactly | app/src-tauri/src/agent_run_manager.rs:1150-1162 | The resolved ids are exactly the ids of intents that are not ambiguous. |
| ToolJournal.LeavesTheAmbiguous | app/src-tauri/src/agent_run_manager.rs:191-194 | What stays pending is the ambiguous subsequence in order if and only if no ambiguous intent has the id of a resolved one. |
| ToolJournal.GoalJournal.ReconcilePending | app/src-tauri/src/agent_run_manager.rs:140-214 | The recovery reads a snapshot and changes the goal as it is by then: only snapshots that are recoverable lead to a change, which resolves the intents found, sets status and reasons and tells the model of a retry; a repository or file that cannot be read changes nothing, and the answer is that of the snapshot. |
| ToolJournal.FindingsExactly | app/src-tauri/src/agent_run_manager.rs:145-185 | When a snapshot leads to findings, and what they say of its intents and files: the ids resolved, the receipts recovered, and whether any intent is ambiguous or tried again. |
| ToolJournal.ReconciliationResolves | app/src-tauri/src/agent_run_manager.rs:179-213 | Receipts grow by exactly the recovered ones; the answer yes is the same as nothing left pending, unless all ambiguous intents had the id of a resolved one. |
| ToolJournal.ReconcilingAgainChangesNothing | app/src-tauri/src/agent_run_manager.rs:140-214 | A second reconciliation on unchanged files adds no receipt and removes no intent, whatever the ids; it is the identity if and only if no ambiguous intents vanished in the first. |
| ToolJournal.DistinctIdsNeverVanish | app/src-tauri/src/agent_run_manager.rs:191-194 | With distinct ids exactly the ambiguous intents are left, and none vanish. |
| ToolJournal.VanishingHappens | app/src-tauri/src/agent_run_manager.rs:150-162 | That the ids differ is needed: of two writes of one id, one ambiguous and one recovered, a reconciliation removes both, and the goal is blocked on nothing. |
| ToolJournal.GoalJournal.RecordReceipt | app/src-tauri/src/agent_run_manager.rs:982-997 | A receipt removes the intents of its id and is appended, unless the goal is finished. |
| ToolJournal.GoalJournal.RecordNoEffect | app/src-tauri/src/agent_run_manager.rs:1029-1043 | A call without effect removes the intents of its id, unless the goal is finished. |
| ToolJournal.ReceiptsMatchRepository | app/src-tauri/src/agent_run_manager.rs:1098-1135 | The reverse scan with its checked set says yes exactly when every resource matches; otherwise the latest receipt that decides and disagrees gives the answer; a repository that cannot be opened gives none. |
| ToolJournal.MatchByResource | app/src-tauri/src/agent_run_manager.rs:1101-1133 | Checking the deciding receipts is the same as: for each resource the last mutation that is not superseded names the file's digest. |
| ToolJournal.GoalJournal.SupersedeMutations | app/src-tauri/src/agent_session_commands.rs:386-405 | The resume loop adds the id of each mutation that is not yet superseded, and tells the model. |
| ToolJournal.SupersedesEachOnce | app/src-tauri/src/agent_session_commands.rs:386-396 | After it exactly the old ids and all mutation ids are superseded, none twice. |
| ToolJournal.SupersededMatchesAnything | app/src-tauri/src/agent_session_commands.rs:383-405 | Resuming from a workspace conflict makes the receipt check succeed for every state of the files. |
| JournalRuns.RunKeeps | crates/agent-session/src/goal.rs:770-798 | Over every careful run (`JournalSteps.Careful`) of intents, effects, receipts, failed saves, status changes, finished goals, crashes and reconciliations that classify at one time and store at another, memory and disk agree on intents and receipts, and every file, under whatever spelling, is explained by both. |
| JournalRuns.WritesAreNeverAmbiguous | app/src-tauri/src/agent_run_manager.rs:1165-1224 | In no careful run is a complete `filesystem.write` or `patch.apply` intent ambiguous. |
| JournalRuns.SettledBooksMatch | app/src-tauri/src/agent_run_manager.rs:1098-1135 | Whenever no complete write is pending in a careful run, every file is the one last receipted or confirmed, and receipts match if and only if the last receipt of each spelling is the last one of its file. |
| JournalRuns.ReconciliationSettles | app/src-tauri/src/agent_run_manager.rs:140-214 | After a reconciliation in a careful run that nothing interferes with, no write is pending and every file is the known one; it answers yes exactly when only reads and complete writes were pending. |
| JournalRuns.OneSpellingMatches | app/src-tauri/src/agent_run_manager.rs:1098-1135 | With one spelling for each file a settled goal finds its receipts matching. |
| JournalRuns.TwoSpellingsConflict | crates/agent-tools/src/path_scope.rs:114-139 | For any two spellings of one file: a careful run that writes and receipts it under both ends with nothing pending and receipts that do not match. |
| JournalRuns.AmbiguousExactly | app/src-tauri/src/agent_run_manager.rs:1208-1222 | In every run whatsoever a recorded write is ambiguous if and only if the last effect on its file since then left neither of its digests; a patch that meets a changed file may leave any digest. |
| JournalRuns.PendingWasRecorded | app/src-tauri/src/agent_run_manager.rs:962-980 | In every run each pending intent was recorded by a saved event of the run, and memory and disk hold the same intents. |
| JournalRuns.RetriedWriteIsAmbiguous | app/src-tauri/src/agent_run_manager.rs:1208-1222 | A run in which a write fails and is tried again with other contents, after which the first is ambiguous. |
| JournalRuns.LateEffectIsUnexplained | app/src-tauri/src/agent_run_manager.rs:1215-1218 | If a write that is reconciled in a careful run still takes effect, its file is explained if and only if the intent was classified as recovered. |
| JournalRuns.LateEffectHappens | app/src-tauri/src/agent_session_commands.rs:298-320 | A run in which a goal is cancelled while its first write is under way, reconciled, the call given up, and the file left unexplained with nothing pending or under way. |
| JournalRuns.StaysUnexplained | app/src-tauri/src/agent_run_manager.rs:140-214 | After any run and over further crashes and reconciliations, an unexplained file stays so until there is an effect on it, a receipt of it, or the user accepts the files. |
| JournalRuns.ReconciledBeforeReceipt | app/src-tauri/src/agent_run_manager.rs:982-997 | A reconciliation between effect and receipt leads to a second receipt of the call, and every file is still the known one. |
| JournalRuns.StaleFindings | app/src-tauri/src/agent_run_manager.rs:187-204 | Findings of a careful run stored at any later time: a file without pending writes is the known one after it if and only if they have no receipt of it that counts and is no longer true. |
| JournalRuns.StaleFindingsConflict | app/src-tauri/src/agent_run_manager.rs:187-204 | A run with two status queries: the goal is resumed and writes the file again before the second one stores, after which nothing is pending and the receipts do not match. |
| JournalRuns.RefusedResumeIsForgotten | app/src-tauri/src/agent_session_commands.rs:406-418 | A refused resume leaves superseded ids in memory only; a crash brings the disk state back. |
| SliceAccounting.BudgetAccount.AddUsage | crates/agent-runtime/src/lib.rs:32-58 | The checked addition in place: complete sum, or exactly the fields before the one that overflows. |
| SliceAccounting.FoldedCapsCached | crates/agent-session/src/engine.rs:1253-1268 | Whatever figures the provider reports, the usage of a step has no more cached than input tokens. |
| SliceAccounting.GoalBooks.CommitCheckpoint | app/src-tauri/src/agent_run_manager.rs:603-632 | The commit charges the account of the current model, counts, and either stores the open slice or advances the index and resets the counters; a failure keeps what was done before it. |
| SliceAccounting.AtomicExactlyBelowLimits | app/src-tauri/src/agent_run_manager.rs:1274-1294 | A step stays in its slice if and only if the engine asked for no boundary and time, tokens and bytes are all below their limits, compaction included. |
| SliceAccounting.CommitKeepsLimits | app/src-tauri/src/agent_run_manager.rs:624-632 | Stored slice counters are strictly below their limits. |
| SliceAccounting.BillIsSliceGrowth | app/src-tauri/src/agent_run_manager.rs:516-577 | What a step bills is what its slice grows by, cached input and compactions included, for all figures of the provider. |
| SliceBills.StepUsageExactly | crates/agent-session/src/engine.rs:1253-1268 | A step is reported exactly if its figures together are within every limit, and then with all of them, cached input capped response by response. |
| SliceBills.PlanBillsWhatIsUsed | app/src-tauri/src/agent_run_manager.rs:516-586 | The bill is the step and the compaction that ran, and the slice grows by the same; a compaction runs exactly if the engine asked for a boundary other than the budget, or for none while time, input, output or bytes reached a limit without it. |
| SliceBills.PlanEndsSlice | app/src-tauri/src/agent_run_manager.rs:528-586 | The slice ends where the engine says, or at the first limit reached in the order of time, input, output and bytes, or by the time of the compaction. |
| SliceBills.PlannedExactly | app/src-tauri/src/agent_run_manager.rs:516-586 | A reported step is planned exactly if its model has an account that can be charged and no sum overflows. |
| SliceBills.BilledIsUsed | app/src-tauri/src/agent_run_manager.rs:516-632 | Over every run without overflow each account holds exactly the committed steps, the compactions that ran and the direct charges while its model was the goal's, and costs what that usage costs. |
| SliceBills.SwitchTakesOver | app/src-tauri/src/agent_session_commands.rs:406-412 | A model switch changes whose account the next steps are charged to, and no account. |
| SliceAccounting.UsageIsConserved | app/src-tauri/src/agent_run_manager.rs:516-632 | Over every run, with steps planned on a snapshot and committed to the books as they are then, model switches, failed plans and saves, and clearings of the goal, what is billed to all models is closed slices, open slice, direct charges, what clearings dropped, and what a runner still holds of a cleared slice, cached input included; counters stay below limits, and the slice index counts the boundaries. It holds until a counter of the goal overflows. |
| SliceAccounting.PlainExactly | app/src-tauri/src/agent_run_manager.rs:516-632 | Closed slices, open slice and direct charges make up the bill if and only if no event lost anything and the open slice is the one the runner has read; an event loses usage exactly if it clears an open slice that nobody has read, or ends the hold of a runner on one cleared since. |
| SliceAccounting.CancelledUsageIsLost | crates/agent-session/src/goal.rs:494-512 | A goal is cancelled after its first step: the usage of the step is billed, and in no slice. |
| SliceAccounting.OverflowUnbalances | app/src-tauri/src/agent_run_manager.rs:606-615 | The exception is needed: 2^23 small steps overflow the response counter, and the commit that fails has charged its account before. |
| AgentGoal.GoalRecord.RequestCancel | app/src-tauri/src/agent_session_commands.rs:298-320 | Cancelling clears a goal whose pending intents only read, the counters of its open slice included, and blocks any other. |
| AgentGoal.GoalRecord.RequestPause | app/src-tauri/src/agent_session_commands.rs:256-280 | A request to pause is accepted exactly for goals that are not finished, whatever else their status is. |
| AgentGoal.CheckpointOutcome | app/src-tauri/src/agent_run_manager.rs:633-658 | After a checkpoint a goal is blocked, paused or as before under these exact conditions: a blocking boundary wins over the budget, the budget over the user; every pause and block has its reason and no requested pause is left open. |
| AgentGoal.CandidateOutcome | app/src-tauri/src/agent_run_manager.rs:697-711 | Storing a candidate changes the status of a goal if and only if a pause was requested, and then pauses it for the user. |
| AgentGoal.ResultOutcome | crates/agent-session/src/goal.rs:800-830 | A result completes exactly the goals that are not finished; a completed goal has no candidate, intent, unseen message or usage in its slice and gives no reason, and a second result changes nothing. |
| AgentGoal.StopOutcome | app/src-tauri/src/agent_run_manager.rs:240-283 | A runner that stops leaves a resting goal with its reason; a goal that rested is unchanged, any other tells by its state which error it was, and only a cancellation clears it and the counters of its slice. |
| GoalRuns.ReasonsAreGiven | app/src-tauri/src/agent_run_manager.rs:253-289 | In every visible state of every run a paused goal has a pause reason and a blocked goal a block reason. |
| GoalRuns.HeadDecides | app/src-tauri/src/agent_run_manager.rs:309-383 | What a runner does with a goal it has looked at: intents block it, a changed work tree under effects or receipts that do not match are a conflict, and it is taken up otherwise. |
| GoalRuns.CheckpointEndsRun | app/src-tauri/src/agent_run_manager.rs:666-675 | After a checkpoint the runner stops exactly if the budget is exceeded or the goal is paused or blocked. |
| GoalRuns.PauseHolds | app/src-tauri/src/agent_run_manager.rs:634-658 | Over every run: after an accepted pause, if none of the three losing events comes before the next checkpoint or candidate, the goal rests after it, with its reason, and is paused or blocked unless it was cancelled meanwhile. |
| GoalRuns.CommitHonoursPause | app/src-tauri/src/agent_run_manager.rs:634-658 | A checkpoint or candidate committed while a pause is requested ends paused or blocked; blocked exactly at the two blocking boundaries. |
| GoalRuns.PauseLostExactly | app/src-tauri/src/agent_run_manager.rs:385-393 | The three kinds of event, and no others, that put a goal with a requested pause back to work. |
| GoalRuns.PauseIsLost | app/src-tauri/src/agent_run_manager.rs:385-393 | A run from creation in which an accepted pause is overwritten when the runner takes the goal up. |
| GoalRuns.RevivedExactly | app/src-tauri/src/agent_run_manager.rs:634-658 | The changes, and no others, that give a finished goal another status. |
| GoalRuns.CancelledGoalRevives | app/src-tauri/src/agent_run_manager.rs:650-657 | A run from creation in which a cancelled goal becomes paused again. |
| GoalRuns.CompletedIsFinal | crates/agent-session/src/goal.rs:800-830 | In every run a completed goal has nothing open and never changes again, unless findings that tell something are still stored. |
| GoalRuns.CompletedChangesExactly | app/src-tauri/src/agent_run_manager.rs:187-213 | After every run an event changes a completed goal if and only if it stores findings with a receipt, an ambiguity or a lifted block. |
| GoalRuns.CompletedIsReopened | app/src-tauri/src/agent_run_manager.rs:158-171 | A run from creation: two status queries classify a cancelled write that was not done; after the first the goal is resumed and completed, and the second makes it paused and resumable. |
| GoalRuns.RevivedGoalLosesSlice | crates/agent-session/src/goal.rs:494-512 | A run from creation: a goal is cancelled after its first step and revived at the head of the loop; it can be resumed, and the counters of its slice are gone. |
| GoalRuns.RefusedResumeIsForgotten | app/src-tauri/src/agent_session_commands.rs:406-418 | What a refused resume superseded is in memory only; the goal restarted after it has the superseded ids of the disk. |
| GoalRuns.Perform | app/src-tauri/src/agent_session_commands.rs:256-500 | The methods of the goal record do to it what the events of a run do, all of them; each states the whole new record. |
| GoalRuns.ChargedAtMostOnce | app/src-tauri/src/agent_run_manager.rs:773-830 | Every verification is charged, and no candidate is verified twice, restarts and cancellations included. |
| GoalRuns.CompletedWasChecked | app/src-tauri/src/agent_run_manager.rs:742-910 | In every run a completed goal was completed by an event before which the runner had read it, with a candidate and with receipts that matched the files then; the verifier had accepted this very candidate, unless it was the answer of at most one response without tools, steering, earlier steps or receipts of more than observations. |
| GoalRuns.VerifiedExactlyWhenNeeded | crates/agent-session/src/goal.rs:459-475 | In every run a runner that has read a candidate calls the verifier if and only if it was not verified yet and is not such an answer. |
| GoalRuns.AnswerAtOnceCompletes | app/src-tauri/src/agent_run_manager.rs:779-910 | In every run such an answer completes its goal without a verifier. |
| GoalRuns.LateSteeringIsMissed | app/src-tauri/src/agent_run_manager.rs:885-905 | The messages a completion misses are exactly those accepted between the read and the decision; they are marked as seen all the same. |
| GoalRuns.LateSteeringHappens | app/src-tauri/src/agent_run_manager.rs:885-905 | A run from creation in which a goal is completed although its user has just steered it. |
| Steering.SteeringBox.InjectSteering | app/src-tauri/src/agent_run_manager.rs:1065-1085 | All messages become injected, exactly the new ones are appended in order, and the progress starts over if there are any. |
| Steering.DeliveredOnceInOrder | app/src-tauri/src/agent_run_manager.rs:1065-1085 | Over every run messages reach the transcript at most once, in order and with the text they were given; a message does not if and only if it still waits or waited when the goal was cleared. |
| Steering.ClearedIsLost | crates/agent-session/src/goal.rs:505-508 | A run in which a message is lost to a clearing although an injection follows. |
| Steering.SteeringBox.ClearWorkingData | crates/agent-session/src/goal.rs:494-512 | Finishing a goal empties every message, seen or not, and the transcript. |
| Steering.Replay | app/src-tauri/src/agent_run_manager.rs:1065-1085 | The messages in place go through the states of every run. |
| RunRegistry.ReviewRunRegistry.PrunePending | app/src-tauri/src/review_commands.rs:508-519 | Expired entries go from the front, then the oldest ones over the limit. |
| RunRegistry.ReviewRunRegistry.RegisterAt | app/src-tauri/src/review_commands.rs:534-578 | Registration prunes, rejects a busy id or resource, consumes a waiting cancellation and returns a fresh flag of that value. |
| RunRegistry.ReviewRunRegistry.CancelAt | app/src-tauri/src/review_commands.rs:583-597 | Cancelling sets the flag of an active run and no other, or queues a cancellation that is not queued yet; both maps stay. |
| RunRegistry.ReviewRunRegistry.FinishRun | app/src-tauri/src/review_commands.rs:598-603 | Finishing removes both entries of a run. |
| RegistryRuns.MapsStayInverse | app/src-tauri/src/review_commands.rs:494-498 | In every reachable state the two maps are inverse and no two active runs share a resource. |
| RegistryRuns.HeldUntilFinished | app/src-tauri/src/review_commands.rs:598-603 | Whatever others do, an entry stays until its own finish and a cancellation is never taken back. |
| RegistryRuns.ActiveExactly | app/src-tauri/src/review_commands.rs:534-603 | In every run an id is active if and only if it was registered and not finished since, and cancelled if and only if a cancellation waited for that registration or came after it. |
| RegistryRuns.ActiveRunExcludes | app/src-tauri/src/review_commands.rs:542-555 | While a run is active every registration of its id or resource is rejected and leaves both maps unchanged. |
| RegistryRuns.FinishFreesBoth | app/src-tauri/src/review_commands.rs:598-603 | Its finish removes exactly its two entries, and both can be registered again. |
| RegistryRuns.Start | app/src-tauri/src/review_commands.rs:167-231 | The start of a run against the registry, with other callers in between. |
| RegistryRuns.StartRestoresMaps | app/src-tauri/src/review_commands.rs:379-441 | A rejected or cancelled start leaves both maps as they were; one that worked removes exactly its own entries. |
| RegistryRuns.CreateGoal | app/src-tauri/src/agent_session_commands.rs:135-176 | The creation of a goal against the registry, with other callers in between and every exit of the program. |
| RegistryRuns.CreateRestoresExactly | app/src-tauri/src/agent_session_commands.rs:135-176 | A registered creation that fails takes its entries out again if and only if it was not the digest that failed; left to itself it restores both maps exactly then. |
| RegistryRuns.FailedDigestStaysBusy | app/src-tauri/src/agent_session_commands.rs:152-154 | After a failed digest every registration of the goal or its resource is rejected, whatever follows, until somebody finishes that run. |
| RegistryRuns.QueueRefinesLog | app/src-tauri/src/review_commands.rs:508-597 | With a monotonic clock the queue is exactly the unused, young, undisplaced records of a log that never forgets; it is sorted, distinct, bounded and names no active run. |
| RegistryRuns.CancelledExactlyByLiveRecord | app/src-tauri/src/review_commands.rs:556-565 | A registration that succeeds is cancelled if and only if the log holds such a record for its id. |
| RegistryRuns.CancelBeforeRegister | app/src-tauri/src/review_commands.rs:534-597 | A cancellation that comes first is honoured within 60 s if fewer than 128 others follow. |
| RegistryRuns.RepeatedCancelIsNotRenewed | app/src-tauri/src/review_commands.rs:589-596 | A second cancellation of a waiting id does not extend its life. |
| ToolApprovals.ToolApprovalRegistry.InsertRequest | app/src-tauri/src/agent_events.rs:44-64 | Inserting over an entry drops its sender and refuses the new call, whose entry stays. |
| ToolApprovals.ToolApprovalRegistry.ResolvePending | app/src-tauri/src/agent_events.rs:69-103 | A matching resolution removes the entry and reports success exactly when its waiter still waits. |
| ToolApprovals.ToolApprovalRegistry.DropPendingGuard | app/src-tauri/src/agent_events.rs:33-40 | A guard removes whatever entry has its id. |
| ToolApprovals.Replay | app/src-tauri/src/agent_events.rs:33-103 | The registry goes through the states of every run, event by event. |
| ToolApprovals.AllowExactlyWhenDelivered | app/src-tauri/src/agent_events.rs:44-103 | In every interleaving a call takes Allow if and only if an Allow for its run and approval id was delivered to that very call. |
| ToolApprovals.DeliveredOnce | app/src-tauri/src/agent_events.rs:88-103 | Each waiter is resolved at most once. |
| ToolApprovals.AcceptedExactlyWhenReaching | app/src-tauri/src/agent_events.rs:69-103 | The resolver is told of success if and only if its decision reaches a waiter. |
| ToolApprovals.NothingLeftBehind | app/src-tauri/src/agent_events.rs:33-66 | When every call has ended the map is empty, repeated ids included. |
| ToolApprovals.SenderLostToSameId | app/src-tauri/src/agent_events.rs:33-64 | A waiting call loses its sender if and only if another call of its id is inserted or drops its guard. |
| ToolApprovals.DeniedByNobodyExactly | app/src-tauri/src/agent_events.rs:33-103 | In every run a denied call was denied by nobody if and only if it was refused, or another call of its id was inserted or dropped its guard while it waited. |
| ToolApprovals.UniqueIdsReturnTheDecision | app/src-tauri/src/agent_events.rs:44-67 | With unique ids no call is refused and each returns exactly the decision delivered to it. |
| ToolApprovals.RepeatedIdMayBeDenied | app/src-tauri/src/agent_events.rs:33-67 | A run in which a late guard denies a call that was never decided on. |
| Expression.ParensWrapWhole | design_handoff_strata_redesign/support.js:229-239 | The loop meets its prefix-depth specification. |
| Expression.FindTopLevelEquality | design_handoff_strata_redesign/support.js:240-254 | The loop returns the first position at bracket depth 0 where an operator starts with text before it, or none. |
| Expression.Evaluate | design_handoff_strata_redesign/support.js:191-228 | The evaluator terminates on strictly shorter texts and computes its recursive specification. |
| Expression.EvaluatePath | design_handoff_strata_redesign/support.js:255-281 | The path loop computes the walk over its segments. |
| ExpressionTrees.ResolvePrint | design_handoff_strata_redesign/support.js:191-281 | Evaluating the fully parenthesised text of any tree, with any spacing, gives the meaning of the tree in terms of the host's truth, equality and property reads alone. |
| LooseTrees.ResolveLoose | design_handoff_strata_redesign/support.js:191-254 | The same for texts without parentheses around negations and right sides: a negation ends at the next operator, and of several comparisons the first one is the outermost. |
| PrintedTrees.NumberExactly | design_handoff_strata_redesign/support.js:198-226 | The number pattern accepts exactly digits with an optional sign and an optional fraction. |
| SealedText.FindsFirstOperator | design_handoff_strata_redesign/support.js:240-254 | The operator found is the one behind a text whose brackets nest, with any number of negations before it, whatever follows. |
| ExpressionTrees.WalkPath | design_handoff_strata_redesign/support.js:255-281 | A printed path leads to its meaning whatever segments follow. |
| ExpressionTrees.QuotedTextExactly | design_handoff_strata_redesign/support.js:198-226 | A quoted text stands for its body if and only if no operator is found in it. |
| AttributeCase.RoundTrip | design_handoff_strata_redesign/support.js:328-342 | An attribute name comes back unchanged if and only if no lower-case letter follows a dash in it. |
| AttributeCase.EncodedHasNoUpper | design_handoff_strata_redesign/support.js:328-331 | An encoded name has no upper-case letter left to lose. |
| ConflictMarkers.InitialResultFromWorking | app/src/components/ConflictEditor.tsx:17-39 | The cursor loops compute the recursive reading of the markers. |
| ConflictMarkers.RenderThenResolve | app/src/components/ConflictEditor.tsx:17-39 | Rendering clean chunks and conflicts, with or without base, and parsing gives clean lines and ours in order. |
| ConflictMarkers.UnchangedIffNoConflict | app/src/components/ConflictEditor.tsx:17-39 | A text comes back unchanged if and only if no line starts a conflict. |
| LineSplice.ResultDocument.HandlePick | app/src/components/ConflictEditor.tsx:198-214 | The picked lines of the picked side, and no others, take the place of the region; an empty pick leaves a blank line. |
| LineSplice.EditedText | app/src/components/ConflictEditor.tsx:208-213 | Splitting the edited text gives lines before, segment, lines after, inside and at the end of the document. |
| LineSplice.SpliceIsExact | app/src/components/ConflictEditor.tsx:198-214 | The edit is the plain list splice if and only if the region starts inside the document exactly when the segment is not empty. |
| CommitGraph.ReachableFromHead | app/src/components/CommitGraph.tsx:116-132 | The worklist terminates on any graph and collects exactly the commits joined by loaded parent links to the first row that carries the head reference. |
| CommitGraph.LastRowCounts | app/src/components/CommitGraph.tsx:122-122 | The loaded ids are those of the rows, each with the parents of its last row. |
| CommitGraph.GrowthCondition | app/src/components/CommitGraph.tsx:120-132 | More rows only grow the set, from every commit, if and only if each old link is still covered. |
| CommitGraph.AppendingRowsOnlyGrows | app/src/components/CommitGraph.tsx:116-132 | Appending rows that redefine nothing keeps HEAD and every reached commit. |
| CommitGraph.PagesOnlyGrow | app/src/components/CommitGraph.tsx:116-132 | As the id of a commit fixes its parents, whatever pages of a repository are loaded, no reached commit is lost. |
| CommitGraph.RedefinedRowLosesCommit | app/src/components/CommitGraph.tsx:122-123 | That an id fixes its parents is needed: with other parents for a loaded id, which no loader yields, a reached commit could be lost. |
| ChangeEvidence.SortSorts | app/src-tauri/src/change_commands.rs:99-103 | The sort orders by path with staged entries first and keeps every entry. |
| ChangeEvidence.SortIsStable | app/src-tauri/src/change_commands.rs:99-103 | Entries with one key keep the order they arrived in. |
| ChangeEvidence.RenderDiff | app/src-tauri/src/change_commands.rs:129-154 | The loops build the patch text, the hashed tokens and the saturated counts of a diff. |
| ChangeEvidence.PatchSplits | app/src-tauri/src/change_commands.rs:129-154 | Split into lines, a patch gives back the headers and the contents in order, with `+` for additions, `-` for deletions and a space for the rest. |
| ChangeEvidence.CollectFile | app/src-tauri/src/change_commands.rs:119-174 | One turn of the loop: every field of the record, what is hashed, and included bytes plus the budget left are the budget before. |
| ChangeEvidence.CollectChangeEvidence | app/src-tauri/src/change_commands.rs:92-183 | The collection: each failure exactly when it is the first to happen, a failed refresh of the status first, and the head and messages of the history otherwise. |
| ChangeEvidence.OmittedOnlyForBudget | app/src-tauri/src/change_commands.rs:155-174 | A reviewable patch is left out, and marked too large, if and only if it exceeds the budget left at its turn. |
| ChangeEvidence.OrderIndependence | app/src-tauri/src/change_commands.rs:92-183 | The outcome is the same for every arrival order if and only if no two different entries share path and side, or the collection is rejected anyway. |
| CommitGroup.RepoContext.CommitGroup | app/src-tauri/src/change_commands.rs:267-350 | A refused request makes no call; a success committed exactly the paths of the group; a failure is rolled back. |
| CommitGroup.RefusedExactly | app/src-tauri/src/change_commands.rs:267-331 | What a request is refused for, check by check, and that no other request is refused. |
| CommitGroup.TrimExactly | app/src-tauri/src/change_commands.rs:277-283 | The message that counts is the given one without the white space at its ends. |
| CommitGroup.RepoContext.RollbackStaged | app/src-tauri/src/change_commands.rs:261-265 | One unstage call per path, last first. |
| CommitGroup.EvidenceShowsIndex | app/src-tauri/src/change_commands.rs:305-310 | A path has a staged record in the evidence if and only if it has a staged entry in the status. |
| CommitGroup.StagedTree | app/src-tauri/src/change_commands.rs:333-343 | After staging a group the index holds exactly its paths. |
| CommitGroup.FailureRestoresIndex | app/src-tauri/src/change_commands.rs:332-349 | A failed attempt restores the index if and only if no path it staged is left without a successful unstage. |
| CommitGroup.RestoredWhenUnstageWorks | app/src-tauri/src/change_commands.rs:261-265 | When no unstage call fails nothing of the attempt remains. |
| HistoryEvidence.GatherCommits | app/src-tauri/src/history_commands.rs:276-304 | The loops gather the first 24 distinct commits of recent, found and older ones: each is of the history or was found in scope by a search that worked, and below the cap none of these is missing. |
| HistoryEvidence.GatheredCommits | app/src-tauri/src/history_commands.rs:276-304 | Gathered commits are distinct, bounded, and start with the first 16 base commits de-duplicated; below the cap none is missing. |
| HistoryEvidence.SelectBlameSamples | app/src-tauri/src/history_commands.rs:152-187 | Samples are at most 24, of distinct lines and allowed commits, each quoting the first 300 characters of its line; below the cap every matching allowed line is there. |
| HistoryEvidence.RelevantCoverage | app/src-tauri/src/history_commands.rs:157-187 | The lines that come first are exactly those of allowed commits whose lower-case content contains a lower-case term, and every allowed commit of the file has a line. |
| WorkspaceDigest.StepInvertible | app/src-tauri/src/agent_support.rs:61-66 | A step of the fold can be undone, as the multiplier is odd. |
| WorkspaceDigest.KnownDigests | app/src-tauri/src/agent_support.rs:61-66 | The fold gives the published digests of the empty text, of `f` and of `fo`. |
| WorkspaceDigest.OneByteDecidesDigest | app/src-tauri/src/agent_support.rs:61-66 | Inputs that agree but at one position have one digest if and only if they agree there too. |
| WorkspaceDigest.HexRoundTrip | app/src-tauri/src/agent_support.rs:67-67 | Fixed-width hexadecimal keeps its width and can be read back. |
| WorkspaceDigest.OneByteChangesWorkspaceDigest | app/src-tauri/src/agent_support.rs:61-67 | Status listings of one length that differ in one byte never share a workspace digest. |
| WorkspaceDigest.OneByteDecidesSessionId | app/src-tauri/src/agent_session_commands.rs:708-719 | Paths that differ in one byte share a session id if and only if the bytes are the two kinds of slash or one letter in two cases. |
| WorkspaceDigest.SessionIdIsStorable | app/src-tauri/src/agent_store.rs:206-217 | Every path yields `repo-` and 16 hexadecimal digits, which the checkpoint store accepts. |

## Left out

- The checkpoint cipher, its framing and the file replacement of the store: they rest on libraries that are not part of this model.
- The command palette: grouping, stepping and the first enabled entry are each settled by one branch.
- The search terms and patch budgets of a history investigation: they would add easy members beside the ones here.
- The pseudo stylesheet cache and the rest of the template runtime: bound to a browser.
- JournalRuns.WritesAreNeverAmbiguous: assumes a careful run: a write is recorded only while no other write of its file is pending or under way, a goal is classified only when no effect can still come and finished only when no write is pending, and findings are stored only while their receipts are true; `JournalRuns.AmbiguousExactly`, `JournalRuns.LateEffectIsUnexplained` and `JournalRuns.StaleFindings` say what happens otherwise. All runs assume before digests taken from the file, no other writer, and fresh execution ids: a provider that numbers its calls anew when an unfinished slice is started again would repeat ids.
- JournalRuns.RunKeeps: a file can always be read; the unreadable file is in `ToolJournal.GoalJournal.ReconcilePending`.
- SliceAccounting.UsageIsConserved: says nothing after a change that a counter's overflow left half done; `SliceAccounting.OverflowUnbalances` shows that it could not.
- GoalRuns.CompletedWasChecked: speaks of the goal and the files as they were at the read; what changes between the read and the decision is not seen by the program either (`GoalRuns.LateSteeringIsMissed`).
- RegistryRuns.QueueRefinesLog: assumes that lock order follows the clock, although the program reads the clock before it takes the lock.
- ExpressionTrees.ResolvePrint: string atoms are free of brackets, `=` and `!`, as quotes do not protect them; property reads of the host have no effects and do not throw.
- LineSplice.ResultDocument.HandlePick: the editor's own treatment of carriage returns is not modelled.
- ChangeEvidence.CollectChangeEvidence: what is hashed is kept as a list of tokens; the hash function is a parameter of `CommitGroup`.
- Command wiring, events, logging, credentials, rendering and the model protocols: input and output over libraries.
