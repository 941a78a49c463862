# Verified model of Agent Coder's workflow engine, batch queue and live delivery

This project models the parts of the Agent Coder backend whose correctness is about more than one function,
and proves what they promise. Everything is Dafny; `dafny verify dfyconfig.toml` checks it.

**Workflow engine** (`Graphs`, `Levelling`, `Validation`, `Problems`, `Template`, `Rendering`, `Execution`,
`ExecutionResults`, `ExecutionRuns`, `ExecutorObject`, `TriggerReference`). A workflow is a graph of nodes. `Validate`
accepts it when it is saved; `execute` levels it and runs it level by level with parallel steps. The executor is a
state machine with one action for every place where the goroutines can interleave; a handler may return anything.
`ExecutorObject` is the Go object with its loops, and keeps a record that is proved to be a run of that machine. The
main result goes through the whole package: in every run of a graph that `Validate` accepts, a `steps.X.field`
reference in a field of a node resolves if and only if X is a step, and what is put in its place is that field of what
the handler of X returned. The one accepted reference that does not resolve, to a trigger, is exhibited.

**Batch queue** (`BatchTables`, `BatchQueue`, `BatchRuns`, `BatchRows`, `BatchProgress`, `BatchSlots`, `BatchStore`,
`BatchScheduler`). `BatchQueue` is the scheduler, the store's transactions, the HTTP requests that can come between any
two of its steps, failed writes, crashes and restarts as one state machine. `BatchRuns` proves what holds over every
history, `BatchRows` what becomes of each row and where the end of an item comes from, `BatchProgress` what can still
be started, and `BatchSlots` when the slot limit is kept. `BatchStore` and `BatchScheduler` are the Go objects with
their loops; the scheduler's methods keep a record that is proved to be such a history, so the theorems apply to the
code.

**String rewriting** (`Strings`, `Template`, `Simultaneity`, `StepPrompt`, `Redaction`, `Patch`). One theory of leftmost,
non-overlapping `ReplaceAll`, `Split` and `Join` carries `Render`, `Redact` and `stripUnappliableBinary`.
`Simultaneity` says exactly when the passes of `Render` replace everything at once.

**Small protocols** (`EventBus`, `EventStream`, `RunSlots`, `JiraMarker`, `ImportRun`). The event bus and one SSE
connection, the run manager's slots, the Jira at-most-once marker and the bounded parallel import.

**Encodings** (`Base64`, `Slug`). The three-alignment search of the leak analysis, over the encoding of section 4
of RFC 4648, and slug creation.

Conventions. A type `string` stands for Go's byte string in `Strings`, `Redaction` and `Patch`, and for a sequence of
Unicode characters in `Template` and `Slug`. Identifiers that are UUIDs are natural numbers, handed out in
increasing order. A store transaction is one atomic step; a write that fails changes nothing. Where a class method is
"one action", its contract says that the fields change as `Apply` says, and the theorems about `Apply` are stated
over all sequences of actions.

Where the code does something else than its comments say, the code was followed:

- `sse.go` says repeated events are sorted out by the browser; the handler itself leaves them out (line 106), and
  this is what is modelled. A terminal event whose row is already in the history is left out as well, and such a
  stream stays open (`EventStream.StaysOpenIff`, `EventStream.ForgottenIsReached`).
- `Redact` promises that no known secret is written. A secret that begins or ends with `*`, or contains `***`,
  can be put together again by the mask itself (`Redaction.RedactHidesExactlyMaskable`).
- The queue is said to keep within the limit. `harvest` counts an item whose result could not be written, but not
  one whose requeue could not be written; from there the rest of the tick can exceed the limit, and from no other
  harvest (`BatchSlots.HarvestDecidesTheBound`, `BatchSlots.BoundCanBeBroken`).
- `Render` notes that its keys do not get in each other's way. Its passes also run over the values of earlier passes;
  that this changes nothing is true exactly for the values of `Simultaneity.SimultaneousIffHarmless`.
- `sse.go` subscribes before it reads the history so that nothing in between is missed. Without a dropped event that
  is so exactly when the history read reaches up to what had been published before the subscription, or nothing
  numbered follows it (`EventStream.GapFreeIff`).
- `Validate` is said to stop references that would come up empty. It accepts references to the trigger node, which
  never get a value (`TriggerReference.TriggerReferenceFails`).

## Model

| member | source | states |
|---|---|---|
| Graphs.ReachableFrom | backend/internal/workflow/graph.go:404-423 | on any graph, cyclic or not, exactly the nodes at the end of a path from the start |
| Graphs.AncestorsOf | backend/internal/workflow/graph.go:426-448 | exactly the nodes with a non-empty path to the node; the queue ends |
| Graphs.Ancestors | backend/internal/workflow/graph.go:426-448 | the transitive closure of the edges, for every node of the graph |
| Levelling.Levels | backend/internal/workflow/graph.go:359-401 | with unique ids: levels that rank every node after its predecessors, or a node that waits for ever |
| Levelling.CountIndegrees | backend/internal/workflow/graph.go:360-368 | the counters are the numbers of incoming edges and the lists the successors in edge order |
| Levelling.ReleaseLevel | backend/internal/workflow/graph.go:391-397 | finishing a level lowers each counter by its edges from that level |
| Levelling.RankedIsNotBlocked | backend/internal/workflow/graph.go:359-401 | levels and an endless wait exclude each other, so the error is returned exactly when nobody can go on |
| Levelling.BlockedIsCycle | backend/internal/workflow/graph.go:355-401 | with known endpoints, waiting for ever is the same as a cycle in the edges |
| Levelling.EveryoneWaitsIsACycle | backend/internal/workflow/graph.go:381-387 | if every remaining node waits for a remaining node there is a cycle among them |
| Levelling.RankGrowsAlong | backend/internal/workflow/graph.go:352-358 | along a path the level grows by at least its length |
| Levelling.LevelIsLongestPath | backend/internal/workflow/graph.go:352-358 | a node's level is the length of the longest path into it, and such a path exists |
| Levelling.LevelsPartitionNodes | backend/internal/workflow/graph.go:374-400 | every node is in exactly the level of its rank |
| Validation.Validate | backend/internal/workflow/graph.go:174-338 | the problems are those of the report in its order, and there are none exactly for acceptable graphs |
| Validation.ReportMeaning | backend/internal/workflow/graph.go:174-338 | an empty report means: unique ids, known kinds and complete fields, one trigger, sound edges, no cycle, all reachable, references to earlier nodes only, one pushing ancestor where one is needed |
| Validation.StructureMeaning | backend/internal/workflow/graph.go:174-254 | the first half of the checks is silent exactly for structured graphs |
| Validation.FlowMeaning | backend/internal/workflow/graph.go:256-338 | the second half is silent exactly for graphs whose flow is allowed |
| Validation.FieldIssuesMeaning | backend/internal/workflow/kinds.go:45-125 | the field checks are silent exactly when the fields a node of its kind cannot do without are filled in |
| Validation.AcceptedFields | backend/internal/workflow/kinds.go:76-123 | a graph with a sound structure is accepted exactly if it has no cycle, all is reachable, the references of prompt, title, body, both branches, issue key and arguments are sound field by field, and each PR node without a head branch has exactly one agent before it that pushes |
| Problems.EveryProblemIsReal | backend/internal/workflow/graph.go:174-338 | everything that is reported is the case, message by message |
| Validation.CheckTemplates | backend/internal/workflow/graph.go:270-301 | the references of every template are judged against the ancestors of their node |
| Validation.CheckPullRequests | backend/internal/workflow/graph.go:309-332 | a PR node without a head branch needs exactly one pushing agent before it |
| Validation.PushingAncestor | backend/internal/workflow/graph.go:343-350 | none exactly if the id is no node's or no agent before the node pushes, else one that does |
| Validation.PushingAncestorIsUnique | backend/internal/workflow/graph.go:309-350 | on an accepted graph the choice does not depend on map order |
| Template.ScannerMeetsGrammar | backend/internal/workflow/template.go:32 | the scanner finds a reference at the front of a text exactly where the pattern allows one |
| Template.ScanReadsTheText | backend/internal/workflow/template.go:53-62 | cutting a text into literals and references loses nothing |
| Template.References | backend/internal/workflow/template.go:53-65 | all references in order, or the first that cannot be parsed |
| Template.BindingsMeaning | backend/internal/workflow/template.go:124-138 | either every reference has its value, or the error is that of the first one without |
| Template.TextRefsAreFunctional | backend/internal/workflow/template.go:53-65 | equal raw texts are equal references, so the map of replacements is well defined |
| Template.UnboundTextHasCulprit | backend/internal/workflow/template.go:154-180 | a failed rendering names a reference of the text |
| Template.Bind | backend/internal/workflow/template.go:130-138 | collects the values of all references or stops at the first error |
| Template.Rewrite | backend/internal/workflow/template.go:140-151 | the passes in some order of the keys, longest first |
| Template.Render | backend/internal/workflow/template.go:124-152 | the error of the first bad reference, or the text rewritten; with harmless values and no stray opening braces this is simultaneous substitution |
| Rendering.ParseRefMeaning | backend/internal/workflow/template.go:67-101 | exactly `input`, `trigger.F` and `steps.ID.FIELD` with one of the four fields are read, and as what they say |
| Rendering.InputRenders | backend/internal/workflow/template.go:154-157 | `{{input}}` in a text becomes the input of the run |
| Rendering.TriggerFieldRenders | backend/internal/workflow/template.go:159-164 | `{{trigger.F}}` becomes what the trigger sent as F, or the text is refused |
| Rendering.StepFieldRenders | backend/internal/workflow/template.go:166-183 | `{{steps.ID.FIELD}}` becomes that one of the four fields of that step's result, or the text is refused |
| Rendering.OneReferenceRenders | backend/internal/workflow/template.go:124-152 | a text with one reference keeps everything around it, whatever the value |
| Template.PassReplacesItsKey | backend/internal/workflow/template.go:146-150 | one pass replaces exactly the references with its key |
| Template.PassesAreSimultaneous | backend/internal/workflow/template.go:140-151 | with harmless values and no stray opening braces the passes equal simultaneous substitution, for every order of the keys |
| Template.OneKeyIsSimultaneous | backend/internal/workflow/template.go:140-151 | with a single key this holds for every text and value |
| Simultaneity.SimultaneousIffHarmless | backend/internal/workflow/template.go:140-151 | the passes equal simultaneous substitution on all well-opened texts and in all allowed orders if and only if no value holds, or ends in part of, a key whose pass may come later |
| Simultaneity.LoudOutputIsRewrittenAgain | backend/internal/workflow/template.go:124-151 | rendered in a context where a step's output is itself a reference: that reference is replaced as well, in every allowed order |
| Simultaneity.StrayBracesOpenAReference | backend/internal/workflow/template.go:124-151 | rendered with braces left around a reference: its value closes them to a new reference, in every allowed order |
| ExecutionRuns.MakePlan | backend/internal/workflow/executor.go:143-147 | the levels that `execute` computes again exist, and rank the steps, for every accepted graph |
| Execution.RunKeepsInv | backend/internal/workflow/executor.go:134-331 | the invariant of rows, snapshots and goroutines over every interleaving |
| Execution.StepKeepsInv | backend/internal/workflow/executor.go:134-331 | each action keeps that invariant |
| ExecutionRuns.StepsRunAfterTheirAncestors | backend/internal/workflow/executor.go:156-222 | a step runs only after every step before it in the graph has succeeded |
| ExecutionRuns.NothingLaterRunsAfterAFailure | backend/internal/workflow/executor.go:208-222 | after a failed or cancelled step no step of a later level runs |
| ExecutionRuns.EndsStay | backend/internal/workflow/runstore.go:283-318 | the end of a step is never rewritten |
| ExecutionRuns.ClosedRunIsSettled | backend/internal/workflow/executor.go:295-331 | at the end nothing is pending or running, and the status of the run fits its steps |
| ExecutionRuns.OverRunKeepsItsRows | backend/internal/workflow/executor.go:112-131 | a stop that still finds the cancel function after the last write changes no status |
| ExecutionRuns.SnapshotHolds | backend/internal/workflow/executor.go:188-205 | the context a step is given holds exactly the steps among its ancestors |
| ExecutionResults.SnapshotHoldsResults | backend/internal/workflow/executor.go:188-205 | what a step is given as the result of another is what that one's handler returned earlier in the run |
| ExecutionResults.HandlersReturnOnce | backend/internal/workflow/executor.go:235-291 | a step's handler returns at most once in a run |
| ExecutionResults.HandlersAreThere | backend/internal/workflow/executor.go:238-244 | a step is refused only if its kind has no handler, and a handler returns only if it has |
| ExecutionResults.StepEndMeaning | backend/internal/workflow/executor.go:235-331 | at the end a step has succeeded, failed or been cancelled exactly by what its handler returned, and was skipped or cancelled with the run otherwise |
| ExecutionResults.OutcomeMeaning | backend/internal/workflow/executor.go:208-231 | the run's status was decided at one look: interrupted or cancelled if it had been stopped, else failed if a step had, else succeeded |
| ExecutionResults.RunKeepsLedger | backend/internal/workflow/executor.go:134-331 | rows, results and snapshots fit what has been heard of the handlers in every reachable state |
| ExecutionRuns.StepReferencesResolve | backend/internal/workflow/graph.go:270-301 | in every run of an accepted graph a step reference resolves if and only if it names a step, and to that field of what the handler of the step returned |
| ExecutionRuns.StepValueReachesTheText | backend/internal/workflow/executor.go:188-205 | a field with a step reference renders to its text with what that step's handler returned in place |
| ExecutionRuns.RenderingNeverMeetsAnUnrunStep | backend/internal/workflow/template.go:154-180 | rendering such a field fails only for a missing trigger field or a reference to a trigger node |
| ExecutionRuns.PushedBranchIsInContext | backend/internal/runbuild/nodes.go:94-125 | a PR without a head branch finds in its context the branch that the handler of the one pushing step returned |
| ExecutionRuns.ActionsMakeProgress | backend/internal/workflow/executor.go:134-231 | every action but a request to stop lowers a measure, so runs end |
| ExecutionRuns.OpenRunCanGoOn | backend/internal/workflow/executor.go:134-231 | until the end some action is possible |
| ExecutorObject.Executor.CloseLevel | backend/internal/workflow/executor.go:208-222 | stops on cancel before failure, else enters the next level with something to run; fewer phases are left |
| ExecutorObject.Executor.RequestCancel | backend/internal/workflow/executor.go:336-346 | succeeds exactly until the cancel function is removed, after the last write |
| ExecutorObject.Executor.Advance | backend/internal/workflow/executor.go:188-291 | the next statement of any goroutine is a step of the machine, with the handler's own outcome, and leaves less work |
| ExecutorObject.Executor.WaitForLevel | backend/internal/workflow/executor.go:167-207 | the wait ends, in whatever order the goroutines go on and whatever they return |
| ExecutorObject.Executor.Execute | backend/internal/workflow/executor.go:134-231 | the loop over the levels ends, what happened is a run of the machine, and for an accepted graph the rows are settled and say what the handlers returned |
| TriggerReference.TriggerReferenceIsAccepted | backend/internal/workflow/graph.go:270-301 | for all names: a step that refers to its trigger passes validation |
| TriggerReference.TriggerReferenceFails | backend/internal/workflow/executor.go:360-372 | and in its first run the step is given a context in which that reference cannot be resolved |
| BatchTables.DerivedMeaning | backend/internal/runbatch/store.go:536-557 | running if and only if some item runs, queued if none runs and some is pending, done if neither |
| BatchTables.SetItemConsistent | backend/internal/runbatch/store.go:502-526 | an item update with its refresh keeps every batch status derived |
| BatchTables.CreateConsistent | backend/internal/runbatch/store.go:75-123 | a new batch is queued because its items are pending |
| BatchTables.CancelConsistent | backend/internal/runbatch/store.go:342-382 | cancelling keeps the status of every other batch derived, and of a batch that was already over |
| BatchTables.ResumeConsistent | backend/internal/runbatch/store.go:395-439 | resuming leaves a derived status, or the cancellation if nothing was revived |
| BatchTables.InterruptConsistent | backend/internal/runbatch/store.go:450-495 | after the restart no item is running and every batch touched is refreshed |
| BatchTables.DeleteConsistent | backend/internal/runbatch/store.go:608-662 | removing a batch with its items leaves the others as they were |
| BatchTables.EligibleMeaning | backend/internal/runbatch/store.go:189-211 | the queue is exactly the pending items of the batches that are not cancelled |
| BatchQueue.WrappedLimitIsRecognised | backend/internal/runbatch/bridge.go:82-99 | a failed run whose error text contains the limit error, however wrapped, goes back into the queue |
| BatchQueue.OtherEndsAreWritten | backend/internal/runbatch/bridge.go:56-80 | no other end does; each end is passed on as it is, with its message unless it is a success |
| BatchRows.HarvestWritesTheEnd | backend/internal/runbatch/scheduler.go:176-216 | after a harvest step the item's row has the status of its run, with an empty error after a success and the run's error otherwise |
| BatchRows.RowsMove | backend/internal/runbatch/scheduler.go:158-335 | what each step makes of each item row, and that rows go only with their batch |
| BatchRows.NewRows | backend/internal/runbatch/store.go:75-123 | a new row is the project at its position, pending, with neither run nor error |
| BatchRows.BatchesMove | backend/internal/runbatch/store.go:342-439 | a batch keeps its task, is cancelled by a cancel while it goes on, and leaves that only by a resume with something to revive |
| BatchRows.ResumeRevives | backend/internal/runbatch/store.go:395-439 | a resume makes exactly the interrupted items of the batch pending, keeps their runs, clears their errors, answers their number, and the queue offers them |
| BatchRows.CancelDrops | backend/internal/runbatch/store.go:342-382 | a cancel drops exactly the pending items and answers their number |
| BatchRows.DeleteRemoves | backend/internal/runbatch/store.go:608-662 | a batch can be deleted exactly when it is over and holds nothing live, and goes with its items alone |
| BatchRows.NextIsOldest | backend/internal/runbatch/store.go:189-197 | the next item is of the oldest batch that has one, and the first of that batch |
| BatchRows.RunIsTheStarted | backend/internal/runbatch/scheduler.go:257-319 | the run a row names is one that was started for that item |
| BatchRows.SuccessIsOfAStartedRun | backend/internal/runbatch/scheduler.go:169-319 | an item has succeeded only if the run that was started for it has |
| BatchRows.FailureIsReported | backend/internal/runbatch/scheduler.go:169-319 | a failed item carries the message of what failed: its start, the binding of its run, or the run |
| BatchRows.EndComesFrom | backend/internal/runbatch/scheduler.go:158-335 | every ended item was given its end by a step that is about it |
| BatchRuns.StepKeepsInv | backend/internal/runbatch/scheduler.go:158-335 | every scheduler step, request, crash and restart keeps the invariant |
| BatchRuns.HistoryKeepsInv | backend/internal/runbatch/store.go:536-557 | in every reachable state a batch that is not cancelled has the status its items give it |
| BatchRuns.OnlyResumeRevives | backend/internal/runbatch/store.go:395-439 | a batch leaves `cancelled` only by a resume that revives at least one item |
| BatchRuns.StartsAreSeparated | backend/internal/runbatch/scheduler.go:257-319 | between two starts of an item lies a written requeue of it or a resume that revives it |
| BatchRuns.InterruptedWaits | backend/internal/runbatch/store.go:395-439 | an interrupted item is started only after a resume that revives it |
| BatchProgress.EligibleCanStart | backend/internal/runbatch/scheduler.go:233-319 | what the queue offers can be started without a further request, from any reachable state |
| BatchProgress.ResumedCanStart | backend/internal/runbatch/store.go:395-439 | once its batch is resumed an interrupted item can be started |
| BatchRuns.WorkCutByACrashWaits | backend/cmd/server/main.go:374-378 | what was under way at a crash starts again only after it was reopened, also when the restart could not be written; when it was written, only after a reviving resume |
| BatchRuns.CancelledBatchStartsNothing | backend/internal/runbatch/store.go:189-238 | from a cancel until a reviving resume nothing of the batch is started, but for an item already claimed |
| BatchRuns.CancelledBatchStartsIffClaimed | backend/internal/runbatch/scheduler.go:257-319 | in a cancelled batch something can still be started, without a resume, if and only if an item of it is claimed |
| BatchRuns.PendingAfterCancelWasReopened | backend/internal/runbatch/store.go:342-382 | an item of the batch that is pending after the cancel was put back since |
| BatchRuns.RequeueAfterCancelLeavesPending | backend/internal/runbatch/store.go:268-283 | such an item does arise, and the queue does not offer it |
| BatchRuns.CancelledBatchCanHoldAPendingItem | backend/internal/runbatch/scheduler.go:257-287 | a whole history that leads to a pending item in a cancelled batch |
| BatchSlots.TickKeepsTheLimit | backend/internal/runbatch/scheduler.go:158-254 | while no requeue of the harvest is lost, no more items run than before the tick or than the largest limit read |
| BatchSlots.CounterMeaning | backend/internal/runbatch/scheduler.go:169-254 | in the harvest the local counter with the items to come falls short of the running items by exactly the lost requeues |
| BatchSlots.HarvestDecidesTheBound | backend/internal/runbatch/scheduler.go:158-254 | after a harvest every way the tick can go on keeps the bound if and only if no requeue was lost |
| BatchSlots.BoundCanBeBroken | backend/internal/runbatch/scheduler.go:198-207 | a whole history in which the bound is exceeded after one lost requeue |
| BatchRuns.ClaimsFollowTheOrder | backend/internal/runbatch/store.go:189-211 | after an item is picked, what is claimed comes after it in (batch creation, position), until something is put back |
| BatchStore.Store.RefreshStatus | backend/internal/runbatch/store.go:536-557 | running, else queued, else done; a cancelled batch only when reviving |
| BatchStore.Store.Create | backend/internal/runbatch/store.go:75-123 | the batch and one pending item per project in order, or the error for none or repeated projects |
| BatchStore.Store.Claim | backend/internal/runbatch/store.go:223-238 | pending becomes running with the run id cleared; anything else is not found |
| BatchStore.Store.Attach | backend/internal/runbatch/store.go:244-255 | a running item gets its run id, and nothing else changes |
| BatchStore.Store.Requeue | backend/internal/runbatch/store.go:268-283 | running becomes pending and forgets its run |
| BatchStore.Store.MarkFinished | backend/internal/runbatch/store.go:316-330 | the item gets its end whatever its status was |
| BatchStore.Store.Cancel | backend/internal/runbatch/store.go:342-382 | pending items fall and are counted; a batch that is over keeps its status |
| BatchStore.Store.Resume | backend/internal/runbatch/store.go:395-439 | interrupted items queue up and are counted; the cancellation goes only with at least one |
| BatchStore.Store.InterruptRunning | backend/internal/runbatch/store.go:450-495 | all running items are interrupted and counted, and refreshing batch by batch is refreshing them all |
| BatchStore.Store.Delete | backend/internal/runbatch/store.go:608-662 | refused while queued, running or with a live item; else the batch and its items go |
| BatchStore.Store.NextPending | backend/internal/runbatch/store.go:189-211 | an eligible item that no other precedes, or none if there is none |
| BatchStore.Store.RunningItems | backend/internal/runbatch/store.go:289-308 | every running item once |
| BatchScheduler.Scheduler.Harvest | backend/internal/runbatch/scheduler.go:169-218 | goes through the list with its local counter; what happens is a history of the queue |
| BatchScheduler.Scheduler.GatherItem | backend/internal/runbatch/scheduler.go:176-216 | one item: counted, put back or finished, and its row as `RowStep` says |
| BatchScheduler.Scheduler.Launch | backend/internal/runbatch/scheduler.go:233-254 | ends, because a round serves a request or leaves fewer items pending, and keeps the history |
| BatchScheduler.Scheduler.ChooseNext | backend/internal/runbatch/scheduler.go:235-247 | stops at the limit, on a failed read or an empty queue, else picks the next item |
| BatchScheduler.Scheduler.StartItem | backend/internal/runbatch/scheduler.go:257-319 | goes on exactly after a start or a failure that was not the limit; fewer items are pending then |
| BatchScheduler.Scheduler.Tick | backend/internal/runbatch/scheduler.go:158-165 | ends with the statuses derived and the running items within the limits read |
| BatchScheduler.Scheduler.Reconcile | backend/internal/runbatch/scheduler.go:325-335 | the restart step, written or not |
| Redaction.Redact | backend/internal/runner/enginelog.go:60-70 | masks the secrets of the list one after another, short ones passed over |
| Redaction.RedactHidesEverySecret | backend/internal/runner/enginelog.go:60-70 | a listed secret that the mask cannot rebuild occurs nowhere in the output, whatever the others are |
| Redaction.RedactHidesExactlyMaskable | backend/internal/runner/enginelog.go:60-70 | a single secret is hidden in every text exactly if it has no `*` at either end and no `***` inside |
| Redaction.UnmaskableEscapes | backend/internal/runner/enginelog.go:60-70 | for any other secret there is a text that shows it after masking |
| Redaction.RedactChangesOnlySecrets | backend/internal/runner/enginelog.go:60-70 | with maskable secrets: the text with pieces that are listed secrets masked, everything else kept in order |
| Redaction.RedactOnlyCovers | backend/internal/runner/enginelog.go:60-70 | for any list: the text cut into runs shown unchanged, in order, and runs shown as stars |
| Patch.StripUnappliable | backend/internal/runs/patch.go:30-73 | the kept blocks in order and unchanged, and one name for each other block |
| Patch.BlocksCutTheLines | backend/internal/runs/patch.go:56-70 | the blocks are the lines, cut before each header |
| Patch.CutsAreUnique | backend/internal/runs/patch.go:56-70 | there is only one such cut |
| Patch.KeptOrReported | backend/internal/runs/patch.go:44-54 | a block is kept exactly if it has no binary marker or has a payload; every other block gives one name |
| Patch.OrderIsKept | backend/internal/runs/patch.go:44-70 | kept blocks and reported names stay in the order of the patch |
| Patch.OnceIsEnough | backend/internal/runs/patch.go:30-73 | applied to its own result it changes nothing and skips nothing |
| Patch.UnchangedIffNothingSkipped | backend/internal/runs/patch.go:30-73 | the patch comes back as it was exactly when no file is reported |
| Patch.NameIsThePath | backend/internal/runs/patch.go:83-100 | for any source and path the name found is the path exactly if the path has no separator inside |
| Patch.NameWithoutTarget | backend/internal/runs/patch.go:94-99 | without `b/` behind the separator the name is what follows the last `and` |
| Patch.NameWithoutSeparator | backend/internal/runs/patch.go:83-100 | without a separator the name is the whole text |
| Patch.NameInMeaning | backend/internal/runs/patch.go:44-70 | a block is reported under the name in its last binary marker |
| Base64.EncodeAt | scripts/sizinti-analizi/analiz.py:38 | symbol i of the standard encoding is sextet i of the bits, then padding |
| Base64.SextetsAreBits | scripts/sizinti-analizi/analiz.py:38 | the sextets are the bits of the bytes in order |
| Base64.SymbolCorners | scripts/sizinti-analizi/analiz.py:38 | the ends of the four ranges of the alphabet are those of the standard |
| Base64.EncodeIsInjective | scripts/sizinti-analizi/analiz.py:38 | no two values are encoded alike |
| Base64.Piece | scripts/sizinti-analizi/analiz.py:38-43 | cutting the front and the last symbol leaves the symbols of the value alone |
| Base64.Base64Forms | scripts/sizinti-analizi/analiz.py:35-44 | the set of the forms of the three alignments that are long enough |
| Base64.SearchForms | scripts/sizinti-analizi/analiz.py:47-51 | text, quoted text and forms of at least 8 characters |
| Base64.EncodedTextHasTheForm | scripts/sizinti-analizi/analiz.py:35-44 | wherever the value stands, the encoded text contains the form of its alignment |
| Base64.SevenBytesAreEnough | scripts/sizinti-analizi/analiz.py:42-51 | a form of any alignment survives the filter exactly for values of at least 7 bytes |
| Base64.EncodedValueIsFound | scripts/sizinti-analizi/analiz.py:35-51 | a value of at least 7 bytes is found in every encoded text that holds it |
| Slug.MakeIsCanonical | backend/internal/slug/slug.go:43-64 | the result is the fallback or a valid name without double dashes, also after the cut |
| Slug.MakeKeepsCanonicalNames | backend/internal/slug/slug.go:43-64 | exactly such names come back unchanged |
| Slug.MakeTwiceIsMakeOnce | backend/internal/slug/slug.go:43-56 | making a name of a made name changes nothing |
| Slug.FallbackIffNoWord | backend/internal/slug/slug.go:49-51 | the fallback stands in for names without a usable character and only for them |
| Slug.LettersAreSpelled | backend/internal/slug/slug.go:29-48 | a name of letters and digits is spelled with the letters that stand for them, Turkish ones included, and cut after 48 |
| Slug.WordsAreJoined | backend/internal/slug/slug.go:43-48 | whatever separates two words becomes one dash |
| EventBus.Bus.Publish | backend/internal/events/bus.go:48-60 | every listener of the run is offered the event and nobody else; no send goes to a closed channel |
| EventBus.Bus.Subscribe | backend/internal/events/bus.go:66-76 | a new open channel that belongs to the run |
| EventBus.Bus.Unsubscribe | backend/internal/events/bus.go:78-96 | the channel is taken out before it is closed, and closed once |
| EventStream.HistoryKeepsInv | backend/internal/httpapi/sse.go:49-124 | the invariant of rows, queue and sent lines over every order of steps |
| EventStream.NumbersIncrease | backend/internal/httpapi/sse.go:105-112 | whatever goes wrong, the numbers of the event lines strictly increase |
| EventStream.GapFreeIff | backend/internal/httpapi/sse.go:49-117 | if no full buffer drops an event, the lines are 1, 2, … without a gap if and only if the history read reached what had been published before, or nothing numbered was sent since |
| EventStream.WholeHistoryReaches | backend/internal/httpapi/sse.go:62-75 | a history read without error and before any deletion reaches that far |
| EventStream.AllRowsAreSent | backend/internal/httpapi/sse.go:95-117 | and then every row has been sent once all is received |
| EventStream.TerminalEndsComplete | backend/internal/httpapi/sse.go:101-117 | a stream that ends with the terminal event has sent every row |
| EventStream.TerminalEndsIffNotInHistory | backend/internal/httpapi/sse.go:106-117 | in every run the terminal event, when received, ends the stream if and only if its row was not in the history read |
| EventStream.StaysOpenIff | backend/internal/httpapi/sse.go:49-117 | when the terminal event is out and all is received, the stream is still open if and only if that event came before the subscription or its row was in the history |
| EventStream.StatusWasRead | backend/internal/httpapi/sse.go:36-40 | the status acted on is the one read before the subscription |
| EventStream.FinishedRunIsSignalled | backend/internal/httpapi/sse.go:76-93 | the connection of a run that was over gets the history and the closing signal, and nothing else |
| EventStream.ForgottenWaits | backend/internal/httpapi/sse.go:95-124 | a stream whose terminal event was passed over waits for the browser or a deletion |
| EventStream.ForgottenIsReached | backend/internal/httpapi/sse.go:36-117 | such a stream arises without anything being missed |
| EventStream.DeletedHistoryLeavesAGap | backend/internal/runs/manager.go:400-418 | a history read after the deletion of the run leaves a gap |
| EventStream.RunSendsTheRelay | backend/internal/httpapi/sse.go:95-117 | in every run what the connection has sent is the history and what the loop makes of the events it received |
| EventStream.RunEvents | backend/internal/httpapi/sse.go:67-117 | the loops of the handler send the history, then the closing signal or what the connection of such a run sends |
| RunSlots.HistoryKeepsInv | backend/internal/runs/manager.go:188-223 | a slot for every holder and a cancel function for every listed run, over every interleaving |
| RunSlots.ActiveIsTheBalance | backend/internal/runs/manager.go:431-447 | the counter is acquired less released and never negative |
| RunSlots.ActiveWithinLimits | backend/internal/runs/manager.go:431-441 | it never exceeds a bound on the limits read |
| RunSlots.ReleasedOnce | backend/internal/runs/manager.go:193-221 | a job that has released or was refused does not release |
| RunSlots.CancellableHolds | backend/internal/runs/manager.go:370-380 | every run that can be cancelled holds a slot |
| RunSlots.Manager.TryAcquire | backend/internal/runs/manager.go:431-441 | takes a slot exactly below the limit |
| JiraMarker.HistoryKeepsInv | backend/internal/jiratrigger/trigger.go:161-197 | at most one call owns a mark, and every launched key keeps its row |
| JiraMarker.LaunchesDiffer | backend/internal/jiratrigger/trigger.go:161-197 | two successful launches are for different keys |
| JiraMarker.OpenAgainIffUnmarked | backend/internal/workflow/trigger.go:57-69 | a failed launch leaves the key open exactly when the unmark was written |
| JiraMarker.SettledKeysAreNotLaunched | backend/internal/workflow/trigger.go:28-69 | a mark nobody owns closes its key for good |
| JiraMarker.LaunchSettles | backend/internal/jiratrigger/trigger.go:172-193 | a successful launch leaves such a mark |
| JiraMarker.RowNamesTheLaunchedRun | backend/internal/workflow/trigger.go:72-83 | a row names no other run than the one the launch for its key has started |
| JiraMarker.LinkNamesTheRun | backend/internal/workflow/trigger.go:72-83 | a link that is written makes the row name it |
| JiraMarker.Trigger.Process | backend/internal/jiratrigger/trigger.go:161-197 | true only for a key that had not been launched before, with other calls in between |
| ImportRun.RunKeepsInv | backend/internal/httpapi/projectimport.go:232-303 | counters, gate and claimed addresses fit the goroutines in every order of steps |
| ImportRun.SummaryAddsUp | backend/internal/httpapi/projectimport.go:288-303 | at the end created, failed and skipped add up to the selection |
| ImportRun.SummaryCountsResults | backend/internal/httpapi/projectimport.go:288-303 | each result the goroutines came back with is counted under its own name |
| ImportRun.SkippedMeaning | backend/internal/httpapi/projectimport.go:256-279 | what is skipped is registered or repeats an address that is worked on |
| ImportRun.AddressesAreWorkedOnOnce | backend/internal/httpapi/projectimport.go:254-286 | at most 8 at work, no address twice, none that is registered |
| ImportRun.NewAddressesAreReached | backend/internal/httpapi/projectimport.go:256-301 | every selected address that was not registered is worked on |
| ImportRun.ImportGoesOn | backend/internal/httpapi/projectimport.go:280-301 | the gate never locks up |
| ImportRun.Importer.Import | backend/internal/httpapi/projectimport.go:232-303 | the loop and the wait end, and the summary adds up |

## Left out

- BatchSlots.TickKeepsTheLimit: asks that no requeue of the harvest was lost, which is exactly when it holds
  (`BatchSlots.HarvestDecidesTheBound`).
- Template.PassesAreSimultaneous: asks for harmless values, which is exact over the texts without stray opening braces
  (`Simultaneity.SimultaneousIffHarmless`); with such braces it can fail (`Simultaneity.StrayBracesOpenAReference`).
- EventStream.GapFreeIff: speaks of connections that lose nothing to a full buffer; those that do skip the lost lines.
- Levelling.Levels: says nothing of the levels of a graph that repeats an id; `Validate` refuses such a graph.
- BatchStore.Store.Delete: leaves out the deletion of the items' runs, which can stop half way and then keeps the batch.
- BatchStore.Store.RunningItems: leaves out that the items are ordered by the time they were started.
- Redaction.RedactHidesEverySecret: asks for a secret the mask cannot rebuild, which is exactly when it holds
  (`Redaction.RedactHidesExactlyMaskable`).
- SQL, locks and commits: a transaction is one atomic step. `withBatch` does not lock the batch row, so this is an
  assumption about the database; column defaults and cascades are assumed as the code relies on them.
- Commits whose outcome is unknown: a write is either done and reported done, or not done.
- Executor writes: store writes of the executor succeed; the path on which `execute` itself cannot level the graph is
  shown not to arise for accepted graphs and is otherwise not modelled.
- Arguments of MCP nodes: they are checked as raw JSON text but rendered after decoding; the reference results speak
  of the text that is checked.
- Trimming: the branch fields of a PR node are trimmed before they are rendered, and the task of a batch before it is
  stored.
- Handlers, sandboxes, git, Jira, GitHub, LLM and MCP clients: a step's work is an arbitrary result or error.
- HTTP handlers other than the SSE loop and `importEt`, routers, JSON and the frontend.
- Event texts, log lines, time stamps and timers; a tick can begin at any time.
- Removal of a project with its batch items, and of a workflow run under a batch item or a processed issue.
- `SecretsOf`: the list of secrets is a parameter.
- `NormalizeRepoURL`: addresses are given in normalized form.
- `strings.ToLower` beyond ASCII and the percent-encoding of a value: parameters.
- The leak report itself (`main`, `sadelestir`): counting and printing.
- Reports, settings, paging, catalog sync, certificates and encryption.
