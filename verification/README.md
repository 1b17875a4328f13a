# The event-sourced runtime and the reverse-DAG compute graph, verified

This project models five connected parts of the repository and proves properties of the model:

1. **The durable store and its replay.** Transactions over an append-only event log and four materialised tables
   (executions, attempts, sessions, commands). The tables are written by one body of code and rebuilt from the
   log by another. The main theorem says that after every interleaving of operations the two agree.
2. **The framework reducer.** A fold over sorted events, followed by a finalisation that propagates child
   failures upward. Its incremental form is compared with its full form, field by field.
3. **Recovery planning.** Kahn ordering with a sorted ready list, transitive dependents, the planner's
   block, skip and invalidate rules, the continuation selector's single pass, and the executor that runs a plan.
4. **The rerun reset.** A sequence of file-system steps guarded by a marker, with a crash allowed between
   any two of them.
5. **The compute graph.** Persistent nodes built by `bind`, the layered sort, and layered execution with
   result caches against plain recursive evaluation. Beside it stands the polling event stream.

## How it is laid out

| file | module | content |
|---|---|---|
| `Types.dfy`, `Sorting.dfy` | `RuntimeTypes`, `Sorting` | event envelope, status vocabularies; Python's stable sort and code-point order |
| `Projection.dfy`, `Reducer.dfy` | `RuntimeProjections`, `FrameworkReducer` | the reducer as functions, and as the class that updates a copy in place |
| `ReducerProofs.dfy`, `Propagation.dfy`, `Checkpoints.dfy` | `ReducerProofs`, `PropagationProofs`, `CheckpointProofs` | incremental and full form, child propagation, the latest-checkpoint index |
| `EventHistory.dfy`, `ProjectionFacts.dfy`, `RecordFacts.dfy` | same names | every field of a reduced projection as the last event that sets it |
| `Ledger.dfy`, `Tables.dfy`, `DurableStore.dfy` | `LedgerReplay`, `DurableTables`, `DurableStore` | the two replay reducers, the transactions as functions on a database value, the store class |
| `StoreInvariant.dfy`, `StoreProtocol.dfy`, `StoreSteps.dfy` | same names | tables against replay, the log monitor, every transaction keeps both |
| `StoreEffects.dfy`, `ReconciliationEffects.dfy` | same names | when each operation commits, and every row and event it writes, on its arguments alone |
| `StoreRuns.dfy`, `LedgerProofs.dfy`, `Reconciliation.dfy`, `CommandRuns.dfy` | `StoreRuns`, `LedgerProofs`, `ReconciliationProofs`, `CommandRuns` | whole runs, the ledger theorem, reconciliation, commands |
| `LogFacts.dfy`, `LogPairs.dfy`, `StoreExactness.dfy`, `StoreSplits.dfy`, `StoreWitnesses.dfy`, `ReplayFacts.dfy`, `LedgerFacts.dfy` | same names | what the log looks like, where the theorems stop, inputs that reach the failures, which logs replay at all, and what the ledger lists |
| `RecoveryGraph.dfy`, `GraphBuilder.dfy`, `Recovery.dfy`, `Continuation.dfy`, `RecoveryPlanner.dfy`, `RecoveryExecutor.dfy` | `RecoveryGraph`, `GraphBuilder`, `Recovery`, `Continuation`, `RecoveryPlanners`, `RecoveryExecution` | dependency graph, planner, selector, executor |
| `RecoveryChoices.dfy`, `ContinuationChoices.dfy`, `ExecutionFacts.dfy` | same names | what a plan decides and why, what the selector decides, what an execution appends and rejects |
| `ResetProtocol.dfy`, `ResetDirectory.dfy` | `ResetProtocol`, `ResetDirectory` | the reset as a step relation with crashes, and the directory manager |
| `ComputeGraph.dfy`, `GraphSort.dfy`, `GraphExecution.dfy`, `GraphFacts.dfy` | same names | nodes and `bind`, layers, execution, and what binding and evaluating mean |
| `Stream.dfy` | `EventStream` | cursor listing and the polling loop |

`dafny verify dfyconfig.toml` checks the whole project.

A transaction is a function from a database value to a result and the committed database, or an error that
leaves the database alone. The methods of `RuntimeDurableStore` update the tables in place and are proved
equal to those functions, rollback included. Concurrency is any interleaving of whole method calls:
`StoreRuns.Run` applies a sequence of operations, and an operation that raises changes nothing. Every writing
method of the code is one transaction, except for the refresh and the two rebuilds, which read and write in
separate ones. The runs take those as one step; what a commit in between does is proved apart, exactly.

What an operation does is stated apart from the code that does it: the effect lemmas give the exact condition for
it to commit and the whole new database, with every row and every appended event written out field by field. The
same holds for the reducer, whose fields are given as the last event that sets each, and for the planner, whose
decisions are given by the declaration, the source and the decision alone.

`StoreProtocol.Watch` is a monitor that reads only the log. It accepts a log when executions, attempts, leases
and commands follow their life cycles, and the invariant says that the tables mirror its state. What an accepted
log looks like is proved separately, position by position.

## What the code does that its interface does not say

The model follows the code here. Each point names the lemma or contract that states it.

- `apply(reduce(xs), ys)` can differ from `reduce(xs + ys)` in `status` and `status_class`, because finalisation
  writes into the fields the fold continues from (`ReducerProofs.IncrementalEqualsFull`, `ReducerProofs.StatusDiverges`).
- `begin_process_attempt` with an empty checkpoint id stores the empty text where replay finds no checkpoint
  (`StoreExactness.CheckpointIdExact`, reached in `StoreWitnesses.EmptyCheckpointSpoils`).
- `append` takes any payload. A resource sample whose usage does not validate, or a new unit whose type is not
  text, makes every later reduction of the log raise (`LedgerProofs.ReduceCarriesAttempts`,
  `StoreWitnesses.BadSampleSpoils`, `StoreWitnesses.UnreadableRefreshFails`).
- A raw event may carry a status, an undeclared execution or an attempt row that replay treats differently from
  the store: an attempt event without a status keeps the row's status in the store and takes that of its type in
  replay, a null or empty ordinal is 1 in the store and refused in replay, and a later event of an attempt may
  name under `resumed_from_attempt_id` what the store ignores and replay turns into text
  (`StoreExactness.RawAppendExact`, `StoreExactness.RawCommandExact`, `StoreWitnesses.NumberedEndSpoils`).
- `reserve_command` does not look up the execution it names; for an undeclared one every later reduction of the
  ledger raises (`StoreExactness.ReserveExact`, reached in `StoreWitnesses.UndeclaredSpoils`).
- `refresh_projection` reads its events and its cursor in separate transactions; when the log grows in between,
  the stored pair is wrong (`StoreExactness.SplitRefreshExact`, reached in `StoreWitnesses.SplitRefreshSpoils`).
- `rebuild_ledger` and `rebuild_commands` also read and replace in separate transactions; rows that a commit in
  between wrote are lost (`StoreSplits.SplitRebuildExact`, `StoreSplits.SplitReceiptsExact`, reached in
  `StoreWitnesses.SplitRebuildSpoils`, `StoreWitnesses.SplitReceiptsSpoils`).
- The first refresh of an empty runtime reduces to the placeholder runtime id `runtime`, so it raises an identity
  mismatch for every other runtime id (`StoreRuns.RefreshStep`, `StoreRuns.FreshRefreshFails`).
- Recommitting the live checkpoint id that is the latest of its process spoils the latest-checkpoint index when it
  moves to another process or falls behind another live checkpoint of its own (`CheckpointProofs.CommitExact`,
  `CheckpointProofs.CommitSpoils`).
- Opening a missing database creates one without an identity, so a failed `continue_runtime` on an empty directory
  makes the next `create` refuse (`ResetDirectory.RuntimeDirectoryManager.ContinueRuntime` and `.Create`). A crash
  inside store creation during a reset leaves a disk no later recovery can complete (`ResetDirectory.HalfCreatedIsRefused`).
- A cleanup that leaves a store of the new runtime behind makes `rerun` take the reset as complete already
  (`ResetDirectory.RuntimeDirectoryManager.Rerun`).
- `bind` copies the result of an executed node. A copy that still misses an input is run all the same. One with
  nothing missing is not, and answers with the result of its origin, right or not
  (`GraphExecution.BindInHistory`, `GraphExecution.BindAndExecute`, `GraphExecution.StaleAfterRebinding`).

## Model

| member | source | states |
|---|---|---|
| StoreRuns.LedgerEqualsReplay | flowlet/runtime/durable_store.py:939-1090 | after every disciplined run of store operations the materialised ledger equals the ledger reduced from the whole log, in every execution and attempt field and in both orders; rebuilding ledger or commands commits the same database |
| StoreRuns.LogFollowsProtocol | flowlet/runtime/durable_store.py:1000-1039 | after every disciplined run the sequences are 0..n-1, the monitor accepts the log and mirrors the tables, at most one session is active, the stored projection reduces the events up to its cursor, and the pending events are exactly those after it |
| StoreRuns.RunGood | flowlet/runtime/durable_store.py:1000-1090 | the whole invariant holds after every disciplined run |
| StoreRuns.OpStep | flowlet/runtime/durable_store.py:99-987 | each of the sixteen operations, committed or rolled back, keeps the invariant and the stored projection and only extends the log |
| StoreEffects.RenewEffect | flowlet/runtime/durable_store.py:148-164 | renewing succeeds if and only if the ttl is positive and the session's row is active, the caller's and not expired; the row moves its heartbeat to now and its expiry to now plus ttl, one event says so, and nothing else changes |
| StoreEffects.ReleaseEffect | flowlet/runtime/durable_store.py:166-182 | releasing succeeds for the owner of the live lease and nobody else; the row is released now, with one event |
| StoreEffects.AcquireEffect | flowlet/runtime/durable_store.py:99-146 | acquiring succeeds if and only if the ttl is positive, the id is new, neither id nor owner is blank and no active session is unexpired; an expired owner is marked so first; the new row holds the owner and now plus ttl |
| StoreEffects.BeginExecutionEffect | flowlet/runtime/durable_store.py:743-804 | a new id that is not blank, initial exactly when it is the first; the row with the next ordinal and its event |
| StoreEffects.TransitionCommits | flowlet/runtime/durable_store.py:806-830 | a transition commits if and only if a pending execution starts, is cancelled or interrupted, or a running one ends |
| StoreEffects.TransitionEffect | flowlet/runtime/durable_store.py:822-855 | the row gets the status, its start or finish time and its error, and one event of the matching type and class carries them |
| StoreEffects.DeclareEffect | flowlet/runtime/durable_store.py:313-353 | declared once with its event, a no-op again, an error when changed |
| StoreEffects.WriteSpecsEffect | flowlet/runtime/durable_store.py:857-870 | the last declaration of each id wins, the others stay, no event |
| StoreEffects.BeginAttemptEffect | flowlet/runtime/durable_store.py:377-451 | the next ordinal of the process, the id made from it, a running row with all that declaration and call say, both events, and nothing else |
| StoreEffects.FinishAttemptCommits | flowlet/runtime/durable_store.py:464-498 | finishing succeeds if and only if the event is one of the four terminal ones and the attempt is known and open |
| StoreEffects.FinishAttemptEffect | flowlet/runtime/durable_store.py:499-538 | the row gets the status of the event, the finish time and the error if one is given; one event carries the error, the result and the metadata; of the other rows only the execution's last sequence moves |
| StoreEffects.ReserveEffect | flowlet/runtime/durable_store.py:558-616 | the receipt of a known id when the request is the same and a conflict when not; otherwise a new receipt and event with everything the request says |
| StoreEffects.FinishCommandEffect | flowlet/runtime/durable_store.py:627-680 | the first answer is stored with its result and error, the same one again returns the receipt, any other raises |
| StoreEffects.WriteProjectionEffect | flowlet/runtime/durable_store.py:880-899 | a projection of this runtime is stored with its cursor unless the cursor is past the last event |
| StoreEffects.AppendEffect | flowlet/runtime/durable_store.py:1000-1090 | any event that commits gets the next number, moves the last sequence of its execution, and makes or updates the row of its attempt field by field |
| StoreEffects.GoodIsOrderly | flowlet/runtime/durable_store.py:1000-1039 | every database of a disciplined run meets what the effect lemmas ask for |
| ReconciliationEffects.ReconcileExact | flowlet/runtime/durable_store.py:198-301 | only the owner of the live lease reconciles; the two lists hold exactly the abandoned executions by ordinal and the abandoned attempts by process and ordinal; each is interrupted now with the lost-session error and one event, in that order, and nothing else changes |
| StoreRuns.RunContinues | flowlet/runtime/durable_store.py:1000-1039 | the log is append-only over runs: the log of the start of a run is a prefix of the whole run's log |
| StoreRuns.CatchUp | flowlet/runtime/durable_store.py:916-937 | on a dense log that the reducer can read, applying the events after the cursor to a projection that is right up to it succeeds and gives the reduction of the whole log outside the status pair |
| StoreRuns.RefreshStep | flowlet/runtime/durable_store.py:916-937 | a refresh in one step fails, with an identity mismatch, if and only if it is the first one of an empty log under an id other than the placeholder; otherwise it changes only the stored projection, leaves it right and its cursor at the end |
| StoreRuns.FreshRefreshFails | flowlet/runtime/durable_store.py:916-937 | refreshing a fresh runtime under any other id raises the identity mismatch |
| StoreRuns.PendingEvents | flowlet/runtime/durable_store.py:911-914 | `events_after_projection` lists exactly the events after the cursor |
| LedgerProofs.LedgerIsReplay | flowlet/runtime/ledger.py:29-95 | tables in step with a log the reducer can read give the same ledger as the ledger reducer, and `rebuild_ledger` changes nothing |
| LedgerProofs.CommandsAreReplay | flowlet/runtime/command.py:65-121 | receipts in step with the log are, in acceptance order, what the command reducer returns, and `rebuild_commands` changes nothing |
| LedgerProofs.ReduceCarriesAttempts | flowlet/runtime/projection.py:269-307 | the framework reducer accepts a dense log if and only if its attempt events replay and every resource usage and every new unit type in it validates; its attempt tables are that replay |
| LedgerProofs.AttemptListsReplayed | flowlet/runtime/durable_store.py:939-965 | the attempt ids of each process, ordered by ordinal, are the lists replay builds in log order, gaps in the ordinals included |
| LedgerReplay.ReplayExecutionLoop | flowlet/runtime/ledger.py:38-88 | the loop over sorted events computes the execution replay, with the same first error |
| LedgerReplay.ReduceCommandEvents | flowlet/runtime/command.py:65-121 | the loop over sorted events computes the command replay, with the same first error |
| DurableStore.ReduceLedgerEvents | flowlet/runtime/ledger.py:29-95 | the ledger reducer as it runs, executions first and then the framework reducer, returns the ledger of the replay theorem |
| ReplayFacts.ExecutionsReplayExactly | flowlet/runtime/ledger.py:38-78 | a log replays its executions if and only if every event is of the runtime and each execution is declared once, with a valid record, before anything names it |
| ReplayFacts.CommandsReplayExactly | flowlet/runtime/command.py:65-115 | receipts replay if and only if command events are of the runtime, name a command, and accept it once, validly, before they answer it |
| ReplayFacts.ReducesExactly | flowlet/runtime/projection.py:88-117 | the reducer reads a dense log if and only if every new attempt makes a valid record and every usage and new unit type validates |
| ReplayFacts.LedgerReducesExactly | flowlet/runtime/ledger.py:32-91 | the ledger of a dense log is rebuilt if and only if both hold |
| ReplayFacts.ReceiptsReduceExactly | flowlet/runtime/command.py:65-115 | the receipts of a dense log are rebuilt if and only if its commands replay |
| ReplayFacts.FoldAdvances | flowlet/runtime/projection.py:99-109 | a fold that succeeds went up in sequence and, where enforced, kept its runtime id; one that fails for either met an event that did not |
| LedgerFacts.LedgerLists | flowlet/runtime/durable_store.py:939-965 | the ledger holds the tables, executions by ordinal, the attempts of each process by ordinal, the last sequence and the projection cursor |
| LedgerFacts.RefreshReads | flowlet/runtime/durable_store.py:916-935 | a refresh reduces the whole log when nothing is stored or the stored projection is of the old format, and else applies what came after the cursor |
| LedgerFacts.AppliesUnlessOld | flowlet/runtime/projection.py:95-96 | applying is refused for the old format and nothing else |
| StoreInvariant.ExecutionsStep | flowlet/runtime/ledger.py:51-88 | one admitted event moves the execution table and the execution replay alike |
| StoreInvariant.AttemptsStep | flowlet/runtime/durable_store.py:1041-1091 | one admitted event moves the attempt table and the attempt replay alike, two separately written updates |
| StoreInvariant.CommandsStep | flowlet/runtime/command.py:74-117 | one admitted event moves the receipts and the command replay alike |
| StoreInvariant.AttemptIdInjective | flowlet/runtime/durable_store.py:399-405 | an attempt id determines its process and its ordinal, so ids are globally unique |
| StoreInvariant.EventsAfterIsSuffix | flowlet/runtime/durable_store.py:703-716 | listing after a sequence of a dense log is the suffix after it |
| StoreProtocol.EmitKeepsInv | flowlet/runtime/durable_store.py:1000-1039 | any event the tables admit keeps tables, replay and monitor in step at once |
| StoreProtocol.ObserveMirrors | flowlet/runtime/durable_store.py:1000-1039 | an admitted event is accepted by the monitor, and the tables mirror its new state |
| StoreSteps.AppendStep | flowlet/runtime/durable_store.py:303-311 | a raw event without a lifecycle type that names only declared executions and holds nothing the reducer refuses keeps the invariant |
| StoreSteps.AcquireStep | flowlet/runtime/durable_store.py:99-146 | acquiring, with or without displacing an expired owner, keeps the invariant and only extends the log |
| StoreSteps.DisplaceStep | flowlet/runtime/durable_store.py:114-127 | displacing the owner of an expired lease leaves nobody active and loses no session row |
| StoreSteps.RenewStep | flowlet/runtime/durable_store.py:148-164 | renewing keeps the invariant and only extends the log |
| StoreSteps.ReleaseStep | flowlet/runtime/durable_store.py:166-182 | releasing keeps the invariant and only extends the log |
| StoreSteps.BeginExecutionStep | flowlet/runtime/durable_store.py:743-804 | declaring an execution wave keeps the invariant, the written row being the one replay makes |
| StoreSteps.TransitionStep | flowlet/runtime/durable_store.py:806-855 | an allowed transition keeps the invariant, the written row being the one replay makes |
| StoreSteps.DeclareStep | flowlet/runtime/durable_store.py:313-353 | declaring a process once keeps the invariant |
| StoreSteps.NextAttempt | flowlet/runtime/durable_store.py:399-405 | in a right table the largest ordinal is well defined and the id of the next attempt is free |
| StoreSteps.BeginAttemptStep | flowlet/runtime/durable_store.py:355-451 | the created and started events of one attempt keep the invariant, for every checkpoint id but the empty text |
| StoreSteps.FinishAttemptStep | flowlet/runtime/durable_store.py:453-538 | finishing an open attempt keeps the invariant |
| StoreSteps.ReserveStep | flowlet/runtime/durable_store.py:545-616 | reserving a command, new or repeated, keeps the invariant |
| StoreSteps.FinishCommandStep | flowlet/runtime/durable_store.py:618-680 | answering a command, new or repeated, keeps the invariant |
| ReconciliationProofs.ReconcileEffect | flowlet/runtime/durable_store.py:198-301 | reconciling interrupts exactly the stale attempts and executions, one event each, with this instant and the lost-session error in their rows, leaves every other row and field as it was, and keeps the invariant |
| ReconciliationProofs.ReconcileTakesOver | flowlet/runtime/durable_store.py:198-301 | afterwards every unfinished execution is the session's, every open attempt is its own or nobody's in an execution that was not stale, and a second reconciliation appends nothing |
| ReconciliationProofs.QuietReconcile | flowlet/runtime/durable_store.py:212-301 | with nothing stale a reconciliation commits the same database |
| LogFacts.WatchPrefix | flowlet/runtime/durable_store.py:1000-1039 | executions, finished statuses, attempt phases, ordinals, ended sessions and answers only grow along an accepted log |
| LogFacts.ExecutionHistory | flowlet/runtime/durable_store.py:1417-1435 | nothing of an execution follows its terminal event, none is created twice, and neighbouring lifecycle events are allowed transitions |
| LogFacts.ExecutionBegins | flowlet/runtime/durable_store.py:743-804 | the first lifecycle event of an execution is its creation |
| LogFacts.ExecutionKinds | flowlet/runtime/durable_store.py:762-778 | the first execution of a lineage is initial and every later one continues it |
| LogFacts.AttemptHistory | flowlet/runtime/durable_store.py:453-538 | events of one attempt come created, started, terminal, each at most once |
| LogFacts.AttemptOrdinals | flowlet/runtime/durable_store.py:399-405 | ordinals of a process count 1, 2, 3, ... in log order and the attempt id is made from them |
| LogFacts.AttemptsAreOpened | flowlet/runtime/durable_store.py:355-451 | every attempt the log speaks of was created in it, in an execution unfinished at that moment, and was started unless it is merely created |
| LogFacts.AttemptBegins | flowlet/runtime/durable_store.py:355-538 | the first event of an attempt creates it, in an execution unfinished then, and an attempt that ended was started before |
| LogFacts.CommandHistory | flowlet/runtime/durable_store.py:545-680 | one acceptance per command id, then at most one answer, never an answer first |
| LogFacts.AnswersAreAccepted | flowlet/runtime/durable_store.py:618-680 | every command the log speaks of has its accepted event in it |
| LogFacts.CommandBegins | flowlet/runtime/durable_store.py:545-680 | the first event of a command is its acceptance |
| LogFacts.LeasesDoNotOverlap | flowlet/runtime/durable_store.py:99-146 | between two acquisitions the first session has ended in the log |
| LogFacts.EndedForGood | flowlet/runtime/durable_store.py:148-182 | a session that was released or expired appears in no later session event |
| LogFacts.DisplacedAfterExpiry | flowlet/runtime/durable_store.py:114-127 | a session is displaced no earlier than the expiry of its last acquisition or renewal |
| LogFacts.SessionBegins | flowlet/runtime/durable_store.py:99-182 | the first event of a session is its acquisition |
| LogPairs.RunPaired | flowlet/runtime/durable_store.py:99-146 | in the log of every disciplined run a displaced session is followed at once by the acquisition of another session at the same instant, and a created attempt by the event that starts it |
| StoreExactness.EndedCannotAct | flowlet/runtime/durable_store.py:1211-1227 | a session that is not active can neither renew, release, reconcile nor be acquired again |
| StoreExactness.EndedStaysEnded | flowlet/runtime/durable_store.py:99-182 | once ended a session stays ended through every continuation of the run |
| StoreExactness.RawAppendExact | flowlet/runtime/durable_store.py:303-311 | any raw event that commits, attempt events included, leaves the ledger equal to its replay if and only if it is safe: no undeclared execution, no second declaration, no new status; an attempt row that store and reducer write alike, whatever the payload holds under the keys they read; and no usage or new unit type the reducer refuses |
| StoreExactness.RawCommandExact | flowlet/runtime/durable_store.py:303-311 | any raw event that commits leaves the receipts equal to their replay if and only if it is not a command event |
| StoreExactness.RawAppendCommits | flowlet/runtime/durable_store.py:1000-1069 | a raw event commits if and only if its runtime id is right and, for a new attempt, its record validates and its ordinal goes beyond those of its process |
| StoreExactness.CheckpointIdExact | flowlet/runtime/durable_store.py:355-451 | a begun attempt leaves the ledger equal to its replay if and only if its checkpoint id is not the empty text |
| StoreExactness.SplitRefreshExact | flowlet/runtime/durable_store.py:916-937 | a refresh whose read and write are separate transactions stores a right pair if and only if the log did not grow in between |
| StoreExactness.ReserveExact | flowlet/runtime/durable_store.py:545-611 | a committed reservation leaves the ledger equal to its replay if and only if the command was known or the execution it names is declared |
| StoreSplits.SplitRebuildExact | flowlet/runtime/durable_store.py:967-987 | a ledger rebuild whose read and write are separate transactions leaves rows equal to their replay if and only if nothing appended in between names an execution or an attempt |
| StoreSplits.SplitReceiptsExact | flowlet/runtime/durable_store.py:690-701 | a command rebuild in two transactions leaves receipts equal to their replay if and only if no command event was appended in between |
| StoreSplits.TablesMoved | flowlet/runtime/durable_store.py:1032-1090 | between two databases of a run a table is unchanged if and only if no event in between names one of its rows |
| StoreWitnesses.BadSampleSpoils | flowlet/runtime/projection.py:375-379 | in every database of the runs a resource sample with an invalid usage is accepted, and from then on the ledger cannot be reduced |
| StoreWitnesses.UnreadableStays | flowlet/runtime/projection.py:103-115 | a log with a prefix the reducer cannot read cannot be read however it grows |
| StoreWitnesses.UnreadableRefreshFails | flowlet/runtime/durable_store.py:916-937 | with such an event among the pending ones every refresh raises, incremental or full |
| StoreWitnesses.BeginAttemptCommits | flowlet/runtime/durable_store.py:355-451 | beginning an attempt succeeds if and only if process and execution are declared and the execution is unfinished and of no other session |
| StoreWitnesses.EmptyCheckpointSpoils | flowlet/runtime/durable_store.py:355-451 | one declaration, one execution and one attempt with an empty checkpoint id part the ledger from its replay |
| StoreWitnesses.SplitRefreshSpoils | flowlet/runtime/durable_store.py:916-937 | one event read, a second appended before the write: the stored pair is wrong |
| StoreWitnesses.UndeclaredSpoils | flowlet/runtime/ledger.py:64-65 | reserving a command for an undeclared execution commits and parts the ledger from its replay |
| StoreWitnesses.SplitRebuildSpoils | flowlet/runtime/durable_store.py:967-987 | an execution begun between the read and the write of a rebuild is lost from the table |
| StoreWitnesses.SplitReceiptsSpoils | flowlet/runtime/durable_store.py:690-701 | a command reserved between the read and the write of a rebuild loses its receipt |
| StoreWitnesses.NumberedEndSpoils | flowlet/runtime/projection.py:297-298 | a terminal event of a known attempt naming a value that is no text under `resumed_from_attempt_id` commits, leaves the row's value alone, and keeps the ledger equal to its replay if and only if the row already says that value's text |
| StoreWitnesses.NumberedEndReached | flowlet/runtime/projection.py:297-298 | one declaration, one execution and one attempt reach a database where such an event parts the ledger from its replay |
| CommandRuns.ReservedOnce | flowlet/runtime/durable_store.py:545-616 | after a committed reservation and any further operations, the same request returns the stored receipt and commits nothing, and any other request under the id conflicts |
| CommandRuns.FinishedOnce | flowlet/runtime/durable_store.py:618-680 | after a committed answer and any further operations, the same answer returns the receipt and commits nothing, and any other answer conflicts |
| CommandRuns.ReceiptsStand | flowlet/runtime/durable_store.py:545-701 | whatever runs in between, a receipt is never lost, changes only by being answered once, and never after that |
| DurableStore.RuntimeDurableStore.AppendEventTx | flowlet/runtime/durable_store.py:1000-1039 | the append helper leaves exactly the event, attempt and execution rows of the append transaction |
| DurableStore.RuntimeDurableStore.ApplyAttemptEventTx | flowlet/runtime/durable_store.py:1041-1091 | inserts or updates the attempt row, under the uniqueness of process and ordinal |
| DurableStore.RuntimeDurableStore.AppendRaw | flowlet/runtime/durable_store.py:303-311 | commits the append transaction of the ledger theorem, or rolls back to the state before |
| DurableStore.RuntimeDurableStore.AcquireBackendSession | flowlet/runtime/durable_store.py:99-146 | commits the acquire transaction of the lease theorems, or rolls back to the state before |
| DurableStore.RuntimeDurableStore.RenewBackendSession | flowlet/runtime/durable_store.py:148-164 | commits the renew transaction of the lease theorems, or rolls back to the state before |
| DurableStore.RuntimeDurableStore.ReleaseBackendSession | flowlet/runtime/durable_store.py:166-182 | commits the release transaction of the lease theorems, or rolls back to the state before |
| DurableStore.RuntimeDurableStore.ReconcileInterruptedWork | flowlet/runtime/durable_store.py:198-301 | the two loops over rows in query order commit the reconciliation of the take-over theorem, or roll back |
| DurableStore.RuntimeDurableStore.BeginExecutionWave | flowlet/runtime/durable_store.py:743-804 | commits the begin-execution transaction, or rolls back to the state before |
| DurableStore.RuntimeDurableStore.TransitionExecutionTo | flowlet/runtime/durable_store.py:806-855 | commits the transition transaction, or rolls back to the state before |
| DurableStore.RuntimeDurableStore.DeclareProcessOnce | flowlet/runtime/durable_store.py:313-353 | commits the declaration, tells whether it was new, or rolls back when the declaration changed |
| DurableStore.RuntimeDurableStore.UpsertSpecs | flowlet/runtime/durable_store.py:857-870 | the loop leaves the declarations the bulk write is specified to leave |
| DurableStore.RuntimeDurableStore.QueryMaxOrdinal | flowlet/runtime/durable_store.py:399-404 | the scan returns the largest ordinal of the process, zero without attempts |
| DurableStore.RuntimeDurableStore.BeginProcessAttempt | flowlet/runtime/durable_store.py:355-451 | commits both attempt events of the begin transaction, or rolls back both |
| DurableStore.RuntimeDurableStore.FinishProcessAttempt | flowlet/runtime/durable_store.py:453-538 | commits the terminal event of the finish transaction, or rolls back |
| DurableStore.RuntimeDurableStore.ReserveCommandOnce | flowlet/runtime/durable_store.py:545-616 | commits the reservation of the exactly-once theorem, or rolls back |
| DurableStore.RuntimeDurableStore.FinishCommandOnce | flowlet/runtime/durable_store.py:618-680 | commits the answer of the exactly-once theorem, or rolls back |
| DurableStore.RuntimeDurableStore.LedgerNow | flowlet/runtime/durable_store.py:939-965 | rows sorted and grouped by the loops are the ledger that equals the replay |
| DurableStore.RuntimeDurableStore.Commands | flowlet/runtime/durable_store.py:682-688 | the receipts in acceptance order |
| DurableStore.RuntimeDurableStore.RefreshProjectionNow | flowlet/runtime/durable_store.py:916-937 | commits the refresh of the cursor theorem, falling back to a full reduction as the code does |
| DurableStore.RuntimeDurableStore.RebuildLedgerRows | flowlet/runtime/durable_store.py:967-987 | replaces the rows by the reduction of the log |
| DurableStore.RuntimeDurableStore.RebuildCommandRows | flowlet/runtime/durable_store.py:690-701 | replaces the receipts by the reduction of the log |
| DurableStore.RuntimeDurableStore.PerformOp | flowlet/runtime/durable_store.py:99-987 | any operation of a run, performed on the object, leaves exactly the database the run theorems speak of |
| DurableStore.GroupedIsOrdered | flowlet/runtime/durable_store.py:946-956 | grouping rows that come by process and ordinal gives each process its attempts by ordinal |
| ReducerProofs.IncrementalEqualsFull | flowlet/runtime/projection.py:77-117 | for sequenced events of one runtime the incremental form equals the full form outside status and status class, and on each of those two if and only if the first finalisation left it alone, a later runtime-level event sets it, or the last finalisation takes a branch |
| ReducerProofs.IncrementalSameButStatus | flowlet/runtime/projection.py:84-117 | on a log that replays, the incremental form succeeds and equals the full form outside the status pair |
| ReducerProofs.IncrementalSucceeds | flowlet/runtime/projection.py:84-117 | applying later events succeeds if and only if reducing everything does |
| ReducerProofs.ApplySameButStatus | flowlet/runtime/projection.py:88-117 | projections that differ only in the status pair stay so under `apply` |
| ReducerProofs.StatusDiverges | flowlet/runtime/projection.py:402-413 | a process reported active and then blocked makes the incremental and the full status differ |
| ReducerProofs.ReducePermutation | flowlet/runtime/projection.py:77-83 | `reduce` does not depend on the order of its input |
| ReducerProofs.ReduceIsFold | flowlet/runtime/projection.py:88-117 | on sequenced events `reduce` is the plain fold, finalised once |
| ReducerProofs.FoldCursor | flowlet/runtime/projection.py:88-117 | the fold counts every event and its last sequence and runtime id are those of the last event |
| ProjectionFacts.ReducedProcess | flowlet/runtime/projection.py:139-190 | a reduction reports exactly the processes some event is about, and each field as the last event that sets it says |
| ProjectionFacts.ReductionOrder | flowlet/runtime/projection.py:473-489 | the order events are folded in: by sequence, then those without one by time |
| ProjectionFacts.ReducedStatus | flowlet/runtime/projection.py:382-413 | failed if any process failed, else cancelled if any was, else running if any is active, else succeeded if all are, else what the last events without a process say; counts and active ids are those of the processes and units |
| ProjectionFacts.ReappliedStatus | flowlet/runtime/projection.py:84-117 | the same for the incremental form, from the pair it starts with |
| ProjectionFacts.ReducedSummaries | flowlet/runtime/projection.py:169-175 | the progress and usage summaries repeat the process states |
| RecordFacts.ReducedUnit | flowlet/runtime/projection.py:193-242 | a reduction holds exactly the units some event reports on, each field as the last event that sets it says |
| RecordFacts.ReducedAttempt | flowlet/runtime/projection.py:269-307 | a reduction holds exactly the attempts some attempt event names: identity and inputs from the first, the rest from the last word on each field |
| RecordFacts.ReducedCheckpoint | flowlet/runtime/projection.py:310-336 | a checkpoint is live with the reference of the last commit of its id unless an invalidation came after it |
| RecordFacts.ReducedCollections | flowlet/runtime/projection.py:360-372 | errors, artifacts and the event ids of units are those of the events, in order |
| PropagationProofs.ReducedInherits | flowlet/runtime/projection.py:444-466 | a process that propagation changed has the status of a failed or cancelled child and its error, unless it had one |
| PropagationProofs.PropagationCharacterised | flowlet/runtime/projection.py:416-466 | for every policy and every parent structure, cyclic ones included, and any order that visits every process, a process ends failed or cancelled if and only if an enabled chain of known parents reaches it from one that was so; all others keep their state |
| PropagationProofs.BothSwitchesOn | flowlet/runtime/projection.py:416-466 | with both switches on, bad afterwards means itself or a descendant bad before, and a newly failed or cancelled process has an originally failed or cancelled descendant |
| PropagationProofs.ReducedPropagated | flowlet/runtime/projection.py:382-466 | the visiting order of the fold lists every process, so the processes of any reduction, under any policy, are the propagation of the states its events reported |
| PropagationProofs.ReducedByDefault | flowlet/runtime/projection.py:382-466 | in any reduction under the default policy a process is bad if and only if it or a descendant was reported so, and a newly failed or cancelled one has such a descendant |
| CheckpointProofs.CommitExact | flowlet/runtime/projection.py:325-348 | a commit leaves the latest-checkpoint index right if and only if it does not move the latest live id of a process to another process or behind another live checkpoint |
| CheckpointProofs.CommitSpoils | flowlet/runtime/projection.py:337-348 | committing the only live checkpoint of a process again under another process leaves a right index wrong |
| CheckpointProofs.InvalidationKeepsLatest | flowlet/runtime/projection.py:310-324 | invalidating any checkpoint leaves the index right |
| CheckpointProofs.LatestAlwaysRight | flowlet/runtime/projection.py:310-348 | the index names the maximum by time and id of exactly the processes with a live checkpoint after every event of a run if and only if no commit in it spoils |
| CheckpointProofs.ReducedLatestRight | flowlet/runtime/projection.py:310-348 | the index of any reduction without spoiling commits is right |
| FrameworkReducer.RuntimeFrameworkReducer.Reduce | flowlet/runtime/projection.py:77-83 | the in-place reduction returns the full form the theorems are about |
| FrameworkReducer.RuntimeFrameworkReducer.Apply | flowlet/runtime/projection.py:84-117 | the in-place application returns the incremental form the theorems are about |
| FrameworkReducer.ProjectionCopy.ApplyCheckpointEvent | flowlet/runtime/projection.py:310-348 | the in-place update leaves the checkpoint index the index theorems are about |
| FrameworkReducer.ProjectionCopy.PropagateChildTerminalState | flowlet/runtime/projection.py:416-441 | the while-changed loop ends with the propagation that is characterised above |
| FrameworkReducer.ProjectionCopy.FinalizeProjection | flowlet/runtime/projection.py:382-413 | the finalisation writes the derived fields, and the status pair only when a branch fires |
| RecoveryGraph.GraphExact | flowlet/runtime/recovery.py:63-116 | on unique ids with known dependencies and no self-dependency: either the lexicographically smallest topological order with both edge lists exact, or a cycle error naming exactly the largest set in which every process depends on another member |
| RecoveryGraph.GraphRefuses | flowlet/runtime/recovery.py:65-84 | success implies well-formed declarations; a repeated id is refused with the first id that repeats; otherwise the first faulty process in id order is named, for depending on itself before unknown ids, all of which are listed in order |
| RecoveryGraph.GraphIgnoresOrder | flowlet/runtime/recovery.py:63-116 | the result does not depend on the order of unique declarations |
| RecoveryGraph.KahnDecides | flowlet/runtime/recovery.py:90-109 | the ready-list order is complete if and only if some topological order exists, is then the smallest, and otherwise leaves the largest entangled set |
| GraphBuilder.BuildRuntimeProcessGraph | flowlet/runtime/recovery.py:63-116 | the loops over dictionaries, counters and the sorted ready list return the graph or error of the theorem above |
| GraphBuilder.TopologicalSort | flowlet/runtime/recovery.py:90-104 | the counting loop visits processes in the ready-list order, each once |
| GraphBuilder.Downstream | flowlet/runtime/recovery.py:47-60 | the worklist returns exactly the transitive dependents in topological order, or the unknown ids |
| Recovery.PlanListed | flowlet/runtime/recovery.py:276-331 | a plan has one step per process in dependency order, each the one its rule gives in the whole plan, so every step follows all it depends on |
| Recovery.ActionsExact | flowlet/runtime/recovery.py:276-331 | blocked if and only if the process or something upstream is refused; skipped if and only if asked for, successful before, not below a blocked step, and preserved or below nothing re-executed; otherwise as decided and eligible |
| Recovery.BlockedExactly | flowlet/runtime/recovery.py:285-302 | blocking reaches exactly the transitive dependents of refused processes |
| Recovery.InvalidatesExactly | flowlet/runtime/recovery.py:304-322 | a re-executed step invalidates its declared processes and exactly its transitive dependents, any other step what was declared |
| Recovery.StepMeans | flowlet/runtime/recovery.py:276-327 | each step lists its dependencies, sorts its invalidations, passes the checkpoint validation, and is blocked, skipped or executed for the stated reasons |
| RecoveryPlanners.RuntimeRecoveryPlanner.CreatePlan | flowlet/runtime/recovery.py:252-331 | the planner's loop returns the plan of these theorems, or the first error in the code's order |
| Continuation.AffectedLeast | flowlet/runtime/recovery.py:419-443 | one topological pass computes the least set with all seeds and declared invalidations that is closed under "not preserved and depends on a member" |
| Continuation.ContinuationExact | flowlet/runtime/recovery.py:390-463 | nothing outside that set is executed again; every member is, unless blocked or told to skip; and a process outside it is skipped unless a dependency is blocked |
| Continuation.SpreadCloses | flowlet/runtime/recovery.py:438-443 | after the single pass no process is left to pull in |
| RecoveryPlanners.RuntimeContinuationSelector.CreatePlan | flowlet/runtime/recovery.py:390-463 | the selector's two loops and its decisions return the plan of the least-set theorem, or the first error in the code's order |
| RecoveryChoices.RefusalExact | flowlet/runtime/recovery.py:334-384 | a decision is refused if and only if it breaks a rule for its action, and the reason is the first one broken |
| RecoveryChoices.PlanChosen | flowlet/runtime/recovery.py:278-322 | every step of a plan: blocked below a blocked dependency, blocked when its decision is not allowed, a skip overturned above nothing preserved, otherwise as decided; with its reason, dependencies and all it takes over |
| RecoveryChoices.PlanExists | flowlet/runtime/recovery.py:264-276 | a plan exists if and only if the declarations form a graph and the decisions name each declared process once |
| RecoveryChoices.PlanErrors | flowlet/runtime/recovery.py:264-276 | why there is no plan: the fault of the declarations, decisions that share a process, or both lists of the coverage mismatch in ascending order |
| RecoveryChoices.PlanCovers | flowlet/runtime/recovery.py:324-331 | one step for each declared process |
| ContinuationChoices.ContinuationChosen | flowlet/runtime/recovery.py:424-512 | the plan comes from one decision for each process: skip outside the least closed set; inside it the preferred action, else resume with a live checkpoint, else retry an attempt, else restart |
| ContinuationChoices.ContinuationExists | flowlet/runtime/recovery.py:402-441 | a continuation exists if and only if the runtime is the same, every process is assessed once, nothing unknown is declared invalid and every process that has to run has a decision that can be made |
| ContinuationChoices.ContinuationErrors | flowlet/runtime/recovery.py:402-441 | why there is no continuation, in the order of the checks, with the ids each error names |
| ExecutionFacts.NotesOfStep | flowlet/runtime/executor.py:363-425 | the events of one step by outcome, with operation, source attempt and checkpoint of the attempt it opens |
| ExecutionFacts.ResultsExactly | flowlet/runtime/executor.py:203-233 | the result of each step that ran is what its body returned, and a skipped one has none |
| ExecutionFacts.RejectionExact | flowlet/runtime/executor.py:178-199 | each rejection if and only if its own check is the first to fail, with the ids it names |
| RecoveryExecution.PlannerPlansAccepted | flowlet/runtime/executor.py:178-199 | a planner's output is rejected if and only if the target differs, a step is blocked or a needed process is not registered; the order check never fires |
| RecoveryExecution.DependenciesResolvedFirst | flowlet/runtime/executor.py:190-216 | whatever a step depends on was skipped or had ended before the step's own first event, up to and including the step that fails |
| RecoveryExecution.DispatchesExactly | flowlet/runtime/executor.py:209-216 | the attempts opened are exactly the steps that are not skipped, in plan order |
| RecoveryExecution.RuntimeBackendExecutor.ExecuteRecoveryPlan | flowlet/runtime/executor.py:176-233 | a rejected plan writes and runs nothing; an accepted one is saved, runs up to the first failing step, and appends exactly one closing event |
| RecoveryExecution.RuntimeBackendExecutor.Validate | flowlet/runtime/executor.py:178-199 | the checks in the code's order, with the first error |
| ResetProtocol.ResetIsCrashSafe | flowlet/runtime/directory.py:108-151 | from the committed marker on, with crashes between any two steps: never refused; before the new identity is committed every old entry is in place or staged, unchanged; when done the new lineage is all there is, with no marker and no staging directory |
| ResetProtocol.StepKeepsInv | flowlet/runtime/directory.py:116-151 | every step and every crash keeps the reset invariant |
| ResetProtocol.ResetProgresses | flowlet/runtime/directory.py:116-151 | without further crashes a reset always has a next step, and each one brings it closer to done |
| ResetDirectory.RuntimeDirectoryManager.CompleteReset | flowlet/runtime/directory.py:116-145 | from any disk the run is a history of the step relation, done or refused, and it is done if and only if the new lineage is there already or no entry's name is taken in staging |
| ResetDirectory.RuntimeDirectoryManager.RecoverPendingReset | flowlet/runtime/directory.py:100-115 | from any disk an interrupted reset can leave, recovery ends with the new lineage alone; without a marker it changes nothing |
| ResetDirectory.OpeningKeeps | flowlet/runtime/durable_store.py:58-70 | opening leaves an empty database where there was none and every other entry as it was |
| ResetDirectory.RerunExact | flowlet/runtime/directory.py:206-218 | a rerun is accepted if and only if the expected runtime is there and unheld and the new identity has another id, the next generation, the abandoned runtime as origin and the same task; else the first that fails is the reason |
| ResetDirectory.RuntimeDirectoryManager.Rerun | flowlet/runtime/directory.py:57-98 | refused for a wrong runtime, a live lease or an invalid identity it leaves the recovered directory alone; with a cleanup that raises it leaves what that left; otherwise the new lineage replaces everything, unless the cleanup put a store of the new runtime there itself |
| ResetDirectory.RuntimeDirectoryManager.Create | flowlet/runtime/directory.py:39-46 | succeeds if and only if no reset was pending and the directory was empty, and then holds the new store alone |
| ResetDirectory.RuntimeDirectoryManager.ContinueRuntime | flowlet/runtime/directory.py:48-55 | completes a pending reset first, then succeeds if and only if the store belongs to the expected runtime |
| ResetDirectory.HalfCreatedIsRefused | flowlet/runtime/directory.py:130-141 | a new database without identity over fully staged old entries makes every later recovery fail |
| ComputeGraph.BindAllWired | flowlet/compute_graph/node.py:88-136 | after any keyword arguments, and after rebinding, parents and missing inputs cover everything bound, with one variable object per name |
| ComputeGraph.Bind | flowlet/compute_graph/node.py:88-136 | a new well-built node or the first fault in argument order; the node it is called on keeps its state; the result fields are copied |
| ComputeGraph.HasCycle | flowlet/compute_graph/utils.py:23-39 | the marking search finds the origin if and only if it is the candidate or an ancestor of it |
| ComputeGraph.MergeMissing | flowlet/compute_graph/node.py:138-146 | merges the names, or fails if and only if one name stands for two variable objects |
| GraphFacts.BindMeans | flowlet/compute_graph/node.py:88-149 | binding succeeds if and only if every slot exists, nothing bound depends on the node and no name stands for two variables; the last argument of a slot counts, every node referred to becomes a parent, and exactly the open names are missing |
| GraphFacts.BindFaults | flowlet/compute_graph/node.py:88-149 | the fault is that of the first argument that cannot be bound, by its kind |
| GraphFacts.EvalMeans | flowlet/compute_graph/node.py:308-329 | a node has a value if and only if every required slot is bound or has a default and every binding gives something; it is what the function returns on the bound values and the remaining defaults, or the outcome of the future it returns |
| GraphFacts.SequenceItems | flowlet/compute_graph/utils.py:11-20 | positions select from lists and text, counted from either end, and names do not |
| ComputeGraph.ResolveSelector | flowlet/compute_graph/utils.py:11-20 | follows the keys one after another, through dicts, lists and text, and fails when one of them does |
| ComputeGraph.NestResolves | flowlet/compute_graph/utils.py:42-46 | resolving a nested selector is resolving the outer one and then taking the key |
| ComputeGraph.ReachFacts | flowlet/compute_graph/node.py:251-266 | ancestors of a built node are built, rank strictly below it, and their ancestors are its own, so no node is above itself |
| GraphSort.TraceAncestors | flowlet/compute_graph/node.py:251-266 | lists the node and all its ancestors, each once |
| GraphSort.TopologicalSort | flowlet/compute_graph/node.py:268-306 | layer k lists exactly the ancestors of depth k, each once, with parents bound through several slots counted that often; nothing is left over, so the cycle error is unreachable |
| GraphSort.DepthIsLongestPath | flowlet/compute_graph/node.py:268-306 | depth is the length of the longest parent path |
| GraphSort.AncestorsAreShallower | flowlet/compute_graph/node.py:268-306 | ancestors are strictly shallower, so nodes of one layer are never ancestors of each other |
| GraphExecution.MissingCovers | flowlet/compute_graph/node.py:204-207 | every variable looked up by any ancestor is among the root's missing inputs, the same object |
| GraphExecution.CompleteEvaluates | flowlet/compute_graph/node.py:195-207 | with those inputs given, every ancestor fully bound and no sub-output selected, evaluation cannot fail |
| GraphExecution.RanIsEval | flowlet/compute_graph/node.py:308-329 | running a node on its parents' results gives its value by recursive evaluation, before a future is waited for |
| GraphExecution.EvalIgnoresInputs | flowlet/compute_graph/node.py:222-232 | a node with nothing missing evaluates alike on all inputs, which is why its result may be reused |
| GraphExecution.RunInAnyOrder | flowlet/compute_graph/node.py:331-355 | the results of a layer are the nodes' values whatever order the nodes run in |
| GraphExecution.ExecuteLayer | flowlet/compute_graph/node.py:218-245 | reuses what is cached, runs the rest, waits for futures and caches them, and leaves right results and right caches |
| GraphExecution.Execute | flowlet/compute_graph/node.py:177-249 | the two checks first; then the answer is recursive evaluation over the bindings, unless the root's own cache is reused, and fails if and only if some ancestor has no value; ancestors' caches stay right |
| GraphExecution.BindCopy | flowlet/compute_graph/node.py:102-108 | a copy starts with a right cache if and only if it will be run or the copied result is its value |
| GraphExecution.ExecuteInHistory | flowlet/compute_graph/node.py:177-249 | in any set of nodes with right caches, whatever was executed before, executing a node returns its value by recursive evaluation and succeeds if and only if every ancestor has a value, and the nodes stay such that the same holds again |
| GraphExecution.BindInHistory | flowlet/compute_graph/node.py:88-136 | binding any node, executed or not, keeps the set such if and only if the copy will be run, because its origin left no result or an input is still missing, or the copied result is the value of the copy |
| GraphExecution.BindAndExecute | flowlet/compute_graph/node.py:102-249 | a copy that is run answers with its value by recursive evaluation; any other answers with the result of its origin, and fails only where another ancestor has no value |
| GraphExecution.StaleAfterRebinding | flowlet/compute_graph/node.py:102-108 | rebinding an executed node with nothing missing can make the copy answer with the old value |
| EventStream.StreamJsonl | flowlet/runtime/stream.py:68-104 | for every polling schedule, after every turn the yielded events are exactly those after the start cursor in the last snapshot read, without gap or repeat, with a heartbeat at exactly the quiet turns that are due for one; the stream ends at the first snapshot with a terminal event, with all of it yielded, or at the first quiet turn that has waited out a given timeout, and refuses an interval that is not positive |
| EventStream.BeatsApart | flowlet/runtime/stream.py:101-103 | between a heartbeat and whatever was yielded before it lies at least one interval |
| EventStream.QuietFromMeans | flowlet/runtime/stream.py:86-100 | the idle clock counts from the last turn that found something, or from the start |
| EventStream.ItemsPrefix | flowlet/runtime/stream.py:84-104 | at every earlier moment the events yielded are a prefix of those yielded in the end |
| EventStream.ResumesAfter | flowlet/runtime/stream.py:85-95 | resuming from the id of a yielded event lists exactly what was not yielded yet, also when the file has grown |
| EventStream.ListedIsAbove | flowlet/runtime/event_store.py:67-81 | on increasing ids a cursor lists the events above its number, written as text or as a number, and one that is no number lists nothing |
| EventStream.RuntimeEventJsonlStore.List | flowlet/runtime/event_store.py:67-81 | the backward scan for a text cursor, then the numeric filter |
| Sorting.SortSorted | flowlet/runtime/projection.py:473-481 | the modelled stable sort returns a sorted sequence |
| Sorting.SortPermutation | flowlet/runtime/projection.py:473-481 | sorting by an order that tells elements apart does not depend on the input order |

## Left out

- SQLite, JSON and pydantic encoding, file locks and fsync: transactions and `os.replace` are taken as atomic and encoding as faithful; a stored projection holding a unit type that is not text would not load again, and the runs exclude such events.
- Payload validation: a key some record refuses is a case of its own in the model, but which values a type refuses is left to pydantic.
- The command fingerprint: taken as injective in command type, target, execution and payload instead of SHA-256 over canonical JSON.
- Time: timestamps are arbitrary `real` parameters, so float rounding is not modelled; no clock is assumed monotonic.
- Attempt metadata, heartbeat payload details and the message texts of errors: carried as opaque values or dropped where no code reads them.
- The sorted id lists of a projection: modelled as sets, since each is the sorted listing of one.
- `write_projection` of arbitrary projections and cursors: a transaction of the model, but not an operation of the runs, because a caller may write anything.
- Raw appends of lifecycle types, undeclared executions, unreadable payloads and empty checkpoint ids: outside the disciplined runs; `RawAppendExact`, `RawCommandExact`, `ReserveExact` and `CheckpointIdExact` say what each of them breaks.
- The reads of `ledger()`: taken at one instant, though the code runs several queries; the snapshot SQLite gives each is not modelled.
- `wait_for_next`, `load` and notification in the stores: waiting has no effect on the state.
- EventStream.StreamJsonl: covers the file stream; the live-store stream reads its trailing events in a second listing, which `ResumesAfter` covers but the loop does not.
- SSE encoding and parsing: the round trip rests on the JSON library.
- The executor's durable and event-list attempt bookkeeping: one opaque outcome per process and action; `run_process`, hooks and manager bridges are not modelled.
- RecoveryExecution.RuntimeBackendExecutor.ExecuteRecoveryPlan: failures to write events or plans are not modelled.
- ResetProtocol.ResetIsCrashSafe: store creation is one step, and the contents of a top-level entry are moved and deleted as a whole.
- ResetDirectory.RuntimeDirectoryManager.Rerun: the random staging name is a parameter that no existing directory has; the cleanup callback is any function of the entries and the current identity, so it leaves the reset marker and the directories beside alone.
- Results of nodes: dicts, lists, tuples, text, futures and atoms that cannot be indexed; bytes, slices and objects with an indexing method of their own are not modelled.
- Node functions: total and pure; a function that raises is modelled only through missing arguments and failing selectors.
- GraphExecution.ExecuteInHistory: asks for right caches, which a copy that is not run may lack; `BindAndExecute` states what such a copy returns, and `Execute` what a root with such a cache returns.
- `map`, `trace`, the pipe operator's slot inference and the parallel scheduler: plumbing around `bind` and `execute`.
- `scheduler.py`, `base/signal.py`, `fsm/machine.py`, progress, log and telemetry managers, adapters, dashboard and configuration: easy members or foreign schedulers.
