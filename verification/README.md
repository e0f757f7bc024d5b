# Verified model of the orchestrator's turn protocol, locks, merges and text formats

The orchestrator runs coding agents on tasks.  Each task has one conversation
("turn" after "turn"), a queue of follow-up messages, and usually a git worktree
whose branch is later landed on a base branch.  All of it lives in one Node
process: code between two `await`s cannot be interrupted, and everything else
can interleave.  This project models the parts where that matters, and the
sequential algorithms whose results other parts rely on, and proves what they
promise.

| module | models |
|---|---|
| `Abort` | the registry of abort controllers: who occupies a slot, what is being deleted (`lib/abort.ts`) |
| `TurnProtocol` | one task's turns as a state machine: POST, launch, streaming, the `finally` block, the queue drainer, Stop, `/clear`, cancel, delete, git sections |
| `TurnExclusion`, `TurnConservation`, `TurnDuty` | invariants over every run of that machine |
| `TurnSettlement` | whose settlement reaches the row, and what a turn in the slot is protected from |
| `TurnMemory` | what a turn remembers of its driver's reports, and what that settles on the row |
| `TurnRow` | who wrote running and awaiting_input last, requests of `/clear`, deletion |
| `TurnStop` | what Stop, `/clear` and a deleted task do to parked and popped follow-ups, over every continuation |
| `TurnClears` | what `/clear` leaves behind, and exactly when a late request lets an old session or an old turn through |
| `TurnOverlap` | when a turn overlaps a git section |
| `TurnLosses`, `TurnWitnesses` | exactly which steps, and over whole runs which last steps, break the promises that do not always hold; runs in which they do |
| `Runner` | the synchronous stretches of `lib/runner.ts` as imperative code, each equal to one step of the machine |
| `Locks` | `withTaskLock` and `withRepoLock` at the level of promises, both refining one first-in first-out ticket lock |
| `TaskDeps` | `setTaskDeps`, its search with an explicit stack, and what acyclicity buys |
| `GitDag`, `GitMerge`, `GitCommands`, `GitLanding`, `GitNoLoss` | commits as a graph, refs, checkouts; landing, preparing, aborting and completing a merge |
| `GitOutcome` | exactly which answer landing, preparing, completing and fast-forwarding give, and what they leave behind |
| `GitRace` | the object-level merge one command at a time, with writers outside the repo lock in between |
| `CanonicalJson`, `CanonicalJsonLaws` | `canonicalJson`, a decoder for it, and the pre-image of idempotency keys |
| `DiffRecords`, `DiffRoundTrip` | the two `-z` decoders of `taskDiff`, and git's record formats |
| `PatchText` | the patch of an untracked file, and cutting the whole-tree patch into chunks |
| `MapLimit` | the bounded-concurrency map under every completion order |
| `Asks`, `AskUser` | the registry of pending questions, and the polling bridge on top of it |
| `Transcript` | clipping messages and transcripts |
| `Fuzzy`, `FuzzyBound` | the palette's matcher, and the best score a text can reach without holding the query |
| `JsText`, `Basics`, `Wrappers` | JavaScript's string functions as far as needed; numbers and sets; option and result types |

How the concurrent parts are stated: whatever the outside world may choose (what
a driver emits, which storage call or git command fails, when somebody presses
Stop, in which order promises settle) is a parameter of an event, a step that
cannot happen changes nothing, and a behaviour is any sequence of events at all.
Theorems quantify over all such sequences.  The steps that the source writes as
statements are methods over mutable state, proved equal to the step functions.

## What the proofs found

Where a promise does not hold of the code, a lemma gives the run or input and
another says exactly when it does hold.

- Two overlapping `/clear` requests read the same generation and write the same next
  one.  A turn that ran in between is then of the row's generation, and its finally
  puts back the session that the second request nulled
  (`TurnClears.SecondClearIsUndone`).  One request holds against everything that can
  follow exactly if no turn of the generation it writes is streaming, or launching
  with a session, at that moment (`TurnClears.ClearHoldsExactly`,
  `TurnClears.ClearUndoneExactly`), as in every run whose requests find the
  generation they read (`TurnClears.NoSessionOutlivesClear`).
- The events of a stopped turn's driver reach the row whatever its generation, so a
  session reported after `/clear` makes the next message a follow-up in a conversation
  that has no session (`TurnClears.OldTurnStartsNewGeneration`, exact conditions in
  `TurnClears.DriverWritesExactly` and `TurnClears.FirstMessageIsFirstExactly`).
- A turn stopped while it streams can finish after its successor has claimed, run
  and finished: `superseded` looks only at the slot, finds it free, and the old
  turn's session replaces the successor's
  (`TurnSettlement.FinishedSuccessorIsOverwritten`; exactly when a finishing turn
  changes the session: `TurnSettlement.SessionChangesExactly`).  While another
  controller is in the slot this cannot happen, over whole runs
  (`TurnSettlement.OccupantShielded`, `TurnSettlement.NoFinallyReachesOccupant`).
- The catch behind the drainer writes `running` and `awaiting_input` without looking
  at the generation, so it can mark the conversation that `/clear` just started
  (`TurnSettlement.CatchReachesNextGeneration`, exact condition in
  `TurnSettlement.CatchWritesExactly`).
- A message sent after a Stop can still be cleared by it: if the claim that came
  first gives up, the stopped turn finds the slot free and discards the queue
  (`TurnStop.LaterMessageIsCleared`, exact condition in
  `TurnStop.FinallyClearsExactly`).
- Marking a task cancelled while a drained follow-up waits for the task lock
  aborts that follow-up but, unlike Stop, leaves the rest of the queue parked with
  nobody to run it (`TurnWitnesses.CancelDuringDrainStrandsQueue`; every such step is
  listed by `TurnLosses.FollowUpsStrandedExactly`, every such run by
  `TurnLosses.FollowUpsParkedExactly`).
- A storage failure between the handoff of the slot and the pop of the queue
  leaves the slot to a controller no code holds, and every later message only
  queues (`TurnWitnesses.FailedPopLeaksSlot`, exact condition in
  `TurnLosses.SlotLeaksExactly`).
- `startResumeTurn` sets `running` after an await without looking at the
  generation again, so `/clear` during a launch can leave `running` on in the new
  generation (`TurnWitnesses.ClearDuringLaunchLeavesRunning`; exactly which steps
  leave it on for nobody: `TurnLosses.RunningLeftExactly`, over whole runs:
  `TurnLosses.RunningOwedExactly`).
- A POST that claims the slot after a Stop and then gives up takes `turn_end` and
  the reset of `running` with it (`TurnWitnesses.ReleasedClaimLosesTurnEnd`, exact
  conditions in `TurnLosses.TurnEndLostExactly` and `TurnLosses.RunningLeftExactly`,
  over whole runs in `TurnLosses.TurnEndOwedExactly`).
- A turn stopped by `/clear` may still be unwinding when a git operation sees no
  turn and enters (`TurnWitnesses.StoppedTurnOverlapsGit`).  A turn overlaps the
  section exactly if a stopped one was still streaming at its entry
  (`TurnOverlap.OverlapExactly`).
- If the ahead count cannot be read, the object-level merge adds a second merge
  commit to a target that contains the work already
  (`GitLanding.RedundantMergeCommit`, exact condition in `GitLanding.FastPathAgrees`).
- A writer outside the repo lock who moves the target between `merge-tree` and
  `rev-parse` has its content replaced (`GitRace.OutsideWriterIsOverwritten`); the
  tree is the merge of the commit's parents exactly if neither tip moved between
  those reads (`GitRace.TreeMatchesExactly`).  No writer's commit ever leaves the
  history (`GitRace.NoWriterLost`).
- `abortWorktreeMerge` reads a failed `status` as a clean tree, and its reset can
  then discard uncommitted edits (`GitNoLoss.EditsLostInARun`, exact condition in
  `GitNoLoss.EditsSurviveAbort`).
- It also discards a merge of another branch that an agent made in place of the app's
  own, with what that merge brought in, although the comment at `lib/git.ts:952-958`
  rules that out (`GitNoLoss.ForeignMergeIsDiscarded`, exact conditions in
  `GitNoLoss.AbortDiscardsExactly` and `GitNoLoss.AbortLosesExactly`).
- The numstat decoder loses the counts of a file whose path holds a tab, and a path
  that starts with one takes other files' counts along
  (`DiffRoundTrip.InvertsExactlyWhenTabFree`, `DiffRoundTrip.LoneFile`), although the
  comment at `lib/git.ts:408-409` rules tabs out as a concern.
- Aborting a turn removes a newer turn's question if the ask id was used again
  under another signal, and its promise then never settles
  (`Asks.ReuseOrphansAnAsk`, exact condition in `Asks.AbortKeepsExactly`).
- Answering one `ask_user` question clears `awaiting_input` even while another
  question of that task is parked (`AskUser.FlagDownWhileParked`, exact condition in
  `AskUser.AnswerClearsTheFlag`).
- An answer reaches the model as a dismissal if storing it throws on the way
  (`AskUser.AnswerReadsAsDismissed`, exact condition in
  `AskUser.AnswerReachesModelExactly`).
- "Exact-substring hits dominate" fails when the hit comes late, since its score
  drops with the position without a floor: "ab" behind 1000 other characters scores
  0, "a-b" scores 7.95 (`FuzzyBound.LateHitLoses`).  A hit beats every text that does
  not hold the query exactly if its score exceeds the best such a text can reach
  (`FuzzyBound.HitBeatsAllExactly`).

That the two ways of landing agree (`GitLanding.FastPathAgrees`,
`GitLanding.BothPathsAgree`) is about refs, parents and answers: both are given the
same three-way merge, so that git merges the same content either way is an
assumption, not a result.

## Model

| member | source | states |
|---|---|---|
| Abort.AbortRegistry.ClaimTurn | lib/abort.ts:31-38 | claims exactly a free slot of a task that is not being deleted, with a controller never seen before, and touches no other task |
| Abort.AbortRegistry.HandoffTurn | lib/abort.ts:45-52 | swaps the finishing turn's controller for a fresh one in one step, only while that turn still owns the slot |
| Abort.AbortRegistry.UnregisterTurn | lib/abort.ts:70-73 | frees the slot only for its own occupant |
| Abort.AbortRegistry.AbortTurn | lib/abort.ts:95-102 | trips the occupant and frees its slot; false exactly when there was none |
| Abort.AbortRegistry.BeginTaskDeletion | lib/abort.ts:110-117 | excludes later claims and trips the occupant without freeing its slot; false when already begun |
| Abort.AbortRegistry.EndTaskDeletion | lib/abort.ts:123-125 | lifts that exclusion and nothing else |
| TurnExclusion.StepKeeps | lib/abort.ts:31-125 | every event keeps the invariant tying un-aborted controllers to the slot and waiting controllers to the lock |
| TurnExclusion.OneTurnAtATime | lib/runner.ts:33-154 | in every interleaving of POST, drain, Stop, /clear, cancel and delete at most one turn is both launched and un-aborted, and it owns the slot |
| TurnExclusion.WorktreeExclusion | lib/taskLock.ts:11-20 | while a git section that saw no turn runs, no un-aborted controller launches, streams or waits as a drained follow-up |
| TurnExclusion.NoOccupantDuringDeletion | lib/abort.ts:104-125 | between begin and end of a deletion no new occupant appears, so an empty slot stays empty |
| TurnExclusion.DeletionExcludes | lib/abort.ts:104-125 | from its beginning to its end a deletion leaves the slot to nobody but the turn it found and stopped, POSTs change nothing, and its end lifts exactly that |
| TurnExclusion.UnstoppedOwns | lib/runner.ts:386-391 | a streaming turn that was not aborted is the slot's occupant |
| TurnConservation.EveryFollowUpAccounted | lib/runner.ts:444-557 | in every run each parked follow-up is exactly one of parked, popped and on its way, launched, or lost (cancelled, cleared, dropped after its pop) |
| TurnConservation.FollowUpsRunInOrder | lib/store.ts:773-785 | follow-ups launch in the order they were parked, before everything still parked |
| TurnConservation.VerdictsAreFinal | lib/runner.ts:444-557 | no step takes back that a follow-up ran or was lost, nor changes the reason |
| TurnStop.ParkedNeverRuns | app/api/tasks/[id]/abort/route.ts:14-23 | in every run, a follow-up parked when Stop is pressed on a turn, when /clear writes or when the task is deleted is cleared and never runs, whatever comes after |
| TurnStop.PoppedNeverRuns | lib/runner.ts:521-530 | in every run, a follow-up that waits for the lock when Stop is pressed never runs; it waits, and is dropped |
| TurnStop.StopSparesOnlyLaunching | app/api/tasks/[id]/abort/route.ts:14-23 | of all follow-ups that had not run at the Stop, only one already being launched can still run |
| TurnStop.StopWithoutTurn | app/api/tasks/[id]/abort/route.ts:13-24 | with no turn in the slot Stop changes nothing |
| TurnStop.LostExactly | lib/store.ts:787-811 | a follow-up is lost as cancelled exactly by its own request while parked, as cleared exactly by Stop on a turn, /clear, a deletion or a finishing turn that discards |
| TurnStop.FinallyClearsExactly | lib/runner.ts:444-457 | a finishing turn clears the queue exactly if it was stopped or its generation is over, nobody else is in the slot and no storage call throws before |
| TurnStop.LaterMessageIsCleared | lib/runner.ts:444-457 | a run in which a message sent after the Stop is cleared by the stopped turn |
| TurnDuty.SupersededTouchesNothing | lib/runner.ts:386-391 | while another controller occupies the slot, a finishing turn leaves row, queue, slot and turn_end alone, wherever storage may fail |
| TurnDuty.OtherGenerationUntouched | lib/runner.ts:414-429 | a finishing turn never writes to a row of another generation |
| TurnSettlement.SessionChangesExactly | lib/runner.ts:414-429 | a finishing turn changes the row's session exactly if the row is of its generation with another session, no other controller is in the slot, and the write does not fail |
| TurnSettlement.RowSettlesExactly | lib/runner.ts:386-429 | the same for the whole row |
| TurnMemory.TurnRemembersExactly | lib/runner.ts:273-362 | from its launch to its finally, in every run, a turn remembers the session its driver named last, whether one was opened, whether the login died, every tool call named and exactly the questions asked and not yet answered |
| TurnMemory.SettlesWhatWasReported | lib/runner.ts:414-429 | a turn that settles turns running off, stores the session named last, and waits for the user exactly if a session was opened |
| TurnRow.RunningExactly | lib/runner.ts:134-135 | in every run, running is on exactly if a launch came after the last of: a turn that settled, the drainer's failsafe, the handler behind run, /clear, a deletion |
| TurnRow.AwaitingExactly | lib/runner.ts:334-348 | in every run, the task waits for the user exactly if a stored question, or a settlement of a turn that opened a session, came after the last answer to an only open question, launch, cancellation, /clear, deletion or settlement without a session |
| TurnRow.RequestsActOnce | app/api/tasks/[id]/clear/route.ts:50-100 | in every run each request of /clear stops the turn once and writes once |
| TurnRow.DeletedStaysDeleted | lib/store.ts:629-632 | a deleted task's row does not come back, whatever still runs |
| TurnMemory.LaunchThatFails | lib/runner.ts:147-153 | a launch that fails changes no row; only a first turn keeps its claim until it lets go, and the follow-up is dropped |
| TurnMemory.LaunchMakes | lib/runner.ts:134-153 | a launch makes a turn with the session read under the lock, a running row that does not wait, and counts its follow-up as run |
| TurnSettlement.FinishedSuccessorIsOverwritten | lib/runner.ts:386-429 | a run without any failure in which a stopped turn sets the session back from that of its finished successor to its own |
| TurnSettlement.OccupantShielded | lib/runner.ts:386-429 | over any run in which only others settle, crash, let go or stream, the occupant keeps the slot, the queue, running and the session, and the whole row if nobody else's driver emits |
| TurnSettlement.NoFinallyReachesOccupant | lib/runner.ts:386-391 | at every point of every run, another turn's finally leaves row, queue and slot to the occupant |
| TurnSettlement.CatchWritesExactly | lib/runner.ts:532-542 | the drainer's failsafe changes the row, of whatever generation, exactly if it can write and running is on or the awaiting flag differs |
| TurnSettlement.CatchReachesNextGeneration | lib/runner.ts:532-542 | a run in which it marks the generation after /clear as waiting for the user |
| TurnDuty.SessionsStayInTheirGeneration | lib/runner.ts:414-429 | over whole runs the session id on the row was opened by a turn whose generation has the row's number |
| TurnClears.SecondClearIsUndone | app/api/tasks/[id]/clear/route.ts:50-100 | a run without any failure in which two overlapping requests are followed by a turn's finally that puts back the session the second one nulled |
| TurnClears.ClearUndoneExactly | app/api/tasks/[id]/clear/route.ts:50-59 | a turn that streams when a request writes can still change the row, and put a session on it, exactly if it is of the generation that is written |
| TurnClears.ClearHoldsExactly | app/api/tasks/[id]/clear/route.ts:50-59 | from any state of the invariant, every session on the row in every continuation was opened after the write by a turn launched after it, exactly if no such turn streams, or launches with a session, at the write |
| TurnClears.NoSessionOutlivesClear | app/api/tasks/[id]/clear/route.ts:50-59 | in every run whose requests find the generation they read, the session on the row was opened after the last /clear by a turn launched after it |
| TurnClears.DriverWritesExactly | lib/runner.ts:294-348 | which driver events change the row, of whatever generation |
| TurnClears.FirstMessageIsFirstExactly | app/api/tasks/[id]/clear/route.ts:93-98 | the next message after /clear is sent as the first of its generation exactly if no driver, an old turn's included, has reported a session since |
| TurnClears.OldTurnStartsNewGeneration | lib/runner.ts:294 | a run in which a stopped turn's driver makes it a follow-up without a session |
| TurnDuty.CleanEndingHandsOff | lib/runner.ts:473-557 | a turn ending cleanly always gets a controller from the handoff; the slot is freed exactly when nothing is parked, otherwise the oldest follow-up is queued on the lock with it |
| TurnDuty.DeadLoginKeepsQueue | lib/runner.ts:458-472 | a turn ending in a dead login or a spent limit leaves the queue as it was |
| TurnDuty.NoLeakedSlot | lib/runner.ts:382-384 | the slot is never held by a controller that no code holds, unless storage failed between handoff and drainer |
| TurnDuty.TurnEndNotLost | lib/runner.ts:559-582 | when nobody is left, a turn_end followed the last turn start, unless a claim was let go, a drained follow-up was overtaken, or a last-resort handler could not write |
| TurnDuty.RunningSettles | lib/runner.ts:427-429 | with no storage failure and no generation change, running is then 0 too, unless a claim was let go |
| TurnDuty.NoStrandedFollowUp | lib/runner.ts:533-542 | nothing stays parked with nobody to run it unless a recorded reason occurred since the last launch |
| TurnOverlap.EntersExactly | lib/taskLock.ts:11-20 | a git operation gets in exactly if the task is there, does not run and nobody is in the slot; otherwise it leaves the lock to the next |
| TurnOverlap.OverlapExactly | lib/taskLock.ts:11-20 | between entry and exit of a git section that saw no turn, whoever streams was streaming, aborted, at the entry; a turn overlaps the section exactly if there was such a one |
| TurnLosses.TurnEndLostExactly | lib/runner.ts:64-82 | from any state with somebody there, which steps leave turn_end owed to nobody: the last one lets a claim go, finds the generation over or the slot taken after the lock wait, is a last-resort handler that cannot write, or takes a leaked slot's occupant for a successor |
| TurnLosses.RunningLeftExactly | lib/runner.ts:414-429 | from any state with somebody there, whatever storage and generation do, which steps leave running on with nobody there |
| TurnLosses.FollowUpsStrandedExactly | lib/runner.ts:444-557 | exactly which steps of the last one left leave follow-ups parked with nobody to run them |
| TurnLosses.SlotLeaksExactly | lib/runner.ts:478-500 | the slot is left to a controller that nothing holds exactly when storage fails between the handoff and the drainer of a turn that was not stopped and whose login is alive |
| TurnLosses.TurnEndOwedExactly | lib/runner.ts:559-582 | a run ends with turn_end owed and nobody left exactly if one of those steps was its last exit |
| TurnLosses.RunningOwedExactly | lib/runner.ts:414-429 | a run ends with running on and nobody left exactly if one of those steps left it on last |
| TurnLosses.FollowUpsParkedExactly | lib/runner.ts:444-557 | a run ends with follow-ups parked and nobody left exactly if one of those steps stranded them last, or a message was parked behind a leaked slot |
| TurnWitnesses.CancelDuringDrainStrandsQueue | lib/runner.ts:521-530 | a run in which cancelling during the lock wait strands a parked follow-up |
| TurnWitnesses.FailedPopLeaksSlot | lib/runner.ts:478-480 | a run in which a failing pop leaves the slot occupied for ever |
| TurnWitnesses.ClearDuringLaunchLeavesRunning | lib/runner.ts:109-135 | a run in which running stays 1 in the generation after /clear |
| TurnWitnesses.ReleasedClaimLosesTurnEnd | lib/runner.ts:451-455 | a run in which a successor's claim, let go again, loses turn_end and leaves running on |
| TurnWitnesses.StoppedTurnOverlapsGit | lib/taskLock.ts:11-20 | a run in which an aborted turn still streams inside a git section |
| Runner.TaskRunner.Finally | lib/runner.ts:381-583 | the statements of the finally block, with storage failing at any point, make exactly the machine's step |
| Runner.TaskRunner.SettleRow | lib/runner.ts:414-429 | the row is settled exactly when neither superseded nor on another generation |
| Runner.TaskRunner.HandOn | lib/runner.ts:473-557 | the handoff before the pop, and what becomes of the popped follow-up |
| Runner.TaskRunner.TakeFollowUp | lib/runner.ts:478-557 | the pop under the new controller: nothing there, lost to a storage failure, dropped without a project, or on its way to the lock |
| Runner.TaskRunner.DrainCallback | lib/runner.ts:501-531 | the drainer's re-checks under the lock make the machine's step |
| Runner.TaskRunner.DrainCatch | lib/runner.ts:532-542 | the drainer's failsafe makes the machine's step |
| Runner.TaskRunner.AfterCrash | lib/runner.ts:64-82 | the handler behind run settles only when no successor is registered |
| Runner.TaskRunner.CommitLaunch | lib/runner.ts:134-153 | the end of a launch, or the release of its claim when storing fails |
| Runner.TaskRunner.Post | lib/abort.ts:31-38 | a POST claims the slot or parks its message |
| Runner.TaskRunner.Stop | app/api/tasks/[id]/abort/route.ts:11-24 | the route's statements make the machine's step, of which TurnStop speaks |
| Runner.TaskRunner.AddPendingMessage | lib/store.ts:764-771 | parks at the end of the queue |
| Runner.TaskRunner.PopPendingMessage | lib/store.ts:776-785 | takes the oldest parked follow-up, or reports an empty queue |
| Runner.TaskRunner.ClearPendingMessages | lib/store.ts:804-811 | empties the queue, every parked follow-up ending as cleared |
| Locks.StepKeeps | lib/taskLock.ts:37-52 | every promise step of either lock keeps the chain's invariant, across deletion and re-creation of entries |
| Locks.RefinesTicketLock | lib/repoLock.ts:27-44 | for each key, either lock's step is a step of one ticket lock: newcomers go last, only the head enters, only the head leaves, failures change nothing, other keys are untouched |
| Locks.MutualExclusion | lib/taskLock.ts:37-52 | in every run at most one section per key is inside |
| Locks.HeadGetsIn | lib/repoLock.ts:21-33 | whoever is first in line gets in by promise reactions alone, whether the sections before it failed or not |
| Locks.TailSettles | lib/repoLock.ts:31-36 | the tail of a finished section settles and never rejects the next waiter |
| Locks.LockedWhenSomeoneIsInLine | lib/taskLock.ts:54-57 | isTaskLocked is true exactly when someone holds or waits for the lock |
| Locks.EntryWhileInLine | lib/repoLock.ts:38-42 | the repo lock keeps its entry as long as anyone is in line |
| Locks.EntryGoesExactly | lib/repoLock.ts:38-42 | in every run the promise reactions of an entry's tail drop the entry exactly when nobody is in line |
| Locks.LockTable.Arrive | lib/taskLock.ts:38-43 | joining puts the caller at the end of its key's line and leaves other lines alone |
| Locks.LockTable.Enter | lib/taskLock.ts:43-45 | a caller whose predecessor settled is the head of its line |
| Locks.LockTable.Leave | lib/taskLock.ts:46-50 | leaving removes exactly the head of the line and drops the entry when it was the last |
| TaskDeps.DependencyStore.SetTaskDeps | lib/store.ts:482-520 | keeps the graph acyclic, duplicate-free and within projects; fails with "dependency cycle" exactly when one of the other tasks of its project among the ids reaches the task in the old graph, changing nothing; otherwise those are its edges, and other tasks' edges are as before |
| TaskDeps.RefusedExactly | lib/store.ts:486-513 | the new graph has a cycle exactly when such an id reaches the task in the graph as it was |
| TaskDeps.OthersMakeNoDifference | lib/store.ts:486-490 | the task itself, unknown ids, ids of other projects, order and repetition make no difference |
| TaskDeps.DependencyStore.BuildAdjacency | lib/store.ts:493-504 | the adjacency lists hold exactly the would-be edges |
| TaskDeps.DependencyStore.CanReach | lib/store.ts:505-513 | the stack search terminates on every finite graph and finds the task exactly when it is reachable |
| TaskDeps.ReplacedAcyclic | lib/store.ts:491-513 | replacing one task's edges in an acyclic graph closes a cycle exactly when a new target reaches that task |
| TaskDeps.SomethingIsReady | lib/store.ts:480-520 | while any task is not done, one of them waits only for tasks that are |
| TaskDeps.DependencyStore.DeleteTask | lib/store.ts:629-632 | deleting a task takes exactly its edges along and keeps the invariant |
| GitCommands.Repository.CommitPendingEdits | lib/git.ts:517-537 | commits a dirty worktree, concluding a paused merge; false exactly when the commit fails |
| GitCommands.Repository.MergeViaTree | lib/git.ts:589-638 | the commands of the object-level merge compute the specified repository and answer |
| GitCommands.Repository.MergeIntoTargetWorktree | lib/git.ts:648-698 | the fast path first, the temporary worktree as a fallback |
| GitCommands.Repository.MergeTaskBranch | lib/git.ts:712-788 | commit, recover a stale merge, pick the target, land |
| GitCommands.Repository.PrepareWorktreeMerge | lib/git.ts:895-950 | the order of probe, ancestor check, commit, marker and trial merge |
| GitCommands.Repository.AbortWorktreeMerge | lib/git.ts:960-996 | the abandoned resolution, including the guards before the reset |
| GitCommands.Repository.CompleteWorktreeMerge | lib/git.ts:1102-1140 | leftover markers refuse, a paused merge is concluded, then the branch is landed |
| GitCommands.Repository.FastForwardWorktree | lib/git.ts:1088-1095 | moves the work branch only forward, and says whether it is up to date |
| GitLanding.LandAllOrNothing | lib/git.ts:712-788 | success puts the old target tip and the work tip behind the target; failure leaves every ref; a target other than the current branch leaves the main checkout as the recovery left it |
| GitLanding.ViaTreeAllOrNothing | lib/git.ts:589-638 | the fast path without an answer means the target did not move |
| GitLanding.FastPathAgrees | lib/git.ts:601-630 | when the fast path lands, it makes the worktree merge's own commit exactly if the work was not merged already |
| GitLanding.BothPathsAgree | lib/git.ts:648-698 | whenever the ahead count could be read, landing through either path gives the same repository and answer |
| GitLanding.RedundantMergeCommit | lib/git.ts:712-788 | a repository in which an unreadable ahead count adds a merge commit for work already merged |
| GitLanding.MergeTaskAllOrNothing | lib/git.ts:712-788 | landing including the commit of pending edits: success has both tips behind the target, failure moves no ref but the work branch's own commit |
| GitOutcome.LandsExactly | lib/git.ts:712-788 | landing succeeds exactly if the work is seen to be merged, or merges without conflicts on a path on which no command fails and no edits are in the way |
| GitOutcome.LandsWithoutFailures | lib/git.ts:712-788 | with every command working, exactly if the work is merged already or merges without conflicts and the main tree, where the target is checked out there, has no edits |
| GitOutcome.DirtyMainExactly | lib/git.ts:741-766 | the answers "already merged" and "uncommitted changes" come exactly for a target seen to hold the work, and for edits seen in a main tree that has the target |
| GitOutcome.ConflictsExactly | lib/git.ts:601-621 | conflicts are answered exactly if a merge was tried and gave none, never for another failure |
| GitOutcome.CannotPrepareExactly | lib/git.ts:667-677 | exactly when the temporary worktree was needed and could not be made |
| GitOutcome.LandedCommit | lib/git.ts:615-632 | a landing leaves the refs alone if the work was there, or adds one commit to the target with parents old tip and work tip and the tree the merge gave; no other answer moves a ref |
| GitOutcome.MainTreeAfter | lib/git.ts:732-783 | what landing does to the main tree: an old merge goes if it can be aborted, a new one is left only by a conflict that cannot |
| GitOutcome.MergeTaskIsLanding | lib/git.ts:712-730 | "commit failed" exactly if pending edits are seen and cannot be committed; else what is landed is the branch with those edits on it |
| GitOutcome.PrepareAnswers | lib/git.ts:895-950 | exactly which answer preparing gives, over every failure |
| GitOutcome.PrepareLeaves | lib/git.ts:895-950 | for each answer, the repository it leaves: marker, paused merge, merge commit |
| GitOutcome.CleanMeansContained | lib/git.ts:913-935 | a clean answer means that the base is behind the work branch and no merge is paused |
| GitOutcome.CleanPrepareLands | lib/git.ts:885-894 | after a clean answer, completing lands, if the commands work and no edits are in the main tree |
| GitOutcome.CompleteExactly | lib/git.ts:1102-1140 | which answer completing gives, and that the marker goes exactly on success |
| GitOutcome.FastForwardExactly | lib/git.ts:1088-1095 | succeeds exactly if the two branches have not diverged, no merge is paused and the command works, and moves the work branch only if it is behind |
| GitRace.QuietRunIsViaTree | lib/git.ts:589-638 | the merge as single commands, run without writers in between, is mergeViaTree as specified, failures included |
| GitRace.NoWriterLost | lib/git.ts:601-632 | in every interleaving of its commands with writers outside the lock, whatever a branch ever pointed to stays behind it |
| GitRace.CommandsInOrder | lib/git.ts:601-632 | in every interleaving the tips are read after the merge, the commit is made of both, and only it is landed |
| GitRace.FailureGivesUp | lib/git.ts:601-637 | a command that is not due does nothing, one that fails gives up without touching the repository |
| GitRace.LandedContainsBoth | lib/git.ts:615-632 | once landed, both tips that were read are behind the target for the rest of the run |
| GitRace.TreeMatchesExactly | lib/git.ts:601-621 | for merges that look at nothing but the history, the tree is sure to be the merge of the commit's parents exactly if no writer moved either tip between merge-tree and its rev-parse |
| GitRace.OutsideWriterIsOverwritten | lib/git.ts:601-632 | a run in which a writer's commit becomes a parent and its content is not in the tree |
| GitRace.LateWriterIsSafe | lib/git.ts:630-632 | a target moved after rev-parse is left alone by update-ref |
| GitNoLoss.StepGood | lib/git.ts:895-1140 | each operation keeps every non-merge commit reachable and the base branch growing |
| GitNoLoss.NoCommitLost | lib/git.ts:895-1140 | over any sequence of prepare, abort, complete, merge, fast-forward, edits, commits and foreign base commits, every non-merge commit once reachable from the work branch stays reachable from it or the base branch |
| GitNoLoss.AbortDiscardsOneMerge | lib/git.ts:960-996 | the reset discards at most one commit, a merge whose first parent is the marker, and only over a tree seen to be clean |
| GitNoLoss.EditsSurviveAbort | lib/git.ts:960-996 | uncommitted edits are lost exactly if a paused merge is seen and aborted, or the marked merge is reset over a status that failed |
| GitNoLoss.AbortDiscardsExactly | lib/git.ts:978-992 | the work branch moves exactly if none is seen paused, the merge at its tip has the marker as first parent, whoever made it, the tree is clean or its status fails, and no other command fails |
| GitNoLoss.AbortLosesExactly | lib/git.ts:952-992 | what goes out of reach then: the merge and what is behind its other parents, unless the base branch or the first parent holds it |
| GitNoLoss.ForeignMergeIsDiscarded | lib/git.ts:952-958 | a run in which an agent's merge of another branch, and the commit it brought in, are discarded |
| GitNoLoss.EditsLostInARun | lib/git.ts:960-996 | a reachable repository in which a failing status loses uncommitted edits, and a working one keeps them |
| GitNoLoss.FreshBranch | lib/git.ts:133-148 | a branch created at the tip of the configured base meets the invariant the other theorems start from |
| CanonicalJsonLaws.RoundTrip | lib/agentTools.ts:171-184 | a decoder reads every printed value back as that value, with key order forgotten |
| CanonicalJsonLaws.Canonical | lib/agentTools.ts:171-184 | two JSON values print the same exactly when they are equal up to object key order |
| CanonicalJsonLaws.StringRoundTrip | lib/agentTools.ts:180-183 | the escaped form of any string of UTF-16 units, lone surrogates included, reads back as that string |
| CanonicalJsonLaws.EscapeIsShortest | lib/agentTools.ts:180-183 | of the texts that read as a code unit, with control characters and lone surrogates escaped, the printed one is the shortest, and the only one of its length |
| CanonicalJsonLaws.EscapeCons | lib/agentTools.ts:180-183 | a string is printed unit by unit, a surrogate pair as it is |
| CanonicalJsonLaws.LessIsFirstDifference | lib/agentTools.ts:177-179 | the key order is the one of section 3.2.3 of RFC 8785: the first differing code unit decides, a proper prefix comes first |
| CanonicalJsonLaws.MembersInOrder | lib/agentTools.ts:177-181 | a printed object holds exactly its members, strictly increasing by key |
| CanonicalJsonLaws.SortedIsUnique | lib/agentTools.ts:177-179 | there is one such arrangement, so the result does not depend on how the keys are sorted |
| CanonicalJsonLaws.PreimageInjective | lib/agentTools.ts:186-202 | two idempotency pre-images are equal exactly when task id, generation, event type and payload (up to key order) all are |
| DiffRecords.DecodeNameStatus | lib/git.ts:426-437 | the first loop builds the list of files and the index by path, which shares them |
| DiffRecords.DecodeNumstat | lib/git.ts:438-457 | the second loop changes exactly the counts the fields name, through the index |
| DiffRecords.Decode | lib/git.ts:424-457 | both loops, for any two texts at all, compute the decoding that the round trips are about |
| DiffRoundTrip.StatusInverts | lib/git.ts:424-437 | decoding printed name-status records, one-path and two-path forms mixed, gives each file once under its destination path with its own status |
| DiffRoundTrip.NumInverts | lib/git.ts:438-457 | decoding printed numstat records sets each file filed under a record's path to that record's counts or binary flag |
| DiffRoundTrip.DecodersInvert | lib/git.ts:424-457 | printing any two record lists with tab-free inline paths and running both loops gives each destination once, with its own status, counts and binary flag, whatever order numstat came in |
| DiffRoundTrip.InvertsExactlyWhenTabFree | lib/git.ts:445-450 | for any list of distinct files, each gets its own counts, whatever the counts are, exactly when no inline path holds a tab, leading tabs included |
| DiffRoundTrip.LeadingTabStep | lib/git.ts:445-450 | a record whose path starts with a tab gives its counts to the path two fields further on, and those fields are never read as records |
| DiffRoundTrip.DashMeansBinary | lib/git.ts:450-456 | for any text in the two counts: a dash in either marks the file binary and leaves its numbers alone, anything else sets both numbers |
| DiffRoundTrip.LoneFile | lib/git.ts:445-450 | a single file of any path gets its counts exactly when its inline path is tab-free or there is nothing to count |
| PatchText.PatchGivesText | lib/git.ts:329-348 | the patch of an untracked text file, when not clipped, applied to an empty file gives back exactly the text, final newline or not; a longer one is its prefix and marked |
| PatchText.BinaryNamesFile | lib/git.ts:326-331 | the patch of a binary file names it, counts no lines and gives no text back |
| PatchText.AdditionsAreLines | lib/git.ts:336-339 | additions is the number of lines as git counts them |
| PatchText.SectionsJoin | lib/git.ts:459-465 | joining the chunks of the whole-tree patch with newlines gives the patch back |
| PatchText.OneChunkPerSection | lib/git.ts:459-465 | there is one chunk per section exactly when only the sections' own headers start a line with the mark |
| PatchText.ByPositionExactly | lib/git.ts:465-466 | for any text, patches are handed out by position exactly if it starts with a header and has as many sections as there are files |
| PatchText.PatchesMatchFiles | lib/git.ts:465-476 | zipping by position gives each file its own section, or asks git file by file exactly when the counts differ |
| MapLimit.Pool.constructor | lib/git.ts:28-32 | the workers start in order and each runs to its first await |
| MapLimit.Pool.Resume | lib/git.ts:32-36 | a resolved call stores its result at its own index and its worker goes on |
| MapLimit.ClaimedOnce | lib/git.ts:31-34 | under every completion order each index handed out was claimed once, by one worker, in order |
| MapLimit.AtMostLimit | lib/git.ts:24-28 | at most limit calls are in flight |
| MapLimit.StoppedMeansComplete | lib/git.ts:28-39 | when all workers have stopped, out[i] is the result for items[i] for every i, exactly if limit is at least 1 or there is nothing to do |
| MapLimit.StopsAfterAllItems | lib/git.ts:32-38 | the workers have all stopped exactly after as many resolved calls as there are items |
| Asks.AskRegistry.WaitForAnswer | lib/asks.ts:48-76 | rejects under a fired signal; otherwise registers the ask and supersedes one of the same id |
| Asks.AskRegistry.SubmitAnswer | lib/asks.ts:84-98 | false when nothing waits; a throwing persist step changes nothing; otherwise the waiter gets the answer |
| Asks.AskRegistry.Abort | lib/asks.ts:64-74 | the listeners of a signal run once, in order of registration |
| Asks.AskRegistry.Remove | lib/asks.ts:33-40 | takes out the entry and an inner map left empty |
| Asks.RegistryIsTheWaiters | lib/asks.ts:33-98 | if no ask id is reused under a different signal, in every reachable state the registry holds exactly the unsettled waiters, every entry being one of them, and no empty inner map |
| Asks.AbortKeepsExactly | lib/asks.ts:64-74 | an abort keeps registry and waiters in step exactly when no listener's ask was re-made under another signal |
| Asks.ReuseOrphansAnAsk | lib/asks.ts:64-74 | a run in which reuse leaves a promise waiting for ever |
| Asks.WaitRegistersExactly | lib/asks.ts:48-76 | a call registers its questions under its own promise and leaves other entries alone, or is rejected because its signal has fired |
| Asks.OutcomeChangesExactly | lib/asks.ts:54-98 | a waiting promise is answered with what was submitted for its entry, superseded by a call for the same entry or aborted by a signal it listens to, and by nothing else |
| Asks.SettlesOnce | lib/asks.ts:54-76 | a waiter, once settled, keeps its outcome for the rest of every run |
| Asks.AbortLeavesNone | lib/asks.ts:54-75 | in every run nothing waits under a signal that has fired |
| Asks.ThrowingPersistKeepsAsk | lib/asks.ts:90-97 | after a throwing persist step the retry reaches the same waiter |
| AskUser.Bridge.StartAskUser | lib/agentTools.ts:722-731 | stores the card, raises the awaiting flag and parks a waiter |
| AskUser.Bridge.RunContinuation | lib/agentTools.ts:732-745 | an answer is written to the card, clears the flag and settles the outcome; a throw on the way keeps what was done and settles it as dismissed, like a rejection |
| AskUser.AnswerReachesModelExactly | lib/agentTools.ts:732-745 | in every run the settled text is the formatted answer exactly if there was one and nothing threw while it was stored |
| AskUser.AnswerReadsAsDismissed | lib/agentTools.ts:732-745 | a run in which an answer that stands on the card is handed to the model as a dismissal |
| AskUser.CardShowsExactly | lib/agentTools.ts:732-745 | in every run a card shows an answer exactly if its continuation had one and stored the message, and counts as failed exactly if something threw |
| AskUser.FlagUpExactly | lib/agentTools.ts:722-737 | in every run the awaiting flag is up exactly if a question of the task came after the last answer that was stored |
| AskUser.FlagDownWhileParked | lib/agentTools.ts:732-737 | a run in which the awaiting flag is down while a question is parked |
| AskUser.Bridge.TakeAskOutcome | lib/asks.ts:125-131 | hands out the settled text and forgets it, or nothing |
| AskUser.TakenAtMostOnce | lib/asks.ts:120-131 | in every run each ask's outcome is handed out at most once, and is the text of its own ask's card |
| AskUser.SettledUntilTaken | lib/agentTools.ts:732-745 | once its continuation has run, an outcome is there until it is taken |
| AskUser.KeyInjective | lib/asks.ts:120-126 | outcome keys of colon-free task ids are equal only for the same task and ask |
| AskUser.AnswerClearsTheFlag | lib/agentTools.ts:732-737 | after an answer that is stored the awaiting flag is right exactly when no other ask of that task is parked |
| Transcript.ClipKeepsBothEnds | lib/transcript.ts:17-27 | a message that fits is kept; a clipped one is an exact prefix and suffix, max characters together, around a mark naming the true number dropped |
| Transcript.GroupedRoundTrip | lib/transcript.ts:17 | the grouped number in the mark reads back as itself |
| Transcript.GroupsOfThree | lib/transcript.ts:17 | its commas stand before every third digit from the right and nowhere else |
| Transcript.KeepRecent | lib/transcript.ts:41-51 | the backward loop keeps the specified suffix, and used is its joined length |
| Transcript.BuildClippedTranscript | lib/transcript.ts:35-55 | the text is the note about omitted messages, if any, and the kept lines |
| Transcript.LongestSuffix | lib/transcript.ts:41-51 | the kept suffix fits the cap or is the last line alone, and no longer suffix fits |
| Transcript.BodyIsBounded | lib/transcript.ts:41-54 | the body is at most the larger of the cap and the last line |
| Transcript.TranscriptEndsWithRecent | lib/transcript.ts:52-54 | the text is the note on how many messages are omitted, if any, in its own words, and then the kept lines with a blank line between them |
| Transcript.KeptLineIs | lib/transcript.ts:40-52 | each kept line is its own message's role and clipped text, in order, up to the last message |
| Fuzzy.FuzzyScore | app/orchestrator/CommandPalette.tsx:25-46 | the substring branch and the loop compute the specified score |
| Fuzzy.FiniteExactlyOnSubsequence | app/orchestrator/CommandPalette.tsx:21-46 | for a query that is not blank the score is finite exactly when its characters other than spaces are a subsequence of the text, whichever branch answered |
| Fuzzy.MatchesEarliest | app/orchestrator/CommandPalette.tsx:34-43 | the greedy loop finds a match whenever there is one, and none lies earlier at any character |
| Fuzzy.ExactHitDominates | app/orchestrator/CommandPalette.tsx:21-31 | a text holding the query outranks one holding only its characters, when the hit's position plus six per query character is below 1000, whatever lower-casing does |
| FuzzyBound.ScatteredAtMost | app/orchestrator/CommandPalette.tsx:34-46 | no text that matches without holding the query scores above the bound, whatever lower-casing does |
| FuzzyBound.BestIsReached | app/orchestrator/CommandPalette.tsx:34-46 | some such text reaches the bound, for every query that has one at all and any lower-casing that leaves lowered characters and separators alone |
| FuzzyBound.HitBeatsAllExactly | app/orchestrator/CommandPalette.tsx:21-46 | for any such lower-casing a hit outranks every text that matches without holding the query exactly if its own score exceeds that bound |
| FuzzyBound.HitsCompare | app/orchestrator/CommandPalette.tsx:25-30 | of two texts that hold the query the earlier hit wins, where a word start is worth fifty characters; a blank query tells no texts apart |
| FuzzyBound.GapScores | app/orchestrator/CommandPalette.tsx:41 | each skipped character costs a twentieth of a point, and at most ten of them count |
| FuzzyBound.LateHitLoses | app/orchestrator/CommandPalette.tsx:27-30 | an input on which it does not |

## Left out

- Agent drivers, PTYs, HTTP parsing, server-sent events, analytics, login flows: a driver is an arbitrary sequence of events, a route the claim, lock and storage calls it makes.
- SQLite: tables are maps and sequences, each statement or transaction one step that happens or fails. The clock behind `created_at` is taken not to run backwards, so queue order is arrival order.
- `registerTurn` (used by tests only), `waitForTurnSettlement` (a polling clock), and the branches of `startTurn` and `startResumeTurn` that claim for a caller without a controller (there is no such caller).
- The failure of `mkdir` in POST /messages: there the claim is released in the same synchronous stretch.
- The regular expressions that classify a failure as dead login or spent limit: a nondeterministic flag on the driver's event.
- The HTTP body and the summary of `/clear`: its three synchronous stretches are events that come in any order with everything else.
- The workstream outbox, and SHA-256 behind `canonicalJson`: only the pre-image is modelled.
- Git itself: commits form a graph with an abstract three-way merge that gives a tree or conflicts; a command that fails changes nothing. Forced pushes of the base branch, `fetch`, `mergedSha` and line statistics are not modelled.
- JSON numbers are represented by the text `JSON.stringify` gives them, so -0 is 0; NaN, infinities and `undefined` are outside the grammar of RFC 8259.
- UTF-16: outside `CanonicalJson` a string is a sequence of characters, so a surrogate pair counts as one where the code's lengths count two.
- How an untracked file is read (symbolic links, modes, the read cap, UTF-8 decoding) and how `resolveBase` picks the diff base.
- `toUpperCase`, `toLowerCase` are parameters; scores are exact decimals instead of binary floating point.
- Locks.EntryWhileInLine: one direction only, since the repo lock's entry outlives its last section until the promise reaction that drops it has run; `Locks.EntryGoesExactly` says when it goes.
- TurnDuty.TurnEndNotLost: also excepts a last-resort handler whose own storage call fails or finds the row gone, because nothing is left to publish from there; `TurnLosses.TurnEndOwedExactly` is the exact statement.
- TurnDuty.NoStrandedFollowUp: any reason recorded since the last launch excuses; `TurnLosses.FollowUpsParkedExactly` is the exact statement.
- TurnDuty.SupersededTouchesNothing: says nothing about a successor that has already left the slot; `TurnSettlement.SessionChangesExactly` does.
- GitNoLoss.NoCommitLost: the operations do not include a merge of another branch than the base into the work branch; `GitNoLoss.AbortLosesExactly` says what abandoning a resolution then takes along.
- TurnExclusion.WorktreeExclusion: speaks of turns that were not aborted, because a stopped turn unwinds without holding the slot; `TurnOverlap.OverlapExactly` covers stopped ones.
- GitNoLoss.FreshBranch: a branch that starts at HEAD because the base does not exist, or an existing branch that is attached again, is not covered; the invariant then has to be met by that branch.
- GitLanding.BothPathsAgree: compares refs, parents and answers; both paths are given the same three-way merge.
- Fuzzy.ExactHitDominates: one direction, for any lower-casing; `FuzzyBound.HitBeatsAllExactly` is exact.
- AskUser.TakenAtMostOnce: assumes what the id generator provides, that no two `ask_user` asks share an id and that task ids hold no colon (`AskUser.ColonsCollide` shows the latter is needed).
- Per-file patches fetched when the whole-tree patch cannot be split, the untracked list, and the dirty and ahead flags of `taskDiff`: further reads without logic of their own.
- Service supervision, uploads, visuals, notes, insights, quota, views: members with little to prove.
