# Verification of diploid-agent's state machines

This project models the parts of diploid-agent that promise something about whole
runs: which plan tasks may start and when a plan counts as stuck, where a recorded
turn can be at any moment, who may hold a chat, what the watchdog may kill, how
often the transport may be restarted, and how bounded windows relate to the
unbounded streams behind them.

Code that changes objects, lists or files in place is a class whose methods are
proved against a specification on values; the laws over all runs and all
interleavings are lemmas about those specifications. In the concurrent parts each
event is one critical section of one thread, and a run is any sequence of events.

| file | content |
|---|---|
| `PlanModel.dfy` | task graphs, resolved statuses, least fixpoint, deadlock freedom |
| `PlanManager.dfy` | plans changed in place, the resolve loop, runs of operations |
| `PlanBlocked.dfy` | what each operation and run makes of a plan, and when BLOCKED and READY are exact |
| `RetainBuffer.dfy` | the turn buffer and its backing file |
| `HindsightSpool.dfy` | the spool, flush passes and conservation of documents |
| `HindsightBackend.dfy` | the backend's loops over files, and `retain` |
| `RetainPipeline.dfy` | buffer, spool, server and dead letters in any interleaving |
| `RetainOutcomes.dfy` | which outcome takes a document where, and that its text holds its turns |
| `FlushPass.dfy` | one flush pass of the spool with other threads at work |
| `InstanceLock.dfy` | the per-chat lock across processes and threads |
| `Watchdog.dfy` | stall recovery against transport generations |
| `RestartLimiter.dfy` | the restart history and its file |
| `RestartRuns.dfy` | the restart limit over runs with overlapping restarts and reloads |
| `ActiveTurn.dfy` | rolling text windows and the recovered message |
| `FinalSegment.dfy` | the reply after the last tool call |
| `EventLog.dfy` | the event ring and client cursors |
| `TranscriptCache.dfy` | incremental transcript parsing |
| `PluginHistory.dfy` | plugin configuration with undo |
| `Template.dfy` | placeholder formatting |
| `Selections.dfy`, `Wrappers.dfy` | sublists that keep their order, and options |

What the proofs say about the code, where the code does not hold in general:

- READY is safe after an operation iff the operation hands no task to the resolve that is
  READY while its dependencies have neither finished nor stand in its way
  (`PlanModel.EntryCondition`, over runs `PlanBlocked.ReadyIsExact`); only a caller that
  hands in a READY task can bring that about (`PlanManager.ReadyIsSafe`).
- BLOCKED is exact after an operation iff every BLOCKED task that the operation hands to
  the resolve has a missing or failed task in its way or may start at once
  (`PlanBlocked.StepExact`, over runs `PlanBlocked.BlockedIsExact`). Only completing a
  failed or blocked task, or adding one that is BLOCKED or already waited for, can break
  that (`PlanBlocked.QuietRunIsExact`), and it does so in a three-task run
  (`PlanBlocked.RevivalLeavesStale`).
- A restart restores the turn buffer exactly when no buffered turn has empty content
  (`RetainBuffer.LoadRoundTrip`); turns as the harness records them never do.
- The instance lock excludes others only if no thread acquires again before it has
  released; every re-entry breaks it (`InstanceLock.ReentryBreaksExclusion`). `wake`
  does nest into `continue_turn` (src/diploid_agent/runtime/ingress.py:235).
- With p restarts for a reason between their check and their record, the limit becomes
  limit + p - 1 (`RestartRuns.RunWindowBound`), and any run can go on to reach that
  (`RestartRuns.OverlapReachesBound`); `restart_transport` checks and records before it
  takes the lifecycle lock (src/diploid_agent/acp_client/client.py:625-631). The bound
  needs windows that are open at one end and reloads with no longer window: any longer
  one breaks it (`RestartRuns.LongerWindowExceedsLimit`).
- The message text is the text after the thought exactly under the condition
  `ActiveTurn.Recoverable`.
- The final reply keeps or drops exactly the thought unless a thought longer than 20000
  characters agrees with the reply on its first 20000 only
  (`ActiveTurn.FinalReplyStripsThought`); then the reply loses text of its own
  (`ActiveTurn.DivergingReplyIsCut`, `ActiveTurn.PartialReplyIsLost`).
- `truncated` is wrong only for a negative cursor on a log that has lost nothing.
- The event log promises delivery across restarts; it keeps the promise, whatever writes
  fail, as long as every restart finds the last 500 events in the file
  (`EventLog.CursorDelivery`; for one client less is enough, `EventLog.ClientDelivery`), and an event that is unwritten at a restart is never
  returned again (`EventLog.UnwrittenIsLost`). A client can miss events unnoticed because
  a number is used twice (`EventLog.FailedWriteHidesAnEvent`) or because one is left out
  (`EventLog.InteriorHole`).
- A transcript read that ends inside a record, other than in blanks around it, loses that
  record for good (`TranscriptCache.TornLineExactly`, `TranscriptCache.TornRecordIsLost`).

## Model

| member | source | states |
|---|---|---|
| PlanManager.Plan.ResolveStatuses | src/diploid_agent/plan/manager.py:106-140 | the loop ends on any graph, cycles included, within n + 1 passes; the result is settled, changes only unstarted tasks, and every status in it has a reason in the input: READY was eligible or READY before, BLOCKED has a path through unstarted tasks to a missing, failed or already BLOCKED one |
| PlanManager.Plan.ResolveTask | src/diploid_agent/plan/manager.py:113-140 | one iteration either settles one more task and keeps all that is known, or finds the task settled and changes nothing |
| PlanModel.RewriteKeeps | src/diploid_agent/plan/manager.py:129-138 | a rewrite to READY or BLOCKED lowers the number of outstanding tasks by exactly one and stays justified by the input |
| PlanModel.FinalStatus | src/diploid_agent/plan/manager.py:106-140 | each final status is a function of the input that mentions no order: an unstarted task ends BLOCKED iff it is not eligible and a path through unstarted tasks reaches a missing, failed or already BLOCKED one, provided that dependents of needlessly BLOCKED tasks are BLOCKED too |
| PlanModel.ResolveDeterministic | src/diploid_agent/plan/manager.py:106-140 | under the same condition, which every operation meets, a list has one result |
| PlanModel.LeastFixpoint | src/diploid_agent/plan/manager.py:106-140 | unless a BLOCKED task was stale before, an unstarted task ends BLOCKED iff a dependency path through unstarted tasks reaches a missing id or a failed task |
| PlanModel.OrderIndependent | src/diploid_agent/plan/manager.py:113-140 | resolving the same tasks listed in another order gives every task the same status, also with stale BLOCKED tasks as operations hand them over |
| PlanModel.ResolveStale | src/diploid_agent/plan/manager.py:106-140 | resolving leaves no stale BLOCKED task iff every BLOCKED task it was given is doomed or eligible, provided that dependents of needlessly BLOCKED tasks are BLOCKED too |
| PlanBlocked.StepResolves | src/diploid_agent/plan/manager.py:198-310 | every operation of a run ends as the resolution of what it hands over, and hands over a list that has only one |
| PlanBlocked.StepDeterministic | src/diploid_agent/plan/manager.py:198-310 | an operation on a plan has one outcome |
| PlanBlocked.RunDeterministic | src/diploid_agent/plan/manager.py:106-310 | the same operations on the same tasks always lead to the same plan |
| PlanBlocked.StepExact | src/diploid_agent/plan/manager.py:198-310 | after adding, starting, completing or failing, BLOCKED is exact iff each BLOCKED task handed to the resolve is doomed or eligible |
| PlanBlocked.BlockedIsExact | src/diploid_agent/plan/manager.py:106-310 | the same for every state of every run: BLOCKED means exactly unstarted and doomed iff the list resolved last had only doomed or eligible BLOCKED tasks |
| PlanBlocked.QuietRunIsExact | src/diploid_agent/plan/manager.py:198-310 | in every run that completes no failed or blocked task and adds none that is BLOCKED or waited for, BLOCKED is exact throughout |
| PlanBlocked.RevivalLeavesStale | src/diploid_agent/plan/manager.py:265-275 | in a run that fails a task, every outcome of completing it after all leaves a dependent BLOCKED although nothing in its way is missing or failed |
| PlanModel.EntryCondition | src/diploid_agent/plan/manager.py:134-140 | after a resolve READY is safe iff every task handed in READY is eligible or has a missing, failed or BLOCKED task in its way |
| PlanBlocked.ReadyIsExact | src/diploid_agent/plan/manager.py:106-310 | the same for every state of every run, whatever READY or BLOCKED tasks were handed in |
| PlanModel.ReadyHandedInIsUnsafe | src/diploid_agent/plan/manager.py:139-140 | a concrete list that violates the entry condition |
| PlanModel.SettledIsAccounted | src/diploid_agent/plan/manager.py:142-155 | an acyclic, complete, settled plan is COMPLETED with all tasks finished, ACTIVE with a task READY or RUNNING, or FAILED with every unfinished task BLOCKED below a failed ancestor |
| PlanManager.Plan.UpdatePlanStatus | src/diploid_agent/plan/manager.py:142-155 | on any list the status left is COMPLETED iff there are tasks and all are DONE or INCOMPLETE, ACTIVE iff one is RUNNING or READY, FAILED iff one is FAILED and none RUNNING or READY, and DRAFT otherwise |
| PlanManager.StatusIsExact | src/diploid_agent/plan/manager.py:142-310 | in every state of every run, on any graph, the plan status says exactly that of the tasks |
| PlanManager.DraftsAreAstray | src/diploid_agent/plan/manager.py:106-155 | in every run each unfinished task of a plan that is a DRAFT has a dependency path to a missing id or into a cycle |
| PlanManager.StartTakesEffect | src/diploid_agent/plan/manager.py:237-244 | starting a READY task always makes it RUNNING and the plan ACTIVE, and changes no other task |
| PlanManager.OutcomeTakesEffect | src/diploid_agent/plan/manager.py:258-306 | completing or failing a task always gives it that status and leaves every other started task as it was |
| PlanManager.NoSilentDeadlock | src/diploid_agent/plan/manager.py:106-310 | in every run, after every operation, an acyclic complete non-empty plan is accounted for in one of those three ways and is never DRAFT |
| PlanManager.StartSafety | src/diploid_agent/plan/manager.py:229-244 | a started task was READY and every dependency exists and is finished, whatever was failed, completed again or added before |
| PlanManager.ReadyIsSafe | src/diploid_agent/plan/manager.py:106-140 | in every run whose tasks enter unready, READY implies that every dependency exists and is finished |
| PlanManager.PlanManager.CreatePlan | src/diploid_agent/plan/manager.py:157-185 | the new plan is a resolution of the given tasks, consistent, and stored apart from all others |
| PlanManager.PlanManager.AddTask | src/diploid_agent/plan/manager.py:198-213 | None and no change for an unknown plan or a known id, else the plan takes one add step and no other plan changes |
| PlanManager.PlanManager.StartTask | src/diploid_agent/plan/manager.py:229-244 | a task is returned iff some task of that id was READY; then it is RUNNING, no other task has changed, and the plan status fits; otherwise nothing changes |
| PlanManager.PlanManager.CompleteTask | src/diploid_agent/plan/manager.py:246-279 | the task becomes DONE, or INCOMPLETE if cancelled, partial or timed out, and the plan is resolved again |
| PlanManager.PlanManager.FailTask | src/diploid_agent/plan/manager.py:281-310 | the task becomes FAILED and the plan is resolved again |
| RetainBuffer.TurnRetainBuffer.Append | src/diploid_agent/memory_retention.py:78-103 | for any failures the retained turns followed by the buffer are the recorded turns in order and the file equals the buffer; nothing is flushed below the bundle size in one session; without failures a full bundle and the turns of an earlier session are |
| RetainBuffer.TurnRetainBuffer.Flush | src/diploid_agent/memory_retention.py:105-162 | documents hold one session each and the text of all their turns, one document per run, in order; a failure keeps what is left in buffer and file |
| RetainBuffer.HandOver | src/diploid_agent/memory_retention.py:112-128 | handing over the head run loses, reorders and mixes nothing, and the next document belongs to another session |
| RetainBuffer.JoinLaidOut | src/diploid_agent/memory_retention.py:128 | the text of a bundle holds the text of every turn at its offset, in order, with the separator between neighbours and nothing else |
| RetainBuffer.LoadRoundTrip | src/diploid_agent/memory_retention.py:46-60 | reloading the file gives the buffer back iff no turn has empty content |
| HindsightBackend.HindsightBackend.PostNextBatch | src/diploid_agent/memory_backends.py:447-485 | of the items among the next twenty lines the unpostable ones are dead-lettered; the others reach the server if the POST is accepted, are dead-lettered if it is rejected, and stay and end the pass if it fails |
| HindsightSpool.PostBatchDelivers | src/diploid_agent/memory_backends.py:461-485 | the same for the step on the shared store |
| HindsightBackend.HindsightBackend.FlushSpool | src/diploid_agent/memory_backends.py:428-502 | a pass without transient failures leaves the malformed lines; with all POSTs accepted the server gains all postable items of the spool in order and the dead letters the others; an unhealthy server or a running pass leaves all as it is |
| HindsightBackend.HindsightBackend.RewriteSpool | src/diploid_agent/memory_backends.py:487-496 | the file becomes the lines whose index was not flushed, in order |
| HindsightBackend.HindsightBackend.Retain | src/diploid_agent/memory_backends.py:524-624 | unpostable items are dead-lettered at once, the others spooled, and whatever the POSTs do then, every item ends once in spool, server or dead letters and nothing else is gained or lost |
| HindsightSpool.PassConserves | src/diploid_agent/memory_backends.py:446-496 | no batch, with any outcome, and no rewrite gains or loses a document |
| HindsightSpool.BatchHeld | src/diploid_agent/memory_backends.py:458-482 | what a batch marks in the spool is exactly what its payloads hold |
| FlushPass.FlushSafety | src/diploid_agent/memory_backends.py:428-502 | from any spool file and with appends anywhere during a pass, the rewrite drops exactly the marked snapshot items, keeps the order of all other lines, malformed ones included, and loses no line appended meanwhile |
| HindsightSpool.KeepMeans | src/diploid_agent/memory_backends.py:492-494 | the rewrite keeps exactly the lines whose index is not marked, in their order |
| FlushPass.DroppedIsDelivered | src/diploid_agent/memory_backends.py:445-496 | what a pass marks for removal is, copy by copy, what the server and the dead letters have gained in it, apart from what other threads dead-lettered meanwhile |
| FlushPass.QuietPassDrains | src/diploid_agent/memory_backends.py:447-496 | a pass without a transient failure leaves only the malformed lines of its snapshot and the lines appended meanwhile |
| RetainOutcomes.AcceptedArePostable | src/diploid_agent/memory_backends.py:460-479 | in every run the server only ever takes documents of at most 100000 characters that are not blank |
| RetainOutcomes.NoneAccepted | src/diploid_agent/memory_backends.py:475-482 | in every run without an accepted POST the server has nothing |
| RetainOutcomes.NoneRejected | src/diploid_agent/memory_backends.py:461-482 | in every run without a rejected POST all dead letters are blank or longer than 100000 characters |
| RetainOutcomes.TextIsStored | src/diploid_agent/memory_retention.py:116-150 | in every run each turn counted at the server or in the dead letters stands in the text of its document there |
| RetainPipeline.TurnConservation | src/diploid_agent/memory_retention.py:78-162 | in every interleaving with failures, outcomes and restarts, each recorded turn is in exactly one of buffer, live spool, server and dead letters, as often as recorded; copies still in the buffer between a hand-over and its deletion do not count |
| RetainPipeline.RestartIsLossless | src/diploid_agent/memory_retention.py:46-103 | with `append` and `flush` as sequences of steps that end in a write, a restart between them changes nothing, whatever hand-overs failed |
| RetainPipeline.DocumentConservation | src/diploid_agent/memory_backends.py:428-624 | between passes each document given to the backend or found in the spool is in exactly one of spool file, server and dead letters |
| RetainPipeline.RunSound | src/diploid_agent/memory_retention.py:105-162 | in every state of every run the turns handed over, then the buffer without what is about to be deleted, are the recorded turns in order |
| InstanceLock.InstanceManager.Acquire | src/diploid_agent/runtime/instance.py:132-182 | success and the new holder tables and lock files are those of the specification: granted to the holding thread, refused to other threads, to a locked file and to one freshly written by a live other instance |
| InstanceLock.InstanceManager.Release | src/diploid_agent/runtime/instance.py:184-204 | the chat is dropped and its file emptied and unlocked, whoever calls; an unheld chat changes nothing |
| InstanceLock.InstanceManager.Heartbeat | src/diploid_agent/runtime/instance.py:206-215 | exactly the held chats are stamped |
| InstanceLock.MutualExclusion | src/diploid_agent/runtime/instance.py:132-204 | in every run of any processes and threads, with crashes and without re-entry, at most one thread anywhere is inside a chat |
| InstanceLock.ReentryBreaksExclusion | src/diploid_agent/runtime/instance.py:136-141 | from any sound state, re-entry, one release and another thread of the process put two threads inside |
| InstanceLock.ReleasedIsFree | src/diploid_agent/runtime/instance.py:184-202 | once the holder has left, any thread of any process is granted the chat |
| InstanceLock.FreeFileDecides | src/diploid_agent/runtime/instance.py:161-174 | an unlocked chat that the process does not hold is refused iff its file names another pid and another instance, that process lives, and it has written within the ttl |
| InstanceLock.CrashedOwnerIsFree | src/diploid_agent/runtime/instance.py:161-182 | in every run a chat whose holder has crashed is granted to any thread of any process that finds the owner dead |
| InstanceLock.LiveOwnerKeepsOut | src/diploid_agent/runtime/instance.py:161-174 | in every run a chat whose file names a live and recent other is refused to whoever is not inside |
| InstanceLock.HolderKeepsOut | src/diploid_agent/runtime/instance.py:136-160 | in every run, while one thread is inside a chat, every other thread anywhere is refused |
| InstanceLock.GrantWrites | src/diploid_agent/runtime/instance.py:138-180 | a grant leaves the chat locked and held by the thread and its file with pid, instance and time, and no other chat changed |
| InstanceLock.HeartbeatWrites | src/diploid_agent/runtime/instance.py:206-215 | a heartbeat writes pid, instance and time into the files of the held chats and leaves the others alone |
| Watchdog.KillsWhatItObserved | src/diploid_agent/acp_client/watchdog.py:150-284 | in every interleaving with starts, closes and restarts, a killed process is the observed one in the same generation, the stall was confirmed under the lifecycle lock, no new transport started in between, and the cause was a passed call deadline or, with no prompt running, a control call past its own deadline or, lacking one, past the timeout |
| Watchdog.SkipsWhenReplacedOrCleared | src/diploid_agent/acp_client/watchdog.py:207-247 | if a transport was started since the observation or the stall has cleared, recovery leaves the transport alone |
| Watchdog.FirstLook | src/diploid_agent/acp_client/watchdog.py:59-121 | the first look reports an unfinished call with exactly the trigger that applies: a dead process, else a passed deadline, else an overdue control call without a prompt |
| Watchdog.ActsOnStandingStall | src/diploid_agent/acp_client/watchdog.py:207-247 | a stall that stands under the lifecycle lock, on the transport that was observed, is acted upon |
| Watchdog.RecoveryLeaves | src/diploid_agent/acp_client/watchdog.py:265-284 | recovery leaves no live process and a transport that is neither healthy nor initialised, and gives the lock back |
| Watchdog.StopLeavesNoProcess | src/diploid_agent/acp_client/transport.py:165-298 | stopping the transport, before a start or for good, leaves no live process behind |
| Watchdog.SpawnIsFresh | src/diploid_agent/acp_client/transport.py:165-298 | in every run a new process is alive and another than the one before |
| Watchdog.StepKeepsInv | src/diploid_agent/acp_client/transport.py:165-298 | every step of every thread keeps that a watchdog past its judgement holds the lifecycle lock and faces what it observed |
| Watchdog.FindObservation | src/diploid_agent/acp_client/watchdog.py:55-121 | a watchdog that waits or acts does so for a trigger that its first look found, for the process and generation of that moment |
| RestartRuns.RunWindowBound | src/diploid_agent/acp_client/client.py:625-626 | in every run of checks, records, unchecked records and reloads with no longer window, with at most p restarts for a reason between check and record, any stretch shorter than the window holds at most limit + p - 1 checked restarts; serialised, that is the limit |
| RestartRuns.OverlapReachesBound | src/diploid_agent/acp_client/client.py:625-626 | every run with none in flight can go on so that p overlapping restarts let exactly limit + p - 1 through at one moment |
| RestartRuns.StepGuarded | src/diploid_agent/acp_client/lifecycle.py:187-265 | no event makes memory or file forget an attempt inside the window |
| RestartRuns.LongerWindowExceedsLimit | src/diploid_agent/acp_client/lifecycle.py:196 | for every limit and every longer window, every run with none in flight can go on with serial restarts and one reload so that limit + 1 lie less than that window apart |
| RestartLimiter.RestartHistory.Restart | src/diploid_agent/acp_client/client.py:615-628 | a checked restart has the specified outcome on history and file; if all of the window is known, it is let through iff fewer than the limit lie in the window, and the limit is kept |
| RestartLimiter.RestartHistory.RecordUnchecked | src/diploid_agent/acp_client/watchdog.py:262-264 | unchecked records of the watchdog keep the limit on checked ones |
| RestartLimiter.RestartHistory.Record | src/diploid_agent/acp_client/lifecycle.py:234-241 | the history is pruned, extended and written through, and still knows all of the window |
| RestartLimiter.RestartHistory.Check | src/diploid_agent/acp_client/lifecycle.py:251-265 | gives up iff the limit is positive and the pruned history holds that many attempts for the reason |
| RestartLimiter.RoomMeans | src/diploid_agent/acp_client/lifecycle.py:253-259 | a check passes iff the limit is off or fewer attempts than the limit are for the reason and later than the cutoff |
| RestartLimiter.PrunedMeans | src/diploid_agent/acp_client/lifecycle.py:218-222 | pruning keeps exactly the attempts later than the cutoff, in their order |
| RestartLimiter.RestartHistory.constructor | src/diploid_agent/acp_client/lifecycle.py:187-216 | a reload with any window prunes and rewrites the file, and forgets nothing later than the cutoff |
| RestartLimiter.RecordLimited | src/diploid_agent/acp_client/lifecycle.py:218-257 | an attempt whose check found room keeps any limit + 1 checked attempts spread over at least a window |
| RestartLimiter.WindowBound | src/diploid_agent/acp_client/lifecycle.py:251-265 | any window open at its end holds at most the number of checked restarts for a reason beyond which they are spread |
| RestartLimiter.ClosedWindowExceedsLimit | src/diploid_agent/acp_client/lifecycle.py:221-222 | two restarts exactly one window apart pass a limit of one |
| ActiveTurn.ActiveTurn.AppendFullText | src/diploid_agent/models.py:173-185 | the window is the last MAX characters of the whole message stream and the offset is what was dropped |
| ActiveTurn.ActiveTurn.AppendThoughtText | src/diploid_agent/models.py:227-235 | the thought fields are the capped suffix, the capped prefix and the length of the whole thought stream |
| ActiveTurn.WindowsMeaning | src/diploid_agent/models.py:173-235 | the fields are the last 20000 characters of the message stream with what was dropped before them, the last and the first 20000 of the thought stream, and its length |
| ActiveTurn.ActiveTurn.RecomputeMessageText | src/diploid_agent/models.py:187-225 | the message text is the window after the thought when the thought is verifiably in it, else the window |
| ActiveTurn.MessageExactly | src/diploid_agent/models.py:207-225 | when the message stream is the thought followed by M, exactly M is recovered iff the stated condition on lengths and window holds, and otherwise the whole window is taken |
| ActiveTurn.MessageMeaning | src/diploid_agent/models.py:187-225 | for any two streams the message is the window from the end of the thought on if the stream visibly starts with the thought, character by character, and else the whole window |
| ActiveTurn.MessageIsSuffix | src/diploid_agent/models.py:207-225 | in all cases the message text is a suffix of the message stream no longer than MAX |
| ActiveTurn.FinalReplyStripsThought | src/diploid_agent/models.py:237-249 | exactly a leading thought and the newlines after it go, and other replies stay, iff the thought fits the window, begins the reply in full, or does not begin it even with its first MAX characters |
| ActiveTurn.LeadingThoughtGoes | src/diploid_agent/models.py:237-249 | a reply that begins with all of the thought loses it and exactly the newlines after it |
| ActiveTurn.DivergingReplyIsCut | src/diploid_agent/models.py:243-248 | a reply that leaves a long thought after MAX characters loses a character of its own |
| ActiveTurn.PartialReplyIsLost | src/diploid_agent/models.py:243-248 | a reply that stops inside a long thought after MAX characters comes back empty |
| FinalSegment.Prompt.RouteUpdate | src/diploid_agent/acp_client/callbacks.py:123-133 | the concatenated chunks are all agent text of the stream and the updates are its newest 256 |
| FinalSegment.SaidMeans | src/diploid_agent/acp_client/callbacks.py:123-142 | a message or message chunk adds the texts of its text blocks in order to the reply, any other update nothing |
| FinalSegment.FinalSegmentReply | src/diploid_agent/models.py:252-282 | the reply is cut by the length of what the tail shows after its last tool update |
| FinalSegment.SegmentMeaning | src/diploid_agent/models.py:264-279 | the segment is the agent text of all updates after the last tool update |
| FinalSegment.SegmentIsExact | src/diploid_agent/models.py:252-282 | if the bounded tail shows a tool update, then for every ending of the unbounded stream's text as the reply the cut is the text after the last tool update, or what is left of it, or None if there is none |
| FinalSegment.VisibleIffRecent | src/diploid_agent/acp_client/types.py:17-53 | a tool update is visible in the tail iff fewer than 256 updates came after the last one |
| EventLog.EventLog.Append | src/diploid_agent/runtime/event_log.py:68-92 | the event takes the next number and the ring its newest events, whether or not the write succeeded |
| EventLog.EventLog.Since | src/diploid_agent/runtime/event_log.py:94-120 | a poll answers from the ring, or from the newest 500 events of the file if nothing is loaded |
| EventLog.PollSees | src/diploid_agent/runtime/event_log.py:111-120 | a poll returns the file's events from the cursor, or from the oldest one still in the ring, up to the limit |
| EventLog.TruncatedExactly | src/diploid_agent/runtime/event_log.py:114 | the flag says that an event after the cursor has left the ring iff the cursor is not negative, the log is empty or it has dropped events |
| EventLog.CursorDelivery | src/diploid_agent/runtime/event_log.py:39-130 | over appends with or without successful writes, restarts that find the last 500 events written, and untruncated polls, a client has received exactly a prefix of all events, numbered contiguously |
| EventLog.ClientDelivery | src/diploid_agent/runtime/event_log.py:39-130 | the same for one client if every restart finds the last event and all that this client still needs in the file |
| EventLog.ReloadExactly | src/diploid_agent/runtime/event_log.py:39-60 | a reload gives the ring of all events ever appended iff each of the last 500 reached the file |
| EventLog.UnwrittenIsLost | src/diploid_agent/runtime/event_log.py:79-90 | an event that is unwritten at a restart is returned by no later poll, whatever the cursor |
| EventLog.FailedWriteHidesAnEvent | src/diploid_agent/runtime/event_log.py:85-90 | after a failed write and a restart a client that saw the unwritten event never sees its successor and is not told |
| EventLog.InteriorHole | src/diploid_agent/runtime/event_log.py:85-90 | after a failed write, a successful one and a restart a client at the end of the file gets only the later event, and is told of a gap iff the file was empty |
| TranscriptCache.TranscriptReader.LoadTranscript | src/diploid_agent/memory_backends.py:153-186 | the call serves what the specification says from cache, size and file; with a right cache that is the parse of the whole file at the size or at the read, and the cache stays right |
| TranscriptCache.CallIsFullParse | src/diploid_agent/memory_backends.py:153-186 | in every interleaving of whole-line appends with the sizes and reads of any readers, each call returns the parse of the whole file as it stood when that call took the size or when it read |
| TranscriptCache.EntriesConcat | src/diploid_agent/memory_backends.py:170-185 | at a line boundary, parsing in two pieces is parsing the whole |
| TranscriptCache.TornLineExactly | src/diploid_agent/memory_backends.py:179-185 | reading on from inside a line agrees with the full parse iff the line is a record and the cut is in the blanks around it, or neither the line nor a part of it is one; a record cut inside is the one entry missing |
| TranscriptCache.TornRecordIsLost | src/diploid_agent/memory_backends.py:179-185 | the record {} read in two parts gives no entry |
| PluginHistory.PluginManager.SnapshotConfig | src/diploid_agent/plugins/manager.py:103-109 | the history gains fresh copies of the live list, keeps at most ten, and old snapshots hold what they held |
| PluginHistory.PluginManager.TogglePlugin | src/diploid_agent/plugins/manager.py:145-167 | the first plugin of the name changes in place, no snapshot does, and the newest snapshot is the live list |
| PluginHistory.PluginManager.DisablePlugins | src/diploid_agent/plugins/manager.py:327-333 | all named plugins change in place, no earlier snapshot does |
| PluginHistory.PluginManager.AddPlugin | src/diploid_agent/plugins/manager.py:111-120 | refused for an empty or known name, else the list with it sorted stably, and one snapshot |
| PluginHistory.PluginManager.RemovePlugin | src/diploid_agent/plugins/manager.py:122-143 | refused for an unknown name, else the list without it, and one snapshot |
| PluginHistory.PluginManager.Reconfigure | src/diploid_agent/plugins/manager.py:70-101 | the named plugins sorted stably, and one snapshot |
| PluginHistory.PluginManager.Rollback | src/diploid_agent/plugins/manager.py:169-207 | possible iff the history is long enough; fresh objects with the earlier values become live and the history ends there |
| PluginHistory.UndoRestores | src/diploid_agent/plugins/manager.py:169-204 | up to nine operations followed by as many steps of rollback restore the list before them |
| PluginHistory.RollbacksAdd | src/diploid_agent/plugins/manager.py:177-204 | rolling back by j and then by k equals rolling back by j + k, and is possible in the same cases |
| PluginHistory.SortOrdered | src/diploid_agent/plugins/manager.py:98 | the live list is ordered by prompt order |
| PluginHistory.SortStable | src/diploid_agent/plugins/manager.py:98-118 | sorting is a permutation that keeps plugins of equal order in their places |
| PluginHistory.NamedMeans | src/diploid_agent/plugins/manager.py:78 | exactly the plugins with a name are kept, in their order |
| PluginHistory.WithoutMeans | src/diploid_agent/plugins/manager.py:127 | removing keeps exactly the plugins of other names, in their order |
| Template.PlaceholderFormatter.Format | src/diploid_agent/mcp.py:24-58 | the scan terminates with the output of the specification |
| Template.RoundTrip | src/diploid_agent/mcp.py:24-58 | for all literals, known and unknown keys that can be written, formatting what was printed gives the values as they are, unknown placeholders verbatim, and never scans a value |
| Template.EscapeIsInverse | src/diploid_agent/mcp.py:29-36 | every text with doubled braces formats back to itself |
| Template.KnownKeys | src/diploid_agent/mcp.py:41-50 | the four keys stand for their values and no other key for any |
| Template.LoneCharacters | src/diploid_agent/mcp.py:35-57 | single braces that open or close nothing, and all other characters, are copied |

## Left out

- PlanManager.PlanManager.CreatePlan: does not model plans created with duplicate ids, which the source accepts, because lookups by id are then ambiguous; empty ids are replaced by fresh ones before the model starts.
- Plan fields other than id, dependencies and status, change notifications, and the file format of the plan store; a transaction is one atomic step.
- RetainBuffer.TurnRetainBuffer.Append: does not model a backing-file write that fails, because the file then lags behind the buffer by design; document ids, metadata and tags are left out.
- HindsightBackend.HindsightBackend.PostNextBatch: does not model a dead-letter write that fails inside a pass, nor a spool line that parses to something other than an object; either aborts the pass without a rewrite.
- RetainOutcomes.TextIsStored: assumes that spool lines left by earlier processes hold the text of the turns that are counted in them.
- A crash in the middle of an operation: restarts happen between operations.
- Server acceptance behind a lost response: a transient failure counts as not accepted.
- HindsightSpool.IsSpace: lists the ASCII and Latin-1 white space only.
- HTTP, health caching, metrics, recall and summaries of the memory backends.
- InstanceLock.InstanceManager.Acquire: takes process liveness and the clock as parameters; heartbeat threads appear as heartbeat steps at any time.
- Watchdog: the transport is modelled on values as steps under the lifecycle lock, without the objects behind it; the silence warning, asyncio scheduling, subprocess creation and the order of the caller's steps are left free.
- RestartLimiter.RestartHistory.Restart: one check and its record with nothing in between; `RestartRuns` covers the rest. Clock readings are positive and never go back.
- ActiveTurn: turns seeded from a wake event.
- FinalSegment.SegmentIsExact: replies that plugins rewrite so that they no longer end the stream's text; `FinalSegment.FinalSegmentReply` says what they are cut to.
- FinalSegment.Prompt.RouteUpdate: routing to one of several prompts, replay buffering and callbacks.
- EventLog.UnwrittenIsLost: assumes that no two events of one chat look alike; they carry their time.
- EventLog.EventLog.Since: one evaluation of the polling loop; waiting on the condition variable changes nothing in the log. Chats are independent, so one chat is modelled; malformed lines are not.
- TranscriptCache.TornLineExactly: assumes of the decoder that blanks around a record do not matter and that no part of a record is a record, as for JSON objects.
- TranscriptCache.TranscriptReader.LoadTranscript: takes the decoding of a line as a parameter, knows only the newline as separator, and leaves out files that shrink or are rewritten.
- PluginHistory: running plugin instances, the generation counter and the message about per-chat overrides.
- Template: the sanitising of the chat directory name, which is a parameter.
- Telegram, HTTP, MCP and webhook code, the sandbox, control socket and platform shims, prompts, personas, skills, cron tools, wake queue, turn controller and session store.
