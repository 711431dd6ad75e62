# A verified model of the A2A registry

The registry keeps track of agents: it registers them under a name and a tenant, talks to them
over WebSockets, hands them tasks, follows those tasks through acknowledgement, progress, result,
disconnect, reconnect and timeout, limits request rates, posts webhook events, signs tokens and
publishes agent cards. This project models the parts of it that carry state, protocol or
arithmetic, and proves what they keep over every input and every run.

| file | what it models |
|---|---|
| `Common.dfy` | optional values, insertion-ordered dictionaries |
| `TaskBoard.dfy` | the kanban board behind the WebSocket side: a status and a result per task, guarded by a transition table |
| `StateSync.dfy` | the merge of memory, board and agent report when an agent reconnects |
| `TaskLifecycle.dfy` | the task protocol as a state machine, one event per stretch of code between two awaits, with its invariant |
| `LifecycleRuns.dfy` | safety of whole runs of that machine, for every interleaving |
| `LifecycleEffects.dfy` | what each event leaves behind, record by record, row by row and timer by timer, and how a finished task is reported later |
| `LifecycleLimits.dfy` | concrete runs that show where the promises stop |
| `RegistryHandlers.dfy` | the handler object with its dictionaries and timers changed in place; each method is proved to take the step of the state machine |
| `Connections.dfy` | the connection table under reconnects, replacements, unregistrations and the periodic sweep |
| `TokenBuckets.dfy` | both token buckets, the middleware and its Retry-After header |
| `Webhooks.dfy` | subscriptions, delivery rounds with retries, the failure counter and the delivery log, one event after the other |
| `WebhookRuns.dfy` | the same with any number of deliveries under way at once, cut at their awaits |
| `WebhookOverlap.dfy` | how many posts a dead endpoint receives when deliveries overlap |
| `AgentNames.dfy` | the duplicate-name check over the agents table |
| `Json.dfy`, `Base64Url.dfy`, `Jwt.dfy`, `Jwks.dfy` | JSON values, base64url (section 5 of RFC 4648), compact RS256 tokens (RFC 7515), JWKS integers (section 2 of RFC 7518) |
| `AgentCards.dfy` | agent cards to and from plain dicts |

## What the proofs found

- The board's transition table (`simple_a2a_registry/orchestration/state_machine.py:21-50`) leads
  neither into nor out of "dangling". The board update of a disconnect therefore always raises and
  is only logged (`simple_a2a_registry/server.py:799-812`, `RepositoryRefusesDangling`), and the
  healing branch of the reconnect merge (`simple_a2a_registry/registry_handler.py:715-738`) is never
  taken, although
  `simple_a2a_registry/orchestration/models.py:22-25` and the docstring of `_dangle_agent_tasks`
  describe it. The run theorems hold for every transition table; `RepositoryNeverHeals` draws the
  consequence for the repository's own.
- A grace timer can be missing for a dangling task in exactly two ways (`CoveredStep`, `RunCovered`):
  a message itself sets the state "dangling" for a task whose owner has no timer (`LiteralStrays`, a
  single ack under the repository's own table), or a report heals one task, which cancels the whole
  agent's timer, and is silent about another dangling task (`HealingForgetsATask`, possible only with
  a table that allows healing).
- A report entry with a finished status and no "id" member makes
  `simple_a2a_registry/registry_handler.py:796` raise, so no reply is sent and the connection loop
  ends (`ReplyLost`); `SyncReplyExact` says that the reply is missing exactly for these reports.
- Agent messages choose the stored state. A task that one of them sets to "dangling" can be failed by
  a grace timer that started before it (`LiteralDanglingFailsEarly`). `GraceNotEarly` is exact: a task
  failed at the end of a grace period has been dangling and unreported for that long exactly when no
  message has itself set its present "dangling".
- Retry-After, truncated to whole seconds, is long enough for every history exactly when the rate
  is at least 2, from either bucket (`RetryWorksExactly`, `TableRetryWorksExactly`).
- With positive rates and bursts the two buckets answer alike exactly when the first request on each
  key fits its burst (`SameAnswers`): the table stores a negative level for a larger one. A rate or
  burst of 0 means "as stored" to the table only (`ZeroDiffers`): there the table answers as the
  memory bucket would with the stored value in its place (`TableAnswers`).
- A log row refers to its subscription. When a subscription of a snapshot is deleted before its round
  is over, be it during the round or before the round began, the next answer for it makes the insert
  of the row raise, which ends the whole delivery: the remaining subscribers of the event get no post.
  This is the only way in which a delivery ends early (`ThrownExactly`, `DeletionStopsDelivery`).
- An endpoint that accepts nothing gets at most 40 posts per enable when events are delivered one
  after the other (`AtMostFortyPosts`), and at most four more for each further delivery that may
  overlap (`OverlappingPosts`).
- A card survives the trip through its dict exactly when no required attribute is None, every
  security scheme populates only the member of its type and OAuth flows that are present are not
  all empty (`CardRoundTrip`).
- The JWKS encoding of 0 is the empty text instead of one zero octet (`ZeroIsEmpty`).
- The docstring of `list_agents` (`simple_a2a_registry/store.py:601-604`) says that an empty tenant
  sees all agents; the code (lines 619-623) shows it only those without a tenant. The model follows
  the code; the duplicate check itself passes None.
- A body with a null tenant, without a tenant in token or interfaces, passes the duplicate check and
  is then refused by the table, whose tenant column is NOT NULL (`DatabaseErrorExactly`).
- The duplicate check refuses exactly the names that could not be stored, whatever the table holds, if
  and only if the request names a tenant or the agent gets none at all (`CheckExactly`). For a tenant
  that comes from an interface only it also refuses names that are taken elsewhere (`RefusesMore`).
- Terminal states are not absorbing. A late ack, progress or result message with an unfinished state,
  a report with such a last status, and the end of a dispatch reopen a finished task, and nothing else
  does (`ReopensExactly`, `StaysFinished`, `LateAckReopens`).

## Model

| member | source | states |
|---|---|---|
| TaskBoard.RepositoryTableNeverDangles | simple_a2a_registry/orchestration/state_machine.py:21-50 | a board without dangling tasks stays so under every status update that the repository's table admits or refuses |
| TaskBoard.RepositorySuccessors | simple_a2a_registry/orchestration/state_machine.py:21-54 | the statuses each status may change to; archived and dangling lead nowhere |
| TaskBoard.RepositoryRefusesDangling | simple_a2a_registry/server.py:799-812 | with the repository's table the board update of a disconnect is refused for every task and changes nothing |
| StateSync.BoardViewExact | simple_a2a_registry/registry_handler.py:636-653 | the board's view lists, once each, exactly the tasks dispatched to this agent that the store knows and can read |
| StateSync.RestoreExact | simple_a2a_registry/registry_handler.py:655-673 | memory gains exactly the unfinished tasks of the view that it had lost, owned by the agent with the board's status; nothing else changes |
| StateSync.MergeExact | simple_a2a_registry/registry_handler.py:692-713 | for any report with duplicates in any order: an id is known afterwards exactly when it was before or some entry creates it, owners and results stay, and the state is the last one reported |
| StateSync.HealExact | simple_a2a_registry/registry_handler.py:715-738 | the healing writes change exactly the readable dangling board tasks that some entry claims to be active, and the healed count is positive exactly when there is one and the table lets it go to running |
| StateSync.MergeTwice | simple_a2a_registry/registry_handler.py:692-713 | merging the same report again changes nothing, the order of the dictionary included |
| StateSync.HealTwice | simple_a2a_registry/registry_handler.py:715-734 | healing again changes nothing and counts nothing |
| StateSync.MemoryReplyExact | simple_a2a_registry/registry_handler.py:751-764 | the first half of the reply holds exactly the unreported finished records of the agent, with their result and error, without duplicate ids |
| StateSync.BoardReplyExact | simple_a2a_registry/registry_handler.py:768-780 | the second half holds exactly the finished tasks of the view that are neither reported nor already in the reply, without duplicate ids |
| StateSync.LogRaisesExact | simple_a2a_registry/registry_handler.py:786-797 | the final log loop raises exactly when the report has a finished entry without an id, whatever memory holds |
| StateSync.SyncMemoryExact | simple_a2a_registry/registry_handler.py:636-713 | memory after the whole merge, id by id: old records and every readable unfinished task dispatched to the agent have a record, and each reported one carries the last status reported for it |
| StateSync.ReplyLost | simple_a2a_registry/registry_handler.py:786-797 | a report with a single finished entry without an id loses its reply |
| StateSync.SyncReplyExact | simple_a2a_registry/registry_handler.py:747-803 | the reply is missing exactly when the final log loop raises; else it has no duplicate ids, no reported id, and holds exactly the agent's finished tasks in memory and on the board, memory winning |
| StateSync.SyncIdempotent | simple_a2a_registry/registry_handler.py:627-803 | the same report again gives the same memory, board and reply and heals nothing more, duplicates included |
| TaskLifecycle.SyncTwice | simple_a2a_registry/registry_handler.py:636-738 | receiving a report twice leaves the whole state, grace timers included, as after the first time |
| TaskLifecycle.StepKeeps | simple_a2a_registry/server.py:756-1003 | every event keeps the invariant (exactly the live timers are stored, each under its own key, so there is at most one per task and per agent), never revives a timer or moves its start, and keeps every record with its owner |
| TaskLifecycle.DangleKeeps | simple_a2a_registry/server.py:756-828 | the same for a disconnect |
| TaskLifecycle.GraceKeeps | simple_a2a_registry/server.py:844-887 | the same for the end of a grace period |
| TaskLifecycle.TimeoutKeeps | simple_a2a_registry/server.py:918-972 | the same for a timeout up to its send |
| TaskLifecycle.TimeoutEndKeeps | simple_a2a_registry/server.py:957-972 | the same for the rest of a timeout, whose pop removes its own entry |
| TaskLifecycle.AckKeeps | simple_a2a_registry/registry_handler.py:259-296 | the same for an acknowledgement |
| TaskLifecycle.ProgressKeeps | simple_a2a_registry/registry_handler.py:314-344 | the same for a progress message |
| TaskLifecycle.StoreKeeps | simple_a2a_registry/registry_handler.py:376-415 | the same for the result messages and callbacks, which store a record, reconcile the board and stop the timer |
| TaskLifecycle.SyncKeeps | simple_a2a_registry/registry_handler.py:636-738 | the same for a reconnect report |
| TaskLifecycle.RequestKeeps | simple_a2a_registry/server.py:1061-1181 | the same for the two halves of a dispatch and of a callback and for the board's own writes |
| LifecycleRuns.RunInv | simple_a2a_registry/server.py:756-1003 | the invariant holds in every reachable state of every interleaving |
| LifecycleRuns.RecordsPersist | simple_a2a_registry/registry_handler.py:264-282 | over every run no task record disappears or changes owner |
| LifecycleRuns.TerminalUntouched | simple_a2a_registry/server.py:772-782 | the disconnect, grace and timeout steps leave a completed, failed or cancelled record exactly as it is |
| LifecycleRuns.ReopensExactly | simple_a2a_registry/registry_handler.py:264-268 | for every event, a finished task is still finished afterwards exactly when the event is not one of those that reopen it: an ack, progress or result with an unfinished state, a report with such a last status, or the end of its dispatch |
| LifecycleRuns.StaysFinished | simple_a2a_registry/registry_handler.py:318-321 | over every run a finished task stays finished exactly as long as no such event happens |
| LifecycleRuns.FinishingTimer | simple_a2a_registry/server.py:972-1003 | in every reachable state a timer that fires or finishes is the only live one of its key and the one stored under it, so its pop never removes another timer's entry |
| LifecycleRuns.TimerAfterSign | simple_a2a_registry/server.py:904-905 | after an ack or progress message every live timer of the task started no earlier than it |
| LifecycleRuns.TimeoutNotEarly | simple_a2a_registry/server.py:893-936 | a timeout fails only its own task, with error "timeout", and at least the timeout after every ack and progress message for it |
| LifecycleRuns.TimeoutBoardWrite | simple_a2a_registry/server.py:938-972 | the board write after the cancel message runs only if the same timer failed the task and no ack, progress, complete, fail or result for it has arrived since |
| LifecycleRuns.SendingStep | simple_a2a_registry/registry_handler.py:413-415 | one step: a timer still sending was sending before and no message concerned its task, or it has just failed the task |
| LifecycleRuns.DanglingStep | simple_a2a_registry/server.py:772-782 | one step: a task is dangling because it was and its agent stayed silent about it, or because its owner has just disconnected |
| LifecycleRuns.GraceAfterDangle | simple_a2a_registry/server.py:814-824 | after a disconnect that dangles something, every live grace timer of that agent started no earlier: a fresh dangle restarts the timer |
| LifecycleRuns.DanglingExactly | simple_a2a_registry/server.py:772-782 | in every run, a dangling task got there by a disconnect of its owner, without interruption or any message or status report about it since, exactly when no message has itself set its present "dangling" |
| LifecycleRuns.GraceNotEarly | simple_a2a_registry/server.py:830-887 | in every run, the end of a grace period changes only dangling tasks of its agent and fails them; such a task has been dangling without interruption and without any message or status report about it for at least the grace period exactly when no message has itself set its present "dangling" |
| LifecycleRuns.StepLinks | simple_a2a_registry/server.py:756-1003 | what each step contributes to the history of a run: fresh timers after signs of life and disconnects, and the causes of sending and dangling |
| LifecycleRuns.GraceTimersStay | simple_a2a_registry/registry_handler.py:736-738 | a stored grace timer leaves its entry only by firing or by a healing report |
| LifecycleRuns.SyncDangles | simple_a2a_registry/registry_handler.py:692-713 | after a report a task dangles exactly when its last reported status says so, or it did before and the report is silent about it |
| LifecycleRuns.CoveredStep | simple_a2a_registry/server.py:814-824 | from a state where every dangling task has a live grace timer, a step keeps that exactly when it neither makes a task dangle by itself while the owner has no timer, nor heals one task while silent about another dangling one of the agent |
| LifecycleRuns.RunCovered | simple_a2a_registry/server.py:814-824 | over every run, each dangling task has at all times a stored, live grace timer exactly when no step does one of these two things |
| LifecycleRuns.RepositoryNeverHeals | simple_a2a_registry/orchestration/state_machine.py:21-50 | with the repository's table, in every run the board never shows "dangling" and no report heals a task, and every dangling task keeps its timer exactly when no message itself makes a task of an agent without a timer dangle |
| LifecycleEffects.NoIdEffect | simple_a2a_registry/registry_handler.py:259-262 | a message without an id changes nothing |
| LifecycleEffects.AckEffect | simple_a2a_registry/registry_handler.py:259-296 | an ack stores its status, "accepted" when missing, and keeps owner, result and error of a known task; the board may go to running, the task timer starts over, and nothing else changes |
| LifecycleEffects.ProgressEffect | simple_a2a_registry/registry_handler.py:314-344 | the same with "working", and the board stays as it is |
| LifecycleEffects.CompleteEffect | simple_a2a_registry/registry_handler.py:376-415 | a complete message leaves the owner, state "completed", the sent result ("{}" when missing, none when null) and no error; a dispatched board task gets "completed" and a non-empty result where the table admits it; no timer of the task is left |
| LifecycleEffects.FailEffect | simple_a2a_registry/registry_handler.py:433-475 | a fail message leaves the owner and result, state "failed" and the sent error ("Unknown error" when missing), tells the board, and leaves no timer |
| LifecycleEffects.ResultEffect | simple_a2a_registry/registry_handler.py:491-528 | a legacy result leaves the sent status ("completed" when missing), result and error, tells the board what its status stands for, and leaves no timer |
| LifecycleEffects.SyncRecords | simple_a2a_registry/registry_handler.py:636-713 | a report leaves in memory, id by id, exactly what the merge says |
| LifecycleEffects.SyncBoard | simple_a2a_registry/registry_handler.py:715-738 | a report puts exactly the dangling tasks it claims to be active back to running, where the table admits it, then drops the agent's grace timer, and touches no other row or timer |
| LifecycleEffects.DangleEffect | simple_a2a_registry/server.py:756-828 | a disconnect makes every unfinished task of the agent dangle, in memory and on the board, stops its timer, starts a fresh grace timer if there is one, and changes nothing else |
| LifecycleEffects.GraceEffect | simple_a2a_registry/server.py:844-887 | the end of a grace period fails every dangling task of the agent, in memory and on the board, drops its timer, and changes nothing else |
| LifecycleEffects.TimeoutEffect | simple_a2a_registry/server.py:918-972 | a timeout fails its task, connected or not, unless it is unknown or finished; the board write follows at once without a connection; a worker that does not send leaves no timer |
| LifecycleEffects.TimeoutSentEffect | simple_a2a_registry/server.py:957-972 | after the cancel message the board is told "failed", memory stays, and no timer of the task is left |
| LifecycleEffects.DispatchEffect | simple_a2a_registry/server.py:1057-1074 | a dispatch stores a "dispatched" record for its agent and nothing else |
| LifecycleEffects.ForwardEffect | simple_a2a_registry/server.py:1157-1181 | the end of a send sets "forwarded" whatever the state was and starts the timer |
| LifecycleEffects.RefuseEffect | simple_a2a_registry/server.py:1163-1168 | a failed send fails the task with its error |
| LifecycleEffects.CheckEffect | simple_a2a_registry/server.py:1213-1221 | a callback is let through exactly for a known unfinished task |
| LifecycleEffects.CallbackEffect | simple_a2a_registry/server.py:1244-1279 | a callback with an error, or reporting failure, fails the task, any other completes it with its result; the board is told and no timer is left |
| LifecycleEffects.DueExactly | simple_a2a_registry/server.py:838-842 | a sleeping timer fires exactly when its delay has passed since it was started |
| LifecycleEffects.TimeoutExactly | simple_a2a_registry/server.py:918-936 | over every run a timeout changes a record exactly when it is that of its task and not finished, connected or not, and then to "failed" with "timeout" |
| LifecycleEffects.RunStill | simple_a2a_registry/registry_handler.py:264-282 | over every run a finished record stays exactly as it is until an event concerns its task |
| LifecycleEffects.FinishedIsReported | simple_a2a_registry/registry_handler.py:747-764 | over every run a finished record that nothing has concerned since is what the reply to a later silent report of its owner says about the task |
| LifecycleEffects.CompletedIsReported | simple_a2a_registry/registry_handler.py:747-803 | so a completed task is reported as completed with the output that was sent |
| LifecycleLimits.LiteralDanglingFailsEarly | simple_a2a_registry/registry_handler.py:264-282 | a run in which a task reported with the literal status "dangling" at 20 is failed at 30 by a grace timer of 30 seconds |
| LifecycleLimits.LateAckReopens | simple_a2a_registry/registry_handler.py:264-268 | a run in which a late ack turns a completed task back to accepted |
| LifecycleLimits.LiteralStrays | simple_a2a_registry/registry_handler.py:270-282 | under the repository's table, one ack on an empty registry leaves a task dangling with no grace timer |
| LifecycleLimits.HealingForgetsATask | simple_a2a_registry/registry_handler.py:736-738 | a run, under a table that allows healing, after which a task dangles with no timer to fail it |
| RegistryHandlers.RegistryHandler.constructor | simple_a2a_registry/server.py:200-207 | a new handler has no records and no timers |
| RegistryHandlers.RegistryHandler.CancelTaskTimeout | simple_a2a_registry/server.py:979-984 | drops the stored timer of a task and cancels it if alive; nothing else changes |
| RegistryHandlers.RegistryHandler.CancelDanglingTimer | simple_a2a_registry/server.py:986-995 | the same for the grace timer of an agent |
| RegistryHandlers.RegistryHandler.ScheduleTaskTimeout | simple_a2a_registry/server.py:893-910 | cancels the old timer and starts a new one, but none for an unknown task |
| RegistryHandlers.RegistryHandler.HandleTaskAck | simple_a2a_registry/registry_handler.py:247-296 | takes the ack step and keeps the invariant |
| RegistryHandlers.RegistryHandler.HandleTaskProgress | simple_a2a_registry/registry_handler.py:302-344 | takes the progress step and keeps the invariant |
| RegistryHandlers.RegistryHandler.HandleTaskComplete | simple_a2a_registry/registry_handler.py:362-415 | takes the complete step and keeps the invariant |
| RegistryHandlers.RegistryHandler.HandleTaskFail | simple_a2a_registry/registry_handler.py:421-475 | takes the fail step and keeps the invariant |
| RegistryHandlers.RegistryHandler.HandleTaskResult | simple_a2a_registry/registry_handler.py:481-528 | takes the legacy result step and keeps the invariant |
| RegistryHandlers.RegistryHandler.MarkDangling | simple_a2a_registry/server.py:769-790 | marks exactly the agent's unfinished, not yet dangling tasks and stops exactly their timers |
| RegistryHandlers.RegistryHandler.UpdateBoard | simple_a2a_registry/server.py:796-812 | writes a status for exactly the listed tasks that were dispatched from the board, where the table admits it |
| RegistryHandlers.RegistryHandler.RestartGraceTimer | simple_a2a_registry/server.py:814-824 | cancels the agent's grace timer and stores a new one |
| RegistryHandlers.RegistryHandler.DangleTasks | simple_a2a_registry/server.py:769-812 | marks exactly the agent's unfinished tasks in memory and on the board and stops their timers |
| RegistryHandlers.RegistryHandler.DangleAgentTasks | simple_a2a_registry/server.py:756-828 | the loops together take the disconnect step, which is given by the set of tasks it concerns |
| RegistryHandlers.RegistryHandler.FailDangling | simple_a2a_registry/server.py:844-862 | fails exactly the agent's dangling tasks |
| RegistryHandlers.RegistryHandler.DangleTimeout | simple_a2a_registry/server.py:844-887 | takes the grace step of its timer and keeps the invariant |
| RegistryHandlers.RegistryHandler.TimeoutWorker | simple_a2a_registry/server.py:918-956 | takes the timeout step: nothing but its own entry for a finished or unknown task, else the record fails and the worker sends or finishes |
| RegistryHandlers.RegistryHandler.FinishTimeout | simple_a2a_registry/server.py:957-972 | the board write of a dispatched task and the worker's own entry |
| RegistryHandlers.RegistryHandler.QueryBoard | simple_a2a_registry/registry_handler.py:636-653 | computes the board's view of the agent |
| RegistryHandlers.RegistryHandler.RestoreTasks | simple_a2a_registry/registry_handler.py:655-673 | restores the lost records of the view |
| RegistryHandlers.RegistryHandler.MergeReport | simple_a2a_registry/registry_handler.py:691-734 | one loop merges memory, heals the board and counts |
| RegistryHandlers.RegistryHandler.FindOrphans | simple_a2a_registry/registry_handler.py:747-780 | two loops with a set of ids already seen build the reply |
| RegistryHandlers.RegistryHandler.LogUnknown | simple_a2a_registry/registry_handler.py:786-797 | the log loop, and whether it raises |
| RegistryHandlers.RegistryHandler.ApplyReport | simple_a2a_registry/registry_handler.py:636-780 | changes memory, board and grace timer as the merge step says and collects its reply |
| RegistryHandlers.RegistryHandler.HandleStateSync | simple_a2a_registry/registry_handler.py:627-803 | takes the whole merge step in place and returns its reply, which the lemmas on the merge describe |
| RegistryHandlers.RegistryHandler.BeginDispatch | simple_a2a_registry/server.py:1057-1074 | records a dispatched task under its new id |
| RegistryHandlers.RegistryHandler.DispatchForwarded | simple_a2a_registry/server.py:1157-1181 | after the send the state is overwritten with "forwarded", whatever it was, and the timeout starts |
| RegistryHandlers.RegistryHandler.DispatchRefused | simple_a2a_registry/server.py:1163-1168 | after a failed send the task is failed |
| RegistryHandlers.RegistryHandler.CheckCallback | simple_a2a_registry/server.py:1213-1221 | a callback goes on exactly for a known task that is not finished |
| RegistryHandlers.RegistryHandler.CallbackResult | simple_a2a_registry/server.py:1244-1279 | writes the outcome, stops the timer and reconciles the board, whatever happened since the check |
| Connections.StepKeeps | simple_a2a_registry/server.py:663-672 | every step keeps each connection entry with an installed, not yet cleaned up handler of that agent |
| Connections.InstalledHistory | simple_a2a_registry/server.py:722-727 | an installed handler has run its installation at some step and has not run its cleanup since |
| Connections.EntriesAlive | simple_a2a_registry/server.py:663-727 | in every interleaving each entry names a handler of that agent that has installed itself and has not cleaned up since |
| Connections.CleanupSparesSuccessors | simple_a2a_registry/server.py:722-727 | a cleanup leaves every entry that names another handler, so never removes its successor's, and leaves none of its own |
| Connections.ClosedExact | simple_a2a_registry/server.py:722-726 | a socket is closed exactly when its peer or its handler's cleanup has closed it |
| Connections.HandlerAgent | simple_a2a_registry/server.py:663-664 | a handler serves exactly the agent it took over for |
| Connections.EntriesExact | simple_a2a_registry/server.py:663-727 | in every interleaving an agent has the entry for a socket exactly when a handler of it has installed that socket and since then there was no take-over, other installation or unregistration of the agent, no cleanup by the handler, and no sweep that found the socket closed |
| Connections.ConnectionTable.BeginConnection | simple_a2a_registry/server.py:663-671 | takes the old entry out and says whether an open socket is being replaced |
| Connections.ConnectionTable.FinishConnection | simple_a2a_registry/server.py:672 | installs the handler's own socket |
| Connections.ConnectionTable.EndConnection | simple_a2a_registry/server.py:722-727 | removes the entry only if it is the handler's own, and closes the socket |
| Connections.ConnectionTable.SweepClosed | simple_a2a_registry/server.py:1744-1751 | removes exactly the entries whose socket is closed |
| TokenBuckets.LevelInRange | simple_a2a_registry/rate_limiter.py:71-92 | after every run of calls, a key has a bucket exactly when it was called, refilled at its latest call, with a level between 0 and the burst of that call |
| TokenBuckets.WindowPotential | simple_a2a_registry/rate_limiter.py:71-92 | what a window has admitted plus the level left never exceeds the burst plus the refill since it opened |
| TokenBuckets.WindowBound | simple_a2a_registry/rate_limiter.py:67-98 | for any run with rates at most R and bursts at most B on a key, changing per call, the tokens admitted in any window [s, t] are at most B + R(t-s)/60 |
| TokenBuckets.TablePotential | simple_a2a_registry/rate_limiter.py:153-196 | the same balance for the table, whose level is negative only while nothing has been admitted |
| TokenBuckets.TableWindowBound | simple_a2a_registry/rate_limiter.py:145-206 | the window bound holds for the table bucket, too, with oversized first requests and rates or bursts of 0 |
| TokenBuckets.FoundExact | simple_a2a_registry/rate_limiter.py:75-83 | a call finds the level refilled at its rate for the time since the last call, up to its burst, and a new key full |
| TokenBuckets.CallExact | simple_a2a_registry/rate_limiter.py:86-98 | it is allowed exactly when its tokens are there, takes them exactly then, and reports the whole tokens left |
| TokenBuckets.FullExactly | simple_a2a_registry/rate_limiter.py:94-96 | the reset time is exactly the moment from which on the untouched bucket is full |
| TokenBuckets.RetryAfterExact | simple_a2a_registry/rate_limiter.py:342 | the header is the time until the reset in whole seconds, and at least 1 |
| TokenBuckets.RetryWithinMinute | simple_a2a_registry/rate_limiter.py:332-343 | a rejected single-token request waits at least 1 and at most 60 seconds, the time a whole bucket takes |
| TokenBuckets.RetryAdmitted | simple_a2a_registry/rate_limiter.py:332-343 | for a rate of at least 2 a rejected client that waits its Retry-After and retries at that rate is admitted if nothing else used its bucket |
| TokenBuckets.RateOneFails | simple_a2a_registry/rate_limiter.py:332-343 | at rate 1 there is a client for which the promise fails |
| TokenBuckets.RateZeroFails | simple_a2a_registry/rate_limiter.py:332-343 | likewise at rate 0 |
| TokenBuckets.RetryWorksExactly | simple_a2a_registry/rate_limiter.py:332-343 | waiting for Retry-After is enough for every history exactly when the rate is at least 2 |
| TokenBuckets.TableRateOneFails | simple_a2a_registry/rate_limiter.py:332-343 | the same client fails against the table at rate 1 |
| TokenBuckets.TableRateZeroFails | simple_a2a_registry/rate_limiter.py:332-343 | and at rate 0 |
| TokenBuckets.TableRetryWorksExactly | simple_a2a_registry/rate_limiter.py:332-343 | with the table, too, waiting for Retry-After is enough for every history exactly when the rate is at least 2 |
| TokenBuckets.Simulation | simple_a2a_registry/rate_limiter.py:145-206 | over every serial run in which the first call on each key fits its burst, the table holds the keys, levels and refill times of the memory bucket after the same run with every rate or burst of 0 replaced by the stored one |
| TokenBuckets.TableAnswers | simple_a2a_registry/rate_limiter.py:174-201 | and gives at every call the answer the memory bucket gives in that run |
| TokenBuckets.RowExact | simple_a2a_registry/rate_limiter.py:153-201 | the level the table finds, whether it allows, what it stores and the whole tokens left, for new and known keys |
| TokenBuckets.RowFullExactly | simple_a2a_registry/rate_limiter.py:170-171 | its reset time is exactly the moment from which on the stored level, refilled, reaches the burst |
| TokenBuckets.TableRetryWithinMinute | simple_a2a_registry/rate_limiter.py:332-343 | the wait is at most 60 seconds from the table, too, unless its level is negative |
| TokenBuckets.SameAnswers | simple_a2a_registry/rate_limiter.py:145-206 | over every serial run of positive rates and bursts, both buckets give the same verdict, remaining count and reset time at every call exactly when the first call on each key fits its burst |
| TokenBuckets.ZeroDiffers | simple_a2a_registry/rate_limiter.py:178-179 | a rate of 0, and a burst of 0, for which they differ on a known key |
| TokenBuckets.NewKeyAgreement | simple_a2a_registry/rate_limiter.py:159-172 | on a new key the two agree exactly when the tokens fit the burst |
| TokenBuckets.MemoryTokenBucket.Consume | simple_a2a_registry/rate_limiter.py:67-98 | updates the dictionaries of one key only and answers as the bucket function that the lemmas are about |
| TokenBuckets.MySQLTokenBucket.Consume | simple_a2a_registry/rate_limiter.py:145-206 | updates one row only and answers as the row function of the simulation |
| TokenBuckets.RateLimitMiddleware.Admit | simple_a2a_registry/rate_limiter.py:323-343 | asks the bucket, in memory or in the table, for one token at the rate of caller and path, and on rejection returns the Retry-After of the lemmas |
| Webhooks.Attempts | simple_a2a_registry/webhook_store.py:580-652 | a round makes between 1 and 4 attempts, none accepted before the last, and stops early only on success |
| Webhooks.DeliveredExactly | simple_a2a_registry/webhook_store.py:584-662 | a round succeeds exactly when some of the four answers is accepted, fails only after four attempts, and sleeps at most 14 seconds |
| Webhooks.RoundRowsExact | simple_a2a_registry/webhook_store.py:595-637 | the log rows of a round are numbered 1, 2, ... and all failed except for the last one of a delivered round |
| Webhooks.SelectedExact | simple_a2a_registry/webhook_store.py:340-366 | an event goes, once each, to exactly those returned rows that are enabled subscriptions of its tenant listing its type |
| Webhooks.SelectedInOrder | simple_a2a_registry/webhook_store.py:361-366 | in the order of the query |
| Webhooks.SelectedAll | simple_a2a_registry/webhook_store.py:349-366 | when the query returns every row, these are exactly the matching subscriptions of the store |
| Webhooks.RoundsOn | simple_a2a_registry/webhook_store.py:535-538 | a serial delivery changes a subscription only by its own round |
| Webhooks.PostsPerFailure | simple_a2a_registry/webhook_store.py:518-546 | in every serial run against an endpoint that accepts nothing, the posts since the last enable are four per counted failure |
| Webhooks.AtMostFortyPosts | simple_a2a_registry/webhook_store.py:518-546 | such an endpoint receives at most 40 posts per enable |
| WebhookRuns.RoundExact | simple_a2a_registry/webhook_store.py:580-662 | in every interleaving of deliveries and subscription changes, each round of each delivery gets at most four answers, none accepted before the last, ends exactly with its first accepted or its fourth one, with that status, and sleeps at most 14 seconds |
| WebhookRuns.LogExact | simple_a2a_registry/webhook_store.py:372-414 | in every interleaving the log holds for each round exactly the rows 1, 2, ... of the answers it got, less those that a deletion of its subscription removed |
| WebhookRuns.EndedRoundRows | simple_a2a_registry/webhook_store.py:595-637 | in every interleaving an ended round whose subscription was not deleted has left rows 1..k, k at most 4, all failed except possibly the last, which has the status of the round; a failed round has all four |
| WebhookRuns.ThrownExactly | simple_a2a_registry/webhook_store.py:628-637 | in every interleaving a delivery ends early exactly when a post of it was answered after the subscription of that post had been deleted |
| WebhookRuns.CounterExact | simple_a2a_registry/webhook_store.py:664-707 | in every reachable state, however rounds overlap, the counter is the number of rounds ended in failure since the last success, enable or creation, and an enabled subscription has fewer than 10 |
| WebhookRuns.EnabledExact | simple_a2a_registry/webhook_store.py:309-338 | in every interleaving a subscription is enabled exactly when, since its latest enable or creation, it was not disabled and its failed rounds did not reach ten |
| WebhookRuns.SnapshotExact | simple_a2a_registry/webhook_store.py:530-533 | a new delivery works through exactly the returned subscriptions that are enabled, in the tenant and listen to the event, once each |
| WebhookRuns.DisabledNotSelected | simple_a2a_registry/webhook_store.py:309-366 | no delivery begun after a disable and before the next enable or creation has the subscription in its snapshot |
| WebhookRuns.SubscriptionExact | simple_a2a_registry/webhook_store.py:219-307 | a subscription exists exactly from creation to deletion, keeps the url, events, tenant and time of its creation, and its retry count is the number of all its failed rounds |
| WebhookRuns.OperateSerial | simple_a2a_registry/webhook_store.py:289-338 | a subscription change amid deliveries has its serial effect on subscriptions and log |
| WebhookRuns.SerialRound | simple_a2a_registry/webhook_store.py:548-662 | a round with nothing in between has exactly the effect of the serial round |
| WebhookRuns.SerialDelivery | simple_a2a_registry/webhook_store.py:518-546 | so has a whole delivery |
| WebhookRuns.DeletionStopsDelivery | simple_a2a_registry/webhook_store.py:628-637 | a run in which deleting a subscription of the snapshot leaves the next subscriber without a post |
| WebhookOverlap.RunTallied | simple_a2a_registry/webhook_store.py:664-707 | in every interleaving, against an endpoint that accepts nothing, the rounds over since the last enable have been counted, and counted failures plus waiting deliveries stay below ten plus the overlap |
| WebhookOverlap.OverlappingPosts | simple_a2a_registry/webhook_store.py:518-546 | when at most w deliveries wait for a subscription at once, such an endpoint receives at most 4(9 + w) posts per enable |
| Webhooks.WebhookStore.CreateSubscription | simple_a2a_registry/webhook_store.py:219-263 | a new subscription is enabled with no failures |
| Webhooks.WebhookStore.DeleteSubscription | simple_a2a_registry/webhook_store.py:289-307 | removes the subscription and exactly its log rows, and says whether it existed |
| Webhooks.WebhookStore.EnableSubscription | simple_a2a_registry/webhook_store.py:324-338 | enables it and resets the counter |
| Webhooks.WebhookStore.DisableSubscription | simple_a2a_registry/webhook_store.py:309-322 | disables it and keeps the counter |
| Webhooks.WebhookStore.SubscriptionsForEvent | simple_a2a_registry/webhook_store.py:340-366 | returns the matching ones in the order of the query |
| Webhooks.WebhookStore.LogDelivery | simple_a2a_registry/webhook_store.py:372-414 | appends one row, or raises for an unknown subscription |
| Webhooks.WebhookStore.UpdateConsecutiveFailures | simple_a2a_registry/webhook_store.py:664-707 | resets or counts, disabling at 10; an unknown subscription is ignored |
| Webhooks.WebhookDeliveryEngine.DeliverToSubscription | simple_a2a_registry/webhook_store.py:548-662 | the retry loop with nothing else at work: appends rows 1..k with k at most 4, all failed except possibly the last, keeps the log before them, counts the outcome once and sleeps at most 14 seconds; a disabled snapshot does nothing, and one that is gone from the store raises |
| Webhooks.WebhookDeliveryEngine.DeliverAll | simple_a2a_registry/webhook_store.py:535-538 | one round per subscription of the snapshot, in order, with their outcomes |
| Webhooks.WebhookDeliveryEngine.DeliverEvent | simple_a2a_registry/webhook_store.py:518-546 | every matching subscription gets its round, with nothing else at work |
| AgentNames.RegisterKeeps | simple_a2a_registry/server.py:350-374 | a registration, accepted or refused, keeps agents of one folded name in different non-empty tenants |
| AgentNames.StepKeeps | simple_a2a_registry/store.py:719-824 | so does every unregistration, heartbeat, toggle and purge |
| AgentNames.NamesStayApart | simple_a2a_registry/server.py:350-374 | in every run from an empty store, distinct agents with the same trimmed, case-folded name have different, non-empty tenants, also when the tenant comes from an interface |
| AgentNames.CheckExact | simple_a2a_registry/store.py:612-626 | when the request names a tenant, or the agent gets none, a name is refused exactly when storing it would break that |
| AgentNames.RefusesMore | simple_a2a_registry/server.py:366-372 | for every registration whose tenant comes from an interface only there is a table for which its name is refused although storing it would break nothing |
| AgentNames.CheckExactly | simple_a2a_registry/server.py:366-372 | the check is exact for all tables if and only if the request names a tenant or the agent gets none |
| AgentNames.DatabaseErrorExactly | simple_a2a_registry/store.py:736-759 | the table refuses a registration that passes every check exactly when the token names no tenant, the body's tenant is null and no interface has one |
| AgentNames.NullTenantRefused | simple_a2a_registry/store.py:736-759 | the smallest such registration |
| AgentNames.AnswerExact | simple_a2a_registry/server.py:350-372 | the answers in the order of the checks, the duplicate one spelled out by tenant and folded name |
| AgentNames.RegisterExact | simple_a2a_registry/store.py:729-761 | an accepted registration stores name, time and the tenant of token, else body, else first interface that has one, else none; a refused one changes nothing |
| AgentNames.UpdateExact | simple_a2a_registry/store.py:763-824 | unregistering, heartbeat, toggle and purge change exactly what they should of exactly the agents in reach |
| AgentNames.Registry.ListAgents | simple_a2a_registry/store.py:588-662 | lists exactly what the asymmetric tenant rule lets the filter see |
| AgentNames.Registry.RegisterAgent | simple_a2a_registry/store.py:719-761 | stores the request's tenant, else the body's, else the first one of an interface; a null tenant is refused |
| AgentNames.Registry.HandleRegister | simple_a2a_registry/server.py:350-374 | answers as specified, inserts exactly when it says registered, and keeps names apart |
| AgentNames.Registry.PurgeStale | simple_a2a_registry/store.py:808-824 | removes exactly the agents whose positive heartbeat is too old and counts them |
| AgentNames.Registry.Unregister | simple_a2a_registry/store.py:787-806 | removes the agent exactly when it exists within reach of the tenant |
| Base64Url.DecodeEncode | simple_a2a_registry/auth.py:200 | decoding inverts base64url encoding for every octet string |
| Base64Url.AlphabetExact | simple_a2a_registry/auth.py:200 | the characters are letters, digits, minus and underline in the order of the standard |
| Base64Url.GroupExact | simple_a2a_registry/auth.py:200 | the four characters of a full group stand for the 24 bits of its octets |
| Base64Url.PairExact | simple_a2a_registry/auth.py:200 | two last octets give three characters and one padding |
| Base64Url.SingleExact | simple_a2a_registry/auth.py:200 | one last octet gives two characters and two paddings |
| Base64Url.DecodesExactly | simple_a2a_registry/auth.py:242 | exactly the padded texts over the alphabet decode |
| Base64Url.EncodePadded | simple_a2a_registry/auth.py:200 | an encoding is text over the alphabet followed by at most two padding characters, up to a multiple of four |
| Base64Url.PaddingRestored | simple_a2a_registry/auth.py:238-242 | restoring the padding inverts removing it |
| Base64Url.SegmentRoundTrip | simple_a2a_registry/auth.py:198-242 | a segment reads back as its octets and contains only characters of the alphabet, hence no '.' and no '=' |
| Base64Url.SegmentInjective | simple_a2a_registry/auth.py:198-200 | different octets have different segments |
| Jwt.SplitToken | simple_a2a_registry/auth.py:232-235 | splitting a token at its dots recovers its three segments |
| Jwt.JoinSplit | simple_a2a_registry/auth.py:232 | splitting loses nothing of any text |
| Jwt.VerifyReceived | simple_a2a_registry/auth.py:219-290 | for every payload, verifying what the signer assembled returns exactly what the payload's JSON text reads as, if issuer and audience match and it is not past exp, and nothing otherwise |
| Jwt.VerifySigned | simple_a2a_registry/auth.py:219-290 | so it returns exactly the signed payload under these checks, and nothing otherwise, for every payload that its JSON text preserves |
| Jwt.SignedParts | simple_a2a_registry/auth.py:195-216 | a token has three segments: the RS256 header, the payload and the signature over both |
| Jwt.AcceptedExactly | simple_a2a_registry/auth.py:252-271 | the checks spelled out: issuer, expiry of each JSON type, audience as text or list |
| Jwt.SignInjective | simple_a2a_registry/auth.py:185-216 | different payloads that JSON text preserves never share a token |
| Jwt.CodecExists | simple_a2a_registry/auth.py:195-216 | the assumptions of these lemmas can be met: for any two payloads there is a codec that preserves header and both payloads and verifies what it signs |
| Jwt.VerifiedIsSigned | simple_a2a_registry/auth.py:231-282 | whatever token is accepted, its signature covers its first two segments, the second of which holds the returned payload, and that payload passes every check |
| Jwt.SignedIsVerified | simple_a2a_registry/auth.py:231-282 | the other half: every token with the RS256 header, a payload that passes and a signature over both is accepted |
| Jwks.ByteLengthStep | simple_a2a_registry/auth.py:802 | the computed length grows by one octet per factor of 256 |
| Jwks.FromToBytes | simple_a2a_registry/auth.py:803-805 | big-endian conversion has the asked length and is inverted by reading the octets |
| Jwks.NoShorter | simple_a2a_registry/auth.py:802 | no octet string of the integer is shorter than the computed length |
| Jwks.EncodingExact | simple_a2a_registry/auth.py:801-805 | for every n of at least 1 the encoding is the shortest big-endian octet string, has no leading zero and decodes back to n |
| Jwks.ZeroIsEmpty | simple_a2a_registry/auth.py:801-805 | 0 is the exception |
| AgentCards.DataclassToDict | simple_a2a_registry/models.py:374-395 | the loop over the fields of a plain dataclass keeps exactly those that are not None |
| AgentCards.FlatRoundTrip | simple_a2a_registry/models.py:431-438 | a plain dataclass comes back exactly when no attribute is None unless that is its default, and the keyword constructor never raises on its own output |
| AgentCards.MissingReads | simple_a2a_registry/models.py:398-438 | an attribute missing from the dict reads as the default of its class |
| AgentCards.InterfaceDefaults | simple_a2a_registry/models.py:431-438 | the defaults of an interface |
| AgentCards.SkillDefaults | simple_a2a_registry/models.py:398-414 | the defaults of a skill |
| AgentCards.CardDefaults | simple_a2a_registry/models.py:570-585 | the defaults of a card |
| AgentCards.ListsReadExactly | simple_a2a_registry/models.py:537-562 | a list of parts may be missing, false or a list of dicts; anything else raises |
| AgentCards.ListRoundTrip | simple_a2a_registry/models.py:537-540 | a list of parts comes back exactly when each part does |
| AgentCards.DictsRoundTrip | simple_a2a_registry/models.py:463-469 | a dict of parts comes back exactly when each part does |
| AgentCards.WithListRoundTrip | simple_a2a_registry/models.py:398-460 | skills and capabilities, with their optional lists, come back exactly when they and their parts are full |
| AgentCards.FlowsRoundTrip | simple_a2a_registry/models.py:504-517 | the five OAuth grants come back exactly when each that is present is full |
| AgentCards.OAuth2RoundTrip | simple_a2a_registry/models.py:481-487 | an OAuth scheme comes back exactly when its flows, if present, are not all empty |
| AgentCards.SchemeRoundTrip | simple_a2a_registry/models.py:472-501 | a security scheme comes back exactly when it populates only the member of its type |
| AgentCards.DictToSecurityScheme | simple_a2a_registry/models.py:472-501 | the branches over the scheme type compute the parser of the round trip, errors included |
| AgentCards.CardRoundTrip | simple_a2a_registry/models.py:530-585 | parsing a card's dict gives the card back exactly when the card is full |
| AgentCards.LegacySkills | simple_a2a_registry/models.py:542-552 | a v0.x dict with its skills under capabilities parses like its v1.0 form, for every dict and skills value, errors included |
| AgentCards.TopSkillsWin | simple_a2a_registry/models.py:542-546 | skills at the top win over skills under capabilities |
| AgentCards.NullIsMissing | simple_a2a_registry/models.py:537-568 | a null part reads like a missing one |

## Left out

Task lifecycle and reconnect merge:

- Timestamps and display fields of a record (created_at, updated_at, started_at, progress, message, metrics, error_code, query, session): no branch reads them. Results and errors are opaque texts.
- The board is a status and a result per task. Claim locks, runs, failure texts and the promotion of dependent tasks are not modelled; writes by other components are the event `BoardWrite`, which may happen at any time with any status except "dangling", and the board does not start with a dangling task.
- A missing task store or dispatch map behaves like an empty one; an exception of `get_task` is the set `unreadable`; an exception of `update_task_status` is a transition that the table refuses.
- The security checks and the 30-second limit of state_sync, the progress broadcast, the flow-control counters and the unused router entry for "ping".
- The connection table and the task protocol are separate machines: a disconnect may happen at any time and a timeout may find its agent connected or not, which covers every run of the two together.
- A sleep never ends early, a cancelled timer does nothing more, and dispatched ids are new. A callback may write any number of times after one check.
- Message members are missing, null or texts. A null state is kept as the empty text, because no branch on a state tells the two apart.

Rate limiting:

- Floats are reals; rounding of doubles is not modelled. Calls are serial and the clock does not go back; the table bucket's unlocked read-then-write under concurrent processes is not modelled.
- TokenBuckets.SameAnswers: is about positive rates and bursts. For a rate or burst of 0 it does not say when exactly the two answers coincide by chance; `TableAnswers` says what the table answers.
- The exemptions, the client key and the other headers of the middleware.

Webhooks:

- Database calls do not raise, except for the insert of a log row whose subscription is gone. A round may be under way for a subscription of its snapshot that has changed since; a deleted subscription's id may be created again. The response code, payload, error text and time of a log row, secrets and signatures, and status notifications are not modelled; the order in which a query returns rows is a parameter.
- Webhooks.AtMostFortyPosts: holds under serial delivery; `OverlappingPosts` bounds the posts when deliveries overlap.
- Webhooks.WebhookDeliveryEngine.DeliverToSubscription: the method runs with nothing else at work; rounds among other deliveries and subscription changes are the subject of `WebhookRuns`, of which it is the serial case (`SerialRound`).
- Webhooks.WebhookDeliveryEngine.DeliverEvent: likewise (`SerialDelivery`).

Names, tokens and cards:

- strip() and lower() are arbitrary functions, card validation is a flag, ids are new. HTTP registration is the only way in; renaming does not exist.
- AgentNames.Registry.ListAgents: returns a set of ids; the skill, tag and text filters, which the duplicate check does not use, and the order of the result are not modelled.
- JSON text, UTF-8 and RSA are abstract functions. Assumed are that a key verifies what its private half signed and that JSON text preserves the token header (`Codec.Sound`) and, where stated, the payload (`Codec.Prints`); for any two payloads some codec meets this (`CodecExists`).
- Jwt.VerifiedIsSigned: the base64 decoder is strict where Python's skips foreign characters, which no segment of the signer contains; a token with such characters is refused in the model.
- Recursion of `_dataclass_to_dict` over arbitrary classes is written out for the classes of a card. Attributes hold JSON values, since Python does not enforce their declared types; a parser that raises gives None. The positions of keys in a dict are not modelled.
- AgentCards.DataclassToDict: covers classes whose attributes hold no dataclasses; the nested parts are covered by the functions of the round trips.

Not modelled at all: HTTP routing and middleware wiring, metrics, health probes, dispatcher, dependency graph, swarm and pool, authorization codes and PKCE, scopes, user accounts, admin interface, audit log, migrations and the command-line clients.
