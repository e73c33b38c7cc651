# Command replay, cancellation and conversion in the Temporal Go SDK

A Dafny model of the parts of the Temporal Go SDK that decide whether a replayed workflow does what
the live run did: the command state machines and `commandsHelper`, the workflow environment on top of
them, `GetVersion` and `MutableSideEffect`, the cancellation context tree, and the conversions that
carry errors, payloads and headers across the wire.

Every part has a description on values (functions over datatypes), theorems about it, and, where the
program updates things in place, a class or a method with loops that is proved to do what the
description says.

| files | what they model |
|---|---|
| `EventCounter`, `ReplayAgreement`, `ReplaySlips`, `ReplayRuns`, `ReplayTasks` | the predicted-event-ID counter, version markers, live run against replay |
| `ResponseOrder`, `CounterUse` | the response of a workflow task command by command, and the replay model of a live task on the helper |
| `CommandMachine`, `HelperState`, `Invariants`, `CommandRuns` | the twelve states, the thirteen machine types, all helper operations, and what every run keeps |
| `IdPrediction`, `IdPosition`, `NexusMatching` | predicted IDs against server IDs, Nexus event matching |
| `TimerLifecycle`, `ChildLifecycle`, `MachineRuns`, `ExternalRequests` | timers, activities, child workflows, signals and cancellations under a lawful server, alone and inside the helper |
| `EventOutcomes`, `CallOutcomes`, `CommandTrips` | when history events and calls panic and what becomes of the machine; commands from the call to their last event |
| `CommandIndex`, `CommandsHelper` | the helper as a class: machine objects, an ordered list of references and a map, updated in place |
| `Environment`, `WorkflowEnvironment` | result callbacks of activities and Nexus operations, on values and as a class |
| `CallbackTimes`, `CallbackRuns` | which callbacks each step calls, and when over whole runs |
| `Versions`, `MutableSideEffects` | `GetVersion` and `MutableSideEffect`, live and in replay |
| `ContextTree`, `ContextCancel`, `ContextOrder`, `Contexts`, `ChildList` | cancellation contexts, with callbacks on Done, and the intrusive child list |
| `Failures`, `FailureContents`, `FailureRoundTrip` | errors to Failures, what the server reads off them, and the way back |
| `Retryable`, `RetryDecisions` | `IsRetryable`, which error of a chain decides, and what a round trip changes |
| `Codecs`, `PayloadPipeline`, `Headers` | codec chains and zlib, the remote codec pipeline, header ownership |
| `SdkFlags`, `EagerSlots`, `MessageIndex` | SDK flags, eager activity slots, the message index |

A panic of the program (`panicIllegalState`, `failStateTransition`, "already handled") is the result
`Panic`; errors returned by codecs are `None`.  Machine objects are numbered in creation order, which
stands for their identity.

## What does not hold as one might expect

Each of these has a lemma with a concrete run or input, and a theorem with the exact condition.

- Cancelling a started child workflow advances the predicted ID without skipping version markers
  (`internal/internal_command_state_machine.go`, lines 785-799).  After a `GetVersion` call whose
  marker has not been passed yet, later commands get other IDs in replay than live:
  `ReplayRuns.ReplayDisagreesAfterChildCancel`, `ReplaySlips.ReplayAgreesUnlessItSlips`,
  `ReplayAgreement.ReplayAgreesIff`.
- A child or Nexus operation that is cancelled in the workflow task that starts it keeps its number but
  leaves no event, so the counter runs ahead of the history.  If a command and then a `GetVersion` call
  follow, the command jumps a marker in replay that lies behind it in the live run:
  `ReplayRuns.ReplayDisagreesAfterTakenBack`, `ReplaySlips.ReplayAgreesWithoutCancels`.
- The two effects can cancel out, when a `GetVersion` call comes last: `ReplayRuns.LastVersionMakesUp`,
  `ReplayAgreement.ReplayAgreesIff`.
- Cancelling a child or a Nexus operation before it is sent takes the command back but not its number:
  `IdPrediction.PredictionFailsAfterEarlyChildCancel`, `IdPrediction.PredictionFailsAfterEarlyNexusCancel`,
  `IdPosition.PredictedWhereSent`.
- The guard at line 1293 of the same file tests a state that Nexus operations never enter.  An
  operation cancelled before it is sent stays in line and takes the Scheduled event of a later one:
  `NexusMatching.CancelledOperationStealsTheEvent`, `NexusMatching.MatchingExact`.
- A child whose start fails after it was cancelled makes an illegal transition:
  `ChildLifecycle.FailedStartAfterCancelPanics`, `ChildLifecycle.ChildSurvivesIff`.  The public API
  registers the cancellation of a child only in its started callback (`internal/workflow.go`, lines
  1523-1546), so a cancellation before the start reaches the helper only through the environment
  interface.
- An activity that closes after a response was sent when both its start was recorded and the workflow
  had cancelled it is never taken out of the list and the map; cancelled before it was sent, it is:
  `TimerLifecycle.ClosedAfterCancelStays`, `TimerLifecycle.ClosedAfterEarlyCancelLeaves`,
  `TimerLifecycle.ListedIff`.
- A `GetVersion` call whose search attribute cannot be serialized writes no marker, and replay falls
  back to the default version: `Versions.UnserializableVersionIsLost`, `Versions.VersionsReplayIff`.
- `NexusOperationError` has no `message()`, so its whole error text becomes the message, which
  therefore never survives a round trip (`FailureRoundTrip.NexusMessageGrows`); an empty cancel message,
  an application error typed "PanicError" and foreign errors change as well
  (`FailureRoundTrip.EmptyCancelMessageIsFilledIn`, `FailureRoundTrip.PanicTypeArrivesAsPanic`,
  `FailureRoundTrip.ForeignArrivesAsApplication`), and so do workflow panics
  (`Retryable.WorkflowPanicIsRetriedAfter`): `FailureRoundTrip.RoundTripIff`.
- A Go error around an application error, and a workflow panic, are retried differently after a round
  trip: `Retryable.WrappedNonRetryableIsRetriedAfter`, `Retryable.WorkflowPanicIsRetriedAfter`,
  `Retryable.RetryAgreesIff`.
- A payload that already carries the zlib tag comes back expanded when a zlib layer skips it:
  `Codecs.TaggedIsExpanded`, `Codecs.StackRoundTripIff`.

## Model

| member | source | states |
|---|---|---|
| ReplayAgreement.ReplayAgreesIff | internal/internal_command_state_machine.go:1063-1110 | for any counter and any mix of ID reads, unchanged MutableSideEffect calls, commands sent, commands taken back, first-time GetVersion calls and cancels of started children: replay with the markers loaded at the events the server writes gives every command its live ID, if and only if a walk over the task's events, in which a command takes the next event that is no marker and a cancelled child whatever comes next, comes to its number each time |
| ReplaySlips.ReplayAgreesUnlessItSlips | internal/internal_command_state_machine.go:1063-1110 | the condition on the calls alone: replay agrees if no command has a GetVersion call within as many sent commands as were taken back before it, and no started child is cancelled at a marker that replay has not read; and only then, unless commands are taken back, started children are cancelled and a GetVersion call comes after the last command |
| ReplaySlips.TaskSlipsIff | internal/internal_command_state_machine.go:785-799 | the walk goes right if the task does not slip, and only then in a settled task, also when it takes back commands that were pending at its start |
| ReplaySlips.ReplayAgreesWithoutCancels | internal/internal_event_handlers.go:969-1013 | without cancels of started children, replay gives the live IDs if and only if no command is taken back with another one issued and GetVersion called after it |
| ReplayRuns.ReplayDisagreesAfterChildCancel | internal/internal_command_state_machine.go:785-799 | GetVersion, cancel of a started child, one command: the command is event 12 live and event 11 in replay |
| ReplayRuns.ReplayDisagreesAfterTakenBack | internal/internal_command_state_machine.go:974-992 | two commands taken back, one command, GetVersion: the command is event 14 live and event 15 in replay |
| ReplayRuns.RecallKeepsStep | internal/internal_event_handlers.go:1166-1187 | GetVersion, an unchanged MutableSideEffect, cancel of a started child, one command: replay agrees, because only replay reads an ID |
| ReplayRuns.LastVersionMakesUp | internal/internal_command_state_machine.go:785-799 | a task that slips and still agrees: the marker that a child took is made up for by one that the task writes last |
| ReplayTasks.ReplayAgreesOverTasks | internal/internal_command_state_machine.go:1042-1110 | over any number of workflow tasks, each of which sets the counter anew and loads its own markers: replay gives every command of every task its live ID, if and only if the walk of every task goes right |
| ReplayTasks.ReplaySlipsOverTasks | internal/internal_command_state_machine.go:1042-1110 | it does so if no task slips, and only then when all tasks are settled |
| ReplayAgreement.LoadingNeverPanics | internal/internal_command_state_machine.go:1340-1354 | loading the marker events of a live run one after the other never meets a marker twice, and leaves exactly them and the old ones in the table |
| ResponseOrder.ResponseInOrder | internal/internal_command_state_machine.go:1099-1135 | after whatever a workflow task does, the response holds the commands pending at its start and then those it issued, in order, each without what it took back; what a call issues is given, command kind and ID, by a table over all calls |
| ResponseOrder.CallAddsCommand | internal/internal_command_state_machine.go:1689-1713 | a call that asks the server for something, be it a new command, the cancel of a timer, activity or Nexus operation, or the cancel of a started child, adds exactly that command at the end of the response; a call that asks for nothing and takes nothing back leaves the response alone |
| ResponseOrder.CallTakesCommand | internal/internal_command_state_machine.go:725-745 | cancelling a child or Nexus operation before the send takes exactly its start or schedule command out of the response, and leaves the order of the others |
| CounterUse.CounterFollowsUses | internal/internal_command_state_machine.go:1038-1110 | whatever a live workflow task does, the helper's counter moves as in the replay model, where a command is taken back exactly if a later call of the task cancels its child or Nexus operation while it is new |
| CounterUse.TaskMatches | internal/internal_command_state_machine.go:1042-1061 | for a live task on any reachable helper: the model's counter starts where the helper's does, the model's events are those of the response, and its markers are at the events of the response's version marker commands |
| CounterUse.LiveTaskReplaysIff | internal/internal_command_state_machine.go:1042-1110 | the IDs that the helper predicts in such a task are those of its replay, if and only if the walk over the task's events goes right |
| CounterUse.CancelledOperationIsTakenBack | internal/internal_command_state_machine.go:974-992 | a Nexus operation scheduled and cancelled at once is two commands taken back, whatever follows |
| CounterUse.CancelledChildIsTakenBack | internal/internal_command_state_machine.go:725-745 | a new child started and cancelled at once is one command taken back |
| Invariants.StepKeepsInv | internal/internal_command_state_machine.go:1024-1713 | every call, history event and send keeps: one machine per command ID, only reachable states, activity and Nexus lookups that name a listed machine and no machine twice, the unscheduled list oldest first; a cancelled timer or activity stays cancelled, and no machine becomes new again |
| Invariants.RunKeepsInv | internal/internal_command_state_machine.go:1024-1713 | the same over runs of any length |
| CommandRuns.RunFromEmpty | internal/internal_command_state_machine.go:1137-1215 | after any run from a new helper no activity or Nexus lookup dangles, and no machine is in CanceledBeforeInitiated or still listed as Completed |
| CommandRuns.SendLeavesNothingNew | internal/internal_command_state_machine.go:1689-1713 | sending leaves no machine in Created and none of a type that completes when sent; what can be emitted again is exactly the timers and activities cancelled before they were sent |
| CommandRuns.CommandsOfEmitted | internal/internal_command_state_machine.go:1689-1713 | the commands returned are those of the emittable machines, in list order |
| CommandRuns.CancelledForever | internal/internal_command_state_machine.go:516-603 | once cancelled, no later operation brings a timer or activity back to Created, CommandSent or Initiated |
| CommandRuns.AtMostOneCancel | internal/internal_command_state_machine.go:623-686 | a run adds at most one cancel command per timer or activity, and none for one that was cancelled before |
| CommandRuns.CancelTimerPanicsIff | internal/internal_command_state_machine.go:661-673 | cancelling a timer panics if and only if it is unknown, was cancelled before it was sent, or an earlier cancel command with its ID is still listed |
| CommandRuns.ActivityClosedPanicsIff | internal/internal_command_state_machine.go:1157-1166 | closing a known activity finds its machine, and panics if and only if the machine is in none of the three states that expect it |
| IdPosition.PredictedWhereSent | internal/internal_command_state_machine.go:1042-1110 | within a workflow task started at S, for any calls before and after one that issues a command, be it new or the cancel of a started child: if the command is sent, the ID predicted when it was issued is S+2 plus its index in the response, if and only if no call before it took back a command and no call after it took back an earlier one |
| IdPosition.CallFollows | internal/internal_command_state_machine.go:1099-1135 | a call keeps every machine created in the workflow task listed, and moves its command forward by exactly the earlier commands it takes back, also when a started child moves to the back |
| IdPrediction.Drift | internal/internal_command_state_machine.go:1099-1135 | over any calls the counter runs ahead of the response by exactly one per child and two per Nexus operation cancelled before it was sent |
| IdPrediction.PredictionFailsAfterEarlyChildCancel | internal/internal_command_state_machine.go:725-745 | start a child and cancel it: nothing is left to send, and the counter has moved from 12 to 13 |
| IdPrediction.PredictionFailsAfterEarlyNexusCancel | internal/internal_command_state_machine.go:974-992 | schedule a Nexus operation and cancel it: nothing is left to send, and the counter has moved from 12 to 14 |
| CommandRuns.ResolvedLeavesNoCancel | internal/internal_command_state_machine.go:1116-1166 | after a timer fired or an activity closed, no cancel command for it is left to send |
| TimerLifecycle.SurvivesIff | internal/internal_command_state_machine.go:516-686 | against any lawful server, and with cancels at any time: a run of a timer or activity panics if and only if the workflow cancels again what it cancelled before the send while the start is not recorded, or cancels what is no longer listed |
| TimerLifecycle.ListedIff | internal/internal_command_state_machine.go:490-573 | a timer or activity is listed until the server is done with it, and afterwards if and only if it closed after a response that was sent when both the start was recorded and the workflow had cancelled; it is then an activity |
| TimerLifecycle.ClosedAfterCancelStays | internal/internal_command_state_machine.go:564-573 | started, cancelled, request recorded, closed: the machine stays in CompletedAfterCancellationCommandSent |
| TimerLifecycle.ClosedAfterEarlyCancelLeaves | internal/internal_command_state_machine.go:564-573 | cancelled before it was sent, request recorded, closed: the machine leaves the list |
| MachineRuns.RunProjects | internal/internal_command_state_machine.go:1088-1713 | over any helper run that does not make it anew, a timer, activity or child goes through exactly the events addressed to it, all of them legal |
| MachineRuns.TimerInHelper | internal/internal_command_state_machine.go:1088-1713 | inside a helper run whose calls and history events for a timer or activity keep the server's order, read off by a table of their own, it never cancels in vain and is listed at the end exactly as ListedIff says |
| MachineRuns.ChildInHelper | internal/internal_command_state_machine.go:1088-1713 | inside such a run a child meets no step that breaks it and leaves the indexes exactly when it ended and no cancel request is outstanding |
| EventOutcomes.AcceptedIff | internal/internal_command_state_machine.go:1157-1688 | in every reachable state an event about one timer, activity, child, signal, cancellation or Nexus operation is accepted, and does not panic, if and only if the lookups know it, it is listed, and its state is one that the table expects for that event |
| EventOutcomes.OutcomeIs | internal/internal_command_state_machine.go:490-1022 | after an accepted event its machine has left the list or is in the state that the table gives |
| EventOutcomes.OthersStay | internal/internal_command_state_machine.go:1116-1166 | an event leaves the state of every other machine alone, save for the cancel command of a timer or activity that is over |
| EventOutcomes.LookupsAfter | internal/internal_command_state_machine.go:1157-1626 | which lookup entries an accepted event makes and forgets, and that the counter and the unscheduled operations stay |
| EventOutcomes.RequestRecordedIff | internal/internal_command_state_machine.go:1267-1276 | a Nexus cancel request is recorded if and only if it was sent, and nothing else changes |
| EventOutcomes.RequestDeliveredIff | internal/internal_command_state_machine.go:1278-1287 | it is delivered if and only if it was recorded, or made without being sent, and then leaves the list |
| EventOutcomes.ScheduledIff | internal/internal_command_state_machine.go:1229-1239 | a Scheduled event is accepted if and only if the first operation that waits for one was in a response; that operation gets the event ID |
| CallOutcomes.CallPanicsIff | internal/internal_command_state_machine.go:1063-1659 | in every reachable state a call panics if and only if a table says so: an ID that is taken, a cancel of what is unknown or was cancelled before in the given states, a cancel request ID that is taken, an external cancel without an ID, or an ID read before the first workflow task |
| CallOutcomes.EventPanicsIff | internal/internal_command_state_machine.go:1157-1688 | the same for every history event, version markers and Nexus events included |
| CallOutcomes.RunPanicsIff | internal/internal_command_state_machine.go:1024-1713 | a helper run of any length panics if and only if it comes to an operation that the tables refuse |
| CommandTrips.ActivityTrip | internal/internal_command_state_machine.go:1137-1193 | from any reachable helper: schedule an activity, send, record, close it, and nothing of it is left; none of the events panics |
| CommandTrips.TimerTrip | internal/internal_command_state_machine.go:1628-1669 | the same for a timer that is started, recorded and fires |
| CommandTrips.ChildTrip | internal/internal_command_state_machine.go:1427-1450 | the same for a child that is recorded, starts and closes |
| CommandTrips.NexusTrip | internal/internal_command_state_machine.go:1217-1265 | the same for a Nexus operation that is scheduled, starts and completes, when no other operation waits |
| ExternalRequests.SignalAnswered | internal/internal_command_state_machine.go:1602-1626 | a sent signal survives its two events, which find it by event ID; afterwards exactly its machine is gone |
| ExternalRequests.CancellationAnswered | internal/internal_command_state_machine.go:1499-1540 | the same for a cancellation of an external workflow, accepted or rejected; a child with that workflow ID is not touched |
| ChildLifecycle.ChildSurvivesIff | internal/internal_command_state_machine.go:725-832 | against any lawful server, and with any number of cancels at any time: a run of a child panics if and only if its start fails, or is recorded, while a cancellation waits to be sent, or it is cancelled when an earlier cancellation was taken back, waits to be sent or was accepted, or when it is no longer listed; otherwise it is listed exactly until it ended and no cancel request is outstanding |
| ChildLifecycle.FailedStartAfterCancelPanics | internal/internal_command_state_machine.go:551-558 | sent, recorded, cancelled, start failed: a panic |
| ChildLifecycle.CancelConfluence | internal/internal_command_state_machine.go:776-832 | after the cancel command was sent, closing the child and answering the request may come in either order: both are legal, end in the same helper, and remove the child at the second event |
| NexusMatching.MatchingExact | internal/internal_command_state_machine.go:1229-1304 | for every run in which the server answered no more operations than were sent: events reach the operations they are for, if and only if no bound operation was cancelled before it was sent |
| NexusMatching.BoundInScheduleOrder | internal/internal_command_state_machine.go:350-365 | in every run the k-th Scheduled event is bound to the k-th scheduled operation, and the rest wait in order |
| NexusMatching.CancelledOperationStealsTheEvent | internal/internal_command_state_machine.go:1289-1304 | two operations, the first cancelled before the send: only the second is sent, but its event is bound to the first |
| CommandsHelper.CommandsHelper.MoveState | internal/internal_command_state_machine.go:490-501 | the state of one machine changes, and a completed one leaves the list and the map together |
| CommandsHelper.CommandsHelper.SkipVersionMarkers | internal/internal_command_state_machine.go:1072-1086 | the loop ends and leaves counter and table as the recursive description does |
| CommandsHelper.CommandsHelper.Add | internal/internal_command_state_machine.go:1099-1110 | adds one machine at the end of the list and to the map, and numbers it past all version markers; a duplicate ID panics |
| CommandsHelper.CommandsHelper.MoveToBack | internal/internal_command_state_machine.go:1128-1135 | one machine moves to the end, all others keep their order |
| CommandsHelper.CommandsHelper.SetWorkflowTaskStarted | internal/internal_command_state_machine.go:1042-1061 | the counter becomes the event ID plus two plus the number of pending commands |
| CommandsHelper.CommandsHelper.GetCommands | internal/internal_command_state_machine.go:1689-1713 | the loop over the list, which shrinks while it is walked, returns exactly the emittable commands in order and leaves the described list |
| CommandsHelper.CommandsHelper.Perform | internal/internal_command_state_machine.go:1024-1713 | any operation on the object has exactly the described effect or panic, and keeps list, map and lookups consistent |
| Environment.StepKeepsEnv | internal/internal_event_handlers.go:1602-1690 | every operation of the environment keeps its invariant and panics if and only if the helper does, so "already handled" is unreachable |
| Environment.PanicsOnlyInHelper | internal/internal_event_handlers.go:299-305 | a run that panics does so at a step where the helper alone panics |
| Environment.CallbacksAtMostOnce | internal/internal_event_handlers.go:2059-2180 | over any run each activity result, Nexus start and Nexus completion is delivered at most once, and a completion only after the start |
| Environment.ClosedActivityIsDelivered | internal/internal_event_handlers.go:1602-1690 | after an event that closes an activity its result has been delivered, whatever was cancelled before |
| CallbackTimes.StepFires | internal/internal_event_handlers.go:656-735 | a step calls exactly the callbacks that a table gives for it: an activity result at its closing event or at a cancel; a Nexus start at its Started event; both callbacks at the completion, at what the cancellation mode waits for, or at a cancel before the server recorded the operation |
| CallbackTimes.CancelDeliversIff | internal/internal_event_handlers.go:862-874 | a cancel call delivers the outstanding result of a listed activity if and only if it was executed without waiting for cancellation or its machine is in CompletedAfterCancellationCommandSent |
| CallbackRuns.ResultTimes | internal/internal_event_handlers.go:862-874 | over any run an activity result is delivered at an event that closes the activity, or by a cancel call on an activity that was executed without waiting; one executed with waiting has it delivered only by the server |
| CallbackRuns.StartTimes | internal/internal_event_handlers.go:2059-2072 | over any run the start of a Nexus operation is delivered at its Started event or when the wait for it ends |
| CallbackRuns.CompletionTimes | internal/internal_event_handlers.go:2074-2180 | over any run the wait for a Nexus operation ends at its completion event, at the recorded cancel request in mode TryCancel, at the delivered one in mode WaitRequested, or at a cancel before the server recorded it |
| CallbackRuns.ExecutedWaiting | internal/internal_event_handlers.go:840-860 | the waiting flag found at any later time is the one given by the call that executed the activity |
| CallbackRuns.ExecutedInMode | internal/internal_event_handlers.go:656-697 | the cancellation mode found at any later time is the one given by the call that executed the operation |
| CallbackRuns.CallbacksAccounted | internal/internal_event_handlers.go:721-733 | over any run each callback of a Nexus operation was called, was dropped because the operation was abandoned, or is outstanding; it is outstanding if and only if neither happened |
| CallbackRuns.CompletedIsDelivered | internal/internal_event_handlers.go:2074-2116 | after the completion event of an operation the workflow has its completion, unless it abandoned the operation |
| WorkflowEnvironment.WorkflowEnvironment.RequestCancelActivity | internal/internal_event_handlers.go:862-874 | cancels through the helper and delivers ErrCanceled unless the result was delivered or the caller waits; when it delivers is CallbackTimes.CancelDeliversIff |
| WorkflowEnvironment.WorkflowEnvironment.RequestCancelNexusOperation | internal/internal_event_handlers.go:699-720 | unblocks both futures of an operation that the server has not recorded |
| WorkflowEnvironment.WorkflowEnvironment.Perform | internal/internal_event_handlers.go:2059-2180 | any operation on the object has exactly the described effect, keeps the invariant, and panics only where the helper does |
| Versions.VersionsReplayIff | internal/internal_event_handlers.go:969-1013 | replay with the live run's markers loaded returns at every GetVersion call what the live run returned, if and only if no first call got a non-default version whose marker could not be written |
| Versions.OneVersionPerChange | internal/internal_event_handlers.go:969-1044 | over any run, live or replayed, every change ID has one version, supported by every call about it: the recorded one; else in replay the default; else the latest supported one or the supported version nearest to the preferred one |
| Versions.CallReturns | internal/internal_event_handlers.go:1015-1044 | a call panics if and only if the known version, or in replay the default, is not supported, or the range is empty, or the preference lies outside it and is not to be clamped |
| Versions.UnserializableVersionIsLost | internal/internal_event_handlers.go:988-1008 | a first call that cannot be serialized returns 1 live, writes no marker, and returns the default version in replay |
| Versions.VersionTable.Get | internal/internal_event_handlers.go:969-1044 | known, replayed and preferred versions, clamping, validation, and when a marker is recorded |
| MutableSideEffects.CollectionIsInvisible | internal/internal_event_handlers.go:1138-1196 | with any loads, live calls and replayed calls, the pruned map answers every call as the full log would, and a marker is recorded at the same calls |
| MutableSideEffects.ReplayReturnsLive | internal/internal_event_handlers.go:1771-1793 | replay returns at every call what the live run returned, whichever calls were recorded and whenever markers are loaded before their call; a replay of the whole run that finds its markers repeats exactly its marker commands |
| MutableSideEffects.LiveRecordsChanges | internal/internal_event_handlers.go:1183-1195 | a live run returns the first computed value, then each computed value that is not equal to the one returned before, else that one; the log has an entry at exactly the first call and those that changed the value, holding what they computed |
| MutableSideEffects.CollectedRunIsLive | internal/internal_event_handlers.go:1138-1196 | the same values are returned with the garbage collection on |
| MutableSideEffects.FindLatest | internal/internal_event_handlers.go:1138-1164 | the pass over the unordered map finds the latest entry up to the current call |
| MutableSideEffects.Collect | internal/internal_event_handlers.go:1138-1164 | the second pass deletes exactly the entries that no later lookup can return |
| MutableSideEffects.SideEffects.Call | internal/internal_event_handlers.go:1138-1257 | one call on the object has the described effect on its own ID, marker command included, and none on others |
| ContextCancel.StepKeepsTree | internal/context.go:89-137 | with any callbacks on Done and any order of walking children, every operation keeps: a live context lists its live children in creation order, a cancelled one has no live child, each Done is closed once, stored errors never change |
| ContextCancel.NoLiveBelowCancelled | internal/context.go:259-293 | after any run with any callbacks and any walking order no context connected below a cancelled one is live, and each Done channel was closed exactly once for each cancelled context |
| ContextCancel.BornCancelled | internal/context.go:121-137 | a child made under a cancelled context has the parent's error before it is returned |
| ContextOrder.CancelClosesSubtree | internal/context.go:259-293 | with no callbacks pending, in whatever order children are walked, cancelling closes Done in depth-first order over exactly the live connected descendants, gives them the error, and leaves all others, disconnected ones included, as they were |
| ContextOrder.OrderedSubtree | internal/context.go:280-284 | with ordered cancellation that order is depth-first creation order |
| Contexts.Contexts.Cancel | internal/context.go:259-293 | the recursive method with its loop over the detached list ends, and has the described effect |
| Contexts.Contexts.MakeChild | internal/context.go:89-137 | links, or cancels at once, a new child |
| ChildList.ChildList.Add | internal/context.go:187-203 | a new child goes to the end; a known one changes nothing; links and map stay consistent |
| ChildList.ChildList.Remove | internal/context.go:205-225 | a child leaves the chain and the map; the order of the others stays |
| ChildList.DetachAndWalk | internal/context.go:276-287 | the walk over the detached list visits exactly the children there were, in creation order, whatever is removed from the owner meanwhile |
| FailureRoundTrip.ChainArrives | internal/failure_converter.go:65-351 | what every error of a chain of any length arrives as, with or without encoded attributes |
| FailureContents.ErrorConveyed | internal/failure_converter.go:65-206 | what the server reads off the Failure of an error: non-retryable exactly for a workflow panic and for application and server errors that say so; which info it carries and its type name; the timeout type; the IDs of the activity, child or operation; details; and, with encoded attributes, neither message nor stack trace outside the payload |
| FailureContents.ChainConveyed | internal/failure_converter.go:65-206 | so for every error of a chain of any length, up to the first that holds a Failure, which is passed on unchanged with its causes |
| FailureRoundTrip.OtherFailuresArrive | internal/failure_converter.go:268-315 | Failures that this SDK does not make: a workflow reset arrives as a non-retryable application error with its details, one without info as a retryable one, and an operation without a token is known by its ID |
| FailureRoundTrip.RoundTripIff | internal/failure_converter.go:65-351 | kind, fields, details and message of every error of the chain come back, if and only if every error is of a surviving kind |
| FailureRoundTrip.NexusMessageGrows | internal/failure_converter.go:80-84 | a Nexus operation error arrives with its formatted text as its message |
| FailureRoundTrip.EmptyCancelMessageIsFilledIn | internal/error.go:522-542 | an empty cancel message arrives as "canceled" |
| FailureRoundTrip.PanicTypeArrivesAsPanic | internal/failure_converter.go:225-230 | an application error typed "PanicError" arrives as a panic, without its cause |
| FailureRoundTrip.ForeignArrivesAsApplication | internal/failure_converter.go:192-198 | a foreign error arrives as a retryable application error of its type name |
| Retryable.RetryAgreesIff | internal/error.go:1116-1146 | for chains without panic type names, a round trip changes no retry decision for any list of types, if and only if: a cancelation or termination decides; or a workflow panic is confirmed by a timeout that is not retried or a non-retryable application error with no foreign error before it; or, without one, a timeout decides, no foreign error precedes the first application error, or it has the deciding type |
| Retryable.RetryAgreesForAnyChain | internal/error.go:1116-1146 | for every chain, of which the part before the first panic type name arrives: no decision changes if and only if a cancelation or termination in that part decides; or its timeout does, without an error that is never retried elsewhere; or its non-retryable application error, with no foreign error before it, confirms such an error or a timeout that is not retried; or its first application error decides; or the foreign type or chain name that decides after is the type that decides before |
| RetryDecisions.FinalIsNotRetried | internal/error.go:1116-1127 | a chain with a cancelation, termination or workflow panic anywhere is not retried, whatever the types listed |
| RetryDecisions.TimeoutDecides | internal/error.go:1129-1132 | otherwise the first timeout of the chain decides: it is retried if and only if it is start-to-close or heartbeat |
| RetryDecisions.ApplicationDecides | internal/error.go:1134-1146 | without a timeout the first application error decides, by its flag and its type |
| RetryDecisions.NameDecides | internal/error.go:1116-1158 | without either, the type name of the outermost error does |
| Retryable.SurvivorsRetryAlike | internal/error.go:1116-1146 | a chain that survives unchanged is retried as before |
| Retryable.WrappedNonRetryableIsRetriedAfter | internal/error.go:1116-1158 | a Go error around a non-retryable application error is not retried before, and is after |
| Retryable.WorkflowPanicIsRetriedAfter | internal/failure_converter.go:111-117 | a workflow panic arrives as a PanicError, which is retried |
| Codecs.EncodePayloads | converter/codec.go:126-135 | the backward loop equals nested application, errors included |
| Codecs.DecodePayloads | converter/codec.go:115-124 | the forward loop equals nested application, errors included |
| Codecs.FlatCodec | converter/codec.go:170-191 | the loop over parents collects the codecs of all stages, or returns nothing when there are none |
| Codecs.FlatteningAgrees | converter/codec.go:170-215 | at any nesting depth the flattened chain encodes and decodes exactly as the nested converters do |
| Codecs.ChainInverts | converter/codec.go:115-135 | decoding a chain of invertible codecs undoes encoding |
| Codecs.ZlibEncode | converter/codec.go:56-84 | the loop leaves a payload as it is if and only if packing does not make it smaller and AlwaysEncode is off, and otherwise replaces it by the packed one with the zlib tag |
| Codecs.ZlibDecode | converter/codec.go:86-113 | the loop expands exactly the tagged payloads, and fails if one of them fails |
| Codecs.StackRoundTripIff | converter/codec.go:56-113 | stacked zlib codecs give payloads back, if and only if expanding each one once per layer that skipped it leaves it as it is |
| Codecs.StackRoundTripExactly | converter/codec.go:56-113 | where no payload turns up among its own expansions, they come back if and only if each is untagged or compressed by every layer |
| Codecs.AlwaysEncodeRoundTrip | converter/codec.go:56-113 | with AlwaysEncode in every layer any payload comes back |
| Codecs.UntaggedRoundTrip | converter/codec.go:56-113 | payloads without the zlib tag come back through any stack, whichever layers skip them |
| Codecs.TaggedIsExpanded | converter/codec.go:86-92 | a tagged payload that the layer skips comes back expanded |
| PayloadPipeline.DecodeNonReferences | converter/payload_handler.go:209-231 | the loops that collect, decode and write back equal the description, for any codecs, including too few results |
| PayloadPipeline.DecodesInPlace | converter/payload_handler.go:209-231 | for position-wise codecs references stay in place and every other position holds its own decoding |
| PayloadPipeline.PipelineRoundTripIff | converter/payload_handler.go:147-207 | through storage and both codec chains decoding undoes encoding if and only if the pre-encoding keeps the number of payloads; with fewer the result is cut short, with more the handler crashes |
| PayloadPipeline.PipelineWithRefsIff | converter/payload_handler.go:147-207 | for any payloads, storage references among them, and position-wise pre-codecs: decoding undoes encoding if and only if each reference of the pre-encoding comes back, that is, it was stored once more and is the input itself, or it was kept and what it refers to decodes to the input |
| PayloadPipeline.PreservedRefs | converter/payload_handler.go:147-164 | with references preserved, what is a reference after storing stays one and everything else comes back |
| Headers.HeaderWriter.Set | internal/headers.go:106-117 | header and ownership table change together |
| Headers.CodecHeader | internal/interceptor_header.go:90-120 | every payload goes through the codec once, or the whole header fails because one does |
| Headers.SelectedIffOptedIn | internal/interceptor_header.go:186-191 | after any writes, selected are exactly the keys whose final payload instance belongs to an opted-in producer |
| Headers.PropagatedHeaders | internal/interceptor_header.go:159-198 | a key leaves encoded, once, exactly when its final payload belongs to an opted-in producer, and otherwise with the payload last written; when it fails; the context's map is untouched unless nothing is to be encoded |
| Headers.PropagationRepeats | internal/interceptor_header.go:159-198 | propagating again from the context left behind sends the same header |
| Headers.CodecHeaderInverts | internal/interceptor_header.go:90-120 | decoding an encoded header gives it back |
| SdkFlags.ReplayAnswersLive | internal/internal_flags.go:121-164 | replay that sets the gathered flags before each workflow task gives every live answer and ends with the live flags, without recording and whatever the capability of the replaying worker |
| SdkFlags.RestartAnswersLive | internal/internal_flags.go:121-164 | a worker that replays some tasks and goes on live gives the answers, and gathers the flags, of one that never stopped |
| SdkFlags.LiveAnswersConstant | internal/internal_flags.go:121-140 | a live run gives each flag the same answer in all workflow tasks |
| SdkFlags.GatheredOnce | internal/internal_flags.go:149-164 | a flag is gathered in at most one workflow task |
| SdkFlags.FlagSet.TryUse | internal/internal_flags.go:121-140 | answer and new state of one use |
| SdkFlags.FlagSet.MarkSent | internal/internal_flags.go:149-155 | the loop moves all new flags to the current ones |
| EagerSlots.FlagsWithinLimits | internal/internal_eager_activity.go:43-77 | at most maxPerTask commands stay flagged, held slots stay within a positive maximum, and a flagged command asked for it |
| EagerSlots.RefusedForCause | internal/internal_eager_activity.go:43-100 | a command that asked and was offered a slot is refused only when one of the two limits was reached |
| EagerSlots.Executor.ApplyToRequest | internal/internal_eager_activity.go:43-77 | exactly one new permit per command left flagged, all of them outstanding, and the held count equals the outstanding permits |
| EagerSlots.Executor.HandleResponse | internal/internal_eager_activity.go:102-140 | each permit is attached to a returned activity or released, exactly once; more activities than permits panics |
| MessageIndex.EventMessageIndex.TakeLTE | internal/internal_message.go:20-33 | the in-place compaction returns the messages up to the bound and keeps the others, both in order |
| MessageIndex.EachMessageOnce | internal/internal_message.go:13-33 | any calls leave exactly the messages above the largest bound, and deliver every other one once, in order among equal event IDs |

## Left out

- Contents of protobuf attributes, user metadata, event-group markers and payload bytes: carried as opaque values.
- Logging, metrics, stack traces, machine history strings, wall-clock time and deadlock detection.
- Goroutine interleavings and locks: each locked region or coroutine step is one step.
- 64-bit overflow of event IDs and counters: integers are unbounded.
- The order and completeness of history events is up to the caller of the model; reordering, the update protocol and worker task handling are not part of it.
- Timer, child workflow, signal and external cancel callbacks of the environment: only activities and Nexus operations have theirs modelled; local activities and side effects are left out.
- A Nexus future that is unblocked runs its callback as one step; code that the callback runs and that calls back into the environment is not modelled.
- MutableSideEffects.ReplayReturnsLive: needs the call-count hint on every marker; markers of old SDK versions without it are not modelled.
- IdPosition.PredictedWhereSent: is about live workflow tasks, where no version marker lies ahead of the counter; for replay see ReplayAgreement.
- NexusMatching.MatchingExact: speaks of runs in which the server sent no more Scheduled events than operations were sent.
- ReplayAgreement.ReplayAgreesIff: compares the IDs of issued commands; a cancelled child has none, and what replay reads for an unchanged MutableSideEffect is not compared. Commands queued between two workflow tasks count as pending at the start of the second, where the counter is set anew.
- ReplaySlips.ReplayAgreesUnlessItSlips: is an equivalence for settled tasks; for the others ReplayAgreement.ReplayAgreesIff is.
- Deadline contexts and context values are left out.
- ContextTree callbacks cancel contexts; a callback that creates contexts while Done is being closed is not modelled.
- Contexts.Contexts.Cancel: keeps the children of a context as a sequence; that the linked list behaves as that sequence is proved separately for ChildList.
- nexus.HandlerError conversion, converters that fail to encode, and errors that unwrap to several errors.
- Retryable.RetryAgreesIff: excludes chains with a type named like a panic; Retryable.RetryAgreesForAnyChain covers them.
- Headers.CodecHeader: visits keys in no particular order; the sorted order matters only for codecs with state, which are not modelled. Binding a codec to a context is left out.
- zlib, protobuf and JSON internals and external storage: functions with an inverse law.
- PayloadPipeline.PipelineRoundTripIff: is about any codecs, but inputs whose pre-encoding holds no storage reference; PayloadPipeline.PipelineWithRefsIff covers references for codecs that work position by position. The download endpoint and HTTP handling are left out.
- A nil eager executor behaves as a disabled one.
- gRPC dialing, interceptor forwarding, deployment and activity clients, tracing, option structs and listing iterators.
