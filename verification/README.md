# Verification of the Action runtime, the Service RPC protocol and two smaller pieces

This project models the core of the repository in Dafny 4.11 and proves what the protocols
promise over whole runs. Each layer comes twice where the source updates state in place: as a value
model (`*Spec.dfy`: datatypes and functions, with the properties as lemmas) and as a class whose methods
update their fields and loop as the source does, each proved to compute the value model and to keep its
invariant. Sends take a flag for whether the transport delivered; a failed send is not delivered.

| part | files |
|---|---|
| Goal reducers | `ServerGoalMachine.dfy`, `ClientGoalMachine.dfy` |
| Server and client endpoints | `ServerEndpointSpec.dfy`, `ServerTable.dfy`, `ServerEndpoint.dfy`, `ClientEndpointSpec.dfy`, `ClientTable.dfy`, `ClientEndpoint.dfy`, `SlotCount.dfy` |
| What the server puts on the wire | `WireGrammar.dfy`, `FeedbackPrefix.dfy` |
| Services layers and their agreement with the endpoints | `ServerServicesSpec.dfy`, `ServerServices.dfy`, `ServerCalls.dfy`, `ServerPolls.dfy`, `CancelEdges.dfy`, `ClientServicesSpec.dfy`, `ClientServices.dfy`, `ClientCalls.dfy`, `GoalVector.dfy` |
| Client, server and two queues composed | `GoalView.dfy`, `Composition.dfy`, `CancelRace.dfy`, `CancelGuard.dfy`, `ServicesLock.dfy` |
| Connection multiplexer | `MuxSpec.dfy`, `MuxCalls.dfy`, `MuxEvents.dfy`, `MuxLeftovers.dfy`, `MuxMoves.dfy`, `MuxRun.dfy`, `MuxTable.dfy`, `MuxPolls.dfy`, `MuxSweeps.dfy`, `MuxProgress.dfy`, `MuxServer.dfy`, `MuxDuplicate.dfy` |
| Packet bytes | `Packet.dfy` |
| Service RPC | `RpcSpec.dfy`, `RpcTable.dfy`, `RpcEndpoints.dfy`, `RpcSystem.dfy`, `RpcDrain.dfy` |
| C polling functions | `CApi.dfy` |
| YAML subset | `YamlText.dfy`, `Yaml.dfy`, `YamlRoundTrip.dfy`, `YamlRefusals.dfy`, `YamlLines.dfy`, `YamlLimits.dfy` |

`dafny verify dfyconfig.toml` verifies everything.

## Main results

- **Safe slot reuse** (`Composition.SafeSlotReuse`): one client endpoint, one server endpoint, one queue per
  direction, with failed sends, rollbacks, timeouts, late cancels and server-local decisions at any
  moment, in every run.
- **Agreement** (`Composition.AgreementOfEveryRun`, `NothingDropped`): in the same system, per Goal, the packets
  in flight folded over the client binding give the state matching the server binding, in every run that
  reserves no ID while a cancel send for it is open. `CancelGuard.ReserveSafeExactly` proves that this guard is
  exact, and `ServicesLock.ServicesAgree` that the Services layer meets it.
- **No loss goes unnoticed** (`MuxProgress.LossIsReported`): whatever else the network does, the runtime cancel of
  every EXECUTING Goal of a lost connection is reported within a bounded number of polls, and
  `MuxPolls.RoundsExactly` says exactly what every poll reports.
- **Design tables** (`ServerGoalMachine.MeetsMatrix`, `ClientGoalMachine.MeetsMatrix`, `ServerTable.MeetsTable`,
  `ClientTable.PollDelivers`): reducers and endpoints against the state matrices of the design documents, and above
  them what every call and poll answers, sends and leaves (`ServerCalls`, `ServerPolls`, `ClientCalls`, `MuxTable`,
  `RpcTable`).
- **Layer simulations** (`ServerServicesSpec.RunSimulates`, `OnlyTransportRefuses`;
  `ClientServicesSpec.RunMirrors`, `CancelChecksAgree`).
- **Wire grammar** (`WireGrammar.GrammarOfEveryRun`) and **feedback prefix**
  with its exact bound (`FeedbackPrefix.PrefixExactly`).
- **Multiplexer ownership, draining, routing and admission**: every method of
  `MuxServer.ActionServicesMuxServer` keeps `MuxSpec.Inv` and is a step in the sense of `MuxRun.Step`, with
  connections dropping between any two looks at their flags; `OneHolder`, `OrphanedExactly`, `IsReady` and the
  run theorems of `MuxRun` follow: packets of calls and replies of polls go where the request came from, reported
  runtime cancels are drained, and what can get stuck stays stuck.
- **RPC race safety** for any number of clients sharing one server queue: each call ends at most once and with its
  own answer (`RpcSystem.EachCallEndsOnce`), and from every reachable state without a lost reply it can end
  (`RpcDrain.CallCanEnd`).
- **Packet hand-over** on bytes (`Packet.HandOver`) with the exact capacity check (`Packet.CapacityExactly`), **C polling** (`CApi.EventsExactlyOnce`) and the
  **YAML round trip** on text with its exact limit (`YamlLimits.RoundTripExactly`).

## Where a plausible claim is false

- The client endpoint alone does not hold the agreement if an ID is reserved again while a cancel send for
  it is still open, because `send_cancel` gives up its lock between committing and sending, and rolls back
  whatever Goal has the ID when the send fails. `CancelGuard.ReserveSafeExactly`: a reservation is safe if and only
  if no cancel send is open. `LateSendHarmless`, `LatePacketIgnored` and `LateRollBackExactly` say which late
  outcomes do no harm.
- The endpoint flag for a pending cancel can outlive the decision (`ServerServicesSpec.StaleCancelFlag` is such a
  run); `CancelEdges.StaleExactly` says exactly when, and `StaleSwallowsCancel` what it costs.
- A queued runtime cancel of an ended Goal is an ERROR event: `CancelEdges.ErrorExactly` and
  `CancelEdges.CompletedBeforeReport`.
- A duplicate Goal Request whose REJECT is not sent leaves a binding without owner:
  `MuxEvents.DuplicateRejectExactly`, reached by the run of `MuxDuplicate.UnsentRejectIsReached`. It stays until its
  connection is processed, and until then that connection can have no request for its ID or its slot surfaced:
  `MuxRun.ForsakenStays`, `MuxRun.ForsakenBlocksSlot`.
- A silent poll of the multiplexer does not mean that nothing is waiting: a duplicate request hides later Actions of
  its connection for that poll (`MuxPolls.DuplicateHides`). `MuxPolls.RoundsExactly` says exactly what silence means.
- From 2^32 feedback packets on, the prefix property fails: `FeedbackPrefix.PrefixExactly`.
- The comment at src/rpc_client_endpoint_impl.cpp:174-177 says that a response can still be received
  between the timeout event and the cancel. The code reports the timeout again and again instead; the
  response is seen only after a cancel is sent: `RpcSpec.TimeoutMasksResponse`. The model follows the code.
- An RPC error reply resets the server's state for the client it names, so the request in work goes unanswered.
  `RpcSpec.BusyResetExactly` says which packets do this, and `RpcSpec.SecondRequestResets` gives one.
- The answer to a request whose number is not that of the newest buffer is never taken:
  `RpcSystem.OlderBufferUnanswered`.
- An RPC clock that steps back times a running call out at once: `RpcSpec.TimeoutExactly`.

## Model

| member | source | states |
|---|---|---|
| `ServerGoalMachine.RunSafety` | src/action_server_state_machine.cpp:21-236 | Over every event sequence a valid context stays valid, the state only moves EXECUTING, CANCELING, FINISHING, a finished Goal is frozen, CANCELED needs an accepted cancel on the way and SUCCEEDED excludes one |
| `ServerGoalMachine.MeetsMatrix` | src/action_server_state_machine.cpp:74-236 | The reducer is the event matrices of docs/design/action/04-state-model.md, sections 9 and 10, with nothing added: for every valid context and event what is refused and why, what is ignored, and the whole next context |
| `ServerGoalMachine.InvalidIsRefused` | src/action_server_state_machine.cpp:74-83 | An invalid context is refused by every event and left as it is |
| `ServerGoalMachine.CancelResultRace` | src/action_server_state_machine.cpp:42-236 | Of completing and accepting a pending cancel the first wins and the other is refused |
| `ClientGoalMachine.RunSafety` | src/action_client_state_machine.cpp:21-183 | Over every event sequence a valid context stays valid, a Result closes the Goal for good, and CANCELED needs both the request and its acceptance |
| `ClientGoalMachine.MeetsMatrix` | src/action_client_state_machine.cpp:50-183 | The client reducer is the event matrices of docs/design/action/05-client-state-model.md: what is refused and why, what is ignored, and the whole next context |
| `ServerEndpointSpec.OneBinding` | src/action_server_endpoint_impl.cpp:600-1057 | Any call or poll changes the binding of at most one Goal |
| `ServerEndpointSpec.CallTouchesOwnGoal` | src/action_server_endpoint_impl.cpp:748-1057 | A call on one Goal leaves every other binding and the receive queue alone |
| `ServerEndpointSpec.ApplyKeepsSlots` | src/action_server_endpoint_impl.cpp:600-1106 | Through every operation no two Goals share a slot and every slot number is in range |
| `ServerEndpointSpec.CommitPoint` | src/action_server_endpoint_impl.cpp:973-1010 | NOT_COMMITTED leaves all state unchanged; SEND_FAILED_AFTER_COMMIT happens exactly when state, status and capacity checks pass but the header does not fit or the transport fails; otherwise the Result is sent and the binding released |
| `ServerEndpointSpec.CommittedFrozen` | src/action_server_endpoint_impl.cpp:748-1057 | After a lost Result no operation except a reset changes the binding, and the only packet that can name the Goal is the error reply to a Goal Request reusing its ID |
| `ServerEndpointSpec.CommittedForever` | src/action_server_endpoint_impl.cpp:973-1106 | Over every run without a reset the binding and slot stay held, and of all packets handed to the transport for the Goal only such duplicate-request replies occur: no retry, no response, no feedback |
| `ServerTable.MeetsTable` | src/action_server_endpoint_impl.cpp:748-1057 | The endpoint against the transaction table of docs/design/action/12-endpoint-transaction-state.md: a call the table forbids does nothing; a permitted one hands over its packet for the slot and Goal of the binding, and settles the binding exactly if it is local or was sent, a Result that was not sent leaving it committed |
| `ServerTable.AnswersTruly` | src/action_server_endpoint_impl.cpp:748-1057 | Each call answers success exactly when it was permitted and done, and SEND_FAILED_AFTER_COMMIT exactly when permitted and not done |
| `ServerTable.PollMeetsTable` | src/action_server_endpoint_impl.cpp:600-746 | A poll surfaces the head packet as a Goal Request, with its body, exactly if it is well-formed for a free ID and a free slot, as a cancel exactly if it is one for an accepted Goal in its own slot with none undecided, and sends the error reply exactly for a well-formed request that clashes |
| `ServerTable.QueueIs` | src/action_server_endpoint_impl.cpp:1088-1106 | Packets are polled in order of arrival; clearing drops packets only; a reset also frees every slot |
| `ServerEndpoint.ActionServerEndpoint.SlotTable` | src/action_server_endpoint_impl.cpp:371-380 | Slot owners and bindings are mutually inverse, and there are as many bindings as occupied slots |
| `ServerEndpoint.ActionServerEndpoint.Initialize` | src/action_server_endpoint_impl.cpp:394-598 | Starts with every slot free |
| `ServerEndpoint.ActionServerEndpoint.ReleaseBinding` | src/action_server_endpoint_impl.cpp:371-380 | Frees the slot and the binding together, keeping the inverse |
| `ServerEndpoint.ActionServerEndpoint.Poll` | src/action_server_endpoint_impl.cpp:600-746 | One packet per call: surfaced, ignored or answered with an error reply, as the value model says, keeping the inverse |
| `ServerEndpoint.ActionServerEndpoint.AcceptGoal` | src/action_server_endpoint_impl.cpp:748-776 | Moves an awaiting Goal to accepted only if its response was sent |
| `ServerEndpoint.ActionServerEndpoint.RejectGoal` | src/action_server_endpoint_impl.cpp:778-807 | Releases an awaiting Goal only if its response was sent |
| `ServerEndpoint.ActionServerEndpoint.AcceptCancel` | src/action_server_endpoint_impl.cpp:809-838 | Decides a pending cancel only if its response was sent |
| `ServerEndpoint.ActionServerEndpoint.RejectCancel` | src/action_server_endpoint_impl.cpp:868-896 | Closes a pending cancel only if its response was sent |
| `ServerEndpoint.ActionServerEndpoint.AcceptCancelLocally` | src/action_server_endpoint_impl.cpp:898-917 | Moves an accepted Goal to cancel-accepted without sending |
| `ServerEndpoint.ActionServerEndpoint.SendFeedback` | src/action_server_endpoint_impl.cpp:919-971 | Uses up a sequence number only for feedback that was sent |
| `ServerEndpoint.ActionServerEndpoint.ValidateTerminalPacket` | src/action_server_endpoint_impl.cpp:1059-1086 | Passes exactly for a status the state allows and a packet within its limits |
| `ServerEndpoint.ActionServerEndpoint.Complete` | src/action_server_endpoint_impl.cpp:973-1010 | Commits first, sends second, releases only after a successful send |
| `ServerEndpoint.ActionServerEndpoint.CompleteLocally` | src/action_server_endpoint_impl.cpp:1012-1039 | Releases the Goal without sending, under the same validation |
| `ServerEndpoint.ActionServerEndpoint.DiscardPendingGoal` | src/action_server_endpoint_impl.cpp:1041-1057 | Releases a Goal that still waits for its decision, and only such a Goal |
| `ServerEndpoint.ActionServerEndpoint.ClearPendingEvents` | src/action_server_endpoint_impl.cpp:1088-1094 | Drops queued packets and nothing else |
| `ServerEndpoint.ActionServerEndpoint.ResetContexts` | src/action_server_endpoint_impl.cpp:1096-1106 | Frees every slot and drops every packet |
| `WireGrammar.ReaderStep` | src/action_server_endpoint_impl.cpp:600-1057 | Each operation logs at most one item for a Goal, one its reader accepts in the phase that matches the binding |
| `WireGrammar.RunReadable` | src/action_server_endpoint_impl.cpp:600-1057 | Over every run the log of each episode of a Goal is readable to the phase its binding is in |
| `WireGrammar.ScanSentence` | src/action_server_endpoint_impl.cpp:748-1010 | A readable log holds one REJECT, or one ACCEPT followed by cancel REJECTs, at most one cancel ACCEPT and at most one Result, and nothing after; the status of a Result is one its cancel history allows |
| `WireGrammar.ScanCancels` | src/action_server_endpoint_impl.cpp:660-712 | Cancel responses never outnumber surfaced cancel requests |
| `WireGrammar.ScanFeedback` | src/action_server_endpoint_impl.cpp:919-971 | Sent feedback is numbered 0, 1, 2, ... without a gap |
| `WireGrammar.ScanTaken` | src/action_server_endpoint_impl.cpp:1059-1086 | The flag that decides which terminal status the reader takes is set exactly when a cancel was taken, on the wire or locally |
| `WireGrammar.GrammarOfEveryRun` | include/hakoniwa/pdu/action/action_server_endpoint.hpp:79-82 | All four together for every run, any slot count and any failed or retried sends |
| `SlotCount.OccupiedCount` | src/action_server_endpoint_impl.cpp:371-380 | A slot vector and a binding table that are inverse to each other count alike |
| `ClientEndpointSpec.FreeSlotFrom` | src/action_client_endpoint_impl.cpp:381-390 | The lowest slot nobody owns, or none when all are owned |
| `ClientEndpointSpec.ApplyKeepsSlots` | src/action_client_endpoint_impl.cpp:356-695 | Through every operation no two Goals share a slot |
| `ClientEndpointSpec.FailedSendRestores` | src/action_client_endpoint_impl.cpp:402-435 | A Goal send that fails after the reservation leaves the state as it was before |
| `ClientEndpointSpec.AllOwnedExactly` | src/action_client_endpoint_impl.cpp:381-400 | Every slot is owned exactly when there are as many bindings as slots |
| `ClientEndpointSpec.NoFreeSlotExactly` | src/action_client_endpoint_impl.cpp:376-388 | A valid unbound ID gets NO_FREE_SLOT exactly when every slot is owned |
| `ClientEndpointSpec.TimeoutIsDue` | src/action_client_endpoint_impl.cpp:652-675 | A timeout is reported only for a wait with a nonzero timeout, at or after its deadline on a clock that has not run backward |
| `ClientEndpointSpec.WaitExpiresExactly` | src/action_client_endpoint_impl.cpp:392-400 | The wait a reservation starts expires exactly after its own timeout counted from the reservation, and no other wait is affected |
| `ClientEndpointSpec.QuarantineForever` | src/action_client_endpoint_impl.cpp:667-671 | Over every run without a reset a timed-out Goal keeps its slot, its ID cannot be reserved, its slot is not handed out, and it does not time out again |
| `ClientEndpointSpec.PollsDrainTimeouts` | src/action_client_endpoint_impl.cpp:652-675 | With an empty queue and a fixed clock, repeated polls report every expired wait once in table order and then nothing |
| `ClientEndpointSpec.AscendingListsAll` | src/action_client_endpoint_impl.cpp:657-658 | Table order lists every expired Goal |
| `ClientEndpointSpec.AscendingIncreases` | src/action_client_endpoint_impl.cpp:657-658 | Table order lists no Goal twice |
| `ClientTable.SendGoalAnswers` | src/action_client_endpoint_impl.cpp:356-435 | Each of the seven answers of a Goal send has exactly its own cause |
| `ClientTable.SendGoalHandsOver` | src/action_client_endpoint_impl.cpp:402-435 | A packet is handed over exactly for SUCCESS and TRANSPORT_ERROR: a well-formed GOAL request of that Goal with the application's body for the lowest free slot, which is bound exactly if it was sent; any other answer leaves the state as it was |
| `ClientTable.SendCancelHandsOver` | src/action_client_endpoint_impl.cpp:437-497 | A CANCEL request for the slot of the binding goes out exactly for an accepted Goal, and is awaited exactly if it was sent |
| `ClientTable.PollDelivers` | src/action_client_endpoint_impl.cpp:508-650 | A poll delivers the head packet exactly when the Goal it names is bound in its slot and waits for it, by the tables of docs/design/action/12-endpoint-transaction-state.md; the binding then moves as the packet says and nothing else changes |
| `ClientTable.PollTimesOut` | src/action_client_endpoint_impl.cpp:652-675 | With nothing to deliver, a poll reports a timeout exactly for the first overdue wait in table order and quarantines that Goal alone; with none overdue nothing happens |
| `ClientTable.QueueIs` | src/action_client_endpoint_impl.cpp:678-695 | Packets are polled in order of arrival; clearing drops packets only; a reset also frees every slot |
| `ClientEndpoint.ActionClientEndpoint.SlotTable` | src/action_client_endpoint_impl.cpp:499-506 | Slot owners and bindings are mutually inverse, and there are as many bindings as occupied slots |
| `ClientEndpoint.ActionClientEndpoint.Initialize` | src/action_client_endpoint_impl.cpp:200-329 | Starts with every slot free |
| `ClientEndpoint.ActionClientEndpoint.ReleaseBinding` | src/action_client_endpoint_impl.cpp:499-506 | Frees the slot and the binding together |
| `ClientEndpoint.ActionClientEndpoint.FindFreeSlot` | src/action_client_endpoint_impl.cpp:381-383 | The scan finds the lowest free slot |
| `ClientEndpoint.ActionClientEndpoint.Reserve` | src/action_client_endpoint_impl.cpp:368-401 | Binds an ID to the slot found, or says why not, keeping the inverse |
| `ClientEndpoint.ActionClientEndpoint.SendGoal` | src/action_client_endpoint_impl.cpp:356-435 | Reserve, send and roll back as the value model says |
| `ClientEndpoint.ActionClientEndpoint.SendCancel` | src/action_client_endpoint_impl.cpp:437-497 | Commit, send and roll back as the value model says |
| `ClientEndpoint.ActionClientEndpoint.FindExpired` | src/action_client_endpoint_impl.cpp:657-663 | The scan finds the first expired wait in table order |
| `ClientEndpoint.ActionClientEndpoint.CheckTimeouts` | src/action_client_endpoint_impl.cpp:652-675 | Quarantines and reports that wait |
| `ClientEndpoint.ActionClientEndpoint.Poll` | src/action_client_endpoint_impl.cpp:508-676 | One packet per call, else one timeout, as the value model says |
| `ClientEndpoint.ActionClientEndpoint.ClearPendingEvents` | src/action_client_endpoint_impl.cpp:678-682 | Drops queued packets and nothing else |
| `ClientEndpoint.ActionClientEndpoint.ResetContexts` | src/action_client_endpoint_impl.cpp:684-695 | Frees every slot and drops every packet |
| `GoalVector.FindGoal` | src/action_services_server.cpp:47-57 | The search in the vector finds the entry of a Goal exactly when there is one |
| `GoalVector.AppendRepresents` | src/action_services_server.cpp:418-432 | Appending a Goal the vector does not hold adds it to the map the vector stands for |
| `GoalVector.UpdateRepresents` | src/action_services_server.cpp:281-327 | Overwriting an entry updates that map |
| `GoalVector.EraseRepresents` | src/action_services_server.cpp:66-77 | Erasing an entry removes exactly its Goal from that map |
| `ServerServicesSpec.OthersUntouched` | src/action_services_server.cpp:281-881 | A call changes the context and the binding of its own Goal only |
| `ServerServicesSpec.OneEndpointCall` | src/action_services_server.cpp:281-881 | Below every Services call there is at most one endpoint call, and the state of the Goal alone says which |
| `ServerServicesSpec.SubjectAgrees` | src/action_services_server.cpp:281-825 | Any call keeps contexts and bindings of its Goal in agreement, whichever sends fail |
| `ServerServicesSpec.RunSimulates` | src/action_services_server.cpp:281-825 | In every run accepted Goals are exactly the bindings past their decision, in matching states, and a pending client cancel is flagged in the endpoint |
| `ServerServicesSpec.OnlyTransportRefuses` | src/action_services_server.cpp:492-825 | Feedback succeeds exactly in EXECUTING or CANCELING with a sendable packet that was sent, a completion exactly for a status of its state with a good packet that was sent, a cancel decision exactly while one is pending in EXECUTING and, for a client cancel, if it was sent: the endpoint guard never refuses |
| `ServerServicesSpec.RefusalLeavesState` | src/action_services_server.cpp:793-817 | A refused call changes nothing, except that a lost Result leaves its Goal FINISHING |
| `ServerServicesSpec.StaleCancelFlag` | src/action_services_server.cpp:639-651 | The converse of the flag agreement fails: a run after which the endpoint flag is set with no cancel pending |
| `ServerCalls.CallExactly` | src/action_services_server.cpp:406-881 | Every call of the server Services: its answer, its packet and the endpoint it leaves are those of that endpoint call, and the contexts it leaves are told by the Goal's state and the answer |
| `ServerPolls.PollActionExactly` | src/action_services_server.cpp:362-404 | Both directions: CANCEL_REQUEST is reported exactly when the head packet is a well-formed cancel of an EXECUTING Goal in its own slot with none undecided in either layer, GOAL_REQUEST with the packet's body exactly for a free ID and slot, nothing otherwise; only a surfaced cancel changes a context |
| `ServerPolls.PollActionsExactly` | src/action_services_server.cpp:362-404 | The Actions are polled in order up to the first whose head packet is news, each once, and the others not at all |
| `ServerPolls.PollExactly` | src/action_services_server.cpp:329-404 | A poll reports the first runtime cancel that is not skipped, else the first Action's news, and leaves exactly the queue and contexts that go with it |
| `ServerPolls.SilentExactly` | src/action_services_server.cpp:329-404 | The application hears nothing exactly when no runtime cancel is to be reported and no head packet is news |
| `CancelEdges.StaleStep` | src/action_services_server.cpp:574-653 | The endpoint flag becomes stale exactly by rejecting a pending runtime cancel while a client cancel is flagged, and stops being stale exactly by a new runtime cancel, a completion that commits, or a reset |
| `CancelEdges.StaleExactly` | src/action_services_server.cpp:281-825 | Whether the flag is stale at the end of a run is exactly what those operations, each judged in the state it is applied to, leave behind: set by the one, cleared by the others, and nothing else counts |
| `CancelEdges.StaleSwallowsCancel` | src/action_server_endpoint_impl.cpp:660-712 | While the flag is stale the next client cancel is dropped without an event or an answer |
| `CancelEdges.PollRuntimeIs` | src/action_services_server.cpp:337-359 | A poll of the runtime queue reports the first cancel that is not skipped, as ERROR if its Goal has ended |
| `CancelEdges.PollRuntimeLeaves` | src/action_services_server.cpp:337-359 | Such a poll leaves the queue behind the cancel it handled, and that one Goal waiting for a decision asked for by the runtime |
| `CancelEdges.ErrorExactly` | src/action_services_server.cpp:287-297 | A poll reports ERROR for a Goal exactly when its runtime cancel is the first not skipped and the Goal is no longer accepted |
| `CancelEdges.LateIsReported` | src/action_services_server.cpp:337-359 | Every queued runtime cancel of an ended Goal is reported as ERROR after some number of polls |
| `CancelEdges.CompletedBeforeReport` | src/action_services_server.cpp:235-262 | After a disconnect notification, completing any accepted Goal before its cancel is reported, over the wire or locally, leads to that ERROR |
| `ServerServices.ActionServicesServer.AcceptGoal` | src/action_services_server.cpp:406-434 | Adds a context exactly when the endpoint accepts; the vectors keep standing for the value model |
| `ServerServices.ActionServicesServer.RejectGoal` | src/action_services_server.cpp:436-458 | Leaves contexts alone and rejects in the endpoint; the vectors keep standing for the value model |
| `ServerServices.ActionServicesServer.AcceptCancel` | src/action_services_server.cpp:492-572 | Decides by origin: over the wire for a client cancel, locally for a runtime cancel; the vectors keep standing for the value model |
| `ServerServices.ActionServicesServer.RejectCancel` | src/action_services_server.cpp:574-653 | Decides by origin, leaving the context EXECUTING; the vectors keep standing for the value model |
| `ServerServices.ActionServicesServer.SendFeedback` | src/action_services_server.cpp:655-725 | Sends only for a Goal the reducer lets publish; the vectors keep standing for the value model |
| `ServerServices.ActionServicesServer.Complete` | src/action_services_server.cpp:727-857 | Erases the context after a sent Result, leaves it FINISHING after a lost one; the vectors keep standing for the value model |
| `ServerServices.ActionServicesServer.CompleteLocally` | src/action_services_server.cpp:859-881 | Erases the context without a packet; the vectors keep standing for the value model |
| `ServerServices.ActionServicesServer.DiscardPendingGoal` | src/action_services_server.cpp:264-279 | Discards only a Goal without a context; the vectors keep standing for the value model |
| `ServerServices.ActionServicesServer.HandleCancel` | src/action_services_server.cpp:281-327 | Surfaces, ignores or fails a cancel as the reducer says; the vectors keep standing for the value model |
| `ServerServices.ActionServicesServer.PollRuntime` | src/action_services_server.cpp:329-361 | Consumes queued runtime cancels until one is reported; the vectors keep standing for the value model |
| `ServerServices.ActionServicesServer.PollAction` | src/action_services_server.cpp:362-404 | One endpoint poll of one Action; the vectors keep standing for the value model |
| `ServerServices.ActionServicesServer.Poll` | src/action_services_server.cpp:329-404 | Runtime cancels first, then the first Action with an event; the vectors keep standing for the value model |
| `ServerServices.ActionServicesServer.StopAll` | src/action_services_server.cpp:212-221 | Drops queued packets and queued runtime cancels, keeping Goals; the vectors keep standing for the value model |
| `ServerServices.ActionServicesServer.ClearAll` | src/action_services_server.cpp:223-233 | Forgets every Goal; the vectors keep standing for the value model |
| `ServerServices.ActionServicesServer.NotifyTransportDisconnected` | src/action_services_server.cpp:235-262 | Queues one runtime cancel for every accepted Goal, none twice, and nothing else; the vectors keep standing for the value model |
| `ClientServicesSpec.TakenIsSurfaced` | src/action_services_client.cpp:386-620 | A packet the endpoint takes is surfaced by Services, never answered with NOP or ERROR |
| `ClientServicesSpec.PollSurfaces` | src/action_services_client.cpp:622-687 | A poll of agreeing layers reports the endpoint event as it is and keeps the agreement |
| `ClientServicesSpec.RunMirrors` | src/action_services_client.cpp:230-687 | In every run the Services context is the image of the endpoint binding, feedback counters included |
| `ClientServicesSpec.CancelChecksAgree` | src/action_services_client.cpp:277-350 | The cancel check of Services passes exactly when the endpoint check does |
| `ClientCalls.SendGoalExactly` | src/action_services_client.cpp:230-275 | Services turns away an empty packet and the invalid ID; everything else is the endpoint's answer, packet and state, its own duplicate check never differing |
| `ClientCalls.SendCancelExactly` | src/action_services_client.cpp:277-350 | A cancel goes out for the slot of the binding exactly for an EXECUTING Goal with none pending, and is pending exactly if it was sent |
| `ClientCalls.PollActionExactly` | src/action_services_client.cpp:386-687 | What the endpoint's poll gives is what the application gets, and the contexts follow the packet: begun, counted, decided or ended |
| `ClientCalls.PollActionsExactly` | src/action_services_client.cpp:622-687 | The Actions are polled in order up to the first whose endpoint has an event, each once, and the others not at all |
| `ClientCalls.QueueIs` | src/action_services_client.cpp:193-212 | Receiving queues, stopping drops what is queued and keeps every Goal, clearing forgets everything |
| `ClientServices.ActionServicesClient.SendGoal` | src/action_services_client.cpp:230-275 | Refused for an ID that is already accepted, otherwise answered by the endpoint; no context exists before an acceptance is polled; the vectors keep standing for the value model |
| `ClientServices.ActionServicesClient.SendCancel` | src/action_services_client.cpp:277-350 | Marks the cancel pending exactly when it was sent; the vectors keep standing for the value model |
| `ClientServices.ActionServicesClient.Handle` | src/action_services_client.cpp:386-620 | Adds a context on ACCEPTED, runs the reducer on later packets and erases a finished Goal; the vectors keep standing for the value model |
| `ClientServices.ActionServicesClient.PollAction` | src/action_services_client.cpp:622-687 | One endpoint poll and its handler; the vectors keep standing for the value model |
| `ClientServices.ActionServicesClient.Poll` | src/action_services_client.cpp:622-687 | The first Action with an event; the vectors keep standing for the value model |
| `ClientServices.ActionServicesClient.StopAll` | src/action_services_client.cpp:193-201 | Drops queued packets; the vectors keep standing for the value model |
| `ClientServices.ActionServicesClient.ClearAll` | src/action_services_client.cpp:203-212 | Forgets every Goal; the vectors keep standing for the value model |
| `GoalView.OwnedKept` | src/action_server_endpoint_impl.cpp:600-1057 | For one Goal: every move of client, server and network keeps ownership, without any discipline |
| `GoalView.SoundKept` | src/action_client_endpoint_impl.cpp:356-676 | For one Goal: every guarded move also keeps the cancel token and the agreement of folded and server state |
| `GoalView.FollowedTakes` | src/action_client_endpoint_impl.cpp:508-650 | For one Goal: the client takes every packet of a Goal it still follows |
| `GoalView.ReceivedSound` | src/action_client_endpoint_impl.cpp:508-650 | For one Goal: receiving keeps all of it |
| `GoalView.PolledOwned` | src/action_server_endpoint_impl.cpp:660-746 | For one Goal: polling keeps ownership, and a Goal Request finds neither its ID nor another slot bound |
| `GoalView.CancelDecidedSound` | src/action_server_endpoint_impl.cpp:809-896 | For one Goal: answering a surfaced cancel keeps all of it |
| `GoalView.ResultSentSound` | src/action_server_endpoint_impl.cpp:973-1010 | For one Goal: a sent Result keeps all of it |
| `Composition.StepIsMove` | src/action_client_endpoint_impl.cpp:356-497 | Every step other than a client poll is at most one move of one Goal, with all other Goals untouched; a client poll takes a packet, times one Goal out, or does one after the other |
| `Composition.NoErrorReply` | src/action_server_endpoint_impl.cpp:714-745 | While ownership holds the next poll does not take the duplicate-ID or owned-slot branch |
| `Composition.RunOwned` | src/action_server_endpoint_impl.cpp:600-1057 | Ownership holds in every run |
| `Composition.RunGood` | src/action_server_endpoint_impl.cpp:600-1057 | Agreement and the cancel token hold in every run that reserves no ID with an open cancel send |
| `Composition.SafeSlotReuse` | src/action_server_endpoint_impl.cpp:714-745 | In every run every server binding has the same Goal and slot bound at the client, the error replies never fire, and every Goal Request is surfaced |
| `Composition.AgreementOfEveryRun` | src/action_client_endpoint_impl.cpp:508-650 | In every guarded run, folding the packets in flight over the client binding gives the state matching the server binding |
| `Composition.NothingDropped` | src/action_client_endpoint_impl.cpp:508-650 | In every guarded run the next packet is delivered unless its Goal timed out or was taken over |
| `CancelRace.LateSendHarmless` | src/action_client_endpoint_impl.cpp:472-486 | A late cancel packet that names another slot leaves the agreement as it is |
| `CancelRace.LatePacketIgnored` | src/action_server_endpoint_impl.cpp:660-712 | The server ignores it |
| `CancelRace.LateRollBackExactly` | src/action_client_endpoint_impl.cpp:487-495 | A late failed send leaves the agreement intact exactly if the new Goal is not waiting for a Cancel Response, or the server has finished with it and answered no cancel |
| `CancelGuard.RaceParts` | src/action_client_endpoint_impl.cpp:437-497 | From every good state in which an ID with an open cancel send is reserved, some continuation makes the client drop a Cancel Response |
| `CancelGuard.ReserveSafeExactly` | src/action_client_endpoint_impl.cpp:356-497 | A reservation is followed only by runs that drop no packet of the Goal if and only if no cancel send was open for its ID |
| `CancelGuard.RaceIsReachable` | src/action_client_endpoint_impl.cpp:437-497 | A guarded run reaches a state with an open cancel send and the ID free to be reserved |
| `ServicesLock.BlockIsCall` | src/action_services_client.cpp:247-350 | A Services call is a guarded block of endpoint steps with the server acting in between, does to the bindings what the endpoint call as a whole does, and puts into the server's queue exactly the packet that call hands over, if it was sent |
| `ServicesLock.ServicesAreDisciplined` | src/action_services_client.cpp:230-687 | Any sequence of Services calls meets the guard |
| `ServicesLock.ServicesAgree` | src/action_services_client.cpp:230-687 | Through Services the agreement holds in every run |
| `FeedbackPrefix.RunOfCalls` | src/action_client_endpoint_impl.cpp:356-676 | A client run of whole calls is a run of the endpoint |
| `FeedbackPrefix.DeliversInOrder` | src/action_client_endpoint_impl.cpp:608-649 | From any point of an endpoint run on, the feedback polled for a Goal continues where the last delivery stopped |
| `FeedbackPrefix.DeliveredIsPrefix` | src/action_client_endpoint_impl.cpp:608-649 | Under loss, duplication and reordering, with other Goals, timeouts and half-done sends, the feedback an endpoint run delivers for an ID bound once is a prefix of what any server run sent, below 2^32 packets |
| `FeedbackPrefix.SentIsUniform` | src/action_server_endpoint_impl.cpp:919-971 | The feedback of one episode is of one Goal and in one slot |
| `FeedbackPrefix.WrapAroundBreaksPrefix` | src/action_client_endpoint_impl.cpp:632-649 | From 2^32 packets on, delivering all in order and the packet whose number has come round once more breaks the prefix |
| `FeedbackPrefix.PrefixExactly` | src/action_client_endpoint_impl.cpp:608-649 | For every server run: all clients that bind the ID once deliver a prefix if and only if fewer than 2^32 packets were sent |
| `FeedbackPrefix.AnyNumberSent` | src/action_server_endpoint_impl.cpp:919-971 | There is a server run that sends any given number of feedback packets |
| `MuxSpec.OwnerIndex` | src/action_services_mux_server.cpp:542-554 | The first owner entry of an Action and Goal, or none if there is no such entry |
| `MuxSpec.SlotIndex` | src/action_services_mux_server.cpp:531-540 | The slot of a connection, or none |
| `MuxSpec.OneHolder` | src/action_services_mux_server.cpp:150-171 | Two connections never both hold an accepted Goal of the same Action and ID |
| `MuxSpec.OwnerExactly` | src/action_services_mux_server.cpp:178-196 | A connection holds an accepted Goal exactly when it is its ACTIVE owner |
| `MuxSpec.OwnerFits` | src/action_services_mux_server.cpp:397-456 | A PENDING owner has a binding waiting for its decision on its connection; a retired slot owns nothing |
| `MuxCalls.AcceptGoalInv` | src/action_services_mux_server.cpp:178-196 | The call keeps the ownership invariant, whatever the state of the connection and the send |
| `MuxCalls.RejectGoalInv` | src/action_services_mux_server.cpp:198-214 | The call keeps the ownership invariant, whatever the state of the connection and the send |
| `MuxCalls.DecideCancelInv` | src/action_services_mux_server.cpp:216-242 | The call keeps the ownership invariant, whatever the state of the connection and the send |
| `MuxCalls.SendFeedbackInv` | src/action_services_mux_server.cpp:262-279 | The call keeps the ownership invariant, whatever the state of the connection and the send |
| `MuxCalls.CompleteInv` | src/action_services_mux_server.cpp:281-305 | The call keeps the ownership invariant, whatever the state of the connection and the send |
| `MuxCalls.NoWireAfterRuntimeCancel` | src/action_services_mux_server.cpp:262-349 | For a Goal whose runtime cancel is delivered no operation tries to send |
| `MuxCalls.DeadCompletionFrees` | src/action_services_mux_server.cpp:281-305 | On a lost connection a completion succeeds exactly for a status that fits the state and a valid packet, and frees the ID |
| `MuxCalls.AcceptThenComplete` | src/action_services_mux_server.cpp:216-305 | Accepting the runtime cancel and completing with CANCELED or ABORTED always succeeds and frees the ID |
| `MuxCalls.FinishingIsStuck` | src/action_services_mux_server.cpp:281-305 | A Goal stuck in FINISHING is refused by every call, live or dead |
| `MuxCalls.PacketsStayOnOwningConnection` | src/action_services_mux_server.cpp:178-305 | Whatever a call sends goes out on the one connection that owns the Goal, and names that Goal |
| `MuxEvents.PollSlotInv` | src/action_services_mux_server.cpp:132-148 | Polling a slot keeps the ownership invariant |
| `MuxEvents.NewOwnerInv` | src/action_services_mux_server.cpp:163-171 | A surfaced Goal Request nobody owns becomes a PENDING owner, keeping the invariant |
| `MuxEvents.DuplicateInv` | src/action_services_mux_server.cpp:150-161 | A duplicate request is rejected on its own connection without touching the owner |
| `MuxEvents.DuplicateRejectExactly` | src/action_services_mux_server.cpp:150-161 | The duplicate leaves no binding behind exactly when its REJECT was sent; otherwise a binding without owner stays |
| `MuxEvents.ConnectionLostInv` | src/action_services_mux_server.cpp:373-378 | The disconnect flag may rise at any moment |
| `MuxEvents.NewConnectionInv` | src/action_services_mux_server.cpp:359-393 | A new connection gets an identity never used before and the live count stays within the expected count |
| `MuxEvents.DiscardSucceeds` | src/action_services_mux_server.cpp:419-428 | Discarding a pending Goal of a lost connection never fails |
| `MuxEvents.OrphanInv` | src/action_services_mux_server.cpp:431-443 | Orphaning keeps the invariant and leaves a runtime cancel queued for every accepted Goal |
| `MuxEvents.RetireInv` | src/action_services_mux_server.cpp:446-454 | Retiring keeps the invariant; nothing owned is lost |
| `MuxEvents.OrphanedExactly` | src/action_services_mux_server.cpp:397-494 | A processed connection is unretired exactly while it has owners, all of them ACTIVE |
| `MuxEvents.PollConsumes` | src/action_services_server.cpp:337-359 | A poll only consumes queued runtime cancels, and a reported one is out of the queue with its decision pending |
| `MuxLeftovers.CallLeftovers` | src/action_services_mux_server.cpp:178-305 | A call decides only what its own connection owns: bindings without owner stay on every connection |
| `MuxLeftovers.PollReplies` | src/action_services_server.cpp:329-404 | Every reply of a Services poll is the REJECT of the request at the head of the queue of the Action it is sent for; a surfaced request was at such a head and is bound to the slot it names |
| `MuxMoves.AdoptedMoves` | src/action_services_mux_server.cpp:365-393 | Adopting a session keeps the invariant, accepted Goals and bindings without owner, whether or not its Services start |
| `MuxMoves.TurnMoves` | src/action_services_mux_server.cpp:132-172 | A slot's turn keeps the invariant, loses and gains no accepted Goal, and leaves bindings without owner where they are |
| `MuxMoves.TurnFrame` | src/action_services_mux_server.cpp:132-172 | A slot's turn touches no other slot and no flag, and adds at most the one PENDING owner of the request it surfaces |
| `MuxMoves.TurnAnswers` | src/action_services_mux_server.cpp:132-161 | Whatever a turn sends, duplicate REJECTs and error replies alike, answers a request at the head of a queue of its own connection |
| `MuxPolls.TurnSays` | src/action_services_mux_server.cpp:137-172 | A slot's turn yields exactly what its queues say: the first runtime cancel not skipped, else the first packet its Services would surface, unless that is a request for an owned Goal |
| `MuxPolls.RoundsExactly` | src/action_services_mux_server.cpp:132-172 | Both directions: a poll is silent exactly when no slot that is not retired has anything to say, and otherwise its event is that of the first such slot |
| `MuxPolls.RoundsFinish` | src/action_services_mux_server.cpp:132-172 | Such a round keeps the invariant and accepted Goals, adds at most the owner of the request it surfaces, and every packet it sends answers a request of the connection it leaves on |
| `MuxPolls.DuplicateHides` | src/action_services_mux_server.cpp:150-161 | A duplicate request makes its slot silent for this poll even if a later Action of the connection has news |
| `MuxSweeps.AdmissionFills` | src/action_services_mux_server.cpp:351-395 | With nobody dropping, every usable session is adopted, under a new identity and with fresh Services, until the expected number is live, and none after |
| `MuxSweeps.LaidOut` | src/action_services_mux_server.cpp:397-456 | With its pending owners gone, a lost connection has owners left exactly when its Services hold accepted Goals |
| `MuxSweeps.NotifiedIsTold` | src/action_services_server.cpp:235-262 | The notification keeps every accepted Goal in its context and queues exactly one runtime cancel for each |
| `MuxProgress.RoundsReach` | src/action_services_mux_server.cpp:132-172 | While a lost connection has a Goal to report, a poll is never silent and gives no slot behind that connection a turn |
| `MuxProgress.PassProgress` | src/action_services_mux_server.cpp:119-176 | A poll reports the runtime cancel of an EXECUTING Goal on a lost connection, or leaves it to be reported with strictly less waiting in front of it |
| `MuxProgress.LossIsReported` | src/action_services_mux_server.cpp:119-176 | In every mixture of polls, arriving packets and calls on other Goals, with connections coming and going: once the polls outnumber the work in front of it and the packets and calls in between, the runtime cancel of every EXECUTING Goal of a lost connection has been reported, as coming from that connection |
| `MuxTable.NobodyHome` | src/action_services_mux_server.cpp:178-305 | A call on a Goal that nobody owns in the state it wants is refused and does nothing |
| `MuxTable.AnswersExactly` | src/action_services_mux_server.cpp:178-305 | A call on an owned Goal succeeds exactly by the Goal's state on the owning connection, the packet, the send, and whether that connection is still up |
| `MuxTable.LeavesExactly` | src/action_services_mux_server.cpp:178-305 | What a call leaves: the slot of the owning connection, retired with its last Goal if lost; the owner made ACTIVE, removed or kept; the packet on that connection; everything else as it was |
| `MuxRun.ReportIsDelivered` | src/action_services_mux_server.cpp:132-148 | A runtime cancel reported by polling a slot is delivered: its Goal is owned by that processed connection and waits for the decision |
| `MuxRun.AcceptGoalStep` | src/action_services_mux_server.cpp:178-196 | The call is a step: entries keep their connection, only a completion removes an ACTIVE one, and it sends only on the owning connection and never for a delivered Goal |
| `MuxRun.RejectGoalStep` | src/action_services_mux_server.cpp:198-214 | The call is a step: entries keep their connection, only a completion removes an ACTIVE one, and it sends only on the owning connection and never for a delivered Goal |
| `MuxRun.DecideCancelStep` | src/action_services_mux_server.cpp:216-242 | The call is a step: entries keep their connection, only a completion removes an ACTIVE one, and it sends only on the owning connection and never for a delivered Goal |
| `MuxRun.SendFeedbackStep` | src/action_services_mux_server.cpp:262-279 | The call is a step: entries keep their connection, only a completion removes an ACTIVE one, and it sends only on the owning connection and never for a delivered Goal |
| `MuxRun.CompleteStep` | src/action_services_mux_server.cpp:281-305 | The call is a step: entries keep their connection, only a completion removes an ACTIVE one, and it sends only on the owning connection and never for a delivered Goal |
| `MuxRun.OwnerOrigin` | src/action_services_mux_server.cpp:150-171 | In every run each owner entry names the connection from which the last request under its ID was surfaced |
| `MuxRun.PacketsFollowTheirRequest` | src/action_services_mux_server.cpp:178-305 | In every run a packet that a call sends for a Goal leaves only on the connection its last surfaced request came from |
| `MuxRun.RepliesAnswerTheirRequest` | src/action_services_mux_server.cpp:132-172 | In every run whatever a poll itself sends is the REJECT of the Goal Request at the head of a queue of the connection it leaves on, whose loss is not processed |
| `MuxRun.ForsakenStays` | src/action_services_mux_server.cpp:150-161 | In every run a binding without owner stays until its connection is processed, and until then no request for its ID is surfaced from there |
| `MuxRun.ForsakenBlocksSlot` | src/action_services_mux_server.cpp:150-161 | In every run, until then, no request for the endpoint slot it sits in is surfaced from there either |
| `MuxDuplicate.UnsentRejectIsReached` | src/action_services_mux_server.cpp:119-176 | A run in which two connections send one ID and the REJECT is not sent ends with such a binding, the other connection being the owner |
| `MuxDuplicate.SlotIsBlocked` | src/action_server_endpoint_impl.cpp:714-745 | Where a binding waits, the endpoint surfaces no request for its ID or its slot |
| `MuxRun.StuckForever` | src/action_services_mux_server.cpp:468-494 | In every run a Goal stuck in FINISHING keeps its owner and its slot unretired for good |
| `MuxRun.DeliveredStep` | src/action_services_mux_server.cpp:262-494 | No step forgets that a runtime cancel was delivered, except by completing the Goal |
| `MuxRun.ReportedIsDrained` | src/action_services_mux_server.cpp:262-494 | In every run, from the report of a runtime cancel until the Goal is completed, the Goal stays delivered and no call hands a packet for it to a transport |
| `MuxRun.ReportedCanBeCompleted` | src/action_services_mux_server.cpp:216-305 | Right after the report, accepting the cancel and completing with CANCELED or ABORTED succeeds and frees the ID |
| `MuxServer.QueueRuntimeCancels` | src/action_services_server.cpp:235-262 | One queued runtime cancel per accepted Goal |
| `MuxServer.ActionServicesMuxServer.Initialize` | src/action_services_mux_server.cpp:63-87 | Opens only with a nonzero expected count |
| `MuxServer.ActionServicesMuxServer.Start` | src/action_services_mux_server.cpp:89-100 | Starts only when opened |
| `MuxServer.ActionServicesMuxServer.Stop` | src/action_services_mux_server.cpp:102-117 | Drops every owner and slot, and no identity is handed out again |
| `MuxServer.ActionServicesMuxServer.FindOwner` | src/action_services_mux_server.cpp:542-554 | The search agrees with the table |
| `MuxServer.ActionServicesMuxServer.FindSlot` | src/action_services_mux_server.cpp:531-540 | The search agrees with the table |
| `MuxServer.ActionServicesMuxServer.ConnectedCount` | src/action_services_mux_server.cpp:307-316 | Counts exactly the live connections |
| `MuxServer.ActionServicesMuxServer.IsReady` | src/action_services_mux_server.cpp:324-333 | True exactly when started with the expected number live, never more |
| `MuxServer.ActionServicesMuxServer.RemoveOwnerOf` | src/action_services_mux_server.cpp:566-582 | Removes exactly the entry of the Goal |
| `MuxServer.ActionServicesMuxServer.AcceptGoal` | src/action_services_mux_server.cpp:178-196 | Routes to the owner; ACTIVE exactly when accepted; keeps the invariant |
| `MuxServer.ActionServicesMuxServer.RejectGoal` | src/action_services_mux_server.cpp:198-214 | Routes to the owner; forgets it exactly when rejected; keeps the invariant |
| `MuxServer.ActionServicesMuxServer.DecideCancel` | src/action_services_mux_server.cpp:216-242 | Routes to the ACTIVE owner, live or lost; keeps the invariant |
| `MuxServer.ActionServicesMuxServer.SendFeedback` | src/action_services_mux_server.cpp:262-279 | Routes to the ACTIVE owner of a live connection; keeps the invariant |
| `MuxServer.ActionServicesMuxServer.ReclaimOrphanedSlot` | src/action_services_mux_server.cpp:468-494 | Retires an orphaned slot exactly when its last owner is gone |
| `MuxServer.ActionServicesMuxServer.Complete` | src/action_services_mux_server.cpp:281-305 | Over the wire or locally by connection state, then forgets the owner and reclaims; keeps the invariant |
| `MuxServer.ActionServicesMuxServer.LoseConnections` | src/action_services_mux_server.cpp:373-378 | Raises exactly the disconnect flags of the connections named |
| `MuxServer.ActionServicesMuxServer.AcceptNewConnections` | src/action_services_mux_server.cpp:351-395 | Computes the value-level admission: a session is adopted exactly while there is room, whatever drops in between; accepted Goals unchanged |
| `MuxServer.ActionServicesMuxServer.AcceptOne` | src/action_services_mux_server.cpp:365-393 | Uses up an identity even if the Services fail to start |
| `MuxServer.ActionServicesMuxServer.DiscardPending` | src/action_services_mux_server.cpp:406-429 | Erases exactly the pending owners of the connection, and no discard fails |
| `MuxServer.ActionServicesMuxServer.ProcessLostSlot` | src/action_services_mux_server.cpp:401-455 | The lost connection ends orphaned with every Goal told exactly if it holds any, else cleared and retired; other slots untouched |
| `MuxServer.ActionServicesMuxServer.ProcessDisconnected` | src/action_services_mux_server.cpp:397-456 | Every lost connection is processed so, live ones and ACTIVE owners untouched, and only pending owners of lost connections are gone |
| `MuxServer.ActionServicesMuxServer.RejectDuplicate` | src/action_services_mux_server.cpp:150-161 | The duplicate is rejected on its own connection as the value model says |
| `MuxServer.ActionServicesMuxServer.GiveTurns` | src/action_services_mux_server.cpp:132-172 | The loop computes the round of turns: slots in order, retired ones skipped, until one yields |
| `MuxServer.ActionServicesMuxServer.Orphan` | src/action_services_mux_server.cpp:431-443 | Every accepted Goal of the lost connection is kept and has exactly one runtime cancel queued |
| `MuxServer.ActionServicesMuxServer.Retire` | src/action_services_mux_server.cpp:446-454 | The lost connection is cleared and retired, other slots untouched |
| `MuxServer.ActionServicesMuxServer.PollSlot` | src/action_services_mux_server.cpp:132-172 | Computes the value-level turn: a request for an owned Goal is rejected, any other becomes a PENDING owner, other events pass |
| `MuxServer.ActionServicesMuxServer.PollSlots` | src/action_services_mux_server.cpp:132-172 | Decides by the first slot with something to say, else silence; invariant and accepted Goals kept, at most one new owner, every packet sent answers a request of the connection it leaves on, and a reported runtime cancel is delivered |
| `MuxServer.ActionServicesMuxServer.Sweep` | src/action_services_mux_server.cpp:397-456 | Exactly the connections named have dropped, and all losses are processed |
| `MuxServer.ActionServicesMuxServer.Poll` | src/action_services_mux_server.cpp:119-176 | A step of the run: invariant, accepted Goals and identities kept; a surfaced Goal Request is a PENDING owner of its connection; a reported runtime cancel is delivered and waits for its decision; every packet it sends is the REJECT of a request on the connection that request came from; and it is a pass: admission, sweep, a round decided by the first slot of the swept state with something to say, and a sweep after silence |
| `MuxServer.ActionServicesMuxServer.PacketArrives` | src/action_server_endpoint_impl.cpp:572-596 | A packet on a live connection is queued for its Action, as a step that changes no owner |
| `Packet.AlignedSize` | src/action_server_endpoint_impl.cpp:18-22 | The least multiple of 8 that is not below the size |
| `Packet.DecodeEncode` | docs/design/action/06-protocol.md:144-191 | Each of the three headers is read back as it was written |
| `Packet.HandOver` | src/action_server_endpoint_impl.cpp:106-304 | What the sender cuts to wire size passes the receiver's exact check under the same limits and yields the same header; metadata, rest of the base region and heap are unchanged |
| `Packet.ValidPrefixIsLaidOut` | src/action_server_endpoint_impl.cpp:40-56 | The prefix check passes only packets that are metadata, padding, base region, heap and spare room with the fields saying so |
| `Packet.LaidOutIsValidPrefix` | src/action_server_endpoint_impl.cpp:40-56 | And of those exactly the ones whose base region is long enough |
| `Packet.SupportedExactly` | src/action_server_endpoint_impl.cpp:24-38 | Limits are supported exactly when metadata and both rounded limits together fit a signed 32-bit size |
| `Packet.CapacityExactly` | src/action_server_endpoint_impl.cpp:208-262 | On the layout: the sender's check gives the size of everything but the spare room exactly if the limits are supported and the heap is at most the least multiple of 8 not below its limit; the receiver's exactly if there is no spare room besides |
| `Packet.CapacityNeedsLayout` | src/action_server_endpoint_impl.cpp:208-262 | Any packet that is not laid out fails both checks and is not prepared |
| `Packet.PrepareFailsExactly` | src/action_server_endpoint_impl.cpp:264-304 | On the layout: a packet is prepared exactly if it passes the sender's check and its base region has room for the header, and is then the same layout with the header in front of the base region and no spare room |
| `Packet.ReadHeaderExactly` | src/action_server_endpoint_impl.cpp:70-86 | The receiver reads the header off the front of the base region, exactly if that is long enough |
| `Packet.SendableExactly` | src/action_server_endpoint_impl.cpp:264-304 | The two flags the protocol model keeps of a packet decide exactly whether its bytes can be sent |
| `Packet.CutIsNeeded` | src/action_server_endpoint_impl.cpp:234-244 | Uncut, a valid packet passes the exact check only if its buffer has no spare room |
| `Packet.WriteHeaderInPlace` | src/action_server_endpoint_impl.cpp:106-128 | The in-place write changes the header bytes and nothing else, and nothing at all when it fails |
| `Packet.GoalNumberInjective` | src/action_server_endpoint_impl.cpp:58-66 | Different 16-byte IDs have different numbers in the protocol model |
| `Packet.InvalidIsZero` | src/action_server_endpoint_impl.cpp:98-103 | The number is the invalid one exactly when all bytes are zero |
| `RpcSpec.PollKeepsAdmitted` | src/rpc_server_endpoint_impl.cpp:285-324 | A dynamic server never registers more than its limit, never a name twice, and forgets none |
| `RpcSpec.BusyResetExactly` | src/rpc_server_endpoint_impl.cpp:177-372 | A poll resets a busy client if and only if the head packet bears its name and is refused: wrong service, empty name at a dynamic server, unregistered or bad opcode at a static one, a second request, a cancel while cancelling or of another request; its running request can then no longer be answered |
| `RpcSpec.SecondRequestResets` | src/rpc_server_endpoint_impl.cpp:327-345 | A second request under the same name is answered BUSY, and the first one can no longer be answered |
| `RpcSpec.RefusalResets` | include/hakoniwa/pdu/rpc/rpc_server_endpoint_impl.hpp:53-57 | The refusal path itself: an error reply goes out exactly for a client that is not idle, and leaves it idle, so nothing it was working on can be answered |
| `RpcSpec.TimeoutMasksResponse` | src/rpc_client_endpoint_impl.cpp:173-184 | An expired call reports nothing but the timeout until a cancel is sent, even if the response has arrived; the first poll after the cancel ends the call with what that response says |
| `RpcSpec.TimeoutExactly` | src/rpc_client_endpoint_impl.cpp:151-184 | On any clock a running call times out exactly when more than its own timeout has elapsed in 64-bit arithmetic, so a clock that steps back times it out at once; never with timeout 0 |
| `RpcTable.FreshExactly` | include/hakoniwa/pdu/rpc/rpc_client_endpoint_impl.hpp:42-54 | Two buffers bear the same number exactly when a multiple of 2^32 buffers lies between them |
| `RpcTable.CallExactly` | src/rpc_client_endpoint_impl.cpp:144-164 | A call starts exactly for an idle client whose packet was sent, under the number of the newest buffer |
| `RpcTable.SendCancelExactly` | include/hakoniwa/pdu/rpc/rpc_client_endpoint_impl.hpp:55-75 | A cancel is sent exactly while running, under the number of the call |
| `RpcTable.ClientPollWaits` | src/rpc_client_endpoint_impl.cpp:166-203 | A poll takes nothing while the client is idle, out of time or unanswered |
| `RpcTable.ClientPollTakes` | src/rpc_client_endpoint_impl.cpp:184-252 | Otherwise it takes the first answer to the call and ends it: as a response, as a cancellation, or without an event if it is not made out to this client |
| `RpcTable.ServerPollExactly` | src/rpc_server_endpoint_impl.cpp:177-372 | A poll starts the head request exactly if it is let in, no cancel, and its client has nothing running; passes on a cancel exactly if it is that of the running request; any other packet of a busy client draws the error reply of its own cause; states and registry change accordingly and for that client alone |
| `RpcTable.ReplyExactly` | src/rpc_server_endpoint_impl.cpp:212-263 | A reply goes out as given exactly for a client with work, a cancel reply exactly for one being cancelled, and leaves the client idle |
| `RpcSystem.CallKeeps` | src/rpc_client_endpoint_impl.cpp:144-164 | For one client: a call, sent or not, keeps its lane good |
| `RpcSystem.CancelKeeps` | include/hakoniwa/pdu/rpc/rpc_client_endpoint_impl.hpp:55-75 | For one client: a cancel request, sent or not, keeps its lane good |
| `RpcSystem.PollClientKeeps` | src/rpc_client_endpoint_impl.cpp:166-252 | For one client: polling ends the call with its own answer or changes nothing |
| `RpcSystem.ReadKeeps` | src/rpc_server_endpoint_impl.cpp:327-372 | For one client: the server can read the next packet without refusing it |
| `RpcSystem.RunGood` | src/rpc_server_endpoint_impl.cpp:177-372 | Every step of every client, the server and the channels keeps the invariant |
| `RpcSystem.NeverRefused` | src/rpc_server_endpoint_impl.cpp:327-372 | In every run the BUSY, INVALID and mismatch branches never fire |
| `RpcSystem.QueueShape` | src/rpc_server_endpoint_impl.cpp:177-210 | In every run the requests of a client are at most stale cancel, request, its cancel |
| `RpcSystem.ExactlyOnePlace` | src/rpc_client_endpoint_impl.cpp:144-252 | In every run without a lost reply an unfinished call is in exactly one place: queued, in work, or on its way back |
| `RpcSystem.EachCallEndsOnce` | src/rpc_client_endpoint_impl.cpp:228-252 | In every run each call ends in exactly one RESPONSE_IN or RESPONSE_CANCEL with its own ID, and then both sides are idle |
| `RpcDrain.CallCanEnd` | src/rpc_client_endpoint_impl.cpp:144-252 | From every reachable state with an unfinished call of which no reply was lost, some continuation ends that call in a response with its own ID |
| `RpcDrain.CallCanBegin` | src/rpc_client_endpoint_impl.cpp:144-164 | An idle client can always make another call, which goes out under the number of its own new buffer |
| `RpcSystem.ArrivedAnswerEndsCall` | src/rpc_client_endpoint_impl.cpp:166-203 | An answer that has arrived ends the call at the next poll unless the call has timed out uncancelled |
| `RpcSystem.LateCancelIgnored` | src/rpc_server_endpoint_impl.cpp:359-364 | A cancel read while the server is idle for its client changes nothing but the queue |
| `RpcSystem.OlderBufferUnanswered` | src/rpc_client_endpoint_impl.cpp:150-153 | The answer to a packet is taken by the call exactly when the packet bears the 32-bit number of the newest buffer and no earlier response does; otherwise it changes nothing the client reports |
| `RpcEndpoints.RpcClientEndpoint.CreateRequestBuffer` | include/hakoniwa/pdu/rpc/rpc_client_endpoint_impl.hpp:42-54 | A fresh number per buffer, the running one for a cancel |
| `RpcEndpoints.RpcClientEndpoint.Call` | src/rpc_client_endpoint_impl.cpp:144-164 | Refused unless idle; rolled back if not sent |
| `RpcEndpoints.RpcClientEndpoint.SendCancelRequest` | include/hakoniwa/pdu/rpc/rpc_client_endpoint_impl.hpp:55-75 | Only while running; cancelling only if sent |
| `RpcEndpoints.RpcClientEndpoint.PutPendingResponse` | include/hakoniwa/pdu/rpc/rpc_client_endpoint_impl.hpp:81-84 | Appends a response |
| `RpcEndpoints.RpcClientEndpoint.Poll` | src/rpc_client_endpoint_impl.cpp:166-203 | The scan takes the first response of the present call and leaves the others in order |
| `RpcEndpoints.RpcClientEndpoint.HandleResponseIn` | src/rpc_client_endpoint_impl.cpp:206-252 | A bad header ends the call without an event |
| `RpcEndpoints.RpcServerEndpoint.PutPendingRequest` | include/hakoniwa/pdu/rpc/rpc_server_endpoint_impl.hpp:68-71 | Appends a request |
| `RpcEndpoints.RpcServerEndpoint.SendReply` | src/rpc_server_endpoint_impl.cpp:212-237 | Resets the state of a busy client whether or not the packet gets out |
| `RpcEndpoints.RpcServerEndpoint.SendCancelReply` | src/rpc_server_endpoint_impl.cpp:239-263 | Only while cancelling |
| `RpcEndpoints.RpcServerEndpoint.SendErrorReply` | include/hakoniwa/pdu/rpc/rpc_server_endpoint_impl.hpp:53-57 | Goes through the reply path |
| `RpcEndpoints.RpcServerEndpoint.ValidateHeader` | src/rpc_server_endpoint_impl.cpp:265-283 | Static or dynamic admission; a validated client has a state |
| `RpcEndpoints.RpcServerEndpoint.EnsureDynamicClient` | src/rpc_server_endpoint_impl.cpp:285-324 | Registers up to the limit |
| `RpcEndpoints.RpcServerEndpoint.HandleRequestIn` | src/rpc_server_endpoint_impl.cpp:327-345 | Starts work only when idle |
| `RpcEndpoints.RpcServerEndpoint.HandleCancelRequest` | src/rpc_server_endpoint_impl.cpp:347-372 | Passes on only the cancel of the running request |
| `RpcEndpoints.RpcServerEndpoint.Poll` | src/rpc_server_endpoint_impl.cpp:177-210 | One request per call, admission kept |
| `CApi.PollConserves` | src/c_action.cpp:593-621 | One poll neither drops, doubles nor reorders an event |
| `CApi.ReplyExactly` | src/c_action.cpp:593-690 | Each error has its own cause; an event is given exactly when there is one and room for it, with its own size, and comes with INTERNAL exactly if it is an ERROR event |
| `CApi.EventsExactlyOnce` | src/c_action.cpp:662-690 | Over any mix of fixed-buffer and allocating polls the events given out followed by the one held back are the events taken from Services, in order |
| `CApi.RetryGetsSameEvent` | src/c_action.cpp:46-64 | After BUFFER_TOO_SMALL the next poll with room for the reported size gets the same event without asking Services |
| `CApi.ActionHandle.PollInto` | src/c_action.cpp:593-621 | The packet lands at the front of the buffer and nothing else is written; on failure the buffer is untouched |
| `CApi.ActionHandle.CopyPdu` | src/c_action.cpp:46-64 | Copies all bytes or none |
| `CApi.ActionHandle.PollAllocating` | src/c_action.cpp:662-690 | As the value model says |
| `CApi.ActionHandle.Stop` | src/c_action.cpp:251-281 | Forgets the held event |
| `YamlText.StripCommentLoop` | tools/hako.py:115-138 | The character loop computes the text up to an unquoted hash, stripped |
| `YamlText.UnquoteEscape` | tools/hako.py:152-159 | A string written with JSON escapes is read back |
| `YamlText.ParseIntText` | tools/hako.py:161-164 | Every integer is read back |
| `Yaml.LoadSimpleYaml` | tools/hako.py:167-198 | The line loop with its stack of open mappings computes the value-level loader |
| `Yaml.CloseDownTo` | tools/hako.py:187-188 | The popping loop closes exactly the mappings the line is not part of |
| `YamlRoundTrip.ScalarRoundTrip` | tools/hako.py:141-164 | Every dumped null, bool, integer and clean string is parsed as itself |
| `YamlRoundTrip.ReadsFlat` | tools/hako.py:171-198 | Reading the lines of a mapping, at any depth, adds exactly its entries to the mapping open at that indentation |
| `YamlRefusals.TabIsRefused` | tools/hako.py:172-173 | A line is refused for tabs exactly if it has one |
| `YamlRefusals.DuplicateIsRefused` | tools/hako.py:191-192 | A key that its mapping has already is refused as a duplicate, at any depth |
| `YamlRefusals.BadScalarIsRefused` | tools/hako.py:193-194 | A bad scalar behind a new key is refused with that scalar's error |
| `YamlRefusals.SequenceIsRefused` | tools/hako.py:179-182 | A line that begins with a dash is refused as a sequence |
| `YamlRefusals.NoColonIsRefused` | tools/hako.py:183-184 | Any other line without a colon is refused |
| `YamlRefusals.NoKeyIsRefused` | tools/hako.py:185-190 | A line that begins with its colon is refused as an invalid mapping |
| `YamlRefusals.CommentIsSkipped` | tools/hako.py:174-176 | Blank lines and comments change nothing |
| `YamlRefusals.WordsInAnyCase` | tools/hako.py:141-151 | true, false and null are read exactly from their spellings in any mixture of cases, and null from a tilde |
| `YamlRefusals.SingleQuotedRead` | tools/hako.py:152-160 | Every string written between single quotes, its own quotes doubled, is read back |
| `YamlRefusals.UnclosedIsRefused` | tools/hako.py:152-154 | A quoted scalar that is not closed at its end is refused |
| `YamlRefusals.HexEscapeRead` | tools/hako.py:155-159 | A hexadecimal escape that is no surrogate is read as its character, with digits in either case; one with another character in it is refused |
| `YamlRefusals.HexExactly` | tools/hako.py:155-159 | A character counts as a hexadecimal digit exactly if it is that digit in lower or upper case |
| `YamlRefusals.SpacesAre` | tools/hako.py:141-143 | Exactly the listed characters are stripped |
| `YamlRefusals.BreaksAre` | tools/hako.py:167-171 | Exactly the listed characters end a line |
| `YamlRefusals.IntTextCanonical` | tools/hako.py:501-510 | Integers are printed with a sign exactly when negative and without leading zeros |
| `YamlLines.DumpShows` | tools/hako.py:511-524 | Blank lines aside, the dumped text has exactly the lines of the mapping, nested stripping included |
| `YamlLines.RoundTrip` | tools/hako.py:501-524 | Loading a dumped mapping with plain keys and clean strings returns it, with empty mappings anywhere |
| `YamlLimits.PieceIsHopeless` | tools/hako.py:152-159 | A line cut inside a quoted string is an error in every loader state |
| `YamlLimits.RoundTripExactly` | tools/hako.py:167-198 | With plain distinct keys the round trip holds exactly when no string holds U+0085, U+2028 or U+2029; otherwise loading fails |

## Left out

- Transport, sockets, `EndpointContainer`, `EndpointCommMultiplexer` and time sources: send results, queues, disconnect flags and clock readings are parameters or steps.
- Generated converters and `hako_create_empty_pdu`: the header layouts follow docs/design/action/06-protocol.md; the metadata is five little-endian 32-bit fields followed by padding to 24 bytes, its magic and version numbers are parameters, and buffer creation is not part of this model.
- Goal IDs are numbers in the protocol models; `Packet.GoalNumberInjective` and `Packet.InvalidIsZero` relate them to the 16 bytes. Actions are numbered by their position, and RPC names are numbers with 0 for the empty name.
- Packets in the protocol models carry the fields the endpoints look at and two flags, related to bytes by `Packet.SendableExactly`.
- Operations under a mutex are atomic steps; the client endpoint's reserve, send and rollback, and commit, send and rollback, are separate steps. Other interleavings below the level of these steps are not modelled.
- `reset_contexts` and `clear_all_instances` are in the endpoint and Services models but not in the composed system, where a reset of one side alone breaks the agreement by design.
- Composition.AgreementOfEveryRun: requires that no ID is reserved while a cancel send for it is open; the code fails the agreement otherwise, and the guard is exact (`CancelGuard.ReserveSafeExactly`).
- Composition.NothingDropped: requires the same guard, and says nothing for Goals that timed out or that the server took over locally, whose packets the client is meant to drop or never gets.
- Multiplexer slots hold the Services layer as a value rather than as an object of their own; `ServerServices.ActionServicesServer` is the object form of that value.
- MuxServer.QueueRuntimeCancels: the order of the queued runtime cancels within an Action is left open, because the value form of the Goal table keeps no order.
- MuxServer.ActionServicesMuxServer.PacketArrives: no packet arrives on a connection after its disconnect flag is raised.
- MuxServer.ActionServicesMuxServer.Stop: ends a run; the run theorems are about what happens before it.
- MuxServer.ActionServicesMuxServer.Poll: which slot is served first is the slot order; packets that keep arriving on earlier connections delay later ones, as the bound of `MuxProgress.LossIsReported` says.
- MuxProgress.LossIsReported: no call names the Goal itself before its report; one that is completed first is reported as ERROR instead (`CancelEdges.CompletedBeforeReport`).
- `pending_events_` of the server endpoint, which nothing fills.
- RpcSystem.EachCallEndsOnce: clients are known to the server from the start, the application answers each request once with the header it was given and a valid result code, and a call uses the newest buffer. A call whose reply was lost is not claimed to end.
- RpcSystem.ExactlyOnePlace: requires that no reply of this client was lost, since the server forgets the request whether or not its reply gets out.
- RpcDrain.CallCanEnd: requires the same; it says that some continuation ends the call, not that every scheduler takes it.
- Exceptions inside the C polling functions, and the mapping of event numbers.
- The loader's mappings are built on a stack of open mappings instead of through shared references; line numbers in error messages are left out.
- YamlText.ParseIntText: integers are read with ASCII digits, underscores and a sign; other Unicode digits are not modelled.
- YamlText.UnquoteEscape: escaped surrogates, which the printer never writes, are treated as errors.
- YamlRefusals.HexEscapeRead: the same; an escaped surrogate is not read.
- YAML lists, which the printer writes and the loader refuses, and floating-point scalars.
- JSON configuration, file access, logging, error names, channel numbering and the Python generators: only easy field checks.
- Python wrappers, typed adapters, futures, worker threads, static instance lists and start/stop order: thin adapters and lifetime plumbing.
- `RpcServicesMuxServer` and the RPC token maps: a simpler form of the Action multiplexer.
- The rest of tools/hako.py and all examples.
