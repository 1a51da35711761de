# Verified models of the IoT cloud server

The server keeps one channel per gateway, sends remote calls through it, runs business logic for the
gateway's devices, and writes their state to a database. Each of these is concurrent or long-lived, and
each is modelled here with proofs about every interleaving or every message sequence. `dafny verify dfyconfig.toml`
verifies the whole project.

## What is modelled

**Remote calls** (`RpcProtocol`, `RpcSafety`, `RpcProgress`, `RpcShutdown`, `RpcOutcomes`, `GatewayChannel`). A transition
system with any number of `DoRPC` calls, the reader goroutine, any number of `Close` calls and a gateway that
may send anything, one step per atomic action, with the pending objects as explicit memory. The request is
published before the call registers, the send on the unbuffered channel happens outside the lock, and `Close`
leaves the map as it is, all as in the code. A panic ends the process. The class `GatewayChannel` holds the map
and the objects and is proved, critical section by critical section, to make the steps of that system.

**Device logic** (`DeviceLogic`, `GatewayLogic`, `LogicLoading`, `LogicHistory`, `LogicTasks`, `LogicRecordings`, `LogicInterleaving`). The class
`GatewayLogic` updates camera objects and the shared user record in place; it is proved equal to functions on values,
and the theorems about message sequences are about those functions. The right-hand sides of the theorems are read
off the history (last tariff command, last streaming event, last motion report), not computed by the handlers.
`LogicTasks` tells the same from the side of the tasks: what causes each kind, and nothing else does.

**Gateway registry** (`Registry`, `Manager`). Queue names, the event fold, `Manager.Close`, and the classes that do it in place.

**Lazy loading** (`LazyLogic`, `LazyHistory`) and **status tables** (`StatusTables`, `StatusOverlap`, `StatusEffects`): `ApplyLogic` and the database updates at
statement granularity, for any number of goroutines. **Stored readings** (`SensorRounding`): rounding, printing, parsing.

## What turned out different from what one might expect

- The reader can be stopped for ever without any timeout: a second reply under the same correlation id, looked up after
  the first was received and before the entry was deleted, is enough (`DuplicateReplyStopsTheReader`). The exact condition on
  runs is `NeverDoomedIffCareful`, the exact condition on states `ReaderStuckIffCallerLeft`.
- A send on a closed channel remains reachable after the context is cancelled exactly in the states of
  `SendPanicReachableIff`, a nil envelope exactly in those of `NilEnvelopeReachableIff`: a reader that is already
  reading can meet either one after the shutdown.
- A call that received returns its reply even if Close passes before it reads; a call may return neither response nor error
  only after finding its channel closed (`NothingReturnedIff`). The reader goroutine can outlive every shutdown: `ReaderStopsIff`.
- `setRecording` compares the named mode with the stored one but never stores it (`RecordingModeNeverChanges`).
- A creation event for a gateway that is already present overwrites its channel, which is then never closed
  (`ClosedExactlyOnceIff` says that this is the only way).
- A failed load stores nil over a loaded logic, and a goroutine past its own nil test then panics. This is possible from the
  initial state on; the exact condition is `CrashReachableIff`.
- Overlapping status tasks can leave a gateway off and its devices on; the lists for which none can are those of `ConsistentIffAgree`.
- "On if and only if all devices have state 1" fails for a switched-off gateway without devices; `StatusMatchesDevices` has the exact condition.

## Model

| member | source | states |
|---|---|---|
| RpcSafety.NoStrangersReply | internal/infrastructure/broker/gatewaychannel.go:130-141 | over every interleaving, a response a call returns was delivered under that call's own correlation id |
| RpcSafety.ReturnedOutcomes | internal/infrastructure/broker/gatewaychannel.go:254-280 | never both response and error; neither only if Close closed the call's object; write error iff nothing was ever registered |
| RpcSafety.PendingMapExact | internal/infrastructure/broker/gatewaychannel.go:260-277 | the map's keys are exactly the calls between registration and deletion, each with its own unshared object; empty once all calls returned, also after Close |
| RpcSafety.PendingMapSize | internal/infrastructure/broker/gatewaychannel.go:260-277 | registrations minus deletions equals the size of the map |
| RpcSafety.NoDanglingReference | internal/infrastructure/broker/gatewaychannel.go:131-140 | every object address held by the map, the reader or a call is allocated |
| RpcSafety.InvAlways | internal/infrastructure/broker/gatewaychannel.go:242-281 | the inductive invariant (objects unshared, map exact, data belongs to the owner) holds in every state of every run |
| RpcProgress.ReaderStuckIffCallerLeft | internal/infrastructure/broker/gatewaychannel.go:131-140 | without Close, the reader at its send is stuck in all continuations iff the call it found has left its select |
| RpcProgress.DoomedForEver | internal/infrastructure/broker/gatewaychannel.go:135-138 | once its call has left, the reader handles no further envelope in any continuation without Close |
| RpcProgress.CompletionDelivers | internal/infrastructure/broker/gatewaychannel.go:135-138 | while the call can still receive, explicit steps deliver to it the very reply the reader holds |
| RpcProgress.NeverDoomedIffCareful | internal/infrastructure/broker/gatewaychannel.go:131-140 | a run without Close avoids a stuck reader iff no lookup finds a departed call and no call times out while the reader holds it; once stuck it ends stuck |
| RpcProgress.FoundCallsAreDelivered | internal/infrastructure/broker/gatewaychannel.go:131-138 | in any run the successful lookups, call and reply, are in order the deliveries to that call of that reply, plus the one still in the reader's hands |
| RpcProgress.DuplicateReplyStopsTheReader | internal/infrastructure/broker/gatewaychannel.go:131-140 | two replies under one id stop the reader for ever, with no timeout and no Close |
| RpcProgress.FirstCallWaits | internal/infrastructure/broker/gatewaychannel.go:254-267 | publish, register and select lead to the state from which that happens |
| RpcShutdown.AtMostOneMoreEnvelope | internal/infrastructure/broker/gatewaychannel.go:114-127 | after the cancel at most one more envelope is consumed, and only one the reader was already waiting for |
| RpcShutdown.SendPanicReachableIff | internal/infrastructure/broker/gatewaychannel.go:87-95 | in every live cancelled state, a send on a closed channel is reachable iff the reader is past its context check with an envelope that can still name a live call, or holds an object that is closed already |
| RpcShutdown.DoubleCloseIff | internal/infrastructure/broker/gatewaychannel.go:90-95 | a run ends in a double close iff its last step is a pass of Close over an entry that an earlier pass met with the same object |
| RpcShutdown.NilEnvelopeReachableIff | internal/infrastructure/broker/amqpreader.go:78-117 | in every live state, a nil envelope can still be dereferenced iff the reader is reading, cancelled or not, or is not cancelled and does not hold the object of a call that has left |
| RpcShutdown.NilEnvelopeNeedsEnd | internal/infrastructure/broker/amqpreader.go:83-117 | no run dereferences a nil envelope unless the broker ended the stream |
| RpcShutdown.CallMakesFewSteps | internal/infrastructure/broker/gatewaychannel.go:254-280 | in any interleaving a published call makes at most five more steps, each lowering its rank |
| RpcShutdown.CallIsNeverBlocked | internal/infrastructure/broker/gatewaychannel.go:266-280 | a call that has not returned always has an enabled step of its own that needs nobody else |
| RpcOutcomes.RunShows | internal/infrastructure/broker/gatewaychannel.go:130-141 | in every state of every run a call's object holds the reply stored last for it, read off the actions alone, and its phase and result fit the one ending it had |
| RpcOutcomes.OneEnding | internal/infrastructure/broker/gatewaychannel.go:254-280 | a call that has returned had exactly one of four endings: write failed, timed out, received, found its channel closed |
| RpcOutcomes.ReturnsByItsEnding | internal/infrastructure/broker/gatewaychannel.go:254-280 | write failure and timeout iff that error alone; received or closed iff it returns, without error, what was stored for it when it read; one that received always returns a reply, also when Close passed in between |
| RpcOutcomes.NothingReturnedIff | internal/infrastructure/broker/gatewaychannel.go:266-280 | neither response nor error iff the call found its channel closed and read while nothing was stored |
| RpcOutcomes.CloseWakes | internal/infrastructure/broker/gatewaychannel.go:266-280 | a waiting call whose channel was closed returns in three steps of its own with what its object holds |
| RpcOutcomes.ReaderStopsIff | internal/infrastructure/broker/gatewaychannel.go:107-141 | the reader goroutine can still end iff it does not hold an object whose call has left or whose channel is closed |
| RpcOutcomes.StoppedIffTested | internal/infrastructure/broker/gatewaychannel.go:111-127 | over any run the reader has stopped iff one of its context tests came after a cancel; read errors and close notices never stop it |
| RpcOutcomes.FlagsFollowActions | internal/infrastructure/broker/gatewaychannel.go:87-95 | cancelled iff Stop or Close was called, stream ended iff the broker ended it, pending passes are the Close calls not yet through |
| GatewayChannels.GatewayChannel.Register | internal/infrastructure/broker/gatewaychannel.go:260-264 | stores a fresh object under the id: the registration step on the concrete map and objects |
| GatewayChannels.GatewayChannel.Release | internal/infrastructure/broker/gatewaychannel.go:274-277 | removes just that entry: the deletion step |
| GatewayChannels.GatewayChannel.Lookup | internal/infrastructure/broker/gatewaychannel.go:133-136 | finds the entry's object or nothing: the lookup step |
| GatewayChannels.GatewayChannel.Store | internal/infrastructure/broker/gatewaychannel.go:137 | writes one object's data: the step that makes the reader a sender |
| GatewayChannels.GatewayChannel.Response | internal/infrastructure/broker/gatewaychannel.go:268-269 | reads the object's data, closed or not: the response the call's next phase carries |
| GatewayChannels.GatewayChannel.Cancel | internal/infrastructure/broker/gatewaychannel.go:231-233 | only the context changes |
| GatewayChannels.GatewayChannel.CloseEach | internal/infrastructure/broker/gatewaychannel.go:92-94 | in any map order: panics iff some entry was closed already, otherwise closes exactly the entries' objects |
| GatewayChannels.GatewayChannel.ClosePendingCalls | internal/infrastructure/broker/gatewaychannel.go:91-95 | is the closing step of the machine, panic included, and keeps the map |
| DeviceLogic.GetLabel | internal/domain/entities/iotmessage.go:94-96 | same length, spaces replaced by underscores, all else kept |
| GatewayLogics.LoadedFromLastRow | internal/domain/logic/gatewaylogic.go:86-102 | a camera is loaded iff it has a row, from the last one it has |
| GatewayLogics.LoadedIsInitial | internal/domain/logic/gatewaylogic.go:86-102 | loading leaves every camera under its own id without target and without motion |
| LogicLoading.CameraAsDescribed | internal/domain/logic/gatewaylogic.go:86-102 | a camera is loaded field by field as its last row says, in the mode its recording column names, none for a null |
| LogicLoading.SensorAsDescribed | internal/domain/logic/gatewaylogic.go:119-153 | a sensor is loaded from its last row, each of its labels from the last inner row with that label |
| GatewayLogics.GatewayLogic.LoadParams | internal/domain/logic/gatewaylogic.go:44-172 | succeeds iff no query, row, inner query or the notice fails; the objects built by the row loops then show exactly the loaded parameters, and after a failure exactly what was read before it |
| GatewayLogics.GatewayLogic.AddCamera | internal/domain/logic/params/paramsmap.go:17-21 | one more camera object, all others untouched |
| GatewayLogics.GatewayLogic.ProcessCameraState | internal/domain/logic/cameralogic.go:30-78 | in-place effect, started tasks and error of a camera state message |
| GatewayLogics.GatewayLogic.ProcessCameraData | internal/domain/logic/cameralogic.go:80-113 | the same for camera data |
| GatewayLogics.GatewayLogic.ProcessCameraCommand | internal/domain/logic/cameralogic.go:115-160 | the same for camera commands |
| GatewayLogics.GatewayLogic.ProcessSensorData | internal/domain/logic/sensorlogic.go:28-66 | the same for sensor data |
| GatewayLogics.GatewayLogic.Process | internal/domain/logic/gatewaylogic.go:190-237 | dispatch by message and device type; nothing at all for a blocked user |
| GatewayLogics.GatewayLogic.SetPush | internal/domain/logic/gatewaylogic.go:240-242 | only the push flag changes |
| GatewayLogics.GatewayLogic.TakeAll | internal/domain/logic/gatewaylogic.go:190-242 | on any sequence of inputs the object ends in the folded state and starts the folded log |
| LogicHistory.Constants | internal/domain/logic/cameralogic.go:30-160 | no history changes which cameras and sensors there are, their identity, mode and schedule, or the blocked flag |
| LogicHistory.RecordingModeNeverChanges | internal/domain/logic/cameralogic.go:121-157 | every camera keeps the recording mode it was loaded with |
| LogicHistory.UserRefinement | internal/domain/logic/cameralogic.go:125-131 | the user record carries tariff, money, vip and legal entity of the last tariff command and the push switch last set |
| LogicHistory.TargetRefinement | internal/domain/logic/cameralogic.go:39-65 | the stored media server is that of the last accepted streamingOn or cleared by the last streamingOff, with the tariff in force at that moment |
| LogicHistory.UnsetTargetIsEmpty | internal/domain/logic/cameralogic.go:50-62 | not set implies both strings are empty |
| LogicHistory.MotionRefinement | internal/domain/logic/cameralogic.go:86-88 | motion in process is what the last detector message of a motion-mode camera said |
| LogicHistory.StopAddressesLatestStart | internal/domain/logic/cameralogic.go:54-75 | a streamingOff stops a recording iff the camera is being recorded, on the server of the latest accepted start since the previous stop, or on none |
| LogicTasks.TasksHaveCauses | internal/domain/logic/gatewaylogic.go:190-237 | after every history, an input starts a task iff it is a cause of it: for each of the eight kinds, which messages, and the exact message the task runs on |
| LogicTasks.EachKindOnce | internal/domain/logic/gatewaylogic.go:190-237 | no input starts two tasks of one kind, and the update of the camera's row comes first |
| LogicTasks.StateMessageTasks | internal/domain/logic/cameralogic.go:30-78 | every state message of a loaded camera, whatever its state, starts exactly one row update on the message as it came, nothing else does; a recording task besides iff the camera is being recorded and the message is an accepted streamingOn (a start on its own server) or a streamingOff (a stop) |
| LogicTasks.CommandTasksIff | internal/domain/logic/cameralogic.go:115-160 | a command starts a recording iff it goes from motion to continuous, or out of the online tariff in an unchanged mode, for a user its own fields allow to record; stops one iff continuous to motion, or down to the online tariff; on that camera and the server its stream is on |
| LogicTasks.ErrorsIff | internal/domain/logic/gatewaylogic.go:190-237 | which messages fail with which error, and that no other does |
| LogicRecordings.StartsAndStopsPair | internal/domain/logic/cameralogic.go:44-75 | for a continuous camera with alternating events, recording tasks form start/stop pairs on the same server, one per event |
| LogicRecordings.StartsAreCovered | internal/domain/logic/cameralogic.go:44-156 | every start, anywhere in any run, is emitted while CanBeRecorded holds, except for motion reports of motion-mode cameras |
| LogicRecordings.PushesFollowTheSwitch | internal/domain/logic/cameralogic.go:101-110 | a push goes out only with the switch on, for a report of "on", naming the device that sent it |
| LogicRecordings.BlockedIsSilent | internal/domain/logic/gatewaylogic.go:195-199 | nothing unblocks a user, and a blocked user's gateway never starts anything |
| LogicRecordings.CommandStep | internal/domain/logic/cameralogic.go:133-156 | a command starts at most one recording task; a tariff-only one stops iff it lowers the tariff from above online to online |
| LogicRecordings.DowngradeStopsAreBounded | internal/domain/logic/cameralogic.go:144-155 | downgrade stops of all cameras are at most the raises above online, plus one if the user started above |
| LogicInterleaving.StepIsLocal | internal/domain/logic/cameralogic.go:30-113 | a message changes nothing another device can see |
| LogicInterleaving.StepIsDetermined | internal/domain/logic/cameralogic.go:30-113 | a message does the same in states that agree on its device and the shared records |
| LogicInterleaving.Projection | internal/infrastructure/broker/gatewaychannel.go:143-144 | what a device sees of a run is the run of its own messages |
| LogicInterleaving.InterleavingsAgree | internal/infrastructure/broker/gatewaychannel.go:143-144 | two interleavings of the same per-device sequences reach the same state with the same per-device logs |
| LogicInterleaving.DistinctDevicesCommute | internal/infrastructure/broker/gatewaychannel.go:143-144 | adjacent messages of different devices can be swapped |
| LogicInterleaving.CommandCommutesIff | internal/domain/logic/cameralogic.go:44-48 | a tariff command commutes with another device's message unless that is a streamingOn whose acceptance it decides |
| Registry.SplitJoin | internal/infrastructure/broker/manager.go:213-215 | splitting undoes joining of dot-free parts |
| Registry.JoinSplit | internal/infrastructure/broker/manager.go:213-215 | joining undoes splitting of any queue name |
| Registry.QueueNames | internal/infrastructure/broker/amqpreader.go:28 | an .in queue names exactly its gateway, an .out queue none |
| Registry.GatewayIffInbox | internal/infrastructure/broker/manager.go:213-215 | an event is about a gateway iff its queue is `<gateway>.in`, alone or followed by a dot and anything |
| Registry.LastEventWins | internal/infrastructure/broker/manager.go:197-232 | the map holds exactly the gateways whose last event is a creation, each with the channel that event opened |
| Registry.CreationsOpenChannels | internal/infrastructure/broker/manager.go:216-220 | each creation opens exactly one channel |
| Registry.ChannelConservation | internal/infrastructure/broker/manager.go:216-228 | opened = in the map + closed by deletion + overwritten |
| Registry.ClosedExactlyOnceIff | internal/infrastructure/broker/manager.go:75-84 | after Manager.Close none is closed twice, and all exactly once iff no creation hit a present gateway |
| Registry.OwnQueuesAreInvisible | internal/infrastructure/broker/manager.go:213-215 | events of the server's own queues, wherever inserted, leave the run unchanged |
| Registry.RegisteredQueuesAreOwn | internal/infrastructure/broker/amqpreader.go:28 | the queue the server declares for any registered gateway is one of those |
| Managers.GatewayChannelsMap.Add | internal/infrastructure/broker/gatewaychannelsmap.go:28-32 | one entry added or replaced |
| Managers.GatewayChannelsMap.Get | internal/infrastructure/broker/gatewaychannelsmap.go:35-42 | the entry's channel, or nil |
| Managers.GatewayChannelsMap.Remove | internal/infrastructure/broker/gatewaychannelsmap.go:45-49 | one entry removed |
| Managers.GatewayChannelsMap.GetChannels | internal/infrastructure/broker/gatewaychannelsmap.go:52-62 | as many nils as entries, then every channel once, in some order |
| Managers.Manager.Create | internal/infrastructure/broker/manager.go:217-220 | opens a new channel, starts it exactly once and stores it |
| Managers.Manager.Delete | internal/infrastructure/broker/manager.go:221-227 | closes and forgets the stored channel, if any |
| Managers.Manager.HandleEvent | internal/infrastructure/broker/manager.go:207-230 | one event on the objects is one event on the registry; afterwards every channel ever opened has been started exactly once |
| Managers.Manager.ProcessExchangeEvents | internal/infrastructure/broker/manager.go:197-231 | the loop over any stretch of the stream is the fold over its events; read errors change nothing |
| Managers.Manager.Close | internal/infrastructure/broker/manager.go:75-84 | closes every mapped channel once despite the nil prefix, and no other |
| LazyLogic.NoticesAndInstances | internal/infrastructure/broker/gatewaychannel.go:151-205 | notices are at most the instances made, these at most the goroutines that read nil; equal iff every instance was announced, as without failing or unfinished loads; a visible logic always was announced |
| LazyLogic.LogicNeverGoesAway | internal/infrastructure/broker/gatewaychannel.go:155-190 | if no load fails, the logic once set stays set and no call goes through nil |
| LazyLogic.ProcessedExactlyOnce | internal/infrastructure/broker/gatewaychannel.go:151-195 | if no load fails, every finished message not rejected by the existence check is processed exactly once, by an announced instance; none that passed the check is rejected |
| LazyLogic.OneInstanceIfSerial | internal/infrastructure/broker/gatewaychannel.go:151-196 | handled one at a time, at most one instance is created, and exactly one once a message was processed |
| LazyLogic.CrashReachableIff | internal/infrastructure/broker/gatewaychannel.go:151-196 | from any uncrashed state, a call through nil is reachable iff the logic is not set or some goroutine that read nil has not yet loaded successfully |
| LazyLogic.FailedLoadUnderAnotherCall | internal/infrastructure/broker/gatewaychannel.go:172-190 | the step behind it: any load that can still fail, under a goroutine about to call the logic, leads to a call through nil |
| LazyLogic.LogicHolder.CreateLogic | internal/infrastructure/broker/gatewaychannel.go:199-205 | a new instance if the rows are read, its notice if the write succeeds too, and the pointer only with both |
| LazyLogic.LogicHolder.ApplyLogic | internal/infrastructure/broker/gatewaychannel.go:151-196 | undisturbed: verdict, logic, instances and notices in each case of logic set, answer and outcome of the load, and a run of that goroutine alone |
| LazyHistory.RunDecides | internal/infrastructure/broker/gatewaychannel.go:151-205 | after any run the channel shows the instance of the last goroutine that assigned, or nil if its load failed; instances and notices are the successful loads and writes; every verdict is read off the run |
| LazyHistory.TurnedAwayIff | internal/infrastructure/broker/gatewaychannel.go:157-169 | a message ends as not registered iff its gateway was missing and as check failed iff the query failed, and then makes, announces, assigns and uses nothing |
| LazyHistory.OnlyNilReadersLoad | internal/infrastructure/broker/gatewaychannel.go:155-181 | only a message whose first test read nil asks the database, loads or assigns |
| StatusTables.ColumnsHoldLastWrite | internal/infrastructure/tasks/updategatewaystatus.go:51-92 | every column holds what its last writer wrote |
| StatusTables.InterleavingIsATrace | internal/infrastructure/tasks/updategatewaystatus.go:51-92 | any interleaving of tasks is a statement sequence, so the above covers it |
| StatusTables.StatusMatchesDevices | internal/infrastructure/tasks/updategatewaystatus.go:51-75 | without overlap gateway and devices agree once they did or one task has run; "on iff all devices on" holds iff the gateway has a device or is on |
| StatusEffects.StatusTaskWrites | internal/infrastructure/tasks/updategatewaystatus.go:26-93 | row by row: the gateway's status, its devices' state, its cameras for an off; nothing for a bad id or status, nothing of another gateway |
| StatusEffects.CameraTaskWrites | internal/infrastructure/tasks/updatecamerastate.go:25-60 | row by row: on air iff on or streamingOn; the server columns for streaming states only; nothing without a sender |
| StatusEffects.StateMessageReachesTheRow | internal/domain/logic/cameralogic.go:30-78 | from the message of any history to the camera's row: on air iff on or streamingOn, whatever the tariff; a streamingOn writes its own server |
| StatusOverlap.OffTaskClearsCameras | internal/infrastructure/tasks/updategatewaystatus.go:77-92 | once an off task has completed, under any further interleaving of status and camera tasks, a camera of its gateway is on air iff the last write of its column since then is a camera task switching it on; with status tasks alone never |
| StatusOverlap.ConsistentIffAgree | internal/infrastructure/tasks/updategatewaystatus.go:26-75 | for any list of status messages: every complete interleaving ends consistent iff no two valid messages of the gateway differ in status, or it has no device; without a valid message, iff it was consistent before |
| StatusOverlap.OverlapBreaksStatus | internal/infrastructure/tasks/updategatewaystatus.go:51-75 | the smallest case: two overlapping tasks can leave the gateway off and its devices on |
| StatusTables.OnlyStreamingOffRaces | internal/infrastructure/tasks/updatecamerastate.go:25-60 | the shared message's rewrite is visible to the database only for streamingOff, where the values are the incoming or the restored ones |
| StatusTables.Database.ExecContext | internal/infrastructure/tasks/updategatewaystatus.go:52-60 | a failing statement changes nothing, a succeeding one exactly its rows |
| StatusTables.UpdateGatewayStatus | internal/infrastructure/tasks/updategatewaystatus.go:26-93 | executes the succeeding statements of its program in order, the whole program if all succeed, none for a bad id or status |
| StatusTables.UpdateCameraState | internal/infrastructure/tasks/updatecamerastate.go:25-60 | executes its one statement, if it succeeds, with each rewritten field read before or after the rewrite; none without a sender |
| SensorRounding.RoundingError | internal/infrastructure/tasks/storesensordatamysql.go:42 | at most 1/200, and on a tie away from zero |
| SensorRounding.RoundingIsMonotone | internal/infrastructure/tasks/storesensordatamysql.go:42 | order is kept |
| SensorRounding.RoundingIsOdd | internal/infrastructure/tasks/storesensordatamysql.go:42 | commutes with negation |
| SensorRounding.RoundingIsIdempotent | internal/infrastructure/tasks/storesensordatamysql.go:42 | rounding twice is rounding once |
| SensorRounding.PrintThenParse | internal/infrastructure/tasks/storesensordatamysql.go:42 | the printed text parses to the same sign and hundredths |
| SensorRounding.ParseIffSpelt | internal/infrastructure/tasks/storesensordatamysql.go:41 | a text parses to a decimal iff it is a sign or none, digits, and a point with more digits or none |
| SensorRounding.StoredValueIsRounded | internal/infrastructure/tasks/storesensordatamysql.go:38-44 | the text stored for a long reading parses to exactly the rounded reading, sign included |
| SensorRounding.StoredAsItCame | internal/infrastructure/tasks/storesensordatamysql.go:38-44 | readings of at most ten characters or that spell no decimal are stored as they came, all others as the canonical text of the rounded value with two decimals |
| SensorRounding.StoringIsIdempotent | internal/infrastructure/tasks/storesensordatamysql.go:38-44 | storing a stored text again changes nothing |

## Left out

- Managers.Manager.Create: takes the construction of a channel to succeed; a nil channel would panic in Start.
- LogicInterleaving.InterleavingsAgree: takes each handler as one atomic step; races on single fields inside handlers are not modelled.
- SensorRounding.StoredValueIsRounded: over reals and plain decimal syntax; binary floating point, exponents, infinities and hexadecimal input are not modelled.
- RpcShutdown.CallIsNeverBlocked: the timeout is a step that is enabled whenever a call waits; wall-clock time is not modelled.
- RpcSafety.NoStrangersReply: correlation ids are taken to be non-empty and new, as UUIDs are; memory is sequentially consistent.
- StatusTables.UpdateGatewayStatus: whether a gateway id parses as a UUID is an input.
- The AMQP, HTTP, SQL, InfluxDB, Wowza and OneSignal clients: foreign calls, present as environment steps or as the tasks that would make them.
- JSON decoding of messages and of sensor descriptions: a decoding failure is an environment step, a description arrives decoded.
- Timestamps, vendor and version fields of cloud messages: nothing reads them.
- The nil checks and type assertions on parameter maps: typed maps cannot fail them.
- The REST handlers, RestartGateways, configuration, logging and main: calls into the parts above and nothing harder.
- The schedule recording mode: its schedule string is stored and never interpreted, as in the code.
