# AWS IoT Device Client: a verified model

The device client keeps MQTT subscriptions, secure tunnels and running jobs consistent while connections are lost,
resumed and shut down by different threads.  This project models the parts of it where that is hard, and proves what
they guarantee over every run.

The modules follow the source.

- **Jobs subscriptions** (`JobsRecovery`, `JobsSystem`, `JobsProperties`).  `JobsRecovery` has the fields that the
  feature guards with its recovery lock, each critical section as a function, and the class that runs the sections on
  mutable fields.  `JobsSystem` is the transition system in which any number of resume, retry, handler and stop
  threads, the startup thread and the MQTT client interleave at lock granularity; its invariant is kept by every step.
  `JobsProperties` has the theorems, and the runs that show where a guarantee ends.
- **Secure tunnels** (`TunnelContext`, `TunnelFeature`, `TunnelRecovery`, `TunnelStop`, `TunnelDuplicates`).  The life
  cycle of one tunnel, the feature with its generation windows, the recovery of the notification subscription, and the
  feature together with all its tunnels while stop() calls run.
- **TCP forward** (`TcpForward`, `TcpForwardSystem`).  The byte stream between a tunnel and the local socket, with
  stop requests from other threads.
- **Update responses** (`PendingUpdates`), **backoff** (`Retry`), **bounded output** (`LimitedStreamBuffer`),
  **sensor buffer** (`Sensor`), **command parser** (`CommandParser`) and **step runner** (`JobEngine`).

Each class method is proved equal to a function of its inputs and the old state.  The systems take these same functions
as their steps, and the theorems are about the systems.  The environment (SDK answers, socket results, clocks, exit codes, thread
schedules) is an input, as free as the code allows.

Some guarantees hold only under a condition.  For these there is a concrete run or value that breaks the guarantee and
a lemma that gives the exact condition:

- A handler tests the stop flag before it takes the lock.  A lost session that is reported after the flag was set is
  ignored, so such a handler may admit a job although no subscription exists (`JobAdmittedWithoutSubscriptions`).
- Of two overlapping stop() calls the second may return while the first still joins the startup thread
  (`OverlappingStopReturnsEarly`).  The shipped client calls stop() from one thread and once (source/main.cpp, lines
  138 to 147), for which `NothingAfterSingleStop` needs no condition.
- A publish call that takes more than five seconds lets another thread sweep a promise that is waited for
  (`SlowPublish`, `WaitsAreSafeIff`); one of fifteen seconds loses it before the lookup, which then throws
  (`LostPromise`, `LookUpsSucceedIff`).
- The handler of a rejected update goes on after it has found the token unknown, and throws; so do both handlers on a
  second response (`LateRejection`, `SecondResponse`, `RejectionThrowsIff`, `AcceptanceThrowsIff`).
- A sensor that batches announces bytes twice as soon as more messages are queued than one batch holds
  (`BatchesRepeat`, `RunConservesIff`), and its buffer can stay full (`BatchesLeaveFull`, `LeftFullIff`).
- `allowStdErr` never makes a step fail; the documentation (source/jobs/README.md, lines 318 to 327) says it does
  (`TooManyErrorLines`, `NoStepAsDocumented`, `DocumentedVerdictIff`).  The model follows the code.
- The first repetition of a tunnel notification is taken on again if no tunnel was open before (`RepeatIgnoredIff`);
  while connects fail, so is every further one (`RepeatsFromNone`).
- A tunnel subscription requested in the current session is refused if the session began after its generation was read
  (`StaleRequest`, `CurrentRequestRefusedIff`).
- Outside the event loop's serialization, data sent between marking the connection and flushing the buffer overtakes
  the buffer (`EarlySendReorders`, `SendsKeepOrderIff`).

## Model

| member | source | states |
|---|---|---|
| `JobsRecovery.JobsFeature.OnConnectionResumed` | source/jobs/JobsFeature.cpp:149-192 | A resume polls if and only if the client is ready, runs, and has lost nothing; it opens a batch under a new generation if and only if something is lost; before that it only notes the loss. |
| `JobsRecovery.JobsFeature.CompleteRecoverySubscription` | source/jobs/JobsFeature.cpp:294-365 | Stale, duplicate and late completions change nothing; the last of five restores or fails the batch. |
| `JobsRecovery.JobsFeature.RetrySubscriptionRecovery` | source/jobs/JobsFeature.cpp:394-414 | A retry opens a new batch under the same test, and otherwise changes nothing. |
| `JobsRecovery.JobsFeature.FinishStartup` | source/jobs/JobsFeature.cpp:1032-1072 | The startup thread publishes readiness, and opens a batch if a subscription is missing. |
| `JobsRecovery.JobsFeature.StopRecovery` | source/jobs/JobsFeature.cpp:1154-1168 | The stop section closes the gate, drops the batch and outdates every callback. |
| `JobsRecovery.StartupSubscriptionResult.Complete` | source/jobs/JobsFeature.h:249-259 | The first of acknowledgement, queue failure and cancel decides a startup result. |
| `JobsRecovery.MaskInsert` | source/jobs/JobsFeature.cpp:43-47 | The completion mask represents a set: setting one subscription's bit inserts exactly that subscription. |
| `JobsSystem.StepKeeps` | source/jobs/JobsFeature.cpp:149-414 | Every step of every thread keeps the ten-part invariant: accounts, locking, ownership, retries, progress, sessions, acknowledgements, startup results, shutdown, join. |
| `JobsSystem.RunKeeps` | source/jobs/JobsFeature.cpp:942-1175 | The invariant holds after any interleaving of any length. |
| `JobsProperties.BatchHasOneGeneration` | source/jobs/JobsFeature.cpp:194-277 | Whatever runs beside it, all requests of a batch carry the generation it was opened under, which is still current when the last one has been made. |
| `JobsSystem.CompletionKeepsProgress` | source/jobs/JobsFeature.cpp:294-365 | A completion takes away only its own ticket: each subscription still missing keeps an answer on its way. |
| `JobsProperties.OpenGateMeansSubscribed` | source/jobs/JobsFeature.cpp:149-192 | While the client is ready and needs no recovery, all five subscriptions were acknowledged with code 0 since the last lost session, if and only if no loss was reported after the stop flag. |
| `JobsProperties.StartNextOnlyWhenSubscribed` | source/jobs/JobsFeature.cpp:335-345 | Whoever publishes a start-next request, all five subscriptions are acknowledged in the current session. |
| `JobsProperties.JobAdmittedOnlyWhenSubscribed` | source/jobs/JobsFeature.cpp:585-607 | A handler admits a job only with all subscriptions in place, if and only if no loss was ignored; without the stop flag always. |
| `JobsProperties.JobAdmittedWithoutSubscriptions` | source/jobs/JobsFeature.cpp:533-555 | A run in which a job is admitted with no subscription at all. |
| `JobsProperties.RecoveryNeverStuck` | source/jobs/JobsFeature.cpp:176-277 | While recovery is needed, each missing subscription has its request ahead or an unanswered one whose acknowledgement is possible and counts with any code; or the batch has failed and exactly one retry of this generation exists and will be allowed. |
| `JobsProperties.ResumeLeadsTo` | source/jobs/JobsFeature.cpp:149-192 | On a ready, running feature a resume leads to a start-next request that is enabled, if session and subscriptions were kept, and otherwise to the request for the first subscription under the next generation. |
| `JobsProperties.StartupLeadsTo` | source/jobs/JobsFeature.cpp:1032-1072 | The end of the startup makes the client ready and leads to the same two ends, by whether all subscriptions stand. |
| `JobsProperties.RetryLeadsTo` | source/jobs/JobsFeature.cpp:394-414 | A retry leads to a new batch if and only if its failed batch is still the last one and nothing has stopped. |
| `JobsProperties.PollIsPublished` | source/jobs/JobsFeature.cpp:183-191 | A start-next request that is due stays due over any run until it is published. |
| `JobsProperties.RequestIsSubmitted` | source/jobs/JobsFeature.cpp:194-277 | A subscription request that is due stays due over any run, with its generation, until it is submitted. |
| `JobsProperties.LastAnswerDecides` | source/jobs/JobsFeature.cpp:335-365 | The answer to the last missing subscription publishes and ends the recovery if and only if all five codes are 0, and otherwise asks for a retry of its generation. |
| `JobsProperties.StopSectionOutdates` | source/jobs/JobsFeature.cpp:1156-1168 | A stop section closes the gate and raises the generation past every batch, callback and retry. |
| `JobsProperties.RetryStaysAllowed` | source/jobs/JobsFeature.cpp:394-404 | The guard of such a retry passes after any run that moves neither the generation nor the stop flag. |
| `JobsProperties.RunRaisesGeneration` | source/jobs/JobsFeature.cpp:171-180 | Generations only grow and the stop flag stays set, over every run. |
| `JobsProperties.BatchAccounts` | source/jobs/JobsFeature.cpp:304-353 | Pending plus completed is five or everything is zero; the count never underflows under duplicate, stale or synchronous completions. |
| `JobsProperties.ConclusionFollowsCodes` | source/jobs/JobsFeature.cpp:335-365 | A batch ends with all five codes known, publishes if and only if all are 0, and asks for exactly one retry otherwise. |
| `JobsProperties.BatchConcludesOnce` | source/jobs/JobsFeature.cpp:304-353 | Two conclusions in one run belong to different generations. |
| `JobsProperties.StopReturnsAfterWorker` | source/jobs/JobsFeature.cpp:1084-1101 | When a stop() returns and no other one is joining, the startup thread is gone. |
| `JobsProperties.NothingAfterStop` | source/jobs/JobsFeature.cpp:1154-1175 | After such a return no run ever requests a subscription or publishes a start-next request. |
| `JobsProperties.NothingAfterSingleStop` | source/jobs/JobsFeature.cpp:1154-1175 | With a single stop() call the same holds without a condition on its return. |
| `JobsProperties.SubscriptionAfterStopSection` | source/jobs/JobsFeature.cpp:968-996 | After a stop section a subscription can still follow if and only if the startup thread is past its last look at the flag. |
| `JobsProperties.OverlappingStopReturnsEarly` | source/jobs/JobsFeature.cpp:1084-1101 | A run in which a stop() returns while the startup thread is about to subscribe. |
| `JobsProperties.WorkerNotBlockedAfterStop` | source/jobs/JobsFeature.cpp:1000-1030 | After a stop section the startup thread can always go on: no wait of it is without an answer. |
| `JobsProperties.JoinGetsNearer` | source/jobs/JobsFeature.cpp:1084-1101 | Each of its steps brings the startup thread nearer to its end, and no step of another thread takes it back. |
| `JobsProperties.JoinEnds` | source/jobs/JobsFeature.cpp:1084-1101 | After a stop section it makes at most thirty steps in any run, so the join ends. |
| `JobsProperties.ResultsResolveOnce` | source/jobs/JobsFeature.h:249-259 | A resolved startup result never changes over any run, whoever completes it again. |
| `JobsProperties.StopResolvesEveryResult` | source/jobs/JobsFeature.cpp:1075-1082 | After a stop section every startup result is resolved. |
| `TunnelContext.OwnerToldAtMostOnce` | source/tunneling/SecureTunnelingContext.cpp:305-338 | However often the SDK reports that a tunnel has stopped, over any run its owner is told at most once. |
| `TunnelContext.StepKeeps` | source/tunneling/SecureTunnelingContext.cpp:109-437 | Every step of every thread and task of a tunnel keeps its invariant. |
| `TunnelContext.NoStopIsLost` | source/tunneling/SecureTunnelingContext.cpp:361-429 | Once nothing is between two locks, a requested stop of a held tunnel is exactly one pending task or one accepted close. |
| `TunnelContext.CloseNeverDuringConnect` | source/tunneling/SecureTunnelingContext.cpp:149-178 | The SDK close never runs during connect, and never twice at once. |
| `TunnelContext.CloseAcceptedOnce` | source/tunneling/SecureTunnelingContext.cpp:405-429 | The close succeeds at most once, and no stop task follows it. |
| `TunnelContext.KeepAliveWhileNeeded` | source/tunneling/SecureTunnelingContext.cpp:361-370 | A held tunnel that was asked to stop or has stopped keeps its context alive. |
| `TunnelContext.TasksCaptureLiveContext` | source/tunneling/SecureTunnelingContext.cpp:393-397 | The reference captured by a stop or release task is never empty. |
| `TunnelContext.ResetHitsNoForward` | source/tunneling/SecureTunnelingContext.cpp:240-257 | A stream reset is sent only while no forward is installed. |
| `TunnelContext.LateTerminationIsHarmless` | source/tunneling/SecureTunnelingContext.cpp:346-359 | A replaced forward ends without a reset, after any run of the other threads. |
| `TunnelContext.CurrentTerminationResets` | source/tunneling/SecureTunnelingContext.cpp:346-359 | The installed forward's end does reset the stream of a running tunnel. |
| `TunnelContext.AdoptLeadsTo` | source/tunneling/SecureTunnelingContext.cpp:201-222 | A new forward is installed and then connected if and only if the tunnel neither stops nor has stopped. |
| `TunnelContext.StreamInstallsForward` | source/tunneling/SecureTunnelingContext.cpp:183-222 | On every running tunnel with a valid port a run from a stream start ends with a forward of its own installed. |
| `TunnelContext.ForwardIsInstalled` | source/tunneling/SecureTunnelingContext.cpp:109-222 | A run from a fresh tunnel through connect, stream start and adoption. |
| `TunnelContext.CheckResetLeadsTo` | source/tunneling/SecureTunnelingContext.cpp:240-257 | A reset is sent if and only if the tunnel is held and neither stops nor has stopped. |
| `TunnelContext.StopTaskLeadsTo` | source/tunneling/SecureTunnelingContext.cpp:405-418 | A stop task closes the tunnel if and only if it is held, has not stopped and is not being closed. |
| `TunnelContext.ConnectLeadsTo` | source/tunneling/SecureTunnelingContext.cpp:139-149 | The SDK is entered if and only if no stop has been requested. |
| `TunnelContext.StoppedBeforeConnect` | source/tunneling/SecureTunnelingContext.cpp:139-147 | After a stop that comes before the SDK is entered, no run connects the tunnel. |
| `TunnelFeature.SecureTunnelingFeature.EraseContext` | source/tunneling/SecureTunnelingFeature.cpp:403-414 | The search removes the tunnel's first entry and nothing else. |
| `TunnelFeature.WithoutAt` | source/tunneling/SecureTunnelingFeature.cpp:406-413 | Erasing the first match is dropping exactly that position of the list. |
| `TunnelRecovery.StepKeeps` | source/tunneling/SecureTunnelingFeature.cpp:94-299 | Every step of start, stop, resume, retry and late callback keeps the windows and the recovery alive. |
| `TunnelRecovery.AcceptedNotificationIsTimely` | source/tunneling/SecureTunnelingFeature.cpp:301-317 | While started, a notification passes the window if and only if the generation of its subscription was read in the current start epoch and the current session; then the subscription was requested in them too. |
| `TunnelRecovery.CurrentRequestRefusedIff` | source/tunneling/SecureTunnelingFeature.cpp:227-234 | A subscription requested in the current epoch and session is refused if and only if a start or a lost session came between the read of its generation and its request. |
| `TunnelRecovery.WindowHoldsIff` | source/tunneling/SecureTunnelingFeature.cpp:55-143 | Over any run, a generation in the window stays in it if and only if no start, no stop and no lost session that the running feature hears of occurs. |
| `TunnelRecovery.StaleRequest` | source/tunneling/SecureTunnelingFeature.cpp:227-234 | A run in which a session is lost between the read and the request, so that a current subscription is refused. |
| `TunnelRecovery.OldSubscriptionsStayOut` | source/tunneling/SecureTunnelingFeature.cpp:55-83 | After a start, a stop or a lost session no notification of an older subscription passes again, in any run. |
| `TunnelRecovery.OutdatedAnswersNeverCount` | source/tunneling/SecureTunnelingFeature.cpp:417-516 | An answer or a retry for a generation that has passed changes nothing, in any run. |
| `TunnelRecovery.WindowMovesForward` | source/tunneling/SecureTunnelingFeature.cpp:55-83 | The oldest valid generation never exceeds the current one, and both only grow. |
| `TunnelRecovery.RecoveryNeverStuck` | source/tunneling/SecureTunnelingFeature.cpp:417-516 | While a recovery is needed, its answer is possible and ends it or leads to a retry, or its request is being made, or a retry for it exists and will be allowed. |
| `TunnelRecovery.RecoveredMeansConfirmed` | source/tunneling/SecureTunnelingFeature.cpp:126-150 | After a lost session that the running feature heard of, it needs no recovery only once a recovery subscription of the current start epoch and session has been acknowledged with success, in every run. |
| `TunnelRecovery.ResumeLeadsTo` | source/tunneling/SecureTunnelingFeature.cpp:94-150 | A resume issues an attempt under the next generation if and only if the feature runs with a client and has something to recover. |
| `TunnelRecovery.RetryLeadsTo` | source/tunneling/SecureTunnelingFeature.cpp:498-516 | A retry issues an attempt if and only if its generation is current and still needs one. |
| `TunnelRecovery.FailedSubscriptionLeadsTo` | source/tunneling/SecureTunnelingFeature.cpp:272-296 | A current subscription that is refused, or an initial one that fails, leads to a recovery and a retry; an old one to nothing. |
| `TunnelRecovery.OneRecoveryPerGeneration` | source/tunneling/SecureTunnelingFeature.cpp:246-299 | Each generation sees at most one recovery request. |
| `TunnelRecovery.RetryStartsOneAttempt` | source/tunneling/SecureTunnelingFeature.cpp:498-516 | Of any number of retries for a failed generation at most one starts an attempt. |
| `TunnelStop.StepKeeps` | source/tunneling/SecureTunnelingFeature.cpp:301-415 | The cross-component invariant: a listed tunnel that leaves the list, or that a stop() has crossed off, can no longer be missed. |
| `TunnelStop.NoTunnelEscapesStop` | source/tunneling/SecureTunnelingFeature.cpp:70-92 | Once stop() has returned, every tunnel listed before its section has its stop recorded, has stopped or never connected; once settled it holds nothing, has stopped or has exactly one stop under way. |
| `TunnelStop.StopCoversEverything` | source/tunneling/SecureTunnelingFeature.cpp:70-92 | When a stop() that is called now returns, after any run, no tunnel listed by now can connect or go on unnoticed. |
| `TunnelStop.NotificationGoesOnIff` | source/tunneling/SecureTunnelingFeature.cpp:301-401 | A notification that has passed the window gets its tunnel listed and connected, over any run, if and only if no stop has come since. |
| `TunnelStop.NotificationOpensTunnel` | source/tunneling/SecureTunnelingFeature.cpp:301-415 | From every state of a started feature a run in which a notification opens a tunnel that connects. |
| `TunnelStop.LateTunnelsAreNew` | source/tunneling/SecureTunnelingFeature.cpp:392-401 | A tunnel listed after some moment was accepted no earlier than that moment's life cycle. |
| `TunnelStop.UnlistedTunnelNeverConnects` | source/tunneling/SecureTunnelingFeature.cpp:392-403 | A tunnel accepted before a stop() and not listed by then is dropped unconnected, whatever follows. |
| `TunnelDuplicates.Contexts.AcceptNotification` | source/tunneling/SecureTunnelingFeature.cpp:378-400 | The loop over the tunnels, which also changes what they remember, decides as the specification does. |
| `TunnelDuplicates.AskMeaning` | source/tunneling/SecureTunnelingContext.cpp:97-107 | A notification is a duplicate if and only if some tunnel remembers it. |
| `TunnelDuplicates.RepeatIgnoredIff` | source/tunneling/SecureTunnelingFeature.cpp:378-400 | An immediate repetition is ignored if and only if a tunnel was open before the first of the two. |
| `TunnelDuplicates.RepeatsOpen` | source/tunneling/SecureTunnelingFeature.cpp:378-414 | How often the repetitions of a notification are taken on: never if a tunnel remembers it, once if some tunnel is open, and with none open until the first connect that succeeds and once more. |
| `TunnelDuplicates.RepeatsFromNone` | source/tunneling/SecureTunnelingFeature.cpp:403-414 | With none open, failed connects leave nothing behind, so attempts are the failures before the first success plus two, and at most two tunnels stay. |
| `TcpForwardSystem.ConnectsAtMostOnce` | source/tunneling/TcpForward.cpp:91-123 | Over any run the socket is connected at most once, however often Connect is called. |
| `TcpForward.TcpForward.StopOnEventLoop` | source/tunneling/TcpForward.cpp:453-495 | The first stop releases exactly the resources that are there, and tells the owner of the end if the winning request reports; a later one does nothing. |
| `TcpForward.HeardAtEnd` | source/tunneling/TcpForward.cpp:328-412 | On a running forward the end of the stream is reported after all bytes read before it: with the read error, the append error, or as a peer close. |
| `TcpForward.TcpForward.SendData` | source/tunneling/TcpForward.cpp:175-224 | Buffers before the connection within the limit, writes through after it, refuses after a stop. |
| `TcpForward.TcpForward.FlushSendBuffer` | source/tunneling/TcpForward.cpp:414-430 | A flush writes the whole buffer and empties it, or keeps it. |
| `TcpForward.TcpForward.ReadAll` | source/tunneling/TcpForward.cpp:343-400 | The read loop drains what the specification drains and stops for the same reason. |
| `TcpForward.DrainKeepsEverything` | source/tunneling/TcpForward.cpp:366-395 | Whatever was read before an error, a failed append or an empty read is drained, with the reason that ended it. |
| `TcpForwardSystem.StepKeepsOrder` | source/tunneling/TcpForward.cpp:261-308 | Every step that overtakes nothing keeps accepted bytes equal to written bytes followed by the buffer while the forward is not stopped, and written bytes a prefix of accepted ones always. |
| `TcpForwardSystem.SerializedBytesArriveInOrder` | source/tunneling/TcpForward.cpp:175-308 | In every run from the start whose sends fall between the callbacks, as on one event loop, with stops from any thread: no byte is lost, repeated or reordered, the buffer never exceeds 63*1024 bytes, and between two callbacks a running connection has written all it accepted. |
| `TcpForwardSystem.SerializedIsOrderly` | source/SharedCrtResourceManager.cpp:249-252 | Sends that fall between the callbacks never overtake the buffer, over any run: one event loop keeps the order by itself. |
| `TcpForwardSystem.BytesArriveInOrder` | source/tunneling/TcpForward.cpp:175-224 | The same for sends from any thread, in every run in which no data is sent over a connection whose buffer is not flushed. |
| `TcpForwardSystem.LoopKeepsOrder` | source/tunneling/TcpForward.cpp:261-308 | Between two callbacks no send can overtake, and a running connection has written all it accepted. |
| `TcpForwardSystem.FlushEmptiesBuffer` | source/tunneling/TcpForward.cpp:414-430 | After a successful flush everything accepted is written. |
| `TcpForwardSystem.SendsKeepOrderIff` | source/tunneling/TcpForward.cpp:290-299 | On a connected forward all data can be sent without disorder if and only if the buffer has been flushed. |
| `TcpForwardSystem.EarlySendReorders` | source/tunneling/TcpForward.cpp:290-299 | A run from the start in which a byte sent between marking and flushing arrives before an older one. |
| `TcpForwardSystem.ReadBytesAreDelivered` | source/tunneling/TcpForward.cpp:328-412 | Every byte read is delivered in order or waits for its own readable event, whatever stops arrive between the locks; the end is the last that the owner hears. |
| `TcpForwardSystem.NothingAfterEnd` | source/tunneling/TcpForward.cpp:453-495 | Once the forward has stopped the owner hears nothing more, over any run. |
| `TcpForwardSystem.FailureIsReported` | source/tunneling/TcpForward.cpp:405-411 | The error that ends a readable event is reported after its bytes, exactly if no other stop request has come first. |
| `TcpForwardSystem.EventDrains` | source/tunneling/TcpForward.cpp:366-395 | The reads of one event drain what the read loop drains. |
| `TcpForwardSystem.EventRun` | source/tunneling/TcpForward.cpp:328-412 | A readable event that nothing interrupts tells the owner exactly what the event as a whole promises. |
| `TcpForwardSystem.SendLeadsTo` | source/tunneling/TcpForward.cpp:175-224 | Data is written through if and only if the forward runs connected and the socket takes it, and buffered if and only if it runs unconnected and the data fits. |
| `TcpForwardSystem.TerminatedAtMostOnce` | source/tunneling/TcpForward.cpp:129-173 | The terminated callback fires at most once, and if and only if the stop request that came first reports. |
| `TcpForwardSystem.WinnerStays` | source/tunneling/TcpForward.cpp:129-147 | Over any run the first stop request decides whether the owner is told, once, and with which error. |
| `TcpForwardSystem.CleanedUpAtMostOnce` | source/tunneling/TcpForward.cpp:79-89 | Socket and buffer are cleaned up at most once each, also across destruction. |
| `TcpForwardSystem.ReleasedExactlyOnce` | source/tunneling/TcpForward.cpp:79-89 | Over every run from the start each resource that was made is there or has been released; a stopped or destroyed forward has released each exactly once. |
| `PendingUpdates.UpdatePromises.SweepExpired` | source/jobs/JobsFeature.cpp:741-759 | The erasing loop removes exactly the promises made fifteen seconds ago or more, answered or not, and changes no other. |
| `PendingUpdates.RejectionThrowsIff` | source/jobs/JobsFeature.cpp:642-678 | In any run a rejected response makes its handler throw if and only if no thread holds its token with an unanswered entry. |
| `PendingUpdates.AcceptanceThrowsIff` | source/jobs/JobsFeature.cpp:615-640 | An accepted response makes its handler throw if and only if a thread holds its token with an answered entry. |
| `PendingUpdates.LateRejection` | source/jobs/JobsFeature.cpp:671-677 | A run in which a rejection arrives after its thread has timed out and left, and throws. |
| `PendingUpdates.SecondResponse` | source/jobs/JobsFeature.cpp:615-678 | A run in which a second response to one update throws, accepted or rejected. |
| `PendingUpdates.LookUpsSucceedIff` | source/jobs/JobsFeature.cpp:783-788 | The lookup after a publish call, which throws on an unknown key, finds its entry in every run if and only if a publish call takes less than the time to live. |
| `PendingUpdates.LostPromise` | source/jobs/JobsFeature.cpp:741-788 | The run in which a publish call of 15 seconds loses its promise to another thread's sweep. |
| `PendingUpdates.WaitsAreSafeIff` | source/jobs/EphemeralPromise.h:52-55 | No sweep removes a promise that is waited for, in any run, if and only if publish limit plus wait fits the time to live. |
| `PendingUpdates.SlowPublish` | source/jobs/JobsFeature.cpp:783-794 | The run that loses a promise when publishing takes longer. |
| `PendingUpdates.ResponseReachesItsWaiter` | source/jobs/JobsFeature.cpp:615-678 | A response reaches the waiting thread of its token, with its code, and nobody else. |
| `PendingUpdates.AttemptsLeaveNothing` | source/jobs/JobsFeature.cpp:825-827 | A completed attempt leaves no entry; with no attempt under way the map is empty. |
| `Retry.ExponentialBackoff` | source/util/Retry.cpp:14-74 | Attempts end at the first success, the limit or the flag; one sleep per failure except the last allowed; one completion call per finished run; a limited run finishes. |
| `Retry.SleepPerFailure` | source/util/Retry.cpp:49-63 | There is exactly one sleep after each failure that another attempt may follow. |
| `Retry.SleepClosedForm` | source/util/Retry.cpp:49-63 | The k-th sleep is the smaller of the maximum and start times two to the k. |
| `Retry.SleepsBoundedIff` | source/util/Retry.cpp:63-63 | No sleep exceeds the maximum if and only if the first does not, and then no doubled value exceeds twice the maximum. |
| `Retry.UpdateDelays` | source/jobs/JobsFeature.cpp:732-739 | The delays of a status update, running and stopping. |
| `LimitedStreamBuffer.LimitedStreamBuffer.AddString` | source/jobs/LimitedStreamBuffer.cpp:11-33 | After any sequence of additions the deque stands for the whole history; eviction ends. |
| `LimitedStreamBuffer.LimitedStreamBuffer.ToString` | source/jobs/LimitedStreamBuffer.cpp:35-45 | The text is determined by the whole history, has the counted size, fits the limit, and holds the last characters of everything added. |
| `LimitedStreamBuffer.KeptIsText` | source/jobs/LimitedStreamBuffer.cpp:11-33 | For every history the text is a suffix of the concatenation of all values; all of it if that fits; and the last characters of the last value if that alone fills the limit. |
| `LimitedStreamBuffer.KeptIsLongestSuffix` | source/jobs/LimitedStreamBuffer.cpp:24-29 | That text is the longest suffix of whole (clipped) chunks that fits. |
| `LimitedStreamBuffer.KeptWithoutFront` | source/jobs/LimitedStreamBuffer.cpp:24-29 | Evicting the front while the total is too long never changes the text. |
| `LimitedStreamBuffer.StatusDetailIsWholeText` | source/jobs/JobsFeature.cpp:699-716 | With a limit of 1024 the later truncation changes nothing. |
| `Sensor.SensorBuffer.OnRead` | source/sensor-publish/Sensor.cpp:243-265 | One read, the scan and the publish together, on the array in place. |
| `Sensor.SensorBuffer.Scan` | source/sensor-publish/Sensor.cpp:252-261 | The scan queues the delimiters from the last known one, or from the new bytes. |
| `Sensor.SensorBuffer.Publish` | source/sensor-publish/Sensor.cpp:298-346 | The batch loop, its cursors and the compaction in place. |
| `Sensor.SensorBuffer.NeedPublish` | source/sensor-publish/Sensor.cpp:348-393 | How many batches are due, and the discard of a full buffer without a delimiter. |
| `Sensor.SensorBuffer.Reset` | source/sensor-publish/Sensor.cpp:445-452 | A reset empties buffer and queue. |
| `Sensor.EndsExact` | source/sensor-publish/Sensor.cpp:254-261 | A scan finds every delimiter from its start on, once and in order. |
| `Sensor.QueueStaysExact` | source/sensor-publish/Sensor.cpp:253-261 | Over every run and batch size, no delimiter is missed and none is queued twice. |
| `Sensor.PublishPops` | source/sensor-publish/Sensor.cpp:308-330 | A publish takes floor(n/b)*b messages, all n on timeout or a full buffer, and discards only a full buffer without a delimiter. |
| `Sensor.BatchAt` | source/sensor-publish/Sensor.cpp:312-327 | Each batch starts at its own first byte but announces a length counted from the start of the buffer; its bytes are those of the buffer from there on. |
| `Sensor.PublishConservesIff` | source/sensor-publish/Sensor.cpp:298-338 | One publish accounts for every byte once if and only if the queued messages fit one batch. |
| `Sensor.RunConservesIff` | source/sensor-publish/Sensor.cpp:240-338 | Over any run, published and discarded bytes in order, followed by the tail, are all bytes received, if and only if no read left more messages than a batch holds; otherwise more bytes are announced than came in. |
| `Sensor.LeftFullIff` | source/sensor-publish/Sensor.cpp:332-338 | The buffer is left full if and only if it was full and whole batches left a rest. |
| `Sensor.BatchesRepeat` | source/sensor-publish/Sensor.cpp:318-327 | A run of one read that announces six bytes for four. |
| `Sensor.BatchesLeaveFull` | source/sensor-publish/Sensor.cpp:332-338 | A run of one read that leaves the buffer full, so that no more bytes are taken. |
| `Sensor.PublishAllRun` | source/sensor-publish/Sensor.cpp:350-356 | With buffer size 0, in every run all bytes are accounted for, every payload ends in the delimiter, the tail holds none, and the buffer is never left full. |
| `CommandParser.MatchStopsAtBareComma` | source/util/StringUtils.cpp:119-129 | A match of the pattern ends exactly at the first comma that no backslash precedes. |
| `CommandParser.TokensAreCut` | source/util/StringUtils.cpp:119-129 | The tokens are the non-empty pieces of the string cut exactly at its bare commas. |
| `CommandParser.CutIsUnique` | source/util/StringUtils.cpp:119-129 | There is only one such cut. |
| `CommandParser.ReplaceAll` | source/util/StringUtils.cpp:131-138 | The editing loop replaces every occurrence from the left and never looks at what it put in. |
| `CommandParser.TrimCopy` | source/util/StringUtils.cpp:100-105 | The two erasures equal the trim specification, also on text that is all white space. |
| `CommandParser.TrimMeaning` | source/util/StringUtils.cpp:100-105 | Trimming cuts a prefix and a suffix of the given characters and leaves nothing more to cut. |
| `CommandParser.LoadCommand` | source/jobs/JobDocument.cpp:363-381 | The command is the list of trimmed, unescaped tokens; an empty field gives none. |
| `CommandParser.Validate` | source/jobs/JobDocument.cpp:383-405 | A command is valid if and only if it has a first word without white space. |
| `CommandParser.WhitespaceIsSpace` | source/jobs/JobDocument.cpp:377-392 | The characters that are trimmed off words are exactly the white space that a first word must not hold. |
| `CommandParser.UnescapeEscape` | source/jobs/JobDocument.cpp:375-377 | Escaping the commas of any word is undone by the replacement. |
| `CommandParser.TokensOfEncoded` | source/util/StringUtils.cpp:119-129 | Separable words come out as they went in; in all other cases words are lost. |
| `CommandParser.RoundTripIff` | source/jobs/JobDocument.cpp:366-380 | Encoding and parsing gives the words back if and only if they are non-empty, trimmed, and none but the last ends in a backslash. |
| `CommandParser.ParseAgainIff` | source/jobs/JobDocument.cpp:366-380 | A parsed command survives another round if and only if its words are separable. |
| `JobEngine.JobEngine.ExecSteps` | source/jobs/JobEngine.cpp:226-251 | The loop equals the recursive specification. |
| `JobEngine.ExecuteReaches` | source/jobs/JobEngine.cpp:226-242 | Every step up to the first counting failure is entered with status 0. |
| `JobEngine.ExecuteRunsPrefix` | source/jobs/JobEngine.cpp:226-251 | Exactly the steps up to the first counting failure are started, its status is returned and their error lines are counted; the final step runs if and only if there is none. |
| `JobEngine.SucceedsIff` | source/jobs/JobEngine.cpp:226-251 | A job succeeds if and only if no failure counts. |
| `JobEngine.AllowanceIsIgnored` | source/jobs/JobEngine.cpp:208-223 | Neither the number of error lines allowed nor the number written decides how a job ends. |
| `JobEngine.DocumentedVerdictIff` | source/jobs/JobEngine.cpp:208-251 | The code passes every job that the documentation passes, and the two agree on a job if and only if no step is let pass through its allowance or its error lines, or another step fails it all the same. |
| `JobEngine.NoStepAsDocumented` | source/jobs/JobEngine.cpp:208-223 | Every step whose failures count has an outcome that fails the job by the documentation and passes it in the code. |
| `JobEngine.TooManyErrorLines` | source/jobs/JobEngine.cpp:210-217 | A failing step with too many error lines that the code lets pass. |

## Left out

- Generations are unbounded numbers; the wrap-around of the 64-bit counters is not modelled.
- A stop() called by the startup thread itself, which detaches the thread, and the destructor of the Jobs feature.
- The tests for duplicate jobs (`tryStartJob`) and the content of job and tunnel notifications; a notification may be
  rejected at any point the code can reject it.
- A tunnel is connected once: calling `ConnectToSecureTunnel` again on a configured tunnel after stop and start is not
  modelled.
- The two sections of `ReleaseAfterStopped` are one step; with the tunnel stopped nothing can be installed in between.
- The connection callback and the readable events of one forward do not overlap, and a stop of a forward that has an
  event loop does not fall into a readable event; the single-loop group in source/SharedCrtResourceManager.cpp (lines
  249 to 252) gives that.
- TcpForward.TcpForward.OnReadable: runs one readable event without a pause; `TcpForwardSystem` has the pauses.
- The clock of the promises is monotone, and a response at or after the deadline of its wait is not followed further.
- Client tokens are distinct; the generator of random tokens is not part of this model.
- Multi-byte and regular-expression delimiters of a sensor; the delimiter is one byte.
- Failed allocations of the read buffers of a TCP forward.
- Bytes a sensor cursor covers beyond the end of its array: only the announced length is modelled there.
- `memcpy` on overlapping ranges in the sensor's compaction is taken to move the bytes.
- Regular expressions other than the comma pattern, and JSON text with an embedded NUL.
- Building a handler's command line, file permissions, processes and pipes; a step's exit code and its error lines are
  inputs.
- Fleet provisioning, shadows, Device Defender, PubSub, configuration, logging and the start order of features, which
  have little branching state.
