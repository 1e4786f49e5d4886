# Verified model of the robot I/O daemon

This project models the safety path of the C++ `robot-io-daemon` and the concurrency and
framing primitives under it, and proves properties that hold over every run or every
interleaving. `dafny verify dfyconfig.toml` checks the whole project.

How the model is organised:

- `Cia402`, `DriveResponse`, `SafetySupervisor`, `DeviceCycle`: the drive state machine, the axis, the safety
  supervisor and the device cycle as classes whose methods are proved equal to specification
  functions (`AxisCycle`, `Accept`, `Evaluate`, `Step`). `DriveResponse` holds the other side of
  the control word: how a drive answers it by the bit patterns of CiA 402.
- `SafetyRuns`, `TargetAgreement`, `StopRuns`: theorems over every run of supervisor plus axes,
  that is every sequence of command snapshots, shutdown requests and device cycles.
  `DeviceCycle.Controller.ProcessDeviceCycle` shows that the objects take exactly these steps.
- `LocalSnapshot` with `SnapshotProgress`, `EventQueue`, `Admission`, `Mailbox` with `MailboxOrder`
  and `MailboxLifecycle`, `CommandHandoff`, `ServoBatch`: step
  machines in which one atomic operation is one step; a run is any sequence of steps of any
  threads, and history fields record what was published, read, admitted or reported.
- `St3215Protocol`, `SerialFramer`, `ServoBus` with `ServoBusLaws`: packets, the two framers and
  the servo bus.
- `RealtimeLoop`: the release schedule on 64-bit times.

What the proofs found:

- `evaluate` and the axis agree on the request in every run if and only if both ends of the
  configured range are representable in the mode's device integer
  (`TargetAgreement.AgreementIsExact`). Without that there is a run from the start, of one command
  and some cycles, in which the axis turns an enable decision into a quick stop and writes device
  target 0 (`TargetAgreement.OverriddenTorqueRun` writes one out).
- The group feedback flag depends on the order of the axes: the axis that starts a group stop
  carries the flag itself if and only if a later axis shares its group
  (`SafetySupervisor.GroupFlagFollowsOrder`). The decisions do not depend on the order
  (`SafetySupervisor.ScanIsGroupClosure`).
- The comment at `src/robot_io/daemon/daemon.cpp:540-545` announces a replay after a rejection.
  The code never makes the replayed command valid again: the supervisor answers duplicate and
  `commands_valid_` stays false until a newer command arrives
  (`CommandHandoff.RacedCommandIsNeverTrustedAgain`, for every run in which a command races ahead of
  a rejection; `CommandHandoff.TrustReturnsOnlyWithNewerCommand`). The model follows the code.
- The path in `stage_one` that puts a staged request back into the queue is never taken
  (`MailboxOrder.NobodyIsPutBack`): the slot is filled only under the mutex under which it was found
  empty.
- A mailbox status reported completed is final. One reported failed is not: a later status can
  report completed if and only if, right after the report, the request is completed already or an
  owner is about to store its success (`Mailbox.FailedReportIsFinalExactlyWhen`). Both cases arise
  (`Mailbox.FailedReportAfterCompletion`, `Mailbox.FailedReportCanTurnCompleted`): the status loads
  the phase and then the open generation, and owner and close can both act in between. The phase
  completed itself may become failed inside `fail_request`, but only under the request mutex, so
  no report shows it.
- The closer of the EtherCAT master can sleep although no cycle is admitted any more: the last
  cycle has left the count and has yet to notify (`Admission.CloserCanSleepPastTheLastCycle`).
  That notification is then always still to come (`Admission.NoLostWakeup`).
- The two ST3215 framers agree on every byte stream exactly at maximum frame size 259
  (`SerialFramer.AgreementNeedsTheFullMaximum`). The parser's own check against that maximum can
  never fire, since the largest length byte, 255, makes a frame of exactly 259 bytes.
- A servo position at the maximum unit comes back from radians as 0
  (`ServoBus.PositionRoundTrip`).
- An evaluation with the wrong number of PDOs reports shutdown as not complete and leaves the
  stored state alone.
- Deadline misses are bounded by skipped releases, however waits and finishes are timed, if and
  only if no two finishes fall between two waits (`RealtimeLoop.BoundIsExact`, for schedules with
  fewer periods than fit into the largest 64-bit time).

## Model

| member | source | states |
|---|---|---|
| `Cia402.DecodeIsTheTable` | src/devices/cia402/state_machine.cpp:5-31 | a statusword decodes to a state if and only if it matches that state's mask and pattern of the CiA 402 table |
| `Cia402.CountFlags` | src/devices/cia402/axis.cpp:17-24 | the shifting loop counts exactly the set flags |
| `Cia402.RequestFlagsRoundTrip` | src/robot_io/daemon/safety_supervisor.cpp:170-195 | every request survives the trip to command flags and back, and its flags are valid |
| `Cia402.FlagWordsAreExact` | src/robot_io/daemon/safety_supervisor.cpp:170-181 | the valid flag words are 0, 1, 2, 4 and 8, and which request each of them asks for |
| `Cia402.RoundIsNearest` | include/policy_runtime/devices/cia402/units.hpp:22-22 | rounding moves a value by at most one half |
| `Cia402.RoundMonotone` | include/policy_runtime/devices/cia402/units.hpp:22-22 | rounding keeps the order of values |
| `Cia402.DeviceUnitsRoundTrip` | include/policy_runtime/devices/cia402/units.hpp:12-61 | every in-range device integer survives the trip to engineering units and back |
| `Cia402.ControlWordCauses` | src/devices/cia402/state_machine.cpp:33-76 | control words 6, 7 and 15 need an enable request; 0x0080 is written exactly for a reset request in state fault with the latch open |
| `Cia402.StateMachine.Update` | src/devices/cia402/state_machine.cpp:33-82 | the control word for state, request and old latch, and the new latch; what a drive does on these words is stated by the `DriveResponse` rows |
| `DriveResponse.SteadyEnableReachesOperation` | src/devices/cia402/state_machine.cpp:57-76 | a drive that answers control words as CiA 402 says is in operation under a steady enable request after exactly as many words as its state is away from it: three from switch on disabled, two from ready to switch on, one from switched on and from quick stop active, and never from the other four states |
| `DriveResponse.QuickStopPattern` | src/devices/cia402/state_machine.cpp:46-51 | quick stop puts the quick-stop bit pattern on the wire in exactly the four powered states; an operating drive goes to quick stop active, the other powered ones lose their voltage |
| `DriveResponse.DisableTakesVoltage` | src/devices/cia402/state_machine.cpp:44-45 | disable is the disable-voltage pattern, and takes every powered state to switch on disabled |
| `DriveResponse.OperationFollowsEnable` | src/devices/cia402/state_machine.cpp:33-79 | over every run of requests the drive is in operation only right after an enable request |
| `DriveResponse.FaultEndsExactlyOnNewReset` | src/devices/cia402/state_machine.cpp:38-56 | in every run of requests a drive leaves fault exactly when a reset is asked for after a cycle that did not ask for it: the pulse is then a rising edge, and holding the request gives no second one |
| `DriveResponse.Drives` | src/devices/cia402/state_machine.cpp:33-82 | the word that the state machine object computes from a status word moves the drive as in those runs |
| `Cia402.Axis.Make` | src/devices/cia402/axis.cpp:49-54 | an axis is made exactly for positive slew and following-error limits, and starts with no target and an open latch |
| `Cia402.Axis.StageSetpoint` | src/devices/cia402/axis.cpp:76-107 | stages the device value in the mode's field and clears the others; fails exactly when there is no representation |
| `Cia402.Axis.PlanTarget` | src/devices/cia402/axis.cpp:122-182 | request, staged target and flags after flags, limits, clamp, slew, following error and mode are checked; their meaning on the raw PDO is stated by `AxisEnablesExactlyWhen` and `AxisFlagsAreExact` |
| `Cia402.Axis.Cycle` | src/devices/cia402/axis.cpp:109-198 | memory, written PDO and feedback are those of the specification of one axis cycle |
| `Cia402.FollowingErrorActiveOn` | src/devices/cia402/axis.cpp:163-166 | the following error is checked exactly under statuswords 0x23, 0x27 and 0x07 below mask 0x6F |
| `Cia402.AxisEnablesExactlyWhen` | src/devices/cia402/axis.cpp:122-188 | an axis passes enable on if and only if limits and flags are usable, the drive displays the configured mode, the slewed target is representable, and under statuswords 0x23, 0x27 and 0x07 it is within the following-error limit of the measured field of the mode |
| `Cia402.AxisFlagsAreExact` | src/devices/cia402/axis.cpp:122-188 | what each feedback flag says of command, limits and PDO, both ways |
| `Cia402.FeedbackIsMeasured` | src/devices/cia402/axis.cpp:109-121 | feedback carries the command it answers, statusword and mode display, and position, velocity and effort over the scale |
| `Cia402.EnabledTargetIsWritten` | src/devices/cia402/axis.cpp:76-107 | an enabled axis writes, in the field of its mode and with the others cleared, the count that a drive which has arrived measures within half a count of the target |
| `Cia402.StoppedAxisHoldsItsPlace` | src/devices/cia402/axis.cpp:182-195 | an axis that does not enable remembers the measured value and writes it back count for count, or 0 if it meant to move to a target without representation |
| `Cia402.SlewStep` | src/devices/cia402/axis.cpp:150-161 | a step is at most the slew limit, never leaves the range, and from outside moves strictly towards it |
| `Cia402.SlewDistance` | src/devices/cia402/axis.cpp:150-161 | after n steps exactly n slew limits of the distance are gone, and never more than all of it |
| `Cia402.ConstantCommandReached` | src/devices/cia402/axis.cpp:150-194 | a constant command is reached after n cycles if and only if n is at least ceil(distance / slew limit) |
| `SafetySupervisor.NextGroup` | src/robot_io/daemon/safety_supervisor.cpp:75-85 | the id given to an axis keeps ids equal exactly for equal non-empty names |
| `SafetySupervisor.Supervisor.ReadProfiles` | src/robot_io/daemon/safety_supervisor.cpp:53-97 | the loop accepts exactly valid profiles, and gives equal group ids exactly for equal non-empty names |
| `SafetySupervisor.Supervisor.Configure` | src/robot_io/daemon/safety_supervisor.cpp:40-100 | succeeds exactly on valid options and profiles, once; group ids are equal if and only if the non-empty names are; a failure changes nothing that can be seen |
| `SafetySupervisor.ConfigKeepsProfile` | src/robot_io/daemon/safety_supervisor.cpp:86-95 | a profile keeps its limits, and its timeout in milliseconds becomes one in nanoseconds |
| `SafetySupervisor.Supervisor.SnapshotIsValid` | src/robot_io/daemon/safety_supervisor.cpp:109-126 | the loop decides exactly the validity of a snapshot |
| `SafetySupervisor.Supervisor.AcceptCommands` | src/robot_io/daemon/safety_supervisor.cpp:128-161 | accepted, duplicate or rejected with exactly the specified new state; a rejection withdraws trust and keeps the held command |
| `SafetySupervisor.AcceptanceIsExact` | src/robot_io/daemon/safety_supervisor.cpp:109-161 | from the fields of the snapshot: accepted exactly when sound with a larger sequence and no earlier timestamp than the held one, duplicate exactly when it repeats the held one, and only a refusal costs trust |
| `SafetySupervisor.Supervisor.RequestShutdown` | src/robot_io/daemon/safety_supervisor.cpp:163-168 | only the shutdown request changes |
| `SafetySupervisor.ScanIsGroupClosure` | src/robot_io/daemon/safety_supervisor.cpp:362-371 | the in-place scan triggers an axis if and only if some axis of its group triggers by itself |
| `SafetySupervisor.GroupFlagFollowsOrder` | src/robot_io/daemon/safety_supervisor.cpp:362-371 | of a group with one trigger every other member carries the group flag, and the one that started the stop does if and only if a later axis shares its group |
| `SafetySupervisor.SwappedAxesSwapTheFlag` | src/robot_io/daemon/safety_supervisor.cpp:362-371 | two axes of one group in two orders: the one that triggers carries the flag itself in one order and not in the other |
| `SafetySupervisor.PropagateTriggers` | src/robot_io/daemon/safety_supervisor.cpp:362-371 | the nested loops compute the group closure of the triggers, and the group flag where a source reached the axis |
| `SafetySupervisor.PropagateResets` | src/robot_io/daemon/safety_supervisor.cpp:378-388 | the nested loops hold exactly the axes that do not reset themselves and have a resetting peer |
| `SafetySupervisor.Supervisor.EvaluateTargetOf` | src/robot_io/daemon/safety_supervisor.cpp:206-247 | measured and staged target, following error, and the first measurement remembered, branch by branch, are those of the specification; `SafetyRuns.StrayingStopsTheGroup` and `UnpoweredDistanceNeverStops` say when the error is checked |
| `SafetySupervisor.Supervisor.AssessAxis` | src/robot_io/daemon/safety_supervisor.cpp:284-360 | the branches of the first loop, one after the other, yield the specified reasons, trigger, reset candidate and fault episode of one axis |
| `SafetySupervisor.Supervisor.AssessAxes` | src/robot_io/daemon/safety_supervisor.cpp:284-360 | the first loop yields each axis's own assessment, although it updates the states in place |
| `SafetySupervisor.Supervisor.DecideAxis` | src/robot_io/daemon/safety_supervisor.cpp:392-472 | the branches of the last loop, one after the other, yield the specified stop phase, reset pulse, request and remembered target of one axis |
| `SafetySupervisor.Supervisor.DecideAxes` | src/robot_io/daemon/safety_supervisor.cpp:392-475 | the last loop yields each axis's decision, although it updates the states in place |
| `SafetySupervisor.Supervisor.EvaluateCycle` | src/robot_io/daemon/safety_supervisor.cpp:249-480 | new state and output are those of the specification; a wrong PDO count or missing configuration quick-stops every axis and changes no state |
| `SafetySupervisor.AssessIsLocal` | src/robot_io/daemon/safety_supervisor.cpp:284-360 | the assessment of an axis does not depend on the other axes' states |
| `SafetyRuns.TriggerMeansTroubled` | src/robot_io/daemon/safety_supervisor.cpp:263-360 | an axis triggers, or is a reset candidate, exactly under conditions on command, frame counters, link, mode display, statusword, measured distance and reset budget that are stated on the inputs one by one |
| `SafetyRuns.EnabledExactlyWhen` | src/robot_io/daemon/safety_supervisor.cpp:284-452 | an axis is enabled if and only if it was asked to be, runs or restarts with a newer command, and every axis of its group may move |
| `SafetyRuns.ResetExactlyWhen` | src/robot_io/daemon/safety_supervisor.cpp:323-428 | an axis is given a fault reset if and only if its drive is in fault, the reset was asked for, and no axis of its group is troubled by anything else |
| `SafetyRuns.StrayingStopsTheGroup` | src/robot_io/daemon/safety_supervisor.cpp:237-245 | if an axis asked to enable shows statusword 0x23, 0x27 or 0x07 below mask 0x6F and is further than the limit from its next target, no axis of its group is enabled, by supervisor or axis object, and none gets a power word |
| `SafetyRuns.UnpoweredDistanceNeverStops` | src/robot_io/daemon/safety_supervisor.cpp:237-245 | under every other statusword distance alone never stops an axis: no following-error limit, however small, changes which axes supervisor and axis objects enable |
| `SafetyRuns.ReasonsAreExact` | src/robot_io/daemon/safety_supervisor.cpp:263-388 | each of the thirteen reasons is shown if and only if its condition on inputs and state holds |
| `SafetyRuns.CounterStopsExactlyAfterStreak` | src/robot_io/daemon/safety_supervisor.cpp:264-276 | in every run the working counter is a reason exactly from the configured number of incomplete frames in a row on |
| `SafetyRuns.GroupSafety` | src/robot_io/daemon/safety_supervisor.cpp:351-388 | if an axis is enabled, no axis of its group has a reason, a quick-stop request or a reset in that cycle |
| `SafetyRuns.PowerNeedsEnable` | src/devices/cia402/state_machine.cpp:57-76 | control word 6, 7 or 15 leaves an axis only if the supervisor enabled it |
| `SafetyRuns.AxisObeys` | src/devices/cia402/axis.cpp:109-198 | the axis passes every request of the supervisor on, except that it may turn enable into quick stop |
| `SafetyRuns.LatchAlwaysAgrees` | src/robot_io/daemon/safety_supervisor.cpp:399-428 | after every event of every run the axis edge latch equals the supervisor's record of its reset output, and the budget holds |
| `SafetyRuns.PulsesAreCounted` | src/robot_io/daemon/safety_supervisor.cpp:399-428 | over any stretch of any run without an observed clear, the supervisor's count grows by exactly the pulses written |
| `SafetyRuns.ResetBudget` | src/robot_io/daemon/safety_supervisor.cpp:320-355 | in any run, between observations that the fault is clear, 0x0080 is written at most `maximum_fault_resets` times |
| `TargetAgreement.FitsIsExact` | include/policy_runtime/devices/cia402/units.hpp:12-28 | the range fits the device integer if and only if every slew run that starts representable stays representable |
| `TargetAgreement.SupervisorTarget` | src/robot_io/daemon/safety_supervisor.cpp:206-247 | what the supervisor remembers as target, and what it has checked when it enables |
| `TargetAgreement.TargetsAlwaysAgree` | src/robot_io/daemon/safety_supervisor.cpp:462-472 | in every run on a fitting range, supervisor and axis hold the same representable target after every event |
| `TargetAgreement.CheckersAgree` | src/devices/cia402/axis.cpp:109-198 | in every such run the axis never overrides the supervisor's request, and both end the cycle with the same target |
| `TargetAgreement.UnfitRangeIsOverridden` | src/devices/cia402/axis.cpp:184-188 | for every configuration in which the range of an axis does not fit there is a run from the start in which the axis does not carry out the supervisor's request |
| `TargetAgreement.AgreementIsExact` | src/robot_io/daemon/safety_supervisor.cpp:206-247 | for the command timeouts that `configure` accepts, supervisor and axis agree on the request in every cycle of every run if and only if both ends of the range have a device representation |
| `TargetAgreement.OverriddenTorqueRun` | src/devices/cia402/axis.cpp:184-188 | a torque axis with maximum 40000: one command and one cycle from the start, the supervisor enables, the axis asks for a quick stop and writes torque 0 |
| `TargetAgreement.EnabledTargetMoves` | src/robot_io/daemon/safety_supervisor.cpp:206-247 | the target of an enabled axis moves by at most the slew limit, stays in range, and comes in from outside |
| `TargetAgreement.EnabledRunIsSlewRun` | src/devices/cia402/axis.cpp:150-194 | while an axis stays enabled its target follows the slew run of its command |
| `TargetAgreement.EnabledRunReachesCommand` | src/devices/cia402/axis.cpp:150-194 | an axis that stays enabled is at its clamped command if and only if ceil(distance / slew limit) cycles have passed |
| `StopRuns.RunMoves` | src/robot_io/daemon/safety_supervisor.cpp:407-451 | every event of every run moves the stop phase of an axis only as the phase diagram allows |
| `StopRuns.SequenceNeverFalls` | src/robot_io/daemon/safety_supervisor.cpp:128-161 | along every trace the accepted command sequence never falls |
| `StopRuns.RestartNeedsDisableAndNewCommand` | src/robot_io/daemon/safety_supervisor.cpp:407-451 | after an axis leaves running, its next enable comes after a disable output and with a strictly greater command sequence |
| `StopRuns.DisableNeedsRestOrTimeout` | src/robot_io/daemon/safety_supervisor.cpp:429-447 | as long as a stop has not ended, an evaluation that is no fault reset outputs disable if and only if the configured number of latest evaluations saw standstill or the safe-stop timeout has run |
| `StopRuns.ShutdownTerminates` | src/robot_io/daemon/safety_supervisor.cpp:429-479 | with time in order, every evaluation at or after the first one after the request plus the timeout disables all axes and reports completion |
| `StopRuns.CompleteMeansOff` | src/robot_io/daemon/safety_supervisor.cpp:474-479 | whenever completion is reported, every axis is in phase disabled |
| `StopRuns.ShutdownIsStable` | src/robot_io/daemon/safety_supervisor.cpp:350-479 | once complete, shutdown stays complete and every later output is disable, whatever the inputs |
| `DeviceCycle.Controller.CycleAxes` | src/robot_io/daemon/daemon.cpp:618-627 | the loop runs every axis object once on its own command and PDO and disturbs no other |
| `DeviceCycle.Controller.ProcessDeviceCycle` | src/robot_io/daemon/daemon.cpp:590-663 | one call of supervisor and axis objects is the input events followed by one cycle of the run model, with its PDOs, stamped feedback, reasons and requests; a daemon that is not running, or a cycle without one PDO per axis, takes no input and changes nothing |
| `LocalSnapshot.RunInv` | include/policy_runtime/robot_io/daemon/local_snapshot.hpp:24-69 | every interleaving keeps the writer, reader and record invariants of the two-slot seqlock |
| `LocalSnapshot.ReadsAreLinearizable` | include/policy_runtime/robot_io/daemon/local_snapshot.hpp:42-69 | the value of every finished read was, whole, the active slot's content at an instant between its start and end |
| `LocalSnapshot.ReadsNeverGoBack` | include/policy_runtime/robot_io/daemon/local_snapshot.hpp:42-69 | a read that starts after another has ended never returns an older publication |
| `LocalSnapshot.UndisturbedReadSucceeds` | include/policy_runtime/robot_io/daemon/local_snapshot.hpp:42-69 | with the writer at rest, a read returns the latest publication on its first attempt |
| `SnapshotProgress.PublicationIsWaitFree` | include/policy_runtime/robot_io/daemon/local_snapshot.hpp:24-40 | whatever readers do, a publication is the active content after exactly four writer steps more than it has words, and not before |
| `SnapshotProgress.ReadEndsOnlyWith` | include/policy_runtime/robot_io/daemon/local_snapshot.hpp:42-69 | in every interleaving a read ends with a value, or because nothing was ever published, or after at least sixteen writer steps since it began |
| `EventQueue.EventSurvives` | include/policy_runtime/robot_io/dds/realtime_mailbox.hpp:64-67 | ticket and payload survive as bytes for every ticket of 64 bits and every payload |
| `EventQueue.RunInv` | include/policy_runtime/robot_io/dds/realtime_mailbox.hpp:15-97 | every interleaving of one producer and one consumer, for every payload size and capacity, keeps the ring invariant |
| `EventQueue.PopsAreUntornAndOrdered` | include/policy_runtime/robot_io/dds/realtime_mailbox.hpp:70-97 | pops return exactly pushed values, whole, at strictly increasing tickets |
| `EventQueue.DroppedCoversSkipped` | include/policy_runtime/robot_io/dds/realtime_mailbox.hpp:70-97 | the drop counter is never below the number of events the consumer skipped |
| `EventQueue.PushAlone` | include/policy_runtime/robot_io/dds/realtime_mailbox.hpp:70-79 | all steps of one push taken without interleaving are the whole push that the class states |
| `EventQueue.PopAlone` | include/policy_runtime/robot_io/dds/realtime_mailbox.hpp:81-97 | all steps of one pop taken without interleaving are the whole pop that the class states, its result included |
| `EventQueue.EmptyPopHasACause` | include/policy_runtime/robot_io/dds/realtime_mailbox.hpp:81-97 | in every interleaving a pop returns nothing only if it found nothing new, made sixteen attempts, or copied another event whole |
| `EventQueue.SensorEventQueue.Push` | include/policy_runtime/robot_io/dds/realtime_mailbox.hpp:70-79 | a push without a pop in progress stores the event, overwrites the oldest when full and counts it as dropped; popped + dropped + held stays published |
| `EventQueue.SensorEventQueue.Pop` | include/policy_runtime/robot_io/dds/realtime_mailbox.hpp:81-97 | a pop without a push in progress returns the oldest event still held, and the conservation law holds |
| `Admission.RunInv` | src/transport/ethercat/master.cpp:494-642 | every interleaving of cycles, open with its rollback, and close keeps the admission invariant |
| `Admission.CountIsExact` | src/transport/ethercat/master.cpp:605-642 | the low bits of the word are the number of admitted cycles and never carry into the open bit |
| `Admission.BackendIsGuarded` | src/transport/ethercat/master.cpp:570-718 | admitted cycles find the backend active, and deactivate runs only with no cycle admitted |
| `Admission.NothingEntersAClosedGate` | src/transport/ethercat/master.cpp:570-633 | between the closing step and the next open no cycle is admitted |
| `Admission.NoLostWakeup` | src/transport/ethercat/master.cpp:570-642 | a closer that sleeps waits for a cycle still admitted or for one that has left and is about to notify, and any notification sends it back to compare the word |
| `Admission.CloserCanSleepPastTheLastCycle` | src/transport/ethercat/master.cpp:635-642 | a run in which the closer sleeps with no cycle admitted and the notification still to come |
| `Admission.DrainFinishes` | src/transport/ethercat/master.cpp:570-595 | once the last cycle has left, an awake closer reaches deactivation in at most two checks, and a sleeping one after the notification that is then still to come |
| `Admission.OpenGateAdmits` | src/transport/ethercat/master.cpp:605-633 | while the gate is open and not full, an undisturbed cycle is admitted |
| `Admission.TurnedAwayOnlyWhenClosedOrFull` | src/transport/ethercat/master.cpp:620-633 | in every interleaving a cycle is turned away only on a word it saw closed or full; one that lost a race looks again |
| `Admission.BackendActiveExactlyWhen` | src/transport/ethercat/master.cpp:494-595 | in every interleaving the backend is active exactly from an activation that succeeded until the drained gate deactivates it |
| `Mailbox.RunInv` | src/transport/ethercat/master.cpp:128-437 | every interleaving keeps the holder, liveness and section invariants of requests; which request is staged is stated by the `MailboxOrder` rows |
| `Mailbox.SettledIsForever` | src/transport/ethercat/master.cpp:233-437 | a settled request keeps its phase whatever happens later, reopening the same generation included |
| `Mailbox.FailedIsAbsorbing` | src/transport/ethercat/master.cpp:270-295 | phase failed never changes again |
| `Mailbox.CloseSettlesEveryRequest` | src/transport/ethercat/master.cpp:297-311 | when closing a generation has returned, all its requests are settled; with the mailbox closed all requests are |
| `Mailbox.ReportsOnceCompleted` | src/transport/ethercat/master.cpp:184-216 | a request ever reported completed is settled as completed |
| `Mailbox.CompletedIsReportedForever` | src/transport/ethercat/master.cpp:184-216 | after a report of completed every later report of that request is completed |
| `Mailbox.CompletedWasCarriedOut` | src/transport/ethercat/master.cpp:344-437 | a completed request was reported done and successful by the backend, and its generation was open when that was judged |
| `Mailbox.FailedPhaseIsReportedForever` | src/transport/ethercat/master.cpp:184-216 | a request in phase failed is reported failed by every status that has not looked at it before |
| `Mailbox.RunLooked` | src/transport/ethercat/master.cpp:184-216 | in every interleaving a phase that a status has seen under the mutex stays if it is final, and ends in a final one if it is terminalizing |
| `Mailbox.DoomedIsForever` | src/transport/ethercat/master.cpp:184-216 | a request that is failed, or terminalizing with its generation closed and no success about to be stored, stays so |
| `Mailbox.DoomedIsNeverReportedCompleted` | src/transport/ethercat/master.cpp:184-216 | such a request is not reported completed by any later status |
| `Mailbox.FailedReportIsFinalExactlyWhen` | src/transport/ethercat/master.cpp:184-216 | after a status whose two loads make it report failed, a later one can report completed if and only if the request is completed already or an owner is about to store its success |
| `Mailbox.FailedReportCanTurnCompleted` | src/transport/ethercat/master.cpp:202-205 | a run in which a request is reported failed while its success is about to be stored, and then completed |
| `Mailbox.FailedReportAfterCompletion` | src/transport/ethercat/master.cpp:191-205 | a run in which a request is completed between the two loads of a status, is reported failed, and then completed |
| `MailboxOrder.OldestIsStaged` | src/transport/ethercat/master.cpp:245-258 | in every run, staging takes the queued request of the open generation with the smallest id, and takes none only if none is queued |
| `MailboxOrder.NobodyIsPutBack` | src/transport/ethercat/master.cpp:259-267 | in every run the store into the staging slot finds it empty, so no staged request is ever queued again |
| `MailboxOrder.StagedInOrder` | src/transport/ethercat/master.cpp:233-268 | over every run, requests of one generation are staged in the order of their ids, each at most once |
| `MailboxOrder.EnqueueIsExact` | src/transport/ethercat/master.cpp:128-173 | an undisturbed enqueue adds one queued request under a new id exactly when its generation is both the open one and the master's, and else changes nothing |
| `MailboxOrder.OldestIsServed` | src/transport/ethercat/master.cpp:233-437 | after any run that leaves a mailbox open and idle, one stager and one owner give the oldest queued request exactly the outcome of its transfer and change nothing else |
| `MailboxOrder.BacklogIsServed` | src/transport/ethercat/master.cpp:233-437 | every backlog of an open, idle mailbox can be completed that way, all other requests untouched |
| `MailboxLifecycle.OpenIsExact` | src/transport/ethercat/master.cpp:79-109 | an open succeeds if and only if there is a master generation, nothing is open, staged or to be cancelled, and the generation is still the master's at the last check |
| `MailboxLifecycle.OpenForParentIsExact` | src/transport/ethercat/master.cpp:313-325 | an open on behalf of the master succeeds if and only if its generation is not 0 and nothing is open, staged or to be cancelled |
| `MailboxLifecycle.CancellationIsExact` | src/transport/ethercat/master.cpp:344-366 | an owner that finds a cancellation asked for clears slot and request exactly if the backend has cancelled |
| `MailboxLifecycle.ResetVacates` | src/transport/ethercat/master.cpp:336-342 | a reset leaves a closed mailbox with nothing staged and nothing to cancel |
| `MailboxLifecycle.CloseRunsThrough` | src/transport/ethercat/master.cpp:111-118 | a close that finds no outcome about to be stored ends with every unfinished request of its generation failed, all others unchanged, and the cancellation asked for |
| `MailboxLifecycle.CloseForParentRunsThrough` | src/transport/ethercat/master.cpp:327-334 | a close on behalf of the master does the same for its generation, without asking for a cancellation |
| `MailboxLifecycle.CloseThenReopen` | src/transport/ethercat/master.cpp:79-118 | a mailbox that was closed and cancelled opens again and is ready to serve |
| `CommandHandoff.RunInv` | src/robot_io/daemon/daemon.cpp:504-560 | every interleaving of ingress and consumer on a monotone clock keeps the handoff invariant; that rejections raise the barrier is stated by `RefusalRaisesTheBarrier` |
| `CommandHandoff.DeliveryOutcome` | src/robot_io/daemon/daemon.cpp:550-560 | a delivered publication is accepted, or a duplicate exactly when it is the one held |
| `CommandHandoff.HandoffIsNeverRejected` | src/robot_io/daemon/daemon.cpp:504-560 | the supervisor never rejects a snapshot taken from the handoff |
| `CommandHandoff.AcceptedIsOrderedSubsequence` | src/robot_io/daemon/daemon.cpp:504-560 | what the supervisor accepts is a strictly increasing subsequence of what the ingress accepted |
| `CommandHandoff.TrustedCommandIsPastEveryRejection` | src/robot_io/daemon/daemon.cpp:534-560 | trusted commands are the held publication's, published after every acknowledged rejection |
| `CommandHandoff.TrustReturnsOnlyWithNewerCommand` | src/robot_io/daemon/daemon.cpp:538-560 | withdrawn trust comes back only with a newer publication, never by replay |
| `CommandHandoff.AcknowledgedRejectionWithdrawsTrust` | src/robot_io/daemon/daemon.cpp:538-549 | acknowledging a rejection withdraws trust and moves the barrier up; `RefusalWithdrawsTrust` shows that every rejection comes to that |
| `CommandHandoff.RefusalRaisesTheBarrier` | src/robot_io/daemon/daemon.cpp:520-523 | in every run a snapshot that the ingress refuses raises the barrier above every earlier one, loaded or acknowledged |
| `CommandHandoff.RefusalWithdrawsTrust` | src/robot_io/daemon/daemon.cpp:504-549 | after any run and any refused snapshot, whatever happens meanwhile, the first consumption that loads its barrier afterwards ends without trust and has acknowledged the refusal |
| `CommandHandoff.RefusalWithdrawsTrustAtOnce` | src/robot_io/daemon/daemon.cpp:504-549 | with the consumer waiting, trust is gone after the next barrier load, event load and consumption |
| `CommandHandoff.AcceptedCommandIsTrusted` | src/robot_io/daemon/daemon.cpp:504-560 | a snapshot that the ingress accepts is the command the supervisor trusts after two undisturbed consumptions, and after one if and only if no older rejection is still to be acknowledged |
| `CommandHandoff.ReplayRestoresNothing` | src/robot_io/daemon/daemon.cpp:538-560 | while nothing newer is published, nothing the consumer does restores withdrawn trust |
| `CommandHandoff.RacedCommandIsNeverTrustedAgain` | src/robot_io/daemon/daemon.cpp:534-560 | after any run, a command that races ahead of a rejection is trusted once, and from the acknowledgement on never again while nothing newer is published |
| `St3215Protocol.ComputeChecksum` | src/devices/st3215/protocol.cpp:149-159 | the loop computes the complement of the byte sum: sum plus checksum is 255 modulo 256 |
| `St3215Protocol.EncodeThenDecode` | src/devices/st3215/protocol.cpp:84-134 | encoding succeeds exactly up to 253 parameters, and then decoding gives the packet back |
| `St3215Protocol.DecodeThenEncode` | src/devices/st3215/protocol.cpp:84-134 | a frame that decodes is the only encoding of its packet |
| `St3215Protocol.FrameLayout` | src/devices/st3215/protocol.cpp:84-102 | the bytes of a frame one by one; everything behind the header sums to 255 modulo 256 |
| `St3215Protocol.OneWrongByteIsDetected` | src/devices/st3215/protocol.cpp:104-134 | a good frame with any one byte changed never decodes |
| `St3215Protocol.NextAppend` | src/devices/st3215/protocol.cpp:172-211 | more bytes change neither a complete item nor what follows it |
| `St3215Protocol.DrainAppend` | src/devices/st3215/protocol.cpp:172-211 | draining early and going on with the kept bytes gives the same items and rest |
| `St3215Protocol.ChunkIndependence` | src/devices/st3215/protocol.cpp:161-211 | however a stream is cut into chunks, items and kept bytes are those of one pass over it |
| `St3215Protocol.SentPacketsAreParsed` | src/devices/st3215/protocol.cpp:84-211 | packets sent back to back are parsed as sent, with no byte left over |
| `St3215Protocol.NoiseCostsNothing` | src/devices/st3215/protocol.cpp:172-181 | noise without a header byte before a packet loses nothing |
| `St3215Protocol.FindHeader` | src/devices/st3215/protocol.cpp:173-181 | the scan stops at the first header, or at the last byte |
| `St3215Protocol.MoveDown` | src/devices/st3215/protocol.cpp:217-221 | the in-place move leaves exactly the bytes behind the prefix |
| `St3215Protocol.StreamParser.Append` | src/devices/st3215/protocol.cpp:161-170 | appends the data, or empties the buffer and fails exactly when it does not fit |
| `St3215Protocol.StreamParser.DiscardPrefix` | src/devices/st3215/protocol.cpp:217-221 | drops the prefix, clamped to the size |
| `St3215Protocol.StreamParser.NextItem` | src/devices/st3215/protocol.cpp:172-211 | packet, error or nothing, and the remaining bytes, are those of the specification |
| `St3215Protocol.StreamParser.Feed` | src/devices/st3215/protocol.cpp:161-211 | a drained parser takes any chunk of up to 260 bytes without overflow, and draining terminates with the specified items |
| `St3215Protocol.StreamParser.FeedAll` | src/devices/st3215/protocol.cpp:161-211 | a fresh parser fed any such chunks reports what one pass over their concatenation gives |
| `SerialFramer.ExtractFollowsNext` | src/transport/serial/serial_transport.cpp:214-243 | one extraction mirrors one parser step and skips exactly its length errors |
| `SerialFramer.FramersAgree` | src/transport/serial/serial_transport.cpp:214-243 | at maximum 259, decoded frames equal the parser's results without length errors, the rest is equal, and the error flag is set exactly if there was a length error |
| `SerialFramer.SmallMaximumLosesAPacket` | src/transport/serial/serial_transport.cpp:229-233 | below 259 the framer loses the largest packet, which the parser reads |
| `SerialFramer.AgreementNeedsTheFullMaximum` | src/transport/serial/serial_transport.cpp:214-243 | among the maxima the transport accepts, both agree on all streams if and only if the maximum is 259 |
| `SerialFramer.Framer.ExtractFrame` | src/transport/serial/serial_transport.cpp:214-243 | frame, remaining stream and error flag of the recursive method are those of the specification |
| `SerialFramer.Framer.DiscardStreamPrefix` | src/transport/serial/serial_transport.cpp:207-212 | drops the prefix, clamped to the size |
| `ServoBatch.RunInv` | src/devices/st3215/servo.cpp:55-108 | every interleaving of stagers keeps gates, logs and per-thread progress consistent |
| `ServoBatch.BatchIsAllOrNone` | src/devices/st3215/servo.cpp:602-643 | a finished batch has written its command to every servo exactly once, or to none; duplicate means every servo had it |
| `ServoBatch.InspectionIsExact` | src/devices/st3215/servo.cpp:76-99 | from the fields of the command: accepted exactly when well formed, timely, and with a larger sequence and no earlier timestamp than the held one if there is one; duplicate exactly when well formed, timely and equal to the held one |
| `ServoBatch.VerdictIsUniform` | src/devices/st3215/servo.cpp:627-642 | once all gates are held, the batch commits exactly if every servo's command is sound and newer, answers duplicate exactly if every servo holds its command, and else rejects |
| `ServoBatch.TurnedAwayExactlyWhen` | src/devices/st3215/servo.cpp:602-616 | which requests are rejected before any gate is touched, both ways, on their fields |
| `ServoBatch.UndisturbedStagerIsAnswered` | src/devices/st3215/servo.cpp:55-66 | after any run that leaves the gates of its servos open, a stager that nobody disturbs returns the joint verdict of its commands within four steps per servo |
| `ServoBatch.UndisturbedBatchIsWritten` | src/devices/st3215/servo.cpp:602-643 | in particular a batch of sound, newer commands is accepted and written to every servo exactly once |
| `ServoBatch.TurningBackNeedsARival` | src/devices/st3215/servo.cpp:617-626 | a stager turns back before inspecting only because another one owns the gate it needs |
| `ServoBatch.WritingHoldsEveryGate` | src/devices/st3215/servo.cpp:634-638 | while a batch writes, it owns every gate and nobody else owns any |
| `ServoBatch.GatesAreReleased` | src/devices/st3215/servo.cpp:602-643 | when every stager has returned, on whatever path, every gate is open |
| `ServoBatch.CommitsAreOrdered` | src/devices/st3215/servo.cpp:76-108 | on every servo commits carry strictly increasing sequences, timestamps in order, and were timely |
| `ServoBatch.BatchesAreSerialised` | src/devices/st3215/servo.cpp:602-643 | two accepted batches are written in the same order on every servo, that of their sequences |
| `ServoBatch.StagersReturn` | src/devices/st3215/servo.cpp:602-643 | a stager returns within four of its own steps per servo whatever the others do |
| `ServoBus.PositionRoundTrip` | src/devices/st3215/protocol.cpp:234-269 | every position unit survives the trip to radians and back except the maximum, which comes back as 0 |
| `ServoBusLaws.PositionIsNearest` | src/devices/st3215/protocol.cpp:234-259 | an angle given with any number of turns is written as the nearest position unit, the even one of two equally near |
| `ServoBus.GoalFrameIsRead` | src/devices/st3215/protocol.cpp:62-72 | what a servo decodes from a goal frame is its own id, the goal register, and the position, time and speed that were meant |
| `ServoBus.ReadFrameIsRead` | src/devices/st3215/protocol.cpp:74-76 | a read request decodes to its servo's id, the read instruction, the present-position register and two bytes |
| `ServoBus.AnsweredPositionIsReported` | src/devices/st3215/servo.cpp:354-404 | the position a servo answers with is the one its feedback shows, valid unless the command timed out, disabled unless it is active |
| `ServoBusLaws.ReplyIsShownInFull` | src/devices/st3215/servo.cpp:302-404 | a reply is shown with its status, time and transport state, the command it falls under, and exactly the flags that device error, timeout and activity call for |
| `ServoBusLaws.FaultIsShown` | src/devices/st3215/servo.cpp:320-340 | a response that latches the fault is shown as stale with its cause, never as valid |
| `ServoBusLaws.FailedWriteIsShown` | src/devices/st3215/servo.cpp:342-352 | so is a request that could not be written |
| `ServoBusLaws.FaultLatchesExactlyWhen` | src/devices/st3215/servo.cpp:252-352 | a cycle latches the fault if and only if the response due is neither a reply of that servo nor silence within its timeout of the last reply or the start, or the request cannot be built or written |
| `ServoBus.NothingIsSentOnceLatched` | src/devices/st3215/servo.cpp:252-281 | once the fault is latched no later cycle of the run sends anything |
| `ServoBus.LatchIsForever` | src/devices/st3215/servo.cpp:252-281 | the fault latch is permanent |
| `ServoBus.HealthFollowsTheLatch` | src/devices/st3215/servo.cpp:241-246 | in every run the bus shows the health it was started with until the fault is latched, and failed from then on |
| `ServoBus.CycleAsksInTurn` | src/devices/st3215/servo.cpp:266-272 | without a fault cycle i asks the servo whose turn it is |
| `ServoBus.EachServoOncePerRound` | src/devices/st3215/servo.cpp:252-281 | any n consecutive cycles without a fault ask each of the n servos exactly once |
| `ServoBus.GoalsOnlyGetNewer` | src/devices/st3215/servo.cpp:406-444 | goals written to one servo carry strictly increasing command sequences |
| `ServoBus.GoalsAreLive` | src/devices/st3215/servo.cpp:283-300 | every goal frame carries an accepted command of that servo that is enabled, not emergency-stopped and not expired, with the right bytes |
| `ServoBus.ActiveCommandIsWrittenOnce` | src/devices/st3215/servo.cpp:406-444 | in its turn a servo's held command is written if and only if it is active and its sequence was not written before |
| `ServoBusLaws.CommandIsHeldUntilExpiry` | src/devices/st3215/servo.cpp:283-300 | in every run a command that a cycle reads or finds held is held after it unless it is out of time, and publications are only replaced by later ones |
| `ServoBusLaws.CommandInTimeIsWritten` | src/devices/st3215/servo.cpp:406-444 | in its turn a servo is written the command of the latest publication read, if and only if it is enabled, not stopped, in time and not written before |
| `ServoBus.AcceptedCommandIsWrittenAtMostOnce` | src/devices/st3215/servo.cpp:55-108 | for any stagers and any bus run that reads what they accepted, no accepted command is written in two cycles |
| `ServoBus.ValidFeedbackWasAnswered` | src/devices/st3215/servo.cpp:302-340 | feedback marked valid was answered by that very servo in the cycle whose time it carries |
| `ServoBusLaws.FeedbackShowsExpiry` | src/devices/st3215/servo.cpp:302-319 | in every run an error-free reply is shown as valid exactly while the command last read has not timed out |
| `ServoBus.SilenceIsNoticed` | src/devices/st3215/servo.cpp:324-339 | in any round without a fault each servo passes a check of its feedback timeout |
| `ServoBusLaws.LastResponseIsTrue` | src/devices/st3215/servo.cpp:302-319 | in every run the time of the last response is that of a cycle that took a reply of that servo |
| `ServoBusLaws.SilentServoIsLatched` | src/devices/st3215/servo.cpp:324-339 | in every run a servo whose replies and start all lie further back than its feedback timeout has latched the fault by the end of the round |
| `ServoBus.RunsExist` | src/devices/st3215/servo.cpp:252-281 | every sequence of inputs from a started bus is a run |
| `ServoBus.Bus.RefreshStaged` | src/devices/st3215/servo.cpp:283-300 | takes over a new publication and expires the held command as specified, for that servo only |
| `ServoBus.Bus.PublishFailedFeedback` | src/devices/st3215/servo.cpp:446-464 | the assignments, one after the other, publish the last feedback as failed with flag, command, time and transport status, and store the transport's health |
| `ServoBus.Bus.ConsumeResponse` | src/devices/st3215/servo.cpp:354-404 | the branches, one after the other, make the specified feedback of a good answer, or the error of a bad one |
| `ServoBus.Bus.PublishAnswer` | src/devices/st3215/servo.cpp:306-319 | feedback is marked late when the command timed out and disabled when it is not active |
| `ServoBus.Bus.PollResponse` | src/devices/st3215/servo.cpp:302-340 | feedback, latch, stored health and servo state after a response, an error, silence or an exception |
| `ServoBus.Bus.SendRequest` | src/devices/st3215/servo.cpp:406-444 | goal or read request, the goal memory, and how the write ended |
| `ServoBus.Bus.RunCycle` | src/devices/st3215/servo.cpp:252-281 | whole new bus state and request of one cycle, exceptions included, are those of the specification |
| `RealtimeLoop.DeadlineIsOnGrid` | src/robot_io/daemon/realtime_loop.cpp:206-258 | on non-negative readings the deadline is a 64-bit time, and equals first + period * (cycles + sleep failures + skipped - 1) if and only if that is one |
| `RealtimeLoop.DeadlineIsAhead` | src/robot_io/daemon/realtime_loop.cpp:206-227 | an unsaturated deadline is later than the time on entry; if releases were skipped it is the first grid point that is, and else it is one period on |
| `RealtimeLoop.WaitsAreCounted` | src/robot_io/daemon/realtime_loop.cpp:206-258 | in every run cycles counts the waits that slept to their deadline and failures those that could not |
| `RealtimeLoop.MissesCountReleases` | src/robot_io/daemon/realtime_loop.cpp:260-277 | a finish misses the next release and each later one it lies at or behind, and none if it is on the release |
| `RealtimeLoop.MissesNeverExceedSkips` | src/robot_io/daemon/realtime_loop.cpp:260-277 | with at most one finish between two waits, on a monotone clock, misses never exceed skipped releases after a wait |
| `RealtimeLoop.SecondFinishBreaksTheBound` | src/robot_io/daemon/realtime_loop.cpp:260-277 | any sequence with two finishes between two waits has monotone readings that break the bound, while there is room below the largest time |
| `RealtimeLoop.BoundIsExact` | src/robot_io/daemon/realtime_loop.cpp:206-277 | the bound holds after every wait for all monotone readings if and only if no two finishes fall between two waits |
| `RealtimeLoop.RepeatedFinishBreaksTheBound` | src/robot_io/daemon/realtime_loop.cpp:260-277 | a concrete run with two finishes in a row has more misses than skips |
| `RealtimeLoop.SaturatingAdd` | src/robot_io/daemon/realtime_loop.cpp:35-40 | the sum, or the largest 64-bit time when it is larger, for every increment |
| `RealtimeLoop.Loop.SkipLate` | src/robot_io/daemon/realtime_loop.cpp:215-227 | skips exactly the releases not later than now, as far as 64-bit times reach, without overflow |
| `RealtimeLoop.Loop.SleepUninterrupted` | src/robot_io/daemon/realtime_loop.cpp:228-231 | interrupted sleeps are repeated, and the first other outcome is the one used |
| `RealtimeLoop.Loop.WaitNext` | src/robot_io/daemon/realtime_loop.cpp:206-258 | schedule, counters, context, period, wake latency and its maximum are those of the specification, and no 64-bit operation overflows |
| `RealtimeLoop.Loop.ObserveFinish` | src/robot_io/daemon/realtime_loop.cpp:260-277 | counts the missed deadlines as specified, stores the execution time and its maximum, and no 64-bit operation overflows |

## Left out

- IEEE rounding, NaN and infinities of doubles: values are reals; a non-finite servo target is a missing target, and non-finite limits, scales and setpoints are not modelled.
- The C++ memory model: every atomic access is one sequentially consistent step, also the relaxed byte accesses of the event queue.
- Wrap-around of 64-bit epochs, sequences and counters: they are unbounded, except for the 32-bit saturations and the 64-bit times that the code handles itself. Event tickets have 64 bits, and pushes end when they run out.
- Axis modes outside the three that `configure` accepts: the mode is a datatype, so that check has nothing to reject.
- Axis masks and feedback bit fields: modelled as sets of axis numbers and of reasons.
- Update in place inside the step machines (`LocalSnapshot`, `EventQueue`, `Admission`, `Mailbox`, `CommandHandoff`, `ServoBatch`): interleaved code is modelled on values, since it is the order of the atomic steps that matters.
- Publishing and reading a snapshot inside the command handoff and inside servo staging: one atomic step each, as `LocalSnapshot.ReadsAreLinearizable` allows.
- Mailbox payloads and the backend's request objects. The loads that `enqueue` and `stage_one` make before they take the mutex are left out, which only allows more runs. Under the mutex, `stage_one` finds and exchanges its candidate in one step: queued requests change only under that mutex.
- The mailbox reset after the master has deactivated is modelled for a closed mailbox only: the master calls it after closing its generation, and while the parent generation is 0 no other can be opened.
- DeviceCycle.Controller.ProcessDeviceCycle: leaves out the counters the daemon publishes for diagnosis (working counter, clock deviation, serial flags) and the sensor events it hands to DDS.
- "Every rejection costs one full safe-stop cycle" (comment at `src/robot_io/daemon/daemon.cpp:573-574`): not claimed, since commands are consumed twice per cycle and the second time can accept a newer command.
- DriveResponse.SteadyEnableReachesOperation: the drive makes only the transitions that a control word causes in CiA 402; those it makes by itself (start-up, a fault, the end of a quick stop) are left out, and switch on with enable operation in one word counts as switch on.
- ServoBus.Bus.PollResponse: takes the transport's health and error counters once per cycle.
- `EthercatMaster::cycle` between admission and leaving, and the configuration checks of `open`: calls into the backend.
- Receive and transmit queues of the serial transport, poll, wake-up and timeouts: operating system calls.
- Physical pairing of devices in `src/robot_io/daemon/topology.cpp`, the Damiao codec, JSON profiles, RPC envelopes, DDS and ZeroMQ bridges, the Python runtime, policies and tools: thin, library-bound or easy members.
