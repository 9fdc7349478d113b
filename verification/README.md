# SimulatorX, modelled and proved

SimulatorX simulates three devices behind three protocol hosts and starts, stops and drives them from a
parent process.  This project models its behaviour in Dafny and proves what it promises.

* **Rotary axis.** `Motion` has the move and brake profiles over exact reals, `Kinematics` what they keep:
  continuity, speed and acceleration bounds, durations, room to brake.  `Axis` is the axis as a state machine
  and as a class with fields; `AxisTheorems` proves the invariant of every run, that a stop ends inside the
  move, that time may be cut up in any way, and that recovery always works.  `AxisAnswers` says, in the
  caller's terms, when each command is refused and where each move ends.
* **SDK host.** `Sequences` are the injected return values as one queue per target.  `SdkService` advances
  the axis lazily from a clock and applies overrides; `SdkTheorems` proves that polling changes nothing, and
  `SdkHistories` that the host is the bare axis and the bare sequences run side by side.  `SdkAnswers`
  says what callers see: of a move they sent, a fault they set, a reset, a failure.  `WireAbi` and
  `WireTheorems` are the C library's and the adapter's ends of the wire, and a whole call through both.
* **TCP host.** `Targets`, `Modbus` and `Bytes` are the codec and the registers, `Framing` one connection for
  any frame handler, `TcpService` and `TcpTheorems` the host, `TcpInterleaving` any number of connections with
  control requests, `TcpHistories` their sequences.  `TcpSchedules` says
  that a connection left alone is served as if it were the only one.  `ModbusAnswers` and `TcpAnswers`
  say what peers get, register by register and byte by byte, from any host and after a start or a reset.
  `DetectorClient` is the client written apart from the server, and an exchange between the two;
  `ClientAnswers` what it learns, and how late is too late.
* **Pipe.** `Pipe` is the parent and child protocol, which has no request numbers, as a transition system
  in which callers, worker, child, timeouts and failures take steps in any order; `PipeServer` is the
  child's loop, `PipeAnswers` how requests, the worker and the child end.
* **Vacuum chamber.** `Vacuum` is one update of the eight nodes, `VacuumTheorems` the interlock, the
  exponential curves and when they end, `VacuumAnswers` what an update makes of each command.
* **Operations and machines.** `Operation` and `OperationTheorems` are the SUT's asynchronous operations,
  `Runtime` and `RuntimeTheorems` the ordered start, rollback and stop of a machine.

What the source updates in place is a class whose methods are tied to functions on values; the theorems are
about those functions.  What runs concurrently is a transition system whose steps are the sections under a
lock and whatever a thread does between them.  The clock, the outcome of every hardware call, the chunks
`recv` returns and the failures of the pipe are parameters, so each theorem is for all of them.

Numbers are exact reals where the source has floats.  The library square root and exponential are
parameters known only by `Motion.SquareRoot` and `VacuumTheorems.Exponential`.  Modbus frames follow
sections 6.3, 6.4, 6.6, 6.12 and 7 of the Modbus Application Protocol V1.1b3 and section 3.1.3 of the Modbus
Messaging on TCP/IP Implementation Guide.

Where code and intention part, the model follows the code.  The vacuum interlock acts only on nodes whose
status is good; `VacuumTheorems.InterlockNeedsGoodNodes` says exactly when stored values slip past it.
Opening the valve after a pump-down leaves state 3, so state 3 says nothing about the pressure.  A stalled
axis keeps its busy flag, so only an unstalled move is promised to arrive.

`dafny verify dfyconfig.toml` checks everything.

## Model

| member | source | states |
|---|---|---|
| Kinematics.PlanIsWellPlanned | src/subsystems/motion/rotary_axis/model.py:44-53 | every move planned, trapezoid, triangle or of no length, has ramps and a cruise that cover exactly the distance, with a peak no higher than the requested speed |
| Kinematics.PlannedMoveIsSmooth | src/subsystems/motion/rotary_axis/model.py:43-67 | every planned move starts at rest where it was planned, is finished exactly from its duration on, then reads the target and zero speed; between any two times it moves forward only, within the speed, changes speed by at most the steeper ramp, and its reported velocity is the rate of change of its reported position, across all three pieces |
| Kinematics.SampleIsSmooth | src/subsystems/motion/rotary_axis/model.py:55-67 | the same for any well planned motion, stops included |
| Kinematics.StaysOnTheWay | src/subsystems/motion/rotary_axis/model.py:55-67 | the distance travelled stays between nothing and the whole distance |
| Kinematics.SampleStays | src/subsystems/motion/rotary_axis/model.py:55-57 | a finished motion reads the same for ever |
| Kinematics.DurationBounds | src/subsystems/motion/rotary_axis/model.py:47-53 | every move takes at least distance over speed, and at most that plus half the speed times the two inverse ramps |
| Kinematics.RoomToBrake | src/subsystems/motion/rotary_axis/model.py:70-80 | from any moment of a move there is room to brake before its target, and during its own braking ramp the room is used up exactly |
| Kinematics.BrakingAgain | src/subsystems/motion/rotary_axis/model.py:70-80 | a second brake planned while braking reads, at every time, what the first one would |
| Axis.RotaryAxis.Advance | src/subsystems/motion/rotary_axis/model.py:197-211 | letting time pass changes the fields to exactly the specified next state; a negative or non-finite time is refused and changes nothing |
| Axis.RotaryAxis.Execute | src/subsystems/motion/rotary_axis/model.py:153-181 | a command changes the fields to exactly the specified next state and returns the validation code |
| Axis.RotaryAxis.Accept | src/subsystems/motion/rotary_axis/model.py:165-172 | an accepted move sets target, speed and phase and plans from the present position |
| Axis.RotaryAxis.Plan | src/subsystems/motion/rotary_axis/model.py:183-188 | planning starts the profile from rest at once |
| Axis.RotaryAxis.Halt | src/subsystems/motion/rotary_axis/model.py:173-180 | Stop cancels an axis at rest and plans a brake for a moving one |
| Axis.RotaryAxis.Cancel | src/subsystems/motion/rotary_axis/model.py:190-195 | cancelling stops the axis where it is |
| Axis.RotaryAxis.Finish | src/subsystems/motion/rotary_axis/model.py:206-211 | the end of a motion sets homed and done by phase |
| Axis.RotaryAxis.SetFault | src/subsystems/motion/rotary_axis/model.py:213-228 | a fault changes the fields to exactly the specified next state; unknown names and non-Booleans are refused |
| Axis.RotaryAxis.Reset | src/subsystems/motion/rotary_axis/model.py:95-104 | reset restores the initial state whatever came before |
| AxisTheorems.EveryRunIsConsistent | src/subsystems/motion/rotary_axis/model.py:95-228 | in every run of commands, faults, time and resets: not busy means idle, at rest and at the target; busy means enabled, without alarm and not done; done means homed, enabled and without alarm; an active limit means an alarm; stalled means no speed and not stopping; position and target stay within travel |
| AxisTheorems.CourseStaysWithin | src/subsystems/motion/rotary_axis/model.py:203-205 | the boundary clamp never alters a position and the speed limit holds anywhere on a course |
| AxisTheorems.AdvancedInvariant | src/subsystems/motion/rotary_axis/model.py:197-211 | letting time pass keeps the whole invariant, private motion included |
| AxisTheorems.ExecutedInvariant | src/subsystems/motion/rotary_axis/model.py:153-181 | every command, accepted or not, keeps the invariant and leaves the position alone |
| AxisTheorems.FaultedInvariant | src/subsystems/motion/rotary_axis/model.py:213-228 | every fault change keeps the invariant and leaves the position alone |
| AxisTheorems.PositionNeverJumps | src/subsystems/motion/rotary_axis/model.py:153-228 | over any run without a reset the position ends within max speed times elapsed time of where it began |
| AxisTheorems.AdvanceMovesAtMost | src/subsystems/motion/rotary_axis/model.py:197-205 | one advance moves the axis by at most max speed times its length |
| AxisTheorems.AdvanceSplits | src/subsystems/motion/rotary_axis/model.py:197-211 | two advances equal one of the summed length, up to the stopwatch of a finished motion |
| AxisTheorems.AdvanceCatchesUp | src/subsystems/motion/rotary_axis/model.py:197-211 | an axis that is another one advanced stays so when both advance to the same time |
| AxisTheorems.AcceptedMoveArrives | src/subsystems/motion/rotary_axis/model.py:165-188 | an accepted, unstalled Home or move stays between start and goal, is busy for at least the time at full speed, and is done, homed, at rest and exactly at its goal no later than two half ramps after that |
| AxisTheorems.BrakeStopsOnTheWay | src/subsystems/motion/rotary_axis/model.py:176-180 | the end point of the brake lies between the position and the old target; on a braking ramp it is the old target |
| AxisTheorems.StopBrakesInsideTheMove | src/subsystems/motion/rotary_axis/model.py:173-180 | from every reachable busy state Stop succeeds, ends between the present position and the old target and within travel, and after the braking time the axis rests exactly there and is not done |
| AxisTheorems.StopIsIdempotent | src/subsystems/motion/rotary_axis/model.py:173-180 | Stop while braking changes no snapshot, now or at any later time |
| AxisTheorems.PanelIsIndependent | src/subsystems/motion/rotary_axis/model.py:141-228 | in every run the faults, the alarm and the enable flag are those of a small machine of their own that knows faults, Enable, Disable, ClearFault and resets: a limit raises its own alarm, the alarm outlives it until cleared, and no motion or time has a part in it |
| AxisTheorems.LimitHolds | src/subsystems/motion/rotary_axis/model.py:112-228 | while a limit is active no sequence of commands and time moves the axis, makes it busy or clears the alarm |
| AxisTheorems.RecoveryAlwaysWorks | src/subsystems/motion/rotary_axis/model.py:112-172 | from every reachable state without active faults Disable, ClearFault, Enable and Home all succeed and the axis is homed, done and at rest at its home position in bounded time |
| AxisTheorems.RecoveryIsQuick | src/subsystems/motion/rotary_axis/model.py:15-40 | with the device's constants 2.5 seconds after Home are enough from anywhere in its travel |
| AxisAnswers.ArgumentsAreChecked | src/subsystems/motion/rotary_axis/model.py:117-129 | a move is an invalid argument exactly if it has another key than the axis, which is 1, the speed, a number above 0 and no more than the maximum, and the angle, a number that a Home does not take and the others need; any other command exactly if it has a key beside the axis |
| AxisAnswers.MovesAnswer | src/subsystems/motion/rotary_axis/model.py:130-140 | a well formed move answers, in this order, alarm, not enabled, busy, not homed unless it homes, and beyond the travel, whose test is of the angle itself for MoveAbsolute and of position plus angle for MoveRelative |
| AxisAnswers.OthersAnswer | src/subsystems/motion/rotary_axis/model.py:141-146 | Disable, Stop and the queries always succeed, ClearFault and Enable are refused by an active limit, Enable also by an alarm |
| AxisAnswers.StrangeRequestsAnswer | src/subsystems/motion/rotary_axis/model.py:113-116 | an unknown function is that whatever else is wrong, and then arguments that are no dictionary are invalid |
| AxisAnswers.CodesAreDistinct | src/subsystems/motion/rotary_axis/abi.py:5-13 | no two results share a code, and only success is 0 |
| AxisAnswers.OneMoveAtATime | src/subsystems/motion/rotary_axis/model.py:134-135 | while a move is under way every other well formed move is answered busy and changes nothing |
| AxisAnswers.RefusalsChangeNothing | src/subsystems/motion/rotary_axis/model.py:155-157 | a command that is refused changes nothing at all |
| AxisAnswers.MoveAbsoluteArrives | src/subsystems/motion/rotary_axis/model.py:148-188 | from every invariant state that is enabled, homed, idle, without alarm and not stalled, an absolute move is answered limit exactly if its angle is outside the travel; otherwise it goes towards the angle, no faster than the speed sent, is busy for at least the distance over that speed, and no later than two half ramps after that it is done and at rest at that very angle |
| AxisAnswers.MoveRelativeArrives | src/subsystems/motion/rotary_axis/model.py:148-188 | the same of a relative move, to the position it began at plus the angle |
| AxisAnswers.HomeArrives | src/subsystems/motion/rotary_axis/model.py:148-188 | the same of Home, to the home position, with the axis not homed until it is there |
| AxisAnswers.StallHolds | src/subsystems/motion/rotary_axis/model.py:222-226 | a stall holds a move where it is, still busy and with the same target, for as long as it lasts |
| AxisAnswers.StallClears | src/subsystems/motion/rotary_axis/model.py:222-228 | once the stall clears the move is carried on from there and ends at its target, at its speed |
| AxisAnswers.FaultsEndMoves | src/subsystems/motion/rotary_axis/model.py:219-224 | a limit at any time, and a stall while stopping, end the move where it is, and a limit raises the alarm of its own side |
| AxisAnswers.FaultsAreTheirOwn | src/subsystems/motion/rotary_axis/model.py:213-218 | each fault is set and cleared by its own name and no other |
| AxisAnswers.DisableEndsMoves | src/subsystems/motion/rotary_axis/model.py:160-162 | Disable ends any move where it is, forgets the home position and leaves alarm and faults |
| AxisAnswers.StopAtRest | src/subsystems/motion/rotary_axis/model.py:173-175 | Stop with nothing to stop changes nothing, and ends a move held at rest where it is |
| AxisAnswers.QuarterTurn | src/subsystems/motion/rotary_axis/model.py:15-53 | with the device's constants a quarter turn takes a second and a half, a third of it each to speed up, cruise and brake |
| Sequences.SequenceStore.Set | src/framework/sequences.py:15-24 | configuring replaces the values, restarts the cursor, keeps the calls and counts the generation; a non-list is refused |
| Sequences.SequenceStore.Take | src/framework/sequences.py:26-42 | a take returns the item under the cursor and moves the cursor only past an item |
| Sequences.RemainingForetells | src/framework/sequences.py:44-53 | what a query calls remaining is how many more takes of the target will be overridden: the next ones deliver the values from the cursor on, in order, and all after them none; asking for a target without an entry is answered alike |
| Sequences.EntryIsItsHistory | src/framework/sequences.py:15-42 | after any history an entry is a count of it: the cursor is the takes since the last set, never past the length; calls and generation count across replacements |
| Sequences.TakeIsItsHistory | src/framework/sequences.py:26-42 | the n-th take since the last set returns the n-th value, and none past the end |
| Sequences.TargetsAreIndependent | src/framework/sequences.py:15-53 | an entry depends only on the operations on its own target and on resets |
| Sequences.TakeDequeues | src/framework/sequences.py:26-42 | a take removes and delivers the front of its own queue and touches no other queue |
| Sequences.DeliveredAtMostOnceInOrder | src/framework/sequences.py:15-42 | between resets two takes of a target have increasing call numbers and, when both deliver, increasing generation and index: nothing is delivered twice or out of order |
| Sequences.EveryItemIsDelivered | src/framework/sequences.py:26-42 | the (n+1)-th take after a set delivers value n of it |
| SdkService.SDKService.Sync | src/protocols/sdk/service.py:73-76 | synchronising advances the axis by the time since the last reading, never backwards |
| SdkService.SDKService.Invoke | src/protocols/sdk/service.py:85-105 | a call leaves exactly the specified host and answers with the specified reply |
| SdkService.SDKService.Dispatch | src/protocols/sdk/service.py:107-156 | a control request leaves exactly the specified host and answers with the specified reply, in the source's order of checks, a reset that raises included |
| SdkTheorems.EveryRunKeepsInvariant | src/protocols/sdk/service.py:73-156 | in every run the axis invariant holds, cursors stay in bounds, and every returned code is an int32 other than the reserved minimum |
| SdkTheorems.CallPolicy | src/protocols/sdk/service.py:89-105 | a recognised call answers 0 exactly when it was valid, not overridden by a failure, and executed; a failure override leaves the axis merely advanced; a success override never bypasses validation |
| SdkTheorems.CallTakesOne | src/protocols/sdk/service.py:94-94 | a recognised call consumes exactly one take of its own function and none of another |
| SdkTheorems.PollsMayBeDropped | src/protocols/sdk/service.py:73-80 | dropping every tick, snapshot and query from a run changes no answer to a command, and leaves a host that the other catches up with |
| SdkTheorems.PollFrequencyDoesNotMatter | src/protocols/sdk/service.py:73-105 | two runs with the same commands at the same times under monotone clocks give the same answers and, at any later time, the same snapshot, however often each was polled |
| SdkHistories.HostRunsTheAxis | src/protocols/sdk/service.py:73-154 | in every run the axis of the host is the bare axis under the time passed, the commands that answered 0, the faults and the resets: an injected failure, a refusal, a tick or a query adds nothing but time |
| SdkHistories.FailedCallsOnlyPassTime | src/protocols/sdk/service.py:93-100 | however many calls a run has, if all fail, by injection or validation, the axis is left as one synchronisation at the end would leave it |
| SdkHistories.HostNeverJumps | src/protocols/sdk/service.py:73-154 | between resets, under a clock that never goes back, the axis of the host has moved no further than full speed over the clock time |
| SdkHistories.HostRunsTheSequences | src/protocols/sdk/service.py:94-152 | in every run the sequences of the host are exactly the history of its recognised calls, accepted configurations and resets |
| SdkHistories.CallAnswersItsItem | src/protocols/sdk/service.py:94-98 | after any run the next call of a function, the n-th recognised since its last configuration, answers item n of that configuration, and what validation says if that is 0 or missing |
| SdkHistories.EachItemAnswersOneCall | src/protocols/sdk/service.py:94-98 | in every run no configured code answers two calls, and codes answer in order |
| SdkTheorems.DispatchedCallIsACall | src/protocols/sdk/service.py:124-129 | the double synchronisation of a call over the control socket changes neither its answer nor the host |
| SdkAnswers.EveryShownStateMakesSense | src/subsystems/motion/rotary_axis/model.py:106-110 | in every run from start-up, every state in a reply, to calls, snapshots, faults and diagnostics, is within travel and speed; not busy means idle, at rest and at the target; busy means enabled, without alarm and not done; done means homed; an active limit means an alarm |
| SdkAnswers.MoveIsShown | src/protocols/sdk/service.py:85-126 | after an unstalled move was answered 0 a snapshot with nothing in between shows, before the distance over the speed sent has passed, busy, not done, the position on the way and the target it was sent to, and once two half ramps more have passed done, homed, velocity 0 and the position there: the angle for MoveAbsolute, the position shown before plus the angle for MoveRelative |
| SdkAnswers.HomingIsShown | src/protocols/sdk/service.py:85-126 | the same after Home, with homed shown exactly when it is no longer busy |
| SdkAnswers.SwitchIsShown | src/protocols/sdk/service.py:85-105 | Enable shows in the enabled flag and nowhere else; Disable shows an axis at rest where it was, neither enabled nor homed |
| SdkAnswers.AskingShowsTheState | src/protocols/sdk/service.py:85-105 | a query, and any call that is refused, shows what a snapshot at that time shows |
| SdkAnswers.FaultIsShown | src/protocols/sdk/service.py:130-134 | a fault set or cleared shows under its own name and the other two as before, a new limit also as its alarm, and the position does not move |
| SdkAnswers.StrangeFaultsAreRefused | src/subsystems/motion/rotary_axis/model.py:213-217 | an unknown fault or a value that is no Boolean is refused and changes nothing |
| SdkAnswers.StrangeCallsAreRefused | src/subsystems/motion/rotary_axis/adapter.py:15-21 | a call is refused without being counted exactly if it names another SDK or an unknown function, or brings no dictionary |
| SdkAnswers.SequencesAreChecked | src/subsystems/motion/rotary_axis/adapter.py:41-44 | a sequence is accepted exactly for a known function with a list of at most 10000 integers of 32 bits other than the reserved minimum; one that is refused changes nothing |
| SdkAnswers.StartIsShown | src/subsystems/motion/rotary_axis/model.py:95-104 | a host that has just started shows an axis at its initial position, at rest, off, not homed, without alarm or fault, and no sequences |
| SdkAnswers.ResetIsAFreshStart | src/protocols/sdk/service.py:146-155 | a reset leaves exactly the host that would have started at its end |
| SdkAnswers.FailureIsFinal | src/protocols/sdk/service.py:115-123 | after a failure nothing but ping and diagnostics is answered, and nothing changes any more |
| WireAbi.PutU32 | src/subsystems/motion/rotary_axis/native/simulatorx_sdk.c:58-61 | writes the four bytes of a word in network order and nothing else |
| WireAbi.PutDouble | src/subsystems/motion/rotary_axis/native/simulatorx_sdk.c:69-73 | the shifting loop writes the eight bytes of the bit pattern in network order and nothing else |
| WireAbi.GetDouble | src/subsystems/motion/rotary_axis/native/simulatorx_sdk.c:75-81 | the shifting loop reads them back and never loses a bit to the 64-bit width |
| WireAbi.FillRequest | src/subsystems/motion/rotary_axis/native/simulatorx_sdk.c:104-135 | the request buffer is magic, function number, axis and the two doubles |
| WireAbi.ReadReply | src/subsystems/motion/rotary_axis/native/simulatorx_sdk.c:140-162 | the reply is taken apart and checked as specified, the state only when asked for and OK |
| WireAbi.CallIsUnderstood | src/subsystems/motion/rotary_axis/adapter.py:23-32 | for every public C function and finite arguments, the adapter decodes the function, the signed axis and exactly the arguments meant |
| WireAbi.RequestRoundTrip | src/subsystems/motion/rotary_axis/adapter.py:9-25 | every request with a known function number decodes to itself, doubles bit for bit |
| WireAbi.FlagsRoundTrip | src/subsystems/motion/rotary_axis/adapter.py:34-36 | the fault bits and the three faults determine one another |
| WireAbi.ReplyIsUnderstood | src/subsystems/motion/rotary_axis/native/simulatorx_sdk.c:140-162 | an acceptable reply gives the C caller its code and, with OK, the very state packed |
| WireAbi.StateIsAcceptedOnlyFromItsReply | src/subsystems/motion/rotary_axis/native/simulatorx_sdk.c:140-162 | a state is accepted if and only if the 56 bytes are the reply that carries it with OK and it passes the range checks |
| WireAbi.StrangeStatesAreRefused | src/subsystems/motion/rotary_axis/native/simulatorx_sdk.c:157-160 | a reply with OK is a control failure exactly if a number in it is not finite, a flag is neither 0 nor 1, or the faults exceed 7 |
| WireAbi.OnlyRequestsAreParsed | src/subsystems/motion/rotary_axis/adapter.py:24-26 | the adapter takes 28 bytes for a call exactly if they are the request made of that call and its function number is 1 to 9 |
| WireAbi.CodesAgree | src/subsystems/motion/rotary_axis/native/simulatorx_sdk.h:15-18 | the header of the library and the device give the same codes the same names |
| WireTheorems.CallRoundTrip | src/subsystems/motion/rotary_axis/adapter.py:23-39 | from every reachable host state, a C call with finite arguments invokes the function meant, and the C caller gets the host's code and state; each field the caller reads is the field of that name in the host's state, flags as 0 and 1 and faults as bits 0 to 2; no reply of a reachable axis fails a range check or cannot be packed |
| WireTheorems.PositionIsRead | src/subsystems/motion/rotary_axis/native/simulatorx_sdk.c:178-184 | asked for the position with success, the C caller gets the position that a snapshot at that time shows |
| Targets.TargetRoundTrip | src/subsystems/detector/modbus_tcp/protocol.py:6-16 | a sequence target is accepted if and only if it is the canonical text of a supported register range, and reads back as that range |
| Targets.PrintIsInjective | src/subsystems/detector/modbus_tcp/protocol.py:42-42 | different ranges never print as the same target |
| Targets.AcceptedTexts | src/subsystems/detector/modbus_tcp/protocol.py:6-16 | exactly fourteen texts are accepted, those of the supported reads and writes of two holding and three input registers, each for its own range |
| Modbus.DecodeEncoded | src/subsystems/detector/modbus_tcp/protocol.py:20-31 | decoding undoes encoding whatever follows on the stream |
| Modbus.EncodeDecoded | src/subsystems/detector/modbus_tcp/protocol.py:20-31 | the bytes taken for a request are exactly its encoding, at most 260 of them |
| Modbus.DecodingIsStable | src/subsystems/detector/modbus_tcp/protocol.py:20-31 | more bytes never change a decision already made |
| Modbus.DetectorRegisters.Check | src/subsystems/detector/modbus_tcp/model.py:22-45 | the exception of every refused request, and the range and values of any other |
| Modbus.DetectorRegisters.Respond | src/subsystems/detector/modbus_tcp/model.py:21-50 | the fields returned and the registers left are the specified ones on every branch |
| Modbus.WritesAreAtomic | src/subsystems/detector/modbus_tcp/model.py:21-47 | a write changes exactly the registers it names and keeps the enable register 0 or 1, or is refused with an exception and changes none |
| Modbus.ReadAfterWrite | src/subsystems/detector/modbus_tcp/model.py:43-50 | a read of the same range returns what was written |
| Modbus.ResponseFits | src/subsystems/detector/modbus_tcp/model.py:21-50 | a request that is served has a supported target that its response fields fit |
| Modbus.FittingFieldsEncode | src/subsystems/detector/modbus_tcp/protocol.py:58-68 | fields that fit the target of a served request always encode |
| ModbusAnswers.ReadAnswers | src/subsystems/detector/modbus_tcp/model.py:27-50 | a read of function 03 or 04 answers at each place the register of that address: 0 the enable register and 1 the measurement for 03; 0 the status, which is 0, 1 the enable register and 2 the measurement while enabled, else 0, for 04; it is refused with 3 for its quantity, then with 2 beyond the map, and writes nothing |
| ModbusAnswers.WriteAnswers | src/subsystems/detector/modbus_tcp/model.py:22-47 | a single write sets its register and no other, or is refused with 2 beyond the map or 3 for an enable value other than 0 and 1 and writes nothing |
| ModbusAnswers.WriteManyAnswers | src/subsystems/detector/modbus_tcp/model.py:22-47 | a multiple write of well formed values sets the registers from its address on and no other, or is refused and writes nothing |
| ModbusAnswers.OthersAreRefused | src/subsystems/detector/modbus_tcp/model.py:23-39 | any other function is refused with 1, a length that does not fit the function with 3, and a refused request writes nothing |
| ModbusAnswers.InputsAfterWrite | src/subsystems/detector/modbus_tcp/model.py:43-50 | after both holding registers are written, a read of all input registers answers 0, the enable value, and the measurement written if that is 1 and 0 otherwise |
| ModbusAnswers.AnswersAreWritten | src/subsystems/detector/modbus_tcp/protocol.py:58-68 | on the wire an exception is the function with its top bit set and the code, a read the function, the number of bytes and the registers, a write the function and the first four bytes of its data |
| ModbusAnswers.HeaderIsWritten | src/subsystems/detector/modbus_tcp/protocol.py:67-68 | in front of it are, byte by byte, the transaction, protocol 0, the length of what follows and the unit of the request |
| ModbusAnswers.HeaderDecides | src/subsystems/detector/modbus_tcp/protocol.py:20-27 | a stream is given up exactly for the protocol or the length in its first six bytes, and waits exactly while shorter than that or than the length says |
| Modbus.PatchFitsAnyResponse | src/protocols/tcp/service.py:136-143 | a patch valid against the baseline of a target is valid against every response of that target |
| Framing.DrainedBuffer | src/protocols/tcp/service.py:55-66 | after draining fewer than 260 bytes are left, and they hold no complete frame |
| Framing.SegmentationDoesNotMatter | src/protocols/tcp/service.py:44-93 | for any handler, every stream and every cut into received chunks, the connection does what it would do had the stream arrived at once and had there been no buffer limit |
| Framing.DrainServesFrames | src/protocols/tcp/service.py:59-88 | exactly the frames of the stream go through the handler, once, in order, each against the state the one before left; the connection closes only if the handler ends it or the stream goes wrong |
| Framing.FramesOfStream | src/subsystems/detector/modbus_tcp/protocol.py:20-31 | encoded requests are the frames of the stream they begin |
| TcpService.TCPService.Handle | src/protocols/tcp/service.py:67-85 | the locked section leaves the specified registers and sequences and returns the specified bytes |
| TcpService.TCPService.ServeConnection | src/protocols/tcp/service.py:44-93 | the receiving loop equals the specified session over all chunks, in the generation it found when it began |
| TcpService.TCPService.HandleAll | src/protocols/tcp/service.py:59-88 | the inner loop handles every complete frame of the buffer, and ends at the first that a reset has overtaken or a failure precedes |
| TcpService.TCPService.Dispatch | src/protocols/tcp/service.py:95-133 | a control request leaves exactly the specified host and answers with the specified reply |
| TcpTheorems.EveryFrameIsAnswered | src/protocols/tcp/service.py:67-86 | in every reachable state every frame that decodes is answered: no target, field or override check and no encoding on the way raises, a refused request uses up and writes nothing, and any other is executed first and takes one item |
| TcpTheorems.OverrideFits | src/protocols/tcp/service.py:76-79 | an item accepted by set_sequence is still valid against the natural response whenever it is consumed |
| TcpAnswers.SequencesAreChecked | src/protocols/tcp/service.py:108-116 | a sequence is accepted exactly for one of the fourteen targets with a list of at most 10000 items, each an object of some of the fields of the response, the exception 0 to 4 and as many 16-bit registers as the target names; one that is refused changes nothing |
| TcpAnswers.ReadIsAnswered | src/protocols/tcp/service.py:67-86 | with nothing injected a supported read is answered with the bytes of its registers, and writes nothing |
| TcpAnswers.StartIsAnswered | src/subsystems/detector/modbus_tcp/model.py:11-12 | a host that has just started answers a read of both holding registers with 1 and 100, byte for byte |
| TcpAnswers.ResetIsAFreshStart | src/protocols/tcp/service.py:122-132 | a successful reset leaves registers, sequences and the rest as a start does, and counts the generation |
| TcpAnswers.ServedAsFromStart | src/protocols/tcp/service.py:122-132 | after a successful reset, from any host that has not failed, any requests are answered byte for byte as a host that has just started answers them, and leave the same registers and sequences |
| TcpAnswers.OnlyTheLogSinceResetCounts | src/protocols/tcp/service.py:122-132 | in every order in which frames and control requests can run, registers and sequences are those that what ran since any successful reset gives a host that has just started |
| TcpAnswers.FailedResetFails | src/protocols/tcp/service.py:122-129 | a reset in which the device raises counts the generation, fails the host and takes no other effect |
| TcpAnswers.FailureIsFinal | src/protocols/tcp/service.py:67-107 | a failed host serves no frame, answers ping and diagnostics only and never changes |
| TcpAnswers.QueriesAreChecked | src/protocols/tcp/service.py:117-121 | a query of sequences is refused exactly if it asks for a text that is none of the fourteen targets |
| TcpTheorems.DispatchedInvariant | src/protocols/tcp/service.py:95-133 | every control request keeps all configured items valid |
| TcpTheorems.ConnectionServesItsFrames | src/protocols/tcp/service.py:44-93 | one connection alone handles and answers every frame of its stream once and in order, and closes only on a malformed header |
| TcpInterleaving.EveryInterleavingIsSequential | src/protocols/tcp/service.py:46-84 | with any number of connections and control requests interleaved, registers and sequences are those of the same sections run one after another, every frame that ran came from a connection with no reset between its opening and that frame and met a host that had not failed, and every received byte is buffered or belongs to one request that ran, in order |
| TcpInterleaving.ConnectionsRunTheirOwnFrames | src/protocols/tcp/service.py:55-79 | what a connection put through the device is a beginning of the frames of its own bytes |
| TcpInterleaving.OvertakenIsOver | src/protocols/tcp/service.py:46-69 | from any state, a connection of an earlier generation stays of an earlier generation and puts no further request through the device, whatever happens |
| TcpInterleaving.ResetEndsEveryConnection | src/protocols/tcp/service.py:67-69 | a reset, successful or not, overtakes every connection there is: in every interleaving none of their frames contributes after it |
| TcpHistories.LogRunsTheSequences | src/protocols/tcp/service.py:70-79 | in whatever order sections run, the sequences are the history of the served frames, accepted configurations and resets |
| TcpHistories.FrameIsAnsweredFromItsItem | src/protocols/tcp/service.py:70-80 | in every interleaving a served frame, the n-th of its target since its last configuration, is answered with the device's own fields replaced by those of item n |
| TcpHistories.EachItemAnswersOneFrame | src/protocols/tcp/service.py:76-79 | in whatever order sections run, no configured item answers two frames, over whichever connections they came, and items answer in order |
| TcpInterleaving.FailureFreezes | src/protocols/tcp/service.py:122-133 | a failed reset freezes registers, sequences and generation for good |
| TcpSchedules.LeftAloneItIsServed | src/protocols/tcp/service.py:44-88 | from any moment on, a new connection to a host that has not failed can receive and proceed so that, with nothing in between, it handles, answers and ends as a single connection does on its own, whatever the others buffer, and no other connection is touched |
| TcpSchedules.OvertakenIsClosed | src/protocols/tcp/service.py:67-69 | a connection that a reset has overtaken, or whose host has failed, closes at its next frame without handling it |
| TcpSchedules.ClosedIsOver | src/protocols/tcp/service.py:48-54 | a closed connection neither receives nor handles anything more |
| DetectorClient.DetectorSUT.Exchange | examples/sut_integration/reference_sut/detector.py:17-50 | a cancelled or overdue operation sends nothing and uses up no number; any other uses the next transaction number, sends the 12 bytes and ends as the specified loop does under its cancellation checks, both deadlines and the parts received |
| DetectorClient.OnlyItsFrameIsAccepted | examples/sut_integration/reference_sut/detector.py:34-50 | registers are accepted if and only if the buffer is the one frame that carries them, with the transaction and unit of the request |
| DetectorClient.ClientRequestDecodes | examples/sut_integration/reference_sut/detector.py:22-22 | the device decodes the client's bytes as the read the client meant |
| DetectorClient.DetectorSUT.Receive | examples/sut_integration/reference_sut/detector.py:23-50 | the receiving loop checks cancellation, the deadline of the operation and that of the exchange before every part, in that order |
| DetectorClient.ListenEnclosed | examples/sut_integration/reference_sut/detector.py:24-50 | however a response is cut into parts and whatever the clocks say, the exchange ends with the verdict on its PDU, or is cut short because something is late or missing |
| DetectorClient.ExchangeIsFaithful | examples/sut_integration/reference_sut/detector.py:17-50 | in every reachable state of the device, for every cut of the response and all clock readings, a function 04 read ends in exactly the device's exception, or exactly its registers or those injected, unless cut short; never in a protocol error, and not cut short if nothing is late or missing |
| ClientAnswers.FirstTurnToEndItDecides | examples/sut_integration/reference_sut/detector.py:23-50 | the first turn of the loop that is not in time, or brings enough, decides: cancelled, past the operation's deadline, past that of the exchange or nothing received, end of stream, verdict, in this order |
| ClientAnswers.OnlyInTime | examples/sut_integration/reference_sut/detector.py:25-31 | whatever the client learns of the device was complete at a turn up to which every part came before both deadlines and uncancelled |
| ClientAnswers.WaitsWhileIncomplete | examples/sut_integration/reference_sut/detector.py:32-38 | the client waits for more exactly while it has less than a header, or a header of this exchange and less than it announces; a foreign header is refused at once |
| ClientAnswers.OnlyItsExceptionIsAccepted | examples/sut_integration/reference_sut/detector.py:42-45 | an exception is learnt if and only if the buffer is the one frame that carries it with this transaction and unit, and it is not 0 |
| ClientAnswers.ClientReads | examples/sut_integration/reference_sut/detector.py:17-50 | with nothing injected a client learns the input registers at the places it asks for, unless it is cut short, which only something late or missing can do |
| ClientAnswers.WhatTheClientReads | src/subsystems/detector/modbus_tcp/model.py:48-50 | asked for status and readiness that is 0 and the enable register; for the measurement, the measurement while enabled and 0 otherwise |
| Pipe.RepliesArePaired | src/framework/pipe.py:35-74 | in every interleaving of callers, worker, child, timeouts and failures, a caller that gets a result gets the outcome of the one dispatch of its own line, and lines reach the child in the order queued |
| Pipe.ResultsGoToTheirCallers | src/framework/pipe.py:52-74 | every ending belongs to one taking of the free lock, by its own caller for its own line; different endings belong to different ones, even for equal lines, and requests end in the order in which the lock was taken |
| Pipe.OnlyTheLastRequestFails | src/framework/pipe.py:61-68 | only the last request ever queued can end without a result, and then `failed` is set |
| Pipe.FailureIsFinal | src/framework/pipe.py:57-68 | from then on nothing is queued, so nothing later is written, and a late reply ends no request |
| Pipe.NextKeeps | src/framework/pipe.py:35-80 | every step keeps the invariant: one request outstanding at most, results and replies in step with the dispatches |
| Pipe.UndisturbedRequestSucceeds | src/framework/pipe.py:52-72 | with nothing in the way a request returns what its dispatch returned or raised, and leaves the pipe ready for the next |
| Pipe.CheckDecides | src/framework/pipe.py:56-58 | a caller with the lock is let in exactly if the pipe is neither closed nor failed, and leaves at once otherwise |
| Pipe.ClosedIsFinal | src/framework/pipe.py:57-58 | once the pipe is closed no request is queued that had not been let in before |
| PipeAnswers.FirstRequestSucceeds | src/framework/pipe.py:23-72 | a new pipe returns to its first caller what the dispatch returned or raised, or that the reply was too large |
| PipeAnswers.WaitingEnds | src/framework/pipe.py:61-68 | a caller with a result cannot time out and leaves with that result; one without can only time out; without a response the pipe has failed |
| PipeAnswers.BreakingIsTold | src/framework/pipe.py:46-48 | a failing write or read, or a reply that is none, ends the worker for good, and the caller still waiting leaves with that failure |
| PipeAnswers.CloseCloses | src/framework/pipe.py:76-80 | closing queues one order to quit, the first time only, and touches nothing under way |
| PipeAnswers.ClosedWorkerQuits | src/framework/pipe.py:35-39 | in every run a closed pipe has the order to quit in its queue until the worker is gone, an open one never has, and taking it ends the worker |
| PipeAnswers.ChildEnds | src/framework/pipe.py:90-95 | stop, an error that is not reported, or its death leaves the child gone and changes nothing else |
| PipeAnswers.GoneIsSilent | src/framework/pipe.py:90-95 | a child that is gone dispatches and replies nothing more, whatever happens |
| PipeServer.ServeRequests | src/framework/pipe.py:90-108 | the child's loop leaves the service and writes the replies of handling each line on its own, until stop, the end or an escaping error |
| PipeServer.ChildRunsTheLoop | src/framework/pipe.py:90-108 | the child steps of the pipe put exactly the loop's replies on the output, one for each line read |
| Vacuum.VacuumBehavior.Step | src/subsystems/vacuum/chamber_plc/model.py:64-122 | one update leaves exactly the specified nodes; a negative or non-finite time is refused and changes nothing |
| Vacuum.VacuumBehavior.Relax | src/subsystems/vacuum/chamber_plc/model.py:105-122 | the pressure moves, and the procedure concludes, exactly as specified on every branch |
| Vacuum.VacuumBehavior.ObeyValve | src/subsystems/vacuum/chamber_plc/model.py:68-75 | the valve command is obeyed or refused and cleared |
| Vacuum.VacuumBehavior.ObeyCommand | src/subsystems/vacuum/chamber_plc/model.py:77-98 | the vacuum command is obeyed or refused and cleared |
| VacuumTheorems.InterlockHolds | src/subsystems/vacuum/chamber_plc/model.py:100-104 | whatever was written to the nodes, no update ends with readable nodes that say pumping and valve open |
| VacuumTheorems.InterlockNeedsGoodNodes | src/subsystems/vacuum/chamber_plc/model.py:100-104 | without commands, stored values that say so survive an update if and only if one of the two nodes is marked bad |
| VacuumTheorems.RelaxedContracts | src/subsystems/vacuum/chamber_plc/model.py:114-115 | an update multiplies the deviation from the goal by exp(-dt/tau), so it never crosses the goal or moves away from it |
| VacuumTheorems.FollowsTheCurve | src/subsystems/vacuum/chamber_plc/model.py:105-122 | pumping down or venting undisturbed, however the time is cut, the deviation is the first one times exp(-time/tau) until it is within tolerance, and the procedure is complete exactly when it has got there |
| VacuumTheorems.CompletesInTime | src/subsystems/vacuum/chamber_plc/model.py:114-122 | it is complete once the time is tau times (deviation over tolerance, less one) |
| VacuumTheorems.CompletesAfter | src/subsystems/vacuum/chamber_plc/model.py:114-122 | with regular updates it is complete after that time over dt updates |
| VacuumTheorems.Halves | src/subsystems/vacuum/chamber_plc/model.py:114-115 | every time constant at least halves the deviation |
| VacuumTheorems.CompletedStaysCompleted | src/subsystems/vacuum/chamber_plc/model.py:100-122 | a completed procedure stays completed while it is left alone |
| VacuumTheorems.CommandIsCarriedOut | src/subsystems/vacuum/chamber_plc/model.py:77-122 | a pump command on a closed valve, or a vent command, starts that curve in the same update |
| VacuumTheorems.PumpDownFromAtmosphere | src/subsystems/vacuum/chamber_plc/model.py:25-42 | with the device's settings any updates that add up to 2.6 seconds pump down from atmosphere to state 3, result 2 |
| VacuumTheorems.VentFromAnyPressure | src/subsystems/vacuum/chamber_plc/model.py:25-42 | with the device's settings a vent command and any updates that add up to 1.95 seconds bring any pressure to within 20 of atmosphere, state 0, result 2 |
| VacuumAnswers.ValveCommandIsObeyed | src/subsystems/vacuum/chamber_plc/model.py:68-75 | without a vacuum command, valve command 1 ends with an open valve and 2 with a closed one, result 2 and the command cleared; any other code leaves the valve as it was with result 3 and alarm 2, or the alarm of the interlock |
| VacuumAnswers.OpeningEndsPumping | src/subsystems/vacuum/chamber_plc/model.py:68-104 | opening the valve while pumping ends the update in state 4, result 3, alarm 1 |
| VacuumAnswers.ClosingKeepsPumping | src/subsystems/vacuum/chamber_plc/model.py:68-122 | closing the closed valve while pumping leaves the pump-down on its curve |
| VacuumAnswers.VacuumCommandIsObeyed | src/subsystems/vacuum/chamber_plc/model.py:77-104 | every vacuum command is cleared: 1 pumps if the valve, after any valve command of the same update, is closed, and is alarm 1 otherwise; 2 opens the valve and vents; 3 closes it, is idle and leaves the pressure; any other code is alarm 2 and leaves the valve |
| VacuumAnswers.NothingElseChanges | src/subsystems/vacuum/chamber_plc/model.py:100-122 | without commands an update leaves both commands and the valve alone, and state, result and alarm change only by the interlock or by the end of a procedure within tolerance |
| VacuumAnswers.PressureAnswers | src/subsystems/vacuum/chamber_plc/model.py:105-116 | an open valve moves the pressure towards atmosphere with the vent time constant in any state, a closed one towards the target with the pump time constant in state 1 and not at all otherwise, an unreadable one not at all |
| VacuumAnswers.ResetIsAtRest | src/subsystems/vacuum/chamber_plc/resources/bindings.json:2-65 | reset leaves atmosphere, a closed valve and no state, result, alarm or command |
| VacuumTheorems.EveryRunIsOrderly | src/subsystems/vacuum/chamber_plc/model.py:64-122 | in every run of command writes, updates and resets, state, result and alarm codes agree, pumping means a closed valve, and the pressure stays between target and atmosphere |
| Operation.OperationSUT.Start | examples/sut_integration/reference_sut/operation.py:34-49 | a start is refused when closed or busy and otherwise creates one running record, the deadline and an event |
| Operation.OperationSUT.Observe | examples/sut_integration/reference_sut/operation.py:74-77 | an observation changes only those fields of the current record |
| Operation.OperationSUT.Finish | examples/sut_integration/reference_sut/operation.py:69-72 | the end of a worker changes only the outcome of the current record and logs it |
| Operation.OperationSUT.Event | examples/sut_integration/reference_sut/operation.py:51-55 | an event is appended and the log keeps its newest 2000 entries |
| Operation.OperationSUT.Checkpoint | examples/sut_integration/reference_sut/operation.py:79-83 | a checkpoint reports cancellation before the deadline |
| Operation.OperationSUT.GetStatus | examples/sut_integration/reference_sut/operation.py:90-92 | a status is the record of that operation, or a refusal if there is none |
| OperationTheorems.AtMostOneRuns | examples/sut_integration/reference_sut/operation.py:34-49 | in every interleaving at most one operation runs |
| OperationTheorems.StartIsRefused | examples/sut_integration/reference_sut/operation.py:35-39 | in every reachable state a start is accepted if and only if the SUT is open and nothing runs |
| OperationTheorems.OnlyItsWorkerWrites | examples/sut_integration/reference_sut/operation.py:57-77 | a record changes only while its operation runs and only by a step of its own worker, although the worker addresses it through the shared current identity |
| OperationTheorems.EventsCarryTheirOperation | examples/sut_integration/reference_sut/operation.py:51-55 | an accepted start, an announcement and the end of a worker, and nothing else, append one event each, with the identity of the operation it belongs to and its own message |
| OperationTheorems.EndedNeverChanges | examples/sut_integration/reference_sut/operation.py:57-77 | an ended record never changes again |
| OperationTheorems.NothingStartsAfterClose | examples/sut_integration/reference_sut/operation.py:98-102 | after close no operation is created, and once the last worker is gone nothing changes |
| OperationTheorems.SuccessIsInTime | examples/sut_integration/reference_sut/operation.py:57-83 | an operation that succeeded passed its last check before its own deadline and before any close |
| OperationTheorems.FinishRecords | examples/sut_integration/reference_sut/operation.py:57-72 | the end of a worker records success in its own operation exactly if nothing was raised, and otherwise the very code raised, and nothing else of any record |
| OperationTheorems.ChecksDecide | examples/sut_integration/reference_sut/operation.py:79-83 | a check after the close cancels, one at or past the operation's own deadline times out, and only the last one in time lets it succeed |
| OperationTheorems.RaisedIsRecorded | examples/sut_integration/reference_sut/operation.py:63-72 | an error raised by the action is the one its record shows |
| OperationTheorems.ObservedIsRecorded | examples/sut_integration/reference_sut/operation.py:74-77 | what an operation observed last is what its record shows, with the time, and its outcome is left |
| OperationTheorems.StartedIsFresh | examples/sut_integration/reference_sut/operation.py:40-49 | an accepted start adds one running record without observations, makes it the current one and gives it the whole timeout from now |
| OperationTheorems.LogKeepsTheNewest | examples/sut_integration/reference_sut/operation.py:53-55 | the event log is its newest 2000 entries in order |
| Runtime.DeviceRuntime.StartAll | src/framework/runtime.py:40-59 | start makes exactly the calls of the plan up to the first that raises and, if one does, stops what was attempted |
| Runtime.DeviceRuntime.StopAll | src/framework/runtime.py:96-109 | stop calls every active instance from the last to the first whatever raises, and reports those that did |
| Runtime.DeviceRuntime.CheckHealthAll | src/framework/runtime.py:65-73 | a failing health check fails the runtime and stops asking |
| Runtime.DeviceRuntime.ResetEach | src/framework/runtime.py:75-85 | reset calls every active instance, and fails the runtime if any raised |
| RuntimeTheorems.EveryRunIsInOrder | src/framework/runtime.py:40-109 | for every hardware list, pattern of failures and use of the runtime: nothing is started before the last validation, starts are attempted in order and at most once each, and every start attempted is either active or undone, the latest first |
| RuntimeTheorems.StopUndoesEveryStart | src/framework/runtime.py:96-109 | after a stop, or a start that failed, every instance whose start was attempted has been stopped exactly once, in reverse order, even if other stops failed |
| RuntimeTheorems.StartSucceeds | src/framework/runtime.py:43-52 | a start ends running if and only if none of its planned calls raises |
| RuntimeTheorems.StopAgainTouchesNothing | src/framework/runtime.py:96-109 | a repeated stop calls nothing and reports nothing; a stop reports no failure if and only if no stop raised |
| RuntimeTheorems.OverIsOver | src/framework/runtime.py:41-42 | a failed or stopped runtime never runs again and starts nothing more |
| RuntimeTheorems.HealthDecides | src/framework/runtime.py:65-73 | a health check of a running machine leaves it running if and only if no instance raised, and failed otherwise |
| RuntimeTheorems.FailedCheckIsTheLast | src/framework/runtime.py:67-72 | the instances are asked in order, and the first that raises is the last one asked |
| RuntimeTheorems.ResetDecides | src/framework/runtime.py:75-85 | a reset resets every instance in spite of failures, leaves the machine running if and only if none raised, and reports those that did |
| RuntimeTheorems.StopDecides | src/framework/runtime.py:96-109 | stop leaves a machine stopped if and only if it had not failed and no stop raised, and failed otherwise |
| RuntimeTheorems.FailedStartIsReported | src/framework/runtime.py:53-59 | a failed start leaves the machine failed with nothing active, every attempted start undone, and reports the stops that raised |
| RuntimeTheorems.OtherStatesRefuse | src/framework/runtime.py:41-63 | only a new machine starts and only a running one is checked or reset; any other refuses and calls nothing |
| RuntimeTheorems.StartedThenChecked | src/framework/runtime.py:47-50 | each instance is started and then checked before the next is started |
| RuntimeTheorems.StoppedBackwards | src/framework/runtime.py:98-101 | stops go from the last instance to the first |
| RuntimeTheorems.FailingAreTheFailures | src/framework/runtime.py:99-109 | a call is reported if and only if it raised |
| RuntimeTheorems.DiagnosticsAskEach | src/framework/runtime.py:87-94 | diagnostics ask every active instance, in order and in every state, and change nothing else |

## Left out

- Rounding of floats, NaN payloads and integers too large for a float: arithmetic is exact, and every
  non-finite input is one rejected case.  The axis clamp is kept and proved to do nothing over the reals.
- The event logs of the SDK and TCP hosts, in `diagnostics` and elsewhere, and the `sent` marks: a stale
  connection may still append to them, and nothing else depends on them.
- Bytes already computed when a Reset overtakes a connection: `TcpInterleaving` orders the locked sections
  and makes no claim about what a peer still receives.
- TcpInterleaving.EveryInterleavingIsSequential: a connection may receive between two of its frames, which
  the source's loop does not; the runs modelled include all of the source's.
- Sockets, listeners, threads' start and join, the lock timeouts of callers (a caller that does not get the
  lock changes nothing), child processes, ready files and signals.
- DetectorClient.DetectorSUT.Exchange: an error raised while the request is sent, and the limit on the size
  of one received part.
- TcpService.TCPService.ServeConnection: control requests between two of its sections are in
  `TcpInterleaving`; in the loop itself nothing else runs, so there the generation it compares is its own.
- SdkService.SDKService.Dispatch: `diagnostics` shows the state, the sequences and whether the host has
  failed, and `ping` the profile; the text of failures and the paths are not modelled.
- The spellings of integers Python accepts besides decimal digits: the check that the target prints back the
  same refuses them all, so `TargetParts` refuses them at once.
- A device model whose reset raises is `Reset(true)` or `Restart(true)` and leaves its own state as it was.
- JSON text, message sizes and `encode` failures of the pipe: a reply that is too large is a choice of the
  step, and a reply line is either a response or garbage.  The caller's own request is taken as encoded.
- Anything but the child's loop writing to its standard output: such a line could be taken for a reply.
- The poll, connect and error-file handling of the C library, its settings from the environment, and its
  refusal of non-finite arguments before anything is sent.
- WireTheorems.CallRoundTrip: that the three numbers of a state round to finite doubles is a premise,
  because rounding is not modelled.
- The OPC UA server, node resolution, timestamps and the health watchdog; a node is a value, possibly null,
  and a good or bad status.
- VacuumTheorems.EveryRunIsOrderly: the operator writes only the two command nodes; a client that writes
  pressure, state or results directly can put anything there.
- VacuumTheorems.CompletesInTime: the bound uses only exp(-x) <= 1/(1+x); `VacuumTheorems.Halves` gives a
  logarithmic one for large deviations.
- Wall-clock timestamps of operations and the uniqueness of their identities: identities are positions in
  the order of creation.  Joining the worker in `close` and its time limit are not modelled.
- Construction of the runtime from configuration, its context manager and failures that are not exceptions,
  such as an interrupt during a stop.
- Manifest loading, the motion and vacuum clients of the example SUT, the command line and the test fixtures.
