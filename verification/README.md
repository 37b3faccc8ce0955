# A verified model of the KUKA robot drivers

The KUKA ROS 2 drivers connect a `ros2_control` controller manager with robot controllers of three families. This
project models the parts in which protocols, counters and lifecycles meet, and proves what they keep over every run:

- **The FRI cycle of the Sunrise driver** (`FriMessages`, `FriClientApplication`, `KukaFriClient`, `PacketContents`).
  KUKA's SDK answers a monitoring message in one call, `step`; the driver does it in three, read, update and write. The
  SDK decides with one counter when a packet is due, the driver with another one when joint positions are put into it.
- **The FRI command protocol** (`FriManager`, `FriCodec`, `FriServer`, `FriChannel`, `FriActivation`). The driver sends
  commands over TCP to a state machine on the controller; payloads are Java serialization streams written by hand.
  Caller, receiving thread, two queues and server step in any order, and error notices arrive unasked.
- **The interpolation count** (`InterpolationCount`, `CountCheck`). A 32-bit count advances only while all robots are
  under control; it is handed to the command interfaces, and every hardware interface checks that it sees consecutive
  counts.
- **The robot managers** (`RobotManager`, `ControllerModes`, `ControllerNames`, `NodeLifecycle`, `RestartWait`,
  `ParameterBatches`). Hardware components of any number of robots are brought up and down by service calls that may
  fail; controllers are looked up by control mode and switched, with a wait for the robots to restart.
- **Kernels**: the decoder of repeated fields (`RingDecoder`), the packet monitor (`IpocMatcher`), the generator of the
  controller's sensor interface configuration (`KrcGenerator`, `KrcFields`) and the joint interface check
  (`InterfaceValidator`).

Every stateful component has a class whose methods update fields or arrays in place as the drivers do, each proved equal
to a function on values; the properties are lemmas about these functions, over all inputs and whole runs. Services,
sockets, robots and clocks are parameters: a lemma that quantifies over `Robot`, `Answers`, `Network` or `Surroundings`
holds however they behave.

`dafny verify dfyconfig.toml` checks the project.

## What is false of the code, and when exactly it holds

- The split FRI cycle is `step` unless a message of an idle or unknown state is read without an exception; then it
  counts the cycle and may send an empty packet (`CycleIsStep`, `SilentCycleDiffers`, `SilentPacketOfDriver`).
- Packets carry joint positions in the active phase only when the two counters are in step; after any phase without
  active cycles that depends on its length and the counters before it (`ActivePackets`, `PhaseOfActivation`). A counter
  that has passed the multiplier ends it for good (`RunawayCounter`).
- An error notice that arrives while a command is pending ends the command, and its own answer stays behind for the
  next one (`NoticeEndsCall`, `FailedCallIsExecuted`). Calls match their answers exactly from a settled connection
  (`SafeExactlyWhenSettled`).
- Activation ignores whether the control mode was set. The mode that runs is the one held, whatever was stored before,
  exactly when the driver has seven joints or is not in impedance control (`Activation`, `HeldModeRuns`); with fewer
  joints the payload is refused and the old mode runs, with more the vectors are cut in the wrong place.
- A disconnection or a loss of connection leaves the driver's flags set (`LostConnectionLeavesFlags`). After it the
  success of an activation means control is active only if the control flag was false before (`SuccessIsReliable`).
- An activation of the event broadcaster leaves the command interfaces as they are: one that accepts every value holds
  the count of each tick exactly if it held zero before or some tick has handed a count out since
  (`InterfacesHoldTheStreak`).
- A lock-step run of count checks does warn, at the first count after a wrap-around or after a restart the interface
  was not made to forget (`LockStep`); the plain RSI interface never forgets (`PlainInterfaceWarnsAtRestarts`).
- Asynchronous hardware that reads late is cured by the wait exactly if the count has gone on by one or the interface
  is not active (`LateReadIsCured`).
- A batch of parameters can be reported as set although not all of it was; its result can be relied on exactly when it
  changes the mode once and nothing else, consists of names only, or is never reported as set (`BatchIsReliable`).
- The wait for the restart after a mode change can end on the start of the activation or of the change before, exactly
  when such a start still stands (`WaitEndsOnStandingStart`); as long as the mode switches are reported late it goes on
  so for ever (`NeverWaits`).
- A failed mode change leaves the node active without controllers (`FailedModeChangeStaysActive`); a controller named
  like the joint state broadcaster stops it (`ModeChangeOutcome`).
- The generator can ask for the same built-in block more than once; each is sent at most once exactly when its element
  occurs in at most one of the cartesian group and the three lists, and stands together there (`BlockIsSentOnce`).

## Model

| member | source | states |
|---|---|---|
| FriMessages.GetIoValue | kuka_sunrise_fri_driver/src/fri_client_sdk/friClientData.h:170-202 | The search loop finds the first entry with the name, and tells a wrong type from a missing entry. |
| FriMessages.CommandMessage.ResetCommandMessage | kuka_sunrise_fri_driver/src/fri_client_sdk/friClientData.h:110-118 | The flags and the request count are cleared; the slots keep their old contents. |
| FriMessages.CommandMessage.SetIoValue | kuka_sunrise_fri_driver/src/fri_client_sdk/friClientData.h:205-236 | One more slot filled in place, or the message untouched and the exception named. |
| FriMessages.RequestOutcome | kuka_sunrise_fri_driver/src/fri_client_sdk/friClientData.h:170-236 | With room and data, the first entry of the name decides: another type, then an input, is refused; otherwise the request is made. |
| FriClientApplication.CycleIsStep | kuka_sunrise_fri_driver/src/fri_client_sdk/friClientApplication.cpp:113-201 | For every client, message and connection, the split cycle equals `step` if and only if the cycle is not silent. |
| FriClientApplication.SilentCycleDiffers | kuka_sunrise_fri_driver/src/fri_client_sdk/HWIFClientApplication.cpp:73-117 | In a silent cycle exactly the counters and one extra packet differ. |
| FriClientApplication.SilentPacketIsEmpty | kuka_sunrise_fri_driver/src/fri_client_sdk/HWIFClientApplication.cpp:46-117 | That packet carries no command data when the client ignores state changes. |
| KukaFriClient.SilentPacketOfDriver | kuka_sunrise_fri_driver/src/fri_client_sdk/HWIFClientApplication.cpp:46-117 | For the driver: `step` sends nothing in a silent cycle, the split form one packet without command data when the counter is due. |
| FriClientApplication.RunsAgree | kuka_sunrise_fri_driver/src/fri_client_sdk/HWIFClientApplication.cpp:13-117 | Two whole runs agree in data, packets and results at every moment iff no cycle is silent. |
| FriClientApplication.SendSchedule | kuka_sunrise_fri_driver/src/fri_client_sdk/HWIFClientApplication.cpp:85-117 | With multiplier m and counter b, t writes make (b + t) / m attempts, numbered consecutively mod 2^32, each reflecting the message it answers. |
| FriClientApplication.ClientIsTold | kuka_sunrise_fri_driver/src/fri_client_sdk/HWIFClientApplication.cpp:46-83 | Over any messages the client hears of every change of the session state, each report beginning with the state the one before ended with, then the callback of the state and the transformation callback, neither in a silent state. |
| FriClientApplication.HwifClientApplication.ClientAppRead | kuka_sunrise_fri_driver/src/fri_client_sdk/HWIFClientApplication.cpp:13-44 | Reading in place, with every early return. |
| FriClientApplication.HwifClientApplication.ClientAppUpdate | kuka_sunrise_fri_driver/src/fri_client_sdk/HWIFClientApplication.cpp:46-83 | Reset, state change report, callback by session state, transformation callback. |
| FriClientApplication.HwifClientApplication.ClientAppWrite | kuka_sunrise_fri_driver/src/fri_client_sdk/HWIFClientApplication.cpp:85-117 | Send counter, sequence counters and the attempt to send. |
| KukaFriClient.KukaFriHardwareInterface.UpdateCommandMessage | kuka_sunrise_fri_driver/src/hardware_interface.cpp:402-436 | Positions or corrected positions with torques by control mode, then one request per input. |
| KukaFriClient.KukaFriHardwareInterface.ActivateFrictionCompensation | kuka_sunrise_fri_driver/src/hardware_interface.cpp:539-552 | The correction for friction, in place. |
| KukaFriClient.KukaFriHardwareInterface.CommandCallback | kuka_sunrise_fri_driver/src/hardware_interface.cpp:261-269 | The decimation counter, also when an exception leaves it at the multiplier. |
| KukaFriClient.SetInputsFillsSlots | kuka_sunrise_fri_driver/src/fri_client_sdk/friClientData.h:205-236 | Inputs that fit never overflow; the written ones are in the next slots in order, all of them iff all resolve. |
| KukaFriClient.UpdateWritesTheInputs | kuka_sunrise_fri_driver/src/hardware_interface.cpp:66-84 | With at most ten inputs an update never raises the capacity exception; request i holds input i's full name and value. |
| KukaFriClient.ActivePackets | kuka_sunrise_fri_driver/src/hardware_interface.cpp:261-269 | Through any run in commanding-active, failed reads included, both counters go on by the number of cycles mod m; all packets carry positions if they start equal, none if not. |
| KukaFriClient.RunawayCounter | kuka_sunrise_fri_driver/src/hardware_interface.cpp:261-269 | From a counter at or above m, through any session states: the counter grows with every active cycle and no packet sent in commanding-active carries positions; those of the other states carry them iff the state is not silent. |
| KukaFriClient.ExceptionStopsTheCounter | kuka_sunrise_fri_driver/src/hardware_interface.cpp:261-269 | An input that does not resolve when the command is due leaves the counter at m. |
| KukaFriClient.MonitoringPackets | kuka_sunrise_fri_driver/src/hardware_interface.cpp:251-269 | Outside commanding-active, in whatever states and from any counter, only the send counter moves, and a packet carries positions iff its state is not silent. |
| KukaFriClient.PacketsOfRun | kuka_sunrise_fri_driver/src/hardware_interface.cpp:202-269 | Both counters and every packet in closed form, for any run of cycles: any session states, reads that fail, the cycles of the activation loop that go on with an old message, counters that have run away. |
| KukaFriClient.PhaseOfActivation | kuka_sunrise_fri_driver/src/fri_client_sdk/HWIFClientApplication.cpp:85-117 | From any counters below m, after any phase without active cycles, the packets of an active phase carry positions iff that phase brings the send counter to the decimation counter. |
| PacketContents.TickFits | kuka_sunrise_fri_driver/src/hardware_interface.cpp:251-269 | The packet of a regular cycle, in every session state: positions, torques, their flags and the requests, from the message and the interfaces of that cycle. |
| PacketContents.PacketsFit | kuka_sunrise_fri_driver/src/hardware_interface.cpp:251-436 | Every packet of any regular run: the position commands in commanding-active when the decimation counter is due, or the torque commands with each measured position moved against its sign by 0.1; in commanding-wait the positions last read; while monitoring the commanded ones; torques in torque control only; nothing else. |
| FriManager.AlwaysConsistent | kuka_sunrise_fri_driver/robot_application/src/ros2/modules/FRIManager.java:65-238 | Over every command sequence: a session is open exactly outside Inactive and runs the stored configuration, the motion the stored modes. |
| FriManager.ControlComesStepByStep | kuka_sunrise_fri_driver/robot_application/src/ros2/modules/FRIManager.java:107-238 | Over every command sequence from Inactive: the motion that runs in the end was started in a session started before it, both are still the same, and they run what was stored when each was started. |
| FriManager.RunningSettingsAreFixed | kuka_sunrise_fri_driver/robot_application/src/ros2/modules/FRIManager.java:139-238 | While the session is open its configuration, and while the motion runs its modes, cannot change. |
| FriManager.CloseReachesInactive | kuka_sunrise_fri_driver/robot_application/src/ros2/modules/FRIManager.java:65-72 | Closing reaches Inactive from every state iff the robot lets go of what is active. |
| FriManager.FriManagerObject.StartFriSession | kuka_sunrise_fri_driver/robot_application/src/ros2/modules/FRIManager.java:107-113 | Start of a session in place; one that is not reached in time is closed again. |
| FriManager.FriManagerObject.CloseAll | kuka_sunrise_fri_driver/robot_application/src/ros2/modules/FRIManager.java:65-72 | Closing in place. |
| FriCodec.ByteVector.AppendReversed | kuka_sunrise_fri_driver/include/kuka_sunrise_fri_driver/serialization.hpp:27-63 | Insertion of a number's memory and reversal of the tail in place. |
| FriCodec.ReversedMemoryIsRead | kuka_sunrise_fri_driver/include/kuka_sunrise_fri_driver/serialization.hpp:27-63 | Reversed little-endian memory of any width reads back as the number. |
| FriCodec.SerializeConfig | kuka_sunrise_fri_driver/src/connection_helpers/fri_connection.cpp:127-144 | The bytes of a configuration. |
| FriCodec.ReadExternalConfig | kuka_sunrise_fri_driver/robot_application/src/ros2/serialization/FRIConfigurationParams.java:29-40 | Decoding, field by field, with the IOException on short data. |
| FriCodec.ConfigRoundTrip | kuka_sunrise_fri_driver/src/connection_helpers/fri_connection.cpp:127-144 | For every 32-bit port, period, multiplier and every address a.b.c.d the controller decodes the same; lengths match. |
| FriCodec.SerializeImpedance | kuka_sunrise_fri_driver/src/connection_helpers/fri_connection.cpp:100-119 | The bytes of stiffness and damping. |
| FriCodec.ReadExternalImpedance | kuka_sunrise_fri_driver/robot_application/src/ros2/serialization/JointImpedanceControlModeExternalizable.java:41-55 | Decoding by loops over the stream. |
| FriCodec.ImpedanceRoundTrip | kuka_sunrise_fri_driver/robot_application/src/ros2/serialization/JointImpedanceControlModeExternalizable.java:41-55 | Any 7 + 7 64-bit patterns arrive unchanged; lengths match. |
| FriCodec.ImpedanceDecoded | kuka_sunrise_fri_driver/src/connection_helpers/fri_connection.cpp:100-119 | For vectors of any length the first fourteen doubles of both together are decoded. |
| FriServer.ImpedanceArrives | kuka_sunrise_fri_driver/robot_application/src/ros2/modules/ROS2Connection.java:333-361 | The server refuses an impedance payload iff it has fewer than fourteen doubles; otherwise it sets the first seven and the next seven. |
| FriServer.VectorsArriveWhole | kuka_sunrise_fri_driver/robot_application/src/ros2/modules/ROS2Connection.java:333-361 | The vectors sent are the vectors set iff each has seven elements. |
| FriServer.Ros2Connection.HandleConnectionLost | kuka_sunrise_fri_driver/robot_application/src/ros2/modules/ROS2Connection.java:184-189 | Control and session are ended, unless cancelling the motion throws. |
| FriServer.ConnectionLostOutcome | kuka_sunrise_fri_driver/robot_application/src/ros2/modules/ROS2Connection.java:184-189 | From every state, what a lost connection leaves, by what the robot lets go of. |
| FriServer.DisconnectOutcome | kuka_sunrise_fri_driver/robot_application/src/ros2/modules/ROS2Connection.java:244-249 | A disconnection fails only if cancelling the motion throws; otherwise it goes through even with the session still open. |
| FriServer.CommandModesByNumber | kuka_sunrise_fri_driver/robot_application/src/ros2/modules/ROS2Connection.java:370-384 | The command modes 1, 2, 3 and no other number are set, and none under control. |
| FriServer.Ros2Connection.HandleMessageFromRos | kuka_sunrise_fri_driver/robot_application/src/ros2/modules/ROS2Connection.java:116-182 | Exactly one reply per message, saying whether the command was executed. |
| FriServer.RequestArrives | kuka_sunrise_fri_driver/robot_application/src/ros2/modules/ROS2Connection.java:116-226 | Every request's bytes, with vectors of any length, are executed as what they mean and answered with their own number; a server that does not accept commands rejects them. |
| FriChannel.FriConnection.HandleReceivedTcpData | kuka_sunrise_fri_driver/src/connection_helpers/fri_connection.cpp:199-268 | The bytes of any message are taken in as that message. |
| FriChannel.FriConnection.TakeAnswer | kuka_sunrise_fri_driver/src/connection_helpers/fri_connection.cpp:158-197 | The end of a call, and what its caller is told. |
| FriChannel.OwedBound | kuka_sunrise_fri_driver/src/connection_helpers/fri_connection.cpp:173-268 | Over all interleavings the answers owed never exceed the notices taken for answers plus the pending call. |
| FriChannel.RunKeepsOrder | kuka_sunrise_fri_driver/robot_application/src/ros2/modules/ROS2Connection.java:116-182 | From any request on, the server handles the requests in the order sent, over all interleavings. |
| FriChannel.CallsMatchTheirAnswers | kuka_sunrise_fri_driver/src/connection_helpers/fri_connection.cpp:173-268 | With no notice taken for an answer, each call ends on its own answer, true iff the server executed that very request. |
| FriChannel.CallsAreAtomic | kuka_sunrise_fri_driver/src/connection_helpers/fri_connection.cpp:184-197 | From any settled connection to an accepting server, with no notice taken for an answer since: the run is that of executing the requests made since one by one, each call told its own outcome, and the connection is settled again. |
| FriChannel.SafeExactlyWhenSettled | kuka_sunrise_fri_driver/src/connection_helpers/fri_connection.cpp:236-261 | From a resting caller, all further calls match under every schedule iff no answer lies unread or is owed. |
| FriChannel.NoticeEndsCall | kuka_sunrise_fri_driver/src/connection_helpers/fri_connection.cpp:236-261 | From a fresh connection a notice ends any pending call as failed, leaves its request unanswered and the connection unsettled. |
| FriChannel.FailedCallIsExecuted | kuka_sunrise_fri_driver/src/connection_helpers/fri_connection.cpp:173-197 | The server then executes the request whose caller was told that it failed. |
| FriChannel.NoticedCallsFail | kuka_sunrise_fri_driver/src/connection_helpers/fri_connection.cpp:158-261 | Over all interleavings every call that a notice has ended was told that it failed. |
| FriActivation.FriHardwareLifecycle.OnActivateCallback | kuka_sunrise_fri_driver/src/hardware_interface.cpp:139-225 | Activation as a sequence of calls on the bytes of its requests, setting the flags. |
| FriActivation.FriHardwareLifecycle.OnDeactivateCallback | kuka_sunrise_fri_driver/src/hardware_interface.cpp:227-249 | Deactivation as a sequence of calls, clearing the flags. |
| FriActivation.Activation | kuka_sunrise_fri_driver/src/hardware_interface.cpp:139-225 | Success iff the controller accepts commands, was inactive, the mode is supported and the robot cooperates; then the held configuration and command mode run with the control mode `RunningMode` names. ERROR iff the starting thread is never begun, FAILURE if it does not get through. |
| FriActivation.ActivationResult | kuka_sunrise_fri_driver/src/hardware_interface.cpp:139-225 | With whatever flags, SUCCESS or FAILURE is told by what the starting thread has set and what was set before; both come only after the early returns with ERROR. |
| FriActivation.HeldModeRuns | kuka_sunrise_fri_driver/src/hardware_interface.cpp:156-175 | That mode is the one held, whatever was stored before, iff there are seven joints or no impedance control. |
| FriActivation.TransitionOverConnection | kuka_sunrise_fri_driver/src/hardware_interface.cpp:139-249 | From any settled connection, any schedule in which the caller makes the calls of an activation or deactivation, each next one only after the success of those it waits for, leaves the controller and the flags of that transition made atomically. |
| FriActivation.LifecycleOverConnection | kuka_sunrise_fri_driver/src/hardware_interface.cpp:139-249 | The same for any sequence of activations and deactivations on one connection; at the end the flags say what the controller's state is. |
| FriActivation.DriverOverConnection | kuka_sunrise_fri_driver/src/hardware_interface.cpp:102-249 | From a new connection, whose first call is the one that connects, over any such sequence. |
| FriActivation.DriverCanRun | kuka_sunrise_fri_driver/src/hardware_interface.cpp:102-249 | For every sequence of transitions and any behaviour of the robot there is such a run. |
| FriActivation.Deactivation | kuka_sunrise_fri_driver/src/hardware_interface.cpp:227-249 | Success iff control was active on an accepting controller and the robot let go; then the controller is inactive with no session open. |
| FriActivation.FlagsAlwaysMatch | kuka_sunrise_fri_driver/src/hardware_interface.cpp:139-249 | Over any sequence of both, the two flags say what the controller's state is. |
| FriActivation.SuccessIsReliable | kuka_sunrise_fri_driver/src/hardware_interface.cpp:218-225 | With stale flags, success can be relied on iff the control flag was false before. |
| FriActivation.LostConnectionLeavesFlags | kuka_sunrise_fri_driver/src/hardware_interface.cpp:125-137 | How flags become stale: disconnecting or losing the connection from control leaves both set with the controller inactive. |
| FriActivation.SuccessAfterLostConnection | kuka_sunrise_fri_driver/src/hardware_interface.cpp:218-225 | The activation after that reports success although control was refused. |
| InterpolationCount.EventBroadcaster.UpdateCount | controllers/kuka_event_broadcaster/src/kuka_event_broadcaster.cpp:124-200 | One update over the robots' readings, in place, with the events it publishes; a settable interface that held the count holds it afterwards. |
| InterpolationCount.EventBroadcaster.OnConfigure | controllers/kuka_event_broadcaster/src/kuka_event_broadcaster.cpp:93-108 | An empty list of robots is refused; otherwise all state is reset. |
| InterpolationCount.CountIsStreak | controllers/kuka_event_broadcaster/src/kuka_event_broadcaster.cpp:110-181 | Closed form: the count is the number of ticks since all robots are started without a gap, mod 2^32. |
| InterpolationCount.StreakIsLongestSuffix | controllers/kuka_event_broadcaster/src/kuka_event_broadcaster.cpp:124-181 | That number is the length of the longest such suffix of the history. |
| InterpolationCount.EventsAndFlags | controllers/kuka_event_broadcaster/src/kuka_event_broadcaster.cpp:129-157 | A robot's flag says whether its last decisive event was CONTROL_STARTED. |
| InterpolationCount.CountIsZeroUnlessAllStarted | controllers/kuka_event_broadcaster/src/kuka_event_broadcaster.cpp:159-181 | The count is 0 whenever some robot is not started. |
| InterpolationCount.NoRobotsCountsAnyway | controllers/kuka_event_broadcaster/src/kuka_event_broadcaster.cpp:159-173 | Without robots the count would be the number of ticks. |
| InterpolationCount.ConfiguredCountIsStreak | controllers/kuka_event_broadcaster/src/kuka_event_broadcaster.cpp:93-181 | The closed form holds for whatever configuration accepts. |
| InterpolationCount.InterfacesHoldLastGiven | controllers/kuka_event_broadcaster/src/kuka_event_broadcaster.cpp:163-200 | Over any history, whichever interfaces refuse a value at times, each holds the count last handed out to it: that of the last tick with all robots started or with one stopped. |
| InterpolationCount.InterfacesHoldTheStreak | controllers/kuka_event_broadcaster/src/kuka_event_broadcaster.cpp:110-200 | One that accepts every value holds the count of every tick iff it held zero at the activation or some tick has handed out its count since. |
| InterpolationCount.ChangesArePublished | controllers/kuka_event_broadcaster/src/kuka_event_broadcaster.cpp:150-160 | Over any history a robot's event is published iff it is another one than at the tick before and the publisher is free. |
| CountCheck.WaitForInterpolationCount | kuka_drivers_core/include/kuka_drivers_core/hardware_interface_utils.hpp:38-73 | At most five polls; the wait goes on exactly while the count is one behind before the deadline. |
| CountCheck.CountedInterface.WriteCounted | kuka_rsi_driver/src/hardware_interface_rsi_base.cpp:280-321 | The check of one write, in place; the robot is answered whenever a message was received, whatever the count, the wait and the activity. |
| CountCheck.ChecksLastSeen | kuka_rsi_driver/src/hardware_interface_rsi_base.cpp:280-321 | Over any history the check remembers exactly the last count seen and not forgotten. |
| CountCheck.WarnsOnDeviation | kuka_rsi_driver/src/hardware_interface_rsi_base.cpp:280-321 | Over any history a warning appears iff the count differs from the successor of the one last seen and the interface is active; the robot is answered at every write, warned or not. |
| CountCheck.InterfacesReadCounts | controllers/kuka_event_broadcaster/src/kuka_event_broadcaster.cpp:163-200 | The counts of a history are what a command interface holds that was zero at the activation and accepts every value. |
| CountCheck.LockStep | kuka_rsi_driver/src/hardware_interface_rsi_base.cpp:286-316 | An interface that writes whenever there is a count warns exactly at a first count while an earlier one is remembered. |
| CountCheck.ForgettingPreventsWarnings | kuka_rsi_driver/src/hardware_interface_rsi_base.cpp:683-718 | Forgetting between the last count and the first one after a restart prevents all warnings. |
| CountCheck.PlainInterfaceWarnsAtRestarts | kuka_rsi_driver/src/hardware_interface_rsi_only.cpp:46-97 | The plain RSI interface warns at every count of one that any count came before. |
| CountCheck.CountedInterface.RsiOnlyActivation | kuka_rsi_driver/src/hardware_interface_rsi_only.cpp:46-79 | The plain RSI activation does not forget. |
| CountCheck.MissedTicksAreReported | kuka_rsi_driver/src/hardware_interface_rsi_base.cpp:286-316 | In an unbroken stretch a write warns iff the ticks since the count last seen are not one, mod 2^32. |
| CountCheck.GapsAreReported | kuka_rsi_driver/src/hardware_interface_rsi_base.cpp:280-316 | Without a wrap: iff the interface missed a tick. |
| CountCheck.LockStepWithBroadcaster | kuka_rsi_driver/src/hardware_interface_rsi_base.cpp:280-316 | The lock-step law for the counts the broadcaster gives out over any event history. |
| CountCheck.GapsWithBroadcaster | kuka_rsi_driver/src/hardware_interface_rsi_base.cpp:280-316 | The same for the broadcaster's own counts while all robots stay started. |
| CountCheck.LateReadIsCured | kuka_rsi_driver/src/hardware_interface_rsi_base.cpp:298-309 | A late read followed by the wait behaves like a read at once iff the count has gone on by one or the interface is not active; otherwise it warns. |
| CountCheck.AsyncRunIsSyncRun | kuka_rsi_driver/src/hardware_interface_rsi_base.cpp:280-316 | A history whose late reads can be waited for leaves the same checks, warnings and sends as one read at once. |
| RobotManager.ControllerManager.ChangeHardwareStates | kuka_drivers_core/include/communication_helpers/ros2_control_tools.hpp:78-93 | The rollback loop: one call per component, whatever the others give. |
| RobotManager.ControllerManager.BringUpHardware | kuka_rsi_driver/src/robot_manager_base.cpp:105-119 | The bring-up loop with its rollback at the first failure. |
| RobotManager.BringUpOutcome | kuka_drivers_core/include/communication_helpers/ros2_control_tools.hpp:78-93 | Exactly which components a bring-up leaves in which state, whatever calls fail. |
| RobotManager.ConfigureAllOrNothing | kuka_rsi_driver/src/robot_manager_base.cpp:102-140 | Any number of robots, any failure point: success means all inactive, failure with successful rollback calls means nothing changed. |
| RobotManager.ActivateAllOrNothing | kuka_rsi_driver/src/robot_manager_base.cpp:175-228 | The same for activation, cycle time call and controllers included. |
| RobotManager.DeactivateOutcome | kuka_rsi_driver/src/robot_manager_base.cpp:230-273 | Exactly what deactivation leaves, and when it succeeds. |
| RobotManager.ConfigureSucceedsExactly | kuka_rsi_driver/src/robot_manager_base.cpp:102-140 | Configuration succeeds iff every component is known and the calls for all of them and for the controllers are answered. |
| RobotManager.ActivateSucceedsExactly | kuka_rsi_driver/src/robot_manager_base.cpp:175-228 | So does activation, with one robot after the call for the cycle time, whose refusal fails it before any component is touched. |
| RobotManager.CleanupOutcome | kuka_rsi_driver/src/robot_manager_base.cpp:142-172 | Exactly what cleaning up leaves; its success does not depend on the controllers. |
| RobotManager.RobotManagerBase.OnDeactivate | kuka_rsi_driver/src/robot_manager_base.cpp:230-273 | The loop in reverse order, then the controllers. |
| RobotManager.RobotManagerBase.ConfigureDriver | kuka_rsi_driver/src/robot_manager_base.cpp:102-140 | Configuration in place, with clean-up after a failed switch. |
| ControllerModes.ControllerHandler.UpdateControllerName | kuka_drivers_core/src/controller_handler.cpp:21-62 | Which modes a controller type names, for every type. |
| ControllerModes.ControllerHandler.GetControllersForMode | kuka_drivers_core/src/controller_handler.cpp:64-75 | The controllers of a mode, or the exception. |
| ControllerModes.RobotManagerNode.OnControlModeChangeRequest | kuka_iiqka_eac_driver/src/robot_manager_node.cpp:296-368 | A mode change, with the wait on the flag and every failing step. |
| ControllerModes.RobotManagerNode.WaitForRestart | kuka_iiqka_eac_driver/src/robot_manager_node.cpp:332-344 | The wait ends at once if the flag is set, else with the first start heard; afterwards the flag is cleared. |
| ControllerModes.RobotManagerNode.EventSubscriptionCallback | kuka_iiqka_eac_driver/src/robot_manager_node.cpp:174-210 | What each hardware event does to the flag, and the deactivation when control stops. |
| RestartWait.WaitEndsOnStandingStart | kuka_iiqka_eac_driver/src/robot_manager_node.cpp:174-344 | After any run of a new node, a mode change succeeds iff its calls do and a start is heard while it waits or one heard before still stands: no mode switch heard and no wait ended since. |
| RestartWait.ReportedInTime | kuka_iiqka_eac_driver/src/robot_manager_node.cpp:204-206 | If the robot reports the mode switch while the old controllers are stopped, the change succeeds only with a start heard while it waits. |
| RestartWait.NeverWaits | kuka_iiqka_eac_driver/src/robot_manager_node.cpp:331-344 | Once a start stands, over any sequence of mode changes reported late each one takes the start of the one before for its own: all succeed whatever is heard while they wait. |
| RestartWait.FirstChangeDoesNotWait | kuka_iiqka_eac_driver/src/robot_manager_node.cpp:178-189 | The start that the activation brings about is enough for the first mode change. |
| ControllerModes.RobotManagerNode.OnParamChange | kuka_drivers_core/src/parameter_handler.cpp:25-47 | The loop over a batch of parameters. |
| ControllerModes.RunKeepsConsistent | kuka_iiqka_eac_driver/src/robot_manager_node.cpp:100-368 | Over any run of transitions, batches, mode changes and hardware events, hardware and running controllers are what state and mode call for. |
| ControllerNames.NamesReachTheirModes | kuka_drivers_core/src/controller_handler.cpp:21-62 | Whatever names were given in whatever order, each mode has the last name of the type that serves it, the impedance modes also that of their impedance controllers. |
| ControllerNames.ActiveControllers | kuka_drivers_core/src/controller_handler.cpp:64-75 | After any tolerable run an active node runs, besides the fixed ones, exactly the standard controller of its mode and, if it has a name, the impedance controller. |
| ControllerNames.ControllersOfStartUp | kuka_iiqka_eac_driver/src/robot_manager_node.cpp:61-256 | From the start-up parameters to the active state: exactly the position controller in position mode, with the impedance controller in impedance mode, the torque controller in torque mode. |
| NodeLifecycle.BringingUpEnds | kuka_iiqka_eac_driver/src/robot_manager_node.cpp:100-256 | Configuring and activating succeed iff all their calls do, and else end where they began. |
| NodeLifecycle.CleaningUpEnds | kuka_iiqka_eac_driver/src/robot_manager_node.cpp:146-172 | Cleaning up succeeds iff all components do, whatever becomes of the controllers. |
| NodeLifecycle.DeactivatingEnds | kuka_iiqka_eac_driver/src/robot_manager_node.cpp:190-294 | A deactivation, also one the node makes on its own when control stops, ends inactive iff all its calls succeed, else unconfigured. |
| NodeLifecycle.StaticParametersAreRefused | kuka_iiqka_eac_driver/src/robot_manager_node.cpp:90-98 | The address and the robot models cannot be changed after start-up. |
| ControllerModes.ModeChangeOutcome | kuka_iiqka_eac_driver/src/robot_manager_node.cpp:321-362 | A successful change leaves the controllers of the new mode running iff it stopped no controller with a fixed name for good. |
| ControllerModes.NamesAreFixedWhileActive | kuka_iiqka_eac_driver/src/robot_manager_node.cpp:62-85 | Names cannot change while the node is active. |
| ControllerModes.BatchReportsItsLast | kuka_drivers_core/src/parameter_handler.cpp:25-47 | A batch reports the result of its last settable parameter only. |
| ControllerModes.NothingSettable | kuka_drivers_core/src/parameter_handler.cpp:25-47 | Without a settable parameter nothing happens and the batch is reported as not set. |
| ParameterBatches.BatchIsReliable | kuka_drivers_core/src/parameter_handler.cpp:25-74 | "Reported as set" means "all set" iff the batch is one mode change, names only, or never reported as set; for every node and surroundings, and likewise for those that rest consistently with robots. |
| ParameterBatches.SingleParameterIsReliable | kuka_drivers_core/src/parameter_handler.cpp:25-47 | The result for a single parameter can be relied on. |
| ParameterBatches.ModeWithNameIsUnreliable | kuka_iiqka_eac_driver/src/robot_manager_node.cpp:62-89 | That for a mode together with a name cannot, in either order. |
| ControllerModes.RefusedParameterIsReportedAsSet | kuka_drivers_core/src/parameter_handler.cpp:25-47 | A batch with a refused mode that is reported as set. |
| ControllerModes.FailedModeChangeStaysActive | kuka_iiqka_eac_driver/src/robot_manager_node.cpp:321-362 | A failed step leaves the node active with its hardware inactive and its controllers stopped. |
| ControllerModes.StartUp | kuka_iiqka_eac_driver/src/robot_manager_node.cpp:61-97 | Start-up chooses an implemented mode iff the parameter is one; zero modulo 256 is accepted and chooses none. |
| RingDecoder.RepeatedArguments.Decode | kuka_sunrise_fri_driver/src/fri_client_sdk/pb_frimessages_callbacks.c:100-133 | One value into its slot, within bounds. |
| RingDecoder.RepeatedArguments.EncodeField | kuka_sunrise_fri_driver/src/fri_client_sdk/pb_frimessages_callbacks.c:66-98 | The encode loop, which may run out of room. |
| RingDecoder.HoldsAll | kuka_sunrise_fri_driver/src/fri_client_sdk/pb_frimessages_callbacks.c:100-133 | After any messages the size is the number of values mod n, and each of the last n values is in the slot of its number. |
| RingDecoder.FullMessageLands | kuka_sunrise_fri_driver/src/fri_client_sdk/pb_frimessages_callbacks.c:100-133 | A full message v lands as value[(T + j) mod n] = v[j]. |
| RingDecoder.DecodeUndoesEncode | kuka_sunrise_fri_driver/src/fri_client_sdk/pb_frimessages_callbacks.c:66-133 | Decoding undoes encoding for all contents iff T is a multiple of n. |
| RingDecoder.RotationStays | kuka_sunrise_fri_driver/src/fri_client_sdk/pb_frimessages_callbacks.c:127-131 | Full messages never remove a rotation. |
| IpocMatcher.AlwaysSound | kuka_rsi_driver/scripts/rsi_monitor_node.py:80-221 | Over any packets: the order of the two buffers, no pending sender, equal counts, gaps that add up. |
| IpocMatcher.MatchingInClosedForm | kuka_rsi_driver/scripts/rsi_monitor_node.py:144-221 | A number waits iff its last packet was received; the pairs are the sent packets after a received one. |
| IpocMatcher.OldestIsKept | kuka_rsi_driver/scripts/rsi_monitor_node.py:197-202 | The packet that waits is the first of the run. |
| IpocMatcher.EveryPairIsTimed | kuka_rsi_driver/scripts/rsi_monitor_node.py:157-161 | While the clock does not go back every pair gives a response time. |
| IpocMatcher.RegularTraffic | kuka_rsi_driver/scripts/rsi_monitor_node.py:185-221 | In regular traffic all rounds match and the measured times are those from each answer to the next request. |
| IpocMatcher.ReceivedClosesNewest | kuka_rsi_driver/scripts/rsi_monitor_node.py:185-195 | A received packet closes the newest of the answers sent before it, with the time since; the older ones are dropped. |
| IpocMatcher.SentClosesOldest | kuka_rsi_driver/scripts/rsi_monitor_node.py:203-213 | An answer that lags behind closes the oldest of the packets received with a higher number, with a negative time; the others are dropped. |
| IpocMatcher.StatisticsInClosedForm | kuka_rsi_driver/scripts/rsi_monitor_node.py:80-164 | Over any packets both streams describe exactly the matched pairs: sizes, times, gaps and response times. |
| IpocMatcher.RsiMonitor.HandlePacket | kuka_rsi_driver/scripts/rsi_monitor_node.py:166-221 | One packet, in place. |
| IpocMatcher.PortStats.Record | kuka_rsi_driver/scripts/rsi_monitor_node.py:80-91 | One recorded packet of a stream. |
| KrcGenerator.Generator.BuildKrcXml | kuka_rsi_driver/scripts/generate_krc_rsi_config.py:182-386 | The whole generation: the configuration section and the fields a document asks for, numbered, or the first error. |
| KrcGenerator.Generator.EmitJoints | kuka_rsi_driver/scripts/generate_krc_rsi_config.py:268-279 | The run-grouping loop emits the maximal runs. |
| KrcGenerator.Generator.AddReceiveSignal | kuka_rsi_driver/scripts/generate_krc_rsi_config.py:129-179 | An optional command signal, with every rejection. |
| KrcGenerator.IndicesHaveNoGaps | kuka_rsi_driver/scripts/generate_krc_rsi_config.py:224-384 | For every accepted document the indices are 1..k and 1..r in emission order, stop first and the delay last. |
| KrcGenerator.RunsAreMaximal | kuka_rsi_driver/scripts/generate_krc_rsi_config.py:268-279 | The runs concatenate back to the entries, and neighbours differ. |
| KrcGenerator.SentFieldsAreTheCustomOnes | kuka_rsi_driver/scripts/generate_krc_rsi_config.py:224-293 | For every accepted document the numbered fields sent are its custom fields in order, none lost by grouping. |
| KrcGenerator.BlockIsSentOnce | kuka_rsi_driver/scripts/generate_krc_rsi_config.py:230-279 | For every accepted document each built-in block is sent at most once iff its element is in one place and together there. |
| KrcFields.ReceivedFieldsAreTheAskedOnes | kuka_rsi_driver/scripts/generate_krc_rsi_config.py:198-384 | For every accepted document the fields received are Stop, the joints, the external ones, velocities, torques and outputs, in this order, with their types; by default A1 to An and E1 to Em, where m positions have the external element and n have not. |
| KrcFields.SentFieldsAreTheAskedOnes | kuka_rsi_driver/scripts/generate_krc_rsi_config.py:225-293 | For every accepted document the fields sent are the cartesian group, positions, velocities, torques and inputs, entry by entry, a default element once per run, and the delay. |
| KrcFields.LayoutIsReadExactly | kuka_rsi_driver/scripts/generate_krc_rsi_config.py:200-215 | A layout is read iff the document describes it; without one the document is rejected. |
| KrcFields.AcceptedExactly | kuka_rsi_driver/scripts/generate_krc_rsi_config.py:95-386 | A document is accepted iff it describes a layout and each of its other parts is allowed. |
| KrcFields.PortReadsBack | kuka_rsi_driver/scripts/generate_krc_rsi_config.py:190-195 | The port in the configuration section is a decimal number that reads back as the one given. |
| KrcGenerator.LayoutIsAccepted | kuka_rsi_driver/scripts/generate_krc_rsi_config.py:198-222 | Every complete layout of joint entries is that of an accepted document. |
| KrcGenerator.SplitDefaultIsSentTwice | kuka_rsi_driver/scripts/generate_krc_rsi_config.py:230-279 | An accepted document whose default entries are split sends a block more than once. |
| KrcGenerator.RepeatedDefaultIsSentTwice | kuka_rsi_driver/scripts/generate_krc_rsi_config.py:268-279 | So does one whose positions and velocities both use a default element. |
| InterfaceValidator.ValidateInterfaces | kuka_drivers_core/src/joint_interface_validator.cpp:29-81 | Accepts iff the names are a permutation of distinct expected names; the third loop never rejects. |
| InterfaceValidator.Pigeonhole | kuka_drivers_core/src/joint_interface_validator.cpp:43-78 | As many distinct names as expected ones, all expected, are a permutation of them. |

## Left out

- Sockets, threads and reconnection: a connection is a pair of queues of whole messages; charset decoding and the
  joining of TCP packets on the controller are not modelled.
- FriConnection.HandleReceivedTcpData: replies that are shorter than their status announces are excluded, because the
  driver reads past their end.
- Doubles are reals or 64-bit patterns; a negative value written to a digital output, undefined behaviour in C++, is
  taken as zero.
- The driver's decimation counter is an unbounded integer; its overflow after two billion cycles is not modelled.
- Exceptions of the KUKA robotics API while a stiffness is set, and a session close that throws while a start times
  out, are not modelled; the generated enumeration of command modes is taken to number position, wrench and torque 1,
  2, 3 as the client does.
- The state interfaces and GPIO outputs that the Sunrise interface fills while reading.
- CountCheck.CountedInterface.WriteCounted: the Sunrise and iiQKA interfaces repeat this check without asking whether
  they are active; the class follows the RSI one.
- Resource limits of the operating system: real-time priorities, memory locking, time-outs other than that of the
  count wait.
- FriCodec.SerializeConfig: takes the four octets of the client's address; the conversion of the address text is a
  library call.
- ControllerModes.RobotManagerNode.OnControlModeChangeRequest: a stop of control or an error reported while the change
  is under way is not modelled; a second start heard while the wait is ending counts as heard after it.
- RobotManager.ActivateAllOrNothing: no hardware event arrives during the transition.
- ControllerModes.RunKeepsConsistent: needs controller names other than the three fixed ones, see ModeChangeOutcome;
  deactivation, clean-up and mode changes with failed calls are excluded, see FailedModeChangeStaysActive for what
  they leave.
- The map lookup that throws for a mode without names is modelled in GetControllersForMode only; the node requires the
  names start-up gives.
- The extended RSI managers, the simulators, the YAML parser of the driver, the launch and description files.
- IpocMatcher: parsing of payloads, classification by port, and the printed statistics.
- KrcGenerator: the printing of XML; numbers in a document are integers.
- RingDecoder: the tags and fixed-width encoding of nanopb; a negative number of joints.
