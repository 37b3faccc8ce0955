/** Activation and deactivation of the Sunrise hardware interface, as sequences of calls to the controller, and as runs
    of the command connection. */
module FriActivation {
  import opened Words
  import opened FriManager
  import opened FriCodec
  import opened FriServer
  import FriChannel

  datatype CallbackReturn = SUCCESS | FAILURE | ERROR

  const JOINT_POSITION_CONTROL := 1
  const JOINT_IMPEDANCE_CONTROL := 2
  const JOINT_TORQUE_CONTROL := 4

  /** What the driver holds when it is activated, and its two flags. */
  datatype Driver = Driver(
    clientIP: Octets,
    clientPort: int32,
    sendPeriod: int32,
    receiveMultiplier: int32,
    controlMode: int,
    stiffness: seq<uint64>,
    damping: seq<uint64>,
    friStarted: bool,
    controlActivated: bool)

  const ZEROS: seq<uint64> := [0, 0, 0, 0, 0, 0, 0]

  function ConfigRequest(d: Driver): Request {
    Configuring(d.clientIP, d.clientPort, d.sendPeriod, d.receiveMultiplier)
  }

  /** The two mode requests of a control mode; their results are not looked at. */
  function ModeRequests(d: Driver): Option<(Request, Request)> {
    if d.controlMode == JOINT_POSITION_CONTROL then Some((ChoosingPositionControl, ChoosingPositionCommand))
    else if d.controlMode == JOINT_IMPEDANCE_CONTROL then
      Some((ChoosingImpedance(d.stiffness, d.damping), ChoosingPositionCommand))
    else if d.controlMode == JOINT_TORQUE_CONTROL then Some((ChoosingImpedance(ZEROS, ZEROS), ChoosingTorqueCommand))
    else None
  }

  /** The robot's behaviour during each of the calls. */
  type Behaviour = nat -> Robot

  function OnActivate(d: Driver, s: Server, robots: Behaviour): (Driver, Server, CallbackReturn) {
    var (s1, configured) := Called(s, ConfigRequest(d), robots(0));
    if !configured then (d, s1, ERROR)
    else
      match ModeRequests(d)
      case None => (d, s1, ERROR)
      case Some((first, second)) =>
        var (s2, _) := Called(s1, first, robots(1));
        var (s3, _) := Called(s2, second, robots(2));
        var (d', s') := Start(d, s3, robots);
        (d', s', Outcome(d'))
  }

  /** What the starting thread does. */
  function Start(d: Driver, s: Server, robots: Behaviour): (Driver, Server) {
    var (s4, started) := Called(s, StartingFri, robots(3));
    if !started then (d, s4)
    else
      var d4 := d.(friStarted := true);
      var (s5, activated) := Called(s4, ActivatingControl, robots(4));
      (if activated then d4.(controlActivated := true) else d4, s5)
  }

  /** What is returned once the starting thread has ended. */
  function Outcome(d: Driver): CallbackReturn {
    if !d.friStarted || !d.controlActivated then FAILURE else SUCCESS
  }

  function OnDeactivate(d: Driver, s: Server, robots: Behaviour): (Driver, Server, CallbackReturn) {
    var (s1, deactivated) := Called(s, DeactivatingControl, robots(0));
    if !deactivated then (d, s1, ERROR)
    else
      var d1 := d.(controlActivated := false);
      var (s2, ended) := Called(s1, EndingFri, robots(1));
      if !ended then (d1, s2, ERROR) else (d1.(friStarted := false), s2, SUCCESS)
  }

  /** The flags say what the controller's state is. */
  predicate FlagsMatch(d: Driver, s: Server) {
    && (d.friStarted <==> s.manager.state != Inactive)
    && (d.controlActivated <==> s.manager.state == ControlActive)
  }

  /** A successful activation leaves the held configuration and command mode running, with some control mode. */
  predicate RunsWith(d: Driver, m: Manager, mode: ControlMode) {
    && m.state == ControlActive && m.sessionOpen
    && m.session == Some(Session(FriConfig(Dotted(d.clientIP), d.clientPort, d.sendPeriod, d.receiveMultiplier)))
    && m.motion == Some(Motion(m.session.value, mode, HeldCommandMode(d)))
  }

  function HeldCommandMode(d: Driver): ClientCommandMode {
    if d.controlMode == JOINT_TORQUE_CONTROL then Torque else Position
  }

  /** The control mode the driver holds. */
  function HeldMode(d: Driver): ControlMode {
    if d.controlMode == JOINT_IMPEDANCE_CONTROL then JointImpedance(d.stiffness, d.damping)
    else if d.controlMode == JOINT_TORQUE_CONTROL then JointImpedance(ZEROS, ZEROS)
    else PositionControl
  }

  /** The control mode that runs: fewer than fourteen doubles are refused, and the mode stored before stays. */
  function RunningMode(d: Driver, before: ControlMode): ControlMode {
    if d.controlMode != JOINT_IMPEDANCE_CONTROL then HeldMode(d)
    else
      var all := d.stiffness + d.damping;
      if |all| < 2 * JOINTS then before else JointImpedance(all[..JOINTS], all[JOINTS..2 * JOINTS])
  }

  /** The mode that runs is the one held whatever was stored before, exactly when the driver has seven joints or is
      not in impedance control. */
  lemma HeldModeRuns(d: Driver)
    ensures (forall before :: RunningMode(d, before) == HeldMode(d)) <==>
              (d.controlMode == JOINT_IMPEDANCE_CONTROL ==> |d.stiffness| == JOINTS && |d.damping| == JOINTS)
  {
    if d.controlMode == JOINT_IMPEDANCE_CONTROL {
      var all := d.stiffness + d.damping;
      if |d.stiffness| == JOINTS && |d.damping| == JOINTS {
        assert all[..JOINTS] == d.stiffness && all[JOINTS..2 * JOINTS] == d.damping;
      } else if |all| < 2 * JOINTS {
        assert RunningMode(d, PositionControl) != HeldMode(d);
      } else {
        var running := RunningMode(d, PositionControl);
        assert |running.stiffness| == |running.damping| == JOINTS;
      }
    }
  }

  /** With matching flags, activation succeeds exactly with an accepting controller in Inactive, in a supported mode,
      when the robot cooperates; whether the mode requests were refused does not matter. In every case the flags match
      again. */
  lemma Activation(d: Driver, s: Server, robots: Behaviour)
    requires Consistent(s.manager) && FlagsMatch(d, s)
    ensures var (d', s', result) := OnActivate(d, s, robots);
            && Consistent(s'.manager) && FlagsMatch(d', s')
            && d' == d.(friStarted := d'.friStarted, controlActivated := d'.controlActivated)
            && (result == SUCCESS <==> CanActivate(d, s) && robots(3).awaitOk && robots(4).moveOk)
            && (result == ERROR <==> !CanActivate(d, s))
            && (result == FAILURE ==> s'.manager.state == if robots(3).awaitOk then FriActive else Inactive)
            && (result == SUCCESS ==> RunsWith(d, s'.manager, RunningMode(d, s.manager.controlMode)))
  {
    if CanActivate(d, s) {
      PreparedManager(d, s, robots);
      StartFromInactive(d, Prepared(d, s, robots), robots);
    } else {
      NoActivation(d, s, robots);
    }
  }

  predicate CanActivate(d: Driver, s: Server) {
    s.accepting && s.manager.state == Inactive && ModeRequests(d).Some?
  }

  /** A refused configuration or an unsupported mode ends the activation before the session is started. */
  lemma NoActivation(d: Driver, s: Server, robots: Behaviour)
    requires !CanActivate(d, s)
    ensures var (d', s', result) := OnActivate(d, s, robots);
            && result == ERROR && d' == d
            && s'.manager == s.manager.(config := s'.manager.config)
            && (s.manager.state != Inactive ==> s'.manager == s.manager)
  {
  }

  /** The controller after the three calls that come before the start. */
  function Prepared(d: Driver, s: Server, robots: Behaviour): Server
    requires ModeRequests(d).Some?
  {
    var s1 := Called(s, ConfigRequest(d), robots(0)).0;
    var s2 := Called(s1, ModeRequests(d).value.0, robots(1)).0;
    Called(s2, ModeRequests(d).value.1, robots(2)).0
  }

  /** From Inactive none of the three is rejected; an impedance payload that is too short is refused. */
  lemma PreparedManager(d: Driver, s: Server, robots: Behaviour)
    requires CanActivate(d, s)
    ensures var prepared := Prepared(d, s, robots);
            var (d', s') := Start(d, prepared, robots);
            && prepared.accepting
            && prepared.manager == s.manager.(
                 config := FriConfig(Dotted(d.clientIP), d.clientPort, d.sendPeriod, d.receiveMultiplier),
                 controlMode := RunningMode(d, s.manager.controlMode),
                 commandMode := HeldCommandMode(d))
            && OnActivate(d, s, robots) == (d', s', Outcome(d'))
  {
    assert ZEROS + ZEROS == [0, 0, 0, 0, 0, 0, 0, 0, 0, 0, 0, 0, 0, 0];
    assert (ZEROS + ZEROS)[..JOINTS] == ZEROS && (ZEROS + ZEROS)[JOINTS..2 * JOINTS] == ZEROS;
    var s1 := Called(s, ConfigRequest(d), robots(0)).0;
    ModeIsSet(d, s1, robots(1));
  }

  /** The effect of the request for the control mode. */
  lemma ModeIsSet(d: Driver, s: Server, robot: Robot)
    requires CanActivate(d, s)
    ensures var s' := Called(s, ModeRequests(d).value.0, robot).0;
            s' == s.(manager := s.manager.(controlMode := RunningMode(d, s.manager.controlMode)))
  {
    assert (ZEROS + ZEROS)[..JOINTS] == ZEROS && (ZEROS + ZEROS)[JOINTS..2 * JOINTS] == ZEROS;
  }

  lemma StartFromInactive(d: Driver, s: Server, robots: Behaviour)
    requires s.accepting && s.manager.state == Inactive
    ensures var (d', s') := Start(d, s, robots);
            var m, m' := s.manager, s'.manager;
            if !robots(3).awaitOk then d' == d && m' == m.(session := Some(Session(m.config)), sessionOpen := false)
            else if !robots(4).moveOk then
              && d' == d.(friStarted := true)
              && m' == m.(session := Some(Session(m.config)), sessionOpen := true, state := FriActive)
            else
              && d' == d.(friStarted := true, controlActivated := true)
              && m' == m.(session := Some(Session(m.config)), sessionOpen := true, state := ControlActive,
                          motion := Some(Motion(Session(m.config), m.controlMode, m.commandMode)))
  {
  }

  /** Deactivation succeeds exactly from ControlActive when the robot cooperates, and leaves Inactive with no session
      open. */
  lemma Deactivation(d: Driver, s: Server, robots: Behaviour)
    requires Consistent(s.manager) && FlagsMatch(d, s)
    ensures var (d', s', result) := OnDeactivate(d, s, robots);
            && Consistent(s'.manager) && FlagsMatch(d', s')
            && d' == d.(friStarted := d'.friStarted, controlActivated := d'.controlActivated)
            && (result == SUCCESS <==>
                  s.accepting && s.manager.state == ControlActive && robots(0).cancelOk && robots(1).closeOk)
            && result != FAILURE
            && (result == ERROR ==> s'.manager.state == if s.accepting && s.manager.state == ControlActive
                                                            && robots(0).cancelOk then FriActive else s.manager.state)
            && (result == SUCCESS ==> s'.manager.state == Inactive && !s'.manager.sessionOpen)
  {
  }

  /** Between two transitions the controllers may write every interface, but not the flags. */
  datatype Transition = Activate(held: Driver, robots: Behaviour) | Deactivate(robots: Behaviour)

  function Transit(d: Driver, s: Server, t: Transition): (Driver, Server, CallbackReturn) {
    match t
    case Activate(held, robots) =>
      OnActivate(held.(friStarted := d.friStarted, controlActivated := d.controlActivated), s, robots)
    case Deactivate(robots) => OnDeactivate(d, s, robots)
  }

  function Transitions(d: Driver, s: Server, ts: seq<Transition>): (Driver, Server)
    decreases |ts|
  {
    if ts == [] then (d, s)
    else
      var (d', s') := Transitions(d, s, ts[..|ts| - 1]);
      var (d'', s'', _) := Transit(d', s', ts[|ts| - 1]);
      (d'', s'')
  }

  /** Over any sequence of activations and deactivations, whatever the robot does, the flags say what the
      controller's state is - so the next activation or deactivation does what the two lemmas above say. */
  lemma {:induction false} FlagsAlwaysMatch(d: Driver, s: Server, ts: seq<Transition>)
    requires Consistent(s.manager) && FlagsMatch(d, s)
    ensures var (d', s') := Transitions(d, s, ts);
            Consistent(s'.manager) && FlagsMatch(d', s')
    decreases |ts|
  {
    if ts != [] {
      var (d', s') := Transitions(d, s, ts[..|ts| - 1]);
      FlagsAlwaysMatch(d, s, ts[..|ts| - 1]);
      match ts[|ts| - 1] {
        case Activate(held, robots) =>
          Activation(held.(friStarted := d'.friStarted, controlActivated := d'.controlActivated), s', robots);
        case Deactivate(robots) => Deactivation(d', s', robots);
      }
    }
  }

  /** Disconnecting closes the session on the controller but leaves the flags of the driver alone. With
      whatever flags from an inactive controller, the success of an activation can be relied on exactly
      when `controlActivated` was false before the call. */
  lemma SuccessIsReliable(d: Driver, s: Server)
    requires Consistent(s.manager) && CanActivate(d, s)
    ensures (forall robots: Behaviour ::
               OnActivate(d, s, robots).2 == SUCCESS ==> OnActivate(d, s, robots).1.manager.state == ControlActive)
            <==> !d.controlActivated
  {
    var refusing: Behaviour := i => Robot(true, true, false, true);
    RefusedActivation(d, s, refusing);
    if !d.controlActivated {
      forall robots: Behaviour | OnActivate(d, s, robots).2 == SUCCESS
        ensures OnActivate(d, s, robots).1.manager.state == ControlActive
      {
        SucceedingActivation(d, s, robots);
      }
    }
  }

  lemma RefusedActivation(d: Driver, s: Server, robots: Behaviour)
    requires CanActivate(d, s)
    requires robots(3).awaitOk && !robots(4).moveOk
    ensures var (_, s', result) := OnActivate(d, s, robots);
            s'.manager.state == FriActive && (result == SUCCESS <==> d.controlActivated)
  {
    PreparedManager(d, s, robots);
    StartFromInactive(d, Prepared(d, s, robots), robots);
  }

  lemma SucceedingActivation(d: Driver, s: Server, robots: Behaviour)
    requires CanActivate(d, s) && !d.controlActivated
    requires OnActivate(d, s, robots).2 == SUCCESS
    ensures OnActivate(d, s, robots).1.manager.state == ControlActive
  {
    PreparedManager(d, s, robots);
    StartFromInactive(d, Prepared(d, s, robots), robots);
  }

  /** With whatever flags, the result from an inactive controller is told by the flags afterwards: what was set before
      and what the starting thread has set. */
  lemma ActivationResult(d: Driver, s: Server, robots: Behaviour)
    requires CanActivate(d, s)
    ensures var started := d.friStarted || robots(3).awaitOk;
            var activated := d.controlActivated || (robots(3).awaitOk && robots(4).moveOk);
            OnActivate(d, s, robots).2 == if started && activated then SUCCESS else FAILURE
  {
    PreparedManager(d, s, robots);
    StartFromInactive(d, Prepared(d, s, robots), robots);
  }

  /** How the flags become stale: from control, a disconnection or the loss of the connection leaves the controller
      inactive, with no session open, when the robot lets go; the flags of the driver still say control is active. */
  lemma LostConnectionLeavesFlags(d: Driver, s: Server, robot: Robot)
    requires Consistent(s.manager) && FlagsMatch(d, s) && s.manager.state == ControlActive
    requires robot.cancelOk && robot.closeOk
    ensures var lost := ConnectionLost(s, robot);
            var disconnected := Served(s, Disconnecting, robot).0;
            && Consistent(lost.manager) && lost.manager.state == Inactive && !lost.manager.sessionOpen
            && disconnected == lost.(disconnect := true)
            && d.friStarted && d.controlActivated && !FlagsMatch(d, lost)
  {
  }

  /** So an activation after that can report success although control was refused. */
  lemma SuccessAfterLostConnection(d: Driver, s: Server, robot: Robot, robots: Behaviour)
    requires Consistent(s.manager) && FlagsMatch(d, s) && s.manager.state == ControlActive
    requires robot.cancelOk && robot.closeOk && s.accepting && ModeRequests(d).Some?
    requires robots(3).awaitOk && !robots(4).moveOk
    ensures var (_, s', result) := OnActivate(d, ConnectionLost(s, robot), robots);
            result == SUCCESS && s'.manager.state == FriActive
  {
    LostConnectionLeavesFlags(d, s, robot);
    RefusedActivation(d, ConnectionLost(s, robot), robots);
  }

  // ----- over the command connection -----

  /** The requests a transition makes, as the driver decides them: each next one only if the calls before it were told
      success. */
  function Script(t: Transition, told: seq<bool>): seq<Request> {
    match t
    case Activate(held, _) =>
      if |told| < 1 || !told[0] || ModeRequests(held).None? then [ConfigRequest(held)]
      else
        var prepared := [ConfigRequest(held), ModeRequests(held).value.0, ModeRequests(held).value.1, StartingFri];
        if |told| < 4 || !told[3] then prepared else prepared + [ActivatingControl]
    case Deactivate(_) =>
      if |told| < 1 || !told[0] then [DeactivatingControl] else [DeactivatingControl, EndingFri]
  }

  /** What the driver makes of what its calls were told: the flags are set and cleared by them alone. */
  function Acted(d: Driver, t: Transition, told: seq<bool>): Driver {
    match t
    case Activate(held, _) =>
      held.(friStarted := d.friStarted || (|told| >= 4 && told[3]),
            controlActivated := d.controlActivated || (|told| >= 5 && told[4]))
    case Deactivate(_) =>
      d.(controlActivated := d.controlActivated && !(|told| >= 1 && told[0]),
         friStarted := d.friStarted && !(|told| >= 2 && told[1]))
  }

  /** Calls one after the other: the controller afterwards, and what each caller was told. */
  function Trace(s: Server, qs: seq<Request>, robots: Behaviour): (r: (Server, seq<bool>))
    ensures |r.1| == |qs|
  {
    if qs == [] then (s, [])
    else
      var n := |qs| - 1;
      var (before, told) := Trace(s, qs[..n], robots);
      var (after, last) := Called(before, qs[n], robots(n));
      (after, told + [last])
  }

  lemma TraceNext(s: Server, qs: seq<Request>, q: Request, robots: Behaviour)
    ensures var (before, told) := Trace(s, qs, robots);
            var (after, last) := Called(before, q, robots(|qs|));
            Trace(s, qs + [q], robots) == (after, told + [last])
  {
    assert (qs + [q])[..|qs|] == qs;
  }

  lemma FirstCall(s: Server, q: Request, robots: Behaviour)
    ensures var (after, last) := Called(s, q, robots(0));
            Trace(s, [q], robots) == (after, [last])
  {
    var (after, last) := Called(s, q, robots(0));
    assert [q][..0] == [] && [] + [last] == [last];
  }

  /** The three calls that come before the start. */
  lemma PreparedIsTrace(d: Driver, s: Server, robots: Behaviour)
    requires ModeRequests(d).Some?
    ensures var (first, second) := ModeRequests(d).value;
            var (after, told) := Trace(s, [ConfigRequest(d), first, second], robots);
            after == Prepared(d, s, robots) && told[0] == Called(s, ConfigRequest(d), robots(0)).1
  {
    var (first, second) := ModeRequests(d).value;
    var config := ConfigRequest(d);
    FirstCall(s, config, robots);
    TraceNext(s, [config], first, robots);
    assert [config] + [first] == [config, first];
    TraceNext(s, [config, first], second, robots);
    assert [config, first] + [second] == [config, first, second];
  }

  /** The last two calls of an activation. */
  lemma StartIsTrace(d: Driver, s: Server, robots: Behaviour)
    requires ModeRequests(d).Some?
    ensures var (first, second) := ModeRequests(d).value;
            var four := [ConfigRequest(d), first, second, StartingFri];
            var (started, told) := Trace(s, four, robots);
            var (activated, more) := Trace(s, four + [ActivatingControl], robots);
            && told[0] == more[0] == Called(s, ConfigRequest(d), robots(0)).1 && told[3] == more[3]
            && Start(d, Prepared(d, s, robots), robots)
               == if !told[3] then (d, started)
                  else (d.(friStarted := true, controlActivated := d.controlActivated || more[4]), activated)
  {
    var (first, second) := ModeRequests(d).value;
    var three := [ConfigRequest(d), first, second];
    PreparedIsTrace(d, s, robots);
    TraceNext(s, three, StartingFri, robots);
    assert three + [StartingFri] == [ConfigRequest(d), first, second, StartingFri];
    TraceNext(s, [ConfigRequest(d), first, second, StartingFri], ActivatingControl, robots);
  }

  /** Any calls that follow the script of a transition have its effect on controller and driver. */
  lemma TransitionIsTrace(d: Driver, s: Server, t: Transition, qs: seq<Request>)
    requires qs == Script(t, Trace(s, qs, t.robots).1)
    ensures var (after, told) := Trace(s, qs, t.robots);
            var (d', s', _) := Transit(d, s, t);
            d' == Acted(d, t, told) && s' == after
  {
    match t
    case Activate(held, robots) =>
      ActivationIsTrace(held.(friStarted := d.friStarted, controlActivated := d.controlActivated), s, robots, qs);
    case Deactivate(robots) => DeactivationIsTrace(d, s, robots, qs);
  }

  lemma ActivationIsTrace(d: Driver, s: Server, robots: Behaviour, qs: seq<Request>)
    requires qs == Script(Activate(d, robots), Trace(s, qs, robots).1)
    ensures var (after, told) := Trace(s, qs, robots);
            var (d', s', _) := OnActivate(d, s, robots);
            d' == Acted(d, Activate(d, robots), told) && s' == after
  {
    FirstCall(s, ConfigRequest(d), robots);
    if ModeRequests(d).Some? {
      StartIsTrace(d, s, robots);
    }
  }

  lemma DeactivationIsTrace(d: Driver, s: Server, robots: Behaviour, qs: seq<Request>)
    requires qs == Script(Deactivate(robots), Trace(s, qs, robots).1)
    ensures var (after, told) := Trace(s, qs, robots);
            var (d', s', _) := OnDeactivate(d, s, robots);
            d' == Acted(d, Deactivate(robots), told) && s' == after
  {
    FirstCall(s, DeactivatingControl, robots);
    TraceNext(s, [DeactivatingControl], EndingFri, robots);
    assert [DeactivatingControl] + [EndingFri] == [DeactivatingControl, EndingFri];
  }

  lemma {:induction false} ExecutedIsTrace(s: Server, qs: seq<Request>, behaved: seq<Robot>, robots: Behaviour)
    requires |qs| == |behaved| && s.accepting && forall i | 0 <= i < |behaved| :: behaved[i] == robots(i)
    ensures FriChannel.ExecuteAll(Served, s, qs, behaved) == Trace(s, qs, robots)
    ensures Trace(s, qs, robots).0.accepting
    decreases |qs|
  {
    if qs != [] {
      var n := |qs| - 1;
      ExecutedIsTrace(s, qs[..n], behaved[..n], robots);
    }
  }

  /** A transition of the driver and what the connection does meanwhile: the steps of caller, receiving thread and
      server, in any order and with any notices in between. */
  datatype Segment = Segment(transition: Transition, events: seq<FriChannel.Event>)

  function Afterwards(s: FriChannel.System, g: Segment): FriChannel.System {
    FriChannel.Run(FriChannel.Controller, s, g.events)
  }

  /** What the calls made since `s` were told. */
  function Told(s: FriChannel.System, r: FriChannel.System): seq<bool> {
    if |r.calls| < |s.calls| then []
    else seq(|r.calls| - |s.calls|, i requires 0 <= i < |r.calls| - |s.calls| => r.calls[|s.calls| + i].verdict)
  }

  /** Since `s` the caller has made these calls and rests again; no notice was taken for an answer. */
  ghost predicate Made(s: FriChannel.System, r: FriChannel.System, qs: seq<Request>, robots: Behaviour) {
    && r.client.phase == FriChannel.Resting && r.noticesConsumed == s.noticesConsumed
    && |s.requests| <= |r.requests| && r.requests[|s.requests|..] == qs
    && forall i | |s.robots| <= i < |r.robots| :: r.robots[i] == robots(i - |s.robots|)
  }

  /** The caller makes the calls of the transition. */
  ghost predicate Drives(s: FriChannel.System, g: Segment) {
    var r := Afterwards(s, g);
    Made(s, r, Script(g.transition, Told(s, r)), g.transition.robots)
  }

  /** The connection is between calls, with nothing owed, and the controller accepts commands. */
  ghost predicate Ready(s: FriChannel.System) {
    FriChannel.Sound(s) && FriChannel.Settled(s) && s.server.accepting
  }

  /** Whoever makes these calls is told what making them atomically would tell. */
  lemma CallsAreTraced(s: FriChannel.System, qs: seq<Request>, robots: Behaviour, events: seq<FriChannel.Event>)
    requires Ready(s) && Made(s, FriChannel.Run(FriChannel.Controller, s, events), qs, robots)
    ensures var r := FriChannel.Run(FriChannel.Controller, s, events);
            Ready(r) && r.server == Trace(s.server, qs, robots).0 && Told(s, r) == Trace(s.server, qs, robots).1
  {
    var r, n := FriChannel.Run(FriChannel.Controller, s, events), |s.calls|;
    FriChannel.CallsAreAtomic(s, events);
    FriChannel.SettledIsInOrder(FriChannel.Controller, s);
    LaterRobots(r.robots, n, robots);
    ExecutedIsTrace(s.server, qs, r.robots[n..], robots);
    ToldIsExecuted(s, r, Trace(s.server, qs, robots).1);
  }

  lemma LaterRobots(all: seq<Robot>, n: nat, robots: Behaviour)
    requires n <= |all| && forall i | n <= i < |all| :: all[i] == robots(i - n)
    ensures forall i | 0 <= i < |all[n..]| :: all[n..][i] == robots(i)
  {
    forall i | 0 <= i < |all[n..]|
      ensures all[n..][i] == robots(i)
    {
      assert all[n + i] == robots(n + i - n);
    }
  }

  /** Over any settled connection, however it is scheduled, a transition has on the controller the effect of its calls
      made atomically, and the flags that the driver computes from what its calls were told are those of it. */
  lemma TransitionOverConnection(d: Driver, s: FriChannel.System, g: Segment)
    requires Ready(s) && Drives(s, g)
    ensures var r := Afterwards(s, g);
            var (d', s', _) := Transit(d, s.server, g.transition);
            Ready(r) && r.server == s' && Acted(d, g.transition, Told(s, r)) == d'
  {
    var r := Afterwards(s, g);
    var qs := r.requests[|s.requests|..];
    CallsAreTraced(s, qs, g.transition.robots, g.events);
    TransitionIsTrace(d, s.server, g.transition, qs);
  }

  lemma ToldIsExecuted(s: FriChannel.System, r: FriChannel.System, executed: seq<bool>)
    requires |r.calls| == |s.calls| + |executed|
    requires forall i | |s.calls| <= i < |r.calls| :: r.calls[i].verdict == executed[i - |s.calls|]
    ensures Told(s, r) == executed
  {
    forall i | 0 <= i < |executed|
      ensures Told(s, r)[i] == executed[i]
    {
      assert r.calls[|s.calls| + i].verdict == executed[|s.calls| + i - |s.calls|];
    }
  }

  /** Driver and connection after one segment after the other. */
  function Driven(d: Driver, s: FriChannel.System, gs: seq<Segment>): (Driver, FriChannel.System)
    decreases |gs|
  {
    if gs == [] then (d, s)
    else
      var (d', s') := Driven(d, s, gs[..|gs| - 1]);
      var g := gs[|gs| - 1];
      (Acted(d', g.transition, Told(s', Afterwards(s', g))), Afterwards(s', g))
  }

  ghost predicate AllDrive(d: Driver, s: FriChannel.System, gs: seq<Segment>)
    decreases |gs|
  {
    gs == [] ||
    (AllDrive(d, s, gs[..|gs| - 1]) && Drives(Driven(d, s, gs[..|gs| - 1]).1, gs[|gs| - 1]))
  }

  function TransitionsOf(gs: seq<Segment>): (ts: seq<Transition>)
    ensures |ts| == |gs|
  {
    seq(|gs|, i requires 0 <= i < |gs| => gs[i].transition)
  }

  lemma LastOfTransitions(gs: seq<Segment>)
    requires gs != []
    ensures TransitionsOf(gs) == TransitionsOf(gs[..|gs| - 1]) + [gs[|gs| - 1].transition]
  {
  }

  /** Over any sequence of activations and deactivations made over the connection, the controller is where the calls
      made atomically would leave it, and the driver's flags say what its state is. */
  lemma LifecycleOverConnection(d: Driver, s: FriChannel.System, gs: seq<Segment>)
    requires Ready(s) && Consistent(s.server.manager) && FlagsMatch(d, s.server) && AllDrive(d, s, gs)
    ensures var (d', r) := Driven(d, s, gs);
            && Ready(r) && (d', r.server) == Transitions(d, s.server, TransitionsOf(gs))
            && Consistent(r.server.manager) && FlagsMatch(d', r.server)
  {
    DrivenIsTransitions(d, s, gs);
    FlagsAlwaysMatch(d, s.server, TransitionsOf(gs));
  }

  lemma {:induction false} DrivenIsTransitions(d: Driver, s: FriChannel.System, gs: seq<Segment>)
    requires Ready(s) && AllDrive(d, s, gs)
    ensures var (d', r) := Driven(d, s, gs);
            Ready(r) && (d', r.server) == Transitions(d, s.server, TransitionsOf(gs))
    decreases |gs|
  {
    if gs != [] {
      var front, g := gs[..|gs| - 1], gs[|gs| - 1];
      DrivenIsTransitions(d, s, front);
      var (d', s') := Driven(d, s, front);
      LastOfTransitions(gs);
      OneMoreTransition(d, s.server, TransitionsOf(front), d', s', g);
    }
  }

  lemma OneMoreTransition(d: Driver, start: Server, ts: seq<Transition>, d': Driver, s': FriChannel.System, g: Segment)
    requires Ready(s') && Drives(s', g) && (d', s'.server) == Transitions(d, start, ts)
    ensures var r := Afterwards(s', g);
            Ready(r)
            && (Acted(d', g.transition, Told(s', r)), r.server) == Transitions(d, start, ts + [g.transition])
  {
    TransitionOverConnection(d', s', g);
    NextTransition(d, start, ts, g.transition);
  }

  lemma NextTransition(d: Driver, s: Server, ts: seq<Transition>, t: Transition)
    ensures var (d', s') := Transitions(d, s, ts);
            var (d'', s'', _) := Transit(d', s', t);
            Transitions(d, s, ts + [t]) == (d'', s'')
  {
    assert (ts + [t])[..|ts|] == ts;
  }

  /** A connection begins with the command that makes it; the driver begins with both flags cleared. So from a new
      connection to an inactive controller on, the flags always say what the controller's state is. */
  lemma DriverOverConnection(d: Driver, s: FriChannel.System, connecting: seq<FriChannel.Event>, gs: seq<Segment>)
    requires FriChannel.Fresh(s) && s.server.accepting
    requires Consistent(s.server.manager) && s.server.manager.state == Inactive && !d.friStarted && !d.controlActivated
    requires var c := FriChannel.Run(FriChannel.Controller, s, connecting);
             && c.requests == [Connecting] && c.client.phase == FriChannel.Resting && c.noticesConsumed == 0
             && AllDrive(d, c, gs)
    ensures var c := FriChannel.Run(FriChannel.Controller, s, connecting);
            var (d', r) := Driven(d, c, gs);
            && c.calls[..] == [FriChannel.Call(Connecting, 0, Some(0), true)]
            && (d', r.server) == Transitions(d, s.server, TransitionsOf(gs))
            && Consistent(r.server.manager) && FlagsMatch(d', r.server)
  {
    ConnectionIsMade(s, connecting);
    LifecycleOverConnection(d, FriChannel.Run(FriChannel.Controller, s, connecting), gs);
  }

  lemma ConnectionIsMade(s: FriChannel.System, connecting: seq<FriChannel.Event>)
    requires FriChannel.Fresh(s) && s.server.accepting
    requires var c := FriChannel.Run(FriChannel.Controller, s, connecting);
             c.requests == [Connecting] && c.client.phase == FriChannel.Resting && c.noticesConsumed == 0
    ensures var c := FriChannel.Run(FriChannel.Controller, s, connecting);
            Ready(c) && c.server == s.server && c.calls == [FriChannel.Call(Connecting, 0, Some(0), true)]
  {
    FriChannel.FreshIsSettled(s);
    FriChannel.CallsAreAtomic(s, connecting);
    FriChannel.CallsMatchTheirAnswers(FriChannel.Controller, s, connecting);
    var c := FriChannel.Run(FriChannel.Controller, s, connecting);
    assert c.requests[0..] == [Connecting] && c.robots[0..] == [c.robots[0]] && [Connecting][..0] == [];
    assert FriChannel.Own(c, c.calls[0]);
  }

  // ----- such runs exist -----

  /** The requests a transition makes from a state of the controller. */
  function RequestsFrom(s: Server, t: Transition): seq<Request> {
    match t
    case Activate(held, robots) =>
      if !Called(s, ConfigRequest(held), robots(0)).1 || ModeRequests(held).None? then [ConfigRequest(held)]
      else
        var prepared := [ConfigRequest(held), ModeRequests(held).value.0, ModeRequests(held).value.1, StartingFri];
        if Called(Prepared(held, s, robots), StartingFri, robots(3)).1 then prepared + [ActivatingControl] else prepared
    case Deactivate(robots) =>
      if Called(s, DeactivatingControl, robots(0)).1 then [DeactivatingControl, EndingFri] else [DeactivatingControl]
  }

  lemma RequestsFollowScript(s: Server, t: Transition)
    ensures RequestsFrom(s, t) == Script(t, Trace(s, RequestsFrom(s, t), t.robots).1)
  {
    match t
    case Activate(held, robots) =>
      FirstCall(s, ConfigRequest(held), robots);
      if ModeRequests(held).Some? {
        StartIsTrace(held, s, robots);
        StartTold(held, s, robots);
      }
    case Deactivate(robots) =>
      FirstCall(s, DeactivatingControl, robots);
      TraceNext(s, [DeactivatingControl], EndingFri, robots);
      assert [DeactivatingControl] + [EndingFri] == [DeactivatingControl, EndingFri];
  }

  lemma StartTold(d: Driver, s: Server, robots: Behaviour)
    requires ModeRequests(d).Some?
    ensures var (first, second) := ModeRequests(d).value;
            Trace(s, [ConfigRequest(d), first, second, StartingFri], robots).1[3]
            == Called(Prepared(d, s, robots), StartingFri, robots(3)).1
  {
    var (first, second) := ModeRequests(d).value;
    PreparedIsTrace(d, s, robots);
    TraceNext(s, [ConfigRequest(d), first, second], StartingFri, robots);
    assert [ConfigRequest(d), first, second] + [StartingFri] == [ConfigRequest(d), first, second, StartingFri];
  }

  /** The events of calls made one after the other, without anything in between. */
  function EventsOf(qs: seq<Request>, robots: Behaviour): seq<FriChannel.Event> {
    if qs == [] then []
    else
      var n := |qs| - 1;
      EventsOf(qs[..n], robots) + FriChannel.CallEvents(qs[n], robots(n))
  }

  lemma {:induction false} CallsCanBeMade(s: FriChannel.System, qs: seq<Request>, robots: Behaviour)
    requires FriChannel.Sound(s) && FriChannel.Quiet(s)
    ensures var r := FriChannel.Run(FriChannel.Controller, s, EventsOf(qs, robots));
            && FriChannel.Sound(r) && FriChannel.Quiet(r) && r.noticesConsumed == s.noticesConsumed
            && r.requests == s.requests + qs
            && r.robots == s.robots + seq(|qs|, i requires 0 <= i < |qs| => robots(i))
    decreases |qs|
  {
    if qs != [] {
      var n := |qs| - 1;
      var front := EventsOf(qs[..n], robots);
      CallsCanBeMade(s, qs[..n], robots);
      FriChannel.RunInTurn(FriChannel.Controller, s, front, FriChannel.CallEvents(qs[n], robots(n)));
      FriChannel.CallCanBeMade(FriChannel.Run(FriChannel.Controller, s, front), qs[n], robots(n));
      assert qs[..n] + [qs[n]] == qs;
    }
  }

  /** From every quiet connection each transition, with any behaviour of the robot, can be driven. */
  lemma TransitionCanBeDriven(s: FriChannel.System, t: Transition)
    requires Ready(s) && FriChannel.Quiet(s)
    ensures var g := Segment(t, EventsOf(RequestsFrom(s.server, t), t.robots));
            Drives(s, g) && FriChannel.Quiet(Afterwards(s, g))
  {
    RequestsFollowScript(s.server, t);
    ScriptCanBeDriven(s, t, RequestsFrom(s.server, t));
  }

  lemma ScriptCanBeDriven(s: FriChannel.System, t: Transition, qs: seq<Request>)
    requires Ready(s) && FriChannel.Quiet(s)
    requires qs == Script(t, Trace(s.server, qs, t.robots).1)
    ensures var g := Segment(t, EventsOf(qs, t.robots));
            Drives(s, g) && FriChannel.Quiet(Afterwards(s, g))
  {
    var g := Segment(t, EventsOf(qs, t.robots));
    CallsCanBeMade(s, qs, t.robots);
    AddedIsMade(s, Afterwards(s, g), qs, t.robots);
    CallsAreTraced(s, qs, t.robots, g.events);
  }

  lemma AddedIsMade(s: FriChannel.System, r: FriChannel.System, qs: seq<Request>, robots: Behaviour)
    requires FriChannel.Quiet(r) && r.noticesConsumed == s.noticesConsumed && r.requests == s.requests + qs
    requires r.robots == s.robots + seq(|qs|, i requires 0 <= i < |qs| => robots(i))
    ensures Made(s, r, qs, robots)
  {
    assert r.requests[|s.requests|..] == qs;
  }

  /** A segment for each transition, made without anything in between. */
  function SegmentsFor(d: Driver, s: FriChannel.System, ts: seq<Transition>): seq<Segment>
    decreases |ts|
  {
    if ts == [] then []
    else
      var front, t := SegmentsFor(d, s, ts[..|ts| - 1]), ts[|ts| - 1];
      var server := Driven(d, s, front).1.server;
      front + [Segment(t, EventsOf(RequestsFrom(server, t), t.robots))]
  }

  lemma {:induction false} LifecycleCanBeDriven(d: Driver, s: FriChannel.System, ts: seq<Transition>)
    requires Ready(s) && FriChannel.Quiet(s)
    ensures var gs := SegmentsFor(d, s, ts);
            var r := Driven(d, s, gs).1;
            TransitionsOf(gs) == ts && AllDrive(d, s, gs) && Ready(r) && FriChannel.Quiet(r)
    decreases |ts|
  {
    if ts != [] {
      var n := |ts| - 1;
      var front, gs := SegmentsFor(d, s, ts[..n]), SegmentsFor(d, s, ts);
      LifecycleCanBeDriven(d, s, ts[..n]);
      assert |front| == |TransitionsOf(front)| == n && gs[..n] == front;
      var (d', s') := Driven(d, s, front);
      TransitionCanBeDriven(s', ts[n]);
      TransitionOverConnection(d', s', gs[n]);
      LastTransition(gs, ts);
    }
  }

  lemma LastTransition(gs: seq<Segment>, ts: seq<Transition>)
    requires |gs| == |ts| > 0
    requires TransitionsOf(gs[..|gs| - 1]) == ts[..|ts| - 1] && gs[|gs| - 1].transition == ts[|ts| - 1]
    ensures TransitionsOf(gs) == ts
  {
    forall i | 0 <= i < |ts|
      ensures TransitionsOf(gs)[i] == ts[i]
    {
      if i < |ts| - 1 {
        assert TransitionsOf(gs[..|gs| - 1])[i] == ts[..|ts| - 1][i];
      }
    }
  }

  /** Every sequence of transitions can follow the making of a connection, so the driver's runs are all covered. */
  lemma DriverCanRun(d: Driver, s: FriChannel.System, robot: Robot, ts: seq<Transition>)
    requires FriChannel.Fresh(s) && s.server.accepting
    ensures var c := FriChannel.Run(FriChannel.Controller, s, FriChannel.CallEvents(Connecting, robot));
            && c.requests == [Connecting] && c.client.phase == FriChannel.Resting && c.noticesConsumed == 0
            && exists gs :: TransitionsOf(gs) == ts && AllDrive(d, c, gs)
  {
    var connecting := FriChannel.CallEvents(Connecting, robot);
    var c := FriChannel.Run(FriChannel.Controller, s, connecting);
    FriChannel.FreshIsSettled(s);
    FriChannel.CallCanBeMade(s, Connecting, robot);
    assert c.requests == [Connecting];
    ConnectionIsMade(s, connecting);
    LifecycleCanBeDriven(d, c, ts);
  }

  // ----- the callbacks -----

  /** The connection to the controller, one atomic call at a time. */
  class FriLink {
    var server: Server

    constructor (server: Server)
      ensures this.server == server
    {
      this.server := server;
    }

    method SendCommandAndWait(q: Request, robot: Robot) returns (success: bool)
      modifies this
      ensures (server, success) == Called(old(server), q, robot)
    {
      RequestArrives(server, q, robot);
      var (after, reply) := HandleMessage(server, RequestBytes(q), robot);
      server := after;
      return reply == Accepted(IdOf(q), true);
    }
  }

  /** The lifecycle callbacks, with the flags as fields. */
  class FriHardwareLifecycle {
    const link: FriLink
    var held: Driver
    var friStarted: bool
    var controlActivated: bool

    ghost function View(): Driver
      reads this
    {
      held.(friStarted := friStarted, controlActivated := controlActivated)
    }

    constructor (link: FriLink, held: Driver)
      ensures this.link == link && View() == held.(friStarted := false, controlActivated := false)
    {
      this.link := link;
      this.held := held;
      friStarted, controlActivated := false, false;
    }

    method OnActivateCallback(robots: Behaviour) returns (result: CallbackReturn)
      modifies this, link
      ensures (View(), link.server, result) == OnActivate(old(View()), old(link.server), robots)
    {
      var configured := link.SendCommandAndWait(ConfigRequest(held), robots(0));
      if !configured {
        return ERROR;
      }
      var modes := ModeRequests(held);
      if modes == None {
        return ERROR;
      }
      var _ := link.SendCommandAndWait(modes.value.0, robots(1));
      var _ := link.SendCommandAndWait(modes.value.1, robots(2));
      Starting(robots);
      if !friStarted || !controlActivated {
        return FAILURE;
      }
      return SUCCESS;
    }

    /** The starting thread. */
    method Starting(robots: Behaviour)
      modifies this`friStarted, this`controlActivated, link
      ensures (View(), link.server) == Start(old(View()), old(link.server), robots)
    {
      var started := link.SendCommandAndWait(StartingFri, robots(3));
      if !started {
        return;
      }
      friStarted := true;
      var activated := link.SendCommandAndWait(ActivatingControl, robots(4));
      if !activated {
        return;
      }
      controlActivated := true;
    }

    method OnDeactivateCallback(robots: Behaviour) returns (result: CallbackReturn)
      modifies this, link
      ensures (View(), link.server, result) == OnDeactivate(old(View()), old(link.server), robots)
    {
      var deactivated := link.SendCommandAndWait(DeactivatingControl, robots(0));
      if !deactivated {
        return ERROR;
      }
      controlActivated := false;
      var ended := link.SendCommandAndWait(EndingFri, robots(1));
      if !ended {
        return ERROR;
      }
      friStarted := false;
      return SUCCESS;
    }
  }
}
