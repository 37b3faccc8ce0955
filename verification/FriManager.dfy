/** The state machine on the robot controller: Inactive, FRIActive and ControlActive. */
module FriManager {
  import opened Words

  datatype State = Inactive | FriActive | ControlActive

  datatype FriConfig = FriConfig(remoteIP: string, remotePort: int32, sendPeriod: int32, receiveMultiplier: int32)

  /** Stiffness and damping as the 64-bit patterns of doubles. */
  datatype ControlMode =
    | PositionControl
    | JointImpedance(stiffness: seq<uint64>, damping: seq<uint64>)

  datatype ClientCommandMode = NoCommand | Position | Wrench | Torque

  datatype Session = Session(config: FriConfig)

  datatype Motion = Motion(session: Session, controlMode: ControlMode, commandMode: ClientCommandMode)

  datatype Manager = Manager(
    state: State,
    session: Option<Session>,
    sessionOpen: bool,
    config: FriConfig,
    controlMode: ControlMode,
    commandMode: ClientCommandMode,
    motion: Option<Motion>)

  datatype CommandResult = Executed | Rejected | Errored

  /** Whether the robot API raises an exception: while the session is awaited, when it is closed, and when
      the motion is started or cancelled. */
  datatype Robot = Robot(awaitOk: bool, closeOk: bool, moveOk: bool, cancelOk: bool)

  datatype ManagerCommand =
    | StartFri
    | EndFri
    | ActivateControl
    | DeactivateControl
    | SetFriConfig(config: FriConfig)
    | SetControlMode(controlMode: ControlMode)
    | SetCommandMode(commandMode: ClientCommandMode)

  /** What the state machine does with one command. */
  function Handle(m: Manager, c: ManagerCommand, robot: Robot): (Manager, CommandResult) {
    match c
    case StartFri =>
      if m.state != Inactive then (m, Rejected)
      else
        // a session that was not reached in time is closed again
        var started := m.(session := Some(Session(m.config)), sessionOpen := robot.awaitOk);
        if robot.awaitOk then (started.(state := FriActive), Executed) else (started, Errored)
    case EndFri =>
      if m.state != FriActive then (m, Rejected)
      else if robot.closeOk then (m.(state := Inactive, sessionOpen := false), Executed)
      else (m, Errored)
    case ActivateControl =>
      if m.state != FriActive || m.session == None then (m, Rejected)
      else if !robot.moveOk then (m, Errored)
      else (m.(motion := Some(Motion(m.session.value, m.controlMode, m.commandMode)), state := ControlActive), Executed)
    case DeactivateControl =>
      if m.state != ControlActive then (m, Rejected)
      else if robot.cancelOk then (m.(state := FriActive), Executed)
      else (m, Errored)
    case SetFriConfig(config) =>
      if m.state == Inactive then (m.(config := config), Executed) else (m, Rejected)
    case SetControlMode(mode) =>
      if m.state == ControlActive then (m, Rejected) else (m.(controlMode := mode), Executed)
    case SetCommandMode(mode) =>
      if m.state == ControlActive then (m, Rejected) else (m.(commandMode := mode), Executed)
  }

  /** End whatever is active; what goes wrong on the way is not looked at. */
  function Close(m: Manager, robot: Robot): Manager {
    var m1 := if m.state == ControlActive then Handle(m, DeactivateControl, robot).0 else m;
    if m1.state == FriActive then Handle(m1, EndFri, robot).0 else m1
  }

  const DEFAULT_CONFIG := FriConfig("0.0.0.0", 30200, 10, 1)

  /** The manager as it is constructed; the default impedance mode has a stiffness of 200 in every joint. */
  predicate Initial(m: Manager) {
    m.state == Inactive && m.session == None && !m.sessionOpen && m.motion == None && m.config == DEFAULT_CONFIG
    && m.commandMode == Position
  }

  /** A session is open exactly outside Inactive, and there it runs the stored configuration; in ControlActive the
      motion runs in that session with the stored control and command modes. */
  predicate Consistent(m: Manager) {
    && (m.sessionOpen <==> m.state != Inactive)
    && (m.state != Inactive ==> m.session == Some(Session(m.config)))
    && (m.state == ControlActive ==> m.motion == Some(Motion(Session(m.config), m.controlMode, m.commandMode)))
  }

  datatype Event = Commanded(command: ManagerCommand) | Closed

  function React(m: Manager, event: Event, robot: Robot): Manager {
    match event
    case Commanded(c) => Handle(m, c, robot).0
    case Closed => Close(m, robot)
  }

  function Run(m: Manager, events: seq<(Event, Robot)>): Manager
    decreases |events|
  {
    if events == [] then m
    else
      var last := events[|events| - 1];
      React(Run(m, events[..|events| - 1]), last.0, last.1)
  }

  /** The invariant over every sequence of commands and closings, whatever the robot answers. */
  lemma {:induction false} AlwaysConsistent(m: Manager, events: seq<(Event, Robot)>)
    requires Consistent(m)
    ensures Consistent(Run(m, events))
    decreases |events|
  {
    if events != [] {
      AlwaysConsistent(m, events[..|events| - 1]);
    }
  }

  /** The transition diagram: an executed command moves along its one edge, and nothing else moves the state.
      A rejected command changes nothing at all. */
  lemma Transitions(m: Manager, c: ManagerCommand, robot: Robot)
    requires Consistent(m)
    ensures var (m', result) := Handle(m, c, robot);
            && (result == Rejected ==> m' == m)
            && (result != Executed ==> m'.state == m.state && m'.config == m.config
                                       && m'.controlMode == m.controlMode && m'.commandMode == m.commandMode)
            && (result == Rejected <==>
                  match c
                  case StartFri => m.state != Inactive
                  case EndFri => m.state != FriActive
                  case ActivateControl => m.state != FriActive
                  case DeactivateControl => m.state != ControlActive
                  case SetFriConfig(_) => m.state != Inactive
                  case SetControlMode(_) => m.state == ControlActive
                  case SetCommandMode(_) => m.state == ControlActive)
            && (m'.state != m.state ==>
                  || (c == StartFri && m.state == Inactive && m'.state == FriActive)
                  || (c == EndFri && m.state == FriActive && m'.state == Inactive)
                  || (c == ActivateControl && m.state == FriActive && m'.state == ControlActive)
                  || (c == DeactivateControl && m.state == ControlActive && m'.state == FriActive))
  {
  }

  /** The run stays at or above a state: with the session open, or with the motion running. */
  ghost predicate Stays(m: Manager, events: seq<(Event, Robot)>, motion: bool) {
    forall n | 0 <= n <= |events| ::
      Run(m, events[..n]).state == ControlActive || (!motion && Run(m, events[..n]).state == FriActive)
  }

  /** What runs cannot be changed: while the session stays open its configuration is fixed, and while the
      motion keeps running so are its modes, whatever is commanded. */
  lemma {:induction false} RunningSettingsAreFixed(m: Manager, events: seq<(Event, Robot)>, motion: bool)
    requires Consistent(m) && Stays(m, events, motion)
    ensures var r := Run(m, events);
            && r.session == m.session && r.config == m.config
            && (motion ==> r.motion == m.motion && r.controlMode == m.controlMode && r.commandMode == m.commandMode)
    decreases |events|
  {
    assert events[..|events|] == events;
    if events != [] {
      var front := events[..|events| - 1];
      assert forall n | 0 <= n <= |front| :: front[..n] == events[..n];
      RunningSettingsAreFixed(m, front, motion);
      AlwaysConsistent(m, front);
      assert Run(m, events[..|front|]).state != Inactive;
    }
  }

  /** Event `i` started the session that has been open ever since, with the configuration stored then. */
  ghost predicate SessionBegan(m: Manager, events: seq<(Event, Robot)>, i: nat)
    requires i < |events|
  {
    var before := Run(m, events[..i]);
    && events[i].0 == Commanded(StartFri) && events[i].1.awaitOk && before.state == Inactive
    && (forall n | i < n <= |events| :: Run(m, events[..n]).state != Inactive)
    && Run(m, events).session == Some(Session(before.config))
  }

  /** Event `j` started the motion that has been running ever since, with the modes stored then. */
  ghost predicate MotionBegan(m: Manager, events: seq<(Event, Robot)>, j: nat)
    requires j < |events|
  {
    var before, r := Run(m, events[..j]), Run(m, events);
    && events[j].0 == Commanded(ActivateControl) && events[j].1.moveOk && before.state == FriActive
    && (forall n | j < n <= |events| :: Run(m, events[..n]).state == ControlActive)
    && r.session.Some? && r.motion == Some(Motion(r.session.value, before.controlMode, before.commandMode))
  }

  lemma {:induction false} FindSession(m: Manager, events: seq<(Event, Robot)>) returns (i: nat)
    requires Consistent(m) && m.state == Inactive && Run(m, events).state != Inactive
    ensures i < |events| && SessionBegan(m, events, i)
    decreases |events|
  {
    var front := events[..|events| - 1];
    AlwaysConsistent(m, front);
    assert events[..|events|] == events;
    if Run(m, front).state == Inactive {
      i := |front|;
    } else {
      i := FindSession(m, front);
      assert front[..i] == events[..i];
      forall n | i < n <= |events|
        ensures Run(m, events[..n]).state != Inactive
      {
        assert n < |events| ==> front[..n] == events[..n];
      }
    }
  }

  lemma {:induction false} FindMotion(m: Manager, events: seq<(Event, Robot)>) returns (j: nat)
    requires Consistent(m) && m.state == Inactive && Run(m, events).state == ControlActive
    ensures j < |events| && MotionBegan(m, events, j)
    decreases |events|
  {
    var front := events[..|events| - 1];
    AlwaysConsistent(m, front);
    assert events[..|events|] == events;
    if Run(m, front).state != ControlActive {
      j := |front|;
    } else {
      j := FindMotion(m, front);
      assert front[..j] == events[..j];
      forall n | j < n <= |events|
        ensures Run(m, events[..n]).state == ControlActive
      {
        assert n < |events| ==> front[..n] == events[..n];
      }
    }
  }

  /** Control is only reached step by step: whatever was commanded, the motion that runs was started in a session
      started before it, both are still the same, and they run what was stored when each was started. */
  lemma ControlComesStepByStep(m: Manager, events: seq<(Event, Robot)>)
    requires Consistent(m) && m.state == Inactive && Run(m, events).state == ControlActive
    ensures exists i, j :: 0 <= i < j < |events| && SessionBegan(m, events, i) && MotionBegan(m, events, j)
  {
    var i := FindSession(m, events);
    var j := FindMotion(m, events);
    assert i < j;
  }

  /** Closing reaches Inactive from every state exactly when the robot lets go of what is active. */
  lemma CloseReachesInactive(m: Manager, robot: Robot)
    ensures Close(m, robot).state == Inactive <==>
            || m.state == Inactive
            || (m.state == FriActive && robot.closeOk)
            || (m.state == ControlActive && robot.cancelOk && robot.closeOk)
    ensures var r := Close(m, robot);
            r.config == m.config && r.controlMode == m.controlMode && r.commandMode == m.commandMode
  {
  }

  /** The object, with its fields reassigned by the commands. */
  class FriManagerObject {
    var currentState: State
    var friSession: Option<Session>
    var sessionOpen: bool
    var friConfiguration: FriConfig
    var controlMode: ControlMode
    var clientCommandMode: ClientCommandMode
    var motionContainer: Option<Motion>

    ghost function View(): Manager
      reads this
    {
      Manager(currentState, friSession, sessionOpen, friConfiguration, controlMode, clientCommandMode, motionContainer)
    }

    constructor (defaultMode: ControlMode)
      ensures Initial(View()) && Consistent(View()) && controlMode == defaultMode
    {
      currentState := Inactive;
      friSession, sessionOpen, motionContainer := None, false, None;
      friConfiguration := DEFAULT_CONFIG;
      controlMode := defaultMode;
      clientCommandMode := Position;
    }

    method StartFriSession(robot: Robot) returns (result: CommandResult)
      requires Consistent(View())
      modifies this
      ensures (View(), result) == Handle(old(View()), StartFri, robot) && Consistent(View())
    {
      if currentState != Inactive {
        return Rejected;
      }
      friSession, sessionOpen := Some(Session(friConfiguration)), true;
      if !robot.awaitOk {
        sessionOpen := false;
        return Errored;
      }
      currentState := FriActive;
      return Executed;
    }

    method EndFriSession(robot: Robot) returns (result: CommandResult)
      requires Consistent(View())
      modifies this
      ensures (View(), result) == Handle(old(View()), EndFri, robot) && Consistent(View())
    {
      if currentState != FriActive {
        return Rejected;
      }
      if !robot.closeOk {
        return Errored;
      }
      sessionOpen := false;
      currentState := Inactive;
      return Executed;
    }

    method StartMotion(robot: Robot) returns (result: CommandResult)
      requires Consistent(View())
      modifies this
      ensures (View(), result) == Handle(old(View()), ActivateControl, robot) && Consistent(View())
    {
      if currentState != FriActive {
        return Rejected;
      }
      if !robot.moveOk {
        return Errored;
      }
      motionContainer := Some(Motion(friSession.value, controlMode, clientCommandMode));
      currentState := ControlActive;
      return Executed;
    }

    method CancelMotion(robot: Robot) returns (result: CommandResult)
      requires Consistent(View())
      modifies this
      ensures (View(), result) == Handle(old(View()), DeactivateControl, robot) && Consistent(View())
    {
      if currentState != ControlActive {
        return Rejected;
      }
      if !robot.cancelOk {
        return Errored;
      }
      currentState := FriActive;
      return Executed;
    }

    method Configure(config: FriConfig) returns (result: CommandResult)
      requires Consistent(View())
      modifies this
      ensures forall robot :: (View(), result) == Handle(old(View()), SetFriConfig(config), robot)
      ensures Consistent(View())
    {
      if currentState != Inactive {
        return Rejected;
      }
      friConfiguration := config;
      return Executed;
    }

    method ChooseControlMode(mode: ControlMode) returns (result: CommandResult)
      requires Consistent(View())
      modifies this
      ensures forall robot :: (View(), result) == Handle(old(View()), SetControlMode(mode), robot)
      ensures Consistent(View())
    {
      if currentState == ControlActive {
        return Rejected;
      }
      controlMode := mode;
      return Executed;
    }

    method ChooseCommandMode(mode: ClientCommandMode) returns (result: CommandResult)
      requires Consistent(View())
      modifies this
      ensures forall robot :: (View(), result) == Handle(old(View()), SetCommandMode(mode), robot)
      ensures Consistent(View())
    {
      if currentState == ControlActive {
        return Rejected;
      }
      clientCommandMode := mode;
      return Executed;
    }

    method CloseAll(robot: Robot)
      requires Consistent(View())
      modifies this
      ensures View() == Close(old(View()), robot) && Consistent(View())
    {
      if currentState == ControlActive {
        var _ := CancelMotion(robot);
      }
      if currentState == FriActive {
        var _ := EndFriSession(robot);
      }
    }
  }
}
