/** The controller's side of the command connection: one reply for every message received. */
module FriServer {
  import opened Words
  import opened FriManager
  import opened FriCodec

  datatype CommandId =
    | CONNECT
    | DISCONNECT
    | START_FRI
    | END_FRI
    | ACTIVATE_CONTROL
    | DEACTIVATE_CONTROL
    | GET_FRI_CONFIG
    | SET_CONFIG
    | GET_CONTROL_MODE
    | SET_CONTROL
    | GET_COMMAND_MODE
    | SET_COMMAND

  const COMMAND_IDS: seq<CommandId> :=
    [CONNECT, DISCONNECT, START_FRI, END_FRI, ACTIVATE_CONTROL, DEACTIVATE_CONTROL,
     GET_FRI_CONFIG, SET_CONFIG, GET_CONTROL_MODE, SET_CONTROL, GET_COMMAND_MODE, SET_COMMAND]

  /** The commands are numbered from one. */
  function FromByte(byte: uint8): Option<CommandId> {
    if 1 <= byte <= |COMMAND_IDS| then Some(COMMAND_IDS[byte - 1]) else None
  }

  datatype Reply =
    | Accepted(id: CommandId, success: bool)
    | RejectedReply(id: CommandId)
    | UnknownReply

  datatype Server = Server(manager: Manager, accepting: bool, disconnect: bool)

  /** The command modes the API knows by number. */
  function CommandModeOf(byte: uint8): ClientCommandMode {
    if byte == 1 then Position else if byte == 2 then Wrench else if byte == 3 then Torque else NoCommand
  }

  function SetMode(s: Server, c: ManagerCommand, robot: Robot): (Server, bool) {
    var (m, result) := Handle(s.manager, c, robot);
    (s.(manager := m), result == Executed)
  }

  /** Execute a command with its data; false when it ends in a RuntimeException. */
  function Execute(s: Server, id: CommandId, data: Bytes, robot: Robot): (Server, bool) {
    match id
    case CONNECT => (s, true)
    case DISCONNECT =>
      var closed := Close(s.manager, robot);
      // cancelling a motion may throw; a failure to end the session is not looked at
      if s.manager.state == ControlActive && !robot.cancelOk then (s.(manager := closed), false)
      else (s.(manager := closed, disconnect := true), true)
    case START_FRI => SetMode(s, StartFri, robot)
    case END_FRI => SetMode(s, EndFri, robot)
    case ACTIVATE_CONTROL => SetMode(s, ActivateControl, robot)
    case DEACTIVATE_CONTROL => SetMode(s, DeactivateControl, robot)
    case GET_FRI_CONFIG => (s, true)
    case SET_CONFIG =>
      if |data| < CONFIG_LENGTH + 6 then (s, false)
      else
        (match DecodeConfig(data)
         case None => (s, false)
         case Some(config) => SetMode(s, SetFriConfig(config), robot))
    case GET_CONTROL_MODE => (s, true)
    case SET_CONTROL =>
      if |data| < 1 then (s, false)
      else if data[0] == POSITION_CONTROL_MODE then SetMode(s, SetControlMode(PositionControl), robot)
      else if data[0] == JOINT_IMPEDANCE_CONTROL_MODE && |data[1..]| >= IMPEDANCE_LENGTH + 6 then
        (match DecodeImpedance(data[1..])
         case None => (s, false)
         case Some(mode) => SetMode(s, SetControlMode(mode), robot))
      else (s, false)
    case GET_COMMAND_MODE => (s, true)
    case SET_COMMAND =>
      if |data| < 1 || CommandModeOf(data[0]) == NoCommand then (s, false)
      else SetMode(s, SetCommandMode(CommandModeOf(data[0])), robot)
  }

  /** After the connection is lost control and session are ended, unless cancelling the motion throws. */
  function ConnectionLost(s: Server, robot: Robot): Server {
    if s.manager.state == ControlActive && !robot.cancelOk then s
    else
      var cancelled := Handle(s.manager, DeactivateControl, robot).0;
      s.(manager := Close(Handle(cancelled, EndFri, robot).0, robot))
  }

  /** What is left after a lost connection, from every state, by what the robot lets go of; the settings stay. */
  lemma ConnectionLostOutcome(s: Server, robot: Robot)
    requires Consistent(s.manager)
    ensures var r := ConnectionLost(s, robot);
            && Consistent(r.manager)
            && r == s.(manager := s.manager.(state := r.manager.state, sessionOpen := r.manager.state != Inactive))
            && r.manager.state == match s.manager.state
               case Inactive => Inactive
               case FriActive => if robot.closeOk then Inactive else FriActive
               case ControlActive =>
                 if !robot.cancelOk then ControlActive else if robot.closeOk then Inactive else FriActive
  {
  }

  function HandleMessage(s: Server, message: Bytes, robot: Robot): (Server, Reply) {
    if |message| < 1 then (s, UnknownReply)
    else
      match FromByte(message[0])
      case None => (s, UnknownReply)
      case Some(id) =>
        if !s.accepting then (s, RejectedReply(id))
        else
          var (s', success) := Execute(s, id, message[1..], robot);
          (s', Accepted(id, success))
  }

  /** The object, and the replies it has sent. */
  class Ros2Connection {
    const friManager: FriManagerObject
    var acceptingCommands: bool
    var disconnectRequested: bool
    var sent: seq<Reply>

    ghost predicate Valid()
      reads this, friManager
    {
      Consistent(friManager.View())
    }

    ghost function View(): Server
      reads this, friManager
    {
      Server(friManager.View(), acceptingCommands, disconnectRequested)
    }

    constructor (friManager: FriManagerObject)
      requires Consistent(friManager.View())
      ensures Valid() && this.friManager == friManager
      ensures View() == Server(friManager.View(), false, false) && sent == []
    {
      this.friManager := friManager;
      acceptingCommands, disconnectRequested := false, false;
      sent := [];
    }

    /** Exactly one reply per message; the reply says whether the state machine executed the command. */
    method HandleMessageFromRos(message: Bytes, robot: Robot)
      requires Valid()
      modifies this, friManager
      ensures Valid()
      ensures var (s, reply) := HandleMessage(old(View()), message, robot);
              View() == s && sent == old(sent) + [reply]
    {
      if |message| < 1 {
        sent := sent + [UnknownReply];
        return;
      }
      var command := FromByte(message[0]);
      if command == None {
        sent := sent + [UnknownReply];
        return;
      }
      if !acceptingCommands {
        sent := sent + [RejectedReply(command.value)];
        return;
      }
      var success := Dispatch(command.value, message[1..], robot);
      sent := sent + [Accepted(command.value, success)];
    }

    method HandleConnectionLost(robot: Robot)
      requires Valid()
      modifies friManager
      ensures Valid() && View() == ConnectionLost(old(View()), robot)
    {
      var cancelled := friManager.CancelMotion(robot);
      if cancelled == Errored {
        return;
      }
      var ended := friManager.EndFriSession(robot);
      friManager.CloseAll(robot);
    }

    method Dispatch(id: CommandId, data: Bytes, robot: Robot) returns (success: bool)
      requires Valid()
      modifies this, friManager
      ensures Valid() && sent == old(sent)
      ensures (View(), success) == Execute(old(View()), id, data, robot)
    {
      success := true;
      match id {
        case CONNECT =>
        case DISCONNECT =>
          var mayThrow := friManager.currentState == ControlActive && !robot.cancelOk;
          friManager.CloseAll(robot);
          if mayThrow {
            success := false;
          } else {
            disconnectRequested := true;
          }
        case START_FRI =>
          var result := friManager.StartFriSession(robot);
          success := result == Executed;
        case END_FRI =>
          var result := friManager.EndFriSession(robot);
          success := result == Executed;
        case ACTIVATE_CONTROL =>
          var result := friManager.StartMotion(robot);
          success := result == Executed;
        case DEACTIVATE_CONTROL =>
          var result := friManager.CancelMotion(robot);
          success := result == Executed;
        case GET_FRI_CONFIG =>
        case SET_CONFIG =>
          success := SetConfiguration(data);
        case GET_CONTROL_MODE =>
        case SET_CONTROL =>
          success := SetControl(data);
        case GET_COMMAND_MODE =>
        case SET_COMMAND =>
          success := SetCommand(data);
      }
    }

    method SetConfiguration(data: Bytes) returns (success: bool)
      requires Valid()
      modifies friManager
      ensures Valid()
      ensures forall robot :: (View(), success) == Execute(old(View()), SET_CONFIG, data, robot)
    {
      if |data| < CONFIG_LENGTH + 6 {
        return false;
      }
      var config := ReadExternalConfig(data);
      if config == None {
        return false;
      }
      var result := friManager.Configure(config.value);
      return result == Executed;
    }

    method SetControl(data: Bytes) returns (success: bool)
      requires Valid()
      modifies friManager
      ensures Valid()
      ensures forall robot :: (View(), success) == Execute(old(View()), SET_CONTROL, data, robot)
    {
      if |data| < 1 {
        return false;
      }
      var mode := PositionControl;
      if data[0] == JOINT_IMPEDANCE_CONTROL_MODE {
        if |data[1..]| < IMPEDANCE_LENGTH + 6 {
          return false;
        }
        var decoded := ReadExternalImpedance(data[1..]);
        if decoded == None {
          return false;
        }
        mode := decoded.value;
      } else if data[0] != POSITION_CONTROL_MODE {
        return false;
      }
      var result := friManager.ChooseControlMode(mode);
      return result == Executed;
    }

    method SetCommand(data: Bytes) returns (success: bool)
      requires Valid()
      modifies friManager
      ensures Valid()
      ensures forall robot :: (View(), success) == Execute(old(View()), SET_COMMAND, data, robot)
    {
      if |data| < 1 {
        return false;
      }
      var mode := CommandModeOf(data[0]);
      if mode == NoCommand {
        return false;
      }
      var result := friManager.ChooseCommandMode(mode);
      return result == Executed;
    }
  }

  // ----- the requests of the client -----

  datatype Request =
    | Connecting
    | Disconnecting
    | StartingFri
    | EndingFri
    | ActivatingControl
    | DeactivatingControl
    | Configuring(ip: Octets, port: int32, sendPeriod: int32, receiveMultiplier: int32)
    | ChoosingPositionControl
    | ChoosingImpedance(stiffness: seq<uint64>, damping: seq<uint64>)
    | ChoosingPositionCommand
    | ChoosingTorqueCommand

  function IdOf(q: Request): CommandId {
    match q
    case Connecting => CONNECT
    case Disconnecting => DISCONNECT
    case StartingFri => START_FRI
    case EndingFri => END_FRI
    case ActivatingControl => ACTIVATE_CONTROL
    case DeactivatingControl => DEACTIVATE_CONTROL
    case Configuring(_, _, _, _) => SET_CONFIG
    case ChoosingPositionControl => SET_CONTROL
    case ChoosingImpedance(_, _) => SET_CONTROL
    case ChoosingPositionCommand => SET_COMMAND
    case ChoosingTorqueCommand => SET_COMMAND
  }

  const POSITION_COMMAND_MODE: uint8 := 1
  const TORQUE_COMMAND_MODE: uint8 := 3

  /** The command numbers of the client. */
  function NumberFor(q: Request): uint8 {
    match q
    case Connecting => 1
    case Disconnecting => 2
    case StartingFri => 3
    case EndingFri => 4
    case ActivatingControl => 5
    case DeactivatingControl => 6
    case Configuring(_, _, _, _) => SET_FRI_CONFIG
    case ChoosingPositionControl => SET_CONTROL_MODE
    case ChoosingImpedance(_, _) => SET_CONTROL_MODE
    case ChoosingPositionCommand => SET_COMMAND_MODE
    case ChoosingTorqueCommand => SET_COMMAND_MODE
  }

  function RequestData(q: Request): Bytes {
    match q
    case Configuring(ip, port, sendPeriod, receiveMultiplier) => ConfigData(ip, port, sendPeriod, receiveMultiplier)
    case ChoosingPositionControl => [POSITION_CONTROL_MODE]
    case ChoosingImpedance(stiffness, damping) => [JOINT_IMPEDANCE_CONTROL_MODE] + ImpedanceData(stiffness, damping)
    case ChoosingPositionCommand => [POSITION_COMMAND_MODE]
    case ChoosingTorqueCommand => [TORQUE_COMMAND_MODE]
    case _ => []
  }

  function RequestBytes(q: Request): Bytes {
    [NumberFor(q)] + RequestData(q)
  }

  /** What a request asks of the state machine, if its data are complete: fourteen doubles are an impedance mode. */
  function Meaning(q: Request): Option<ManagerCommand> {
    match q
    case Connecting => None
    case Disconnecting => None
    case StartingFri => Some(StartFri)
    case EndingFri => Some(EndFri)
    case ActivatingControl => Some(ActivateControl)
    case DeactivatingControl => Some(DeactivateControl)
    case Configuring(ip, port, sendPeriod, receiveMultiplier) =>
      Some(SetFriConfig(FriConfig(Dotted(ip), port, sendPeriod, receiveMultiplier)))
    case ChoosingPositionControl => Some(SetControlMode(PositionControl))
    case ChoosingImpedance(stiffness, damping) =>
      var all := stiffness + damping;
      if |all| < 2 * JOINTS then None
      else Some(SetControlMode(JointImpedance(all[..JOINTS], all[JOINTS..2 * JOINTS])))
    case ChoosingPositionCommand => Some(SetCommandMode(Position))
    case ChoosingTorqueCommand => Some(SetCommandMode(Torque))
  }

  /** The effect of a request on the server: executed or not. */
  function Served(s: Server, q: Request, robot: Robot): (Server, bool) {
    match Meaning(q)
    case Some(c) => SetMode(s, c, robot)
    case None => Execute(s, IdOf(q), [], robot)
  }

  /** A call as the driver sees it: whether the reply accepts its own command with success. */
  function Called(s: Server, q: Request, robot: Robot): (Server, bool) {
    if s.accepting then Served(s, q, robot) else (s, false)
  }

  /** Every request of the client, with vectors of any length, arrives as what it means, with a reply that carries its
      own number; a server that does not accept commands rejects it. */
  lemma RequestArrives(s: Server, q: Request, robot: Robot)
    ensures var (s', executed) := Called(s, q, robot);
            HandleMessage(s, RequestBytes(q), robot)
            == (s', if s.accepting then Accepted(IdOf(q), executed) else RejectedReply(IdOf(q)))
  {
    assert RequestBytes(q)[1..] == RequestData(q);
    assert FromByte(NumberFor(q)) == Some(IdOf(q));
    DataArrives(s, q, robot);
  }

  lemma DataArrives(s: Server, q: Request, robot: Robot)
    ensures Execute(s, IdOf(q), RequestData(q), robot) == Served(s, q, robot)
  {
    if q.Configuring? {
      ConfigRoundTrip(q.ip, q.port, q.sendPeriod, q.receiveMultiplier);
    } else if q.ChoosingImpedance? {
      ImpedanceArrives(s, q.stiffness, q.damping, robot);
    }
  }

  /** The server refuses an impedance payload exactly when it has fewer than fourteen doubles; otherwise it sets the
      first seven as stiffness and the next seven as damping. */
  lemma ImpedanceArrives(s: Server, stiffness: seq<uint64>, damping: seq<uint64>, robot: Robot)
    ensures var all := stiffness + damping;
            Execute(s, SET_CONTROL, [JOINT_IMPEDANCE_CONTROL_MODE] + ImpedanceData(stiffness, damping), robot)
            == if |all| < 2 * JOINTS then (s, false)
               else SetMode(s, SetControlMode(JointImpedance(all[..JOINTS], all[JOINTS..2 * JOINTS])), robot)
  {
    var all := stiffness + damping;
    var stream := ImpedanceData(stiffness, damping);
    ImpedanceDecoded(stiffness, damping);
    if |all| >= 2 * JOINTS {
      DecodedModeIsSet(s, stream, JointImpedance(all[..JOINTS], all[JOINTS..2 * JOINTS]), robot);
    } else {
      assert ([JOINT_IMPEDANCE_CONTROL_MODE] + stream)[1..] == stream;
    }
  }

  lemma DecodedModeIsSet(s: Server, stream: Bytes, mode: ControlMode, robot: Robot)
    requires |stream| >= IMPEDANCE_LENGTH + 6 && DecodeImpedance(stream) == Some(mode)
    ensures Execute(s, SET_CONTROL, [JOINT_IMPEDANCE_CONTROL_MODE] + stream, robot)
         == SetMode(s, SetControlMode(mode), robot)
  {
    assert ([JOINT_IMPEDANCE_CONTROL_MODE] + stream)[1..] == stream;
  }

  /** What is decoded is the pair of vectors that was sent exactly when each of them has seven elements. */
  lemma VectorsArriveWhole(stiffness: seq<uint64>, damping: seq<uint64>)
    ensures Meaning(ChoosingImpedance(stiffness, damping)) == Some(SetControlMode(JointImpedance(stiffness, damping)))
            <==> |stiffness| == JOINTS && |damping| == JOINTS
  {
    if |stiffness| == JOINTS && |damping| == JOINTS {
      var all := stiffness + damping;
      assert all[..JOINTS] == stiffness && all[JOINTS..2 * JOINTS] == damping;
    }
  }

  // ----- the other messages -----

  /** An empty message and a number that is no command are answered as unknown, whatever follows the number. */
  lemma UnknownMessages(s: Server, message: Bytes, robot: Robot)
    requires message == [] || message[0] == 0 || message[0] > 12
    ensures HandleMessage(s, message, robot) == (s, UnknownReply)
  {
  }

  /** Connecting and the three queries change nothing and succeed. */
  lemma QueriesChangeNothing(s: Server, message: Bytes, robot: Robot)
    requires s.accepting && message != [] && message[0] in {1, 7, 9, 11}
    ensures var (s', reply) := HandleMessage(s, message, robot);
            && s' == s && reply.Accepted? && reply.success
            && reply.id == if message[0] == 1 then CONNECT
                           else if message[0] == 7 then GET_FRI_CONFIG
                           else if message[0] == 9 then GET_CONTROL_MODE else GET_COMMAND_MODE
  {
  }

  /** Disconnecting fails only if cancelling the motion throws; otherwise the connection is given up, even if the
      session could not be closed. */
  lemma DisconnectOutcome(s: Server, message: Bytes, robot: Robot)
    requires s.accepting && message != [] && message[0] == 2
    ensures var (s', reply) := HandleMessage(s, message, robot);
            var thrown := s.manager.state == ControlActive && !robot.cancelOk;
            && reply == Accepted(DISCONNECT, !thrown)
            && s'.accepting && s'.disconnect == (s.disconnect || !thrown)
            && s'.manager.state == if thrown then ControlActive
                                   else if s.manager.state != Inactive && !robot.closeOk then FriActive
                                   else Inactive
  {
  }

  /** The command modes that can be set, by their numbers; bytes after the first are not looked at. */
  lemma CommandModesByNumber(s: Server, message: Bytes, robot: Robot)
    requires s.accepting && |message| >= 2 && message[0] == 12
    ensures var (s', reply) := HandleMessage(s, message, robot);
            var known := 1 <= message[1] <= 3 && s.manager.state != ControlActive;
            && reply == Accepted(SET_COMMAND, known)
            && s' == s.(manager := s'.manager)
            && s'.manager == if !known then s.manager
                             else s.manager.(commandMode := [Position, Wrench, Torque][message[1] - 1])
  {
    assert message[1..][0] == message[1];
  }

  // ----- replies on the wire -----

  /** Status, command number, success number, then any text. */
  function ReplyBytes(reply: Reply, text: Bytes): Bytes {
    match reply
    case Accepted(id, success) => [1, NumberOf(id), if success then 1 else 2] + text
    case RejectedReply(id) => [2, NumberOf(id)] + text
    case UnknownReply => [3] + text
  }

  function NumberOf(id: CommandId): (r: uint8)
    ensures FromByte(r) == Some(id)
  {
    match id
    case CONNECT => 1
    case DISCONNECT => 2
    case START_FRI => 3
    case END_FRI => 4
    case ACTIVATE_CONTROL => 5
    case DEACTIVATE_CONTROL => 6
    case GET_FRI_CONFIG => 7
    case SET_CONFIG => 8
    case GET_CONTROL_MODE => 9
    case SET_CONTROL => 10
    case GET_COMMAND_MODE => 11
    case SET_COMMAND => 12
  }
}
