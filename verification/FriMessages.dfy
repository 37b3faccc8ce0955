/** The FRI monitoring and command messages, and the I/O requests a command message carries. */
module FriMessages {
  import opened Words

  datatype SessionState =
    | Idle
    | MonitoringWait
    | MonitoringReady
    | CommandingWait
    | CommandingActive
    | OtherState(code: int)

  /** The states in which the client has nothing to answer. */
  predicate Silent(state: SessionState) {
    state.Idle? || state.OtherState?
  }

  type Joints = seq<real>

  datatype IoType = Boolean | Digital | Analog

  datatype IoDirection = Input | Output

  const MAX_NAME_LENGTH: nat := 63

  /** What fits in the 64-byte, zero-terminated name field of a message. */
  type IoName = s: string | |s| <= MAX_NAME_LENGTH

  datatype IoValue = IoValue(
    name: IoName,
    kind: IoType,
    direction: IoDirection,
    hasDigital: bool,
    digital: nat,
    hasAnalog: bool,
    analog: real)

  const NO_IO := IoValue("", Boolean, Input, false, 0, false, 0.0)

  const MAX_IO: nat := 10

  type IoSlots = s: seq<IoValue> | |s| == MAX_IO witness seq(MAX_IO, i => NO_IO)

  datatype MonitoringMsg = MonitoringMsg(
    identifier: uint32,
    sequenceCounter: uint32,
    sessionState: SessionState,
    receiveMultiplier: uint32,
    hasMonitorData: bool,
    measuredPosition: Joints,
    commandedPosition: Joints,
    readIo: seq<IoValue>)

  datatype CommandMsg = CommandMsg(
    identifier: uint32,
    sequenceCounter: uint32,
    reflectedSequenceCounter: uint32,
    hasCommandData: bool,
    hasJointPosition: bool,
    jointPosition: Joints,
    hasWrench: bool,
    hasJointTorque: bool,
    jointTorque: Joints,
    transformationCount: nat,
    ioSlots: IoSlots,
    ioCount: nat)
  {
    predicate CarriesPositions() {
      hasCommandData && hasJointPosition
    }
  }

  /** The reasons for which the SDK throws an FRIException. */
  datatype IoError = NotLocated | WrongType | NotAnOutput | TooManyIos

  function Reset(c: CommandMsg): CommandMsg {
    c.(hasJointPosition := false,
       hasWrench := false,
       hasJointTorque := false,
       transformationCount := 0,
       hasCommandData := false,
       ioCount := 0)
  }

  function WithJointPosition(c: CommandMsg, position: Joints): CommandMsg {
    c.(hasCommandData := true, hasJointPosition := true, jointPosition := position)
  }

  function WithJointTorque(c: CommandMsg, torque: Joints): CommandMsg {
    c.(hasCommandData := true, hasJointTorque := true, jointTorque := torque)
  }

  /** An I/O in the monitoring message matches a request of the given type. */
  predicate IsOfType(io: IoValue, kind: IoType) {
    && io.kind == kind
    && io.hasDigital == (kind == Digital || kind == Boolean)
    && io.hasAnalog == (kind == Analog)
  }

  /** The first I/O of that name decides; later ones of the same name are never looked at. */
  function GetIo(m: MonitoringMsg, name: string, kind: IoType): (r: Result<IoValue, IoError>)
    ensures r.Success? ==> m.hasMonitorData && r.value in m.readIo && r.value.name == name && IsOfType(r.value, kind)
    ensures r == Failure(NotLocated) <==>
            !m.hasMonitorData || forall io | io in m.readIo :: io.name != name
    ensures r.Failure? ==> r.error == NotLocated || r.error == WrongType
  {
    if m.hasMonitorData then FindIo(m.readIo, name, kind) else Failure(NotLocated)
  }

  function FindIo(ios: seq<IoValue>, name: string, kind: IoType): (r: Result<IoValue, IoError>)
    ensures r.Success? ==> r.value in ios && r.value.name == name && IsOfType(r.value, kind)
    ensures r == Failure(NotLocated) <==> forall io | io in ios :: io.name != name
    ensures r.Failure? ==> r.error == NotLocated || r.error == WrongType
  {
    if ios == [] then Failure(NotLocated)
    else if ios[0].name == name then
      if IsOfType(ios[0], kind) then Success(ios[0]) else Failure(WrongType)
    else FindIo(ios[1..], name, kind)
  }

  function Truncated(name: string): IoName {
    if |name| <= MAX_NAME_LENGTH then name else name[..MAX_NAME_LENGTH]
  }

  /** What a value looks like on the wire: an analog value, or a digital one (a boolean is 0 or 1). */
  function Filled(slot: IoValue, name: string, kind: IoType, value: real): IoValue {
    var described := slot.(
      name := Truncated(name),
      kind := kind,
      hasDigital := kind == Digital || kind == Boolean,
      hasAnalog := kind == Analog,
      direction := Output);
    match kind
    case Analog => described.(analog := value)
    case Boolean => described.(digital := if value != 0.0 then 1 else 0)
    case Digital => described.(digital := if value < 0.0 then 0 else value.Floor)
  }

  function SetIo(c: CommandMsg, m: MonitoringMsg, name: string, kind: IoType, value: real)
    : (r: Result<CommandMsg, IoError>)
    ensures r == Failure(TooManyIos) <==> c.ioCount >= MAX_IO
    ensures r.Success? ==> r.value.ioCount == c.ioCount + 1 <= MAX_IO
  {
    if c.ioCount < MAX_IO then
      match GetIo(m, name, kind)
      case Failure(error) => Failure(error)
      case Success(io) =>
        if io.direction != Output then Failure(NotAnOutput)
        else
          var slots: IoSlots := c.ioSlots[c.ioCount := Filled(c.ioSlots[c.ioCount], name, kind, value)];
          Success(c.(ioSlots := slots, ioCount := c.ioCount + 1, hasCommandData := true))
    else
      Failure(TooManyIos)
  }

  predicate FirstOfName(ios: seq<IoValue>, name: string, i: nat) {
    i < |ios| && ios[i].name == name && forall j | 0 <= j < i :: ios[j].name != name
  }

  lemma {:induction false} FirstIsFound(ios: seq<IoValue>, name: string, kind: IoType, i: nat)
    requires FirstOfName(ios, name, i)
    ensures var fits := ios[i].kind == kind && ios[i].hasDigital == (kind != Analog)
                        && ios[i].hasAnalog == (kind == Analog);
            FindIo(ios, name, kind) == if fits then Success(ios[i]) else Failure(WrongType)
    decreases |ios|
  {
    if i > 0 {
      assert ios[1..][i - 1] == ios[i];
      FirstIsFound(ios[1..], name, kind, i - 1);
    }
  }

  /** A request fails for the first reason there is: no room, no monitoring data or no such name, another type than the
      first of that name has, or an input. */
  lemma RequestOutcome(c: CommandMsg, m: MonitoringMsg, name: string, kind: IoType, value: real, i: nat)
    requires c.ioCount < MAX_IO && m.hasMonitorData && FirstOfName(m.readIo, name, i)
    ensures var io, r := m.readIo[i], SetIo(c, m, name, kind, value);
            if io.kind != kind || io.hasDigital != (kind != Analog) || io.hasAnalog != (kind == Analog)
            then r == Failure(WrongType)
            else if io.direction == Input then r == Failure(NotAnOutput)
            else r.Success? && r.value.hasCommandData
  {
    FirstIsFound(m.readIo, name, kind, i);
  }

  /** The search loop of the SDK. */
  method GetIoValue(m: MonitoringMsg, name: string, kind: IoType) returns (r: Result<IoValue, IoError>)
    ensures r == GetIo(m, name, kind)
  {
    if m.hasMonitorData {
      var i := 0;
      while i < |m.readIo|
        invariant 0 <= i <= |m.readIo|
        invariant FindIo(m.readIo[i..], name, kind) == FindIo(m.readIo, name, kind)
      {
        assert m.readIo[i..][1..] == m.readIo[i + 1..];
        var io := m.readIo[i];
        if io.name == name {
          if io.kind == kind
            && io.hasDigital == (kind == Digital || kind == Boolean)
            && io.hasAnalog == (kind == Analog)
          {
            return Success(io);
          }
          return Failure(WrongType);
        }
        i := i + 1;
      }
    }
    return Failure(NotLocated);
  }

  /** The command message structure, whose I/O requests live in a fixed array of ten slots. */
  class CommandMessage {
    var identifier: uint32
    var sequenceCounter: uint32
    var reflectedSequenceCounter: uint32
    var hasCommandData: bool
    var hasJointPosition: bool
    var jointPosition: Joints
    var hasWrench: bool
    var hasJointTorque: bool
    var jointTorque: Joints
    var transformationCount: nat
    const writeIo: array<IoValue>
    var ioCount: nat

    ghost predicate Valid()
      reads this
    {
      writeIo.Length == MAX_IO && ioCount <= MAX_IO
    }

    ghost function View(): CommandMsg
      reads this, writeIo
      requires Valid()
    {
      CommandMsg(identifier, sequenceCounter, reflectedSequenceCounter, hasCommandData, hasJointPosition,
                 jointPosition, hasWrench, hasJointTorque, jointTorque, transformationCount, writeIo[..], ioCount)
    }

    constructor (identifier: uint32)
      ensures Valid() && fresh(writeIo)
      ensures View().identifier == identifier && View() == Reset(View())
      ensures sequenceCounter == 0 && reflectedSequenceCounter == 0
    {
      this.identifier := identifier;
      sequenceCounter, reflectedSequenceCounter := 0, 0;
      hasCommandData, hasJointPosition, hasWrench, hasJointTorque := false, false, false, false;
      jointPosition, jointTorque := [], [];
      transformationCount, ioCount := 0, 0;
      writeIo := new IoValue[MAX_IO](i => NO_IO);
    }

    method ResetCommandMessage()
      requires Valid()
      modifies this
      ensures Valid() && View() == Reset(old(View()))
    {
      hasJointPosition := false;
      hasWrench := false;
      hasJointTorque := false;
      transformationCount := 0;
      hasCommandData := false;
      ioCount := 0;
    }

    method SetJointPosition(values: Joints)
      requires Valid()
      modifies this
      ensures Valid() && View() == WithJointPosition(old(View()), values)
    {
      hasCommandData := true;
      hasJointPosition := true;
      jointPosition := values;
    }

    method SetTorque(torques: Joints)
      requires Valid()
      modifies this
      ensures Valid() && View() == WithJointTorque(old(View()), torques)
    {
      hasCommandData := true;
      hasJointTorque := true;
      jointTorque := torques;
    }

    /** On an exception the message is left as it was. */
    method SetIoValue(m: MonitoringMsg, name: string, kind: IoType, value: real) returns (error: Option<IoError>)
      requires Valid()
      modifies this, writeIo
      ensures Valid()
      ensures match SetIo(old(View()), m, name, kind, value)
              case Success(c) => error == None && View() == c
              case Failure(e) => error == Some(e) && View() == old(View())
    {
      if ioCount >= writeIo.Length {
        return Some(TooManyIos);
      }
      var found := GetIoValue(m, name, kind);
      if found.Failure? {
        return Some(found.error);
      }
      if found.value.direction != Output {
        return Some(NotAnOutput);
      }
      writeIo[ioCount] := Filled(writeIo[ioCount], name, kind, value);
      ioCount := ioCount + 1;
      hasCommandData := true;
      return None;
    }
  }
}
