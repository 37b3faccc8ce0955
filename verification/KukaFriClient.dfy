/** The Sunrise hardware interface as a client of the FRI application: which packets carry joint
    positions, and which I/O requests they carry. */
module KukaFriClient {
  import opened Words
  import opened FriMessages
  import opened FriClientApplication

  const JOINT_POSITION_CONTROL := 1
  const JOINT_IMPEDANCE_CONTROL := 2
  const JOINT_TORQUE_CONTROL := 4

  predicate Supported(controlMode: int) {
    || controlMode == JOINT_POSITION_CONTROL
    || controlMode == JOINT_IMPEDANCE_CONTROL
    || controlMode == JOINT_TORQUE_CONTROL
  }

  datatype GpioInput = GpioInput(name: string, kind: IoType, data: real)

  /** The fields of the hardware interface that its callbacks use. */
  datatype Hardware = Hardware(
    controlMode: int,
    receiveMultiplier: int,
    receiveCounter: int,
    positionStates: Joints,
    positionCommands: Joints,
    torqueCommands: Joints,
    inputs: seq<GpioInput>)

  function FrictionCompensated(position: real): real {
    if position > 0.0 then position - 0.1
    else if position < 0.0 then position + 0.1
    else -0.1
  }

  function Compensated(positions: Joints): Joints {
    seq(|positions|, i requires 0 <= i < |positions| => FrictionCompensated(positions[i]))
  }

  /** Write the inputs one after the other; the first exception ends it and keeps what was written. */
  function SetInputs(inputs: seq<GpioInput>, m: MonitoringMsg, c: CommandMsg): (CommandMsg, Option<IoError>) {
    if inputs == [] then (c, None)
    else
      match SetIo(c, m, inputs[0].name, inputs[0].kind, inputs[0].data)
      case Failure(error) => (c, Some(error))
      case Success(c') => SetInputs(inputs[1..], m, c')
  }

  function UpdateCommand(h: Hardware, m: MonitoringMsg, c: CommandMsg): (CommandMsg, Option<IoError>) {
    if h.controlMode == JOINT_POSITION_CONTROL || h.controlMode == JOINT_IMPEDANCE_CONTROL then
      SetInputs(h.inputs, m, WithJointPosition(c, h.positionCommands))
    else if h.controlMode == JOINT_TORQUE_CONTROL then
      SetInputs(h.inputs, m,
                WithJointTorque(WithJointPosition(c, Compensated(m.measuredPosition)), h.torqueCommands))
    else
      (c, None)
  }

  function Call(callback: Callback, h: Hardware, m: MonitoringMsg, c: CommandMsg): Outcome<Hardware> {
    match callback
    case OnStateChange(_, _) => Outcome(h, c, None)
    case Monitor => Outcome(h, WithJointPosition(c, m.commandedPosition), None)
    case WaitForCommand =>
      var h' := h.(positionCommands := h.positionStates);
      var (c', error) := UpdateCommand(h', m, c);
      Outcome(h', c', error)
    case Command =>
      var h' := h.(receiveCounter := h.receiveCounter + 1);
      if h'.receiveCounter == h.receiveMultiplier then
        var (c', error) := UpdateCommand(h', m, c);
        Outcome(if error.Some? then h' else h'.(receiveCounter := 0), c', error)
      else
        Outcome(h', c, None)
    case Provide => Outcome(h, c, None)
  }

  const KUKA_CLIENT: Client<Hardware> := Client(Call, false)

  /** The in-place form of the callbacks. */
  class KukaFriHardwareInterface {
    var controlMode: int
    var receiveMultiplier: int
    var receiveCounter: int
    var positionStates: Joints
    var positionCommands: Joints
    var torqueCommands: Joints
    var gpioInputs: seq<GpioInput>

    ghost function State(): Hardware
      reads this
    {
      Hardware(controlMode, receiveMultiplier, receiveCounter, positionStates, positionCommands, torqueCommands,
               gpioInputs)
    }

    method ActivateFrictionCompensation(values: array<real>)
      modifies values
      ensures values[..] == Compensated(old(values[..]))
    {
      for i := 0 to values.Length
        invariant forall k | 0 <= k < i :: values[k] == FrictionCompensated(old(values[k]))
        invariant forall k | i <= k < values.Length :: values[k] == old(values[k])
      {
        if values[i] > 0.0 {
          values[i] := values[i] - 0.1;
        } else if values[i] < 0.0 {
          values[i] := values[i] + 0.1;
        } else {
          values[i] := values[i] - 0.1;
        }
      }
    }

    method UpdateCommandMessage(m: MonitoringMsg, c: CommandMessage) returns (error: Option<IoError>)
      requires c.Valid()
      modifies c, c.writeIo
      ensures c.Valid() && (c.View(), error) == UpdateCommand(State(), m, old(c.View()))
    {
      if controlMode == JOINT_POSITION_CONTROL || controlMode == JOINT_IMPEDANCE_CONTROL {
        c.SetJointPosition(positionCommands);
      } else if controlMode == JOINT_TORQUE_CONTROL {
        var corrected :=
          new real[|m.measuredPosition|](i requires 0 <= i < |m.measuredPosition| => m.measuredPosition[i]);
        assert corrected[..] == m.measuredPosition;
        ActivateFrictionCompensation(corrected);
        c.SetJointPosition(corrected[..]);
        c.SetTorque(torqueCommands);
      } else {
        return None;
      }
      var i := 0;
      ghost var start := c.View();
      while i < |gpioInputs|
        invariant 0 <= i <= |gpioInputs|
        invariant c.Valid()
        invariant SetInputs(gpioInputs[i..], m, c.View()) == SetInputs(gpioInputs, m, start)
      {
        assert gpioInputs[i..][1..] == gpioInputs[i + 1..];
        error := c.SetIoValue(m, gpioInputs[i].name, gpioInputs[i].kind, gpioInputs[i].data);
        if error.Some? {
          return;
        }
        i := i + 1;
      }
      return None;
    }

    method WaitForCommandCallback(m: MonitoringMsg, c: CommandMessage) returns (error: Option<IoError>)
      requires c.Valid()
      modifies this, c, c.writeIo
      ensures c.Valid() && Outcome(State(), c.View(), error) == Call(WaitForCommand, old(State()), m, old(c.View()))
    {
      positionCommands := positionStates;
      error := UpdateCommandMessage(m, c);
    }

    method CommandCallback(m: MonitoringMsg, c: CommandMessage) returns (error: Option<IoError>)
      requires c.Valid()
      modifies this, c, c.writeIo
      ensures c.Valid() && Outcome(State(), c.View(), error) == Call(Command, old(State()), m, old(c.View()))
    {
      receiveCounter := receiveCounter + 1;
      if receiveCounter == receiveMultiplier {
        error := UpdateCommandMessage(m, c);
        if error.Some? {
          return;
        }
        receiveCounter := 0;
      }
      return None;
    }
  }

  // ----- I/O requests -----

  /** Input `i` names an output of its own type in the monitoring message. */
  predicate Resolves(input: GpioInput, m: MonitoringMsg) {
    var found := GetIo(m, input.name, input.kind);
    found.Success? && found.value.direction == Output
  }

  /** Slot `n` holds the input's own name, type and value, marked as an output. */
  predicate Holds(io: IoValue, input: GpioInput) {
    && io.name == input.name && io.kind == input.kind && io.direction == Output
    && io.hasAnalog == (input.kind == Analog) && io.hasDigital == (input.kind != Analog)
    && (input.kind == Analog ==> io.analog == input.data)
    && (input.kind == Boolean ==> io.digital == if input.data == 0.0 then 0 else 1)
    && (input.kind == Digital && input.data >= 0.0 ==> io.digital == input.data.Floor)
  }

  /** One request: it fails exactly when the input does not resolve, and otherwise fills the next slot. */
  lemma SetIoFillsSlot(input: GpioInput, m: MonitoringMsg, c: CommandMsg)
    requires c.ioCount < MAX_IO
    ensures var r := SetIo(c, m, input.name, input.kind, input.data);
            && (r.Success? <==> Resolves(input, m))
            && (r.Failure? ==> r.error != TooManyIos)
            && (r.Success? ==>
                  && r.value.ioCount == c.ioCount + 1
                  && Holds(r.value.ioSlots[c.ioCount], input)
                  && (forall k | 0 <= k < c.ioCount :: r.value.ioSlots[k] == c.ioSlots[k])
                  && r.value.hasJointPosition == c.hasJointPosition
                  && r.value.hasCommandData)
  {
  }

  /** From `c.ioCount` used slots, inputs that fit never overflow, the used slots stay, and the inputs written
      are in the next slots, in order and with their full names; all of them are written exactly when all resolve. */
  lemma {:induction false} SetInputsFillsSlots(inputs: seq<GpioInput>, m: MonitoringMsg, c: CommandMsg)
    requires c.ioCount + |inputs| <= MAX_IO
    ensures var (r, error) := SetInputs(inputs, m, c);
            && error != Some(TooManyIos)
            && c.ioCount <= r.ioCount <= c.ioCount + |inputs|
            && (error == None <==> r.ioCount == c.ioCount + |inputs|)
            && (error == None <==> forall i | 0 <= i < |inputs| :: Resolves(inputs[i], m))
            && (forall k | 0 <= k < c.ioCount :: r.ioSlots[k] == c.ioSlots[k])
            && (forall i | 0 <= i < r.ioCount - c.ioCount :: Holds(r.ioSlots[c.ioCount + i], inputs[i]))
            && r.hasJointPosition == c.hasJointPosition
            && (c.hasCommandData ==> r.hasCommandData)
  {
    if inputs != [] {
      SetIoFillsSlot(inputs[0], m, c);
      if Resolves(inputs[0], m) {
        var rest := inputs[1..];
        var next := SetIo(c, m, inputs[0].name, inputs[0].kind, inputs[0].data).value;
        SetInputsFillsSlots(rest, m, next);
        FirstAndRest(inputs, m, c, next, SetInputs(rest, m, next).0);
        assert SetInputs(inputs, m, c) == SetInputs(rest, m, next);
      }
    }
  }

  lemma FirstAndRest(inputs: seq<GpioInput>, m: MonitoringMsg, c: CommandMsg, next: CommandMsg, r: CommandMsg)
    requires inputs != [] && c.ioCount + |inputs| <= MAX_IO && Resolves(inputs[0], m)
    requires next.ioCount == c.ioCount + 1 <= r.ioCount <= c.ioCount + |inputs|
    requires Holds(next.ioSlots[c.ioCount], inputs[0])
    requires forall k | 0 <= k < c.ioCount :: next.ioSlots[k] == c.ioSlots[k]
    requires forall k | 0 <= k < next.ioCount :: r.ioSlots[k] == next.ioSlots[k]
    requires forall i | 0 <= i < r.ioCount - next.ioCount :: Holds(r.ioSlots[next.ioCount + i], inputs[1..][i])
    ensures forall k | 0 <= k < c.ioCount :: r.ioSlots[k] == c.ioSlots[k]
    ensures forall i | 0 <= i < r.ioCount - c.ioCount :: Holds(r.ioSlots[c.ioCount + i], inputs[i])
    ensures (forall i | 0 <= i < |inputs| :: Resolves(inputs[i], m))
            <==> (forall i | 0 <= i < |inputs| - 1 :: Resolves(inputs[1..][i], m))
  {
    forall i | 0 <= i < r.ioCount - c.ioCount
      ensures Holds(r.ioSlots[c.ioCount + i], inputs[i])
    {
      if i > 0 {
        assert Holds(r.ioSlots[next.ioCount + (i - 1)], inputs[1..][i - 1]);
      }
    }
    if forall i | 0 <= i < |inputs| - 1 :: Resolves(inputs[1..][i], m) {
      forall i | 0 <= i < |inputs|
        ensures Resolves(inputs[i], m)
      {
        if i > 0 {
          assert Resolves(inputs[1..][i - 1], m);
        }
      }
    }
  }

  predicate AllResolve(inputs: seq<GpioInput>, m: MonitoringMsg) {
    forall i | 0 <= i < |inputs| :: Resolves(inputs[i], m)
  }

  /** The command message holds the first inputs, in order, in its used slots. */
  predicate HoldsInputs(c: CommandMsg, inputs: seq<GpioInput>) {
    c.ioCount <= |inputs| <= MAX_IO && forall k | 0 <= k < c.ioCount :: Holds(c.ioSlots[k], inputs[k])
  }

  /** Updating the command of a message that was reset. */
  lemma UpdateCommandFillsSlots(h: Hardware, m: MonitoringMsg, c: CommandMsg)
    requires |h.inputs| <= MAX_IO && c.ioCount == 0 && !c.hasJointPosition
    ensures var (r, error) := UpdateCommand(h, m, c);
            && error != Some(TooManyIos)
            && HoldsInputs(r, h.inputs)
            && r.CarriesPositions() == Supported(h.controlMode)
            && (if Supported(h.controlMode)
                then (error == None <==> AllResolve(h.inputs, m)) && (error == None <==> r.ioCount == |h.inputs|)
                else r.ioCount == 0 && error == None)
  {
    if h.controlMode == JOINT_TORQUE_CONTROL {
      var torque := WithJointTorque(WithJointPosition(c, Compensated(m.measuredPosition)), h.torqueCommands);
      SetInputsFillsSlots(h.inputs, m, torque);
      var r := SetInputs(h.inputs, m, torque).0;
      assert forall k | 0 <= k < r.ioCount :: r.ioSlots[k] == r.ioSlots[torque.ioCount + k];
    } else {
      var position := WithJointPosition(c, h.positionCommands);
      SetInputsFillsSlots(h.inputs, m, position);
      var r := SetInputs(h.inputs, m, position).0;
      assert forall k | 0 <= k < r.ioCount :: r.ioSlots[k] == r.ioSlots[position.ioCount + k];
    }
  }

  /** The callback of one cycle, on the message as it was reset. */
  function Answer(d: ClientData<Hardware>): Outcome<Hardware> {
    var state := d.monitoring.sessionState;
    if Silent(state) then Outcome(d.client, Reset(d.command), None)
    else Call(CallbackFor(state), d.client, d.monitoring, Reset(d.command))
  }

  lemma UpdateIsAnswer(d: ClientData<Hardware>)
    ensures var o := Answer(d);
            Update(KUKA_CLIENT, d) ==
            (d.(lastState := d.monitoring.sessionState, client := o.client, command := o.command), o.error)
  {
  }

  /** In this session state, with these counters, the callback writes the command. */
  predicate Updates(h: Hardware, state: SessionState) {
    state.CommandingWait? || (state.CommandingActive? && h.receiveCounter + 1 == h.receiveMultiplier)
  }

  /** One update of the application, whatever was left in the message before it: with at most ten inputs the
      capacity exception cannot be raised, and the requests are the inputs in order - all of them when they resolve. */
  lemma UpdateWritesTheInputs(d: ClientData<Hardware>)
    requires |d.client.inputs| <= MAX_IO
    ensures var (r, error) := Update(KUKA_CLIENT, d);
            var inputs := d.client.inputs;
            && error != Some(TooManyIos)
            && HoldsInputs(r.command, inputs)
            && (if Updates(d.client, d.monitoring.sessionState) && Supported(d.client.controlMode)
                then
                  && (error == None <==> AllResolve(inputs, d.monitoring))
                  && (error == None <==> r.command.ioCount == |inputs|)
                else r.command.ioCount == 0 && error == None)
  {
    UpdateIsAnswer(d);
    AnswerWritesTheInputs(d);
  }

  lemma AnswerWritesTheInputs(d: ClientData<Hardware>)
    requires |d.client.inputs| <= MAX_IO
    ensures var o := Answer(d);
            var inputs, state := d.client.inputs, d.monitoring.sessionState;
            && o.error != Some(TooManyIos)
            && HoldsInputs(o.command, inputs)
            && (if Updates(d.client, state) && Supported(d.client.controlMode)
                then
                  && (o.error == None <==> AllResolve(inputs, d.monitoring))
                  && (o.error == None <==> o.command.ioCount == |inputs|)
                else o.command.ioCount == 0 && o.error == None)
            && o.command.CarriesPositions() ==
               (!Silent(state) && (state.CommandingWait? || state.CommandingActive? ==>
                                     Updates(d.client, state) && Supported(d.client.controlMode)))
            && (o.error == None && state == CommandingActive ==>
                  o.client.receiveCounter == Decimated(d.client.receiveCounter, d.client.receiveMultiplier))
            && (state != CommandingActive ==> o.client.receiveCounter == d.client.receiveCounter)
  {
    var h, m, c := d.client, d.monitoring, Reset(d.command);
    if m.sessionState == CommandingWait {
      UpdateCommandFillsSlots(h.(positionCommands := h.positionStates), m, c);
    } else if m.sessionState == CommandingActive {
      UpdateCommandFillsSlots(h.(receiveCounter := h.receiveCounter + 1), m, c);
    }
  }

  // ----- which packets carry joint positions -----

  /** One cycle. Of a read and write of the hardware interface, the write is skipped when nothing was read; in the loop
      of the activation the cycle goes on with the message before. In between the controllers may have written every
      command interface. */
  datatype Tick = Tick(net: Network, interfaces: Hardware, gated: bool)

  /** Only the read of the hardware interface copies the positions from the monitoring message. */
  function Refreshed(d: ClientData<Hardware>, t: Tick): ClientData<Hardware> {
    d.(client := t.interfaces.(
         receiveCounter := d.client.receiveCounter,
         positionStates := if t.gated then d.monitoring.measuredPosition else d.client.positionStates))
  }

  function HardwareTick(d: ClientData<Hardware>, t: Tick): ClientData<Hardware> {
    var (d1, readOk) := Read(d, t.net);
    if t.gated && !readOk then d1
    else
      var (d2, error) := Update(KUKA_CLIENT, Refreshed(d1, t));
      if error.Some? then d2 else Write(d2, t.net).0
  }

  function Ticks(d: ClientData<Hardware>, ticks: seq<Tick>): ClientData<Hardware> {
    if ticks == [] then d else HardwareTick(Ticks(d, ticks[..|ticks| - 1]), ticks[|ticks| - 1])
  }

  predicate Answers(d: ClientData<Hardware>, t: Tick) {
    t.gated ==> Read(d, t.net).1
  }

  /** The message that the cycle goes by. */
  function InEffect(d: ClientData<Hardware>, t: Tick): MonitoringMsg {
    Read(d, t.net).0.monitoring
  }

  /** Unless the write is skipped, both multipliers are `m`, and if the command is due no exception will be raised. */
  predicate Regular(d: ClientData<Hardware>, t: Tick, m: uint32) {
    var message := InEffect(d, t);
    Answers(d, t) ==>
      && message.receiveMultiplier == m == t.interfaces.receiveMultiplier
      && |t.interfaces.inputs| <= MAX_IO
      && (Updates(t.interfaces.(receiveCounter := d.client.receiveCounter), message.sessionState) ==>
            Supported(t.interfaces.controlMode) && AllResolve(t.interfaces.inputs, message))
  }

  /** Every tick of the run is regular where it comes. */
  predicate RegularRun(d: ClientData<Hardware>, ticks: seq<Tick>, m: uint32) {
    forall i | 0 <= i < |ticks| :: Regular(Ticks(d, ticks[..i]), ticks[i], m)
  }

  lemma RegularFront(d: ClientData<Hardware>, ticks: seq<Tick>, m: uint32)
    requires ticks != [] && RegularRun(d, ticks, m)
    ensures var n := |ticks| - 1;
            RegularRun(d, ticks[..n], m) && Regular(Ticks(d, ticks[..n]), ticks[n], m)
  {
    var n := |ticks| - 1;
    forall i | 0 <= i < n
      ensures Regular(Ticks(d, ticks[..n][..i]), ticks[..n][i], m)
    {
      assert ticks[..n][..i] == ticks[..i];
    }
  }

  /** A counter that starts anywhere and is reset when it reaches `m`. */
  function Decimated(counter: int, m: int): int {
    if counter + 1 == m then 0 else counter + 1
  }

  /** What one regular tick does to the two counters, and what the packet it may send carries. */
  lemma RegularTick(d: ClientData<Hardware>, t: Tick, m: uint32)
    requires Regular(d, t, m) && d.lastSendCounter < m && Answers(d, t)
    ensures var r := HardwareTick(d, t);
            var state := InEffect(d, t).sessionState;
            && r.lastSendCounter == Decimated(d.lastSendCounter, m)
            && r.client.receiveCounter ==
               (if state == CommandingActive then Decimated(d.client.receiveCounter, m) else d.client.receiveCounter)
            && (d.lastSendCounter + 1 < m ==> r.attempts == d.attempts)
            && (d.lastSendCounter + 1 == m ==>
                  && |r.attempts| == |d.attempts| + 1 && r.attempts[..|d.attempts|] == d.attempts
                  && r.attempts[|d.attempts|].command.CarriesPositions() ==
                     (!Silent(state) && (state == CommandingActive ==> d.client.receiveCounter + 1 == m)))
  {
    var d1 := Refreshed(Read(d, t.net).0, t);
    UpdateIsAnswer(d1);
    AnswerWritesTheInputs(d1);
    var o := Answer(d1);
    var d2 := d1.(lastState := d1.monitoring.sessionState, client := o.client, command := o.command);
    assert HardwareTick(d, t) == Write(d2, t.net).0;
  }

  /** Packet `j` of the run, counted from the state it started in, carries joint positions. */
  predicate Carries(d: ClientData<Hardware>, r: ClientData<Hardware>, j: nat)
    requires |d.attempts| + j < |r.attempts|
  {
    r.attempts[|d.attempts| + j].command.CarriesPositions()
  }

  predicate Extends(d: ClientData<Hardware>, r: ClientData<Hardware>) {
    |d.attempts| <= |r.attempts| && r.attempts[..|d.attempts|] == d.attempts
  }

  // ----- what the connection delivers -----

  predicate Arrives(net: Network) {
    net.openAtRead && net.received > 0
  }

  /** The last message that arrived, accepted or not. */
  function Latest(before: MonitoringMsg, ticks: seq<Tick>): MonitoringMsg {
    if ticks == [] then before
    else
      var n := |ticks| - 1;
      if Arrives(ticks[n].net) then ticks[n].net.decoded else Latest(before, ticks[..n])
  }

  /** The session states of the cycles that are not skipped, one after the other. */
  function States(d: ClientData<Hardware>, ticks: seq<Tick>): seq<SessionState> {
    if ticks == [] then []
    else
      var n := |ticks| - 1;
      var net := ticks[n].net;
      var accepted := Arrives(net) && net.decodeOk && net.decoded.identifier == d.expectedMonitorMsgID;
      States(d, ticks[..n])
        + if ticks[n].gated && !accepted then [] else [Latest(d.monitoring, ticks).sessionState]
  }

  lemma {:induction false} MessagesOfRun(d: ClientData<Hardware>, ticks: seq<Tick>)
    ensures var r := Ticks(d, ticks);
            r.monitoring == Latest(d.monitoring, ticks) && r.expectedMonitorMsgID == d.expectedMonitorMsgID
    decreases |ticks|
  {
    if ticks != [] {
      var n := |ticks| - 1;
      MessagesOfRun(d, ticks[..n]);
      MessageOfTick(Ticks(d, ticks[..n]), ticks[n]);
    }
  }

  lemma MessageOfTick(d: ClientData<Hardware>, t: Tick)
    ensures var r := HardwareTick(d, t);
            r.monitoring == InEffect(d, t) && r.expectedMonitorMsgID == d.expectedMonitorMsgID
    ensures InEffect(d, t) == if Arrives(t.net) then t.net.decoded else d.monitoring
  {
    UpdateIsAnswer(Refreshed(Read(d, t.net).0, t));
  }

  function StatesOfTick(before: ClientData<Hardware>, t: Tick): seq<SessionState> {
    if Answers(before, t) then [InEffect(before, t).sessionState] else []
  }

  lemma LastState(d: ClientData<Hardware>, ticks: seq<Tick>)
    requires ticks != []
    ensures var n := |ticks| - 1;
            var before := Ticks(d, ticks[..n]);
            States(d, ticks) == States(d, ticks[..n]) + StatesOfTick(before, ticks[n])
  {
    var n := |ticks| - 1;
    MessagesOfRun(d, ticks[..n]);
    MessageOfTick(Ticks(d, ticks[..n]), ticks[n]);
  }

  // ----- whole runs, whatever the session states -----

  function ActiveCount(states: seq<SessionState>): (n: nat)
    ensures n <= |states|
  {
    if states == [] then 0
    else ActiveCount(states[..|states| - 1]) + if states[|states| - 1] == CommandingActive then 1 else 0
  }

  /** The decimation counter, from `a` on: it is reset at `m`, unless it has already passed it. */
  function CounterAfter(a: nat, active: nat, m: uint32): nat
    requires m > 0
  {
    if a < m then (a + active) % m else a + active
  }

  /** The state in which a packet is sent, and whether it carries positions. */
  datatype Sending = Sending(state: SessionState, carries: bool)

  /** The packets of cycles in these states: `b` and `a` are the send counter and the decimation counter before them. A
      packet is sent when `b` and the number of cycles make a multiple of `m`; in a silent state it never carries
      positions, and in an active state when `a` and the number of active cycles make a multiple of `m` too. */
  function Sendings(b: nat, a: nat, states: seq<SessionState>, m: uint32): seq<Sending>
    requires m > 0
  {
    if states == [] then []
    else
      var last := states[|states| - 1];
      Sendings(b, a, states[..|states| - 1], m)
        + if (b + |states|) % m != 0 then []
          else
            [Sending(last, !Silent(last) && (last == CommandingActive ==> a < m && (a + ActiveCount(states)) % m == 0))]
  }

  /** What holds of the application `r` after cycles in these states from `d`. */
  ghost predicate AfterRun(d: ClientData<Hardware>, r: ClientData<Hardware>, states: seq<SessionState>, m: uint32)
    requires m > 0 && d.client.receiveCounter >= 0
  {
    var sendings := Sendings(d.lastSendCounter, d.client.receiveCounter, states, m);
    && r.lastSendCounter == (d.lastSendCounter + |states|) % m
    && r.client.receiveCounter == CounterAfter(d.client.receiveCounter, ActiveCount(states), m)
    && Sent(d, r, sendings)
  }

  ghost predicate Sent(d: ClientData<Hardware>, r: ClientData<Hardware>, sendings: seq<Sending>) {
    && Extends(d, r) && |r.attempts| == |d.attempts| + |sendings|
    && forall j | 0 <= j < |sendings| :: Carries(d, r, j) == sendings[j].carries
  }

  /** Both counters and all packets of any regular run in closed form, whatever the counters and session states: over
      reads that fail, the cycles of an activation, deactivations, idle phases and reactivations. */
  lemma {:induction false} PacketsOfRun(d: ClientData<Hardware>, ticks: seq<Tick>, m: uint32)
    requires RegularRun(d, ticks, m)
    requires d.lastSendCounter < m && 0 <= d.client.receiveCounter
    ensures AfterRun(d, Ticks(d, ticks), States(d, ticks), m)
    decreases |ticks|
  {
    if ticks == [] {
      NothingSent(d, m);
    } else {
      var n := |ticks| - 1;
      var before := Ticks(d, ticks[..n]);
      RegularFront(d, ticks, m);
      PacketsOfRun(d, ticks[..n], m);
      OneMoreTick(d, before, ticks[n], States(d, ticks[..n]), m);
      LastState(d, ticks);
    }
  }

  lemma OneMoreTick(d: ClientData<Hardware>, before: ClientData<Hardware>, t: Tick, states: seq<SessionState>,
                    m: uint32)
    requires d.lastSendCounter < m && 0 <= d.client.receiveCounter
    requires AfterRun(d, before, states, m) && Regular(before, t, m)
    ensures AfterRun(d, HardwareTick(before, t), states + StatesOfTick(before, t), m)
  {
    if Answers(before, t) {
      PacketsOfTick(d, before, t, states, m);
    } else {
      SkippedTick(d, before, t, states, m);
      assert states + [] == states;
    }
  }

  lemma NothingSent(d: ClientData<Hardware>, m: uint32)
    requires d.lastSendCounter < m && 0 <= d.client.receiveCounter
    ensures AfterRun(d, d, [], m)
  {
    CounterStays(d.lastSendCounter, m);
    CounterStays(d.client.receiveCounter, m);
  }

  lemma CounterStays(a: nat, m: uint32)
    requires m > 0
    ensures CounterAfter(a, 0, m) == a
  {
    if a < m {
      DivisionIsUnique(a, m, 0, a);
    }
  }

  lemma SkippedTick(d: ClientData<Hardware>, before: ClientData<Hardware>, t: Tick, states: seq<SessionState>,
                    m: uint32)
    requires m > 0 && 0 <= d.client.receiveCounter && AfterRun(d, before, states, m) && !Answers(before, t)
    ensures AfterRun(d, HardwareTick(before, t), states, m)
  {
    var r := HardwareTick(before, t);
    assert r == before.(monitoring := r.monitoring);
    forall j | 0 <= j < |r.attempts| - |d.attempts|
      ensures Carries(d, r, j) == Carries(d, before, j)
    {
    }
  }

  lemma PacketsOfTick(d: ClientData<Hardware>, before: ClientData<Hardware>, t: Tick, states: seq<SessionState>,
                      m: uint32)
    requires d.lastSendCounter < m && 0 <= d.client.receiveCounter
    requires AfterRun(d, before, states, m) && Regular(before, t, m) && Answers(before, t)
    ensures AfterRun(d, HardwareTick(before, t), states + [InEffect(before, t).sessionState], m)
  {
    var b, a, state := d.lastSendCounter, d.client.receiveCounter, InEffect(before, t).sessionState;
    NextSendCounter(b, |states|, m);
    RegularTick(before, t, m);
    NextSending(b, a, states, state, m);
    PacketsExtend(d, before, HardwareTick(before, t), Sendings(b, a, states, m), Sendings(b, a, states + [state], m));
  }

  lemma NextSendCounter(x: nat, n: nat, m: nat)
    requires m > 0
    ensures 0 <= (x + n) % m < m && Decimated((x + n) % m, m) == (x + (n + 1)) % m
  {
    NextInPeriod(x + n, m);
  }

  /** The packet that one more cycle may send, told by the two counters before it. */
  lemma NextSending(b: nat, a: nat, states: seq<SessionState>, state: SessionState, m: uint32)
    requires m > 0
    ensures var sendCounter, counter := (b + |states|) % m, CounterAfter(a, ActiveCount(states), m);
            var all := states + [state];
            && |all| == |states| + 1
            && CounterAfter(a, ActiveCount(all), m)
               == (if state == CommandingActive then Decimated(counter, m) else counter)
            && Sendings(b, a, all, m) == Sendings(b, a, states, m)
                 + if sendCounter + 1 != m then []
                   else [Sending(state, !Silent(state) && (state == CommandingActive ==> counter + 1 == m))]
  {
    assert (states + [state])[..|states|] == states;
    NextSendCounter(b, |states|, m);
    NextSendCounter(a, ActiveCount(states), m);
  }

  /** At most one more packet, whose flag is the last. */
  lemma PacketsExtend(d: ClientData<Hardware>, before: ClientData<Hardware>, r: ClientData<Hardware>,
                      sent: seq<Sending>, sendings: seq<Sending>)
    requires Sent(d, before, sent) && Extends(before, r)
    requires if |r.attempts| == |before.attempts| then sendings == sent
             else
               && |r.attempts| == |before.attempts| + 1 == |d.attempts| + |sendings|
               && sendings[..|sent|] == sent
               && sendings[|sent|].carries == r.attempts[|before.attempts|].command.CarriesPositions()
    ensures Sent(d, r, sendings)
  {
    assert r.attempts[..|d.attempts|] == r.attempts[..|before.attempts|][..|d.attempts|];
    forall j | 0 <= j < |sendings|
      ensures Carries(d, r, j) == sendings[j].carries
    {
      if j < |sent| {
        assert r.attempts[..|before.attempts|][|d.attempts| + j] == before.attempts[|d.attempts| + j];
        assert Carries(d, before, j) == sent[j].carries && sendings[..|sent|][j] == sendings[j];
      }
    }
  }

  // ----- phases -----

  predicate AllActive(states: seq<SessionState>) {
    forall i | 0 <= i < |states| :: states[i] == CommandingActive
  }

  predicate NoneActive(states: seq<SessionState>) {
    forall i | 0 <= i < |states| :: states[i] != CommandingActive
  }

  lemma DistanceIsZero(a: int, b: int, m: nat)
    requires 0 <= a < m && 0 <= b < m
    ensures (a - b) % m == 0 <==> a == b
  {
    if a < b {
      DivisionIsUnique(a - b, m, -1, a - b + m);
    } else {
      DivisionIsUnique(a - b, m, 0, a - b);
    }
  }

  /** Two counters below `m` that went on by as much are multiples of `m` together exactly when they are equal. */
  lemma MultiplesTogether(b: nat, a: nat, n: nat, m: nat)
    requires b < m && a < m && (b + n) % m == 0
    ensures (a + n) % m == 0 <==> a == b
  {
    var q := (b + n) / m;
    assert b + n == q * m;
    if (a + n) % m == 0 {
      var p := (a + n) / m;
      assert a + n == p * m && (p - q) * m == a - b;
      DivisionIsUnique(a - b, m, p - q, 0);
      DistanceIsZero(a, b, m);
    }
  }

  lemma {:induction false} ActiveSendings(b: nat, a: nat, states: seq<SessionState>, m: uint32)
    requires b < m && a < m && AllActive(states)
    ensures ActiveCount(states) == |states|
    ensures forall j | 0 <= j < |Sendings(b, a, states, m)| :: Sendings(b, a, states, m)[j].carries == (a == b)
    decreases |states|
  {
    if states != [] {
      ActiveSendings(b, a, states[..|states| - 1], m);
      if (b + |states|) % m == 0 {
        MultiplesTogether(b, a, |states|, m);
      }
    }
  }

  lemma {:induction false} MonitoringSendings(b: nat, a: nat, states: seq<SessionState>, m: uint32)
    requires m > 0 && NoneActive(states)
    ensures ActiveCount(states) == 0
    ensures forall j | 0 <= j < |Sendings(b, a, states, m)| ::
              var sending := Sendings(b, a, states, m)[j];
              sending.state in states && sending.carries == !Silent(sending.state)
    decreases |states|
  {
    if states != [] {
      MonitoringSendings(b, a, states[..|states| - 1], m);
    }
  }

  lemma {:induction false} RunawaySendings(b: nat, a: nat, states: seq<SessionState>, m: uint32)
    requires 0 < m <= a
    ensures forall j | 0 <= j < |Sendings(b, a, states, m)| ::
              var sending := Sendings(b, a, states, m)[j];
              sending.carries == (!Silent(sending.state) && sending.state != CommandingActive)
    decreases |states|
  {
    if states != [] {
      RunawaySendings(b, a, states[..|states| - 1], m);
    }
  }

  /** Every packet that `r` has sent since `d` carries positions, or none does. */
  ghost predicate AllCarry(d: ClientData<Hardware>, r: ClientData<Hardware>, carries: bool) {
    Extends(d, r) && forall j | 0 <= j < |r.attempts| - |d.attempts| :: Carries(d, r, j) == carries
  }

  lemma SentAlike(d: ClientData<Hardware>, r: ClientData<Hardware>, sendings: seq<Sending>, carries: bool)
    requires Sent(d, r, sendings) && forall j | 0 <= j < |sendings| :: sendings[j].carries == carries
    ensures AllCarry(d, r, carries)
  {
  }

  /** Both counters have gone on by `n`, and all packets carry positions if they started equal, or else none. */
  ghost predicate InStepSince(d: ClientData<Hardware>, r: ClientData<Hardware>, n: nat, m: uint32)
    requires m > 0
  {
    && r.lastSendCounter == (d.lastSendCounter + n) % m
    && r.client.receiveCounter == (d.client.receiveCounter + n) % m
    && AllCarry(d, r, d.client.receiveCounter == d.lastSendCounter)
  }

  /** Through any run in commanding-active the two counters go on alike, so they keep their distance modulo `m`; every
      packet carries positions when they start equal and none does when they do not. */
  lemma ActivePackets(d: ClientData<Hardware>, ticks: seq<Tick>, m: uint32)
    requires RegularRun(d, ticks, m) && AllActive(States(d, ticks))
    requires d.lastSendCounter < m && 0 <= d.client.receiveCounter < m
    ensures InStepSince(d, Ticks(d, ticks), |States(d, ticks)|, m)
  {
    PacketsOfRun(d, ticks, m);
    ActiveCycles(d, Ticks(d, ticks), States(d, ticks), m);
  }

  lemma ActiveCycles(d: ClientData<Hardware>, r: ClientData<Hardware>, states: seq<SessionState>, m: uint32)
    requires d.lastSendCounter < m && 0 <= d.client.receiveCounter < m
    requires AfterRun(d, r, states, m) && AllActive(states)
    ensures InStepSince(d, r, |states|, m)
  {
    var b, a := d.lastSendCounter, d.client.receiveCounter;
    ActiveSendings(b, a, states, m);
    SentAlike(d, r, Sendings(b, a, states, m), a == b);
  }

  /** Outside commanding-active only the send counter moves, and a packet carries positions exactly when the state it is
      sent in is not silent. */
  lemma MonitoringPackets(d: ClientData<Hardware>, ticks: seq<Tick>, m: uint32)
    requires RegularRun(d, ticks, m) && NoneActive(States(d, ticks))
    requires d.lastSendCounter < m && 0 <= d.client.receiveCounter
    ensures var r, states := Ticks(d, ticks), States(d, ticks);
            var sendings := Sendings(d.lastSendCounter, d.client.receiveCounter, states, m);
            && r.client.receiveCounter == d.client.receiveCounter
            && r.lastSendCounter == (d.lastSendCounter + |states|) % m
            && Sent(d, r, sendings)
            && (forall j | 0 <= j < |sendings| :: sendings[j].carries == !Silent(sendings[j].state))
  {
    PacketsOfRun(d, ticks, m);
    MonitoringSendings(d.lastSendCounter, d.client.receiveCounter, States(d, ticks), m);
    CounterStays(d.client.receiveCounter, m);
  }

  /** From any two counters below `m`, after any phase without an active cycle, the packets of an active phase carry
      positions exactly when the length of that phase brings the send counter to the decimation counter. */
  lemma PhaseOfActivation(d: ClientData<Hardware>, waiting: seq<Tick>, active: seq<Tick>, m: uint32)
    requires RegularRun(d, waiting, m) && NoneActive(States(d, waiting))
    requires RegularRun(Ticks(d, waiting), active, m) && AllActive(States(Ticks(d, waiting), active))
    requires d.lastSendCounter < m && 0 <= d.client.receiveCounter < m
    ensures var before := Ticks(d, waiting);
            AllCarry(before, Ticks(before, active),
                     (d.lastSendCounter + |States(d, waiting)|) % m == d.client.receiveCounter)
  {
    MonitoringPackets(d, waiting, m);
    NextSendCounter(d.lastSendCounter, |States(d, waiting)|, m);
    ActivePackets(Ticks(d, waiting), active, m);
  }

  /** A counter that starts at or above the multiplier never meets it again: through any session states it grows with
      every active cycle, and no packet sent in commanding-active carries positions - those of the other states do,
      unless the state is silent. */
  lemma RunawayCounter(d: ClientData<Hardware>, ticks: seq<Tick>, m: uint32)
    requires RegularRun(d, ticks, m)
    requires d.lastSendCounter < m <= d.client.receiveCounter
    ensures var r, states := Ticks(d, ticks), States(d, ticks);
            var sendings := Sendings(d.lastSendCounter, d.client.receiveCounter, states, m);
            && r.client.receiveCounter == d.client.receiveCounter + ActiveCount(states)
            && Sent(d, r, sendings)
            && (forall j | 0 <= j < |sendings| ::
                  sendings[j].carries <==> !Silent(sendings[j].state) && sendings[j].state != CommandingActive)
  {
    PacketsOfRun(d, ticks, m);
    RunawaySendings(d.lastSendCounter, d.client.receiveCounter, States(d, ticks), m);
  }

  /** An input that does not resolve when the command is due raises an exception before the counter is reset,
      which leaves the counter at the multiplier: from there on it runs away. */
  lemma ExceptionStopsTheCounter(d: ClientData<Hardware>, t: Tick, m: uint32)
    requires Answers(d, t) && InEffect(d, t).sessionState == CommandingActive
    requires t.interfaces.receiveMultiplier == m && Supported(t.interfaces.controlMode)
    requires |t.interfaces.inputs| <= MAX_IO && !AllResolve(t.interfaces.inputs, InEffect(d, t))
    requires d.client.receiveCounter + 1 == m
    ensures var r := HardwareTick(d, t);
            r.client.receiveCounter == m && r.lastSendCounter == d.lastSendCounter && r.attempts == d.attempts
  {
    var d1 := Refreshed(Read(d, t.net).0, t);
    UpdateIsAnswer(d1);
    AnswerWritesTheInputs(d1);
  }

  /** The client tells the SDK nothing about a state change. */
  lemma KukaClientIsQuiet()
    ensures QuietOnStateChange(KUKA_CLIENT)
  {
  }

  /** So the extra packet that the driver sends in a silent cycle, where `step` sends none, carries no command data. */
  lemma SilentPacketOfDriver(d: ClientData<Hardware>, net: Network)
    requires SilentCycle(KUKA_CLIENT, d, net)
    ensures var p := SplitCycle(KUKA_CLIENT, d, net).0;
            Step(KUKA_CLIENT, d, net).0.attempts == d.attempts
            && (|p.attempts| > |d.attempts| <==> Inc32(d.lastSendCounter) >= net.decoded.receiveMultiplier)
            && (|p.attempts| > |d.attempts| ==> !p.attempts[|d.attempts|].command.hasCommandData)
  {
    KukaClientIsQuiet();
    SilentCycleDiffers(KUKA_CLIENT, d, net);
    SilentPacketIsEmpty(KUKA_CLIENT, d, net);
  }
}
