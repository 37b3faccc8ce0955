/** What the packets of the Sunrise driver say: positions, torques and I/O requests, cycle by cycle and over whole
    runs. */
module PacketContents {
  import opened Words
  import opened FriMessages
  import opened FriClientApplication
  import opened KukaFriClient

  /** Moved against its sign by a tenth; zero counts as positive. */
  predicate Compensates(position: real, measured: real) {
    position == if measured < 0.0 then measured + 0.1 else measured - 0.1
  }

  /** The command of a cycle with these interfaces: torque control sends the torques and the measured positions
      corrected for friction, the other modes the given positions; all inputs are requested. */
  predicate CarriesCommand(p: CommandMsg, message: MonitoringMsg, h: Hardware, positions: Joints) {
    && p.CarriesPositions() && !p.hasWrench && p.transformationCount == 0
    && p.hasJointTorque == (h.controlMode == JOINT_TORQUE_CONTROL)
    && (if h.controlMode == JOINT_TORQUE_CONTROL then
          && p.jointTorque == h.torqueCommands
          && |p.jointPosition| == |message.measuredPosition|
          && forall i | 0 <= i < |p.jointPosition| :: Compensates(p.jointPosition[i], message.measuredPosition[i])
        else p.jointPosition == positions)
    && p.ioCount == |h.inputs| && HoldsInputs(p, h.inputs)
  }

  predicate CarriesNothing(p: CommandMsg) {
    && !p.hasCommandData && !p.hasJointPosition && !p.hasJointTorque && !p.hasWrench
    && p.transformationCount == 0 && p.ioCount == 0
  }

  /** What a packet holds, by the session state it is sent in: `states` are the positions last read, and `due` says
      whether the decimation counter is. */
  predicate Fits(p: CommandMsg, message: MonitoringMsg, h: Hardware, states: Joints, due: bool) {
    match message.sessionState
    case MonitoringWait => FitsMonitoring(p, message)
    case MonitoringReady => FitsMonitoring(p, message)
    case CommandingWait => CarriesCommand(p, message, h, states)
    case CommandingActive => if due then CarriesCommand(p, message, h, h.positionCommands) else CarriesNothing(p)
    case Idle => CarriesNothing(p)
    case OtherState(_) => CarriesNothing(p)
  }

  /** While monitoring, the commanded positions are sent back. */
  predicate FitsMonitoring(p: CommandMsg, message: MonitoringMsg) {
    && p.CarriesPositions() && p.jointPosition == message.commandedPosition
    && !p.hasJointTorque && !p.hasWrench && p.transformationCount == 0 && p.ioCount == 0
  }

  // ----- one cycle -----

  lemma {:induction false} InputsKeepMotion(inputs: seq<GpioInput>, m: MonitoringMsg, c: CommandMsg)
    ensures var r := SetInputs(inputs, m, c).0;
            && (c.hasCommandData ==> r.hasCommandData)
            && r == c.(hasCommandData := r.hasCommandData, ioSlots := r.ioSlots, ioCount := r.ioCount)
    decreases |inputs|
  {
    if inputs != [] {
      var next := SetIo(c, m, inputs[0].name, inputs[0].kind, inputs[0].data);
      if next.Success? {
        InputsKeepMotion(inputs[1..], m, next.value);
      }
    }
  }

  /** An update in a supported mode, with positions that the mode may or may not use. */
  lemma UpdateCarriesCommand(h: Hardware, m: MonitoringMsg, c: CommandMsg)
    requires |h.inputs| <= MAX_IO && Supported(h.controlMode) && AllResolve(h.inputs, m) && c == Reset(c)
    ensures var (r, error) := UpdateCommand(h, m, c);
            error == None && CarriesCommand(r, m, h, h.positionCommands)
  {
    UpdateCommandFillsSlots(h, m, c);
    var position := WithJointPosition(c, h.positionCommands);
    var torque := WithJointTorque(WithJointPosition(c, Compensated(m.measuredPosition)), h.torqueCommands);
    InputsKeepMotion(h.inputs, m, position);
    InputsKeepMotion(h.inputs, m, torque);
  }

  lemma AnswerFits(d: ClientData<Hardware>)
    requires |d.client.inputs| <= MAX_IO
    requires Updates(d.client, d.monitoring.sessionState) ==>
               Supported(d.client.controlMode) && AllResolve(d.client.inputs, d.monitoring)
    ensures var o := Answer(d);
            var due := d.client.receiveCounter + 1 == d.client.receiveMultiplier;
            o.error == None && Fits(o.command, d.monitoring, d.client, d.client.positionStates, due)
  {
    var h, m, c := d.client, d.monitoring, Reset(d.command);
    if m.sessionState == CommandingWait {
      UpdateCarriesCommand(h.(positionCommands := h.positionStates), m, c);
    } else if m.sessionState == CommandingActive && Updates(h, m.sessionState) {
      UpdateCarriesCommand(h.(receiveCounter := h.receiveCounter + 1), m, c);
    }
  }

  /** The packet of a regular cycle, when the send counter makes it due. */
  lemma TickFits(d: ClientData<Hardware>, t: Tick, m: uint32)
    requires Regular(d, t, m) && Answers(d, t) && d.lastSendCounter + 1 == m
    ensures var r, message := HardwareTick(d, t), InEffect(d, t);
            var states := if t.gated then message.measuredPosition else d.client.positionStates;
            |r.attempts| == |d.attempts| + 1
            && Fits(r.attempts[|d.attempts|].command, message, t.interfaces, states, d.client.receiveCounter + 1 == m)
  {
    RegularTick(d, t, m);
    var d1 := Refreshed(Read(d, t.net).0, t);
    UpdateIsAnswer(d1);
    AnswerFits(d1);
    var o := Answer(d1);
    var d2 := d1.(lastState := d1.monitoring.sessionState, client := o.client, command := o.command);
    assert HardwareTick(d, t) == Write(d2, t.net).0;
  }

  // ----- whole runs -----

  /** The positions of the last message that a read of the hardware interface accepted. */
  function LastRead(d: ClientData<Hardware>, ticks: seq<Tick>): Joints {
    if ticks == [] then d.client.positionStates
    else
      var n := |ticks| - 1;
      var net := ticks[n].net;
      if ticks[n].gated && Arrives(net) && net.decodeOk && net.decoded.identifier == d.expectedMonitorMsgID
      then net.decoded.measuredPosition
      else LastRead(d, ticks[..n])
  }

  lemma {:induction false} PositionsOfRun(d: ClientData<Hardware>, ticks: seq<Tick>)
    ensures Ticks(d, ticks).client.positionStates == LastRead(d, ticks)
    decreases |ticks|
  {
    if ticks != [] {
      var n := |ticks| - 1;
      PositionsOfRun(d, ticks[..n]);
      MessagesOfRun(d, ticks[..n]);
      PositionsOfTick(Ticks(d, ticks[..n]), ticks[n]);
    }
  }

  lemma PositionsOfTick(d: ClientData<Hardware>, t: Tick)
    ensures HardwareTick(d, t).client.positionStates
         == if t.gated && Read(d, t.net).1 then t.net.decoded.measuredPosition else d.client.positionStates
  {
    UpdateIsAnswer(Refreshed(Read(d, t.net).0, t));
  }

  /** The ticks at which the packets of a run are sent. */
  function Senders(d: ClientData<Hardware>, ticks: seq<Tick>, m: uint32): (r: seq<nat>)
    requires m > 0
    ensures forall j | 0 <= j < |r| :: r[j] < |ticks|
  {
    if ticks == [] then []
    else
      var n := |ticks| - 1;
      var cycles := |States(d, ticks)|;
      Senders(d, ticks[..n], m)
        + if cycles > |States(d, ticks[..n])| && (d.lastSendCounter + cycles) % m == 0 then [n] else []
  }

  /** Tick `i` finds the decimation counter due: so many active cycles have passed, this one included. */
  predicate DueAt(d: ClientData<Hardware>, ticks: seq<Tick>, i: nat, m: uint32)
    requires i < |ticks| && m > 0
  {
    var a := d.client.receiveCounter;
    0 <= a < m && (a + ActiveCount(States(d, ticks[..i + 1]))) % m == 0
  }

  /** What a packet sent at tick `i` holds. */
  predicate FitsTick(p: CommandMsg, d: ClientData<Hardware>, ticks: seq<Tick>, i: nat, m: uint32)
    requires i < |ticks| && m > 0
  {
    Fits(p, Latest(d.monitoring, ticks[..i + 1]), ticks[i].interfaces, LastRead(d, ticks[..i + 1]),
         DueAt(d, ticks, i, m))
  }

  ghost predicate AllFit(d: ClientData<Hardware>, r: ClientData<Hardware>, ticks: seq<Tick>, m: uint32)
    requires m > 0
  {
    var senders := Senders(d, ticks, m);
    && Extends(d, r) && |r.attempts| == |d.attempts| + |senders|
    && forall j | 0 <= j < |senders| :: FitsTick(r.attempts[|d.attempts| + j].command, d, ticks, senders[j], m)
  }

  /** At most one more packet, which fits the last tick. */
  ghost predicate NextFits(d: ClientData<Hardware>, before: ClientData<Hardware>, r: ClientData<Hardware>,
                           ticks: seq<Tick>, m: uint32)
    requires m > 0 && ticks != []
  {
    var n := |ticks| - 1;
    var front, all := Senders(d, ticks[..n], m), Senders(d, ticks, m);
    && Extends(before, r)
    && if all == front then |r.attempts| == |before.attempts|
       else
         && all == front + [n] && |r.attempts| == |before.attempts| + 1
         && FitsTick(r.attempts[|before.attempts|].command, d, ticks, n, m)
  }

  /** Every packet of any regular run holds what the message, the interfaces and the counters of its own cycle call
      for: in commanding-active the position commands when the decimation counter is due, or the torque commands with
      corrected positions; before that the positions read last; while monitoring the commanded ones. */
  lemma {:induction false} PacketsFit(d: ClientData<Hardware>, ticks: seq<Tick>, m: uint32)
    requires RegularRun(d, ticks, m)
    requires d.lastSendCounter < m && 0 <= d.client.receiveCounter
    ensures AllFit(d, Ticks(d, ticks), ticks, m)
    decreases |ticks|
  {
    if ticks != [] {
      var n := |ticks| - 1;
      var before := Ticks(d, ticks[..n]);
      RegularFront(d, ticks, m);
      PacketsFit(d, ticks[..n], m);
      PacketsOfRun(d, ticks[..n], m);
      LastTickFits(d, before, ticks, m);
      OneMoreFits(d, before, Ticks(d, ticks), ticks, m);
    }
  }

  lemma OneMoreFits(d: ClientData<Hardware>, before: ClientData<Hardware>, r: ClientData<Hardware>, ticks: seq<Tick>,
                    m: uint32)
    requires m > 0 && ticks != []
    requires AllFit(d, before, ticks[..|ticks| - 1], m) && NextFits(d, before, r, ticks, m)
    ensures AllFit(d, r, ticks, m)
  {
    var n := |ticks| - 1;
    var front, all := Senders(d, ticks[..n], m), Senders(d, ticks, m);
    assert r.attempts[..|d.attempts|] == r.attempts[..|before.attempts|][..|d.attempts|];
    forall j | 0 <= j < |all|
      ensures FitsTick(r.attempts[|d.attempts| + j].command, d, ticks, all[j], m)
    {
      if j < |front| {
        assert r.attempts[..|before.attempts|][|d.attempts| + j] == before.attempts[|d.attempts| + j];
        assert FitsTick(before.attempts[|d.attempts| + j].command, d, ticks[..n], front[j], m);
        SameTick(before.attempts[|d.attempts| + j].command, d, ticks, front[j], m);
      }
    }
  }

  lemma SameTick(p: CommandMsg, d: ClientData<Hardware>, ticks: seq<Tick>, i: nat, m: uint32)
    requires m > 0 && i < |ticks| - 1 && FitsTick(p, d, ticks[..|ticks| - 1], i, m)
    ensures FitsTick(p, d, ticks, i, m)
  {
    assert ticks[..|ticks| - 1][..i + 1] == ticks[..i + 1];
  }

  lemma LastTickFits(d: ClientData<Hardware>, before: ClientData<Hardware>, ticks: seq<Tick>, m: uint32)
    requires ticks != [] && d.lastSendCounter < m && 0 <= d.client.receiveCounter
    requires before == Ticks(d, ticks[..|ticks| - 1]) && AfterRun(d, before, States(d, ticks[..|ticks| - 1]), m)
    requires Regular(before, ticks[|ticks| - 1], m)
    ensures NextFits(d, before, HardwareTick(before, ticks[|ticks| - 1]), ticks, m)
  {
    var n := |ticks| - 1;
    LastSender(d, before, ticks, m);
    if Answers(before, ticks[n]) {
      RegularTick(before, ticks[n], m);
      if before.lastSendCounter + 1 == m {
        TickFits(before, ticks[n], m);
        FitsInRun(d, before, ticks, HardwareTick(before, ticks[n]).attempts[|before.attempts|].command, m);
      }
    }
  }

  lemma LastSender(d: ClientData<Hardware>, before: ClientData<Hardware>, ticks: seq<Tick>, m: uint32)
    requires ticks != [] && m > 0 && before == Ticks(d, ticks[..|ticks| - 1])
    requires before.lastSendCounter == (d.lastSendCounter + |States(d, ticks[..|ticks| - 1])|) % m
    ensures var n := |ticks| - 1;
            && before.lastSendCounter < m
            && Senders(d, ticks, m) == Senders(d, ticks[..n], m)
                 + if Answers(before, ticks[n]) && before.lastSendCounter + 1 == m then [n] else []
  {
    var cycles := |States(d, ticks[..|ticks| - 1])|;
    LastCycle(d, before, ticks);
    SendsNext(d.lastSendCounter, cycles, m);
    NextSenders(d, ticks, m, cycles, Answers(before, ticks[|ticks| - 1]), before.lastSendCounter + 1 == m);
  }

  lemma NextSenders(d: ClientData<Hardware>, ticks: seq<Tick>, m: uint32, cycles: nat, answers: bool,
                    due: bool)
    requires ticks != [] && m > 0 && cycles == |States(d, ticks[..|ticks| - 1])|
    requires |States(d, ticks)| == cycles + if answers then 1 else 0
    requires due <==> (d.lastSendCounter + (cycles + 1)) % m == 0
    ensures var n := |ticks| - 1;
            Senders(d, ticks, m) == Senders(d, ticks[..n], m) + if answers && due then [n] else []
  {
  }

  lemma LastCycle(d: ClientData<Hardware>, before: ClientData<Hardware>, ticks: seq<Tick>)
    requires ticks != [] && before == Ticks(d, ticks[..|ticks| - 1])
    ensures |States(d, ticks)|
         == |States(d, ticks[..|ticks| - 1])| + if Answers(before, ticks[|ticks| - 1]) then 1 else 0
  {
    LastState(d, ticks);
  }

  lemma SendsNext(b: nat, n: nat, m: nat)
    requires m > 0
    ensures (b + n) % m < m && ((b + n) % m + 1 == m <==> (b + (n + 1)) % m == 0)
  {
    NextSendCounter(b, n, m);
  }

  /** What the last tick goes by, told from the run. */
  lemma FitsInRun(d: ClientData<Hardware>, before: ClientData<Hardware>, ticks: seq<Tick>, p: CommandMsg, m: uint32)
    requires ticks != [] && m > 0 && 0 <= d.client.receiveCounter
    requires before == Ticks(d, ticks[..|ticks| - 1])
    requires before.client.receiveCounter
          == CounterAfter(d.client.receiveCounter, ActiveCount(States(d, ticks[..|ticks| - 1])), m)
    requires var t := ticks[|ticks| - 1];
             var message := InEffect(before, t);
             Answers(before, t)
             && Fits(p, message, t.interfaces,
                     if t.gated then message.measuredPosition else before.client.positionStates,
                     before.client.receiveCounter + 1 == m)
    ensures FitsTick(p, d, ticks, |ticks| - 1, m)
  {
    assert ticks[..|ticks| - 1 + 1] == ticks;
    LastMessage(d, before, ticks);
    if InEffect(before, ticks[|ticks| - 1]).sessionState == CommandingActive {
      LastIsDue(d, before, ticks, m);
    }
  }

  lemma LastMessage(d: ClientData<Hardware>, before: ClientData<Hardware>, ticks: seq<Tick>)
    requires ticks != [] && before == Ticks(d, ticks[..|ticks| - 1]) && Answers(before, ticks[|ticks| - 1])
    ensures var t := ticks[|ticks| - 1];
            var message := InEffect(before, t);
            && message == Latest(d.monitoring, ticks)
            && LastRead(d, ticks) == if t.gated then message.measuredPosition else before.client.positionStates
  {
    MessagesOfRun(d, ticks[..|ticks| - 1]);
    MessageOfTick(before, ticks[|ticks| - 1]);
    PositionsOfRun(d, ticks[..|ticks| - 1]);
  }

  lemma LastIsDue(d: ClientData<Hardware>, before: ClientData<Hardware>, ticks: seq<Tick>, m: uint32)
    requires ticks != [] && m > 0 && 0 <= d.client.receiveCounter
    requires before == Ticks(d, ticks[..|ticks| - 1]) && Answers(before, ticks[|ticks| - 1])
    requires before.client.receiveCounter
          == CounterAfter(d.client.receiveCounter, ActiveCount(States(d, ticks[..|ticks| - 1])), m)
    requires InEffect(before, ticks[|ticks| - 1]).sessionState == CommandingActive
    ensures before.client.receiveCounter + 1 == m <==> DueAt(d, ticks, |ticks| - 1, m)
  {
    assert ticks[..|ticks| - 1 + 1] == ticks;
    ActiveOnce(d, before, ticks);
    NextSendCounter(d.client.receiveCounter, ActiveCount(States(d, ticks[..|ticks| - 1])), m);
  }

  lemma ActiveOnce(d: ClientData<Hardware>, before: ClientData<Hardware>, ticks: seq<Tick>)
    requires ticks != [] && before == Ticks(d, ticks[..|ticks| - 1]) && Answers(before, ticks[|ticks| - 1])
    requires InEffect(before, ticks[|ticks| - 1]).sessionState == CommandingActive
    ensures ActiveCount(States(d, ticks)) == ActiveCount(States(d, ticks[..|ticks| - 1])) + 1
  {
    var states := States(d, ticks[..|ticks| - 1]);
    LastState(d, ticks);
    assert (states + [CommandingActive])[..|states|] == states;
  }
}
