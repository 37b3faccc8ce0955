/** The FRI client application: the SDK's single-call step, and the read / update / write form
    the hardware interface drives. Both are stated for any client whatsoever. */
module FriClientApplication {
  import opened Words
  import opened FriMessages

  datatype Callback =
    | OnStateChange(oldState: SessionState, newState: SessionState)
    | Monitor
    | WaitForCommand
    | Command
    | Provide

  /** What a callback does: the client's own state and the command message afterwards, or an FRIException. */
  datatype Outcome<+C> = Outcome(client: C, command: CommandMsg, error: Option<IoError>)

  datatype Client<!C> = Client(
    call: (Callback, C, MonitoringMsg, CommandMsg) -> Outcome<C>,
    hasTransformationClient: bool)

  datatype Delivery = NotEncoded | NotSent | Delivered

  /** A command message stamped with its sequence counters, and what became of it. */
  datatype Attempt = Attempt(command: CommandMsg, delivery: Delivery)

  datatype ClientData<+C> = ClientData(
    monitoring: MonitoringMsg,
    command: CommandMsg,
    lastState: SessionState,
    sequenceCounter: uint32,
    lastSendCounter: uint32,
    expectedMonitorMsgID: uint32,
    client: C,
    attempts: seq<Attempt>)

  /** What the connection and the codec answer during one cycle. A failed decoding may still have
      overwritten the monitoring message. */
  datatype Network = Network(
    openAtRead: bool,
    received: int,
    decoded: MonitoringMsg,
    decodeOk: bool,
    encodeOk: bool,
    openAtWrite: bool,
    sendOk: bool)

  datatype CycleResult = Finished(ok: bool) | Threw(error: IoError)

  // ----- read; update; write -----

  function Read<C>(d: ClientData<C>, net: Network): (ClientData<C>, bool) {
    if !net.openAtRead || net.received <= 0 then (d, false)
    else
      var d' := d.(monitoring := net.decoded);
      (d', net.decodeOk && d.expectedMonitorMsgID == net.decoded.identifier)
  }

  /** Report a change of session state; an exception leaves the last state as it was. */
  function Notify<C>(k: Client<C>, d: ClientData<C>): (ClientData<C>, Option<IoError>) {
    var current := d.monitoring.sessionState;
    if d.lastState == current then (d, None)
    else
      var o := (k.call)(OnStateChange(d.lastState, current), d.client, d.monitoring, d.command);
      var d' := d.(client := o.client, command := o.command);
      if o.error.Some? then (d', o.error) else (d'.(lastState := current), None)
  }

  function CallbackFor(state: SessionState): Callback
    requires !Silent(state)
  {
    match state
    case MonitoringWait => Monitor
    case MonitoringReady => Monitor
    case CommandingWait => WaitForCommand
    case CommandingActive => Command
  }

  function Invoke<C>(k: Client<C>, d: ClientData<C>, callback: Callback): (ClientData<C>, Option<IoError>) {
    var o := (k.call)(callback, d.client, d.monitoring, d.command);
    (d.(client := o.client, command := o.command), o.error)
  }

  function Update<C>(k: Client<C>, d: ClientData<C>): (ClientData<C>, Option<IoError>) {
    var (d1, e1) := Notify(k, d.(command := Reset(d.command)));
    if e1.Some? || Silent(d1.monitoring.sessionState) then (d1, e1)
    else
      var (d2, e2) := Invoke(k, d1, CallbackFor(d1.monitoring.sessionState));
      if e2.Some? || !k.hasTransformationClient then (d2, e2)
      else Invoke(k, d2, Provide)
  }

  /** The message with the sequence counters it is sent with. */
  function Stamped<C>(d: ClientData<C>): CommandMsg {
    d.command.(sequenceCounter := d.sequenceCounter,
               reflectedSequenceCounter := d.monitoring.sequenceCounter)
  }

  function Write<C>(d: ClientData<C>, net: Network): (ClientData<C>, bool) {
    var count := Inc32(d.lastSendCounter);
    if count < d.monitoring.receiveMultiplier then (d.(lastSendCounter := count), true)
    else
      var stamped := Stamped(d);
      var delivery := if !net.encodeOk then NotEncoded
                      else if !net.openAtWrite then NotSent
                      else if !net.sendOk then NotSent
                      else Delivered;
      (d.(lastSendCounter := 0, command := stamped, sequenceCounter := Inc32(d.sequenceCounter),
          attempts := d.attempts + [Attempt(stamped, delivery)]),
       delivery.Delivered?)
  }

  /** One control cycle of the hardware interface: write is skipped when nothing was read. */
  function SplitCycle<C>(k: Client<C>, d: ClientData<C>, net: Network): (ClientData<C>, CycleResult) {
    var (d1, readOk) := Read(d, net);
    if !readOk then (d1, Finished(false))
    else
      var (d2, error) := Update(k, d1);
      if error.Some? then (d2, Threw(error.value))
      else
        var (d3, writeOk) := Write(d2, net);
        (d3, Finished(writeOk))
  }

  // ----- step -----

  /** Sending through a connection that is closed, or whose socket refuses, fails. */
  predicate UdpSend(net: Network) {
    net.openAtWrite && net.sendOk
  }

  function Step<C>(k: Client<C>, d: ClientData<C>, net: Network): (ClientData<C>, CycleResult) {
    if !net.openAtRead then (d, Finished(false))
    else if net.received <= 0 then (d, Finished(false))
    else
      var d0 := d.(monitoring := net.decoded);
      if !net.decodeOk then (d0, Finished(false))
      else if d0.expectedMonitorMsgID != d0.monitoring.identifier then (d0, Finished(false))
      else
        var (d1, e1) := Notify(k, d0.(command := Reset(d0.command)));
        if e1.Some? then (d1, Threw(e1.value))
        else
          match d1.monitoring.sessionState
          case MonitoringWait => StepAnswer(k, Invoke(k, d1, Monitor), net)
          case MonitoringReady => StepAnswer(k, Invoke(k, d1, Monitor), net)
          case CommandingWait => StepAnswer(k, Invoke(k, d1, WaitForCommand), net)
          case CommandingActive => StepAnswer(k, Invoke(k, d1, Command), net)
          case Idle => (d1, Finished(true))
          case OtherState(_) => (d1, Finished(true))
  }

  /** The rest of step once the robot client's callback has returned. */
  function StepAnswer<C>(k: Client<C>, called: (ClientData<C>, Option<IoError>), net: Network)
    : (ClientData<C>, CycleResult)
  {
    if called.1.Some? then (called.0, Threw(called.1.value))
    else
      var (d, error) := if k.hasTransformationClient then Invoke(k, called.0, Provide) else (called.0, None);
      if error.Some? then (d, Threw(error.value))
      else
        var counter := (d.lastSendCounter + 1) % TWO_TO_THE_32;
        if counter >= d.monitoring.receiveMultiplier then
          var sent := d.(
            lastSendCounter := 0,
            command := d.command.(sequenceCounter := d.sequenceCounter,
                                  reflectedSequenceCounter := d.monitoring.sequenceCounter),
            sequenceCounter := (d.sequenceCounter + 1) % TWO_TO_THE_32);
          if !net.encodeOk then
            (sent.(attempts := d.attempts + [Attempt(sent.command, NotEncoded)]), Finished(false))
          else if !UdpSend(net) then
            (sent.(attempts := d.attempts + [Attempt(sent.command, NotSent)]), Finished(false))
          else
            (sent.(attempts := d.attempts + [Attempt(sent.command, Delivered)]), Finished(true))
        else
          (d.(lastSendCounter := counter), Finished(true))
  }

  // ----- one cycle: where the two forms part -----

  /** The cycle read a message of a state that has nothing to answer, and the client was told without failing. */
  predicate SilentCycle<C>(k: Client<C>, d: ClientData<C>, net: Network) {
    var (d1, readOk) := Read(d, net);
    readOk && Silent(d1.monitoring.sessionState) && Notify(k, d1.(command := Reset(d1.command))).1 == None
  }

  /** The split form is `step`, for every client, message and connection behaviour, except exactly in silent cycles. */
  lemma CycleIsStep<C>(k: Client<C>, d: ClientData<C>, net: Network)
    ensures SplitCycle(k, d, net) == Step(k, d, net) <==> !SilentCycle(k, d, net)
  {
    var (d1, readOk) := Read(d, net);
    if SilentCycle(k, d, net) {
      SilentCycleDiffers(k, d, net);
    } else if readOk {
      var (d2, error) := Notify(k, d1.(command := Reset(d1.command)));
      if error == None {
        assert !Silent(d2.monitoring.sessionState);
        var called := Invoke(k, d2, CallbackFor(d2.monitoring.sessionState));
        assert Step(k, d, net) == StepAnswer(k, called, net);
        AnswerIsWrite(k, called, net);
      }
    }
  }

  lemma AnswerIsWrite<C>(k: Client<C>, called: (ClientData<C>, Option<IoError>), net: Network)
    ensures var (d, error) := if called.1.Some? || !k.hasTransformationClient then called
                              else Invoke(k, called.0, Provide);
            StepAnswer(k, called, net) ==
            if error.Some? then (d, Threw(error.value)) else (Write(d, net).0, Finished(Write(d, net).1))
  {
  }

  /** In a silent cycle `step` leaves the counters alone and sends nothing; the split form counts the cycle
      and, when the counter reaches the multiplier, sends one more packet. Nothing else differs. */
  lemma SilentCycleDiffers<C>(k: Client<C>, d: ClientData<C>, net: Network)
    requires SilentCycle(k, d, net)
    ensures var (s, sr) := Step(k, d, net);
            var (p, pr) := SplitCycle(k, d, net);
            && sr == Finished(true)
            && s.attempts == d.attempts
            && s.sequenceCounter == d.sequenceCounter && s.lastSendCounter == d.lastSendCounter
            && (if Inc32(d.lastSendCounter) < net.decoded.receiveMultiplier
                then p == s.(lastSendCounter := Inc32(d.lastSendCounter)) && pr == sr
                else
                  && |p.attempts| == |d.attempts| + 1 && p.attempts[..|d.attempts|] == d.attempts
                  && p.attempts[|d.attempts|].command == Stamped(s)
                  && p == s.(lastSendCounter := 0, sequenceCounter := Inc32(d.sequenceCounter),
                             command := Stamped(s), attempts := p.attempts))
            && p != s
  {
    var (d1, _) := Read(d, net);
    var (s, _) := Notify(k, d1.(command := Reset(d1.command)));
    assert Step(k, d, net) == (s, Finished(true));
    assert SplitCycle(k, d, net).0 == Write(s, net).0;
    IncrementMoves(s.lastSendCounter);
    IncrementMoves(s.sequenceCounter);
  }

  lemma IncrementMoves(x: uint32)
    ensures Inc32(x) != x
  {
  }

  /** A client that does not touch the message when told of a state change, as the SDK's own does. */
  ghost predicate QuietOnStateChange<C(!new)>(k: Client<C>) {
    forall a, b, c: C, m, msg ::
      (k.call)(OnStateChange(a, b), c, m, msg) == Outcome(c, msg, None)
  }

  /** For such a client the extra packet of a silent cycle carries no command data. */
  lemma SilentPacketIsEmpty<C(!new)>(k: Client<C>, d: ClientData<C>, net: Network)
    requires QuietOnStateChange(k) && SilentCycle(k, d, net)
    ensures var p := SplitCycle(k, d, net).0;
            |p.attempts| > |d.attempts| ==> !p.attempts[|d.attempts|].command.hasCommandData
  {
    var (d1, _) := Read(d, net);
    var reset := d1.(command := Reset(d1.command));
    assert !Notify(k, reset).0.command.hasCommandData;
    SilentCycleDiffers(k, d, net);
  }

  // ----- what a client is told -----

  /** Note what the client is called for, and count the calls in the message. */
  function Note(c: Callback, log: seq<Callback>, m: MonitoringMsg, message: CommandMsg): Outcome<seq<Callback>> {
    Outcome(log + [c], message.(transformationCount := message.transformationCount + 1), None)
  }

  /** The calls for a message in `state` that comes after one in `last`. */
  function CallsFor(last: SessionState, state: SessionState, transformation: bool): seq<Callback> {
    (if state == last then [] else [OnStateChange(last, state)])
    + (match state
       case MonitoringWait => [Monitor]
       case MonitoringReady => [Monitor]
       case CommandingWait => [WaitForCommand]
       case CommandingActive => [Command]
       case Idle => []
       case OtherState(_) => [])
    + if transformation && !state.Idle? && !state.OtherState? then [Provide] else []
  }

  function StateAfter(last: SessionState, messages: seq<MonitoringMsg>): SessionState {
    if messages == [] then last else messages[|messages| - 1].sessionState
  }

  function CallsOf(last: SessionState, messages: seq<MonitoringMsg>, transformation: bool): seq<Callback> {
    if messages == [] then []
    else
      var n := |messages| - 1;
      CallsOf(last, messages[..n], transformation)
        + CallsFor(StateAfter(last, messages[..n]), messages[n].sessionState, transformation)
  }

  function Updated<C>(k: Client<C>, d: ClientData<C>, messages: seq<MonitoringMsg>): ClientData<C> {
    if messages == [] then d
    else
      var n := |messages| - 1;
      Update(k, Updated(k, d, messages[..n]).(monitoring := messages[n])).0
  }

  /** Over any messages the client is told of every change of the session state, each report beginning with the state
      the one before ended with, and called for every state that is not silent. What it writes into the message at one
      call is there at the next, and nothing is from an update before. */
  lemma {:induction false} ClientIsTold(d: ClientData<seq<Callback>>, messages: seq<MonitoringMsg>,
                                        transformation: bool)
    ensures var r := Updated(Client(Note, transformation), d, messages);
            && r.client == d.client + CallsOf(d.lastState, messages, transformation)
            && r.lastState == StateAfter(d.lastState, messages)
            && (messages != [] ==>
                  var before := StateAfter(d.lastState, messages[..|messages| - 1]);
                  r.command.transformationCount == |CallsFor(before, r.lastState, transformation)|)
    decreases |messages|
  {
    if messages != [] {
      var n := |messages| - 1;
      ClientIsTold(d, messages[..n], transformation);
      var before := Updated(Client(Note, transformation), d, messages[..n]);
      OneUpdate(before.(monitoring := messages[n]), transformation);
      InTurn(d.client, CallsOf(d.lastState, messages[..n], transformation),
             CallsFor(StateAfter(d.lastState, messages[..n]), messages[n].sessionState, transformation));
    }
  }

  lemma InTurn<T>(a: seq<T>, b: seq<T>, c: seq<T>)
    ensures a + (b + c) == a + b + c
  {
  }

  lemma OneUpdate(d: ClientData<seq<Callback>>, transformation: bool)
    ensures var (r, error) := Update(Client(Note, transformation), d);
            && r.client == d.client + CallsFor(d.lastState, d.monitoring.sessionState, transformation)
            && r.lastState == d.monitoring.sessionState && error == None
            && r.command.transformationCount == |CallsFor(d.lastState, d.monitoring.sessionState, transformation)|
  {
  }

  /** A report that throws is made again with the next message, because the last state stays what it was. */
  lemma FailedReportIsRepeated<C>(k: Client<C>, d: ClientData<C>)
    requires Notify(k, d).1.Some?
    ensures var (r, _) := Notify(k, d);
            r.lastState == d.lastState != d.monitoring.sessionState && r.monitoring == d.monitoring
  {
  }

  // ----- whole runs -----

  /** Before a cycle the client's own state may have been changed by anyone. */
  datatype CycleInput<+C> = CycleInput(client: Option<C>, net: Network)

  function Prepared<C>(d: ClientData<C>, input: CycleInput<C>): ClientData<C> {
    if input.client.Some? then d.(client := input.client.value) else d
  }

  function SplitRun<C>(k: Client<C>, d: ClientData<C>, inputs: seq<CycleInput<C>>): (ClientData<C>, seq<CycleResult>) {
    if inputs == [] then (d, [])
    else
      var (before, results) := SplitRun(k, d, inputs[..|inputs| - 1]);
      var (after, result) := SplitCycle(k, Prepared(before, inputs[|inputs| - 1]), inputs[|inputs| - 1].net);
      (after, results + [result])
  }

  function StepRun<C>(k: Client<C>, d: ClientData<C>, inputs: seq<CycleInput<C>>): (ClientData<C>, seq<CycleResult>) {
    if inputs == [] then (d, [])
    else
      var (before, results) := StepRun(k, d, inputs[..|inputs| - 1]);
      var (after, result) := Step(k, Prepared(before, inputs[|inputs| - 1]), inputs[|inputs| - 1].net);
      (after, results + [result])
  }

  /** Cycle number `n` of the reference run is silent. */
  predicate SilentAt<C>(k: Client<C>, d: ClientData<C>, inputs: seq<CycleInput<C>>, n: nat)
    requires n < |inputs|
  {
    SilentCycle(k, Prepared(StepRun(k, d, inputs[..n]).0, inputs[n]), inputs[n].net)
  }

  ghost predicate AgreeUpTo<C>(k: Client<C>, d: ClientData<C>, inputs: seq<CycleInput<C>>, n: nat)
    requires n <= |inputs|
  {
    SplitRun(k, d, inputs[..n]) == StepRun(k, d, inputs[..n])
  }

  /** Two runs of the same inputs agree at every moment - data, packets and results - exactly when
      no cycle of the reference run is silent. */
  lemma {:induction false} RunsAgree<C>(k: Client<C>, d: ClientData<C>, inputs: seq<CycleInput<C>>)
    ensures (forall n | 0 <= n <= |inputs| :: AgreeUpTo(k, d, inputs, n))
            <==> (forall n | 0 <= n < |inputs| :: !SilentAt(k, d, inputs, n))
  {
    if forall n | 0 <= n <= |inputs| :: AgreeUpTo(k, d, inputs, n) {
      forall n | 0 <= n < |inputs|
        ensures !SilentAt(k, d, inputs, n)
      {
        assert AgreeUpTo(k, d, inputs, n) && AgreeUpTo(k, d, inputs, n + 1);
        LastCycle(k, d, inputs, n);
      }
    }
    if forall n | 0 <= n < |inputs| :: !SilentAt(k, d, inputs, n) {
      var n := 0;
      while n < |inputs|
        invariant 0 <= n <= |inputs|
        invariant forall i | 0 <= i <= n :: AgreeUpTo(k, d, inputs, i)
      {
        assert AgreeUpTo(k, d, inputs, n) && !SilentAt(k, d, inputs, n);
        LastCycle(k, d, inputs, n);
        n := n + 1;
      }
    }
  }

  /** Runs that agreed before a cycle agree after it exactly when the cycle is not silent. */
  lemma LastCycle<C>(k: Client<C>, d: ClientData<C>, inputs: seq<CycleInput<C>>, n: nat)
    requires n < |inputs| && AgreeUpTo(k, d, inputs, n)
    ensures AgreeUpTo(k, d, inputs, n + 1) <==> !SilentAt(k, d, inputs, n)
  {
    assert inputs[..n + 1][..n] == inputs[..n];
    var (before, results) := StepRun(k, d, inputs[..n]);
    CycleIsStep(k, Prepared(before, inputs[n]), inputs[n].net);
    var (a, ra) := SplitCycle(k, Prepared(before, inputs[n]), inputs[n].net);
    var (b, rb) := Step(k, Prepared(before, inputs[n]), inputs[n].net);
    assert SplitRun(k, d, inputs[..n + 1]) == (a, results + [ra]);
    assert StepRun(k, d, inputs[..n + 1]) == (b, results + [rb]);
    assert (results + [ra])[|results|] == ra && (results + [rb])[|results|] == rb;
  }

  // ----- the send schedule -----

  /** One call of write, with whatever monitoring message, command and connection it finds. */
  datatype WriteCall = WriteCall(monitoring: MonitoringMsg, command: CommandMsg, net: Network)

  function WriteRun<C>(d: ClientData<C>, calls: seq<WriteCall>): ClientData<C> {
    if calls == [] then d
    else
      var before := WriteRun(d, calls[..|calls| - 1]);
      var call := calls[|calls| - 1];
      Write(before.(monitoring := call.monitoring, command := call.command), call.net).0
  }

  /** Attempt `j` is numbered `j` after the first and reflects the message of the call that completes period `j`. */
  ghost predicate OnSchedule<C>(d: ClientData<C>, calls: seq<WriteCall>, m: uint32, j: nat, sent: CommandMsg) {
    var at := (j + 1) * m - d.lastSendCounter - 1;
    && sent.sequenceCounter == (d.sequenceCounter + j) % TWO_TO_THE_32
    && 0 <= at < |calls|
    && sent.reflectedSequenceCounter == calls[at].monitoring.sequenceCounter
  }

  /** The application `r` after `calls`, started from `d` with multiplier `m`. */
  ghost predicate Scheduled<C>(d: ClientData<C>, calls: seq<WriteCall>, m: uint32, r: ClientData<C>)
    requires m > 0
  {
    && r.lastSendCounter == (d.lastSendCounter + |calls|) % m
    && |r.attempts| == (d.lastSendCounter + |calls|) / m
    && r.sequenceCounter == (d.sequenceCounter + |r.attempts|) % TWO_TO_THE_32
    && (forall j | 0 <= j < |r.attempts| :: OnSchedule(d, calls, m, j, r.attempts[j].command))
  }

  /** With a constant multiplier `m`, started `b` calls into a period, `t` calls make `(b + t) / m`
      attempts. They are numbered consecutively, and attempt `j` reflects the message of call `(j + 1) m - b - 1`. */
  lemma {:induction false} SendSchedule<C>(d: ClientData<C>, calls: seq<WriteCall>, m: uint32)
    requires d.lastSendCounter < m && d.attempts == []
    requires forall c | c in calls :: c.monitoring.receiveMultiplier == m
    ensures Scheduled(d, calls, m, WriteRun(d, calls))
  {
    if calls == [] {
      DivisionIsUnique(d.lastSendCounter, m, 0, d.lastSendCounter);
    } else {
      var front := calls[..|calls| - 1];
      assert forall c | c in front :: c in calls;
      assert calls[|calls| - 1] in calls;
      SendSchedule(d, front, m);
      ScheduleStep(d, calls, m, WriteRun(d, front));
    }
  }

  lemma ScheduleStep<C>(d: ClientData<C>, calls: seq<WriteCall>, m: uint32, before: ClientData<C>)
    requires calls != [] && d.lastSendCounter < m == calls[|calls| - 1].monitoring.receiveMultiplier
    requires Scheduled(d, calls[..|calls| - 1], m, before)
    ensures var call := calls[|calls| - 1];
            Scheduled(d, calls, m, Write(before.(monitoring := call.monitoring, command := call.command), call.net).0)
  {
    var call := calls[|calls| - 1];
    var after := Write(before.(monitoring := call.monitoring, command := call.command), call.net).0;
    NextInPeriod(d.lastSendCounter + |calls| - 1, m);
    OneWrite(before, call, m);
    NextNumber(d.sequenceCounter, |before.attempts|);
    ScheduleExtends(d, calls, m, before, after);
  }

  lemma NextNumber(first: uint32, n: nat)
    ensures ((first + n) % TWO_TO_THE_32 + 1) % TWO_TO_THE_32 == (first + (n + 1)) % TWO_TO_THE_32
  {
  }

  lemma ScheduleExtends<C>(d: ClientData<C>, calls: seq<WriteCall>, m: uint32, before: ClientData<C>,
                           after: ClientData<C>)
    requires calls != [] && |before.attempts| <= |after.attempts| <= |before.attempts| + 1
    requires forall j | 0 <= j < |before.attempts| ::
               && OnSchedule(d, calls[..|calls| - 1], m, j, before.attempts[j].command)
               && after.attempts[j] == before.attempts[j]
    requires |after.attempts| > |before.attempts| ==>
               var sent := after.attempts[|before.attempts|].command;
               && |after.attempts| * m == d.lastSendCounter + |calls|
               && sent.sequenceCounter == (d.sequenceCounter + |before.attempts|) % TWO_TO_THE_32
               && sent.reflectedSequenceCounter == calls[|calls| - 1].monitoring.sequenceCounter
    ensures forall j | 0 <= j < |after.attempts| :: OnSchedule(d, calls, m, j, after.attempts[j].command)
  {
    forall j | 0 <= j < |after.attempts|
      ensures OnSchedule(d, calls, m, j, after.attempts[j].command)
    {
      if j < |before.attempts| {
        assert OnSchedule(d, calls[..|calls| - 1], m, j, before.attempts[j].command);
      }
    }
  }

  /** One write either counts up, or closes the period and stamps one message. */
  lemma OneWrite<C>(d: ClientData<C>, call: WriteCall, m: uint32)
    requires d.lastSendCounter < m == call.monitoring.receiveMultiplier
    ensures var r := Write(d.(monitoring := call.monitoring, command := call.command), call.net).0;
            if d.lastSendCounter + 1 < m
            then
              && r.lastSendCounter == d.lastSendCounter + 1
              && r.attempts == d.attempts && r.sequenceCounter == d.sequenceCounter
            else
              && r.lastSendCounter == 0
              && |r.attempts| == |d.attempts| + 1
              && (forall i | 0 <= i < |d.attempts| :: r.attempts[i] == d.attempts[i])
              && r.attempts[|d.attempts|].command.sequenceCounter == d.sequenceCounter
              && r.attempts[|d.attempts|].command.reflectedSequenceCounter == call.monitoring.sequenceCounter
              && r.sequenceCounter == (d.sequenceCounter + 1) % TWO_TO_THE_32
  {
  }

  lemma NextInPeriod(x: nat, m: nat)
    requires m > 0
    ensures x % m + 1 < m ==> (x + 1) / m == x / m && (x + 1) % m == x % m + 1
    ensures x % m + 1 == m ==> (x + 1) / m == x / m + 1 && (x + 1) % m == 0 && (x / m + 1) * m == x + 1
  {
    var q, r := x / m, x % m;
    assert x == q * m + r;
    if r + 1 < m {
      DivisionIsUnique(x + 1, m, q, r + 1);
    } else {
      assert (q + 1) * m == q * m + m;
      DivisionIsUnique(x + 1, m, q + 1, 0);
    }
  }

  lemma DivisionIsUnique(x: int, m: nat, q: int, r: nat)
    requires m > 0 && r < m && x == q * m + r
    ensures x / m == q && x % m == r
  {
    var k: int := x / m - q;
    assert k * m == (x / m) * m - q * m;
    assert 0 < k * m + m < 2 * m;
    assert k >= 1 ==> k * m >= m;
    assert k <= -1 ==> k * m + m <= 0;
  }

  // ----- the object -----

  /** The application object of the hardware interface, updating its data in place. */
  class HwifClientApplication<C> {
    const client: Client<C>
    var monitoring: MonitoringMsg
    var command: CommandMsg
    var lastState: SessionState
    var sequenceCounter: uint32
    var lastSendCounter: uint32
    const expectedMonitorMsgID: uint32
    var clientState: C
    var attempts: seq<Attempt>

    ghost function Data(): ClientData<C>
      reads this
    {
      ClientData(monitoring, command, lastState, sequenceCounter, lastSendCounter, expectedMonitorMsgID,
                 clientState, attempts)
    }

    constructor (client: Client<C>, clientState: C, monitoring: MonitoringMsg, command: CommandMsg, id: uint32)
      ensures Data() == ClientData(monitoring, command, Idle, 0, 0, id, clientState, [])
      ensures this.client == client
    {
      this.client := client;
      this.clientState := clientState;
      this.monitoring, this.command := monitoring, command;
      lastState := Idle;
      sequenceCounter, lastSendCounter := 0, 0;
      expectedMonitorMsgID := id;
      attempts := [];
    }

    method ClientAppRead(net: Network) returns (ok: bool)
      modifies this
      ensures (Data(), ok) == Read(old(Data()), net)
    {
      if !net.openAtRead {
        return false;
      }
      if net.received <= 0 {
        return false;
      }
      monitoring := net.decoded;
      if !net.decodeOk {
        return false;
      }
      if expectedMonitorMsgID != monitoring.identifier {
        return false;
      }
      return true;
    }

    method Notified() returns (error: Option<IoError>)
      modifies this
      ensures (Data(), error) == Notify(client, old(Data()))
    {
      error := None;
      var currentState := monitoring.sessionState;
      if lastState != currentState {
        error := Called(OnStateChange(lastState, currentState));
        if error == None {
          lastState := currentState;
        }
      }
    }

    method Called(callback: Callback) returns (error: Option<IoError>)
      modifies this
      ensures (Data(), error) == Invoke(client, old(Data()), callback)
    {
      var o := (client.call)(callback, clientState, monitoring, command);
      clientState, command := o.client, o.command;
      return o.error;
    }

    method ClientAppUpdate() returns (error: Option<IoError>)
      modifies this
      ensures (Data(), error) == Update(client, old(Data()))
    {
      command := Reset(command);
      error := Notified();
      if error.Some? {
        return;
      }
      match monitoring.sessionState {
        case MonitoringWait => error := Called(Monitor);
        case MonitoringReady => error := Called(Monitor);
        case CommandingWait => error := Called(WaitForCommand);
        case CommandingActive => error := Called(Command);
        case Idle => return;
        case OtherState(_) => return;
      }
      if error == None && client.hasTransformationClient {
        error := Called(Provide);
      }
    }

    method ClientAppWrite(net: Network) returns (ok: bool)
      modifies this
      ensures (Data(), ok) == Write(old(Data()), net)
    {
      lastSendCounter := Inc32(lastSendCounter);
      if lastSendCounter >= monitoring.receiveMultiplier {
        lastSendCounter := 0;
        command := command.(sequenceCounter := sequenceCounter,
                            reflectedSequenceCounter := monitoring.sequenceCounter);
        sequenceCounter := Inc32(sequenceCounter);
        if !net.encodeOk {
          attempts := attempts + [Attempt(command, NotEncoded)];
          return false;
        }
        if !net.openAtWrite {
          attempts := attempts + [Attempt(command, NotSent)];
          return false;
        }
        if !net.sendOk {
          attempts := attempts + [Attempt(command, NotSent)];
          return false;
        }
        attempts := attempts + [Attempt(command, Delivered)];
      }
      return true;
    }
  }
}
