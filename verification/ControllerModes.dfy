/** Which controllers run in which control mode: name lookup, parameter access rights and mode switching. */
module ControllerModes {
  import opened Words
  import opened RobotManager

  const CONTROL_MODE_UNSPECIFIED: uint8 := 0
  const JOINT_POSITION_CONTROL: uint8 := 1
  const JOINT_IMPEDANCE_CONTROL: uint8 := 2
  const JOINT_VELOCITY_CONTROL: uint8 := 3
  const JOINT_TORQUE_CONTROL: uint8 := 4
  const CARTESIAN_POSITION_CONTROL: uint8 := 5
  const CARTESIAN_IMPEDANCE_CONTROL: uint8 := 6
  const CARTESIAN_VELOCITY_CONTROL: uint8 := 7
  const WRENCH_CONTROL: uint8 := 8

  const JOINT_POSITION_CONTROLLER_TYPE: uint8 := 0
  const CARTESIAN_POSITION_CONTROLLER_TYPE: uint8 := 1
  const JOINT_IMPEDANCE_CONTROLLER_TYPE: uint8 := 2
  const CARTESIAN_IMPEDANCE_CONTROLLER_TYPE: uint8 := 3
  const TORQUE_CONTROLLER_TYPE: uint8 := 4
  const WRENCH_CONTROLLER_TYPE: uint8 := 5
  const JOINT_VELOCITY_CONTROLLER_TYPE: uint8 := 6
  const TWIST_CONTROLLER_TYPE: uint8 := 7

  const JOINT_STATE_BROADCASTER := "joint_state_broadcaster"
  const CONTROL_MODE_HANDLER := "control_mode_handler"
  const EVENT_BROADCASTER := "event_broadcaster"

  /** The controllers that run while the node is configured. */
  const CONFIGURATION: set<string> := {CONTROL_MODE_HANDLER, EVENT_BROADCASTER}

  /** The controllers with fixed names, which no parameter should name. */
  const RESERVED: set<string> := CONFIGURATION + {JOINT_STATE_BROADCASTER}

  // ----- the controller handler -----

  datatype ControllerTypes = ControllerTypes(standard: string, impedance: string)

  /** A mode without an entry has never been given a name. */
  type Table = map<uint8, ControllerTypes>

  function Entry(table: Table, mode: uint8): ControllerTypes {
    if mode in table then table[mode] else ControllerTypes("", "")
  }

  function WithStandard(table: Table, mode: uint8, name: string): Table {
    table[mode := Entry(table, mode).(standard := name)]
  }

  function WithImpedance(table: Table, mode: uint8, name: string): Table {
    table[mode := Entry(table, mode).(impedance := name)]
  }

  /** The modes whose standard controller is of a type; the impedance controllers come on top. */
  function StandardModes(controllerType: uint8): set<uint8> {
    if controllerType == JOINT_POSITION_CONTROLLER_TYPE then {JOINT_POSITION_CONTROL, JOINT_IMPEDANCE_CONTROL}
    else if controllerType == CARTESIAN_POSITION_CONTROLLER_TYPE
    then {CARTESIAN_POSITION_CONTROL, CARTESIAN_IMPEDANCE_CONTROL}
    else if controllerType == JOINT_VELOCITY_CONTROLLER_TYPE then {JOINT_VELOCITY_CONTROL}
    else if controllerType == TWIST_CONTROLLER_TYPE then {CARTESIAN_VELOCITY_CONTROL}
    else if controllerType == TORQUE_CONTROLLER_TYPE then {JOINT_TORQUE_CONTROL}
    else if controllerType == WRENCH_CONTROLLER_TYPE then {WRENCH_CONTROL}
    else {}
  }

  function ImpedanceModes(controllerType: uint8): set<uint8> {
    if controllerType == JOINT_IMPEDANCE_CONTROLLER_TYPE then {JOINT_IMPEDANCE_CONTROL}
    else if controllerType == CARTESIAN_IMPEDANCE_CONTROLLER_TYPE then {CARTESIAN_IMPEDANCE_CONTROL}
    else {}
  }

  function Renamed(table: Table, controllerType: uint8, name: string): Table {
    map mode | mode in table.Keys + StandardModes(controllerType) + ImpedanceModes(controllerType) ::
      ControllerTypes(if mode in StandardModes(controllerType) then name else Entry(table, mode).standard,
                      if mode in ImpedanceModes(controllerType) then name else Entry(table, mode).impedance)
  }

  function Names(entry: ControllerTypes): seq<string> {
    [entry.standard] + (if entry.impedance == "" then [] else [entry.impedance])
  }

  function NameSet(table: Table, mode: uint8): set<string> {
    set name | name in Names(Entry(table, mode))
  }

  class ControllerHandler {
    var table: Table

    constructor ()
      ensures table == map[]
    {
      table := map[];
    }

    method UpdateControllerName(controllerType: uint8, name: string) returns (ok: bool)
      modifies this
      ensures ok == (controllerType <= TWIST_CONTROLLER_TYPE)
      ensures table == Renamed(old(table), controllerType, name)
    {
      ok := true;
      if controllerType == JOINT_POSITION_CONTROLLER_TYPE {
        table := WithStandard(table, JOINT_POSITION_CONTROL, name);
        table := WithStandard(table, JOINT_IMPEDANCE_CONTROL, name);
      } else if controllerType == CARTESIAN_POSITION_CONTROLLER_TYPE {
        table := WithStandard(table, CARTESIAN_POSITION_CONTROL, name);
        table := WithStandard(table, CARTESIAN_IMPEDANCE_CONTROL, name);
      } else if controllerType == JOINT_VELOCITY_CONTROLLER_TYPE {
        table := WithStandard(table, JOINT_VELOCITY_CONTROL, name);
      } else if controllerType == TWIST_CONTROLLER_TYPE {
        table := WithStandard(table, CARTESIAN_VELOCITY_CONTROL, name);
      } else if controllerType == JOINT_IMPEDANCE_CONTROLLER_TYPE {
        table := WithImpedance(table, JOINT_IMPEDANCE_CONTROL, name);
      } else if controllerType == CARTESIAN_IMPEDANCE_CONTROLLER_TYPE {
        table := WithImpedance(table, CARTESIAN_IMPEDANCE_CONTROL, name);
      } else if controllerType == TORQUE_CONTROLLER_TYPE {
        table := WithStandard(table, JOINT_TORQUE_CONTROL, name);
      } else if controllerType == WRENCH_CONTROLLER_TYPE {
        table := WithStandard(table, WRENCH_CONTROL, name);
      } else {
        ok := false;
      }
    }

    /** None is the exception for a mode without an entry. */
    method GetControllersForMode(mode: uint8) returns (controllers: Option<seq<string>>)
      ensures controllers == if mode in table then Some(Names(table[mode])) else None
      ensures mode in table ==>
                controllers == Some([table[mode].standard]
                                    + if table[mode].impedance == "" then [] else [table[mode].impedance])
    {
      if mode !in table {
        return None;
      }
      var names := [table[mode].standard];
      if table[mode].impedance != "" {
        names := names + [table[mode].impedance];
      }
      controllers := Some(names);
      assert names == Names(table[mode]);
    }
  }

  // ----- the node -----

  datatype HardwareEvent = ControlStarted | ControlStopped | HardwareError | ControlModeSwitch | OtherEvent

  /** The events heard during a mode change: while the old controllers are stopped, and while the node waits. */
  datatype Heard = Heard(stopping: seq<HardwareEvent>, waiting: seq<HardwareEvent>)

  datatype Node = Node(state: LifecycleState, mode: uint8, table: Table, world: World, changeFinished: bool)

  /** The environment: how service calls are answered, and what the robots report during mode changes, each by the
      number of calls made before. */
  datatype Surroundings = Surroundings(robots: seq<string>, answers: Answers, heard: nat -> Heard)

  datatype Value = Text(text: string) | Number(number: int) | Other

  datatype Parameter = Parameter(name: string, value: Value)

  datatype Outcome = Outcome(node: Node, ok: bool)

  /** The real-time controllers of a mode. */
  function Realtime(table: Table, mode: uint8): set<string> {
    NameSet(table, mode) + {JOINT_STATE_BROADCASTER}
  }

  /** The modes that have been implemented; start-up gives all of them names. */
  const MODES: set<uint8> := {JOINT_POSITION_CONTROL, JOINT_IMPEDANCE_CONTROL, JOINT_TORQUE_CONTROL}

  predicate Registered(table: Table, mode: uint8) {
    MODES <= table.Keys && mode in MODES
  }

  /** Conversion of an integer parameter to a 32-bit integer. */
  function Int32Of(number: int): int32 {
    var u := number % TWO_TO_THE_32;
    if u >= 0x8000_0000 then u - TWO_TO_THE_32 else u
  }

  /** A start of control sets the flag, and a mode switch of the robot clears it. */
  function FlagAfter(flag: bool, events: seq<HardwareEvent>): bool {
    if events == [] then flag
    else
      match events[|events| - 1]
      case ControlStarted => true
      case ControlModeSwitch => false
      case _ => FlagAfter(flag, events[..|events| - 1])
  }

  /** The wait ends at once if the flag is set already, else with the first start that it hears or the time-out. */
  predicate WaitEnds(flag: bool, waiting: seq<HardwareEvent>) {
    flag || ControlStarted in waiting
  }

  /** Stop the controllers of the old mode, wait for the robots, start those of the new one. When a step fails
      the node deactivates, but stays in its state. After the wait the flag is cleared in either case. */
  function SwitchMode(node: Node, mode: uint8, env: Surroundings): Outcome {
    var stop := SwitchControllers(node.world, {}, NameSet(node.table, node.mode), env.answers);
    var heard := env.heard(node.world.calls);
    var flag := FlagAfter(node.changeFinished, heard.stopping);
    if !stop.ok then Outcome(Stopped(node.(changeFinished := flag), stop.world, env), false)
    else
      var waited := node.(changeFinished := false);
      if !WaitEnds(flag, heard.waiting) then Outcome(Stopped(waited, stop.world, env), false)
      else
        var start := SwitchControllers(stop.world, NameSet(node.table, mode), {}, env.answers);
        if start.ok then Outcome(waited.(mode := mode, world := start.world), true)
        else Outcome(Stopped(waited, start.world, env), false)
  }

  function Stopped(node: Node, w: World, env: Surroundings): Node {
    node.(world := RobotManager.Deactivate(w, env.robots, Realtime(node.table, node.mode), env.answers).world)
  }

  /** The requested number is compared with the current mode after conversion to eight bits. */
  function ChangeMode(node: Node, number: int32, env: Surroundings): Outcome {
    if number % 256 == node.mode then Outcome(node, true)
    else if number !in MODES then Outcome(node, false)
    else if node.state.Active? then SwitchMode(node, number, env)
    else Outcome(node.(mode := number), true)
  }

  function TypeNamed(parameter: string): Option<uint8> {
    if parameter == "position_controller_name" then Some(JOINT_POSITION_CONTROLLER_TYPE)
    else if parameter == "impedance_controller_name" then Some(JOINT_IMPEDANCE_CONTROLLER_TYPE)
    else if parameter == "torque_controller_name" then Some(TORQUE_CONTROLLER_TYPE)
    else None
  }

  predicate IsStatic(parameter: string) {
    parameter == "controller_ip" || parameter == "robot_models"
  }

  /** May a parameter be set at all, and in this state? */
  predicate Settable(parameter: string, state: LifecycleState) {
    match state
    case Unconfigured => TypeNamed(parameter).Some? || parameter == "control_mode" || IsStatic(parameter)
    case Inactive => TypeNamed(parameter).Some? || parameter == "control_mode"
    case Active => parameter == "control_mode"
  }

  /** The callback of a parameter; after start-up a static one refuses every value. */
  function Callback(node: Node, p: Parameter, env: Surroundings): Outcome {
    if TypeNamed(p.name).Some? then
      if p.value.Text? then Outcome(node.(table := Renamed(node.table, TypeNamed(p.name).value, p.value.text)), true)
      else Outcome(node, false)
    else if p.name == "control_mode" && p.value.Number? then ChangeMode(node, Int32Of(p.value.number), env)
    else Outcome(node, false)
  }

  /** The callbacks of a batch in order; the result is that of the last parameter whose callback ran. */
  function SetParameters(node: Node, batch: seq<Parameter>, env: Surroundings): Outcome
    decreases |batch|
  {
    if batch == [] then Outcome(node, false)
    else
      var before := SetParameters(node, batch[..|batch| - 1], env);
      var p := batch[|batch| - 1];
      if Settable(p.name, before.node.state) then Callback(before.node, p, env) else before
  }

  datatype Request =
    | Configure
    | CleanUp
    | Activate
    | Deactivate
    | Set(batch: seq<Parameter>)
    | Hear(event: HardwareEvent)

  /** A transition is refused in the wrong state; an error while deactivating ends in the unconfigured state. When
      control stops, the node deactivates on its own. */
  function Step(node: Node, request: Request, env: Surroundings): Node {
    match request
    case Configure =>
      if !node.state.Unconfigured? then node
      else
        var r := RobotManager.Configure(node.world, env.robots, CONFIGURATION, env.answers);
        node.(world := r.world, state := if r.ok then Inactive else Unconfigured)
    case CleanUp =>
      if !node.state.Inactive? then node
      else
        var r := Cleanup(node.world, env.robots, CONFIGURATION, env.answers);
        node.(world := r.world, state := if r.ok then Unconfigured else Inactive)
    case Activate =>
      if !node.state.Inactive? then node
      else
        var r := Start(node.world, env.robots, Realtime(node.table, node.mode), env.answers);
        node.(world := r.world, state := if r.ok then Active else Inactive)
    case Deactivate => Deactivated(node, env)
    case Set(batch) => SetParameters(node, batch, env).node
    case Hear(event) =>
      if event.ControlStopped? || event.HardwareError? then Deactivated(node, env)
      else node.(changeFinished := FlagAfter(node.changeFinished, [event]))
  }

  function Deactivated(node: Node, env: Surroundings): Node {
    if !node.state.Active? then node
    else
      var r := RobotManager.Deactivate(node.world, env.robots, Realtime(node.table, node.mode), env.answers);
      node.(world := r.world, state := if r.ok then Inactive else Unconfigured)
  }

  function Run(node: Node, requests: seq<Request>, env: Surroundings): Node
    decreases |requests|
  {
    if requests == [] then node
    else Step(Run(node, requests[..|requests| - 1], env), requests[|requests| - 1], env)
  }

  // ----- the controllers match the mode -----

  /** No parameter has given a controller one of the fixed names. */
  predicate Unreserved(table: Table) {
    forall mode | mode in table :: table[mode].standard !in RESERVED && table[mode].impedance !in RESERVED
  }

  /** The node rests in a state: hardware and controllers are what the state and the mode call for. */
  predicate Consistent(node: Node, env: Surroundings) {
    && Registered(node.table, node.mode) && Unreserved(node.table)
    && InState(node.world, env.robots, node.state)
    && node.world.running == match node.state
       case Unconfigured => {}
       case Inactive => CONFIGURATION
       case Active => CONFIGURATION + Realtime(node.table, node.mode)
  }

  predicate NamesNothingReserved(batch: seq<Parameter>) {
    forall p | p in batch && p.value.Text? :: p.value.text !in RESERVED
  }

  /** No call between `w` and `v` fails, and the robots report a start whenever they are waited for. */
  predicate AllAnswered(w: World, v: World, env: Surroundings) {
    forall k | w.calls <= k < v.calls :: env.answers(k) && ControlStarted in env.heard(k).waiting
  }

  /** What a request may meet: configuration and activation may fail at one call, as long as the calls that roll
      back succeed; in the other requests no call fails. */
  predicate Tolerable(node: Node, request: Request, env: Surroundings) {
    var after := Step(node, request, env).world;
    match request
    case Configure => RestAnswered(FailedCall(node.world, env.robots, Inactive, env.answers), after, env.answers)
    case Activate => RestAnswered(FailedCall(node.world, env.robots, Active, env.answers), after, env.answers)
    case CleanUp => AllAnswered(node.world, after, env)
    case Deactivate => AllAnswered(node.world, after, env)
    case Set(batch) => AllAnswered(node.world, after, env) && NamesNothingReserved(batch)
    case Hear(_) => AllAnswered(node.world, after, env)
  }

  predicate TolerableRun(node: Node, requests: seq<Request>, env: Surroundings)
    decreases |requests|
  {
    requests == [] ||
    (var front := requests[..|requests| - 1];
     TolerableRun(node, front, env) && Tolerable(Run(node, front, env), requests[|requests| - 1], env))
  }

  /** The names of a mode avoid the fixed ones. */
  lemma NamesAvoidReserved(table: Table, mode: uint8)
    requires Unreserved(table) && mode in table
    ensures NameSet(table, mode) !! RESERVED
  {
  }

  /** A successful mode change in the active state leaves exactly the controllers of the new mode running, if
      and only if it has not stopped a controller with a fixed name that the new mode does not start again. */
  lemma ModeChangeOutcome(node: Node, mode: uint8, env: Surroundings)
    requires node.world.running == CONFIGURATION + Realtime(node.table, node.mode)
    requires SwitchMode(node, mode, env).ok
    ensures var r := SwitchMode(node, mode, env).node;
            && r.mode == mode && r.table == node.table && r.world.hardware == node.world.hardware
            && (r.world.running == CONFIGURATION + Realtime(r.table, r.mode)
                <==> RESERVED * NameSet(node.table, node.mode) <= NameSet(node.table, mode))
  {
    var r := SwitchMode(node, mode, env).node;
    var was, now := NameSet(node.table, node.mode), NameSet(node.table, mode);
    assert r.world.running == RESERVED + was - was + now;
    if RESERVED * was <= now {
      forall name
        ensures name in r.world.running <==> name in RESERVED + now
      {
        assert name in RESERVED * was ==> name in now;
      }
    } else {
      var name :| name in RESERVED * was && name !in now;
      assert name !in r.world.running && name in CONFIGURATION + Realtime(r.table, r.mode);
    }
  }

  /** The callbacks change the calls made only by switching modes. */
  lemma CallsGrow(node: Node, p: Parameter, env: Surroundings)
    ensures Callback(node, p, env).node.world.calls >= node.world.calls
    ensures Callback(node, p, env).node.state == node.state
  {
    if node.state.Active? && p.name == "control_mode" && p.value.Number? {
      var number := Int32Of(p.value.number);
      if number % 256 != node.mode && number in MODES {
        var stop := SwitchControllers(node.world, {}, NameSet(node.table, node.mode), env.answers).world;
        DeactivateOutcome(stop, env.robots, Realtime(node.table, node.mode), env.answers);
        DeactivateCalls(stop, env.robots, Realtime(node.table, node.mode), env.answers);
        var start := SwitchControllers(stop, NameSet(node.table, number), {}, env.answers).world;
        DeactivateCalls(start, env.robots, Realtime(node.table, node.mode), env.answers);
      }
    }
  }

  lemma DeactivateCalls(w: World, robots: seq<string>, controllers: set<string>, answers: Answers)
    ensures RobotManager.Deactivate(w, robots, controllers, answers).world.calls >= w.calls + |robots|
  {
    EachCall(w, Backwards(robots), Inactive, answers);
  }

  lemma RenamedIsUnreserved(table: Table, controllerType: uint8, name: string)
    requires Unreserved(table) && name !in RESERVED
    ensures Unreserved(Renamed(table, controllerType, name)) && table.Keys <= Renamed(table, controllerType, name).Keys
  {
  }

  lemma CallbackKeepsConsistent(node: Node, p: Parameter, env: Surroundings)
    requires Consistent(node, env) && Settable(p.name, node.state)
    requires AllAnswered(node.world, Callback(node, p, env).node.world, env)
    requires p.value.Text? ==> p.value.text !in RESERVED
    ensures Consistent(Callback(node, p, env).node, env)
  {
    if TypeNamed(p.name).Some? {
      if p.value.Text? {
        RenamingKeepsConsistent(node, TypeNamed(p.name).value, p.value.text, env);
      }
    } else if p.name == "control_mode" && p.value.Number? {
      var number := Int32Of(p.value.number);
      if number % 256 != node.mode && number in MODES && node.state.Active? {
        SwitchKeepsConsistent(node, number, env);
      }
    }
  }

  lemma RenamingKeepsConsistent(node: Node, controllerType: uint8, name: string, env: Surroundings)
    requires Consistent(node, env) && !node.state.Active? && name !in RESERVED
    ensures Consistent(node.(table := Renamed(node.table, controllerType, name)), env)
  {
    RenamedIsUnreserved(node.table, controllerType, name);
  }

  lemma SwitchKeepsConsistent(node: Node, mode: uint8, env: Surroundings)
    requires Consistent(node, env) && node.state.Active? && mode in MODES
    requires AllAnswered(node.world, SwitchMode(node, mode, env).node.world, env)
    ensures SwitchMode(node, mode, env).ok && Consistent(SwitchMode(node, mode, env).node, env)
  {
    var stop := SwitchControllers(node.world, {}, NameSet(node.table, node.mode), env.answers);
    DeactivateCalls(stop.world, env.robots, Realtime(node.table, node.mode), env.answers);
    var start := SwitchControllers(stop.world, NameSet(node.table, mode), {}, env.answers);
    DeactivateCalls(start.world, env.robots, Realtime(node.table, node.mode), env.answers);
    assert env.answers(node.world.calls) && ControlStarted in env.heard(node.world.calls).waiting;
    SwitchSucceeds(node, mode, env);
  }

  /** With both calls answered and the wait ended, the controllers are those of the new mode. */
  lemma SwitchSucceeds(node: Node, mode: uint8, env: Surroundings)
    requires Consistent(node, env) && node.state.Active? && mode in MODES
    requires env.answers(node.world.calls) && env.answers(node.world.calls + 1)
    requires var heard := env.heard(node.world.calls);
             WaitEnds(FlagAfter(node.changeFinished, heard.stopping), heard.waiting)
    ensures var r := SwitchMode(node, mode, env);
            && r.ok && Consistent(r.node, env) && r.node.state.Active? && r.node.mode == mode
            && !r.node.changeFinished && r.node.world.calls == node.world.calls + 2
  {
    ModeChangeOutcome(node, mode, env);
    NamesAvoidReserved(node.table, node.mode);
  }

  lemma {:induction false} BatchKeepsConsistent(node: Node, batch: seq<Parameter>, env: Surroundings)
    requires Consistent(node, env) && NamesNothingReserved(batch)
    requires AllAnswered(node.world, SetParameters(node, batch, env).node.world, env)
    ensures var r := SetParameters(node, batch, env).node;
            Consistent(r, env) && r.world.calls >= node.world.calls
    decreases |batch|
  {
    if batch != [] {
      var front, p := batch[..|batch| - 1], batch[|batch| - 1];
      var before := SetParameters(node, front, env).node;
      if Settable(p.name, before.state) {
        CallsGrow(before, p, env);
      }
      assert AllAnswered(node.world, before.world, env);
      assert forall q | q in front :: q in batch;
      BatchKeepsConsistent(node, front, env);
      if Settable(p.name, before.state) {
        CallbackKeepsConsistent(before, p, env);
      }
    }
  }

  lemma StepKeepsConsistent(node: Node, request: Request, env: Surroundings)
    requires Consistent(node, env) && Tolerable(node, request, env)
    ensures Consistent(Step(node, request, env), env)
  {
    NamesAvoidReserved(node.table, node.mode);
    match request
    case Configure =>
      if node.state.Unconfigured? {
        ConfigureAllOrNothing(node.world, env.robots, CONFIGURATION, env.answers);
      }
    case Activate =>
      if node.state.Inactive? {
        StartAllOrNothing(node.world, env.robots, Realtime(node.table, node.mode), env.answers);
      }
    case CleanUp =>
      if node.state.Inactive? {
        CleanupSucceeds(node, env);
      }
    case Deactivate => DeactivateInOrder(node, env);
    case Set(batch) => BatchKeepsConsistent(node, batch, env);
    case Hear(event) =>
      if event.ControlStopped? || event.HardwareError? {
        DeactivateInOrder(node, env);
      }
  }

  lemma CleanupSucceeds(node: Node, env: Surroundings)
    requires Consistent(node, env) && node.state.Inactive?
    requires AllAnswered(node.world, Step(node, CleanUp, env).world, env)
    ensures Consistent(Step(node, CleanUp, env), env)
  {
    var stopped := SwitchControllers(node.world, {}, CONFIGURATION, env.answers).world;
    EachCall(stopped, env.robots, Unconfigured, env.answers);
    assert env.answers(node.world.calls);
    EachSucceeds(stopped, env.robots, Unconfigured, env.answers);
  }

  lemma DeactivateInOrder(node: Node, env: Surroundings)
    requires Consistent(node, env) && AllAnswered(node.world, Deactivated(node, env).world, env)
    ensures Consistent(Deactivated(node, env), env)
  {
    if node.state.Active? {
      var back := Backwards(env.robots);
      EachCall(node.world, back, Inactive, env.answers);
      EachSucceeds(node.world, back, Inactive, env.answers);
      DeactivateSucceeds(node.world, env.robots, Realtime(node.table, node.mode), env.answers);
      NamesAvoidReserved(node.table, node.mode);
    }
  }

  /** Mode consistency: over any run of transitions, parameter batches, mode changes and events in which only
      configuration or activation meet a failed call, the node rests consistent; in the active state the
      running controllers are those of the mode, the joint state broadcaster and the configuration ones. */
  lemma {:induction false} RunKeepsConsistent(node: Node, requests: seq<Request>, env: Surroundings)
    requires Consistent(node, env) && TolerableRun(node, requests, env)
    ensures Consistent(Run(node, requests, env), env)
    decreases |requests|
  {
    if requests != [] {
      var front := requests[..|requests| - 1];
      RunKeepsConsistent(node, front, env);
      StepKeepsConsistent(Run(node, front, env), requests[|requests| - 1], env);
    }
  }

  // ----- names, batches and failures -----

  /** Names cannot change while the node is active, however the calls go. */
  lemma {:induction false} NamesAreFixedWhileActive(node: Node, batch: seq<Parameter>, env: Surroundings)
    requires node.state.Active?
    ensures var r := SetParameters(node, batch, env).node;
            r.table == node.table && r.state.Active?
    decreases |batch|
  {
    if batch != [] {
      NamesAreFixedWhileActive(node, batch[..|batch| - 1], env);
    }
  }

  /** The result of a batch is the result of its last settable parameter, in the state the ones before it have
      left; the others may have been refused or have failed. */
  lemma {:induction false} BatchReportsItsLast(node: Node, batch: seq<Parameter>, i: nat, env: Surroundings)
    requires i < |batch| && Settable(batch[i].name, node.state)
    requires forall j | i < j < |batch| :: !Settable(batch[j].name, node.state)
    ensures SetParameters(node, batch, env) == Callback(SetParameters(node, batch[..i], env).node, batch[i], env)
    decreases |batch|
  {
    BatchKeepsState(node, batch[..|batch| - 1], env);
    if i < |batch| - 1 {
      var front := batch[..|batch| - 1];
      BatchReportsItsLast(node, front, i, env);
      assert front[..i] == batch[..i];
    }
  }

  /** Without any settable parameter nothing happens and the batch is reported as not set. */
  lemma {:induction false} NothingSettable(node: Node, batch: seq<Parameter>, env: Surroundings)
    requires forall p | p in batch :: !Settable(p.name, node.state)
    ensures SetParameters(node, batch, env) == Outcome(node, false)
    decreases |batch|
  {
    if batch != [] {
      var front := batch[..|batch| - 1];
      assert batch[|batch| - 1] in batch && forall p | p in front :: p in batch;
      NothingSettable(node, front, env);
    }
  }

  lemma {:induction false} BatchKeepsState(node: Node, batch: seq<Parameter>, env: Surroundings)
    ensures SetParameters(node, batch, env).node.state == node.state
    decreases |batch|
  {
    if batch != [] {
      BatchKeepsState(node, batch[..|batch| - 1], env);
    }
  }

  /** A batch whose first parameter is refused is still reported as set: here an unknown mode, then a name. */
  lemma RefusedParameterIsReportedAsSet(node: Node, env: Surroundings)
    requires node.state.Inactive? && node.mode != 7
    ensures var mode := Parameter("control_mode", Number(7));
            var name := Parameter("torque_controller_name", Text("effort_controller"));
            !SetParameters(node, [mode], env).ok && SetParameters(node, [mode, name], env).ok
  {
    var mode := Parameter("control_mode", Number(7));
    var name := Parameter("torque_controller_name", Text("effort_controller"));
    assert [mode][..0] == [] && [mode, name][..1] == [mode];
    assert SetParameters(node, [mode], env) == Callback(node, mode, env);
    BatchReportsItsLast(node, [mode, name], 1, env);
  }

  /** A failed step of a mode change in the active state, followed by calls that succeed, leaves the node
      active in the old mode although its hardware is inactive and its real-time controllers are stopped. */
  lemma FailedModeChangeStaysActive(node: Node, mode: uint8, env: Surroundings)
    requires Consistent(node, env) && node.state.Active? && mode in MODES && env.robots != []
    requires !SwitchMode(node, mode, env).ok
    requires var stop := env.answers(node.world.calls);
             var heard := env.heard(node.world.calls);
             var start := stop && WaitEnds(FlagAfter(node.changeFinished, heard.stopping), heard.waiting);
             forall k | node.world.calls + (if start then 2 else 1) <= k < SwitchMode(node, mode, env).node.world.calls
               :: env.answers(k)
    ensures var r := SwitchMode(node, mode, env).node;
            && r.state.Active? && r.mode == node.mode && r.world.running == CONFIGURATION
            && InState(r.world, env.robots, Inactive) && !Consistent(r, env)
  {
    var stop := SwitchControllers(node.world, {}, NameSet(node.table, node.mode), env.answers);
    var heard := env.heard(node.world.calls);
    var flag := FlagAfter(node.changeFinished, heard.stopping);
    if !stop.ok {
      StoppedOutcome(node, node.(changeFinished := flag), stop.world, env);
    } else if !WaitEnds(flag, heard.waiting) {
      StoppedOutcome(node, node.(changeFinished := false), stop.world, env);
    } else {
      var start := SwitchControllers(stop.world, NameSet(node.table, mode), {}, env.answers);
      StoppedOutcome(node, node.(changeFinished := false), start.world, env);
    }
    assert env.robots[0] in env.robots;
  }

  /** Calls that succeed bring all components down and leave only the configuration controllers running. */
  lemma StoppedOutcome(node: Node, later: Node, w: World, env: Surroundings)
    requires Consistent(node, env) && node.state.Active? && w.hardware == node.world.hardware
    requires later == node.(changeFinished := later.changeFinished)
    requires CONFIGURATION <= w.running <= node.world.running
    requires forall k | w.calls <= k < Stopped(later, w, env).world.calls :: env.answers(k)
    ensures var r := Stopped(later, w, env);
            r.world.running == CONFIGURATION && InState(r.world, env.robots, Inactive)
  {
    NamesAvoidReserved(node.table, node.mode);
    var controllers := Realtime(node.table, node.mode);
    var back := Backwards(env.robots);
    EachCall(w, back, Inactive, env.answers);
    EachSucceeds(w, back, Inactive, env.answers);
    DeactivateSucceeds(w, env.robots, controllers, env.answers);
  }

  /** The node once the parameters with the names have been declared. */
  function Named(position: string, impedance: string, torque: string, w: World, env: Surroundings): Node {
    var blank := Node(Unconfigured, CONTROL_MODE_UNSPECIFIED, map[], w, false);
    var first := Callback(blank, Parameter("position_controller_name", Text(position)), env).node;
    var second := Callback(first, Parameter("impedance_controller_name", Text(impedance)), env).node;
    Callback(second, Parameter("torque_controller_name", Text(torque)), env).node
  }

  lemma NamesOfStartUp(position: string, impedance: string, torque: string, w: World, env: Surroundings)
    ensures var named := Named(position, impedance, torque, w, env);
            && named.state == Unconfigured && named.mode == CONTROL_MODE_UNSPECIFIED && named.world == w
            && !named.changeFinished
            && named.table == map[JOINT_POSITION_CONTROL := ControllerTypes(position, ""),
                                  JOINT_IMPEDANCE_CONTROL := ControllerTypes(position, impedance),
                                  JOINT_TORQUE_CONTROL := ControllerTypes(torque, "")]
  {
  }

  /** At start-up the parameters are declared one by one; a control mode that is zero in its low eight bits is
      taken for the unspecified mode the node begins with, and then no mode is ever chosen. */
  lemma StartUp(position: string, impedance: string, torque: string, number: int, w: World, env: Surroundings)
    ensures var named := Named(position, impedance, torque, w, env);
            var r := Callback(named, Parameter("control_mode", Number(number)), env);
            && (r.ok <==> Int32Of(number) in MODES || Int32Of(number) % 256 == 0)
            && (Registered(r.node.table, r.node.mode) <==> Int32Of(number) in MODES)
  {
    NamesOfStartUp(position, impedance, torque, w, env);
    FirstMode(Named(position, impedance, torque, w, env), number, env);
  }

  lemma FirstMode(named: Node, number: int, env: Surroundings)
    requires named.state == Unconfigured && named.mode == CONTROL_MODE_UNSPECIFIED && MODES <= named.table.Keys
    ensures var r := Callback(named, Parameter("control_mode", Number(number)), env);
            && (r.ok <==> Int32Of(number) in MODES || Int32Of(number) % 256 == 0)
            && (Registered(r.node.table, r.node.mode) <==> Int32Of(number) in MODES)
  {
    assert Callback(named, Parameter("control_mode", Number(number)), env) == ChangeMode(named, Int32Of(number), env);
  }

  // ----- the node object -----

  class RobotManagerNode {
    const env: Surroundings
    const manager: ControllerManager
    const handler: ControllerHandler
    var state: LifecycleState
    var mode: uint8
    var controlModeChangeFinished: bool

    ghost predicate Valid()
      reads this, handler
    {
      manager.answers == env.answers && Registered(handler.table, mode)
    }

    ghost function View(): Node
      reads this, manager, handler
    {
      Node(state, mode, handler.table, manager.View(), controlModeChangeFinished)
    }

    constructor (surroundings: Surroundings, controllerManager: ControllerManager, names: ControllerHandler, m: uint8)
      requires controllerManager.answers == surroundings.answers
      requires m in MODES && MODES <= names.table.Keys
      ensures Valid() && View() == Node(Unconfigured, m, names.table, controllerManager.View(), false)
      ensures env == surroundings && manager == controllerManager && handler == names
    {
      env, manager, handler, state, mode := surroundings, controllerManager, names, Unconfigured, m;
      controlModeChangeFinished := false;
    }

    /** The names of a mode as the argument of a switch call. */
    method ControllersFor(m: uint8) returns (controllers: set<string>)
      requires m in handler.table
      ensures controllers == NameSet(handler.table, m)
    {
      var names := handler.GetControllersForMode(m);
      controllers := set name | name in names.value;
    }

    method OnDeactivate() returns (ok: bool)
      requires Valid()
      modifies manager
      ensures Reply(manager.View(), ok)
           == RobotManager.Deactivate(old(manager.View()), env.robots, Realtime(handler.table, mode), env.answers)
    {
      ok := manager.ChangeHardwareStates(Backwards(env.robots), Inactive);
      if !ok {
        return;
      }
      var controllers := ControllersFor(mode);
      ok := manager.ChangeControllerState({}, controllers + {JOINT_STATE_BROADCASTER});
    }

    method OnCleanup() returns (ok: bool)
      requires Valid()
      modifies manager
      ensures Reply(manager.View(), ok) == Cleanup(old(manager.View()), env.robots, CONFIGURATION, env.answers)
    {
      var stopped := manager.ChangeControllerState({}, CONFIGURATION);
      ok := manager.ChangeHardwareStates(env.robots, Unconfigured);
    }

    method OnConfigure() returns (ok: bool)
      requires Valid()
      modifies manager
      ensures Reply(manager.View(), ok)
           == RobotManager.Configure(old(manager.View()), env.robots, CONFIGURATION, env.answers)
    {
      ok := manager.BringUpHardware(env.robots, Inactive, Unconfigured);
      if ok {
        ok := manager.ChangeControllerState(CONFIGURATION, {});
        if !ok {
          var cleaned := OnCleanup();
        }
      }
    }

    method OnActivate() returns (ok: bool)
      requires Valid()
      modifies manager
      ensures Reply(manager.View(), ok)
           == Start(old(manager.View()), env.robots, Realtime(handler.table, mode), env.answers)
    {
      ok := manager.BringUpHardware(env.robots, Active, Inactive);
      if ok {
        var controllers := ControllersFor(mode);
        ok := manager.ChangeControllerState(controllers + {JOINT_STATE_BROADCASTER}, {});
        if !ok {
          var stopped := OnDeactivate();
        }
      }
    }

    /** What an event does to the flag. */
    method NoteEvent(event: HardwareEvent)
      modifies this`controlModeChangeFinished
      ensures controlModeChangeFinished == FlagAfter(old(controlModeChangeFinished), [event])
    {
      assert [event][..0] == [];
      match event {
        case ControlStarted => controlModeChangeFinished := true;
        case ControlModeSwitch => controlModeChangeFinished := false;
        case _ =>
      }
    }

    /** The event callback runs while the node makes a call. */
    method NoteEvents(events: seq<HardwareEvent>)
      modifies this`controlModeChangeFinished
      ensures controlModeChangeFinished == FlagAfter(old(controlModeChangeFinished), events)
    {
      assert events[..|events|] == events;
      for i := 0 to |events|
        invariant controlModeChangeFinished == FlagAfter(old(controlModeChangeFinished), events[..i])
      {
        assert events[..i + 1][..i] == events[..i];
        NoteEvent(events[i]);
      }
    }

    /** The wait on the condition variable; when it ends, the flag is cleared. */
    method WaitForRestart(waiting: seq<HardwareEvent>) returns (ended: bool)
      modifies this`controlModeChangeFinished
      ensures ended == WaitEnds(old(controlModeChangeFinished), waiting) && !controlModeChangeFinished
    {
      var i := 0;
      while i < |waiting| && !controlModeChangeFinished
        invariant 0 <= i <= |waiting|
        invariant controlModeChangeFinished == WaitEnds(old(controlModeChangeFinished), waiting[..i])
      {
        NoteEvent(waiting[i]);
        assert waiting[..i + 1] == waiting[..i] + [waiting[i]];
        i := i + 1;
      }
      ended := controlModeChangeFinished;
      controlModeChangeFinished := false;
      assert waiting[..|waiting|] == waiting;
    }

    method EventSubscriptionCallback(event: HardwareEvent)
      requires Valid()
      modifies this, manager
      ensures Valid() && View() == Step(old(View()), Hear(event), env)
    {
      if event == ControlStopped || event == HardwareError {
        DeactivateNode();
      } else {
        NoteEvent(event);
      }
    }

    /** The transition, which the node also makes on its own. */
    method DeactivateNode()
      requires Valid()
      modifies this`state, manager
      ensures Valid() && View() == Deactivated(old(View()), env)
    {
      if state.Active? {
        var ok := OnDeactivate();
        state := if ok then Inactive else Unconfigured;
      }
    }

    method OnControlModeChangeRequest(number: int32) returns (ok: bool)
      requires Valid()
      modifies this`mode, this`controlModeChangeFinished, manager
      ensures Valid() && Outcome(View(), ok) == ChangeMode(old(View()), number, env)
    {
      if mode == number % 256 {
        return true;
      }
      if number != JOINT_POSITION_CONTROL && number != JOINT_IMPEDANCE_CONTROL && number != JOINT_TORQUE_CONTROL {
        return false;
      }
      if state.Active? {
        var previous := ControllersFor(mode);
        var heard := env.heard(manager.calls);
        ok := manager.ChangeControllerState({}, previous);
        NoteEvents(heard.stopping);
        if ok {
          ok := WaitForRestart(heard.waiting);
        }
        if ok {
          var next := ControllersFor(number);
          ok := manager.ChangeControllerState(next, {});
        }
        if !ok {
          var stopped := OnDeactivate();
          return false;
        }
      }
      mode := number;
      ok := true;
    }

    method CallCallback(p: Parameter) returns (ok: bool)
      requires Valid()
      modifies this`mode, this`controlModeChangeFinished, manager, handler
      ensures Valid() && Outcome(View(), ok) == Callback(old(View()), p, env)
    {
      var controllerType := TypeNamed(p.name);
      if controllerType.Some? && p.value.Text? {
        ok := handler.UpdateControllerName(controllerType.value, p.value.text);
      } else if p.name == "control_mode" && p.value.Number? {
        ok := OnControlModeChangeRequest(Int32Of(p.value.number));
      } else {
        ok := false;
      }
    }

    method OnParamChange(batch: seq<Parameter>) returns (successful: bool)
      requires Valid()
      modifies this`mode, this`controlModeChangeFinished, manager, handler
      ensures Valid() && Outcome(View(), successful) == SetParameters(old(View()), batch, env)
    {
      successful := false;
      for i := 0 to |batch|
        invariant Valid() && Outcome(View(), successful) == SetParameters(old(View()), batch[..i], env)
      {
        assert batch[..i + 1][..i] == batch[..i];
        if Settable(batch[i].name, state) {
          successful := CallCallback(batch[i]);
        }
      }
      assert batch[..|batch|] == batch;
    }

    method Handle(request: Request)
      requires Valid()
      modifies this, manager, handler
      ensures Valid() && View() == Step(old(View()), request, env)
    {
      match request
      case Configure =>
        if state.Unconfigured? {
          var ok := OnConfigure();
          state := if ok then Inactive else Unconfigured;
        }
      case CleanUp =>
        if state.Inactive? {
          var ok := OnCleanup();
          state := if ok then Unconfigured else Inactive;
        }
      case Activate =>
        if state.Inactive? {
          var ok := OnActivate();
          state := if ok then Active else Inactive;
        }
      case Deactivate => DeactivateNode();
      case Set(batch) =>
        var successful := OnParamChange(batch);
      case Hear(event) => EventSubscriptionCallback(event);
    }
  }
}
