/** From the names given as parameters to the controllers that run. */
module ControllerNames {
  import opened Words
  import opened RobotManager
  import opened ControllerModes

  /** A name that is given to a type of controllers. */
  datatype Naming = Naming(controllerType: uint8, name: string)

  function AllNamed(namings: seq<Naming>): Table {
    if namings == [] then map[]
    else
      var n := |namings| - 1;
      Renamed(AllNamed(namings[..n]), namings[n].controllerType, namings[n].name)
  }

  /** The last name given to a type; before the first one it is empty. */
  function LastName(namings: seq<Naming>, controllerType: uint8): string {
    if namings == [] then ""
    else
      var n := |namings| - 1;
      if namings[n].controllerType == controllerType then namings[n].name else LastName(namings[..n], controllerType)
  }

  /** The type whose name is the standard controller of a mode: position controllers serve two modes each. */
  function StandardType(mode: uint8): uint8
    requires 1 <= mode <= 8
  {
    if mode == JOINT_POSITION_CONTROL || mode == JOINT_IMPEDANCE_CONTROL then JOINT_POSITION_CONTROLLER_TYPE
    else if mode == JOINT_VELOCITY_CONTROL then JOINT_VELOCITY_CONTROLLER_TYPE
    else if mode == JOINT_TORQUE_CONTROL then TORQUE_CONTROLLER_TYPE
    else if mode == CARTESIAN_POSITION_CONTROL || mode == CARTESIAN_IMPEDANCE_CONTROL
    then CARTESIAN_POSITION_CONTROLLER_TYPE
    else if mode == CARTESIAN_VELOCITY_CONTROL then TWIST_CONTROLLER_TYPE
    else WRENCH_CONTROLLER_TYPE
  }

  function ImpedanceName(namings: seq<Naming>, mode: uint8): string {
    if mode == JOINT_IMPEDANCE_CONTROL then LastName(namings, JOINT_IMPEDANCE_CONTROLLER_TYPE)
    else if mode == CARTESIAN_IMPEDANCE_CONTROL then LastName(namings, CARTESIAN_IMPEDANCE_CONTROLLER_TYPE)
    else ""
  }

  /** Whatever names were given in whatever order, each mode has the last name of the type that serves it, and the two
      impedance modes the last one of their impedance controllers. */
  lemma {:induction false} NamesReachTheirModes(namings: seq<Naming>, mode: uint8)
    requires 1 <= mode <= 8
    ensures Entry(AllNamed(namings), mode)
         == ControllerTypes(LastName(namings, StandardType(mode)), ImpedanceName(namings, mode))
    decreases |namings|
  {
    if namings != [] {
      var n := |namings| - 1;
      NamesReachTheirModes(namings[..n], mode);
      NamingReachesMode(AllNamed(namings[..n]), namings[n].controllerType, namings[n].name, mode);
    }
  }

  lemma NamingReachesMode(table: Table, controllerType: uint8, name: string, mode: uint8)
    requires 1 <= mode <= 8
    ensures var was, now := Entry(table, mode), Entry(Renamed(table, controllerType, name), mode);
            && now.standard == (if controllerType == StandardType(mode) then name else was.standard)
            && now.impedance ==
               if || (mode == JOINT_IMPEDANCE_CONTROL && controllerType == JOINT_IMPEDANCE_CONTROLLER_TYPE)
                  || (mode == CARTESIAN_IMPEDANCE_CONTROL && controllerType == CARTESIAN_IMPEDANCE_CONTROLLER_TYPE)
               then name else was.impedance
  {
  }

  /** The controllers of a mode: the standard one, and the impedance one if it has a name. */
  function Expected(standard: string, impedance: string): set<string> {
    if impedance == "" then {standard} else {standard, impedance}
  }

  lemma NamesOfMode(table: Table, mode: uint8)
    requires mode in table
    ensures NameSet(table, mode) == Expected(table[mode].standard, table[mode].impedance)
  {
  }

  /** Whatever was requested before, what runs in the active state is, besides the three controllers with fixed names,
      what the table names for the mode. */
  lemma ActiveControllers(node: Node, requests: seq<Request>, env: Surroundings)
    requires Consistent(node, env) && TolerableRun(node, requests, env)
    ensures var r := Run(node, requests, env);
            r.state.Active? ==>
              && r.mode in r.table
              && r.world.running == RESERVED + Expected(r.table[r.mode].standard, r.table[r.mode].impedance)
  {
    RunKeepsConsistent(node, requests, env);
    var r := Run(node, requests, env);
    NamesOfMode(r.table, r.mode);
  }

  /** From start-up to the active state: the controllers that run, from the parameters alone. */
  lemma ControllersOfStartUp(position: string, impedance: string, torque: string, mode: uint8, w: World,
                             env: Surroundings)
    requires mode in MODES
    requires w.running == {} && InState(w, env.robots, Unconfigured) && forall k :: env.answers(k)
    ensures var named := Named(position, impedance, torque, w, env);
            var node := Callback(named, Parameter("control_mode", Number(mode)), env).node;
            var r := Run(node, [Configure, Activate], env);
            && r.state.Active? && r.mode == mode && InState(r.world, env.robots, Active)
            && r.world.running == RESERVED + if mode == JOINT_POSITION_CONTROL then {position}
                                             else if mode == JOINT_TORQUE_CONTROL then {torque}
                                             else Expected(position, impedance)
  {
    var node := Callback(Named(position, impedance, torque, w, env), Parameter("control_mode", Number(mode)), env).node;
    ModeOfStartUp(position, impedance, torque, mode, w, env);
    BroughtUp(node, env);
    NamesOfMode(node.table, mode);
  }

  lemma ModeOfStartUp(position: string, impedance: string, torque: string, mode: uint8, w: World, env: Surroundings)
    requires mode in MODES
    ensures var named := Named(position, impedance, torque, w, env);
            var node := Callback(named, Parameter("control_mode", Number(mode)), env).node;
            && node.state.Unconfigured? && node.world == w && node.mode == mode && mode in node.table
            && node.table[mode] == if mode == JOINT_POSITION_CONTROL then ControllerTypes(position, "")
                                   else if mode == JOINT_TORQUE_CONTROL then ControllerTypes(torque, "")
                                   else ControllerTypes(position, impedance)
  {
    NamesOfStartUp(position, impedance, torque, w, env);
    assert Int32Of(mode) == mode;
  }

  /** When every call is answered, the node configures and starts. */
  lemma BroughtUp(node: Node, env: Surroundings)
    requires node.state.Unconfigured? && InState(node.world, env.robots, Unconfigured) && forall k :: env.answers(k)
    ensures var r := Run(node, [Configure, Activate], env);
            && r == node.(state := Active, world := r.world) && InState(r.world, env.robots, Active)
            && r.world.running == node.world.running + CONFIGURATION + Realtime(node.table, node.mode)
  {
    assert [Configure, Activate][..1] == [Configure] && [Configure][..0] == [];
    Configured(node, env);
    Started(Step(node, Configure, env), env);
  }

  lemma Configured(node: Node, env: Surroundings)
    requires node.state.Unconfigured? && InState(node.world, env.robots, Unconfigured) && forall k :: env.answers(k)
    ensures var r := Step(node, Configure, env);
            && r == node.(state := Inactive, world := r.world) && InState(r.world, env.robots, Inactive)
            && r.world.running == node.world.running + CONFIGURATION
  {
    ConfigureSucceedsExactly(node.world, env.robots, CONFIGURATION, env.answers);
    ConfigureAllOrNothing(node.world, env.robots, CONFIGURATION, env.answers);
  }

  lemma Started(node: Node, env: Surroundings)
    requires node.state.Inactive? && InState(node.world, env.robots, Inactive) && forall k :: env.answers(k)
    ensures var r := Step(node, Activate, env);
            && r == node.(state := Active, world := r.world) && InState(r.world, env.robots, Active)
            && r.world.running == node.world.running + Realtime(node.table, node.mode)
  {
    StartSucceedsExactly(node.world, env.robots, Realtime(node.table, node.mode), env.answers);
    StartAllOrNothing(node.world, env.robots, Realtime(node.table, node.mode), env.answers);
  }
}
