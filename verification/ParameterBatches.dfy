/** When the result of setting a batch of parameters can be relied on. */
module ParameterBatches {
  import opened Words
  import opened RobotManager
  import opened ControllerModes

  /** Every parameter of the batch could be set in the state it came in, and its callback accepted it. */
  predicate AllSet(node: Node, batch: seq<Parameter>, env: Surroundings)
    decreases |batch|
  {
    batch == [] ||
    (var front, p := batch[..|batch| - 1], batch[|batch| - 1];
     var before := SetParameters(node, front, env).node;
     AllSet(node, front, env) && Settable(p.name, before.state) && Callback(before, p, env).ok)
  }

  /** For every node that start-up has given a mode, and any surroundings: if the batch is reported as set, all of it
      was set. */
  ghost predicate Reliable(batch: seq<Parameter>) {
    forall node: Node, env: Surroundings | Registered(node.table, node.mode) && SetParameters(node, batch, env).ok ::
      AllSet(node, batch, env)
  }

  /** The same for the nodes that rest in a state with at least one robot. */
  ghost predicate ReliableAtRest(batch: seq<Parameter>) {
    forall node: Node, env: Surroundings |
      Consistent(node, env) && env.robots != [] && SetParameters(node, batch, env).ok ::
      AllSet(node, batch, env)
  }

  lemma {:induction false} StaysRegistered(node: Node, batch: seq<Parameter>, env: Surroundings)
    requires Registered(node.table, node.mode)
    ensures var r := SetParameters(node, batch, env).node;
            Registered(r.table, r.mode) && r.state == node.state
    decreases |batch|
  {
    BatchKeepsState(node, batch, env);
    if batch != [] {
      var front, p := batch[..|batch| - 1], batch[|batch| - 1];
      StaysRegistered(node, front, env);
      CallbackKeepsRegistered(SetParameters(node, front, env).node, p, env);
    }
  }

  lemma CallbackKeepsRegistered(node: Node, p: Parameter, env: Surroundings)
    requires Registered(node.table, node.mode)
    ensures var r := Callback(node, p, env).node;
            Registered(r.table, r.mode)
  {
  }

  // ----- what can be seen of a batch -----

  predicate IsMode(p: Parameter) {
    p.name == "control_mode"
  }

  predicate IsName(p: Parameter) {
    TypeNamed(p.name).Some?
  }

  /** A number whose low eight bits are an implemented mode; any other is never accepted. */
  predicate IsNumber(p: Parameter) {
    IsMode(p) && p.value.Number? && Int32Of(p.value.number) % 256 in MODES
  }

  /** A name given as a text is always accepted where it can be set. */
  predicate IsText(p: Parameter) {
    IsName(p) && p.value.Text?
  }

  function Mode(p: Parameter): int32
    requires IsNumber(p)
  {
    Int32Of(p.value.number)
  }

  function LastMode(batch: seq<Parameter>): Option<Parameter>
    decreases |batch|
  {
    if batch == [] then None
    else if IsMode(batch[|batch| - 1]) then Some(batch[|batch| - 1])
    else LastMode(batch[..|batch| - 1])
  }

  /** The last name or mode; these two kinds can be set while the node is inactive. */
  function LastConfigurable(batch: seq<Parameter>): Option<Parameter>
    decreases |batch|
  {
    if batch == [] then None
    else
      var p := batch[|batch| - 1];
      if IsMode(p) || IsName(p) then Some(p) else LastConfigurable(batch[..|batch| - 1])
  }

  /** Modes only, all of them the same in their low eight bits, and only the first one may ask for a change. */
  predicate OneModeChange(batch: seq<Parameter>) {
    && batch != [] && (forall p | p in batch :: IsNumber(p))
    && forall i | 0 < i < |batch| :: Mode(batch[i]) % 256 == Mode(batch[0]) % 256 && Mode(batch[i]) !in MODES
  }

  predicate NamesOnly(batch: seq<Parameter>) {
    forall p | p in batch :: IsText(p)
  }

  /** No last parameter that counts can be accepted. */
  predicate NeverReported(batch: seq<Parameter>) {
    && (LastMode(batch).Some? ==> !IsNumber(LastMode(batch).value))
    && (LastConfigurable(batch).Some? ==>
          !IsNumber(LastConfigurable(batch).value) && !IsText(LastConfigurable(batch).value))
  }

  predicate Trustworthy(batch: seq<Parameter>) {
    OneModeChange(batch) || NamesOnly(batch) || NeverReported(batch)
  }

  /** The result of a batch can be relied on exactly when it changes the mode once and nothing else, when it consists
      of names only, or when it is never reported as set at all - for all nodes, and for those that rest in a state. */
  lemma BatchIsReliable(batch: seq<Parameter>)
    ensures Reliable(batch) <==> Trustworthy(batch)
    ensures ReliableAtRest(batch) <==> Trustworthy(batch)
  {
    if Trustworthy(batch) {
      forall node: Node, env: Surroundings | Registered(node.table, node.mode) && SetParameters(node, batch, env).ok
        ensures AllSet(node, batch, env)
      {
        TrustworthyIsAllSet(node, batch, env);
      }
    } else {
      var node, env := Misreported(batch);
    }
  }

  /** In particular that of a single parameter can. */
  lemma SingleParameterIsReliable(p: Parameter)
    ensures Reliable([p])
  {
    BatchIsReliable([p]);
    assert [p][0] == p && [p][..0] == [];
    assert LastMode([p]) == if IsMode(p) then Some(p) else None;
    assert LastConfigurable([p]) == if IsMode(p) || IsName(p) then Some(p) else None;
  }

  /** That of a mode together with a name cannot, in either order. */
  lemma ModeWithNameIsUnreliable(mode: Parameter, name: Parameter)
    requires IsNumber(mode) && IsText(name)
    ensures !Reliable([mode, name]) && !Reliable([name, mode])
  {
    ModeBesideName([mode, name], mode, name);
    ModeBesideName([name, mode], mode, name);
  }

  lemma ModeBesideName(batch: seq<Parameter>, mode: Parameter, name: Parameter)
    requires IsNumber(mode) && IsText(name) && (batch == [mode, name] || batch == [name, mode])
    ensures !Reliable(batch)
  {
    BatchIsReliable(batch);
    assert mode in batch && name in batch && !IsNumber(name) && !IsText(mode);
    assert [mode, name][..1] == [mode] && [name, mode][..1] == [name];
    assert LastMode(batch) == Some(mode);
  }

  // ----- what can be relied on -----

  /** Neither a mode as a number nor a name as a text: no callback accepts it. */
  lemma NeverAccepted(node: Node, p: Parameter, env: Surroundings)
    requires Registered(node.table, node.mode) && !IsNumber(p) && !IsText(p)
    ensures !Callback(node, p, env).ok
  {
  }

  lemma TrustworthyIsAllSet(node: Node, batch: seq<Parameter>, env: Surroundings)
    requires Trustworthy(batch) && Registered(node.table, node.mode) && SetParameters(node, batch, env).ok
    ensures AllSet(node, batch, env)
  {
    if OneModeChange(batch) {
      ModesStandOrFall(node, batch, env);
    } else if NamesOnly(batch) {
      NamesStandOrFall(node, batch, env);
    } else if node.state.Active? {
      NoModeIsReported(node, batch, env);
    } else {
      NothingIsReported(node, batch, env);
    }
  }

  /** The first one decides: if it is accepted the node is in that mode, and if not the others are refused too. */
  lemma {:induction false} ModesStandOrFall(node: Node, batch: seq<Parameter>, env: Surroundings)
    requires OneModeChange(batch)
    ensures var r := SetParameters(node, batch, env);
            && (r.ok <==> r.node.mode == Mode(batch[0]) % 256)
            && (r.ok ==> AllSet(node, batch, env))
    decreases |batch|
  {
    var n := |batch| - 1;
    var front, p := batch[..n], batch[n];
    assert IsNumber(p) by { assert p in batch; }
    BatchKeepsState(node, front, env);
    if n == 0 {
      assert front == [];
    } else {
      assert forall q | q in front :: q in batch;
      ModesStandOrFall(node, front, env);
    }
  }

  lemma {:induction false} NamesStandOrFall(node: Node, batch: seq<Parameter>, env: Surroundings)
    requires NamesOnly(batch)
    ensures node.state.Active? ==> !SetParameters(node, batch, env).ok
    ensures !node.state.Active? ==> AllSet(node, batch, env)
    decreases |batch|
  {
    if batch != [] {
      var front, p := batch[..|batch| - 1], batch[|batch| - 1];
      assert p in batch && forall q | q in front :: q in batch;
      BatchKeepsState(node, front, env);
      NamesStandOrFall(node, front, env);
    }
  }

  lemma {:induction false} NoModeIsReported(node: Node, batch: seq<Parameter>, env: Surroundings)
    requires Registered(node.table, node.mode)
    requires node.state.Active? && (LastMode(batch).Some? ==> !IsNumber(LastMode(batch).value))
    ensures !SetParameters(node, batch, env).ok
    decreases |batch|
  {
    if batch != [] {
      var front := batch[..|batch| - 1];
      StaysRegistered(node, front, env);
      if IsMode(batch[|batch| - 1]) {
        NeverAccepted(SetParameters(node, front, env).node, batch[|batch| - 1], env);
      } else {
        NoModeIsReported(node, front, env);
      }
    }
  }

  lemma {:induction false} NothingIsReported(node: Node, batch: seq<Parameter>, env: Surroundings)
    requires Registered(node.table, node.mode) && !node.state.Active?
    requires LastConfigurable(batch).Some? ==>
               !IsNumber(LastConfigurable(batch).value) && !IsText(LastConfigurable(batch).value)
    ensures !SetParameters(node, batch, env).ok
    decreases |batch|
  {
    if batch != [] {
      var front, p := batch[..|batch| - 1], batch[|batch| - 1];
      StaysRegistered(node, front, env);
      NeverAccepted(SetParameters(node, front, env).node, p, env);
      if !IsMode(p) && !IsName(p) {
        NothingIsReported(node, front, env);
      }
    }
  }

  // ----- what cannot -----

  const ROBOT := "lbr_iisy3_r760"

  /** The names that start-up gives when no parameter is overridden. */
  const DEFAULT_NAMES: Table :=
    map[JOINT_POSITION_CONTROL := ControllerTypes("joint_trajectory_controller", ""),
        JOINT_IMPEDANCE_CONTROL := ControllerTypes("joint_trajectory_controller", "joint_group_impedance_controllers"),
        JOINT_TORQUE_CONTROL := ControllerTypes("effort_controller", "")]

  /** A node with one robot, at rest in a state. */
  function RestingNode(state: LifecycleState, mode: uint8): Node {
    var running := match state
                   case Unconfigured => {}
                   case Inactive => CONFIGURATION
                   case Active => CONFIGURATION + Realtime(DEFAULT_NAMES, mode);
    Node(state, mode, DEFAULT_NAMES, World(map[ROBOT := state], running, 0), false)
  }

  lemma RestingIsConsistent(state: LifecycleState, mode: uint8, env: Surroundings)
    requires mode in MODES && env.robots == [ROBOT]
    ensures Consistent(RestingNode(state, mode), env)
  {
    forall m | m in DEFAULT_NAMES
      ensures DEFAULT_NAMES[m].standard !in RESERVED && DEFAULT_NAMES[m].impedance !in RESERVED
    {
      NotReserved(DEFAULT_NAMES[m].standard);
      NotReserved(DEFAULT_NAMES[m].impedance);
    }
  }

  lemma NotReserved(name: string)
    requires |name| != |JOINT_STATE_BROADCASTER| && |name| != |CONTROL_MODE_HANDLER|
    requires |name| == |EVENT_BROADCASTER| ==> name[1] != EVENT_BROADCASTER[1]
    ensures name !in RESERVED
  {
  }

  /** Another mode. */
  function OtherThan(c: uint8): (other: uint8)
    ensures other in MODES && other != c
  {
    if c == JOINT_POSITION_CONTROL then JOINT_IMPEDANCE_CONTROL else JOINT_POSITION_CONTROL
  }

  function FailingFirst(failing: nat): Surroundings {
    Surroundings([ROBOT], k => k >= failing, _ => Heard([], [ControlStarted]))
  }

  const ALWAYS_FAILING := Surroundings([ROBOT], _ => false, _ => Heard([], [ControlStarted]))

  /** For any other batch, a node and surroundings in which it is reported although not all of it was set. */
  lemma Misreported(batch: seq<Parameter>) returns (node: Node, env: Surroundings)
    requires !Trustworthy(batch)
    ensures Consistent(node, env) && env.robots != []
    ensures SetParameters(node, batch, env).ok && !AllSet(node, batch, env)
  {
    LastsAreInBatch(batch);
    if LastMode(batch).Some? && IsNumber(LastMode(batch).value) {
      var c := Mode(LastMode(batch).value) % 256;
      if forall p | p in batch :: IsNumber(p) && Mode(p) % 256 == c {
        node, env := SecondAttempt(batch, c);
      } else {
        node, env := RestingNode(Active, c), ALWAYS_FAILING;
        var p :| p in batch && !(IsNumber(p) && Mode(p) % 256 == c);
        RestingIsConsistent(Active, c, env);
        LastModeDecides(batch, c);
        RefusedWhileActive(batch, p, c);
      }
    } else {
      node, env := RestingNode(Inactive, JOINT_POSITION_CONTROL), ALWAYS_FAILING;
      RestingIsConsistent(Inactive, JOINT_POSITION_CONTROL, env);
      LastNameDecides(batch);
      var p: Parameter;
      if LastMode(batch).Some? {
        p := LastMode(batch).value;
      } else {
        p :| p in batch && !IsText(p);
        NoModeInBatch(batch, p);
      }
      NeverSet(node, batch, p, env);
    }
  }

  lemma {:induction false} LastsAreInBatch(batch: seq<Parameter>)
    ensures LastMode(batch).Some? ==> LastMode(batch).value in batch && IsMode(LastMode(batch).value)
    ensures LastConfigurable(batch).Some? ==> LastConfigurable(batch).value in batch
    ensures LastConfigurable(batch).Some? && IsMode(LastConfigurable(batch).value) ==>
              LastMode(batch) == LastConfigurable(batch)
    decreases |batch|
  {
    if batch != [] {
      var front := batch[..|batch| - 1];
      assert forall q | q in front :: q in batch;
      LastsAreInBatch(front);
    }
  }

  lemma {:induction false} NoModeInBatch(batch: seq<Parameter>, p: Parameter)
    requires p in batch && LastMode(batch).None?
    ensures !IsMode(p)
    decreases |batch|
  {
    if p != batch[|batch| - 1] {
      assert p in batch[..|batch| - 1];
      NoModeInBatch(batch[..|batch| - 1], p);
    }
  }

  /** While all calls fail an active node stays in its mode, so a mode is accepted exactly when it is that one. */
  lemma {:induction false} ModeStays(batch: seq<Parameter>, c: uint8)
    ensures var r := SetParameters(RestingNode(Active, c), batch, ALWAYS_FAILING).node;
            r.mode == c && r.state.Active?
    decreases |batch|
  {
    if batch != [] {
      ModeStays(batch[..|batch| - 1], c);
    }
  }

  lemma {:induction false} LastModeDecides(batch: seq<Parameter>, c: uint8)
    requires LastMode(batch).Some? && IsNumber(LastMode(batch).value) && Mode(LastMode(batch).value) % 256 == c
    ensures SetParameters(RestingNode(Active, c), batch, ALWAYS_FAILING).ok
    decreases |batch|
  {
    var front := batch[..|batch| - 1];
    ModeStays(front, c);
    if !IsMode(batch[|batch| - 1]) {
      LastModeDecides(front, c);
    }
  }

  lemma {:induction false} RefusedWhileActive(batch: seq<Parameter>, p: Parameter, c: uint8)
    requires c in MODES && p in batch && !(IsNumber(p) && Mode(p) % 256 == c)
    ensures !AllSet(RestingNode(Active, c), batch, ALWAYS_FAILING)
    decreases |batch|
  {
    var front := batch[..|batch| - 1];
    ModeStays(front, c);
    if p != batch[|batch| - 1] {
      assert p in front;
      RefusedWhileActive(front, p, c);
    }
  }

  lemma {:induction false} LastNameDecides(batch: seq<Parameter>)
    requires LastConfigurable(batch).Some? && IsText(LastConfigurable(batch).value)
    ensures SetParameters(RestingNode(Inactive, JOINT_POSITION_CONTROL), batch, ALWAYS_FAILING).ok
    decreases |batch|
  {
    var front, p := batch[..|batch| - 1], batch[|batch| - 1];
    BatchKeepsState(RestingNode(Inactive, JOINT_POSITION_CONTROL), front, ALWAYS_FAILING);
    if !IsMode(p) && !IsName(p) {
      LastNameDecides(front);
    }
  }

  /** A parameter that is neither a mode as a number nor a name as a text is never set. */
  lemma {:induction false} NeverSet(node: Node, batch: seq<Parameter>, p: Parameter, env: Surroundings)
    requires Registered(node.table, node.mode) && p in batch && !IsNumber(p) && !IsText(p)
    ensures !AllSet(node, batch, env)
    decreases |batch|
  {
    var front := batch[..|batch| - 1];
    StaysRegistered(node, front, env);
    if p != batch[|batch| - 1] {
      assert p in front;
      NeverSet(node, front, p, env);
    } else {
      NeverAccepted(SetParameters(node, front, env).node, p, env);
    }
  }

  /** The same mode over and over: the first attempt fails, a later one succeeds. */
  lemma SecondAttempt(batch: seq<Parameter>, c: uint8) returns (node: Node, env: Surroundings)
    requires batch != [] && !OneModeChange(batch)
    requires forall p | p in batch :: IsNumber(p) && Mode(p) % 256 == c
    ensures Consistent(node, env) && env.robots != []
    ensures SetParameters(node, batch, env).ok && !AllSet(node, batch, env)
  {
    assert batch[0] in batch;
    var failing := Failing(batch[0]);
    node, env := RestingNode(Active, OtherThan(c)), FailingFirst(failing);
    RestingIsConsistent(Active, OtherThan(c), env);
    var i :| 0 < i < |batch| && !(Mode(batch[i]) % 256 == Mode(batch[0]) % 256 && Mode(batch[i]) !in MODES);
    assert batch[i] in batch;
    Attempts(batch, c, failing);
    assert Asks(batch);
  }

  /** A parameter that asks for a change makes a call, which fails. */
  function Failing(p: Parameter): nat
    requires IsNumber(p)
  {
    if Mode(p) in MODES then 1 else 0
  }

  /** One attempt at mode `c` by an active node, once the calls succeed. */
  lemma Attempt(node: Node, p: Parameter, c: uint8, failing: nat)
    requires node.state.Active? && node.world.calls >= failing && IsNumber(p) && Mode(p) % 256 == c
    ensures var r := Callback(node, p, FailingFirst(failing));
            && (r.ok <==> node.mode == c || Mode(p) in MODES)
            && r.node.mode == (if r.ok then c else node.mode)
            && r.node.state.Active? && r.node.world.calls >= failing
  {
  }

  /** The first attempt at a mode, by a node in another one, fails. */
  lemma FirstAttempt(p: Parameter, c: uint8)
    requires IsNumber(p) && Mode(p) % 256 == c
    ensures var r := Callback(RestingNode(Active, OtherThan(c)), p, FailingFirst(Failing(p)));
            !r.ok && r.node.mode == OtherThan(c) && r.node.state.Active? && r.node.world.calls >= Failing(p)
  {
    var node, env := RestingNode(Active, OtherThan(c)), FailingFirst(Failing(p));
    if Mode(p) in MODES {
      var stop := SwitchControllers(node.world, {}, NameSet(node.table, node.mode), env.answers);
      assert !stop.ok;
      EachCall(stop.world, Backwards(env.robots), Inactive, env.answers);
    }
  }

  /** Some parameter after the first asks for a change. */
  predicate Asks(batch: seq<Parameter>) {
    exists i | 0 < i < |batch| :: IsNumber(batch[i]) && Mode(batch[i]) in MODES
  }

  /** After the first attempt the mode is reached with the first parameter that asks for a change, and every one after
      it is accepted. */
  lemma {:induction false} Attempts(batch: seq<Parameter>, c: uint8, failing: nat)
    requires batch != [] && forall p | p in batch :: IsNumber(p) && Mode(p) % 256 == c
    requires batch[0] in batch && failing == Failing(batch[0])
    ensures var node, env := RestingNode(Active, OtherThan(c)), FailingFirst(failing);
            var r := SetParameters(node, batch, env);
            && r.node.mode == (if Asks(batch) then c else OtherThan(c))
            && (Asks(batch) ==> r.ok)
            && r.node.state.Active? && r.node.world.calls >= failing
            && !AllSet(node, batch, env)
    decreases |batch|
  {
    var n := |batch| - 1;
    var front, p := batch[..n], batch[n];
    assert p in batch && forall q | q in front :: q in batch;
    var node, env := RestingNode(Active, OtherThan(c)), FailingFirst(failing);
    if n == 0 {
      assert front == [] && SetParameters(node, front, env) == Outcome(node, false);
      FirstAttempt(p, c);
    } else {
      assert front[0] == batch[0];
      Attempts(front, c, failing);
      AsksLast(batch);
      Attempt(SetParameters(node, front, env).node, p, c, failing);
    }
  }

  lemma AsksLast(batch: seq<Parameter>)
    requires |batch| > 1
    ensures var n := |batch| - 1;
            Asks(batch) <==> Asks(batch[..n]) || (IsNumber(batch[n]) && Mode(batch[n]) in MODES)
  {
    var n := |batch| - 1;
    var front := batch[..n];
    if Asks(front) {
      var i :| 0 < i < n && IsNumber(front[i]) && Mode(front[i]) in MODES;
      assert IsNumber(batch[i]) && Mode(batch[i]) in MODES;
    }
    if Asks(batch) {
      var i :| 0 < i < |batch| && IsNumber(batch[i]) && Mode(batch[i]) in MODES;
      assert i == n || IsNumber(front[i]);
    }
  }
}
