/** In which state each transition of the node ends, from the answers to its calls alone. */
module NodeLifecycle {
  import opened RobotManager
  import opened ControllerModes

  /** All components are known, and one call for each, from call `first` on, is answered with success. */
  predicate EachWorks(w: World, names: seq<string>, first: nat, answers: Answers) {
    (forall name | name in names :: name in w.hardware) && forall k | first <= k < first + |names| :: answers(k)
  }

  /** Configuring and activating need all their calls, and a failed attempt ends where it began. */
  lemma BringingUpEnds(node: Node, env: Surroundings)
    ensures var calls, robots := node.world.calls, env.robots;
            var all := EachWorks(node.world, robots, calls, env.answers) && env.answers(calls + |robots|);
            && (node.state.Unconfigured? ==>
                  Step(node, Configure, env).state == if all then Inactive else Unconfigured)
            && (node.state.Inactive? ==> Step(node, Activate, env).state == if all then Active else Inactive)
  {
    BringUpSucceedsExactly(node.world, env.robots, Inactive, Unconfigured, env.answers);
    BringUpSucceedsExactly(node.world, env.robots, Active, Inactive, env.answers);
    WorksEach(node.world, env.robots, env.answers);
  }

  lemma WorksEach(w: World, names: seq<string>, answers: Answers)
    ensures EachWorks(w, names, w.calls, answers) <==> forall i: nat | i < |names| :: Works(w, names, i, answers)
  {
    if forall i: nat | i < |names| :: Works(w, names, i, answers) {
      forall k | w.calls <= k < w.calls + |names|
        ensures answers(k)
      {
        assert Works(w, names, k - w.calls, answers);
      }
      forall name | name in names
        ensures name in w.hardware
      {
        var i: nat :| i < |names| && names[i] == name;
        assert Works(w, names, i, answers);
      }
    }
  }

  /** Cleaning up fails with any component, and then leaves the node inactive; whether the controllers could be stopped
      does not matter. */
  lemma CleaningUpEnds(node: Node, env: Surroundings)
    requires node.state.Inactive?
    ensures Step(node, CleanUp, env).state ==
            if EachWorks(node.world, env.robots, node.world.calls + 1, env.answers) then Unconfigured else Inactive
  {
    CleanupOutcome(node.world, env.robots, CONFIGURATION, env.answers);
    WorksEach(node.world.(calls := node.world.calls + 1), env.robots, env.answers);
  }

  /** A failed deactivation, also one that the node makes on its own, is an error and ends unconfigured. */
  lemma DeactivatingEnds(node: Node, env: Surroundings, event: HardwareEvent)
    requires node.state.Active? && (event.ControlStopped? || event.HardwareError?)
    ensures var calls := node.world.calls;
            Step(node, Deactivate, env).state ==
            if EachWorks(node.world, Backwards(env.robots), calls, env.answers) && env.answers(calls + |env.robots|)
            then Inactive else Unconfigured
    ensures Step(node, Hear(event), env) == Step(node, Deactivate, env)
  {
    DeactivateOutcome(node.world, env.robots, Realtime(node.table, node.mode), env.answers);
    WorksEach(node.world, Backwards(env.robots), env.answers);
  }

  /** A transition that does not belong to the state of the node is refused. */
  lemma OtherTransitionsAreRefused(node: Node, env: Surroundings)
    ensures !node.state.Unconfigured? ==> Step(node, Configure, env) == node
    ensures !node.state.Inactive? ==> Step(node, CleanUp, env) == node == Step(node, Activate, env)
    ensures !node.state.Active? ==> Step(node, Deactivate, env) == node
  {
  }

  /** The address and the models of the robots are fixed: once start-up has set them, a batch that ends with one of them
      is reported as not set while the node is unconfigured, and in the other states they are passed over. */
  lemma StaticParametersAreRefused(node: Node, batch: seq<Parameter>, p: Parameter, env: Surroundings)
    requires p.name == "controller_ip" || p.name == "robot_models"
    ensures var before := SetParameters(node, batch, env);
            SetParameters(node, batch + [p], env)
            == if node.state.Unconfigured? then Outcome(before.node, false) else before
  {
    assert (batch + [p])[..|batch|] == batch;
    BatchKeepsState(node, batch, env);
    OtherNames(p.name);
  }

  lemma OtherNames(name: string)
    requires name == "controller_ip" || name == "robot_models"
    ensures TypeNamed(name).None? && name != "control_mode"
  {
    assert "robot_models"[0] != "control_mode"[0];
  }
}
