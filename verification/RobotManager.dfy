/** Bringing the hardware components of any number of robots up and down through service calls that may fail. */
module RobotManager {

  datatype LifecycleState = Unconfigured | Inactive | Active

  /** The controller manager: the state of every hardware component, the running controllers, and the number
      of service calls made so far. */
  datatype World = World(hardware: map<string, LifecycleState>, running: set<string>, calls: nat)

  /** `answers(k)` says whether the k-th service call is answered with success in time. */
  type Answers = nat -> bool

  datatype Reply = Reply(world: World, ok: bool)

  /** How far a sequence of calls that stops at the first failure has come. */
  datatype Progress = Progress(world: World, done: nat)

  function Counted(w: World): World {
    w.(calls := w.calls + 1)
  }

  /** A failed call leaves its target as it is; a component the controller manager does not know never changes. */
  function ChangeHardware(w: World, name: string, target: LifecycleState, answers: Answers): Reply {
    if answers(w.calls) && name in w.hardware
    then Reply(Counted(w).(hardware := w.hardware[name := target]), true)
    else Reply(Counted(w), false)
  }

  function SwitchControllers(w: World, start: set<string>, stop: set<string>, answers: Answers): Reply {
    if answers(w.calls) then Reply(Counted(w).(running := w.running - stop + start), true)
    else Reply(Counted(w), false)
  }

  /** One call per component, whatever the calls before it gave. */
  function ChangeEach(w: World, names: seq<string>, target: LifecycleState, answers: Answers): Reply {
    if names == [] then Reply(w, true)
    else
      var before := ChangeEach(w, names[..|names| - 1], target, answers);
      var last := ChangeHardware(before.world, names[|names| - 1], target, answers);
      Reply(last.world, before.ok && last.ok)
  }

  /** One call per component up to the first one that fails. */
  function ChangeInOrder(w: World, names: seq<string>, target: LifecycleState, answers: Answers): (p: Progress)
    ensures p.done <= |names|
  {
    if names == [] then Progress(w, 0)
    else
      var before := ChangeInOrder(w, names[..|names| - 1], target, answers);
      if before.done < |names| - 1 then before
      else
        var last := ChangeHardware(before.world, names[|names| - 1], target, answers);
        Progress(last.world, if last.ok then |names| else |names| - 1)
  }

  /** All components to `target`, or after a failure those already there back to `earlier`. */
  function BringUp(w: World, names: seq<string>, target: LifecycleState, earlier: LifecycleState, answers: Answers)
    : Reply
  {
    var p := ChangeInOrder(w, names, target, answers);
    if p.done == |names| then Reply(p.world, true)
    else Reply(ChangeEach(p.world, names[..p.done], earlier, answers).world, false)
  }

  function Backwards(names: seq<string>): (r: seq<string>)
    ensures |r| == |names| && forall i | 0 <= i < |names| :: r[i] == names[|names| - 1 - i]
    ensures forall name :: name in r <==> name in names
  {
    var r := seq(|names|, i requires 0 <= i < |names| => names[|names| - 1 - i]);
    assert forall i | 0 <= i < |names| :: names[i] == r[|names| - 1 - i];
    r
  }

  // ----- the transitions of the robot manager -----

  function Configure(w: World, robots: seq<string>, controllers: set<string>, answers: Answers): Reply {
    var up := BringUp(w, robots, Inactive, Unconfigured, answers);
    if !up.ok then up
    else
      var started := SwitchControllers(up.world, controllers, {}, answers);
      if started.ok then started
      else Reply(Cleanup(started.world, robots, controllers, answers).world, false)
  }

  function Cleanup(w: World, robots: seq<string>, controllers: set<string>, answers: Answers): Reply {
    ChangeEach(SwitchControllers(w, {}, controllers, answers).world, robots, Unconfigured, answers)
  }

  /** The update rate of the controller manager is set for a single robot only. */
  function ChangeCycleTime(w: World, robots: seq<string>, answers: Answers): Reply {
    if |robots| != 1 then Reply(w, true) else Reply(Counted(w), answers(w.calls))
  }

  /** Hardware first, then the controllers; no hardware event interferes. */
  function Start(w: World, robots: seq<string>, controllers: set<string>, answers: Answers): Reply {
    var up := BringUp(w, robots, Active, Inactive, answers);
    if !up.ok then up
    else
      var started := SwitchControllers(up.world, controllers, {}, answers);
      if started.ok then started
      else Reply(Deactivate(started.world, robots, controllers, answers).world, false)
  }

  function Activate(w: World, robots: seq<string>, controllers: set<string>, answers: Answers): Reply {
    var cycleTime := ChangeCycleTime(w, robots, answers);
    if cycleTime.ok then Start(cycleTime.world, robots, controllers, answers) else cycleTime
  }

  function Deactivate(w: World, robots: seq<string>, controllers: set<string>, answers: Answers): Reply {
    var down := ChangeEach(w, Backwards(robots), Inactive, answers);
    if !down.ok then down else SwitchControllers(down.world, {}, controllers, answers)
  }

  // ----- what the calls do to every component -----

  predicate InState(w: World, names: seq<string>, state: LifecycleState) {
    forall name | name in names :: name in w.hardware && w.hardware[name] == state
  }

  /** Nothing but the hardware of `names` differs. */
  predicate SameExcept(w: World, v: World, names: seq<string>) {
    && v.running == w.running
    && v.hardware.Keys == w.hardware.Keys
    && forall name | name in w.hardware && name !in names :: v.hardware[name] == w.hardware[name]
  }

  /** Call `i` of a sequence of calls on `names` that began in `w` gives success. */
  predicate Works(w: World, names: seq<string>, i: nat, answers: Answers)
    requires i < |names|
  {
    answers(w.calls + i) && names[i] in w.hardware
  }

  /** A component ends in the target exactly when one of the calls for it succeeds. */
  predicate Reached(w: World, names: seq<string>, name: string, answers: Answers) {
    exists i: nat | i < |names| && names[i] == name :: Works(w, names, i, answers)
  }

  lemma {:induction false} EachCall(w: World, names: seq<string>, target: LifecycleState, answers: Answers)
    ensures var r := ChangeEach(w, names, target, answers);
            && r.world.calls == w.calls + |names| && r.world.running == w.running
            && r.world.hardware.Keys == w.hardware.Keys
            && (r.ok <==> forall i: nat | i < |names| :: Works(w, names, i, answers))
    decreases |names|
  {
    if names != [] {
      var n := |names| - 1;
      var front := names[..n];
      EachCall(w, front, target, answers);
      assert forall i: nat | i < n :: Works(w, front, i, answers) == Works(w, names, i, answers);
      var before := ChangeEach(w, front, target, answers);
      var r := ChangeEach(w, names, target, answers);
      assert r.ok == (before.ok && Works(w, names, n, answers));
    }
  }

  lemma {:induction false} EachTarget(w: World, names: seq<string>, target: LifecycleState, answers: Answers,
                                      name: string)
    requires name in w.hardware
    ensures var v := ChangeEach(w, names, target, answers).world;
            name in v.hardware
            && v.hardware[name] == if Reached(w, names, name, answers) then target else w.hardware[name]
    decreases |names|
  {
    if names != [] {
      var front := names[..|names| - 1];
      EachTarget(w, front, target, answers, name);
      EachCall(w, front, target, answers);
      ReachedByLast(w, names, name, answers);
    }
  }

  lemma EachComponent(w: World, names: seq<string>, target: LifecycleState, answers: Answers)
    ensures var r := ChangeEach(w, names, target, answers);
            && r.world.calls == w.calls + |names| && SameExcept(w, r.world, names)
            && (r.ok <==> forall i: nat | i < |names| :: Works(w, names, i, answers))
            && forall name | name in w.hardware ::
                 r.world.hardware[name] == if Reached(w, names, name, answers) then target else w.hardware[name]
  {
    EachCall(w, names, target, answers);
    var v := ChangeEach(w, names, target, answers).world;
    forall name | name in w.hardware
      ensures v.hardware[name] == if Reached(w, names, name, answers) then target else w.hardware[name]
    {
      EachTarget(w, names, target, answers, name);
    }
  }

  lemma ReachedByLast(w: World, names: seq<string>, name: string, answers: Answers)
    requires names != []
    ensures var n := |names| - 1;
            Reached(w, names, name, answers)
            <==> Reached(w, names[..n], name, answers) || (names[n] == name && Works(w, names, n, answers))
  {
    var n := |names| - 1;
    var front := names[..n];
    if Reached(w, front, name, answers) {
      var i: nat :| i < n && front[i] == name && Works(w, front, i, answers);
      assert names[i] == name && Works(w, names, i, answers);
    }
    if Reached(w, names, name, answers) {
      var i: nat :| i < |names| && names[i] == name && Works(w, names, i, answers);
      if i < n {
        assert front[i] == name && Works(w, front, i, answers);
      }
    }
  }

  lemma {:induction false} CallsInOrder(w: World, names: seq<string>, target: LifecycleState, answers: Answers)
    ensures var p := ChangeInOrder(w, names, target, answers);
            && p.world.calls == w.calls + (if p.done < |names| then p.done + 1 else |names|)
            && p.world.hardware.Keys == w.hardware.Keys
            && (forall i: nat | i < p.done :: Works(w, names, i, answers))
            && (p.done < |names| ==> !Works(w, names, p.done, answers))
    decreases |names|
  {
    if names != [] {
      var n := |names| - 1;
      var front := names[..n];
      CallsInOrder(w, front, target, answers);
      assert forall i: nat | i < n :: Works(w, front, i, answers) == Works(w, names, i, answers);
      var before := ChangeInOrder(w, front, target, answers);
      if before.done == n {
        var p := ChangeInOrder(w, names, target, answers);
        assert p.done == if Works(w, names, n, answers) then n + 1 else n;
      }
    }
  }

  lemma {:induction false} StatesInOrder(w: World, names: seq<string>, target: LifecycleState, answers: Answers)
    ensures var p := ChangeInOrder(w, names, target, answers);
            SameExcept(w, p.world, names[..p.done]) && InState(p.world, names[..p.done], target)
    decreases |names|
  {
    if names != [] {
      var n := |names| - 1;
      var front := names[..n];
      StatesInOrder(w, front, target, answers);
      var before := ChangeInOrder(w, front, target, answers);
      assert names[..before.done] == front[..before.done];
      if before.done == n {
        assert front[..n] == front && names[..|names|] == names == front + [names[n]];
        LastInOrder(w, front, names[n], target, answers, before.world);
      }
    }
  }

  /** The calls stop at the first one that fails; the components before it are in the target. */
  lemma InOrder(w: World, names: seq<string>, target: LifecycleState, answers: Answers)
    ensures var p := ChangeInOrder(w, names, target, answers);
            && p.world.calls == w.calls + (if p.done < |names| then p.done + 1 else |names|)
            && SameExcept(w, p.world, names[..p.done]) && InState(p.world, names[..p.done], target)
            && (forall i: nat | i < p.done :: Works(w, names, i, answers))
            && (p.done < |names| ==> !Works(w, names, p.done, answers))
  {
    CallsInOrder(w, names, target, answers);
    StatesInOrder(w, names, target, answers);
  }

  /** One more component after a front that is in the target. */
  lemma LastInOrder(w: World, front: seq<string>, name: string, target: LifecycleState, answers: Answers, v: World)
    requires SameExcept(w, v, front) && InState(v, front, target)
    ensures var r := ChangeHardware(v, name, target, answers);
            && (r.ok ==> SameExcept(w, r.world, front + [name]) && InState(r.world, front + [name], target))
            && (!r.ok ==> SameExcept(w, r.world, front) && InState(r.world, front, target))
  {
  }

  lemma EachSucceeds(w: World, names: seq<string>, target: LifecycleState, answers: Answers)
    requires forall name | name in names :: name in w.hardware
    requires forall k | w.calls <= k < w.calls + |names| :: answers(k)
    ensures var r := ChangeEach(w, names, target, answers);
            r.ok && InState(r.world, names, target) && SameExcept(w, r.world, names)
            && r.world.calls == w.calls + |names|
  {
    EachComponent(w, names, target, answers);
    forall i: nat | i < |names|
      ensures Works(w, names, i, answers)
    {
    }
    forall name | name in names
      ensures Reached(w, names, name, answers)
    {
      var i: nat :| i < |names| && names[i] == name;
      assert Works(w, names, i, answers);
    }
  }

  lemma BackAgain(w: World, v: World, names: seq<string>, state: LifecycleState)
    requires SameExcept(w, v, names) && InState(w, names, state) && InState(v, names, state)
    ensures v.hardware == w.hardware && v.running == w.running
  {
    assert forall name | name in w.hardware :: v.hardware[name] == w.hardware[name];
  }

  /** The service call a transition fails at: the hardware call that did not work, or else the next call. */
  function FailedCall(w: World, names: seq<string>, target: LifecycleState, answers: Answers): nat {
    w.calls + ChangeInOrder(w, names, target, answers).done
  }

  /** Every call made after call `k`, up to the end in `v`, is answered with success. */
  predicate RestAnswered(k: nat, v: World, answers: Answers) {
    forall j | k < j < v.calls :: answers(j)
  }

  /** Exactly what a bring-up leaves behind: a component whose call worked is rolled back exactly when one of
      the rollback calls for it works; no other component changes. */
  lemma BringUpOutcome(w: World, names: seq<string>, target: LifecycleState, earlier: LifecycleState,
                       answers: Answers, name: string)
    requires name in w.hardware
    ensures var p := ChangeInOrder(w, names, target, answers);
            var r := BringUp(w, names, target, earlier, answers);
            && (r.ok <==> forall i: nat | i < |names| :: Works(w, names, i, answers))
            && r.world.hardware.Keys == w.hardware.Keys
            && r.world.hardware[name] ==
                 if name !in names[..p.done] then w.hardware[name]
                 else if !r.ok && Reached(p.world, names[..p.done], name, answers) then earlier
                 else target
  {
    InOrder(w, names, target, answers);
    var p := ChangeInOrder(w, names, target, answers);
    if p.done < |names| {
      EachComponent(p.world, names[..p.done], earlier, answers);
      assert !Works(w, names, p.done, answers);
    }
  }

  /** All or nothing: success puts every component into the target; after a failure whose rollback calls all
      succeed, every component is where it was. */
  lemma BringUpAllOrNothing(w: World, names: seq<string>, target: LifecycleState, earlier: LifecycleState,
                            answers: Answers)
    requires forall name | name in names && name in w.hardware :: w.hardware[name] == earlier
    ensures var r := BringUp(w, names, target, earlier, answers);
            && (r.ok ==> InState(r.world, names, target) && SameExcept(w, r.world, names)
                         && InState(w, names, earlier) && r.world.calls == w.calls + |names|
                         && FailedCall(w, names, target, answers) == r.world.calls)
            && (!r.ok && RestAnswered(FailedCall(w, names, target, answers), r.world, answers) ==>
                  r.world.hardware == w.hardware && r.world.running == w.running)
            && (!r.ok ==> FailedCall(w, names, target, answers) < r.world.calls)
  {
    InOrder(w, names, target, answers);
    var p := ChangeInOrder(w, names, target, answers);
    var r := BringUp(w, names, target, earlier, answers);
    if p.done == |names| {
      assert names[..p.done] == names;
      forall name | name in names
        ensures name in w.hardware && w.hardware[name] == earlier
      {
        assert InState(p.world, names[..p.done], target);
      }
    } else {
      var reached := names[..p.done];
      EachComponent(p.world, reached, earlier, answers);
      if RestAnswered(FailedCall(w, names, target, answers), r.world, answers) {
        EachSucceeds(p.world, reached, earlier, answers);
        assert InState(w, reached, earlier) by {
          forall name | name in reached
            ensures name in w.hardware && w.hardware[name] == earlier
          {
            assert name in names && name in p.world.hardware;
          }
        }
        BackAgain(w, r.world, reached, earlier);
      }
    }
  }

  // ----- all or nothing for the transitions -----

  /** Configuring: success means every component is inactive and the configuration controllers run; failure
      with successful rollback calls means nothing has changed. */
  lemma ConfigureAllOrNothing(w: World, robots: seq<string>, controllers: set<string>, answers: Answers)
    requires forall name | name in robots && name in w.hardware :: w.hardware[name] == Unconfigured
    ensures var r := Configure(w, robots, controllers, answers);
            && (r.ok ==> InState(r.world, robots, Inactive) && SameExcept(w, r.world.(running := w.running), robots)
                         && r.world.running == w.running + controllers)
            && (!r.ok && RestAnswered(FailedCall(w, robots, Inactive, answers), r.world, answers) ==>
                  && r.world.hardware == w.hardware
                  && (controllers !! w.running ==> r.world.running == w.running))
  {
    BringUpAllOrNothing(w, robots, Inactive, Unconfigured, answers);
    var up := BringUp(w, robots, Inactive, Unconfigured, answers);
    var r := Configure(w, robots, controllers, answers);
    if up.ok && !r.ok {
      var failed := Counted(up.world);
      var stopped := SwitchControllers(failed, {}, controllers, answers).world;
      EachComponent(stopped, robots, Unconfigured, answers);
      if RestAnswered(FailedCall(w, robots, Inactive, answers), r.world, answers) {
        EachSucceeds(stopped, robots, Unconfigured, answers);
        BackAgain(w, r.world.(running := w.running), robots, Unconfigured);
      }
    }
  }

  /** Deactivating: success means every component is inactive and the controllers are stopped. An error names a
      component whose call failed, or the switch call; every component whose call worked is inactive. */
  lemma DeactivateOutcome(w: World, robots: seq<string>, controllers: set<string>, answers: Answers)
    ensures var r := Deactivate(w, robots, controllers, answers);
            && r.world.hardware.Keys == w.hardware.Keys
            && (forall name | name in w.hardware :: r.world.hardware[name] ==
                  if Reached(w, Backwards(robots), name, answers) then Inactive else w.hardware[name])
            && (r.ok <==>
                  && (forall i: nat | i < |Backwards(robots)| :: Works(w, Backwards(robots), i, answers))
                  && answers(w.calls + |robots|))
            && r.world.running == (if r.ok then w.running - controllers else w.running)
            && (r.ok ==> InState(r.world, robots, Inactive))
  {
    var back := Backwards(robots);
    EachComponent(w, back, Inactive, answers);
    var r := Deactivate(w, robots, controllers, answers);
    if r.ok {
      forall name | name in robots
        ensures name in w.hardware && Reached(w, back, name, answers)
      {
        assert name in back;
        var i: nat :| i < |back| && back[i] == name;
        assert Works(w, back, i, answers);
      }
    }
  }

  lemma DeactivateSucceeds(w: World, robots: seq<string>, controllers: set<string>, answers: Answers)
    requires forall name | name in robots :: name in w.hardware
    requires forall k | w.calls <= k <= w.calls + |robots| :: answers(k)
    ensures var r := Deactivate(w, robots, controllers, answers);
            && r.ok && InState(r.world, robots, Inactive) && SameExcept(w, r.world.(running := w.running), robots)
            && r.world.running == w.running - controllers && r.world.calls == w.calls + |robots| + 1
  {
    var back := Backwards(robots);
    EachSucceeds(w, back, Inactive, answers);
    var down := ChangeEach(w, back, Inactive, answers);
    assert Deactivate(w, robots, controllers, answers) == SwitchControllers(down.world, {}, controllers, answers);
  }

  /** Starting: success means every component is active and the controllers run; failure with successful
      rollback calls means nothing has changed. */
  lemma StartAllOrNothing(w: World, robots: seq<string>, controllers: set<string>, answers: Answers)
    requires forall name | name in robots && name in w.hardware :: w.hardware[name] == Inactive
    ensures var r := Start(w, robots, controllers, answers);
            && (r.ok ==> InState(r.world, robots, Active) && SameExcept(w, r.world.(running := w.running), robots)
                         && r.world.running == w.running + controllers)
            && (!r.ok && RestAnswered(FailedCall(w, robots, Active, answers), r.world, answers) ==>
                  && r.world.hardware == w.hardware
                  && (controllers !! w.running ==> r.world.running == w.running))
  {
    BringUpAllOrNothing(w, robots, Active, Inactive, answers);
    var up := BringUp(w, robots, Active, Inactive, answers);
    var r := Start(w, robots, controllers, answers);
    if up.ok && !r.ok {
      var failed := Counted(up.world);
      var back := Backwards(robots);
      EachComponent(failed, back, Inactive, answers);
      if RestAnswered(FailedCall(w, robots, Active, answers), r.world, answers) {
        EachSucceeds(failed, back, Inactive, answers);
        assert r == Reply(Deactivate(failed, robots, controllers, answers).world, false);
        DeactivateSucceeds(failed, robots, controllers, answers);
        BackAgain(w, r.world.(running := w.running), robots, Inactive);
      }
    }
  }

  /** The call an activation fails at. */
  function FailedActivationCall(w: World, robots: seq<string>, answers: Answers): nat {
    var cycleTime := ChangeCycleTime(w, robots, answers);
    if cycleTime.ok then FailedCall(cycleTime.world, robots, Active, answers) else w.calls
  }

  lemma ActivateAllOrNothing(w: World, robots: seq<string>, controllers: set<string>, answers: Answers)
    requires forall name | name in robots && name in w.hardware :: w.hardware[name] == Inactive
    ensures var r := Activate(w, robots, controllers, answers);
            && (r.ok ==> InState(r.world, robots, Active) && SameExcept(w, r.world.(running := w.running), robots)
                         && r.world.running == w.running + controllers)
            && (!r.ok && RestAnswered(FailedActivationCall(w, robots, answers), r.world, answers) ==>
                  && r.world.hardware == w.hardware
                  && (controllers !! w.running ==> r.world.running == w.running))
  {
    var cycleTime := ChangeCycleTime(w, robots, answers);
    if cycleTime.ok {
      StartAllOrNothing(cycleTime.world, robots, controllers, answers);
    }
  }

  // ----- exactly when a transition succeeds -----

  /** All components are known, and the calls `first` to `last` are answered with success. */
  predicate AllAnswer(w: World, robots: seq<string>, first: nat, last: nat, answers: Answers) {
    (forall name | name in robots :: name in w.hardware) && forall k | first <= k <= last :: answers(k)
  }

  lemma BringUpSucceedsExactly(w: World, names: seq<string>, target: LifecycleState, earlier: LifecycleState,
                               answers: Answers)
    ensures var r := BringUp(w, names, target, earlier, answers);
            && (r.ok <==> forall i: nat | i < |names| :: Works(w, names, i, answers))
            && (r.ok ==> r.world.calls == w.calls + |names|)
  {
    InOrder(w, names, target, answers);
  }

  /** One call for each component and one for the controllers have to be answered. */
  lemma AllWork(w: World, names: seq<string>, answers: Answers)
    ensures (forall i: nat | i < |names| :: Works(w, names, i, answers)) && answers(w.calls + |names|)
            <==> AllAnswer(w, names, w.calls, w.calls + |names|, answers)
  {
    if (forall i: nat | i < |names| :: Works(w, names, i, answers)) && answers(w.calls + |names|) {
      forall k | w.calls <= k <= w.calls + |names|
        ensures answers(k)
      {
        if k < w.calls + |names| {
          assert Works(w, names, k - w.calls, answers);
        }
      }
      forall name | name in names
        ensures name in w.hardware
      {
        var i: nat :| i < |names| && names[i] == name;
        assert Works(w, names, i, answers);
      }
    }
  }

  lemma ConfigureSucceedsExactly(w: World, robots: seq<string>, controllers: set<string>, answers: Answers)
    ensures Configure(w, robots, controllers, answers).ok
            <==> AllAnswer(w, robots, w.calls, w.calls + |robots|, answers)
  {
    BringUpSucceedsExactly(w, robots, Inactive, Unconfigured, answers);
    AllWork(w, robots, answers);
  }

  lemma StartSucceedsExactly(w: World, robots: seq<string>, controllers: set<string>, answers: Answers)
    ensures Start(w, robots, controllers, answers).ok <==> AllAnswer(w, robots, w.calls, w.calls + |robots|, answers)
  {
    BringUpSucceedsExactly(w, robots, Active, Inactive, answers);
    AllWork(w, robots, answers);
  }

  /** With a single robot the call for the cycle time comes first, and its refusal fails the activation before any
      component is touched. */
  lemma ActivateSucceedsExactly(w: World, robots: seq<string>, controllers: set<string>, answers: Answers)
    ensures var r := Activate(w, robots, controllers, answers);
            && (r.ok <==> AllAnswer(w, robots, w.calls, w.calls + (if |robots| == 1 then 2 else |robots|), answers))
            && (|robots| == 1 && !answers(w.calls) ==> r == Reply(w.(calls := w.calls + 1), false))
  {
    var cycleTime := ChangeCycleTime(w, robots, answers);
    if cycleTime.ok {
      StartSucceedsExactly(cycleTime.world, robots, controllers, answers);
    }
  }

  /** Cleaning up goes on after a failed call; each component whose call works is unconfigured, and the success does not
      depend on the controllers. */
  lemma CleanupOutcome(w: World, robots: seq<string>, controllers: set<string>, answers: Answers)
    ensures var r := Cleanup(w, robots, controllers, answers);
            var after := w.(calls := w.calls + 1);
            && r.world.hardware.Keys == w.hardware.Keys
            && (forall name | name in w.hardware :: r.world.hardware[name] ==
                  if Reached(after, robots, name, answers) then Unconfigured else w.hardware[name])
            && (r.ok <==> forall i: nat | i < |robots| :: Works(after, robots, i, answers))
            && r.world.running == (if answers(w.calls) then w.running - controllers else w.running)
  {
    var stopped := SwitchControllers(w, {}, controllers, answers).world;
    EachComponent(stopped, robots, Unconfigured, answers);
    var after := w.(calls := w.calls + 1);
    forall i: nat | i < |robots|
      ensures Works(after, robots, i, answers) == Works(stopped, robots, i, answers)
    {
    }
    forall name | name in w.hardware
      ensures Reached(after, robots, name, answers) == Reached(stopped, robots, name, answers)
    {
      SameReach(after, stopped, robots, name, answers);
    }
  }

  lemma SameReach(w: World, v: World, names: seq<string>, name: string, answers: Answers)
    requires w.hardware == v.hardware && w.calls == v.calls
    ensures Reached(w, names, name, answers) == Reached(v, names, name, answers)
  {
    assert forall i: nat | i < |names| :: Works(w, names, i, answers) == Works(v, names, i, answers);
  }

  // ----- the controller manager and the node -----

  /** The services of the controller manager. */
  class ControllerManager {
    var hardware: map<string, LifecycleState>
    var running: set<string>
    var calls: nat
    const answers: Answers

    ghost function View(): World
      reads this
    {
      World(hardware, running, calls)
    }

    constructor (components: map<string, LifecycleState>, responses: Answers)
      ensures View() == World(components, {}, 0) && answers == responses
    {
      hardware, running, calls, answers := components, {}, 0, responses;
    }

    method ChangeHardwareState(name: string, target: LifecycleState) returns (ok: bool)
      modifies this
      ensures Reply(View(), ok) == ChangeHardware(old(View()), name, target, answers)
    {
      ok := answers(calls) && name in hardware;
      calls := calls + 1;
      if ok {
        hardware := hardware[name := target];
      }
    }

    method ChangeControllerState(start: set<string>, stop: set<string>) returns (ok: bool)
      modifies this
      ensures Reply(View(), ok) == SwitchControllers(old(View()), start, stop, answers)
    {
      ok := answers(calls);
      calls := calls + 1;
      if ok {
        running := running - stop + start;
      }
    }

    /** Also the loop that rolls back the components before the failed one. */
    method ChangeHardwareStates(names: seq<string>, target: LifecycleState) returns (all: bool)
      modifies this
      ensures Reply(View(), all) == ChangeEach(old(View()), names, target, answers)
    {
      all := true;
      for i := 0 to |names|
        invariant Reply(View(), all) == ChangeEach(old(View()), names[..i], target, answers)
      {
        assert names[..i + 1][..i] == names[..i];
        var ok := ChangeHardwareState(names[i], target);
        if !ok {
          all := false;
        }
      }
      assert names[..|names|] == names;
    }

    method BringUpHardware(names: seq<string>, target: LifecycleState, earlier: LifecycleState) returns (ok: bool)
      modifies this
      ensures Reply(View(), ok) == BringUp(old(View()), names, target, earlier, answers)
    {
      for i := 0 to |names|
        invariant Progress(View(), i) == ChangeInOrder(old(View()), names[..i], target, answers)
      {
        assert names[..i + 1][..i] == names[..i];
        ok := ChangeHardwareState(names[i], target);
        if !ok {
          StopsThere(old(View()), names, i, target, answers);
          var rolledBack := ChangeHardwareStates(names[..i], earlier);
          return false;
        }
      }
      assert names[..|names|] == names;
      ok := true;
    }
  }

  lemma {:induction false} StopsThere(w: World, names: seq<string>, i: nat, target: LifecycleState, answers: Answers)
    requires i < |names| && ChangeInOrder(w, names[..i + 1], target, answers).done == i
    ensures ChangeInOrder(w, names, target, answers) == ChangeInOrder(w, names[..i + 1], target, answers)
    decreases |names|
  {
    if i + 1 < |names| {
      var front := names[..|names| - 1];
      assert front[..i + 1] == names[..i + 1];
      StopsThere(w, front, i, target, answers);
    } else {
      assert names[..i + 1] == names;
    }
  }

  class RobotManagerBase {
    const robots: seq<string>
    const manager: ControllerManager

    constructor (models: seq<string>, controllerManager: ControllerManager)
      ensures robots == models && manager == controllerManager
    {
      robots, manager := models, controllerManager;
    }

    method ConfigureDriver(controllers: set<string>) returns (ok: bool)
      modifies manager
      ensures Reply(manager.View(), ok) == Configure(old(manager.View()), robots, controllers, manager.answers)
    {
      ok := manager.BringUpHardware(robots, Inactive, Unconfigured);
      if !ok {
        return;
      }
      ok := manager.ChangeControllerState(controllers, {});
      if !ok {
        var cleaned := CleanupDriver(controllers);
      }
    }

    method CleanupDriver(controllers: set<string>) returns (ok: bool)
      modifies manager
      ensures Reply(manager.View(), ok) == Cleanup(old(manager.View()), robots, controllers, manager.answers)
    {
      var stopped := manager.ChangeControllerState({}, controllers);
      ok := manager.ChangeHardwareStates(robots, Unconfigured);
    }

    method OnActivate(controllers: set<string>) returns (ok: bool)
      modifies manager
      ensures Reply(manager.View(), ok) == Activate(old(manager.View()), robots, controllers, manager.answers)
    {
      ok := SetUpdateRate();
      if !ok {
        return;
      }
      ok := manager.BringUpHardware(robots, Active, Inactive);
      if !ok {
        return;
      }
      ok := manager.ChangeControllerState(controllers, {});
      if !ok {
        var stopped := OnDeactivate(controllers);
      }
    }

    method SetUpdateRate() returns (ok: bool)
      modifies manager
      ensures Reply(manager.View(), ok) == ChangeCycleTime(old(manager.View()), robots, manager.answers)
    {
      if |robots| != 1 {
        return true;
      }
      ok := manager.answers(manager.calls);
      manager.calls := manager.calls + 1;
    }

    method OnDeactivate(controllers: set<string>) returns (ok: bool)
      modifies manager
      ensures Reply(manager.View(), ok) == Deactivate(old(manager.View()), robots, controllers, manager.answers)
    {
      ok := true;
      var i := |robots|;
      while i > 0
        invariant 0 <= i <= |robots|
        invariant Reply(manager.View(), ok)
               == ChangeEach(old(manager.View()), Backwards(robots)[..|robots| - i], Inactive, manager.answers)
      {
        var back := Backwards(robots);
        var j := |robots| - i;
        assert back[..j + 1][..j] == back[..j] && back[..j + 1][j] == robots[i - 1];
        i := i - 1;
        var changed := manager.ChangeHardwareState(robots[i], Inactive);
        if !changed {
          ok := false;
        }
      }
      assert Backwards(robots)[..|robots|] == Backwards(robots);
      if ok {
        ok := manager.ChangeControllerState({}, controllers);
      }
    }
  }
}
