/** What the wait of a mode change goes by: a flag that every start of control sets, also that of the activation. */
module RestartWait {
  import opened Words
  import opened RobotManager
  import opened ControllerModes

  /** What bears on the flag: an event that is heard, or the end of a wait. */
  datatype Mark = Noted(event: HardwareEvent) | Waited

  predicate Clears(m: Mark) {
    m == Noted(ControlModeSwitch) || m == Waited
  }

  /** A start was heard after which no mode switch was heard and no wait ended. */
  predicate StartStands(marks: seq<Mark>) {
    exists i | 0 <= i < |marks| :: StandsAt(marks, i)
  }

  predicate StandsAt(marks: seq<Mark>, i: nat)
    requires i < |marks|
  {
    marks[i] == Noted(ControlStarted) && forall j | i < j < |marks| :: !Clears(marks[j])
  }

  function Notes(events: seq<HardwareEvent>): seq<Mark> {
    seq(|events|, i requires 0 <= i < |events| => Noted(events[i]))
  }

  predicate ChangesMode(node: Node, p: Parameter) {
    && node.state.Active? && p.name == "control_mode" && p.value.Number?
    && Int32Of(p.value.number) % 256 != node.mode && Int32Of(p.value.number) in MODES
  }

  function MarksOfCallback(node: Node, p: Parameter, env: Surroundings): seq<Mark> {
    if !ChangesMode(node, p) then []
    else Notes(env.heard(node.world.calls).stopping) + if env.answers(node.world.calls) then [Waited] else []
  }

  function MarksOfBatch(node: Node, batch: seq<Parameter>, env: Surroundings): seq<Mark>
    decreases |batch|
  {
    if batch == [] then []
    else
      var front := batch[..|batch| - 1];
      MarksOfBatch(node, front, env)
        + MarksOfCallback(SetParameters(node, front, env).node, batch[|batch| - 1], env)
  }

  function MarksOf(node: Node, requests: seq<Request>, env: Surroundings): seq<Mark>
    decreases |requests|
  {
    if requests == [] then []
    else
      var front := requests[..|requests| - 1];
      MarksOf(node, front, env) +
        match requests[|requests| - 1]
        case Set(batch) => MarksOfBatch(Run(node, front, env), batch, env)
        case Hear(event) => [Noted(event)]
        case _ => []
  }

  // ----- the flag in closed form -----

  /** The flag, by the last mark that bears on it. */
  function FlagOver(flag: bool, marks: seq<Mark>): bool {
    if marks == [] then flag
    else
      var last := marks[|marks| - 1];
      if last == Noted(ControlStarted) then true
      else if Clears(last) then false
      else FlagOver(flag, marks[..|marks| - 1])
  }

  lemma {:induction false} FlagOverBoth(flag: bool, first: seq<Mark>, second: seq<Mark>)
    ensures FlagOver(flag, first + second) == FlagOver(FlagOver(flag, first), second)
    decreases |second|
  {
    if second == [] {
      assert first + second == first;
    } else {
      assert (first + second)[..|first + second| - 1] == first + second[..|second| - 1];
      FlagOverBoth(flag, first, second[..|second| - 1]);
    }
  }

  lemma {:induction false} FlagOverNotes(flag: bool, events: seq<HardwareEvent>)
    ensures FlagOver(flag, Notes(events)) == FlagAfter(flag, events)
    decreases |events|
  {
    if events != [] {
      assert Notes(events)[..|events| - 1] == Notes(events[..|events| - 1]);
      FlagOverNotes(flag, events[..|events| - 1]);
    }
  }

  lemma {:induction false} FlagIsStandingStart(marks: seq<Mark>)
    ensures FlagOver(false, marks) <==> StartStands(marks)
    decreases |marks|
  {
    if marks != [] {
      var n := |marks| - 1;
      FlagIsStandingStart(marks[..n]);
      StandsStep(marks);
    }
  }

  lemma StandsStep(marks: seq<Mark>)
    requires marks != []
    ensures var last, front := marks[|marks| - 1], marks[..|marks| - 1];
            StartStands(marks) <==> last == Noted(ControlStarted) || (!Clears(last) && StartStands(front))
  {
    var n := |marks| - 1;
    var last, front := marks[n], marks[..n];
    if StartStands(marks) {
      var i :| 0 <= i < |marks| && StandsAt(marks, i);
      assert i == n || StandsAt(front, i);
    }
    if last == Noted(ControlStarted) {
      assert StandsAt(marks, n);
    }
    if !Clears(last) && StartStands(front) {
      var i :| 0 <= i < n && StandsAt(front, i);
      assert StandsAt(marks, i);
    }
  }

  lemma FlagOfCallback(node: Node, p: Parameter, env: Surroundings)
    requires Settable(p.name, node.state)
    ensures Callback(node, p, env).node.changeFinished
         == FlagOver(node.changeFinished, MarksOfCallback(node, p, env))
  {
    if ChangesMode(node, p) {
      var stopping := env.heard(node.world.calls).stopping;
      FlagOverNotes(node.changeFinished, stopping);
      assert Notes(stopping) + [] == Notes(stopping);
      assert Callback(node, p, env) == SwitchMode(node, Int32Of(p.value.number), env);
    }
  }

  lemma {:induction false} FlagOfBatch(node: Node, batch: seq<Parameter>, env: Surroundings)
    ensures SetParameters(node, batch, env).node.changeFinished
         == FlagOver(node.changeFinished, MarksOfBatch(node, batch, env))
    decreases |batch|
  {
    if batch != [] {
      var front, p := batch[..|batch| - 1], batch[|batch| - 1];
      var before := SetParameters(node, front, env).node;
      FlagOfBatch(node, front, env);
      FlagOverBoth(node.changeFinished, MarksOfBatch(node, front, env), MarksOfCallback(before, p, env));
      if Settable(p.name, before.state) {
        FlagOfCallback(before, p, env);
      }
    }
  }

  lemma FlagOfEvent(node: Node, event: HardwareEvent, env: Surroundings)
    ensures Step(node, Hear(event), env).changeFinished == FlagOver(node.changeFinished, [Noted(event)])
  {
    FlagOverNotes(node.changeFinished, [event]);
    assert Notes([event]) == [Noted(event)] && [event][..0] == [];
    assert Deactivated(node, env).changeFinished == node.changeFinished;
  }

  lemma {:induction false} FlagOfRun(node: Node, requests: seq<Request>, env: Surroundings)
    ensures Run(node, requests, env).changeFinished == FlagOver(node.changeFinished, MarksOf(node, requests, env))
    decreases |requests|
  {
    if requests != [] {
      var n := |requests| - 1;
      var front, marks := requests[..n], MarksOf(node, requests[..n], env);
      var before := Run(node, front, env);
      FlagOfRun(node, front, env);
      match requests[n]
      case Set(batch) =>
        FlagOfBatch(before, batch, env);
        FlagOverBoth(node.changeFinished, marks, MarksOfBatch(before, batch, env));
      case Hear(event) =>
        FlagOfEvent(before, event, env);
        FlagOverBoth(node.changeFinished, marks, [Noted(event)]);
      case _ =>
        assert marks + [] == marks;
    }
  }

  // ----- when a mode change relies on a start that came before -----

  /** After any run of a new node, a mode change in the active state succeeds exactly when its two calls do and either
      a start is heard while it waits, or one heard earlier still stands when the wait begins - so the wait ends on a
      stale start exactly in the second case. */
  lemma WaitEndsOnStandingStart(node: Node, requests: seq<Request>, mode: uint8, env: Surroundings)
    requires !node.changeFinished
    ensures var before := Run(node, requests, env);
            var k := before.world.calls;
            var marks := MarksOf(node, requests, env) + Notes(env.heard(k).stopping);
            SwitchMode(before, mode, env).ok
            <==> env.answers(k) && env.answers(k + 1) && (ControlStarted in env.heard(k).waiting || StartStands(marks))
  {
    var before := Run(node, requests, env);
    FlagWhenWaiting(node, requests, env.heard(before.world.calls).stopping, env);
    SwitchedExactly(before, mode, env);
  }

  lemma FlagWhenWaiting(node: Node, requests: seq<Request>, stopping: seq<HardwareEvent>, env: Surroundings)
    requires !node.changeFinished
    ensures FlagAfter(Run(node, requests, env).changeFinished, stopping)
            <==> StartStands(MarksOf(node, requests, env) + Notes(stopping))
  {
    var marks := MarksOf(node, requests, env);
    FlagOfRun(node, requests, env);
    FlagOverNotes(FlagOver(false, marks), stopping);
    FlagOverBoth(false, marks, Notes(stopping));
    FlagIsStandingStart(marks + Notes(stopping));
  }

  lemma SwitchedExactly(node: Node, mode: uint8, env: Surroundings)
    ensures var k := node.world.calls;
            SwitchMode(node, mode, env).ok
            <==> env.answers(k) && env.answers(k + 1)
                 && WaitEnds(FlagAfter(node.changeFinished, env.heard(k).stopping), env.heard(k).waiting)
  {
  }

  lemma {:induction false} FlagIsMonotone(events: seq<HardwareEvent>)
    ensures FlagAfter(false, events) ==> FlagAfter(true, events)
    decreases |events|
  {
    if events != [] {
      FlagIsMonotone(events[..|events| - 1]);
    }
  }

  /** If the robot reports the mode switch while the old controllers are stopped, the wait is for its own start. */
  lemma ReportedInTime(node: Node, mode: uint8, env: Surroundings)
    requires !FlagAfter(true, env.heard(node.world.calls).stopping)
    ensures var k := node.world.calls;
            SwitchMode(node, mode, env).ok
            <==> env.answers(k) && env.answers(k + 1) && ControlStarted in env.heard(k).waiting
  {
    FlagIsMonotone(env.heard(node.world.calls).stopping);
  }

  /** Mode changes whose mode switch and start are reported when the change is over already. */
  function Rounds(modes: seq<uint8>): seq<Request> {
    if modes == [] then []
    else
      Rounds(modes[..|modes| - 1])
        + [Set([Parameter("control_mode", Number(modes[|modes| - 1]))]),
           Hear(ControlModeSwitch), Hear(ControlStarted)]
  }

  function LastOf(mode: uint8, modes: seq<uint8>): uint8 {
    if modes == [] then mode else modes[|modes| - 1]
  }

  /** Each mode is implemented and differs from the one before it. */
  predicate Alternates(mode: uint8, modes: seq<uint8>)
    decreases |modes|
  {
    modes == [] ||
    (var front, last := modes[..|modes| - 1], modes[|modes| - 1];
     Alternates(mode, front) && last in MODES && last != LastOf(mode, front))
  }

  /** Once a start stands, every later change takes the start of the change before it for its own: whatever is heard
      while they wait, all of them succeed, and a start stands again. */
  lemma {:induction false} NeverWaits(node: Node, modes: seq<uint8>, env: Surroundings)
    requires Consistent(node, env) && node.state.Active? && node.changeFinished && Alternates(node.mode, modes)
    requires forall k :: env.answers(k) && env.heard(k).stopping == []
    ensures var r := Run(node, Rounds(modes), env);
            && Consistent(r, env) && r.state.Active? && r.changeFinished && r.mode == LastOf(node.mode, modes)
    decreases |modes|
  {
    if modes != [] {
      var n := |modes| - 1;
      NeverWaits(node, modes[..n], env);
      OneRound(node, Rounds(modes[..n]), modes[n], env);
    }
  }

  lemma OneRound(node: Node, front: seq<Request>, mode: uint8, env: Surroundings)
    requires var before := Run(node, front, env);
             Consistent(before, env) && before.state.Active? && before.changeFinished && before.mode != mode
    requires mode in MODES && forall k :: env.answers(k) && env.heard(k).stopping == []
    ensures var change := Set([Parameter("control_mode", Number(mode))]);
            var r := Run(node, front + [change, Hear(ControlModeSwitch), Hear(ControlStarted)], env);
            Consistent(r, env) && r.state.Active? && r.changeFinished && r.mode == mode
  {
    var before := Run(node, front, env);
    var change := Set([Parameter("control_mode", Number(mode))]);
    SingleChange(before, mode, env);
    SwitchSucceeds(before, mode, env);
    RunNext(node, front, change, env);
    assert front + [change] + [Hear(ControlModeSwitch)] + [Hear(ControlStarted)]
        == front + [change, Hear(ControlModeSwitch), Hear(ControlStarted)];
    HearBoth(node, front + [change], env);
  }

  lemma RunNext(node: Node, front: seq<Request>, request: Request, env: Surroundings)
    ensures Run(node, front + [request], env) == Step(Run(node, front, env), request, env)
  {
    assert (front + [request])[..|front|] == front;
  }

  lemma HearBoth(node: Node, front: seq<Request>, env: Surroundings)
    ensures Run(node, front + [Hear(ControlModeSwitch)] + [Hear(ControlStarted)], env)
         == Run(node, front, env).(changeFinished := true)
  {
    RunNext(node, front, Hear(ControlModeSwitch), env);
    RunNext(node, front + [Hear(ControlModeSwitch)], Hear(ControlStarted), env);
    HearOne(Run(node, front, env), ControlModeSwitch, env);
    HearOne(Run(node, front + [Hear(ControlModeSwitch)], env), ControlStarted, env);
  }

  lemma HearOne(node: Node, event: HardwareEvent, env: Surroundings)
    requires event.ControlStarted? || event.ControlModeSwitch?
    ensures Step(node, Hear(event), env) == node.(changeFinished := event.ControlStarted?)
  {
    assert [event][..0] == [];
  }

  lemma SingleChange(node: Node, mode: uint8, env: Surroundings)
    requires node.state.Active? && mode in MODES && node.mode != mode
    ensures Step(node, Set([Parameter("control_mode", Number(mode))]), env) == SwitchMode(node, mode, env).node
  {
    var p := Parameter("control_mode", Number(mode));
    assert [p][..0] == [];
    assert SetParameters(node, [p], env) == Callback(node, p, env);
  }

  /** The start that the activation brings about is enough: the first mode change does not wait at all. */
  lemma FirstChangeDoesNotWait(node: Node, mode: uint8, env: Surroundings)
    requires var active := Step(node, Activate, env);
             var k := active.world.calls;
             active.state.Active? && env.answers(k) && env.answers(k + 1) && env.heard(k) == Heard([], [])
    ensures SwitchMode(Run(node, [Activate, Hear(ControlStarted)], env), mode, env).ok
  {
    assert [] + [Activate] == [Activate] && [Activate] + [Hear(ControlStarted)] == [Activate, Hear(ControlStarted)];
    RunNext(node, [], Activate, env);
    RunNext(node, [Activate], Hear(ControlStarted), env);
    HearOne(Step(node, Activate, env), ControlStarted, env);
  }
}
