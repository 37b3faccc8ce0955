/** What the generated configuration asks the controller to send and to receive, field by field, for every document. */
module KrcFields {
  import opened Words
  import opened KrcGenerator

  /** The fields of a list of elements, leaving out their indices. */
  function FieldsOf(elements: seq<Element>): (r: seq<Signal>)
    ensures |r| == |elements|
  {
    seq(|elements|, i requires 0 <= i < |elements| =>
      var e := elements[i];
      Signal(e.tag, e.kind, e.index.Some?, e.hold))
  }

  lemma {:induction false} NumberingKeepsFields(signals: seq<Signal>, index: nat)
    ensures FieldsOf(Numbered(signals, index)) == signals
    decreases |signals|
  {
    if signals != [] {
      NumberingKeepsFields(signals[..|signals| - 1], index);
      var all := Numbered(signals, index);
      assert all[..|all| - 1] == Numbered(signals[..|signals| - 1], index);
      assert FieldsOf(all) == FieldsOf(all[..|all| - 1]) + [signals[|signals| - 1]];
    }
  }

  /** The port in the configuration section reads back as it was given. */
  lemma PortReadsBack(clientIp: string, clientPort: int)
    ensures var config := ConfigSection(clientIp, clientPort);
            var magnitude := if clientPort < 0 then -clientPort else clientPort;
            && config == [("IP_NUMBER", clientIp), ("PORT", config[1].1), ("SENTYPE", "KROSHU"), ("ONLYSEND", "FALSE")]
            && config[1].1 == (if clientPort < 0 then "-" else "") + Digits(magnitude)
            && (forall i | 0 <= i < |Digits(magnitude)| :: IsDigit(Digits(magnitude)[i]))
            && NumberIn(Digits(magnitude)) == magnitude
  {
    DigitsReadBack(if clientPort < 0 then -clientPort else clientPort);
  }

  // ----- the parts of a document -----

  /** What counts as missing. */
  predicate Nothing(y: Yaml) {
    y == Null || y == Bool(false) || y == Number(0) || y == Text("") || y == List([]) || y == Map([])
  }

  lemma OnlyNothingIsFalse(y: Yaml)
    ensures Truthy(y) <==> !Nothing(y)
  {
  }

  /** A part that is missing, or false in any way, counts as empty. */
  function Part(node: Yaml, key: string): Yaml
    requires node.Map?
  {
    var value := Get(node, key, Null);
    if Nothing(value) then Map([]) else value
  }

  lemma SectionIsPart(node: Yaml, key: string)
    requires node.Map?
    ensures Section(node, key) == Success(Part(node, key))
  {
    LookupDefault(node.entries, key, Map([]), Null);
  }

  lemma {:induction false} LookupDefault(entries: seq<(string, Yaml)>, key: string, a: Yaml, b: Yaml)
    ensures Lookup(entries, key, a) == Lookup(entries, key, b)
            || (Lookup(entries, key, a) == a && Lookup(entries, key, b) == b)
    decreases |entries|
  {
    if entries != [] {
      LookupDefault(entries[1..], key, a, b);
    }
  }

  function ElementOf(node: Yaml, default: string, other: Yaml -> string): string
    requires node.Map?
  {
    Show(Get(node, "xml_element", Text(default)), other)
  }

  /** The attributes of a group; where none are given, or an empty list, those by default. */
  function AttributesOf(node: Yaml, default: seq<string>, other: Yaml -> string): seq<string>
    requires node.Map?
  {
    var given := Get(node, "xml_attributes", Null);
    if Nothing(given) then default
    else
      match Items(given)
      case Success(items) => Texts(items, other)
      case Failure(_) => []
  }

  /** One field per attribute. */
  function Fields(elem: string, attributes: seq<string>, kind: string, hold: Option<bool>): (r: seq<Signal>)
    ensures |r| == |attributes|
  {
    seq(|attributes|, i requires 0 <= i < |attributes| => Signal(elem + "." + attributes[i], kind, true, hold))
  }

  // ----- what is received -----

  /** The entries of external joints. */
  ghost function ExternalEntries(positions: seq<Entry>): set<nat> {
    set i: nat | i < |positions| && positions[i].elem == "EIPos"
  }

  lemma {:induction false} ExternalIsCounted(positions: seq<Entry>)
    ensures External(positions) == |ExternalEntries(positions)| <= |positions|
    decreases |positions|
  {
    if positions == [] {
      assert ExternalEntries(positions) == {};
    } else {
      var n := |positions| - 1;
      ExternalIsCounted(positions[..n]);
      var front := ExternalEntries(positions[..n]);
      assert ExternalEntries(positions) == front + if positions[n].elem == "EIPos" then {n} else {};
      assert n !in front;
    }
  }

  /** A1 to An, or E1 to Em. */
  function AxisNames(letter: char, n: nat): seq<string> {
    seq(n, i requires 0 <= i => [letter] + Digits(i + 1))
  }

  /** The fields of position commands. */
  function PositionFields(node: Yaml, elem: string, axes: seq<string>, other: Yaml -> string): seq<Signal>
    requires node.Map?
  {
    Fields(ElementOf(node, elem, other), AttributesOf(node, axes, other), "DOUBLE", Some(true))
  }

  /** The fields of velocity or torque commands, which can be left out or switched off; here an empty list asks for
      none. */
  function OptionalFields(control: Yaml, key: string, elem: string, axes: seq<string>, other: Yaml -> string)
    : seq<Signal>
    requires control.Map?
  {
    var node := Get(control, key, Null);
    if !node.Map? || Get(node, "enabled", Bool(true)) == Bool(false) then []
    else
      var given := Get(node, "xml_attributes", Null);
      Fields(ElementOf(node, elem, other), if given.List? then Texts(given.items, other) else axes, "DOUBLE",
             Some(true))
  }

  /** The fields of the outputs, which are by default those of the inputs. */
  function OutputFields(control: Yaml, inputs: seq<string>, other: Yaml -> string): seq<Signal>
    requires control.Map?
  {
    var node := Get(control, "gpio", Null);
    if !node.Map? then []
    else Fields(ElementOf(node, "GPIO", other), AttributesOf(node, inputs, other), "BOOL", Some(true))
  }

  /** Everything received: stop, then positions, velocities and torques, each for internal and for external joints, then
      the outputs. There are `n` internal and `m` external joints. */
  function ReceivedFields(control: Yaml, n: nat, m: nat, inputs: seq<string>, other: Yaml -> string): seq<Signal>
    requires control.Map?
  {
    var a, e := AxisNames('A', n), AxisNames('E', m);
    var joints, external := Part(control, "joints"), Get(control, "ext_joints", Null);
    [Signal("Stop", "BOOL", true, Some(false))]
    + (if joints.Map? then PositionFields(joints, "AK", a, other) else [])
    + (if external.Map? then PositionFields(external, "EK", e, other) else [])
    + OptionalFields(control, "velocities", "VK", a, other)
    + OptionalFields(control, "ext_velocities", "EVK", e, other)
    + OptionalFields(control, "torques", "TK", a, other)
    + OptionalFields(control, "ext_torques", "ETK", e, other)
    + OutputFields(control, inputs, other)
  }

  lemma AxesAreNamed(letter: char, n: nat, other: Yaml -> string)
    ensures Texts(Axes(letter, n), other) == AxisNames(letter, n)
  {
  }

  lemma CommandsAreFields(elem: string, attributes: seq<string>, kind: string)
    ensures Commands(elem, attributes, kind) == Fields(elem, attributes, kind, Some(true))
  {
  }

  lemma PositionsAreFields(node: Yaml, elem: string, axes: seq<Yaml>, other: Yaml -> string)
    ensures var r := PositionCommands(node, elem, axes, other);
            r.Success? ==> node.Map? && r.value == PositionFields(node, elem, Texts(axes, other), other)
  {
    if node.Map? {
      LookupDefault(node.entries, "xml_attributes", List([]), Null);
    }
  }

  lemma OptionalsAreFields(control: Yaml, key: string, elem: string, axes: seq<Yaml>, other: Yaml -> string)
    requires control.Map?
    ensures var r := OptionalCommands(control, key, elem, axes, other);
            r.Success? ==> r.value == OptionalFields(control, key, elem, Texts(axes, other), other)
  {
    var node := Get(control, key, Null);
    if node.Map? {
      LookupDefault(node.entries, "xml_attributes", List(axes), Null);
    }
  }

  lemma OutputsAreFields(control: Yaml, gpio: Gpio, other: Yaml -> string)
    requires control.Map?
    ensures var r := GpioCommands(control, gpio, other);
            r.Success? ==> r.value == OutputFields(control, Texts(gpio.items, other), other)
  {
    var node := Get(control, "gpio", Null);
    if node.Map? {
      LookupDefault(node.entries, "xml_attributes", List([]), Null);
    }
  }

  lemma ExtAreFields(control: Yaml, m: nat, other: Yaml -> string)
    requires control.Map? && ExtCommands(control, m, other).Success?
    ensures var external := Get(control, "ext_joints", Null);
            ExtCommands(control, m, other).value
            == if external.Map? then PositionFields(external, "EK", AxisNames('E', m), other) else []
  {
    PositionsAreFields(Get(control, "ext_joints", Null), "EK", Axes('E', m), other);
    AxesAreNamed('E', m, other);
  }

  lemma JointsAreFields(control: Yaml, layout: Layout, other: Yaml -> string)
    requires JointCommands(control, layout, other).Success?
    ensures control.Map?
    ensures var m := |ExternalEntries(layout.positions)|;
            var joints, external := Part(control, "joints"), Get(control, "ext_joints", Null);
            && m <= |layout.positions|
            && JointCommands(control, layout, other).value
               == (if joints.Map? then PositionFields(joints, "AK", AxisNames('A', |layout.positions| - m), other)
                   else [])
                  + if external.Map? then PositionFields(external, "EK", AxisNames('E', m), other) else []
  {
    ExternalIsCounted(layout.positions);
    var m := External(layout.positions);
    SectionIsPart(control, "joints");
    IntAreFields(Part(control, "joints"), |layout.positions| - m, other);
    ExtAreFields(control, m, other);
  }

  lemma IntAreFields(joints: Yaml, n: nat, other: Yaml -> string)
    ensures var r := PositionCommands(joints, "AK", Axes('A', n), other);
            r.Success? ==> joints.Map? && r.value == PositionFields(joints, "AK", AxisNames('A', n), other)
  {
    PositionsAreFields(joints, "AK", Axes('A', n), other);
    AxesAreNamed('A', n, other);
  }

  /** The elements ask for these fields, where all joints but those of external entries are internal. */
  ghost predicate Receives(receive: seq<Element>, control: Yaml, positions: seq<Entry>, inputs: seq<string>,
                           other: Yaml -> string)
    requires control.Map?
  {
    var m := |ExternalEntries(positions)|;
    m <= |positions| && FieldsOf(receive) == ReceivedFields(control, |positions| - m, m, inputs, other)
  }

  /** For every accepted document, what is received is exactly what its control part asks for, with the axes of all
      joints by default: as many external ones as there are positions of the external element. */
  lemma ReceivedFieldsAreTheAskedOnes(config: Yaml, other: Yaml -> string)
    requires Build(config, other).Success?
    ensures config.Map? && Part(config, "motion_state").Map? && Part(config, "control_signal").Map?
    ensures ReadLayout(Part(config, "motion_state")).Success?
    ensures var motion, control := Part(config, "motion_state"), Part(config, "control_signal");
            && Part(motion, "gpio").Map?
            && Receives(Build(config, other).value.receive, control, ReadLayout(motion).value.positions,
                        AttributesOf(Part(motion, "gpio"), [], other), other)
  {
    BuiltFromParts(config, other);
    var motion, control := Part(config, "motion_state"), Part(config, "control_signal");
    GpioStateIsRead(motion, other);
    ReceivedFrom(control, ReadLayout(motion).value, ReadGpioState(motion, other).value, other);
  }

  lemma BuiltFromParts(config: Yaml, other: Yaml -> string)
    requires Build(config, other).Success?
    ensures config.Map? && Part(config, "motion_state").Map? && Part(config, "control_signal").Map?
    ensures var motion, control := Part(config, "motion_state"), Part(config, "control_signal");
            var layout, cartesian := ReadLayout(motion), ReadCartesian(motion, other);
            var gpio := ReadGpioState(motion, other);
            && layout.Success? && cartesian.Success? && gpio.Success?
            && ReceiveSignals(control, layout.value, gpio.value, other).Success?
            && Build(config, other).value
               == Krc(Numbered(SendSignals(cartesian.value, layout.value, gpio.value, other), 1),
                      Numbered(ReceiveSignals(control, layout.value, gpio.value, other).value, 1))
  {
    SectionIsPart(config, "motion_state");
    SectionIsPart(config, "control_signal");
    var motion, control := Part(config, "motion_state"), Part(config, "control_signal");
    CommandsNeedAMap(control, ReadLayout(motion).value, ReadGpioState(motion, other).value, other);
  }

  lemma ReceivedFrom(control: Yaml, layout: Layout, gpio: Gpio, other: Yaml -> string)
    requires control.Map? && ReceiveSignals(control, layout, gpio, other).Success?
    ensures Receives(Numbered(ReceiveSignals(control, layout, gpio, other).value, 1), control, layout.positions,
                     Texts(gpio.items, other), other)
  {
    ReceivedInOrder(control, layout, gpio, other);
    NumberingKeepsFields(ReceiveSignals(control, layout, gpio, other).value, 1);
  }

  lemma CommandsNeedAMap(control: Yaml, layout: Layout, gpio: Gpio, other: Yaml -> string)
    requires ReceiveSignals(control, layout, gpio, other).Success?
    ensures control.Map?
  {
  }

  lemma GpioStateIsRead(motion: Yaml, other: Yaml -> string)
    requires motion.Map? && ReadGpioState(motion, other).Success?
    ensures var part := Part(motion, "gpio");
            var gpio := ReadGpioState(motion, other).value;
            && part.Map? && gpio.elem == ElementOf(part, "GPIO", other)
            && Texts(gpio.items, other) == AttributesOf(part, [], other)
  {
    SectionIsPart(motion, "gpio");
    var part := Part(motion, "gpio");
    LookupDefault(part.entries, "xml_attributes", List([]), Null);
  }

  lemma ReceivedInOrder(control: Yaml, layout: Layout, gpio: Gpio, other: Yaml -> string)
    requires ReceiveSignals(control, layout, gpio, other).Success?
    ensures control.Map?
    ensures var m := |ExternalEntries(layout.positions)|;
            && m <= |layout.positions|
            && ReceiveSignals(control, layout, gpio, other).value
               == ReceivedFields(control, |layout.positions| - m, m, Texts(gpio.items, other), other)
  {
    JointsAreFields(control, layout, other);
    PairIsFields(control, VELOCITIES, VELOCITY_ELEMENTS, layout, other);
    PairIsFields(control, TORQUES, TORQUE_ELEMENTS, layout, other);
    OutputsAreFields(control, gpio, other);
    var m := |ExternalEntries(layout.positions)|;
    PartsInOrder(control, |layout.positions| - m, m, Texts(gpio.items, other), other,
                 JointCommands(control, layout, other).value,
                 SignalPair(control, VELOCITIES, VELOCITY_ELEMENTS, layout, other).value,
                 SignalPair(control, TORQUES, TORQUE_ELEMENTS, layout, other).value,
                 GpioCommands(control, gpio, other).value);
  }

  lemma PartsInOrder(control: Yaml, n: nat, m: nat, inputs: seq<string>, other: Yaml -> string,
                     joints: seq<Signal>, velocities: seq<Signal>, torques: seq<Signal>, outputs: seq<Signal>)
    requires control.Map?
    requires var node, external := Part(control, "joints"), Get(control, "ext_joints", Null);
             joints == (if node.Map? then PositionFields(node, "AK", AxisNames('A', n), other) else [])
                       + if external.Map? then PositionFields(external, "EK", AxisNames('E', m), other) else []
    requires velocities == OptionalFields(control, "velocities", "VK", AxisNames('A', n), other)
                           + OptionalFields(control, "ext_velocities", "EVK", AxisNames('E', m), other)
    requires torques == OptionalFields(control, "torques", "TK", AxisNames('A', n), other)
                        + OptionalFields(control, "ext_torques", "ETK", AxisNames('E', m), other)
    requires outputs == OutputFields(control, inputs, other)
    ensures [STOP] + joints + velocities + torques + outputs == ReceivedFields(control, n, m, inputs, other)
  {
    var a, e := AxisNames('A', n), AxisNames('E', m);
    var node, external := Part(control, "joints"), Get(control, "ext_joints", Null);
    InOneLine([STOP],
              if node.Map? then PositionFields(node, "AK", a, other) else [],
              if external.Map? then PositionFields(external, "EK", e, other) else [],
              OptionalFields(control, "velocities", "VK", a, other),
              OptionalFields(control, "ext_velocities", "EVK", e, other),
              OptionalFields(control, "torques", "TK", a, other),
              OptionalFields(control, "ext_torques", "ETK", e, other),
              outputs);
  }

  lemma InOneLine(s: seq<Signal>, p: seq<Signal>, x: seq<Signal>, v: seq<Signal>, xv: seq<Signal>, t: seq<Signal>,
                  xt: seq<Signal>, g: seq<Signal>)
    ensures s + (p + x) + (v + xv) + (t + xt) + g == s + p + x + v + xv + t + xt + g
  {
    assert s + (p + x) == s + p + x;
    assert s + p + x + (v + xv) == s + p + x + v + xv;
    assert s + p + x + v + xv + (t + xt) == s + p + x + v + xv + t + xt;
  }

  /** One signal for internal and one for external joints. */
  lemma PairIsFields(control: Yaml, names: (string, string), elems: (string, string), layout: Layout,
                     other: Yaml -> string)
    requires control.Map? && SignalPair(control, names, elems, layout, other).Success?
    ensures var m := |ExternalEntries(layout.positions)|;
            && m <= |layout.positions|
            && SignalPair(control, names, elems, layout, other).value
               == OptionalFields(control, names.0, elems.0, AxisNames('A', |layout.positions| - m), other)
                  + OptionalFields(control, names.1, elems.1, AxisNames('E', m), other)
  {
    ExternalIsCounted(layout.positions);
    var m := External(layout.positions);
    OptionalsAreFields(control, names.0, elems.0, Axes('A', |layout.positions| - m), other);
    OptionalsAreFields(control, names.1, elems.1, Axes('E', m), other);
    AxesAreNamed('A', |layout.positions| - m, other);
    AxesAreNamed('E', m, other);
  }

  // ----- what is sent -----

  const DEFAULT_ELEMENTS: set<string> := {"RIst", "AIPos", "EIPos"}

  /** The block that the controller sends by itself. */
  function Block(elem: string): Signal {
    Signal("DEF_" + elem, "DOUBLE", false, None)
  }

  function GroupFields(elem: string, attributes: seq<string>): seq<Signal> {
    if elem in DEFAULT_ELEMENTS then [Block(elem)] else Fields(elem, attributes, "DOUBLE", None)
  }

  /** The cartesian group, unless it is missing or switched off. */
  function CartesianFields(part: Yaml, other: Yaml -> string): seq<Signal>
    requires part.Map?
  {
    if part.entries == [] || Get(part, "enabled", Bool(true)) == Bool(false) then []
    else
      var given := Get(part, "xml_attributes", Null);
      GroupFields(ElementOf(part, "RIst", other),
                  if given.List? then Texts(given.items, other) else ["X", "Y", "Z", "A", "B", "C"])
  }

  /** Entry by entry: a field of its own for a custom element; for a default one the block, where the entry before is of
      another element. */
  function EntryFields(entries: seq<Entry>): seq<Signal> {
    if entries == [] then []
    else
      EntryFields(entries[..|entries| - 1]) + LastFields(entries)
  }

  function LastFields(entries: seq<Entry>): seq<Signal>
    requires entries != []
  {
    var n := |entries| - 1;
    var e := entries[n];
    if e.elem !in DEFAULT_ELEMENTS then [Signal(e.elem + "." + e.attribute, "DOUBLE", true, None)]
    else if n > 0 && entries[n - 1].elem == e.elem then []
    else [Block(e.elem)]
  }

  /** Everything sent: the cartesian group, positions, velocities, torques, the inputs, and at the end the delay. */
  function SentFields(motion: Yaml, layout: Layout, other: Yaml -> string): seq<Signal>
    requires motion.Map?
  {
    var cartesian, gpio := Part(motion, "cartesian"), Part(motion, "gpio");
    (if cartesian.Map? then CartesianFields(cartesian, other) else [])
    + EntryFields(layout.positions) + EntryFields(layout.velocities) + EntryFields(layout.torques)
    + (if gpio.Map? then Fields(ElementOf(gpio, "GPIO", other), AttributesOf(gpio, [], other), "BOOL", None) else [])
    + [Signal("DEF_Delay", "LONG", false, None)]
  }

  /** The shortcuts are named after their elements. */
  lemma ShortcutIsBlock(elem: string)
    ensures Shortcut(elem) == if elem in DEFAULT_ELEMENTS then Some("DEF_" + elem) else None
  {
    assert "DEF_" + "RIst" == "DEF_RIst" && "DEF_" + "AIPos" == "DEF_AIPos" && "DEF_" + "EIPos" == "DEF_EIPos";
  }

  lemma GroupIsFields(elem: string, attributes: seq<string>)
    ensures Group(elem, Tags(elem, attributes)) == GroupFields(elem, attributes)
  {
    ShortcutIsBlock(elem);
  }

  /** The runs, emitted one after the other, are the entries' own fields and blocks. */
  lemma {:induction false} RunsAreEntryFields(entries: seq<Entry>)
    ensures RunSignals(Runs(entries)) == EntryFields(entries)
    decreases |entries|
  {
    if entries != [] {
      RunsAreEntryFields(entries[..|entries| - 1]);
      OneMoreEntry(entries);
    }
  }

  /** The last entry adds these fields. */
  predicate LastAdds(entries: seq<Entry>, fields: seq<Signal>)
    requires entries != []
  {
    RunSignals(Runs(entries)) == RunSignals(Runs(entries[..|entries| - 1])) + fields
  }

  lemma OneMoreEntry(entries: seq<Entry>)
    requires entries != []
    ensures LastAdds(entries, LastFields(entries))
  {
    var n := |entries| - 1;
    if n > 0 && entries[n - 1].elem == entries[n].elem {
      EntryLengthens(entries);
    } else {
      EntryBegins(entries);
    }
  }

  lemma EntryLengthens(entries: seq<Entry>)
    requires |entries| > 1 && entries[|entries| - 2].elem == entries[|entries| - 1].elem
    ensures LastAdds(entries, LastFields(entries))
  {
    var before := Runs(entries[..|entries| - 1]);
    LastRun(entries[..|entries| - 1]);
    NextRun(entries);
    LongerRun(before[..|before| - 1], before[|before| - 1], entries[|entries| - 1]);
    Rejoined(before);
  }

  lemma Rejoined(runs: seq<Run>)
    requires runs != []
    ensures runs[..|runs| - 1] + [runs[|runs| - 1]] == runs
  {
  }

  lemma EntryBegins(entries: seq<Entry>)
    requires entries != []
    requires |entries| > 1 ==> entries[|entries| - 2].elem != entries[|entries| - 1].elem
    ensures LastAdds(entries, LastFields(entries))
  {
    LastRun(entries[..|entries| - 1]);
    NextRun(entries);
    OneMoreRun(Runs(entries[..|entries| - 1]), entries[|entries| - 1]);
  }

  lemma OneMoreRun(before: seq<Run>, e: Entry)
    ensures RunSignals(before + [Run(e.elem, [e])])
         == RunSignals(before)
            + if e.elem in DEFAULT_ELEMENTS then [Block(e.elem)]
              else [Signal(e.elem + "." + e.attribute, "DOUBLE", true, None)]
  {
    LastRunSignals(before, Run(e.elem, [e]));
    NewRun(e);
  }

  /** The last run is that of the last entry. */
  lemma {:induction false} LastRun(entries: seq<Entry>)
    ensures entries == [] <==> Runs(entries) == []
    ensures entries != [] ==> Runs(entries)[|Runs(entries)| - 1].elem == entries[|entries| - 1].elem
  {
    if entries != [] {
      NextRun(entries);
    }
  }

  lemma NewRun(e: Entry)
    ensures Group(e.elem, EntryTags([e]))
         == if e.elem in DEFAULT_ELEMENTS then [Block(e.elem)]
            else [Signal(e.elem + "." + e.attribute, "DOUBLE", true, None)]
  {
    ShortcutIsBlock(e.elem);
  }

  lemma LongerRun(front: seq<Run>, last: Run, e: Entry)
    requires last.elem == e.elem
    ensures RunSignals(front + [Run(e.elem, last.entries + [e])])
         == RunSignals(front + [last])
            + if e.elem in DEFAULT_ELEMENTS then [] else [Signal(e.elem + "." + e.attribute, "DOUBLE", true, None)]
  {
    LastRunSignals(front, Run(e.elem, last.entries + [e]));
    LastRunSignals(front, last);
    LongerGroup(last.entries, e);
  }

  lemma LastRunSignals(front: seq<Run>, last: Run)
    ensures RunSignals(front + [last]) == RunSignals(front) + Group(last.elem, EntryTags(last.entries))
  {
    assert (front + [last])[..|front|] == front;
  }

  lemma LongerGroup(entries: seq<Entry>, e: Entry)
    ensures Group(e.elem, EntryTags(entries + [e]))
         == Group(e.elem, EntryTags(entries))
            + if e.elem in DEFAULT_ELEMENTS then [] else [Signal(e.elem + "." + e.attribute, "DOUBLE", true, None)]
  {
    ShortcutIsBlock(e.elem);
  }

  /** For every accepted document, what is sent is exactly what its motion part asks for. */
  lemma SentFieldsAreTheAskedOnes(config: Yaml, other: Yaml -> string)
    requires Build(config, other).Success?
    ensures config.Map? && Part(config, "motion_state").Map?
    ensures ReadLayout(Part(config, "motion_state")).Success?
    ensures var motion := Part(config, "motion_state");
            FieldsOf(Build(config, other).value.send) == SentFields(motion, ReadLayout(motion).value, other)
  {
    BuiltFromParts(config, other);
    var motion := Part(config, "motion_state");
    var layout, cartesian := ReadLayout(motion).value, ReadCartesian(motion, other).value;
    var gpio := ReadGpioState(motion, other).value;
    GpioStateIsRead(motion, other);
    CartesianIsRead(motion, other);
    SentInOrder(cartesian, layout, gpio, other);
    NumberingKeepsFields(SendSignals(cartesian, layout, gpio, other), 1);
  }

  lemma CartesianIsRead(motion: Yaml, other: Yaml -> string)
    requires motion.Map? && ReadCartesian(motion, other).Success?
    ensures var part := Part(motion, "cartesian");
            var cartesian := ReadCartesian(motion, other).value;
            && part.Map?
            && CartesianFields(part, other)
               == if cartesian.Some? then Group(cartesian.value.0, cartesian.value.1) else []
  {
    SectionIsPart(motion, "cartesian");
    var part := Part(motion, "cartesian");
    var cartesian := ReadCartesian(motion, other).value;
    if cartesian.Some? {
      LookupDefault(part.entries, "xml_attributes", List(CARTESIAN_ATTRIBUTES), Null);
      assert Texts(CARTESIAN_ATTRIBUTES, other) == ["X", "Y", "Z", "A", "B", "C"];
      var given := Get(part, "xml_attributes", List(CARTESIAN_ATTRIBUTES));
      GroupIsFields(cartesian.value.0, Texts(given.items, other));
    }
  }

  lemma SentInOrder(cartesian: Option<(string, seq<string>)>, layout: Layout, gpio: Gpio, other: Yaml -> string)
    ensures SendSignals(cartesian, layout, gpio, other)
         == (if cartesian.Some? then Group(cartesian.value.0, cartesian.value.1) else [])
            + EntryFields(layout.positions) + EntryFields(layout.velocities) + EntryFields(layout.torques)
            + Fields(gpio.elem, Texts(gpio.items, other), "BOOL", None)
            + [Signal("DEF_Delay", "LONG", false, None)]
  {
    RunsAreEntryFields(layout.positions);
    RunsAreEntryFields(layout.velocities);
    RunsAreEntryFields(layout.torques);
    var texts := Texts(gpio.items, other);
    assert Plain(Tags(gpio.elem, texts), "BOOL", None) == Fields(gpio.elem, texts, "BOOL", None);
  }

  // ----- which documents are accepted -----

  /** The item describes the entry, with nothing left empty. */
  predicate Describes(item: Yaml, e: Entry) {
    && item.Map? && e.elem != "" && e.attribute != ""
    && Get(item, "xml_element", Null) == Text(e.elem) && Get(item, "xml_attribute", Null) == Text(e.attribute)
    && Get(item, "joint_identifier", Null).Text? && Get(item, "joint_identifier", Null) != Text("")
  }

  predicate DescribesAll(list: Yaml, entries: seq<Entry>) {
    list.List? && |list.items| == |entries| && forall i | 0 <= i < |entries| :: Describes(list.items[i], entries[i])
  }

  /** The motion part describes the layout: at least one position, and as many velocities and torques, or none. */
  predicate DescribesLayout(motion: Yaml, layout: Layout)
    requires motion.Map?
  {
    var joints := Part(motion, "joints");
    && joints.Map? && layout.positions != []
    && DescribesAll(Get(joints, "positions", Null), layout.positions)
    && DescribesOptional(Get(joints, "velocities", Null), layout.velocities, |layout.positions|)
    && DescribesOptional(Get(joints, "torques", Null), layout.torques, |layout.positions|)
  }

  predicate DescribesOptional(list: Yaml, entries: seq<Entry>, count: nat) {
    (list.Null? && entries == []) || (DescribesAll(list, entries) && |entries| == count)
  }

  lemma EntriesAreDescribed(items: seq<Yaml>, entries: seq<Entry>)
    ensures ValidEntries(items) && EntriesOf(items) == entries <==> DescribesAll(List(items), entries)
  {
    if DescribesAll(List(items), entries) {
      forall y | y in items
        ensures ValidEntry(y)
      {
        var i :| 0 <= i < |items| && items[i] == y;
        assert Describes(items[i], entries[i]);
      }
      forall i | 0 <= i < |items|
        ensures EntriesOf(items)[i] == entries[i]
      {
        assert Describes(items[i], entries[i]);
      }
    }
    if ValidEntries(items) && EntriesOf(items) == entries {
      forall i | 0 <= i < |entries|
        ensures Describes(items[i], entries[i])
      {
        assert ValidEntry(items[i]) && entries[i] == EntryOf(items[i]);
      }
    }
  }

  /** The layout that is read is the one described, and without a described one the document is rejected. */
  lemma LayoutIsReadExactly(motion: Yaml, layout: Layout)
    requires motion.Map?
    ensures ReadLayout(motion) == Success(layout) <==> DescribesLayout(motion, layout)
  {
    SectionIsPart(motion, "joints");
    var joints := Part(motion, "joints");
    if joints.Map? {
      LookupDefault(joints.entries, "positions", List([]), Null);
      var positions := Get(joints, "positions", List([]));
      if positions.List? {
        EntriesAreDescribed(positions.items, layout.positions);
        OptionalIsRead(joints, "velocities", |positions.items|, layout.velocities);
        OptionalIsRead(joints, "torques", |positions.items|, layout.torques);
      }
    }
  }

  lemma OptionalIsRead(joints: Yaml, name: string, count: nat, entries: seq<Entry>)
    requires joints.Map?
    ensures var read := SignalEntries(joints, name, count);
            read.Success? && ValidEntries(read.value) && EntriesOf(read.value) == entries
            <==> DescribesOptional(Get(joints, name, Null), entries, count)
  {
    var list := Get(joints, name, Null);
    if list.List? {
      EntriesAreDescribed(list.items, entries);
    }
  }

  predicate Named(y: Yaml) {
    y.Text? && y.text != ""
  }

  predicate NamedList(y: Yaml) {
    y.List? && forall i | 0 <= i < |y.items| :: Named(y.items[i])
  }

  /** What a loop can go over. */
  predicate Loopable(y: Yaml) {
    y.List? || y.Text? || y.Map?
  }

  /** A loop over it meets only names. */
  predicate LoopsOverNames(y: Yaml) {
    match y
    case List(items) => forall i | 0 <= i < |items| :: Named(items[i])
    case Text(_) => true
    case Map(entries) => forall i | 0 <= i < |entries| :: entries[i].0 != ""
    case _ => false
  }

  predicate CartesianAllowed(part: Yaml) {
    && part.Map?
    && var enabled := Get(part, "enabled", Bool(true));
       && enabled.Bool?
       && (part.entries != [] && enabled.flag ==>
             && Named(Get(part, "xml_element", Text("RIst")))
             && var given := Get(part, "xml_attributes", List(CARTESIAN_ATTRIBUTES));
                NamedList(given) && |given.items| == 6)
  }

  predicate InputsAllowed(part: Yaml) {
    part.Map? && var given := Get(part, "xml_attributes", Null); !Nothing(given) ==> LoopsOverNames(given)
  }

  predicate PositionsAllowed(part: Yaml) {
    part.Map? && var given := Get(part, "xml_attributes", Null); !Nothing(given) ==> Loopable(given)
  }

  predicate OptionalAllowed(node: Yaml) {
    node.Null? ||
    (&& node.Map?
     && var enabled := Get(node, "enabled", Bool(true));
        && enabled.Bool?
        && (enabled.flag ==>
              Named(Get(node, "xml_element", Text("default"))) && NamedList(Get(node, "xml_attributes", List([])))))
  }

  /** The document describes this layout, and every other part of it is allowed. */
  predicate Allowed(config: Yaml, layout: Layout) {
    && config.Map?
    && var motion, control := Part(config, "motion_state"), Part(config, "control_signal");
       && motion.Map? && control.Map?
       && DescribesLayout(motion, layout)
       && CartesianAllowed(Part(motion, "cartesian"))
       && InputsAllowed(Part(motion, "gpio"))
       && PositionsAllowed(Part(control, "joints"))
       && (Get(control, "ext_joints", Null).Null? || PositionsAllowed(Get(control, "ext_joints", Null)))
       && OptionalAllowed(Get(control, "velocities", Null)) && OptionalAllowed(Get(control, "ext_velocities", Null))
       && OptionalAllowed(Get(control, "torques", Null)) && OptionalAllowed(Get(control, "ext_torques", Null))
       && (Get(control, "gpio", Null).Null? || InputsAllowed(Get(control, "gpio", Null)))
  }

  lemma NamesAreTexts(items: seq<Yaml>)
    ensures AllNonEmptyTexts(items) <==> forall i | 0 <= i < |items| :: Named(items[i])
  {
    if AllNonEmptyTexts(items) {
      forall i | 0 <= i < |items|
        ensures Named(items[i])
      {
        assert NonEmptyText(items[i]);
      }
    }
  }

  lemma LoopIsOverItems(y: Yaml)
    ensures Items(y).Success? <==> Loopable(y)
    ensures Items(y).Success? && AllNonEmptyTexts(Items(y).value) <==> LoopsOverNames(y)
  {
    if Items(y).Success? {
      NamesAreTexts(Items(y).value);
    }
    if y.Map? && Items(y).Success? {
      assert forall i | 0 <= i < |y.entries| :: Named(Items(y).value[i]) <==> y.entries[i].0 != "";
    }
  }

  lemma CartesianIsAllowed(motion: Yaml, other: Yaml -> string)
    requires motion.Map?
    ensures ReadCartesian(motion, other).Success? <==> CartesianAllowed(Part(motion, "cartesian"))
  {
    SectionIsPart(motion, "cartesian");
    var part := Part(motion, "cartesian");
    if part.Map? {
      var given := Get(part, "xml_attributes", List(CARTESIAN_ATTRIBUTES));
      if given.List? {
        NamesAreTexts(given.items);
      }
    }
  }

  lemma InputsAreAllowed(motion: Yaml, other: Yaml -> string)
    requires motion.Map?
    ensures var read := ReadGpioState(motion, other);
            && (read.Success? <==> InputsAllowed(Part(motion, "gpio")))
            && (read.Success? ==> AllNonEmptyTexts(read.value.items))
  {
    SectionIsPart(motion, "gpio");
    var part := Part(motion, "gpio");
    if part.Map? {
      LookupDefault(part.entries, "xml_attributes", List([]), Null);
      LoopIsOverItems(Get(part, "xml_attributes", List([])));
    }
  }

  lemma PositionsAreAllowed(node: Yaml, elem: string, axes: seq<Yaml>, other: Yaml -> string)
    ensures PositionCommands(node, elem, axes, other).Success? <==> PositionsAllowed(node)
  {
    if node.Map? {
      LookupDefault(node.entries, "xml_attributes", List([]), Null);
      LoopIsOverItems(Get(node, "xml_attributes", List([])));
    }
  }

  lemma OptionalsAreAllowed(control: Yaml, key: string, elem: string, letter: char, n: nat, other: Yaml -> string)
    requires control.Map? && elem != ""
    ensures OptionalCommands(control, key, elem, Axes(letter, n), other).Success?
            <==> OptionalAllowed(Get(control, key, Null))
  {
    var node := Get(control, key, Null);
    if node.Map? {
      LookupDefault(node.entries, "xml_element", Text(elem), Text("default"));
      LookupDefault(node.entries, "xml_attributes", List(Axes(letter, n)), List([]));
      NamesAreTexts(Axes(letter, n));
      var given := Get(node, "xml_attributes", List([]));
      if given.List? {
        NamesAreTexts(given.items);
      }
    }
  }

  lemma OutputsAreAllowed(control: Yaml, gpio: Gpio, other: Yaml -> string)
    requires control.Map? && AllNonEmptyTexts(gpio.items)
    ensures var node := Get(control, "gpio", Null);
            GpioCommands(control, gpio, other).Success? <==> node.Null? || InputsAllowed(node)
  {
    var node := Get(control, "gpio", Null);
    if node.Map? {
      LookupDefault(node.entries, "xml_attributes", List([]), Null);
      LoopIsOverItems(Get(node, "xml_attributes", List([])));
    }
  }

  lemma ControlIsAllowed(control: Yaml, layout: Layout, gpio: Gpio, other: Yaml -> string)
    requires control.Map? && AllNonEmptyTexts(gpio.items)
    ensures ReceiveSignals(control, layout, gpio, other).Success? <==>
              && PositionsAllowed(Part(control, "joints"))
              && (Get(control, "ext_joints", Null).Null? || PositionsAllowed(Get(control, "ext_joints", Null)))
              && OptionalAllowed(Get(control, "velocities", Null))
              && OptionalAllowed(Get(control, "ext_velocities", Null))
              && OptionalAllowed(Get(control, "torques", Null)) && OptionalAllowed(Get(control, "ext_torques", Null))
              && (Get(control, "gpio", Null).Null? || InputsAllowed(Get(control, "gpio", Null)))
  {
    var m := External(layout.positions);
    var n := |layout.positions| - m;
    SectionIsPart(control, "joints");
    PositionsAreAllowed(Part(control, "joints"), "AK", Axes('A', n), other);
    PositionsAreAllowed(Get(control, "ext_joints", Null), "EK", Axes('E', m), other);
    OptionalsAreAllowed(control, "velocities", "VK", 'A', n, other);
    OptionalsAreAllowed(control, "ext_velocities", "EVK", 'E', m, other);
    OptionalsAreAllowed(control, "torques", "TK", 'A', n, other);
    OptionalsAreAllowed(control, "ext_torques", "ETK", 'E', m, other);
    OutputsAreAllowed(control, gpio, other);
  }

  /** A document is accepted exactly if it describes a layout and all its parts are allowed; every other one is rejected
      or crashes the generator. */
  lemma AcceptedExactly(config: Yaml, other: Yaml -> string)
    ensures Build(config, other).Success? <==> exists layout :: Allowed(config, layout)
  {
    if Build(config, other).Success? {
      AcceptedIsAllowed(config, other);
    }
    forall layout | Allowed(config, layout)
      ensures Build(config, other).Success?
    {
      AllowedIsAccepted(config, layout, other);
    }
  }

  lemma AcceptedIsAllowed(config: Yaml, other: Yaml -> string)
    requires Build(config, other).Success?
    ensures config.Map? && Part(config, "motion_state").Map?
    ensures ReadLayout(Part(config, "motion_state")).Success?
    ensures Allowed(config, ReadLayout(Part(config, "motion_state")).value)
  {
    BuiltFromParts(config, other);
    var motion, control := Part(config, "motion_state"), Part(config, "control_signal");
    var layout, gpio := ReadLayout(motion).value, ReadGpioState(motion, other).value;
    LayoutIsReadExactly(motion, layout);
    CartesianIsAllowed(motion, other);
    InputsAreAllowed(motion, other);
    ControlIsAllowed(control, layout, gpio, other);
  }

  lemma AllowedIsAccepted(config: Yaml, layout: Layout, other: Yaml -> string)
    requires Allowed(config, layout)
    ensures Build(config, other).Success?
  {
    SectionIsPart(config, "motion_state");
    SectionIsPart(config, "control_signal");
    var motion, control := Part(config, "motion_state"), Part(config, "control_signal");
    LayoutIsReadExactly(motion, layout);
    CartesianIsAllowed(motion, other);
    InputsAreAllowed(motion, other);
    ControlIsAllowed(control, layout, ReadGpioState(motion, other).value, other);
  }
}
