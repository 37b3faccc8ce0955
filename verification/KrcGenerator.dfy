/** The sensor interface configuration of the robot controller, generated from a YAML document: which fields are
    sent and received, and the indices they get. */
module KrcGenerator {
  import opened Words

  // ----- the document -----

  /** A loaded document. A map keeps the order of its keys, which are distinct texts. */
  datatype Yaml =
    | Null
    | Bool(flag: bool)
    | Number(number: int)
    | Text(text: string)
    | List(items: seq<Yaml>)
    | Map(entries: seq<(string, Yaml)>)

  /** A document is rejected with a message; an unexpected type in a place that is not checked raises some
      other exception. */
  datatype Error = Rejected | Crashed

  predicate Truthy(y: Yaml) {
    match y
    case Null => false
    case Bool(flag) => flag
    case Number(number) => number != 0
    case Text(text) => text != ""
    case List(items) => items != []
    case Map(entries) => entries != []
  }

  function Lookup(entries: seq<(string, Yaml)>, key: string, default: Yaml): Yaml {
    if entries == [] then default
    else if entries[0].0 == key then entries[0].1
    else Lookup(entries[1..], key, default)
  }

  function Get(node: Yaml, key: string, default: Yaml): Yaml
    requires node.Map?
  {
    Lookup(node.entries, key, default)
  }

  /** The value of a key, an empty map standing for any false one. */
  function Section(node: Yaml, key: string): Result<Yaml, Error> {
    if !node.Map? then Failure(Crashed)
    else
      var value := Get(node, key, Map([]));
      Success(if Truthy(value) then value else Map([]))
  }

  /** What a loop over a value visits. */
  function Items(y: Yaml): Result<seq<Yaml>, Error> {
    match y
    case List(items) => Success(items)
    case Text(text) => Success(seq(|text|, i requires 0 <= i < |text| => Text([text[i]])))
    case Map(entries) => Success(seq(|entries|, i requires 0 <= i < |entries| => Text(entries[i].0)))
    case _ => Failure(Crashed)
  }

  predicate NonEmptyText(y: Yaml) {
    y.Text? && y.text != ""
  }

  predicate AllNonEmptyTexts(items: seq<Yaml>) {
    forall y | y in items :: NonEmptyText(y)
  }

  /** How a value appears in a formatted string; `other` renders what is not a text. */
  function Show(y: Yaml, other: Yaml -> string): string {
    if y.Text? then y.text else other(y)
  }

  function Texts(items: seq<Yaml>, other: Yaml -> string): (r: seq<string>)
    ensures |r| == |items|
  {
    seq(|items|, i requires 0 <= i < |items| => Show(items[i], other))
  }

  // ----- signals and elements -----

  datatype Signal = Signal(tag: string, kind: string, numbered: bool, hold: Option<bool>)

  /** An element of the generated document; without an index it is handled internally. */
  datatype Element = Element(tag: string, kind: string, index: Option<nat>, hold: Option<bool>)

  datatype Krc = Krc(send: seq<Element>, receive: seq<Element>)

  /** The whole document: the configuration section, name by name, and the two lists of elements. */
  datatype Root = Root(config: seq<(string, string)>, lists: Krc)

  function Decimal(n: int): string {
    if n < 0 then "-" + Digits(-n) else Digits(n)
  }

  function ConfigSection(clientIp: string, clientPort: int): seq<(string, string)> {
    [("IP_NUMBER", clientIp), ("PORT", Decimal(clientPort)), ("SENTYPE", "KROSHU"), ("ONLYSEND", "FALSE")]
  }

  const CARTESIAN_ELEMENT := "RIst"
  const POSITIONS_ELEMENT := "AIPos"
  const EXT_JOINT_ELEMENT := "EIPos"

  const CARTESIAN_ATTRIBUTES: seq<Yaml> := [Text("X"), Text("Y"), Text("Z"), Text("A"), Text("B"), Text("C")]

  /** The block the controller sends by itself for a default element name. */
  function Shortcut(elem: string): Option<string> {
    if elem == CARTESIAN_ELEMENT then Some("DEF_RIst")
    else if elem == POSITIONS_ELEMENT then Some("DEF_AIPos")
    else if elem == EXT_JOINT_ELEMENT then Some("DEF_EIPos")
    else None
  }

  function Tag(elem: string, attribute: string): string {
    elem + "." + attribute
  }

  function Tags(elem: string, attributes: seq<string>): (r: seq<string>)
    ensures |r| == |attributes| && forall i | 0 <= i < |r| :: r[i] == Tag(elem, attributes[i])
  {
    seq(|attributes|, i requires 0 <= i < |attributes| => Tag(elem, attributes[i]))
  }

  function Plain(tags: seq<string>, kind: string, hold: Option<bool>): (r: seq<Signal>)
    ensures |r| == |tags| && forall i | 0 <= i < |r| :: r[i] == Signal(tags[i], kind, true, hold)
  {
    seq(|tags|, i requires 0 <= i < |tags| => Signal(tags[i], kind, true, hold))
  }

  /** A group is one shortcut, or one numbered element per tag. */
  function Group(elem: string, tags: seq<string>): seq<Signal> {
    match Shortcut(elem)
    case Some(shortcut) => [Signal(shortcut, "DOUBLE", false, None)]
    case None => Plain(tags, "DOUBLE", None)
  }

  /** The index after the numbered signals. */
  function Next(signals: seq<Signal>, index: nat): nat {
    if signals == [] then index
    else
      var before := Next(signals[..|signals| - 1], index);
      if signals[|signals| - 1].numbered then before + 1 else before
  }

  /** The numbered signals get consecutive indices in order. */
  function Numbered(signals: seq<Signal>, index: nat): (r: seq<Element>)
    ensures |r| == |signals|
  {
    if signals == [] then []
    else
      var front, s := signals[..|signals| - 1], signals[|signals| - 1];
      Numbered(front, index)
        + [Element(s.tag, s.kind, if s.numbered then Some(Next(front, index)) else None, s.hold)]
  }

  // ----- runs of joint entries -----

  datatype Entry = Entry(elem: string, attribute: string)

  datatype Run = Run(elem: string, entries: seq<Entry>)

  /** The contiguous runs of entries with the same element. */
  function Runs(entries: seq<Entry>): seq<Run> {
    if entries == [] then []
    else
      var before, e := Runs(entries[..|entries| - 1]), entries[|entries| - 1];
      var n := |before|;
      if n > 0 && before[n - 1].elem == e.elem
      then before[..n - 1] + [Run(e.elem, before[n - 1].entries + [e])]
      else before + [Run(e.elem, [e])]
  }

  function EntryTags(entries: seq<Entry>): (r: seq<string>)
    ensures |r| == |entries| && forall i | 0 <= i < |r| :: r[i] == Tag(entries[i].elem, entries[i].attribute)
  {
    seq(|entries|, i requires 0 <= i < |entries| => Tag(entries[i].elem, entries[i].attribute))
  }

  function RunSignals(runs: seq<Run>): seq<Signal> {
    if runs == [] then []
    else
      var n := |runs| - 1;
      RunSignals(runs[..n]) + Group(runs[n].elem, EntryTags(runs[n].entries))
  }

  function Joined(runs: seq<Run>): seq<Entry> {
    if runs == [] then [] else Joined(runs[..|runs| - 1]) + runs[|runs| - 1].entries
  }

  // ----- what a document asks for -----

  datatype Layout = Layout(positions: seq<Entry>, velocities: seq<Entry>, torques: seq<Entry>)

  predicate ValidEntry(y: Yaml) {
    && y.Map?
    && NonEmptyText(Get(y, "joint_identifier", Null))
    && NonEmptyText(Get(y, "xml_element", Null))
    && NonEmptyText(Get(y, "xml_attribute", Null))
  }

  predicate ValidEntries(items: seq<Yaml>) {
    forall y | y in items :: ValidEntry(y)
  }

  function EntryOf(y: Yaml): Entry
    requires ValidEntry(y)
  {
    Entry(Get(y, "xml_element", Null).text, Get(y, "xml_attribute", Null).text)
  }

  function EntriesOf(items: seq<Yaml>): (r: seq<Entry>)
    requires ValidEntries(items)
    ensures |r| == |items|
  {
    seq(|items|, i requires 0 <= i < |items| => EntryOf(items[i]))
  }

  /** Velocities and torques may be left out, or have one entry per position. */
  function SignalEntries(joints: Yaml, name: string, count: nat): Result<seq<Yaml>, Error>
    requires joints.Map?
  {
    var entries := Get(joints, name, Null);
    if entries.Null? then Success([])
    else if !entries.List? || |entries.items| != count then Failure(Rejected)
    else Success(entries.items)
  }

  function ReadLayout(motion: Yaml): Result<Layout, Error> {
    var joints :- Section(motion, "joints");
    if !joints.Map? then Failure(Rejected)
    else
      var positions := Get(joints, "positions", List([]));
      if !positions.List? || positions.items == [] || !ValidEntries(positions.items) then Failure(Rejected)
      else
        var velocities :- SignalEntries(joints, "velocities", |positions.items|);
        var torques :- SignalEntries(joints, "torques", |positions.items|);
        if !ValidEntries(velocities) || !ValidEntries(torques) then Failure(Rejected)
        else Success(Layout(EntriesOf(positions.items), EntriesOf(velocities), EntriesOf(torques)))
  }

  function External(positions: seq<Entry>): (n: nat)
    ensures n <= |positions|
  {
    if positions == [] then 0
    else
      External(positions[..|positions| - 1])
        + if positions[|positions| - 1].elem == EXT_JOINT_ELEMENT then 1 else 0
  }

  /** The cartesian group, None when it is absent or switched off. */
  function ReadCartesian(motion: Yaml, other: Yaml -> string): Result<Option<(string, seq<string>)>, Error> {
    var cartesian :- Section(motion, "cartesian");
    if !cartesian.Map? then Failure(Crashed)
    else
      var enabled := Get(cartesian, "enabled", Bool(true));
      if !enabled.Bool? then Failure(Rejected)
      else if cartesian.entries == [] || !enabled.flag then Success(None)
      else
        var elem := Get(cartesian, "xml_element", Text(CARTESIAN_ELEMENT));
        var attributes := Get(cartesian, "xml_attributes", List(CARTESIAN_ATTRIBUTES));
        if !NonEmptyText(elem) || !attributes.List? || |attributes.items| != 6 || !AllNonEmptyTexts(attributes.items)
        then Failure(Rejected)
        else Success(Some((elem.text, Tags(elem.text, Texts(attributes.items, other)))))
  }

  datatype Gpio = Gpio(elem: string, items: seq<Yaml>)

  function ReadGpioState(motion: Yaml, other: Yaml -> string): Result<Gpio, Error> {
    var gpio :- Section(motion, "gpio");
    if !gpio.Map? then Failure(Crashed)
    else
      var attributes := Get(gpio, "xml_attributes", List([]));
      var items :- Items(if Truthy(attributes) then attributes else List([]));
      if !AllNonEmptyTexts(items) then Failure(Rejected)
      else Success(Gpio(Show(Get(gpio, "xml_element", Text("GPIO")), other), items))
  }

  /** The fields sent: position, velocity and torque groups between the cartesian one and the inputs and
      outputs, and always the delay at the end. */
  function SendSignals(cartesian: Option<(string, seq<string>)>, layout: Layout, gpio: Gpio, other: Yaml -> string)
    : seq<Signal>
  {
    (if cartesian.Some? then Group(cartesian.value.0, cartesian.value.1) else [])
    + RunSignals(Runs(layout.positions)) + RunSignals(Runs(layout.velocities)) + RunSignals(Runs(layout.torques))
    + Plain(Tags(gpio.elem, Texts(gpio.items, other)), "BOOL", None)
    + [Signal("DEF_Delay", "LONG", false, None)]
  }

  /** The attributes of the axes 1 to `n`. */
  function Axes(letter: char, n: nat): seq<Yaml> {
    seq(n, i requires 0 <= i => Text([letter] + Digits(i + 1)))
  }

  function Commands(elem: string, attributes: seq<string>, kind: string): (r: seq<Signal>)
    ensures AllNumbered(r)
  {
    Plain(Tags(elem, attributes), kind, Some(true))
  }

  /** Positions: the attributes are not checked, and default to all axes. */
  function PositionCommands(node: Yaml, defaultElem: string, axes: seq<Yaml>, other: Yaml -> string)
    : Result<seq<Signal>, Error>
  {
    if !node.Map? then Failure(Rejected)
    else
      var attributes := Get(node, "xml_attributes", List([]));
      var items :- Items(if Truthy(attributes) then attributes else List(axes));
      Success(Commands(Show(Get(node, "xml_element", Text(defaultElem)), other), Texts(items, other), "DOUBLE"))
  }

  /** Velocities and torques can be switched off. */
  function OptionalCommands(control: Yaml, key: string, defaultElem: string, axes: seq<Yaml>, other: Yaml -> string)
    : Result<seq<Signal>, Error>
    requires control.Map?
  {
    var node := Get(control, key, Null);
    if node.Null? then Success([])
    else if !node.Map? then Failure(Rejected)
    else
      var enabled := Get(node, "enabled", Bool(true));
      if !enabled.Bool? then Failure(Rejected)
      else if !enabled.flag then Success([])
      else
        var elem := Get(node, "xml_element", Text(defaultElem));
        var attributes := Get(node, "xml_attributes", List(axes));
        if !NonEmptyText(elem) || !attributes.List? || !AllNonEmptyTexts(attributes.items) then Failure(Rejected)
        else Success(Commands(elem.text, Texts(attributes.items, other), "DOUBLE"))
  }

  function GpioCommands(control: Yaml, state: Gpio, other: Yaml -> string): Result<seq<Signal>, Error>
    requires control.Map?
  {
    var node := Get(control, "gpio", Null);
    if node.Null? then Success([])
    else if !node.Map? then Failure(Rejected)
    else
      var attributes := Get(node, "xml_attributes", List([]));
      var items :- Items(if Truthy(attributes) then attributes else List(state.items));
      if !AllNonEmptyTexts(items) then Failure(Rejected)
      else Success(Commands(Show(Get(node, "xml_element", Text("GPIO")), other), Texts(items, other), "BOOL"))
  }

  const STOP := Signal("Stop", "BOOL", true, Some(false))

  /** The commands for positions of external joints, when asked for. */
  function ExtCommands(control: Yaml, external: nat, other: Yaml -> string): Result<seq<Signal>, Error>
    requires control.Map?
  {
    var extJoints := Get(control, "ext_joints", Null);
    if extJoints.Null? then Success([]) else PositionCommands(extJoints, "EK", Axes('E', external), other)
  }

  /** The commands for positions of all joints. */
  function JointCommands(control: Yaml, layout: Layout, other: Yaml -> string): Result<seq<Signal>, Error> {
    var external := External(layout.positions);
    var joints :- Section(control, "joints");
    Both(PositionCommands(joints, "AK", Axes('A', |layout.positions| - external), other),
         ExtCommands(control, external, other))
  }

  const VELOCITIES := ("velocities", "ext_velocities")
  const VELOCITY_ELEMENTS := ("VK", "EVK")
  const TORQUES := ("torques", "ext_torques")
  const TORQUE_ELEMENTS := ("TK", "ETK")

  /** One signal for internal and for external joints. */
  function SignalPair(control: Yaml, names: (string, string), elems: (string, string), layout: Layout,
                      other: Yaml -> string)
    : Result<seq<Signal>, Error>
    requires control.Map?
  {
    var external := External(layout.positions);
    Both(OptionalCommands(control, names.0, elems.0, Axes('A', |layout.positions| - external), other),
         OptionalCommands(control, names.1, elems.1, Axes('E', external), other))
  }

  /** One after the other, up to the first error. */
  function Both(first: Result<seq<Signal>, Error>, second: Result<seq<Signal>, Error>): Result<seq<Signal>, Error> {
    var a :- first;
    var b :- second;
    Success(a + b)
  }

  /** The fields received: stop first, then positions, velocities, torques, inputs and outputs. */
  function ReceiveSignals(control: Yaml, layout: Layout, gpio: Gpio, other: Yaml -> string)
    : Result<seq<Signal>, Error>
  {
    var joints :- JointCommands(control, layout, other);
    var velocities :- SignalPair(control, VELOCITIES, VELOCITY_ELEMENTS, layout, other);
    var torques :- SignalPair(control, TORQUES, TORQUE_ELEMENTS, layout, other);
    var gpioCommands :- GpioCommands(control, gpio, other);
    Success([STOP] + joints + velocities + torques + gpioCommands)
  }

  function Build(config: Yaml, other: Yaml -> string): Result<Krc, Error> {
    var motion :- Section(config, "motion_state");
    var control :- Section(config, "control_signal");
    var layout :- ReadLayout(motion);
    var cartesian :- ReadCartesian(motion, other);
    var gpio :- ReadGpioState(motion, other);
    var receive :- ReceiveSignals(control, layout, gpio, other);
    Success(Krc(Numbered(SendSignals(cartesian, layout, gpio, other), 1), Numbered(receive, 1)))
  }

  // ----- indices -----

  /** The indices that appear, in order. */
  function Indices(elements: seq<Element>): seq<nat> {
    if elements == [] then []
    else
      var n := |elements| - 1;
      Indices(elements[..n]) + if elements[n].index.Some? then [elements[n].index.value] else []
  }

  /** The tags that are numbered, in order. */
  function NumberedTags(elements: seq<Element>): seq<string> {
    if elements == [] then []
    else
      var n := |elements| - 1;
      NumberedTags(elements[..n]) + if elements[n].index.Some? then [elements[n].tag] else []
  }

  function SignalTags(signals: seq<Signal>): seq<string> {
    if signals == [] then []
    else
      var n := |signals| - 1;
      SignalTags(signals[..n]) + if signals[n].numbered then [signals[n].tag] else []
  }

  lemma {:induction false} IndicesRunOn(signals: seq<Signal>, index: nat)
    ensures var r := Indices(Numbered(signals, index));
            Next(signals, index) == index + |r| && forall i | 0 <= i < |r| :: r[i] == index + i
    ensures NumberedTags(Numbered(signals, index)) == SignalTags(signals)
    decreases |signals|
  {
    if signals != [] {
      var front := signals[..|signals| - 1];
      IndicesRunOn(front, index);
      var all := Numbered(signals, index);
      assert all[..|all| - 1] == Numbered(front, index);
    }
  }

  predicate AllNumbered(signals: seq<Signal>) {
    forall s | s in signals :: s.numbered
  }

  predicate Consecutive(elements: seq<Element>, index: nat) {
    forall i | 0 <= i < |elements| :: elements[i].index == Some(index + i)
  }

  lemma {:induction false} AllNumberedIndices(signals: seq<Signal>, index: nat)
    requires AllNumbered(signals)
    ensures Consecutive(Numbered(signals, index), index)
    ensures Next(signals, index) == index + |signals|
    decreases |signals|
  {
    if signals != [] {
      var front, last := signals[..|signals| - 1], signals[|signals| - 1];
      assert forall s | s in front :: s in signals;
      AllNumberedIndices(front, index);
      assert last in signals;
      assert Numbered(signals, index)
          == Numbered(front, index) + [Element(last.tag, last.kind, Some(Next(front, index)), last.hold)];
    }
  }

  lemma JointCommandsAreNumbered(control: Yaml, layout: Layout, other: Yaml -> string)
    requires JointCommands(control, layout, other).Success?
    ensures control.Map? && AllNumbered(JointCommands(control, layout, other).value)
  {
  }

  lemma CommandsAreNumbered(control: Yaml, layout: Layout, gpio: Gpio, other: Yaml -> string)
    requires ReceiveSignals(control, layout, gpio, other).Success?
    ensures var r := ReceiveSignals(control, layout, gpio, other).value;
            AllNumbered(r) && r != [] && r[0] == STOP
  {
    JointCommandsAreNumbered(control, layout, other);
    SignalPairIsNumbered(control, VELOCITIES, VELOCITY_ELEMENTS, layout, other);
    SignalPairIsNumbered(control, TORQUES, TORQUE_ELEMENTS, layout, other);
    var joints := JointCommands(control, layout, other).value;
    var velocities := SignalPair(control, VELOCITIES, VELOCITY_ELEMENTS, layout, other).value;
    var torques := SignalPair(control, TORQUES, TORQUE_ELEMENTS, layout, other).value;
    var gpioCommands := GpioCommands(control, gpio, other).value;
    assert AllNumbered(gpioCommands);
    assert AllNumbered([STOP] + joints + velocities + torques + gpioCommands);
  }

  lemma SignalPairIsNumbered(control: Yaml, names: (string, string), elems: (string, string), layout: Layout,
                             other: Yaml -> string)
    requires control.Map? && SignalPair(control, names, elems, layout, other).Success?
    ensures AllNumbered(SignalPair(control, names, elems, layout, other).value)
  {
  }

  /** For every accepted document the numbered fields that are sent carry 1, 2, 3 and so on in order, and so do
      all the fields that are received, of which stop is the first. */
  lemma IndicesHaveNoGaps(config: Yaml, other: Yaml -> string)
    ensures match Build(config, other)
            case Failure(_) => true
            case Success(k) =>
              && (var r := Indices(k.send); forall i | 0 <= i < |r| :: r[i] == i + 1)
              && Consecutive(k.receive, 1)
              && k.receive != [] && k.receive[0] == Element("Stop", "BOOL", Some(1), Some(false))
              && k.send != [] && k.send[|k.send| - 1] == Element("DEF_Delay", "LONG", None, None)
  {
    if Build(config, other).Success? {
      var motion := Section(config, "motion_state").value;
      var control := Section(config, "control_signal").value;
      var layout := ReadLayout(motion).value;
      var cartesian := ReadCartesian(motion, other).value;
      var gpio := ReadGpioState(motion, other).value;
      SendHasNoGaps(cartesian, layout, gpio, other);
      ReceiveHasNoGaps(control, layout, gpio, other);
    }
  }

  lemma SendHasNoGaps(cartesian: Option<(string, seq<string>)>, layout: Layout, gpio: Gpio, other: Yaml -> string)
    ensures var send := Numbered(SendSignals(cartesian, layout, gpio, other), 1);
            var r := Indices(send);
            && (forall i | 0 <= i < |r| :: r[i] == i + 1)
            && send != [] && send[|send| - 1] == Element("DEF_Delay", "LONG", None, None)
  {
    IndicesRunOn(SendSignals(cartesian, layout, gpio, other), 1);
  }

  lemma ReceiveHasNoGaps(control: Yaml, layout: Layout, gpio: Gpio, other: Yaml -> string)
    requires ReceiveSignals(control, layout, gpio, other).Success?
    ensures var receive := Numbered(ReceiveSignals(control, layout, gpio, other).value, 1);
            && Consecutive(receive, 1)
            && receive != [] && receive[0] == Element("Stop", "BOOL", Some(1), Some(false))
  {
    CommandsAreNumbered(control, layout, gpio, other);
    NumberedFromStop(ReceiveSignals(control, layout, gpio, other).value);
  }

  lemma NumberedFromStop(signals: seq<Signal>)
    requires AllNumbered(signals) && signals != [] && signals[0] == STOP
    ensures var receive := Numbered(signals, 1);
            && Consecutive(receive, 1)
            && receive[0] == Element("Stop", "BOOL", Some(1), Some(false))
  {
    AllNumberedIndices(signals, 1);
    FirstElement(signals, 1);
  }

  lemma {:induction false} FirstElement(signals: seq<Signal>, index: nat)
    requires signals != [] && signals[0].numbered
    ensures Numbered(signals, index)[0]
         == Element(signals[0].tag, signals[0].kind, Some(index), signals[0].hold)
    decreases |signals|
  {
    if |signals| > 1 {
      FirstElement(signals[..|signals| - 1], index);
    }
  }

  // ----- runs -----

  /** One more entry either lengthens the last run or begins a new one. */
  lemma NextRun(entries: seq<Entry>)
    requires entries != []
    ensures var before, e := Runs(entries[..|entries| - 1]), entries[|entries| - 1];
            var n := |before| - 1;
            Runs(entries) == if before != [] && before[n].elem == e.elem
                             then before[..n] + [Run(e.elem, before[n].entries + [e])]
                             else before + [Run(e.elem, [e])]
  {
  }

  lemma {:induction false} RunsJoin(entries: seq<Entry>)
    ensures Joined(Runs(entries)) == entries
    decreases |entries|
  {
    if entries != [] {
      var front, e := entries[..|entries| - 1], entries[|entries| - 1];
      RunsJoin(front);
      NextRun(entries);
      var before, runs := Runs(front), Runs(entries);
      assert entries == front + [e];
      assert runs[..|runs| - 1] == before[..|runs| - 1];
      if |runs| > |before| {
        assert before[..|before|] == before;
      }
    }
  }

  predicate OneElement(r: Run) {
    r.entries != [] && forall e | e in r.entries :: e.elem == r.elem
  }

  lemma {:induction false} RunsHaveOneElement(entries: seq<Entry>)
    ensures forall r | r in Runs(entries) :: OneElement(r)
    decreases |entries|
  {
    if entries != [] {
      var front, e := entries[..|entries| - 1], entries[|entries| - 1];
      RunsHaveOneElement(front);
      NextRun(entries);
      var before := Runs(front);
      if before != [] {
        assert OneElement(before[|before| - 1]);
        assert forall r | r in before[..|before| - 1] :: r in before;
      }
    }
  }

  lemma {:induction false} NeighboursDiffer(entries: seq<Entry>)
    ensures var runs := Runs(entries);
            forall i | 0 < i < |runs| :: runs[i - 1].elem != runs[i].elem
    decreases |entries|
  {
    if entries != [] {
      NeighboursDiffer(entries[..|entries| - 1]);
      NextRun(entries);
    }
  }

  /** The runs concatenate back to the entries; each is a non-empty stretch of one element, and neighbouring
      runs have different elements. */
  lemma RunsAreMaximal(entries: seq<Entry>)
    ensures var runs := Runs(entries);
            && Joined(runs) == entries
            && (forall r | r in runs :: OneElement(r))
            && forall i | 0 < i < |runs| :: runs[i - 1].elem != runs[i].elem
  {
    RunsJoin(entries);
    RunsHaveOneElement(entries);
    NeighboursDiffer(entries);
  }

  /** The tags of the entries whose element has no shortcut. */
  function CustomTags(entries: seq<Entry>): seq<string> {
    if entries == [] then []
    else
      var e := entries[|entries| - 1];
      CustomTags(entries[..|entries| - 1])
        + if Shortcut(e.elem).None? then [Tag(e.elem, e.attribute)] else []
  }

  lemma {:induction false} CustomTagsAppend(a: seq<Entry>, b: seq<Entry>)
    ensures CustomTags(a + b) == CustomTags(a) + CustomTags(b)
    decreases |b|
  {
    if b == [] {
      assert a + b == a;
    } else {
      CustomTagsAppend(a, b[..|b| - 1]);
      assert (a + b)[..|a + b| - 1] == a + b[..|b| - 1];
    }
  }

  lemma {:induction false} SignalTagsAppend(a: seq<Signal>, b: seq<Signal>)
    ensures SignalTags(a + b) == SignalTags(a) + SignalTags(b)
    decreases |b|
  {
    if b == [] {
      assert a + b == a;
    } else {
      SignalTagsAppend(a, b[..|b| - 1]);
      assert (a + b)[..|a + b| - 1] == a + b[..|b| - 1];
    }
  }

  lemma {:induction false} PlainTags(tags: seq<string>, kind: string, hold: Option<bool>)
    ensures SignalTags(Plain(tags, kind, hold)) == tags
    decreases |tags|
  {
    if tags != [] {
      PlainTags(tags[..|tags| - 1], kind, hold);
      assert Plain(tags, kind, hold)[..|tags| - 1] == Plain(tags[..|tags| - 1], kind, hold);
    }
  }

  lemma {:induction false} GroupTags(elem: string, entries: seq<Entry>)
    requires forall e | e in entries :: e.elem == elem
    ensures SignalTags(Group(elem, EntryTags(entries))) == CustomTags(entries)
    decreases |entries|
  {
    if entries != [] {
      var front := entries[..|entries| - 1];
      assert entries[|entries| - 1] in entries;
      assert forall e | e in front :: e in entries;
      GroupTags(elem, front);
      if Shortcut(elem).None? {
        PlainTags(EntryTags(front), "DOUBLE", None);
        PlainTags(EntryTags(entries), "DOUBLE", None);
        assert EntryTags(entries) == EntryTags(front) + [Tag(elem, entries[|entries| - 1].attribute)];
      }
    }
  }

  /** Grouping loses no custom field and keeps their order. */
  lemma {:induction false} RunTags(runs: seq<Run>)
    requires forall r | r in runs :: OneElement(r)
    ensures SignalTags(RunSignals(runs)) == CustomTags(Joined(runs))
    decreases |runs|
  {
    if runs != [] {
      var n := |runs| - 1;
      assert forall r | r in runs[..n] :: r in runs;
      RunTags(runs[..n]);
      assert OneElement(runs[n]);
      GroupTags(runs[n].elem, runs[n].entries);
      SignalTagsAppend(RunSignals(runs[..n]), Group(runs[n].elem, EntryTags(runs[n].entries)));
      CustomTagsAppend(Joined(runs[..n]), runs[n].entries);
    }
  }

  lemma JointTags(entries: seq<Entry>)
    ensures SignalTags(RunSignals(Runs(entries))) == CustomTags(entries)
  {
    RunsAreMaximal(entries);
    RunTags(Runs(entries));
  }

  /** The custom fields that are sent, in document order: index `i` belongs to the i-th of them. */
  function CustomFields(cartesian: Option<(string, seq<string>)>, layout: Layout, gpio: Gpio, other: Yaml -> string)
    : seq<string>
  {
    (if cartesian.Some? && Shortcut(cartesian.value.0).None? then cartesian.value.1 else [])
    + CustomTags(layout.positions) + CustomTags(layout.velocities) + CustomTags(layout.torques)
    + Tags(gpio.elem, Texts(gpio.items, other))
  }

  lemma NumberedFields(cartesian: Option<(string, seq<string>)>, layout: Layout, gpio: Gpio, other: Yaml -> string)
    ensures NumberedTags(Numbered(SendSignals(cartesian, layout, gpio, other), 1))
         == CustomFields(cartesian, layout, gpio, other)
  {
    var c := if cartesian.Some? then Group(cartesian.value.0, cartesian.value.1) else [];
    var p, v, t := RunSignals(Runs(layout.positions)), RunSignals(Runs(layout.velocities)),
                   RunSignals(Runs(layout.torques));
    var tags := Tags(gpio.elem, Texts(gpio.items, other));
    var g := Plain(tags, "BOOL", None);
    var d := [Signal("DEF_Delay", "LONG", false, None)];
    IndicesRunOn(SendSignals(cartesian, layout, gpio, other), 1);
    SignalTagsAppend(c + p + v + t + g, d);
    SignalTagsAppend(c + p + v + t, g);
    SignalTagsAppend(c + p + v, t);
    SignalTagsAppend(c + p, v);
    SignalTagsAppend(c, p);
    JointTags(layout.positions);
    JointTags(layout.velocities);
    JointTags(layout.torques);
    PlainTags(tags, "BOOL", None);
    if cartesian.Some? && Shortcut(cartesian.value.0).None? {
      PlainTags(cartesian.value.1, "DOUBLE", None);
    }
    assert SignalTags(d) == [];
  }

  /** For every accepted document the numbered fields that are sent are exactly its custom fields, in order. */
  lemma SentFieldsAreTheCustomOnes(config: Yaml, other: Yaml -> string)
    ensures var motion := Section(config, "motion_state");
            match Build(config, other)
            case Failure(_) => true
            case Success(k) =>
              && motion.Success?
              && var cartesian, layout, gpio :=
                   ReadCartesian(motion.value, other), ReadLayout(motion.value), ReadGpioState(motion.value, other);
                 && cartesian.Success? && layout.Success? && gpio.Success?
                 && NumberedTags(k.send) == CustomFields(cartesian.value, layout.value, gpio.value, other)
  {
    if Build(config, other).Success? {
      var motion := Section(config, "motion_state").value;
      NumberedFields(ReadCartesian(motion, other).value, ReadLayout(motion).value, ReadGpioState(motion, other).value,
                     other);
    }
  }

  // ----- blocks that are sent twice -----

  /** The elements with a shortcut. */
  const DEFAULTS: set<string> := {CARTESIAN_ELEMENT, POSITIONS_ELEMENT, EXT_JOINT_ELEMENT}

  function Bit(b: bool): nat {
    if b then 1 else 0
  }

  /** How often a block that the controller sends by itself is asked for. */
  function Blocks(elements: seq<Element>, tag: string): nat {
    if elements == [] then 0
    else
      var n := |elements| - 1;
      Blocks(elements[..n], tag) + Bit(elements[n].index.None? && elements[n].tag == tag)
  }

  function SignalBlocks(signals: seq<Signal>, tag: string): nat {
    if signals == [] then 0
    else
      var n := |signals| - 1;
      SignalBlocks(signals[..n], tag) + Bit(!signals[n].numbered && signals[n].tag == tag)
  }

  predicate Uses(entries: seq<Entry>, elem: string) {
    exists i | 0 <= i < |entries| :: entries[i].elem == elem
  }

  /** The entries of an element stand together in a list. */
  predicate Together(entries: seq<Entry>, elem: string) {
    forall i, j, k | 0 <= i < j < k < |entries| && entries[i].elem == elem && entries[k].elem == elem ::
      entries[j].elem == elem
  }

  /** The groups and lists in which an element occurs. */
  function Places(cartesian: Option<(string, seq<string>)>, layout: Layout, elem: string): nat {
    Bit(cartesian.Some? && cartesian.value.0 == elem)
    + Bit(Uses(layout.positions, elem)) + Bit(Uses(layout.velocities, elem)) + Bit(Uses(layout.torques, elem))
  }

  /** An element stands together in each list, and occurs in one list, or the cartesian group, at most. */
  predicate InOnePlace(cartesian: Option<(string, seq<string>)>, layout: Layout, elem: string) {
    && Together(layout.positions, elem) && Together(layout.velocities, elem) && Together(layout.torques, elem)
    && Places(cartesian, layout, elem) <= 1
  }

  /** The number of runs of an element: each begins where the entry before is of another element. */
  function Starts(entries: seq<Entry>, elem: string): nat {
    if entries == [] then 0
    else
      var n := |entries| - 1;
      Starts(entries[..n], elem)
        + Bit(entries[n].elem == elem && (n == 0 || entries[n - 1].elem != elem))
  }

  lemma {:induction false} StartsCountPlaces(entries: seq<Entry>, elem: string)
    ensures Starts(entries, elem) > 0 <==> Uses(entries, elem)
    ensures Starts(entries, elem) <= 1 <==> Together(entries, elem)
    decreases |entries|
  {
    if entries != [] {
      var n := |entries| - 1;
      var front := entries[..n];
      StartsCountPlaces(front, elem);
      UsesLast(entries, elem);
      if entries[n].elem == elem && n > 0 && front[n - 1].elem != elem {
        if i :| 0 <= i < n && front[i].elem == elem {
          assert entries[i].elem == elem && entries[n - 1].elem != elem && i < n - 1 < n;
        }
      }
      TogetherLast(entries, elem);
    }
  }

  lemma UsesLast(entries: seq<Entry>, elem: string)
    requires entries != []
    ensures var n := |entries| - 1;
            Uses(entries, elem) <==> Uses(entries[..n], elem) || entries[n].elem == elem
  {
    var n := |entries| - 1;
    if i :| 0 <= i < n && entries[..n][i].elem == elem {
      assert entries[i].elem == elem;
    }
    if i :| 0 <= i < |entries| && entries[i].elem == elem {
      assert i == n || entries[..n][i].elem == elem;
    }
  }

  lemma TogetherLast(entries: seq<Entry>, elem: string)
    requires entries != []
    ensures var n := |entries| - 1;
            var front := entries[..n];
            Together(entries, elem) <==>
              && Together(front, elem)
              && (entries[n].elem == elem ==> n == 0 || front[n - 1].elem == elem || !Uses(front, elem))
  {
    var n := |entries| - 1;
    var front := entries[..n];
    if Together(front, elem) && entries[n].elem == elem && n > 0 && front[n - 1].elem == elem {
      forall i, j | 0 <= i < j < n && entries[i].elem == elem
        ensures entries[j].elem == elem
      {
        assert front[i].elem == elem && front[n - 1].elem == elem;
        assert j == n - 1 || front[j].elem == elem;
      }
    }
    if Together(entries, elem) {
      forall i, j, k | 0 <= i < j < k < n && front[i].elem == elem && front[k].elem == elem
        ensures front[j].elem == elem
      {
        assert entries[i].elem == elem && entries[k].elem == elem;
      }
      if i :| entries[n].elem == elem && 0 <= i < n - 1 && front[i].elem == elem {
        assert entries[i].elem == elem && entries[n - 1].elem == elem;
      }
    }
  }

  lemma {:induction false} SignalBlocksAppend(a: seq<Signal>, b: seq<Signal>, tag: string)
    ensures SignalBlocks(a + b, tag) == SignalBlocks(a, tag) + SignalBlocks(b, tag)
    decreases |b|
  {
    if b == [] {
      assert a + b == a;
    } else {
      SignalBlocksAppend(a, b[..|b| - 1], tag);
      assert (a + b)[..|a + b| - 1] == a + b[..|b| - 1];
    }
  }

  lemma {:induction false} PlainHasNoBlocks(tags: seq<string>, kind: string, hold: Option<bool>, tag: string)
    ensures SignalBlocks(Plain(tags, kind, hold), tag) == 0
    decreases |tags|
  {
    if tags != [] {
      PlainHasNoBlocks(tags[..|tags| - 1], kind, hold, tag);
      assert Plain(tags, kind, hold)[..|tags| - 1] == Plain(tags[..|tags| - 1], kind, hold);
    }
  }

  lemma GroupBlocks(elem: string, tags: seq<string>, other: string)
    requires other in DEFAULTS
    ensures SignalBlocks(Group(elem, tags), Shortcut(other).value) == Bit(elem == other)
  {
    if Shortcut(elem).None? {
      PlainHasNoBlocks(tags, "DOUBLE", None, Shortcut(other).value);
    } else {
      ShortcutsDiffer(elem, other);
      assert Group(elem, tags)[..0] == [];
    }
  }

  lemma ShortcutsDiffer(elem: string, other: string)
    requires Shortcut(elem).Some? && other in DEFAULTS
    ensures Shortcut(elem) == Shortcut(other) <==> elem == other
  {
    assert "DEF_RIst"[4] != "DEF_AIPos"[4] && "DEF_RIst"[4] != "DEF_EIPos"[4] && "DEF_AIPos"[4] != "DEF_EIPos"[4];
  }

  function RunsOf(runs: seq<Run>, elem: string): nat {
    if runs == [] then 0
    else RunsOf(runs[..|runs| - 1], elem) + Bit(runs[|runs| - 1].elem == elem)
  }

  lemma {:induction false} RunBlocks(runs: seq<Run>, elem: string)
    requires elem in DEFAULTS
    ensures SignalBlocks(RunSignals(runs), Shortcut(elem).value) == RunsOf(runs, elem)
    decreases |runs|
  {
    if runs != [] {
      var n := |runs| - 1;
      var tag := Shortcut(elem).value;
      RunBlocks(runs[..n], elem);
      SignalBlocksAppend(RunSignals(runs[..n]), Group(runs[n].elem, EntryTags(runs[n].entries)), tag);
      GroupBlocks(runs[n].elem, EntryTags(runs[n].entries), elem);
    }
  }

  /** The last run is of the last entry's element, and a new one begins exactly at a start. */
  lemma {:induction false} RunsBeginAtStarts(entries: seq<Entry>, elem: string)
    ensures var runs := Runs(entries);
            && RunsOf(runs, elem) == Starts(entries, elem)
            && (entries != [] ==> runs != [] && runs[|runs| - 1].elem == entries[|entries| - 1].elem)
    decreases |entries|
  {
    if entries != [] {
      var front := entries[..|entries| - 1];
      RunsBeginAtStarts(front, elem);
      NextRun(entries);
      var before, runs := Runs(front), Runs(entries);
      if front == [] {
        assert before == [];
      }
      assert runs[..|runs| - 1] == before[..|runs| - 1];
      if |runs| > |before| {
        assert before[..|before|] == before;
      }
    }
  }

  lemma JointBlocks(entries: seq<Entry>, elem: string)
    requires elem in DEFAULTS
    ensures SignalBlocks(RunSignals(Runs(entries)), Shortcut(elem).value) == Starts(entries, elem)
  {
    RunBlocks(Runs(entries), elem);
    RunsBeginAtStarts(entries, elem);
  }

  lemma {:induction false} NumberedBlocks(signals: seq<Signal>, index: nat, tag: string)
    ensures Blocks(Numbered(signals, index), tag) == SignalBlocks(signals, tag)
    decreases |signals|
  {
    if signals != [] {
      var front := signals[..|signals| - 1];
      NumberedBlocks(front, index, tag);
      var all := Numbered(signals, index);
      assert all[..|all| - 1] == Numbered(front, index);
    }
  }

  lemma SendBlocks(cartesian: Option<(string, seq<string>)>, layout: Layout, gpio: Gpio, other: Yaml -> string,
                   elem: string)
    requires elem in DEFAULTS
    ensures SignalBlocks(SendSignals(cartesian, layout, gpio, other), Shortcut(elem).value)
         == Bit(cartesian.Some? && cartesian.value.0 == elem)
            + Starts(layout.positions, elem) + Starts(layout.velocities, elem) + Starts(layout.torques, elem)
  {
    var tag := Shortcut(elem).value;
    var c := if cartesian.Some? then Group(cartesian.value.0, cartesian.value.1) else [];
    var p, v, t := RunSignals(Runs(layout.positions)), RunSignals(Runs(layout.velocities)),
                   RunSignals(Runs(layout.torques));
    var tags := Tags(gpio.elem, Texts(gpio.items, other));
    var g, d := Plain(tags, "BOOL", None), [Signal("DEF_Delay", "LONG", false, None)];
    SignalBlocksAppend(c + p + v + t + g, d, tag);
    SignalBlocksAppend(c + p + v + t, g, tag);
    SignalBlocksAppend(c + p + v, t, tag);
    SignalBlocksAppend(c + p, v, tag);
    SignalBlocksAppend(c, p, tag);
    JointBlocks(layout.positions, elem);
    JointBlocks(layout.velocities, elem);
    JointBlocks(layout.torques, elem);
    PlainHasNoBlocks(tags, "BOOL", None, tag);
    if cartesian.Some? {
      GroupBlocks(cartesian.value.0, cartesian.value.1, elem);
    }
    DelayIsNoBlock(elem);
  }

  lemma DelayIsNoBlock(elem: string)
    requires elem in DEFAULTS
    ensures SignalBlocks([Signal("DEF_Delay", "LONG", false, None)], Shortcut(elem).value) == 0
  {
    var delay := Signal("DEF_Delay", "LONG", false, None);
    assert [delay][..0] == [];
    assert "DEF_Delay"[4] == 'D' != Shortcut(elem).value[4];
  }

  /** For every accepted document each block is sent at most once if and only if its default element is in one place:
      in one of the four groups at most, and together there. */
  lemma BlockIsSentOnce(config: Yaml, other: Yaml -> string, elem: string)
    requires elem in DEFAULTS
    ensures var motion := Section(config, "motion_state");
            match Build(config, other)
            case Failure(_) => true
            case Success(k) =>
              && motion.Success?
              && var cartesian, layout := ReadCartesian(motion.value, other), ReadLayout(motion.value);
                 && cartesian.Success? && layout.Success?
                 && (Blocks(k.send, Shortcut(elem).value) <= 1 <==> InOnePlace(cartesian.value, layout.value, elem))
  {
    if Build(config, other).Success? {
      var motion := Section(config, "motion_state").value;
      SentOnce(ReadCartesian(motion, other).value, ReadLayout(motion).value, ReadGpioState(motion, other).value, other,
               elem);
    }
  }

  lemma SentOnce(cartesian: Option<(string, seq<string>)>, layout: Layout, gpio: Gpio, other: Yaml -> string,
                 elem: string)
    requires elem in DEFAULTS
    ensures Blocks(Numbered(SendSignals(cartesian, layout, gpio, other), 1), Shortcut(elem).value) <= 1
            <==> InOnePlace(cartesian, layout, elem)
  {
    NumberedBlocks(SendSignals(cartesian, layout, gpio, other), 1, Shortcut(elem).value);
    SendBlocks(cartesian, layout, gpio, other, elem);
    StartsCountPlaces(layout.positions, elem);
    StartsCountPlaces(layout.velocities, elem);
    StartsCountPlaces(layout.torques, elem);
  }

  // ----- accepted documents -----

  function EntryNode(e: Entry): Yaml {
    Map([("joint_identifier", Text("joint")), ("xml_element", Text(e.elem)), ("xml_attribute", Text(e.attribute))])
  }

  function EntryNodes(entries: seq<Entry>): (r: seq<Yaml>)
    ensures |r| == |entries|
  {
    seq(|entries|, i requires 0 <= i < |entries| => EntryNode(entries[i]))
  }

  /** A list that may be left out. */
  function OptionalNode(entries: seq<Entry>): Yaml {
    if entries == [] then Null else List(EntryNodes(entries))
  }

  /** A document that says nothing but the layout. */
  function DocumentOf(layout: Layout): Yaml {
    Map([("motion_state",
          Map([("joints",
                Map([("positions", List(EntryNodes(layout.positions))),
                     ("velocities", OptionalNode(layout.velocities)),
                     ("torques", OptionalNode(layout.torques))]))]))])
  }

  predicate WellNamed(entries: seq<Entry>) {
    forall e | e in entries :: e.elem != "" && e.attribute != ""
  }

  /** There is a position, and velocities and torques are left out or given for every position. */
  predicate Complete(layout: Layout) {
    && layout.positions != []
    && (layout.velocities == [] || |layout.velocities| == |layout.positions|)
    && (layout.torques == [] || |layout.torques| == |layout.positions|)
    && WellNamed(layout.positions) && WellNamed(layout.velocities) && WellNamed(layout.torques)
  }

  lemma NodesAreEntries(entries: seq<Entry>)
    requires WellNamed(entries)
    ensures ValidEntries(EntryNodes(entries)) && EntriesOf(EntryNodes(entries)) == entries
  {
    forall i | 0 <= i < |entries|
      ensures ValidEntry(EntryNodes(entries)[i]) && EntryOf(EntryNodes(entries)[i]) == entries[i]
    {
      NodeIsEntry(entries[i]);
    }
  }

  lemma NodeIsEntry(e: Entry)
    requires e.elem != "" && e.attribute != ""
    ensures ValidEntry(EntryNode(e)) && EntryOf(EntryNode(e)) == e
  {
    var fields := EntryNode(e).entries;
    assert fields[1..][0] == ("xml_element", Text(e.elem));
    assert fields[1..][1..][0] == ("xml_attribute", Text(e.attribute));
    assert Lookup(fields, "joint_identifier", Null) == Text("joint");
    assert Lookup(fields, "xml_element", Null) == Lookup(fields[1..], "xml_element", Null);
    assert Lookup(fields, "xml_attribute", Null) == Lookup(fields[1..], "xml_attribute", Null)
        == Lookup(fields[1..][1..], "xml_attribute", Null);
  }

  lemma LayoutIsRead(layout: Layout)
    requires Complete(layout)
    ensures var motion := Section(DocumentOf(layout), "motion_state");
            motion.Success? && ReadLayout(motion.value) == Success(layout)
  {
    var motion := Section(DocumentOf(layout), "motion_state").value;
    assert Section(motion, "joints").Success?;
    var fields := Section(motion, "joints").value.entries;
    assert fields[1..][0] == ("velocities", OptionalNode(layout.velocities));
    assert fields[1..][1..][0] == ("torques", OptionalNode(layout.torques));
    assert Lookup(fields, "positions", List([])) == List(EntryNodes(layout.positions));
    assert Lookup(fields, "velocities", Null) == Lookup(fields[1..], "velocities", Null);
    assert Lookup(fields, "torques", Null) == Lookup(fields[1..], "torques", Null)
        == Lookup(fields[1..][1..], "torques", Null);
    NodesAreEntries(layout.positions);
    NodesAreEntries(layout.velocities);
    NodesAreEntries(layout.torques);
  }

  /** Every complete layout is that of an accepted document, without a cartesian group. */
  lemma LayoutIsAccepted(layout: Layout, other: Yaml -> string)
    requires Complete(layout)
    ensures var motion := Section(DocumentOf(layout), "motion_state");
            && Build(DocumentOf(layout), other).Success? && motion.Success?
            && ReadLayout(motion.value) == Success(layout) && ReadCartesian(motion.value, other) == Success(None)
  {
    LayoutIsRead(layout);
    var document := DocumentOf(layout);
    var motion := Section(document, "motion_state").value;
    assert motion.entries[1..] == [] && document.entries[1..] == [];
    assert Lookup(motion.entries, "cartesian", Map([])) == Lookup(motion.entries[1..], "cartesian", Map([])) == Map([]);
    assert Lookup(motion.entries, "gpio", Map([])) == Lookup(motion.entries[1..], "gpio", Map([])) == Map([]);
    assert Lookup(document.entries, "control_signal", Map([]))
        == Lookup(document.entries[1..], "control_signal", Map([])) == Map([]);
    assert ReadGpioState(motion, other) == Success(Gpio("GPIO", []));
    EmptyControlIsAccepted(layout, Gpio("GPIO", []), other);
  }

  lemma EmptyControlIsAccepted(layout: Layout, gpio: Gpio, other: Yaml -> string)
    ensures ReceiveSignals(Map([]), layout, gpio, other).Success?
  {
    var control := Map([]);
    assert JointCommands(control, layout, other).Success?;
    assert SignalPair(control, VELOCITIES, VELOCITY_ELEMENTS, layout, other) == Success([] + []);
    assert SignalPair(control, TORQUES, TORQUE_ELEMENTS, layout, other) == Success([] + []);
    assert GpioCommands(control, gpio, other) == Success([]);
  }

  /** Default elements that do not stand together: an accepted document that sends a block more than once. */
  lemma SplitDefaultIsSentTwice(other: Yaml -> string)
    ensures var a, e := Entry(POSITIONS_ELEMENT, "A1"), Entry(EXT_JOINT_ELEMENT, "E1");
            var k := Build(DocumentOf(Layout([a, e, a], [], [])), other);
            k.Success? && Blocks(k.value.send, "DEF_AIPos") > 1
  {
    var a, e := Entry(POSITIONS_ELEMENT, "A1"), Entry(EXT_JOINT_ELEMENT, "E1");
    var layout := Layout([a, e, a], [], []);
    LayoutIsAccepted(layout, other);
    BlockIsSentOnce(DocumentOf(layout), other, POSITIONS_ELEMENT);
    assert [a, e, a][0].elem == [a, e, a][2].elem == POSITIONS_ELEMENT && |EXT_JOINT_ELEMENT| == |POSITIONS_ELEMENT|;
    assert [a, e, a][1].elem[0] != POSITIONS_ELEMENT[0];
  }

  /** A default element in two lists, together in each: likewise. */
  lemma RepeatedDefaultIsSentTwice(other: Yaml -> string)
    ensures var a := Entry(POSITIONS_ELEMENT, "A1");
            var k := Build(DocumentOf(Layout([a], [a], [])), other);
            k.Success? && Blocks(k.value.send, "DEF_AIPos") > 1
  {
    var a := Entry(POSITIONS_ELEMENT, "A1");
    var layout := Layout([a], [a], []);
    LayoutIsAccepted(layout, other);
    BlockIsSentOnce(DocumentOf(layout), other, POSITIONS_ELEMENT);
    assert [a][0].elem == POSITIONS_ELEMENT;
    assert Uses(layout.positions, POSITIONS_ELEMENT) && Uses(layout.velocities, POSITIONS_ELEMENT);
  }

  // ----- the generator -----

  lemma OneMore(before: seq<Signal>, signals: seq<Signal>, i: nat)
    requires i < |signals| && signals[i].numbered
    ensures var so, s := before + signals[..i], signals[i];
            && Numbered(before + signals[..i + 1], 1)
               == Numbered(so, 1) + [Element(s.tag, s.kind, Some(Next(so, 1)), s.hold)]
            && Next(before + signals[..i + 1], 1) == Next(so, 1) + 1
  {
    var all := before + signals[..i + 1];
    assert all[..|all| - 1] == before + signals[..i];
  }

  /** The signals after `n` of the attributes. */
  function UpTo(elem: string, attributes: seq<Yaml>, kind: string, other: Yaml -> string, before: seq<Signal>, n: nat)
    : seq<Signal>
    requires n <= |attributes|
  {
    before + Commands(elem, Texts(attributes, other), kind)[..n]
  }

  lemma NextCommand(elem: string, attributes: seq<Yaml>, kind: string, other: Yaml -> string, before: seq<Signal>,
                    i: nat)
    requires i < |attributes|
    ensures UpTo(elem, attributes, kind, other, before, i + 1)
         == UpTo(elem, attributes, kind, other, before, i)
              + [Signal(Tag(elem, Show(attributes[i], other)), kind, true, Some(true))]
  {
  }

  /** The first `n` are non-empty texts. */
  predicate NoneIsEmpty(items: seq<Yaml>, n: nat)
    requires n <= |items|
  {
    n == 0 || (NoneIsEmpty(items, n - 1) && NonEmptyText(items[n - 1]))
  }

  lemma {:induction false} AllAreTexts(items: seq<Yaml>, n: nat)
    requires n <= |items| && NoneIsEmpty(items, n)
    ensures AllNonEmptyTexts(items[..n])
  {
    if n > 0 {
      AllAreTexts(items, n - 1);
      assert items[..n] == items[..n - 1] + [items[n - 1]];
    }
  }

  lemma OneIsEmpty(items: seq<Yaml>, i: nat)
    requires i < |items| && !NonEmptyText(items[i])
    ensures !AllNonEmptyTexts(items)
  {
    assert items[i] in items;
  }

  lemma NoneAndAll(elem: string, attributes: seq<Yaml>, kind: string, other: Yaml -> string, before: seq<Signal>)
    ensures UpTo(elem, attributes, kind, other, before, 0) == before
    ensures UpTo(elem, attributes, kind, other, before, |attributes|)
         == before + Commands(elem, Texts(attributes, other), kind)
  {
    var signals := Commands(elem, Texts(attributes, other), kind);
    assert signals[..|signals|] == signals;
  }

  lemma BothInTurn(before: seq<Signal>, first: Result<seq<Signal>, Error>, second: Result<seq<Signal>, Error>)
    requires first.Success?
    ensures second.Success? ==>
              Both(first, second).Success? && before + first.value + second.value == before + Both(first, second).value
    ensures second.Failure? ==> Both(first, second) == Failure(second.error)
  {
  }

  /** The runs emitted so far and the run that is open. */
  function WithOpen(done: seq<Run>, open: Option<Run>): seq<Run> {
    if open.None? then done else done + [open.value]
  }

  /** The open run with one more entry, or a new one for another element. */
  function Opened(open: Option<Run>, e: Entry): Run {
    Run(e.elem, if open.Some? && open.value.elem == e.elem then open.value.entries + [e] else [e])
  }

  lemma OpenRunGrows(entries: seq<Entry>, done: seq<Run>, open: Option<Run>)
    requires entries != [] && Runs(entries[..|entries| - 1]) == WithOpen(done, open)
    requires open.None? ==> done == []
    ensures var e := entries[|entries| - 1];
            Runs(entries) == WithOpen(if open.Some? && open.value.elem != e.elem then done + [open.value] else done,
                                      Some(Opened(open, e)))
  {
    NextRun(entries);
    if open.Some? {
      assert (done + [open.value])[..|done|] == done;
    }
  }

  function AfterRuns(before: seq<Signal>, done: seq<Run>): seq<Signal> {
    before + RunSignals(done)
  }

  lemma AfterOneRun(before: seq<Signal>, done: seq<Run>, run: Run)
    ensures AfterRuns(before, done + [run]) == AfterRuns(before, done) + Group(run.elem, EntryTags(run.entries))
  {
    assert (done + [run])[..|done|] == done;
  }

  class Generator {
    var sendIndex: nat
    var receiveIndex: nat
    var send: seq<Element>
    var receive: seq<Element>
    const other: Yaml -> string

    constructor (render: Yaml -> string)
      ensures Sent([]) && Received([]) && other == render
    {
      sendIndex, receiveIndex, send, receive, other := 1, 1, [], [], render;
    }

    /** The elements emitted so far are those of `signals`. */
    ghost predicate Sent(signals: seq<Signal>)
      reads this`send, this`sendIndex
    {
      send == Numbered(signals, 1) && sendIndex == Next(signals, 1)
    }

    ghost predicate Received(signals: seq<Signal>)
      reads this`receive, this`receiveIndex
    {
      receive == Numbered(signals, 1) && receiveIndex == Next(signals, 1)
    }

    method SendInternal(tag: string, kind: string, ghost before: seq<Signal>)
      requires Sent(before)
      modifies this`send
      ensures Sent(before + [Signal(tag, kind, false, None)])
    {
      assert (before + [Signal(tag, kind, false, None)])[..|before|] == before;
      send := send + [Element(tag, kind, None, None)];
    }

    method SendNumbered(tags: seq<string>, kind: string, ghost before: seq<Signal>)
      requires Sent(before)
      modifies this`send, this`sendIndex
      ensures Sent(before + Plain(tags, kind, None))
    {
      ghost var signals := Plain(tags, kind, None);
      assert before + signals[..0] == before;
      for i := 0 to |tags|
        invariant Sent(before + signals[..i])
      {
        OneMore(before, signals, i);
        send := send + [Element(tags[i], kind, Some(sendIndex), None)];
        sendIndex := sendIndex + 1;
      }
      assert signals[..|tags|] == signals;
    }

    method EmitSendGroup(elem: string, tags: seq<string>, ghost before: seq<Signal>)
      requires Sent(before)
      modifies this`send, this`sendIndex
      ensures Sent(before + Group(elem, tags))
    {
      var shortcut := Shortcut(elem);
      if shortcut.Some? {
        SendInternal(shortcut.value, "DOUBLE", before);
        return;
      }
      SendNumbered(tags, "DOUBLE", before);
    }

    /** A run of entries is emitted when the element changes, and at the end. */
    method EmitJoints(entries: seq<Entry>, ghost before: seq<Signal>)
      requires Sent(before)
      modifies this`send, this`sendIndex
      ensures Sent(AfterRuns(before, Runs(entries)))
    {
      var open: Option<Run> := None;
      ghost var done: seq<Run> := [];
      assert AfterRuns(before, done) == before;
      for i := 0 to |entries|
        invariant Runs(entries[..i]) == WithOpen(done, open)
        invariant open.None? ==> done == []
        invariant Sent(AfterRuns(before, done))
      {
        assert entries[..i + 1][..i] == entries[..i];
        OpenRunGrows(entries[..i + 1], done, open);
        done := CloseRun(open, entries[i].elem, before, done);
        open := Some(Opened(open, entries[i]));
      }
      assert entries[..|entries|] == entries;
      if open.Some? {
        EmitRun(open.value, before, done);
      }
    }

    /** An open run of another element is emitted. */
    method CloseRun(open: Option<Run>, elem: string, ghost before: seq<Signal>, ghost done: seq<Run>)
      returns (ghost closed: seq<Run>)
      requires Sent(AfterRuns(before, done))
      modifies this`send, this`sendIndex
      ensures Sent(AfterRuns(before, closed))
      ensures closed == if open.Some? && open.value.elem != elem then done + [open.value] else done
    {
      closed := done;
      if open.Some? && elem != open.value.elem {
        EmitRun(open.value, before, done);
        closed := done + [open.value];
      }
    }

    method EmitRun(run: Run, ghost before: seq<Signal>, ghost done: seq<Run>)
      requires Sent(AfterRuns(before, done))
      modifies this`send, this`sendIndex
      ensures Sent(AfterRuns(before, done + [run]))
    {
      EmitSendGroup(run.elem, EntryTags(run.entries), AfterRuns(before, done));
      AfterOneRun(before, done, run);
    }

    method EmitSend(cartesian: Option<(string, seq<string>)>, layout: Layout, gpio: Gpio)
      requires Sent([])
      modifies this`send, this`sendIndex
      ensures Sent(SendSignals(cartesian, layout, gpio, other))
    {
      ghost var done: seq<Signal> := [];
      if cartesian.Some? {
        EmitSendGroup(cartesian.value.0, cartesian.value.1, []);
        done := Group(cartesian.value.0, cartesian.value.1);
        assert [] + done == done;
      }
      EmitJoints(layout.positions, done);
      done := done + RunSignals(Runs(layout.positions));
      EmitJoints(layout.velocities, done);
      done := done + RunSignals(Runs(layout.velocities));
      EmitJoints(layout.torques, done);
      done := done + RunSignals(Runs(layout.torques));
      var tags := Tags(gpio.elem, Texts(gpio.items, other));
      SendNumbered(tags, "BOOL", done);
      done := done + Plain(tags, "BOOL", None);
      SendInternal("DEF_Delay", "LONG", done);
    }

    method ReceiveOne(tag: string, kind: string, hold: bool, ghost before: seq<Signal>)
      requires Received(before)
      modifies this`receive, this`receiveIndex
      ensures Received(before + [Signal(tag, kind, true, Some(hold))])
    {
      assert (before + [Signal(tag, kind, true, Some(hold))])[..|before|] == before;
      receive := receive + [Element(tag, kind, Some(receiveIndex), Some(hold))];
      receiveIndex := receiveIndex + 1;
    }

    /** One element per attribute; where they are checked, the first invalid one ends it. */
    method ReceiveEach(elem: string, attributes: seq<Yaml>, kind: string, checked: bool, ghost before: seq<Signal>)
      returns (ok: bool)
      requires Received(before)
      modifies this`receive, this`receiveIndex
      ensures ok == (checked ==> AllNonEmptyTexts(attributes))
      ensures ok ==> Received(before + Commands(elem, Texts(attributes, other), kind))
    {
      NoneAndAll(elem, attributes, kind, other, before);
      ghost var done := before;
      for i := 0 to |attributes|
        invariant Received(done) && done == UpTo(elem, attributes, kind, other, before, i)
        invariant checked ==> NoneIsEmpty(attributes, i)
      {
        if checked && !NonEmptyText(attributes[i]) {
          OneIsEmpty(attributes, i);
          return false;
        }
        var tag := Tag(elem, Show(attributes[i], other));
        NextCommand(elem, attributes, kind, other, before, i);
        ReceiveOne(tag, kind, true, done);
        done := done + [Signal(tag, kind, true, Some(true))];
      }
      if checked {
        AllAreTexts(attributes, |attributes|);
        assert attributes[..|attributes|] == attributes;
      }
      ok := true;
    }

    method AddReceiveSignal(control: Yaml, key: string, defaultElem: string, axes: seq<Yaml>,
                            ghost before: seq<Signal>)
      returns (r: Result<(), Error>, ghost done: seq<Signal>)
      requires control.Map? && Received(before)
      modifies this`receive, this`receiveIndex
      ensures match OptionalCommands(control, key, defaultElem, axes, other)
              case Success(signals) => r == Success(()) && done == before + signals && Received(done)
              case Failure(error) => r == Failure(error)
    {
      done := before;
      var node := Get(control, key, Null);
      if node.Null? {
        return Success(()), done;
      }
      if !node.Map? {
        return Failure(Rejected), done;
      }
      var enabled := Get(node, "enabled", Bool(true));
      if !enabled.Bool? {
        return Failure(Rejected), done;
      }
      if !enabled.flag {
        return Success(()), done;
      }
      var elem := Get(node, "xml_element", Text(defaultElem));
      if !NonEmptyText(elem) {
        return Failure(Rejected), done;
      }
      var attributes := Get(node, "xml_attributes", List(axes));
      if !attributes.List? {
        return Failure(Rejected), done;
      }
      var ok := ReceiveEach(elem.text, attributes.items, "DOUBLE", true, before);
      if !ok {
        return Failure(Rejected), done;
      }
      r, done := Success(()), before + Commands(elem.text, Texts(attributes.items, other), "DOUBLE");
    }

    /** Attributes that are not given, or empty, are those of the axes; none is checked. */
    method EmitPositionCommands(node: Yaml, defaultElem: string, axes: seq<Yaml>, ghost before: seq<Signal>)
      returns (r: Result<(), Error>, ghost done: seq<Signal>)
      requires Received(before)
      modifies this`receive, this`receiveIndex
      ensures match PositionCommands(node, defaultElem, axes, other)
              case Success(signals) => r == Success(()) && done == before + signals && Received(done)
              case Failure(error) => r == Failure(error)
    {
      done := before;
      if !node.Map? {
        return Failure(Rejected), done;
      }
      var elem := Show(Get(node, "xml_element", Text(defaultElem)), other);
      var attributes := Get(node, "xml_attributes", List([]));
      if !Truthy(attributes) {
        attributes := List(axes);
      }
      var items := Items(attributes);
      if items.Failure? {
        return Failure(items.error), done;
      }
      var _ := ReceiveEach(elem, items.value, "DOUBLE", false, before);
      r, done := Success(()), before + Commands(elem, Texts(items.value, other), "DOUBLE");
    }

    method EmitExtCommands(control: Yaml, external: nat, ghost before: seq<Signal>)
      returns (r: Result<(), Error>, ghost done: seq<Signal>)
      requires control.Map? && Received(before)
      modifies this`receive, this`receiveIndex
      ensures match ExtCommands(control, external, other)
              case Success(signals) => r == Success(()) && done == before + signals && Received(done)
              case Failure(error) => r == Failure(error)
    {
      var extJoints := Get(control, "ext_joints", Null);
      if extJoints.Null? {
        return Success(()), before;
      }
      r, done := EmitPositionCommands(extJoints, "EK", Axes('E', external), before);
    }

    method EmitJointCommands(control: Yaml, layout: Layout, ghost before: seq<Signal>)
      returns (r: Result<(), Error>, ghost done: seq<Signal>)
      requires Received(before)
      modifies this`receive, this`receiveIndex
      ensures match JointCommands(control, layout, other)
              case Success(signals) => control.Map? && r == Success(()) && done == before + signals && Received(done)
              case Failure(error) => r == Failure(error)
    {
      var external := External(layout.positions);
      var joints := Section(control, "joints");
      if joints.Failure? {
        return Failure(joints.error), before;
      }
      var axes := Axes('A', |layout.positions| - external);
      ghost var first := PositionCommands(joints.value, "AK", axes, other);
      ghost var second := ExtCommands(control, external, other);
      assert JointCommands(control, layout, other) == Both(first, second);
      r, done := EmitPositionCommands(joints.value, "AK", axes, before);
      if r.Success? {
        assert done == before + first.value;
        r, done := EmitExtCommands(control, external, done);
        BothInTurn(before, first, second);
      }
    }

    /** Without attributes of their own the commands take those of the states. */
    method EmitGpioCommands(control: Yaml, gpio: Gpio, ghost before: seq<Signal>)
      returns (r: Result<(), Error>, ghost done: seq<Signal>)
      requires control.Map? && Received(before)
      modifies this`receive, this`receiveIndex
      ensures match GpioCommands(control, gpio, other)
              case Success(signals) => r == Success(()) && done == before + signals && Received(done)
              case Failure(error) => r == Failure(error)
    {
      done := before;
      var node := Get(control, "gpio", Null);
      if node.Null? {
        return Success(()), done;
      }
      if !node.Map? {
        return Failure(Rejected), done;
      }
      var elem := Show(Get(node, "xml_element", Text("GPIO")), other);
      var attributes := Get(node, "xml_attributes", List([]));
      if !Truthy(attributes) {
        attributes := List(gpio.items);
      }
      var items := Items(attributes);
      if items.Failure? {
        return Failure(items.error), done;
      }
      var ok := ReceiveEach(elem, items.value, "BOOL", true, before);
      if !ok {
        return Failure(Rejected), done;
      }
      r, done := Success(()), before + Commands(elem, Texts(items.value, other), "BOOL");
    }

    method EmitReceive(control: Yaml, layout: Layout, gpio: Gpio)
      returns (r: Result<(), Error>, ghost done: seq<Signal>)
      requires Received([])
      modifies this`receive, this`receiveIndex
      ensures match ReceiveSignals(control, layout, gpio, other)
              case Success(signals) => r == Success(()) && done == signals && Received(done)
              case Failure(error) => r == Failure(error)
    {
      ReceiveOne("Stop", "BOOL", false, []);
      assert [] + [STOP] == [STOP];
      r, done := EmitJointCommands(control, layout, [STOP]);
      if r.Success? {
        r, done := EmitPair(control, VELOCITIES, VELOCITY_ELEMENTS, layout, done);
      }
      if r.Success? {
        r, done := EmitPair(control, TORQUES, TORQUE_ELEMENTS, layout, done);
      }
      if r.Success? {
        r, done := EmitGpioCommands(control, gpio, done);
      }
    }

    method EmitPair(control: Yaml, names: (string, string), elems: (string, string), layout: Layout,
                    ghost before: seq<Signal>)
      returns (r: Result<(), Error>, ghost done: seq<Signal>)
      requires control.Map? && Received(before)
      modifies this`receive, this`receiveIndex
      ensures match SignalPair(control, names, elems, layout, other)
              case Success(signals) => r == Success(()) && done == before + signals && Received(done)
              case Failure(error) => r == Failure(error)
    {
      var external := External(layout.positions);
      var axes, extAxes := Axes('A', |layout.positions| - external), Axes('E', external);
      ghost var first := OptionalCommands(control, names.0, elems.0, axes, other);
      ghost var second := OptionalCommands(control, names.1, elems.1, extAxes, other);
      assert SignalPair(control, names, elems, layout, other) == Both(first, second);
      r, done := AddReceiveSignal(control, names.0, elems.0, axes, before);
      if r.Success? {
        assert done == before + first.value;
        r, done := AddReceiveSignal(control, names.1, elems.1, extAxes, done);
        BothInTurn(before, first, second);
      }
    }

    method BuildKrcXml(config: Yaml, clientIp: string, clientPort: int) returns (r: Result<Root, Error>)
      requires Sent([]) && Received([])
      modifies this
      ensures match Build(config, other)
              case Success(lists) => r == Success(Root(ConfigSection(clientIp, clientPort), lists))
              case Failure(error) => r == Failure(error)
      ensures clientPort >= 0 && r.Success? ==>
                r.value.config == [("IP_NUMBER", clientIp), ("PORT", Digits(clientPort)),
                                   ("SENTYPE", "KROSHU"), ("ONLYSEND", "FALSE")]
    {
      var lists :- BuildLists(config);
      r := Success(Root(ConfigSection(clientIp, clientPort), lists));
    }

    method BuildLists(config: Yaml) returns (r: Result<Krc, Error>)
      requires Sent([]) && Received([])
      modifies this
      ensures r == Build(config, other)
    {
      var motion :- Section(config, "motion_state");
      var control := Section(config, "control_signal").value;
      var layout :- ReadLayout(motion);
      var cartesian :- ReadCartesian(motion, other);
      var gpio :- ReadGpioState(motion, other);
      EmitSend(cartesian, layout, gpio);
      var received, _ := EmitReceive(control, layout, gpio);
      if received.Failure? {
        return Failure(received.error);
      }
      r := Success(Krc(send, receive));
    }
  }
}
