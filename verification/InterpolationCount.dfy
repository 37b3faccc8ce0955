/** The event broadcaster: a 32-bit count that advances while every robot is under external control. */
module InterpolationCount {
  import opened Words

  const CONTROL_STARTED: uint8 := 3
  const CONTROL_STOPPED: uint8 := 4
  const CONTROL_ERROR: uint8 := 6

  /** One reading of a robot's server state; it is None while the state interface is being written. */
  type Reading = Option<uint8>

  /** One reading per robot. */
  type Readings = seq<Reading>

  datatype Broadcaster = Broadcaster(lastEvents: seq<uint8>, controlActive: seq<bool>, count: uint32)
  {
    predicate For(robots: nat) {
      |lastEvents| == robots && |controlActive| == robots
    }
  }

  function Current(reading: Reading, last: uint8): uint8 {
    if reading.Some? then reading.value else last
  }

  predicate Ends(event: uint8) {
    event == CONTROL_STOPPED || event == CONTROL_ERROR
  }

  /** What an event makes of a robot's flag. */
  function Flag(event: uint8, active: bool): bool {
    if event == CONTROL_STARTED then true else if Ends(event) then false else active
  }

  function Events(last: seq<uint8>, readings: Readings): (r: seq<uint8>)
    requires |last| == |readings|
    ensures |r| == |last| && forall i | 0 <= i < |last| :: r[i] == Current(readings[i], last[i])
  {
    seq(|last|, i requires 0 <= i < |last| => Current(readings[i], last[i]))
  }

  function Flags(events: seq<uint8>, active: seq<bool>): (r: seq<bool>)
    requires |events| == |active|
    ensures |r| == |active| && forall i | 0 <= i < |active| :: r[i] == Flag(events[i], active[i])
  {
    seq(|active|, i requires 0 <= i < |active| => Flag(events[i], active[i]))
  }

  /** The events given out in the first `n` steps of an update: those that differ from the last one known of their
      robot, as far as the publisher's lock is free. */
  function Messages(last: seq<uint8>, readings: Readings, free: seq<bool>, n: nat): seq<(nat, uint8)>
    requires n <= |last| == |readings| == |free|
  {
    if n == 0 then []
    else
      var event := Current(readings[n - 1], last[n - 1]);
      Messages(last, readings, free, n - 1)
        + if event != last[n - 1] && free[n - 1] then [(n - 1, event)] else []
  }

  predicate All(flags: seq<bool>) {
    forall i | 0 <= i < |flags| :: flags[i]
  }

  predicate SomeEnds(events: seq<uint8>) {
    exists i | 0 <= i < |events| :: Ends(events[i])
  }

  /** One update. */
  function Update(b: Broadcaster, readings: Readings): Broadcaster
    requires b.For(|readings|)
  {
    var events := Events(b.lastEvents, readings);
    var active := Flags(events, b.controlActive);
    var count := if SomeEnds(events) then 0 else b.count;
    Broadcaster(events, active, if All(active) then Inc32(count) else count)
  }

  /** The update hands the count out unless it neither advanced nor was reset. */
  predicate Publishes(b: Broadcaster, readings: Readings)
    requires b.For(|readings|)
  {
    var events := Events(b.lastEvents, readings);
    All(Flags(events, b.controlActive)) || SomeEnds(events)
  }

  /** The counts in the command interfaces after an update; `settable` says which of them accept a value. */
  function Given(b: Broadcaster, readings: Readings, held: seq<uint32>, settable: seq<bool>): (r: seq<uint32>)
    requires b.For(|readings|) && |held| == |settable|
    ensures |r| == |held|
  {
    seq(|held|, i requires 0 <= i < |held| =>
      if Publishes(b, readings) && settable[i] then Update(b, readings).count else held[i])
  }

  function Activate(b: Broadcaster): Broadcaster {
    b.(controlActive := seq(|b.controlActive|, i => false), count := 0)
  }

  /** After an update the readings are known, so a reading that stays is not given out again. */
  lemma {:induction false} SteadyReadingsAreSilent(last: seq<uint8>, readings: Readings, free: seq<bool>, n: nat)
    requires n <= |last| == |readings| == |free|
    ensures Messages(Events(last, readings), readings, free, n) == []
    decreases n
  {
    if n > 0 {
      SteadyReadingsAreSilent(last, readings, free, n - 1);
    }
  }

  // ----- histories -----

  /** The readings of every tick since activation, for `robots` robots. */
  predicate History(ticks: seq<Readings>, robots: nat) {
    forall t | t in ticks :: |t| == robots
  }

  function After(b: Broadcaster, ticks: seq<Readings>): (r: Broadcaster)
    requires b.For(|b.lastEvents|) && History(ticks, |b.lastEvents|)
    ensures r.For(|b.lastEvents|)
    decreases |ticks|
  {
    if ticks == [] then b
    else
      assert ticks[|ticks| - 1] in ticks;
      assert forall t | t in ticks[..|ticks| - 1] :: t in ticks;
      Update(After(b, ticks[..|ticks| - 1]), ticks[|ticks| - 1])
  }

  /** The event robot `i` is in at tick `n`: the reading of that tick or, without one, of the tick before;
      before the first reading it is the event known at activation. */
  function EventAt(last: uint8, ticks: seq<Readings>, i: nat, n: nat): uint8
    requires n < |ticks| && forall t | t in ticks :: i < |t|
  {
    var reading := (assert ticks[n] in ticks; ticks[n])[i];
    if reading.Some? then reading.value
    else if n == 0 then last
    else EventAt(last, ticks, i, n - 1)
  }

  /** Robot `i` has stopped, or is in an error, at tick `n`. */
  predicate EndedAt(last: uint8, ticks: seq<Readings>, i: nat, n: nat)
    requires n < |ticks| && forall t | t in ticks :: i < |t|
  {
    EventAt(last, ticks, i, n) == CONTROL_STOPPED || EventAt(last, ticks, i, n) == CONTROL_ERROR
  }

  /** The last decisive event of robot `i` up to and including tick `n` is CONTROL_STARTED. */
  predicate StartedAt(last: uint8, ticks: seq<Readings>, i: nat, n: nat)
    requires n < |ticks| && forall t | t in ticks :: i < |t|
  {
    || EventAt(last, ticks, i, n) == CONTROL_STARTED
    || (!EndedAt(last, ticks, i, n) && n > 0 && StartedAt(last, ticks, i, n - 1))
  }

  predicate AllStartedAt(last: seq<uint8>, ticks: seq<Readings>, n: nat)
    requires n < |ticks| && History(ticks, |last|)
  {
    forall i | 0 <= i < |last| :: StartedAt(last[i], ticks, i, n)
  }

  /** The number of ticks up to and including tick `n - 1`, without a gap, in which all robots are started. */
  function Streak(last: seq<uint8>, ticks: seq<Readings>, n: nat): (r: nat)
    requires n <= |ticks| && History(ticks, |last|)
    ensures r <= n
  {
    if n == 0 || !AllStartedAt(last, ticks, n - 1) then 0 else Streak(last, ticks, n - 1) + 1
  }

  /** The streak is the longest suffix of ticks in which all robots are started. */
  lemma {:induction false} StreakIsLongestSuffix(last: seq<uint8>, ticks: seq<Readings>, n: nat, k: nat)
    requires n <= |ticks| && History(ticks, |last|) && k <= n
    ensures (forall j | n - k <= j < n :: AllStartedAt(last, ticks, j)) <==> k <= Streak(last, ticks, n)
    decreases n
  {
    if n > 0 && k > 0 {
      StreakIsLongestSuffix(last, ticks, n - 1, k - 1);
      if k <= Streak(last, ticks, n) {
        forall j | n - k <= j < n
          ensures AllStartedAt(last, ticks, j)
        {
          if j < n - 1 {
            assert n - 1 - (k - 1) <= j < n - 1;
          }
        }
      }
    }
  }

  /** The events and flags after `n` ticks, read off the history. */
  lemma {:induction false} EventsAndFlags(b: Broadcaster, ticks: seq<Readings>, n: nat)
    requires b.For(|b.lastEvents|) && History(ticks, |b.lastEvents|) && 0 < n <= |ticks|
    requires !SomeActive(b)
    ensures var r := (PrefixHistory(ticks, n, |b.lastEvents|); After(b, ticks[..n]));
            forall i | 0 <= i < |b.lastEvents| ::
              && r.lastEvents[i] == EventAt(b.lastEvents[i], ticks, i, n - 1)
              && r.controlActive[i] == StartedAt(b.lastEvents[i], ticks, i, n - 1)
    decreases n
  {
    PrefixHistory(ticks, n, |b.lastEvents|);
    PrefixHistory(ticks, n - 1, |b.lastEvents|);
    assert ticks[..n][..n - 1] == ticks[..n - 1];
    assert ticks[n - 1] in ticks;
    var before := After(b, ticks[..n - 1]);
    if n > 1 {
      EventsAndFlags(b, ticks, n - 1);
    }
    var r := Update(before, ticks[n - 1]);
    assert After(b, ticks[..n]) == r;
    forall i | 0 <= i < |b.lastEvents|
      ensures r.lastEvents[i] == EventAt(b.lastEvents[i], ticks, i, n - 1)
      ensures r.controlActive[i] == StartedAt(b.lastEvents[i], ticks, i, n - 1)
    {
      assert r.lastEvents[i] == Current(ticks[n - 1][i], before.lastEvents[i]);
      assert r.controlActive[i] == Flag(r.lastEvents[i], before.controlActive[i]);
    }
  }

  predicate SomeActive(b: Broadcaster) {
    exists i | 0 <= i < |b.controlActive| :: b.controlActive[i]
  }

  lemma PrefixHistory(ticks: seq<Readings>, n: nat, robots: nat)
    requires n <= |ticks| && History(ticks, robots)
    ensures History(ticks[..n], robots)
  {
    assert forall t | t in ticks[..n] :: t in ticks;
  }

  /** Closed form: for one robot or more and any history since activation, the count is the length of the
      longest suffix of ticks in which every robot's last decisive event was CONTROL_STARTED, modulo 2^32. */
  lemma {:induction false} CountIsStreak(b: Broadcaster, ticks: seq<Readings>)
    requires b.For(|b.lastEvents|) && History(ticks, |b.lastEvents|) && |b.lastEvents| >= 1
    ensures After(Activate(b), ticks).count == Wrapped(Streak(b.lastEvents, ticks, |ticks|))
  {
    assert ticks[..|ticks|] == ticks;
    PrefixCount(Activate(b), ticks, |ticks|);
  }

  lemma {:induction false} PrefixCount(b: Broadcaster, ticks: seq<Readings>, n: nat)
    requires b.For(|b.lastEvents|) && History(ticks, |b.lastEvents|) && |b.lastEvents| >= 1
    requires b.count == 0 && !SomeActive(b) && n <= |ticks|
    ensures var r := (PrefixHistory(ticks, n, |b.lastEvents|); After(b, ticks[..n]));
            r.count == Wrapped(Streak(b.lastEvents, ticks, n))
    decreases n
  {
    PrefixHistory(ticks, n, |b.lastEvents|);
    if n > 0 {
      PrefixHistory(ticks, n - 1, |b.lastEvents|);
      assert ticks[..n][..n - 1] == ticks[..n - 1];
      assert ticks[n - 1] in ticks;
      PrefixCount(b, ticks, n - 1);
      AllFlags(b, ticks, n);
      if n > 1 {
        AllFlags(b, ticks, n - 1);
      }
      CountStep(After(b, ticks[..n - 1]), ticks[n - 1], Streak(b.lastEvents, ticks, n - 1));
    }
  }

  lemma AllFlags(b: Broadcaster, ticks: seq<Readings>, n: nat)
    requires b.For(|b.lastEvents|) && History(ticks, |b.lastEvents|) && 0 < n <= |ticks|
    requires !SomeActive(b)
    ensures var r := (PrefixHistory(ticks, n, |b.lastEvents|); After(b, ticks[..n]));
            All(r.controlActive) <==> AllStartedAt(b.lastEvents, ticks, n - 1)
  {
    EventsAndFlags(b, ticks, n);
  }

  /** While some robot is not started the count is 0, so only a robot leaving control needs the reset. */
  lemma CountStep(b: Broadcaster, readings: Readings, k: nat)
    requires b.For(|readings|) && b.count == Wrapped(k) && (All(b.controlActive) || k == 0)
    ensures var r := Update(b, readings);
            r.count == Wrapped(if All(r.controlActive) then k + 1 else 0)
  {
    var r := Update(b, readings);
    var events := Events(b.lastEvents, readings);
    WrappedNext(k);
    if All(r.controlActive) {
      forall i | 0 <= i < |events|
        ensures !Ends(events[i])
      {
        assert r.controlActive[i];
      }
    } else if All(b.controlActive) {
      var i :| 0 <= i < |r.controlActive| && !r.controlActive[i];
      assert Ends(events[i]);
    }
  }

  /** In particular the count is 0 whenever some robot is not started. */
  lemma CountIsZeroUnlessAllStarted(b: Broadcaster, ticks: seq<Readings>)
    requires b.For(|b.lastEvents|) && History(ticks, |b.lastEvents|) && |b.lastEvents| >= 1 && ticks != []
    requires !AllStartedAt(b.lastEvents, ticks, |ticks| - 1)
    ensures After(Activate(b), ticks).count == 0
  {
    CountIsStreak(b, ticks);
  }

  /** Configuration refuses an empty list of robots. */
  function Configure(robots: nat): Option<Broadcaster> {
    if robots == 0 then None
    else Some(Broadcaster(seq(robots, i => 0), seq(robots, i => false), 0))
  }

  /** Whatever is configured has a count in closed form after its first activation; without robots the count would be
      the number of ticks, with nothing under control. */
  lemma {:induction false} NoRobotsCountsAnyway(b: Broadcaster, ticks: seq<Readings>)
    requires b.For(0) && History(ticks, 0) && |b.lastEvents| == 0
    ensures After(Activate(b), ticks).count == Wrapped(|ticks|)
    decreases |ticks|
  {
    if ticks != [] {
      var n := |ticks| - 1;
      PrefixHistory(ticks, n, 0);
      assert ticks[n] in ticks;
      NoRobotsCountsAnyway(b, ticks[..n]);
      var before := After(Activate(b), ticks[..n]);
      assert All(Update(before, ticks[n]).controlActive) && !SomeEnds(Events(before.lastEvents, ticks[n]));
      WrappedNext(n);
    }
  }

  lemma ConfiguredCountIsStreak(robots: nat, ticks: seq<Readings>)
    requires Configure(robots).Some? && History(ticks, robots)
    ensures robots > 0 && Configure(robots).value.lastEvents == seq(robots, i => 0)
    ensures After(Activate(Configure(robots).value), ticks).count
         == Wrapped(Streak(seq(robots, i => 0), ticks, |ticks|))
  {
    CountIsStreak(Configure(robots).value, ticks);
  }

  // ----- what is published -----

  lemma {:induction false} MessagesOfUpdate(last: seq<uint8>, readings: Readings, free: seq<bool>, n: nat, i: nat,
                                            event: uint8)
    requires n <= |last| == |readings| == |free|
    ensures (i, event) in Messages(last, readings, free, n)
            <==> i < n && free[i] && event == Current(readings[i], last[i]) && event != last[i]
    decreases n
  {
    if n > 0 {
      MessagesOfUpdate(last, readings, free, n - 1, i, event);
    }
  }

  /** Each robot is spoken of at most once in an update, in the order of the robots. */
  lemma {:induction false} MessagesInOrder(last: seq<uint8>, readings: Readings, free: seq<bool>, n: nat)
    requires n <= |last| == |readings| == |free|
    ensures var messages := Messages(last, readings, free, n);
            && (forall m | m in messages :: m.0 < n)
            && forall j, k | 0 <= j < k < |messages| :: messages[j].0 < messages[k].0
    decreases n
  {
    if n > 0 {
      MessagesInOrder(last, readings, free, n - 1);
    }
  }

  /** Over any history, an update publishes the event of a robot exactly when the robot's event is another one than at
      the tick before - or than the one known at activation - and the publisher's lock is free. */
  lemma ChangesArePublished(b: Broadcaster, ticks: seq<Readings>, free: seq<bool>, n: nat, i: nat, event: uint8)
    requires b.For(|b.lastEvents|) && !SomeActive(b) && History(ticks, |b.lastEvents|) && 0 < n <= |ticks|
    requires |free| == |b.lastEvents| && i < |b.lastEvents|
    ensures History(ticks[..n - 1], |b.lastEvents|) && |ticks[n - 1]| == |b.lastEvents|
    ensures var before := if n == 1 then b.lastEvents[i] else EventAt(b.lastEvents[i], ticks, i, n - 2);
            (i, event) in Messages(After(b, ticks[..n - 1]).lastEvents, ticks[n - 1], free, |free|)
            <==> free[i] && event == EventAt(b.lastEvents[i], ticks, i, n - 1) && event != before
  {
    PrefixHistory(ticks, n, |b.lastEvents|);
    PrefixHistory(ticks, n - 1, |b.lastEvents|);
    assert ticks[n - 1] in ticks && ticks[..n][..n - 1] == ticks[..n - 1];
    EventsAndFlags(b, ticks, n);
    if n > 1 {
      EventsAndFlags(b, ticks, n - 1);
    }
    MessagesOfUpdate(After(b, ticks[..n - 1]).lastEvents, ticks[n - 1], free, |free|, i, event);
  }

  // ----- what the command interfaces hold -----

  /** Tick `n` hands its count out: all robots are started, or some robot has stopped or is in an error. */
  predicate HandsOut(last: seq<uint8>, ticks: seq<Readings>, n: nat)
    requires n < |ticks| && History(ticks, |last|)
  {
    AllStartedAt(last, ticks, n) || exists i | 0 <= i < |last| :: EndedAt(last[i], ticks, i, n)
  }

  /** At every tick, which of the command interfaces accept a value. */
  predicate Accepts(accepts: seq<seq<bool>>, ticks: seq<Readings>, interfaces: nat) {
    |accepts| == |ticks| && forall a | a in accepts :: |a| == interfaces
  }

  /** The counts in the command interfaces after a history. */
  function Held(b: Broadcaster, held: seq<uint32>, ticks: seq<Readings>, accepts: seq<seq<bool>>): (r: seq<uint32>)
    requires b.For(|b.lastEvents|) && History(ticks, |b.lastEvents|) && Accepts(accepts, ticks, |held|)
    ensures |r| == |held|
    decreases |ticks|
  {
    if ticks == [] then held
    else
      var n := |ticks| - 1;
      PrefixHistory(ticks, n, |b.lastEvents|);
      PrefixAccepts(accepts, ticks, n, |held|);
      assert ticks[n] in ticks && accepts[n] in accepts;
      Given(After(b, ticks[..n]), ticks[n], Held(b, held, ticks[..n], accepts[..n]), accepts[n])
  }

  lemma PrefixAccepts(accepts: seq<seq<bool>>, ticks: seq<Readings>, n: nat, interfaces: nat)
    requires n <= |ticks| && Accepts(accepts, ticks, interfaces)
    ensures Accepts(accepts[..n], ticks[..n], interfaces)
  {
    assert forall a | a in accepts[..n] :: a in accepts;
  }

  /** What interface `i` was last given in the first `n` ticks: the streak of the last tick that handed its count out
      while the interface accepted it. */
  function LastGiven(last: seq<uint8>, held: uint32, ticks: seq<Readings>, accepts: seq<seq<bool>>, i: nat, n: nat)
    : uint32
    requires History(ticks, |last|) && |accepts| == |ticks| && (forall a | a in accepts :: i < |a|) && n <= |ticks|
  {
    if n == 0 then held
    else if (assert accepts[n - 1] in accepts; accepts[n - 1])[i] && HandsOut(last, ticks, n - 1)
    then Wrapped(Streak(last, ticks, n))
    else LastGiven(last, held, ticks, accepts, i, n - 1)
  }

  /** After any history, whichever interfaces refuse a value at times, each holds the count last handed out to it. */
  lemma {:induction false} InterfacesHoldLastGiven(b: Broadcaster, held: seq<uint32>, ticks: seq<Readings>,
                                                   accepts: seq<seq<bool>>, i: nat, n: nat)
    requires b.For(|b.lastEvents|) && |b.lastEvents| >= 1 && b.count == 0 && !SomeActive(b)
    requires History(ticks, |b.lastEvents|) && Accepts(accepts, ticks, |held|) && i < |held| && n <= |ticks|
    ensures var now := (PrefixHistory(ticks, n, |b.lastEvents|); PrefixAccepts(accepts, ticks, n, |held|);
                        Held(b, held, ticks[..n], accepts[..n]));
            now[i] == LastGiven(b.lastEvents, held[i], ticks, accepts, i, n)
    decreases n
  {
    PrefixHistory(ticks, n, |b.lastEvents|);
    PrefixAccepts(accepts, ticks, n, |held|);
    if n > 0 {
      PrefixHistory(ticks, n - 1, |b.lastEvents|);
      PrefixAccepts(accepts, ticks, n - 1, |held|);
      InterfacesHoldLastGiven(b, held, ticks, accepts, i, n - 1);
      HeldNext(b, held, ticks, accepts, n);
      PublishesIsHandsOut(b, ticks, n);
      PrefixCount(b, ticks, n);
    }
  }

  lemma HeldNext(b: Broadcaster, held: seq<uint32>, ticks: seq<Readings>, accepts: seq<seq<bool>>, n: nat)
    requires b.For(|b.lastEvents|) && History(ticks, |b.lastEvents|) && Accepts(accepts, ticks, |held|)
    requires 0 < n <= |ticks|
    ensures History(ticks[..n], |b.lastEvents|) && History(ticks[..n - 1], |b.lastEvents|)
    ensures Accepts(accepts[..n], ticks[..n], |held|) && Accepts(accepts[..n - 1], ticks[..n - 1], |held|)
    ensures |ticks[n - 1]| == |b.lastEvents| && |accepts[n - 1]| == |held|
    ensures var before := After(b, ticks[..n - 1]);
            && After(b, ticks[..n]) == Update(before, ticks[n - 1])
            && Held(b, held, ticks[..n], accepts[..n])
               == Given(before, ticks[n - 1], Held(b, held, ticks[..n - 1], accepts[..n - 1]), accepts[n - 1])
  {
    PrefixHistory(ticks, n, |b.lastEvents|);
    PrefixHistory(ticks, n - 1, |b.lastEvents|);
    PrefixAccepts(accepts, ticks, n, |held|);
    PrefixAccepts(accepts, ticks, n - 1, |held|);
    assert ticks[n - 1] in ticks && accepts[n - 1] in accepts;
    assert ticks[..n][..n - 1] == ticks[..n - 1] && accepts[..n][..n - 1] == accepts[..n - 1];
  }

  lemma PublishesIsHandsOut(b: Broadcaster, ticks: seq<Readings>, n: nat)
    requires b.For(|b.lastEvents|) && !SomeActive(b) && History(ticks, |b.lastEvents|) && 0 < n <= |ticks|
    ensures History(ticks[..n - 1], |b.lastEvents|) && |ticks[n - 1]| == |b.lastEvents|
    ensures Publishes(After(b, ticks[..n - 1]), ticks[n - 1]) <==> HandsOut(b.lastEvents, ticks, n - 1)
  {
    PrefixHistory(ticks, n, |b.lastEvents|);
    PrefixHistory(ticks, n - 1, |b.lastEvents|);
    assert ticks[n - 1] in ticks && ticks[..n][..n - 1] == ticks[..n - 1];
    EventsAndFlags(b, ticks, n);
    var events := Events(After(b, ticks[..n - 1]).lastEvents, ticks[n - 1]);
    assert events == After(b, ticks[..n]).lastEvents;
    forall i | 0 <= i < |b.lastEvents|
      ensures Ends(events[i]) <==> EndedAt(b.lastEvents[i], ticks, i, n - 1)
    {
      assert events[i] == EventAt(b.lastEvents[i], ticks, i, n - 1);
    }
  }

  /** An interface that accepts every value holds the count of the tick exactly if it held zero at the activation or
      some tick has handed out its count since: an activation leaves the interfaces as they are. */
  lemma {:induction false} InterfacesHoldTheStreak(last: seq<uint8>, held: uint32, ticks: seq<Readings>,
                                                   accepts: seq<seq<bool>>, i: nat, n: nat)
    requires |last| >= 1 && History(ticks, |last|) && |accepts| == |ticks| && n <= |ticks|
    requires forall a | a in accepts :: i < |a| && a[i]
    ensures LastGiven(last, held, ticks, accepts, i, n) == Wrapped(Streak(last, ticks, n))
            <==> held == 0 || exists t | 0 <= t < n :: HandsOut(last, ticks, t)
    decreases n
  {
    if n > 0 {
      assert accepts[n - 1] in accepts;
      InterfacesHoldTheStreak(last, held, ticks, accepts, i, n - 1);
      if !HandsOut(last, ticks, n - 1) {
        NothingHandedOut(last, ticks, n);
      }
    }
  }

  /** A tick that hands nothing out leaves the streak at zero. */
  lemma NothingHandedOut(last: seq<uint8>, ticks: seq<Readings>, n: nat)
    requires |last| >= 1 && History(ticks, |last|) && 0 < n <= |ticks| && !HandsOut(last, ticks, n - 1)
    ensures Streak(last, ticks, n) == 0 == Streak(last, ticks, n - 1)
  {
    var i :| 0 <= i < |last| && !StartedAt(last[i], ticks, i, n - 1);
    assert !EndedAt(last[i], ticks, i, n - 1);
    assert n > 1 ==> !StartedAt(last[i], ticks, i, n - 2);
  }

  // ----- the controller object -----

  class EventBroadcaster {
    var lastEvents: array<uint8>
    var controlActive: array<bool>
    var count: uint32
    var interfaces: array<uint32>

    ghost predicate Valid()
      reads this
    {
      lastEvents.Length == controlActive.Length == interfaces.Length
    }

    ghost function View(): Broadcaster
      reads this, lastEvents, controlActive
    {
      Broadcaster(lastEvents[..], controlActive[..], count)
    }

    constructor (commands: array<uint32>)
      ensures View() == Broadcaster([], [], 0) && interfaces == commands && fresh(lastEvents) && fresh(controlActive)
    {
      lastEvents := new uint8[0];
      controlActive := new bool[0];
      count := 0;
      interfaces := commands;
    }

    /** There is one command interface per robot. */
    method OnConfigure(robots: nat) returns (ok: bool)
      requires interfaces.Length == robots
      modifies this`lastEvents, this`controlActive, this`count
      ensures ok == Configure(robots).Some? == (robots > 0)
      ensures ok ==> Valid() && View() == Configure(robots).value && fresh(lastEvents) && fresh(controlActive)
      ensures ok ==> count == 0 && forall i | 0 <= i < robots :: lastEvents[i] == 0 && !controlActive[i]
      ensures !ok ==> View() == old(View())
    {
      if robots == 0 {
        return false;
      }
      count := 0;
      lastEvents := new uint8[robots](i => 0);
      controlActive := new bool[robots](i => false);
      assert lastEvents[..] == seq(robots, i => 0) && controlActive[..] == seq(robots, i => false);
      ok := true;
    }

    method OnActivate()
      requires Valid()
      modifies this`count, controlActive
      ensures Valid() && View() == Activate(old(View()))
    {
      for i := 0 to controlActive.Length
        invariant forall k | 0 <= k < i :: !controlActive[k]
      {
        controlActive[i] := false;
      }
      count := 0;
      assert controlActive[..] == seq(controlActive.Length, i => false);
    }

    /** One robot's event and flag. */
    method ReadEvent(i: nat, reading: Reading) returns (ended: bool, changed: bool)
      requires Valid() && i < lastEvents.Length
      modifies lastEvents, controlActive
      ensures lastEvents[i] == Current(reading, old(lastEvents[i]))
      ensures controlActive[i] == Flag(lastEvents[i], old(controlActive[i]))
      ensures forall k | 0 <= k < lastEvents.Length && k != i ::
                lastEvents[k] == old(lastEvents[k]) && controlActive[k] == old(controlActive[k])
      ensures ended == Ends(lastEvents[i]) && changed == (lastEvents[i] != old(lastEvents[i]))
    {
      var event := if reading.Some? then reading.value else lastEvents[i];
      ended := false;
      if event == CONTROL_STARTED {
        controlActive[i] := true;
      } else if event == CONTROL_STOPPED || event == CONTROL_ERROR {
        controlActive[i] := false;
        ended := true;
      }
      changed := event != lastEvents[i];
      if changed {
        lastEvents[i] := event;
      }
    }

    /** The first loop of an update: events, flags, and whether some robot left control. */
    method ReadEvents(readings: Readings, free: seq<bool>) returns (resetCount: bool, published: seq<(nat, uint8)>)
      requires Valid() && |readings| == |free| == lastEvents.Length
      modifies this`count, lastEvents, controlActive
      ensures lastEvents[..] == Events(old(lastEvents[..]), readings)
      ensures controlActive[..] == Flags(lastEvents[..], old(controlActive[..]))
      ensures resetCount == SomeEnds(lastEvents[..]) && count == if resetCount then 0 else old(count)
      ensures published == Messages(old(lastEvents[..]), readings, free, |readings|)
    {
      ghost var before := lastEvents[..];
      ghost var events := Events(lastEvents[..], readings);
      ghost var flags := Flags(events, controlActive[..]);
      resetCount, published := false, [];
      for i := 0 to |readings|
        invariant published == Messages(before, readings, free, i)
        invariant forall k | 0 <= k < i :: lastEvents[k] == events[k] && controlActive[k] == flags[k]
        invariant forall k | i <= k < |readings| ::
                    lastEvents[k] == old(lastEvents[k]) && controlActive[k] == old(controlActive[k])
        invariant resetCount <==> exists k | 0 <= k < i :: Ends(events[k])
        invariant count == if resetCount then 0 else old(count)
      {
        var ended, changed := ReadEvent(i, readings[i]);
        if ended {
          count := 0;
          resetCount := true;
        }
        if changed && free[i] {
          published := published + [(i, lastEvents[i])];
        }
      }
      assert lastEvents[..] == events;
    }

    /** `settable` says which of the command interfaces accept a value. */
    method SetCounts(settable: seq<bool>) returns (ok: bool)
      requires |settable| == interfaces.Length
      modifies interfaces
      ensures forall i | 0 <= i < interfaces.Length ::
                interfaces[i] == if settable[i] then count else old(interfaces[i])
      ensures ok == All(settable)
    {
      ok := true;
      for i := 0 to interfaces.Length
        invariant forall k | 0 <= k < i :: interfaces[k] == if settable[k] then count else old(interfaces[k])
        invariant forall k | i <= k < interfaces.Length :: interfaces[k] == old(interfaces[k])
        invariant ok <==> forall k | 0 <= k < i :: settable[k]
      {
        if settable[i] {
          interfaces[i] := count;
        }
        ok := ok && settable[i];
      }
    }

    method AllControlStarted() returns (allStarted: bool)
      ensures allStarted == All(controlActive[..])
    {
      allStarted := true;
      for i := 0 to controlActive.Length
        invariant allStarted <==> forall k | 0 <= k < i :: controlActive[k]
      {
        allStarted := allStarted && controlActive[i];
      }
    }

    method UpdateCount(readings: Readings, free: seq<bool>, settable: seq<bool>)
      returns (ok: bool, published: seq<(nat, uint8)>)
      requires Valid() && |readings| == |free| == |settable| == lastEvents.Length
      modifies this`count, lastEvents, controlActive, interfaces
      ensures Valid() && View() == Update(old(View()), readings)
      ensures interfaces[..] == Given(old(View()), readings, old(interfaces[..]), settable)
      ensures forall i | 0 <= i < interfaces.Length :: !settable[i] ==> interfaces[i] == old(interfaces[i])
      ensures forall i | 0 <= i < interfaces.Length && settable[i] ::
                old(interfaces[i]) == old(count) || count != old(count) ==> interfaces[i] == count
      ensures ok == (!Publishes(old(View()), readings) || All(settable))
      ensures published == Messages(old(View()).lastEvents, readings, free, |readings|)
    {
      var resetCount;
      resetCount, published := ReadEvents(readings, free);
      var allStarted := AllControlStarted();
      if allStarted {
        count := if count == MAX_UINT32 then 0 else count + 1;
      } else if !resetCount {
        return true, published;
      }
      ok := SetCounts(settable);
    }
  }
}
