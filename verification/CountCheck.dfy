/** The check every hardware interface makes before it sends: it should see consecutive interpolation counts. */
module CountCheck {
  import opened Words
  import InterpolationCount

  /** What is remembered between writes. */
  datatype Check = Check(initialized: bool, last: uint32)

  /** What a write did besides sending. */
  datatype Outcome = Outcome(check: Check, warned: bool, sent: bool)

  function Expected(last: uint32): uint32 {
    if last == MAX_UINT32 then 0 else last + 1
  }

  predicate Deviates(c: Check, count: uint32) {
    count > 0 && c.initialized && count != Expected(c.last)
  }

  /** One write that reads `count` from the command interface; `waited` is what the wait for a late count
      ends with. The warning is given only while the interface is active. */
  function Write(c: Check, received: bool, active: bool, count: uint32, waited: uint32): Outcome {
    if !received then Outcome(c, false, false)
    else
      var used := if Deviates(c, count) then waited else count;
      Outcome(if used > 0 then Check(true, used) else c,
              Deviates(c, count) && used != Expected(c.last) && active,
              true)
  }

  /** Asynchronous hardware that reads the count of the tick before, and whose wait ends on the count of the tick,
      behaves like hardware that reads at once exactly if the count has gone on by one, wrap-around included, or the
      interface is not active. If it was reset in between, the late read of an active interface gives a warning that the
      other does not. */
  lemma LateReadIsCured(c: Check, active: bool, next: uint32)
    requires c.initialized && c.last > 0 && (next == Expected(c.last) || next == 0)
    ensures Write(c, true, active, c.last, next) == Write(c, true, active, next, next)
            <==> next == Expected(c.last) || !active
    ensures next != Expected(c.last) ==>
              Write(c, true, active, c.last, next).warned == active && !Write(c, true, active, next, next).warned
  {
    assert Deviates(c, c.last);
  }

  // ----- the wait for a late count -----

  const RETRY_NS: nat := 1_000_000
  const STEP_NS: nat := 200_000

  /** `clock(k)` is the k-th reading of the clock: `clock(0)` sets the deadline, and between two later readings
      the thread sleeps for a step or for what remains. */
  ghost predicate Sleeps(clock: nat -> int) {
    && clock(0) <= clock(1)
    && forall k: nat | k > 0 && clock(k) < clock(0) + RETRY_NS ::
         clock(k + 1) >= clock(k) + STEP_NS || clock(k + 1) >= clock(0) + RETRY_NS
  }

  /** One less, with the wrap-around of unsigned arithmetic. */
  function Behind(expected: uint32): uint32 {
    if expected == 0 then MAX_UINT32 else expected - 1
  }

  lemma BehindIsTheOneBefore(expected: uint32)
    ensures forall count: uint32 :: count == Behind(expected) <==> Expected(count) == expected
  {
  }

  /** `polled(k)` is the k-th value read from the command interface. At most five polls are made; the wait
      goes on exactly while the count is one behind and the deadline has not passed. */
  method WaitForInterpolationCount(expected: uint32, current: uint32, isAsync: bool,
                                   polled: nat -> uint32, clock: nat -> int)
    returns (count: uint32, polls: nat)
    requires Sleeps(clock)
    ensures !isAsync || current != Behind(expected) ==> count == current && polls == 0
    ensures count == if polls == 0 then current else polled(polls - 1)
    ensures polls <= 5 && forall k: nat | k + 1 < polls :: polled(k) == Behind(expected)
    ensures forall k: nat | 1 <= k <= polls :: clock(k) < clock(0) + RETRY_NS
    ensures isAsync && count == Behind(expected) ==> clock(polls + 1) >= clock(0) + RETRY_NS
  {
    count, polls := current, 0;
    if !isAsync || current != Behind(expected) {
      return;
    }
    var deadline := clock(0) + RETRY_NS;
    var now := clock(1);
    while count == Behind(expected) && now < deadline
      invariant now == clock(polls + 1)
      invariant count == if polls == 0 then current else polled(polls - 1)
      invariant forall k: nat | k + 1 < polls :: polled(k) == Behind(expected)
      invariant forall k: nat | 1 <= k <= polls :: clock(k) < deadline
      invariant now < deadline ==> now >= clock(0) + polls * STEP_NS
      invariant polls <= 5
      decreases 5 - polls
    {
      count := polled(polls);
      polls := polls + 1;
      now := clock(polls + 1);
    }
  }

  // ----- writes over a history of counts -----

  /** What the interface does at one tick: it may forget the count before the tick, it writes unless no request of the
      robot has come in, and it is active or not. */
  datatype Tick = Tick(forgets: bool, writes: bool, active: bool)

  function Forget(c: Check, forgets: bool): Check {
    if forgets then c.(initialized := false) else c
  }

  /** The check before tick `n`. The interface reads the count of the tick itself. */
  function CheckAt(c: Check, counts: seq<uint32>, own: seq<Tick>, n: nat): Check
    requires n <= |counts| == |own|
  {
    if n == 0 then c else At(CheckAt(c, counts, own, n - 1), counts[n - 1], own[n - 1]).check
  }

  function At(c: Check, count: uint32, tick: Tick): Outcome {
    Write(Forget(c, tick.forgets), tick.writes, tick.active, count, count)
  }

  predicate SendsAt(c: Check, counts: seq<uint32>, own: seq<Tick>, t: nat)
    requires t < |counts| == |own|
  {
    At(CheckAt(c, counts, own, t), counts[t], own[t]).sent
  }

  predicate WarnsAt(c: Check, counts: seq<uint32>, own: seq<Tick>, t: nat)
    requires t < |counts| == |own|
  {
    At(CheckAt(c, counts, own, t), counts[t], own[t]).warned
  }

  predicate Sees(counts: seq<uint32>, own: seq<Tick>, t: nat)
    requires t < |counts| == |own|
  {
    own[t].writes && counts[t] > 0
  }

  /** `u` is the last tick before `t` at which the interface wrote with a count, and nothing made it forget
      that since. */
  predicate LastSeen(counts: seq<uint32>, own: seq<Tick>, u: nat, t: nat)
    requires t < |counts| == |own|
  {
    && u < t && Sees(counts, own, u) && !own[t].forgets
    && forall j | u < j < t :: !Sees(counts, own, j) && !own[j].forgets
  }

  /** The check remembers exactly the last count seen. */
  lemma {:induction false} ChecksLastSeen(c: Check, counts: seq<uint32>, own: seq<Tick>, t: nat)
    requires t < |counts| == |own| && !c.initialized
    ensures var now := Forget(CheckAt(c, counts, own, t), own[t].forgets);
            && (now.initialized <==> exists u: nat :: LastSeen(counts, own, u, t))
            && forall u: nat | LastSeen(counts, own, u, t) :: now.last == counts[u]
    decreases t
  {
    if t > 0 && !own[t].forgets {
      ChecksLastSeen(c, counts, own, t - 1);
      if Sees(counts, own, t - 1) {
        assert LastSeen(counts, own, t - 1, t);
        forall u: nat | LastSeen(counts, own, u, t)
          ensures u == t - 1
        {
        }
      } else {
        forall u: nat | LastSeen(counts, own, u, t)
          ensures LastSeen(counts, own, u, t - 1)
        {
          assert u < t - 1;
          assert !own[t - 1].forgets;
        }
        forall u: nat | LastSeen(counts, own, u, t - 1)
          ensures LastSeen(counts, own, u, t)
        {
        }
        assert CheckAt(c, counts, own, t) == Forget(CheckAt(c, counts, own, t - 1), own[t - 1].forgets);
        var before := t - 1;
        if exists u: nat :: LastSeen(counts, own, u, before) {
          var u: nat :| LastSeen(counts, own, u, before);
          assert LastSeen(counts, own, u, t);
        }
      }
    }
  }

  /** A warning compares the count with the one last seen, and is given only if there is such a one and the interface
      is active. The robot is answered in any case. */
  lemma WarnsOnDeviation(c: Check, counts: seq<uint32>, own: seq<Tick>, t: nat)
    requires t < |counts| == |own| && !c.initialized
    ensures WarnsAt(c, counts, own, t) <==>
              && own[t].active && Sees(counts, own, t)
              && exists u: nat :: LastSeen(counts, own, u, t) && counts[t] != Expected(counts[u])
    ensures SendsAt(c, counts, own, t) <==> own[t].writes
  {
    ChecksLastSeen(c, counts, own, t);
  }

  /** The counts an event broadcaster gives out go on by one or start again at zero. */
  predicate GivenOut(counts: seq<uint32>) {
    forall t | 0 <= t < |counts| - 1 :: counts[t + 1] == Inc32(counts[t]) || counts[t + 1] == 0
  }

  /** The interface writes at least while the robots are counted; while the count is zero - before the first request
      after an activation, say - it may or may not. */
  predicate WritesCounts(counts: seq<uint32>, own: seq<Tick>)
    requires |counts| == |own|
  {
    forall j | 0 <= j < |own| && counts[j] > 0 :: own[j].writes
  }

  /** In a lock-step run a warning appears exactly at a first count: the count is one and an earlier count has not been
      forgotten. The count before it was then zero. */
  lemma LockStep(c: Check, counts: seq<uint32>, own: seq<Tick>, t: nat)
    requires t < |counts| == |own| && !c.initialized && GivenOut(counts) && WritesCounts(counts, own)
    ensures WarnsAt(c, counts, own, t) <==>
              own[t].active && counts[t] == 1 && exists u: nat :: LastSeen(counts, own, u, t)
    ensures WarnsAt(c, counts, own, t) ==> t > 0 && counts[t - 1] == 0
  {
    WarnsOnDeviation(c, counts, own, t);
    forall u: nat | LastSeen(counts, own, u, t)
      ensures Sees(counts, own, t) && counts[t] != Expected(counts[u]) <==> counts[t] == 1
      ensures counts[t] == 1 ==> counts[t - 1] == 0
    {
      assert counts[t - 1 + 1] == Inc32(counts[t - 1]) || counts[t - 1 + 1] == 0;
      if u < t - 1 {
        assert !Sees(counts, own, t - 1);
      } else {
        assert u == t - 1;
      }
    }
  }

  /** An interface that forgets, by an activation or a deactivation, between the last count before a restart and the
      first count after it gives no warning at all. */
  lemma ForgettingPreventsWarnings(c: Check, counts: seq<uint32>, own: seq<Tick>, t: nat)
    requires t < |counts| == |own| && !c.initialized && GivenOut(counts) && WritesCounts(counts, own)
    requires counts[t] == 1 ==>
               exists r | 0 <= r <= t :: own[r].forgets && forall j | r <= j < t :: counts[j] == 0
    ensures !WarnsAt(c, counts, own, t)
  {
    LockStep(c, counts, own, t);
    if counts[t] == 1 {
      var r :| 0 <= r <= t && own[r].forgets && forall j | r <= j < t :: counts[j] == 0;
      assert forall u | r <= u < t :: !Sees(counts, own, u);
    }
  }

  /** The plain RSI interface never forgets: it warns at every restart, that is at every count of one that any count
      came before. */
  lemma PlainInterfaceWarnsAtRestarts(c: Check, counts: seq<uint32>, own: seq<Tick>, t: nat)
    requires t < |counts| == |own| && !c.initialized && GivenOut(counts) && WritesCounts(counts, own)
    requires forall j | 0 <= j < |own| :: !own[j].forgets
    ensures WarnsAt(c, counts, own, t) <==> own[t].active && counts[t] == 1 && exists u | 0 <= u < t :: counts[u] > 0
  {
    LockStep(c, counts, own, t);
    if u :| 0 <= u < t && counts[u] > 0 {
      SeenIsRemembered(counts, own, u, t);
    }
  }

  /** Without forgetting, some last count is remembered once one was seen. */
  lemma {:induction false} SeenIsRemembered(counts: seq<uint32>, own: seq<Tick>, u: nat, t: nat)
    requires u < t < |counts| == |own| && Sees(counts, own, u)
    requires forall j | 0 <= j < |own| :: !own[j].forgets
    ensures exists v: nat :: LastSeen(counts, own, v, t)
    decreases t - u
  {
    if v :| u < v < t && Sees(counts, own, v) {
      SeenIsRemembered(counts, own, v, t);
    } else {
      assert LastSeen(counts, own, u, t);
    }
  }

  /** From `u` to `t` the count was never reset. */
  predicate Unbroken(counts: seq<uint32>, u: nat, t: nat)
    requires u <= t < |counts|
  {
    forall j | u <= j < t :: counts[j + 1] == Inc32(counts[j])
  }

  lemma {:induction false} UnbrokenCounts(counts: seq<uint32>, u: nat, t: nat)
    requires u <= t < |counts| && Unbroken(counts, u, t)
    ensures counts[t] == Wrapped(counts[u] + (t - u))
    decreases t
  {
    if t > u {
      UnbrokenCounts(counts, u, t - 1);
      assert counts[t - 1 + 1] == Inc32(counts[t - 1]);
      WrappedNext(counts[u] + (t - 1 - u));
    }
  }

  /** Adding `k` to a word gives its successor exactly when `k` is one modulo 2^32. */
  lemma SuccessorIsOneStep(x: uint32, k: nat)
    ensures Wrapped(x + k) == Expected(x) <==> Wrapped(k) == 1
  {
    var q, r := k / TWO_TO_THE_32, k % TWO_TO_THE_32;
    assert x + k == (x + r) + q * TWO_TO_THE_32;
    if x + r < TWO_TO_THE_32 {
      Remainder(x + k, q, x + r);
    } else {
      assert x + k == (x + r - TWO_TO_THE_32) + (q + 1) * TWO_TO_THE_32;
      Remainder(x + k, q + 1, x + r - TWO_TO_THE_32);
    }
  }

  lemma Remainder(n: nat, q: nat, r: uint32)
    requires n == r + q * TWO_TO_THE_32
    ensures Wrapped(n) == r
  {
  }

  /** In a stretch without a reset a mismatch appears at a write with a count exactly when the number of
      ticks since the count last seen is not one, modulo 2^32. */
  lemma MissedTicksAreReported(c: Check, counts: seq<uint32>, own: seq<Tick>, u: nat, t: nat)
    requires t < |counts| == |own| && !c.initialized
    requires LastSeen(counts, own, u, t) && Sees(counts, own, t) && Unbroken(counts, u, t)
    ensures WarnsAt(c, counts, own, t) <==> own[t].active && Wrapped(t - u) != 1
  {
    ChecksLastSeen(c, counts, own, t);
    UnbrokenCounts(counts, u, t);
    SuccessorIsOneStep(counts[u], t - u);
  }

  /** Without a wrap in that stretch: exactly when the interface missed at least one tick. */
  lemma GapsAreReported(c: Check, counts: seq<uint32>, own: seq<Tick>, u: nat, t: nat)
    requires t < |counts| == |own| && !c.initialized
    requires LastSeen(counts, own, u, t) && Sees(counts, own, t) && Unbroken(counts, u, t)
    requires counts[u] + (t - u) <= MAX_UINT32
    ensures WarnsAt(c, counts, own, t) <==> own[t].active && exists j | u < j < t :: !own[j].writes
  {
    MissedTicksAreReported(c, counts, own, u, t);
    if u + 1 < t {
      UnbrokenCounts(counts[..u + 2], u, u + 1);
      assert !Sees(counts, own, u + 1);
      assert counts[u + 1] > 0;
    }
  }

  // ----- composed with the broadcaster -----

  /** The counts handed out at every tick since activation. */
  function Counts(b: InterpolationCount.Broadcaster, ticks: seq<InterpolationCount.Readings>): (r: seq<uint32>)
    requires b.For(|b.lastEvents|) && InterpolationCount.History(ticks, |b.lastEvents|)
    ensures |r| == |ticks|
  {
    seq(|ticks|, t requires 0 <= t < |ticks| =>
      assert forall x | x in ticks[..t + 1] :: x in ticks;
      InterpolationCount.After(InterpolationCount.Activate(b), ticks[..t + 1]).count)
  }

  lemma CountsAreStreaks(b: InterpolationCount.Broadcaster, ticks: seq<InterpolationCount.Readings>, t: nat)
    requires b.For(|b.lastEvents|) && InterpolationCount.History(ticks, |b.lastEvents|) && |b.lastEvents| >= 1
    requires t < |ticks|
    ensures Counts(b, ticks)[t] == Wrapped(InterpolationCount.Streak(b.lastEvents, ticks, t + 1))
  {
    InterpolationCount.PrefixHistory(ticks, t + 1, |b.lastEvents|);
    var activated := InterpolationCount.Activate(b);
    assert Counts(b, ticks)[t] == InterpolationCount.After(activated, ticks[..t + 1]).count;
    InterpolationCount.PrefixCount(activated, ticks, t + 1);
  }

  lemma NextCount(b: InterpolationCount.Broadcaster, ticks: seq<InterpolationCount.Readings>, t: nat)
    requires b.For(|b.lastEvents|) && InterpolationCount.History(ticks, |b.lastEvents|) && |b.lastEvents| >= 1
    requires t + 1 < |ticks|
    ensures Counts(b, ticks)[t + 1] ==
            if InterpolationCount.AllStartedAt(b.lastEvents, ticks, t + 1) then Inc32(Counts(b, ticks)[t]) else 0
  {
    CountsAreStreaks(b, ticks, t);
    CountsAreStreaks(b, ticks, t + 1);
    NextWrapped(b.lastEvents, ticks, t);
  }

  lemma NextWrapped(last: seq<uint8>, ticks: seq<InterpolationCount.Readings>, t: nat)
    requires InterpolationCount.History(ticks, |last|) && t + 1 < |ticks|
    ensures Wrapped(InterpolationCount.Streak(last, ticks, t + 2)) ==
            if InterpolationCount.AllStartedAt(last, ticks, t + 1)
            then Inc32(Wrapped(InterpolationCount.Streak(last, ticks, t + 1))) else 0
  {
    WrappedNext(InterpolationCount.Streak(last, ticks, t + 1));
  }

  lemma CountsAreGivenOut(b: InterpolationCount.Broadcaster, ticks: seq<InterpolationCount.Readings>)
    requires b.For(|b.lastEvents|) && InterpolationCount.History(ticks, |b.lastEvents|) && |b.lastEvents| >= 1
    ensures GivenOut(Counts(b, ticks))
  {
    forall t | 0 <= t < |ticks| - 1
      ensures Counts(b, ticks)[t + 1] == Inc32(Counts(b, ticks)[t]) || Counts(b, ticks)[t + 1] == 0
    {
      NextCount(b, ticks, t);
    }
  }

  /** End to end, for one robot or more: an interface in lock-step warns exactly when the ticks in which all robots are
      started number one (modulo 2^32) and it remembers an earlier count. */
  lemma LockStepWithBroadcaster(c: Check, b: InterpolationCount.Broadcaster,
                                ticks: seq<InterpolationCount.Readings>, own: seq<Tick>, t: nat)
    requires b.For(|b.lastEvents|) && InterpolationCount.History(ticks, |b.lastEvents|) && |b.lastEvents| >= 1
    requires t < |ticks| == |own| && !c.initialized && WritesCounts(Counts(b, ticks), own)
    ensures WarnsAt(c, Counts(b, ticks), own, t) <==>
              && own[t].active
              && Wrapped(InterpolationCount.Streak(b.lastEvents, ticks, t + 1)) == 1
              && exists u: nat :: LastSeen(Counts(b, ticks), own, u, t)
  {
    CountsAreGivenOut(b, ticks);
    CountsAreStreaks(b, ticks, t);
    LockStep(c, Counts(b, ticks), own, t);
  }

  /** While all robots stay started from tick `u` on, the count runs unbroken, so missed ticks are reported. */
  lemma StartedMeansUnbroken(b: InterpolationCount.Broadcaster, ticks: seq<InterpolationCount.Readings>,
                             u: nat, t: nat)
    requires b.For(|b.lastEvents|) && InterpolationCount.History(ticks, |b.lastEvents|) && |b.lastEvents| >= 1
    requires u <= t < |ticks|
    requires forall j | u < j <= t :: InterpolationCount.AllStartedAt(b.lastEvents, ticks, j)
    ensures Unbroken(Counts(b, ticks), u, t)
  {
    forall j | u <= j < t
      ensures Counts(b, ticks)[j + 1] == Inc32(Counts(b, ticks)[j])
    {
      assert InterpolationCount.AllStartedAt(b.lastEvents, ticks, j + 1);
      NextCount(b, ticks, j);
    }
  }

  /** While all robots stay started after a tick that was written, and the count does not wrap, a write warns exactly if
      the interface has missed a tick since. */
  lemma GapsWithBroadcaster(c: Check, b: InterpolationCount.Broadcaster, ticks: seq<InterpolationCount.Readings>,
                            own: seq<Tick>, u: nat, t: nat)
    requires b.For(|b.lastEvents|) && InterpolationCount.History(ticks, |b.lastEvents|) && |b.lastEvents| >= 1
    requires t < |ticks| == |own| && !c.initialized
    requires LastSeen(Counts(b, ticks), own, u, t) && own[t].writes
    requires forall j | u < j <= t :: InterpolationCount.AllStartedAt(b.lastEvents, ticks, j)
    requires Counts(b, ticks)[u] + (t - u) <= MAX_UINT32
    ensures WarnsAt(c, Counts(b, ticks), own, t) <==> own[t].active && exists j | u < j < t :: !own[j].writes
  {
    var counts := Counts(b, ticks);
    StartedMeansUnbroken(b, ticks, u, t);
    UnbrokenCounts(counts, u, t);
    GapsAreReported(c, counts, own, u, t);
  }

  /** The counts of a history are what a command interface holds that was zero at the activation and accepts every
      value, so they are what its hardware interface reads. */
  lemma InterfacesReadCounts(b: InterpolationCount.Broadcaster, held: seq<uint32>,
                             ticks: seq<InterpolationCount.Readings>, accepts: seq<seq<bool>>, i: nat, t: nat)
    requires b.For(|b.lastEvents|) && InterpolationCount.History(ticks, |b.lastEvents|) && |b.lastEvents| >= 1
    requires InterpolationCount.Accepts(accepts, ticks, |held|) && t < |ticks|
    requires i < |held| && held[i] == 0 && forall a | a in accepts :: a[i]
    ensures InterpolationCount.History(ticks[..t + 1], |b.lastEvents|)
    ensures InterpolationCount.Accepts(accepts[..t + 1], ticks[..t + 1], |held|)
    ensures InterpolationCount.Held(InterpolationCount.Activate(b), held, ticks[..t + 1], accepts[..t + 1])[i]
         == Counts(b, ticks)[t]
  {
    InterpolationCount.PrefixHistory(ticks, t + 1, |b.lastEvents|);
    InterpolationCount.PrefixAccepts(accepts, ticks, t + 1, |held|);
    InterpolationCount.InterfacesHoldLastGiven(InterpolationCount.Activate(b), held, ticks, accepts, i, t + 1);
    InterpolationCount.InterfacesHoldTheStreak(b.lastEvents, held[i], ticks, accepts, i, t + 1);
    CountsAreStreaks(b, ticks, t);
  }

  // ----- asynchronous hardware over whole runs -----

  /** One tick of hardware that may read late: it then finds the count of the tick before, and a wait ends on the count
      of the tick. */
  function AsyncAt(c: Check, counts: seq<uint32>, own: seq<Tick>, late: seq<bool>, t: nat): Outcome
    requires t < |counts| == |own| == |late|
  {
    var read := if late[t] && t > 0 then counts[t - 1] else counts[t];
    Write(Forget(c, own[t].forgets), own[t].writes, own[t].active, read, counts[t])
  }

  function AsyncCheckAt(c: Check, counts: seq<uint32>, own: seq<Tick>, late: seq<bool>, n: nat): Check
    requires n <= |counts| == |own| == |late|
  {
    if n == 0 then c else AsyncAt(AsyncCheckAt(c, counts, own, late, n - 1), counts, own, late, n - 1).check
  }

  /** The read of tick `t` can be waited for: the tick before was written with a count that is still remembered, and the
      count has gone on by one since. */
  predicate Curable(counts: seq<uint32>, own: seq<Tick>, t: nat)
    requires t < |counts| == |own|
  {
    t > 0 && LastSeen(counts, own, t - 1, t) && counts[t] == Inc32(counts[t - 1])
  }

  /** A history whose late reads can all be waited for leaves the same check, and gives the same warnings and sends, as
      one in which every count is read at once. */
  lemma {:induction false} AsyncRunIsSyncRun(c: Check, counts: seq<uint32>, own: seq<Tick>, late: seq<bool>, t: nat)
    requires t < |counts| == |own| == |late| && !c.initialized
    requires forall j: nat | j <= t && late[j] && own[j].writes :: Curable(counts, own, j)
    ensures AsyncCheckAt(c, counts, own, late, t) == CheckAt(c, counts, own, t)
    ensures AsyncAt(AsyncCheckAt(c, counts, own, late, t), counts, own, late, t)
         == At(CheckAt(c, counts, own, t), counts[t], own[t])
    decreases t
  {
    if t > 0 {
      AsyncRunIsSyncRun(c, counts, own, late, t - 1);
    }
    if late[t] && own[t].writes {
      ChecksLastSeen(c, counts, own, t);
      assert Curable(counts, own, t) && LastSeen(counts, own, t - 1, t);
      LateReadIsCured(Forget(CheckAt(c, counts, own, t), own[t].forgets), own[t].active, counts[t]);
    }
  }

  // ----- the hardware interface -----

  class CountedInterface {
    var received: bool
    var active: bool
    var isAsync: bool
    var initialized: bool
    var last: uint32

    ghost function View(): Check
      reads this
    {
      Check(initialized, last)
    }

    constructor (async: bool)
      ensures View() == Check(false, 0) && !received && !active && isAsync == async
    {
      received, active, isAsync, initialized, last := false, false, async, false, 0;
    }

    /** `command` is the count in the command interface, `polled` what later looks at it find. */
    method WriteCounted(command: uint32, polled: nat -> uint32, clock: nat -> int)
      returns (warned: bool, sent: bool, ghost waited: uint32)
      requires Sleeps(clock)
      modifies this`initialized, this`last
      ensures Outcome(View(), warned, sent) == Write(old(View()), received, active, command, waited)
      ensures sent <==> received
      ensures warned ==> received && active
      ensures waited == command || exists k: nat :: k < 5 && waited == polled(k)
      ensures !isAsync || command != old(last) ==> waited == command
      ensures isAsync && received && old(initialized) && command == old(last) > 0 && polled(0) != command
              ==> waited == polled(0) || clock(1) >= clock(0) + RETRY_NS
    {
      waited := command;
      if !received {
        return false, false, waited;
      }
      warned := false;
      var count := command;
      if count > 0 && initialized {
        var expected := if last == MAX_UINT32 then 0 else last + 1;
        if count != expected {
          var polls;
          count, polls := WaitForInterpolationCount(expected, count, isAsync, polled, clock);
          waited := count;
          if count != expected && active {
            warned := true;
          }
        }
      }
      if count > 0 {
        initialized := true;
        last := count;
      }
      sent := true;
    }

    /** The end of a successful activation of the interfaces that control the robot remotely. */
    method ExtendedActivation()
      modifies this`received, this`active, this`initialized
      ensures View() == Forget(old(View()), true) && active && !received
    {
      received, active := false, true;
      initialized := false;
    }

    method ExtendedDeactivation()
      modifies this`received, this`active, this`initialized
      ensures View() == Forget(old(View()), true) && !active && !received
    {
      received, active := false, false;
      initialized := false;
    }

    /** The plain RSI interface leaves the count state alone. */
    method RsiOnlyActivation()
      modifies this`received, this`active
      ensures View() == Forget(old(View()), false) && active && !received
    {
      received, active := false, true;
    }

    method RsiOnlyDeactivation()
      modifies this`received, this`active
      ensures View() == Forget(old(View()), false) && !active && !received
    {
      received, active := false, false;
    }
  }
}
