/** The monitor of the sensor interface: packets are paired by their IPOC number, and delays are measured. */
module IpocMatcher {
  import opened Words

  /** A packet that carries an IPOC: received on the RSI port, or sent back. */
  datatype Packet = Packet(received: bool, ipoc: int, at: int, size: nat)

  /** What is recorded per stream. */
  datatype Stats = Stats(count: nat, bytes: nat, first: Option<int>, last: Option<int>, gaps: seq<int>)

  /** The pending packets by IPOC; `sentAt` and `receivedAt` are the two buffers from sending to the next
      receiving. */
  datatype Monitor = Monitor(
    pendingReceiver: map<int, Packet>,
    pendingSender: map<int, Packet>,
    sentAt: map<int, int>,
    receivedAt: map<int, int>,
    receiver: Stats,
    sender: Stats,
    matched: nat,
    responses: seq<int>,
    turnarounds: seq<int>)

  const NO_PACKETS := Stats(0, 0, None, None, [])

  const STARTED := Monitor(map[], map[], map[], map[], NO_PACKETS, NO_PACKETS, 0, [], [])

  function Recorded(s: Stats, p: Packet): Stats {
    Stats(s.count + 1, s.bytes + p.size,
          if s.first.None? then Some(p.at) else s.first,
          Some(p.at),
          if s.last.Some? then s.gaps + [p.at - s.last.value] else s.gaps)
  }

  function Below(times: map<int, int>, ipoc: int): set<int> {
    set k | k in times.Keys && k < ipoc
  }

  function Above(times: map<int, int>, ipoc: int): set<int> {
    set k | k in times.Keys && k > ipoc
  }

  predicate IsLargest(k: int, s: set<int>) {
    k in s && forall j | j in s :: j <= k
  }

  predicate IsSmallest(k: int, s: set<int>) {
    k in s && forall j | j in s :: j >= k
  }

  lemma HasMember(s: set<int>)
    ensures s == {} || exists k :: k in s
  {
    if !exists k :: k in s {
      assert s == {};
    }
  }

  lemma {:induction false} LargestExists(s: set<int>)
    requires s != {}
    ensures exists k :: IsLargest(k, s)
    decreases |s|
  {
    HasMember(s);
    var k :| k in s;
    var rest := s - {k};
    assert forall j | j in s :: j == k || j in rest;
    if rest == {} {
      assert IsLargest(k, s);
    } else {
      LargestExists(rest);
      var m :| IsLargest(m, rest);
      assert IsLargest(if m < k then k else m, s);
    }
  }

  lemma {:induction false} SmallestExists(s: set<int>)
    requires s != {}
    ensures exists k :: IsSmallest(k, s)
    decreases |s|
  {
    HasMember(s);
    var k :| k in s;
    var rest := s - {k};
    assert forall j | j in s :: j == k || j in rest;
    if rest == {} {
      assert IsSmallest(k, s);
    } else {
      SmallestExists(rest);
      var m :| IsSmallest(m, rest);
      assert IsSmallest(if m > k then k else m, s);
    }
  }

  ghost function Largest(s: set<int>): (k: int)
    requires s != {}
    ensures IsLargest(k, s)
  {
    LargestExists(s);
    var k :| IsLargest(k, s);
    k
  }

  ghost function Smallest(s: set<int>): (k: int)
    requires s != {}
    ensures IsSmallest(k, s)
  {
    SmallestExists(s);
    var k :| IsSmallest(k, s);
    k
  }

  /** A received packet closes the newest packet sent with a lower number, and makes all of those stale. */
  ghost function MeasureReceived(m: Monitor, p: Packet): Monitor {
    var lower := Below(m.sentAt, p.ipoc);
    if lower == {} then m.(receivedAt := m.receivedAt[p.ipoc := p.at])
    else m.(turnarounds := m.turnarounds + [p.at - m.sentAt[Largest(lower)]], sentAt := m.sentAt - lower)
  }

  /** A sent packet that lags behind closes the oldest packet received with a higher number. */
  ghost function MeasureSent(m: Monitor, p: Packet): Monitor {
    var higher := Above(m.receivedAt, p.ipoc);
    if higher == {} then m.(sentAt := m.sentAt[p.ipoc := p.at])
    else m.(turnarounds := m.turnarounds + [m.receivedAt[Smallest(higher)] - p.at], receivedAt := m.receivedAt - higher)
  }

  /** The first received packet of a number waits for a sent one; a sent one without it is not kept. */
  function Keep(m: Monitor, p: Packet): Monitor {
    if p.received then
      if p.ipoc in m.pendingReceiver then m else m.(pendingReceiver := m.pendingReceiver[p.ipoc := p])
    else
      if p.ipoc in m.pendingReceiver && p.ipoc !in m.pendingSender
      then m.(pendingSender := m.pendingSender[p.ipoc := p])
      else m
  }

  function TryMatch(m: Monitor, ipoc: int): Monitor {
    if ipoc !in m.pendingReceiver || ipoc !in m.pendingSender then m
    else
      var request, answer := m.pendingReceiver[ipoc], m.pendingSender[ipoc];
      var latency := answer.at - request.at;
      m.(receiver := Recorded(m.receiver, request), sender := Recorded(m.sender, answer),
         responses := if latency >= 0 then m.responses + [latency] else m.responses,
         matched := m.matched + 1,
         pendingReceiver := m.pendingReceiver - {ipoc}, pendingSender := m.pendingSender - {ipoc})
  }

  ghost function Handle(m: Monitor, p: Packet): Monitor {
    TryMatch(Keep(if p.received then MeasureReceived(m, p) else MeasureSent(m, p), p), p.ipoc)
  }

  ghost function After(packets: seq<Packet>): Monitor {
    if packets == [] then STARTED
    else Handle(After(packets[..|packets| - 1]), packets[|packets| - 1])
  }

  // ----- invariants over every packet sequence -----

  function Sum(gaps: seq<int>): int {
    if gaps == [] then 0 else Sum(gaps[..|gaps| - 1]) + gaps[|gaps| - 1]
  }

  /** The gaps of a stream add up to the time from its first to its last packet. */
  predicate Adds(s: Stats) {
    if s.count == 0 then s.first.None? && s.last.None? && s.gaps == []
    else
      s.first.Some? && s.last.Some? && |s.gaps| == s.count - 1
      && Sum(s.gaps) == s.last.value - s.first.value
  }

  predicate Ordered(m: Monitor) {
    forall s, r | s in m.sentAt && r in m.receivedAt :: s >= r
  }

  ghost predicate Sound(m: Monitor) {
    && Ordered(m)
    && m.pendingSender == map[]
    && m.receiver.count == m.matched == m.sender.count
    && Adds(m.receiver) && Adds(m.sender)
    && |m.responses| <= m.matched && forall r | r in m.responses :: r >= 0
  }

  lemma RecordedAdds(s: Stats, p: Packet)
    requires Adds(s)
    ensures Adds(Recorded(s, p))
  {
    if s.last.Some? {
      assert (s.gaps + [p.at - s.last.value])[..|s.gaps|] == s.gaps;
    }
  }

  lemma MeasuringKeepsOrder(m: Monitor, p: Packet)
    requires Ordered(m)
    ensures Ordered(if p.received then MeasureReceived(m, p) else MeasureSent(m, p))
  {
    if p.received {
      assert forall s | s in m.sentAt && s < p.ipoc :: s in Below(m.sentAt, p.ipoc);
    } else {
      assert forall r | r in m.receivedAt && r > p.ipoc :: r in Above(m.receivedAt, p.ipoc);
    }
  }

  /** No sent packet waits, so a packet completes a pair exactly when it answers one that waits. */
  lemma HandlePending(m: Monitor, p: Packet)
    requires m.pendingSender == map[]
    ensures var r := Handle(m, p);
            var pair := !p.received && p.ipoc in m.pendingReceiver;
            && r.pendingSender == map[]
            && r.pendingReceiver == (if !p.received then m.pendingReceiver - {p.ipoc}
                                     else if p.ipoc in m.pendingReceiver then m.pendingReceiver
                                     else m.pendingReceiver[p.ipoc := p])
            && r.matched == (if pair then m.matched + 1 else m.matched)
            && r.receiver == (if pair then Recorded(m.receiver, m.pendingReceiver[p.ipoc]) else m.receiver)
            && r.sender == (if pair then Recorded(m.sender, p) else m.sender)
            && r.responses == (if pair && p.at >= m.pendingReceiver[p.ipoc].at
                               then m.responses + [p.at - m.pendingReceiver[p.ipoc].at] else m.responses)
  {
    var measured := if p.received then MeasureReceived(m, p) else MeasureSent(m, p);
    assert measured == m.(sentAt := measured.sentAt, receivedAt := measured.receivedAt,
                          turnarounds := measured.turnarounds);
    if !p.received && p.ipoc !in m.pendingReceiver {
      assert m.pendingReceiver - {p.ipoc} == m.pendingReceiver;
    }
    assert map[p.ipoc := p] - {p.ipoc} == map[];
  }

  lemma HandleKeepsOrder(m: Monitor, p: Packet)
    requires Ordered(m)
    ensures Ordered(Handle(m, p))
  {
    MeasuringKeepsOrder(m, p);
    var measured := if p.received then MeasureReceived(m, p) else MeasureSent(m, p);
    assert Keep(measured, p).sentAt == measured.sentAt && Keep(measured, p).receivedAt == measured.receivedAt;
  }

  lemma HandleKeepsSound(m: Monitor, p: Packet)
    requires Sound(m)
    ensures Sound(Handle(m, p))
  {
    HandlePending(m, p);
    HandleKeepsOrder(m, p);
    if !p.received && p.ipoc in m.pendingReceiver {
      RecordedAdds(m.receiver, m.pendingReceiver[p.ipoc]);
      RecordedAdds(m.sender, p);
    }
  }

  /** After every packet: each pending sent number is at least each pending received one, no sent packet waits
      to be matched, both streams count the matched pairs, and the gaps add up. */
  lemma {:induction false} AlwaysSound(packets: seq<Packet>)
    ensures Sound(After(packets))
    decreases |packets|
  {
    if packets != [] {
      AlwaysSound(packets[..|packets| - 1]);
      HandleKeepsSound(After(packets[..|packets| - 1]), packets[|packets| - 1]);
    }
  }

  // ----- closed form of the matching -----

  /** The last packet with this number is packet `i`. */
  predicate IsLast(packets: seq<Packet>, ipoc: int, i: nat) {
    i < |packets| && packets[i].ipoc == ipoc && forall j | i < j < |packets| :: packets[j].ipoc != ipoc
  }

  predicate LastIsReceived(packets: seq<Packet>, ipoc: int) {
    exists i: nat | i < |packets| :: IsLast(packets, ipoc, i) && packets[i].received
  }

  /** Packet `i` begins the present run of received packets with this number. */
  predicate Begins(packets: seq<Packet>, ipoc: int, i: nat) {
    && i < |packets| && packets[i].ipoc == ipoc && !LastIsReceived(packets[..i], ipoc)
    && forall j | i <= j < |packets| && packets[j].ipoc == ipoc :: packets[j].received
  }

  /** The sent packets that answer: the packet with the same number just before was a received one. */
  function Answers(packets: seq<Packet>): nat {
    if packets == [] then 0
    else
      var n := |packets| - 1;
      var p := packets[n];
      Answers(packets[..n]) + if !p.received && LastIsReceived(packets[..n], p.ipoc) then 1 else 0
  }

  lemma LastStep(packets: seq<Packet>, ipoc: int)
    requires packets != []
    ensures var n := |packets| - 1;
            LastIsReceived(packets, ipoc)
            <==> if packets[n].ipoc == ipoc then packets[n].received else LastIsReceived(packets[..n], ipoc)
  {
    var n := |packets| - 1;
    var front := packets[..n];
    if packets[n].ipoc == ipoc {
      assert IsLast(packets, ipoc, n);
    } else {
      assert forall i: nat | i < n :: IsLast(packets, ipoc, i) <==> IsLast(front, ipoc, i);
    }
  }

  /** A number waits for an answer exactly when its last packet was a received one, and the pairs are the
      answering packets. */
  lemma {:induction false} MatchingInClosedForm(packets: seq<Packet>)
    ensures var m := After(packets);
            && m.matched == Answers(packets)
            && forall ipoc :: ipoc in m.pendingReceiver <==> LastIsReceived(packets, ipoc)
    decreases |packets|
  {
    if packets != [] {
      var n := |packets| - 1;
      var front, p := packets[..n], packets[n];
      MatchingInClosedForm(front);
      AlwaysSound(front);
      HandlePending(After(front), p);
      forall ipoc
        ensures ipoc in After(packets).pendingReceiver <==> LastIsReceived(packets, ipoc)
      {
        LastStep(packets, ipoc);
      }
    }
  }

  /** The packet that waits is the one that began the present run of received packets. */
  lemma {:induction false} OldestIsKept(packets: seq<Packet>, ipoc: int, i: nat)
    requires Begins(packets, ipoc, i)
    ensures Waits(packets, ipoc, packets[i])
    decreases |packets|
  {
    var n := |packets| - 1;
    if i < n {
      BeginsBefore(packets, ipoc, i);
      OldestIsKept(packets[..n], ipoc, i);
      assert packets[n].ipoc == ipoc ==> packets[n].received;
      StillWaits(packets, ipoc, packets[i]);
    } else {
      BeginsToWait(packets);
    }
  }

  ghost predicate Waits(packets: seq<Packet>, ipoc: int, p: Packet) {
    var pending := After(packets).pendingReceiver;
    ipoc in pending && pending[ipoc] == p
  }

  lemma BeginsToWait(packets: seq<Packet>)
    requires packets != [] && Begins(packets, packets[|packets| - 1].ipoc, |packets| - 1)
    ensures Waits(packets, packets[|packets| - 1].ipoc, packets[|packets| - 1])
  {
    var front := packets[..|packets| - 1];
    AlwaysSound(front);
    MatchingInClosedForm(front);
    HandlePending(After(front), packets[|packets| - 1]);
  }

  lemma StillWaits(packets: seq<Packet>, ipoc: int, p: Packet)
    requires packets != [] && Waits(packets[..|packets| - 1], ipoc, p)
    requires packets[|packets| - 1].ipoc == ipoc ==> packets[|packets| - 1].received
    ensures Waits(packets, ipoc, p)
  {
    var front := packets[..|packets| - 1];
    AlwaysSound(front);
    HandlePending(After(front), packets[|packets| - 1]);
  }

  /** A run that goes on began where it began. */
  lemma BeginsBefore(packets: seq<Packet>, ipoc: int, i: nat)
    requires Begins(packets, ipoc, i) && i < |packets| - 1
    ensures var front := packets[..|packets| - 1];
            Begins(front, ipoc, i) && LastIsReceived(front, ipoc)
  {
    var front := packets[..|packets| - 1];
    assert front[..i] == packets[..i];
    RunIsReceived(front, ipoc, i);
  }

  lemma {:induction false} RunIsReceived(packets: seq<Packet>, ipoc: int, i: nat)
    requires i < |packets| && packets[i].ipoc == ipoc
    requires forall j | i <= j < |packets| && packets[j].ipoc == ipoc :: packets[j].received
    ensures LastIsReceived(packets, ipoc)
    decreases |packets|
  {
    var n := |packets| - 1;
    LastStep(packets, ipoc);
    if i < n {
      RunIsReceived(packets[..n], ipoc, i);
    }
  }

  /** While the clock does not go back, every pair gives a response time. */
  lemma {:induction false} EveryPairIsTimed(packets: seq<Packet>)
    requires forall i, j | 0 <= i <= j < |packets| :: packets[i].at <= packets[j].at
    ensures var m := After(packets);
            && |m.responses| == m.matched
            && forall ipoc | ipoc in m.pendingReceiver ::
                 packets != [] && m.pendingReceiver[ipoc].at <= packets[|packets| - 1].at
    decreases |packets|
  {
    if packets != [] {
      var n := |packets| - 1;
      EveryPairIsTimed(packets[..n]);
      AlwaysSound(packets[..n]);
      HandlePending(After(packets[..n]), packets[n]);
    }
  }

  // ----- what the matched pairs add up to -----

  /** The packet that began the run of received packets with this number. */
  function RunStart(packets: seq<Packet>, ipoc: int): (p: Packet)
    requires LastIsReceived(packets, ipoc)
    ensures p.received && p.ipoc == ipoc
  {
    var n := |packets| - 1;
    LastStep(packets, ipoc);
    if packets[n].ipoc == ipoc && !LastIsReceived(packets[..n], ipoc) then packets[n]
    else RunStart(packets[..n], ipoc)
  }

  /** The pairs of a request and the packet that answers it, in the order of the answers. */
  function Pairs(packets: seq<Packet>): seq<(Packet, Packet)> {
    if packets == [] then []
    else
      var n := |packets| - 1;
      var p := packets[n];
      Pairs(packets[..n])
        + if !p.received && LastIsReceived(packets[..n], p.ipoc) then [(RunStart(packets[..n], p.ipoc), p)] else []
  }

  function Sizes(packets: seq<Packet>): nat {
    if packets == [] then 0 else Sizes(packets[..|packets| - 1]) + packets[|packets| - 1].size
  }

  function Requests(pairs: seq<(Packet, Packet)>): (r: seq<Packet>)
    ensures |r| == |pairs|
  {
    seq(|pairs|, i requires 0 <= i < |pairs| => pairs[i].0)
  }

  function AnswersOf(pairs: seq<(Packet, Packet)>): (r: seq<Packet>)
    ensures |r| == |pairs|
  {
    seq(|pairs|, i requires 0 <= i < |pairs| => pairs[i].1)
  }

  /** From each request to its answer, leaving out those that the clock puts before their requests. */
  function Latencies(pairs: seq<(Packet, Packet)>): seq<int> {
    if pairs == [] then []
    else
      var last := pairs[|pairs| - 1];
      Latencies(pairs[..|pairs| - 1]) + if last.1.at >= last.0.at then [last.1.at - last.0.at] else []
  }

  /** The gaps from one packet to the next. */
  function Gaps(packets: seq<Packet>): seq<int> {
    if |packets| <= 1 then []
    else Gaps(packets[..|packets| - 1]) + [packets[|packets| - 1].at - packets[|packets| - 2].at]
  }

  /** The statistics of a stream are those of its packets. */
  predicate Describes(s: Stats, packets: seq<Packet>) {
    && s.count == |packets| && s.bytes == Sizes(packets) && s.gaps == Gaps(packets)
    && s.first == (if packets == [] then None else Some(packets[0].at))
    && s.last == (if packets == [] then None else Some(packets[|packets| - 1].at))
  }

  lemma RecordedDescribes(s: Stats, packets: seq<Packet>, p: Packet)
    requires Describes(s, packets)
    ensures Describes(Recorded(s, p), packets + [p])
  {
    assert (packets + [p])[..|packets|] == packets;
  }

  ghost predicate InPairs(m: Monitor, packets: seq<Packet>) {
    && (forall ipoc :: ipoc in m.pendingReceiver <==> LastIsReceived(packets, ipoc))
    && (forall ipoc | ipoc in m.pendingReceiver :: m.pendingReceiver[ipoc] == RunStart(packets, ipoc))
    && AddsUp(m, Pairs(packets))
  }

  ghost predicate AddsUp(m: Monitor, pairs: seq<(Packet, Packet)>) {
    && m.matched == |pairs| && m.responses == Latencies(pairs)
    && Describes(m.receiver, Requests(pairs)) && Describes(m.sender, AnswersOf(pairs))
  }

  /** What taking in one packet does to pairs and streams. */
  ghost predicate TakesIn(m: Monitor, p: Packet, r: Monitor) {
    var pair := !p.received && p.ipoc in m.pendingReceiver;
    && r.pendingReceiver == (if !p.received then m.pendingReceiver - {p.ipoc}
                             else if p.ipoc in m.pendingReceiver then m.pendingReceiver
                             else m.pendingReceiver[p.ipoc := p])
    && r.matched == (if pair then m.matched + 1 else m.matched)
    && r.receiver == (if pair then Recorded(m.receiver, m.pendingReceiver[p.ipoc]) else m.receiver)
    && r.sender == (if pair then Recorded(m.sender, p) else m.sender)
    && r.responses == (if pair && p.at >= m.pendingReceiver[p.ipoc].at
                       then m.responses + [p.at - m.pendingReceiver[p.ipoc].at] else m.responses)
  }

  lemma HandleTakesIn(m: Monitor, p: Packet)
    requires m.pendingSender == map[]
    ensures TakesIn(m, p, Handle(m, p))
  {
    HandlePending(m, p);
  }

  /** Over any packets: both streams describe exactly the matched pairs, with their sizes, times and gaps, and the
      response times are those of the pairs. */
  lemma {:induction false} StatisticsInClosedForm(packets: seq<Packet>)
    ensures InPairs(After(packets), packets)
    decreases |packets|
  {
    if packets != [] {
      var n := |packets| - 1;
      StatisticsInClosedForm(packets[..n]);
      AlwaysSound(packets[..n]);
      HandleTakesIn(After(packets[..n]), packets[n]);
      PendingStep(After(packets[..n]), After(packets), packets);
      PairStep(After(packets[..n]), After(packets), packets);
    }
  }

  lemma PendingStep(m: Monitor, r: Monitor, packets: seq<Packet>)
    requires packets != [] && InPairs(m, packets[..|packets| - 1]) && TakesIn(m, packets[|packets| - 1], r)
    ensures forall ipoc :: ipoc in r.pendingReceiver <==> LastIsReceived(packets, ipoc)
    ensures forall ipoc | ipoc in r.pendingReceiver :: r.pendingReceiver[ipoc] == RunStart(packets, ipoc)
  {
    forall ipoc
      ensures ipoc in r.pendingReceiver <==> LastIsReceived(packets, ipoc)
      ensures ipoc in r.pendingReceiver ==> r.pendingReceiver[ipoc] == RunStart(packets, ipoc)
    {
      LastStep(packets, ipoc);
    }
  }

  lemma PairStep(m: Monitor, r: Monitor, packets: seq<Packet>)
    requires packets != [] && TakesIn(m, packets[|packets| - 1], r)
    requires AddsUp(m, Pairs(packets[..|packets| - 1]))
    requires var ipoc, front := packets[|packets| - 1].ipoc, packets[..|packets| - 1];
             && (ipoc in m.pendingReceiver <==> LastIsReceived(front, ipoc))
             && (ipoc in m.pendingReceiver ==> m.pendingReceiver[ipoc] == RunStart(front, ipoc))
    ensures AddsUp(r, Pairs(packets))
  {
    var p, before := packets[|packets| - 1], Pairs(packets[..|packets| - 1]);
    if !p.received && p.ipoc in m.pendingReceiver {
      PairAddsUp(m, r, before, m.pendingReceiver[p.ipoc], p);
      assert Pairs(packets) == before + [(m.pendingReceiver[p.ipoc], p)];
    } else {
      SameAddsUp(m, r, before);
      assert Pairs(packets) == before + [] == before;
    }
  }

  lemma PairAddsUp(m: Monitor, r: Monitor, before: seq<(Packet, Packet)>, request: Packet, answer: Packet)
    requires AddsUp(m, before) && r.matched == m.matched + 1
    requires r.receiver == Recorded(m.receiver, request) && r.sender == Recorded(m.sender, answer)
    requires r.responses == if answer.at >= request.at then m.responses + [answer.at - request.at] else m.responses
    ensures AddsUp(r, before + [(request, answer)])
  {
    RecordedDescribes(m.receiver, Requests(before), request);
    RecordedDescribes(m.sender, AnswersOf(before), answer);
    OneMorePair(before, request, answer);
  }

  lemma SameAddsUp(m: Monitor, r: Monitor, pairs: seq<(Packet, Packet)>)
    requires AddsUp(m, pairs) && r.matched == m.matched && r.responses == m.responses
    requires r.receiver == m.receiver && r.sender == m.sender
    ensures AddsUp(r, pairs)
  {
  }

  lemma OneMorePair(before: seq<(Packet, Packet)>, request: Packet, answer: Packet)
    ensures var pairs := before + [(request, answer)];
            && Requests(pairs) == Requests(before) + [request] && AnswersOf(pairs) == AnswersOf(before) + [answer]
            && Latencies(pairs)
               == Latencies(before) + if answer.at >= request.at then [answer.at - request.at] else []
  {
    assert (before + [(request, answer)])[..|before|] == before;
  }

  // ----- irregular traffic -----

  /** A received packet closes the newest of the answers sent before it, `k`, and none of those stays behind. */
  lemma ReceivedClosesNewest(m: Monitor, p: Packet, k: int)
    requires p.received && k in m.sentAt && k < p.ipoc
    requires forall j | j in m.sentAt && j < p.ipoc :: j <= k
    ensures var r := Handle(m, p);
            && r.turnarounds == m.turnarounds + [p.at - m.sentAt[k]] && r.receivedAt == m.receivedAt
            && r.sentAt == map j | j in m.sentAt && j >= p.ipoc :: m.sentAt[j]
  {
    var lower := Below(m.sentAt, p.ipoc);
    assert k in lower && IsLargest(k, lower) && Largest(lower) == k;
    assert m.sentAt - lower == map j | j in m.sentAt && j >= p.ipoc :: m.sentAt[j];
  }

  /** An answer that lags behind closes the oldest of the packets received with a higher number, `k`. */
  lemma SentClosesOldest(m: Monitor, p: Packet, k: int)
    requires !p.received && k in m.receivedAt && k > p.ipoc
    requires forall j | j in m.receivedAt && j > p.ipoc :: j >= k
    ensures var r := Handle(m, p);
            && r.turnarounds == m.turnarounds + [m.receivedAt[k] - p.at] && r.sentAt == m.sentAt
            && r.receivedAt == map j | j in m.receivedAt && j <= p.ipoc :: m.receivedAt[j]
  {
    var higher := Above(m.receivedAt, p.ipoc);
    assert k in higher && IsSmallest(k, higher) && Smallest(higher) == k;
    assert m.receivedAt - higher == map j | j in m.receivedAt && j <= p.ipoc :: m.receivedAt[j];
  }

  /** A packet without a counterpart in the other buffer is noted in its own. */
  lemma UnmatchedIsNoted(m: Monitor, p: Packet)
    requires if p.received then forall j | j in m.sentAt :: j >= p.ipoc else forall j | j in m.receivedAt :: j <= p.ipoc
    ensures var r := Handle(m, p);
            && r.turnarounds == m.turnarounds
            && r.receivedAt == (if p.received then m.receivedAt[p.ipoc := p.at] else m.receivedAt)
            && r.sentAt == (if p.received then m.sentAt else m.sentAt[p.ipoc := p.at])
  {
    assert p.received ==> Below(m.sentAt, p.ipoc) == {};
    assert !p.received ==> Above(m.receivedAt, p.ipoc) == {};
  }

  // ----- regular traffic -----

  /** Rounds of a received packet and its answer, with rising numbers. */
  predicate Regular(packets: seq<Packet>) {
    && |packets| % 2 == 0
    && (forall i | 0 <= i < |packets| :: packets[i].received <==> i % 2 == 0)
    && (forall i | 0 <= i < |packets| && i % 2 == 1 :: packets[i].ipoc == packets[i - 1].ipoc)
    && forall i | 0 < i < |packets| && i % 2 == 0 :: packets[i].ipoc > packets[i - 1].ipoc
  }

  /** From every answer to the next received packet. */
  function Turnarounds(packets: seq<Packet>): seq<int>
    requires |packets| % 2 == 0
  {
    if |packets| <= 2 then []
    else
      Turnarounds(packets[..|packets| - 2]) + [packets[|packets| - 2].at - packets[|packets| - 3].at]
  }

  /** What regular traffic leaves in the monitor. */
  predicate InStep(m: Monitor, packets: seq<Packet>)
    requires packets != [] && |packets| % 2 == 0
  {
    var last := packets[|packets| - 1];
    && m.matched == |packets| / 2 && m.pendingReceiver == map[] == m.pendingSender
    && m.turnarounds == Turnarounds(packets)
    && m.sentAt == map[last.ipoc := last.at]
    && m.receivedAt == map[packets[0].ipoc := packets[0].at]
    && packets[0].ipoc <= last.ipoc
  }

  lemma AfterRound(packets: seq<Packet>, request: Packet, answer: Packet)
    ensures After(packets + [request, answer]) == Handle(Handle(After(packets), request), answer)
  {
    var all := packets + [request, answer];
    assert all[..|all| - 1] == packets + [request];
    assert (packets + [request])[..|packets|] == packets;
  }

  lemma RegularRounds(packets: seq<Packet>)
    requires Regular(packets) && packets != []
    ensures var n := |packets|;
            && n >= 2 && Regular(packets[..n - 2])
            && packets == packets[..n - 2] + [packets[n - 2], packets[n - 1]]
            && packets[n - 2].received && !packets[n - 1].received && packets[n - 1].ipoc == packets[n - 2].ipoc
            && (n > 2 ==> packets[n - 2].ipoc > packets[n - 3].ipoc)
  {
  }

  /** In regular traffic every round is matched and nothing waits, and the times measured from sending to
      receiving are those from each answer to the next received packet. */
  lemma {:induction false} RegularTraffic(packets: seq<Packet>)
    requires Regular(packets) && packets != []
    ensures InStep(After(packets), packets)
    decreases |packets|
  {
    var n := |packets|;
    RegularRounds(packets);
    var front := packets[..n - 2];
    AfterRound(front, packets[n - 2], packets[n - 1]);
    if n == 2 {
      FirstRound(packets[0], packets[1]);
    } else {
      RegularTraffic(front);
      NextRound(After(front), front, packets[n - 2], packets[n - 1]);
    }
  }

  lemma FirstRound(request: Packet, answer: Packet)
    requires request.received && !answer.received && answer.ipoc == request.ipoc
    ensures InStep(Handle(Handle(STARTED, request), answer), [request, answer])
  {
    assert Below(STARTED.sentAt, request.ipoc) == {};
    AnswerStep(Handle(STARTED, request), answer);
  }

  /** One more round: the answer before is closed by the request, and only the new answer stays behind. */
  lemma Round(m: Monitor, first: Packet, last: Packet, request: Packet, answer: Packet)
    requires m.pendingReceiver == map[] == m.pendingSender
    requires m.sentAt == map[last.ipoc := last.at] && m.receivedAt == map[first.ipoc := first.at]
    requires request.received && !answer.received && answer.ipoc == request.ipoc
    requires first.ipoc <= last.ipoc < request.ipoc
    ensures var r := Handle(Handle(m, request), answer);
            && r.pendingReceiver == map[] == r.pendingSender && r.matched == m.matched + 1
            && r.turnarounds == m.turnarounds + [request.at - last.at]
            && r.sentAt == map[answer.ipoc := answer.at] && r.receivedAt == m.receivedAt
  {
    RequestStep(m, last, request);
    AnswerStep(Handle(m, request), answer);
  }

  lemma NextRound(m: Monitor, packets: seq<Packet>, request: Packet, answer: Packet)
    requires packets != [] && |packets| % 2 == 0 && InStep(m, packets)
    requires request.received && !answer.received && answer.ipoc == request.ipoc
    requires request.ipoc > packets[|packets| - 1].ipoc
    ensures InStep(Handle(Handle(m, request), answer), packets + [request, answer])
  {
    Round(m, packets[0], packets[|packets| - 1], request, answer);
    StaysInStep(m, Handle(Handle(m, request), answer), packets, request, answer);
  }

  lemma StaysInStep(m: Monitor, r: Monitor, packets: seq<Packet>, request: Packet, answer: Packet)
    requires packets != [] && |packets| % 2 == 0 && InStep(m, packets) && answer.ipoc > packets[|packets| - 1].ipoc
    requires r.pendingReceiver == map[] == r.pendingSender && r.matched == m.matched + 1
    requires r.turnarounds == m.turnarounds + [request.at - packets[|packets| - 1].at]
    requires r.sentAt == map[answer.ipoc := answer.at] && r.receivedAt == m.receivedAt
    ensures InStep(r, packets + [request, answer])
  {
    NextTurnaround(packets, request, answer);
  }

  lemma NextTurnaround(packets: seq<Packet>, request: Packet, answer: Packet)
    requires packets != [] && |packets| % 2 == 0
    ensures var all := packets + [request, answer];
            && |all| % 2 == 0 && all[0] == packets[0] && all[|all| - 1] == answer
            && Turnarounds(all) == Turnarounds(packets) + [request.at - packets[|packets| - 1].at]
  {
    var all := packets + [request, answer];
    assert all[..|all| - 2] == packets;
  }

  /** A request closes the one answer before it. */
  lemma RequestStep(m: Monitor, last: Packet, p: Packet)
    requires p.received && m.pendingReceiver == map[] == m.pendingSender
    requires m.sentAt == map[last.ipoc := last.at] && last.ipoc < p.ipoc
    ensures Handle(m, p) == m.(pendingReceiver := map[p.ipoc := p], sentAt := map[],
                               turnarounds := m.turnarounds + [p.at - last.at])
  {
    var lower := Below(m.sentAt, p.ipoc);
    assert lower == {last.ipoc};
    assert Largest(lower) == last.ipoc;
    assert m.sentAt - lower == map[];
  }

  /** An answer is matched with the one request that waits. */
  lemma AnswerStep(m: Monitor, p: Packet)
    requires !p.received && m.pendingSender == map[] && m.sentAt == map[]
    requires forall k | k in m.receivedAt :: k <= p.ipoc
    requires m.pendingReceiver.Keys == {p.ipoc}
    ensures var r := Handle(m, p);
            && r.pendingReceiver == map[] == r.pendingSender && r.matched == m.matched + 1
            && r.sentAt == map[p.ipoc := p.at] && r.receivedAt == m.receivedAt && r.turnarounds == m.turnarounds
  {
    assert Above(m.receivedAt, p.ipoc) == {};
    HandlePending(m, p);
    assert m.pendingReceiver - {p.ipoc} == map[];
  }

  // ----- the monitor object -----

  class PortStats {
    var count: nat
    var bytes: nat
    var first: Option<int>
    var last: Option<int>
    var gaps: seq<int>

    function View(): Stats
      reads this
    {
      Stats(count, bytes, first, last, gaps)
    }

    constructor ()
      ensures View() == NO_PACKETS
    {
      count, bytes, first, last, gaps := 0, 0, None, None, [];
    }

    method Record(p: Packet)
      modifies this
      ensures View() == Recorded(old(View()), p)
    {
      count := count + 1;
      bytes := bytes + p.size;
      if first.None? {
        first := Some(p.at);
      }
      if last.Some? {
        gaps := gaps + [p.at - last.value];
      }
      last := Some(p.at);
    }
  }

  class RsiMonitor {
    var pendingReceiver: map<int, Packet>
    var pendingSender: map<int, Packet>
    var sentAt: map<int, int>
    var receivedAt: map<int, int>
    const receiver: PortStats
    const sender: PortStats
    var matched: nat
    var responses: seq<int>
    var turnarounds: seq<int>

    ghost function View(): Monitor
      reads this, receiver, sender
    {
      Monitor(pendingReceiver, pendingSender, sentAt, receivedAt, receiver.View(), sender.View(),
              matched, responses, turnarounds)
    }

    constructor ()
      ensures receiver != sender && View() == STARTED
    {
      pendingReceiver, pendingSender, sentAt, receivedAt := map[], map[], map[], map[];
      matched, responses, turnarounds := 0, [], [];
      receiver := new PortStats();
      sender := new PortStats();
    }

    method MaxOf(s: set<int>) returns (m: int)
      requires s != {}
      ensures m == Largest(s)
    {
      HasMember(s);
      m :| m in s;
      var rest := s - {m};
      while rest != {}
        invariant rest <= s && m in s && forall k | k in s && k !in rest :: k <= m
        decreases |rest|
      {
        HasMember(rest);
        var k :| k in rest;
        if k > m {
          m := k;
        }
        rest := rest - {k};
      }
      assert IsLargest(m, s);
    }

    method MinOf(s: set<int>) returns (m: int)
      requires s != {}
      ensures m == Smallest(s)
    {
      HasMember(s);
      m :| m in s;
      var rest := s - {m};
      while rest != {}
        invariant rest <= s && m in s && forall k | k in s && k !in rest :: k >= m
        decreases |rest|
      {
        HasMember(rest);
        var k :| k in rest;
        if k < m {
          m := k;
        }
        rest := rest - {k};
      }
      assert IsSmallest(m, s);
    }

    method MeasureReceivedPacket(p: Packet)
      modifies this`turnarounds, this`sentAt, this`receivedAt
      ensures View() == MeasureReceived(old(View()), p)
    {
      var candidates := Below(sentAt, p.ipoc);
      if candidates != {} {
        var best := MaxOf(candidates);
        turnarounds := turnarounds + [p.at - sentAt[best]];
        sentAt := sentAt - candidates;
      } else {
        receivedAt := receivedAt[p.ipoc := p.at];
      }
    }

    method MeasureSentPacket(p: Packet)
      modifies this`turnarounds, this`sentAt, this`receivedAt
      ensures View() == MeasureSent(old(View()), p)
    {
      var candidates := Above(receivedAt, p.ipoc);
      if candidates != {} {
        var best := MinOf(candidates);
        turnarounds := turnarounds + [receivedAt[best] - p.at];
        receivedAt := receivedAt - candidates;
      } else {
        sentAt := sentAt[p.ipoc := p.at];
      }
    }

    method HandlePacket(p: Packet)
      requires receiver != sender
      modifies this, receiver, sender
      ensures View() == Handle(old(View()), p)
    {
      if p.received {
        MeasureReceivedPacket(p);
        if p.ipoc !in pendingReceiver {
          pendingReceiver := pendingReceiver[p.ipoc := p];
        }
      } else {
        MeasureSentPacket(p);
        if p.ipoc in pendingReceiver && p.ipoc !in pendingSender {
          pendingSender := pendingSender[p.ipoc := p];
        }
      }
      TryMatchIpoc(p.ipoc);
    }

    method TryMatchIpoc(ipoc: int)
      requires receiver != sender
      modifies this, receiver, sender
      ensures View() == TryMatch(old(View()), ipoc)
    {
      if ipoc !in pendingReceiver || ipoc !in pendingSender {
        return;
      }
      var request, answer := pendingReceiver[ipoc], pendingSender[ipoc];
      receiver.Record(request);
      sender.Record(answer);
      var latency := answer.at - request.at;
      if latency >= 0 {
        responses := responses + [latency];
      }
      matched := matched + 1;
      pendingReceiver := pendingReceiver - {ipoc};
      pendingSender := pendingSender - {ipoc};
    }
  }
}
