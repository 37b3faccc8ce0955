/** The command connection between driver and controller: a caller, a receiving thread, two queues and the
    server, stepping in any order. */
module FriChannel {
  import opened Words
  import opened FriManager
  import opened FriCodec
  import opened FriServer

  /** The error notices the controller sends on its own account. */
  datatype Notice = ControlEnded | FriEnded

  /** An answer is remembered with the number of the request it answers. */
  datatype Incoming = Answer(reply: Reply, serial: nat) | Unsolicited(notice: Notice)

  datatype LastState = LAST_ACCEPTED | LAST_REJECTED | LAST_UNKNOWN | LAST_CONTROL_ENDED | LAST_FRI_ENDED

  /** Where the calling thread is: between calls, about to send, or waiting on the condition variable. */
  datatype Phase = Resting | Wanting(request: Request) | Waiting(request: Request)

  datatype Connection = Connection(
    phase: Phase,
    answerWanted: bool,
    answerReceived: bool,
    lastState: LastState,
    lastId: uint8,
    lastSuccess: bool)

  /** A finished call: its number, the number of the request whose answer ended it (None: a notice ended it),
      and what the caller was told. */
  datatype Call = Call(request: Request, serial: nat, answeredBy: Option<nat>, verdict: bool)

  datatype System = System(
    client: Connection,
    server: Server,
    toServer: seq<Request>,
    toClient: seq<Incoming>,
    requests: seq<Request>,
    robots: seq<Robot>,
    replies: seq<Reply>,
    calls: seq<Call>,
    answeredBy: Option<nat>,
    noticesConsumed: nat)

  datatype Event =
    | Want(request: Request)
    | Send
    | Serve(robot: Robot)
    | Raise(notice: Notice)
    | Deliver
    | Return

  predicate LastCommandSucceeded(c: Connection, id: CommandId) {
    c.lastState == LAST_ACCEPTED && c.lastId == NumberOf(id) && c.lastSuccess
  }

  /** The receiving thread's handler. A notice is an answer for a caller who wants one. */
  function Received(c: Connection, m: Incoming): Connection {
    match m
    case Answer(Accepted(id, success), _) =>
      c.(lastState := LAST_ACCEPTED, lastId := NumberOf(id), lastSuccess := success, answerReceived := true)
    case Answer(RejectedReply(id), _) => c.(lastState := LAST_REJECTED, lastId := NumberOf(id), answerReceived := true)
    case Answer(UnknownReply, _) => c.(lastState := LAST_UNKNOWN, answerReceived := true)
    case Unsolicited(ControlEnded) =>
      if c.answerWanted then c.(lastState := LAST_CONTROL_ENDED, answerReceived := true) else c
    case Unsolicited(FriEnded) =>
      if c.answerWanted then c.(lastState := LAST_FRI_ENDED, answerReceived := true) else c
  }

  function Replied(s: System, robot: Robot, handled: (Server, Reply)): System
    requires s.toServer != []
  {
    s.(server := handled.0,
       toServer := s.toServer[1..],
       toClient := s.toClient + [Answer(handled.1, |s.replies|)],
       robots := s.robots + [robot],
       replies := s.replies + [handled.1])
  }

  function Sent(s: System): System
    requires s.client.phase.Wanting?
  {
    var q := s.client.phase.request;
    s.(client := s.client.(phase := Waiting(q)),
       toServer := s.toServer + [q],
       requests := s.requests + [q])
  }

  function Delivered(s: System): System
    requires s.toClient != []
  {
    var m := s.toClient[0];
    var s' := s.(client := Received(s.client, m), toClient := s.toClient[1..]);
    if m.Answer? then s'.(answeredBy := Some(m.serial))
    else if s.client.answerWanted then s'.(answeredBy := None, noticesConsumed := s.noticesConsumed + 1)
    else s'
  }

  function Returned(s: System): System
    requires s.client.phase.Waiting? && s.client.answerReceived
  {
    var q := s.client.phase.request;
    var verdict := LastCommandSucceeded(s.client, IdOf(q));
    s.(client := s.client.(answerReceived := false, answerWanted := false, phase := Resting),
       calls := s.calls + [Call(q, |s.calls|, s.answeredBy, verdict)])
  }

  /** How the server handles a request: as the controller does, or any other way that replies once to each. */
  type Handler = (Server, Request, Robot) -> (Server, Reply)

  /** The controller handles the bytes of the request. */
  function Controller(server: Server, q: Request, robot: Robot): (Server, Reply) {
    HandleMessage(server, RequestBytes(q), robot)
  }

  /** One step of the system; an event that is not enabled leaves it as it is. */
  function Step(serve: Handler, s: System, e: Event): System {
    match e
    case Want(q) =>
      if s.client.phase != Resting then s
      else s.(client := s.client.(answerWanted := true, phase := Wanting(q)))
    case Send => if !s.client.phase.Wanting? then s else Sent(s)
    case Serve(robot) =>
      if s.toServer == [] then s else Replied(s, robot, serve(s.server, s.toServer[0], robot))
    case Raise(notice) => s.(toClient := s.toClient + [Unsolicited(notice)])
    case Deliver => if s.toClient == [] then s else Delivered(s)
    case Return => if !s.client.phase.Waiting? || !s.client.answerReceived then s else Returned(s)
  }

  function Run(serve: Handler, s: System, events: seq<Event>): System
    decreases |events|
  {
    if events == [] then s else Run(serve, Step(serve, s, events[0]), events[1..])
  }

  /** A connection that was just made. */
  predicate Fresh(s: System) {
    && s.client == Connection(Resting, false, false, LAST_ACCEPTED, NumberOf(CONNECT), false)
    && s.toServer == [] && s.toClient == [] && s.requests == [] && s.robots == [] && s.replies == []
    && s.calls == [] && s.answeredBy == None && s.noticesConsumed == 0
  }

  function Bit(b: bool): nat {
    if b then 1 else 0
  }

  /** The answers on their way to the client. */
  function Answers(incoming: seq<Incoming>): nat {
    if incoming == [] then 0 else Bit(incoming[0].Answer?) + Answers(incoming[1..])
  }

  /** Requests sent whose answers have not been received. */
  function Owed(s: System): nat {
    |s.toServer| + Answers(s.toClient)
  }

  /** The number of answers the client has received. */
  function Heard(s: System): int {
    |s.replies| - Answers(s.toClient)
  }

  function Pending(s: System): nat {
    Bit(s.client.phase.Waiting?)
  }

  /** The answers in the queue are the server's replies from number `next` on, in order and to the last. */
  predicate Faithful(incoming: seq<Incoming>, replies: seq<Reply>, next: int)
    decreases |incoming|
  {
    if incoming == [] then next == |replies|
    else
      match incoming[0]
      case Answer(reply, serial) =>
        0 <= next < |replies| && serial == next && reply == replies[next] && Faithful(incoming[1..], replies, next + 1)
      case Unsolicited(_) => Faithful(incoming[1..], replies, next)
  }

  lemma {:induction false} ReplyAppended(incoming: seq<Incoming>, replies: seq<Reply>, next: int, reply: Reply)
    requires Faithful(incoming, replies, next)
    ensures Faithful(incoming + [Answer(reply, |replies|)], replies + [reply], next)
    ensures Answers(incoming + [Answer(reply, |replies|)]) == Answers(incoming) + 1
    decreases |incoming|
  {
    var m := Answer(reply, |replies|);
    if incoming == [] {
      assert (incoming + [m])[1..] == [];
    } else {
      assert (incoming + [m])[1..] == incoming[1..] + [m];
      ReplyAppended(incoming[1..], replies, next + Bit(incoming[0].Answer?), reply);
    }
  }

  lemma {:induction false} NoticeAppended(incoming: seq<Incoming>, replies: seq<Reply>, next: int, notice: Notice)
    requires Faithful(incoming, replies, next)
    ensures Faithful(incoming + [Unsolicited(notice)], replies, next)
    ensures Answers(incoming + [Unsolicited(notice)]) == Answers(incoming)
    decreases |incoming|
  {
    var m := Unsolicited(notice);
    if incoming == [] {
      assert (incoming + [m])[1..] == [];
    } else {
      assert (incoming + [m])[1..] == incoming[1..] + [m];
      NoticeAppended(incoming[1..], replies, next + Bit(incoming[0].Answer?), notice);
    }
  }

  /** The requests sent are those replied to followed by those still queued. */
  ghost predicate RequestsSound(s: System) {
    && |s.robots| == |s.replies| <= |s.requests|
    && s.toServer == s.requests[|s.replies|..]
  }

  /** The caller has made one call after the other, and each needed an answer or a notice to end. */
  ghost predicate CallsSound(s: System) {
    && |s.requests| == |s.calls| + Pending(s)
    && (s.client.phase.Waiting? ==> s.client.phase.request == s.requests[|s.calls|])
    && (s.client.answerWanted <==> s.client.phase != Resting)
    && |s.calls| + Bit(s.client.answerReceived) <= Heard(s) + s.noticesConsumed
    && (s.client.answerReceived && s.answeredBy.Some? ==> s.answeredBy.value < Heard(s))
    && (forall i | 0 <= i < |s.calls| :: s.calls[i].serial == i && s.calls[i].request == s.requests[i])
  }

  /** What every step keeps. */
  ghost predicate Sound(s: System) {
    && RequestsSound(s)
    && 0 <= Heard(s) && Faithful(s.toClient, s.replies, Heard(s))
    && CallsSound(s)
  }

  lemma StepKeepsSound(serve: Handler, s: System, e: Event)
    requires Sound(s)
    ensures Sound(Step(serve, s, e))
  {
    match e {
      case Want(q) =>
      case Send =>
        if s.client.phase.Wanting? {
          SendKeepsSound(s);
        }
      case Serve(robot) =>
        if s.toServer != [] {
          ReplyKeepsSound(s, robot, serve(s.server, s.toServer[0], robot));
        }
      case Raise(notice) => NoticeAppended(s.toClient, s.replies, Heard(s), notice);
      case Deliver =>
        if s.toClient != [] {
          DeliverKeepsSound(s);
        }
      case Return =>
        if s.client.phase.Waiting? && s.client.answerReceived {
          ReturnKeepsSound(s);
        }
    }
  }

  lemma SendKeepsSound(s: System)
    requires Sound(s) && s.client.phase.Wanting?
    ensures Sound(Sent(s))
  {
  }

  lemma ReturnKeepsSound(s: System)
    requires Sound(s) && s.client.phase.Waiting? && s.client.answerReceived
    ensures Sound(Returned(s))
  {
  }

  lemma ReplyKeepsSound(s: System, robot: Robot, handled: (Server, Reply))
    requires Sound(s) && s.toServer != []
    ensures var r := Replied(s, robot, handled);
            Sound(r) && Heard(r) == Heard(s) && Owed(r) == Owed(s)
  {
    ReplyAppended(s.toClient, s.replies, Heard(s), handled.1);
  }

  lemma DeliverKeepsSound(s: System)
    requires Sound(s) && s.toClient != []
    ensures Sound(Delivered(s))
  {
  }

  lemma {:induction false} RunKeepsSound(serve: Handler, s: System, events: seq<Event>)
    requires Sound(s)
    ensures Sound(Run(serve, s, events))
    decreases |events|
  {
    if events != [] {
      StepKeepsSound(serve, s, events[0]);
      RunKeepsSound(serve, Step(serve, s, events[0]), events[1..]);
    }
  }

  /** Over all interleavings: the answers still owed never exceed the notices that were taken for answers plus
      the one of a pending call, and one less while an answer lies unread. */
  lemma OwedBound(serve: Handler, s: System, events: seq<Event>)
    requires Fresh(s)
    ensures var r := Run(serve, s, events);
            Owed(r) + Bit(r.client.answerReceived) <= r.noticesConsumed + Pending(r)
  {
    RunKeepsSound(serve, s, events);
  }

  // ----- the handler on bytes -----

  const ACCEPTED := 1
  const REJECTED := 2
  const ERROR_CONTROL_ENDED := 4
  const ERROR_FRI_ENDED := 5

  /** The handler reads as many bytes as the status announces, without looking at the length. */
  predicate LongEnough(data: Bytes) {
    data != [] ==> (data[0] == ACCEPTED ==> |data| >= 3) && (data[0] == REJECTED ==> |data| >= 2)
  }

  function IncomingBytes(m: Incoming, text: Bytes): Bytes {
    match m
    case Answer(reply, _) => ReplyBytes(reply, text)
    case Unsolicited(ControlEnded) => [ERROR_CONTROL_ENDED]
    case Unsolicited(FriEnded) => [ERROR_FRI_ENDED]
  }

  /** The fields of the driver's connection that two threads share. */
  class FriConnection {
    var answerWanted: bool
    var answerReceived: bool
    var lastCommandState: LastState
    var lastCommandId: uint8
    var lastCommandSuccess: bool

    ghost function View(phase: Phase): Connection
      reads this
    {
      Connection(phase, answerWanted, answerReceived, lastCommandState, lastCommandId, lastCommandSuccess)
    }

    constructor ()
      ensures View(Resting) == Connection(Resting, false, false, LAST_ACCEPTED, NumberOf(CONNECT), false)
    {
      answerWanted, answerReceived := false, false;
      lastCommandState, lastCommandId, lastCommandSuccess := LAST_ACCEPTED, NumberOf(CONNECT), false;
    }

    /** Whatever message and text the bytes stand for, the handler takes it in as that message. An unknown
        status is taken for an unknown command, and no bytes at all for nothing. */
    method HandleReceivedTcpData(data: Bytes)
      requires LongEnough(data)
      modifies this
      ensures forall m, text, phase | data == IncomingBytes(m, text) :: View(phase) == Received(old(View(phase)), m)
      ensures forall phase :: data == [] ==> View(phase) == old(View(phase))
      ensures forall phase, serial :: data != [] && (data[0] < ACCEPTED || data[0] > ERROR_FRI_ENDED) ==>
                View(phase) == Received(old(View(phase)), Answer(UnknownReply, serial))
    {
      if data == [] {
        return;
      }
      if data[0] == ACCEPTED {
        lastCommandState := LAST_ACCEPTED;
        lastCommandId := data[1];
        lastCommandSuccess := data[2] == 1;
        answerReceived := true;
      } else if data[0] == REJECTED {
        lastCommandState := LAST_REJECTED;
        lastCommandId := data[1];
        answerReceived := true;
      } else if data[0] == ERROR_CONTROL_ENDED {
        if answerWanted {
          lastCommandState := LAST_CONTROL_ENDED;
          answerReceived := true;
        }
      } else if data[0] == ERROR_FRI_ENDED {
        if answerWanted {
          lastCommandState := LAST_FRI_ENDED;
          answerReceived := true;
        }
      } else {
        lastCommandState := LAST_UNKNOWN;
        answerReceived := true;
      }
    }

    /** The caller's side, once the condition variable lets it go on. */
    method TakeAnswer(id: CommandId) returns (success: bool)
      requires answerReceived
      modifies this
      ensures forall phase :: View(phase) == old(View(phase)).(answerReceived := false, answerWanted := false)
      ensures forall phase :: success == LastCommandSucceeded(old(View(phase)), id)
    {
      answerReceived := false;
      answerWanted := false;
      return lastCommandState == LAST_ACCEPTED && lastCommandId == NumberOf(id) && lastCommandSuccess;
    }
  }

  // ----- the server works through the requests one by one -----

  function ServeAll(serve: Handler, server: Server, requests: seq<Request>, robots: seq<Robot>): (Server, seq<Reply>)
    requires |requests| == |robots|
    decreases |requests|
  {
    if requests == [] then (server, [])
    else
      var n := |requests| - 1;
      var (before, replies) := ServeAll(serve, server, requests[..n], robots[..n]);
      var (after, reply) := serve(before, requests[n], robots[n]);
      (after, replies + [reply])
  }

  /** From request `n` on, which the server met in the state `start`, its state and replies are those of handling the
      requests served so far one after the other. */
  ghost predicate InOrder(serve: Handler, start: Server, s: System, n: nat)
    requires Sound(s)
  {
    && n <= |s.replies|
    && ServeAll(serve, start, s.requests[n..|s.replies|], s.robots[n..]) == (s.server, s.replies[n..])
  }

  lemma ServeOneMore(serve: Handler, start: Server, requests: seq<Request>, robots: seq<Robot>, q: Request,
                     robot: Robot)
    requires |requests| == |robots|
    ensures var (before, replies) := ServeAll(serve, start, requests, robots);
            var (after, reply) := serve(before, q, robot);
            ServeAll(serve, start, requests + [q], robots + [robot]) == (after, replies + [reply])
  {
    assert (requests + [q])[..|requests|] == requests && (robots + [robot])[..|robots|] == robots;
  }

  lemma LastOnward<T>(s: seq<T>, x: T, n: nat)
    requires n <= |s|
    ensures (s + [x])[n..] == s[n..] + [x]
  {
  }

  lemma StepKeepsOrder(serve: Handler, start: Server, s: System, e: Event, n: nat)
    requires Sound(s) && InOrder(serve, start, s, n)
    ensures Sound(Step(serve, s, e)) && InOrder(serve, start, Step(serve, s, e), n)
  {
    StepKeepsSound(serve, s, e);
    var r, k := Step(serve, s, e), |s.replies|;
    if e.Serve? && s.toServer != [] {
      ServedNext(serve, start, s, e.robot, n);
    } else {
      assert r.requests[n..k] == s.requests[n..k];
    }
  }

  lemma ServedNext(serve: Handler, start: Server, s: System, robot: Robot, n: nat)
    requires Sound(s) && InOrder(serve, start, s, n) && s.toServer != []
    ensures var r := Replied(s, robot, serve(s.server, s.toServer[0], robot));
            Sound(r) && InOrder(serve, start, r, n)
  {
    var r, k := Replied(s, robot, serve(s.server, s.toServer[0], robot)), |s.replies|;
    ReplyKeepsSound(s, robot, serve(s.server, s.toServer[0], robot));
    assert r.requests[n..k + 1] == s.requests[n..k] + [s.toServer[0]];
    LastOnward(s.robots, robot, n);
    LastOnward(s.replies, serve(s.server, s.toServer[0], robot).1, n);
    ServeOneMore(serve, start, s.requests[n..k], s.robots[n..], s.toServer[0], robot);
  }

  /** Over all interleavings, notices or not, the server has handled the requests in the order they were sent. */
  lemma {:induction false} RunKeepsOrder(serve: Handler, start: Server, s: System, events: seq<Event>, n: nat)
    requires Sound(s) && InOrder(serve, start, s, n)
    ensures Sound(Run(serve, s, events)) && InOrder(serve, start, Run(serve, s, events), n)
    decreases |events|
  {
    if events != [] {
      StepKeepsOrder(serve, start, s, events[0], n);
      RunKeepsOrder(serve, start, Step(serve, s, events[0]), events[1..], n);
    }
  }

  /** What executing a request does: the state after, and whether it was executed. */
  type Executor = (Server, Request, Robot) -> (Server, bool)

  /** Executing requests one after the other. */
  function ExecuteAll(execute: Executor, server: Server, requests: seq<Request>, robots: seq<Robot>)
    : (r: (Server, seq<bool>))
    requires |requests| == |robots|
    ensures |r.1| == |requests|
    decreases |requests|
  {
    if requests == [] then (server, [])
    else
      var n := |requests| - 1;
      var (before, executed) := ExecuteAll(execute, server, requests[..n], robots[..n]);
      var (after, last) := execute(before, requests[n], robots[n]);
      (after, executed + [last])
  }

  /** An accepting server executes every request of the client, says whether it did, and stays accepting. */
  ghost predicate Implements(serve: Handler, execute: Executor) {
    forall server: Server, q, robot | server.accepting ::
      var (after, executed) := execute(server, q, robot);
      serve(server, q, robot) == (after, Accepted(IdOf(q), executed)) && after.accepting
  }

  lemma ControllerServesRequests()
    ensures Implements(Controller, Served)
  {
    forall server: Server, q, robot | server.accepting
      ensures var (after, executed) := Served(server, q, robot);
              Controller(server, q, robot) == (after, Accepted(IdOf(q), executed)) && after.accepting
    {
      RequestArrives(server, q, robot);
    }
  }

  /** Such a server's replies say which requests were executed. */
  lemma {:induction false} RepliesTellExecution(serve: Handler, execute: Executor, server: Server,
                                                requests: seq<Request>, robots: seq<Robot>)
    requires Implements(serve, execute)
    requires |requests| == |robots| && server.accepting
    ensures var (after, executed) := ExecuteAll(execute, server, requests, robots);
            var (r, replies) := ServeAll(serve, server, requests, robots);
            && r == after && after.accepting
            && |replies| == |requests|
            && (forall i | 0 <= i < |requests| :: replies[i] == Accepted(IdOf(requests[i]), executed[i]))
    decreases |requests|
  {
    if requests != [] {
      var n := |requests| - 1;
      RepliesTellExecution(serve, execute, server, requests[..n], robots[..n]);
      var before := ExecuteAll(execute, server, requests[..n], robots[..n]).0;
      var (after, executed) := execute(before, requests[n], robots[n]);
      assert serve(before, requests[n], robots[n]) == (after, Accepted(IdOf(requests[n]), executed));
    }
  }

  // ----- matching calls with their answers -----

  /** No answer lies unread, and none is owed. */
  predicate Settled(s: System) {
    s.client.phase == Resting && !s.client.answerReceived && Owed(s) == 0
  }

  /** The call was ended by the answer to its own request, and its caller was told what the server replied. */
  predicate Own(s: System, call: Call) {
    && call.answeredBy == Some(call.serial)
    && call.serial < |s.replies|
    && (call.verdict <==> s.replies[call.serial] == Accepted(IdOf(call.request), true))
  }

  /** Every call finished since there were `n` of them. */
  ghost predicate OwnSince(s: System, n: nat) {
    forall i | n <= i < |s.calls| :: Own(s, s.calls[i])
  }

  /** The client has taken in exactly this reply. */
  predicate Reflects(c: Connection, reply: Reply) {
    match reply
    case Accepted(id, success) => c.lastState == LAST_ACCEPTED && c.lastId == NumberOf(id) && c.lastSuccess == success
    case RejectedReply(id) => c.lastState == LAST_REJECTED && c.lastId == NumberOf(id)
    case UnknownReply => c.lastState == LAST_UNKNOWN
  }

  /** As long as no notice is taken for an answer, the one answer in play is that of the pending call. */
  ghost predicate Matched(s: System, n: nat) {
    && Sound(s)
    && Owed(s) + Bit(s.client.answerReceived) == Pending(s)
    && (s.client.answerReceived ==>
          s.answeredBy == Some(|s.calls|) && Reflects(s.client, s.replies[|s.calls|]))
    && OwnSince(s, n)
  }

  lemma StepKeepsMatched(serve: Handler, s: System, e: Event, n: nat)
    requires Matched(s, n) && Step(serve, s, e).noticesConsumed == s.noticesConsumed
    ensures Matched(Step(serve, s, e), n)
  {
    match e {
      case Want(q) => WantKeepsMatched(serve, s, q, n);
      case Send => SendKeepsMatched(serve, s, n);
      case Serve(robot) =>
        if s.toServer != [] {
          ReplyKeepsMatched(s, robot, serve(s.server, s.toServer[0], robot), n);
        }
      case Raise(notice) => RaiseKeepsMatched(serve, s, notice, n);
      case Deliver =>
        if s.toClient != [] {
          DeliverKeepsMatched(s, n);
        }
      case Return =>
        if s.client.phase.Waiting? && s.client.answerReceived {
          ReturnKeepsMatched(s, n);
        }
    }
  }

  lemma WantKeepsMatched(serve: Handler, s: System, q: Request, n: nat)
    requires Matched(s, n)
    ensures Matched(Step(serve, s, Want(q)), n)
  {
    StepKeepsSound(serve, s, Want(q));
    SameCallsKeepMatched(s, Step(serve, s, Want(q)), n);
  }

  lemma SendKeepsMatched(serve: Handler, s: System, n: nat)
    requires Matched(s, n)
    ensures Matched(Step(serve, s, Send), n)
  {
    StepKeepsSound(serve, s, Send);
    SameCallsKeepMatched(s, Step(serve, s, Send), n);
  }

  lemma RaiseKeepsMatched(serve: Handler, s: System, notice: Notice, n: nat)
    requires Matched(s, n)
    ensures Matched(Step(serve, s, Raise(notice)), n)
  {
    StepKeepsSound(serve, s, Raise(notice));
    NoticeAppended(s.toClient, s.replies, Heard(s), notice);
    SameCallsKeepMatched(s, Step(serve, s, Raise(notice)), n);
  }

  lemma SameCallsKeepMatched(s: System, r: System, n: nat)
    requires Matched(s, n) && Sound(r)
    requires r.calls == s.calls && r.replies == s.replies && r.answeredBy == s.answeredBy
    requires r.client.(phase := s.client.phase, answerWanted := s.client.answerWanted) == s.client
    requires Owed(r) - Pending(r) == Owed(s) - Pending(s)
    ensures Matched(r, n)
  {
    forall i | n <= i < |r.calls|
      ensures Own(r, r.calls[i])
    {
      assert Own(s, s.calls[i]);
    }
  }

  lemma ReplyKeepsMatched(s: System, robot: Robot, handled: (Server, Reply), n: nat)
    requires Matched(s, n) && s.toServer != []
    ensures Matched(Replied(s, robot, handled), n)
  {
    ReplyKeepsSound(s, robot, handled);
    var r := Replied(s, robot, handled);
    forall i | n <= i < |r.calls|
      ensures Own(r, r.calls[i])
    {
      assert Own(s, s.calls[i]);
    }
  }

  lemma DeliverKeepsMatched(s: System, n: nat)
    requires Matched(s, n) && s.toClient != []
    requires s.toClient[0].Answer? || !s.client.answerWanted
    ensures Matched(Delivered(s), n)
  {
    DeliverKeepsSound(s);
    var r := Delivered(s);
    forall i | n <= i < |r.calls|
      ensures Own(r, r.calls[i])
    {
      assert Own(s, s.calls[i]);
    }
  }

  lemma ReturnKeepsMatched(s: System, n: nat)
    requires Matched(s, n) && s.client.phase.Waiting? && s.client.answerReceived
    ensures Matched(Returned(s), n)
  {
    ReturnKeepsSound(s);
    var r := Returned(s);
    forall i | n <= i < |r.calls|
      ensures Own(r, r.calls[i])
    {
      if i < |s.calls| {
        assert Own(s, s.calls[i]);
      } else {
        NumbersAreDistinct(IdOf(r.calls[i].request));
      }
    }
  }

  lemma NumbersAreDistinct(id: CommandId)
    ensures forall other :: NumberOf(other) == NumberOf(id) ==> other == id
  {
    forall other | NumberOf(other) == NumberOf(id)
      ensures other == id
    {
      assert FromByte(NumberOf(other)) == Some(other) && FromByte(NumberOf(id)) == Some(id);
    }
  }

  lemma {:induction false} NoticesOnlyGrow(serve: Handler, s: System, events: seq<Event>)
    ensures s.noticesConsumed <= Run(serve, s, events).noticesConsumed
    decreases |events|
  {
    if events != [] {
      NoticesOnlyGrow(serve, Step(serve, s, events[0]), events[1..]);
    }
  }

  lemma {:induction false} RunKeepsMatched(serve: Handler, s: System, events: seq<Event>, n: nat)
    requires Matched(s, n) && Run(serve, s, events).noticesConsumed == s.noticesConsumed
    ensures Matched(Run(serve, s, events), n)
    decreases |events|
  {
    if events != [] {
      var next := Step(serve, s, events[0]);
      NoticesOnlyGrow(serve, next, events[1..]);
      StepKeepsMatched(serve, s, events[0], n);
      RunKeepsMatched(serve, next, events[1..], n);
    }
  }

  /** If no notice is taken for an answer, then over all interleavings every call returns true exactly when the
      server executed that very request, and between calls no answer lies unread and none is owed. */
  lemma CallsMatchTheirAnswers(serve: Handler, s: System, events: seq<Event>)
    requires Fresh(s) && Run(serve, s, events).noticesConsumed == 0
    ensures var r := Run(serve, s, events);
            OwnSince(r, 0) && (r.client.phase == Resting ==> Settled(r))
  {
    RunKeepsMatched(serve, s, events, 0);
  }

  /** A new connection is settled. */
  lemma FreshIsSettled(s: System)
    requires Fresh(s)
    ensures Sound(s) && Settled(s)
  {
  }

  lemma SettledIsInOrder(serve: Handler, s: System)
    requires Sound(s) && Settled(s)
    ensures |s.calls| == |s.requests| == |s.replies| && InOrder(serve, s.server, s, |s.calls|)
  {
    var n := |s.calls|;
    assert s.requests[n..|s.replies|] == [] && s.robots[n..] == [] && s.replies[n..] == [];
  }

  /** Since there were `n` calls and the server was in the state `start`: the controller's state is that of executing
      the requests of the calls made since in order, each call was told whether its own request was executed, and the
      connection is settled. */
  ghost predicate ExecutedSince(start: Server, r: System, n: nat) {
    && Sound(r) && Settled(r) && r.server.accepting
    && n <= |r.calls| == |r.requests| == |r.robots|
    && (forall i | 0 <= i < |r.calls| :: r.calls[i].request == r.requests[i])
    && var (after, executed) := ExecuteAll(Served, start, r.requests[n..], r.robots[n..]);
       r.server == after && forall i | n <= i < |r.calls| :: r.calls[i].verdict == executed[i - n]
  }

  lemma VerdictsTellExecution(r: System, start: Server, n: nat)
    requires Matched(r, n) && r.client.phase == Resting && start.accepting && InOrder(Controller, start, r, n)
    ensures ExecutedSince(start, r, n)
  {
    SettledIsInOrder(Controller, r);
    var requests, robots := r.requests[n..], r.robots[n..];
    assert r.requests[n..|r.replies|] == requests;
    ControllerServesRequests();
    RepliesTellExecution(Controller, Served, start, requests, robots);
    forall i | n <= i < |r.calls|
      ensures r.calls[i].verdict == ExecuteAll(Served, start, requests, robots).1[i - n]
    {
      assert Own(r, r.calls[i]) && r.replies[n..][i - n] == r.replies[i] && requests[i - n] == r.requests[i];
    }
  }

  lemma SettledIsMatched(s: System)
    requires Sound(s) && Settled(s)
    ensures Matched(s, |s.calls|)
  {
  }

  /** The two together, from any settled connection on: when the caller rests again and no notice was taken for an
      answer since, a call may be taken for one atomic execution of its request. */
  lemma CallsAreAtomic(s: System, events: seq<Event>)
    requires Sound(s) && Settled(s) && s.server.accepting
    requires var r := Run(Controller, s, events);
             r.noticesConsumed == s.noticesConsumed && r.client.phase == Resting
    ensures ExecutedSince(s.server, Run(Controller, s, events), |s.calls|)
  {
    SettledIsInOrder(Controller, s);
    SettledIsMatched(s);
    RunKeepsMatched(Controller, s, events, |s.calls|);
    RunKeepsOrder(Controller, s.server, s, events, |s.calls|);
    VerdictsTellExecution(Run(Controller, s, events), s.server, |s.calls|);
  }

  /** A continuation in which no notice is taken for an answer, and all whose calls match their answers. */
  ghost predicate GoesWell(serve: Handler, s: System, events: seq<Event>) {
    var r := Run(serve, s, events);
    r.noticesConsumed == s.noticesConsumed ==> OwnSince(r, |s.calls|)
  }

  /** Between two calls of any run: the calls to come match their answers, however the system is scheduled and
      short of further notices, exactly when the connection is settled. */
  lemma SafeExactlyWhenSettled(serve: Handler, s: System)
    requires Sound(s) && s.client.phase == Resting
    ensures (forall events :: GoesWell(serve, s, events)) <==> Settled(s)
  {
    if Settled(s) {
      forall events
        ensures GoesWell(serve, s, events)
      {
        if Run(serve, s, events).noticesConsumed == s.noticesConsumed {
          RunKeepsMatched(serve, s, events, |s.calls|);
        }
      }
    } else {
      var events := MismatchedCall(serve, s);
      assert !GoesWell(serve, s, events);
    }
  }

  /** From a connection that is not settled, a call that returns on an answer that is not its own. */
  lemma {:induction false} MismatchedCall(serve: Handler, s: System) returns (events: seq<Event>)
    requires Sound(s) && s.client.phase == Resting && !Settled(s)
    ensures !GoesWell(serve, s, events)
    decreases !s.client.answerReceived, |s.toServer|, |s.toClient|
  {
    if s.client.answerReceived {
      events := [Want(Connecting), Send, Return];
      StaleAnswerEndsCall(serve, s);
    } else {
      var e := if s.toClient == [] then Serve(Robot(true, true, true, true)) else Deliver;
      StepKeepsSound(serve, s, e);
      if s.toClient == [] {
        ReplyKeepsSound(s, e.robot, serve(s.server, s.toServer[0], e.robot));
      }
      var rest := MismatchedCall(serve, Step(serve, s, e));
      events := [e] + rest;
      assert events[1..] == rest;
    }
  }

  lemma StaleAnswerEndsCall(serve: Handler, s: System)
    requires Sound(s) && s.client.phase == Resting && s.client.answerReceived
    ensures !GoesWell(serve, s, [Want(Connecting), Send, Return])
  {
    var events := [Want(Connecting), Send, Return];
    assert events[1..] == [Send, Return] && [Send, Return][1..] == [Return] && [Return][1..] == [];
    var s1 := Step(serve, s, Want(Connecting));
    var s2 := Step(serve, s1, Send);
    var r := Step(serve, s2, Return);
    assert Run(serve, s, events) == Run(serve, s1, [Send, Return]) == Run(serve, s2, [Return]);
    assert Run(serve, s2, [Return]) == Run(serve, r, []) == r;
    assert r.calls[|s.calls|].answeredBy == s.answeredBy;
    assert !Own(r, r.calls[|s.calls|]);
  }

  /** How such a connection comes about: a notice that arrives while a command is pending ends its call. The caller is
      told it failed, although the request still lies before the server and its answer is owed. */
  lemma NoticeEndsCall(serve: Handler, s: System, q: Request, notice: Notice)
    requires Fresh(s)
    ensures var r := Run(serve, s, [Want(q), Send, Raise(notice), Deliver, Return]);
            && Sound(r) && r.client.phase == Resting && !Settled(r) && Owed(r) == 1
            && r.requests == [q] && r.replies == []
            && r.calls == [Call(q, 0, None, false)] && r.toServer == [q] && r.server == s.server
            && !(forall events :: GoesWell(serve, r, events))
  {
    var events := [Want(q), Send, Raise(notice), Deliver, Return];
    RunKeepsSound(serve, s, events);
    var waiting := Step(serve, Step(serve, s, Want(q)), Send);
    assert events[1..][1..] == [Raise(notice), Deliver, Return];
    assert Run(serve, s, events) == Run(serve, waiting, [Raise(notice), Deliver, Return]);
    var heard := Step(serve, Step(serve, waiting, Raise(notice)), Deliver);
    assert [Raise(notice), Deliver, Return][1..][1..] == [Return];
    assert Run(serve, waiting, [Raise(notice), Deliver, Return]) == Run(serve, heard, [Return]);
    var r := Step(serve, heard, Return);
    assert Run(serve, heard, [Return]) == Run(serve, r, []) == r;
    SafeExactlyWhenSettled(serve, r);
  }

  /** A call that a notice has ended, or is about to end, is told that it failed. */
  ghost predicate NoticesFail(s: System) {
    && (s.client.answerReceived && s.answeredBy.None? ==>
          s.client.lastState == LAST_CONTROL_ENDED || s.client.lastState == LAST_FRI_ENDED)
    && forall call | call in s.calls && call.answeredBy.None? :: !call.verdict
  }

  lemma StepKeepsNoticesFail(serve: Handler, s: System, e: Event)
    requires NoticesFail(s)
    ensures NoticesFail(Step(serve, s, e))
  {
  }

  /** Over all interleavings every call that was ended by a notice instead of an answer was told that it failed. */
  lemma {:induction false} NoticedCallsFail(serve: Handler, s: System, events: seq<Event>)
    requires NoticesFail(s)
    ensures NoticesFail(Run(serve, s, events))
    decreases |events|
  {
    if events != [] {
      StepKeepsNoticesFail(serve, s, events[0]);
      NoticedCallsFail(serve, Step(serve, s, events[0]), events[1..]);
    }
  }

  /** A notice is remembered as what it is, but only for a caller who wants an answer. */
  lemma NoticeIsRemembered(serve: Handler, s: System)
    requires s.toClient != [] && s.toClient[0].Unsolicited?
    ensures var r, notice := Step(serve, s, Deliver), s.toClient[0].notice;
            if s.client.answerWanted
            then r.client.answerReceived
                 && r.client.lastState == if notice == ControlEnded then LAST_CONTROL_ENDED else LAST_FRI_ENDED
            else r.client == s.client
  {
  }

  /** If the server goes on, it executes the request whose caller was told that it failed. */
  lemma FailedCallIsExecuted(s: System, q: Request, notice: Notice, robot: Robot)
    requires Fresh(s) && s.server.accepting
    ensures var r := Run(Controller, s, [Want(q), Send, Raise(notice), Deliver, Return]);
            var later := Step(Controller, r, Serve(robot));
            var (after, executed) := Served(s.server, q, robot);
            && later.calls == [Call(q, 0, None, false)]
            && later.server == after && later.requests == [q] && later.replies == [Accepted(IdOf(q), executed)]
            && later.client.phase == Resting
  {
    NoticeEndsCall(Controller, s, q, notice);
    RequestArrives(s.server, q, robot);
  }

  // ----- every call can be made -----

  lemma {:induction false} RunInTurn(serve: Handler, s: System, first: seq<Event>, second: seq<Event>)
    ensures Run(serve, s, first + second) == Run(serve, Run(serve, s, first), second)
    decreases |first|
  {
    if first == [] {
      assert first + second == second;
    } else {
      assert (first + second)[1..] == first[1..] + second;
      RunInTurn(serve, Step(serve, s, first[0]), first[1..], second);
    }
  }

  /** Between calls, with nothing on the way to the client. */
  predicate Quiet(s: System) {
    Settled(s) && s.toClient == []
  }

  /** A call without anything in between. */
  function CallEvents(q: Request, robot: Robot): seq<Event> {
    [Want(q), Send, Serve(robot), Deliver, Return]
  }

  lemma CallCanBeMade(s: System, q: Request, robot: Robot)
    requires Sound(s) && Quiet(s)
    ensures var r := Run(Controller, s, CallEvents(q, robot));
            && Sound(r) && Quiet(r) && r.noticesConsumed == s.noticesConsumed
            && r.requests == s.requests + [q] && r.robots == s.robots + [robot]
  {
    var events := CallEvents(q, robot);
    RunKeepsSound(Controller, s, events);
    var asked := Step(Controller, Step(Controller, s, Want(q)), Send);
    assert events[1..][1..] == [Serve(robot), Deliver, Return];
    assert Run(Controller, s, events) == Run(Controller, asked, [Serve(robot), Deliver, Return]);
    AnswerArrives(asked, q, robot);
  }

  lemma AnswerArrives(s: System, q: Request, robot: Robot)
    requires s.client.phase == Waiting(q) && !s.client.answerReceived && s.toServer == [q] && s.toClient == []
    ensures var r := Run(Controller, s, [Serve(robot), Deliver, Return]);
            && r.client.phase == Resting && !r.client.answerReceived && r.toServer == [] && r.toClient == []
            && r.noticesConsumed == s.noticesConsumed
            && r.requests == s.requests && r.robots == s.robots + [robot]
  {
    var told := Step(Controller, Step(Controller, s, Serve(robot)), Deliver);
    assert [Serve(robot), Deliver, Return][1..][1..] == [Return];
    assert Run(Controller, s, [Serve(robot), Deliver, Return]) == Run(Controller, told, [Return]);
    var r := Step(Controller, told, Return);
    assert [Return][1..] == [];
    assert Run(Controller, told, [Return]) == Run(Controller, r, []) == r;
  }
}
