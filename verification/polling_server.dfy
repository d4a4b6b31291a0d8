/**
 The polling prime server (03): a non-blocking listening socket and a list of
 client connections, each polled once per pass of the run loop.

 Every pass first advances the prime calculator. In LISTENING_STATE it then
 tries to accept one new client (a `BlockingIOError` when nobody is waiting is
 ignored) and serves every listed connection. A connection's `recv` either
 would block (ignored), returns nothing (the client is gone: close and
 remove it) or returns a command. What each connection reads during a pass is
 an input, `inbox`.

 `shutdown` calls `close()` on the connections list, which a Python list does
 not have, so an `end` command ends the server with `AttributeError` before
 the socket is closed or the state changes.
 */
module PollingServer {
  import opened Wrappers
  import opened Codec
  import opened Calculator
  import opened Connections

  datatype State = NullState | Listening | ShutdownState

  datatype Event = Initialised | LostClient | ShutdownEvt

  datatype Server = Server(state: State, calculator: Calculator, socket: Socket,
                           connections: seq<ConnId>, accepted: nat)

  /** What one connection's `recv` gives during a pass. */
  datatype ReadResult = WouldBlock | Received(data: seq<byte>)

  /** A reply sent to one connection. */
  datatype Reply = Reply(to: ConnId, bytes: seq<byte>)

  /** `PrimeServer()`: no socket, no connections, a fresh calculator. */
  function NewServer(): (s: Server)
    ensures s.state.NullState? && s.socket.NoSocket? && s.connections == [] && s.accepted == 0
    ensures Valid(s.calculator) && s.calculator.currentPrime == 3
  {
    Server(NullState, New(), NoSocket, [], 0)
  }

  /** `update_state`: INITIALISED_EVT and SHUTDOWN_EVT set the state; LOST_CLIENT_EVT has no branch. */
  function UpdateState(s: State, e: Event): (s': State)
    ensures e.Initialised? ==> s'.Listening?
    ensures e.ShutdownEvt? ==> s'.ShutdownState?
    ensures e.LostClient? ==> s' == s
  {
    match e
    case Initialised => Listening
    case ShutdownEvt => ShutdownState
    case LostClient => s
  }

  /** Applying an event twice is applying it once. */
  lemma UpdateStateIdempotent(s: State, e: Event)
    ensures UpdateState(UpdateState(s, e), e) == UpdateState(s, e)
  {
  }

  /** The server invariant: a valid calculator and a list of distinct, already accepted connections. */
  predicate Inv(s: Server) {
    && Valid(s.calculator)
    && Distinct(s.connections)
    && (forall i :: 0 <= i < |s.connections| ==> s.connections[i] < s.accepted)
  }

  /** `init`: create, configure and bind the socket, then INITIALISED_EVT. */
  function Init(s: Server): (r: Server)
    ensures r.state.Listening? && r.socket.Open?
    ensures r.calculator == s.calculator && r.connections == s.connections && r.accepted == s.accepted
  {
    s.(socket := Open, state := UpdateState(s.state, Initialised))
  }

  /** `listen_for_connection`: a waiting client is accepted and appended; otherwise nothing changes. */
  function ListenForConnection(s: Server, clientWaiting: bool): (r: Server)
    requires Inv(s)
    ensures Inv(r)
    ensures clientWaiting ==> r.connections == s.connections + [s.accepted] && r.accepted == s.accepted + 1
    ensures !clientWaiting ==> r == s
    ensures r.state == s.state && r.calculator == s.calculator && r.socket == s.socket
  {
    if clientWaiting then
      AppendFresh(s.connections, s.accepted);
      s.(connections := s.connections + [s.accepted], accepted := s.accepted + 1)
    else s
  }

  /** What serving one connection does: the server afterwards and the reply sent, if any. */
  datatype Served = Served(server: Server, reply: Option<Reply>)

  /**
   `serve_client` with `process_data`: an empty read closes and removes the
   connection (`list.remove`, a `ValueError` if it is not listed); `get` sends
   the latest prime as four big-endian bytes (an `OverflowError` when it does
   not fit); `end` fails on `self.connections.close()`.
   */
  function ServeClient(s: Server, c: ConnId, read: ReadResult): (r: Result<Served, PyError>)
    requires Valid(s.calculator)
    ensures read.WouldBlock? ==> r == Success(Served(s, None))
    ensures read == Received([]) ==>
      (r.Success? <==> c in s.connections) &&
      (r.Success? ==> r.value == Served(s.(connections := Remove(s.connections, c).value), None))
    ensures read.Received? && read.data != [] && GetCommand(read.data).ShutdownCmd? ==> r == Failure(AttributeError)
    ensures read.Received? && read.data != [] && GetCommand(read.data).UnknownCmd? ==> r == Success(Served(s, None))
    ensures read.Received? && read.data != [] && GetCommand(read.data).GetPrimeCmd? ==>
      (r.Success? <==> s.calculator.currentPrime < 0x1_0000_0000) &&
      (r.Success? ==> r.value.server == s && r.value.reply.Some? && r.value.reply.value.to == c &&
                      |r.value.reply.value.bytes| == REPLY_LEN &&
                      FromBytesBE(r.value.reply.value.bytes) == GetLatest(s.calculator))
    ensures r.Success? ==> r.value.server.calculator == s.calculator && r.value.server.state == s.state &&
                           r.value.server.accepted == s.accepted && |r.value.server.connections| <= |s.connections|
    ensures r.Success? && Inv(s) ==> Inv(r.value.server)
  {
    match read
    case WouldBlock => Success(Served(s, None))
    case Received(data) =>
      if |data| == 0 then
        (match Remove(s.connections, c)
         case Success(rest) =>
           RemoveMembers(s.connections, c);
           RemoveDistinct(s.connections, c);
           Success(Served(s.(connections := rest), None))
         case Failure(e) => Failure(e))
      else
        match GetCommand(data)
        case ShutdownCmd => Failure(AttributeError)
        case GetPrimeCmd =>
          (match EncodeReply(GetLatest(s.calculator))
           case Success(bytes) => Success(Served(s, Some(Reply(c, bytes))))
           case Failure(e) => Failure(e))
        case UnknownCmd => Success(Served(s, None))
  }

  /** What a round of `serve_clients` leaves: the server, the replies sent, and the connections read, in order. */
  datatype Round = Round(server: Server, replies: seq<Reply>, served: seq<ConnId>)

  function ReplyList(reply: Option<Reply>): seq<Reply> {
    if reply.Some? then [reply.value] else []
  }

  /**
   `serve_clients` as written: `for connection in self.connections` walks the
   live list by position, so removing the connection at position `i` moves its
   successor to `i`, and the loop goes on at `i + 1`.
   */
  function ServeClientsAsWritten(s: Server, inbox: ConnId -> ReadResult, i: nat): (r: Result<Round, PyError>)
    requires Valid(s.calculator)
    ensures r.Success? ==> r.value.server.calculator == s.calculator
    ensures r.Success? ==> r.value.server.state == s.state && r.value.server.accepted == s.accepted
    ensures r.Success? && Inv(s) ==> Inv(r.value.server)
    ensures r.Failure? ==> r.error == AttributeError || r.error == OverflowError
    ensures r.Failure? && r.error == OverflowError ==> s.calculator.currentPrime >= 0x1_0000_0000
    decreases |s.connections| - i
  {
    if i >= |s.connections| then Success(Round(s, [], []))
    else
      var c := s.connections[i];
      match ServeClient(s, c, inbox(c))
      case Failure(e) => Failure(e)
      case Success(step) =>
        match ServeClientsAsWritten(step.server, inbox, i + 1)
        case Failure(e) => Failure(e)
        case Success(rest) => Success(Round(rest.server, ReplyList(step.reply) + rest.replies, [c] + rest.served))
  }

  /** The two connections of the counterexample: the first has hung up, the second asks for a prime. */
  function HangUpThenGet(c: ConnId): ReadResult {
    if c == 0 then Received([]) else Received(GET_REQUEST)
  }

  /**
   The round as written skips a connection: with connections [0, 1] where 0
   has hung up and 1 sent `get`, removing 0 moves 1 to position 0, so 1 is
   never read and gets no reply in this pass.
   */
  lemma AsWrittenSkipsSuccessor()
    ensures var s := Server(Listening, New(), Open, [0, 1], 2);
      var r := ServeClientsAsWritten(s, HangUpThenGet, 0);
      r.Success? && r.value.served == [0] && r.value.replies == [] && r.value.server.connections == [1]
  {
    var s := Server(Listening, New(), Open, [0, 1], 2);
    assert IndexOf([0, 1], 0) == 0;
    assert [0, 1][1..] == [1];
  }

  /** None of the connections from position `i` on hung up this pass. */
  predicate NoHangUpFrom(conns: seq<ConnId>, inbox: ConnId -> ReadResult, i: nat) {
    forall k :: i <= k < |conns| ==> inbox(conns[k]) != Received([])
  }

  /**
   A connection that has not hung up leaves the server as it was, so as long
   as nobody hangs up the written loop reads the list it started with.
   */
  lemma StepWithoutHangUp(s: Server, c: ConnId, read: ReadResult)
    requires Valid(s.calculator) && read != Received([])
    ensures ServeClient(s, c, read).Success? ==> ServeClient(s, c, read).value.server == s
  {
  }

  /**
   The written loop fails on an `end` when no connection before the sender
   hung up in this pass: nothing has been removed, so the sender is read.
   */
  lemma {:induction false} AsWrittenFailsOnEnd(s: Server, inbox: ConnId -> ReadResult, i: nat, e: nat)
    requires Valid(s.calculator) && i <= e < |s.connections|
    requires inbox(s.connections[e]) == Received(END_REQUEST)
    requires forall k :: i <= k < e ==> inbox(s.connections[k]) != Received([])
    ensures ServeClientsAsWritten(s, inbox, i).Failure?
    decreases e - i
  {
    GetIsNotEmpty();
    var c := s.connections[i];
    if i < e {
      StepWithoutHangUp(s, c, inbox(c));
      if ServeClient(s, c, inbox(c)).Success? {
        AsWrittenFailsOnEnd(s, inbox, i + 1, e);
      }
    }
  }

  /**
   `serve_clients` as evidently intended: every connection listed when the
   round starts is read once, in order (iteration over a snapshot).
   */
  function ServeClients(s: Server, inbox: ConnId -> ReadResult, todo: seq<ConnId>): (r: Result<Round, PyError>)
    requires Valid(s.calculator)
    ensures r.Success? ==> r.value.server.calculator == s.calculator && r.value.served == todo
    ensures r.Success? ==> r.value.server.state == s.state && r.value.server.accepted == s.accepted
    ensures r.Success? && Inv(s) ==> Inv(r.value.server)
    decreases |todo|
  {
    if |todo| == 0 then Success(Round(s, [], []))
    else
      match ServeClient(s, todo[0], inbox(todo[0]))
      case Failure(e) => Failure(e)
      case Success(step) =>
        match ServeClients(step.server, inbox, todo[1..])
        case Failure(e) => Failure(e)
        case Success(rest) => Success(Round(rest.server, ReplyList(step.reply) + rest.replies, [todo[0]] + rest.served))
  }

  /** The connections of `todo` that did not hang up this round, in order. */
  function Survivors(todo: seq<ConnId>, inbox: ConnId -> ReadResult): seq<ConnId> {
    if |todo| == 0 then []
    else (if inbox(todo[0]) == Received([]) then [] else [todo[0]]) + Survivors(todo[1..], inbox)
  }

  /** The connections of `todo` that sent `get` this round, in order. */
  function Requesters(todo: seq<ConnId>, inbox: ConnId -> ReadResult): seq<ConnId> {
    if |todo| == 0 then []
    else (if inbox(todo[0]) == Received(GET_REQUEST) then [todo[0]] else []) + Requesters(todo[1..], inbox)
  }

  /** Whether some connection of `todo` sent `end` this round. */
  predicate SomeEnd(todo: seq<ConnId>, inbox: ConnId -> ReadResult) {
    exists i :: 0 <= i < |todo| && inbox(todo[i]) == Received(END_REQUEST)
  }

  lemma GetIsNotEmpty()
    ensures GET_REQUEST != [] && GetCommand(GET_REQUEST).GetPrimeCmd?
    ensures END_REQUEST != [] && GetCommand(END_REQUEST).ShutdownCmd?
  {
    GetCommandInvertsRequest(GetPrimeCmd);
    GetCommandInvertsRequest(ShutdownCmd);
  }

  /** The connections `c` leaves behind after it is served: itself unless it hung up. */
  function Kept(c: ConnId, read: ReadResult): seq<ConnId> {
    if read == Received([]) then [] else [c]
  }

  /** Serving the next connection of the round touches only its own place in the list. */
  lemma ServeNextInPlace(s: Server, inbox: ConnId -> ReadResult, kept: seq<ConnId>, todo: seq<ConnId>)
    requires Inv(s) && s.connections == kept + todo && |todo| > 0
    requires ServeClient(s, todo[0], inbox(todo[0])).Success?
    ensures ServeClient(s, todo[0], inbox(todo[0])).value.server.connections ==
      (kept + Kept(todo[0], inbox(todo[0]))) + todo[1..]
  {
    var c := todo[0];
    assert kept + todo == kept + [c] + todo[1..];
    if inbox(c) == Received([]) {
      RemoveFromPlace(kept, c, todo[1..]);
    }
  }

  /**
   The intended round fails only by an `end` (`AttributeError`) or by a prime
   too wide for four bytes (`OverflowError`), never by `list.remove`. `kept`
   are the connections the round has already passed and kept.
   */
  lemma {:induction false} ServeClientsFailures(s: Server, inbox: ConnId -> ReadResult,
                                                kept: seq<ConnId>, todo: seq<ConnId>)
    requires Inv(s) && s.connections == kept + todo
    ensures var r := ServeClients(s, inbox, todo);
      && (r.Failure? ==> r.error == AttributeError || r.error == OverflowError)
      && (r.Failure? && r.error == AttributeError ==> SomeEnd(todo, inbox))
      && (r.Failure? && r.error == OverflowError ==> s.calculator.currentPrime >= 0x1_0000_0000)
    decreases |todo|
  {
    if |todo| > 0 {
      var c := todo[0];
      var step := ServeClient(s, c, inbox(c));
      if step.Success? {
        ServeNextInPlace(s, inbox, kept, todo);
        ServeClientsFailures(step.value.server, inbox, kept + Kept(c, inbox(c)), todo[1..]);
        var r := ServeClients(s, inbox, todo);
        if r.Failure? && r.error == AttributeError {
          var i :| 0 <= i < |todo[1..]| && inbox(todo[1..][i]) == Received(END_REQUEST);
          assert todo[i + 1] == todo[1..][i];
        }
      } else if step.error == AttributeError {
        GetCommandInvertsRequest(ShutdownCmd);
        assert inbox(todo[0]) == Received(END_REQUEST);
      } else {
        assert s.connections[|kept|] == c;
      }
    }
  }

  /** After the intended round the connections that hung up are gone and the others keep their order. */
  lemma {:induction false} ServeClientsRemovesHangUps(s: Server, inbox: ConnId -> ReadResult,
                                                      kept: seq<ConnId>, todo: seq<ConnId>)
    requires Inv(s) && s.connections == kept + todo
    ensures ServeClients(s, inbox, todo).Success? ==>
      ServeClients(s, inbox, todo).value.server.connections == kept + Survivors(todo, inbox)
    decreases |todo|
  {
    if |todo| > 0 {
      var c := todo[0];
      var step := ServeClient(s, c, inbox(c));
      if step.Success? {
        ServeNextInPlace(s, inbox, kept, todo);
        var kept' := kept + Kept(c, inbox(c));
        ServeClientsRemovesHangUps(step.value.server, inbox, kept', todo[1..]);
        assert Survivors(todo, inbox) == Kept(c, inbox(c)) + Survivors(todo[1..], inbox);
        assert kept' + Survivors(todo[1..], inbox) == kept + Survivors(todo, inbox);
      }
    }
  }

  /** In the intended round every `get` is answered with the latest prime, in the order of the list. */
  lemma {:induction false} ServeClientsAnswersGets(s: Server, inbox: ConnId -> ReadResult, todo: seq<ConnId>)
    requires Valid(s.calculator)
    ensures var r := ServeClients(s, inbox, todo);
      r.Success? ==>
        && |r.value.replies| == |Requesters(todo, inbox)|
        && forall k :: 0 <= k < |r.value.replies| ==>
             r.value.replies[k].to == Requesters(todo, inbox)[k] &&
             |r.value.replies[k].bytes| == REPLY_LEN &&
             FromBytesBE(r.value.replies[k].bytes) == GetLatest(s.calculator)
    decreases |todo|
  {
    if |todo| > 0 {
      var c := todo[0];
      GetIsNotEmpty();
      var step := ServeClient(s, c, inbox(c));
      if step.Success? {
        ServeClientsAnswersGets(step.value.server, inbox, todo[1..]);
      }
    }
  }

  /** The same two connections in the intended round: both are read and 1 gets its prime. */
  lemma IntendedServesBoth()
    ensures var s := Server(Listening, New(), Open, [0, 1], 2);
      var r := ServeClients(s, HangUpThenGet, [0, 1]);
      r.Success? && r.value.served == [0, 1] && r.value.server.connections == [1] &&
      |r.value.replies| == 1 && r.value.replies[0].to == 1 && FromBytesBE(r.value.replies[0].bytes) == 3
  {
    var s := Server(Listening, New(), Open, [0, 1], 2);
    var todo: seq<ConnId> := [0, 1];
    GetIsNotEmpty();
    assert GET_REQUEST != END_REQUEST;
    assert todo[1..] == [1] && todo[1..][1..] == [];
    assert Requesters(todo, HangUpThenGet) == [1];
    assert Survivors(todo, HangUpThenGet) == [1];
    assert !SomeEnd(todo, HangUpThenGet);
    ServeClientsFailures(s, HangUpThenGet, [], todo);
    ServeClientsRemovesHangUps(s, HangUpThenGet, [], todo);
    ServeClientsAnswersGets(s, HangUpThenGet, todo);
  }

  /**
   In a pass where nobody hangs up nothing is removed, so the round as
   written reads the same connections as the intended round and gives the
   same result: for such passes every property of the intended round holds
   for the program as written.
   */
  lemma {:induction false} AsWrittenWithoutHangUps(s: Server, inbox: ConnId -> ReadResult, i: nat)
    requires Valid(s.calculator) && i <= |s.connections|
    requires NoHangUpFrom(s.connections, inbox, i)
    ensures ServeClientsAsWritten(s, inbox, i) == ServeClients(s, inbox, s.connections[i..])
    decreases |s.connections| - i
  {
    if i < |s.connections| {
      var c := s.connections[i];
      var todo := s.connections[i..];
      assert todo[0] == c && todo[1..] == s.connections[i + 1..];
      StepWithoutHangUp(s, c, inbox(c));
      if ServeClient(s, c, inbox(c)).Success? {
        AsWrittenWithoutHangUps(s, inbox, i + 1);
      }
    }
  }

  /** What one pass of the run loop does: the server afterwards and the replies sent. */
  datatype Pass = Pass(clientWaiting: bool, inbox: ConnId -> ReadResult)

  /**
   `run_next_process`: NULL initialises; LISTENING accepts a waiting client and
   serves every connection; SHUTDOWN does nothing.
   */
  function RunNextProcess(s: Server, p: Pass): (r: Result<Round, PyError>)
    requires Inv(s)
    ensures s.state.NullState? ==> r == Success(Round(Init(s), [], []))
    ensures s.state.ShutdownState? ==> r == Success(Round(s, [], []))
    ensures s.state.Listening? ==>
      var l := ListenForConnection(s, p.clientWaiting);
      r == ServeClients(l, p.inbox, l.connections)
    ensures r.Success? ==> Inv(r.value.server) && r.value.server.calculator == s.calculator
    ensures r.Success? ==> !r.value.server.state.ShutdownState? || s.state.ShutdownState?
  {
    match s.state
    case NullState => Success(Round(Init(s), [], []))
    case ShutdownState => Success(Round(s, [], []))
    case Listening =>
      var l := ListenForConnection(s, p.clientWaiting);
      ServeClients(l, p.inbox, l.connections)
  }

  /** A LISTENING pass in which nobody hangs up is the same pass whichever round serves the clients. */
  lemma PassAsWrittenWithoutHangUps(s: Server, p: Pass)
    requires Inv(s) && s.state.Listening?
    requires NoHangUpFrom(ListenForConnection(s, p.clientWaiting).connections, p.inbox, 0)
    ensures ServeClientsAsWritten(ListenForConnection(s, p.clientWaiting), p.inbox, 0) == RunNextProcess(s, p)
  {
    var l := ListenForConnection(s, p.clientWaiting);
    AsWrittenWithoutHangUps(l, p.inbox, 0);
    assert l.connections[0..] == l.connections;
  }

  /** `run_processes`: advance the prime once, then `run_next_process`. */
  function RunProcesses(s: Server, p: Pass): (r: Result<Round, PyError>)
    requires Inv(s)
    ensures r == RunNextProcess(s.(calculator := FindNext(s.calculator)), p)
    ensures r.Success? ==> Inv(r.value.server) && r.value.server.calculator == FindNext(s.calculator)
  {
    RunNextProcess(s.(calculator := FindNext(s.calculator)), p)
  }

  /** `run`: passes until the state is SHUTDOWN; the model stops when the passes run out. */
  function Run(s: Server, passes: seq<Pass>): (r: Result<(Server, seq<Reply>), PyError>)
    requires Inv(s)
    ensures r.Success? ==> Inv(r.value.0)
    decreases |passes|
  {
    if s.state.ShutdownState? || |passes| == 0 then Success((s, []))
    else
      match RunProcesses(s, passes[0])
      case Failure(e) => Failure(e)
      case Success(round) =>
        match Run(round.server, passes[1..])
        case Failure(e) => Failure(e)
        case Success(out) => Success((out.0, round.replies + out.1))
  }

  /**
   The server never reaches SHUTDOWN_STATE: the only way there is `shutdown`,
   which fails first. A run that does not end with an error is still live.
   */
  lemma {:induction false} NeverShutsDown(s: Server, passes: seq<Pass>)
    requires Inv(s) && !s.state.ShutdownState?
    ensures Run(s, passes).Success? ==> !Run(s, passes).value.0.state.ShutdownState?
    decreases |passes|
  {
    if |passes| > 0 {
      var r := RunProcesses(s, passes[0]);
      if r.Success? {
        NeverShutsDown(r.value.server, passes[1..]);
      }
    }
  }

  /** An `end` from any listed connection ends the run with `AttributeError` unless an earlier error does. */
  lemma EndIsAnError(s: Server, p: Pass)
    requires Inv(s) && s.state.Listening?
    requires exists i :: 0 <= i < |s.connections| && p.inbox(s.connections[i]) == Received(END_REQUEST)
    ensures RunNextProcess(s, p).Failure?
  {
    var l := ListenForConnection(s, p.clientWaiting);
    var i :| 0 <= i < |s.connections| && p.inbox(s.connections[i]) == Received(END_REQUEST);
    assert l.connections[i] == s.connections[i];
    ServeClientsFailOnEnd(l, p.inbox, [], l.connections, i);
  }

  /**
   The same for the program as written: a pass fails when a listed
   connection sends `end` and none listed before it hung up.
   */
  lemma EndIsAnErrorAsWritten(s: Server, p: Pass, e: nat)
    requires Inv(s) && s.state.Listening? && e < |s.connections|
    requires p.inbox(s.connections[e]) == Received(END_REQUEST)
    requires forall k :: 0 <= k < e ==> p.inbox(s.connections[k]) != Received([])
    ensures ServeClientsAsWritten(ListenForConnection(s, p.clientWaiting), p.inbox, 0).Failure?
  {
    var l := ListenForConnection(s, p.clientWaiting);
    assert l.connections[..|s.connections|] == s.connections;
    assert l.connections[e] == s.connections[e];
    AsWrittenFailsOnEnd(l, p.inbox, 0, e);
  }

  /** A round over a list holding an `end` sender cannot succeed. */
  lemma {:induction false} ServeClientsFailOnEnd(s: Server, inbox: ConnId -> ReadResult,
                                                 kept: seq<ConnId>, todo: seq<ConnId>, i: nat)
    requires Inv(s) && s.connections == kept + todo
    requires i < |todo| && inbox(todo[i]) == Received(END_REQUEST)
    ensures ServeClients(s, inbox, todo).Failure?
    decreases |todo|
  {
    GetIsNotEmpty();
    var c := todo[0];
    var step := ServeClient(s, c, inbox(c));
    if i > 0 && step.Success? {
      ServeNextInPlace(s, inbox, kept, todo);
      ServeClientsFailOnEnd(step.value.server, inbox, kept + Kept(c, inbox(c)), todo[1..], i - 1);
    }
  }
}
