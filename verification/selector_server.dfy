/**
 The selector-based prime server (04). Its states, `update_state`,
 `serve_client` and `remove_current_client` are those of the polling server;
 what changes is how a pass finds its work. In LISTENING_STATE the server asks
 the selector which sockets are readable and handles each ready socket once:
 the listening socket means a new client to accept, a client socket means a
 client to serve.

 The selector is modelled by its answer: the list of ready sockets, with what
 each ready client's `recv` returns. An empty list is a `select` that timed out.
 */
module SelectorServer {
  import opened Wrappers
  import opened Codec
  import opened Calculator
  import opened Connections
  import P = PollingServer

  /** One entry of the list `select` returns. */
  datatype ReadyEvent = ServerReady | ClientReady(conn: ConnId, read: P.ReadResult)

  /** The outcome of a pass: the server afterwards and the replies sent, in order. */
  datatype Handled = Handled(server: P.Server, replies: seq<P.Reply>)

  /**
   `add_new_client`: accept the waiting client, register it with the selector
   and append it to the connections.
   */
  function AddNewClient(s: P.Server): (r: P.Server)
    requires P.Inv(s)
    ensures P.Inv(r)
    ensures r.connections == s.connections + [s.accepted] && r.accepted == s.accepted + 1
    ensures r.state == s.state && r.calculator == s.calculator && r.socket == s.socket
  {
    P.ListenForConnection(s, true)
  }

  /** `listen_for_connection`: handle every ready socket in the order `select` lists them. */
  function ListenForConnection(s: P.Server, ready: seq<ReadyEvent>): (r: Result<Handled, PyError>)
    requires P.Inv(s)
    ensures r.Success? ==> P.Inv(r.value.server) && r.value.server.calculator == s.calculator
    ensures r.Success? ==> r.value.server.state == s.state
    ensures ready == [] ==> r == Success(Handled(s, []))
    decreases |ready|
  {
    if |ready| == 0 then Success(Handled(s, []))
    else
      var step :=
        match ready[0]
        case ServerReady => Success(P.Served(AddNewClient(s), None))
        case ClientReady(c, read) => P.ServeClient(s, c, read);
      match step
      case Failure(e) => Failure(e)
      case Success(one) =>
        match ListenForConnection(one.server, ready[1..])
        case Failure(e) => Failure(e)
        case Success(rest) => Success(Handled(rest.server, P.ReplyList(one.reply) + rest.replies))
  }

  /**
   What `select` can report: each client at most once, and only clients that
   are connected when the pass starts (a client accepted during the pass is
   not in the list).
   */
  predicate ReadyWellFormed(s: P.Server, ready: seq<ReadyEvent>) {
    && (forall i :: 0 <= i < |ready| && ready[i].ClientReady? ==> ready[i].conn in s.connections)
    && (forall i, j :: 0 <= i < j < |ready| && ready[i].ClientReady? && ready[j].ClientReady? ==>
          ready[i].conn != ready[j].conn)
  }

  /** Whether `c` is reported with an empty read: the client has gone. */
  predicate HungUp(ready: seq<ReadyEvent>, c: ConnId) {
    exists i :: 0 <= i < |ready| && ready[i] == ClientReady(c, P.Received([]))
  }

  /** Whether some reported client sent `end`. */
  predicate SomeEnd(ready: seq<ReadyEvent>) {
    exists i :: 0 <= i < |ready| && ready[i].ClientReady? && ready[i].read == P.Received(END_REQUEST)
  }

  /** How many times the listening socket is reported. */
  function NewClients(ready: seq<ReadyEvent>): nat {
    if |ready| == 0 then 0 else (if ready[0].ServerReady? then 1 else 0) + NewClients(ready[1..])
  }

  /** The clients that sent `get`, in the order reported. */
  function Requesters(ready: seq<ReadyEvent>): seq<ConnId> {
    if |ready| == 0 then []
    else (if ready[0].ClientReady? && ready[0].read == P.Received(GET_REQUEST) then [ready[0].conn] else [])
         + Requesters(ready[1..])
  }

  /** After handling the first entry, the rest of a well-formed list is still well-formed. */
  lemma ReadyWellFormedTail(s: P.Server, ready: seq<ReadyEvent>, s': P.Server)
    requires |ready| > 0 && ReadyWellFormed(s, ready)
    requires forall c :: c in s.connections && !(ready[0].ClientReady? && ready[0].conn == c) ==> c in s'.connections
    ensures ReadyWellFormed(s', ready[1..])
  {
    forall i | 0 <= i < |ready[1..]| && ready[1..][i].ClientReady?
      ensures ready[1..][i].conn in s'.connections
    {
      assert ready[1..][i] == ready[i + 1];
    }
  }

  /** Serving or accepting keeps every other connection listed. */
  lemma StepKeepsOthers(s: P.Server, e: ReadyEvent)
    requires P.Inv(s)
    ensures var step :=
        match e
        case ServerReady => Success(P.Served(AddNewClient(s), None))
        case ClientReady(c, read) => P.ServeClient(s, c, read);
      step.Success? ==>
        forall c :: c in s.connections && !(e.ClientReady? && e.conn == c) ==> c in step.value.server.connections
  {
    if e.ClientReady? && e.read == P.Received([]) && e.conn in s.connections {
      RemoveMembers(s.connections, e.conn);
    }
  }

  /**
   A pass over a well-formed ready list fails only on an `end` (`AttributeError`)
   or a prime too wide for four bytes (`OverflowError`), never in `list.remove`.
   */
  lemma {:induction false} ListenFailures(s: P.Server, ready: seq<ReadyEvent>)
    requires P.Inv(s) && ReadyWellFormed(s, ready)
    ensures var r := ListenForConnection(s, ready);
      && (r.Failure? ==> r.error == AttributeError || r.error == OverflowError)
      && (r.Failure? && r.error == AttributeError ==> SomeEnd(ready))
      && (r.Failure? && r.error == OverflowError ==> s.calculator.currentPrime >= 0x1_0000_0000)
    decreases |ready|
  {
    if |ready| > 0 {
      var e := ready[0];
      var step :=
        match e
        case ServerReady => Success(P.Served(AddNewClient(s), None))
        case ClientReady(c, read) => P.ServeClient(s, c, read);
      if step.Success? {
        StepKeepsOthers(s, e);
        ReadyWellFormedTail(s, ready, step.value.server);
        ListenFailures(step.value.server, ready[1..]);
        var r := ListenForConnection(s, ready);
        if r.Failure? && r.error == AttributeError {
          var i :| 0 <= i < |ready[1..]| && ready[1..][i].ClientReady? && ready[1..][i].read == P.Received(END_REQUEST);
          assert ready[i + 1] == ready[1..][i];
        }
      } else if step.error == AttributeError {
        GetCommandInvertsRequest(ShutdownCmd);
        assert e.read == P.Received(END_REQUEST);
      }
    }
  }

  /**
   After a successful pass over a well-formed ready list, a connection is
   listed exactly when it was listed before and did not hang up, or it was
   accepted during the pass; one client is accepted per report of the
   listening socket.
   */
  lemma {:induction false} ListenConnections(s: P.Server, ready: seq<ReadyEvent>)
    requires P.Inv(s) && ReadyWellFormed(s, ready)
    ensures var r := ListenForConnection(s, ready);
      r.Success? ==>
        && r.value.server.accepted == s.accepted + NewClients(ready)
        && forall c :: c in r.value.server.connections <==>
             (c in s.connections && !HungUp(ready, c)) || s.accepted <= c < r.value.server.accepted
    decreases |ready|
  {
    if |ready| > 0 {
      var e := ready[0];
      var step :=
        match e
        case ServerReady => Success(P.Served(AddNewClient(s), None))
        case ClientReady(c, read) => P.ServeClient(s, c, read);
      var r := ListenForConnection(s, ready);
      if step.Success? && r.Success? {
        var s' := step.value.server;
        StepKeepsOthers(s, e);
        ReadyWellFormedTail(s, ready, s');
        ListenConnections(s', ready[1..]);
        var fin := r.value.server;
        StepMembership(s, e);
        forall c: ConnId
          ensures c in fin.connections <==> (c in s.connections && !HungUp(ready, c)) || s.accepted <= c < fin.accepted
        {
          HungUpSplit(ready, c);
          if e.ClientReady? && e.conn == c {
            NotHungUpLater(ready, c);
          }
        }
      }
    }
  }

  /** One entry changes the connections by at most its own client, or by one newly accepted client. */
  lemma StepMembership(s: P.Server, e: ReadyEvent)
    requires P.Inv(s)
    requires e.ClientReady? ==> e.conn in s.connections
    ensures var step :=
        match e
        case ServerReady => Success(P.Served(AddNewClient(s), None))
        case ClientReady(c, read) => P.ServeClient(s, c, read);
      step.Success? ==>
        && step.value.server.accepted == s.accepted + (if e.ServerReady? then 1 else 0)
        && forall c :: c in step.value.server.connections <==>
             (c in s.connections && e != ClientReady(c, P.Received([]))) ||
             s.accepted <= c < step.value.server.accepted
  {
    if e.ClientReady? && e.read == P.Received([]) {
      RemoveMembers(s.connections, e.conn);
      RemoveDistinct(s.connections, e.conn);
    }
    assert forall c :: c in s.connections ==> c < s.accepted;
  }

  /** `c` hung up in the list exactly when it hung up in the first entry or in the rest. */
  lemma HungUpSplit(ready: seq<ReadyEvent>, c: ConnId)
    requires |ready| > 0
    ensures HungUp(ready, c) <==> ready[0] == ClientReady(c, P.Received([])) || HungUp(ready[1..], c)
  {
    if HungUp(ready[1..], c) {
      var i :| 0 <= i < |ready[1..]| && ready[1..][i] == ClientReady(c, P.Received([]));
      assert ready[i + 1] == ready[1..][i];
    }
    if HungUp(ready, c) && ready[0] != ClientReady(c, P.Received([])) {
      var i :| 0 <= i < |ready| && ready[i] == ClientReady(c, P.Received([]));
      assert ready[1..][i - 1] == ready[i];
    }
  }

  /** A client reported first is not reported again. */
  lemma NotHungUpLater(ready: seq<ReadyEvent>, c: ConnId)
    requires |ready| > 0 && ready[0].ClientReady? && ready[0].conn == c
    requires forall i, j :: 0 <= i < j < |ready| && ready[i].ClientReady? && ready[j].ClientReady? ==>
               ready[i].conn != ready[j].conn
    ensures !HungUp(ready[1..], c)
  {
  }

  /** Every `get` reported is answered with the latest prime, in the order reported. */
  lemma {:induction false} ListenAnswersGets(s: P.Server, ready: seq<ReadyEvent>)
    requires P.Inv(s)
    ensures var r := ListenForConnection(s, ready);
      r.Success? ==>
        && |r.value.replies| == |Requesters(ready)|
        && forall k :: 0 <= k < |r.value.replies| ==>
             r.value.replies[k].to == Requesters(ready)[k] &&
             |r.value.replies[k].bytes| == REPLY_LEN &&
             FromBytesBE(r.value.replies[k].bytes) == GetLatest(s.calculator)
    decreases |ready|
  {
    if |ready| > 0 {
      P.GetIsNotEmpty();
      var step :=
        match ready[0]
        case ServerReady => Success(P.Served(AddNewClient(s), None))
        case ClientReady(c, read) => P.ServeClient(s, c, read);
      if step.Success? {
        ListenAnswersGets(step.value.server, ready[1..]);
      }
    }
  }

  /** `run_next_process`: NULL initialises; LISTENING handles what `select` reports; SHUTDOWN does nothing. */
  function RunNextProcess(s: P.Server, ready: seq<ReadyEvent>): (r: Result<Handled, PyError>)
    requires P.Inv(s)
    ensures s.state.NullState? ==> r == Success(Handled(P.Init(s), []))
    ensures s.state.ShutdownState? ==> r == Success(Handled(s, []))
    ensures s.state.Listening? ==> r == ListenForConnection(s, ready)
    ensures r.Success? ==> P.Inv(r.value.server) && r.value.server.calculator == s.calculator
    ensures r.Success? ==> !r.value.server.state.ShutdownState? || s.state.ShutdownState?
  {
    match s.state
    case NullState => Success(Handled(P.Init(s), []))
    case ShutdownState => Success(Handled(s, []))
    case Listening => ListenForConnection(s, ready)
  }

  /** `run_processes`: advance the prime once, then `run_next_process`. */
  function RunProcesses(s: P.Server, ready: seq<ReadyEvent>): (r: Result<Handled, PyError>)
    requires P.Inv(s)
    ensures r == RunNextProcess(s.(calculator := FindNext(s.calculator)), ready)
    ensures r.Success? ==> P.Inv(r.value.server) && r.value.server.calculator == FindNext(s.calculator)
  {
    RunNextProcess(s.(calculator := FindNext(s.calculator)), ready)
  }

  /** `run`: one pass per `select` answer until the state is SHUTDOWN or the answers run out. */
  function Run(s: P.Server, answers: seq<seq<ReadyEvent>>): (r: Result<Handled, PyError>)
    requires P.Inv(s)
    ensures r.Success? ==> P.Inv(r.value.server)
    decreases |answers|
  {
    if s.state.ShutdownState? || |answers| == 0 then Success(Handled(s, []))
    else
      match RunProcesses(s, answers[0])
      case Failure(e) => Failure(e)
      case Success(pass) =>
        match Run(pass.server, answers[1..])
        case Failure(e) => Failure(e)
        case Success(out) => Success(Handled(out.server, pass.replies + out.replies))
  }

  /** As with the polling server, `shutdown` fails before it changes the state: the run never reaches SHUTDOWN. */
  lemma {:induction false} NeverShutsDown(s: P.Server, answers: seq<seq<ReadyEvent>>)
    requires P.Inv(s) && !s.state.ShutdownState?
    ensures Run(s, answers).Success? ==> !Run(s, answers).value.server.state.ShutdownState?
    decreases |answers|
  {
    if |answers| > 0 {
      var r := RunProcesses(s, answers[0]);
      if r.Success? {
        NeverShutsDown(r.value.server, answers[1..]);
      }
    }
  }
}
