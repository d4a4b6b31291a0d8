/**
 The first prime server (01): one client at a time, driven by a four-state
 machine. Every pass of the run loop first advances the prime calculator and
 then does the work of the current state.

 Sockets are abstract: the listening socket is a three-valued status, an
 accepted connection is numbered in order of acceptance, and what `recv`
 returns is taken from an inbox of messages supplied by the environment.
 `accept` blocks until a client arrives, so in the model it always succeeds.
 */
module SequentialServer {
  import opened Wrappers
  import opened Codec
  import opened Primes
  import opened Calculator
  import opened Connections

  datatype State = NullState | Listening | ClientConnected | ShutdownState

  datatype Event = Initialised | LostClient | NewClient | ShutdownEvt

  /** The current client connection, if one was ever accepted. */
  datatype Conn = NoConn | Conn(id: ConnId, open: bool)

  datatype Server = Server(state: State, calculator: Calculator, socket: Socket, conn: Conn, accepted: nat)

  /** `PrimeServer()`: no socket, no client, a fresh calculator. */
  function NewServer(): (s: Server)
    ensures s.state.NullState? && s.socket.NoSocket? && s.conn.NoConn? && s.accepted == 0
    ensures Valid(s.calculator) && s.calculator.currentPrime == 3
  {
    Server(NullState, New(), NoSocket, NoConn, 0)
  }

  /** `update_state`: the event alone decides the new state. */
  function UpdateState(s: State, e: Event): (s': State)
    ensures s'.Listening? <==> e.Initialised? || e.LostClient?
    ensures s'.ClientConnected? <==> e.NewClient?
    ensures s'.ShutdownState? <==> e.ShutdownEvt?
    ensures !s'.NullState?
  {
    match e
    case Initialised => Listening
    case NewClient => ClientConnected
    case LostClient => Listening
    case ShutdownEvt => ShutdownState
  }

  /** Every state is left behind by an event, and the same event always leads to the same state. */
  lemma UpdateStateIgnoresState(s: State, t: State, e: Event)
    ensures UpdateState(s, e) == UpdateState(t, e)
    ensures UpdateState(UpdateState(s, e), e) == UpdateState(s, e)
  {
  }

  /** What one pass does: the server afterwards and the reply sent, if any. */
  datatype Stepped = Stepped(server: Server, reply: Option<seq<byte>>)

  /** `init`: create and bind the socket, then INITIALISED_EVT. */
  function Init(s: Server): (r: Server)
    ensures r.state.Listening? && r.socket.Open?
    ensures r.calculator == s.calculator && r.conn == s.conn && r.accepted == s.accepted
  {
    s.(socket := Open, state := UpdateState(s.state, Initialised))
  }

  /** `listen_for_connection`: the blocking accept yields the next connection, then NEW_CLIENT_EVT. */
  function ListenForConnection(s: Server): (r: Server)
    ensures r.state.ClientConnected?
    ensures r.conn == Conn(s.accepted, true) && r.accepted == s.accepted + 1
    ensures r.calculator == s.calculator && r.socket == s.socket
  {
    s.(conn := Conn(s.accepted, true), accepted := s.accepted + 1,
       state := UpdateState(s.state, NewClient))
  }

  /** `shutdown`: close the client connection and the socket, then SHUTDOWN_EVT. */
  function Shutdown(s: Server): (r: Server)
    requires s.conn.Conn?
    ensures r.state.ShutdownState? && r.socket.Closed?
    ensures r.conn == s.conn.(open := false)
    ensures r.calculator == s.calculator && r.accepted == s.accepted
  {
    s.(conn := s.conn.(open := false), socket := Closed, state := UpdateState(s.state, ShutdownEvt))
  }

  /**
   `process_command`: shut down, send the latest prime as four big-endian bytes,
   or ignore an unknown command. A prime that does not fit four bytes makes
   `to_bytes` raise, which ends the server.
   */
  function ProcessCommand(s: Server, cmd: Command): (r: Result<Stepped, PyError>)
    requires Valid(s.calculator) && s.conn.Conn?
    ensures cmd.ShutdownCmd? ==> r == Success(Stepped(Shutdown(s), None))
    ensures cmd.UnknownCmd? ==> r == Success(Stepped(s, None))
    ensures cmd.GetPrimeCmd? ==> (r.Success? <==> s.calculator.currentPrime < 0x1_0000_0000)
    ensures cmd.GetPrimeCmd? && r.Success? ==>
      r.value.server == s && r.value.reply.Some? &&
      |r.value.reply.value| == REPLY_LEN && FromBytesBE(r.value.reply.value) == GetLatest(s.calculator)
    ensures r.Failure? ==> r.error == OverflowError
  {
    match cmd
    case ShutdownCmd => Success(Stepped(Shutdown(s), None))
    case GetPrimeCmd =>
      (match EncodeReply(GetLatest(s.calculator))
       case Success(bytes) => Success(Stepped(s, Some(bytes)))
       case Failure(e) => Failure(e))
    case UnknownCmd => Success(Stepped(s, None))
  }

  /** `serve_client`: an empty read means the client is gone (LOST_CLIENT_EVT); anything else is a command. */
  function ServeClient(s: Server, data: seq<byte>): (r: Result<Stepped, PyError>)
    requires Valid(s.calculator) && s.conn.Conn?
    ensures |data| == 0 ==> r == Success(Stepped(s.(state := Listening), None))
    ensures |data| > 0 ==> r == ProcessCommand(s, GetCommand(data))
  {
    if |data| == 0 then Success(Stepped(s.(state := UpdateState(s.state, LostClient)), None))
    else ProcessCommand(s, GetCommand(data))
  }

  /** Whether a state has a client connection to serve. */
  predicate Inv(s: Server) {
    Valid(s.calculator) && (s.state.ClientConnected? ==> s.conn.Conn?)
  }

  /**
   `run_state_process`: dispatch on the state. `data` is what `recv` returns and
   is only read in CLIENT_CONNECTED_STATE.
   */
  function RunStateProcess(s: Server, data: seq<byte>): (r: Result<Stepped, PyError>)
    requires Inv(s)
    ensures s.state.NullState? ==> r == Success(Stepped(Init(s), None))
    ensures s.state.Listening? ==> r == Success(Stepped(ListenForConnection(s), None))
    ensures s.state.ClientConnected? ==> r == ServeClient(s, data)
    ensures s.state.ShutdownState? ==> r == Success(Stepped(s, None))
    ensures r.Success? ==> Inv(r.value.server) && r.value.server.calculator == s.calculator
  {
    match s.state
    case NullState => Success(Stepped(Init(s), None))
    case Listening => Success(Stepped(ListenForConnection(s), None))
    case ClientConnected => ServeClient(s, data)
    case ShutdownState => Success(Stepped(s, None))
  }

  /** `run_process`: advance the prime once, then dispatch. */
  function RunProcess(s: Server, data: seq<byte>): (r: Result<Stepped, PyError>)
    requires Inv(s)
    ensures r == RunStateProcess(s.(calculator := FindNext(s.calculator)), data)
    ensures r.Success? ==> Inv(r.value.server) && r.value.server.calculator == FindNext(s.calculator)
  {
    RunStateProcess(s.(calculator := FindNext(s.calculator)), data)
  }

  /** Whether a pass in this state reads from the client. */
  predicate Reads(st: State) {
    st.ClientConnected?
  }

  /** Passes left before the next read: NULL needs two, LISTENING one. */
  function PassesToRead(st: State): nat {
    match st
    case NullState => 2
    case Listening => 1
    case ClientConnected => 0
    case ShutdownState => 0
  }

  /** What a run leaves behind: the server and every reply sent, in order. */
  datatype Outcome = Outcome(server: Server, replies: seq<seq<byte>>)

  /**
   `run`: `while state != SHUTDOWN_STATE: run_process()`. Each read takes the
   next message of `inbox`; the model stops when the client has nothing more
   to send (a real `recv` would block there).
   */
  function Run(s: Server, inbox: seq<seq<byte>>): (r: Result<Outcome, PyError>)
    requires Inv(s)
    ensures r.Success? ==> Inv(r.value.server)
    ensures r.Success? ==> r.value.server.state.ShutdownState? || r.value.server.state.ClientConnected?
    ensures s.state.ShutdownState? ==> r == Success(Outcome(s, []))
    ensures r.Failure? ==> r.error == OverflowError
    decreases |inbox|, PassesToRead(s.state)
  {
    if s.state.ShutdownState? then Success(Outcome(s, []))
    else if Reads(s.state) && |inbox| == 0 then Success(Outcome(s, []))
    else
      var data := if Reads(s.state) then inbox[0] else [];
      var rest := if Reads(s.state) then inbox[1..] else inbox;
      match RunProcess(s, data)
      case Failure(e) => Failure(e)
      case Success(step) =>
        match Run(step.server, rest)
        case Failure(e) => Failure(e)
        case Success(out) =>
          var mine := if step.reply.Some? then [step.reply.value] else [];
          Success(Outcome(out.server, mine + out.replies))
  }

  /** Once in SHUTDOWN_STATE the loop is over: nothing is read and nothing changes. */
  lemma NothingAfterShutdown(s: Server, inbox: seq<seq<byte>>)
    requires Inv(s) && s.state.ShutdownState?
    ensures Run(s, inbox) == Success(Outcome(s, []))
  {
  }

  /** The messages the server reads before it shuts down: everything up to and including the first `end`. */
  function UpToEnd(inbox: seq<seq<byte>>): (r: seq<seq<byte>>)
    ensures |r| <= |inbox| && r == inbox[..|r|]
    ensures forall i :: 0 <= i < |r| - 1 ==> r[i] != END_REQUEST
    ensures END_REQUEST in inbox <==> |r| > 0 && r[|r| - 1] == END_REQUEST
    ensures END_REQUEST !in inbox ==> r == inbox
  {
    if |inbox| == 0 then []
    else if inbox[0] == END_REQUEST then [inbox[0]]
    else
      var tail := UpToEnd(inbox[1..]);
      assert inbox == [inbox[0]] + inbox[1..];
      [inbox[0]] + tail
  }

  /** How many of the messages are exactly `get`. */
  function CountGets(msgs: seq<seq<byte>>): (n: nat)
    ensures n <= |msgs|
  {
    if |msgs| == 0 then 0
    else (if msgs[0] == GET_REQUEST then 1 else 0) + CountGets(msgs[1..])
  }

  /**
   A run from any live state ends in SHUTDOWN_STATE exactly when the client
   sends `end`, and it answers exactly the `get` requests sent before that.
   */
  lemma {:induction false} RunShutsDownExactlyOnEnd(s: Server, inbox: seq<seq<byte>>)
    requires Inv(s) && !s.state.ShutdownState?
    ensures Run(s, inbox).Success? ==>
      && (Run(s, inbox).value.server.state.ShutdownState? <==> END_REQUEST in inbox)
      && |Run(s, inbox).value.replies| == CountGets(UpToEnd(inbox))
    decreases |inbox|, PassesToRead(s.state)
  {
    var r := Run(s, inbox);
    if r.Success? {
      if Reads(s.state) && |inbox| > 0 {
        var step := RunProcess(s, inbox[0]);
        assert inbox == [inbox[0]] + inbox[1..];
        if inbox[0] == END_REQUEST {
          assert step.value.server.state.ShutdownState?;
        } else {
          assert !step.value.server.state.ShutdownState?;
          RunShutsDownExactlyOnEnd(step.value.server, inbox[1..]);
        }
      } else if !Reads(s.state) {
        var step := RunProcess(s, []);
        RunShutsDownExactlyOnEnd(step.value.server, inbox);
      }
    }
  }

  /** Every reply is four bytes that decode to a prime larger than the one the run started from. */
  lemma {:induction false} RepliesAreLaterPrimes(s: Server, inbox: seq<seq<byte>>)
    requires Inv(s)
    ensures Run(s, inbox).Success? ==>
      forall i :: 0 <= i < |Run(s, inbox).value.replies| ==>
        |Run(s, inbox).value.replies[i]| == REPLY_LEN &&
        FromBytesBE(Run(s, inbox).value.replies[i]) > s.calculator.currentPrime &&
        Prime(FromBytesBE(Run(s, inbox).value.replies[i]))
    decreases |inbox|, PassesToRead(s.state)
  {
    var r := Run(s, inbox);
    if r.Success? && !s.state.ShutdownState? && !(Reads(s.state) && |inbox| == 0) {
      var data := if Reads(s.state) then inbox[0] else [];
      var rest := if Reads(s.state) then inbox[1..] else inbox;
      var step := RunProcess(s, data).value;
      var next := FindNext(s.calculator);
      RepliesAreLaterPrimes(step.server, rest);
      var p := GetLatest(next);
    }
  }
}
