/**
 The asyncio prime server class (`PrimeServerAsync` of 05, 08_shutdown and
 step_09). One accept loop spawns a task per client, and each client task
 reads commands until the client goes away.

 The 05 version asks its own `PrimeCalculator` for the prime, has no task
 registry and no `try` around the client loop. The 08_shutdown and step_09
 versions are the same as each other: they send the shared prime cell, keep
 a registry of client tasks, catch any exception in a client task, and always
 close the connection in `finally`.

 The event loop, the sockets and real cancellation are abstract: what a
 client sends is an input, a task is an identifier with a name, and a
 cancelled task is recorded as asked to cancel.
 */
module AsyncServer {
  import opened Wrappers
  import opened Codec
  import opened Connections
  import opened Calculator

  datatype State = NullState | Running | ShutdownState

  datatype Event = Initialised | ShutdownEvt

  /** Which lesson's server class: 05, or the later 08_shutdown / step_09 one. */
  datatype Version = Early | Later

  type TaskId = nat

  /**
   The server object: its state, its listening socket, the task registry
   (task to name), the next fresh task identifier and the tasks asked to cancel.
   */
  datatype Server = Server(state: State, socket: Socket, tasks: map<TaskId, string>,
                           nextTask: TaskId, cancelled: set<TaskId>)

  /** Every registered task has an identifier below the next fresh one. */
  predicate Inv(s: Server) {
    forall t :: t in s.tasks ==> t < s.nextTask
  }

  /** `PrimeServerAsync()`: NULL_STATE, no socket and an empty registry. */
  function NewServer(): (s: Server)
    ensures s.state.NullState? && s.socket.NoSocket? && s.tasks == map[] && s.cancelled == {}
    ensures Inv(s)
  {
    Server(NullState, NoSocket, map[], 0, {})
  }

  /** `update_state`: each event names its target state. */
  function UpdateState(s: State, e: Event): (s': State)
    ensures s'.Running? <==> e.Initialised?
    ensures s'.ShutdownState? <==> e.ShutdownEvt?
    ensures !s'.NullState?
  {
    match e
    case Initialised => Running
    case ShutdownEvt => ShutdownState
  }

  /** The event alone decides the state, so repeating SHUTDOWN_EVT changes nothing. */
  lemma UpdateStateIgnoresState(s: State, t: State, e: Event)
    ensures UpdateState(s, e) == UpdateState(t, e)
    ensures UpdateState(UpdateState(s, ShutdownEvt), ShutdownEvt) == UpdateState(s, ShutdownEvt)
  {
  }

  /** `init`: create and set up the listening socket, then INITIALISED_EVT. */
  function Init(s: Server): (r: Server)
    ensures r.state.Running? && r.socket.Open?
    ensures r.tasks == s.tasks && r.cancelled == s.cancelled && r.nextTask == s.nextTask
  {
    s.(socket := Open, state := UpdateState(s.state, Initialised))
  }

  /** A new server after `init` is running. */
  lemma NewServerInitRuns()
    ensures Init(NewServer()).state.Running? && Init(NewServer()).tasks == map[]
  {
  }

  /** `add_task`: register a task under its name; nothing else in the registry changes. */
  function AddTask(s: Server, name: string): (r: Server)
    requires Inv(s)
    ensures Inv(r)
    ensures s.nextTask !in s.tasks
    ensures r.tasks == s.tasks[s.nextTask := name] && r.nextTask == s.nextTask + 1
    ensures r.state == s.state && r.socket == s.socket && r.cancelled == s.cancelled
  {
    s.(tasks := s.tasks[s.nextTask := name], nextTask := s.nextTask + 1)
  }

  /** The done callback `self.tasks.discard`: drop a finished task, if registered. */
  function TaskDone(s: Server, t: TaskId): (r: Server)
    requires Inv(s)
    ensures Inv(r)
    ensures r.tasks.Keys == s.tasks.Keys - {t}
    ensures forall u :: u in r.tasks ==> r.tasks[u] == s.tasks[u]
    ensures r.state == s.state && r.socket == s.socket && r.nextTask == s.nextTask
  {
    s.(tasks := s.tasks - {t})
  }

  /** A task that is added and then finishes leaves the registry exactly as it was. */
  lemma AddThenDoneRestores(s: Server, name: string)
    requires Inv(s)
    ensures TaskDone(AddTask(s, name), s.nextTask).tasks == s.tasks
  {
    var r := TaskDone(AddTask(s, name), s.nextTask).tasks;
    assert r.Keys == s.tasks.Keys;
  }

  /** The decimal digits of `n`, as `f"{n}"` prints them. */
  function DecimalString(n: nat): (s: string)
    ensures |s| > 0 && forall i :: 0 <= i < |s| ==> '0' <= s[i] <= '9'
    decreases n
  {
    var last := ['0' + (n % 10) as char];
    if n < 10 then last else DecimalString(n / 10) + last
  }

  /** Different numbers print differently. */
  lemma {:induction false} DecimalStringInjective(m: nat, n: nat)
    requires DecimalString(m) == DecimalString(n)
    ensures m == n
    decreases m
  {
    var sm, sn := DecimalString(m), DecimalString(n);
    assert sm[|sm| - 1] == sn[|sn| - 1];
    if m >= 10 && n >= 10 {
      assert sm[..|sm| - 1] == DecimalString(m / 10);
      assert sn[..|sn| - 1] == DecimalString(n / 10);
      DecimalStringInjective(m / 10, n / 10);
    }
  }

  /** The name a client task gets: `client-` and the registry size at spawn time. */
  function ClientTaskName(registered: nat): (name: string)
    ensures |name| > 7 && name[..7] == "client-"
    ensures forall i :: 7 <= i < |name| ==> '0' <= name[i] <= '9'
  {
    "client-" + DecimalString(registered)
  }

  /**
   `process_new_client`: spawn the client task, named after the registry
   size, and register it (the 05 version registers nothing).
   */
  function ProcessNewClient(v: Version, s: Server): (r: Server)
    requires Inv(s)
    ensures Inv(r)
    ensures v.Early? ==> r == s
    ensures v.Later? ==> r.tasks == s.tasks[s.nextTask := ClientTaskName(|s.tasks|)] &&
                         r.nextTask == s.nextTask + 1 && |r.tasks| == |s.tasks| + 1
    ensures r.state == s.state && r.socket == s.socket && r.cancelled == s.cancelled
  {
    if v.Early? then s else AddTask(s, ClientTaskName(|s.tasks|))
  }

  /**
   Names are taken from the current registry size, so once a task has finished
   a new client can get a name already in use: two clients, the first leaves,
   a third arrives and is named `client-1` again.
   */
  lemma ClientNamesCanRepeat()
    ensures var s1 := ProcessNewClient(Later, ProcessNewClient(Later, Init(NewServer())));
      var s2 := ProcessNewClient(Later, TaskDone(s1, 0));
      s2.tasks[1] == s2.tasks[2] == ClientTaskName(1)
  {
    var s1 := ProcessNewClient(Later, ProcessNewClient(Later, Init(NewServer())));
    assert s1.tasks.Keys == {0, 1};
    var s2 := ProcessNewClient(Later, TaskDone(s1, 0));
    assert TaskDone(s1, 0).tasks.Keys == {1};
  }

  /** `close_server_connection` (05: `shutdown`): close the listening socket, then SHUTDOWN_EVT. */
  function CloseServerConnection(s: Server): (r: Server)
    ensures r.state.ShutdownState? && r.socket.Closed?
    ensures r.tasks == s.tasks && r.cancelled == s.cancelled && r.nextTask == s.nextTask
  {
    s.(socket := Closed, state := UpdateState(s.state, ShutdownEvt))
  }

  /** `cancel`: close the server connection and ask every registered task to cancel. */
  function Cancel(s: Server): (r: Server)
    ensures r.state.ShutdownState? && r.socket.Closed?
    ensures r.cancelled == s.cancelled + s.tasks.Keys
    ensures r.tasks == s.tasks && r.nextTask == s.nextTask
  {
    var closed := CloseServerConnection(s);
    closed.(cancelled := closed.cancelled + closed.tasks.Keys)
  }

  /** Cancelling twice is cancelling once. */
  lemma CancelIdempotent(s: Server)
    ensures Cancel(Cancel(s)) == Cancel(s)
  {
  }

  /** What handling one message does: the server afterwards, whether to keep reading, and the reply. */
  datatype Handled = Handled(server: Server, keepReading: bool, reply: Option<seq<byte>>)

  /**
   `process_command`: `end` closes the server connection, `get` sends `prime`
   (the calculator's prime in 05, the shared cell later) as four big-endian
   bytes, anything else is ignored.
   */
  function ProcessCommand(s: Server, cmd: Command, prime: int): (r: Result<(Server, Option<seq<byte>>), PyError>)
    ensures cmd.ShutdownCmd? ==> r == Success((CloseServerConnection(s), None))
    ensures cmd.UnknownCmd? ==> r == Success((s, None))
    ensures cmd.GetPrimeCmd? ==> (r.Success? <==> 0 <= prime < 0x1_0000_0000)
    ensures cmd.GetPrimeCmd? && r.Success? ==>
      r.value.0 == s && r.value.1.Some? && |r.value.1.value| == REPLY_LEN && FromBytesBE(r.value.1.value) == prime
    ensures r.Failure? ==> r.error == OverflowError
  {
    match cmd
    case ShutdownCmd => Success((CloseServerConnection(s), None))
    case GetPrimeCmd =>
      (match EncodeReply(prime)
       case Success(bytes) => Success((s, Some(bytes)))
       case Failure(e) => Failure(e))
    case UnknownCmd => Success((s, None))
  }

  /**
   `process_client_data`: an empty read means the client is lost (False);
   anything else is processed and the loop goes on (True), whatever the command.
   */
  function ProcessClientData(s: Server, data: seq<byte>, prime: int): (r: Result<Handled, PyError>)
    ensures |data| == 0 <==> r.Success? && !r.value.keepReading
    ensures |data| == 0 ==> r == Success(Handled(s, false, None))
    ensures |data| > 0 ==> (r.Failure? <==> ProcessCommand(s, GetCommand(data), prime).Failure?)
    ensures |data| > 0 && r.Success? ==>
      var p := ProcessCommand(s, GetCommand(data), prime).value;
      r.value == Handled(p.0, true, p.1)
  {
    if |data| == 0 then Success(Handled(s, false, None))
    else
      match ProcessCommand(s, GetCommand(data), prime)
      case Failure(e) => Failure(e)
      case Success((s', reply)) => Success(Handled(s', true, reply))
  }

  /** An `end` shuts the server down, yet the client's own loop keeps reading. */
  lemma EndKeepsClientLoop(s: Server, prime: int)
    ensures ProcessClientData(s, END_REQUEST, prime) == Success(Handled(CloseServerConnection(s), true, None))
  {
    GetCommandInvertsRequest(ShutdownCmd);
  }

  /** A message read by a client task, with the prime the server would send at that moment. */
  datatype Incoming = Incoming(data: seq<byte>, prime: int)

  /** Why a client task's loop ended, or that it is still waiting for input. */
  datatype SessionEnd = Lost | Crashed(error: PyError) | Waiting

  /** What a client task did: server afterwards, replies, messages read, why it ended, whether it closed its socket. */
  datatype Session = Session(server: Server, replies: seq<seq<byte>>, read: nat, end: SessionEnd, closed: bool)

  /**
   `process_client`: read and handle messages until `process_client_data`
   returns False. An exception ends the loop too: 05 lets it escape without
   closing the connection; the later versions log it and close in `finally`.
   */
  function ProcessClient(v: Version, s: Server, inbox: seq<Incoming>): (r: Session)
    ensures r.read <= |inbox|
    ensures r.end.Waiting? ==> r.read == |inbox| && !r.closed
    ensures r.end.Lost? ==> r.closed
    ensures r.end.Crashed? ==> r.read > 0 && r.end.error == OverflowError && (r.closed <==> v.Later?)
    decreases |inbox|
  {
    if |inbox| == 0 then Session(s, [], 0, Waiting, false)
    else
      match ProcessClientData(s, inbox[0].data, inbox[0].prime)
      case Failure(e) => Session(s, [], 1, Crashed(e), v.Later?)
      case Success(h) =>
        if !h.keepReading then Session(h.server, [], 1, Lost, true)
        else
          var rest := ProcessClient(v, h.server, inbox[1..]);
          var mine := if h.reply.Some? then [h.reply.value] else [];
          Session(rest.server, mine + rest.replies, rest.read + 1, rest.end, rest.closed)
  }

  /**
   The client loop ends as lost exactly at the first empty message when no
   error comes first: every earlier message is non-empty, and a session that
   never sees an empty message or an error reads everything.
   */
  lemma {:induction false} ProcessClientStopsOnEmpty(v: Version, s: Server, inbox: seq<Incoming>)
    ensures var r := ProcessClient(v, s, inbox);
      && (forall i :: 0 <= i < r.read - 1 ==> |inbox[i].data| > 0)
      && (r.end.Lost? ==> r.read > 0 && |inbox[r.read - 1].data| == 0)
      && (r.read > 0 && |inbox[r.read - 1].data| == 0 ==> r.end.Lost?)
    decreases |inbox|
  {
    if |inbox| > 0 {
      var h := ProcessClientData(s, inbox[0].data, inbox[0].prime);
      if h.Success? && h.value.keepReading {
        ProcessClientStopsOnEmpty(v, h.value.server, inbox[1..]);
        var r := ProcessClient(v, s, inbox);
        forall i | 0 <= i < r.read - 1
          ensures |inbox[i].data| > 0
        {
          if i > 0 {
            assert inbox[i] == inbox[1..][i - 1];
          }
        }
        if r.read > 1 {
          assert inbox[r.read - 1] == inbox[1..][r.read - 2];
        }
      }
    }
  }

  /** The values the client reads back from a list of replies. */
  function Decoded(replies: seq<seq<byte>>): (vs: seq<nat>)
    ensures |vs| == |replies|
  {
    if |replies| == 0 then [] else [FromBytesBE(replies[0])] + Decoded(replies[1..])
  }

  lemma {:induction false} DecodedAppend(a: seq<seq<byte>>, b: seq<seq<byte>>)
    ensures Decoded(a + b) == Decoded(a) + Decoded(b)
    decreases |a|
  {
    if |a| > 0 {
      assert (a + b)[1..] == a[1..] + b;
      DecodedAppend(a[1..], b);
    } else {
      assert a + b == b;
    }
  }

  lemma TakeCons(xs: seq<Incoming>, n: nat)
    requires n < |xs|
    ensures xs[..n + 1] == [xs[0]] + xs[1..][..n]
  {
  }

  /** The primes current at each `get` among `msgs`, in order. */
  function AskedPrimes(msgs: seq<Incoming>): seq<int> {
    if |msgs| == 0 then []
    else (if msgs[0].data == GET_REQUEST then [msgs[0].prime] else []) + AskedPrimes(msgs[1..])
  }

  /** One message's reply, if any: it exists only for `get`, and it encodes the prime current then. */
  lemma OneReply(s: Server, m: Incoming)
    requires ProcessClientData(s, m.data, m.prime).Success?
    ensures var h := ProcessClientData(s, m.data, m.prime).value;
      var mine := if h.reply.Some? then [h.reply.value] else [];
      (forall k :: 0 <= k < |mine| ==> |mine[k]| == REPLY_LEN) &&
      Decoded(mine) == (if m.data == GET_REQUEST then [m.prime] else [])
  {
    GetCommandInvertsRequest(GetPrimeCmd);
  }

  /** The reply to the first message, as a list of zero or one replies. */
  function FirstReplies(s: Server, m: Incoming): seq<seq<byte>>
    requires ProcessClientData(s, m.data, m.prime).Success?
  {
    var h := ProcessClientData(s, m.data, m.prime).value;
    if h.reply.Some? then [h.reply.value] else []
  }

  /** A client loop that goes on after its first message is that message followed by the rest of the loop. */
  lemma ProcessClientUnfold(v: Version, s: Server, inbox: seq<Incoming>)
    requires |inbox| > 0
    requires ProcessClientData(s, inbox[0].data, inbox[0].prime).Success?
    requires ProcessClientData(s, inbox[0].data, inbox[0].prime).value.keepReading
    ensures var h := ProcessClientData(s, inbox[0].data, inbox[0].prime).value;
      var rest := ProcessClient(v, h.server, inbox[1..]);
      ProcessClient(v, s, inbox) ==
        Session(rest.server, FirstReplies(s, inbox[0]) + rest.replies, rest.read + 1, rest.end, rest.closed)
  {
  }

  /** Every reply a client receives is four bytes long. */
  lemma {:induction false} RepliesAreFourBytes(v: Version, s: Server, inbox: seq<Incoming>)
    ensures var r := ProcessClient(v, s, inbox);
      forall k :: 0 <= k < |r.replies| ==> |r.replies[k]| == REPLY_LEN
    decreases |inbox|
  {
    if |inbox| > 0 {
      var h := ProcessClientData(s, inbox[0].data, inbox[0].prime);
      if h.Success? && h.value.keepReading {
        OneReply(s, inbox[0]);
        ProcessClientUnfold(v, s, inbox);
        RepliesAreFourBytes(v, h.value.server, inbox[1..]);
      }
    }
  }

  /** What a client has been answered: the replies decode to the primes asked for, up to the last message answered. */
  predicate AnswersGets(inbox: seq<Incoming>, r: Session) {
    var answered := if r.end.Crashed? then r.read - 1 else r.read;
    0 <= answered <= |inbox| && Decoded(r.replies) == AskedPrimes(inbox[..answered])
  }

  /**
   A client receives, in order, exactly the prime current at each `get` it
   sent (and, by `RepliesAreFourBytes`, each as four bytes).
   */
  lemma {:induction false} RepliesAnswerGets(v: Version, s: Server, inbox: seq<Incoming>)
    ensures AnswersGets(inbox, ProcessClient(v, s, inbox))
    decreases |inbox|
  {
    if |inbox| > 0 {
      var h := ProcessClientData(s, inbox[0].data, inbox[0].prime);
      if h.Success? && h.value.keepReading {
        RepliesAnswerGets(v, h.value.server, inbox[1..]);
        AnswersGetsStep(v, s, inbox);
      } else if h.Success? {
        assert inbox[..1] == [inbox[0]];
      }
    }
  }

  /** The inductive step: answering the first message and then the rest answers the whole. */
  lemma AnswersGetsStep(v: Version, s: Server, inbox: seq<Incoming>)
    requires |inbox| > 0
    requires ProcessClientData(s, inbox[0].data, inbox[0].prime).Success?
    requires ProcessClientData(s, inbox[0].data, inbox[0].prime).value.keepReading
    requires AnswersGets(inbox[1..], ProcessClient(v, ProcessClientData(s, inbox[0].data, inbox[0].prime).value.server, inbox[1..]))
    ensures AnswersGets(inbox, ProcessClient(v, s, inbox))
  {
    var h := ProcessClientData(s, inbox[0].data, inbox[0].prime).value;
    OneReply(s, inbox[0]);
    ProcessClientUnfold(v, s, inbox);
    var rest := ProcessClient(v, h.server, inbox[1..]);
    DecodedAppend(FirstReplies(s, inbox[0]), rest.replies);
    var answered := if rest.end.Crashed? then rest.read - 1 else rest.read;
    TakeCons(inbox, answered);
  }

  /** A client task crashes only on a `get` whose prime does not fit four unsigned bytes. */
  lemma {:induction false} CrashOnlyOnWideGet(v: Version, s: Server, inbox: seq<Incoming>)
    ensures var r := ProcessClient(v, s, inbox);
      r.end.Crashed? ==>
        inbox[r.read - 1].data == GET_REQUEST && !(0 <= inbox[r.read - 1].prime < 0x1_0000_0000)
    decreases |inbox|
  {
    if |inbox| > 0 {
      var h := ProcessClientData(s, inbox[0].data, inbox[0].prime);
      GetCommandInvertsRequest(GetPrimeCmd);
      if h.Success? && h.value.keepReading {
        ProcessClientUnfold(v, s, inbox);
        var rest := ProcessClient(v, h.value.server, inbox[1..]);
        CrashOnlyOnWideGet(v, h.value.server, inbox[1..]);
        if rest.end.Crashed? {
          assert inbox[1..][rest.read - 1] == inbox[rest.read];
        }
      }
    }
  }

  /** What the accept loop sees happen while it waits: a client arrives, a client sends `end`, or `cancel` runs. */
  datatype LoopEvent = ClientArrives | ClientSendsEnd | CancelCalled

  /** How many events the accept loop handles before the state is SHUTDOWN. */
  function EventsBeforeShutdown(events: seq<LoopEvent>): (n: nat)
    ensures n <= |events|
    ensures forall i :: 0 <= i < n ==> events[i].ClientArrives?
    ensures n < |events| ==> !events[n].ClientArrives?
  {
    if |events| == 0 || !events[0].ClientArrives? then 0 else 1 + EventsBeforeShutdown(events[1..])
  }

  /**
   `run_networking`: `while state != SHUTDOWN_STATE` accept a client and spawn
   its task; the later versions close the listening socket after the loop. The
   state is set to SHUTDOWN by a client task or by `cancel`, which run
   between accepts; the model stops when `events` runs out.
   */
  function RunNetworking(v: Version, s: Server, events: seq<LoopEvent>): (r: Server)
    requires Inv(s)
    ensures Inv(r)
    ensures s.state.ShutdownState? ==> r.state.ShutdownState? && r.tasks == s.tasks
    decreases |events|
  {
    if s.state.ShutdownState? then (if v.Later? then s.(socket := Closed) else s)
    else if |events| == 0 then s
    else
      var s' := match events[0]
        case ClientArrives => ProcessNewClient(v, s)
        case ClientSendsEnd => CloseServerConnection(s)
        case CancelCalled => Cancel(s);
      RunNetworking(v, s', events[1..])
  }

  /**
   The accept loop stops at the first shutdown: it spawns exactly one task per
   client arriving before it, none after, and ends in SHUTDOWN_STATE with the
   socket closed exactly when a shutdown came.
   */
  lemma {:induction false} AcceptLoopStopsAtShutdown(s: Server, events: seq<LoopEvent>)
    requires Inv(s) && s.state.Running?
    ensures var r := RunNetworking(Later, s, events);
      var n := EventsBeforeShutdown(events);
      && |r.tasks| == |s.tasks| + n
      && r.nextTask == s.nextTask + n
      && (r.state.ShutdownState? <==> n < |events|)
      && (n < |events| ==> r.socket.Closed?)
    decreases |events|
  {
    if |events| > 0 {
      match events[0]
      case ClientArrives =>
        AcceptLoopStopsAtShutdown(ProcessNewClient(Later, s), events[1..]);
      case ClientSendsEnd =>
      case CancelCalled =>
    }
  }

  // ---------------------------------------------------------------------------
  // The 05 prime search coroutine

  /** How many checks of `state != SHUTDOWN_STATE` pass before the first that fails. */
  function RunningChecks(states: seq<State>): (n: nat)
    ensures n <= |states|
    ensures forall i :: 0 <= i < n ==> !states[i].ShutdownState?
    ensures n < |states| ==> states[n].ShutdownState?
  {
    if |states| == 0 || states[0].ShutdownState? then 0 else 1 + RunningChecks(states[1..])
  }

  /**
   `run_prime_search` of 05: while the state is not SHUTDOWN, advance the
   calculator once (after the `sleep`). `states` is what the checks see.
   */
  function RunPrimeSearch(c: Calculator, states: seq<State>): (r: Calculator)
    requires Valid(c)
    ensures Valid(r) && r == Advance(c, RunningChecks(states))
    decreases |states|
  {
    if |states| == 0 || states[0].ShutdownState? then c
    else
      var next := FindNext(c);
      AdvanceShift(c, RunningChecks(states[1..]));
      RunPrimeSearch(next, states[1..])
  }

  /** Once a check sees SHUTDOWN, later states change nothing: the search has stopped. */
  lemma {:induction false} PrimeSearchStopsAtShutdown(c: Calculator, states: seq<State>, more: seq<State>)
    requires Valid(c) && RunningChecks(states) < |states|
    ensures RunPrimeSearch(c, states + more) == RunPrimeSearch(c, states)
    decreases |states|
  {
    if !states[0].ShutdownState? {
      assert (states + more)[1..] == states[1..] + more;
      PrimeSearchStopsAtShutdown(FindNext(c), states[1..], more);
    }
  }
}
