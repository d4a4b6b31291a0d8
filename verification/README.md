# Prime server series, modelled in Dafny

This project models the sequential logic of a series of small Python prime-number
servers. The series has a blocking server (01), a polling server (03), a
selector server (04), an asyncio server (05, 08_shutdown, step_09), and a
prime-search worker in a separate process (07_cpu_bound, 08_shutdown, step_09).
It also models the two sequential clients and the selector demo's
`event_to_str`. Each server answers `get` with the latest prime as four
big-endian bytes. On `end` it tries to shut down.

The model is functional. Every entity is an immutable datatype, and every
operation is a pure function from one state to the next. Anything that comes
from outside is an input to the model:

- what a socket `recv` returns;
- what `select` reports;
- the values of the shared run flag that the worker's loop checks;
- the order of events around the accept loop.

Modules, one per component:

| module | what it covers |
|---|---|
| `Wrappers` | `Option`, `Result`, and the Python exceptions the code can raise |
| `Codec` | `get_command`, `int.to_bytes(4, 'big')`, `int.from_bytes(…, 'big')`, the C `int` cell |
| `Primes` | `is_prime` (trial division from 3 up to the integer square root) and the number theory around it |
| `Calculator` | `PrimeCalculator`: `__init__`, `find_next`, `get_latest` |
| `SharedState` | the shared prime cell and run flag: `init_shares`, `set_running_to_false`, `is_running` |
| `Worker` | the prime-search loops (flag-driven and bounded) and the two cpu-only `shutdown` handlers |
| `Connections` | the servers' `connections` list (`append`, `remove`) |
| `SequentialServer` | the 4-state blocking server of 01 |
| `PollingServer` | the polling server of 03 |
| `SelectorServer` | the selector server of 04 |
| `SelectorRegistry` | the 04 selector's registrations by file descriptor, as written and as intended |
| `AsyncServer` | `PrimeServerAsync` of 05, 08_shutdown and step_09, and the 05 `run_prime_search` coroutine |
| `Coordinator` | the SIGINT shutdown: module-level `shutdown` of 08_shutdown, and the step_09 `shutdown` helpers in `server_async.py` and `prime_app.py` |
| `EventText` | `event_to_str` |
| `Clients` | the 01 and step_09 clients, and their sessions against the servers |

Behaviour worth knowing, where the code differs from what one would expect of
a prime server (a prime in the cell from the start, an unsigned value, `end`
stopping everything); the model follows the code:

- The shared prime cell starts at 0, not at a prime. A `get` that comes before
  the worker's first write is answered with 0 (`SharedState.InitShares`).
- The cell is a signed C `int` (`Value('i', …)`), not an unsigned 32-bit value.
  Writes wrap modulo 2^32, and `to_bytes` raises `OverflowError` for a
  negative value.
- A client's `end` in the asyncio server only closes the listening socket and
  sets SHUTDOWN_STATE. It does not clear the run flag or cancel any task, and
  that client's loop keeps reading (`AsyncServer.EndKeepsClientLoop`).
- The SIGINT sequence sets SHUTDOWN_STATE in its second step (`server.cancel()`),
  not last. It also cancels the client tasks before the pause and the worker
  task after it.
- In 03 and 04, `end` reaches `shutdown`, which calls `close()` on a Python
  list. That raises `AttributeError` before the state changes, so these servers
  never reach SHUTDOWN_STATE.
- `is_prime` never tests divisor 2, so `is_prime(4)` holds. The test means
  "prime" only for odd numbers, and the calculator only asks it about odd ones.

## Model

All source paths are under `topics/asyncio/`.

| member | source | states |
|---|---|---|
| Codec.GetCommand | topics/asyncio/step_09/prime_server_async.py:157-164 | exactly `end` decodes to SHUTDOWN_CMD and exactly `get` to GET_PRIME_CMD, both as if-and-only-if |
| Codec.GetCommandInvertsRequest | topics/asyncio/01/server-sequencial.py:129-136 | decoding the request bytes a client sends for `get` or `end` gives back that command |
| Codec.UnknownIsEverythingElse | topics/asyncio/05/server_async.py:141-148 | a message is UNKNOWN_CMD iff it is neither request; every message whose length is not 3 is unknown |
| Codec.FromBytesBE | topics/asyncio/step_09/client_sequential.py:39-40 | an n-byte big-endian value is below 256^n |
| Codec.ToBytesBE | topics/asyncio/step_09/prime_server_async.py:189-191 | `to_bytes(n, 'big')` succeeds iff 0 <= v < 256^n; the result has n bytes and decodes back to v; otherwise it is OverflowError |
| Codec.DigitsRoundTrip | topics/asyncio/step_09/prime_server_async.py:189-191 | decoding the n big-endian digits of v gives v (decode after encode) |
| Codec.FromBytesRoundTrip | topics/asyncio/step_09/client_sequential.py:39-40 | re-encoding a decoded byte string at its own width gives it back (encode after decode) |
| Codec.EncodeReply | topics/asyncio/08_shutdown/server_async.py:199-201 | a reply succeeds iff 0 <= val < 2^32; it is 4 bytes that decode to val; otherwise it is OverflowError |
| Codec.ReplyDecodeEncode | topics/asyncio/step_09/client_sequential.py:37-41 | every 4-byte reply is the server encoding of the value the client decodes from it |
| Codec.WrapI32 | topics/asyncio/step_09/prime_calculator.py:43-45 | a value written to the `Value('i')` cell lands in the C `int` range and is congruent to it modulo 2^32 |
| Codec.WrapI32InRange | topics/asyncio/07_cpu_bound/server_cpu_only.py:28-29 | a value already in the C `int` range is stored unchanged |
| Primes.Isqrt | topics/asyncio/05/prime_calculator.py:18 | the integer square root r satisfies r*r <= n < (r+1)*(r+1) |
| Primes.TrialDivision | topics/asyncio/05/prime_calculator.py:16-23 | the loop with early `break` returns True iff no divisor in 3..isqrt(n) divides n |
| Primes.TrialDivisionRange | topics/asyncio/05/prime_calculator.py:18-19 | the trial predicate tests exactly the divisors of `range(3, isqrt(n) + 1)` |
| Primes.IsPrimeIffPrime | topics/asyncio/step_09/prime_calculator.py:31-38 | for odd n >= 3, `is_prime(n)` is exactly mathematical primality, in both directions |
| Primes.FourPassesTrialDivision | topics/asyncio/05/prime_calculator.py:18-19 | divisor 2 is never tried: `is_prime(4)` holds although 4 is not prime |
| Primes.OddTrialPrimeAbove | topics/asyncio/05/prime_calculator.py:10-14 | above every number there is an odd number that passes `is_prime`, so the search loop ends |
| Calculator.New | topics/asyncio/05/prime_calculator.py:3-4 | a fresh calculator holds 3 and satisfies the calculator invariant |
| Calculator.GetLatest | topics/asyncio/05/prime_calculator.py:25-26 | `get_latest` of a valid calculator is an odd true prime >= 3 |
| Calculator.SearchFirstHit | topics/asyncio/05/prime_calculator.py:10-14 | the step-by-2 search returns a value passing `is_prime`, and no odd value it passed over passes |
| Calculator.FindNext | topics/asyncio/05/prime_calculator.py:6-14 | `find_next` leaves an odd prime strictly greater than before and keeps the invariant |
| Calculator.FindNextFirstHit | topics/asyncio/05/prime_calculator.py:10-14 | the new prime passes `is_prime`, and no odd number strictly between the old and new prime does |
| Calculator.FindNextIsNextPrime | topics/asyncio/step_09/prime_calculator.py:19-27 | the new value is a true prime and no prime lies strictly between the old and new values |
| Calculator.AdvanceIncreasing | topics/asyncio/step_09/prime_calculator.py:10-17 | more `find_next` calls give a strictly larger prime |
| Calculator.NextPrimesIncreasing | topics/asyncio/07_cpu_bound/server_cpu_only.py:25-31 | the primes found by successive calls are strictly increasing and above the start |
| Calculator.NextPrimesArePrimes | topics/asyncio/08_shutdown/server_cpu_only_oddity.py:27-31 | every prime found by successive calls is a true prime |
| Calculator.NextPrimesSkipNone | topics/asyncio/05/prime_calculator.py:6-14 | successive calls skip no prime |
| Calculator.FirstPrimes | topics/asyncio/05/prime_calculator.py:3-14 | from a fresh calculator, the first three calls give 5, 7 and 11 |
| SharedState.InitShares | topics/asyncio/step_09/server_async.py:110-112 | `init_shares` sets running to 1 and prime to 0, and 0 is sent as four zero bytes |
| SharedState.SetRunningToFalse | topics/asyncio/step_09/server_async.py:71-74 | afterwards running == 0 and `is_running` is false; the prime is untouched |
| SharedState.StorePrime | topics/asyncio/08_shutdown/server_cpu_only.py:27-28 | a locked write keeps the flag; it stores v when v fits a C `int`, and v wrapped modulo 2^32 otherwise |
| Worker.FindNextAndPublish | topics/asyncio/step_09/prime_calculator.py:19-29 | the calculator moves as 05's `find_next`; the cell then holds `get_latest()` whenever it fits a C `int` |
| Worker.SetNextPrime | topics/asyncio/step_09/prime_calculator.py:47-48 | `set_next_prime` moves to `find_next`'s prime and writes it to the cell; the flag is unchanged |
| Worker.RunLoop | topics/asyncio/08_shutdown/server_cpu_only.py:24-31 | one publication per passing flag check, none from the first failing check on; the flag itself is never written |
| Worker.RunLoopPublishes | topics/asyncio/08_shutdown/server_cpu_only.py:26-28 | the publications are the C `int` images of the successive primes, and the calculator ends that many `find_next` calls on |
| Worker.RunLoopLastValue | topics/asyncio/08_shutdown/server_cpu_only.py:27-28 | after the loop the cell holds the last value published, or its old value when none was |
| Worker.Run | topics/asyncio/step_09/prime_calculator.py:10-17 | `run` publishes exactly once per check that sees running == 1 before the first that does not |
| Worker.NothingAfterStop | topics/asyncio/step_09/server_async.py:24-28 | once a check stops the loop, later flag values change nothing |
| Worker.PublishedArePrimesFound | topics/asyncio/08_shutdown/server_cpu_only.py:24-29 | while the primes fit a C `int`, the cell receives exactly the primes found, in order |
| Worker.RunBounded | topics/asyncio/07_cpu_bound/server_cpu_only.py:20-31 | `run_prime_search(max)` does exactly `max` iterations and never writes the flag |
| Worker.RunBoundedPublishes | topics/asyncio/07_cpu_bound/server_cpu_only.py:25-29 | the `max` publications are the C `int` images of the next `max` primes in order; the cell ends holding the last |
| Worker.BoundedMatchesFlagLoop | topics/asyncio/07_cpu_bound/server_cpu_only.py:24-31 | `max` bounded iterations do the same work as a flag loop that passes `max` checks and then stops |
| Worker.CpuBoundRunStartsFiveSevenEleven | topics/asyncio/07_cpu_bound/server_cpu_only.py:33-43 | started as `main` starts it (prime 0, max 60 or any max >= 3), the worker publishes `max` values beginning 5, 7, 11 |
| Worker.ShutdownGuarded | topics/asyncio/08_shutdown/server_cpu_only.py:43-50 | the guarded handler leaves running == 0; it changes nothing when running is already 0 |
| Worker.ShutdownOddity | topics/asyncio/08_shutdown/server_cpu_only_oddity.py:55-60 | the unguarded handler leaves running == 0 and the prime untouched |
| Worker.ShutdownHandlersAgree | topics/asyncio/08_shutdown/server_cpu_only_oddity.py:55-60 | both handlers are idempotent and leave the same shared state |
| Worker.WorkerStopsAfterShutdown | topics/asyncio/08_shutdown/server_cpu_only_oddity.py:27-31 | a loop whose next check sees either handler's flag publishes nothing |
| Connections.Remove | topics/asyncio/03/server-sequencial.py:142-145 | `list.remove` succeeds iff the connection is listed, else ValueError; it takes out exactly one copy |
| Connections.RemoveMembers | topics/asyncio/04/server-selectors.py:154-158 | the other connections stay and nothing new appears |
| Connections.RemoveDistinct | topics/asyncio/03/server-sequencial.py:142-145 | in a list without repeats, the removed connection is gone entirely and no repeat appears |
| Connections.RemoveFromPlace | topics/asyncio/03/server-sequencial.py:142-145 | removing a connection from its place leaves the ones before and after in order |
| Connections.AppendFresh | topics/asyncio/03/server-sequencial.py:102-104 | appending a newly accepted connection keeps the list free of repeats |
| SequentialServer.NewServer | topics/asyncio/01/server-sequencial.py:34-41 | a new server is in NULL_STATE with no socket, no client, and a fresh calculator at 3 |
| SequentialServer.UpdateState | topics/asyncio/01/server-sequencial.py:76-88 | LISTENING iff INITIALISED or LOST_CLIENT; CLIENT_CONNECTED iff NEW_CLIENT; SHUTDOWN iff SHUTDOWN_EVT |
| SequentialServer.UpdateStateIgnoresState | topics/asyncio/01/server-sequencial.py:76-88 | the event alone fixes the next state, and applying an event twice equals applying it once |
| SequentialServer.Init | topics/asyncio/01/server-sequencial.py:71-74 | `init` opens the socket and moves to LISTENING, leaving the rest |
| SequentialServer.ListenForConnection | topics/asyncio/01/server-sequencial.py:97-101 | an accept gives a fresh connection and moves to CLIENT_CONNECTED |
| SequentialServer.Shutdown | topics/asyncio/01/server-sequencial.py:103-106 | `shutdown` closes the connection and the socket and ends in SHUTDOWN_STATE |
| SequentialServer.ProcessCommand | topics/asyncio/01/server-sequencial.py:138-155 | `end` shuts down; unknown does nothing; `get` replies iff the prime fits 4 bytes, with the 4-byte encoding of the latest prime |
| SequentialServer.ServeClient | topics/asyncio/01/server-sequencial.py:114-127 | empty data moves to LISTENING with no reply; other data is processed as its command |
| SequentialServer.RunStateProcess | topics/asyncio/01/server-sequencial.py:52-66 | dispatch: NULL inits, LISTENING accepts, CLIENT_CONNECTED serves, SHUTDOWN does nothing; the invariant is kept |
| SequentialServer.RunProcess | topics/asyncio/01/server-sequencial.py:48-50 | each step advances the prime once and then dispatches |
| SequentialServer.Run | topics/asyncio/01/server-sequencial.py:43-46 | a run ends in SHUTDOWN_STATE or waiting on a client; it fails only with OverflowError |
| SequentialServer.NothingAfterShutdown | topics/asyncio/01/server-sequencial.py:43-46 | in SHUTDOWN_STATE the loop is over: nothing is read or changed |
| SequentialServer.RunShutsDownExactlyOnEnd | topics/asyncio/01/server-sequencial.py:103-106 | a run reaches SHUTDOWN_STATE iff the client sends `end`, and answers exactly the `get`s sent before it |
| SequentialServer.RepliesAreLaterPrimes | topics/asyncio/01/server-sequencial.py:150-155 | every reply is 4 bytes decoding to a true prime above the starting prime |
| PollingServer.NewServer | topics/asyncio/03/server-sequencial.py:33-40 | a new server is in NULL_STATE with no socket, no connections, and a fresh calculator |
| PollingServer.UpdateState | topics/asyncio/03/server-sequencial.py:87-93 | INITIALISED gives LISTENING, SHUTDOWN gives SHUTDOWN, and an event with no branch leaves the state |
| PollingServer.UpdateStateIdempotent | topics/asyncio/03/server-sequencial.py:87-93 | applying an event twice equals applying it once |
| PollingServer.Init | topics/asyncio/03/server-sequencial.py:72-77 | `init` opens the socket and moves to LISTENING |
| PollingServer.ListenForConnection | topics/asyncio/03/server-sequencial.py:95-110 | an accept appends exactly one fresh connection; BlockingIOError leaves everything unchanged |
| PollingServer.ServeClient | topics/asyncio/03/server-sequencial.py:120-135 | would-block is ignored; empty data removes the client (ValueError if unlisted); `end` is AttributeError; `get` sends the latest prime or is OverflowError; unknown is ignored |
| PollingServer.ServeClientsAsWritten | topics/asyncio/03/server-sequencial.py:116-118 | the live-list iteration as written keeps the calculator, the state and the server invariant, and fails only with AttributeError or OverflowError (a too-wide prime) |
| PollingServer.AsWrittenSkipsSuccessor | topics/asyncio/03/server-sequencial.py:116-118 | with [0, 1], where 0 hung up and 1 sent `get`, the written loop never reads 1 and sends no reply |
| PollingServer.ServeClients | topics/asyncio/03/server-sequencial.py:116-118 | the intended round reads every listed connection once, in order, and keeps the invariant |
| PollingServer.ServeClientsFailures | topics/asyncio/03/server-sequencial.py:160-175 | an intended round fails only with AttributeError (some `end`) or OverflowError (prime too wide), never in `list.remove` |
| PollingServer.ServeClientsRemovesHangUps | topics/asyncio/03/server-sequencial.py:127-129 | after an intended round, exactly the hung-up connections are gone and the rest keep their order |
| PollingServer.ServeClientsAnswersGets | topics/asyncio/03/server-sequencial.py:180-185 | in an intended round, every `get` gets one 4-byte reply with the latest prime, in list order |
| PollingServer.IntendedServesBoth | topics/asyncio/03/server-sequencial.py:116-118 | on the same [0, 1] input, the intended round reads both and answers 1 with the prime 3 |
| PollingServer.RunNextProcess | topics/asyncio/03/server-sequencial.py:57-70 | NULL inits, LISTENING accepts and then serves all with the intended round, SHUTDOWN does nothing; a pass never enters SHUTDOWN |
| PollingServer.RunProcesses | topics/asyncio/03/server-sequencial.py:48-55 | each pass advances the prime once before dispatching (to the intended round) |
| PollingServer.Run | topics/asyncio/03/server-sequencial.py:42-46 | with the intended round, the server invariant holds after any run that does not fail |
| PollingServer.NeverShutsDown | topics/asyncio/03/server-sequencial.py:172-175 | no successful run reaches SHUTDOWN_STATE |
| PollingServer.AsWrittenFailsOnEnd | topics/asyncio/03/server-sequencial.py:116-118 | as written, a round fails when a listed connection sends `end` and none listed before it hung up |
| PollingServer.AsWrittenWithoutHangUps | topics/asyncio/03/server-sequencial.py:116-118 | when nobody hangs up, the written round gives exactly the intended round's result |
| PollingServer.PassAsWrittenWithoutHangUps | topics/asyncio/03/server-sequencial.py:61-63 | a LISTENING pass in which nobody hangs up is the same with the written round as with the intended one |
| PollingServer.EndIsAnErrorAsWritten | topics/asyncio/03/server-sequencial.py:172-175 | as written, a pass fails when a listed connection sends `end` and no connection before it hung up |
| PollingServer.EndIsAnError | topics/asyncio/03/server-sequencial.py:160-162 | with the intended round, a pass in which a listed connection sends `end` fails |
| PollingServer.ServeClientsFailOnEnd | topics/asyncio/03/server-sequencial.py:172-175 | an intended round over a list that holds an `end` sender cannot succeed |
| SelectorServer.AddNewClient | topics/asyncio/04/server-selectors.py:120-124 | with registrations that follow the sockets, `add_new_client` appends exactly the accepted connection and changes nothing else |
| SelectorServer.ListenForConnection | topics/asyncio/04/server-selectors.py:105-118 | every ready socket is handled once, in order; an empty `select` changes nothing; the state is unchanged |
| SelectorServer.ListenFailures | topics/asyncio/04/server-selectors.py:132-146 | with registrations that follow the sockets, a pass fails only on `end` (AttributeError) or a too-wide prime (OverflowError) |
| SelectorServer.ListenConnections | topics/asyncio/04/server-selectors.py:111-118 | afterwards a connection is listed iff it was listed and did not hang up, or was accepted in the pass; one accept per listening-socket report |
| SelectorServer.ListenAnswersGets | topics/asyncio/04/server-selectors.py:193-198 | every reported `get` is answered with the latest prime, in the order reported |
| SelectorServer.RunNextProcess | topics/asyncio/04/server-selectors.py:63-75 | NULL inits, LISTENING handles the `select` answer, SHUTDOWN does nothing; a pass never enters SHUTDOWN |
| SelectorServer.RunProcesses | topics/asyncio/04/server-selectors.py:54-60 | each pass advances the prime once before dispatching |
| SelectorServer.Run | topics/asyncio/04/server-selectors.py:48-52 | the server invariant holds after any run that does not fail |
| SelectorServer.NeverShutsDown | topics/asyncio/04/server-selectors.py:185-188 | no successful run reaches SHUTDOWN_STATE, because `shutdown` fails first |
| SelectorRegistry.Register | topics/asyncio/04/server-selectors.py:123 | `register` refuses exactly the descriptors already registered, with KeyError, and otherwise adds just the new one |
| SelectorRegistry.AddNewClient | topics/asyncio/04/server-selectors.py:120-124 | an accept fails with KeyError iff the new descriptor is still registered; otherwise it is open, registered and appended |
| SelectorRegistry.RemoveAsWritten | topics/asyncio/04/server-selectors.py:154-158 | a listed client is closed and unlisted, and its registration stays; an unlisted one is ValueError |
| SelectorRegistry.RemoveIntended | topics/asyncio/04/server-selectors.py:154-158 | the intended removal also unregisters: afterwards the descriptor is neither open nor registered |
| SelectorRegistry.AddKeepsTracked | topics/asyncio/04/server-selectors.py:120-124 | while registrations follow the sockets, an accept never fails and keeps them following |
| SelectorRegistry.RemoveIntendedKeepsTracked | topics/asyncio/04/server-selectors.py:154-158 | the intended removal of a listed client succeeds and keeps registrations following the sockets |
| SelectorRegistry.AsWrittenReuseFails | topics/asyncio/04/server-selectors.py:154-158 | as written, after a client hangs up, an accept that reuses its descriptor fails with KeyError |
| SelectorRegistry.IntendedReuseSucceeds | topics/asyncio/04/server-selectors.py:154-158 | with the intended removal, the freed descriptor can be accepted again and registrations still follow the sockets |
| SelectorRegistry.AsWrittenOneClient | topics/asyncio/04/server-selectors.py:120-124 | selector on 3, listener on 4, one client on 5 that hangs up: the next accept, given 5, fails with KeyError |
| AsyncServer.NewServer | topics/asyncio/step_09/prime_server_async.py:32-39 | a new server is in NULL_STATE with an empty registry |
| AsyncServer.UpdateState | topics/asyncio/step_09/prime_server_async.py:77-83 | RUNNING iff INITIALISED_EVT, SHUTDOWN iff SHUTDOWN_EVT, from any state |
| AsyncServer.UpdateStateIgnoresState | topics/asyncio/08_shutdown/server_async.py:90-96 | the event alone fixes the state, and a repeated SHUTDOWN_EVT is a no-op |
| AsyncServer.Init | topics/asyncio/step_09/prime_server_async.py:49-55 | `init` opens the socket and moves to RUNNING_STATE, leaving the registry |
| AsyncServer.NewServerInitRuns | topics/asyncio/step_09/prime_server_async.py:37 | a new server after `init` is running with an empty registry |
| AsyncServer.AddTask | topics/asyncio/step_09/prime_server_async.py:85-87 | `add_task` inserts the task under its name and leaves every other entry unchanged |
| AsyncServer.TaskDone | topics/asyncio/step_09/prime_server_async.py:87 | the done callback discards exactly that task |
| AsyncServer.AddThenDoneRestores | topics/asyncio/08_shutdown/server_async.py:98-100 | a task added and then finished leaves the registry as it was |
| AsyncServer.DecimalStringInjective | topics/asyncio/step_09/prime_server_async.py:105 | different registry sizes print differently |
| AsyncServer.ClientTaskName | topics/asyncio/step_09/prime_server_async.py:105 | a client task's name is `client-` followed by digits |
| AsyncServer.ProcessNewClient | topics/asyncio/step_09/prime_server_async.py:103-107 | later versions register one task named after the registry size; 05 registers nothing |
| AsyncServer.ClientNamesCanRepeat | topics/asyncio/08_shutdown/server_async.py:113-117 | after a client leaves, a new client can get a name already in use |
| AsyncServer.CloseServerConnection | topics/asyncio/step_09/prime_server_async.py:178-183 | closes the listening socket and enters SHUTDOWN_STATE, leaving the registry |
| AsyncServer.Cancel | topics/asyncio/step_09/prime_server_async.py:70-75 | `cancel` enters SHUTDOWN_STATE with the socket closed and asks every registered task to cancel |
| AsyncServer.CancelIdempotent | topics/asyncio/08_shutdown/server_async.py:83-88 | cancelling twice equals cancelling once |
| AsyncServer.ProcessCommand | topics/asyncio/step_09/prime_server_async.py:166-176 | `end` closes the server connection; unknown sends nothing; `get` sends the prime iff 0 <= prime < 2^32 |
| AsyncServer.ProcessClientData | topics/asyncio/step_09/prime_server_async.py:135-144 | returns False iff the data is empty; any other data is processed, and the loop goes on whatever the command |
| AsyncServer.EndKeepsClientLoop | topics/asyncio/08_shutdown/server_async.py:145-154 | `end` shuts the server down, but that client's loop keeps reading |
| AsyncServer.ProcessClient | topics/asyncio/05/server_async.py:109-115 | the loop reads until `process_client_data` is False or an error escapes; only later versions close the connection on error |
| AsyncServer.ProcessClientStopsOnEmpty | topics/asyncio/08_shutdown/server_async.py:122-137 | the loop ends as lost exactly at the first empty message, unless an error comes first |
| AsyncServer.RepliesAreFourBytes | topics/asyncio/step_09/prime_server_async.py:189-191 | every reply a client task sends is four bytes |
| AsyncServer.RepliesAnswerGets | topics/asyncio/step_09/prime_server_async.py:185-191 | a client receives, in order, exactly the prime current at each `get` it sent, and nothing for other messages |
| AsyncServer.CrashOnlyOnWideGet | topics/asyncio/step_09/prime_server_async.py:112-127 | a client task fails only on a `get` whose prime does not fit four unsigned bytes |
| AsyncServer.RunNetworking | topics/asyncio/step_09/prime_server_async.py:92-101 | once the state is SHUTDOWN no task is spawned; the registry invariant is kept |
| AsyncServer.AcceptLoopStopsAtShutdown | topics/asyncio/08_shutdown/server_async.py:102-111 | one task per client that arrives before the first shutdown, none after; SHUTDOWN with a closed socket iff a shutdown came |
| AsyncServer.RunPrimeSearch | topics/asyncio/05/server_async.py:88-91 | the calculator advances once per check that does not see SHUTDOWN, up to the first that does |
| AsyncServer.PrimeSearchStopsAtShutdown | topics/asyncio/05/server_async.py:88-91 | once a check sees SHUTDOWN, later states change nothing |
| Coordinator.FilterNeverMatches | topics/asyncio/step_09/server_async.py:36-37 | no task name this program gives (`task_prime`, `client-N`, `Task-N`) equals `prime_task` |
| Coordinator.CancelAll | topics/asyncio/step_09/server_async.py:55-57 | `cancel_all` asks every given task to cancel and no other |
| Coordinator.CancelPrimeCalcTaskStep | topics/asyncio/step_09/server_async.py:60-64 | the filter loop fails with RuntimeError iff some task is named `prime_task`; otherwise it changes nothing |
| Coordinator.CancelPrimeCalcTaskNeverFires | topics/asyncio/step_09/prime_app.py:69-73 | with this program's names, `cancel_prime_calc_task` neither removes nor cancels anything |
| Coordinator.CancelServer | topics/asyncio/step_09/server_async.py:77-87 | five steps in order (clear running, `server.cancel()`, pause, filter, cancel all); afterwards running == 0 and every loop task is cancelled |
| Coordinator.Shutdown | topics/asyncio/step_09/server_async.py:95-97 | `cancel_server` runs only while running == 1; otherwise nothing changes |
| Coordinator.ShutdownGuardZero | topics/asyncio/08_shutdown/server_async.py:227-248 | returns at once when running == 0; otherwise it takes the same steps |
| Coordinator.GuardsAgree | topics/asyncio/step_09/prime_app.py:99-105 | on the flag values the program writes, the guard `== 1` and the guard `!= 0` agree |
| Coordinator.ShutdownIdempotent | topics/asyncio/step_09/server_async.py:90-97 | a second shutdown after a successful one changes nothing |
| Coordinator.ShutdownGuardZeroIdempotent | topics/asyncio/08_shutdown/server_async.py:227-230 | the same for the 08_shutdown guard |
| Coordinator.ShutdownFromRunning | topics/asyncio/step_09/prime_app.py:86-96 | from running, shutdown succeeds with the five steps; afterwards running == 0, SHUTDOWN_STATE, socket closed, all loop and registry tasks cancelled |
| Coordinator.WorkerStopsAfterShutdown | topics/asyncio/step_09/prime_calculator.py:10-17 | after a shutdown, the worker's next check stops it, so nothing more is published |
| Coordinator.Started | topics/asyncio/step_09/server_async.py:115-122 | at start running == 1, prime == 0, the server is RUNNING, the loop holds exactly the main, worker and server tasks, and every task name is one this program gives |
| Coordinator.SpawnClient | topics/asyncio/step_09/prime_server_async.py:103-107 | a client connection keeps the application invariant (well-numbered registry, only known task names) and leaves the shared cell and the shutdown log alone |
| Coordinator.SpawnClientAddsOneTask | topics/asyncio/step_09/prime_server_async.py:103-107 | the client's task joins the loop under a fresh identifier with a `client-N` name; every earlier task stays |
| Coordinator.SigintAfterClient | topics/asyncio/step_09/server_async.py:95-97 | after another client joins a running application, SIGINT shuts down fully in five steps, and a second SIGINT changes nothing |
| EventText.Names | topics/asyncio/04/select_ex/server-selectors.py:73-78 | EVENT_READ is listed iff its bit is set, and the same for EVENT_WRITE; nothing else is listed |
| EventText.EventToStr | topics/asyncio/04/select_ex/server-selectors.py:71-80 | the result is empty iff neither bit is set |
| EventText.FieldsJoin | topics/asyncio/04/select_ex/server-selectors.py:80 | splitting on `\|` undoes the `\|` join for a non-empty list of parts that hold no `\|` |
| EventText.EventToStrFields | topics/asyncio/04/select_ex/server-selectors.py:71-80 | a non-empty rendering splits back into exactly the names of the set bits |
| EventText.NameShownIffSelected | topics/asyncio/04/select_ex/server-selectors.py:76-78 | a name appears in the rendering iff its bit is set, both directions |
| EventText.NamesDistinctInOrder | topics/asyncio/04/select_ex/server-selectors.py:73-78 | no name appears twice; READ comes before WRITE when both are set |
| EventText.NoOuterSeparator | topics/asyncio/04/select_ex/server-selectors.py:80 | the rendering neither starts nor ends with `\|` |
| EventText.HigherBitsIgnored | topics/asyncio/04/select_ex/server-selectors.py:76-78 | bits other than READ and WRITE do not affect the rendering |
| Clients.Received | topics/asyncio/step_09/client_sequential.py:39 | `recv(4)` yields at most four bytes, a prefix of what is available, and `b''` once the peer has no more |
| Clients.GetPrime | topics/asyncio/step_09/client_sequential.py:37-41 | `get_prime` sends a message that decodes to GET_PRIME_CMD and decodes the reply as an unsigned value |
| Clients.GetPrimes | topics/asyncio/step_09/client_sequential.py:31-35 | `count` requests, each `get`, and the i-th value is the decoding of the i-th reply |
| Clients.RunFinal | topics/asyncio/step_09/client_sequential.py:18-22 | the step_09 client ends with its socket closed |
| Clients.RunFirst | topics/asyncio/01/client-sequential.py:15-21 | the 01 client ends with its socket closed |
| Clients.GetPrimeInvertsReply | topics/asyncio/01/client-sequential.py:36-40 | the client reads back exactly the value the server encoded, and every 4-byte reply is some value's encoding |
| Clients.FinalClientNeverSendsEnd | topics/asyncio/step_09/client_sequential.py:43-47 | the step_09 client sends exactly PRIMES_NUM = 10 `get`s and never `end` |
| Clients.FirstClientEndsWithEnd | topics/asyncio/01/client-sequential.py:42-50 | the 01 client sends four `get`s and then `end` as its last message |
| Clients.FirstClientUpToEnd | topics/asyncio/01/server-sequencial.py:138-143 | the 01 server reads the whole of the 01 client's output, because `end` is its last message |
| Clients.FirstClientCountsGets | topics/asyncio/01/client-sequential.py:30-34 | exactly four of the 01 client's messages are `get` |
| Clients.FirstClientShutsDownServer | topics/asyncio/01/client-sequential.py:30-34 | against the 01 server, a run without overflow ends in SHUTDOWN_STATE after exactly four replies, which the client decodes to primes above 3 |
| Clients.FinalSessionEnds | topics/asyncio/step_09/prime_server_async.py:135-140 | a client task serving the step_09 client reads the ten requests and the closing empty message, then ends as lost |
| Clients.FinalClientSession | topics/asyncio/step_09/client_sequential.py:31-41 | against an async client task, all ten requests are answered, the client decodes exactly the primes current at each, and the client task ends as lost, not through `end` |

## Left out

- Sockets, `select`, the asyncio event loop, `ProcessPoolExecutor` and `multiprocessing`: these are I/O and concurrency. What they deliver is an input to the model: `recv` results, `select` answers, flag values at loop checks, and the order of events at the accept loop.
- Interleavings between tasks and processes are not explored. Each locked read or write of the shared cell is one atomic step.
- `time.sleep` and `asyncio.sleep` pacing, `print`, and `logging`.
- Primes.Isqrt: the float `int(num ** 0.5)` is replaced by the exact integer square root. The two agree at least below 2^52; above 2^1024 `num ** 0.5` raises OverflowError, which the model does not raise. The primes this program reaches in practice are far below either bound.
- `init_global` and `copy_globals_to_process` only pass the shared handles to the worker process. The model gives the worker the cell directly.
- The `from prime_calculator import PrimeCalculator` of the 01–08 servers is taken to be the 05 calculator. The 01–04 copies of that file are not part of this model.
- Real task cancellation: a cancelled task is recorded as asked to cancel. What a `CancelledError` does inside a client task (its `finally` closes the connection) is not run through.
- SelectorServer.ListenForConnection: selector registration and unregistration are not modelled here. A client removed during a pass is simply not reported by later `select` calls. Connections are numbered by a counter that never repeats, which stands for the intended registration (unregister on removal); the stale registration as written is modelled in `SelectorRegistry`.
- SelectorServer.AddNewClient: does not raise the KeyError that `register` (04 line 123) raises when `accept` reuses the descriptor of a client removed without unregistering. That case is SelectorRegistry.AsWrittenReuseFails; this member models the intended registration.
- SelectorServer.ListenFailures: the failures it lists leave out that KeyError on descriptor reuse, for the same reason.
- PollingServer.RunNextProcess: serves the clients with the intended round `ServeClients`, not the live-list loop of line 63 (`ServeClientsAsWritten`). The two agree on every pass in which nobody hangs up (PollingServer.PassAsWrittenWithoutHangUps); on other passes the program may skip the connection after a removed one.
- PollingServer.RunProcesses: dispatches to RunNextProcess, so it too uses the intended round.
- PollingServer.Run: built on RunProcesses, so it too uses the intended round.
- PollingServer.ServeClientsRemovesHangUps: holds for the intended round. As written, a connection that hung up right after another hang-up may be skipped and stay listed for that pass.
- PollingServer.ServeClientsAnswersGets: holds for the intended round. As written, a `get` right after a hang-up may go unanswered in that pass.
- PollingServer.EndIsAnError: holds for the intended round. As written, an `end` right after a hang-up may go unread in that pass; PollingServer.EndIsAnErrorAsWritten states what the program guarantees.
- PollingServer.ServeClientsFailOnEnd: holds for the intended round, for the same reason; the as-written counterpart is PollingServer.AsWrittenFailsOnEnd.
- AsyncServer.RunNetworking: the accept that is pending when the socket is closed, and the `OSError` it then raises, are not modelled. The loop stops at the state check.
- Worker.RunBounded: `max` is a `nat`. The negative `max` for which `while run != max` would never stop is not modelled; the only caller passes 60.
- The selector demo's `run`, `show_selector_key` and `fileobj_to_str` only print, so they are left out. `event_to_str` is modelled.
- Coordinator: the main task's other steps (`add_interrupt_handler`, `gather`) and the `ProcessPoolExecutor` context are reduced to the set of loop tasks they create.
- Coordinator.SpawnClient: no step removes a finished client task from the loop's tasks, so they over-approximate `asyncio.all_tasks()`. Cancelling a finished task does nothing, so the shutdown results are unaffected.

## Findings

| source | as written | input that shows it | evidently intended | confidence | as-written member | corrected member |
|---|---|---|---|---|---|---|
| topics/asyncio/03/server-sequencial.py:116-118 | `for connection in self.connections` iterates the live list while `remove_client` deletes from it, so the connection after a removed one is skipped for that pass | connections [0, 1]; 0 has hung up (empty read), 1 sent `get` | every connection listed at the start of the pass is read once | not executed | PollingServer.AsWrittenSkipsSuccessor | PollingServer.IntendedServesBoth |
| topics/asyncio/04/server-selectors.py:154-158 | `remove_current_client` closes the client and drops it from the list but never calls `unregister`; the next `accept` can get the same descriptor number, and `register` at line 123 then raises KeyError | selector (epoll) on descriptor 3, listener on 4, one client on 5; the client hangs up, then a new client connects and is given 5 | a removed client is also unregistered, so its descriptor can be registered again | not executed | SelectorRegistry.AsWrittenReuseFails | SelectorRegistry.IntendedReuseSucceeds |

The rest of the model (PollingServer.RunNextProcess and what depends on it)
uses the corrected round PollingServer.ServeClients. Its contract, with
PollingServer.ServeClientsRemovesHangUps and PollingServer.ServeClientsAnswersGets,
states the intended behaviour for every input.
PollingServer.AsWrittenWithoutHangUps shows that the two rounds agree on every
pass in which nobody hangs up.

Likewise the selector server numbers its connections by a counter that never
repeats, which is the intended registration. SelectorRegistry models the
descriptors themselves, both as written and as intended.
