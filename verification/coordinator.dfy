/**
 The SIGINT shutdown of the asyncio application: module-level `shutdown` of
 08_shutdown, and `shutdown`, `is_running`, `cancel_server`,
 `cancel_prime_calc_task` and `cancel_all` of step_09 (`server_async.py` and
 `prime_app.py` define them identically).

 The whole application is one record: the shared cell, the server object,
 every task of the event loop (identifier to name), the tasks asked to
 cancel, and a log of the shutdown steps taken, in order. `time.sleep(1)` is
 the logged step `Pause`.
 */
module Coordinator {
  import opened Wrappers
  import opened SharedState
  import opened Calculator
  import A = AsyncServer
  import W = Worker

  /** The steps of `cancel_server`, as they appear in the log. */
  datatype Step = ClearRunning | CancelServerObject | Pause | CancelPrimeCalcTask | CancelAllTasks

  datatype World = World(cell: SharedCell, server: A.Server, loopTasks: map<nat, string>,
                         nextLoopTask: nat, cancelled: set<nat>, log: seq<Step>)

  /** The name `create_prime_task` gives the worker's task. */
  const PRIME_TASK_NAME: string := "task_prime"

  /** The name `cancel_prime_calc_task` looks for. */
  const FILTER_NAME: string := "prime_task"

  /** The name asyncio gives an unnamed task: `Task-` and a counter. */
  function DefaultTaskName(k: nat): (name: string)
    ensures PrefixedNumber("Task-", name)
  {
    "Task-" + A.DecimalString(k)
  }

  /** `prefix` followed by one or more decimal digits. */
  predicate PrefixedNumber(prefix: string, name: string) {
    && |name| > |prefix| && name[..|prefix|] == prefix
    && forall i :: |prefix| <= i < |name| ==> '0' <= name[i] <= '9'
  }

  /** The names tasks of this program can have: the worker's, a client's (`client-N`), or asyncio's default (`Task-N`). */
  predicate KnownName(name: string) {
    || name == PRIME_TASK_NAME
    || PrefixedNumber("client-", name)
    || PrefixedNumber("Task-", name)
  }

  /** The filter never matches a name this program gives: the worker task is `task_prime`, not `prime_task`. */
  lemma FilterNeverMatches(name: string)
    requires KnownName(name)
    ensures name != FILTER_NAME
  {
    if PrefixedNumber("client-", name) {
      assert name[0] == name[..7][0] == 'c';
    } else if PrefixedNumber("Task-", name) {
      assert name[0] == name[..5][0] == 'T';
    }
  }

  predicate NamesKnown(tasks: map<nat, string>) {
    forall t :: t in tasks ==> KnownName(tasks[t])
  }

  /** `cancel_all`: every given task is asked to cancel. */
  function CancelAll(tasks: map<nat, string>, cancelled: set<nat>): (r: set<nat>)
    ensures forall t :: t in tasks ==> t in r
    ensures forall t :: t in r ==> t in tasks || t in cancelled
  {
    cancelled + tasks.Keys
  }

  /**
   `cancel_prime_calc_task`: cancel and remove each task named `prime_task`.
   Removing from the set being iterated makes the next step of the loop raise
   `RuntimeError`; with no such task nothing happens.
   */
  function CancelPrimeCalcTaskStep(tasks: map<nat, string>, cancelled: set<nat>): (r: Result<(map<nat, string>, set<nat>), PyError>)
    ensures r.Failure? <==> exists t :: t in tasks && tasks[t] == FILTER_NAME
    ensures r.Failure? ==> r.error == RuntimeError
    ensures r.Success? ==> r.value == (tasks, cancelled)
  {
    if exists t :: t in tasks && tasks[t] == FILTER_NAME then Failure(RuntimeError)
    else Success((tasks, cancelled))
  }

  /** With only names this program gives, `cancel_prime_calc_task` neither removes nor cancels anything. */
  lemma CancelPrimeCalcTaskNeverFires(tasks: map<nat, string>, cancelled: set<nat>)
    requires NamesKnown(tasks)
    ensures CancelPrimeCalcTaskStep(tasks, cancelled) == Success((tasks, cancelled))
  {
    forall t | t in tasks
      ensures tasks[t] != FILTER_NAME
    {
      FilterNeverMatches(tasks[t]);
    }
  }

  /**
   `cancel_server`: clear the run flag, `server.cancel()`, pause, then
   `cancel_prime_calc_task` and `cancel_all` over every task of the loop.
   */
  function CancelServer(w: World): (r: Result<World, PyError>)
    ensures r.Failure? ==> r.error == RuntimeError
    ensures r.Success? ==>
      && r.value.log == w.log + [ClearRunning, CancelServerObject, Pause, CancelPrimeCalcTask, CancelAllTasks]
      && r.value.cell.running == 0 && r.value.cell.prime == w.cell.prime
      && r.value.server == A.Cancel(w.server)
      && r.value.loopTasks == w.loopTasks
      && (forall t :: t in w.loopTasks ==> t in r.value.cancelled)
  {
    var w1 := w.(cell := SetRunningToFalse(w.cell), log := w.log + [ClearRunning]);
    var w2 := w1.(server := A.Cancel(w1.server), log := w1.log + [CancelServerObject]);
    var w3 := w2.(log := w2.log + [Pause]);
    match CancelPrimeCalcTaskStep(w3.loopTasks, w3.cancelled)
    case Failure(e) => Failure(e)
    case Success((tasks, cancelled)) =>
      var w4 := w3.(loopTasks := tasks, cancelled := cancelled, log := w3.log + [CancelPrimeCalcTask]);
      Success(w4.(cancelled := CancelAll(w4.loopTasks, w4.cancelled), log := w4.log + [CancelAllTasks]))
  }

  /** step_09 `is_running`: the run flag is exactly 1. */
  predicate IsRunningNow(w: World) {
    IsRunning(w.cell)
  }

  /** step_09 `shutdown`: `cancel_server` only while running. */
  function Shutdown(w: World): (r: Result<World, PyError>)
    ensures !IsRunningNow(w) ==> r == Success(w)
    ensures IsRunningNow(w) ==> r == CancelServer(w)
  {
    if IsRunningNow(w) then CancelServer(w) else Success(w)
  }

  /** 08_shutdown `shutdown`: return when the flag is already 0, otherwise the same steps. */
  function ShutdownGuardZero(w: World): (r: Result<World, PyError>)
    ensures w.cell.running == 0 ==> r == Success(w)
    ensures w.cell.running != 0 ==> r == CancelServer(w)
  {
    if w.cell.running == 0 then Success(w) else CancelServer(w)
  }

  /** The two guards agree on every flag value the program writes (1 at start, 0 on shutdown). */
  lemma GuardsAgree(w: World)
    requires w.cell.running == 0 || w.cell.running == 1
    ensures Shutdown(w) == ShutdownGuardZero(w)
  {
  }

  /** A repeated signal is harmless: after one shutdown, another changes nothing. */
  lemma ShutdownIdempotent(w: World)
    requires Shutdown(w).Success?
    ensures Shutdown(Shutdown(w).value) == Shutdown(w)
  {
  }

  /** The same for the 08_shutdown guard. */
  lemma ShutdownGuardZeroIdempotent(w: World)
    requires ShutdownGuardZero(w).Success?
    ensures ShutdownGuardZero(ShutdownGuardZero(w).value) == ShutdownGuardZero(w)
  {
  }

  /**
   From a running application with only the names this program gives its
   tasks, a shutdown succeeds, runs the five steps in order, and leaves the
   flag at 0, the server in SHUTDOWN_STATE with its socket closed, and every
   task of the loop and of the server's registry asked to cancel.
   */
  lemma ShutdownFromRunning(w: World)
    requires IsRunningNow(w) && NamesKnown(w.loopTasks)
    ensures Shutdown(w).Success?
    ensures var r := Shutdown(w).value;
      && r.log == w.log + [ClearRunning, CancelServerObject, Pause, CancelPrimeCalcTask, CancelAllTasks]
      && r.cell.running == 0
      && r.server.state.ShutdownState? && r.server.socket.Closed?
      && (forall t :: t in w.loopTasks ==> t in r.cancelled)
      && (forall t :: t in w.server.tasks ==> t in r.server.cancelled)
  {
    var w1 := w.(cell := SetRunningToFalse(w.cell), log := w.log + [ClearRunning]);
    var w2 := w1.(server := A.Cancel(w1.server), log := w1.log + [CancelServerObject]);
    CancelPrimeCalcTaskNeverFires(w2.loopTasks, w2.cancelled);
  }

  /** After a shutdown, the worker's next check of the flag stops it: it publishes nothing more. */
  lemma WorkerStopsAfterShutdown(w: World, pc: Calculator, later: seq<flag>)
    requires Valid(pc) && Shutdown(w).Success?
    ensures W.RunLoop(W.RunningIsOne, pc, Shutdown(w).value.cell, [Shutdown(w).value.cell.running] + later).published == []
  {
    assert !IsRunning(Shutdown(w).value.cell);
  }

  // ---------------------------------------------------------------------------
  // The application as `main` builds it

  /**
   `init_shares`, `create_prime_server`, then the main task (`Task-1`) running
   `run_server`: it creates the worker's task (`task_prime`), and `gather`
   wraps `server.run()` in a task of its own (`Task-2`), which initialises the
   server.
   */
  function Started(): (w: World)
    ensures IsRunningNow(w) && w.cell.prime == 0
    ensures w.server.state.Running? && A.Inv(w.server)
    ensures Live(w) && w.log == []
    ensures w.loopTasks.Keys == {0, 1, 2} && w.nextLoopTask == 3
  {
    var tasks := map[0 := DefaultTaskName(1), 1 := PRIME_TASK_NAME, 2 := DefaultTaskName(2)];
    assert KnownName(tasks[0]) && KnownName(tasks[2]);
    World(InitShares(), A.Init(A.NewServer()), tasks, 3, {}, [])
  }

  /** The invariant of the running application: the server's registry is well numbered and every loop task has a known name. */
  predicate Live(w: World) {
    && A.Inv(w.server)
    && NamesKnown(w.loopTasks)
    && forall t :: t in w.loopTasks ==> t < w.nextLoopTask
  }

  /** A client connects: the server spawns and registers its task, which joins the loop's tasks. */
  function SpawnClient(w: World): (r: World)
    requires Live(w)
    ensures Live(r)
    ensures r.cell == w.cell && r.log == w.log
  {
    var name := A.ClientTaskName(|w.server.tasks|);
    assert KnownName(name);
    w.(server := A.ProcessNewClient(A.Later, w.server),
       loopTasks := w.loopTasks[w.nextLoopTask := name],
       nextLoopTask := w.nextLoopTask + 1)
  }

  /** The client's task is one new task of the loop, with a fresh identifier; every earlier task stays. */
  lemma SpawnClientAddsOneTask(w: World)
    requires Live(w)
    ensures SpawnClient(w).loopTasks.Keys == w.loopTasks.Keys + {w.nextLoopTask}
    ensures w.nextLoopTask !in w.loopTasks
    ensures PrefixedNumber("client-", SpawnClient(w).loopTasks[w.nextLoopTask])
  {
  }

  /** After one more client joins a running application (from `Started` on, by induction any number), SIGINT shuts it down completely, and only once. */
  lemma SigintAfterClient(w: World)
    requires Live(w) && IsRunningNow(w)
    ensures Shutdown(SpawnClient(w)).Success?
    ensures var r := Shutdown(SpawnClient(w)).value;
      r.cell.running == 0 && r.server.state.ShutdownState? &&
      |r.log| == |w.log| + 5 && Shutdown(r) == Success(r)
  {
    ShutdownFromRunning(SpawnClient(w));
  }
}
