/**
 The prime-search worker: the loop that advances a `PrimeCalculator` and
 publishes each result into the shared prime cell, in its three forms:

 - flag-driven, `while running.value == 1` (step_09 `PrimeCalculator.run`,
   step_09 and 08_shutdown `run_prime_search`);
 - flag-driven, `while running.value` (08_shutdown `server_cpu_only` and
   `server_cpu_only_oddity`);
 - bounded, `while run != max` (07_cpu_bound `server_cpu_only`).

 The run flag is written by another process, so the values the loop reads at
 its checks are an input (`checks`). `time.sleep(1)` pacing is left out.
 Also here: the two cpu-only `shutdown` handlers, which only clear the flag.
 */
module Worker {
  import opened Codec
  import opened Primes
  import opened Calculator
  import opened SharedState

  datatype LoopGuard = RunningIsOne | RunningTruthy

  /** Whether the loop condition lets another iteration start. */
  predicate Continues(g: LoopGuard, running: int) {
    match g
    case RunningIsOne => running == 1
    case RunningTruthy => running != 0
  }

  /** How many loop checks pass before the first one that stops the loop. */
  function LeadingPasses(g: LoopGuard, checks: seq<flag>): (n: nat)
    ensures n <= |checks|
    ensures forall i :: 0 <= i < n ==> Continues(g, checks[i])
    ensures n < |checks| ==> !Continues(g, checks[n])
  {
    if |checks| == 0 || !Continues(g, checks[0]) then 0
    else 1 + LeadingPasses(g, checks[1..])
  }

  /**
   step_09 `find_next`: search for the next prime, then `update_global` publishes
   it. The calculator moves exactly as `find_next` of 05 moves it, and the cell
   then holds the new prime whenever it fits a C `int`.
   */
  function FindNextAndPublish(pc: Calculator, cell: SharedCell): (r: (Calculator, SharedCell))
    requires Valid(pc)
    ensures r.0 == FindNext(pc) && Valid(r.0)
    ensures r.1.running == cell.running
    ensures r.0.currentPrime <= I32_MAX ==> r.1.prime == GetLatest(r.0)
  {
    var next := FindNext(pc);
    (next, StorePrime(cell, GetLatest(next)))
  }

  /** `set_next_prime` has exactly the effect of `find_next`: the next prime, written to the cell as a C `int`. */
  function SetNextPrime(pc: Calculator, cell: SharedCell): (r: (Calculator, SharedCell))
    requires Valid(pc)
    ensures r.0 == FindNext(pc) && r.1 == cell.(prime := WrapI32(r.0.currentPrime))
  {
    FindNextAndPublish(pc, cell)
  }

  /** What one run of the worker leaves behind, and every value it wrote to the cell in order. */
  datatype Outcome = Outcome(pc: Calculator, cell: SharedCell, published: seq<int>)

  /** The values a C `int` cell holds after each of the primes `s` is written to it. */
  function Stored(s: seq<nat>): (r: seq<int>)
    ensures |r| == |s|
  {
    seq(|s|, i requires 0 <= i < |s| => WrapI32(s[i]))
  }

  lemma StoredCons(x: nat, s: seq<nat>)
    ensures Stored([x] + s) == [WrapI32(x)] + Stored(s)
  {
  }

  /** A flag-driven loop: one `set_next_prime` per passing check, stop at the first failing one. */
  function RunLoop(g: LoopGuard, pc: Calculator, cell: SharedCell, checks: seq<flag>): (r: Outcome)
    requires Valid(pc)
    ensures |r.published| == LeadingPasses(g, checks)
    ensures r.cell.running == cell.running
    decreases |checks|
  {
    if |checks| == 0 || !Continues(g, checks[0]) then Outcome(pc, cell, [])
    else
      var (next, cell') := SetNextPrime(pc, cell);
      var rest := RunLoop(g, next, cell', checks[1..]);
      Outcome(rest.pc, rest.cell, [cell'.prime] + rest.published)
  }

  /**
   What the flag-driven loop publishes: the C `int` images of the next primes,
   one per passing check, in order; the calculator ends that many calls
   further on.
   */
  lemma {:induction false} RunLoopPublishes(g: LoopGuard, pc: Calculator, cell: SharedCell, checks: seq<flag>)
    requires Valid(pc)
    ensures var r := RunLoop(g, pc, cell, checks);
      && r.pc == Advance(pc, |r.published|)
      && r.published == Stored(NextPrimes(pc, |r.published|))
    decreases |checks|
  {
    if |checks| > 0 && Continues(g, checks[0]) {
      var (next, cell') := SetNextPrime(pc, cell);
      var rest := RunLoop(g, next, cell', checks[1..]);
      RunLoopPublishes(g, next, cell', checks[1..]);
      var n := |rest.published|;
      assert RunLoop(g, pc, cell, checks) == Outcome(rest.pc, rest.cell, [cell'.prime] + rest.published);
      AdvanceShift(pc, n);
      StoredCons(next.currentPrime, NextPrimes(next, n));
    }
  }

  /** After the flag-driven loop the cell holds the last value published, or its old value if none. */
  lemma {:induction false} RunLoopLastValue(g: LoopGuard, pc: Calculator, cell: SharedCell, checks: seq<flag>)
    requires Valid(pc)
    ensures var r := RunLoop(g, pc, cell, checks);
      r.cell.prime == if |r.published| == 0 then cell.prime else r.published[|r.published| - 1]
    decreases |checks|
  {
    if |checks| > 0 && Continues(g, checks[0]) {
      var (next, cell') := SetNextPrime(pc, cell);
      var rest := RunLoop(g, next, cell', checks[1..]);
      RunLoopLastValue(g, next, cell', checks[1..]);
      var published := [cell'.prime] + rest.published;
      assert RunLoop(g, pc, cell, checks) == Outcome(rest.pc, rest.cell, published);
      assert published[|published| - 1] == if |rest.published| == 0 then cell'.prime else rest.published[|rest.published| - 1];
    }
  }

  /** `PrimeCalculator.run` of step_09 and `run_prime_search` of step_09 and 08_shutdown. */
  function Run(pc: Calculator, cell: SharedCell, checks: seq<flag>): (r: Outcome)
    requires Valid(pc)
    ensures |r.published| == LeadingPasses(RunningIsOne, checks)
  {
    RunLoop(RunningIsOne, pc, cell, checks)
  }

  /** Once a check stops the loop, later flag values change nothing: nothing more is published. */
  lemma {:induction false} NothingAfterStop(g: LoopGuard, pc: Calculator, cell: SharedCell,
                                            checks: seq<flag>, more: seq<flag>)
    requires Valid(pc)
    requires LeadingPasses(g, checks) < |checks|
    ensures RunLoop(g, pc, cell, checks + more) == RunLoop(g, pc, cell, checks)
    decreases |checks|
  {
    if Continues(g, checks[0]) {
      var (next, cell') := SetNextPrime(pc, cell);
      assert (checks + more)[1..] == checks[1..] + more;
      NothingAfterStop(g, next, cell', checks[1..], more);
    }
  }

  /** Primes that fit a C `int` are stored unchanged. */
  lemma StoredInRange(s: seq<nat>)
    requires forall i :: 0 <= i < |s| ==> s[i] <= I32_MAX
    ensures Stored(s) == s
  {
    forall i | 0 <= i < |s|
      ensures Stored(s)[i] == s[i]
    {
      WrapI32InRange(s[i]);
    }
  }

  /**
   While the last prime found fits a C `int`, the cell receives exactly the
   primes found, in order; by `NextPrimesIncreasing` and `NextPrimesArePrimes`
   they are strictly increasing true primes above the starting one.
   */
  lemma PublishedArePrimesFound(g: LoopGuard, pc: Calculator, cell: SharedCell, checks: seq<flag>)
    requires Valid(pc)
    requires Advance(pc, LeadingPasses(g, checks)).currentPrime <= I32_MAX
    ensures RunLoop(g, pc, cell, checks).published == NextPrimes(pc, LeadingPasses(g, checks))
  {
    var n := LeadingPasses(g, checks);
    var primes := NextPrimes(pc, n);
    RunLoopPublishes(g, pc, cell, checks);
    if n > 0 {
      NextPrimesAreAdvances(pc, n, n - 1);
      forall i | 0 <= i < n
        ensures primes[i] <= I32_MAX
      {
        if i < n - 1 {
          NextPrimesPairIncreasing(pc, n, i, n - 1);
        }
      }
    }
    StoredInRange(primes);
  }

  /** The 07_cpu_bound loop `while run != max`: exactly `max` iterations, each a `find_next` and a write. */
  function RunBounded(pc: Calculator, cell: SharedCell, max: nat): (r: Outcome)
    requires Valid(pc)
    ensures |r.published| == max
    ensures r.cell.running == cell.running
    decreases max
  {
    if max == 0 then Outcome(pc, cell, [])
    else
      var (next, cell') := SetNextPrime(pc, cell);
      var rest := RunBounded(next, cell', max - 1);
      Outcome(rest.pc, rest.cell, [cell'.prime] + rest.published)
  }

  /**
   What the bounded loop publishes: the C `int` images of the next `max`
   primes in order; the calculator ends `max` calls further on and the cell
   holds the last value published.
   */
  lemma {:induction false} RunBoundedPublishes(pc: Calculator, cell: SharedCell, max: nat)
    requires Valid(pc)
    ensures var r := RunBounded(pc, cell, max);
      && r.pc == Advance(pc, max)
      && r.published == Stored(NextPrimes(pc, max))
      && r.cell.prime == if max == 0 then cell.prime else r.published[max - 1]
    decreases max
  {
    if max > 0 {
      var (next, cell') := SetNextPrime(pc, cell);
      RunBoundedPublishes(next, cell', max - 1);
      AdvanceShift(pc, max - 1);
      StoredCons(next.currentPrime, NextPrimes(next, max - 1));
    }
  }

  /** `max` passing checks of the flag loop do the same work as the bounded loop with that `max`. */
  lemma BoundedMatchesFlagLoop(pc: Calculator, cell: SharedCell, max: nat)
    requires Valid(pc)
    ensures var ones := seq(max, _ => 1);
      RunBounded(pc, cell, max) == RunLoop(RunningIsOne, pc, cell, ones + [0])
  {
    var ones: seq<flag> := seq(max, _ => 1);
    var a, b := RunBounded(pc, cell, max), RunLoop(RunningIsOne, pc, cell, ones + [0]);
    RunBoundedPublishes(pc, cell, max);
    RunLoopPublishes(RunningIsOne, pc, cell, ones + [0]);
    RunLoopLastValue(RunningIsOne, pc, cell, ones + [0]);
    assert LeadingPasses(RunningIsOne, ones + [0]) == max by {
      assert (ones + [0])[max] == 0;
    }
    assert a.published == b.published;
  }

  /** `max` of the 07_cpu_bound `main`. */
  const CPU_BOUND_MAX: nat := 60

  /**
   The 07_cpu_bound worker as started by `main` (a fresh calculator, prime 0):
   any `max` of at least 3, such as `CPU_BOUND_MAX`, publishes `max` values starting 5, 7, 11.
   */
  lemma CpuBoundRunStartsFiveSevenEleven(max: nat)
    requires max >= 3
    ensures var r := RunBounded(New(), InitShares(), max);
      |r.published| == max && r.published[..3] == [5, 7, 11]
  {
    FirstPrimes();
    RunBoundedPublishes(New(), InitShares(), max);
    var r := RunBounded(New(), InitShares(), max);
    forall i | 0 <= i < 3
      ensures r.published[i] == [5, 7, 11][i]
    {
      NextPrimesAreAdvances(New(), max, i);
      WrapI32InRange([5, 7, 11][i]);
    }
  }

  // ---------------------------------------------------------------------------
  // The cpu-only shutdown handlers

  /** 08_shutdown `server_cpu_only.shutdown`: return if the flag is already 0, otherwise clear it. */
  function ShutdownGuarded(cell: SharedCell): (r: SharedCell)
    ensures r.running == 0 && r.prime == cell.prime
    ensures cell.running == 0 ==> r == cell
  {
    if cell.running == 0 then cell else SetRunningToFalse(cell)
  }

  /** `server_cpu_only_oddity.shutdown`: clear the flag unconditionally. */
  function ShutdownOddity(cell: SharedCell): (r: SharedCell)
    ensures r.running == 0 && r.prime == cell.prime
  {
    SetRunningToFalse(cell)
  }

  /** Both handlers are idempotent and leave the same shared state, so repeated signals are harmless. */
  lemma ShutdownHandlersAgree(cell: SharedCell)
    ensures ShutdownGuarded(ShutdownGuarded(cell)) == ShutdownGuarded(cell)
    ensures ShutdownOddity(ShutdownOddity(cell)) == ShutdownOddity(cell)
    ensures ShutdownGuarded(cell) == ShutdownOddity(cell)
  {
  }

  /** A worker whose next check checks the flag after either handler publishes nothing more. */
  lemma WorkerStopsAfterShutdown(g: LoopGuard, pc: Calculator, cell: SharedCell, later: seq<flag>)
    requires Valid(pc)
    ensures RunLoop(g, pc, cell, [ShutdownGuarded(cell).running] + later).published == []
    ensures RunLoop(g, pc, cell, [ShutdownOddity(cell).running] + later).published == []
  {
  }
}
