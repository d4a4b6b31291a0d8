/**
 `PrimeCalculator`: a cursor over the odd numbers that passes from one
 trial-division prime to the next.

 `find_next` steps by 2 from the current prime until `is_prime` holds. The
 step_09 variant also publishes each result into the shared prime cell
 (`update_global`); that part lives in the Worker module.
 */
module Calculator {
  import opened Primes

  datatype Calculator = Calculator(currentPrime: nat)

  /** The invariant every calculator keeps: its prime is odd, at least 3, and passes `is_prime`. */
  predicate Valid(c: Calculator) {
    c.currentPrime >= 3 && Odd(c.currentPrime) && IsPrime(c.currentPrime)
  }

  /** `PrimeCalculator()`: a fresh calculator starts at the prime 3. */
  function New(): (c: Calculator)
    ensures Valid(c) && c.currentPrime == 3
  {
    IsqrtUnique(3, 1);
    Calculator(3)
  }

  /** `get_latest`: the prime found last, a true prime for any valid calculator. */
  function GetLatest(c: Calculator): (p: nat)
    requires Valid(c)
    ensures p >= 3 && Odd(p) && Prime(p)
  {
    IsPrimeIffPrime(c.currentPrime);
    c.currentPrime
  }

  /** A witness for the termination of the search: some odd trial prime at or above `n`. */
  ghost function OddTrialPrimeAtLeast(n: nat): (p: nat)
    ensures p >= n && Odd(p) && IsPrime(p)
  {
    OddTrialPrimeAbove(n);
    var p :| p > n && Odd(p) && IsPrime(p);
    p
  }

  /**
   The `while (not found)` loop of `find_next`, from candidate `num` on: the first
   candidate of the same parity that passes `is_prime`. `bound` is a candidate
   known to pass, which bounds the search.
   */
  function Search(num: nat, ghost bound: nat): (r: nat)
    requires Odd(num) && Odd(bound) && num <= bound && IsPrime(bound)
    ensures num <= r <= bound && Odd(r)
    decreases bound - num
  {
    if IsPrime(num) then num else Search(num + 2, bound)
  }

  /** The search stops at the first candidate that passes, and passes over only candidates that fail. */
  lemma {:induction false} SearchFirstHit(num: nat, bound: nat)
    requires Odd(num) && Odd(bound) && num <= bound && IsPrime(bound)
    ensures IsPrime(Search(num, bound))
    ensures forall k :: num <= k < Search(num, bound) && Odd(k) ==> !IsPrime(k)
    decreases bound - num
  {
    if !IsPrime(num) {
      SearchFirstHit(num + 2, bound);
      forall k | num <= k < Search(num, bound) && Odd(k)
        ensures !IsPrime(k)
      {
        if k < num + 2 {
          assert k == num;
        }
      }
    }
  }

  /**
   `find_next`: the first odd number above the current prime that passes `is_prime`.
   Stepping by 2 from an odd start is all the search needs to end, so only oddness is required.
   */
  function FindNext(c: Calculator): (c': Calculator)
    requires Odd(c.currentPrime)
    ensures Odd(c'.currentPrime)
    ensures c'.currentPrime > c.currentPrime
    ensures Valid(c) ==> Valid(c')
  {
    var start := c.currentPrime + 2;
    var bound := OddTrialPrimeAtLeast(start);
    SearchFirstHit(start, bound);
    Calculator(Search(start, bound))
  }

  /** The new value passes `is_prime`, and no odd number strictly in between does: it is the first hit. */
  lemma FindNextFirstHit(c: Calculator)
    requires Odd(c.currentPrime)
    ensures IsPrime(FindNext(c).currentPrime)
    ensures forall k :: c.currentPrime < k < FindNext(c).currentPrime && Odd(k) ==> !IsPrime(k)
  {
    var start := c.currentPrime + 2;
    var bound := OddTrialPrimeAtLeast(start);
    SearchFirstHit(start, bound);
    forall k | c.currentPrime < k < FindNext(c).currentPrime && Odd(k)
      ensures !IsPrime(k)
    {
      OddGap(c.currentPrime, k);
    }
  }

  /** In mathematical terms `find_next` moves to the very next prime: no prime lies in between. */
  lemma FindNextIsNextPrime(c: Calculator)
    requires Valid(c)
    ensures Prime(FindNext(c).currentPrime)
    ensures forall k :: c.currentPrime < k < FindNext(c).currentPrime ==> !Prime(k)
  {
    var p, q := c.currentPrime, FindNext(c).currentPrime;
    FindNextFirstHit(c);
    IsPrimeIffPrime(q);
    forall k | p < k < q
      ensures !Prime(k)
    {
      if Odd(k) {
        IsPrimeIffPrime(k);
      } else {
        assert Divides(2, k);
      }
    }
  }

  /** The calculator after `k` calls of `find_next`. */
  function Advance(c: Calculator, k: nat): (c': Calculator)
    requires Odd(c.currentPrime)
    ensures Odd(c'.currentPrime)
    ensures c'.currentPrime >= c.currentPrime
  {
    if k == 0 then c else FindNext(Advance(c, k - 1))
  }

  /** Any number of calls of `find_next` keeps the calculator invariant. */
  lemma {:induction false} AdvanceValid(c: Calculator, k: nat)
    requires Valid(c)
    ensures Valid(Advance(c, k))
  {
    if k > 0 {
      AdvanceValid(c, k - 1);
    }
  }

  /** Later calls of `find_next` always give larger primes. */
  lemma {:induction false} AdvanceIncreasing(c: Calculator, i: nat, j: nat)
    requires Odd(c.currentPrime) && i < j
    ensures Advance(c, i).currentPrime < Advance(c, j).currentPrime
  {
    if i < j - 1 {
      AdvanceIncreasing(c, i, j - 1);
    }
  }

  /** Stepping once and then `k` times is stepping `k + 1` times. */
  lemma {:induction false} AdvanceShift(c: Calculator, k: nat)
    requires Odd(c.currentPrime)
    ensures Advance(FindNext(c), k) == Advance(c, k + 1)
  {
    if k > 0 {
      AdvanceShift(c, k - 1);
    }
  }

  /** The primes `n` successive calls of `find_next` return, in order. */
  function NextPrimes(c: Calculator, n: nat): (s: seq<nat>)
    requires Odd(c.currentPrime)
    ensures |s| == n
    decreases n
  {
    if n == 0 then []
    else
      var next := FindNext(c);
      [next.currentPrime] + NextPrimes(next, n - 1)
  }

  /** Each of them is the result of calling `find_next` that many times. */
  lemma {:induction false} NextPrimesAreAdvances(c: Calculator, n: nat, i: nat)
    requires Odd(c.currentPrime) && i < n
    ensures NextPrimes(c, n)[i] == Advance(c, i + 1).currentPrime
    decreases i
  {
    if i > 0 {
      NextPrimesAreAdvances(FindNext(c), n - 1, i - 1);
      AdvanceShift(c, i);
    }
  }

  lemma {:induction false} NextPrimesPairIncreasing(c: Calculator, n: nat, i: nat, j: nat)
    requires Odd(c.currentPrime) && i < j < n
    ensures NextPrimes(c, n)[i] < NextPrimes(c, n)[j]
  {
    NextPrimesAreAdvances(c, n, i);
    NextPrimesAreAdvances(c, n, j);
    AdvanceIncreasing(c, i + 1, j + 1);
  }

  /** They are strictly increasing and all above the starting prime. */
  lemma NextPrimesIncreasing(c: Calculator, n: nat)
    requires Odd(c.currentPrime)
    ensures forall i :: 0 <= i < n ==> NextPrimes(c, n)[i] > c.currentPrime
    ensures forall i, j :: 0 <= i < j < n ==> NextPrimes(c, n)[i] < NextPrimes(c, n)[j]
  {
    forall i | 0 <= i < n
      ensures NextPrimes(c, n)[i] > c.currentPrime
    {
      NextPrimesAreAdvances(c, n, i);
      AdvanceIncreasing(c, 0, i + 1);
    }
    forall i, j | 0 <= i < j < n
      ensures NextPrimes(c, n)[i] < NextPrimes(c, n)[j]
    {
      NextPrimesPairIncreasing(c, n, i, j);
    }
  }

  /** Each of them is a true prime. */
  lemma NextPrimesArePrimes(c: Calculator, n: nat)
    requires Valid(c)
    ensures forall i :: 0 <= i < n ==> Prime(NextPrimes(c, n)[i])
  {
    forall i | 0 <= i < n
      ensures Prime(NextPrimes(c, n)[i])
    {
      NextPrimesAreAdvances(c, n, i);
      AdvanceValid(c, i + 1);
      var p := GetLatest(Advance(c, i + 1));
    }
  }

  /** Consecutive ones have no prime in between: none is skipped. */
  lemma NextPrimesSkipNone(c: Calculator, n: nat, i: nat, k: nat)
    requires Valid(c) && i + 1 < n
    requires NextPrimes(c, n)[i] < k < NextPrimes(c, n)[i + 1]
    ensures !Prime(k)
  {
    NextPrimesAreAdvances(c, n, i);
    NextPrimesAreAdvances(c, n, i + 1);
    AdvanceValid(c, i + 1);
    FindNextIsNextPrime(Advance(c, i + 1));
  }

  /** `find_next` is characterised by its first hit: any odd `q` above the current prime that passes, with no passing odd number in between, is the result. */
  lemma FindNextFrom(c: Calculator, q: nat)
    requires Odd(c.currentPrime) && c.currentPrime < q && Odd(q) && IsPrime(q)
    requires forall k :: c.currentPrime < k < q && Odd(k) ==> !IsPrime(k)
    ensures FindNext(c).currentPrime == q
  {
    FindNextFirstHit(c);
    var r := FindNext(c).currentPrime;
    OddGap(c.currentPrime, r);
    OddGap(c.currentPrime, q);
  }

  /** From a fresh calculator the first three results are 5, 7 and 11. */
  lemma FirstPrimes()
    ensures Advance(New(), 1).currentPrime == 5
    ensures Advance(New(), 2).currentPrime == 7
    ensures Advance(New(), 3).currentPrime == 11
  {
    forall i | 3 <= i
      ensures i * i >= 9
    {
      MulMonotone(i, 3, i);
    }
    assert Divides(3, 9);
    var c1 := Advance(New(), 1);
    FindNextFrom(New(), 5);
    var c2 := Advance(New(), 2);
    FindNextFrom(c1, 7);
    FindNextFrom(c2, 11);
  }
}
