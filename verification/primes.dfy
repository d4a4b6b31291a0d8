/**
 Trial-division primality as `PrimeCalculator.is_prime` computes it, and the
 number theory needed to relate it to real primality and to show that the
 search for the next prime always ends.

 `is_prime(num)` tests the divisors `range(3, int(num ** 0.5) + 1)`. The float
 square root is modelled as the exact integer square root `Isqrt`. Divisor 2
 is never tried, so the check only means "prime" for odd arguments.
 */
module Primes {

  predicate Odd(n: int) {
    n % 2 == 1
  }

  predicate Divides(d: nat, n: nat) {
    d > 0 && n % d == 0
  }

  /** Mathematical primality, the reference the trial test is compared with. */
  ghost predicate Prime(n: nat) {
    n >= 2 && forall d :: 2 <= d < n ==> !Divides(d, n)
  }

  /** Consecutive odd numbers are 2 apart. */
  lemma OddGap(a: int, b: int)
    ensures Odd(a) && Odd(b) && a < b ==> a + 2 <= b
  {
  }

  // ---------------------------------------------------------------------------
  // Integer square root

  /** The exact integer square root, standing for `int(num ** 0.5)`. */
  function Isqrt(n: nat): (r: nat)
    ensures r * r <= n < (r + 1) * (r + 1)
  {
    if n == 0 then 0
    else
      var s := Isqrt(n - 1);
      if (s + 1) * (s + 1) <= n then s + 1 else s
  }

  lemma MulMonotone(a: nat, b: nat, c: nat)
    ensures b <= c ==> a * b <= a * c
  {
  }

  lemma SquareMonotone(a: nat, b: nat)
    ensures a <= b ==> a * a <= b * b
  {
    MulMonotone(a, a, b);
    MulMonotone(b, a, b);
  }

  /** The square root is the only natural number whose square brackets `n`. */
  lemma IsqrtUnique(n: nat, r: nat)
    requires r * r <= n < (r + 1) * (r + 1)
    ensures Isqrt(n) == r
  {
    var s := Isqrt(n);
    SquareMonotone(s + 1, r);
    SquareMonotone(r + 1, s);
  }

  // ---------------------------------------------------------------------------
  // The trial-division test

  /**
   What `is_prime(n)` returns: no `i >= 3` whose square is at most `n` divides `n`
   (the bound `i <= n` is implied and only makes the range finite).
   `TrialDivisionRange` shows this is the source's range `3 ..= isqrt(n)`.
   */
  predicate IsPrime(n: nat) {
    forall i | 3 <= i <= n && i * i <= n :: !Divides(i, n)
  }

  /** The divisors `i * i <= n` are exactly those up to the integer square root. */
  lemma SquareBelowIffUpToIsqrt(n: nat, i: nat)
    ensures i * i <= n <==> i <= Isqrt(n)
  {
    var r := Isqrt(n);
    SquareMonotone(i, r);
    SquareMonotone(r + 1, i);
  }

  /** `IsPrime` tests exactly the divisor range `range(3, isqrt(n) + 1)` of the source. */
  lemma TrialDivisionRange(n: nat)
    ensures IsPrime(n) <==> forall i | 3 <= i <= Isqrt(n) :: !Divides(i, n)
  {
    forall i | 3 <= i
      ensures i <= n && i * i <= n <==> i <= Isqrt(n)
    {
      SquareBelowIffUpToIsqrt(n, i);
      SquareBoundBelow(n, i);
    }
  }

  /** `is_prime`: the source's loop over `range(3, max_divisor)` with its early `break`. */
  method TrialDivision(num: nat) returns (foundPrime: bool)
    ensures foundPrime <==> IsPrime(num)
  {
    foundPrime := true;
    var maxDivisor := Isqrt(num) + 1;
    var i := 3;
    while i < maxDivisor
      invariant 3 <= i
      invariant i <= maxDivisor || i == 3
      invariant forall j :: 3 <= j < i ==> !Divides(j, num)
    {
      if num % i == 0 {
        assert Divides(i, num);
        foundPrime := false;
        break;
      }
      i := i + 1;
    }
    TrialDivisionRange(num);
  }

  /** Divisor 2 is never tried: `is_prime(4)` holds although 4 is not prime. */
  lemma FourPassesTrialDivision()
    ensures IsPrime(4) && !Prime(4)
  {
    forall i | 3 <= i
      ensures i * i > 4
    {
      MulMonotone(i, 3, i);
    }
    assert Divides(2, 4);
  }

  // ---------------------------------------------------------------------------
  // Division facts

  /** Quotient and remainder are unique. */
  lemma ModUnique(x: int, a: int, q: int, r: int)
    requires a > 0 && x == a * q + r && 0 <= r < a
    ensures x % a == r && x / a == q
  {
    var k := q - x / a;
    assert a * k == x % a - r;
    MulBounds(a, k);
  }

  lemma MulBounds(a: int, k: int)
    requires a > 0
    ensures k >= 1 ==> a * k >= a
    ensures k <= -1 ==> a * k <= -a
  {
    if k >= 1 {
      assert a * k == a + a * (k - 1);
    } else if k <= -1 {
      assert a * k == -a + a * (k + 1);
    }
  }

  lemma MultipleDivides(a: nat, b: nat)
    requires a > 0
    ensures Divides(a, a * b)
  {
    ModUnique(a * b, a, b, 0);
  }

  lemma DividesProduct(d: nat, n: nat)
    requires Divides(d, n)
    ensures n == d * (n / d)
  {
  }

  lemma DividesTransitive(a: nat, b: nat, c: nat)
    ensures Divides(a, b) && Divides(b, c) ==> Divides(a, c)
  {
    if Divides(a, b) && Divides(b, c) {
      DividesProduct(a, b);
      DividesProduct(b, c);
      var k, m := b / a, c / b;
      assert c == a * (k * m);
      MultipleDivides(a, k * m);
    }
  }

  /** A divisor of `f` other than 1 does not divide `f + 1`. */
  lemma NotDividesSuccessor(p: nat, f: nat)
    requires p >= 2 && Divides(p, f)
    ensures !Divides(p, f + 1)
  {
    DividesProduct(p, f);
    ModUnique(f + 1, p, f / p, 1);
  }

  /** A divisor candidate `i >= 3` with `i * i <= n` lies strictly below `n`. */
  lemma SquareBoundBelow(n: nat, i: nat)
    ensures 3 <= i && i * i <= n ==> i < n
  {
    MulMonotone(i, 3, i);
  }

  // ---------------------------------------------------------------------------
  // Trial division agrees with primality on odd numbers

  lemma PrimePassesTrialDivision(n: nat)
    requires Prime(n)
    ensures IsPrime(n)
  {
    forall i | 3 <= i <= n && i * i <= n
      ensures !Divides(i, n)
    {
      SquareBoundBelow(n, i);
    }
  }

  /** An odd composite has an odd divisor no larger than its square root. */
  lemma OddCompositeFailsTrialDivision(n: nat, d: nat)
    requires Odd(n) && 2 <= d < n && Divides(d, n)
    ensures !IsPrime(n)
  {
    DividesProduct(d, n);
    var q := n / d;
    assert n == d * q;
    MulMonotone(d, q, 1);
    assert q >= 2;
    var a, b := if d <= q then d else q, if d <= q then q else d;
    assert n == a * b;
    assert a * a <= n by {
      MulMonotone(a, a, b);
    }
    MultipleDivides(a, b);
    assert Divides(a, n);
    assert a >= 3;
  }

  /** For an odd `n >= 3`, `is_prime(n)` is exactly primality. */
  lemma {:induction false} IsPrimeIffPrime(n: nat)
    requires n >= 3 && Odd(n)
    ensures IsPrime(n) <==> Prime(n)
  {
    if Prime(n) {
      PrimePassesTrialDivision(n);
    } else {
      var d :| 2 <= d < n && Divides(d, n);
      OddCompositeFailsTrialDivision(n, d);
    }
  }

  // ---------------------------------------------------------------------------
  // There is always a larger odd prime (Euclid)

  ghost function Fact(n: nat): (f: nat)
    ensures f >= 1
  {
    if n == 0 then 1 else n * Fact(n - 1)
  }

  lemma {:induction false} FactDivisible(n: nat, k: nat)
    requires 1 <= k <= n
    ensures Divides(k, Fact(n))
  {
    if k == n {
      MultipleDivides(n, Fact(n - 1));
    } else {
      FactDivisible(n - 1, k);
      MultipleDivides(Fact(n - 1), n);
      assert Fact(n - 1) * n == Fact(n);
      DividesTransitive(k, Fact(n - 1), Fact(n));
    }
  }

  /** The least divisor of `n` that is at least `k`, given none below `k` (from 2). */
  ghost function SmallestDivisorFrom(n: nat, k: nat): (d: nat)
    requires 2 <= k <= n
    requires forall j :: 2 <= j < k ==> !Divides(j, n)
    ensures k <= d <= n && Divides(d, n)
    ensures forall j :: 2 <= j < d ==> !Divides(j, n)
    decreases n - k
  {
    ModUnique(n, n, 1, 0);
    if n % k == 0 then k else SmallestDivisorFrom(n, k + 1)
  }

  lemma SmallestDivisorIsPrime(n: nat)
    requires n >= 2
    ensures Prime(SmallestDivisorFrom(n, 2))
  {
    var p := SmallestDivisorFrom(n, 2);
    forall j | 2 <= j < p
      ensures !Divides(j, p)
    {
      DividesTransitive(j, p, n);
    }
  }

  /** Every natural number is exceeded by some odd prime. */
  lemma {:induction false} OddPrimeAbove(c: nat) returns (p: nat)
    ensures p > c && Odd(p) && Prime(p)
  {
    if c < 3 {
      p := 3;
      assert Prime(3) by {
        forall d | 2 <= d < 3
          ensures !Divides(d, 3)
        {
          assert d == 2;
        }
      }
    } else {
      var f := Fact(c);
      var n := f + 1;
      forall k | 2 <= k <= c
        ensures !Divides(k, n)
      {
        FactDivisible(c, k);
        NotDividesSuccessor(k, f);
      }
      p := SmallestDivisorFrom(n, 2);
      SmallestDivisorIsPrime(n);
      DividesTransitive(2, p, n);
    }
  }

  /** The form the prime search uses: an odd number above `c` that passes the trial test. */
  lemma OddTrialPrimeAbove(c: nat)
    ensures exists p :: p > c && Odd(p) && IsPrime(p)
  {
    var p := OddPrimeAbove(c);
    PrimePassesTrialDivision(p);
  }
}
