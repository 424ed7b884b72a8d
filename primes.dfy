/** The seed progression of the experiment loops rests on Apache Commons
    Math's `Primes.nextPrime(n)`, documented as "the smallest prime greater
    than or equal to n". It is modelled here by its documented result (not by
    the library's stepping algorithm), with a proof that such a prime always
    exists, so the search terminates. */
module Primes {

  predicate IsPrime(n: int)
  {
    n >= 2 && forall d :: 2 <= d < n ==> n % d != 0
  }

  function Factorial(n: nat): (f: nat)
    ensures f >= 1
  {
    if n == 0 then 1 else n * Factorial(n - 1)
  }

  /** a * d lies strictly between -d and d only for a == 0. */
  lemma ZeroFactor(a: int, d: int, e: int)
    requires d >= 1 && -d < e < d && a * d == e
    ensures a == 0
  {
    if a != 0 {
      if a > 0 { MultiplyAtLeast(a - 1, d); } else { MultiplyAtLeast(-a - 1, d); }
    }
  }

  lemma MultiplyAtLeast(a: nat, d: nat)
    ensures (a + 1) * d >= d
  {
  }

  lemma MultipleMod(c: int, d: int)
    requires d >= 1
    ensures (c * d) % d == 0
  {
    var q := (c * d) / d;
    var r := (c * d) % d;
    assert (c - q) * d == r;
    ZeroFactor(c - q, d, r);
  }

  lemma MultiplePlusOneMod(c: int, d: int)
    requires d >= 2
    ensures (c * d + 1) % d == 1
  {
    var q := (c * d + 1) / d;
    var r := (c * d + 1) % d;
    assert (c - q) * d == r - 1;
    ZeroFactor(c - q, d, r - 1);
  }

  /** Divisibility is transitive. */
  lemma DividesTransitive(e: int, q: int, m: int)
    requires e >= 1 && q >= 1
    requires q % e == 0 && m % q == 0
    ensures m % e == 0
  {
    var a := q / e;
    var b := m / q;
    assert q == a * e;
    assert m == b * q;
    assert m == (a * b) * e by {
      calc {
        m;
        b * q;
        b * (a * e);
        (a * b) * e;
      }
    }
    MultipleMod(a * b, e);
  }

  lemma {:induction false} FactorialDivisible(n: nat, d: int)
    requires 1 <= d <= n
    ensures Factorial(n) % d == 0
  {
    var f := Factorial(n - 1);
    assert Factorial(n) == n * f;
    if d == n {
      assert n * f == f * n;
      MultipleMod(f, n);
    } else {
      FactorialDivisible(n - 1, d);
      var c := f / d;
      assert f == c * d;
      assert n * f == (n * c) * d by {
        assert n * (c * d) == (n * c) * d;
      }
      MultipleMod(n * c, d);
    }
  }

  /** The least divisor of `m` that is at least `k`. */
  function LeastDivisorFrom(m: int, k: int): (d: int)
    requires 2 <= k <= m
    ensures k <= d <= m && m % d == 0
    ensures forall e :: k <= e < d ==> m % e != 0
    decreases m - k
  {
    if m % k == 0 then k else LeastDivisorFrom(m, k + 1)
  }

  lemma LeastDivisorIsPrime(m: int)
    requires m >= 2
    ensures IsPrime(LeastDivisorFrom(m, 2))
  {
    var q := LeastDivisorFrom(m, 2);
    forall e | 2 <= e < q ensures q % e != 0 {
      if q % e == 0 {
        DividesTransitive(e, q, m);
        assert false;
      }
    }
  }

  /** Euclid: there is a prime at least `n` — the least divisor of n! + 1
      above 1, which cannot be any of 2..n. */
  lemma PrimeAtLeast(n: nat)
    ensures IsPrime(LeastDivisorFrom(Factorial(n) + 1, 2))
    ensures n < LeastDivisorFrom(Factorial(n) + 1, 2)
  {
    var m := Factorial(n) + 1;
    var p := LeastDivisorFrom(m, 2);
    LeastDivisorIsPrime(m);
    if p <= n {
      FactorialDivisible(n, p);
      SuccessorOfMultiple(Factorial(n), p);
      assert false;
    }
  }

  /** The successor of a multiple of `d` leaves remainder 1. */
  lemma SuccessorOfMultiple(f: int, d: int)
    requires d >= 2 && f % d == 0
    ensures (f + 1) % d == 1
  {
    var c := f / d;
    assert f == c * d;
    MultiplePlusOneMod(c, d);
  }

  ghost function PrimeWitness(n: nat): (p: int)
    ensures IsPrime(p) && p >= n
  {
    PrimeAtLeast(n);
    LeastDivisorFrom(Factorial(n) + 1, 2)
  }

  function SearchPrime(n: nat, k: int): (p: int)
    requires n <= k <= PrimeWitness(n)
    requires forall j :: n <= j < k ==> !IsPrime(j)
    ensures IsPrime(p) && k <= p
    ensures forall j :: n <= j < p ==> !IsPrime(j)
    decreases PrimeWitness(n) - k
  {
    if IsPrime(k) then k else SearchPrime(n, k + 1)
  }

  /** `Primes.nextPrime(n)`: the smallest prime that is at least `n`. */
  function NextPrime(n: nat): (p: int)
    ensures IsPrime(p) && n <= p
    ensures forall j :: n <= j < p ==> !IsPrime(j)
  {
    SearchPrime(n, n)
  }

  /** `b` is the least prime above `a`. */
  predicate NextPrimeAfter(a: int, b: int)
  {
    a < b && IsPrime(b) && forall q :: a < q < b ==> !IsPrime(q)
  }

  /** The three properties in `NextPrime`'s contract pin its value down. */
  lemma NextPrimeIs(n: nat, p: int)
    requires IsPrime(p) && n <= p
    requires forall j :: n <= j < p ==> !IsPrime(j)
    ensures NextPrime(n) == p
  {
  }

  lemma PrimeByCases(n: int)
    requires 2 <= n <= 11 && n != 4 && n != 6 && n != 8 && n != 9 && n != 10
    ensures IsPrime(n)
  {
    forall d | 2 <= d < n ensures n % d != 0 {
      assert d == 2 || d == 3 || d == 4 || d == 5 || d == 6 || d == 7 || d == 8 || d == 9 || d == 10;
    }
  }

  /** The first values `nextPrime` takes along the seed progression. */
  lemma SmallNextPrimes()
    ensures NextPrime(2) == 2 && NextPrime(3) == 3 && NextPrime(4) == 5
    ensures NextPrime(6) == 7 && NextPrime(8) == 11
  {
    PrimeByCases(2);
    PrimeByCases(3);
    PrimeByCases(5);
    PrimeByCases(7);
    PrimeByCases(11);
    assert 4 % 2 == 0 && 6 % 2 == 0 && 8 % 2 == 0 && 9 % 3 == 0 && 10 % 2 == 0;
    NextPrimeIs(2, 2);
    NextPrimeIs(3, 3);
    NextPrimeIs(4, 5);
    NextPrimeIs(6, 7);
    NextPrimeIs(8, 11);
  }
}
