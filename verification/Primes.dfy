/** Divisors and primes, and that there is always a next one. */
module Primes {
  import opened Common

  predicate Divides(d: nat, n: nat) {
    d > 0 && n % d == 0
  }

  ghost predicate IsPrime(p: nat) {
    p >= 2 && forall d: nat :: 2 <= d < p ==> !Divides(d, p)
  }

  /* ---- Divisors ---- */

  lemma DividesTimes(d: nat, k: nat)
    requires d > 0
    ensures Divides(d, k * d)
  {
    var r := k * d % d;
    assert k * d == d * (k * d / d) + r;
    assert d * (k - k * d / d) == r;
    SmallMultiple(d, k - k * d / d);
  }

  lemma Quotient(d: nat, n: nat)
    requires Divides(d, n)
    ensures n == d * (n / d) && n / d >= 0
  {}

  lemma DividesTrans(a: nat, b: nat, c: nat)
    requires Divides(a, b) && Divides(b, c)
    ensures Divides(a, c)
  {
    Quotient(a, b);
    Quotient(b, c);
    assert c == a * (b / a) * (c / b) == (b / a) * (c / b) * a;
    Nonnegative(b / a, c / b);
    DividesTimes(a, (b / a) * (c / b));
  }

  lemma DividesDifference(d: nat, a: nat, b: nat)
    requires Divides(d, a) && Divides(d, b) && a <= b
    ensures Divides(d, b - a)
  {
    Quotient(d, a);
    Quotient(d, b);
    var k := b / d - a / d;
    assert b - a == d * k;
    SmallMultiple(d, k);
    if k >= 0 { DividesTimes(d, k); }
  }

  /** The least divisor from `d` on. */
  function LeastDivisor(n: nat, d: nat): (p: nat)
    requires 2 <= d <= n
    ensures d <= p <= n && Divides(p, n)
    ensures forall e: nat :: d <= e < p ==> !Divides(e, n)
    decreases n - d
  {
    if Divides(d, n) then d else LeastDivisor(n, d + 1)
  }

  lemma LeastDivisorIsPrime(n: nat)
    requires n >= 2
    ensures IsPrime(LeastDivisor(n, 2))
  {
    var p := LeastDivisor(n, 2);
    forall d: nat | 2 <= d < p ensures !Divides(d, p) {
      if Divides(d, p) { DividesTrans(d, p, n); }
    }
  }

  /** A composite number has a prime divisor up to its square root. */
  lemma SmallPrimeDivisor(n: nat) returns (p: nat)
    requires n >= 2 && !IsPrime(n)
    ensures IsPrime(p) && p < n && Divides(p, n) && p * p <= n
  {
    p := LeastDivisor(n, 2);
    LeastDivisorIsPrime(n);
    Quotient(p, n);
    var e := n / p;
    assert n == p * e;
    if e > 0 { DividesTimes(e, p); }
    assert e != 0 && e != 1;
    Grows(p, e);
  }

  lemma Grows(p: nat, e: nat)
    requires p <= e && p >= 2
    ensures p * p <= p * e && p < p * e
  {
    Nonnegative(p, e - p);
    assert p * e == p * p + p * (e - p);
    Nonnegative(p, p - 2);
    assert p * p == 2 * p + p * (p - 2);
  }

  /* ---- Euclid ---- */

  function Factorial(n: nat): (f: nat)
    ensures f >= 1
  {
    if n == 0 then 1 else n * Factorial(n - 1)
  }

  lemma {:induction false} DividesFactorial(d: nat, n: nat)
    requires 1 <= d <= n
    ensures Divides(d, Factorial(n))
  {
    if d == n {
      assert Factorial(n) == Factorial(n - 1) * n;
      DividesTimes(n, Factorial(n - 1));
    } else {
      DividesFactorial(d, n - 1);
      assert Factorial(n) == n * Factorial(n - 1);
      DividesTimes(Factorial(n - 1), n);
      DividesTrans(d, Factorial(n - 1), Factorial(n));
    }
  }

  /** There is always a next prime. */
  lemma Euclid(n: nat) returns (p: nat)
    ensures IsPrime(p) && n < p <= Factorial(n) + 1
  {
    var m := Factorial(n) + 1;
    p := LeastDivisor(m, 2);
    LeastDivisorIsPrime(m);
    if p <= n {
      DividesFactorial(p, n);
      DividesDifference(p, Factorial(n), m);
      assert false;
    }
  }
}
