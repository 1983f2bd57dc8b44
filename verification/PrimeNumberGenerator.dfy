/** The table of primes behind the schema hash: grown by trial division. */
module PrimeNumberGenerator {
  import opened Common
  import opened Primes
  import opened PrimeGaps

  /* ---- The table ---- */

  /** All primes up to its last entry, in ascending order. */
  ghost predicate IsTable(s: seq<nat>) {
    && s != []
    && (forall i :: 0 <= i < |s| ==> IsPrime(s[i]))
    && (forall i, j :: 0 <= i < j < |s| ==> s[i] < s[j])
    && (forall p: nat :: IsPrime(p) && p <= s[|s| - 1] ==> p in s)
  }

  ghost function PrimesBelow(n: nat): set<nat> {
    set p: nat | p < n && IsPrime(p)
  }

  /** The primes below an entry are those below the entry before it, and that one. */
  lemma PrimesBetween(s: seq<nat>, n: nat, p: nat)
    requires IsTable(s) && n < |s|
    ensures IsPrime(p) && p < s[n] <==> n > 0 && ((IsPrime(p) && p < s[n - 1]) || p == s[n - 1])
  {
    if IsPrime(p) && p < s[n] {
      assert s[n] <= s[|s| - 1];
      assert p in s;
      var i :| 0 <= i < |s| && s[i] == p;
      assert i < n;
    }
  }

  /** Entry `n` has exactly `n` primes below it. */
  lemma {:induction false} TableCounts(s: seq<nat>, n: nat)
    requires IsTable(s) && n < |s|
    ensures |PrimesBelow(s[n])| == n
    decreases n
  {
    forall p: nat ensures p in PrimesBelow(s[n]) <==> n > 0 && p in PrimesBelow(s[n - 1]) + {s[n - 1]} {
      PrimesBetween(s, n, p);
    }
    hide IsPrime, IsTable;
    if n == 0 {
      assert PrimesBelow(s[0]) == {};
    } else {
      TableCounts(s, n - 1);
      assert PrimesBelow(s[n]) == PrimesBelow(s[n - 1]) + {s[n - 1]};
    }
  }

  class PrimeNumberGenerator {
    var primes: seq<nat>

    ghost predicate Valid()
      reads this
    {
      IsTable(primes) && primes[0] == 2
    }

    constructor ()
      ensures Valid() && primes == [2]
    {
      primes := [2];
    }

    /** Trial division. The assertion on the index never trips. */
    method TestCandidate(candidate: nat) returns (maybePrime: bool)
      requires Valid() && primes[|primes| - 1] < candidate
      requires forall p: nat :: primes[|primes| - 1] < p < candidate ==> !IsPrime(p)
      ensures maybePrime <==> IsPrime(candidate)
    {
      hide IsPrime, IsTable, Divides;
      maybePrime := true;
      var j := 0;
      TableEntry(primes, 0);
      LastSquareIsAbove(primes, candidate);
      while maybePrime && primes[j] * primes[j] <= candidate
        invariant 0 <= j < |primes|
        invariant maybePrime ==> forall k :: 0 <= k < j ==> !Divides(primes[k], candidate)
        invariant !maybePrime ==> !IsPrime(candidate)
        decreases |primes| - j
      {
        TableEntry(primes, j);
        DividesIff(primes[j], candidate);
        if primes[j] * (candidate / primes[j]) == candidate {
          Composite(primes[j], candidate);
          maybePrime := false;
        }
        j := j + 1;
        assert j < |primes|;
      }
      if maybePrime { DivisorWasTried(primes, candidate, j); }
    }

    /** operator[] on a non-negative index: the nth prime. */
    method At(n: nat) returns (r: nat)
      requires Valid()
      modifies this
      ensures Valid() && old(primes) <= primes
      ensures IsPrime(r) && |PrimesBelow(r)| == n && n < |primes| && primes[n] == r
    {
      var candidate := primes[|primes| - 1] + 1;
      while |primes| <= n
        invariant Valid() && old(primes) <= primes && primes[|primes| - 1] < candidate
        invariant forall p: nat :: primes[|primes| - 1] < p < candidate ==> !IsPrime(p)
        decreases n - |primes|, Factorial(primes[|primes| - 1]) + 1 - candidate
      {
        ghost var next := Euclid(primes[|primes| - 1]);
        var maybePrime := TestCandidate(candidate);
        if maybePrime {
          TableGrows(primes, candidate);
          primes := primes + [candidate];
        }
        candidate := candidate + 1;
      }
      TableCounts(primes, n);
      r := primes[n];
    }
  }

  /** The division stops before the table does: the next prime is below the square of the
      last one, and the candidate is not behind it. */
  lemma LastSquareIsAbove(s: seq<nat>, candidate: nat)
    requires IsTable(s) && s[|s| - 1] < candidate
    requires forall p: nat :: s[|s| - 1] < p < candidate ==> !IsPrime(p)
    ensures s[|s| - 1] * s[|s| - 1] > candidate
  {
    assert IsPrime(s[|s| - 1]);
    var next := PrimeBelowSquare(s[|s| - 1]);
    assert candidate <= next;
  }

  lemma TableEntry(s: seq<nat>, i: nat)
    requires IsTable(s)
    ensures |s| > 0 && (i < |s| ==> 2 <= s[i] <= s[|s| - 1])
  {}

  lemma DividesIff(d: nat, n: nat)
    requires d > 0
    ensures d * (n / d) == n <==> Divides(d, n)
  {}

  lemma Composite(d: nat, n: nat)
    requires 2 <= d < n && Divides(d, n)
    ensures !IsPrime(n)
  {}

  /** If the candidate is not prime, one of the primes up to its square root divides it. */
  lemma DivisorWasTried(s: seq<nat>, candidate: nat, j: nat)
    requires IsTable(s) && candidate >= 2
    requires forall q: nat :: s[|s| - 1] < q < candidate ==> !IsPrime(q)
    requires j < |s| && s[j] * s[j] > candidate
    ensures !IsPrime(candidate) ==> exists k :: 0 <= k < j && Divides(s[k], candidate)
  {
    if !IsPrime(candidate) {
      var p := SmallPrimeDivisor(candidate);
      assert p in s;
      var i :| 0 <= i < |s| && s[i] == p;
      Squares(s[j], p);
      assert i < j;
    }
  }

  lemma Squares(a: nat, b: nat)
    ensures a <= b ==> a * a <= b * b
  {
    if a <= b {
      assert b * b == a * a + a * (b - a) + (b - a) * b;
      Nonnegative(a, b - a);
      Nonnegative(b - a, b);
    }
  }

  lemma TableGrows(s: seq<nat>, p: nat)
    requires IsTable(s) && IsPrime(p) && s[|s| - 1] < p
    requires forall q: nat :: s[|s| - 1] < q < p ==> !IsPrime(q)
    ensures IsTable(s + [p])
  {
    var t := s + [p];
    forall q: nat | IsPrime(q) && q <= p ensures q in t {
      if q < p {
        assert q in s;
      } else {
        assert t[|s|] == q;
      }
    }
  }
}
