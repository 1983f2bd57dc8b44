/** Between a number and its square there is a prime. The common multiples of 1 to N are at
    least 2^(N - 1), by the harmonic triangle of Leibniz; without a prime between n and N
    there would be one of at most N to the number of primes up to n. */
module PrimeGaps {
  import opened Common
  import opened Primes

  /* ---- Powers ---- */

  function Pow(b: nat, e: nat): (r: nat)
    ensures b > 0 ==> r > 0
  {
    if e == 0 then 1 else Positive(b, Pow(b, e - 1))
  }

  function Positive(b: nat, c: nat): (r: nat)
    ensures r == b * c && (b > 0 && c > 0 ==> r > 0)
  {
    ProductOf(b, c);
    b * c
  }

  lemma ProductOf(b: nat, c: nat)
    ensures b * c >= 0 && (b > 0 && c > 0 ==> b * c > 0)
  {
    if b > 0 && c > 0 { SmallMultiple(b, c); }
  }

  /** Products grow with their factors. */
  lemma Products(a: nat, b: nat, c: nat, d: nat)
    requires a <= b && c <= d
    ensures a * c <= b * d
  {
    Nonnegative(b - a, c);
    Nonnegative(b, d - c);
    assert b * d == a * c + (b - a) * c + b * (d - c);
  }

  lemma {:induction false} PowGrows(a: nat, b: nat, e: nat)
    requires a <= b
    ensures Pow(a, e) <= Pow(b, e)
    decreases e
  {
    if e > 0 {
      PowGrows(a, b, e - 1);
      Products(a, b, Pow(a, e - 1), Pow(b, e - 1));
    }
  }

  lemma {:induction false} PowSum(b: nat, d: nat, e: nat)
    ensures Pow(b, d + e) == Pow(b, d) * Pow(b, e)
    decreases d
  {
    if d > 0 {
      PowSum(b, d - 1, e);
      Regroup(b, Pow(b, d - 1), Pow(b, e));
    }
  }

  lemma Regroup(a: int, b: int, c: int)
    ensures a * (b * c) == (a * b) * c
  {
  }

  lemma {:induction false} PowPow(b: nat, d: nat, e: nat)
    ensures d * e >= 0 && Pow(Pow(b, d), e) == Pow(b, d * e)
    decreases e
  {
    Nonnegative(d, e);
    if e > 0 {
      PowPow(b, d, e - 1);
      assert d * e == d + d * (e - 1);
      PowSum(b, d, d * (e - 1));
    }
  }

  lemma {:induction false} TwoGrows(d: nat, e: nat)
    requires d < e
    ensures 2 * Pow(2, d) <= Pow(2, e)
    decreases e
  {
    if d < e - 1 { TwoGrows(d, e - 1); }
  }

  lemma {:induction false} SquareIsSmall(n: nat)
    requires n >= 5
    ensures n * n < Pow(2, n)
  {
    if n == 5 {
      assert Pow(2, 3) == 8 && Pow(2, 5) == 32;
    } else {
      SquareIsSmall(n - 1);
      var m := n - 1;
      assert n * n == m * m + 2 * m + 1;
      Products(5, m, m, m);
    }
  }

  /* ---- Divisibility of products ---- */

  lemma DividesWitness(d: nat, n: nat, k: nat)
    requires d > 0 && n == d * k
    ensures Divides(d, n)
  {
    DividesTimes(d, k);
  }

  lemma DividesProduct(a: nat, b: nat, c: nat, d: nat)
    requires Divides(a, b) && Divides(c, d)
    ensures Divides(a * c, b * d)
  {
    Quotient(a, b);
    Quotient(c, d);
    ProductOf(a, c);
    Nonnegative(b / a, d / c);
    assert b * d == a * (b / a) * (c * (d / c)) == (a * c) * ((b / a) * (d / c));
    DividesWitness(a * c, b * d, (b / a) * (d / c));
  }

  lemma DivisorIsSmaller(d: nat, n: nat)
    requires Divides(d, n) && n > 0
    ensures d <= n
  {
    Quotient(d, n);
    SmallMultiple(d, n / d);
  }

  /* ---- Binomial coefficients ---- */

  function Binomial(n: nat, k: nat): nat {
    if k == 0 then 1 else if n == 0 then 0 else Binomial(n - 1, k - 1) + Binomial(n - 1, k)
  }

  lemma {:induction false} NoMoreThanAll(n: nat, k: nat)
    requires k > n
    ensures Binomial(n, k) == 0
    decreases n
  {
    if n > 0 {
      NoMoreThanAll(n - 1, k - 1);
      NoMoreThanAll(n - 1, k);
    }
  }

  lemma {:induction false} SomeChoices(n: nat, k: nat)
    requires k <= n
    ensures Binomial(n, k) > 0
    decreases n
  {
    if k > 0 { SomeChoices(n - 1, k - 1); }
  }

  lemma {:induction false} Symmetric(n: nat, k: nat)
    requires k <= n
    ensures Binomial(n, k) == Binomial(n, n - k)
    decreases n
  {
    if n > 0 {
      if k == 0 {
        NoMoreThanAll(n - 1, n);
        Symmetric(n - 1, 0);
      } else if k == n {
        NoMoreThanAll(n - 1, n);
        Symmetric(n - 1, n - 1);
      } else {
        Symmetric(n - 1, k - 1);
        Symmetric(n - 1, k);
      }
    }
  }

  lemma {:induction false} Absorb(n: nat, k: nat)
    requires n > 0 && k > 0
    ensures k * Binomial(n, k) == n * Binomial(n - 1, k - 1)
    decreases n
  {
    if n == 1 {
      if k > 1 {
        NoMoreThanAll(1, k);
        NoMoreThanAll(0, k - 1);
      } else {
        assert Binomial(1, 1) == Binomial(0, 0) + Binomial(0, 1);
      }
    } else if k == 1 {
      Absorb(n - 1, 1);
      assert Binomial(n, 1) == Binomial(n - 1, 0) + Binomial(n - 1, 1);
    } else {
      Absorb(n - 1, k - 1);
      Absorb(n - 1, k);
      AbsorbStep(n, k, Binomial(n - 1, k - 1), Binomial(n - 1, k), Binomial(n - 2, k - 1), Binomial(n - 2, k - 2));
    }
  }

  lemma AbsorbStep(n: nat, k: nat, x: nat, y: nat, z: nat, w: nat)
    requires (k - 1) * x == (n - 1) * w && k * y == (n - 1) * z && x == w + z
    ensures k * (x + y) == n * x
  {
    assert k * (x + y) == (k - 1) * x + x + k * y;
    assert (n - 1) * w + (n - 1) * z == (n - 1) * x;
    assert (n - 1) * x + x == n * x;
  }

  /** The middle coefficient is large. */
  lemma {:induction false} MiddleIsLarge(k: nat)
    requires k > 0
    ensures Pow(4, k) <= 2 * k * Binomial(2 * k, k)
    decreases k
  {
    if k == 1 {
      assert Binomial(2, 1) == Binomial(1, 0) + Binomial(1, 1);
      assert Binomial(1, 1) == Binomial(0, 0) + Binomial(0, 1);
      assert Pow(4, 1) == 4 * Pow(4, 0);
    } else {
      var j := k - 1;
      MiddleIsLarge(j);
      NextMiddle(j);
      MiddleStep(j, Binomial(2 * j, j), Binomial(2 * k, k), Pow(4, j));
    }
  }

  lemma NextMiddle(j: nat)
    ensures (j + 1) * Binomial(2 * j + 2, j + 1) == 2 * ((2 * j + 1) * Binomial(2 * j, j))
  {
    Symmetric(2 * j + 1, j);
    Absorb(2 * j + 1, j + 1);
    assert Binomial(2 * j + 2, j + 1) == Binomial(2 * j + 1, j) + Binomial(2 * j + 1, j + 1);
    var x := Binomial(2 * j + 1, j + 1);
    assert (j + 1) * (x + x) == 2 * ((j + 1) * x);
  }

  lemma MiddleStep(j: nat, x: nat, y: nat, power: nat)
    requires power <= 2 * j * x && (j + 1) * y == 2 * ((2 * j + 1) * x)
    ensures 4 * power <= 2 * (j + 1) * y
  {
    assert 2 * (j + 1) * y == 2 * ((j + 1) * y);
    assert (2 * j + 1) * x == 2 * j * x + x;
  }

  /* ---- The harmonic triangle ---- */

  /** Every number from 1 to `n` divides `d`. */
  ghost predicate CommonMultiple(d: nat, n: nat) {
    forall m: nat :: 1 <= m <= n ==> Divides(m, d)
  }

  /** A common multiple of 1 to `n` is one of the entries k * C(n, k) too. */
  lemma {:induction false} TriangleDivides(d: nat, n: nat, k: nat)
    requires CommonMultiple(d, n) && 1 <= k <= n && d > 0
    ensures k * Binomial(n, k) > 0 && Divides(k * Binomial(n, k), d)
    decreases k
  {
    SomeChoices(n, k);
    ProductOf(k, Binomial(n, k));
    if k == 1 {
      Absorb(n, 1);
      assert Binomial(n, 1) == n;
    } else {
      var j := k - 1;
      TriangleDivides(d, n - 1, j);
      TriangleDivides(d, n, j);
      TriangleStep(n, j);
      HarmonicStep(d, k * Binomial(n, k), j * Binomial(n - 1, j), j * Binomial(n, j));
    }
  }

  /** 1 / T(n, j + 1) = 1 / T(n - 1, j) - 1 / T(n, j), without the fractions. */
  lemma TriangleStep(n: nat, j: nat)
    requires 1 <= j < n
    ensures var t, a, b := (j + 1) * Binomial(n, j + 1), j * Binomial(n - 1, j), j * Binomial(n, j);
            t * (b - a) == a * b
  {
    Absorb(n, j + 1);
    Absorb(n, j);
    var x, y := Binomial(n - 1, j), Binomial(n - 1, j - 1);
    assert Binomial(n, j) == y + x;
    hide Binomial;
    TriangleProducts(n, j, x, y, (j + 1) * Binomial(n, j + 1), j * Binomial(n, j));
  }

  lemma TriangleProducts(n: nat, j: nat, x: nat, y: nat, t: nat, b: nat)
    requires t == n * x && b == n * y == j * (y + x)
    ensures t * (b - j * x) == (j * x) * b
  {
    assert b - j * x == j * y;
    assert (n * x) * (j * y) == (j * x) * (n * y);
  }

  lemma HarmonicStep(d: nat, t: nat, a: nat, b: nat)
    requires t > 0 && t * (b - a) == a * b && Divides(a, d) && Divides(b, d)
    ensures Divides(t, d)
  {
    Quotient(a, d);
    Quotient(b, d);
    var x, y := d / a, d / b;
    Fractions(d, t, a, b, x, y);
    if x < y { SmallMultiple(t, x - y); }
    DividesWitness(t, d, x - y);
  }

  lemma Fractions(d: nat, t: nat, a: nat, b: nat, x: nat, y: nat)
    requires a > 0 && b > 0 && t * (b - a) == a * b && d == a * x == b * y
    ensures t * (x - y) == d
  {
    ProductOf(a, b);
    assert (t * (x - y)) * (a * b) == t * ((a * x) * b - (b * y) * a);
    assert t * (d * b - d * a) == d * (t * (b - a));
    Cancel(t * (x - y), d, a * b);
  }

  lemma Cancel(x: int, y: int, m: nat)
    requires m > 0 && x * m == y * m
    ensures x == y
  {
    assert (x - y) * m == 0;
    SmallMultiple(m, x - y);
  }

  /** So it is at least 2^(n - 1), for even n. */
  lemma CommonMultipleIsLarge(d: nat, k: nat)
    requires CommonMultiple(d, 2 * k) && k > 0 && d > 0
    ensures Pow(2, 2 * k) <= 2 * d
  {
    TriangleDivides(d, 2 * k, k);
    DivisorIsSmaller(k * Binomial(2 * k, k), d);
    MiddleIsLarge(k);
    assert 2 * k * Binomial(2 * k, k) == 2 * (k * Binomial(2 * k, k));
    assert Pow(2, 2) == 4;
    PowPow(2, 2, k);
  }

  /* ---- A small common multiple, if the primes are few ---- */

  lemma SmallerQuotient(q: nat, n: nat)
    requires q >= 2 && n >= q
    ensures 1 <= n / q < n && q * (n / q) <= n
  {
    var d := n / q;
    assert n == q * d + n % q;
    if d < 1 { SmallMultiple(q, d - 1); }
    Products(2, q, d, d);
  }

  /** The largest power of `q` up to `n`. */
  function Top(q: nat, n: nat): (r: nat)
    requires q >= 2
    ensures r >= 1
    decreases n
  {
    if n < q then 1 else
      SmallerQuotient(q, n);
      Positive(q, Top(q, n / q))
  }

  lemma {:induction false} TopIsSmall(q: nat, n: nat)
    requires q >= 2 && n >= 1
    ensures Top(q, n) <= n
    decreases n
  {
    if n >= q {
      SmallerQuotient(q, n);
      TopIsSmall(q, n / q);
      Products(q, q, Top(q, n / q), n / q);
    }
  }

  /** The largest power of `q` that divides `m`. */
  function Part(q: nat, m: nat): (r: nat)
    requires q >= 2 && m >= 1
    ensures r >= 1
    decreases m
  {
    if !Divides(q, m) then 1 else
      DividedIsSmaller(q, m);
      Positive(q, Part(q, m / q))
  }

  lemma DividedIsSmaller(q: nat, m: nat)
    requires q >= 2 && m >= 1 && Divides(q, m)
    ensures q <= m && 1 <= m / q < m && m == q * (m / q)
  {
    DivisorIsSmaller(q, m);
    SmallerQuotient(q, m);
    Quotient(q, m);
  }

  lemma {:induction false} PartOfTop(q: nat, m: nat, n: nat)
    requires q >= 2 && 1 <= m <= n
    ensures Divides(Part(q, m), Top(q, n))
    decreases m
  {
    hide Divides;
    if Divides(q, m) {
      DividedIsSmaller(q, m);
      SmallerQuotient(q, n);
      QuotientsGrow(q, m, n);
      PartOfTop(q, m / q, n / q);
      DividesWitness(q, q, 1);
      DividesProduct(q, q, Part(q, m / q), Top(q, n / q));
    } else {
      DividesWitness(1, Top(q, n), Top(q, n));
    }
  }

  lemma QuotientsGrow(q: nat, m: nat, n: nat)
    requires q >= 1 && m <= n
    ensures m / q <= n / q
  {
    assert m == q * (m / q) + m % q && n == q * (n / q) + n % q;
    if m / q > n / q { SmallMultiple(q, m / q - n / q); }
  }

  /** What is left of a number without its factors `q`. */
  lemma {:induction false} Rest(q: nat, m: nat) returns (r: nat)
    requires q >= 2 && m >= 1
    ensures m == Part(q, m) * r && 1 <= r <= m && !Divides(q, r) && Divides(r, m)
    decreases m
  {
    hide Divides;
    if Divides(q, m) {
      DividedIsSmaller(q, m);
      r := Rest(q, m / q);
      RestStep(q, m, Part(q, m / q), r);
    } else {
      r := m;
      DividesWitness(m, m, 1);
    }
  }

  lemma RestStep(q: nat, m: nat, part: nat, r: nat)
    requires q >= 1 && r >= 1 && m == q * (m / q) && m / q == part * r && m >= 1
    ensures m == (q * part) * r && r <= m && Divides(r, m)
  {
    Nonnegative(q, part);
    assert q * (part * r) == (q * part) * r;
    DividesTimes(r, q * part);
    DivisorIsSmaller(r, m);
  }

  /** The product of the largest powers. */
  function Tops(s: seq<nat>, n: nat): (r: nat)
    requires forall i :: 0 <= i < |s| ==> s[i] >= 2
    ensures r >= 1
  {
    if s == [] then 1 else Positive(Top(s[0], n), Tops(s[1..], n))
  }

  lemma {:induction false} TopsAreSmall(s: seq<nat>, n: nat)
    requires n >= 1 && forall i :: 0 <= i < |s| ==> s[i] >= 2
    ensures Tops(s, n) <= Pow(n, |s|)
    decreases |s|
  {
    if s != [] {
      TopsAreSmall(s[1..], n);
      TopIsSmall(s[0], n);
      Products(Top(s[0], n), n, Tops(s[1..], n), Pow(n, |s| - 1));
    }
  }

  /** A number up to `n` divides it, if all prime divisors of the number are in the list. */
  lemma {:induction false} TopsAreMultiple(s: seq<nat>, n: nat, m: nat)
    requires 1 <= m <= n && forall i :: 0 <= i < |s| ==> s[i] >= 2
    requires forall q: nat :: IsPrime(q) && Divides(q, m) ==> q in s
    ensures Divides(m, Tops(s, n))
    decreases |s|
  {
    if m == 1 {
      DividesWitness(1, Tops(s, n), Tops(s, n));
    } else if s == [] {
      LeastDivisorIsPrime(m);
    } else {
      var q := s[0];
      var r := Rest(q, m);
      PartOfTop(q, m, n);
      forall p: nat | IsPrime(p) && Divides(p, r) ensures p in s[1..] {
        DividesTrans(p, r, m);
        assert p in s && p != q;
      }
      TopsAreMultiple(s[1..], n, r);
      DividesProduct(Part(q, m), Top(q, n), r, Tops(s[1..], n));
    }
  }

  /* ---- The gap ---- */

  /** The primes up to `n`. */
  ghost function PrimesUpTo(n: nat): (s: seq<nat>)
    ensures forall p: nat :: p in s <==> IsPrime(p) && p <= n
    ensures forall i :: 0 <= i < |s| ==> s[i] >= 2
  {
    if n == 0 then [] else if IsPrime(n) then PrimesUpTo(n - 1) + [n] else PrimesUpTo(n - 1)
  }

  /** Of two numbers in a row, one is even. */
  lemma {:induction false} PrimesAreFew(n: nat)
    requires n >= 2
    ensures 2 * |PrimesUpTo(n)| <= n + 1
    decreases n
  {
    hide IsPrime;
    if n <= 3 {
      FirstPrimes();
    } else {
      PrimesAreFew(n - 2);
      if n % 2 == 0 { EvenIsComposite(n); } else { EvenIsComposite(n - 1); }
      assert |PrimesUpTo(n - 1)| <= |PrimesUpTo(n - 2)| + 1;
    }
  }

  lemma FirstPrimes()
    ensures |PrimesUpTo(2)| <= 1 && |PrimesUpTo(3)| <= 2
  {
    assert PrimesUpTo(0) == [] && PrimesUpTo(1) == [];
  }

  lemma EvenIsComposite(n: nat)
    requires n >= 3 && n % 2 == 0
    ensures !IsPrime(n)
  {
    assert Divides(2, n);
  }

  lemma SmallPrimes()
    ensures IsPrime(3) && IsPrime(5)
  {
    assert !Divides(2, 3) && !Divides(2, 5) && !Divides(3, 5) && !Divides(4, 5);
  }

  /** Without a prime between n and n^2 there is a small common multiple. */
  lemma GapBoundsPower(n: nat, k: nat)
    requires n >= 5 && 1 <= 2 * k < n * n && forall p: nat :: n < p < n * n ==> !IsPrime(p)
    ensures n * |PrimesUpTo(n)| >= 0 && Pow(2, 2 * k) <= 2 * Pow(2, n * |PrimesUpTo(n)|)
  {
    hide IsPrime, Divides;
    var s := PrimesUpTo(n);
    var d := SmallMultipleOf(n, 2 * k, s);
    CommonMultipleIsLarge(d, k);
    SquareIsSmall(n);
    PowGrows(2 * k, Pow(2, n), |s|);
    PowPow(2, n, |s|);
  }

  lemma SmallMultipleOf(n: nat, top: nat, s: seq<nat>) returns (d: nat)
    requires 1 <= top < n * n && s == PrimesUpTo(n) && forall p: nat :: n < p < n * n ==> !IsPrime(p)
    ensures CommonMultiple(d, top) && 0 < d <= Pow(top, |s|)
  {
    d := Tops(s, top);
    TopsAreSmall(s, top);
    forall m: nat | 1 <= m <= top ensures Divides(m, d) {
      forall q: nat | IsPrime(q) && Divides(q, m) ensures q in s {
        DivisorIsSmaller(q, m);
      }
      TopsAreMultiple(s, top, m);
    }
  }

  lemma TooSmall(n: nat, k: nat, r: nat)
    requires n >= 5 && 2 * k >= n * n - 2 && 2 * r <= n + 1
    ensures 0 <= n * r && n * r + 1 < 2 * k
  {
    Nonnegative(n, r);
    Products(n, n, 2 * r, n + 1);
    assert n * (2 * r) == 2 * (n * r) && n * (n + 1) == n * n + n;
    Products(5, n, n, n);
  }

  /** Between every number from 2 on and its square there is a prime. */
  lemma PrimeBelowSquare(n: nat) returns (p: nat)
    requires n >= 2
    ensures IsPrime(p) && n < p < n * n
  {
    SmallPrimes();
    if n < 5 {
      p := if n == 2 then 3 else 5;
    } else {
      if forall p: nat :: n < p < n * n ==> !IsPrime(p) {
        var k, r := (n * n - 1) / 2, |PrimesUpTo(n)|;
        Products(5, n, 5, n);
        PrimesAreFew(n);
        TooSmall(n, k, r);
        TwoGrows(n * r + 1, 2 * k);
        assert Pow(2, n * r + 1) == 2 * Pow(2, n * r);
        GapBoundsPower(n, k);
      }
      p :| n < p < n * n && IsPrime(p);
    }
  }
}
