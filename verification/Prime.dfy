/** `prime`: trial division, and the loop that looks for the n-th prime. */
module Primes {
  import opened Arithmetic

  /** The largest `int`, and the largest number whose square is one. */
  const INT_MAX: nat := 0x7fff_ffff
  const ROOT: nat := 46340

  predicate Divides(d: nat, n: nat) {
    d > 0 && n % d == 0
  }

  ghost predicate Prime(n: nat) {
    n >= 2 && forall d :: 2 <= d < n ==> !Divides(d, n)
  }

  /** How many primes there are up to `n`. */
  ghost function PrimesUpTo(n: nat): nat {
    if n == 0 then 0 else PrimesUpTo(n - 1) + if Prime(n) then 1 else 0
  }

  // ----- divisors -----

  lemma Quotient(d: nat, n: nat) returns (q: nat)
    requires Divides(d, n)
    ensures n == q * d
  {
    q := n / d;
  }

  lemma Multiple(d: nat, q: nat)
    requires d > 0
    ensures Divides(d, q * d)
  {
    var n := q * d;
    var e, r := n / d, n % d;
    var k := q - e;
    assert n == e * d + r;
    assert k * d == q * d - e * d;
    if k >= 1 {
      MulMono(1, k, d);
    } else if k <= -1 {
      MulMono(k, -1, d);
    }
  }

  /** A composite number has a divisor whose square does not exceed it. */
  lemma SmallDivisor(n: nat) returns (d: nat)
    requires n >= 2 && !Prime(n)
    ensures 2 <= d && d * d <= n && Divides(d, n)
  {
    var c :| 2 <= c < n && Divides(c, n);
    var q := Quotient(c, n);
    if c * c <= n {
      d := c;
    } else {
      if q >= c {
        MulMono(c, q, c);
      }
      if q <= 1 {
        MulMono(q, 1, c);
      }
      MulMono(q, c, q);
      assert n == c * q;
      Multiple(q, c);
      d := q;
    }
  }

  /** Trial division up to the square root decides. */
  lemma TrialDivision(a: nat, i: nat)
    requires a >= 2 && i * i > a && forall d :: 2 <= d < i ==> !Divides(d, a)
    ensures Prime(a)
  {
    if !Prime(a) {
      var d := SmallDivisor(a);
      if d >= i {
        SquareMono(i, d);
      }
    }
  }

  // ----- there is always another prime -----

  ghost function Factorial(n: nat): (f: nat)
    ensures f >= 1
  {
    if n == 0 then 1 else n * Factorial(n - 1)
  }

  lemma {:induction false} DividesFactorial(d: nat, n: nat)
    requires 1 <= d <= n
    ensures Divides(d, Factorial(n))
  {
    if d == n {
      Multiple(d, Factorial(n - 1));
      assert Factorial(n) == Factorial(n - 1) * d;
    } else {
      DividesFactorial(d, n - 1);
      var q := Quotient(d, Factorial(n - 1));
      assert Factorial(n) == n * (q * d) == (n * q) * d;
      Multiple(d, n * q);
    }
  }

  /** The smallest divisor from 2 on is prime. */
  lemma PrimeDivisor(n: nat, i: nat) returns (p: nat)
    requires 2 <= i <= n && forall d :: 2 <= d < i ==> !Divides(d, n)
    ensures i <= p <= n && Prime(p) && Divides(p, n)
    decreases n - i
  {
    if Divides(i, n) {
      p := i;
      if !Prime(i) {
        var d :| 2 <= d < i && Divides(d, i);
        var q := Quotient(i, n);
        var r := Quotient(d, i);
        assert n == q * (r * d) == (q * r) * d;
        Multiple(d, q * r);
      }
    } else {
      if i == n {
        Multiple(n, 1);
      }
      p := PrimeDivisor(n, i + 1);
    }
  }

  /** Euclid: there is a prime above every number. */
  lemma Euclid(n: nat) returns (p: nat)
    ensures p > n && Prime(p)
  {
    var m := Factorial(n) + 1;
    p := PrimeDivisor(m, 2);
    if p <= n {
      DividesFactorial(p, n);
      var q := Quotient(p, Factorial(n));
      var r := Quotient(p, m);
      assert r * p == q * p + 1;
      assert (r - q) * p == 1;
      NoUnit(r - q, p);
    }
  }

  lemma NoUnit(k: int, p: nat)
    requires p >= 2
    ensures k * p != 1
  {
    if k >= 1 {
      assert k * p >= p;
    } else {
      assert k * p <= 0;
    }
  }

  /** The next prime after `n` is `n + g`. */
  ghost predicate IsGap(n: nat, g: nat) {
    g >= 1 && Prime(n + g) && forall q :: n < q < n + g ==> !Prime(q)
  }

  ghost function Gap(n: nat, p: nat): (g: nat)
    requires n < p && Prime(p)
    ensures IsGap(n, g)
    decreases p - n
  {
    if Prime(n + 1) then 1 else Gap(n + 1, p) + 1
  }

  lemma SomeGap(n: nat) returns (g: nat)
    ensures IsGap(n, g)
  {
    var p := Euclid(n);
    g := Gap(n, p);
  }

  // ----- the program -----

  /** `is_prime` over the integers.  `overflow` says whether some `i * i` leaves the range of `int`. */
  method IsPrime(a: int) returns (r: bool, overflow: bool)
    ensures r <==> a >= 0 && Prime(a)
    ensures a <= INT_MAX ==>
      (overflow <==> a >= ROOT * ROOT && forall d: nat :: 2 <= d <= ROOT ==> !Divides(d, a))
  {
    overflow := false;
    if a <= 1 {
      return false, false;
    }
    if a == 2 {
      return true, false;
    }
    var i := 2;
    while i * i <= a
      invariant 2 <= i <= a && (i == 2 || (i - 1) * (i - 1) <= a)
      invariant forall d :: 2 <= d < i ==> !Divides(d, a)
      invariant overflow <==> i * i > INT_MAX
      decreases a - i
    {
      Below(i, a);
      if a % i == 0 {
        assert Divides(i, a);
        Squares(i);
        return false, overflow;
      }
      Squares(i + 1);
      overflow := overflow || (i + 1) * (i + 1) > INT_MAX;
      i := i + 1;
    }
    Squares(i);
    if a <= INT_MAX {
      Last(i, a);
    }
    TrialDivision(a, i);
    r := true;
  }

  lemma Below(i: nat, a: nat)
    requires i >= 2 && i * i <= a
    ensures i < a
  {
    assert i * i >= 2 * i;
  }

  lemma Squares(i: nat)
    ensures i * i > INT_MAX <==> i > ROOT
    ensures i >= 1 ==> i * i >= (i - 1) * (i - 1)
  {
    if i > ROOT {
      SquareMono(ROOT + 1, i);
    } else {
      SquareMono(i, ROOT);
    }
    if i >= 1 {
      SquareMono(i - 1, i);
    }
  }

  /** Where trial division ends without a divisor. */
  lemma Last(i: nat, a: nat)
    requires 2 <= i <= a && i * i > a && (i == 2 || (i - 1) * (i - 1) <= a) && a <= INT_MAX
    requires forall d :: 2 <= d < i ==> !Divides(d, a)
    ensures i > ROOT <==> a >= ROOT * ROOT && forall d: nat :: 2 <= d <= ROOT ==> !Divides(d, a)
  {
    if i > ROOT {
      SquareMono(ROOT, i - 1);
      if i == 2 {
        SquareMono(ROOT, i);
      }
    } else {
      SquareMono(i, ROOT);
    }
  }

  /** The main loop: for `n` at least 1 it ends, at the n-th prime. */
  method NthPrime(n: int) returns (prime: nat)
    ensures n <= 0 ==> prime == 0
    ensures n >= 1 ==> Prime(prime) && PrimesUpTo(prime) == n
  {
    prime := 0;
    var i := n;
    ghost var g := SomeGap(0);
    while i > 0
      invariant i <= n && (n >= 0 ==> i >= 0 && PrimesUpTo(prime) == n - i)
      invariant IsGap(prime, g) && (n <= 0 ==> prime == 0 && i == n) && (i == 0 && n >= 1 ==> Prime(prime))
      decreases i, g
    {
      prime := prime + 1;
      var found, _ := IsPrime(prime);
      if found {
        i := i - 1;
        g := SomeGap(prime);
      } else {
        g := g - 1;
      }
    }
  }
}
