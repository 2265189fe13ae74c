/** The primes in order, by divisibility. */
module Primes {

  ghost predicate Divides(d: nat, n: nat) {
    exists k: nat :: d * k == n
  }

  ghost predicate Prime(p: nat) {
    p >= 2 && forall d | 2 <= d < p :: !Divides(d, p)
  }

  ghost function PrimesBelow(n: nat): nat {
    if n == 0 then 0 else PrimesBelow(n - 1) + (if Prime(n - 1) then 1 else 0)
  }

  /** `p` is prime, and `t` primes are smaller. */
  ghost predicate NthPrime(t: nat, p: nat) {
    Prime(p) && PrimesBelow(p) == t
  }

  // ---------------------------------------------------------------- below 361

  /** Not divided by a smaller prime below 19. */
  predicate Undivided(n: nat) {
    && n >= 2
    && (n % 2 != 0 || n == 2) && (n % 3 != 0 || n == 3) && (n % 5 != 0 || n == 5) && (n % 7 != 0 || n == 7)
    && (n % 11 != 0 || n == 11) && (n % 13 != 0 || n == 13) && (n % 17 != 0 || n == 17)
  }

  lemma Reorder(q: nat, a: nat, b: nat)
    ensures q * a * b == q * (a * b)
  {
  }

  /** A number below 19 has a prime factor below 19. */
  lemma SmallFactor(d: nat) returns (q: nat, a: nat)
    requires 2 <= d <= 18
    ensures q in {2, 3, 5, 7, 11, 13, 17} && d == q * a && a >= 1
  {
    q := if d % 2 == 0 then 2 else if d % 3 == 0 then 3 else if d % 5 == 0 then 5 else if d % 7 == 0 then 7 else d;
    a := d / q;
  }

  /** `n` is `b` times one of the primes below 19. */
  predicate SmallMultiple(n: nat, b: nat) {
    n == 2 * b || n == 3 * b || n == 5 * b || n == 7 * b || n == 11 * b || n == 13 * b || n == 17 * b
  }

  lemma NoRemainder(b: nat)
    ensures 2 * b % 2 == 0 && 3 * b % 3 == 0 && 5 * b % 5 == 0 && 7 * b % 7 == 0
    ensures 11 * b % 11 == 0 && 13 * b % 13 == 0 && 17 * b % 17 == 0
  {
  }

  lemma MultipleDivided(n: nat, b: nat)
    requires SmallMultiple(n, b) && b >= 2
    ensures !Undivided(n)
  {
    NoRemainder(b);
  }

  lemma SmallDivisor(n: nat, d: nat, k: nat)
    requires 2 <= d <= 18 && d * k == n && k >= 2
    ensures !Undivided(n)
  {
    hide Undivided;
    var q, a := SmallFactor(d);
    Reorder(q, a, k);
    assert a * k >= 2;
    MultipleDivided(n, a * k);
  }

  lemma LargeProduct(d: nat, k: nat)
    ensures d >= 19 && k >= 19 ==> d * k >= 361
  {
    assert d >= 19 && k >= 19 ==> d * k >= 19 * k;
  }

  lemma NoDivisor(n: nat, d: nat, k: nat)
    requires n < 361 && 2 <= d < n && d * k == n
    ensures !Undivided(n)
  {
    hide Undivided;
    assert k >= 2;
    if d <= 18 {
      SmallDivisor(n, d, k);
    } else {
      LargeProduct(d, k);
      SmallDivisor(n, k, d);
    }
  }

  lemma Divided(n: nat)
    requires n >= 2 && !Undivided(n)
    ensures !Prime(n)
  {
    var q := if n % 2 == 0 && n != 2 then 2 else if n % 3 == 0 && n != 3 then 3 else if n % 5 == 0 && n != 5 then 5
      else if n % 7 == 0 && n != 7 then 7 else if n % 11 == 0 && n != 11 then 11
      else if n % 13 == 0 && n != 13 then 13 else 17;
    assert q * (n / q) == n;
    assert Divides(q, n) && q < n;
  }

  lemma PrimeIff(n: nat)
    requires n < 361
    ensures Prime(n) <==> Undivided(n)
  {
    if Undivided(n) {
      forall d | 2 <= d < n ensures !Divides(d, n) {
        if Divides(d, n) {
          var k: nat :| d * k == n;
          NoDivisor(n, d, k);
        }
      }
    } else if n >= 2 {
      Divided(n);
    }
  }

  /** The numbers between two others are divided. */
  predicate AllDivided(p: nat, q: nat)
    decreases q - p
  {
    q <= p + 1 || (!Undivided(p + 1) && AllDivided(p + 1, q))
  }

  lemma {:induction false} NoPrimes(p: nat, q: nat)
    requires p < q < 361 && AllDivided(p, q)
    ensures PrimesBelow(q) == PrimesBelow(p + 1)
    decreases q - p
  {
    hide Undivided, Prime;
    if p + 1 < q {
      PrimeIff(p + 1);
      NoPrimes(p + 1, q);
    }
  }

  /** From one prime to the next. */
  lemma NextPrime(t: nat, p: nat, q: nat)
    requires NthPrime(t, p) && p < q < 361 && AllDivided(p, q) && Undivided(q)
    ensures NthPrime(t + 1, q)
  {
    hide Undivided, Prime, AllDivided;
    NoPrimes(p, q);
    PrimeIff(q);
  }

  lemma FirstPrime()
    ensures NthPrime(0, 2)
  {
    assert PrimesBelow(1) == 0;
  }
}
