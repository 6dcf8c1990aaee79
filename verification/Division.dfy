/** Quotients and remainders by a positive number. */
module Division {
  lemma QuotientIsUnique(n: nat, q: nat, r: nat, d: nat)
    requires d > 0 && r < d && n == q * d + r
    ensures n / d == q && n % d == r
  {
    var p := n / d - q;
    Quotient(n, d);
    assert p * d == (n / d) * d - q * d;
    Multiples(p, d);
  }

  lemma Multiples(k: int, d: int)
    requires d > 0
    ensures k >= 1 ==> k * d >= d
    ensures k <= -1 ==> k * d <= -d
  {
  }

  lemma Quotient(n: nat, d: nat)
    requires d > 0
    ensures n == (n / d) * d + n % d
  {
  }

  lemma AddToQuotient(total: nat, amount: nat, d: nat)
    requires d > 0
    ensures (total + amount) / d == total / d + (total % d + amount) / d
    ensures (total + amount) % d == (total % d + amount) % d
  {
    var q, r := total / d, total % d;
    var p, t := (r + amount) / d, (r + amount) % d;
    Quotient(total, d);
    Quotient(r + amount, d);
    Sum(q, p, d);
    QuotientIsUnique(total + amount, q + p, t, d);
  }

  lemma Sum(q: nat, p: nat, d: nat)
    ensures q * d + p * d == (q + p) * d
  {
  }

  lemma QuotientGrows(a: nat, b: nat, d: nat)
    requires d > 0 && a <= b
    ensures a / d <= b / d
    ensures b >= a + d ==> b / d >= a / d + 1
  {
    AddToQuotient(a, b - a, d);
    if b >= a + d {
      AtLeastOne(a % d + (b - a), d);
    }
  }

  lemma AtLeastOne(n: nat, d: nat)
    requires 0 < d <= n
    ensures n / d >= 1
  {
    Quotient(n, d);
  }

  /** The quotient of successive numbers rises at the multiples. */
  lemma QuotientStep(n: nat, d: nat)
    requires n > 0 && d > 0
    ensures n / d == (n - 1) / d + (if n % d == 0 then 1 else 0)
  {
    var q, r := (n - 1) / d, (n - 1) % d;
    Quotient(n - 1, d);
    if r + 1 < d {
      QuotientIsUnique(n, q, r + 1, d);
    } else {
      assert q * d + d == (q + 1) * d;
      QuotientIsUnique(n, q + 1, 0, d);
    }
  }

  /** A remainder by a multiple of `d` has the same remainder by `d`. */
  lemma RemainderOfRemainder(n: nat, m: nat, d: nat)
    requires d > 0 && m > 0 && m % d == 0
    ensures n % m % d == n % d
  {
    var k, q, r := m / d, n / m, n % m;
    Quotient(n, m);
    Quotient(m, d);
    Quotient(r, d);
    Regroup(q, k, d);
    assert q * m == (q * k) * d;
    Sum(q * k, r / d, d);
    QuotientIsUnique(n, q * k + r / d, r % d, d);
  }

  lemma Regroup(a: nat, b: nat, c: nat)
    ensures a * (b * c) == (a * b) * c
  {
  }
}
