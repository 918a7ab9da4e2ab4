/** Quotients and remainders: the few facts the counting proofs need. */
module Modular {

  lemma MulMonotone(p: int, a: int, b: int)
    requires p > 0 && a <= b
    ensures p * a <= p * b
  {
  }

  lemma DivMod(a: int, m: int)
    requires m > 0
    ensures a == a / m * m + a % m && 0 <= a % m < m
  {
  }

  /** A quotient and a remainder are determined by their equation. */
  lemma QuotientIs(n: int, m: int, q: int, r: int)
    requires m > 0 && 0 <= r < m && n == q * m + r
    ensures n / m == q && n % m == r
  {
    var d := n / m - q;
    DivMod(n, m);
    assert m * d == r - n % m;
    if d >= 1 {
      MulMonotone(m, 1, d);
    } else if d <= -1 {
      MulMonotone(m, d, -1);
    }
  }

  lemma NextQuotient(n: nat, m: int)
    requires m > 0
    ensures n % m + 1 == m ==> (n + 1) % m == 0 && (n + 1) / m == n / m + 1
    ensures n % m + 1 < m ==> (n + 1) % m == n % m + 1 && (n + 1) / m == n / m
  {
    DivMod(n, m);
    if n % m + 1 == m {
      QuotientIs(n + 1, m, n / m + 1, 0);
    } else {
      QuotientIs(n + 1, m, n / m, n % m + 1);
    }
  }

  /** Congruent numbers closer than m are equal. */
  lemma CongruentAndClose(j: int, k: int, m: int)
    requires m > 0 && j % m == k % m && -m < k - j < m
    ensures j == k
  {
    DivMod(j, m);
    DivMod(k, m);
    var d := k / m - j / m;
    assert m * d == k - j;
    if d >= 1 {
      MulMonotone(m, 1, d);
    } else if d <= -1 {
      MulMonotone(m, d, -1);
    }
  }

  lemma Shift(n: int, m: int)
    requires m > 0
    ensures (n - m) % m == n % m
  {
    DivMod(n, m);
    QuotientIs(n - m, m, n / m - 1, n % m);
  }
}
