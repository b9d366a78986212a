/** Quotients and remainders with a variable divisor. */
module Arithmetic {
  lemma MulStep(m: nat, k: int)
    ensures k >= 1 ==> m * k >= m
    ensures k <= -1 ==> m * k + m <= 0
  {
  }

  /** Division with remainder is unique. */
  lemma DivModUnique(n: int, m: nat, q: int, r: nat)
    requires m > 0 && n == m * q + r && r < m
    ensures n / m == q && n % m == r
  {
    MulStep(m, n / m - q);
    assert m * (n / m - q) == r - n % m;
  }

  lemma DivModAdd(n: int, m: nat, k: int)
    requires m > 0
    ensures (n + m * k) / m == n / m + k && (n + m * k) % m == n % m
  {
    DivModUnique(n + m * k, m, n / m + k, n % m);
  }
}
