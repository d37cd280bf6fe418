/** Multiplication and division facts that the index computations rest on. */
module Arithmetic {
  lemma MulMono(a: nat, b: nat, n: nat)
    requires a <= b
    ensures a * n <= b * n
  {
  }

  lemma MulStep(a: nat, n: nat)
    ensures (a + 1) * n == a * n + n
  {
  }

  /** Quotient and remainder are determined by where the number lies. */
  lemma DivideUnique(n: nat, q: nat, m: nat)
    requires m > 0 && q * m <= n < q * m + m
    ensures n / m == q && n % m == n - q * m
  {
    var d := n / m;
    MulStep(d, m);
    MulStep(q, m);
    if d < q {
      MulMono(d + 1, q, m);
    }
    if d > q {
      MulMono(q + 1, d, m);
    }
  }

  lemma Divide(n: nat, m: nat)
    requires m > 0
    ensures n == n / m * m + n % m && 0 <= n % m < m
  {
  }
}
