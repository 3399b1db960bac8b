/** Small facts of integer arithmetic the index computations rely on. */
module Arith {
  lemma MulLe(m: int, a: int, b: int)
    ensures m >= 0 && a <= b ==> m * a <= m * b
  {
  }

  /** k = q * m + j with 0 <= j < m determines the quotient and remainder. */
  lemma DivModUnique(k: int, m: int, q: int, j: int)
    requires m >= 1 && 0 <= j < m && k == q * m + j
    ensures k / m == q && k % m == j
  {
    var q0, j0 := k / m, k % m;
    assert k == q0 * m + j0;
    if q0 < q {
      MulLe(m, q0 + 1, q);
    } else if q < q0 {
      MulLe(m, q + 1, q0);
    }
    assert q0 == q;
  }

  /** Euclidean division by m undoes multiplication by m plus a small offset. */
  lemma DivMulAdd(q: int, m: int, j: int)
    requires m >= 1 && 0 <= j < m
    ensures (q * m + j) / m == q && (q * m + j) % m == j
  {
    DivModUnique(q * m + j, m, q, j);
  }
}
