/** Facts of integer arithmetic that index computations need and the solver does not find by itself. */
module Arith {

  /** `x` rounded up to whole multiples of `m`, as a count: the trip count of `for (i = 0; i < x; i += m)`. */
  function Ceil(x: nat, m: nat): nat
    requires m > 0
  {
    (x + m - 1) / m
  }

  lemma CeilStep(x: nat, m: nat, n: nat)
    requires m > 0
    ensures n < Ceil(x, m) <==> n * m < x
  {
    if n * m < x {
      assert (n + 1) * m == n * m + m;
      DivLower(x + m - 1, m, n + 1);
    } else {
      assert (n + 1) * m == n * m + m;
      DivUpper(x + m - 1, m, n + 1);
    }
  }

  lemma DivLower(x: nat, m: nat, n: nat)
    requires m > 0 && n * m <= x
    ensures n <= x / m
  {
    if x / m < n {
      assert (x / m + 1) * m <= n * m by { MulMono(x / m + 1, n, m); }
    }
  }

  lemma DivUpper(x: nat, m: nat, n: nat)
    requires m > 0 && x < n * m
    ensures x / m < n
  {
    if n <= x / m {
      MulMono(n, x / m, m);
    }
  }

  lemma MulMono(a: nat, b: nat, m: nat)
    requires a <= b
    ensures a * m <= b * m
  {
  }

  /** Quotient and remainder of a row-major index. */
  lemma DivMod(i: nat, j: nat, m: nat)
    requires j < m
    ensures (i * m + j) / m == i
    ensures (i * m + j) % m == j
  {
    var x := i * m + j;
    DivLower(x, m, i);
    assert (i + 1) * m == i * m + m;
    DivUpper(x, m, i + 1);
  }

  lemma QuotRem(x: nat, m: nat) returns (n: nat, v: nat)
    requires m > 0
    ensures n == x / m && v == x % m && x == n * m + v && v < m
  {
    n, v := x / m, x % m;
  }

  /** A row-major index stays inside the array. */
  lemma RowMajorBound(i: nat, n: nat, j: nat, m: nat)
    requires i < n && j < m
    ensures 0 <= i * m + j < n * m
    ensures i * m + j < (i + 1) * m <= n * m
  {
    assert (i + 1) * m == i * m + m;
    MulMono(i + 1, n, m);
  }

  /** A flat index below n * m is a row below n and a column below m. */
  lemma FlatSplit(x: nat, n: nat, m: nat)
    requires x < n * m
    ensures m > 0 && x / m < n && x % m < m
    ensures x == (x / m) * m + x % m
  {
    DivUpper(x, m, n);
  }

  /** The row and column of a flat index. */
  lemma RowAndCol(x: nat, n: nat, m: nat) returns (i: nat, j: nat)
    requires x < n * m
    ensures i < n && j < m && x == i * m + j
  {
    FlatSplit(x, n, m);
    i, j := x / m, x % m;
  }
}
