/** Finite sums of integer functions, and the dot product the reference loops compute. */
module Sums {

  /** f(0) + ... + f(n-1) */
  function Sum(f: int -> int, n: nat): int {
    if n == 0 then 0 else Sum(f, n - 1) + f(n - 1)
  }

  lemma {:induction false} SumZero(f: int -> int, n: nat)
    requires forall k {:trigger f(k)} :: 0 <= k < n ==> f(k) == 0
    ensures Sum(f, n) == 0
  {
    if n == 0 {
    } else {
      SumZero(f, n - 1);
    }
  }

  /** A matrix of integers, indexed by row and column. */
  type Matrix = (int, int) -> int

  function Product(A: Matrix, B: Matrix, i: int, j: int, k: int): int {
    A(i, k) * B(k, j)
  }

  /** The first n terms of row i of A times column j of B. */
  function Dot(A: Matrix, B: Matrix, i: int, j: int, n: nat): int {
    if n == 0 then 0 else Dot(A, B, i, j, n - 1) + Product(A, B, i, j, n - 1)
  }

  lemma {:induction false} DotSplit(A: Matrix, B: Matrix, i: int, j: int, n: nat, f: int -> int, m: nat)
    requires forall k {:trigger f(k)} :: 0 <= k < m ==> f(k) == Product(A, B, i, j, n + k)
    ensures Dot(A, B, i, j, n + m) == Dot(A, B, i, j, n) + Sum(f, m)
  {
    hide Product;
    if m == 0 {
    } else {
      DotSplit(A, B, i, j, n, f, m - 1);
      assert f(m - 1) == Product(A, B, i, j, n + (m - 1));
    }
  }

  lemma {:induction false} DotExt(A: Matrix, B: Matrix, i: int, j: int, A': Matrix, B': Matrix, i': int, j': int,
                                  n: nat)
    requires forall k {:trigger A(i, k)} {:trigger B(k, j)} ::
      0 <= k < n ==> A(i, k) == A'(i', k) && B(k, j) == B'(k, j')
    ensures Dot(A, B, i, j, n) == Dot(A', B', i', j', n)
  {
    if n == 0 {
    } else {
      DotExt(A, B, i, j, A', B', i', j', n - 1);
      assert A(i, n - 1) == A'(i', n - 1);
    }
  }

  /** A dot product with at most one nonzero term. */
  lemma {:induction false} DotOneTerm(A: Matrix, B: Matrix, i: int, j: int, t: nat, n: nat)
    requires forall k {:trigger Product(A, B, i, j, k)} :: 0 <= k < n && k != t ==> Product(A, B, i, j, k) == 0
    ensures Dot(A, B, i, j, n) == if t < n then Product(A, B, i, j, t) else 0
  {
    hide Product;
    if n == 0 {
    } else {
      DotOneTerm(A, B, i, j, t, n - 1);
    }
  }
}
