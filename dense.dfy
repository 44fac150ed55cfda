/**
 * Dense linear algebra over exact real numbers: the reference definitions
 * that the FieldMatrix operations are specified against.  A vector is a
 * sequence of entries, a matrix a sequence of rows.
 */
module DenseAlgebra {
  type Vec = seq<real>
  type Mat = seq<seq<real>>

  /** A is an n-by-m matrix. */
  predicate IsMat(A: Mat, n: nat, m: nat)
  {
    |A| == n && forall i :: 0 <= i < n ==> |A[i]| == m
  }

  // ---------------------------------------------------------------------
  // Vectors
  // ---------------------------------------------------------------------

  /** The scalar product, summed from the first entry on. */
  function Dot(u: Vec, v: Vec): real
    requires |u| == |v|
  {
    if |u| == 0 then 0.0 else Dot(u[..|u| - 1], v[..|u| - 1]) + u[|u| - 1] * v[|u| - 1]
  }

  /** The scalar product computed by a loop that accumulates from 0. */
  method DotProduct(u: Vec, v: Vec) returns (s: real)
    requires |u| == |v|
    ensures s == Dot(u, v)
  {
    s := 0.0;
    for k := 0 to |u|
      invariant s == Dot(u[..k], v[..k])
    {
      assert u[..k + 1][..k] == u[..k] && v[..k + 1][..k] == v[..k];
      s := s + u[k] * v[k];
    }
    assert u[..|u|] == u && v[..|v|] == v;
  }

  function Zeros(n: nat): (z: Vec)
    ensures |z| == n && forall i :: 0 <= i < n ==> z[i] == 0.0
  {
    seq(n, i => 0.0)
  }

  function VecAdd(u: Vec, v: Vec): (w: Vec)
    requires |u| == |v|
    ensures |w| == |u|
  {
    seq(|u|, i requires 0 <= i < |u| => u[i] + v[i])
  }

  function VecSub(u: Vec, v: Vec): (w: Vec)
    requires |u| == |v|
    ensures |w| == |u|
  {
    seq(|u|, i requires 0 <= i < |u| => u[i] - v[i])
  }

  function VecScale(k: real, v: Vec): (w: Vec)
    ensures |w| == |v|
  {
    seq(|v|, i requires 0 <= i < |v| => k * v[i])
  }

  /** Adding to the zero vector gives the summand back. */
  lemma ZerosAddIdentity(v: Vec)
    ensures VecAdd(Zeros(|v|), v) == v
  {
  }

  /** Subtracting a vector from itself gives the zero vector. */
  lemma VecSubSelf(v: Vec)
    ensures VecSub(v, v) == Zeros(|v|)
  {
  }

  /** A vector whose entries are u[k] + alpha w[k] is u + alpha w. */
  lemma ScaledSumEntries(u: Vec, alpha: real, w: Vec, y: Vec)
    requires |u| == |w| == |y|
    requires forall k :: 0 <= k < |y| ==> y[k] == u[k] + alpha * w[k]
    ensures y == VecAdd(u, VecScale(alpha, w))
  {
    assert forall k :: 0 <= k < |y| ==> y[k] == VecAdd(u, VecScale(alpha, w))[k];
  }

  // ---------------------------------------------------------------------
  // Matrix-vector products
  // ---------------------------------------------------------------------

  /** Column j of A. */
  function Col(A: Mat, j: nat): (c: Vec)
    requires forall i :: 0 <= i < |A| ==> j < |A[i]|
    ensures |c| == |A| && forall i :: 0 <= i < |A| ==> c[i] == A[i][j]
  {
    seq(|A|, i requires 0 <= i < |A| => A[i][j])
  }

  /** A x: entry i is row i of A times x. */
  function Apply(A: Mat, x: Vec): (y: Vec)
    requires forall i :: 0 <= i < |A| ==> |A[i]| == |x|
    ensures |y| == |A|
  {
    seq(|A|, i requires 0 <= i < |A| => Dot(A[i], x))
  }

  /** A^T x for an n-by-m matrix A and an n-vector x: entry j is column j of A times x. */
  function ApplyT(A: Mat, m: nat, x: Vec): (y: Vec)
    requires IsMat(A, |x|, m)
    ensures |y| == m
  {
    seq(m, j requires 0 <= j < m => Dot(Col(A, j), x))
  }

  // ---------------------------------------------------------------------
  // Matrices
  // ---------------------------------------------------------------------

  /** The n-by-m matrix with every entry k. */
  function Constant(n: nat, m: nat, k: real): (A: Mat)
    ensures IsMat(A, n, m)
  {
    seq(n, i => seq(m, j => k))
  }

  function Identity(n: nat): (I: Mat)
    ensures IsMat(I, n, n)
  {
    seq(n, i => seq(n, j => if i == j then 1.0 else 0.0))
  }

  function MatAdd(A: Mat, B: Mat, n: nat, m: nat): (C: Mat)
    requires IsMat(A, n, m) && IsMat(B, n, m)
    ensures IsMat(C, n, m)
  {
    seq(n, i requires 0 <= i < n => VecAdd(A[i], B[i]))
  }

  function MatSub(A: Mat, B: Mat, n: nat, m: nat): (C: Mat)
    requires IsMat(A, n, m) && IsMat(B, n, m)
    ensures IsMat(C, n, m)
  {
    seq(n, i requires 0 <= i < n => VecSub(A[i], B[i]))
  }

  function MatScale(k: real, A: Mat, n: nat, m: nat): (C: Mat)
    requires IsMat(A, n, m)
    ensures IsMat(C, n, m)
  {
    seq(n, i requires 0 <= i < n => VecScale(k, A[i]))
  }

  /** A + k X. */
  function MatAxpy(A: Mat, k: real, X: Mat, n: nat, m: nat): (C: Mat)
    requires IsMat(A, n, m) && IsMat(X, n, m)
    ensures IsMat(C, n, m)
  {
    MatAdd(A, MatScale(k, X, n, m), n, m)
  }

  /** The product A B of an n-by-l matrix A and an l-by-p matrix B. */
  function Mul(A: Mat, B: Mat, p: nat): (C: Mat)
    requires forall i :: 0 <= i < |A| ==> |A[i]| == |B|
    requires forall k :: 0 <= k < |B| ==> |B[k]| == p
    ensures IsMat(C, |A|, p)
  {
    seq(|A|, i requires 0 <= i < |A| => seq(p, j requires 0 <= j < p => Dot(A[i], Col(B, j))))
  }

  /** Two n-by-m matrices with the same entries are equal. */
  lemma MatEqual(A: Mat, B: Mat, n: nat, m: nat)
    requires IsMat(A, n, m) && IsMat(B, n, m)
    requires forall i, j :: 0 <= i < n && 0 <= j < m ==> A[i][j] == B[i][j]
    ensures A == B
  {
    assert forall i :: 0 <= i < n ==> A[i] == B[i];
  }

  // ---------------------------------------------------------------------
  // Norms
  // ---------------------------------------------------------------------

  function Abs(x: real): real
  {
    if x < 0.0 then -x else x
  }

  /** The one-norm of a row: the sum of the absolute values of its entries. */
  function OneNorm(v: Vec): (r: real)
    ensures r >= 0.0
    ensures r == 0.0 <==> forall k :: 0 <= k < |v| ==> v[k] == 0.0
  {
    if |v| == 0 then 0.0 else OneNorm(v[..|v| - 1]) + Abs(v[|v| - 1])
  }

  /**
   * infinity_norm: the largest one-norm of a row, 0 for a matrix without
   * rows.  infinity_norm_real, which sums |Re| + |Im|, is the same for real
   * entries.
   */
  function InfinityNorm(A: Mat): (r: real)
    ensures r >= 0.0
    ensures r == 0.0 <==> forall i, k :: 0 <= i < |A| && 0 <= k < |A[i]| ==> A[i][k] == 0.0
  {
    if |A| == 0 then 0.0
    else
      var rest := InfinityNorm(A[..|A| - 1]);
      var last := OneNorm(A[|A| - 1]);
      assert forall i :: 0 <= i < |A| - 1 ==> A[..|A| - 1][i] == A[i];
      if last > rest then last else rest
  }

  /** The sum of the squares of the entries of one row. */
  function SquareSum(v: Vec): (r: real)
    ensures r >= 0.0
    ensures (forall k :: 0 <= k < |v| ==> v[k] == 0.0) ==> r == 0.0
  {
    if |v| == 0 then 0.0
    else
      var last := v[|v| - 1];
      SquareNonNegative(last);
      assert forall k :: 0 <= k < |v| - 1 ==> v[..|v| - 1][k] == v[k];
      SquareSum(v[..|v| - 1]) + last * last
  }

  lemma SquareNonNegative(x: real)
    ensures x * x >= 0.0
    ensures x == 0.0 ==> x * x == 0.0
  {
    if x < 0.0 {
      assert x * x == (-x) * (-x);
    }
  }

  /** frobenius_norm2: the sum of the squares of all entries. */
  function FrobeniusNorm2(A: Mat): (r: real)
    ensures r >= 0.0
    ensures (forall i, k :: 0 <= i < |A| && 0 <= k < |A[i]| ==> A[i][k] == 0.0) ==> r == 0.0
  {
    if |A| == 0 then 0.0
    else
      assert forall i :: 0 <= i < |A| - 1 ==> A[..|A| - 1][i] == A[i];
      FrobeniusNorm2(A[..|A| - 1]) + SquareSum(A[|A| - 1])
  }

  // ---------------------------------------------------------------------
  // Determinant
  // ---------------------------------------------------------------------

  /** A without its first row and without column j. */
  function Minor(A: Mat, j: nat): (M: Mat)
    requires |A| > 0 && IsMat(A, |A|, |A|) && j < |A|
    ensures IsMat(M, |A| - 1, |A| - 1)
    ensures forall i, k :: 0 <= i < |A| - 1 && 0 <= k < |A| - 1 ==>
      M[i][k] == if k < j then A[i + 1][k] else A[i + 1][k + 1]
  {
    seq(|A| - 1, i requires 0 <= i < |A| - 1 => A[i + 1][..j] + A[i + 1][j + 1..])
  }

  /** The determinant, by Laplace expansion along the first row. */
  function Det(A: Mat): real
    requires IsMat(A, |A|, |A|)
    decreases |A|, |A| + 1
  {
    if |A| == 0 then 1.0 else Expansion(A, |A|)
  }

  /** The first `count` terms of the Laplace expansion along the first row. */
  function Expansion(A: Mat, count: nat): real
    requires |A| > 0 && IsMat(A, |A|, |A|) && count <= |A|
    decreases |A|, count
  {
    if count == 0 then 0.0
    else
      var j := count - 1;
      var sign := if j % 2 == 0 then 1.0 else -1.0;
      Expansion(A, j) + sign * A[0][j] * Det(Minor(A, j))
  }
}
