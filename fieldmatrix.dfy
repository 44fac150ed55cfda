/**
 * FieldMatrix<K, n, m>: a dense matrix of fixed size, stored in place.  The
 * operations exercised by dune/common/test/fmatrixtest.cc are modelled here
 * and specified against the reference definitions of DenseAlgebra.
 *
 * Entries are exact reals.  A vector or matrix passed by const reference is
 * passed as a value; the destination of a product or update is the array it
 * writes.
 */
module FieldMatrices {
  import opened DenseAlgebra

  class FieldMatrix {
    const n: nat
    const m: nat
    const a: array2<real>

    predicate Valid()
      reads this
    {
      a.Length0 == n && a.Length1 == m
    }

    /** Row i, as a vector. */
    function Row(i: nat): (r: Vec)
      requires Valid() && i < n
      reads this, a
      ensures |r| == m && forall j :: 0 <= j < m ==> r[j] == a[i, j]
    {
      seq(m, j requires 0 <= j < m reads a => a[i, j])
    }

    /** Column j, as a vector. */
    function Column(j: nat): (c: Vec)
      requires Valid() && j < m
      reads this, a
      ensures |c| == n && forall i :: 0 <= i < n ==> c[i] == a[i, j]
    {
      seq(n, i requires 0 <= i < n reads a => a[i, j])
    }

    /** The entries, row by row. */
    function Entries(): (E: Mat)
      requires Valid()
      reads this, a
      ensures IsMat(E, n, m)
      ensures forall i :: 0 <= i < n ==> E[i] == Row(i)
      ensures forall i, j :: 0 <= i < n && 0 <= j < m ==> E[i][j] == a[i, j]
    {
      seq(n, i requires 0 <= i < n && Valid() reads this, a => Row(i))
    }

    /** Column j of the entries is the stored column j. */
    lemma ColumnOfEntries(j: nat)
      requires Valid() && j < m
      ensures Col(Entries(), j) == Column(j)
    {
    }

    /** A matrix holding the entries of A (the copy constructor when A is another matrix's entries). */
    constructor (A: Mat, n: nat, m: nat)
      requires IsMat(A, n, m)
      ensures this.n == n && this.m == m && Valid() && fresh(a)
      ensures Entries() == A
    {
      this.n, this.m := n, m;
      a := new real[n, m]((i, j) requires 0 <= i < n && 0 <= j < m => A[i][j]);
      new;
      assert forall i :: 0 <= i < n ==> Entries()[i] == A[i];
    }

    // -------------------------------------------------------------------
    // Matrix-vector products
    // -------------------------------------------------------------------

    /** mv(x, y): y = A x. */
    method Mv(x: Vec, y: array<real>)
      requires Valid() && |x| == m && y.Length == n
      modifies y
      ensures y[..] == Apply(Entries(), x)
    {
      for i := 0 to n
        invariant forall k :: 0 <= k < i ==> y[k] == Dot(Row(k), x)
      {
        y[i] := DotProduct(Row(i), x);
      }
    }

    /** umv(x, y): y += A x. */
    method Umv(x: Vec, y: array<real>)
      requires Valid() && |x| == m && y.Length == n
      modifies y
      ensures y[..] == VecAdd(old(y[..]), Apply(Entries(), x))
    {
      for i := 0 to n
        invariant forall k :: 0 <= k < i ==> y[k] == old(y[k]) + Dot(Row(k), x)
        invariant forall k :: i <= k < n ==> y[k] == old(y[k])
      {
        var s := DotProduct(Row(i), x);
        y[i] := y[i] + s;
      }
    }

    /** mmv(x, y): y -= A x. */
    method Mmv(x: Vec, y: array<real>)
      requires Valid() && |x| == m && y.Length == n
      modifies y
      ensures y[..] == VecSub(old(y[..]), Apply(Entries(), x))
    {
      for i := 0 to n
        invariant forall k :: 0 <= k < i ==> y[k] == old(y[k]) - Dot(Row(k), x)
        invariant forall k :: i <= k < n ==> y[k] == old(y[k])
      {
        var s := DotProduct(Row(i), x);
        y[i] := y[i] - s;
      }
    }

    /** usmv(alpha, x, y): y += alpha A x. */
    method Usmv(alpha: real, x: Vec, y: array<real>)
      requires Valid() && |x| == m && y.Length == n
      modifies y
      ensures y[..] == VecAdd(old(y[..]), VecScale(alpha, Apply(Entries(), x)))
    {
      ghost var scaled := VecScale(alpha, Apply(Entries(), x));
      for i := 0 to n
        invariant forall k :: 0 <= k < i ==> y[k] == old(y[k]) + scaled[k]
        invariant forall k :: i <= k < n ==> y[k] == old(y[k])
      {
        var s := DotProduct(Row(i), x);
        y[i] := y[i] + alpha * s;
      }
    }

    /** mtv(x, y): y = A^T x. */
    method Mtv(x: Vec, y: array<real>)
      requires Valid() && |x| == n && y.Length == m
      modifies y
      ensures y[..] == ApplyT(Entries(), m, x)
    {
      for j := 0 to m
        invariant forall k :: 0 <= k < j ==> y[k] == Dot(Column(k), x)
      {
        y[j] := DotProduct(Column(j), x);
      }
      forall k | 0 <= k < m
        ensures y[k] == ApplyT(Entries(), m, x)[k]
      {
        ColumnOfEntries(k);
      }
    }

    /** umtv(x, y): y += A^T x. */
    method Umtv(x: Vec, y: array<real>)
      requires Valid() && |x| == n && y.Length == m
      modifies y
      ensures y[..] == VecAdd(old(y[..]), ApplyT(Entries(), m, x))
    {
      for j := 0 to m
        invariant forall k :: 0 <= k < j ==> y[k] == old(y[k]) + Dot(Column(k), x)
        invariant forall k :: j <= k < m ==> y[k] == old(y[k])
      {
        var s := DotProduct(Column(j), x);
        y[j] := y[j] + s;
      }
      forall k | 0 <= k < m
        ensures y[k] == VecAdd(old(y[..]), ApplyT(Entries(), m, x))[k]
      {
        ColumnOfEntries(k);
      }
    }

    /** mmtv(x, y): y -= A^T x. */
    method Mmtv(x: Vec, y: array<real>)
      requires Valid() && |x| == n && y.Length == m
      modifies y
      ensures y[..] == VecSub(old(y[..]), ApplyT(Entries(), m, x))
    {
      for j := 0 to m
        invariant forall k :: 0 <= k < j ==> y[k] == old(y[k]) - Dot(Column(k), x)
        invariant forall k :: j <= k < m ==> y[k] == old(y[k])
      {
        var s := DotProduct(Column(j), x);
        y[j] := y[j] - s;
      }
      forall k | 0 <= k < m
        ensures y[k] == VecSub(old(y[..]), ApplyT(Entries(), m, x))[k]
      {
        ColumnOfEntries(k);
      }
    }

    /** usmtv(alpha, x, y): y += alpha A^T x. */
    method Usmtv(alpha: real, x: Vec, y: array<real>)
      requires Valid() && |x| == n && y.Length == m
      modifies y
      ensures y[..] == VecAdd(old(y[..]), VecScale(alpha, ApplyT(Entries(), m, x)))
    {
      ghost var product := ApplyT(Entries(), m, x);
      for j := 0 to m
        invariant forall k :: 0 <= k < j ==> y[k] == old(y[k]) + alpha * product[k]
        invariant forall k :: j <= k < m ==> y[k] == old(y[k])
      {
        var s := DotProduct(Column(j), x);
        ColumnOfEntries(j);
        y[j] := y[j] + alpha * s;
      }
      ScaledSumEntries(old(y[..]), alpha, product, y[..]);
    }

    /** umhv(x, y): y += A^H x; for real entries the conjugate transpose is the transpose. */
    method Umhv(x: Vec, y: array<real>)
      requires Valid() && |x| == n && y.Length == m
      modifies y
      ensures y[..] == VecAdd(old(y[..]), ApplyT(Entries(), m, x))
    {
      Umtv(x, y);
    }

    /** mmhv(x, y): y -= A^H x. */
    method Mmhv(x: Vec, y: array<real>)
      requires Valid() && |x| == n && y.Length == m
      modifies y
      ensures y[..] == VecSub(old(y[..]), ApplyT(Entries(), m, x))
    {
      Mmtv(x, y);
    }

    /** usmhv(alpha, x, y): y += alpha A^H x. */
    method Usmhv(alpha: real, x: Vec, y: array<real>)
      requires Valid() && |x| == n && y.Length == m
      modifies y
      ensures y[..] == VecAdd(old(y[..]), VecScale(alpha, ApplyT(Entries(), m, x)))
    {
      Usmtv(alpha, x, y);
    }

    // -------------------------------------------------------------------
    // In-place updates of the matrix
    // -------------------------------------------------------------------

    /** Replaces every entry a[i, j] by f(a[i, j], B[i][j]), row by row. */
    method Combine(B: Mat, f: (real, real) -> real)
      requires Valid() && IsMat(B, n, m)
      modifies a
      ensures forall i, j :: 0 <= i < n && 0 <= j < m ==> a[i, j] == f(old(a[i, j]), B[i][j])
    {
      for i := 0 to n
        invariant forall r, c :: 0 <= r < i && 0 <= c < m ==> a[r, c] == f(old(a[r, c]), B[r][c])
        invariant forall r, c :: i <= r < n && 0 <= c < m ==> a[r, c] == old(a[r, c])
      {
        for j := 0 to m
          invariant forall r, c :: 0 <= r < i && 0 <= c < m ==> a[r, c] == f(old(a[r, c]), B[r][c])
          invariant forall c :: 0 <= c < j ==> a[i, c] == f(old(a[i, c]), B[i][c])
          invariant forall r, c :: i <= r < n && 0 <= c < m && (r > i || c >= j) ==> a[r, c] == old(a[r, c])
        {
          a[i, j] := f(a[i, j], B[i][j]);
        }
      }
    }

    /** `A = k`: every entry becomes k. */
    method Fill(k: real)
      requires Valid()
      modifies a
      ensures Entries() == Constant(n, m, k)
    {
      Combine(Entries(), (x, y) => k);
      MatEqual(Entries(), Constant(n, m, k), n, m);
    }

    /** `A += B`. */
    method AddAssign(B: Mat)
      requires Valid() && IsMat(B, n, m)
      modifies a
      ensures Entries() == MatAdd(old(Entries()), B, n, m)
    {
      ghost var before := Entries();
      Combine(B, (x, y) => x + y);
      MatEqual(Entries(), MatAdd(before, B, n, m), n, m);
    }

    /** `A -= B`. */
    method SubAssign(B: Mat)
      requires Valid() && IsMat(B, n, m)
      modifies a
      ensures Entries() == MatSub(old(Entries()), B, n, m)
    {
      ghost var before := Entries();
      Combine(B, (x, y) => x - y);
      MatEqual(Entries(), MatSub(before, B, n, m), n, m);
    }

    /** `A *= k`. */
    method ScaleAssign(k: real)
      requires Valid()
      modifies a
      ensures Entries() == MatScale(k, old(Entries()), n, m)
    {
      ghost var before := Entries();
      Combine(Entries(), (x, y) => k * x);
      MatEqual(Entries(), MatScale(k, before, n, m), n, m);
    }

    /** axpy(k, X): A += k X. */
    method Axpy(k: real, X: Mat)
      requires Valid() && IsMat(X, n, m)
      modifies a
      ensures Entries() == MatAxpy(old(Entries()), k, X, n, m)
    {
      ghost var before := Entries();
      Combine(X, (x, y) => x + k * y);
      MatEqual(Entries(), MatAxpy(before, k, X, n, m), n, m);
    }

    // -------------------------------------------------------------------
    // Products with another matrix
    // -------------------------------------------------------------------

    /** rightmultiply(B): A = A B for an m-by-m matrix B, through a copy of A. */
    method RightMultiply(B: Mat)
      requires Valid() && IsMat(B, m, m)
      modifies a
      ensures Entries() == Mul(old(Entries()), B, m)
    {
      var C := Entries();
      ghost var P := Mul(C, B, m);
      for i := 0 to n
        invariant forall r, c :: 0 <= r < i && 0 <= c < m ==> a[r, c] == P[r][c]
      {
        for j := 0 to m
          invariant forall r, c :: 0 <= r < i && 0 <= c < m ==> a[r, c] == P[r][c]
          invariant forall c :: 0 <= c < j ==> a[i, c] == P[i][c]
        {
          a[i, j] := DotProduct(C[i], Col(B, j));
        }
      }
      MatEqual(Entries(), P, n, m);
    }

    /** leftmultiply(B): A = B A for an n-by-n matrix B, through a copy of A. */
    method LeftMultiply(B: Mat)
      requires Valid() && IsMat(B, n, n)
      modifies a
      ensures Entries() == Mul(B, old(Entries()), m)
    {
      var C := Entries();
      ghost var P := Mul(B, C, m);
      for i := 0 to n
        invariant forall r, c :: 0 <= r < i && 0 <= c < m ==> a[r, c] == P[r][c]
      {
        for j := 0 to m
          invariant forall r, c :: 0 <= r < i && 0 <= c < m ==> a[r, c] == P[r][c]
          invariant forall c :: 0 <= c < j ==> a[i, c] == P[i][c]
        {
          a[i, j] := DotProduct(B[i], Col(C, j));
        }
      }
      MatEqual(Entries(), P, n, m);
    }

    /** rightmultiplyany(B): the product A B for an m-by-p matrix B, as a new value. */
    function RightMultiplyAny(B: Mat, p: nat): (C: Mat)
      requires Valid() && IsMat(B, m, p)
      reads this, a
      ensures IsMat(C, n, p)
    {
      Mul(Entries(), B, p)
    }

    /** leftmultiplyany(B): the product B A for an l-by-n matrix B, as a new value. */
    function LeftMultiplyAny(B: Mat): (C: Mat)
      requires Valid() && forall i :: 0 <= i < |B| ==> |B[i]| == n
      reads this, a
      ensures IsMat(C, |B|, m)
    {
      Mul(B, Entries(), m)
    }
  }
}
