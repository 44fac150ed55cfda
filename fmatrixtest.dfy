/**
 * The checks of dune/common/test/fmatrixtest.cc, replayed on the FieldMatrix
 * model with exact arithmetic: each replay method builds the matrices the
 * test builds, performs the same operations and promises that the check the
 * test makes passes, for every size and every matrix where the test fixes
 * only one.  The concrete 3-by-3 and 4-by-4 data of the test become lemmas.
 */
module FMatrixTest {
  import opened DenseAlgebra
  import opened FieldMatrices

  // ---------------------------------------------------------------------
  // Arithmetic facts the closed forms rest on
  // ---------------------------------------------------------------------

  /** 0 + 1 + ... + (k - 1). */
  function Triangle(k: nat): nat
  {
    if k == 0 then 0 else Triangle(k - 1) + (k - 1)
  }

  lemma {:induction false} TriangleClosedForm(k: nat)
    ensures 2 * Triangle(k) == k * (k - 1)
  {
    if k > 0 {
      TriangleClosedForm(k - 1);
      assert (k - 1) * (k - 2) + 2 * (k - 1) == k * (k - 1);
    }
  }

  /** The vector 0, 1, ..., len - 1. */
  function Ramp(len: nat): (v: Vec)
    ensures |v| == len && forall k :: 0 <= k < len ==> v[k] == k as real
  {
    seq(len, k => k as real)
  }

  /** The vector with every entry c. */
  function Flat(len: nat, c: real): (v: Vec)
    ensures |v| == len && forall k :: 0 <= k < len ==> v[k] == c
  {
    seq(len, k => c)
  }

  /** A row of c's times the ramp 0, 1, ..., len - 1 is c times their sum. */
  lemma {:induction false} DotFlatRamp(c: real, len: nat)
    ensures Dot(Flat(len, c), Ramp(len)) == c * (Triangle(len) as real)
  {
    if len > 0 {
      assert Flat(len, c)[..len - 1] == Flat(len - 1, c);
      assert Ramp(len)[..len - 1] == Ramp(len - 1);
      DotFlatRamp(c, len - 1);
      assert c * (Triangle(len - 1) as real) + c * ((len - 1) as real)
          == c * ((Triangle(len - 1) + (len - 1)) as real);
    }
  }

  /** i times 0 + 1 + ... + (k - 1), in the test's integer form i*k*(k-1)/2. */
  lemma TriangleTimes(i: nat, k: nat)
    ensures (i as real) * (Triangle(k) as real) == ((i * k * (k - 1)) / 2) as real
  {
    TriangleClosedForm(k);
    assert i * k * (k - 1) == 2 * (i * Triangle(k));
    assert (i * k * (k - 1)) / 2 == i * Triangle(k);
  }

  // ---------------------------------------------------------------------
  // rightmultiplyany / leftmultiplyany on the test's matrices
  // ---------------------------------------------------------------------

  /** The matrix whose row i holds i in every column: the test's A, B and C. */
  function RowIndexMatrix(rows: nat, cols: nat): (A: Mat)
    ensures IsMat(A, rows, cols)
    ensures forall i, j :: 0 <= i < rows && 0 <= j < cols ==> A[i][j] == i as real
  {
    seq(rows, i => seq(cols, j => i as real))
  }

  /** Entry (i, j) of the product of two row-index matrices with inner size l is i l (l-1) / 2. */
  lemma RowIndexProductEntry(r: nat, l: nat, p: nat, i: nat, j: nat)
    requires i < r && j < p
    ensures Mul(RowIndexMatrix(r, l), RowIndexMatrix(l, p), p)[i][j] == ((i * l * (l - 1)) / 2) as real
  {
    var A, B := RowIndexMatrix(r, l), RowIndexMatrix(l, p);
    assert A[i] == Flat(l, i as real);
    assert Col(B, j) == Ramp(l);
    DotFlatRamp(i as real, l);
    TriangleTimes(i, l);
  }

  /**
   * With A[i][j] = i (n by n+1) and B[i][j] = i (n+1 by n+1),
   * (A B)[i][j] = i n (n+1) / 2.
   */
  lemma RightMultiplyAnyClosedForm(n: nat)
    ensures var AB := Mul(RowIndexMatrix(n, n + 1), RowIndexMatrix(n + 1, n + 1), n + 1);
      forall i, j :: 0 <= i < n && 0 <= j < n + 1 ==> AB[i][j] == ((i * n * (n + 1)) / 2) as real
  {
    var AB := Mul(RowIndexMatrix(n, n + 1), RowIndexMatrix(n + 1, n + 1), n + 1);
    forall i, j | 0 <= i < n && 0 <= j < n + 1
      ensures AB[i][j] == ((i * n * (n + 1)) / 2) as real
    {
      RowIndexProductEntry(n, n + 1, n + 1, i, j);
      assert i * (n + 1) * (n + 1 - 1) == i * n * (n + 1);
    }
  }

  /**
   * With C[i][j] = i (n by n) and A[i][j] = i (n by n+1),
   * (C A)[i][j] = i n (n-1) / 2.
   */
  lemma LeftMultiplyAnyClosedForm(n: nat)
    ensures var CA := Mul(RowIndexMatrix(n, n), RowIndexMatrix(n, n + 1), n + 1);
      forall i, j :: 0 <= i < n && 0 <= j < n + 1 ==> CA[i][j] == ((i * n * (n - 1)) / 2) as real
  {
    var CA := Mul(RowIndexMatrix(n, n), RowIndexMatrix(n, n + 1), n + 1);
    forall i, j | 0 <= i < n && 0 <= j < n + 1
      ensures CA[i][j] == ((i * n * (n - 1)) / 2) as real
    {
      RowIndexProductEntry(n, n, n + 1, i, j);
    }
  }

  /** A matrix minus itself is the zero matrix, whose infinity norm is 0. */
  lemma DifferenceOfEqualHasNormZero(X: Mat, Y: Mat, n: nat, m: nat)
    requires IsMat(X, n, m) && X == Y
    ensures InfinityNorm(MatSub(X, Y, n, m)) == 0.0
  {
    var D := MatSub(X, Y, n, m);
    assert forall i, k :: 0 <= i < n && 0 <= k < m ==> D[i][k] == 0.0;
  }

  /** Line 322-326: rightmultiplyany meets the closed form i n (n+1) / 2. */
  method CheckRightMultiplyAny(n: nat) returns (passed: bool)
    ensures passed
  {
    var A := new FieldMatrix(RowIndexMatrix(n, n + 1), n, n + 1);
    var B := new FieldMatrix(RowIndexMatrix(n + 1, n + 1), n + 1, n + 1);
    var AB := A.RightMultiplyAny(B.Entries(), n + 1);
    RightMultiplyAnyClosedForm(n);
    passed := forall i, j :: 0 <= i < n && 0 <= j < n + 1 ==> AB[i][j] == ((i * n * (n + 1)) / 2) as real;
  }

  /** An in-place rightmultiply followed by subtracting the product leaves a matrix of norm 0. */
  method RightMultiplyMatchesProduct(E: Mat, F: Mat, n: nat, m: nat) returns (passed: bool)
    requires IsMat(E, n, m) && IsMat(F, m, m)
    ensures passed
  {
    var X := new FieldMatrix(E, n, m);
    X.RightMultiply(F);
    DifferenceOfEqualHasNormZero(X.Entries(), Mul(E, F, m), n, m);
    X.SubAssign(Mul(E, F, m));
    passed := InfinityNorm(X.Entries()) == 0.0;
  }

  /** An in-place leftmultiply followed by subtracting the product leaves a matrix of norm 0. */
  method LeftMultiplyMatchesProduct(E: Mat, F: Mat, n: nat, m: nat) returns (passed: bool)
    requires IsMat(E, n, m) && IsMat(F, n, n)
    ensures passed
  {
    var X := new FieldMatrix(E, n, m);
    X.LeftMultiply(F);
    DifferenceOfEqualHasNormZero(X.Entries(), Mul(F, E, m), n, m);
    X.SubAssign(Mul(F, E, m));
    passed := InfinityNorm(X.Entries()) == 0.0;
  }

  /** A matrix built from a product, minus that product, has norm 0. */
  method CopyMatchesProduct(P: Mat, Q: Mat, n: nat, m: nat) returns (passed: bool)
    requires IsMat(P, n, m) && P == Q
    ensures passed
  {
    var X := new FieldMatrix(P, n, m);
    DifferenceOfEqualHasNormZero(X.Entries(), Q, n, m);
    X.SubAssign(Q);
    passed := InfinityNorm(X.Entries()) == 0.0;
  }

  /** Lines 328-337: in-place rightmultiply and B.leftmultiplyany(A) both equal A.rightmultiplyany(B). */
  method CheckRightMultiply(n: nat) returns (passed: bool)
    ensures passed
  {
    var A := new FieldMatrix(RowIndexMatrix(n, n + 1), n, n + 1);
    var B := new FieldMatrix(RowIndexMatrix(n + 1, n + 1), n + 1, n + 1);
    var AB := A.RightMultiplyAny(B.Entries(), n + 1);
    var inPlace := RightMultiplyMatchesProduct(A.Entries(), B.Entries(), n, n + 1);
    var fromLeft := CopyMatchesProduct(B.LeftMultiplyAny(A.Entries()), AB, n, n + 1);
    passed := inPlace && fromLeft;
  }

  /** Lines 339-343: leftmultiplyany meets the closed form i n (n-1) / 2. */
  method CheckLeftMultiplyAny(n: nat) returns (passed: bool)
    ensures passed
  {
    var A := new FieldMatrix(RowIndexMatrix(n, n + 1), n, n + 1);
    var C := new FieldMatrix(RowIndexMatrix(n, n), n, n);
    var CA := A.LeftMultiplyAny(C.Entries());
    LeftMultiplyAnyClosedForm(n);
    passed := forall i, j :: 0 <= i < n && 0 <= j < n + 1 ==> CA[i][j] == ((i * n * (n - 1)) / 2) as real;
  }

  /** Lines 345-354: in-place leftmultiply and C.rightmultiplyany(A) both equal A.leftmultiplyany(C). */
  method CheckLeftMultiply(n: nat) returns (passed: bool)
    ensures passed
  {
    var A := new FieldMatrix(RowIndexMatrix(n, n + 1), n, n + 1);
    var C := new FieldMatrix(RowIndexMatrix(n, n), n, n);
    var CA := A.LeftMultiplyAny(C.Entries());
    var inPlace := LeftMultiplyMatchesProduct(A.Entries(), C.Entries(), n, n + 1);
    var fromRight := CopyMatchesProduct(C.RightMultiplyAny(A.Entries(), n + 1), CA, n, n + 1);
    passed := inPlace && fromRight;
  }

  // ---------------------------------------------------------------------
  // +=, -=, *= and axpy
  // ---------------------------------------------------------------------

  /** (A + A) - 2A is the zero matrix. */
  lemma AddThenSubtractDouble(E: Mat, n: nat, m: nat)
    requires IsMat(E, n, m)
    ensures InfinityNorm(MatSub(MatAdd(E, E, n, m), MatScale(2.0, E, n, m), n, m)) == 0.0
  {
    var D := MatSub(MatAdd(E, E, n, m), MatScale(2.0, E, n, m), n, m);
    assert forall i, k :: 0 <= i < n && 0 <= k < m ==> D[i][k] == 0.0;
  }

  /** (A + 2A) - 3A is the zero matrix. */
  lemma AxpyThenSubtractTriple(E: Mat, n: nat, m: nat)
    requires IsMat(E, n, m)
    ensures InfinityNorm(MatSub(MatAxpy(E, 2.0, E, n, m), MatScale(3.0, E, n, m), n, m)) == 0.0
  {
    var D := MatSub(MatAxpy(E, 2.0, E, n, m), MatScale(3.0, E, n, m), n, m);
    assert forall i, k :: 0 <= i < n && 0 <= k < m ==> D[i][k] == 0.0;
  }

  /** Lines 282-291: with A2 = 2A, `B = A; B += A; B -= A2` leaves the zero matrix, for every A. */
  method CheckAddSub(A: FieldMatrix) returns (passed: bool)
    requires A.Valid()
    ensures passed
  {
    var A2 := new FieldMatrix(A.Entries(), A.n, A.m);
    A2.ScaleAssign(2.0);
    var B := new FieldMatrix(A.Entries(), A.n, A.m);
    B.AddAssign(A.Entries());
    B.SubAssign(A2.Entries());
    AddThenSubtractDouble(A.Entries(), A.n, A.m);
    passed := InfinityNorm(B.Entries()) == 0.0;
  }

  /** Lines 292-301: with A3 = 3A, `B = A; B.axpy(2, B); B -= A3` leaves the zero matrix, for every A. */
  method CheckAxpy(A: FieldMatrix) returns (passed: bool)
    requires A.Valid()
    ensures passed
  {
    var A3 := new FieldMatrix(A.Entries(), A.n, A.m);
    A3.ScaleAssign(3.0);
    var B := new FieldMatrix(A.Entries(), A.n, A.m);
    B.Axpy(2.0, B.Entries());
    B.SubAssign(A3.Entries());
    AxpyThenSubtractTriple(A.Entries(), A.n, A.m);
    passed := InfinityNorm(B.Entries()) == 0.0;
  }

  // ---------------------------------------------------------------------
  // mv, umv and mmv
  // ---------------------------------------------------------------------

  /** Lines 233-247: mv into any vector and umv into a zero vector give the same result. */
  method CheckMvAgainstUmv(A: FieldMatrix, b: Vec) returns (same: bool)
    requires A.Valid() && |b| == A.m
    ensures same
  {
    var res2 := new real[A.n](k => 0.0);
    var res1 := new real[A.n];
    assert res2[..] == Zeros(A.n);
    A.Mv(b, res1);
    A.Umv(b, res2);
    ZerosAddIdentity(Apply(A.Entries(), b));
    same := res1[..] == res2[..];
  }

  /** Lines 91-99: when A x = b, mmv(x, b) leaves the zero vector. */
  method CheckGivenSolution(data: Mat, n: nat, x: Vec, b: Vec) returns (passed: bool)
    requires IsMat(data, n, n) && |x| == n && Apply(data, x) == b
    ensures passed
  {
    var copy := new FieldMatrix(data, n, n);
    var trhs := new real[n](k requires 0 <= k < n => b[k]);
    assert trhs[..] == b;
    copy.Mmv(x, trhs);
    VecSubSelf(b);
    passed := forall k :: 0 <= k < n ==> trhs[k] == 0.0;
  }

  /** Lines 51-61: rightmultiply by the given inverse, minus the identity, leaves the zero matrix. */
  method CheckGivenInverse(data: Mat, n: nat, inverse: Mat) returns (passed: bool)
    requires IsMat(data, n, n) && IsMat(inverse, n, n) && Mul(data, inverse, n) == Identity(n)
    ensures passed
  {
    var prod := new FieldMatrix(data, n, n);
    prod.RightMultiply(inverse);
    DifferenceOfEqualHasNormZero(prod.Entries(), Identity(n), n, n);
    prod.SubAssign(Identity(n));
    passed := InfinityNorm(prod.Entries()) == 0.0;
  }

  // ---------------------------------------------------------------------
  // The four systems of test_invert_solve (lines 130-155)
  // ---------------------------------------------------------------------

  /** The scalar product of two 3-vectors, written out. */
  lemma Dot3(u: Vec, v: Vec)
    requires |u| == 3 && |v| == 3
    ensures Dot(u, v) == u[0] * v[0] + u[1] * v[1] + u[2] * v[2]
  {
    assert Dot(u[..1], v[..1]) == u[0] * v[0] by {
      assert u[..1][..0] == [] && v[..1][..0] == [];
    }
    assert Dot(u[..2], v[..2]) == Dot(u[..1], v[..1]) + u[1] * v[1] by {
      assert u[..2][..1] == u[..1] && v[..2][..1] == v[..1];
    }
    assert Dot(u, v) == Dot(u[..2], v[..2]) + u[2] * v[2];
  }

  /** Entry (i, j) of a 3-by-3 product, written out. */
  lemma Mul3(A: Mat, B: Mat)
    requires IsMat(A, 3, 3) && IsMat(B, 3, 3)
    ensures forall i, j :: 0 <= i < 3 && 0 <= j < 3 ==>
      Mul(A, B, 3)[i][j] == A[i][0] * B[0][j] + A[i][1] * B[1][j] + A[i][2] * B[2][j]
  {
    forall i, j | 0 <= i < 3 && 0 <= j < 3
      ensures Mul(A, B, 3)[i][j] == A[i][0] * B[0][j] + A[i][1] * B[1][j] + A[i][2] * B[2][j]
    {
      Dot3(A[i], Col(B, j));
    }
  }

  /** A 3-by-3 matrix applied to a vector, written out. */
  lemma Apply3(A: Mat, x: Vec)
    requires IsMat(A, 3, 3) && |x| == 3
    ensures |Apply(A, x)| == 3
    ensures Apply(A, x)[0] == A[0][0] * x[0] + A[0][1] * x[1] + A[0][2] * x[2]
    ensures Apply(A, x)[1] == A[1][0] * x[0] + A[1][1] * x[1] + A[1][2] * x[2]
    ensures Apply(A, x)[2] == A[2][0] * x[0] + A[2][1] * x[1] + A[2][2] * x[2]
  {
    Dot3(A[0], x);
    Dot3(A[1], x);
    Dot3(A[2], x);
  }

  /** A 3-by-3 matrix whose entries are those of the identity is the identity. */
  lemma IsIdentity3(P: Mat)
    requires IsMat(P, 3, 3)
    requires P[0][0] == 1.0 && P[0][1] == 0.0 && P[0][2] == 0.0
    requires P[1][0] == 0.0 && P[1][1] == 1.0 && P[1][2] == 0.0
    requires P[2][0] == 0.0 && P[2][1] == 0.0 && P[2][2] == 1.0
    ensures P == Identity(3)
  {
    MatEqual(P, Identity(3), 3, 3);
  }

  /*
   * The four data sets of the invert-and-solve test, in its order: A0 is
   * A_data with inv_data, x and b; A1 is A_data0 with inv_data0, x0 and b0;
   * A2 is A_data1, used as its own inverse, with x1 and b1; A3 is A_data2
   * with inv_data2, x2 and b2.
   */
  const A0: Mat := [[1.0, 5.0, 7.0], [2.0, 14.0, 15.0], [4.0, 40.0, 39.0]]
  const Inverse0: Mat := [[-9.0 / 4.0, 85.0 / 24.0, -23.0 / 24.0], [-3.0 / 4.0, 11.0 / 24.0, -1.0 / 24.0], [1.0, -5.0 / 6.0, 1.0 / 6.0]]
  const X0: Vec := [1.0, 2.0, 3.0]
  const B0: Vec := [32.0, 75.0, 201.0]

  const A1: Mat := [[-0.5, 0.0, -0.25], [0.5, 0.0, -0.25], [0.0, 0.5, 0.0]]
  const Inverse1: Mat := [[-1.0, 1.0, 0.0], [0.0, 0.0, 2.0], [-2.0, -2.0, 0.0]]
  const X1: Vec := [43.0, 402.0, -214.0]
  const B1: Vec := [32.0, 75.0, 201.0]

  /** A permutation matrix, which is its own inverse. */
  const A2: Mat := [[0.0, 1.0, 0.0], [1.0, 0.0, 0.0], [0.0, 0.0, 1.0]]
  const X2: Vec := [1.0, 0.0, 2.0]
  const B2: Vec := [0.0, 1.0, 2.0]

  const A3: Mat := [[3.0, 1.0, 6.0], [2.0, 1.0, 3.0], [1.0, 1.0, 1.0]]
  const Inverse3: Mat := [[-2.0, 5.0, -3.0], [1.0, -3.0, 3.0], [1.0, -2.0, 1.0]]
  const X3: Vec := [19.0, -7.0, -8.0]
  const B3: Vec := [2.0, 7.0, 4.0]

  /** A0 times Inverse0 is the identity. */
  lemma InverseIsExact0()
    ensures Mul(A0, Inverse0, 3) == Identity(3)
  {
    Mul3(A0, Inverse0);
    IsIdentity3(Mul(A0, Inverse0, 3));
  }

  /** A1 times Inverse1 is the identity. */
  lemma InverseIsExact1()
    ensures Mul(A1, Inverse1, 3) == Identity(3)
  {
    Mul3(A1, Inverse1);
    IsIdentity3(Mul(A1, Inverse1, 3));
  }

  /** A2 times A2 is the identity. */
  lemma InverseIsExact2()
    ensures Mul(A2, A2, 3) == Identity(3)
  {
    Mul3(A2, A2);
    IsIdentity3(Mul(A2, A2, 3));
  }

  /** A3 times Inverse3 is the identity. */
  lemma InverseIsExact3()
    ensures Mul(A3, Inverse3, 3) == Identity(3)
  {
    Mul3(A3, Inverse3);
    IsIdentity3(Mul(A3, Inverse3, 3));
  }

  /** Each given inverse is exact: A times it is the identity. */
  lemma GivenInversesAreExact()
    ensures Mul(A0, Inverse0, 3) == Identity(3)
    ensures Mul(A1, Inverse1, 3) == Identity(3)
    ensures Mul(A2, A2, 3) == Identity(3)
    ensures Mul(A3, Inverse3, 3) == Identity(3)
  {
    InverseIsExact0();
    InverseIsExact1();
    InverseIsExact2();
    InverseIsExact3();
  }

  /** Each given solution is exact: A x = b. */
  lemma GivenSolutionsAreExact()
    ensures Apply(A0, X0) == B0
    ensures Apply(A1, X1) == B1
    ensures Apply(A2, X2) == B2
    ensures Apply(A3, X3) == B3
  {
    Apply3(A0, X0);
    assert Apply(A0, X0) == [Apply(A0, X0)[0], Apply(A0, X0)[1], Apply(A0, X0)[2]];
    Apply3(A1, X1);
    assert Apply(A1, X1) == [Apply(A1, X1)[0], Apply(A1, X1)[1], Apply(A1, X1)[2]];
    Apply3(A2, X2);
    assert Apply(A2, X2) == [Apply(A2, X2)[0], Apply(A2, X2)[1], Apply(A2, X2)[2]];
    Apply3(A3, X3);
    assert Apply(A3, X3) == [Apply(A3, X3)[0], Apply(A3, X3)[1], Apply(A3, X3)[2]];
  }

  /** The product checks of test_invert_solve on its four systems all pass. */
  method CheckInvertSolveProducts() returns (passed: bool)
    ensures passed
  {
    GivenInversesAreExact();
    GivenSolutionsAreExact();
    var p0 := CheckGivenInverse(A0, 3, Inverse0);
    var q0 := CheckGivenSolution(A0, 3, X0, B0);
    var p1 := CheckGivenInverse(A1, 3, Inverse1);
    var q1 := CheckGivenSolution(A1, 3, X1, B1);
    var p2 := CheckGivenInverse(A2, 3, A2);
    var q2 := CheckGivenSolution(A2, 3, X2, B2);
    var p3 := CheckGivenInverse(A3, 3, Inverse3);
    var q3 := CheckGivenSolution(A3, 3, X3, B3);
    passed := p0 && q0 && p1 && q1 && p2 && q2 && p3 && q3;
  }

  // ---------------------------------------------------------------------
  // test_determinant (lines 362-381)
  // ---------------------------------------------------------------------

  /** The first matrix of test_determinant. */
  const DetMatrix1: Mat := [[3.0, 0.0, 1.0, 0.0], [-1.0, 3.0, 0.0, 0.0], [-3.0, 0.0, -1.0, 2.0], [0.0, -1.0, 0.0, 1.0]]

  /** The second: its last row is the sum of the first three, so it is singular. */
  const DetMatrix2: Mat := [[3.0, 0.0, 1.0, 0.0], [-1.0, 3.0, 0.0, 0.0], [-3.0, 0.0, -1.0, 2.0], [-1.0, 3.0, 0.0, 2.0]]

  /** The determinant of a 1-by-1 matrix is its entry. */
  lemma Det1(A: Mat)
    requires IsMat(A, 1, 1)
    ensures Det(A) == A[0][0]
  {
    assert Det(Minor(A, 0)) == 1.0;
    assert Expansion(A, 1) == Expansion(A, 0) + 1.0 * A[0][0] * Det(Minor(A, 0));
  }

  /** The determinant of a 2-by-2 matrix, written out. */
  lemma Det2(A: Mat)
    requires IsMat(A, 2, 2)
    ensures Det(A) == A[0][0] * A[1][1] - A[0][1] * A[1][0]
  {
    Det1(Minor(A, 0));
    Det1(Minor(A, 1));
    assert Expansion(A, 1) == A[0][0] * A[1][1];
    assert Expansion(A, 2) == Expansion(A, 1) + -1.0 * A[0][1] * Det(Minor(A, 1));
  }

  /** The determinant of a 3-by-3 matrix, written out. */
  lemma Det3(A: Mat)
    requires IsMat(A, 3, 3)
    ensures Det(A) == A[0][0] * (A[1][1] * A[2][2] - A[1][2] * A[2][1])
                    - A[0][1] * (A[1][0] * A[2][2] - A[1][2] * A[2][0])
                    + A[0][2] * (A[1][0] * A[2][1] - A[1][1] * A[2][0])
  {
    Det2(Minor(A, 0));
    Det2(Minor(A, 1));
    Det2(Minor(A, 2));
    assert Expansion(A, 1) == A[0][0] * Det(Minor(A, 0));
    assert Expansion(A, 2) == Expansion(A, 1) + -1.0 * A[0][1] * Det(Minor(A, 1));
    assert Expansion(A, 3) == Expansion(A, 2) + 1.0 * A[0][2] * Det(Minor(A, 2));
  }

  /** Laplace expansion of a 4-by-4 determinant along its first row. */
  lemma Det4(A: Mat)
    requires IsMat(A, 4, 4)
    ensures Det(A) == A[0][0] * Det(Minor(A, 0)) - A[0][1] * Det(Minor(A, 1))
                    + A[0][2] * Det(Minor(A, 2)) - A[0][3] * Det(Minor(A, 3))
  {
    assert Expansion(A, 1) == A[0][0] * Det(Minor(A, 0));
    assert Expansion(A, 2) == Expansion(A, 1) + -1.0 * A[0][1] * Det(Minor(A, 1));
    assert Expansion(A, 3) == Expansion(A, 2) + 1.0 * A[0][2] * Det(Minor(A, 2));
    assert Expansion(A, 4) == Expansion(A, 3) + -1.0 * A[0][3] * Det(Minor(A, 3));
  }

  /** Minor 0 of DetMatrix1 has determinant -3.0. */
  lemma FirstMatrixMinor0()
    ensures Det(Minor(DetMatrix1, 0)) == -3.0
  {
    var M := Minor(DetMatrix1, 0);
    assert M[0][0] == 3.0 && M[0][1] == 0.0 && M[0][2] == 0.0;
    assert M[1][0] == 0.0 && M[1][1] == -1.0 && M[1][2] == 2.0;
    assert M[2][0] == -1.0 && M[2][1] == 0.0 && M[2][2] == 1.0;
    Det3(M);
  }

  /** Minor 2 of DetMatrix1 has determinant 7.0. */
  lemma FirstMatrixMinor2()
    ensures Det(Minor(DetMatrix1, 2)) == 7.0
  {
    var M := Minor(DetMatrix1, 2);
    assert M[0][0] == -1.0 && M[0][1] == 3.0 && M[0][2] == 0.0;
    assert M[1][0] == -3.0 && M[1][1] == 0.0 && M[1][2] == 2.0;
    assert M[2][0] == 0.0 && M[2][1] == -1.0 && M[2][2] == 1.0;
    Det3(M);
  }

  /** The first determinant the test checks is -2. */
  lemma DeterminantOfFirstMatrix()
    ensures Det(DetMatrix1) == -2.0
  {
    Det4(DetMatrix1);
    FirstMatrixMinor0();
    FirstMatrixMinor2();
  }

  /** Minor 0 of DetMatrix2 has determinant -6.0. */
  lemma SecondMatrixMinor0()
    ensures Det(Minor(DetMatrix2, 0)) == -6.0
  {
    var M := Minor(DetMatrix2, 0);
    assert M[0][0] == 3.0 && M[0][1] == 0.0 && M[0][2] == 0.0;
    assert M[1][0] == 0.0 && M[1][1] == -1.0 && M[1][2] == 2.0;
    assert M[2][0] == 3.0 && M[2][1] == 0.0 && M[2][2] == 2.0;
    Det3(M);
  }

  /** Minor 2 of DetMatrix2 has determinant 18.0. */
  lemma SecondMatrixMinor2()
    ensures Det(Minor(DetMatrix2, 2)) == 18.0
  {
    var M := Minor(DetMatrix2, 2);
    assert M[0][0] == -1.0 && M[0][1] == 3.0 && M[0][2] == 0.0;
    assert M[1][0] == -3.0 && M[1][1] == 0.0 && M[1][2] == 2.0;
    assert M[2][0] == -1.0 && M[2][1] == 3.0 && M[2][2] == 2.0;
    Det3(M);
  }

  /** The second determinant the test checks is exactly 0. */
  lemma DeterminantOfSecondMatrix()
    ensures Det(DetMatrix2) == 0.0
  {
    Det4(DetMatrix2);
    SecondMatrixMinor0();
    SecondMatrixMinor2();
  }
}
