/**
  The small part of numpy's linear algebra the contextual engine uses, over
  `real`: vectors, square matrices, products, the identity, and what it means
  for one matrix to be the inverse of another. The inverse itself
  (`np.linalg.inv`) is foreign code; it enters the model as a parameter of type
  `Inverter`, whose contract is that every matrix it returns is a two-sided
  inverse of its argument (returning `None` stands for `LinAlgError`).
 */
module LinAlg {
  import opened Wrappers

  type Vector = seq<real>
  type Matrix = seq<seq<real>>

  /** Sum of the entries of a vector. */
  function SumSeq(s: Vector): real {
    if |s| == 0 then 0.0 else SumSeq(s[..|s| - 1]) + s[|s| - 1]
  }

  function VAdd(u: Vector, v: Vector): (w: Vector)
    requires |u| == |v|
    ensures |w| == |u| && forall i :: 0 <= i < |u| ==> w[i] == u[i] + v[i]
  {
    seq(|u|, i requires 0 <= i < |u| => u[i] + v[i])
  }

  function VScale(c: real, u: Vector): (w: Vector)
    ensures |w| == |u| && forall i :: 0 <= i < |u| ==> w[i] == c * u[i]
  {
    seq(|u|, i requires 0 <= i < |u| => c * u[i])
  }

  /** Entry-wise product. */
  function VMul(u: Vector, v: Vector): (w: Vector)
    requires |u| == |v|
    ensures |w| == |u| && forall i :: 0 <= i < |u| ==> w[i] == u[i] * v[i]
  {
    seq(|u|, i requires 0 <= i < |u| => u[i] * v[i])
  }

  /** Inner product `u · v` (numpy's `@` on two 1-D arrays). */
  function Dot(u: Vector, v: Vector): real
    requires |u| == |v|
  {
    SumSeq(VMul(u, v))
  }

  /** `M` has `r` rows of `c` entries each. */
  predicate IsMatrix(M: Matrix, r: nat, c: nat) {
    |M| == r && forall i :: 0 <= i < r ==> |M[i]| == c
  }

  predicate IsSquare(M: Matrix) {
    IsMatrix(M, |M|, |M|)
  }

  /** Column `j` of a matrix whose rows all have more than `j` entries. */
  function Column(M: Matrix, j: nat): (c: Vector)
    requires forall i :: 0 <= i < |M| ==> j < |M[i]|
    ensures |c| == |M| && forall i :: 0 <= i < |M| ==> c[i] == M[i][j]
  {
    seq(|M|, i requires 0 <= i < |M| => M[i][j])
  }

  /** Matrix-vector product `M @ v`. */
  function MatVec(M: Matrix, v: Vector): (w: Vector)
    requires IsMatrix(M, |M|, |v|)
    ensures |w| == |M| && forall i :: 0 <= i < |M| ==> w[i] == Dot(M[i], v)
  {
    seq(|M|, i requires 0 <= i < |M| => Dot(M[i], v))
  }

  /** Product `A @ B` of two square matrices of the same size. */
  function MatMul(A: Matrix, B: Matrix): (C: Matrix)
    requires IsSquare(A) && IsSquare(B) && |A| == |B|
    ensures IsSquare(C) && |C| == |A|
    ensures forall i, j :: 0 <= i < |A| && 0 <= j < |A| ==> C[i][j] == Dot(A[i], Column(B, j))
  {
    seq(|A|, i requires 0 <= i < |A| => seq(|A|, j requires 0 <= j < |A| => Dot(A[i], Column(B, j))))
  }

  function Identity(n: nat): (I: Matrix)
    ensures IsSquare(I) && |I| == n
    ensures forall i, j :: 0 <= i < n && 0 <= j < n ==> I[i][j] == if i == j then 1.0 else 0.0
  {
    seq(n, i requires 0 <= i < n => seq(n, j requires 0 <= j < n => if i == j then 1.0 else 0.0))
  }

  function Transpose(M: Matrix): (T: Matrix)
    requires IsSquare(M)
    ensures IsSquare(T) && |T| == |M|
    ensures forall i, j :: 0 <= i < |M| && 0 <= j < |M| ==> T[i][j] == M[j][i]
  {
    seq(|M|, i requires 0 <= i < |M| => seq(|M|, j requires 0 <= j < |M| => M[j][i]))
  }

  predicate Symmetric(M: Matrix) {
    IsSquare(M) && forall i, j :: 0 <= i < |M| && 0 <= j < |M| ==> M[i][j] == M[j][i]
  }

  /** `B` is a two-sided inverse of the square matrix `A`. */
  predicate IsInverse(A: Matrix, B: Matrix) {
    && IsSquare(A) && IsSquare(B) && |A| == |B|
    && MatMul(A, B) == Identity(|A|)
    && MatMul(B, A) == Identity(|A|)
  }

  /** `np.linalg.inv`: whenever it returns a matrix, that matrix is an inverse of its argument. */
  type Inverter = f: Matrix -> Option<Matrix>
    | forall M :: f(M).Some? ==> IsInverse(M, f(M).value)
    witness (M: Matrix) => None

  /** numpy adds a scalar to a matrix by adding it to every entry. */
  function AddScalar(M: Matrix, c: real): (R: Matrix)
    ensures |R| == |M|
    ensures forall i :: 0 <= i < |M| ==> |R[i]| == |M[i]|
    ensures forall i, j :: 0 <= i < |M| && 0 <= j < |M[i]| ==> R[i][j] == M[i][j] + c
  {
    seq(|M|, i requires 0 <= i < |M| => seq(|M[i]|, j requires 0 <= j < |M[i]| => M[i][j] + c))
  }

  /** Entry-wise sum of two matrices of the same shape. */
  function MatAdd(A: Matrix, B: Matrix): (R: Matrix)
    requires IsSquare(A) && IsSquare(B) && |A| == |B|
    ensures IsSquare(R) && |R| == |A|
    ensures forall i, j :: 0 <= i < |A| && 0 <= j < |A| ==> R[i][j] == A[i][j] + B[i][j]
  {
    seq(|A|, i requires 0 <= i < |A| => seq(|A|, j requires 0 <= j < |A| => A[i][j] + B[i][j]))
  }

  /** The outer product `x xᵀ` scaled by `c`. */
  function ScaledOuter(x: Vector, c: real): (R: Matrix)
    ensures IsSquare(R) && |R| == |x|
    ensures forall i, j :: 0 <= i < |x| && 0 <= j < |x| ==> R[i][j] == c * x[i] * x[j]
  {
    seq(|x|, i requires 0 <= i < |x| => seq(|x|, j requires 0 <= j < |x| => c * x[i] * x[j]))
  }

  // ---------------------------------------------------------------------
  // Sums

  lemma {:induction false} SumSeqAdd(u: Vector, v: Vector)
    requires |u| == |v|
    ensures SumSeq(VAdd(u, v)) == SumSeq(u) + SumSeq(v)
  {
    if |u| > 0 {
      var n := |u| - 1;
      assert VAdd(u, v)[..n] == VAdd(u[..n], v[..n]);
      SumSeqAdd(u[..n], v[..n]);
    }
  }

  lemma {:induction false} SumSeqScale(c: real, u: Vector)
    ensures SumSeq(VScale(c, u)) == c * SumSeq(u)
  {
    if |u| > 0 {
      var n := |u| - 1;
      forall i | 0 <= i < n ensures VScale(c, u)[..n][i] == VScale(c, u[..n])[i] { }
      assert VScale(c, u)[..n] == VScale(c, u[..n]);
      SumSeqScale(c, u[..n]);
    }
  }

  lemma {:induction false} SumSeqZero(u: Vector)
    requires forall k :: 0 <= k < |u| ==> u[k] == 0.0
    ensures SumSeq(u) == 0.0
  {
    if |u| > 0 {
      SumSeqZero(u[..|u| - 1]);
    }
  }

  /** A sum with a single non-zero entry is that entry. */
  lemma {:induction false} SumSeqSingle(u: Vector, j: nat)
    requires j < |u|
    requires forall k :: 0 <= k < |u| && k != j ==> u[k] == 0.0
    ensures SumSeq(u) == u[j]
  {
    var n := |u| - 1;
    if j == n {
      SumSeqZero(u[..n]);
    } else {
      SumSeqSingle(u[..n], j);
    }
  }

  /** Row `i` of the term matrix summed. */
  function RowSums(T: Matrix): (r: Vector)
    ensures |r| == |T| && forall i :: 0 <= i < |T| ==> r[i] == SumSeq(T[i])
  {
    seq(|T|, i requires 0 <= i < |T| => SumSeq(T[i]))
  }

  function ColSums(T: Matrix, m: nat): (c: Vector)
    requires IsMatrix(T, |T|, m)
    ensures |c| == m && forall j :: 0 <= j < m ==> c[j] == SumSeq(Column(T, j))
  {
    seq(m, j requires 0 <= j < m => SumSeq(Column(T, j)))
  }

  /** The order of a double sum over a rectangular array of terms does not matter. */
  lemma {:induction false} SumSeqSwap(T: Matrix, m: nat)
    requires IsMatrix(T, |T|, m)
    ensures SumSeq(RowSums(T)) == SumSeq(ColSums(T, m))
  {
    if |T| == 0 {
      SumSeqZero(ColSums(T, m));
    } else {
      var n := |T| - 1;
      var T' := T[..n];
      SumSeqSwap(T', m);
      assert RowSums(T)[..n] == RowSums(T');
      assert ColSums(T, m) == VAdd(ColSums(T', m), T[n]) by {
        forall j | 0 <= j < m
          ensures ColSums(T, m)[j] == ColSums(T', m)[j] + T[n][j]
        {
          assert Column(T, j)[..n] == Column(T', j);
        }
      }
      SumSeqAdd(ColSums(T', m), T[n]);
    }
  }

  // ---------------------------------------------------------------------
  // Products

  /** Two matrices of the same shape with the same entries are equal. */
  lemma MatrixExt(A: Matrix, B: Matrix)
    requires IsSquare(A) && IsSquare(B) && |A| == |B|
    requires forall i, j :: 0 <= i < |A| && 0 <= j < |A| ==> A[i][j] == B[i][j]
    ensures A == B
  {
    forall i | 0 <= i < |A| ensures A[i] == B[i] {
      assert forall j :: 0 <= j < |A| ==> A[i][j] == B[i][j];
    }
  }

  lemma DotCommutes(u: Vector, v: Vector)
    requires |u| == |v|
    ensures Dot(u, v) == Dot(v, u)
  {
    assert VMul(u, v) == VMul(v, u);
  }

  /** The terms `a[k] * B[k][j] * c[j]` of both sides of the adjoint identity. */
  function AdjointTerms(a: Vector, B: Matrix, c: Vector): (T: Matrix)
    requires IsSquare(B) && |a| == |B| == |c|
    ensures IsMatrix(T, |B|, |B|)
    ensures forall k, j :: 0 <= k < |B| && 0 <= j < |B| ==> T[k][j] == a[k] * (B[k][j] * c[j])
  {
    seq(|B|, k requires 0 <= k < |B| => seq(|B|, j requires 0 <= j < |B| => a[k] * (B[k][j] * c[j])))
  }

  /** `aᵀ B`, the row vector whose `j`-th entry is `a` against column `j`. */
  function RowTimes(a: Vector, B: Matrix): (r: Vector)
    requires IsSquare(B) && |a| == |B|
    ensures |r| == |B| && forall j :: 0 <= j < |B| ==> r[j] == Dot(a, Column(B, j))
  {
    seq(|B|, j requires 0 <= j < |B| => Dot(a, Column(B, j)))
  }

  lemma AdjointRows(a: Vector, B: Matrix, c: Vector)
    requires IsSquare(B) && |a| == |B| == |c|
    ensures RowSums(AdjointTerms(a, B, c)) == VMul(a, MatVec(B, c))
  {
    var n := |B|;
    var T := AdjointTerms(a, B, c);
    forall k | 0 <= k < n
      ensures RowSums(T)[k] == VMul(a, MatVec(B, c))[k]
    {
      forall j | 0 <= j < n ensures T[k][j] == VScale(a[k], VMul(B[k], c))[j] { }
      assert T[k] == VScale(a[k], VMul(B[k], c));
      SumSeqScale(a[k], VMul(B[k], c));
    }
  }

  lemma AdjointColumns(a: Vector, B: Matrix, c: Vector)
    requires IsSquare(B) && |a| == |B| == |c|
    ensures ColSums(AdjointTerms(a, B, c), |B|) == VMul(RowTimes(a, B), c)
  {
    var n := |B|;
    var T := AdjointTerms(a, B, c);
    forall j | 0 <= j < n
      ensures ColSums(T, n)[j] == VMul(RowTimes(a, B), c)[j]
    {
      forall k | 0 <= k < n
        ensures Column(T, j)[k] == VScale(c[j], VMul(a, Column(B, j)))[k]
      {
        assert a[k] * (B[k][j] * c[j]) == c[j] * (a[k] * B[k][j]);
      }
      assert Column(T, j) == VScale(c[j], VMul(a, Column(B, j)));
      SumSeqScale(c[j], VMul(a, Column(B, j)));
    }
  }

  /** `a · (B c) == (aᵀ B) · c`: the adjoint identity behind associativity. */
  lemma DotMatVecAdjoint(a: Vector, B: Matrix, c: Vector)
    requires IsSquare(B) && |a| == |B| == |c|
    ensures Dot(a, MatVec(B, c)) == Dot(RowTimes(a, B), c)
  {
    AdjointRows(a, B, c);
    AdjointColumns(a, B, c);
    SumSeqSwap(AdjointTerms(a, B, c), |B|);
  }

  lemma MatVecAssoc(A: Matrix, B: Matrix, v: Vector)
    requires IsSquare(A) && IsSquare(B) && |A| == |B| == |v|
    ensures MatVec(A, MatVec(B, v)) == MatVec(MatMul(A, B), v)
  {
    var n := |A|;
    forall i | 0 <= i < n
      ensures MatVec(A, MatVec(B, v))[i] == MatVec(MatMul(A, B), v)[i]
    {
      DotMatVecAdjoint(A[i], B, v);
      assert MatMul(A, B)[i] == RowTimes(A[i], B);
    }
  }

  lemma MatMulEntryAssoc(A: Matrix, B: Matrix, C: Matrix, i: nat, l: nat)
    requires IsSquare(A) && IsSquare(B) && IsSquare(C) && |A| == |B| == |C|
    requires i < |A| && l < |A|
    ensures MatMul(MatMul(A, B), C)[i][l] == MatMul(A, MatMul(B, C))[i][l]
  {
    assert Column(MatMul(B, C), l) == MatVec(B, Column(C, l));
    DotMatVecAdjoint(A[i], B, Column(C, l));
    assert MatMul(A, B)[i] == RowTimes(A[i], B);
  }

  lemma MatMulAssoc(A: Matrix, B: Matrix, C: Matrix)
    requires IsSquare(A) && IsSquare(B) && IsSquare(C) && |A| == |B| == |C|
    ensures MatMul(MatMul(A, B), C) == MatMul(A, MatMul(B, C))
  {
    var n := |A|;
    forall i, l | 0 <= i < n && 0 <= l < n
      ensures MatMul(MatMul(A, B), C)[i][l] == MatMul(A, MatMul(B, C))[i][l]
    {
      MatMulEntryAssoc(A, B, C, i, l);
    }
    MatrixExt(MatMul(MatMul(A, B), C), MatMul(A, MatMul(B, C)));
  }

  lemma MatMulIdentity(X: Matrix)
    requires IsSquare(X)
    ensures MatMul(Identity(|X|), X) == X
    ensures MatMul(X, Identity(|X|)) == X
  {
    var n := |X|;
    var I := Identity(n);
    forall i, j | 0 <= i < n && 0 <= j < n
      ensures MatMul(I, X)[i][j] == X[i][j] && MatMul(X, I)[i][j] == X[i][j]
    {
      SumSeqSingle(VMul(I[i], Column(X, j)), i);
      SumSeqSingle(VMul(X[i], Column(I, j)), j);
    }
    MatrixExt(MatMul(I, X), X);
    MatrixExt(MatMul(X, I), X);
  }

  lemma MatVecIdentity(v: Vector)
    ensures MatVec(Identity(|v|), v) == v
  {
    var I := Identity(|v|);
    forall i | 0 <= i < |v|
      ensures MatVec(I, v)[i] == v[i]
    {
      SumSeqSingle(VMul(I[i], v), i);
    }
  }

  lemma TransposeMatMul(A: Matrix, B: Matrix)
    requires IsSquare(A) && IsSquare(B) && |A| == |B|
    ensures Transpose(MatMul(A, B)) == MatMul(Transpose(B), Transpose(A))
  {
    var n := |A|;
    forall i, j | 0 <= i < n && 0 <= j < n
      ensures Transpose(MatMul(A, B))[i][j] == MatMul(Transpose(B), Transpose(A))[i][j]
    {
      assert Transpose(B)[i] == Column(B, i);
      assert Column(Transpose(A), j) == A[j];
      DotCommutes(A[j], Column(B, i));
    }
    MatrixExt(Transpose(MatMul(A, B)), MatMul(Transpose(B), Transpose(A)));
  }

  lemma SymmetricTranspose(M: Matrix)
    requires IsSquare(M)
    ensures Symmetric(M) <==> Transpose(M) == M
  {
    if Symmetric(M) {
      forall i | 0 <= i < |M| ensures Transpose(M)[i] == M[i] { }
    }
    if Transpose(M) == M {
      forall i, j | 0 <= i < |M| && 0 <= j < |M| ensures M[i][j] == M[j][i] {
        assert Transpose(M)[i][j] == M[j][i];
      }
    }
  }

  /** A matrix has at most one inverse. */
  lemma InverseUnique(A: Matrix, B1: Matrix, B2: Matrix)
    requires IsInverse(A, B1) && IsInverse(A, B2)
    ensures B1 == B2
  {
    // B1 == B1 (A B2) == (B1 A) B2 == B2
    MatMulIdentity(B1);
    MatMulIdentity(B2);
    MatMulAssoc(B1, A, B2);
  }

  lemma TransposeIdentity(n: nat)
    ensures Transpose(Identity(n)) == Identity(n)
  {
    MatrixExt(Transpose(Identity(n)), Identity(n));
  }

  /** For symmetric `A` with inverse `B`, `Bᵀ A == I`. */
  lemma TransposedInverse(A: Matrix, B: Matrix)
    requires Symmetric(A) && IsInverse(A, B)
    ensures MatMul(Transpose(B), A) == Identity(|A|)
  {
    SymmetricTranspose(A);
    TransposeMatMul(A, B);
    TransposeIdentity(|A|);
  }

  /** The inverse of a symmetric matrix is symmetric. */
  lemma InverseOfSymmetric(A: Matrix, B: Matrix)
    requires Symmetric(A) && IsInverse(A, B)
    ensures Symmetric(B)
  {
    var n := |A|;
    var Bt := Transpose(B);
    // Bᵀ A == I, hence Bᵀ == Bᵀ (A B) == (Bᵀ A) B == B
    TransposedInverse(A, B);
    MatMulIdentity(Bt);
    MatMulIdentity(B);
    MatMulAssoc(Bt, A, B);
    SymmetricTranspose(B);
  }

  /** Adding the same scalar to every entry keeps a matrix symmetric. */
  lemma AddScalarSymmetric(M: Matrix, c: real)
    requires Symmetric(M)
    ensures Symmetric(AddScalar(M, c))
  {
  }
}
