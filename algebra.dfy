/** Fixed-size 4x4 matrices and homogeneous 4-vectors, stored column-major:
    the entry in row r and column c of a matrix sits at index r + 4 * c.
    Every operation returns a fresh value, as each helper of the program fills a
    freshly allocated buffer; floating point is modelled by `real`. */
module Algebra {

  type Matrix4 = m: seq<real> | |m| == 16
    witness [0.0, 0.0, 0.0, 0.0, 0.0, 0.0, 0.0, 0.0, 0.0, 0.0, 0.0, 0.0, 0.0, 0.0, 0.0, 0.0]

  type Vector4 = v: seq<real> | |v| == 4
    witness [0.0, 0.0, 0.0, 0.0]

  /** The identity: ones on the diagonal, which are the indices 0, 5, 10, 15. */
  function Identity(): Matrix4
  {
    seq(16, n requires 0 <= n < 16 => if n % 5 == 0 then 1.0 else 0.0)
  }

  /** The entry in row `r` and column `c`. */
  function At(a: Matrix4, r: nat, c: nat): real
    requires r < 4 && c < 4
  {
    a[r + 4 * c]
  }

  /** A matrix whose last row is (0, 0, 0, 1): it maps points to points. */
  predicate IsAffine(a: Matrix4)
  {
    a[3] == 0.0 && a[7] == 0.0 && a[11] == 0.0 && a[15] == 1.0
  }

  /** multMatrixByConstant: every entry multiplied by `k`. */
  function Scale(a: Matrix4, k: real): Matrix4
  {
    seq(16, n requires 0 <= n < 16 => a[n] * k)
  }

  /** multVectorByConstant: every component multiplied by `k`. */
  function ScaleVec(v: Vector4, k: real): (r: Vector4)
    ensures k == 1.0 ==> r == v
    ensures k == 0.0 ==> forall n :: 0 <= n < 4 ==> r[n] == 0.0
  {
    seq(4, n requires 0 <= n < 4 => v[n] * k)
  }

  /** addMatrix: the element-wise sum. */
  function Add(a: Matrix4, b: Matrix4): Matrix4
  {
    seq(16, n requires 0 <= n < 16 => a[n] + b[n])
  }

  /** Component-wise sum of two vectors. A specification helper: the program's
      own `addVectors` multiplies instead and is never called. */
  function VecSum(u: Vector4, v: Vector4): Vector4
  {
    seq(4, n requires 0 <= n < 4 => u[n] + v[n])
  }

  /** Row `i` of `a` times column `j` of `b`, summed in the order the program
      accumulates it. */
  function Dot(a: Matrix4, b: Matrix4, i: nat, j: nat): real
    requires i < 4 && j < 4
  {
    a[i] * b[4 * j] + a[i + 4] * b[4 * j + 1] + a[i + 8] * b[4 * j + 2] + a[i + 12] * b[4 * j + 3]
  }

  /** multMatrixByMatrix: result[i + 4j] = sum over k of a[i + 4k] * b[4j + k]. */
  function MulMat(a: Matrix4, b: Matrix4): Matrix4
  {
    seq(16, n requires 0 <= n < 16 => Dot(a, b, n % 4, n / 4))
  }

  /** The entry of a product in row `i` and column `j`. */
  lemma MulMatEntry(a: Matrix4, b: Matrix4, i: nat, j: nat)
    requires i < 4 && j < 4
    ensures MulMat(a, b)[4 * j + i] == Dot(a, b, i, j)
  {
    assert (4 * j + i) % 4 == i && (4 * j + i) / 4 == j;
  }

  /** Column `j` of a product, entry by entry. */
  lemma MulMatColumn(a: Matrix4, b: Matrix4, j: nat)
    requires j < 4
    ensures MulMat(a, b)[4 * j] == Dot(a, b, 0, j)
    ensures MulMat(a, b)[4 * j + 1] == Dot(a, b, 1, j)
    ensures MulMat(a, b)[4 * j + 2] == Dot(a, b, 2, j)
    ensures MulMat(a, b)[4 * j + 3] == Dot(a, b, 3, j)
  {
    MulMatEntry(a, b, 0, j);
    MulMatEntry(a, b, 1, j);
    MulMatEntry(a, b, 2, j);
    MulMatEntry(a, b, 3, j);
  }

  /** multMatrixByVector: the column-major matrix-vector product. An affine
      matrix maps a point (w = 1) to a point. */
  function MulVec(a: Matrix4, b: Vector4): (r: Vector4)
    ensures IsAffine(a) && b[3] == 1.0 ==> r[3] == 1.0
  {
    seq(4, r requires 0 <= r < 4 => a[r] * b[0] + a[r + 4] * b[1] + a[r + 8] * b[2] + a[r + 12] * b[3])
  }

  /** Column `j` of `a` and of `b` agree entry by entry. */
  predicate SameColumn(a: Matrix4, b: Matrix4, j: nat)
    requires j < 4
  {
    a[4 * j] == b[4 * j] && a[4 * j + 1] == b[4 * j + 1] && a[4 * j + 2] == b[4 * j + 2] && a[4 * j + 3] == b[4 * j + 3]
  }

  /** Two matrices whose four columns agree are equal. */
  lemma ColumnsExt(a: Matrix4, b: Matrix4)
    requires SameColumn(a, b, 0) && SameColumn(a, b, 1) && SameColumn(a, b, 2) && SameColumn(a, b, 3)
    ensures a == b
  {
    forall n | 0 <= n < 16
      ensures a[n] == b[n]
    {
      var j := n / 4;
      assert n == 4 * j + n % 4;
    }
  }

  /** The identity's entries, row by row of a column. */
  lemma IdentityColumn(j: nat)
    requires j < 4
    ensures Identity()[4 * j] == (if j == 0 then 1.0 else 0.0)
    ensures Identity()[4 * j + 1] == (if j == 1 then 1.0 else 0.0)
    ensures Identity()[4 * j + 2] == (if j == 2 then 1.0 else 0.0)
    ensures Identity()[4 * j + 3] == (if j == 3 then 1.0 else 0.0)
  {
    if j == 0 {} else if j == 1 {} else if j == 2 {} else {}
  }

  /** The identity is a right identity of the product (the bone evaluation
      multiplies the scale matrix by it) and a left identity too. */
  lemma MulMatIdentity(a: Matrix4)
    ensures MulMat(a, Identity()) == a
    ensures MulMat(Identity(), a) == a
  {
    var r, l := MulMat(a, Identity()), MulMat(Identity(), a);
    forall n | 0 <= n < 16
      ensures r[n] == a[n] && l[n] == a[n]
    {
      var i, j := n % 4, n / 4;
      IdentityColumn(j);
      IdentityColumn(i);
      assert Identity()[i] == Identity()[4 * 0 + i];
      assert Identity()[i + 4] == Identity()[4 * 1 + i];
      assert Identity()[i + 8] == Identity()[4 * 2 + i];
      assert Identity()[i + 12] == Identity()[4 * 3 + i];
    }
  }

  /** Row `i` of `MulVecIdentity`. */
  lemma MulVecIdentityRow(v: Vector4, i: nat)
    requires i < 4
    ensures MulVec(Identity(), v)[i] == v[i]
  {
    if i == 0 {} else if i == 1 {} else if i == 2 {} else {}
  }

  /** The identity leaves every vector unchanged. */
  lemma MulVecIdentity(v: Vector4)
    ensures MulVec(Identity(), v) == v
  {
    forall i | 0 <= i < 4
      ensures MulVec(Identity(), v)[i] == v[i]
    {
      MulVecIdentityRow(v, i);
    }
  }

  /** Products of affine matrices are affine. */
  lemma MulMatAffine(a: Matrix4, b: Matrix4)
    requires IsAffine(a) && IsAffine(b)
    ensures IsAffine(MulMat(a, b))
  {
  }

  /** Scalar distributivity, stated on its own so that the row lemmas below
      need only linear reasoning. */
  lemma MulOverAdd(p: real, q: real, r: real)
    ensures p * (q + r) == p * q + p * r && (q + r) * p == q * p + r * p
  {
  }

  /** Scalar regrouping: p * (q * t) == (p * q) * t. */
  lemma MulRegroup(p: real, q: real, t: real)
    ensures p * (q * t) == (p * q) * t
  {
  }

  /** Scalar reordering: (p * k) * q == (p * q) * k. */
  lemma MulSwap(p: real, k: real, q: real)
    ensures (p * k) * q == (p * q) * k
  {
  }

  /** A four-term sum times a scalar. */
  lemma SumTimes(p: real, q: real, r: real, s: real, t: real)
    ensures (p + q + r + s) * t == p * t + q * t + r * t + s * t
  {
  }

  /** Row `i` of a matrix-vector product, written out. */
  lemma MulVecEntry(a: Matrix4, v: Vector4, i: nat)
    requires i < 4
    ensures MulVec(a, v)[i] == a[i] * v[0] + a[i + 4] * v[1] + a[i + 8] * v[2] + a[i + 12] * v[3]
  {
  }

  /** Row `i` of `WeightsSplit`. */
  lemma WeightsSplitRow(p: Vector4, w1: real, w2: real, i: nat)
    requires i < 4 && w1 + w2 == 1.0
    ensures VecSum(ScaleVec(p, w1), ScaleVec(p, w2))[i] == p[i]
  {
    MulOverAdd(p[i], w1, w2);
  }

  /** Weights that sum to one, applied to the same vector, give it back. */
  lemma WeightsSplit(p: Vector4, w1: real, w2: real)
    requires w1 + w2 == 1.0
    ensures VecSum(ScaleVec(p, w1), ScaleVec(p, w2)) == p
  {
    forall i | 0 <= i < 4
      ensures VecSum(ScaleVec(p, w1), ScaleVec(p, w2))[i] == p[i]
    {
      WeightsSplitRow(p, w1, w2, i);
    }
  }

  /** Column `k` of a matrix: the entries at 4k .. 4k + 3. */
  function Col(m: Matrix4, k: nat): Vector4
    requires k < 4
  {
    seq(4, r requires 0 <= r < 4 => m[4 * k + r])
  }

  /** Row `r` of `ProductColumn`. */
  lemma ProductColumnRow(a: Matrix4, b: Matrix4, k: nat, r: nat)
    requires k < 4 && r < 4
    ensures Col(MulMat(a, b), k)[r] == MulVec(a, Col(b, k))[r]
  {
    assert (4 * k + r) % 4 == r && (4 * k + r) / 4 == k;
  }

  /** Column k of a product is the left factor applied to column k of the
      right factor: the storage order of `MulMat` and of `MulVec` agree. */
  lemma ProductColumn(a: Matrix4, b: Matrix4, k: nat)
    requires k < 4
    ensures Col(MulMat(a, b), k) == MulVec(a, Col(b, k))
  {
    forall r | 0 <= r < 4
      ensures Col(MulMat(a, b), k)[r] == MulVec(a, Col(b, k))[r]
    {
      ProductColumnRow(a, b, k, r);
    }
  }

  /** v0 * column 0 + v1 * column 1 + v2 * column 2 + v3 * column 3. */
  function ColumnSum(m: Matrix4, v: Vector4): Vector4
  {
    VecSum(VecSum(ScaleVec(Col(m, 0), v[0]), ScaleVec(Col(m, 1), v[1])),
           VecSum(ScaleVec(Col(m, 2), v[2]), ScaleVec(Col(m, 3), v[3])))
  }

  /** Row `i` of `MulVecByColumns`. */
  lemma MulVecByColumnsRow(m: Matrix4, v: Vector4, i: nat)
    requires i < 4
    ensures MulVec(m, v)[i] == ColumnSum(m, v)[i]
  {
  }

  /** A matrix applied to a vector is the combination of its columns weighted
      by the vector's components. */
  lemma MulVecByColumns(m: Matrix4, v: Vector4)
    ensures MulVec(m, v) == ColumnSum(m, v)
  {
    forall i | 0 <= i < 4
      ensures MulVec(m, v)[i] == ColumnSum(m, v)[i]
    {
      MulVecByColumnsRow(m, v, i);
    }
  }

  /** Row `i` of `MulVecSum`. */
  lemma MulVecSumRow(a: Matrix4, x: Vector4, y: Vector4, i: nat)
    requires i < 4
    ensures MulVec(a, VecSum(x, y))[i] == MulVec(a, x)[i] + MulVec(a, y)[i]
  {
    var s := VecSum(x, y);
    assert s[0] == x[0] + y[0] && s[1] == x[1] + y[1] && s[2] == x[2] + y[2] && s[3] == x[3] + y[3];
    MulVecEntry(a, s, i);
    MulVecEntry(a, x, i);
    MulVecEntry(a, y, i);
    MulOverAdd(a[i], x[0], y[0]);
    MulOverAdd(a[i + 4], x[1], y[1]);
    MulOverAdd(a[i + 8], x[2], y[2]);
    MulOverAdd(a[i + 12], x[3], y[3]);
  }

  /** Applying a matrix distributes over a sum of vectors. */
  lemma MulVecSum(a: Matrix4, x: Vector4, y: Vector4)
    ensures MulVec(a, VecSum(x, y)) == VecSum(MulVec(a, x), MulVec(a, y))
  {
    forall i | 0 <= i < 4
      ensures MulVec(a, VecSum(x, y))[i] == VecSum(MulVec(a, x), MulVec(a, y))[i]
    {
      MulVecSumRow(a, x, y, i);
    }
  }

  /** Row `i` of `MulVecScaleVec`. */
  lemma MulVecScaleVecRow(a: Matrix4, x: Vector4, t: real, i: nat)
    requires i < 4
    ensures MulVec(a, ScaleVec(x, t))[i] == MulVec(a, x)[i] * t
  {
    var s := ScaleVec(x, t);
    assert s[0] == x[0] * t && s[1] == x[1] * t && s[2] == x[2] * t && s[3] == x[3] * t;
    MulVecEntry(a, s, i);
    MulVecEntry(a, x, i);
    MulRegroup(a[i], x[0], t);
    MulRegroup(a[i + 4], x[1], t);
    MulRegroup(a[i + 8], x[2], t);
    MulRegroup(a[i + 12], x[3], t);
    SumTimes(a[i] * x[0], a[i + 4] * x[1], a[i + 8] * x[2], a[i + 12] * x[3], t);
  }

  /** Applying a matrix commutes with scaling the vector. */
  lemma MulVecScaleVec(a: Matrix4, x: Vector4, t: real)
    ensures MulVec(a, ScaleVec(x, t)) == ScaleVec(MulVec(a, x), t)
  {
    forall i | 0 <= i < 4
      ensures MulVec(a, ScaleVec(x, t))[i] == ScaleVec(MulVec(a, x), t)[i]
    {
      MulVecScaleVecRow(a, x, t, i);
    }
  }

  /** The product of two matrices acts as applying the right one first and
      the left one second: (A * B) * v == A * (B * v). */
  lemma MulVecOfProduct(a: Matrix4, b: Matrix4, v: Vector4)
    ensures MulVec(MulMat(a, b), v) == MulVec(a, MulVec(b, v))
  {
    MulVecByColumns(MulMat(a, b), v);
    MulVecByColumns(b, v);
    ProductColumn(a, b, 0);
    ProductColumn(a, b, 1);
    ProductColumn(a, b, 2);
    ProductColumn(a, b, 3);
    var s0, s1 := ScaleVec(Col(b, 0), v[0]), ScaleVec(Col(b, 1), v[1]);
    var s2, s3 := ScaleVec(Col(b, 2), v[2]), ScaleVec(Col(b, 3), v[3]);
    MulVecScaleVec(a, Col(b, 0), v[0]);
    MulVecScaleVec(a, Col(b, 1), v[1]);
    MulVecScaleVec(a, Col(b, 2), v[2]);
    MulVecScaleVec(a, Col(b, 3), v[3]);
    MulVecSum(a, VecSum(s0, s1), VecSum(s2, s3));
    MulVecSum(a, s0, s1);
    MulVecSum(a, s2, s3);
  }

  /** Row `i` of `MulVecAdd`. */
  lemma MulVecAddRow(a: Matrix4, b: Matrix4, v: Vector4, i: nat)
    requires i < 4
    ensures MulVec(Add(a, b), v)[i] == MulVec(a, v)[i] + MulVec(b, v)[i]
  {
    var s := Add(a, b);
    assert s[i] == a[i] + b[i] && s[i + 4] == a[i + 4] + b[i + 4];
    assert s[i + 8] == a[i + 8] + b[i + 8] && s[i + 12] == a[i + 12] + b[i + 12];
    MulVecEntry(s, v, i);
    MulVecEntry(a, v, i);
    MulVecEntry(b, v, i);
    MulOverAdd(v[0], a[i], b[i]);
    MulOverAdd(v[1], a[i + 4], b[i + 4]);
    MulOverAdd(v[2], a[i + 8], b[i + 8]);
    MulOverAdd(v[3], a[i + 12], b[i + 12]);
  }

  /** A sum of matrices applied to a vector is the sum of the two images. */
  lemma MulVecAdd(a: Matrix4, b: Matrix4, v: Vector4)
    ensures MulVec(Add(a, b), v) == VecSum(MulVec(a, v), MulVec(b, v))
  {
    forall i | 0 <= i < 4
      ensures MulVec(Add(a, b), v)[i] == VecSum(MulVec(a, v), MulVec(b, v))[i]
    {
      MulVecAddRow(a, b, v, i);
    }
  }

  /** Row `i` of `MulVecScale`. */
  lemma MulVecScaleRow(a: Matrix4, k: real, v: Vector4, i: nat)
    requires i < 4
    ensures MulVec(Scale(a, k), v)[i] == MulVec(a, v)[i] * k
  {
    var s := Scale(a, k);
    assert s[i] == a[i] * k && s[i + 4] == a[i + 4] * k && s[i + 8] == a[i + 8] * k && s[i + 12] == a[i + 12] * k;
    MulVecEntry(s, v, i);
    MulVecEntry(a, v, i);
    MulSwap(a[i], k, v[0]);
    MulSwap(a[i + 4], k, v[1]);
    MulSwap(a[i + 8], k, v[2]);
    MulSwap(a[i + 12], k, v[3]);
    SumTimes(a[i] * v[0], a[i + 4] * v[1], a[i + 8] * v[2], a[i + 12] * v[3], k);
  }

  /** A scaled matrix applied to a vector is the scaled image. */
  lemma MulVecScale(a: Matrix4, k: real, v: Vector4)
    ensures MulVec(Scale(a, k), v) == ScaleVec(MulVec(a, v), k)
  {
    forall i | 0 <= i < 4
      ensures MulVec(Scale(a, k), v)[i] == ScaleVec(MulVec(a, v), k)[i]
    {
      MulVecScaleRow(a, k, v, i);
    }
  }

  /** The linear-blend identity the skinning pass rests on:
      (w1 * U + w2 * L) * v == w1 * (U * v) + w2 * (L * v). */
  lemma BlendedMulVec(u: Matrix4, l: Matrix4, w1: real, w2: real, v: Vector4)
    ensures MulVec(Add(Scale(u, w1), Scale(l, w2)), v)
         == VecSum(ScaleVec(MulVec(u, v), w1), ScaleVec(MulVec(l, v), w2))
  {
    MulVecAdd(Scale(u, w1), Scale(l, w2), v);
    MulVecScale(u, w1, v);
    MulVecScale(l, w2, v);
  }
}
