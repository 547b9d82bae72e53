/** A bone's local transform: its scale, then its rotation about x, then about
    y, then about z, composed as Rz * Ry * Rx * S * I. The bone's own translation
    is not folded in and neither is its parent's transform. Angles are in
    degrees; their cosines and sines are inputs to the model (`Trig`), since
    the C library's `cos` and `sin` are not part of it. */
module Bones {
  import opened Algebra

  /** Per-axis values: a translation, Euler angles in degrees, or a scale. */
  datatype Vec3 = Vec3(x: real, y: real, z: real)

  /** The cosine and the sine of one angle. */
  datatype CosSin = CosSin(cos: real, sin: real)

  /** The sine and cosine of an angle given in degrees, as the program obtains
      them from `sin(a * M_PI / 180)` and `cos(a * M_PI / 180)`. */
  datatype Trig = Trig(Sin: real -> real, Cos: real -> real)

  function Turn(trig: Trig, degrees: real): CosSin
  {
    CosSin(trig.Cos(degrees), trig.Sin(degrees))
  }

  /** The angle zero: cosine 1, sine 0. */
  const NoTurn := CosSin(1.0, 0.0)

  const UnitScale := Vec3(1.0, 1.0, 1.0)

  function ScaleMatrix(k: Vec3): Matrix4
  {
    [k.x, 0.0, 0.0, 0.0,
     0.0, k.y, 0.0, 0.0,
     0.0, 0.0, k.z, 0.0,
     0.0, 0.0, 0.0, 1.0]
  }

  function RotXMatrix(a: CosSin): Matrix4
  {
    [1.0, 0.0, 0.0, 0.0,
     0.0, a.cos, a.sin, 0.0,
     0.0, -a.sin, a.cos, 0.0,
     0.0, 0.0, 0.0, 1.0]
  }

  function RotYMatrix(a: CosSin): Matrix4
  {
    [a.cos, 0.0, -a.sin, 0.0,
     0.0, 1.0, 0.0, 0.0,
     a.sin, 0.0, a.cos, 0.0,
     0.0, 0.0, 0.0, 1.0]
  }

  function RotZMatrix(a: CosSin): Matrix4
  {
    [a.cos, a.sin, 0.0, 0.0,
     -a.sin, a.cos, 0.0, 0.0,
     0.0, 0.0, 1.0, 0.0,
     0.0, 0.0, 0.0, 1.0]
  }

  /** The product of a list of stage matrices applied to the identity:
      Compose([a, b, c]) == a * (b * (c * I)). */
  function Compose(stages: seq<Matrix4>): Matrix4
  {
    if stages == [] then Identity() else MulMat(stages[0], Compose(stages[1..]))
  }

  /** The stages of the bone matrix, the last applied first: rotation about
      z, about y, about x, then the scale. */
  function Stages(k: Vec3, x: CosSin, y: CosSin, z: CosSin): seq<Matrix4>
  {
    [RotZMatrix(z), RotYMatrix(y), RotXMatrix(x), ScaleMatrix(k)]
  }

  /** The bone matrix as the program composes it: Rz * (Ry * (Rx * (S * I))). */
  function LocalMatrix(k: Vec3, x: CosSin, y: CosSin, z: CosSin): Matrix4
  {
    Compose(Stages(k, x, y, z))
  }

  lemma LocalMatrixProducts(k: Vec3, x: CosSin, y: CosSin, z: CosSin)
    ensures LocalMatrix(k, x, y, z)
         == MulMat(RotZMatrix(z), MulMat(RotYMatrix(y), MulMat(RotXMatrix(x), MulMat(ScaleMatrix(k), Identity()))))
  {
    var st := Stages(k, x, y, z);
    assert st[1..][1..][1..][1..] == [];
    assert Compose(st[1..][1..][1..]) == MulMat(ScaleMatrix(k), Identity());
    assert Compose(st[1..][1..]) == MulMat(RotXMatrix(x), Compose(st[1..][1..][1..]));
    assert Compose(st[1..]) == MulMat(RotYMatrix(y), Compose(st[1..][1..]));
  }

  /** The textbook z-y-x Euler rotation with the columns scaled by the per-axis
      scale, written out entry by entry (column-major). An independent
      reference for `LocalMatrix`. */
  function EulerZyxScaled(k: Vec3, x: CosSin, y: CosSin, z: CosSin): Matrix4
  {
    [ z.cos * y.cos * k.x,
      z.sin * y.cos * k.x,
      -y.sin * k.x,
      0.0,
      (z.cos * y.sin * x.sin - z.sin * x.cos) * k.y,
      (z.sin * y.sin * x.sin + z.cos * x.cos) * k.y,
      y.cos * x.sin * k.y,
      0.0,
      (z.cos * y.sin * x.cos + z.sin * x.sin) * k.z,
      (z.sin * y.sin * x.cos - z.cos * x.sin) * k.z,
      y.cos * x.cos * k.z,
      0.0,
      0.0, 0.0, 0.0, 1.0]
  }

  /** A matrix that moves nothing: the translation column is (0, 0, 0, 1). */
  predicate NoTranslation(m: Matrix4)
  {
    m[12] == 0.0 && m[13] == 0.0 && m[14] == 0.0 && m[15] == 1.0
  }

  /** Rotating the scale about x, written out. */
  function AfterRotX(k: Vec3, x: CosSin): Matrix4
  {
    [k.x, 0.0, 0.0, 0.0,
     0.0, x.cos * k.y, x.sin * k.y, 0.0,
     0.0, -x.sin * k.z, x.cos * k.z, 0.0,
     0.0, 0.0, 0.0, 1.0]
  }

  /** Then about y, written out. */
  function AfterRotY(k: Vec3, x: CosSin, y: CosSin): Matrix4
  {
    [y.cos * k.x, 0.0, -y.sin * k.x, 0.0,
     y.sin * x.sin * k.y, x.cos * k.y, y.cos * x.sin * k.y, 0.0,
     y.sin * x.cos * k.z, -x.sin * k.z, y.cos * x.cos * k.z, 0.0,
     0.0, 0.0, 0.0, 1.0]
  }

  /** A rotation about x mixes rows 1 and 2 of each column of the matrix it multiplies and keeps rows 0 and 3. */
  lemma RotXRows(a: CosSin, b: Matrix4, j: nat)
    requires j < 4
    ensures Dot(RotXMatrix(a), b, 0, j) == b[4 * j]
    ensures Dot(RotXMatrix(a), b, 1, j) == a.cos * b[4 * j + 1] - a.sin * b[4 * j + 2]
    ensures Dot(RotXMatrix(a), b, 2, j) == a.sin * b[4 * j + 1] + a.cos * b[4 * j + 2]
    ensures Dot(RotXMatrix(a), b, 3, j) == b[4 * j + 3]
  {
    var r := RotXMatrix(a);
    assert r[0] == 1.0 && r[4] == 0.0 && r[8] == 0.0 && r[12] == 0.0;
    assert r[1] == 0.0 && r[5] == a.cos && r[9] == -a.sin && r[13] == 0.0;
    assert r[2] == 0.0 && r[6] == a.sin && r[10] == a.cos && r[14] == 0.0;
    assert r[3] == 0.0 && r[7] == 0.0 && r[11] == 0.0 && r[15] == 1.0;
  }

  /** A rotation about y mixes rows 0 and 2 of each column of the matrix it multiplies and keeps rows 1 and 3. */
  lemma RotYRows(a: CosSin, b: Matrix4, j: nat)
    requires j < 4
    ensures Dot(RotYMatrix(a), b, 0, j) == a.cos * b[4 * j] + a.sin * b[4 * j + 2]
    ensures Dot(RotYMatrix(a), b, 1, j) == b[4 * j + 1]
    ensures Dot(RotYMatrix(a), b, 2, j) == -a.sin * b[4 * j] + a.cos * b[4 * j + 2]
    ensures Dot(RotYMatrix(a), b, 3, j) == b[4 * j + 3]
  {
    var r := RotYMatrix(a);
    assert r[0] == a.cos && r[4] == 0.0 && r[8] == a.sin && r[12] == 0.0;
    assert r[1] == 0.0 && r[5] == 1.0 && r[9] == 0.0 && r[13] == 0.0;
    assert r[2] == -a.sin && r[6] == 0.0 && r[10] == a.cos && r[14] == 0.0;
    assert r[3] == 0.0 && r[7] == 0.0 && r[11] == 0.0 && r[15] == 1.0;
  }

  /** A rotation about z mixes rows 0 and 1 of each column of the matrix it multiplies and keeps rows 2 and 3. */
  lemma RotZRows(a: CosSin, b: Matrix4, j: nat)
    requires j < 4
    ensures Dot(RotZMatrix(a), b, 0, j) == a.cos * b[4 * j] - a.sin * b[4 * j + 1]
    ensures Dot(RotZMatrix(a), b, 1, j) == a.sin * b[4 * j] + a.cos * b[4 * j + 1]
    ensures Dot(RotZMatrix(a), b, 2, j) == b[4 * j + 2]
    ensures Dot(RotZMatrix(a), b, 3, j) == b[4 * j + 3]
  {
    var r := RotZMatrix(a);
    assert r[0] == a.cos && r[4] == -a.sin && r[8] == 0.0 && r[12] == 0.0;
    assert r[1] == a.sin && r[5] == a.cos && r[9] == 0.0 && r[13] == 0.0;
    assert r[2] == 0.0 && r[6] == 0.0 && r[10] == 1.0 && r[14] == 0.0;
    assert r[3] == 0.0 && r[7] == 0.0 && r[11] == 0.0 && r[15] == 1.0;
  }

  /** Column by column, the rotation about x applied to the previous stage gives the next one. */
  lemma RotXStepColumn0(k: Vec3, x: CosSin)
    ensures SameColumn(MulMat(RotXMatrix(x), ScaleMatrix(k)), AfterRotX(k, x), 0)
  {
    MulMatColumn(RotXMatrix(x), ScaleMatrix(k), 0);
    RotXRows(x, ScaleMatrix(k), 0);
  }

  lemma RotXStepColumn1(k: Vec3, x: CosSin)
    ensures SameColumn(MulMat(RotXMatrix(x), ScaleMatrix(k)), AfterRotX(k, x), 1)
  {
    MulMatColumn(RotXMatrix(x), ScaleMatrix(k), 1);
    RotXRows(x, ScaleMatrix(k), 1);
  }

  lemma RotXStepColumn2(k: Vec3, x: CosSin)
    ensures SameColumn(MulMat(RotXMatrix(x), ScaleMatrix(k)), AfterRotX(k, x), 2)
  {
    MulMatColumn(RotXMatrix(x), ScaleMatrix(k), 2);
    RotXRows(x, ScaleMatrix(k), 2);
  }

  lemma RotXStepColumn3(k: Vec3, x: CosSin)
    ensures SameColumn(MulMat(RotXMatrix(x), ScaleMatrix(k)), AfterRotX(k, x), 3)
  {
    MulMatColumn(RotXMatrix(x), ScaleMatrix(k), 3);
    RotXRows(x, ScaleMatrix(k), 3);
  }

  lemma RotXStep(k: Vec3, x: CosSin)
    ensures MulMat(RotXMatrix(x), ScaleMatrix(k)) == AfterRotX(k, x)
  {
    RotXStepColumn0(k, x);
    RotXStepColumn1(k, x);
    RotXStepColumn2(k, x);
    RotXStepColumn3(k, x);
    ColumnsExt(MulMat(RotXMatrix(x), ScaleMatrix(k)), AfterRotX(k, x));
  }


  /** Column by column, the rotation about y applied to the previous stage gives the next one. */
  lemma RotYStepColumn0(k: Vec3, x: CosSin, y: CosSin)
    ensures SameColumn(MulMat(RotYMatrix(y), AfterRotX(k, x)), AfterRotY(k, x, y), 0)
  {
    MulMatColumn(RotYMatrix(y), AfterRotX(k, x), 0);
    RotYRows(y, AfterRotX(k, x), 0);
  }

  lemma RotYStepColumn1(k: Vec3, x: CosSin, y: CosSin)
    ensures SameColumn(MulMat(RotYMatrix(y), AfterRotX(k, x)), AfterRotY(k, x, y), 1)
  {
    MulMatColumn(RotYMatrix(y), AfterRotX(k, x), 1);
    RotYRows(y, AfterRotX(k, x), 1);
  }

  lemma RotYStepColumn2(k: Vec3, x: CosSin, y: CosSin)
    ensures SameColumn(MulMat(RotYMatrix(y), AfterRotX(k, x)), AfterRotY(k, x, y), 2)
  {
    MulMatColumn(RotYMatrix(y), AfterRotX(k, x), 2);
    RotYRows(y, AfterRotX(k, x), 2);
  }

  lemma RotYStepColumn3(k: Vec3, x: CosSin, y: CosSin)
    ensures SameColumn(MulMat(RotYMatrix(y), AfterRotX(k, x)), AfterRotY(k, x, y), 3)
  {
    MulMatColumn(RotYMatrix(y), AfterRotX(k, x), 3);
    RotYRows(y, AfterRotX(k, x), 3);
  }

  lemma RotYStep(k: Vec3, x: CosSin, y: CosSin)
    ensures MulMat(RotYMatrix(y), AfterRotX(k, x)) == AfterRotY(k, x, y)
  {
    RotYStepColumn0(k, x, y);
    RotYStepColumn1(k, x, y);
    RotYStepColumn2(k, x, y);
    RotYStepColumn3(k, x, y);
    ColumnsExt(MulMat(RotYMatrix(y), AfterRotX(k, x)), AfterRotY(k, x, y));
  }


  /** Column by column, the rotation about z applied to the previous stage gives the next one. */
  lemma RotZStepColumn0(k: Vec3, x: CosSin, y: CosSin, z: CosSin)
    ensures SameColumn(MulMat(RotZMatrix(z), AfterRotY(k, x, y)), EulerZyxScaled(k, x, y, z), 0)
  {
    MulMatColumn(RotZMatrix(z), AfterRotY(k, x, y), 0);
    RotZRows(z, AfterRotY(k, x, y), 0);
  }

  lemma RotZStepColumn1(k: Vec3, x: CosSin, y: CosSin, z: CosSin)
    ensures SameColumn(MulMat(RotZMatrix(z), AfterRotY(k, x, y)), EulerZyxScaled(k, x, y, z), 1)
  {
    MulMatColumn(RotZMatrix(z), AfterRotY(k, x, y), 1);
    RotZRows(z, AfterRotY(k, x, y), 1);
  }

  lemma RotZStepColumn2(k: Vec3, x: CosSin, y: CosSin, z: CosSin)
    ensures SameColumn(MulMat(RotZMatrix(z), AfterRotY(k, x, y)), EulerZyxScaled(k, x, y, z), 2)
  {
    MulMatColumn(RotZMatrix(z), AfterRotY(k, x, y), 2);
    RotZRows(z, AfterRotY(k, x, y), 2);
  }

  lemma RotZStepColumn3(k: Vec3, x: CosSin, y: CosSin, z: CosSin)
    ensures SameColumn(MulMat(RotZMatrix(z), AfterRotY(k, x, y)), EulerZyxScaled(k, x, y, z), 3)
  {
    MulMatColumn(RotZMatrix(z), AfterRotY(k, x, y), 3);
    RotZRows(z, AfterRotY(k, x, y), 3);
  }

  lemma RotZStep(k: Vec3, x: CosSin, y: CosSin, z: CosSin)
    ensures MulMat(RotZMatrix(z), AfterRotY(k, x, y)) == EulerZyxScaled(k, x, y, z)
  {
    RotZStepColumn0(k, x, y, z);
    RotZStepColumn1(k, x, y, z);
    RotZStepColumn2(k, x, y, z);
    RotZStepColumn3(k, x, y, z);
    ColumnsExt(MulMat(RotZMatrix(z), AfterRotY(k, x, y)), EulerZyxScaled(k, x, y, z));
  }

  /** The composed bone matrix is the z-y-x Euler rotation of the scale. */
  lemma LocalMatrixClosedForm(k: Vec3, x: CosSin, y: CosSin, z: CosSin)
    ensures LocalMatrix(k, x, y, z) == EulerZyxScaled(k, x, y, z)
  {
    LocalMatrixProducts(k, x, y, z);
    MulMatIdentity(ScaleMatrix(k));
    RotXStep(k, x);
    RotYStep(k, x, y);
    RotZStep(k, x, y, z);
  }

  /** The bone matrix keeps points as points and carries no translation:
      entries 12, 13 and 14 are zero and entry 15 is one. */
  lemma LocalMatrixNoTranslation(k: Vec3, x: CosSin, y: CosSin, z: CosSin)
    ensures IsAffine(LocalMatrix(k, x, y, z))
    ensures NoTranslation(LocalMatrix(k, x, y, z))
  {
    LocalMatrixClosedForm(k, x, y, z);
    EulerNoTranslation(k, x, y, z);
  }

  lemma EulerNoTranslation(k: Vec3, x: CosSin, y: CosSin, z: CosSin)
    ensures IsAffine(EulerZyxScaled(k, x, y, z)) && NoTranslation(EulerZyxScaled(k, x, y, z))
  {
  }

  /** Zero angles and unit scale give the identity. */
  lemma LocalMatrixRestPose()
    ensures LocalMatrix(UnitScale, NoTurn, NoTurn, NoTurn) == Identity()
  {
    LocalMatrixClosedForm(UnitScale, NoTurn, NoTurn, NoTurn);
    EulerRestPose();
  }

  lemma EulerRestPose()
    ensures EulerZyxScaled(UnitScale, NoTurn, NoTurn, NoTurn) == Identity()
  {
    IdentityColumn(0);
    IdentityColumn(1);
    IdentityColumn(2);
    IdentityColumn(3);
    ColumnsExt(EulerZyxScaled(UnitScale, NoTurn, NoTurn, NoTurn), Identity());
  }

  /** Applying the bone matrix scales a point first, then rotates it about x,
      then about y, then about z. */
  lemma LocalMatrixApplies(k: Vec3, x: CosSin, y: CosSin, z: CosSin, v: Vector4)
    ensures MulVec(LocalMatrix(k, x, y, z), v)
         == MulVec(RotZMatrix(z), MulVec(RotYMatrix(y), MulVec(RotXMatrix(x), MulVec(ScaleMatrix(k), v))))
  {
    LocalMatrixProducts(k, x, y, z);
    var s := MulMat(ScaleMatrix(k), Identity());
    MulMatIdentity(ScaleMatrix(k));
    var rx := MulMat(RotXMatrix(x), s);
    var ry := MulMat(RotYMatrix(y), rx);
    MulVecOfProduct(RotZMatrix(z), ry, v);
    MulVecOfProduct(RotYMatrix(y), rx, v);
    MulVecOfProduct(RotXMatrix(x), s, v);
  }

  /** One joint of the skeleton. Its pose (translation, rotation in degrees,
      scale) is set from outside; `matrix` is the derived local transform,
      a fixed buffer of 16 entries. */
  class Bone {
    const id: int
    var trans: Vec3
    var rot: Vec3
    var scale: Vec3
    const matrix: array<real>

    ghost predicate Valid()
    {
      matrix.Length == 16
    }

    /** The local transform of the bone's current pose. */
    function Pose(trig: Trig): Matrix4
      reads this
    {
      LocalMatrix(scale, Turn(trig, rot.x), Turn(trig, rot.y), Turn(trig, rot.z))
    }

    /** A zero-initialised bone (`new Bone()`) given its id, translation and
        scale; its rotation stays zero. */
    constructor (id: int, trans: Vec3, scale: Vec3)
      ensures Valid() && fresh(matrix)
      ensures this.id == id && this.trans == trans && this.scale == scale
      ensures rot == Vec3(0.0, 0.0, 0.0)
      ensures forall n :: 0 <= n < 16 ==> matrix[n] == 0.0
    {
      this.id := id;
      this.trans := trans;
      this.scale := scale;
      rot := Vec3(0.0, 0.0, 0.0);
      matrix := new real[16](_ => 0.0);
    }

    /** The matrix part of `drawSkeleton`: build the scale and rotation
        matrices, compose them and copy the product into `matrix`. */
    method EvaluateMatrix(trig: Trig)
      requires Valid()
      modifies matrix
      ensures matrix[..] == Pose(trig)
    {
      var scaleMatrix := ScaleMatrix(scale);
      var rotXMatrix := RotXMatrix(Turn(trig, rot.x));
      var rotYMatrix := RotYMatrix(Turn(trig, rot.y));
      var rotZMatrix := RotZMatrix(Turn(trig, rot.z));
      var afterScaling := MulMat(scaleMatrix, Identity());
      var afterRotX := MulMat(rotXMatrix, afterScaling);
      var afterRotY := MulMat(rotYMatrix, afterRotX);
      var afterRotZ := MulMat(rotZMatrix, afterRotY);
      LocalMatrixProducts(scale, Turn(trig, rot.x), Turn(trig, rot.y), Turn(trig, rot.z));
      CopyFrom(afterRotZ);
    }

    /** The copy loop at the end of the evaluation: every entry of `matrix`
        is overwritten with the corresponding entry of `m`. */
    method CopyFrom(m: Matrix4)
      requires Valid()
      modifies matrix
      ensures matrix[..] == m
    {
      for i := 0 to 16
        invariant forall n :: 0 <= n < i ==> matrix[n] == m[n]
      {
        matrix[i] := m[i];
      }
    }
  }
}
