/** The arm mesh as values: the vertex record, the weight presets, the rest
    (undeformed) vertex of each grid cell and the skinned vertex computed from
    it. The grid has 22 rings of 37 vertices; ring `i` lies at height 0.5 * i
    and vertex `j` of a ring at the angle 10 * j degrees. */
module Mesh {
  import opened Algebra
  import opened Bones

  /** Bone ids of the two arm bones (UPPER_ARM_ID and LOWER_ARM_ID). */
  const UpperArmId := 4
  const LowerArmId := 5

  /** Size of the mesh grids: rings by vertices per ring. */
  const Rings := 22
  const RingSize := 37

  /** Rings 0 .. 20 get a weight from the presets; ring 21 does not. */
  const PresetRings := 21

  /** Height of the upper arm's base: the skinning pass moves every vertex
      down by it before applying the bone matrices. */
  const BoneBase := 5.0

  /** One mesh vertex: a point (w is always 1), its four coordinates as an
      array, the two bones that influence it and their weights. */
  datatype Vertex = Vertex(x: real, y: real, z: real, w: real, coordinates: seq<real>,
                           boneID1: int, boneID2: int, weight1: real, weight2: real)

  /** The vertex is a point whose coordinate array is (x, y, z, w). */
  predicate IsPoint(v: Vertex)
  {
    v.w == 1.0 && v.coordinates == [v.x, v.y, v.z, v.w]
  }

  function Position(v: Vertex): Vec3
  {
    Vec3(v.x, v.y, v.z)
  }

  /** The default constructor: the origin, bone ids 0 and both weights 1. It
      fills the coordinate array in the order z, x, y, w. */
  function DefaultVertex(): (v: Vertex)
    ensures IsPoint(v) && Position(v) == Vec3(0.0, 0.0, 0.0)
    ensures v.boneID1 == 0 && v.boneID2 == 0
    ensures v.weight1 == 1.0 && v.weight2 == 1.0
  {
    Vertex(0.0, 0.0, 0.0, 1.0, [0.0, 0.0, 0.0, 1.0], 0, 0, 1.0, 1.0)
  }

  /** The three-argument constructor: a point with the given position. It
      leaves the bone ids and the weights uninitialised; `stale` stands for
      whatever those fields held before. */
  function PointVertex(x: real, y: real, z: real, stale: Vertex): (v: Vertex)
    ensures IsPoint(v) && Position(v) == Vec3(x, y, z)
  {
    Vertex(x, y, z, 1.0, [x, y, z, 1.0], stale.boneID1, stale.boneID2, stale.weight1, stale.weight2)
  }

  /** The seven-argument constructor: a point with the given position, bones
      and weights. */
  function MakeVertex(x: real, y: real, z: real, id1: int, id2: int, w1: real, w2: real): (v: Vertex)
    ensures IsPoint(v) && Position(v) == Vec3(x, y, z)
    ensures v.boneID1 == id1 && v.boneID2 == id2 && v.weight1 == w1 && v.weight2 == w2
  {
    Vertex(x, y, z, 1.0, [x, y, z, 1.0], id1, id2, w1, w2)
  }

  /** What `setWeights` does to one vertex: the first weight becomes `w`, the
      second `1 - w`, and nothing else changes. */
  function Reweighted(v: Vertex, w: real): (r: Vertex)
    ensures r.weight1 == w && r.weight1 + r.weight2 == 1.0
    ensures Position(r) == Position(v) && r.w == v.w && r.coordinates == v.coordinates
    ensures r.boneID1 == v.boneID1 && r.boneID2 == v.boneID2
  {
    v.(weight1 := w, weight2 := 1.0 - w)
  }

  /** The weights of `weightCase1` .. `weightCase5`, ring by ring. */
  function Case1Weights(): seq<real>
  {
    [0.00, 0.05, 0.10, 0.15, 0.20, 0.25,
     0.30, 0.35, 0.40, 0.45, 0.50, 0.55, 0.60, 0.65, 0.70,
     0.75, 0.80, 0.85, 0.90, 0.95, 1.0]
  }

  function Case2Weights(): seq<real>
  {
    [0.00, 0.00, 0.00, 0.00, 0.00, 0.00,
     0.10, 0.25, 0.30, 0.45, 0.50, 0.65, 0.70, 0.85, 0.90,
     1.0, 1.0, 1.0, 1.0, 1.0, 1.0]
  }

  function Case3Weights(): seq<real>
  {
    [0.00, 0.00, 0.00, 0.00, 0.00, 0.00, 0.00, 0.00,
     0.20, 0.30, 0.40, 0.50, 0.60,
     1.00, 1.00, 1.00, 1.00, 1.00, 1.00, 1.00, 1.00]
  }

  function Case4Weights(): seq<real>
  {
    [0.00, 0.00, 0.00, 0.00, 0.00, 0.00,
     0.00, 0.00, 0.00, 0.00, 0.00, 0.00, 0.00, 0.00, 0.00,
     0.00, 0.00, 0.00, 0.00, 0.00, 0.00]
  }

  function Case5Weights(): seq<real>
  {
    [1.00, 1.00, 1.00, 1.00, 1.00, 1.00,
     1.00, 1.00, 1.00, 1.00, 1.00, 1.00, 1.00, 1.00, 1.00,
     1.00, 1.00, 1.00, 1.00, 1.00, 1.00]
  }

  /** The table `setWeightCase(n)` applies: cases 1 to 5, and case 1 for any
      other number. */
  function PresetTable(n: int): (t: seq<real>)
    ensures |t| == PresetRings
    ensures !(1 <= n <= 5) ==> t == Case1Weights()
  {
    match n
    case 2 => Case2Weights()
    case 3 => Case3Weights()
    case 4 => Case4Weights()
    case 5 => Case5Weights()
    case _ => Case1Weights()
  }

  /** A vertex of ring `ring` after preset `n`: rings 0 .. 20 are reweighted
      with the ring's entry, ring 21 and beyond are left as they were. */
  function WithPreset(v: Vertex, n: int, ring: int): (r: Vertex)
    ensures Position(r) == Position(v) && r.boneID1 == v.boneID1 && r.boneID2 == v.boneID2
    ensures 0 <= ring < PresetRings ==> r.weight1 + r.weight2 == 1.0
    ensures !(0 <= ring < PresetRings) ==> r == v
  {
    if 0 <= ring < PresetRings then Reweighted(v, PresetTable(n)[ring]) else v
  }

  /** The vertex `createOriginalMeshMatrix` builds for ring `ring` at the
      angle `alpha` degrees: on the cylinder of the given radius about the
      y axis, at height 0.5 * ring, bound to the two arm bones with both
      weights still zero. */
  function RestVertex(ring: int, alpha: int, radius: real, trig: Trig): (v: Vertex)
    ensures IsPoint(v) && v.y == 0.5 * ring as real
    ensures v.x == radius * trig.Sin(alpha as real) && v.z == radius * trig.Cos(alpha as real)
    ensures v.boneID1 == UpperArmId && v.boneID2 == LowerArmId
    ensures v.weight1 == 0.0 && v.weight2 == 0.0
  {
    MakeVertex(radius * trig.Sin(alpha as real), 0.5 * ring as real, radius * trig.Cos(alpha as real),
               UpperArmId, LowerArmId, 0.0, 0.0)
  }

  /** `RestVertex` spelled as the constructor call the mesh loop makes. */
  lemma RestVertexIsMade(ring: int, alpha: int, radius: real, trig: Trig)
    ensures RestVertex(ring, alpha, radius, trig)
         == MakeVertex(radius * trig.Sin(alpha as real), 0.5 * ring as real,
                       radius * trig.Cos(alpha as real), UpperArmId, LowerArmId, 0.0, 0.0)
  {
  }

  /** The point the skinning pass transforms: the vertex moved down to the
      bone base, with w = 1. */
  function Origin(v: Vertex): Vector4
  {
    [v.x, v.y - BoneBase, v.z, 1.0]
  }

  /** The blended bone matrix w1 * U + w2 * L of one vertex. */
  function BlendedMatrix(v: Vertex, upper: Matrix4, lower: Matrix4): Matrix4
  {
    Add(Scale(upper, v.weight1), Scale(lower, v.weight2))
  }

  /** The vertex the skinning pass stores for `v`: the first three components
      of (w1 * U + w2 * L) * (x, y - 5, z, 1), bound to the two arm bones,
      with the weights of `v`. */
  function SkinVertex(v: Vertex, upper: Matrix4, lower: Matrix4): (r: Vertex)
    ensures IsPoint(r) && r.boneID1 == UpperArmId && r.boneID2 == LowerArmId
    ensures r.weight1 == v.weight1 && r.weight2 == v.weight2
  {
    var p := MulVec(BlendedMatrix(v, upper, lower), Origin(v));
    MakeVertex(p[0], p[1], p[2], UpperArmId, LowerArmId, v.weight1, v.weight2)
  }

  /** The first three components of a homogeneous vector. */
  function Xyz(p: Vector4): Vec3
  {
    Vec3(p[0], p[1], p[2])
  }

  // ---------------------------------------------------------------------
  // Presets

  /** Case 1 is the even ramp: ring r gets the weight 0.05 * r. */
  lemma Case1IsRamp(r: int)
    requires 0 <= r < PresetRings
    ensures Case1Weights()[r] == 0.05 * r as real
  {
    var t := Case1Weights();
    if r < 7 {
      if r == 0 {} else if r == 1 {} else if r == 2 {} else if r == 3 {} else if r == 4 {} else if r == 5 {} else {}
    } else if r < 14 {
      if r == 7 {} else if r == 8 {} else if r == 9 {} else if r == 10 {} else if r == 11 {} else if r == 12 {} else {}
    } else {
      if r == 14 {} else if r == 15 {} else if r == 16 {} else if r == 17 {} else if r == 18 {} else if r == 19 {} else {}
    }
  }

  /** Every preset weight lies in [0, 1] and the weights never decrease from
      one ring to the next: the upper bone's share grows towards the top. */
  lemma PresetShape(n: int, r: int)
    requires 0 <= r < PresetRings
    ensures 0.0 <= PresetTable(n)[r] <= 1.0
    ensures r + 1 < PresetRings ==> PresetTable(n)[r] <= PresetTable(n)[r + 1]
  {
    match n
    case 2 => Case2Shape(r);
    case 3 => Case3Shape(r);
    case 4 => Case4Shape(r);
    case 5 => Case5Shape(r);
    case _ => Case1Shape(r);
  }

  /** Entry `r` of a weight table lies in [0, 1] and is not above entry r + 1. */
  predicate RampAt(t: seq<real>, r: int)
    requires 0 <= r < |t|
  {
    0.0 <= t[r] <= 1.0 && (r + 1 < |t| ==> t[r] <= t[r + 1])
  }

  lemma Case1Shape(r: int)
    requires 0 <= r < PresetRings
    ensures RampAt(Case1Weights(), r)
  {
  }

  lemma Case2Shape(r: int)
    requires 0 <= r < PresetRings
    ensures RampAt(Case2Weights(), r)
  {
  }

  lemma Case3Shape(r: int)
    requires 0 <= r < PresetRings
    ensures RampAt(Case3Weights(), r)
  {
  }

  lemma Case4Shape(r: int)
    requires 0 <= r < PresetRings
    ensures RampAt(Case4Weights(), r)
  {
  }

  lemma Case5Shape(r: int)
    requires 0 <= r < PresetRings
    ensures RampAt(Case5Weights(), r)
  {
  }

  /** Case 4 gives every preset ring the weights (0, 1): all of it to the
      lower arm, since `setWeights(r, 0)` writes 1 - 0 into the second weight. */
  lemma Case4AllLower(v: Vertex, r: int)
    requires 0 <= r < PresetRings
    ensures WithPreset(v, 4, r).weight1 == 0.0 && WithPreset(v, 4, r).weight2 == 1.0
  {
  }

  /** Case 5 gives every preset ring the weights (1, 0). */
  lemma Case5AllUpper(v: Vertex, r: int)
    requires 0 <= r < PresetRings
    ensures WithPreset(v, 5, r).weight1 == 1.0 && WithPreset(v, 5, r).weight2 == 0.0
  {
  }

  /** Any case number other than 1 .. 5 acts as case 1. */
  lemma UnknownCaseIsCase1(v: Vertex, n: int, r: int)
    requires !(1 <= n <= 5)
    ensures WithPreset(v, n, r) == WithPreset(v, 1, r)
  {
  }

  /** Applying a preset after any preset (the same one included) gives what
      applying it alone gives: the last preset wins and a repeat changes
      nothing. */
  lemma PresetOverrides(v: Vertex, m: int, n: int, r: int)
    ensures WithPreset(WithPreset(v, m, r), n, r) == WithPreset(v, n, r)
  {
  }

  // ---------------------------------------------------------------------
  // Rest mesh

  /** The 37 angles 0, 10, .., 360 and the columns 0 .. 36 correspond one to
      one through alpha / 10: the cell stored in column alpha / 10 is the
      rest vertex of the angle alpha, and column c holds the angle 10 * c. */
  lemma AngleColumns(ring: int, alpha: int, column: int, radius: real, trig: Trig)
    ensures 0 <= alpha < 370 && alpha % 10 == 0 ==>
              0 <= alpha / 10 < RingSize
              && RestVertex(ring, 10 * (alpha / 10), radius, trig) == RestVertex(ring, alpha, radius, trig)
    ensures 0 <= column < RingSize ==> 0 <= 10 * column < 370 && (10 * column) % 10 == 0 && (10 * column) / 10 == column
  {
    if 0 <= alpha < 370 && alpha % 10 == 0 {
      assert 10 * (alpha / 10) == alpha;
    }
  }

  /** Consecutive rings are 0.5 apart in height. */
  lemma RingSpacing(ring: int, alpha: int, radius: real, trig: Trig)
    ensures RestVertex(ring + 1, alpha, radius, trig).y == RestVertex(ring, alpha, radius, trig).y + 0.5
  {
  }

  /** Each rest vertex lies on the cylinder of the given radius about the
      y axis, provided the sine and cosine supplied obey sin^2 + cos^2 = 1. */
  lemma RestOnCylinder(ring: int, alpha: int, radius: real, trig: Trig)
    requires trig.Sin(alpha as real) * trig.Sin(alpha as real)
           + trig.Cos(alpha as real) * trig.Cos(alpha as real) == 1.0
    ensures var v := RestVertex(ring, alpha, radius, trig); v.x * v.x + v.z * v.z == radius * radius
  {
    var s, c := trig.Sin(alpha as real), trig.Cos(alpha as real);
    calc {
      (radius * s) * (radius * s) + (radius * c) * (radius * c);
      radius * radius * (s * s + c * c);
      radius * radius;
    }
  }

  /** The last column (360 degrees) closes the ring onto the first (0
      degrees), provided sine and cosine are periodic over 360 degrees. */
  lemma SeamCloses(ring: int, radius: real, trig: Trig)
    requires trig.Sin(360.0) == trig.Sin(0.0) && trig.Cos(360.0) == trig.Cos(0.0)
    ensures RestVertex(ring, 360, radius, trig) == RestVertex(ring, 0, radius, trig)
  {
    var a, b := RestVertex(ring, 360, radius, trig), RestVertex(ring, 0, radius, trig);
    assert a.x == b.x && a.y == b.y && a.z == b.z;
    assert a.coordinates == [a.x, a.y, a.z, 1.0] == b.coordinates;
  }

  // ---------------------------------------------------------------------
  // Skinning

  /** Linear blend skinning: the stored position is w1 * (U * p) + w2 * (L * p)
      for the moved point p, so each bone contributes its own transform of
      the vertex in proportion to its weight. */
  lemma SkinIsBlend(v: Vertex, upper: Matrix4, lower: Matrix4)
    ensures Position(SkinVertex(v, upper, lower))
         == Xyz(VecSum(ScaleVec(MulVec(upper, Origin(v)), v.weight1), ScaleVec(MulVec(lower, Origin(v)), v.weight2)))
  {
    BlendedMulVec(upper, lower, v.weight1, v.weight2, Origin(v));
  }

  /** Weights (0, 1) give exactly the lower bone's transform of the point. */
  lemma SkinLowerOnly(v: Vertex, upper: Matrix4, lower: Matrix4)
    requires v.weight1 == 0.0 && v.weight2 == 1.0
    ensures Position(SkinVertex(v, upper, lower)) == Xyz(MulVec(lower, Origin(v)))
  {
    SkinIsBlend(v, upper, lower);
  }

  /** Weights (1, 0) give exactly the upper bone's transform of the point. */
  lemma SkinUpperOnly(v: Vertex, upper: Matrix4, lower: Matrix4)
    requires v.weight1 == 1.0 && v.weight2 == 0.0
    ensures Position(SkinVertex(v, upper, lower)) == Xyz(MulVec(upper, Origin(v)))
  {
    SkinIsBlend(v, upper, lower);
  }

  /** Weights (0, 0), the weights ring 21 is built with, collapse the vertex
      onto the origin. */
  lemma SkinZeroWeights(v: Vertex, upper: Matrix4, lower: Matrix4)
    requires v.weight1 == 0.0 && v.weight2 == 0.0
    ensures Position(SkinVertex(v, upper, lower)) == Vec3(0.0, 0.0, 0.0)
  {
    SkinIsBlend(v, upper, lower);
  }

  /** Two bones in the same pose move the vertex rigidly with that pose,
      whatever the split of weights, as long as they sum to one. */
  lemma SkinRigid(v: Vertex, m: Matrix4)
    requires v.weight1 + v.weight2 == 1.0
    ensures Position(SkinVertex(v, m, m)) == Xyz(MulVec(m, Origin(v)))
  {
    SkinIsBlend(v, m, m);
    WeightsSplit(MulVec(m, Origin(v)), v.weight1, v.weight2);
  }

  /** With both bones at rest (identity) and weights summing to one, the
      vertex only moves down to the bone base: (x, y - 5, z). */
  lemma SkinRestPose(v: Vertex)
    requires v.weight1 + v.weight2 == 1.0
    ensures Position(SkinVertex(v, Identity(), Identity())) == Vec3(v.x, v.y - BoneBase, v.z)
  {
    SkinRigid(v, Identity());
    MulVecIdentity(Origin(v));
  }

  /** When both bone matrices keep points as points and the weights sum to
      one, the blended matrix does too, so the w component the pass drops
      is 1. */
  lemma BlendKeepsPoints(v: Vertex, upper: Matrix4, lower: Matrix4)
    requires IsAffine(upper) && IsAffine(lower) && v.weight1 + v.weight2 == 1.0
    ensures IsAffine(BlendedMatrix(v, upper, lower))
    ensures MulVec(BlendedMatrix(v, upper, lower), Origin(v))[3] == 1.0
  {
    var b := BlendedMatrix(v, upper, lower);
    assert b[3] == upper[3] * v.weight1 + lower[3] * v.weight2;
    assert b[7] == upper[7] * v.weight1 + lower[7] * v.weight2;
    assert b[11] == upper[11] * v.weight1 + lower[11] * v.weight2;
    assert b[15] == upper[15] * v.weight1 + lower[15] * v.weight2;
  }
}
