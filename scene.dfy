/** The program's state: the two arm bones, the selected weight case and the
    two 22 x 37 mesh grids, with the operations that fill them. The rest
    mesh (`originalMesh`) is built ring by ring and reweighted by a preset;
    the skinning pass writes the deformed copy (`weightedMesh`). */
module Scene {
  import opened Algebra
  import opened Bones
  import opened Mesh

  /** The arguments `display` passes to `createOriginalMeshMatrix`. */
  const DisplayHeight := 11
  const DisplayRadius := 1.75

  /** The last ring `createOriginalMeshMatrix(height, ..)` writes: its ring
      loop runs while i <= 2 * height. */
  function LastRingWritten(height: int): int
  {
    2 * height
  }

  /** The display's call writes ring 22, one past the last ring of the grid. */
  lemma DisplayCallOverruns()
    ensures LastRingWritten(DisplayHeight) == Rings
  {
  }

  /** With the loop bound i < 2 * height, the display's call fills exactly
      the 22 rings of the grid. */
  lemma DisplayCallFillsGrid()
    ensures 2 * DisplayHeight == Rings
  {
  }

  /** Ring 21 is built with weights (0, 0) and no preset reweights it, so the
      skinning pass puts all of it at the origin, whatever the poses. */
  lemma LastRingCollapses(n: int, alpha: int, radius: real, trig: Trig, upper: Matrix4, lower: Matrix4)
    ensures Position(SkinVertex(WithPreset(RestVertex(Rings - 1, alpha, radius, trig), n, Rings - 1), upper, lower))
         == Vec3(0.0, 0.0, 0.0)
  {
    SkinZeroWeights(WithPreset(RestVertex(Rings - 1, alpha, radius, trig), n, Rings - 1), upper, lower);
  }

  class SkinnedArm {
    const upperArm: Bone
    const lowerArm: Bone
    var weightCaseNumber: int
    const originalMesh: array2<Vertex>
    const weightedMesh: array2<Vertex>

    ghost predicate Valid()
    {
      originalMesh.Length0 == Rings && originalMesh.Length1 == RingSize &&
      weightedMesh.Length0 == Rings && weightedMesh.Length1 == RingSize &&
      originalMesh != weightedMesh &&
      upperArm.Valid() && lowerArm.Valid() && upperArm.matrix != lowerArm.matrix
    }

    /** The globals at start-up and `initializeSkeleton`: every mesh cell is a
        default vertex, case 1 is selected, the upper arm sits at (0, 5, 0)
        and the lower arm 5 below it, both unrotated with unit scale. */
    constructor ()
      ensures Valid() && fresh(originalMesh) && fresh(weightedMesh)
      ensures fresh(upperArm) && fresh(lowerArm) && fresh(upperArm.matrix) && fresh(lowerArm.matrix)
      ensures weightCaseNumber == 1
      ensures upperArm.id == UpperArmId && upperArm.trans == Vec3(0.0, 5.0, 0.0)
      ensures lowerArm.id == LowerArmId && lowerArm.trans == Vec3(0.0, -5.0, 0.0)
      ensures upperArm.scale == UnitScale && lowerArm.scale == UnitScale
      ensures upperArm.rot == Vec3(0.0, 0.0, 0.0) && lowerArm.rot == Vec3(0.0, 0.0, 0.0)
      ensures forall i, j :: 0 <= i < Rings && 0 <= j < RingSize ==>
                originalMesh[i, j] == DefaultVertex() && weightedMesh[i, j] == DefaultVertex()
    {
      upperArm := new Bone(UpperArmId, Vec3(0.0, 5.0, 0.0), UnitScale);
      lowerArm := new Bone(LowerArmId, Vec3(0.0, -5.0, 0.0), UnitScale);
      weightCaseNumber := 1;
      originalMesh := new Vertex[Rings, RingSize]((i, j) => DefaultVertex());
      weightedMesh := new Vertex[Rings, RingSize]((i, j) => DefaultVertex());
    }

    /** `setWeights(row, w)`: every vertex of ring `row` gets the weights
        (w, 1 - w); no other ring and no other field changes. */
    method SetWeights(row: int, newWeight: real)
      requires Valid() && 0 <= row < Rings
      modifies originalMesh
      ensures forall i, j :: 0 <= i < Rings && 0 <= j < RingSize ==>
                originalMesh[i, j] == if i == row then Reweighted(old(originalMesh[i, j]), newWeight)
                                      else old(originalMesh[i, j])
    {
      for c := 0 to RingSize
        invariant forall i, j :: 0 <= i < Rings && 0 <= j < RingSize ==>
                    originalMesh[i, j] == if i == row && j < c then Reweighted(old(originalMesh[i, j]), newWeight)
                                          else old(originalMesh[i, j])
      {
        originalMesh[row, c] := originalMesh[row, c].(weight1 := newWeight);
        originalMesh[row, c] := originalMesh[row, c].(weight2 := 1.0 - newWeight);
      }
    }

    /** The body shared by `weightCase1` .. `weightCase5`: `setWeights(r, t[r])`
        for the rings r = 0, 1, .., 20 in turn, where `t` is the case's table
        of 21 weights. */
    method ApplyWeights(t: seq<real>)
      requires Valid() && |t| == PresetRings
      modifies originalMesh
      ensures forall i, j :: 0 <= i < Rings && 0 <= j < RingSize ==>
                originalMesh[i, j] == if i < PresetRings then Reweighted(old(originalMesh[i, j]), t[i])
                                      else old(originalMesh[i, j])
    {
      for r := 0 to PresetRings
        invariant forall i, j :: 0 <= i < Rings && 0 <= j < RingSize ==>
                    originalMesh[i, j] == if i < r then Reweighted(old(originalMesh[i, j]), t[i])
                                          else old(originalMesh[i, j])
      {
        SetWeights(r, t[r]);
      }
    }

    /** `weightCase1`: rings 0 .. 20 get the weights of preset 1. */
    method WeightCase1()
      requires Valid()
      modifies originalMesh
      ensures forall i, j :: 0 <= i < Rings && 0 <= j < RingSize ==>
                originalMesh[i, j] == WithPreset(old(originalMesh[i, j]), 1, i)
    {
      ApplyWeights(Case1Weights());
    }

    /** `weightCase2`: rings 0 .. 20 get the weights of preset 2. */
    method WeightCase2()
      requires Valid()
      modifies originalMesh
      ensures forall i, j :: 0 <= i < Rings && 0 <= j < RingSize ==>
                originalMesh[i, j] == WithPreset(old(originalMesh[i, j]), 2, i)
    {
      ApplyWeights(Case2Weights());
    }

    /** `weightCase3`: rings 0 .. 20 get the weights of preset 3. */
    method WeightCase3()
      requires Valid()
      modifies originalMesh
      ensures forall i, j :: 0 <= i < Rings && 0 <= j < RingSize ==>
                originalMesh[i, j] == WithPreset(old(originalMesh[i, j]), 3, i)
    {
      ApplyWeights(Case3Weights());
    }

    /** `weightCase4`: rings 0 .. 20 get the weights of preset 4. */
    method WeightCase4()
      requires Valid()
      modifies originalMesh
      ensures forall i, j :: 0 <= i < Rings && 0 <= j < RingSize ==>
                originalMesh[i, j] == WithPreset(old(originalMesh[i, j]), 4, i)
    {
      ApplyWeights(Case4Weights());
    }

    /** `weightCase5`: rings 0 .. 20 get the weights of preset 5. */
    method WeightCase5()
      requires Valid()
      modifies originalMesh
      ensures forall i, j :: 0 <= i < Rings && 0 <= j < RingSize ==>
                originalMesh[i, j] == WithPreset(old(originalMesh[i, j]), 5, i)
    {
      ApplyWeights(Case5Weights());
    }

    /** `setWeightCase(n)`: preset n for n in 1 .. 5, preset 1 otherwise. */
    method SetWeightCase(number: int)
      requires Valid()
      modifies originalMesh
      ensures forall i, j :: 0 <= i < Rings && 0 <= j < RingSize ==>
                originalMesh[i, j] == WithPreset(old(originalMesh[i, j]), number, i)
    {
      match number
      case 1 => WeightCase1();
      case 2 => WeightCase2();
      case 3 => WeightCase3();
      case 4 => WeightCase4();
      case 5 => WeightCase5();
      case _ => WeightCase1();
    }

    /** The ring loop of `createOriginalMeshMatrix`: rings 0 .. count - 1 are
        rebuilt as rest vertices, one per angle 0, 10, .., 360 degrees, stored
        in column angle / 10. */
    method BuildRings(count: int, radius: real, trig: Trig)
      requires Valid() && count <= Rings
      modifies originalMesh
      ensures forall i, j :: 0 <= i < Rings && 0 <= j < RingSize ==>
                originalMesh[i, j] == if i < count then RestVertex(i, 10 * j, radius, trig)
                                      else old(originalMesh[i, j])
    {
      var weight1 := 0.0;
      var weight2 := 0.0;
      var i := 0;
      while i < count
        invariant 0 <= i && (i == 0 || i <= count)
        invariant forall r, j :: 0 <= r < Rings && 0 <= j < RingSize ==>
                    originalMesh[r, j] == if r < i then RestVertex(r, 10 * j, radius, trig)
                                          else old(originalMesh[r, j])
      {
        var alpha := 0;
        ghost var column := 0;
        while alpha < 370
          invariant 0 <= column <= RingSize && alpha == 10 * column
          invariant forall r, j :: 0 <= r < Rings && r != i && 0 <= j < RingSize ==>
                      originalMesh[r, j] == if r < i then RestVertex(r, 10 * j, radius, trig)
                                            else old(originalMesh[r, j])
          invariant forall j :: 0 <= j < RingSize ==>
                      originalMesh[i, j] == if j < column then RestVertex(i, 10 * j, radius, trig)
                                            else old(originalMesh[i, j])
        {
          var vertex := MakeVertex(radius * trig.Sin(alpha as real), 0.5 * i as real,
                                   radius * trig.Cos(alpha as real), UpperArmId, LowerArmId, weight1, weight2);
          RestVertexIsMade(i, alpha, radius, trig);
          assert vertex == RestVertex(i, alpha, radius, trig);
          assert alpha / 10 == column;
          originalMesh[i, alpha / 10] := vertex;
          alpha := alpha + 10;
          column := column + 1;
        }
        i := i + 1;
      }
    }

    /** `createOriginalMeshMatrix(height, radius)` as written: rings
        0 .. 2 * height are built, then the selected preset is applied. The
        grid holds the last ring written only when 2 * height < 22. */
    method CreateOriginalMeshMatrix(height: int, radius: real, trig: Trig)
      requires Valid() && LastRingWritten(height) < Rings
      modifies originalMesh
      ensures forall i, j :: 0 <= i < Rings && 0 <= j < RingSize ==>
                originalMesh[i, j]
                == WithPreset(if i <= LastRingWritten(height) then RestVertex(i, 10 * j, radius, trig)
                              else old(originalMesh[i, j]), weightCaseNumber, i)
    {
      BuildRings(LastRingWritten(height) + 1, radius, trig);
      SetWeightCase(weightCaseNumber);
    }

    /** `createOriginalMeshMatrix` with the ring loop bounded by i < 2 * height:
        rings 0 .. 2 * height - 1 are built. The bound is chosen so that the
        display's height 11 rebuilds exactly the 22 rings, every in-bounds cell
        the program writes, and nothing past them. Keeping i <= 2 * height with
        height 10, the mesh height of the arm drawings, would also stay in
        bounds (rings 0 .. 20, the rings the presets weight). */
    method CreateOriginalMeshMatrixFixed(height: int, radius: real, trig: Trig)
      requires Valid() && 2 * height <= Rings
      modifies originalMesh
      ensures forall i, j :: 0 <= i < Rings && 0 <= j < RingSize ==>
                originalMesh[i, j]
                == WithPreset(if i < 2 * height then RestVertex(i, 10 * j, radius, trig)
                              else old(originalMesh[i, j]), weightCaseNumber, i)
    {
      BuildRings(2 * height, radius, trig);
      SetWeightCase(weightCaseNumber);
    }

    /** `createWeightedMeshMatrix`: every cell of `weightedMesh` becomes the
        skinned copy of the same cell of `originalMesh` under the two bones'
        current matrices. */
    method CreateWeightedMeshMatrix()
      requires Valid()
      modifies weightedMesh
      ensures forall i, j :: 0 <= i < Rings && 0 <= j < RingSize ==>
                weightedMesh[i, j] == SkinVertex(originalMesh[i, j], upperArm.matrix[..], lowerArm.matrix[..])
    {
      ghost var upper, lower := upperArm.matrix[..], lowerArm.matrix[..];
      for i := 0 to Rings
        invariant forall r, j :: 0 <= r < i && 0 <= j < RingSize ==>
                    weightedMesh[r, j] == SkinVertex(originalMesh[r, j], upper, lower)
      {
        for j := 0 to RingSize
          invariant forall r, c :: 0 <= r < Rings && 0 <= c < RingSize && (r < i || (r == i && c < j)) ==>
                      weightedMesh[r, c] == SkinVertex(originalMesh[r, c], upper, lower)
        {
          var v := originalMesh[i, j];
          var upperMatrix := Scale(upperArm.matrix[..], v.weight1);
          var lowerMatrix := Scale(lowerArm.matrix[..], v.weight2);
          var weightedMatrix := Add(upperMatrix, lowerMatrix);
          var origin: Vector4 := [v.x, v.y - BoneBase, v.z, 1.0];
          var finalPosition := MulVec(weightedMatrix, origin);
          var skinned := MakeVertex(finalPosition[0], finalPosition[1], finalPosition[2],
                                    UpperArmId, LowerArmId, v.weight1, v.weight2);
          assert skinned == SkinVertex(v, upper, lower);
          weightedMesh[i, j] := skinned;
        }
      }
    }

    /** The matrix part of `drawSkeleton(upperArm)`: the upper arm's matrix,
        then, through the recursion into its child, the lower arm's. */
    method EvaluateSkeleton(trig: Trig)
      requires Valid()
      modifies upperArm.matrix, lowerArm.matrix
      ensures upperArm.matrix[..] == upperArm.Pose(trig)
      ensures lowerArm.matrix[..] == lowerArm.Pose(trig)
    {
      upperArm.EvaluateMatrix(trig);
      lowerArm.EvaluateMatrix(trig);
    }

    /** The mesh work of one `display` call: rebuild the rest mesh with
        height 11 and radius 1.75 (with the corrected ring bound), reweight it
        by the selected case and skin it under the bones' current matrices. */
    method RebuildMeshes(trig: Trig)
      requires Valid()
      modifies originalMesh, weightedMesh
      ensures forall i, j :: 0 <= i < Rings && 0 <= j < RingSize ==>
                originalMesh[i, j] == WithPreset(RestVertex(i, 10 * j, DisplayRadius, trig), weightCaseNumber, i)
      ensures forall i, j :: 0 <= i < Rings && 0 <= j < RingSize ==>
                weightedMesh[i, j]
                == SkinVertex(WithPreset(RestVertex(i, 10 * j, DisplayRadius, trig), weightCaseNumber, i),
                              upperArm.matrix[..], lowerArm.matrix[..])
    {
      CreateOriginalMeshMatrixFixed(DisplayHeight, DisplayRadius, trig);
      CreateWeightedMeshMatrix();
    }

    /** The skinning work of one `display` call: pose the skeleton, then
        rebuild and skin the mesh. Every cell of `originalMesh` is then the
        rest vertex of its ring and angle, weighted by the selected case, and
        the same cell of `weightedMesh` is its skinned copy under the bone
        matrices of the current poses. */
    method Display(trig: Trig)
      requires Valid()
      modifies upperArm.matrix, lowerArm.matrix, originalMesh, weightedMesh
      ensures forall i, j :: 0 <= i < Rings && 0 <= j < RingSize ==>
                originalMesh[i, j] == WithPreset(RestVertex(i, 10 * j, DisplayRadius, trig), weightCaseNumber, i)
      ensures forall i, j :: 0 <= i < Rings && 0 <= j < RingSize ==>
                weightedMesh[i, j]
                == SkinVertex(WithPreset(RestVertex(i, 10 * j, DisplayRadius, trig), weightCaseNumber, i),
                              upperArm.matrix[..], lowerArm.matrix[..])
      ensures upperArm.matrix[..] == upperArm.Pose(trig) && lowerArm.matrix[..] == lowerArm.Pose(trig)
    {
      EvaluateSkeleton(trig);
      RebuildMeshes(trig);
    }
  }
}
