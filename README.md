# Two-bone vertex skinning, modelled in Dafny

This project models the skinning pipeline of `vertexskinning.cpp`. That
program deforms a cylindrical arm mesh with two bones, an upper arm and a
lower arm, using linear blend skinning. The model covers five parts:

- **4×4 matrix and 4-vector algebra** (`algebra.dfy`, module `Algebra`).
  Values are stored column-major, as `multMatrixByConstant`, `addMatrix`,
  `multMatrixByMatrix` and `multMatrixByVector` store them. These helpers
  fill a fresh buffer from their inputs, so here they are pure functions
  over `seq<real>` of length 16 or 4.
- **The bone matrix** (`bones.dfy`, module `Bones`). This is the
  non-drawing part of `drawSkeleton`. The scale, rotation-about-x, -y and -z
  matrices are built and composed as Rz·(Ry·(Rx·(S·I))). The product is
  then copied into the bone's 16-entry `matrix` buffer, which is an
  `array<real>` field of class `Bone`. Cosines and sines of the angles
  come from a `Trig` parameter.
- **The mesh as values** (`mesh.dfy`, module `Mesh`):
  - the `Vertex` record and its three constructors;
  - the five weight tables of `weightCase1` .. `weightCase5`;
  - the rest vertex of each grid cell;
  - the skinned vertex (w1·U + w2·L)·(x, y − 5, z, 1).
- **The program state** (`scene.dfy`, module `Scene`). Class `SkinnedArm`
  holds the two bones, the selected case number, and the two 22 × 37 grids
  `originalMesh` and `weightedMesh` as `array2<Vertex>`. Its methods do what
  `setWeights`, `weightCase1..5`, `setWeightCase`, `createOriginalMeshMatrix`
  and `createWeightedMeshMatrix` do, with the same loops, in place. Each
  method's postcondition states the whole new grid in terms of the old one
  and of the functions in `Mesh`.

Arithmetic is over `real`. Every statement about a grid is stated for all
22 × 37 cells.

Two behaviours of the code worth knowing:

- Preset 4 writes 0.00 through `setWeights`, which stores 1 − w into the
  second weight. Every preset ring therefore ends with the weights (0, 1),
  not with both weights zero (`Mesh.Case4AllLower`).
- Ring 21 is the only ring with both weights zero. It is built with
  (0, 0) and no preset touches it.

## Model

| member | source | states |
|---|---|---|
| Algebra.Scale | vertexskinning.cpp:113-124 | multMatrixByConstant, every entry times k; characterised by `Algebra.MulVecScale` |
| Algebra.Add | vertexskinning.cpp:144-155 | addMatrix, the element-wise sum; characterised by `Algebra.MulVecAdd` |
| Algebra.MulMat | vertexskinning.cpp:157-175 | multMatrixByMatrix, the column-major product; characterised by `Algebra.MulMatEntry`, `Algebra.ProductColumn`, `Algebra.MulMatIdentity` and `Algebra.MulVecOfProduct` |
| Algebra.ScaleVec | vertexskinning.cpp:126-133 | scaling a vector by 1 returns it unchanged; scaling by 0 gives the zero vector |
| Algebra.MulMatEntry | vertexskinning.cpp:157-175 | the product stores row i times column j at index i + 4j (column-major) |
| Algebra.MulMatColumn | vertexskinning.cpp:157-175 | the four entries of column j of a product are the row-by-column sums of that column |
| Algebra.ProductColumn | vertexskinning.cpp:157-185 | column k of A·B is A applied (as `multMatrixByVector`) to column k of B, so the two helpers agree on the storage order |
| Algebra.MulMatIdentity | vertexskinning.cpp:157-175 | the identity is a right identity of the product, as the product with `identity` at line 369 relies on; it is a left identity too |
| Algebra.MulMatAffine | vertexskinning.cpp:157-175 | the product of two matrices with last row (0, 0, 0, 1) has last row (0, 0, 0, 1) |
| Algebra.MulVec | vertexskinning.cpp:177-185 | a matrix with last row (0, 0, 0, 1) maps a vector with w = 1 to a vector with w = 1 |
| Algebra.MulVecIdentity | vertexskinning.cpp:177-185 | the identity leaves every vector unchanged |
| Algebra.MulVecByColumns | vertexskinning.cpp:177-185 | M·v is the sum of M's columns, each scaled by the matching component of v |
| Algebra.MulVecSum | vertexskinning.cpp:177-185 | M·(x + y) = M·x + M·y |
| Algebra.MulVecScaleVec | vertexskinning.cpp:177-185 | M·(t·x) = t·(M·x) |
| Algebra.MulVecOfProduct | vertexskinning.cpp:157-185 | (A·B)·v = A·(B·v): the product composes the two transforms, the right factor applied first |
| Algebra.MulVecScale | vertexskinning.cpp:113-124 | the matrix scaled by k, applied to v, gives k·(M·v) |
| Algebra.MulVecAdd | vertexskinning.cpp:144-155 | the element-wise sum of two matrices, applied to v, gives A·v + B·v |
| Algebra.BlendedMulVec | vertexskinning.cpp:617-623 | (w1·U + w2·L)·v = w1·(U·v) + w2·(L·v) |
| Algebra.WeightsSplit | vertexskinning.cpp:617-623 | w1·p + w2·p = p whenever w1 + w2 = 1 |
| Bones.ScaleMatrix | vertexskinning.cpp:341-344 | the scale matrix diag(k.x, k.y, k.z, 1); its effect on the bone matrix is stated by `Bones.LocalMatrixClosedForm` and `Bones.LocalMatrixApplies` |
| Bones.RotXMatrix | vertexskinning.cpp:351-354 | the rotation about x, from the angle's cosine and sine; characterised through `Bones.LocalMatrixClosedForm` |
| Bones.RotYMatrix | vertexskinning.cpp:355-358 | the rotation about y, from the angle's cosine and sine; characterised through `Bones.LocalMatrixClosedForm` |
| Bones.RotZMatrix | vertexskinning.cpp:359-362 | the rotation about z, from the angle's cosine and sine; characterised through `Bones.LocalMatrixClosedForm` |
| Bones.LocalMatrix | vertexskinning.cpp:369-372 | the composed bone matrix; characterised by `Bones.LocalMatrixProducts`, `Bones.LocalMatrixClosedForm`, `Bones.LocalMatrixNoTranslation` and `Bones.LocalMatrixRestPose` |
| Bones.Bone.Pose | vertexskinning.cpp:341-372 | the bone matrix of the bone's current scale and angles; `Bones.Bone.EvaluateMatrix` stores it |
| Bones.LocalMatrixProducts | vertexskinning.cpp:369-372 | the bone matrix is Rz·(Ry·(Rx·(S·I))), multiplied in the program's order |
| Bones.LocalMatrixClosedForm | vertexskinning.cpp:341-372 | the composed matrix equals the textbook z-y-x Euler rotation with columns scaled by the per-axis scale, an independently written reference |
| Bones.LocalMatrixNoTranslation | vertexskinning.cpp:346-372 | entries 12, 13 and 14 of the bone matrix are 0 and entry 15 is 1, because the translation matrix is never used; the last row is (0, 0, 0, 1) |
| Bones.LocalMatrixRestPose | vertexskinning.cpp:341-372 | zero angles (cos 1, sin 0) and unit scale give the identity |
| Bones.LocalMatrixApplies | vertexskinning.cpp:369-372 | applying the bone matrix to a point scales it, then rotates it about x, then y, then z |
| Bones.Bone.constructor | vertexskinning.cpp:756-758 | a new bone has zero rotation and a zero matrix; its id, translation and scale are the ones set in `initializeSkeleton` |
| Bones.Bone.EvaluateMatrix | vertexskinning.cpp:341-381 | after the evaluation the bone's `matrix` buffer holds the local matrix of its current pose, and nothing else is modified |
| Bones.Bone.CopyFrom | vertexskinning.cpp:378-380 | every one of the 16 entries of `matrix` is overwritten with the product's entry |
| Mesh.DefaultVertex | vertexskinning.cpp:62-77 | the default vertex is the origin with w = 1, bone ids (0, 0) and weights (1, 1) |
| Mesh.PointVertex | vertexskinning.cpp:79-89 | the three-argument vertex is the given point with w = 1 and coordinates (x, y, z, 1); ids and weights are left unconstrained |
| Mesh.MakeVertex | vertexskinning.cpp:91-105 | the seven-argument vertex is the given point with w = 1, coordinates (x, y, z, 1), and the given ids and weights |
| Mesh.Reweighted | vertexskinning.cpp:438-443 | one cell after `setWeights`: weight1 = w and weight1 + weight2 = 1; position, w, coordinates and ids are unchanged |
| Mesh.PresetTable | vertexskinning.cpp:575-584 | each case's table has 21 entries; any number outside 1 .. 5 selects case 1's table |
| Mesh.WithPreset | vertexskinning.cpp:438-584 | a preset keeps position and ids, leaves weights summing to 1 on rings 0 .. 20, and leaves any other ring exactly as it was |
| Mesh.RestVertex | vertexskinning.cpp:591-593 | the cell built for ring i and angle alpha is (radius·sin alpha, 0.5·i, radius·cos alpha) with w = 1, bones (4, 5) and weights (0, 0) |
| Mesh.Origin | vertexskinning.cpp:621 | the point the pass transforms, (x, y − 5, z, 1); used by `Mesh.SkinIsBlend` and the lemmas after it |
| Mesh.BlendedMatrix | vertexskinning.cpp:617-619 | the blended matrix w1·U + w2·L; characterised by `Mesh.SkinIsBlend` and `Mesh.BlendKeepsPoints` |
| Mesh.SkinVertex | vertexskinning.cpp:617-624 | the skinned cell is a point with bones (4, 5) and the original cell's weights |
| Mesh.Case1IsRamp | vertexskinning.cpp:445-469 | case 1 gives ring r the weight 0.05·r |
| Mesh.PresetShape | vertexskinning.cpp:445-573 | every preset weight lies in [0, 1] and never decreases from one ring to the next |
| Mesh.Case4AllLower | vertexskinning.cpp:523-547 | case 4 leaves every preset ring with the weights (0, 1) |
| Mesh.Case5AllUpper | vertexskinning.cpp:549-573 | case 5 leaves every preset ring with the weights (1, 0) |
| Mesh.UnknownCaseIsCase1 | vertexskinning.cpp:575-584 | any case number outside 1 .. 5 acts exactly as case 1 |
| Mesh.PresetOverrides | vertexskinning.cpp:438-573 | a preset applied after any preset gives what it gives alone, so applying the same case twice equals applying it once |
| Mesh.AngleColumns | vertexskinning.cpp:591-593 | the 37 angles 0, 10, .., 360 and the columns 0 .. 36 correspond one to one through alpha / 10, and the cell written to column alpha / 10 is the rest vertex of the angle alpha |
| Mesh.RingSpacing | vertexskinning.cpp:592 | consecutive rings are 0.5 apart in height |
| Mesh.RestOnCylinder | vertexskinning.cpp:592 | if sin² + cos² = 1, every rest vertex lies on the cylinder x² + z² = radius² |
| Mesh.SeamCloses | vertexskinning.cpp:591-593 | if sine and cosine repeat over 360 degrees, column 36 equals column 0 |
| Mesh.SkinIsBlend | vertexskinning.cpp:617-624 | the skinned position is w1·(U·p) + w2·(L·p) for p = (x, y − 5, z, 1) |
| Mesh.SkinLowerOnly | vertexskinning.cpp:617-624 | weights (0, 1) give exactly L·p |
| Mesh.SkinUpperOnly | vertexskinning.cpp:617-624 | weights (1, 0) give exactly U·p |
| Mesh.SkinZeroWeights | vertexskinning.cpp:617-624 | weights (0, 0) put the vertex at the origin |
| Mesh.SkinRigid | vertexskinning.cpp:617-624 | with U = L and weights summing to 1, the vertex moves rigidly with M·p |
| Mesh.SkinRestPose | vertexskinning.cpp:617-624 | with U = L = I and weights summing to 1, the result is (x, y − 5, z) |
| Mesh.BlendKeepsPoints | vertexskinning.cpp:617-623 | with U and L affine and weights summing to 1, the blended matrix is affine and the dropped w component is 1 |
| Scene.DisplayCallOverruns | vertexskinning.cpp:590 | with the display's height 11, the loop writes ring 22, one past the 22-ring grid declared at line 197 |
| Scene.DisplayCallFillsGrid | vertexskinning.cpp:682 | with the corrected bound i < 2·height, the display's height 11 fills exactly the 22 rings |
| Scene.LastRingCollapses | vertexskinning.cpp:588-596 | ring 21 keeps weights (0, 0) under every case, so skinning puts it at the origin whatever the poses |
| Scene.SkinnedArm.constructor | vertexskinning.cpp:754-789 | initial state: default vertices in both grids, case 1, upper arm at (0, 5, 0), lower arm at (0, −5, 0), unit scales, zero rotations |
| Scene.SkinnedArm.SetWeights | vertexskinning.cpp:438-443 | every cell of ring `row` is reweighted to (w, 1 − w); every other cell is unchanged |
| Scene.SkinnedArm.ApplyWeights | vertexskinning.cpp:445-573 | setting rings 0 .. 20 from a 21-entry table reweights exactly those rings with their entries; ring 21 is unchanged |
| Scene.SkinnedArm.WeightCase1 | vertexskinning.cpp:445-469 | the grid becomes the old grid under preset 1 |
| Scene.SkinnedArm.WeightCase2 | vertexskinning.cpp:471-495 | the grid becomes the old grid under preset 2 |
| Scene.SkinnedArm.WeightCase3 | vertexskinning.cpp:497-521 | the grid becomes the old grid under preset 3 |
| Scene.SkinnedArm.WeightCase4 | vertexskinning.cpp:523-547 | the grid becomes the old grid under preset 4 |
| Scene.SkinnedArm.WeightCase5 | vertexskinning.cpp:549-573 | the grid becomes the old grid under preset 5 |
| Scene.SkinnedArm.SetWeightCase | vertexskinning.cpp:575-584 | the grid becomes the old grid under preset n, with case 1 for any n outside 1 .. 5 |
| Scene.SkinnedArm.BuildRings | vertexskinning.cpp:588-595 | rings 0 .. count − 1 hold the rest vertices of their ring and angle 10·j; the other rings are unchanged |
| Scene.SkinnedArm.CreateOriginalMeshMatrix | vertexskinning.cpp:586-597 | as written: callable only when ring 2·height exists; afterwards rings 0 .. 2·height hold rest vertices under the selected preset, and other rings hold their old cells under that preset |
| Scene.SkinnedArm.CreateOriginalMeshMatrixFixed | vertexskinning.cpp:586-597 | with the ring loop bounded by i < 2·height: rings 0 .. 2·height − 1 hold rest vertices under the selected preset |
| Scene.SkinnedArm.CreateWeightedMeshMatrix | vertexskinning.cpp:613-632 | every cell of `weightedMesh` is the skinned copy of the same cell of `originalMesh` under the two bone matrices; `originalMesh` is unchanged |
| Scene.SkinnedArm.EvaluateSkeleton | vertexskinning.cpp:310-391 | the upper and then the lower arm's matrix are evaluated from their current poses |
| Scene.SkinnedArm.RebuildMeshes | vertexskinning.cpp:680-684 | each cell of `originalMesh` is the preset-weighted rest vertex of its ring and angle, and the same cell of `weightedMesh` is its skinned copy |
| Scene.SkinnedArm.Display | vertexskinning.cpp:648-692 | after a frame, both bone matrices match their poses, each cell of `originalMesh` is the preset-weighted rest vertex of its ring and angle, and the same cell of `weightedMesh` is its skinned copy |

## Left out

- All OpenGL and GLUT calls are not modelled: drawing, display lists, text, lights, the camera and the push, translate, rotate and scale calls inside `drawSkeleton`. They render and compute nothing the mesh depends on.
- `Scene.SkinnedArm.Display` keeps only the skeleton and mesh work of `display`: the camera and lighting lines and all drawing are left out.
- `keyboard`, `specialKeyboard` and `main` are not modelled. The values they change are fields or parameters of the model: `lowerArm.rot`, `weightCaseNumber` and the camera, which the model does not use.
- `printBoneMatrix` is not modelled; it only prints.
- Floating point is modelled by `real`. Rounding, the `double` accumulator in `multMatrixByMatrix` and the float casts are not modelled.
- `sin` and `cos` are the `Trig` parameter, an arbitrary function of degrees. `RestOnCylinder` and `SeamCloses` assume sin² + cos² = 1 and 360-degree periodicity as preconditions.
- `malloc` and `free` are not modelled: each helper returns a fresh value.
- `addVectors` is not modelled; nothing calls it. Despite its name it multiplies element-wise, and `Algebra.VecSum` is a separate specification sum.
- `multVectorByConstant` is modelled as `Algebra.ScaleVec`, but nothing in the program calls it.
- The translation matrix built at lines 346-349 is not modelled, because it is never used.
- The `childCount` recursion of `drawSkeleton` and the child links `initializeSkeleton` sets up are not modelled. The chain is always upper → lower → end bone, and the end bone's matrix is never computed, so the model evaluates the two arm bones directly. The end bone is not modelled.
- The `Bone` constructor does not model `childCount` and `child`.
- The three-argument `Vertex` constructor leaves the ids and weights uninitialised. `Mesh.PointVertex` takes their old values as a parameter and says nothing else about them.
- `weightCase1` .. `weightCase5` are 21 straight-line calls to `setWeights` each. The model runs the same calls, in the same order, as a loop over the case's table (`ApplyWeights`).
- Scene.SkinnedArm.RebuildMeshes / Display: the frame calls `CreateOriginalMeshMatrixFixed` where the program calls `createOriginalMeshMatrix(11, 1.75f)` as written (line 682). No cell of the 22 × 37 grid differs: at height 11 both bounds write rings 0 .. 21 with the same cells, then apply the same preset. Only the out-of-bounds write to ring 22 is dropped.
- Scene.SkinnedArm.CreateOriginalMeshMatrix: the write to ring 22 that the display's call makes is undefined behaviour in the program. The model does not give it a meaning; it exposes the bound as the precondition 2·height < 22.

## Findings

| source | as written | input that shows it | evidently intended | confidence | as-written member | corrected member |
|---|---|---|---|---|---|---|
| vertexskinning.cpp:590 | the ring loop runs while i <= 2·height, so it writes rings 0 .. 2·height | `createOriginalMeshMatrix(11, 1.75)` from line 682 writes ring 22 of the 22-ring grid (line 197), out of bounds | i < 2·height, chosen because at the display's height 11 it writes rings 0 .. 21, every in-bounds cell the program writes, and no more; the other reading, keeping i <= 2·height and calling with height 10 (`MESH_HEIGHT`, line 18), gives rings 0 .. 20, the rows the presets weight (lines 445-573) and the drawing code reads | not executed | Scene.SkinnedArm.CreateOriginalMeshMatrix, Scene.DisplayCallOverruns | Scene.SkinnedArm.CreateOriginalMeshMatrixFixed, Scene.DisplayCallFillsGrid |
