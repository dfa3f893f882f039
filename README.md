# CollisionEngine core in Dafny

This project models the simulation core of CollisionEngine, a small
C++ program that bounces cubes, spheres, cylinders and rings around
inside a 100-unit enclosing cube and draws them with OpenGL or
Direct3D 12. The modelled parts are:

- **The shape record** (`Shapes`, `shape.dfy`): the type codes, and the
  default values of every field of `Shape` and `objMatrices`.
- **The narrow phase** (`Collision`, `collision.dfy`):
  - the type-based swap that puts a pair into canonical order;
  - the eight per-type-pair overlap tests of
    `DynamicShapeArray::CheckCollision`.
- **The collision response** (`Resolver`, `resolver.dfy`): the new speed
  of the moving body in `DynamicShapeArray::Collide`, for each obstacle
  type.
- **The shape collection** (`ShapeCollection`, `shape_array.dfy`):
  - the `DynamicShapeArray` class: the flat shape list, the per-type
    handle lists, `size` and the speed modifier;
  - its collision pass, `Move`/`MoveAll`, `MoveSphere` with the arena
    clamp, `SpeedUP`, `AddShape`, colours, the per-type uploads and the
    `CreateRandomShapes` grid.
- **The shape factory** (`Factory`, `factory.dfy`):
  - the sphere, cylinder and ring index tables filled by nested loops
    with running counters;
  - the per-type index and normal counts;
  - the centre and extent a new shape gets, on the first ("build the
    mesh") path and on the prototype path.
- **The spatial hash grid** (`SpatialHash`, `spatial_grid.dfy`): cell
  keys, `clear`, `insert` and the 27-cell `queryNeighbors`.
- **The Direct3D 12 bookkeeping** (`D3D12`, `d3d12.dfy`): descriptor-heap
  sizing by power-of-two round-up, the 256-byte constant-buffer
  alignment, descriptor counters and indices, and the storage-buffer
  view element count.
- **The root-signature layout** (`RootSignature`, `root_signature.dfy`)
  of `CreateD3D12RootSignature`:
  - binding classification;
  - root-parameter numbering;
  - the binding-to-parameter map.
- **The OpenGL shader loader's text logic** (`GlslShader`,
  `glsl_shader.dfy`):
  - the `#shader` section splitter;
  - line-by-line reading;
  - extension dispatch;
  - the SPIR-V size check and word conversion;
  - resource renaming.

`wrappers.dfy` holds `Option` and `Result`. `vectors.dfy` holds 3-vectors
over the reals, with the square and sign lemmas the proofs use.

Conventions of the model:

- Floats are `real`s and the source's `int`s are `int`s.
- Unsigned 32-bit arithmetic is written out with explicit wrap-around
  (`D3D12.Wrap`, `D3D12.Align256`, `RootSignature.PrevIndex`). The
  bit-smearing round-up stays in `bv32`.
- Matrices are symbolic: `Shapes.Mat` records how they are composed.
- Square roots come from a caller-supplied function satisfying
  `Vectors.IsSqrt`.
- Random draws are parameters.
- File contents are parameters, with `None` for a file that cannot be
  opened.

The files shown define no AABB early-out, and `CheckCollision` tests
every pair directly. The grid-based step `UpdatePhysics` is called at
src/ApplicationController.cpp:146, but it is not in the files shown and is
not modelled.

## Model

| member | source | states |
|---|---|---|
| Shapes.DefaultShape | Shape.h:17-27 | A default shape has type -1 (no type), size 0, zero speed and centre, unit scale, opaque white colour, `d == d2 == 0`, and identity matrices |
| Shapes.DefaultMatrices | Shape.h:11-15 | All three matrices of a default `objMatrices` are the identity |
| Vectors.Trunc | DynamicShapeArray.cpp:205-207 | The float-to-int cast truncates towards zero: for non-negative inputs the result is the floor, for negative ones the ceiling |
| Vectors.Abs | DynamicShapeArray.cpp:282-284 | `abs` is non-negative and equals the value or its negation |
| Collision.IndexGoesFirst | DynamicShapeArray.cpp:270 | Defines the swap: the body being checked goes first when it is a ring or a sphere, or a cylinder against a cube |
| Collision.NarrowTest | DynamicShapeArray.cpp:285-397 | Defines the per-type-pair dispatch of the ordered pair, false for pairs without a branch |
| Collision.SphereSphere | DynamicShapeArray.cpp:286-289 | Defines the sphere/sphere test |
| Collision.SphereBox | DynamicShapeArray.cpp:290-308 | Defines the sphere/box test with its nesting and corner cases |
| Collision.SphereCylinder | DynamicShapeArray.cpp:309-320 | Defines the sphere/cylinder test |
| Collision.BoxBox | DynamicShapeArray.cpp:323-326 | Defines the box/box test |
| Collision.CylinderBox | DynamicShapeArray.cpp:329-345 | Defines the cylinder/box test |
| Collision.CylinderCylinder | DynamicShapeArray.cpp:346-355 | Defines the cylinder/cylinder test |
| Collision.RingBox | DynamicShapeArray.cpp:360-377 | Defines the ring/box test |
| Collision.RingSphere | DynamicShapeArray.cpp:381-392 | Defines the ring/sphere test |
| Collision.UnhandledPairNeverCollides | DynamicShapeArray.cpp:285-399 | An ordered type pair without a branch of its own reports no collision |
| Collision.CanonicalOrderCoverage | DynamicShapeArray.cpp:270-279 | After the swap, a pair of valid types reaches a branch of its own if and only if it is not a sphere being checked against a ring |
| Collision.SphereIndexMissesRing | DynamicShapeArray.cpp:270-289 | A sphere being checked never collides with a ring |
| Collision.OverlapOrderIndependent | DynamicShapeArray.cpp:270-284 | For two different types other than sphere/ring, the outcome is the same whichever body is checked; checking a ring against a sphere uses the ring/sphere test, while checking the sphere reports nothing |
| Collision.RingPairsWithoutTest | DynamicShapeArray.cpp:378-396 | Ring/cylinder and ring/ring never collide, whichever body is checked |
| Collision.SphereSphereBand | DynamicShapeArray.cpp:286-289 | Sphere/sphere collides iff `size1^2 <= 4 dsqr <= (size0 + size1)^2` |
| Collision.SphereSphereExamples | DynamicShapeArray.cpp:286-289 | Two diameter-10 spheres 8 apart collide; 11 apart they do not |
| Collision.BoxBoxSymmetric | DynamicShapeArray.cpp:323-325 | The box/box test is symmetric in the two extents |
| Collision.BoxBoxMeaning | DynamicShapeArray.cpp:323-325 | Box/box collides iff every delta is within the summed half extents and the smaller box is not strictly inside the larger one |
| Collision.NestedBoxExample | DynamicShapeArray.cpp:323-325 | A size-2 box at the centre of the size-100 box does not collide with it |
| Collision.SphereBoxNeedsOverlap | DynamicShapeArray.cpp:290-308 | Sphere/box reports only bodies whose extents overlap on every axis |
| Collision.SphereCylinderNeedsOverlap | DynamicShapeArray.cpp:309-320 | Sphere/cylinder reports only bodies within the summed half extents on every axis |
| Collision.CylinderBoxNeedsOverlap | DynamicShapeArray.cpp:329-345 | Cylinder/box reports only bodies overlapping on every axis; past the box on all three axes the squared corner distance is below `s0 * s0 / 2` |
| Collision.RingSphereNeedsOverlap | DynamicShapeArray.cpp:381-392 | Ring/sphere reports only bodies within the ring's full extent plus the sphere's half extent on every axis |
| Collision.SphereBoxFace | DynamicShapeArray.cpp:290-308 | A sphere inside the box's slab on one axis collides iff it is not nested, with the corner test never reached |
| Collision.RingBoxWithoutCorner | DynamicShapeArray.cpp:360-377 | Ring/box never uses its corner distance: it holds iff the extents overlap on every axis and the bodies are not nested |
| Collision.CylinderCylinderFallbackAlwaysTrue | DynamicShapeArray.cpp:346-355 | For positive comparable extents, cylinder/cylinder holds iff the horizontal distance is within the summed radii and the vertical distance is below it: the full-distance fallback never rejects |
| Resolver.CollideSpeed | DynamicShapeArray.cpp:414-526 | Defines the mover's new speed per obstacle type, unchanged for a resting mover |
| Resolver.Redirect | DynamicShapeArray.cpp:433-437 | Defines the redirection of the speed along the centre line with its magnitude kept |
| Resolver.CapHit | DynamicShapeArray.cpp:482 | Defines the cap test on the vertical component of the normalised centre line |
| Resolver.BoxBounce | DynamicShapeArray.cpp:443-464 | Defines the box bounce: the dominant axes of the centre line are reversed |
| Resolver.CylinderBounce | DynamicShapeArray.cpp:465-492 | Defines the cylinder bounce: vertical reversal on a cap hit, else a horizontal redirection while `dy` is below half the obstacle's size, else no change |
| Resolver.RingBounce | DynamicShapeArray.cpp:493-526 | Defines the ring bounce: as the cylinder's on the centre line shifted by `d + d2` on x and z, redirecting all three components |
| Resolver.HalfTrunc | DynamicShapeArray.cpp:472 | `int / 2` truncates towards zero |
| Resolver.Max3 | DynamicShapeArray.cpp:451-453 | The maximum of three values is at least each of them and is one of them |
| Resolver.RestingMoverStays | DynamicShapeArray.cpp:417-419 | A mover at rest keeps its zero speed, whatever it hits |
| Resolver.ObstacleSpeedIrrelevant | DynamicShapeArray.cpp:414-430 | The new speed never depends on the obstacle's speed |
| Resolver.RedirectKeepsMagnitude | DynamicShapeArray.cpp:436-437 | The redirect along the centre line keeps the squared speed |
| Resolver.RedirectFlipsApproach | DynamicShapeArray.cpp:436-437 | The redirect is parallel to the centre line and reverses the sign of the speed's component along it |
| Resolver.BoxBounceDominantAxes | DynamicShapeArray.cpp:443-463 | Box obstacle: the speed is negated on exactly the axes of largest centre distance (all of them when tied), the other components are kept, and so is the magnitude |
| Resolver.CapHitSquared | DynamicShapeArray.cpp:482 | The cap test holds iff the centre line is not vertical and `4 c_y^2 >= SQRT_2^2 |c|^2` |
| Resolver.CylinderCapOnlyVertical | DynamicShapeArray.cpp:482-485 | Cylinder obstacle, cap case: only the vertical speed changes, and it is negated |
| Resolver.CylinderSideOnlyHorizontal | DynamicShapeArray.cpp:486-491 | Cylinder obstacle, side case: the vertical speed is kept; below half the size the horizontal part is the redirect's, otherwise nothing changes |
| Resolver.RingBounceCases | DynamicShapeArray.cpp:493-525 | Ring obstacle: the cap case negates only the vertical speed; every case keeps the magnitude |
| Resolver.SphereBounceKeepsMagnitude | DynamicShapeArray.cpp:431-442 | Sphere obstacle: the mover's speed keeps its magnitude |
| ShapeCollection.IndicesOfTypeMeaning | DynamicShapeArray.cpp:112-116 | A position is listed under type `t` iff the shape there has type `t`, in increasing (insertion) order |
| ShapeCollection.IndicesOfTypeAppend | DynamicShapeArray.cpp:112-116 | Adding a shape appends its position to exactly the list of its type, and counts it iff it is typed |
| ShapeCollection.TypeLists | DynamicShapeArray.cpp:112-116 | There are four per-type lists, each holding the positions of its type, all within the flat list |
| ShapeCollection.ListsAfterTypedAppend | DynamicShapeArray.cpp:112-116 | Pushing a typed shape onto the list of its type gives the lists of the longer array, with one more counted |
| ShapeCollection.ListsAfterUntypedAppend | DynamicShapeArray.cpp:112-116 | A shape with an unknown type changes neither the lists nor the count |
| ShapeCollection.IndicesOfTypeSameTypes | DynamicShapeArray.cpp:165-170 | The lists and the count depend on the types alone, so moving shapes keeps them |
| ShapeCollection.ListsPartition | DynamicShapeArray.cpp:112-116 | The four lists together hold exactly the typed shapes, at most all of them |
| ShapeCollection.SpeedsOnlyTransitive | DynamicShapeArray.cpp:242-411 | "Only speeds changed" composes |
| ShapeCollection.CollideOnEffect | DynamicShapeArray.cpp:414-526 | `Collide` writes only the mover's speed, never the obstacle; a resting mover changes nothing |
| ShapeCollection.CheckPass | DynamicShapeArray.cpp:257-410 | The collision loop changes only speeds, and a shape at rest stays at rest |
| ShapeCollection.PairStepEffect | DynamicShapeArray.cpp:257-410 | One loop iteration writes at most the speeds of the pair |
| ShapeCollection.PairStepNoOverlap | DynamicShapeArray.cpp:400-402 | A pair that does not overlap is left alone |
| ShapeCollection.CheckCollisionEffect | DynamicShapeArray.cpp:244-246 | `CheckCollision` has no effect for `index < 2` or `index >= size`, and otherwise changes only speeds |
| ShapeCollection.SphereCheckIgnoresRing | DynamicShapeArray.cpp:270-289 | A sphere being checked is never steered by a ring |
| ShapeCollection.MoveEffect | DynamicShapeArray.cpp:149-160 | A resting shape neither moves nor runs a check; a moving one steps by its post-check speed times `speedUP * globalSpeed`, with the same translation on its model matrix; every other shape keeps body, centre and matrices |
| ShapeCollection.MoveWithCameraEffect | DynamicShapeArray.cpp:161-164 | The camera variant differs from `Move` only in the moved shape's `mvp == projection * view * model` |
| ShapeCollection.MoveAllKeepsFixedPair | DynamicShapeArray.cpp:165-170 | `MoveAll` keeps the enclosing cube and the textured sphere (indices 0 and 1) in place, at rest if they were, and keeps every type |
| ShapeCollection.CameraStep | DynamicShapeArray.cpp:161-164 | One camera move keeps every other shape's centre and matrices, and gives the moved one the `mvp` of its new model |
| ShapeCollection.MoveAllWithCameraKeepsFixedPair | DynamicShapeArray.cpp:171-176 | The camera variant of `MoveAll` keeps shapes 0 and 1 as `MoveAll` does |
| ShapeCollection.MoveAllWithCameraMvp | DynamicShapeArray.cpp:171-176 | After the camera `MoveAll`, every moved shape's `mvp` is that of its final model |
| ShapeCollection.NextCenter | DynamicShapeArray.cpp:205-207 | The next centre is the truncated `center + speed` |
| ShapeCollection.MoveSphereEffect | DynamicShapeArray.cpp:203-219 | Outside `[d/2, 100 - d/2]` on some axis the centre and matrices stay; inside, the centre becomes the truncated next position and the model takes the untruncated step; other shapes change at most their speed |
| ShapeCollection.MoveSphereRejected | DynamicShapeArray.cpp:203-219 | A `d == 30` sphere at (50, 50, 50) asked to move by (60, 0, 0) stays put |
| ShapeCollection.MoveSphereSnaps | DynamicShapeArray.cpp:203-219 | A step of 0.5 leaves the truncated centre in place but translates the model |
| ShapeCollection.NextSpeedUp | DynamicShapeArray.cpp:224-235 | The modifier stays within `[0, MAX_SPEEDUP]`, moves by at most one, rises when below the bound and `up`, falls when above zero and not `up` |
| ShapeCollection.SpeedUpDownCancel | DynamicShapeArray.cpp:224-235 | Away from the bounds one step up then one down returns to the start |
| ShapeCollection.ColorAt | DynamicShapeArray.cpp:130-135 | `GetColor` returns a colour iff the index is a valid one |
| ShapeCollection.SetColorThenGet | DynamicShapeArray.cpp:123-125 | The colour set on a valid shape is the one read back, and every other colour is unchanged |
| ShapeCollection.GridCoordRange | DynamicShapeArray.cpp:81-95 | Grid coordinates `i * 100 / perAxis` lie in `[0, 100)` |
| ShapeCollection.GridPlacement | DynamicShapeArray.cpp:81-95 | When nothing throws, the shape added `n = (i perAxis + j) perAxis + k`-th, for every `0 <= i, j, k < perAxis`, is the random shape drawn from `draws(n)` at `(i * 100 / perAxis, j * 100 / perAxis, k * 100 / perAxis)`, and those coordinates lie in `[0, 100)` |
| ShapeCollection.StepPlaced | DynamicShapeArray.cpp:85-92 | The step of grid point `(i, j, k)` puts the random shape for that point, drawn with the run's next draw and current flags, right after the shapes before it, and no later step moves it |
| ShapeCollection.BeforeCount | DynamicShapeArray.cpp:85-92 | From an empty start, `(i perAxis + j) perAxis + k` shapes and as many draws precede grid point `(i, j, k)` |
| ShapeCollection.GridPlacedCentre | DynamicShapeArray.cpp:88-91 | A cube, sphere or cylinder placed at a grid point is centred half its drawn size past that point on each axis, with the drawn colour and speed |
| ShapeCollection.GridCount | DynamicShapeArray.cpp:81-95 | When nothing throws, `CreateRandomShapes(amount)` adds `perAxis^3` shapes: at least `amount`, fewer than `amount + 3 perAxis^2` |
| ShapeCollection.CeilCbrtBounds | DynamicShapeArray.cpp:81-95 | `perAxis^3` overshoots `amount` by less than `3 perAxis^2` |
| ShapeCollection.RowRunGrows | DynamicShapeArray.cpp:81-95 | A grid row adds one shape per draw used, and a failure is never undone |
| ShapeCollection.PlaneRunGrows | DynamicShapeArray.cpp:81-95 | A grid plane adds `j * perAxis` shapes the same way |
| ShapeCollection.GridRunGrows | DynamicShapeArray.cpp:81-95 | The whole grid adds `i * perAxis^2` shapes the same way |
| ShapeCollection.WriteColor | DynamicShapeArray.cpp:187-196 | Writes the four components of a colour into slot `i` and nothing else |
| ShapeCollection.DynamicShapeArray.constructor | DynamicShapeArray.cpp:63-68 | An empty collection with a fresh factory and the default modifier |
| ShapeCollection.DynamicShapeArray.InitFactoryPrototypes | DynamicShapeArray.cpp:105-108 | Every successful call appends four prototypes and keeps the earlier ones; on a fresh factory they are the four standard prototypes and every first-build flag is cleared |
| ShapeCollection.DynamicShapeArray.AddShape | DynamicShapeArray.cpp:112-116 | The shape is always pushed; it is listed and counted exactly when its type is valid, and otherwise the call fails |
| ShapeCollection.DynamicShapeArray.CreateShape | DynamicShapeArray.cpp:101-104 | Adds what the factory's `CreateShape` builds; fails with nothing added when the factory throws |
| ShapeCollection.DynamicShapeArray.CreateRandomShape | DynamicShapeArray.cpp:76-79 | Adds what the factory's `CreateRandomShape` builds at the origin corner |
| ShapeCollection.DynamicShapeArray.SetColor | DynamicShapeArray.cpp:123-125 | Only the chosen shape's colour changes |
| ShapeCollection.DynamicShapeArray.SetRandomColor | DynamicShapeArray.cpp:119-121 | Only the chosen shape's colour changes, to the drawn components and the given alpha |
| ShapeCollection.DynamicShapeArray.GetColor | DynamicShapeArray.cpp:130-135 | The colour of a valid shape, `None` otherwise |
| ShapeCollection.DynamicShapeArray.Collide | DynamicShapeArray.cpp:414-526 | The shapes become `CollideOn` of the old shapes; nothing else changes |
| ShapeCollection.DynamicShapeArray.CheckPair | DynamicShapeArray.cpp:257-410 | One loop iteration, as `PairStep` |
| ShapeCollection.DynamicShapeArray.CheckAll | DynamicShapeArray.cpp:257-410 | The loop over the first `size` shapes, as `CheckPass` |
| ShapeCollection.DynamicShapeArray.CheckCollision | DynamicShapeArray.cpp:242-411 | As `CheckCollisionResult`, and the invariant is kept |
| ShapeCollection.DynamicShapeArray.Move | DynamicShapeArray.cpp:149-160 | As `MoveResult`, and the invariant is kept |
| ShapeCollection.DynamicShapeArray.MoveWithCamera | DynamicShapeArray.cpp:161-164 | As `MoveWithCameraResult`, and the invariant is kept |
| ShapeCollection.DynamicShapeArray.MoveEach | DynamicShapeArray.cpp:165-170 | The `MoveAll` loop from index 2 |
| ShapeCollection.DynamicShapeArray.MoveAll | DynamicShapeArray.cpp:165-170 | As `MoveAllResult`, and the invariant is kept |
| ShapeCollection.DynamicShapeArray.MoveEachWithCamera | DynamicShapeArray.cpp:171-176 | The camera `MoveAll` loop from index 2 |
| ShapeCollection.DynamicShapeArray.MoveAllWithCamera | DynamicShapeArray.cpp:171-176 | As `MoveAllWithCameraResult`, and the invariant is kept |
| ShapeCollection.DynamicShapeArray.MoveSphere | DynamicShapeArray.cpp:203-219 | As `MoveSphereResult`, and the invariant is kept |
| ShapeCollection.DynamicShapeArray.SpeedUp | DynamicShapeArray.cpp:224-235 | The modifier becomes `NextSpeedUp` of the old one; the shapes are untouched |
| ShapeCollection.DynamicShapeArray.UploadMatrices | DynamicShapeArray.cpp:178-186 | Cell `i` holds the matrices of the `i`-th shape of the type, in insertion order; the rest of the buffer is untouched |
| ShapeCollection.DynamicShapeArray.UploadColors | DynamicShapeArray.cpp:187-196 | Slot `i` holds the four colour floats of the `i`-th shape of the type; the rest is untouched |
| ShapeCollection.DynamicShapeArray.AddGridShape | DynamicShapeArray.cpp:81-95 | One grid position, added unless something already threw |
| ShapeCollection.DynamicShapeArray.AddGridRow | DynamicShapeArray.cpp:81-95 | One row of `perAxis` positions along z |
| ShapeCollection.DynamicShapeArray.AddGridPlane | DynamicShapeArray.cpp:81-95 | One plane of `perAxis` rows |
| ShapeCollection.DynamicShapeArray.CreateRandomShapes | DynamicShapeArray.cpp:81-95 | Adds the shapes of the `perAxis^3` grid, stopping at the first throw; nothing for a non-positive amount; when nothing threw, between `amount` and `amount + 3 perAxis^2` shapes, the `n`-th placed at its grid point as `GridPlacement` states |
| Factory.StandardPrototypes | ShapeFactory.cpp:66-72 | Defines the four prototypes a fresh factory builds |
| Factory.CubeShape | ShapeFactory.cpp:351-398 | Defines `CreateCube` on both paths |
| Factory.SphereShape | ShapeFactory.cpp:400-456 | Defines `CreateSphere` on both paths |
| Factory.CylinderShape | ShapeFactory.cpp:458-502 | Defines `CreateCylinder` on both paths |
| Factory.RingShape | ShapeFactory.cpp:195-319 | Defines `CreateRing` on both paths |
| Factory.CreateShapeResult | ShapeFactory.cpp:176-193 | Defines `CreateShape`'s dispatch on the type code |
| Factory.RandomShapeResult | ShapeFactory.cpp:150-169 | Defines `CreateRandomShape` from the draws |
| Factory.SizeFormulas | ShapeFactory.h:15-19 | The table sizes are the formulas the mesh parameters give |
| Factory.SpherePosMonotone | ShapeFactory.cpp:77-99 | The running counter visits cells in loop order |
| Factory.SpherePrefixStep | ShapeFactory.cpp:82-97 | Writing one sector extends the filled prefix by that cell |
| Factory.SpherePrefixNext | ShapeFactory.cpp:77-99 | A finished stack starts the next one |
| Factory.SpherePosCovers | ShapeFactory.cpp:77-99 | Every position of the sphere table is written by some cell |
| Factory.SpherePosInverse | ShapeFactory.cpp:77-99 | ... and by exactly one |
| Factory.SpherePrefixIsTable | ShapeFactory.cpp:74-100 | A fully filled array is the closed-form sphere table |
| Factory.SphereTableCells | ShapeFactory.cpp:82-97 | Each cell holds its triangles, whose vertices lie on stacks `i` and `i + 1` |
| Factory.SphereIndexTableFacts | ShapeFactory.cpp:74-100 | The sphere table has `2*3*(STACK-1)*SECTOR` entries, which is `GetIndexPointerSize(T_SPHERE)`, all below the 703 sphere vertices |
| Factory.WriteSphereCell | ShapeFactory.cpp:84-96 | Writes the cell's triangles at the counter, advances it by the cell length, and keeps everything before it |
| Factory.FillSphereStack | ShapeFactory.cpp:82-98 | The inner loop fills one whole stack |
| Factory.CylinderPartsIsTable | ShapeFactory.cpp:102-116 | Fans plus side are the closed-form cylinder table |
| Factory.CylinderIndexTableFacts | ShapeFactory.cpp:102-116 | The cylinder table has `12*CIRCLE_TRIANGLE_NUM` entries, which is `GetIndexPointerSize(T_CYLINDER)`, all below 72; the bottom fan uses only the bottom circle and the top fan only the top circle |
| Factory.AddCircleIndices | ShapeFactory.cpp:118-124 | Writes `(offset+i, offset, offset+i+1)` for `i = 1..N` from `index` on, and touches nothing else |
| Factory.FillCylinderSide | ShapeFactory.cpp:108-115 | Writes every side quad after the two fans, keeping the fans |
| Factory.RingPrefixStep | ShapeFactory.cpp:286-293 | Writing one triangle pair extends the filled prefix |
| Factory.RingPrefixNext | ShapeFactory.cpp:285-294 | A finished band starts the next one |
| Factory.RingPosCovers | ShapeFactory.cpp:285-294 | Every position of the ring table is written by some cell |
| Factory.RingPrefixIsTable | ShapeFactory.cpp:285-294 | A fully filled array is the closed-form ring table |
| Factory.RingIndexTableFacts | ShapeFactory.cpp:285-294 | The ring table has `48*CIRCLE_TRIANGLE_NUM` entries, which is `GetIndexPointerSize(T_RING)`, all below the 280 ring vertices |
| Factory.RingTableAt | ShapeFactory.cpp:287-292 | Each position holds the entry of its band and pair |
| Factory.RingLastSectorWraps | ShapeFactory.cpp:287-292 | The eighth band joins circle 7 to circle 0 |
| Factory.WriteRingCell | ShapeFactory.cpp:287-292 | Writes one triangle pair at the counter and keeps everything before it |
| Factory.FillRingSector | ShapeFactory.cpp:286-293 | The inner loop fills one band |
| Factory.FillRingBands | ShapeFactory.cpp:285-294 | Both loops fill all eight bands in order |
| Factory.GetIndexPointerSize | ShapeFactory.cpp:581-594 | Zero exactly for a code that is not a shape type |
| Factory.IndexTablesMatchSizes | ShapeFactory.cpp:581-594 | Each index table is exactly as long as the count it is drawn with |
| Factory.GetNormalPointerSize | ShapeFactory.cpp:125-138 | Zero exactly for a code that is not a shape type |
| Factory.CubeNormalCountAsWritten | ShapeFactory.cpp:128-129 | As written, the cube reports 24 normal floats, a third of its 72; every other type reports one float per vertex float |
| Factory.NormalFloatCount | ShapeFactory.cpp:125-138 | The corrected count: always the vertex float count, 72 for the cube, the written value otherwise |
| Factory.ShapeKind | ShapeFactory.cpp:176-193 | `CreateShape` builds a shape of the given type, or a cube for an unknown code |
| Factory.Cleared | ShapeFactory.cpp:384 | Building a kind's mesh clears its first-build flag and no other |
| Factory.CreateShapeExtent | ShapeFactory.cpp:176-193 | For cube, sphere, cylinder or unknown types, on both paths the centre is `(x + s/2, y + s/2, z + s/2)` and `d == s`; a shape results iff the mesh is still to be built or the prototype exists; a first-path shape has the kind's type and no speed, and the normal count handed to its buffer (`GetNormalPointerSize`) matches its vertex count exactly when it is not a cube, while the corrected count (`NormalFloatCount`) always does |
| Factory.RingFromPrototype | ShapeFactory.cpp:309-318 | A ring from the prototype keeps the prototype's `d` and `d2` whatever the size, and its centre ignores `x, y, z` |
| Factory.StandardPrototypesFacts | ShapeFactory.cpp:66-72 | Prototype `k` has type `k`; the ring prototype has `d == 1`, `d2 == 0.3` |
| Factory.SetColor | ShapeFactory.cpp:545-550 | Exactly the four colour components are replaced |
| Factory.RandomShapeFacts | ShapeFactory.cpp:150-169 | A random shape is what `CreateShape` builds, opaque in the drawn colour and moving with the drawn speed; nothing else differs |
| Factory.RandomShapeFailureKeepsFlags | ShapeFactory.cpp:150-169 | Only a missing prototype makes it fail, and then the flags are unchanged |
| Factory.CreatedShapesTyped | ShapeFactory.cpp:176-193 | With typed prototypes every created shape is typed |
| Factory.ShapeFactory.TablesInClosedForm | ShapeFactory.cpp:74-116 | The factory's invariant means its tables are the closed-form ones |
| Factory.ShapeFactory.constructor | ShapeFactory.cpp:12-60 | Fills the sphere and cylinder tables, with no prototypes and every first-build flag set |
| Factory.ShapeFactory.InitSphereIndices | ShapeFactory.cpp:74-100 | Fills the whole sphere table |
| Factory.ShapeFactory.InitCylinderIndices | ShapeFactory.cpp:102-116 | Fills both fans and the side |
| Factory.ShapeFactory.CreateCube | ShapeFactory.cpp:351-398 | As `CubeShape`; the first call clears `firstCube` |
| Factory.ShapeFactory.CreateSphere | ShapeFactory.cpp:400-456 | As `SphereShape`; the first call clears `firstSphere` |
| Factory.ShapeFactory.CreateCylinder | ShapeFactory.cpp:458-502 | As `CylinderShape`; the first call clears `firstCylinder` |
| Factory.ShapeFactory.CreateRing | ShapeFactory.cpp:195-319 | As `RingShape`; the first call also fills the ring table; later calls leave it alone |
| Factory.ShapeFactory.CreateShape | ShapeFactory.cpp:176-193 | As `CreateShapeResult`, with the flags of `CreateShapeFlags` |
| Factory.ShapeFactory.CreateRandomShape | ShapeFactory.cpp:150-169 | As `RandomShapeResult` |
| Factory.ShapeFactory.InitPrototypes | ShapeFactory.cpp:66-72 | Every successful call appends four prototypes and keeps the earlier ones; on a fresh factory it always succeeds, the four are the standard prototypes and every flag is cleared |
| Factory.ShapeFactory.AddPrototype | ShapeFactory.cpp:68-71 | Appends one prototype |
| SpatialHash.GetKey | SpatialGrid.h:26-32 | Each key component is the floor of the coordinate over the cell size |
| SpatialHash.GetKeyUnique | SpatialGrid.h:26-32 | Any key with those floor bounds is the point's key |
| SpatialHash.KeysOfClosePointsNear | SpatialGrid.h:26-32 | Points at most one cell size apart on every axis have neighbouring keys |
| SpatialHash.Inserted | SpatialGrid.h:41-44 | The id goes on the end of its cell's bucket; every other bucket is unchanged |
| SpatialHash.BucketsFollowLog | SpatialGrid.h:41-44 | Each bucket holds its cell's inserted ids in insertion order |
| SpatialHash.NeighbourKey | SpatialGrid.h:51-54 | Every visited cell is within one of the centre on each axis |
| SpatialHash.NeighbourOrder | SpatialGrid.h:51-54 | The visiting order reaches each of the 27 cells at exactly one step |
| SpatialHash.OffsetStep | SpatialGrid.h:51-54 | Offsets `(dx, dy, dz)` come at step `9(dx+1) + 3(dy+1) + (dz+1)`, z innermost |
| SpatialHash.QueryOfEmpty | SpatialGrid.h:37-39 | Over an empty table every query is empty |
| SpatialHash.QueryAfterInsert | SpatialGrid.h:41-61 | An insertion adds its id once to a query that has reached its cell, and changes no other query |
| SpatialHash.QueryCountsInsertions | SpatialGrid.h:46-66 | The full query returns each id once per insertion into a neighbouring cell |
| SpatialHash.NearIdsMembers | SpatialGrid.h:46-66 | An id is among the neighbouring insertions iff one of its insertions went to a neighbouring cell |
| SpatialHash.QueryMembers | SpatialGrid.h:46-66 | An id is returned iff it was inserted into one of the 27 cells |
| SpatialHash.QueryAfterClear | SpatialGrid.h:37-39 | After `clear` every query is empty |
| SpatialHash.SpatialGrid.constructor | SpatialGrid.h:35 | A grid with no cells |
| SpatialHash.SpatialGrid.Clear | SpatialGrid.h:37-39 | Drops every bucket |
| SpatialHash.SpatialGrid.Insert | SpatialGrid.h:41-44 | The cells become `Inserted` of the old cells at the point's key |
| SpatialHash.SpatialGrid.QueryNeighbors | SpatialGrid.h:46-66 | Returns the 27 neighbouring buckets concatenated in visiting order and, under the invariant, each id once per insertion into a neighbouring cell; it modifies nothing |
| SpatialHash.SpatialGrid.QueryRow | SpatialGrid.h:53-63 | The innermost loop appends the three cells of one row |
| SpatialHash.AppendAll | SpatialGrid.h:59-61 | Pushes every id of a bucket, in order |
| D3D12.PaddedTotal | src/D3D12Renderer.cpp:275-283 | Defines the 32-bit descriptor total plus its padding |
| D3D12.HeapSize | src/D3D12Renderer.cpp:275-284 | Defines the heap size: the padded total rounded up to a power of two |
| D3D12.Wrap | src/D3D12Renderer.cpp:275-284 | A 32-bit unsigned result below 2^32 is kept as it is |
| D3D12.RoundUpToPowerOf2 | src/D3D12Renderer.cpp:264-273 | 0 gives 1; `1 <= v <= 2^31` gives a power of two `r >= v` with `r/2 < v`; larger inputs wrap to 0 |
| D3D12.RoundUpIsLeast | src/D3D12Renderer.cpp:264-273 | It is the least power of two at or above the input |
| D3D12.Padding | src/D3D12Renderer.cpp:281 | The padding is the larger of 4 and a tenth of the total |
| D3D12.HeapSizeCovers | src/D3D12Renderer.cpp:275-284 | Without overflow the padded total exceeds the descriptor count by at least 4 and a tenth, and the heap size is the least power of two covering it |
| D3D12.Align256 | src/D3D12Renderer.cpp:750 | `(size + 255) & ~255` is a multiple of 256 and, when nothing wraps, within `[size, size + 256)` |
| D3D12.Align256IsLeast | src/D3D12Renderer.cpp:317 | It is the least multiple of 256 at or above the size |
| D3D12.Align256Wraps | src/D3D12Renderer.cpp:317 | Sizes above the last 32-bit multiple of 256 wrap to 0 |
| D3D12.SsboView | src/D3D12Renderer.cpp:401-414 | Succeeds iff the usage is one of the matrices or colours ids (4 to 11); the stride is 176 exactly for the matrices ids and 16 exactly for the colours ids; the element count is `newSize / stride` rounded down |
| D3D12.DescriptorBook.constructor | src/D3D12Renderer.h:38-43 | All counts zero, no buffers, no heap |
| D3D12.DescriptorBook.CreateUbo | src/D3D12Renderer.cpp:749-773 | Records the aligned size under the usage, raises `cbvCount` by one (wrapping at 2^32), and keeps every handed-out index below the counts when that does not wrap |
| D3D12.DescriptorBook.CreateSsbo | src/D3D12Renderer.cpp:774-793 | Frame `i` gets index `cbvCount + srvCount + i`; `srvCount` rises by `FrameCount`; handed-out indices stay below the counts |
| D3D12.DescriptorBook.CreateDescriptorHeaps | src/D3D12Renderer.cpp:260-285 | The first call sizes the heap from the counts; later calls change nothing |
| RootSignature.ClassifyStep | src/D3D12Renderer.cpp:458-526 | Defines one step of the first pass |
| RootSignature.PrevIndex | src/D3D12Renderer.cpp:578 | Defines `rootParamIndex - 1` on a 32-bit counter |
| RootSignature.RootSignatureOf | src/D3D12Renderer.cpp:436-581 | Defines the layout and binding map the three passes build |
| RootSignature.CorrectedRootSignatureOf | src/D3D12Renderer.cpp:436-581 | Defines the same with merged textures routed to the table of their range |
| RootSignature.FindRangeFrom | src/D3D12Renderer.cpp:442-451 | Finds the first range starting at the register in the space, or reports that none does |
| RootSignature.FindRangeFindsAny | src/D3D12Renderer.cpp:442-451 | The search succeeds iff some range matches |
| RootSignature.FindRangeIn | src/D3D12Renderer.cpp:442-451 | The loop returns what `FindRange` specifies |
| RootSignature.StepWell | src/D3D12Renderer.cpp:458-526 | One classification step fails iff the kind is unsupported, and otherwise keeps the first pass's invariant |
| RootSignature.ClassifyMeaning | src/D3D12Renderer.cpp:457-527 | The first pass fails iff some kind is unsupported; otherwise each binding is filed under a slot its kind allows, one one-register range is opened per distinct texture register and space in order of first appearance, a texture is merged iff an earlier one had its register and space, and samplers are kept in order |
| RootSignature.FailureSticks | src/D3D12Renderer.cpp:524-525 | A failed pass stays failed with the same message |
| RootSignature.ClassifyBindings | src/D3D12Renderer.cpp:457-527 | The first loop computes `ClassifyUpTo` over all bindings |
| RootSignature.RootParamOf | src/D3D12Renderer.cpp:536-552 | A root descriptor is never a table |
| RootSignature.RootPass | src/D3D12Renderer.cpp:528-556 | After the second pass `next` is the number of parameters, which is the number of root descriptors |
| RootSignature.TablePass | src/D3D12Renderer.cpp:558-581 | The third pass adds one parameter and index per new table |
| RootSignature.RootPassOrder | src/D3D12Renderer.cpp:528-556 | Root descriptors take indices 0, 1, ... in input order, and none is a table |
| RootSignature.TablePassOrder | src/D3D12Renderer.cpp:558-581 | Tables follow the root parameters, one per range, in range order |
| RootSignature.RootPassKeys | src/D3D12Renderer.cpp:554-555 | The second pass maps every root descriptor's key and adds no other |
| RootSignature.TablePassKeys | src/D3D12Renderer.cpp:570-579 | The third pass maps every texture's key and adds no other |
| RootSignature.LayoutMeaning | src/D3D12Renderer.cpp:457-581 | A successful layout: the `k` root descriptors first in input order, then one table per range, samplers in order with no index, and the map gains exactly the keys of the other bindings |
| RootSignature.WrittenIndex | src/D3D12Renderer.cpp:555-579 | A root descriptor is written with the number of root descriptors before it, a new table with `k` plus the tables before it, a merged texture with the index before the next one |
| RootSignature.MergedTextureMisrouted | src/D3D12Renderer.cpp:575-579 | As written, a repeated texture at register 0 after one at register 1 is mapped to register 1's table; corrected, it stays on its own |
| RootSignature.CorrectedTablePass | src/D3D12Renderer.cpp:558-581 | The corrected third pass builds the same parameters, counts and indices as the written one |
| RootSignature.CorrectedTexturesReachTheirTables | src/D3D12Renderer.cpp:558-581 | With the correction every texture, new or merged, is mapped to a table whose range starts at its own register and space |
| RootSignature.BindingTable.constructor | src/D3D12Renderer.h:93 | The map starts empty |
| RootSignature.BindingTable.NumberRoots | src/D3D12Renderer.cpp:528-556 | The second loop computes `RootPass` and leaves its map in the table |
| RootSignature.BindingTable.NumberTables | src/D3D12Renderer.cpp:558-581 | The third loop computes `TablePass` |
| RootSignature.BindingTable.CreateRootSignature | src/D3D12Renderer.cpp:436-581 | Returns `RootSignatureOf` of the bindings and the old map; on success the map is the layout's, on failure it is untouched |
| RootSignature.BindingTable.CorrectedNumberTables | src/D3D12Renderer.cpp:558-581 | The third loop with merged textures looked up with `FindRangeIn`, computing `CorrectedTablePass` |
| RootSignature.BindingTable.CreateCorrectedRootSignature | src/D3D12Renderer.cpp:436-581 | Returns `CorrectedRootSignatureOf`; on success the map is the corrected layout's, on failure it is untouched |
| GlslShader.Lines | src/GLSLShader.cpp:191 | Defines the lines `getline` reads |
| GlslShader.Joined | src/GLSLShader.cpp:115-117 | Defines lines written each followed by a newline |
| GlslShader.SourceUpTo | src/GLSLShader.cpp:185-203 | Defines the source accumulated for a section |
| GlslShader.Extension | src/GLSLShader.cpp:104-105 | Defines the extension of a path |
| GlslShader.UniqueName | src/GLSLShader.cpp:44-46 | Defines the stage prefix, name, `_b` and binding |
| GlslShader.Renames | src/GLSLShader.cpp:42-72 | Defines the renamings made for the storage buffers, uniform buffers and sampled images in that order |
| GlslShader.ContainsIff | src/GLSLShader.cpp:192-196 | `find != npos` holds iff the text occurs at some position |
| GlslShader.LineEnd | src/GLSLShader.cpp:191 | The first newline, or the end |
| GlslShader.JoinedAppend | src/GLSLShader.cpp:115-117 | Writing one more line appends it and a newline |
| GlslShader.LinesOfJoined | src/GLSLShader.cpp:115-117 | Reading back lines written with trailing newlines gives the same lines |
| GlslShader.LinesHaveNoNewline | src/GLSLShader.cpp:191 | No line `getline` returns holds a newline |
| GlslShader.ReadSource | src/GLSLShader.cpp:111-119 | Copying a stream line by line gives each line followed by a newline |
| GlslShader.ContentIn | src/GLSLShader.cpp:200-202 | The copied lines are input lines and never directives |
| GlslShader.SourceIsContent | src/GLSLShader.cpp:191-203 | A section's source is its content lines in order, each with a newline; no directive is copied |
| GlslShader.SplitSections | src/GLSLShader.cpp:185-203 | The loop's vertex and fragment sources are `SourceUpTo` of those sections |
| GlslShader.HeadersAreDirectives | src/GLSLShader.cpp:192-198 | `#shader vertex` selects the vertex section, `#shader fragment` the fragment one |
| GlslShader.FragmentHeaderHasNoVertex | src/GLSLShader.cpp:193 | `#shader fragment` does not contain `vertex` |
| GlslShader.PlainLinesKeepSection | src/GLSLShader.cpp:191-203 | Content lines leave the section as it was |
| GlslShader.SplitsAsLaidOut | src/GLSLShader.cpp:185-204 | A file of `#shader vertex`, vertex lines, `#shader fragment`, fragment lines splits back into exactly those lines |
| GlslShader.SplitsWithHeaders | src/GLSLShader.cpp:185-204 | The same for any pair of headers selecting vertex then fragment |
| GlslShader.LastIn | src/GLSLShader.cpp:104-105 | The last position holding one of the characters, or none |
| GlslShader.ExtensionOfAppended | src/GLSLShader.cpp:104-105 | A path extended by an extension has that extension |
| GlslShader.PairDispatch | src/GLSLShader.cpp:101-147 | `.vert` with `.frag` reads both as text (an unopenable file as empty); `.spv` with `.spv` reads SPIR-V and fails when a file cannot be opened; any other pair builds nothing |
| GlslShader.DispatchByName | src/GLSLShader.cpp:107-146 | For names `base + ext`, text iff `.vert`/`.frag`, SPIR-V iff `.spv`/`.spv` with both files readable, nothing otherwise |
| GlslShader.ParseShader | src/GLSLShader.cpp:173-238 | An unopenable file fails with "Failed to open shader file: " and the path; `.shader` is split into sections; `.slang` goes whole to the compiler; other extensions build nothing |
| GlslShader.WordsOf | src/GLSLShader.cpp:35-36 | Copying bytes gives a quarter as many words |
| GlslShader.BytesOfWordsOf | src/GLSLShader.cpp:35-36 | Copying bytes into little-endian words keeps every byte |
| GlslShader.SpirvWords | src/GLSLShader.cpp:29-36 | Rejects empty input and lengths not a multiple of 4 with the source's message; otherwise `|bytes| / 4` words holding exactly those bytes |
| GlslShader.DecimalString | src/GLSLShader.cpp:46 | `to_string` gives decimal digits without a leading zero |
| GlslShader.DecimalRoundTrip | src/GLSLShader.cpp:46 | Reading the decimal string gives the value back |
| GlslShader.DigitSuffixUnique | src/GLSLShader.cpp:46 | A digit string ending a name right after `b` is determined by the name |
| GlslShader.UniqueNameInjective | src/GLSLShader.cpp:42-46 | Stage, name and binding can all be read back from the unique name, so resources that differ in stage, name or binding get different names; the descriptor set and the resource class are not part of the name |
| GlslShader.BufferRenames | src/GLSLShader.cpp:43-66 | Each buffer renames its id to the unique name and its type to the unique name plus `_type`, in order |
| GlslShader.ImageRenames | src/GLSLShader.cpp:67-72 | Each sampled image renames its id only |
| GlslShader.RenamesCarryStage | src/GLSLShader.cpp:42-72 | Every name given while converting one stage starts with `vs_` or `fs_` accordingly |

## Left out

- Floating point: every float is a `real`, so rounding, NaN and infinities are not modelled.
- Where the source normalises a zero vector (zero centre delta, or a speed orthogonal to the centre line), the result is NaN; the model keeps the speed there.
- `sqrt` (in `normalize`/`length`) is a parameter satisfying `IsSqrt`. The `acos`/`cos` term `dists[0]` of the cylinder and ring branches decides nothing and is dropped.
- Matrices are symbolic (`Mat`): translate, scale, inverse-transpose and products are recorded, not computed.
- Randomness: `RandomInt`/`RandomFloat` are clock-seeded, so their values are parameters (`RandomDraw`, the ring jitter and divisor).
- `CreateRandomShapes` computes `ceil(cbrt(amount))` in floating point; the model takes the integer it denotes (`IsCeilCbrt`).
- The vertex and normal tables (`CreateCircle` and the trigonometric loops in `CreateSphere`, `CreateCylinder`, `CreateRing`) are floating-point numerics and are not modelled; only their lengths appear.
- `PlaySound` (DynamicShapeArray.cpp:403), `cout` logging, `setRenderer`, `BindShape`, `GetNormals`, `GetIndexPointer`, and the renderer's `createObjectBuffer` call are I/O or GPU plumbing.
- Heap allocation of shapes, pointers and the destructor: shapes are values in a sequence and handles are positions in it. The `.at(type)` exception in `AddShape` and the `Prototypes.at` exceptions are modelled as a failed result (`ok == false`, `None`).
- Factory.ShapeFactory.InitPrototypes: on a call after the first, only the count of the appended prototypes and the kept prefix are stated, not which shapes they are (each is copied from an earlier prototype and rescaled).
- ShapeCollection.DynamicShapeArray.InitFactoryPrototypes: the same as `InitPrototypes`, which it forwards to.
- Mutable globals and flags: `speedUP` (DynamicShapeArray.cpp:56) is the field `DynamicShapeArray.speedUp`, and the factory's `first*` members (ShapeFactory.h:49-52) are the field `ShapeFactory.flags`.
- The globals `firstCylinder`, `firstRing` and `firstSphere` (DynamicShapeArray.cpp:58-60) are never read (the factory reads its own members), so they are not modelled. `soundsEnabled` (:61) only gates `PlaySound` (:402), which is left out.
- The grid is modelled on its own; the grid-based physics step (`UpdatePhysics`, `UpdateMatrices`) is not part of this model.
- `GridKeyHash` affects only performance: cells are a map.
- `getKey`'s float-to-`int` cast can overflow for huge coordinates; the model keeps the unbounded floor. A zero cell size (a division by zero in the source) is a precondition.
- `queryNeighbors` writes into a caller's vector; the model returns the result.
- Direct3D device objects, PSO, command lists, buffer uploads and `createDescriptors` are not modelled; from that code only the alignment at src/D3D12Renderer.cpp:317 appears.
- The `Unsupported shader resource type` throw of the second pass (src/D3D12Renderer.cpp:550-551) cannot be reached once the first pass succeeds, and is not modelled on its own.
- The debug-only check of src/D3D12Renderer.cpp:576 is compiled out in release builds and not modelled; the decrement of a zero index wraps (`PrevIndex`).
- The range type of the descriptor ranges (always SRV) is implicit, and the D3D structures are abstracted into `RootParam`, `Range` and `Layout`.
- `HeapSizeCovers`: stated for totals whose padding does not overflow 32 bits and stays within 2^31; above that the round-up wraps as `RoundUpToPowerOf2` states.
- `ResolveFromExeDir` is not modelled: the path is used as given, and the error message names that path.
- File reading in the shader loader is a parameter: text files as lines or strings, SPIR-V files as bytes, `None` when a file cannot be opened. `ReadSPIRV` opening in text mode is not modelled.
- Word conversion assumes a little-endian machine for the `memcpy`.
- The Slang compile, the SPIRV-Cross compile and its `set_name`/`unset_decoration` effects, and the GL shader and program calls (`CreateShader`, `CreateSpirVShader`, program ids) are foreign libraries; they appear only as the values handed to them.
- `ParseShader`: a content line before the first section directive indexes `ss[-1]` in the source; the model requires `WellSectioned` input.

## Findings

| source | as written | input that shows it | evidently intended | confidence | as-written member | corrected member |
|---|---|---|---|---|---|---|
| ShapeFactory.cpp:128-129 | `GetNormalPointerSize(T_CUBE)` returns 24, while every other type returns its vertex float count (3 per vertex) | a cube: 24 vertices, 72 floats in `cube_normals` | 72, so that all 24 cube normals reach the buffer | medium, not executed | Factory.CubeNormalCountAsWritten | Factory.NormalFloatCount |
| src/D3D12Renderer.cpp:575-579 | a merged texture is mapped to `rootParamIndex - 1`, the most recently opened table | textures at (register 0, space 0), (1, 0), then (0, 0) again (`REUSED_TEXTURE`): key (0, 0) ends up mapped to 1, the table of register 1 | the index of the table whose range the texture merged into (0 here) | medium, not executed | RootSignature.MergedTextureMisrouted | RootSignature.CorrectedTexturesReachTheirTables |
