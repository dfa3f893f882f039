/**
 * The shape collection (`DynamicShapeArray`): the flat list of shapes, the
 * per-type handle lists used for batch rendering, the collision pass,
 * movement, the speed modifier and the per-type uploads.
 *
 * Shapes are values in a sequence; the pointers of the source become
 * positions in that sequence, so a per-type list holds positions and an
 * upload reads the shape's current state through them.
 */
module ShapeCollection {
  import opened Vectors
  import opened Shapes
  import opened Wrappers
  import opened Collision
  import opened Resolver
  import opened Factory

  /** Upper bound of the speed modifier. */
  const MAX_SPEEDUP: int := 100
  /** Its initial value. */
  const DEFAULT_SPEEDUP: int := 50
  /** Frames per second the speeds are given for. */
  const GLOBAL_SPEED: real := 60.0
  /** `globalSpeed`, the per-frame scale of a speed. */
  const GlobalSpeed: real := 0.5 / GLOBAL_SPEED

  // ---------------------------------------------------------------------
  // Per-type bookkeeping
  // ---------------------------------------------------------------------

  /** Positions of the shapes of type `t`, in insertion order. */
  function IndicesOfType(s: seq<Shape>, t: int): seq<nat>
    decreases |s|
  {
    if |s| == 0 then []
    else IndicesOfType(s[..|s| - 1], t) + (if s[|s| - 1].shapeType == t then [|s| - 1] else [])
  }

  /** The number of shapes carrying one of the four type codes. */
  function ValidCount(s: seq<Shape>): nat
    decreases |s|
  {
    if |s| == 0 then 0
    else ValidCount(s[..|s| - 1]) + (if IsShapeType(s[|s| - 1].shapeType) then 1 else 0)
  }

  predicate Increasing(q: seq<nat>) {
    forall a, b | 0 <= a < b < |q| :: q[a] < q[b]
  }

  /**
   * A position is listed under `t` exactly when the shape there has type
   * `t`, and the list is in increasing (insertion) order.
   */
  lemma {:induction false} IndicesOfTypeMeaning(s: seq<Shape>, t: int)
    ensures forall k :: k in IndicesOfType(s, t) <==> 0 <= k < |s| && s[k].shapeType == t
    ensures Increasing(IndicesOfType(s, t))
    ensures forall a | 0 <= a < |IndicesOfType(s, t)| :: IndicesOfType(s, t)[a] < |s|
    decreases |s|
  {
    if |s| > 0 {
      var p := s[..|s| - 1];
      IndicesOfTypeMeaning(p, t);
      assert forall k | 0 <= k < |p| :: p[k] == s[k];
    }
  }

  /** Adding a shape appends its position to exactly the list of its type. */
  lemma IndicesOfTypeAppend(s: seq<Shape>, x: Shape, t: int)
    ensures x.shapeType == t ==> IndicesOfType(s + [x], t) == IndicesOfType(s, t) + [|s|]
    ensures x.shapeType != t ==> IndicesOfType(s + [x], t) == IndicesOfType(s, t)
    ensures ValidCount(s + [x]) == ValidCount(s) + (if IsShapeType(x.shapeType) then 1 else 0)
  {
    assert (s + [x])[..|s|] == s;
  }

  /** The four lists as `shapeTypeArray` holds them. */
  function TypeLists(s: seq<Shape>): (lists: seq<seq<nat>>)
    ensures |lists| == 4 && forall t | 0 <= t < 4 :: lists[t] == IndicesOfType(s, t)
    ensures forall t, i | 0 <= t < 4 && 0 <= i < |lists[t]| :: lists[t][i] < |s|
  {
    IndicesOfTypeMeaning(s, T_CUBE);
    IndicesOfTypeMeaning(s, T_SPHERE);
    IndicesOfTypeMeaning(s, T_CYLINDER);
    IndicesOfTypeMeaning(s, T_RING);
    [IndicesOfType(s, T_CUBE), IndicesOfType(s, T_SPHERE), IndicesOfType(s, T_CYLINDER), IndicesOfType(s, T_RING)]
  }

  /** Pushing a typed shape appends its position to the list of its type and counts it. */
  lemma ListsAfterTypedAppend(lists: seq<seq<nat>>, s: seq<Shape>, x: Shape)
    requires lists == TypeLists(s) && IsShapeType(x.shapeType)
    ensures lists[x.shapeType := lists[x.shapeType] + [|s|]] == TypeLists(s + [x])
    ensures ValidCount(s + [x]) == ValidCount(s) + 1
  {
    var u := TypeLists(s + [x]);
    var v := lists[x.shapeType := lists[x.shapeType] + [|s|]];
    forall t | 0 <= t < 4
      ensures v[t] == u[t]
    {
      TypedAppendAt(lists, s, x, t);
    }
  }

  lemma TypedAppendAt(lists: seq<seq<nat>>, s: seq<Shape>, x: Shape, t: int)
    requires lists == TypeLists(s) && IsShapeType(x.shapeType) && 0 <= t < 4
    ensures lists[x.shapeType := lists[x.shapeType] + [|s|]][t] == TypeLists(s + [x])[t]
  {
    IndicesOfTypeAppend(s, x, t);
  }

  /** Pushing a shape with an unknown type code changes neither the lists nor the count. */
  lemma ListsAfterUntypedAppend(lists: seq<seq<nat>>, s: seq<Shape>, x: Shape)
    requires lists == TypeLists(s) && !IsShapeType(x.shapeType)
    ensures lists == TypeLists(s + [x]) && ValidCount(s + [x]) == ValidCount(s)
  {
    var u := TypeLists(s + [x]);
    forall t | 0 <= t < 4
      ensures lists[t] == u[t]
    {
      IndicesOfTypeAppend(s, x, t);
    }
  }

  /** The lists and the count depend on the types only. */
  lemma {:induction false} IndicesOfTypeSameTypes(s: seq<Shape>, u: seq<Shape>, t: int)
    requires |s| == |u| && forall k | 0 <= k < |s| :: s[k].shapeType == u[k].shapeType
    ensures IndicesOfType(s, t) == IndicesOfType(u, t)
    ensures ValidCount(s) == ValidCount(u)
    decreases |s|
  {
    if |s| > 0 {
      IndicesOfTypeSameTypes(s[..|s| - 1], u[..|u| - 1], t);
    }
  }

  /** The four lists together hold exactly the typed shapes. */
  lemma {:induction false} ListsPartition(s: seq<Shape>)
    ensures |IndicesOfType(s, T_CUBE)| + |IndicesOfType(s, T_SPHERE)| +
            |IndicesOfType(s, T_CYLINDER)| + |IndicesOfType(s, T_RING)| == ValidCount(s)
    ensures ValidCount(s) <= |s|
    decreases |s|
  {
    if |s| > 0 {
      ListsPartition(s[..|s| - 1]);
    }
  }

  // ---------------------------------------------------------------------
  // Collision pass
  // ---------------------------------------------------------------------

  /** `Collide(obstacle, mover)`: only the mover's speed is written. */
  function CollideOn(s: seq<Shape>, obstacle: nat, mover: nat, root: real -> real): (t: seq<Shape>)
    requires obstacle < |s| && mover < |s|
    ensures |t| == |s|
  {
    s[mover := s[mover].(speed := CollideSpeed(s[obstacle], s[mover], root))]
  }

  /**
   * Only speeds change: every shape keeps its body, centre and matrices,
   * and a shape at rest stays at rest.
   */
  ghost predicate SpeedsOnly(s: seq<Shape>, t: seq<Shape>) {
    |s| == |t| && forall k | 0 <= k < |s| :: Kept(s[k], t[k])
  }

  /** `b` is `a` with at most its speed changed, and a resting `a` stays at rest. */
  ghost predicate Kept(a: Shape, b: Shape) {
    SameBody(a, b) && b.center == a.center && b.matrices == a.matrices &&
    (a.speed == Zero ==> b.speed == Zero)
  }

  lemma SpeedsOnlyTransitive(s: seq<Shape>, t: seq<Shape>, u: seq<Shape>)
    requires SpeedsOnly(s, t) && SpeedsOnly(t, u)
    ensures SpeedsOnly(s, u)
  {
    forall k | 0 <= k < |s| ensures Kept(s[k], u[k]) {
      assert Kept(s[k], t[k]) && Kept(t[k], u[k]);
    }
  }

  /**
   * `Collide` writes the mover's speed and nothing else, never the
   * obstacle; with a mover at rest nothing changes at all.
   */
  lemma CollideOnEffect(s: seq<Shape>, obstacle: nat, mover: nat, root: real -> real)
    requires obstacle < |s| && mover < |s| && obstacle != mover
    ensures var t := CollideOn(s, obstacle, mover, root);
      SpeedsOnly(s, t) &&
      (forall k | 0 <= k < |s| && k != mover :: t[k] == s[k]) &&
      t[mover].speed == CollideSpeed(s[obstacle], s[mover], root) &&
      (s[mover].speed == Zero ==> t == s)
  {
    var t := CollideOn(s, obstacle, mover, root);
    if s[mover].speed == Zero {
      RestingMoverStays(s[obstacle], s[mover], root);
      assert t[mover] == s[mover];
      assert t == s;
    }
  }

  /**
   * One iteration of the `CheckCollision` loop: `other` is projected one
   * step ahead and tested against the checked body at `bigPos`; on a
   * collision, `Collide(first, second)` then `Collide(second, first)` on
   * the pair in canonical order.
   */
  function PairStep(s: seq<Shape>, index: nat, bigPos: Vec3, other: nat, root: real -> real): (t: seq<Shape>)
    requires index < |s| && other < |s|
    ensures |t| == |s|
  {
    if other == index then s
    else if Overlap(s[index], bigPos, s[other], Add(s[other].center, s[other].speed)) then
      var swap := IndexGoesFirst(s[index].shapeType, s[other].shapeType);
      var first := if swap then index else other;
      var second := if swap then other else index;
      CollideOn(CollideOn(s, first, second, root), second, first, root)
    else s
  }

  /** The first `n` iterations of the `CheckCollision` loop; they only write speeds. */
  function CheckPass(s: seq<Shape>, index: nat, bigPos: Vec3, n: nat, root: real -> real): (t: seq<Shape>)
    requires index < |s| && n <= |s|
    ensures |t| == |s|
    ensures SpeedsOnly(s, t)
    decreases n
  {
    if n == 0 then s
    else
      var prev := CheckPass(s, index, bigPos, n - 1, root);
      PairStepEffect(prev, index, bigPos, n - 1, root);
      SpeedsOnlyTransitive(s, prev, PairStep(prev, index, bigPos, n - 1, root));
      PairStep(prev, index, bigPos, n - 1, root)
  }

  /**
   * `CheckCollision(index)`: nothing happens for the two fixed shapes or
   * an index past the valid shapes; otherwise the checked body, projected
   * once to `center + speed`, is tested against every other valid shape.
   */
  function CheckCollisionResult(s: seq<Shape>, size: nat, index: int, root: real -> real): (t: seq<Shape>)
    requires size <= |s|
    ensures |t| == |s|
  {
    if index >= size || index < 2 then s
    else CheckPass(s, index, Add(s[index].center, s[index].speed), size, root)
  }

  /** A pair step only writes the speeds of the pair. */
  lemma PairStepEffect(s: seq<Shape>, index: nat, bigPos: Vec3, other: nat, root: real -> real)
    requires index < |s| && other < |s|
    ensures var t := PairStep(s, index, bigPos, other, root);
      SpeedsOnly(s, t) && (forall k | 0 <= k < |s| && k != index && k != other :: t[k] == s[k])
  {
    var t := PairStep(s, index, bigPos, other, root);
    if other != index && Overlap(s[index], bigPos, s[other], Add(s[other].center, s[other].speed)) {
      var swap := IndexGoesFirst(s[index].shapeType, s[other].shapeType);
      var first := if swap then index else other;
      var second := if swap then other else index;
      var mid := CollideOn(s, first, second, root);
      CollideOnEffect(s, first, second, root);
      CollideOnEffect(mid, second, first, root);
      SpeedsOnlyTransitive(s, mid, t);
    }
  }

  /** A pair that does not overlap is left alone. */
  lemma PairStepNoOverlap(s: seq<Shape>, index: nat, bigPos: Vec3, other: nat, root: real -> real)
    requires index < |s| && other < |s|
    requires !Overlap(s[index], bigPos, s[other], Add(s[other].center, s[other].speed))
    ensures PairStep(s, index, bigPos, other, root) == s
  {
  }

  /**
   * `CheckCollision` has no effect for `index < 2` or `index >= size`, and
   * otherwise changes speeds only.
   */
  lemma CheckCollisionEffect(s: seq<Shape>, size: nat, index: int, root: real -> real)
    requires size <= |s|
    ensures index < 2 || index >= size ==> CheckCollisionResult(s, size, index, root) == s
    ensures SpeedsOnly(s, CheckCollisionResult(s, size, index, root))
  {
  }

  /** Two shapes of which only the second is a ring are never steered by a sphere check. */
  lemma SphereCheckIgnoresRing(s: seq<Shape>, index: nat, bigPos: Vec3, other: nat, root: real -> real)
    requires index < |s| && other < |s|
    requires s[index].shapeType == T_SPHERE && s[other].shapeType == T_RING
    ensures PairStep(s, index, bigPos, other, root) == s
  {
    SphereIndexMissesRing(s[index], bigPos, s[other], Add(s[other].center, s[other].speed));
  }

  // ---------------------------------------------------------------------
  // Movement
  // ---------------------------------------------------------------------

  /** `translate(mat4(1), v) * m`. */
  function Translated(v: Vec3, m: Mat): Mat {
    Product(Product(Identity, Translation(v)), m)
  }

  /** The per-frame step of a shape moving with `speed`. */
  function StepOf(speed: Vec3, speedUp: int): Vec3 {
    Scale(speedUp as real * GlobalSpeed, speed)
  }

  /** A shape translated by `step`, with its normal matrix recomputed. */
  function Moved(sh: Shape, step: Vec3): Shape {
    var model := Translated(step, sh.matrices.model);
    sh.(matrices := sh.matrices.(model := model, normalModel := InverseTranspose(model)),
        center := Add(sh.center, step))
  }

  /**
   * `Move(index)`: a shape with any speed component set runs the collision
   * check first and then steps with its speed as the check left it.
   */
  function MoveResult(s: seq<Shape>, size: nat, index: nat, speedUp: int, root: real -> real): (t: seq<Shape>)
    requires size <= |s| && index < |s|
    ensures |t| == |s|
  {
    if s[index].speed == Zero then s
    else
      var c := CheckCollisionResult(s, size, index, root);
      c[index := Moved(c[index], StepOf(c[index].speed, speedUp))]
  }

  /**
   * A shape at rest does not move and triggers no check; a moving shape
   * advances by its post-check speed scaled by `speedUP * globalSpeed`,
   * its model matrix gets the same translation, and every other shape
   * keeps its body, centre and matrices, a resting one its zero speed.
   */
  lemma MoveEffect(s: seq<Shape>, size: nat, index: nat, speedUp: int, root: real -> real)
    requires size <= |s| && index < |s|
    ensures s[index].speed == Zero ==> MoveResult(s, size, index, speedUp, root) == s
    ensures var t := MoveResult(s, size, index, speedUp, root);
      s[index].speed != Zero ==>
        var c := CheckCollisionResult(s, size, index, root);
        t[index].center == Add(s[index].center, StepOf(c[index].speed, speedUp)) &&
        t[index].matrices.model == Translated(StepOf(c[index].speed, speedUp), s[index].matrices.model) &&
        t[index].speed == c[index].speed && SameBody(t[index], s[index])
    ensures var t := MoveResult(s, size, index, speedUp, root);
      |t| == |s| &&
      forall k | 0 <= k < |s| && k != index ::
        SameBody(t[k], s[k]) && t[k].center == s[k].center && t[k].matrices == s[k].matrices &&
        (s[k].speed == Zero ==> t[k].speed == Zero)
    ensures forall k | 0 <= k < |s| :: MoveResult(s, size, index, speedUp, root)[k].shapeType == s[k].shapeType
  {
    CheckCollisionEffect(s, size, index, root);
  }

  /** `Move(index, view, projection)`: `Move`, then `mvp = projection * view * model`. */
  function MoveWithCameraResult(s: seq<Shape>, size: nat, index: nat, speedUp: int, root: real -> real,
                                view: Mat, projection: Mat): (t: seq<Shape>)
    requires size <= |s| && index < |s|
    ensures |t| == |s|
  {
    var m := MoveResult(s, size, index, speedUp, root);
    m[index := m[index].(matrices := m[index].matrices.(mvp := Product(Product(projection, view), m[index].matrices.model)))]
  }

  /** The camera variant differs from `Move` only in the moved shape's `mvp`. */
  lemma MoveWithCameraEffect(s: seq<Shape>, size: nat, index: nat, speedUp: int, root: real -> real,
                             view: Mat, projection: Mat)
    requires size <= |s| && index < |s|
    ensures var m := MoveResult(s, size, index, speedUp, root);
      var t := MoveWithCameraResult(s, size, index, speedUp, root, view, projection);
      t[index].matrices.mvp == Product(Product(projection, view), m[index].matrices.model) &&
      t[index].(matrices := m[index].matrices) == m[index] &&
      forall k | 0 <= k < |s| && k != index :: t[k] == m[k]
  {
  }

  /** `MoveAll`: `Move(i)` for `i` from 2 up to (not including) `n`. */
  function MoveAllResult(s: seq<Shape>, size: nat, n: nat, speedUp: int, root: real -> real): (t: seq<Shape>)
    requires size <= |s| && n <= size
    ensures |t| == |s|
    decreases n
  {
    if n <= 2 then s
    else MoveResult(MoveAllResult(s, size, n - 1, speedUp, root), size, n - 1, speedUp, root)
  }

  /** What `MoveAll` keeps: the two fixed shapes, every body, and the type lists. */
  ghost predicate FixedPairKept(s: seq<Shape>, t: seq<Shape>) {
    |s| == |t| && 2 <= |s| &&
    (forall k | 0 <= k < 2 :: t[k].center == s[k].center && t[k].matrices == s[k].matrices &&
                              (s[k].speed == Zero ==> t[k].speed == Zero)) &&
    (forall k | 0 <= k < |s| :: SameBody(t[k], s[k]))
  }

  /**
   * `MoveAll` starts at index 2, so the enclosing cube and the textured
   * sphere keep their centre and matrices, and, being at rest, their zero
   * speed: collisions never set them moving.
   */
  lemma {:induction false} MoveAllKeepsFixedPair(s: seq<Shape>, size: nat, n: nat, speedUp: int, root: real -> real)
    requires size <= |s| && n <= size && 2 <= |s|
    ensures FixedPairKept(s, MoveAllResult(s, size, n, speedUp, root))
    decreases n
  {
    if n > 2 {
      var prev := MoveAllResult(s, size, n - 1, speedUp, root);
      MoveAllKeepsFixedPair(s, size, n - 1, speedUp, root);
      MoveEffect(prev, size, n - 1, speedUp, root);
    }
  }

  /** `MoveAll(view, projection)`: `Move(i, view, projection)` for `i` from 2 up to `n`. */
  function MoveAllWithCameraResult(s: seq<Shape>, size: nat, n: nat, speedUp: int, root: real -> real,
                                   view: Mat, projection: Mat): (t: seq<Shape>)
    requires size <= |s| && n <= size
    ensures |t| == |s|
    decreases n
  {
    if n <= 2 then s
    else MoveWithCameraResult(MoveAllWithCameraResult(s, size, n - 1, speedUp, root, view, projection),
                              size, n - 1, speedUp, root, view, projection)
  }

  /**
   * One camera move of the shape at `i`: every other shape keeps its body,
   * centre and matrices, a resting one its zero speed; the moved one keeps
   * its body and gets the `mvp` of its new model.
   */
  ghost predicate CameraStepped(prev: seq<Shape>, t: seq<Shape>, i: nat, view: Mat, projection: Mat) {
    |t| == |prev| && i < |t| &&
    (forall k | 0 <= k < |prev| && k != i :: Kept(prev[k], t[k])) &&
    SameBody(t[i], prev[i]) && MvpFollowsModel(t[i], view, projection)
  }

  /** `mvp == projection * view * model`. */
  ghost predicate MvpFollowsModel(sh: Shape, view: Mat, projection: Mat) {
    sh.matrices.mvp == Product(Product(projection, view), sh.matrices.model)
  }

  lemma CameraStep(s: seq<Shape>, size: nat, index: nat, speedUp: int, root: real -> real, view: Mat, projection: Mat)
    requires size <= |s| && index < |s|
    ensures CameraStepped(s, MoveWithCameraResult(s, size, index, speedUp, root, view, projection), index, view, projection)
  {
    MoveEffect(s, size, index, speedUp, root);
    MoveWithCameraEffect(s, size, index, speedUp, root, view, projection);
  }

  /** The camera variant of `MoveAll` keeps the two fixed shapes as `MoveAll` does. */
  lemma {:induction false} MoveAllWithCameraKeepsFixedPair(s: seq<Shape>, size: nat, n: nat, speedUp: int,
                                                           root: real -> real, view: Mat, projection: Mat)
    requires size <= |s| && n <= size && 2 <= |s|
    ensures FixedPairKept(s, MoveAllWithCameraResult(s, size, n, speedUp, root, view, projection))
    decreases n
  {
    if n > 2 {
      var prev := MoveAllWithCameraResult(s, size, n - 1, speedUp, root, view, projection);
      MoveAllWithCameraKeepsFixedPair(s, size, n - 1, speedUp, root, view, projection);
      CameraStep(prev, size, n - 1, speedUp, root, view, projection);
    }
  }

  /**
   * Every shape the camera variant of `MoveAll` moved carries the `mvp` of
   * its final model: a later move of another shape changes at most its speed.
   */
  lemma {:induction false} MoveAllWithCameraMvp(s: seq<Shape>, size: nat, n: nat, speedUp: int, root: real -> real,
                                                view: Mat, projection: Mat)
    requires size <= |s| && n <= size
    ensures forall k | 2 <= k < n ::
      MvpFollowsModel(MoveAllWithCameraResult(s, size, n, speedUp, root, view, projection)[k], view, projection)
    decreases n
  {
    if n > 2 {
      var prev := MoveAllWithCameraResult(s, size, n - 1, speedUp, root, view, projection);
      var t := MoveAllWithCameraResult(s, size, n, speedUp, root, view, projection);
      MoveAllWithCameraMvp(s, size, n - 1, speedUp, root, view, projection);
      CameraStep(prev, size, n - 1, speedUp, root, view, projection);
      forall k | 2 <= k < n - 1
        ensures MvpFollowsModel(t[k], view, projection)
      {
        assert Kept(prev[k], t[k]) && MvpFollowsModel(prev[k], view, projection);
      }
    }
  }

  // ---------------------------------------------------------------------
  // The player sphere
  // ---------------------------------------------------------------------

  /** The truncated `int next_center[3]`. */
  function NextCenter(c: Vec3, v: Vec3): (r: Vec3)
    ensures r.x == Trunc(c.x + v.x) as real && r.y == Trunc(c.y + v.y) as real && r.z == Trunc(c.z + v.z) as real
  {
    Vec3(Trunc(c.x + v.x) as real, Trunc(c.y + v.y) as real, Trunc(c.z + v.z) as real)
  }

  /** All coordinates of `p` within `[d/2, 100 - d/2]`. */
  predicate InArena(p: Vec3, d: real) {
    var upper := 100.0 - d / 2.0;
    var lower := d / 2.0;
    !(p.x > upper || p.y > upper || p.z > upper || p.x < lower || p.y < lower || p.z < lower)
  }

  /**
   * `MoveSphere(index, speed)`: the collision check always runs; the move
   * is taken only when the truncated next centre stays in the arena.
   */
  function MoveSphereResult(s: seq<Shape>, size: nat, index: nat, v: Vec3, root: real -> real): (t: seq<Shape>)
    requires size <= |s| && index < |s|
    ensures |t| == |s|
  {
    var next := NextCenter(s[index].center, v);
    var c := CheckCollisionResult(s, size, index, root);
    if !InArena(next, s[index].d) then c
    else c[index := c[index].(matrices := c[index].matrices.(model := Translated(v, c[index].matrices.model)),
                              center := next)]
  }

  /**
   * Outside the arena the centre stays where it was; inside, it becomes
   * the truncated next position while the model matrix is translated by
   * the untruncated `v`; every other shape changes at most its speed.
   */
  lemma MoveSphereEffect(s: seq<Shape>, size: nat, index: nat, v: Vec3, root: real -> real)
    requires size <= |s| && index < |s|
    ensures var t := MoveSphereResult(s, size, index, v, root);
      var next := NextCenter(s[index].center, v);
      (!InArena(next, s[index].d) ==> t[index].center == s[index].center && t[index].matrices == s[index].matrices) &&
      (InArena(next, s[index].d) ==>
         t[index].center == next && t[index].matrices.model == Translated(v, s[index].matrices.model)) &&
      SpeedsOnly(s, t[index := s[index].(speed := t[index].speed)])
  {
    var t := MoveSphereResult(s, size, index, v, root);
    var c := CheckCollisionResult(s, size, index, root);
    CheckCollisionEffect(s, size, index, root);
    var u := t[index := s[index].(speed := t[index].speed)];
    assert forall k | 0 <= k < |s| && k != index :: u[k] == c[k];
  }

  /** A sphere of extent 30 at (50, 50, 50) asked to move by (60, 0, 0) stays put. */
  lemma MoveSphereRejected(s: seq<Shape>, size: nat, index: nat, root: real -> real)
    requires size <= |s| && index < |s|
    requires s[index].d == 30.0 && s[index].center == Vec3(50.0, 50.0, 50.0)
    ensures MoveSphereResult(s, size, index, Vec3(60.0, 0.0, 0.0), root)[index].center == Vec3(50.0, 50.0, 50.0)
  {
    var next := NextCenter(s[index].center, Vec3(60.0, 0.0, 0.0));
    assert next.x == 110.0;
    assert !InArena(next, 30.0);
    CheckCollisionEffect(s, size, index, root);
  }

  /**
   * The centre snaps to whole numbers while the model matrix takes the
   * full step: a step of 0.5 from (50, 50, 50) leaves the centre in place
   * yet translates the model.
   */
  lemma MoveSphereSnaps(s: seq<Shape>, size: nat, index: nat, root: real -> real)
    requires size <= |s| && index < |s|
    requires s[index].d == 30.0 && s[index].center == Vec3(50.0, 50.0, 50.0)
    ensures var t := MoveSphereResult(s, size, index, Vec3(0.5, 0.0, 0.0), root);
      t[index].center == s[index].center &&
      t[index].matrices.model == Translated(Vec3(0.5, 0.0, 0.0), s[index].matrices.model)
  {
    var next := NextCenter(s[index].center, Vec3(0.5, 0.0, 0.0));
    assert next == Vec3(50.0, 50.0, 50.0);
    MoveSphereEffect(s, size, index, Vec3(0.5, 0.0, 0.0), root);
  }

  // ---------------------------------------------------------------------
  // Speed modifier and colours
  // ---------------------------------------------------------------------

  /** `SpeedUP(up)`: a counter bounded by 0 and `MAX_SPEEDUP`. */
  function NextSpeedUp(level: int, up: bool): (n: int)
    ensures 0 <= level <= MAX_SPEEDUP ==> 0 <= n <= MAX_SPEEDUP
    ensures -1 <= n - level <= 1
    ensures up ==> n == (if level < MAX_SPEEDUP then level + 1 else level)
    ensures !up ==> n == (if level > 0 then level - 1 else level)
  {
    if level < MAX_SPEEDUP && up then level + 1
    else if level > 0 && !up then level - 1
    else level
  }

  /** Away from the bounds, one step up and one step down cancel out. */
  lemma SpeedUpDownCancel(level: int)
    requires 0 <= level < MAX_SPEEDUP
    ensures NextSpeedUp(NextSpeedUp(level, true), false) == level
  {
  }

  /** `GetColor(index)`: the colour of a valid shape, `nullptr` (None) otherwise. */
  function ColorAt(s: seq<Shape>, size: nat, index: int): (c: Option<Color>)
    requires size <= |s|
    ensures c.Some? <==> 0 <= index < size
  {
    // `index < size` compares the int with an unsigned count, so a negative index fails.
    if 0 <= index < size then Some(s[index].color) else None
  }

  /** A colour set on a valid shape is the one read back. */
  lemma SetColorThenGet(s: seq<Shape>, size: nat, index: int, r: real, g: real, b: real, a: real)
    requires size <= |s| && 0 <= index < size
    ensures ColorAt(s[index := SetColor(s[index], r, g, b, a)], size, index) == Some(Color(r, g, b, a))
    ensures forall k | 0 <= k < size && k != index ::
              ColorAt(s[index := SetColor(s[index], r, g, b, a)], size, k) == ColorAt(s, size, k)
  {
  }

  // ---------------------------------------------------------------------
  // The grid of random shapes
  // ---------------------------------------------------------------------

  /**
   * `perAxis = ceil(cbrt(amount))`, stated as the integer it denotes:
   * no positive count for a non-positive amount, otherwise the least `p`
   * with `p^3 >= amount`.
   */
  predicate IsCeilCbrt(amount: int, p: int) {
    if amount <= 0 then p <= 0
    else p >= 1 && (p - 1) * (p - 1) * (p - 1) < amount <= p * p * p
  }

  /** `i * 100.f / perAxis`. */
  function GridCoord(i: int, p: int): real
    requires p > 0
  {
    (i as real * 100.0) / (p as real)
  }

  lemma GridCoordRange(i: int, p: int)
    requires 0 <= i < p
    ensures 0.0 <= GridCoord(i, p) < 100.0
  {
    assert i as real < p as real;
    assert i as real * 100.0 < p as real * 100.0;
  }

  /** Progress of `CreateRandomShapes`: shapes made, factory flags, no exception yet, draws used. */
  datatype Run = Run(made: seq<Shape>, flags: Flags, ok: bool, used: nat)

  ghost predicate AllDrawsOk(draws: nat -> RandomDraw) {
    forall n: nat :: DrawOk(draws(n))
  }

  /**
   * One `AddShape(&CreateRandomShape(px, py, pz))`. A missing prototype
   * throws before anything is added; a shape of an unknown type is pushed
   * and then throws; either way the run stops.
   */
  function GridStep(st: Run, protos: seq<Shape>, draws: nat -> RandomDraw, x: real, y: real, z: real): (r: Run)
    requires AllDrawsOk(draws)
  {
    if !st.ok then st
    else
      var d := draws(st.used);
      var c := RandomShapeResult(st.flags, protos, x, y, z, d);
      if c.None? then st.(ok := false)
      else Run(st.made + [c.value], CreateShapeFlags(st.flags, d.shapeType), IsShapeType(c.value.shapeType), st.used + 1)
  }

  /** The first `k` shapes of row `(i, j)`. */
  function RowRun(st: Run, protos: seq<Shape>, draws: nat -> RandomDraw, p: int, i: int, j: int, k: nat): Run
    requires AllDrawsOk(draws) && p > 0
    decreases k
  {
    if k == 0 then st
    else GridStep(RowRun(st, protos, draws, p, i, j, k - 1), protos, draws,
                  GridCoord(i, p), GridCoord(j, p), GridCoord(k - 1, p))
  }

  /** The first `j` rows of plane `i`. */
  function PlaneRun(st: Run, protos: seq<Shape>, draws: nat -> RandomDraw, p: int, i: int, j: nat): Run
    requires AllDrawsOk(draws) && p > 0
    decreases j
  {
    if j == 0 then st
    else RowRun(PlaneRun(st, protos, draws, p, i, j - 1), protos, draws, p, i, j - 1, p)
  }

  /** The first `i` planes of the grid. */
  function GridRun(st: Run, protos: seq<Shape>, draws: nat -> RandomDraw, p: int, i: nat): Run
    requires AllDrawsOk(draws) && p > 0
    decreases i
  {
    if i == 0 then st
    else PlaneRun(GridRun(st, protos, draws, p, i - 1), protos, draws, p, i - 1, p)
  }

  /** What a run adds: one shape per draw used, and success is never regained. */
  ghost predicate Grew(a: Run, b: Run, n: nat) {
    |b.made| - |a.made| == b.used - a.used &&
    |a.made| <= |b.made| && b.made[..|a.made|] == a.made &&
    (b.ok ==> a.ok && b.used == a.used + n)
  }

  lemma MulStep(a: int, b: int)
    ensures (a - 1) * b + b == a * b
  {
  }

  lemma GrewTransitive(a: Run, b: Run, c: Run, m: nat, n: nat)
    requires Grew(a, b, m) && Grew(b, c, n)
    ensures Grew(a, c, m + n)
  {
    assert c.made[..|a.made|] == c.made[..|b.made|][..|a.made|];
  }

  lemma {:induction false} RowRunGrows(st: Run, protos: seq<Shape>, draws: nat -> RandomDraw, p: int, i: int, j: int, k: nat)
    requires AllDrawsOk(draws) && p > 0 && |st.made| <= st.used
    ensures Grew(st, RowRun(st, protos, draws, p, i, j, k), k)
    decreases k
  {
    if k > 0 {
      var prev := RowRun(st, protos, draws, p, i, j, k - 1);
      RowRunGrows(st, protos, draws, p, i, j, k - 1);
      var next := RowRun(st, protos, draws, p, i, j, k);
      assert Grew(prev, next, 1) by {
        if prev.ok && next.made != prev.made {
          assert next.made[..|prev.made|] == prev.made;
        }
      }
      GrewTransitive(st, prev, next, k - 1, 1);
    }
  }

  lemma {:induction false} PlaneRunGrows(st: Run, protos: seq<Shape>, draws: nat -> RandomDraw, p: int, i: int, j: nat)
    requires AllDrawsOk(draws) && p > 0 && |st.made| <= st.used
    ensures Grew(st, PlaneRun(st, protos, draws, p, i, j), j * p)
    decreases j
  {
    if j > 0 {
      var prev := PlaneRun(st, protos, draws, p, i, j - 1);
      PlaneRunGrows(st, protos, draws, p, i, j - 1);
      RowRunGrows(prev, protos, draws, p, i, j - 1, p);
      GrewTransitive(st, prev, PlaneRun(st, protos, draws, p, i, j), (j - 1) * p, p);
      MulStep(j, p);
    }
  }

  lemma {:induction false} GridRunGrows(st: Run, protos: seq<Shape>, draws: nat -> RandomDraw, p: int, i: nat)
    requires AllDrawsOk(draws) && p > 0 && |st.made| <= st.used
    ensures Grew(st, GridRun(st, protos, draws, p, i), i * (p * p))
    decreases i
  {
    if i > 0 {
      var prev := GridRun(st, protos, draws, p, i - 1);
      GridRunGrows(st, protos, draws, p, i - 1);
      PlaneRunGrows(prev, protos, draws, p, i - 1, p);
      GrewTransitive(st, prev, GridRun(st, protos, draws, p, i), (i - 1) * (p * p), p * p);
      MulStep(i, p * p);
    }
  }

  /**
   * When nothing throws, `CreateRandomShapes(amount)` adds `perAxis^3`
   * shapes, at least `amount` and fewer than `amount + 3 perAxis^2`.
   */
  lemma GridCount(protos: seq<Shape>, draws: nat -> RandomDraw, f: Flags, amount: int, p: int)
    requires AllDrawsOk(draws) && IsCeilCbrt(amount, p) && p > 0
    ensures var r := GridRun(Run([], f, true, 0), protos, draws, p, p);
      r.ok ==> |r.made| == p * (p * p) && amount <= |r.made| < amount + 3 * p * p
  {
    GridRunGrows(Run([], f, true, 0), protos, draws, p, p);
    CeilCbrtBounds(amount, p);
  }

  /** `perAxis^3` overshoots `amount` by less than `3 perAxis^2`. */
  lemma CeilCbrtBounds(amount: int, p: int)
    requires IsCeilCbrt(amount, p) && p > 0
    ensures amount <= p * (p * p) < amount + 3 * p * p
  {
    assert (p - 1) * (p - 1) * (p - 1) == p * p * p - 3 * p * p + 3 * p - 1;
  }

  /**
   * `sh` is what `CreateRandomShape(px, py, pz)` builds from draw `d` at
   * grid point `(i, j, k)`, with `px = i * 100 / perAxis` and so on, for
   * some state of the first-build flags.
   */
  ghost predicate GridPlaced(sh: Shape, protos: seq<Shape>, d: RandomDraw, p: int, i: int, j: int, k: int) {
    p > 0 && DrawOk(d) &&
    exists f: Flags :: RandomShapeResult(f, protos, GridCoord(i, p), GridCoord(j, p), GridCoord(k, p), d) == Some(sh)
  }

  /** `b` continues `a`: it keeps `a`'s shapes in front, and succeeds only if `a` did. */
  ghost predicate Extends(a: Run, b: Run) {
    |a.made| <= |b.made| && b.made[..|a.made|] == a.made && (b.ok ==> a.ok)
  }

  lemma ExtendsTransitive(a: Run, b: Run, c: Run)
    requires Extends(a, b) && Extends(b, c)
    ensures Extends(a, c)
  {
    assert c.made[..|a.made|] == c.made[..|b.made|][..|a.made|];
  }

  lemma ExtendsReflexive(a: Run)
    ensures Extends(a, a)
  {
    assert a.made[..|a.made|] == a.made;
  }

  lemma StepExtends(st: Run, protos: seq<Shape>, draws: nat -> RandomDraw, x: real, y: real, z: real)
    requires AllDrawsOk(draws)
    ensures Extends(st, GridStep(st, protos, draws, x, y, z))
  {
    var next := GridStep(st, protos, draws, x, y, z);
    if next.made == st.made {
      ExtendsReflexive(st);
    } else {
      assert next.made[..|st.made|] == st.made;
    }
  }

  lemma {:induction false} RowExtends(st: Run, protos: seq<Shape>, draws: nat -> RandomDraw, p: int, i: int, j: int, k: nat, kk: nat)
    requires AllDrawsOk(draws) && p > 0 && k <= kk
    ensures Extends(RowRun(st, protos, draws, p, i, j, k), RowRun(st, protos, draws, p, i, j, kk))
    decreases kk
  {
    if k == kk {
      ExtendsReflexive(RowRun(st, protos, draws, p, i, j, k));
    } else {
      var prev := RowRun(st, protos, draws, p, i, j, kk - 1);
      RowExtends(st, protos, draws, p, i, j, k, kk - 1);
      StepExtends(prev, protos, draws, GridCoord(i, p), GridCoord(j, p), GridCoord(kk - 1, p));
      ExtendsTransitive(RowRun(st, protos, draws, p, i, j, k), prev, RowRun(st, protos, draws, p, i, j, kk));
    }
  }

  lemma {:induction false} PlaneExtends(st: Run, protos: seq<Shape>, draws: nat -> RandomDraw, p: int, i: int, j: nat, jj: nat)
    requires AllDrawsOk(draws) && p > 0 && j <= jj
    ensures Extends(PlaneRun(st, protos, draws, p, i, j), PlaneRun(st, protos, draws, p, i, jj))
    decreases jj
  {
    if j == jj {
      ExtendsReflexive(PlaneRun(st, protos, draws, p, i, j));
    } else {
      var prev := PlaneRun(st, protos, draws, p, i, jj - 1);
      PlaneExtends(st, protos, draws, p, i, j, jj - 1);
      RowExtends(prev, protos, draws, p, i, jj - 1, 0, p);
      ExtendsTransitive(PlaneRun(st, protos, draws, p, i, j), prev, PlaneRun(st, protos, draws, p, i, jj));
    }
  }

  lemma {:induction false} GridExtends(st: Run, protos: seq<Shape>, draws: nat -> RandomDraw, p: int, i: nat, ii: nat)
    requires AllDrawsOk(draws) && p > 0 && i <= ii
    ensures Extends(GridRun(st, protos, draws, p, i), GridRun(st, protos, draws, p, ii))
    decreases ii
  {
    if i == ii {
      ExtendsReflexive(GridRun(st, protos, draws, p, i));
    } else {
      var prev := GridRun(st, protos, draws, p, ii - 1);
      GridExtends(st, protos, draws, p, i, ii - 1);
      PlaneExtends(prev, protos, draws, p, ii - 1, 0, p);
      ExtendsTransitive(GridRun(st, protos, draws, p, i), prev, GridRun(st, protos, draws, p, ii));
    }
  }

  /** The run just before the step of grid point `(i, j, k)`. */
  ghost function Before(st: Run, protos: seq<Shape>, draws: nat -> RandomDraw, p: int, i: nat, j: nat, k: nat): Run
    requires AllDrawsOk(draws) && p > 0
  {
    RowRun(PlaneRun(GridRun(st, protos, draws, p, i), protos, draws, p, i, j), protos, draws, p, i, j, k)
  }

  /** The run just after it, as a prefix of the whole grid run. */
  lemma AfterExtendsToEnd(st: Run, protos: seq<Shape>, draws: nat -> RandomDraw, p: int, i: nat, j: nat, k: nat)
    requires AllDrawsOk(draws) && i < p && j < p && k < p
    ensures var g := GridRun(st, protos, draws, p, i);
      var after := RowRun(PlaneRun(g, protos, draws, p, i, j), protos, draws, p, i, j, k + 1);
      Extends(after, GridRun(st, protos, draws, p, p))
  {
    var g := GridRun(st, protos, draws, p, i);
    var pl := PlaneRun(g, protos, draws, p, i, j);
    var after := RowRun(pl, protos, draws, p, i, j, k + 1);
    RowExtends(pl, protos, draws, p, i, j, k + 1, p);
    assert RowRun(pl, protos, draws, p, i, j, p) == PlaneRun(g, protos, draws, p, i, j + 1);
    PlaneExtends(g, protos, draws, p, i, j + 1, p);
    assert PlaneRun(g, protos, draws, p, i, p) == GridRun(st, protos, draws, p, i + 1);
    GridExtends(st, protos, draws, p, i + 1, p);
    ExtendsTransitive(after, PlaneRun(g, protos, draws, p, i, j + 1), GridRun(st, protos, draws, p, i + 1));
    ExtendsTransitive(after, GridRun(st, protos, draws, p, i + 1), GridRun(st, protos, draws, p, p));
  }

  /** The step of grid point `(i, j, k)` puts its shape right after the ones before it, and the rest of the run keeps it. */
  lemma StepPlaced(st: Run, protos: seq<Shape>, draws: nat -> RandomDraw, p: int, i: nat, j: nat, k: nat)
    requires AllDrawsOk(draws) && i < p && j < p && k < p
    ensures var pre := Before(st, protos, draws, p, i, j, k);
      var r := GridRun(st, protos, draws, p, p);
      r.ok ==> pre.ok && |pre.made| < |r.made| && GridPlaced(r.made[|pre.made|], protos, draws(pre.used), p, i, j, k)
  {
    var pre := Before(st, protos, draws, p, i, j, k);
    var g := GridRun(st, protos, draws, p, i);
    var after := RowRun(PlaneRun(g, protos, draws, p, i, j), protos, draws, p, i, j, k + 1);
    var r := GridRun(st, protos, draws, p, p);
    AfterExtendsToEnd(st, protos, draws, p, i, j, k);
    assert after == GridStep(pre, protos, draws, GridCoord(i, p), GridCoord(j, p), GridCoord(k, p));
    if r.ok {
      var c := RandomShapeResult(pre.flags, protos, GridCoord(i, p), GridCoord(j, p), GridCoord(k, p), draws(pre.used));
      assert after.made == pre.made + [c.value];
      assert r.made[|pre.made|] == r.made[..|after.made|][|pre.made|];
    }
  }

  /** From an empty start, the shapes before grid point `(i, j, k)` number `(i * perAxis + j) * perAxis + k`, one per draw. */
  lemma BeforeCount(protos: seq<Shape>, draws: nat -> RandomDraw, f: Flags, p: int, i: nat, j: nat, k: nat)
    requires AllDrawsOk(draws) && i < p && j < p && k < p
    ensures var pre := Before(Run([], f, true, 0), protos, draws, p, i, j, k);
      pre.ok ==> |pre.made| == pre.used == (i * p + j) * p + k
  {
    var st := Run([], f, true, 0);
    var g := GridRun(st, protos, draws, p, i);
    var pl := PlaneRun(g, protos, draws, p, i, j);
    GridRunGrows(st, protos, draws, p, i);
    PlaneRunGrows(g, protos, draws, p, i, j);
    RowRunGrows(pl, protos, draws, p, i, j, k);
    GrewTransitive(st, g, pl, i * (p * p), j * p);
    GrewTransitive(st, pl, RowRun(pl, protos, draws, p, i, j, k), i * (p * p) + j * p, k);
    GridIndex(i, j, k, p);
  }

  /** The loop order numbers grid point `(i, j, k)` as `(i * perAxis + j) * perAxis + k`. */
  lemma GridIndex(i: int, j: int, k: int, p: int)
    requires 0 <= i < p && 0 <= j < p && 0 <= k < p
    ensures (i * p + j) * p + k == i * (p * p) + j * p + k >= 0
  {
    assert i * (p * p) >= 0 && j * p >= 0;
  }

  /**
   * The placement `CreateRandomShapes` promises: when no shape throws, the
   * shape added `n = (i * perAxis + j) * perAxis + k`-th is the random
   * shape drawn from `draws(n)` at `(i * 100 / perAxis, j * 100 / perAxis,
   * k * 100 / perAxis)`, a point inside the `[0, 100)` cube.
   */
  lemma GridPlacement(protos: seq<Shape>, draws: nat -> RandomDraw, f: Flags, p: int, i: int, j: int, k: int)
    requires AllDrawsOk(draws) && 0 <= i < p && 0 <= j < p && 0 <= k < p
    ensures var r := GridRun(Run([], f, true, 0), protos, draws, p, p);
      var n := (i * p + j) * p + k;
      r.ok ==> 0 <= n < |r.made| && GridPlaced(r.made[n], protos, draws(n), p, i, j, k)
    ensures 0.0 <= GridCoord(i, p) < 100.0 && 0.0 <= GridCoord(j, p) < 100.0 && 0.0 <= GridCoord(k, p) < 100.0
  {
    StepPlaced(Run([], f, true, 0), protos, draws, p, i, j, k);
    BeforeCount(protos, draws, f, p, i, j, k);
    GridCoordRange(i, p);
    GridCoordRange(j, p);
    GridCoordRange(k, p);
  }

  /**
   * A cube, sphere or cylinder placed at grid point `(i, j, k)` is centred
   * half its drawn size past the grid point on each axis, colored and
   * moving as drawn.
   */
  lemma GridPlacedCentre(sh: Shape, protos: seq<Shape>, d: RandomDraw, p: int, i: int, j: int, k: int)
    requires GridPlaced(sh, protos, d, p, i, j, k) && ShapeKind(d.shapeType) != T_RING
    ensures sh.center == Vec3(GridCoord(i, p) + d.shapeSize as real / 2.0, GridCoord(j, p) + d.shapeSize as real / 2.0,
                              GridCoord(k, p) + d.shapeSize as real / 2.0)
    ensures sh.d == d.shapeSize as real && sh.color == Color(d.r, d.g, d.b, 1.0) && sh.speed == Vec3(d.vx, d.vy, d.vz)
  {
    var x, y, z := GridCoord(i, p), GridCoord(j, p), GridCoord(k, p);
    var f: Flags :| RandomShapeResult(f, protos, x, y, z, d) == Some(sh);
    RandomShapeFacts(f, protos, x, y, z, d);
    CreateShapeExtent(f, protos, x, y, z, d.shapeSize, d.shapeType, d.ringJitter, d.ringDivisor);
  }

  /** The four floats of shape slot `i` hold colour `c`. */
  ghost predicate ColorCells(cells: seq<real>, i: nat, c: Color) {
    4 * i + 3 < |cells| &&
    cells[4 * i] == c.r && cells[4 * i + 1] == c.g && cells[4 * i + 2] == c.b && cells[4 * i + 3] == c.a
  }

  /** Writes colour `c` into slot `i`, leaving every other cell alone. */
  method WriteColor(out: array<real>, i: nat, c: Color)
    requires 4 * i + 3 < out.Length
    modifies out
    ensures ColorCells(out[..], i, c)
    ensures forall k | 0 <= k < out.Length && !(4 * i <= k < 4 * i + 4) :: out[k] == old(out[k])
  {
    out[4 * i] := c.r;
    out[4 * i + 1] := c.g;
    out[4 * i + 2] := c.b;
    out[4 * i + 3] := c.a;
  }

  // ---------------------------------------------------------------------
  // The collection object
  // ---------------------------------------------------------------------

  class DynamicShapeArray {
    /** `shapeArray`: every shape pushed, in insertion order. */
    var shapes: seq<Shape>
    /** `shapeTypeArray`: positions of the shapes of each type. */
    var byType: seq<seq<nat>>
    /** The number of shapes fully added. */
    var size: nat
    /** `speedUP`, the speed modifier. */
    var speedUp: int
    const factory: ShapeFactory
    /** The square root the arithmetic links against. */
    const root: real -> real

    /**
     * The factory keeps its tables, each per-type list holds the positions
     * of exactly the shapes of its type, `size` counts the typed shapes,
     * and the modifier lies in `[0, MAX_SPEEDUP]`.
     */
    ghost predicate Valid()
      reads this, factory, factory.sphereIndices, factory.cylinderIndices, factory.ringIndices
    {
      factory.Valid() &&
      byType == TypeLists(shapes) &&
      size == ValidCount(shapes) && size <= |shapes| &&
      0 <= speedUp <= MAX_SPEEDUP
    }

    /** Re-establishes the lists after a change that kept every type. */
    lemma ListsFollowTypes(before: seq<Shape>)
      requires |before| == |shapes| && forall k | 0 <= k < |shapes| :: before[k].shapeType == shapes[k].shapeType
      requires byType == TypeLists(before)
      requires size == ValidCount(before) && size <= |before|
      ensures byType == TypeLists(shapes)
      ensures size == ValidCount(shapes) && size <= |shapes|
    {
      IndicesOfTypeSameTypes(before, shapes, T_CUBE);
      IndicesOfTypeSameTypes(before, shapes, T_SPHERE);
      IndicesOfTypeSameTypes(before, shapes, T_CYLINDER);
      IndicesOfTypeSameTypes(before, shapes, T_RING);
    }

    /** An empty collection with a fresh factory and the default modifier. */
    constructor(root: real -> real)
      ensures Valid() && fresh(factory) && fresh(factory.ringIndices)
      ensures shapes == [] && size == 0 && speedUp == DEFAULT_SPEEDUP && this.root == root
      ensures factory.prototypes == [] && factory.flags == AllFirst
    {
      shapes := [];
      byType := [[], [], [], []];
      size := 0;
      speedUp := DEFAULT_SPEEDUP;
      factory := new ShapeFactory();
      this.root := root;
    }

    /** `InitFactoryPrototypes`. */
    method InitFactoryPrototypes() returns (ok: bool)
      requires Valid()
      modifies factory, factory.ringIndices
      ensures Valid()
      ensures old(factory.flags) == AllFirst ==>
        ok && factory.prototypes == old(factory.prototypes) + StandardPrototypes() && factory.flags == NoneFirst
      ensures ok ==> |factory.prototypes| == |old(factory.prototypes)| + 4 &&
                     factory.prototypes[..|old(factory.prototypes)|] == old(factory.prototypes)
    {
      ok := factory.InitPrototypes();
    }

    /**
     * `AddShape`: the shape is always pushed; a shape with a type code
     * outside 0..3 then makes `shapeTypeArray.at` throw (`ok == false`)
     * before it is listed or counted.
     */
    method AddShape(x: Shape) returns (ok: bool)
      requires Valid()
      modifies this
      ensures Valid() && ok == IsShapeType(x.shapeType)
      ensures shapes == old(shapes) + [x] && speedUp == old(speedUp)
      ensures size == old(size) + (if ok then 1 else 0)
    {
      ok := IsShapeType(x.shapeType);
      if ok {
        ListsAfterTypedAppend(byType, shapes, x);
      } else {
        ListsAfterUntypedAppend(byType, shapes, x);
      }
      shapes := shapes + [x];
      if ok {
        var t := x.shapeType;
        byType := byType[t := byType[t] + [|shapes| - 1]];
        size := size + 1;
      }
    }

    /** `CreateShape(x, y, z, size, type)`; `ok == false` when the factory or `AddShape` throws. */
    method CreateShape(x: real, y: real, z: real, elementSize: int, shapeType: int,
                       jitter: real, divisor: int) returns (ok: bool)
      requires Valid() && RingDrawOk(divisor)
      modifies this, factory, factory.ringIndices
      ensures Valid() && speedUp == old(speedUp) && factory.prototypes == old(factory.prototypes)
      ensures factory.flags == CreateShapeFlags(old(factory.flags), shapeType)
      ensures var r := CreateShapeResult(old(factory.flags), old(factory.prototypes), x, y, z,
                                         elementSize, shapeType, jitter, divisor);
        (r.None? ==> !ok && shapes == old(shapes)) &&
        (r.Some? ==> shapes == old(shapes) + [r.value] && ok == IsShapeType(r.value.shapeType))
    {
      var r := factory.CreateShape(x, y, z, elementSize, shapeType, jitter, divisor);
      if r.None? {
        return false;
      }
      ok := AddShape(r.value);
    }

    /** `CreateRandomShape()`: a random shape at the origin corner, added. */
    method CreateRandomShape(draw: RandomDraw) returns (ok: bool)
      requires Valid() && DrawOk(draw)
      modifies this, factory, factory.ringIndices
      ensures Valid() && speedUp == old(speedUp) && factory.prototypes == old(factory.prototypes)
      ensures factory.flags == CreateShapeFlags(old(factory.flags), draw.shapeType)
      ensures var r := RandomShapeResult(old(factory.flags), old(factory.prototypes), 0.0, 0.0, 0.0, draw);
        (r.None? ==> !ok && shapes == old(shapes)) &&
        (r.Some? ==> shapes == old(shapes) + [r.value] && ok == IsShapeType(r.value.shapeType))
    {
      var r := factory.CreateRandomShape(0.0, 0.0, 0.0, draw);
      if r.None? {
        return false;
      }
      ok := AddShape(r.value);
    }

    /** `SetColor(index, r, g, b, a)`: only that shape's colour changes. */
    method SetColor(index: nat, r: real, g: real, b: real, a: real)
      requires Valid() && index < |shapes|
      modifies this
      ensures Valid() && shapes == old(shapes)[index := Factory.SetColor(old(shapes)[index], r, g, b, a)]
      ensures size == old(size) && byType == old(byType) && speedUp == old(speedUp)
    {
      ghost var before := shapes;
      shapes := shapes[index := Factory.SetColor(shapes[index], r, g, b, a)];
      ListsFollowTypes(before);
    }

    /** `SetRandomColor(index, alpha)` with the three drawn components passed in. */
    method SetRandomColor(index: nat, alpha: real, r: real, g: real, b: real)
      requires Valid() && index < |shapes|
      requires 0.0 <= r <= 1.0 && 0.0 <= g <= 1.0 && 0.0 <= b <= 1.0
      modifies this
      ensures Valid() && shapes == old(shapes)[index := Factory.SetColor(old(shapes)[index], r, g, b, alpha)]
      ensures size == old(size) && byType == old(byType) && speedUp == old(speedUp)
    {
      SetColor(index, r, g, b, alpha);
    }

    /** `GetColor(index)`. */
    method GetColor(index: int) returns (c: Option<Color>)
      requires Valid()
      ensures c == ColorAt(shapes, size, index)
      ensures c.Some? ==> c.value == shapes[index].color
    {
      if index < size as int && 0 <= index {
        c := Some(shapes[index].color);
      } else {
        c := None;
      }
    }

    /** `Collide(obstacle, mover)`. */
    method Collide(obstacle: nat, mover: nat)
      requires obstacle < |shapes| && mover < |shapes|
      modifies this
      ensures shapes == CollideOn(old(shapes), obstacle, mover, root)
      ensures size == old(size) && byType == old(byType) && speedUp == old(speedUp)
    {
      var sh := shapes[mover];
      if sh.speed == Zero {
        RestingMoverStays(shapes[obstacle], sh, root);
        assert shapes[mover := sh] == shapes;
        return;
      }
      shapes := shapes[mover := sh.(speed := CollideSpeed(shapes[obstacle], sh, root))];
    }

    /** One iteration of the `CheckCollision` loop, against the shape at `other`. */
    method CheckPair(index: nat, bigPos: Vec3, other: nat)
      requires index < |shapes| && other < |shapes|
      modifies this
      ensures shapes == PairStep(old(shapes), index, bigPos, other, root)
      ensures size == old(size) && byType == old(byType) && speedUp == old(speedUp)
    {
      if other == index {
        return;
      }
      var them := shapes[other];
      var me := shapes[index];
      if Overlap(me, bigPos, them, Add(them.center, them.speed)) {
        var swap := IndexGoesFirst(me.shapeType, them.shapeType);
        var first := if swap then index else other;
        var second := if swap then other else index;
        Collide(first, second);
        Collide(second, first);
      }
    }

    /** The `CheckCollision` loop over the first `size` shapes. */
    method CheckAll(index: nat, bigPos: Vec3)
      requires index < |shapes| && size <= |shapes|
      modifies this
      ensures shapes == CheckPass(old(shapes), index, bigPos, old(size), root)
      ensures size == old(size) && byType == old(byType) && speedUp == old(speedUp)
    {
      ghost var s0 := shapes;
      for i := 0 to size
        invariant |shapes| == |s0| && size == old(size) && byType == old(byType) && speedUp == old(speedUp)
        invariant shapes == CheckPass(s0, index, bigPos, i, root)
      {
        CheckPair(index, bigPos, i);
      }
    }

    /** `CheckCollision(index)`. */
    method CheckCollision(index: int)
      requires size <= |shapes|
      modifies this
      ensures shapes == CheckCollisionResult(old(shapes), old(size), index, root)
      ensures size == old(size) && byType == old(byType) && speedUp == old(speedUp)
      ensures old(Valid()) ==> Valid()
    {
      ghost var wasValid := Valid();
      ghost var s0 := shapes;
      if index >= size as int || index < 2 {
        return;
      }
      CheckAll(index, Add(shapes[index].center, shapes[index].speed));
      if wasValid {
        ListsFollowTypes(s0);
      }
    }

    /** `Move(index)`. */
    method Move(index: nat)
      requires size <= |shapes| && index < |shapes|
      modifies this
      ensures shapes == MoveResult(old(shapes), old(size), index, old(speedUp), root)
      ensures size == old(size) && byType == old(byType) && speedUp == old(speedUp)
      ensures old(Valid()) ==> Valid()
    {
      if shapes[index].speed == Zero {
        return;
      }
      ghost var wasValid := Valid();
      ghost var s0 := shapes;
      CheckCollision(index);
      var sh := shapes[index];
      shapes := shapes[index := Moved(sh, StepOf(sh.speed, speedUp))];
      if wasValid {
        MoveEffect(s0, size, index, speedUp, root);
        ListsFollowTypes(s0);
      }
    }

    /** `Move(index, view, projection)`. */
    method MoveWithCamera(index: nat, view: Mat, projection: Mat)
      requires size <= |shapes| && index < |shapes|
      modifies this
      ensures shapes == MoveWithCameraResult(old(shapes), old(size), index, old(speedUp), root, view, projection)
      ensures size == old(size) && byType == old(byType) && speedUp == old(speedUp)
      ensures old(Valid()) ==> Valid()
    {
      Move(index);
      ghost var wasValid := Valid();
      ghost var s0 := shapes;
      var m := shapes[index].matrices;
      shapes := shapes[index := shapes[index].(matrices := m.(mvp := Product(Product(projection, view), m.model)))];
      if wasValid {
        ListsFollowTypes(s0);
      }
    }

    /** The `MoveAll` loop: `Move(i)` for `i` from 2 up to `size`. */
    method MoveEach()
      requires size <= |shapes|
      modifies this
      ensures shapes == MoveAllResult(old(shapes), old(size), old(size), old(speedUp), root)
      ensures size == old(size) && byType == old(byType) && speedUp == old(speedUp)
    {
      if size <= 2 {
        return;
      }
      ghost var s0 := shapes;
      for i := 2 to size
        invariant size == old(size) && byType == old(byType) && speedUp == old(speedUp)
        invariant shapes == MoveAllResult(s0, size, i, speedUp, root)
      {
        Move(i);
      }
    }

    /** `MoveAll()`: every shape from index 2 on. */
    method MoveAll()
      requires size <= |shapes|
      modifies this
      ensures shapes == MoveAllResult(old(shapes), old(size), old(size), old(speedUp), root)
      ensures size == old(size) && byType == old(byType) && speedUp == old(speedUp)
      ensures old(Valid()) ==> Valid()
    {
      ghost var wasValid := Valid();
      ghost var s0 := shapes;
      MoveEach();
      if wasValid && 2 <= |s0| {
        MoveAllKeepsFixedPair(s0, size, size, speedUp, root);
        ListsFollowTypes(s0);
      }
    }

    /** The loop of `MoveAll(view, projection)`. */
    method MoveEachWithCamera(view: Mat, projection: Mat)
      requires size <= |shapes|
      modifies this
      ensures shapes == MoveAllWithCameraResult(old(shapes), old(size), old(size), old(speedUp), root, view, projection)
      ensures size == old(size) && byType == old(byType) && speedUp == old(speedUp)
    {
      if size <= 2 {
        return;
      }
      ghost var s0 := shapes;
      for i := 2 to size
        invariant size == old(size) && byType == old(byType) && speedUp == old(speedUp)
        invariant shapes == MoveAllWithCameraResult(s0, size, i, speedUp, root, view, projection)
      {
        MoveWithCamera(i, view, projection);
      }
    }

    /** `MoveAll(view, projection)`. */
    method MoveAllWithCamera(view: Mat, projection: Mat)
      requires size <= |shapes|
      modifies this
      ensures shapes == MoveAllWithCameraResult(old(shapes), old(size), old(size), old(speedUp), root, view, projection)
      ensures size == old(size) && byType == old(byType) && speedUp == old(speedUp)
      ensures old(Valid()) ==> Valid()
    {
      ghost var wasValid := Valid();
      ghost var s0 := shapes;
      MoveEachWithCamera(view, projection);
      if wasValid && 2 <= |s0| {
        MoveAllWithCameraKeepsFixedPair(s0, size, size, speedUp, root, view, projection);
        ListsFollowTypes(s0);
      }
    }

    /** `MoveSphere(index, speed)`. */
    method MoveSphere(index: nat, v: Vec3)
      requires size <= |shapes| && index < |shapes|
      modifies this
      ensures shapes == MoveSphereResult(old(shapes), old(size), index, v, root)
      ensures size == old(size) && byType == old(byType) && speedUp == old(speedUp)
      ensures old(Valid()) ==> Valid()
    {
      ghost var wasValid := Valid();
      ghost var s0 := shapes;
      var next := NextCenter(shapes[index].center, v);
      var d := shapes[index].d;
      CheckCollision(index);
      if !InArena(next, d) {
        return;
      }
      var sh := shapes[index];
      shapes := shapes[index := sh.(matrices := sh.matrices.(model := Translated(v, sh.matrices.model)), center := next)];
      if wasValid {
        MoveSphereEffect(s0, size, index, v, root);
        ListsFollowTypes(s0);
      }
    }

    /** `SpeedUP(up)`. */
    method SpeedUp(up: bool)
      requires Valid()
      modifies this
      ensures Valid() && speedUp == NextSpeedUp(old(speedUp), up)
      ensures shapes == old(shapes) && size == old(size) && byType == old(byType)
    {
      if speedUp < MAX_SPEEDUP && up {
        speedUp := speedUp + 1;
      } else if speedUp > 0 && !up {
        speedUp := speedUp - 1;
      }
    }

    /**
     * `uploadMatricesToPtr(type)`: the matrices of the shapes of that
     * type, in insertion order, into the first cells of `out`.
     */
    method UploadMatrices(shapeType: nat, out: array<ObjMatrices>)
      requires Valid() && shapeType < 4 && |byType[shapeType]| <= out.Length
      modifies out
      ensures forall i | 0 <= i < |byType[shapeType]| :: out[i] == shapes[byType[shapeType][i]].matrices
      ensures forall i | |byType[shapeType]| <= i < out.Length :: out[i] == old(out[i])
    {
      var list := byType[shapeType];
      IndicesOfTypeMeaning(shapes, shapeType);
      for i := 0 to |list|
        invariant forall k | 0 <= k < i :: out[k] == shapes[list[k]].matrices
        invariant forall k | i <= k < out.Length :: out[k] == old(out[k])
      {
        var m := shapes[list[i]].matrices;
        out[i] := ObjMatrices(m.mvp, m.model, m.normalModel);
      }
    }

    /**
     * `uploadColorsToPtr(type)`: the four colour components of the shapes
     * of that type, in insertion order, packed four floats per shape.
     */
    method UploadColors(shapeType: nat, out: array<real>)
      requires Valid() && shapeType < 4 && 4 * |byType[shapeType]| <= out.Length
      modifies out
      ensures forall i | 0 <= i < |byType[shapeType]| :: ColorCells(out[..], i, shapes[byType[shapeType][i]].color)
      ensures forall k | 4 * |byType[shapeType]| <= k < out.Length :: out[k] == old(out[k])
    {
      var list := byType[shapeType];
      for i := 0 to |list|
        invariant forall j | 0 <= j < i :: ColorCells(out[..], j, shapes[list[j]].color)
        invariant forall k | 4 * i <= k < out.Length :: out[k] == old(out[k])
      {
        WriteColor(out, i, shapes[list[i]].color);
      }
    }

    /** The shapes pushed since `s0` and the factory's flags are those of run `st`. */
    ghost predicate Tracks(s0: seq<Shape>, st: Run, ok: bool, used: nat)
      reads this, factory
    {
      shapes == s0 + st.made && factory.flags == st.flags && st.ok == ok && st.used == used
    }

    /** One `AddShape(&CreateRandomShape(x, y, z))` of the grid, skipped once something threw. */
    method AddGridShape(ghost s0: seq<Shape>, ghost st: Run, ghost protos: seq<Shape>, draws: nat -> RandomDraw,
                        x: real, y: real, z: real, ok: bool, used: nat) returns (ok': bool, used': nat)
      requires Valid() && AllDrawsOk(draws) && factory.prototypes == protos && Tracks(s0, st, ok, used)
      modifies this, factory, factory.ringIndices
      ensures Valid() && factory.prototypes == protos && speedUp == old(speedUp)
      ensures Tracks(s0, GridStep(st, protos, draws, x, y, z), ok', used')
    {
      if !ok {
        return ok, used;
      }
      RandomShapeFailureKeepsFlags(factory.flags, protos, x, y, z, draws(used));
      var r := factory.CreateRandomShape(x, y, z, draws(used));
      if r.None? {
        return false, used;
      }
      ok' := AddShape(r.value);
      used' := used + 1;
    }

    /** Row `(i, j)` of the grid: `perAxis` shapes along z. */
    method AddGridRow(ghost s0: seq<Shape>, ghost st: Run, ghost protos: seq<Shape>, draws: nat -> RandomDraw,
                      p: int, i: int, j: int, ok: bool, used: nat) returns (ok': bool, used': nat)
      requires Valid() && AllDrawsOk(draws) && p > 0 && factory.prototypes == protos && Tracks(s0, st, ok, used)
      modifies this, factory, factory.ringIndices
      ensures Valid() && factory.prototypes == protos && speedUp == old(speedUp)
      ensures Tracks(s0, RowRun(st, protos, draws, p, i, j, p), ok', used')
    {
      ok', used' := ok, used;
      for k := 0 to p
        invariant Valid() && factory.prototypes == protos && speedUp == old(speedUp)
        invariant Tracks(s0, RowRun(st, protos, draws, p, i, j, k), ok', used')
      {
        ok', used' := AddGridShape(s0, RowRun(st, protos, draws, p, i, j, k), protos, draws,
                                   GridCoord(i, p), GridCoord(j, p), GridCoord(k, p), ok', used');
      }
    }

    /** Plane `i` of the grid: `perAxis` rows. */
    method AddGridPlane(ghost s0: seq<Shape>, ghost st: Run, ghost protos: seq<Shape>, draws: nat -> RandomDraw,
                        p: int, i: int, ok: bool, used: nat) returns (ok': bool, used': nat)
      requires Valid() && AllDrawsOk(draws) && p > 0 && factory.prototypes == protos && Tracks(s0, st, ok, used)
      modifies this, factory, factory.ringIndices
      ensures Valid() && factory.prototypes == protos && speedUp == old(speedUp)
      ensures Tracks(s0, PlaneRun(st, protos, draws, p, i, p), ok', used')
    {
      ok', used' := ok, used;
      for j := 0 to p
        invariant Valid() && factory.prototypes == protos && speedUp == old(speedUp)
        invariant Tracks(s0, PlaneRun(st, protos, draws, p, i, j), ok', used')
      {
        ok', used' := AddGridRow(s0, PlaneRun(st, protos, draws, p, i, j), protos, draws, p, i, j, ok', used');
      }
    }

    /**
     * `CreateRandomShapes(amount)` with `perAxis = ceil(cbrt(amount))`: a
     * `perAxis^3` grid of random shapes spaced `100 / perAxis` apart, the
     * `n`-th drawn from `draws(n)`; `ok == false` when a shape throws,
     * which ends the run.
     */
    method CreateRandomShapes(amount: int, perAxis: int, draws: nat -> RandomDraw) returns (ok: bool)
      requires Valid() && IsCeilCbrt(amount, perAxis) && AllDrawsOk(draws)
      modifies this, factory, factory.ringIndices
      ensures Valid() && factory.prototypes == old(factory.prototypes) && speedUp == old(speedUp)
      ensures perAxis <= 0 ==> ok && shapes == old(shapes) && amount <= 0
      ensures perAxis > 0 ==>
        var r := GridRun(Run([], old(factory.flags), true, 0), old(factory.prototypes), draws, perAxis, perAxis);
        shapes == old(shapes) + r.made && factory.flags == r.flags && ok == r.ok
      ensures perAxis > 0 && ok ==>
        |shapes| == |old(shapes)| + perAxis * (perAxis * perAxis) &&
        amount <= |shapes| - |old(shapes)| < amount + 3 * perAxis * perAxis
    {
      if perAxis <= 0 {
        return true;
      }
      ghost var s0 := shapes;
      ghost var protos := factory.prototypes;
      ghost var st := Run([], factory.flags, true, 0);
      var used: nat := 0;
      ok := true;
      for i := 0 to perAxis
        invariant Valid() && factory.prototypes == protos && speedUp == old(speedUp)
        invariant Tracks(s0, GridRun(st, protos, draws, perAxis, i), ok, used)
      {
        ok, used := AddGridPlane(s0, GridRun(st, protos, draws, perAxis, i), protos, draws, perAxis, i, ok, used);
      }
      GridCount(protos, draws, st.flags, amount, perAxis);
    }
  }
}
