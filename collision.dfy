/**
 * Narrow phase of `DynamicShapeArray::CheckCollision`: the canonical order
 * of a pair of shapes and the per-type-pair overlap predicates.
 *
 * Every predicate takes `s0` (the extent `d` of the first shape of the
 * ordered pair), `s1` (the extent of the second) and the absolute per-axis
 * distances of the two projected centres.
 */
module Collision {
  import opened Vectors
  import opened Shapes

  function SphereSphere(s0: real, s1: real, dx: real, dy: real, dz: real): bool {
    var dsqr := dx * dx + dy * dy + dz * dz;
    dsqr <= (s0 / 2.0 + s1 / 2.0) * (s0 / 2.0 + s1 / 2.0) && dsqr >= s1 * s1 / 4.0
  }

  function SphereBox(s0: real, s1: real, dx: real, dy: real, dz: real): bool {
    if dx >= s1 / 2.0 + s0 / 2.0 then false
    else if dy >= s1 / 2.0 + s0 / 2.0 then false
    else if dz >= s1 / 2.0 + s0 / 2.0 then false
    else if dx < Abs((s1 - s0) / 2.0) && dy < Abs((s1 - s0) / 2.0) && dz < Abs((s1 - s0) / 2.0) then false
    else if dx < s1 / 2.0 then true
    else if dy < s1 / 2.0 then true
    else if dz < s1 / 2.0 then true
    else
      var cornerSq := (dx - s1 / 2.0) * (dx - s1 / 2.0) + (dy - s1 / 2.0) * (dy - s1 / 2.0) +
                      (dz - s1 / 2.0) * (dz - s1 / 2.0);
      cornerSq < s0 / 2.0 * s0 / 2.0
  }

  function SphereCylinder(s0: real, s1: real, dx: real, dy: real, dz: real): bool {
    if dx > s1 / 2.0 + s0 / 2.0 then false
    else if dy > s1 / 2.0 + s0 / 2.0 then false
    else if dz > s1 / 2.0 + s0 / 2.0 then false
    else if dx * dx + dz * dz <= (s0 / 2.0 + s1 / 2.0) * (s1 / 2.0 + s0 / 2.0) && dy <= s1 / 2.0 then true
    else dx * dx + dy * dy + dz * dz <= (s0 / 2.0 + SQRT_2 * s1 / 2.0) * (s0 / 2.0 + SQRT_2 * s1 / 2.0)
  }

  function BoxBox(s0: real, s1: real, dx: real, dy: real, dz: real): bool {
    dx <= s1 / 2.0 + s0 / 2.0 && dy <= s1 / 2.0 + s0 / 2.0 && dz <= s1 / 2.0 + s0 / 2.0 &&
    (dx >= Abs(s1 - s0) / 2.0 || dy >= Abs(s1 - s0) / 2.0 || dz >= Abs(s1 - s0) / 2.0)
  }

  function CylinderBox(s0: real, s1: real, dx: real, dy: real, dz: real): bool {
    if dx >= s1 / 2.0 + s0 / 2.0 then false
    else if dy >= s1 / 2.0 + s0 / 2.0 then false
    else if dz >= s1 / 2.0 + s0 / 2.0 then false
    else if dx < Abs(s1 / 2.0 - s0 / 2.0) && dy < Abs(s1 / 2.0 - s0 / 2.0) && dz < Abs(s1 / 2.0 - s0 / 2.0) then false
    else if dx < s1 / 2.0 then true
    else if dy < s1 / 2.0 then true
    else if dz < s1 / 2.0 then true
    else
      var cornerSq := (dx - s1 / 2.0) * (dx - s1 / 2.0) + (dy - s1 / 2.0) * (dy - s1 / 2.0) +
                      (dz - s1 / 2.0) * (dz - s1 / 2.0);
      cornerSq < s0 * s0 / 2.0
  }

  function CylinderCylinder(s0: real, s1: real, dx: real, dy: real, dz: real): bool {
    if dx * dx + dz * dz > (s1 / 2.0 + s0 / 2.0) * (s1 / 2.0 + s0 / 2.0) then false
    else if dy >= s1 / 2.0 + s0 / 2.0 then false
    else if dy < s1 / 2.0 then true
    else
      dx * dx + dy * dy + dz * dz <=
        (SQRT_2 * s0 / 2.0 + SQRT_2 * s1 / 2.0) * (SQRT_2 * s0 + SQRT_2 * s1 / 2.0)
  }

  /** `s0` is the ring's `d`, `s00` its `d2`. */
  function RingBox(s0: real, s00: real, s1: real, dx: real, dy: real, dz: real): bool {
    if dx >= s1 / 2.0 + s0 then false
    else if dy >= s1 / 2.0 + s0 then false
    else if dz >= s1 / 2.0 + s0 then false
    else if dx < Abs(s1 / 2.0 - s0) && dy < Abs(s1 / 2.0 - s0) && dz < Abs(s1 / 2.0 - s0) then false
    else if dx < s1 / 2.0 then true
    else if dy < s1 / 2.0 + s00 then true
    else if dz < s1 / 2.0 then true
    else true
  }

  function RingSphere(s0: real, s1: real, dx: real, dy: real, dz: real): bool {
    if dx > s1 / 2.0 + s0 then false
    else if dy > s1 / 2.0 + s0 then false
    else if dz > s1 / 2.0 + s0 then false
    else if dx * dx + dz * dz <= (s0 + s1 / 2.0) * (s1 / 2.0 + s0) && dy <= s1 / 2.0 then true
    else dx * dx + dy * dy + dz * dz <= (s0 / 2.0 + SQRT_2 * s1 / 2.0) * (s0 / 2.0 + SQRT_2 * s1 / 2.0)
  }

  /** The ordered type pairs that have a branch of their own (some of them always false). */
  predicate HandledPair(firstType: int, secondType: int) {
    (firstType == T_SPHERE && secondType in {T_SPHERE, T_CUBE, T_CYLINDER}) ||
    (firstType == T_CUBE && secondType == T_CUBE) ||
    (firstType == T_CYLINDER && secondType in {T_CUBE, T_CYLINDER}) ||
    (firstType == T_RING && IsShapeType(secondType))
  }

  /** The overlap predicate of an ordered pair. */
  function NarrowTest(first: Shape, second: Shape, dx: real, dy: real, dz: real): bool {
    var s0 := first.d;
    var s1 := second.d;
    if first.shapeType == T_SPHERE then
      if second.shapeType == T_SPHERE then SphereSphere(s0, s1, dx, dy, dz)
      else if second.shapeType == T_CUBE then SphereBox(s0, s1, dx, dy, dz)
      else if second.shapeType == T_CYLINDER then SphereCylinder(s0, s1, dx, dy, dz)
      else false
    else if first.shapeType == T_CUBE then
      if second.shapeType == T_CUBE then BoxBox(s0, s1, dx, dy, dz) else false
    else if first.shapeType == T_CYLINDER then
      if second.shapeType == T_CUBE then CylinderBox(s0, s1, dx, dy, dz)
      else if second.shapeType == T_CYLINDER then CylinderCylinder(s0, s1, dx, dy, dz)
      else false
    else if first.shapeType == T_RING then
      if second.shapeType == T_CUBE then RingBox(s0, first.d2, s1, dx, dy, dz)
      else if second.shapeType == T_CYLINDER then false
      else if second.shapeType == T_SPHERE then RingSphere(s0, s1, dx, dy, dz)
      else false
    else false
  }

  /** The type-based swap: the body being checked goes first iff this holds. */
  predicate IndexGoesFirst(indexType: int, otherType: int) {
    indexType == T_RING || indexType == T_SPHERE || (otherType == T_CUBE && indexType == T_CYLINDER)
  }

  /**
   * Whether the body being checked (`index`, projected to `indexPos`)
   * collides with `other` (projected to `otherPos`).
   */
  predicate Overlap(index: Shape, indexPos: Vec3, other: Shape, otherPos: Vec3) {
    var swap := IndexGoesFirst(index.shapeType, other.shapeType);
    NarrowTest(if swap then index else other, if swap then other else index,
               Abs(indexPos.x - otherPos.x), Abs(indexPos.y - otherPos.y), Abs(indexPos.z - otherPos.z))
  }

  // ---------------------------------------------------------------------
  // Properties
  // ---------------------------------------------------------------------

  /** An ordered pair without a branch of its own never collides. */
  lemma UnhandledPairNeverCollides(first: Shape, second: Shape, dx: real, dy: real, dz: real)
    requires !HandledPair(first.shapeType, second.shapeType)
    ensures !NarrowTest(first, second, dx, dy, dz)
  {
  }

  /**
   * After the swap, every pair of valid types reaches a branch of its own,
   * except a sphere being checked against a ring.
   */
  lemma CanonicalOrderCoverage(indexType: int, otherType: int)
    requires IsShapeType(indexType) && IsShapeType(otherType)
    ensures var swap := IndexGoesFirst(indexType, otherType);
            var firstType := if swap then indexType else otherType;
            var secondType := if swap then otherType else indexType;
            HandledPair(firstType, secondType) <==> !(indexType == T_SPHERE && otherType == T_RING)
  {
  }

  /** A sphere being checked never collides with a ring. */
  lemma SphereIndexMissesRing(sphere: Shape, p: Vec3, ring: Shape, q: Vec3)
    requires sphere.shapeType == T_SPHERE && ring.shapeType == T_RING
    ensures !Overlap(sphere, p, ring, q)
  {
  }

  lemma AbsSymmetric(a: real, b: real)
    ensures Abs(a - b) == Abs(b - a)
  {
  }

  /**
   * Thanks to the canonical order, the outcome between two bodies of
   * different types does not depend on which of them is being checked,
   * except for a sphere and a ring: with the ring checked the ring/sphere
   * test runs, with the sphere checked nothing does.
   */
  lemma OverlapOrderIndependent(a: Shape, pa: Vec3, b: Shape, pb: Vec3)
    requires IsShapeType(a.shapeType) && IsShapeType(b.shapeType) && a.shapeType != b.shapeType
    ensures !({a.shapeType, b.shapeType} == {T_SPHERE, T_RING}) ==>
              Overlap(a, pa, b, pb) == Overlap(b, pb, a, pa)
    ensures a.shapeType == T_RING && b.shapeType == T_SPHERE ==>
              !Overlap(b, pb, a, pa) &&
              Overlap(a, pa, b, pb) == RingSphere(a.d, b.d, Abs(pa.x - pb.x), Abs(pa.y - pb.y), Abs(pa.z - pb.z))
  {
    AbsSymmetric(pa.x, pb.x);
    AbsSymmetric(pa.y, pb.y);
    AbsSymmetric(pa.z, pb.z);
  }

  /** Ring/cylinder and ring/ring pairs never collide, whichever body is checked. */
  lemma RingPairsWithoutTest(a: Shape, pa: Vec3, b: Shape, pb: Vec3)
    requires a.shapeType == T_RING && b.shapeType in {T_CYLINDER, T_RING}
    ensures !Overlap(a, pa, b, pb) && !Overlap(b, pb, a, pa)
  {
  }

  /** The sphere/sphere band: touching or overlapping, but not too deep. */
  lemma SphereSphereBand(s0: real, s1: real, dx: real, dy: real, dz: real)
    requires s0 >= 0.0 && s1 >= 0.0
    ensures SphereSphere(s0, s1, dx, dy, dz) <==>
              s1 * s1 <= 4.0 * (dx * dx + dy * dy + dz * dz) <= (s0 + s1) * (s0 + s1)
  {
  }

  function SphereAt(c: Vec3, diameter: real): Shape {
    DefaultShape().(shapeType := T_SPHERE, center := c, d := diameter)
  }

  function BoxAt(c: Vec3, size: real): Shape {
    DefaultShape().(shapeType := T_CUBE, center := c, d := size)
  }

  /** Two diameter-10 spheres whose projected centres are 8 apart collide; 11 apart they do not. */
  lemma SphereSphereExamples()
    ensures Overlap(SphereAt(Vec3(20.0, 20.0, 20.0), 10.0), Vec3(20.0, 20.0, 20.0),
                    SphereAt(Vec3(28.0, 20.0, 20.0), 10.0), Vec3(28.0, 20.0, 20.0))
    ensures !Overlap(SphereAt(Vec3(20.0, 20.0, 20.0), 10.0), Vec3(20.0, 20.0, 20.0),
                     SphereAt(Vec3(31.0, 20.0, 20.0), 10.0), Vec3(31.0, 20.0, 20.0))
  {
  }

  /** Box/box is symmetric in the two extents. */
  lemma BoxBoxSymmetric(s0: real, s1: real, dx: real, dy: real, dz: real)
    ensures BoxBox(s0, s1, dx, dy, dz) == BoxBox(s1, s0, dx, dy, dz)
  {
    AbsSymmetric(s0, s1);
  }

  /**
   * Box/box collides iff the two cubes overlap and the smaller one is not
   * strictly inside the larger one.
   */
  lemma BoxBoxMeaning(s0: real, s1: real, dx: real, dy: real, dz: real)
    requires s0 >= 0.0 && s1 >= 0.0 && dx >= 0.0 && dy >= 0.0 && dz >= 0.0
    ensures var big := if s0 >= s1 then s0 else s1;
            var small := if s0 >= s1 then s1 else s0;
            BoxBox(s0, s1, dx, dy, dz) <==>
              (2.0 * dx <= s0 + s1 && 2.0 * dy <= s0 + s1 && 2.0 * dz <= s0 + s1) &&
              !(2.0 * dx + small < big && 2.0 * dy + small < big && 2.0 * dz + small < big)
  {
  }

  /** A size-2 box in the middle of the size-100 enclosing box does not collide with it. */
  lemma NestedBoxExample()
    ensures !Overlap(BoxAt(Vec3(50.0, 50.0, 50.0), 2.0), Vec3(50.0, 50.0, 50.0),
                     BoxAt(Vec3(50.0, 50.0, 50.0), 100.0), Vec3(50.0, 50.0, 50.0))
  {
  }

  /** Sphere/box only reports bodies whose extents overlap on every axis. */
  lemma SphereBoxNeedsOverlap(s0: real, s1: real, dx: real, dy: real, dz: real)
    requires SphereBox(s0, s1, dx, dy, dz)
    ensures 2.0 * dx < s0 + s1 && 2.0 * dy < s0 + s1 && 2.0 * dz < s0 + s1
  {
  }

  /** Sphere/cylinder only reports bodies whose extents reach each other on every axis. */
  lemma SphereCylinderNeedsOverlap(s0: real, s1: real, dx: real, dy: real, dz: real)
    requires SphereCylinder(s0, s1, dx, dy, dz)
    ensures 2.0 * dx <= s0 + s1 && 2.0 * dy <= s0 + s1 && 2.0 * dz <= s0 + s1
  {
  }

  /**
   * Cylinder/box only reports bodies whose extents overlap on every axis;
   * beyond the box's faces on all three axes the squared corner distance
   * must be below `s0 * s0 / 2`, half the square of the cylinder's extent.
   */
  lemma CylinderBoxNeedsOverlap(s0: real, s1: real, dx: real, dy: real, dz: real)
    requires CylinderBox(s0, s1, dx, dy, dz)
    ensures 2.0 * dx < s0 + s1 && 2.0 * dy < s0 + s1 && 2.0 * dz < s0 + s1
    ensures dx >= s1 / 2.0 && dy >= s1 / 2.0 && dz >= s1 / 2.0 ==>
              (dx - s1 / 2.0) * (dx - s1 / 2.0) + (dy - s1 / 2.0) * (dy - s1 / 2.0) +
              (dz - s1 / 2.0) * (dz - s1 / 2.0) < s0 * s0 / 2.0
  {
  }

  /** Ring/sphere only reports bodies within the ring's full extent `s0` plus the sphere's radius on every axis. */
  lemma RingSphereNeedsOverlap(s0: real, s1: real, dx: real, dy: real, dz: real)
    requires RingSphere(s0, s1, dx, dy, dz)
    ensures dx <= s0 + s1 / 2.0 && dy <= s0 + s1 / 2.0 && dz <= s0 + s1 / 2.0
  {
  }

  /** A sphere whose centre lies inside the box's slab on some axis collides unless nested. */
  lemma SphereBoxFace(s0: real, s1: real, dx: real, dy: real, dz: real)
    requires 2.0 * dx < s0 + s1 && 2.0 * dy < s0 + s1 && 2.0 * dz < s0 + s1
    requires 2.0 * dx < s1
    ensures SphereBox(s0, s1, dx, dy, dz) <==>
              !(dx < Abs((s1 - s0) / 2.0) && dy < Abs((s1 - s0) / 2.0) && dz < Abs((s1 - s0) / 2.0))
  {
  }

  /**
   * The ring/box test never looks at its corner distance: it is true exactly
   * when the extents overlap on every axis and the bodies are not nested.
   */
  lemma RingBoxWithoutCorner(s0: real, s00: real, s1: real, dx: real, dy: real, dz: real)
    ensures RingBox(s0, s00, s1, dx, dy, dz) <==>
              dx < s1 / 2.0 + s0 && dy < s1 / 2.0 + s0 && dz < s1 / 2.0 + s0 &&
              !(dx < Abs(s1 / 2.0 - s0) && dy < Abs(s1 / 2.0 - s0) && dz < Abs(s1 / 2.0 - s0))
  {
  }

  /**
   * The cylinder/cylinder fallback on the full distance never rejects: for
   * positive extents of comparable size the test is exactly "horizontal
   * distance within the summed radii and vertical distance below it".
   */
  lemma CylinderCylinderFallbackAlwaysTrue(s0: real, s1: real, dx: real, dy: real, dz: real)
    requires s0 > 0.0 && s1 > 0.0 && s1 <= 1000.0 * s0
    requires dx >= 0.0 && dy >= 0.0 && dz >= 0.0
    ensures var r := (s0 + s1) / 2.0;
            CylinderCylinder(s0, s1, dx, dy, dz) <==> (dx * dx + dz * dz <= r * r && dy < r)
  {
    var r := (s0 + s1) / 2.0;
    var q := SQRT_2 * SQRT_2;
    assert (s1 / 2.0 + s0 / 2.0) * (s1 / 2.0 + s0 / 2.0) == r * r;
    assert (SQRT_2 * s0 / 2.0 + SQRT_2 * s1 / 2.0) * (SQRT_2 * s0 + SQRT_2 * s1 / 2.0)
                      == q * r * (s0 + s1 / 2.0);
    assert q * (s0 + s1 / 2.0) >= 2.0 * r by {
      assert q >= 1.999999999;
      assert q * (s0 + s1 / 2.0) >= 1.999999999 * (s0 + s1 / 2.0);
    }
    if dx * dx + dz * dz <= r * r && s1 / 2.0 <= dy < r {
      assert dy * dy < r * r by {
        assert dy * dy <= dy * r;
        assert dy * r < r * r;
      }
      assert dx * dx + dy * dy + dz * dz < 2.0 * r * r;
      assert 2.0 * r * r <= r * (q * (s0 + s1 / 2.0));
    }
  }
}
