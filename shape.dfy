/**
 * The shape record: type codes, default field values, and the symbolic
 * transform matrices the physics code carries along.
 */
module Shapes {
  import opened Vectors

  /** `ShapeType` codes. A shape record may also hold -1 (no type yet). */
  const T_CUBE: int := 0
  const T_SPHERE: int := 1
  const T_CYLINDER: int := 2
  const T_RING: int := 3

  /** `SQRT_2` as the source spells it (a float literal, not exactly the square root of 2). */
  const SQRT_2: real := 1.41421356237

  predicate IsShapeType(t: int) {
    T_CUBE <= t <= T_RING
  }

  /**
   * 4x4 (and 3x4) float matrices are kept symbolic: only the way they are
   * composed is recorded. `Product(a, b)` is the glm product `a * b`.
   */
  datatype Mat =
    | Identity
    | Translation(offset: Vec3)
    | Scaling(factors: Vec3)
    | Product(left: Mat, right: Mat)
    | InverseTranspose(of: Mat)

  datatype ObjMatrices = ObjMatrices(mvp: Mat, model: Mat, normalModel: Mat)

  datatype Color = Color(r: real, g: real, b: real, a: real)

  datatype Shape = Shape(
    size: int,
    shapeType: int,
    speed: Vec3,
    color: Color,
    center: Vec3,
    scale: Vec3,
    matrices: ObjMatrices,
    d: real,
    d2: real)

  const White: Color := Color(1.0, 1.0, 1.0, 1.0)

  /** A value-initialised `objMatrices`. */
  function DefaultMatrices(): (m: ObjMatrices)
    ensures m.mvp.Identity? && m.model.Identity? && m.normalModel.Identity?
  {
    ObjMatrices(Identity, Identity, Identity)
  }

  /** A value-initialised `Shape`. */
  function DefaultShape(): (s: Shape)
    ensures s.shapeType == -1 && !IsShapeType(s.shapeType)
    ensures s.size == 0
    ensures s.speed == Zero && s.center == Zero && s.scale == One
    ensures s.color == White
    ensures s.d == 0.0 && s.d2 == 0.0
    ensures s.matrices == DefaultMatrices()
  {
    Shape(0, -1, Zero, White, Zero, One, DefaultMatrices(), 0.0, 0.0)
  }

  /** The parts of a shape that no physics step ever writes. */
  predicate SameBody(a: Shape, b: Shape) {
    a.size == b.size && a.shapeType == b.shapeType && a.color == b.color &&
    a.scale == b.scale && a.d == b.d && a.d2 == b.d2
  }
}
