/**
 * Three-component vectors over the reals, standing in for the `float[3]`
 * arrays and `glm::vec3` values of the physics code.
 */
module Vectors {

  datatype Vec3 = Vec3(x: real, y: real, z: real)

  const Zero: Vec3 := Vec3(0.0, 0.0, 0.0)
  const One: Vec3 := Vec3(1.0, 1.0, 1.0)

  function Add(a: Vec3, b: Vec3): Vec3 {
    Vec3(a.x + b.x, a.y + b.y, a.z + b.z)
  }

  function Sub(a: Vec3, b: Vec3): Vec3 {
    Vec3(a.x - b.x, a.y - b.y, a.z - b.z)
  }

  function Scale(k: real, a: Vec3): Vec3 {
    Vec3(k * a.x, k * a.y, k * a.z)
  }

  function Dot(a: Vec3, b: Vec3): real {
    a.x * b.x + a.y * b.y + a.z * b.z
  }

  function Sq(a: real): real {
    a * a
  }

  /** Squared Euclidean length. */
  function NormSq(a: Vec3): real {
    Sq(a.x) + Sq(a.y) + Sq(a.z)
  }

  function Abs(x: real): (r: real)
    ensures r >= 0.0 && (r == x || r == -x)
  {
    if x < 0.0 then -x else x
  }

  function Sign(x: real): (r: real)
    ensures x > 0.0 ==> r == 1.0
    ensures x < 0.0 ==> r == -1.0
    ensures x == 0.0 ==> r == 0.0
  {
    if x > 0.0 then 1.0 else if x < 0.0 then -1.0 else 0.0
  }

  /**
   * `root` behaves as the real square root on the non-negative reals.
   * The model never computes a square root itself; the length used by
   * `glm::normalize` and `glm::length` is this function, supplied by the
   * caller.
   */
  ghost predicate IsSqrt(root: real -> real) {
    forall v: real {:trigger root(v)} :: v >= 0.0 ==> root(v) >= 0.0 && Sq(root(v)) == v
  }

  /** C++ truncation of a float to `int` (towards zero). */
  function Trunc(v: real): (r: int)
    ensures v >= 0.0 ==> r as real <= v < r as real + 1.0
    ensures v < 0.0 ==> r as real - 1.0 < v <= r as real
  {
    if v >= 0.0 then v.Floor else -((-v).Floor)
  }

  // ---------------------------------------------------------------------
  // Arithmetic facts about squares
  // ---------------------------------------------------------------------

  function Mul(a: real, b: real): real {
    a * b
  }

  lemma MulPositive(p: real, q: real)
    requires p > 0.0 && q > 0.0
    ensures Mul(p, q) > 0.0
  {
  }

  lemma SqSign(a: real)
    ensures Sq(a) >= 0.0
    ensures a != 0.0 ==> Sq(a) > 0.0
  {
    if a > 0.0 {
      MulPositive(a, a);
      assert Sq(a) == Mul(a, a);
    } else if a < 0.0 {
      MulPositive(-a, -a);
      assert Sq(a) == Mul(-a, -a);
    }
  }

  lemma NormSqSign(v: Vec3)
    ensures NormSq(v) >= 0.0
    ensures v != Zero ==> NormSq(v) > 0.0
  {
    SqSign(v.x);
    SqSign(v.y);
    SqSign(v.z);
    if v != Zero {
      assert v.x != 0.0 || v.y != 0.0 || v.z != 0.0;
    }
  }

  lemma SqOfProduct(a: real, b: real)
    ensures Sq(a * b) == Sq(a) * Sq(b)
  {
  }

  lemma NormSqScale(k: real, c: Vec3)
    ensures NormSq(Scale(k, c)) == Sq(k) * NormSq(c)
  {
    SqOfProduct(k, c.x);
    SqOfProduct(k, c.y);
    SqOfProduct(k, c.z);
  }

  lemma DotScale(k: real, c: Vec3)
    ensures Dot(Scale(k, c), c) == k * NormSq(c)
  {
  }

  /** A square root in the sense of `IsSqrt` is positive on positive arguments. */
  lemma RootPositive(root: real -> real, v: real)
    requires IsSqrt(root) && v > 0.0
    ensures root(v) > 0.0 && Sq(root(v)) == v
  {
    assert root(v) >= 0.0 && Sq(root(v)) == v;
  }
}
