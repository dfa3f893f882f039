/**
 * `DynamicShapeArray::Collide(obstacle, mover)`: the mover's new speed.
 * The vector `c` is the obstacle's centre minus the mover's centre.
 *
 * `glm::normalize` and `glm::length` are written with `root`, a square
 * root supplied by the caller (see `Vectors.IsSqrt`).
 */
module Resolver {
  import opened Vectors
  import opened Shapes

  /** C++ `int / 2` (truncating towards zero). */
  function HalfTrunc(n: int): (h: int)
    ensures n >= 0 ==> 2 * h <= n <= 2 * h + 1
    ensures n < 0 ==> 2 * h - 1 <= n <= 2 * h
  {
    if n >= 0 then n / 2 else -((-n) / 2)
  }

  /**
   * `length(v) * normalize(-normalize(c) * dot(normalize(v), normalize(c)))`.
   * Where the source normalises a zero vector (zero `c`, or `v` orthogonal
   * to `c`) the result is NaN; the model keeps `v` there.
   */
  function Redirect(v: Vec3, c: Vec3, root: real -> real): Vec3 {
    if c == Zero || Dot(v, c) == 0.0 then v
    else
      NormSqSign(c);
      if Dot(v, c) > 0.0 then Scale(-root(NormSq(v) / NormSq(c)), c)
      else Scale(root(NormSq(v) / NormSq(c)), c)
  }

  /**
   * The cap test: the vertical component of `normalize(c)` lies in
   * `[SQRT_2/2, 1)` or `(-1, -SQRT_2/2]`. A zero `c` normalises to NaN,
   * for which every comparison is false.
   */
  predicate CapHit(c: Vec3, root: real -> real) {
    var len := root(NormSq(c));
    if c == Zero || len == 0.0 then false
    else
      var cy := c.y / len;
      (cy >= SQRT_2 / 2.0 && cy < 1.0) || (cy <= -SQRT_2 / 2.0 && cy > -1.0)
  }

  function Max3(a: real, b: real, c: real): (m: real)
    ensures m >= a && m >= b && m >= c && (m == a || m == b || m == c)
  {
    if a >= b && a >= c then a else if b >= c then b else c
  }

  /** Box obstacle: negate the mover's speed on every axis where `|c|` is largest. */
  function BoxBounce(c: Vec3, v: Vec3): Vec3 {
    if c == Zero then v
    else
      var m := Max3(Abs(c.x), Abs(c.y), Abs(c.z));
      Vec3(if Abs(c.x) == m then -v.x else v.x,
           if Abs(c.y) == m then -v.y else v.y,
           if Abs(c.z) == m then -v.z else v.z)
  }

  /** Cylinder obstacle: cap bounce, else side redirect in the horizontal plane. */
  function CylinderBounce(obstacle: Shape, c: Vec3, v: Vec3, root: real -> real): Vec3 {
    if CapHit(c, root) then v.(y := -v.y)
    else if c.y < HalfTrunc(obstacle.size) as real then
      var t := Redirect(v, c, root);
      Vec3(t.x, v.y, t.z)
    else v
  }

  /** The centre line a ring obstacle uses, shifted by `d + d2` on x and z. */
  function RingLine(obstacle: Shape, c: Vec3): Vec3 {
    Vec3(c.x - obstacle.d - obstacle.d2, c.y, c.z - obstacle.d - obstacle.d2)
  }

  /** Ring obstacle: cap bounce, else a full redirect along the shifted centre line. */
  function RingBounce(obstacle: Shape, c: Vec3, v: Vec3, root: real -> real): Vec3 {
    var cr := RingLine(obstacle, c);
    if CapHit(cr, root) then v.(y := -v.y)
    else if c.y < HalfTrunc(obstacle.size) as real then Redirect(v, cr, root)
    else v
  }

  /** The mover's speed after `Collide(obstacle, mover)`. */
  function CollideSpeed(obstacle: Shape, mover: Shape, root: real -> real): Vec3 {
    var v := mover.speed;
    var c := Sub(obstacle.center, mover.center);
    if v == Zero then v
    else if obstacle.shapeType == T_SPHERE then Redirect(v, c, root)
    else if obstacle.shapeType == T_CUBE then BoxBounce(c, v)
    else if obstacle.shapeType == T_CYLINDER then CylinderBounce(obstacle, c, v, root)
    else if obstacle.shapeType == T_RING then RingBounce(obstacle, c, v, root)
    else v
  }

  // ---------------------------------------------------------------------
  // Properties
  // ---------------------------------------------------------------------

  /** A mover at rest keeps its (zero) speed, whatever it hits. */
  lemma RestingMoverStays(obstacle: Shape, mover: Shape, root: real -> real)
    requires mover.speed == Zero
    ensures CollideSpeed(obstacle, mover, root) == Zero
  {
  }

  /** The result depends on the obstacle's body and centre, never on its speed. */
  lemma ObstacleSpeedIrrelevant(obstacle: Shape, mover: Shape, w: Vec3, root: real -> real)
    ensures CollideSpeed(obstacle.(speed := w), mover, root) == CollideSpeed(obstacle, mover, root)
  {
    var o := obstacle.(speed := w);
    assert Sub(o.center, mover.center) == Sub(obstacle.center, mover.center);
    assert o.shapeType == obstacle.shapeType && o.size == obstacle.size;
    assert RingLine(o, Sub(o.center, mover.center)) == RingLine(obstacle, Sub(obstacle.center, mover.center));
  }

  /** Multiplying by a positive number keeps the order. */
  lemma ScaleOrder(x: real, y: real, n: real)
    requires n > 0.0
    ensures x >= y <==> x * n >= y * n
  {
    if x >= y { assert (x - y) * n >= 0.0; } else { assert (y - x) * n > 0.0; }
  }

  lemma DifferenceOfSquares(x: real, a: real)
    ensures Sq(x) - Sq(a) == Mul(x - a, x + a)
  {
  }

  /** For non-negative `a`, `|x| >= a` iff `x^2 >= a^2`. */
  lemma AbsAtLeast(x: real, a: real)
    requires a >= 0.0
    ensures (x >= a || x <= -a) <==> Sq(x) >= Sq(a)
  {
    DifferenceOfSquares(x, a);
    if x > a {
      MulPositive(x - a, x + a);
    } else if x == a {
      assert Sq(x) == Sq(a);
    } else if x < -a {
      MulPositive(a - x, -x - a);
      assert Mul(a - x, -x - a) == Mul(x - a, x + a);
    } else if x == -a {
      assert Sq(x) == Sq(a);
    } else {
      // -a < x < a
      MulPositive(a - x, a + x);
      DifferenceOfSquares(a, x);
    }
  }

  /** `root(a / b)` is a non-negative square root of `a / b`. */
  lemma RootOfQuotient(a: real, b: real, root: real -> real)
    requires IsSqrt(root) && a >= 0.0 && b > 0.0
    ensures a / b >= 0.0 && root(a / b) >= 0.0 && Sq(root(a / b)) == a / b
  {
  }

  /** A quotient times its divisor. */
  lemma QuotientTimesDivisor(a: real, b: real)
    requires b > 0.0
    ensures (a / b) * b == a
  {
  }

  lemma MulEqual(a: real, b: real, m: real)
    requires a == b
    ensures a * m == b * m
  {
  }

  /**
   * The arithmetic of the redirect's length: with `k = +-root(a / b)`,
   * `k^2 * b == a`.
   */
  lemma SignedRootTimesDivisor(a: real, b: real, k: real, n: real, root: real -> real)
    requires IsSqrt(root) && a >= 0.0 && b > 0.0
    requires k == root(a / b) || k == -root(a / b)
    requires n == Sq(k) * b
    ensures n == a
  {
    RootOfQuotient(a, b, root);
    assert Sq(k) == a / b;
    QuotientTimesDivisor(a, b);
    MulEqual(Sq(k), a / b, b);
  }

  /** Scaling `c` by `+-root(|v|^2 / |c|^2)` gives the squared length of `v`. */
  lemma ScaleToLength(v: Vec3, c: Vec3, k: real, root: real -> real)
    requires IsSqrt(root) && c != Zero && NormSq(c) > 0.0
    requires k == root(NormSq(v) / NormSq(c)) || k == -root(NormSq(v) / NormSq(c))
    ensures NormSq(Scale(k, c)) == NormSq(v)
  {
    NormSqSign(v);
    NormSqScale(k, c);
    SignedRootTimesDivisor(NormSq(v), NormSq(c), k, NormSq(Scale(k, c)), root);
  }

  /** The sphere redirect keeps the magnitude of the speed. */
  lemma RedirectKeepsMagnitude(v: Vec3, c: Vec3, root: real -> real)
    requires IsSqrt(root)
    ensures NormSq(Redirect(v, c, root)) == NormSq(v)
  {
    if c != Zero && Dot(v, c) != 0.0 {
      NormSqSign(c);
      if Dot(v, c) > 0.0 {
        ScaleToLength(v, c, -root(NormSq(v) / NormSq(c)), root);
      } else {
        ScaleToLength(v, c, root(NormSq(v) / NormSq(c)), root);
      }
    }
  }

  /**
   * The sphere redirect points straight along the centre line, and flips
   * which way the mover travels along it: a mover approaching the obstacle
   * is sent away from it, and a mover already receding is sent back
   * towards it.
   */
  lemma RedirectFlipsApproach(v: Vec3, c: Vec3, root: real -> real)
    requires IsSqrt(root) && c != Zero && Dot(v, c) != 0.0
    ensures exists k: real :: Redirect(v, c, root) == Scale(k, c)
    ensures Dot(v, c) > 0.0 ==> Dot(Redirect(v, c, root), c) < 0.0
    ensures Dot(v, c) < 0.0 ==> Dot(Redirect(v, c, root), c) > 0.0
  {
    assert v != Zero;
    NormSqSign(v);
    NormSqSign(c);
    RootPositive(root, NormSq(v) / NormSq(c));
    var r := root(NormSq(v) / NormSq(c));
    if Dot(v, c) > 0.0 {
      assert Redirect(v, c, root) == Scale(-r, c);
      DotScale(-r, c);
      MulPositive(r, NormSq(c));
      assert Mul(r, NormSq(c)) == -((-r) * NormSq(c));
    } else {
      assert Redirect(v, c, root) == Scale(r, c);
      DotScale(r, c);
      MulPositive(r, NormSq(c));
    }
  }

  /** Box obstacle: exactly the axes of largest `|c|` are negated; the magnitude is kept. */
  lemma BoxBounceDominantAxes(obstacle: Shape, mover: Shape, root: real -> real)
    requires obstacle.shapeType == T_CUBE && mover.speed != Zero
    requires Sub(obstacle.center, mover.center) != Zero
    ensures var c := Sub(obstacle.center, mover.center);
            var v := mover.speed;
            var r := CollideSpeed(obstacle, mover, root);
            var m := Max3(Abs(c.x), Abs(c.y), Abs(c.z));
            m > 0.0 &&
            (r.x == if Abs(c.x) == m then -v.x else v.x) &&
            (r.y == if Abs(c.y) == m then -v.y else v.y) &&
            (r.z == if Abs(c.z) == m then -v.z else v.z) &&
            (Abs(c.x) == m || Abs(c.y) == m || Abs(c.z) == m) &&
            NormSq(r) == NormSq(v)
  {
  }

  /** `|y / len| >= a` iff `y^2 >= a^2 len^2`, for positive `len`. */
  lemma QuotientAtLeast(y: real, len: real, a: real)
    requires len > 0.0 && a >= 0.0
    ensures (y / len >= a || y / len <= -a) <==> Sq(y) >= Sq(a) * Sq(len)
  {
    var cy := y / len;
    assert y == cy * len;
    SqOfProduct(cy, len);
    SqSign(len);
    AbsAtLeast(cy, a);
    ScaleOrder(Sq(cy), Sq(a), Sq(len));
  }

  /**
   * The cap test without square roots: `c` is not vertical and its
   * vertical component carries at least `SQRT_2^2/4` of its squared length.
   */
  lemma {:induction false} CapHitSquared(c: Vec3, root: real -> real)
    requires IsSqrt(root)
    ensures CapHit(c, root) <==>
              Sq(c.x) + Sq(c.z) > 0.0 && 4.0 * Sq(c.y) >= SQRT_2 * SQRT_2 * NormSq(c)
  {
    var n := NormSq(c);
    SqSign(c.x);
    SqSign(c.y);
    SqSign(c.z);
    if c != Zero {
      NormSqSign(c);
      RootPositive(root, n);
      var len := root(n);
      QuotientAtLeast(c.y, len, SQRT_2 / 2.0);
      QuotientAtLeast(c.y, len, 1.0);
      assert Sq(1.0) * n == n;
      assert 4.0 * (Sq(SQRT_2 / 2.0) * n) == SQRT_2 * SQRT_2 * n;
    }
  }

  /** Cylinder obstacle, cap case: only the vertical speed changes, and it is negated. */
  lemma CylinderCapOnlyVertical(obstacle: Shape, mover: Shape, root: real -> real)
    requires obstacle.shapeType == T_CYLINDER && mover.speed != Zero
    requires CapHit(Sub(obstacle.center, mover.center), root)
    ensures CollideSpeed(obstacle, mover, root) == mover.speed.(y := -mover.speed.y)
  {
  }

  /**
   * Cylinder obstacle, side case: the vertical speed is kept and the
   * horizontal part comes from the redirect along the centre line.
   */
  lemma CylinderSideOnlyHorizontal(obstacle: Shape, mover: Shape, root: real -> real)
    requires obstacle.shapeType == T_CYLINDER && mover.speed != Zero
    requires !CapHit(Sub(obstacle.center, mover.center), root)
    ensures var c := Sub(obstacle.center, mover.center);
            var r := CollideSpeed(obstacle, mover, root);
            var t := Redirect(mover.speed, c, root);
            r.y == mover.speed.y &&
            (if c.y < HalfTrunc(obstacle.size) as real then r.x == t.x && r.z == t.z else r == mover.speed)
  {
  }

  /**
   * Ring obstacle: the cap case negates only the vertical speed; the side
   * case redirects along the shifted centre line and keeps the magnitude.
   */
  lemma RingBounceCases(obstacle: Shape, mover: Shape, root: real -> real)
    requires IsSqrt(root) && obstacle.shapeType == T_RING && mover.speed != Zero
    ensures var c := Sub(obstacle.center, mover.center);
            var r := CollideSpeed(obstacle, mover, root);
            (CapHit(RingLine(obstacle, c), root) ==> r == mover.speed.(y := -mover.speed.y)) &&
            NormSq(r) == NormSq(mover.speed)
  {
    var c := Sub(obstacle.center, mover.center);
    RedirectKeepsMagnitude(mover.speed, RingLine(obstacle, c), root);
  }

  /** Sphere obstacle: the magnitude of the mover's speed is kept. */
  lemma SphereBounceKeepsMagnitude(obstacle: Shape, mover: Shape, root: real -> real)
    requires IsSqrt(root) && obstacle.shapeType == T_SPHERE
    ensures NormSq(CollideSpeed(obstacle, mover, root)) == NormSq(mover.speed)
  {
    RedirectKeepsMagnitude(mover.speed, Sub(obstacle.center, mover.center), root);
  }
}
