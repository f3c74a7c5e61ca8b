/**
 * Three-dimensional vectors over the reals, standing in for Godot's
 * `Vector3`, together with the engine's `Length`, `Normalized` and the
 * "clamp by magnitude" idiom used for accelerations and velocities.
 *
 * Godot computes `Length()` with a floating-point square root. There is no
 * square root on `real` in Dafny, so every operation that needs one takes
 * the square-root routine as a parameter `sqrt` and requires only its
 * defining relation, `IsSqrt(sqrt)`.
 */
module Vectors {

  datatype Vec3 = Vec3(x: real, y: real, z: real)

  const Zero: Vec3 := Vec3(0.0, 0.0, 0.0)

  function Add(a: Vec3, b: Vec3): Vec3 {
    Vec3(a.x + b.x, a.y + b.y, a.z + b.z)
  }

  function Sub(a: Vec3, b: Vec3): Vec3 {
    Vec3(a.x - b.x, a.y - b.y, a.z - b.z)
  }

  /** `v * k` */
  function Scale(v: Vec3, k: real): Vec3 {
    Vec3(v.x * k, v.y * k, v.z * k)
  }

  /** `v / k`, component-wise, as Godot's `Vector3 / float` */
  function DivBy(v: Vec3, k: real): Vec3
    requires k != 0.0
  {
    Vec3(v.x / k, v.y / k, v.z / k)
  }

  function Dot(a: Vec3, b: Vec3): real {
    a.x * b.x + a.y * b.y + a.z * b.z
  }

  function LengthSquared(v: Vec3): real {
    Dot(v, v)
  }

  function Cross(a: Vec3, b: Vec3): Vec3 {
    Vec3(a.y * b.z - a.z * b.y, a.z * b.x - a.x * b.z, a.x * b.y - a.y * b.x)
  }

  /** The defining relation of a square-root routine on the non-negative reals. */
  ghost predicate IsSqrt(sqrt: real -> real) {
    forall t :: 0.0 <= t ==> 0.0 <= sqrt(t) && sqrt(t) * sqrt(t) == t
  }

  // ---------------------------------------------------------------------
  // Sign facts about products. Each takes the product as a separate
  // argument `q`, so that a caller can apply it to a square it has named.

  lemma MulPositive(a: real, b: real, q: real)
    requires 0.0 < a && 0.0 < b && q == a * b
    ensures 0.0 < q
  {
  }

  lemma MulNonNegative(a: real, b: real, q: real)
    requires 0.0 <= a && 0.0 <= b && q == a * b
    ensures 0.0 <= q
  {
  }

  lemma SquareNonNegative(a: real, q: real)
    requires q == a * a
    ensures 0.0 <= q
  {
    if a >= 0.0 {
      MulNonNegative(a, a, q);
    } else {
      MulNonNegative(-a, -a, q);
    }
  }

  lemma SquarePositive(a: real, q: real)
    requires a != 0.0 && q == a * a
    ensures 0.0 < q
  {
    if a > 0.0 {
      MulPositive(a, a, q);
    } else {
      MulPositive(-a, -a, q);
    }
  }

  lemma QuotientBelowOne(a: real, b: real, q: real)
    requires 0.0 <= a < b && q == a / b
    ensures 0.0 <= q < 1.0
  {
    assert q * b == a;
    if q >= 1.0 {
      MulNonNegative(q - 1.0, b, (q - 1.0) * b);
    }
    if q < 0.0 {
      MulPositive(-q, b, -q * b);
    }
  }

  /** Dividing by a positive number keeps the sign of the dividend. */
  lemma QuotientSign(a: real, b: real, q: real)
    requires 0.0 < b && q == a / b
    ensures 0.0 < q <==> 0.0 < a
    ensures q == 0.0 <==> a == 0.0
  {
    assert q * b == a;
    if q > 0.0 {
      MulPositive(q, b, a);
    } else if q < 0.0 {
      MulPositive(-q, b, -a);
    }
  }

  /** Multiplying by a positive number keeps the sign of the other factor. */
  lemma ProductSign(a: real, p: real, q: real)
    requires 0.0 < p && q == a * p
    ensures 0.0 < q <==> 0.0 < a
    ensures q == 0.0 <==> a == 0.0
  {
    if a > 0.0 {
      MulPositive(a, p, q);
    } else if a < 0.0 {
      MulPositive(-a, p, -q);
    }
  }

  function Abs(a: real): (r: real)
    ensures 0.0 <= r && (r == a || r == -a)
  {
    if a < 0.0 then -a else a
  }

  /** Squaring is strictly monotonic on the non-negative reals. */
  lemma SquareLess(s: real, t: real)
    requires 0.0 <= s < t
    ensures s * s < t * t
  {
    MulPositive(t - s, t + s, (t - s) * (t + s));
    assert (t - s) * (t + s) == t * t - s * s;
  }

  /** A non-negative square root is unique. */
  lemma RootUnique(s: real, t: real)
    requires 0.0 <= s && 0.0 <= t && s * s == t * t
    ensures s == t
  {
    if s < t {
      SquareLess(s, t);
    } else if t < s {
      SquareLess(t, s);
    }
  }

  // ---------------------------------------------------------------------
  // Lengths

  lemma LengthSquaredNonNegative(v: Vec3)
    ensures 0.0 <= LengthSquared(v)
  {
    var qx, qy, qz := v.x * v.x, v.y * v.y, v.z * v.z;
    SquareNonNegative(v.x, qx);
    SquareNonNegative(v.y, qy);
    SquareNonNegative(v.z, qz);
  }

  /** Only the zero vector has squared length zero. */
  lemma LengthSquaredZero(v: Vec3)
    ensures LengthSquared(v) == 0.0 <==> v == Zero
  {
    var qx, qy, qz := v.x * v.x, v.y * v.y, v.z * v.z;
    SquareNonNegative(v.x, qx);
    SquareNonNegative(v.y, qy);
    SquareNonNegative(v.z, qz);
    if v.x != 0.0 {
      SquarePositive(v.x, qx);
    } else if v.y != 0.0 {
      SquarePositive(v.y, qy);
    } else if v.z != 0.0 {
      SquarePositive(v.z, qz);
    }
  }

  /** `Mathf.Sqrt` on a non-negative argument. */
  function Root(t: real, sqrt: real -> real): (r: real)
    requires IsSqrt(sqrt) && 0.0 <= t
    ensures 0.0 <= r && r * r == t
    ensures 0.0 < r <==> 0.0 < t
  {
    var r := sqrt(t);
    if r == 0.0 then r else SquarePositive(r, t); r
  }

  /** Godot's `Length()`: the non-negative root of the squared length. */
  function Length(v: Vec3, sqrt: real -> real): (r: real)
    requires IsSqrt(sqrt)
    ensures 0.0 <= r && r * r == LengthSquared(v)
  {
    LengthSquaredNonNegative(v);
    Root(LengthSquared(v), sqrt)
  }

  /** The length is positive exactly for the non-zero vectors. */
  lemma LengthPositive(v: Vec3, sqrt: real -> real)
    requires IsSqrt(sqrt)
    ensures 0.0 < Length(v, sqrt) <==> v != Zero
  {
    LengthSquaredNonNegative(v);
    LengthSquaredZero(v);
    assert Length(v, sqrt) == Root(LengthSquared(v), sqrt);
  }

  lemma LengthSquaredScale(v: Vec3, k: real)
    ensures LengthSquared(Scale(v, k)) == k * k * LengthSquared(v)
  {
    calc {
      LengthSquared(Scale(v, k));
      (v.x * k) * (v.x * k) + (v.y * k) * (v.y * k) + (v.z * k) * (v.z * k);
      k * k * (v.x * v.x + v.y * v.y + v.z * v.z);
    }
  }

  /** Scaling by a non-negative factor scales the length by that factor. */
  lemma LengthScale(v: Vec3, k: real, sqrt: real -> real)
    requires IsSqrt(sqrt) && 0.0 <= k
    ensures Length(Scale(v, k), sqrt) == k * Length(v, sqrt)
  {
    var l := Length(v, sqrt);
    var m := Length(Scale(v, k), sqrt);
    LengthSquaredScale(v, k);
    SquareOfProduct(k, l, LengthSquared(v), m * m);
    MulNonNegative(k, l, k * l);
    RootUnique(m, k * l);
  }

  /** Scaling by any factor scales the length by the factor's absolute value. */
  lemma LengthScaleAbs(v: Vec3, k: real, sqrt: real -> real)
    requires IsSqrt(sqrt)
    ensures Length(Scale(v, k), sqrt) == Abs(k) * Length(v, sqrt)
  {
    if k >= 0.0 {
      LengthScale(v, k, sqrt);
    } else {
      var w := Scale(v, -1.0);
      assert LengthSquared(w) == LengthSquared(v);
      RootUnique(Length(w, sqrt), Length(v, sqrt));
      ScaleTwice(v, -1.0, -k, k);
      LengthScale(w, -k, sqrt);
    }
  }

  lemma SquareOfProduct(k: real, l: real, q: real, p: real)
    requires q == l * l && p == k * k * q
    ensures p == (k * l) * (k * l)
  {
  }

  /**
   * Godot's `Normalized()`: the zero vector stays zero, any other vector is
   * divided by its length.
   */
  function Normalized(v: Vec3, sqrt: real -> real): (r: Vec3)
    requires IsSqrt(sqrt)
    ensures v == Zero ==> r == Zero
    ensures v != Zero ==> 0.0 < Length(v, sqrt) && r == Scale(v, 1.0 / Length(v, sqrt))
  {
    LengthSquaredZero(v);
    LengthPositive(v, sqrt);
    if LengthSquared(v) == 0.0 then Zero else DivBy(v, Length(v, sqrt))
  }

  lemma NormalizedIsUnit(v: Vec3, sqrt: real -> real)
    requires IsSqrt(sqrt) && v != Zero
    ensures Length(Normalized(v, sqrt), sqrt) == 1.0
  {
    var l := Length(v, sqrt);
    LengthPositive(v, sqrt);
    LengthScale(v, 1.0 / l, sqrt);
  }

  /**
   * The clamp used for each pairwise acceleration and for every final
   * velocity: `if (v.Length() > limit) v = v.Normalized() * limit;`
   */
  function ClampLength(v: Vec3, limit: real, sqrt: real -> real): Vec3
    requires IsSqrt(sqrt)
  {
    if Length(v, sqrt) > limit then Scale(Normalized(v, sqrt), limit) else v
  }

  /**
   * A vector within the limit is returned unchanged; one above a
   * non-negative limit is replaced by the vector of length exactly `limit`
   * along the same ray (a factor in [0, 1) of the original).
   */
  lemma ClampLengthSpec(v: Vec3, limit: real, sqrt: real -> real)
    requires IsSqrt(sqrt)
    ensures Length(v, sqrt) <= limit ==> ClampLength(v, limit, sqrt) == v
    ensures 0.0 <= limit < Length(v, sqrt) ==>
      var k := limit / Length(v, sqrt);
      && 0.0 <= k < 1.0
      && ClampLength(v, limit, sqrt) == Scale(v, k)
      && Length(ClampLength(v, limit, sqrt), sqrt) == limit
  {
    var l := Length(v, sqrt);
    if 0.0 <= limit < l {
      ClampAbove(v, limit, sqrt, l, limit / l);
    }
  }

  lemma ClampAbove(v: Vec3, limit: real, sqrt: real -> real, l: real, k: real)
    requires IsSqrt(sqrt) && l == Length(v, sqrt) && 0.0 <= limit < l && k == limit / l
    ensures 0.0 <= k < 1.0
    ensures ClampLength(v, limit, sqrt) == Scale(v, k)
    ensures Length(Scale(v, k), sqrt) == limit
  {
    QuotientBelowOne(limit, l, k);
    ClampAboveDirection(v, limit, sqrt, l, k);
    ClampAboveLength(v, limit, sqrt, l, k);
  }

  lemma ClampAboveDirection(v: Vec3, limit: real, sqrt: real -> real, l: real, k: real)
    requires IsSqrt(sqrt) && l == Length(v, sqrt) && 0.0 <= limit < l && k == limit / l
    ensures ClampLength(v, limit, sqrt) == Scale(v, k)
  {
    LengthPositive(v, sqrt);
    Quotient(limit, l, k);
    ScaleTwice(v, 1.0 / l, limit, k);
  }

  lemma ClampAboveLength(v: Vec3, limit: real, sqrt: real -> real, l: real, k: real)
    requires IsSqrt(sqrt) && l == Length(v, sqrt) && 0.0 <= limit < l && k == limit / l
    ensures Length(Scale(v, k), sqrt) == limit
  {
    QuotientBelowOne(limit, l, k);
    Quotient(limit, l, k);
    LengthScale(v, k, sqrt);
  }

  lemma Quotient(m: real, l: real, k: real)
    requires l != 0.0 && k == m / l
    ensures (1.0 / l) * m == k && k * l == m
  {
  }

  // ---------------------------------------------------------------------
  // Linear algebra. Products are passed as separate arguments where that
  // keeps the solver's arithmetic linear.

  lemma ScaleTwice(v: Vec3, a: real, b: real, c: real)
    requires a * b == c
    ensures Scale(Scale(v, a), b) == Scale(v, c)
  {
  }

  lemma ScaleAdd(a: Vec3, b: Vec3, h: real)
    ensures Scale(Add(a, b), h) == Add(Scale(a, h), Scale(b, h))
  {
  }

  lemma ScaleSub(a: Vec3, b: Vec3, h: real)
    ensures Scale(Sub(a, b), h) == Sub(Scale(a, h), Scale(b, h))
  {
  }

  lemma ScaleSumOfFactors(v: Vec3, a: real, b: real)
    ensures Scale(v, a + b) == Add(Scale(v, a), Scale(v, b))
  {
  }

  /** Two scalings by factors with equal products agree. */
  lemma ScaleTwiceEqual(p: Vec3, ka: real, ma: real, kb: real, mb: real, c: real)
    requires ka * ma == c && kb * mb == c
    ensures Scale(Scale(p, ka), ma) == Scale(Scale(p, kb), mb)
  {
    ScaleTwice(p, ka, ma, c);
    ScaleTwice(p, kb, mb, c);
  }

  /** A vector within the limit is left alone. */
  lemma ClampWithin(v: Vec3, limit: real, sqrt: real -> real)
    requires IsSqrt(sqrt) && Length(v, sqrt) <= limit
    ensures ClampLength(v, limit, sqrt) == v
  {
  }

  /** With a non-negative limit, the clamped vector never exceeds the limit. */
  lemma ClampLengthBound(v: Vec3, limit: real, sqrt: real -> real)
    requires IsSqrt(sqrt) && 0.0 <= limit
    ensures Length(ClampLength(v, limit, sqrt), sqrt) <= limit
  {
    ClampLengthSpec(v, limit, sqrt);
  }
}
