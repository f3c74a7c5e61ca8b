/**
 * The acceleration `GvObject` computes for one body at a trial position
 * and velocity: the other bodies' pulls, each Newtonian `G M / r^2`
 * scaled by a first post-Newtonian factor `1 + 3 L^2 / (c^2 r^4)`, summed
 * in registry order.
 *
 * Only the other bodies' positions and masses enter the sum, so they are
 * passed as a sequence of `Attractor` values; `GvObjects` builds that
 * sequence from the registry, leaving the body itself out.
 */
module PostNewtonian {
  import opened Vectors

  /** Bodies closer than this to the trial position are ignored. */
  const MinDistance: real := 0.01

  /** What the sum reads of another body: where it is and its mass. */
  datatype Attractor = Attractor(position: Vec3, mass: real)

  /** `G * M / r^2` */
  function Newtonian(g: real, mass: real, r: real): real
    requires r != 0.0
  {
    g * mass / (r * r)
  }

  /** The Newtonian magnitude has the sign of `G * M`. */
  lemma NewtonianSign(g: real, mass: real, r: real)
    requires r != 0.0
    ensures 0.0 < Newtonian(g, mass, r) <==> 0.0 < g * mass
    ensures Newtonian(g, mass, r) == 0.0 <==> g * mass == 0.0
  {
    SquarePositive(r, r * r);
    QuotientSign(g * mass, r * r, g * mass / (r * r));
  }

  /** `3 L^2 / (c^2 r^4)` with `L = rv x v`. */
  function Correction(cSquared: real, rv: Vec3, velocity: Vec3, r: real): real
    requires cSquared != 0.0 && r != 0.0
  {
    3.0 * LengthSquared(Cross(rv, velocity)) / (cSquared * ((r * r) * (r * r)))
  }

  /**
   * For a positive `c^2` the correction is never negative, and it vanishes
   * exactly when `rv` and `v` are parallel.
   */
  lemma CorrectionSign(cSquared: real, rv: Vec3, velocity: Vec3, r: real)
    requires 0.0 < cSquared && r != 0.0
    ensures 0.0 <= Correction(cSquared, rv, velocity, r)
    ensures Correction(cSquared, rv, velocity, r) == 0.0 <==> Cross(rv, velocity) == Zero
  {
    var rSquared := r * r;
    var rFourth := rSquared * rSquared;
    var lSquared := LengthSquared(Cross(rv, velocity));
    var denominator := cSquared * rFourth;
    SquarePositive(r, rSquared);
    SquarePositive(rSquared, rFourth);
    MulPositive(cSquared, rFourth, denominator);
    LengthSquaredNonNegative(Cross(rv, velocity));
    LengthSquaredZero(Cross(rv, velocity));
    QuotientSign(3.0 * lSquared, denominator, 3.0 * lSquared / denominator);
    assert Correction(cSquared, rv, velocity, r) == 3.0 * lSquared / denominator;
  }

  /** `totalMagnitude = newtonianMagnitude * (1 + correctionFactor)` */
  function TotalMagnitude(g: real, cSquared: real, mass: real, rv: Vec3, velocity: Vec3, r: real): real
    requires cSquared != 0.0 && r != 0.0
  {
    Newtonian(g, mass, r) * (1.0 + Correction(cSquared, rv, velocity, r))
  }

  /**
   * For a positive `c^2` the total magnitude has the sign of `G M`, its
   * size is never below the Newtonian one, and the two are equal exactly
   * when the Newtonian magnitude is zero or `rv x v = 0` (no angular
   * momentum).
   */
  lemma TotalMagnitudeBounds(g: real, cSquared: real, mass: real, rv: Vec3, velocity: Vec3, r: real)
    requires 0.0 < cSquared && r != 0.0
    ensures 0.0 < TotalMagnitude(g, cSquared, mass, rv, velocity, r) <==> 0.0 < g * mass
    ensures TotalMagnitude(g, cSquared, mass, rv, velocity, r) == 0.0 <==> g * mass == 0.0
    ensures Abs(Newtonian(g, mass, r)) <= Abs(TotalMagnitude(g, cSquared, mass, rv, velocity, r))
    ensures Abs(TotalMagnitude(g, cSquared, mass, rv, velocity, r)) == Abs(Newtonian(g, mass, r)) <==>
      Newtonian(g, mass, r) == 0.0 || Cross(rv, velocity) == Zero
  {
    var n := Newtonian(g, mass, r);
    var c := Correction(cSquared, rv, velocity, r);
    NewtonianSign(g, mass, r);
    CorrectionSign(cSquared, rv, velocity, r);
    ProductSign(n, 1.0 + c, n * (1.0 + c));
    AbsOfScaled(n, c, n * (1.0 + c));
    MagnitudeFactor(n, c, Abs(n) * (1.0 + c));
  }

  lemma AbsOfScaled(n: real, c: real, m: real)
    requires 0.0 <= c && m == n * (1.0 + c)
    ensures Abs(m) == Abs(n) * (1.0 + c)
  {
    if n < 0.0 {
      MulPositive(-n, 1.0 + c, -m);
    } else {
      MulNonNegative(n, 1.0 + c, m);
    }
  }

  lemma MagnitudeFactor(n: real, c: real, q: real)
    requires 0.0 <= c && q == Abs(n) * (1.0 + c)
    ensures Abs(n) <= q
    ensures q == Abs(n) <==> n == 0.0 || c == 0.0
  {
    assert q == Abs(n) + Abs(n) * c;
    MulNonNegative(Abs(n), c, Abs(n) * c);
    if n != 0.0 && c != 0.0 {
      MulPositive(Abs(n), c, Abs(n) * c);
    }
  }

  /**
   * The acceleration that `other` causes at `position` for a body moving
   * with `velocity`: nothing when closer than `MinDistance`, otherwise
   * `TotalMagnitude` along the unit vector towards `other`.
   */
  function Contribution(g: real, cSquared: real, sqrt: real -> real, other: Attractor,
                        position: Vec3, velocity: Vec3): Vec3
    requires IsSqrt(sqrt) && cSquared != 0.0
  {
    var rv := Sub(other.position, position);
    var r := Length(rv, sqrt);
    if r < MinDistance then Zero
    else Scale(Normalized(rv, sqrt), TotalMagnitude(g, cSquared, other.mass, rv, velocity, r))
  }

  /**
   * A body in range pulls along the line through it: the contribution is
   * `rv` times `TotalMagnitude / r`, a factor with the sign of `G M`, so
   * it points towards `other` when `G M > 0`. Its length is
   * `|TotalMagnitude|`, which `TotalMagnitude` relates to `G M / r^2`.
   */
  lemma ContributionInRange(g: real, cSquared: real, sqrt: real -> real, other: Attractor,
                            position: Vec3, velocity: Vec3)
    requires IsSqrt(sqrt) && 0.0 < cSquared
    requires MinDistance <= Length(Sub(other.position, position), sqrt)
    ensures Contribution(g, cSquared, sqrt, other, position, velocity) ==
      Scale(Sub(other.position, position),
        TotalMagnitude(g, cSquared, other.mass, Sub(other.position, position), velocity,
          Length(Sub(other.position, position), sqrt)) / Length(Sub(other.position, position), sqrt))
    ensures 0.0 < TotalMagnitude(g, cSquared, other.mass, Sub(other.position, position), velocity,
          Length(Sub(other.position, position), sqrt)) / Length(Sub(other.position, position), sqrt)
      <==> 0.0 < g * other.mass
    ensures Length(Contribution(g, cSquared, sqrt, other, position, velocity), sqrt) ==
      Abs(TotalMagnitude(g, cSquared, other.mass, Sub(other.position, position), velocity,
        Length(Sub(other.position, position), sqrt)))
  {
    var rv := Sub(other.position, position);
    var r := Length(rv, sqrt);
    var m := TotalMagnitude(g, cSquared, other.mass, rv, velocity, r);
    assert Contribution(g, cSquared, sqrt, other, position, velocity) == Scale(Normalized(rv, sqrt), m);
    LengthPositive(rv, sqrt);
    TotalMagnitudeBounds(g, cSquared, other.mass, rv, velocity, r);
    AlongUnit(rv, sqrt, r, m, m / r);
    QuotientSign(m, r, m / r);
    UnitScaled(rv, sqrt, m);
  }

  /** `Normalized(rv) * m` is `rv * (m / r)`. */
  lemma AlongUnit(rv: Vec3, sqrt: real -> real, r: real, m: real, k: real)
    requires IsSqrt(sqrt) && r == Length(rv, sqrt) && 0.0 < r && k == m / r
    ensures Scale(Normalized(rv, sqrt), m) == Scale(rv, k)
  {
    LengthPositive(rv, sqrt);
    assert (1.0 / r) * m == k;
    ScaleTwice(rv, 1.0 / r, m, k);
  }

  /** The unit vector along a non-zero `rv`, scaled by `m`, has length `|m|`. */
  lemma UnitScaled(rv: Vec3, sqrt: real -> real, m: real)
    requires IsSqrt(sqrt) && 0.0 < Length(rv, sqrt)
    ensures Length(Scale(Normalized(rv, sqrt), m), sqrt) == Abs(m)
  {
    LengthPositive(rv, sqrt);
    NormalizedIsUnit(rv, sqrt);
    LengthScaleAbs(Normalized(rv, sqrt), m, sqrt);
  }

  // ---------------------------------------------------------------------
  // The sum over the other bodies

  /** `f` applied to each element, in order. */
  function Map(f: Attractor -> Vec3, xs: seq<Attractor>): (r: seq<Vec3>)
    ensures |r| == |xs|
  {
    seq(|xs|, k requires 0 <= k < |xs| => f(xs[k]))
  }

  /** A sum of vectors, accumulated from the front. */
  function SumVec(vs: seq<Vec3>): Vec3
    decreases |vs|
  {
    if vs == [] then Zero else Add(SumVec(vs[..|vs| - 1]), vs[|vs| - 1])
  }

  /** The contribution of one attractor at a fixed trial state. */
  function Pull(g: real, cSquared: real, sqrt: real -> real, position: Vec3, velocity: Vec3): Attractor -> Vec3
    requires IsSqrt(sqrt) && cSquared != 0.0
  {
    other => Contribution(g, cSquared, sqrt, other, position, velocity)
  }

  /**
   * `GetTotalAcceleration`: the contributions of `attractors` summed in
   * order, starting from zero.
   */
  function TotalAcceleration(g: real, cSquared: real, sqrt: real -> real, attractors: seq<Attractor>,
                             position: Vec3, velocity: Vec3): Vec3
    requires IsSqrt(sqrt) && cSquared != 0.0
  {
    SumVec(Map(Pull(g, cSquared, sqrt, position, velocity), attractors))
  }

  /** The acceleration field that a fixed set of attractors sets up. */
  function Field(g: real, cSquared: real, sqrt: real -> real, attractors: seq<Attractor>): (Vec3, Vec3) -> Vec3
    requires IsSqrt(sqrt) && cSquared != 0.0
  {
    (position: Vec3, velocity: Vec3) => TotalAcceleration(g, cSquared, sqrt, attractors, position, velocity)
  }

  /** The field at a state is the total acceleration there. */
  lemma FieldAt(g: real, cSquared: real, sqrt: real -> real, attractors: seq<Attractor>,
                position: Vec3, velocity: Vec3)
    requires IsSqrt(sqrt) && cSquared != 0.0
    ensures Field(g, cSquared, sqrt, attractors)(position, velocity) ==
      TotalAcceleration(g, cSquared, sqrt, attractors, position, velocity)
  {
  }

  lemma {:induction false} SumVecAppend(xs: seq<Vec3>, ys: seq<Vec3>)
    ensures SumVec(xs + ys) == Add(SumVec(xs), SumVec(ys))
    decreases |ys|
  {
    if ys == [] {
      assert xs + ys == xs;
    } else {
      var n := |ys| - 1;
      assert (xs + ys)[..|xs| + n] == xs + ys[..n];
      assert (xs + ys)[|xs| + n] == ys[n];
      SumVecAppend(xs, ys[..n]);
    }
  }

  lemma {:induction false} SumVecOfZeros(vs: seq<Vec3>)
    requires forall k :: 0 <= k < |vs| ==> vs[k] == Zero
    ensures SumVec(vs) == Zero
    decreases |vs|
  {
    if vs != [] {
      SumVecOfZeros(vs[..|vs| - 1]);
    }
  }

  /** Summing `f` over two groups is adding the two sums. */
  lemma SumMapAppend(f: Attractor -> Vec3, xs: seq<Attractor>, ys: seq<Attractor>)
    ensures SumVec(Map(f, xs + ys)) == Add(SumVec(Map(f, xs)), SumVec(Map(f, ys)))
  {
    assert Map(f, xs + ys) == Map(f, xs) + Map(f, ys);
    SumVecAppend(Map(f, xs), Map(f, ys));
  }

  /** One more element adds its own value to the sum. */
  lemma SumMapSnoc(f: Attractor -> Vec3, xs: seq<Attractor>, a: Attractor)
    ensures SumVec(Map(f, xs + [a])) == Add(SumVec(Map(f, xs)), f(a))
  {
    var m := Map(f, xs + [a]);
    assert m[..|xs|] == Map(f, xs);
    assert m[|xs|] == f(a);
  }

  /** The sum over two groups of bodies is the sum of the two sums. */
  lemma TotalAppend(g: real, cSquared: real, sqrt: real -> real,
                    xs: seq<Attractor>, ys: seq<Attractor>, position: Vec3, velocity: Vec3)
    requires IsSqrt(sqrt) && cSquared != 0.0
    ensures TotalAcceleration(g, cSquared, sqrt, xs + ys, position, velocity) ==
      Add(TotalAcceleration(g, cSquared, sqrt, xs, position, velocity),
          TotalAcceleration(g, cSquared, sqrt, ys, position, velocity))
  {
    SumMapAppend(Pull(g, cSquared, sqrt, position, velocity), xs, ys);
  }

  /** One more attractor adds its own contribution to the sum. */
  lemma TotalSnoc(g: real, cSquared: real, sqrt: real -> real,
                  xs: seq<Attractor>, a: Attractor, position: Vec3, velocity: Vec3)
    requires IsSqrt(sqrt) && cSquared != 0.0
    ensures TotalAcceleration(g, cSquared, sqrt, xs + [a], position, velocity) ==
      Add(TotalAcceleration(g, cSquared, sqrt, xs, position, velocity),
          Contribution(g, cSquared, sqrt, a, position, velocity))
  {
    var f := Pull(g, cSquared, sqrt, position, velocity);
    SumMapSnoc(f, xs, a);
    assert f(a) == Contribution(g, cSquared, sqrt, a, position, velocity);
  }

  /** A body closer than `MinDistance` contributes nothing. */
  lemma ContributionNear(g: real, cSquared: real, sqrt: real -> real, other: Attractor,
                         position: Vec3, velocity: Vec3)
    requires IsSqrt(sqrt) && cSquared != 0.0
    requires Length(Sub(other.position, position), sqrt) < MinDistance
    ensures Contribution(g, cSquared, sqrt, other, position, velocity) == Zero
  {
  }

  /** Bodies all closer than `MinDistance` add up to nothing. */
  lemma TotalOfNear(g: real, cSquared: real, sqrt: real -> real,
                    near: seq<Attractor>, position: Vec3, velocity: Vec3)
    requires IsSqrt(sqrt) && cSquared != 0.0
    requires forall k :: 0 <= k < |near| ==> Length(Sub(near[k].position, position), sqrt) < MinDistance
    ensures TotalAcceleration(g, cSquared, sqrt, near, position, velocity) == Zero
  {
    var m := Map(Pull(g, cSquared, sqrt, position, velocity), near);
    forall k | 0 <= k < |m|
      ensures m[k] == Zero
    {
      assert m[k] == Contribution(g, cSquared, sqrt, near[k], position, velocity);
      ContributionNear(g, cSquared, sqrt, near[k], position, velocity);
    }
    SumVecOfZeros(m);
  }

  /** Inserting bodies closer than `MinDistance` anywhere leaves the sum unchanged. */
  lemma NearBodiesIgnored(g: real, cSquared: real, sqrt: real -> real,
                          xs: seq<Attractor>, near: seq<Attractor>, ys: seq<Attractor>,
                          position: Vec3, velocity: Vec3)
    requires IsSqrt(sqrt) && cSquared != 0.0
    requires forall k :: 0 <= k < |near| ==> Length(Sub(near[k].position, position), sqrt) < MinDistance
    ensures TotalAcceleration(g, cSquared, sqrt, xs + near + ys, position, velocity) ==
      TotalAcceleration(g, cSquared, sqrt, xs + ys, position, velocity)
  {
    TotalAppend(g, cSquared, sqrt, xs + near, ys, position, velocity);
    TotalAppend(g, cSquared, sqrt, xs, near, position, velocity);
    TotalOfNear(g, cSquared, sqrt, near, position, velocity);
    TotalAppend(g, cSquared, sqrt, xs, ys, position, velocity);
  }
}
