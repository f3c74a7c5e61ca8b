/**
 * The classical four-stage Runge-Kutta step of `GvObject.IntegrateMotion`,
 * for any acceleration field of position and velocity.
 */
module RungeKutta {
  import opened Vectors

  datatype Motion = Motion(position: Vec3, velocity: Vec3)

  /** `x0 + k * dt / 2`, grouped as the source groups it. */
  function HalfStep(x0: Vec3, k: Vec3, dt: real): Vec3 {
    Add(x0, DivBy(Scale(k, dt), 2.0))
  }

  /** `(k1 + 2 k2 + 2 k3 + k4) / 6` */
  function Weighted(k1: Vec3, k2: Vec3, k3: Vec3, k4: Vec3): Vec3 {
    DivBy(Add(Add(Add(k1, Scale(k2, 2.0)), Scale(k3, 2.0)), k4), 6.0)
  }

  /**
   * `IntegrateMotion`: four stages, each evaluating `accel` at a trial
   * state built from the same start `(x0, v0)`, combined with weights
   * 1, 2, 2, 1 over 6. A step of length zero changes nothing.
   */
  function Rk4(x0: Vec3, v0: Vec3, dt: real, accel: (Vec3, Vec3) -> Vec3): (m: Motion)
    ensures dt == 0.0 ==> m == Motion(x0, v0)
  {
    var k1v := v0;
    var k1a := accel(x0, v0);
    var k2v := HalfStep(v0, k1a, dt);
    var k2a := accel(HalfStep(x0, k1v, dt), k2v);
    var k3v := HalfStep(v0, k2a, dt);
    var k3a := accel(HalfStep(x0, k2v, dt), k3v);
    var k4v := Add(v0, Scale(k3a, dt));
    var k4a := accel(Add(x0, Scale(k3v, dt)), k4v);
    Motion(Add(x0, Scale(Weighted(k1v, k2v, k3v, k4v), dt)),
           Add(v0, Scale(Weighted(k1a, k2a, k3a, k4a), dt)))
  }

  /**
   * The step, given the four stage accelerations as `accel` yields them;
   * this is how a caller that evaluates the stages one at a time meets
   * `Rk4`.
   */
  lemma Rk4Stages(x0: Vec3, v0: Vec3, dt: real, accel: (Vec3, Vec3) -> Vec3,
                  k1a: Vec3, k2a: Vec3, k3a: Vec3, k4a: Vec3)
    requires k1a == accel(x0, v0)
    requires k2a == accel(HalfStep(x0, v0, dt), HalfStep(v0, k1a, dt))
    requires k3a == accel(HalfStep(x0, HalfStep(v0, k1a, dt), dt), HalfStep(v0, k2a, dt))
    requires k4a == accel(Add(x0, Scale(HalfStep(v0, k2a, dt), dt)), Add(v0, Scale(k3a, dt)))
    ensures Rk4(x0, v0, dt, accel) ==
      Motion(Add(x0, Scale(Weighted(v0, HalfStep(v0, k1a, dt), HalfStep(v0, k2a, dt), Add(v0, Scale(k3a, dt))), dt)),
             Add(v0, Scale(Weighted(k1a, k2a, k3a, k4a), dt)))
  {
  }

  /** A field that ignores the state: a constant acceleration `a`. */
  function Constant(a: Vec3): (Vec3, Vec3) -> Vec3 {
    (p: Vec3, v: Vec3) => a
  }

  /**
   * Under a constant acceleration the step is exact:
   * `x0 + v0 dt + a dt^2 / 2` and `v0 + a dt`.
   */
  lemma Rk4ConstantAcceleration(x0: Vec3, v0: Vec3, dt: real, a: Vec3)
    ensures Rk4(x0, v0, dt, Constant(a)) ==
      Motion(Add(Add(x0, Scale(v0, dt)), Scale(a, dt * dt / 2.0)), Add(v0, Scale(a, dt)))
  {
    var mid := HalfStep(v0, a, dt);
    var last := Add(v0, Scale(a, dt));
    assert Rk4(x0, v0, dt, Constant(a)) ==
      Motion(Add(x0, Scale(Weighted(v0, mid, mid, last), dt)), Add(v0, Scale(Weighted(a, a, a, a), dt)));
    WeightedOfConstant(a);
    WeightedVelocities(v0, a, dt);
    DisplacementOf(x0, v0, a, dt);
  }

  lemma WeightedOfConstant(a: Vec3)
    ensures Weighted(a, a, a, a) == a
  {
  }

  /** The stage velocities of a constant acceleration average to the midpoint velocity. */
  lemma WeightedVelocities(v0: Vec3, a: Vec3, dt: real)
    ensures Weighted(v0, HalfStep(v0, a, dt), HalfStep(v0, a, dt), Add(v0, Scale(a, dt))) ==
      HalfStep(v0, a, dt)
  {
  }

  /** `x0 + (v0 + a dt / 2) dt == x0 + v0 dt + a dt^2 / 2` */
  lemma DisplacementOf(x0: Vec3, v0: Vec3, a: Vec3, dt: real)
    ensures Add(x0, Scale(HalfStep(v0, a, dt), dt)) == Add(Add(x0, Scale(v0, dt)), Scale(a, dt * dt / 2.0))
  {
    Displacement1(x0.x, v0.x, a.x, dt);
    Displacement1(x0.y, v0.y, a.y, dt);
    Displacement1(x0.z, v0.z, a.z, dt);
  }

  lemma Displacement1(x: real, v: real, a: real, dt: real)
    ensures x + (v + a * dt / 2.0) * dt == x + v * dt + a * (dt * dt / 2.0)
  {
  }
}
