/**
 * `GvObject`, the body class: its mass and initial velocity, its position
 * and velocity, registration with the registry when it enters the scene
 * and removal when it leaves, and the Runge-Kutta step that moves it
 * under the post-Newtonian pull of every other registered body.
 *
 * The source keeps the velocity in a private field `_velocity`, while the
 * leapfrog scheme reads and writes a property `Velocity`; the model has
 * one field, `velocity`, for both. `GlobalPosition` is the field
 * `position`.
 */
module GvObjects {
  import opened Vectors
  import opened Globals
  import opened PostNewtonian
  import opened RungeKutta

  class GvObject {
    var mass: real
    var initialVelocity: Vec3
    var position: Vec3
    var velocity: Vec3

    /** A body as the scene creates it, before `_Ready`. */
    constructor (mass: real, initialVelocity: Vec3, position: Vec3)
      ensures this.mass == mass && this.initialVelocity == initialVelocity
      ensures this.position == position && this.velocity == Zero
    {
      this.mass := mass;
      this.initialVelocity := initialVelocity;
      this.position := position;
      this.velocity := Zero;
    }

    /** `_Ready`: starts moving at `InitialVelocity` and registers itself. */
    method Ready(registry: Registry<GvObject>)
      requires registry.Valid()
      modifies this`velocity, registry`notifications, registry.gvObjects
      ensures velocity == initialVelocity
      ensures registry.Valid() && this in registry.gvObjects.items
      ensures registry.gvObjects.items == AddIfAbsent(old(registry.gvObjects.items), this)
      ensures registry.notifications ==
        old(registry.notifications) + if this in old(registry.gvObjects.items) then 0 else 1
    {
      velocity := initialVelocity;
      registry.AddGvObject(this);
    }

    /** `_ExitTree`: unregisters itself. */
    method ExitTree(registry: Registry<GvObject>)
      requires registry.Valid()
      modifies registry.gvObjects
      ensures registry.Valid() && this !in registry.gvObjects.items
      ensures registry.gvObjects.items == Removed(old(registry.gvObjects.items), this)
    {
      registry.RmGvObject(this);
      RemovedMembers(old(registry.gvObjects.items), this);
    }

    /**
     * `GetTotalAcceleration`: walks the registry, skips this body, and
     * adds the contribution of every other one. Changes nothing.
     */
    method GetTotalAcceleration(registry: Registry<GvObject>, g: real, cSquared: real, sqrt: real -> real,
                                tempPosition: Vec3, tempVelocity: Vec3) returns (total: Vec3)
      requires IsSqrt(sqrt) && cSquared != 0.0
      ensures total == TotalAcceleration(g, cSquared, sqrt, Attractors(this, registry.gvObjects.items),
                                         tempPosition, tempVelocity)
    {
      var list := registry.GetAllGvObjects();
      var objs := list.items;
      total := Zero;
      var k := 0;
      while k < |objs|
        invariant 0 <= k <= |objs|
        invariant total == TotalAcceleration(g, cSquared, sqrt, Attractors(this, objs[..k]),
                                             tempPosition, tempVelocity)
      {
        var other := objs[k];
        assert objs[..k + 1] == objs[..k] + [other];
        AttractorsSnoc(this, objs[..k], other);
        if other != this {
          var a := Attractor(other.position, other.mass);
          TotalSnoc(g, cSquared, sqrt, Attractors(this, objs[..k]), a, tempPosition, tempVelocity);
          total := Add(total, Contribution(g, cSquared, sqrt, a, tempPosition, tempVelocity));
        }
        k := k + 1;
      }
      assert objs[..k] == objs;
    }

    /**
     * The first part of `IntegrateMotion`: the four stages, each one call
     * of `GetTotalAcceleration` at a trial state built from the current
     * position and velocity, and their weighted averages. Changes nothing;
     * moving by the averages is the Runge-Kutta step in the field of the
     * other bodies.
     */
    method StageAverages(registry: Registry<GvObject>, g: real, cSquared: real, sqrt: real -> real,
                         x0: Vec3, v0: Vec3, dt: real)
      returns (avgV: Vec3, avgA: Vec3)
      requires IsSqrt(sqrt) && cSquared != 0.0
      ensures Motion(Add(x0, Scale(avgV, dt)), Add(v0, Scale(avgA, dt))) ==
        Rk4(x0, v0, dt, Field(g, cSquared, sqrt, Attractors(this, registry.gvObjects.items)))
    {
      ghost var felt := Attractors(this, registry.gvObjects.items);

      var k1v := v0;
      var k1a := GetTotalAcceleration(registry, g, cSquared, sqrt, x0, v0);
      assert Attractors(this, registry.gvObjects.items) == felt;

      var xMid1 := HalfStep(x0, k1v, dt);
      var vMid1 := HalfStep(v0, k1a, dt);
      var k2v := vMid1;
      var k2a := GetTotalAcceleration(registry, g, cSquared, sqrt, xMid1, vMid1);
      assert Attractors(this, registry.gvObjects.items) == felt;

      var xMid2 := HalfStep(x0, k2v, dt);
      var vMid2 := HalfStep(v0, k2a, dt);
      var k3v := vMid2;
      var k3a := GetTotalAcceleration(registry, g, cSquared, sqrt, xMid2, vMid2);
      assert Attractors(this, registry.gvObjects.items) == felt;

      var xEnd := Add(x0, Scale(k3v, dt));
      var vEnd := Add(v0, Scale(k3a, dt));
      var k4v := vEnd;
      var k4a := GetTotalAcceleration(registry, g, cSquared, sqrt, xEnd, vEnd);
      assert Attractors(this, registry.gvObjects.items) == felt;

      avgV := Weighted(k1v, k2v, k3v, k4v);
      avgA := Weighted(k1a, k2a, k3a, k4a);
      StepInField(g, cSquared, sqrt, felt, x0, v0, dt, k1a, k2a, k3a, k4a);
    }

    /** The last part of `IntegrateMotion`: moves by the averages over `dt`. */
    method MoveBy(avgV: Vec3, avgA: Vec3, dt: real)
      modifies this`position, this`velocity
      ensures position == Add(old(position), Scale(avgV, dt))
      ensures velocity == Add(old(velocity), Scale(avgA, dt))
    {
      position := Add(position, Scale(avgV, dt));
      velocity := Add(velocity, Scale(avgA, dt));
    }

    /**
     * `IntegrateMotion`: one Runge-Kutta step of length `dt` in the field
     * of the other bodies as they are before the step. Only this body's
     * position and velocity change.
     */
    method IntegrateMotion(registry: Registry<GvObject>, g: real, cSquared: real, sqrt: real -> real, dt: real)
      requires IsSqrt(sqrt) && cSquared != 0.0
      modifies this`position, this`velocity
      ensures Motion(position, velocity) ==
        Rk4(old(position), old(velocity), dt, Field(g, cSquared, sqrt, old(Attractors(this, registry.gvObjects.items))))
    {
      var avgV, avgA := StageAverages(registry, g, cSquared, sqrt, position, velocity, dt);
      MoveBy(avgV, avgA, dt);
    }

    /** `_PhysicsProcess`: one Runge-Kutta step over the tick's `delta`. */
    method PhysicsProcess(registry: Registry<GvObject>, g: real, cSquared: real, sqrt: real -> real, delta: real)
      requires IsSqrt(sqrt) && cSquared != 0.0
      modifies this`position, this`velocity
      ensures Motion(position, velocity) ==
        Rk4(old(position), old(velocity), delta, Field(g, cSquared, sqrt, old(Attractors(this, registry.gvObjects.items))))
    {
      IntegrateMotion(registry, g, cSquared, sqrt, delta);
    }
  }

  /**
   * Four stage accelerations, each the total acceleration of `attractors`
   * at its stage's trial state, make up the step `Rk4` takes in their field.
   */
  lemma StepInField(g: real, cSquared: real, sqrt: real -> real, attractors: seq<Attractor>,
                    x0: Vec3, v0: Vec3, dt: real, k1a: Vec3, k2a: Vec3, k3a: Vec3, k4a: Vec3)
    requires IsSqrt(sqrt) && cSquared != 0.0
    requires k1a == TotalAcceleration(g, cSquared, sqrt, attractors, x0, v0)
    requires k2a == TotalAcceleration(g, cSquared, sqrt, attractors, HalfStep(x0, v0, dt), HalfStep(v0, k1a, dt))
    requires k3a == TotalAcceleration(g, cSquared, sqrt, attractors,
                                      HalfStep(x0, HalfStep(v0, k1a, dt), dt), HalfStep(v0, k2a, dt))
    requires k4a == TotalAcceleration(g, cSquared, sqrt, attractors,
                                      Add(x0, Scale(HalfStep(v0, k2a, dt), dt)), Add(v0, Scale(k3a, dt)))
    ensures Rk4(x0, v0, dt, Field(g, cSquared, sqrt, attractors)) ==
      Motion(Add(x0, Scale(Weighted(v0, HalfStep(v0, k1a, dt), HalfStep(v0, k2a, dt), Add(v0, Scale(k3a, dt))), dt)),
             Add(v0, Scale(Weighted(k1a, k2a, k3a, k4a), dt)))
  {
    var field := Field(g, cSquared, sqrt, attractors);
    FieldAt(g, cSquared, sqrt, attractors, x0, v0);
    FieldAt(g, cSquared, sqrt, attractors, HalfStep(x0, v0, dt), HalfStep(v0, k1a, dt));
    FieldAt(g, cSquared, sqrt, attractors, HalfStep(x0, HalfStep(v0, k1a, dt), dt), HalfStep(v0, k2a, dt));
    FieldAt(g, cSquared, sqrt, attractors, Add(x0, Scale(HalfStep(v0, k2a, dt), dt)), Add(v0, Scale(k3a, dt)));
    Rk4Stages(x0, v0, dt, field, k1a, k2a, k3a, k4a);
  }

  /**
   * What the sum over the registry reads of each body other than `self`:
   * its position and mass, in registry order.
   */
  function Attractors(self: GvObject, objs: seq<GvObject>): seq<Attractor>
    reads objs
    decreases |objs|
  {
    if objs == [] then []
    else
      var n := |objs| - 1;
      var rest := Attractors(self, objs[..n]);
      if objs[n] == self then rest else rest + [Attractor(objs[n].position, objs[n].mass)]
  }

  lemma AttractorsSnoc(self: GvObject, objs: seq<GvObject>, o: GvObject)
    ensures Attractors(self, objs + [o]) ==
      if o == self then Attractors(self, objs) else Attractors(self, objs) + [Attractor(o.position, o.mass)]
  {
    assert (objs + [o])[..|objs|] == objs;
  }

  /** The sum over a list split in two reads the two parts in order. */
  lemma {:induction false} AttractorsAppend(self: GvObject, xs: seq<GvObject>, ys: seq<GvObject>)
    ensures Attractors(self, xs + ys) == Attractors(self, xs) + Attractors(self, ys)
    decreases |ys|
  {
    if ys == [] {
      assert xs + ys == xs;
    } else {
      var n := |ys| - 1;
      assert xs + ys == (xs + ys[..n]) + [ys[n]];
      AttractorsSnoc(self, xs + ys[..n], ys[n]);
      AttractorsSnoc(self, ys[..n], ys[n]);
      assert ys == ys[..n] + [ys[n]];
      AttractorsAppend(self, xs, ys[..n]);
    }
  }

  /**
   * A body never acts on itself: wherever it sits in the registry, the
   * bodies it feels are those of the registry without it.
   */
  lemma SelfNeverAttracts(self: GvObject, objs: seq<GvObject>, i: nat)
    requires i < |objs| && objs[i] == self
    ensures Attractors(self, objs) == Attractors(self, objs[..i] + objs[i + 1..])
  {
    assert objs == objs[..i] + [self] + objs[i + 1..];
    AttractorsAppend(self, objs[..i] + [self], objs[i + 1..]);
    AttractorsSnoc(self, objs[..i], self);
    AttractorsAppend(self, objs[..i], objs[i + 1..]);
  }
}
