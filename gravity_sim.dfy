/**
 * `GravitySim`, the node that advances every registered body once per
 * physics tick: it keeps the acceleration buffer and the drift-removal
 * frame counter, and updates the bodies' velocities and positions in place.
 *
 * Each loop is proved to compute the value-level function of module
 * `Leapfrog` that describes it, so the tick as a whole is `Tick` applied to
 * the bodies as they were before it.
 */
module GravitySimulation {
  import opened Vectors
  import opened Globals
  import opened Leapfrog
  import GvObjects

  type GvObject = GvObjects.GvObject

  /** What the tick reads of one body. */
  function Body(o: GvObject): BodyState
    reads o
  {
    BodyState(o.mass, o.position, o.velocity)
  }

  /** The bodies of `objs`, in order, as values. */
  function Snapshot(objs: seq<GvObject>): (r: seq<BodyState>)
    reads objs
    ensures |r| == |objs| && forall k :: 0 <= k < |objs| ==> r[k] == Body(objs[k])
  {
    seq(|objs|, k requires 0 <= k < |objs| reads objs => Body(objs[k]))
  }

  /** `bodies` holds, slot by slot, what the tick reads of `objs`. */
  ghost predicate Mirrors(objs: seq<GvObject>, bodies: seq<BodyState>)
    reads objs
  {
    |bodies| == |objs| && forall k :: 0 <= k < |objs| ==> bodies[k] == Body(objs[k])
  }

  /**
   * The first loop of `StabilizeCenterOfMass`: the total momentum and the
   * total mass, summed front to back. Changes nothing.
   */
  method Totals(objs: seq<GvObject>) returns (totalMomentum: Vec3, totalMass: real)
    ensures totalMomentum == Momentum(Snapshot(objs)) && totalMass == TotalMass(Snapshot(objs))
  {
    ghost var bodies := Snapshot(objs);
    ghost var vs, ms := Velocities(bodies), Masses(bodies);
    totalMomentum := Zero;
    totalMass := 0.0;
    for i := 0 to |objs|
      invariant totalMomentum == MassWeighted(vs[..i], ms[..i])
      invariant totalMass == Sum(ms[..i])
    {
      var o := objs[i];
      assert vs[..i + 1][..i] == vs[..i] && ms[..i + 1][..i] == ms[..i];
      totalMomentum := Add(totalMomentum, Scale(o.velocity, o.mass));
      totalMass := totalMass + o.mass;
    }
    assert vs[..|objs|] == vs && ms[..|objs|] == ms;
  }

  /** The second loop of `StabilizeCenterOfMass`: `Velocity -= drift` for every body. */
  method ShiftVelocities(objs: seq<GvObject>, drift: Vec3)
    requires NoDuplicates(objs)
    modifies objs`velocity
    ensures Snapshot(objs) == Shift(old(Snapshot(objs)), drift)
  {
    ghost var before := Snapshot(objs);
    for i := 0 to |objs|
      invariant forall k :: 0 <= k < i ==> objs[k].velocity == Sub(before[k].velocity, drift)
      invariant forall k :: i <= k < |objs| ==> objs[k].velocity == before[k].velocity
    {
      objs[i].velocity := Sub(objs[i].velocity, drift);
    }
    assert Snapshot(objs) == Shift(before, drift);
  }

  /**
   * `StabilizeCenterOfMass`: with a non-positive total mass it stops,
   * otherwise it subtracts the centre-of-mass velocity from every body.
   */
  method StabilizeCenterOfMass(objs: seq<GvObject>)
    requires NoDuplicates(objs)
    modifies objs`velocity
    ensures Snapshot(objs) == RemoveDrift(old(Snapshot(objs)))
  {
    var totalMomentum, totalMass := Totals(objs);
    if totalMass <= 0.0 {
      return;
    }
    var drift := DivBy(totalMomentum, totalMass);
    ShiftVelocities(objs, drift);
  }

  class GravitySim {
    /**
     * The exported settings. The editor sets them before the scene runs
     * and the node never writes them, so they are fixed at construction.
     */
    const g: real
    const softening: real
    const removeCenterOfMassDrift: bool
    const maxAcceleration: real
    const maxVelocity: real
    /** `_accelerations`: one slot per body, allocated on the first tick. */
    var accelerations: array?<Vec3>
    /** `_comFrameCounter` */
    var comFrameCounter: Int32

    /** The node with its exported defaults. */
    constructor ()
      ensures g == 1.0 && softening == 0.5 && removeCenterOfMassDrift
      ensures maxAcceleration == 1000.0 && maxVelocity == 500.0
      ensures accelerations == null && comFrameCounter == 0
    {
      g := 1.0;
      softening := 0.5;
      removeCenterOfMassDrift := true;
      maxAcceleration := 1000.0;
      maxVelocity := 500.0;
      accelerations := null;
      comFrameCounter := 0;
    }

    /** The node with the settings the editor gave it. */
    constructor Configured(g: real, softening: real, removeCenterOfMassDrift: bool,
                           maxAcceleration: real, maxVelocity: real)
      ensures this.g == g && this.softening == softening
      ensures this.removeCenterOfMassDrift == removeCenterOfMassDrift
      ensures this.maxAcceleration == maxAcceleration && this.maxVelocity == maxVelocity
      ensures accelerations == null && comFrameCounter == 0
    {
      this.g := g;
      this.softening := softening;
      this.removeCenterOfMassDrift := removeCenterOfMassDrift;
      this.maxAcceleration := maxAcceleration;
      this.maxVelocity := maxVelocity;
      accelerations := null;
      comFrameCounter := 0;
    }

    function Settings(): (cfg: Config)
      ensures cfg.g == g && cfg.softening == softening
      ensures cfg.maxAcceleration == maxAcceleration && cfg.maxVelocity == maxVelocity
    {
      Config(g, softening, maxAcceleration, maxVelocity)
    }

    /** `EnsureAccelerationBuffer`: keeps a buffer of the right length, else allocates one. */
    method EnsureAccelerationBuffer(count: nat)
      modifies this`accelerations
      ensures accelerations != null && accelerations.Length == count
      ensures old(accelerations) != null && old(accelerations).Length == count ==>
        accelerations == old(accelerations)
      ensures accelerations != old(accelerations) ==> fresh(accelerations)
    {
      if accelerations == null || accelerations.Length != count {
        accelerations := new Vec3[count](_ => Zero);
      }
    }

    /**
     * The first part of the inner loop of `ComputeAccelerations`: the
     * softened inverse-square pull at `a` towards `b`. Changes nothing.
     */
    method SoftenedPull(a: GvObject, b: GvObject, softSq: real, sqrt: real -> real) returns (acc: Vec3)
      requires IsSqrt(sqrt) && softSq == SofteningSquared(Settings())
      ensures acc == Pull(Settings(), sqrt, Body(a), Body(b))
    {
      var r := Sub(b.position, a.position);
      var distSq := LengthSquared(r) + softSq;
      assert distSq == SoftenedDistanceSquared(Settings(), r);
      acc := Zero;
      if distSq != 0.0 {
        var invDist := 1.0 / Root(distSq, sqrt);
        var invDist3 := invDist * invDist * invDist;
        assert invDist3 == InverseCube(distSq, sqrt);
        acc := Scale(r, invDist3);
      }
    }

    /**
     * The inner loop's body for the bodies `a` and `b`: the pull, scaled by
     * `G` times the other mass, each side clamped to `MaxAcceleration`.
     * Changes nothing.
     */
    method PairAccelerations(a: GvObject, b: GvObject, softSq: real, sqrt: real -> real)
      returns (accA: Vec3, accB: Vec3)
      requires IsSqrt(sqrt) && softSq == SofteningSquared(Settings())
      ensures accA == OnFirst(Settings(), sqrt, Body(a), Body(b))
      ensures accB == OnSecond(Settings(), sqrt, Body(a), Body(b))
    {
      var acc := SoftenedPull(a, b, softSq, sqrt);
      var rawA := ScaledPull(acc, b);
      var rawB := ScaledPull(acc, a);
      accA := ClampAcceleration(rawA, sqrt);
      accB := ClampAcceleration(rawB, sqrt);
    }

    /** `acc * (G * other.Mass)`: the pull towards `other`, scaled by its mass. */
    method ScaledPull(acc: Vec3, other: GvObject) returns (raw: Vec3)
      ensures raw == RawOnFirst(Settings(), acc, Body(other)) && raw == RawOnSecond(Settings(), acc, Body(other))
    {
      raw := Scale(acc, g * other.mass);
    }

    /** An acceleration longer than `MaxAcceleration` is cut back to that length. */
    method ClampAcceleration(raw: Vec3, sqrt: real -> real) returns (acc: Vec3)
      requires IsSqrt(sqrt)
      ensures acc == ClampLength(raw, maxAcceleration, sqrt)
    {
      acc := raw;
      if Length(acc, sqrt) > maxAcceleration {
        acc := Scale(Normalized(acc, sqrt), maxAcceleration);
      }
    }

    /** The first loop of `ComputeAccelerations`: every slot back to zero. */
    method ClearAccelerations()
      requires accelerations != null
      modifies accelerations
      ensures accelerations[..] == Zeros(accelerations.Length)
    {
      for i := 0 to accelerations.Length
        invariant forall k :: 0 <= k < i ==> accelerations[k] == Zero
      {
        accelerations[i] := Zero;
      }
    }

    /**
     * One pass of the inner loop of `ComputeAccelerations`: body `i` with
     * every later body `j`, adding the first body's acceleration to slot
     * `i` and subtracting the second's from slot `j`.
     */
    method AccumulatePair(objs: seq<GvObject>, i: nat, j: nat, softSq: real, sqrt: real -> real,
                          ghost bodies: seq<BodyState>)
      requires IsSqrt(sqrt) && softSq == SofteningSquared(Settings())
      requires accelerations != null && accelerations.Length == |objs| && i < j < |objs|
      requires Mirrors(objs, bodies)
      modifies accelerations
      ensures accelerations[..] ==
        PairStep(FirstTable(Settings(), sqrt), SecondTable(Settings(), sqrt), bodies, old(accelerations[..]), i, j)
    {
      var accA, accB := PairAccelerations(objs[i], objs[j], softSq, sqrt);
      assert bodies[i] == Body(objs[i]) && bodies[j] == Body(objs[j]);
      accelerations[i] := Add(accelerations[i], accA);
      accelerations[j] := Sub(accelerations[j], accB);
    }

    method AccumulateRow(objs: seq<GvObject>, i: nat, softSq: real, sqrt: real -> real, ghost bodies: seq<BodyState>)
      requires IsSqrt(sqrt) && softSq == SofteningSquared(Settings())
      requires accelerations != null && accelerations.Length == |objs| && i < |objs|
      requires Mirrors(objs, bodies)
      modifies accelerations
      ensures accelerations[..] ==
        Row(FirstTable(Settings(), sqrt), SecondTable(Settings(), sqrt), bodies, old(accelerations[..]), i, |objs|)
    {
      ghost var before := accelerations[..];
      for j := i + 1 to |objs|
        invariant accelerations[..] ==
          Row(FirstTable(Settings(), sqrt), SecondTable(Settings(), sqrt), bodies, before, i, j)
      {
        AccumulatePair(objs, i, j, softSq, sqrt, bodies);
      }
    }

    /** Row `i` of the pair loop, on a buffer that holds the rows before it. */
    method AccumulateNextRow(objs: seq<GvObject>, i: nat, softSq: real, sqrt: real -> real,
                             ghost bodies: seq<BodyState>)
      requires IsSqrt(sqrt) && softSq == SofteningSquared(Settings())
      requires accelerations != null && accelerations.Length == |objs| && i < |objs|
      requires Mirrors(objs, bodies)
      requires accelerations[..] ==
        Rows(FirstTable(Settings(), sqrt), SecondTable(Settings(), sqrt), bodies, Zeros(|objs|), i)
      modifies accelerations
      ensures accelerations[..] ==
        Rows(FirstTable(Settings(), sqrt), SecondTable(Settings(), sqrt), bodies, Zeros(|objs|), i + 1)
    {
      AccumulateRow(objs, i, softSq, sqrt, bodies);
    }

    /**
     * `ComputeAccelerations`: zeroes the buffer, then for every pair
     * `i < j` adds the first body's acceleration to slot `i` and subtracts
     * the second's from slot `j`.
     */
    method ComputeAccelerations(objs: seq<GvObject>, sqrt: real -> real)
      requires IsSqrt(sqrt) && accelerations != null && accelerations.Length == |objs|
      modifies accelerations
      ensures accelerations[..] == Accelerations(Settings(), sqrt, Snapshot(objs))
    {
      ClearAccelerations();
      var softSq := SofteningSquared(Settings());
      ghost var bodies := Snapshot(objs);
      for i := 0 to |objs|
        invariant Mirrors(objs, bodies)
        invariant accelerations[..] ==
          Rows(FirstTable(Settings(), sqrt), SecondTable(Settings(), sqrt), bodies, Zeros(|objs|), i)
      {
        AccumulateNextRow(objs, i, softSq, sqrt, bodies);
      }
    }

    /** `Velocity += _accelerations[i] * h` for every body: a half kick. */
    method KickVelocities(objs: seq<GvObject>, h: real)
      requires accelerations != null && accelerations.Length == |objs| && NoDuplicates(objs)
      modifies objs`velocity
      ensures Snapshot(objs) == Kick(old(Snapshot(objs)), accelerations[..], h)
    {
      ghost var before := Snapshot(objs);
      for i := 0 to |objs|
        invariant forall k :: 0 <= k < i ==> objs[k].velocity == Add(before[k].velocity, Scale(accelerations[k], h))
        invariant forall k :: i <= k < |objs| ==> objs[k].velocity == before[k].velocity
      {
        objs[i].velocity := Add(objs[i].velocity, Scale(accelerations[i], h));
      }
      assert Snapshot(objs) == Kick(before, accelerations[..], h);
    }

    /** `GlobalPosition += Velocity * dt` for every body. */
    method DriftPositions(objs: seq<GvObject>, dt: real)
      requires NoDuplicates(objs)
      modifies objs`position
      ensures Snapshot(objs) == Drift(old(Snapshot(objs)), dt)
    {
      ghost var before := Snapshot(objs);
      for i := 0 to |objs|
        invariant forall k :: 0 <= k < i ==>
          objs[k].position == Add(before[k].position, Scale(before[k].velocity, dt))
        invariant forall k :: i <= k < |objs| ==> objs[k].position == before[k].position
      {
        objs[i].position := Add(objs[i].position, Scale(objs[i].velocity, dt));
      }
      assert Snapshot(objs) == Drift(before, dt);
    }

    /** One body's second half kick, the new velocity then held to `MaxVelocity`. */
    method LimitedKick(o: GvObject, a: Vec3, h: real, sqrt: real -> real)
      requires IsSqrt(sqrt)
      modifies o`velocity
      ensures o.velocity == ClampLength(Add(old(o.velocity), Scale(a, h)), maxVelocity, sqrt)
    {
      o.velocity := Add(o.velocity, Scale(a, h));
      if Length(o.velocity, sqrt) > maxVelocity {
        o.velocity := Scale(Normalized(o.velocity, sqrt), maxVelocity);
      }
    }

    /** The second half kick for every body, each new velocity then held to `MaxVelocity`. */
    method FinalKick(objs: seq<GvObject>, h: real, sqrt: real -> real)
      requires IsSqrt(sqrt)
      requires accelerations != null && accelerations.Length == |objs| && NoDuplicates(objs)
      modifies objs`velocity
      ensures Snapshot(objs) ==
        ClampVelocities(Kick(old(Snapshot(objs)), accelerations[..], h), maxVelocity, sqrt)
    {
      ghost var before := Snapshot(objs);
      for i := 0 to |objs|
        invariant forall k :: 0 <= k < i ==>
          objs[k].velocity == ClampLength(Add(before[k].velocity, Scale(accelerations[k], h)), maxVelocity, sqrt)
        invariant forall k :: i <= k < |objs| ==> objs[k].velocity == before[k].velocity
      {
        LimitedKick(objs[i], accelerations[i], h, sqrt);
      }
      assert Snapshot(objs) == ClampVelocities(Kick(before, accelerations[..], h), maxVelocity, sqrt);
    }

    /** The first half kick: forces at the start, then half a kick. */
    method FirstKick(objs: seq<GvObject>, dt: real, sqrt: real -> real)
      requires IsSqrt(sqrt) && accelerations != null && accelerations.Length == |objs| && NoDuplicates(objs)
      modifies accelerations, objs`velocity
      ensures Snapshot(objs) ==
        Kick(old(Snapshot(objs)), Accelerations(Settings(), sqrt, old(Snapshot(objs))), 0.5 * dt)
    {
      ComputeAccelerations(objs, sqrt);
      KickVelocities(objs, 0.5 * dt);
    }

    /**
     * The first half of the step: forces at the start, half a kick, then a
     * full drift with the kicked velocities.
     */
    method KickDrift(objs: seq<GvObject>, dt: real, sqrt: real -> real)
      requires IsSqrt(sqrt) && accelerations != null && accelerations.Length == |objs| && NoDuplicates(objs)
      modifies accelerations, objs`velocity, objs`position
      ensures Snapshot(objs) == Drifted(Settings(), sqrt, old(Snapshot(objs)), dt)
    {
      FirstKick(objs, dt, sqrt);
      DriftPositions(objs, dt);
    }

    /** The second half: forces at the drifted positions, then the limited half kick. */
    method KickAgain(objs: seq<GvObject>, dt: real, sqrt: real -> real)
      requires IsSqrt(sqrt) && accelerations != null && accelerations.Length == |objs| && NoDuplicates(objs)
      modifies accelerations, objs`velocity
      ensures Snapshot(objs) == ClampVelocities(
        Kick(old(Snapshot(objs)), Accelerations(Settings(), sqrt, old(Snapshot(objs))), 0.5 * dt), maxVelocity, sqrt)
    {
      ComputeAccelerations(objs, sqrt);
      FinalKick(objs, 0.5 * dt, sqrt);
    }

    /** The whole kick-drift-kick update of the bodies. */
    method LeapfrogUpdate(objs: seq<GvObject>, dt: real, sqrt: real -> real)
      requires IsSqrt(sqrt) && accelerations != null && accelerations.Length == |objs| && NoDuplicates(objs)
      modifies accelerations, objs`velocity, objs`position
      ensures Snapshot(objs) == LeapfrogStep(Settings(), sqrt, old(Snapshot(objs)), dt)
    {
      KickDrift(objs, dt, sqrt);
      KickAgain(objs, dt, sqrt);
    }

    /**
     * The end of a tick with drift removal enabled: the frame counter
     * advances, and every `DriftRemovalPeriod`-th frame the centre-of-mass
     * velocity is removed.
     */
    method CountFrame(objs: seq<GvObject>)
      requires NoDuplicates(objs)
      modifies this`comFrameCounter, objs`velocity
      ensures comFrameCounter == CounterAfterTick(removeCenterOfMassDrift, old(comFrameCounter))
      ensures Snapshot(objs) ==
        if StabilizesOnTick(removeCenterOfMassDrift, old(comFrameCounter)) then RemoveDrift(old(Snapshot(objs)))
        else old(Snapshot(objs))
    {
      if removeCenterOfMassDrift {
        comFrameCounter := Increment(comFrameCounter);
        if CSharpRemainder(comFrameCounter, DriftRemovalPeriod) == 0 {
          StabilizeCenterOfMass(objs);
        }
      }
    }

    /**
     * `_PhysicsProcess`: nothing happens while paused or with fewer than
     * two bodies; otherwise the bodies take one leapfrog step of
     * `Timestep(delta)`, and the frame counter and drift removal follow
     * `CounterAfterTick` and `StabilizesOnTick`.
     */
    method PhysicsProcess(registry: Registry<GvObject>, paused: bool, delta: real, sqrt: real -> real)
      requires registry.Valid() && IsSqrt(sqrt)
      modifies this`accelerations, this`comFrameCounter, accelerations
      modifies registry.gvObjects.items`velocity, registry.gvObjects.items`position
      ensures paused || |registry.gvObjects.items| < 2 ==>
        Snapshot(registry.gvObjects.items) == old(Snapshot(registry.gvObjects.items)) &&
        comFrameCounter == old(comFrameCounter) && accelerations == old(accelerations) &&
        (accelerations != null ==> accelerations[..] == old(accelerations[..]))
      ensures !paused && 2 <= |registry.gvObjects.items| ==>
        accelerations != null && accelerations.Length == |registry.gvObjects.items|
      ensures !paused && 2 <= |registry.gvObjects.items| ==>
        Snapshot(registry.gvObjects.items) ==
          Tick(Settings(), removeCenterOfMassDrift, old(comFrameCounter), sqrt,
               old(Snapshot(registry.gvObjects.items)), Timestep(delta)) &&
        comFrameCounter == CounterAfterTick(removeCenterOfMassDrift, old(comFrameCounter))
    {
      if paused {
        return;
      }
      var dt := Timestep(delta);
      var list := registry.GetAllGvObjects();
      var objs := list.items;
      var count := |objs|;
      if count < 2 {
        return;
      }
      EnsureAccelerationBuffer(count);
      LeapfrogUpdate(objs, dt, sqrt);
      CountFrame(objs);
    }
  }
}
