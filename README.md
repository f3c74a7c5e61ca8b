# GravitySim in Dafny

This project models the physics core of the GravitySim Godot project, a
real-time N-body sandbox:

- **The leapfrog tick of the `GravitySim` node.** It clamps the timestep and
  zeroes an acceleration buffer. It accumulates the softened, clamped pull of
  every unordered pair of bodies, then half-kicks, drifts and recomputes. A
  second half-kick clamps the speed. Every tenth counted frame it removes
  the centre-of-mass drift.
- **The static registry `Globals`.** It holds the list of bodies without
  duplicates, with its "objects changed" notification.
- **The body class `GvObject`.** It registers on `_Ready` and unregisters on
  `_ExitTree`. Its own fourth-order Runge-Kutta step feels a post-Newtonian
  correction from every other registered body.

Modules and files:

| file | module | models |
|---|---|---|
| `vectors.dfy` | `Vectors` | `Vector3` arithmetic; length, normalisation and length clamping over a square-root oracle |
| `globals.dfy` | `Globals` | `Scripts/Globals.cs`: the registry class and its list operations |
| `post_newtonian.dfy` | `PostNewtonian` | the acceleration sum of `GvObject.GetTotalAcceleration` as value functions |
| `rk4.dfy` | `RungeKutta` | the Runge-Kutta step of `GvObject.IntegrateMotion` for any acceleration field |
| `gv_object.dfy` | `GvObjects` | `Scripts/ObjectScripts/GvObject.cs`: the body class and its methods |
| `leapfrog.dfy` | `Leapfrog` | the tick of `GravitySim` as value functions on a sequence of body states, with its properties |
| `gravity_sim.dfy` | `GravitySimulation` | `Scripts/ObjectScripts/GravitySim.cs`: the node class itself, its buffer, its counter and its loops |

### Conventions

- **Arithmetic.** All arithmetic is on exact reals.
- **Square roots.** `Mathf.Sqrt`, `Length()` and `Normalized()` use a
  square-root function `sqrt`, given as a parameter. All that is assumed of it
  (`IsSqrt`) is that it returns the non-negative root of a non-negative
  argument.
- **Imperative code.** The imperative source stays imperative:
  - `GravitySim` is a class with the buffer as an `array` and the frame counter
    as a field.
  - Bodies are `GvObject` objects whose `position` and `velocity` the loops
    update in place.
  - Each loop is proved equal to a value function of module `Leapfrog`
    (`Accelerations`, `Kick`, `Drift`, `ClampVelocities`, `RemoveDrift`,
    `Tick`), whose properties are proved as lemmas.
- **Velocity field.** `GravitySim.cs` reads and writes `Velocity`, while the
  `GvObject` shown keeps its velocity in the private `_velocity`. The model
  has one field, `velocity`, for both.
- **Missing settings.** `Globals.G`, `Globals.CSquared` and
  `Globals.SimulationPaused` are referenced by the code but are commented out
  or absent in `Scripts/Globals.cs:8-10`. So `G`, the squared speed of light and
  the paused flag are parameters of the operations that read them.
- **Registry.** The static list and the static event of the registry become
  one `Registry` object. The event becomes a counter of how many times it was
  raised.

## Model

| member | source | states |
|---|---|---|
| `Globals.AddIfAbsent` | Scripts/Globals.cs:21-29 | the element is present afterwards; an element already present leaves the list as it was; a new one is appended at the end with the old contents kept in order; no duplicates are introduced |
| `Globals.AddIfAbsentIdempotent` | Scripts/Globals.cs:21-29 | adding the same body twice has the effect of adding it once |
| `Globals.IndexOf` | Scripts/Globals.cs:33 | the position `List.Remove` finds: the first occurrence of the element |
| `Globals.Removed` | Scripts/Globals.cs:31-34 | removing an absent body is a no-op; removing a present one shortens the list by one |
| `Globals.RemovedKeepsOrder` | Scripts/Globals.cs:33 | removal keeps everything before the removed occurrence in place and shifts everything after it down by one, so the others keep their relative order |
| `Globals.RemovedMembers` | Scripts/Globals.cs:31-34 | in a list without duplicates, removal deletes exactly the given body and keeps the list free of duplicates |
| `Globals.DropUnique` | Scripts/Globals.cs:33 | dropping one position of a duplicate-free list leaves it duplicate-free and holding every other element |
| `Globals.DropAt` | Scripts/Globals.cs:33 | the index arithmetic of dropping one position |
| `Globals.Apply` | Scripts/Globals.cs:21-34 | one registry change: a registration adds as `AddGvObject` does, an unregistration removes as `RmGvObject` does |
| `Globals.Replay` | Scripts/Globals.cs:21-34 | the registry contents after a sequence of changes, oldest first; `ReplayNoDuplicates` is its invariant |
| `Globals.ReplayNoDuplicates` | Scripts/Globals.cs:13-34 | starting from a duplicate-free list (the registry starts empty), any sequence of adds and removes never produces a duplicate |
| `Globals.LiveList.constructor` | Scripts/Globals.cs:13 | the registry list starts empty |
| `Globals.Registry.constructor` | Scripts/Globals.cs:12-13 | the registry starts empty, duplicate-free and with nothing notified |
| `Globals.Registry.AddGvObject` | Scripts/Globals.cs:21-29 | the list becomes `AddIfAbsent` of the old list; the notification fires exactly once for a new body and not at all for a present one; the list stays duplicate-free |
| `Globals.Registry.RmGvObject` | Scripts/Globals.cs:31-34 | the list becomes `Removed` of the old list, stays duplicate-free, and nothing is notified |
| `Globals.Registry.GetAllGvObjects` | Scripts/Globals.cs:36-39 | the live list object itself is returned, not a copy |
| `Globals.HolderSeesLaterRegistration` | Scripts/Globals.cs:36-39 | a caller that holds the list returned earlier sees a body registered afterwards |
| `Vectors.Root` | Scripts/ObjectScripts/GravitySim.cs:89 | the square root of a non-negative number is the non-negative number whose square it is, and is positive exactly when the argument is |
| `Vectors.Length` | Scripts/ObjectScripts/GvObject.cs:43 | the length is non-negative and squares to the squared length |
| `Vectors.LengthPositive` | Scripts/ObjectScripts/GvObject.cs:43 | only the zero vector has length zero |
| `Vectors.LengthScale` | Scripts/ObjectScripts/GravitySim.cs:53 | scaling by a non-negative factor scales the length by it |
| `Vectors.Normalized` | Scripts/ObjectScripts/GvObject.cs:61 | the zero vector normalises to zero; any other vector is divided by its length |
| `Vectors.NormalizedIsUnit` | Scripts/ObjectScripts/GvObject.cs:61 | a non-zero vector normalises to length one |
| `Vectors.ClampLength` | Scripts/ObjectScripts/GravitySim.cs:98-101 | the source's clamp `if (v.Length() > limit) v = v.Normalized() * limit`, used for pair accelerations and for final velocities (lines 51-53); its properties are `ClampLengthSpec` and `ClampLengthBound` |
| `Vectors.ClampLengthSpec` | Scripts/ObjectScripts/GravitySim.cs:98-101 | a vector within the limit is unchanged; a longer one becomes a non-negative multiple less than one of itself, of length exactly the limit, on the same ray |
| `Vectors.ClampLengthBound` | Scripts/ObjectScripts/GravitySim.cs:51-53 | after clamping against a non-negative limit the length never exceeds the limit |
| `Vectors.ClampWithin` | Scripts/ObjectScripts/GravitySim.cs:51 | clamping a vector already within the limit changes nothing |
| `Vectors.LengthSquaredZero` | Scripts/ObjectScripts/GravitySim.cs:87 | the squared length is zero exactly for the zero vector |
| `PostNewtonian.Newtonian` | Scripts/ObjectScripts/GvObject.cs:49 | the Newtonian magnitude `G M / r^2`; `NewtonianSign` gives its sign |
| `PostNewtonian.NewtonianSign` | Scripts/ObjectScripts/GvObject.cs:49 | the Newtonian magnitude `G M / r^2` is positive (zero) exactly when `G M` is |
| `PostNewtonian.Correction` | Scripts/ObjectScripts/GvObject.cs:52-57 | the correction factor `3 L^2 / (c^2 r^4)` with `L = r x v` at the trial velocity; `CorrectionSign` gives its sign |
| `PostNewtonian.CorrectionSign` | Scripts/ObjectScripts/GvObject.cs:52-57 | with a positive squared speed of light, the correction factor `3 L^2 / (c^2 r^4)` is never negative, and is zero exactly when `r x v` is the zero vector |
| `PostNewtonian.TotalMagnitude` | Scripts/ObjectScripts/GvObject.cs:59 | the corrected magnitude `newtonian * (1 + correction)`; `TotalMagnitudeBounds` relates it to the Newtonian one |
| `PostNewtonian.TotalMagnitudeBounds` | Scripts/ObjectScripts/GvObject.cs:49-59 | the corrected magnitude has the sign of `G M`, is never smaller in absolute value than the Newtonian one, and equals it exactly when `r x v` is the zero vector or the Newtonian magnitude is zero |
| `PostNewtonian.Contribution` | Scripts/ObjectScripts/GvObject.cs:42-61 | what one other body adds: nothing when closer than 0.01, otherwise the corrected magnitude along the unit vector `other.position - position`; `ContributionInRange` and `ContributionNear` state both cases |
| `PostNewtonian.ContributionInRange` | Scripts/ObjectScripts/GvObject.cs:42-61 | a body at distance at least 0.01 contributes the corrected magnitude along `other.position - position`; for positive `G M` the contribution points towards the other body, and its length is the absolute corrected magnitude |
| `PostNewtonian.ContributionNear` | Scripts/ObjectScripts/GvObject.cs:46 | a body closer than 0.01 to the trial position contributes nothing |
| `PostNewtonian.NearBodiesIgnored` | Scripts/ObjectScripts/GvObject.cs:46 | inserting any bodies closer than 0.01 anywhere in the list leaves the total acceleration unchanged |
| `PostNewtonian.TotalOfNear` | Scripts/ObjectScripts/GvObject.cs:46 | bodies that are all closer than 0.01 add up to no acceleration |
| `PostNewtonian.TotalAcceleration` | Scripts/ObjectScripts/GvObject.cs:36-63 | the contributions of the other bodies summed in registry order from zero; `TotalSnoc`, `TotalAppend` and `NearBodiesIgnored` state how it decomposes |
| `PostNewtonian.TotalAppend` | Scripts/ObjectScripts/GvObject.cs:38-62 | the sum over a list split in two is the sum of the two parts' sums |
| `PostNewtonian.TotalSnoc` | Scripts/ObjectScripts/GvObject.cs:61 | visiting one more body adds its contribution to the running total |
| `PostNewtonian.SumVecAppend` | Scripts/ObjectScripts/GvObject.cs:61 | a running vector sum over a concatenation is the sum of the parts |
| `PostNewtonian.SumVecOfZeros` | Scripts/ObjectScripts/GvObject.cs:36 | a sum of zero vectors is zero |
| `RungeKutta.HalfStep` | Scripts/ObjectScripts/GvObject.cs:75-81 | `x0 + k * dt / 2`, the trial states of the second and third stages |
| `RungeKutta.Weighted` | Scripts/ObjectScripts/GvObject.cs:91-92 | the weighted average `(k1 + 2 k2 + 2 k3 + k4) / 6`; `WeightedOfConstant` shows it averages equal stages to their value |
| `RungeKutta.Rk4` | Scripts/ObjectScripts/GvObject.cs:66-96 | one Runge-Kutta step in any field: all four stages are built from the same `x0, v0` (`k2`, `k3` at half steps, `k4` at a full step), the new position is `x0 + dt (k1v + 2 k2v + 2 k3v + k4v) / 6` and the new velocity `v0 + dt (k1a + 2 k2a + 2 k3a + k4a) / 6`; its contract gives that a step of length zero changes nothing, and `Rk4ConstantAcceleration` that the step is exact under a constant field |
| `RungeKutta.Rk4ConstantAcceleration` | Scripts/ObjectScripts/GvObject.cs:72-95 | under a constant acceleration the step is exact: `x0 + v0 dt + a dt^2 / 2` and `v0 + a dt` |
| `RungeKutta.WeightedOfConstant` | Scripts/ObjectScripts/GvObject.cs:91-92 | the weights 1, 2, 2, 1 over 6 average four equal stages to that value |
| `RungeKutta.WeightedVelocities` | Scripts/ObjectScripts/GvObject.cs:91 | under a constant acceleration the stage velocities average to the midpoint velocity |
| `RungeKutta.DisplacementOf` | Scripts/ObjectScripts/GvObject.cs:94 | moving by the midpoint velocity is the constant-acceleration displacement |
| `GvObjects.GvObject.constructor` | Scripts/ObjectScripts/GvObject.cs:7-10 | a new body has its mass, initial velocity and position and is at rest until `_Ready` |
| `GvObjects.GvObject.Ready` | Scripts/ObjectScripts/GvObject.cs:13-20 | the velocity becomes the initial velocity and the body is in the registry, added as `AddGvObject` adds, with the notification fired exactly when it was new |
| `GvObjects.GvObject.ExitTree` | Scripts/ObjectScripts/GvObject.cs:22-25 | the body is no longer in the registry, which is the old list with it removed |
| `GvObjects.GvObject.GetTotalAcceleration` | Scripts/ObjectScripts/GvObject.cs:34-64 | the loop over the registry returns the total post-Newtonian acceleration of the bodies other than this one, read through their positions and masses only, and changes nothing |
| `GvObjects.GvObject.StageAverages` | Scripts/ObjectScripts/GvObject.cs:68-92 | moving by the two averages over `dt` is the Runge-Kutta step in the field of the other registered bodies |
| `GvObjects.GvObject.MoveBy` | Scripts/ObjectScripts/GvObject.cs:94-95 | position and velocity advance by the averages times `dt` |
| `GvObjects.GvObject.IntegrateMotion` | Scripts/ObjectScripts/GvObject.cs:66-96 | only this body's position and velocity change, and they become the Runge-Kutta step from their old values in the field of the other bodies as they were before the step |
| `GvObjects.GvObject.PhysicsProcess` | Scripts/ObjectScripts/GvObject.cs:27-31 | each physics frame the body takes one Runge-Kutta step of the frame's length |
| `GvObjects.Attractors` | Scripts/ObjectScripts/GvObject.cs:38-40 | the position and mass of every registered body other than this one, in registry order; `SelfNeverAttracts` shows the body itself never appears |
| `GvObjects.AttractorsAppend` | Scripts/ObjectScripts/GvObject.cs:38-40 | the bodies felt from a list split in two are those felt from each part, in order |
| `GvObjects.SelfNeverAttracts` | Scripts/ObjectScripts/GvObject.cs:40 | wherever the body sits in the registry, it feels exactly the bodies of the registry without it |
| `Leapfrog.Timestep` | Scripts/ObjectScripts/GravitySim.cs:25 | the step is `delta` or 1/30, never above 1/30, and it is `delta` whenever `delta` is at most 1/30 |
| `Leapfrog.SofteningSquared` | Scripts/ObjectScripts/GravitySim.cs:76 | the squared softening is never negative |
| `Leapfrog.SoftenedDistanceSquared` | Scripts/ObjectScripts/GravitySim.cs:87 | the softened squared distance is never negative |
| `Leapfrog.Pull` | Scripts/ObjectScripts/GravitySim.cs:86-92 | the softened pull `r * invDist^3` with `r = b.position - a.position` and `invDist = 1 / sqrt(|r|^2 + softening^2)`; no pull when that squared distance is zero |
| `Leapfrog.InverseCube` | Scripts/ObjectScripts/GravitySim.cs:89-90 | `invDist^3` for `invDist = 1 / sqrt(distSq)` |
| `Leapfrog.RawOnFirst` | Scripts/ObjectScripts/GravitySim.cs:94 | `accA = acc * (G * b.Mass)` before clamping; `RawPairBalanced` shows `m_a accA == m_b accB` |
| `Leapfrog.RawOnSecond` | Scripts/ObjectScripts/GravitySim.cs:95 | `accB = acc * (G * a.Mass)` before clamping |
| `Leapfrog.OnFirst` | Scripts/ObjectScripts/GravitySim.cs:94-101 | `accA` after the clamp against `MaxAcceleration`; `PairClamp` states the clamp |
| `Leapfrog.OnSecond` | Scripts/ObjectScripts/GravitySim.cs:95-101 | `accB` after the clamp against `MaxAcceleration`; `PairClamp` states the clamp |
| `Leapfrog.PairClamp` | Scripts/ObjectScripts/GravitySim.cs:94-101 | for a non-negative `MaxAcceleration`, both per-pair accelerations are within it; a raw acceleration within the limit is kept as `acc * (G m)`; a raw one above it, on either side, is replaced by one of length exactly `MaxAcceleration` (on the same ray, by `ClampLengthSpec`) |
| `Leapfrog.Zeros` | Scripts/ObjectScripts/GravitySim.cs:73-74 | the zeroed buffer has one zero slot per body |
| `Leapfrog.PairStep` | Scripts/ObjectScripts/GravitySim.cs:103-104 | one pass of the inner loop: `+= accA` on slot `i`, `-= accB` on slot `j` |
| `Leapfrog.Row` | Scripts/ObjectScripts/GravitySim.cs:82-105 | the inner loop for row `i`, pairs `(i, i + 1) .. (i, j - 1)` in order; `RowAt` gives every slot's content |
| `Leapfrog.Rows` | Scripts/ObjectScripts/GravitySim.cs:78-106 | the outer loop over the first `i` rows; `RowsAt` gives every slot's content |
| `Leapfrog.RowAt` | Scripts/ObjectScripts/GravitySim.cs:82-105 | partway through row `i`, slot `i` has gained the first-body acceleration of every visited pair, each visited slot `j` has lost its second-body acceleration, and no other slot has moved |
| `Leapfrog.RowsAt` | Scripts/ObjectScripts/GravitySim.cs:78-106 | after the first `i` rows, each slot holds exactly the gains and losses of the pairs already visited |
| `Leapfrog.AccumulateClosedForm` | Scripts/ObjectScripts/GravitySim.cs:73-106 | the nested loops visit each unordered pair `i < j` exactly once: slot `k` ends with the sum over `j > k` of the pulls it gets as first body, minus the sum over `i < k` of those it gets as second body |
| `Leapfrog.Accelerations` | Scripts/ObjectScripts/GravitySim.cs:70-107 | `ComputeAccelerations` on values: a zeroed buffer, then all rows of the pair loop with the clamped per-pair accelerations; `AccelerationsClosedForm` and `NewtonsThirdLaw` are its properties |
| `Leapfrog.AccelerationsClosedForm` | Scripts/ObjectScripts/GravitySim.cs:70-107 | the same statement for the tick's own clamped per-pair accelerations |
| `Leapfrog.MassWeightedZeros` | Scripts/ObjectScripts/GravitySim.cs:73-74 | a zeroed buffer has zero mass-weighted sum |
| `Leapfrog.MassWeightedUpdate` | Scripts/ObjectScripts/GravitySim.cs:103-104 | replacing one slot changes the mass-weighted sum by exactly that slot's old and new terms |
| `Leapfrog.PairStepMoment` | Scripts/ObjectScripts/GravitySim.cs:103-104 | one pair's update keeps the mass-weighted sum when its two accelerations balance |
| `Leapfrog.RowMoment` | Scripts/ObjectScripts/GravitySim.cs:82-105 | a row of balanced pair updates keeps the mass-weighted sum |
| `Leapfrog.RowsMoment` | Scripts/ObjectScripts/GravitySim.cs:78-106 | all rows of balanced pair updates keep the mass-weighted sum |
| `Leapfrog.PairBalanced` | Scripts/ObjectScripts/GravitySim.cs:92-101 | when no clamp engages, `m_a accA == m_b accB` for the pair |
| `Leapfrog.RawPairBalanced` | Scripts/ObjectScripts/GravitySim.cs:94-95 | before clamping, `m_a * acc * (G m_b) == m_b * acc * (G m_a)` |
| `Leapfrog.WithinLimitBalanced` | Scripts/ObjectScripts/GravitySim.cs:98-101 | clamps that do not engage keep a balanced pair balanced |
| `Leapfrog.NewtonsThirdLaw` | Scripts/ObjectScripts/GravitySim.cs:70-107 | when no per-pair clamp engages, the computed accelerations satisfy `sum_k m_k acc_k == 0` |
| `Leapfrog.Kick` | Scripts/ObjectScripts/GravitySim.cs:37-38 | `Velocity += acc[k] * h` for every body, as both half-kicks do (also line 49); `KickMomentum` is its momentum property |
| `Leapfrog.Drift` | Scripts/ObjectScripts/GravitySim.cs:41-42 | `GlobalPosition += Velocity * dt` for every body; `DriftMomentum` shows it keeps the momentum |
| `Leapfrog.ClampVelocities` | Scripts/ObjectScripts/GravitySim.cs:51-53 | the speed limit `ClampLength` against `MaxVelocity` on every velocity; `ClampVelocitiesWithin` and `LeapfrogStepSpec` give its effect |
| `Leapfrog.Drifted` | Scripts/ObjectScripts/GravitySim.cs:34-42 | forces at the start state, the half-kick, then the drift |
| `Leapfrog.Kicked` | Scripts/ObjectScripts/GravitySim.cs:44-49 | forces at the drifted state, then the second half-kick |
| `Leapfrog.LeapfrogStep` | Scripts/ObjectScripts/GravitySim.cs:34-54 | the whole kick-drift-kick step with the speed limit; its ordering is stated by `LeapfrogStepSpec`, its conservation laws by `LeapfrogConservesMomentum` and `LeapfrogKeepsMasses` |
| `Leapfrog.LeapfrogStepSpec` | Scripts/ObjectScripts/GravitySim.cs:34-54 | kick-drift-kick order: each drifted position uses the velocity after the first half-kick; the second force pass is evaluated at the drifted positions; the final velocity is the clamped second half-kick; with a non-negative `MaxVelocity` every final speed is at most `MaxVelocity` |
| `Leapfrog.MassWeightedKick` | Scripts/ObjectScripts/GravitySim.cs:37-38 | a kick adds `h` times the mass-weighted acceleration to the mass-weighted velocity |
| `Leapfrog.KickMomentum` | Scripts/ObjectScripts/GravitySim.cs:37-38 | a kick by accelerations with zero mass-weighted sum keeps the total momentum |
| `Leapfrog.DriftMomentum` | Scripts/ObjectScripts/GravitySim.cs:41-42 | a drift moves positions only and keeps the momentum |
| `Leapfrog.KickDriftMasses` | Scripts/ObjectScripts/GravitySim.cs:37-42 | kick and drift keep every mass |
| `Leapfrog.ClampVelocitiesWithin` | Scripts/ObjectScripts/GravitySim.cs:51-53 | clamping speeds that are already within the limit changes nothing |
| `Leapfrog.LeapfrogConservesMomentum` | Scripts/ObjectScripts/GravitySim.cs:34-54 | when no acceleration or speed clamp engages, a leapfrog step conserves the total momentum |
| `Leapfrog.LeapfrogKeepsMasses` | Scripts/ObjectScripts/GravitySim.cs:34-54 | a leapfrog step keeps every mass |
| `Leapfrog.Momentum` | Scripts/ObjectScripts/GravitySim.cs:114-116 | `sum mass * velocity`, summed front to back as the first loop of `StabilizeCenterOfMass` does |
| `Leapfrog.TotalMass` | Scripts/ObjectScripts/GravitySim.cs:114-117 | `sum mass`, summed front to back |
| `Leapfrog.Shift` | Scripts/ObjectScripts/GravitySim.cs:125-126 | every velocity minus the same vector; `MassWeightedShift` gives its effect on momentum |
| `Leapfrog.CenterOfMassVelocity` | Scripts/ObjectScripts/GravitySim.cs:123 | the drift `totalMomentum / totalMass` |
| `Leapfrog.RemoveDrift` | Scripts/ObjectScripts/GravitySim.cs:109-127 | `StabilizeCenterOfMass` on values: nothing with total mass at most zero, otherwise every velocity minus the centre-of-mass velocity; `RemoveDriftSpec` states what it achieves |
| `Leapfrog.MassWeightedShift` | Scripts/ObjectScripts/GravitySim.cs:125-126 | subtracting the same vector from every velocity lowers the momentum by that vector times the total mass |
| `Leapfrog.DivideScale` | Scripts/ObjectScripts/GravitySim.cs:123 | scaling the drift `p / M` back by `M` gives `p` |
| `Leapfrog.RemoveDriftSpec` | Scripts/ObjectScripts/GravitySim.cs:109-127 | with total mass at most zero nothing changes; otherwise the momentum becomes zero; masses and positions are kept, and every pairwise velocity difference is unchanged |
| `Leapfrog.OpposedPairTotals` | Scripts/ObjectScripts/GravitySim.cs:111-118 | the example pair, masses 1 and 3 at velocities -500 and +500 along x, has total mass 4 and momentum 1000 along x |
| `Leapfrog.OpposedPairAfterRemoval` | Scripts/ObjectScripts/GravitySim.cs:123-126 | after drift removal the lighter body of the example pair moves at -750 along x |
| `Leapfrog.DriftRemovalCanExceedSpeedLimit` | Scripts/ObjectScripts/GravitySim.cs:51-58 | drift removal alone can raise a speed above the default limit: it takes two bodies at speed 500 to a speed of 750 for one of them. The model does not exhibit a whole tick that ends over the limit |
| `Leapfrog.LengthAlongAxis` | Scripts/ObjectScripts/GravitySim.cs:51 | a vector along the x axis has its coordinate's absolute value as length |
| `Leapfrog.Increment` | Scripts/ObjectScripts/GravitySim.cs:57 | `++` on the 32-bit counter adds one modulo 2^32, and adds exactly one below `int.MaxValue` |
| `Leapfrog.CSharpRemainder` | Scripts/ObjectScripts/GravitySim.cs:57 | C#'s truncating `%` by a positive divisor: the remainder differs from the dividend by a multiple of `b`, lies strictly between `-b` and `b`, and has the sign of the dividend, which together determine it |
| `Leapfrog.CSharpRemainderZero` | Scripts/ObjectScripts/GravitySim.cs:57 | the truncated remainder by 10 is zero exactly when the Euclidean one is, negative counters included |
| `Leapfrog.CounterCountsTicks` | Scripts/ObjectScripts/GravitySim.cs:57 | with drift removal enabled, the counter after `n` ticks is `n` until it would overflow |
| `Leapfrog.CounterAfterTick` | Scripts/ObjectScripts/GravitySim.cs:57 | the counter after one tick: incremented only when drift removal is enabled, by the short-circuit `&&` |
| `Leapfrog.StabilizesOnTick` | Scripts/ObjectScripts/GravitySim.cs:57 | a tick removes the drift exactly when drift removal is enabled and the incremented counter has truncated remainder 0 by 10 |
| `Leapfrog.DriftRemovalSchedule` | Scripts/ObjectScripts/GravitySim.cs:57-58 | with drift removal enabled from start-up, for the first 2^31 - 1 ticks, the `n`-th tick removes the drift exactly when `n` is a multiple of 10 |
| `Leapfrog.CounterWraps` | Scripts/ObjectScripts/GravitySim.cs:57 | the 32-bit counter overflows on tick 2^31 and from then on equals the tick count minus 2^32 |
| `Leapfrog.DriftRemovalScheduleAfterWrap` | Scripts/ObjectScripts/GravitySim.cs:57-58 | after the overflow the schedule is out of phase: the `n`-th tick removes the drift exactly when `n` leaves remainder 6 by 10 |
| `Leapfrog.Tick` | Scripts/ObjectScripts/GravitySim.cs:34-58 | `_PhysicsProcess` with at least two bodies on values: one leapfrog step, then drift removal when `StabilizesOnTick`; `TickMomentum` is its conservation law |
| `Leapfrog.TickMomentum` | Scripts/ObjectScripts/GravitySim.cs:34-58 | a whole tick keeps the masses; when no clamp engages it keeps the momentum on a tick without drift removal (or with non-positive total mass) and zeroes it on a tick with drift removal |
| `GravitySimulation.Totals` | Scripts/ObjectScripts/GravitySim.cs:111-118 | the first loop returns the bodies' total momentum and total mass, and changes nothing |
| `GravitySimulation.ShiftVelocities` | Scripts/ObjectScripts/GravitySim.cs:125-126 | the second loop subtracts the same vector from every velocity, and changes nothing else |
| `GravitySimulation.StabilizeCenterOfMass` | Scripts/ObjectScripts/GravitySim.cs:109-127 | the bodies become exactly `RemoveDrift` of what they were, whose properties are `RemoveDriftSpec` |
| `GravitySimulation.GravitySim.constructor` | Scripts/ObjectScripts/GravitySim.cs:6-18 | the node starts with the exported defaults G 1, softening 0.5, drift removal on, limits 1000 and 500, no buffer and counter 0 |
| `GravitySimulation.GravitySim.Configured` | Scripts/ObjectScripts/GravitySim.cs:6-18 | the node starts with the settings given, no buffer and counter 0 |
| `GravitySimulation.GravitySim.EnsureAccelerationBuffer` | Scripts/ObjectScripts/GravitySim.cs:129-133 | afterwards the buffer exists with length `count`; an existing buffer of that length is kept; any other buffer is replaced by a fresh one |
| `GravitySimulation.GravitySim.SoftenedPull` | Scripts/ObjectScripts/GravitySim.cs:86-92 | the loop body's `acc` is the softened inverse-cube pull `Pull` of the pair, and nothing changes |
| `GravitySimulation.GravitySim.ScaledPull` | Scripts/ObjectScripts/GravitySim.cs:94-95 | `acc * (G * m)` is the unclamped acceleration of either body of the pair |
| `GravitySimulation.GravitySim.ClampAcceleration` | Scripts/ObjectScripts/GravitySim.cs:98-101 | the clamp against `MaxAcceleration` is `ClampLength` |
| `GravitySimulation.GravitySim.PairAccelerations` | Scripts/ObjectScripts/GravitySim.cs:86-101 | `accA` and `accB` of a pair are the clamped per-pair accelerations `OnFirst` and `OnSecond` |
| `GravitySimulation.GravitySim.ClearAccelerations` | Scripts/ObjectScripts/GravitySim.cs:73-74 | every slot of the buffer is zero afterwards |
| `GravitySimulation.GravitySim.AccumulatePair` | Scripts/ObjectScripts/GravitySim.cs:82-105 | one pass of the inner loop adds `accA` to slot `i`, subtracts `accB` from slot `j`, and leaves the other slots alone |
| `GravitySimulation.GravitySim.AccumulateRow` | Scripts/ObjectScripts/GravitySim.cs:80-105 | the inner loop leaves the buffer as `Row` of the old buffer |
| `GravitySimulation.GravitySim.AccumulateNextRow` | Scripts/ObjectScripts/GravitySim.cs:78-106 | one more pass of the outer loop advances the buffer from the rows before `i` to the rows up to `i` |
| `GravitySimulation.GravitySim.ComputeAccelerations` | Scripts/ObjectScripts/GravitySim.cs:70-107 | the buffer holds `Accelerations` of the bodies' current state, whose closed form and third-law balance are `AccelerationsClosedForm` and `NewtonsThirdLaw` |
| `GravitySimulation.GravitySim.KickVelocities` | Scripts/ObjectScripts/GravitySim.cs:37-38 | each velocity gains its buffer slot times `h`; nothing else changes |
| `GravitySimulation.GravitySim.DriftPositions` | Scripts/ObjectScripts/GravitySim.cs:41-42 | each position moves by its (already kicked) velocity times `dt` |
| `GravitySimulation.GravitySim.LimitedKick` | Scripts/ObjectScripts/GravitySim.cs:49-53 | one body's velocity is kicked and then clamped against `MaxVelocity` |
| `GravitySimulation.GravitySim.FinalKick` | Scripts/ObjectScripts/GravitySim.cs:47-54 | the final loop kicks every body by its slot and clamps its speed |
| `GravitySimulation.GravitySim.FirstKick` | Scripts/ObjectScripts/GravitySim.cs:34-38 | the first force pass and half-kick use the bodies as they were at the start of the tick |
| `GravitySimulation.GravitySim.KickDrift` | Scripts/ObjectScripts/GravitySim.cs:34-42 | after the half-kick and the drift the bodies are `Drifted` of their old state |
| `GravitySimulation.GravitySim.KickAgain` | Scripts/ObjectScripts/GravitySim.cs:44-54 | the second force pass sees the current (drifted) positions, and the final loop kicks and clamps |
| `GravitySimulation.GravitySim.LeapfrogUpdate` | Scripts/ObjectScripts/GravitySim.cs:34-54 | the three loops and two force passes together are `LeapfrogStep` of the old bodies |
| `GravitySimulation.GravitySim.CountFrame` | Scripts/ObjectScripts/GravitySim.cs:57-58 | the counter is incremented only when drift removal is enabled (short-circuit `&&`), and the drift is removed exactly when the incremented counter is a multiple of 10 |
| `GravitySimulation.GravitySim.PhysicsProcess` | Scripts/ObjectScripts/GravitySim.cs:20-59 | while paused or with fewer than two bodies, no body, the buffer and the counter are unchanged; otherwise the buffer has one slot per body and the bodies and counter become `Tick` of their old state with step `min(delta, 1/30)` |

## Left out

- **Rounding.** IEEE single-precision rounding, overflow to infinity and NaN
  are not modelled: all arithmetic is on exact reals. At zero distance with
  zero softening the source divides by zero. There the model gives the pair
  no pull; it never divides by zero.
- **Godot math.** `Mathf.Sqrt`, `Length()` and `Normalized()` are not
  implemented: only the defining relation of the square root is assumed.
- **Output and rendering.** Logging (`GD.Print`) and everything that renders
  or handles input are not modelled.
- **Engine scheduling.** The order in which the engine calls each node's
  `_PhysicsProcess`, and how the leapfrog tick and the bodies' own
  Runge-Kutta steps interleave in one frame, are not modelled. The two schemes
  are modelled as independent components.
- **`ResetSimulation`.** It calls `GvObject.ResetState`, which is not part of
  this model, and logs.
- **Schwarzschild radius.** `GvObject._Ready` also computes
  `SchwarzschildRadius` from `Globals.G` and `Globals.CSquared`, which are
  absent from `Scripts/Globals.cs`. The value is never read by the core, so
  it is not modelled.
- **`Globals._Ready`.** It initialises the database and logs. The database is
  outside the core.
- **`(float)delta` casts.** The narrowing casts to single precision are
  identities in the model.
- **Settings.** The exported settings are fixed when the node is constructed.
  The model does not let the editor change them between ticks.
- **Registry.** The static class becomes one `Registry` object passed to the
  operations that use it. Event subscribers are not modelled; only the
  number of times the event fires is.
- GvObjects.GvObject.GetTotalAcceleration: requires the squared speed of light to be non-zero, which the source does not check (with zero it divides by zero); the same holds for `StageAverages`, `IntegrateMotion` and `PhysicsProcess`.
- PostNewtonian.CorrectionSign: assumes a positive squared speed of light, since only then is the correction factor non-negative; so do `TotalMagnitudeBounds` and `ContributionInRange`.
- Leapfrog.NewtonsThirdLaw: claims the balance only when no per-pair clamp engages (`NoClampEngages`), because a clamp that shortens one acceleration of a pair breaks the balance in the source too.
- Leapfrog.LeapfrogConservesMomentum: claims conservation only when no acceleration or speed clamp engages (`StepUnclamped`), for the same reason.
- Leapfrog.TickMomentum: makes its momentum claims under the same condition.
- **Helper methods.** `AccumulatePair`, `AccumulateRow`, `AccumulateNextRow`,
  `SoftenedPull`, `ScaledPull`, `ClampAcceleration`, `PairAccelerations`,
  `LimitedKick`, `FirstKick`, `KickDrift`, `KickAgain`, `LeapfrogUpdate`,
  `CountFrame`, `Totals` and `ShiftVelocities` split the bodies of
  `_PhysicsProcess`, `ComputeAccelerations` and `StabilizeCenterOfMass` into pieces with their own contracts. The
  statements they run and their order are those of the source.
- **Speed limit.** The speed bound holds after the final kick of a step. Drift
  removal alone, which may follow it, can push a body above `MaxVelocity`
  (`DriftRemovalCanExceedSpeedLimit`, on two bodies at the default limit).
  The model does not exhibit a whole tick whose result ends over the limit.
  The source makes no claim either way, so this is recorded as a property
  rather than as a defect.
