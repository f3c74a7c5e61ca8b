/**
 * The mathematics of `GravitySim`'s physics tick, on values: softened
 * pairwise accelerations accumulated over the unordered pairs `i < j`, the
 * kick-drift-kick leapfrog step with its velocity limit, the removal of
 * centre-of-mass drift, and the frame counter that schedules it.
 *
 * The imperative class in module `GravitySimulation` is proved to compute
 * exactly these functions; the lemmas here state what they guarantee.
 */
module Leapfrog {
  import opened Vectors

  /** What the tick reads and writes of one body. */
  datatype BodyState = BodyState(mass: real, position: Vec3, velocity: Vec3)

  /** The exported tuning fields of `GravitySim`. */
  datatype Config = Config(g: real, softening: real, maxAcceleration: real, maxVelocity: real)

  const MaxTimestep: real := 1.0 / 30.0

  /** `Mathf.Min(delta, 1/30)`: the timestep never exceeds 1/30. */
  function Timestep(delta: real): (dt: real)
    ensures dt <= MaxTimestep
    ensures dt == delta || dt == MaxTimestep
    ensures delta <= MaxTimestep ==> dt == delta
  {
    if delta < MaxTimestep then delta else MaxTimestep
  }

  // ---------------------------------------------------------------------
  // One pair

  /**
   * The softened inverse-square pull exerted at `a` by unit mass at `b`,
   * before the factor `G * mass`: `r / (|r|^2 + softening^2)^(3/2)`.
   * A squared distance of zero (no softening, coincident bodies) makes the
   * floating-point code produce NaN; the model gives no pull there.
   */
  function Pull(cfg: Config, sqrt: real -> real, a: BodyState, b: BodyState): Vec3
    requires IsSqrt(sqrt)
  {
    var r := Sub(b.position, a.position);
    var distSq := SoftenedDistanceSquared(cfg, r);
    if distSq == 0.0 then Zero else Scale(r, InverseCube(distSq, sqrt))
  }

  /** `softening * softening`, computed once per step. */
  function SofteningSquared(cfg: Config): (softSq: real)
    ensures 0.0 <= softSq
  {
    SquareNonNegative(cfg.softening, cfg.softening * cfg.softening);
    cfg.softening * cfg.softening
  }

  /** `|r|^2 + softening^2`, which is never negative. */
  function SoftenedDistanceSquared(cfg: Config, r: Vec3): (distSq: real)
    ensures 0.0 <= distSq
  {
    LengthSquaredNonNegative(r);
    LengthSquared(r) + SofteningSquared(cfg)
  }

  /** `invDist^3` with `invDist = 1 / sqrt(distSq)`. */
  function InverseCube(distSq: real, sqrt: real -> real): real
    requires IsSqrt(sqrt) && 0.0 < distSq
  {
    var invDist := 1.0 / Root(distSq, sqrt);
    invDist * invDist * invDist
  }

  /** `accA` before clamping: the acceleration of the first body of a pair. */
  function RawOnFirst(cfg: Config, pull: Vec3, b: BodyState): Vec3 {
    Scale(pull, cfg.g * b.mass)
  }

  /** `accB` before clamping: the magnitude-carrier subtracted from the second body. */
  function RawOnSecond(cfg: Config, pull: Vec3, a: BodyState): Vec3 {
    Scale(pull, cfg.g * a.mass)
  }

  function OnFirst(cfg: Config, sqrt: real -> real, a: BodyState, b: BodyState): Vec3
    requires IsSqrt(sqrt)
  {
    ClampLength(RawOnFirst(cfg, Pull(cfg, sqrt, a, b), b), cfg.maxAcceleration, sqrt)
  }

  function OnSecond(cfg: Config, sqrt: real -> real, a: BodyState, b: BodyState): Vec3
    requires IsSqrt(sqrt)
  {
    ClampLength(RawOnSecond(cfg, Pull(cfg, sqrt, a, b), a), cfg.maxAcceleration, sqrt)
  }

  /** Neither clamp of the pair engages. */
  predicate PairUnclamped(cfg: Config, sqrt: real -> real, a: BodyState, b: BodyState)
    requires IsSqrt(sqrt)
  {
    Length(RawOnFirst(cfg, Pull(cfg, sqrt, a, b), b), sqrt) <= cfg.maxAcceleration &&
    Length(RawOnSecond(cfg, Pull(cfg, sqrt, a, b), a), sqrt) <= cfg.maxAcceleration
  }

  /**
   * Each per-pair acceleration is kept if within `MaxAcceleration`, and
   * otherwise replaced by the vector of length `MaxAcceleration` along the
   * same ray.
   */
  lemma PairClamp(cfg: Config, sqrt: real -> real, a: BodyState, b: BodyState)
    requires IsSqrt(sqrt) && 0.0 <= cfg.maxAcceleration
    ensures Length(OnFirst(cfg, sqrt, a, b), sqrt) <= cfg.maxAcceleration
    ensures Length(OnSecond(cfg, sqrt, a, b), sqrt) <= cfg.maxAcceleration
    ensures PairUnclamped(cfg, sqrt, a, b) ==>
      OnFirst(cfg, sqrt, a, b) == RawOnFirst(cfg, Pull(cfg, sqrt, a, b), b) &&
      OnSecond(cfg, sqrt, a, b) == RawOnSecond(cfg, Pull(cfg, sqrt, a, b), a)
    ensures Length(RawOnFirst(cfg, Pull(cfg, sqrt, a, b), b), sqrt) > cfg.maxAcceleration ==>
      Length(OnFirst(cfg, sqrt, a, b), sqrt) == cfg.maxAcceleration
    ensures Length(RawOnSecond(cfg, Pull(cfg, sqrt, a, b), a), sqrt) > cfg.maxAcceleration ==>
      Length(OnSecond(cfg, sqrt, a, b), sqrt) == cfg.maxAcceleration
  {
    ClampLengthSpec(RawOnFirst(cfg, Pull(cfg, sqrt, a, b), b), cfg.maxAcceleration, sqrt);
    ClampLengthSpec(RawOnSecond(cfg, Pull(cfg, sqrt, a, b), a), cfg.maxAcceleration, sqrt);
  }

  // ---------------------------------------------------------------------
  // Accumulation over pairs, in the order of the two nested loops. The
  // combinatorics are stated for any table of per-pair accelerations;
  // `FirstTable` and `SecondTable` are the ones the tick uses.

  /**
   * The accelerations a pair of bodies gives each other: for the pair
   * `(a, b)`, `first(a, b)` is added to `a`'s slot and `second(a, b)`
   * subtracted from `b`'s.
   */
  type PairTable = (BodyState, BodyState) -> Vec3

  function Zeros(n: nat): (r: seq<Vec3>)
    ensures |r| == n && forall k :: 0 <= k < n ==> r[k] == Zero
  {
    if n == 0 then [] else Zeros(n - 1) + [Zero]
  }

  /** The body of the inner loop for the pair `(i, j)`. */
  function PairStep(first: PairTable, second: PairTable, bodies: seq<BodyState>, acc: seq<Vec3>,
                    i: nat, j: nat): (r: seq<Vec3>)
    requires |acc| == |bodies| && i < j < |acc|
    ensures |r| == |acc|
  {
    var acc' := acc[i := Add(acc[i], first(bodies[i], bodies[j]))];
    acc'[j := Sub(acc'[j], second(bodies[i], bodies[j]))]
  }

  /** Row `i` of the inner loop once it has visited the pairs `(i, i + 1) .. (i, j - 1)`. */
  function Row(first: PairTable, second: PairTable, bodies: seq<BodyState>, acc: seq<Vec3>,
               i: nat, j: nat): (r: seq<Vec3>)
    requires |acc| == |bodies| && i < j <= |acc|
    ensures |r| == |acc|
    decreases j
  {
    if j == i + 1 then acc
    else PairStep(first, second, bodies, Row(first, second, bodies, acc, i, j - 1), i, j - 1)
  }

  /** The outer loop once it has run the rows `0 .. i - 1` to the end. */
  function Rows(first: PairTable, second: PairTable, bodies: seq<BodyState>, acc: seq<Vec3>,
                i: nat): (r: seq<Vec3>)
    requires |acc| == |bodies| && i <= |acc|
    ensures |r| == |acc|
    decreases i
  {
    if i == 0 then acc
    else Row(first, second, bodies, Rows(first, second, bodies, acc, i - 1), i - 1, |acc|)
  }

  /** `sum_{lo <= j < hi} first(bodies[k], bodies[j])`, front to back: what slot `k` gains as first of a pair. */
  function Gain(first: PairTable, bodies: seq<BodyState>, k: nat, lo: nat, hi: nat): Vec3
    requires k < |bodies| && lo <= hi <= |bodies|
    decreases hi - lo
  {
    if hi == lo then Zero else Add(Gain(first, bodies, k, lo, hi - 1), first(bodies[k], bodies[hi - 1]))
  }

  /** `sum_{lo <= i < hi} second(bodies[i], bodies[k])`, front to back: what slot `k` loses as second of a pair. */
  function Loss(second: PairTable, bodies: seq<BodyState>, k: nat, lo: nat, hi: nat): Vec3
    requires k < |bodies| && lo <= hi <= |bodies|
    decreases hi - lo
  {
    if hi == lo then Zero else Add(Loss(second, bodies, k, lo, hi - 1), second(bodies[hi - 1], bodies[k]))
  }

  /**
   * Row `i` so far: slot `i` has gained `first` of every visited pair,
   * each visited slot `k` lost its `second`, and no other slot moved.
   */
  lemma {:induction false} RowAt(first: PairTable, second: PairTable, bodies: seq<BodyState>, acc: seq<Vec3>,
                                 i: nat, j: nat, k: nat)
    requires |acc| == |bodies| && i < j <= |acc| && k < |acc|
    ensures Row(first, second, bodies, acc, i, j)[k] ==
      if k == i then Add(acc[k], Gain(first, bodies, i, i + 1, j))
      else if i < k < j then Sub(acc[k], second(bodies[i], bodies[k]))
      else acc[k]
    decreases j
  {
    if j > i + 1 {
      RowAt(first, second, bodies, acc, i, j - 1, k);
    }
  }

  /**
   * After the rows `0 .. i - 1`: a slot `k < i` has lost its `second` of
   * every pair `(i', k)`, `i' < k`, and then gained its `first` of every
   * pair `(k, j)`, `j > k`; a slot `k >= i` has so far only lost its
   * `second` of the pairs `(i', k)`, `i' < i`.
   */
  lemma {:induction false} RowsAt(first: PairTable, second: PairTable, bodies: seq<BodyState>, acc: seq<Vec3>,
                                  i: nat, k: nat)
    requires |acc| == |bodies| && i <= |acc| && k < |acc|
    ensures Rows(first, second, bodies, acc, i)[k] ==
      if k < i then Add(Sub(acc[k], Loss(second, bodies, k, 0, k)), Gain(first, bodies, k, k + 1, |acc|))
      else Sub(acc[k], Loss(second, bodies, k, 0, i))
    decreases i
  {
    if i > 0 {
      var prev := Rows(first, second, bodies, acc, i - 1);
      RowsAt(first, second, bodies, acc, i - 1, k);
      RowAt(first, second, bodies, prev, i - 1, |acc|, k);
      if k >= i {
        SubTwice(acc[k], Loss(second, bodies, k, 0, i - 1), second(bodies[i - 1], bodies[k]));
      }
    }
  }

  /** `(a - l) - s == a - (l + s)` */
  lemma SubTwice(a: Vec3, l: Vec3, s: Vec3)
    ensures Sub(Sub(a, l), s) == Sub(a, Add(l, s))
  {
  }

  /**
   * The loops visit every unordered pair once: slot `k` ends up with the
   * sum of `first` over the pairs `(k, j)`, `j > k`, minus the sum of
   * `second` over the pairs `(i, k)`, `i < k`.
   */
  lemma AccumulateClosedForm(first: PairTable, second: PairTable, bodies: seq<BodyState>, k: nat)
    requires k < |bodies|
    ensures Rows(first, second, bodies, Zeros(|bodies|), |bodies|)[k] ==
      Sub(Gain(first, bodies, k, k + 1, |bodies|), Loss(second, bodies, k, 0, k))
  {
    RowsAt(first, second, bodies, Zeros(|bodies|), |bodies|, k);
  }

  /** The per-pair accelerations of the tick. */
  function FirstTable(cfg: Config, sqrt: real -> real): PairTable
    requires IsSqrt(sqrt)
  {
    (a: BodyState, b: BodyState) => OnFirst(cfg, sqrt, a, b)
  }

  function SecondTable(cfg: Config, sqrt: real -> real): PairTable
    requires IsSqrt(sqrt)
  {
    (a: BodyState, b: BodyState) => OnSecond(cfg, sqrt, a, b)
  }

  /** `ComputeAccelerations`: zero the buffer, then run both loops. */
  function Accelerations(cfg: Config, sqrt: real -> real, bodies: seq<BodyState>): (r: seq<Vec3>)
    requires IsSqrt(sqrt)
    ensures |r| == |bodies|
  {
    Rows(FirstTable(cfg, sqrt), SecondTable(cfg, sqrt), bodies, Zeros(|bodies|), |bodies|)
  }

  /**
   * Body `k`'s acceleration is the sum of the (clamped) pulls it gets as the
   * first body of the pairs `(k, j)`, `j > k`, minus the sum of those it gets
   * as the second body of the pairs `(i, k)`, `i < k`.
   */
  lemma AccelerationsClosedForm(cfg: Config, sqrt: real -> real, bodies: seq<BodyState>, k: nat)
    requires IsSqrt(sqrt) && k < |bodies|
    ensures Accelerations(cfg, sqrt, bodies)[k] ==
      Sub(Gain(FirstTable(cfg, sqrt), bodies, k, k + 1, |bodies|), Loss(SecondTable(cfg, sqrt), bodies, k, 0, k))
  {
    AccumulateClosedForm(FirstTable(cfg, sqrt), SecondTable(cfg, sqrt), bodies, k);
  }

  // ---------------------------------------------------------------------
  // Mass-weighted sums, momentum and total mass

  function Masses(bodies: seq<BodyState>): (r: seq<real>)
    ensures |r| == |bodies| && forall k :: 0 <= k < |bodies| ==> r[k] == bodies[k].mass
  {
    seq(|bodies|, k requires 0 <= k < |bodies| => bodies[k].mass)
  }

  function Velocities(bodies: seq<BodyState>): (r: seq<Vec3>)
    ensures |r| == |bodies| && forall k :: 0 <= k < |bodies| ==> r[k] == bodies[k].velocity
  {
    seq(|bodies|, k requires 0 <= k < |bodies| => bodies[k].velocity)
  }

  /** `sum_k vs[k] * ms[k]`, accumulated front to back. */
  function MassWeighted(vs: seq<Vec3>, ms: seq<real>): Vec3
    requires |vs| == |ms|
    decreases |vs|
  {
    if vs == [] then Zero
    else Add(MassWeighted(vs[..|vs| - 1], ms[..|ms| - 1]), Scale(vs[|vs| - 1], ms[|ms| - 1]))
  }

  function Sum(ms: seq<real>): real
    decreases |ms|
  {
    if ms == [] then 0.0 else Sum(ms[..|ms| - 1]) + ms[|ms| - 1]
  }

  function Momentum(bodies: seq<BodyState>): Vec3 {
    MassWeighted(Velocities(bodies), Masses(bodies))
  }

  function TotalMass(bodies: seq<BodyState>): real {
    Sum(Masses(bodies))
  }

  lemma {:induction false} MassWeightedZeros(ms: seq<real>)
    ensures MassWeighted(Zeros(|ms|), ms) == Zero
    decreases |ms|
  {
    if ms != [] {
      assert Zeros(|ms|)[..|ms| - 1] == Zeros(|ms| - 1);
      MassWeightedZeros(ms[..|ms| - 1]);
    }
  }

  /** Replacing one entry changes the weighted sum by the weighted difference. */
  lemma {:induction false} MassWeightedUpdate(vs: seq<Vec3>, ms: seq<real>, k: nat, v: Vec3)
    requires |vs| == |ms| && k < |vs|
    ensures MassWeighted(vs[k := v], ms) == Add(Sub(MassWeighted(vs, ms), Scale(vs[k], ms[k])), Scale(v, ms[k]))
    decreases |vs|
  {
    var n := |vs|;
    if k == n - 1 {
      assert vs[k := v][..n - 1] == vs[..n - 1];
    } else {
      assert vs[k := v][..n - 1] == vs[..n - 1][k := v];
      MassWeightedUpdate(vs[..n - 1], ms[..n - 1], k, v);
    }
  }

  /** Every pair's two entries carry equal amounts once weighted by the masses `ms`. */
  ghost predicate Balanced(first: PairTable, second: PairTable, bodies: seq<BodyState>, ms: seq<real>)
    requires |ms| == |bodies|
  {
    forall i, j :: 0 <= i < j < |bodies| ==>
      Scale(first(bodies[i], bodies[j]), ms[i]) == Scale(second(bodies[i], bodies[j]), ms[j])
  }

  lemma PairStepMoment(first: PairTable, second: PairTable, bodies: seq<BodyState>, ms: seq<real>,
                       acc: seq<Vec3>, i: nat, j: nat)
    requires |acc| == |bodies| == |ms| && i < j < |acc| && Balanced(first, second, bodies, ms)
    ensures MassWeighted(PairStep(first, second, bodies, acc, i, j), ms) == MassWeighted(acc, ms)
  {
    var f, s := first(bodies[i], bodies[j]), second(bodies[i], bodies[j]);
    var acc' := acc[i := Add(acc[i], f)];
    MassWeightedUpdate(acc, ms, i, Add(acc[i], f));
    MassWeightedUpdate(acc', ms, j, Sub(acc'[j], s));
    ScaleAdd(acc[i], f, ms[i]);
    ScaleSub(acc[j], s, ms[j]);
  }

  lemma {:induction false} RowMoment(first: PairTable, second: PairTable, bodies: seq<BodyState>, ms: seq<real>,
                                     acc: seq<Vec3>, i: nat, j: nat)
    requires |acc| == |bodies| == |ms| && i < j <= |acc| && Balanced(first, second, bodies, ms)
    ensures MassWeighted(Row(first, second, bodies, acc, i, j), ms) == MassWeighted(acc, ms)
    decreases j
  {
    if j > i + 1 {
      var prev := Row(first, second, bodies, acc, i, j - 1);
      RowMoment(first, second, bodies, ms, acc, i, j - 1);
      PairStepMoment(first, second, bodies, ms, prev, i, j - 1);
    }
  }

  lemma {:induction false} RowsMoment(first: PairTable, second: PairTable, bodies: seq<BodyState>, ms: seq<real>,
                                      acc: seq<Vec3>, i: nat)
    requires |acc| == |bodies| == |ms| && i <= |acc| && Balanced(first, second, bodies, ms)
    ensures MassWeighted(Rows(first, second, bodies, acc, i), ms) == MassWeighted(acc, ms)
    decreases i
  {
    if i > 0 {
      var prev := Rows(first, second, bodies, acc, i - 1);
      RowsMoment(first, second, bodies, ms, acc, i - 1);
      RowMoment(first, second, bodies, ms, prev, i - 1, |acc|);
    }
  }

  /** No clamp engages for any pair of `bodies`. */
  ghost predicate NoClampEngages(cfg: Config, sqrt: real -> real, bodies: seq<BodyState>)
    requires IsSqrt(sqrt)
  {
    forall i, j :: 0 <= i < j < |bodies| ==> PairUnclamped(cfg, sqrt, bodies[i], bodies[j])
  }

  /** An unclamped pair: `m_a accA == m_b accB`. */
  lemma PairBalanced(cfg: Config, sqrt: real -> real, a: BodyState, b: BodyState)
    requires IsSqrt(sqrt) && PairUnclamped(cfg, sqrt, a, b)
    ensures Scale(OnFirst(cfg, sqrt, a, b), a.mass) == Scale(OnSecond(cfg, sqrt, a, b), b.mass)
  {
    RawPairBalanced(cfg, Pull(cfg, sqrt, a, b), a, b);
    WithinLimitBalanced(RawOnFirst(cfg, Pull(cfg, sqrt, a, b), b), RawOnSecond(cfg, Pull(cfg, sqrt, a, b), a),
      cfg.maxAcceleration, sqrt, a.mass, b.mass);
  }

  /** Before clamping, `m_a accA == m_b accB` holds for every pair. */
  lemma RawPairBalanced(cfg: Config, pull: Vec3, a: BodyState, b: BodyState)
    ensures Scale(RawOnFirst(cfg, pull, b), a.mass) == Scale(RawOnSecond(cfg, pull, a), b.mass)
  {
    var first, second := RawOnFirst(cfg, pull, b), RawOnSecond(cfg, pull, a);
    assert first == Scale(pull, cfg.g * b.mass);
    assert second == Scale(pull, cfg.g * a.mass);
    ScaleTwiceEqual(pull, cfg.g * b.mass, a.mass, cfg.g * a.mass, b.mass, cfg.g * a.mass * b.mass);
  }

  /** Clamping two vectors within the limit keeps any balance between them. */
  lemma WithinLimitBalanced(first: Vec3, second: Vec3, limit: real, sqrt: real -> real, ma: real, mb: real)
    requires IsSqrt(sqrt) && Length(first, sqrt) <= limit && Length(second, sqrt) <= limit
    requires Scale(first, ma) == Scale(second, mb)
    ensures Scale(ClampLength(first, limit, sqrt), ma) == Scale(ClampLength(second, limit, sqrt), mb)
  {
    ClampWithin(first, limit, sqrt);
    ClampWithin(second, limit, sqrt);
  }

  /**
   * Newton's third law: when no per-pair clamp engages, the mass-weighted
   * accelerations cancel, `sum_k m_k a_k = 0`.
   */
  lemma NewtonsThirdLaw(cfg: Config, sqrt: real -> real, bodies: seq<BodyState>)
    requires IsSqrt(sqrt) && NoClampEngages(cfg, sqrt, bodies)
    ensures MassWeighted(Accelerations(cfg, sqrt, bodies), Masses(bodies)) == Zero
  {
    var first, second, ms := FirstTable(cfg, sqrt), SecondTable(cfg, sqrt), Masses(bodies);
    forall i, j | 0 <= i < j < |bodies|
      ensures Scale(first(bodies[i], bodies[j]), ms[i]) == Scale(second(bodies[i], bodies[j]), ms[j])
    {
      PairBalanced(cfg, sqrt, bodies[i], bodies[j]);
    }
    RowsMoment(first, second, bodies, ms, Zeros(|bodies|), |bodies|);
    MassWeightedZeros(ms);
  }

  // ---------------------------------------------------------------------
  // Kick, drift, kick

  /** `Velocity += acc[k] * h` for every body. */
  function Kick(bodies: seq<BodyState>, acc: seq<Vec3>, h: real): (r: seq<BodyState>)
    requires |acc| == |bodies|
    ensures |r| == |bodies|
  {
    seq(|bodies|, k requires 0 <= k < |bodies| =>
      bodies[k].(velocity := Add(bodies[k].velocity, Scale(acc[k], h))))
  }

  /** `GlobalPosition += Velocity * dt` for every body. */
  function Drift(bodies: seq<BodyState>, dt: real): (r: seq<BodyState>)
    ensures |r| == |bodies|
  {
    seq(|bodies|, k requires 0 <= k < |bodies| =>
      bodies[k].(position := Add(bodies[k].position, Scale(bodies[k].velocity, dt))))
  }

  /** The speed limit applied to every final velocity. */
  function ClampVelocities(bodies: seq<BodyState>, maxVelocity: real, sqrt: real -> real): (r: seq<BodyState>)
    requires IsSqrt(sqrt)
    ensures |r| == |bodies|
  {
    seq(|bodies|, k requires 0 <= k < |bodies| =>
      bodies[k].(velocity := ClampLength(bodies[k].velocity, maxVelocity, sqrt)))
  }

  /** The state after the first half-kick and the drift. */
  function Drifted(cfg: Config, sqrt: real -> real, bodies: seq<BodyState>, dt: real): (r: seq<BodyState>)
    requires IsSqrt(sqrt)
    ensures |r| == |bodies|
  {
    Drift(Kick(bodies, Accelerations(cfg, sqrt, bodies), 0.5 * dt), dt)
  }

  /** The state after the second half-kick, before the speed limit. */
  function Kicked(cfg: Config, sqrt: real -> real, bodies: seq<BodyState>, dt: real): (r: seq<BodyState>)
    requires IsSqrt(sqrt)
    ensures |r| == |bodies|
  {
    var drifted := Drifted(cfg, sqrt, bodies, dt);
    Kick(drifted, Accelerations(cfg, sqrt, drifted), 0.5 * dt)
  }

  /** One kick-drift-kick step with the velocity limit. */
  function LeapfrogStep(cfg: Config, sqrt: real -> real, bodies: seq<BodyState>, dt: real): (r: seq<BodyState>)
    requires IsSqrt(sqrt)
    ensures |r| == |bodies|
  {
    ClampVelocities(Kicked(cfg, sqrt, bodies, dt), cfg.maxVelocity, sqrt)
  }

  /**
   * The ordering of the step: positions advance with the half-kicked
   * velocities, the second force pass sees the drifted positions, masses
   * are kept, and every final speed is within a non-negative limit.
   */
  lemma LeapfrogStepSpec(cfg: Config, sqrt: real -> real, bodies: seq<BodyState>, dt: real, k: nat)
    requires IsSqrt(sqrt) && k < |bodies|
    ensures var a1 := Accelerations(cfg, sqrt, bodies);
      var half := Add(bodies[k].velocity, Scale(a1[k], 0.5 * dt));
      var moved := Add(bodies[k].position, Scale(half, dt));
      var a2 := Accelerations(cfg, sqrt, Drifted(cfg, sqrt, bodies, dt));
      && Drifted(cfg, sqrt, bodies, dt)[k] == BodyState(bodies[k].mass, moved, half)
      && LeapfrogStep(cfg, sqrt, bodies, dt)[k] ==
         BodyState(bodies[k].mass, moved, ClampLength(Add(half, Scale(a2[k], 0.5 * dt)), cfg.maxVelocity, sqrt))
    ensures 0.0 <= cfg.maxVelocity ==>
      Length(LeapfrogStep(cfg, sqrt, bodies, dt)[k].velocity, sqrt) <= cfg.maxVelocity
  {
    var kicked := Kicked(cfg, sqrt, bodies, dt);
    if 0.0 <= cfg.maxVelocity {
      ClampLengthBound(kicked[k].velocity, cfg.maxVelocity, sqrt);
    }
  }

  /** `sum m (v + h a) = sum m v + h sum m a` */
  lemma {:induction false} MassWeightedKick(vs: seq<Vec3>, acc: seq<Vec3>, ms: seq<real>, h: real, ws: seq<Vec3>)
    requires |vs| == |acc| == |ms| == |ws|
    requires forall k :: 0 <= k < |ws| ==> ws[k] == Add(vs[k], Scale(acc[k], h))
    ensures MassWeighted(ws, ms) == Add(MassWeighted(vs, ms), Scale(MassWeighted(acc, ms), h))
    decreases |vs|
  {
    var n := |vs|;
    if n > 0 {
      MassWeightedKick(vs[..n - 1], acc[..n - 1], ms[..n - 1], h, ws[..n - 1]);
      KickTerm(vs[n - 1], acc[n - 1], ms[n - 1], h);
      ScaleAdd(MassWeighted(acc[..n - 1], ms[..n - 1]), Scale(acc[n - 1], ms[n - 1]), h);
    }
  }

  lemma KickTerm(v: Vec3, a: Vec3, m: real, h: real)
    ensures Scale(Add(v, Scale(a, h)), m) == Add(Scale(v, m), Scale(Scale(a, m), h))
  {
    ScaleAdd(v, Scale(a, h), m);
    ScaleTwice(a, h, m, h * m);
    ScaleTwice(a, m, h, h * m);
  }

  /** A kick with mass-cancelling accelerations keeps the total momentum. */
  lemma KickMomentum(bodies: seq<BodyState>, acc: seq<Vec3>, h: real)
    requires |acc| == |bodies| && MassWeighted(acc, Masses(bodies)) == Zero
    ensures Momentum(Kick(bodies, acc, h)) == Momentum(bodies)
  {
    var kicked := Kick(bodies, acc, h);
    assert Masses(kicked) == Masses(bodies);
    MassWeightedKick(Velocities(bodies), acc, Masses(bodies), h, Velocities(kicked));
  }

  /** No clamp of either force pass and no velocity limit engages. */
  ghost predicate StepUnclamped(cfg: Config, sqrt: real -> real, bodies: seq<BodyState>, dt: real)
    requires IsSqrt(sqrt)
  {
    && NoClampEngages(cfg, sqrt, bodies)
    && NoClampEngages(cfg, sqrt, Drifted(cfg, sqrt, bodies, dt))
    && forall k :: 0 <= k < |bodies| ==>
         Length(Kicked(cfg, sqrt, bodies, dt)[k].velocity, sqrt) <= cfg.maxVelocity
  }

  /** Without clamping, a leapfrog step conserves the total momentum. */
  lemma LeapfrogConservesMomentum(cfg: Config, sqrt: real -> real, bodies: seq<BodyState>, dt: real)
    requires IsSqrt(sqrt) && StepUnclamped(cfg, sqrt, bodies, dt)
    ensures Momentum(LeapfrogStep(cfg, sqrt, bodies, dt)) == Momentum(bodies)
  {
    var h := 0.5 * dt;
    var a1 := Accelerations(cfg, sqrt, bodies);
    var kicked1 := Kick(bodies, a1, h);
    var drifted := Drift(kicked1, dt);
    assert drifted == Drifted(cfg, sqrt, bodies, dt);
    var a2 := Accelerations(cfg, sqrt, drifted);
    var kicked2 := Kick(drifted, a2, h);
    assert kicked2 == Kicked(cfg, sqrt, bodies, dt);
    NewtonsThirdLaw(cfg, sqrt, bodies);
    KickMomentum(bodies, a1, h);
    DriftMomentum(kicked1, dt);
    KickDriftMasses(bodies, a1, h, dt);
    assert Masses(drifted) == Masses(bodies);
    NewtonsThirdLaw(cfg, sqrt, drifted);
    KickMomentum(drifted, a2, h);
    ClampVelocitiesWithin(kicked2, cfg.maxVelocity, sqrt);
  }

  lemma KickDriftMasses(bodies: seq<BodyState>, acc: seq<Vec3>, h: real, dt: real)
    requires |acc| == |bodies|
    ensures Masses(Drift(Kick(bodies, acc, h), dt)) == Masses(bodies)
  {
  }

  /** A drift moves positions only, so it keeps the total momentum. */
  lemma DriftMomentum(bodies: seq<BodyState>, dt: real)
    ensures Momentum(Drift(bodies, dt)) == Momentum(bodies)
  {
    var drifted := Drift(bodies, dt);
    assert Masses(drifted) == Masses(bodies);
    assert Velocities(drifted) == Velocities(bodies);
  }

  /** The velocity limit leaves every velocity within it unchanged. */
  lemma ClampVelocitiesWithin(bodies: seq<BodyState>, maxVelocity: real, sqrt: real -> real)
    requires IsSqrt(sqrt)
    requires forall k :: 0 <= k < |bodies| ==> Length(bodies[k].velocity, sqrt) <= maxVelocity
    ensures ClampVelocities(bodies, maxVelocity, sqrt) == bodies
  {
    var r := ClampVelocities(bodies, maxVelocity, sqrt);
    forall k | 0 <= k < |bodies| ensures r[k] == bodies[k] {
      ClampWithin(bodies[k].velocity, maxVelocity, sqrt);
    }
  }

  // ---------------------------------------------------------------------
  // Removal of centre-of-mass drift (`StabilizeCenterOfMass`)

  /** Every velocity shifted by `-d`. */
  function Shift(bodies: seq<BodyState>, d: Vec3): (r: seq<BodyState>)
    ensures |r| == |bodies|
  {
    seq(|bodies|, k requires 0 <= k < |bodies| =>
      bodies[k].(velocity := Sub(bodies[k].velocity, d)))
  }

  /** The velocity of the centre of mass, `P / M`. */
  function CenterOfMassVelocity(bodies: seq<BodyState>): Vec3
    requires TotalMass(bodies) != 0.0
  {
    DivBy(Momentum(bodies), TotalMass(bodies))
  }

  function RemoveDrift(bodies: seq<BodyState>): (r: seq<BodyState>)
    ensures |r| == |bodies|
  {
    if TotalMass(bodies) <= 0.0 then bodies
    else Shift(bodies, CenterOfMassVelocity(bodies))
  }

  /** `sum m (v - d) = sum m v - d sum m` */
  lemma {:induction false} MassWeightedShift(vs: seq<Vec3>, ms: seq<real>, d: Vec3, ws: seq<Vec3>)
    requires |vs| == |ms| == |ws|
    requires forall k :: 0 <= k < |ws| ==> ws[k] == Sub(vs[k], d)
    ensures MassWeighted(ws, ms) == Sub(MassWeighted(vs, ms), Scale(d, Sum(ms)))
    decreases |vs|
  {
    var n := |vs|;
    if n > 0 {
      MassWeightedShift(vs[..n - 1], ms[..n - 1], d, ws[..n - 1]);
      ShiftTerm(vs[n - 1], d, ms[n - 1], Sum(ms[..n - 1]));
    }
  }

  lemma ShiftTerm(v: Vec3, d: Vec3, m: real, s: real)
    ensures Scale(Sub(v, d), m) == Sub(Scale(v, m), Scale(d, m))
    ensures Scale(d, s + m) == Add(Scale(d, s), Scale(d, m))
  {
    ScaleSub(v, d, m);
    ScaleSumOfFactors(d, s, m);
  }

  lemma DivideScale(p: Vec3, m: real)
    requires m != 0.0
    ensures Scale(DivBy(p, m), m) == p
  {
    Quotient(p.x, m, p.x / m);
    Quotient(p.y, m, p.y / m);
    Quotient(p.z, m, p.z / m);
  }

  /**
   * `StabilizeCenterOfMass`: with non-positive total mass nothing changes;
   * otherwise the total momentum becomes zero. Either way masses and
   * positions are kept and no difference of two velocities changes, so
   * every velocity is shifted by the same vector.
   */
  lemma RemoveDriftSpec(bodies: seq<BodyState>)
    ensures TotalMass(bodies) <= 0.0 ==> RemoveDrift(bodies) == bodies
    ensures TotalMass(bodies) > 0.0 ==> Momentum(RemoveDrift(bodies)) == Zero
    ensures Masses(RemoveDrift(bodies)) == Masses(bodies)
    ensures forall k :: 0 <= k < |bodies| ==> RemoveDrift(bodies)[k].position == bodies[k].position
    ensures forall i, j :: 0 <= i < |bodies| && 0 <= j < |bodies| ==>
      Sub(RemoveDrift(bodies)[i].velocity, RemoveDrift(bodies)[j].velocity) ==
      Sub(bodies[i].velocity, bodies[j].velocity)
  {
    var r := RemoveDrift(bodies);
    assert Masses(r) == Masses(bodies);
    if TotalMass(bodies) > 0.0 {
      var d := CenterOfMassVelocity(bodies);
      MassWeightedShift(Velocities(bodies), Masses(bodies), d, Velocities(r));
      DivideScale(Momentum(bodies), TotalMass(bodies));
    }
  }

  /** A light body and a heavier one, each at speed 500, moving towards each other. */
  const OpposedPair: seq<BodyState> :=
    [BodyState(1.0, Zero, Vec3(-500.0, 0.0, 0.0)), BodyState(3.0, Zero, Vec3(500.0, 0.0, 0.0))]

  lemma OpposedPairTotals()
    ensures TotalMass(OpposedPair) == 4.0
    ensures Momentum(OpposedPair) == Vec3(1000.0, 0.0, 0.0)
  {
    var ms, vs := Masses(OpposedPair), Velocities(OpposedPair);
    assert ms == [1.0, 3.0] && ms[..1] == [1.0] && ms[..1][..0] == [];
    assert vs == [Vec3(-500.0, 0.0, 0.0), Vec3(500.0, 0.0, 0.0)];
    assert vs[..1] == [Vec3(-500.0, 0.0, 0.0)] && vs[..1][..0] == [];
    assert Sum(ms[..1]) == 1.0;
    assert MassWeighted(vs[..1], ms[..1]) == Vec3(-500.0, 0.0, 0.0);
  }

  lemma OpposedPairAfterRemoval()
    ensures RemoveDrift(OpposedPair)[0].velocity == Vec3(-750.0, 0.0, 0.0)
  {
    var d := Vec3(250.0, 0.0, 0.0);
    assert TotalMass(OpposedPair) > 0.0 && CenterOfMassVelocity(OpposedPair) == d by {
      OpposedPairTotals();
    }
    assert RemoveDrift(OpposedPair) == Shift(OpposedPair, d);
  }

  lemma LengthAlongAxis(c: real, sqrt: real -> real)
    requires IsSqrt(sqrt) && 0.0 <= c
    ensures Length(Vec3(c, 0.0, 0.0), sqrt) == c
    ensures Length(Vec3(-c, 0.0, 0.0), sqrt) == c
  {
    RootUnique(Length(Vec3(c, 0.0, 0.0), sqrt), c);
    RootUnique(Length(Vec3(-c, 0.0, 0.0), sqrt), c);
  }

  /**
   * Removing drift after the velocity limit can push a body past the limit:
   * in `OpposedPair` both speeds are 500, and after drift removal the light
   * body moves at 750.
   */
  lemma DriftRemovalCanExceedSpeedLimit(sqrt: real -> real)
    requires IsSqrt(sqrt)
    ensures Length(OpposedPair[0].velocity, sqrt) == 500.0
    ensures Length(OpposedPair[1].velocity, sqrt) == 500.0
    ensures Length(RemoveDrift(OpposedPair)[0].velocity, sqrt) == 750.0
  {
    OpposedPairAfterRemoval();
    LengthAlongAxis(500.0, sqrt);
    LengthAlongAxis(750.0, sqrt);
  }

  // ---------------------------------------------------------------------
  // The frame counter that gates drift removal

  const DriftRemovalPeriod: int := 10

  /** C#'s `int`. */
  type Int32 = x: int | -0x8000_0000 <= x < 0x8000_0000

  /** `++c` on a C# `int`: two's-complement wrap-around. */
  function Increment(c: Int32): (r: Int32)
    ensures (r - c - 1) % 0x1_0000_0000 == 0
    ensures c < 0x7fff_ffff ==> r == c + 1
  {
    if c == 0x7fff_ffff then -0x8000_0000 else c + 1
  }

  /** C#'s `%` on `int` by a positive divisor: truncating, so the result has the sign of `a`. */
  function CSharpRemainder(a: int, b: int): (r: int)
    requires b > 0
    ensures -b < r < b
    ensures 0 <= a ==> 0 <= r
    ensures a <= 0 ==> r <= 0
    ensures (a - r) % b == 0
  {
    if a >= 0 then
      var r := a % b;
      assert a - r == b * (a / b);
      MultipleMod(b, a / b);
      r
    else
      var r := -((-a) % b);
      assert a - r == b * -((-a) / b);
      MultipleMod(b, -((-a) / b));
      r
  }

  /** A multiple of `b` leaves no remainder by `b`. */
  lemma MultipleMod(b: int, q: int)
    requires b > 0
    ensures (b * q) % b == 0
  {
    var x := b * q;
    var k := q - x / b;
    assert b * k == x % b by {
      assert b * k == b * q - b * (x / b);
    }
  }

  /** For the period 10, the truncating and the Euclidean remainder agree on divisibility. */
  lemma CSharpRemainderZero(a: int)
    ensures CSharpRemainder(a, DriftRemovalPeriod) == 0 <==> a % DriftRemovalPeriod == 0
  {
  }

  /**
   * `RemoveCenterOfMassDrift && (++counter % 10 == 0)`: the counter moves
   * only when drift removal is enabled, and removal runs exactly when the
   * moved counter is a multiple of 10.
   */
  function CounterAfterTick(removeDrift: bool, counter: Int32): Int32 {
    if removeDrift then Increment(counter) else counter
  }

  predicate StabilizesOnTick(removeDrift: bool, counter: Int32) {
    removeDrift && CSharpRemainder(Increment(counter), DriftRemovalPeriod) == 0
  }

  /** The counter after `n` ticks with drift removal enabled, from 0. */
  function CounterAfter(n: nat): Int32 {
    if n == 0 then 0 else CounterAfterTick(true, CounterAfter(n - 1))
  }

  lemma {:induction false} CounterCountsTicks(n: nat)
    requires n < 0x8000_0000
    ensures CounterAfter(n) == n
  {
    if n > 0 {
      CounterCountsTicks(n - 1);
    }
  }

  /**
   * With drift removal enabled from start-up, the `n`-th tick (counting
   * from 1) removes drift exactly when `n` is a multiple of 10, for the
   * first 2^31 - 1 ticks.
   */
  lemma DriftRemovalSchedule(n: nat)
    requires 1 <= n < 0x8000_0000
    ensures StabilizesOnTick(true, CounterAfter(n - 1)) <==> n % DriftRemovalPeriod == 0
  {
    CounterCountsTicks(n - 1);
    CSharpRemainderZero(n);
  }

  /**
   * Tick `2^31` takes the counter past `int.MaxValue` to `int.MinValue`;
   * from then on it lags the tick count by `2^32`, until it nears the top
   * again.
   */
  lemma {:induction false} CounterWraps(n: nat)
    requires 0x8000_0000 <= n < 0x1_0000_0000 + 0x7fff_ffff
    ensures CounterAfter(n) == n - 0x1_0000_0000
  {
    if n == 0x8000_0000 {
      CounterCountsTicks(n - 1);
    } else {
      CounterWraps(n - 1);
    }
  }

  /**
   * After the wrap the schedule is out of phase: the `n`-th tick removes
   * drift exactly when `n` leaves remainder 6 by 10, since `2^32` does.
   */
  lemma DriftRemovalScheduleAfterWrap(n: nat)
    requires 0x8000_0000 < n < 0x1_0000_0000 + 0x8000_0000
    ensures StabilizesOnTick(true, CounterAfter(n - 1)) <==> n % DriftRemovalPeriod == 6
  {
    var m := n - 0x1_0000_0000;
    CounterWraps(n - 1);
    assert Increment(CounterAfter(n - 1)) == m;
    CSharpRemainderZero(m);
    assert n == m + 10 * 429_496_729 + 6;
  }

  // ---------------------------------------------------------------------
  // One whole tick

  /**
   * `_PhysicsProcess` with at least two bodies: one leapfrog step, then
   * drift removal when the frame counter says so.
   */
  function Tick(cfg: Config, removeDrift: bool, counter: Int32, sqrt: real -> real,
                bodies: seq<BodyState>, dt: real): (r: seq<BodyState>)
    requires IsSqrt(sqrt)
    ensures |r| == |bodies|
  {
    var stepped := LeapfrogStep(cfg, sqrt, bodies, dt);
    if StabilizesOnTick(removeDrift, counter) then RemoveDrift(stepped) else stepped
  }

  /** A leapfrog step never changes a mass. */
  lemma LeapfrogKeepsMasses(cfg: Config, sqrt: real -> real, bodies: seq<BodyState>, dt: real)
    requires IsSqrt(sqrt)
    ensures Masses(LeapfrogStep(cfg, sqrt, bodies, dt)) == Masses(bodies)
  {
    var drifted := Drifted(cfg, sqrt, bodies, dt);
    assert Masses(drifted) == Masses(bodies);
    assert Masses(Kicked(cfg, sqrt, bodies, dt)) == Masses(drifted);
  }

  /**
   * Momentum over a tick without clamping: kept by a tick that does not
   * remove drift, and zero after one that does when the total mass is
   * positive. Masses are always kept.
   */
  lemma TickMomentum(cfg: Config, removeDrift: bool, counter: Int32, sqrt: real -> real,
                     bodies: seq<BodyState>, dt: real)
    requires IsSqrt(sqrt) && StepUnclamped(cfg, sqrt, bodies, dt)
    ensures Masses(Tick(cfg, removeDrift, counter, sqrt, bodies, dt)) == Masses(bodies)
    ensures !StabilizesOnTick(removeDrift, counter) || TotalMass(bodies) <= 0.0 ==>
      Momentum(Tick(cfg, removeDrift, counter, sqrt, bodies, dt)) == Momentum(bodies)
    ensures StabilizesOnTick(removeDrift, counter) && TotalMass(bodies) > 0.0 ==>
      Momentum(Tick(cfg, removeDrift, counter, sqrt, bodies, dt)) == Zero
  {
    var stepped := LeapfrogStep(cfg, sqrt, bodies, dt);
    LeapfrogConservesMomentum(cfg, sqrt, bodies, dt);
    LeapfrogKeepsMasses(cfg, sqrt, bodies, dt);
    assert TotalMass(stepped) == TotalMass(bodies);
    RemoveDriftSpec(stepped);
  }
}
