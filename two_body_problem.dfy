/** The gravitational N-body integrator: celestial bodies whose acceleration,
    velocity and position are updated in place, one symplectic-Euler step per
    iteration of a fixed-step clock, with a per-body path and a trajectory of
    one tracked body recorded after every step.

    The distance cubed `sum(r ** 2) ** 1.5` is not computed: the caller
    supplies it as `pow15`, a function of the squared distance. The program
    divides by it with Decimal arithmetic, so a zero value (two bodies at the
    same place) raises; here that is a failed step. */
module TwoBodyProblem {
  import opened Wrappers
  import opened Vectors
  import opened Records
  import opened RealFacts

  /** `x[:2]`: the planar point each path stores. */
  datatype Point2 = Point2(px: real, py: real)

  function Planar(u: Vec3): Point2 {
    Point2(u.x, u.y)
  }

  /** A celestial body. The initial position and velocity are kept unchanged
      beside the working copies `x` and `v` (`self.x = self.x0.copy()`). */
  class CelBody {
    const id: int
    const name: string
    const mu: real
    const x0: Vec3
    const v0: Vec3
    var x: Vec3
    var v: Vec3
    var a: Vec3

    constructor (id: int, name: string, x0: Vec3, v0: Vec3, mu: real)
      ensures this.id == id && this.name == name && this.mu == mu
      ensures this.x0 == x0 && this.v0 == v0
      ensures x == x0 && v == v0 && a == Zero
    {
      this.id := id;
      this.name := name;
      this.mu := mu;
      this.x0 := x0;
      this.x := x0;
      this.v0 := v0;
      this.v := v0;
      this.a := Zero;
    }
  }

  /** No body object appears twice in the list, so `body == other` holds
      exactly when the two loop indices agree. */
  ghost predicate Distinct(bodies: seq<CelBody>) {
    forall i, j :: 0 <= i < |bodies| && 0 <= j < |bodies| && i != j ==> bodies[i] != bodies[j]
  }

  // ---------------------------------------------------------------------
  // The value-level specification of one step

  /** The kinematic state of one body, as the specification functions see it. */
  datatype BodyState = BodyState(mu: real, x: Vec3, v: Vec3, a: Vec3)

  function Snapshot(bodies: seq<CelBody>): (s: seq<BodyState>)
    reads bodies
    ensures |s| == |bodies|
    ensures forall i :: 0 <= i < |bodies| ==>
              s[i] == BodyState(bodies[i].mu, bodies[i].x, bodies[i].v, bodies[i].a)
  {
    seq(|bodies|, i reads bodies requires 0 <= i < |bodies| =>
      BodyState(bodies[i].mu, bodies[i].x, bodies[i].v, bodies[i].a))
  }

  /** `-mu * rx / r3`: the pull of a body of parameter `mu` at displacement `rx`. */
  function Pull(rx: Vec3, mu: real, r3: real): Vec3
    requires r3 != 0.0
  {
    Vec3(-mu * rx.x / r3, -mu * rx.y / r3, -mu * rx.z / r3)
  }

  /** `r3` for the pair (i, j), from the displacement `x_i - x_j`. */
  function DistanceCubed(s: seq<BodyState>, i: nat, j: nat, pow15: real -> real): real
    requires i < |s| && j < |s|
  {
    pow15(NormSq(Sub(s[i].x, s[j].x)))
  }

  /** Two different bodies whose distance cubed is zero: the division fails. */
  predicate SingularPair(s: seq<BodyState>, i: nat, j: nat, pow15: real -> real)
    requires i < |s| && j < |s|
  {
    i != j && DistanceCubed(s, i, j, pow15) == 0.0
  }

  predicate Singular(s: seq<BodyState>, pow15: real -> real) {
    exists i: nat, j: nat :: i < |s| && j < |s| && SingularPair(s, i, j, pow15)
  }

  /** The acceleration of body `i` after the inner loop has visited the
      bodies `0 .. j-1`: the sum of the pulls of all of them except `i`. */
  function AccelUpTo(s: seq<BodyState>, i: nat, j: nat, pow15: real -> real): Vec3
    requires i < |s| && j <= |s|
    decreases j
  {
    if j == 0 then Zero
    else if j - 1 == i || DistanceCubed(s, i, j - 1, pow15) == 0.0 then AccelUpTo(s, i, j - 1, pow15)
    else Add(AccelUpTo(s, i, j - 1, pow15),
             Pull(Sub(s[i].x, s[j - 1].x), s[j - 1].mu, DistanceCubed(s, i, j - 1, pow15)))
  }

  function Acceleration(s: seq<BodyState>, i: nat, pow15: real -> real): Vec3
    requires i < |s|
  {
    AccelUpTo(s, i, |s|, pow15)
  }

  /** Symplectic Euler for one body: velocity first, then position with the
      new velocity. */
  function Advanced(b: BodyState, a: Vec3, dt: real): BodyState {
    var v := Add(b.v, Scale(a, dt));
    BodyState(b.mu, Add(b.x, Scale(v, dt)), v, a)
  }

  /** One iteration of the simulation loop on the body states: every
      acceleration from the positions before the step, then every update. */
  function StepStates(s: seq<BodyState>, dt: real, pow15: real -> real): (r: Option<seq<BodyState>>)
    ensures r.Some? ==> |r.value| == |s|
  {
    if Singular(s, pow15) then None
    else Some(seq(|s|, i requires 0 <= i < |s| => Advanced(s[i], Acceleration(s, i, pow15), dt)))
  }

  /** The body states after `k` iterations, or None when one of them failed. */
  function Run(s: seq<BodyState>, dt: real, pow15: real -> real, k: nat): (r: Option<seq<BodyState>>)
    ensures r.Some? ==> |r.value| == |s|
    decreases k
  {
    if k == 0 then Some(s)
    else match Run(s, dt, pow15, k - 1)
      case None => None
      case Some(p) => StepStates(p, dt, pow15)
  }

  // ---------------------------------------------------------------------
  // Properties of the step

  /** A body's own parameter `mu` does not matter to its acceleration: changing
      it leaves every partial sum of the force loop unchanged. */
  lemma {:induction false} AccelUpToIgnoresOwnMu(s: seq<BodyState>, i: nat, j: nat, m: real, pow15: real -> real)
    requires i < |s| && j <= |s|
    ensures AccelUpTo(s[i := s[i].(mu := m)], i, j, pow15) == AccelUpTo(s, i, j, pow15)
    decreases j
  {
    if j > 0 {
      AccelUpToIgnoresOwnMu(s, i, j - 1, m, pow15);
    }
  }

  lemma AccelerationIgnoresOwnMu(s: seq<BodyState>, i: nat, m: real, pow15: real -> real)
    requires i < |s|
    ensures Acceleration(s[i := s[i].(mu := m)], i, pow15) == Acceleration(s, i, pow15)
  {
    AccelUpToIgnoresOwnMu(s, i, |s|, m, pow15);
  }

  /** Massless bodies pull nothing: when every other body has `mu == 0`,
      the accumulated acceleration is the zero vector. */
  lemma {:induction false} AccelUpToMassless(s: seq<BodyState>, i: nat, j: nat, pow15: real -> real)
    requires i < |s| && j <= |s|
    requires forall k :: 0 <= k < |s| && k != i ==> s[k].mu == 0.0
    ensures AccelUpTo(s, i, j, pow15) == Zero
    decreases j
  {
    if j > 0 {
      AccelUpToMassless(s, i, j - 1, pow15);
    }
  }

  lemma MasslessOthersGiveNoAcceleration(s: seq<BodyState>, i: nat, pow15: real -> real)
    requires i < |s|
    requires forall k :: 0 <= k < |s| && k != i ==> s[k].mu == 0.0
    ensures Acceleration(s, i, pow15) == Zero
  {
    AccelUpToMassless(s, i, |s|, pow15);
  }

  /** The step is symplectic Euler with accelerations taken from the positions
      before the step. The new position differs from the explicit-Euler
      position `x + v dt` by exactly `a dt^2`. */
  lemma StepIsSymplecticEuler(s: seq<BodyState>, dt: real, pow15: real -> real, i: nat)
    requires i < |s| && StepStates(s, dt, pow15).Some?
    ensures var b := StepStates(s, dt, pow15).value[i];
            var a := Acceleration(s, i, pow15);
            && b.mu == s[i].mu
            && b.a == a
            && b.v == Add(s[i].v, Scale(a, dt))
            && b.x == Add(s[i].x, Scale(b.v, dt))
            && Sub(b.x, Add(s[i].x, Scale(s[i].v, dt))) == Scale(a, dt * dt)
  {
    var a := Acceleration(s, i, pow15);
    assert StepStates(s, dt, pow15).value[i] == Advanced(s[i], a, dt);
    AdvancedOffset(s[i], a, dt);
  }

  lemma AdvancedOffset(b: BodyState, a: Vec3, dt: real)
    ensures Sub(Advanced(b, a, dt).x, Add(b.x, Scale(b.v, dt))) == Scale(a, dt * dt)
  {
    SymplecticOffset(b.x.x, b.v.x, a.x, dt);
    SymplecticOffset(b.x.y, b.v.y, a.y, dt);
    SymplecticOffset(b.x.z, b.v.z, a.z, dt);
  }

  lemma SymplecticOffset(x: real, v: real, a: real, dt: real)
    ensures (x + (v + a * dt) * dt) - (x + v * dt) == a * (dt * dt)
  {
  }

  /** The distance-cubed function of the program: zero exactly for a zero
      displacement (`0 ** 1.5 == 0`, and a positive number to the power 1.5 is
      positive). */
  ghost predicate ZeroOnlyAtOrigin(pow15: real -> real) {
    forall u: Vec3 :: pow15(NormSq(u)) == 0.0 <==> u == Zero
  }

  /** With such a function, a step fails exactly when two different bodies
      occupy the same position. */
  lemma StepFailsIffCoincident(s: seq<BodyState>, dt: real, pow15: real -> real)
    requires ZeroOnlyAtOrigin(pow15)
    ensures StepStates(s, dt, pow15).None? <==>
            exists i: nat, j: nat :: i < |s| && j < |s| && i != j && s[i].x == s[j].x
  {
    if StepStates(s, dt, pow15).None? {
      var i: nat, j: nat :| i < |s| && j < |s| && SingularPair(s, i, j, pow15);
      assert Sub(s[i].x, s[j].x) == Zero;
      assert s[i].x == s[j].x;
    }
    if exists i: nat, j: nat :: i < |s| && j < |s| && i != j && s[i].x == s[j].x {
      var i: nat, j: nat :| i < |s| && j < |s| && i != j && s[i].x == s[j].x;
      assert Sub(s[i].x, s[j].x) == Zero;
      assert SingularPair(s, i, j, pow15);
    }
  }

  /** The skip of `body == other` is what lets a step succeed at all: a
      body's distance cubed to itself is `pow15(0)`, and for the program's
      power that is zero, so a self pull would divide by zero. Yet when every
      pair of different bodies is at a non-zero distance cubed, the step
      succeeds. */
  lemma SelfPairIsSkipped(s: seq<BodyState>, dt: real, pow15: real -> real)
    requires pow15(0.0) == 0.0
    requires forall i, j :: 0 <= i < |s| && 0 <= j < |s| && i != j ==> pow15(NormSq(Sub(s[i].x, s[j].x))) != 0.0
    ensures forall i :: 0 <= i < |s| ==> DistanceCubed(s, i, i, pow15) == 0.0
    ensures StepStates(s, dt, pow15).Some?
  {
    forall i | 0 <= i < |s|
      ensures DistanceCubed(s, i, i, pow15) == 0.0
    {
      assert Sub(s[i].x, s[i].x) == Zero;
    }
  }

  /** The reference scenario: one central body at rest and massless
      satellites. The central body feels nothing and never moves. */
  lemma {:induction false} CentralBodyStaysAtRest(s: seq<BodyState>, dt: real, pow15: real -> real, k: nat)
    requires 1 <= |s| && s[0].v == Zero && s[0].a == Zero
    requires forall j :: 1 <= j < |s| ==> s[j].mu == 0.0
    requires Run(s, dt, pow15, k).Some?
    ensures var p := Run(s, dt, pow15, k).value;
            && p[0].x == s[0].x && p[0].v == Zero && p[0].a == Zero
            && forall j :: 0 <= j < |s| ==> p[j].mu == s[j].mu
    decreases k
  {
    if k > 0 {
      CentralBodyStaysAtRest(s, dt, pow15, k - 1);
      var p := Run(s, dt, pow15, k - 1).value;
      MasslessOthersGiveNoAcceleration(p, 0, pow15);
      var q := StepStates(p, dt, pow15).value;
      assert q[0] == Advanced(p[0], Zero, dt);
      assert forall j :: 0 <= j < |s| ==> q[j].mu == p[j].mu;
    }
  }

  // ---------------------------------------------------------------------
  // The loop body on the body objects

  /** The positions and parameters of the body objects are those of `s`. */
  ghost predicate Agrees(bodies: seq<CelBody>, s: seq<BodyState>)
    reads bodies
  {
    |s| == |bodies| && forall k :: 0 <= k < |bodies| ==> bodies[k].x == s[k].x && bodies[k].mu == s[k].mu
  }

  /** The force loop of the simulation for the single body `i`: reset its
      acceleration, then add the pull of every other body in list order.
      Only `bodies[i].a` changes; if some pair has a zero distance cubed the
      program raises and this returns false. */
  method AccumulatePulls(bodies: seq<CelBody>, i: nat, pow15: real -> real, ghost s0: seq<BodyState>)
    returns (ok: bool)
    requires Distinct(bodies) && i < |bodies| && Agrees(bodies, s0)
    modifies bodies[i]
    ensures bodies[i].x == old(bodies[i].x) && bodies[i].v == old(bodies[i].v)
    ensures ok <==> forall m: nat :: m < |bodies| ==> !SingularPair(s0, i, m, pow15)
    ensures ok ==> bodies[i].a == Acceleration(s0, i, pow15)
  {
    var body := bodies[i];
    body.a := Zero;
    var j := 0;
    while j < |bodies|
      invariant 0 <= j <= |bodies|
      invariant body.x == old(body.x) && body.v == old(body.v)
      invariant body.a == AccelUpTo(s0, i, j, pow15)
      invariant forall m: nat :: m < j ==> !SingularPair(s0, i, m, pow15)
    {
      var other := bodies[j];
      if body == other {
        j := j + 1;
        continue;
      }
      var rx := Sub(body.x, other.x);
      var r3 := pow15(NormSq(rx));
      if r3 == 0.0 {
        assert SingularPair(s0, i, j, pow15);
        return false;
      }
      body.a := Add(body.a, Pull(rx, other.mu, r3));
      j := j + 1;
    }
    return true;
  }

  /** The force loop of the simulation: the accelerations of all bodies, each
      from the positions before the step. Positions and velocities do not
      change. */
  method ComputeAccelerations(bodies: seq<CelBody>, pow15: real -> real) returns (ok: bool)
    requires Distinct(bodies)
    modifies bodies
    ensures forall i :: 0 <= i < |bodies| ==> bodies[i].x == old(bodies[i].x) && bodies[i].v == old(bodies[i].v)
    ensures ok <==> !Singular(old(Snapshot(bodies)), pow15)
    ensures ok ==> forall i :: 0 <= i < |bodies| ==> bodies[i].a == Acceleration(old(Snapshot(bodies)), i, pow15)
  {
    ghost var s0 := Snapshot(bodies);
    var i := 0;
    while i < |bodies|
      invariant 0 <= i <= |bodies|
      invariant forall k :: 0 <= k < |bodies| ==> bodies[k].x == s0[k].x && bodies[k].v == s0[k].v
      invariant forall k :: 0 <= k < i ==> bodies[k].a == Acceleration(s0, k, pow15)
      invariant forall k: nat, m: nat :: k < i && m < |bodies| ==> !SingularPair(s0, k, m, pow15)
    {
      ok := AccumulatePulls(bodies, i, pow15, s0);
      if !ok {
        return;
      }
      i := i + 1;
    }
    return true;
  }

  /** The update loop over `enumerate(Bodies)`: for every body `v += a * dt`,
      then `x += v * dt` with the new velocity, then append `x[:2]` to that
      body's path. */
  method Advance(bodies: seq<CelBody>, dt: real, paths: seq<seq<Point2>>) returns (extended: seq<seq<Point2>>)
    requires Distinct(bodies) && |paths| == |bodies|
    modifies bodies
    ensures |extended| == |bodies|
    ensures forall i :: 0 <= i < |bodies| ==>
              && bodies[i].a == old(bodies[i].a)
              && bodies[i].v == Add(old(bodies[i].v), Scale(old(bodies[i].a), dt))
              && bodies[i].x == Add(old(bodies[i].x), Scale(bodies[i].v, dt))
              && extended[i] == paths[i] + [Planar(bodies[i].x)]
  {
    extended := paths;
    var n := 0;
    while n < |bodies|
      invariant 0 <= n <= |bodies| && |extended| == |bodies|
      invariant forall i :: 0 <= i < n ==>
                  && bodies[i].a == old(bodies[i].a)
                  && bodies[i].v == Add(old(bodies[i].v), Scale(old(bodies[i].a), dt))
                  && bodies[i].x == Add(old(bodies[i].x), Scale(bodies[i].v, dt))
                  && extended[i] == paths[i] + [Planar(bodies[i].x)]
      invariant forall i :: n <= i < |bodies| ==>
                  && bodies[i].a == old(bodies[i].a) && bodies[i].v == old(bodies[i].v)
                  && bodies[i].x == old(bodies[i].x) && extended[i] == paths[i]
    {
      var planet := bodies[n];
      planet.v := Add(planet.v, Scale(planet.a, dt));
      planet.x := Add(planet.x, Scale(planet.v, dt));
      extended := extended[n := extended[n] + [Planar(planet.x)]];
      n := n + 1;
    }
  }

  /** One iteration of `while t < simulation_duration`: accelerations, then
      the symplectic-Euler update with one new point per path. On success the
      body states are `StepStates` of the states before. */
  method StepOnce(bodies: seq<CelBody>, dt: real, pow15: real -> real, paths: seq<seq<Point2>>)
    returns (ok: bool, extended: seq<seq<Point2>>)
    requires Distinct(bodies) && |paths| == |bodies|
    modifies bodies
    ensures ok <==> StepStates(old(Snapshot(bodies)), dt, pow15).Some?
    ensures ok ==> Snapshot(bodies) == StepStates(old(Snapshot(bodies)), dt, pow15).value
    ensures !ok ==> extended == paths
    ensures ok ==> |extended| == |bodies| &&
                   forall m :: 0 <= m < |bodies| ==> extended[m] == paths[m] + [Planar(bodies[m].x)]
  {
    ghost var before := Snapshot(bodies);
    ok := ComputeAccelerations(bodies, pow15);
    if !ok {
      return ok, paths;
    }
    extended := Advance(bodies, dt, paths);
    assert Snapshot(bodies) == StepStates(before, dt, pow15).value;
  }

  /** One trajectory record: the clock after the step and the tracked body's
      position. */
  function Sample(time: real, b: BodyState): Record {
    Record(time, b.x.x, b.x.y, b.x.z)
  }

  /** The clock after `k` iterations that each add `dt` to it, from 0. */
  function Clock(k: nat, dt: real): real {
    if k == 0 then 0.0 else Clock(k - 1, dt) + dt
  }

  /** After `k` steps the clock reads exactly `k * dt`. */
  lemma {:induction false} ClockIsMultiple(k: nat, dt: real)
    ensures Clock(k, dt) == (k as real) * dt
  {
    if k > 0 {
      ClockIsMultiple(k - 1, dt);
      Distribute((k - 1) as real, dt);
    }
  }

  /** An upper bound on the number of iterations of the clock loop. */
  function StepBound(duration: real, dt: real): int
    requires 0.0 < dt
  {
    if duration <= 0.0 then 0 else (duration / dt).Floor + 1
  }

  lemma StepsBelowBound(steps: nat, dt: real, duration: real)
    requires 0.0 < dt && Clock(steps, dt) < duration
    ensures steps < StepBound(duration, dt)
  {
    ClockIsMultiple(steps, dt);
    MulNonNegative(steps as real, dt);
    MulDivCancel(steps as real, dt);
    DivMonoLt((steps as real) * dt, duration, dt);
    assert 0.0 < duration;
    IntAtMostFloor(steps, duration / dt);
  }

  /** The k-th trajectory record is the tracked body after k + 1 steps,
      stamped with the clock after k + 1 steps. */
  ghost predicate TrajectoryOf(s0: seq<BodyState>, dt: real, pow15: real -> real, tracked: nat,
                               trajectory: seq<Record>)
  {
    forall k :: 0 <= k < |trajectory| ==> RecordedAfter(s0, dt, pow15, tracked, k + 1, trajectory[k])
  }

  /** `r` is the record of the tracked body after `k` steps. */
  ghost predicate RecordedAfter(s0: seq<BodyState>, dt: real, pow15: real -> real, tracked: nat, k: nat, r: Record)
  {
    && Run(s0, dt, pow15, k).Some?
    && tracked < |Run(s0, dt, pow15, k).value|
    && r == Sample(Clock(k, dt), Run(s0, dt, pow15, k).value[tracked])
  }

  /** Every body's path holds its planar position after 0, 1, ..., steps steps. */
  ghost predicate PathsOf(s0: seq<BodyState>, dt: real, pow15: real -> real, steps: nat,
                          paths: seq<seq<Point2>>)
  {
    && |paths| == |s0|
    && (forall m :: 0 <= m < |s0| ==> |paths[m]| == steps + 1)
    && forall m, k :: 0 <= m < |s0| && 0 <= k <= steps && k < |paths[m]| ==>
         PointAfter(s0, dt, pow15, m, k, paths[m][k])
  }

  /** `point` is the planar position of body `m` after `k` steps. */
  ghost predicate PointAfter(s0: seq<BodyState>, dt: real, pow15: real -> real, m: nat, k: nat, point: Point2)
  {
    && Run(s0, dt, pow15, k).Some?
    && m < |Run(s0, dt, pow15, k).value|
    && point == Planar(Run(s0, dt, pow15, k).value[m].x)
  }

  /** Before any step each path holds the initial planar position. */
  lemma InitialPaths(s0: seq<BodyState>, dt: real, pow15: real -> real, paths: seq<seq<Point2>>)
    requires |paths| == |s0| && forall m :: 0 <= m < |s0| ==> paths[m] == [Planar(s0[m].x)]
    ensures PathsOf(s0, dt, pow15, 0, paths)
  {
  }

  /** Recording one more step keeps `TrajectoryOf`. */
  lemma ExtendTrajectory(s0: seq<BodyState>, dt: real, pow15: real -> real, tracked: nat,
                         trajectory: seq<Record>, p: seq<BodyState>)
    requires TrajectoryOf(s0, dt, pow15, tracked, trajectory)
    requires Run(s0, dt, pow15, |trajectory| + 1) == Some(p) && tracked < |p|
    ensures TrajectoryOf(s0, dt, pow15, tracked,
                         trajectory + [Sample(Clock(|trajectory| + 1, dt), p[tracked])])
  {
    var longer := trajectory + [Sample(Clock(|trajectory| + 1, dt), p[tracked])];
    forall k | 0 <= k < |longer|
      ensures RecordedAfter(s0, dt, pow15, tracked, k + 1, longer[k])
    {
      if k < |trajectory| {
        assert longer[k] == trajectory[k];
      } else {
        assert k == |trajectory| && longer[k] == Sample(Clock(k + 1, dt), p[tracked]);
      }
    }
  }

  /** Appending the states after one more step to every path keeps `PathsOf`. */
  lemma ExtendPaths(s0: seq<BodyState>, dt: real, pow15: real -> real, steps: nat,
                    paths: seq<seq<Point2>>, p: seq<BodyState>, extended: seq<seq<Point2>>)
    requires PathsOf(s0, dt, pow15, steps, paths)
    requires Run(s0, dt, pow15, steps + 1) == Some(p)
    requires |extended| == |s0| && forall m :: 0 <= m < |s0| ==> extended[m] == paths[m] + [Planar(p[m].x)]
    ensures PathsOf(s0, dt, pow15, steps + 1, extended)
  {
    forall m | 0 <= m < |s0|
      ensures |extended[m]| == steps + 2
    {
    }
    forall m, k | 0 <= m < |s0| && 0 <= k <= steps + 1 && k < |extended[m]|
      ensures PointAfter(s0, dt, pow15, m, k, extended[m][k])
    {
      if k <= steps {
        assert extended[m][k] == paths[m][k];
      } else {
        assert extended[m][k] == Planar(p[m].x);
      }
    }
  }

  /** The whole simulation loop `while t < simulation_duration`: record the
      initial path points, then step while the clock is below the duration,
      advancing it by `dt` and recording the tracked body after every step. On success the clock has just reached the
      duration, the bodies hold the states of `steps` iterations of
      `StepStates`, and paths and trajectory hold one entry per step. */
  method Simulate(bodies: seq<CelBody>, tracked: nat, dt: real, duration: real, pow15: real -> real)
    returns (ok: bool, t: real, steps: nat, paths: seq<seq<Point2>>, trajectory: seq<Record>)
    requires Distinct(bodies) && tracked < |bodies| && 0.0 < dt
    modifies bodies
    ensures t == Clock(steps, dt)
    ensures ok ==> duration <= t
    ensures 0 < steps ==> t - dt < duration
    ensures !ok ==> t < duration
    ensures ok ==> Run(old(Snapshot(bodies)), dt, pow15, steps) == Some(Snapshot(bodies))
    ensures !ok ==> Run(old(Snapshot(bodies)), dt, pow15, steps).Some?
                    && Run(old(Snapshot(bodies)), dt, pow15, steps + 1).None?
    ensures |trajectory| == steps
    ensures TrajectoryOf(old(Snapshot(bodies)), dt, pow15, tracked, trajectory)
    ensures PathsOf(old(Snapshot(bodies)), dt, pow15, steps, paths)
  {
    ghost var s0 := Snapshot(bodies);
    paths := seq(|bodies|, m requires 0 <= m < |bodies| reads bodies => [Planar(bodies[m].x)]);
    InitialPaths(s0, dt, pow15, paths);
    trajectory := [];
    t := 0.0;
    steps := 0;
    while t < duration
      invariant t == Clock(steps, dt)
      invariant 0 < steps ==> t - dt < duration
      invariant Run(s0, dt, pow15, steps) == Some(Snapshot(bodies))
      invariant |trajectory| == steps
      invariant TrajectoryOf(s0, dt, pow15, tracked, trajectory)
      invariant PathsOf(s0, dt, pow15, steps, paths)
      decreases StepBound(duration, dt) - steps
    {
      StepsBelowBound(steps, dt, duration);
      ghost var before := Snapshot(bodies);
      var extended;
      ok, extended := StepOnce(bodies, dt, pow15, paths);
      if !ok {
        return;
      }
      ghost var after := StepStates(before, dt, pow15).value;
      assert Run(s0, dt, pow15, steps + 1) == Some(after);
      ExtendPaths(s0, dt, pow15, steps, paths, after, extended);
      ExtendTrajectory(s0, dt, pow15, tracked, trajectory, after);
      paths := extended;
      t := t + dt;
      assert bodies[tracked].x == after[tracked].x;
      trajectory := trajectory + [Record(t, bodies[tracked].x.x, bodies[tracked].x.y, bodies[tracked].x.z)];
      steps := steps + 1;
    }
    ok := true;
  }
}
