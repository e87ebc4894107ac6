# Satellite orbit simulation — verified model

This project models three parts of a small Python orbit-simulation
repository: the arbitrary-precision numeric kernel, the gravitational N-body
integrator, and the post-processing step that differences two satellite
trajectories. Every value is an exact Dafny `real`. The program's `Decimal`
numbers at 100 or 200 significant digits are idealised to exact values.

- `precise_math.dfy` (module `PreciseMath`) models `preciseMath.py`:
  - `pi` is the 240-digit constant.
  - `sin` and `cos` reduce the angle with `Decimal %`, then add Taylor terms
    while the pending term exceeds 1e-200. Both share the `SumSeries` loop.
  - `root` runs Newton's method from 1 until two iterates are within 1e-201.
  - `factorial` is exact recursion.
  - The program's loops have no bound, so `Sin`, `Cos` and `Root` take a
    `fuel` bound and report running out of it as a failure.
- `two_body_problem.dfy` (module `TwoBodyProblem`) models `twoBodyProblem.py`:
  - `CelBody` is a class whose `x`, `v` and `a` are updated in place.
  - The loop body becomes methods over the body objects: `AccumulatePulls`,
    `ComputeAccelerations`, `Advance`, `StepOnce` and `Simulate`.
  - Each method is proved against the value-level functions `StepStates` and
    `Run` over `BodyState` snapshots, and the physical claims are lemmas about
    those functions.
  - The real power `** 1.5` is a parameter `pow15` applied to the squared
    distance. A zero result is the program's division by zero, and the model
    reports it as a failed step.
- `satelite_trajectory_difference.dfy` (module `TrajectoryDifference`) models
  the zip-and-subtract loop of `sateliteTrajectoryDifference.py`:
  - `Difference` is a function that returns a `Result`.
  - `ComputeDifference` is the loop, proved equal to `Difference`.
- Helper modules:
  - `wrappers.dfy` holds `Option` and `Result`.
  - `vectors.dfy` holds 3-vectors.
  - `records.dfy` holds the trajectory record `{time, x, y, z}`.
  - `real_facts.dfy` holds small lemmas of real arithmetic that the solver
    needs stated separately.

The `x0` and `v0` of a `CelBody` are `const` fields. The type system
therefore guarantees that stepping never changes them; only the copies `x`
and `v` move.

## Model

| member | source | states |
|---|---|---|
| PreciseMath.Pi | preciseMath.py:7-9 | The constant is the 240-digit decimal of pi, and it lies strictly between 3.14159 and 3.14160. |
| PreciseMath.Factorial | preciseMath.py:57-62 | The factorial is at least 1, so dividing a series term by it never divides by zero. It is also at least `n`. |
| PreciseMath.DecimalRemainder | preciseMath.py:13 | `Decimal %` with a positive modulus lies strictly between `-y` and `y`, keeps the sign of the dividend, and differs from the dividend by a whole multiple of `y`. |
| PreciseMath.RemainderUnique | preciseMath.py:13 | Range, sign and congruence determine the remainder: any value with all three equals `DecimalRemainder(x, y)`. |
| PreciseMath.ReduceAngle | preciseMath.py:13 | The reduced angle lies in the open interval (-2pi, 2pi), not [-pi, pi], has the sign of the input, and differs from it by a whole number of turns of 2pi. |
| PreciseMath.ReduceAngleInRange | preciseMath.py:13 | Reduction leaves an angle already inside (-2pi, 2pi) unchanged. |
| PreciseMath.ReduceAnglePeriodic | preciseMath.py:13 | Adding 2pi to a non-negative angle does not change its reduction. |
| PreciseMath.RemainderPeriodic | preciseMath.py:13 | Adding the modulus to a non-negative dividend does not change `Decimal %`. |
| PreciseMath.ReduceAnglePeriodicNegative | preciseMath.py:13 | Subtracting 2pi from a non-positive angle does not change its reduction. |
| PreciseMath.RemainderPeriodicNegative | preciseMath.py:13 | Subtracting the modulus from a non-positive dividend does not change `Decimal %`. |
| PreciseMath.StopsAtUnique | preciseMath.py:19-22 | The loop's stopping point, the first term at or below 1e-200, is unique. |
| PreciseMath.SumSeries | preciseMath.py:16-23 | The returned sum is the partial sum of the terms `(-1)^(k//2) θ^k / k!` taken from index `first` in steps of two. Every added term exceeded 1e-200. It converges exactly when the pending term is at or below 1e-200. Otherwise the fuel ran out. |
| PreciseMath.FirstSineTerm | preciseMath.py:17 | The sine series' first term is θ itself. |
| PreciseMath.Sin | preciseMath.py:11-23 | A returned value is the partial sum of the odd terms of the reduced angle, up to the first term at or below 1e-200. No value means the first `fuel + 1` terms all exceed the threshold. |
| PreciseMath.Cos | preciseMath.py:25-37 | Same as `Sin`, for the even terms starting from 1. |
| PreciseMath.SineAtZero | preciseMath.py:11-23 | At angle 0 the sine loop stops before adding a term, so `sin(0)` is exactly 0. |
| PreciseMath.CosineAtZero | preciseMath.py:25-37 | At angle 0 the cosine loop stops after the leading 1, so `cos(0)` is exactly 1. |
| PreciseMath.NewtonStep | preciseMath.py:41-49 | The next iterate is where the tangent of `x^n - value` at `x0` crosses zero. |
| PreciseMath.Root | preciseMath.py:39-55 | A degree below 1 fails, as the program's mixed float and `Decimal` step raises for it. Otherwise the result is the Newton iteration from `x0 = 1`, which stops at the first step shorter than 1e-201, or fails on a zero iterate or when the fuel runs out. |
| PreciseMath.NewtonFromStops | preciseMath.py:48-55 | A returned root is the iterate `k + 1` of the Newton sequence from the start, for some `k` below the fuel. Every iterate up to `k` is non-zero, every earlier step was at least 1e-201 long, and step `k` is the first shorter than 1e-201. |
| PreciseMath.NewtonFixedPoint | preciseMath.py:48-53 | An exact non-zero root is returned after one step when the iteration starts there. |
| PreciseMath.FirstStepHitsZero | preciseMath.py:45-53 | For `value == -(n - 1)` the first iterate from 1 is exactly 0, and the iteration then fails on the zero iterate. `root(2, -1)` is one such input. |
| PreciseMath.RootOfOne | preciseMath.py:45-53 | Every positive-degree root of 1, started at `x0 = 1`, returns 1. |
| TwoBodyProblem.CelBody.constructor | twoBodyProblem.py:33-49 | A new body has the given `id`, `name`, `mu`, `x0` and `v0`, with working position `x0`, working velocity `v0` and zero acceleration. |
| TwoBodyProblem.AccelUpToIgnoresOwnMu | twoBodyProblem.py:71-73 | The partial acceleration of a body does not depend on its own `mu`. |
| TwoBodyProblem.AccelerationIgnoresOwnMu | twoBodyProblem.py:71-73 | A body's own `mu` does not matter to its acceleration. |
| TwoBodyProblem.SelfPairIsSkipped | twoBodyProblem.py:69-70 | A body's distance cubed to itself is zero, so a self pull would divide by zero. Yet when all pairs of different bodies are at a non-zero distance cubed, the step succeeds. The self pair is therefore skipped. |
| TwoBodyProblem.AccelUpToMassless | twoBodyProblem.py:71-73 | Partial sums of pulls from bodies with `mu = 0` are zero. |
| TwoBodyProblem.MasslessOthersGiveNoAcceleration | twoBodyProblem.py:71-73 | When every other body is massless, the acceleration is the zero vector. This covers the Earth beside the massless satellite. |
| TwoBodyProblem.StepIsSymplecticEuler | twoBodyProblem.py:75-79 | After a step, `a` is computed from the positions before the step, then `v' = v + a dt`, then `x' = x + v' dt`. `x'` differs from `x + v dt` by exactly `a dt^2`, and `mu` is unchanged. |
| TwoBodyProblem.StepFailsIffCoincident | twoBodyProblem.py:71-73 | Assume a distance-cubed function that is zero only at zero displacement. Then a step fails exactly when two different bodies share a position. |
| TwoBodyProblem.CentralBodyStaysAtRest | twoBodyProblem.py:63-79 | A central body at rest among massless bodies, the scenario of lines 52-55, stays at rest after any number of successful steps, and no body's `mu` changes. |
| TwoBodyProblem.AccumulatePulls | twoBodyProblem.py:66-73 | Only body `i`'s acceleration changes. It fails exactly when some other body is at distance cubed zero. Otherwise the acceleration is the sum over `j ≠ i`, in list order, of `-mu_j (x_i - x_j) / r3`. |
| TwoBodyProblem.ComputeAccelerations | twoBodyProblem.py:65-73 | Positions and velocities are unchanged. It succeeds exactly when no pair is singular. On success every acceleration is computed from the positions before the step. |
| TwoBodyProblem.Advance | twoBodyProblem.py:75-79 | For every body, `v += a dt`, then `x += v dt` with the new `v`. `a` is unchanged, and exactly one planar point is appended to that body's path. |
| TwoBodyProblem.StepOnce | twoBodyProblem.py:65-79 | One iteration succeeds exactly when `StepStates` does. The new body states are then `StepStates` of the old ones, and each path gains its new planar position. |
| TwoBodyProblem.ClockIsMultiple | twoBodyProblem.py:80 | Adding `dt` `k` times from 0 gives exactly `k * dt`. |
| TwoBodyProblem.StepsBelowBound | twoBodyProblem.py:63 | While the clock is below the duration, the step count is below `duration / dt + 1`. This makes the loop terminate for `dt > 0`. |
| TwoBodyProblem.Simulate | twoBodyProblem.py:57-90 | The clock is `steps * dt`. On success `duration <= t`. When at least one step ran, `t - dt < duration` also holds, so the clock has just reached the duration. The bodies hold `Run` of the initial states. Each path holds the planar position after 0..steps steps. The trajectory holds one record per step, stamped with the post-increment clock. A failure happens exactly at the first step whose `StepStates` fails. |
| TrajectoryDifference.Difference | sateliteTrajectoryDifference.py:37-51 | It succeeds exactly when all pairs up to the shorter length have equal times. On success the length is the shorter input's length, and the k-th record is the difference of the k-th pair. On failure the error carries both times of the first mismatching pair. |
| TrajectoryDifference.ComputeDifference | sateliteTrajectoryDifference.py:35-51 | The appending loop with its early raise computes exactly `Difference`. |
| TrajectoryDifference.DifferenceWithSelfIsZero | sateliteTrajectoryDifference.py:42-44 | A trajectory differenced with itself succeeds, with zero `x`, `y` and `z` and the original times. |
| TrajectoryDifference.DifferenceAntisymmetric | sateliteTrajectoryDifference.py:42-44 | With agreeing times, swapping parent and child negates every component and keeps the times. |
| TrajectoryDifference.DifferenceIgnoresTail | sateliteTrajectoryDifference.py:37 | Child records beyond the end of a shorter or equal parent are ignored, as with `zip`. |
| TrajectoryDifference.DifferenceIgnoresParentTail | sateliteTrajectoryDifference.py:37 | Parent records beyond the end of a shorter or equal child are ignored, as with `zip`. |

## Left out

- Decimal precision and rounding (`getcontext().prec` of 100 and 200 digits): every operation is exact. Analytic facts are not modelled either, since they need limits or error bounds: convergence of the Taylor series, `sin² + cos² ≈ 1` and the conservation of energy.
- Sin, Cos, Root: the program loops without bound, so the model adds a `fuel` parameter. Running out of fuel is a failure result (`None`, `NotConverged`). The program's `root` can loop forever on some inputs. For `value == -(n - 1)` the first iterate is exactly 0 and the program raises instead (`ZeroIterate`, see `FirstStepHitsZero`).
- SeriesThreshold: the program compares against the float `1e-200`, which is not exactly 10^-200. The model uses the exact decimal 10^-200.
- Root: the model assumes, as the program's callers do, that `value` is a `Decimal`, and it models a degree below 1 as one error, `UnsupportedDegree`. It does not model that an integer `value` would make the iterates Python floats.
- Factorial: it is defined on natural numbers only. For a negative argument the program recurses until Python's recursion limit, and no caller passes one.
- The program's implicit `** 1.5` is not computed: `pow15` is a parameter that receives the squared distance. A zero result is the program's division by zero, which `Decimal` raises, and the model reports it as a failed step or `ok == false`. What it means for a partly updated state is not modelled beyond that flag.
- Simulate: it requires `dt > 0`. The program's `dt` is the constant 1, and with `dt <= 0` the loop would never end. The tracked satellite (index 1 in the program) is a `tracked` parameter.
- Simulate: records carry the exact clock. The program writes `float(t)` and the coordinates as `str(...)`. The model does not cover these conversions, nor the difference program's `Decimal(str)` parsing back.
- DifferenceAntisymmetric: stated only for trajectories whose times agree. With a mismatch, the reported error changes its field order.
- Difference: the time fields are compared as exact reals. The program compares the floats read back from JSON.
- The program's setup and output are not modelled: constants, the two initial bodies, the `tqdm` progress bar, JSON and `os` file I/O, and the matplotlib and pandas plots. Neither are `CelBody`'s `color` and `lw`, which only the plots use.
- Construction checks for a negative `mu` or vectors that are not 3-dimensional: the program performs none. In the model, vectors are 3-dimensional by type and `mu` is unconstrained.
