# Plot clock: stepping, kinematics and circle geometry

This project models the core of a two-servo plotter ("plot clock").
Two servos sit a fixed distance apart on the x axis. Each turns a lower arm. Two upper arms join the far ends of the lower arms at the pen. The project is in three modules:

- `Numerics` (numerics.dfy): Dafny's exact `real` stands in for Python floats. The library functions `sqrt`, `arccos`, `arctan`, `sin` and `cos` are not computed. They travel as fields of a `Maths` record, so every result holds for any implementation of them. Lemmas that need facts about them require `SqrtLaw` (sqrt gives the non-negative root of a non-negative number) or `PythagoreanLaw` (sin^2 + cos^2 == 1). Results that are NaN in the program are `None`.
- `MathUtil` (math_util.dfy): `loc`, the law-of-cosines angle, and `get_intersections`, the intersection of two circles. It has three early returns, then the radical-line construction.
- `Clock` (clock.dfy):
  - the string `Queue`, a class over a `seq<string>`;
  - the `PlotClock` class with its angle, target and pen fields, as an imperative model of the object;
  - `got_to`, `__calc_angles`, the stepping loop `__move_to_angle` with its exit test `__target_angles_reached`, and the greater-y tie-break that ends `__calc_pos`.

The stepping loop moves each angle by `sign(target - angle) * servo_speed` per tick until both errors are below `angle_tolerance == 2 * servo_speed`. `Step` and `Steps` specify it for one servo and for `k` ticks. `TicksToBand` counts the ticks one servo needs to reach the band. `MoveToAngle` is proved to stop after exactly the larger of the two servos' counts, with each angle at `Steps` of that count.

The code steps at one constant speed. It has no speed ramp, no subdivision of a move into waypoints, no overshoot detection and no trail buffers. It does not reject an unreachable target: it stores NaN target angles, and the stepping loop then never ends. When the circles touch, `get_intersections` returns the touching point twice.

## Model

| member | source | states |
|---|---|---|
| MathUtil.LocCosine | math_util.py:15 | The cosine argument `(a^2 + b^2 - c^2) / (2ab)` is undefined exactly when `a` or `b` is zero; otherwise it times `2ab` gives `a^2 + b^2 - c^2` |
| MathUtil.Loc | math_util.py:7-16 | For `a, b > 0` and `c >= 0`, `loc` has a value if and only if `abs(a - b) <= c <= a + b` (the three lengths form a triangle); the value is the arc cosine of the cosine argument |
| MathUtil.LocRightTriangle | math_util.py:15 | For the 3-4-5 triangle the cosine argument is 0 (a right angle) |
| MathUtil.LocCosineInRange | math_util.py:8-16 | For `a, b > 0` and `c >= 0` the cosine argument is in [-1, 1] if and only if `abs(a - b) <= c <= a + b` |
| MathUtil.GetIntersections | math_util.py:19-53 | Definition, no contract; its properties are in `NoneExactlyWhenRejected`, `DivisionsAndRootsDefined`, `PointsSymmetric`, `PointsOnBothCircles`, `NoneMeansNoCommonPoint` and `TangencyGivesDoublePoint` |
| MathUtil.CentreDistance | math_util.py:31 | Definition, no contract: the centre distance `d`; see `DivisionsAndRootsDefined` and `PointsOnBothCircles` |
| MathUtil.Rejected | math_util.py:33-41 | Definition, no contract: the three early-return tests; see `NoneExactlyWhenRejected` |
| MathUtil.BaseOffset | math_util.py:43 | Definition, no contract; its properties are in `TangentOffset` and `RadicalPointsOnCircles` |
| MathUtil.Radicand | math_util.py:44 | Definition, no contract; its properties are in `RadicandNonNegative` and `DivisionsAndRootsDefined` |
| MathUtil.RadicalPoints | math_util.py:45-53 | Definition, no contract; its properties are in `RadicalPointsSymmetric` and `RadicalPointsOnCircles` |
| MathUtil.NoneExactlyWhenRejected | math_util.py:31-41 | No result if and only if `Rejected` holds: `d > r0 + r1`, `d < abs(r0 - r1)`, or `d == 0 and r0 == r1` |
| MathUtil.NoneWhenCoincident | math_util.py:39-41 | Two equal circles with one centre give no result |
| MathUtil.DivisionsAndRootsDefined | math_util.py:31-44 | Whenever points are returned, `d > 0` (every division by `d` is defined) and `r0^2 - a^2 >= 0` (the second square root is defined) |
| MathUtil.RadicandNonNegative | math_util.py:34-44 | For a positive `d` that passes the early returns, `r0^2 - a^2 >= 0` |
| MathUtil.HalfChordSquare | math_util.py:43-44 | `4 d^2 (r0^2 - a^2)` is the product of two non-negative factors, so `r0^2 - a^2 >= 0` |
| MathUtil.RadicalPointsInFrame | math_util.py:45-51 | The construction is the base point plus and minus `h` times the unit normal, in the frame of the unit vector from the first centre to the second |
| MathUtil.RadicalPointsSymmetric | math_util.py:45-51 | `x3 + x4 == 2 x2`, `y3 + y4 == 2 y2`, and the chord between the two points is perpendicular to the line of centres |
| MathUtil.PointsSymmetric | math_util.py:19-53 | The two returned points are symmetric about the base point `(x2, y2)`, and their chord is perpendicular to the line of centres |
| MathUtil.RadicalPointsOnCircles | math_util.py:43-51 | With `d` the centre distance, `2da == r0^2 - r1^2 + d^2` and `h^2 == r0^2 - a^2`, both constructed points lie on both circles |
| MathUtil.PointsOnBothCircles | math_util.py:19-53 | Every returned point lies on both circles |
| MathUtil.CommonPointBounds | math_util.py:33-38 | A point on both circles forces `abs(r0 - r1) <= d <= r0 + r1`, so the first two early returns reject only circles that do not meet |
| MathUtil.NoneMeansNoCommonPoint | math_util.py:33-41 | For non-negative radii and circles that are not the same circle, no result means that no point lies on both circles |
| MathUtil.TangencyGivesDoublePoint | math_util.py:34-53 | External tangency `d == r0 + r1 > 0` is not rejected; it gives `a == r0` and a zero radicand, and both returned points coincide |
| MathUtil.TangentOffset | math_util.py:43 | At external tangency the offset `a` equals `r0` |
| MathUtil.TouchingExample | math_util.py:19-53 | Radius-2 circles about (0, 0) and (4, 0) give the point (2, 0) twice |
| MathUtil.ApartExample | math_util.py:33-35 | Unit circles whose centres are 5 apart give no result |
| Clock.Queue.constructor | plot_clock.py:10-11 | A new queue is empty |
| Clock.Queue.Put | plot_clock.py:13-14 | The item is appended at the end; the length grows by one; every earlier element is unchanged and in order |
| Clock.Queue.Pop | plot_clock.py:16-17 | On a non-empty queue it removes exactly the front element and keeps the rest in order; on an empty queue it reports the `IndexError` and changes nothing |
| Clock.PutThenPop | plot_clock.py:13-17 | On a non-empty queue, putting then popping equals popping then putting (first in, first out) |
| Clock.Step | plot_clock.py:103-106 | Definition, no contract; its properties are in `StepMoves` and `SignStep` |
| Clock.Steps | plot_clock.py:101-106 | Definition, no contract: the angle after `k` ticks; its properties are in `TicksAfterSteps`, `ErrorAfterSteps` and `BandReachedExactly` |
| Clock.InBand | plot_clock.py:110-112 | Definition, no contract: one servo's half of the exit test; see `ReachedIsBothInBand` |
| Clock.SignStep | plot_clock.py:103-106 | The source's update `angle + sign(target - angle) * speed` is exactly `Step` |
| Clock.StepMoves | plot_clock.py:103-106 | One tick changes an angle by exactly `speed`, `-speed` or 0; it stays put exactly when it is on target or the speed is 0 |
| Clock.StepInBand | plot_clock.py:103-112 | A servo whose error is below `2 * speed` is still below it after a tick |
| Clock.StepOutOfBand | plot_clock.py:103-106 | For positive speed, a servo at or above the band loses exactly `speed` of error per tick and stays on the same side of its target |
| Clock.TicksToBand | plot_clock.py:101-112 | For positive speed each servo reaches the band after finitely many ticks; the count is 0 exactly when it is already in the band |
| Clock.TicksAfterSteps | plot_clock.py:101-108 | After `k` ticks the remaining count is the old count minus `k`, or 0 once reached |
| Clock.BandReachedExactly | plot_clock.py:101-112 | After `k` ticks a servo is in the band if and only if `k` is at least its count |
| Clock.ErrorAfterSteps | plot_clock.py:101-106 | Until a servo reaches the band, `k` ticks take exactly `k * speed` off its error |
| Clock.BothInBandExactly | plot_clock.py:101-112 | Both servos are in the band after `k` ticks if and only if `k` is at least the larger of their counts |
| Clock.NoBandWithoutSpeed | plot_clock.py:110-112 | With `speed <= 0` no error is below `2 * speed`, so the loop cannot exit |
| Clock.ChainLength | plot_clock.py:89-95 | Definition, no contract: `q_alpha` / `q_beta`; its properties are in `ChainLengthIsDistance` and `VerticalAlignment` |
| Clock.PolarAngle | plot_clock.py:91-98 | Definition, no contract: `alpha_2` / `beta_2`; its properties are in `VerticalAlignment` |
| Clock.LeftTargetAngle | plot_clock.py:87-92 | Definition, no contract; its properties are in `LeftTargetDefined` and `RightMirrorsLeft` |
| Clock.RightTargetAngle | plot_clock.py:94-99 | Definition, no contract; its properties are in `RightMirrorsLeft` |
| Clock.ChainLengthIsDistance | plot_clock.py:89-95 | Both branches of `q_alpha` (and of `q_beta`) give a non-negative length whose square is `dx^2 + y^2` |
| Clock.VerticalAlignment | plot_clock.py:89-91 | When `x == 0` the branches take `abs(y)`, which equals `sqrt(y^2)`, and the polar angle pi/2 |
| Clock.RightMirrorsLeft | plot_clock.py:94-99 | The right target is `pi` minus the left computation applied to `r_x = distance - x`, with the same `abs(y)` and pi/2 substitutions when `r_x == 0` |
| Clock.LeftTargetDefined | plot_clock.py:89-92 | For positive arm lengths the left target angle is defined if and only if the point is not the servo and its distance lies between the difference and the sum of the arm lengths |
| Clock.TieBreak | plot_clock.py:165-171 | The stored pen position is one of the two candidates. Its y is `max(y1, y2)`. On equal y the second candidate is stored |
| Clock.PlotClock.constructor | plot_clock.py:21-34 | All four angles are pi/2, `angle_tolerance == 2 * servo_speed`, the target and pen points are (0, 0), and the arm lengths and distance are the arguments (constants thereafter) |
| Clock.PlotClock.LeftServo | plot_clock.py:39-41 | Definition, no contract: the left servo at (0, 0); its property is in `JointsOnLowerArms` |
| Clock.PlotClock.RightServo | plot_clock.py:43-45 | Definition, no contract: the right servo at (distance, 0); its property is in `JointsOnLowerArms` |
| Clock.PlotClock.PenJoint | plot_clock.py:47-49 | Definition, no contract: the pen point `(x, y)`, which `CalcPos` and `MoveToAngle` specify |
| Clock.PlotClock.TheoryPenJoint | plot_clock.py:51-53 | Definition, no contract: the target point `(t_x, t_y)`, which `GotTo` specifies |
| Clock.PlotClock.LeftJoint | plot_clock.py:55-57 | Definition, no contract; its property is in `JointsOnLowerArms` |
| Clock.PlotClock.RightJoint | plot_clock.py:59-62 | Definition, no contract; its property is in `JointsOnLowerArms` |
| Clock.PlotClock.TargetAnglesReached | plot_clock.py:110-112 | Definition, no contract; its properties are in `ReachedIsBothInBand` and `NeverReached` |
| Clock.PlotClock.JointsOnLowerArms | plot_clock.py:39-62 | Each lower-arm joint lies one lower-arm length from its servo, at `left_servo` (0, 0) and `right_servo` (distance, 0) |
| Clock.PlotClock.ReachedIsBothInBand | plot_clock.py:110-112 | `__target_angles_reached` holds if and only if both errors are below `2 * servo_speed` |
| Clock.PlotClock.NeverReached | plot_clock.py:110-112 | With `servo_speed <= 0` or a NaN target the exit test never holds |
| Clock.PlotClock.CalcAngles | plot_clock.py:86-99 | Only the two target angles change, to the left and right target angles of `(t_x, t_y)` |
| Clock.PlotClock.CalcPos | plot_clock.py:165-171 | Only the pen point changes, to the tie-break of the candidates for the current angles; its y is the larger candidate y |
| Clock.PlotClock.MoveToAngle | plot_clock.py:101-108 | On exit both servos are in the band. The loop ran exactly the larger of the two servos' counts of ticks. Each angle is where that many ticks take it. The targets are unchanged. The pen is the tie-break for the final angles, or untouched if no tick ran |
| Clock.PlotClock.GotTo | plot_clock.py:77-81 | The target point is stored and the target angles computed. Stepping then ends in the band after the stated number of ticks. A repeated target that was already reached costs no ticks |

## Left out

- draw_script.py is not part of this model. It covers drawing, argument parsing and the event loop that drives the clock.
- `asyncio.sleep` and cooperative scheduling (plot_clock.py:108) are not modelled. Each loop iteration is one tick, and nothing runs between ticks.
- The closed-form quadratic of `__calc_pos` (plot_clock.py:115-163) and its `print` (plot_clock.py:164) are not modelled. The two candidate pen positions come from a `PenSolver` parameter, and only the tie-break is modelled.
- Numeric values of `sqrt`, `arccos`, `arctan`, `sin` and `cos` are not modelled. These functions are parameters. No round trip between inverse and forward kinematics is claimed.
- Float rounding is not modelled. NaN is modelled only where `loc` yields it (`None`); NaN arising elsewhere is not tracked.
- `servo_angles` and `arms` (plot_clock.py:64-72) are numpy and `zip` wrappers and are not modelled. `pen_joint` and `theory_pen_joint` are plain accessors without contracts.
- Reassigning the public attributes `servo_speed` and `angle_tolerance` after construction is not modelled. Both are constants of the class.
- Clock.PlotClock.MoveToAngle: requires `servo_speed > 0` and defined target angles, because otherwise the source loops forever. `NoBandWithoutSpeed` and `NeverReached` prove that the exit test can then never hold.
- Clock.PlotClock.GotTo: requires `servo_speed > 0` and a reachable target (both target angles defined), for the same reason.
- Clock.Queue.Pop: the `IndexError` of `list.pop(0)` on an empty list is a returned flag rather than an exception.
- Clock.PlotClock.CalcAngles: `loc` and `arctan` are taken as the parameters give them; only the branch structure of `__calc_angles` (the `x == 0` and `r_x == 0` substitutions and the mirroring) is proved.
