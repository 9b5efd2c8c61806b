/** The plotter clock of plot_clock.py: a string queue; the constant-speed
    stepping of the two servos towards their target angles; the inverse
    kinematics that turns a target point into the two target angles; and the
    choice between the two pen positions the forward kinematics yields. */
module Clock {
  import opened Numerics
  import opened MathUtil

  // ---------------------------------------------------------------------------
  // Queue
  // ---------------------------------------------------------------------------

  /** A first-in first-out list of strings. */
  class Queue {
    var items: seq<string>

    constructor ()
      ensures items == []
    {
      items := [];
    }

    /** `put`: appends `input` behind the elements already queued. */
    method Put(input: string)
      modifies this
      ensures items == old(items) + [input]
      ensures |items| == |old(items)| + 1 && items[|items| - 1] == input
      ensures forall i :: 0 <= i < |old(items)| ==> items[i] == old(items)[i]
    {
      items := items + [input];
    }

    /** `pop`: drops the front element. `list.pop(0)` raises `IndexError` on
        an empty list; `raised` reports that case, and the list is then left
        as it was. */
    method Pop() returns (raised: bool)
      modifies this
      ensures raised <==> old(items) == []
      ensures items == if raised then old(items) else old(items)[1..]
      ensures !raised ==> forall i :: 0 <= i < |items| ==> items[i] == old(items)[i + 1]
    {
      raised := items == [];
      if !raised {
        items := items[1..];
      }
    }
  }

  /** Putting behind a non-empty queue and then popping is the same as popping
      first and putting afterwards: the queue is first in, first out. */
  lemma PutThenPop(s: seq<string>, v: string)
    requires s != []
    ensures (s + [v])[1..] == s[1..] + [v]
  {
  }

  // ---------------------------------------------------------------------------
  // Stepping one servo
  // ---------------------------------------------------------------------------

  /** One tick of `__move_to_angle` for one servo: the angle `a` moves by the
      servo speed `s` in the direction of the target `t`, and stays where it
      is when it equals the target. */
  function Step(a: real, t: real, s: real): real {
    if t > a then a + s else if t < a then a - s else a
  }

  /** A tick moves the angle by exactly the speed, forwards or backwards, and
      leaves it in place exactly when it is on target or the speed is zero. */
  lemma StepMoves(a: real, t: real, s: real)
    ensures Step(a, t, s) - a == s || Step(a, t, s) - a == -s || Step(a, t, s) == a
    ensures Step(a, t, s) == a <==> (t == a || s == 0.0)
  {
  }

  /** The source's form of the step, `a + sign(t - a) * s`, is `Step`. */
  lemma SignStep(a: real, t: real, s: real)
    ensures a + Sign(t - a) * s == Step(a, t, s)
  {
  }

  /** The angle after `k` ticks. */
  function Steps(a: real, t: real, s: real, k: nat): real {
    if k == 0 then a else Step(Steps(a, t, s, k - 1), t, s)
  }

  /** The tolerance band of `__target_angles_reached`: the error is below
      twice the servo speed. */
  predicate InBand(a: real, t: real, s: real) {
    Abs(t - a) < 2.0 * s
  }

  /** A servo inside the band stays inside it after a tick. */
  lemma StepInBand(a: real, t: real, s: real)
    requires InBand(a, t, s)
    ensures InBand(Step(a, t, s), t, s)
  {
  }

  /** Outside the band, a tick reduces the error by exactly the servo speed
      and keeps the side of the target the angle is on. */
  lemma StepOutOfBand(a: real, t: real, s: real)
    requires s > 0.0 && !InBand(a, t, s)
    ensures Abs(t - Step(a, t, s)) == Abs(t - a) - s
    ensures Sign(t - Step(a, t, s)) == Sign(t - a)
  {
  }

  /** The number of ticks after which the servo is inside the band, counted
      from `a`. */
  function TicksToBand(a: real, t: real, s: real): (n: nat)
    requires s > 0.0
    ensures n == 0 <==> InBand(a, t, s)
    decreases (Abs(t - a) / s).Floor
  {
    if InBand(a, t, s) then 0
    else
      StepOutOfBand(a, t, s);
      FloorDecrease(Abs(t - a), s);
      1 + TicksToBand(Step(a, t, s), t, s)
  }

  /** The measure of `TicksToBand` decreases by one with each tick. */
  lemma FloorDecrease(e: real, s: real)
    requires s > 0.0 && e >= s
    ensures 0 <= ((e - s) / s).Floor < (e / s).Floor
  {
    DivShift(e, s);
  }

  lemma DivShift(e: real, s: real)
    requires s > 0.0
    ensures (e - s) / s == e / s - 1.0
  {
    calc {
      (e / s - 1.0) * s;
      e / s * s - s;
      e - s;
      (e - s) / s * s;
    }
    MulCancel((e - s) / s, e / s - 1.0, s);
  }

  lemma MulCancel(u: real, v: real, s: real)
    requires s > 0.0 && u * s == v * s
    ensures u == v
  {
    assert (u - v) * s == 0.0;
  }

  /** One tick takes one tick off the count, or keeps it at zero. */
  lemma TicksAfterStep(a: real, t: real, s: real)
    requires s > 0.0
    ensures TicksToBand(Step(a, t, s), t, s)
         == if TicksToBand(a, t, s) == 0 then 0 else TicksToBand(a, t, s) - 1
  {
    if InBand(a, t, s) {
      StepInBand(a, t, s);
    }
  }

  /** After `k` ticks the count has gone down by `k`, and stays at zero once
      it got there. */
  lemma {:induction false} TicksAfterSteps(a: real, t: real, s: real, k: nat)
    requires s > 0.0
    ensures TicksToBand(Steps(a, t, s, k), t, s)
         == if k <= TicksToBand(a, t, s) then TicksToBand(a, t, s) - k else 0
  {
    if k > 0 {
      TicksAfterSteps(a, t, s, k - 1);
      TicksAfterStep(Steps(a, t, s, k - 1), t, s);
    }
  }

  /** `TicksToBand` is the least number of ticks that brings the servo into
      the band: it is inside after `k` ticks exactly when `k` is at least the
      count. */
  lemma BandReachedExactly(a: real, t: real, s: real, k: nat)
    requires s > 0.0
    ensures InBand(Steps(a, t, s, k), t, s) <==> k >= TicksToBand(a, t, s)
  {
    TicksAfterSteps(a, t, s, k);
  }

  /** Until the servo is in the band, every tick takes exactly `s` off the
      error. */
  lemma {:induction false} ErrorAfterSteps(a: real, t: real, s: real, k: nat)
    requires s > 0.0 && k <= TicksToBand(a, t, s)
    ensures Abs(t - Steps(a, t, s, k)) == Abs(t - a) - (k as real) * s
  {
    if k > 0 {
      ErrorAfterSteps(a, t, s, k - 1);
      OutOfBandBefore(a, t, s, k);
      ErrorAfterStep(Steps(a, t, s, k - 1), t, s, Abs(t - a), k);
    }
  }

  /** The inductive step of `ErrorAfterSteps`, for an angle `b` outside the
      band whose error is `e0 - (k - 1) s`. */
  lemma ErrorAfterStep(b: real, t: real, s: real, e0: real, k: nat)
    requires s > 0.0 && k > 0 && !InBand(b, t, s)
    requires Abs(t - b) == e0 - ((k - 1) as real) * s
    ensures Abs(t - Step(b, t, s)) == e0 - (k as real) * s
  {
    StepOutOfBand(b, t, s);
    OneMoreTick(e0, Abs(t - b), k, s);
  }

  /** Before the last tick of the count the servo is still outside the band. */
  lemma OutOfBandBefore(a: real, t: real, s: real, k: nat)
    requires s > 0.0 && 0 < k <= TicksToBand(a, t, s)
    ensures !InBand(Steps(a, t, s, k - 1), t, s)
  {
    TicksAfterSteps(a, t, s, k - 1);
  }

  lemma OneMoreTick(e0: real, before: real, k: nat, s: real)
    requires k > 0 && before == e0 - ((k - 1) as real) * s
    ensures before - s == e0 - (k as real) * s
  {
  }

  /** Two servos stepped together are both inside the band after `k` ticks
      exactly when `k` is at least the larger of their two counts. */
  lemma BothInBandExactly(r: real, rt: real, l: real, lt: real, s: real, k: nat)
    requires s > 0.0
    ensures InBand(Steps(r, rt, s, k), rt, s) && InBand(Steps(l, lt, s, k), lt, s)
            <==> k >= MaxNat(TicksToBand(r, rt, s), TicksToBand(l, lt, s))
  {
    BandReachedExactly(r, rt, s, k);
    BandReachedExactly(l, lt, s, k);
  }

  /** With a servo speed that is not positive the band is empty, so the loop
      of `__move_to_angle` can never stop. */
  lemma NoBandWithoutSpeed(a: real, t: real, s: real)
    requires s <= 0.0
    ensures !InBand(a, t, s)
  {
  }

  // ---------------------------------------------------------------------------
  // Inverse kinematics (`__calc_angles`)
  // ---------------------------------------------------------------------------

  /** `q_alpha` / `q_beta`: the distance from a servo to the point that lies
      `dx` across and `y` up from it. When `dx == 0` the source takes `|y|`
      in place of the square root. */
  function ChainLength(m: Maths, dx: real, y: real): real {
    if dx != 0.0 then m.sqrt(Abs(dx * dx) + Abs(y * y)) else Abs(y)
  }

  /** `alpha_2` / `beta_2`: the angle of the same point seen from the servo.
      When `dx == 0` the source takes pi/2 in place of `arctan(y / dx)`. */
  function PolarAngle(m: Maths, dx: real, y: real): real {
    if dx != 0.0 then m.arctan(y / dx) else Pi / 2.0
  }

  /** The left target angle `alpha_1 + alpha_2`, or `None` where `loc` gives
      NaN. */
  function LeftTargetAngle(m: Maths, upper: real, lower: real, x: real, y: real): Option<real> {
    match Loc(m, ChainLength(m, x, y), lower, upper)
    case None => None
    case Some(alpha1) => Some(alpha1 + PolarAngle(m, x, y))
  }

  /** The right target angle `pi - (beta_1 + beta_2)`, computed like the left
      one from the offset `r_x = distance - x` to the right servo. */
  function RightTargetAngle(m: Maths, upper: real, lower: real, distance: real, x: real, y: real)
    : Option<real>
  {
    var rx := distance - x;
    match Loc(m, ChainLength(m, rx, y), lower, upper)
    case None => None
    case Some(beta1) => Some(Pi - (beta1 + PolarAngle(m, rx, y)))
  }

  /** `pi - v`, carried through an undefined value. */
  function Mirrored(v: Option<real>): Option<real> {
    match v
    case None => None
    case Some(w) => Some(Pi - w)
  }

  /** Both branches of `q_alpha` give the distance from the servo to the
      point: the `|y|` taken for `dx == 0` is the square root the other
      branch would take. */
  lemma ChainLengthIsDistance(m: Maths, dx: real, y: real)
    requires SqrtLaw(m)
    ensures ChainLength(m, dx, y) >= 0.0
    ensures ChainLength(m, dx, y) * ChainLength(m, dx, y) == dx * dx + y * y
  {
    SquareNonNeg(dx);
    SquareNonNeg(y);
    AbsSquare(y);
  }

  /** For a point straight above or below the servo, the substitutions give
      the distance `|y|` and the angle pi/2. */
  lemma VerticalAlignment(m: Maths, y: real)
    requires SqrtLaw(m)
    ensures ChainLength(m, 0.0, y) == Abs(y) && PolarAngle(m, 0.0, y) == Pi / 2.0
    ensures ChainLength(m, 0.0, y) == m.sqrt(y * y)
  {
    AbsSquare(y);
    SqrtUnique(m, y * y, Abs(y));
  }

  /** The right servo's computation is the left one mirrored about the
      vertical through the right servo: the point is taken at
      `distance - x`, and the angle is reflected to `pi - angle`. */
  lemma RightMirrorsLeft(m: Maths, upper: real, lower: real, distance: real, x: real, y: real)
    ensures RightTargetAngle(m, upper, lower, distance, x, y)
         == Mirrored(LeftTargetAngle(m, upper, lower, distance - x, y))
  {
  }

  /** With positive arm lengths, the left target angle is defined exactly
      when the point is not the servo itself and its distance lies between
      the difference and the sum of the arm lengths. */
  lemma LeftTargetDefined(m: Maths, upper: real, lower: real, x: real, y: real)
    requires SqrtLaw(m)
    requires upper > 0.0 && lower > 0.0
    ensures LeftTargetAngle(m, upper, lower, x, y).Some? <==>
              (x != 0.0 || y != 0.0) &&
              (lower - upper) * (lower - upper) <= x * x + y * y <= (lower + upper) * (lower + upper)
  {
    ChainLengthIsDistance(m, x, y);
    if ChainLength(m, x, y) == 0.0 {
      ZeroDistance(x, y);
    } else {
      TriangleBySquares(ChainLength(m, x, y), lower, upper, x * x + y * y);
    }
  }

  /** The triangle inequalities of `loc` for sides `q`, `l`, `u`, stated on
      `D == q^2`. */
  lemma TriangleBySquares(q: real, l: real, u: real, D: real)
    requires q >= 0.0 && l >= 0.0 && u >= 0.0 && q * q == D
    ensures (Abs(q - l) <= u <= q + l) <==> (l - u) * (l - u) <= D <= (l + u) * (l + u)
  {
    SquareLe(q, l + u);
    SquareLe(Abs(l - u), q);
    AbsSquare(l - u);
  }

  // ---------------------------------------------------------------------------
  // Pen position (`__calc_pos`)
  // ---------------------------------------------------------------------------

  /** The two candidate pen positions `(x1, y1)` and `(x2, y2)`. */
  datatype PenCandidates = PenCandidates(x1: real, y1: real, x2: real, y2: real)

  /** The closed form of `__calc_pos` for one clock: the candidates for a left
      and a right servo angle. */
  type PenSolver = (real, real) -> PenCandidates

  /** The tie-break: the candidate with the strictly greater `y`, otherwise
      the second. */
  function TieBreak(c: PenCandidates): (p: (real, real))
    ensures p.1 == Max(c.y1, c.y2)
    ensures p == (c.x1, c.y1) || p == (c.x2, c.y2)
    ensures c.y1 == c.y2 ==> p == (c.x2, c.y2)
  {
    if c.y1 > c.y2 then (c.x1, c.y1) else (c.x2, c.y2)
  }

  // ---------------------------------------------------------------------------
  // The clock
  // ---------------------------------------------------------------------------

  /** The two-servo arm. The servos sit at `(0, 0)` and `(distance, 0)`; each
      drives a lower arm whose far end carries an upper arm, and the two upper
      arms meet at the pen. */
  class PlotClock {
    const upperArmLength: real
    const lowerArmLength: real
    const distance: real
    const servoSpeed: real
    const angleTolerance: real := 2.0 * servoSpeed

    var rAngle: real
    /** `None` stands for the NaN the source stores for an unreachable point. */
    var rTargetAngle: Option<real>
    var lAngle: real
    var lTargetAngle: Option<real>
    var tX: real
    var tY: real
    var x: real
    var y: real

    constructor (upperArmLength: real, lowerArmLength: real, servoDistance: real, servoSpeed: real)
      ensures this.upperArmLength == upperArmLength && this.lowerArmLength == lowerArmLength
      ensures distance == servoDistance && this.servoSpeed == servoSpeed
      ensures angleTolerance == 2.0 * servoSpeed
      ensures rAngle == Pi / 2.0 && rTargetAngle == Some(Pi / 2.0)
      ensures lAngle == Pi / 2.0 && lTargetAngle == Some(Pi / 2.0)
      ensures tX == 0.0 && tY == 0.0 && x == 0.0 && y == 0.0
    {
      rAngle := Pi / 2.0;
      rTargetAngle := Some(Pi / 2.0);
      lAngle := Pi / 2.0;
      lTargetAngle := Some(Pi / 2.0);
      this.upperArmLength := upperArmLength;
      this.lowerArmLength := lowerArmLength;
      distance := servoDistance;
      this.servoSpeed := servoSpeed;
      tX := 0.0;
      tY := 0.0;
      x := 0.0;
      y := 0.0;
    }

    function LeftServo(): (real, real) {
      (0.0, 0.0)
    }

    function RightServo(): (real, real) {
      (distance, 0.0)
    }

    function PenJoint(): (real, real)
      reads this
    {
      (x, y)
    }

    function TheoryPenJoint(): (real, real)
      reads this
    {
      (tX, tY)
    }

    /** The far end of the left lower arm. */
    function LeftJoint(m: Maths): (real, real)
      reads this
    {
      (lowerArmLength * m.cos(lAngle), lowerArmLength * m.sin(lAngle))
    }

    /** The far end of the right lower arm. */
    function RightJoint(m: Maths): (real, real)
      reads this
    {
      (lowerArmLength * m.cos(rAngle) + distance, lowerArmLength * m.sin(rAngle))
    }

    /** Each lower-arm joint lies one lower-arm length from its servo, which
        sits at `LeftServo()` or `RightServo()`. */
    lemma JointsOnLowerArms(m: Maths)
      requires PythagoreanLaw(m)
      ensures OnCircle(LeftJoint(m).0, LeftJoint(m).1, LeftServo().0, LeftServo().1, lowerArmLength)
      ensures OnCircle(RightJoint(m).0, RightJoint(m).1, RightServo().0, RightServo().1, lowerArmLength)
    {
      ArmEnd(m, lowerArmLength, lAngle, 0.0);
      ArmEnd(m, lowerArmLength, rAngle, distance);
    }

    /** `__target_angles_reached`: both errors are inside the band. A NaN
        target compares false. */
    predicate TargetAnglesReached()
      reads this
    {
      match (rTargetAngle, lTargetAngle)
      case (Some(rt), Some(lt)) => Abs(rt - rAngle) < angleTolerance && Abs(lt - lAngle) < angleTolerance
      case _ => false
    }

    /** The exit test is the band of `InBand` for either servo. */
    lemma ReachedIsBothInBand()
      requires rTargetAngle.Some? && lTargetAngle.Some?
      ensures TargetAnglesReached() <==>
                InBand(rAngle, rTargetAngle.value, servoSpeed) && InBand(lAngle, lTargetAngle.value, servoSpeed)
    {
    }

    /** Without a positive servo speed, or with a NaN target, the exit test
        fails in every state. */
    lemma NeverReached()
      requires servoSpeed <= 0.0 || rTargetAngle.None? || lTargetAngle.None?
      ensures !TargetAnglesReached()
    {
    }

    /** `__calc_angles`: the target angles for the point `(tX, tY)`. */
    method CalcAngles(m: Maths)
      modifies this`lTargetAngle, this`rTargetAngle
      ensures lTargetAngle == LeftTargetAngle(m, upperArmLength, lowerArmLength, tX, tY)
      ensures rTargetAngle == RightTargetAngle(m, upperArmLength, lowerArmLength, distance, tX, tY)
    {
      var x, y := tX, tY;
      lTargetAngle := LeftTargetAngle(m, upperArmLength, lowerArmLength, x, y);
      rTargetAngle := RightTargetAngle(m, upperArmLength, lowerArmLength, distance, x, y);
    }

    /** The tie-break at the end of `__calc_pos`, given the two candidates the
        closed form yields for the current angles. */
    method CalcPos(solver: PenSolver)
      modifies this`x, this`y
      ensures (x, y) == TieBreak(solver(lAngle, rAngle))
      ensures y == Max(solver(lAngle, rAngle).y1, solver(lAngle, rAngle).y2)
    {
      var c := solver(lAngle, rAngle);
      if c.y1 > c.y2 {
        x, y := c.x1, c.y1;
        return;
      }
      x, y := c.x2, c.y2;
    }

    /** `__move_to_angle`: steps both servos, then recomputes the pen, until
        both are inside the band. It stops after exactly as many ticks as
        the slower servo needs, with each angle where that many ticks take
        it; the targets stay as they were. */
    method MoveToAngle(solver: PenSolver) returns (ghost ticks: nat)
      requires servoSpeed > 0.0 && rTargetAngle.Some? && lTargetAngle.Some?
      modifies this`rAngle, this`lAngle, this`x, this`y
      ensures TargetAnglesReached()
      ensures ticks == MaxNat(TicksToBand(old(rAngle), rTargetAngle.value, servoSpeed),
                              TicksToBand(old(lAngle), lTargetAngle.value, servoSpeed))
      ensures rAngle == Steps(old(rAngle), rTargetAngle.value, servoSpeed, ticks)
      ensures lAngle == Steps(old(lAngle), lTargetAngle.value, servoSpeed, ticks)
      ensures rTargetAngle == old(rTargetAngle) && lTargetAngle == old(lTargetAngle)
      ensures if ticks == 0 then x == old(x) && y == old(y)
              else (x, y) == TieBreak(solver(lAngle, rAngle))
    {
      ghost var r0, l0 := rAngle, lAngle;
      ghost var rt, lt, s := rTargetAngle.value, lTargetAngle.value, servoSpeed;
      ghost var total := MaxNat(TicksToBand(r0, rt, s), TicksToBand(l0, lt, s));
      ticks := 0;
      while !TargetAnglesReached()
        invariant rAngle == Steps(r0, rt, s, ticks) && lAngle == Steps(l0, lt, s, ticks)
        invariant ticks <= total
        invariant if ticks == 0 then x == old(x) && y == old(y)
                  else (x, y) == TieBreak(solver(lAngle, rAngle))
        decreases total - ticks
      {
        assert ticks < total by {
          ReachedIsBothInBand();
          BothInBandExactly(r0, rt, l0, lt, s, ticks);
        }
        assert rAngle + Sign(rTargetAngle.value - rAngle) * servoSpeed == Steps(r0, rt, s, ticks + 1) by {
          SignStep(rAngle, rt, s);
        }
        assert lAngle + Sign(lTargetAngle.value - lAngle) * servoSpeed == Steps(l0, lt, s, ticks + 1) by {
          SignStep(lAngle, lt, s);
        }
        rAngle := rAngle + Sign(rTargetAngle.value - rAngle) * servoSpeed;
        lAngle := lAngle + Sign(lTargetAngle.value - lAngle) * servoSpeed;
        CalcPos(solver);
        ticks := ticks + 1;
      }
      ReachedIsBothInBand();
      BothInBandExactly(r0, rt, l0, lt, s, ticks);
    }

    /** `got_to`: records the target point, computes the target angles, and
        runs the stepping loop. */
    method GotTo(m: Maths, solver: PenSolver, x: real, y: real) returns (ghost ticks: nat)
      requires servoSpeed > 0.0
      requires LeftTargetAngle(m, upperArmLength, lowerArmLength, x, y).Some?
      requires RightTargetAngle(m, upperArmLength, lowerArmLength, distance, x, y).Some?
      modifies this
      ensures tX == x && tY == y
      ensures lTargetAngle == LeftTargetAngle(m, upperArmLength, lowerArmLength, x, y)
      ensures rTargetAngle == RightTargetAngle(m, upperArmLength, lowerArmLength, distance, x, y)
      ensures TargetAnglesReached()
      ensures ticks == MaxNat(TicksToBand(old(rAngle), rTargetAngle.value, servoSpeed),
                              TicksToBand(old(lAngle), lTargetAngle.value, servoSpeed))
      ensures rAngle == Steps(old(rAngle), rTargetAngle.value, servoSpeed, ticks)
      ensures lAngle == Steps(old(lAngle), lTargetAngle.value, servoSpeed, ticks)
      ensures if ticks == 0 then this.x == old(this.x) && this.y == old(this.y)
              else (this.x, this.y) == TieBreak(solver(lAngle, rAngle))
      ensures (old(TargetAnglesReached()) && lTargetAngle == old(lTargetAngle) &&
               rTargetAngle == old(rTargetAngle)) ==> ticks == 0
    {
      if TargetAnglesReached() {
        ReachedIsBothInBand();
      }
      tX := x;
      tY := y;
      CalcAngles(m);
      ticks := MoveToAngle(solver);
    }
  }

  /** The end of an arm of length `l` at angle `t`, driven from `(cx, 0)`, is
      `l` away from it. */
  lemma ArmEnd(m: Maths, l: real, t: real, cx: real)
    requires PythagoreanLaw(m)
    ensures OnCircle(l * m.cos(t) + cx, l * m.sin(t), cx, 0.0, l)
  {
    ScaledUnit(l, m.cos(t), m.sin(t));
    calc {
      (l * m.cos(t) + cx - cx) * (l * m.cos(t) + cx - cx) + (l * m.sin(t) - 0.0) * (l * m.sin(t) - 0.0);
      (l * m.cos(t)) * (l * m.cos(t)) + (l * m.sin(t)) * (l * m.sin(t));
      l * l;
    }
  }

  lemma ScaledUnit(l: real, c: real, s: real)
    requires s * s + c * c == 1.0
    ensures (l * c) * (l * c) + (l * s) * (l * s) == l * l
  {
    calc {
      (l * c) * (l * c) + (l * s) * (l * s);
      (l * l) * (s * s + c * c);
      l * l;
    }
  }
}
