/** The geometry helpers of the plotter (math_util.py): the law-of-cosines
    angle and the intersection of two circles. `loc` is `None` where it has no
    value: an arc cosine outside [-1, 1] (NaN), or a zero divisor `2ab`. On
    plain floats that division raises `ZeroDivisionError`; on the numpy
    scalars `__calc_angles` passes it gives inf or NaN, and the arc cosine
    then NaN. */
module MathUtil {
  import opened Numerics

  // ---------------------------------------------------------------------------
  // Law of cosines
  // ---------------------------------------------------------------------------

  /** The cosine of the angle between sides `a` and `b` of a triangle whose
      third side is `c`; undefined when the divisor `2ab` is zero. */
  function LocCosine(a: real, b: real, c: real): (r: Option<real>)
    ensures r.None? <==> a == 0.0 || b == 0.0
    ensures r.Some? ==> r.value * (2.0 * a * b) == a * a + b * b - c * c
  {
    if 2.0 * a * b == 0.0 then None else Some((a * a + b * b - c * c) / (2.0 * a * b))
  }

  /** `loc(a, b, c)`: the angle between `a` and `b`, the arc cosine of
      `LocCosine`; `None` when the cosine is undefined or leaves [-1, 1]. For
      positive `a`, `b` and non-negative `c` the angle exists exactly when
      the three lengths form a triangle. */
  function Loc(m: Maths, a: real, b: real, c: real): (r: Option<real>)
    ensures a > 0.0 && b > 0.0 && c >= 0.0 ==> (r.Some? <==> Abs(a - b) <= c <= a + b)
    ensures r.Some? ==> LocCosine(a, b, c).Some? && r.value == m.arccos(LocCosine(a, b, c).value)
  {
    LocCosineInRange(a, b, c);
    match LocCosine(a, b, c)
    case None => None
    case Some(k) => if -1.0 <= k <= 1.0 then Some(m.arccos(k)) else None
  }

  /** The 3-4-5 triangle is right-angled: the cosine between 3 and 4 is 0. */
  lemma LocRightTriangle()
    ensures LocCosine(3.0, 4.0, 5.0) == Some(0.0)
  {
  }

  /** For positive `a` and `b` and non-negative `c`, the cosine argument lies
      in [-1, 1] exactly when the three lengths satisfy the triangle
      inequality. */
  lemma LocCosineInRange(a: real, b: real, c: real)
    ensures a > 0.0 && b > 0.0 && c >= 0.0 ==>
              (-1.0 <= LocCosine(a, b, c).value <= 1.0 <==> Abs(a - b) <= c <= a + b)
  {
    if a > 0.0 && b > 0.0 && c >= 0.0 {
      CosineBounds(a, b, c, LocCosine(a, b, c).value);
    }
  }

  /** The step of `LocCosineInRange` on a cosine `k` given by
      `2ab k == a^2 + b^2 - c^2`. */
  lemma CosineBounds(a: real, b: real, c: real, k: real)
    requires a > 0.0 && b > 0.0 && c >= 0.0
    requires k * (2.0 * a * b) == a * a + b * b - c * c
    ensures -1.0 <= k <= 1.0 <==> Abs(a - b) <= c <= a + b
  {
    var p := 2.0 * a * b;
    var n := a * a + b * b - c * c;
    MulPos(a, b);
    // k <= 1  <==>  n <= p  <==>  (a - b)^2 <= c^2  <==>  |a - b| <= c
    MulMonotone(k, 1.0, p);
    assert k <= 1.0 <==> n <= p;
    assert n <= p <==> (a - b) * (a - b) <= c * c;
    SquareLe(Abs(a - b), c);
    AbsSquare(a - b);
    // -1 <= k  <==>  -p <= n  <==>  c^2 <= (a + b)^2  <==>  c <= a + b
    MulMonotone(-k, 1.0, p);
    assert (-k) * p == -(k * p);
    assert -1.0 <= k <==> -p <= n;
    assert -p <= n <==> c * c <= (a + b) * (a + b);
    SquareLe(c, a + b);
  }

  // ---------------------------------------------------------------------------
  // Circle-circle intersection
  // ---------------------------------------------------------------------------

  /** The four numbers `get_intersections` returns: two points. */
  datatype PointPair = PointPair(x3: real, y3: real, x4: real, y4: real)

  /** The distance of the two centres, `sqrt(dx^2 + dy^2)`. */
  function CentreDistance(m: Maths, x0: real, y0: real, x1: real, y1: real): real {
    m.sqrt((x1 - x0) * (x1 - x0) + (y1 - y0) * (y1 - y0))
  }

  /** The early returns of `get_intersections`, taken in order: circles too far
      apart, one strictly inside the other, or coincident. */
  predicate Rejected(d: real, r0: real, r1: real) {
    d > r0 + r1 || d < Abs(r0 - r1) || (d == 0.0 && r0 == r1)
  }

  /** `a`: the distance from the first centre to the foot of the radical line. */
  function BaseOffset(d: real, r0: real, r1: real): real
    requires d != 0.0
  {
    (r0 * r0 - r1 * r1 + d * d) / (2.0 * d)
  }

  /** `r0^2 - a^2`, the square of the half chord. */
  function Radicand(d: real, r0: real, r1: real): real
    requires d != 0.0
  {
    r0 * r0 - BaseOffset(d, r0, r1) * BaseOffset(d, r0, r1)
  }

  /** The radical-line construction: the base point `(x2, y2)` at offset `a`
      from the first centre towards the second, and the two points at
      distance `h` on either side of it. */
  function RadicalPoints(x0: real, y0: real, x1: real, y1: real, d: real, a: real, h: real): PointPair
    requires d != 0.0
  {
    var x2 := x0 + a * (x1 - x0) / d;
    var y2 := y0 + a * (y1 - y0) / d;
    var x3 := x2 + h * (y1 - y0) / d;
    var y3 := y2 - h * (x1 - x0) / d;
    var x4 := x2 - h * (y1 - y0) / d;
    var y4 := y2 + h * (x1 - x0) / d;
    PointPair(x3, y3, x4, y4)
  }

  /** `get_intersections(x0, y0, r0, x1, y1, r1)`: the two points where the
      circles meet, or `None` after an early return. A centre distance that
      passes the early returns is never zero, so the divisions are defined
      whatever `sqrt` gives. */
  function GetIntersections(m: Maths, x0: real, y0: real, r0: real, x1: real, y1: real, r1: real)
    : Option<PointPair>
  {
    var d := CentreDistance(m, x0, y0, x1, y1);
    if d > r0 + r1 then None
    else if d < Abs(r0 - r1) then None
    else if d == 0.0 && r0 == r1 then None
    else
      var a := BaseOffset(d, r0, r1);
      var h := m.sqrt(Radicand(d, r0, r1));
      Some(RadicalPoints(x0, y0, x1, y1, d, a, h))
  }

  /** `(px, py)` lies on the circle of radius `r` about `(cx, cy)`. */
  predicate OnCircle(px: real, py: real, cx: real, cy: real, r: real) {
    (px - cx) * (px - cx) + (py - cy) * (py - cy) == r * r
  }

  /** There is no result exactly when the circles are too far apart (a strict
      test), one lies strictly inside the other, or they are coincident. */
  lemma NoneExactlyWhenRejected(m: Maths, x0: real, y0: real, r0: real, x1: real, y1: real, r1: real)
    ensures GetIntersections(m, x0, y0, r0, x1, y1, r1).None? <==>
              Rejected(CentreDistance(m, x0, y0, x1, y1), r0, r1)
  {
  }

  /** Coincident circles give `None`. */
  lemma NoneWhenCoincident(m: Maths, x0: real, y0: real, r: real)
    requires SqrtLaw(m)
    ensures GetIntersections(m, x0, y0, r, x0, y0, r) == None
  {
    SqrtUnique(m, 0.0, 0.0);
  }

  /** Whenever two points are returned, the divisor `d` is positive and the
      argument of the second square root is non-negative, so all divisions
      and both square roots are defined. */
  lemma DivisionsAndRootsDefined(m: Maths, x0: real, y0: real, r0: real, x1: real, y1: real, r1: real)
    requires SqrtLaw(m)
    requires GetIntersections(m, x0, y0, r0, x1, y1, r1).Some?
    ensures CentreDistance(m, x0, y0, x1, y1) > 0.0
    ensures Radicand(CentreDistance(m, x0, y0, x1, y1), r0, r1) >= 0.0
  {
    var d := CentreDistance(m, x0, y0, x1, y1);
    assert d >= 0.0;
    RadicandNonNegative(d, r0, r1);
  }

  /** The half-chord radicand is non-negative for every accepted, positive
      centre distance. */
  lemma RadicandNonNegative(d: real, r0: real, r1: real)
    requires d > 0.0 && !Rejected(d, r0, r1)
    ensures Radicand(d, r0, r1) >= 0.0
  {
    var a := BaseOffset(d, r0, r1);
    assert 2.0 * d * a == r0 * r0 - r1 * r1 + d * d;
    HalfChordSquare(d, r0, r1, a);
  }

  /** With `2 d a == r0^2 - r1^2 + d^2` and `|r0 - r1| <= d <= r0 + r1`,
      `r0^2 - a^2 >= 0`, because
      `4 d^2 (r0^2 - a^2) == ((r0 + r1)^2 - d^2) (d^2 - (r0 - r1)^2)`. */
  lemma HalfChordSquare(d: real, r0: real, r1: real, a: real)
    requires d > 0.0 && Abs(r0 - r1) <= d <= r0 + r1
    requires 2.0 * d * a == r0 * r0 - r1 * r1 + d * d
    ensures r0 * r0 - a * a >= 0.0
  {
    SquareLe(d, r0 + r1);
    SquareLe(Abs(r0 - r1), d);
    AbsSquare(r0 - r1);
    ChordIdentity(d, r0, r1, a);
    QuotientOfProduct(d, r0 * r0 - a * a,
                      (r0 + r1) * (r0 + r1) - d * d, d * d - (r0 - r1) * (r0 - r1));
  }

  /** If `4 d^2 v == f n` with `d` positive and `f`, `n` non-negative, then
      `v` is non-negative. */
  lemma QuotientOfProduct(d: real, v: real, f: real, n: real)
    requires d > 0.0 && f >= 0.0 && n >= 0.0 && (4.0 * (d * d)) * v == f * n
    ensures v >= 0.0
  {
    MulNonNeg(f, n);
    assert (4.0 * (d * d)) * v == d * (d * (4.0 * v));
    PositiveFactor(d, d * (4.0 * v));
    PositiveFactor(d, 4.0 * v);
  }

  lemma ChordIdentity(d: real, r0: real, r1: real, a: real)
    requires 2.0 * d * a == r0 * r0 - r1 * r1 + d * d
    ensures (4.0 * (d * d)) * (r0 * r0 - a * a)
         == ((r0 + r1) * (r0 + r1) - d * d) * (d * d - (r0 - r1) * (r0 - r1))
  {
    var t := 2.0 * d * a;
    assert (4.0 * (d * d)) * (r0 * r0 - a * a) == 4.0 * d * d * r0 * r0 - t * t;
    var s := r0 * r0 - r1 * r1 + d * d;
    assert t * t == s * s;
    assert 4.0 * d * d * r0 * r0 - s * s
        == ((r0 + r1) * (r0 + r1) - d * d) * (d * d - (r0 - r1) * (r0 - r1));
  }

  /** The points `c0 + a e +- h e'`, where `e'` is `e` turned by a right
      angle. */
  function FramePoints(x0: real, y0: real, a: real, h: real, ex: real, ey: real): PointPair {
    PointPair(x0 + a * ex + h * ey, y0 + a * ey - h * ex, x0 + a * ex - h * ey, y0 + a * ey + h * ex)
  }

  /** The construction in the frame of the centre line: with `(ex, ey)` the
      direction from the first centre to the second divided by `d`, each point
      is the first centre plus `a (ex, ey) +- h (ey, -ex)`. */
  lemma RadicalPointsInFrame(x0: real, y0: real, x1: real, y1: real, d: real, a: real, h: real)
    requires d != 0.0
    ensures RadicalPoints(x0, y0, x1, y1, d, a, h)
         == FramePoints(x0, y0, a, h, (x1 - x0) / d, (y1 - y0) / d)
  {
    DivScale(a, x1 - x0, d);
    DivScale(a, y1 - y0, d);
    DivScale(h, x1 - x0, d);
    DivScale(h, y1 - y0, d);
  }

  /** `(mx, my)` is the midpoint of the two points of `p`, and the chord
      joining them is perpendicular to the direction `(dx, dy)`. */
  predicate SymmetricAbout(p: PointPair, mx: real, my: real, dx: real, dy: real) {
    p.x3 + p.x4 == 2.0 * mx && p.y3 + p.y4 == 2.0 * my &&
    (p.x3 - p.x4) * dx + (p.y3 - p.y4) * dy == 0.0
  }

  /** The two points of the construction are symmetric about the base point,
      and the chord joining them is perpendicular to the line of centres. */
  lemma RadicalPointsSymmetric(x0: real, y0: real, x1: real, y1: real, d: real, a: real, h: real)
    requires d != 0.0
    ensures SymmetricAbout(RadicalPoints(x0, y0, x1, y1, d, a, h),
                           x0 + a * (x1 - x0) / d, y0 + a * (y1 - y0) / d, x1 - x0, y1 - y0)
  {
    var p := RadicalPoints(x0, y0, x1, y1, d, a, h);
    var u, v := h * (y1 - y0) / d, h * (x1 - x0) / d;
    assert p.x3 - p.x4 == 2.0 * u && p.y3 - p.y4 == -2.0 * v;
    DivScale(h, y1 - y0, d);
    DivScale(h, x1 - x0, d);
    var k := h / d;
    assert u == (y1 - y0) * k && v == (x1 - x0) * k;
    assert (2.0 * u) * (x1 - x0) + (-2.0 * v) * (y1 - y0) == 0.0;
  }

  /** A result, when there is one, is the radical-line construction with a
      non-zero centre distance. */
  lemma ResultShape(m: Maths, x0: real, y0: real, r0: real, x1: real, y1: real, r1: real)
    requires GetIntersections(m, x0, y0, r0, x1, y1, r1).Some?
    ensures CentreDistance(m, x0, y0, x1, y1) != 0.0
    ensures var d := CentreDistance(m, x0, y0, x1, y1);
            GetIntersections(m, x0, y0, r0, x1, y1, r1).value
              == RadicalPoints(x0, y0, x1, y1, d, BaseOffset(d, r0, r1), m.sqrt(Radicand(d, r0, r1)))
  {
  }

  /** The two returned points are symmetric about the base point, and the chord
      joining them is perpendicular to the line of centres. */
  lemma PointsSymmetric(m: Maths, x0: real, y0: real, r0: real, x1: real, y1: real, r1: real)
    requires GetIntersections(m, x0, y0, r0, x1, y1, r1).Some?
    ensures CentreDistance(m, x0, y0, x1, y1) != 0.0
    ensures var d := CentreDistance(m, x0, y0, x1, y1);
            var a := BaseOffset(d, r0, r1);
            SymmetricAbout(GetIntersections(m, x0, y0, r0, x1, y1, r1).value,
                           x0 + a * (x1 - x0) / d, y0 + a * (y1 - y0) / d, x1 - x0, y1 - y0)
  {
    var d := CentreDistance(m, x0, y0, x1, y1);
    ResultShape(m, x0, y0, r0, x1, y1, r1);
    RadicalPointsSymmetric(x0, y0, x1, y1, d, BaseOffset(d, r0, r1), m.sqrt(Radicand(d, r0, r1)));
  }

  /** When `d` is the centre distance, `2 d a == r0^2 - r1^2 + d^2` and
      `h^2 == r0^2 - a^2`, both points of the construction lie on both
      circles. */
  lemma RadicalPointsOnCircles(x0: real, y0: real, r0: real, x1: real, y1: real, r1: real,
                               d: real, a: real, h: real)
    requires d > 0.0 && d * d == (x1 - x0) * (x1 - x0) + (y1 - y0) * (y1 - y0)
    requires 2.0 * d * a == r0 * r0 - r1 * r1 + d * d
    requires h * h == r0 * r0 - a * a
    ensures var p := RadicalPoints(x0, y0, x1, y1, d, a, h);
            OnCircle(p.x3, p.y3, x0, y0, r0) && OnCircle(p.x3, p.y3, x1, y1, r1) &&
            OnCircle(p.x4, p.y4, x0, y0, r0) && OnCircle(p.x4, p.y4, x1, y1, r1)
  {
    CentreFrame(x0, y0, x1, y1, d);
    RadicalPointsInFrame(x0, y0, x1, y1, d, a, h);
    FramePointsOnCircles(x0, y0, r0, x1, y1, r1, d, a, h, (x1 - x0) / d, (y1 - y0) / d);
  }

  /** The same fact without divisions: the points `c0 + a e +- h e'` lie on
      both circles, where `c1 == c0 + d e`. */
  lemma FramePointsOnCircles(x0: real, y0: real, r0: real, x1: real, y1: real, r1: real,
                             d: real, a: real, h: real, ex: real, ey: real)
    requires ex * ex + ey * ey == 1.0
    requires x1 == x0 + d * ex && y1 == y0 + d * ey
    requires 2.0 * d * a == r0 * r0 - r1 * r1 + d * d
    requires h * h == r0 * r0 - a * a
    ensures var p := FramePoints(x0, y0, a, h, ex, ey);
            OnCircle(p.x3, p.y3, x0, y0, r0) && OnCircle(p.x3, p.y3, x1, y1, r1) &&
            OnCircle(p.x4, p.y4, x0, y0, r0) && OnCircle(p.x4, p.y4, x1, y1, r1)
  {
    var p := FramePoints(x0, y0, a, h, ex, ey);
    assert (-h) * (-h) == h * h;
    OnFirstCircle(x0, y0, r0, a, h, ex, ey, p.x3, p.y3);
    OnFirstCircle(x0, y0, r0, a, -h, ex, ey, p.x4, p.y4);
    OnSecondCircle(x0, y0, r0, x1, y1, r1, d, a, h, ex, ey, p.x3, p.y3);
    OnSecondCircle(x0, y0, r0, x1, y1, r1, d, a, -h, ex, ey, p.x4, p.y4);
  }

  /** A point `c0 + a e + h e'` with `a^2 + h^2 == r0^2` lies on the first
      circle. */
  lemma OnFirstCircle(x0: real, y0: real, r0: real, a: real, h: real, ex: real, ey: real,
                      px: real, py: real)
    requires ex * ex + ey * ey == 1.0
    requires h * h == r0 * r0 - a * a
    requires px == x0 + a * ex + h * ey && py == y0 + a * ey - h * ex
    ensures OnCircle(px, py, x0, y0, r0)
  {
    OnCircleInFrame(px, py, x0, y0, a, h, ex, ey, r0);
  }

  /** The same point lies on the second circle: seen from the second centre,
      its offset along the centre line is `a - d`. */
  lemma OnSecondCircle(x0: real, y0: real, r0: real, x1: real, y1: real, r1: real,
                       d: real, a: real, h: real, ex: real, ey: real, px: real, py: real)
    requires ex * ex + ey * ey == 1.0
    requires x1 == x0 + d * ex && y1 == y0 + d * ey
    requires 2.0 * d * a == r0 * r0 - r1 * r1 + d * d
    requires h * h == r0 * r0 - a * a
    requires px == x0 + a * ex + h * ey && py == y0 + a * ey - h * ex
    ensures OnCircle(px, py, x1, y1, r1)
  {
    SecondRadius(d, a, h, r0, r1);
    Shift(x0, x1, d, a, ex);
    Shift(y0, y1, d, a, ey);
    OnCircleInFrame(px, py, x1, y1, a - d, h, ex, ey, r1);
  }

  lemma Shift(x0: real, x1: real, d: real, a: real, ex: real)
    requires x1 == x0 + d * ex
    ensures x0 + a * ex == x1 + (a - d) * ex
  {
  }

  /** The unit vector `e` from the first centre towards the second, with
      `c1 == c0 + d e`. */
  lemma CentreFrame(x0: real, y0: real, x1: real, y1: real, d: real)
    requires d > 0.0 && d * d == (x1 - x0) * (x1 - x0) + (y1 - y0) * (y1 - y0)
    ensures ((x1 - x0) / d) * ((x1 - x0) / d) + ((y1 - y0) / d) * ((y1 - y0) / d) == 1.0
    ensures x1 == x0 + d * ((x1 - x0) / d) && y1 == y0 + d * ((y1 - y0) / d)
  {
    UnitDirection(d, x1 - x0, y1 - y0);
    ScaledBack(x0, x1, d);
    ScaledBack(y0, y1, d);
  }

  lemma ScaledBack(x0: real, x1: real, d: real)
    requires d != 0.0
    ensures x1 == x0 + d * ((x1 - x0) / d)
  {
  }

  /** From the second centre a point of the construction lies `a - d` along
      the centre line and `h` across it, and `(a - d)^2 + h^2 == r1^2`. */
  lemma SecondRadius(d: real, a: real, h: real, r0: real, r1: real)
    requires 2.0 * d * a == r0 * r0 - r1 * r1 + d * d
    requires h * h == r0 * r0 - a * a
    ensures (a - d) * (a - d) + h * h == r1 * r1
  {
    assert (a - d) * (a - d) == a * a - 2.0 * d * a + d * d;
  }

  /** A point `c + u e + v e'`, with `e` a unit vector and `e'` `e` turned by
      a right angle, lies on the circle of radius `r` about `c` when
      `u^2 + v^2 == r^2`. */
  lemma OnCircleInFrame(px: real, py: real, cx: real, cy: real, u: real, v: real,
                        ex: real, ey: real, r: real)
    requires ex * ex + ey * ey == 1.0
    requires px == cx + u * ex + v * ey && py == cy + u * ey - v * ex
    requires u * u + v * v == r * r
    ensures OnCircle(px, py, cx, cy, r)
  {
    RotatedNorm(u, v, ex, ey);
    calc {
      (px - cx) * (px - cx) + (py - cy) * (py - cy);
      (u * ex + v * ey) * (u * ex + v * ey) + (u * ey - v * ex) * (u * ey - v * ex);
      u * u + v * v;
    }
  }

  /** Dividing the centre offset by its length `d` gives a unit vector. */
  lemma UnitDirection(d: real, dx: real, dy: real)
    requires d > 0.0 && d * d == dx * dx + dy * dy
    ensures (dx / d) * (dx / d) + (dy / d) * (dy / d) == 1.0
  {
    UnitScaled(d, dx, dy, dx / d, dy / d);
  }

  lemma UnitScaled(d: real, dx: real, dy: real, ex: real, ey: real)
    requires d > 0.0 && d * d == dx * dx + dy * dy
    requires dx == ex * d && dy == ey * d
    ensures ex * ex + ey * ey == 1.0
  {
    SquareOfScaled(ex, d, dx);
    SquareOfScaled(ey, d, dy);
    calc {
      (ex * ex + ey * ey) * (d * d);
      (ex * ex) * (d * d) + (ey * ey) * (d * d);
      dx * dx + dy * dy;
      d * d;
    }
    UnitFactor(ex * ex + ey * ey, d);
  }

  lemma SquareOfScaled(e: real, d: real, u: real)
    requires u == e * d
    ensures u * u == (e * e) * (d * d)
  {
  }

  /** `x d^2 == d^2` with `d` positive forces `x == 1`. */
  lemma UnitFactor(x: real, d: real)
    requires d > 0.0 && x * (d * d) == d * d
    ensures x == 1.0
  {
    assert ((x - 1.0) * d) * d == 0.0;
    assert (x - 1.0) * d == 0.0;
  }

  /** The squared length of `u e + v e'`, with `e'` the unit vector `e`
      turned by a right angle, is `u^2 + v^2`. */
  lemma RotatedNorm(u: real, v: real, ex: real, ey: real)
    requires ex * ex + ey * ey == 1.0
    ensures (u * ex + v * ey) * (u * ex + v * ey) + (u * ey - v * ex) * (u * ey - v * ex) == u * u + v * v
  {
    assert (u * ex + v * ey) * (u * ex + v * ey) + (u * ey - v * ex) * (u * ey - v * ex)
        == (u * u + v * v) * (ex * ex + ey * ey);
  }

  /** Every returned point lies on both circles. */
  lemma PointsOnBothCircles(m: Maths, x0: real, y0: real, r0: real, x1: real, y1: real, r1: real)
    requires SqrtLaw(m)
    requires GetIntersections(m, x0, y0, r0, x1, y1, r1).Some?
    ensures var p := GetIntersections(m, x0, y0, r0, x1, y1, r1).value;
            OnCircle(p.x3, p.y3, x0, y0, r0) && OnCircle(p.x3, p.y3, x1, y1, r1) &&
            OnCircle(p.x4, p.y4, x0, y0, r0) && OnCircle(p.x4, p.y4, x1, y1, r1)
  {
    SquareNonNeg(x1 - x0);
    SquareNonNeg(y1 - y0);
    DivisionsAndRootsDefined(m, x0, y0, r0, x1, y1, r1);
    ResultShape(m, x0, y0, r0, x1, y1, r1);
    RadicalPointsOnCircles(x0, y0, r0, x1, y1, r1, CentreDistance(m, x0, y0, x1, y1),
                           BaseOffset(CentreDistance(m, x0, y0, x1, y1), r0, r1),
                           m.sqrt(Radicand(CentreDistance(m, x0, y0, x1, y1), r0, r1)));
  }

  /** A point on both circles bounds the centre distance `d` by
      `|r0 - r1| <= d <= r0 + r1` (the triangle inequality). */
  lemma CommonPointBounds(x0: real, y0: real, r0: real, x1: real, y1: real, r1: real,
                          px: real, py: real, d: real)
    requires r0 >= 0.0 && r1 >= 0.0 && d >= 0.0
    requires d * d == (x1 - x0) * (x1 - x0) + (y1 - y0) * (y1 - y0)
    requires OnCircle(px, py, x0, y0, r0) && OnCircle(px, py, x1, y1, r1)
    ensures Abs(r0 - r1) <= d <= r0 + r1
  {
    var ux, uy := px - x0, py - y0;
    var vx, vy := x1 - px, y1 - py;
    assert (px - x1) * (px - x1) == vx * vx && (py - y1) * (py - y1) == vy * vy;
    assert x1 - x0 == ux + vx && y1 - y0 == uy + vy;
    DistanceThroughPoint(ux, uy, vx, vy, r0, r1, d * d);
    CauchySchwarz(ux, uy, vx, vy, r0, r1);
    SquareBounds(d * d, r0, r1, ux * vx + uy * vy);
    RootBounds(d, r0, r1);
  }

  /** With `u` of length `r0` and `v` of length `r1`, `|u + v|^2` is
      `r0^2 + r1^2 + 2 u.v`. */
  lemma DistanceThroughPoint(ux: real, uy: real, vx: real, vy: real, r0: real, r1: real, dd: real)
    requires ux * ux + uy * uy == r0 * r0 && vx * vx + vy * vy == r1 * r1
    requires dd == (ux + vx) * (ux + vx) + (uy + vy) * (uy + vy)
    ensures dd == r0 * r0 + r1 * r1 + 2.0 * (ux * vx + uy * vy)
  {
    SumSquare(ux, uy, vx, vy);
  }

  /** `dd == r0^2 + r1^2 + 2 dot` with `|dot| <= r0 r1` puts `dd` between
      `(r0 - r1)^2` and `(r0 + r1)^2`. */
  lemma SquareBounds(dd: real, r0: real, r1: real, dot: real)
    requires dd == r0 * r0 + r1 * r1 + 2.0 * dot
    requires -(r0 * r1) <= dot <= r0 * r1
    ensures (r0 - r1) * (r0 - r1) <= dd <= (r0 + r1) * (r0 + r1)
  {
    assert (r0 - r1) * (r0 - r1) == r0 * r0 + r1 * r1 - 2.0 * (r0 * r1);
    assert (r0 + r1) * (r0 + r1) == r0 * r0 + r1 * r1 + 2.0 * (r0 * r1);
  }

  /** The bounds on `d^2` carry over to `d`. */
  lemma RootBounds(d: real, r0: real, r1: real)
    requires d >= 0.0 && r0 >= 0.0 && r1 >= 0.0
    requires (r0 - r1) * (r0 - r1) <= d * d <= (r0 + r1) * (r0 + r1)
    ensures Abs(r0 - r1) <= d <= r0 + r1
  {
    SquareLe(d, r0 + r1);
    SquareLe(Abs(r0 - r1), d);
    AbsSquare(r0 - r1);
  }

  /** For non-negative radii, when there is no result and the circles are not
      coincident, no point lies on both circles. */
  lemma NoneMeansNoCommonPoint(m: Maths, x0: real, y0: real, r0: real, x1: real, y1: real, r1: real,
                               px: real, py: real)
    requires SqrtLaw(m)
    requires r0 >= 0.0 && r1 >= 0.0
    requires GetIntersections(m, x0, y0, r0, x1, y1, r1).None?
    requires !(x0 == x1 && y0 == y1 && r0 == r1)
    ensures !(OnCircle(px, py, x0, y0, r0) && OnCircle(px, py, x1, y1, r1))
  {
    var d := CentreDistance(m, x0, y0, x1, y1);
    if OnCircle(px, py, x0, y0, r0) && OnCircle(px, py, x1, y1, r1) {
      CommonPointBounds(x0, y0, r0, x1, y1, r1, px, py, d);
      if d == 0.0 {
        ZeroDistance(x1 - x0, y1 - y0);
      }
    }
  }

  /** Touching from outside (`d == r0 + r1 > 0`) is not rejected, since the
      test is strict: the offset is `r0`, the half chord `0`, and the two
      returned points coincide. */
  lemma TangencyGivesDoublePoint(m: Maths, x0: real, y0: real, r0: real, x1: real, y1: real, r1: real)
    requires SqrtLaw(m)
    requires r0 >= 0.0 && r1 >= 0.0
    requires CentreDistance(m, x0, y0, x1, y1) == r0 + r1 > 0.0
    ensures GetIntersections(m, x0, y0, r0, x1, y1, r1).Some?
    ensures BaseOffset(r0 + r1, r0, r1) == r0 && Radicand(r0 + r1, r0, r1) == 0.0
    ensures var p := GetIntersections(m, x0, y0, r0, x1, y1, r1).value;
            p.x3 == p.x4 && p.y3 == p.y4
  {
    TangentOffset(r0, r1);
    SqrtUnique(m, 0.0, 0.0);
    assert Radicand(r0 + r1, r0, r1) == 0.0;
    ResultShape(m, x0, y0, r0, x1, y1, r1);
    TangentPoints(x0, y0, x1, y1, r0 + r1, r0);
  }

  /** At external tangency, `a == r0`. */
  lemma TangentOffset(r0: real, r1: real)
    requires r0 + r1 > 0.0
    ensures BaseOffset(r0 + r1, r0, r1) == r0
  {
    var d := r0 + r1;
    assert r0 * r0 - r1 * r1 + d * d == r0 * (2.0 * d);
  }

  /** With `h == 0` the two points of the construction coincide. */
  lemma TangentPoints(x0: real, y0: real, x1: real, y1: real, d: real, a: real)
    requires d != 0.0
    ensures var p := RadicalPoints(x0, y0, x1, y1, d, a, 0.0);
            p.x3 == p.x4 && p.y3 == p.y4
  {
  }

  /** Two circles of radius 2 whose centres are 4 apart touch in the single
      point (2, 0), returned twice. */
  lemma TouchingExample(m: Maths)
    requires SqrtLaw(m)
    ensures GetIntersections(m, 0.0, 0.0, 2.0, 4.0, 0.0, 2.0) == Some(PointPair(2.0, 0.0, 2.0, 0.0))
  {
    SqrtUnique(m, 16.0, 4.0);
    SqrtUnique(m, 0.0, 0.0);
  }

  /** Two unit circles whose centres are 5 apart do not meet. */
  lemma ApartExample(m: Maths)
    requires SqrtLaw(m)
    ensures GetIntersections(m, 0.0, 0.0, 1.0, 5.0, 0.0, 1.0) == None
  {
    SqrtUnique(m, 25.0, 5.0);
  }
}
