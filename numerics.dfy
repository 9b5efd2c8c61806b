/** Real-number stand-ins for the numeric library the plotter uses.

    Python floats are modelled by Dafny's exact `real`. The transcendental
    functions (square root, arc cosine, arc tangent, sine, cosine) are not
    computed: they travel as values of the record `Maths`, so every result
    that depends on them is stated for an arbitrary implementation. The facts
    a proof needs about them are predicates (`SqrtLaw`, `PythagoreanLaw`) that
    the lemmas using them require.
 */
module Numerics {

  datatype Option<T> = None | Some(value: T)

  /** The decimal `np.pi` prints as: the shortest decimal that rounds to the
      double nearest to pi, not that double's exact value. */
  const Pi: real := 3.141592653589793

  function Abs(v: real): (r: real)
    ensures r >= 0.0
    ensures r == v || r == -v
  {
    if v < 0.0 then -v else v
  }

  /** `np.sign`: -1, 0 or 1 according to the sign of `v`. */
  function Sign(v: real): real {
    if v > 0.0 then 1.0 else if v < 0.0 then -1.0 else 0.0
  }

  function Max(a: real, b: real): (r: real)
    ensures r >= a && r >= b
    ensures r == a || r == b
  {
    if a >= b then a else b
  }

  function MaxNat(a: nat, b: nat): (r: nat)
    ensures r >= a && r >= b
    ensures r == a || r == b
  {
    if a >= b then a else b
  }

  /** The library functions the source calls, left uninterpreted. */
  datatype Maths = Maths(
    sqrt: real -> real,
    arccos: real -> real,
    arctan: real -> real,
    sin: real -> real,
    cos: real -> real)

  /** What the proofs assume of `sqrt`: on a non-negative argument it gives
      the non-negative root. */
  ghost predicate SqrtLaw(m: Maths) {
    forall v: real :: v >= 0.0 ==> m.sqrt(v) >= 0.0 && m.sqrt(v) * m.sqrt(v) == v
  }

  /** What the proofs assume of `sin` and `cos`: sin^2 + cos^2 == 1. */
  ghost predicate PythagoreanLaw(m: Maths) {
    forall t: real :: m.sin(t) * m.sin(t) + m.cos(t) * m.cos(t) == 1.0
  }

  /** Under `SqrtLaw`, a non-negative number whose square is `v` is `sqrt(v)`:
      the root is unique. */
  lemma SqrtUnique(m: Maths, v: real, r: real)
    requires SqrtLaw(m)
    requires r >= 0.0 && r * r == v
    ensures m.sqrt(v) == r
  {
    var s := m.sqrt(v);
    assert (s - r) * (s + r) == s * s - r * r == 0.0;
    if s + r != 0.0 {
      assert s - r == ((s - r) * (s + r)) / (s + r);
    }
  }

  // ---------------------------------------------------------------------------
  // Facts of real arithmetic that the solver does not find unaided
  // ---------------------------------------------------------------------------

  /** A product of two positive numbers is positive. */
  lemma MulPos(u: real, v: real)
    requires u > 0.0 && v > 0.0
    ensures u * v > 0.0
  {
  }

  /** A square is never negative. */
  lemma SquareNonNeg(u: real)
    ensures u * u >= 0.0
  {
    if u < 0.0 { MulPos(-u, -u); } else if u > 0.0 { MulPos(u, u); }
  }

  /** Multiplying by a positive factor keeps the order, in both directions. */
  lemma MulMonotone(x: real, y: real, p: real)
    requires p > 0.0
    ensures x <= y <==> x * p <= y * p
  {
    if x <= y {
      assert (y - x) * p >= 0.0;
    } else {
      assert (x - y) * p > 0.0;
    }
  }

  /** On non-negative numbers, squaring keeps the order, in both directions. */
  lemma SquareLe(x: real, y: real)
    requires x >= 0.0 && y >= 0.0
    ensures x <= y <==> x * x <= y * y
  {
    if x <= y {
      assert x * x <= x * y <= y * y;
    } else {
      MulPos(x - y, x + y);
      assert x * x - y * y == (x - y) * (x + y);
    }
  }

  /** `|u|^2 == u^2`. */
  lemma AbsSquare(u: real)
    ensures Abs(u) * Abs(u) == u * u
  {
    if u < 0.0 { assert (-u) * (-u) == u * u; }
  }

  /** A sum of two squares is zero only when both are. */
  lemma ZeroDistance(dx: real, dy: real)
    requires dx * dx + dy * dy == 0.0
    ensures dx == 0.0 && dy == 0.0
  {
    SquareNonNeg(dx);
    SquareNonNeg(dy);
    assert dx * dx <= 0.0 && dy * dy <= 0.0;
    SquareLe(Abs(dx), 0.0);
    SquareLe(Abs(dy), 0.0);
    AbsSquare(dx);
    AbsSquare(dy);
  }

  /** The square of a sum of two plane vectors. */
  lemma SumSquare(ux: real, uy: real, vx: real, vy: real)
    ensures (ux + vx) * (ux + vx) + (uy + vy) * (uy + vy)
         == (ux * ux + uy * uy) + (vx * vx + vy * vy) + 2.0 * (ux * vx + uy * vy)
  {}

  /** Lagrange's identity in the plane: `|u|^2 |v|^2 == (u.v)^2 + (u x v)^2`. */
  lemma Lagrange(ux: real, uy: real, vx: real, vy: real)
    ensures (ux * ux + uy * uy) * (vx * vx + vy * vy)
         == (ux * vx + uy * vy) * (ux * vx + uy * vy) + (ux * vy - uy * vx) * (ux * vy - uy * vx)
  {}

  /** The dot product of two plane vectors of lengths `r0` and `r1` lies in
      `[-r0 r1, r0 r1]`. */
  lemma CauchySchwarz(ux: real, uy: real, vx: real, vy: real, r0: real, r1: real)
    requires r0 >= 0.0 && r1 >= 0.0
    requires ux * ux + uy * uy == r0 * r0 && vx * vx + vy * vy == r1 * r1
    ensures -(r0 * r1) <= ux * vx + uy * vy <= r0 * r1
  {
    var dot := ux * vx + uy * vy;
    var cross := ux * vy - uy * vx;
    Lagrange(ux, uy, vx, vy);
    SquareNonNeg(cross);
    assert (r0 * r0) * (r1 * r1) == (r0 * r1) * (r0 * r1);
    assert dot * dot <= (r0 * r1) * (r0 * r1);
    assert Abs(dot) * Abs(dot) == dot * dot;
    SquareNonNeg(r0); 
    if r0 > 0.0 && r1 > 0.0 { MulPos(r0, r1); }
    assert r0 * r1 >= 0.0;
    SquareLe(Abs(dot), r0 * r1);
  }

  /** A product of two non-negative numbers is non-negative. */
  lemma MulNonNeg(u: real, v: real)
    requires u >= 0.0 && v >= 0.0
    ensures u * v >= 0.0
  {
    if u > 0.0 && v > 0.0 { MulPos(u, v); }
  }

  /** A positive factor can be divided out of a non-negative product. */
  lemma PositiveFactor(q: real, v: real)
    requires q > 0.0 && q * v >= 0.0
    ensures v >= 0.0
  {
    MulMonotone(0.0, v, q);
  }

  /** Division distributes over a product: `u v / d == u (v / d)`. */
  lemma DivScale(u: real, v: real, d: real)
    requires d != 0.0
    ensures u * v / d == u * (v / d)
  {
  }
}
