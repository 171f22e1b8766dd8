/** Exact 2D vector algebra over the reals, standing in for the unseen
    Vector2Util helpers and the glm vector operations, plus an abstract
    rigid transform. */
module Vectors {

  datatype Vec = Vec(x: real, y: real)

  const Origin := Vec(0.0, 0.0)

  function Add(u: Vec, v: Vec): Vec { Vec(u.x + v.x, u.y + v.y) }

  function Sub(u: Vec, v: Vec): Vec { Vec(u.x - v.x, u.y - v.y) }

  function Neg(v: Vec): Vec { Vec(-v.x, -v.y) }

  function Scale(k: real, v: Vec): Vec { Vec(k * v.x, k * v.y) }

  function Dot(u: Vec, v: Vec): real { u.x * v.x + u.y * v.y }

  /** The z component of the 3D cross product of u and v. */
  function Cross(u: Vec, v: Vec): real { u.x * v.y - u.y * v.x }

  function MagnitudeSquared(v: Vec): real { Dot(v, v) }

  /** Vector2Util::tripleProduct(a, b, c): the expansion of (a x b) x c. */
  function TripleProduct(a: Vec, b: Vec, c: Vec): Vec
  {
    Sub(Scale(Dot(a, c), b), Scale(Dot(b, c), a))
  }

  /** Vector2Util::left: a perpendicular of v (v turned by a quarter turn). */
  function Left(v: Vec): (r: Vec)
    ensures Dot(r, v) == 0.0
    ensures MagnitudeSquared(r) == MagnitudeSquared(v)
    ensures Cross(v, r) == MagnitudeSquared(v)
  {
    Vec(-v.y, v.x)
  }

  function Abs(r: real): real { if r < 0.0 then -r else r }

  /** glm::sign on a real: -1, 0 or 1. */
  function Sign(r: real): (s: int)
    ensures s == 1 <==> r > 0.0
    ensures s == -1 <==> r < 0.0
    ensures s == 0 <==> r == 0.0
  {
    if r > 0.0 then 1 else if r < 0.0 then -1 else 0
  }

  /** A rigid transform as the two operations the core uses:
      `inverseRotate` maps a world direction into the shape's local frame
      (Transform2::getInverseTransformedR) and `forward` maps a local point
      into the world (Transform2::transform / getTransformed). */
  datatype Transform2 = Transform2(inverseRotate: Vec -> Vec, forward: Vec -> Vec)

  /** Lagrange's identity in the plane: |u|^2 |v|^2 = (u.v)^2 + (u x v)^2. */
  lemma Lagrange(u: Vec, v: Vec)
    ensures MagnitudeSquared(u) * MagnitudeSquared(v) == Dot(u, v) * Dot(u, v) + Cross(u, v) * Cross(u, v)
  {
    assert MagnitudeSquared(u) * MagnitudeSquared(v)
        == u.x * u.x * v.x * v.x + u.x * u.x * v.y * v.y + u.y * u.y * v.x * v.x + u.y * u.y * v.y * v.y;
    assert Dot(u, v) * Dot(u, v)
        == u.x * u.x * v.x * v.x + 2.0 * u.x * v.x * u.y * v.y + u.y * u.y * v.y * v.y;
    assert Cross(u, v) * Cross(u, v)
        == u.x * u.x * v.y * v.y - 2.0 * u.x * v.y * u.y * v.x + u.y * u.y * v.x * v.x;
  }

  /** The edge normal TripleProduct(f, e, e) is perpendicular to the edge e. */
  lemma EdgeNormalPerpendicular(f: Vec, e: Vec)
    ensures Dot(TripleProduct(f, e, e), e) == 0.0
  {
    var n := TripleProduct(f, e, e);
    assert n == Vec(Dot(f, e) * e.x - Dot(e, e) * f.x, Dot(f, e) * e.y - Dot(e, e) * f.y);
    calc {
      Dot(n, e);
      (Dot(f, e) * e.x - Dot(e, e) * f.x) * e.x + (Dot(f, e) * e.y - Dot(e, e) * f.y) * e.y;
      Dot(f, e) * (e.x * e.x + e.y * e.y) - Dot(e, e) * (f.x * e.x + f.y * e.y);
      0.0;
    }
  }

  /** Which side of the edge e a point w lies on, as seen by the edge normal
      TripleProduct(f, e, e): the sign is that of (f x e)(e x w). */
  lemma EdgeNormalSide(f: Vec, e: Vec, w: Vec)
    ensures Dot(TripleProduct(f, e, e), w) == Cross(f, e) * Cross(e, w)
  {
    DotCombination(Dot(f, e), e, Dot(e, e), f, w);
    SideVectorIdentity(f, e, w);
  }

  lemma SideVectorIdentity(f: Vec, e: Vec, w: Vec)
    ensures Dot(f, e) * Dot(e, w) - Dot(e, e) * Dot(f, w) == Cross(f, e) * Cross(e, w)
  {
    SideIdentity(f.x, f.y, e.x, e.y, w.x, w.y);
  }

  /** The dot product distributes over a linear combination. */
  lemma DotCombination(k1: real, u: Vec, k2: real, v: Vec, w: Vec)
    ensures Dot(Sub(Scale(k1, u), Scale(k2, v)), w) == k1 * Dot(u, w) - k2 * Dot(v, w)
  {
    CombinationIdentity(k1, u.x, u.y, k2, v.x, v.y, w.x, w.y);
  }

  lemma CombinationIdentity(k1: real, ux: real, uy: real, k2: real, vx: real, vy: real, wx: real, wy: real)
    ensures (k1 * ux - k2 * vx) * wx + (k1 * uy - k2 * vy) * wy == k1 * (ux * wx + uy * wy) - k2 * (vx * wx + vy * wy)
  {
  }

  lemma SideIdentity(fx: real, fy: real, ex: real, ey: real, wx: real, wy: real)
    ensures (fx * ex + fy * ey) * (ex * wx + ey * wy) - (ex * ex + ey * ey) * (fx * wx + fy * wy)
         == (fx * ey - fy * ex) * (ex * wy - ey * wx)
  {
  }

  /** The edge normal TripleProduct(f, e, e) never points towards f: the
      normal of one edge computed from the other edge faces away from it. */
  lemma EdgeNormalFacesAway(f: Vec, e: Vec)
    ensures Dot(TripleProduct(f, e, e), f) <= 0.0
  {
    EdgeNormalSide(f, e, f);
    assert Cross(e, f) == -Cross(f, e);
  }

  /** TripleProduct(e, w, e) is the part of w perpendicular to e, scaled by
      |e|^2: perpendicular to e and never facing away from w. */
  lemma TowardPoint(e: Vec, w: Vec)
    ensures Dot(TripleProduct(e, w, e), e) == 0.0
    ensures Dot(TripleProduct(e, w, e), w) == Cross(e, w) * Cross(e, w)
    ensures Dot(TripleProduct(e, w, e), w) >= 0.0
  {
    var n := TripleProduct(e, w, e);
    assert n == Vec(Dot(e, e) * w.x - Dot(w, e) * e.x, Dot(e, e) * w.y - Dot(w, e) * e.y);
    assert Dot(n, e) == Dot(e, e) * Dot(w, e) - Dot(w, e) * Dot(e, e);
    assert Dot(n, w) == Dot(e, e) * Dot(w, w) - Dot(w, e) * Dot(w, e);
    Lagrange(e, w);
    assert Dot(w, e) == Dot(e, w);
  }

  /** Decomposition of v along u and Left(u), dotted with d:
      |u|^2 (d.v) = (u.v)(d.u) + (u x v)(d.Left(u)). */
  lemma Decompose(u: Vec, v: Vec, d: Vec)
    ensures MagnitudeSquared(u) * Dot(d, v) == Dot(u, v) * Dot(d, u) + Cross(u, v) * Dot(d, Left(u))
  {
    assert MagnitudeSquared(u) * Dot(d, v)
        == (u.x * u.x + u.y * u.y) * (d.x * v.x + d.y * v.y);
    assert Dot(u, v) * Dot(d, u) == (u.x * v.x + u.y * v.y) * (d.x * u.x + d.y * u.y);
    assert Cross(u, v) * Dot(d, Left(u)) == (u.x * v.y - u.y * v.x) * (-d.x * u.y + d.y * u.x);
  }
  lemma DotSub(d: Vec, p: Vec, q: Vec)
    ensures Dot(d, Sub(p, q)) == Dot(d, p) - Dot(d, q)
    ensures Dot(d, Sub(q, p)) == -Dot(d, Sub(p, q))
  {
  }

  lemma DotNeg(d: Vec, v: Vec)
    ensures Dot(d, Neg(v)) == -Dot(d, v)
    ensures Dot(Neg(v), d) == -Dot(d, v)
  {
  }

  /** A product kept as a term of its own, so that sign reasoning about it
      stays linear for the solver. */
  function Mul(a: real, b: real): real { a * b }

  lemma PositiveProduct(a: real, b: real)
    requires (a > 0.0 && b > 0.0) || (a < 0.0 && b < 0.0)
    ensures Mul(a, b) > 0.0
  {
    if a < 0.0 {
      assert Mul(a, b) == Mul(-a, -b);
    }
  }

  /** The sign of a product from the signs of its factors, both ways. */
  lemma ProductSign(a: real, b: real)
    ensures Mul(a, b) > 0.0 <==> (a > 0.0 && b > 0.0) || (a < 0.0 && b < 0.0)
    ensures Mul(a, b) < 0.0 <==> (a > 0.0 && b < 0.0) || (a < 0.0 && b > 0.0)
    ensures Mul(a, b) == 0.0 <==> a == 0.0 || b == 0.0
  {
    if a == 0.0 || b == 0.0 {
    } else if (a > 0.0 && b > 0.0) || (a < 0.0 && b < 0.0) {
      PositiveProduct(a, b);
    } else {
      PositiveProduct(a, -b);
      assert Mul(a, b) == -Mul(a, -b);
    }
  }

  lemma NonNegativeSquare(a: real)
    ensures Mul(a, a) >= 0.0
  {
    if a != 0.0 {
      PositiveProduct(a, a);
    }
  }

  lemma SquaresVanish(x: real, y: real)
    requires Mul(x, x) + Mul(y, y) <= 0.0
    ensures x == 0.0 && y == 0.0
  {
    NonNegativeSquare(x);
    NonNegativeSquare(y);
    if x != 0.0 {
      PositiveProduct(x, x);
    }
    if y != 0.0 {
      PositiveProduct(y, y);
    }
  }

  /** A vector of zero length is the zero vector. */
  lemma ZeroLength(v: Vec)
    requires MagnitudeSquared(v) <= 0.0
    ensures v == Origin
  {
    assert MagnitudeSquared(v) == Mul(v.x, v.x) + Mul(v.y, v.y);
    SquaresVanish(v.x, v.y);
  }

  /** A quarter turn keeps a vector non-zero. */
  lemma LeftNonZero(v: Vec)
    ensures v != Origin ==> Left(v) != Origin
  {
  }

  /** A squared length is never negative, and is positive exactly for a
      non-zero vector. */
  lemma LengthSign(v: Vec)
    ensures MagnitudeSquared(v) >= 0.0
    ensures MagnitudeSquared(v) > 0.0 <==> v != Origin
  {
    assert MagnitudeSquared(v) == Mul(v.x, v.x) + Mul(v.y, v.y);
    NonNegativeSquare(v.x);
    NonNegativeSquare(v.y);
    if MagnitudeSquared(v) <= 0.0 {
      SquaresVanish(v.x, v.y);
    }
  }

  /** A zero-length edge has no area with anything. */
  lemma ShortEdge(u: Vec, v: Vec)
    ensures MagnitudeSquared(u) == 0.0 ==> Cross(u, v) == 0.0
  {
    if MagnitudeSquared(u) == 0.0 {
      ZeroLength(u);
      CrossWithZero(u, v);
    }
  }

  lemma CrossWithZero(u: Vec, v: Vec)
    requires u == Origin
    ensures Cross(u, v) == 0.0
  {
  }

  /** When the part of w perpendicular to e vanishes, w lies along e, so
      the quarter-turned edge Left(e) is perpendicular to w. */
  lemma AlongEdge(e: Vec, w: Vec)
    requires TripleProduct(e, w, e) == Origin
    ensures Dot(Left(e), w) == 0.0
  {
    var n := TripleProduct(e, w, e);
    TowardPoint(e, w);
    var k := Cross(e, w);
    assert Dot(n, w) == 0.0;
    assert Mul(k, k) + Mul(0.0, 0.0) == 0.0;
    SquaresVanish(k, 0.0);
    assert Dot(Left(e), w) == k;
  }
}
