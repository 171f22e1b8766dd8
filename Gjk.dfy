/** The GJK intersection test of GJKCollisionDetector: a simplex of at most
    three points in Minkowski-difference space grows by one support point
    per step and is pruned back to an edge until it encloses the origin or a
    support point fails to pass the origin. */
module GjkCollisionDetector {
  import opened Vectors

  /** The outcome of a search. `Undecided` is what a run cut short by its
      fuel reports: the source would still be looping. */
  datatype Verdict = Collision | Separated | Undecided

  /** What checkSimplex leaves behind: its result and the (possibly pruned)
      simplex and search direction it writes back through its references. */
  datatype SimplexUpdate = SimplexUpdate(contained: bool, simplex: seq<Vec>, direction: Vec)

  /** What the private detect leaves behind: its verdict and the final
      simplex and search direction. */
  datatype Search = Search(verdict: Verdict, simplex: seq<Vec>, direction: Vec)

  /** The penetration record the EPA solver fills in. */
  datatype Penetration = Penetration(normal: Vec, depth: real)

  /** Points r and s lie strictly on the same side of the line through p and q. */
  ghost predicate StrictlySameSide(p: Vec, q: Vec, r: Vec, s: Vec)
  {
    Mul(Cross(Sub(q, p), Sub(r, p)), Cross(Sub(q, p), Sub(s, p))) > 0.0
  }

  /** Points r and s are not strictly on opposite sides of the line through p and q. */
  ghost predicate NotOppositeSides(p: Vec, q: Vec, r: Vec, s: Vec)
  {
    Mul(Cross(Sub(q, p), Sub(r, p)), Cross(Sub(q, p), Sub(s, p))) >= 0.0
  }

  /** The origin lies inside the triangle a, b, c: strictly inside the two
      edges at a, and not beyond the edge b-c. */
  ghost predicate OriginInTriangle(a: Vec, b: Vec, c: Vec)
  {
    && StrictlySameSide(a, c, b, Origin)
    && StrictlySameSide(a, b, c, Origin)
    && NotOppositeSides(b, c, a, Origin)
  }

  /** calcInitialDirection: the vector from the first shape's world center
      to the second's. */
  function InitialDirection(center1: Vec, transform1: Transform2, center2: Vec, transform2: Transform2): (d: Vec)
    ensures Add(transform1.forward(center1), d) == transform2.forward(center2)
  {
    Sub(transform2.forward(center2), transform1.forward(center1))
  }

  /** The first search direction: a zero direction is replaced by the unit x axis. */
  function StartDirection(direction: Vec): (d: Vec)
    ensures d != Origin
    ensures direction == Origin ==> d == Vec(1.0, 0.0)
    ensures direction != Origin ==> d == direction
  {
    if direction == Origin then Vec(1.0, 0.0) else direction
  }

  /** checkSimplex as a function of the simplex (oldest point first, newest
      last) and the search direction. */
  function Evolve(simplex: seq<Vec>, direction: Vec, eps: real): (u: SimplexUpdate)
    requires |simplex| == 2 || |simplex| == 3
    ensures u.contained ==> |simplex| == 3 && u.simplex == simplex && u.direction == direction
    ensures !u.contained ==> |u.simplex| == 2 && u.simplex[1] == simplex[|simplex| - 1]
    ensures !u.contained ==> u.simplex[0] in simplex[..|simplex| - 1]
  {
    var a := simplex[|simplex| - 1];
    var ao := Neg(a);
    if |simplex| == 3 then
      var b := simplex[1];
      var c := simplex[0];
      var ab := Sub(b, a);
      var ac := Sub(c, a);
      var abPerp := TripleProduct(ac, ab, ab);
      var acPerp := TripleProduct(ab, ac, ac);
      if Dot(acPerp, ao) >= 0.0 then SimplexUpdate(false, [c, a], acPerp)
      else if Dot(abPerp, ao) < 0.0 then SimplexUpdate(true, simplex, direction)
      else SimplexUpdate(false, [b, a], abPerp)
    else
      var b := simplex[0];
      var ab := Sub(b, a);
      var toward := TripleProduct(ab, ao, ab);
      SimplexUpdate(false, simplex, if MagnitudeSquared(toward) <= eps then Left(ab) else toward)
  }

  /** The iterations of the detect loop, with `fuel` bounding how many run. */
  function Loop(support: Vec -> Vec, simplex: seq<Vec>, direction: Vec, eps: real, fuel: nat): (r: Search)
    requires 1 <= |simplex| <= 2
    ensures 1 <= |r.simplex| <= 3
    ensures r.verdict == Collision ==> |r.simplex| == 3
    ensures r.verdict == Undecided ==> fuel == 0 || |r.simplex| == 2
    ensures r.verdict != Undecided ==> r.simplex[|r.simplex| - 1] == support(r.direction)
    ensures r.verdict == Separated <==> r.verdict != Undecided && Dot(support(r.direction), r.direction) <= 0.0
    decreases fuel
  {
    if fuel == 0 then Search(Undecided, simplex, direction)
    else
      var p := support(direction);
      var s := simplex + [p];
      if Dot(p, direction) <= 0.0 then Search(Separated, s, direction)
      else
        var u := Evolve(s, direction, eps);
        if u.contained then Search(Collision, u.simplex, u.direction)
        else Loop(support, u.simplex, u.direction, eps, fuel - 1)
  }

  /** The whole private detect: first support point, then the loop. */
  function Gjk(support: Vec -> Vec, direction: Vec, eps: real, fuel: nat): (r: Search)
    ensures 1 <= |r.simplex| <= 3
    ensures r.verdict == Collision ==> |r.simplex| == 3
    ensures r.verdict != Undecided ==> r.simplex[|r.simplex| - 1] == support(r.direction)
    ensures r.verdict == Separated <==> r.verdict != Undecided && Dot(support(r.direction), r.direction) <= 0.0
  {
    var d := StartDirection(direction);
    var p := support(d);
    if Dot(p, d) <= 0.0 then Search(Separated, [p], d)
    else Loop(support, [p], Neg(d), eps, fuel)
  }

  /** Triangle case of checkSimplex: it reports containment exactly when
      the origin lies strictly on b's side of edge a-c and strictly on c's
      side of edge a-b, and then leaves simplex and direction as they were. */
  lemma {:induction false} TriangleContainment(simplex: seq<Vec>, direction: Vec, eps: real)
    requires |simplex| == 3
    ensures Evolve(simplex, direction, eps).contained <==>
      StrictlySameSide(simplex[2], simplex[0], simplex[1], Origin)
      && StrictlySameSide(simplex[2], simplex[1], simplex[0], Origin)
  {
    var a, b, c := simplex[2], simplex[1], simplex[0];
    var ab, ac, ao := Sub(b, a), Sub(c, a), Neg(a);
    assert Sub(Origin, a) == ao;
    EdgeNormalSide(ab, ac, ao);
    EdgeNormalSide(ac, ab, ao);
    assert Cross(ac, ab) == -Cross(ab, ac);
    assert Dot(TripleProduct(ab, ac, ac), ao) == -Mul(Cross(ac, ab), Cross(ac, ao));
    assert Dot(TripleProduct(ac, ab, ab), ao) == -Mul(Cross(ab, ac), Cross(ab, ao));
  }

  /** Triangle case of checkSimplex without containment: when the origin is
      not strictly on b's side of a-c, b (position 1) is erased and the new
      direction is the normal of a-c facing the origin and away from b;
      otherwise c (position 0) is erased and the direction is the normal of
      a-b facing the origin and away from c. */
  lemma {:induction false} TrianglePruning(simplex: seq<Vec>, direction: Vec, eps: real)
    requires |simplex| == 3
    requires !Evolve(simplex, direction, eps).contained
    ensures var u := Evolve(simplex, direction, eps);
      var a, b, c := simplex[2], simplex[1], simplex[0];
      && (!StrictlySameSide(a, c, b, Origin) ==>
            u.simplex == [c, a] && Dot(u.direction, Sub(c, a)) == 0.0
            && Dot(u.direction, Neg(a)) >= 0.0 && Dot(u.direction, Sub(b, a)) <= 0.0)
      && (StrictlySameSide(a, c, b, Origin) ==>
            u.simplex == [b, a] && Dot(u.direction, Sub(b, a)) == 0.0
            && Dot(u.direction, Neg(a)) >= 0.0 && Dot(u.direction, Sub(c, a)) <= 0.0)
  {
    var a, b, c := simplex[2], simplex[1], simplex[0];
    var ab, ac, ao := Sub(b, a), Sub(c, a), Neg(a);
    assert Sub(Origin, a) == ao;
    EdgeNormalSide(ab, ac, ao);
    EdgeNormalSide(ac, ab, ao);
    assert Cross(ac, ab) == -Cross(ab, ac);
    EdgeNormalPerpendicular(ab, ac);
    EdgeNormalPerpendicular(ac, ab);
    EdgeNormalFacesAway(ab, ac);
    EdgeNormalFacesAway(ac, ab);
  }

  /** Segment case of checkSimplex: never reports containment and keeps both
      points; the new direction is perpendicular to the segment, faces the
      origin unless the fallback fired, and the fallback Left(ab) is taken
      exactly when |tripleProduct(ab, ao, ab)|^2 <= eps. With eps = 0 the
      direction always faces the origin and is non-zero for distinct points. */
  lemma {:induction false} SegmentDirection(simplex: seq<Vec>, direction: Vec, eps: real)
    requires |simplex| == 2
    ensures var u := Evolve(simplex, direction, eps);
      var a, b := simplex[1], simplex[0];
      var toward := TripleProduct(Sub(b, a), Neg(a), Sub(b, a));
      && !u.contained && u.simplex == simplex
      && Dot(u.direction, Sub(b, a)) == 0.0
      && (MagnitudeSquared(toward) <= eps ==> u.direction == Left(Sub(b, a)))
      && (MagnitudeSquared(toward) > eps ==> u.direction == toward && Dot(u.direction, Neg(a)) >= 0.0)
      && (eps == 0.0 ==> Dot(u.direction, Neg(a)) >= 0.0 && (a != b ==> u.direction != Origin))
  {
    var a, b := simplex[1], simplex[0];
    TowardPoint(Sub(b, a), Neg(a));
    if eps == 0.0 {
      ExactSegmentDirection(a, b);
    }
  }

  /** The segment direction with eps = 0: it faces the origin, and it is
      non-zero when the two points differ. */
  lemma ExactSegmentDirection(a: Vec, b: Vec)
    ensures var ab, ao := Sub(b, a), Neg(a);
      var toward := TripleProduct(ab, ao, ab);
      var dir := if MagnitudeSquared(toward) <= 0.0 then Left(ab) else toward;
      Dot(dir, ao) >= 0.0 && (a != b ==> dir != Origin)
  {
    var ab, ao := Sub(b, a), Neg(a);
    var toward := TripleProduct(ab, ao, ab);
    if MagnitudeSquared(toward) <= 0.0 {
      LengthSign(toward);
      FallbackFacesOrigin(ab, ao);
      FallbackNonZero(a, b);
    } else {
      TowardNonZero(toward);
      TowardPoint(ab, ao);
    }
  }

  lemma TowardNonZero(toward: Vec)
    requires MagnitudeSquared(toward) > 0.0
    ensures toward != Origin
  {
    LengthSign(toward);
  }

  /** The fallback Left(ab) is perpendicular to the origin's offset when
      tripleProduct(ab, ao, ab) vanishes. */
  lemma FallbackFacesOrigin(ab: Vec, ao: Vec)
    requires TripleProduct(ab, ao, ab) == Origin
    ensures Dot(Left(ab), ao) == 0.0
  {
    AlongEdge(ab, ao);
  }

  /** The fallback Left(ab) is non-zero when the points differ. */
  lemma FallbackNonZero(a: Vec, b: Vec)
    ensures a != b ==> Left(Sub(b, a)) != Origin
  {
    LeftNonZero(Sub(b, a));
    assert a != b ==> Sub(b, a) != Origin;
  }

  /** The invariant of a two-point simplex between loop iterations: the
      search direction is perpendicular to the segment and, with eps = 0,
      does not face away from the origin. */
  ghost predicate Heading(simplex: seq<Vec>, direction: Vec, eps: real)
  {
    |simplex| == 2 ==>
      && Dot(direction, Sub(simplex[1], simplex[0])) == 0.0
      && (eps == 0.0 ==> Dot(direction, simplex[1]) <= 0.0)
  }

  /** Every pruning step of checkSimplex re-establishes Heading. */
  lemma {:induction false} PruningKeepsHeading(simplex: seq<Vec>, direction: Vec, eps: real)
    requires |simplex| == 2 || |simplex| == 3
    requires !Evolve(simplex, direction, eps).contained
    ensures Heading(Evolve(simplex, direction, eps).simplex, Evolve(simplex, direction, eps).direction, eps)
  {
    var u := Evolve(simplex, direction, eps);
    var a := simplex[|simplex| - 1];
    if |simplex| == 3 {
      TrianglePruning(simplex, direction, eps);
      DotSub(u.direction, u.simplex[0], a);
    } else {
      SegmentDirection(simplex, direction, eps);
      DotSub(u.direction, simplex[0], a);
    }
    DotNeg(u.direction, a);
  }

  /** With m = |u|^2 >= 0, x k = m p and y k = m q where p > 0 and q >= 0,
      x and y do not have opposite signs (x is 0 when m is). */
  lemma SameSign(x: real, y: real, k: real, m: real, p: real, q: real)
    requires m >= 0.0 && p > 0.0 && q >= 0.0
    requires Mul(x, k) == Mul(m, p) && Mul(y, k) == Mul(m, q)
    requires m == 0.0 ==> x == 0.0
    ensures Mul(x, y) >= 0.0
  {
    ProductSign(x, y);
    if m > 0.0 {
      ProductSign(m, p);
      ProductSign(m, q);
      ProductSign(x, k);
      ProductSign(y, k);
    }
  }

  /** The decomposition of v along u when d is perpendicular to u. */
  lemma PerpendicularDecompose(u: Vec, v: Vec, d: Vec)
    requires Dot(d, u) == 0.0
    ensures Mul(Cross(u, v), Dot(d, Left(u))) == Mul(MagnitudeSquared(u), Dot(d, v))
  {
    Decompose(u, v, d);
  }

  /** The third edge: when b-c is perpendicular to d, b does not pass the
      origin along d, and a does, then a and the origin are not on opposite
      sides of the line b-c. */
  lemma {:induction false} ThirdEdge(a: Vec, b: Vec, c: Vec, d: Vec)
    requires Dot(d, Sub(b, c)) == 0.0
    requires Dot(d, b) <= 0.0
    requires Dot(a, d) > 0.0
    ensures NotOppositeSides(b, c, a, Origin)
  {
    var u, v1, v2 := Sub(c, b), Sub(a, b), Sub(Origin, b);
    ThirdEdgeHeights(a, b, c, d);
    PerpendicularDecompose(u, v1, d);
    PerpendicularDecompose(u, v2, d);
    LengthSign(u);
    ShortEdge(u, v1);
    SameSign(Cross(u, v1), Cross(u, v2), Dot(d, Left(u)), MagnitudeSquared(u), Dot(d, v1), Dot(d, v2));
  }

  /** The heights along d used by ThirdEdge. */
  lemma ThirdEdgeHeights(a: Vec, b: Vec, c: Vec, d: Vec)
    requires Dot(d, Sub(b, c)) == 0.0
    requires Dot(d, b) <= 0.0
    requires Dot(a, d) > 0.0
    ensures Dot(d, Sub(c, b)) == 0.0
    ensures Dot(d, Sub(a, b)) > 0.0
    ensures Dot(d, Sub(Origin, b)) >= 0.0
  {
    DotSub(d, b, c);
    DotSub(d, a, b);
    DotSub(d, Origin, b);
    assert Dot(d, a) == Dot(a, d);
    assert Dot(d, Origin) == 0.0;
  }

  /** Soundness of a collision reported by the loop: the final triangle has
      the origin strictly inside its two edges at the newest point, and with
      eps = 0 the origin is inside the whole triangle. */
  lemma {:induction false} LoopCollisionSound(support: Vec -> Vec, simplex: seq<Vec>, direction: Vec, eps: real, fuel: nat)
    requires 1 <= |simplex| <= 2
    requires Heading(simplex, direction, eps)
    ensures var r := Loop(support, simplex, direction, eps, fuel);
      r.verdict == Collision ==>
        && StrictlySameSide(r.simplex[2], r.simplex[0], r.simplex[1], Origin)
        && StrictlySameSide(r.simplex[2], r.simplex[1], r.simplex[0], Origin)
        && (eps == 0.0 ==> OriginInTriangle(r.simplex[2], r.simplex[1], r.simplex[0]))
    decreases fuel
  {
    if fuel > 0 {
      var p := support(direction);
      var s := simplex + [p];
      if Dot(p, direction) > 0.0 {
        var u := Evolve(s, direction, eps);
        if u.contained {
          TriangleContainment(s, direction, eps);
          if eps == 0.0 {
            ThirdEdge(s[2], s[1], s[0], direction);
          }
        } else {
          PruningKeepsHeading(s, direction, eps);
          LoopCollisionSound(support, u.simplex, u.direction, eps, fuel - 1);
        }
      }
    }
  }

  /** Soundness of a collision reported by detect: the final triangle
      encloses the origin (with eps = 0), and in any case the origin is
      strictly inside the two edges at the newest point. */
  lemma {:induction false} CollisionSound(support: Vec -> Vec, direction: Vec, eps: real, fuel: nat)
    ensures var r := Gjk(support, direction, eps, fuel);
      r.verdict == Collision ==>
        && StrictlySameSide(r.simplex[2], r.simplex[0], r.simplex[1], Origin)
        && StrictlySameSide(r.simplex[2], r.simplex[1], r.simplex[0], Origin)
        && (eps == 0.0 ==> OriginInTriangle(r.simplex[2], r.simplex[1], r.simplex[0]))
  {
    var d := StartDirection(direction);
    var p := support(d);
    if Dot(p, d) > 0.0 {
      LoopCollisionSound(support, [p], Neg(d), eps, fuel);
    }
  }

  /** The invariant of the exact search (eps = 0) between loop iterations:
      the direction is non-zero; a lone point lies strictly behind the
      origin along it; two points are distinct and satisfy Heading. */
  ghost predicate Searching(simplex: seq<Vec>, direction: Vec)
  {
    && direction != Origin
    && (|simplex| == 1 ==> Dot(simplex[0], direction) < 0.0)
    && (|simplex| == 2 ==> simplex[0] != simplex[1])
    && Heading(simplex, direction, 0.0)
  }

  /** With eps = 0 the search direction never becomes zero: every support
      query is along a non-zero direction, so a Separated verdict, whose
      last point has projection at most zero on the final direction, is a
      genuine separating direction. */
  lemma {:induction false} GjkDirectionNonZero(support: Vec -> Vec, direction: Vec, fuel: nat)
    ensures Gjk(support, direction, 0.0, fuel).direction != Origin
  {
    var d := StartDirection(direction);
    var p := support(d);
    if Dot(p, d) > 0.0 {
      DotNeg(p, d);
      LoopDirectionNonZero(support, [p], Neg(d), fuel);
    }
  }

  /** The loop keeps Searching, so its final direction is non-zero. */
  lemma {:induction false} LoopDirectionNonZero(support: Vec -> Vec, simplex: seq<Vec>, direction: Vec, fuel: nat)
    requires 1 <= |simplex| <= 2
    requires Searching(simplex, direction)
    ensures Loop(support, simplex, direction, 0.0, fuel).direction != Origin
    decreases fuel
  {
    if fuel > 0 {
      var p := support(direction);
      var s := simplex + [p];
      if Dot(p, direction) > 0.0 {
        var u := Evolve(s, direction, 0.0);
        if |simplex| == 1 {
          SegmentStepSearching(s, direction);
        } else if !u.contained {
          TriangleStepSearching(s, direction);
        }
        if !u.contained {
          LoopDirectionNonZero(support, u.simplex, u.direction, fuel - 1);
        }
      }
    }
  }

  /** A segment step from a point behind the origin to one past it keeps
      Searching. */
  lemma SegmentStepSearching(s: seq<Vec>, d: Vec)
    requires |s| == 2 && Dot(s[0], d) < 0.0 && Dot(s[1], d) > 0.0
    ensures Searching(Evolve(s, d, 0.0).simplex, Evolve(s, d, 0.0).direction)
  {
    SegmentDirection(s, d, 0.0);
    PruningKeepsHeading(s, d, 0.0);
    assert s[0] != s[1];
  }

  /** A triangle step that does not report containment keeps Searching:
      the new point is off the old edge, so the triangle is not flat and
      both edge normals are non-zero. */
  lemma TriangleStepSearching(s: seq<Vec>, d: Vec)
    requires |s| == 3 && s[0] != s[1]
    requires Dot(d, Sub(s[1], s[0])) == 0.0 && Dot(d, s[1]) <= 0.0
    requires Dot(s[2], d) > 0.0
    requires !Evolve(s, d, 0.0).contained
    ensures Searching(Evolve(s, d, 0.0).simplex, Evolve(s, d, 0.0).direction)
  {
    var a, b, c := s[2], s[1], s[0];
    PruningKeepsHeading(s, d, 0.0);
    DistinctEdge(b, c);
    DotSub(d, b, c);
    NonDegenerate(a, b, c, d);
    var ab, ac := Sub(b, a), Sub(c, a);
    NormalNonZero(ab, ac);
    assert Cross(ac, ab) == -Cross(ab, ac);
    NormalNonZero(ac, ab);
    assert Dot(d, c) <= 0.0;
    assert Dot(d, a) > 0.0 by { assert Dot(d, a) == Dot(a, d); }
  }

  lemma DistinctEdge(b: Vec, c: Vec)
    requires b != c
    ensures Sub(c, b) != Origin
  {
    assert c == Add(b, Sub(c, b));
  }

  /** A point a past the origin along d, with the edge b-c perpendicular to
      d and behind the origin, spans a triangle of non-zero area with it. */
  lemma NonDegenerate(a: Vec, b: Vec, c: Vec, d: Vec)
    requires Sub(c, b) != Origin
    requires Dot(d, Sub(b, c)) == 0.0 && Dot(d, b) <= 0.0 && Dot(a, d) > 0.0
    ensures Cross(Sub(b, a), Sub(c, a)) != 0.0
  {
    var u, v := Sub(c, b), Sub(a, b);
    ThirdEdgeHeights(a, b, c, d);
    PerpendicularDecompose(u, v, d);
    LengthSign(u);
    ProductSign(MagnitudeSquared(u), Dot(d, v));
    ProductSign(Cross(u, v), Dot(d, Left(u)));
    CyclicCross(a, b, c);
  }

  /** Twice the signed area of a triangle does not depend on the corner it
      is measured from. */
  lemma CyclicCross(a: Vec, b: Vec, c: Vec)
    ensures Cross(Sub(b, a), Sub(c, a)) == Cross(Sub(c, b), Sub(a, b))
  {
    CyclicIdentity(a.x, a.y, b.x, b.y, c.x, c.y);
  }

  lemma CyclicIdentity(x1: real, y1: real, x2: real, y2: real, x3: real, y3: real)
    ensures (x2 - x1) * (y3 - y1) - (y2 - y1) * (x3 - x1) == (x3 - x2) * (y1 - y2) - (y3 - y2) * (x1 - x2)
  {
  }

  /** The edge normal TripleProduct(f, e, e) is non-zero when f and e are
      not parallel: its dot product with f is -(f x e)^2. */
  lemma NormalNonZero(f: Vec, e: Vec)
    requires Cross(f, e) != 0.0
    ensures TripleProduct(f, e, e) != Origin
  {
    var k := Cross(f, e);
    EdgeNormalSide(f, e, f);
    assert Cross(e, f) == -k;
    assert Dot(TripleProduct(f, e, e), f) == Mul(k, -k);
    ProductSign(k, -k);
  }

  /** After the first support point passes the origin, the next query is
      along exactly the negated start direction: if that point fails, the
      search ends there with the two-point simplex. */
  lemma {:induction false} SecondQueryOpposite(support: Vec -> Vec, direction: Vec, eps: real, fuel: nat)
    requires fuel > 0
    ensures var d := StartDirection(direction);
      var p, q := support(d), support(Neg(d));
      Dot(p, d) > 0.0 && Dot(q, Neg(d)) <= 0.0 ==>
        Gjk(support, direction, eps, fuel) == Search(Separated, [p, q], Neg(d))
  {
  }

  /** checkSimplex: true iff the triangle encloses the origin; otherwise one
      point is erased in place and the search direction rewritten. */
  method CheckSimplex(simplex: seq<Vec>, direction: Vec, eps: real)
    returns (contained: bool, simplex': seq<Vec>, direction': Vec)
    requires |simplex| == 2 || |simplex| == 3
    ensures SimplexUpdate(contained, simplex', direction') == Evolve(simplex, direction, eps)
  {
    var a := simplex[|simplex| - 1];
    var ao := Neg(a);
    contained, simplex', direction' := false, simplex, direction;
    if |simplex| == 3 {
      var b := simplex[1];
      var c := simplex[0];
      var ab := Sub(b, a);
      var ac := Sub(c, a);
      var abPerp := TripleProduct(ac, ab, ab);
      var acPerp := TripleProduct(ab, ac, ac);
      var acLocation := Dot(acPerp, ao);
      if acLocation >= 0.0 {
        simplex' := simplex[..1] + simplex[2..];
        direction' := acPerp;
      } else {
        var abLocation := Dot(abPerp, ao);
        if abLocation < 0.0 {
          contained := true;
          return;
        }
        simplex' := simplex[1..];
        direction' := abPerp;
      }
    } else {
      var b := simplex[0];
      var ab := Sub(b, a);
      direction' := TripleProduct(ab, ao, ab);
      if MagnitudeSquared(direction') <= eps {
        direction' := Left(ab);
      }
    }
  }

  /** The private detect: grows the simplex from empty, one support point
      per step, until a point fails to pass the origin or checkSimplex
      reports containment; at most `fuel` loop iterations run. */
  method DetectSimplex(support: Vec -> Vec, direction0: Vec, eps: real, fuel: nat)
    returns (verdict: Verdict, simplex: seq<Vec>, direction: Vec)
    ensures Search(verdict, simplex, direction) == Gjk(support, direction0, eps, fuel)
  {
    direction := direction0;
    if direction == Origin {
      direction := Vec(1.0, 0.0);
    }
    simplex := [support(direction)];
    if Dot(simplex[0], direction) <= 0.0 {
      verdict := Separated;
      return;
    }
    direction := Neg(direction);
    var remaining := fuel;
    while remaining > 0
      invariant 1 <= |simplex| <= 2
      invariant Gjk(support, direction0, eps, fuel) == Loop(support, simplex, direction, eps, remaining)
    {
      simplex := simplex + [support(direction)];
      var lastPoint := simplex[|simplex| - 1];
      if Dot(lastPoint, direction) <= 0.0 {
        verdict := Separated;
        return;
      }
      var contained;
      contained, simplex, direction := CheckSimplex(simplex, direction, eps);
      if contained {
        verdict := Collision;
        return;
      }
      remaining := remaining - 1;
    }
    verdict := Undecided;
  }

  /** The public detect: the Minkowski sum's support mapping is `support`,
      and the shapes' local centers and transforms seed the search. */
  method Detect(center1: Vec, transform1: Transform2, center2: Vec, transform2: Transform2,
                support: Vec -> Vec, eps: real, fuel: nat)
    returns (verdict: Verdict)
    ensures verdict == Gjk(support, InitialDirection(center1, transform1, center2, transform2), eps, fuel).verdict
  {
    var direction := InitialDirection(center1, transform1, center2, transform2);
    var simplex;
    verdict, simplex, direction := DetectSimplex(support, direction, eps, fuel);
  }

  /** The public detect with a penetration out-parameter: the same verdict
      as Detect; the solver runs on the final simplex only on a collision,
      and otherwise the penetration is left as it was. */
  method DetectPenetration(center1: Vec, transform1: Transform2, center2: Vec, transform2: Transform2,
                           support: Vec -> Vec, eps: real, fuel: nat,
                           solve: seq<Vec> -> Penetration, penetration: Penetration)
    returns (verdict: Verdict, penetration': Penetration)
    ensures verdict == Gjk(support, InitialDirection(center1, transform1, center2, transform2), eps, fuel).verdict
    ensures verdict == Collision ==>
      penetration' == solve(Gjk(support, InitialDirection(center1, transform1, center2, transform2), eps, fuel).simplex)
    ensures verdict != Collision ==> penetration' == penetration
  {
    var direction := InitialDirection(center1, transform1, center2, transform2);
    var simplex;
    verdict, simplex, direction := DetectSimplex(support, direction, eps, fuel);
    penetration' := penetration;
    if verdict == Collision {
      penetration' := solve(simplex);
    }
  }
}
