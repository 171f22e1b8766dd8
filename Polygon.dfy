/** The convex polygon shape: its support function (farthest vertex along a
    direction), its validity check, its area-weighted center and its
    factory functions. A polygon is never changed after construction, so it
    is a value here. */
module PolygonGeometry {
  import opened Vectors

  /** The polygon kinds of ConvexType. */
  datatype ConvexType = PolygonType | TriangleType | RectangleType

  /** A polygon: its kind, its vertices in local coordinates, and its
      center. */
  datatype Polygon = Polygon(kind: ConvexType, vertices: seq<Vec>, center: Vec)

  // ---------------------------------------------------------------------
  // getFarthestPoint
  // ---------------------------------------------------------------------

  /** The index of the vertex farthest along n: no vertex lies farther, and
      every vertex before it lies strictly less far (ties go to the lowest
      index). */
  function FarthestIndex(vs: seq<Vec>, n: Vec): (i: nat)
    requires |vs| > 0
    ensures i < |vs|
    ensures forall j :: 0 <= j < |vs| ==> Dot(n, vs[j]) <= Dot(n, vs[i])
    ensures forall j :: 0 <= j < i ==> Dot(n, vs[j]) < Dot(n, vs[i])
  {
    if |vs| == 1 then 0
    else
      var k := FarthestIndex(vs[..|vs| - 1], n);
      if Dot(n, vs[|vs| - 1]) > Dot(n, vs[k]) then |vs| - 1 else k
  }

  /** The two properties of FarthestIndex pin it down: any index that is a
      maximum and beats every earlier vertex strictly is FarthestIndex. */
  lemma FarthestIndexUnique(vs: seq<Vec>, n: Vec, i: nat)
    requires i < |vs|
    requires forall j :: 0 <= j < |vs| ==> Dot(n, vs[j]) <= Dot(n, vs[i])
    requires forall j :: 0 <= j < i ==> Dot(n, vs[j]) < Dot(n, vs[i])
    ensures FarthestIndex(vs, n) == i
  {
    var k := FarthestIndex(vs, n);
    assert Dot(n, vs[k]) <= Dot(n, vs[i]) <= Dot(n, vs[k]);
  }

  /** getFarthestPoint: the vertex farthest along the direction turned into
      the local frame, carried back into the world. */
  method GetFarthestPoint(p: Polygon, direction: Vec, transform: Transform2) returns (point: Vec)
    requires |p.vertices| > 0
    ensures point == transform.forward(p.vertices[FarthestIndex(p.vertices, transform.inverseRotate(direction))])
  {
    var vs := p.vertices;
    var localn := transform.inverseRotate(direction);
    var best := 0;
    point := vs[0];
    var max := Dot(localn, vs[0]);
    var i := 1;
    while i < |vs|
      invariant 1 <= i <= |vs|
      invariant best == FarthestIndex(vs[..i], localn)
      invariant point == vs[best] && max == Dot(localn, point)
    {
      assert vs[..i + 1][..i] == vs[..i];
      var v := vs[i];
      var projection := Dot(localn, v);
      if projection > max {
        point := v;
        max := projection;
        best := i;
      }
      i := i + 1;
    }
    assert vs[..i] == vs;
    point := transform.forward(point);
  }

  // ---------------------------------------------------------------------
  // Turns of a closed vertex chain
  // ---------------------------------------------------------------------

  /** The cyclic predecessor and successor of index i among n vertices. */
  function Prev(n: nat, i: nat): nat
    requires i < n
  {
    if i == 0 then n - 1 else i - 1
  }

  function Next(n: nat, i: nat): nat
    requires i < n
  {
    if i + 1 == n then 0 else i + 1
  }

  /** The turn at vertex i: the cross product of the incoming edge with the
      outgoing edge; positive for a left (counter-clockwise) turn. */
  function Turn(vs: seq<Vec>, i: nat): real
    requires i < |vs|
  {
    Cross(Sub(vs[i], vs[Prev(|vs|, i)]), Sub(vs[Next(|vs|, i)], vs[i]))
  }

  /** The sum of the turns at vertices 0 .. k-1. */
  function TurnSum(vs: seq<Vec>, k: nat): real
    requires k <= |vs|
  {
    if k == 0 then 0.0 else TurnSum(vs, k - 1) + Turn(vs, k - 1)
  }

  /** No vertex coincides with its cyclic successor. */
  ghost predicate NoCoincident(vs: seq<Vec>)
  {
    forall i :: 0 <= i < |vs| ==> vs[i] != vs[Next(|vs|, i)]
  }

  /** A turn that counts for the convexity test: larger than eps in size. */
  ghost predicate Significant(vs: seq<Vec>, i: nat, eps: real)
    requires i < |vs|
  {
    Abs(Turn(vs, i)) > eps
  }

  // ---------------------------------------------------------------------
  // valid() as written
  // ---------------------------------------------------------------------

  /** What valid() accepts as written: at least three vertices, no vertex
      equal to its successor, every significant turn after the first
      agreeing in sign with the turn just before it whenever that turn is
      not exactly collinear, and a non-negative total turn. The sign it
      compares against is that of the immediately preceding turn, even
      when that turn was not significant. */
  ghost predicate ValidAsWritten(vs: seq<Vec>, eps: real)
  {
    && |vs| >= 3
    && NoCoincident(vs)
    && (forall i :: 0 < i < |vs| ==> AgreesWithPrevious(vs, i, eps))
    && TurnSum(vs, |vs|) >= 0.0
  }

  /** The test valid() applies at vertex i > 0: a significant turn must
      have the sign of the turn just before it, unless that one is exactly
      collinear. */
  ghost predicate AgreesWithPrevious(vs: seq<Vec>, i: nat, eps: real)
    requires 0 < i < |vs|
  {
    Significant(vs, i, eps) && Sign(Turn(vs, i - 1)) != 0 ==> Sign(Turn(vs, i)) == Sign(Turn(vs, i - 1))
  }

  /** valid() exactly as the loop is written: `sign` is overwritten with
      every turn's sign, significant or not. */
  method ValidScanAsWritten(vs: seq<Vec>, eps: real) returns (ok: bool)
    ensures ok == ValidAsWritten(vs, eps)
  {
    var size := |vs|;
    if size < 3 {
      return false;
    }
    var area := 0.0;
    var sign := 0;
    var i := 0;
    while i < size
      invariant 0 <= i <= size
      invariant area == TurnSum(vs, i)
      invariant sign == if i == 0 then 0 else Sign(Turn(vs, i - 1))
      invariant forall j :: 0 <= j < i ==> vs[j] != vs[Next(size, j)]
      invariant forall j :: 0 < j < i ==> AgreesWithPrevious(vs, j, eps)
    {
      var p0 := if i - 1 < 0 then vs[size - 1] else vs[i - 1];
      var p1 := vs[i];
      var p2 := if i + 1 == size then vs[0] else vs[i + 1];
      if p1 == p2 {
        assert vs[i] == vs[Next(size, i)];
        return false;
      }
      var cross := Cross(Sub(p1, p0), Sub(p2, p1));
      assert cross == Turn(vs, i);
      var tsign := Sign(cross);
      area := area + cross;
      if Abs(cross) > eps {
        if sign != 0 && tsign != sign {
          assert !AgreesWithPrevious(vs, i, eps);
          return false;
        }
      }
      sign := tsign;
      i := i + 1;
    }
    return area >= 0.0;
  }

  // ---------------------------------------------------------------------
  // valid() corrected
  // ---------------------------------------------------------------------

  /** A locally convex, counter-clockwise polygon: at least three
      vertices, no vertex equal to its successor, all significant turns of
      one sign, and a non-negative total turn. A polygon that winds around
      more than once (a pentagram) also qualifies. */
  ghost predicate IsConvexPolygon(vs: seq<Vec>, eps: real)
  {
    && |vs| >= 3
    && NoCoincident(vs)
    && (forall i, j :: 0 <= i < |vs| && 0 <= j < |vs| && Significant(vs, i, eps) && Significant(vs, j, eps) ==>
          Sign(Turn(vs, i)) == Sign(Turn(vs, j)))
    && TurnSum(vs, |vs|) >= 0.0
  }

  /** valid() with the sign bookkeeping corrected: `sign` remembers the last
      significant turn, so a collinear vertex no longer erases it. */
  method Valid(vs: seq<Vec>, eps: real) returns (ok: bool)
    requires eps >= 0.0
    ensures ok == IsConvexPolygon(vs, eps)
  {
    var size := |vs|;
    if size < 3 {
      return false;
    }
    var area := 0.0;
    var sign := 0;
    ghost var agreed := 0;
    var i := 0;
    while i < size
      invariant 0 <= i <= size
      invariant area == TurnSum(vs, i)
      invariant forall j :: 0 <= j < i ==> vs[j] != vs[Next(size, j)]
      invariant sign == 0 ==> forall j :: 0 <= j < i ==> !Significant(vs, j, eps)
      invariant sign != 0 ==> 0 <= agreed < i && Significant(vs, agreed, eps) && Sign(Turn(vs, agreed)) == sign
      invariant sign != 0 ==> forall j :: 0 <= j < i && Significant(vs, j, eps) ==> Sign(Turn(vs, j)) == sign
    {
      var p0 := if i - 1 < 0 then vs[size - 1] else vs[i - 1];
      var p1 := vs[i];
      var p2 := if i + 1 == size then vs[0] else vs[i + 1];
      if p1 == p2 {
        assert vs[i] == vs[Next(size, i)];
        return false;
      }
      var cross := Cross(Sub(p1, p0), Sub(p2, p1));
      assert cross == Turn(vs, i);
      var tsign := Sign(cross);
      area := area + cross;
      if Abs(cross) > eps {
        if sign != 0 && tsign != sign {
          assert Significant(vs, i, eps) && Significant(vs, agreed, eps);
          return false;
        }
        sign, agreed := tsign, i;
      }
      i := i + 1;
    }
    return area >= 0.0;
  }

  /** With eps = 0 the corrected check is at least as strict as the check
      as written: a nonzero preceding turn is then significant too. */
  lemma ExactConvexIsValidAsWritten(vs: seq<Vec>)
    requires IsConvexPolygon(vs, 0.0)
    ensures ValidAsWritten(vs, 0.0)
  {
    forall i | 0 < i < |vs|
      ensures AgreesWithPrevious(vs, i, 0.0)
    {
      if Sign(Turn(vs, i - 1)) != 0 {
        assert Significant(vs, i - 1, 0.0);
      }
    }
  }

  /** A polygon the check as written accepts although it is not convex,
      placed anywhere (shifted by t): the reflex vertex t + (4, 0) sits
      between two collinear vertices, whose zero turns reset the
      remembered sign. */
  function ReflexExample(t: Vec): seq<Vec>
  {
    [Add(t, Vec(0.0, 0.0)), Add(t, Vec(2.0, 0.0)), Add(t, Vec(4.0, 0.0)), Add(t, Vec(5.0, -1.0)),
     Add(t, Vec(6.0, -2.0)), Add(t, Vec(6.0, 3.0)), Add(t, Vec(0.0, 3.0))]
  }

  /** valid() as written accepts ReflexExample for every eps below 2 (in
      particular float epsilon), although its turn at t + (4, 0) is
      clockwise; the corrected check rejects it. */
  lemma ValidAsWrittenAcceptsReflex(t: Vec, eps: real)
    requires 0.0 <= eps < 2.0
    ensures ValidAsWritten(ReflexExample(t), eps)
    ensures Turn(ReflexExample(t), 2) < 0.0
    ensures !IsConvexPolygon(ReflexExample(t), eps)
  {
    var vs := ReflexExample(t);
    assert Turn(vs, 0) == 6.0;
    assert Turn(vs, 1) == 0.0;
    assert Turn(vs, 2) == -2.0;
    assert Turn(vs, 3) == 0.0;
    assert Turn(vs, 4) == 5.0;
    assert Turn(vs, 5) == 30.0;
    assert Turn(vs, 6) == 18.0;
    ReflexTurnsAcceptedAsWritten(vs, eps);
  }

  /** Any seven vertices without coincident neighbours whose turns are
      those of ReflexExample pass the check as written and fail the
      corrected one. */
  lemma ReflexTurnsAcceptedAsWritten(vs: seq<Vec>, eps: real)
    requires 0.0 <= eps < 2.0
    requires |vs| == 7 && NoCoincident(vs)
    requires Turn(vs, 0) == 6.0 && Turn(vs, 1) == 0.0
    requires Turn(vs, 2) == -2.0 && Turn(vs, 3) == 0.0
    requires Turn(vs, 4) == 5.0 && Turn(vs, 5) == 30.0
    requires Turn(vs, 6) == 18.0
    ensures ValidAsWritten(vs, eps)
    ensures !IsConvexPolygon(vs, eps)
  {
    SevenTurnSum(vs, 6.0, 0.0, -2.0, 0.0, 5.0, 30.0, 18.0);
    forall i | 0 < i < |vs|
      ensures AgreesWithPrevious(vs, i, eps)
    {
    }
    OppositeTurnsNotConvex(vs, eps, 0, 2);
  }

  lemma SevenTurnSum(vs: seq<Vec>, t0: real, t1: real, t2: real, t3: real, t4: real, t5: real, t6: real)
    requires |vs| == 7
    requires Turn(vs, 0) == t0 && Turn(vs, 1) == t1 && Turn(vs, 2) == t2 && Turn(vs, 3) == t3
    requires Turn(vs, 4) == t4 && Turn(vs, 5) == t5 && Turn(vs, 6) == t6
    ensures TurnSum(vs, 7) == t0 + t1 + t2 + t3 + t4 + t5 + t6
  {
    assert TurnSum(vs, 1) == t0;
    assert TurnSum(vs, 2) == t0 + t1;
    assert TurnSum(vs, 3) == t0 + t1 + t2;
    assert TurnSum(vs, 4) == t0 + t1 + t2 + t3;
    assert TurnSum(vs, 5) == t0 + t1 + t2 + t3 + t4;
    assert TurnSum(vs, 6) == t0 + t1 + t2 + t3 + t4 + t5;
  }

  /** Two significant turns of opposite sign make a polygon non-convex. */
  lemma OppositeTurnsNotConvex(vs: seq<Vec>, eps: real, i: nat, j: nat)
    requires i < |vs| && j < |vs|
    requires Abs(Turn(vs, i)) > eps && Abs(Turn(vs, j)) > eps
    requires Sign(Turn(vs, i)) != Sign(Turn(vs, j))
    ensures !IsConvexPolygon(vs, eps)
  {
    assert Significant(vs, i, eps) && Significant(vs, j, eps);
  }

  /** A sum of turns that are all at most zero, one of them negative, is
      negative. */
  lemma {:induction false} NonPositiveTurnSum(vs: seq<Vec>, k: nat, m: nat)
    requires k <= |vs| && m < k
    requires forall i :: 0 <= i < k ==> Turn(vs, i) <= 0.0
    requires Turn(vs, m) < 0.0
    ensures TurnSum(vs, k) < 0.0
  {
    if m < k - 1 {
      NonPositiveTurnSum(vs, k - 1, m);
    } else if k > 1 {
      NonPositiveTurnSumAtMostZero(vs, k - 1);
    }
  }

  lemma {:induction false} NonPositiveTurnSumAtMostZero(vs: seq<Vec>, k: nat)
    requires k <= |vs|
    requires forall i :: 0 <= i < k ==> Turn(vs, i) <= 0.0
    ensures TurnSum(vs, k) <= 0.0
  {
    if k > 0 {
      NonPositiveTurnSumAtMostZero(vs, k - 1);
    }
  }

  /** With eps = 0 a polygon accepted by the corrected check turns left or
      goes straight at every vertex. */
  lemma ExactConvexTurnsLeft(vs: seq<Vec>)
    requires IsConvexPolygon(vs, 0.0)
    ensures forall i :: 0 <= i < |vs| ==> Turn(vs, i) >= 0.0
  {
    if m :| 0 <= m < |vs| && Turn(vs, m) < 0.0 {
      assert Significant(vs, m, 0.0);
      forall i | 0 <= i < |vs|
        ensures Turn(vs, i) <= 0.0
      {
        if Turn(vs, i) > 0.0 {
          assert Significant(vs, i, 0.0);
        }
      }
      NonPositiveTurnSum(vs, |vs|, m);
    }
  }

  // ---------------------------------------------------------------------
  // calcAreaWeightedCenter
  // ---------------------------------------------------------------------

  const INV_3: real := 1.0 / 3.0

  /** The sum of points 0 .. k-1. */
  function VertexSum(points: seq<Vec>, k: nat): Vec
    requires k <= |points|
  {
    if k == 0 then Origin else Add(VertexSum(points, k - 1), points[k - 1])
  }

  /** The average of the points. */
  function Average(points: seq<Vec>): Vec
    requires |points| > 0
  {
    Scale(1.0 / (|points| as real), VertexSum(points, |points|))
  }

  /** The signed area of the triangle spanned by ac and edge i. */
  function EdgeArea(points: seq<Vec>, ac: Vec, i: nat): real
    requires i < |points|
  {
    0.5 * Cross(Sub(points[i], ac), Sub(points[Next(|points|, i)], ac))
  }

  /** The first moment of that triangle about ac, before dividing by the
      total area. */
  function EdgeMoment(points: seq<Vec>, ac: Vec, i: nat): Vec
    requires i < |points|
  {
    Scale(EdgeArea(points, ac, i), Scale(INV_3, Add(Sub(points[i], ac), Sub(points[Next(|points|, i)], ac))))
  }

  function AreaSum(points: seq<Vec>, ac: Vec, k: nat): real
    requires k <= |points|
  {
    if k == 0 then 0.0 else AreaSum(points, ac, k - 1) + EdgeArea(points, ac, k - 1)
  }

  function MomentSum(points: seq<Vec>, ac: Vec, k: nat): Vec
    requires k <= |points|
  {
    if k == 0 then Origin else Add(MomentSum(points, ac, k - 1), EdgeMoment(points, ac, k - 1))
  }

  /** The area-weighted center of a closed polygon: a single point is its
      own center; a polygon whose signed area is at most eps in size falls
      back to its first point; otherwise the triangle fan about the average
      point gives the centroid. */
  function AreaWeightedCenter(points: seq<Vec>, eps: real): (c: Vec)
    requires |points| > 0 && eps >= 0.0
    ensures |points| == 1 ==> c == points[0]
  {
    if |points| == 1 then points[0]
    else
      var ac := Average(points);
      var area := AreaSum(points, ac, |points|);
      if Abs(area) <= eps then points[0]
      else Add(Scale(1.0 / area, MomentSum(points, ac, |points|)), ac)
  }

  /** calcAreaWeightedCenter: the average point, then the area and moment
      sums over the triangle fan about it. */
  method CalcAreaWeightedCenter(points: seq<Vec>, eps: real) returns (c: Vec)
    requires |points| > 0 && eps >= 0.0
    ensures c == AreaWeightedCenter(points, eps)
  {
    var size := |points|;
    if size == 1 {
      return points[0];
    }
    var ac := Origin;
    var i := 0;
    while i < size
      invariant 0 <= i <= size
      invariant ac == VertexSum(points, i)
    {
      ac := Add(ac, points[i]);
      i := i + 1;
    }
    ac := Scale(1.0 / (size as real), ac);
    var center := Origin;
    var area := 0.0;
    i := 0;
    while i < size
      invariant 0 <= i <= size
      invariant area == AreaSum(points, ac, i)
      invariant center == MomentSum(points, ac, i)
    {
      var p1 := points[i];
      var p2 := if i + 1 < size then points[i + 1] else points[0];
      p1 := Sub(p1, ac);
      p2 := Sub(p2, ac);
      assert p2 == Sub(points[Next(size, i)], ac);
      var d := Cross(p1, p2);
      var triangleArea := 0.5 * d;
      area := area + triangleArea;
      center := Add(center, Scale(triangleArea, Scale(INV_3, Add(p1, p2))));
      i := i + 1;
    }
    if Abs(area) <= eps {
      return points[0];
    }
    center := Scale(1.0 / area, center);
    c := Add(center, ac);
  }

  /** The center is carried along with the polygon: shifting every point by
      t shifts the area-weighted center by t. */
  lemma CenterTranslates(points: seq<Vec>, t: Vec, eps: real)
    requires |points| > 0 && eps >= 0.0
    ensures AreaWeightedCenter(Shifted(points, t), eps) == Add(AreaWeightedCenter(points, eps), t)
  {
    var moved := Shifted(points, t);
    if |points| > 1 {
      var n := |points|;
      var ac := Average(points);
      VertexSumShifts(points, t, n);
      AverageShifts(VertexSum(points, n), t, n);
      assert Average(moved) == Add(ac, t);
      AreaSumShifts(points, ac, t, n);
      MomentSumShifts(points, ac, t, n);
    }
  }

  /** Every point shifted by t. */
  function Shifted(points: seq<Vec>, t: Vec): (r: seq<Vec>)
    ensures |r| == |points|
    ensures forall i :: 0 <= i < |points| ==> r[i] == Add(points[i], t)
  {
    seq(|points|, i requires 0 <= i < |points| => Add(points[i], t))
  }

  lemma {:induction false} VertexSumShifts(points: seq<Vec>, t: Vec, k: nat)
    requires k <= |points|
    ensures VertexSum(Shifted(points, t), k) == Add(VertexSum(points, k), Scale(k as real, t))
  {
    if k > 0 {
      var moved := Shifted(points, t);
      VertexSumShifts(points, t, k - 1);
      var m := (k - 1) as real;
      assert k as real == m + 1.0;
      ScaleStep(m, t);
      assert VertexSum(moved, k) == Add(VertexSum(moved, k - 1), Add(points[k - 1], t));
    }
  }

  lemma ScaleStep(m: real, t: Vec)
    ensures Add(Scale(m, t), t) == Scale(m + 1.0, t)
  {
    assert m * t.x + t.x == (m + 1.0) * t.x;
    assert m * t.y + t.y == (m + 1.0) * t.y;
  }

  lemma AverageShifts(s: Vec, t: Vec, n: nat)
    requires n > 0
    ensures Scale(1.0 / (n as real), Add(s, Scale(n as real, t))) == Add(Scale(1.0 / (n as real), s), t)
  {
    var k := 1.0 / (n as real);
    assert k * (n as real) == 1.0;
    assert k * (s.x + (n as real) * t.x) == k * s.x + (k * (n as real)) * t.x;
    assert k * (s.y + (n as real) * t.y) == k * s.y + (k * (n as real)) * t.y;
  }

  lemma {:induction false} AreaSumShifts(points: seq<Vec>, ac: Vec, t: Vec, k: nat)
    requires k <= |points|
    ensures AreaSum(Shifted(points, t), Add(ac, t), k) == AreaSum(points, ac, k)
  {
    if k > 0 {
      AreaSumShifts(points, ac, t, k - 1);
      EdgeShifts(points, ac, t, k - 1);
    }
  }

  lemma {:induction false} MomentSumShifts(points: seq<Vec>, ac: Vec, t: Vec, k: nat)
    requires k <= |points|
    ensures MomentSum(Shifted(points, t), Add(ac, t), k) == MomentSum(points, ac, k)
  {
    if k > 0 {
      MomentSumShifts(points, ac, t, k - 1);
      EdgeShifts(points, ac, t, k - 1);
    }
  }

  lemma EdgeShifts(points: seq<Vec>, ac: Vec, t: Vec, i: nat)
    requires i < |points|
    ensures EdgeArea(Shifted(points, t), Add(ac, t), i) == EdgeArea(points, ac, i)
    ensures EdgeMoment(Shifted(points, t), Add(ac, t), i) == EdgeMoment(points, ac, i)
  {
    var moved := Shifted(points, t);
    var j := Next(|points|, i);
    assert Sub(moved[i], Add(ac, t)) == Sub(points[i], ac);
    assert Sub(moved[j], Add(ac, t)) == Sub(points[j], ac);
  }

  // ---------------------------------------------------------------------
  // createRectangle
  // ---------------------------------------------------------------------

  /** The corners of a width x height rectangle centred on the origin, in
      counter-clockwise order starting bottom left. */
  function RectangleVertices(width: real, height: real): seq<Vec>
  {
    [Vec(-width * 0.5, -height * 0.5), Vec(width * 0.5, -height * 0.5),
     Vec(width * 0.5, height * 0.5), Vec(-width * 0.5, height * 0.5)]
  }

  /** Every corner of the rectangle turns left by width * height. */
  lemma RectangleTurns(width: real, height: real)
    ensures forall i :: 0 <= i < 4 ==> Turn(RectangleVertices(width, height), i) == width * height
  {
    var vs := RectangleVertices(width, height);
    assert Sub(vs[1], vs[0]) == Vec(width, 0.0);
    assert Sub(vs[2], vs[1]) == Vec(0.0, height);
    assert Sub(vs[3], vs[2]) == Vec(-width, 0.0);
    assert Sub(vs[0], vs[3]) == Vec(0.0, -height);
    assert Turn(vs, 0) == Cross(Vec(0.0, -height), Vec(width, 0.0));
    assert Turn(vs, 1) == Cross(Vec(width, 0.0), Vec(0.0, height));
    assert Turn(vs, 2) == Cross(Vec(0.0, height), Vec(-width, 0.0));
    assert Turn(vs, 3) == Cross(Vec(-width, 0.0), Vec(0.0, -height));
  }

  /** A rectangle with positive sides passes both the corrected check and
      the check as written, for every tolerance eps >= 0. */
  lemma RectangleIsValid(width: real, height: real, eps: real)
    requires width > 0.0 && height > 0.0 && eps >= 0.0
    ensures IsConvexPolygon(RectangleVertices(width, height), eps)
    ensures ValidAsWritten(RectangleVertices(width, height), eps)
  {
    var vs := RectangleVertices(width, height);
    RectangleTurns(width, height);
    var a := width * height;
    PositiveProduct(width, height);
    assert TurnSum(vs, 4) == a + a + a + a by {
      assert TurnSum(vs, 1) == a;
      assert TurnSum(vs, 2) == a + a;
      assert TurnSum(vs, 3) == a + a + a;
    }
    assert forall i :: 0 <= i < 4 ==> Sign(Turn(vs, i)) == 1;
    assert forall i :: 0 <= i < 4 ==> vs[i] != vs[Next(4, i)] by {
      assert vs[0].x != vs[1].x && vs[1].y != vs[2].y;
      assert vs[2].x != vs[3].x && vs[3].y != vs[0].y;
    }
    forall i | 0 < i < 4
      ensures AgreesWithPrevious(vs, i, eps)
    {
    }
  }

  /** The origin that createRectangle stores as the center is the
      rectangle's area-weighted center, whenever its area width * height
      exceeds the tolerance. */
  lemma RectangleCenter(width: real, height: real, eps: real)
    requires width > 0.0 && height > 0.0 && 0.0 <= eps < width * height
    ensures AreaWeightedCenter(RectangleVertices(width, height), eps) == Origin
  {
    var vs := RectangleVertices(width, height);
    assert VertexSum(vs, 4) == Origin by {
      assert VertexSum(vs, 1) == vs[0];
      assert VertexSum(vs, 2) == Vec(0.0, -height);
      assert VertexSum(vs, 3) == Vec(width * 0.5, height * 0.5 - height);
    }
    assert Average(vs) == Origin;
    RectangleFan(width, height);
  }

  /** About the origin, each edge of the rectangle spans a quarter of its
      area, and the moments of opposite edges cancel. */
  lemma RectangleFan(width: real, height: real)
    ensures AreaSum(RectangleVertices(width, height), Origin, 4) == width * height
    ensures MomentSum(RectangleVertices(width, height), Origin, 4) == Origin
  {
    var vs := RectangleVertices(width, height);
    var q := width * height * 0.25;
    RectangleEdgeAreas(width, height);
    assert AreaSum(vs, Origin, 4) == q + q + q + q by {
      assert EdgeArea(vs, Origin, 0) == q && EdgeArea(vs, Origin, 1) == q;
      assert EdgeArea(vs, Origin, 2) == q && EdgeArea(vs, Origin, 3) == q;
      assert AreaSum(vs, Origin, 1) == q;
      assert AreaSum(vs, Origin, 2) == q + q;
      assert AreaSum(vs, Origin, 3) == q + q + q;
    }
    var m0 := Scale(q, Scale(INV_3, Vec(0.0, -height)));
    var m1 := Scale(q, Scale(INV_3, Vec(width, 0.0)));
    var m2 := Scale(q, Scale(INV_3, Vec(0.0, height)));
    var m3 := Scale(q, Scale(INV_3, Vec(-width, 0.0)));
    assert EdgeMoment(vs, Origin, 0) == m0 by { assert EdgeArea(vs, Origin, 0) == q; }
    assert EdgeMoment(vs, Origin, 1) == m1 by { assert EdgeArea(vs, Origin, 1) == q; }
    assert EdgeMoment(vs, Origin, 2) == m2 by { assert EdgeArea(vs, Origin, 2) == q; }
    assert EdgeMoment(vs, Origin, 3) == m3 by { assert EdgeArea(vs, Origin, 3) == q; }
    assert MomentSum(vs, Origin, 4) == Add(Add(Add(Add(Origin, m0), m1), m2), m3) by {
      assert MomentSum(vs, Origin, 1) == Add(Origin, m0);
      assert MomentSum(vs, Origin, 2) == Add(Add(Origin, m0), m1);
      assert MomentSum(vs, Origin, 3) == Add(Add(Add(Origin, m0), m1), m2);
    }
    OppositeMomentsCancel(q, width, height);
  }

  lemma RectangleEdgeAreas(width: real, height: real)
    ensures forall i :: 0 <= i < 4 ==> EdgeArea(RectangleVertices(width, height), Origin, i) == width * height * 0.25
  {
    var vs := RectangleVertices(width, height);
    forall i | 0 <= i < 4
      ensures EdgeArea(vs, Origin, i) == width * height * 0.25
    {
      assert Sub(vs[i], Origin) == vs[i];
      assert Sub(vs[Next(4, i)], Origin) == vs[Next(4, i)];
      HalfCornerCross(width, height, vs[i], vs[Next(4, i)]);
    }
  }

  lemma HalfCornerCross(width: real, height: real, p: Vec, q: Vec)
    requires (p, q) in {(Vec(-width * 0.5, -height * 0.5), Vec(width * 0.5, -height * 0.5)),
                        (Vec(width * 0.5, -height * 0.5), Vec(width * 0.5, height * 0.5)),
                        (Vec(width * 0.5, height * 0.5), Vec(-width * 0.5, height * 0.5)),
                        (Vec(-width * 0.5, height * 0.5), Vec(-width * 0.5, -height * 0.5))}
    ensures 0.5 * Cross(p, q) == width * height * 0.25
  {
  }

  lemma OppositeMomentsCancel(q: real, width: real, height: real)
    ensures Add(Add(Add(Add(Origin, Scale(q, Scale(INV_3, Vec(0.0, -height)))), Scale(q, Scale(INV_3, Vec(width, 0.0)))),
                    Scale(q, Scale(INV_3, Vec(0.0, height)))), Scale(q, Scale(INV_3, Vec(-width, 0.0)))) == Origin
  {
  }

  // ---------------------------------------------------------------------
  // Constructors and factories
  // ---------------------------------------------------------------------

  /** The constructor without a center: the vertices must pass the
      validity check, and the center is computed from them. */
  method NewPolygon(kind: ConvexType, points: seq<Vec>, eps: real) returns (p: Polygon)
    requires eps >= 0.0 && IsConvexPolygon(points, eps)
    ensures p.kind == kind && p.vertices == points
    ensures p.center == AreaWeightedCenter(points, eps)
  {
    var center := CalcAreaWeightedCenter(points, eps);
    p := Polygon(kind, points, center);
  }

  /** The constructor with a center: the vertices must pass the validity
      check, and the given center is kept as it is. */
  method NewPolygonWithCenter(kind: ConvexType, center: Vec, points: seq<Vec>, eps: real) returns (p: Polygon)
    requires IsConvexPolygon(points, eps)
    ensures p == Polygon(kind, points, center)
    ensures |p.vertices| >= 3
  {
    p := Polygon(kind, points, center);
  }

  /** createPolygon: a general polygon with its computed center. */
  method CreatePolygon(points: seq<Vec>, eps: real) returns (p: Polygon)
    requires eps >= 0.0 && IsConvexPolygon(points, eps)
    ensures p == Polygon(PolygonType, points, AreaWeightedCenter(points, eps))
  {
    p := NewPolygon(PolygonType, points, eps);
  }

  /** createTriangle: the three points in order, with their computed
      center. */
  method CreateTriangle(point1: Vec, point2: Vec, point3: Vec, eps: real) returns (p: Polygon)
    requires eps >= 0.0 && IsConvexPolygon([point1, point2, point3], eps)
    ensures p == Polygon(TriangleType, [point1, point2, point3], AreaWeightedCenter([point1, point2, point3], eps))
  {
    p := NewPolygon(TriangleType, [point1, point2, point3], eps);
  }

  /** createRectangle: the four corners of a rectangle centred on the
      origin, which always pass the validity check; the stored center, the
      origin, is the area-weighted center whenever the area exceeds the
      tolerance. */
  method CreateRectangle(width: real, height: real, eps: real) returns (p: Polygon)
    requires width > 0.0 && height > 0.0 && eps >= 0.0
    ensures p == Polygon(RectangleType, RectangleVertices(width, height), Origin)
    ensures IsConvexPolygon(p.vertices, eps) && ValidAsWritten(p.vertices, eps)
    ensures eps < width * height ==> p.center == AreaWeightedCenter(p.vertices, eps)
  {
    RectangleIsValid(width, height, eps);
    if eps < width * height {
      RectangleCenter(width, height, eps);
    }
    p := NewPolygonWithCenter(RectangleType, Origin, RectangleVertices(width, height), eps);
  }
}
