# GJK intersection test and convex polygons, in Dafny

This project models two pieces of a small 2D physics engine, and proves
properties about them over exact real arithmetic.

- **The GJK collision detector** (`GJKCollisionDetector`). It finds the
  initial search direction from the two shapes' world centers. It then grows
  a simplex of support points of the Minkowski difference, one point per
  step. `checkSimplex` prunes the simplex back to an edge and turns the
  search direction, until either the triangle encloses the origin or a
  support point fails to pass the origin. The public `detect` overloads
  wrap this search; one of them also hands a colliding simplex to the
  penetration solver.
- **The convex polygon shape** (`Polygon`). This covers:
  - its support function `getFarthestPoint`;
  - its validity check `valid()`;
  - its area-weighted center;
  - its constructors and the `createPolygon`, `createTriangle` and
    `createRectangle` factories.

Vectors are pairs of reals (`Vectors.Vec`). The floating-point epsilon that
the code compares against is a parameter `eps >= 0`. A `Transform2` is a
pair of functions: `inverseRotate` turns a world direction into the local
frame, and `forward` carries a local point into the world. The Minkowski
sum is its support mapping, a function `support: Vec -> Vec`. The
penetration solver is a function from the final simplex to a penetration.

The files:

- `Vectors.dfy` (module `Vectors`):
  - vector algebra;
  - the triple product `(a x b) x c = b (a.c) - a (b.c)`;
  - the perpendicular `Left`;
  - the identities the GJK proofs use.
- `Gjk.dfy` (module `GjkCollisionDetector`):
  - `Evolve`, the specification of `checkSimplex`, and the method
    `CheckSimplex` proved equal to it;
  - `Loop` and `Gjk`, the specification of the private `detect`, and the
    method `DetectSimplex` proved equal to it;
  - the public overloads;
  - the case lemmas, and the soundness of a reported collision.
- `Polygon.dfy` (module `PolygonGeometry`):
  - the farthest-point scan;
  - `valid()` as written and corrected;
  - the centroid;
  - the rectangle;
  - the constructors.

## Model

| member | source | states |
|---|---|---|
| GjkCollisionDetector.InitialDirection | src/collision/GJKCollisionDetector.cpp:45-55 | the direction leads from the first shape's world center to the second's: center1' + d == center2' |
| GjkCollisionDetector.StartDirection | src/collision/GJKCollisionDetector.cpp:59-63 | a zero direction is replaced by exactly (1, 0), and a non-zero direction is kept as it is, so the first search direction is never zero |
| GjkCollisionDetector.Evolve | src/collision/GJKCollisionDetector.cpp:103-180 | checkSimplex on 2 or 3 points. Containment is reported only for a triangle, which is then left untouched. Otherwise 2 points remain: the newest point is still last, and the other one is an older point of the simplex |
| GjkCollisionDetector.CheckSimplex | src/collision/GJKCollisionDetector.cpp:103-180 | the in-place erase and the direction rewrite yield exactly Evolve's result and new simplex and direction |
| GjkCollisionDetector.TriangleContainment | src/collision/GJKCollisionDetector.cpp:111-147 | the triangle case reports containment if and only if the origin lies strictly on b's side of edge a-c and strictly on c's side of edge a-b |
| GjkCollisionDetector.TrianglePruning | src/collision/GJKCollisionDetector.cpp:118-158 | without containment, either b is erased leaving [c, a], or c is erased leaving [b, a]. The new direction is perpendicular to the kept edge, faces the origin, and points away from the erased vertex |
| GjkCollisionDetector.SegmentDirection | src/collision/GJKCollisionDetector.cpp:160-179 | the segment case keeps both points and never reports containment. The direction is perpendicular to ab, and Left(ab) replaces it exactly when its squared length is at most eps. Otherwise it faces the origin. With eps = 0 it always faces the origin and is non-zero for distinct points |
| GjkCollisionDetector.PruningKeepsHeading | src/collision/GJKCollisionDetector.cpp:128-179 | every non-containing checkSimplex leaves a 2-point simplex whose direction is perpendicular to the edge and, with eps = 0, does not face away from the origin |
| GjkCollisionDetector.ThirdEdge | src/collision/GJKCollisionDetector.cpp:77-94 | a newest point that passed the origin along a direction perpendicular to the previous edge is not on the opposite side of that edge from the origin |
| GjkCollisionDetector.Loop | src/collision/GJKCollisionDetector.cpp:77-99 | the loop keeps the simplex at 1 to 3 points, and a collision leaves exactly 3. A finished search ends with the latest support point last. It reports separation if and only if that point's projection on the direction is at most zero, so touching counts as no intersection |
| GjkCollisionDetector.Gjk | src/collision/GJKCollisionDetector.cpp:57-99 | the private detect: the same bounds, and separation if and only if the last support point does not pass the origin. This includes the very first point |
| GjkCollisionDetector.DetectSimplex | src/collision/GJKCollisionDetector.cpp:57-99 | the loop with push_back and checkSimplex computes exactly Gjk's verdict, simplex and direction |
| GjkCollisionDetector.LoopCollisionSound | src/collision/GJKCollisionDetector.cpp:77-94 | when the loop reports a collision, the origin is strictly inside the two edges at the newest point, and with eps = 0 it is inside the whole triangle |
| GjkCollisionDetector.CollisionSound | src/collision/GJKCollisionDetector.cpp:57-99 | the same for the whole private detect |
| GjkCollisionDetector.GjkDirectionNonZero | src/collision/GJKCollisionDetector.cpp:59-99 | with eps = 0 the search direction never becomes zero. The start direction is non-zero, and every pruning step of checkSimplex (:133-139, :151-157, :169-176) yields a non-zero edge normal. So the final direction, along which a Separated verdict's last point fails to pass the origin, is a genuine separating direction |
| GjkCollisionDetector.SecondQueryOpposite | src/collision/GJKCollisionDetector.cpp:65-87 | after the first point passes the origin, the second support query uses exactly the negated start direction, and if that point fails the result is Separated with both points |
| GjkCollisionDetector.Detect | src/collision/GJKCollisionDetector.cpp:12-25 | the public detect returns the verdict of Gjk run from the initial direction |
| GjkCollisionDetector.DetectPenetration | src/collision/GJKCollisionDetector.cpp:27-43 | returns the same verdict as Detect. The solver is applied to the final simplex only on a collision, and otherwise the penetration is left unchanged |
| PolygonGeometry.FarthestIndex | src/geometry/Polygon.cpp:62-89 | the chosen vertex is a maximum of the projection on the local direction, and every earlier vertex projects strictly less (first one wins ties) |
| PolygonGeometry.FarthestIndexUnique | src/geometry/Polygon.cpp:65-88 | those two properties determine the index uniquely |
| PolygonGeometry.GetFarthestPoint | src/geometry/Polygon.cpp:59-95 | the scan returns the forward transform of the vertex FarthestIndex picks for the inversely rotated direction |
| PolygonGeometry.ValidScanAsWritten | src/geometry/Polygon.cpp:166-209 | the loop as written accepts exactly ValidAsWritten. That means at least 3 vertices and no vertex equal to its cyclic successor. Every significant turn must agree in sign with the turn just before it, when that turn's sign is non-zero. The turn sum must be non-negative |
| PolygonGeometry.ValidAsWrittenAcceptsReflex | src/geometry/Polygon.cpp:190-205 | a polygon with a clockwise (reflex) vertex between two collinear ones is accepted as written for every eps below 2, yet is not convex |
| PolygonGeometry.Valid | src/geometry/Polygon.cpp:166-209 | the corrected loop accepts exactly IsConvexPolygon: at least 3 vertices, no coincident neighbours, all significant turns of one sign, and a non-negative turn sum |
| PolygonGeometry.ExactConvexIsValidAsWritten | src/geometry/Polygon.cpp:166-209 | with eps = 0, every polygon the corrected check accepts also passes the check as written |
| PolygonGeometry.ExactConvexTurnsLeft | src/geometry/Polygon.cpp:190-208 | with eps = 0, an accepted polygon turns left or goes straight at every vertex (locally convex) |
| PolygonGeometry.NonPositiveTurnSum | src/geometry/Polygon.cpp:194-208 | turns that are all at most zero, one of them negative, have a negative sum, so the final area test rejects them |
| PolygonGeometry.AreaWeightedCenter | src/geometry/Polygon.cpp:104-109 | a single point is its own center |
| PolygonGeometry.CalcAreaWeightedCenter | src/geometry/Polygon.cpp:97-164 | the average loop and the triangle-fan loop compute AreaWeightedCenter. That is points[0] when the area is at most eps in size, and otherwise the moment over the area, offset by the average |
| PolygonGeometry.CenterTranslates | src/geometry/Polygon.cpp:97-164 | shifting every point by t shifts the computed center by t |
| PolygonGeometry.RectangleTurns | src/geometry/Polygon.cpp:42-52 | every corner of the rectangle turns left by width * height |
| PolygonGeometry.RectangleIsValid | src/geometry/Polygon.cpp:42-52 | for positive sides, the rectangle passes both the corrected check and the check as written |
| PolygonGeometry.RectangleCenter | src/geometry/Polygon.cpp:42-52 | the origin is the rectangle's area-weighted center whenever width * height exceeds eps |
| PolygonGeometry.NewPolygon | src/geometry/Polygon.cpp:12-20 | the constructor keeps the kind and the vertices, and sets the center to the area-weighted center |
| PolygonGeometry.NewPolygonWithCenter | src/geometry/Polygon.cpp:22-30 | the constructor keeps the kind, the vertices and the given center, and the vertices number at least 3 |
| PolygonGeometry.CreatePolygon | src/geometry/Polygon.cpp:32-35 | a polygon of kind POLYGON with the computed center |
| PolygonGeometry.CreateTriangle | src/geometry/Polygon.cpp:37-40 | a polygon of kind TRIANGLE over the three points in order, with the computed center |
| PolygonGeometry.CreateRectangle | src/geometry/Polygon.cpp:42-52 | the four corners (-w/2,-h/2), (w/2,-h/2), (w/2,h/2), (-w/2,h/2) with center at the origin. They pass the validity check, and the origin is their area-weighted center when w * h > eps |

## Left out

- The EPA penetration solver, `MinkowskiSum`, `Circle`, `Transform2` and `Vector2Util` are not part of this model. The solver and the support mapping are function parameters. A transform is a pair of functions. The triple product and `left` are defined in `Vectors`.
- `Vector2Util::isZero` is modelled as exact equality with the zero vector.
- Loop termination: the source loops with `while (true)`. The GJK loop carries a `fuel` bound, and `Undecided` stands for "still looping when the fuel ran out". Termination and the number of iterations are not modelled.
- GjkCollisionDetector.GjkDirectionNonZero: proved for eps = 0 only. With a positive eps the fallback `left(ab)` may face away from the origin, so the argument that the next triangle is not flat, and hence that its edge normals are non-zero, no longer applies.
- GjkCollisionDetector.LoopCollisionSound: the containment of the origin in the whole final triangle is proved only for eps = 0. With a positive eps the fallback direction `left(ab)` may face away from the origin.
- End-to-end geometric correctness is not modelled: that the origin is in the Minkowski difference if and only if the shapes overlap, and the symmetry of `detect`.
- Floating-point rounding, and the `float` versus `double` vector types: all arithmetic is exact over the reals. Every epsilon comparison uses the parameter `eps`: the double epsilon at GJKCollisionDetector.cpp:173 and the float epsilon at Polygon.cpp:151 and :195.
- `toString`, `unique_ptr` ownership and the detector's constructor, which allocates the solver, are not modelled.
- `getCenter` is the `center` field of the `Polygon` value.
- PolygonGeometry.CalcAreaWeightedCenter requires a non-empty list. The source's `assert("Empty set of points")` asserts a string literal, which is always true, so an empty list would go on to read `points[0]`.
- PolygonGeometry.NewPolygon requires the corrected check `IsConvexPolygon` where the source asserts `valid()` as written. See "## Findings". The same holds for NewPolygonWithCenter, CreatePolygon and CreateTriangle. The corrected check is not only stricter: with eps > 0 it also accepts some polygons that `valid()` as written rejects. An example is (0,0), (4,0), (8,-1), (8,8), (0,8) with eps = 4. Its turns are 32, -4, 36, 72, 64, and the insignificant -4 turn sets the remembered sign that the next turn then contradicts. These constructors build such a polygon where the source's `assert(valid())` would abort.
- PolygonGeometry.IsConvexPolygon and PolygonGeometry.ValidAsWritten check only the sign of each turn and the sign of the turn sum, as `valid()` does at Polygon.cpp:177-208. Neither rules out a polygon that winds around more than once. The pentagram (-6,-8), (10,3), (-10,3), (6,-8), (0,10) turns left at every vertex and passes both checks, although its edges cross. The model therefore promises local convexity only, and ExactConvexTurnsLeft states just that.
- GjkCollisionDetector.DetectSimplex builds the simplex from the empty sequence. The source's private detect appends to the caller's vector and tests `simplex[0]` at GJKCollisionDetector.cpp:69, which is the new point only because both public callers (GJKCollisionDetector.cpp:20 and :32) pass an empty vector. A non-empty incoming simplex is not modelled.
- Vectors.Left fixes `left(v)` as the counter-clockwise quarter turn (-v.y, v.x). That orientation is a modelling choice for the unseen `Vector2Util::left`; no GJK lemma depends on it beyond perpendicularity and equal length.
- PolygonGeometry.AreaWeightedCenter: beyond the single-point and zero-area cases, only translation is proved (CenterTranslates). It is not proved that the result is the geometric centroid of the region for a general polygon.

## Findings

| source | as written | input that shows it | evidently intended | confidence | as-written member | corrected member |
|---|---|---|---|---|---|---|
| src/geometry/Polygon.cpp:190-205 | `sign = tsign` runs for every vertex, so a collinear vertex (sign 0) erases the remembered turn direction, and the next significant turn is compared against nothing | vertices (0,0), (2,0), (4,0), (5,-1), (6,-2), (6,3), (0,3), or any translate of them. The turns are 6, 0, -2, 0, 5, 30, 18, summing to 57. The clockwise turn at (4,0) follows a collinear vertex, so valid() returns true for a non-convex polygon | remember the sign of the last significant turn only, so every significant turn must share one sign | high (proved over the reals; not executed) | PolygonGeometry.ValidAsWrittenAcceptsReflex | PolygonGeometry.Valid |
