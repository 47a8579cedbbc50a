# LiteGame core in Dafny

This project models the core of LiteGame, a small MonoGame framework written in C#. The core has two parts.

**Physics library.** (`Lite/` and `Lite/Physics/`)
- `LiteVector` is the vector type, with its arithmetic in `LiteMath` and rotation plus translation in `LiteTransform`.
- `LiteAABB` is the axis-aligned bounding box. The body limits are the constants in `LiteWorld`.
- `LiteBody` is the rigid body. It has validated factories, lazily refreshed world vertices and bounding box, sub-stepped integration and pose commands.
- `Collisions` holds the narrow-phase tests:
  - AABB overlap and circle/circle overlap;
  - separating-axis overlap for polygon/polygon and circle/polygon;
  - the point-to-segment distance and the closest-vertex search;
  - contact-point generation;
  - dispatch on the pair of shape types.
- `Utils` holds in-place normalisation of a coordinate pair and ear-clipping triangulation.
- `LiteConverter` converts between `LiteVector` and XNA's `Vector2`.

**Rendering-side state logic.** (`Lite/Graphics/`)
- The `Shapes` batch: a Begin/End protocol over fixed-capacity vertex and index buffers, flushed when a shape would not fit.
- The `Animation` frame state machine.
- The `Camera`: scale clamp, distance guard and visible extents.
- The `Screen` letterbox rectangle.

**How the numbers are modelled.**
- Every `float` is a Dafny `real`.
- `MathF.Sqrt`, `MathF.Sin`, `MathF.Cos` and `Math.Tan` are uninterpreted functions (`Primitives.Sqrt` and the others).
  - The square-root law (non-negative, and squares back on non-negative inputs) is stated as the hypothesis `SqrtLaws()`.
  - The Pythagorean identity of sine and cosine is stated as the hypothesis `TrigLaws()`.
  - Lemmas that need these laws take the hypothesis as a `requires` clause.
- `float.MaxValue` and `float.MinValue` are the exact single-precision limits (`FloatMax`, `FloatMin`). The running minimum and maximum loops start from them as the source does.
- C#'s integer `%` and `/` truncate toward zero. They are written out as `TruncRem` and `TruncDiv`.
- The `(int)` cast is `Truncate` and the float `%` is `FloatRem`.
- `Math.Clamp` is `Clamp` on reals and `ClampInt` on integers.

**How the code is modelled.**
- Pure code (vector algebra, the straight-line collision tests, the letterbox) becomes datatypes, functions and lemmas.
- Code that updates state becomes classes with `modifies` clauses: `LiteBody`, `Shapes`, `Animation` and `Camera`. The `Shapes` index buffer is kept as an `array`.
- Code that loops becomes methods with loop invariants, written over arrays:
  - ProjectVertices;
  - the polygon and circle axis loops;
  - FindClosestPointOnPolygon;
  - the contact-point loops;
  - the body's bounding-box corner loop;
  - Triangulate, IsEar and RemoveAtIndex;
  - the fan and index loops of `Shapes`;
  - ToVector2Array.
- Each loop method is proved equal to a specification function (a fold over the input). The properties the source promises are proved as lemmas about that function.
- An exception becomes an error value: `Result.Err`, or `Outcome.Fail` for a method without another result. State changed before the throw is kept, as the source keeps it.

## Model

| member | source | states |
|---|---|---|
| Primitives.Clamp | Lite/Physics/LiteBody.cs:289 | Math.Clamp on floats: the result lies in [lo, hi]; it is the value when that lies inside, lo below, hi above |
| Primitives.ClampInt | Lite/Graphics/Shapes.cs:197 | Math.Clamp on ints, with the same three cases |
| Primitives.Truncate | Lite/Graphics/Screen.cs:47 | The (int) cast rounds toward zero: for x ≥ 0, 0 ≤ r ≤ x < r + 1; for x ≤ 0, r − 1 < x ≤ r ≤ 0 |
| Primitives.TruncRem | Lite/Graphics/Animation.cs:55 | C#'s %: a == b·TruncDiv(a, b) + r, and the remainder has the dividend's sign and a magnitude below abs(b) |
| Primitives.TruncMatchesEuclidean | Lite/Utils.cs:89-97 | For a non-negative dividend and a positive divisor, C#'s / and % agree with Dafny's |
| Primitives.FloatRemBounds | Lite/Graphics/Camera.cs:50 | The float remainder x % y is smaller than y in magnitude and has the sign of x |
| Primitives.RunningMin | Lite/Physics/Collisions.cs:408-418 | A running minimum started at float.MaxValue is at most every element, and is float.MaxValue or one of the elements |
| Primitives.RunningMax | Lite/Physics/Collisions.cs:408-418 | A running maximum started at float.MinValue is at least every element, and is float.MinValue or one of the elements |
| Primitives.RunningBoundsAttained | Lite/Physics/Collisions.cs:406-419 | On a non-empty sequence within float range, both running bounds are attained by some element |
| LiteVectors.Add | Lite/LiteVector.cs:30 | Component-wise sum; Zero is its identity (ZeroIsAdditiveIdentity) and scaling distributes over it (ScalingIsLinear) |
| LiteVectors.Sub | Lite/LiteVector.cs:31 | Component-wise difference, equal to adding the negation (SubIsAddNeg) |
| LiteVectors.Neg | Lite/LiteVector.cs:32 | Component-wise negation, an involution (NegNeg) that fixes Zero (NegatedZero) |
| LiteVectors.Mul | Lite/LiteVector.cs:33 | Scaling v·s, linear and composable (ScalingIsLinear) |
| LiteVectors.MulLeft | Lite/LiteVector.cs:34 | Scaling s·v, equal to v·s (ScalingCommutes) |
| LiteVectors.Div | Lite/LiteVector.cs:35 | Division of each component by s; Normalize divides by the length with it (NormalizeGivesUnitVector) |
| LiteVectors.NegNeg | Lite/LiteVector.cs:32 | Unary minus is an involution: −(−v) == v |
| LiteVectors.SubIsAddNeg | Lite/LiteVector.cs:30-32 | a − b == a + (−b) |
| LiteVectors.ScalingCommutes | Lite/LiteVector.cs:33-34 | v·s == s·v |
| LiteVectors.ZeroIsAdditiveIdentity | Lite/LiteVector.cs:14-31 | Zero + v == v == v + Zero, and v − v == Zero |
| LiteVectors.ScalingIsLinear | Lite/LiteVector.cs:30-34 | Scaling distributes over +, commutes with unary minus, and composes: (a·s)·t == a·(s·t) |
| LiteVectors.NegatedZero | Lite/LiteVector.cs:14-32 | −Zero == Zero |
| LiteMath.Dot | Lite/LiteMath.cs:46-49 | The dot product: symmetric (DotIsSymmetric), linear (DotIsLinear), and Dot(v, v) is the squared length (LengthSquared) |
| LiteMath.Cross | Lite/LiteMath.cs:51-54 | The 2D cross product: antisymmetric and zero on equal arguments (CrossIsAntisymmetric) |
| LiteMath.Length | Lite/LiteMath.cs:14-17 | The square root of the squared length; 1 after Normalize of a vector that is not nearly zero (NormalizeGivesUnitVector) |
| LiteMath.Distance | Lite/LiteMath.cs:31-34 | The square root of the squared distance; symmetric (DistanceSquaredIsSymmetric), and below 0.0005 exactly when the vectors are nearly equal (NearlyEqualVectorsMeansClose) |
| LiteMath.NearlyEqual | Lite/LiteMath.cs:56-59 | abs(a − b) < 0.0005; reflexive and symmetric (NearlyEqualIsReflexiveAndSymmetric) |
| LiteMath.NearlyEqualVectors | Lite/LiteMath.cs:61-64 | Squared distance below 0.0005²: reflexive (NearlyEqualVectorsIsReflexive), symmetric (NearlyEqualVectorsIsSymmetric), and the same as a distance below 0.0005 (NearlyEqualVectorsMeansClose) |
| LiteMath.Normalize | Lite/LiteMath.cs:36-44 | The input when its length is nearly zero (NormalizeLeavesNearZeroUnchanged), otherwise the input divided by its length: a unit vector in the same direction (NormalizeGivesUnitVector, NormalizeIsOdd) |
| LiteMath.LengthSquared | Lite/LiteMath.cs:19-22 | The squared length is non-negative and equals Dot(v, v) |
| LiteMath.DistanceSquared | Lite/LiteMath.cs:24-29 | The squared distance is non-negative and equals LengthSquared(a − b) |
| LiteMath.DotIsSymmetric | Lite/LiteMath.cs:46-49 | Dot(a, b) == Dot(b, a) |
| LiteMath.DotIsLinear | Lite/LiteMath.cs:46-49 | Dot is linear in its first argument over +, −, scaling and negation |
| LiteMath.CrossIsAntisymmetric | Lite/LiteMath.cs:51-54 | Cross(a, b) == −Cross(b, a) and Cross(a, a) == 0 |
| LiteMath.DistanceSquaredIsSymmetric | Lite/LiteMath.cs:24-34 | Distance and squared distance do not depend on the order of the points |
| LiteMath.NearlyEqualIsReflexiveAndSymmetric | Lite/LiteMath.cs:56-59 | The float NearlyEqual is reflexive and symmetric |
| LiteMath.NearlyEqualVectorsIsReflexive | Lite/LiteMath.cs:61-64 | Every vector is nearly equal to itself |
| LiteMath.NearlyEqualVectorsIsSymmetric | Lite/LiteMath.cs:61-64 | The vector NearlyEqual is symmetric |
| LiteMath.NearlyEqualVectorsMeansClose | Lite/LiteMath.cs:12-64 | With a lawful square root, two vectors are nearly equal exactly when they are less than HalfAMillimeter (0.0005) apart |
| LiteMath.NormalizeLeavesNearZeroUnchanged | Lite/LiteMath.cs:36-42 | A vector whose length is nearly zero is returned unchanged |
| LiteMath.NormalizeGivesUnitVector | Lite/LiteMath.cs:36-44 | With a lawful square root, any other vector becomes a unit vector, parallel to the input (cross product 0) and in the same direction (positive dot product) |
| LiteMath.NormalizeKeepsOrientation | Lite/LiteMath.cs:36-44 | With a lawful square root, Normalize(v) never points against v |
| LiteMath.NormalizeIsOdd | Lite/LiteMath.cs:36-44 | Normalize(−v) == −Normalize(v) |
| LiteMath.DirectionsAreOpposite | Lite/LiteMath.cs:36-44 | The normalised directions a→b and b→a are opposite |
| LiteTransforms.FromVector | Lite/LiteTransform.cs:18-24 | The position's coordinates with the sine and cosine of the angle (RotationDependsOnlyOnAngle) |
| LiteTransforms.FromCoordinates | Lite/LiteTransform.cs:26-32 | The same transform from separate coordinates (ConstructorsAgree) |
| LiteTransforms.Transform | Lite/LiteVector.cs:23-28 | Rotation by the stored sine and cosine, then the translation (TransformIsRotationThenTranslation); rigid and injective under lawful trigonometry (TransformPreservesDistance, TransformKeepsDistinct) |
| LiteTransforms.TransformAll | Lite/Physics/LiteBody.cs:120-126 | The transform loop's result has one entry per local vertex, and entry i is vertex i transformed |
| LiteTransforms.RotationDependsOnlyOnAngle | Lite/LiteTransform.cs:16-32 | The sine and cosine depend only on the angle, the position is copied unchanged, and Zero is the untranslated transform of angle 0 |
| LiteTransforms.ConstructorsAgree | Lite/LiteTransform.cs:18-32 | The vector and the coordinate constructors build the same transform |
| LiteTransforms.TransformIsRotationThenTranslation | Lite/LiteVector.cs:23-28 | Transform rotates by the angle, then translates by the position |
| LiteTransforms.TransformDifference | Lite/LiteVector.cs:23-28 | The difference of two transformed points is the rotated difference; the translation cancels |
| LiteTransforms.RotationPreservesLength | Lite/LiteVector.cs:23-28 | When sin² + cos² = 1, rotation preserves the squared length |
| LiteTransforms.TransformPreservesDistance | Lite/LiteVector.cs:23-28 | With lawful sine and cosine, a pose transform preserves the distance between any two points |
| LiteTransforms.ZeroTransformIsIdentity | Lite/LiteVector.cs:23-28 | If sin 0 = 0 and cos 0 = 1, transforming by Zero changes nothing |
| LiteTransforms.TransformKeepsDistinct | Lite/LiteVector.cs:23-28 | With lawful sine and cosine, distinct points stay distinct under a pose transform |
| LiteAABBs.FromCoordinates | Lite/Physics/LiteAABB.cs:20-24 | The float constructor sets Min = (minX, minY) and Max = (maxX, maxY), without requiring min ≤ max |
| LiteAABBs.ConstructorsAgree | Lite/Physics/LiteAABB.cs:14-24 | Both constructors build the same box from the same corners |
| LiteWorld.LimitsAreOrdered | Lite/Physics/LiteWorld.cs:11-15 | MinBodySize = 0.01·0.1 = 0.001 < MaxBodySize = 64·64 = 4096, and 0 < MinDensity < MaxDensity, so both ranges are non-empty |
| LiteConverter.ToVector2 | Lite/LiteConverter.cs:15-18 | The Vector2 has the same X and Y |
| LiteConverter.ToLiteVector | Lite/LiteConverter.cs:20-23 | The LiteVector has the same X and Y |
| LiteConverter.RoundTrips | Lite/LiteConverter.cs:15-23 | Converting either way and back gives the original vector |
| LiteConverter.ToVector2Seq | Lite/LiteConverter.cs:32-36 | One converted vector per source vector, in order |
| LiteConverter.ToVector2Array | Lite/LiteConverter.cs:25-37 | The result has the source's length and its converted entries. A destination of the right length is reused; otherwise a fresh array is allocated and the caller's array, if any, is left unchanged |
| LiteBodies.CheckLimits | Lite/Physics/LiteBody.cs:265-287 | The factories' four checks in source order, with their messages; it passes exactly on the closed ranges (CheckLimitsAcceptsExactlyTheRanges) |
| LiteBodies.CircleProperties | Lite/Physics/LiteBody.cs:263-298 | What CreateCircleBody validates and computes: area, clamped restitution, mass and inertia (CirclePropertiesSpec, DynamicCircleHasMass) |
| LiteBodies.BoxProperties | Lite/Physics/LiteBody.cs:310-345 | What CreateBoxBody validates and computes (BoxPropertiesSpec, DynamicBoxHasMass) |
| LiteBodies.Inverse | Lite/Physics/LiteBody.cs:80-99 | The stored inverse mass or inertia: 0 when static, otherwise the reciprocal (InverseSpec, StaticBodyIsImmovable) |
| LiteBodies.BoxVertices | Lite/Physics/LiteBody.cs:230-244 | CreateBoxVertices' four corners, centred on the origin and in edge order (BoxVerticesSpec) |
| LiteBodies.VerticesAABB | Lite/Physics/LiteBody.cs:143-157 | The box of the world vertices, from running minima and maxima (VerticesAABBSpec; computed by VertexBounds) |
| LiteBodies.CircleAABB | Lite/Physics/LiteBody.cs:158-164 | The box centre ± radius (CircleAABBSpec) |
| LiteBodies.CheckLimitsAcceptsExactlyTheRanges | Lite/Physics/LiteBody.cs:265-287 | A body is accepted exactly when its area and its density lie in the world's closed ranges. The area is checked before the density, and each rejection carries its own non-empty message |
| LiteBodies.CirclePropertiesSpec | Lite/Physics/LiteBody.cs:258-303 | CreateCircleBody fails exactly when the limits fail, with that message. Otherwise: area radius·PI; restitution clamped into [0, 1] and kept when already inside; mass and inertia 0 when static; area·density and m·r²/2 when dynamic |
| LiteBodies.BoxPropertiesSpec | Lite/Physics/LiteBody.cs:305-352 | CreateBoxBody fails exactly when the limits fail, with that message. Otherwise: area width·height; restitution clamped into [0, 1] and kept when already inside; mass and inertia 0 when static; area·density and m·(w² + h²)/12 when dynamic |
| LiteBodies.DynamicCircleHasMass | Lite/Physics/LiteBody.cs:291-298 | An accepted dynamic circle has positive mass and inertia, so its inverses are defined |
| LiteBodies.DynamicBoxHasMass | Lite/Physics/LiteBody.cs:338-345 | An accepted dynamic box has positive mass and inertia |
| LiteBodies.InverseSpec | Lite/Physics/LiteBody.cs:80-99 | A static body's inverse mass and inertia are 0; a dynamic body's are exact reciprocals |
| LiteBodies.BoxVerticesSpec | Lite/Physics/LiteBody.cs:230-244 | CreateBoxVertices yields four corners that go round the box edge by edge, (w, 0), (0, h), (−w, 0), (0, −h), centred on the origin |
| LiteBodies.VerticesAABBSpec | Lite/Physics/LiteBody.cs:143-157 | Every world vertex lies in the box computed from the vertices. For a non-empty box body within float range, each side touches a vertex |
| LiteBodies.VertexBounds | Lite/Physics/LiteBody.cs:138-157 | The corner loop computes the running minima and maxima of the x and y coordinates, started at float.MaxValue and float.MinValue |
| LiteBodies.CircleAABBSpec | Lite/Physics/LiteBody.cs:158-164 | A circle's box is its position ± radius, so it contains the centre and the extreme points, and its width is twice the radius |
| LiteBodies.LiteBody.constructor | Lite/Physics/LiteBody.cs:66-114 | A body at rest at the origin with the given properties and inverses. Only a box keeps vertices and a vertex cache. Both caches are marked stale |
| LiteBodies.LiteBody.GetTransformedVertices | Lite/Physics/LiteBody.cs:116-132 | Returns the cache holding the world vertices of the current pose, and clears the flag. A clean cache is returned untouched |
| LiteBodies.LiteBody.GetAABB | Lite/Physics/LiteBody.cs:134-176 | A stale box is recomputed from the world vertices (box) or from position ± radius (circle). The flag is cleared and the current box returned. A polygon shape throws "Unknown ShapeType." and changes nothing |
| LiteBodies.LiteBody.Step | Lite/Physics/LiteBody.cs:178-195 | A static body is untouched. Otherwise, with h = time/iterations: v' = v + g·h; pos' = pos + v'·h; angle' = angle + ω·h; the force is zeroed and both flags are set |
| LiteBodies.LiteBody.Move | Lite/Physics/LiteBody.cs:197-202 | Adds the amount to the position and sets both flags; nothing else changes |
| LiteBodies.LiteBody.MoveTo | Lite/Physics/LiteBody.cs:204-209 | Replaces the position and sets both flags |
| LiteBodies.LiteBody.Rotate | Lite/Physics/LiteBody.cs:211-216 | Adds to the angle and sets both flags |
| LiteBodies.LiteBody.RotateTo | Lite/Physics/LiteBody.cs:218-223 | Replaces the angle and sets both flags |
| LiteBodies.LiteBody.AddForce | Lite/Physics/LiteBody.cs:225-228 | Replaces the force (it does not add to it); nothing else changes |
| LiteBodies.CreateCircleBody | Lite/Physics/LiteBody.cs:258-303 | Succeeds exactly when the circle's properties are accepted, with an empty message and a fresh body at rest with those properties. Otherwise it returns a null body and the first failing check's message |
| LiteBodies.CreateBoxBody | Lite/Physics/LiteBody.cs:305-352 | The same for boxes; the new body carries the box's four local corners |
| LiteBodies.StaticBodyIsImmovable | Lite/Physics/LiteBody.cs:95-99 | A static body has inverse mass and inverse inertia 0, whatever its density |
| Collisions.PointSegmentDistance | Lite/Physics/Collisions.cs:11-35 | The returned value is the squared distance from p to the returned point |
| Collisions.PointSegmentDistanceClamps | Lite/Physics/Collisions.cs:14-32 | For a ≠ b, the point is a + ab·clamp(d, 0, 1): a when d < 0, b when d ≥ 1, else a + ab·d. Strictly inside, p − cp is perpendicular to the segment |
| Collisions.DistanceAlongSegment | Lite/Physics/Collisions.cs:14-34 | The squared distance to the segment point at parameter t is the quadratic ap² − 2t·(ab·ap) + t²·ab² |
| Collisions.PointSegmentDistanceIsMinimal | Lite/Physics/Collisions.cs:11-35 | For a ≠ b, no point of the segment is nearer to p than the point returned |
| Collisions.IntersectAABB | Lite/Physics/Collisions.cs:37-50 | False when on some axis one box ends at or before the other begins, true otherwise: symmetric and strict (IntersectAABBIsSymmetricAndStrict), and the same as a common interior point (IntersectAABBMeansCommonInterior) |
| Collisions.IntersectCircles | Lite/Physics/Collisions.cs:421-440 | No hit at distance ≥ rA + rB; otherwise the normal towards B and the depth rA + rB − distance (IntersectCirclesSpec, IntersectCirclesIsAntisymmetric) |
| Collisions.IntersectAABBIsSymmetricAndStrict | Lite/Physics/Collisions.cs:37-50 | IntersectAABB is symmetric; boxes that only share an edge (a.Max.X == b.Min.X or a.Max.Y == b.Min.Y) do not intersect |
| Collisions.IntersectAABBMeansCommonInterior | Lite/Physics/Collisions.cs:37-50 | Two boxes with non-empty interiors intersect exactly when some point lies strictly inside both |
| Collisions.IntersectCirclesSpec | Lite/Physics/Collisions.cs:421-440 | With a lawful square root: a hit exactly when the radii sum is positive and the squared centre distance is below its square. A hit has depth (rA + rB) − distance > 0 and normal Normalize(cB − cA); a miss has the zero normal and depth |
| Collisions.IntersectCirclesIsAntisymmetric | Lite/Physics/Collisions.cs:421-440 | Swapping the circles keeps the outcome and the depth and negates the normal |
| Collisions.CirclesContactPoint | Lite/Physics/Collisions.cs:177-182 | A's centre plus the direction towards B, scaled by A's radius (CirclesContactPointSpec) |
| Collisions.CirclesContactPointSpec | Lite/Physics/Collisions.cs:177-182 | With a lawful square root and centres not nearly equal, the contact lies on circle A, on the line of the centres, and (for a non-negative radius) on B's side |
| Collisions.Projection | Lite/Physics/Collisions.cs:406-419 | The interval from the running minimum to the running maximum of the projections (ProjectionSpec; computed by ProjectVertices) |
| Collisions.ProjectCircle | Lite/Physics/Collisions.cs:319-336 | The ordered projections onto the axis of the two points at distance radius from the centre along the normalised axis (ProjectCircleSpec) |
| Collisions.Projections | Lite/Physics/Collisions.cs:411-415 | One projection Dot(v, axis) per vertex, in order |
| Collisions.ProjectionSpec | Lite/Physics/Collisions.cs:406-419 | Every vertex projects into [min, max]. On a non-empty polygon within float range, both ends are attained |
| Collisions.ProjectVertices | Lite/Physics/Collisions.cs:406-419 | The loop computes exactly the running minimum and maximum of the projections |
| Collisions.ProjectCircleSpec | Lite/Physics/Collisions.cs:319-336 | The circle's interval is ordered and centred on the centre's projection. It spans twice abs(radius·Dot(Normalize(axis), axis)) |
| Collisions.EdgeTests | Lite/Physics/Collisions.cs:344-354 | One axis test per edge, in edge order. The axis is the edge's normal (edge.Y, −edge.X), normalised |
| Collisions.SatAxesSpec | Lite/Physics/Collisions.cs:344-368 | The running-depth loop reports a gap exactly when some axis shows one (minA ≥ maxB or minB ≥ maxA). Otherwise its depth is at most every overlap min(maxB − minA, maxA − minB), and is one of them or float.MaxValue |
| Collisions.SeparatedIsFinal | Lite/Physics/Collisions.cs:356-359 | Once an axis has separated the shapes, the loop returns: later axes change nothing |
| Collisions.SatFinishSpec | Lite/Physics/Collisions.cs:396-403 | The final step keeps the depth and turns the normal so that Dot(centerB − centerA, normal) ≥ 0 |
| Collisions.TwoRoundsSpec | Lite/Physics/Collisions.cs:338-404 | Two rounds of axes and the final step: a hit exactly when no axis shows a gap. On a hit the depth is at most every overlap and equals one of them (or float.MaxValue); the normal is that axis up to sign and faces the second centre |
| Collisions.RoundThenAxisSpec | Lite/Physics/Collisions.cs:258-294 | A round of axes, one more axis and the final step: a hit exactly when the last axis shows no gap. On a hit the depth is at most every overlap and equals one of them (or float.MaxValue); the normal is that axis up to sign and faces the second centre |
| Collisions.SatStep | Lite/Physics/Collisions.cs:356-367 | One axis of the loop: a gap stops the test, and a smaller overlap replaces the depth and normal (SatAxesSpec) |
| Collisions.IntersectPolygonsSpec | Lite/Physics/Collisions.cs:338-404 | A's edge axes, then B's, then the orientation step (IntersectPolygonsSeparatingAxis, IntersectPolygonsLeastOverlap; computed by IntersectPolygons) |
| Collisions.IntersectPolygonsSeparatingAxis | Lite/Physics/Collisions.cs:338-404 | Two polygons hit exactly when no edge axis of A or of B separates their projections |
| Collisions.IntersectPolygonsLeastOverlap | Lite/Physics/Collisions.cs:356-401 | On a hit the depth is the least overlap over the edge axes of both polygons, attained on one of them unless none is below float.MaxValue. The normal is that axis up to sign, with Dot(centerB − centerA, normal) ≥ 0 |
| Collisions.PolygonEdgeLoop | Lite/Physics/Collisions.cs:344-368 | The edge loop over an array equals the specification fold, and stops at the first gap |
| Collisions.IntersectPolygons | Lite/Physics/Collisions.cs:338-404 | The method over vertex arrays returns exactly IntersectPolygonsSpec's hit, normal and depth |
| Collisions.NearestVertex | Lite/Physics/Collisions.cs:299-317 | The search yields −1 and float.MaxValue when no vertex is closer than float.MaxValue. Otherwise it yields the index of the first vertex of least distance, with that distance |
| Collisions.FindClosestPointOnPolygon | Lite/Physics/Collisions.cs:299-317 | The loop returns NearestVertex's index; an empty array gives −1 |
| Collisions.NearestVertexExists | Lite/Physics/Collisions.cs:304-316 | If some vertex is closer than float.MaxValue, the index found is a valid vertex index |
| Collisions.IntersectCirclePolygonSpec | Lite/Physics/Collisions.cs:231-297 | The polygon's edge axes, then the vertex axis, then the orientation step; IndexOutOfRange without a nearest vertex (IntersectCirclePolygonError, IntersectCirclePolygonSeparatingAxis, IntersectCirclePolygonLeastOverlap) |
| Collisions.IntersectCirclePolygonError | Lite/Physics/Collisions.cs:267-268 | The test throws (index −1) exactly when no edge axis shows a gap and no vertex is within float.MaxValue of the centre, e.g. for an empty polygon |
| Collisions.IntersectCirclePolygonSeparatingAxis | Lite/Physics/Collisions.cs:231-297 | A circle and a polygon hit exactly when neither an edge axis nor the unnormalised axis to the nearest vertex shows a gap |
| Collisions.IntersectCirclePolygonLeastOverlap | Lite/Physics/Collisions.cs:258-294 | On a hit the depth is the least overlap over the edge axes and the vertex axis, attained on one of them unless none is below float.MaxValue. The normal is that axis up to sign and faces the polygon's centre |
| Collisions.CircleEdgeLoop | Lite/Physics/Collisions.cs:241-265 | The circle's edge loop equals the specification fold, and stops at the first gap |
| Collisions.VertexAxis | Lite/Physics/Collisions.cs:267-287 | The vertex-axis step projects on cp − center without normalising (the result of Normalize is discarded) |
| Collisions.IntersectCirclePolygon | Lite/Physics/Collisions.cs:231-297 | The method equals IntersectCirclePolygonSpec, including the IndexOutOfRange error |
| Collisions.PointCandidates | Lite/Physics/Collisions.cs:101-106 | One closest-point candidate per edge j → j + 1 (wrapping), in order |
| Collisions.CandidateRows | Lite/Physics/Collisions.cs:97-106 | One row of candidates per vertex of the first polygon |
| Collisions.ContactStepKeepsInvariant | Lite/Physics/Collisions.cs:108-121 | One candidate step keeps the contact invariant (see PolygonsContactsSpecInvariant) |
| Collisions.ContactRowsKeepInvariant | Lite/Physics/Collisions.cs:97-123 | The nested loop keeps the contact invariant over all candidates seen |
| Collisions.PolygonsContactsSpec | Lite/Physics/Collisions.cs:89-152 | The contacts of A's vertices against B's edges, then of B's vertices against A's edges (PolygonsContactsSpecInvariant; computed by FindPolygonsContactPoints) |
| Collisions.PolygonsContactsSpecInvariant | Lite/Physics/Collisions.cs:89-152 | After both loops: at most two contacts, never two nearly equal ones. The smallest distance is within half a millimetre of every candidate's. The first contact is some candidate's point. A reachable candidate means at least one contact |
| Collisions.FindPolygonsContactPoints | Lite/Physics/Collisions.cs:89-152 | The two loops over vertex arrays return exactly the specification's contacts and count |
| Collisions.NearestCandidate | Lite/Physics/Collisions.cs:159-174 | The running search gives the first candidate of least squared distance below float.MaxValue, or the zero vector at float.MaxValue |
| Collisions.CirclePolygonContact | Lite/Physics/Collisions.cs:154-175 | The first nearest of the closest points on the polygon's edges to the circle's centre (NearestCandidate, CirclePolygonContactIsNearest) |
| Collisions.CirclePolygonContactIsNearest | Lite/Physics/Collisions.cs:154-175 | When some edge comes within float.MaxValue, the contact lies on an edge and no point of any edge is nearer the circle's centre |
| Collisions.FindCirclePolygonContactPoint | Lite/Physics/Collisions.cs:154-175 | The loop over the vertex array returns CirclePolygonContact |
| Collisions.CollideSpec | Lite/Physics/Collisions.cs:184-229 | The dispatch on the two shape types (CollideBoxCircleIsSwapped, CollideCirclesIsAntisymmetric, CollideWithPolygonShapeMisses; computed by Collide) |
| Collisions.CollideBoxCircleIsSwapped | Lite/Physics/Collisions.cs:201-210 | A box against a circle equals the circle against the box, with the normal negated |
| Collisions.CollideCirclesIsAntisymmetric | Lite/Physics/Collisions.cs:221-225 | Two circle bodies collide the same either way round, with opposite normals |
| Collisions.CollideWithPolygonShapeMisses | Lite/Physics/Collisions.cs:228 | Any pair involving the Polygon shape type is no hit with the zero normal and depth |
| Collisions.Collide | Lite/Physics/Collisions.cs:184-229 | On two bodies it returns CollideSpec of their shapes, positions, radii and world vertices. Only the box vertex caches may be refreshed |
| Collisions.BoxWorldVerticesAreProper | Lite/Physics/LiteBody.cs:116-132 | With lawful sine and cosine, a box of non-zero size has no degenerate world edge, as the contact loops need |
| Collisions.FindContactPointsSpec | Lite/Physics/Collisions.cs:52-87 | The contact points for each pair of shapes (FindContactPointsOfBoxes, FindContactPointsOfOtherPairs; computed by FindContactPoints) |
| Collisions.FindContactPointsOfBoxes | Lite/Physics/Collisions.cs:61-67 | Two boxes give 0 to 2 contacts, never two nearly equal ones, and at least one when some vertex comes within reach of an edge |
| Collisions.FindContactPointsOfOtherPairs | Lite/Physics/Collisions.cs:52-87 | A pair with a Polygon shape gives no contact; a circle against a box or a circle gives exactly one |
| Collisions.FindContactPoints | Lite/Physics/Collisions.cs:52-87 | On two bodies it returns FindContactPointsSpec of their views; only the box vertex caches may be refreshed |
| Utils.Normalize | Lite/Utils.cs:12-21 | The pair divided by its length, or an error when the length is zero (NormalizeFailsOnZeroLength, NormalizeSpec) |
| Utils.NormalizeFailsOnZeroLength | Lite/Utils.cs:14-16 | Normalize throws exactly when the length it divides by is zero |
| Utils.NormalizeSpec | Lite/Utils.cs:12-21 | With a lawful square root, it fails exactly on (0, 0). Otherwise the new pair is a unit vector parallel to (x, y) and pointing the same way |
| Utils.Sign | Lite/Utils.cs:84-87 | The cross product of p1 − p3 and p2 − p3: which side of the line p3 → p2 the point p1 lies on; swapping p2 and p3 negates it (SignSwap) |
| Utils.IsPointInTriangle | Lite/Utils.cs:72-82 | Inside or on the boundary exactly when the three signs do not disagree (TriangleContainsItsCorners, IsPointInTriangleIgnoresOrientation) |
| Utils.SignSwap | Lite/Utils.cs:84-87 | Swapping the two edge points negates Sign |
| Utils.TriangleContainsItsCorners | Lite/Utils.cs:72-82 | Each corner of a triangle is in the triangle; points on the boundary count as inside |
| Utils.IsPointInTriangleIgnoresOrientation | Lite/Utils.cs:72-82 | Reversing the corner order does not change the containment test |
| Utils.PrevIndex | Lite/Utils.cs:89-92 | For 0 ≤ i < count, the previous index wraps from 0 to count − 1 |
| Utils.NextIndex | Lite/Utils.cs:94-97 | For 0 ≤ i < count, the next index wraps from count − 1 to 0 |
| Utils.NextUndoesPrev | Lite/Utils.cs:89-97 | For 0 ≤ i < count, PrevIndex lies in [0, count), and NextIndex and PrevIndex undo each other |
| Utils.IndexOf | Lite/Utils.cs:44-46 | Array.IndexOf: the first position holding v, or −1 exactly when v does not occur |
| Utils.RemoveAt | Lite/Utils.cs:99-105 | One element shorter; the prefix before the index is kept, and the suffix shifts down by one |
| Utils.RemoveAtKeepsTheRest | Lite/Utils.cs:99-105 | Removing an element loses no other element and adds none (as multisets) |
| Utils.RemoveAtIndex | Lite/Utils.cs:99-105 | The two Array.Copy calls fill a fresh array with RemoveAt of the input |
| Utils.IsEarSpecMeansNoBlocker | Lite/Utils.cs:57-70 | A triangle is an ear exactly when no vertex other than its corners lies in it |
| Utils.IsEar | Lite/Utils.cs:57-70 | The scan returns exactly IsEarSpec |
| Utils.FirstEarSpec | Lite/Utils.cs:36-50 | The for-loop finds the first ear tip, or −1 exactly when there is none |
| Utils.ClipEarsShape | Lite/Utils.cs:34-52 | Clipping m remaining vertices of an n-vertex polygon yields, on success, 3·(m − 2) indices, all in [0, n) |
| Utils.TriangulateSpec | Lite/Utils.cs:23-55 | Rejects fewer than 3 vertices; otherwise clips ears (TriangulateShape, TriangleIsItsOwnTriangulation; computed by Triangulate) |
| Utils.TriangulateShape | Lite/Utils.cs:23-55 | Triangulate rejects fewer than 3 vertices. On success the (n − 2)·3 index slots are filled exactly, each with a position of the input |
| Utils.TriangleIsItsOwnTriangulation | Lite/Utils.cs:23-55 | A triangle with distinct corners triangulates to [2, 0, 1] |
| Utils.ClipEarsStep | Lite/Utils.cs:42-49 | One pass writes the first ear's three indices and removes its tip |
| Utils.ClipEarsNoEar | Lite/Utils.cs:34-52 | A pass that finds no ear ends the clipping with NoEar |
| Utils.FindEar | Lite/Utils.cs:36-51 | The inner for-loop returns FirstEar |
| Utils.ClipEar | Lite/Utils.cs:36-51 | One pass of the outer loop writes the ear's indices after those already written and returns the shrunk polygon |
| Utils.Triangulate | Lite/Utils.cs:23-55 | The method over arrays returns exactly TriangulateSpec |
| ShapeBatch.Offset | Lite/Graphics/Shapes.cs:152-157 | A shape's local indices shifted by the vertex count, element by element |
| ShapeBatch.FanIndices | Lite/Graphics/Shapes.cs:203-211 | The fan of t triangles has 3t indices: 0, i + 1 and i + 2 for triangle i |
| ShapeBatch.InitialFits | Lite/Graphics/Shapes.cs:26-47 | A new batch fits its buffers, holds no index and is not started |
| ShapeBatch.FlushDrawsPending | Lite/Graphics/Shapes.cs:110-130 | Flush does nothing without shapes. Otherwise it draws the pending indices as one call, losing none, and resets the three counters |
| ShapeBatch.AddShapeMakesRoom | Lite/Graphics/Shapes.cs:57-81 | Fails, changing nothing, exactly when not started (NotStarted) or when the shape exceeds a buffer (1024 vertices, 3072 indices). Otherwise the shape is counted and fits, after a flush exactly when it would have reached a buffer's end |
| ShapeBatch.FillShapeAppends | Lite/Graphics/Shapes.cs:273-286 | An added shape's indices, shifted by the vertices before it, follow the pending ones, and it adds its vertices. Indices that name the shape's own vertices keep every pending index in range |
| ShapeBatch.FillRectangleAppendsQuad | Lite/Graphics/Shapes.cs:140-163 | Succeeds exactly on a started batch. It then appends 4 vertices and the indices b, b+1, b+2, b, b+2, b+3 |
| ShapeBatch.FillCircleAppendsFan | Lite/Graphics/Shapes.cs:192-232 | Succeeds exactly on a started batch. It then appends n vertices, n the points clamped to [3, 256], and the fan (b, b+i, b+i+1) for i = 1 … n − 2, all in range |
| ShapeBatch.FillPolygonTriangulatedKeepsRange | Lite/Graphics/Shapes.cs:288-293 | FillPolygon(vertex) throws, changing nothing, exactly when triangulation fails; fewer than 3 vertices always fail. Otherwise every pending index stays in range |
| ShapeBatch.DrawLineSpecCases | Lite/Graphics/Shapes.cs:306-352 | DrawLine throws NotStarted on an unstarted batch, and otherwise ZeroLengthLine exactly when its ends coincide; the shape is counted either way. A drawn line adds one quad |
| ShapeBatch.DrawLinesKeepFits | Lite/Graphics/Shapes.cs:181-184 | Lines drawn one after another keep the batch within its buffers and every index in range |
| ShapeBatch.DrawLinesStopAtFailure | Lite/Graphics/Shapes.cs:297-303 | After a line throws, no later line is drawn |
| ShapeBatch.DrawPolygonEnds | Lite/Graphics/Shapes.cs:295-304 | DrawPolygon is the closed outline's lines drawn in order, up to the first that throws |
| ShapeBatch.BeginStarts | Lite/Graphics/Shapes.cs:83-108 | Begin fails (AlreadyStarted) exactly on a started batch, and otherwise only sets started |
| ShapeBatch.EndFlushes | Lite/Graphics/Shapes.cs:132-138 | End fails unless started. Otherwise it draws what is pending, losing no index, and leaves an empty batch with started = false |
| ShapeBatch.Shapes.constructor | Lite/Graphics/Shapes.cs:26-47 | A new batch with a 3072-index buffer, counters at zero, not started |
| ShapeBatch.Shapes.EnsureStarted | Lite/Graphics/Shapes.cs:49-55 | Throws NotStarted exactly when Begin was not called |
| ShapeBatch.Shapes.Flush | Lite/Graphics/Shapes.cs:110-130 | The batch after the call is FlushSpec of the batch before it |
| ShapeBatch.Shapes.EnsureSpace | Lite/Graphics/Shapes.cs:57-74 | The state and outcome are EnsureSpaceSpec of the state before |
| ShapeBatch.Shapes.EnsureAddShape | Lite/Graphics/Shapes.cs:76-81 | The state and outcome are AddShapeSpec of the state before |
| ShapeBatch.Shapes.Begin | Lite/Graphics/Shapes.cs:83-108 | The state and outcome are BeginSpec of the state before |
| ShapeBatch.Shapes.End | Lite/Graphics/Shapes.cs:132-138 | The state and outcome are EndSpec of the state before |
| ShapeBatch.Shapes.PushTriangle | Lite/Graphics/Shapes.cs:152-157 | Three indices written at the end of the buffer's used part |
| ShapeBatch.Shapes.FillRectangle | Lite/Graphics/Shapes.cs:140-163 | The state and outcome are FillRectangleSpec of the state before |
| ShapeBatch.Shapes.AppendFan | Lite/Graphics/Shapes.cs:203-211 | The fan loop appends the fan's indices shifted by the vertex count |
| ShapeBatch.Shapes.FillCircle | Lite/Graphics/Shapes.cs:192-232 | The state and outcome are FillCircleSpec of the state before |
| ShapeBatch.Shapes.AppendIndices | Lite/Graphics/Shapes.cs:277-280 | The index loop appends the polygon's indices shifted by the vertex count |
| ShapeBatch.Shapes.FillPolygon | Lite/Graphics/Shapes.cs:273-286 | The state and outcome are FillPolygonSpec of the state before |
| ShapeBatch.Shapes.FillPolygonTriangulated | Lite/Graphics/Shapes.cs:288-293 | The state and outcome are FillPolygonTriangulatedSpec of the state before |
| ShapeBatch.Shapes.DrawLine | Lite/Graphics/Shapes.cs:306-352 | The state and outcome are DrawLineSpec of the state before |
| ShapeBatch.Shapes.DrawRectangle | Lite/Graphics/Shapes.cs:170-185 | A shape counted on its own, then its four edges as lines |
| ShapeBatch.Shapes.DrawPolygon | Lite/Graphics/Shapes.cs:295-304 | The state and outcome are DrawPolygonSpec of the state before |
| Animations.SetFrame | Lite/Graphics/Animation.cs:46-65 | The frame setter: wrap or cap the value, then place it on the grid; or DivideByZero (SetFrameFailsOnlyOnDegenerateGrids, SetFrameWrapsWhenLooping, SetFrameStopsWhenNotLooping, SetFrameGridPosition) |
| Animations.UpdateSpec | Lite/Graphics/Animation.cs:120-129 | Accumulates the elapsed time and advances one frame once it exceeds frameElapsedTime (UpdateAdvancesOrAccumulates, LoopingAnimationCycles, NonLoopingAnimationStops) |
| Animations.SetFrameFailsOnlyOnDegenerateGrids | Lite/Graphics/Animation.cs:49-64 | The frame setter throws DivideByZeroException exactly when a column or row count is 0, or when looping with numberOfFrames = 0 |
| Animations.SetFrameWrapsWhenLooping | Lite/Graphics/Animation.cs:53-56 | When looping, the stored frame is C#'s value % numberOfFrames, with numberOfFrames = X + Y. It coincides with the mathematical modulus for non-negative values |
| Animations.SetFrameStopsWhenNotLooping | Lite/Graphics/Animation.cs:57-60 | When not looping, a value ≥ numberOfFrames becomes numberOfFrames − 1 and any other is kept |
| Animations.SetFrameGridPosition | Lite/Graphics/Animation.cs:62-63 | For a non-negative frame, frameX is the frame's column modulo numberOfFramesX. frameY is the frame divided by numberOfFramesY, as written |
| Animations.LoopingAnimationCycles | Lite/Graphics/Animation.cs:53-56 | k advances of a looping animation from a non-negative frame give (frame + k) mod numberOfFrames |
| Animations.NonLoopingAnimationStops | Lite/Graphics/Animation.cs:57-60 | k advances of a non-looping animation stop at the last frame |
| Animations.UpdateAdvancesOrAccumulates | Lite/Graphics/Animation.cs:120-129 | Once the accumulated time exceeds frameElapsedTime, the frame advances by one and the time restarts at 0. Otherwise it only accumulates |
| Animations.Animation.constructor | Lite/Graphics/Animation.cs:88-115 | Stores the parameters, and the clock starts at 0 on SetFrame(startFrame) |
| Animations.Animation.SetCurrentFrame | Lite/Graphics/Animation.cs:46-65 | The cursor after the call is SetFrame of the value |
| Animations.Animation.Bounds | Lite/Graphics/Animation.cs:70-74 | The rectangle is one frame in size. For a non-negative frame its left edge lies among the numberOfFramesX columns that start at the offset |
| Animations.Animation.Update | Lite/Graphics/Animation.cs:120-129 | The clock after the call is UpdateSpec of the clock before |
| Screens.LetterboxOf | Lite/Graphics/Screen.cs:28-45 | The three branches on the two aspect ratios, before the casts (LetterboxCases, LetterboxFitsBackbuffer) |
| Screens.LetterboxFitsBackbuffer | Lite/Graphics/Screen.cs:25-45 | On positive sizes the letterbox lies inside the backbuffer and is centred in it. It fills one axis and has the screen's aspect ratio |
| Screens.LetterboxCases | Lite/Graphics/Screen.cs:31-45 | Equal aspects give the whole backbuffer. A wider screen keeps x = 0 and the width, with height = width / aspect and a vertical centring margin. A narrower one keeps y = 0 and the height, with width = height·aspect and a horizontal margin |
| Screens.Screen.constructor | Lite/Graphics/Screen.cs:18-23 | Stores the width and height unchanged |
| Screens.Screen.CalculateDestinationRectangle | Lite/Graphics/Screen.cs:25-49 | The truncated letterbox: the whole backbuffer at (0, 0) for equal aspects, and on positive sizes a rectangle inside the backbuffer |
| Cameras.ClampScale | Lite/Graphics/Camera.cs:41-45 | The stored scale always lies in [1, 64], and a scale inside is kept |
| Cameras.ZFromHeight | Lite/Graphics/Camera.cs:77-80 | The distance (height / 2) / tan(fov / 2) at which that height is visible (HeightAndZAreInverse) |
| Cameras.HeightFromZ | Lite/Graphics/Camera.cs:82-85 | The visible height 2·z·tan(fov / 2), the inverse of ZFromHeight (HeightAndZAreInverse, ScaledDistanceScalesHeight) |
| Cameras.HeightAndZAreInverse | Lite/Graphics/Camera.cs:77-85 | GetZFromHeight and GetHeightFromZ are inverse to each other when tan(fov/2) ≠ 0 |
| Cameras.ScaledDistanceScalesHeight | Lite/Graphics/Camera.cs:125-129 | At distance baseZ·(1/scale), the camera sees the screen height divided by the scale |
| Cameras.Camera.constructor | Lite/Graphics/Camera.cs:53-69 | Position 0, rotation 0, scale 1, field of view π/2 and the screen's aspect ratio. z = baseZ, at which the whole screen height is visible |
| Cameras.Camera.StoreScale | Lite/Graphics/Camera.cs:44 | The Scale setter stores the clamped value |
| Cameras.Camera.StoreRotation | Lite/Graphics/Camera.cs:50 | The Rotation setter stores value % 2π, which lies strictly within one turn |
| Cameras.Camera.SetZ | Lite/Graphics/Camera.cs:92-103 | A distance outside [1, 4096] is ignored; any other is stored |
| Cameras.Camera.Move | Lite/Graphics/Camera.cs:105-108 | Adds the amount to the position |
| Cameras.Camera.MoveTo | Lite/Graphics/Camera.cs:110-113 | Replaces the position |
| Cameras.Camera.SetRotation | Lite/Graphics/Camera.cs:115-118 | The rotation becomes value % 2π |
| Cameras.Camera.AddRotation | Lite/Graphics/Camera.cs:120-123 | The rotation becomes (rotation + value) % 2π |
| Cameras.Camera.SetScale | Lite/Graphics/Camera.cs:125-129 | The scale is the clamped value, z == baseZ/scale, and the visible height is the screen height divided by the scale |
| Cameras.Camera.IncScale | Lite/Graphics/Camera.cs:131-135 | The same after scale + 1, so the scale stays in [1, 64] |
| Cameras.Camera.DecScale | Lite/Graphics/Camera.cs:137-141 | The same after scale − 1 |
| Cameras.Camera.GetExtents | Lite/Graphics/Camera.cs:143-147 | height is the visible height and width == height·aspectRatio. At z = baseZ/scale they are the screen size divided by the scale |
| Cameras.Camera.GetEdges | Lite/Graphics/Camera.cs:149-157 | right − left == width and bottom − top == height, centred on the position |
| Cameras.Camera.GetCorners | Lite/Graphics/Camera.cs:159-165 | min = (left, bottom) and max = (right, top): the same extents, centred on the position |

## Left out

- Single-precision rounding, infinities and NaN are not modelled: every float is an exact real. Where the source would divide by zero and continue with an infinity or NaN, the model requires a non-zero divisor instead:
  - PointSegmentDistance on a degenerate segment (a ≠ b);
  - the body constructor's 1/mass for a dynamic body of zero mass, which the factories cannot produce;
  - `LiteBody.Step` with zero iterations;
  - the camera's division by tan(fov/2) in `ZFromHeight`;
  - a zero screen height in `Camera` and `Screen` (`FiniteLetterbox`);
  - `Screens.Aspect`.
- Collisions.PointSegmentDistanceIsMinimal and the other closest-point lemmas assume a ≠ b, because the source divides by the squared segment length.
- Collisions.FindContactPointsSpec and CirclePolygonContact require polygons without degenerate edges (`ProperPolygon`). `BoxWorldVerticesAreProper` proves that every box body of non-zero size satisfies this.
- Collisions.FindContactPointsOfBoxes states "at least one contact" only when some candidate is at least half a millimetre below float.MaxValue, because over unbounded reals a distance can exceed float.MaxValue. The source's "zero only for an empty polygon" follows for any realistic coordinates.
- Collisions.Collide and Collisions.FindContactPoints require that two different bodies do not share one vertex cache array (`SeparateCaches`). The factories always allocate a fresh one.
- LiteBodies.LiteBody.GetTransformedVertices is modelled for boxes only. On a circle the source dereferences a null vertex array and throws; the collision code never calls it for circles.
- Utils.Triangulate returns `NoEar` when a pass finds no ear, where the source loops forever. A polygon without an ear is not a valid input of the source.
- Animations.Animation.constructor requires a grid on which the frame setter does not divide by zero; the C# constructor throws DivideByZeroException there. `SetFrame` models that error itself.
- Cameras.Camera.constructor requires a non-zero screen height and tan(π/4) ≠ 0, because the square-root and tangent functions are uninterpreted.
- The `Screen`'s `Game` reference is not modelled. `CalculateDestinationRectangle` takes the backbuffer width and height as parameters.
- The GPU side of `Shapes` is not modelled: the `BasicEffect` set-up and `DrawUserIndexedPrimitives`. `Flush` records the drawn call as a `Batch` value (vertex count, triangle count, indices) instead.
- The vertices `Shapes` writes are not modelled: positions and colours computed with sine and cosine, and line thickness. Only the vertex count and the index buffer are.
  - The camera passed to `Begin` only changes matrices and line thickness, so it is not modelled either.
  - `DrawCircle` and the `Rectangle`/`Vector2` overloads are not modelled. They forward to `DrawLine`, `FillRectangle`, `DrawRectangle` and `FillCircle`, which are.
- The int arithmetic of `Shapes` is unbounded. `FillPolygon` with indices near int.MaxValue would wrap in C#.
- The int arithmetic of `Animation` is unbounded: `numberOfFramesX + numberOfFramesY`, `CurrentFrame++`, and the bounds' `frameWidth * frameX` and `frameHeight * frameY` would wrap in C# near int.MaxValue.
- The `(int)` casts in `Screen.CalculateDestinationRectangle` are `Truncate` on unbounded values. C# leaves a cast of a float outside the int range unspecified; the model does not capture that case.
- Utils.Triangulate sizes its index array as (n − 2)·3 in unbounded ints. C# would overflow for more than about 715 million vertices.
- The C# `Animation` is a struct, copied on assignment, and is modelled as a Dafny class with reference semantics. The model does not capture that a copy is updated independently of the original.
- `Camera.UpdateMatrices` and the `View`/`Projection` matrices are not modelled; they are XNA matrix construction.
- `LiteManifold`, `LiteEntity`, `LitePhysicsDemo`, the game in `LiteGame/Game1.cs`, and the world pipeline that the demo calls are not part of this model. The demo calls `world.Step`, `RemoveBody` and `BodyCount`, which do not exist in `LiteWorld.cs`.
- `KeyboardHelper`, `MouseHelper` and `RandomHelper` are not part of this model. They poll global input state or a global random generator.
- Some quirks of the source are modelled as written and not corrected:
  - the circle area is radius·PI;
  - the vertex axis of IntersectCirclePolygon stays unnormalised;
  - numberOfFrames is X + Y;
  - frameY divides by numberOfFramesY;
  - GetAABB clears its flag outside the recompute branch;
  - AddForce replaces the force instead of adding to it.
