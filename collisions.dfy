/** Collision detection: bounding-box and circle overlap, the separating-axis
    test for polygon/polygon and circle/polygon pairs, the closest-point helpers
    and the contact-point search, and the dispatch on the shapes of two bodies. */
module Collisions {
  import opened Primitives
  import opened Results
  import opened LiteVectors
  import opened LiteMath
  import opened LiteAABBs
  import opened LiteBodies
  import LiteTransforms

  // ---------------------------------------------------------------------------
  // Closest point on a segment

  /** The squared distance from a point to a segment and the point of the
      segment that realises it. */
  datatype Closest = Closest(distanceSquared: real, cp: LiteVector)

  /** For a != b the squared length of b - a is positive. */
  lemma SegmentHasLength(a: LiteVector, b: LiteVector)
    requires a != b
    ensures LengthSquared(Sub(b, a)) > 0.0
  {
    var ab := Sub(b, a);
    SumOfSquaresIsZero(ab.x, ab.y);
  }

  /** The position of p's projection along a -> b, in units of the segment. */
  function SegmentParameter(p: LiteVector, a: LiteVector, b: LiteVector): real
    requires a != b
  {
    SegmentHasLength(a, b);
    Dot(Sub(b, a), Sub(p, a)) / LengthSquared(Sub(b, a))
  }

  /** PointSegmentDistance: the end a when the projection falls before the
      segment, the end b when it falls at or after its end, and the foot of the
      perpendicular otherwise; with the squared distance to that point. A
      degenerate segment (a == b) divides zero by zero in the source and is
      excluded. */
  function PointSegmentDistance(p: LiteVector, a: LiteVector, b: LiteVector): (r: Closest)
    requires a != b
    ensures r.distanceSquared == DistanceSquared(p, r.cp)
  {
    var ab := Sub(b, a);
    var d := SegmentParameter(p, a, b);
    var cp := if d < 0.0 then a else if d >= 1.0 then b else Add(a, Mul(ab, d));
    Closest(DistanceSquared(p, cp), cp)
  }

  /** The closest point is the point of the segment at the clamped parameter,
      and strictly inside the segment the offset from it to p is perpendicular
      to the segment. */
  lemma PointSegmentDistanceClamps(p: LiteVector, a: LiteVector, b: LiteVector)
    requires a != b
    ensures PointSegmentDistance(p, a, b).cp == Add(a, Mul(Sub(b, a), Clamp(SegmentParameter(p, a, b), 0.0, 1.0)))
    ensures 0.0 <= SegmentParameter(p, a, b) < 1.0 ==>
      Dot(Sub(b, a), Sub(p, PointSegmentDistance(p, a, b).cp)) == 0.0
  {
    var ab, ap := Sub(b, a), Sub(p, a);
    var d := SegmentParameter(p, a, b);
    var l := LengthSquared(ab);
    SegmentHasLength(a, b);
    var cp := PointSegmentDistance(p, a, b).cp;
    if d < 0.0 {
      assert Mul(ab, 0.0) == Zero;
    } else if d >= 1.0 {
      assert Mul(ab, 1.0) == ab;
    } else {
      QuotientTimes(Dot(ab, ap), l);
      calc {
        Dot(ab, Sub(p, cp));
      ==
        ab.x * (ap.x - ab.x * d) + ab.y * (ap.y - ab.y * d);
      ==
        Dot(ab, ap) - d * l;
      ==
        0.0;
      }
    }
  }

  lemma SquaresOfDifferences(u: real, v: real, w: real, z: real, t: real, sq: real, pr: real, l: real)
    requires sq == u * u + w * w && pr == v * u + z * w && l == v * v + z * z
    ensures (u - v * t) * (u - v * t) + (w - z * t) * (w - z * t) == sq - 2.0 * t * pr + t * t * l
  {
  }

  /** The squared distance from p to the point of the segment at parameter t,
      as a quadratic in t. */
  lemma DistanceAlongSegment(p: LiteVector, a: LiteVector, b: LiteVector, t: real)
    ensures DistanceSquared(p, Add(a, Mul(Sub(b, a), t))) ==
      LengthSquared(Sub(p, a)) - 2.0 * t * Dot(Sub(b, a), Sub(p, a)) + t * t * LengthSquared(Sub(b, a))
  {
    var ab, ap := Sub(b, a), Sub(p, a);
    OffsetAlongSegment(p, a, b, t);
    SquaresOfDifferences(ap.x, ab.x, ap.y, ab.y, t, LengthSquared(ap), Dot(ab, ap), LengthSquared(ab));
  }

  lemma OffsetAlongSegment(p: LiteVector, a: LiteVector, b: LiteVector, t: real)
    ensures DistanceSquared(p, Add(a, Mul(Sub(b, a), t))) ==
      (Sub(p, a).x - Sub(b, a).x * t) * (Sub(p, a).x - Sub(b, a).x * t) +
      (Sub(p, a).y - Sub(b, a).y * t) * (Sub(p, a).y - Sub(b, a).y * t)
  {
    var ab, ap := Sub(b, a), Sub(p, a);
    var q := Add(a, Mul(ab, t));
    assert p.x - q.x == ap.x - ab.x * t && p.y - q.y == ap.y - ab.y * t;
  }

  /** The quadratic sq - 2 t pr + t^2 l with l > 0 and pr < 0 is smallest at t = 0 on t >= 0. */
  lemma QuadraticBeforeStart(sq: real, pr: real, l: real, t: real)
    requires l > 0.0 && pr < 0.0 && t >= 0.0
    ensures sq - 2.0 * t * pr + t * t * l >= sq
  {
    ProductSign(t, -pr);
    ProductSign(t, t);
    ProductSign(t * t, l);
  }

  /** With pr = d l, d >= 1 and l > 0 the quadratic is smallest at t = 1 on [0, 1]. */
  lemma QuadraticAfterEnd(sq: real, pr: real, l: real, t: real, d: real)
    requires l > 0.0 && pr == d * l && d >= 1.0 && 0.0 <= t <= 1.0
    ensures sq - 2.0 * t * pr + t * t * l >= sq - 2.0 * pr + l
  {
    ProductSign(d - 1.0, l);
    ProductSign(1.0 - t, l);
    calc {
      2.0 * pr - (t + 1.0) * l;
    ==
      2.0 * ((d - 1.0) * l) + (1.0 - t) * l;
    >=
      0.0;
    }
    calc {
      (sq - 2.0 * t * pr + t * t * l) - (sq - 2.0 * pr + l);
    ==
      (1.0 - t) * (2.0 * pr - (t + 1.0) * l);
    >= { ProductSign(1.0 - t, 2.0 * pr - (t + 1.0) * l); }
      0.0;
    }
  }

  /** With pr = d l and l > 0 the quadratic is smallest at t = d. */
  lemma QuadraticAtFoot(sq: real, pr: real, l: real, t: real, d: real)
    requires l > 0.0 && pr == d * l
    ensures sq - 2.0 * t * pr + t * t * l >= sq - 2.0 * d * pr + d * d * l
  {
    calc {
      (sq - 2.0 * t * pr + t * t * l) - (sq - 2.0 * d * pr + d * d * l);
    ==
      l * ((t - d) * (t - d));
    >= { ProductSign(t - d, t - d); ProductSign(l, (t - d) * (t - d)); }
      0.0;
    }
  }

  /** The point PointSegmentDistance picks is a closest point of the segment:
      no point a + (b - a) * t with 0 <= t <= 1 is nearer to p. */
  lemma PointSegmentDistanceIsMinimal(p: LiteVector, a: LiteVector, b: LiteVector, t: real)
    requires a != b && 0.0 <= t <= 1.0
    ensures PointSegmentDistance(p, a, b).distanceSquared <= DistanceSquared(p, Add(a, Mul(Sub(b, a), t)))
  {
    var d := SegmentParameter(p, a, b);
    if d < 0.0 {
      MinimalBeforeStart(p, a, b, t);
    } else if d >= 1.0 {
      MinimalAfterEnd(p, a, b, t);
    } else {
      MinimalAtFoot(p, a, b, t);
    }
  }

  lemma MinimalBeforeStart(p: LiteVector, a: LiteVector, b: LiteVector, t: real)
    requires a != b && 0.0 <= t <= 1.0 && SegmentParameter(p, a, b) < 0.0
    ensures PointSegmentDistance(p, a, b).distanceSquared <= DistanceSquared(p, Add(a, Mul(Sub(b, a), t)))
  {
    var ab, ap := Sub(b, a), Sub(p, a);
    var l, pr := LengthSquared(ab), Dot(ab, ap);
    SegmentHasLength(a, b);
    QuotientSign(pr, l);
    assert PointSegmentDistance(p, a, b).distanceSquared == LengthSquared(ap);
    DistanceAlongSegment(p, a, b, t);
    QuadraticBeforeStart(LengthSquared(ap), pr, l, t);
  }

  lemma MinimalAfterEnd(p: LiteVector, a: LiteVector, b: LiteVector, t: real)
    requires a != b && 0.0 <= t <= 1.0 && SegmentParameter(p, a, b) >= 1.0
    ensures PointSegmentDistance(p, a, b).distanceSquared <= DistanceSquared(p, Add(a, Mul(Sub(b, a), t)))
  {
    var ab, ap := Sub(b, a), Sub(p, a);
    var l, pr := LengthSquared(ab), Dot(ab, ap);
    var d := SegmentParameter(p, a, b);
    SegmentHasLength(a, b);
    QuotientTimes(pr, l);
    assert Add(a, Mul(ab, 1.0)) == b;
    calc {
      PointSegmentDistance(p, a, b).distanceSquared;
    ==
      DistanceSquared(p, Add(a, Mul(ab, 1.0)));
    == { DistanceAlongSegment(p, a, b, 1.0); }
      LengthSquared(ap) - 2.0 * 1.0 * pr + 1.0 * 1.0 * l;
    ==
      LengthSquared(ap) - 2.0 * pr + l;
    <= { QuadraticAfterEnd(LengthSquared(ap), pr, l, t, d); }
      LengthSquared(ap) - 2.0 * t * pr + t * t * l;
    == { DistanceAlongSegment(p, a, b, t); }
      DistanceSquared(p, Add(a, Mul(ab, t)));
    }
  }

  lemma MinimalAtFoot(p: LiteVector, a: LiteVector, b: LiteVector, t: real)
    requires a != b && 0.0 <= SegmentParameter(p, a, b) < 1.0
    ensures PointSegmentDistance(p, a, b).distanceSquared <= DistanceSquared(p, Add(a, Mul(Sub(b, a), t)))
  {
    var ab, ap := Sub(b, a), Sub(p, a);
    var l, pr := LengthSquared(ab), Dot(ab, ap);
    var d := SegmentParameter(p, a, b);
    SegmentHasLength(a, b);
    QuotientTimes(pr, l);
    calc {
      PointSegmentDistance(p, a, b).distanceSquared;
    ==
      DistanceSquared(p, Add(a, Mul(ab, d)));
    == { DistanceAlongSegment(p, a, b, d); }
      LengthSquared(ap) - 2.0 * d * pr + d * d * l;
    <= { QuadraticAtFoot(LengthSquared(ap), pr, l, t, d); }
      LengthSquared(ap) - 2.0 * t * pr + t * t * l;
    == { DistanceAlongSegment(p, a, b, t); }
      DistanceSquared(p, Add(a, Mul(ab, t)));
    }
  }

  // ---------------------------------------------------------------------------
  // Bounding boxes and circles

  /** IntersectAABB: strict overlap on both axes; boxes that only touch do not intersect. */
  predicate IntersectAABB(a: LiteAABB, b: LiteAABB) {
    if a.max.x <= b.min.x || b.max.x <= a.min.x then false
    else if a.max.y <= b.min.y || b.max.y <= a.min.y then false
    else true
  }

  /** The point lies strictly inside the box. */
  predicate StrictlyInside(box: LiteAABB, p: LiteVector) {
    box.min.x < p.x < box.max.x && box.min.y < p.y < box.max.y
  }

  /** The test is symmetric, and boxes that share only an edge do not intersect. */
  lemma IntersectAABBIsSymmetricAndStrict(a: LiteAABB, b: LiteAABB)
    ensures IntersectAABB(a, b) == IntersectAABB(b, a)
    ensures a.max.x == b.min.x || a.max.y == b.min.y ==> !IntersectAABB(a, b)
  {
  }

  /** The box has a non-empty interior. */
  predicate Proper(box: LiteAABB) {
    box.min.x < box.max.x && box.min.y < box.max.y
  }

  /** Two boxes with non-empty interiors intersect exactly when some point lies
      strictly inside both. */
  lemma IntersectAABBMeansCommonInterior(a: LiteAABB, b: LiteAABB)
    requires Proper(a) && Proper(b)
    ensures IntersectAABB(a, b) <==> exists p :: StrictlyInside(a, p) && StrictlyInside(b, p)
  {
    if IntersectAABB(a, b) {
      var lx := if a.min.x < b.min.x then b.min.x else a.min.x;
      var hx := if a.max.x < b.max.x then a.max.x else b.max.x;
      var ly := if a.min.y < b.min.y then b.min.y else a.min.y;
      var hy := if a.max.y < b.max.y then a.max.y else b.max.y;
      var p := LiteVector((lx + hx) / 2.0, (ly + hy) / 2.0);
      assert StrictlyInside(a, p) && StrictlyInside(b, p);
    }
  }

  /** The outcome of an overlap test: whether the shapes intersect, and the
      values left in the normal and depth out-parameters. */
  datatype Intersection = Intersection(hit: bool, normal: LiteVector, depth: real)

  /** IntersectCircles: no hit when the centres are at least the sum of the
      radii apart; otherwise the normal from A towards B and the overlap depth. */
  function IntersectCircles(centerA: LiteVector, radiusA: real, centerB: LiteVector, radiusB: real): Intersection {
    var distance := Distance(centerA, centerB);
    var radii := radiusA + radiusB;
    if distance >= radii then Intersection(false, Zero, 0.0)
    else Intersection(true, Normalize(Sub(centerB, centerA)), radii - distance)
  }

  /** With a lawful square root: two circles hit exactly when the squared
      distance of their centres is below the squared (positive) sum of radii;
      a hit has positive depth radii - distance, and a miss leaves a zero normal
      and depth. When the centres are not nearly equal the normal is a unit
      vector pointing from A to B. */
  lemma IntersectCirclesSpec(centerA: LiteVector, radiusA: real, centerB: LiteVector, radiusB: real)
    requires SqrtLaws()
    ensures var r := IntersectCircles(centerA, radiusA, centerB, radiusB);
      var radii := radiusA + radiusB;
      (r.hit <==> radii > 0.0 && DistanceSquared(centerA, centerB) < radii * radii) &&
      (r.hit ==> r.depth > 0.0 && r.depth + Distance(centerA, centerB) == radii) &&
      (!r.hit ==> r.normal == Zero && r.depth == 0.0) &&
      (r.hit && !NearlyEqual(Distance(centerA, centerB), 0.0) ==>
        LengthSquared(r.normal) == 1.0 && Dot(r.normal, Sub(centerB, centerA)) > 0.0)
  {
    var d := Distance(centerA, centerB);
    var radii := radiusA + radiusB;
    assert d >= 0.0 && d * d == DistanceSquared(centerA, centerB);
    if radii > 0.0 {
      SquareMonotone(d, radii);
    }
    DistanceSquaredIsSymmetric(centerA, centerB);
    assert LengthSquared(Sub(centerB, centerA)) == DistanceSquared(centerA, centerB);
    assert Length(Sub(centerB, centerA)) == d;
    if d < radii && !NearlyEqual(d, 0.0) {
      NormalizeGivesUnitVector(Sub(centerB, centerA));
    }
  }

  /** FindCirclesContactPoint: the point of circle A in the direction of B. */
  function CirclesContactPoint(centerA: LiteVector, radiusA: real, centerB: LiteVector): LiteVector {
    Add(centerA, Mul(Normalize(Sub(centerB, centerA)), radiusA))
  }

  /** With a lawful square root and centres not nearly equal, the contact point
      lies on circle A, on the line through both centres, on B's side for a
      non-negative radius. */
  lemma CirclesContactPointSpec(centerA: LiteVector, radiusA: real, centerB: LiteVector)
    requires SqrtLaws() && !NearlyEqual(Length(Sub(centerB, centerA)), 0.0)
    ensures DistanceSquared(CirclesContactPoint(centerA, radiusA, centerB), centerA) == radiusA * radiusA
    ensures Cross(Sub(CirclesContactPoint(centerA, radiusA, centerB), centerA), Sub(centerB, centerA)) == 0.0
    ensures radiusA >= 0.0 ==> Dot(Sub(CirclesContactPoint(centerA, radiusA, centerB), centerA), Sub(centerB, centerA)) >= 0.0
  {
    var ab := Sub(centerB, centerA);
    var n := Normalize(ab);
    NormalizeGivesUnitVector(ab);
    var off := Sub(CirclesContactPoint(centerA, radiusA, centerB), centerA);
    assert off == Mul(n, radiusA);
    calc {
      DistanceSquared(CirclesContactPoint(centerA, radiusA, centerB), centerA);
    ==
      (n.x * radiusA) * (n.x * radiusA) + (n.y * radiusA) * (n.y * radiusA);
    ==
      (n.x * n.x + n.y * n.y) * (radiusA * radiusA);
    ==
      radiusA * radiusA;
    }
    calc {
      Cross(off, ab);
    ==
      radiusA * Cross(n, ab);
    ==
      0.0;
    }
    calc {
      Dot(off, ab);
    ==
      radiusA * Dot(n, ab);
    }
    if radiusA >= 0.0 {
      ProductSign(radiusA, Dot(n, ab));
    }
  }

  // ---------------------------------------------------------------------------
  // Projections

  /** A projection interval [min, max] on an axis. */
  datatype Interval = Interval(min: real, max: real)

  /** The projections Dot(v, axis) of the vertices. */
  function Projections(vs: seq<LiteVector>, axis: LiteVector): (r: seq<real>)
    ensures |r| == |vs| && forall i :: 0 <= i < |vs| ==> r[i] == Dot(vs[i], axis)
  {
    seq(|vs|, i requires 0 <= i < |vs| => Dot(vs[i], axis))
  }

  /** What ProjectVertices computes: the running minimum and maximum of the
      projections, seeded with float.MaxValue and float.MinValue. */
  function Projection(vs: seq<LiteVector>, axis: LiteVector): Interval {
    Interval(RunningMin(Projections(vs, axis)), RunningMax(Projections(vs, axis)))
  }

  /** Every vertex projects into the interval, and for a non-empty polygon whose
      projections are within float range both ends are attained. */
  lemma ProjectionSpec(vs: seq<LiteVector>, axis: LiteVector)
    ensures forall i :: 0 <= i < |vs| ==>
      Projection(vs, axis).min <= Dot(vs[i], axis) <= Projection(vs, axis).max
    ensures |vs| > 0 && InFloatRange(Projections(vs, axis)) ==>
      (exists i :: 0 <= i < |vs| && Projection(vs, axis).min == Dot(vs[i], axis)) &&
      (exists j :: 0 <= j < |vs| && Projection(vs, axis).max == Dot(vs[j], axis))
  {
    var ps := Projections(vs, axis);
    forall i | 0 <= i < |vs|
      ensures Projection(vs, axis).min <= Dot(vs[i], axis) <= Projection(vs, axis).max
    {
      assert ps[i] == Dot(vs[i], axis);
    }
    if |vs| > 0 && InFloatRange(ps) {
      RunningBoundsAttained(ps);
    }
  }

  /** ProjectVertices. */
  method ProjectVertices(vertices: array<LiteVector>, axis: LiteVector) returns (min: real, max: real)
    ensures Interval(min, max) == Projection(vertices[..], axis)
  {
    min := FloatMax;
    max := FloatMin;
    ghost var ps := Projections(vertices[..], axis);
    var i := 0;
    while i < vertices.Length
      invariant 0 <= i <= vertices.Length
      invariant min == RunningMin(ps[..i]) && max == RunningMax(ps[..i])
    {
      var v := vertices[i];
      var proj := Dot(v, axis);
      RunningStep(ps, i);
      if proj < min { min := proj; }
      if proj > max { max := proj; }
      i := i + 1;
    }
    assert ps[..i] == ps;
  }

  /** ProjectCircle: the projections of the two points at distance radius from
      the centre along the normalised axis, ordered. */
  function ProjectCircle(center: LiteVector, radius: real, axis: LiteVector): Interval {
    var directionRadius := Mul(Normalize(axis), radius);
    var p1 := Add(center, directionRadius);
    var p2 := Sub(center, directionRadius);
    var min := Dot(p1, axis);
    var max := Dot(p2, axis);
    if min > max then Interval(max, min) else Interval(min, max)
  }

  /** The circle's interval is ordered, centred on the projection of the centre,
      and spans twice |radius * Dot(Normalize(axis), axis)|. */
  lemma ProjectCircleSpec(center: LiteVector, radius: real, axis: LiteVector)
    ensures ProjectCircle(center, radius, axis).min <= ProjectCircle(center, radius, axis).max
    ensures ProjectCircle(center, radius, axis).min + ProjectCircle(center, radius, axis).max == 2.0 * Dot(center, axis)
    ensures ProjectCircle(center, radius, axis).max - ProjectCircle(center, radius, axis).min ==
      2.0 * Abs(Dot(Mul(Normalize(axis), radius), axis))
  {
    var dr := Mul(Normalize(axis), radius);
    DotIsLinear(center, dr, axis, 1.0);
    assert Dot(Add(center, dr), axis) == Dot(center, axis) + Dot(dr, axis);
    assert Dot(Sub(center, dr), axis) == Dot(center, axis) - Dot(dr, axis);
  }

  // ---------------------------------------------------------------------------
  // The separating-axis test

  /** The axis of edge i: the edge from vertex i to vertex i + 1 (wrapping),
      turned a quarter and normalised. */
  function EdgeAxis(vs: seq<LiteVector>, i: int): LiteVector
    requires 0 <= i < |vs|
  {
    var edge := Sub(vs[(i + 1) % |vs|], vs[i]);
    Normalize(LiteVector(edge.y, -edge.x))
  }

  /** The shape projected against the polygon on each axis. */
  datatype Rival = RivalPolygon(vertices: seq<LiteVector>) | RivalCircle(center: LiteVector, radius: real)

  function ProjectRival(r: Rival, axis: LiteVector): Interval {
    match r
    case RivalPolygon(vs) => Projection(vs, axis)
    case RivalCircle(c, radius) => ProjectCircle(c, radius, axis)
  }

  /** The two projections leave a gap (touching counts as a gap). */
  predicate Separates(a: Interval, b: Interval) {
    a.min >= b.max || b.min >= a.max
  }

  /** The overlap of two intervals on one axis. */
  function AxisDepth(a: Interval, b: Interval): real {
    Min(b.max - a.min, a.max - b.min)
  }

  /** One axis of the test with the two projections on it. */
  datatype AxisTest = AxisTest(axis: LiteVector, a: Interval, b: Interval)

  predicate Gap(t: AxisTest) {
    Separates(t.a, t.b)
  }

  function Overlap(t: AxisTest): real {
    AxisDepth(t.a, t.b)
  }

  /** The polygon vs and the rival projected on the axis of edge i of `edges`. */
  function EdgeTest(edges: seq<LiteVector>, i: int, vs: seq<LiteVector>, rival: Rival): AxisTest
    requires 0 <= i < |edges|
  {
    var axis := EdgeAxis(edges, i);
    AxisTest(axis, Projection(vs, axis), ProjectRival(rival, axis))
  }

  /** The tests on every edge axis of `edges`, in order. */
  function EdgeTests(edges: seq<LiteVector>, vs: seq<LiteVector>, rival: Rival): (r: seq<AxisTest>)
    ensures |r| == |edges| && forall i :: 0 <= i < |edges| ==> r[i] == EdgeTest(edges, i, vs, rival)
  {
    seq(|edges|, i requires 0 <= i < |edges| => EdgeTest(edges, i, vs, rival))
  }

  /** The state of the axis loop: whether an axis separated the shapes (the
      source returns at once), and the best normal and least depth so far. */
  datatype SatState = SatState(separated: bool, normal: LiteVector, depth: real)

  const SatStart: SatState := SatState(false, Zero, FloatMax)

  /** One axis: a gap ends the test; otherwise a smaller overlap becomes the
      new depth and normal. */
  function SatStep(st: SatState, t: AxisTest): SatState {
    if st.separated then st
    else if Gap(t) then SatState(true, st.normal, st.depth)
    else if Overlap(t) < st.depth then SatState(false, t.axis, Overlap(t))
    else st
  }

  /** The loop over the first i tests. */
  function SatAxes(st: SatState, tests: seq<AxisTest>, i: int): SatState
    requires 0 <= i <= |tests|
  {
    if i == 0 then st else SatStep(SatAxes(st, tests, i - 1), tests[i - 1])
  }

  /** What the loop establishes: it separates exactly when it started separated
      or some axis shows a gap; without a gap its depth is at most the starting
      depth and every axis's overlap, and it is the starting state or the depth
      and axis of one of the tests; once separated the state no longer changes. */
  lemma {:induction false} SatAxesSpec(st: SatState, tests: seq<AxisTest>, i: int)
    requires 0 <= i <= |tests|
    ensures SatAxes(st, tests, i).separated <==> st.separated || exists k :: 0 <= k < i && Gap(tests[k])
    ensures !SatAxes(st, tests, i).separated ==>
      SatAxes(st, tests, i).depth <= st.depth &&
      (forall k :: 0 <= k < i ==> SatAxes(st, tests, i).depth <= Overlap(tests[k])) &&
      (SatAxes(st, tests, i) == st ||
       exists k :: 0 <= k < i && SatAxes(st, tests, i) == SatState(false, tests[k].axis, Overlap(tests[k])))
    ensures st.separated ==> SatAxes(st, tests, i) == st
  {
    if i > 0 {
      SatAxesSpec(st, tests, i - 1);
    }
  }

  /** Once an axis has separated the shapes the rest of the loop changes nothing. */
  lemma {:induction false} SeparatedIsFinal(st: SatState, tests: seq<AxisTest>, i: int, n: int)
    requires 0 <= i <= n <= |tests| && SatAxes(st, tests, i).separated
    ensures SatAxes(st, tests, n) == SatAxes(st, tests, i)
    decreases n - i
  {
    if n > i {
      SeparatedIsFinal(st, tests, i, n - 1);
    }
  }

  /** The end of the test: no hit after a gap; otherwise the normal is turned
      to point from the first centre towards the second. */
  function SatFinish(st: SatState, from: LiteVector, to: LiteVector): Intersection {
    if st.separated then Intersection(false, st.normal, st.depth)
    else if Dot(Sub(to, from), st.normal) < 0.0 then Intersection(true, Neg(st.normal), st.depth)
    else Intersection(true, st.normal, st.depth)
  }

  /** A hit's normal never points away from the direction between the centres,
      and keeps the depth and the axis found up to its sign. */
  lemma SatFinishSpec(st: SatState, from: LiteVector, to: LiteVector)
    ensures SatFinish(st, from, to).hit == !st.separated
    ensures SatFinish(st, from, to).depth == st.depth
    ensures SatFinish(st, from, to).hit ==> Dot(Sub(to, from), SatFinish(st, from, to).normal) >= 0.0
    ensures SatFinish(st, from, to).normal == st.normal || SatFinish(st, from, to).normal == Neg(st.normal)
  {
    DotIsLinear(st.normal, st.normal, Sub(to, from), 1.0);
  }

  /** The result's depth is the overlap on one of the tests, and its normal is
      that test's axis up to its sign: the axis of least overlap was kept. */
  predicate AttainedIn(r: Intersection, tests: seq<AxisTest>) {
    exists k :: 0 <= k < |tests| && r.depth == Overlap(tests[k]) &&
      (r.normal == tests[k].axis || r.normal == Neg(tests[k].axis))
  }

  /** Two rounds of axes followed by the orientation step: a hit exactly when
      no axis of either round shows a gap, with a depth at most every overlap
      and a normal that does not point away from `to`; the depth is float.MaxValue
      (no overlap was smaller) or the overlap of one axis, whose direction the
      normal takes. */
  lemma TwoRoundsSpec(testsA: seq<AxisTest>, testsB: seq<AxisTest>, from: LiteVector, to: LiteVector)
    ensures var r := SatFinish(SatAxes(SatAxes(SatStart, testsA, |testsA|), testsB, |testsB|), from, to);
      (r.hit <==> (forall k :: 0 <= k < |testsA| ==> !Gap(testsA[k])) && (forall k :: 0 <= k < |testsB| ==> !Gap(testsB[k]))) &&
      (r.hit ==>
         Dot(Sub(to, from), r.normal) >= 0.0 &&
         (forall k :: 0 <= k < |testsA| ==> r.depth <= Overlap(testsA[k])) &&
         (forall k :: 0 <= k < |testsB| ==> r.depth <= Overlap(testsB[k])) &&
         (r.depth == FloatMax || AttainedIn(r, testsA) || AttainedIn(r, testsB)))
  {
    var afterA := SatAxes(SatStart, testsA, |testsA|);
    SatAxesSpec(SatStart, testsA, |testsA|);
    SatAxesSpec(afterA, testsB, |testsB|);
    SatFinishSpec(SatAxes(afterA, testsB, |testsB|), from, to);
  }

  /** A round of axes, one more axis, then the orientation step: on a hit the
      depth is at most every overlap and the normal does not point away from `to`;
      the depth is float.MaxValue or the overlap of one axis, whose direction
      the normal takes. */
  lemma RoundThenAxisSpec(tests: seq<AxisTest>, last: AxisTest, from: LiteVector, to: LiteVector)
    requires !SatAxes(SatStart, tests, |tests|).separated
    ensures var r := SatFinish(SatStep(SatAxes(SatStart, tests, |tests|), last), from, to);
      (r.hit <==> !Gap(last)) &&
      (r.hit ==>
         r.depth <= Overlap(last) && Dot(Sub(to, from), r.normal) >= 0.0 &&
         (forall k :: 0 <= k < |tests| ==> r.depth <= Overlap(tests[k])) &&
         (r.depth == FloatMax || AttainedIn(r, tests) || AttainedIn(r, [last])))
  {
    SatAxesSpec(SatStart, tests, |tests|);
    SatFinishSpec(SatStep(SatAxes(SatStart, tests, |tests|), last), from, to);
  }

  /** IntersectPolygons: the edge axes of A, then of B, then the normal's orientation. */
  function IntersectPolygonsSpec(centerA: LiteVector, vsA: seq<LiteVector>, centerB: LiteVector, vsB: seq<LiteVector>): Intersection {
    var testsA := EdgeTests(vsA, vsA, RivalPolygon(vsB));
    var testsB := EdgeTests(vsB, vsA, RivalPolygon(vsB));
    SatFinish(SatAxes(SatAxes(SatStart, testsA, |testsA|), testsB, |testsB|), centerA, centerB)
  }

  /** Two polygons hit exactly when no edge axis of either shows a gap between
      their projections. */
  lemma IntersectPolygonsSeparatingAxis(centerA: LiteVector, vsA: seq<LiteVector>, centerB: LiteVector, vsB: seq<LiteVector>)
    ensures IntersectPolygonsSpec(centerA, vsA, centerB, vsB).hit <==>
      (forall k :: 0 <= k < |vsA| ==> !Gap(EdgeTest(vsA, k, vsA, RivalPolygon(vsB)))) &&
      (forall k :: 0 <= k < |vsB| ==> !Gap(EdgeTest(vsB, k, vsA, RivalPolygon(vsB))))
  {
    var testsA, testsB := EdgeTests(vsA, vsA, RivalPolygon(vsB)), EdgeTests(vsB, vsA, RivalPolygon(vsB));
    TwoRoundsSpec(testsA, testsB, centerA, centerB);
    EdgeTestsGaps(vsA, vsA, RivalPolygon(vsB));
    EdgeTestsGaps(vsB, vsA, RivalPolygon(vsB));
  }

  /** No test of the sequence shows a gap exactly when no edge axis does. */
  lemma EdgeTestsGaps(edges: seq<LiteVector>, vs: seq<LiteVector>, rival: Rival)
    ensures var tests := EdgeTests(edges, vs, rival);
      (forall k :: 0 <= k < |tests| ==> !Gap(tests[k])) <==>
      (forall k :: 0 <= k < |edges| ==> !Gap(EdgeTest(edges, k, vs, rival)))
  {
    var tests := EdgeTests(edges, vs, rival);
    if forall k :: 0 <= k < |tests| ==> !Gap(tests[k]) {
      forall k | 0 <= k < |edges|
        ensures !Gap(EdgeTest(edges, k, vs, rival))
      {
        assert tests[k] == EdgeTest(edges, k, vs, rival);
      }
    }
    if forall k :: 0 <= k < |edges| ==> !Gap(EdgeTest(edges, k, vs, rival)) {
      forall k | 0 <= k < |tests|
        ensures !Gap(tests[k])
      {
        assert tests[k] == EdgeTest(edges, k, vs, rival);
      }
    }
  }

  /** A depth at most every test's overlap is at most every edge axis's overlap. */
  lemma EdgeTestsOverlaps(edges: seq<LiteVector>, vs: seq<LiteVector>, rival: Rival, depth: real)
    requires var tests := EdgeTests(edges, vs, rival);
      forall k :: 0 <= k < |tests| ==> depth <= Overlap(tests[k])
    ensures forall k :: 0 <= k < |edges| ==> depth <= Overlap(EdgeTest(edges, k, vs, rival))
  {
    var tests := EdgeTests(edges, vs, rival);
    forall k | 0 <= k < |edges|
      ensures depth <= Overlap(EdgeTest(edges, k, vs, rival))
    {
      assert tests[k] == EdgeTest(edges, k, vs, rival);
    }
  }

  /** A hit of two polygons has a depth at most every edge axis's overlap, and
      its normal points from A's centre towards B's side. The depth is the least
      overlap itself, on an edge axis of A or of B whose direction the normal
      takes, unless no overlap was below the starting float.MaxValue. */
  lemma IntersectPolygonsLeastOverlap(centerA: LiteVector, vsA: seq<LiteVector>, centerB: LiteVector, vsB: seq<LiteVector>)
    requires IntersectPolygonsSpec(centerA, vsA, centerB, vsB).hit
    ensures var r := IntersectPolygonsSpec(centerA, vsA, centerB, vsB);
      Dot(Sub(centerB, centerA), r.normal) >= 0.0 &&
      (forall k :: 0 <= k < |vsA| ==> r.depth <= Overlap(EdgeTest(vsA, k, vsA, RivalPolygon(vsB)))) &&
      (forall k :: 0 <= k < |vsB| ==> r.depth <= Overlap(EdgeTest(vsB, k, vsA, RivalPolygon(vsB)))) &&
      (r.depth == FloatMax ||
       AttainedIn(r, EdgeTests(vsA, vsA, RivalPolygon(vsB))) ||
       AttainedIn(r, EdgeTests(vsB, vsA, RivalPolygon(vsB))))
  {
    var testsA, testsB := EdgeTests(vsA, vsA, RivalPolygon(vsB)), EdgeTests(vsB, vsA, RivalPolygon(vsB));
    TwoRoundsSpec(testsA, testsB, centerA, centerB);
    var r := IntersectPolygonsSpec(centerA, vsA, centerB, vsB);
    EdgeTestsOverlaps(vsA, vsA, RivalPolygon(vsB), r.depth);
    EdgeTestsOverlaps(vsB, vsA, RivalPolygon(vsB), r.depth);
  }

  /** The edge loop of IntersectPolygons over `edges`, from state st0, stopping
      at the first gap. */
  method PolygonEdgeLoop(edges: array<LiteVector>, verticesA: array<LiteVector>, verticesB: array<LiteVector>, st0: SatState)
    returns (st: SatState)
    requires !st0.separated
    ensures st == SatAxes(st0, EdgeTests(edges[..], verticesA[..], RivalPolygon(verticesB[..])), edges.Length)
  {
    ghost var tests := EdgeTests(edges[..], verticesA[..], RivalPolygon(verticesB[..]));
    var normal, depth := st0.normal, st0.depth;
    var i := 0;
    while i < edges.Length
      invariant 0 <= i <= edges.Length
      invariant SatAxes(st0, tests, i) == SatState(false, normal, depth)
    {
      st := SatEdge(edges, i, verticesA, verticesB, normal, depth);
      if st.separated {
        SeparatedIsFinal(st0, tests, i + 1, |tests|);
        return;
      }
      normal, depth := st.normal, st.depth;
      i := i + 1;
    }
    st := SatState(false, normal, depth);
  }

  /** IntersectPolygons over the vertex arrays, returning as soon as an edge
      axis separates the projections. */
  method IntersectPolygons(centerA: LiteVector, verticesA: array<LiteVector>, centerB: LiteVector, verticesB: array<LiteVector>)
    returns (hit: bool, normal: LiteVector, depth: real)
    ensures Intersection(hit, normal, depth) == IntersectPolygonsSpec(centerA, verticesA[..], centerB, verticesB[..])
  {
    var st := PolygonEdgeLoop(verticesA, verticesA, verticesB, SatStart);
    if st.separated {
      SatAxesSpec(st, EdgeTests(verticesB[..], verticesA[..], RivalPolygon(verticesB[..])), verticesB.Length);
      return false, st.normal, st.depth;
    }
    st := PolygonEdgeLoop(verticesB, verticesA, verticesB, st);
    if st.separated {
      return false, st.normal, st.depth;
    }
    normal, depth := st.normal, st.depth;
    var direction := Sub(centerB, centerA);
    if Dot(direction, normal) < 0.0 {
      normal := Neg(normal);
    }
    hit := true;
  }

  /** The body of both polygon loops: the edge axis of `edges` at i, both
      projections, the gap test and the depth update. */
  method SatEdge(edges: array<LiteVector>, i: int, verticesA: array<LiteVector>, verticesB: array<LiteVector>,
                 normal: LiteVector, depth: real) returns (st: SatState)
    requires 0 <= i < edges.Length
    ensures st == SatStep(SatState(false, normal, depth), EdgeTest(edges[..], i, verticesA[..], RivalPolygon(verticesB[..])))
  {
    var va := edges[i];
    var vb := edges[(i + 1) % edges.Length];
    var edge := Sub(vb, va);
    var axis := LiteVector(edge.y, -edge.x);
    axis := Normalize(axis);
    ghost var t := EdgeTest(edges[..], i, verticesA[..], RivalPolygon(verticesB[..]));
    assert t.axis == axis by {
      assert edges[..][i] == va && edges[..][(i + 1) % edges.Length] == vb;
    }
    var minA, maxA := ProjectVertices(verticesA, axis);
    var minB, maxB := ProjectVertices(verticesB, axis);
    assert t == AxisTest(axis, Interval(minA, maxA), Interval(minB, maxB));
    if minA >= maxB || minB >= maxA {
      return SatState(true, normal, depth);
    }
    var axisDepth := Min(maxB - minA, maxA - minB);
    if axisDepth < depth {
      return SatState(false, axis, axisDepth);
    }
    return SatState(false, normal, depth);
  }

  // ---------------------------------------------------------------------------
  // Circle against polygon

  /** The vertex nearest the circle's centre, and its distance. */
  datatype Nearest = Nearest(index: int, distance: real)

  /** The loop of FindClosestPointOnPolygon over the first i vertices: the
      first vertex of least distance below float.MaxValue, or -1 when none is. */
  function NearestVertex(center: LiteVector, vs: seq<LiteVector>, i: int): (r: Nearest)
    requires 0 <= i <= |vs|
    ensures -1 <= r.index < i && r.distance <= FloatMax
    ensures r.index == -1 ==> r.distance == FloatMax && forall k :: 0 <= k < i ==> Distance(vs[k], center) >= FloatMax
    ensures r.index >= 0 ==> r.distance == Distance(vs[r.index], center) < FloatMax
    ensures forall k :: 0 <= k < i ==> r.distance <= Distance(vs[k], center)
    ensures r.index >= 0 ==> forall k :: 0 <= k < r.index ==> r.distance < Distance(vs[k], center)
  {
    if i == 0 then Nearest(-1, FloatMax)
    else
      var prev := NearestVertex(center, vs, i - 1);
      var d := Distance(vs[i - 1], center);
      if d < prev.distance then Nearest(i - 1, d) else prev
  }

  /** FindClosestPointOnPolygon: the index of the nearest vertex, -1 when the
      polygon is empty (or every distance is at least float.MaxValue). */
  method FindClosestPointOnPolygon(circleCenter: LiteVector, vertices: array<LiteVector>) returns (result: int)
    ensures result == NearestVertex(circleCenter, vertices[..], vertices.Length).index
  {
    result := -1;
    var minDistance := FloatMax;
    var i := 0;
    while i < vertices.Length
      invariant 0 <= i <= vertices.Length
      invariant NearestVertex(circleCenter, vertices[..], i) == Nearest(result, minDistance)
    {
      var v := vertices[i];
      var distance := Distance(v, circleCenter);
      if distance < minDistance {
        minDistance := distance;
        result := i;
      }
      i := i + 1;
    }
  }

  /** For a polygon with a vertex closer than float.MaxValue the nearest index
      is found, and it is a vertex of least distance. */
  lemma NearestVertexExists(center: LiteVector, vs: seq<LiteVector>, j: int)
    requires 0 <= j < |vs| && Distance(vs[j], center) < FloatMax
    ensures 0 <= NearestVertex(center, vs, |vs|).index < |vs|
  {
  }

  /** The exception IntersectCirclePolygon can raise: indexing the vertices at -1. */
  datatype CollisionError = IndexOutOfRange

  /** The axis from the circle's centre to the nearest vertex, not normalised:
      the source discards the result of Normalize here. */
  function VertexTest(center: LiteVector, radius: real, vs: seq<LiteVector>, index: int): (t: AxisTest)
    requires 0 <= index < |vs|
  {
    var axis := Sub(vs[index], center);
    AxisTest(axis, Projection(vs, axis), ProjectCircle(center, radius, axis))
  }

  /** IntersectCirclePolygon: the polygon's edge axes, then the axis towards
      the nearest vertex, then the normal turned towards the polygon. */
  function IntersectCirclePolygonSpec(center: LiteVector, radius: real, polygonCenter: LiteVector, vs: seq<LiteVector>)
    : Result<Intersection, CollisionError>
  {
    var tests := EdgeTests(vs, vs, RivalCircle(center, radius));
    var st := SatAxes(SatStart, tests, |tests|);
    if st.separated then Ok(Intersection(false, st.normal, st.depth))
    else
      var index := NearestVertex(center, vs, |vs|).index;
      if index < 0 then Err(IndexOutOfRange)
      else Ok(SatFinish(SatStep(st, VertexTest(center, radius, vs, index)), center, polygonCenter))
  }

  /** The error happens only when no edge axis shows a gap and no vertex is
      within float.MaxValue of the centre, in particular for an empty polygon. */
  lemma IntersectCirclePolygonError(center: LiteVector, radius: real, polygonCenter: LiteVector, vs: seq<LiteVector>)
    ensures IntersectCirclePolygonSpec(center, radius, polygonCenter, vs).Err? <==>
      (forall k :: 0 <= k < |vs| ==> !Gap(EdgeTest(vs, k, vs, RivalCircle(center, radius)))) &&
      (forall k :: 0 <= k < |vs| ==> Distance(vs[k], center) >= FloatMax)
  {
    var tests := EdgeTests(vs, vs, RivalCircle(center, radius));
    SatAxesSpec(SatStart, tests, |tests|);
    if exists k :: 0 <= k < |vs| && Distance(vs[k], center) < FloatMax {
      var k :| 0 <= k < |vs| && Distance(vs[k], center) < FloatMax;
      NearestVertexExists(center, vs, k);
    }
  }

  /** A circle and a polygon hit exactly when no edge axis and not the axis
      towards the nearest vertex shows a gap. */
  lemma IntersectCirclePolygonSeparatingAxis(center: LiteVector, radius: real, polygonCenter: LiteVector, vs: seq<LiteVector>)
    requires IntersectCirclePolygonSpec(center, radius, polygonCenter, vs).Ok?
    ensures var index := NearestVertex(center, vs, |vs|).index;
      IntersectCirclePolygonSpec(center, radius, polygonCenter, vs).value.hit <==>
      (forall k :: 0 <= k < |vs| ==> !Gap(EdgeTest(vs, k, vs, RivalCircle(center, radius)))) &&
      0 <= index && !Gap(VertexTest(center, radius, vs, index))
  {
    var tests := EdgeTests(vs, vs, RivalCircle(center, radius));
    SatAxesSpec(SatStart, tests, |tests|);
    var index := NearestVertex(center, vs, |vs|).index;
    if !SatAxes(SatStart, tests, |tests|).separated {
      RoundThenAxisSpec(tests, VertexTest(center, radius, vs, index), center, polygonCenter);
    }
  }

  /** A hit of a circle and a polygon has a depth at most every axis's overlap,
      and its normal points from the circle towards the polygon's centre. The
      depth is the least overlap itself, on an edge axis or on the vertex axis,
      whose direction the normal takes, unless no overlap was below the
      starting float.MaxValue. */
  lemma IntersectCirclePolygonLeastOverlap(center: LiteVector, radius: real, polygonCenter: LiteVector, vs: seq<LiteVector>)
    requires IntersectCirclePolygonSpec(center, radius, polygonCenter, vs).Ok?
    requires IntersectCirclePolygonSpec(center, radius, polygonCenter, vs).value.hit
    ensures var r := IntersectCirclePolygonSpec(center, radius, polygonCenter, vs).value;
      var index := NearestVertex(center, vs, |vs|).index;
      0 <= index && r.depth <= Overlap(VertexTest(center, radius, vs, index)) &&
      Dot(Sub(polygonCenter, center), r.normal) >= 0.0 &&
      (forall k :: 0 <= k < |vs| ==> r.depth <= Overlap(EdgeTest(vs, k, vs, RivalCircle(center, radius)))) &&
      (r.depth == FloatMax ||
       AttainedIn(r, EdgeTests(vs, vs, RivalCircle(center, radius))) ||
       (r.depth == Overlap(VertexTest(center, radius, vs, index)) &&
        (r.normal == VertexTest(center, radius, vs, index).axis || r.normal == Neg(VertexTest(center, radius, vs, index).axis))))
  {
    var tests := EdgeTests(vs, vs, RivalCircle(center, radius));
    var st := SatAxes(SatStart, tests, |tests|);
    var index := NearestVertex(center, vs, |vs|).index;
    assert !st.separated && 0 <= index;
    var last := VertexTest(center, radius, vs, index);
    var r := IntersectCirclePolygonSpec(center, radius, polygonCenter, vs).value;
    assert r == SatFinish(SatStep(st, last), center, polygonCenter);
    RoundThenAxisSpec(tests, last, center, polygonCenter);
    EdgeTestsOverlaps(vs, vs, RivalCircle(center, radius), r.depth);
    AttainedInSingle(r, last);
  }

  /** Attained on a single test: its overlap and its axis up to sign. */
  lemma AttainedInSingle(r: Intersection, t: AxisTest)
    ensures AttainedIn(r, [t]) <==> r.depth == Overlap(t) && (r.normal == t.axis || r.normal == Neg(t.axis))
  {
    assert [t][0] == t;
  }

  /** The body of the circle's edge loop: the edge axis at i, the polygon's and
      the circle's projections, the gap test and the depth update. */
  method CircleEdge(vertices: array<LiteVector>, i: int, center: LiteVector, radius: real, normal: LiteVector, depth: real)
    returns (st: SatState)
    requires 0 <= i < vertices.Length
    ensures st == SatStep(SatState(false, normal, depth), EdgeTest(vertices[..], i, vertices[..], RivalCircle(center, radius)))
  {
    var va := vertices[i];
    var vb := vertices[(i + 1) % vertices.Length];
    var edge := Sub(vb, va);
    var axis := LiteVector(edge.y, -edge.x);
    axis := Normalize(axis);
    ghost var t := EdgeTest(vertices[..], i, vertices[..], RivalCircle(center, radius));
    assert t.axis == axis by {
      assert vertices[..][i] == va && vertices[..][(i + 1) % vertices.Length] == vb;
    }
    var minA, maxA := ProjectVertices(vertices, axis);
    var circle := ProjectCircle(center, radius, axis);
    assert t == AxisTest(axis, Interval(minA, maxA), circle);
    if minA >= circle.max || circle.min >= maxA {
      return SatState(true, normal, depth);
    }
    var axisDepth := Min(circle.max - minA, maxA - circle.min);
    if axisDepth < depth {
      return SatState(false, axis, axisDepth);
    }
    return SatState(false, normal, depth);
  }

  /** The edge loop of IntersectCirclePolygon, stopping at the first gap. */
  method CircleEdgeLoop(vertices: array<LiteVector>, center: LiteVector, radius: real) returns (st: SatState)
    ensures st == SatAxes(SatStart, EdgeTests(vertices[..], vertices[..], RivalCircle(center, radius)), vertices.Length)
  {
    ghost var tests := EdgeTests(vertices[..], vertices[..], RivalCircle(center, radius));
    var normal, depth := Zero, FloatMax;
    var i := 0;
    while i < vertices.Length
      invariant 0 <= i <= vertices.Length
      invariant SatAxes(SatStart, tests, i) == SatState(false, normal, depth)
    {
      st := CircleEdge(vertices, i, center, radius, normal, depth);
      if st.separated {
        SeparatedIsFinal(SatStart, tests, i + 1, |tests|);
        return;
      }
      normal, depth := st.normal, st.depth;
      i := i + 1;
    }
    st := SatState(false, normal, depth);
  }

  /** The axis from the circle's centre to the nearest vertex: both projections,
      the gap test and the depth update. */
  method VertexAxis(vertices: array<LiteVector>, cpIndex: int, circleCenter: LiteVector, circleRadius: real, st0: SatState)
    returns (st: SatState)
    requires 0 <= cpIndex < vertices.Length && !st0.separated
    ensures st == SatStep(st0, VertexTest(circleCenter, circleRadius, vertices[..], cpIndex))
  {
    var cp := vertices[cpIndex];
    var axis := Sub(cp, circleCenter);
    var minA, maxA := ProjectVertices(vertices, axis);
    var circle := ProjectCircle(circleCenter, circleRadius, axis);
    ghost var t := VertexTest(circleCenter, circleRadius, vertices[..], cpIndex);
    assert t == AxisTest(axis, Interval(minA, maxA), circle);
    if minA >= circle.max || circle.min >= maxA {
      return SatState(true, st0.normal, st0.depth);
    }
    var axisDepth := Min(circle.max - minA, maxA - circle.min);
    if axisDepth < st0.depth {
      return SatState(false, axis, axisDepth);
    }
    return st0;
  }

  /** IntersectCirclePolygon over the vertex array; indexing the vertices at
      -1 becomes the IndexOutOfRange error. */
  method IntersectCirclePolygon(circleCenter: LiteVector, circleRadius: real, polygonCenter: LiteVector, vertices: array<LiteVector>)
    returns (r: Result<Intersection, CollisionError>)
    ensures r == IntersectCirclePolygonSpec(circleCenter, circleRadius, polygonCenter, vertices[..])
  {
    var st := CircleEdgeLoop(vertices, circleCenter, circleRadius);
    if st.separated {
      return Ok(Intersection(false, st.normal, st.depth));
    }
    var cpIndex := FindClosestPointOnPolygon(circleCenter, vertices);
    if cpIndex < 0 {
      return Err(IndexOutOfRange);
    }
    st := VertexAxis(vertices, cpIndex, circleCenter, circleRadius, st);
    if st.separated {
      return Ok(Intersection(false, st.normal, st.depth));
    }
    var normal, depth := st.normal, st.depth;
    var direction := Sub(polygonCenter, circleCenter);
    if Dot(direction, normal) < 0.0 {
      normal := Neg(normal);
    }
    return Ok(Intersection(true, normal, depth));
  }

  // ---------------------------------------------------------------------------
  // Contact points

  /** No two consecutive vertices (wrapping) coincide, so every edge is a
      proper segment. */
  predicate ProperPolygon(vs: seq<LiteVector>) {
    forall k :: 0 <= k < |vs| ==> vs[k] != Successor(vs, k)
  }

  /** The vertex after vertex k, wrapping round to the first. */
  function Successor(vs: seq<LiteVector>, k: int): LiteVector
    requires 0 <= k < |vs|
  {
    vs[(k + 1) % |vs|]
  }

  /** The closest point to p on edge k of the polygon. */
  function EdgeCandidate(p: LiteVector, vs: seq<LiteVector>, k: int): Closest
    requires ProperPolygon(vs) && 0 <= k < |vs|
  {
    PointSegmentDistance(p, vs[k], Successor(vs, k))
  }

  /** The closest points to p on every edge of the polygon, in order. */
  function PointCandidates(p: LiteVector, vs: seq<LiteVector>): (r: seq<Closest>)
    requires ProperPolygon(vs)
    ensures |r| == |vs| && forall k :: 0 <= k < |vs| ==> r[k] == EdgeCandidate(p, vs, k)
  {
    seq(|vs|, k requires 0 <= k < |vs| => EdgeCandidate(p, vs, k))
  }

  /** One row per vertex of `points`: its candidates on every edge of `edges`,
      in the order of the source's nested loops. */
  function CandidateRows(points: seq<LiteVector>, edges: seq<LiteVector>): (r: seq<seq<Closest>>)
    requires ProperPolygon(edges)
    ensures |r| == |points| && forall i :: 0 <= i < |points| ==> r[i] == PointCandidates(points[i], edges)
  {
    seq(|points|, i requires 0 <= i < |points| => PointCandidates(points[i], edges))
  }

  /** The first i rows, one after the other. */
  function Flatten(rows: seq<seq<Closest>>, i: int): seq<Closest>
    requires 0 <= i <= |rows|
  {
    if i == 0 then [] else Flatten(rows, i - 1) + rows[i - 1]
  }

  /** The state of the contact loops. */
  datatype Contacts = Contacts(contact1: LiteVector, contact2: LiteVector, count: int, minDistSq: real)

  const NoContacts: Contacts := Contacts(Zero, Zero, 0, FloatMax)

  /** One candidate: a distance nearly equal to the best adds a second contact
      when its point is not nearly the first; a smaller one restarts with one
      contact. */
  function ContactStep(c: Contacts, r: Closest): Contacts {
    if NearlyEqual(r.distanceSquared, c.minDistSq) then
      if !NearlyEqualVectors(r.cp, c.contact1) then Contacts(c.contact1, r.cp, 2, c.minDistSq) else c
    else if r.distanceSquared < c.minDistSq then Contacts(r.cp, c.contact2, 1, r.distanceSquared)
    else c
  }

  /** The inner loop over the first n candidates of a row. */
  function ContactFold(c: Contacts, row: seq<Closest>, n: int): Contacts
    requires 0 <= n <= |row|
  {
    if n == 0 then c else ContactStep(ContactFold(c, row, n - 1), row[n - 1])
  }

  /** The outer loop over the first i rows. */
  function ContactRows(c: Contacts, rows: seq<seq<Closest>>, i: int): Contacts
    requires 0 <= i <= |rows|
  {
    if i == 0 then c else ContactFold(ContactRows(c, rows, i - 1), rows[i - 1], |rows[i - 1]|)
  }

  /** A candidate at least half a millimetre below float.MaxValue. */
  predicate Reachable(r: Closest) {
    r.distanceSquared <= FloatMax - HalfAMillimeter
  }

  /** What the contact loops keep about the candidates `seen` so far: there are
      at most two contacts, and two are never nearly the same point; the
      smallest distance is float.MaxValue with the zero vector, or a seen
      candidate's distance with its point as first contact; the second
      contact is the zero vector or a seen candidate's point; no seen
      candidate is closer than the smallest distance by half a millimetre or
      more; no contact means the smallest distance is still float.MaxValue;
      and a reachable seen candidate means at least one contact. */
  ghost predicate ContactsInvariant(c: Contacts, seen: seq<Closest>) {
    && 0 <= c.count <= 2
    && (c.count == 2 ==> !NearlyEqualVectors(c.contact2, c.contact1))
    && (c.count == 0 ==> c.minDistSq == FloatMax)
    && ((c.minDistSq == FloatMax && c.contact1 == Zero) || Closest(c.minDistSq, c.contact1) in seen)
    && (c.contact2 == Zero || exists k :: 0 <= k < |seen| && seen[k].cp == c.contact2)
    && (forall k :: 0 <= k < |seen| ==> c.minDistSq < seen[k].distanceSquared + HalfAMillimeter)
    && ((exists k :: 0 <= k < |seen| && Reachable(seen[k])) ==> c.count >= 1)
    && c.minDistSq <= FloatMax
  }

  lemma NoContactsInvariant()
    ensures ContactsInvariant(NoContacts, [])
  {
  }

  lemma ContactStepKeepsInvariant(c: Contacts, seen: seq<Closest>, r: Closest)
    requires ContactsInvariant(c, seen)
    ensures ContactsInvariant(ContactStep(c, r), seen + [r])
  {
    ContactStepKeepsCounts(c, seen, r);
    ContactStepKeepsWitnesses(c, seen, r);
    ContactStepKeepsLowerBound(c, seen, r);
    ContactStepKeepsReachable(c, seen, r);
  }

  /** The conjuncts of ContactsInvariant about the count and the smallest distance alone. */
  lemma ContactStepKeepsCounts(c: Contacts, seen: seq<Closest>, r: Closest)
    requires ContactsInvariant(c, seen)
    ensures var n := ContactStep(c, r);
      && 0 <= n.count <= 2
      && (n.count == 2 ==> !NearlyEqualVectors(n.contact2, n.contact1))
      && (n.count == 0 ==> n.minDistSq == FloatMax)
      && n.minDistSq <= FloatMax
  {
  }

  /** The smallest distance and the second contact still come from seen candidates. */
  lemma ContactStepKeepsWitnesses(c: Contacts, seen: seq<Closest>, r: Closest)
    requires ContactsInvariant(c, seen)
    ensures var n := ContactStep(c, r);
      var all := seen + [r];
      && ((n.minDistSq == FloatMax && n.contact1 == Zero) || Closest(n.minDistSq, n.contact1) in all)
      && (n.contact2 == Zero || exists k :: 0 <= k < |all| && all[k].cp == n.contact2)
  {
    var n := ContactStep(c, r);
    var all := seen + [r];
    assert all[|seen|] == r;
    if n.contact2 != Zero {
      if n.contact2 == r.cp {
        assert all[|seen|].cp == n.contact2;
      } else {
        var k :| 0 <= k < |seen| && seen[k].cp == c.contact2;
        assert all[k] == seen[k];
      }
    }
    if Closest(c.minDistSq, c.contact1) in seen {
      assert Closest(c.minDistSq, c.contact1) in all;
    }
  }

  /** No candidate seen so far undercuts the smallest distance by half a millimetre. */
  lemma ContactStepKeepsLowerBound(c: Contacts, seen: seq<Closest>, r: Closest)
    requires ContactsInvariant(c, seen)
    ensures var n := ContactStep(c, r);
      var all := seen + [r];
      forall k :: 0 <= k < |all| ==> n.minDistSq < all[k].distanceSquared + HalfAMillimeter
  {
    var n := ContactStep(c, r);
    var all := seen + [r];
    forall k | 0 <= k < |all|
      ensures n.minDistSq < all[k].distanceSquared + HalfAMillimeter
    {
      if k < |seen| {
        assert all[k] == seen[k];
      }
    }
  }

  /** A reachable candidate among those seen means at least one contact. */
  lemma ContactStepKeepsReachable(c: Contacts, seen: seq<Closest>, r: Closest)
    requires ContactsInvariant(c, seen)
    ensures var n := ContactStep(c, r);
      var all := seen + [r];
      (exists k :: 0 <= k < |all| && Reachable(all[k])) ==> n.count >= 1
  {
    var n := ContactStep(c, r);
    var all := seen + [r];
    if exists k :: 0 <= k < |all| && Reachable(all[k]) {
      var k :| 0 <= k < |all| && Reachable(all[k]);
      if k < |seen| {
        assert all[k] == seen[k];
        assert Reachable(seen[k]);
      }
    }
  }

  lemma {:induction false} ContactFoldKeepsInvariant(c: Contacts, seen: seq<Closest>, row: seq<Closest>, n: int)
    requires 0 <= n <= |row| && ContactsInvariant(c, seen)
    ensures ContactsInvariant(ContactFold(c, row, n), seen + row[..n])
  {
    if n > 0 {
      ContactFoldKeepsInvariant(c, seen, row, n - 1);
      var prev, before := ContactFold(c, row, n - 1), seen + row[..n - 1];
      ContactStepKeepsInvariant(prev, before, row[n - 1]);
      assert before + [row[n - 1]] == seen + row[..n];
      assert ContactFold(c, row, n) == ContactStep(prev, row[n - 1]);
    } else {
      assert seen + row[..n] == seen;
    }
  }

  lemma {:induction false} ContactRowsKeepInvariant(c: Contacts, seen: seq<Closest>, rows: seq<seq<Closest>>, i: int)
    requires 0 <= i <= |rows| && ContactsInvariant(c, seen)
    ensures ContactsInvariant(ContactRows(c, rows, i), seen + Flatten(rows, i))
  {
    if i > 0 {
      ContactRowsKeepInvariant(c, seen, rows, i - 1);
      var row := rows[i - 1];
      ContactFoldKeepsInvariant(ContactRows(c, rows, i - 1), seen + Flatten(rows, i - 1), row, |row|);
      assert row[..|row|] == row;
      assert seen + Flatten(rows, i - 1) + row == seen + Flatten(rows, i);
    } else {
      assert seen + Flatten(rows, i) == seen;
    }
  }

  /** FindPolygonsContactPoints: the vertices of A against the edges of B,
      then the vertices of B against the edges of A. */
  function PolygonsContactsSpec(vsA: seq<LiteVector>, vsB: seq<LiteVector>): Contacts
    requires ProperPolygon(vsA) && ProperPolygon(vsB)
  {
    var rowsA, rowsB := CandidateRows(vsA, vsB), CandidateRows(vsB, vsA);
    ContactRows(ContactRows(NoContacts, rowsA, |rowsA|), rowsB, |rowsB|)
  }

  /** Every vertex-edge candidate of the two polygons, in the order visited. */
  function AllCandidates(vsA: seq<LiteVector>, vsB: seq<LiteVector>): seq<Closest>
    requires ProperPolygon(vsA) && ProperPolygon(vsB)
  {
    Flatten(CandidateRows(vsA, vsB), |vsA|) + Flatten(CandidateRows(vsB, vsA), |vsB|)
  }

  /** The result of FindPolygonsContactPoints keeps the contact invariant over
      all vertex-edge candidates: at most two contacts, never two nearly equal
      ones, a smallest distance within half a millimetre of every candidate's,
      a first contact that is the closest point of some candidate, and at least
      one contact as soon as some candidate is reachable. */
  lemma PolygonsContactsSpecInvariant(vsA: seq<LiteVector>, vsB: seq<LiteVector>)
    requires ProperPolygon(vsA) && ProperPolygon(vsB)
    ensures ContactsInvariant(PolygonsContactsSpec(vsA, vsB), AllCandidates(vsA, vsB))
  {
    var rowsA, rowsB := CandidateRows(vsA, vsB), CandidateRows(vsB, vsA);
    TwoRoundsOfRowsKeepInvariant(rowsA, rowsB);
    assert PolygonsContactsSpec(vsA, vsB) == ContactRows(ContactRows(NoContacts, rowsA, |rowsA|), rowsB, |rowsB|);
    assert AllCandidates(vsA, vsB) == Flatten(rowsA, |rowsA|) + Flatten(rowsB, |rowsB|);
  }

  /** Two rounds of rows from no contacts keep the invariant over both rounds' candidates. */
  lemma TwoRoundsOfRowsKeepInvariant(rowsA: seq<seq<Closest>>, rowsB: seq<seq<Closest>>)
    ensures ContactsInvariant(ContactRows(ContactRows(NoContacts, rowsA, |rowsA|), rowsB, |rowsB|),
                              Flatten(rowsA, |rowsA|) + Flatten(rowsB, |rowsB|))
  {
    NoContactsInvariant();
    ContactRowsKeepInvariant(NoContacts, [], rowsA, |rowsA|);
    assert [] + Flatten(rowsA, |rowsA|) == Flatten(rowsA, |rowsA|);
    ContactRowsKeepInvariant(ContactRows(NoContacts, rowsA, |rowsA|), Flatten(rowsA, |rowsA|), rowsB, |rowsB|);
  }

  /** The body of the inner loop: the closest point to p on edge j and the
      update of the contacts. */
  method ContactEdge(p: LiteVector, edges: array<LiteVector>, j: int, c0: Contacts) returns (c: Contacts)
    requires ProperPolygon(edges[..]) && 0 <= j < edges.Length
    ensures c == ContactStep(c0, EdgeCandidate(p, edges[..], j))
  {
    var va := edges[j];
    var vb := edges[(j + 1) % edges.Length];
    assert edges[..][j] == va && Successor(edges[..], j) == vb;
    var r := PointSegmentDistance(p, va, vb);
    c := c0;
    if NearlyEqual(r.distanceSquared, c.minDistSq) {
      if !NearlyEqualVectors(r.cp, c.contact1) {
        c := c.(contact2 := r.cp, count := 2);
      }
    } else if r.distanceSquared < c.minDistSq {
      c := c.(minDistSq := r.distanceSquared, contact1 := r.cp, count := 1);
    }
  }

  /** The inner loop: one point against every edge of `edges`, continuing from c0. */
  method PointAgainstEdges(p: LiteVector, edges: array<LiteVector>, c0: Contacts) returns (c: Contacts)
    requires ProperPolygon(edges[..])
    ensures c == ContactFold(c0, PointCandidates(p, edges[..]), edges.Length)
  {
    ghost var cands := PointCandidates(p, edges[..]);
    c := c0;
    var j := 0;
    while j < edges.Length
      invariant 0 <= j <= edges.Length
      invariant c == ContactFold(c0, cands, j)
    {
      c := ContactEdge(p, edges, j, c);
      j := j + 1;
    }
  }

  /** The outer loop: every vertex of `points` against the edges of `edges`,
      continuing from c0. */
  method PointsAgainstEdges(points: array<LiteVector>, edges: array<LiteVector>, c0: Contacts) returns (c: Contacts)
    requires ProperPolygon(edges[..])
    ensures c == ContactRows(c0, CandidateRows(points[..], edges[..]), points.Length)
  {
    ghost var rows := CandidateRows(points[..], edges[..]);
    c := c0;
    var i := 0;
    while i < points.Length
      invariant 0 <= i <= points.Length
      invariant c == ContactRows(c0, rows, i)
    {
      var p := points[i];
      assert rows[i] == PointCandidates(p, edges[..]);
      c := PointAgainstEdges(p, edges, c);
      i := i + 1;
    }
  }

  /** FindPolygonsContactPoints over the two vertex arrays. */
  method FindPolygonsContactPoints(verticesA: array<LiteVector>, verticesB: array<LiteVector>)
    returns (contact1: LiteVector, contact2: LiteVector, contactCount: int)
    requires ProperPolygon(verticesA[..]) && ProperPolygon(verticesB[..])
    ensures var c := PolygonsContactsSpec(verticesA[..], verticesB[..]);
      contact1 == c.contact1 && contact2 == c.contact2 && contactCount == c.count
  {
    var c := PointsAgainstEdges(verticesA, verticesB, NoContacts);
    c := PointsAgainstEdges(verticesB, verticesA, c);
    contact1, contact2, contactCount := c.contact1, c.contact2, c.count;
  }

  /** The starting point of FindCirclePolygonContactPoint's loop. */
  const NoCandidate: Closest := Closest(FloatMax, Zero)

  /** The loop of FindCirclePolygonContactPoint over the first n candidates:
      the first one of least squared distance below float.MaxValue, or the
      zero vector at float.MaxValue when there is none. */
  function NearestCandidate(cands: seq<Closest>, n: int): (r: Closest)
    requires 0 <= n <= |cands|
    ensures r.distanceSquared <= FloatMax
    ensures forall k :: 0 <= k < n ==> r.distanceSquared <= cands[k].distanceSquared
    ensures r == NoCandidate || exists k :: 0 <= k < n && r == cands[k] && r.distanceSquared < FloatMax
  {
    if n == 0 then NoCandidate
    else
      var prev := NearestCandidate(cands, n - 1);
      if cands[n - 1].distanceSquared < prev.distanceSquared then cands[n - 1] else prev
  }

  /** FindCirclePolygonContactPoint: the nearest point to the circle's centre
      over the closest points of all edges. */
  function CirclePolygonContact(circleCenter: LiteVector, vs: seq<LiteVector>): LiteVector
    requires ProperPolygon(vs)
  {
    NearestCandidate(PointCandidates(circleCenter, vs), |vs|).cp
  }

  /** When some edge comes closer than float.MaxValue, the contact lies on an
      edge of the polygon and no point of any edge is nearer the centre. */
  lemma CirclePolygonContactIsNearest(circleCenter: LiteVector, vs: seq<LiteVector>, j: int, k: int, t: real)
    requires ProperPolygon(vs) && 0 <= j < |vs| && EdgeCandidate(circleCenter, vs, j).distanceSquared < FloatMax
    requires 0 <= k < |vs| && 0.0 <= t <= 1.0
    ensures var contact := CirclePolygonContact(circleCenter, vs);
      (exists e :: 0 <= e < |vs| && contact == EdgeCandidate(circleCenter, vs, e).cp) &&
      DistanceSquared(circleCenter, contact) <= DistanceSquared(circleCenter, Add(vs[k], Mul(Sub(Successor(vs, k), vs[k]), t)))
  {
    var cands := PointCandidates(circleCenter, vs);
    var r := NearestCandidate(cands, |vs|);
    assert r != NoCandidate by {
      assert r.distanceSquared <= cands[j].distanceSquared;
    }
    var e :| 0 <= e < |vs| && r == cands[e];
    assert r.distanceSquared == DistanceSquared(circleCenter, r.cp);
    PointSegmentDistanceIsMinimal(circleCenter, vs[k], Successor(vs, k), t);
    assert r.distanceSquared <= cands[k].distanceSquared;
  }

  /** The body of FindCirclePolygonContactPoint's loop: the closest point of
      edge i, kept when strictly nearer. */
  method CircleContactEdge(circleCenter: LiteVector, vertices: array<LiteVector>, i: int, best: Closest) returns (r: Closest)
    requires ProperPolygon(vertices[..]) && 0 <= i < vertices.Length
    ensures r == (if EdgeCandidate(circleCenter, vertices[..], i).distanceSquared < best.distanceSquared
                  then EdgeCandidate(circleCenter, vertices[..], i) else best)
  {
    var va := vertices[i];
    var vb := vertices[(i + 1) % vertices.Length];
    assert vertices[..][i] == va && Successor(vertices[..], i) == vb;
    var c := PointSegmentDistance(circleCenter, va, vb);
    r := best;
    if c.distanceSquared < best.distanceSquared {
      r := c;
    }
  }

  /** FindCirclePolygonContactPoint over the vertex array (the radius and the
      polygon's centre are not used). */
  method FindCirclePolygonContactPoint(circleCenter: LiteVector, circleRadius: real, polygonCenter: LiteVector,
                                       polygonVertices: array<LiteVector>) returns (contact: LiteVector)
    requires ProperPolygon(polygonVertices[..])
    ensures contact == CirclePolygonContact(circleCenter, polygonVertices[..])
  {
    ghost var cands := PointCandidates(circleCenter, polygonVertices[..]);
    contact := Zero;
    var minDistSq := FloatMax;
    var i := 0;
    while i < polygonVertices.Length
      invariant 0 <= i <= polygonVertices.Length
      invariant NearestCandidate(cands, i) == Closest(minDistSq, contact)
    {
      var r := CircleContactEdge(circleCenter, polygonVertices, i, Closest(minDistSq, contact));
      minDistSq, contact := r.distanceSquared, r.cp;
      i := i + 1;
    }
  }

  // ---------------------------------------------------------------------------
  // Bodies

  /** What the collision code reads of a body: its shape, position, radius
      and world vertices. */
  datatype BodyView = BodyView(shapeType: ShapeType, position: LiteVector, radius: real, vertices: seq<LiteVector>)

  function View(b: LiteBody): BodyView
    reads b
  {
    BodyView(b.shapeType, b.position, b.radius, b.WorldVertices())
  }

  /** Collide: dispatch on the two shapes. A box against a circle is the
      circle against the box with the normal negated; any pair with a polygon
      shape is no hit, with the zero normal and depth. */
  function CollideSpec(a: BodyView, b: BodyView): Result<Intersection, CollisionError> {
    if a.shapeType == Box && b.shapeType == Box then
      Ok(IntersectPolygonsSpec(a.position, a.vertices, b.position, b.vertices))
    else if a.shapeType == Box && b.shapeType == Circle then
      match IntersectCirclePolygonSpec(b.position, b.radius, a.position, a.vertices)
      case Err(e) => Err(e)
      case Ok(r) => Ok(Intersection(r.hit, Neg(r.normal), r.depth))
    else if a.shapeType == Circle && b.shapeType == Box then
      IntersectCirclePolygonSpec(a.position, a.radius, b.position, b.vertices)
    else if a.shapeType == Circle && b.shapeType == Circle then
      Ok(IntersectCircles(a.position, a.radius, b.position, b.radius))
    else
      Ok(Intersection(false, Zero, 0.0))
  }

  /** Swapping a box and a circle keeps the outcome and the depth and negates
      the normal. */
  lemma CollideBoxCircleIsSwapped(box: BodyView, circle: BodyView)
    requires box.shapeType == Box && circle.shapeType == Circle
    ensures CollideSpec(box, circle).Err? == CollideSpec(circle, box).Err?
    ensures CollideSpec(circle, box).Ok? ==>
      var r := CollideSpec(circle, box).value;
      CollideSpec(box, circle) == Ok(Intersection(r.hit, Neg(r.normal), r.depth))
  {
  }

  /** IntersectCircles gives the same outcome and depth either way round,
      with opposite normals. */
  lemma IntersectCirclesIsAntisymmetric(centerA: LiteVector, radiusA: real, centerB: LiteVector, radiusB: real)
    ensures IntersectCircles(centerA, radiusA, centerB, radiusB).hit == IntersectCircles(centerB, radiusB, centerA, radiusA).hit
    ensures IntersectCircles(centerA, radiusA, centerB, radiusB).depth == IntersectCircles(centerB, radiusB, centerA, radiusA).depth
    ensures IntersectCircles(centerA, radiusA, centerB, radiusB).normal == Neg(IntersectCircles(centerB, radiusB, centerA, radiusA).normal)
  {
    DistanceSquaredIsSymmetric(centerA, centerB);
    var distance, radii := Distance(centerA, centerB), radiusA + radiusB;
    assert Distance(centerB, centerA) == distance && radiusB + radiusA == radii;
    if distance >= radii {
      assert IntersectCircles(centerA, radiusA, centerB, radiusB).normal == Zero;
      assert IntersectCircles(centerB, radiusB, centerA, radiusA).normal == Zero;
      NegatedZero();
    } else {
      assert IntersectCircles(centerA, radiusA, centerB, radiusB).normal == Normalize(Sub(centerB, centerA));
      assert IntersectCircles(centerB, radiusB, centerA, radiusA).normal == Normalize(Sub(centerA, centerB));
      DirectionsAreOpposite(centerA, centerB);
    }
  }

  /** Two circle bodies collide the same way either way round, with opposite normals. */
  lemma CollideCirclesIsAntisymmetric(a: BodyView, b: BodyView)
    requires a.shapeType == Circle && b.shapeType == Circle
    ensures CollideSpec(a, b).Ok? && CollideSpec(b, a).Ok?
    ensures CollideSpec(a, b).value.hit == CollideSpec(b, a).value.hit
    ensures CollideSpec(a, b).value.depth == CollideSpec(b, a).value.depth
    ensures CollideSpec(a, b).value.normal == Neg(CollideSpec(b, a).value.normal)
  {
    assert CollideSpec(a, b) == Ok(IntersectCircles(a.position, a.radius, b.position, b.radius));
    assert CollideSpec(b, a) == Ok(IntersectCircles(b.position, b.radius, a.position, a.radius));
    IntersectCirclesIsAntisymmetric(a.position, a.radius, b.position, b.radius);
  }

  /** A body of polygon shape never collides. */
  lemma CollideWithPolygonShapeMisses(a: BodyView, b: BodyView)
    requires a.shapeType == Polygon || b.shapeType == Polygon
    ensures CollideSpec(a, b) == Ok(Intersection(false, Zero, 0.0))
  {
  }

  /** The bodies' vertex caches do not alias unless the bodies are the same. */
  predicate SeparateCaches(bodyA: LiteBody, bodyB: LiteBody) {
    bodyA == bodyB || bodyA.transformedVertices == null || bodyA.transformedVertices != bodyB.transformedVertices
  }

  /** Collide on two bodies: the boxes' vertex caches may be refreshed, and
      nothing the collision reads changes. */
  method Collide(bodyA: LiteBody, bodyB: LiteBody) returns (r: Result<Intersection, CollisionError>)
    requires bodyA.Valid() && bodyB.Valid() && SeparateCaches(bodyA, bodyB)
    modifies bodyA`transformUpdateRequired, bodyA.transformedVertices, bodyB`transformUpdateRequired, bodyB.transformedVertices
    ensures bodyA.Valid() && bodyB.Valid()
    ensures View(bodyA) == old(View(bodyA)) && View(bodyB) == old(View(bodyB))
    ensures r == CollideSpec(View(bodyA), View(bodyB))
  {
    if bodyA.shapeType == Box {
      if bodyB.shapeType == Box {
        var vsA := bodyA.GetTransformedVertices();
        var vsB := bodyB.GetTransformedVertices();
        assert vsA[..] == bodyA.WorldVertices();
        var hit, normal, depth := IntersectPolygons(bodyA.position, vsA, bodyB.position, vsB);
        return Ok(Intersection(hit, normal, depth));
      } else if bodyB.shapeType == Circle {
        var vsA := bodyA.GetTransformedVertices();
        var result := IntersectCirclePolygon(bodyB.position, bodyB.radius, bodyA.position, vsA);
        if result.Err? {
          return Err(result.error);
        }
        return Ok(Intersection(result.value.hit, Neg(result.value.normal), result.value.depth));
      }
    }
    if bodyA.shapeType == Circle {
      if bodyB.shapeType == Box {
        var vsB := bodyB.GetTransformedVertices();
        r := IntersectCirclePolygon(bodyA.position, bodyA.radius, bodyB.position, vsB);
        return;
      } else if bodyB.shapeType == Circle {
        return Ok(IntersectCircles(bodyA.position, bodyA.radius, bodyB.position, bodyB.radius));
      }
    }
    return Ok(Intersection(false, Zero, 0.0));
  }

  // ---------------------------------------------------------------------------
  // Contact points of two bodies

  /** With a lawful sine and cosine, the world corners of a box of non-zero
      width and height form a polygon without a degenerate edge. */
  lemma BoxWorldVerticesAreProper(width: real, height: real, position: LiteVector, angle: real)
    requires TrigLaws() && width != 0.0 && height != 0.0
    ensures ProperPolygon(LiteTransforms.TransformAll(BoxVertices(width, height), LiteTransforms.FromVector(position, angle)))
  {
    var box := BoxVertices(width, height);
    var ws := LiteTransforms.TransformAll(box, LiteTransforms.FromVector(position, angle));
    BoxVerticesSpec(width, height);
    forall k | 0 <= k < |ws|
      ensures ws[k] != Successor(ws, k)
    {
      var n := (k + 1) % 4;
      assert Sub(box[n], box[k]) != Zero;
      LiteTransforms.TransformKeepsDistinct(box[k], box[n], position, angle);
    }
  }

  /** The contact points FindContactPoints reports, and how many of them count. */
  datatype ContactPoints = ContactPoints(contact1: LiteVector, contact2: LiteVector, count: int)

  /** The polygons FindContactPoints walks edge by edge have no degenerate edge. */
  predicate ContactsDefined(a: BodyView, b: BodyView) {
    && (a.shapeType == Box && b.shapeType == Box ==> ProperPolygon(a.vertices) && ProperPolygon(b.vertices))
    && (a.shapeType == Box && b.shapeType == Circle ==> ProperPolygon(a.vertices))
    && (a.shapeType == Circle && b.shapeType == Box ==> ProperPolygon(b.vertices))
  }

  /** FindContactPoints: dispatch on the two shapes; a pair with a polygon
      shape reports no contact. */
  function FindContactPointsSpec(a: BodyView, b: BodyView): ContactPoints
    requires ContactsDefined(a, b)
  {
    if a.shapeType == Box && b.shapeType == Box then
      var c := PolygonsContactsSpec(a.vertices, b.vertices);
      ContactPoints(c.contact1, c.contact2, c.count)
    else if a.shapeType == Box && b.shapeType == Circle then
      ContactPoints(CirclePolygonContact(b.position, a.vertices), Zero, 1)
    else if a.shapeType == Circle && b.shapeType == Box then
      ContactPoints(CirclePolygonContact(a.position, b.vertices), Zero, 1)
    else if a.shapeType == Circle && b.shapeType == Circle then
      ContactPoints(CirclesContactPoint(a.position, a.radius, b.position), Zero, 1)
    else
      ContactPoints(Zero, Zero, 0)
  }

  /** Some candidate comes within reach. */
  predicate SomeReachable(cands: seq<Closest>) {
    exists k :: 0 <= k < |cands| && Reachable(cands[k])
  }

  /** Two boxes give at most two contact points, never two nearly equal ones,
      and at least one as soon as some vertex comes within reach of an edge. */
  lemma FindContactPointsOfBoxes(a: BodyView, b: BodyView)
    requires a.shapeType == Box && b.shapeType == Box && ContactsDefined(a, b)
    ensures 0 <= FindContactPointsSpec(a, b).count <= 2
    ensures FindContactPointsSpec(a, b).count == 2 ==>
      !NearlyEqualVectors(FindContactPointsSpec(a, b).contact1, FindContactPointsSpec(a, b).contact2)
    ensures SomeReachable(AllCandidates(a.vertices, b.vertices)) ==> FindContactPointsSpec(a, b).count >= 1
  {
    var c := PolygonsContactsSpec(a.vertices, b.vertices);
    assert FindContactPointsSpec(a, b) == ContactPoints(c.contact1, c.contact2, c.count);
    PolygonsContactsSpecInvariant(a.vertices, b.vertices);
    NearlyEqualVectorsIsSymmetric(c.contact1, c.contact2);
  }

  /** Any other pair gives no contact point when a polygon shape is involved,
      and exactly one when a circle meets a box or a circle. */
  lemma FindContactPointsOfOtherPairs(a: BodyView, b: BodyView)
    requires !(a.shapeType == Box && b.shapeType == Box) && ContactsDefined(a, b)
    ensures a.shapeType == Polygon || b.shapeType == Polygon ==> FindContactPointsSpec(a, b) == ContactPoints(Zero, Zero, 0)
    ensures a.shapeType != Polygon && b.shapeType != Polygon ==>
      FindContactPointsSpec(a, b).count == 1 && FindContactPointsSpec(a, b).contact2 == Zero
  {
  }

  /** FindContactPoints on two bodies: the boxes' vertex caches may be
      refreshed, and nothing the contact search reads changes. */
  method FindContactPoints(bodyA: LiteBody, bodyB: LiteBody) returns (contact1: LiteVector, contact2: LiteVector, contactCount: int)
    requires bodyA.Valid() && bodyB.Valid() && SeparateCaches(bodyA, bodyB)
    requires ContactsDefined(View(bodyA), View(bodyB))
    modifies bodyA`transformUpdateRequired, bodyA.transformedVertices, bodyB`transformUpdateRequired, bodyB.transformedVertices
    ensures bodyA.Valid() && bodyB.Valid()
    ensures View(bodyA) == old(View(bodyA)) && View(bodyB) == old(View(bodyB))
    ensures ContactPoints(contact1, contact2, contactCount) == FindContactPointsSpec(View(bodyA), View(bodyB))
  {
    contact1, contact2, contactCount := Zero, Zero, 0;
    if bodyA.shapeType == Box {
      if bodyB.shapeType == Box {
        var vsA := bodyA.GetTransformedVertices();
        var vsB := bodyB.GetTransformedVertices();
        assert vsA[..] == bodyA.WorldVertices();
        contact1, contact2, contactCount := FindPolygonsContactPoints(vsA, vsB);
      } else if bodyB.shapeType == Circle {
        var vsA := bodyA.GetTransformedVertices();
        contact1 := FindCirclePolygonContactPoint(bodyB.position, bodyB.radius, bodyA.position, vsA);
        contactCount := 1;
      }
    }
    if bodyA.shapeType == Circle {
      if bodyB.shapeType == Box {
        var vsB := bodyB.GetTransformedVertices();
        contact1 := FindCirclePolygonContactPoint(bodyA.position, bodyA.radius, bodyB.position, vsB);
        contactCount := 1;
      } else if bodyB.shapeType == Circle {
        contact1 := CirclesContactPoint(bodyA.position, bodyA.radius, bodyB.position);
        contactCount := 1;
      }
    }
  }
}
