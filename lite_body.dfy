/** LiteBody: a rigid circle or box. Two factories validate the size and the
    density and derive mass and inertia; the body keeps a pose (position and
    angle) with velocities and a force, and caches its world-space vertices
    and its bounding box behind two dirty flags that every pose change sets. */
module LiteBodies {
  import opened Primitives
  import opened Results
  import opened LiteVectors
  import LiteTransforms
  import opened LiteAABBs
  import opened LiteWorld

  datatype ShapeType = Circle | Box | Polygon

  // ---------------------------------------------------------------------------
  // Validation and the derived quantities of the factories

  const AreaTooSmall: string := "Area is too small, Min area is 0.001"
  const AreaTooBig: string := "Area is too big, Max area is 4096"
  const DensityTooSmall: string := "Density is too small, Min density is 0.5"
  const DensityTooBig: string := "Density is too big, Max density is 22"

  /** The four checks both factories make, in this order; the first failing one
      gives the error message. */
  function CheckLimits(area: real, density: real): Outcome<string> {
    if area < MinBodySize then Fail(AreaTooSmall)
    else if area > MaxBodySize then Fail(AreaTooBig)
    else if density < MinDensity then Fail(DensityTooSmall)
    else if density > MaxDensity then Fail(DensityTooBig)
    else Pass
  }

  /** A body is accepted exactly when its area and its density lie in the
      world's closed ranges; a rejection always carries a non-empty message,
      and the area is checked before the density. */
  lemma CheckLimitsAcceptsExactlyTheRanges(area: real, density: real)
    ensures CheckLimits(area, density) == Pass <==>
      MinBodySize <= area <= MaxBodySize && MinDensity <= density <= MaxDensity
    ensures CheckLimits(area, density).Fail? ==> |CheckLimits(area, density).error| > 0
    ensures area < MinBodySize ==> CheckLimits(area, density) == Fail(AreaTooSmall)
    ensures area > MaxBodySize ==> CheckLimits(area, density) == Fail(AreaTooBig)
    ensures MinBodySize <= area <= MaxBodySize && density < MinDensity ==>
      CheckLimits(area, density) == Fail(DensityTooSmall)
    ensures MinBodySize <= area <= MaxBodySize && density > MaxDensity ==>
      CheckLimits(area, density) == Fail(DensityTooBig)
  {
  }

  /** The constant part of a body: everything the private constructor receives
      apart from the vertex array. */
  datatype BodyProperties = BodyProperties(
    shapeType: ShapeType, density: real, mass: real, inertia: real, restitution: real,
    area: real, isStatic: bool, radius: real, width: real, height: real)

  /** What CreateCircleBody validates and computes. The area is radius * PI,
      which is what the source computes (not PI * radius^2). */
  function CircleProperties(radius: real, density: real, restitution: real, isStatic: bool): Result<BodyProperties, string> {
    var area := radius * PI;
    match CheckLimits(area, density)
    case Fail(e) => Err(e)
    case Pass =>
      var mass := if isStatic then 0.0 else area * density;
      var inertia := if isStatic then 0.0 else (1.0 / 2.0) * mass * radius * radius;
      Ok(BodyProperties(Circle, density, mass, inertia, Clamp(restitution, 0.0, 1.0), area, isStatic, radius, 0.0, 0.0))
  }

  /** What CreateBoxBody validates and computes. */
  function BoxProperties(width: real, height: real, density: real, restitution: real, isStatic: bool): Result<BodyProperties, string> {
    var area := width * height;
    match CheckLimits(area, density)
    case Fail(e) => Err(e)
    case Pass =>
      var mass := if isStatic then 0.0 else area * density;
      var inertia := if isStatic then 0.0 else (1.0 / 12.0) * mass * (width * width + height * height);
      Ok(BodyProperties(Box, density, mass, inertia, Clamp(restitution, 0.0, 1.0), area, isStatic, 0.0, width, height))
  }

  /** A circle factory's result: rejected with the first failing check's message,
      or accepted with area radius * PI, restitution clamped into [0, 1], and
      mass and inertia zero for a static body and area * density and
      m * r^2 / 2 for a dynamic one. */
  lemma CirclePropertiesSpec(radius: real, density: real, restitution: real, isStatic: bool)
    ensures CircleProperties(radius, density, restitution, isStatic).Err? <==> CheckLimits(radius * PI, density).Fail?
    ensures CircleProperties(radius, density, restitution, isStatic).Err? ==>
      CircleProperties(radius, density, restitution, isStatic).error == CheckLimits(radius * PI, density).error
    ensures CircleProperties(radius, density, restitution, isStatic).Ok? ==>
      var p := CircleProperties(radius, density, restitution, isStatic).value;
      p.shapeType == Circle && p.area == radius * PI && p.radius == radius && p.density == density &&
      0.0 <= p.restitution <= 1.0 && (0.0 <= restitution <= 1.0 ==> p.restitution == restitution) &&
      p.isStatic == isStatic &&
      (isStatic ==> p.mass == 0.0 && p.inertia == 0.0) &&
      (!isStatic ==> p.mass == p.area * density && p.inertia == p.mass * radius * radius / 2.0)
  {
  }

  /** A box factory's result, as for circles, with area width * height and
      dynamic inertia m * (w^2 + h^2) / 12. */
  lemma BoxPropertiesSpec(width: real, height: real, density: real, restitution: real, isStatic: bool)
    ensures BoxProperties(width, height, density, restitution, isStatic).Err? <==> CheckLimits(width * height, density).Fail?
    ensures BoxProperties(width, height, density, restitution, isStatic).Err? ==>
      BoxProperties(width, height, density, restitution, isStatic).error == CheckLimits(width * height, density).error
    ensures BoxProperties(width, height, density, restitution, isStatic).Ok? ==>
      var p := BoxProperties(width, height, density, restitution, isStatic).value;
      p.shapeType == Box && p.area == width * height && p.width == width && p.height == height &&
      p.density == density &&
      0.0 <= p.restitution <= 1.0 && (0.0 <= restitution <= 1.0 ==> p.restitution == restitution) &&
      p.isStatic == isStatic &&
      (isStatic ==> p.mass == 0.0 && p.inertia == 0.0) &&
      (!isStatic ==> p.mass == p.area * density && p.inertia == p.mass * (width * width + height * height) / 12.0)
  {
  }

  /** An accepted dynamic circle has positive mass and inertia, so its
      inverses are defined. */
  lemma DynamicCircleHasMass(radius: real, density: real, restitution: real)
    requires CircleProperties(radius, density, restitution, false).Ok?
    ensures CircleProperties(radius, density, restitution, false).value.mass > 0.0
    ensures CircleProperties(radius, density, restitution, false).value.inertia > 0.0
  {
    var area := radius * PI;
    assert CheckLimits(area, density) == Pass;
    assert area >= MinBodySize && density >= MinDensity;
    assert radius > 0.0;
    var mass := area * density;
    ProductPositive(area, density);
    var half := (1.0 / 2.0) * mass;
    ProductPositive(half, radius);
    ProductPositive(half * radius, radius);
  }

  /** An accepted dynamic box has positive mass and inertia. */
  lemma DynamicBoxHasMass(width: real, height: real, density: real, restitution: real)
    requires BoxProperties(width, height, density, restitution, false).Ok?
    ensures BoxProperties(width, height, density, restitution, false).value.mass > 0.0
    ensures BoxProperties(width, height, density, restitution, false).value.inertia > 0.0
  {
    var area := width * height;
    assert CheckLimits(area, density) == Pass;
    assert area >= MinBodySize && density >= MinDensity;
    var mass := area * density;
    ProductPositive(area, density);
    NonzeroFactors(width, height);
    SumOfSquaresIsZero(width, height);
    var twelfth := (1.0 / 12.0) * mass;
    ProductPositive(twelfth, width * width + height * height);
  }

  /** The inverse the constructor stores for a mass or an inertia: zero for a
      static body, the reciprocal otherwise. */
  function Inverse(x: real, isStatic: bool): real
    requires !isStatic ==> x != 0.0
  {
    if isStatic then 0.0 else 1.0 / x
  }

  /** A static body has no inverse mass or inertia; a dynamic one has the exact
      reciprocal. */
  lemma InverseSpec(x: real, isStatic: bool)
    requires !isStatic ==> x != 0.0
    ensures isStatic ==> Inverse(x, isStatic) == 0.0
    ensures !isStatic ==> Inverse(x, isStatic) * x == 1.0
  {
  }

  /** CreateBoxVertices: the corners of a width x height box centred on the
      origin, as top-left, top-right, bottom-right, bottom-left. */
  function BoxVertices(width: real, height: real): seq<LiteVector> {
    var left := -width / 2.0;
    var right := left + width;
    var top := -height / 2.0;
    var bottom := top + height;
    [LiteVector(left, top), LiteVector(right, top), LiteVector(right, bottom), LiteVector(left, bottom)]
  }

  /** The box corners go round the rectangle edge by edge and are centred on the origin. */
  lemma BoxVerticesSpec(width: real, height: real)
    ensures |BoxVertices(width, height)| == 4
    ensures Sub(BoxVertices(width, height)[1], BoxVertices(width, height)[0]) == LiteVector(width, 0.0)
    ensures Sub(BoxVertices(width, height)[2], BoxVertices(width, height)[1]) == LiteVector(0.0, height)
    ensures Sub(BoxVertices(width, height)[3], BoxVertices(width, height)[2]) == LiteVector(-width, 0.0)
    ensures Sub(BoxVertices(width, height)[0], BoxVertices(width, height)[3]) == LiteVector(0.0, -height)
    ensures Add(Add(BoxVertices(width, height)[0], BoxVertices(width, height)[1]),
                Add(BoxVertices(width, height)[2], BoxVertices(width, height)[3])) == Zero
  {
  }

  // ---------------------------------------------------------------------------
  // Bounding boxes

  function Xs(vs: seq<LiteVector>): (r: seq<real>)
    ensures |r| == |vs| && forall i :: 0 <= i < |vs| ==> r[i] == vs[i].x
  {
    seq(|vs|, i requires 0 <= i < |vs| => vs[i].x)
  }

  function Ys(vs: seq<LiteVector>): (r: seq<real>)
    ensures |r| == |vs| && forall i :: 0 <= i < |vs| ==> r[i] == vs[i].y
  {
    seq(|vs|, i requires 0 <= i < |vs| => vs[i].y)
  }

  /** The box GetAABB computes from world vertices: running minima and maxima
      seeded with float.MaxValue and float.MinValue. */
  function VerticesAABB(vs: seq<LiteVector>): LiteAABB {
    FromCoordinates(RunningMin(Xs(vs)), RunningMin(Ys(vs)), RunningMax(Xs(vs)), RunningMax(Ys(vs)))
  }

  /** The box of a circle: its centre plus and minus the radius on both axes. */
  function CircleAABB(center: LiteVector, radius: real): LiteAABB {
    FromCoordinates(center.x - radius, center.y - radius, center.x + radius, center.y + radius)
  }

  /** Every vertex lies in the box of the vertices, and for in-range coordinates
      each side of the box touches a vertex. */
  lemma VerticesAABBSpec(vs: seq<LiteVector>)
    ensures forall i :: 0 <= i < |vs| ==> Contains(VerticesAABB(vs), vs[i])
    ensures |vs| > 0 && InFloatRange(Xs(vs)) && InFloatRange(Ys(vs)) ==>
      (exists i :: 0 <= i < |vs| && VerticesAABB(vs).min.x == vs[i].x) &&
      (exists i :: 0 <= i < |vs| && VerticesAABB(vs).max.x == vs[i].x) &&
      (exists i :: 0 <= i < |vs| && VerticesAABB(vs).min.y == vs[i].y) &&
      (exists i :: 0 <= i < |vs| && VerticesAABB(vs).max.y == vs[i].y)
  {
    var xs, ys := Xs(vs), Ys(vs);
    forall i | 0 <= i < |vs|
      ensures Contains(VerticesAABB(vs), vs[i])
    {
      assert RunningMin(xs) <= xs[i] <= RunningMax(xs);
      assert RunningMin(ys) <= ys[i] <= RunningMax(ys);
    }
    if |vs| > 0 && InFloatRange(xs) && InFloatRange(ys) {
      RunningBoundsAttained(xs);
      RunningBoundsAttained(ys);
    }
  }

  /** The corner loop of GetAABB: running minima and maxima of the x and y
      coordinates, seeded with float.MaxValue and float.MinValue. */
  method VertexBounds(vs: array<LiteVector>) returns (minX: real, minY: real, maxX: real, maxY: real)
    ensures FromCoordinates(minX, minY, maxX, maxY) == VerticesAABB(vs[..])
  {
    minX, minY, maxX, maxY := FloatMax, FloatMax, FloatMin, FloatMin;
    ghost var xs, ys := Xs(vs[..]), Ys(vs[..]);
    var i := 0;
    while i < vs.Length
      invariant 0 <= i <= vs.Length
      invariant minX == RunningMin(xs[..i]) && maxX == RunningMax(xs[..i])
      invariant minY == RunningMin(ys[..i]) && maxY == RunningMax(ys[..i])
    {
      var v := vs[i];
      RunningStep(xs, i);
      RunningStep(ys, i);
      if v.x < minX { minX := v.x; }
      if v.y < minY { minY := v.y; }
      if v.x > maxX { maxX := v.x; }
      if v.y > maxY { maxY := v.y; }
      i := i + 1;
    }
    assert xs[..i] == xs && ys[..i] == ys;
  }

  /** A circle with a non-negative radius lies in its box: the centre and the
      four extreme points are inside. */
  lemma CircleAABBSpec(center: LiteVector, radius: real)
    requires radius >= 0.0
    ensures Contains(CircleAABB(center, radius), center)
    ensures Contains(CircleAABB(center, radius), LiteVector(center.x + radius, center.y))
    ensures Contains(CircleAABB(center, radius), LiteVector(center.x, center.y - radius))
    ensures CircleAABB(center, radius).max.x - CircleAABB(center, radius).min.x == 2.0 * radius
  {
  }

  // ---------------------------------------------------------------------------
  // The body

  class LiteBody {
    var position: LiteVector
    var linearVelocity: LiteVector
    var angle: real
    var angularVelocity: real
    var force: LiteVector

    const shapeType: ShapeType
    const density: real
    const mass: real
    const invMass: real
    const restitution: real
    const area: real
    const inertia: real
    const invInertia: real
    const isStatic: bool
    const radius: real
    const width: real
    const height: real

    /** The local vertices: a box's corners; empty where the source holds null. */
    const vertices: seq<LiteVector>
    /** The cache of world vertices, written in place; null unless a box. */
    const transformedVertices: array?<LiteVector>
    var aabb: LiteAABB

    var transformUpdateRequired: bool
    var aabbUpdateRequired: bool

    /** The transform of the current pose. */
    function Pose(): LiteTransforms.LiteTransform
      reads this
    {
      LiteTransforms.FromVector(position, angle)
    }

    /** The world vertices of the current pose. */
    function WorldVertices(): seq<LiteVector>
      reads this
    {
      LiteTransforms.TransformAll(vertices, Pose())
    }

    /** The bounding box of the current pose (a polygon has none). */
    function CurrentAABB(): LiteAABB
      reads this
    {
      if shapeType == Box then VerticesAABB(WorldVertices()) else CircleAABB(position, radius)
    }

    /** The constants agree with the given properties. */
    ghost predicate HasProperties(p: BodyProperties)
      reads this
    {
      shapeType == p.shapeType && density == p.density && mass == p.mass && inertia == p.inertia &&
      restitution == p.restitution && area == p.area && isStatic == p.isStatic &&
      radius == p.radius && width == p.width && height == p.height &&
      (!isStatic ==> mass != 0.0 && inertia != 0.0) &&
      invMass == Inverse(mass, isStatic) && invInertia == Inverse(inertia, isStatic)
    }

    /** A freshly built body: at the origin, at rest, with both caches stale. */
    ghost predicate AtRest()
      reads this
    {
      position == Zero && linearVelocity == Zero && angle == 0.0 && angularVelocity == 0.0 &&
      force == Zero && transformUpdateRequired && aabbUpdateRequired
    }

    /** The cache invariant: a clean vertex cache holds the world vertices of the
        current pose, and a clean box cache holds the current bounding box. */
    ghost predicate Valid()
      reads this, transformedVertices
    {
      (shapeType == Box <==> transformedVertices != null) &&
      (shapeType != Box ==> vertices == []) &&
      (transformedVertices != null ==> transformedVertices.Length == |vertices|) &&
      (transformedVertices != null && !transformUpdateRequired ==> transformedVertices[..] == WorldVertices()) &&
      (!aabbUpdateRequired ==> shapeType != Polygon && aabb == CurrentAABB())
    }

    /** The private constructor: a body at rest at the origin with both caches stale.
        Only a box keeps its vertices and gets a cache array of the same length. */
    constructor (density: real, mass: real, inertia: real, restitution: real, area: real,
                 isStatic: bool, radius: real, width: real, height: real,
                 vertices: seq<LiteVector>, shapeType: ShapeType)
      requires !isStatic ==> mass != 0.0 && inertia != 0.0
      ensures Valid() && AtRest()
      ensures HasProperties(BodyProperties(shapeType, density, mass, inertia, restitution, area, isStatic, radius, width, height))
      ensures this.vertices == (if shapeType == Box then vertices else [])
      ensures this.transformedVertices != null ==> fresh(this.transformedVertices)
    {
      this.shapeType := shapeType;
      this.density := density;
      this.mass := mass;
      this.invMass := Inverse(mass, isStatic);
      this.inertia := inertia;
      this.invInertia := Inverse(inertia, isStatic);
      this.restitution := restitution;
      this.area := area;
      this.isStatic := isStatic;
      this.radius := radius;
      this.width := width;
      this.height := height;
      if shapeType == Box {
        this.vertices := vertices;
        this.transformedVertices := new LiteVector[|vertices|](_ => Zero);
      } else {
        this.vertices := [];
        this.transformedVertices := null;
      }
      this.position := Zero;
      this.linearVelocity := Zero;
      this.angle := 0.0;
      this.angularVelocity := 0.0;
      this.force := Zero;
      this.aabb := FromCoordinates(0.0, 0.0, 0.0, 0.0);
      this.transformUpdateRequired := true;
      this.aabbUpdateRequired := true;
    }

    /** Refreshes the vertex cache only when it is stale, then returns the cache
        array itself: the result always holds the world vertices of the current
        pose, and with a clean cache nothing is rewritten. */
    method GetTransformedVertices() returns (vs: array<LiteVector>)
      requires Valid() && shapeType == Box
      modifies this`transformUpdateRequired, transformedVertices
      ensures Valid()
      ensures vs == transformedVertices && vs[..] == WorldVertices()
      ensures !transformUpdateRequired
      ensures !old(transformUpdateRequired) ==> unchanged(transformedVertices)
    {
      if transformUpdateRequired {
        var t := LiteTransforms.FromVector(position, angle);
        var i := 0;
        while i < |vertices|
          invariant 0 <= i <= |vertices|
          invariant forall k :: 0 <= k < i ==> transformedVertices[k] == LiteTransforms.Transform(vertices[k], t)
          modifies transformedVertices
        {
          transformedVertices[i] := LiteTransforms.Transform(vertices[i], t);
          i := i + 1;
        }
        transformUpdateRequired := false;
        assert transformedVertices[..] == WorldVertices();
      }
      vs := transformedVertices;
    }

    /** Recomputes the bounding box when its cache is stale (a box from its world
        vertices, a circle from its centre and radius) and returns it; the flag is
        cleared whether or not it was set. A polygon raises "Unknown ShapeType."
        and changes nothing. */
    method GetAABB() returns (r: Result<LiteAABB, string>)
      requires Valid()
      modifies this`aabb, this`aabbUpdateRequired, this`transformUpdateRequired, transformedVertices
      ensures Valid()
      ensures shapeType == Polygon ==> r == Err("Unknown ShapeType.") && unchanged(this)
      ensures shapeType != Polygon ==> r == Ok(CurrentAABB()) && aabb == CurrentAABB() && !aabbUpdateRequired
      ensures shapeType != Box ==> unchanged(this`transformUpdateRequired)
      ensures transformedVertices != null && !old(transformUpdateRequired) ==> unchanged(transformedVertices)
    {
      if aabbUpdateRequired {
        var minX, minY, maxX, maxY := FloatMax, FloatMax, FloatMin, FloatMin;
        if shapeType == Box {
          var vs := GetTransformedVertices();
          minX, minY, maxX, maxY := VertexBounds(vs);
        } else if shapeType == Circle {
          minX := position.x - radius;
          minY := position.y - radius;
          maxX := position.x + radius;
          maxY := position.y + radius;
        } else {
          return Err("Unknown ShapeType.");
        }
        aabb := FromCoordinates(minX, minY, maxX, maxY);
      }
      aabbUpdateRequired := false;
      r := Ok(aabb);
    }

    /** One sub-step of integration: a static body is untouched; otherwise with
        h = time / iterations the velocity gains gravity * h, the position moves
        by the new velocity * h, the angle by the angular velocity * h, the force
        is cleared and both caches go stale. */
    method Step(time: real, gravity: LiteVector, iterations: int)
      requires Valid() && iterations != 0
      modifies this`linearVelocity, this`position, this`angle, this`force,
               this`transformUpdateRequired, this`aabbUpdateRequired
      ensures Valid()
      ensures isStatic ==> unchanged(this)
      ensures !isStatic ==>
        var h := time / iterations as real;
        linearVelocity == Add(old(linearVelocity), Mul(gravity, h)) &&
        position == Add(old(position), Mul(linearVelocity, h)) &&
        angle == old(angle) + angularVelocity * h &&
        force == Zero && transformUpdateRequired && aabbUpdateRequired
    {
      if isStatic {
        return;
      }
      var h := time / iterations as real;
      linearVelocity := Add(linearVelocity, Mul(gravity, h));
      position := Add(position, Mul(linearVelocity, h));
      angle := angle + angularVelocity * h;
      force := Zero;
      transformUpdateRequired := true;
      aabbUpdateRequired := true;
    }

    /** Moves the body by an offset; both caches go stale. */
    method Move(amount: LiteVector)
      requires Valid()
      modifies this`position, this`transformUpdateRequired, this`aabbUpdateRequired
      ensures Valid()
      ensures position == Add(old(position), amount) && transformUpdateRequired && aabbUpdateRequired
    {
      position := Add(position, amount);
      transformUpdateRequired := true;
      aabbUpdateRequired := true;
    }

    /** Places the body at a position; both caches go stale. */
    method MoveTo(position: LiteVector)
      requires Valid()
      modifies this`position, this`transformUpdateRequired, this`aabbUpdateRequired
      ensures Valid()
      ensures this.position == position && transformUpdateRequired && aabbUpdateRequired
    {
      this.position := position;
      transformUpdateRequired := true;
      aabbUpdateRequired := true;
    }

    /** Turns the body by an angle; both caches go stale. */
    method Rotate(amount: real)
      requires Valid()
      modifies this`angle, this`transformUpdateRequired, this`aabbUpdateRequired
      ensures Valid()
      ensures angle == old(angle) + amount && transformUpdateRequired && aabbUpdateRequired
    {
      angle := angle + amount;
      transformUpdateRequired := true;
      aabbUpdateRequired := true;
    }

    /** Sets the angle; both caches go stale. */
    method RotateTo(angle: real)
      requires Valid()
      modifies this`angle, this`transformUpdateRequired, this`aabbUpdateRequired
      ensures Valid()
      ensures this.angle == angle && transformUpdateRequired && aabbUpdateRequired
    {
      this.angle := angle;
      transformUpdateRequired := true;
      aabbUpdateRequired := true;
    }

    /** Replaces the force (it does not accumulate); nothing else changes. */
    method AddForce(amount: LiteVector)
      requires Valid()
      modifies this`force
      ensures Valid()
      ensures force == amount
    {
      force := amount;
    }
  }

  /** CreateCircleBody: on rejection no body and the first failing check's
      message; on success an empty message and a new body at rest with the
      validated properties. */
  method CreateCircleBody(radius: real, density: real, restitution: real, isStatic: bool)
    returns (ok: bool, body: LiteBody?, error: string)
    ensures ok <==> CircleProperties(radius, density, restitution, isStatic).Ok?
    ensures !ok ==> body == null && error == CircleProperties(radius, density, restitution, isStatic).error
    ensures ok ==> (error == "" && body != null && fresh(body) && body.Valid() && body.AtRest() &&
      body.HasProperties(CircleProperties(radius, density, restitution, isStatic).value) &&
      body.vertices == [])
  {
    body := null;
    error := "";
    var area := radius * PI;
    if area < MinBodySize {
      return false, body, AreaTooSmall;
    }
    if area > MaxBodySize {
      return false, body, AreaTooBig;
    }
    if density < MinDensity {
      return false, body, DensityTooSmall;
    }
    if density > MaxDensity {
      return false, body, DensityTooBig;
    }
    var r := Clamp(restitution, 0.0, 1.0);
    var mass := 0.0;
    var inertia := 0.0;
    if !isStatic {
      mass := area * density;
      inertia := (1.0 / 2.0) * mass * radius * radius;
      DynamicCircleHasMass(radius, density, restitution);
    }
    body := new LiteBody(density, mass, inertia, r, area, isStatic, radius, 0.0, 0.0, [], Circle);
    ok := true;
  }

  /** CreateBoxBody: as CreateCircleBody, for a box that also keeps its four
      centred corners. */
  method CreateBoxBody(width: real, height: real, density: real, restitution: real, isStatic: bool)
    returns (ok: bool, body: LiteBody?, error: string)
    ensures ok <==> BoxProperties(width, height, density, restitution, isStatic).Ok?
    ensures !ok ==> body == null && error == BoxProperties(width, height, density, restitution, isStatic).error
    ensures ok ==> (error == "" && body != null && fresh(body) && body.Valid() && body.AtRest() &&
      body.HasProperties(BoxProperties(width, height, density, restitution, isStatic).value) &&
      body.vertices == BoxVertices(width, height))
  {
    body := null;
    error := "";
    var area := width * height;
    if area < MinBodySize {
      return false, body, AreaTooSmall;
    }
    if area > MaxBodySize {
      return false, body, AreaTooBig;
    }
    if density < MinDensity {
      return false, body, DensityTooSmall;
    }
    if density > MaxDensity {
      return false, body, DensityTooBig;
    }
    var r := Clamp(restitution, 0.0, 1.0);
    var mass := 0.0;
    var inertia := 0.0;
    if !isStatic {
      mass := area * density;
      inertia := (1.0 / 12.0) * mass * (width * width + height * height);
      DynamicBoxHasMass(width, height, density, restitution);
    }
    var vertices := BoxVertices(width, height);
    body := new LiteBody(density, mass, inertia, r, area, isStatic, 0.0, width, height, vertices, Box);
    ok := true;
  }

  /** A static body, of either shape, has no mass, no inverse mass and no
      inverse inertia, whatever its density. */
  lemma StaticBodyIsImmovable(b: LiteBody, p: BodyProperties)
    requires b.HasProperties(p) && p.isStatic
    ensures b.invMass == 0.0 && b.invInertia == 0.0
  {
  }
}
