/** Shapes: the batch of triangle-list geometry behind the drawing calls. A
    Begin/End protocol brackets fixed-capacity vertex and index buffers; a
    shape that would not fit flushes the batch first. Only the counts and the
    index buffer are modelled: vertex positions and colours are not. */
module ShapeBatch {
  import opened Primitives
  import opened Results
  import opened Xna
  import Utils

  /** The capacity of the vertex buffer. */
  const NumberOfVertices: int := 1024
  /** The capacity of the index buffer: three indices per vertex. */
  const NumberOfIndices: int := NumberOfVertices * 3

  /** The exceptions of the batch. */
  datatype ShapesError =
    | NotStarted                  // Begin() wasn't called
    | AlreadyStarted              // Begin() called before End()
    | TooManyVertices(vertexCount: int)
    | TooManyIndices(indexCount: int)
    | ZeroLengthLine              // Utils.Normalize on a line whose ends coincide
    | NotTriangulated(reason: Utils.TriangulateError)

  /** One flushed draw call: its vertex count, its triangle count and its indices. */
  datatype Batch = Batch(vertexCount: int, primitiveCount: int, indices: seq<int>)

  /** What the batch holds: whether Begin was called, the shapes, vertices and
      indices waiting for the next flush, and the draw calls made so far. */
  datatype Batcher = Batcher(started: bool, shapeCount: int, verticesCount: int, pending: seq<int>, drawn: seq<Batch>)

  /** The state after an operation and whether the operation threw. */
  datatype Step = Step(state: Batcher, outcome: Outcome<ShapesError>)

  /** The state of a new Shapes object. */
  const Initial: Batcher := Batcher(false, 0, 0, [], [])

  /** Nothing exceeds the buffers, and a batch without shapes holds no
      vertices and no indices. */
  predicate Fits(s: Batcher) {
    && s.shapeCount >= 0
    && 0 <= s.verticesCount <= NumberOfVertices
    && |s.pending| <= NumberOfIndices
    && (s.shapeCount == 0 ==> s.verticesCount == 0 && s.pending == [])
  }

  /** Every pending index names a vertex of the pending batch. */
  predicate IndicesInRange(s: Batcher) {
    forall k :: 0 <= k < |s.pending| ==> 0 <= s.pending[k] < s.verticesCount
  }

  /** Every index of `local` names one of the shape's n vertices. */
  predicate LocalIndices(local: seq<int>, n: int) {
    forall k :: 0 <= k < |local| ==> 0 <= local[k] < n
  }

  /** Every index drawn so far, in order. */
  function AllDrawn(drawn: seq<Batch>): seq<int> {
    if |drawn| == 0 then [] else AllDrawn(drawn[..|drawn| - 1]) + drawn[|drawn| - 1].indices
  }

  /** Every index handed to the batch: those drawn, then those pending. */
  function Emitted(s: Batcher): seq<int> {
    AllDrawn(s.drawn) + s.pending
  }

  /** A shape's indices shifted by the vertices already in the batch. */
  function Offset(local: seq<int>, base: int): (r: seq<int>)
    ensures |r| == |local|
    ensures forall k :: 0 <= k < |local| ==> r[k] == local[k] + base
  {
    seq(|local|, k requires 0 <= k < |local| => local[k] + base)
  }

  /** The two triangles of a quad: 0, 1, 2 and 0, 2, 3. */
  const QuadIndices: seq<int> := [0, 1, 2, 0, 2, 3]

  /** The fan of t triangles (0, i + 1, i + 2) for i = 0 .. t - 1. */
  function FanIndices(t: nat): (r: seq<int>)
    ensures |r| == 3 * t
    ensures forall k :: 0 <= k < |r| ==> r[k] == (if k % 3 == 0 then 0 else k / 3 + k % 3)
  {
    if t == 0 then [] else FanIndices(t - 1) + [0, t, t + 1]
  }

  /** Flush: a batch with shapes is drawn and emptied; an empty one is left alone. */
  function FlushSpec(s: Batcher): Batcher {
    if s.shapeCount == 0 then s
    else Batcher(s.started, 0, 0, [], s.drawn + [Batch(s.verticesCount, |s.pending| / 3, s.pending)])
  }

  /** The test of EnsureSpace: the shape would reach the end of a buffer. */
  predicate NeedsFlush(s: Batcher, nv: int, ni: int) {
    s.verticesCount + nv >= NumberOfVertices || |s.pending| + ni >= NumberOfIndices
  }

  /** EnsureSpace: refuse a shape larger than a buffer, flush when it would not fit. */
  function EnsureSpaceSpec(s: Batcher, nv: int, ni: int): Step {
    if nv > NumberOfVertices then Step(s, Fail(TooManyVertices(nv)))
    else if ni > NumberOfIndices then Step(s, Fail(TooManyIndices(ni)))
    else if NeedsFlush(s, nv, ni) then Step(FlushSpec(s), Pass)
    else Step(s, Pass)
  }

  /** EnsureAddShape: the batch must be started and have room; the shape is counted. */
  function AddShapeSpec(s: Batcher, nv: int, ni: int): Step {
    if !s.started then Step(s, Fail(NotStarted))
    else
      var r := EnsureSpaceSpec(s, nv, ni);
      if r.outcome.Fail? then r else Step(r.state.(shapeCount := r.state.shapeCount + 1), Pass)
  }

  /** A shape's n vertices and its indices appended to the batch. */
  function Append(s: Batcher, n: int, local: seq<int>): Batcher {
    s.(verticesCount := s.verticesCount + n, pending := s.pending + Offset(local, s.verticesCount))
  }

  /** A filled shape of n vertices with the given local indices. */
  function FillShapeSpec(s: Batcher, n: int, local: seq<int>): Step {
    var r := AddShapeSpec(s, n, |local|);
    if r.outcome.Fail? then r else Step(Append(r.state, n, local), Pass)
  }

  function BeginSpec(s: Batcher): Step {
    if s.started then Step(s, Fail(AlreadyStarted)) else Step(s.(started := true), Pass)
  }

  function EndSpec(s: Batcher): Step {
    if !s.started then Step(s, Fail(NotStarted)) else Step(FlushSpec(s).(started := false), Pass)
  }

  function FillRectangleSpec(s: Batcher): Step {
    FillShapeSpec(s, 4, QuadIndices)
  }

  /** The clamp of FillCircle's point count. */
  const MinPoints: int := 3
  const MaxPoints: int := 256

  /** FillCircle: between 3 and 256 vertices and the fan of their triangles. */
  function FillCircleSpec(s: Batcher, points: int): Step {
    var n := ClampInt(points, MinPoints, MaxPoints);
    FillShapeSpec(s, n, FanIndices(n - 2))
  }

  /** FillPolygon(vertex, index): the caller's vertices and indices. */
  function FillPolygonSpec(s: Batcher, vertex: seq<Vector2>, index: seq<int>): Step {
    FillShapeSpec(s, |vertex|, index)
  }

  /** FillPolygon(vertex): the polygon triangulated first, which may throw
      before the batch is touched. */
  function FillPolygonTriangulatedSpec(s: Batcher, vertex: seq<Vector2>): Step {
    match Utils.TriangulateSpec(vertex)
    case Err(e) => Step(s, Fail(NotTriangulated(e)))
    case Ok(index) => FillPolygonSpec(s, vertex, index)
  }

  /** A line from (fromX, fromY) to (toX, toY). */
  datatype Line = Line(fromX: real, fromY: real, toX: real, toY: real)

  /** DrawLine: a quad around the line. The shape is counted before the
      direction is normalised, and Utils.Normalize throws when the line's
      length is zero, so such a line throws with the shape already counted. */
  function DrawLineSpec(s: Batcher, line: Line): Step {
    var r := AddShapeSpec(s, 4, 6);
    if r.outcome.Fail? then r
    else if Utils.PairLength(line.toX - line.fromX, line.toY - line.fromY) == 0.0 then Step(r.state, Fail(ZeroLengthLine))
    else Step(Append(r.state, 4, QuadIndices), Pass)
  }

  /** The first n lines drawn one after the other, stopping at the first that throws. */
  function DrawLinesSpec(s: Batcher, lines: seq<Line>, n: int): Step
    requires 0 <= n <= |lines|
  {
    if n == 0 then Step(s, Pass)
    else
      var r := DrawLinesSpec(s, lines, n - 1);
      if r.outcome.Fail? then r else DrawLineSpec(r.state, lines[n - 1])
  }

  /** The four edges of a rectangle: top, right, bottom, left. */
  function RectangleEdges(x: real, y: real, width: real, height: real): seq<Line> {
    var left, top, right, bottom := x, y, x + width, y + height;
    [Line(left, top, right, top), Line(right, top, right, bottom),
     Line(right, bottom, left, bottom), Line(left, bottom, left, top)]
  }

  /** DrawRectangle: a shape of its own, counted first, then its four edges. */
  function DrawRectangleSpec(s: Batcher, x: real, y: real, width: real, height: real): Step {
    var r := AddShapeSpec(s, 4, 6);
    if r.outcome.Fail? then r else DrawLinesSpec(r.state, RectangleEdges(x, y, width, height), 4)
  }

  /** The closed outline of a polygon: point i to point i + 1, the last back to the first. */
  function PolygonEdges(points: seq<Vector2>): (r: seq<Line>)
    ensures |r| == |points|
  {
    seq(|points|, i requires 0 <= i < |points| =>
      Line(points[i].x, points[i].y, points[(i + 1) % |points|].x, points[(i + 1) % |points|].y))
  }

  function DrawPolygonSpec(s: Batcher, points: seq<Vector2>): Step {
    DrawLinesSpec(s, PolygonEdges(points), |points|)
  }

  // ---------------------------------------------------------------------------
  // Properties of the batch

  /** A new batch fits its buffers and holds no index out of range. */
  lemma InitialFits()
    ensures Fits(Initial) && IndicesInRange(Initial) && Emitted(Initial) == []
  {
  }

  lemma AllDrawnAppend(drawn: seq<Batch>, b: Batch)
    ensures AllDrawn(drawn + [b]) == AllDrawn(drawn) + b.indices
  {
    assert (drawn + [b])[..|drawn|] == drawn;
  }

  /** Flushing never loses an index: the pending indices become the last draw
      call. A batch that fits is empty afterwards, whether or not it had shapes. */
  lemma FlushDrawsPending(s: Batcher)
    ensures Emitted(FlushSpec(s)) == Emitted(s)
    ensures FlushSpec(s).started == s.started
    ensures |FlushSpec(s).drawn| == |s.drawn| + (if s.shapeCount == 0 then 0 else 1)
    ensures Fits(s) ==>
      Fits(FlushSpec(s)) && FlushSpec(s).shapeCount == 0 && FlushSpec(s).verticesCount == 0 && FlushSpec(s).pending == []
  {
    if s.shapeCount != 0 {
      AllDrawnAppend(s.drawn, Batch(s.verticesCount, |s.pending| / 3, s.pending));
    }
  }

  /** EnsureAddShape fails exactly when the batch is not started or the shape
      is larger than a buffer, and then changes nothing. Otherwise the shape
      is counted and there is room for it, no index has been lost, and what
      is pending has been drawn exactly when the shape would not have fitted. */
  lemma AddShapeMakesRoom(s: Batcher, nv: int, ni: int)
    requires Fits(s) && nv >= 0 && ni >= 0
    ensures AddShapeSpec(s, nv, ni).outcome.Fail? <==> !s.started || nv > NumberOfVertices || ni > NumberOfIndices
    ensures AddShapeSpec(s, nv, ni).outcome == Fail(NotStarted) <==> !s.started
    ensures AddShapeSpec(s, nv, ni).outcome.Fail? ==> AddShapeSpec(s, nv, ni).state == s
    ensures AddShapeSpec(s, nv, ni).outcome.Pass? ==>
      var t := AddShapeSpec(s, nv, ni).state;
      && Fits(t) && t.started && t.shapeCount == (if NeedsFlush(s, nv, ni) then 1 else s.shapeCount + 1)
      && t.verticesCount + nv <= NumberOfVertices && |t.pending| + ni <= NumberOfIndices
      && Emitted(t) == Emitted(s)
      && t.verticesCount == (if NeedsFlush(s, nv, ni) then 0 else s.verticesCount)
      && t.pending == (if NeedsFlush(s, nv, ni) then [] else s.pending)
      && (IndicesInRange(s) ==> IndicesInRange(t))
  {
    FlushDrawsPending(s);
  }

  /** A filled shape keeps the batch within its buffers. When it is added, its
      indices, shifted by the vertices before it, follow what was pending (or
      start a fresh batch when the old one was drawn), its vertices follow the
      batch's, and indices that name the shape's own vertices keep every
      pending index in range. */
  lemma FillShapeAppends(s: Batcher, n: int, local: seq<int>)
    requires Fits(s) && n >= 0
    ensures Fits(FillShapeSpec(s, n, local).state)
    ensures FillShapeSpec(s, n, local).outcome.Fail? ==> FillShapeSpec(s, n, local).state == s
    ensures FillShapeSpec(s, n, local).outcome.Pass? ==>
      var t, b := FillShapeSpec(s, n, local).state, if NeedsFlush(s, n, |local|) then 0 else s.verticesCount;
      && t.verticesCount == b + n
      && t.pending == (if NeedsFlush(s, n, |local|) then [] else s.pending) + Offset(local, b)
      && Emitted(t) == Emitted(s) + Offset(local, b)
    ensures IndicesInRange(s) && LocalIndices(local, n) ==> IndicesInRange(FillShapeSpec(s, n, local).state)
  {
    AddShapeMakesRoom(s, n, |local|);
    var r := AddShapeSpec(s, n, |local|);
    if r.outcome.Pass? {
      var b := r.state.verticesCount;
      assert Emitted(Append(r.state, n, local)) == Emitted(r.state) + Offset(local, b);
    }
  }

  /** FillRectangle succeeds exactly on a started batch and then adds four
      vertices and the six indices b, b+1, b+2, b, b+2, b+3 after the b
      vertices already in the batch. */
  lemma FillRectangleAppendsQuad(s: Batcher)
    requires Fits(s)
    ensures FillRectangleSpec(s).outcome.Pass? <==> s.started
    ensures FillRectangleSpec(s).outcome.Pass? ==>
      var t, b := FillRectangleSpec(s).state, if NeedsFlush(s, 4, 6) then 0 else s.verticesCount;
      t.verticesCount == b + 4 &&
      t.pending == (if NeedsFlush(s, 4, 6) then [] else s.pending) + [b, b + 1, b + 2, b, b + 2, b + 3]
  {
    AddShapeMakesRoom(s, 4, 6);
    FillShapeAppends(s, 4, QuadIndices);
    var b := if NeedsFlush(s, 4, 6) then 0 else s.verticesCount;
    assert Offset(QuadIndices, b) == [b, b + 1, b + 2, b, b + 2, b + 3];
  }

  /** FillCircle succeeds exactly on a started batch and then adds n vertices,
      n the point count clamped to [3, 256], and the fan of triangles
      (b, b+i+1, b+i+2) for i = 0 .. n - 3, all within the circle's vertices. */
  lemma FillCircleAppendsFan(s: Batcher, points: int)
    requires Fits(s)
    ensures FillCircleSpec(s, points).outcome.Pass? <==> s.started
    ensures FillCircleSpec(s, points).outcome.Pass? ==>
      var t, n := FillCircleSpec(s, points).state, ClampInt(points, MinPoints, MaxPoints);
      var b := if NeedsFlush(s, n, 3 * (n - 2)) then 0 else s.verticesCount;
      && MinPoints <= n <= MaxPoints && t.verticesCount == b + n
      && t.pending == (if NeedsFlush(s, n, 3 * (n - 2)) then [] else s.pending) + Offset(FanIndices(n - 2), b)
    ensures IndicesInRange(s) ==> IndicesInRange(FillCircleSpec(s, points).state)
  {
    var n := ClampInt(points, MinPoints, MaxPoints);
    var fan := FanIndices(n - 2);
    AddShapeMakesRoom(s, n, |fan|);
    FillShapeAppends(s, n, fan);
    forall k | 0 <= k < |fan|
      ensures 0 <= fan[k] < n
    {
      assert fan[k] == (if k % 3 == 0 then 0 else k / 3 + k % 3);
    }
  }

  /** FillPolygon(vertex) throws, changing nothing, exactly when the polygon
      cannot be triangulated; fewer than three vertices never can. A
      triangulation only names the polygon's own vertices, so every pending
      index stays in range. */
  lemma FillPolygonTriangulatedKeepsRange(s: Batcher, vertex: seq<Vector2>)
    requires Fits(s)
    ensures Fits(FillPolygonTriangulatedSpec(s, vertex).state)
    ensures Utils.TriangulateSpec(vertex).Err? ==>
      FillPolygonTriangulatedSpec(s, vertex) == Step(s, Fail(NotTriangulated(Utils.TriangulateSpec(vertex).error)))
    ensures |vertex| < 3 ==> FillPolygonTriangulatedSpec(s, vertex) == Step(s, Fail(NotTriangulated(Utils.TooFewVertices)))
    ensures IndicesInRange(s) ==> IndicesInRange(FillPolygonTriangulatedSpec(s, vertex).state)
  {
    Utils.TriangulateShape(vertex);
    if Utils.TriangulateSpec(vertex).Ok? {
      FillShapeAppends(s, |vertex|, Utils.TriangulateSpec(vertex).value);
    }
  }

  /** With a lawful square root, DrawLine on a started batch throws exactly
      when the two ends coincide; either way the shape has been counted and
      the batch still fits. A line that is drawn adds one quad. */
  lemma DrawLineSpecCases(s: Batcher, line: Line)
    requires SqrtLaws() && Fits(s)
    ensures Fits(DrawLineSpec(s, line).state)
    ensures DrawLineSpec(s, line).outcome == Fail(NotStarted) <==> !s.started
    ensures DrawLineSpec(s, line).outcome == Fail(ZeroLengthLine) <==>
      s.started && line.fromX == line.toX && line.fromY == line.toY
    ensures DrawLineSpec(s, line).outcome.Fail? ==> DrawLineSpec(s, line).outcome in {Fail(NotStarted), Fail(ZeroLengthLine)}
    ensures s.started ==> DrawLineSpec(s, line).state.shapeCount >= 1
    ensures DrawLineSpec(s, line).outcome.Pass? ==>
      Emitted(DrawLineSpec(s, line).state) == Emitted(s) + Offset(QuadIndices, DrawLineSpec(s, line).state.verticesCount - 4)
    ensures IndicesInRange(s) ==> IndicesInRange(DrawLineSpec(s, line).state)
  {
    Utils.NormalizeSpec(line.toX - line.fromX, line.toY - line.fromY);
    AddShapeMakesRoom(s, 4, 6);
    FillShapeAppends(s, 4, QuadIndices);
    assert DrawLineSpec(s, line).outcome.Pass? ==> DrawLineSpec(s, line) == FillShapeSpec(s, 4, QuadIndices);
  }

  /** Drawing lines one after the other keeps the batch within its buffers
      and every pending index in range; on an unstarted batch nothing changes. */
  lemma {:induction false} DrawLinesKeepFits(s: Batcher, lines: seq<Line>, n: int)
    requires SqrtLaws() && Fits(s) && 0 <= n <= |lines|
    ensures Fits(DrawLinesSpec(s, lines, n).state)
    ensures IndicesInRange(s) ==> IndicesInRange(DrawLinesSpec(s, lines, n).state)
    ensures !s.started && n > 0 ==> DrawLinesSpec(s, lines, n) == Step(s, Fail(NotStarted))
    ensures DrawLinesSpec(s, lines, n).state.started == s.started
  {
    if n > 0 {
      DrawLinesKeepFits(s, lines, n - 1);
      var r := DrawLinesSpec(s, lines, n - 1);
      if r.outcome.Pass? {
        DrawLineSpecCases(r.state, lines[n - 1]);
      }
    }
  }

  /** Once a line throws, no later line is drawn. */
  lemma {:induction false} DrawLinesStopAtFailure(s: Batcher, lines: seq<Line>, m: int, n: int)
    requires 0 <= m <= n <= |lines| && DrawLinesSpec(s, lines, m).outcome.Fail?
    ensures DrawLinesSpec(s, lines, n) == DrawLinesSpec(s, lines, m)
    decreases n
  {
    if m < n {
      DrawLinesStopAtFailure(s, lines, m, n - 1);
    }
  }

  /** One triangle of the fan pushed after the first t. */
  lemma FanStep(p0: seq<int>, p: seq<int>, t: nat, b: int)
    requires p == p0 + Offset(FanIndices(t), b)
    ensures p + [0 + b, t + 1 + b, t + 2 + b] == p0 + Offset(FanIndices(t + 1), b)
  {
    FanGrows(t, b);
    assert (p0 + Offset(FanIndices(t), b)) + [0 + b, t + 1 + b, t + 2 + b]
      == p0 + (Offset(FanIndices(t), b) + [0 + b, t + 1 + b, t + 2 + b]);
  }

  /** One more index of a polygon pushed after the first i. */
  lemma OffsetStep(p0: seq<int>, p: seq<int>, index: seq<int>, i: nat, b: int)
    requires i < |index| && p == p0 + Offset(index[..i], b)
    ensures p + [index[i] + b] == p0 + Offset(index[..i + 1], b)
  {
    assert Offset(index[..i + 1], b) == Offset(index[..i], b) + [index[i] + b];
    assert (p0 + Offset(index[..i], b)) + [index[i] + b] == p0 + (Offset(index[..i], b) + [index[i] + b]);
  }

  /** The quad's two triangles shifted by b, pushed after p. */
  lemma QuadOffset(p: seq<int>, b: int)
    ensures (p + [0 + b, 1 + b, 2 + b]) + [0 + b, 2 + b, 3 + b] == p + Offset(QuadIndices, b)
  {
    assert Offset(QuadIndices, b) == [0 + b, 1 + b, 2 + b] + [0 + b, 2 + b, 3 + b];
  }

  /** One more triangle of the fan, shifted by b. */
  lemma FanGrows(t: nat, b: int)
    ensures Offset(FanIndices(t + 1), b) == Offset(FanIndices(t), b) + [0 + b, t + 1 + b, t + 2 + b]
  {
    assert FanIndices(t + 1) == FanIndices(t) + [0, t + 1, t + 2];
  }

  /** DrawPolygon is over once every edge is drawn or one has thrown. */
  lemma DrawPolygonEnds(s: Batcher, points: seq<Vector2>, i: int)
    requires 0 <= i <= |points|
    requires i == |points| || DrawLinesSpec(s, PolygonEdges(points), i).outcome.Fail?
    ensures DrawPolygonSpec(s, points) == DrawLinesSpec(s, PolygonEdges(points), i)
  {
    if i < |points| {
      DrawLinesStopAtFailure(s, PolygonEdges(points), i, |points|);
    }
  }

  /** Begin succeeds exactly on a batch that is not started, and starts it. */
  lemma BeginStarts(s: Batcher)
    ensures BeginSpec(s).outcome.Pass? <==> !s.started
    ensures BeginSpec(s).state.started
    ensures BeginSpec(s).state.(started := s.started) == s
  {
  }

  /** End succeeds exactly on a started batch; it draws what is pending,
      losing no index, and leaves an empty batch that is not started. */
  lemma EndFlushes(s: Batcher)
    requires Fits(s)
    ensures EndSpec(s).outcome.Pass? <==> s.started
    ensures EndSpec(s).outcome.Pass? ==>
      var t := EndSpec(s).state;
      !t.started && t.shapeCount == 0 && t.verticesCount == 0 && t.pending == [] && Emitted(t) == Emitted(s)
    ensures Fits(EndSpec(s).state)
  {
    FlushDrawsPending(s);
  }

  // ---------------------------------------------------------------------------
  // The batch object

  /** Shapes: the counters, the Begin flag and the index buffer, written in
      place. The vertex buffer is represented by its count; the flushed draw
      calls stand for the GPU. */
  class Shapes {
    const indices: array<int>
    var shapeCount: int
    var verticesCount: int
    var indicesCount: int
    var started: bool
    /** The draw calls made by the flushes so far. */
    var drawn: seq<Batch>

    /** The batch as a value: the index buffer up to its count. */
    function State(): Batcher
      reads this, indices
      requires 0 <= indicesCount <= indices.Length
    {
      Batcher(started, shapeCount, verticesCount, indices[..indicesCount], drawn)
    }

    /** Fits on the fields: within the buffers, and empty without shapes. */
    ghost predicate Valid()
      reads this
    {
      && indices.Length == NumberOfIndices && 0 <= indicesCount <= NumberOfIndices
      && shapeCount >= 0 && 0 <= verticesCount <= NumberOfVertices
      && (shapeCount == 0 ==> verticesCount == 0 && indicesCount == 0)
    }

    lemma ValidFits()
      requires Valid()
      ensures Fits(State())
    {
    }

    constructor ()
      ensures Valid() && fresh(indices) && State() == Initial
    {
      indices := new int[NumberOfIndices];
      shapeCount, verticesCount, indicesCount := 0, 0, 0;
      started := false;
      drawn := [];
    }

    method EnsureStarted() returns (o: Outcome<ShapesError>)
      ensures o.Pass? <==> started
      ensures o.Fail? ==> o == Fail(NotStarted)
    {
      if !started {
        return Fail(NotStarted);
      }
      return Pass;
    }

    method Flush()
      requires Valid()
      modifies this
      ensures Valid() && State() == FlushSpec(old(State()))
    {
      if shapeCount == 0 {
        return;
      }
      drawn := drawn + [Batch(verticesCount, indicesCount / 3, indices[..indicesCount])];
      verticesCount := 0;
      indicesCount := 0;
      shapeCount := 0;
    }

    method EnsureSpace(numberOfVertices: int, numberOfIndices: int) returns (o: Outcome<ShapesError>)
      requires Valid()
      modifies this
      ensures Valid() && Step(State(), o) == EnsureSpaceSpec(old(State()), numberOfVertices, numberOfIndices)
    {
      if numberOfVertices > NumberOfVertices {
        return Fail(TooManyVertices(numberOfVertices));
      }
      if numberOfIndices > indices.Length {
        return Fail(TooManyIndices(numberOfIndices));
      }
      if verticesCount + numberOfVertices >= NumberOfVertices || indicesCount + numberOfIndices >= indices.Length {
        Flush();
      }
      return Pass;
    }

    method EnsureAddShape(numberOfVertices: int, numberOfIndices: int) returns (o: Outcome<ShapesError>)
      requires Valid()
      modifies this
      ensures Valid() && Step(State(), o) == AddShapeSpec(old(State()), numberOfVertices, numberOfIndices)
    {
      o := EnsureStarted();
      if o.Fail? {
        return;
      }
      o := EnsureSpace(numberOfVertices, numberOfIndices);
      if o.Fail? {
        return;
      }
      shapeCount := shapeCount + 1;
    }

    method Begin() returns (o: Outcome<ShapesError>)
      requires Valid()
      modifies this
      ensures Valid() && Step(State(), o) == BeginSpec(old(State()))
    {
      if started {
        return Fail(AlreadyStarted);
      }
      started := true;
      return Pass;
    }

    method End() returns (o: Outcome<ShapesError>)
      requires Valid()
      modifies this
      ensures Valid() && Step(State(), o) == EndSpec(old(State()))
    {
      o := EnsureStarted();
      if o.Fail? {
        return;
      }
      Flush();
      started := false;
    }

    /** indices[indicesCount++] = value */
    method PushIndex(value: int)
      requires 0 <= indicesCount < indices.Length
      modifies indices, this`indicesCount
      ensures indicesCount == old(indicesCount) + 1
      ensures indices[..indicesCount] == old(indices[..indicesCount]) + [value]
    {
      indices[indicesCount] := value;
      indicesCount := indicesCount + 1;
    }

    /** Three consecutive PushIndex calls: one triangle. */
    method PushTriangle(i0: int, i1: int, i2: int)
      requires 0 <= indicesCount && indicesCount + 3 <= indices.Length
      modifies indices, this`indicesCount
      ensures indicesCount == old(indicesCount) + 3
      ensures indices[..indicesCount] == old(indices[..indicesCount]) + [i0, i1, i2]
    {
      ghost var p := indices[..indicesCount];
      PushIndex(i0);
      PushIndex(i1);
      PushIndex(i2);
      assert indices[..indicesCount] == ((p + [i0]) + [i1]) + [i2];
    }

    /** The six indices of a quad after the vertices already in the batch,
        then its four vertices. */
    method AppendQuad()
      requires Valid() && shapeCount >= 1
      requires verticesCount + 4 <= NumberOfVertices && indicesCount + 6 <= NumberOfIndices
      modifies this, indices
      ensures Valid() && State() == Append(old(State()), 4, QuadIndices)
    {
      ghost var p0 := indices[..indicesCount];
      var b := verticesCount;
      PushTriangle(0 + verticesCount, 1 + verticesCount, 2 + verticesCount);
      PushTriangle(0 + verticesCount, 2 + verticesCount, 3 + verticesCount);
      verticesCount := verticesCount + 4;
      QuadOffset(p0, b);
    }

    method FillRectangle() returns (o: Outcome<ShapesError>)
      requires Valid()
      modifies this, indices
      ensures Valid() && Step(State(), o) == FillRectangleSpec(old(State()))
    {
      ghost var s0 := State();
      AddShapeMakesRoom(s0, 4, 6);
      o := EnsureAddShape(4, 6);
      if o.Fail? {
        return;
      }
      AppendQuad();
    }
  

    /** The loop of FillCircle: the fan of t triangles after the vertices
        already in the batch. */
    method AppendFan(shapeTriangleCount: nat)
      requires Valid() && shapeCount >= 1 && indicesCount + 3 * shapeTriangleCount <= NumberOfIndices
      modifies indices, this`indicesCount
      ensures Valid() && State() == old(State()).(pending := old(State()).pending + Offset(FanIndices(shapeTriangleCount), verticesCount))
    {
      ghost var p0 := indices[..indicesCount];
      var index := 1;
      var i := 0;
      while i < shapeTriangleCount
        invariant 0 <= i <= shapeTriangleCount && index == i + 1
        invariant indicesCount == |p0| + 3 * i
        invariant indices[..indicesCount] == p0 + Offset(FanIndices(i), verticesCount)
      {
        ghost var p := indices[..indicesCount];
        PushTriangle(0 + verticesCount, index + verticesCount, index + 1 + verticesCount);
        FanStep(p0, p, i, verticesCount);
        index := index + 1;
        i := i + 1;
      }
    }

    method FillCircle(points: int) returns (o: Outcome<ShapesError>)
      requires Valid()
      modifies this, indices
      ensures Valid() && Step(State(), o) == FillCircleSpec(old(State()), points)
    {
      ghost var s0 := State();
      var shapeVertexCount := ClampInt(points, MinPoints, MaxPoints);
      var shapeTriangleCount := shapeVertexCount - 2;
      var shapeIndexCount := shapeTriangleCount * 3;
      AddShapeMakesRoom(s0, shapeVertexCount, shapeIndexCount);
      o := EnsureAddShape(shapeVertexCount, shapeIndexCount);
      if o.Fail? {
        return;
      }
      AppendFan(shapeTriangleCount);
      // the vertex loop writes one vertex per point
      verticesCount := verticesCount + shapeVertexCount;
    }

    /** The index loop of FillPolygon: each index shifted by the vertices
        already in the batch. */
    method AppendIndices(index: seq<int>)
      requires Valid() && shapeCount >= 1 && indicesCount + |index| <= NumberOfIndices
      modifies indices, this`indicesCount
      ensures Valid() && State() == old(State()).(pending := old(State()).pending + Offset(index, verticesCount))
    {
      ghost var p0 := indices[..indicesCount];
      var i := 0;
      while i < |index|
        invariant 0 <= i <= |index|
        invariant indicesCount == |p0| + i
        invariant indices[..indicesCount] == p0 + Offset(index[..i], verticesCount)
      {
        ghost var p := indices[..indicesCount];
        PushIndex(index[i] + verticesCount);
        OffsetStep(p0, p, index, i, verticesCount);
        i := i + 1;
      }
      assert index[..i] == index;
    }

    method FillPolygon(vertex: seq<Vector2>, index: seq<int>) returns (o: Outcome<ShapesError>)
      requires Valid()
      modifies this, indices
      ensures Valid() && Step(State(), o) == FillPolygonSpec(old(State()), vertex, index)
    {
      ghost var s0 := State();
      AddShapeMakesRoom(s0, |vertex|, |index|);
      o := EnsureAddShape(|vertex|, |index|);
      if o.Fail? {
        return;
      }
      AppendIndices(index);
      // the vertex loop writes one vertex per vertex of the polygon
      verticesCount := verticesCount + |vertex|;
    }

    method FillPolygonTriangulated(vertex: array<Vector2>) returns (o: Outcome<ShapesError>)
      requires Valid()
      modifies this, indices
      ensures Valid() && Step(State(), o) == FillPolygonTriangulatedSpec(old(State()), vertex[..])
    {
      var index := Utils.Triangulate(vertex);
      if index.Err? {
        return Fail(NotTriangulated(index.error));
      }
      o := FillPolygon(vertex[..], index.value);
    }

    method DrawLine(fromX: real, fromY: real, toX: real, toY: real) returns (o: Outcome<ShapesError>)
      requires Valid()
      modifies this, indices
      ensures Valid() && Step(State(), o) == DrawLineSpec(old(State()), Line(fromX, fromY, toX, toY))
    {
      ghost var s0 := State();
      AddShapeMakesRoom(s0, 4, 6);
      o := EnsureAddShape(4, 6);
      if o.Fail? {
        return;
      }
      var direction := Utils.Normalize(toX - fromX, toY - fromY);
      Utils.NormalizeFailsOnZeroLength(toX - fromX, toY - fromY);
      if direction.Err? {
        return Fail(ZeroLengthLine);
      }
      AppendQuad();
    }

    method DrawRectangle(x: real, y: real, width: real, height: real) returns (o: Outcome<ShapesError>)
      requires Valid()
      modifies this, indices
      ensures Valid() && Step(State(), o) == DrawRectangleSpec(old(State()), x, y, width, height)
    {
      ghost var s0 := State();
      ghost var edges := RectangleEdges(x, y, width, height);
      o := EnsureAddShape(4, 6);
      if o.Fail? {
        return;
      }
      ghost var s1 := State();
      var left, top, right, bottom := x, y, x + width, y + height;
      o := DrawLine(left, top, right, top);
      assert Step(State(), o) == DrawLinesSpec(s1, edges, 1);
      if o.Fail? {
        DrawLinesStopAtFailure(s1, edges, 1, 4);
        return;
      }
      o := DrawLine(right, top, right, bottom);
      assert Step(State(), o) == DrawLinesSpec(s1, edges, 2);
      if o.Fail? {
        DrawLinesStopAtFailure(s1, edges, 2, 4);
        return;
      }
      o := DrawLine(right, bottom, left, bottom);
      assert Step(State(), o) == DrawLinesSpec(s1, edges, 3);
      if o.Fail? {
        DrawLinesStopAtFailure(s1, edges, 3, 4);
        return;
      }
      o := DrawLine(left, bottom, left, top);
      assert Step(State(), o) == DrawLinesSpec(s1, edges, 4);
    }

    /** The body of DrawPolygon's loop: the edge from point i to the next one. */
    method DrawEdge(points: array<Vector2>, i: int) returns (o: Outcome<ShapesError>)
      requires Valid() && 0 <= i < points.Length
      modifies this, indices
      ensures Valid() && Step(State(), o) == DrawLineSpec(old(State()), PolygonEdges(points[..])[i])
    {
      var p1 := points[i];
      var p2 := points[(i + 1) % points.Length];
      ghost var ps := points[..];
      assert ps[i] == p1 && ps[(i + 1) % |ps|] == p2;
      assert PolygonEdges(ps)[i] == Line(p1.x, p1.y, p2.x, p2.y);
      o := DrawLine(p1.x, p1.y, p2.x, p2.y);
    }

    /** The loop of DrawPolygon: its edges one after the other, until all
        are drawn or one throws. */
    method DrawEdges(points: array<Vector2>) returns (o: Outcome<ShapesError>, i: int)
      requires Valid()
      modifies this, indices
      ensures Valid() && 0 <= i <= points.Length && (i == points.Length || o.Fail?)
      ensures Step(State(), o) == DrawLinesSpec(old(State()), PolygonEdges(points[..]), i)
    {
      ghost var s0 := State();
      o := Pass;
      i := 0;
      while i < points.Length && o.Pass?
        invariant 0 <= i <= points.Length && Valid()
        invariant Step(State(), o) == DrawLinesSpec(s0, PolygonEdges(points[..]), i)
      {
        o := DrawEdge(points, i);
        i := i + 1;
      }
    }

    /** DrawPolygon: the first edge that throws ends the call. */
    method DrawPolygon(points: array<Vector2>) returns (o: Outcome<ShapesError>)
      requires Valid()
      modifies this, indices
      ensures Valid() && Step(State(), o) == DrawPolygonSpec(old(State()), points[..])
    {
      ghost var s0 := State();
      var i;
      o, i := DrawEdges(points);
      DrawPolygonEnds(s0, points[..], i);
    }
  }
}
