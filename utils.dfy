/** Utils: in-place normalisation of a coordinate pair and ear-clipping
    triangulation of a polygon, with its geometric helpers. */
module Utils {
  import opened Primitives
  import opened Results
  import opened Xna

  // ---------------------------------------------------------------- Normalize

  datatype NormalizeError = DivideByZero

  /** The length sqrt(x^2 + y^2) that Normalize divides by. */
  function PairLength(x: real, y: real): real {
    Sqrt(x * x + y * y)
  }

  /** Normalize throws exactly when the length it divides by is zero. */
  lemma NormalizeFailsOnZeroLength(x: real, y: real)
    ensures Normalize(x, y).Err? <==> PairLength(x, y) == 0.0
  {
  }

  /** Normalize(ref x, ref y): the pair scaled by 1 / sqrt(x^2 + y^2); a zero
      length raises a DivideByZeroException, modelled as Err. The result holds
      the new values of x and y. */
  function Normalize(x: real, y: real): Result<(real, real), NormalizeError> {
    var len := PairLength(x, y);
    if len == 0.0 then Err(DivideByZero)
    else
      var leninv := 1.0 / len;
      Ok((x * leninv, y * leninv))
  }

  /** With a lawful square root, normalisation fails exactly on the zero vector,
      and otherwise yields a unit vector parallel to (x, y) and pointing the same way. */
  lemma NormalizeSpec(x: real, y: real)
    requires SqrtLaws()
    ensures Normalize(x, y).Err? <==> x == 0.0 && y == 0.0
    ensures Normalize(x, y).Ok? ==>
      var (nx, ny) := Normalize(x, y).value;
      nx * nx + ny * ny == 1.0 && nx * y == ny * x && nx * x + ny * y > 0.0
  {
    var s := x * x + y * y;
    SumOfSquaresIsZero(x, y);
    var len := Sqrt(s);
    assert len >= 0.0 && len * len == s;
    if len == 0.0 {
      calc {
        s;
      ==
        len * len;
      ==
        0.0;
      }
    } else {
      if s == 0.0 {
        SquareIsZero(len);
      }
      ScaleByInverse(x, len);
      ScaleByInverse(y, len);
      UnitScaling(x, y, len, x * (1.0 / len), y * (1.0 / len));
    }
  }

  // ---------------------------------------------------------------- geometry

  /** Sign(p1, p2, p3): the cross product of p1 - p3 and p2 - p3, whose sign
      tells on which side of the line p3 -> p2 the point p1 lies. */
  function Sign(p1: Vector2, p2: Vector2, p3: Vector2): real {
    (p1.x - p3.x) * (p2.y - p3.y) - (p2.x - p3.x) * (p1.y - p3.y)
  }

  /** A point is in the triangle unless the three signs include both a negative
      and a positive one; points on an edge count as inside. */
  function IsPointInTriangle(point: Vector2, v1: Vector2, v2: Vector2, v3: Vector2): bool {
    var d1 := Sign(point, v1, v2);
    var d2 := Sign(point, v2, v3);
    var d3 := Sign(point, v3, v1);
    var hasNeg := d1 < 0.0 || d2 < 0.0 || d3 < 0.0;
    var hasPos := d1 > 0.0 || d2 > 0.0 || d3 > 0.0;
    !(hasNeg && hasPos)
  }

  /** Swapping the two edge points of Sign negates it. */
  lemma SignSwap(p: Vector2, a: Vector2, b: Vector2)
    ensures Sign(p, b, a) == -Sign(p, a, b)
  {
    calc {
      Sign(p, b, a);
    ==
      (p.x - a.x) * (b.y - a.y) - (b.x - a.x) * (p.y - a.y);
    ==
      p.x * b.y - p.x * a.y - a.x * b.y - b.x * p.y + b.x * a.y + a.x * p.y;
    ==
      -((p.x - b.x) * (a.y - b.y) - (a.x - b.x) * (p.y - b.y));
    ==
      -Sign(p, a, b);
    }
  }

  /** Every corner of a triangle lies in that triangle. */
  lemma TriangleContainsItsCorners(v1: Vector2, v2: Vector2, v3: Vector2)
    ensures IsPointInTriangle(v1, v1, v2, v3)
    ensures IsPointInTriangle(v2, v1, v2, v3)
    ensures IsPointInTriangle(v3, v1, v2, v3)
  {
    assert Sign(v1, v1, v2) == 0.0 && Sign(v1, v3, v1) == 0.0;
    assert Sign(v2, v1, v2) == 0.0 && Sign(v2, v2, v3) == 0.0;
    assert Sign(v3, v2, v3) == 0.0 && Sign(v3, v3, v1) == 0.0;
  }

  /** The containment test does not depend on the triangle's orientation. */
  lemma IsPointInTriangleIgnoresOrientation(p: Vector2, v1: Vector2, v2: Vector2, v3: Vector2)
    ensures IsPointInTriangle(p, v1, v2, v3) == IsPointInTriangle(p, v3, v2, v1)
  {
    SignSwap(p, v1, v2);
    SignSwap(p, v2, v3);
    SignSwap(p, v3, v1);
  }

  // ---------------------------------------------------------------- indices

  /** PrevIndex(i, count) = (i + count - 1) % count, with C#'s remainder. */
  function PrevIndex(i: int, count: int): (r: int)
    requires count != 0
    ensures 0 <= i < count ==> r == (if i == 0 then count - 1 else i - 1)
  {
    if 0 <= i < count then
      TruncMatchesEuclidean(i + count - 1, count);
      SmallMod(i + count - 1, count);
      TruncRem(i + count - 1, count)
    else TruncRem(i + count - 1, count)
  }

  /** NextIndex(i, count) = (i + 1) % count, with C#'s remainder. */
  function NextIndex(i: int, count: int): (r: int)
    requires count != 0
    ensures 0 <= i < count ==> r == (if i == count - 1 then 0 else i + 1)
  {
    if 0 <= i < count then
      TruncMatchesEuclidean(i + 1, count);
      SmallMod(i + 1, count);
      TruncRem(i + 1, count)
    else TruncRem(i + 1, count)
  }

  /** Stepping back and then forward around the polygon returns to the same vertex. */
  lemma NextUndoesPrev(i: int, count: int)
    requires 0 <= i < count
    ensures 0 <= PrevIndex(i, count) < count
    ensures NextIndex(PrevIndex(i, count), count) == i
    ensures PrevIndex(NextIndex(i, count), count) == i
  {
  }

  /** Array.IndexOf: the first position holding v, or -1 when there is none. */
  function IndexOf(s: seq<Vector2>, v: Vector2): (r: int)
    ensures -1 <= r < |s|
    ensures r == -1 <==> v !in s
    ensures r >= 0 ==> s[r] == v && forall k :: 0 <= k < r ==> s[k] != v
  {
    if |s| == 0 then -1
    else if s[0] == v then 0
    else
      var r := IndexOf(s[1..], v);
      assert forall k :: 0 <= k < |s| - 1 ==> s[1..][k] == s[k + 1];
      if r == -1 then -1 else r + 1
  }

  /** The sequence without its element at the given position. */
  function RemoveAt<T>(s: seq<T>, index: int): (r: seq<T>)
    requires 0 <= index < |s|
    ensures |r| == |s| - 1
    ensures forall k :: 0 <= k < index ==> r[k] == s[k]
    ensures forall k :: index <= k < |r| ==> r[k] == s[k + 1]
  {
    s[..index] + s[index + 1..]
  }

  /** Removing an element keeps all the others: no element is lost or added. */
  lemma RemoveAtKeepsTheRest<T>(s: seq<T>, index: int)
    requires 0 <= index < |s|
    ensures multiset(RemoveAt(s, index)) + multiset{s[index]} == multiset(s)
  {
    assert s == s[..index] + [s[index]] + s[index + 1..];
  }

  /** RemoveAtIndex: a new array holding the elements before the index and
      those after it, copied in two passes. */
  method RemoveAtIndex<T(0)>(a: array<T>, index: int) returns (result: array<T>)
    requires 0 <= index < a.Length
    ensures fresh(result)
    ensures result[..] == RemoveAt(a[..], index)
  {
    result := new T[a.Length - 1];
    var k := 0;
    while k < index
      invariant 0 <= k <= index
      invariant forall j :: 0 <= j < k ==> result[j] == a[j]
    {
      result[k] := a[k];
      k := k + 1;
    }
    while k < a.Length - 1
      invariant index <= k <= a.Length - 1
      invariant forall j :: 0 <= j < index ==> result[j] == a[j]
      invariant forall j :: index <= j < k ==> result[j] == a[j + 1]
    {
      result[k] := a[k + 1];
      k := k + 1;
    }
  }

  // ---------------------------------------------------------------- ear clipping

  datatype TriangulateError = TooFewVertices | NoEar

  /** A vertex other than the triangle's own corners lies in the triangle. */
  predicate Blocks(vertex: Vector2, prev: Vector2, current: Vector2, next: Vector2) {
    vertex != prev && vertex != current && vertex != next &&
    IsPointInTriangle(vertex, prev, current, next)
  }

  /** The triangle (prev, current, next) is an ear: no other vertex lies inside it. */
  predicate IsEarSpec(prev: Vector2, current: Vector2, next: Vector2, vertices: seq<Vector2>)
    decreases |vertices|
  {
    |vertices| == 0 ||
    (IsEarSpec(prev, current, next, vertices[..|vertices| - 1]) &&
     !Blocks(vertices[|vertices| - 1], prev, current, next))
  }

  /** The vertex-by-vertex definition of an ear says that no vertex blocks it. */
  lemma {:induction false} IsEarSpecMeansNoBlocker(prev: Vector2, current: Vector2, next: Vector2, vertices: seq<Vector2>)
    ensures IsEarSpec(prev, current, next, vertices) <==>
      forall k :: 0 <= k < |vertices| ==> !Blocks(vertices[k], prev, current, next)
    decreases |vertices|
  {
    if |vertices| > 0 {
      var init := vertices[..|vertices| - 1];
      IsEarSpecMeansNoBlocker(prev, current, next, init);
      assert forall k :: 0 <= k < |init| ==> init[k] == vertices[k];
    }
  }

  /** IsEar: scans the vertices for one that blocks the triangle. */
  method IsEar(prev: Vector2, current: Vector2, next: Vector2, vertices: array<Vector2>) returns (b: bool)
    ensures b == IsEarSpec(prev, current, next, vertices[..])
  {
    var i := 0;
    while i < vertices.Length
      invariant 0 <= i <= vertices.Length
      invariant IsEarSpec(prev, current, next, vertices[..i])
    {
      var vertex := vertices[i];
      if vertex != prev && vertex != current && vertex != next &&
         IsPointInTriangle(vertex, prev, current, next)
      {
        IsEarSpecMeansNoBlocker(prev, current, next, vertices[..]);
        return false;
      }
      assert vertices[..i + 1][..i] == vertices[..i];
      i := i + 1;
    }
    assert vertices[..i] == vertices[..];
    return true;
  }

  /** The vertex at position i of the remaining polygon is an ear tip. */
  predicate EarAt(rem: seq<Vector2>, i: int)
    requires 0 <= i < |rem|
  {
    IsEarSpec(rem[PrevIndex(i, |rem|)], rem[i], rem[NextIndex(i, |rem|)], rem)
  }

  /** The first ear tip at position from or later, or -1 when there is none. */
  function FirstEarFrom(rem: seq<Vector2>, from: nat): (r: int)
    requires from <= |rem|
    ensures r == -1 || from <= r < |rem|
    decreases |rem| - from
  {
    if from == |rem| then -1
    else if EarAt(rem, from) then from
    else FirstEarFrom(rem, from + 1)
  }

  /** The first ear tip of the remaining polygon, as the for-loop finds it. */
  function FirstEar(rem: seq<Vector2>): (r: int)
    ensures r == -1 || 0 <= r < |rem|
  {
    FirstEarFrom(rem, 0)
  }

  /** FirstEarFrom finds an ear tip with no ear tip before it, and reports -1
      exactly when there is no ear tip at all. */
  lemma {:induction false} FirstEarFromSpec(rem: seq<Vector2>, from: nat)
    requires from <= |rem|
    ensures FirstEarFrom(rem, from) == -1 <==> forall j :: from <= j < |rem| ==> !EarAt(rem, j)
    ensures FirstEarFrom(rem, from) >= 0 ==>
      EarAt(rem, FirstEarFrom(rem, from)) &&
      forall j :: from <= j < FirstEarFrom(rem, from) ==> !EarAt(rem, j)
    decreases |rem| - from
  {
    if from < |rem| && !EarAt(rem, from) {
      FirstEarFromSpec(rem, from + 1);
    }
  }

  /** The first ear tip, or -1 exactly when the polygon has none. */
  lemma FirstEarSpec(rem: seq<Vector2>)
    ensures FirstEar(rem) == -1 <==> forall j :: 0 <= j < |rem| ==> !EarAt(rem, j)
    ensures FirstEar(rem) >= 0 ==>
      EarAt(rem, FirstEar(rem)) && forall j :: 0 <= j < FirstEar(rem) ==> !EarAt(rem, j)
  {
    FirstEarFromSpec(rem, 0);
  }

  /** Prefixes an index list to a successful result and passes errors through. */
  function Prepend(prefix: seq<int>, r: Result<seq<int>, TriangulateError>): Result<seq<int>, TriangulateError> {
    match r
    case Ok(rest) => Ok(prefix + rest)
    case Err(e) => Err(e)
  }

  /** The indices (in the original polygon) of the triangle cut off at ear tip i. */
  function EarTriangle(vertices: seq<Vector2>, rem: seq<Vector2>, i: int): seq<int>
    requires 0 <= i < |rem|
  {
    [IndexOf(vertices, rem[PrevIndex(i, |rem|)]), IndexOf(vertices, rem[i]),
     IndexOf(vertices, rem[NextIndex(i, |rem|)])]
  }

  /** Ear clipping as the loop performs it: repeatedly cut the first ear of the
      remaining polygon until two vertices remain. A pass that finds no ear is
      NoEar (the loop itself would never end there). */
  function ClipEars(vertices: seq<Vector2>, rem: seq<Vector2>): Result<seq<int>, TriangulateError>
    decreases |rem|
  {
    if |rem| < 3 then Ok([])
    else
      var i := FirstEar(rem);
      if i < 0 then Err(NoEar)
      else Prepend(EarTriangle(vertices, rem, i), ClipEars(vertices, RemoveAt(rem, i)))
  }

  /** Triangulate's result: fewer than three vertices are rejected. */
  function TriangulateSpec(vertices: seq<Vector2>): Result<seq<int>, TriangulateError> {
    if |vertices| < 3 then Err(TooFewVertices) else ClipEars(vertices, vertices)
  }

  /** Every vertex of rem occurs in vertices. */
  ghost predicate DrawnFrom(rem: seq<Vector2>, vertices: seq<Vector2>) {
    forall k :: 0 <= k < |rem| ==> rem[k] in vertices
  }

  /** A result r is shaped like clipping m remaining vertices of an n-vertex
      polygon: success carries 3 * (m - 2) indices, each in [0, n). */
  predicate ClippedShape(r: Result<seq<int>, TriangulateError>, m: int, n: int) {
    r.Ok? ==> |r.value| == 3 * (m - 2) && forall k :: 0 <= k < |r.value| ==> 0 <= r.value[k] < n
  }

  /** Each clipped ear yields three indices, all of them positions of the original
      polygon: clipping m >= 2 remaining vertices gives 3 * (m - 2) indices. */
  lemma {:induction false} ClipEarsShape(vertices: seq<Vector2>, rem: seq<Vector2>)
    requires |rem| >= 2 && DrawnFrom(rem, vertices)
    ensures ClippedShape(ClipEars(vertices, rem), |rem|, |vertices|)
    decreases |rem|
  {
    if |rem| < 3 {
      assert ClipEars(vertices, rem) == Ok([]);
    } else {
      var i := FirstEar(rem);
      if i < 0 {
        ClipEarsNoEar(vertices, rem);
      } else {
        var rest := RemoveAt(rem, i);
        RemoveAtStaysDrawnFrom(rem, vertices, i);
        ClipEarsShape(vertices, rest);
        EarTriangleInRange(vertices, rem, i);
        ClipEarsStep(vertices, rem, i);
        PrependKeepsShape(EarTriangle(vertices, rem, i), ClipEars(vertices, rest), |rest|, |vertices|);
      }
    }
  }

  /** Three in-range indices in front of a result shaped for m vertices give a
      result shaped for m + 1. */
  lemma PrependKeepsShape(tri: seq<int>, r: Result<seq<int>, TriangulateError>, m: int, n: int)
    requires |tri| == 3 && (forall k :: 0 <= k < 3 ==> 0 <= tri[k] < n)
    requires ClippedShape(r, m, n)
    ensures ClippedShape(Prepend(tri, r), m + 1, n)
  {
    if r.Ok? {
      var all := tri + r.value;
      forall k | 0 <= k < |all|
        ensures 0 <= all[k] < n
      {
        if k < 3 { assert all[k] == tri[k]; } else { assert all[k] == r.value[k - 3]; }
      }
    }
  }

  lemma RemoveAtStaysDrawnFrom(rem: seq<Vector2>, vertices: seq<Vector2>, i: int)
    requires 0 <= i < |rem| && DrawnFrom(rem, vertices)
    ensures DrawnFrom(RemoveAt(rem, i), vertices)
  {
    var rest := RemoveAt(rem, i);
    forall k | 0 <= k < |rest|
      ensures rest[k] in vertices
    {
      if k < i { assert rest[k] == rem[k]; } else { assert rest[k] == rem[k + 1]; }
    }
  }

  lemma EarTriangleInRange(vertices: seq<Vector2>, rem: seq<Vector2>, i: int)
    requires 0 <= i < |rem| && DrawnFrom(rem, vertices)
    ensures |EarTriangle(vertices, rem, i)| == 3
    ensures forall k :: 0 <= k < 3 ==> 0 <= EarTriangle(vertices, rem, i)[k] < |vertices|
  {
    assert rem[PrevIndex(i, |rem|)] in vertices;
    assert rem[i] in vertices;
    assert rem[NextIndex(i, |rem|)] in vertices;
  }

  /** A successful triangulation of n vertices has 3 * (n - 2) indices, each a
      position in the input. */
  lemma TriangulateShape(vertices: seq<Vector2>)
    ensures TriangulateSpec(vertices).Ok? ==> |vertices| >= 3
    ensures ClippedShape(TriangulateSpec(vertices), |vertices|, |vertices|)
  {
    if |vertices| >= 3 {
      ClipEarsShape(vertices, vertices);
    }
  }

  /** In a polygon of three vertices nothing can block an ear: every vertex is a corner. */
  lemma TriangleHasEarAtZero(vertices: seq<Vector2>)
    requires |vertices| == 3
    ensures EarAt(vertices, 0)
  {
    assert PrevIndex(0, 3) == 2 && NextIndex(0, 3) == 1;
    IsEarSpecMeansNoBlocker(vertices[2], vertices[0], vertices[1], vertices);
  }

  /** A triangle with distinct corners is its own only ear: the result is the
      corner before the first, the first, and the second. */
  lemma TriangleIsItsOwnTriangulation(vertices: seq<Vector2>)
    requires |vertices| == 3
    requires vertices[0] != vertices[1] && vertices[1] != vertices[2] && vertices[0] != vertices[2]
    ensures TriangulateSpec(vertices) == Ok([2, 0, 1])
  {
    TriangleHasEarAtZero(vertices);
    assert FirstEar(vertices) == 0;
    ClipEarsStep(vertices, vertices, 0);
    var rest := RemoveAt(vertices, 0);
    assert ClipEars(vertices, rest) == Ok([]);
    assert PrevIndex(0, 3) == 2 && NextIndex(0, 3) == 1;
    assert IndexOf(vertices, vertices[0]) == 0;
    assert IndexOf(vertices, vertices[1]) == 1;
    assert IndexOf(vertices, vertices[2]) == 2;
    var tri := EarTriangle(vertices, vertices, 0);
    assert tri == [2, 0, 1];
    assert tri + [] == tri;
  }

  /** One round of clipping: the first ear's triangle, then the rest. */
  lemma ClipEarsStep(vertices: seq<Vector2>, rem: seq<Vector2>, ear: int)
    requires |rem| >= 3 && 0 <= ear < |rem| && FirstEar(rem) == ear
    ensures ClipEars(vertices, rem) == Prepend(EarTriangle(vertices, rem, ear), ClipEars(vertices, RemoveAt(rem, ear)))
  {
  }

  /** A pass without an ear ends the clipping with NoEar. */
  lemma ClipEarsNoEar(vertices: seq<Vector2>, rem: seq<Vector2>)
    requires |rem| >= 3 && FirstEar(rem) == -1
    ensures ClipEars(vertices, rem) == Err(NoEar)
  {
  }

  lemma PrependEmpty(r: Result<seq<int>, TriangulateError>)
    ensures Prepend([], r) == r
  {
    if r.Ok? {
      assert [] + r.value == r.value;
    }
  }

  lemma PrependTwice(a: seq<int>, b: seq<int>, r: Result<seq<int>, TriangulateError>)
    ensures Prepend(a, Prepend(b, r)) == Prepend(a + b, r)
  {
    if r.Ok? {
      assert a + (b + r.value) == (a + b) + r.value;
    }
  }

  /** Array.Copy of a whole array into a new one. */
  method CopyArray(a: array<Vector2>) returns (result: array<Vector2>)
    ensures fresh(result)
    ensures result[..] == a[..]
  {
    result := new Vector2[a.Length];
    var c := 0;
    while c < a.Length
      invariant 0 <= c <= a.Length
      invariant forall j :: 0 <= j < c ==> result[j] == a[j]
    {
      result[c] := a[c];
      c := c + 1;
    }
  }

  /** The inner for-loop of Triangulate: the first position whose vertex is an
      ear tip, or -1 after a full pass without one. */
  method FindEar(rem: array<Vector2>) returns (ear: int)
    requires rem.Length >= 3
    ensures ear == FirstEar(rem[..])
  {
    var m := rem.Length;
    var i := 0;
    while i < m
      invariant 0 <= i <= m
      invariant FirstEar(rem[..]) == FirstEarFrom(rem[..], i)
    {
      var prevVertex := rem[PrevIndex(i, m)];
      var currentVertex := rem[i];
      var nextVertex := rem[NextIndex(i, m)];
      var isEar := IsEar(prevVertex, currentVertex, nextVertex, rem);
      if isEar {
        assert EarAt(rem[..], i);
        return i;
      }
      i := i + 1;
    }
    return -1;
  }

  /** After clipping the first ear of rem, the emitted indices grow by its triangle. */
  lemma ClipEarsInvariantStep(vs: seq<Vector2>, rem: seq<Vector2>, ear: int, emitted: seq<int>)
    requires |rem| >= 3 && 0 <= ear < |rem| && FirstEar(rem) == ear
    requires ClipEars(vs, vs) == Prepend(emitted, ClipEars(vs, rem))
    ensures ClipEars(vs, vs) == Prepend(emitted + EarTriangle(vs, rem, ear), ClipEars(vs, RemoveAt(rem, ear)))
  {
    ClipEarsStep(vs, rem, ear);
    PrependTwice(emitted, EarTriangle(vs, rem, ear), ClipEars(vs, RemoveAt(rem, ear)));
  }

  /** One pass of Triangulate's outer loop: find the first ear, write the
      original positions of its three corners at indices[index..index + 3]
      and return the polygon without the ear tip. When no vertex is an ear
      nothing is written and ear is -1. */
  method ClipEar(vertices: array<Vector2>, rem: array<Vector2>, indices: array<int>, index: int)
    returns (ear: int, next: array<Vector2>)
    requires rem.Length >= 3 && 0 <= index && index + 3 <= indices.Length
    modifies indices
    ensures ear == FirstEar(rem[..])
    ensures ear >= 0 ==> fresh(next) && next[..] == RemoveAt(rem[..], ear)
    ensures ear >= 0 ==> indices[..index + 3] == old(indices[..index]) + EarTriangle(vertices[..], rem[..], ear)
  {
    var m := rem.Length;
    ear := FindEar(rem);
    if ear < 0 {
      return ear, rem;
    }
    indices[index] := IndexOf(vertices[..], rem[PrevIndex(ear, m)]);
    indices[index + 1] := IndexOf(vertices[..], rem[ear]);
    indices[index + 2] := IndexOf(vertices[..], rem[NextIndex(ear, m)]);
    next := RemoveAtIndex(rem, ear);
  }

  /** Triangulate: ear clipping over a shrinking copy of the polygon, writing
      three indices per ear into an array of (n - 2) * 3 entries. It computes
      exactly TriangulateSpec. */
  method Triangulate(vertices: array<Vector2>) returns (result: Result<seq<int>, TriangulateError>)
    ensures result == TriangulateSpec(vertices[..])
  {
    var n := vertices.Length;
    if n < 3 {
      return Err(TooFewVertices);
    }
    var indices := new int[(n - 2) * 3];
    var index := 0;

    var remainingVertices := CopyArray(vertices);
    ghost var vs := vertices[..];
    assert remainingVertices[..] == vs;
    PrependEmpty(ClipEars(vs, vs));
    assert indices[..index] == [];

    while remainingVertices.Length >= 3
      invariant 2 <= remainingVertices.Length <= n
      invariant index == (n - remainingVertices.Length) * 3
      invariant vertices[..] == vs
      invariant ClipEars(vs, vs) == Prepend(indices[..index], ClipEars(vs, remainingVertices[..]))
      decreases remainingVertices.Length
    {
      ghost var rem := remainingVertices[..];
      ghost var emitted := indices[..index];
      var ear, next := ClipEar(vertices, remainingVertices, indices, index);
      if ear < 0 {
        ClipEarsNoEar(vs, rem);
        return Err(NoEar);
      }
      ClipEarsInvariantStep(vs, rem, ear, emitted);
      index := index + 3;
      remainingVertices := next;
    }
    assert ClipEars(vs, remainingVertices[..]) == Ok([]);
    assert index == indices.Length;
    assert indices[..index] == indices[..];
    assert indices[..] + [] == indices[..];
    return Ok(indices[..]);
  }
}
