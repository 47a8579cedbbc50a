/** LiteMath: lengths, distances, normalisation, dot and cross products and
    the epsilon comparison the collision code relies on. */
module LiteMath {
  import opened LiteVectors
  import opened Primitives

  /** The comparison epsilon, 0.0005 (half a millimetre in world units). */
  const HalfAMillimeter: real := 0.0005

  function Dot(a: LiteVector, b: LiteVector): real {
    a.x * b.x + a.y * b.y
  }

  /** The 2D scalar cross product. */
  function Cross(a: LiteVector, b: LiteVector): real {
    a.x * b.y - a.y * b.x
  }

  function LengthSquared(v: LiteVector): (r: real)
    ensures r >= 0.0
    ensures r == Dot(v, v)
  {
    v.x * v.x + v.y * v.y
  }

  function Length(v: LiteVector): real {
    Sqrt(LengthSquared(v))
  }

  function DistanceSquared(a: LiteVector, b: LiteVector): (r: real)
    ensures r >= 0.0
    ensures r == LengthSquared(Sub(a, b))
  {
    var dx := a.x - b.x;
    var dy := a.y - b.y;
    dx * dx + dy * dy
  }

  function Distance(a: LiteVector, b: LiteVector): real {
    Sqrt(DistanceSquared(a, b))
  }

  function NearlyEqual(a: real, b: real): bool {
    Abs(a - b) < HalfAMillimeter
  }

  /** Vector near-equality compares the squared distance with the squared epsilon. */
  function NearlyEqualVectors(a: LiteVector, b: LiteVector): bool {
    DistanceSquared(a, b) < HalfAMillimeter * HalfAMillimeter
  }

  /** A vector whose length is nearly zero is returned unchanged; any other
      vector is divided by its length. */
  function Normalize(v: LiteVector): LiteVector {
    var len := Length(v);
    if NearlyEqual(len, 0.0) then v else Div(v, Length(v))
  }

  lemma DotIsSymmetric(a: LiteVector, b: LiteVector)
    ensures Dot(a, b) == Dot(b, a)
  {
  }

  lemma DotIsLinear(a: LiteVector, b: LiteVector, c: LiteVector, s: real)
    ensures Dot(Add(a, b), c) == Dot(a, c) + Dot(b, c)
    ensures Dot(Sub(a, b), c) == Dot(a, c) - Dot(b, c)
    ensures Dot(Mul(a, s), c) == s * Dot(a, c)
    ensures Dot(Neg(a), c) == -Dot(a, c) && Dot(c, Neg(a)) == -Dot(c, a)
  {
  }

  lemma CrossIsAntisymmetric(a: LiteVector, b: LiteVector)
    ensures Cross(a, b) == -Cross(b, a)
    ensures Cross(a, a) == 0.0
  {
  }

  lemma DistanceSquaredIsSymmetric(a: LiteVector, b: LiteVector)
    ensures DistanceSquared(a, b) == DistanceSquared(b, a)
    ensures Distance(a, b) == Distance(b, a)
  {
  }

  lemma NearlyEqualIsReflexiveAndSymmetric(a: real, b: real)
    ensures NearlyEqual(a, a)
    ensures NearlyEqual(a, b) == NearlyEqual(b, a)
  {
  }

  lemma NearlyEqualVectorsIsReflexive(a: LiteVector)
    ensures NearlyEqualVectors(a, a)
  {
    assert DistanceSquared(a, a) == 0.0;
  }

  lemma NearlyEqualVectorsIsSymmetric(a: LiteVector, b: LiteVector)
    ensures NearlyEqualVectors(a, b) == NearlyEqualVectors(b, a)
  {
    DistanceSquaredIsSymmetric(a, b);
  }

  /** With a lawful square root, two vectors are nearly equal exactly when
      their distance is below half a millimetre. */
  lemma NearlyEqualVectorsMeansClose(a: LiteVector, b: LiteVector)
    requires SqrtLaws()
    ensures NearlyEqualVectors(a, b) <==> Distance(a, b) < HalfAMillimeter
  {
    var d := Distance(a, b);
    assert d >= 0.0 && d * d == DistanceSquared(a, b);
    SquareMonotone(d, HalfAMillimeter);
  }

  /** A near-zero vector is left as it is. */
  lemma NormalizeLeavesNearZeroUnchanged(v: LiteVector)
    requires NearlyEqual(Length(v), 0.0)
    ensures Normalize(v) == v
  {
  }

  /** With a lawful square root, a vector whose length is not nearly zero is
      normalised to unit length, parallel to the input and pointing the same way. */
  lemma NormalizeGivesUnitVector(v: LiteVector)
    requires SqrtLaws()
    requires !NearlyEqual(Length(v), 0.0)
    ensures LengthSquared(Normalize(v)) == 1.0
    ensures Cross(Normalize(v), v) == 0.0
    ensures Dot(Normalize(v), v) > 0.0
  {
    var len := Length(v);
    assert len >= 0.0 && len * len == LengthSquared(v);
    QuotientTimes(v.x, len);
    QuotientTimes(v.y, len);
    UnitScaling(v.x, v.y, len, v.x / len, v.y / len);
  }

  /** With a lawful square root, Normalize(v) never points against v. */
  lemma NormalizeKeepsOrientation(v: LiteVector)
    requires SqrtLaws()
    ensures Dot(Normalize(v), v) >= 0.0
  {
    if !NearlyEqual(Length(v), 0.0) {
      NormalizeGivesUnitVector(v);
    }
  }

  /** Normalising the opposite vector gives the opposite direction. */
  lemma NormalizeIsOdd(v: LiteVector)
    ensures Normalize(Neg(v)) == Neg(Normalize(v))
  {
    assert LengthSquared(Neg(v)) == LengthSquared(v);
    var len := Length(v);
    if !NearlyEqual(len, 0.0) {
      NegatedQuotient(v.x, len);
      NegatedQuotient(v.y, len);
    }
  }

  /** The normalised directions a -> b and b -> a are opposite. */
  lemma DirectionsAreOpposite(a: LiteVector, b: LiteVector)
    ensures Normalize(Sub(a, b)) == Neg(Normalize(Sub(b, a)))
    ensures Normalize(Sub(b, a)) == Neg(Normalize(Sub(a, b)))
  {
    assert Sub(a, b) == Neg(Sub(b, a));
    NormalizeIsOdd(Sub(b, a));
    assert Sub(b, a) == Neg(Sub(a, b));
    NormalizeIsOdd(Sub(a, b));
  }
}
