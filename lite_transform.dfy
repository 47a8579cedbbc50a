/** LiteTransform (a position with the sine and cosine of an angle) and
    LiteVector.Transform, which rotates a local point and then translates it. */
module LiteTransforms {
  import opened Primitives
  import opened LiteVectors
  import opened LiteMath

  datatype LiteTransform = LiteTransform(positionX: real, positionY: real, sin: real, cos: real)

  /** new LiteTransform(position, angle) */
  function FromVector(position: LiteVector, angle: real): LiteTransform {
    LiteTransform(position.x, position.y, Sin(angle), Cos(angle))
  }

  /** new LiteTransform(x, y, angle) */
  function FromCoordinates(x: real, y: real, angle: real): LiteTransform {
    LiteTransform(x, y, Sin(angle), Cos(angle))
  }

  /** LiteTransform.Zero: no translation, the transform of angle 0. */
  const Zero: LiteTransform := FromCoordinates(0.0, 0.0, 0.0)

  /** LiteVector.Transform: rotate by the transform's angle, then translate. */
  function Transform(v: LiteVector, t: LiteTransform): LiteVector {
    LiteVector(t.cos * v.x - t.sin * v.y + t.positionX,
               t.sin * v.x + t.cos * v.y + t.positionY)
  }

  /** The rotation part of a transform on its own. */
  function Rotate(v: LiteVector, t: LiteTransform): LiteVector {
    LiteVector(t.cos * v.x - t.sin * v.y, t.sin * v.x + t.cos * v.y)
  }

  /** Every vertex transformed: the array that the body's transform loop fills. */
  function TransformAll(vs: seq<LiteVector>, t: LiteTransform): (r: seq<LiteVector>)
    ensures |r| == |vs|
    ensures forall i :: 0 <= i < |vs| ==> r[i] == Transform(vs[i], t)
  {
    seq(|vs|, i requires 0 <= i < |vs| => Transform(vs[i], t))
  }

  /** Both constructors build the same transform from the same position and angle. */
  lemma ConstructorsAgree(position: LiteVector, angle: real)
    ensures FromVector(position, angle) == FromCoordinates(position.x, position.y, angle)
  {
  }

  /** The sine and cosine of a transform come from its angle alone, and the
      position is copied unchanged. */
  lemma RotationDependsOnlyOnAngle(p: LiteVector, q: LiteVector, angle: real)
    ensures FromVector(p, angle).sin == FromVector(q, angle).sin
    ensures FromVector(p, angle).cos == FromVector(q, angle).cos
    ensures FromVector(p, angle).positionX == p.x && FromVector(p, angle).positionY == p.y
    ensures Zero.positionX == 0.0 && Zero.positionY == 0.0 && Zero == FromVector(LiteVector(0.0, 0.0), 0.0)
  {
  }

  /** The transform is a rotation followed by a translation. */
  lemma TransformIsRotationThenTranslation(v: LiteVector, t: LiteTransform)
    ensures Transform(v, t) == Add(Rotate(v, t), LiteVector(t.positionX, t.positionY))
  {
  }

  /** The difference of two transformed points is the rotated difference:
      the translation cancels out. */
  lemma TransformDifference(a: LiteVector, b: LiteVector, t: LiteTransform)
    ensures Sub(Transform(a, t), Transform(b, t)) == Rotate(Sub(a, b), t)
  {
    var d := Sub(a, b);
    calc {
      Transform(a, t).x - Transform(b, t).x;
    ==
      t.cos * (a.x - b.x) - t.sin * (a.y - b.y);
    ==
      Rotate(d, t).x;
    }
    calc {
      Transform(a, t).y - Transform(b, t).y;
    ==
      t.sin * (a.x - b.x) + t.cos * (a.y - b.y);
    ==
      Rotate(d, t).y;
    }
  }

  /** A rotation by a transform whose sine and cosine satisfy s^2 + c^2 = 1
      preserves squared length. */
  lemma RotationPreservesLength(v: LiteVector, t: LiteTransform)
    requires t.sin * t.sin + t.cos * t.cos == 1.0
    ensures LengthSquared(Rotate(v, t)) == LengthSquared(v)
  {
    var s, c := t.sin, t.cos;
    var x, y := v.x, v.y;
    calc {
      LengthSquared(Rotate(v, t));
    ==
      (c * x - s * y) * (c * x - s * y) + (s * x + c * y) * (s * x + c * y);
    ==
      (s * s + c * c) * (x * x) + (s * s + c * c) * (y * y);
    ==
      x * x + y * y;
    }
  }

  /** With the Pythagorean identity for sine and cosine, a transform built from an
      angle is rigid: it preserves the distance between any two points. */
  lemma TransformPreservesDistance(a: LiteVector, b: LiteVector, position: LiteVector, angle: real)
    requires TrigLaws()
    ensures DistanceSquared(Transform(a, FromVector(position, angle)), Transform(b, FromVector(position, angle)))
         == DistanceSquared(a, b)
  {
    var t := FromVector(position, angle);
    assert t.sin * t.sin + t.cos * t.cos == 1.0;
    TransformDifference(a, b, t);
    RotationPreservesLength(Sub(a, b), t);
  }

  /** If sin 0 = 0 and cos 0 = 1, the transform of angle 0 at the origin is the identity. */
  lemma ZeroTransformIsIdentity(v: LiteVector)
    requires Sin(0.0) == 0.0 && Cos(0.0) == 1.0
    ensures Transform(v, Zero) == v
  {
  }

  /** With a lawful sine and cosine, the transform of a pose sends distinct
      points to distinct points. */
  lemma TransformKeepsDistinct(a: LiteVector, b: LiteVector, position: LiteVector, angle: real)
    requires TrigLaws() && a != b
    ensures Transform(a, FromVector(position, angle)) != Transform(b, FromVector(position, angle))
  {
    var t := FromVector(position, angle);
    assert t.sin * t.sin + t.cos * t.cos == 1.0;
    var d := Sub(a, b);
    assert d.x != 0.0 || d.y != 0.0;
    RotationMovesNonzero(t.cos, t.sin, d.x, d.y);
    TransformDifference(a, b, t);
  }
}
