/** The engine's immutable 2D vector (LiteVector) and its operators. */
module LiteVectors {

  datatype LiteVector = LiteVector(x: real, y: real)

  const Zero := LiteVector(0.0, 0.0)
  const One := LiteVector(1.0, 1.0)

  /** operator +(a, b) */
  function Add(a: LiteVector, b: LiteVector): LiteVector {
    LiteVector(a.x + b.x, a.y + b.y)
  }

  /** operator -(a, b) */
  function Sub(a: LiteVector, b: LiteVector): LiteVector {
    LiteVector(a.x - b.x, a.y - b.y)
  }

  /** unary operator -(v) */
  function Neg(v: LiteVector): LiteVector {
    LiteVector(-v.x, -v.y)
  }

  /** operator *(v, s) */
  function Mul(v: LiteVector, s: real): LiteVector {
    LiteVector(v.x * s, v.y * s)
  }

  /** operator *(s, v) */
  function MulLeft(s: real, v: LiteVector): LiteVector {
    LiteVector(v.x * s, v.y * s)
  }

  /** operator /(v, s); a zero divisor is excluded (float division by zero is not modelled). */
  function Div(v: LiteVector, s: real): LiteVector
    requires s != 0.0
  {
    LiteVector(v.x / s, v.y / s)
  }

  lemma NegNeg(v: LiteVector)
    ensures Neg(Neg(v)) == v
  {
  }

  lemma SubIsAddNeg(a: LiteVector, b: LiteVector)
    ensures Sub(a, b) == Add(a, Neg(b))
  {
  }

  lemma ScalingCommutes(v: LiteVector, s: real)
    ensures Mul(v, s) == MulLeft(s, v)
  {
  }

  lemma ZeroIsAdditiveIdentity(v: LiteVector)
    ensures Add(Zero, v) == v && Add(v, Zero) == v
    ensures Sub(v, v) == Zero
  {
  }

  lemma ScalingIsLinear(a: LiteVector, b: LiteVector, s: real, t: real)
    ensures Mul(Add(a, b), s) == Add(Mul(a, s), Mul(b, s))
    ensures Mul(Neg(a), s) == Neg(Mul(a, s))
    ensures Mul(Mul(a, s), t) == Mul(a, s * t)
  {
  }

  lemma NegatedZero()
    ensures Neg(Zero) == Zero
  {
  }
}
