/** LiteAABB: an axis-aligned bounding box given by its minimum and maximum corners. */
module LiteAABBs {
  import opened LiteVectors

  datatype LiteAABB = LiteAABB(min: LiteVector, max: LiteVector)

  /** new LiteAABB(minX, minY, maxX, maxY) */
  function FromCoordinates(minX: real, minY: real, maxX: real, maxY: real): (r: LiteAABB)
    ensures r.min.x == minX && r.min.y == minY && r.max.x == maxX && r.max.y == maxY
  {
    LiteAABB(LiteVector(minX, minY), LiteVector(maxX, maxY))
  }

  /** The box contains the point (boundaries included). */
  predicate Contains(box: LiteAABB, p: LiteVector) {
    box.min.x <= p.x <= box.max.x && box.min.y <= p.y <= box.max.y
  }

  /** Both constructors build the same box from the same corners. */
  lemma ConstructorsAgree(min: LiteVector, max: LiteVector)
    ensures FromCoordinates(min.x, min.y, max.x, max.y) == LiteAABB(min, max)
  {
  }
}
