/** LiteConverter: conversion between the engine's LiteVector and the
    framework's Vector2, one vector at a time or a whole array. */
module LiteConverter {
  import opened LiteVectors
  import opened Xna

  function ToVector2(v: LiteVector): (r: Vector2)
    ensures r.x == v.x && r.y == v.y
  {
    Vector2(v.x, v.y)
  }

  function ToLiteVector(v: Vector2): (r: LiteVector)
    ensures r.x == v.x && r.y == v.y
  {
    LiteVector(v.x, v.y)
  }

  /** The two conversions are inverse to each other. */
  lemma RoundTrips(v: LiteVector, w: Vector2)
    ensures ToLiteVector(ToVector2(v)) == v
    ensures ToVector2(ToLiteVector(w)) == w
  {
  }

  /** Every vector of a sequence converted. */
  function ToVector2Seq(src: seq<LiteVector>): (r: seq<Vector2>)
    ensures |r| == |src|
    ensures forall i :: 0 <= i < |src| ==> r[i] == ToVector2(src[i])
  {
    seq(|src|, i requires 0 <= i < |src| => ToVector2(src[i]))
  }

  /** ToVector2Array(src, ref dest): the destination array is reused when it
      exists and has the source's length, and replaced by a new array otherwise,
      leaving the caller's old array as it was; the returned array is the new
      value of dest. */
  method ToVector2Array(src: array<LiteVector>, dest: array?<Vector2>) returns (result: array<Vector2>)
    modifies dest
    ensures result.Length == src.Length
    ensures result[..] == ToVector2Seq(old(src[..]))
    ensures dest != null && dest.Length == src.Length ==> result == dest
    ensures !(dest != null && dest.Length == src.Length) ==> fresh(result)
    ensures !(dest != null && dest.Length == src.Length) ==> dest == null || unchanged(dest)
  {
    if dest == null || src.Length != dest.Length {
      result := new Vector2[src.Length];
    } else {
      result := dest;
    }
    var i := 0;
    while i < src.Length
      invariant 0 <= i <= src.Length
      invariant src[..] == old(src[..])
      invariant result != dest ==> dest == null || unchanged(dest)
      invariant forall k :: 0 <= k < i ==> result[k] == ToVector2(src[k])
    {
      var v := src[i];
      result[i] := ToVector2(v);
      i := i + 1;
    }
  }
}
