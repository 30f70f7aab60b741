/**
 * The seven-field transform state of an element and the per-element store
 * that lets a later animation continue from where an earlier one ended.
 */
module Transforms {
  import opened Interp

  /** Elements are opaque identities; nothing of the document is modelled. */
  type Elem = nat

  /** Offsets x, y, z, a multiplicative scale, and rotate/skewX/skewY angles. */
  datatype Transform = Transform(x: real, y: real, z: real, scale: real, rotate: real, skewX: real, skewY: real)

  /** The state of an element that no saved animation has moved. */
  const Identity: Transform := Transform(0.0, 0.0, 0.0, 1.0, 0.0, 0.0, 0.0)

  /** Field-by-field blend of two transforms with the same weight. */
  function LerpTransform(s: Transform, t: Transform, e: real): (r: Transform)
    ensures e == 0.0 ==> r == s
    ensures e == 1.0 ==> r == t
  {
    Transform(Lerp(s.x, t.x, e), Lerp(s.y, t.y, e), Lerp(s.z, t.z, e), Lerp(s.scale, t.scale, e),
              Lerp(s.rotate, t.rotate, e), Lerp(s.skewX, t.skewX, e), Lerp(s.skewY, t.skewY, e))
  }

  /** `getBaseTransform`: the stored transform of `el`, else the identity. */
  function BaseTransform(store: map<Elem, Transform>, el: Elem): (r: Transform)
    ensures el in store ==> r == store[el]
    ensures el !in store ==> r == Identity
  {
    if el in store then store[el] else Identity
  }
}
