/**
 * Points and directions of the bolt (Maya's MPoint and MVector), over the reals.
 * Only the exact operations are defined here: `distanceTo` and `normalize` need a
 * square root, so distances are compared squared and normalisation is a parameter
 * of the operations that use it.
 */
module Vectors {

  datatype Vec3 = Vec3(x: real, y: real, z: real)

  function Add(a: Vec3, b: Vec3): Vec3
  {
    Vec3(a.x + b.x, a.y + b.y, a.z + b.z)
  }

  function Sub(a: Vec3, b: Vec3): Vec3
  {
    Vec3(a.x - b.x, a.y - b.y, a.z - b.z)
  }

  function Scale(a: Vec3, k: real): Vec3
  {
    Vec3(a.x * k, a.y * k, a.z * k)
  }

  function Div(a: Vec3, k: real): Vec3
    requires k != 0.0
  {
    Vec3(a.x / k, a.y / k, a.z / k)
  }

  /** The square of the Euclidean distance between two points. */
  function DistSq(a: Vec3, b: Vec3): real
  {
    (a.x - b.x) * (a.x - b.x) + (a.y - b.y) * (a.y - b.y) + (a.z - b.z) * (a.z - b.z)
  }

  /** `lo <= c <= hi` on every coordinate. */
  predicate InBox(v: Vec3, lo: Vec3, hi: Vec3)
  {
    lo.x <= v.x <= hi.x && lo.y <= v.y <= hi.y && lo.z <= v.z <= hi.z
  }
}
