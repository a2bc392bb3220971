/** Three- and two-component vectors. The source stores `f32` components; here they are exact reals. */
module Vectors {

  datatype Vector3 = Vector3(x: real, y: real, z: real)

  datatype Vector2 = Vector2(x: real, y: real)

  const Zero3: Vector3 := Vector3(0.0, 0.0, 0.0)

  const One3: Vector3 := Vector3(1.0, 1.0, 1.0)

  /** `Vector3 + Vector3`, component by component. */
  function Add(a: Vector3, b: Vector3): (r: Vector3)
    ensures Sub(r, b) == a
  {
    Vector3(a.x + b.x, a.y + b.y, a.z + b.z)
  }

  /** `Vector3 - Vector3`, component by component: the difference is zero exactly between equal vectors. */
  function Sub(a: Vector3, b: Vector3): (r: Vector3)
    ensures r == Zero3 <==> a == b
  {
    Vector3(a.x - b.x, a.y - b.y, a.z - b.z)
  }

  /** The in-place `item.x *= scale.x; item.y *= scale.y; item.z *= scale.z` of the global-vertex transform. */
  function Scale(v: Vector3, s: Vector3): (r: Vector3)
    ensures s == One3 ==> r == v
  {
    Vector3(v.x * s.x, v.y * s.y, v.z * s.z)
  }
}
