/**
 * Three-component vectors, idealised over the reals.
 *
 * The renderer's vector type lives in a library (`lib_rs::linear_algebra`)
 * whose source is not part of this model. Addition, scaling, the dot and the
 * cross product are exact polynomial arithmetic and are written out here.
 * `normalize` needs a square root, so it is modelled by what it is meant to
 * do: scale a vector by a factor (the reciprocal of its length) that the
 * caller supplies as `invLength`.
 */
module LinearAlgebra {

  datatype Vector3 = Vector3(x: real, y: real, z: real)

  const Zero := Vector3(0.0, 0.0, 0.0)

  function Add(a: Vector3, b: Vector3): Vector3 {
    Vector3(a.x + b.x, a.y + b.y, a.z + b.z)
  }

  function Sub(a: Vector3, b: Vector3): Vector3 {
    Vector3(a.x - b.x, a.y - b.y, a.z - b.z)
  }

  function Neg(a: Vector3): Vector3 {
    Vector3(-a.x, -a.y, -a.z)
  }

  function Scale(k: real, a: Vector3): Vector3 {
    Vector3(k * a.x, k * a.y, k * a.z)
  }

  function Dot(a: Vector3, b: Vector3): real {
    a.x * b.x + a.y * b.y + a.z * b.z
  }

  function Cross(a: Vector3, b: Vector3): Vector3 {
    Vector3(a.y * b.z - a.z * b.y, a.z * b.x - a.x * b.z, a.x * b.y - a.y * b.x)
  }

  /** The reciprocal of the length, which `normalize` multiplies by; left unspecified. */
  type ReciprocalLength = Vector3 -> real

  function Normalize(v: Vector3, invLength: ReciprocalLength): Vector3 {
    Scale(invLength(v), v)
  }

  /** The cross product is orthogonal to both of its arguments. */
  lemma CrossOrthogonal(a: Vector3, b: Vector3)
    ensures Dot(Cross(a, b), a) == 0.0 && Dot(Cross(a, b), b) == 0.0
  {
  }

  lemma DotScale(k: real, a: Vector3, b: Vector3)
    ensures Dot(Scale(k, a), b) == k * Dot(a, b)
    ensures Dot(a, Scale(k, b)) == k * Dot(a, b)
  {
  }
}
