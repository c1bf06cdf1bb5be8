/**
 * Rays, hit records, parameter intervals and the scene's entity types.
 *
 * These belong to the renderer's library (`lib_rs::ray`, `lib_rs::geometry`)
 * and to its material type. The intersection test itself is not part of this
 * model: every query takes it as a parameter of type `HitTest`.
 */
module Rays {
  import opened Wrappers
  import opened LinearAlgebra
  import opened Colors

  datatype Ray = Ray(origin: Vector3, direction: Vector3)

  /** Point, outward normal, ray parameter `t` and the front-face flag of one intersection. */
  datatype HitRecord = HitRecord(point: Vector3, normal: Vector3, t: real, frontFace: bool)

  datatype Bound = Finite(value: real) | Infinity

  /** A half-open parameter range `min..max`, as Rust's `Range<f32>`. */
  datatype Interval = Interval(min: real, max: Bound) {
    predicate Contains(t: real) {
      min <= t && (max.Finite? ==> t < max.value)
    }
  }

  datatype Geometry =
    | Sphere(center: Vector3, radius: real)
    | AxisAlignedBox(lo: Vector3, hi: Vector3)
    | Parallelogram(origin: Vector3, edgeU: Vector3, edgeV: Vector3)

  datatype MaterialKind = Lambertian | Metal(fuzz: real) | Dielectric(fractionRate: real)

  datatype Material = Material(kind: MaterialKind, color: Color)

  /** The library's intersection test: a geometry, a ray and the admissible range of `t`. */
  type HitTest = (Geometry, Ray, Interval) -> Option<HitRecord>

  /** The test only reports hits whose `t` lies in the range it was given. */
  ghost predicate RespectsInterval(hit: HitTest) {
    forall g, ray, iv :: hit(g, ray, iv).Some? ==> iv.Contains(hit(g, ray, iv).value.t)
  }
}
