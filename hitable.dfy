/**
 * Rays, materials as data, and the hit record every primitive fills in on a hit.
 * `Material` sits here rather than with the scatter rules because a hit record
 * carries its material handle, and the scatter rules read hit records.
 */
module Hitable {
  import opened Wrappers
  import opened Vectors

  /** A ray `origin + t * direction`. */
  datatype Ray = Ray(origin: Vec3, direction: Vec3)

  /** Ray::point_at_parameter. */
  function PointAt(r: Ray, t: real): Vec3
  {
    Add(r.origin, Scale(t, r.direction))
  }

  /** The three materials of the scene; a dielectric is known only by its refractive index. */
  datatype Material =
    | Lambertian(albedo: Vec3)
    | Metal(albedo: Vec3, fuzz: real)
    | Dielectric(refIdx: real)

  /** HitRecord; `material` is None where the source holds a null `Material*`. */
  datatype HitRecord = HitRecord(t: real, p: Vec3, normal: Vec3, material: Option<Material>)

  /** The open parameter interval every hit test accepts. */
  predicate InRange(t: real, tMin: real, tMax: real)
  {
    tMin < t < tMax
  }

  /**
   * What a report over an open interval becomes when the upper bound is lowered to
   * `bound`: the hit survives only if it is still below the bound.
   */
  function Clip(h: Option<HitRecord>, bound: real): Option<HitRecord>
  {
    if h.Some? && h.value.t < bound then h else None
  }
}
