/**
 * Triangle::hit. rt_triangle.h gives a triangle a centre, a radius and a
 * material, and its hit test is the sphere's quadratic test line for line, so the
 * model runs the sphere test on those three fields.
 */
module Triangles {
  import opened Wrappers
  import opened Vectors
  import opened Hitable
  import Spheres

  datatype Triangle = Triangle(center: Vec3, radius: real, material: Option<Material>)

  /** The sphere with the triangle's centre, radius and material. */
  function AsSphere(tri: Triangle): Spheres.Sphere
  {
    Spheres.Sphere(tri.center, tri.radius, tri.material)
  }

  function Hit(sqrt: real -> real, tri: Triangle, r: Ray, tMin: real, tMax: real): (res: Option<HitRecord>)
    ensures res.Some? ==> InRange(res.value.t, tMin, tMax)
  {
    Spheres.Hit(sqrt, AsSphere(tri), r, tMin, tMax)
  }

  /** No hit exactly when the discriminant is not positive or neither root is in range. */
  lemma HitMiss(sqrt: real -> real, tri: Triangle, r: Ray, tMin: real, tMax: real)
    ensures Hit(sqrt, tri, r, tMin, tMax).None? <==>
      (Spheres.Discriminant(Spheres.Coefficients(AsSphere(tri), r)) <= 0.0 ||
       (!InRange(Spheres.Root1(sqrt, AsSphere(tri), r), tMin, tMax) &&
        !InRange(Spheres.Root2(sqrt, AsSphere(tri), r), tMin, tMax)))
  {
    Spheres.HitMiss(sqrt, AsSphere(tri), r, tMin, tMax);
  }

  /** The nearer root is taken when it is in range, the farther one otherwise. */
  lemma HitRootChoice(sqrt: real -> real, tri: Triangle, r: Ray, tMin: real, tMax: real)
    requires Hit(sqrt, tri, r, tMin, tMax).Some?
    ensures Spheres.Discriminant(Spheres.Coefficients(AsSphere(tri), r)) > 0.0
    ensures Hit(sqrt, tri, r, tMin, tMax).value.t ==
      (if InRange(Spheres.Root1(sqrt, AsSphere(tri), r), tMin, tMax)
       then Spheres.Root1(sqrt, AsSphere(tri), r) else Spheres.Root2(sqrt, AsSphere(tri), r))
  {
    Spheres.HitRootChoice(sqrt, AsSphere(tri), r, tMin, tMax);
  }

  /** On a hit: the point at t, the normal as (p - center) / radius, the triangle's material. */
  lemma HitRecordFill(sqrt: real -> real, tri: Triangle, r: Ray, tMin: real, tMax: real)
    requires Hit(sqrt, tri, r, tMin, tMax).Some?
    ensures tri.radius != 0.0
    ensures Hit(sqrt, tri, r, tMin, tMax).value.p == PointAt(r, Hit(sqrt, tri, r, tMin, tMax).value.t)
    ensures Scale(tri.radius, Hit(sqrt, tri, r, tMin, tMax).value.normal) ==
      Sub(Hit(sqrt, tri, r, tMin, tMax).value.p, tri.center)
    ensures Hit(sqrt, tri, r, tMin, tMax).value.material == tri.material
  {
    Spheres.HitRecordFill(sqrt, AsSphere(tri), r, tMin, tMax);
  }

  /** Lowering the upper bound only drops a hit that is no longer below it. */
  lemma HitClip(sqrt: real -> real, tri: Triangle, r: Ray, tMin: real, tMax: real, bound: real)
    requires IsSqrt(sqrt)
    requires bound <= tMax
    ensures Hit(sqrt, tri, r, tMin, bound) == Clip(Hit(sqrt, tri, r, tMin, tMax), bound)
  {
    Spheres.HitClip(sqrt, AsSphere(tri), r, tMin, tMax, bound);
  }
}
