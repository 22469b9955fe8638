/**
 * Sphere::hit: the ray/sphere quadratic, the choice between its two roots and the
 * hit record filled in on success. A miss leaves the caller's record alone, which
 * is a `None` here.
 */
module Spheres {
  import opened Wrappers
  import opened Vectors
  import opened Hitable

  datatype Sphere = Sphere(center: Vec3, radius: real, material: Option<Material>)

  /** The coefficients of `a t^2 + b t + c`, zero where the ray meets the sphere's surface. */
  datatype Quadratic = Quadratic(a: real, b: real, c: real)

  function Coefficients(s: Sphere, r: Ray): Quadratic
  {
    var oc := Sub(r.origin, s.center);
    Quadratic(Dot(r.direction, r.direction), 2.0 * Dot(oc, r.direction), Dot(oc, oc) - s.radius * s.radius)
  }

  function Discriminant(q: Quadratic): real
  {
    q.b * q.b - 4.0 * q.a * q.c
  }

  function Eval(q: Quadratic, t: real): real
  {
    q.a * t * t + q.b * t + q.c
  }

  /**
   * A positive discriminant forces a non-zero direction and a non-zero radius
   * (the latter by Cauchy-Schwarz), so both divisions of the hit test are defined.
   */
  lemma PositiveDiscriminant(s: Sphere, r: Ray)
    requires Discriminant(Coefficients(s, r)) > 0.0
    ensures Coefficients(s, r).a > 0.0
    ensures s.radius != 0.0
  {
    DirectionNonZero(s, r);
    RadiusNonZero(s, r);
  }

  lemma DirectionNonZero(s: Sphere, r: Ray)
    requires Discriminant(Coefficients(s, r)) > 0.0
    ensures Coefficients(s, r).a > 0.0
  {
    ZeroDirectionMisses(s, r);
    DotSelf(r.direction);
  }

  lemma ZeroDirectionMisses(s: Sphere, r: Ray)
    requires Discriminant(Coefficients(s, r)) > 0.0
    ensures r.direction != Zero3
  {
  }

  lemma RadiusNonZero(s: Sphere, r: Ray)
    requires Discriminant(Coefficients(s, r)) > 0.0
    ensures s.radius != 0.0
  {
    var oc := Sub(r.origin, s.center);
    var d := r.direction;
    CauchySchwarz(oc, d);
    if s.radius == 0.0 {
      DiscriminantBound(Dot(d, d), Dot(oc, d), Dot(oc, oc));
      assert false;
    }
  }

  /** With a zero radius the discriminant is 4((oc.d)^2 - |d|^2 |oc|^2), never positive. */
  lemma DiscriminantBound(a: real, h: real, c: real)
    requires h * h <= c * a
    ensures Discriminant(Quadratic(a, 2.0 * h, c - 0.0 * 0.0)) <= 0.0
  {
  }

  /** The nearer root, temp1 at rt_sphere.h:29. */
  function Root1(sqrt: real -> real, s: Sphere, r: Ray): real
    requires Discriminant(Coefficients(s, r)) > 0.0
  {
    PositiveDiscriminant(s, r);
    var q := Coefficients(s, r);
    (-q.b - sqrt(Discriminant(q))) / (2.0 * q.a)
  }

  /** The farther root, temp2 at rt_sphere.h:30. */
  function Root2(sqrt: real -> real, s: Sphere, r: Ray): real
    requires Discriminant(Coefficients(s, r)) > 0.0
  {
    PositiveDiscriminant(s, r);
    var q := Coefficients(s, r);
    (-q.b + sqrt(Discriminant(q))) / (2.0 * q.a)
  }

  /** Sphere::hit; `None` is a `false` return, with the record left as it was. */
  function Hit(sqrt: real -> real, s: Sphere, r: Ray, tMin: real, tMax: real): (res: Option<HitRecord>)
    ensures res.Some? ==> InRange(res.value.t, tMin, tMax)
  {
    if Discriminant(Coefficients(s, r)) > 0.0 then
      PositiveDiscriminant(s, r);
      var t1 := Root1(sqrt, s, r);
      var t := if InRange(t1, tMin, tMax) then t1 else Root2(sqrt, s, r);
      if InRange(t, tMin, tMax) then
        var p := PointAt(r, t);
        Some(HitRecord(t, p, Div(Sub(p, s.center), s.radius), s.material))
      else
        None
    else
      None
  }

  /** The test fails exactly when there is no positive discriminant or neither root is in range. */
  lemma HitMiss(sqrt: real -> real, s: Sphere, r: Ray, tMin: real, tMax: real)
    ensures Hit(sqrt, s, r, tMin, tMax).None? <==>
      (Discriminant(Coefficients(s, r)) <= 0.0 ||
       (!InRange(Root1(sqrt, s, r), tMin, tMax) && !InRange(Root2(sqrt, s, r), tMin, tMax)))
  {
  }

  /** The nearer root wins when it is in range, the farther one otherwise. */
  lemma HitRootChoice(sqrt: real -> real, s: Sphere, r: Ray, tMin: real, tMax: real)
    requires Hit(sqrt, s, r, tMin, tMax).Some?
    ensures Discriminant(Coefficients(s, r)) > 0.0
    ensures Hit(sqrt, s, r, tMin, tMax).value.t ==
      (if InRange(Root1(sqrt, s, r), tMin, tMax) then Root1(sqrt, s, r) else Root2(sqrt, s, r))
  {
  }

  /**
   * On a hit the record holds the point at the chosen parameter, the outward offset
   * from the centre divided by the radius, and the sphere's own material.
   */
  lemma HitRecordFill(sqrt: real -> real, s: Sphere, r: Ray, tMin: real, tMax: real)
    requires Hit(sqrt, s, r, tMin, tMax).Some?
    ensures s.radius != 0.0
    ensures Hit(sqrt, s, r, tMin, tMax).value.p == PointAt(r, Hit(sqrt, s, r, tMin, tMax).value.t)
    ensures Scale(s.radius, Hit(sqrt, s, r, tMin, tMax).value.normal) ==
      Sub(Hit(sqrt, s, r, tMin, tMax).value.p, s.center)
    ensures Hit(sqrt, s, r, tMin, tMax).value.material == s.material
  {
    PositiveDiscriminant(s, r);
    var h := Hit(sqrt, s, r, tMin, tMax).value;
    var off := Sub(h.p, s.center);
    assert h.normal == Div(off, s.radius);
    assert Scale(s.radius, h.normal).x == off.x;
    assert Scale(s.radius, h.normal).y == off.y;
    assert Scale(s.radius, h.normal).z == off.z;
  }

  /** (-b + u) / 2a solves the quadratic whenever u is a square root of its discriminant. */
  lemma RootSolves(q: Quadratic, u: real)
    requires q.a != 0.0
    requires u * u == Discriminant(q)
    ensures Eval(q, (-q.b + u) / (2.0 * q.a)) == 0.0
  {
    var t := (-q.b + u) / (2.0 * q.a);
    var m := 2.0 * q.a * t;
    assert m == -q.b + u;
    assert 4.0 * q.a * Eval(q, t) == m * m + 2.0 * q.b * m + 4.0 * q.a * q.c;
    assert m * m + 2.0 * q.b * m == u * u - q.b * q.b;
    ProductZero(4.0 * q.a, Eval(q, t));
  }

  /** Every solution is one of the two roots. */
  lemma OnlyRoots(q: Quadratic, s: real, t: real)
    requires q.a != 0.0
    requires s * s == Discriminant(q)
    requires Eval(q, t) == 0.0
    ensures t == (-q.b - s) / (2.0 * q.a) || t == (-q.b + s) / (2.0 * q.a)
  {
    var m := 2.0 * q.a * t + q.b;
    assert (m + s) * (m - s) == 4.0 * q.a * Eval(q, t);
    ProductZero(m + s, m - s);
  }

  /** With a positive leading coefficient and a non-negative root of the discriminant, the minus root is the smaller. */
  lemma RootsOrdered(q: Quadratic, s: real)
    requires q.a > 0.0 && s >= 0.0
    ensures (-q.b - s) / (2.0 * q.a) <= (-q.b + s) / (2.0 * q.a)
  {
    var k := 2.0 * q.a;
    var t1 := (-q.b - s) / k;
    var t2 := (-q.b + s) / k;
    assert t2 - t1 == (2.0 * s) / k;
    assert (2.0 * s) / k >= 0.0;
  }

  /**
   * With an exact square root, Root1 <= Root2, both solve the sphere's quadratic,
   * and no other parameter does.
   */
  lemma SphereRoots(sqrt: real -> real, s: Sphere, r: Ray)
    requires IsSqrt(sqrt)
    requires Discriminant(Coefficients(s, r)) > 0.0
    ensures Root1(sqrt, s, r) <= Root2(sqrt, s, r)
    ensures Eval(Coefficients(s, r), Root1(sqrt, s, r)) == 0.0
    ensures Eval(Coefficients(s, r), Root2(sqrt, s, r)) == 0.0
    ensures forall t :: Eval(Coefficients(s, r), t) == 0.0 ==> t == Root1(sqrt, s, r) || t == Root2(sqrt, s, r)
  {
    PositiveDiscriminant(s, r);
    var q := Coefficients(s, r);
    SqrtOf(sqrt, Discriminant(q));
    var root := sqrt(Discriminant(q));
    RootsOrdered(q, root);
    RootSolves(q, root);
    RootSolves(q, -root);
    assert -q.b + -root == -q.b - root;
    forall t | Eval(q, t) == 0.0
      ensures t == Root1(sqrt, s, r) || t == Root2(sqrt, s, r)
    {
      OnlyRoots(q, root, t);
    }
  }

  /** The reported parameter is the smallest solution of the quadratic in the open interval. */
  lemma HitSmallestRoot(sqrt: real -> real, s: Sphere, r: Ray, tMin: real, tMax: real)
    requires IsSqrt(sqrt)
    requires Hit(sqrt, s, r, tMin, tMax).Some?
    ensures Eval(Coefficients(s, r), Hit(sqrt, s, r, tMin, tMax).value.t) == 0.0
    ensures forall t :: InRange(t, tMin, tMax) && Eval(Coefficients(s, r), t) == 0.0 ==>
      Hit(sqrt, s, r, tMin, tMax).value.t <= t
  {
    SphereRoots(sqrt, s, r);
  }

  /** Conversely, a solution in the interval under a positive discriminant is always found. */
  lemma HitComplete(sqrt: real -> real, s: Sphere, r: Ray, tMin: real, tMax: real, t: real)
    requires IsSqrt(sqrt)
    requires Discriminant(Coefficients(s, r)) > 0.0
    requires InRange(t, tMin, tMax) && Eval(Coefficients(s, r), t) == 0.0
    ensures Hit(sqrt, s, r, tMin, tMax).Some?
  {
    SphereRoots(sqrt, s, r);
  }

  /** The reported point lies on the sphere's surface. */
  lemma HitOnSurface(sqrt: real -> real, s: Sphere, r: Ray, tMin: real, tMax: real)
    requires IsSqrt(sqrt)
    requires Hit(sqrt, s, r, tMin, tMax).Some?
    ensures Dot(Sub(Hit(sqrt, s, r, tMin, tMax).value.p, s.center), Sub(Hit(sqrt, s, r, tMin, tMax).value.p, s.center))
      == s.radius * s.radius
  {
    var h := Hit(sqrt, s, r, tMin, tMax).value;
    HitSmallestRoot(sqrt, s, r, tMin, tMax);
    SurfaceIdentity(s, r, h.t);
  }

  /** |o + t d - center|^2 - radius^2 is the quadratic evaluated at t. */
  lemma SurfaceIdentity(s: Sphere, r: Ray, t: real)
    ensures Dot(Sub(PointAt(r, t), s.center), Sub(PointAt(r, t), s.center)) - s.radius * s.radius
      == Eval(Coefficients(s, r), t)
  {
  }

  /** With an exact square root the stored normal has unit length, whatever the sign of the radius. */
  lemma HitUnitNormal(sqrt: real -> real, s: Sphere, r: Ray, tMin: real, tMax: real)
    requires IsSqrt(sqrt)
    requires Hit(sqrt, s, r, tMin, tMax).Some?
    ensures Dot(Hit(sqrt, s, r, tMin, tMax).value.normal, Hit(sqrt, s, r, tMin, tMax).value.normal) == 1.0
  {
    var h := Hit(sqrt, s, r, tMin, tMax).value;
    HitRecordFill(sqrt, s, r, tMin, tMax);
    HitOnSurface(sqrt, s, r, tMin, tMax);
    ScaledUnit(h.normal, s.radius, Sub(h.p, s.center));
  }

  /** If k n == w, |w|^2 == k^2 and k != 0, then n has unit length. */
  lemma ScaledUnit(n: Vec3, k: real, w: Vec3)
    requires k != 0.0
    requires Scale(k, n) == w && Dot(w, w) == k * k
    ensures Dot(n, n) == 1.0
  {
    assert Dot(w, w) == Product(k, k) * Dot(n, n);
    assert (Dot(n, n) - 1.0) * Product(k, k) == 0.0;
    SquarePos(k);
    ProductZero(Dot(n, n) - 1.0, Product(k, k));
  }

  /** Lowering the upper bound to `bound` only drops a hit that is no longer below it. */
  lemma HitClip(sqrt: real -> real, s: Sphere, r: Ray, tMin: real, tMax: real, bound: real)
    requires IsSqrt(sqrt)
    requires bound <= tMax
    ensures Hit(sqrt, s, r, tMin, bound) == Clip(Hit(sqrt, s, r, tMin, tMax), bound)
  {
    if Discriminant(Coefficients(s, r)) > 0.0 {
      SphereRoots(sqrt, s, r);
    }
  }
}
