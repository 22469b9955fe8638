/**
 * rt_material.h: the unit-ball rejection sampler, reflection, refraction,
 * Schlick's approximation and the two scatter rules the header defines, Metal
 * and Lambertian. Its last class, Lambertian, ends at line 80; it defines no
 * Dielectric.
 */
module Materials {
  import opened Wrappers
  import opened Vectors
  import opened Hitable

  /** A value drand48 can return. */
  predicate UnitInterval(d: real)
  {
    0.0 <= d < 1.0
  }

  /** One candidate of the rejection loop: 2 (d0, d1, d2) - (1, 1, 1). */
  function Candidate(d0: real, d1: real, d2: real): Vec3
  {
    Sub(Scale(2.0, Vec3(d0, d1, d2)), Splat(1.0))
  }

  /** The candidate built from the k-th group of three draws. */
  function Block(draws: seq<real>, k: nat): Vec3
    requires 3 * k + 3 <= |draws|
  {
    Candidate(draws[3 * k], draws[3 * k + 1], draws[3 * k + 2])
  }

  predicate InsideBall(p: Vec3)
  {
    Dot(p, p) < 1.0
  }

  /** The sampler's outcome: the accepted point and how many draws it consumed. */
  datatype Sample = Sample(point: Vec3, used: nat)

  /** Adds `n` earlier draws to a sample's count. */
  function Shift(s: Option<Sample>, n: nat): Option<Sample>
  {
    match s
    case None => None
    case Some(t) => Some(Sample(t.point, t.used + n))
  }

  /**
   * The point random_in_unit_sphere returns when drand48 yields `draws`: the first
   * candidate strictly inside the unit ball. None when the draws run out first.
   */
  function FirstInBall(draws: seq<real>): (s: Option<Sample>)
    ensures s.Some? ==> InsideBall(s.value.point)
    ensures s.Some? ==> 3 <= s.value.used <= |draws| && s.value.used % 3 == 0
    decreases |draws|
  {
    if |draws| < 3 then
      None
    else
      var c := Candidate(draws[0], draws[1], draws[2]);
      if InsideBall(c) then Some(Sample(c, 3)) else Shift(FirstInBall(draws[3..]), 3)
  }

  /**
   * The accepted point is the candidate of the last group consumed and every
   * earlier candidate was rejected; without a point, every complete group was rejected.
   */
  lemma {:induction false} FirstInBallIsFirst(draws: seq<real>)
    ensures FirstInBall(draws).Some? ==>
      FirstInBall(draws).value.point == Block(draws, FirstInBall(draws).value.used / 3 - 1) &&
      forall k :: 0 <= k < FirstInBall(draws).value.used / 3 - 1 ==> !InsideBall(Block(draws, k))
    ensures FirstInBall(draws).None? ==> forall k :: 0 <= k && 3 * k + 3 <= |draws| ==> !InsideBall(Block(draws, k))
    decreases |draws|
  {
    if |draws| >= 3 && !InsideBall(Candidate(draws[0], draws[1], draws[2])) {
      var rest := draws[3..];
      FirstInBallIsFirst(rest);
      forall k | 1 <= k && 3 * k + 3 <= |draws|
        ensures Block(draws, k) == Block(rest, k - 1)
      {
      }
    }
  }

  /** Every candidate built from drand48 values has each coordinate in [-1, 1). */
  lemma CandidateRange(d0: real, d1: real, d2: real)
    requires UnitInterval(d0) && UnitInterval(d1) && UnitInterval(d2)
    ensures var c := Candidate(d0, d1, d2);
      -1.0 <= c.x < 1.0 && -1.0 <= c.y < 1.0 && -1.0 <= c.z < 1.0
  {
  }

  /** One round of the rejection loop starting at draw `used`. */
  lemma FirstInBallStep(draws: seq<real>, used: nat)
    requires used + 3 <= |draws|
    ensures var c := Candidate(draws[used], draws[used + 1], draws[used + 2]);
      FirstInBall(draws[used..]) ==
        if InsideBall(c) then Some(Sample(c, 3)) else Shift(FirstInBall(draws[used + 3..]), 3)
  {
    assert draws[used..][3..] == draws[used + 3..];
  }

  /**
   * random_in_unit_sphere: the do-while rejection loop over a finite stream of
   * drand48 values. `used` is the number of values consumed.
   */
  method RandomInUnitSphere(draws: seq<real>) returns (p: Option<Vec3>, used: nat)
    ensures FirstInBall(draws).Some? ==> p == Some(FirstInBall(draws).value.point) && used == FirstInBall(draws).value.used
    ensures FirstInBall(draws).None? ==> p.None?
    ensures p.Some? ==> InsideBall(p.value)
  {
    used := 0;
    while used + 3 <= |draws|
      invariant used <= |draws| && used % 3 == 0
      invariant FirstInBall(draws) == Shift(FirstInBall(draws[used..]), used)
      decreases |draws| - used
    {
      var c := Candidate(draws[used], draws[used + 1], draws[used + 2]);
      FirstInBallStep(draws, used);
      used := used + 3;
      if InsideBall(c) {
        return Some(c), used;
      }
    }
    return None, used;
  }

  /** reflect(v, n) = v - 2 (v . n) n */
  function Reflect(v: Vec3, n: Vec3): Vec3
  {
    Sub(v, Scale(2.0 * Dot(v, n), n))
  }

  /** About a unit normal, reflection flips the normal component and keeps the length. */
  lemma ReflectProperties(v: Vec3, n: Vec3)
    requires Dot(n, n) == 1.0
    ensures Dot(Reflect(v, n), n) == -Dot(v, n)
    ensures Dot(Reflect(v, n), Reflect(v, n)) == Dot(v, v)
    ensures Reflect(Reflect(v, n), n) == v
  {
    var k := Dot(v, n);
    assert Dot(Reflect(v, n), n) == k - 2.0 * k * Dot(n, n);
    assert Dot(Reflect(v, n), Reflect(v, n)) == Dot(v, v) - 4.0 * k * k + 4.0 * k * k * Dot(n, n);
  }

  /** The quantity whose sign decides whether refract succeeds. */
  function RefractDiscriminant(sqrt: real -> real, v: Vec3, n: Vec3, niOverNt: real): real
  {
    var dt := Dot(Normalize(sqrt, v), n);
    1.0 - niOverNt * niOverNt * (1.0 - dt * dt)
  }

  /** refract; None is a `false` return, with the caller's vector left as it was. */
  function Refract(sqrt: real -> real, v: Vec3, n: Vec3, niOverNt: real): Option<Vec3>
  {
    var uv := Normalize(sqrt, v);
    var dt := Dot(uv, n);
    var discriminant := RefractDiscriminant(sqrt, v, n, niOverNt);
    if discriminant > 0.0 then
      Some(Sub(Scale(niOverNt, Sub(uv, Scale(dt, n))), Scale(sqrt(discriminant), n)))
    else
      None
  }

  lemma RefractFails(sqrt: real -> real, v: Vec3, n: Vec3, niOverNt: real)
    ensures Refract(sqrt, v, n, niOverNt).None? <==> RefractDiscriminant(sqrt, v, n, niOverNt) <= 0.0
  {
  }

  /**
   * For a non-zero incoming vector and a unit normal, a refracted ray is a unit
   * vector on the far side of the surface: its normal component is -sqrt(discriminant).
   */
  lemma RefractUnit(sqrt: real -> real, v: Vec3, n: Vec3, niOverNt: real)
    requires IsSqrt(sqrt)
    requires v != Zero3 && Dot(n, n) == 1.0
    requires Refract(sqrt, v, n, niOverNt).Some?
    ensures var w := Refract(sqrt, v, n, niOverNt).value;
      Dot(w, w) == 1.0 && Dot(w, n) == -sqrt(RefractDiscriminant(sqrt, v, n, niOverNt))
  {
    var uv := Normalize(sqrt, v);
    NormalizeUnit(sqrt, v);
    var dt := Dot(uv, n);
    var disc := RefractDiscriminant(sqrt, v, n, niOverNt);
    assert disc == 1.0 - niOverNt * niOverNt * (1.0 - dt * dt);
    assert disc > 0.0;
    SqrtOf(sqrt, disc);
    RefractGeometry(uv, n, niOverNt, sqrt(disc));
    assert Refract(sqrt, v, n, niOverNt).value == Sub(Scale(niOverNt, Sub(uv, Scale(dt, n))), Scale(sqrt(disc), n));
  }

  /**
   * For unit uv and n, eta (uv - (uv.n) n) - root n has unit length and normal
   * component -root whenever root^2 is the refraction discriminant.
   */
  lemma RefractGeometry(uv: Vec3, n: Vec3, eta: real, root: real)
    requires Dot(uv, uv) == 1.0 && Dot(n, n) == 1.0
    requires root * root == 1.0 - eta * eta * (1.0 - Dot(uv, n) * Dot(uv, n))
    ensures var w := Sub(Scale(eta, Sub(uv, Scale(Dot(uv, n), n))), Scale(root, n));
      Dot(w, w) == 1.0 && Dot(w, n) == -root
  {
    var dt := Dot(uv, n);
    var tangent := Sub(uv, Scale(dt, n));
    DotSubScale(uv, dt, n);
    assert Dot(tangent, tangent) == 1.0 - dt * dt;
    assert Dot(tangent, n) == 0.0;
    DotCombination(eta, tangent, root, n);
    RefractAlgebra(eta, dt, root);
  }

  /** The scalar identity behind RefractGeometry: eta^2 (1 - dt^2) + root^2 = 1. */
  lemma RefractAlgebra(eta: real, dt: real, root: real)
    requires root * root == 1.0 - eta * eta * (1.0 - dt * dt)
    ensures eta * eta * (1.0 - dt * dt) - 2.0 * eta * root * 0.0 + root * root * 1.0 == 1.0
  {
  }

  /** r0 of Schlick's approximation, ((1 - n) / (1 + n))^2. */
  function R0(refIdx: real): real
    requires refIdx != -1.0
  {
    var r := (1.0 - refIdx) / (1.0 + refIdx);
    r * r
  }

  function Pow5(x: real): real
  {
    x * x * x * x * x
  }

  /** schlick(cosine, ref_idx) */
  function Schlick(cosine: real, refIdx: real): real
    requires refIdx != -1.0
  {
    var r0 := R0(refIdx);
    r0 + (1.0 - r0) * Pow5(1.0 - cosine)
  }

  /** Head-on the reflectance is r0, at grazing incidence it is 1. */
  lemma SchlickEnds(refIdx: real)
    requires refIdx != -1.0
    ensures Schlick(1.0, refIdx) == R0(refIdx)
    ensures Schlick(0.0, refIdx) == 1.0
  {
  }

  /** For a positive index, r0 is in [0, 1). */
  lemma R0Range(refIdx: real)
    requires refIdx > 0.0
    ensures 0.0 <= R0(refIdx) < 1.0
  {
    var r := (1.0 - refIdx) / (1.0 + refIdx);
    assert r * (1.0 + refIdx) == 1.0 - refIdx;
    assert -1.0 < r < 1.0;
    SquareNonNeg(r);
    if r >= 0.0 {
      assert r * r <= r;
    } else {
      assert r * r <= -r;
    }
  }

  lemma Pow5Range(x: real)
    requires 0.0 <= x <= 1.0
    ensures 0.0 <= Pow5(x) <= 1.0
  {
    ProductAtMost(x, x);
    var x2 := Product(x, x);
    ProductAtMost(x2, x2);
    ProductAtMost(x, x2);
    var x4 := Product(x2, x2);
    ProductAtMost(x, x4);
    assert Pow5(x) == Product(x4, x);
  }

  /** For cosine in [0, 1] and a non-negative index, the reflectance lies in [r0, 1]. */
  lemma SchlickRange(cosine: real, refIdx: real)
    requires 0.0 <= cosine <= 1.0 && refIdx >= 0.0
    ensures R0(refIdx) <= Schlick(cosine, refIdx) <= 1.0
  {
    var r0 := R0(refIdx);
    if refIdx > 0.0 {
      R0Range(refIdx);
    } else {
      assert r0 == 1.0;
    }
    var p := Pow5(1.0 - cosine);
    Pow5Range(1.0 - cosine);
    assert (1.0 - r0) * p <= 1.0 - r0;
    assert 0.0 <= (1.0 - r0) * p;
  }

  /** Metal's constructor: the fuzz is capped at 1 from above. */
  function MakeMetal(albedo: Vec3, f: real): (m: Material)
    ensures m.Metal? && m.albedo == albedo
    ensures m.fuzz <= 1.0
    ensures m.fuzz == f || (f >= 1.0 && m.fuzz == 1.0)
  {
    Metal(albedo, if f < 1.0 then f else 1.0)
  }

  /** What a scatter call reports: its boolean result and the two out-parameters. */
  datatype Scattered = Scattered(accepted: bool, attenuation: Vec3, ray: Ray)

  /** Lambertian::scatter, with `sample` the value of random_in_unit_sphere. */
  function LambertianScatter(albedo: Vec3, rec: HitRecord, sample: Vec3): Scattered
  {
    var target := Add(Add(rec.p, rec.normal), sample);
    Scattered(true, albedo, Ray(rec.p, Sub(target, rec.p)))
  }

  /** Diffuse scattering always succeeds and leaves along normal + sample from the hit point. */
  lemma LambertianRule(albedo: Vec3, rec: HitRecord, sample: Vec3)
    ensures var s := LambertianScatter(albedo, rec, sample);
      s.accepted && s.attenuation == albedo &&
      s.ray == Ray(rec.p, Add(rec.normal, sample))
  {
  }

  /** Metal::scatter, with `sample` the value of random_in_unit_sphere. */
  function MetalScatter(sqrt: real -> real, albedo: Vec3, fuzz: real, rIn: Ray, rec: HitRecord, sample: Vec3): Scattered
  {
    var reflected := Reflect(Normalize(sqrt, rIn.direction), rec.normal);
    var scattered := Ray(rec.p, Add(reflected, Scale(fuzz, sample)));
    Scattered(Dot(scattered.direction, rec.normal) > 0.0, albedo, scattered)
  }

  /**
   * A metal scatters from the hit point with its albedo, reflecting the incoming
   * direction, and is accepted exactly when the result leaves the front of the surface.
   */
  lemma MetalRule(sqrt: real -> real, albedo: Vec3, fuzz: real, rIn: Ray, rec: HitRecord, sample: Vec3)
    ensures var s := MetalScatter(sqrt, albedo, fuzz, rIn, rec, sample);
      s.attenuation == albedo && s.ray.origin == rec.p &&
      s.ray.direction == Add(Reflect(Normalize(sqrt, rIn.direction), rec.normal), Scale(fuzz, sample)) &&
      (s.accepted <==> Dot(s.ray.direction, rec.normal) > 0.0)
  {
  }

  /**
   * A perfect mirror (fuzz 0) about a unit normal accepts exactly the rays that
   * arrive against the normal.
   */
  lemma MirrorAccepts(sqrt: real -> real, albedo: Vec3, rIn: Ray, rec: HitRecord, sample: Vec3)
    requires IsSqrt(sqrt)
    requires rIn.direction != Zero3 && Dot(rec.normal, rec.normal) == 1.0
    ensures MetalScatter(sqrt, albedo, 0.0, rIn, rec, sample).accepted <==> Dot(rIn.direction, rec.normal) < 0.0
  {
    var d := rIn.direction;
    var n := rec.normal;
    var u := Normalize(sqrt, d);
    var len := sqrt(Dot(d, d));
    NormalizeScale(sqrt, d);
    ReflectProperties(u, n);
    assert Scale(len, u) == d;
    assert Dot(d, n) == len * Dot(u, n);
    ProductSign(len, Dot(u, n));
    assert Add(Reflect(u, n), Scale(0.0, sample)) == Reflect(u, n);
  }

  /** With a positive first factor, a product has the sign of the second. */
  lemma ProductSign(a: real, b: real)
    requires a > 0.0
    ensures a * b < 0.0 <==> b < 0.0
  {
    if b < 0.0 {
      ProductPos(a, -b);
    } else if b > 0.0 {
      ProductPos(a, b);
    }
  }

  /** The scatter rule of each material; a dielectric defers to an oracle. */
  function Scatter(sqrt: real -> real, dielectric: (real, Ray, HitRecord) -> Scattered,
                   m: Material, rIn: Ray, rec: HitRecord, sample: Vec3): Scattered
  {
    match m
    case Lambertian(albedo) => LambertianScatter(albedo, rec, sample)
    case Metal(albedo, fuzz) => MetalScatter(sqrt, albedo, fuzz, rIn, rec, sample)
    case Dielectric(refIdx) => dielectric(refIdx, rIn, rec)
  }
}
