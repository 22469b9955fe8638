/**
 * glm::vec3 and glm::vec4 over the reals, with the handful of glm operations the
 * ray tracer uses. Square root is not definable here: it is passed around as a
 * function value, and the lemmas that need it require `IsSqrt` of it.
 */
module Vectors {

  datatype Vec3 = Vec3(x: real, y: real, z: real)

  /** An accumulation-buffer entry: rgb sum in x, y, z and the sample weight in w. */
  datatype Vec4 = Vec4(x: real, y: real, z: real, w: real)

  const Zero3: Vec3 := Vec3(0.0, 0.0, 0.0)
  const Zero4: Vec4 := Vec4(0.0, 0.0, 0.0, 0.0)

  /** glm::vec3(k) */
  function Splat(k: real): Vec3 { Vec3(k, k, k) }

  function Add(u: Vec3, v: Vec3): Vec3 { Vec3(u.x + v.x, u.y + v.y, u.z + v.z) }

  function Sub(u: Vec3, v: Vec3): Vec3 { Vec3(u.x - v.x, u.y - v.y, u.z - v.z) }

  function Scale(k: real, v: Vec3): Vec3 { Vec3(k * v.x, k * v.y, k * v.z) }

  /** Component-wise product, glm's `vec3 * vec3`. */
  function Mul(u: Vec3, v: Vec3): Vec3 { Vec3(u.x * v.x, u.y * v.y, u.z * v.z) }

  function Div(v: Vec3, k: real): Vec3
    requires k != 0.0
  {
    Vec3(v.x / k, v.y / k, v.z / k)
  }

  function Dot(u: Vec3, v: Vec3): real { u.x * v.x + u.y * v.y + u.z * v.z }

  function Cross(u: Vec3, v: Vec3): Vec3
  {
    Vec3(u.y * v.z - u.z * v.y, u.z * v.x - u.x * v.z, u.x * v.y - u.y * v.x)
  }

  /** Every component lies in [lo, hi]. */
  predicate Within(v: Vec3, lo: real, hi: real)
  {
    lo <= v.x <= hi && lo <= v.y <= hi && lo <= v.z <= hi
  }

  /**
   * The real product `a * b`. Sign facts are stated about this function rather than
   * about the bare product, which keeps them usable as written by the proofs that
   * call the lemmas below.
   */
  function Product(a: real, b: real): real { a * b }

  lemma ProductPos(a: real, b: real)
    requires (a > 0.0 && b > 0.0) || (a < 0.0 && b < 0.0)
    ensures Product(a, b) > 0.0
  {
    if a > 0.0 {
      assert a * b > 0.0;
    } else {
      assert a * b > 0.0;
    }
  }

  lemma ProductNonNeg(a: real, b: real)
    requires a >= 0.0 && b >= 0.0
    ensures Product(a, b) >= 0.0
  {
    if a > 0.0 && b > 0.0 {
      ProductPos(a, b);
    }
  }

  /** A factor in [0, 1] does not increase a non-negative real. */
  lemma ProductAtMost(a: real, b: real)
    requires 0.0 <= a <= 1.0 && b >= 0.0
    ensures 0.0 <= Product(a, b) <= b
  {
    ProductNonNeg(a, b);
    ProductNonNeg(1.0 - a, b);
  }

  lemma SquareNonNeg(x: real)
    ensures Product(x, x) >= 0.0
  {
    if x != 0.0 {
      ProductPos(x, x);
    }
  }

  lemma SquarePos(x: real)
    requires x != 0.0
    ensures Product(x, x) > 0.0
  {
    ProductPos(x, x);
  }

  /** A value outside [-1, 1] has a square above 1. */
  lemma SquareAboveOne(x: real)
    requires x > 1.0 || x < -1.0
    ensures Product(x, x) > 1.0
  {
    if x > 1.0 {
      ProductPos(x - 1.0, x + 1.0);
    } else {
      ProductPos(-x - 1.0, 1.0 - x);
    }
  }

  /** Two non-negative reals with the same square are equal. */
  lemma SquareInjective(q: real, s: real)
    requires 0.0 <= q && 0.0 <= s && q * q == s * s
    ensures q == s
  {
    if q > s {
      ProductPos(q - s, q + s);
    } else if q < s {
      ProductPos(s - q, q + s);
    }
  }

  /** A product is zero only when a factor is. */
  lemma ProductZero(a: real, b: real)
    requires a * b == 0.0
    ensures a == 0.0 || b == 0.0
  {
    if (a > 0.0 && b > 0.0) || (a < 0.0 && b < 0.0) {
      ProductPos(a, b);
    } else if a > 0.0 && b < 0.0 {
      ProductPos(a, -b);
    } else if a < 0.0 && b > 0.0 {
      ProductPos(-a, b);
    }
  }

  lemma DotSelf(v: Vec3)
    ensures Dot(v, v) >= 0.0
    ensures Dot(v, v) == 0.0 <==> v == Zero3
  {
    assert Dot(v, v) == Product(v.x, v.x) + Product(v.y, v.y) + Product(v.z, v.z);
    SquareNonNeg(v.x);
    SquareNonNeg(v.y);
    SquareNonNeg(v.z);
    if v.x != 0.0 {
      SquarePos(v.x);
    } else if v.y != 0.0 {
      SquarePos(v.y);
    } else if v.z != 0.0 {
      SquarePos(v.z);
    }
  }

  /** Dot products of u - k n, expanded. */
  lemma DotSubScale(u: Vec3, k: real, n: Vec3)
    ensures Dot(Sub(u, Scale(k, n)), n) == Dot(u, n) - k * Dot(n, n)
    ensures Dot(Sub(u, Scale(k, n)), Sub(u, Scale(k, n))) == Dot(u, u) - 2.0 * k * Dot(u, n) + k * k * Dot(n, n)
  {
  }

  /** Dot products of a u - b n, expanded. */
  lemma DotCombination(a: real, u: Vec3, b: real, n: Vec3)
    ensures Dot(Sub(Scale(a, u), Scale(b, n)), n) == a * Dot(u, n) - b * Dot(n, n)
    ensures Dot(Sub(Scale(a, u), Scale(b, n)), Sub(Scale(a, u), Scale(b, n)))
      == a * a * Dot(u, u) - 2.0 * a * b * Dot(u, n) + b * b * Dot(n, n)
  {
  }

  /** |u|^2 |v|^2 - (u.v)^2 = |u x v|^2, hence the Cauchy-Schwarz inequality. */
  lemma CauchySchwarz(u: Vec3, v: Vec3)
    ensures Dot(u, v) * Dot(u, v) <= Dot(u, u) * Dot(v, v)
  {
    var w := Cross(u, v);
    assert Dot(u, u) * Dot(v, v) - Dot(u, v) * Dot(u, v) == Dot(w, w);
    DotSelf(w);
  }

  /** A square-root oracle is exact at x. */
  predicate ExactAt(sqrt: real -> real, x: real)
  {
    0.0 <= sqrt(x) && sqrt(x) * sqrt(x) == x
  }

  /**
   * The axiom a square-root oracle must satisfy: exact on the non-negative reals.
   * Proofs take the instance they need through SqrtOf.
   */
  ghost predicate IsSqrt(sqrt: real -> real)
  {
    forall x :: 0.0 <= x ==> ExactAt(sqrt, x)
  }

  lemma SqrtOf(sqrt: real -> real, x: real)
    requires IsSqrt(sqrt)
    requires 0.0 <= x
    ensures 0.0 <= sqrt(x) && sqrt(x) * sqrt(x) == x
  {
    assert ExactAt(sqrt, x);
  }

  /** glm::normalize; a zero vector, for which glm yields NaN, is returned unchanged. */
  function Normalize(sqrt: real -> real, v: Vec3): Vec3
  {
    var len := sqrt(Dot(v, v));
    if len == 0.0 then v else Div(v, len)
  }

  lemma NormalizeUnit(sqrt: real -> real, v: Vec3)
    requires IsSqrt(sqrt)
    requires v != Zero3
    ensures Dot(Normalize(sqrt, v), Normalize(sqrt, v)) == 1.0
  {
    DotSelf(v);
    var q := Dot(v, v);
    SqrtOf(sqrt, q);
    var len := sqrt(q);
    assert len * len == q;
    assert len != 0.0;
    var inv := 1.0 / len;
    assert inv * len == 1.0;
    var n := Div(v, len);
    assert n == Scale(inv, v);
    assert Dot(n, n) == inv * inv * q;
    assert inv * inv * q == (inv * len) * (inv * len);
  }

  /** A non-zero vector is its normalization stretched by its (positive) length. */
  lemma NormalizeScale(sqrt: real -> real, v: Vec3)
    requires IsSqrt(sqrt)
    requires v != Zero3
    ensures sqrt(Dot(v, v)) > 0.0
    ensures Scale(sqrt(Dot(v, v)), Normalize(sqrt, v)) == v
  {
    DotSelf(v);
    SqrtOf(sqrt, Dot(v, v));
    var len := sqrt(Dot(v, v));
    assert len * len == Dot(v, v);
    var n := Div(v, len);
    assert Scale(len, n).x == v.x;
    assert Scale(len, n).y == v.y;
    assert Scale(len, n).z == v.z;
  }

  /** A normalized vector is a unit vector, or zero when its argument was zero. */
  lemma NormalizeBounded(sqrt: real -> real, v: Vec3)
    requires IsSqrt(sqrt)
    ensures Dot(Normalize(sqrt, v), Normalize(sqrt, v)) <= 1.0
    ensures Within(Normalize(sqrt, v), -1.0, 1.0)
  {
    var n := Normalize(sqrt, v);
    if v == Zero3 {
      assert n == Zero3 by {
        assert Dot(v, v) == 0.0;
        if sqrt(0.0) != 0.0 {
          assert Div(v, sqrt(0.0)) == Zero3;
        }
      }
    } else {
      NormalizeUnit(sqrt, v);
    }
    UnitComponents(n);
  }

  lemma UnitComponents(n: Vec3)
    requires Dot(n, n) <= 1.0
    ensures Within(n, -1.0, 1.0)
  {
    assert Dot(n, n) == Product(n.x, n.x) + Product(n.y, n.y) + Product(n.z, n.z);
    SquareNonNeg(n.x);
    SquareNonNeg(n.y);
    SquareNonNeg(n.z);
    if !Within(n, -1.0, 1.0) {
      if n.x > 1.0 || n.x < -1.0 {
        SquareAboveOne(n.x);
      } else if n.y > 1.0 || n.y < -1.0 {
        SquareAboveOne(n.y);
      } else {
        SquareAboveOne(n.z);
      }
    }
  }

  /** glm::clamp(x, lo, hi) = min(max(x, lo), hi). */
  function Clamp(x: real, lo: real, hi: real): real
  {
    var m := if x > lo then x else lo;
    if m < hi then m else hi
  }

  /** glm::vec4(v, w) */
  function Extend(v: Vec3, w: real): Vec4 { Vec4(v.x, v.y, v.z, w) }

  function Add4(p: Vec4, q: Vec4): Vec4 { Vec4(p.x + q.x, p.y + q.y, p.z + q.z, p.w + q.w) }

  function Div4(p: Vec4, k: real): Vec4
    requires k != 0.0
  {
    Vec4(p.x / k, p.y / k, p.z / k, p.w / k)
  }

  function Clamp4(p: Vec4, lo: real, hi: real): Vec4
  {
    Vec4(Clamp(p.x, lo, hi), Clamp(p.y, lo, hi), Clamp(p.z, lo, hi), Clamp(p.w, lo, hi))
  }
}
