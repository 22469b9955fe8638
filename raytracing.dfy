/**
 * rt_raytracing.cpp, the scene side: the scene record, the nearest-hit scan over
 * its four collections of primitives (hit_world) and the bounded recursive
 * radiance estimate (color).
 */
module RayTracing {
  import opened Wrappers
  import opened Vectors
  import opened Hitable
  import opened Materials
  import Spheres
  import Triangles

  /**
   * An axis-aligned box given by centre and half extents. Its hit test lives in
   * rt_box.h, which is not part of this model; the model receives it as an oracle.
   */
  datatype Box = Box(center: Vec3, radius: Vec3, material: Option<Material>)

  /**
   * The functions the model does not define: the square root, the box hit test and
   * the dielectric scatter rule (rt_material.h defines no `Dielectric`, which
   * rt_raytracing.cpp:100 constructs).
   */
  datatype Oracles = Oracles(
    sqrt: real -> real,
    boxHit: (Box, Ray, real, real) -> Option<HitRecord>,
    dielectric: (real, Ray, HitRecord) -> Scattered)

  /**
   * What every Hitable promises and the box oracle must too: a reported t lies in
   * the open interval, the record carries the box's material, and lowering the
   * upper bound only drops a report that is no longer below it.
   */
  ghost predicate BoxHitContract(boxHit: (Box, Ray, real, real) -> Option<HitRecord>)
  {
    (forall b, r, lo, hi :: boxHit(b, r, lo, hi).Some? ==>
       InRange(boxHit(b, r, lo, hi).value.t, lo, hi) && boxHit(b, r, lo, hi).value.material == b.material) &&
    (forall b, r, lo, hi, bound {:trigger boxHit(b, r, lo, hi), boxHit(b, r, lo, bound)} :: bound <= hi ==>
       boxHit(b, r, lo, bound) == Clip(boxHit(b, r, lo, hi), bound))
  }

  ghost predicate Sound(o: Oracles)
  {
    IsSqrt(o.sqrt) && BoxHitContract(o.boxHit)
  }

  /** Scene; `meshBbox` and `materials` are held by the source but not read by the code modelled here. */
  datatype Scene = Scene(
    ground: Spheres.Sphere,
    spheres: seq<Spheres.Sphere>,
    boxes: seq<Box>,
    mesh: seq<Triangles.Triangle>,
    meshBbox: Box,
    materials: seq<Material>)

  /** One primitive of the scan, whichever collection it comes from. */
  datatype Prim =
    | SpherePrim(sphere: Spheres.Sphere)
    | BoxPrim(box: Box)
    | TrianglePrim(triangle: Triangles.Triangle)

  function PrimHit(o: Oracles, p: Prim, r: Ray, tMin: real, tMax: real): Option<HitRecord>
  {
    match p
    case SpherePrim(s) => Spheres.Hit(o.sqrt, s, r, tMin, tMax)
    case BoxPrim(b) => o.boxHit(b, r, tMin, tMax)
    case TrianglePrim(tri) => Triangles.Hit(o.sqrt, tri, r, tMin, tMax)
  }

  function MaterialOf(p: Prim): Option<Material>
  {
    match p
    case SpherePrim(s) => s.material
    case BoxPrim(b) => b.material
    case TrianglePrim(tri) => tri.material
  }

  /** The ground, then the spheres, the boxes and the mesh triangles, in the order hit_world visits them. */
  function ScanOrder(scene: Scene): (ps: seq<Prim>)
    ensures |ps| == 1 + |scene.spheres| + |scene.boxes| + |scene.mesh|
    ensures ps[0] == SpherePrim(scene.ground)
  {
    [SpherePrim(scene.ground)]
    + seq(|scene.spheres|, i requires 0 <= i < |scene.spheres| => SpherePrim(scene.spheres[i]))
    + seq(|scene.boxes|, i requires 0 <= i < |scene.boxes| => BoxPrim(scene.boxes[i]))
    + seq(|scene.mesh|, i requires 0 <= i < |scene.mesh| => TrianglePrim(scene.mesh[i]))
  }

  /** What each primitive reports on its own for the full interval, in scan order. */
  function Reports(o: Oracles, prims: seq<Prim>, r: Ray, tMin: real, tMax: real): (rs: seq<Option<HitRecord>>)
    ensures |rs| == |prims|
  {
    if prims == [] then []
    else Reports(o, prims[..|prims| - 1], r, tMin, tMax) + [PrimHit(o, prims[|prims| - 1], r, tMin, tMax)]
  }

  lemma {:induction false} ReportsAt(o: Oracles, prims: seq<Prim>, r: Ray, tMin: real, tMax: real, i: nat)
    requires i < |prims|
    ensures Reports(o, prims, r, tMin, tMax)[i] == PrimHit(o, prims[i], r, tMin, tMax)
  {
    var n := |prims| - 1;
    if i < n {
      ReportsAt(o, prims[..n], r, tMin, tMax, i);
    }
  }

  /** Where each collection's primitives sit in the scan. */
  lemma ScanOrderAt(scene: Scene, i: nat)
    ensures i < |scene.spheres| ==> ScanOrder(scene)[1 + i] == SpherePrim(scene.spheres[i])
    ensures i < |scene.boxes| ==> ScanOrder(scene)[1 + |scene.spheres| + i] == BoxPrim(scene.boxes[i])
    ensures i < |scene.mesh| ==>
      ScanOrder(scene)[1 + |scene.spheres| + |scene.boxes| + i] == TrianglePrim(scene.mesh[i])
  {
  }

  /** Keeps the best report so far unless the new one is strictly nearer. */
  function Pick(best: Option<HitRecord>, x: Option<HitRecord>): Option<HitRecord>
  {
    if x.Some? && (best.None? || x.value.t < best.value.t) then x else best
  }

  /** The first-found nearest report, folding Pick from the front. */
  function Nearest(rs: seq<Option<HitRecord>>): Option<HitRecord>
  {
    if rs == [] then None else Pick(Nearest(rs[..|rs| - 1]), rs[|rs| - 1])
  }

  /**
   * Nearest finds a hit exactly when some report is a hit; it is one of the reports,
   * no report is nearer, and every earlier report is strictly farther (ties go to
   * the first primitive scanned).
   */
  lemma {:induction false} NearestIsFirstMinimum(rs: seq<Option<HitRecord>>)
    ensures Nearest(rs).Some? <==> exists i :: 0 <= i < |rs| && rs[i].Some?
    ensures Nearest(rs).Some? ==> forall i :: 0 <= i < |rs| && rs[i].Some? ==> Nearest(rs).value.t <= rs[i].value.t
    ensures Nearest(rs).Some? ==>
      exists k :: 0 <= k < |rs| && rs[k] == Nearest(rs) &&
        (forall j :: 0 <= j < k && rs[j].Some? ==> rs[j].value.t > Nearest(rs).value.t)
  {
    if rs != [] {
      var init := rs[..|rs| - 1];
      NearestIsFirstMinimum(init);
      assert forall i :: 0 <= i < |init| ==> init[i] == rs[i];
      var last := |rs| - 1;
      if Nearest(rs) != Nearest(init) {
        assert Nearest(rs) == rs[last];
        forall j | 0 <= j < last && rs[j].Some?
          ensures rs[j].value.t > Nearest(rs).value.t
        {
          assert init[j].Some?;
        }
      } else if Nearest(rs).Some? {
        var k :| 0 <= k < |init| && init[k] == Nearest(init) &&
          forall j :: 0 <= j < k && init[j].Some? ==> init[j].value.t > Nearest(init).value.t;
        assert rs[k] == Nearest(rs);
      }
    }
  }

  /** Every primitive's report for a lowered bound is its full report clipped to that bound. */
  lemma PrimClip(o: Oracles, p: Prim, r: Ray, tMin: real, tMax: real, bound: real)
    requires Sound(o)
    requires bound <= tMax
    ensures PrimHit(o, p, r, tMin, bound) == Clip(PrimHit(o, p, r, tMin, tMax), bound)
  {
    match p
    case SpherePrim(s) => Spheres.HitClip(o.sqrt, s, r, tMin, tMax, bound);
    case BoxPrim(b) =>
    case TrianglePrim(tri) => Triangles.HitClip(o.sqrt, tri, r, tMin, tMax, bound);
  }

  /** Every report lies in range and carries its primitive's material. */
  lemma PrimReport(o: Oracles, p: Prim, r: Ray, tMin: real, tMax: real)
    requires Sound(o)
    requires PrimHit(o, p, r, tMin, tMax).Some?
    ensures InRange(PrimHit(o, p, r, tMin, tMax).value.t, tMin, tMax)
    ensures PrimHit(o, p, r, tMin, tMax).value.material == MaterialOf(p)
  {
    match p
    case SpherePrim(s) => Spheres.HitRecordFill(o.sqrt, s, r, tMin, tMax);
    case BoxPrim(b) =>
    case TrianglePrim(tri) => Triangles.HitRecordFill(o.sqrt, tri, r, tMin, tMax);
  }

  /**
   * One step of the scan: testing the next primitive against the current closest
   * bound does what Pick does with its full report.
   */
  lemma ScanStep(o: Oracles, p: Prim, r: Ray, tMin: real, tMax: real, best: Option<HitRecord>, closest: real)
    requires Sound(o)
    requires closest == (if best.Some? then best.value.t else tMax)
    requires best.Some? ==> best.value.t <= tMax
    ensures var h := PrimHit(o, p, r, tMin, closest);
      Pick(best, PrimHit(o, p, r, tMin, tMax)) == (if h.Some? then h else best)
  {
    PrimClip(o, p, r, tMin, tMax, closest);
    if PrimHit(o, p, r, tMin, tMax).Some? {
      PrimReport(o, p, r, tMin, tMax);
    }
  }

  /** Extending the prefix of reports by one is one Pick. */
  lemma NearestSnoc(rs: seq<Option<HitRecord>>, k: nat)
    requires k < |rs|
    ensures Nearest(rs[..k + 1]) == Pick(Nearest(rs[..k]), rs[k])
  {
    assert rs[..k + 1][..k] == rs[..k];
  }

  /** The scan's state after the first k primitives: the nearest report among them and its bound. */
  ghost predicate Scanned(rs: seq<Option<HitRecord>>, k: nat, tMax: real, hit: bool, rec: HitRecord, closest: real)
    requires k <= |rs|
  {
    Nearest(rs[..k]) == (if hit then Some(rec) else None) &&
    closest == (if hit then rec.t else tMax) &&
    (hit ==> rec.t <= tMax)
  }

  /** Advances Scanned by one primitive, whose test against `closest` returned `h`. */
  lemma Advance(o: Oracles, prims: seq<Prim>, r: Ray, tMin: real, tMax: real, k: nat,
                hit: bool, rec: HitRecord, closest: real, h: Option<HitRecord>)
    requires Sound(o)
    requires k < |prims|
    requires Scanned(Reports(o, prims, r, tMin, tMax), k, tMax, hit, rec, closest)
    requires h == PrimHit(o, prims[k], r, tMin, closest)
    ensures h.Some? ==> Scanned(Reports(o, prims, r, tMin, tMax), k + 1, tMax, true, h.value, h.value.t)
    ensures h.None? ==> Scanned(Reports(o, prims, r, tMin, tMax), k + 1, tMax, hit, rec, closest)
  {
    var rs := Reports(o, prims, r, tMin, tMax);
    NearestSnoc(rs, k);
    ReportsAt(o, prims, r, tMin, tMax, k);
    ScanStep(o, prims[k], r, tMin, tMax, if hit then Some(rec) else None, closest);
    if h.Some? {
      PrimReport(o, prims[k], r, tMin, closest);
    }
  }

  /** Advance for the ground sphere, the i-th sphere, the i-th box and the i-th mesh triangle. */
  lemma AdvanceGround(o: Oracles, scene: Scene, r: Ray, tMin: real, tMax: real,
                      hit: bool, rec: HitRecord, closest: real, h: Option<HitRecord>)
    requires Sound(o)
    requires Scanned(Reports(o, ScanOrder(scene), r, tMin, tMax), 0, tMax, hit, rec, closest)
    requires h == Spheres.Hit(o.sqrt, scene.ground, r, tMin, closest)
    ensures h.Some? ==> Scanned(Reports(o, ScanOrder(scene), r, tMin, tMax), 1, tMax, true, h.value, h.value.t)
    ensures h.None? ==> Scanned(Reports(o, ScanOrder(scene), r, tMin, tMax), 1, tMax, hit, rec, closest)
  {
    Advance(o, ScanOrder(scene), r, tMin, tMax, 0, hit, rec, closest, h);
  }

  lemma AdvanceSphere(o: Oracles, scene: Scene, r: Ray, tMin: real, tMax: real, i: nat,
                      hit: bool, rec: HitRecord, closest: real, h: Option<HitRecord>)
    requires Sound(o)
    requires i < |scene.spheres|
    requires Scanned(Reports(o, ScanOrder(scene), r, tMin, tMax), 1 + i, tMax, hit, rec, closest)
    requires h == Spheres.Hit(o.sqrt, scene.spheres[i], r, tMin, closest)
    ensures h.Some? ==> Scanned(Reports(o, ScanOrder(scene), r, tMin, tMax), 1 + i + 1, tMax, true, h.value, h.value.t)
    ensures h.None? ==> Scanned(Reports(o, ScanOrder(scene), r, tMin, tMax), 1 + i + 1, tMax, hit, rec, closest)
  {
    ScanOrderAt(scene, i);
    Advance(o, ScanOrder(scene), r, tMin, tMax, 1 + i, hit, rec, closest, h);
  }

  lemma AdvanceBox(o: Oracles, scene: Scene, r: Ray, tMin: real, tMax: real, i: nat,
                   hit: bool, rec: HitRecord, closest: real, h: Option<HitRecord>)
    requires Sound(o)
    requires i < |scene.boxes|
    requires Scanned(Reports(o, ScanOrder(scene), r, tMin, tMax), 1 + |scene.spheres| + i, tMax, hit, rec, closest)
    requires h == o.boxHit(scene.boxes[i], r, tMin, closest)
    ensures h.Some? ==>
      Scanned(Reports(o, ScanOrder(scene), r, tMin, tMax), 1 + |scene.spheres| + i + 1, tMax, true, h.value, h.value.t)
    ensures h.None? ==>
      Scanned(Reports(o, ScanOrder(scene), r, tMin, tMax), 1 + |scene.spheres| + i + 1, tMax, hit, rec, closest)
  {
    ScanOrderAt(scene, i);
    Advance(o, ScanOrder(scene), r, tMin, tMax, 1 + |scene.spheres| + i, hit, rec, closest, h);
  }

  lemma AdvanceTriangle(o: Oracles, scene: Scene, r: Ray, tMin: real, tMax: real, i: nat,
                        hit: bool, rec: HitRecord, closest: real, h: Option<HitRecord>)
    requires Sound(o)
    requires i < |scene.mesh|
    requires Scanned(Reports(o, ScanOrder(scene), r, tMin, tMax), 1 + |scene.spheres| + |scene.boxes| + i,
                     tMax, hit, rec, closest)
    requires h == Triangles.Hit(o.sqrt, scene.mesh[i], r, tMin, closest)
    ensures h.Some? ==>
      Scanned(Reports(o, ScanOrder(scene), r, tMin, tMax), 1 + |scene.spheres| + |scene.boxes| + i + 1,
              tMax, true, h.value, h.value.t)
    ensures h.None? ==>
      Scanned(Reports(o, ScanOrder(scene), r, tMin, tMax), 1 + |scene.spheres| + |scene.boxes| + i + 1,
              tMax, hit, rec, closest)
  {
    ScanOrderAt(scene, i);
    Advance(o, ScanOrder(scene), r, tMin, tMax, 1 + |scene.spheres| + |scene.boxes| + i, hit, rec, closest, h);
  }

  /** The loop over the spheres in hit_world, continuing the scan after the ground. */
  method ScanSpheres(o: Oracles, scene: Scene, r: Ray, tMin: real, tMax: real,
                     hit0: bool, rec0: HitRecord, closest0: real)
    returns (hit: bool, rec: HitRecord, closest: real)
    requires Sound(o)
    requires Scanned(Reports(o, ScanOrder(scene), r, tMin, tMax), 1, tMax, hit0, rec0, closest0)
    ensures Scanned(Reports(o, ScanOrder(scene), r, tMin, tMax), 1 + |scene.spheres|, tMax, hit, rec, closest)
    ensures !hit ==> !hit0 && rec == rec0
  {
    hit, rec, closest := hit0, rec0, closest0;
    for i := 0 to |scene.spheres|
      invariant Scanned(Reports(o, ScanOrder(scene), r, tMin, tMax), 1 + i, tMax, hit, rec, closest)
      invariant !hit ==> !hit0 && rec == rec0
    {
      var h := Spheres.Hit(o.sqrt, scene.spheres[i], r, tMin, closest);
      AdvanceSphere(o, scene, r, tMin, tMax, i, hit, rec, closest, h);
      if h.Some? {
        hit := true;
        closest := h.value.t;
        rec := h.value;
      }
    }
  }

  /** The loop over the boxes in hit_world, continuing the scan after the spheres. */
  method ScanBoxes(o: Oracles, scene: Scene, r: Ray, tMin: real, tMax: real,
                   hit0: bool, rec0: HitRecord, closest0: real)
    returns (hit: bool, rec: HitRecord, closest: real)
    requires Sound(o)
    requires Scanned(Reports(o, ScanOrder(scene), r, tMin, tMax), 1 + |scene.spheres|, tMax, hit0, rec0, closest0)
    ensures Scanned(Reports(o, ScanOrder(scene), r, tMin, tMax), 1 + |scene.spheres| + |scene.boxes|,
                    tMax, hit, rec, closest)
    ensures !hit ==> !hit0 && rec == rec0
  {
    hit, rec, closest := hit0, rec0, closest0;
    for i := 0 to |scene.boxes|
      invariant Scanned(Reports(o, ScanOrder(scene), r, tMin, tMax), 1 + |scene.spheres| + i, tMax, hit, rec, closest)
      invariant !hit ==> !hit0 && rec == rec0
    {
      var h := o.boxHit(scene.boxes[i], r, tMin, closest);
      AdvanceBox(o, scene, r, tMin, tMax, i, hit, rec, closest, h);
      if h.Some? {
        hit := true;
        closest := h.value.t;
        rec := h.value;
      }
    }
  }

  /** The loop over the mesh triangles in hit_world, the last part of the scan. */
  method ScanMesh(o: Oracles, scene: Scene, r: Ray, tMin: real, tMax: real,
                  hit0: bool, rec0: HitRecord, closest0: real)
    returns (hit: bool, rec: HitRecord, closest: real)
    requires Sound(o)
    requires Scanned(Reports(o, ScanOrder(scene), r, tMin, tMax), 1 + |scene.spheres| + |scene.boxes|,
                     tMax, hit0, rec0, closest0)
    ensures Scanned(Reports(o, ScanOrder(scene), r, tMin, tMax), |ScanOrder(scene)|, tMax, hit, rec, closest)
    ensures !hit ==> !hit0 && rec == rec0
  {
    hit, rec, closest := hit0, rec0, closest0;
    for i := 0 to |scene.mesh|
      invariant Scanned(Reports(o, ScanOrder(scene), r, tMin, tMax), 1 + |scene.spheres| + |scene.boxes| + i,
                        tMax, hit, rec, closest)
      invariant !hit ==> !hit0 && rec == rec0
    {
      var h := Triangles.Hit(o.sqrt, scene.mesh[i], r, tMin, closest);
      AdvanceTriangle(o, scene, r, tMin, tMax, i, hit, rec, closest, h);
      if h.Some? {
        hit := true;
        closest := h.value.t;
        rec := h.value;
      }
    }
  }

  /**
   * hit_world: tests the ground, then scans the spheres, the boxes and the mesh,
   * each test bounded above by the nearest hit so far. `rec0` is the caller's
   * record, which a miss leaves untouched.
   */
  method HitWorld(o: Oracles, scene: Scene, r: Ray, tMin: real, tMax: real, rec0: HitRecord)
    returns (hit: bool, rec: HitRecord)
    requires Sound(o)
    ensures hit == WorldHit(o, scene, r, tMin, tMax).Some?
    ensures hit ==> rec == WorldHit(o, scene, r, tMin, tMax).value
    ensures !hit ==> rec == rec0
  {
    hit := false;
    rec := rec0;
    var closest := tMax;
    var h := Spheres.Hit(o.sqrt, scene.ground, r, tMin, closest);
    AdvanceGround(o, scene, r, tMin, tMax, hit, rec, closest, h);
    if h.Some? {
      hit := true;
      closest := h.value.t;
      rec := h.value;
    }
    hit, rec, closest := ScanSpheres(o, scene, r, tMin, tMax, hit, rec, closest);
    hit, rec, closest := ScanBoxes(o, scene, r, tMin, tMax, hit, rec, closest);
    hit, rec, closest := ScanMesh(o, scene, r, tMin, tMax, hit, rec, closest);
    ghost var rs := Reports(o, ScanOrder(scene), r, tMin, tMax);
    assert rs[..|rs|] == rs;
  }

  /** What hit_world computes: the first-found nearest report of the scan. */
  function WorldHit(o: Oracles, scene: Scene, r: Ray, tMin: real, tMax: real): Option<HitRecord>
  {
    Nearest(Reports(o, ScanOrder(scene), r, tMin, tMax))
  }

  /**
   * hit_world succeeds exactly when some primitive reports a hit on the open
   * interval; the result then lies in the interval, is no farther than any
   * primitive's report, and is the report of a primitive all of whose predecessors
   * in the scan report strictly farther hits or none (ties go to the earliest).
   */
  lemma WorldHitIsNearest(o: Oracles, scene: Scene, r: Ray, tMin: real, tMax: real)
    requires Sound(o)
    ensures var ps := ScanOrder(scene);
      WorldHit(o, scene, r, tMin, tMax).Some? <==>
        exists i :: 0 <= i < |ps| && PrimHit(o, ps[i], r, tMin, tMax).Some?
    ensures var ps := ScanOrder(scene); var w := WorldHit(o, scene, r, tMin, tMax);
      w.Some? ==> (
        InRange(w.value.t, tMin, tMax) &&
        forall i :: 0 <= i < |ps| && PrimHit(o, ps[i], r, tMin, tMax).Some? ==>
          w.value.t <= PrimHit(o, ps[i], r, tMin, tMax).value.t)
    ensures var ps := ScanOrder(scene); var w := WorldHit(o, scene, r, tMin, tMax);
      w.Some? ==>
        exists k :: (
          0 <= k < |ps| && PrimHit(o, ps[k], r, tMin, tMax) == w &&
          w.value.material == MaterialOf(ps[k]) &&
          forall j :: 0 <= j < k && PrimHit(o, ps[j], r, tMin, tMax).Some? ==>
            PrimHit(o, ps[j], r, tMin, tMax).value.t > w.value.t)
  {
    var ps := ScanOrder(scene);
    var rs := Reports(o, ps, r, tMin, tMax);
    forall i | 0 <= i < |ps|
      ensures rs[i] == PrimHit(o, ps[i], r, tMin, tMax)
    {
      ReportsAt(o, ps, r, tMin, tMax, i);
    }
    NearestIsFirstMinimum(rs);
    var w := WorldHit(o, scene, r, tMin, tMax);
    if w.Some? {
      var k :| 0 <= k < |rs| && rs[k] == w &&
        (forall j :: 0 <= j < k && rs[j].Some? ==> rs[j].value.t > w.value.t);
      PrimReport(o, ps[k], r, tMin, tMax);
    }
  }

  /** The RTContext settings that color reads. */
  datatype Settings = Settings(epsilon: real, showNormals: bool, groundColor: Vec3, skyColor: Vec3)

  /** The far end of every camera ray's interval. */
  const FarPlane: real := 9999.0

  /** The debug colour of a unit normal, n * 0.5 + 0.5. */
  function NormalColor(n: Vec3): Vec3
  {
    Add(Scale(0.5, n), Splat(0.5))
  }

  /** The gradient weight 0.5 (y + 1) of a unit direction's y component. */
  function SkyWeight(y: real): real
  {
    0.5 * (y + 1.0)
  }

  /** (1 - t) ground + t sky */
  function Gradient(ground: Vec3, sky: Vec3, t: real): Vec3
  {
    Add(Scale(1.0 - t, ground), Scale(t, sky))
  }

  /**
   * color: black once the bounce budget is spent; on a hit, the normal colour in
   * debug mode, else the attenuated colour of the scattered ray with one bounce
   * less, or black when there is no material or the material absorbs; on a miss,
   * the sky gradient. `sample` gives the random_in_unit_sphere value of the scatter
   * made with each remaining budget.
   */
  function Color(o: Oracles, cfg: Settings, scene: Scene, r: Ray, maxBounces: int, sample: int -> Vec3): Vec3
    decreases if maxBounces < 0 then 0 else maxBounces + 1
  {
    if maxBounces < 0 then Zero3
    else
      match WorldHit(o, scene, r, cfg.epsilon, FarPlane)
      case Some(h) =>
        var rec := h.(normal := Normalize(o.sqrt, h.normal));
        if cfg.showNormals then NormalColor(rec.normal)
        else if rec.material.Some? then
          var s := Scatter(o.sqrt, o.dielectric, rec.material.value, r, rec, sample(maxBounces));
          if s.accepted then Mul(s.attenuation, Color(o, cfg, scene, s.ray, maxBounces - 1, sample)) else Zero3
        else Zero3
      case None =>
        Gradient(cfg.groundColor, cfg.skyColor, SkyWeight(Normalize(o.sqrt, r.direction).y))
  }

  lemma ColorOutOfBudget(o: Oracles, cfg: Settings, scene: Scene, r: Ray, maxBounces: int, sample: int -> Vec3)
    requires maxBounces < 0
    ensures Color(o, cfg, scene, r, maxBounces, sample) == Zero3
  {
  }

  /**
   * In debug mode a hit yields the normalized normal mapped into [0, 1]^3, and the
   * result does not depend on the random samples.
   */
  lemma ColorShowNormals(o: Oracles, cfg: Settings, scene: Scene, r: Ray, maxBounces: int,
                         sample: int -> Vec3, sample2: int -> Vec3)
    requires IsSqrt(o.sqrt)
    requires maxBounces >= 0 && cfg.showNormals
    requires WorldHit(o, scene, r, cfg.epsilon, FarPlane).Some?
    ensures var n := Normalize(o.sqrt, WorldHit(o, scene, r, cfg.epsilon, FarPlane).value.normal);
      Color(o, cfg, scene, r, maxBounces, sample) == NormalColor(n)
    ensures Within(Color(o, cfg, scene, r, maxBounces, sample), 0.0, 1.0)
    ensures Color(o, cfg, scene, r, maxBounces, sample2) == Color(o, cfg, scene, r, maxBounces, sample)
  {
    var n := Normalize(o.sqrt, WorldHit(o, scene, r, cfg.epsilon, FarPlane).value.normal);
    NormalizeBounded(o.sqrt, WorldHit(o, scene, r, cfg.epsilon, FarPlane).value.normal);
  }

  /** On a hit outside debug mode, no material or an absorbing scatter gives black. */
  lemma ColorAbsorbed(o: Oracles, cfg: Settings, scene: Scene, r: Ray, maxBounces: int, sample: int -> Vec3)
    requires maxBounces >= 0 && !cfg.showNormals
    requires WorldHit(o, scene, r, cfg.epsilon, FarPlane).Some?
    requires var h := WorldHit(o, scene, r, cfg.epsilon, FarPlane).value;
      var rec := h.(normal := Normalize(o.sqrt, h.normal));
      rec.material.None? || !Scatter(o.sqrt, o.dielectric, rec.material.value, r, rec, sample(maxBounces)).accepted
    ensures Color(o, cfg, scene, r, maxBounces, sample) == Zero3
  {
  }

  /** An accepted scatter multiplies its attenuation into the colour of the scattered ray, one bounce fewer. */
  lemma ColorBounce(o: Oracles, cfg: Settings, scene: Scene, r: Ray, maxBounces: int, sample: int -> Vec3)
    requires maxBounces >= 0 && !cfg.showNormals
    requires WorldHit(o, scene, r, cfg.epsilon, FarPlane).Some?
    requires WorldHit(o, scene, r, cfg.epsilon, FarPlane).value.material.Some?
    ensures var h := WorldHit(o, scene, r, cfg.epsilon, FarPlane).value;
      var rec := h.(normal := Normalize(o.sqrt, h.normal));
      var s := Scatter(o.sqrt, o.dielectric, rec.material.value, r, rec, sample(maxBounces));
      s.accepted ==>
        Color(o, cfg, scene, r, maxBounces, sample) == Mul(s.attenuation, Color(o, cfg, scene, s.ray, maxBounces - 1, sample))
  {
  }

  /**
   * On a miss the result is the sky gradient with a weight in [0, 1], whatever the
   * random samples.
   */
  lemma ColorMiss(o: Oracles, cfg: Settings, scene: Scene, r: Ray, maxBounces: int, sample: int -> Vec3, sample2: int -> Vec3)
    requires IsSqrt(o.sqrt)
    requires maxBounces >= 0
    requires WorldHit(o, scene, r, cfg.epsilon, FarPlane).None?
    ensures var t := SkyWeight(Normalize(o.sqrt, r.direction).y);
      0.0 <= t <= 1.0 && Color(o, cfg, scene, r, maxBounces, sample) == Gradient(cfg.groundColor, cfg.skyColor, t)
    ensures Color(o, cfg, scene, r, maxBounces, sample2) == Color(o, cfg, scene, r, maxBounces, sample)
  {
    NormalizeBounded(o.sqrt, r.direction);
  }

  /** The gradient weight of y in [-1, 1] is in [0, 1]; straight down gives the ground colour, straight up the sky colour. */
  lemma SkyGradient(ground: Vec3, sky: Vec3, y: real)
    requires -1.0 <= y <= 1.0
    ensures 0.0 <= SkyWeight(y) <= 1.0
    ensures y == -1.0 ==> Gradient(ground, sky, SkyWeight(y)) == ground
    ensures y == 1.0 ==> Gradient(ground, sky, SkyWeight(y)) == sky
  {
  }

  /** Albedos within [0, 1]; a dielectric is constrained by its oracle instead. */
  predicate MaterialBounded(m: Option<Material>)
  {
    match m
    case None => true
    case Some(Lambertian(albedo)) => Within(albedo, 0.0, 1.0)
    case Some(Metal(albedo, _)) => Within(albedo, 0.0, 1.0)
    case Some(Dielectric(_)) => true
  }

  predicate PaletteBounded(scene: Scene)
  {
    MaterialBounded(scene.ground.material) &&
    (forall i :: 0 <= i < |scene.spheres| ==> MaterialBounded(scene.spheres[i].material)) &&
    (forall i :: 0 <= i < |scene.boxes| ==> MaterialBounded(scene.boxes[i].material)) &&
    (forall i :: 0 <= i < |scene.mesh| ==> MaterialBounded(scene.mesh[i].material))
  }

  ghost predicate DielectricBounded(dielectric: (real, Ray, HitRecord) -> Scattered)
  {
    forall refIdx, r, rec :: Within(dielectric(refIdx, r, rec).attenuation, 0.0, 1.0)
  }

  lemma PaletteScan(scene: Scene, i: nat)
    requires PaletteBounded(scene)
    requires i < |ScanOrder(scene)|
    ensures MaterialBounded(MaterialOf(ScanOrder(scene)[i]))
  {
    var ns := |scene.spheres|;
    var nb := |scene.boxes|;
    if 0 < i <= ns {
      ScanOrderAt(scene, i - 1);
    } else if ns < i <= ns + nb {
      ScanOrderAt(scene, i - 1 - ns);
    } else if ns + nb < i {
      ScanOrderAt(scene, i - 1 - ns - nb);
    }
  }

  lemma ScatterBounded(o: Oracles, m: Material, r: Ray, rec: HitRecord, sample: Vec3)
    requires MaterialBounded(Some(m)) && DielectricBounded(o.dielectric)
    ensures Within(Scatter(o.sqrt, o.dielectric, m, r, rec, sample).attenuation, 0.0, 1.0)
  {
  }

  /** Component-wise products and convex combinations of colours in [0, 1] stay in [0, 1]. */
  lemma MulBounded(u: Vec3, v: Vec3)
    requires Within(u, 0.0, 1.0) && Within(v, 0.0, 1.0)
    ensures Within(Mul(u, v), 0.0, 1.0)
  {
    ProductAtMost(u.x, v.x);
    ProductAtMost(u.y, v.y);
    ProductAtMost(u.z, v.z);
  }

  lemma GradientBounded(ground: Vec3, sky: Vec3, t: real)
    requires Within(ground, 0.0, 1.0) && Within(sky, 0.0, 1.0) && 0.0 <= t <= 1.0
    ensures Within(Gradient(ground, sky, t), 0.0, 1.0)
  {
    var g := Gradient(ground, sky, t);
    assert g.x == Product(ground.x, 1.0 - t) + Product(sky.x, t);
    assert g.y == Product(ground.y, 1.0 - t) + Product(sky.y, t);
    assert g.z == Product(ground.z, 1.0 - t) + Product(sky.z, t);
    ProductAtMost(ground.x, 1.0 - t);
    ProductAtMost(ground.y, 1.0 - t);
    ProductAtMost(ground.z, 1.0 - t);
    ProductAtMost(sky.x, t);
    ProductAtMost(sky.y, t);
    ProductAtMost(sky.z, t);
  }

  /**
   * With albedos, the dielectric's attenuation and the two background colours in
   * [0, 1], every colour color returns is in [0, 1]: bounces only lose energy.
   */
  lemma {:induction false} ColorBounded(o: Oracles, cfg: Settings, scene: Scene, r: Ray, maxBounces: int, sample: int -> Vec3)
    requires Sound(o)
    requires PaletteBounded(scene) && DielectricBounded(o.dielectric)
    requires Within(cfg.groundColor, 0.0, 1.0) && Within(cfg.skyColor, 0.0, 1.0)
    ensures Within(Color(o, cfg, scene, r, maxBounces, sample), 0.0, 1.0)
    decreases if maxBounces < 0 then 0 else maxBounces + 1
  {
    if maxBounces >= 0 {
      var w := WorldHit(o, scene, r, cfg.epsilon, FarPlane);
      if w.Some? {
        if cfg.showNormals {
          ColorShowNormals(o, cfg, scene, r, maxBounces, sample, sample);
        } else if w.value.material.Some? {
          WorldHitIsNearest(o, scene, r, cfg.epsilon, FarPlane);
          var ps := ScanOrder(scene);
          var k :| 0 <= k < |ps| && w.value.material == MaterialOf(ps[k]);
          PaletteScan(scene, k);
          var rec := w.value.(normal := Normalize(o.sqrt, w.value.normal));
          var s := Scatter(o.sqrt, o.dielectric, rec.material.value, r, rec, sample(maxBounces));
          ScatterBounded(o, rec.material.value, r, rec, sample(maxBounces));
          if s.accepted {
            ColorBounded(o, cfg, scene, s.ray, maxBounces - 1, sample);
            MulBounded(s.attenuation, Color(o, cfg, scene, s.ray, maxBounces - 1, sample));
          }
        }
      } else {
        ColorMiss(o, cfg, scene, r, maxBounces, sample, sample);
        GradientBounded(cfg.groundColor, cfg.skyColor, SkyWeight(Normalize(o.sqrt, r.direction).y));
      }
    }
  }
}
