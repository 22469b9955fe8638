/**
 * rt_raytracing.h and the accumulation half of rt_raytracing.cpp: the render
 * context, which renders one scanline per tick into a buffer of (rgb sum, weight)
 * entries, advances the frame and line counters, and can be reset.
 */
module Accumulation {
  import opened Vectors
  import opened Hitable
  import opened RayTracing

  /** The context fields that a tick reads but never writes. */
  datatype Config = Config(
    width: int, height: int, maxFrames: int, maxBounces: int,
    epsilon: real, groundColor: Vec3, skyColor: Vec3, showNormals: bool)

  function SettingsOf(cfg: Config): Settings
  {
    Settings(cfg.epsilon, cfg.showNormals, cfg.groundColor, cfg.skyColor)
  }

  // ---------------------------------------------------------------------------
  // Buffer entries

  /** glm::max(1.0f, w) */
  function AtLeastOne(w: real): (m: real)
    ensures m >= 1.0 && (m == w || m == 1.0)
  {
    if w < 1.0 then 1.0 else w
  }

  /** clamp(old / max(1, old.a), 0, 1): the first-frame blend applied to an old entry. */
  function Renormalized(p: Vec4): Vec4
  {
    Clamp4(Div4(p, AtLeastOne(p.w)), 0.0, 1.0)
  }

  /** The entry after one sample of colour c: `+= vec4(c, 1)`, renormalized first when asked. */
  function Entry(p: Vec4, renorm: bool, c: Vec3): Vec4
  {
    Add4(if renorm then Renormalized(p) else p, Extend(c, 1.0))
  }

  lemma ClampRange(x: real, lo: real, hi: real)
    requires lo <= hi
    ensures lo <= Clamp(x, lo, hi) <= hi
    ensures lo <= x <= hi ==> Clamp(x, lo, hi) == x
  {
  }

  /** Renormalizing leaves every component, the weight included, in [0, 1]. */
  lemma RenormalizedRange(p: Vec4)
    ensures var q := Renormalized(p);
      0.0 <= q.x <= 1.0 && 0.0 <= q.y <= 1.0 && 0.0 <= q.z <= 1.0 && 0.0 <= q.w <= 1.0
  {
    var d := Div4(p, AtLeastOne(p.w));
    ClampRange(d.x, 0.0, 1.0);
    ClampRange(d.y, 0.0, 1.0);
    ClampRange(d.z, 0.0, 1.0);
    ClampRange(d.w, 0.0, 1.0);
  }

  /**
   * An entry holding at least one sample keeps its average colour, clamped, with
   * weight exactly one; an entry of weight in [0, 1] keeps its weight.
   */
  lemma RenormalizedWeight(p: Vec4)
    ensures p.w >= 1.0 ==> Renormalized(p) == Clamp4(Vec4(p.x / p.w, p.y / p.w, p.z / p.w, 1.0), 0.0, 1.0)
    ensures p.w >= 1.0 ==> Renormalized(p).w == 1.0
    ensures 0.0 <= p.w <= 1.0 ==> Renormalized(p).w == p.w
  {
    if p.w >= 1.0 {
      assert p.w / p.w == 1.0;
    }
  }

  /** A second renormalization changes nothing, so repeated first-frame passes agree. */
  lemma RenormalizedIdempotent(p: Vec4)
    ensures Renormalized(Renormalized(p)) == Renormalized(p)
  {
    var q := Renormalized(p);
    RenormalizedRange(p);
    assert AtLeastOne(q.w) == 1.0;
    assert Div4(q, 1.0) == q;
    ClampRange(q.x, 0.0, 1.0);
    ClampRange(q.y, 0.0, 1.0);
    ClampRange(q.z, 0.0, 1.0);
    ClampRange(q.w, 0.0, 1.0);
  }

  /** Every sample adds its colour to the sum and one to the weight. */
  lemma EntryAddsSample(p: Vec4, renorm: bool, c: Vec3)
    ensures var base := if renorm then Renormalized(p) else p;
      var e := Entry(p, renorm, c);
      e.w == base.w + 1.0 && e.x == base.x + c.x && e.y == base.y + c.y && e.z == base.z + c.z
    ensures renorm ==> 1.0 <= Entry(p, renorm, c).w <= 2.0
    ensures renorm && p.w >= 1.0 ==> Entry(p, renorm, c).w == 2.0
    ensures !renorm ==> Entry(p, renorm, c).w == p.w + 1.0
  {
    RenormalizedRange(p);
    RenormalizedWeight(p);
  }

  // ---------------------------------------------------------------------------
  // Camera rays and pixel colours

  /**
   * The primary ray through the centre of pixel (x, y) in view space: origin 0,
   * direction lower_left_corner + u horizontal + v vertical.
   */
  function CameraRay(width: int, height: int, x: int, y: int): Ray
    requires width > 0 && height > 0
  {
    var aspect := (width as real) / (height as real);
    var u := (x as real + 0.5) / (width as real);
    var v := (y as real + 0.5) / (height as real);
    var lowerLeft := Vec3(-1.0 * aspect, -1.0, -1.0);
    var horizontal := Vec3(2.0 * aspect, 0.0, 0.0);
    var vertical := Vec3(0.0, 2.0, 0.0);
    Ray(Zero3, Add(Add(lowerLeft, Scale(u, horizontal)), Scale(v, vertical)))
  }

  /** x is in [-aspect, aspect] mapped from u in (0, 1) */
  lemma ViewportSpan(aspect: real, u: real)
    requires aspect > 0.0 && 0.0 < u < 1.0
    ensures -aspect < -1.0 * aspect + u * (2.0 * aspect) < aspect
  {
    ProductPos(u, aspect);
    ProductPos(1.0 - u, aspect);
    assert -1.0 * aspect + u * (2.0 * aspect) == aspect - 2.0 * Product(1.0 - u, aspect);
    assert -1.0 * aspect + u * (2.0 * aspect) == 2.0 * Product(u, aspect) - aspect;
  }

  /** A pixel-centre ray starts at the eye and crosses the plane z = -1 strictly inside the viewport. */
  lemma CameraRayInViewport(width: int, height: int, x: int, y: int)
    requires width > 0 && height > 0
    requires 0 <= x < width && 0 <= y < height
    ensures var r := CameraRay(width, height, x, y);
      var aspect := (width as real) / (height as real);
      r.origin == Zero3 && r.direction.z == -1.0 &&
      -aspect < r.direction.x < aspect && -1.0 < r.direction.y < 1.0
  {
    var aspect := (width as real) / (height as real);
    var u := (x as real + 0.5) / (width as real);
    var v := (y as real + 0.5) / (height as real);
    assert 0.0 < u < 1.0;
    assert 0.0 < v < 1.0;
    ViewportSpan(aspect, u);
    ViewportSpan(1.0, v);
  }

  /**
   * The view-to-world transform: `world(Extend(p, 1))` is a point, `world(Extend(d, 0))`
   * a direction, as multiplication by inverse(view) does.
   */
  function ToWorld(world: Vec4 -> Vec4, r: Ray): Ray
  {
    var a := world(Extend(r.origin, 1.0));
    var b := world(Extend(r.direction, 0.0));
    Ray(Vec3(a.x, a.y, a.z), Vec3(b.x, b.y, b.z))
  }

  /** The colour updateLine computes for pixel x of row y; `sample(x, b)` is that pixel's draw for bounce budget b. */
  function PixelColor(o: Oracles, cfg: Config, scene: Scene, world: Vec4 -> Vec4,
                      sample: (int, int) -> Vec3, x: int, y: int): Vec3
    requires 0 <= x < cfg.width && 0 <= y < cfg.height
  {
    Color(o, SettingsOf(cfg), scene, ToWorld(world, CameraRay(cfg.width, cfg.height, x, y)),
          cfg.maxBounces, b => sample(x, b))
  }

  function LineColors(o: Oracles, cfg: Config, scene: Scene, world: Vec4 -> Vec4,
                      sample: (int, int) -> Vec3, y: int): (cs: seq<Vec3>)
    requires cfg.width >= 0 && 0 <= y < cfg.height
    ensures |cs| == cfg.width
  {
    seq(cfg.width, x requires 0 <= x < cfg.width => PixelColor(o, cfg, scene, world, sample, x, y))
  }

  // ---------------------------------------------------------------------------
  // Buffer updates

  /** Row y of a width-wide row-major buffer holds indices y * width .. y * width + width - 1, all inside. */
  lemma RowInBounds(width: int, height: int, y: int, x: int)
    requires width >= 0 && 0 <= y < height && 0 <= x < width
    ensures 0 <= y * width + x < width * height
    ensures y * width + width <= width * height
  {
    assert (y + 1) * width <= height * width by {
      assert height * width - (y + 1) * width == (height - y - 1) * width;
    }
  }

  /** The whole of row y, and nothing before it, lies inside the buffer; a buffer of width * height is never negative in size. */
  lemma RowBounds(width: int, height: int, y: int)
    requires 0 <= y < height
    ensures width >= 0 ==> 0 <= y * width && y * width + width <= width * height
    ensures width >= 0 ==> width * height >= 0
  {
    if width > 0 {
      RowInBounds(width, height, y, 0);
    } else if width == 0 {
      assert y * width == 0 && width * height == 0;
    }
  }

  predicate InRow(k: int, width: int, y: int)
  {
    y * width <= k < y * width + width
  }

  /** The buffer after the first x pixels of the row starting at index `row` have each gained one sample. */
  function Partial(img: seq<Vec4>, row: int, x: int, renorm: bool, colors: seq<Vec3>): (next: seq<Vec4>)
    requires 0 <= row && 0 <= x <= |colors| && row + x <= |img|
    ensures |next| == |img|
  {
    seq(|img|, k requires 0 <= k < |img| =>
      if row <= k < row + x then Entry(img[k], renorm, colors[k - row]) else img[k])
  }

  lemma PartialStep(img: seq<Vec4>, row: int, x: int, renorm: bool, colors: seq<Vec3>)
    requires 0 <= row && 0 <= x < |colors| && row + x < |img|
    ensures Partial(img, row, x, renorm, colors)[row + x] == img[row + x]
    ensures Partial(img, row, x + 1, renorm, colors) ==
      Partial(img, row, x, renorm, colors)[row + x := Entry(img[row + x], renorm, colors[x])]
  {
  }

  /** The buffer after updateLine(y): each entry of row y gains one sample, the rest is as it was. */
  function LineUpdated(img: seq<Vec4>, width: int, height: int, y: int, renorm: bool, colors: seq<Vec3>): (next: seq<Vec4>)
    requires |colors| == width && 0 <= y < height && |img| == width * height
    ensures |next| == |img|
  {
    RowBounds(width, height, y);
    Partial(img, y * width, width, renorm, colors)
  }

  /** updateLine(y) touches only the row's indices, and each of them gains exactly one sample of its pixel's colour. */
  lemma LineUpdatedEffect(img: seq<Vec4>, width: int, height: int, y: int, renorm: bool, colors: seq<Vec3>, k: int)
    requires |colors| == width && 0 <= y < height && |img| == width * height
    requires 0 <= k < |img|
    ensures !InRow(k, width, y) ==> LineUpdated(img, width, height, y, renorm, colors)[k] == img[k]
    ensures InRow(k, width, y) ==>
      LineUpdated(img, width, height, y, renorm, colors)[k].w == (if renorm then Renormalized(img[k]).w else img[k].w) + 1.0
    ensures InRow(k, width, y) && renorm ==> 1.0 <= LineUpdated(img, width, height, y, renorm, colors)[k].w <= 2.0
  {
    RowBounds(width, height, y);
    if InRow(k, width, y) {
      EntryAddsSample(img[k], renorm, colors[k - y * width]);
    }
  }

  /** std::vector::resize: truncate, or extend with zero entries. */
  function Resized(img: seq<Vec4>, n: nat): (next: seq<Vec4>)
    ensures |next| == n
    ensures forall k :: 0 <= k < n ==> next[k] == (if k < |img| then img[k] else Zero4)
  {
    if n <= |img| then img[..n] else img + seq(n - |img|, _ => Zero4)
  }

  // ---------------------------------------------------------------------------
  // Frame and line counters

  datatype Progress = Progress(frame: int, line: int)

  /** The counter step at the end of updateImage. */
  function NextCounters(p: Progress, maxFrames: int, height: int): Progress
    requires height > 0
  {
    if p.frame < maxFrames then
      var line := p.line + 1;
      if line >= height then Progress(p.frame + 1, line % height) else Progress(p.frame, line)
    else p
  }

  /**
   * Before convergence a tick advances the line, and on passing the last line wraps
   * to line 0 of the next frame; once converged a tick keeps the counters.
   */
  lemma NextCountersCases(p: Progress, maxFrames: int, height: int)
    requires height > 0 && 0 <= p.line < height
    ensures var q := NextCounters(p, maxFrames, height);
      0 <= q.line < height && p.frame <= q.frame <= p.frame + 1
    ensures p.frame < maxFrames && p.line + 1 < height ==>
      NextCounters(p, maxFrames, height) == Progress(p.frame, p.line + 1)
    ensures p.frame < maxFrames && p.line + 1 == height ==>
      NextCounters(p, maxFrames, height) == Progress(p.frame + 1, 0)
    ensures p.frame >= maxFrames ==> NextCounters(p, maxFrames, height) == p
  {
  }

  function Ticks(p: Progress, n: nat, maxFrames: int, height: int): Progress
    requires height > 0
    decreases n
  {
    if n == 0 then p else Ticks(NextCounters(p, maxFrames, height), n - 1, maxFrames, height)
  }

  /** From line l of an unconverged frame, height - l ticks finish the frame: one frame is one pass over all lines. */
  lemma {:induction false} FinishFrame(p: Progress, maxFrames: int, height: int)
    requires height > 0 && 0 <= p.line < height && p.frame < maxFrames
    ensures Ticks(p, height - p.line, maxFrames, height) == Progress(p.frame + 1, 0)
    decreases height - p.line
  {
    var q := NextCounters(p, maxFrames, height);
    if p.line + 1 < height {
      assert q == Progress(p.frame, p.line + 1);
      FinishFrame(q, maxFrames, height);
    } else {
      assert q == Progress(p.frame + 1, 0);
    }
  }

  /** Once converged, any number of ticks leaves the counters as they are. */
  lemma {:induction false} ConvergedStays(p: Progress, n: nat, maxFrames: int, height: int)
    requires height > 0 && p.frame >= maxFrames
    ensures Ticks(p, n, maxFrames, height) == p
  {
    if n > 0 {
      ConvergedStays(NextCounters(p, maxFrames, height), n - 1, maxFrames, height);
    }
  }

  // ---------------------------------------------------------------------------
  // The render context

  class RTContext {
    var width: int
    var height: int
    var image: array<Vec4>
    var freeze: bool
    var currentFrame: int
    var currentLine: int
    var maxFrames: int
    var maxBounces: int
    var epsilon: real
    var groundColor: Vec3
    var skyColor: Vec3
    var showNormals: bool

    function Configuration(): Config
      reads this
    {
      Config(width, height, maxFrames, maxBounces, epsilon, groundColor, skyColor, showNormals)
    }

    function Counters(): Progress
      reads this
    {
      Progress(currentFrame, currentLine)
    }

    /** The states updateImage keeps: positive height, a line inside the image, frames from the reset sentinel -1 up. */
    predicate Valid()
      reads this
    {
      width >= 0 && height > 0 && 0 <= currentLine < height && currentFrame >= -1
    }

    /** The defaults of the rt_raytracing.h initialisers, with an empty image. */
    constructor()
      ensures Configuration() == Config(500, 500, 1000, 3, 0.0002, Vec3(0.5, 0.5, 0.5), Vec3(0.1, 0.1, 0.3), true)
      ensures image.Length == 0 && !freeze && Counters() == Progress(0, 0)
      ensures Valid()
    {
      width := 500;
      height := 500;
      image := new Vec4[0];
      freeze := false;
      currentFrame := 0;
      currentLine := 0;
      maxFrames := 1000;
      maxBounces := 3;
      epsilon := 0.0002;
      groundColor := Vec3(0.5, 0.5, 0.5);
      skyColor := Vec3(0.1, 0.1, 0.3);
      showNormals := true;
    }

    /** updateLine(y): one sample for every pixel of row y, renormalizing first while currentFrame <= 0. */
    method UpdateLine(o: Oracles, scene: Scene, world: Vec4 -> Vec4, sample: (int, int) -> Vec3, y: int)
      requires width >= 0 && 0 <= y < height
      requires image.Length == width * height
      modifies image
      ensures image[..] == LineUpdated(old(image[..]), width, height, y, currentFrame <= 0,
                                       LineColors(o, Configuration(), scene, world, sample, y))
    {
      RowBounds(width, height, y);
      ghost var colors := LineColors(o, Configuration(), scene, world, sample, y);
      ghost var renorm := currentFrame <= 0;
      var row := y * width;
      for x := 0 to width
        invariant image[..] == Partial(old(image[..]), row, x, renorm, colors)
      {
        var k := row + x;
        PartialStep(old(image[..]), row, x, renorm, colors);
        ghost var before := image[..];
        if currentFrame <= 0 {
          image[k] := Renormalized(image[k]);
        }
        var c := PixelColor(o, Configuration(), scene, world, sample, x, y);
        assert c == colors[x];
        image[k] := Add4(image[k], Extend(c, 1.0));
        assert image[..] == before[k := Entry(old(image[k]), renorm, c)];
      }
    }

    /** image.resize(n), reusing the buffer when its length already fits. */
    method ResizeImage(n: nat)
      modifies this
      ensures image[..] == Resized(old(image[..]), n)
      ensures image == old(image) || fresh(image)
      ensures Configuration() == old(Configuration()) && Counters() == old(Counters()) && freeze == old(freeze)
    {
      if image.Length != n {
        var current := image[..];
        image := new Vec4[n](k requires 0 <= k < n => if k < |current| then current[k] else Zero4);
        assert image[..] == Resized(current, n);
      } else {
        assert image[..] == image[..][..n];
      }
    }

    /**
     * updateImage: nothing while frozen; otherwise size the buffer to width * height,
     * render line currentLine % height and step the counters.
     */
    method UpdateImage(o: Oracles, scene: Scene, world: Vec4 -> Vec4, sample: (int, int) -> Vec3)
      requires freeze || (width >= 0 && height > 0 && currentLine >= 0)
      modifies this, image
      ensures Configuration() == old(Configuration()) && freeze == old(freeze)
      ensures old(freeze) ==> image == old(image) && image[..] == old(image[..]) && Counters() == old(Counters())
      ensures !old(freeze) ==>
        image.Length == width * height &&
        image[..] == LineUpdated(Resized(old(image[..]), image.Length), width, height, old(currentLine) % height,
                                 old(currentFrame) <= 0, LineColors(o, Configuration(), scene, world, sample, old(currentLine) % height)) &&
        Counters() == NextCounters(old(Counters()), maxFrames, height)
      ensures old(Valid()) ==> Valid()
    {
      if freeze {
        return;
      }
      RowBounds(width, height, 0);
      ResizeImage(width * height);
      UpdateLine(o, scene, world, sample, currentLine % height);
      if currentFrame < maxFrames {
        currentLine := currentLine + 1;
        if currentLine >= height {
          currentFrame := currentFrame + 1;
          currentLine := currentLine % height;
        }
      }
    }

    /** resetImage: an all-zero buffer of width * height entries, both counters zero, unfrozen. */
    method ResetImage()
      requires width * height >= 0
      modifies this
      ensures image.Length == width * height && forall k :: 0 <= k < image.Length ==> image[k] == Zero4
      ensures fresh(image)
      ensures Counters() == Progress(0, 0) && !freeze
      ensures Configuration() == old(Configuration())
      ensures old(Valid()) ==> Valid()
    {
      image := new Vec4[width * height](_ => Zero4);
      currentFrame := 0;
      currentLine := 0;
      freeze := false;
    }

    /** resetAccumulation: the -1 sentinel, so the next pass renormalizes; nothing else changes. */
    method ResetAccumulation()
      modifies this
      ensures currentFrame == -1
      ensures image == old(image) && currentLine == old(currentLine) && freeze == old(freeze)
      ensures Configuration() == old(Configuration())
      ensures old(Valid()) ==> Valid()
    {
      currentFrame := -1;
    }
  }
}
