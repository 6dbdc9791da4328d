/** The per-star rules of the starfield animation: how a star is seeded from
    random samples, how one frame moves it (parallax, drift, flicker phase,
    wrap-around) and how its drawn opacity is clamped. All arithmetic is over
    `real`; the host's `Math.random()` and `Math.sin` enter as inputs. */
module StarRules {

  /** Number of stars the field is seeded with. */
  const MAX_STARS: nat := 250
  /** Random samples drawn per star: x, y, z, r, vx, vy, tw, t, in that order. */
  const DRAWS_PER_STAR: nat := 8
  /** Pi, as the decimal the host's `Math.PI` prints as. */
  const PI: real := 3.141592653589793
  /** Scale applied to the pointer's offset from the centre. */
  const PARALLAX_GAIN: real := 0.002
  /** Factor applied to the flicker rate each frame. */
  const PHASE_STEP: real := 0.05
  /** Distance beyond the surface edge at which a star wraps. */
  const WRAP_MARGIN: real := 10.0

  /** One star: position, depth, base radius, drift, flicker rate and flicker phase. */
  datatype Star = Star(x: real, y: real, z: real, r: real, vx: real, vy: real, tw: real, t: real)

  function Abs(a: real): real { if a < 0.0 then -a else a }

  /** A sample of the host's uniform random source. */
  predicate IsUnitSample(u: real) { 0.0 <= u < 1.0 }

  /** `rand(min, max)`: maps a unit sample into the range from `min` to `max`. */
  function Rand(min: real, max: real, u: real): (v: real)
    requires IsUnitSample(u)
    ensures min <= max ==> min <= v <= max
    ensures min < max ==> v < max
    ensures min == max ==> v == min
  {
    var span := max - min;
    ScaleBelow(u, span);
    u * span + min
  }

  /** A unit sample scales a non-negative span to a value below that span (or zero). */
  lemma ScaleBelow(u: real, d: real)
    requires IsUnitSample(u)
    ensures d >= 0.0 ==> 0.0 <= u * d <= d
    ensures d > 0.0 ==> u * d < d
  {
    if d >= 0.0 {
      ProductNonNegative(u, d);
      ProductNonNegative(1.0 - u, d);
      assert d - u * d == (1.0 - u) * d;
    }
    if d > 0.0 {
      ProductPositive(1.0 - u, d);
      assert d - u * d == (1.0 - u) * d;
    }
  }

  lemma ProductNonNegative(a: real, b: real)
    requires a >= 0.0 && b >= 0.0
    ensures a * b >= 0.0
  {
  }

  lemma ProductPositive(a: real, b: real)
    requires a > 0.0 && b > 0.0
    ensures a * b > 0.0
  {
  }

  /** The depth, radius, drift and flicker-rate ranges a star is seeded in;
      no frame ever changes these fields. */
  predicate AttributesInRange(s: Star)
  {
    && 0.2 <= s.z < 1.0
    && 0.3 <= s.r < 1.8
    && -0.05 <= s.vx < 0.05
    && -0.05 <= s.vy < 0.05
    && 0.2 <= s.tw < 1.0
  }

  /** A coordinate inside the surface, from `rand(0, size)`: below `size` unless the surface is empty. */
  predicate OnSurface(c: real, size: real)
  {
    0.0 <= c <= size && (size > 0.0 ==> c < size)
  }

  /** Everything that holds of a star straight after seeding. */
  predicate FreshlySeeded(s: Star, w: real, h: real)
  {
    && AttributesInRange(s)
    && OnSurface(s.x, w)
    && OnSurface(s.y, h)
    && 0.0 <= s.t < PI * 2.0
  }

  /** Both coordinates within the wrap margin around the surface. */
  predicate InWrapBounds(s: Star, w: real, h: real)
  {
    -WRAP_MARGIN <= s.x <= w + WRAP_MARGIN && -WRAP_MARGIN <= s.y <= h + WRAP_MARGIN
  }

  /** What every star of a live field satisfies between frames. */
  predicate StarInvariant(s: Star, w: real, h: real)
  {
    AttributesInRange(s) && InWrapBounds(s, w, h)
  }

  predicate AreUnitSamples(u: seq<real>)
  {
    forall k :: 0 <= k < |u| ==> IsUnitSample(u[k])
  }

  /** The record pushed by one iteration of the seeding loop, from its eight samples. */
  function SeedStar(w: real, h: real, u: seq<real>): (s: Star)
    requires |u| == DRAWS_PER_STAR && AreUnitSamples(u)
    ensures w >= 0.0 && h >= 0.0 ==> FreshlySeeded(s, w, h) && StarInvariant(s, w, h)
  {
    Star(Rand(0.0, w, u[0]), Rand(0.0, h, u[1]), Rand(0.2, 1.0, u[2]), Rand(0.3, 1.8, u[3]),
         Rand(-0.05, 0.05, u[4]), Rand(-0.05, 0.05, u[5]), Rand(0.2, 1.0, u[6]), Rand(0.0, PI * 2.0, u[7]))
  }

  /** The samples the `i`-th iteration of the seeding loop consumes. */
  function SampleBlock(samples: seq<real>, i: nat): (u: seq<real>)
    requires |samples| == DRAWS_PER_STAR * MAX_STARS && i < MAX_STARS
    ensures |u| == DRAWS_PER_STAR
    ensures AreUnitSamples(samples) ==> AreUnitSamples(u)
    ensures forall k :: 0 <= k < DRAWS_PER_STAR ==> u[k] == samples[DRAWS_PER_STAR * i + k]
  {
    samples[DRAWS_PER_STAR * i .. DRAWS_PER_STAR * i + DRAWS_PER_STAR]
  }

  /** Parallax offset on one axis: the pointer's offset from the centre of that
      axis, scaled by the gain and by the distance of the depth from 1. */
  function Parallax(pointer: real, size: real, z: real): (p: real)
    ensures pointer == size / 2.0 ==> p == 0.0
    ensures z == 1.0 ==> p == 0.0
    ensures pointer != size / 2.0 && z != 1.0 ==> p != 0.0
  {
    var sway := (pointer - size / 2.0) * PARALLAX_GAIN;
    ProductZero(sway, 1.0 - z);
    sway * (1.0 - z)
  }

  /** A product is zero exactly when one of its factors is. */
  lemma ProductZero(a: real, b: real)
    ensures a * b == 0.0 <==> a == 0.0 || b == 0.0
  {
    if a != 0.0 && b != 0.0 {
      ProductPositive(Abs(a), Abs(b));
      AbsOfProduct(a, b);
    }
  }

  lemma AbsOfProduct(a: real, b: real)
    ensures Abs(a * b) == Abs(a) * Abs(b)
  {
    if a < 0.0 && b < 0.0 {
      assert a * b == (-a) * (-b);
    } else if a < 0.0 {
      assert a * b == -((-a) * b);
    } else if b < 0.0 {
      assert a * b == -(a * (-b));
    }
  }

  /** For a fixed pointer the parallax magnitude never grows with depth up to 1,
      and strictly shrinks when the pointer is off centre. */
  lemma ParallaxShrinksWithDepth(pointer: real, size: real, z1: real, z2: real)
    requires z1 <= z2 <= 1.0
    ensures Abs(Parallax(pointer, size, z2)) <= Abs(Parallax(pointer, size, z1))
    ensures pointer != size / 2.0 && z1 < z2 ==>
              Abs(Parallax(pointer, size, z2)) < Abs(Parallax(pointer, size, z1))
  {
    var sway := (pointer - size / 2.0) * PARALLAX_GAIN;
    var a := Abs(sway);
    AbsOfProduct(sway, 1.0 - z1);
    AbsOfProduct(sway, 1.0 - z2);
    assert Parallax(pointer, size, z1) == sway * (1.0 - z1);
    assert Parallax(pointer, size, z2) == sway * (1.0 - z2);
    assert Abs(1.0 - z1) == 1.0 - z1 && Abs(1.0 - z2) == 1.0 - z2;
    assert a * (1.0 - z1) - a * (1.0 - z2) == a * (z2 - z1);
    ProductNonNegative(a, z2 - z1);
    if pointer != size / 2.0 && z1 < z2 {
      ProductPositive(a, z2 - z1);
    }
  }

  /** The two wrap tests of one axis, in source order: below the low margin
      jumps to the high margin, then above the high margin jumps to the low one. */
  function WrapCoord(c: real, size: real): (v: real)
    ensures size >= 0.0 ==> (c < -WRAP_MARGIN ==> v == size + WRAP_MARGIN)
    ensures size >= 0.0 ==> (c > size + WRAP_MARGIN ==> v == -WRAP_MARGIN)
    ensures -WRAP_MARGIN <= c <= size + WRAP_MARGIN ==> v == c
    ensures size >= 0.0 ==> -WRAP_MARGIN <= v <= size + WRAP_MARGIN
  {
    var low := if c < -WRAP_MARGIN then size + WRAP_MARGIN else c;
    if low > size + WRAP_MARGIN then -WRAP_MARGIN else low
  }

  /** One star's update in a frame, for surface size `w` by `h` and pointer `(mx, my)`. */
  function StepStar(s: Star, w: real, h: real, mx: real, my: real): (s': Star)
    ensures s'.z == s.z && s'.r == s.r && s'.vx == s.vx && s'.vy == s.vy && s'.tw == s.tw
    ensures s'.t == s.t + s.tw * PHASE_STEP
    ensures w >= 0.0 && h >= 0.0 ==> InWrapBounds(s', w, h)
    ensures AttributesInRange(s) ==> AttributesInRange(s')
  {
    var px := Parallax(mx, w, s.z);
    var py := Parallax(my, h, s.z);
    s.(x := WrapCoord(s.x + s.vx + px, w),
       y := WrapCoord(s.y + s.vy + py, h),
       t := s.t + s.tw * PHASE_STEP)
  }

  /** With the pointer at the centre there is no parallax: the star moves by its drift alone. */
  lemma CentredPointerMovesByDrift(s: Star, w: real, h: real)
    ensures StepStar(s, w, h, w / 2.0, h / 2.0).x == WrapCoord(s.x + s.vx, w)
    ensures StepStar(s, w, h, w / 2.0, h / 2.0).y == WrapCoord(s.y + s.vy, h)
  {
  }

  /** A frame keeps every star of a live field live. */
  lemma StepPreservesInvariant(s: Star, w: real, h: real, mx: real, my: real)
    requires w >= 0.0 && h >= 0.0
    ensures StarInvariant(s, w, h) ==> StarInvariant(StepStar(s, w, h, mx, my), w, h)
  {
  }

  /** A star after `n` frames against a fixed surface and pointer. */
  function StepTimes(s: Star, w: real, h: real, mx: real, my: real, n: nat): Star
  {
    if n == 0 then s else StepStar(StepTimes(s, w, h, mx, my, n - 1), w, h, mx, my)
  }

  /** Over any number of frames depth, radius, drift and flicker rate stay as
      seeded, the phase advances by the same amount every frame, and a live
      star stays live. */
  lemma {:induction false} FramesKeepAttributes(s: Star, w: real, h: real, mx: real, my: real, n: nat)
    requires w >= 0.0 && h >= 0.0
    ensures var e := StepTimes(s, w, h, mx, my, n);
      && e.z == s.z && e.r == s.r && e.vx == s.vx && e.vy == s.vy && e.tw == s.tw
      && e.t == s.t + (n as real) * (s.tw * PHASE_STEP)
      && (StarInvariant(s, w, h) ==> StarInvariant(e, w, h))
  {
    if n > 0 {
      FramesKeepAttributes(s, w, h, mx, my, n - 1);
      var p := StepTimes(s, w, h, mx, my, n - 1);
      var e := StepStar(p, w, h, mx, my);
      assert StepTimes(s, w, h, mx, my, n) == e;
      var c := s.tw * PHASE_STEP;
      var k := (n - 1) as real;
      assert p.tw == s.tw;
      assert e.t == p.t + c;
      assert k * c + c == (k + 1.0) * c;
      assert (n as real) == k + 1.0;
    }
  }

  /** The opacity a star is drawn with, from the sine `sn` of its phase:
      clamped between 0.1 and 1, and never clamped for a true sine value. */
  function Opacity(sn: real): (alpha: real)
    ensures 0.1 <= alpha <= 1.0
    ensures -1.0 <= sn <= 1.0 ==> alpha == 0.6 + sn * 0.4 && 0.2 <= alpha
  {
    var raw := 0.6 + sn * 0.4;
    var capped := if raw < 1.0 then raw else 1.0;
    if capped > 0.1 then capped else 0.1
  }
}
