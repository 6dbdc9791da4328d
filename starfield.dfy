/** The state the starfield effect keeps between frames: the surface size and
    the shared array of star records, seeded on mount and on every window
    resize, and moved field by field once per frame. */
module StarfieldEffect {
  import opened StarRules

  /** Every star of `stars` is the record the seeding loop builds from its block of `samples`. */
  ghost predicate SeededFrom(stars: seq<Star>, w: real, h: real, samples: seq<real>)
    requires |samples| == DRAWS_PER_STAR * MAX_STARS && AreUnitSamples(samples)
  {
    && |stars| == MAX_STARS
    && forall i :: 0 <= i < |stars| ==> stars[i] == SeedStar(w, h, SampleBlock(samples, i))
  }

  class Starfield {
    /** Logical surface size, as last read from the container. */
    var w: real
    var h: real
    /** The shared star array the effect empties, refills and mutates. */
    var stars: seq<Star>

    /** The field between frames: a non-negative surface, exactly `MAX_STARS`
        stars, and every star within its seeded ranges and the wrap bounds. */
    ghost predicate Valid()
      reads this
    {
      && w >= 0.0 && h >= 0.0
      && |stars| == MAX_STARS
      && forall i :: 0 <= i < |stars| ==> StarInvariant(stars[i], w, h)
    }

    /** The first two steps of mount, `resize(); initStars();`: record the
        container size, then seed the field. The first `draw()` of mount is
        a `Frame` call made next (see `Mount`). */
    constructor (width: real, height: real, samples: seq<real>)
      requires width >= 0.0 && height >= 0.0
      requires |samples| == DRAWS_PER_STAR * MAX_STARS && AreUnitSamples(samples)
      ensures Valid()
      ensures w == width && h == height
      ensures SeededFrom(stars, w, h, samples)
      ensures forall i :: 0 <= i < |stars| ==> FreshlySeeded(stars[i], w, h)
    {
      w, h := width, height;
      stars := [];
      new;
      InitStars(samples);
    }

    /** Empty the star array in place and push `MAX_STARS` freshly seeded
        records, whatever the array held before. */
    method InitStars(samples: seq<real>)
      requires w >= 0.0 && h >= 0.0
      requires |samples| == DRAWS_PER_STAR * MAX_STARS && AreUnitSamples(samples)
      modifies this`stars
      ensures Valid()
      ensures SeededFrom(stars, w, h, samples)
      ensures forall i :: 0 <= i < |stars| ==> FreshlySeeded(stars[i], w, h)
    {
      stars := [];
      for i := 0 to MAX_STARS
        invariant |stars| == i
        invariant forall k :: 0 <= k < i ==> stars[k] == SeedStar(w, h, SampleBlock(samples, k))
        invariant forall k :: 0 <= k < i ==> FreshlySeeded(stars[k], w, h) && StarInvariant(stars[k], w, h)
      {
        stars := stars + [SeedStar(w, h, SampleBlock(samples, i))];
      }
    }

    /** One frame: every star, in array order, is moved once by `StepStar`
        against pointer `(mx, my)`, and then drawn with the opacity clamped
        from `sin` of its new phase; the opacities are returned in order. */
    method Frame(mx: real, my: real, sin: real -> real) returns (alphas: seq<real>)
      requires Valid()
      modifies this`stars
      ensures Valid()
      ensures |stars| == |old(stars)|
      ensures forall i :: 0 <= i < |stars| ==> stars[i] == StepStar(old(stars)[i], w, h, mx, my)
      ensures |alphas| == |stars|
      ensures forall i :: 0 <= i < |alphas| ==> alphas[i] == Opacity(sin(stars[i].t))
      ensures forall i :: 0 <= i < |alphas| ==> 0.1 <= alphas[i] <= 1.0
    {
      alphas := [];
      for i := 0 to |stars|
        invariant |stars| == |old(stars)| && |alphas| == i
        invariant forall k :: 0 <= k < i ==> stars[k] == StepStar(old(stars)[k], w, h, mx, my)
        invariant forall k :: i <= k < |stars| ==> stars[k] == old(stars)[k]
        invariant forall k :: 0 <= k < |stars| ==> StarInvariant(stars[k], w, h)
        invariant forall k :: 0 <= k < i ==> alphas[k] == Opacity(sin(stars[k].t))
      {
        var s := stars[i];
        StepPreservesInvariant(s, w, h, mx, my);
        s := StepStar(s, w, h, mx, my);
        stars := stars[i := s];
        alphas := alphas + [Opacity(sin(s.t))];
      }
    }

    /** The window-resize listener: read the new container size, then reseed. */
    method OnResize(width: real, height: real, samples: seq<real>)
      requires width >= 0.0 && height >= 0.0
      requires |samples| == DRAWS_PER_STAR * MAX_STARS && AreUnitSamples(samples)
      modifies this
      ensures Valid()
      ensures w == width && h == height
      ensures SeededFrom(stars, w, h, samples)
      ensures forall i :: 0 <= i < |stars| ==> FreshlySeeded(stars[i], w, h)
    {
      w, h := width, height;
      InitStars(samples);
    }
  }

  /** The whole mount sequence: size and seed the field, then run the first
      frame at once, so every star has already been moved once and drawn. */
  method Mount(width: real, height: real, samples: seq<real>, mx: real, my: real, sin: real -> real)
    returns (field: Starfield, alphas: seq<real>)
    requires width >= 0.0 && height >= 0.0
    requires |samples| == DRAWS_PER_STAR * MAX_STARS && AreUnitSamples(samples)
    ensures field.Valid()
    ensures field.w == width && field.h == height
    ensures |field.stars| == MAX_STARS
    ensures forall i :: 0 <= i < MAX_STARS ==>
              field.stars[i] == StepStar(SeedStar(width, height, SampleBlock(samples, i)), width, height, mx, my)
    ensures |alphas| == MAX_STARS
    ensures forall i :: 0 <= i < MAX_STARS ==> alphas[i] == Opacity(sin(field.stars[i].t))
  {
    field := new Starfield(width, height, samples);
    alphas := field.Frame(mx, my, sin);
  }

  /** Mount followed by two window resizes: reseeding replaces the stars, so
      the field holds `MAX_STARS` of them, not twice or three times as many. */
  method ResizeTwice(w0: real, h0: real, w1: real, h1: real, w2: real, h2: real,
                     s0: seq<real>, s1: seq<real>, s2: seq<real>) returns (count: nat)
    requires w0 >= 0.0 && h0 >= 0.0 && w1 >= 0.0 && h1 >= 0.0 && w2 >= 0.0 && h2 >= 0.0
    requires |s0| == DRAWS_PER_STAR * MAX_STARS && AreUnitSamples(s0)
    requires |s1| == DRAWS_PER_STAR * MAX_STARS && AreUnitSamples(s1)
    requires |s2| == DRAWS_PER_STAR * MAX_STARS && AreUnitSamples(s2)
    ensures count == MAX_STARS
  {
    var field := new Starfield(w0, h0, s0);
    field.OnResize(w1, h1, s1);
    field.OnResize(w2, h2, s2);
    count := |field.stars|;
  }
}
