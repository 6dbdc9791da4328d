# Starfield simulation model

A Dafny model of the animated starfield behind the "Cosmic Odyssey" landing page
(`src/App.js`, the effect at lines 12–116). The page keeps 250 star records in a shared array:

- on mount and on every window resize it empties the array and reseeds it from `Math.random()`;
- once per display frame, for each star in array order, it adds drift and a depth-weighted
  pointer parallax to the position, advances the flicker phase, wraps the position around the
  surface with a 10-unit margin, and draws the star with a clamped opacity.

The model has two modules:

- `StarRules` (`starrules.dfy`) holds the pure parts:
  - the constants (`MAX_STARS = 250`, parallax gain `0.002`, phase step `0.05`, wrap margin `10`,
    and `PI` as the decimal `3.141592653589793` that `Math.PI` prints as);
  - the `Star` record;
  - `rand` (`Rand`), the record one seeding iteration pushes (`SeedStar`), and the parallax,
    wrap, per-star frame update and opacity clamp;
  - lemmas about all of these.
- `StarfieldEffect` (`starfield.dfy`) holds the class `Starfield`. Its fields are the
  closure's state: `w`, `h` and the star array `stars`. Its methods change that state in place:
  - the constructor models the first two steps of mount, `resize(); initStars();`;
  - `Mount` models the whole of mount: the constructor followed by the first `draw()`, which is a `Frame` call;
  - `InitStars` empties the array and refills it in a counted loop;
  - `Frame` runs the per-star loop of `draw`;
  - `OnResize` models the resize listener.

The environment enters as inputs:

- `Math.random()` is a sequence of unit samples, eight per star. They are consumed in the
  object literal's order: `x, y, z, r, vx, vy, tw, t`.
- `Math.sin` is a function parameter `sin`.
- The container size is given as non-negative `width`/`height`.
- The pointer is an explicit `(mx, my)` argument of `Frame`.

Arithmetic is over `real`.

Notes on what the code does at the edges:

- After the wrap, a coordinate lies in the closed interval `[-10, size+10]`, upper end included.
  A coordinate sent to `size + 10` is not re-wrapped, because the second test is a strict `>`.
- `rand` gives half-open ranges. Depth is in `[0.2, 1.0)`: it can be `0.2` but never reaches `1.0`.
  In the same way radius, drift and flicker rate never reach their upper bound.
- On a zero-width (zero-height) surface `rand(0, 0)` is `0`. So `0 <= x < w` holds only when
  `w > 0`. The model states `0 <= x <= w`, with `x < w` when `w > 0`.
- `draw` reads `mouse` from the closure of the first render. The effect's dependency list is
  empty. So at run time the parallax is always computed against `(0, 0)`, and pointer moves never
  reach it. `Frame` therefore takes the pointer as an arbitrary argument, and nothing in the model
  connects `onMove` to it.

## Model

| member | source | states |
|---|---|---|
| `StarRules.Rand` | src/App.js:33-35 | for a unit sample, the result lies in `[min, max]` when `min <= max`, below `max` when `min < max`, and equals `min` when the range is empty |
| `StarRules.SeedStar` | src/App.js:40-49 | on a non-negative surface a freshly pushed star has `0 <= x <= w` (`< w` if `w > 0`), the same for `y`/`h`, `0.2 <= z < 1`, `0.3 <= r < 1.8`, `-0.05 <= vx, vy < 0.05`, `0.2 <= tw < 1`, `0 <= t < 2*PI`, and lies within the wrap bounds |
| `StarRules.Parallax` | src/App.js:73-74 | the offset is 0 when the pointer is at the centre of the axis or the depth is 1, and non-zero otherwise |
| `StarRules.ParallaxShrinksWithDepth` | src/App.js:73-74 | for a fixed pointer and depths `z1 <= z2 <= 1`, the parallax magnitude at `z2` is at most that at `z1`, strictly less when the pointer is off centre and `z1 < z2` |
| `StarRules.WrapCoord` | src/App.js:80-83 | on a non-negative surface, a coordinate below `-10` becomes exactly `size+10`, one above `size+10` becomes exactly `-10`, one in `[-10, size+10]` is unchanged, and the result always lies in `[-10, size+10]` |
| `StarRules.StepStar` | src/App.js:71-83 | one frame's update leaves `z, r, vx, vy, tw` unchanged, sets `t' = t + tw*0.05`, puts the position within the wrap bounds, and keeps the seeded attribute ranges |
| `StarRules.CentredPointerMovesByDrift` | src/App.js:73-77 | with the pointer at `(w/2, h/2)` the pre-wrap position changes by `(vx, vy)` alone |
| `StarRules.StepPreservesInvariant` | src/App.js:76-83 | a star within its seeded ranges and the wrap bounds stays so after a frame |
| `StarRules.FramesKeepAttributes` | src/App.js:71-94 | after `n` frames against a fixed surface and pointer, `z, r, vx, vy, tw` are as seeded, `t` has grown by exactly `n * tw * 0.05`, and a live star is still live |
| `StarRules.Opacity` | src/App.js:85-86 | the drawn opacity lies in `[0.1, 1]` for every input; for a sine value in `[-1, 1]` no clamping happens and it is `0.6 + 0.4*s`, at least `0.2` |
| `StarfieldEffect.Starfield.constructor` | src/App.js:102-103 | `resize(); initStars();` record the container size and leave exactly `MAX_STARS` freshly seeded stars, the `i`-th built from the `i`-th block of samples |
| `StarfieldEffect.Mount` | src/App.js:102-104 | after the whole mount the field is valid with exactly `MAX_STARS` stars, star `i` being the seeded star `i` moved once by `StepStar`, and the first frame's opacities are `Opacity(sin(t'))` of each moved star |
| `StarfieldEffect.Starfield.InitStars` | src/App.js:37-51 | whatever the array held before, afterwards it holds exactly `MAX_STARS` stars, star `i` is `SeedStar` of sample block `i`, every one freshly seeded, and the field is valid |
| `StarfieldEffect.Starfield.Frame` | src/App.js:71-92 | the length is unchanged and every star is replaced by exactly one `StepStar` of its old value in place. The returned opacities are, in order, `Opacity(sin(t'))` of each updated star, all in `[0.1, 1]`. The field stays valid |
| `StarfieldEffect.Starfield.OnResize` | src/App.js:106-109 | after a resize the surface has the new size and the array holds exactly `MAX_STARS` stars seeded for it; no old star survives |
| `StarfieldEffect.ResizeTwice` | src/App.js:102-109 | mount followed by two resizes leaves exactly `MAX_STARS` stars, not a multiple of it |

## Left out

- Canvas sizing in `resize` (backing-buffer size, CSS size, `setTransform`) and the device pixel
  ratio: these are canvas/DOM calls. The model keeps only the recorded `w`, `h`. The ratio is
  capped at 2 (src/App.js:18); that cap is not modelled.
- Canvas drawing: `clearRect`, the radial nebula gradient, `fillRect`, `arc`/`fill`, `fillStyle`,
  and resetting `globalAlpha` to 1. These are foreign calls with no modelable result. `Frame`
  returns the opacity assigned to each star instead of drawing it.
- `requestAnimationFrame` rescheduling and `cancelAnimationFrame` on teardown: browser
  scheduling. Repeated frames appear only as `StepTimes`/`FramesKeepAttributes`. Teardown is not
  modelled. The resize listener is an anonymous function that the cleanup never removes, so the
  teardown is not total.
- Event listeners, `getBoundingClientRect` and the `setMouse` state update in `onMove`: host I/O.
  Because of the stale closure they do not affect `draw`.
- `Math.random` and `Math.sin` as implementations. They are inputs, with samples in `[0, 1)`.
- IEEE-754 rounding. All arithmetic is exact over `real`, so for example the phase grows without
  bound and never loses precision.
- The page markup, sections, motion animations and the form: presentational only.
