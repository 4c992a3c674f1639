# flextrack-rs: geometry primitives and Bezier resolution state

A Dafny model of the two pieces of logic in flextrack-rs, a Win32/Direct2D
drawing program, that are not window or rendering plumbing:

- `src/geometry.rs`: the `Point` and `Rect` value types, the Euclidean
  `distance` between two points, the `slope` of the segment they span (NaN
  for a vertical segment), `Rect::new` and the point-in-rectangle test
  `Rect::contains`. Module `Geometry` (`geometry.dfy`), written as
  datatypes, functions and lemmas.
- `src/bezier.rs`: the `Bezier` struct as it exists in this source: a
  sampling `resolution`, an unused `size: u16` and a `modified` flag meaning
  "the sampled curve is out of date". `Bezier::new` stores the resolution
  with `modified` false; `set_resolution` writes, and raises `modified`,
  only when the new value differs from the stored one. Module `Bezier`
  (`bezier.dfy`): class `Bezier` with those fields, its constructor and a
  `modifies this` method. The same state is also a value (`State`), so that
  lemmas can relate one call to several (`Step`, `Run`).

Modelling choices:

- `f32` is `real`. The NaN that `slope` returns for a vertical segment is
  `None` of an `Option<real>`.
- `distance` uses `f32::sqrt`. The model has no square root. `IsDistance(a, b, d)`
  says that `d` is the non-negative root of `DistanceSquared(a, b)`. The
  lemmas show that at most one such `d` exists, and prove its properties
  through the squared distance.
- `Rect::contains` is kept as written. It tests `p.x` against the left
  edge only, and it bounds `p.y` above by `x + width` as well as by
  `y + height`. `InBox` is the conventional test. `ContainsOutsideBox` and
  `BoxOutsideContains` say exactly which points one test accepts and the
  other rejects, and `ContainsDiffersFromBox` gives one point of each kind.
- `u16` is a newtype over `0 <= v < 65536`. Nothing writes `size` other
  than the constructor, so no wrap-around arises.
- The resolution domain `0.0 < value <= 1.0` comes only from a doc comment.
  `InDocumentedDomain` states it as a predicate. No operation requires it.
  `StepDomain` shows that `set_resolution` neither enforces nor repairs it.
- `src/bezier.rs` has no control points, curve sampling, arc length or
  `translate`; the struct is the three fields above. Its `new` sets
  `modified` to false, which its test asserts at `src/bezier.rs:41`.

## Model

| member | source | states |
|---|---|---|
| `Geometry.DistanceSquared` | src/geometry.rs:16-18 | the radicand of `distance`: (x1 - x2)² + (y1 - y2)², the argument of `f32::sqrt` at line 17 |
| `Geometry.IsDistance` | src/geometry.rs:16-18 | d is what `distance` returns: a non-negative d whose square is the radicand |
| `Geometry.DistanceSquaredSign` | src/geometry.rs:16-18 | the radicand of `distance` is never negative, and it is zero exactly when the two points are equal |
| `Geometry.DistanceSquaredSymmetric` | src/geometry.rs:16-18 | the squared distance from a to b equals the squared distance from b to a |
| `Geometry.DistanceUnique` | src/geometry.rs:16-18 | at most one non-negative root of the squared distance exists, so `distance` is determined by its two points |
| `Geometry.DistanceSymmetric` | src/geometry.rs:16-18 | d is the distance from a to b exactly when it is the distance from b to a |
| `Geometry.DistanceZero` | src/geometry.rs:16-18 | the distance is zero exactly when the two points coincide |
| `Geometry.DistanceOrder` | src/geometry.rs:16-18 | one distance is at most another exactly when the same holds for their squared distances |
| `Geometry.DistanceThreeFourFive` | src/geometry.rs:16-18 | the distance from (0,0) to (3,4) is 5, and no other value qualifies |
| `Geometry.DistanceFloorFourteen` | src/geometry.rs:16-18 | the distance from (0,0) to (-10,-10) lies in [14, 15) |
| `Geometry.Slope` | src/geometry.rs:29-36 | the result is the NaN sentinel (`None`) exactly when the two x coordinates are equal; otherwise slope times the run (x2 - x1) gives the rise (y2 - y1), with the argument as (x2, y2) |
| `Geometry.SlopeUnique` | src/geometry.rs:20-35 | for a non-vertical segment, the slope is k exactly when k times the run equals the rise, so it is the single number (y2 - y1) / (x2 - x1) |
| `Geometry.SlopeSymmetric` | src/geometry.rs:29-35 | swapping the endpoints gives the same slope; both results are the sentinel or neither is |
| `Geometry.SlopeOfLine` | src/geometry.rs:29-35 | every point off the vertical through a on the line of slope m through a has slope m from a |
| `Geometry.SlopeExamples` | src/geometry.rs:29-35 | slope((0,0),(1,1)) = 1, slope((0,0),(1,0)) = 0, slope((0,0),(0,1)) is the sentinel, slope((0,0),(1,2)) = 2 |
| `Geometry.NewRect` | src/geometry.rs:40-47 | the rectangle's fields are exactly the four arguments |
| `Geometry.NewRectAcceptsEveryRect` | src/geometry.rs:40-47 | no validation: every rectangle, with negative extents too, is what `new` builds from its own fields |
| `Geometry.Contains` | src/geometry.rs:49-51 | the four comparisons of line 50 as written: p.x >= x, p.y <= x + width, p.y >= y, p.y <= y + height |
| `Geometry.ContainsIsHalfStrip` | src/geometry.rs:49-51 | `contains` holds exactly when p.x >= x and y <= p.y <= min(x + width, y + height): no upper bound on p.x, and p.y is also bounded by the x-extent |
| `Geometry.ContainsNoUpperBoundOnX` | src/geometry.rs:49-51 | moving a contained point any distance to the right keeps it contained |
| `Geometry.ContainsAgreesWithBoxWhen` | src/geometry.rs:49-51 | when y + height <= x + width, every point in the conventional box is contained, and a contained point left of the right edge is in the box |
| `Geometry.ContainsOutsideBox` | src/geometry.rs:49-51 | a contained point is outside the conventional box exactly when it lies right of x + width |
| `Geometry.BoxOutsideContains` | src/geometry.rs:49-51 | a point of the conventional box is rejected by `contains` exactly when its y exceeds x + width |
| `Geometry.ContainsDiffersFromBox` | src/geometry.rs:49-51 | `contains` accepts a point right of the box, and rejects a point inside the box whose y exceeds x + width |
| `Geometry.ContainsExamples` | src/geometry.rs:58-62 | Rect::new(10,10,10,10) contains (15,15) and does not contain (5,5) |
| `Bezier.InDocumentedDomain` | src/bezier.rs:10-11 | the resolution domain the doc comment asks for, 0.0 < value <= 1.0; no operation requires it |
| `Bezier.Initial` | src/bezier.rs:12-18 | a new curve stores the given resolution, `size` 0 and `modified` false |
| `Bezier.Step` | src/bezier.rs:20-25 | after `set_resolution(r)` the resolution is r and `size` is unchanged; `modified` is set exactly when it was already set or r differed from the old resolution; an equal r leaves the whole state unchanged |
| `Bezier.StepIdempotent` | src/bezier.rs:20-25 | calling `set_resolution(r)` twice leaves the same state as calling it once |
| `Bezier.StepKeepsModified` | src/bezier.rs:20-25 | `set_resolution` never clears `modified` |
| `Bezier.StepDomain` | src/bezier.rs:10-25 | the stored resolution is in (0, 1] after the call exactly when the argument is; the documented domain is neither checked nor restored |
| `Bezier.RunState` | src/bezier.rs:20-25 | after any sequence of `set_resolution` calls: the resolution is the last one requested, `size` is unchanged, and `modified` is set exactly when it was already set or some call requested a value other than the starting resolution |
| `Bezier.RunSameIsNoOp` | src/bezier.rs:20-21 | a sequence of calls that all repeat the current resolution changes nothing |
| `Bezier.Bezier.constructor` | src/bezier.rs:12-18 | the fields are the given resolution, `size` 0 and `modified` false |
| `Bezier.Bezier.SetResolution` | src/bezier.rs:20-25 | the new fields are `Step` of the old ones; in particular `size` is untouched, and an equal resolution leaves the object unchanged |
| `Bezier.NewThenSetResolution` | src/bezier.rs:32-45 | a curve made with 0.25 is not modified; after `set_resolution(0.15)` it is modified and its resolution is 0.15 |
| `Bezier.NewThenSetSameResolution` | src/bezier.rs:20-21 | setting the resolution a new curve already has, twice, leaves it unmodified |

## Left out

- `Geometry.DistanceSquared`: the model has no `f32::sqrt`. `distance` is
  given as the relation `IsDistance` on its non-negative root, and no
  function computes the root. That such a root exists for every pair of
  points is taken from the reals and not proved, so the distance lemmas
  describe whatever value `distance` returns.
- IEEE-754 `f32` behaviour: rounding, infinities, signed zero, and NaN
  comparison. With NaN, `resolution != resolution` holds, so
  `set_resolution(NaN)` always sets `modified`. For very small runs,
  `cy / cx` can overflow to infinity. With `real` neither of these happens.
- The curve engine (control points, sampling, arc length, `translate`,
  `new_with_ctrl_point`) and the `Line` and `Polygon` types: they are not in
  this source.
- `src/main.rs`, `src/layoutview.rs`, `src/direct2d.rs`: COM
  initialisation, window creation, the message loop and Direct2D/DirectWrite
  resource calls. These are foreign calls and I/O with no logic of their own.
- The colour helpers in `src/direct2d.rs` extract bytes and divide them by
  255.0 into floats for a foreign API. There is nothing to verify in them.
