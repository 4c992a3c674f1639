/** Planar geometry primitives: points, their distance and slope, and the
    axis-aligned rectangle with its point-containment test.

    Coordinates are `f32` in the program; here they are `real`. The NaN that
    `slope` returns for a vertical segment is `None`. */
module Geometry {

  datatype Option<T> = None | Some(value: T)

  datatype Point = Point(x: real, y: real)

  /** Origin `(x, y)` and extents `width`, `height`; nothing constrains the
      extents, negative ones included. */
  datatype Rect = Rect(x: real, y: real, width: real, height: real)

  // ---------------------------------------------------------------------
  // Distance
  // ---------------------------------------------------------------------

  /** The radicand of `Point::distance`: the sum of the squared coordinate
      differences. Its properties are the lemmas below. */
  function DistanceSquared(a: Point, b: Point): real
  {
    (a.x - b.x) * (a.x - b.x) + (a.y - b.y) * (a.y - b.y)
  }

  /** `d` is what `Point::distance(a, b)` computes: the non-negative square
      root of the squared distance. */
  predicate IsDistance(a: Point, b: Point, d: real)
  {
    d >= 0.0 && d * d == DistanceSquared(a, b)
  }

  lemma SquareSign(v: real)
    ensures v * v >= 0.0
    ensures v != 0.0 ==> v * v > 0.0
  {
  }

  lemma SumOfSquaresSign(u: real, v: real)
    ensures u * u + v * v >= 0.0
    ensures u != 0.0 || v != 0.0 ==> u * u + v * v > 0.0
  {
  }

  /** Squaring is strictly monotone on non-negative reals. */
  lemma SquareMonotone(u: real, v: real)
    requires 0.0 <= u < v
    ensures u * u < v * v
  {
    var d := v - u;
    calc {
      v * v;
      == u * u + 2.0 * (u * d) + d * d;
      >= { SquareSign(d); if u > 0.0 { assert u * d > 0.0; } }
      u * u + d * d;
      > { SquareSign(d); }
      u * u;
    }
  }

  /** The squared distance is never negative and vanishes exactly when the
      two points coincide. */
  lemma DistanceSquaredSign(a: Point, b: Point)
    ensures DistanceSquared(a, b) >= 0.0
    ensures DistanceSquared(a, b) == 0.0 <==> a == b
  {
    var dx, dy := a.x - b.x, a.y - b.y;
    SumOfSquaresSign(dx, dy);
    if a == b {
      calc {
        DistanceSquared(a, b);
        == 0.0 * 0.0 + 0.0 * 0.0;
        == 0.0;
      }
    } else {
      calc {
        DistanceSquared(a, b);
        == dx * dx + dy * dy;
        > 0.0;
      }
    }
  }

  lemma DistanceSquaredSymmetric(a: Point, b: Point)
    ensures DistanceSquared(a, b) == DistanceSquared(b, a)
  {
  }

  /** The distance is a function of the two points: at most one value
      qualifies. */
  lemma DistanceUnique(a: Point, b: Point, d1: real, d2: real)
    requires IsDistance(a, b, d1) && IsDistance(a, b, d2)
    ensures d1 == d2
  {
    if d1 < d2 {
      SquareMonotone(d1, d2);
    } else if d2 < d1 {
      SquareMonotone(d2, d1);
    }
  }

  lemma DistanceSymmetric(a: Point, b: Point, d: real)
    ensures IsDistance(a, b, d) <==> IsDistance(b, a, d)
  {
  }

  /** The distance is zero exactly when the two points coincide. */
  lemma DistanceZero(a: Point, b: Point, d: real)
    requires IsDistance(a, b, d)
    ensures d == 0.0 <==> a == b
  {
    DistanceSquaredSign(a, b);
    if d == 0.0 {
      calc {
        DistanceSquared(a, b);
        == d * d;
        == 0.0 * 0.0;
        == 0.0;
      }
    } else {
      calc {
        DistanceSquared(a, b);
        == d * d;
        > { SquareSign(d); } 0.0;
      }
    }
  }

  /** Comparing distances is the same as comparing squared distances, so a
      caller can order points by `DistanceSquared` alone. */
  lemma DistanceOrder(a: Point, b: Point, d1: real, c: Point, e: Point, d2: real)
    requires IsDistance(a, b, d1) && IsDistance(c, e, d2)
    ensures d1 <= d2 <==> DistanceSquared(a, b) <= DistanceSquared(c, e)
  {
    if d2 < d1 {
      SquareMonotone(d2, d1);
    } else if d1 < d2 {
      SquareMonotone(d1, d2);
    }
  }

  /** `distance((0,0), (3,4))` is exactly 5. */
  lemma DistanceThreeFourFive(d: real)
    ensures IsDistance(Point(0.0, 0.0), Point(3.0, 4.0), d) <==> d == 5.0
  {
    assert IsDistance(Point(0.0, 0.0), Point(3.0, 4.0), 5.0);
    if IsDistance(Point(0.0, 0.0), Point(3.0, 4.0), d) {
      DistanceUnique(Point(0.0, 0.0), Point(3.0, 4.0), d, 5.0);
    }
  }

  /** `distance((0,0), (-10,-10))` is the square root of 200, which lies in
      `[14, 15)`. */
  lemma DistanceFloorFourteen(d: real)
    requires IsDistance(Point(0.0, 0.0), Point(-10.0, -10.0), d)
    ensures 14.0 <= d < 15.0
  {
    assert d * d == 200.0;
    if d < 14.0 {
      SquareMonotone(d, 14.0);
    }
    if d >= 15.0 {
      if d > 15.0 {
        SquareMonotone(15.0, d);
      }
    }
  }

  // ---------------------------------------------------------------------
  // Slope
  // ---------------------------------------------------------------------

  /** `Point::slope`: rise over run from `a` (x1, y1) to `p` (x2, y2); `None`
      stands for the NaN returned when the run is zero. */
  function Slope(a: Point, p: Point): (m: Option<real>)
    ensures m.None? <==> a.x == p.x
    ensures m.Some? ==> m.value * (p.x - a.x) == p.y - a.y
  {
    var cy := p.y - a.y;
    var cx := p.x - a.x;
    if cx == 0.0 then None else Some(cy / cx)
  }

  /** A slope is the unique ratio: any `k` with `k * run == rise` is it. */
  lemma SlopeUnique(a: Point, p: Point, k: real)
    requires a.x != p.x
    ensures Slope(a, p) == Some(k) <==> k * (p.x - a.x) == p.y - a.y
  {
    var m := Slope(a, p).value;
    if k * (p.x - a.x) == p.y - a.y {
      MulCancel(k, m, p.x - a.x);
    }
  }

  lemma MulCancel(k: real, m: real, c: real)
    requires c != 0.0 && k * c == m * c
    ensures k == m
  {
  }

  /** Swapping the endpoints does not change the slope, sentinel included. */
  lemma SlopeSymmetric(a: Point, b: Point)
    ensures Slope(a, b) == Slope(b, a)
  {
    if a.x != b.x {
      var m := Slope(a, b).value;
      assert m * (a.x - b.x) == a.y - b.y by {
        assert m * (a.x - b.x) == -(m * (b.x - a.x));
      }
      SlopeUnique(b, a, m);
    }
  }

  /** Points on one line through `a` with slope `m` all have slope `m`
      from `a`, except `a`'s own vertical. */
  lemma SlopeOfLine(a: Point, m: real, t: real)
    requires t != 0.0
    ensures Slope(a, Point(a.x + t, a.y + m * t)) == Some(m)
  {
    SlopeUnique(a, Point(a.x + t, a.y + m * t), m);
  }

  lemma SlopeExamples()
    ensures Slope(Point(0.0, 0.0), Point(1.0, 1.0)) == Some(1.0)
    ensures Slope(Point(0.0, 0.0), Point(1.0, 0.0)) == Some(0.0)
    ensures Slope(Point(0.0, 0.0), Point(0.0, 1.0)) == None
    ensures Slope(Point(0.0, 0.0), Point(1.0, 2.0)) == Some(2.0)
  {
  }

  // ---------------------------------------------------------------------
  // Rect
  // ---------------------------------------------------------------------

  /** `Rect::new`: stores its four arguments, with no validation. */
  function NewRect(x: real, y: real, width: real, height: real): (r: Rect)
    ensures r.x == x && r.y == y && r.width == width && r.height == height
  {
    Rect(x, y, width, height)
  }

  /** No validation: every rectangle, negative extents included, is one
      `NewRect` can build from its own fields. */
  lemma NewRectAcceptsEveryRect(r: Rect)
    ensures NewRect(r.x, r.y, r.width, r.height) == r
  {
  }

  /** `Rect::contains` exactly as the program writes it: `p.x` is compared
      with the left edge only, and the first upper bound on `p.y` is the
      x-extent `x + width`. */
  predicate Contains(r: Rect, p: Point)
  {
    p.x >= r.x && p.y <= r.x + r.width && p.y >= r.y && p.y <= r.y + r.height
  }

  /** The conventional test of a point against `[x, x + width] × [y, y + height]`,
      which `Contains` is not. */
  predicate InBox(r: Rect, p: Point)
  {
    r.x <= p.x <= r.x + r.width && r.y <= p.y <= r.y + r.height
  }

  function Min(u: real, v: real): (m: real)
    ensures m <= u && m <= v && (m == u || m == v)
  {
    if u <= v then u else v
  }

  /** What `Contains` accepts is a half-strip: unbounded to the right of the
      left edge, and between `y` and the lesser of `x + width` and
      `y + height` vertically. */
  lemma ContainsIsHalfStrip(r: Rect, p: Point)
    ensures Contains(r, p) <==> r.x <= p.x && r.y <= p.y <= Min(r.x + r.width, r.y + r.height)
  {
  }

  /** Moving a contained point any distance to the right keeps it contained. */
  lemma ContainsNoUpperBoundOnX(r: Rect, p: Point, k: real)
    requires Contains(r, p) && k >= 0.0
    ensures Contains(r, Point(p.x + k, p.y))
  {
  }

  /** The two tests agree on the vertical band whenever `y + height` does not
      exceed `x + width`: then a point in the box is contained, and a
      contained point left of the right edge is in the box. */
  lemma ContainsAgreesWithBoxWhen(r: Rect, p: Point)
    requires r.y + r.height <= r.x + r.width
    ensures InBox(r, p) ==> Contains(r, p)
    ensures Contains(r, p) && p.x <= r.x + r.width ==> InBox(r, p)
  {
  }

  /** The points `Contains` accepts and the box rejects are exactly the
      contained points right of the right edge. */
  lemma ContainsOutsideBox(r: Rect, p: Point)
    ensures Contains(r, p) && !InBox(r, p) <==> Contains(r, p) && p.x > r.x + r.width
  {
  }

  /** The points in the box that `Contains` rejects are exactly those above
      the x-extent `x + width`. */
  lemma BoxOutsideContains(r: Rect, p: Point)
    ensures InBox(r, p) && !Contains(r, p) <==> InBox(r, p) && p.y > r.x + r.width
  {
  }

  /** Neither test implies the other in general. */
  lemma ContainsDiffersFromBox()
    ensures Contains(Rect(0.0, 0.0, 1.0, 1.0), Point(5.0, 0.5))
    ensures !InBox(Rect(0.0, 0.0, 1.0, 1.0), Point(5.0, 0.5))
    ensures InBox(Rect(0.0, 10.0, 10.0, 10.0), Point(5.0, 15.0))
    ensures !Contains(Rect(0.0, 10.0, 10.0, 10.0), Point(5.0, 15.0))
  {
  }

  /** The program's own test, and a point to the lower left of the box. */
  lemma ContainsExamples()
    ensures Contains(NewRect(10.0, 10.0, 10.0, 10.0), Point(15.0, 15.0))
    ensures !Contains(NewRect(10.0, 10.0, 10.0, 10.0), Point(5.0, 5.0))
  {
  }
}
