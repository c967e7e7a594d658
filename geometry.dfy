/**
 * Points, the parts of JavaScript's `Math` that the layouts call, and the
 * minimum and maximum of a list of coordinates.
 *
 * `Math.cos`, `Math.sin`, `Math.atan2` and `Math.sqrt` are not given a
 * definition: they are fields of a `Trig` record that every layout receives
 * as a parameter, so every property proved here holds whatever functions
 * fill them. The properties that need the identity cos^2 + sin^2 = 1, or
 * that `sqrt` is a square root, take it as a hypothesis.
 */
module Geometry {

  /** The value of `Math.PI`. */
  const PI: real := 3.141592653589793

  datatype Point = Point(x: real, y: real)

  datatype Point3 = Point3(x: real, y: real, z: real)

  const Origin: Point := Point(0.0, 0.0)

  datatype Trig = Trig(
    cos: real -> real,
    sin: real -> real,
    atan2: (real, real) -> real,
    sqrt: real -> real)

  /** cos^2 + sin^2 = 1 at every angle. */
  ghost predicate Pythagorean(t: Trig) {
    forall a :: t.cos(a) * t.cos(a) + t.sin(a) * t.sin(a) == 1.0
  }

  /** `sqrt` returns the non-negative square root of every non-negative number. */
  ghost predicate IsSqrt(t: Trig) {
    forall v :: 0.0 <= v ==> 0.0 <= t.sqrt(v) && t.sqrt(v) * t.sqrt(v) == v
  }

  function SquaredDistance(a: Point, b: Point): (d: real)
    ensures 0.0 <= d
  {
    (b.x - a.x) * (b.x - a.x) + (b.y - a.y) * (b.y - a.y)
  }

  /** The point at distance `r` from `c` in direction `angle`. */
  function Polar(t: Trig, c: Point, r: real, angle: real): Point {
    Point(c.x + r * t.cos(angle), c.y + r * t.sin(angle))
  }

  lemma PolarDistance(t: Trig, c: Point, r: real, angle: real)
    requires Pythagorean(t)
    ensures SquaredDistance(c, Polar(t, c, r, angle)) == r * r
  {
    var co, si := t.cos(angle), t.sin(angle);
    assert co * co + si * si == 1.0;
    calc {
      SquaredDistance(c, Polar(t, c, r, angle));
      (r * co) * (r * co) + (r * si) * (r * si);
      r * r * (co * co + si * si);
      r * r;
    }
  }

  /** `Math.min(...xs)`. */
  function MinOf(xs: seq<real>): (m: real)
    requires |xs| > 0
    ensures m in xs
    ensures forall k :: 0 <= k < |xs| ==> m <= xs[k]
  {
    if |xs| == 1 then xs[0]
    else
      var rest := MinOf(xs[1..]);
      if xs[0] <= rest then xs[0] else rest
  }

  /** `Math.max(...xs)`. */
  function MaxOf(xs: seq<real>): (m: real)
    requires |xs| > 0
    ensures m in xs
    ensures forall k :: 0 <= k < |xs| ==> xs[k] <= m
  {
    if |xs| == 1 then xs[0]
    else
      var rest := MaxOf(xs[1..]);
      if xs[0] >= rest then xs[0] else rest
  }

  function Xs(ps: seq<Point>): (xs: seq<real>)
    ensures |xs| == |ps| && forall k :: 0 <= k < |ps| ==> xs[k] == ps[k].x
  {
    seq(|ps|, k requires 0 <= k < |ps| => ps[k].x)
  }

  function Ys(ps: seq<Point>): (ys: seq<real>)
    ensures |ys| == |ps| && forall k :: 0 <= k < |ps| ==> ys[k] == ps[k].y
  {
    seq(|ps|, k requires 0 <= k < |ps| => ps[k].y)
  }
}
