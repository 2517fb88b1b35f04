/** Normalised image and board-plane points, the proximity test the visit pipeline
    uses, the row order and de-duplication of `np.unique(..., axis=0)`, and the
    per-axis mean of `np.mean(..., axis=0)`. Coordinates are exact reals. */
module Geometry {
  datatype Point = Point(x: real, y: real)

  /** The `[-1, -1]` row that marks a missing point. */
  const Sentinel: Point := Point(-1.0, -1.0)

  function SquaredDistance(a: Point, b: Point): (d: real)
    ensures d >= 0.0
  {
    var dx, dy := a.x - b.x, a.y - b.y;
    SquareNonNegative(dx);
    SquareNonNegative(dy);
    dx * dx + dy * dy
  }

  lemma PositiveSquare(e: real)
    requires e > 0.0
    ensures e * e > 0.0
  {
  }

  lemma SquareNonNegative(d: real)
    ensures d * d >= 0.0
    ensures d != 0.0 ==> d * d > 0.0
  {
    if d > 0.0 {
      PositiveSquare(d);
    } else if d < 0.0 {
      PositiveSquare(-d);
      assert d * d == (-d) * (-d);
    }
  }

  /** `_distance(a, b) < 0.01`, compared on squares. */
  predicate Close(a: Point, b: Point) {
    SquaredDistance(a, b) < 0.0001
  }

  /** `_distance(a, b) > 0.01`, compared on squares. */
  predicate Far(a: Point, b: Point) {
    SquaredDistance(a, b) > 0.0001
  }

  /** Comparing a non-negative distance with 0.01 is comparing its square with 0.0001,
      so the squared tests agree with the square-root ones. */
  lemma SquareThreshold(d: real)
    requires d >= 0.0
    ensures d * d < 0.0001 <==> d < 0.01
    ensures d * d > 0.0001 <==> d > 0.01
  {
    if d < 0.01 {
      assert d * d <= d * 0.01;
      assert d * 0.01 < 0.01 * 0.01;
    } else if d > 0.01 {
      assert d * d >= d * 0.01;
      assert d * 0.01 > 0.01 * 0.01;
    }
  }

  /** Close points differ by less than 0.01 on each axis; every point is close to itself. */
  lemma CloseBoundsAxes(a: Point, b: Point)
    ensures Close(a, a)
    ensures Close(a, b) ==> Close(b, a)
    ensures Close(a, b) ==> -0.01 < a.x - b.x < 0.01 && -0.01 < a.y - b.y < 0.01
  {
    var dx, dy := a.x - b.x, a.y - b.y;
    assert SquaredDistance(a, b) == SquaredDistance(b, a) by {
      assert (b.x - a.x) * (b.x - a.x) == dx * dx;
      assert (b.y - a.y) * (b.y - a.y) == dy * dy;
    }
    if Close(a, b) {
      SquareNonNegative(dx);
      SquareNonNegative(dy);
      assert SquaredDistance(a, b) == dx * dx + dy * dy;
      assert dx * dx < 0.0001 && dy * dy < 0.0001;
      var ax := if dx >= 0.0 then dx else -dx;
      var ay := if dy >= 0.0 then dy else -dy;
      assert ax * ax == dx * dx && ay * ay == dy * dy;
      SquareThreshold(ax);
      SquareThreshold(ay);
    }
  }

  /** The row order of `np.unique(..., axis=0)`: by x, then by y. */
  predicate LexLess(a: Point, b: Point) {
    a.x < b.x || (a.x == b.x && a.y < b.y)
  }

  predicate StrictlySorted(s: seq<Point>) {
    forall i, j :: 0 <= i < j < |s| ==> LexLess(s[i], s[j])
  }

  function Insert(s: seq<Point>, p: Point): (r: seq<Point>)
    requires StrictlySorted(s)
    ensures StrictlySorted(r)
    ensures forall q :: q in r <==> q in s || q == p
  {
    if s == [] then [p]
    else if p == s[0] then s
    else if LexLess(p, s[0]) then [p] + s
    else
      var rest := Insert(s[1..], p);
      assert forall q :: q in s[1..] ==> LexLess(s[0], q);
      [s[0]] + rest
  }

  /** `np.unique(points, axis=0)`: the distinct points, in increasing row order. */
  function Unique(points: seq<Point>): (u: seq<Point>)
    ensures StrictlySorted(u)
    ensures forall q :: q in u <==> q in points
  {
    if points == [] then [] else Insert(Unique(points[..|points| - 1]), points[|points| - 1])
  }

  lemma {:induction false} SortedDistinct(s: seq<Point>, i: int, j: int)
    requires StrictlySorted(s) && 0 <= i < |s| && 0 <= j < |s| && i != j
    ensures s[i] != s[j]
  {
  }

  function SumX(ps: seq<Point>): real {
    if ps == [] then 0.0 else SumX(ps[..|ps| - 1]) + ps[|ps| - 1].x
  }

  function SumY(ps: seq<Point>): real {
    if ps == [] then 0.0 else SumY(ps[..|ps| - 1]) + ps[|ps| - 1].y
  }

  /** `np.mean(points, axis=0)`. */
  function Mean(ps: seq<Point>): Point
    requires |ps| > 0
  {
    Point(SumX(ps) / (|ps| as real), SumY(ps) / (|ps| as real))
  }

  /** Every point of ps lies in the axis-aligned box [lo, hi]. */
  ghost predicate InBox(ps: seq<Point>, lo: Point, hi: Point) {
    forall i :: 0 <= i < |ps| ==> lo.x <= ps[i].x <= hi.x && lo.y <= ps[i].y <= hi.y
  }

  lemma {:induction false} SumXBounds(ps: seq<Point>, lo: real, hi: real)
    requires forall i :: 0 <= i < |ps| ==> lo <= ps[i].x <= hi
    ensures lo * (|ps| as real) <= SumX(ps) <= hi * (|ps| as real)
  {
    if ps != [] {
      var init := ps[..|ps| - 1];
      assert forall i :: 0 <= i < |init| ==> init[i] == ps[i];
      SumXBounds(init, lo, hi);
      assert SumX(ps) == SumX(init) + ps[|ps| - 1].x;
      assert (|init| as real) + 1.0 == |ps| as real;
      BoxStep(SumX(init), ps[|ps| - 1].x, |init| as real, lo, hi);
    }
  }

  lemma {:induction false} SumYBounds(ps: seq<Point>, lo: real, hi: real)
    requires forall i :: 0 <= i < |ps| ==> lo <= ps[i].y <= hi
    ensures lo * (|ps| as real) <= SumY(ps) <= hi * (|ps| as real)
  {
    if ps != [] {
      var init := ps[..|ps| - 1];
      assert forall i :: 0 <= i < |init| ==> init[i] == ps[i];
      SumYBounds(init, lo, hi);
      assert SumY(ps) == SumY(init) + ps[|ps| - 1].y;
      assert (|init| as real) + 1.0 == |ps| as real;
      BoxStep(SumY(init), ps[|ps| - 1].y, |init| as real, lo, hi);
    }
  }

  lemma BoxStep(sum: real, a: real, n: real, lo: real, hi: real)
    requires lo * n <= sum <= hi * n && lo <= a <= hi
    ensures lo * (n + 1.0) <= sum + a <= hi * (n + 1.0)
  {
    assert lo * (n + 1.0) == lo * n + lo;
    assert hi * (n + 1.0) == hi * n + hi;
  }

  lemma RealMulCancel(u: real, v: real, n: real)
    requires n > 0.0
    ensures u * n <= v * n ==> u <= v
  {
    if u > v {
      assert u * n - v * n == (u - v) * n;
      assert (u - v) * n > 0.0;
    }
  }

  lemma DivideBounds(s: real, n: real, lo: real, hi: real)
    requires n > 0.0 && lo * n <= s <= hi * n
    ensures lo <= s / n <= hi
  {
    assert (s / n) * n == s;
    RealMulCancel(lo, s / n, n);
    RealMulCancel(s / n, hi, n);
  }

  lemma MeanXBounds(ps: seq<Point>, lo: real, hi: real)
    requires |ps| > 0 && forall i :: 0 <= i < |ps| ==> lo <= ps[i].x <= hi
    ensures lo <= SumX(ps) / (|ps| as real) <= hi
  {
    SumXBounds(ps, lo, hi);
    DivideBounds(SumX(ps), |ps| as real, lo, hi);
  }

  lemma MeanYBounds(ps: seq<Point>, lo: real, hi: real)
    requires |ps| > 0 && forall i :: 0 <= i < |ps| ==> lo <= ps[i].y <= hi
    ensures lo <= SumY(ps) / (|ps| as real) <= hi
  {
    SumYBounds(ps, lo, hi);
    DivideBounds(SumY(ps), |ps| as real, lo, hi);
  }

  /** The mean of points in a box lies in the same box. */
  lemma MeanInBox(ps: seq<Point>, lo: Point, hi: Point)
    requires |ps| > 0 && InBox(ps, lo, hi)
    ensures lo.x <= Mean(ps).x <= hi.x && lo.y <= Mean(ps).y <= hi.y
  {
    MeanXBounds(ps, lo.x, hi.x);
    MeanYBounds(ps, lo.y, hi.y);
  }
}
