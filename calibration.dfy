/** The per-frame calibration rules of the visit pipeline: the skip rule for frames
    with too many missing landmarks, the user override merged coordinate by
    coordinate, and the re-normalisation of points into the square crop. Missing
    landmarks arrive as `[-1, -1]` rows, so coordinates are kept as raw reals here and
    an `Option` view states what the rules mean per landmark. */
module Calibration {
  import opened Wrappers
  import opened Geometry

  /** The number of coordinates equal to -1: `np.count_nonzero(coords == -1)`. */
  function MissingCoordinates(coords: seq<Point>): (n: nat)
    ensures n <= 2 * |coords|
  {
    if coords == [] then 0
    else
      var p := coords[|coords| - 1];
      MissingCoordinates(coords[..|coords| - 1]) + (if p.x == -1.0 then 1 else 0) + (if p.y == -1.0 then 1 else 0)
  }

  /** The frame is skipped: `count / 2 > 2`, that is, more than four -1 coordinates. */
  predicate SkipFrame(coords: seq<Point>) {
    MissingCoordinates(coords) > 4
  }

  lemma SkipRuleOnHalves(coords: seq<Point>)
    ensures (MissingCoordinates(coords) as real) / 2.0 > 2.0 <==> SkipFrame(coords)
  {
  }

  /** A landmark: present, or missing when its row is `[-1, -1]`. */
  function Landmark(p: Point): Option<Point> {
    if p == Sentinel then None else Some(p)
  }

  /** Every row is either the sentinel or has no -1 coordinate. */
  ghost predicate WellFormed(coords: seq<Point>) {
    forall i :: 0 <= i < |coords| ==> coords[i] == Sentinel || (coords[i].x != -1.0 && coords[i].y != -1.0)
  }

  function MissingLandmarks(coords: seq<Point>): (n: nat)
    ensures n <= |coords|
  {
    if coords == [] then 0
    else MissingLandmarks(coords[..|coords| - 1]) + (if Landmark(coords[|coords| - 1]).None? then 1 else 0)
  }

  lemma {:induction false} MissingCoordinatesOfLandmarks(coords: seq<Point>)
    requires WellFormed(coords)
    ensures MissingCoordinates(coords) == 2 * MissingLandmarks(coords)
  {
    if coords != [] {
      var init := coords[..|coords| - 1];
      assert WellFormed(init) by {
        forall i | 0 <= i < |init| ensures init[i] == Sentinel || (init[i].x != -1.0 && init[i].y != -1.0) {
          assert init[i] == coords[i];
        }
      }
      MissingCoordinatesOfLandmarks(init);
    }
  }

  /** For well-formed landmarks, a frame is skipped exactly when more than two of
      them are missing. */
  lemma SkipWhenMoreThanTwoMissing(coords: seq<Point>)
    requires WellFormed(coords)
    ensures SkipFrame(coords) <==> MissingLandmarks(coords) > 2
  {
    MissingCoordinatesOfLandmarks(coords);
  }

  /** `np.where(user == -1, coords, user)`: each coordinate the user has set wins. */
  function Merge(user: seq<Point>, coords: seq<Point>): (m: seq<Point>)
    requires |user| == |coords|
    ensures |m| == |coords|
    ensures forall i :: 0 <= i < |coords| && user[i].x != -1.0 && user[i].y != -1.0 ==> m[i] == user[i]
    ensures forall i :: 0 <= i < |coords| && user[i] == Sentinel ==> m[i] == coords[i]
  {
    seq(|coords|, i requires 0 <= i < |coords| =>
      Point(if user[i].x == -1.0 then coords[i].x else user[i].x,
            if user[i].y == -1.0 then coords[i].y else user[i].y))
  }

  /** Per landmark: a landmark the user has placed replaces the detected one, any other
      is the detected one. */
  lemma OverrideWinsPerLandmark(user: seq<Point>, coords: seq<Point>)
    requires |user| == |coords| && WellFormed(user)
    ensures forall i :: 0 <= i < |coords| ==>
              Merge(user, coords)[i] == if Landmark(user[i]).Some? then user[i] else coords[i]
  {
  }

  /** Pixel coordinates of the whole frame, shifted to the crop, normalised by the crop. */
  function Rescale(p: Point, resolution: Point, cropStart: Point, cropSize: real): Point
    requires cropSize != 0.0
  {
    Point((p.x * resolution.x - cropStart.x) / cropSize, (p.y * resolution.y - cropStart.y) / cropSize)
  }

  /** Every row rescaled: what `_adjust_coords` leaves in an array of rows. */
  function Rescaled(ps: seq<Point>, resolution: Point, cropStart: Point, cropSize: real): (r: seq<Point>)
    requires cropSize != 0.0
    ensures |r| == |ps|
  {
    seq(|ps|, i requires 0 <= i < |ps| => Rescale(ps[i], resolution, cropStart, cropSize))
  }

  predicate InCrop(p: Point) {
    0.0 <= p.x <= 1.0 && 0.0 <= p.y <= 1.0
  }

  /** The boolean-mask selection of the rows inside the crop, in order. */
  function KeepInCrop(ps: seq<Point>): (r: seq<Point>)
    ensures forall p :: p in r <==> p in ps && InCrop(p)
    ensures |r| <= |ps|
  {
    if ps == [] then []
    else KeepInCrop(ps[..|ps| - 1]) + (if InCrop(ps[|ps| - 1]) then [ps[|ps| - 1]] else [])
  }

  /** The selection distributes over concatenation: rows are kept or dropped one by
      one, in their original order. */
  lemma {:induction false} KeepInCropConcat(a: seq<Point>, b: seq<Point>)
    ensures KeepInCrop(a + b) == KeepInCrop(a) + KeepInCrop(b)
  {
    if b == [] {
      assert a + b == a;
    } else {
      var init, last := b[..|b| - 1], b[|b| - 1];
      assert (a + b)[..|a + b| - 1] == a + init && (a + b)[|a + b| - 1] == last;
      KeepInCropConcat(a, init);
    }
  }

  /** `coords *= resolution`. */
  method ScaleInPlace(a: array<Point>, resolution: Point)
    modifies a
    ensures forall i :: 0 <= i < a.Length ==> a[i] == Point(old(a[i]).x * resolution.x, old(a[i]).y * resolution.y)
  {
    var i := 0;
    while i < a.Length
      invariant 0 <= i <= a.Length
      invariant forall j :: 0 <= j < i ==> a[j] == Point(old(a[j]).x * resolution.x, old(a[j]).y * resolution.y)
      invariant forall j :: i <= j < a.Length ==> a[j] == old(a[j])
    {
      a[i] := Point(a[i].x * resolution.x, a[i].y * resolution.y);
      i := i + 1;
    }
  }

  /** `coords -= crop_start`. */
  method ShiftInPlace(a: array<Point>, cropStart: Point)
    modifies a
    ensures forall i :: 0 <= i < a.Length ==> a[i] == Point(old(a[i]).x - cropStart.x, old(a[i]).y - cropStart.y)
  {
    var i := 0;
    while i < a.Length
      invariant 0 <= i <= a.Length
      invariant forall j :: 0 <= j < i ==> a[j] == Point(old(a[j]).x - cropStart.x, old(a[j]).y - cropStart.y)
      invariant forall j :: i <= j < a.Length ==> a[j] == old(a[j])
    {
      a[i] := Point(a[i].x - cropStart.x, a[i].y - cropStart.y);
      i := i + 1;
    }
  }

  /** `coords /= crop_size`. */
  method DivideInPlace(a: array<Point>, cropSize: real)
    requires cropSize != 0.0
    modifies a
    ensures forall i :: 0 <= i < a.Length ==> a[i] == Point(old(a[i]).x / cropSize, old(a[i]).y / cropSize)
  {
    var i := 0;
    while i < a.Length
      invariant 0 <= i <= a.Length
      invariant forall j :: 0 <= j < i ==> a[j] == Point(old(a[j]).x / cropSize, old(a[j]).y / cropSize)
      invariant forall j :: i <= j < a.Length ==> a[j] == old(a[j])
    {
      a[i] := Point(a[i].x / cropSize, a[i].y / cropSize);
      i := i + 1;
    }
  }

  lemma RescaleSteps(p0: Point, p1: Point, p2: Point, p3: Point, resolution: Point, cropStart: Point, cropSize: real)
    requires cropSize != 0.0
    requires p1 == Point(p0.x * resolution.x, p0.y * resolution.y)
    requires p2 == Point(p1.x - cropStart.x, p1.y - cropStart.y)
    requires p3 == Point(p2.x / cropSize, p2.y / cropSize)
    ensures p3 == Rescale(p0, resolution, cropStart, cropSize)
  {
  }

  /** The three in-place steps together: every row is rescaled. */
  method RescaleInPlace(a: array<Point>, resolution: Point, cropStart: Point, cropSize: real)
    requires cropSize != 0.0
    modifies a
    ensures forall i :: 0 <= i < a.Length ==> a[i] == Rescale(old(a[i]), resolution, cropStart, cropSize)
  {
    ghost var a0 := a[..];
    ScaleInPlace(a, resolution);
    ghost var a1 := a[..];
    ShiftInPlace(a, cropStart);
    ghost var a2 := a[..];
    DivideInPlace(a, cropSize);
    forall i | 0 <= i < a.Length ensures a[i] == Rescale(a0[i], resolution, cropStart, cropSize) {
      RescaleSteps(a0[i], a1[i], a2[i], a[i], resolution, cropStart, cropSize);
    }
  }

  /** `_adjust_coords`: every calibration row is rescaled in place and kept; the dart
      rows are rescaled in place and only those inside the crop are returned. */
  method AdjustCoords(calibration: array<Point>, darts: array<Point>, resolution: Point, cropStart: Point, cropSize: real)
    returns (kept: seq<Point>)
    requires cropSize != 0.0 && calibration != darts
    modifies calibration, darts
    ensures forall i :: 0 <= i < calibration.Length ==>
              calibration[i] == Rescale(old(calibration[i]), resolution, cropStart, cropSize)
    ensures forall i :: 0 <= i < darts.Length ==> darts[i] == Rescale(old(darts[i]), resolution, cropStart, cropSize)
    ensures kept == KeepInCrop(darts[..])
    ensures calibration[..] == Rescaled(old(calibration[..]), resolution, cropStart, cropSize)
    ensures kept == KeepInCrop(Rescaled(old(darts[..]), resolution, cropStart, cropSize))
    ensures forall p :: p in kept ==> InCrop(p)
  {
    ghost var rows := darts[..];
    RescaleInPlace(calibration, resolution, cropStart, cropSize);
    if darts.Length != 0 {
      RescaleInPlace(darts, resolution, cropStart, cropSize);
    }
    assert darts[..] == Rescaled(rows, resolution, cropStart, cropSize);
    kept := KeepInCrop(darts[..]);
  }
}
