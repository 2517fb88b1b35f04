/** The integer state of the dartboard detector that sits apart from the image
    pipeline: the clamped threshold and brightness adjusters, and the three-entry
    window that smooths successive circle detections. */
module Geodetect {
  import opened Wrappers

  /** A detected circle, in whole pixels. */
  datatype Circle = Circle(x: int, y: int, r: int)

  const DefaultDarkThreshold: int := 70
  const DefaultBrightness: int := 0
  const DefaultContrast: real := 1.0
  const MaxStable: nat := 3

  /** `max(lo, min(hi, v))`. */
  function Clamp(lo: int, hi: int, v: int): (c: int)
    requires lo <= hi
    ensures lo <= c <= hi
    ensures lo <= v <= hi ==> c == v
    ensures v < lo ==> c == lo
    ensures v > hi ==> c == hi
  {
    if v > hi then hi else if v < lo then lo else v
  }

  /** Python `int(a / n)` for a positive count: the quotient truncated toward zero. */
  function TruncDiv(a: int, n: int): (q: int)
    requires n > 0
    ensures a >= 0 ==> 0 <= a - q * n < n
    ensures a < 0 ==> -n < a - q * n <= 0
  {
    if a >= 0 then a / n else -((-a) / n)
  }

  lemma MulCancel(x: int, y: int, n: int)
    requires n > 0
    ensures x * n <= y * n ==> x <= y
    ensures x * n < y * n ==> x < y
  {
    if x > y {
      assert x * n - y * n == (x - y) * n;
    }
  }

  /** Floor division of a value between lo * n and hi * n stays between lo and hi. */
  lemma FloorDivBounds(a: int, n: int, lo: int, hi: int)
    requires n > 0 && lo * n <= a <= hi * n
    ensures lo <= a / n <= hi
  {
    var q, m := a / n, a % n;
    assert a == q * n + m && 0 <= m < n;
    assert (q + 1) * n == q * n + n;
    MulCancel(q, hi, n);
    MulCancel(lo, q + 1, n);
  }

  lemma TruncDivBounds(a: int, n: int, lo: int, hi: int)
    requires n > 0 && lo * n <= a <= hi * n
    ensures lo <= TruncDiv(a, n) <= hi
  {
    if a >= 0 {
      FloorDivBounds(a, n, lo, hi);
    } else {
      assert (-hi) * n <= -a <= (-lo) * n;
      FloorDivBounds(-a, n, -hi, -lo);
    }
  }

  function SumX(s: seq<Circle>): int {
    if s == [] then 0 else SumX(s[..|s| - 1]) + s[|s| - 1].x
  }

  function SumY(s: seq<Circle>): int {
    if s == [] then 0 else SumY(s[..|s| - 1]) + s[|s| - 1].y
  }

  function SumR(s: seq<Circle>): int {
    if s == [] then 0 else SumR(s[..|s| - 1]) + s[|s| - 1].r
  }

  /** `int(np.mean(...))` of each component. */
  function Mean(s: seq<Circle>): Circle
    requires |s| > 0
  {
    Circle(TruncDiv(SumX(s), |s|), TruncDiv(SumY(s), |s|), TruncDiv(SumR(s), |s|))
  }

  /** Every entry of s lies in the box [lo, hi] on all three components. */
  ghost predicate InBox(s: seq<Circle>, lo: Circle, hi: Circle) {
    forall i :: 0 <= i < |s| ==>
      lo.x <= s[i].x <= hi.x && lo.y <= s[i].y <= hi.y && lo.r <= s[i].r <= hi.r
  }

  lemma IntBoxStep(sum: int, v: int, n: int, lo: int, hi: int)
    requires lo * n <= sum <= hi * n && lo <= v <= hi
    ensures lo * (n + 1) <= sum + v <= hi * (n + 1)
  {
    assert lo * (n + 1) == lo * n + lo;
    assert hi * (n + 1) == hi * n + hi;
  }

  lemma {:induction false} SumXInBox(s: seq<Circle>, lo: int, hi: int)
    requires forall i :: 0 <= i < |s| ==> lo <= s[i].x <= hi
    ensures lo * |s| <= SumX(s) <= hi * |s|
  {
    if s != [] {
      var init := s[..|s| - 1];
      assert forall i :: 0 <= i < |init| ==> init[i] == s[i];
      SumXInBox(init, lo, hi);
      assert SumX(s) == SumX(init) + s[|s| - 1].x;
      IntBoxStep(SumX(init), s[|s| - 1].x, |init|, lo, hi);
    }
  }

  lemma {:induction false} SumYInBox(s: seq<Circle>, lo: int, hi: int)
    requires forall i :: 0 <= i < |s| ==> lo <= s[i].y <= hi
    ensures lo * |s| <= SumY(s) <= hi * |s|
  {
    if s != [] {
      var init := s[..|s| - 1];
      assert forall i :: 0 <= i < |init| ==> init[i] == s[i];
      SumYInBox(init, lo, hi);
      assert SumY(s) == SumY(init) + s[|s| - 1].y;
      IntBoxStep(SumY(init), s[|s| - 1].y, |init|, lo, hi);
    }
  }

  lemma {:induction false} SumRInBox(s: seq<Circle>, lo: int, hi: int)
    requires forall i :: 0 <= i < |s| ==> lo <= s[i].r <= hi
    ensures lo * |s| <= SumR(s) <= hi * |s|
  {
    if s != [] {
      var init := s[..|s| - 1];
      assert forall i :: 0 <= i < |init| ==> init[i] == s[i];
      SumRInBox(init, lo, hi);
      assert SumR(s) == SumR(init) + s[|s| - 1].r;
      IntBoxStep(SumR(init), s[|s| - 1].r, |init|, lo, hi);
    }
  }

  /** The smoothed circle never leaves the box spanned by the detections it averages;
      in particular a window of equal detections averages to that detection. */
  lemma MeanInBox(s: seq<Circle>, lo: Circle, hi: Circle)
    requires |s| > 0 && InBox(s, lo, hi)
    ensures var m := Mean(s);
            lo.x <= m.x <= hi.x && lo.y <= m.y <= hi.y && lo.r <= m.r <= hi.r
  {
    SumXInBox(s, lo.x, hi.x);
    SumYInBox(s, lo.y, hi.y);
    SumRInBox(s, lo.r, hi.r);
    TruncDivBounds(SumX(s), |s|, lo.x, hi.x);
    TruncDivBounds(SumY(s), |s|, lo.y, hi.y);
    TruncDivBounds(SumR(s), |s|, lo.r, hi.r);
  }

  /** Centre within 20 pixels (compared squared, as both sides are whole numbers) and
      radius within 10 of the last detection. */
  predicate SmallChange(c: Circle, last: Circle) {
    (c.x - last.x) * (c.x - last.x) + (c.y - last.y) * (c.y - last.y) < 400
    && -10 < c.r - last.r < 10
  }

  /** `append` then, past MaxStable entries, `pop(0)`: a window of at most MaxStable
      entries stays so, the new detection is its last entry, and only the oldest entry
      is ever dropped. */
  function Window(stable: seq<Circle>, c: Circle): (w: seq<Circle>)
    ensures |w| >= 1 && w[|w| - 1] == c
    ensures |stable| <= MaxStable ==> |w| <= MaxStable
    ensures |stable| < MaxStable ==> w == stable + [c]
    ensures |stable| >= MaxStable ==> w == stable[1..] + [c]
  {
    var s := stable + [c];
    if |s| > MaxStable then s[1..] else s
  }

  class SimpleDartboardDetector {
    var dartboardCenter: Option<(int, int)>
    var dartboardRadius: Option<int>
    var lastDetection: Option<Circle>
    var detectionCount: nat
    var stableDetections: seq<Circle>
    const maxStable: nat
    var darkThreshold: int
    var brightnessAdjust: int
    var contrastAdjust: real

    ghost predicate Valid()
      reads this
    {
      && maxStable == MaxStable
      && |stableDetections| <= maxStable
      && (lastDetection.None? ==> dartboardCenter.None? && dartboardRadius.None? && detectionCount == 0)
      && (lastDetection.Some? ==>
            dartboardCenter == Some((lastDetection.value.x, lastDetection.value.y))
            && dartboardRadius == Some(lastDetection.value.r) && detectionCount > 0)
    }

    /** The defaults; reading the saved settings file is not part of this model. */
    constructor ()
      ensures Valid()
      ensures dartboardCenter == None && dartboardRadius == None && lastDetection == None
      ensures detectionCount == 0 && stableDetections == []
      ensures darkThreshold == DefaultDarkThreshold && brightnessAdjust == DefaultBrightness
      ensures contrastAdjust == DefaultContrast
    {
      dartboardCenter, dartboardRadius, lastDetection := None, None, None;
      detectionCount := 0;
      stableDetections := [];
      maxStable := MaxStable;
      darkThreshold, brightnessAdjust, contrastAdjust := DefaultDarkThreshold, DefaultBrightness, DefaultContrast;
    }

    /** The threshold moves by delta, clamped to [0, 255]. */
    method AdjustThreshold(delta: int)
      requires Valid()
      modifies this
      ensures Valid() && darkThreshold == Clamp(0, 255, old(darkThreshold) + delta)
      ensures brightnessAdjust == old(brightnessAdjust) && contrastAdjust == old(contrastAdjust)
      ensures lastDetection == old(lastDetection) && stableDetections == old(stableDetections)
      ensures detectionCount == old(detectionCount)
      ensures dartboardCenter == old(dartboardCenter) && dartboardRadius == old(dartboardRadius)
    {
      darkThreshold := Clamp(0, 255, darkThreshold + delta);
    }

    /** The brightness moves by delta, clamped to [-50, 50]. */
    method AdjustBrightness(delta: int)
      requires Valid()
      modifies this
      ensures Valid() && brightnessAdjust == Clamp(-50, 50, old(brightnessAdjust) + delta)
      ensures darkThreshold == old(darkThreshold) && contrastAdjust == old(contrastAdjust)
      ensures lastDetection == old(lastDetection) && stableDetections == old(stableDetections)
      ensures detectionCount == old(detectionCount)
      ensures dartboardCenter == old(dartboardCenter) && dartboardRadius == old(dartboardRadius)
    {
      brightnessAdjust := Clamp(-50, 50, brightnessAdjust + delta);
    }

    /** Back to the constructor's defaults; the detection state is kept. */
    method ResetAdjustments()
      requires Valid()
      modifies this
      ensures Valid()
      ensures darkThreshold == DefaultDarkThreshold && brightnessAdjust == DefaultBrightness
      ensures contrastAdjust == DefaultContrast
      ensures lastDetection == old(lastDetection) && stableDetections == old(stableDetections)
      ensures detectionCount == old(detectionCount)
      ensures dartboardCenter == old(dartboardCenter) && dartboardRadius == old(dartboardRadius)
    {
      darkThreshold, brightnessAdjust, contrastAdjust := DefaultDarkThreshold, DefaultBrightness, DefaultContrast;
    }

    /** The end of `detect_dartboard` once the image pipeline has chosen a circle (or
        none): the smoothing step, then the recorded detection. */
    method Detected(best: Option<Circle>) returns (center: Option<(int, int)>, radius: Option<int>)
      requires Valid()
      modifies this
      ensures Valid()
      ensures darkThreshold == old(darkThreshold) && brightnessAdjust == old(brightnessAdjust)
      ensures contrastAdjust == old(contrastAdjust)
      ensures best.None? ==>
                center == None && radius == None && lastDetection == old(lastDetection)
                && stableDetections == old(stableDetections) && detectionCount == old(detectionCount)
      ensures best.Some? ==>
                lastDetection.Some? && center == dartboardCenter && radius == dartboardRadius
                && detectionCount == old(detectionCount) + 1
      ensures best.Some? && old(lastDetection).None? ==>
                stableDetections == old(stableDetections) && lastDetection == best
      ensures best.Some? && old(lastDetection).Some? && SmallChange(best.value, old(lastDetection).value) ==>
                && stableDetections == Window(old(stableDetections), best.value)
                && lastDetection == Some(if |stableDetections| >= 2 then Mean(stableDetections) else best.value)
      ensures best.Some? && old(lastDetection).Some? && !SmallChange(best.value, old(lastDetection).value) ==>
                stableDetections == [best.value] && lastDetection == best
    {
      if best.None? {
        return None, None;
      }
      var c := best.value;
      if lastDetection.Some? {
        if SmallChange(c, lastDetection.value) {
          stableDetections := stableDetections + [c];
          if |stableDetections| > maxStable {
            stableDetections := stableDetections[1..];
          }
          if |stableDetections| >= 2 {
            c := Mean(stableDetections);
          }
        } else {
          stableDetections := [c];
        }
      }
      lastDetection := Some(c);
      dartboardCenter := Some((c.x, c.y));
      dartboardRadius := Some(c.r);
      detectionCount := detectionCount + 1;
      return dartboardCenter, dartboardRadius;
    }
  }
}
