/** What the Killer and maths games share: the points a hit is worth. */
module Games {
  import opened Darts

  /** `score = 1; if (IsDouble) score *= 2; if (IsTreble) score *= 3;` */
  function HitScore(dart: Dart): (s: int)
    ensures !dart.isDouble && !dart.isTreble ==> s == 1
    ensures dart.isDouble && !dart.isTreble ==> s == 2
    ensures !dart.isDouble && dart.isTreble ==> s == 3
    ensures dart.isDouble && dart.isTreble ==> s == 6
  {
    var s := 1;
    var s := if dart.isDouble then s * 2 else s;
    if dart.isTreble then s * 3 else s
  }

  /** For every dart that is not flagged both double and treble (every factory dart),
      the hit score is the ring multiplier of Dart.Value. */
  lemma HitScoreIsRingMultiplier(dart: Dart)
    requires !(dart.isDouble && dart.isTreble)
    ensures dart.faceValue * HitScore(dart) == dart.Value()
    ensures 1 <= HitScore(dart) <= 3
  {
  }

  function Min(a: int, b: int): int { if a <= b then a else b }

  function Max(a: int, b: int): int { if a >= b then a else b }
}
