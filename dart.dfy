/** The `Dart` record struct of the scoreboard: a face value with a double or treble
    flag, an optional display name, and the static factory darts. */
module Darts {
  import opened Wrappers
  import Text

  /** `desc` is the C# `string? Desc`; the empty string stands for both null and "",
      which `string.IsNullOrEmpty` treats alike. */
  datatype Dart = Dart(faceValue: int, isDouble: bool, isTreble: bool, desc: string) {

    /** Points scored: the double flag wins over the treble flag. */
    function Value(): (v: int)
      ensures isDouble ==> v == 2 * faceValue
      ensures !isDouble && isTreble ==> v == 3 * faceValue
      ensures !isDouble && !isTreble ==> v == faceValue
    {
      faceValue * (if isDouble then 2 else if isTreble then 3 else 1)
    }

    /** The ring prefix printed before the face value. */
    function Prefix(): string {
      if isDouble then "D" else if isTreble then "T" else ""
    }

    /** The display name when there is one, otherwise "D", "T" or nothing, then the
        face value. */
    function ToString(): (s: string)
      ensures desc != "" ==> s == desc
      ensures desc == "" ==> s == Prefix() + Text.IntToString(faceValue)
    {
      if desc == "" then Prefix() + Text.IntToString(faceValue) else desc
    }
  }

  function Single(n: int): (d: Dart)
    requires 1 <= n <= 20
    ensures d.Value() == n && !d.isDouble && !d.isTreble
    ensures d.ToString() == Text.IntToString(n)
  {
    Dart(n, false, false, "")
  }

  function Double(n: int): (d: Dart)
    requires 1 <= n <= 20
    ensures d.Value() == 2 * n && d.isDouble && !d.isTreble
    ensures d.ToString() == "D" + Text.IntToString(n)
  {
    Dart(n, true, false, "")
  }

  function Treble(n: int): (d: Dart)
    requires 1 <= n <= 20
    ensures d.Value() == 3 * n && !d.isDouble && d.isTreble
    ensures d.ToString() == "T" + Text.IntToString(n)
  {
    Dart(n, false, true, "")
  }

  const OuterBull: Dart := Dart(25, false, false, "OuterBull")
  const Bull: Dart := Dart(50, false, false, "Bull")
  const NoScore: Dart := Dart(0, false, false, "")

  /** The darts the static members of the record struct produce. */
  ghost predicate IsFactoryDart(d: Dart) {
    || d == OuterBull || d == Bull || d == NoScore
    || exists n :: 1 <= n <= 20 && (d == Single(n) || d == Double(n) || d == Treble(n))
  }

  lemma SpecialDarts()
    ensures OuterBull.Value() == 25 && OuterBull.ToString() == "OuterBull"
    ensures Bull.Value() == 50 && Bull.ToString() == "Bull"
    ensures NoScore.Value() == 0 && NoScore.ToString() == "0"
  {
  }

  /** No factory dart is both double and treble, and every factory value is in [0, 60]. */
  lemma FactoryDartBounds(d: Dart)
    requires IsFactoryDart(d)
    ensures !(d.isDouble && d.isTreble)
    ensures 0 <= d.Value() <= 60
  {
  }

  /** Treble 20 is the highest-scoring factory dart. */
  lemma TrebleTwentyIsMaximum()
    ensures IsFactoryDart(Treble(20)) && Treble(20).Value() == 60
    ensures forall d :: IsFactoryDart(d) ==> d.Value() <= Treble(20).Value()
  {
    forall d | IsFactoryDart(d) ensures d.Value() <= 60 {
      FactoryDartBounds(d);
    }
  }

  /** Reads a label printed by ToString for a dart without a display name. */
  function ParseLabel(s: string): Option<Dart> {
    if |s| >= 1 && s[0] == 'D' && Text.ParseInt(s[1..]).Some? then
      Some(Dart(Text.ParseInt(s[1..]).value, true, false, ""))
    else if |s| >= 1 && s[0] == 'T' && Text.ParseInt(s[1..]).Some? then
      Some(Dart(Text.ParseInt(s[1..]).value, false, true, ""))
    else if Text.ParseInt(s).Some? then
      Some(Dart(Text.ParseInt(s).value, false, false, ""))
    else None
  }

  /** ToString loses nothing for a dart without a display name that is not flagged both
      double and treble: the label reads back as the same dart. */
  lemma LabelRoundTrip(d: Dart)
    requires d.desc == "" && !(d.isDouble && d.isTreble)
    ensures ParseLabel(d.ToString()) == Some(d)
  {
    var digits := Text.IntToString(d.faceValue);
    Text.IntRoundTrip(d.faceValue);
    var s := d.ToString();
    if d.isDouble || d.isTreble {
      assert s[1..] == digits;
    } else {
      assert s == digits;
      assert s[0] == '-' || Text.IsDigit(s[0]);
    }
  }
}
