/** The visit decision of the pipeline: the labels of the locked darts are summed, the
    visit is final once at most 1 point would remain or three darts are labelled, and
    the remaining score is reported as BUST under the out-shot rule (never leave 1,
    check out on a double). */
module Visit {
  import opened Wrappers

  /** What `_assess_visit` reports as `remaining`. */
  datatype Remaining = Left(points: int) | Bust

  datatype Error = IndexError

  /** `[dart for dart in darts if dart != '']`. */
  function NonEmptyLabels(labels: seq<string>): (r: seq<string>)
    ensures |r| <= |labels|
    ensures forall i :: 0 <= i < |r| ==> r[i] != ""
    ensures forall l :: l in r <==> l in labels && l != ""
  {
    if labels == [] then []
    else NonEmptyLabels(labels[..|labels| - 1]) + (if labels[|labels| - 1] != "" then [labels[|labels| - 1]] else [])
  }

  /** The filter distributes over concatenation: labels are kept or dropped one by
      one, in their original order. */
  lemma {:induction false} NonEmptyLabelsConcat(a: seq<string>, b: seq<string>)
    ensures NonEmptyLabels(a + b) == NonEmptyLabels(a) + NonEmptyLabels(b)
  {
    if b == [] {
      assert a + b == a;
    } else {
      var init, last := b[..|b| - 1], b[|b| - 1];
      assert (a + b)[..|a + b| - 1] == a + init && (a + b)[|a + b| - 1] == last;
      NonEmptyLabelsConcat(a, init);
    }
  }

  /** Filtering twice is filtering once. */
  lemma {:induction false} NonEmptyLabelsIdempotent(labels: seq<string>)
    ensures NonEmptyLabels(NonEmptyLabels(labels)) == NonEmptyLabels(labels)
  {
    if labels != [] {
      var init, last := labels[..|labels| - 1], labels[|labels| - 1];
      NonEmptyLabelsIdempotent(init);
      var r := NonEmptyLabels(init);
      assert NonEmptyLabels(labels) == r + (if last != "" then [last] else []);
      if last != "" {
        assert (r + [last])[..|r + [last]| - 1] == r;
      } else {
        assert r + [] == r;
      }
    }
  }

  /** The total of the scorer's values for the labels, in order. */
  function SumScores(scoreFor: string -> int, labels: seq<string>): int {
    if labels == [] then 0 else SumScores(scoreFor, labels[..|labels| - 1]) + scoreFor(labels[|labels| - 1])
  }

  /** The visit is final: at most 1 point would remain, or three darts are labelled. */
  predicate Finalises(remaining: int, labels: seq<string>) {
    remaining <= 1 || |labels| == 3
  }

  /** The BUST rule of `_assess_visit`; the last label is read only when exactly 0
      would remain, and there being none then is the source's IndexError. */
  function Outcome(remaining: int, labels: seq<string>): (r: Result<Remaining, Error>)
    requires forall i :: 0 <= i < |labels| ==> labels[i] != ""
    ensures r.Err? <==> remaining == 0 && labels == []
    ensures r == Ok(Bust) <==>
              remaining < 0 || remaining == 1 || (remaining == 0 && labels != [] && labels[|labels| - 1][0] != 'D')
    ensures r.Ok? && r.value.Left? ==> r.value.points == remaining
  {
    if remaining == 0 && labels == [] then Err(IndexError)
    else if (remaining == 0 && labels[|labels| - 1][0] != 'D') || remaining == 1 || remaining < 0 then Ok(Bust)
    else Ok(Left(remaining))
  }

  /** The out-shot rule: a score that is not BUST leaves at least 2, or leaves 0 after
      a last dart on a double. */
  lemma CheckoutOnDouble(remaining: int, labels: seq<string>)
    requires forall i :: 0 <= i < |labels| ==> labels[i] != ""
    ensures Outcome(remaining, labels).Ok? && Outcome(remaining, labels).value.Left? ==>
              remaining >= 2 || (remaining == 0 && labels[|labels| - 1][0] == 'D')
  {
  }

  /** Any remaining score is final once it is BUST or finished. */
  lemma BustOrFinishIsFinal(remaining: int, labels: seq<string>)
    requires forall i :: 0 <= i < |labels| ==> labels[i] != ""
    ensures Outcome(remaining, labels) == Ok(Bust) || Outcome(remaining, labels) == Ok(Left(0)) ==>
              Finalises(remaining, labels)
  {
  }

  lemma {:induction false} NoLabelsInBlanks(n: nat)
    ensures NonEmptyLabels(seq(n, _ => "")) == []
  {
    if n > 0 {
      assert seq(n, _ => "")[..n - 1] == seq(n - 1, _ => "");
      NoLabelsInBlanks(n - 1);
    }
  }

  /** The labels with empty labels appended up to three; padding never changes which
      darts the visit holds. */
  function Padded(labels: seq<string>): (padded: seq<string>)
    ensures |padded| == if |labels| < 3 then 3 else |labels|
    ensures padded[..|labels|] == labels
    ensures forall i :: |labels| <= i < |padded| ==> padded[i] == ""
    ensures NonEmptyLabels(padded) == NonEmptyLabels(labels)
  {
    if |labels| >= 3 then labels
    else
      var blanks := seq(3 - |labels|, _ => "");
      NonEmptyLabelsConcat(labels, blanks);
      NoLabelsInBlanks(3 - |labels|);
      assert (labels + blanks)[..|labels|] == labels;
      labels + blanks
  }

  /** `while len(darts_in_visit) < 3: append('')`. */
  method PadLabels(labels: seq<string>) returns (padded: seq<string>)
    ensures padded == Padded(labels)
    ensures |padded| == if |labels| < 3 then 3 else |labels|
    ensures padded[..|labels|] == labels
    ensures forall i :: |labels| <= i < |padded| ==> padded[i] == ""
    ensures NonEmptyLabels(padded) == NonEmptyLabels(labels)
  {
    padded := labels;
    while |padded| < 3
      invariant |labels| <= |padded| <= (if |labels| < 3 then 3 else |labels|)
      invariant padded[..|labels|] == labels
      invariant forall i :: |labels| <= i < |padded| ==> padded[i] == ""
      invariant NonEmptyLabels(padded) == NonEmptyLabels(labels)
      decreases 3 - |padded|
    {
      assert (padded + [""])[..|padded|] == padded;
      padded := padded + [""];
    }
  }
}
