/** The collaborators of the visit pipeline that are not part of this model: the
    score keeper (`scorer`) and the board geometry (`GetScores`). Their members appear
    with what the pipeline relies on; the calls into the score keeper are logged. */
module Scorers {
  import opened Geometry

  /** `get_scores.GetScores`: the homography fit, the projection onto the board plane,
      and the labels (with total) of the board-plane points. The homography is a
      flat list of matrix entries. */
  datatype GetScores = GetScores(
    findHomography: (seq<Point>, real) -> seq<real>,
    transformToBoardplane: (seq<real>, seq<Point>, real) -> seq<Point>,
    score: seq<Point> -> (seq<string>, int))

  class Scorer {
    /** The score still needed by each player. */
    var scores: seq<int>
    var currentPlayer: nat
    /** `get_score_for_dart`. */
    const scoreForDart: string -> int
    /** The totals passed to `read_score`, in call order. */
    ghost var readScores: seq<int>
    /** The label lists passed to `commit_score`, in call order. */
    ghost var commits: seq<seq<string>>

    ghost predicate Valid()
      reads this
    {
      currentPlayer < |scores|
    }

    constructor (scores: seq<int>, currentPlayer: nat, scoreForDart: string -> int)
      requires currentPlayer < |scores|
      ensures Valid() && this.scores == scores && this.currentPlayer == currentPlayer
      ensures this.scoreForDart == scoreForDart && readScores == [] && commits == []
    {
      this.scores := scores;
      this.currentPlayer := currentPlayer;
      this.scoreForDart := scoreForDart;
      readScores, commits := [], [];
    }

    function CurrentScore(): int
      reads this
      requires Valid()
    {
      scores[currentPlayer]
    }

    /** Announces a visit total; the scores are not changed. */
    method ReadScore(score: int)
      modifies this
      ensures readScores == old(readScores) + [score]
      ensures scores == old(scores) && currentPlayer == old(currentPlayer) && commits == old(commits)
    {
      readScores := readScores + [score];
    }

    /** Records a visit; how it updates the scores and the turn is the score keeper's. */
    method CommitScore(darts: seq<string>)
      requires Valid()
      modifies this
      ensures Valid() && commits == old(commits) + [darts] && readScores == old(readScores)
    {
      commits := commits + [darts];
    }
  }
}
