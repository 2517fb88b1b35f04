/** `VideoProcessing`: the per-frame decision logic of the camera pipeline. Each frame
    brings six calibration landmarks and the detected dart points; the darts are
    projected onto the board, voted on over the last five frames, locked, labelled and
    scored, and the visit is committed once the board is seen empty again. */
module VisionPipeline {
  import opened Wrappers
  import opened Geometry
  import opened Clustering
  import opened Calibration
  import opened Visit
  import opened Scorers

  datatype Error = TooManyPoints | VisitIndexError

  /** What one frame produces for display. */
  datatype FrameOutcome = Skipped | Shown(score: int, remaining: Remaining)

  const QueueSlots: nat := 5
  const RepeatThreshold: nat := 3

  /** `-np.ones((3, 2))`. */
  function EmptySlot(): Frame {
    PadFrame([])
  }

  /** `-np.ones((6, 2))`. */
  function NoCalibration(): seq<Point> {
    seq(6, i => Sentinel)
  }

  /** The side of the square crop: `min(resolution)`. */
  function CropSide(resolution: Point): (side: real)
    ensures side <= resolution.x && side <= resolution.y
    ensures side == resolution.x || side == resolution.y
  {
    if resolution.x < resolution.y then resolution.x else resolution.y
  }

  /** The queue after a frame of up to three points is written to slot `count % 5`. */
  function Recorded(queue: seq<Frame>, count: nat, points: seq<Point>): (q: seq<Frame>)
    requires |queue| == QueueSlots && |points| <= 3
    ensures |q| == QueueSlots && q[count % QueueSlots] == PadFrame(points)
    ensures forall i :: 0 <= i < QueueSlots && i != count % QueueSlots ==> q[i] == queue[i]
  {
    queue[count % QueueSlots := PadFrame(points)]
  }

  /** The best predictions of a queue: the mean of every group around an `np.unique`
      key with at least `threshold` members, most members first. */
  function Vote(queue: seq<Frame>, threshold: nat): (best: seq<Point>)
    requires threshold >= 1
    ensures best != [] ==> threshold <= |Observations(queue)|
    ensures forall i :: 0 <= i < |best| ==>
              NearSome(best[i], Observations(queue))
  {
    var obs := Observations(queue);
    var groups := Groups(Unique(obs), obs);
    var ranked := Ranked(Counts(groups), threshold);
    VoteSupport(obs, ranked, threshold);
    Means(groups, ranked)
  }

  /** p lies within 0.01 of c on each axis. */
  predicate NearOnAxes(p: Point, c: Point) {
    c.x - 0.01 <= p.x <= c.x + 0.01 && c.y - 0.01 <= p.y <= c.y + 0.01
  }

  /** p lies within 0.01 on each axis of one of the observations. */
  predicate NearSome(p: Point, obs: seq<Point>) {
    exists o :: o in obs && NearOnAxes(p, o)
  }

  /** The mean of a non-empty group lies near an observation: the key it formed around. */
  lemma GroupMeanNear(obs: seq<Point>, k: nat)
    requires k < |Unique(obs)| && |Group(Unique(obs), obs, k)| > 0
    ensures NearSome(Mean(Group(Unique(obs), obs, k)), obs)
  {
    var keys := Unique(obs);
    MeanNearKey(keys, obs, k);
    assert keys[k] in keys;
    assert NearOnAxes(Mean(Group(keys, obs, k)), keys[k]);
  }

  /** Every ranked group has `threshold` observations, and its mean lies near one. */
  lemma VoteSupport(obs: seq<Point>, ranked: seq<nat>, threshold: nat)
    requires threshold >= 1
    requires ranked == Ranked(Counts(Groups(Unique(obs), obs)), threshold)
    ensures forall i :: 0 <= i < |ranked| ==> ranked[i] < |Unique(obs)| && |Group(Unique(obs), obs, ranked[i])| > 0
    ensures ranked != [] ==> threshold <= |obs|
    ensures forall i :: 0 <= i < |ranked| ==>
              NearSome(Means(Groups(Unique(obs), obs), ranked)[i], obs)
  {
    var keys := Unique(obs);
    var groups := Groups(keys, obs);
    var counts := Counts(groups);
    forall i | 0 <= i < |ranked|
      ensures ranked[i] < |keys| && threshold <= |Group(keys, obs, ranked[i])| <= |obs|
    {
      assert counts[ranked[i]] == |groups[ranked[i]]|;
      assert groups[ranked[i]] == Group(keys, obs, ranked[i]);
    }
    if ranked != [] {
      assert threshold <= |Group(keys, obs, ranked[0])| <= |obs|;
    }
    var best := Means(groups, ranked);
    forall i | 0 <= i < |ranked|
      ensures NearSome(best[i], obs)
    {
      GroupMeanNear(obs, ranked[i]);
      assert best[i] == Mean(Group(keys, obs, ranked[i]));
    }
  }

  /** The visit state of the pipeline as a value: the queue of recent frames and its
      write count, the locked darts and their labels, the user's landmarks, whether the
      visit waits for the darts to be removed, and what was announced and committed. */
  datatype PipelineState = PipelineState(
    queue: seq<Frame>, count: nat, coords: seq<Point>, labels: seq<string>,
    calibration: seq<Point>, waiting: bool, readScores: seq<int>, commits: seq<seq<string>>)

  /** `_commit_score` on a snapshot: the visit's labelled darts are committed and the
      visit state is what `start` set up. */
  function Restarted(s: PipelineState): (t: PipelineState)
    ensures t.commits == s.commits + [NonEmptyLabels(s.labels)] && t.readScores == s.readScores
    ensures t.coords == [] && NonEmptyLabels(t.labels) == [] && !t.waiting && t.count == 0
    ensures CountEmpty(t.queue) == QueueSlots && Observations(t.queue) == []
  {
    var blanks: seq<string> := ["", "", ""];
    assert blanks[..2] == ["", ""] && blanks[..2][..1] == [""] && blanks[..1][..0] == [];
    var empty := seq(QueueSlots, _ => EmptySlot());
    assert EmptyFrame(EmptySlot());
    EmptyQueueObservesNothing(empty);
    s.(queue := empty, count := 0, coords := [], labels := blanks, calibration := NoCalibration(),
       waiting := false, commits := s.commits + [NonEmptyLabels(s.labels)])
  }

  /** `_process_predictions` on a snapshot, for a frame of at most three points: the
      frame is recorded; a waiting visit is committed once `threshold` recorded frames
      are empty; a visit with an unlabelled dart locks the darts the queue votes for. */
  function PredictionStep(s: PipelineState, points: seq<Point>, threshold: nat): (t: PipelineState)
    requires |s.queue| == QueueSlots && |points| <= 3 && threshold >= 1
    ensures t.readScores == s.readScores
    ensures t.commits == s.commits || (s.waiting && t == Restarted(s))
    ensures !s.waiting ==> t.queue == Recorded(s.queue, s.count, points) && t.count == s.count + 1
    ensures !s.waiting ==> !t.waiting && t.labels == s.labels && t.calibration == s.calibration
    ensures !s.waiting && "" !in s.labels ==> t.coords == s.coords
  {
    var q := Recorded(s.queue, s.count, points);
    var recorded := s.(queue := q, count := s.count + 1);
    if s.waiting then
      if CountEmpty(q) >= threshold then Restarted(s) else recorded
    else if "" in s.labels then recorded.(coords := Lock(s.coords, Vote(q, threshold)))
    else recorded
  }

  /** The visit total of a snapshot's labels. */
  function VisitTotal(s: PipelineState, scoreFor: string -> int): int {
    SumScores(scoreFor, NonEmptyLabels(s.labels))
  }

  /** The labelling and `_assess_visit` on a snapshot: the labels of the locked darts,
      padded to three, replace the visit's labels; a visit not yet waiting that becomes
      final announces its total and waits for the darts to be removed. */
  function Assessed(s: PipelineState, labels: seq<string>, scoreFor: string -> int, current: int): (t: PipelineState)
    ensures t.labels == Padded(labels) && t.coords == s.coords && t.queue == s.queue && t.count == s.count
    ensures t.commits == s.commits && t.calibration == s.calibration
    ensures s.waiting ==> t.waiting && t.readScores == s.readScores
    ensures |t.readScores| <= |s.readScores| + 1
  {
    var t := s.(labels := Padded(labels));
    var total := VisitTotal(t, scoreFor);
    var final := Finalises(current - total, NonEmptyLabels(t.labels));
    t.(waiting := s.waiting || final, readScores := s.readScores + (if !s.waiting && final then [total] else []))
  }

  /** One recorded frame: the prediction step, then the labels `score` gives the
      locked darts, then the assessment against the current player's score. */
  function FrameStep(s: PipelineState, points: seq<Point>, getScores: GetScores, scoreFor: string -> int, current: int)
    : (t: PipelineState)
    requires |s.queue| == QueueSlots && |points| <= 3
    ensures t.labels == Padded(getScores.score(t.coords).0)
    ensures s.readScores <= t.readScores && |t.readScores| <= |s.readScores| + 1
    ensures t.commits == s.commits || (s.waiting && t.commits == s.commits + [NonEmptyLabels(s.labels)])
    ensures !s.waiting ==> t.queue == Recorded(s.queue, s.count, points) && t.calibration == s.calibration
  {
    var mid := PredictionStep(s, points, RepeatThreshold);
    Assessed(mid, getScores.score(mid.coords).0, scoreFor, current)
  }

  /** What an assessed frame shows: the visit total and the outcome, or the source's
      IndexError when exactly 0 would remain with no dart labelled. */
  function FrameResult(s: PipelineState, scoreFor: string -> int, current: int): (r: Result<FrameOutcome, Error>)
    ensures r.Err? <==> current == VisitTotal(s, scoreFor) && NonEmptyLabels(s.labels) == []
    ensures r.Ok? ==> r.value.Shown? && r.value.score == VisitTotal(s, scoreFor)
  {
    var total := VisitTotal(s, scoreFor);
    var outcome := Outcome(current - total, NonEmptyLabels(s.labels));
    if outcome.Err? then Err(VisitIndexError) else Ok(Shown(total, outcome.value))
  }

  /** A result built from the visit total and its outcome is the snapshot's result. */
  lemma ShownResult(s: PipelineState, scoreFor: string -> int, current: int, score: int,
                    remaining: Result<Remaining, Visit.Error>)
    requires score == VisitTotal(s, scoreFor) && remaining == Outcome(current - score, NonEmptyLabels(s.labels))
    ensures FrameResult(s, scoreFor, current) ==
            if remaining.Err? then Err(VisitIndexError) else Ok(Shown(score, remaining.value))
  {
  }

  class VideoProcessing {
    const scorer: Scorer
    const getScores: GetScores
    const resolution: Point
    const cropSize: real
    const cropStart: Point
    var dartCoordsInVisit: seq<Point>
    var dartsInVisit: seq<string>
    var userCalibration: seq<Point>
    var waitForDartRemoval: bool
    var gameOver: bool
    var numCorrections: nat
    /** The five most recent frames' predictions, three rows each. */
    var predQueue: array<Frame>
    var predQueueCount: nat
    /** The number of `read_score` calls before the current visit began. */
    ghost var readsBeforeVisit: nat

    ghost predicate Valid()
      reads this, predQueue, scorer
    {
      && predQueue.Length == QueueSlots
      && (forall i :: 0 <= i < QueueSlots ==> |predQueue[i]| == 3)
      && |dartCoordsInVisit| <= 3
      && |userCalibration| == 6
      && scorer.Valid()
      && cropSize > 0.0
      && |scorer.readScores| == readsBeforeVisit + (if waitForDartRemoval then 1 else 0)
    }

    /** The visit state `start` sets up and `_commit_score` restores. */
    ghost predicate Initial()
      reads this, predQueue
    {
      && dartCoordsInVisit == []
      && dartsInVisit == ["", "", ""]
      && userCalibration == NoCalibration()
      && !waitForDartRemoval
      && predQueue.Length == QueueSlots
      && (forall i :: 0 <= i < QueueSlots ==> predQueue[i] == EmptySlot())
      && predQueueCount == 0
    }

    /** The visit state as a value. */
    ghost function State(): PipelineState
      reads this, predQueue, scorer
    {
      PipelineState(predQueue[..], predQueueCount, dartCoordsInVisit, dartsInVisit, userCalibration,
                    waitForDartRemoval, scorer.readScores, scorer.commits)
    }

    /** The set-up in `start`, before the camera loop: a square crop of the shorter
        side, centred. */
    constructor (scorer: Scorer, getScores: GetScores, resolution: Point)
      requires scorer.Valid() && resolution.x > 0.0 && resolution.y > 0.0
      ensures Valid() && Initial() && !gameOver && numCorrections == 0
      ensures this.scorer == scorer && this.getScores == getScores && this.resolution == resolution
      ensures cropSize == CropSide(resolution)
      ensures cropStart == Point(resolution.x / 2.0 - cropSize / 2.0, resolution.y / 2.0 - cropSize / 2.0)
    {
      this.scorer := scorer;
      this.getScores := getScores;
      this.resolution := resolution;
      var size := CropSide(resolution);
      cropSize := size;
      cropStart := Point(resolution.x / 2.0 - size / 2.0, resolution.y / 2.0 - size / 2.0);
      numCorrections := 0;
      dartCoordsInVisit, dartsInVisit := [], ["", "", ""];
      userCalibration := NoCalibration();
      waitForDartRemoval := false;
      gameOver := false;
      predQueue := new Frame[QueueSlots](i => EmptySlot());
      predQueueCount := 0;
      readsBeforeVisit := |scorer.readScores|;
    }

    /** `_commit_score`: the visit's labels go to the score keeper and the visit state
        is reset to what `start` set up. */
    method CommitScore()
      requires Valid()
      modifies this, scorer
      ensures Valid() && Initial() && fresh(predQueue)
      ensures scorer.commits == old(scorer.commits) + [NonEmptyLabels(old(dartsInVisit))]
      ensures scorer.readScores == old(scorer.readScores)
      ensures gameOver == old(gameOver) && numCorrections == old(numCorrections)
      ensures State() == Restarted(old(State()))
    {
      scorer.CommitScore(NonEmptyLabels(dartsInVisit));
      dartCoordsInVisit, dartsInVisit := [], ["", "", ""];
      userCalibration := NoCalibration();
      waitForDartRemoval := false;
      predQueue := new Frame[QueueSlots](i => EmptySlot());
      predQueueCount := 0;
      readsBeforeVisit := |scorer.readScores|;
      assert predQueue[..] == seq(QueueSlots, _ => EmptySlot());
    }

    /** The first lines of `_process_predictions`: the frame, padded to three rows,
        overwrites the oldest slot. More than three points cannot be padded and raise. */
    method RecordFrame(points: seq<Point>) returns (r: Result<(), Error>)
      requires Valid()
      modifies this, predQueue
      ensures Valid() && predQueue == old(predQueue)
      ensures |points| > 3 ==> r == Err(TooManyPoints) && predQueue[..] == old(predQueue[..])
                               && predQueueCount == old(predQueueCount)
      ensures |points| <= 3 ==> r.Ok? && predQueueCount == old(predQueueCount) + 1
                                && predQueue[..] == Recorded(old(predQueue[..]), old(predQueueCount), points)
      ensures dartCoordsInVisit == old(dartCoordsInVisit) && dartsInVisit == old(dartsInVisit)
      ensures userCalibration == old(userCalibration) && waitForDartRemoval == old(waitForDartRemoval)
      ensures gameOver == old(gameOver) && numCorrections == old(numCorrections)
      ensures readsBeforeVisit == old(readsBeforeVisit)
      ensures |points| > 3 ==> State() == old(State())
      ensures |points| <= 3 ==>
                State() == old(State()).(queue := Recorded(old(predQueue[..]), old(predQueueCount), points),
                                         count := old(predQueueCount) + 1)
    {
      if |points| > 3 {
        return Err(TooManyPoints);
      }
      predQueue[predQueueCount % QueueSlots] := PadFrame(points);
      predQueueCount := predQueueCount + 1;
      r := Ok(());
    }

    /** The loop counting the all-`[-1, -1]` frames while waiting for the darts to be
        removed. */
    method CountEmptyFrames() returns (n: nat)
      requires Valid()
      ensures n == CountEmpty(predQueue[..])
    {
      n := 0;
      var i := 0;
      while i < predQueue.Length
        invariant 0 <= i <= predQueue.Length
        invariant n == CountEmpty(predQueue[..i])
      {
        assert predQueue[..i + 1][..i] == predQueue[..i];
        if EmptyFrame(predQueue[i]) {
          n := n + 1;
        }
        i := i + 1;
      }
      assert predQueue[..i] == predQueue[..];
    }

    /** The locking step over the best predictions, on the visit's locked darts. */
    method LockDarts(best: seq<Point>)
      requires Valid()
      modifies this
      ensures Valid() && dartCoordsInVisit == Lock(old(dartCoordsInVisit), best) && predQueue == old(predQueue)
      ensures dartsInVisit == old(dartsInVisit) && userCalibration == old(userCalibration)
      ensures waitForDartRemoval == old(waitForDartRemoval) && predQueueCount == old(predQueueCount)
      ensures gameOver == old(gameOver) && numCorrections == old(numCorrections)
      ensures readsBeforeVisit == old(readsBeforeVisit)
    {
      if |dartCoordsInVisit| == 0 {
        dartCoordsInVisit := best[..if |best| < 3 then |best| else 3];
        return;
      }
      var locked := dartCoordsInVisit;
      var i := 0;
      while i < |best|
        invariant 0 <= i <= |best|
        invariant |locked| <= 3
        invariant Extend(locked, best[i..]) == Extend(old(dartCoordsInVisit), best)
      {
        assert best[i..][0] == best[i] && best[i..][1..] == best[i + 1..];
        if FarFromAll(best[i], locked) {
          if |locked| == 3 {
            dartCoordsInVisit := locked;
            return;
          }
          locked := locked + [best[i]];
        }
        i := i + 1;
      }
      dartCoordsInVisit := locked;
    }

    /** The vote of `_process_predictions` on the recorded queue, when no visit is
        waiting and some dart of the visit is still unlabelled. */
    method VoteAndLock(threshold: nat)
      requires Valid() && threshold >= 1
      modifies this
      ensures Valid() && predQueue == old(predQueue)
      ensures dartCoordsInVisit == Lock(old(dartCoordsInVisit), Vote(predQueue[..], threshold))
      ensures dartsInVisit == old(dartsInVisit) && userCalibration == old(userCalibration)
      ensures waitForDartRemoval == old(waitForDartRemoval) && predQueueCount == old(predQueueCount)
      ensures gameOver == old(gameOver) && numCorrections == old(numCorrections)
      ensures readsBeforeVisit == old(readsBeforeVisit)
      ensures State() == old(State()).(coords := Lock(old(dartCoordsInVisit), Vote(predQueue[..], threshold)))
    {
      var queue := predQueue[..];
      var obs := Observations(queue);
      var unique := Unique(obs);
      var matches := GroupObservations(queue, unique);
      var ranked := Ranked(Counts(matches), threshold);
      var best := BestPredictions(matches, ranked);
      assert best == Vote(queue, threshold);
      LockDarts(best);
    }

    /** `_process_predictions`: record the frame, then either wait for an empty board
        and commit, or vote on the queue and lock darts. */
    method ProcessPredictions(transformed: seq<Point>, threshold: nat) returns (r: Result<(), Error>)
      requires Valid() && threshold >= 1
      modifies this, predQueue, scorer
      ensures Valid()
      ensures r.Err? <==> |transformed| > 3
      ensures r.Err? ==> r == Err(TooManyPoints)
      ensures r.Err? ==> && predQueue == old(predQueue) && predQueue[..] == old(predQueue[..])
                         && predQueueCount == old(predQueueCount) && dartCoordsInVisit == old(dartCoordsInVisit)
                         && dartsInVisit == old(dartsInVisit) && userCalibration == old(userCalibration)
                         && waitForDartRemoval == old(waitForDartRemoval) && scorer.commits == old(scorer.commits)
                         && scorer.scores == old(scorer.scores) && scorer.currentPlayer == old(scorer.currentPlayer)
      ensures r.Ok? ==>
                var q := Recorded(old(predQueue[..]), old(predQueueCount), transformed);
                var commit := old(waitForDartRemoval) && CountEmpty(q) >= threshold;
                && waitForDartRemoval == (old(waitForDartRemoval) && !commit)
                && (commit ==> Initial() && scorer.commits == old(scorer.commits) + [NonEmptyLabels(old(dartsInVisit))])
                && (!commit ==> predQueue[..] == q && predQueueCount == old(predQueueCount) + 1
                                && waitForDartRemoval == old(waitForDartRemoval) && scorer.commits == old(scorer.commits)
                                && dartsInVisit == old(dartsInVisit) && userCalibration == old(userCalibration)
                                && scorer.scores == old(scorer.scores) && scorer.currentPlayer == old(scorer.currentPlayer))
                && (old(waitForDartRemoval) && !commit ==> dartCoordsInVisit == old(dartCoordsInVisit))
                && (!old(waitForDartRemoval) && "" in old(dartsInVisit) ==>
                      dartCoordsInVisit == Lock(old(dartCoordsInVisit), Vote(q, threshold)))
                && (!old(waitForDartRemoval) && "" !in old(dartsInVisit) ==> dartCoordsInVisit == old(dartCoordsInVisit))
      ensures scorer.readScores == old(scorer.readScores)
      ensures gameOver == old(gameOver) && numCorrections == old(numCorrections)
      ensures r.Err? ==> State() == old(State())
      ensures r.Ok? ==> State() == PredictionStep(old(State()), transformed, threshold)
    {
      r := RecordFrame(transformed);
      if r.Err? {
        return;
      }
      if waitForDartRemoval {
        var count := CountEmptyFrames();
        if count >= threshold {
          CommitScore();
        }
      } else if "" in dartsInVisit {
        VoteAndLock(threshold);
      }
    }

    /** The scoring loop of `_assess_visit`. */
    method VisitScore(labels: seq<string>) returns (score: int)
      ensures score == SumScores(scorer.scoreForDart, labels)
    {
      score := 0;
      var i := 0;
      while i < |labels|
        invariant 0 <= i <= |labels|
        invariant score == SumScores(scorer.scoreForDart, labels[..i])
      {
        assert labels[..i + 1][..i] == labels[..i];
        score := score + scorer.scoreForDart(labels[i]);
        i := i + 1;
      }
      assert labels[..i] == labels;
    }

    /** `_assess_visit`: the visit total and what remains; a final visit is read out
        once and then waits for the darts to be removed. */
    method AssessVisit(darts: seq<string>) returns (score: int, r: Result<Remaining, Visit.Error>)
      requires Valid()
      modifies this, scorer
      ensures Valid()
      ensures score == SumScores(scorer.scoreForDart, NonEmptyLabels(darts))
      ensures var labels := NonEmptyLabels(darts);
              var remaining := old(scorer.CurrentScore()) - score;
              && r == Outcome(remaining, labels)
              && waitForDartRemoval == (old(waitForDartRemoval) || Finalises(remaining, labels))
              && scorer.readScores ==
                   old(scorer.readScores) + (if !old(waitForDartRemoval) && Finalises(remaining, labels) then [score] else [])
      ensures scorer.scores == old(scorer.scores) && scorer.currentPlayer == old(scorer.currentPlayer)
      ensures scorer.commits == old(scorer.commits)
      ensures dartCoordsInVisit == old(dartCoordsInVisit) && dartsInVisit == old(dartsInVisit)
      ensures userCalibration == old(userCalibration) && predQueueCount == old(predQueueCount)
      ensures predQueue == old(predQueue)
      ensures gameOver == old(gameOver) && numCorrections == old(numCorrections)
    {
      var labels := NonEmptyLabels(darts);
      score := VisitScore(labels);
      var remaining := scorer.scores[scorer.currentPlayer] - score;
      if remaining <= 1 || |labels| == 3 {
        if !waitForDartRemoval {
          scorer.ReadScore(score);
        }
        waitForDartRemoval := true;
      }
      r := Outcome(remaining, labels);
    }

    /** The board-plane points of a frame: the calibration landmarks and the darts are
        rescaled into the crop, the darts outside it are dropped, the user's landmarks
        override the detected ones, and the darts are projected through the homography
        of the merged landmarks. */
    function Transformed(calibration: seq<Point>, darts: seq<Point>): seq<Point>
      reads this
      requires |calibration| == 6 && |userCalibration| == 6 && cropSize != 0.0
    {
      var merged := Merge(userCalibration, Rescaled(calibration, resolution, cropStart, cropSize));
      var kept := KeepInCrop(Rescaled(darts, resolution, cropStart, cropSize));
      getScores.transformToBoardplane(getScores.findHomography(merged, cropSize), kept, cropSize)
    }

    /** The steps of the frame loop from `_adjust_coords` to `transform_to_boardplane`,
        on fresh arrays holding the detected rows. */
    method ProjectDarts(calibration: seq<Point>, darts: seq<Point>) returns (transformed: seq<Point>)
      requires Valid() && |calibration| == 6
      ensures transformed == Transformed(calibration, darts)
    {
      var cal := new Point[6](i requires 0 <= i < 6 => calibration[i]);
      var dartRows := new Point[|darts|](i requires 0 <= i < |darts| => darts[i]);
      assert cal[..] == calibration && dartRows[..] == darts;
      var kept := AdjustCoords(cal, dartRows, resolution, cropStart, cropSize);
      var merged := Merge(userCalibration, cal[..]);
      var homography := getScores.findHomography(merged, cropSize);
      transformed := getScores.transformToBoardplane(homography, kept, cropSize);
    }

    /** The steps of the frame loop after `_process_predictions`: the locked darts are
        labelled, the labels padded to three, and the visit assessed. */
    method ScoreVisit() returns (score: int, r: Result<Remaining, Visit.Error>)
      requires Valid()
      modifies this, scorer
      ensures Valid()
      ensures dartsInVisit == Padded(getScores.score(dartCoordsInVisit).0)
      ensures var labels := NonEmptyLabels(dartsInVisit);
              var remaining := scorer.CurrentScore() - score;
              && score == SumScores(scorer.scoreForDart, labels)
              && r == Outcome(remaining, labels)
              && waitForDartRemoval == (old(waitForDartRemoval) || Finalises(remaining, labels))
              && scorer.readScores ==
                   old(scorer.readScores) + (if !old(waitForDartRemoval) && Finalises(remaining, labels) then [score] else [])
      ensures scorer.scores == old(scorer.scores) && scorer.currentPlayer == old(scorer.currentPlayer)
      ensures scorer.commits == old(scorer.commits)
      ensures dartCoordsInVisit == old(dartCoordsInVisit) && userCalibration == old(userCalibration)
      ensures predQueue == old(predQueue) && predQueueCount == old(predQueueCount)
      ensures gameOver == old(gameOver) && numCorrections == old(numCorrections)
      ensures State() == Assessed(old(State()), getScores.score(old(dartCoordsInVisit)).0, scorer.scoreForDart, scorer.CurrentScore())
    {
      var (labels, _) := getScores.score(dartCoordsInVisit);
      dartsInVisit := PadLabels(labels);
      score, r := AssessVisit(dartsInVisit);
    }

    /** The frame loop after `_process_predictions`: the locked darts are labelled and
        assessed, and the frame shows the visit total and what remains. */
    method ShowVisit() returns (r: Result<FrameOutcome, Error>)
      requires Valid()
      modifies this, scorer
      ensures Valid() && predQueue == old(predQueue)
      ensures State() == Assessed(old(State()), getScores.score(old(dartCoordsInVisit)).0, scorer.scoreForDart, scorer.CurrentScore())
      ensures r == FrameResult(State(), scorer.scoreForDart, scorer.CurrentScore())
      ensures gameOver == old(gameOver) && numCorrections == old(numCorrections)
    {
      var score, remaining := ScoreVisit();
      assert score == VisitTotal(State(), scorer.scoreForDart);
      assert remaining == Outcome(scorer.CurrentScore() - score, NonEmptyLabels(State().labels));
      ShownResult(State(), scorer.scoreForDart, scorer.CurrentScore(), score, remaining);
      if remaining.Err? {
        r := Err(VisitIndexError);
      } else {
        r := Ok(Shown(score, remaining.value));
      }
    }

    /** The frame loop from `_process_predictions` on, for a frame of at most three
        board-plane points. */
    method AcceptFrame(transformed: seq<Point>) returns (r: Result<FrameOutcome, Error>)
      requires Valid() && |transformed| <= 3
      modifies this, predQueue, scorer
      ensures Valid()
      ensures State() == FrameStep(old(State()), transformed, getScores, scorer.scoreForDart, scorer.CurrentScore())
      ensures r == FrameResult(State(), scorer.scoreForDart, scorer.CurrentScore())
      ensures gameOver == old(gameOver) && numCorrections == old(numCorrections)
    {
      ghost var before := State();
      var _ := ProcessPredictions(transformed, RepeatThreshold);
      ghost var mid := State();
      assert mid == PredictionStep(before, transformed, RepeatThreshold);
      r := ShowVisit();
    }

    /** The body of the frame loop in `start` for one detection result, given the
        calibration landmarks and dart points that `process_yolo_output` extracted: a
        frame with too many missing landmarks is skipped; any other is projected and
        processed. */
    method ProcessFrame(calibration: seq<Point>, darts: seq<Point>) returns (r: Result<FrameOutcome, Error>)
      requires Valid() && |calibration| == 6
      modifies this, predQueue, scorer
      ensures Valid()
      ensures SkipFrame(calibration) ==>
                && r == Ok(Skipped) && predQueue == old(predQueue) && predQueue[..] == old(predQueue[..])
                && predQueueCount == old(predQueueCount) && dartCoordsInVisit == old(dartCoordsInVisit)
                && dartsInVisit == old(dartsInVisit) && waitForDartRemoval == old(waitForDartRemoval)
                && scorer.readScores == old(scorer.readScores) && scorer.commits == old(scorer.commits)
                && State() == old(State())
      ensures !SkipFrame(calibration) && |old(Transformed(calibration, darts))| > 3 ==>
                r == Err(TooManyPoints) && State() == old(State()) && predQueue == old(predQueue)
      ensures !SkipFrame(calibration) && |old(Transformed(calibration, darts))| <= 3 ==>
                && State() == FrameStep(old(State()), old(Transformed(calibration, darts)), getScores,
                                        scorer.scoreForDart, scorer.CurrentScore())
                && r == FrameResult(State(), scorer.scoreForDart, scorer.CurrentScore())
      ensures r.Ok? && r.value.Shown? ==>
                |dartsInVisit| >= 3 && r.value.score == SumScores(scorer.scoreForDart, NonEmptyLabels(dartsInVisit))
      ensures |scorer.readScores| <= |old(scorer.readScores)| + 1
      ensures gameOver == old(gameOver) && numCorrections == old(numCorrections)
    {
      if SkipFrame(calibration) {
        return Ok(Skipped);
      }
      var transformed := ProjectDarts(calibration, darts);
      if |transformed| > 3 {
        var recorded := ProcessPredictions(transformed, RepeatThreshold);
        r := Err(recorded.error);
      } else {
        r := AcceptFrame(transformed);
      }
    }
  }

  /** A committed visit leaves the pipeline exactly as `start` set it up, so a new
      visit starts from the same state as the first. */
  lemma CommitRestartsVisit(v: VideoProcessing)
    requires v.Initial()
    ensures v.dartCoordsInVisit == [] && NonEmptyLabels(v.dartsInVisit) == [] && !v.waitForDartRemoval
    ensures v.predQueueCount == 0 && CountEmpty(v.predQueue[..]) == QueueSlots
    ensures Vote(v.predQueue[..], RepeatThreshold) == []
  {
    var blanks: seq<string> := ["", "", ""];
    assert blanks[..2] == ["", ""] && blanks[..2][..1] == [""] && blanks[..1][..0] == [];
    assert NonEmptyLabels(blanks) == [];
    assert EmptyFrame(EmptySlot());
    EmptyQueueObservesNothing(v.predQueue[..]);
  }
}
