# Interactive darts scoreboard: scoring rules and vision pipeline in Dafny

This project models the decision logic of an interactive darts scoreboard. The logic has two parts.

- **The camera pipeline (Python).**
  - `VideoProcessing` keeps a five-slot queue of the dart positions it saw in recent frames, each slot padded to three points.
  - It groups nearby sightings (distance below 0.01) and keeps groups seen at least three times, ranked by size.
  - It locks at most three darts per visit and scores them. It decides when a visit is final, and reports BUST under the out-shot rule: never leave 1, and finish on a double.
  - `_commit_score` resets the visit. The frame loop skips frames with more than two missing landmarks, and lets user calibration override detected landmarks coordinate by coordinate.
  - The dartboard detector `SimpleDartboardDetector` clamps its two adjusters and smooths detections over a window of three.
- **The scoreboard rules (C#).**
  - `Dart` is a face value with a ring. `Turn` holds three throw slots.
  - `KillerGame` gives each player a number. A player arms by hitting their own number, up to a score of 3. An armed player (a killer) hits other players' numbers to lower their scores, down to a floor of -1.
  - `MathsGame` shows an equation with a hidden answer. Hitting the answer scores 1 to 3 points, capped at 10.
  - There are two versions of `GameStateProvider`: the current one keeps the player list free of duplicates, and the older one appends unconditionally.

## How the model is organised

- `wrappers.dfy`: `Option` and `Result`.
- `text.dfy`: decimal printing and parsing of integers, with a round trip.
- `random.dfy`: `Random.Shared.Next(lo, hi)` of .NET. The draw is passed in as a seed.
- `dart.dfy`, `turn.dfy`: the `Dart` record struct and the `Turn` class.
- `players.dfy`, `game_state.dfy`, `legacy_game_state.dfy`: both game state providers.
- `host.dfy`: the host members the games call. Their bodies are not part of this model, so they are a class whose methods record what they were asked to do in ghost logs.
- `games.dfy`, `killer.dfy`, `maths.dfy`: the two games.
  - Pure rules are functions on maps proved by lemmas.
  - The game objects are classes whose methods are proved against those functions.
- `geodetect.dfy`: the detector's adjusters and smoothing window.
- `geometry.dfy`: points, and a squared distance in place of `sqrt`. The threshold 0.01 becomes 0.0001, and `SquareThreshold` proves the two comparisons agree.
  - It also holds `np.unique` (a lexicographically strictly sorted de-duplication) and the mean.
- `clustering.dfy`: the grouping, ranking, averaging and locking steps of `_process_predictions`, as specification functions. Each has a loop method where the source loops.
- `calibration.dfy`: the frame skip rule, the per-coordinate override, and `_adjust_coords` as in-place array loops.
- `visit.dfy`: the `_assess_visit` rules as functions.
- `scorer.dfy`: the external scorer and the `GetScores` functions, which are not part of this model.
- `video_processing.dfy`: the class `VideoProcessing` with the queue as an `array`. Its methods are proved against the functions above.

Conventions:
- Coordinates are exact `real`s. The `-1` sentinel of a queue slot is `None`.
- Random draws, the scorer and the homography are parameters.
- Events are ghost counters.

## Model

| member | source | states |
|---|---|---|
| Darts.Dart.Value | src/DartsScoreboardGames/Services/Models/Dart.cs:13-14 | double scores twice the face value and wins over treble; treble three times; otherwise the face value |
| Darts.Dart.ToString | src/DartsScoreboardGames/Services/Models/Dart.cs:16-19 | a non-empty display name is printed as is, otherwise "D", "T" or nothing followed by the face value |
| Darts.Single | src/DartsScoreboardGames/Services/Models/Dart.cs:22-41 | S1..S20 are worth n, carry no ring flag and print as the number |
| Darts.Double | src/DartsScoreboardGames/Services/Models/Dart.cs:44-63 | D1..D20 are worth 2n, only the double flag is set, and they print as "D" then n |
| Darts.Treble | src/DartsScoreboardGames/Services/Models/Dart.cs:66-85 | T1..T20 are worth 3n, only the treble flag is set, and they print as "T" then n |
| Darts.SpecialDarts | src/DartsScoreboardGames/Services/Models/Dart.cs:88-90 | OuterBull is worth 25 and Bull 50, each printing its name; NoScore is worth 0 and prints "0" |
| Darts.FactoryDartBounds | src/DartsScoreboardGames/Services/Models/Dart.cs:22-90 | no factory dart is both double and treble, and every factory value is in [0, 60] |
| Darts.TrebleTwentyIsMaximum | src/DartsScoreboardGames/Services/Models/Dart.cs:85 | T20 is a factory dart worth 60, and no factory dart is worth more |
| Darts.LabelRoundTrip | src/DartsScoreboardGames/Services/Models/Dart.cs:16-19 | the label of an unnamed dart with at most one ring flag reads back as the same dart |
| Text.IntRoundTrip | src/DartsScoreboardGames/Services/Models/Dart.cs:18 | the decimal text of an integer parses back to the same integer |
| Rand.Next | src/DartsScoreboardGames/Services/Games/KillerGame.cs:27-29 | the draw fails exactly when min > max, returns min when they are equal, and otherwise lies in [min, max) |
| Rand.NextReachesAll | src/DartsScoreboardGames/Services/Games/KillerGame.cs:27-29 | every value of [min, max) is drawn by some seed |
| Turns.Turn.TotalValue | src/DartsScoreboardGames/Services/Models/Turn.cs:6-9 | the sum of the values of the filled slots, empty slots counting nothing |
| Turns.Turn.Complete | src/DartsScoreboardGames/Services/Models/Turn.cs:11-14 | holds exactly when all three slots are filled |
| Turns.Turn.Remaining | src/DartsScoreboardGames/Services/Models/Turn.cs:16-19 | the number of empty slots, which is 0 exactly when the turn is complete |
| Turns.Turn.AddNext | src/DartsScoreboardGames/Services/Models/Turn.cs:38-46 | fills the first empty slot in the order first, second, third, leaving the others alone; on a complete turn it changes nothing; on a packed turn the dart is appended to the filled throws |
| Turns.Turn.GoBust | src/DartsScoreboardGames/Services/Models/Turn.cs:23-27 | afterwards the turn is bust, every slot is empty, the total is 0, three throws remain and the turn is not complete |
| Turns.Turn.End | src/DartsScoreboardGames/Services/Models/Turn.cs:29-36 | a bust turn is unchanged; otherwise every empty slot gets NoScore, filled slots and the total are unchanged, the turn is complete, and the loop runs once per empty slot, at most three times |
| GameState.WithPlayer | src/DartsScoreboardGames/Services/GameStateProvider.cs:14-16 | the player is appended only when absent, so a duplicate-free list stays duplicate-free and an existing player leaves it unchanged |
| GameState.RemoveFromDistinct | src/DartsScoreboardGames/Services/GameStateProvider.cs:21 | removing from a duplicate-free list takes the player out, keeps every other player, keeps it duplicate-free and shortens it by one exactly when the player was present |
| GameState.RemoveFirst | src/DartsScoreboardGames/Services/GameStateProvider.cs:21 | drops the first occurrence and keeps the others in order; an absent player changes nothing |
| GameState.GameStateProvider.AddPlayer | src/DartsScoreboardGames/Services/GameStateProvider.cs:13-18 | the list becomes WithPlayer of the old list, the game is untouched, and one state-changed event is raised even when nothing was added |
| GameState.GameStateProvider.RemovePlayer | src/DartsScoreboardGames/Services/GameStateProvider.cs:20-23 | the list becomes RemoveFirst of the old list, the player is no longer in it, and one event is raised |
| GameState.GameStateProvider.EndGame | src/DartsScoreboardGames/Services/GameStateProvider.cs:25-28 | the current game becomes null, the players are untouched, and one event is raised |
| GameState.GameStateProvider.SetGameScreen | src/DartsScoreboardGames/Services/GameStateProvider.cs:30-33 | the current game becomes the new definition, the players are untouched, and one event is raised |
| LegacyGameState.GameStateProvider.AddPlayer | DartsScoreboardGames/DartsScoreboardGames/Services/GameStateProvider.cs:15-18 | always appends: the length grows by one, existing players keep their positions, the game is untouched, and one event is raised |
| LegacyGameState.AddTwiceKeepsDuplicate | DartsScoreboardGames/DartsScoreboardGames/Services/GameStateProvider.cs:15-16 | adding the same player twice leaves a list holding that player twice |
| Games.HitScore | src/DartsScoreboardGames/Services/Games/KillerGame.cs:64-70 | the multiplier is 1, times 2 for a double and times 3 for a treble, so 6 when both flags are set |
| Games.HitScoreIsRingMultiplier | src/DartsScoreboardGames/Services/Games/KillerGame.cs:64-70 | for a dart without both flags the multiplier is in 1..3 and times the face value gives Dart.Value |
| Killer.FindByNumber | src/DartsScoreboardGames/Services/Games/KillerGame.cs:88-89 | returns the first player in order holding the number, and None exactly when nobody holds it |
| Killer.FindOwnNumber | src/DartsScoreboardGames/Services/Games/KillerGame.cs:88-92 | with distinct numbers, looking up a player's own number finds that player |
| Killer.KillerHit | src/DartsScoreboardGames/Services/Games/KillerGame.cs:42-46 | a hit happens only when the thrower is a killer and the face value is another player's number |
| Killer.ScoresAfter | src/DartsScoreboardGames/Services/Games/KillerGame.cs:42-73 | the scores after one dart are defined on the same players |
| Killer.ScoresStayInRange | src/DartsScoreboardGames/Services/Games/KillerGame.cs:53-72 | if every score is in [-1, 3] before a dart, it still is afterwards |
| Killer.ArmingRule | src/DartsScoreboardGames/Services/Games/KillerGame.cs:63-73 | a non-killer hitting their own number gains the multiplier, capped at 3; any other dart changes no score |
| Killer.KillingRule | src/DartsScoreboardGames/Services/Games/KillerGame.cs:42-53 | a killer hitting another player's number lowers that score by the multiplier, floored at -1, and changes no other score |
| Killer.KillerMissRule | src/DartsScoreboardGames/Services/Games/KillerGame.cs:42-61 | a killer hitting their own number, or a number nobody holds, changes no score |
| Killer.UnownedFaces | src/DartsScoreboardGames/Services/Games/KillerGame.cs:88-89 | with every number in 1..20, the faces 0, 25 and 50 belong to nobody |
| Killer.DrawNumber | src/DartsScoreboardGames/Services/Games/KillerGame.cs:27 | a drawn number is in 1..20 |
| Killer.AtMostTwentyNumbered | src/DartsScoreboardGames/Services/Games/KillerGame.cs:26-33 | distinct numbers in 1..20 can be held by at most 20 players |
| Killer.Assign | src/DartsScoreboardGames/Services/Games/KillerGame.cs:26-33 | the loop as a function of the seeds: each player in turn gets the first remaining draw nobody holds; numbers held before are kept, and only players get new ones |
| Killer.AssignNumbersDistinct | src/DartsScoreboardGames/Services/Games/KillerGame.cs:26-33 | from distinct numbers in 1..20 and players not yet numbered, the numbers stay distinct and in 1..20, and a success numbers exactly the old holders and the players |
| Killer.AssignDrawsFromSeeds | src/DartsScoreboardGames/Services/Games/KillerGame.cs:27-32 | every newly numbered player holds the draw of one of the seeds |
| Killer.AssignIgnoresLaterSeeds | src/DartsScoreboardGames/Services/Games/KillerGame.cs:26-33 | once every player is numbered no further draw is made: extra seeds change nothing |
| Killer.AssignFreshDraws | src/DartsScoreboardGames/Services/Games/KillerGame.cs:26-33 | when the first draws are pairwise distinct and held by nobody, assignment succeeds and the j-th player gets the j-th draw |
| Killer.DrawFresh | src/DartsScoreboardGames/Services/Games/KillerGame.cs:27-31 | the retry loop for one player: stops on the first draw nobody holds, which is in 1..20, and leaves exactly what Assign does for the remaining players; it fails only when the seeds run out |
| Killer.AssignNumbers | src/DartsScoreboardGames/Services/Games/KillerGame.cs:26-33 | computes Assign of the players from no numbers; the numbers are pairwise distinct and in 1..20; on success every player has one; more than 20 players never succeed |
| Killer.KillerGame.constructor | src/DartsScoreboardGames/Services/Games/KillerGame.cs:21-33 | every player starts on 0 with the assigned number |
| Killer.KillerGame.Create | src/DartsScoreboardGames/Services/Games/KillerGame.cs:20-36 | null exactly when Assign of the seeds fails; a created game is valid, with every score 0 and the numbers Assign gives |
| Killer.KillerGame.PlayerScore | src/DartsScoreboardGames/Services/Games/KillerGame.cs:94-95 | in a game that keeps its range, a score is in [-1, 3] |
| Killer.KillerGame.PlayerIsDead | src/DartsScoreboardGames/Services/Games/KillerGame.cs:82-83 | dead means below 0, which in range is exactly the floor -1; a dead player is not a killer |
| Killer.KillerGame.PlayerIsKiller | src/DartsScoreboardGames/Services/Games/KillerGame.cs:85-86 | killer means on 3, which in range is exactly the top of it |
| Killer.KillerGame.NumberForPlayer | src/DartsScoreboardGames/Services/Games/KillerGame.cs:91-92 | with numbers in range and distinct, the number is in 1..20 and no other player holds it |
| Killer.KillerGame.PlayerWithNumber | src/DartsScoreboardGames/Services/Games/KillerGame.cs:88-89 | finds a player exactly when some player holds the number, and that player holds it |
| Killer.NumberRoundTrip | src/DartsScoreboardGames/Services/Games/KillerGame.cs:88-92 | the player with a player's number is that player |
| Killer.KillerGame.EndTurn | src/DartsScoreboardGames/Services/Games/KillerGame.cs:97-103 | raises the turn-end event and asks the host for one state change and one player change; the turn is ended as Turn.End does: a bust turn keeps its slots, any other turn becomes complete with NoScore in its empty slots and its total unchanged |
| Killer.KillerGame.Score | src/DartsScoreboardGames/Services/Games/KillerGame.cs:42-73 | the scores become ScoresAfter; a hit player whose score drops below 0 is marked out; the thrower wins when every other score is below 0 |
| Killer.KillerGame.KillerDart | src/DartsScoreboardGames/Services/Games/KillerGame.cs:42-61 | a killer strikes the holder of the dart's number unless that is the thrower, so the scores become ScoresAfter; nothing changes when nobody else holds it |
| Killer.KillerGame.Strike | src/DartsScoreboardGames/Services/Games/KillerGame.cs:45-58 | the struck player loses the hit score floored at -1, is marked out exactly when PlayerIsDead then holds of them, and the thrower wins when every other player is below 0 |
| Killer.KillerGame.MarkOut | src/DartsScoreboardGames/Services/Games/KillerGame.cs:54-59 | the player below 0 is marked out once, and the thrower is recorded as the winner exactly when every other player is below 0 |
| Killer.KillerGame.Arm | src/DartsScoreboardGames/Services/Games/KillerGame.cs:62-75 | a thrower who is not a killer gains the hit score on their own number, capped at 3, and any other dart changes nothing, which is ScoresAfter |
| Killer.KillerGame.OnDart | src/DartsScoreboardGames/Services/Games/KillerGame.cs:38-80 | the dart is added to the current turn, the scores follow ScoresAfter, the out and win rules hold, and EndTurn runs exactly when the turn is then complete |
| Maths.ExpressionToString | src/DartsScoreboardGames/Services/Games/MathsGame.cs:132-133 | the text starts with the equation |
| Maths.ShowsAnswerOnlyWhenSolved | src/DartsScoreboardGames/Services/Games/MathsGame.cs:132-133 | the text after the equation is the decimal answer when solved and "??" otherwise, so it reads as the answer exactly when the expression is solved |
| Maths.DivisorPairsMultiply | src/DartsScoreboardGames/Services/Games/MathsGame.cs:117-120 | every pair built by the loop is a divisor i in [1, answer) with its cofactor, and they multiply to the answer |
| Maths.DivisorPairsIncreasing | src/DartsScoreboardGames/Services/Games/MathsGame.cs:117-120 | the pairs are listed with strictly increasing first members |
| Maths.DivisorPairsStart | src/DartsScoreboardGames/Services/Games/MathsGame.cs:117-120 | for an answer of at least 2 the first pair is (1, answer) |
| Maths.MultiplyNumbers | src/DartsScoreboardGames/Services/Games/MathsGame.cs:116-123 | answer 1 leaves the list empty and the draw throws; otherwise the result is one of the listed pairs, multiplies to the answer, and is never the last pair when there are two or more; for a prime answer the only pair (1, answer) is drawn |
| Maths.NumbersFor | src/DartsScoreboardGames/Services/Games/MathsGame.cs:102-130 | "+" gives numbers adding to the answer with the first at least 1; "-" gives numbers whose difference is the answer with the first in (answer, 100]; "x" as MultiplyNumbers; "÷" gives (answer*n, n) with n in 2..14; any other symbol is not supported |
| Maths.Generate | src/DartsScoreboardGames/Services/Games/MathsGame.cs:83-100 | a generated expression is unsolved, has its answer in 1..20 and one of the four symbols, and its equation holds; it fails exactly for answer 1 with "x" |
| Maths.DivisionOfProduct | src/DartsScoreboardGames/Services/Games/MathsGame.cs:125 | dividing answer*n by n gives back the answer exactly |
| Maths.ScoresAfter | src/DartsScoreboardGames/Services/Games/MathsGame.cs:34-43 | a dart whose face value is the answer raises the thrower by the multiplier, capped at 10; other players and other darts change nothing |
| Maths.ScoresStayInRange | src/DartsScoreboardGames/Services/Games/MathsGame.cs:34-43 | scores stay in [0, 10] and never decrease |
| Maths.MathsGame.constructor | src/DartsScoreboardGames/Services/Games/MathsGame.cs:21-29 | the game starts with one expression and every player on 0 |
| Maths.MathsGame.Create | src/DartsScoreboardGames/Services/Games/MathsGame.cs:21-29 | a created game is valid, every player is on 0, and it holds exactly one unsolved expression with its answer in 1..20 whose equation holds; there is no game exactly when the draws are answer 1 with "x" |
| Maths.MathsGame.CurrentExpression | src/DartsScoreboardGames/Services/Games/MathsGame.cs:16 | the current expression is the last one; in a valid game its equation holds and it is the only one that can be unmarked |
| Maths.MathsGame.PlayerScore | src/DartsScoreboardGames/Services/Games/MathsGame.cs:63-64 | in a game that keeps its range, a score is in [0, 10] |
| Maths.MathsGame.ResetExpression | src/DartsScoreboardGames/Services/Games/MathsGame.cs:58-61 | marks the current expression solved and appends exactly one new, unsolved, correct expression; scores are untouched |
| Maths.MathsGame.EndTurn | src/DartsScoreboardGames/Services/Games/MathsGame.cs:66-72 | raises the turn-end event and asks the host for one state change and one player change; the turn is ended as Turn.End does: a bust turn keeps its slots, any other turn becomes complete with NoScore in its empty slots and its total unchanged |
| Maths.MathsGame.Score | src/DartsScoreboardGames/Services/Games/MathsGame.cs:34-49 | the scores follow ScoresAfter; reaching 10 wins, otherwise a correct dart marks the expression solved, keeps the earlier ones and appends a new unsolved one whose equation holds; a wrong dart changes nothing |
| Maths.MathsGame.OnDart | src/DartsScoreboardGames/Services/Games/MathsGame.cs:31-56 | the dart is added to the turn; the scores follow ScoresAfter; reaching 10 wins; a correct dart that does not win marks the expression solved, keeps the earlier ones and appends a new unsolved one whose equation holds; EndTurn runs exactly when the turn is then complete |
| Geodetect.Clamp | src/pyserver/geodetect.py:269 | the result is in [lo, hi], equal to the value inside the range and to the nearer bound outside it |
| Geodetect.TruncDiv | src/pyserver/geodetect.py:137-139 | division truncating toward zero, as int() of a mean does |
| Geodetect.TruncDivBounds | src/pyserver/geodetect.py:137-139 | a truncated quotient of a sum between lo*n and hi*n lies in [lo, hi] |
| Geodetect.MeanInBox | src/pyserver/geodetect.py:136-140 | the truncated mean of detections inside a box lies in that box, component by component |
| Geodetect.Window | src/pyserver/geodetect.py:131-133 | the newest detection is appended last; the oldest is dropped once three are held, so the window never exceeds three |
| Geodetect.SimpleDartboardDetector.constructor | src/pyserver/geodetect.py:7-23 | starts with no detection, an empty window, count 0, and the defaults 70, 0 and 1.0 |
| Geodetect.SimpleDartboardDetector.AdjustThreshold | src/pyserver/geodetect.py:267-271 | the dark threshold becomes the clamp to [0, 255] of the old value plus delta; nothing else changes |
| Geodetect.SimpleDartboardDetector.AdjustBrightness | src/pyserver/geodetect.py:273-277 | the brightness becomes the clamp to [-50, 50] of the old value plus delta; nothing else changes |
| Geodetect.SimpleDartboardDetector.ResetAdjustments | src/pyserver/geodetect.py:285-291 | threshold, brightness and contrast return to 70, 0 and 1.0; the detection state is untouched |
| Geodetect.SimpleDartboardDetector.Detected | src/pyserver/geodetect.py:117-152 | no circle changes nothing; the first detection leaves the window alone; a small change slides the window and, with two or more entries, returns its truncated mean; a large change resets the window to the new circle; each detection records the result and adds one to the count |
| Geometry.SquareThreshold | src/pyserver/video_processing.py:43-44 | for a distance d, d*d < 0.0001 exactly when d < 0.01, and d*d > 0.0001 exactly when d > 0.01 |
| Geometry.CloseBoundsAxes | src/pyserver/video_processing.py:113 | closeness is reflexive and symmetric and bounds each axis difference by 0.01 |
| Geometry.Unique | src/pyserver/video_processing.py:105 | the distinct points, lexicographically strictly sorted, with exactly the members of the input |
| Geometry.MeanInBox | src/pyserver/video_processing.py:120 | the mean of points inside a box lies in that box |
| Calibration.SkipRuleOnHalves | src/pyserver/video_processing.py:215 | half the count of -1 coordinates exceeds 2 exactly when more than four coordinates are -1 |
| Calibration.SkipWhenMoreThanTwoMissing | src/pyserver/video_processing.py:215 | when a missing landmark has both coordinates -1, a frame is skipped exactly when more than two landmarks are missing |
| Calibration.Merge | src/pyserver/video_processing.py:218 | one point per landmark; a landmark the user set on both axes is the user's, and an unset one is the detected one |
| Calibration.OverrideWinsPerLandmark | src/pyserver/video_processing.py:218 | every landmark the user set replaces the detected one, and every unset landmark keeps the detection |
| Calibration.KeepInCrop | src/pyserver/video_processing.py:84 | keeps exactly the points with both coordinates in [0, 1] |
| Calibration.KeepInCropConcat | src/pyserver/video_processing.py:84 | filtering a concatenation is concatenating the filtered parts, so the original order is kept |
| Calibration.Rescaled | src/pyserver/video_processing.py:77-83 | one rescaled point per input point |
| Calibration.RescaleInPlace | src/pyserver/video_processing.py:77-83 | every row becomes (p*resolution - cropStart)/cropSize, in place |
| Calibration.AdjustCoords | src/pyserver/video_processing.py:75-86 | the calibration array becomes Rescaled of the old one; the kept darts are KeepInCrop of the rescaled darts, in order, all of them in [0, 1] |
| Clustering.PadFrame | src/pyserver/video_processing.py:89-92 | a frame of at most three points becomes exactly three slots, the points first and empty slots after; a point that is itself (-1, -1) is an empty slot, like the padding |
| Clustering.WithoutSentinels | src/pyserver/video_processing.py:89-92 | keeps exactly the points other than (-1, -1), and all of them when there is none |
| Clustering.PaddedFrameObservesPoints | src/pyserver/video_processing.py:89-92 | the points seen in a padded frame are exactly the recorded points other than (-1, -1), in order |
| Clustering.SentinelPointsLeaveFrameEmpty | src/pyserver/video_processing.py:89-98 | a frame whose only points are (-1, -1) counts as empty toward the commit threshold |
| Clustering.EmptyFrameObservesNothing | src/pyserver/video_processing.py:98 | a slot is all -1 exactly when it shows no point |
| Clustering.FirstMatch | src/pyserver/video_processing.py:112-115 | the index of the first key within 0.01 of the point, or none when no key is close |
| Clustering.KeyAlwaysMatches | src/pyserver/video_processing.py:105-115 | an observation that is itself a key always finds a close key |
| Clustering.GroupMembers | src/pyserver/video_processing.py:108-115 | a point is in the group of key k exactly when it was observed and k is its first close key |
| Clustering.EveryObservationCountedOnce | src/pyserver/video_processing.py:105-115 | when the keys are the unique observations, the group sizes add up to the number of observations |
| Clustering.FindMatch | src/pyserver/video_processing.py:112-115 | the scan stops at the first close key |
| Clustering.GroupObservations | src/pyserver/video_processing.py:106-115 | the nested loops build exactly the groups of the observations of the queue |
| Clustering.GroupFrame | src/pyserver/video_processing.py:109-115 | adding one frame's rows to the groups of earlier observations gives the groups of the observations with that frame's appended |
| Clustering.Ranked | src/pyserver/video_processing.py:117 | the surviving groups are exactly those with at least threshold members, in non-increasing size, ties in key order |
| Clustering.RankingUnique | src/pyserver/video_processing.py:117 | two size-sorted, tie-stable orders of the same groups are equal, so the ranking is the stable sort |
| Clustering.BestPredictions | src/pyserver/video_processing.py:118-120 | the loop returns the mean of each ranked group, in rank order |
| Clustering.MeanNearKey | src/pyserver/video_processing.py:113-120 | the mean of a group lies within 0.01 of its key on each axis |
| Clustering.Extend | src/pyserver/video_processing.py:125-130 | locked darts stay in place; each added dart is a best prediction farther than 0.01 from every dart before it; at most three darts; with fewer than three, every best prediction lies within 0.01 of a locked dart |
| Clustering.Lock | src/pyserver/video_processing.py:122-130 | with nothing locked the first three best predictions are taken; otherwise the locked darts are kept and extended; never more than three; with fewer than three, no best prediction is left out that is far from every locked dart |
| Clustering.LockAddsOnlyFarDarts | src/pyserver/video_processing.py:126-130 | once darts are locked, every added dart is a best prediction farther than 0.01 from all earlier ones |
| Clustering.FirstLockSkipsDistanceTest | src/pyserver/video_processing.py:122-123 | the first lock keeps two best predictions that lie within 0.01 of each other |
| Visit.NonEmptyLabels | src/pyserver/video_processing.py:47 | keeps exactly the non-empty labels |
| Visit.NonEmptyLabelsConcat | src/pyserver/video_processing.py:47 | filtering a concatenation is concatenating the filtered parts |
| Visit.NonEmptyLabelsIdempotent | src/pyserver/video_processing.py:47-67 | filtering twice is filtering once |
| Visit.Outcome | src/pyserver/video_processing.py:52-63 | BUST exactly when remaining is below 0, or is 1, or is 0 on a last dart not starting with "D"; with remaining 0 and no darts the source fails on the last label; otherwise the points remaining |
| Visit.CheckoutOnDouble | src/pyserver/video_processing.py:60-61 | a visit that ends on 0 points without BUST finishes on a double |
| Visit.BustOrFinishIsFinal | src/pyserver/video_processing.py:54-61 | a BUST or a finish on 0 always makes the visit final |
| Visit.Padded | src/pyserver/video_processing.py:226-227 | the labels followed by empty labels up to a length of three, with the same non-empty labels |
| Visit.PadLabels | src/pyserver/video_processing.py:226-227 | the loop computes Padded: the labels first, empty labels after them up to three, the non-empty labels kept |
| Scorers.Scorer.ReadScore | src/pyserver/video_processing.py:56 | logs one read of the visit score and changes nothing else |
| Scorers.Scorer.CommitScore | src/pyserver/video_processing.py:67 | logs one commit of the darts |
| VisionPipeline.Vote | src/pyserver/video_processing.py:105-120 | a queue votes for a point only with at least threshold observations, and every voted point lies within 0.01 on each axis of an observation |
| VisionPipeline.VoteSupport | src/pyserver/video_processing.py:105-120 | every ranked group has at least threshold members and its mean lies near an observation |
| VisionPipeline.GroupMeanNear | src/pyserver/video_processing.py:113-120 | the mean of a non-empty group lies within 0.01 on each axis of an observation |
| VisionPipeline.Recorded | src/pyserver/video_processing.py:89-93 | the slot count mod 5 holds the padded frame and the other four slots are unchanged |
| VisionPipeline.Restarted | src/pyserver/video_processing.py:66-72 | a commit on a snapshot: the non-empty labels are committed, no darts are locked or labelled, no wait, count 0, five empty slots that vote for nothing |
| VisionPipeline.PredictionStep | src/pyserver/video_processing.py:88-130 | no announcement; a commit happens only while waiting and is then Restarted; otherwise the frame is Recorded, the count grows by one, labels and override stay, and locked darts change only while a label is empty |
| VisionPipeline.Assessed | src/pyserver/video_processing.py:46-63 | the labels become Padded; a waiting visit stays waiting and announces nothing; at most one announcement; darts, queue, count, commits and override stay |
| VisionPipeline.FrameStep | src/pyserver/video_processing.py:223-229 | the labels are Padded of the score of the darts locked after the frame; at most one score is read and earlier reads stay; a commit happens only while waiting and commits the visit's non-empty labels; a visit not waiting records the frame and keeps its override |
| VisionPipeline.FrameResult | src/pyserver/video_processing.py:52-63 | the source fails exactly when exactly 0 remains with no labelled dart; otherwise the visit total is shown |
| VisionPipeline.CropSide | src/pyserver/video_processing.py:154 | the smaller of the two resolution components |
| VisionPipeline.VideoProcessing.constructor | src/pyserver/video_processing.py:150-164 | the start state, with the crop size the smaller resolution and the crop centred |
| VisionPipeline.VideoProcessing.CommitScore | src/pyserver/video_processing.py:66-72 | commits the non-empty labels once and restores the start state: no locked darts, three empty labels, no calibration override, no wait, an all -1 queue and count 0 |
| VisionPipeline.CommitRestartsVisit | src/pyserver/video_processing.py:66-163 | the restored state has no locked darts, no labels, no wait, count 0, five empty slots and votes for nothing |
| VisionPipeline.VideoProcessing.RecordFrame | src/pyserver/video_processing.py:89-93 | more than three points raises and changes nothing; otherwise the frame is Recorded into slot count mod 5 and the count grows by one |
| VisionPipeline.VideoProcessing.CountEmptyFrames | src/pyserver/video_processing.py:96-99 | counts the all -1 slots of the queue |
| VisionPipeline.VideoProcessing.LockDarts | src/pyserver/video_processing.py:122-130 | the locked darts become Lock of the old ones and the best predictions; nothing else changes |
| VisionPipeline.VideoProcessing.VoteAndLock | src/pyserver/video_processing.py:105-130 | the locked darts become Lock of the old ones and the vote of the queue |
| VisionPipeline.VideoProcessing.ProcessPredictions | src/pyserver/video_processing.py:88-130 | more than three points raise and change nothing; otherwise the state becomes PredictionStep of the old one: the frame is recorded, a waiting visit commits exactly when at least threshold slots are empty, and it votes and locks only while some label is empty |
| VisionPipeline.VideoProcessing.VisitScore | src/pyserver/video_processing.py:48-50 | the sum of the scorer's score of each label |
| VisionPipeline.VideoProcessing.AssessVisit | src/pyserver/video_processing.py:46-63 | returns the score of the non-empty labels and their Outcome; a final visit sets the wait flag and reads the score only if the flag was clear, so at most once per visit |
| VisionPipeline.VideoProcessing.ProjectDarts | src/pyserver/video_processing.py:217-221 | the darts projected by the homography of the overridden, rescaled landmarks, from the rescaled darts inside the crop |
| VisionPipeline.VideoProcessing.ScoreVisit | src/pyserver/video_processing.py:225-229 | the labels become Padded of the scored locked darts, and the state becomes Assessed of the old one |
| VisionPipeline.VideoProcessing.ShowVisit | src/pyserver/video_processing.py:225-229 | the state becomes Assessed of the old one and the result is FrameResult of the new one |
| VisionPipeline.VideoProcessing.AcceptFrame | src/pyserver/video_processing.py:223-229 | the state becomes FrameStep of the old one and the result is FrameResult of the new one |
| VisionPipeline.VideoProcessing.ProcessFrame | src/pyserver/video_processing.py:208-229 | a frame with more than two missing landmarks changes nothing; more than three projected darts raise and change nothing; otherwise the state becomes FrameStep of the old one and the result is FrameResult of the new one; a shown score is the score of the padded labels, read at most once per frame |

## Left out

- Camera capture, YOLO inference, OpenCV drawing, the GUI, FPS timing and the debug printing every 30 frames. These are I/O and foreign calls.
- `GetScores` (YOLO output decoding, homography, board-plane transform, label scoring) is a parameter of uninterpreted functions. Its code is not part of this model.
- The score-per-dart mapping of the scorer is an uninterpreted function. The scorer's own score bookkeeping is not part of this model.
- Floating point is modelled as exact reals, `np.mean` as exact division, and `int()` of a mean as truncation toward zero.
- `Clustering.PadFrame`: a transformed dart point with only one coordinate equal to -1 is not modelled; it is kept as an observation. The source's `pred_queue != -1` flattening would then pair coordinates from different points, and its row would still not count as empty. Queue slots are either a point or empty, and a point exactly (-1, -1) is empty.
- The OpenCV image pipeline of `detect_dartboard`, `_calculate_dark_ratio`, the debug mask and the trigonometric guide lines are float image work. Only the smoothing state update is modelled.
- Loading and saving detector settings (JSON files), and the save calls inside the adjusters.
- `adjust_contrast`: a float clamp.
- `Dart.GetRandomDart`: reflection plus randomness.
- `Random.Shared` draws are seeds passed in. Killer's number draw retries through a finite list of seeds and gives up (`Create` returns null) when they run out; `Killer.Assign` states which seed each player's number comes from. The unbounded retry of the source, which never ends for more than 20 players, is not modelled.
- `async`, `Task.Delay` and event handlers. Events are ghost counters and logs.
- `Maths.MathsGame.Create`: the source lets the exception of `Generate` escape. The model returns null instead.
- `Killer.KillerGame.Create` and `Maths.MathsGame.Create` require a player list without duplicates. Both build their score dictionaries with `ToDictionary`, which throws on a repeated key, and the current `GameStateProvider` never lets a duplicate in.
- `Maths.NumbersFor` requires an answer in 1..20. Its only caller, `Generate`, draws the answer from that range.
- `VisionPipeline.VideoProcessing.ProcessFrame` requires six calibration rows, as the override's `np.where` needs matching shapes.
- `Calibration.AdjustCoords` requires a non-zero crop size. The crop size is the smaller resolution component, which the constructor requires to be positive.
- `Scorers.Scorer.ReadScore`: the scorer's code is not part of this model. The contract assumes that `read_score` only announces the total and leaves the stored scores, the current player and the commits unchanged. `ScoreVisit`, `ShowVisit`, `AcceptFrame` and `ProcessFrame` state the remaining points against the scorer after the call; that equals the value `_assess_visit` computes before it (src/pyserver/video_processing.py:52) only under this assumption.
- `Scorers.Scorer.CommitScore`: the scorer's code is not part of this model, so the contract only logs the commit. It cannot say how the stored scores or the current player change.
- `Host.GameHost.MarkPlayerOut` and `Host.GameHost.CurrentPlayerWin`: the host's code is not part of this model. Their contracts assume that neither call replaces the current turn, changes the active player or touches the player list, so the games' later steps see the turn and the thrower they started with.
- `Host.GameHost.SetNextPlayer`: the host's code is not part of this model, so the contract only counts the request. It keeps the players and says nothing about which player becomes active.
- Hosting, persistence, theming, game metadata, the web socket server, and model training and testing are outside the modelled core.
