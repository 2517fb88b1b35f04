/** Killer: each player owns a number from 1 to 20; hitting your own number arms you (up
    to 3), and an armed player (a killer) takes lives from the owners of the numbers it
    hits, down to -1, where they are out. */
module Killer {
  import opened Wrappers
  import opened Players
  import opened Darts
  import opened Turns
  import opened Host
  import opened Games
  import Rand

  /** No two players share a number. */
  ghost predicate DistinctNumbers(numbers: map<Player, int>) {
    forall p, q :: p in numbers && q in numbers && p != q ==> numbers[p] != numbers[q]
  }

  ghost predicate NumbersInRange(numbers: map<Player, int>) {
    forall p :: p in numbers ==> 1 <= numbers[p] <= 20
  }

  /** `First(x => x.Value == num)` over the dictionary in its enumeration order. */
  function FindByNumber(order: seq<Player>, numbers: map<Player, int>, num: int): (r: Option<Player>)
    requires forall p :: p in order ==> p in numbers
    ensures r.Some? ==> r.value in order && numbers[r.value] == num
    ensures r.None? <==> forall p :: p in order ==> numbers[p] != num
    ensures r.Some? ==> exists i :: 0 <= i < |order| && order[i] == r.value &&
                          forall j :: 0 <= j < i ==> numbers[order[j]] != num
  {
    if order == [] then None
    else if numbers[order[0]] == num then Some(order[0])
    else
      var r := FindByNumber(order[1..], numbers, num);
      assert r.Some? ==> exists i :: 0 <= i < |order| && order[i] == r.value &&
                          forall j :: 0 <= j < i ==> numbers[order[j]] != num by {
        if r.Some? {
          var i :| 0 <= i < |order[1..]| && order[1..][i] == r.value &&
                   forall j :: 0 <= j < i ==> numbers[order[1..][j]] != num;
          assert order[i + 1] == r.value;
          assert forall j :: 0 <= j < i + 1 ==> numbers[order[j]] != num by {
            forall j | 0 <= j < i + 1 ensures numbers[order[j]] != num {
              if j > 0 { assert order[j] == order[1..][j - 1]; }
            }
          }
        }
      }
      r
  }

  /** With distinct numbers, looking up a player's own number finds that player. */
  lemma FindOwnNumber(order: seq<Player>, numbers: map<Player, int>, p: Player)
    requires forall q :: q in order ==> q in numbers
    requires DistinctNumbers(numbers) && p in order
    ensures FindByNumber(order, numbers, numbers[p]) == Some(p)
  {
  }

  /** The opponent a dart of `active` strikes: only a killer strikes, and only the owner
      of the number hit, never itself. */
  function KillerHit(order: seq<Player>, numbers: map<Player, int>, scores: map<Player, int>,
                     active: Player, dart: Dart): (r: Option<Player>)
    requires forall p :: p in order ==> p in numbers
    requires active in scores
    ensures r.Some? ==> scores[active] == 3 && r.value in order && r.value != active && numbers[r.value] == dart.faceValue
  {
    if scores[active] == 3 then
      match FindByNumber(order, numbers, dart.faceValue)
      case Some(h) => if h != active then Some(h) else None
      case None => None
    else None
  }

  /** The scores after one dart of `active`, as OnDart updates them. */
  function ScoresAfter(order: seq<Player>, numbers: map<Player, int>, scores: map<Player, int>,
                       active: Player, dart: Dart): (r: map<Player, int>)
    requires forall p :: p in order ==> p in numbers && p in scores
    requires active in scores && active in numbers
    ensures r.Keys == scores.Keys
  {
    if scores[active] == 3 then
      match KillerHit(order, numbers, scores, active, dart)
      case Some(h) => scores[h := Max(scores[h] - HitScore(dart), -1)]
      case None => scores
    else if dart.faceValue == numbers[active] then
      scores[active := Min(scores[active] + HitScore(dart), 3)]
    else scores
  }

  /** `playerScores.Where(x => x.Key != active).All(x => x.Value < 0)`. */
  predicate AllOthersOut(scores: map<Player, int>, active: Player) {
    forall p :: p in scores && p != active ==> scores[p] < 0
  }

  ghost predicate ScoresInRange(scores: map<Player, int>) {
    forall p :: p in scores ==> -1 <= scores[p] <= 3
  }

  /** Every score stays within [-1, 3]. */
  lemma ScoresStayInRange(order: seq<Player>, numbers: map<Player, int>, scores: map<Player, int>,
                          active: Player, dart: Dart)
    requires forall p :: p in order ==> p in numbers && p in scores
    requires active in scores && active in numbers
    requires ScoresInRange(scores)
    ensures ScoresInRange(ScoresAfter(order, numbers, scores, active, dart))
  {
  }

  /** A player who is not yet a killer gains the hit score on its own number, capped at 3;
      any other dart changes no score. */
  lemma ArmingRule(order: seq<Player>, numbers: map<Player, int>, scores: map<Player, int>,
                   active: Player, dart: Dart)
    requires forall p :: p in order ==> p in numbers && p in scores
    requires active in scores && active in numbers
    requires scores[active] != 3
    ensures var r := ScoresAfter(order, numbers, scores, active, dart);
            && (forall p :: p in scores && p != active ==> r[p] == scores[p])
            && r[active] == if dart.faceValue == numbers[active] then Min(scores[active] + HitScore(dart), 3) else scores[active]
  {
  }

  /** For a thrower who is not a killer, the scores after a dart as one map update. */
  lemma NonKillerScores(order: seq<Player>, numbers: map<Player, int>, scores: map<Player, int>,
                        active: Player, dart: Dart)
    requires forall p :: p in order ==> p in numbers && p in scores
    requires active in scores && active in numbers
    requires scores[active] != 3
    ensures ScoresAfter(order, numbers, scores, active, dart) ==
            if dart.faceValue == numbers[active] then scores[active := Min(scores[active] + HitScore(dart), 3)] else scores
  {
  }

  /** A killer that hits another player's number lowers that player's score by the hit
      score, never below -1, and changes no other score. */
  lemma KillingRule(order: seq<Player>, numbers: map<Player, int>, scores: map<Player, int>,
                    active: Player, dart: Dart, victim: Player)
    requires forall p :: p in order ==> p in numbers && p in scores
    requires active in scores && active in numbers
    requires DistinctNumbers(numbers)
    requires scores[active] == 3 && victim in order && victim != active && numbers[victim] == dart.faceValue
    ensures var r := ScoresAfter(order, numbers, scores, active, dart);
            && r[victim] == Max(scores[victim] - HitScore(dart), -1)
            && forall p :: p in scores && p != victim ==> r[p] == scores[p]
  {
    FindOwnNumber(order, numbers, victim);
  }

  /** A killer's dart on its own number, or on a face value nobody owns, changes nothing. */
  lemma KillerMissRule(order: seq<Player>, numbers: map<Player, int>, scores: map<Player, int>,
                       active: Player, dart: Dart)
    requires forall p :: p in order ==> p in numbers && p in scores
    requires active in scores && active in numbers && active in order
    requires DistinctNumbers(numbers)
    requires scores[active] == 3
    requires dart.faceValue == numbers[active] || forall p :: p in order ==> numbers[p] != dart.faceValue
    ensures ScoresAfter(order, numbers, scores, active, dart) == scores
  {
    if dart.faceValue == numbers[active] {
      FindOwnNumber(order, numbers, active);
    }
  }

  /** Numbers lie in 1..20, so the bulls (25, 50) and NoScore (0) never hit anybody. */
  lemma UnownedFaces(order: seq<Player>, numbers: map<Player, int>, dart: Dart)
    requires forall p :: p in order ==> p in numbers
    requires NumbersInRange(numbers)
    requires dart.faceValue == 0 || dart.faceValue == 25 || dart.faceValue == 50
    ensures FindByNumber(order, numbers, dart.faceValue) == None
  {
  }

  /** A draw of `Random.Shared.Next(1, 21)`. */
  function DrawNumber(seed: nat): (n: int)
    ensures 1 <= n <= 20
  {
    Rand.Next(1, 21, seed).value
  }

  /** The sizes of a duplicate-free list and of its set of elements agree. */
  lemma {:induction false} DistinctCardinality(s: seq<Player>)
    requires NoDuplicates(s)
    ensures |set p | p in s| == |s|
  {
    if s != [] {
      var init := s[..|s| - 1];
      assert NoDuplicates(init);
      DistinctCardinality(init);
      assert (set p | p in s) == (set p | p in init) + {s[|s| - 1]};
      assert s[|s| - 1] !in init;
    }
  }


  /** A map with distinct values has as many values as keys. */
  lemma {:induction false} DistinctValuesCardinality(numbers: map<Player, int>)
    requires DistinctNumbers(numbers)
    ensures |numbers.Values| == |numbers.Keys|
    decreases |numbers.Keys|
  {
    if numbers != map[] {
      var p :| p in numbers;
      var rest := numbers - {p};
      assert DistinctNumbers(rest);
      DistinctValuesCardinality(rest);
      forall v | v in numbers.Values ensures v in rest.Values + {numbers[p]} {
        var q :| q in numbers && numbers[q] == v;
        if q != p {
          assert q in rest && rest[q] == v;
        }
      }
      assert numbers.Values == rest.Values + {numbers[p]};
      assert numbers[p] !in rest.Values;
      assert numbers.Keys == rest.Keys + {p};
    }
  }

  /** A set of integers from lo to hi - 1 has at most hi - lo elements. */
  lemma {:induction false} BoundedSetCardinality(values: set<int>, lo: int, hi: int)
    requires forall v :: v in values ==> lo <= v < hi
    ensures |values| <= if lo <= hi then hi - lo else 0
    decreases hi - lo
  {
    if lo >= hi {
      assert values == {};
    } else {
      var smaller := values - {hi - 1};
      BoundedSetCardinality(smaller, lo, hi - 1);
      if hi - 1 in values {
        assert |smaller| == |values| - 1;
      } else {
        assert smaller == values;
      }
    }
  }

  /** Pigeonhole: distinct numbers from 1..20 can go to at most 20 players. */
  lemma AtMostTwentyNumbered(numbers: map<Player, int>)
    requires DistinctNumbers(numbers) && NumbersInRange(numbers)
    ensures |numbers.Keys| <= 20
  {
    DistinctValuesCardinality(numbers);
    forall v | v in numbers.Values ensures 1 <= v < 21 {
      var q :| q in numbers && numbers[q] == v;
    }
    BoundedSetCardinality(numbers.Values, 1, 21);
  }

  /** The number assignment of `Create` over the successive draws in `seeds`: a draw
      no player holds yet goes to the next player, a draw already taken is drawn again,
      and running out of draws before every player has a number fails (the source
      would go on drawing, forever once more than 20 players are in the game). */
  function Assign(players: seq<Player>, seeds: seq<nat>, numbers: map<Player, int>): (r: (map<Player, int>, bool))
    ensures forall p :: p in numbers && p !in players ==> p in r.0 && r.0[p] == numbers[p]
    ensures forall p :: p in r.0 ==> p in numbers || p in players
    decreases |seeds|
  {
    if players == [] then (numbers, true)
    else if seeds == [] then (numbers, false)
    else
      var number := DrawNumber(seeds[0]);
      if number in numbers.Values then Assign(players, seeds[1..], numbers)
      else Assign(players[1..], seeds[1..], numbers[players[0] := number])
  }

  lemma TailNoDuplicates(players: seq<Player>)
    requires players != [] && NoDuplicates(players)
    ensures NoDuplicates(players[1..]) && players[0] !in players[1..]
  {
    forall i, j | 0 <= i < j < |players| - 1 ensures players[1..][i] != players[1..][j] {
      assert players[1..][i] == players[i + 1] && players[1..][j] == players[j + 1];
    }
    forall i | 0 <= i < |players| - 1 ensures players[1..][i] != players[0] {
      assert players[1..][i] == players[i + 1];
    }
  }

  /** The assignment keeps the numbers distinct and in 1..20, and on success numbers
      exactly the players. */
  lemma {:induction false} AssignNumbersDistinct(players: seq<Player>, seeds: seq<nat>, numbers: map<Player, int>)
    requires NoDuplicates(players) && forall p :: p in players ==> p !in numbers
    requires DistinctNumbers(numbers) && NumbersInRange(numbers)
    ensures var (r, ok) := Assign(players, seeds, numbers);
            && DistinctNumbers(r) && NumbersInRange(r)
            && (ok ==> forall p :: p in r <==> p in numbers || p in players)
    decreases |seeds|
  {
    if players != [] && seeds != [] {
      var number := DrawNumber(seeds[0]);
      TailNoDuplicates(players);
      if number in numbers.Values {
        AssignNumbersDistinct(players, seeds[1..], numbers);
      } else {
        var next := numbers[players[0] := number];
        assert forall q :: q in numbers ==> numbers[q] != number by {
          forall q | q in numbers ensures numbers[q] != number {
            assert numbers[q] in numbers.Values;
          }
        }
        AssignNumbersDistinct(players[1..], seeds[1..], next);
      }
    }
  }

  /** Every number the assignment hands out is one of the draws. */
  lemma {:induction false} AssignDrawsFromSeeds(players: seq<Player>, seeds: seq<nat>, numbers: map<Player, int>)
    requires NoDuplicates(players)
    ensures var r := Assign(players, seeds, numbers).0;
            forall p :: p in r && p !in numbers ==> exists k :: 0 <= k < |seeds| && r[p] == DrawNumber(seeds[k])
    decreases |seeds|
  {
    if players != [] && seeds != [] {
      var number := DrawNumber(seeds[0]);
      var r := Assign(players, seeds, numbers).0;
      var next := if number in numbers.Values then numbers else numbers[players[0] := number];
      var rest := if number in numbers.Values then players else players[1..];
      TailNoDuplicates(players);
      assert r == Assign(rest, seeds[1..], next).0;
      AssignDrawsFromSeeds(rest, seeds[1..], next);
      forall p | p in r && p !in numbers ensures exists k :: 0 <= k < |seeds| && r[p] == DrawNumber(seeds[k]) {
        if p in next {
          assert p == players[0] && p !in rest;
          assert r[p] == next[p] == DrawNumber(seeds[0]);
        } else {
          var k :| 0 <= k < |seeds[1..]| && r[p] == DrawNumber(seeds[1..][k]);
          assert seeds[1..][k] == seeds[k + 1];
        }
      }
    }
  }

  /** A successful assignment uses only the draws it was given: more draws after them
      change nothing. */
  lemma {:induction false} AssignIgnoresLaterSeeds(players: seq<Player>, seeds: seq<nat>, more: seq<nat>,
                                                   numbers: map<Player, int>)
    requires Assign(players, seeds, numbers).1
    ensures Assign(players, seeds + more, numbers) == Assign(players, seeds, numbers)
    decreases |seeds|
  {
    if players != [] {
      assert (seeds + more)[0] == seeds[0] && (seeds + more)[1..] == seeds[1..] + more;
      var number := DrawNumber(seeds[0]);
      if number in numbers.Values {
        AssignIgnoresLaterSeeds(players, seeds[1..], more, numbers);
      } else {
        AssignIgnoresLaterSeeds(players[1..], seeds[1..], more, numbers[players[0] := number]);
      }
    }
  }

  lemma UpdatedValues(m: map<Player, int>, p: Player, v: int)
    ensures m[p := v].Values <= m.Values + {v}
  {
    forall w | w in m[p := v].Values ensures w in m.Values + {v} {
      var q :| q in m[p := v] && m[p := v][q] == w;
      if q != p {
        assert m[q] in m.Values;
      }
    }
  }

  /** Draws that are pairwise different and not yet held number the players in order:
      the j-th player gets the j-th draw. */
  lemma {:induction false} AssignFreshDraws(players: seq<Player>, seeds: seq<nat>, numbers: map<Player, int>)
    requires NoDuplicates(players) && |players| <= |seeds|
    requires forall j :: 0 <= j < |players| ==> DrawNumber(seeds[j]) !in numbers.Values
    requires forall i, j :: 0 <= i < j < |players| ==> DrawNumber(seeds[i]) != DrawNumber(seeds[j])
    ensures var (r, ok) := Assign(players, seeds, numbers);
            ok && forall j :: 0 <= j < |players| ==> players[j] in r && r[players[j]] == DrawNumber(seeds[j])
    decreases |seeds|
  {
    if players != [] {
      var number := DrawNumber(seeds[0]);
      var next := numbers[players[0] := number];
      TailNoDuplicates(players);
      UpdatedValues(numbers, players[0], number);
      forall j | 0 <= j < |players[1..]| ensures DrawNumber(seeds[1..][j]) !in next.Values {
        assert seeds[1..][j] == seeds[j + 1];
      }
      forall i, j | 0 <= i < j < |players[1..]| ensures DrawNumber(seeds[1..][i]) != DrawNumber(seeds[1..][j]) {
        assert seeds[1..][i] == seeds[i + 1] && seeds[1..][j] == seeds[j + 1];
      }
      AssignFreshDraws(players[1..], seeds[1..], next);
      var r := Assign(players, seeds, numbers).0;
      forall j | 0 <= j < |players| ensures players[j] in r && r[players[j]] == DrawNumber(seeds[j]) {
        if j > 0 {
          assert players[1..][j - 1] == players[j] && seeds[1..][j - 1] == seeds[j];
        }
      }
    }
  }

  /** The draw loop for one player: draw from `seeds[k..]` until a number nobody holds
      comes up, or fail when the draws run out; it is what `Assign` does for the
      first pending player. */
  method DrawFresh(pending: seq<Player>, numbers: map<Player, int>, seeds: seq<nat>, k: nat)
    returns (number: int, next: nat, found: bool)
    requires pending != [] && k <= |seeds|
    ensures k <= next <= |seeds|
    ensures found ==> 1 <= number <= 20 && number !in numbers.Values
    ensures Assign(pending, seeds[k..], numbers) ==
            if found then Assign(pending[1..], seeds[next..], numbers[pending[0] := number]) else (numbers, false)
  {
    next := k;
    found := false;
    number := 0;
    while next < |seeds| && !found
      invariant k <= next <= |seeds|
      invariant found ==> 1 <= number <= 20 && number !in numbers.Values
      invariant Assign(pending, seeds[k..], numbers) ==
                if found then Assign(pending[1..], seeds[next..], numbers[pending[0] := number])
                else Assign(pending, seeds[next..], numbers)
      decreases |seeds| - next, !found
    {
      assert seeds[next..][1..] == seeds[next + 1..];
      number := DrawNumber(seeds[next]);
      found := number !in numbers.Values;
      next := next + 1;
    }
  }

  /** The number-assignment loop of `Create`: each player draws until it gets a number
      no earlier player holds; it computes `Assign`. */
  method AssignNumbers(players: seq<Player>, seeds: seq<nat>) returns (numbers: map<Player, int>, ok: bool)
    requires NoDuplicates(players)
    ensures (numbers, ok) == Assign(players, seeds, map[])
    ensures ok ==> forall p :: p in numbers <==> p in players
    ensures DistinctNumbers(numbers) && NumbersInRange(numbers)
    ensures ok ==> |players| <= 20
    ensures |players| > 20 ==> !ok
  {
    ghost var target := Assign(players, seeds, map[]);
    AssignNumbersDistinct(players, seeds, map[]);
    numbers := map[];
    var k := 0;
    var i := 0;
    while i < |players|
      invariant 0 <= i <= |players| && 0 <= k <= |seeds|
      invariant Assign(players[i..], seeds[k..], numbers) == target
    {
      var number, found;
      number, k, found := DrawFresh(players[i..], numbers, seeds, k);
      if !found {
        return numbers, false;
      }
      assert players[i..][1..] == players[i + 1..];
      numbers := numbers[players[i] := number];
      i := i + 1;
    }
    ok := true;
    DistinctCardinality(players);
    assert numbers.Keys == set p | p in players;
    AtMostTwentyNumbered(numbers);
  }

  class KillerGame {
    const host: GameHost
    /** The players in the enumeration order of the two dictionaries. */
    var order: seq<Player>
    var playerNumbers: map<Player, int>
    var playerScores: map<Player, int>
    /** How many times `OnTurnEnd` has been raised. */
    ghost var turnEndEvents: nat

    ghost predicate Valid()
      reads this, host
    {
      && NoDuplicates(order) && host.players == order && host.Valid()
      && (forall p :: p in playerNumbers <==> p in order)
      && (forall p :: p in playerScores <==> p in order)
      && DistinctNumbers(playerNumbers) && NumbersInRange(playerNumbers)
      && ScoresInRange(playerScores)
    }

    constructor (host: GameHost, numbers: map<Player, int>)
      requires host.Valid() && NoDuplicates(host.players)
      requires forall p :: p in numbers <==> p in host.players
      requires DistinctNumbers(numbers) && NumbersInRange(numbers)
      ensures Valid() && this.host == host && order == host.players && playerNumbers == numbers
      ensures forall p :: p in playerScores ==> playerScores[p] == 0
      ensures turnEndEvents == 0
    {
      this.host := host;
      order := host.players;
      playerNumbers := numbers;
      playerScores := map p | p in host.players :: 0;
      turnEndEvents := 0;
    }

    /** A new game: everybody on 0, distinct numbers from 1 to 20; null when the draws
        in `seeds` run out before every player has a number. */
    static method Create(host: GameHost, seeds: seq<nat>) returns (game: KillerGame?)
      requires host.Valid() && NoDuplicates(host.players)
      ensures game != null ==> fresh(game) && game.Valid() && game.host == host && game.order == host.players
      ensures game != null ==> forall p :: p in game.playerScores ==> game.playerScores[p] == 0
      ensures game != null ==> |host.players| <= 20
      ensures game == null <==> !Assign(host.players, seeds, map[]).1
      ensures game != null ==> game.playerNumbers == Assign(host.players, seeds, map[]).0
    {
      var numbers, ok := AssignNumbers(host.players, seeds);
      if ok {
        game := new KillerGame(host, numbers);
      } else {
        game := null;
      }
    }

    /** A player's lives: -1 when out, up to 3 when a killer. */
    function PlayerScore(player: Player): (score: int)
      reads this
      requires player in playerScores
      ensures ScoresInRange(playerScores) ==> -1 <= score <= 3
    {
      playerScores[player]
    }

    /** A player below 0 is out; in a game that keeps its range, that is exactly the
        floor of -1, and an out player is no killer. */
    function PlayerIsDead(player: Player): (dead: bool)
      reads this
      requires player in playerScores
      ensures ScoresInRange(playerScores) ==> (dead <==> PlayerScore(player) == -1)
      ensures dead ==> !PlayerIsKiller(player)
    {
      PlayerScore(player) < 0
    }

    /** A player on 3 is a killer; in a game that keeps its range, that is the top of
        it. */
    function PlayerIsKiller(player: Player): (killer: bool)
      reads this
      requires player in playerScores
      ensures ScoresInRange(playerScores) ==> (killer <==> PlayerScore(player) >= 3)
    {
      PlayerScore(player) == 3
    }

    /** A player's board number: in a game whose numbers are distinct and in range, a
        face from 1 to 20 that no other player owns. */
    function NumberForPlayer(player: Player): (num: int)
      reads this
      requires player in playerNumbers
      ensures NumbersInRange(playerNumbers) ==> 1 <= num <= 20
      ensures DistinctNumbers(playerNumbers) ==>
                forall q :: q in playerNumbers && playerNumbers[q] == num ==> q == player
    {
      playerNumbers[player]
    }

    /** The owner of `num`, found in dictionary order; None when nobody owns it. */
    function PlayerWithNumber(num: int): (r: Option<Player>)
      reads this, host
      requires Valid()
      ensures r.Some? <==> exists p :: p in playerNumbers && playerNumbers[p] == num
      ensures r.Some? ==> r.value in playerNumbers && playerNumbers[r.value] == num
    {
      FindByNumber(order, playerNumbers, num)
    }

    method EndTurn()
      requires Valid()
      modifies this, host, host.currentTurn
      ensures Valid() && order == old(order) && playerNumbers == old(playerNumbers) && playerScores == old(playerScores)
      ensures host.markedOut == old(host.markedOut) && host.wins == old(host.wins)
      ensures host.forcedChanges == old(host.forcedChanges) + 1 && host.turnAdvances == old(host.turnAdvances) + 1
      ensures turnEndEvents == old(turnEndEvents) + 1
      ensures old(host.currentTurn) != null && old(host.currentTurn.Complete()) ==>
                old(host.currentTurn).Slots() == old(host.currentTurn.Slots())
      ensures old(host.currentTurn) != null && old(host.currentTurn.bust) ==>
                old(host.currentTurn).bust && old(host.currentTurn).Slots() == old(host.currentTurn.Slots())
      ensures old(host.currentTurn) != null && !old(host.currentTurn.bust) ==>
                var turn := old(host.currentTurn);
                && !turn.bust && turn.Complete() && turn.TotalValue() == old(turn.TotalValue())
                && turn.first == EndedSlot(old(turn.first)) && turn.second == EndedSlot(old(turn.second))
                && turn.third == EndedSlot(old(turn.third))
    {
      if host.currentTurn != null {
        ghost var steps := host.currentTurn.End();
      }
      host.ForceStateChange();
      host.SetNextPlayer();
      turnEndEvents := turnEndEvents + 1;
    }

    /** The killer branch of OnDart once `victim` is struck: the victim loses the hit
        score, floored at -1, is marked out below 0, and the thrower wins when every
        other player is then below 0. */
    method Strike(victim: Player, dart: Dart)
      requires Valid() && victim in order && victim != host.activePlayer
      modifies this, host
      ensures Valid() && order == old(order) && playerNumbers == old(playerNumbers)
      ensures turnEndEvents == old(turnEndEvents)
      ensures host.activePlayer == old(host.activePlayer) && host.currentTurn == old(host.currentTurn)
      ensures host.forcedChanges == old(host.forcedChanges) && host.turnAdvances == old(host.turnAdvances)
      ensures playerScores == old(playerScores)[victim := Max(old(playerScores)[victim] - HitScore(dart), -1)]
      ensures PlayerIsDead(victim) <==> host.markedOut == old(host.markedOut) + [victim]
      ensures var out := playerScores[victim] < 0;
              && host.markedOut == old(host.markedOut) + (if out then [victim] else [])
              && host.wins == old(host.wins) +
                   (if out && AllOthersOut(playerScores, host.activePlayer) then [host.activePlayer] else [])
    {
      var score := HitScore(dart);
      playerScores := playerScores[victim := Max(playerScores[victim] - score, -1)];
      if playerScores[victim] < 0 {
        MarkOut(victim);
      }
    }

    /** The out rule of the killer branch: a struck player below 0 is marked out, and
        the thrower wins once every other player is below 0 too. */
    method MarkOut(victim: Player)
      requires Valid() && victim in playerScores && playerScores[victim] < 0
      modifies host
      ensures Valid()
      ensures host.activePlayer == old(host.activePlayer) && host.currentTurn == old(host.currentTurn)
      ensures host.forcedChanges == old(host.forcedChanges) && host.turnAdvances == old(host.turnAdvances)
      ensures host.markedOut == old(host.markedOut) + [victim]
      ensures host.wins == old(host.wins) +
                (if AllOthersOut(playerScores, host.activePlayer) then [host.activePlayer] else [])
    {
      host.MarkPlayerOut(victim);
      if AllOthersOut(playerScores, host.activePlayer) {
        host.CurrentPlayerWin();
      }
    }

    /** The score part of OnDart for the active player's dart; `hit` is the player
        struck, if any. */
    method Score(dart: Dart) returns (hit: Option<Player>)
      requires Valid()
      modifies this, host
      ensures Valid() && order == old(order) && playerNumbers == old(playerNumbers)
      ensures turnEndEvents == old(turnEndEvents)
      ensures host.activePlayer == old(host.activePlayer) && host.currentTurn == old(host.currentTurn)
      ensures host.forcedChanges == old(host.forcedChanges) && host.turnAdvances == old(host.turnAdvances)
      ensures hit == KillerHit(order, playerNumbers, old(playerScores), host.activePlayer, dart)
      ensures playerScores == ScoresAfter(order, playerNumbers, old(playerScores), host.activePlayer, dart)
      ensures var out := hit.Some? && playerScores[hit.value] < 0;
              && host.markedOut == old(host.markedOut) + (if out then [hit.value] else [])
              && host.wins == old(host.wins) +
                   (if out && AllOthersOut(playerScores, host.activePlayer) then [host.activePlayer] else [])
    {
      if PlayerIsKiller(host.activePlayer) {
        hit := KillerDart(dart);
      } else {
        hit := None;
        Arm(dart);
      }
    }

    /** The killer branch of OnDart: the player holding the dart's number, if it is not
        the thrower, is struck. */
    method KillerDart(dart: Dart) returns (hit: Option<Player>)
      requires Valid() && PlayerIsKiller(host.activePlayer)
      modifies this, host
      ensures Valid() && order == old(order) && playerNumbers == old(playerNumbers)
      ensures turnEndEvents == old(turnEndEvents)
      ensures host.activePlayer == old(host.activePlayer) && host.currentTurn == old(host.currentTurn)
      ensures host.forcedChanges == old(host.forcedChanges) && host.turnAdvances == old(host.turnAdvances)
      ensures hit == KillerHit(order, playerNumbers, old(playerScores), host.activePlayer, dart)
      ensures playerScores == ScoresAfter(order, playerNumbers, old(playerScores), host.activePlayer, dart)
      ensures hit.None? ==> playerScores == old(playerScores) && host.markedOut == old(host.markedOut) && host.wins == old(host.wins)
      ensures hit.Some? ==> playerScores == old(playerScores)[hit.value := Max(old(playerScores)[hit.value] - HitScore(dart), -1)]
      ensures hit.Some? ==> var out := playerScores[hit.value] < 0;
              && host.markedOut == old(host.markedOut) + (if out then [hit.value] else [])
              && host.wins == old(host.wins) +
                   (if out && AllOthersOut(playerScores, host.activePlayer) then [host.activePlayer] else [])
    {
      var found := PlayerWithNumber(dart.faceValue);
      if found.Some? && found.value != host.activePlayer {
        hit := found;
        Strike(found.value, dart);
      } else {
        hit := None;
      }
    }

    /** The arming branch of OnDart, for a thrower who is not yet a killer: a dart on
        their own number gains the hit score, capped at 3; any other dart changes
        nothing. */
    method Arm(dart: Dart)
      requires Valid() && !PlayerIsKiller(host.activePlayer)
      modifies this
      ensures Valid() && order == old(order) && playerNumbers == old(playerNumbers)
      ensures turnEndEvents == old(turnEndEvents)
      ensures var active := host.activePlayer;
              dart.faceValue == playerNumbers[active] ==>
                playerScores == old(playerScores)[active := Min(old(playerScores)[active] + HitScore(dart), 3)]
      ensures dart.faceValue != playerNumbers[host.activePlayer] ==> playerScores == old(playerScores)
      ensures playerScores == ScoresAfter(order, playerNumbers, old(playerScores), host.activePlayer, dart)
    {
      var active := host.activePlayer;
      NonKillerScores(order, playerNumbers, playerScores, active, dart);
      if dart.faceValue == NumberForPlayer(active) {
        var score := HitScore(dart);
        playerScores := playerScores[active := Min(playerScores[active] + score, 3)];
      }
    }

    /** One dart: it is added to the current turn, the scores move as ScoresAfter says,
        a struck player below 0 is marked out, the thrower wins once every other player
        is below 0, and the turn ends (EndTurn) exactly when it is then complete. */
    method OnDart(dart: Dart)
      requires Valid()
      modifies this, host, host.currentTurn
      ensures Valid() && order == old(order) && playerNumbers == old(playerNumbers)
      ensures playerScores == ScoresAfter(order, playerNumbers, old(playerScores), old(host.activePlayer), dart)
      ensures var hit := KillerHit(order, playerNumbers, old(playerScores), old(host.activePlayer), dart);
              var out := hit.Some? && playerScores[hit.value] < 0;
              && host.markedOut == old(host.markedOut) + (if out then [hit.value] else [])
              && host.wins == old(host.wins) +
                   (if out && AllOthersOut(playerScores, old(host.activePlayer)) then [old(host.activePlayer)] else [])
      ensures var t := old(host.currentTurn);
              t != null && old(t.Packed()) && !old(t.Complete()) ==> t.Filled() == old(t.Filled()) + [dart]
      ensures var t := old(host.currentTurn);
              && host.turnAdvances == old(host.turnAdvances) + (if t != null && t.Complete() then 1 else 0)
              && turnEndEvents == old(turnEndEvents) + (if t != null && t.Complete() then 1 else 0)
    {
      var turn := host.currentTurn;
      if turn != null {
        turn.AddNext(dart);
      }
      var hit := Score(dart);
      if turn != null && turn.Complete() {
        EndTurn();
      }
    }
  }

  /** Looking up a player's own number finds that player. */
  lemma NumberRoundTrip(game: KillerGame, p: Player)
    requires game.Valid() && p in game.playerNumbers
    ensures game.PlayerWithNumber(game.NumberForPlayer(p)) == Some(p)
  {
    FindOwnNumber(game.order, game.playerNumbers, p);
  }
}
