/** The maths ("Sum Darts") game: an equation is shown with its answer hidden; a dart on
    the answer's number scores 1, 2 or 3, the first player to 10 wins, and every solved
    equation is followed by a new one. */
module Maths {
  import opened Wrappers
  import opened Players
  import opened Darts
  import opened Turns
  import opened Host
  import opened Games
  import Text
  import Rand

  const Add: char := '+'
  const Subtract: char := '-'
  const Multiply: char := 'x'
  const Divide: char := '÷'

  /** The exceptions the equation generator can throw. */
  datatype Error = NotSupported | RandomOutOfRange

  /** The three random draws one `Expression.Generate` makes. */
  datatype Draws = Draws(answer: nat, symbol: nat, numbers: nat)

  /** The `Expression` record: `solved` is the C# `bool? Solved`. */
  datatype Expression = Expression(answer: int, symbol: char, numbers: (int, int), solved: Option<bool>)

  /** The shown equation is true of the hidden answer. */
  predicate EquationHolds(e: Expression) {
    var (n1, n2) := e.numbers;
    match e.symbol
    case '+' => n1 + n2 == e.answer
    case '-' => n1 - n2 == e.answer
    case 'x' => n1 * n2 == e.answer
    case '÷' => n2 != 0 && n1 == e.answer * n2 && n1 / n2 == e.answer
    case _ => false
  }

  /** The equation part of the display: "n1 S n2 = ". */
  function Equation(e: Expression): string {
    Text.IntToString(e.numbers.0) + " " + [e.symbol] + " " + Text.IntToString(e.numbers.1) + " = "
  }

  /** `ToString`: the equation followed by the answer once solved, else "??". */
  function ExpressionToString(e: Expression): (s: string)
    ensures |s| > |Equation(e)| && s[..|Equation(e)|] == Equation(e)
  {
    Equation(e) + (if e.solved == Some(true) then Text.IntToString(e.answer) else "??")
  }

  /** What follows the equation reads as the answer exactly when the expression is
      solved; an unsolved or undecided one shows no number. */
  lemma ShowsAnswerOnlyWhenSolved(e: Expression)
    ensures e.solved == Some(true) ==> ExpressionToString(e)[|Equation(e)|..] == Text.IntToString(e.answer)
    ensures e.solved != Some(true) ==> ExpressionToString(e)[|Equation(e)|..] == "??"
    ensures var shown := ExpressionToString(e)[|Equation(e)|..];
            Text.ParseInt(shown) == if e.solved == Some(true) then Some(e.answer) else None
  {
    var shown := ExpressionToString(e)[|Equation(e)|..];
    if e.solved == Some(true) {
      assert shown == Text.IntToString(e.answer);
      Text.IntRoundTrip(e.answer);
    } else {
      assert shown == "??";
      assert !Text.IsDigit(shown[0]);
    }
  }

  /** The pairs (i, answer / i) for the divisors i of answer with 1 <= i < n, in order. */
  function DivisorPairsBelow(answer: int, n: int): seq<(int, int)>
    requires answer >= 1
    decreases n
  {
    if n <= 1 then []
    else DivisorPairsBelow(answer, n - 1) + (if answer % (n - 1) == 0 then [(n - 1, answer / (n - 1))] else [])
  }

  lemma DivisionExact(a: int, i: int)
    requires i >= 1 && a % i == 0
    ensures i * (a / i) == a
  {
  }

  /** Every pair multiplies to the answer, and its first part is a divisor below n. */
  lemma {:induction false} DivisorPairsMultiply(answer: int, n: int)
    requires answer >= 1
    ensures forall k :: 0 <= k < |DivisorPairsBelow(answer, n)| ==>
              var (i, j) := DivisorPairsBelow(answer, n)[k];
              1 <= i < n && answer % i == 0 && i * j == answer
    decreases n
  {
    if n > 1 {
      DivisorPairsMultiply(answer, n - 1);
      if answer % (n - 1) == 0 {
        DivisionExact(answer, n - 1);
      }
    }
  }

  /** The divisors come in increasing order. */
  lemma {:induction false} DivisorPairsIncreasing(answer: int, n: int)
    requires answer >= 1
    ensures forall j, k :: 0 <= j < k < |DivisorPairsBelow(answer, n)| ==>
              DivisorPairsBelow(answer, n)[j].0 < DivisorPairsBelow(answer, n)[k].0
    decreases n
  {
    if n > 1 {
      DivisorPairsIncreasing(answer, n - 1);
      DivisorPairsMultiply(answer, n - 1);
    }
  }

  /** The list is empty for 1 and starts with (1, answer) from 2 on. */
  lemma {:induction false} DivisorPairsStart(answer: int, n: int)
    requires answer >= 1 && n >= 2
    ensures |DivisorPairsBelow(answer, n)| >= 1 && DivisorPairsBelow(answer, n)[0] == (1, answer)
    decreases n
  {
    if n > 2 {
      DivisorPairsStart(answer, n - 1);
    }
  }

  /** The product case of `NumbersFor`: the divisor pairs of the answer below it, one of
      them drawn by `Next(0, count - 1)`, which never picks the last one when there are
      two or more and throws when there are none. */
  method MultiplyNumbers(answer: int, seed: nat) returns (r: Result<(int, int), Error>)
    requires 1 <= answer <= 20
    ensures answer == 1 ==> r == Err(RandomOutOfRange)
    ensures answer > 1 ==> r.Ok? && r.value.0 * r.value.1 == answer &&
                           1 <= r.value.0 < answer && answer % r.value.0 == 0
    ensures r.Ok? ==> r.value in DivisorPairsBelow(answer, answer)
    ensures var pairs := DivisorPairsBelow(answer, answer);
            |pairs| >= 2 ==> r.Ok? && r.value.0 < pairs[|pairs| - 1].0
  {
    var multiples: seq<(int, int)> := [];
    var i := 1;
    while i < answer
      invariant 1 <= i <= answer
      invariant multiples == DivisorPairsBelow(answer, i)
    {
      if answer % i == 0 {
        multiples := multiples + [(i, answer / i)];
      }
      i := i + 1;
    }
    DivisorPairsMultiply(answer, answer);
    DivisorPairsIncreasing(answer, answer);
    if answer >= 2 {
      DivisorPairsStart(answer, answer);
    }
    var index := Rand.Next(0, |multiples| - 1, seed);
    if index.Err? {
      return Err(RandomOutOfRange);
    }
    var k := index.value;
    assert multiples[k] in multiples;
    assert |multiples| >= 2 ==> k < |multiples| - 1;
    return Ok(multiples[k]);
  }

  /** `NumbersFor`: the two numbers shown for an answer and a symbol, built from the draw
      in `seed`. The answer comes from `Next(1, 21)`. */
  method NumbersFor(answer: int, symbol: char, seed: nat) returns (r: Result<(int, int), Error>)
    requires 1 <= answer <= 20
    ensures symbol !in {Add, Subtract, Multiply, Divide} ==> r == Err(NotSupported)
    ensures symbol == Add ==> r.Ok? && r.value.0 + r.value.1 == answer && 1 <= r.value.0 &&
                              (answer > 1 ==> r.value.0 < answer)
    ensures symbol == Subtract ==> r.Ok? && r.value.0 - r.value.1 == answer && answer < r.value.0 <= 100
    ensures symbol == Multiply && answer == 1 ==> r == Err(RandomOutOfRange)
    ensures symbol == Multiply && answer > 1 ==> r.Ok? && r.value.0 * r.value.1 == answer &&
                                                 1 <= r.value.0 < answer && answer % r.value.0 == 0
    ensures symbol == Multiply && r.Ok? ==> r.value in DivisorPairsBelow(answer, answer)
    ensures symbol == Multiply ==> var pairs := DivisorPairsBelow(answer, answer);
              |pairs| >= 2 ==> r.Ok? && r.value.0 < pairs[|pairs| - 1].0
    ensures symbol == Divide ==> r.Ok? && r.value == (answer * r.value.1, r.value.1) && 2 <= r.value.1 <= 14
  {
    if symbol == Add {
      var num1 := Rand.Next(1, answer, seed).value;
      return Ok((num1, answer - num1));
    } else if symbol == Subtract {
      var num1 := Rand.Next(answer + 1, 101, seed).value;
      return Ok((num1, num1 - answer));
    } else if symbol == Multiply {
      r := MultiplyNumbers(answer, seed);
    } else if symbol == Divide {
      var num2 := Rand.Next(2, 15, seed).value;
      return Ok((answer * num2, num2));
    } else {
      return Err(NotSupported);
    }
  }

  /** `Expression.Generate`: a random answer in 1..20, a random symbol and its numbers.
      It throws exactly for a product with answer 1, which has no divisor pair. */
  method Generate(draws: Draws) returns (r: Result<Expression, Error>)
    ensures r.Ok? ==> 1 <= r.value.answer <= 20 && r.value.solved == None && EquationHolds(r.value)
    ensures r.Ok? ==> r.value.symbol in {Add, Subtract, Multiply, Divide}
    ensures r.Err? ==> r == Err(RandomOutOfRange)
    ensures r.Err? <==> Rand.Next(1, 21, draws.answer) == Ok(1) && Rand.Next(0, 4, draws.symbol) == Ok(2)
  {
    var answer := Rand.Next(1, 21, draws.answer).value;
    var symbol := [Add, Subtract, Multiply, Divide][Rand.Next(0, 4, draws.symbol).value];
    var numbers := NumbersFor(answer, symbol, draws.numbers);
    if numbers.Err? {
      return Err(numbers.error);
    }
    var e := Expression(answer, symbol, numbers.value, None);
    if symbol == Divide {
      assert numbers.value.0 / numbers.value.1 == answer by {
        var n2 := numbers.value.1;
        assert numbers.value.0 == answer * n2;
        DivisionOfProduct(answer, n2);
      }
    }
    return Ok(e);
  }

  lemma DivisionOfProduct(a: int, b: int)
    requires b >= 1
    ensures (a * b) / b == a
  {
    var q, m := (a * b) / b, (a * b) % b;
    assert a * b == q * b + m && 0 <= m < b;
    assert (a - q) * b == m;
    MultipleBounds(a - q, b);
  }

  lemma MultipleBounds(k: int, b: int)
    requires b >= 1
    ensures k >= 1 ==> k * b >= b
    ensures k <= -1 ==> k * b <= -b
  {
  }

  /** The active player's score after a dart, capped at 10: only a dart on the answer's
      number scores. */
  function ScoresAfter(scores: map<Player, int>, active: Player, answer: int, dart: Dart): (r: map<Player, int>)
    requires active in scores
    ensures r.Keys == scores.Keys
    ensures forall p :: p in scores && p != active ==> r[p] == scores[p]
    ensures dart.faceValue != answer ==> r == scores
    ensures dart.faceValue == answer ==> r[active] == Min(scores[active] + HitScore(dart), 10)
  {
    if dart.faceValue == answer then scores[active := Min(scores[active] + HitScore(dart), 10)] else scores
  }

  ghost predicate ScoresInRange(scores: map<Player, int>) {
    forall p :: p in scores ==> 0 <= scores[p] <= 10
  }

  /** Scores stay in [0, 10], and only grow. */
  lemma ScoresStayInRange(scores: map<Player, int>, active: Player, answer: int, dart: Dart)
    requires active in scores && ScoresInRange(scores)
    ensures ScoresInRange(ScoresAfter(scores, active, answer, dart))
    ensures forall p :: p in scores ==> ScoresAfter(scores, active, answer, dart)[p] >= scores[p]
  {
  }

  /** The game's list of expressions: every one is a true equation, and every one but
      the current (last) one has been marked. */
  ghost predicate History(expressions: seq<Expression>) {
    && (forall i :: 0 <= i < |expressions| ==> EquationHolds(expressions[i]))
    && (forall i :: 0 <= i < |expressions| - 1 ==> expressions[i].solved.Some?)
  }

  class MathsGame {
    const host: GameHost
    var expressions: seq<Expression>
    var playerScores: map<Player, int>
    /** How many times `OnTurnEnd` has been raised. */
    ghost var turnEndEvents: nat

    ghost predicate Valid()
      reads this, host
    {
      && |expressions| > 0 && host.Valid()
      && (forall p :: p in playerScores <==> p in host.players)
      && ScoresInRange(playerScores)
      && History(expressions)
    }

    constructor (host: GameHost, first: Expression)
      requires host.Valid() && EquationHolds(first)
      ensures Valid() && this.host == host && expressions == [first]
      ensures forall p :: p in playerScores ==> playerScores[p] == 0
      ensures turnEndEvents == 0
    {
      this.host := host;
      expressions := [first];
      playerScores := map p | p in host.players :: 0;
      turnEndEvents := 0;
    }

    /** A new game: everybody on 0 and one fresh equation; null exactly when generating that
        equation throws. */
    static method Create(host: GameHost, draws: Draws) returns (game: MathsGame?)
      requires host.Valid() && NoDuplicates(host.players)
      ensures game != null ==> fresh(game) && game.Valid() && game.host == host
      ensures game != null ==> forall p :: p in game.playerScores ==> game.playerScores[p] == 0
      ensures game != null ==> && |game.expressions| == 1 && EquationHolds(game.expressions[0])
                               && game.expressions[0].solved == None
                               && 1 <= game.expressions[0].answer <= 20
      ensures game == null <==> Rand.Next(1, 21, draws.answer) == Ok(1) && Rand.Next(0, 4, draws.symbol) == Ok(2)
    {
      var first := Generate(draws);
      if first.Err? {
        return null;
      }
      game := new MathsGame(host, first.value);
    }

    /** The last expression: in a game that keeps its history, a true equation and the
        only one that can still be unmarked. */
    function CurrentExpression(): (e: Expression)
      reads this
      requires |expressions| > 0
      ensures e in expressions
      ensures History(expressions) ==> EquationHolds(e)
      ensures History(expressions) ==>
                forall i :: 0 <= i < |expressions| && expressions[i].solved == None ==> expressions[i] == e
    {
      expressions[|expressions| - 1]
    }

    /** A player's score: in a game that keeps its range, from 0 to 10. */
    function PlayerScore(player: Player): (score: int)
      reads this
      requires player in playerScores
      ensures ScoresInRange(playerScores) ==> 0 <= score <= 10
    {
      playerScores[player]
    }

    /** Marks the current expression and appends a new one; when generating the new one
        throws, the mark stays and nothing is appended. */
    method ResetExpression(solved: bool, draws: Draws) returns (r: Result<(), Error>)
      requires Valid()
      modifies this
      ensures Valid() && playerScores == old(playerScores) && turnEndEvents == old(turnEndEvents)
      ensures var n := |old(expressions)|;
              && |expressions| == n + (if r.Ok? then 1 else 0)
              && expressions[..n - 1] == old(expressions)[..n - 1]
              && expressions[n - 1] == old(expressions)[n - 1].(solved := Some(solved))
      ensures r.Ok? ==> CurrentExpression().solved == None && EquationHolds(CurrentExpression())
    {
      var n := |expressions|;
      expressions := expressions[n - 1 := expressions[n - 1].(solved := Some(solved))];
      var next := Generate(draws);
      if next.Err? {
        return Err(next.error);
      }
      expressions := expressions + [next.value];
      r := Ok(());
    }

    method EndTurn()
      requires Valid()
      modifies this, host, host.currentTurn
      ensures Valid() && expressions == old(expressions) && playerScores == old(playerScores)
      ensures host.markedOut == old(host.markedOut) && host.wins == old(host.wins)
      ensures host.forcedChanges == old(host.forcedChanges) + 1 && host.turnAdvances == old(host.turnAdvances) + 1
      ensures turnEndEvents == old(turnEndEvents) + 1
      ensures old(host.currentTurn) != null && old(host.currentTurn.Complete()) ==>
                old(host.currentTurn).Slots() == old(host.currentTurn.Slots())
      ensures old(host.currentTurn) != null && old(host.currentTurn.bust) ==>
                old(host.currentTurn).bust && old(host.currentTurn).Slots() == old(host.currentTurn.Slots())
      ensures old(host.currentTurn) != null && !old(host.currentTurn.bust) ==>
                var turn := old(host.currentTurn);
                && !turn.bust && turn.Complete() && turn.TotalValue() == old(turn.TotalValue())
                && turn.first == EndedSlot(old(turn.first)) && turn.second == EndedSlot(old(turn.second))
                && turn.third == EndedSlot(old(turn.third))
    {
      if host.currentTurn != null {
        ghost var steps := host.currentTurn.End();
      }
      host.ForceStateChange();
      host.SetNextPlayer();
      turnEndEvents := turnEndEvents + 1;
    }

    /** The score part of OnDart for the active player's dart: a dart on the answer
        scores, a score of 10 wins, any other correct dart solves the expression and
        brings a new one. */
    method Score(dart: Dart, draws: Draws) returns (r: Result<(), Error>)
      requires Valid()
      modifies this, host
      ensures Valid() && turnEndEvents == old(turnEndEvents)
      ensures host.activePlayer == old(host.activePlayer) && host.currentTurn == old(host.currentTurn)
      ensures host.forcedChanges == old(host.forcedChanges) && host.turnAdvances == old(host.turnAdvances)
      ensures host.markedOut == old(host.markedOut)
      ensures var answer := old(CurrentExpression()).answer;
              playerScores == ScoresAfter(old(playerScores), host.activePlayer, answer, dart)
      ensures var correct := dart.faceValue == old(CurrentExpression()).answer;
              var won := correct && playerScores[host.activePlayer] >= 10;
              && host.wins == old(host.wins) + (if won then [host.activePlayer] else [])
              && (!correct || won ==> expressions == old(expressions) && r.Ok?)
              && (correct && !won ==>
                    var n := |old(expressions)|;
                    && |expressions| == n + (if r.Ok? then 1 else 0)
                    && expressions[..n - 1] == old(expressions)[..n - 1]
                    && expressions[n - 1] == old(expressions)[n - 1].(solved := Some(true))
                    && (r.Ok? ==> CurrentExpression().solved == None && EquationHolds(CurrentExpression())))
    {
      var active := host.activePlayer;
      r := Ok(());
      ScoresStayInRange(playerScores, active, CurrentExpression().answer, dart);
      if dart.faceValue == CurrentExpression().answer {
        var score := HitScore(dart);
        playerScores := playerScores[active := Min(playerScores[active] + score, 10)];
        if playerScores[active] >= 10 {
          host.CurrentPlayerWin();
        } else {
          r := ResetExpression(true, draws);
        }
      }
    }

    /** One dart: added to the current turn and scored; the turn ends when it is
        complete, unless generating the new expression threw. */
    method OnDart(dart: Dart, draws: Draws) returns (r: Result<(), Error>)
      requires Valid()
      modifies this, host, host.currentTurn
      ensures Valid()
      ensures var active := old(host.activePlayer);
              var answer := old(CurrentExpression()).answer;
              playerScores == ScoresAfter(old(playerScores), active, answer, dart)
      ensures var active := old(host.activePlayer);
              var correct := dart.faceValue == old(CurrentExpression()).answer;
              var won := correct && playerScores[active] >= 10;
              && host.wins == old(host.wins) + (if won then [active] else [])
              && (!correct || won ==> expressions == old(expressions) && r.Ok?)
              && (correct && !won ==>
                    var n := |old(expressions)|;
                    && |expressions| == n + (if r.Ok? then 1 else 0)
                    && expressions[..n - 1] == old(expressions)[..n - 1]
                    && expressions[n - 1] == old(expressions)[n - 1].(solved := Some(true))
                    && (r.Ok? ==> CurrentExpression().solved == None && EquationHolds(CurrentExpression())))
      ensures var t := old(host.currentTurn);
              t != null && old(t.Packed()) && !old(t.Complete()) ==> t.Filled() == old(t.Filled()) + [dart]
      ensures var t := old(host.currentTurn);
              var ends := r.Ok? && t != null && t.Complete();
              && host.turnAdvances == old(host.turnAdvances) + (if ends then 1 else 0)
              && turnEndEvents == old(turnEndEvents) + (if ends then 1 else 0)
    {
      var turn := host.currentTurn;
      if turn != null {
        turn.AddNext(dart);
      }
      r := Score(dart, draws);
      if r.Ok? && turn != null && turn.Complete() {
        EndTurn();
      }
    }
  }
}
