/** The members of the game-state provider that the games call but that are not part of
    this model (`ActivePlayer`, `CurrentTurn`, `MarkPlayerOut`, `CurrentPlayerWin`,
    `ForceStateChange`, `SetNextPlayer`). Their bodies are not known: each method here
    promises only what the games rely on, and records the call in a ghost log. */
module Host {
  import opened Players
  import opened Turns

  class GameHost {
    var players: seq<Player>
    var activePlayer: Player
    var currentTurn: Turn?
    /** Players passed to MarkPlayerOut, in call order. */
    ghost var markedOut: seq<Player>
    /** The active player at each CurrentPlayerWin call. */
    ghost var wins: seq<Player>
    ghost var forcedChanges: nat
    ghost var turnAdvances: nat

    ghost predicate Valid()
      reads this
    {
      activePlayer in players
    }

    constructor (players: seq<Player>, active: Player, turn: Turn?)
      requires active in players
      ensures Valid()
      ensures this.players == players && activePlayer == active && currentTurn == turn
      ensures markedOut == [] && wins == [] && forcedChanges == 0 && turnAdvances == 0
    {
      this.players := players;
      activePlayer := active;
      currentTurn := turn;
      markedOut, wins := [], [];
      forcedChanges, turnAdvances := 0, 0;
    }

    method MarkPlayerOut(player: Player)
      modifies this
      ensures markedOut == old(markedOut) + [player]
      ensures players == old(players) && activePlayer == old(activePlayer) && currentTurn == old(currentTurn)
      ensures wins == old(wins) && forcedChanges == old(forcedChanges) && turnAdvances == old(turnAdvances)
    {
      markedOut := markedOut + [player];
    }

    method CurrentPlayerWin()
      modifies this
      ensures wins == old(wins) + [old(activePlayer)]
      ensures players == old(players) && activePlayer == old(activePlayer) && currentTurn == old(currentTurn)
      ensures markedOut == old(markedOut) && forcedChanges == old(forcedChanges) && turnAdvances == old(turnAdvances)
    {
      wins := wins + [activePlayer];
    }

    method ForceStateChange()
      modifies this
      ensures forcedChanges == old(forcedChanges) + 1
      ensures players == old(players) && activePlayer == old(activePlayer) && currentTurn == old(currentTurn)
      ensures markedOut == old(markedOut) && wins == old(wins) && turnAdvances == old(turnAdvances)
    {
      forcedChanges := forcedChanges + 1;
    }

    /** Passes the throw to another player of the game; which one is the host's choice. */
    method SetNextPlayer()
      requires Valid()
      modifies this
      ensures Valid()
      ensures turnAdvances == old(turnAdvances) + 1
      ensures players == old(players)
      ensures markedOut == old(markedOut) && wins == old(wins) && forcedChanges == old(forcedChanges)
    {
      turnAdvances := turnAdvances + 1;
    }
  }
}
