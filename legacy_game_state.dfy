/** The older `GameStateProvider`: a player list with no de-duplication and a public
    current game. */
module LegacyGameState {
  import opened Wrappers
  import opened Players

  /** `record Game`. */
  datatype Game = Game

  class GameStateProvider {
    var currentGame: Option<Game>
    var players: seq<Player>
    /** How many times `OnGameStateChanged` has been raised. */
    ghost var stateChangedEvents: nat

    constructor ()
      ensures players == [] && currentGame == None && stateChangedEvents == 0
    {
      players := [];
      currentGame := None;
      stateChangedEvents := 0;
    }

    /** Always appends: the list grows by one and earlier players keep their places. */
    method AddPlayer(player: Player)
      modifies this
      ensures players == old(players) + [player]
      ensures |players| == |old(players)| + 1
      ensures forall i :: 0 <= i < |old(players)| ==> players[i] == old(players)[i]
      ensures currentGame == old(currentGame)
      ensures stateChangedEvents == old(stateChangedEvents) + 1
    {
      players := players + [player];
      stateChangedEvents := stateChangedEvents + 1;
    }
  }

  /** Adding the same player twice leaves a duplicate in this version of the provider. */
  method AddTwiceKeepsDuplicate(player: Player) returns (provider: GameStateProvider)
    ensures provider.players == [player, player]
    ensures !NoDuplicates(provider.players)
  {
    provider := new GameStateProvider();
    provider.AddPlayer(player);
    provider.AddPlayer(player);
    assert provider.players[0] == provider.players[1];
  }
}
