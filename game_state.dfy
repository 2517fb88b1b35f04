/** The current `GameStateProvider`: a duplicate-free player list, the game screen on
    show, and a change event raised by every mutator. */
module GameState {
  import opened Wrappers
  import opened Players

  /** An `IGameDefinition` instance, known here by the name of its type. */
  datatype GameDefinition = GameDefinition(name: string)

  /** The list after `AddPlayer`: the player is appended only when absent. */
  function WithPlayer(s: seq<Player>, p: Player): (r: seq<Player>)
    ensures p in r
    ensures forall q :: q in r <==> q in s || q == p
    ensures p in s ==> r == s
    ensures p !in s ==> r == s + [p]
    ensures NoDuplicates(s) ==> NoDuplicates(r)
  {
    if p in s then s else s + [p]
  }

  /** Where `p` first occurs in `s`. */
  function IndexOf(s: seq<Player>, p: Player): (i: nat)
    requires p in s
    ensures i < |s| && s[i] == p && p !in s[..i]
  {
    if s[0] == p then 0
    else
      var j := IndexOf(s[1..], p);
      assert s[..j + 1] == [s[0]] + s[1..][..j];
      j + 1
  }

  /** `List<T>.Remove`: the first occurrence of `p` taken out, the rest in order. */
  function RemoveFirst(s: seq<Player>, p: Player): (r: seq<Player>)
    ensures p !in s ==> r == s
    ensures p in s ==> r == s[..IndexOf(s, p)] + s[IndexOf(s, p) + 1..]
  {
    if p in s then s[..IndexOf(s, p)] + s[IndexOf(s, p) + 1..] else s
  }

  /** On a duplicate-free list, removing a player removes it entirely, keeps every
      other player, keeps the list duplicate-free and shortens it by one exactly when
      the player was there. */
  lemma RemoveFromDistinct(s: seq<Player>, p: Player)
    requires NoDuplicates(s)
    ensures p !in RemoveFirst(s, p)
    ensures forall q :: q != p ==> (q in RemoveFirst(s, p) <==> q in s)
    ensures NoDuplicates(RemoveFirst(s, p))
    ensures |RemoveFirst(s, p)| == if p in s then |s| - 1 else |s|
  {
    if p in s {
      var i := IndexOf(s, p);
      var r := RemoveFirst(s, p);
      assert forall k :: 0 <= k < |r| ==> r[k] == if k < i then s[k] else s[k + 1];
      forall q | q != p && q in s ensures q in r {
        var k :| 0 <= k < |s| && s[k] == q;
        assert k != i;
        assert r[if k < i then k else k - 1] == q;
      }
    }
  }

  class GameStateProvider {
    var currentGame: Option<GameDefinition>
    var players: seq<Player>
    /** How many times `OnGameStateChanged` has been raised. */
    ghost var stateChangedEvents: nat

    ghost predicate Valid()
      reads this
    {
      NoDuplicates(players)
    }

    constructor ()
      ensures Valid() && players == [] && currentGame == None && stateChangedEvents == 0
    {
      players := [];
      currentGame := None;
      stateChangedEvents := 0;
    }

    method AddPlayer(player: Player)
      requires Valid()
      modifies this
      ensures Valid()
      ensures players == WithPlayer(old(players), player)
      ensures currentGame == old(currentGame)
      ensures stateChangedEvents == old(stateChangedEvents) + 1
    {
      if player !in players {
        players := players + [player];
      }
      stateChangedEvents := stateChangedEvents + 1;
    }

    method RemovePlayer(player: Player)
      requires Valid()
      modifies this
      ensures Valid()
      ensures players == RemoveFirst(old(players), player)
      ensures player !in players
      ensures currentGame == old(currentGame)
      ensures stateChangedEvents == old(stateChangedEvents) + 1
    {
      RemoveFromDistinct(players, player);
      players := RemoveFirst(players, player);
      stateChangedEvents := stateChangedEvents + 1;
    }

    method EndGame()
      modifies this
      ensures currentGame == None
      ensures players == old(players)
      ensures stateChangedEvents == old(stateChangedEvents) + 1
    {
      currentGame := None;
      stateChangedEvents := stateChangedEvents + 1;
    }

    /** `SetGameScreen<TGame>()`: shows a new instance of the requested game. */
    method SetGameScreen(game: GameDefinition)
      modifies this
      ensures currentGame == Some(game)
      ensures players == old(players)
      ensures stateChangedEvents == old(stateChangedEvents) + 1
    {
      currentGame := Some(game);
      stateChangedEvents := stateChangedEvents + 1;
    }
  }
}
