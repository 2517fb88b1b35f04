/** The `Player` record and the list shape both game-state providers keep. */
module Players {

  /** `record Player(string Name)`: compared by value. */
  datatype Player = Player(name: string)

  predicate NoDuplicates(s: seq<Player>) {
    forall i, j :: 0 <= i < j < |s| ==> s[i] != s[j]
  }
}
