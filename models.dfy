/** The two database records of the game (the `Player` and `GameState`
    models) as values. */
module Models {
  import opened Wrappers

  /** A participant. `draftPosition` is a nullable integer column; whether a
      player "has picked" follows Python truthiness (see Draft.HasPicked). */
  datatype Player = Player(
    id: int,
    name: string,
    email: string,
    guess: int,
    draftPosition: Option<int>)

  datatype Phase = Submission | Results | Selecting | Completed

  /** The single game-state row. Target and average are floats in the source;
      here they are exact reals. */
  datatype GameState = GameState(
    phase: Phase,
    winnerId: Option<int>,
    target: Option<real>,
    average: Option<real>)

  /** The row `GameState(phase='submission')` creates: no scores yet. */
  const FreshState: GameState := GameState(Submission, None, None, None)

  /** Guesses a submission may carry. */
  const MinGuess: int := 0
  const MaxGuess: int := 1000

  predicate UniqueIds(ps: seq<Player>) {
    forall i, j :: 0 <= i < |ps| && 0 <= j < |ps| && i != j ==> ps[i].id != ps[j].id
  }

  /** No two players hold the same stored draft position (0 included). */
  predicate DistinctPositions(ps: seq<Player>) {
    forall i, j :: 0 <= i < |ps| && 0 <= j < |ps| && i != j && ps[i].draftPosition.Some? ==>
      ps[i].draftPosition != ps[j].draftPosition
  }

  /** The largest id in the table, 0 for an empty table. */
  function MaxId(ps: seq<Player>): (m: int)
    ensures m >= 0
    ensures forall i :: 0 <= i < |ps| ==> ps[i].id <= m
    ensures ps == [] ==> m == 0
    ensures m == 0 || exists i :: 0 <= i < |ps| && ps[i].id == m
  {
    if ps == [] then 0
    else
      var rest := MaxId(ps[..|ps| - 1]);
      var last := ps[|ps| - 1].id;
      if last > rest then last else rest
  }

  /** The row id SQLite gives the next inserted player: one more than the
      largest id in the table, or 1 when the table is empty. */
  function NextId(ps: seq<Player>): (id: int)
    ensures id >= 1
    ensures forall i :: 0 <= i < |ps| ==> ps[i].id < id
  {
    MaxId(ps) + 1
  }

  /** Index of the player with primary key `id`, as `Player.query.get(id)`
      finds it. */
  function IndexOfId(ps: seq<Player>, id: int): (r: Option<nat>)
    ensures r.Some? ==> r.value < |ps| && ps[r.value].id == id
    ensures r.None? ==> forall i :: 0 <= i < |ps| ==> ps[i].id != id
  {
    if ps == [] then None
    else if ps[0].id == id then Some(0)
    else match IndexOfId(ps[1..], id)
      case None => None
      case Some(k) => Some(k + 1)
  }
}
