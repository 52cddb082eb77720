/** The random solver: one index into the available moves, drawn uniformly.
    The random number generator is replaced by its raw draw; `Next(n)` is
    the draw taken modulo n. The solver has no fallback move: it needs at
    least one available move, as indexing an empty list fails. */
module RandomSolvers {
  import opened Grids
  import opened Games

  const Name: string := "Random Solver"

  /** The move a draw picks out of a non-empty list of moves. */
  function Pick(moves: seq<Direction>, draw: nat): (d: Direction)
    requires |moves| > 0
    ensures d in moves
  {
    moves[draw % |moves|]
  }

  /** Every move of the list is picked by some draw. */
  lemma PickReachesEvery(moves: seq<Direction>, d: Direction)
    requires d in moves
    ensures exists draw: nat :: Pick(moves, draw) == d
  {
    var i :| 0 <= i < |moves| && moves[i] == d;
    assert Pick(moves, i) == d;
  }

  /** GetNextMove: the random solver's move in game g is one that changes the board. */
  function NextMove(g: Game, draw: nat): (d: Direction)
    requires AvailableMoves(g.cells) != []
    ensures d in AvailableMoves(g.cells) && Changes(g.cells, d)
  {
    var d := Pick(AvailableMoves(g.cells), draw);
    AvailableMovesExact(g.cells, d);
    d
  }

  /** Every available move is the random solver's move for some draw. */
  lemma NextMoveReachesEvery(g: Game, d: Direction)
    requires Changes(g.cells, d)
    ensures exists draw: nat :: NextMove(g, draw) == d
  {
    var moves := AvailableMoves(g.cells);
    AvailableMovesExact(g.cells, d);
    PickReachesEvery(moves, d);
    var draw: nat :| Pick(moves, draw) == d;
    assert NextMove(g, draw) == Pick(moves, draw);
  }
}
