/** The record kept of one finished game: the solver that played it, its
    final score and largest tile, whether it was won, its move counters and
    how long it took. A duration is a whole number of ticks. */
module GameStatistics {
  import opened Lines
  import opened Grids
  import opened Games

  datatype GameStats = GameStats(
    solverName: string,
    finalScore: int,
    maxTile: int,
    won: bool,
    totalMoves: int,
    movesUp: int,
    movesDown: int,
    movesLeft: int,
    movesRight: int,
    duration: int)

  /** FromGame: the record of game g, played by the named solver in the
      given time. */
  function FromGame(g: Game, solverName: string, duration: int): (s: GameStats)
    ensures s.solverName == solverName && s.duration == duration
    ensures s.finalScore == g.score
    ensures s.won <==> g.state == Won
    ensures s.movesUp == g.movesUp && s.movesDown == g.movesDown
         && s.movesLeft == g.movesLeft && s.movesRight == g.movesRight
    ensures s.totalMoves == g.TotalMoves() == s.movesUp + s.movesDown + s.movesLeft + s.movesRight
    ensures s.maxTile >= 0 && forall r, c :: 0 <= r < Size && 0 <= c < Size ==> g.cells[r][c] <= s.maxTile
    ensures s.maxTile == 0 || exists r, c :: 0 <= r < Size && 0 <= c < Size && g.cells[r][c] == s.maxTile
  {
    MaxTileIsMaximum(g.cells);
    GameStats(solverName, g.score, MaxTile(g.cells), g.state == Won, g.TotalMoves(),
              g.movesUp, g.movesDown, g.movesLeft, g.movesRight, duration)
  }

  /** A board holds a winning tile exactly when its largest tile is one. */
  lemma WinningTileIsMaxTile(g: Grid)
    ensures HasWinningTile(g) <==> MaxTile(g) >= WinValue
  {
    MaxTileIsMaximum(g);
    if HasWinningTile(g) {
      var r, c :| 0 <= r < Size && 0 <= c < Size && g[r][c] >= WinValue;
      assert g[r][c] <= MaxTile(g);
    }
    if MaxTile(g) >= WinValue {
      var r, c :| 0 <= r < Size && 0 <= c < Size && g[r][c] == MaxTile(g);
      assert g[r][c] >= WinValue;
    }
  }

  /** A finished game's record says "won" exactly when its largest tile
      reached 2048; so a lost game is recorded as not won. */
  lemma FinishedWonIffWinningTile(g: Game, solverName: string, duration: int)
    requires WellFormed(g) && g.state != Playing
    ensures FromGame(g, solverName, duration).won <==> FromGame(g, solverName, duration).maxTile >= WinValue
  {
    WinningTileIsMaxTile(g.cells);
  }

  /** The record of a game played from a new game counts exactly the moves
      the engine accepted along it. */
  lemma RecordCountsAcceptedMoves(slot1: nat, value1: nat, slot2: nat, value2: nat, turns: seq<Turn>,
                                  solverName: string, duration: int)
    ensures var start := NewGame(slot1, value1, slot2, value2);
      FromGame(Play(start, turns), solverName, duration).totalMoves == Accepted(start, turns)
  {
    var start := NewGame(slot1, value1, slot2, value2);
    NewGameShape(slot1, value1, slot2, value2);
    NewGameWellFormed(slot1, value1, slot2, value2);
    PlayCountsMoves(start, turns);
  }
}
