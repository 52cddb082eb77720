/** The greedy one-move solver: each available move is tried on a copy of
    the game, and the first move whose score afterwards is strictly larger
    than every earlier one, and than 0, is chosen; when no move scores above
    0 the first available move is kept. The score after a move does not
    depend on the spawn that follows it, so the spawns of the trial copies
    do not affect the choice. */
module OwnSolvers {
  import opened Grids
  import opened Games
  import opened Engine
  import opened Choice

  const Name: string := "Stupid Solver"

  /** The score after a move towards d: the merge gain is added when the
      move is accepted. */
  function PostScore(g: Game, d: Direction): int
  {
    if Moved(g, d) then g.score + MoveGain(g.cells, d) else g.score
  }

  /** Whatever the spawn draws, a move leaves the score PostScore gives. */
  lemma PostScoreIgnoresSpawn(g: Game, d: Direction, slotDraw: nat, valueDraw: nat)
    ensures Step(g, d, slotDraw, valueDraw).score == PostScore(g, d)
  {
    if Moved(g, d) {
      AcceptedMoveCounts(g, d, slotDraw, valueDraw);
    }
  }

  /** The score after each of the moves, in order, as the values the
      selection compares. */
  function PostScores(g: Game, moves: seq<Direction>): (scores: seq<Option<real>>)
    ensures |scores| == |moves|
  {
    if |moves| == 0 then []
    else PostScores(g, moves[..|moves| - 1]) + [Some(PostScore(g, moves[|moves| - 1]) as real)]
  }

  /** Position k of the scores is the score after move k. */
  lemma {:induction false} PostScoresAt(g: Game, moves: seq<Direction>, k: nat)
    requires k < |moves|
    ensures PostScores(g, moves)[k] == Some(PostScore(g, moves[k]) as real)
  {
    var last := |moves| - 1;
    if k < last {
      PostScoresAt(g, moves[..last], k);
    }
  }

  /** The greedy choice in game g: Up when no move is available, otherwise
      the move the selection from the threshold 0 keeps. */
  function GreedyChoice(g: Game): Direction
  {
    var moves := AvailableMoves(g.cells);
    if moves == [] then Up
    else
      var scores := PostScores(g, moves);
      FirstBest(scores, Some(0.0));
      moves[BestIndex(scores, Some(0.0))]
  }

  /** The greedy choice is Up exactly when no move is available; otherwise
      it is an available move: the first one when no move scores above 0,
      and otherwise the first move whose score is at least every other
      move's and strictly above every earlier move's. */
  lemma GreedyChoiceIsFirstBest(g: Game)
    ensures var moves := AvailableMoves(g.cells);
      var d := GreedyChoice(g);
      && (moves == [] <==> d == Up && !Changes(g.cells, Up))
      && (moves != [] ==> d in moves && Changes(g.cells, d))
      && (moves != [] ==>
            var scores := PostScores(g, moves);
            var j := BestIndex(scores, Some(0.0));
            && j < |moves| && d == moves[j]
            && ((forall k :: 0 <= k < |moves| ==> !Beats(scores[k], Some(0.0))) ==> j == 0)
            && ((exists k :: 0 <= k < |moves| && Beats(scores[k], Some(0.0))) ==> IsFirstMaximum(scores, j)))
  {
    var moves := AvailableMoves(g.cells);
    AvailableMovesExact(g.cells, Up);
    if moves != [] {
      var scores := PostScores(g, moves);
      forall k | 0 <= k < |moves| ensures scores[k].Some? {
        PostScoresAt(g, moves, k);
      }
      ThresholdChoice(scores, Some(0.0));
      AvailableMovesExact(g.cells, GreedyChoice(g));
    }
  }

  /** One pass of the loop over the available moves: move i is tried on a
      copy of the game, whose spawn takes the draw given, and replaces the
      kept move when the copy's score is strictly larger than the kept
      score. */
  method TryMove(game: GameEngine, ghost g: Game, moves: seq<Direction>, ghost scores: seq<Option<real>>,
                 i: nat, draws: seq<Draw>, bestDirection: Direction, score: int, ghost bestIndex: nat)
    returns (newDirection: Direction, newScore: int, ghost newIndex: nat)
    requires game.Valid() && game.Snapshot() == g && i < |moves|
    requires scores == PostScores(g, moves)
    requires bestIndex < |moves| && bestDirection == moves[bestIndex]
    ensures newIndex < |moves| && newDirection == moves[newIndex]
    ensures BestFrom(scores, i + 1, newIndex, Some(newScore as real)) == BestFrom(scores, i, bestIndex, Some(score as real))
  {
    var clone := game.Clone();
    var draw := DrawAt(draws, i);
    var moved := clone.Move(moves[i], draw.slotDraw, draw.valueDraw);
    PostScoreIgnoresSpawn(g, moves[i], draw.slotDraw, draw.valueDraw);
    PostScoresAt(g, moves, i);
    if clone.score > score {
      newDirection, newScore, newIndex := moves[i], clone.score, i;
    } else {
      newDirection, newScore, newIndex := bestDirection, score, bestIndex;
    }
  }

  /** The loop over the available moves that keeps the move with the best
      score so far, from the threshold 0; scores holds the score after
      each move. */
  method KeepBest(game: GameEngine, ghost g: Game, directions: seq<Direction>, ghost scores: seq<Option<real>>,
                  draws: seq<Draw>)
    returns (bestDirection: Direction)
    requires game.Valid() && game.Snapshot() == g && |directions| > 0
    requires scores == PostScores(g, directions)
    ensures var j := BestIndex(scores, Some(0.0)); j < |directions| && bestDirection == directions[j]
  {
    FirstBest(scores, Some(0.0));
    var score := 0;
    bestDirection := directions[0];
    ghost var bestIndex: nat := 0;
    for i := 0 to |directions|
      invariant game.Snapshot() == g
      invariant bestIndex < |directions| && bestDirection == directions[bestIndex]
      invariant BestFrom(scores, i, bestIndex, Some(score as real)) == BestFrom(scores, 0, 0, Some(0.0))
    {
      bestDirection, score, bestIndex :=
        TryMove(game, g, directions, scores, i, draws, bestDirection, score, bestIndex);
    }
  }

  /** GetBestMove: the greedy choice, trying each available move on a copy
      of the game; draw i feeds the spawn of the copy that tries move i. */
  method GetBestMove(game: GameEngine, ghost g: Game, draws: seq<Draw>) returns (bestDirection: Direction)
    requires game.Valid() && game.Snapshot() == g
    ensures bestDirection == GreedyChoice(g)
    ensures game.Snapshot() == g
  {
    var directions := game.GetAvailableMoves();
    if |directions| == 0 {
      return Up;
    }
    bestDirection := KeepBest(game, g, directions, PostScores(g, directions), draws);
  }

  /** GetNextMove: Up when no move is available, otherwise the greedy
      choice. */
  method GetNextMove(game: GameEngine, ghost g: Game, draws: seq<Draw>) returns (move: Direction)
    requires game.Valid() && game.Snapshot() == g
    ensures move == GreedyChoice(g)
    ensures game.Snapshot() == g
  {
    var directions := game.GetAvailableMoves();
    if |directions| == 0 {
      return Up;
    }
    move := GetBestMove(game, g, draws);
  }
}
