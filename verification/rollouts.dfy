/** The Monte-Carlo solvers' rollouts: a copy of the game plays the candidate
    move, then random moves until the game is over, no move is available or
    the step cap is reached, and the final game is evaluated. Each
    candidate's evaluations are summed and averaged, and the candidate with
    the first strictly largest average is chosen.

    The rollouts of one candidate run as parallel tasks in the source; their
    sum does not depend on the order of the additions, so it is computed
    here one simulation after the other. Simulation number `sim` of the
    candidate at position i takes its random numbers from stream number
    `sim` of `rollouts[i]`: draw 0 feeds the spawn after the candidate move,
    draw s + 1 the s-th random move. */
module Rollouts {
  import opened Lines
  import opened Grids
  import opened Games
  import opened Engine
  import opened Choice
  import opened RandomSolvers

  /** int.MaxValue: the step cap that stands for "no cap". */
  const Unbounded: int := 0x7FFF_FFFF

  /** The evaluation of a rollout's final game: its score, 128 per empty
      cell and 32 times its largest tile. */
  function Evaluation(g: Game): int
  {
    g.score + EmptyCount(g.cells) * 128 + MaxTile(g.cells) * 32
  }

  /** A well-formed game evaluates to at least its score, and that is at
      least 0; so every average lies above the lowest double the selection
      starts from. */
  lemma EvaluationAtLeastScore(g: Game)
    requires WellFormed(g)
    ensures Evaluation(g) >= g.score >= 0
  {
    MaxTileIsMaximum(g.cells);
  }

  // ---------------------------------------------------------------------
  // One rollout

  /** The random moves of a rollout from step `steps` on: the final game and
      the number of steps taken. */
  function Continue(g: Game, steps: nat, maxSteps: int, stream: Stream): (Game, nat)
    decreases maxSteps - steps
  {
    if g.state != Playing || steps >= maxSteps then (g, steps)
    else
      var moves := AvailableMoves(g.cells);
      if moves == [] then (g, steps)
      else
        var draw := DrawAt(stream, steps + 1);
        Continue(Step(g, Pick(moves, draw.pick), draw.slotDraw, draw.valueDraw), steps + 1, maxSteps, stream)
  }

  /** A whole rollout: the candidate move, then the random moves. */
  function Rollout(g: Game, move: Direction, maxSteps: int, stream: Stream): (Game, nat)
  {
    var first := DrawAt(stream, 0);
    Continue(Step(g, move, first.slotDraw, first.valueDraw), 0, maxSteps, stream)
  }

  /** One random move of a rollout, unfolded. */
  lemma ContinueStep(g: Game, steps: nat, maxSteps: int, stream: Stream, d: Direction)
    requires g.state == Playing && steps < maxSteps && AvailableMoves(g.cells) != []
    requires d == Pick(AvailableMoves(g.cells), DrawAt(stream, steps + 1).pick)
    ensures Continue(g, steps, maxSteps, stream)
         == Continue(Step(g, d, DrawAt(stream, steps + 1).slotDraw, DrawAt(stream, steps + 1).valueDraw), steps + 1, maxSteps, stream)
  {
  }

  /** The random moves stop at the cap at the latest, stop early only when
      the game is over or no move is available, and each of them is an
      accepted move. */
  lemma {:induction false} ContinueCounts(g: Game, steps: nat, maxSteps: int, stream: Stream)
    ensures var (h, n) := Continue(g, steps, maxSteps, stream);
      && steps <= n
      && (n > steps ==> n <= maxSteps)
      && (h.state == Playing && n < maxSteps ==> AvailableMoves(h.cells) == [])
      && h.TotalMoves() == g.TotalMoves() + (n - steps)
    decreases maxSteps - steps
  {
    if g.state == Playing && steps < maxSteps {
      var moves := AvailableMoves(g.cells);
      if moves != [] {
        var draw := DrawAt(stream, steps + 1);
        var d := Pick(moves, draw.pick);
        AvailableMovesExact(g.cells, d);
        AcceptedMoveCounts(g, d, draw.slotDraw, draw.valueDraw);
        ContinueStep(g, steps, maxSteps, stream, d);
        ContinueCounts(Step(g, d, draw.slotDraw, draw.valueDraw), steps + 1, maxSteps, stream);
      }
    }
  }

  /** The random moves keep the game well formed, and each adds at least 2
      to the sum of the board. */
  lemma {:induction false} ContinueGrowsSum(g: Game, steps: nat, maxSteps: int, stream: Stream)
    requires WellFormed(g)
    ensures var (h, n) := Continue(g, steps, maxSteps, stream);
      WellFormed(h) && GridSum(h.cells) >= GridSum(g.cells) + 2 * (n - steps)
    decreases maxSteps - steps
  {
    if g.state == Playing && steps < maxSteps {
      var moves := AvailableMoves(g.cells);
      if moves != [] {
        var draw := DrawAt(stream, steps + 1);
        var d := Pick(moves, draw.pick);
        AvailableMovesExact(g.cells, d);
        AcceptedMoveSpawns(g, d, draw.slotDraw, draw.valueDraw);
        StepKeepsWellFormed(g, d, draw.slotDraw, draw.valueDraw);
        ContinueStep(g, steps, maxSteps, stream, d);
        ContinueGrowsSum(Step(g, d, draw.slotDraw, draw.valueDraw), steps + 1, maxSteps, stream);
      }
    }
  }

  /** The cap int.MaxValue, which the CPU solver puts for a cap of 0, never
      binds: from a well-formed game the random moves go on until the game
      is over or no move is available. */
  lemma UnboundedCapNeverBinds(g: Game, stream: Stream)
    requires WellFormed(g)
    ensures var (h, n) := Continue(g, 0, Unbounded, stream);
      h.state != Playing || AvailableMoves(h.cells) == []
  {
    var (h, n) := Continue(g, 0, Unbounded, stream);
    ContinueCounts(g, 0, Unbounded, stream);
    ContinueGrowsSum(g, 0, Unbounded, stream);
    if h.state == Playing {
      assert g.state == Playing;
      PlayingSumBound(h);
      PlayingSumBound(g);
    }
  }

  /** A rollout plays the candidate move and then at most `maxSteps` random
      moves, stopping early only when the game is over or stuck; the game
      it evaluates counts the candidate move, if accepted, and every random
      move. */
  lemma RolloutShape(g: Game, move: Direction, maxSteps: int, stream: Stream)
    ensures var (h, n) := Rollout(g, move, maxSteps, stream);
      && (n > 0 ==> n <= maxSteps)
      && (h.state == Playing && n < maxSteps ==> AvailableMoves(h.cells) == [])
      && h.TotalMoves() == g.TotalMoves() + (if Moved(g, move) then 1 else 0) + n
  {
    var first := DrawAt(stream, 0);
    var after := Step(g, move, first.slotDraw, first.valueDraw);
    ContinueCounts(after, 0, maxSteps, stream);
    if Moved(g, move) {
      AcceptedMoveCounts(g, move, first.slotDraw, first.valueDraw);
    } else {
      RefusedMoveChangesNothing(g, move, first.slotDraw, first.valueDraw);
    }
  }

  // ---------------------------------------------------------------------
  // Summing and averaging

  /** The evaluations of the first n simulations of one candidate move;
      simulation i runs on stream i. */
  function Evaluations(g: Game, move: Direction, n: nat, maxSteps: int, streams: seq<Stream>): seq<int>
  {
    Prefix(n, (i: nat) => Evaluation(Rollout(g, move, maxSteps, StreamAt(streams, i)).0))
  }

  /** One more simulation appends its evaluation. */
  lemma EvaluationsSnoc(g: Game, move: Direction, n: nat, maxSteps: int, streams: seq<Stream>)
    ensures Evaluations(g, move, n + 1, maxSteps, streams)
         == Evaluations(g, move, n, maxSteps, streams) + [Evaluation(Rollout(g, move, maxSteps, StreamAt(streams, n)).0)]
  {
    PrefixSnoc(n, (i: nat) => Evaluation(Rollout(g, move, maxSteps, StreamAt(streams, i)).0));
  }

  /** The summed evaluations of the simulations of one candidate move (none
      when the count is not positive). */
  function SimulationsTotal(g: Game, move: Direction, sims: int, maxSteps: int, streams: seq<Stream>): int
  {
    Total(Evaluations(g, move, if sims < 0 then 0 else sims, maxSteps, streams))
  }

  /** From a well-formed game a rollout ends in a well-formed game. */
  lemma RolloutWellFormed(g: Game, move: Direction, maxSteps: int, stream: Stream)
    requires WellFormed(g)
    ensures WellFormed(Rollout(g, move, maxSteps, stream).0)
  {
    var first := DrawAt(stream, 0);
    StepKeepsWellFormed(g, move, first.slotDraw, first.valueDraw);
    ContinueGrowsSum(Step(g, move, first.slotDraw, first.valueDraw), 0, maxSteps, stream);
  }

  /** From a well-formed game every simulation evaluates to at least 0, so
      the summed evaluations are at least 0. */
  lemma {:induction false} EvaluationsTotalAtLeastZero(g: Game, move: Direction, n: nat, maxSteps: int,
                                                       streams: seq<Stream>)
    requires WellFormed(g)
    ensures Total(Evaluations(g, move, n, maxSteps, streams)) >= 0
  {
    if n > 0 {
      var stream := StreamAt(streams, n - 1);
      var last := Rollout(g, move, maxSteps, stream).0;
      EvaluationsSnoc(g, move, n - 1, maxSteps, streams);
      EvaluationsTotalAtLeastZero(g, move, n - 1, maxSteps, streams);
      RolloutWellFormed(g, move, maxSteps, stream);
      EvaluationAtLeastScore(last);
      TotalSnoc(Evaluations(g, move, n - 1, maxSteps, streams), Evaluation(last));
    }
  }

  /** With at least one simulation the average of a candidate move from a
      well-formed game is a number of at least 0. */
  lemma MoveAverageAtLeastZero(g: Game, move: Direction, sims: nat, maxSteps: int, streams: seq<Stream>)
    requires WellFormed(g) && sims > 0
    ensures var avg := Average(SimulationsTotal(g, move, sims, maxSteps, streams), sims);
      avg.Some? && avg.value >= 0.0
  {
    EvaluationsTotalAtLeastZero(g, move, sims, maxSteps, streams);
    AverageAtLeastZero(SimulationsTotal(g, move, sims, maxSteps, streams), sims);
  }

  /** The summed evaluations of every candidate move, in the order of the
      moves; the candidate at position k is simulated on stream list number k. */
  function MoveTotals(g: Game, moves: seq<Direction>, sims: int, maxSteps: int, rollouts: seq<seq<Stream>>)
    : seq<int>
  {
    seq(|moves|, k requires 0 <= k < |moves| => SimulationsTotal(g, moves[k], sims, maxSteps, StreamsAt(rollouts, k)))
  }

  /** GetNextMove of both Monte-Carlo solvers: Up when no move is
      available, otherwise the first available move with the strictly
      largest average. */
  function MonteCarloChoice(g: Game, sims: int, maxSteps: int, rollouts: seq<seq<Stream>>): Direction
  {
    var moves := AvailableMoves(g.cells);
    if moves == [] then Up
    else
      var avgs := Averages(MoveTotals(g, moves, sims, maxSteps, rollouts), sims);
      FirstBest(avgs, None);
      moves[BestIndex(avgs, None)]
  }

  /** The Monte-Carlo choice is Up exactly when no move is available;
      otherwise it is an available move, the only one when there is one,
      the first one when there are no simulations (every average NaN), and
      otherwise the first move whose average is strictly larger than every
      earlier one and at least every later one. */
  lemma MonteCarloChoiceIsFirstBest(g: Game, sims: int, maxSteps: int, rollouts: seq<seq<Stream>>)
    ensures var moves := AvailableMoves(g.cells);
      var d := MonteCarloChoice(g, sims, maxSteps, rollouts);
      && (moves == [] <==> d == Up && !Changes(g.cells, Up))
      && (moves != [] ==> d in moves && Changes(g.cells, d))
      && (|moves| == 1 ==> d == moves[0])
      && (moves != [] && sims == 0 ==> d == moves[0])
      && (moves != [] && sims != 0 ==>
            var avgs := Averages(MoveTotals(g, moves, sims, maxSteps, rollouts), sims);
            var j := BestIndex(avgs, None);
            j < |moves| && d == moves[j] && IsFirstMaximum(avgs, j))
  {
    var moves := AvailableMoves(g.cells);
    var d := MonteCarloChoice(g, sims, maxSteps, rollouts);
    AvailableMovesExact(g.cells, Up);
    if moves != [] {
      AveragesChoice(MoveTotals(g, moves, sims, maxSteps, rollouts), sims);
      AvailableMovesExact(g.cells, d);
    }
  }

  // ---------------------------------------------------------------------
  // The solver loops

  /** The evaluation of the engine's current game. */
  method Evaluate(game: GameEngine) returns (eval: int)
    requires game.Valid()
    ensures eval == Evaluation(game.Snapshot())
  {
    var emptyCount := game.GetEmptyCount();
    var maxTile := game.GetMaxTile();
    eval := game.score + emptyCount * 128 + maxTile * 32;
  }

  /** The rollout loop: random moves while the game is under way, the cap
      is not reached and some move is available. */
  method PlayRandomly(clone: GameEngine, maxSteps: int, stream: Stream)
    requires clone.Valid()
    modifies clone, clone.board
    ensures clone.Valid() && clone.board == old(clone.board)
    ensures clone.Snapshot() == Continue(old(clone.Snapshot()), 0, maxSteps, stream).0
  {
    ghost var start := clone.Snapshot();
    ghost var current := start;
    var steps: nat := 0;
    while clone.state == Playing && steps < maxSteps
      invariant clone.Valid() && clone.board == old(clone.board)
      invariant clone.Snapshot() == current
      invariant Continue(current, steps, maxSteps, stream) == Continue(start, 0, maxSteps, stream)
      decreases maxSteps - steps
    {
      var moves := clone.GetAvailableMoves();
      if |moves| == 0 {
        break;
      }
      var draw := DrawAt(stream, steps + 1);
      var d := Pick(moves, draw.pick);
      var accepted := clone.Move(d, draw.slotDraw, draw.valueDraw);
      ContinueStep(current, steps, maxSteps, stream, d);
      current := Step(current, d, draw.slotDraw, draw.valueDraw);
      steps := steps + 1;
    }
  }

  /** One simulation: a copy of the game plays the candidate move and then
      random moves, and its evaluation is returned. The game itself is left
      alone. */
  method RunSimulation(game: GameEngine, ghost g: Game, move: Direction, maxSteps: int, stream: Stream)
    returns (eval: int)
    requires game.Valid() && game.Snapshot() == g
    ensures eval == Evaluation(Rollout(g, move, maxSteps, stream).0)
  {
    var clone := game.Clone();
    var first := DrawAt(stream, 0);
    var accepted := clone.Move(move, first.slotDraw, first.valueDraw);
    ghost var start := clone.Snapshot();
    assert start == Step(g, move, first.slotDraw, first.valueDraw);
    PlayRandomly(clone, maxSteps, stream);
    ghost var final := clone.Snapshot();
    assert final == Rollout(g, move, maxSteps, stream).0;
    eval := Evaluate(clone);
    assert game.Snapshot() == g;
  }

  /** Simulation number sim of one candidate move, added to the sum of
      the simulations before it. */
  method AddSimulation(game: GameEngine, ghost g: Game, move: Direction, sim: nat, maxSteps: int,
                       streams: seq<Stream>, total: int)
    returns (newTotal: int)
    requires game.Valid() && game.Snapshot() == g
    requires total == Total(Evaluations(g, move, sim, maxSteps, streams))
    ensures newTotal == Total(Evaluations(g, move, sim + 1, maxSteps, streams))
  {
    var eval := RunSimulation(game, g, move, maxSteps, StreamAt(streams, sim));
    EvaluationsSnoc(g, move, sim, maxSteps, streams);
    TotalSnoc(Evaluations(g, move, sim, maxSteps, streams), eval);
    newTotal := total + eval;
  }

  /** The summed evaluations of one candidate move's simulations. */
  method SimulateMove(game: GameEngine, ghost g: Game, move: Direction, sims: int, maxSteps: int,
                      streams: seq<Stream>)
    returns (total: int)
    requires game.Valid() && game.Snapshot() == g
    ensures total == SimulationsTotal(g, move, sims, maxSteps, streams)
  {
    total := 0;
    var sim: nat := 0;
    while sim < sims
      invariant sim <= (if sims < 0 then 0 else sims)
      invariant game.Snapshot() == g
      invariant total == Total(Evaluations(g, move, sim, maxSteps, streams))
    {
      total := AddSimulation(game, g, move, sim, maxSteps, streams, total);
      sim := sim + 1;
    }
  }

  /** The average evaluation of one candidate move's simulations. */
  method AverageMove(game: GameEngine, ghost g: Game, move: Direction, sims: int, maxSteps: int,
                     streams: seq<Stream>)
    returns (avgScore: Option<real>)
    requires game.Valid() && game.Snapshot() == g
    ensures avgScore == Average(SimulationsTotal(g, move, sims, maxSteps, streams), sims)
  {
    var totalScore := SimulateMove(game, g, move, sims, maxSteps, streams);
    avgScore := Average(totalScore, sims);
  }

  /** One pass of the loop over the available moves: the move at position
      i is simulated and replaces the kept move when its average is
      strictly larger. */
  method ConsiderMove(game: GameEngine, ghost g: Game, moves: seq<Direction>, ghost avgs: seq<Option<real>>,
                      i: nat, sims: int, maxSteps: int, rollouts: seq<seq<Stream>>,
                      bestMove: Direction, bestScore: Option<real>, ghost bestIndex: nat)
    returns (newMove: Direction, newScore: Option<real>, ghost newIndex: nat)
    requires game.Valid() && game.Snapshot() == g && i < |moves| && |avgs| == |moves|
    requires avgs == Averages(MoveTotals(g, moves, sims, maxSteps, rollouts), sims)
    requires bestIndex < |moves| && bestMove == moves[bestIndex]
    ensures newIndex < |moves| && newMove == moves[newIndex]
    ensures BestFrom(avgs, i + 1, newIndex, newScore) == BestFrom(avgs, i, bestIndex, bestScore)
  {
    var avgScore := AverageMove(game, g, moves[i], sims, maxSteps, StreamsAt(rollouts, i));
    AveragesAt(MoveTotals(g, moves, sims, maxSteps, rollouts), sims, i);
    if Beats(avgScore, bestScore) {
      newScore, newMove, newIndex := avgScore, moves[i], i;
    } else {
      newScore, newMove, newIndex := bestScore, bestMove, bestIndex;
    }
  }

  /** The loop over the available moves that keeps the move with the best
      average so far; avgs holds the average of each move. */
  method BestByAverage(game: GameEngine, ghost g: Game, moves: seq<Direction>, ghost avgs: seq<Option<real>>,
                       sims: int, maxSteps: int, rollouts: seq<seq<Stream>>)
    returns (bestMove: Direction)
    requires game.Valid() && game.Snapshot() == g && |moves| > 0 && |avgs| == |moves|
    requires avgs == Averages(MoveTotals(g, moves, sims, maxSteps, rollouts), sims)
    ensures var j := BestIndex(avgs, None); j < |moves| && bestMove == moves[j]
  {
    FirstBest(avgs, None);
    bestMove := moves[0];
    var bestScore: Option<real> := None;
    ghost var bestIndex: nat := 0;
    for i := 0 to |moves|
      invariant game.Snapshot() == g
      invariant bestIndex < |moves| && bestMove == moves[bestIndex]
      invariant BestFrom(avgs, i, bestIndex, bestScore) == BestFrom(avgs, 0, 0, None)
    {
      bestMove, bestScore, bestIndex :=
        ConsiderMove(game, g, moves, avgs, i, sims, maxSteps, rollouts, bestMove, bestScore, bestIndex);
    }
  }

  /** GetNextMove of both Monte-Carlo solvers on the engine holding game
      g: Up when no move is available, otherwise the available move with
      the best average. */
  method ChooseByRollouts(game: GameEngine, ghost g: Game, sims: int, maxSteps: int, rollouts: seq<seq<Stream>>)
    returns (bestMove: Direction)
    requires game.Valid() && game.Snapshot() == g
    ensures bestMove == MonteCarloChoice(g, sims, maxSteps, rollouts)
  {
    var moves := game.GetAvailableMoves();
    if |moves| == 0 {
      return Up;
    }
    ghost var avgs := Averages(MoveTotals(g, moves, sims, maxSteps, rollouts), sims);
    bestMove := BestByAverage(game, g, moves, avgs, sims, maxSteps, rollouts);
  }
}
