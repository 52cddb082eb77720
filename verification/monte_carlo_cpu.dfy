/** The CPU Monte-Carlo solver: a number of simulations per candidate move
    and a cap on the random moves of each simulation, a cap of 0 standing
    for no cap. */
module MonteCarloCpu {
  import opened Grids
  import opened Games
  import opened Engine
  import opened Choice
  import opened Rollouts

  const Name: string := "CPU Monte Carlo"

  /** The step cap the constructor keeps: 0 becomes int.MaxValue, any other
      cap is kept as given. */
  function StepCap(maxSteps: int): (cap: int)
    ensures cap != 0
    ensures maxSteps != 0 ==> cap == maxSteps
    ensures maxSteps == 0 ==> cap == Unbounded
  {
    if maxSteps == 0 then Unbounded else maxSteps
  }

  /** A cap of 0 asked of the constructor lets every simulation play until
      its game is over or stuck. */
  lemma ZeroCapPlaysToTheEnd(g: Game, stream: Stream)
    requires WellFormed(g)
    ensures var (h, n) := Continue(g, 0, StepCap(0), stream);
      h.state != Playing || AvailableMoves(h.cells) == []
  {
    UnboundedCapNeverBinds(g, stream);
  }

  class MonteCarloSolverCpu {
    const simulationsPerMove: int
    const maxStepsPerSimulation: int

    constructor (simulationsPerMove: int := 100, maxStepsPerSimulation: int := 200)
      ensures this.simulationsPerMove == simulationsPerMove
      ensures this.maxStepsPerSimulation == StepCap(maxStepsPerSimulation)
    {
      this.simulationsPerMove := simulationsPerMove;
      this.maxStepsPerSimulation := if maxStepsPerSimulation == 0 then Unbounded else maxStepsPerSimulation;
    }

    /** The move for the engine holding game g: Up when no move is
        available, otherwise the available move with the first strictly
        largest average evaluation over its simulations, which run on
        copies and leave the game alone. */
    method GetNextMove(game: GameEngine, ghost g: Game, rollouts: seq<seq<Stream>>) returns (move: Direction)
      requires game.Valid() && game.Snapshot() == g
      ensures move == MonteCarloChoice(g, simulationsPerMove, maxStepsPerSimulation, rollouts)
      ensures game.Snapshot() == g
    {
      move := ChooseByRollouts(game, g, simulationsPerMove, maxStepsPerSimulation, rollouts);
    }
  }
}
