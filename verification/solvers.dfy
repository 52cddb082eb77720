/** The solvers the statistics runner plays with, behind one interface: a
    name and the next move for a game. Each solver is one of the four kinds
    of the program; the Monte-Carlo kinds carry their solver objects, which
    hold their settings.

    A solver's random numbers are passed in with each turn: the random
    solver's draw, the spawn draws of the greedy solver's trial copies, and
    the Monte-Carlo solvers' rollout streams; the turn also carries the two
    draws of the spawn that follows the chosen move. */
module Solvers {
  import opened Lines
  import opened Grids
  import opened Games
  import opened Engine
  import opened Choice
  import opened Rollouts
  import RandomSolvers
  import OwnSolvers
  import MonteCarloCpu
  import MonteCarloGpu

  datatype Solver =
    | RandomPlayer
    | GreedyPlayer
    | MonteCarloCpuPlayer(cpu: MonteCarloCpu.MonteCarloSolverCpu)
    | MonteCarloGpuPlayer(gpu: MonteCarloGpu.MonteCarloSolverGpu)

  /** The random numbers of one turn of a game. */
  datatype TurnDraws = TurnDraws(pick: nat, trials: seq<Draw>, rollouts: seq<seq<Stream>>,
                                 slotDraw: nat, valueDraw: nat)

  /** Turn number i of a list of turns; turns past the end draw zeros. */
  function TurnAt(turns: seq<TurnDraws>, i: nat): TurnDraws
  {
    if i < |turns| then turns[i] else TurnDraws(0, [], [], 0, 0)
  }

  /** The name each solver reports, as written: both Monte-Carlo solvers
      report the CPU solver's name. */
  function SolverNameAsWritten(s: Solver): string
  {
    match s
    case RandomPlayer => RandomSolvers.Name
    case GreedyPlayer => OwnSolvers.Name
    case MonteCarloCpuPlayer(_) => MonteCarloCpu.Name
    case MonteCarloGpuPlayer(_) => MonteCarloGpu.NameAsWritten
  }

  /** The name each solver reports, with the GPU solver's name corrected. */
  function SolverName(s: Solver): string
  {
    match s
    case RandomPlayer => RandomSolvers.Name
    case GreedyPlayer => OwnSolvers.Name
    case MonteCarloCpuPlayer(_) => MonteCarloCpu.Name
    case MonteCarloGpuPlayer(_) => MonteCarloGpu.Name
  }

  /** As written, two solvers of different kinds can report the same name:
      the two Monte-Carlo solvers do. */
  lemma NamesAsWrittenCollide(cpu: MonteCarloCpu.MonteCarloSolverCpu, gpu: MonteCarloGpu.MonteCarloSolverGpu)
    ensures SolverNameAsWritten(MonteCarloCpuPlayer(cpu)) == SolverNameAsWritten(MonteCarloGpuPlayer(gpu))
  {
  }

  /** With the corrected name, solvers of different kinds report different
      names. */
  lemma NamesTellKindsApart(s: Solver, t: Solver)
    requires s.RandomPlayer? != t.RandomPlayer? || s.GreedyPlayer? != t.GreedyPlayer?
          || s.MonteCarloCpuPlayer? != t.MonteCarloCpuPlayer?
    ensures SolverName(s) != SolverName(t)
  {
    assert RandomSolvers.Name[0] == 'R' && OwnSolvers.Name[0] == 'S';
    assert MonteCarloCpu.Name[0] == 'C' && MonteCarloGpu.Name[0] == 'G';
  }

  /** The move solver s picks in game g on a turn's draws, when some move
      is available (the random solver has no other case). */
  function Decide(s: Solver, g: Game, t: TurnDraws): (d: Direction)
    requires AvailableMoves(g.cells) != []
    ensures d in AvailableMoves(g.cells) && Changes(g.cells, d)
  {
    match s
    case RandomPlayer => RandomSolvers.NextMove(g, t.pick)
    case GreedyPlayer =>
      OwnSolvers.GreedyChoiceIsFirstBest(g);
      OwnSolvers.GreedyChoice(g)
    case MonteCarloCpuPlayer(cpu) =>
      MonteCarloChoiceIsFirstBest(g, cpu.simulationsPerMove, cpu.maxStepsPerSimulation, t.rollouts);
      MonteCarloChoice(g, cpu.simulationsPerMove, cpu.maxStepsPerSimulation, t.rollouts)
    case MonteCarloGpuPlayer(gpu) =>
      MonteCarloChoiceIsFirstBest(g, gpu.simulationsPerMove, gpu.maxStepsPerSimulation, t.rollouts);
      MonteCarloChoice(g, gpu.simulationsPerMove, gpu.maxStepsPerSimulation, t.rollouts)
  }

  /** GetNextMove of the solver interface, dispatched on the solver's kind. */
  method GetNextMove(s: Solver, game: GameEngine, ghost g: Game, t: TurnDraws) returns (d: Direction)
    requires game.Valid() && game.Snapshot() == g && AvailableMoves(g.cells) != []
    ensures d == Decide(s, g, t)
    ensures game.Snapshot() == g
  {
    match s
    case RandomPlayer =>
      var moves := game.GetAvailableMoves();
      d := RandomSolvers.Pick(moves, t.pick);
    case GreedyPlayer =>
      d := OwnSolvers.GetNextMove(game, g, t.trials);
    case MonteCarloCpuPlayer(cpu) =>
      d := cpu.GetNextMove(game, g, t.rollouts);
    case MonteCarloGpuPlayer(gpu) =>
      d := gpu.GetNextMove(game, g, t.rollouts);
  }

  /** A game played by solver s from turn i on until it is no longer under
      way. Every turn is an accepted move that adds a tile, and a game under
      way holds less than sixteen 2048 tiles' worth, so play ends. */
  function PlayOut(s: Solver, g: Game, turns: seq<TurnDraws>, i: nat): (h: Game)
    requires WellFormed(g)
    ensures WellFormed(h)
    decreases Size * Size * (WinValue - 1) - GridSum(g.cells)
  {
    if g.state != Playing then g
    else
      PlayingHasMoves(g);
      PlayingSumBound(g);
      var t := TurnAt(turns, i);
      var d := Decide(s, g, t);
      StepKeepsWellFormed(g, d, t.slotDraw, t.valueDraw);
      AcceptedMoveSpawns(g, d, t.slotDraw, t.valueDraw);
      PlayOut(s, Step(g, d, t.slotDraw, t.valueDraw), turns, i + 1)
  }

  /** A game under way plays out as the game after its next turn does; the
      turn keeps the game well formed and adds to its tiles. */
  lemma PlayOutTurn(s: Solver, g: Game, turns: seq<TurnDraws>, i: nat)
    requires WellFormed(g) && g.state == Playing && AvailableMoves(g.cells) != []
    ensures var t := TurnAt(turns, i);
      var h := Step(g, Decide(s, g, t), t.slotDraw, t.valueDraw);
      && WellFormed(h) && GridSum(h.cells) > GridSum(g.cells)
      && PlayOut(s, g, turns, i) == PlayOut(s, h, turns, i + 1)
  {
    var t := TurnAt(turns, i);
    var d := Decide(s, g, t);
    StepKeepsWellFormed(g, d, t.slotDraw, t.valueDraw);
    AcceptedMoveSpawns(g, d, t.slotDraw, t.valueDraw);
  }

  /** A game played out is over: won, or lost with no move left. */
  lemma {:induction false} PlayOutFinishes(s: Solver, g: Game, turns: seq<TurnDraws>, i: nat)
    requires WellFormed(g)
    ensures var h := PlayOut(s, g, turns, i);
      && h.state != Playing
      && (h.state == Won <==> HasWinningTile(h.cells))
      && (h.state == Lost ==> AvailableMoves(h.cells) == [])
    decreases Size * Size * (WinValue - 1) - GridSum(g.cells)
  {
    if g.state == Playing {
      PlayingHasMoves(g);
      PlayingSumBound(g);
      var t := TurnAt(turns, i);
      var d := Decide(s, g, t);
      StepKeepsWellFormed(g, d, t.slotDraw, t.valueDraw);
      AcceptedMoveSpawns(g, d, t.slotDraw, t.valueDraw);
      PlayOutFinishes(s, Step(g, d, t.slotDraw, t.valueDraw), turns, i + 1);
    } else if g.state == Lost {
      LostHasNoMoves(g);
    }
  }
}
