/** The statistics runner: it plays a number of games with each solver,
    records each finished game, and collects the records of all solvers
    keyed by solver name.

    A game's random numbers are passed in: the two spawn draws of the new
    game, the draws of each turn, and the game's measured duration. */
module StatisticsRunners {
  import opened Lines
  import opened Grids
  import opened Games
  import opened Engine
  import opened Solvers
  import opened GameStatistics
  import opened Summaries
  import Choice
  import RandomSolvers
  import OwnSolvers
  import MonteCarloCpu
  import MonteCarloGpu

  /** The random numbers and the measured duration of one game. */
  datatype GameDraws = GameDraws(slot1: nat, value1: nat, slot2: nat, value2: nat,
                                 turns: seq<TurnDraws>, duration: int)

  /** Game number i of a list of games; games past the end draw zeros. */
  function GameAt(games: seq<GameDraws>, i: nat): GameDraws
  {
    if i < |games| then games[i] else GameDraws(0, 0, 0, 0, [], 0)
  }

  /** The games of solver number i of a list; solvers past the end have
      none. */
  function GamesAt(games: seq<seq<GameDraws>>, i: nat): seq<GameDraws>
  {
    if i < |games| then games[i] else []
  }

  /** The game solver s plays on the given draws, from the new game to its
      end. */
  function FinalGame(s: Solver, gd: GameDraws): (h: Game)
    ensures WellFormed(h) && h.state != Playing
    ensures h.state == Lost ==> AvailableMoves(h.cells) == []
  {
    var start := NewGame(gd.slot1, gd.value1, gd.slot2, gd.value2);
    NewGameWellFormed(gd.slot1, gd.value1, gd.slot2, gd.value2);
    PlayOutFinishes(s, start, gd.turns, 0);
    PlayOut(s, start, gd.turns, 0)
  }

  /** The record of one game solver s plays: it carries the solver's name,
      says "won" exactly when the largest tile reached 2048, and counts
      every accepted move once. */
  function GameRecord(s: Solver, gd: GameDraws): (r: GameStats)
    ensures r.solverName == SolverName(s) && r.duration == gd.duration
    ensures r.won <==> r.maxTile >= WinValue
    ensures r.totalMoves == r.movesUp + r.movesDown + r.movesLeft + r.movesRight
  {
    var h := FinalGame(s, gd);
    FinishedWonIffWinningTile(h, SolverName(s), gd.duration);
    FromGame(h, SolverName(s), gd.duration)
  }

  /** The records of the first n games solver s plays, in order; none for
      n <= 0. */
  function SolverRuns(s: Solver, n: int, games: seq<GameDraws>): seq<GameStats>
  {
    Choice.Prefix(n, (i: nat) => GameRecord(s, GameAt(games, i)))
  }

  /** One more game adds its record at the end of the runs. */
  lemma SolverRunsSnoc(s: Solver, n: nat, games: seq<GameDraws>)
    ensures SolverRuns(s, n + 1, games) == SolverRuns(s, n, games) + [GameRecord(s, GameAt(games, n))]
  {
    Choice.PrefixSnoc(n, (i: nat) => GameRecord(s, GameAt(games, i)));
  }

  /** Every record of a solver's runs carries the solver's name, says "won"
      exactly when its largest tile reached 2048, and has a move total
      that is the sum of its four counters. */
  lemma SolverRunsRecords(s: Solver, n: int, games: seq<GameDraws>)
    ensures GameRecords(SolverRuns(s, n, games), SolverName(s), WinValue)
  {
  }

  /** The summary of a solver's runs names the solver, counts a win exactly
      for each game whose largest tile reached 2048, so that it has a win
      exactly when its best tile reached 2048, and its mean move total is
      the sum of its mean move counters. */
  lemma SummaryOfRuns(s: Solver, n: int, games: seq<GameDraws>)
    requires n > 0
    ensures var sum := CalculateStatistics(SolverRuns(s, n, games));
      && sum.solverName == SolverName(s)
      && sum.gamesPlayed == n
      && (sum.winCount > 0 <==> sum.bestMaxTile >= WinValue)
      && sum.averageTotalMoves == sum.averageMovesUp + sum.averageMovesDown + sum.averageMovesLeft + sum.averageMovesRight
  {
    SolverRunsRecords(s, n, games);
    SummaryOfGameRecords(SolverRuns(s, n, games), SolverName(s), WinValue);
  }

  // ---------------------------------------------------------------------
  // Collecting the results of several solvers

  /** The names the solvers report, with the GPU solver's name corrected. */
  function Names(solvers: seq<Solver>): seq<string>
  {
    seq(|solvers|, i requires 0 <= i < |solvers| => SolverName(solvers[i]))
  }

  /** The names the solvers report, as written. */
  function NamesAsWritten(solvers: seq<Solver>): seq<string>
  {
    seq(|solvers|, i requires 0 <= i < |solvers| => SolverNameAsWritten(solvers[i]))
  }

  /** The runs of every solver, n games each; solver i plays the games of
      entry i. */
  function AllRuns(solvers: seq<Solver>, n: int, games: seq<seq<GameDraws>>): seq<seq<GameStats>>
  {
    seq(|solvers|, i requires 0 <= i < |solvers| => SolverRuns(solvers[i], n, GamesAt(games, i)))
  }

  /** The dictionary the results are stored in, one name after the other:
      entry i is stored under name i, replacing what an earlier entry of
      the same name stored. */
  function Keyed(names: seq<string>, runs: seq<seq<GameStats>>): map<string, seq<GameStats>>
    requires |names| == |runs|
  {
    if |names| == 0 then map[]
    else Keyed(names[..|names| - 1], runs[..|runs| - 1])[names[|names| - 1] := runs[|runs| - 1]]
  }

  /** The dictionary has exactly the names as keys. */
  lemma {:induction false} KeyedKeys(names: seq<string>, runs: seq<seq<GameStats>>)
    requires |names| == |runs|
    ensures Keyed(names, runs).Keys == set i | 0 <= i < |names| :: names[i]
  {
    if |names| > 0 {
      var last := |names| - 1;
      KeyedKeys(names[..last], runs[..last]);
      var before := set i | 0 <= i < last :: names[..last][i];
      assert before == set i | 0 <= i < last :: names[i];
      var all := set i | 0 <= i < |names| :: names[i];
      forall x | x in all ensures x in before + {names[last]} {
        var i :| 0 <= i < |names| && names[i] == x;
        if i < last {
          assert names[..last][i] == x;
        }
      }
      assert all == before + {names[last]};
    }
  }

  /** Under each name the dictionary holds the runs of the last entry with
      that name. */
  lemma {:induction false} KeyedLastWins(names: seq<string>, runs: seq<seq<GameStats>>, j: nat)
    requires |names| == |runs| && j < |names|
    requires forall k :: j < k < |names| ==> names[k] != names[j]
    ensures names[j] in Keyed(names, runs) && Keyed(names, runs)[names[j]] == runs[j]
  {
    var last := |names| - 1;
    if j < last {
      forall k | j < k < last ensures names[..last][k] != names[..last][j] {
        assert names[k] != names[j];
      }
      KeyedLastWins(names[..last], runs[..last], j);
      assert names[last] != names[j];
    }
  }

  /** Storing one more entry stores it over the dictionary of the entries
      before it. */
  lemma KeyedSnoc(names: seq<string>, runs: seq<seq<GameStats>>, j: nat)
    requires |names| == |runs| && j < |names|
    ensures Keyed(names[..j + 1], runs[..j + 1]) == Keyed(names[..j], runs[..j])[names[j] := runs[j]]
  {
    assert names[..j + 1][..j] == names[..j] && runs[..j + 1][..j] == runs[..j];
  }

  /** With distinct names, every solver's runs are kept under its name. */
  lemma DistinctNamesKeepAll(names: seq<string>, runs: seq<seq<GameStats>>)
    requires |names| == |runs|
    requires forall j, k :: 0 <= j < k < |names| ==> names[j] != names[k]
    ensures forall j :: 0 <= j < |names| ==> names[j] in Keyed(names, runs) && Keyed(names, runs)[names[j]] == runs[j]
  {
    forall j | 0 <= j < |names|
      ensures names[j] in Keyed(names, runs) && Keyed(names, runs)[names[j]] == runs[j]
    {
      KeyedLastWins(names, runs, j);
    }
  }

  /** As written, the record of a GPU game names the CPU solver: it is the
      record the model keeps, with the CPU solver's name in place of the
      GPU solver's. */
  lemma GpuRecordNamesCpuAsWritten(gpu: MonteCarloGpu.MonteCarloSolverGpu, gd: GameDraws)
    ensures var s := MonteCarloGpuPlayer(gpu);
      var asWritten := FromGame(FinalGame(s, gd), SolverNameAsWritten(s), gd.duration);
      && asWritten.solverName == MonteCarloCpu.Name
      && GameRecord(s, gd).solverName != MonteCarloCpu.Name
      && asWritten == GameRecord(s, gd).(solverName := MonteCarloCpu.Name)
  {
    var s := MonteCarloGpuPlayer(gpu);
    var h := FinalGame(s, gd);
    MonteCarloGpu.NameDiffersFromCpu();
    assert GameRecord(s, gd) == FromGame(h, SolverName(s), gd.duration);
    RecordUnderOtherName(h, SolverName(s), SolverNameAsWritten(s), gd.duration);
  }

  /** The record of a game under another solver name differs only in that
      name. */
  lemma RecordUnderOtherName(g: Game, name: string, other: string, duration: int)
    ensures FromGame(g, other, duration) == FromGame(g, name, duration).(solverName := other)
  {
  }

  /** As written, running the program's four solvers keeps only three
      entries: the GPU solver's runs replace the CPU solver's under the
      shared name. */
  lemma CpuRunsLostAsWritten(cpu: MonteCarloCpu.MonteCarloSolverCpu, gpu: MonteCarloGpu.MonteCarloSolverGpu,
                             n: int, games: seq<seq<GameDraws>>)
    ensures var solvers := [RandomPlayer, GreedyPlayer, MonteCarloCpuPlayer(cpu), MonteCarloGpuPlayer(gpu)];
      var runs := AllRuns(solvers, n, games);
      var m := Keyed(NamesAsWritten(solvers), runs);
      && m.Keys == {RandomSolvers.Name, OwnSolvers.Name, MonteCarloCpu.Name}
      && m[MonteCarloCpu.Name] == runs[3]
  {
    var solvers := [RandomPlayer, GreedyPlayer, MonteCarloCpuPlayer(cpu), MonteCarloGpuPlayer(gpu)];
    var names := NamesAsWritten(solvers);
    assert names == [RandomSolvers.Name, OwnSolvers.Name, MonteCarloCpu.Name, MonteCarloCpu.Name];
    LastOfFourReplaces(RandomSolvers.Name, OwnSolvers.Name, MonteCarloCpu.Name, AllRuns(solvers, n, games));
  }

  /** Storing four entries whose last two share a name keeps three keys,
      the shared one holding the last entry. */
  lemma LastOfFourReplaces(a: string, b: string, c: string, runs: seq<seq<GameStats>>)
    requires |runs| == 4
    ensures var m := Keyed([a, b, c, c], runs);
      m.Keys == {a, b, c} && m[c] == runs[3]
  {
    var names := [a, b, c, c];
    KeyedKeys(names, runs);
    KeyedLastWins(names, runs, 3);
    assert (set i | 0 <= i < 4 :: names[i]) == {a, b, c} by {
      assert names[0] == a && names[1] == b && names[2] == c;
    }
    assert names[3] == c;
  }

  /** With the GPU solver's name corrected, the four solvers keep four
      entries, each under its own name. */
  lemma AllRunsKept(cpu: MonteCarloCpu.MonteCarloSolverCpu, gpu: MonteCarloGpu.MonteCarloSolverGpu,
                    n: int, games: seq<seq<GameDraws>>)
    ensures var solvers := [RandomPlayer, GreedyPlayer, MonteCarloCpuPlayer(cpu), MonteCarloGpuPlayer(gpu)];
      var runs := AllRuns(solvers, n, games);
      var m := Keyed(Names(solvers), runs);
      forall j :: 0 <= j < 4 ==> SolverName(solvers[j]) in m && m[SolverName(solvers[j])] == runs[j]
  {
    var solvers := [RandomPlayer, GreedyPlayer, MonteCarloCpuPlayer(cpu), MonteCarloGpuPlayer(gpu)];
    assert forall j :: 0 <= j < 4 ==> Names(solvers)[j] == SolverName(solvers[j]);
    forall j, k | 0 <= j < k < 4 ensures Names(solvers)[j] != Names(solvers)[k] {
      NamesTellKindsApart(solvers[j], solvers[k]);
    }
    DistinctNamesKeepAll(Names(solvers), AllRuns(solvers, n, games));
  }

  // ---------------------------------------------------------------------
  // The runner

  class StatisticsRunner {
    const gamesPerSolver: int

    constructor (gamesPerSolver: int := 10)
      ensures this.gamesPerSolver == gamesPerSolver
    {
      this.gamesPerSolver := gamesPerSolver;
    }

    /** One game of RunSolver: a new engine, played by the solver until the
        game is no longer under way, then recorded. */
    method PlayGame(solver: Solver, gd: GameDraws) returns (stats: GameStats)
      ensures stats == GameRecord(solver, gd)
    {
      var game := new GameEngine(gd.slot1, gd.value1, gd.slot2, gd.value2);
      ghost var start := game.Snapshot();
      NewGameWellFormed(gd.slot1, gd.value1, gd.slot2, gd.value2);
      var i := 0;
      while game.state == Playing
        invariant fresh(game) && fresh(game.board) && game.Valid()
        invariant WellFormed(game.Snapshot())
        invariant PlayOut(solver, game.Snapshot(), gd.turns, i) == PlayOut(solver, start, gd.turns, 0)
        decreases Size * Size * (WinValue - 1) - GridSum(game.Cells())
      {
        ghost var g := game.Snapshot();
        PlayingHasMoves(g);
        PlayingSumBound(g);
        var noMoves := PlayTurn(solver, game, g, gd.turns, i);
        if noMoves {
          assert false;
          break;
        }
        i := i + 1;
      }
      stats := FromGame(game.Snapshot(), SolverName(solver), gd.duration);
    }

    /** One pass of the game loop: when the game has no available move it
        says so and changes nothing; otherwise the solver picks a move on
        the turn's draws and the engine makes it. */
    method PlayTurn(solver: Solver, game: GameEngine, ghost g: Game, turns: seq<TurnDraws>, i: nat)
      returns (noMoves: bool)
      requires game.Valid() && game.Snapshot() == g
      requires WellFormed(g) && g.state == Playing
      modifies game, game.board
      ensures game.Valid() && game.board == old(game.board)
      ensures noMoves <==> AvailableMoves(g.cells) == []
      ensures !noMoves ==> && WellFormed(game.Snapshot()) && GridSum(game.Cells()) > GridSum(g.cells)
                           && PlayOut(solver, game.Snapshot(), turns, i + 1) == PlayOut(solver, g, turns, i)
    {
      var availableMoves := game.GetAvailableMoves();
      if |availableMoves| == 0 {
        return true;
      }
      var t := TurnAt(turns, i);
      var move := GetNextMove(solver, game, g, t);
      var moved := game.Move(move, t.slotDraw, t.valueDraw);
      PlayOutTurn(solver, g, turns, i);
      noMoves := false;
    }

    /** RunSolver: the records of gamesPerSolver games of the solver, in the
        order played; game i plays on entry i of the draws. */
    method RunSolver(solver: Solver, games: seq<GameDraws>) returns (results: seq<GameStats>)
      ensures results == SolverRuns(solver, gamesPerSolver, games)
    {
      results := [];
      var i := 0;
      while i < gamesPerSolver
        invariant 0 <= i && (i <= gamesPerSolver || i == 0)
        invariant results == SolverRuns(solver, i, games)
      {
        var stats := PlayGame(solver, GameAt(games, i));
        SolverRunsSnoc(solver, i, games);
        results := results + [stats];
        i := i + 1;
      }
    }

    /** RunAllSolvers: every solver's runs, stored under the name it
        reports; solver i plays the games of entry i. */
    method RunAllSolvers(solvers: seq<Solver>, games: seq<seq<GameDraws>>)
      returns (allResults: map<string, seq<GameStats>>)
      ensures allResults == Keyed(Names(solvers), AllRuns(solvers, gamesPerSolver, games))
    {
      allResults := map[];
      ghost var names := Names(solvers);
      ghost var runs := AllRuns(solvers, gamesPerSolver, games);
      for j := 0 to |solvers|
        invariant allResults == Keyed(names[..j], runs[..j])
      {
        var results := RunSolver(solvers[j], GamesAt(games, j));
        KeyedSnoc(names, runs, j);
        allResults := allResults[SolverName(solvers[j]) := results];
      }
      assert names[..|solvers|] == names && runs[..|solvers|] == runs;
    }
  }
}
