# hra2048 — a verified model of the 2048 engine, its solvers and its statistics

This project models the core of hra2048, a 2048 game with automatic solvers and a benchmark that
summarises their games. It covers:

- **The engine (`GameEngine`).** A 4×4 board of ints, the score, a `Playing`/`Won`/`Lost` state and
  four per-direction move counters. A move slides every row or column: it compacts each line,
  merges equal neighbours once from the front, spawns one tile when something changed, and then
  checks for a win before it checks for a loss.
- **Four solvers.**
  - A random solver.
  - A greedy one-move solver ("Stupid Solver").
  - Two Monte-Carlo solvers (CPU and GPU) that average the evaluations of random rollouts.
- **The statistics.**
  - The record of one game (`GameStats.FromGame`).
  - The summary of a solver's games (`CalculateStatistics`, `GetMedian`).
  - The runner that plays a number of games per solver (`RunSolver`) and stores each solver's
    games under its name (`RunAllSolvers`).

The model is built in layers:

- **`Lines`, `Grids`, `Games`: the engine's behaviour as values.**
  - `Processed` is one line after a move, with `Gain` the points it earns.
  - `MoveGrid` is a whole board after a move.
  - `Spawn` places the new tile.
  - `CheckState` is the win/loss check.
  - `Step` is one call of `Move` on a `Game` value. The `Game` value holds the engine's fields.
- **`Engine.GameEngine`: the engine itself.**
  - It is a class whose board is an `array2<int>`, with the engine's loops.
  - Each method is proved against the value layer: `Move` ends in
    `Snapshot() == Step(old(Snapshot()), …)`, and `ProcessLine` returns `Processed(line[..])`.
  - The two scratch-array loops of `ProcessLine` are in `LineArrays`.
- **`RandomSolvers`, `OwnSolvers`, `Rollouts`, `MonteCarloCpu`, `MonteCarloGpu`: the solvers.**
  - `Choice` holds the strict-`>` selection they share.
  - The loops over the available moves and the rollout loops are methods, proved against
    functions: `GreedyChoice` and `MonteCarloChoice`.
- **`GameStatistics`, `Summaries`, `Solvers`, `StatisticsRunners`: the statistics.**
  - `CalculateStatistics` and `GetMedian` are functions over a sequence of records.
  - `RunSolver` and `RunAllSolvers` are loops of the `StatisticsRunner` class.
  - Those loops are proved against `SolverRuns` (the records of a solver's games) and `Keyed`
    (the dictionary written one name after the other).

Choices the model makes:

- **Randomness.** Every use of `System.Random` becomes a caller-supplied number.
  - A spawn takes two draws. The new tile goes in empty cell number `slotDraw % count`, counting
    empty cells row by row. The tile is 2 when `valueDraw % 10 < 9` and 4 otherwise.
  - The random solver takes one draw and picks move `draw % count`.
  - Draw streams are finite sequences. A position past the end reads zeros.
- **Solvers.** The solver interface becomes the datatype `Solvers.Solver` with one variant per
  solver. The Monte-Carlo variants carry their solver objects, which hold their settings.
- **Parallel rollouts.** `Parallel.For` over a candidate's rollouts becomes a sequential sum. The
  sum does not depend on the order of the additions.
- **Numbers.**
  - `double` averages are `real`s.
  - An average over zero simulations (`NaN` in the source) is `None`.
  - The `double.MinValue` starting best is `None`, which every average beats.
- **Durations.** A duration is a whole number of ticks, passed in per game in place of the
  stopwatch.
- **Ghost parameters.** Methods that read an engine take a ghost `g: Game` equal to its snapshot.
  The parameter only names the state the contract talks about.
- **Helper methods.** Parts of the source's loop bodies are their own methods, so that each loop
  can be proved piece by piece:
  - `TryMove` and `ConsiderMove` are the bodies of the `foreach` loops over the moves.
  - `PlayGame` and `PlayTurn` are `RunSolver`'s inner game loop.

## Model

| member | source | states |
|---|---|---|
| Lines.Compact | Models/GameEngine.cs:269-278 | compacting a line never makes it longer |
| Lines.CompactNoZero | Models/GameEngine.cs:272-278 | the compacted line holds no empty cell |
| Lines.CompactSumCount | Models/GameEngine.cs:269-278 | compacting keeps the line's sum and keeps exactly its non-zero cells |
| Lines.CompactFull | Models/GameEngine.cs:272-278 | a line without empty cells compacts to itself |
| Lines.Merge | Models/GameEngine.cs:281-296 | merging shortens the compacted line by at most half: each output cell comes from one or two input cells |
| Lines.MergeNoZero | Models/GameEngine.cs:283-295 | merging a line without zeros writes no zero |
| Lines.MergeSum | Models/GameEngine.cs:281-296 | merging keeps the line's sum: each merged cell is twice the pair it replaces |
| Lines.MergeNoPair | Models/GameEngine.cs:285-295 | a line with no equal neighbours merges to itself and earns nothing |
| Lines.MergeShrinks | Models/GameEngine.cs:285-291 | a line with an equal neighbour pair gets shorter |
| Lines.MergeSameLength | Models/GameEngine.cs:285-295 | a merge that keeps the length changed nothing and earned nothing |
| Lines.MergeWalkSuffix | Models/GameEngine.cs:281-296 | the index walk with `i++` skips, from any position, appends exactly the merge of the rest and adds its gain |
| Lines.MergeWalkIsMerge | Models/GameEngine.cs:281-296 | the index walk of the merge loop yields the merged line and its gain, so no merged cell merges again |
| Lines.MergeTiles | Models/GameEngine.cs:285-295 | merging tiles (powers of two ≥ 2) gives tiles, with a non-negative gain |
| Lines.CompactTiles | Models/GameEngine.cs:272-278 | compacting keeps every cell a tile |
| Lines.Processed | Models/GameEngine.cs:263-309 | a processed line has the input's length |
| Lines.ProcessedCount | Models/GameEngine.cs:263-296 | the processed line's non-zero cells are exactly the merged compacted cells |
| Lines.ProcessedSumCount | Models/GameEngine.cs:263-296 | processing keeps the line's sum and never increases, nor more than halves, its count of non-zero cells |
| Lines.ProcessedLeftAligned | Models/GameEngine.cs:263-296 | every processed line is left-aligned: no tile after an empty cell |
| Lines.ProcessedTiles | Models/GameEngine.cs:263-296 | processing a line of tiles gives tiles and a non-negative score gain |
| Lines.NoGapNoPairUnchanged | Models/GameEngine.cs:263-306 | a full line with no equal neighbours is unchanged and earns nothing |
| Lines.NoGapPairChanges | Models/GameEngine.cs:263-306 | a full line with an equal neighbour pair changes |
| Lines.UnchangedNoGain | Models/GameEngine.cs:285-306 | a line the move does not change earns no points |
| Lines.ChangedLineHasEmpty | Models/GameEngine.cs:263-306 | a line the move changes holds an empty cell afterwards |
| Lines.FourEqualTilesMergeTwice | Models/GameEngine.cs:263-296 | [2,2,2,2] becomes [4,4,0,0] and earns 8 |
| Lines.GapThenPairSlides | Models/GameEngine.cs:263-296 | [0,2,2,0] becomes [4,0,0,0] and earns 4 |
| LineArrays.CompactLine | Models/GameEngine.cs:269-278 | the compaction loop writes the compacted line to the front of a fresh array, zeros after it, and `compactIndex` is its length |
| LineArrays.MergeCompacted | Models/GameEngine.cs:280-296 | the merge loop writes the merged line padded with zeros and returns its gain |
| LineArrays.LineChanged | Models/GameEngine.cs:298-306 | the comparison loop reports true exactly when the result differs from the input at some index |
| Grids.EmptyGrid | Models/GameEngine.cs:65 | a new board holds only empty cells |
| Grids.LineAt | Models/GameEngine.cs:176-258 | every line read from the board has four cells |
| Grids.PositionRoundTrip | Models/GameEngine.cs:176-258 | reading cell i of line k and writing it back address the same board position, for all four directions, including the reversed reads of Right and Down |
| Grids.MovedLine | Models/GameEngine.cs:176-258 | after a move, each line of the board read in that direction is the processed original line |
| Grids.EqualByLines | Models/GameEngine.cs:176-258 | two boards are equal exactly when their four lines in a direction are |
| Grids.ChangesIffSomeLine | Models/GameEngine.cs:176-258 | a board move reports a change exactly when one of its four lines changed |
| Grids.ChangesIffBoardDiffers | Models/GameEngine.cs:176-258 | a board move reports a change exactly when the board after it differs |
| Grids.UnchangedNoMoveGain | Models/GameEngine.cs:176-258 | a move that changes nothing adds no points |
| Grids.MoveKeepsTiles | Models/GameEngine.cs:176-258 | a move keeps every cell empty or a tile, and adds a non-negative score |
| Grids.MoveKeepsSum | Models/GameEngine.cs:176-258 | a move keeps the board's sum |
| Grids.EmptyUpToSound | Models/GameEngine.cs:317-322 | each listed slot is an empty cell before the scan position |
| Grids.EmptyUpToComplete | Models/GameEngine.cs:317-322 | every empty cell before the scan position is listed |
| Grids.EmptyCellsExact | Models/GameEngine.cs:317-322 | a cell is in the empty-slot list exactly when it is empty |
| Grids.EmptyGridCount | Models/GameEngine.cs:65-74 | a new board has sixteen empty cells |
| Grids.EmptyCountPositive | Models/GameEngine.cs:324 | the empty count is positive exactly when some cell is empty |
| Grids.TileFor | Models/GameEngine.cs:328 | the spawned value is 2 or 4: 2 for draws 0-8, 4 for draw 9 |
| Grids.SpawnCell | Models/GameEngine.cs:324-326 | the spawn cell is empty, and for an in-range draw it is that entry of the empty-slot list |
| Grids.SpawnFillsOneCell | Models/GameEngine.cs:315-330 | a spawn writes 2 or 4 into one previously empty cell and changes no other |
| Grids.SpawnCount | Models/GameEngine.cs:315-330 | a spawn removes exactly one empty cell |
| Grids.SpawnSum | Models/GameEngine.cs:315-330 | a spawn adds the new tile's value to the board's sum |
| Grids.SpawnKeepsTiles | Models/GameEngine.cs:328 | a spawn keeps every cell empty or a tile |
| Grids.MaxTileIsMaximum | Models/GameEngine.cs:151-159 | the max tile is ≥ 0, at least every cell, and is a cell's value unless it is 0 |
| Grids.FullNoPairNoMove | Models/GameEngine.cs:354-375 | a board with no empty cell and no equal neighbours admits no move |
| Grids.EmptyOrPairIffSomeMove | Models/GameEngine.cs:347-375 | on a board with a tile, `HasValidMove`'s test holds exactly when some direction changes the board |
| Grids.ChangedMoveLeavesEmpty | Models/GameEngine.cs:107-110 | after a move that changed the board there is an empty cell for the spawn |
| Grids.SlideLeftExample | Models/GameEngine.cs:176-195 | a row [0,2,2,0] moved left becomes [4,0,0,0] and earns 4 |
| Grids.SlideRightExample | Models/GameEngine.cs:197-216 | a row [0,2,2,0] moved right becomes [0,0,0,4] and earns 4 |
| Games.AvailableMovesSplit | Models/GameEngine.cs:136-146 | the available moves are Up, Down, Left, Right in that order, each kept when it changes the board |
| Games.AvailableMovesExact | Models/GameEngine.cs:136-146 | a direction is listed exactly when it changes the board |
| Games.AvailableMovesOrdered | Models/GameEngine.cs:136-146 | the list keeps the order Up, Down, Left, Right with no repeats |
| Games.NewGameShape | Models/GameEngine.cs:63-75 | a new game has score 0, zero counters, state Playing, and exactly two tiles, each 2 or 4 |
| Games.NewGameWellFormed | Models/GameEngine.cs:63-75 | a new game satisfies the engine's invariant |
| Games.RefusedMoveChangesNothing | Models/GameEngine.cs:81-114 | a move returns false exactly when it leaves board, score, state and counters unchanged, including every move outside Playing |
| Games.StepMoved | Models/GameEngine.cs:81-114 | an accepted move slides the board, spawns, adds the gain, counts its direction and re-checks the state |
| Games.AcceptedMoveCounts | Models/GameEngine.cs:87-105 | an accepted move adds the merged values to the score, increments only its own counter, and adds one to the total |
| Games.AcceptedMoveSpawns | Models/GameEngine.cs:107-110 | an accepted move spawns exactly one tile: one empty cell fewer than after the slide, and the sum grows by the tile |
| Games.ScoreIgnoresSpawn | Models/GameEngine.cs:107-111 | the score and move total after a move do not depend on the spawn draws |
| Games.StateAfterMove | Models/GameEngine.cs:332-352 | after an accepted move the game is Won exactly when a cell is ≥ 2048, and Lost exactly when no cell is ≥ 2048 and no cell is empty or has an equal neighbour |
| Games.StepKeepsWellFormed | Models/GameEngine.cs:81-114 | every move keeps the engine's invariant: cells are empty or powers of two, some tile exists, score and counters are ≥ 0, and the state agrees with the board |
| Games.PlayingSumBound | Models/GameEngine.cs:332-345 | a well-formed game under way has a board sum between 0 and 16·2047, since no cell reached 2048 |
| Games.PlayingHasMoves | Models/GameEngine.cs:347-375 | a well-formed game under way has an available move |
| Games.LostHasNoMoves | Models/GameEngine.cs:347-375 | a lost game has no available move |
| Games.PlayCountsMoves | Models/GameEngine.cs:20 | over any sequence of moves, the move total grows by exactly the number of accepted moves |
| Games.PlayScoreGrows | Models/GameEngine.cs:289 | the score never decreases over any sequence of moves |
| Engine.GameEngine.Blank | Models/GameEngine.cs:37-40 | the cloning constructor gives an empty board, score 0, Playing and zero counters |
| Engine.GameEngine.constructor | Models/GameEngine.cs:30-34 | a new engine holds the new game of its spawn draws |
| Engine.GameEngine.Clone | Models/GameEngine.cs:45-61 | the clone is a fresh engine with a fresh board, equal in every field to the original |
| Engine.GameEngine.StartNewGame | Models/GameEngine.cs:63-75 | the engine is reset to the new game of the spawn draws, on a fresh board |
| Engine.GameEngine.Move | Models/GameEngine.cs:81-114 | the engine's new state is `Step` of the old one, and the result says whether the move was accepted |
| Engine.GameEngine.CanMove | Models/GameEngine.cs:119-131 | reports whether the direction changes the board, without changing the engine |
| Engine.GameEngine.GetAvailableMoves | Models/GameEngine.cs:136-146 | returns the available moves of the board, without changing the engine |
| Engine.GameEngine.GetMaxTile | Models/GameEngine.cs:151-159 | returns the board's largest cell (0 on an empty board) |
| Engine.GameEngine.GetEmptyCount | Models/GameEngine.cs:164-172 | returns the number of empty cells |
| Engine.GameEngine.Slide | Models/GameEngine.cs:176-258 | the four directional move loops: the board becomes `MoveGrid` of the old board, the score grows by the move's gain, and the result says whether it changed |
| Engine.GameEngine.SlideLine | Models/GameEngine.cs:180-192 | one pass of a move loop writes back the processed line k, adds its gain, and reports whether the line changed |
| Engine.GameEngine.ProcessLine | Models/GameEngine.cs:263-309 | returns the processed line in a fresh array, adds its gain to the score, and reports whether it differs from the input |
| Engine.GameEngine.SpawnTile | Models/GameEngine.cs:315-330 | the board becomes `Spawn` of the old board on the two draws |
| Engine.GameEngine.EmptySlots | Models/GameEngine.cs:317-322 | lists the empty cells in row-major order |
| Engine.GameEngine.CheckGameState | Models/GameEngine.cs:332-352 | sets Won when some cell is ≥ 2048, otherwise Lost when no move is valid, otherwise keeps the state |
| Engine.GameEngine.HasValidMove | Models/GameEngine.cs:354-375 | returns whether some cell is empty or has an equal right or lower neighbour |
| Choice.BestFromKeeps | Models/Montecarlosolvercpu.cs:66-70 | the strict-`>` selection loop keeps, from any point, the first value strictly above all earlier ones and the threshold |
| Choice.FirstBest | Models/Montecarlosolvercpu.cs:28-71 | the kept index is in range; nothing beats the kept value; either nothing beat the threshold and index 0 is kept, or the kept value beats the threshold and every earlier value |
| Choice.FirstMaximum | Models/Montecarlosolvercpu.cs:66-70 | when some value beats the threshold, the kept one is a maximum and strictly above every earlier one |
| Choice.NothingBeatsStart | Models/Montecarlosolvercpu.cs:28 | when no value beats the threshold, the first move is kept |
| Choice.ThresholdChoice | Models/ownSolver.cs:27-39 | from a threshold: index 0 when no value beats it, otherwise the first maximum |
| Choice.Average | Models/Montecarlosolvercpu.cs:63 | an average exists exactly when the simulation count is not zero |
| Choice.AverageAtLeastZero | Models/Montecarlosolvercpu.cs:63 | a non-negative total over a positive count averages to at least 0 |
| Choice.Averages | Models/Montecarlosolvercpu.cs:63 | one average per candidate move |
| Choice.AveragesAt | Models/Montecarlosolvercpu.cs:63 | average k is candidate k's total over the count |
| Choice.AveragesChoice | Models/Montecarlosolvercpu.cs:28-71 | starting below every average, the first move is kept when there are no simulations, and otherwise the first maximum average |
| RandomSolvers.Pick | Models/RandomSolver.cs:18 | the picked move is an element of the list |
| RandomSolvers.PickReachesEvery | Models/RandomSolver.cs:18 | every listed move is picked by some draw |
| RandomSolvers.NextMove | Models/RandomSolver.cs:14-23 | the random solver's move is an available move that changes the board |
| RandomSolvers.NextMoveReachesEvery | Models/RandomSolver.cs:14-23 | every available move is the random solver's choice for some draw |
| Rollouts.EvaluationAtLeastScore | Models/Montecarlosolvercpu.cs:52-54 | the evaluation `score + 128·empty + 32·maxTile` is at least the score, which is ≥ 0 |
| Rollouts.ContinueStep | Models/Montecarlosolvercpu.cs:44-50 | while under way, below the cap and with moves left, a rollout plays the random pick and continues from there |
| Rollouts.ContinueCounts | Models/Montecarlosolvercpu.cs:43-50 | the random moves stop at the cap, or earlier only when the game is over or has no move, and each step is one accepted move |
| Rollouts.ContinueGrowsSum | Models/Montecarlosolvercpu.cs:43-50 | each random step keeps the game well formed and adds a tile of at least 2 |
| Rollouts.UnboundedCapNeverBinds | Models/Montecarlosolvercpu.cs:19 | with the `int.MaxValue` cap a rollout always plays to the end of the game |
| Rollouts.RolloutShape | Models/Montecarlosolvercpu.cs:40-50 | a rollout is the candidate move plus at most the cap's number of random moves, stopping early only at the end of the game, and counts them all |
| Rollouts.EvaluationsSnoc | Models/Montecarlosolvercpu.cs:36-61 | one more simulation appends its evaluation to the evaluations of the earlier ones |
| Rollouts.RolloutWellFormed | Models/Montecarlosolvercpu.cs:40-50 | a rollout from a well-formed game ends well formed |
| Rollouts.EvaluationsTotalAtLeastZero | Models/Montecarlosolvercpu.cs:34-61 | a candidate's total evaluation is ≥ 0 |
| Rollouts.MoveAverageAtLeastZero | Models/Montecarlosolvercpu.cs:63 | with simulations, a candidate's average exists and is ≥ 0, so it beats `double.MinValue` |
| Rollouts.MonteCarloChoiceIsFirstBest | Models/Montecarlosolvercpu.cs:22-75 | Up exactly when no move is available; otherwise an available move, the only one when there is one, the first when there are no simulations, and otherwise the first move with a maximal average |
| Rollouts.Evaluate | Models/Montecarlosolvercpu.cs:52-54 | evaluates the engine's game by the formula |
| Rollouts.PlayRandomly | Models/Montecarlosolvercpu.cs:43-50 | the rollout loop leaves the clone in the state the random moves reach |
| Rollouts.RunSimulation | Models/Montecarlosolvercpu.cs:40-54 | one simulation on a clone returns the evaluation of the rollout |
| Rollouts.AddSimulation | Models/Montecarlosolvercpu.cs:36-61 | adding one simulation extends the running total by its evaluation |
| Rollouts.SimulateMove | Models/Montecarlosolvercpu.cs:34-61 | a candidate's loop sums the evaluations of its simulations |
| Rollouts.AverageMove | Models/Montecarlosolvercpu.cs:63 | a candidate's average is its total over the simulation count |
| Rollouts.ConsiderMove | Models/Montecarlosolvercpu.cs:66-70 | one pass of the candidate loop advances the strict-`>` selection |
| Rollouts.BestByAverage | Models/Montecarlosolvercpu.cs:28-71 | the candidate loop keeps the first move with the best average |
| Rollouts.ChooseByRollouts | Models/Montecarlosolvercpu.cs:24-74 | the move the Monte-Carlo rule picks, leaving the game unchanged |
| MonteCarloCpu.StepCap | Models/Montecarlosolvercpu.cs:19 | a cap of 0 becomes `int.MaxValue` and any other is kept |
| MonteCarloCpu.ZeroCapPlaysToTheEnd | Models/Montecarlosolvercpu.cs:19 | with a cap of 0, rollouts play to the end of the game |
| MonteCarloCpu.MonteCarloSolverCpu.constructor | Models/Montecarlosolvercpu.cs:16-20 | keeps the simulation count and normalises the cap |
| MonteCarloCpu.MonteCarloSolverCpu.GetNextMove | Models/Montecarlosolvercpu.cs:22-75 | returns the Monte-Carlo choice for its settings and leaves the game unchanged |
| MonteCarloGpu.NameAsWrittenIsCpuName | Models/MonteCarloSolverGPU.cs:12 | the GPU solver reports the CPU solver's name |
| MonteCarloGpu.NameDiffersFromCpu | Models/MonteCarloSolverGPU.cs:12 | the corrected GPU name differs from the CPU name |
| MonteCarloGpu.MonteCarloSolverGpu.constructor | Models/MonteCarloSolverGPU.cs:27-42 | keeps the simulation count and the cap as given, with no 0-to-unbounded rule |
| MonteCarloGpu.MonteCarloSolverGpu.GetNextMove | Models/MonteCarloSolverGPU.cs:44-91 | returns the same Monte-Carlo choice as the CPU rule, for its own settings, leaving the game unchanged |
| MonteCarloGpu.Flatten | Models/MonteCarloSolverGPU.cs:142-149 | 16 values with `flat[r*4+c] == board[r][c]` |
| MonteCarloGpu.Unflatten | Models/MonteCarloSolverGPU.cs:142-149 | reading the 16 values back row by row |
| MonteCarloGpu.UnflattenFlatten | Models/MonteCarloSolverGPU.cs:142-149 | flattening loses nothing: reading back gives the board |
| MonteCarloGpu.FlattenUnflatten | Models/MonteCarloSolverGPU.cs:142-149 | every 16 values are the flattening of some board |
| MonteCarloGpu.FlattenBoard | Models/MonteCarloSolverGPU.cs:142-149 | the nested loop fills a 16-entry array with `flat[r*4+c] == board[r,c]` |
| MonteCarloGpu.FlattenEngineBoard | Models/MonteCarloSolverGPU.cs:142-149 | flattening an engine's board gives `Flatten` of its cells |
| MonteCarloGpu.TestKernel | Models/MonteCarloSolverGPU.cs:129-141 | thread i writes board value i, or 0 past the board's end, and touches nothing else |
| MonteCarloGpu.KernelScores | Models/MonteCarloSolverGPU.cs:129-141 | the scores after all threads ran: entry i is thread i's value |
| MonteCarloGpu.KernelCopiesBoard | Models/MonteCarloSolverGPU.cs:129-141 | a launch of at least 16 threads on a board of exactly the 16 flattened values: the first 16 scores read back as the board, and every thread past the board writes 0 |
| MonteCarloGpu.LaunchBuffer | Models/MonteCarloSolverGPU.cs:98-105 | the 16000-entry board buffer of the test launch holds the 16 board values at its front |
| MonteCarloGpu.TestLaunchScores | Models/MonteCarloSolverGPU.cs:96-141 | in the 16000-thread test launch every thread copies its buffer entry (none writes 0): the first 16 scores are the board, each later score is the unset buffer entry at its index |
| MonteCarloGpu.TestLaunchCopiesUnset | Models/MonteCarloSolverGPU.cs:96-141 | the test launch on a flattened board reads back as the board in its first 16 scores, and a non-zero unset buffer entry shows up as a non-zero later score |
| OwnSolvers.PostScoreIgnoresSpawn | Models/ownSolver.cs:32-34 | a trial copy's score after the move does not depend on its spawn |
| OwnSolvers.PostScores | Models/ownSolver.cs:30-38 | one compared score per available move |
| OwnSolvers.PostScoresAt | Models/ownSolver.cs:30-38 | compared score k is the score after move k |
| OwnSolvers.GreedyChoiceIsFirstBest | Models/ownSolver.cs:22-42 | Up exactly when no move is available; otherwise an available move: the first when no move scores above 0, else the first move with a maximal score |
| OwnSolvers.TryMove | Models/ownSolver.cs:30-38 | one pass of the loop, on a clone, advances the strict-`>` selection from the running score |
| OwnSolvers.KeepBest | Models/ownSolver.cs:27-40 | the loop over the moves keeps the first move with the best score above 0, or the first move |
| OwnSolvers.GetBestMove | Models/ownSolver.cs:22-42 | returns the greedy choice and leaves the game unchanged |
| OwnSolvers.GetNextMove | Models/ownSolver.cs:11-21 | Up with no moves, otherwise the greedy choice; the game is unchanged |
| GameStatistics.FromGame | Statistics/Gamestats.cs:43-58 | copies the solver name, duration, score and each of the four counters; the total is the game's total moves, the sum of the counters; sets won exactly when the state is Won; sets max tile to the largest cell |
| GameStatistics.WinningTileIsMaxTile | Statistics/Gamestats.cs:49-50 | a board has a cell ≥ 2048 exactly when its max tile is ≥ 2048 |
| GameStatistics.FinishedWonIffWinningTile | Statistics/Gamestats.cs:43-58 | a finished game's record says won exactly when its max tile reached 2048 |
| GameStatistics.RecordCountsAcceptedMoves | Statistics/Gamestats.cs:51-55 | the record's move total is the number of moves the engine accepted |
| Solvers.NamesAsWrittenCollide | Models/MonteCarloSolverGPU.cs:12 | as written, the two Monte-Carlo solvers report the same name |
| Solvers.NamesTellKindsApart | Models/MonteCarloSolverGPU.cs:12 | with the corrected name, solvers of different kinds report different names |
| Solvers.Decide | Statistics/Statisticsrunner.cs:44 | each solver's move on a game with moves is an available move that changes the board |
| Solvers.GetNextMove | Statistics/Statisticsrunner.cs:44 | dispatching `GetNextMove` returns the solver's decision and leaves the game unchanged |
| Solvers.PlayOut | Statistics/Statisticsrunner.cs:39-46 | playing a game to its end keeps it well formed |
| Solvers.PlayOutTurn | Statistics/Statisticsrunner.cs:39-46 | one turn of the game loop plays the solver's move, adds a tile, and leaves the same final game |
| Solvers.PlayOutFinishes | Statistics/Statisticsrunner.cs:39-46 | a played-out game is over: Won exactly when a cell is ≥ 2048, and Lost only with no move left |
| Summaries.MaxOf | Statistics/Statisticsrunner.cs:95 | the maximum is an element and at least every element |
| Summaries.MinOf | Statistics/Statisticsrunner.cs:96 | the minimum is an element and at most every element |
| Summaries.CountWon | Statistics/Statisticsrunner.cs:101-102 | the count is between 0 and the number of records, and 0 exactly when no record matches |
| Summaries.WinsAndLossesPartition | Statistics/Statisticsrunner.cs:101-102 | wins plus losses is the number of games |
| Summaries.MeanBetween | Statistics/Statisticsrunner.cs:97 | an average lies between the column's minimum and maximum |
| Summaries.ColumnExtremes | Statistics/Statisticsrunner.cs:95-105 | every value lies between the column's min and max, and both are attained |
| Summaries.SumOfParts | Statistics/Statisticsrunner.cs:109-113 | when each total is the sum of its counters, the column sums add up the same way |
| Summaries.MeanOfParts | Statistics/Statisticsrunner.cs:109-113 | when each total is the sum of its counters, the average total is the sum of the four average counters |
| Summaries.Insert | Statistics/Statisticsrunner.cs:226 | inserting into a sorted list keeps it sorted and adds exactly the element |
| Summaries.Sort | Statistics/Statisticsrunner.cs:226 | the sorted list is sorted and a permutation of the input |
| Summaries.SortedUnique | Statistics/Statisticsrunner.cs:226 | two sorted permutations of each other are equal, so the order the sort picks does not matter |
| Summaries.GetMedian | Statistics/Statisticsrunner.cs:224-234 | 0 for no numbers; otherwise between the minimum and the maximum, and for an odd count one of the numbers |
| Summaries.MiddleOfPermutation | Statistics/Statisticsrunner.cs:226-233 | the middle of any permutation lies between the minimum and the maximum, and for an odd count is one of the numbers |
| Summaries.MedianOfAnyOrdering | Statistics/Statisticsrunner.cs:224-234 | the median is the middle (or the mean of the two middles) of any sorted ordering of the numbers |
| Summaries.CalculateStatistics | Statistics/Statisticsrunner.cs:80-119 | for no results, the default summary with every field at its default (`EmptySummary`); otherwise the first record's name; games = count; wins + losses = games; no wins exactly when none was won, no losses exactly when all were; best/worst score and best tile are the attained extremes; the average score, average largest tile, the five average move counts and the average duration are each the exact mean of their column (times the count, the column's sum), and the score average lies between worst and best; the median is `GetMedian` of the scores, so the middle of any ascending arrangement (`MedianOfAnyOrdering`); total duration = the durations' sum; average total moves = the sum of the average counters |
| Summaries.SummaryOfGameRecords | Statistics/Statisticsrunner.cs:89-113 | for records of finished games of one solver: its name, the count, a win exactly when the best tile reached 2048, and averages that add up |
| StatisticsRunners.FinalGame | Statistics/Statisticsrunner.cs:35-46 | the game loop ends in a well-formed game that is over, and a lost one has no move left |
| StatisticsRunners.GameRecord | Statistics/Statisticsrunner.cs:35-50 | the record of one game names the solver, keeps its duration, says won exactly when the max tile reached 2048, and totals its counters |
| StatisticsRunners.SolverRunsSnoc | Statistics/Statisticsrunner.cs:33-55 | one more game appends its record to the runs |
| StatisticsRunners.SolverRunsRecords | Statistics/Statisticsrunner.cs:33-55 | every record of a solver's runs names the solver, says won exactly at a 2048 tile, and totals its counters |
| StatisticsRunners.SummaryOfRuns | Statistics/Statisticsrunner.cs:80-119 | the summary of a solver's runs names it, counts every game, has a win exactly when its best tile reached 2048, and has averages that add up |
| StatisticsRunners.KeyedKeys | Statistics/Statisticsrunner.cs:71-75 | the dictionary's keys are exactly the names written |
| StatisticsRunners.KeyedLastWins | Statistics/Statisticsrunner.cs:71-75 | under each name the dictionary holds the runs of the last solver with that name |
| StatisticsRunners.KeyedSnoc | Statistics/Statisticsrunner.cs:74 | each pass stores one more entry over the dictionary so far |
| StatisticsRunners.DistinctNamesKeepAll | Statistics/Statisticsrunner.cs:71-75 | with distinct names, every solver's runs are kept under its name |
| StatisticsRunners.GpuRecordNamesCpuAsWritten | Statistics/Statisticsrunner.cs:50 | as written, the record of a GPU game names "CPU Monte Carlo": it is the modelled record with the CPU solver's name in place of the GPU solver's, which differs from it |
| StatisticsRunners.CpuRunsLostAsWritten | Statistics/Statisticsrunner.cs:71-75 | as written, the program's four solvers leave three keys, and the CPU name holds the GPU solver's runs |
| StatisticsRunners.LastOfFourReplaces | Statistics/Statisticsrunner.cs:74 | four entries whose last two share a name leave three keys, the shared one holding the last |
| StatisticsRunners.AllRunsKept | Statistics/Statisticsrunner.cs:71-75 | with the corrected name, all four solvers' runs are kept, each under its own name |
| StatisticsRunners.StatisticsRunner.constructor | Statistics/Statisticsrunner.cs:21-24 | keeps the number of games per solver, 10 by default |
| StatisticsRunners.StatisticsRunner.PlayGame | Statistics/Statisticsrunner.cs:35-50 | one game on a new engine, played by the solver until it is over, gives that game's record |
| StatisticsRunners.StatisticsRunner.PlayTurn | Statistics/Statisticsrunner.cs:41-45 | with no moves it says so; otherwise the solver's move is made, a tile is added, and the final game is unchanged |
| StatisticsRunners.StatisticsRunner.RunSolver | Statistics/Statisticsrunner.cs:27-59 | returns the records of the solver's games in order, exactly `gamesPerSolver` of them (none when that is ≤ 0) |
| StatisticsRunners.StatisticsRunner.RunAllSolvers | Statistics/Statisticsrunner.cs:62-78 | returns the dictionary written one solver after the other, each solver's runs under its name |

## Left out

- The Avalonia user interface, the view models and the console test program in `Program.cs` are not part of this model.
  - This includes the UI's own loop that runs all four solvers (`ViewModels/MainWindowViewModel.cs`), which stores results under its own labels.
- Debug output and reports are not modelled: `Debug.WriteLine`, `OnProgress` messages, `GameStats.ToString`, `PrintReport`, `FormatReport`, `PrintComparisonTable` and `ExportToCsv` only format or write text.
- The GPU plumbing is a foreign library and is not modelled: the ILGPU context, accelerator, kernel loading, the copies between host and device, and `Dispose`. Of the GPU file, the model keeps the move choice, `FlattenBoard`, the kernel's index logic (`TestKernel`) and what the test launch in `TestKernelExecution` computes (`TestLaunchScores`); its debug output is left out.
- MonteCarloGpu.LaunchBuffer: the entries of the 16000-entry buffer past the copied board are whatever the allocation left there. The model takes them as a parameter and promises nothing about them; the source's comment that threads past the 16th write 0 holds only for a launch on a 16-entry board (`KernelCopiesBoard`), not for this launch.
- MonteCarloGpu.FlattenBoard: it requires a board of at least 4×4. The source throws `IndexOutOfRangeException` on a smaller `int[,]`, which it never passes.
- Concurrency is not modelled: `Parallel.For`, its per-task partial sums and `lock`. A candidate's rollouts are summed one after the other. With exact arithmetic the sum is the same in any order; with `double` additions it may differ in the last bits.
- `System.Random` and `Random.Shared` become caller-supplied draws. Their distribution (uniform slot, 90% chance of a 2) is not modelled, only which outcome each draw value gives.
- Floating point is not modelled. `double` averages, the median and durations are exact `real`s, and `NaN` (an average over zero simulations) is `None`.
- Durations are whole ticks given per game, in place of the `Stopwatch` and `TimeSpan` seconds. The source's round trip through `TotalSeconds` and `FromSeconds` is not modelled.
- Integer overflow is not modelled: 32-bit `int` wrap-around of the score, the evaluation and the sums inside `Average`. Integers are unbounded.
- Summaries.CalculateStatistics: every average is stated as the exact mean of its column. The source's `double` averages and the `TimeSpan` seconds of the durations may differ from it by rounding.
- GameStatistics.FromGame: it takes the engine's state as a `Game` value (the engine's `Snapshot()`) rather than the engine object, so the engine is not read through its methods.
- RandomSolvers.Pick: it requires a non-empty list. The source indexes an empty list and throws, a path `RunSolver` never reaches because it checks for available moves first.
- StatisticsRunners.StatisticsRunner.PlayGame: the `break` on an empty move list inside the game loop is shown unreachable, because a well-formed game under way always has a move. The model keeps the test and asserts that the branch is dead.
- StatisticsRunners.StatisticsRunner.RunAllSolvers: it keys the runs by the corrected solver names. The as-written keying is `CpuRunsLostAsWritten`.
- StatisticsRunners.GameRecord: a record carries the corrected solver name, so a GPU game's record names "GPU Monte Carlo" where the source writes "CPU Monte Carlo". The as-written record is `GpuRecordNamesCpuAsWritten`.
- StatisticsRunners.StatisticsRunner.PlayGame: its record carries the corrected solver name, as `GameRecord` does.
- StatisticsRunners.StatisticsRunner.RunSolver: its records carry the corrected solver name, as `GameRecord` does.
- `StartNewGame` is not modelled as drawing from the engine's own `Random`: both spawns take their draws as parameters, as every spawn does.

## Findings

| source | as written | input that shows it | evidently intended | confidence | as-written member | corrected member |
|---|---|---|---|---|---|---|
| Models/MonteCarloSolverGPU.cs:12 | the GPU solver's `Name` is "CPU Monte Carlo", the CPU solver's name. `RunAllSolvers` (Statistics/Statisticsrunner.cs:74) stores results under `solver.Name`, so the GPU solver's runs overwrite the CPU solver's and only three entries remain; every record of a GPU game (Statistics/Statisticsrunner.cs:50) names "CPU Monte Carlo" too (`GpuRecordNamesCpuAsWritten`) | a call of `RunAllSolvers` with a list holding a CPU and a GPU solver (no caller in the program makes one). The same collision is reachable in the UI's single-solver benchmark, which stores results under `solver.Name` (ViewModels/MainWindowViewModel.cs:310): a GPU benchmark after a CPU benchmark replaces the CPU results, and every record of a GPU game names "CPU Monte Carlo" as its solver | a name of its own ("GPU Monte Carlo"), so that each solver's runs are kept | not executed | StatisticsRunners.CpuRunsLostAsWritten | StatisticsRunners.AllRunsKept |
