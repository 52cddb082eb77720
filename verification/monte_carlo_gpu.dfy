/** The GPU Monte-Carlo solver. Its move choice is the CPU solver's rule,
    run with its own defaults and without turning a cap of 0 into "no
    cap". Beside it sit the pieces of the GPU experiment that hold logic of
    their own: flattening the board row by row into 16 values, the
    kernel in which thread i copies value i of the board, or writes 0 past
    its end, and the test launch of that kernel on a 16000-entry buffer. */
module MonteCarloGpu {
  import opened Lines
  import opened Grids
  import opened Games
  import opened Engine
  import opened Choice
  import opened Rollouts
  import MonteCarloCpu

  /** The name the solver reports, as written: the CPU solver's name. */
  const NameAsWritten: string := "CPU Monte Carlo"

  /** The name the solver evidently means to report, distinct from the CPU
      solver's. */
  const Name: string := "GPU Monte Carlo"

  /** The as-written name cannot tell the two Monte-Carlo solvers apart. */
  lemma NameAsWrittenIsCpuName()
    ensures NameAsWritten == MonteCarloCpu.Name
  {
  }

  /** The corrected name differs from the CPU solver's. */
  lemma NameDiffersFromCpu()
    ensures Name != MonteCarloCpu.Name
  {
    assert Name[0] != MonteCarloCpu.Name[0];
  }

  class MonteCarloSolverGpu {
    const simulationsPerMove: int
    const maxStepsPerSimulation: int

    constructor (simulationsPerMove: int := 10000, maxStepsPerSimulation: int := 5)
      ensures this.simulationsPerMove == simulationsPerMove
      ensures this.maxStepsPerSimulation == maxStepsPerSimulation
    {
      this.simulationsPerMove := simulationsPerMove;
      this.maxStepsPerSimulation := maxStepsPerSimulation;
    }

    /** The move for the engine holding game g: the CPU solver's rule with
        this solver's simulation count and step cap. */
    method GetNextMove(game: GameEngine, ghost g: Game, rollouts: seq<seq<Stream>>) returns (move: Direction)
      requires game.Valid() && game.Snapshot() == g
      ensures move == MonteCarloChoice(g, simulationsPerMove, maxStepsPerSimulation, rollouts)
      ensures game.Snapshot() == g
    {
      move := ChooseByRollouts(game, g, simulationsPerMove, maxStepsPerSimulation, rollouts);
    }
  }

  // ---------------------------------------------------------------------
  // Flattening the board

  /** The board as 16 values, row after row. */
  function Flatten(g: Grid): (flat: seq<int>)
    ensures |flat| == Size * Size
    ensures forall r, c :: 0 <= r < Size && 0 <= c < Size ==> flat[r * Size + c] == g[r][c]
  {
    g[0] + g[1] + g[2] + g[3]
  }

  /** 16 values read back as a board, row after row. */
  function Unflatten(flat: seq<int>): (g: Grid)
    requires |flat| == Size * Size
    ensures forall r, c :: 0 <= r < Size && 0 <= c < Size ==> g[r][c] == flat[r * Size + c]
  {
    [flat[0..4], flat[4..8], flat[8..12], flat[12..16]]
  }

  /** Reading the flattened board back gives the board. */
  lemma UnflattenFlatten(g: Grid)
    ensures Unflatten(Flatten(g)) == g
  {
    var h := Unflatten(Flatten(g));
    forall r | 0 <= r < Size ensures h[r] == g[r] {
      forall c | 0 <= c < Size ensures h[r][c] == g[r][c] {
        assert h[r][c] == Flatten(g)[r * Size + c];
      }
    }
  }

  /** Flattening a board read from 16 values gives the values back. */
  lemma FlattenUnflatten(flat: seq<int>)
    requires |flat| == Size * Size
    ensures Flatten(Unflatten(flat)) == flat
  {
    FlatAtEveryCell(flat, Unflatten(flat));
  }

  /** 16 values that hold every cell of a board at the cell's index are the
      flattened board. */
  lemma FlatAtEveryCell(flat: seq<int>, g: Grid)
    requires |flat| == Size * Size
    requires forall r, c :: 0 <= r < Size && 0 <= c < Size ==> flat[r * Size + c] == g[r][c]
    ensures flat == Flatten(g)
  {
    forall i | 0 <= i < Size * Size ensures flat[i] == Flatten(g)[i] {
      var r, c := i / Size, i % Size;
      assert i == r * Size + c;
    }
  }

  /** FlattenBoard: the top-left 4×4 cells of a board array, row after row. */
  method FlattenBoard(board: array2<int>) returns (flat: array<int>)
    requires board.Length0 >= Size && board.Length1 >= Size
    ensures flat.Length == Size * Size
    ensures forall r, c :: 0 <= r < Size && 0 <= c < Size ==> flat[r * Size + c] == board[r, c]
  {
    flat := new int[Size * Size];
    for r := 0 to Size
      invariant forall i, j :: 0 <= i < r && 0 <= j < Size ==> flat[i * Size + j] == board[i, j]
    {
      for c := 0 to Size
        invariant forall i, j :: 0 <= i < r && 0 <= j < Size ==> flat[i * Size + j] == board[i, j]
        invariant forall j :: 0 <= j < c ==> flat[r * Size + j] == board[r, j]
      {
        flat[r * Size + c] := board[r, c];
      }
    }
  }

  /** The engine's board, flattened, is the flattened board value. */
  method FlattenEngineBoard(game: GameEngine) returns (flat: array<int>)
    requires game.Valid()
    ensures flat[..] == Flatten(game.Cells())
  {
    flat := FlattenBoard(game.board);
    FlatAtEveryCell(flat[..], game.Cells());
  }

  // ---------------------------------------------------------------------
  // The test kernel

  /** What thread `index` of the test kernel writes: the board value at its
      index, or 0 past the end of the board. */
  function KernelValue(board: seq<int>, index: nat): int
  {
    if index < |board| then board[index] else 0
  }

  /** TestKernel: thread `index` writes its value into the scores, and
      touches nothing else. */
  method TestKernel(index: nat, board: array<int>, scores: array<int>)
    requires index < scores.Length
    modifies scores
    ensures scores[index] == KernelValue(old(board[..]), index)
    ensures forall i :: 0 <= i < scores.Length && i != index ==> scores[i] == old(scores[i])
  {
    if index < board.Length {
      scores[index] := board[index];
    } else {
      scores[index] := 0;
    }
  }

  /** The scores after every thread of a launch of n threads has run. */
  function KernelScores(board: seq<int>, n: nat): (scores: seq<int>)
    ensures |scores| == n
    ensures forall i :: 0 <= i < n ==> scores[i] == KernelValue(board, i)
  {
    if n == 0 then [] else KernelScores(board, n - 1) + [KernelValue(board, n - 1)]
  }

  /** With at least 16 threads on a board of exactly the 16 flattened
      values, the first 16 scores read back as the board and every thread
      past the board writes 0. */
  lemma KernelCopiesBoard(g: Grid, n: nat)
    requires n >= Size * Size
    ensures Unflatten(KernelScores(Flatten(g), n)[..Size * Size]) == g
    ensures forall i :: Size * Size <= i < n ==> KernelScores(Flatten(g), n)[i] == 0
  {
    var scores := KernelScores(Flatten(g), n);
    assert scores[..Size * Size] == Flatten(g);
    UnflattenFlatten(g);
  }

  /** The number of threads of the test launch, and of entries in each of
      its two buffers. */
  const ThreadCount: nat := 16000

  /** The board buffer of the test launch: the 16 board values copied into
      its front, then the entries the launch never writes, whatever the
      allocation left in them. */
  function LaunchBuffer(board: seq<int>, unset: seq<int>): (buffer: seq<int>)
    requires |board| == Size * Size && |unset| == ThreadCount - Size * Size
    ensures |buffer| == ThreadCount
    ensures buffer[..Size * Size] == board
  {
    board + unset
  }

  /** TestKernelExecution: every thread of the launch lies inside the
      16000-entry buffer, so none takes the kernel's "write 0" branch; the
      first 16 scores are the board and each later score is the unset
      buffer entry at its index, not 0. */
  lemma TestLaunchScores(board: seq<int>, unset: seq<int>)
    requires |board| == Size * Size && |unset| == ThreadCount - Size * Size
    ensures var buffer := LaunchBuffer(board, unset);
      && (forall i :: 0 <= i < ThreadCount ==> KernelValue(buffer, i) == buffer[i])
      && KernelScores(buffer, ThreadCount)[..Size * Size] == board
      && forall i :: Size * Size <= i < ThreadCount ==>
           KernelScores(buffer, ThreadCount)[i] == unset[i - Size * Size]
  {
    var buffer := LaunchBuffer(board, unset);
    var scores := KernelScores(buffer, ThreadCount);
    assert scores[..Size * Size] == board;
  }

  /** A launch on a flattened board reads back as the board only in its
      first 16 scores: with unset entries that are not all 0, some later
      score is not 0. */
  lemma TestLaunchCopiesUnset(g: Grid, unset: seq<int>, j: nat)
    requires |unset| == ThreadCount - Size * Size && j < |unset| && unset[j] != 0
    ensures Unflatten(KernelScores(LaunchBuffer(Flatten(g), unset), ThreadCount)[..Size * Size]) == g
    ensures KernelScores(LaunchBuffer(Flatten(g), unset), ThreadCount)[Size * Size + j] != 0
  {
    TestLaunchScores(Flatten(g), unset);
    UnflattenFlatten(g);
  }
}
