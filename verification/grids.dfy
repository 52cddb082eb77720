/** The 4×4 board as a value: the four directional moves, the empty cells in
    row-major order, the spawn of a new tile, the largest tile and the tests
    for winning and for a possible move. */
module Grids {
  import opened Lines

  const WinValue: int := 2048

  datatype Direction = Up | Down | Left | Right

  predicate IsGrid(g: seq<seq<int>>)
  {
    |g| == Size && forall r :: 0 <= r < Size ==> |g[r]| == Size
  }

  /** Row-major cells: `g[r][c]` is the cell in row r, column c. */
  type Grid = g: seq<seq<int>> | IsGrid(g)
    witness [[0, 0, 0, 0], [0, 0, 0, 0], [0, 0, 0, 0], [0, 0, 0, 0]]

  /** The board with every cell empty. */
  function EmptyGrid(): (g: Grid)
    ensures forall r, c :: 0 <= r < Size && 0 <= c < Size ==> g[r][c] == 0
  {
    seq(Size, _ => seq(Size, _ => 0))
  }

  // ---------------------------------------------------------------------
  // Lines of a board

  /** Row of the i-th cell (counted from the wall) of line k for a move towards d. */
  function RowAt(d: Direction, k: nat, i: nat): nat
    requires k < Size && i < Size
  {
    match d
    case Left => k
    case Right => k
    case Up => i
    case Down => Size - 1 - i
  }

  /** Column of the i-th cell (counted from the wall) of line k for a move towards d. */
  function ColAt(d: Direction, k: nat, i: nat): nat
    requires k < Size && i < Size
  {
    match d
    case Left => i
    case Right => Size - 1 - i
    case Up => k
    case Down => k
  }

  /** The line through cell (r, c) for a move towards d. */
  function LineOf(d: Direction, r: nat, c: nat): nat
    requires r < Size && c < Size
  {
    match d
    case Left => r
    case Right => r
    case Up => c
    case Down => c
  }

  /** The index of cell (r, c) in its line for a move towards d. */
  function IndexIn(d: Direction, r: nat, c: nat): nat
    requires r < Size && c < Size
  {
    match d
    case Left => c
    case Right => Size - 1 - c
    case Up => r
    case Down => Size - 1 - r
  }

  /** Line k for a move towards d: a row for Left and Right, a column for Up
      and Down, reversed for Right and Down so that index 0 is at the wall. */
  function LineAt(g: Grid, d: Direction, k: nat): (l: seq<int>)
    requires k < Size
    ensures |l| == Size
  {
    seq(Size, i requires 0 <= i < Size => g[RowAt(d, k, i)][ColAt(d, k, i)])
  }

  /** The board after the line processing of a move towards d (before any spawn). */
  function MoveGrid(g: Grid, d: Direction): Grid
  {
    seq(Size, r requires 0 <= r < Size =>
      seq(Size, c requires 0 <= c < Size =>
        Processed(LineAt(g, d, LineOf(d, r, c)))[IndexIn(d, r, c)]))
  }

  /** A move towards d is reported as moved: some line changes under it. */
  predicate Changes(g: Grid, d: Direction)
  {
    SomeLineChanges(g, d, Size)
  }

  predicate SomeMoveChanges(g: Grid)
  {
    Changes(g, Up) || Changes(g, Down) || Changes(g, Left) || Changes(g, Right)
  }

  /** The score of lines 0 .. n-1 of a move towards d. */
  function GainOfLines(g: Grid, d: Direction, n: nat): int
    requires n <= Size
  {
    if n == 0 then 0 else GainOfLines(g, d, n - 1) + Gain(LineAt(g, d, n - 1))
  }

  /** The score a move towards d adds. */
  function MoveGain(g: Grid, d: Direction): int
  {
    GainOfLines(g, d, Size)
  }

  lemma PositionRoundTrip(d: Direction, r: nat, c: nat, k: nat, i: nat)
    requires r < Size && c < Size && k < Size && i < Size
    ensures (RowAt(d, k, i) == r && ColAt(d, k, i) == c) <==> (LineOf(d, r, c) == k && IndexIn(d, r, c) == i)
  {
  }

  /** Line k of the moved board is line k of the board, processed. */
  lemma MovedLine(g: Grid, d: Direction, k: nat)
    requires k < Size
    ensures LineAt(MoveGrid(g, d), d, k) == Processed(LineAt(g, d, k))
  {
    var m := MoveGrid(g, d);
    forall i | 0 <= i < Size
      ensures LineAt(m, d, k)[i] == Processed(LineAt(g, d, k))[i]
    {
      PositionRoundTrip(d, RowAt(d, k, i), ColAt(d, k, i), k, i);
    }
  }

  /** Two boards are equal exactly when their lines for one direction are. */
  lemma EqualByLines(g: Grid, h: Grid, d: Direction)
    ensures g == h <==> forall k :: 0 <= k < Size ==> LineAt(g, d, k) == LineAt(h, d, k)
  {
    if forall k :: 0 <= k < Size ==> LineAt(g, d, k) == LineAt(h, d, k) {
      forall r | 0 <= r < Size ensures g[r] == h[r] {
        forall c | 0 <= c < Size ensures g[r][c] == h[r][c] {
          var k, i := LineOf(d, r, c), IndexIn(d, r, c);
          PositionRoundTrip(d, r, c, k, i);
          assert LineAt(g, d, k)[i] == LineAt(h, d, k)[i];
        }
      }
    }
  }

  /** Cell (r, c) while a move towards d is written back line by line:
      lines before k and the first i cells of line k already hold the moved
      board, every other cell still holds g. */
  function Midway(g: Grid, d: Direction, k: nat, i: nat, r: nat, c: nat): int
    requires r < Size && c < Size
  {
    var j := LineOf(d, r, c);
    if j < k || (j == k && IndexIn(d, r, c) < i) then MoveGrid(g, d)[r][c] else g[r][c]
  }

  /** Before line k is written back, its i-th cell still holds the old line. */
  lemma MidwayReads(g: Grid, d: Direction, k: nat, i: nat)
    requires k < Size && i < Size
    ensures Midway(g, d, k, 0, RowAt(d, k, i), ColAt(d, k, i)) == LineAt(g, d, k)[i]
  {
    PositionRoundTrip(d, RowAt(d, k, i), ColAt(d, k, i), k, i);
  }

  /** Writing the i-th cell of processed line k advances the write-back by one cell. */
  lemma MidwayWrite(g: Grid, d: Direction, k: nat, i: nat, r: nat, c: nat)
    requires k < Size && i < Size && r < Size && c < Size
    ensures Midway(g, d, k, i + 1, r, c) ==
      if r == RowAt(d, k, i) && c == ColAt(d, k, i) then Processed(LineAt(g, d, k))[i]
      else Midway(g, d, k, i, r, c)
  {
    PositionRoundTrip(d, r, c, k, i);
  }

  /** A finished line is the same as the next line not yet begun. */
  lemma MidwayNextLine(g: Grid, d: Direction, k: nat, r: nat, c: nat)
    requires r < Size && c < Size
    ensures Midway(g, d, k, Size, r, c) == Midway(g, d, k + 1, 0, r, c)
  {
  }

  /** Some line among lines 0 .. n-1 changes under a move towards d. */
  predicate SomeLineChanges(g: Grid, d: Direction, n: nat)
    requires n <= Size
  {
    n > 0 && (SomeLineChanges(g, d, n - 1) || Processed(LineAt(g, d, n - 1)) != LineAt(g, d, n - 1))
  }

  lemma {:induction false} SomeLineChangesExists(g: Grid, d: Direction, n: nat)
    requires n <= Size
    ensures SomeLineChanges(g, d, n) <==> exists k :: 0 <= k < n && Processed(LineAt(g, d, k)) != LineAt(g, d, k)
  {
    if n > 0 {
      SomeLineChangesExists(g, d, n - 1);
      var last := LineAt(g, d, n - 1);
      if Processed(last) != last {
        assert 0 <= n - 1 < n && Processed(LineAt(g, d, n - 1)) != LineAt(g, d, n - 1);
      }
      if exists k :: 0 <= k < n && Processed(LineAt(g, d, k)) != LineAt(g, d, k) {
        var k :| 0 <= k < n && Processed(LineAt(g, d, k)) != LineAt(g, d, k);
        if k < n - 1 {
          assert SomeLineChanges(g, d, n - 1);
        }
      }
    }
  }

  /** A move is reported exactly when it changes one of its lines. */
  lemma ChangesIffSomeLine(g: Grid, d: Direction)
    ensures Changes(g, d) <==>
      exists k :: 0 <= k < Size && Processed(LineAt(g, d, k)) != LineAt(g, d, k)
  {
    SomeLineChangesExists(g, d, Size);
  }

  /** The moved flag is exact: a move is reported exactly when the board
      after it differs from the board before it. */
  lemma ChangesIffBoardDiffers(g: Grid, d: Direction)
    ensures Changes(g, d) <==> MoveGrid(g, d) != g
  {
    ChangesIffSomeLine(g, d);
    EqualByLines(MoveGrid(g, d), g, d);
    forall k | 0 <= k < Size ensures LineAt(MoveGrid(g, d), d, k) == Processed(LineAt(g, d, k)) {
      MovedLine(g, d, k);
    }
  }

  lemma LineChanges(g: Grid, d: Direction, k: nat)
    requires k < Size && Processed(LineAt(g, d, k)) != LineAt(g, d, k)
    ensures Changes(g, d)
  {
    ChangesIffSomeLine(g, d);
  }

  lemma {:induction false} UnchangedLinesNoGain(g: Grid, d: Direction, n: nat)
    requires n <= Size && !Changes(g, d)
    ensures GainOfLines(g, d, n) == 0
  {
    if n > 0 {
      UnchangedLinesNoGain(g, d, n - 1);
      ChangesIffSomeLine(g, d);
      UnchangedNoGain(LineAt(g, d, n - 1));
    }
  }

  /** A move that changes nothing scores nothing. */
  lemma UnchangedNoMoveGain(g: Grid, d: Direction)
    requires !Changes(g, d)
    ensures MoveGain(g, d) == 0
  {
    UnchangedLinesNoGain(g, d, Size);
  }

  // ---------------------------------------------------------------------
  // Tile values and sums

  predicate TilesValid(g: Grid)
  {
    forall r, c :: 0 <= r < Size && 0 <= c < Size ==> IsTile(g[r][c])
  }

  lemma {:induction false} LinesGainNonNegative(g: Grid, d: Direction, n: nat)
    requires n <= Size && TilesValid(g)
    ensures GainOfLines(g, d, n) >= 0
  {
    if n > 0 {
      LinesGainNonNegative(g, d, n - 1);
      ProcessedTiles(LineAt(g, d, n - 1));
    }
  }

  /** A move keeps every cell empty or a power of two and never lowers the score. */
  lemma MoveKeepsTiles(g: Grid, d: Direction)
    requires TilesValid(g)
    ensures TilesValid(MoveGrid(g, d))
    ensures MoveGain(g, d) >= 0
  {
    forall r, c | 0 <= r < Size && 0 <= c < Size ensures IsTile(MoveGrid(g, d)[r][c]) {
      ProcessedTiles(LineAt(g, d, LineOf(d, r, c)));
    }
    LinesGainNonNegative(g, d, Size);
  }

  function GridSum(g: Grid): int
  {
    Sum(g[0]) + Sum(g[1]) + Sum(g[2]) + Sum(g[3])
  }

  lemma Sum4(s: seq<int>)
    requires |s| == 4
    ensures Sum(s) == s[0] + s[1] + s[2] + s[3]
  {
    var t1 := s[1..];
    var t2 := t1[1..];
    var t3 := t2[1..];
    assert t3[1..] == [];
    assert Sum(t3) == t3[0];
    assert Sum(t2) == t2[0] + Sum(t3);
    assert Sum(t1) == t1[0] + Sum(t2);
  }

  lemma LinesSum(g: Grid, d: Direction)
    ensures Sum(LineAt(g, d, 0)) + Sum(LineAt(g, d, 1)) + Sum(LineAt(g, d, 2)) + Sum(LineAt(g, d, 3))
         == GridSum(g)
  {
    Sum4(LineAt(g, d, 0));
    Sum4(LineAt(g, d, 1));
    Sum4(LineAt(g, d, 2));
    Sum4(LineAt(g, d, 3));
    Sum4(g[0]);
    Sum4(g[1]);
    Sum4(g[2]);
    Sum4(g[3]);
  }

  /** A move keeps the sum of the board. */
  lemma MoveKeepsSum(g: Grid, d: Direction)
    ensures GridSum(MoveGrid(g, d)) == GridSum(g)
  {
    var m := MoveGrid(g, d);
    LinesSum(g, d);
    LinesSum(m, d);
    forall k | 0 <= k < Size ensures Sum(LineAt(m, d, k)) == Sum(LineAt(g, d, k)) {
      MovedLine(g, d, k);
      ProcessedSumCount(LineAt(g, d, k));
    }
  }

  // ---------------------------------------------------------------------
  // Empty cells, in the row-major order the source enumerates them

  /** Cell (r', c') comes before cell (r, c) in row-major order. */
  predicate Before(r': nat, c': nat, r: nat, c: nat)
  {
    r' < r || (r' == r && c' < c)
  }

  /** The empty cells before (r, c) in row-major order. */
  function EmptyUpTo(g: Grid, r: nat, c: nat): seq<(nat, nat)>
    requires r < Size && c <= Size
    decreases r, c
  {
    if c == 0 then (if r == 0 then [] else EmptyUpTo(g, r - 1, Size))
    else EmptyUpTo(g, r, c - 1) + (if g[r][c - 1] == 0 then [(r, c - 1)] else [])
  }

  /** Every cell listed before (r, c) is on the board, before (r, c) and empty. */
  lemma {:induction false} EmptyUpToSound(g: Grid, r: nat, c: nat)
    requires r < Size && c <= Size
    ensures forall i :: 0 <= i < |EmptyUpTo(g, r, c)| ==>
      var cell := EmptyUpTo(g, r, c)[i];
      cell.0 < Size && cell.1 < Size && Before(cell.0, cell.1, r, c) && g[cell.0][cell.1] == 0
    decreases r, c
  {
    if c == 0 {
      if r > 0 {
        EmptyUpToSound(g, r - 1, Size);
      }
    } else {
      EmptyUpToSound(g, r, c - 1);
    }
  }

  /** All empty cells, in row-major order. */
  function EmptyCells(g: Grid): seq<(nat, nat)>
  {
    EmptyUpTo(g, Size - 1, Size)
  }

  function EmptyCount(g: Grid): nat
  {
    |EmptyCells(g)|
  }

  lemma {:induction false} EmptyUpToComplete(g: Grid, r: nat, c: nat, r': nat, c': nat)
    requires r < Size && c <= Size && r' < Size && c' < Size
    requires Before(r', c', r, c) && g[r'][c'] == 0
    ensures (r', c') in EmptyUpTo(g, r, c)
    decreases r, c
  {
    if c == 0 {
      EmptyUpToComplete(g, r - 1, Size, r', c');
    } else if r' != r || c' != c - 1 {
      EmptyUpToComplete(g, r, c - 1, r', c');
    }
  }

  /** A cell is listed among the empty cells exactly when it is empty. */
  lemma EmptyCellsExact(g: Grid, r: nat, c: nat)
    requires r < Size && c < Size
    ensures (r, c) in EmptyCells(g) <==> g[r][c] == 0
  {
    EmptyUpToSound(g, Size - 1, Size);
    if g[r][c] == 0 {
      EmptyUpToComplete(g, Size - 1, Size, r, c);
    }
  }

  lemma {:induction false} EmptyUpToOfEmptyGrid(r: nat, c: nat)
    requires r < Size && c <= Size
    ensures |EmptyUpTo(EmptyGrid(), r, c)| == Size * r + c
    decreases r, c
  {
    if c == 0 {
      if r > 0 {
        EmptyUpToOfEmptyGrid(r - 1, Size);
      }
    } else {
      EmptyUpToOfEmptyGrid(r, c - 1);
    }
  }

  /** The empty board has sixteen empty cells. */
  lemma EmptyGridCount()
    ensures EmptyCount(EmptyGrid()) == Size * Size
  {
    EmptyUpToOfEmptyGrid(Size - 1, Size);
  }

  /** Some cell is empty. */
  predicate HasEmpty(g: Grid)
  {
    exists r, c :: 0 <= r < Size && 0 <= c < Size && g[r][c] == 0
  }

  lemma EmptyCountPositive(g: Grid)
    ensures EmptyCount(g) > 0 <==> HasEmpty(g)
  {
    if HasEmpty(g) {
      var r, c :| 0 <= r < Size && 0 <= c < Size && g[r][c] == 0;
      EmptyCellsExact(g, r, c);
    }
    if EmptyCount(g) > 0 {
      EmptyUpToSound(g, Size - 1, Size);
      var cell := EmptyCells(g)[0];
      assert g[cell.0][cell.1] == 0;
    }
  }

  // ---------------------------------------------------------------------
  // Spawning a tile

  /** The tile a 0..9 draw gives: 2 below 9, otherwise 4. */
  function TileFor(valueDraw: nat): (v: int)
    ensures v == 2 || v == 4
    ensures (valueDraw < 9 ==> v == 2) && (valueDraw == 9 ==> v == 4)
  {
    if valueDraw % 10 < 9 then 2 else 4
  }

  /** The empty cell a draw picks: the draw taken modulo the number of empty
      cells, as an index into the row-major list of empty cells. */
  function SpawnCell(g: Grid, slotDraw: nat): (cell: (nat, nat))
    requires EmptyCount(g) > 0
    ensures cell.0 < Size && cell.1 < Size && g[cell.0][cell.1] == 0
    ensures slotDraw < EmptyCount(g) ==> cell == EmptyCells(g)[slotDraw]
  {
    EmptyUpToSound(g, Size - 1, Size);
    EmptyCells(g)[slotDraw % EmptyCount(g)]
  }

  function Fill(g: Grid, r: nat, c: nat, v: int): Grid
    requires r < Size && c < Size
  {
    g[r := g[r][c := v]]
  }

  /** The board after a spawn: unchanged when it is full. */
  function Spawn(g: Grid, slotDraw: nat, valueDraw: nat): Grid
  {
    if EmptyCount(g) == 0 then g
    else
      var cell := SpawnCell(g, slotDraw);
      Fill(g, cell.0, cell.1, TileFor(valueDraw))
  }

  lemma {:induction false} FillEmptyUpTo(g: Grid, r0: nat, c0: nat, v: int, r: nat, c: nat)
    requires r0 < Size && c0 < Size && g[r0][c0] == 0 && v != 0
    requires r < Size && c <= Size
    ensures |EmptyUpTo(Fill(g, r0, c0, v), r, c)| ==
            |EmptyUpTo(g, r, c)| - (if Before(r0, c0, r, c) then 1 else 0)
    decreases r, c
  {
    if c == 0 {
      if r > 0 {
        FillEmptyUpTo(g, r0, c0, v, r - 1, Size);
      }
    } else {
      FillEmptyUpTo(g, r0, c0, v, r, c - 1);
    }
  }

  /** A spawn on a board with an empty cell puts a 2 or a 4 into the empty
      cell the draw picks and leaves every other cell alone. */
  lemma SpawnFillsOneCell(g: Grid, slotDraw: nat, valueDraw: nat)
    requires EmptyCount(g) > 0
    ensures var cell := SpawnCell(g, slotDraw);
      var s := Spawn(g, slotDraw, valueDraw);
      && g[cell.0][cell.1] == 0
      && s[cell.0][cell.1] == TileFor(valueDraw)
      && (forall r, c :: 0 <= r < Size && 0 <= c < Size && (r, c) != cell ==> s[r][c] == g[r][c])
  {
  }

  /** A spawn on a board with an empty cell removes exactly one empty cell. */
  lemma SpawnCount(g: Grid, slotDraw: nat, valueDraw: nat)
    requires EmptyCount(g) > 0
    ensures EmptyCount(Spawn(g, slotDraw, valueDraw)) == EmptyCount(g) - 1
  {
    var cell := SpawnCell(g, slotDraw);
    FillEmptyUpTo(g, cell.0, cell.1, TileFor(valueDraw), Size - 1, Size);
  }

  /** A spawn adds the new tile to the sum of the board. */
  lemma SpawnSum(g: Grid, slotDraw: nat, valueDraw: nat)
    requires EmptyCount(g) > 0
    ensures GridSum(Spawn(g, slotDraw, valueDraw)) == GridSum(g) + TileFor(valueDraw)
  {
    var cell := SpawnCell(g, slotDraw);
    var s := Spawn(g, slotDraw, valueDraw);
    Sum4(g[cell.0]);
    Sum4(s[cell.0]);
  }

  /** A spawn keeps every cell empty or a power of two. */
  lemma SpawnKeepsTiles(g: Grid, slotDraw: nat, valueDraw: nat)
    requires TilesValid(g)
    ensures TilesValid(Spawn(g, slotDraw, valueDraw))
  {
    assert IsTile(TileFor(valueDraw)) by {
      assert 4 / 2 == 2;
    }
  }

  // ---------------------------------------------------------------------
  // The largest tile

  /** The largest value before (r, c) in row-major order, starting from 0. */
  function MaxUpTo(g: Grid, r: nat, c: nat): int
    requires r < Size && c <= Size
    decreases r, c
  {
    if c == 0 then (if r == 0 then 0 else MaxUpTo(g, r - 1, Size))
    else
      var m := MaxUpTo(g, r, c - 1);
      if g[r][c - 1] > m then g[r][c - 1] else m
  }

  /** The running maximum is at least 0, at least every cell it has passed,
      and either 0 or the value of one of those cells. */
  lemma {:induction false} MaxUpToBounds(g: Grid, r: nat, c: nat)
    requires r < Size && c <= Size
    ensures var m := MaxUpTo(g, r, c);
      && m >= 0
      && (forall r', c' :: 0 <= r' < Size && 0 <= c' < Size && Before(r', c', r, c) ==> g[r'][c'] <= m)
      && (m == 0 || exists r', c' :: 0 <= r' < Size && 0 <= c' < Size && Before(r', c', r, c) && g[r'][c'] == m)
    decreases r, c
  {
    if c == 0 {
      if r > 0 {
        MaxUpToBounds(g, r - 1, Size);
      }
    } else {
      MaxUpToBounds(g, r, c - 1);
    }
  }

  function MaxTile(g: Grid): int
  {
    MaxUpTo(g, Size - 1, Size)
  }

  /** GetMaxTile's result: 0 on an empty board, otherwise the largest cell. */
  lemma MaxTileIsMaximum(g: Grid)
    ensures MaxTile(g) >= 0
    ensures forall r, c :: 0 <= r < Size && 0 <= c < Size ==> g[r][c] <= MaxTile(g)
    ensures MaxTile(g) == 0 || exists r, c :: 0 <= r < Size && 0 <= c < Size && g[r][c] == MaxTile(g)
  {
    MaxUpToBounds(g, Size - 1, Size);
  }

  // ---------------------------------------------------------------------
  // Win and loss tests

  predicate HasWinningTile(g: Grid)
  {
    exists r, c :: 0 <= r < Size && 0 <= c < Size && g[r][c] >= WinValue
  }

  /** Cell (r, c) equals its right-hand neighbour. */
  predicate RowPair(g: Grid, r: nat, c: nat)
    requires r < Size && c < Size - 1
  {
    g[r][c] == g[r][c + 1]
  }

  /** Cell (r, c) equals the cell below it. */
  predicate ColumnPair(g: Grid, r: nat, c: nat)
    requires r < Size - 1 && c < Size
  {
    g[r][c] == g[r + 1][c]
  }

  /** The source's loss test: an empty cell, or equal horizontal or vertical neighbours. */
  predicate HasEmptyOrPair(g: Grid)
  {
    || HasEmpty(g)
    || (exists r: nat, c: nat :: r < Size && c < Size - 1 && RowPair(g, r, c))
    || (exists r: nat, c: nat :: r < Size - 1 && c < Size && ColumnPair(g, r, c))
  }

  predicate HasTile(g: Grid)
  {
    exists r, c :: 0 <= r < Size && 0 <= c < Size && g[r][c] != 0
  }

  lemma MisalignedChanges(g: Grid, d: Direction, k: nat)
    requires k < Size && !LeftAligned(LineAt(g, d, k))
    ensures Changes(g, d)
  {
    ProcessedLeftAligned(LineAt(g, d, k));
    LineChanges(g, d, k);
  }

  /** Without an empty cell and without equal neighbours no line changes. */
  lemma FullNoPairNoMove(g: Grid)
    requires !HasEmptyOrPair(g)
    ensures !SomeMoveChanges(g)
  {
    forall d, k | 0 <= k < Size
      ensures Processed(LineAt(g, d, k)) == LineAt(g, d, k)
    {
      var l := LineAt(g, d, k);
      assert 0 !in l by {
        forall i | 0 <= i < Size ensures l[i] != 0 {
          assert g[RowAt(d, k, i)][ColAt(d, k, i)] != 0;
        }
      }
      assert !HasPair(l) by {
        forall i | 0 <= i < Size - 1 ensures l[i] != l[i + 1] {
          match d
          case Left => assert !RowPair(g, k, i);
          case Right => assert !RowPair(g, k, Size - 2 - i);
          case Up => assert !ColumnPair(g, i, k);
          case Down => assert !ColumnPair(g, Size - 2 - i, k);
        }
      }
      NoGapNoPairUnchanged(l);
    }
    forall d ensures !Changes(g, d) {
      ChangesIffSomeLine(g, d);
    }
  }

  /** Row r0 has an empty cell and a tile: Left or Right changes the board. */
  lemma MixedRowChanges(g: Grid, r0: nat, c0: nat, c1: nat)
    requires r0 < Size && c0 < Size && c1 < Size && g[r0][c0] == 0 && g[r0][c1] != 0
    ensures Changes(g, Left) || Changes(g, Right)
  {
    if c0 < c1 {
      assert LineAt(g, Left, r0)[c0] == 0 && LineAt(g, Left, r0)[c1] != 0;
      MisalignedChanges(g, Left, r0);
    } else {
      var l := LineAt(g, Right, r0);
      assert l[Size - 1 - c0] == 0 && l[Size - 1 - c1] != 0;
      MisalignedChanges(g, Right, r0);
    }
  }

  /** Column c0 has an empty cell and a tile: Up or Down changes the board. */
  lemma MixedColumnChanges(g: Grid, c0: nat, r0: nat, r1: nat)
    requires c0 < Size && r0 < Size && r1 < Size && g[r0][c0] == 0 && g[r1][c0] != 0
    ensures Changes(g, Up) || Changes(g, Down)
  {
    if r0 < r1 {
      assert LineAt(g, Up, c0)[r0] == 0 && LineAt(g, Up, c0)[r1] != 0;
      MisalignedChanges(g, Up, c0);
    } else {
      var l := LineAt(g, Down, c0);
      assert l[Size - 1 - r0] == 0 && l[Size - 1 - r1] != 0;
      MisalignedChanges(g, Down, c0);
    }
  }

  /** On a board holding at least one tile, the source's loss test holds
      exactly when some direction would change the board. (On the all-empty
      board the test holds although no move changes anything; a move that
      changed the board never leaves it empty.) */
  lemma EmptyOrPairIffSomeMove(g: Grid)
    requires HasTile(g)
    ensures HasEmptyOrPair(g) <==> SomeMoveChanges(g)
  {
    if !HasEmptyOrPair(g) {
      FullNoPairNoMove(g);
    } else if HasEmpty(g) {
      var r0, c0 :| 0 <= r0 < Size && 0 <= c0 < Size && g[r0][c0] == 0;
      if c1 :| 0 <= c1 < Size && g[r0][c1] != 0 {
        MixedRowChanges(g, r0, c0, c1);
      } else {
        var r1, c1 :| 0 <= r1 < Size && 0 <= c1 < Size && g[r1][c1] != 0;
        assert g[r0][c1] == 0;
        MixedColumnChanges(g, c1, r0, r1);
      }
    } else if r: nat, c: nat :| r < Size && c < Size - 1 && RowPair(g, r, c) {
      var l := LineAt(g, Left, r);
      assert 0 !in l by {
        forall i | 0 <= i < Size ensures l[i] != 0 {
          assert g[r][i] != 0;
        }
      }
      assert l[c] == l[c + 1];
      NoGapPairChanges(l);
      LineChanges(g, Left, r);
    } else {
      var r: nat, c: nat :| r < Size - 1 && c < Size && ColumnPair(g, r, c);
      var l := LineAt(g, Up, c);
      assert 0 !in l by {
        forall i | 0 <= i < Size ensures l[i] != 0 {
          assert g[i][c] != 0;
        }
      }
      assert l[r] == l[r + 1];
      NoGapPairChanges(l);
      LineChanges(g, Up, c);
    }
  }

  /** A move that changes the board leaves an empty cell for the spawn. */
  lemma ChangedMoveLeavesEmpty(g: Grid, d: Direction)
    requires Changes(g, d)
    ensures EmptyCount(MoveGrid(g, d)) > 0
  {
    var m := MoveGrid(g, d);
    ChangesIffSomeLine(g, d);
    var k :| 0 <= k < Size && Processed(LineAt(g, d, k)) != LineAt(g, d, k);
    ChangedLineHasEmpty(LineAt(g, d, k));
    MovedLine(g, d, k);
    var i :| 0 <= i < Size && LineAt(m, d, k)[i] == 0;
    EmptyCellsExact(m, RowAt(d, k, i), ColAt(d, k, i));
  }

  // ---------------------------------------------------------------------
  // The row [0,2,2,0] moved both ways

  /** A row [0, 2, 2, 0] moved left becomes [4, 0, 0, 0] and scores 4. */
  lemma SlideLeftExample()
    ensures var g: Grid := [[0, 2, 2, 0], [0, 0, 0, 0], [0, 0, 0, 0], [0, 0, 0, 0]];
      MoveGrid(g, Left)[0] == [4, 0, 0, 0] && Gain(LineAt(g, Left, 0)) == 4
  {
    var g: Grid := [[0, 2, 2, 0], [0, 0, 0, 0], [0, 0, 0, 0], [0, 0, 0, 0]];
    GapThenPairSlides();
    assert LineAt(g, Left, 0) == [0, 2, 2, 0];
    MovedLine(g, Left, 0);
    var m := MoveGrid(g, Left);
    assert m[0] == [m[0][0], m[0][1], m[0][2], m[0][3]];
  }

  /** The same row moved right becomes [0, 0, 0, 4]: the line is read from the right wall. */
  lemma SlideRightExample()
    ensures var g: Grid := [[0, 2, 2, 0], [0, 0, 0, 0], [0, 0, 0, 0], [0, 0, 0, 0]];
      MoveGrid(g, Right)[0] == [0, 0, 0, 4] && Gain(LineAt(g, Right, 0)) == 4
  {
    var g: Grid := [[0, 2, 2, 0], [0, 0, 0, 0], [0, 0, 0, 0], [0, 0, 0, 0]];
    GapThenPairSlides();
    assert LineAt(g, Right, 0) == [0, 2, 2, 0];
    MovedLine(g, Right, 0);
    var m := MoveGrid(g, Right);
    assert LineAt(m, Right, 0) == [4, 0, 0, 0];
    assert m[0] == [m[0][0], m[0][1], m[0][2], m[0][3]];
  }
}
