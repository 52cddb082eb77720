/** The game engine object: a 4×4 board array updated in place, with the
    score, the state and the four move counters as fields. Every method is
    proved against the game-as-value model of module Games. The engine's
    random number generator is replaced by the raw draws each spawn takes,
    passed in by the caller: a spawn takes one draw for the cell and one for
    the value. */
module Engine {
  import opened Lines
  import opened Grids
  import opened Games
  import opened LineArrays

  class GameEngine {
    var board: array2<int>
    var score: int
    var state: GameState
    var movesUp: int
    var movesDown: int
    var movesLeft: int
    var movesRight: int

    ghost predicate Valid()
      reads this`board
    {
      board.Length0 == Size && board.Length1 == Size
    }

    /** The board as a value. */
    function Cells(): Grid
      requires Valid()
      reads this`board, board
    {
      var b := board;
      seq(Size, r requires 0 <= r < Size reads b =>
        seq(Size, c requires 0 <= c < Size reads b => b[r, c]))
    }

    /** The whole engine as a value. */
    function Snapshot(): Game
      requires Valid()
      reads this, board
    {
      Game(Cells(), score, state, movesUp, movesDown, movesLeft, movesRight)
    }

    /** A board array holding the cells of g is the board g. */
    lemma CellsAre(g: Grid)
      requires Valid()
      requires forall r, c :: 0 <= r < Size && 0 <= c < Size ==> board[r, c] == g[r][c]
      ensures Cells() == g
    {
      forall r | 0 <= r < Size ensures Cells()[r] == g[r] {
      }
    }

    /** The engine the private copying constructor makes: an empty board. */
    constructor Blank()
      ensures Valid() && fresh(board)
      ensures Snapshot() == Game(EmptyGrid(), 0, Playing, 0, 0, 0, 0)
    {
      board := new int[Size, Size]((_, _) => 0);
      score := 0;
      state := Playing;
      movesUp := 0;
      movesDown := 0;
      movesLeft := 0;
      movesRight := 0;
      new;
      CellsAre(EmptyGrid());
    }

    /** A new game, as the public constructors start it. */
    constructor (slot1: nat, value1: nat, slot2: nat, value2: nat)
      ensures Valid() && fresh(board)
      ensures Snapshot() == NewGame(slot1, value1, slot2, value2)
    {
      board := new int[Size, Size]((_, _) => 0);
      score := 0;
      state := Playing;
      movesUp := 0;
      movesDown := 0;
      movesLeft := 0;
      movesRight := 0;
      new;
      StartNewGame(slot1, value1, slot2, value2);
    }

    /** A deep copy: a fresh engine with its own board holding the same cells. */
    method Clone() returns (clone: GameEngine)
      requires Valid()
      ensures fresh(clone) && fresh(clone.board) && clone.Valid()
      ensures clone.Snapshot() == Snapshot()
    {
      var copy := new int[Size, Size];
      var r := 0;
      while r < Size
        invariant 0 <= r <= Size
        invariant forall i, j :: 0 <= i < r && 0 <= j < Size ==> copy[i, j] == board[i, j]
      {
        var c := 0;
        while c < Size
          invariant 0 <= c <= Size
          invariant forall i, j :: 0 <= i < r && 0 <= j < Size ==> copy[i, j] == board[i, j]
          invariant forall j :: 0 <= j < c ==> copy[r, j] == board[r, j]
        {
          copy[r, c] := board[r, c];
          c := c + 1;
        }
        r := r + 1;
      }
      clone := new GameEngine.Blank();
      clone.board := copy;
      clone.score := score;
      clone.state := state;
      clone.movesUp := movesUp;
      clone.movesDown := movesDown;
      clone.movesLeft := movesLeft;
      clone.movesRight := movesRight;
      clone.CellsAre(Cells());
    }

    /** Clears the board, resets score, state and counters, and spawns two tiles. */
    method StartNewGame(slot1: nat, value1: nat, slot2: nat, value2: nat)
      modifies this
      ensures Valid() && fresh(board)
      ensures Snapshot() == NewGame(slot1, value1, slot2, value2)
    {
      board := new int[Size, Size]((_, _) => 0);
      score := 0;
      state := Playing;
      movesUp := 0;
      movesDown := 0;
      movesLeft := 0;
      movesRight := 0;
      ghost var b := board;
      ghost var empty := EmptyGrid();
      CellsAre(empty);
      SpawnTile(slot1, value1);
      ghost var first := Cells();
      SpawnTile(slot2, value2);
      assert board == b;
      assert Cells() == Spawn(first, slot2, value2);
      assert Snapshot() == Game(Spawn(first, slot2, value2), 0, Playing, 0, 0, 0, 0);
    }

    /** One move towards d: refused when the game is over or nothing would
        move; otherwise the lines are processed, the direction's counter
        goes up, a tile is spawned and the state is checked. */
    method Move(d: Direction, slotDraw: nat, valueDraw: nat) returns (moved: bool)
      requires Valid()
      modifies this, board
      ensures Valid() && board == old(board)
      ensures Snapshot() == Step(old(Snapshot()), d, slotDraw, valueDraw)
      ensures moved == Moved(old(Snapshot()), d)
    {
      ghost var g := Snapshot();
      if state != Playing {
        return false;
      }
      moved := Slide(d);
      ghost var slid := Cells();
      ghost var gained := score;
      assert slid == MoveGrid(g.cells, d) && gained == g.score + MoveGain(g.cells, d);
      match d {
        case Up => if moved { movesUp := movesUp + 1; }
        case Down => if moved { movesDown := movesDown + 1; }
        case Left => if moved { movesLeft := movesLeft + 1; }
        case Right => if moved { movesRight := movesRight + 1; }
      }
      if moved {
        ghost var counted := Count(g, d);
        assert movesUp == counted.movesUp && movesDown == counted.movesDown;
        assert movesLeft == counted.movesLeft && movesRight == counted.movesRight;
        assert Cells() == slid;
        SpawnTile(slotDraw, valueDraw);
        ghost var cells := Spawn(MoveGrid(g.cells, d), slotDraw, valueDraw);
        assert Cells() == cells;
        CheckGameState();
        assert Cells() == cells && state == CheckState(cells, g.state);
        assert score == gained;
        StepMoved(g, d, slotDraw, valueDraw);
        assert Snapshot() == counted.(cells := cells, score := gained, state := CheckState(cells, g.state));
      } else {
        UnchangedNoMoveGain(g.cells, d);
        ChangesIffBoardDiffers(g.cells, d);
        assert Snapshot() == g;
      }
    }

    /** Whether a move towards d would change the board, tried on a copy. */
    method CanMove(d: Direction) returns (can: bool)
      requires Valid()
      ensures can == Changes(Cells(), d)
    {
      var clone := Clone();
      can := clone.Slide(d);
    }

    /** The directions that would change the board, in the order Up, Down, Left, Right. */
    method GetAvailableMoves() returns (moves: seq<Direction>)
      requires Valid()
      ensures moves == AvailableMoves(Cells())
    {
      ghost var g := Cells();
      moves := [];
      var can := CanMove(Up);
      if can {
        moves := moves + [Up];
      }
      assert moves == AddIfChanges([], g, Up);
      can := CanMove(Down);
      if can {
        moves := moves + [Down];
      }
      assert moves == AddIfChanges(AddIfChanges([], g, Up), g, Down);
      can := CanMove(Left);
      if can {
        moves := moves + [Left];
      }
      can := CanMove(Right);
      if can {
        moves := moves + [Right];
      }
    }

    /** The largest tile on the board (0 on an empty board). */
    method GetMaxTile() returns (max: int)
      requires Valid()
      ensures max == MaxTile(Cells())
    {
      ghost var g := Cells();
      max := 0;
      var r := 0;
      while r < Size
        invariant 0 <= r <= Size
        invariant max == if r == 0 then 0 else MaxUpTo(g, r - 1, Size)
      {
        var c := 0;
        while c < Size
          invariant 0 <= c <= Size
          invariant max == MaxUpTo(g, r, c)
        {
          assert board[r, c] == g[r][c];
          if board[r, c] > max {
            max := board[r, c];
          }
          c := c + 1;
        }
        r := r + 1;
      }
    }

    /** The number of empty cells. */
    method GetEmptyCount() returns (count: int)
      requires Valid()
      ensures count == EmptyCount(Cells())
    {
      ghost var g := Cells();
      count := 0;
      var r := 0;
      while r < Size
        invariant 0 <= r <= Size
        invariant count == if r == 0 then 0 else |EmptyUpTo(g, r - 1, Size)|
      {
        var c := 0;
        while c < Size
          invariant 0 <= c <= Size
          invariant count == |EmptyUpTo(g, r, c)|
        {
          assert board[r, c] == g[r][c];
          if board[r, c] == 0 {
            count := count + 1;
          }
          c := c + 1;
        }
        r := r + 1;
      }
    }

    /** MoveLeft, MoveRight, MoveUp and MoveDown: each line for direction d
        is copied out, processed and written back; the result says whether
        any line changed. */
    method Slide(d: Direction) returns (moved: bool)
      requires Valid()
      modifies this`score, board
      ensures Cells() == MoveGrid(old(Cells()), d)
      ensures score == old(score) + MoveGain(old(Cells()), d)
      ensures moved == Changes(old(Cells()), d)
    {
      ghost var g0 := Cells();
      moved := false;
      var k := 0;
      while k < Size
        invariant 0 <= k <= Size
        invariant forall r, c :: 0 <= r < Size && 0 <= c < Size ==> board[r, c] == Midway(g0, d, k, 0, r, c)
        invariant score == old(score) + GainOfLines(g0, d, k)
        invariant moved == SomeLineChanges(g0, d, k)
      {
        var lineMoved := SlideLine(d, k, g0);
        if lineMoved {
          moved := true;
        }
        k := k + 1;
      }
      CellsAre(MoveGrid(g0, d));
    }

    /** The body of the loops of MoveLeft, MoveRight, MoveUp and MoveDown:
        line k is copied out of the board, processed and written back. */
    method SlideLine(d: Direction, k: nat, ghost g0: Grid) returns (lineMoved: bool)
      requires Valid() && k < Size
      requires forall r, c :: 0 <= r < Size && 0 <= c < Size ==> board[r, c] == Midway(g0, d, k, 0, r, c)
      modifies this`score, board
      ensures forall r, c :: 0 <= r < Size && 0 <= c < Size ==> board[r, c] == Midway(g0, d, k + 1, 0, r, c)
      ensures score == old(score) + Gain(LineAt(g0, d, k))
      ensures lineMoved == (Processed(LineAt(g0, d, k)) != LineAt(g0, d, k))
    {
      var line := new int[Size];
      var i := 0;
      while i < Size
        invariant 0 <= i <= Size
        invariant forall j :: 0 <= j < i ==> line[j] == LineAt(g0, d, k)[j]
        modifies line
      {
        MidwayReads(g0, d, k, i);
        line[i] := board[RowAt(d, k, i), ColAt(d, k, i)];
        i := i + 1;
      }
      assert line[..] == LineAt(g0, d, k);
      var newLine;
      newLine, lineMoved := ProcessLine(line);
      i := 0;
      while i < Size
        invariant 0 <= i <= Size
        invariant forall r, c :: 0 <= r < Size && 0 <= c < Size ==> board[r, c] == Midway(g0, d, k, i, r, c)
        modifies board
      {
        board[RowAt(d, k, i), ColAt(d, k, i)] := newLine[i];
        forall r, c | 0 <= r < Size && 0 <= c < Size ensures board[r, c] == Midway(g0, d, k, i + 1, r, c) {
          MidwayWrite(g0, d, k, i, r, c);
        }
        i := i + 1;
      }
      forall r, c | 0 <= r < Size && 0 <= c < Size ensures board[r, c] == Midway(g0, d, k + 1, 0, r, c) {
        MidwayNextLine(g0, d, k, r, c);
      }
    }

    /** Slides the tiles of one line towards index 0 and merges each pair of
        equal neighbours once, from index 0 on; the merged values are added
        to the score. */
    method ProcessLine(line: array<int>) returns (result: array<int>, moved: bool)
      requires line.Length == Size
      modifies this`score
      ensures fresh(result) && result.Length == Size
      ensures result[..] == Processed(line[..])
      ensures score == old(score) + Gain(line[..])
      ensures moved <==> result[..] != line[..]
    {
      var compacted, compactIndex := CompactLine(line);
      var gain;
      result, gain := MergeCompacted(compacted, compactIndex);
      score := score + gain;
      ghost var m := Merge(Compact(line[..]));
      assert result[..] == m + Zeros(Size - |m|);
      moved := LineChanged(line, result);
    }

    /** Puts a 2 (draw below 9 out of 10) or a 4 into the empty cell the slot
        draw picks from the row-major list of empty cells; a full board is
        left alone. */
    method SpawnTile(slotDraw: nat, valueDraw: nat)
      requires Valid()
      modifies board
      ensures Cells() == Spawn(old(Cells()), slotDraw, valueDraw)
    {
      ghost var g := Cells();
      var emptySlots := EmptySlots();
      EmptyUpToSound(g, Size - 1, Size);
      if |emptySlots| > 0 {
        var cell := emptySlots[slotDraw % |emptySlots|];
        board[cell.0, cell.1] := if valueDraw % 10 < 9 then 2 else 4;
        ghost var h := Fill(g, cell.0, cell.1, TileFor(valueDraw));
        forall r, c | 0 <= r < Size && 0 <= c < Size ensures board[r, c] == h[r][c] {
          if r != cell.0 || c != cell.1 {
            assert board[r, c] == old(board[r, c]) == g[r][c];
          }
        }
        CellsAre(h);
      }
    }

    /** The empty cells, collected row by row as SpawnTile lists them. */
    method EmptySlots() returns (emptySlots: seq<(nat, nat)>)
      requires Valid()
      ensures emptySlots == EmptyCells(Cells())
    {
      ghost var g := Cells();
      emptySlots := [];
      var r := 0;
      while r < Size
        invariant 0 <= r <= Size
        invariant emptySlots == if r == 0 then [] else EmptyUpTo(g, r - 1, Size)
      {
        var c := 0;
        while c < Size
          invariant 0 <= c <= Size
          invariant emptySlots == EmptyUpTo(g, r, c)
        {
          assert board[r, c] == g[r][c];
          if board[r, c] == 0 {
            emptySlots := emptySlots + [(r, c)];
          }
          c := c + 1;
        }
        r := r + 1;
      }
    }

    /** Won when some tile reaches 2048; otherwise Lost when the loss test fails. */
    method CheckGameState()
      requires Valid()
      modifies this`state
      ensures Cells() == old(Cells())
      ensures state == CheckState(Cells(), old(state))
    {
      var r := 0;
      while r < Size
        invariant 0 <= r <= Size
        invariant forall i, j :: 0 <= i < r && 0 <= j < Size ==> board[i, j] < WinValue
      {
        var c := 0;
        while c < Size
          invariant 0 <= c <= Size
          invariant forall i, j :: 0 <= i < r && 0 <= j < Size ==> board[i, j] < WinValue
          invariant forall j :: 0 <= j < c ==> board[r, j] < WinValue
        {
          if board[r, c] >= WinValue {
            assert Cells()[r][c] >= WinValue;
            state := Won;
            return;
          }
          c := c + 1;
        }
        r := r + 1;
      }
      assert !HasWinningTile(Cells()) by {
        forall r, c | 0 <= r < Size && 0 <= c < Size ensures Cells()[r][c] < WinValue {
          assert Cells()[r][c] == board[r, c];
        }
      }
      var valid := HasValidMove();
      if !valid {
        state := Lost;
      }
    }

    /** The loss test: an empty cell, or two equal horizontal or vertical neighbours. */
    method HasValidMove() returns (valid: bool)
      requires Valid()
      ensures valid == HasEmptyOrPair(Cells())
    {
      for r := 0 to Size
        invariant forall i, j :: 0 <= i < r && 0 <= j < Size ==> board[i, j] != 0
      {
        for c := 0 to Size
          invariant forall j :: 0 <= j < c ==> board[r, j] != 0
        {
          if board[r, c] == 0 {
            assert Cells()[r][c] == 0;
            return true;
          }
        }
      }
      for r := 0 to Size
        invariant forall i: nat, j: nat :: i < r && j < Size - 1 ==> !RowPair(Cells(), i, j)
      {
        for c := 0 to Size - 1
          invariant forall j: nat :: j < c ==> !RowPair(Cells(), r, j)
        {
          if board[r, c] == board[r, c + 1] {
            assert RowPair(Cells(), r, c);
            return true;
          }
        }
      }
      for r := 0 to Size - 1
        invariant forall i: nat, j: nat :: i < r && j < Size ==> !ColumnPair(Cells(), i, j)
      {
        for c := 0 to Size
          invariant forall j: nat :: j < c ==> !ColumnPair(Cells(), r, j)
        {
          if board[r, c] == board[r + 1, c] {
            assert ColumnPair(Cells(), r, c);
            return true;
          }
        }
      }
      return false;
    }
  }
}
