/** A game as a value: the board, the score, the state and the per-direction
    move counters of the engine, and the effect of one move on them. */
module Games {
  import opened Lines
  import opened Grids

  datatype GameState = Playing | Won | Lost

  datatype Game = Game(cells: Grid, score: int, state: GameState,
                       movesUp: int, movesDown: int, movesLeft: int, movesRight: int)
  {
    function TotalMoves(): int
    {
      movesUp + movesDown + movesLeft + movesRight
    }

    /** The counter kept for direction d. */
    function MovesIn(d: Direction): int
    {
      match d
      case Up => movesUp
      case Down => movesDown
      case Left => movesLeft
      case Right => movesRight
    }
  }

  /** The game after one more accepted move towards d. */
  function Count(g: Game, d: Direction): Game
  {
    match d
    case Up => g.(movesUp := g.movesUp + 1)
    case Down => g.(movesDown := g.movesDown + 1)
    case Left => g.(movesLeft := g.movesLeft + 1)
    case Right => g.(movesRight := g.movesRight + 1)
  }

  /** The state after a move: a winning tile first, then no empty cell and
      no equal neighbours, otherwise the state stays. */
  function CheckState(cells: Grid, current: GameState): GameState
  {
    if HasWinningTile(cells) then Won
    else if !HasEmptyOrPair(cells) then Lost
    else current
  }

  /** A move towards d is carried out: the game is on and the board changes. */
  predicate Moved(g: Game, d: Direction)
  {
    g.state == Playing && Changes(g.cells, d)
  }

  /** One call of the engine's Move with the two draws its spawn takes. */
  function Step(g: Game, d: Direction, slotDraw: nat, valueDraw: nat): Game
  {
    if !Moved(g, d) then g
    else
      var cells := Spawn(MoveGrid(g.cells, d), slotDraw, valueDraw);
      Count(g.(cells := cells, score := g.score + MoveGain(g.cells, d),
               state := CheckState(cells, g.state)), d)
  }

  function Rank(d: Direction): nat
  {
    match d
    case Up => 0
    case Down => 1
    case Left => 2
    case Right => 3
  }

  /** The list of moves extended by d when a move towards d changes the board. */
  function AddIfChanges(moves: seq<Direction>, cells: Grid, d: Direction): seq<Direction>
  {
    if Changes(cells, d) then moves + [d] else moves
  }

  /** The directions that change the board, tried in the order Up, Down, Left, Right. */
  function AvailableMoves(cells: Grid): seq<Direction>
  {
    AddIfChanges(AddIfChanges(AddIfChanges(AddIfChanges([], cells, Up), cells, Down), cells, Left), cells, Right)
  }

  /** The available moves are four pieces of at most one direction each. */
  lemma AvailableMovesSplit(cells: Grid)
    ensures AvailableMoves(cells) ==
      (if Changes(cells, Up) then [Up] else []) +
      (if Changes(cells, Down) then [Down] else []) +
      (if Changes(cells, Left) then [Left] else []) +
      (if Changes(cells, Right) then [Right] else [])
  {
  }

  /** A direction is available exactly when it changes the board. */
  lemma AvailableMovesExact(cells: Grid, d: Direction)
    ensures d in AvailableMoves(cells) <==> Changes(cells, d)
  {
    var u := if Changes(cells, Up) then [Up] else [];
    var dn := if Changes(cells, Down) then [Down] else [];
    var l := if Changes(cells, Left) then [Left] else [];
    var r := if Changes(cells, Right) then [Right] else [];
    AvailableMovesSplit(cells);
    assert d in u + dn + l + r <==> d in u || d in dn || d in l || d in r;
  }

  predicate Ranked(moves: seq<Direction>)
  {
    forall i, j :: 0 <= i < j < |moves| ==> Rank(moves[i]) < Rank(moves[j])
  }

  lemma RankedConcat(a: seq<Direction>, b: seq<Direction>)
    requires Ranked(a) && Ranked(b)
    requires forall x, y :: x in a && y in b ==> Rank(x) < Rank(y)
    ensures Ranked(a + b)
  {
    forall i, j | 0 <= i < j < |a + b| ensures Rank((a + b)[i]) < Rank((a + b)[j]) {
      if j < |a| {
      } else if i < |a| {
        assert (a + b)[i] in a && (a + b)[j] in b;
      } else {
        assert (a + b)[i] == b[i - |a|] && (a + b)[j] == b[j - |a|];
      }
    }
  }

  /** The available moves keep the order Up, Down, Left, Right, each at most once. */
  lemma AvailableMovesOrdered(cells: Grid)
    ensures Ranked(AvailableMoves(cells))
  {
    var u := if Changes(cells, Up) then [Up] else [];
    var dn := if Changes(cells, Down) then [Down] else [];
    var l := if Changes(cells, Left) then [Left] else [];
    var r := if Changes(cells, Right) then [Right] else [];
    AvailableMovesSplit(cells);
    RankedConcat(u, dn);
    RankedConcat(u + dn, l);
    RankedConcat(u + dn + l, r);
  }

  /** A fresh game: two spawns on the empty board. */
  function NewGame(slot1: nat, value1: nat, slot2: nat, value2: nat): Game
  {
    var first := Spawn(EmptyGrid(), slot1, value1);
    Game(Spawn(first, slot2, value2), 0, Playing, 0, 0, 0, 0)
  }

  /** What holds of every game the engine reaches. */
  predicate WellFormed(g: Game)
  {
    && TilesValid(g.cells)
    && HasTile(g.cells)
    && g.score >= 0
    && g.movesUp >= 0 && g.movesDown >= 0 && g.movesLeft >= 0 && g.movesRight >= 0
    && (g.state == Playing ==> !HasWinningTile(g.cells) && SomeMoveChanges(g.cells))
    && (g.state == Won ==> HasWinningTile(g.cells))
    && (g.state == Lost ==> !HasWinningTile(g.cells) && !SomeMoveChanges(g.cells))
  }

  // ---------------------------------------------------------------------
  // A new game

  lemma FillHasTile(g: Grid, r: nat, c: nat, v: int)
    requires r < Size && c < Size && v != 0
    ensures HasTile(Fill(g, r, c, v))
  {
    assert Fill(g, r, c, v)[r][c] == v;
  }

  /** A new game holds exactly two tiles, each a 2 or a 4, scores 0, has no
      recorded move and is under way. */
  lemma NewGameShape(slot1: nat, value1: nat, slot2: nat, value2: nat)
    ensures var g := NewGame(slot1, value1, slot2, value2);
      && EmptyCount(g.cells) == Size * Size - 2
      && (forall r, c :: 0 <= r < Size && 0 <= c < Size ==> g.cells[r][c] in {0, 2, 4})
      && g.score == 0 && g.TotalMoves() == 0 && g.state == Playing
  {
    var first := Spawn(EmptyGrid(), slot1, value1);
    EmptyGridCount();
    SpawnFillsOneCell(EmptyGrid(), slot1, value1);
    SpawnCount(EmptyGrid(), slot1, value1);
    SpawnFillsOneCell(first, slot2, value2);
    SpawnCount(first, slot2, value2);
  }

  /** A new game is well formed. */
  lemma NewGameWellFormed(slot1: nat, value1: nat, slot2: nat, value2: nat)
    ensures WellFormed(NewGame(slot1, value1, slot2, value2))
  {
    var first := Spawn(EmptyGrid(), slot1, value1);
    var g := NewGame(slot1, value1, slot2, value2);
    NewGameShape(slot1, value1, slot2, value2);
    SpawnKeepsTiles(EmptyGrid(), slot1, value1);
    SpawnKeepsTiles(first, slot2, value2);
    var cell := SpawnCell(first, slot2);
    FillHasTile(first, cell.0, cell.1, TileFor(value2));
    assert !HasWinningTile(g.cells) by {
      forall r, c | 0 <= r < Size && 0 <= c < Size ensures g.cells[r][c] < WinValue {
        assert g.cells[r][c] in {0, 2, 4};
      }
    }
    EmptyCountPositive(g.cells);
    EmptyOrPairIffSomeMove(g.cells);
  }

  // ---------------------------------------------------------------------
  // One move

  /** A move is refused, and changes nothing, when the game is over or the
      board would not change; the score only moves on an accepted move. */
  lemma RefusedMoveChangesNothing(g: Game, d: Direction, slotDraw: nat, valueDraw: nat)
    ensures !Moved(g, d) <==> Step(g, d, slotDraw, valueDraw) == g
  {
    if Moved(g, d) {
      var h := Step(g, d, slotDraw, valueDraw);
      assert h.MovesIn(d) == g.MovesIn(d) + 1;
    }
  }

  /** An accepted move is the counted game with the spawned board, the
      gained score and the checked state. */
  lemma StepMoved(g: Game, d: Direction, slotDraw: nat, valueDraw: nat)
    requires Moved(g, d)
    ensures var cells := Spawn(MoveGrid(g.cells, d), slotDraw, valueDraw);
      Step(g, d, slotDraw, valueDraw) ==
        Count(g, d).(cells := cells, score := g.score + MoveGain(g.cells, d), state := CheckState(cells, g.state))
  {
  }

  /** An accepted move adds its merge gain to the score and counts itself in
      its own direction only. */
  lemma AcceptedMoveCounts(g: Game, d: Direction, slotDraw: nat, valueDraw: nat)
    requires Moved(g, d)
    ensures var h := Step(g, d, slotDraw, valueDraw);
      && h.score == g.score + MoveGain(g.cells, d)
      && h.MovesIn(d) == g.MovesIn(d) + 1
      && (forall e :: e != d ==> h.MovesIn(e) == g.MovesIn(e))
      && h.TotalMoves() == g.TotalMoves() + 1
  {
  }

  /** An accepted move spawns exactly one 2 or 4 into the moved board. */
  lemma AcceptedMoveSpawns(g: Game, d: Direction, slotDraw: nat, valueDraw: nat)
    requires Moved(g, d)
    ensures var h := Step(g, d, slotDraw, valueDraw);
      && EmptyCount(h.cells) == EmptyCount(MoveGrid(g.cells, d)) - 1
      && GridSum(h.cells) == GridSum(g.cells) + TileFor(valueDraw)
  {
    var moved := MoveGrid(g.cells, d);
    ChangedMoveLeavesEmpty(g.cells, d);
    SpawnCount(moved, slotDraw, valueDraw);
    SpawnSum(moved, slotDraw, valueDraw);
    MoveKeepsSum(g.cells, d);
  }

  /** The score after a move does not depend on where or what the spawn puts. */
  lemma ScoreIgnoresSpawn(g: Game, d: Direction, s1: nat, v1: nat, s2: nat, v2: nat)
    ensures Step(g, d, s1, v1).score == Step(g, d, s2, v2).score
    ensures Step(g, d, s1, v1).TotalMoves() == Step(g, d, s2, v2).TotalMoves()
  {
  }

  /** After an accepted move the game is won exactly when a tile reached 2048,
      and lost exactly when it is not won and the loss test fails. */
  lemma StateAfterMove(g: Game, d: Direction, slotDraw: nat, valueDraw: nat)
    requires Moved(g, d)
    ensures var h := Step(g, d, slotDraw, valueDraw);
      && (h.state == Won <==> HasWinningTile(h.cells))
      && (h.state == Lost <==> !HasWinningTile(h.cells) && !HasEmptyOrPair(h.cells))
  {
  }

  /** Every move keeps a game well formed: a game under way has a winning-free
      board with some possible move, a won game has a 2048 tile, a lost game
      has no possible move. */
  lemma StepKeepsWellFormed(g: Game, d: Direction, slotDraw: nat, valueDraw: nat)
    requires WellFormed(g)
    ensures WellFormed(Step(g, d, slotDraw, valueDraw))
  {
    if Moved(g, d) {
      var moved := MoveGrid(g.cells, d);
      var h := Step(g, d, slotDraw, valueDraw);
      MoveKeepsTiles(g.cells, d);
      ChangedMoveLeavesEmpty(g.cells, d);
      SpawnFillsOneCell(moved, slotDraw, valueDraw);
      SpawnKeepsTiles(moved, slotDraw, valueDraw);
      var cell := SpawnCell(moved, slotDraw);
      FillHasTile(moved, cell.0, cell.1, TileFor(valueDraw));
      if !HasWinningTile(h.cells) {
        if HasEmptyOrPair(h.cells) {
          EmptyOrPairIffSomeMove(h.cells);
        } else {
          FullNoPairNoMove(h.cells);
        }
      }
    }
  }

  /** While a game is under way no cell holds 2048 or more, so the cells add
      up to at most sixteen times 2047. */
  lemma PlayingSumBound(g: Game)
    requires WellFormed(g) && g.state == Playing
    ensures 0 <= GridSum(g.cells) <= Size * Size * (WinValue - 1)
  {
    var b := g.cells;
    forall r, c | 0 <= r < Size && 0 <= c < Size ensures 0 <= b[r][c] < WinValue {
      TileNonNegative(b[r][c]);
    }
    Sum4(b[0]);
    Sum4(b[1]);
    Sum4(b[2]);
    Sum4(b[3]);
  }

  /** In a well-formed game the available moves are empty exactly when the
      game is lost or won with no move left; while playing there is always one. */
  lemma PlayingHasMoves(g: Game)
    requires WellFormed(g) && g.state == Playing
    ensures AvailableMoves(g.cells) != []
  {
    if Changes(g.cells, Up) {
      AvailableMovesExact(g.cells, Up);
    } else if Changes(g.cells, Down) {
      AvailableMovesExact(g.cells, Down);
    } else if Changes(g.cells, Left) {
      AvailableMovesExact(g.cells, Left);
    } else {
      AvailableMovesExact(g.cells, Right);
    }
  }

  /** A lost game has no available move. */
  lemma LostHasNoMoves(g: Game)
    requires WellFormed(g) && g.state == Lost
    ensures AvailableMoves(g.cells) == []
  {
  }

  // ---------------------------------------------------------------------
  // A sequence of moves

  datatype Turn = Turn(dir: Direction, slotDraw: nat, valueDraw: nat)

  function Play(g: Game, turns: seq<Turn>): Game
    decreases |turns|
  {
    if turns == [] then g
    else Play(Step(g, turns[0].dir, turns[0].slotDraw, turns[0].valueDraw), turns[1..])
  }

  /** The number of moves the engine accepts while playing the turns. */
  function Accepted(g: Game, turns: seq<Turn>): nat
    decreases |turns|
  {
    if turns == [] then 0
    else
      (if Moved(g, turns[0].dir) then 1 else 0) +
      Accepted(Step(g, turns[0].dir, turns[0].slotDraw, turns[0].valueDraw), turns[1..])
  }

  /** TotalMoves counts exactly the accepted moves, and the game stays well formed. */
  lemma {:induction false} PlayCountsMoves(g: Game, turns: seq<Turn>)
    requires WellFormed(g)
    ensures Play(g, turns).TotalMoves() == g.TotalMoves() + Accepted(g, turns)
    ensures WellFormed(Play(g, turns))
    decreases |turns|
  {
    if turns != [] {
      var t := turns[0];
      var h := Step(g, t.dir, t.slotDraw, t.valueDraw);
      StepKeepsWellFormed(g, t.dir, t.slotDraw, t.valueDraw);
      if Moved(g, t.dir) {
        AcceptedMoveCounts(g, t.dir, t.slotDraw, t.valueDraw);
      } else {
        RefusedMoveChangesNothing(g, t.dir, t.slotDraw, t.valueDraw);
      }
      PlayCountsMoves(h, turns[1..]);
    }
  }

  /** The score never decreases along a game. */
  lemma {:induction false} PlayScoreGrows(g: Game, turns: seq<Turn>)
    requires WellFormed(g)
    ensures Play(g, turns).score >= g.score
    decreases |turns|
  {
    if turns != [] {
      var t := turns[0];
      StepKeepsWellFormed(g, t.dir, t.slotDraw, t.valueDraw);
      if Moved(g, t.dir) {
        MoveKeepsTiles(g.cells, t.dir);
      }
      PlayScoreGrows(Step(g, t.dir, t.slotDraw, t.valueDraw), turns[1..]);
    }
  }
}
