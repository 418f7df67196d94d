/** The GameEnv class of game_env.py: a 5x5 grid and a move counter that
    reset and step overwrite. Its _pop_piece is a second copy of the cascade
    of game.py, proved here against the same Rules.Pop. */
module Environment {
  import opened Rules
  import opened Grids
  import Game

  /** The player whose turn it is after n moves: blue on even, red on odd. */
  function ToMove(movesMade: nat): (p: Player)
    ensures p == Blue <==> movesMade % 2 == 0
  {
    if movesMade % 2 == 0 then Blue else Red
  }

  /** The cell at (r, c) after reset: "b3" at (1, 1), "r3" at (3, 3). */
  function StartCell(r: int, c: int): Cell
  {
    if r == 1 && c == 1 then Owned(Blue, 3)
    else if r == 3 && c == 3 then Owned(Red, 3)
    else Empty
  }

  /** No cell is empty: the game-over test of game_env.py. */
  ghost predicate Full(b: Board)
    requires IsGrid(b)
  {
    forall r, c :: InBounds(r, c) ==> b[r][c] != Empty
  }

  /** The action index decoded with divmod(action, 5). */
  function Decode(action: int): (rc: (int, int))
    requires 0 <= action < 25
    ensures InBounds(rc.0, rc.1) && 5 * rc.0 + rc.1 == action
  {
    (action / 5, action % 5)
  }

  class GameEnv {
    var grid: array2<Cell>
    var movesMade: nat

    /** The grid is 5x5 and holds only what the game stores in a cell. */
    ghost predicate Valid()
      reads this, grid
    {
      Is5x5(grid) && WellFormed(Snap(grid))
    }

    /** __init__: a fresh 5x5 grid of empty cells, then reset. */
    constructor ()
      ensures Valid() && fresh(grid)
      ensures forall r, c :: InBounds(r, c) ==> grid[r, c] == StartCell(r, c)
      ensures movesMade == 0
    {
      grid := new Cell[5, 5]((_, _) => Empty);
      movesMade := 0;
      new;
      Reset();
    }

    /** reset: every cell emptied, blue's 3 at (1, 1) and red's at (3, 3),
        and the move counter back to 0. */
    method Reset()
      requires Is5x5(grid)
      modifies this, grid
      ensures grid == old(grid) && Valid()
      ensures forall r, c :: InBounds(r, c) ==> grid[r, c] == StartCell(r, c)
      ensures movesMade == 0
    {
      for r := 0 to 5
        invariant grid == old(grid)
        invariant forall i, j :: 0 <= i < r && 0 <= j < 5 ==> grid[i, j] == Empty
      {
        for c := 0 to 5
          invariant grid == old(grid)
          invariant forall i, j :: 0 <= i < r && 0 <= j < 5 ==> grid[i, j] == Empty
          invariant forall j :: 0 <= j < c ==> grid[r, j] == Empty
        {
          grid[r, c] := Empty;
        }
      }
      grid[1, 1] := Owned(Blue, 3);
      grid[3, 3] := Owned(Red, 3);
      movesMade := 0;
    }

    /** step: decode the action, let the player to move pop that cell if it
        is theirs (reward 1 and one more move made) or refuse it (reward -1,
        nothing changes), then end the game with reward 10 once no cell is
        empty. */
    method Step(action: int) returns (reward: int, done: bool)
      requires Valid() && 0 <= action < 25
      modifies this, grid
      ensures grid == old(grid) && Valid()
      ensures var (row, col) := Decode(action);
              var player := ToMove(old(movesMade));
              if Owns(old(grid[row, col]), player) then
                && Snap(grid) == Pop(old(Snap(grid)), player, row, col)
                && movesMade == old(movesMade) + 1
                && reward == (if done then 10 else 1)
              else
                && Snap(grid) == old(Snap(grid))
                && movesMade == old(movesMade)
                && reward == (if done then 10 else -1)
      ensures done <==> Full(Snap(grid))
    {
      var row, col := action / 5, action % 5;
      var player := if movesMade % 2 == 0 then Blue else Red;
      reward := 0;
      done := false;
      var valid := ValidateAction(row, col, player);
      if valid {
        PopWellFormed(Snap(grid), player, row, col);
        PopPiece(row, col, player);
        movesMade := movesMade + 1;
        reward := 1;
      } else {
        reward := -1;
      }
      var over := CheckGameOver();
      if over {
        done := true;
        reward := 10;
      }
    }

    /** _validate_action: the cell's string starts with the player's letter. */
    method ValidateAction(row: int, col: int, player: Player) returns (ok: bool)
      requires Is5x5(grid) && InBounds(row, col)
      ensures ok <==> Owns(grid[row, col], player)
    {
      ok := grid[row, col].Owned? && grid[row, col].owner == player;
    }

    /** _pop_piece: the same cascade as game.py's pop_piece, on self.grid. */
    method PopPiece(row: int, col: int, player: Player)
      requires Is5x5(grid) && InBounds(row, col) && Owns(grid[row, col], player)
      modifies grid
      ensures Snap(grid) == Pop(old(Snap(grid)), player, row, col)
      decreases Sum(Snap(grid), Weighted) + Weight(row, col), 1
    {
      if grid[row, col] == Owned(player, 3) {
        Explode(row, col, player);
      } else {
        var value := grid[row, col].count + 1;
        if value == 4 {
          // only a count-3 cell that is not the player's gets here
          assert false;
        } else {
          Store(grid, row, col, Owned(player, value));
        }
      }
    }

    /** The explosion branch of _pop_piece. */
    method Explode(row: int, col: int, player: Player)
      requires Is5x5(grid) && InBounds(row, col) && grid[row, col] == Owned(player, 3)
      modifies grid
      ensures Snap(grid) == Pop(old(Snap(grid)), player, row, col)
      decreases Sum(Snap(grid), Weighted) + Weight(row, col), 0
    {
      ghost var bound := Sum(Snap(grid), Weighted) + Weight(row, col);
      ghost var target := Pop(Snap(grid), player, row, col);
      ExplodeLowers(Snap(grid), player, row, col);
      Store(grid, row, col, Empty);
      for k := 0 to 4
        invariant Spread(Snap(grid), player, row, col, k) == target
        invariant Sum(Snap(grid), Weighted) + Pending(row, col, k) < bound
      {
        PendingStep(row, col, k);
        SpreadStep(Snap(grid), player, row, col, k);
        VisitNeighbour(row, col, player, k);
      }
    }

    /** One turn of _pop_piece's neighbour loop: the neighbour of (row, col)
        in direction k, if it is on the grid. */
    method VisitNeighbour(row: int, col: int, player: Player, k: nat)
      requires Is5x5(grid) && InBounds(row, col) && k < 4
      modifies grid
      ensures InBounds(row + DR(k), col + DC(k)) ==>
                Snap(grid) == Visit(old(Snap(grid)), player, row + DR(k), col + DC(k))
      ensures !InBounds(row + DR(k), col + DC(k)) ==> Snap(grid) == old(Snap(grid))
      decreases Sum(Snap(grid), Weighted) + Gain(row, col, k), 3
    {
      var newRow, newCol := row + DR(k), col + DC(k);
      if 0 <= newRow < 5 && 0 <= newCol < 5 {
        VisitCell(newRow, newCol, player);
      }
    }

    /** An in-bounds neighbour: an empty cell becomes the player's 1, the
        player's own cell grows, an opponent's cell is taken over with its
        count and grows; a cell that reaches 4 is popped instead. */
    method VisitCell(newRow: int, newCol: int, player: Player)
      requires Is5x5(grid) && InBounds(newRow, newCol)
      modifies grid
      ensures Snap(grid) == Visit(old(Snap(grid)), player, newRow, newCol)
      decreases Sum(Snap(grid), Weighted) + Weight(newRow, newCol), 2
    {
      if grid[newRow, newCol] == Empty {
        Store(grid, newRow, newCol, Owned(player, 1));
      } else if grid[newRow, newCol].owner == player {
        var value := grid[newRow, newCol].count + 1;
        if value == 4 {
          PopPiece(newRow, newCol, player);
        } else {
          Store(grid, newRow, newCol, Owned(player, value));
        }
      } else {
        SumPut(Snap(grid), newRow, newCol, Owned(player, grid[newRow, newCol].count), Weighted);
        Store(grid, newRow, newCol, Owned(player, grid[newRow, newCol].count));
        var value := grid[newRow, newCol].count + 1;
        if value == 4 {
          PopPiece(newRow, newCol, player);
        } else {
          Store(grid, newRow, newCol, Owned(player, value));
        }
      }
    }

    /** The two copies of the cascade agree: game.py's pop_piece run on a copy
        of the grid and _pop_piece run on the grid itself leave the same board. */
    method PopPieceAgrees(row: int, col: int, player: Player) returns (copy: array2<Cell>)
      requires Is5x5(grid) && InBounds(row, col) && Owns(grid[row, col], player)
      modifies grid
      ensures fresh(copy) && Is5x5(copy)
      ensures Snap(grid) == Pop(old(Snap(grid)), player, row, col)
      ensures Snap(copy) == Snap(grid)
    {
      copy := Game.Clone(grid);
      Game.PopPiece(copy, player, row, col);
      PopPiece(row, col, player);
    }

    /** _check_game_over: no cell of the grid is empty. */
    method CheckGameOver() returns (over: bool)
      requires Is5x5(grid)
      ensures over <==> Full(Snap(grid))
    {
      for r := 0 to 5
        invariant forall i, j :: 0 <= i < r && 0 <= j < 5 ==> grid[i, j] != Empty
      {
        for c := 0 to 5
          invariant forall j :: 0 <= j < c ==> grid[r, j] != Empty
        {
          if grid[r, c] == Empty {
            return false;
          }
        }
      }
      return true;
    }
  }
}
