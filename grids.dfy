/** The mutable 5x5 grid that game.py keeps as a list of lists and
    game_env.py as a numpy array, as a Dafny array2 of cells, and its
    value as a Rules.Board. */
module Grids {
  import opened Rules

  predicate Is5x5(grid: array2<Cell>)
  {
    grid.Length0 == 5 && grid.Length1 == 5
  }

  /** The board the grid holds: row r, column c is grid[r, c]. */
  ghost function Snap(grid: array2<Cell>): (b: Board)
    requires Is5x5(grid)
    reads grid
    ensures IsGrid(b)
    ensures forall r, c :: InBounds(r, c) ==> b[r][c] == grid[r, c]
  {
    seq(5, r requires 0 <= r < 5 reads grid => seq(5, c requires 0 <= c < 5 reads grid => grid[r, c]))
  }

  /** Two boards with the same cells are the same board. */
  lemma SameCells(b: Board, b': Board)
    requires IsGrid(b) && IsGrid(b')
    requires forall r, c :: InBounds(r, c) ==> b[r][c] == b'[r][c]
    ensures b == b'
  {
    forall r | 0 <= r < 5
      ensures b[r] == b'[r]
    {
      assert forall c :: 0 <= c < 5 ==> b[r][c] == b'[r][c];
    }
  }

  /** The assignment grid[r][c] = x. */
  method Store(grid: array2<Cell>, r: int, c: int, x: Cell)
    requires Is5x5(grid) && InBounds(r, c)
    modifies grid
    ensures Snap(grid) == Put(old(Snap(grid)), r, c, x)
  {
    grid[r, c] := x;
    SameCells(Snap(grid), Put(old(Snap(grid)), r, c, x));
  }
}
