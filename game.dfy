/** The rules engine of game.py: the grid is an array2 that the methods
    update in place, and each method is proved against Rules. */
module Game {
  import opened Rules
  import opened Grids

  /** A (row, col) pair as check_all_moves appends it. */
  datatype Move = Move(row: int, col: int)

  /** The position of a move in row-major order. */
  function Index(m: Move): int
  {
    5 * m.row + m.col
  }

  /** A legal move for p: a cell on the board that p owns. */
  ghost predicate Legal(b: Board, p: Player, m: Move)
  {
    IsGrid(b) && InBounds(m.row, m.col) && Owns(b[m.row][m.col], p)
  }

  /** What get_best_move scores a move with: the sum of the mover's counts
      after popping it. */
  ghost function Score(b: Board, p: Player, m: Move): nat
    requires Legal(b, p, m)
  {
    Sum(Pop(b, p, m.row, m.col), OwnMass(p))
  }

  /** initialize_grid: a 5x5 grid of empty cells. */
  method InitializeGrid() returns (grid: array2<Cell>)
    ensures fresh(grid) && Is5x5(grid)
    ensures forall r, c :: InBounds(r, c) ==> grid[r, c] == Empty
  {
    grid := new Cell[5, 5]((_, _) => Empty);
  }

  /** place_piece: the opening placement puts a 3 of the player's on a cell. */
  method PlacePiece(grid: array2<Cell>, player: Player, row: int, col: int)
    requires Is5x5(grid) && InBounds(row, col)
    modifies grid
    ensures Snap(grid) == Put(old(Snap(grid)), row, col, Owned(player, 3))
  {
    Store(grid, row, col, Owned(player, 3));
  }

  /** pop_piece: pops one of the player's cells and resolves the cascade in
      place, recursing into every neighbour that reaches 4. It terminates
      because every explosion lowers the weighted sum of the counts. */
  method PopPiece(grid: array2<Cell>, player: Player, row: int, col: int)
    requires Is5x5(grid)
    requires InBounds(row, col) && Owns(grid[row, col], player)
    modifies grid
    ensures Snap(grid) == Pop(old(Snap(grid)), player, row, col)
    decreases Sum(Snap(grid), Weighted) + Weight(row, col), 1
  {
    if grid[row, col] == Owned(player, 3) {
      Explode(grid, player, row, col);
    } else {
      var value := grid[row, col].count + 1;
      if value == 4 {
        // only a count-3 cell that is not the player's gets here
        assert false;
      } else {
        Store(grid, row, col, Owned(player, value));
      }
    }
  }

  /** The explosion branch of pop_piece: the cell is emptied and each of the
      four neighbours, right, left, down, up, is visited in turn. */
  method Explode(grid: array2<Cell>, player: Player, row: int, col: int)
    requires Is5x5(grid)
    requires InBounds(row, col) && grid[row, col] == Owned(player, 3)
    modifies grid
    ensures Snap(grid) == Pop(old(Snap(grid)), player, row, col)
    decreases Sum(Snap(grid), Weighted) + Weight(row, col), 0
  {
    ghost var bound := Sum(Snap(grid), Weighted) + Weight(row, col);
    ghost var target := Pop(Snap(grid), player, row, col);
    ExplodeLowers(Snap(grid), player, row, col);
    Store(grid, row, col, Empty);
    for k := 0 to 4
      invariant Spread(Snap(grid), player, row, col, k) == target
      invariant Sum(Snap(grid), Weighted) + Pending(row, col, k) < bound
    {
      PendingStep(row, col, k);
      SpreadStep(Snap(grid), player, row, col, k);
      VisitNeighbour(grid, player, row, col, k);
    }
  }

  /** One turn of pop_piece's neighbour loop: the neighbour of (row, col) in
      direction k, if it is on the grid. */
  method VisitNeighbour(grid: array2<Cell>, player: Player, row: int, col: int, k: nat)
    requires Is5x5(grid) && InBounds(row, col) && k < 4
    modifies grid
    ensures InBounds(row + DR(k), col + DC(k)) ==>
              Snap(grid) == Visit(old(Snap(grid)), player, row + DR(k), col + DC(k))
    ensures !InBounds(row + DR(k), col + DC(k)) ==> Snap(grid) == old(Snap(grid))
    decreases Sum(Snap(grid), Weighted) + Gain(row, col, k), 3
  {
    var newRow, newCol := row + DR(k), col + DC(k);
    if 0 <= newRow < 5 && 0 <= newCol < 5 {
      VisitCell(grid, player, newRow, newCol);
    }
  }

  /** An in-bounds neighbour: an empty cell becomes the player's 1, the
      player's own cell grows, an opponent's cell is taken over with its count
      and grows; a cell that reaches 4 is popped instead. */
  method VisitCell(grid: array2<Cell>, player: Player, newRow: int, newCol: int)
    requires Is5x5(grid) && InBounds(newRow, newCol)
    modifies grid
    ensures Snap(grid) == Visit(old(Snap(grid)), player, newRow, newCol)
    decreases Sum(Snap(grid), Weighted) + Weight(newRow, newCol), 2
  {
    if grid[newRow, newCol] == Empty {
      Store(grid, newRow, newCol, Owned(player, 1));
    } else if grid[newRow, newCol].owner == player {
      var value := grid[newRow, newCol].count + 1;
      if value == 4 {
        PopPiece(grid, player, newRow, newCol);
      } else {
        Store(grid, newRow, newCol, Owned(player, value));
      }
    } else {
      SumPut(Snap(grid), newRow, newCol, Owned(player, grid[newRow, newCol].count), Weighted);
      Store(grid, newRow, newCol, Owned(player, grid[newRow, newCol].count));
      var value := grid[newRow, newCol].count + 1;
      if value == 4 {
        PopPiece(grid, player, newRow, newCol);
      } else {
        Store(grid, newRow, newCol, Owned(player, value));
      }
    }
  }

  /** has_pieces: whether some cell belongs to the player. */
  method HasPieces(grid: array2<Cell>, player: Player) returns (found: bool)
    requires Is5x5(grid)
    ensures found <==> exists r, c :: InBounds(r, c) && Owns(grid[r, c], player)
  {
    for r := 0 to 5
      invariant forall i, j :: 0 <= i < r && 0 <= j < 5 ==> !Owns(grid[i, j], player)
    {
      for c := 0 to 5
        invariant forall j :: 0 <= j < c ==> !Owns(grid[r, j], player)
      {
        if Owns(grid[r, c], player) {
          return true;
        }
      }
    }
    return false;
  }

  /** check_all_moves: the player's cells, each once, in row-major order. */
  method CheckAllMoves(grid: array2<Cell>, player: Player) returns (moves: seq<Move>)
    requires Is5x5(grid)
    ensures forall m :: m in moves <==> InBounds(m.row, m.col) && Owns(grid[m.row, m.col], player)
    ensures forall i, j :: 0 <= i < j < |moves| ==> Index(moves[i]) < Index(moves[j])
  {
    moves := [];
    for row := 0 to 5
      invariant forall m :: m in moves <==> InBounds(m.row, m.col) && Owns(grid[m.row, m.col], player) && m.row < row
      invariant forall i, j :: 0 <= i < j < |moves| ==> Index(moves[i]) < Index(moves[j])
      invariant forall m :: m in moves ==> Index(m) < 5 * row
    {
      for col := 0 to 5
        invariant forall m :: m in moves <==>
                    InBounds(m.row, m.col) && Owns(grid[m.row, m.col], player)
                    && (m.row < row || (m.row == row && m.col < col))
        invariant forall i, j :: 0 <= i < j < |moves| ==> Index(moves[i]) < Index(moves[j])
        invariant forall m :: m in moves ==> Index(m) < 5 * row + col
      {
        if Owns(grid[row, col], player) {
          moves := moves + [Move(row, col)];
        }
      }
    }
  }

  /** deepcopy(grid) */
  method Clone(grid: array2<Cell>) returns (copy: array2<Cell>)
    requires Is5x5(grid)
    ensures fresh(copy) && Is5x5(copy) && Snap(copy) == Snap(grid)
  {
    copy := new Cell[5, 5];
    for r := 0 to 5
      invariant forall i, j :: 0 <= i < r && 0 <= j < 5 ==> copy[i, j] == grid[i, j]
    {
      for c := 0 to 5
        invariant forall i, j :: 0 <= i < r && 0 <= j < 5 ==> copy[i, j] == grid[i, j]
        invariant forall j :: 0 <= j < c ==> copy[r, j] == grid[r, j]
      {
        copy[r, c] := grid[r, c];
      }
    }
    SameCells(Snap(copy), Snap(grid));
  }

  /** The scoring loop of get_best_move: the sum of the player's counts. */
  method CountOwn(state: array2<Cell>, player: Player) returns (score: nat)
    requires Is5x5(state)
    ensures score == Sum(Snap(state), OwnMass(player))
  {
    score := 0;
    for i := 0 to 5
      invariant score == RowsSum(Snap(state), OwnMass(player), i)
    {
      for j := 0 to 5
        invariant score == RowsSum(Snap(state), OwnMass(player), i) + RowSum(Snap(state)[i], i, OwnMass(player), j)
      {
        if Owns(state[i, j], player) {
          score := score + state[i, j].count;
        }
      }
    }
  }

  /** One trial of get_best_move: pop the move on a copy of the grid and
      count the mover's pieces; the grid itself is left as it was. */
  method ScoreMove(grid: array2<Cell>, player: Player, m: Move, ghost b: Board) returns (score: nat)
    requires Is5x5(grid) && Snap(grid) == b && Legal(b, player, m)
    ensures score == Score(b, player, m)
  {
    var state := Clone(grid);
    PopPiece(state, player, m.row, m.col);
    score := CountOwn(state, player);
  }

  /** The scores get_best_move computes, one per listed move. */
  ghost function Scores(b: Board, p: Player, moves: seq<Move>): (s: seq<nat>)
    requires forall j :: 0 <= j < |moves| ==> Legal(b, p, moves[j])
    ensures |s| == |moves|
    ensures forall j :: 0 <= j < |moves| ==> s[j] == Score(b, p, moves[j])
  {
    seq(|moves|, j requires 0 <= j < |moves| => Score(b, p, moves[j]))
  }

  /** With the moves listed in row-major order and scored, the move picked
      by the scoring loop is best among all legal moves and strictly better
      than every legal move before it on the board. */
  lemma BestOfAll(b: Board, p: Player, moves: seq<Move>, bi: nat)
    requires IsGrid(b) && bi < |moves|
    requires forall m :: m in moves <==> Legal(b, p, m)
    requires forall i, j :: 0 <= i < j < |moves| ==> Index(moves[i]) < Index(moves[j])
    requires forall j :: 0 <= j < |moves| ==> Scores(b, p, moves)[j] <= Scores(b, p, moves)[bi]
    requires forall j :: 0 <= j < bi ==> Scores(b, p, moves)[j] < Scores(b, p, moves)[bi]
    ensures forall m :: Legal(b, p, m) ==> Score(b, p, m) <= Score(b, p, moves[bi])
    ensures forall m :: Legal(b, p, m) && Index(m) < Index(moves[bi]) ==>
              Score(b, p, m) < Score(b, p, moves[bi])
  {
    forall m | Legal(b, p, m)
      ensures Score(b, p, m) <= Score(b, p, moves[bi])
      ensures Index(m) < Index(moves[bi]) ==> Score(b, p, m) < Score(b, p, moves[bi])
    {
      var j :| 0 <= j < |moves| && moves[j] == m;
      assert Scores(b, p, moves)[j] == Score(b, p, m);
    }
  }

  /** The loop of get_best_move: every move is scored on a copy of the grid,
      and a move replaces the best so far only when it scores strictly more
      than max, which starts at 0. The result is the first of the moves with
      the greatest score. */
  method PickBest(grid: array2<Cell>, player: Player, moves: seq<Move>, ghost b: Board, ghost scores: seq<nat>)
      returns (best: Move, ghost bi: nat)
    requires Is5x5(grid) && Snap(grid) == b && 0 < |moves| == |scores|
    requires forall j :: 0 <= j < |moves| ==> Legal(b, player, moves[j])
    requires forall j {:trigger Score(b, player, moves[j])} :: 0 <= j < |moves| ==> scores[j] == Score(b, player, moves[j])
    ensures bi < |moves| && best == moves[bi]
    ensures forall j :: 0 <= j < |moves| ==> scores[j] <= scores[bi]
    ensures forall j :: 0 <= j < bi ==> scores[j] < scores[bi]
  {
    var max := 0;
    best := moves[0];
    bi := 0;
    for i := 0 to |moves|
      invariant Snap(grid) == b
      invariant 0 <= bi < |moves| && best == moves[bi]
      invariant i == 0 ==> bi == 0 && max == 0
      invariant i > 0 ==> bi < i && max == scores[bi]
      invariant forall j :: 0 <= j < i ==> scores[j] <= max
      invariant forall j :: 0 <= j < bi ==> scores[j] < max
    {
      var score := ScoreMove(grid, player, moves[i], b);
      if score > max {
        best := moves[i];
        max := score;
        bi := i;
      }
    }
  }

  /** get_best_move: the one-ply greedy choice. Every legal move is tried on a
      copy of the grid and scored; the first move with the greatest score is
      kept (the comparison is strict and max starts at 0). */
  method GetBestMove(grid: array2<Cell>, player: Player) returns (best: Move)
    requires Is5x5(grid)
    requires exists r, c :: InBounds(r, c) && Owns(grid[r, c], player)
    ensures Legal(Snap(grid), player, best)
    ensures forall m :: Legal(Snap(grid), player, m) ==>
              Score(Snap(grid), player, m) <= Score(Snap(grid), player, best)
    ensures forall m :: Legal(Snap(grid), player, m) && Index(m) < Index(best) ==>
              Score(Snap(grid), player, m) < Score(Snap(grid), player, best)
  {
    var moves := CheckAllMoves(grid, player);
    ghost var r0, c0 :| InBounds(r0, c0) && Owns(grid[r0, c0], player);
    assert Move(r0, c0) in moves;
    ghost var bi;
    best, bi := PickBest(grid, player, moves, Snap(grid), Scores(Snap(grid), player, moves));
    BestOfAll(Snap(grid), player, moves, bi);
  }
}
