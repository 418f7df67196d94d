/** The rules of Color Wars on its 5x5 board, as values.

    A cell of game.py and game_env.py is a two-character string: the owner
    character ('b' or 'r') followed by a count digit, or "  " for an empty
    cell. Here it is the datatype Cell; Owned(Blue, 3) stands for "b3". A board is the list of
    five rows of five cells. The functions Pop, Spread and Visit are the
    cascade of pop_piece, written as the functions that the in-place methods
    of Game and Environment are proved against. */
module Rules {

  datatype Player = Blue | Red

  function Opponent(p: Player): Player
  {
    if p == Blue then Red else Blue
  }

  datatype Cell = Empty | Owned(owner: Player, count: nat)

  /** cell[0] == player */
  predicate Owns(x: Cell, p: Player)
  {
    x.Owned? && x.owner == p
  }

  /** The number of pieces on a cell; an empty cell holds none. */
  function Count(x: Cell): nat
  {
    if x.Empty? then 0 else x.count
  }

  type Board = seq<seq<Cell>>

  predicate InBounds(r: int, c: int)
  {
    0 <= r < 5 && 0 <= c < 5
  }

  predicate IsGrid(b: Board)
  {
    |b| == 5 && forall r :: 0 <= r < 5 ==> |b[r]| == 5
  }

  /** What the game ever stores in a cell: empty, or an owner with 1, 2 or 3. */
  predicate CellOk(x: Cell)
  {
    x.Empty? || 1 <= x.count <= 3
  }

  ghost predicate WellFormed(b: Board)
  {
    IsGrid(b) && forall r, c :: InBounds(r, c) ==> CellOk(b[r][c])
  }

  /** The board with cell (r, c) replaced by x: the assignment grid[r][c] = x. */
  function Put(b: Board, r: int, c: int, x: Cell): (b': Board)
    requires IsGrid(b) && InBounds(r, c)
    ensures IsGrid(b')
  {
    b[r := b[r][c := x]]
  }

  /** Every cell that differs between b and b' is empty or p's in b': the
      opponent of p never gains a cell and never changes one it keeps. */
  ghost predicate OnlyClaims(b: Board, b': Board, p: Player)
    requires IsGrid(b) && IsGrid(b')
  {
    forall r, c :: InBounds(r, c) ==> b'[r][c] == b[r][c] || !Owns(b'[r][c], Opponent(p))
  }

  // ---------------------------------------------------------------------
  // Sums over the board

  /** Three ways of weighing the pieces on a board: all of them (Mass), each
      weighted by the position of its cell (Weighted, the termination measure
      of the cascade), or only those of one player (OwnMass, the score of
      get_best_move). */
  datatype Measure = Mass | Weighted | OwnMass(p: Player)

  /** Weight of a cell in the termination measure: G(r) + G(c), with G
      strictly concave on 0..4 so that an explosion always lowers the total. */
  function Weight(r: int, c: int): nat
  {
    Gauge(r) + Gauge(c)
  }

  function Gauge(x: int): nat
  {
    if x == 0 || x == 4 then 3 else if x == 2 then 7 else 6
  }

  /** n * w as repeated addition, which keeps the measure linear. */
  function Times(n: nat, w: nat): nat
  {
    if n == 0 then 0 else w + Times(n - 1, w)
  }

  function Val(m: Measure, r: int, c: int, x: Cell): nat
  {
    match m
    case Mass => Count(x)
    case Weighted => Times(Count(x), Weight(r, c))
    case OwnMass(p) => if Owns(x, p) then x.count else 0
  }

  /** The measure of the first n cells of row r. */
  function RowSum(row: seq<Cell>, r: int, m: Measure, n: nat): nat
    requires n <= |row|
  {
    if n == 0 then 0 else RowSum(row, r, m, n - 1) + Val(m, r, n - 1, row[n - 1])
  }

  /** The measure of the first n rows. */
  function RowsSum(b: Board, m: Measure, n: nat): nat
    requires IsGrid(b) && n <= 5
  {
    if n == 0 then 0 else RowsSum(b, m, n - 1) + RowSum(b[n - 1], n - 1, m, 5)
  }

  function Sum(b: Board, m: Measure): nat
    requires IsGrid(b)
  {
    RowsSum(b, m, 5)
  }

  lemma {:induction false} RowSumPut(row: seq<Cell>, r: int, m: Measure, c: nat, x: Cell, n: nat)
    requires c < |row| && n <= |row|
    ensures RowSum(row[c := x], r, m, n)
            == RowSum(row, r, m, n) + (if c < n then Val(m, r, c, x) - Val(m, r, c, row[c]) else 0)
  {
    if n > 0 {
      RowSumPut(row, r, m, c, x, n - 1);
    }
  }

  lemma {:induction false} RowsSumPut(b: Board, r: int, c: int, x: Cell, m: Measure, n: nat)
    requires IsGrid(b) && InBounds(r, c) && n <= 5
    ensures RowsSum(Put(b, r, c, x), m, n)
            == RowsSum(b, m, n) + (if r < n then Val(m, r, c, x) - Val(m, r, c, b[r][c]) else 0)
  {
    if n > 0 {
      RowsSumPut(b, r, c, x, m, n - 1);
      if n - 1 == r {
        RowSumPut(b[r], r, m, c, x, 5);
      } else {
        assert Put(b, r, c, x)[n - 1] == b[n - 1];
      }
    }
  }

  /** Changing one cell changes a sum by exactly that cell's difference. */
  lemma SumPut(b: Board, r: int, c: int, x: Cell, m: Measure)
    requires IsGrid(b) && InBounds(r, c)
    ensures Sum(Put(b, r, c, x), m) == Sum(b, m) - Val(m, r, c, b[r][c]) + Val(m, r, c, x)
  {
    RowsSumPut(b, r, c, x, m, 5);
  }

  lemma {:induction false} RowSumMono(row: seq<Cell>, row': seq<Cell>, r: int, m: Measure, n: nat)
    requires n <= |row| && n <= |row'|
    requires forall j :: 0 <= j < n ==> Val(m, r, j, row'[j]) <= Val(m, r, j, row[j])
    ensures RowSum(row', r, m, n) <= RowSum(row, r, m, n)
  {
    if n > 0 {
      RowSumMono(row, row', r, m, n - 1);
    }
  }

  lemma {:induction false} RowsSumMono(b: Board, b': Board, m: Measure, n: nat)
    requires IsGrid(b) && IsGrid(b') && n <= 5
    requires forall i, j :: InBounds(i, j) ==> Val(m, i, j, b'[i][j]) <= Val(m, i, j, b[i][j])
    ensures RowsSum(b', m, n) <= RowsSum(b, m, n)
  {
    if n > 0 {
      RowsSumMono(b, b', m, n - 1);
      RowSumMono(b[n - 1], b'[n - 1], n - 1, m, 5);
    }
  }

  /** A board that is cell by cell no heavier is no heavier in total. */
  lemma SumMono(b: Board, b': Board, m: Measure)
    requires IsGrid(b) && IsGrid(b')
    requires forall i, j :: InBounds(i, j) ==> Val(m, i, j, b'[i][j]) <= Val(m, i, j, b[i][j])
    ensures Sum(b', m) <= Sum(b, m)
  {
    RowsSumMono(b, b', m, 5);
  }

  // ---------------------------------------------------------------------
  // The cascade of pop_piece

  /** The neighbour offsets in the order pop_piece visits them:
      right (0, 1), left (0, -1), down (1, 0), up (-1, 0). */
  function DR(k: int): int
  {
    if k == 2 then 1 else if k == 3 then -1 else 0
  }

  function DC(k: int): int
  {
    if k == 0 then 1 else if k == 1 then -1 else 0
  }

  /** What one piece dropped on the neighbour of (r, c) in direction k adds
      to the termination measure; a piece dropped off the board adds nothing. */
  function Gain(r: int, c: int, k: int): nat
  {
    if InBounds(r + DR(k), c + DC(k)) then Weight(r + DR(k), c + DC(k)) else 0
  }

  /** The weight of the in-bounds neighbours of (r, c) in directions k..3:
      the most that finishing an explosion's neighbour loop can add to the
      termination measure. */
  function Pending(r: int, c: int, k: nat): nat
  {
    (if k <= 0 then Gain(r, c, 0) else 0) + (if k <= 1 then Gain(r, c, 1) else 0)
    + (if k <= 2 then Gain(r, c, 2) else 0) + (if k <= 3 then Gain(r, c, 3) else 0)
  }

  lemma PendingStep(r: int, c: int, k: nat)
    requires k < 4
    ensures Pending(r, c, k) == Gain(r, c, k) + Pending(r, c, k + 1)
  {
  }

  /** An explosion takes 4 pieces' weight off its cell and gives less back. */
  lemma ToppleDissipates(r: int, c: int)
    requires InBounds(r, c)
    ensures Pending(r, c, 0) < 4 * Weight(r, c)
  {
  }

  /** Emptying a cell at 3 and then dropping one piece on each of its
      neighbours leaves the termination measure lower than before the pop. */
  lemma ExplodeLowers(b: Board, p: Player, r: int, c: int)
    requires IsGrid(b) && InBounds(r, c) && b[r][c] == Owned(p, 3)
    ensures Sum(Put(b, r, c, Empty), Weighted) + Pending(r, c, 0) < Sum(b, Weighted) + Weight(r, c)
  {
    SumPut(b, r, c, Empty, Weighted);
    ToppleDissipates(r, c);
  }

  /** pop_piece(grid, p, r, c) on a cell p owns. At count 3 the cell empties
      and its neighbours are visited in order; otherwise its count grows by one.
      The `value == 4` re-pop of pop_piece in the else branch needs a
      count-3 cell not owned by p, which the precondition excludes. The contract is what
      the recursion needs to terminate: the weighted measure grows by at most
      the weight of the popped cell. */
  function Pop(b: Board, p: Player, r: int, c: int): (b': Board)
    requires IsGrid(b) && InBounds(r, c) && Owns(b[r][c], p)
    ensures IsGrid(b')
    ensures Sum(b', Weighted) <= Sum(b, Weighted) + Weight(r, c)
    decreases Sum(b, Weighted) + Weight(r, c), 0
  {
    if b[r][c] == Owned(p, 3) then
      ExplodeLowers(b, p, r, c);
      Spread(Put(b, r, c, Empty), p, r, c, 0)
    else
      SumPut(b, r, c, Owned(p, b[r][c].count + 1), Weighted);
      Put(b, r, c, Owned(p, b[r][c].count + 1))
  }

  /** The neighbour loop of an explosion at (r, c), from direction k on. */
  function Spread(b: Board, p: Player, r: int, c: int, k: nat): (b': Board)
    requires IsGrid(b) && InBounds(r, c) && k <= 4
    ensures IsGrid(b')
    ensures Sum(b', Weighted) <= Sum(b, Weighted) + Pending(r, c, k)
    decreases Sum(b, Weighted) + Pending(r, c, k), 5 - k
  {
    if k == 4 then b
    else
      var nr, nc := r + DR(k), c + DC(k);
      if InBounds(nr, nc) then Spread(Visit(b, p, nr, nc), p, r, c, k + 1)
      else Spread(b, p, r, c, k + 1)
  }

  /** One turn of the neighbour loop. */
  lemma SpreadStep(b: Board, p: Player, r: int, c: int, k: nat)
    requires IsGrid(b) && InBounds(r, c) && k < 4
    ensures InBounds(r + DR(k), c + DC(k)) ==>
              Spread(b, p, r, c, k) == Spread(Visit(b, p, r + DR(k), c + DC(k)), p, r, c, k + 1)
    ensures !InBounds(r + DR(k), c + DC(k)) ==> Spread(b, p, r, c, k) == Spread(b, p, r, c, k + 1)
  {
  }

  /** One neighbour of an explosion: an empty cell becomes p's with 1; p's own
      cell grows; an opponent's cell is captured with its count and then grows.
      A cell that would reach 4 explodes instead of being stored. */
  function Visit(b: Board, p: Player, r: int, c: int): (b': Board)
    requires IsGrid(b) && InBounds(r, c)
    ensures IsGrid(b')
    ensures Sum(b', Weighted) <= Sum(b, Weighted) + Weight(r, c)
    decreases Sum(b, Weighted) + Weight(r, c), 1
  {
    match b[r][c]
    case Empty =>
      SumPut(b, r, c, Owned(p, 1), Weighted);
      Put(b, r, c, Owned(p, 1))
    case Owned(q, n) =>
      if q == p then
        if n + 1 == 4 then Pop(b, p, r, c)
        else
          SumPut(b, r, c, Owned(p, n + 1), Weighted);
          Put(b, r, c, Owned(p, n + 1))
      else
        var captured := Put(b, r, c, Owned(p, n));
        SumPut(b, r, c, Owned(p, n), Weighted);
        if n + 1 == 4 then Pop(captured, p, r, c)
        else
          SumPut(captured, r, c, Owned(p, n + 1), Weighted);
          Put(captured, r, c, Owned(p, n + 1))
  }

  // ---------------------------------------------------------------------
  // Invariants of the cascade, each by induction along the recursion of
  // Pop, Spread and Visit

  /** A pop on a well-formed board never stores a count of 4: every cell is
      again empty or holds 1, 2 or 3. */
  lemma {:induction false} PopWellFormed(b: Board, p: Player, r: int, c: int)
    requires WellFormed(b) && InBounds(r, c) && Owns(b[r][c], p)
    ensures WellFormed(Pop(b, p, r, c))
    decreases Sum(b, Weighted) + Weight(r, c), 0
  {
    if b[r][c] == Owned(p, 3) {
      ExplodeLowers(b, p, r, c);
      SpreadWellFormed(Put(b, r, c, Empty), p, r, c, 0);
    }
  }

  lemma {:induction false} SpreadWellFormed(b: Board, p: Player, r: int, c: int, k: nat)
    requires WellFormed(b) && InBounds(r, c) && k <= 4
    ensures WellFormed(Spread(b, p, r, c, k))
    decreases Sum(b, Weighted) + Pending(r, c, k), 5 - k
  {
    if k < 4 {
      PendingStep(r, c, k);
      var nr, nc := r + DR(k), c + DC(k);
      if InBounds(nr, nc) {
        VisitWellFormed(b, p, nr, nc);
        SpreadWellFormed(Visit(b, p, nr, nc), p, r, c, k + 1);
      } else {
        SpreadWellFormed(b, p, r, c, k + 1);
      }
    }
  }

  lemma {:induction false} VisitWellFormed(b: Board, p: Player, r: int, c: int)
    requires WellFormed(b) && InBounds(r, c)
    ensures WellFormed(Visit(b, p, r, c))
    decreases Sum(b, Weighted) + Weight(r, c), 1
  {
    match b[r][c]
    case Empty =>
    case Owned(q, n) =>
      if q == p {
        if n + 1 == 4 {
          PopWellFormed(b, p, r, c);
        }
      } else {
        SumPut(b, r, c, Owned(p, n), Weighted);
        if n + 1 == 4 {
          PopWellFormed(Put(b, r, c, Owned(p, n)), p, r, c);
        }
      }
  }

  lemma ClaimsTrans(b: Board, b1: Board, b2: Board, p: Player)
    requires IsGrid(b) && IsGrid(b1) && IsGrid(b2)
    requires OnlyClaims(b, b1, p) && OnlyClaims(b1, b2, p)
    ensures OnlyClaims(b, b2, p)
  {
  }

  /** A pop takes territory from the opponent and never gives any: a cell
      that the pop changes ends up empty or the mover's. */
  lemma {:induction false} PopClaims(b: Board, p: Player, r: int, c: int)
    requires IsGrid(b) && InBounds(r, c) && Owns(b[r][c], p)
    ensures OnlyClaims(b, Pop(b, p, r, c), p)
    decreases Sum(b, Weighted) + Weight(r, c), 0
  {
    if b[r][c] == Owned(p, 3) {
      var cleared := Put(b, r, c, Empty);
      ExplodeLowers(b, p, r, c);
      SpreadClaims(cleared, p, r, c, 0);
      ClaimsTrans(b, cleared, Pop(b, p, r, c), p);
    }
  }

  lemma {:induction false} SpreadClaims(b: Board, p: Player, r: int, c: int, k: nat)
    requires IsGrid(b) && InBounds(r, c) && k <= 4
    ensures OnlyClaims(b, Spread(b, p, r, c, k), p)
    decreases Sum(b, Weighted) + Pending(r, c, k), 5 - k
  {
    if k < 4 {
      PendingStep(r, c, k);
      var nr, nc := r + DR(k), c + DC(k);
      if InBounds(nr, nc) {
        var b1 := Visit(b, p, nr, nc);
        assert Spread(b, p, r, c, k) == Spread(b1, p, r, c, k + 1);
        VisitClaims(b, p, nr, nc);
        SpreadClaims(b1, p, r, c, k + 1);
        ClaimsTrans(b, b1, Spread(b, p, r, c, k), p);
      } else {
        SpreadClaims(b, p, r, c, k + 1);
      }
    }
  }

  lemma {:induction false} VisitClaims(b: Board, p: Player, r: int, c: int)
    requires IsGrid(b) && InBounds(r, c)
    ensures OnlyClaims(b, Visit(b, p, r, c), p)
    decreases Sum(b, Weighted) + Weight(r, c), 1
  {
    match b[r][c]
    case Empty =>
    case Owned(q, n) =>
      if q == p {
        if n + 1 == 4 {
          PopClaims(b, p, r, c);
        }
      } else {
        var captured := Put(b, r, c, Owned(p, n));
        SumPut(b, r, c, Owned(p, n), Weighted);
        if n + 1 == 4 {
          PopClaims(captured, p, r, c);
          ClaimsTrans(b, captured, Visit(b, p, r, c), p);
        }
      }
  }

  /** The opponent's pieces on the board never grow in number under a pop. */
  lemma PopOpponentMass(b: Board, p: Player, r: int, c: int)
    requires IsGrid(b) && InBounds(r, c) && Owns(b[r][c], p)
    ensures Sum(Pop(b, p, r, c), OwnMass(Opponent(p))) <= Sum(b, OwnMass(Opponent(p)))
  {
    var b' := Pop(b, p, r, c);
    PopClaims(b, p, r, c);
    forall i, j | InBounds(i, j)
      ensures Val(OwnMass(Opponent(p)), i, j, b'[i][j]) <= Val(OwnMass(Opponent(p)), i, j, b[i][j])
    {
    }
    SumMono(b, b', OwnMass(Opponent(p)));
  }

  /** A pop adds at most one piece to the board: the popped cell gains one,
      an explosion moves its pieces onto its neighbours, and those that would
      fall off an edge or a corner are lost. */
  lemma {:induction false} PopMass(b: Board, p: Player, r: int, c: int)
    requires IsGrid(b) && InBounds(r, c) && Owns(b[r][c], p)
    ensures Sum(Pop(b, p, r, c), Mass) <= Sum(b, Mass) + 1
    decreases Sum(b, Weighted) + Weight(r, c), 0
  {
    if b[r][c] == Owned(p, 3) {
      ExplodeLowers(b, p, r, c);
      SumPut(b, r, c, Empty, Mass);
      SpreadMass(Put(b, r, c, Empty), p, r, c, 0);
    } else {
      SumPut(b, r, c, Owned(p, b[r][c].count + 1), Mass);
    }
  }

  lemma {:induction false} SpreadMass(b: Board, p: Player, r: int, c: int, k: nat)
    requires IsGrid(b) && InBounds(r, c) && k <= 4
    ensures Sum(Spread(b, p, r, c, k), Mass) <= Sum(b, Mass) + (4 - k)
    decreases Sum(b, Weighted) + Pending(r, c, k), 5 - k
  {
    if k < 4 {
      PendingStep(r, c, k);
      var nr, nc := r + DR(k), c + DC(k);
      if InBounds(nr, nc) {
        var b1 := Visit(b, p, nr, nc);
        assert Spread(b, p, r, c, k) == Spread(b1, p, r, c, k + 1);
        VisitMass(b, p, nr, nc);
        SpreadMass(b1, p, r, c, k + 1);
      } else {
        SpreadMass(b, p, r, c, k + 1);
      }
    }
  }

  lemma {:induction false} VisitMass(b: Board, p: Player, r: int, c: int)
    requires IsGrid(b) && InBounds(r, c)
    ensures Sum(Visit(b, p, r, c), Mass) <= Sum(b, Mass) + 1
    decreases Sum(b, Weighted) + Weight(r, c), 1
  {
    match b[r][c]
    case Empty =>
      SumPut(b, r, c, Owned(p, 1), Mass);
    case Owned(q, n) =>
      if q == p {
        if n + 1 == 4 {
          PopMass(b, p, r, c);
        } else {
          SumPut(b, r, c, Owned(p, n + 1), Mass);
        }
      } else {
        var captured := Put(b, r, c, Owned(p, n));
        SumPut(b, r, c, Owned(p, n), Weighted);
        SumPut(b, r, c, Owned(p, n), Mass);
        if n + 1 == 4 {
          PopMass(captured, p, r, c);
        } else {
          SumPut(captured, r, c, Owned(p, n + 1), Mass);
        }
      }
  }

  // ---------------------------------------------------------------------
  // Properties of the cascade

  /** (i, j) is the neighbour of (r, c) in one of the directions k..3. */
  predicate Reached(r: int, c: int, k: nat, i: int, j: int)
  {
    || (k <= 0 && i == r + DR(0) && j == c + DC(0))
    || (k <= 1 && i == r + DR(1) && j == c + DC(1))
    || (k <= 2 && i == r + DR(2) && j == c + DC(2))
    || (k <= 3 && i == r + DR(3) && j == c + DC(3))
  }

  predicate Adjacent(r: int, c: int, i: int, j: int)
  {
    Reached(r, c, 0, i, j)
  }

  function EmptyBoard(): (b: Board)
    ensures WellFormed(b)
    ensures forall r, c :: InBounds(r, c) ==> b[r][c] == Empty
  {
    seq(5, _ => seq(5, _ => Empty))
  }

  /** Popping one's own cell below 3 only grows that cell. */
  lemma PopGrow(b: Board, p: Player, r: int, c: int)
    requires IsGrid(b) && InBounds(r, c) && Owns(b[r][c], p) && b[r][c].count < 3
    ensures Pop(b, p, r, c)[r][c] == Owned(p, b[r][c].count + 1)
    ensures forall i, j :: InBounds(i, j) && (i != r || j != c) ==> Pop(b, p, r, c)[i][j] == b[i][j]
  {
  }

  /** Visiting a cell below 3 only grows that cell and makes it p's. */
  lemma VisitGrow(b: Board, p: Player, r: int, c: int)
    requires IsGrid(b) && InBounds(r, c) && Count(b[r][c]) <= 2
    ensures Visit(b, p, r, c)[r][c] == Owned(p, Count(b[r][c]) + 1)
    ensures forall i, j :: InBounds(i, j) && (i != r || j != c) ==> Visit(b, p, r, c)[i][j] == b[i][j]
  {
  }

  /** Directions k..3 are direction k followed by directions k+1..3, and the
      four neighbours are distinct. */
  lemma ReachedStep(r: int, c: int, k: nat, i: int, j: int)
    requires k < 4
    ensures Reached(r, c, k, i, j) <==> (i == r + DR(k) && j == c + DC(k)) || Reached(r, c, k + 1, i, j)
    ensures i == r + DR(k) && j == c + DC(k) ==> !Reached(r, c, k + 1, i, j)
  {
  }

  /** The neighbour loop when none of the neighbours still to visit is at 3:
      each of them gains one piece and becomes p's, nothing else changes. */
  lemma {:induction false} SpreadNoChain(b: Board, p: Player, r: int, c: int, k: nat)
    requires IsGrid(b) && InBounds(r, c) && k <= 4
    requires forall i, j :: InBounds(i, j) && Reached(r, c, k, i, j) ==> Count(b[i][j]) <= 2
    ensures forall i, j :: InBounds(i, j) ==>
              Spread(b, p, r, c, k)[i][j]
              == if Reached(r, c, k, i, j) then Owned(p, Count(b[i][j]) + 1) else b[i][j]
    decreases 4 - k
  {
    if k < 4 {
      var nr, nc := r + DR(k), c + DC(k);
      var b1 := if InBounds(nr, nc) then Visit(b, p, nr, nc) else b;
      assert Spread(b, p, r, c, k) == Spread(b1, p, r, c, k + 1);
      assert forall i, j :: InBounds(i, j) ==>
               b1[i][j] == if i == nr && j == nc then Owned(p, Count(b[i][j]) + 1) else b[i][j]
      by {
        if InBounds(nr, nc) {
          ReachedStep(r, c, k, nr, nc);
          VisitGrow(b, p, nr, nc);
        }
      }
      forall i, j | InBounds(i, j) && Reached(r, c, k + 1, i, j)
        ensures Count(b1[i][j]) <= 2
      {
        ReachedStep(r, c, k, i, j);
      }
      SpreadNoChain(b1, p, r, c, k + 1);
      GrowStep(b, b1, Spread(b1, p, r, c, k + 1), p, r, c, k);
    }
  }

  /** One step of SpreadNoChain: growing neighbour k and then neighbours
      k+1..3 is growing neighbours k..3. */
  lemma GrowStep(b: Board, b1: Board, s: Board, p: Player, r: int, c: int, k: nat)
    requires IsGrid(b) && IsGrid(b1) && IsGrid(s) && k < 4
    requires forall i, j :: InBounds(i, j) ==>
               b1[i][j] == if i == r + DR(k) && j == c + DC(k) then Owned(p, Count(b[i][j]) + 1) else b[i][j]
    requires forall i, j :: InBounds(i, j) ==>
               s[i][j] == if Reached(r, c, k + 1, i, j) then Owned(p, Count(b1[i][j]) + 1) else b1[i][j]
    ensures forall i, j :: InBounds(i, j) ==>
              s[i][j] == if Reached(r, c, k, i, j) then Owned(p, Count(b[i][j]) + 1) else b[i][j]
  {
    forall i, j | InBounds(i, j)
      ensures s[i][j] == if Reached(r, c, k, i, j) then Owned(p, Count(b[i][j]) + 1) else b[i][j]
    {
      ReachedStep(r, c, k, i, j);
    }
  }

  /** An explosion none of whose neighbours is at 3: the cell empties and each
      in-bounds neighbour gains one piece and becomes p's (an empty one p's 1,
      an opponent's captured with its count plus one); a corner touches two
      cells, an edge three, an interior cell four. Nothing else changes. */
  lemma PopNoChain(b: Board, p: Player, r: int, c: int)
    requires IsGrid(b) && InBounds(r, c) && b[r][c] == Owned(p, 3)
    requires forall i, j :: InBounds(i, j) && Adjacent(r, c, i, j) ==> Count(b[i][j]) <= 2
    ensures forall i, j :: InBounds(i, j) ==>
              Pop(b, p, r, c)[i][j]
              == if i == r && j == c then Empty
                 else if Adjacent(r, c, i, j) then Owned(p, Count(b[i][j]) + 1)
                 else b[i][j]
  {
    SpreadNoChain(Put(b, r, c, Empty), p, r, c, 0);
  }

  /** A neighbour that the opponent holds is captured and grows; at 3 it is
      captured and explodes for p in turn. */
  lemma Capture(b: Board, p: Player, r: int, c: int)
    requires IsGrid(b) && InBounds(r, c) && Owns(b[r][c], Opponent(p))
    ensures b[r][c].count < 3 ==>
              && Visit(b, p, r, c)[r][c] == Owned(p, b[r][c].count + 1)
              && forall i, j :: InBounds(i, j) && (i != r || j != c) ==> Visit(b, p, r, c)[i][j] == b[i][j]
    ensures b[r][c].count == 3 ==> Visit(b, p, r, c) == Pop(Put(b, r, c, Owned(p, 3)), p, r, c)
  {
  }

  /** Visiting an empty in-bounds neighbour in the loop puts a 1 of p's there. */
  lemma SpreadIntoEmpty(b: Board, p: Player, r: int, c: int, k: nat)
    requires IsGrid(b) && InBounds(r, c) && k < 4
    requires InBounds(r + DR(k), c + DC(k)) && b[r + DR(k)][c + DC(k)] == Empty
    ensures Spread(b, p, r, c, k) == Spread(Put(b, r + DR(k), c + DC(k), Owned(p, 1)), p, r, c, k + 1)
  {
  }

  /** A chain reaction: Blue 3s at (2, 2) and (1, 2) on an otherwise empty
      board. Popping (2, 2) feeds (1, 2) last ("up"), which explodes in turn
      and, visiting "down", refills the just-emptied (2, 2) with a Blue 1. */
  lemma ChainReaction()
    ensures var b := Put(Put(EmptyBoard(), 2, 2, Owned(Blue, 3)), 1, 2, Owned(Blue, 3));
            forall i, j :: InBounds(i, j) ==>
              Pop(b, Blue, 2, 2)[i][j]
              == if i == 1 && j == 2 then Empty
                 else if (i, j) in {(2, 2), (2, 3), (2, 1), (3, 2), (1, 3), (1, 1), (0, 2)} then Owned(Blue, 1)
                 else Empty
  {
    var b := Put(Put(EmptyBoard(), 2, 2, Owned(Blue, 3)), 1, 2, Owned(Blue, 3));
    var b4 := FirstBurst(b);
    var c5 := SecondBurst(b4);
    assert Pop(b, Blue, 2, 2) == c5 by {
      assert Pop(b, Blue, 2, 2) == Spread(b4, Blue, 2, 2, 3);
      assert b4[1][2] == Owned(Blue, 3);
      assert Spread(b4, Blue, 2, 2, 3) == Spread(Pop(b4, Blue, 1, 2), Blue, 2, 2, 4);
    }
  }

  /** The first three neighbours of the explosion at (2, 2) in ChainReaction. */
  lemma FirstBurst(b: Board) returns (b4: Board)
    requires b == Put(Put(EmptyBoard(), 2, 2, Owned(Blue, 3)), 1, 2, Owned(Blue, 3))
    ensures IsGrid(b4)
    ensures Pop(b, Blue, 2, 2) == Spread(b4, Blue, 2, 2, 3)
    ensures forall i, j :: InBounds(i, j) ==>
              b4[i][j] == if i == 1 && j == 2 then Owned(Blue, 3)
                          else if (i, j) in {(2, 3), (2, 1), (3, 2)} then Owned(Blue, 1)
                          else Empty
  {
    var b1 := Put(b, 2, 2, Empty);
    var b2 := Put(b1, 2, 3, Owned(Blue, 1));
    var b3 := Put(b2, 2, 1, Owned(Blue, 1));
    b4 := Put(b3, 3, 2, Owned(Blue, 1));
    SpreadIntoEmpty(b1, Blue, 2, 2, 0);
    SpreadIntoEmpty(b2, Blue, 2, 2, 1);
    SpreadIntoEmpty(b3, Blue, 2, 2, 2);
  }

  /** The explosion at (1, 2) that FirstBurst's board sets off. */
  lemma SecondBurst(b4: Board) returns (c5: Board)
    requires IsGrid(b4)
    requires forall i, j :: InBounds(i, j) ==>
               b4[i][j] == if i == 1 && j == 2 then Owned(Blue, 3)
                           else if (i, j) in {(2, 3), (2, 1), (3, 2)} then Owned(Blue, 1)
                           else Empty
    ensures Pop(b4, Blue, 1, 2) == c5
    ensures forall i, j :: InBounds(i, j) ==>
              c5[i][j] == if i == 1 && j == 2 then Empty
                          else if (i, j) in {(2, 2), (2, 3), (2, 1), (3, 2), (1, 3), (1, 1), (0, 2)} then Owned(Blue, 1)
                          else Empty
  {
    var c1 := Put(b4, 1, 2, Empty);
    var c2 := Put(c1, 1, 3, Owned(Blue, 1));
    var c3 := Put(c2, 1, 1, Owned(Blue, 1));
    var c4 := Put(c3, 2, 2, Owned(Blue, 1));
    c5 := Put(c4, 0, 2, Owned(Blue, 1));
    SpreadIntoEmpty(c1, Blue, 1, 2, 0);
    SpreadIntoEmpty(c2, Blue, 1, 2, 1);
    SpreadIntoEmpty(c3, Blue, 1, 2, 2);
    SpreadIntoEmpty(c4, Blue, 1, 2, 3);
  }
}
