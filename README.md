# Color Wars rules engine in Dafny

Color Wars is a two-player chain-reaction game on a 5x5 grid. A cell is empty
or belongs to Blue or Red with a count of 1 to 3. On their turn a player
pops one of their own cells:

- A count below 3 grows by one.
- A count of 3 explodes. The cell empties and its neighbours are visited in
  the order right, left, down, up.
  - An empty neighbour becomes the player's 1.
  - The player's own neighbour grows.
  - An opponent's neighbour is captured with its count and then grows.
  - A neighbour that would reach 4 explodes in turn before the loop goes on.

This project models the two places where the repository implements the rules.

- `game.py`: the grid functions and the greedy move chooser, in module `Game`.
- `game_env.py`: the `GameEnv` class of the learning environment, in module
  `Environment`, as a Dafny class.
  - Its fields are `grid` (an `array2<Cell>`) and `movesMade`.
  - `Reset` and `Step` overwrite them.
  - The environment has its own copy of the cascade.

Both copies of the cascade run in place on an `array2` and recurse through
their neighbour loop. Each one is proved equal to one function,
`Rules.Pop`, a function on boards given as `seq<seq<Cell>>`. The properties of
a move are proved about `Rules.Pop`:

- the board stays well-formed;
- the opponent never gains a cell;
- the piece count grows by at most one;
- a move with no chain reaction only touches the popped cell and its
  neighbours.

Module `Grids` connects an `array2` to the board it holds (`Snap`).

game.py and game_env.py store a cell as a two-character string: the owner letter
followed by a count digit, or two spaces for an empty cell. Here a cell is
the datatype `Cell = Empty | Owned(owner, count)`:

- `Owned(Blue, 3)` is `"b3"`.
- The test `cell[0] == player` is `Owns(cell, player)`.
- `int(cell[1])` and `int(cell[-1])` are `cell.count`.

The Python recursion has no bound. The model proves that it terminates. Each
cell is weighted by `G(row) + G(col)`, with `G = [3, 6, 7, 6, 3]`. An
explosion takes four pieces off its cell and drops at most four on
neighbours, so the weighted sum of counts strictly drops
(`Rules.ExplodeLowers`). That sum is the `decreases` measure of the
functions, the methods and the inductive lemmas.

Facts about the code that the model keeps:

- `get_best_move` is a one-ply greedy choice with no search depth and no
  term for the opponent (game.py:82-105): the first legal move whose
  resulting own-count sum is greatest.
- Neighbours are visited right, left, down, up (game.py:40).
- A cascade can revisit a cell it has emptied. Take blue 3s at (2, 2) and
  (1, 2) on an otherwise empty board, and pop (2, 2). The second explosion,
  at (1, 2), visits (2, 2) again, so (2, 2) ends as a blue 1.
  `Rules.ChainReaction` proves the whole board that results.
- `GameEnv`'s game-over test is that no cell is empty (game_env.py:93). This
  differs from the win test of `play_game`, which asks whether the opponent
  has any pieces left (game.py:143).

## Model

| member | source | states |
|---|---|---|
| Rules.Pop | game.py:37-63 | pop_piece as a function on boards. A cell at 3 empties and its neighbours are visited; a lower count grows by one. The weighted count sum grows by at most the popped cell's weight, so the recursion ends |
| Rules.Spread | game.py:40-57 | the neighbour loop from direction k on; the weighted sum grows by at most the weight of the neighbours still to visit |
| Rules.Visit | game.py:43-57 | one neighbour: empty becomes the player's 1, own grows, the opponent's is captured and grows, 4 explodes; the weighted sum grows by at most that cell's weight |
| Rules.ToppleDissipates | game.py:40-42 | the neighbours of a cell weigh less than four times the cell, which makes the cascade terminate |
| Rules.ExplodeLowers | game.py:38-44 | emptying a 3 and dropping one piece on every neighbour lowers the weighted sum |
| Rules.PopWellFormed | game.py:45-63 | on a board of empty cells and counts 1..3, a pop leaves only empty cells and counts 1..3: a 4 is never stored |
| Rules.SpreadWellFormed | game.py:40-57 | the neighbour loop keeps every count in 1..3 |
| Rules.VisitWellFormed | game.py:43-57 | visiting a neighbour keeps every count in 1..3 |
| Rules.PopClaims | game.py:38-63 | every cell a pop changes ends up empty or the mover's: the opponent never gains a cell or a changed count |
| Rules.SpreadClaims | game.py:40-57 | the same for the neighbour loop |
| Rules.VisitClaims | game.py:43-57 | the same for one neighbour, capture included |
| Rules.PopOpponentMass | game.py:38-63 | the opponent's total count never grows under a pop |
| Rules.PopMass | game.py:37-63 | the total count on the board grows by at most one per pop; pieces pushed off an edge are lost |
| Rules.SpreadMass | game.py:40-57 | the neighbour loop from direction k adds at most 4 - k pieces |
| Rules.VisitMass | game.py:43-57 | visiting a neighbour adds at most one piece |
| Rules.PopGrow | game.py:58-63 | popping one's own cell at 1 or 2 gives that cell count + 1, still the mover's, and changes no other cell |
| Rules.VisitGrow | game.py:43-57 | visiting a cell at 0..2 makes it the mover's with count + 1 and changes no other cell |
| Rules.SpreadNoChain | game.py:40-57 | when no neighbour still to visit is at 3, each in-bounds one becomes the mover's with count + 1 and nothing else changes |
| Rules.PopNoChain | game.py:38-57 | an explosion with no neighbour at 3: the cell empties, each in-bounds neighbour becomes the mover's with count + 1, nothing else changes |
| Rules.Capture | game.py:51-57 | an opponent's neighbour below 3 becomes the mover's with count + 1; at 3 it is taken over and explodes for the mover |
| Rules.SpreadIntoEmpty | game.py:43-44 | an empty in-bounds neighbour receives the mover's 1 and the loop goes on |
| Rules.ChainReaction | game.py:37-63 | blue 3s at (2, 2) and (1, 2), pop (2, 2): the board ends with (1, 2) empty and blue 1s at (2, 2), (2, 3), (2, 1), (3, 2), (1, 3), (1, 1), (0, 2) |
| Game.InitializeGrid | game.py:4-5 | a fresh 5x5 grid of empty cells |
| Game.PlacePiece | game.py:34-35 | the grid afterwards is the old one with the player's 3 at (row, col) |
| Game.PopPiece | game.py:37-63 | the in-place, recursive pop_piece leaves exactly the board Rules.Pop gives for the old grid |
| Game.Explode | game.py:38-57 | the explosion branch: emptying the cell and then four loop turns also give Rules.Pop |
| Game.VisitNeighbour | game.py:40-42 | a loop turn visits the neighbour in direction k when it is on the grid and leaves the grid alone otherwise |
| Game.VisitCell | game.py:43-57 | the in-place handling of one neighbour gives Rules.Visit of the old grid |
| Game.HasPieces | game.py:65-70 | true exactly when some cell belongs to the player |
| Game.CheckAllMoves | game.py:72-80 | the list holds exactly the player's cells, in strictly increasing row-major order, so each cell appears once |
| Game.Clone | game.py:91 | the copy is a new array holding the same board |
| Game.CountOwn | game.py:93-97 | the score is the sum of the player's counts on the board |
| Game.ScoreMove | game.py:90-97 | scoring a move pops it on a copy and counts the mover's pieces; this is Score of the move on the unchanged grid |
| Game.PickBest | game.py:87-103 | the picked move has the greatest score of the list and a strictly greater one than every move before it (strict `>` from max 0) |
| Game.BestOfAll | game.py:82-105 | for the row-major list of all legal moves, the loop's pick is best over every legal move and strictly better than every legal move earlier on the board |
| Game.GetBestMove | game.py:82-105 | given at least one legal move, returns a legal move whose own-count score after the pop is at least that of every legal move, the earliest in row-major order among ties; the grid is not modified |
| Environment.ToMove | game_env.py:23 | Blue moves when the move count is even, Red when it is odd |
| Environment.Decode | game_env.py:22 | divmod(action, 5) of an action in 0..24 is a cell on the grid with 5 * row + col == action |
| Environment.GameEnv.constructor | game_env.py:7-9 | a new 5x5 grid in the reset state |
| Environment.GameEnv.Reset | game_env.py:11-17 | every cell empty except Blue's 3 at (1, 1) and Red's 3 at (3, 3); no moves made |
| Environment.GameEnv.Step | game_env.py:20-39 | on the mover's own cell: the board becomes Rules.Pop of the old one, one more move, reward 1. On any other cell, empty included: board and move count unchanged, reward -1. done holds exactly when no cell is empty, and then the reward is 10. The board stays well-formed |
| Environment.GameEnv.ValidateAction | game_env.py:46-48 | true exactly when the cell belongs to the player |
| Environment.GameEnv.PopPiece | game_env.py:50-77 | _pop_piece on self.grid gives Rules.Pop of the old grid, the same as game.py's pop_piece |
| Environment.GameEnv.Explode | game_env.py:52-71 | the explosion branch gives Rules.Pop |
| Environment.GameEnv.VisitNeighbour | game_env.py:54-56 | a loop turn visits the in-bounds neighbour in direction k, else changes nothing |
| Environment.GameEnv.VisitCell | game_env.py:57-71 | one neighbour handled in place gives Rules.Visit |
| Environment.GameEnv.PopPieceAgrees | game_env.py:50-77 | _pop_piece on the grid gives Rules.Pop of the old grid, and game.py's pop_piece run on a copy of the old grid leaves the same board |
| Environment.GameEnv.CheckGameOver | game_env.py:91-93 | true exactly when no cell is empty |

## Left out

- display_grid, validate_input and play_game (game.py:7-32, 107-151): terminal input and output and colouring; this includes the win test of play_game.
- The print(move_dict) of get_best_move and the dictionary it prints: output only, never read.
- GameEnv._get_state and render: a conversion to a numpy/torch float tensor, and printing. Reset and Step return no state tensor, and Step does not return the empty info dictionary.
- agent.py and train.py: a neural network, random sampling and floating-point training are not part of this model.
- The string encoding of cells is replaced by the Cell datatype. Counts are unbounded naturals. The game only ever stores 1..3 (Rules.PopWellFormed), so a count never needs a second digit.
- Popping a cell the mover does not own. pop_piece (game.py:58-63) and _pop_piece (game_env.py:72-77) then take the else branch. On an empty cell they raise ValueError at int(' '). On an opponent's 1 or 2 they rewrite the cell as the mover's count + 1, taking it without an explosion. On an opponent's 3 the else branch calls itself with the same arguments until Python raises RecursionError. Rules.Pop, Game.PopPiece and GameEnv.PopPiece require the target to be the mover's, so none of these paths is modelled. Every caller in the code pops only the mover's own cells: play_game checks ownership first (game.py:136-141), get_best_move pops only cells from check_all_moves, and step validates first (game_env.py:28-29).
- Environment.GameEnv.Step: requires 0 <= action < 25. For an action outside that range, numpy would wrap a negative row index or raise on a row beyond 4; neither is modelled.
- Game.GetBestMove: requires the player to own a cell, because moves[0] raises on an empty list (game.py:88).
- The numpy whole-grid operations of reset (grid[:, :] = '  ') and _check_game_over (grid == '  ', np.any) are modelled as loops over the 25 cells.
