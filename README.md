# Tic-Tac-Toe board engine in Dafny

This project models the rules engine of a 3x3 Tic-Tac-Toe library
(`src/tictactoe_cz2842/tictactoe.py`) and proves what it promises. The engine
has four operations:

- `initialize_board` builds a board of three rows of three empty cells.
- `make_move` writes a player's symbol into a cell in place, but only when that
  cell is empty, and reports whether it did.
- `check_winner` scans the eight lines and classifies the board. The lines are
  visited as the three rows, then the three columns, then the main diagonal,
  then the anti-diagonal. Within each line "all X" is tested before "all O".
  The result is the player of the first complete line, or `'Draw'` on a full
  board with no complete line, or `None` while the game is in progress.
- `reset_game` returns a new empty board.

Module `TicTacToe` (`tictactoe.dfy`) holds the engine:

- The board the source mutates in place is an `array2<Cell>` of size 3x3.
  `Cells(board)` reads it as the source's list of rows (`Grid`, a
  `seq<seq<Cell>>` of 3 rows of 3 cells).
- `Cell` is `Empty | X | O`, standing for the strings `' '`, `'X'` and `'O'`.
  `Player` is the subset of `Cell` without `Empty`.
- `Outcome` is `Win(p) | Draw | InProgress`. `InProgress` stands for the
  source's `None`.
- `MakeMove` and `CheckWinner` are methods over the array. `CheckWinner`
  keeps the source's early-return loop over the lines. `Place`, `Lines`,
  `FirstWinner` and `Evaluate` are the value-level functions that specify
  them. The lemmas are stated about those functions.
- `Play` replays a sequence of moves. It is used to state what holds across
  many `make_move` calls.

Module `GameScenarios` (`scenarios.dfy`) plays concrete games through the
engine. The integration game of `tests/test_tictactoe.py:56-89` and the refused
overwrite of `tests/test_tictactoe.py:139-146` appear as client methods
(`GameIntegration`, `OverwriteRefused`). Their contracts are proved from the
engine's contracts alone. `MakeMoves` shows that consecutive `MakeMove` calls on
one board produce the board `Play` describes, so the lemmas about `Play` apply
to the in-place board. The example boards for each kind of line and for a
draw appear as lemmas.

A possible reading of the engine is that X takes precedence over O when both
players hold a complete line, and that such a board cannot arise from valid
moves. The code does not support either claim, and the model follows the code.
The engine enforces no turn order, so accepted moves can complete a line for
both players. The outcome is then the player of the line scanned first.
`BothCompleteFirstLineDecides` exhibits such a game, in which O wins even
though X also holds a row.

## Model

| member | source | states |
|---|---|---|
| TicTacToe.InitialGrid | src/tictactoe_cz2842/tictactoe.py:16 | the initial board has 3 rows of 3 cells, and every cell is empty |
| TicTacToe.InitializeBoard | src/tictactoe_cz2842/tictactoe.py:1-16 | returns a new 3x3 board whose every cell is empty; its contents equal `InitialGrid()` |
| TicTacToe.ResetGame | src/tictactoe_cz2842/tictactoe.py:106-121 | returns a new board, all empty, structurally equal to what `initialize_board` builds |
| TicTacToe.Place | src/tictactoe_cz2842/tictactoe.py:52-55 | after a move, the target cell holds the player exactly when it was empty; every other cell keeps its value, and an occupied target is never overwritten |
| TicTacToe.MakeMove | src/tictactoe_cz2842/tictactoe.py:19-55 | returns true exactly when the target cell was empty; the target then holds the player, and otherwise keeps its old value; no other cell changes; the new board is `Place` of the old one |
| TicTacToe.PlayKeepsOccupied | src/tictactoe_cz2842/tictactoe.py:52-55 | an occupied cell keeps its symbol across any sequence of moves |
| TicTacToe.PlayOnOccupiedIsNoOp | src/tictactoe_cz2842/tictactoe.py:52-55 | any number of moves that all target occupied cells leave the board exactly as it was |
| TicTacToe.Lines | src/tictactoe_cz2842/tictactoe.py:89-91 | there are 8 lines of 3 cells each; line i, cell k, is the board cell at `LineCell(i, k)`: rows 0-2, then columns 0-2, then `(k,k)`, then `(k,2-k)` |
| TicTacToe.CheckWinner | src/tictactoe_cz2842/tictactoe.py:88-103 | the early-return scan over the lines, then the full-board test, returns exactly `Evaluate` of the board; it does not modify the board |
| TicTacToe.FirstWinnerIsFirstCompleteLine | src/tictactoe_cz2842/tictactoe.py:93-97 | the scan reports player p exactly when some line is all p and every line before it is neither all X nor all O |
| TicTacToe.FirstWinnerNone | src/tictactoe_cz2842/tictactoe.py:93-97 | the scan reports nobody exactly when no line is complete |
| TicTacToe.Evaluate | src/tictactoe_cz2842/tictactoe.py:93-103 | a win is reported only for a player who holds a complete line; otherwise no line is complete, and the result is Draw exactly when the board is also full |
| TicTacToe.EvaluateCharacterised | src/tictactoe_cz2842/tictactoe.py:89-103 | Win(p) exactly when the first complete line in scan order is all p; Draw exactly when no line is complete and no cell is empty; InProgress exactly when no line is complete and some cell is empty |
| TicTacToe.SoleCompleterWins | src/tictactoe_cz2842/tictactoe.py:93-97 | a player holding some complete line wins when the other player holds none, wherever that line lies in the scan |
| TicTacToe.InitialInProgress | src/tictactoe_cz2842/tictactoe.py:84-86 | a freshly initialised board is in progress |
| GameScenarios.TopRowWins | src/tictactoe_cz2842/tictactoe.py:74-82 | a top row held by p wins for p whatever else is on the board, since the top row is scanned first |
| GameScenarios.ColumnWins | src/tictactoe_cz2842/tictactoe.py:89-97 | a board whose left column is all O is a win for O |
| GameScenarios.DiagonalWins | src/tictactoe_cz2842/tictactoe.py:90 | a board whose main diagonal is all X is a win for X |
| GameScenarios.AntiDiagonalWins | src/tictactoe_cz2842/tictactoe.py:91 | a board whose anti-diagonal is all O is a win for O |
| GameScenarios.FullBoardDraws | src/tictactoe_cz2842/tictactoe.py:100-101 | the full board `XOX/XOO/OXX`, with no complete line, is a draw |
| GameScenarios.BothCompleteFirstLineDecides | src/tictactoe_cz2842/tictactoe.py:93-97 | six accepted moves from an empty board give O the top row and X the middle row; the outcome is Win(O), the line scanned first |
| GameScenarios.MakeMoves | src/tictactoe_cz2842/tictactoe.py:52-55 | applying a sequence of moves to the board one `make_move` at a time leaves it equal to `Play` of its old contents and those moves |
| GameScenarios.GameIntegration | tests/test_tictactoe.py:56-89 | the five moves X(0,0), O(1,1), X(0,1), O(2,2), X(0,2) on a new board are all accepted; the outcome is then Win(X); after a reset the board is all empty and the outcome is InProgress |
| GameScenarios.OverwriteRefused | tests/test_tictactoe.py:139-146 | on a new board X at (0,0) is accepted, O at (0,0) is then refused, and the cell still holds X |

## Left out

- Out-of-range indices in `make_move`: `MakeMove` and `Place` require `0 <= row < 3` and `0 <= col < 3`. In the source, an index of 3 or more, or of -4 or less, raises an index error. An index from -3 to -1 selects row or column 3 + index, so the move lands on a real cell: `make_move(board, -1, -1, 'X')` writes cell (2,2). The model does not cover negative indices.
- Arbitrary `player` values: the source stores whatever symbol it is given. The model admits only `X` and `O` (`Player`).
- Row aliasing: the source's board is a list of row lists, which a caller could build with shared rows. The array model has nine independent cells. `initialize_board` always builds distinct rows.
- Boards of other shapes passed by a caller: every operation requires a 3x3 board. `make_move` itself asks only that the indices exist. `check_winner` depends on the size, through its diagonals built with a fixed `range(3)` (`src/tictactoe_cz2842/tictactoe.py:90-91`).
- Package plumbing in `src/tictactoe_cz2842/__init__.py` (the version lookup and re-exports): it has no logic.
- Turn order, input parsing and display: the source does not have them, and callers handle them.
