/** The Tic-Tac-Toe rules engine: a 3x3 board that is created empty, filled one
    cell at a time behind an occupancy guard, and classified as won, drawn or
    still in progress. */
module TicTacToe {

  /** A cell of the board: the source's ' ', 'X' and 'O'. */
  datatype Cell = Empty | X | O

  /** The symbol a move places; a cell that is not Empty. */
  type Player = c: Cell | c != Empty witness X

  datatype Option<+T> = None | Some(value: T)

  /** What check_winner reports: a winning player, 'Draw', or None (in progress). */
  datatype Outcome = Win(winner: Player) | Draw | InProgress

  /** The board as the source's list of 3 rows of 3 cells. */
  predicate IsGrid(g: seq<seq<Cell>>) {
    |g| == 3 && forall r :: 0 <= r < 3 ==> |g[r]| == 3
  }

  type Grid = g: seq<seq<Cell>> | IsGrid(g)
    witness [[Empty, Empty, Empty], [Empty, Empty, Empty], [Empty, Empty, Empty]]

  predicate InRange(row: int, col: int) {
    0 <= row < 3 && 0 <= col < 3
  }

  /** The in-place board: a 3x3 array. */
  predicate IsBoard(board: array2<Cell>) {
    board.Length0 == 3 && board.Length1 == 3
  }

  /** The contents of an in-place board, read row by row. */
  function Cells(board: array2<Cell>): (g: Grid)
    requires IsBoard(board)
    reads board
    ensures forall r, c :: InRange(r, c) ==> g[r][c] == board[r, c]
  {
    [[board[0, 0], board[0, 1], board[0, 2]],
     [board[1, 0], board[1, 1], board[1, 2]],
     [board[2, 0], board[2, 1], board[2, 2]]]
  }

  /** Two boards are equal when they agree cell by cell. */
  lemma GridsEqual(g: Grid, h: Grid)
    requires forall r, c :: InRange(r, c) ==> g[r][c] == h[r][c]
    ensures g == h
  {
    forall r | 0 <= r < 3 ensures g[r] == h[r] {
      assert forall c :: 0 <= c < 3 ==> g[r][c] == h[r][c];
    }
  }

  // ---------------------------------------------------------------------------
  // initialize_board and reset_game

  /** The board initialize_board builds: three rows of three empty cells. */
  function InitialGrid(): (g: Grid)
    ensures forall r, c :: InRange(r, c) ==> g[r][c] == Empty
  {
    seq(3, _ => seq(3, _ => Empty))
  }

  method InitializeBoard() returns (board: array2<Cell>)
    ensures fresh(board) && IsBoard(board)
    ensures forall r, c :: InRange(r, c) ==> board[r, c] == Empty
    ensures Cells(board) == InitialGrid()
  {
    board := new Cell[3, 3]((_, _) => Empty);
    GridsEqual(Cells(board), InitialGrid());
  }

  /** reset_game hands back a new empty board, equal to what initialize_board builds. */
  method ResetGame() returns (board: array2<Cell>)
    ensures fresh(board) && IsBoard(board)
    ensures forall r, c :: InRange(r, c) ==> board[r, c] == Empty
    ensures Cells(board) == InitialGrid()
  {
    board := InitializeBoard();
  }

  // ---------------------------------------------------------------------------
  // make_move

  /** The board after a move at (row, col): the player's symbol lands there when
      that cell is empty, and otherwise nothing changes. */
  function Place(g: Grid, row: int, col: int, p: Player): (h: Grid)
    requires InRange(row, col)
    ensures forall r, c :: InRange(r, c) ==>
      h[r][c] == (if r == row && c == col && g[row][col] == Empty then p else g[r][c])
  {
    if g[row][col] == Empty then g[row := g[row][col := p]] else g
  }

  /** make_move: writes the player's symbol into an empty cell and reports
      whether it did; an occupied cell is left as it is. */
  method MakeMove(board: array2<Cell>, row: int, col: int, player: Player) returns (ok: bool)
    requires IsBoard(board) && InRange(row, col)
    modifies board
    ensures ok <==> old(board[row, col]) == Empty
    ensures board[row, col] == if ok then player else old(board[row, col])
    ensures forall r, c :: InRange(r, c) && (r != row || c != col) ==> board[r, c] == old(board[r, c])
    ensures Cells(board) == Place(old(Cells(board)), row, col, player)
  {
    if board[row, col] == Empty {
      board[row, col] := player;
      GridsEqual(Cells(board), Place(old(Cells(board)), row, col, player));
      return true;
    }
    return false;
  }

  /** One call of make_move, as a value. */
  datatype Move = Move(row: int, col: int, player: Player)

  predicate ValidMoves(moves: seq<Move>) {
    forall k :: 0 <= k < |moves| ==> InRange(moves[k].row, moves[k].col)
  }

  /** The board after a caller's sequence of make_move calls, accepted or not. */
  function Play(g: Grid, moves: seq<Move>): Grid
    requires ValidMoves(moves)
    decreases |moves|
  {
    if moves == [] then g
    else Play(Place(g, moves[0].row, moves[0].col, moves[0].player), moves[1..])
  }

  /** A cell once occupied keeps its symbol across any sequence of moves. */
  lemma {:induction false} PlayKeepsOccupied(g: Grid, moves: seq<Move>, r: int, c: int)
    requires ValidMoves(moves) && InRange(r, c) && g[r][c] != Empty
    ensures Play(g, moves)[r][c] == g[r][c]
    decreases |moves|
  {
    if moves != [] {
      var m := moves[0];
      PlayKeepsOccupied(Place(g, m.row, m.col, m.player), moves[1..], r, c);
    }
  }

  /** Moves that all target occupied cells, however many, leave the board as it was. */
  lemma {:induction false} PlayOnOccupiedIsNoOp(g: Grid, moves: seq<Move>)
    requires ValidMoves(moves)
    requires forall k :: 0 <= k < |moves| ==> g[moves[k].row][moves[k].col] != Empty
    ensures Play(g, moves) == g
    decreases |moves|
  {
    if moves != [] {
      var m := moves[0];
      assert Place(g, m.row, m.col, m.player) == g;
      PlayOnOccupiedIsNoOp(g, moves[1..]);
    }
  }

  // ---------------------------------------------------------------------------
  // check_winner

  /** Where the k-th cell of the i-th scanned line lies: rows 0..2, then columns
      0..2, then the main diagonal, then the anti-diagonal. */
  function LineCell(i: int, k: int): (rc: (int, int))
    requires 0 <= i < 8 && 0 <= k < 3
    ensures InRange(rc.0, rc.1)
  {
    if i < 3 then (i, k)
    else if i < 6 then (k, i - 3)
    else if i == 6 then (k, k)
    else (k, 2 - k)
  }

  /** The eight lines in the order check_winner visits them: the rows, the
      columns (the transpose), the main diagonal and the anti-diagonal. */
  function Lines(g: Grid): (ls: seq<seq<Cell>>)
    ensures |ls| == 8
    ensures forall i :: 0 <= i < 8 ==> |ls[i]| == 3
    ensures forall i, k :: 0 <= i < 8 && 0 <= k < 3 ==> ls[i][k] == g[LineCell(i, k).0][LineCell(i, k).1]
  {
    var columns := seq(3, c requires 0 <= c < 3 => [g[0][c], g[1][c], g[2][c]]);
    [g[0], g[1], g[2]] + columns
      + [[g[0][0], g[1][1], g[2][2]]]
      + [[g[0][2], g[1][1], g[2][0]]]
  }

  predicate AllAre(line: seq<Cell>, c: Cell) {
    forall k :: 0 <= k < |line| ==> line[k] == c
  }

  predicate Complete(line: seq<Cell>) {
    AllAre(line, X) || AllAre(line, O)
  }

  /** No cell is empty. */
  predicate IsFull(g: Grid) {
    forall r, c :: 0 <= r < 3 && 0 <= c < 3 ==> g[r][c] != Empty
  }

  /** The scan from line i on: the player of the first complete line, testing
      all-X before all-O within each line. */
  function FirstWinner(ls: seq<seq<Cell>>, i: nat): Option<Player>
    requires i <= |ls|
    decreases |ls| - i
  {
    if i == |ls| then None
    else if AllAre(ls[i], X) then Some(X)
    else if AllAre(ls[i], O) then Some(O)
    else FirstWinner(ls, i + 1)
  }

  /** The classification check_winner computes: a win only for a player who
      holds a complete line, otherwise no line is complete, and the board is
      drawn exactly when it is also full. */
  function Evaluate(g: Grid): (r: Outcome)
    ensures r.Win? ==> exists i :: 0 <= i < 8 && AllAre(Lines(g)[i], r.winner)
    ensures !r.Win? ==> forall i :: 0 <= i < 8 ==> !Complete(Lines(g)[i])
    ensures r == Draw <==> !r.Win? && IsFull(g)
  {
    FirstWinnerIsFirstCompleteLine(Lines(g), 0, X);
    FirstWinnerIsFirstCompleteLine(Lines(g), 0, O);
    FirstWinnerNone(Lines(g), 0);
    match FirstWinner(Lines(g), 0)
    case Some(p) => Win(p)
    case None => if IsFull(g) then Draw else InProgress
  }

  /** check_winner: scans the lines in order and returns at the first complete
      one; otherwise reports a draw on a full board and in-progress else. */
  method CheckWinner(board: array2<Cell>) returns (r: Outcome)
    requires IsBoard(board)
    ensures r == Evaluate(Cells(board))
  {
    var g := Cells(board);
    var lines := Lines(g);
    var i: nat := 0;
    while i < |lines|
      invariant i <= |lines|
      invariant FirstWinner(lines, 0) == FirstWinner(lines, i)
    {
      if AllAre(lines[i], X) {
        return Win(X);
      }
      if AllAre(lines[i], O) {
        return Win(O);
      }
      i := i + 1;
    }
    if IsFull(g) {
      r := Draw;
    } else {
      r := InProgress;
    }
  }

  /** The scan finds player p exactly when some line from i on is all p and
      every line before it is incomplete. */
  lemma {:induction false} FirstWinnerIsFirstCompleteLine(ls: seq<seq<Cell>>, i: nat, p: Player)
    requires i <= |ls|
    requires forall j :: 0 <= j < |ls| ==> |ls[j]| > 0
    ensures FirstWinner(ls, i) == Some(p) <==>
      exists k :: i <= k < |ls| && AllAre(ls[k], p) && forall j :: i <= j < k ==> !Complete(ls[j])
    decreases |ls| - i
  {
    if i < |ls| {
      FirstWinnerIsFirstCompleteLine(ls, i + 1, p);
      assert ls[i][0] == X || !AllAre(ls[i], X);
      if FirstWinner(ls, i) == Some(p) {
        if Complete(ls[i]) {
          assert AllAre(ls[i], p);
        } else {
          var k :| i + 1 <= k < |ls| && AllAre(ls[k], p) && forall j :: i + 1 <= j < k ==> !Complete(ls[j]);
          assert forall j :: i <= j < k ==> !Complete(ls[j]);
        }
      }
    }
  }

  /** The scan finds nobody exactly when no line from i on is complete. */
  lemma {:induction false} FirstWinnerNone(ls: seq<seq<Cell>>, i: nat)
    requires i <= |ls|
    ensures FirstWinner(ls, i) == None <==> forall k :: i <= k < |ls| ==> !Complete(ls[k])
    decreases |ls| - i
  {
    if i < |ls| {
      FirstWinnerNone(ls, i + 1);
    }
  }

  /** The classification of check_winner, stated without the scan: a win for p
      exactly when the first complete line in scan order is all p; a draw exactly
      when no line is complete and no cell is empty; in progress exactly when no
      line is complete and some cell is empty. */
  lemma EvaluateCharacterised(g: Grid, p: Player)
    ensures Evaluate(g) == Win(p) <==>
      exists i :: 0 <= i < 8 && AllAre(Lines(g)[i], p) && forall j :: 0 <= j < i ==> !Complete(Lines(g)[j])
    ensures Evaluate(g) == Draw <==> (forall i :: 0 <= i < 8 ==> !Complete(Lines(g)[i])) && IsFull(g)
    ensures Evaluate(g) == InProgress <==> (forall i :: 0 <= i < 8 ==> !Complete(Lines(g)[i])) && !IsFull(g)
  {
    var ls := Lines(g);
    FirstWinnerIsFirstCompleteLine(ls, 0, p);
    FirstWinnerNone(ls, 0);
  }

  /** A player who completes a line wins whenever the other player completes
      none, wherever that line lies in the scan. */
  lemma SoleCompleterWins(g: Grid, p: Player, i: int)
    requires 0 <= i < 8 && AllAre(Lines(g)[i], p)
    requires forall j :: 0 <= j < 8 ==> !AllAre(Lines(g)[j], if p == X then O else X)
    ensures Evaluate(g) == Win(p)
  {
  }

  /** A freshly initialised board is in progress. */
  lemma InitialInProgress()
    ensures Evaluate(InitialGrid()) == InProgress
  {
    var g := InitialGrid();
    forall i | 0 <= i < 8 ensures !Complete(Lines(g)[i]) {
      assert Lines(g)[i][0] == Empty;
    }
    assert !IsFull(g) by { assert g[0][0] == Empty; }
    EvaluateCharacterised(g, X);
  }
}
