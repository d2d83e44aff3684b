/** Concrete games played through the engine: the scenarios the repository's
    own tests walk through, and a board that shows the scan order deciding the
    outcome. */
module GameScenarios {
  import opened TicTacToe

  /** A top row held by one player wins for that player, whatever else is on
      the board, because the top row is the first line scanned. */
  lemma TopRowWins(g: Grid, p: Player)
    requires g[0][0] == p && g[0][1] == p && g[0][2] == p
    ensures Evaluate(g) == Win(p)
  {
  }

  /** A full column wins. */
  lemma ColumnWins()
    ensures Evaluate([[O, Empty, Empty], [O, Empty, Empty], [O, Empty, Empty]]) == Win(O)
  {
    var g: Grid := [[O, Empty, Empty], [O, Empty, Empty], [O, Empty, Empty]];
    forall j | 0 <= j < 8 ensures !AllAre(Lines(g)[j], X) {
      assert Lines(g)[j][0] != X;
    }
    SoleCompleterWins(g, O, 3);
  }

  /** A full main diagonal wins. */
  lemma DiagonalWins()
    ensures Evaluate([[X, Empty, Empty], [Empty, X, Empty], [Empty, Empty, X]]) == Win(X)
  {
  }

  /** A full anti-diagonal wins. */
  lemma AntiDiagonalWins()
    ensures Evaluate([[Empty, Empty, O], [Empty, O, Empty], [O, Empty, Empty]]) == Win(O)
  {
    var g: Grid := [[Empty, Empty, O], [Empty, O, Empty], [O, Empty, Empty]];
    forall j | 0 <= j < 8 ensures !AllAre(Lines(g)[j], X) {
      assert Lines(g)[j][0] != X;
    }
    SoleCompleterWins(g, O, 7);
  }

  /** A full board with no complete line is a draw. */
  lemma FullBoardDraws()
    ensures Evaluate([[X, O, X], [X, O, O], [O, X, X]]) == Draw
  {
    var g: Grid := [[X, O, X], [X, O, O], [O, X, X]];
    var ls := Lines(g);
    assert ls == [[X, O, X], [X, O, O], [O, X, X], [X, X, O], [O, O, X], [X, O, X], [X, O, X], [X, O, O]];
    forall i | 0 <= i < 8 ensures !Complete(ls[i]) {
      assert O in ls[i] && X in ls[i];
    }
    FirstWinnerNone(ls, 0);
    assert IsFull(g);
  }

  /** Nothing in the engine enforces turns, so accepted moves can give both
      players a complete line; the outcome is then the player of the line
      scanned first (here O's top row), not X by precedence. */
  lemma BothCompleteFirstLineDecides()
    ensures var g := Play(InitialGrid(),
      [Move(0, 0, O), Move(0, 1, O), Move(0, 2, O), Move(1, 0, X), Move(1, 1, X), Move(1, 2, X)]);
      AllAre(Lines(g)[1], X) && Evaluate(g) == Win(O)
  {
  }

  /** A caller's sequence of make_move calls on one board leaves it as the
      value-level replay of those moves describes. */
  method MakeMoves(board: array2<Cell>, moves: seq<Move>)
    requires IsBoard(board) && ValidMoves(moves)
    modifies board
    ensures Cells(board) == Play(old(Cells(board)), moves)
  {
    var i := 0;
    while i < |moves|
      invariant 0 <= i <= |moves|
      invariant Play(old(Cells(board)), moves) == Play(Cells(board), moves[i..])
    {
      var m := moves[i];
      assert moves[i..][1..] == moves[i + 1..];
      var _ := MakeMove(board, m.row, m.col, m.player);
      i := i + 1;
    }
  }

  /** The integration game: five accepted moves give X the top row; a reset
      gives an empty board that is in progress. */
  method GameIntegration() returns (accepted: seq<bool>, outcome: Outcome, resetBoard: Grid, afterReset: Outcome)
    ensures accepted == [true, true, true, true, true]
    ensures outcome == Win(X)
    ensures resetBoard == InitialGrid() && afterReset == InProgress
  {
    var board := InitializeBoard();
    var ok1 := MakeMove(board, 0, 0, X);
    var ok2 := MakeMove(board, 1, 1, O);
    var ok3 := MakeMove(board, 0, 1, X);
    var ok4 := MakeMove(board, 2, 2, O);
    var ok5 := MakeMove(board, 0, 2, X);
    accepted := [ok1, ok2, ok3, ok4, ok5];
    outcome := CheckWinner(board);
    TopRowWins(Cells(board), X);

    board := ResetGame();
    resetBoard := Cells(board);
    afterReset := CheckWinner(board);
    InitialInProgress();
  }

  /** A second move on an occupied cell is refused and leaves the cell alone. */
  method OverwriteRefused() returns (first: bool, second: bool, cell: Cell)
    ensures first && !second && cell == X
  {
    var board := InitializeBoard();
    first := MakeMove(board, 0, 0, X);
    second := MakeMove(board, 0, 0, O);
    cell := board[0, 0];
  }
}
