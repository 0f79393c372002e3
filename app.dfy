/**
 * The game-state controller (tic_tac_toe_frontend/src/App.js): the state a
 * game is in, the fresh state of a new game, the transition a click on a
 * square makes, and the text helpers that describe a square. The state is a
 * value; the component that owns the current state is the class Controller.
 */
module App {
  import opened Wrappers
  import opened Game

  /** One snapshot of a game. */
  datatype GameState = GameState(
    board: Board,
    currentPlayer: Mark,
    status: string,
    winnerLine: Option<seq<int>>,
    isGameOver: bool)

  /** The text a mark is shown as. */
  function MarkText(m: Mark): (t: string)
    ensures |t| == 1
    ensures t == "X" <==> m == X
    ensures t == "O" <==> m == O
  {
    if m == X then "X" else "O"
  }

  function Opponent(m: Mark): (r: Mark)
    ensures r != m
  {
    if m == X then O else X
  }

  /** createInitialGameState: an empty board, X to move. */
  function CreateInitialGameState(): (s: GameState)
    ensures |s.board| == 9 && forall i :: 0 <= i < 9 ==> s.board[i] == Empty
    ensures s.currentPlayer == X && s.status == "Player X"
    ensures s.winnerLine == None && !s.isGameOver
  {
    GameState(seq(9, _ => Empty), X, "Player X", None, false)
  }

  /**
   * The state update of handleSquareClick. A click while the game is over,
   * or on a square that is not a valid move, leaves the state as it is.
   * Otherwise the board is copied with the current player's mark in the
   * clicked square, and the new state reports a win, a draw, or passes the
   * turn to the other player.
   */
  function ApplyMove(s: GameState, index: int): GameState
  {
    if s.isGameOver then s
    else if !IsValidMove(s.board, index) then s
    else
      var nextBoard := s.board[index := s.currentPlayer];
      match CalculateWinner(nextBoard)
      case Some(info) =>
        GameState(nextBoard, s.currentPlayer, "Player " + MarkText(info.winner) + " wins!", Some(info.line), true)
      case None =>
        if IsDraw(nextBoard) then
          GameState(nextBoard, s.currentPlayer, "It's a draw!", None, true)
        else
          var nextPlayer := Opponent(s.currentPlayer);
          GameState(nextBoard, nextPlayer, "Player " + MarkText(nextPlayer), None, false)
  }

  /** The state after the clicks `moves`, in order, starting from `s`. */
  function Play(s: GameState, moves: seq<int>): GameState
    decreases |moves|
  {
    if moves == [] then s else Play(ApplyMove(s, moves[0]), moves[1..])
  }

  // ---------------------------------------------------------------------
  // The outcomes of one click, in terms of the lines of the new board

  /** A click is accepted exactly when the game is not over and the move is valid. */
  lemma MoveIgnoredIff(s: GameState, index: int)
    ensures ApplyMove(s, index) == s <==> s.isGameOver || !IsValidMove(s.board, index)
  {
    if !s.isGameOver && IsValidMove(s.board, index) {
      assert ApplyMove(s, index).board[index] != s.board[index];
    }
  }

  /**
   * An accepted click writes the current player's mark into the clicked
   * square, which was empty, leaves every other square as it was, and ends
   * the game exactly when the new board has a winner or is full.
   */
  lemma MoveWritesOneSquare(s: GameState, index: int)
    requires !s.isGameOver && IsValidMove(s.board, index)
    ensures var t := ApplyMove(s, index);
      && |t.board| == 9 && s.board[index] == Empty && t.board[index] == s.currentPlayer
      && (forall j :: 0 <= j < 9 && j != index ==> t.board[j] == s.board[j])
      && t.isGameOver == (CalculateWinner(t.board).Some? || Full(t.board))
  {
  }

  /** An accepted click fills one empty square. */
  lemma MoveFillsOneSquare(s: GameState, index: int)
    requires !s.isGameOver && IsValidMove(s.board, index)
    ensures Count(ApplyMove(s, index).board, Empty) == Count(s.board, Empty) - 1
  {
    ValidMoveFillsOneCell(s.board, index, s.currentPlayer);
  }

  /**
   * A click that completes a line ends the game: the first completed line
   * in the scan order is reported with its mark, and the turn stays with
   * the player who clicked.
   */
  lemma MoveWins(s: GameState, index: int, k: int)
    requires !s.isGameOver && IsValidMove(s.board, index)
    requires FirstWon(s.board[index := s.currentPlayer], k)
    ensures var b := s.board[index := s.currentPlayer];
      ApplyMove(s, index) ==
        GameState(b, s.currentPlayer, "Player " + MarkText(Report(b, k).winner) + " wins!", Some(Lines[k]), true)
  {
    CalculateWinnerFindsFirst(s.board[index := s.currentPlayer], k);
  }

  /** A click that fills the board without completing a line ends the game in a draw. */
  lemma MoveDraws(s: GameState, index: int)
    requires !s.isGameOver && IsValidMove(s.board, index)
    requires var b := s.board[index := s.currentPlayer];
      Full(b) && forall k :: 0 <= k < 8 ==> !LineWon(b, k)
    ensures ApplyMove(s, index) ==
      GameState(s.board[index := s.currentPlayer], s.currentPlayer, "It's a draw!", None, true)
  {
    CalculateWinnerNoneIff(s.board[index := s.currentPlayer]);
  }

  /** Any other accepted click passes the turn to the other player. */
  lemma MoveContinues(s: GameState, index: int)
    requires !s.isGameOver && IsValidMove(s.board, index)
    requires var b := s.board[index := s.currentPlayer];
      !Full(b) && forall k :: 0 <= k < 8 ==> !LineWon(b, k)
    ensures var p := Opponent(s.currentPlayer);
      ApplyMove(s, index) ==
        GameState(s.board[index := s.currentPlayer], p, "Player " + MarkText(p), None, false)
  {
    CalculateWinnerNoneIff(s.board[index := s.currentPlayer]);
  }

  // ---------------------------------------------------------------------
  // The invariant of every state a game passes through

  /** The mark of the player to move, X moving first. */
  function PlayerToMove(board: Board): Mark {
    if Count(board, X) == Count(board, O) then X else O
  }

  /** The mark of the player who moved last. */
  function LastMover(board: Board): Mark {
    if Count(board, X) == Count(board, O) + 1 then X else O
  }

  /** The status text a board calls for, `player` being the player whose turn it is. */
  function StatusText(board: Board, player: Mark): string {
    match CalculateWinner(board)
    case Some(info) => "Player " + MarkText(info.winner) + " wins!"
    case None => if Full(board) then "It's a draw!" else "Player " + MarkText(player)
  }

  /** The winning line a board calls for. */
  function WinnerLine(board: Board): Option<seq<int>> {
    match CalculateWinner(board)
    case Some(info) => Some(info.line)
    case None => None
  }

  /**
   * What holds of every state a game reaches: X and O have alternated, X
   * first; the game is over exactly when a line is won or the board is
   * full; the winning line and the status are those the board calls for;
   * the current player is the one to move, or once the game is over the one
   * who moved last; and every won line belongs to the current player.
   */
  ghost predicate Consistent(s: GameState) {
    && |s.board| == 9
    && (Count(s.board, X) == Count(s.board, O) || Count(s.board, X) == Count(s.board, O) + 1)
    && s.isGameOver == (CalculateWinner(s.board).Some? || Full(s.board))
    && s.winnerLine == WinnerLine(s.board)
    && s.status == StatusText(s.board, s.currentPlayer)
    && s.currentPlayer == (if s.isGameOver then LastMover(s.board) else PlayerToMove(s.board))
    && forall k :: 0 <= k < 8 && LineWon(s.board, k) ==> Report(s.board, k).winner == s.currentPlayer
  }

  lemma InitialStateConsistent()
    ensures Consistent(CreateInitialGameState())
  {
    var b := CreateInitialGameState().board;
    assert Count(b, X) == 0 && Count(b, O) == 0 by {
      CountAbsent(b, X);
      CountAbsent(b, O);
    }
    assert !Full(b) by { assert b[0] == Empty; }
    CalculateWinnerNoneIff(b);
  }

  lemma {:induction false} CountAbsent(board: Board, c: Cell)
    requires forall i :: 0 <= i < |board| ==> board[i] != c
    ensures Count(board, c) == 0
  {
    if board != [] {
      CountAbsent(board[1..], c);
    }
  }

  /** A line won after writing cell `index` but not before runs through `index`, so it holds the new mark. */
  lemma NewLineThroughMove(board: Board, index: int, m: Mark, k: int)
    requires |board| == 9 && 0 <= index < 9 && 0 <= k < 8
    requires LineWon(board[index := m], k) && !LineWon(board, k)
    ensures Report(board[index := m], k).winner == m
  {
    LinesAreTriples();
    var line := Lines[k];
    assert index == line[0] || index == line[1] || index == line[2];
  }

  /** Every click keeps a consistent state consistent. */
  lemma ApplyMovePreservesConsistent(s: GameState, index: int)
    requires Consistent(s)
    ensures Consistent(ApplyMove(s, index))
  {
    LinesAreTriples();
    if !s.isGameOver && IsValidMove(s.board, index) {
      var p := s.currentPlayer;
      var b := s.board[index := p];
      var t := ApplyMove(s, index);
      CalculateWinnerNoneIff(s.board);
      CalculateWinnerNoneIff(b);
      CountAfterWrite(s.board, index, p, X);
      CountAfterWrite(s.board, index, p, O);
      forall k | 0 <= k < 8 && LineWon(b, k) ensures Report(b, k).winner == p {
        NewLineThroughMove(s.board, index, p, k);
      }
      assert p == X ==> Count(b, X) == Count(b, O) + 1;
      assert p == O ==> Count(b, X) == Count(b, O);
      assert t.board == b;
    }
  }

  /** Any sequence of clicks keeps a consistent state consistent. */
  lemma {:induction false} PlayPreservesConsistent(s: GameState, moves: seq<int>)
    requires Consistent(s)
    ensures Consistent(Play(s, moves))
    decreases |moves|
  {
    if moves != [] {
      ApplyMovePreservesConsistent(s, moves[0]);
      PlayPreservesConsistent(ApplyMove(s, moves[0]), moves[1..]);
    }
  }

  /** Once the game is over, no click changes anything. */
  lemma {:induction false} GameOverIsFinal(s: GameState, moves: seq<int>)
    requires s.isGameOver
    ensures Play(s, moves) == s
    decreases |moves|
  {
    if moves != [] {
      GameOverIsFinal(ApplyMove(s, moves[0]), moves[1..]);
    }
  }

  /** In a consistent state a reported winner is the current player. */
  lemma WinnerIsCurrentPlayer(s: GameState)
    requires Consistent(s) && CalculateWinner(s.board).Some?
    ensures s.isGameOver && CalculateWinner(s.board).value.winner == s.currentPlayer
    ensures s.status == "Player " + MarkText(s.currentPlayer) + " wins!"
  {
    CalculateWinnerReportsFirst(s.board);
    var k :| FirstWon(s.board, k) && CalculateWinner(s.board) == Some(Report(s.board, k));
  }

  /** A consistent state whose board has no empty square is over. */
  lemma FullBoardEndsGame(s: GameState)
    requires Consistent(s) && Count(s.board, Empty) == 0
    ensures s.isGameOver
  {
    FullIffNoEmptyCell(s.board);
  }

  // ---------------------------------------------------------------------
  // The square helpers

  /** A row and a column, both counted from 1. */
  datatype RowCol = RowCol(row: int, col: int)

  /** JavaScript's `%`, whose remainder takes the sign of the dividend. */
  function TruncatedRemainder(a: int, b: int): (r: int)
    requires b > 0
    ensures -b < r < b
    ensures a >= 0 ==> r == a % b
    ensures a < 0 ==> r <= 0 && exists q: int :: a == b * q + r
  {
    if a >= 0 then a % b
    else
      var q := (-a) / b;
      assert -a == b * q + (-a) % b;
      assert a == b * (-q) + -((-a) % b);
      -((-a) % b)
  }

  /**
   * indexToRowCol: `Math.floor(index / 3) + 1` and `(index % 3) + 1`. The
   * floor of a division by 3 is Dafny's `/`; JavaScript's `%` is
   * TruncatedRemainder.
   */
  function IndexToRowCol(index: int): (rc: RowCol)
    ensures 0 <= index <= 8 ==>
              && 1 <= rc.row <= 3 && 1 <= rc.col <= 3
              && (rc.row - 1) * 3 + (rc.col - 1) == index
  {
    RowCol(index / 3 + 1, TruncatedRemainder(index, 3) + 1)
  }

  /** Every square of the grid is named by its own row and column. */
  lemma IndexToRowColRoundTrip(row: int, col: int)
    requires 1 <= row <= 3 && 1 <= col <= 3
    ensures IndexToRowCol((row - 1) * 3 + (col - 1)) == RowCol(row, col)
  {
  }

  function DigitChar(d: int): (c: char)
    requires 0 <= d < 10
    ensures '0' <= c <= '9'
    ensures c as int - '0' as int == d
  {
    (d + '0' as int) as char
  }

  /** The decimal digits of `n`, as a template string shows a whole number. */
  function NaturalText(n: nat): (s: string)
    ensures |s| >= 1 && forall i :: 0 <= i < |s| ==> '0' <= s[i] <= '9'
    ensures n > 0 ==> s[0] != '0'
    decreases n
  {
    if n < 10 then [DigitChar(n)] else NaturalText(n / 10) + [DigitChar(n % 10)]
  }

  /** The value of a string of decimal digits. */
  function DigitsValue(s: string): nat
    requires forall i :: 0 <= i < |s| ==> '0' <= s[i] <= '9'
  {
    if s == [] then 0 else DigitsValue(s[..|s| - 1]) * 10 + (s[|s| - 1] as int - '0' as int)
  }

  /** NaturalText writes `n` in decimal: reading its digits back gives `n`. */
  lemma {:induction false} NaturalTextRoundTrip(n: nat)
    ensures DigitsValue(NaturalText(n)) == n
    decreases n
  {
    if n >= 10 {
      NaturalTextRoundTrip(n / 10);
      var s := NaturalText(n);
      assert s[..|s| - 1] == NaturalText(n / 10);
    }
  }

  /** An integer as a template string shows it. */
  function NumberText(i: int): (s: string)
    ensures 0 <= i < 10 ==> s == [DigitChar(i)]
  {
    if i < 0 then "-" + NaturalText(-i) else NaturalText(i)
  }

  /** getSquareAriaLabel: the accessible name of one square. */
  function SquareAriaLabel(cellValue: Cell, currentPlayer: Mark, index: int, isGameOver: bool): string
  {
    var rc := IndexToRowCol(index);
    var row, col := NumberText(rc.row), NumberText(rc.col);
    if cellValue != Empty then
      "Row " + row + " column " + col + " is " + MarkText(cellValue)
    else if isGameOver then
      "Square at row " + row + " column " + col + " is empty. Game over."
    else
      "Place " + MarkText(currentPlayer) + " at row " + row + " column " + col
  }

  /**
   * The square at 1-based `row` and `col` is labelled with those
   * coordinates, in one of three shapes: its mark, empty once the game is
   * over, or an offer to place the current player's mark.
   */
  lemma SquareAriaLabelNamesSquare(cellValue: Cell, currentPlayer: Mark, row: int, col: int, isGameOver: bool)
    requires 1 <= row <= 3 && 1 <= col <= 3
    ensures var r, c := [DigitChar(row)], [DigitChar(col)];
      SquareAriaLabel(cellValue, currentPlayer, (row - 1) * 3 + (col - 1), isGameOver) ==
        if cellValue != Empty then "Row " + r + " column " + c + " is " + MarkText(cellValue)
        else if isGameOver then "Square at row " + r + " column " + c + " is empty. Game over."
        else "Place " + MarkText(currentPlayer) + " at row " + r + " column " + c
  {
    IndexToRowColRoundTrip(row, col);
  }

  // ---------------------------------------------------------------------
  // The component that owns the current state

  /** The owner of the live state, as the `game` state variable of the App component. */
  class Controller {
    var game: GameState

    ghost predicate Valid()
      reads this
    {
      Consistent(game)
    }

    constructor ()
      ensures Valid() && game == CreateInitialGameState()
    {
      game := CreateInitialGameState();
      InitialStateConsistent();
    }

    /** handleSquareClick: replace the state by the one the click leads to. */
    method Click(index: int)
      requires Valid()
      modifies this
      ensures Valid() && game == ApplyMove(old(game), index)
    {
      ApplyMovePreservesConsistent(game, index);
      if game.isGameOver {
        return;
      }
      if !IsValidMove(game.board, index) {
        return;
      }
      var nextBoard := game.board[index := game.currentPlayer];
      var winnerInfo := CalculateWinner(nextBoard);
      if winnerInfo.Some? {
        game := GameState(nextBoard, game.currentPlayer,
                          "Player " + MarkText(winnerInfo.value.winner) + " wins!",
                          Some(winnerInfo.value.line), true);
        return;
      }
      if IsDraw(nextBoard) {
        game := GameState(nextBoard, game.currentPlayer, "It's a draw!", None, true);
        return;
      }
      var nextPlayer := Opponent(game.currentPlayer);
      game := GameState(nextBoard, nextPlayer, "Player " + MarkText(nextPlayer), None, false);
    }

    /** resetGame: replace the state by a fresh one. */
    method Reset()
      modifies this
      ensures Valid() && game == CreateInitialGameState()
    {
      game := CreateInitialGameState();
      InitialStateConsistent();
    }
  }
}
