/**
 * The rule engine of the game (tic_tac_toe_frontend/src/game.js): total,
 * pure functions over a board snapshot that detect a winner, a draw and a
 * legal move. A board is any sequence of cells; only sequences of length 9
 * are real boards, and every function gives its "nothing found" answer for
 * the others.
 */
module Game {
  import opened Wrappers

  /** A cell: empty (JavaScript `null`) or holding a player's mark. */
  datatype Cell = Empty | X | O

  /** A player's mark: a cell value other than Empty. */
  type Mark = c: Cell | c != Empty witness X

  /** Cells indexed 0..8 row by row: index i is row i / 3, column i % 3. */
  type Board = seq<Cell>

  /** What calculateWinner reports: the winning mark and the indices of its line. */
  datatype WinInfo = WinInfo(winner: Mark, line: seq<int>)

  /**
   * The eight lines in the order they are scanned: the rows top to bottom,
   * the columns left to right, then the diagonal from the top-left corner
   * and the one from the top-right corner.
   */
  const Lines: seq<seq<int>> :=
    [[0, 1, 2], [3, 4, 5], [6, 7, 8],
     [0, 3, 6], [1, 4, 7], [2, 5, 8],
     [0, 4, 8], [2, 4, 6]]

  /** Three indices of a 9-cell board. */
  predicate IsTriple(line: seq<int>) {
    |line| == 3 && 0 <= line[0] < 9 && 0 <= line[1] < 9 && 0 <= line[2] < 9
  }

  lemma LinesAreTriples()
    ensures |Lines| == 8 && forall k :: 0 <= k < 8 ==> IsTriple(Lines[k])
  {
  }

  /** The three cells of line `k` hold the same mark. */
  predicate LineWon(board: Board, k: int)
    requires |board| == 9 && 0 <= k < 8
  {
    LinesAreTriples();
    var line := Lines[k];
    board[line[0]] != Empty && board[line[1]] == board[line[0]] && board[line[2]] == board[line[0]]
  }

  /** Line `k` is won on `board` and no line before it in the scan order is. */
  predicate FirstWon(board: Board, k: int)
    requires |board| == 9
  {
    0 <= k < 8 && LineWon(board, k) && forall j :: 0 <= j < k ==> !LineWon(board, j)
  }

  /** The report for won line `k`: the mark on it and the line itself. */
  function Report(board: Board, k: int): WinInfo
    requires |board| == 9 && 0 <= k < 8 && LineWon(board, k)
  {
    WinInfo(board[Lines[k][0]], Lines[k])
  }

  /** The board has no empty cell. */
  predicate Full(board: Board) {
    forall i :: 0 <= i < |board| ==> board[i] != Empty
  }

  /** The number of cells of `board` holding `c`. */
  function Count(board: Board, c: Cell): (n: nat)
    ensures n <= |board|
  {
    if board == [] then 0
    else (if board[0] == c then 1 else 0) + Count(board[1..], c)
  }

  /**
   * calculateWinner's loop, from line `k` on: the lines are tried in order
   * and the first one whose three cells hold the same mark is reported.
   */
  function ScanFrom(board: Board, k: nat): (r: Option<WinInfo>)
    requires |board| == 9
    decreases 8 - k
  {
    LinesAreTriples();
    if k >= |Lines| then None
    else
      var line := Lines[k];
      var v := board[line[0]];
      if v != Empty && v == board[line[1]] && v == board[line[2]] then Some(WinInfo(v, line))
      else ScanFrom(board, k + 1)
  }

  /**
   * calculateWinner: nothing for a sequence that is not a 9-cell board;
   * otherwise the first of the eight lines whose cells hold one mark.
   */
  function CalculateWinner(board: Board): (r: Option<WinInfo>)
    ensures |board| != 9 ==> r == None
  {
    if |board| != 9 then None else ScanFrom(board, 0)
  }

  /** isDraw: a 9-cell board with no winner and every cell marked. */
  function IsDraw(board: Board): (r: bool)
    ensures r ==> |board| == 9 && Full(board) && CalculateWinner(board) == None
  {
    if |board| != 9 then false
    else if CalculateWinner(board).Some? then false
    else Full(board)
  }

  /** isValidMove: the index is a cell of a 9-cell board and that cell is empty. */
  function IsValidMove(board: Board, index: int): (r: bool)
    ensures r <==> |board| == 9 && 0 <= index <= 8 && board[index] == Empty
  {
    if |board| != 9 then false
    else if index < 0 || index > 8 then false
    else board[index] == Empty
  }

  // ---------------------------------------------------------------------
  // The scan, against the line-by-line definition of a win

  lemma {:induction false} ScanFromNoneIff(board: Board, k: nat)
    requires |board| == 9
    ensures ScanFrom(board, k) == None <==> forall j :: k <= j < 8 ==> !LineWon(board, j)
    decreases 8 - k
  {
    if k < 8 {
      ScanFromNoneIff(board, k + 1);
      assert ScanFrom(board, k) == if LineWon(board, k) then Some(Report(board, k)) else ScanFrom(board, k + 1);
    }
  }

  lemma {:induction false} ScanFromFindsFirst(board: Board, k: nat, i: int)
    requires |board| == 9 && k <= i < 8 && LineWon(board, i)
    requires forall j :: k <= j < i ==> !LineWon(board, j)
    ensures ScanFrom(board, k) == Some(Report(board, i))
    decreases i - k
  {
    if k < i {
      assert !LineWon(board, k);
      ScanFromFindsFirst(board, k + 1, i);
    }
  }

  lemma {:induction false} ScanFromReportsFirst(board: Board, k: nat)
    requires |board| == 9 && ScanFrom(board, k).Some?
    ensures exists i :: k <= i < 8 && LineWon(board, i) && (forall j :: k <= j < i ==> !LineWon(board, j)) &&
                        ScanFrom(board, k).value == Report(board, i)
    decreases 8 - k
  {
    if !LineWon(board, k) {
      ScanFromReportsFirst(board, k + 1);
      var i :| k + 1 <= i < 8 && LineWon(board, i) && (forall j :: k + 1 <= j < i ==> !LineWon(board, j)) &&
               ScanFrom(board, k + 1).value == Report(board, i);
      assert forall j :: k <= j < i ==> !LineWon(board, j);
    }
  }

  // ---------------------------------------------------------------------
  // calculateWinner

  /** No result exactly when the board is malformed or none of the eight lines is won. */
  lemma CalculateWinnerNoneIff(board: Board)
    ensures CalculateWinner(board) == None <==>
              |board| != 9 || forall k :: 0 <= k < 8 ==> !LineWon(board, k)
  {
    if |board| == 9 {
      ScanFromNoneIff(board, 0);
    }
  }

  /** A won line is reported when no line earlier in the scan order is won. */
  lemma CalculateWinnerFindsFirst(board: Board, k: int)
    requires |board| == 9 && FirstWon(board, k)
    ensures CalculateWinner(board) == Some(Report(board, k))
  {
    ScanFromFindsFirst(board, 0, k);
  }

  /** Whatever is reported is the first won line in the scan order, with its mark. */
  lemma CalculateWinnerReportsFirst(board: Board)
    requires CalculateWinner(board).Some?
    ensures |board| == 9
    ensures exists k ::
              FirstWon(board, k) && CalculateWinner(board) == Some(Report(board, k))
  {
    ScanFromReportsFirst(board, 0);
  }

  /** A reported line is one of the eight, and its three cells hold the reported mark. */
  lemma CalculateWinnerSound(board: Board)
    requires CalculateWinner(board).Some?
    ensures var info := CalculateWinner(board).value;
      |board| == 9 && info.line in Lines && IsTriple(info.line) &&
      forall j :: 0 <= j < 3 ==> board[info.line[j]] == info.winner
  {
    CalculateWinnerReportsFirst(board);
    LinesAreTriples();
  }

  /**
   * When two lines are won, the one earlier in the scan order is reported:
   * here the top row rather than the main diagonal that the same last mark
   * completed.
   */
  lemma EarlierLineWins()
    ensures var board := [X, X, X, O, X, O, O, O, X];
      LineWon(board, 6) && CalculateWinner(board) == Some(WinInfo(X, [0, 1, 2]))
  {
  }

  // ---------------------------------------------------------------------
  // isDraw and isValidMove

  /** A draw is a full 9-cell board on which none of the eight lines is won. */
  lemma IsDrawIff(board: Board)
    ensures IsDraw(board) <==>
              |board| == 9 && Full(board) && forall k :: 0 <= k < 8 ==> !LineWon(board, k)
  {
    CalculateWinnerNoneIff(board);
  }

  /** A board is full exactly when its count of empty cells is zero. */
  lemma {:induction false} FullIffNoEmptyCell(board: Board)
    ensures Full(board) <==> Count(board, Empty) == 0
  {
    if board != [] {
      FullIffNoEmptyCell(board[1..]);
      assert forall i :: 1 <= i < |board| ==> board[i] == board[1..][i - 1];
    }
  }

  /** Writing `c` into cell `i` moves one cell from `board[i]`'s count to `c`'s. */
  lemma {:induction false} CountAfterWrite(board: Board, i: int, c: Cell, d: Cell)
    requires 0 <= i < |board|
    ensures Count(board[i := c], d) ==
      Count(board, d) - (if board[i] == d then 1 else 0) + (if c == d then 1 else 0)
    decreases |board|
  {
    if i > 0 {
      CountAfterWrite(board[1..], i - 1, c, d);
      assert board[i := c][1..] == board[1..][i - 1 := c];
    }
  }

  /** A valid move fills one empty cell: the number of empty cells drops by one. */
  lemma ValidMoveFillsOneCell(board: Board, index: int, m: Mark)
    requires IsValidMove(board, index)
    ensures Count(board[index := m], Empty) == Count(board, Empty) - 1
    ensures Count(board[index := m], m) == Count(board, m) + 1
  {
    CountAfterWrite(board, index, m, Empty);
    CountAfterWrite(board, index, m, m);
  }

  /** Moves outside 0..8 are rejected, whatever the board. */
  lemma OutOfRangeMovesInvalid(board: Board)
    ensures !IsValidMove(board, -1) && !IsValidMove(board, 9)
  {
  }
}
