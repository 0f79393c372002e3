/**
 * The click sequences of tic_tac_toe_frontend/src/App.test.js, played on the
 * state model from a fresh game. Squares are given by their 0-based index:
 * the test's (row r, column c) is index (r - 1) * 3 + (c - 1). Each sequence
 * is proved a few clicks at a time, one helper lemma per kind of click.
 */
module Scenarios {
  import opened Wrappers
  import opened Game
  import opened App

  const e := Empty

  /**
   * "No line is won" (`Game.LineWon` for every line), written out line by line
   * for the scenario helpers only. Spelling the eight lines out keeps each
   * scenario proof cheap: the solver checks literal cells instead of unfolding
   * `LineWon` through `Lines`. `NoLineWon` proves the two readings agree.
   */
  predicate NoThreeInARow(b: Board)
    requires |b| == 9
  {
    && !(b[0] != Empty && b[1] == b[0] && b[2] == b[0])
    && !(b[3] != Empty && b[4] == b[3] && b[5] == b[3])
    && !(b[6] != Empty && b[7] == b[6] && b[8] == b[6])
    && !(b[0] != Empty && b[3] == b[0] && b[6] == b[0])
    && !(b[1] != Empty && b[4] == b[1] && b[7] == b[1])
    && !(b[2] != Empty && b[5] == b[2] && b[8] == b[2])
    && !(b[0] != Empty && b[4] == b[0] && b[8] == b[0])
    && !(b[2] != Empty && b[4] == b[2] && b[6] == b[2])
  }

  /** NoThreeInARow is the line-by-line reading of "no line is won". */
  lemma NoLineWon(b: Board)
    requires |b| == 9 && NoThreeInARow(b)
    ensures forall k :: 0 <= k < 8 ==> !LineWon(b, k)
  {
    forall k | 0 <= k < 8 ensures !LineWon(b, k) {
      if k == 0 {} else if k == 1 {} else if k == 2 {} else if k == 3 {}
      else if k == 4 {} else if k == 5 {} else if k == 6 {} else {}
    }
  }

  /** A click on empty square `i` that completes no line and leaves square `free` empty passes the turn. */
  lemma Passes(b: Board, p: Mark, status: string, i: int, free: int, b': Board, q: Mark, status': string)
    requires |b| == 9 && 0 <= i < 9 && b[i] == Empty && 0 <= free < 9 && free != i && b[free] == Empty
    requires b' == b[i := p] && NoThreeInARow(b')
    requires status == "Player " + MarkText(p) && q == Opponent(p) && status' == "Player " + MarkText(q)
    ensures ApplyMove(GameState(b, p, status, None, false), i) == GameState(b', q, status', None, false)
  {
    NoLineWon(b');
    assert b'[free] == Empty;
    MoveContinues(GameState(b, p, status, None, false), i);
  }

  /** A click on empty square `i` that completes line `k`, and no line before it, wins. */
  lemma Wins(b: Board, p: Mark, status: string, i: int, b': Board, k: int, status': string)
    requires |b| == 9 && 0 <= i < 9 && b[i] == Empty
    requires b' == b[i := p] && FirstWon(b', k)
    requires status' == "Player " + MarkText(Report(b', k).winner) + " wins!"
    ensures ApplyMove(GameState(b, p, status, None, false), i) == GameState(b', p, status', Some(Lines[k]), true)
  {
    MoveWins(GameState(b, p, status, None, false), i, k);
  }

  /** A click on the last empty square `i` that completes no line is a draw. */
  lemma Draws(b: Board, p: Mark, status: string, i: int, b': Board)
    requires |b| == 9 && 0 <= i < 9 && b[i] == Empty
    requires b' == b[i := p] && NoThreeInARow(b') && Full(b')
    ensures ApplyMove(GameState(b, p, status, None, false), i) == GameState(b', p, "It's a draw!", None, true)
  {
    NoLineWon(b');
    MoveDraws(GameState(b, p, status, None, false), i);
  }

  /** One click from `s` leads to `t`. */
  lemma Play1(s: GameState, i: int, t: GameState)
    requires ApplyMove(s, i) == t
    ensures Play(s, [i]) == t
  {
    assert [i][1..] == [];
  }

  /** Two clicks, through `t1` to `t2`. */
  lemma Play2(s: GameState, i: int, j: int, t1: GameState, t2: GameState)
    requires ApplyMove(s, i) == t1 && ApplyMove(t1, j) == t2
    ensures Play(s, [i, j]) == t2
  {
    Play1(t1, j, t2);
    assert [i, j][1..] == [j];
  }

  /** Three clicks, through `t1` and `t2` to `t3`. */
  lemma Play3(s: GameState, i: int, j: int, k: int, t1: GameState, t2: GameState, t3: GameState)
    requires ApplyMove(s, i) == t1 && ApplyMove(t1, j) == t2 && ApplyMove(t2, k) == t3
    ensures Play(s, [i, j, k]) == t3
  {
    Play2(t1, j, k, t2, t3);
    assert [i, j, k][1..] == [j, k];
  }

  /** Playing two sequences of clicks one after the other is playing their concatenation. */
  lemma {:induction false} PlayAppend(s: GameState, a: seq<int>, b: seq<int>)
    ensures Play(s, a + b) == Play(Play(s, a), b)
    decreases |a|
  {
    if a != [] {
      assert (a + b)[0] == a[0] && (a + b)[1..] == a[1..] + b;
      assert Play(s, a + b) == Play(ApplyMove(s, a[0]), a[1..] + b);
      PlayAppend(ApplyMove(s, a[0]), a[1..], b);
    } else {
      assert a + b == b;
    }
  }

  /** Clicks `a` lead from `s0` to `s1` and clicks `b` from `s1` to `s2`: together they lead to `s2`. */
  lemma PlayThrough(s0: GameState, a: seq<int>, s1: GameState, b: seq<int>, s2: GameState)
    requires Play(s0, a) == s1 && Play(s1, b) == s2
    ensures Play(s0, a + b) == s2
  {
    PlayAppend(s0, a, b);
  }

  /** The five clicks of a game, as three followed by two. */
  lemma JoinFive(m0: int, m1: int, m2: int, m3: int, m4: int)
    ensures [m0, m1, m2] + [m3, m4] == [m0, m1, m2, m3, m4]
  {
  }

  /** The nine clicks of a game, as three, three and three. */
  lemma JoinNine(m0: int, m1: int, m2: int, m3: int, m4: int, m5: int, m6: int, m7: int, m8: int)
    ensures [m0, m1, m2] + [m3, m4, m5] == [m0, m1, m2, m3, m4, m5]
    ensures [m0, m1, m2, m3, m4, m5] + [m6, m7, m8] == [m0, m1, m2, m3, m4, m5, m6, m7, m8]
  {
  }

  /** The fresh state, written out. */
  lemma InitialState()
    ensures CreateInitialGameState() == GameState([e, e, e, e, e, e, e, e, e], X, "Player X", None, false)
  {
  }

  /** The first click, on the top-left square, marks it X and passes the turn to O. */
  lemma FirstClick()
    ensures Play(GameState([e, e, e, e, e, e, e, e, e], X, "Player X", None, false), [0]) ==
              GameState([X, e, e, e, e, e, e, e, e], O, "Player O", None, false)
  {
    Passes([e, e, e, e, e, e, e, e, e], X, "Player X", 0, 1, [X, e, e, e, e, e, e, e, e], O, "Player O");
    Play1(GameState([e, e, e, e, e, e, e, e, e], X, "Player X", None, false), 0,
      GameState([X, e, e, e, e, e, e, e, e], O, "Player O", None, false));
  }

  /** After one click O is to move; after a second, X again. */
  lemma TurnAlternates()
    ensures Play(CreateInitialGameState(), [0]).currentPlayer == O
    ensures Play(CreateInitialGameState(), [0]).status == "Player O"
    ensures Play(CreateInitialGameState(), [0, 1]).currentPlayer == X
  {
    InitialState();
    FirstClick();
    Passes([e, e, e, e, e, e, e, e, e], X, "Player X", 0, 1, [X, e, e, e, e, e, e, e, e], O, "Player O");
    Passes([X, e, e, e, e, e, e, e, e], O, "Player O", 1, 2, [X, O, e, e, e, e, e, e, e], X, "Player X");
    Play2(GameState([e, e, e, e, e, e, e, e, e], X, "Player X", None, false), 0, 1,
      GameState([X, e, e, e, e, e, e, e, e], O, "Player O", None, false),
      GameState([X, O, e, e, e, e, e, e, e], X, "Player X", None, false));
  }

  /**
   * A second click on the occupied top-left square changes nothing: O is
   * still to move and the square still holds X.
   */
  lemma OccupiedSquareIgnored()
    ensures Play(CreateInitialGameState(), [0, 0]) == Play(CreateInitialGameState(), [0])
    ensures Play(CreateInitialGameState(), [0, 0]).status == "Player O"
    ensures Play(CreateInitialGameState(), [0, 0]).board[0] == X
  {
    InitialState();
    FirstClick();
    Passes([e, e, e, e, e, e, e, e, e], X, "Player X", 0, 1, [X, e, e, e, e, e, e, e, e], O, "Player O");
    MoveIgnoredIff(GameState([X, e, e, e, e, e, e, e, e], O, "Player O", None, false), 0);
    Play2(GameState([e, e, e, e, e, e, e, e, e], X, "Player X", None, false), 0, 0,
      GameState([X, e, e, e, e, e, e, e, e], O, "Player O", None, false),
      GameState([X, e, e, e, e, e, e, e, e], O, "Player O", None, false));
  }

  /** Before the first click the top-left square offers X a move there. */
  lemma TopLeftLabelBefore()
    ensures SquareAriaLabel(Empty, X, 0, false) == "Place X at row 1 column 1"
  {
  }

  /** Once the first click has taken it for X, the top-left square says so. */
  lemma TopLeftLabelAfter()
    ensures var s := Play(CreateInitialGameState(), [0]);
      SquareAriaLabel(s.board[0], s.currentPlayer, 0, s.isGameOver) == "Row 1 column 1 is X"
  {
    InitialState();
    FirstClick();
    assert SquareAriaLabel(X, O, 0, false) == "Row 1 column 1 is X";
  }

  /** The first three clicks of the top-row game: X at 0, O at 3, X at 1. */
  lemma TopRowOpening()
    ensures Play(GameState([e, e, e, e, e, e, e, e, e], X, "Player X", None, false), [0, 3, 1]) ==
              GameState([X, X, e, O, e, e, e, e, e], O, "Player O", None, false)
  {
    Passes([e, e, e, e, e, e, e, e, e], X, "Player X", 0, 1, [X, e, e, e, e, e, e, e, e], O, "Player O");
    Passes([X, e, e, e, e, e, e, e, e], O, "Player O", 3, 1, [X, e, e, O, e, e, e, e, e], X, "Player X");
    Passes([X, e, e, O, e, e, e, e, e], X, "Player X", 1, 2, [X, X, e, O, e, e, e, e, e], O, "Player O");
    Play3(GameState([e, e, e, e, e, e, e, e, e], X, "Player X", None, false), 0, 3, 1,
      GameState([X, e, e, e, e, e, e, e, e], O, "Player O", None, false),
      GameState([X, e, e, O, e, e, e, e, e], X, "Player X", None, false),
      GameState([X, X, e, O, e, e, e, e, e], O, "Player O", None, false));
  }

  /** O takes 4 and X completes the top row at 2. */
  lemma TopRowFinish()
    ensures Play(GameState([X, X, e, O, e, e, e, e, e], O, "Player O", None, false), [4, 2]) ==
              GameState([X, X, X, O, O, e, e, e, e], X, "Player X wins!", Some([0, 1, 2]), true)
  {
    Passes([X, X, e, O, e, e, e, e, e], O, "Player O", 4, 2, [X, X, e, O, O, e, e, e, e], X, "Player X");
    assert FirstWon([X, X, X, O, O, e, e, e, e], 0);
    Wins([X, X, e, O, O, e, e, e, e], X, "Player X", 2, [X, X, X, O, O, e, e, e, e], 0, "Player X wins!");
    Play2(GameState([X, X, e, O, e, e, e, e, e], O, "Player O", None, false), 4, 2,
      GameState([X, X, e, O, O, e, e, e, e], X, "Player X", None, false),
      GameState([X, X, X, O, O, e, e, e, e], X, "Player X wins!", Some([0, 1, 2]), true));
  }

  /** The whole top-row game from the empty board. */
  lemma TopRowAllFive()
    ensures Play(GameState([e, e, e, e, e, e, e, e, e], X, "Player X", None, false), [0, 3, 1, 4, 2]) ==
              GameState([X, X, X, O, O, e, e, e, e], X, "Player X wins!", Some([0, 1, 2]), true)
  {
    TopRowOpening();
    TopRowFinish();
    PlayThrough(GameState([e, e, e, e, e, e, e, e, e], X, "Player X", None, false), [0, 3, 1],
      GameState([X, X, e, O, e, e, e, e, e], O, "Player O", None, false), [4, 2],
      GameState([X, X, X, O, O, e, e, e, e], X, "Player X wins!", Some([0, 1, 2]), true));
    JoinFive(0, 3, 1, 4, 2);
  }

  /** X takes the top row in five clicks: the game is over and the row is reported. */
  lemma TopRowWin()
    ensures var s := Play(CreateInitialGameState(), [0, 3, 1, 4, 2]);
      s.isGameOver && s.winnerLine == Some([0, 1, 2]) && s.status == "Player X wins!"
  {
    InitialState();
    TopRowAllFive();
  }

  /** The first three clicks of the drawn game fill the top row X O X. */
  lemma DrawOpening()
    ensures Play(GameState([e, e, e, e, e, e, e, e, e], X, "Player X", None, false), [0, 1, 2]) ==
              GameState([X, O, X, e, e, e, e, e, e], O, "Player O", None, false)
  {
    Passes([e, e, e, e, e, e, e, e, e], X, "Player X", 0, 1, [X, e, e, e, e, e, e, e, e], O, "Player O");
    Passes([X, e, e, e, e, e, e, e, e], O, "Player O", 1, 2, [X, O, e, e, e, e, e, e, e], X, "Player X");
    Passes([X, O, e, e, e, e, e, e, e], X, "Player X", 2, 3, [X, O, X, e, e, e, e, e, e], O, "Player O");
    Play3(GameState([e, e, e, e, e, e, e, e, e], X, "Player X", None, false), 0, 1, 2,
      GameState([X, e, e, e, e, e, e, e, e], O, "Player O", None, false),
      GameState([X, O, e, e, e, e, e, e, e], X, "Player X", None, false),
      GameState([X, O, X, e, e, e, e, e, e], O, "Player O", None, false));
  }

  /** The middle three clicks fill the middle row X O O. */
  lemma DrawMiddle()
    ensures Play(GameState([X, O, X, e, e, e, e, e, e], O, "Player O", None, false), [4, 3, 5]) ==
              GameState([X, O, X, X, O, O, e, e, e], X, "Player X", None, false)
  {
    Passes([X, O, X, e, e, e, e, e, e], O, "Player O", 4, 3, [X, O, X, e, O, e, e, e, e], X, "Player X");
    Passes([X, O, X, e, O, e, e, e, e], X, "Player X", 3, 5, [X, O, X, X, O, e, e, e, e], O, "Player O");
    Passes([X, O, X, X, O, e, e, e, e], O, "Player O", 5, 6, [X, O, X, X, O, O, e, e, e], X, "Player X");
    Play3(GameState([X, O, X, e, e, e, e, e, e], O, "Player O", None, false), 4, 3, 5,
      GameState([X, O, X, e, O, e, e, e, e], X, "Player X", None, false),
      GameState([X, O, X, X, O, e, e, e, e], O, "Player O", None, false),
      GameState([X, O, X, X, O, O, e, e, e], X, "Player X", None, false));
  }

  /** The last three clicks fill the bottom row O X X; the last one ends the game in a draw. */
  lemma DrawEnd()
    ensures Play(GameState([X, O, X, X, O, O, e, e, e], X, "Player X", None, false), [7, 6, 8]) ==
              GameState([X, O, X, X, O, O, O, X, X], X, "It's a draw!", None, true)
  {
    Passes([X, O, X, X, O, O, e, e, e], X, "Player X", 7, 6, [X, O, X, X, O, O, e, X, e], O, "Player O");
    Passes([X, O, X, X, O, O, e, X, e], O, "Player O", 6, 8, [X, O, X, X, O, O, O, X, e], X, "Player X");
    Draws([X, O, X, X, O, O, O, X, e], X, "Player X", 8, [X, O, X, X, O, O, O, X, X]);
    Play3(GameState([X, O, X, X, O, O, e, e, e], X, "Player X", None, false), 7, 6, 8,
      GameState([X, O, X, X, O, O, e, X, e], O, "Player O", None, false),
      GameState([X, O, X, X, O, O, O, X, e], X, "Player X", None, false),
      GameState([X, O, X, X, O, O, O, X, X], X, "It's a draw!", None, true));
  }

  /** The whole drawn game from the empty board. */
  lemma DrawAllNine()
    ensures Play(GameState([e, e, e, e, e, e, e, e, e], X, "Player X", None, false), [0, 1, 2, 4, 3, 5, 7, 6, 8]) ==
              GameState([X, O, X, X, O, O, O, X, X], X, "It's a draw!", None, true)
  {
    DrawOpening();
    DrawMiddle();
    DrawEnd();
    JoinNine(0, 1, 2, 4, 3, 5, 7, 6, 8);
    PlayThrough(GameState([e, e, e, e, e, e, e, e, e], X, "Player X", None, false), [0, 1, 2],
      GameState([X, O, X, e, e, e, e, e, e], O, "Player O", None, false), [4, 3, 5],
      GameState([X, O, X, X, O, O, e, e, e], X, "Player X", None, false));
    PlayThrough(GameState([e, e, e, e, e, e, e, e, e], X, "Player X", None, false), [0, 1, 2, 4, 3, 5],
      GameState([X, O, X, X, O, O, e, e, e], X, "Player X", None, false), [7, 6, 8],
      GameState([X, O, X, X, O, O, O, X, X], X, "It's a draw!", None, true));
  }

  /**
   * Nine clicks fill the board as X O X / X O O / O X X with no line won:
   * the game ends in a draw with no line to highlight.
   */
  lemma DrawGame()
    ensures var s := Play(CreateInitialGameState(), [0, 1, 2, 4, 3, 5, 7, 6, 8]);
      s.isGameOver && s.winnerLine == None && s.status == "It's a draw!"
  {
    InitialState();
    DrawAllNine();
  }

  /**
   * A controller that took one click and was then reset shows X to move
   * and offers X the top-left square again.
   */
  method ResetAfterClick() returns (status: string, ariaLabel: string)
    ensures status == "Player X" && ariaLabel == "Place X at row 1 column 1"
  {
    var c := new Controller();
    c.Click(0);
    c.Reset();
    status := c.game.status;
    ariaLabel := SquareAriaLabel(c.game.board[0], c.game.currentPlayer, 0, c.game.isGameOver);
    TopLeftLabelBefore();
  }
}
