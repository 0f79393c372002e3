# Tic-tac-toe rules and game state, in Dafny

This project models the core of a browser tic-tac-toe game (the
`tic_tac_toe_frontend` React app) and proves what it promises.

- `game.dfy` (module `Game`) is the rule engine of `src/game.js`. It has three
  total, pure functions over a board of cells:
  - `CalculateWinner` scans the eight lines in a fixed order and reports the
    first one whose three cells hold the same mark.
  - `IsDraw` holds of a full board with no winner.
  - `IsValidMove` holds of an in-range index whose cell is empty.
- `app.dfy` (module `App`) is the game-state controller of `src/App.js`:
  - the `GameState` record and the fresh state `CreateInitialGameState`;
  - `ApplyMove`, the state update that `handleSquareClick` performs;
  - the square helpers `IndexToRowCol` and `SquareAriaLabel`;
  - the class `Controller`, whose `game` field is the component's live state.
    `Click` replaces that state the way `handleSquareClick` does, with the
    same early returns. `Reset` replaces it with a fresh state, as
    `resetGame` does.
- `scenarios.dfy` (module `Scenarios`) plays the click sequences of
  `src/App.test.js` on the model from a fresh game. The test's square
  (row r, column c) is index (r - 1) * 3 + (c - 1).
- `wrappers.dfy` holds `Option`. It stands for the JavaScript `null` results.

Boards are `seq<Cell>`, where `Cell` is `Empty | X | O`. Only sequences of
length 9 are real boards; every rule function gives its "nothing" answer for
the others, as the source's length guards do. A player's mark is the subset
type `Mark` (a cell other than `Empty`).

Most properties are proved about the pure transition `ApplyMove`. The
invariant `Consistent` is the link to the live state: the controller keeps it
(`Controller.Valid`). It holds of every state a game can reach:

- X and O alternate, with X first.
- The game is over exactly when a line is won or the board is full.
- The status text and the winning line are the ones the board calls for.
- Every won line belongs to the current player.

## Model

| member | source | states |
|---|---|---|
| `Game.CalculateWinner` | tic_tac_toe_frontend/src/game.js:16-17 | A sequence that is not a 9-cell board has no winner. |
| `Game.ScanFrom` | tic_tac_toe_frontend/src/game.js:31-37 | The loop over the lines with its early return, as recursion from line k on. Its contract is carried by `ScanFromNoneIff` (no result exactly when no line from k on is won), `ScanFromFindsFirst` and `ScanFromReportsFirst` (a result is the first won line from k on). |
| `Game.ScanFromNoneIff` | tic_tac_toe_frontend/src/game.js:31-38 | The loop from line k on ends without a result exactly when none of lines k..7 is won. |
| `Game.ScanFromFindsFirst` | tic_tac_toe_frontend/src/game.js:31-36 | If line i is won and no line from k up to i is, the loop from line k on returns line i with its mark. |
| `Game.ScanFromReportsFirst` | tic_tac_toe_frontend/src/game.js:31-36 | A result of the loop from line k on is a won line i with no won line between k and i, reported with its mark. |
| `Game.CalculateWinnerNoneIff` | tic_tac_toe_frontend/src/game.js:31-38 | There is no result exactly when the board is malformed or none of the eight lines holds three equal marks. |
| `Game.CalculateWinnerFindsFirst` | tic_tac_toe_frontend/src/game.js:20-37 | If line k is won and no earlier line in the scan order is, the result is line k with its mark. |
| `Game.CalculateWinnerReportsFirst` | tic_tac_toe_frontend/src/game.js:31-37 | Any result is the first won line in the scan order (rows, columns, then the two diagonals), reported with its mark. |
| `Game.CalculateWinnerSound` | tic_tac_toe_frontend/src/game.js:20-35 | A reported line is one of the eight triples of indices 0..8, and all three of its cells hold the reported winner, which is never empty. |
| `Game.EarlierLineWins` | tic_tac_toe_frontend/src/game.js:20-36 | On the board X X X / O X O / O O X, where both the top row and the main diagonal are won, the top row is reported. |
| `Game.IsDraw` | tic_tac_toe_frontend/src/game.js:47-51 | A draw is never declared on a malformed board, on a board with a winner, or on a board with an empty cell. |
| `Game.IsDrawIff` | tic_tac_toe_frontend/src/game.js:47-51 | isDraw holds exactly when the board has 9 cells, every cell is marked, and no line is won. |
| `Game.FullIffNoEmptyCell` | tic_tac_toe_frontend/src/game.js:50 | A board has every cell marked exactly when its count of empty cells is zero. |
| `Game.IsValidMove` | tic_tac_toe_frontend/src/game.js:60-65 | A move is valid exactly when the board has 9 cells, 0 <= index <= 8, and that cell is empty. |
| `Game.OutOfRangeMovesInvalid` | tic_tac_toe_frontend/src/game.js:63 | Indices -1 and 9 are rejected on every board. |
| `Game.ValidMoveFillsOneCell` | tic_tac_toe_frontend/src/game.js:60-65 | Writing a mark at a valid index lowers the count of empty cells by one and raises that mark's count by one. |
| `App.CreateInitialGameState` | tic_tac_toe_frontend/src/App.js:11-19 | The fresh state has 9 empty cells, X to move, status "Player X", no winning line, and is not over. |
| `App.MarkText` | tic_tac_toe_frontend/src/App.js:63 | A mark is shown as one character: "X" exactly for X and "O" exactly for O. |
| `App.InitialStateConsistent` | tic_tac_toe_frontend/src/App.js:11-19 | The fresh state satisfies the game invariant. |
| `App.Opponent` | tic_tac_toe_frontend/src/App.js:81 | The next player is always the other mark. |
| `App.ApplyMove` | tic_tac_toe_frontend/src/App.js:50-89 | The transition of handleSquareClick. Its contract is carried by `MoveIgnoredIff` (the early returns), `MoveWritesOneSquare` and `MoveFillsOneSquare` (the copied board with one cell written), `MoveWins`, `MoveDraws` and `MoveContinues` (the three new states), and `ApplyMovePreservesConsistent` (the invariant). |
| `App.MoveIgnoredIff` | tic_tac_toe_frontend/src/App.js:52-53 | A click leaves the state unchanged exactly when the game is over or the move is not valid. |
| `App.MoveWritesOneSquare` | tic_tac_toe_frontend/src/App.js:55-56 | An accepted click writes the current player's mark into the clicked cell, which was empty. Every other cell keeps its value and the board keeps 9 cells. The game ends exactly when the new board has a winner or is full. |
| `App.MoveFillsOneSquare` | tic_tac_toe_frontend/src/App.js:55-56 | An accepted click fills exactly one empty cell. |
| `App.MoveWins` | tic_tac_toe_frontend/src/App.js:58-67 | A click that completes a line ends the game. The first completed line in scan order becomes the winning line, the status is "Player W wins!", and the turn stays with the clicker. |
| `App.MoveDraws` | tic_tac_toe_frontend/src/App.js:70-78 | A click that fills the board without completing a line ends the game with "It's a draw!" and no winning line. The turn stays with the clicker. |
| `App.MoveContinues` | tic_tac_toe_frontend/src/App.js:81-88 | Any other accepted click passes the turn to the other player. The status becomes "Player " and that player's mark, and the game is not over. |
| `App.ApplyMovePreservesConsistent` | tic_tac_toe_frontend/src/App.js:50-89 | Every click keeps the game invariant: mark counts alternate, over exactly on a win or full board, status and winning line match the board, every won line is the current player's. |
| `App.PlayPreservesConsistent` | tic_tac_toe_frontend/src/App.js:50-89 | Any sequence of clicks from a consistent state keeps the invariant. |
| `App.GameOverIsFinal` | tic_tac_toe_frontend/src/App.js:52 | Once the game is over, no sequence of clicks changes the state. |
| `App.WinnerIsCurrentPlayer` | tic_tac_toe_frontend/src/App.js:58-66 | In a reachable state with a winner, the game is over, the winner is the current player, and the status announces that player. |
| `App.FullBoardEndsGame` | tic_tac_toe_frontend/src/App.js:70-78 | In a reachable state, a board with no empty cell means the game is over. |
| `App.TruncatedRemainder` | tic_tac_toe_frontend/src/App.js:23 | JavaScript's `%` by a positive divisor: the result lies strictly between minus and plus the divisor. For a non-negative dividend it is the mathematical remainder. For a negative dividend it is zero or negative and differs from the dividend by a multiple of the divisor, which fixes it as JavaScript's value. |
| `App.IndexToRowCol` | tic_tac_toe_frontend/src/App.js:21-25 | For index 0..8, row and column lie in 1..3 and (row - 1) * 3 + (col - 1) is the index. |
| `App.IndexToRowColRoundTrip` | tic_tac_toe_frontend/src/App.js:21-25 | Every (row, column) of the grid is produced by exactly its own index. |
| `App.NaturalTextRoundTrip` | tic_tac_toe_frontend/src/App.js:31 | The decimal text a template string gives a whole number has no leading zero and reads back as that number. |
| `App.NumberText` | tic_tac_toe_frontend/src/App.js:31 | A number 0..9 is shown as its single digit. |
| `App.SquareAriaLabel` | tic_tac_toe_frontend/src/App.js:27-39 | getSquareAriaLabel. Its contract is carried by `SquareAriaLabelNamesSquare`, which gives all three label shapes for every square of the grid. |
| `App.SquareAriaLabelNamesSquare` | tic_tac_toe_frontend/src/App.js:27-39 | The label of the square at (row, col) names those coordinates in one of three shapes: "Row r column c is V" for a marked cell, the "is empty. Game over." text for an empty cell of a finished game, and otherwise "Place P at row r column c". |
| `App.Controller.constructor` | tic_tac_toe_frontend/src/App.js:43 | The component starts with the fresh state, which satisfies the invariant. |
| `App.Controller.Click` | tic_tac_toe_frontend/src/App.js:50-89 | The click handler's early returns and writes produce exactly ApplyMove of the old state, and the invariant is kept. |
| `App.Controller.Reset` | tic_tac_toe_frontend/src/App.js:91-93 | Reset installs the fresh state, whatever came before, and the invariant holds again. |
| `Scenarios.InitialState` | tic_tac_toe_frontend/src/App.test.js:12-15 | A fresh game shows "Player X" on an empty board. |
| `Scenarios.TurnAlternates` | tic_tac_toe_frontend/src/App.test.js:17-24 | After the first click O is to move and the status is "Player O". After a second click X is to move. |
| `Scenarios.OccupiedSquareIgnored` | tic_tac_toe_frontend/src/App.test.js:26-37 | A second click on the occupied top-left square changes nothing: the status stays "Player O" and the square holds X. |
| `Scenarios.TopLeftLabelAfter` | tic_tac_toe_frontend/src/App.test.js:30-34 | After the first click, the top-left square of the resulting state is labelled "Row 1 column 1 is X". |
| `Scenarios.TopRowWin` | tic_tac_toe_frontend/src/App.test.js:40-52 | Clicks 0, 3, 1, 4, 2 end the game with "Player X wins!" and winning line [0, 1, 2]. |
| `Scenarios.DrawGame` | tic_tac_toe_frontend/src/App.test.js:54-81 | Clicks 0, 1, 2, 4, 3, 5, 7, 6, 8 end the game with "It's a draw!" and no winning line. |
| `Scenarios.ResetAfterClick` | tic_tac_toe_frontend/src/App.test.js:83-95 | After a click and a reset the status is "Player X" and the top-left square offers "Place X at row 1 column 1". |

## Left out

- React rendering is not modelled: JSX, CSS classes, the `useMemo` set of winning squares, and the buttons' `disabled` and `aria-pressed` wiring (App.js lines 45-48 and 95-145). The `useState` hook is modelled only as the `game` field of `Controller`.
- React's asynchronous `setGame` is not modelled. `Controller.Click` and `Controller.Reset` replace the state at once.
- The testing-library and `userEvent` harness is not modelled. Its click sequences are the lemmas of `Scenarios`. The unused `moves` array of the draw test is dead scaffolding.
- The dynamic type guards (`Array.isArray`, `typeof index !== 'number'`, `Number.isNaN`) are not modelled. A board is typed as a sequence of cells and an index as an integer, and the length-9 guards are kept as explicit cases.
- Fractional indices (such as 1.5) are not modelled. The JavaScript range check lets them through, but they do not exist for integer indices.
- Copy independence needs no proof here: boards and states are values, so the board of one `CreateInitialGameState` result cannot alias another, and writing the clicked cell builds a new board. The in-place write on the copied array is modelled as a sequence update.
- `App.IndexToRowCol`: the contract covers indices 0..8 only, the only ones the board passes. For negative indices the function still computes what JavaScript does (floor for the row, truncated remainder for the column), but the round trip fails there.
- `App.NumberText`: JavaScript's number-to-string conversion is modelled for integers only. That is all a row or column can be.
- "The winning line" of a board on which two lines are won is ambiguous. The code returns the first won line in scan order, and the model follows the code (`Game.EarlierLineWins`).
