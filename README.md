# Tic-tac-toe engine of `script.js`, modelled in Dafny

The page runs a two-player game of tic-tac-toe on nine cells. A click on a
blank cell of a running game puts the current player's mark there. The game
then checks the eight lines of the board for a win, then checks for a draw,
and only when neither ended the game does the turn pass to the other
player. Finished games bump one of three counters (O wins, X wins, draws),
which are kept in the browser's local store. `restart` clears the board and
keeps the scores; `resetScores` zeroes the counters once the user confirms.

The project has four modules:

- `Board` (board.dfy): cells, players, the table `wins` of the eight lines,
  the first-owned-line scan `FirstWin`, and the cell counts.
- `GameSpec` (game_spec.dfy): the whole game state as one value
  (`GameState`) and each handler as a function from the state before to the
  state after (`Step` for a click, `Restarted`, `ScoresReset`, `Saved`,
  `Loaded`). It also defines the invariant `Consistent` that every reachable
  state satisfies, with the lemmas that prove the game's promises.
- `TicTacToe` (game.dfy): class `Game`, the imperative form of the script.
  Its fields are the script's module-level variables, and the nine DOM cells
  are an `array<Cell>`. Each method is proved to change the state exactly as
  the matching `GameSpec` function says. The handlers a user can trigger
  keep `Valid()`, which is `Consistent` of the current state.
- `Scenarios` (scenarios.dfy): whole games played from a blank page through
  the click handler: a top-row win, a draw, and a ninth move that wins.

One `Cell` value (`Blank` or `Marked(p)`) stands for both a cell's
`innerText` and its `dataset.status`. The source always writes the two
together: `""` with `"blank"`, a mark with `"filled"`. The click guard reads
the status and the win check reads the text, and here both read the one
value. The cells start blank. That comes from the page's markup, and the
markup is not part of this model.

Two behaviours of the code worth noting:

- A draw needs `filledElements >= 9` (script.js:152). The invariant shows
  that this is the same as `== 9`, because the count never exceeds nine.
- `loadScores` has no fallback to zero. Any stored record replaces `scores`
  as it is (script.js:31-32).

## Model

| member | source | states |
|---|---|---|
| Board.Opponent | script.js:108 | the player after the switch is always the other one |
| Board.FirstWinFrom | script.js:114-122 | the scan of `wins` from position k returns a line the player owns with no owned line before it in the range, or none when no line in the range is owned |
| Board.FirstWin | script.js:22-26 | the reported line exists exactly when the player owns some line of `wins`; it is owned, and no line declared before it is owned (rows, then columns, then diagonals) |
| Board.WinsInRange | script.js:22-26 | the table has eight lines, each naming three of the nine cells |
| Board.CountUpdate | script.js:86-87 | writing one cell changes the count of any cell value only by the value that left and the value that came in |
| Board.CountPartition | script.js:88 | blank, O and X cells add up to the board's size, so the number of marked cells is bounded by nine |
| Board.FilledAfterMark | script.js:86-88 | marking a blank cell for p adds one p mark, no mark of the other player, and one filled cell |
| Board.MarkKeepsNoWin | script.js:117-119 | a mark for p never completes a line for the other player |
| Board.EmptyBoardFacts | script.js:191-193 | the cleared board has no mark and no completed line for either player |
| GameSpec.ConsistentFilled | script.js:88 | in every reachable state `filledElements` equals nine minus the blank cells, and so is at most nine |
| GameSpec.StepGuard | script.js:75-77 | a click on something other than a cell, on a non-blank cell, or after the game is over leaves board, counter, turn, flag, scores and store unchanged; an accepted click always changes the board |
| GameSpec.StepWrites | script.js:86-88 | an accepted move writes the current player's mark into exactly that cell, leaves the other eight alone, and raises both `filledElements` and the number of marked cells by one |
| GameSpec.StepOutcome | script.js:98-108 | a move that completes a line ends the game as a win for the mover, even on the ninth cell; a move without a line that counts nine cells ends it as a draw; otherwise the game goes on with the other player to move and scores and store untouched; after a win or draw `currentPlayer` still names the mover |
| GameSpec.StepScores | script.js:125-127 | a click ends at most one game; a game that ends raises the total score by exactly one, through O's counter on O's win, X's on X's win, or the draw counter on a draw; a click that does not end a game leaves the scores alone, and a finished game is frozen |
| GameSpec.AfterMoveConsistent | script.js:84-110 | `makeMove` on a blank cell of a running game keeps the invariant: count matches the board, marks alternate O, X, O, ..., a finished game was won by the last mover or filled all nine cells, and a running game has no line and a free cell |
| GameSpec.StepConsistent | script.js:71-81 | every click, accepted or not, keeps the invariant |
| GameSpec.RestartedConsistent | script.js:184-198 | `restart` gives O to move, a zero count, a running game and a cleared board, keeps scores and store, and the result satisfies the invariant, as does the initial state |
| GameSpec.ScoresResetZero | script.js:208-211 | a confirmed reset sets all three counters to zero and stores them, an unconfirmed one changes nothing, and the game itself is never touched |
| GameSpec.SaveLoad | script.js:29-40 | what `saveScores` stores, `loadScores` reads back unchanged |
| GameSpec.RunConsistent | script.js:71-81 | any sequence of clicks, restarts and score resets keeps the invariant |
| GameSpec.SessionConsistent | script.js:228-229 | every state reachable from the script's start, after the stored scores are loaded, satisfies the invariant |
| TicTacToe.Game.constructor | script.js:2-9 | the start state: O to move, nothing filled, not over, zero scores, blank cells, the store as found; the invariant holds |
| TicTacToe.Game.LoadScores | script.js:29-35 | a stored record replaces `scores`; without one nothing changes |
| TicTacToe.Game.SaveScores | script.js:38-40 | the store holds the current record afterwards |
| TicTacToe.Game.Click | script.js:71-81 | the handler changes the state exactly as `Step` does and keeps the invariant |
| TicTacToe.Game.MakeMove | script.js:84-110 | the move changes the state exactly as `AfterMove` does and keeps the invariant |
| TicTacToe.Game.CheckWin | script.js:113-139 | the loop over `wins` reports a win exactly when the current player owns a line, hands the first such line's cells to the highlighting, and on a win sets `gameOver`, bumps that player's counter and saves |
| TicTacToe.Game.CheckDraw | script.js:151-165 | reports a draw exactly when nine or more cells are counted, and then sets `gameOver`, bumps the draw counter and saves |
| TicTacToe.Game.Restart | script.js:184-198 | the loop over the cells clears all nine; the state becomes `Restarted` of the old one and satisfies the invariant |
| TicTacToe.Game.ResetScores | script.js:208-212 | on confirmation the counters become zero and are saved; the game is not touched |
| Scenarios.TopRowScenario | script.js:114-127 | clicks 0, 3, 1, 4, 2 from a blank page: O wins on the top row (the first line of `wins`) at the fifth move, O's counter becomes 1 and is saved |
| Scenarios.DrawScenario | script.js:151-155 | clicks 0, 1, 2, 4, 3, 5, 7, 6, 8 fill the board without a line: a draw, only the draw counter becomes 1, and O, the last mover, is still named |
| Scenarios.NinthMoveWinScenario | script.js:98-105 | clicks 0, 1, 2, 3, 5, 4, 7, 6, 8: the ninth move fills the board and completes the right column, and it is counted as O's win, not a draw |

## Left out

- Styling and display: the mark colours, `updateScoreBoard`,
  `updateTurnIndicator` with its animation timer, the styling done by
  `highlightWinningCells` and `showPopup`/`hidePopup`
  (script.js:43-58, 90-95, 128-133, 141-181). They only read the state.
  `CheckWin` returns the cells it would highlight.
- The sidebar and the keyboard and page-load wiring
  (script.js:60-68, 232-269). The `r` key calls `restart`, which is
  modelled.
- The local store and JSON: `localStorage` is the field `saved`, which holds
  a score record or nothing. Encoding, decoding, and `JSON.parse` throwing
  on a malformed entry are not modelled. Neither is a stored object that
  lacks a counter, after which the script would count `NaN`.
  Store access is assumed to succeed. In a browser, `setItem` can throw on
  a full or disabled store (script.js:39, reached from 127 and 155) after
  `gameOver` and the counter are already set, and then nothing is saved.
  In the model, every finished game sets `saved`.
- The `confirm` dialog of `resetScores` is an input (`confirmed`). The
  button's feedback text and its two-second timer (script.js:215-223) are
  left out.
- Number precision: counters are unbounded naturals. JavaScript numbers are
  doubles, but they stay exact far beyond any score a player reaches.
- Cell indices outside 0-8: the page has exactly nine cells, so a clicked
  cell's index has the type `CellIndex` (0 to 8). A click on any other
  element of the container is the `Elsewhere` target and is rejected as in
  the source.
