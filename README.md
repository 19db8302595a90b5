# Tic-tac-toe game logic

A Dafny model of the game logic in `task3-script.js`: a 3x3 tic-tac-toe
board played by two people, or by one person as X against a built-in
opponent that plays O. The model keeps the script's state and its
handlers, and proves what each handler does to that state.

The model has four modules:

- `Rules` (`rules.dfy`) holds the pure part of the game:
  - the marks, the board and the eight winning combinations;
  - the scan for the first complete line;
  - `Outcome`, the status a move produces: a win announced for the mover, a draw, or the next player's turn.
- `Heuristic` (`heuristic.dfy`) holds `AiChoice`. It is the cell the opponent marks, stated as a function of the board, tier by tier: win now, block, centre, random. It also holds the lemmas that characterise each tier.
- `TicTacToe` (`game.dfy`) is the class `Game`. Its fields are the script's own state:
  - `board`, an array of nine marks that stands for `gameState`;
  - `gameActive`, `currentPlayer` and `aiMode`;
  - `status`, the status text, plus the highlighted line on a win;
  - `pendingAi`, the number of `makeAiMove` calls that are scheduled and have not run yet.

  The handlers are methods with loops, as in the script. Each one is proved against the functions of `Rules` and `Heuristic`, and each keeps the invariant `Valid`.
- `Playthroughs` (`playthroughs.dfy`) checks the opponent's tiers on concrete boards. It also plays whole click-and-timer sequences on a `Game`. These sequences show how the script behaves when opponent calls are scheduled twice or survive a reset.

The script sets a `setTimeout(makeAiMove, 500)` in two places. Each one adds one to `pendingAi`. The method `FireAiTimer` stands for one of those timers firing: it takes one off the count and runs `MakeAiMove`.

The script has four behaviours that the model keeps as written:

- **Double scheduling.** In a game against the opponent, a click by X that leaves the game running schedules two opponent calls: one from `checkResult` and one from `cellClicked`. `CellClicked` states this through `Settled(..., 2)`.
- **No turn check.** `makeAiMove` places O whoever's turn it is. `DoubleScheduling` shows the second call placing O on X's turn and handing the turn to O. The human's next click then marks an O.
- **Winner taken from `currentPlayer`.** A win is announced for `currentPlayer`, not for the mark on the line (`Outcome` ensures `winner == mover`).
- **Reset does not cancel scheduled calls.** Pending calls run on the new board. `ResetRace` shows this: after one click and a reset, the three calls that follow fill the O diagonal without a single click. The win is then announced for X.

## Model

| member | source | states |
|---|---|---|
| `Rules.Other` | task3-script.js:121 | the player to move next is the other player |
| `Rules.FirstWinFrom` | task3-script.js:83-95 | the result is the first complete line at or after position `k` of the winning combinations; `None` means no such line exists |
| `Rules.FirstWin` | task3-script.js:15-24 | the result is the position of the first complete winning combination in list order; it is `None` exactly when no line is complete |
| `Rules.Outcome` | task3-script.js:97-121 | the status is a win exactly when some line is complete. A win names the mover and the first complete line. A draw happens exactly when no line is complete and no cell is empty. Otherwise the turn goes to the other player |
| `Rules.EmptyBoardIsOpen` | task3-script.js:5 | a new board has no complete line and a free cell |
| `Heuristic.EmptyCellsBelow` | task3-script.js:138-142 | the result holds exactly the empty cells below `n`, in ascending order |
| `Heuristic.EmptyCells` | task3-script.js:137-142 | the available moves are exactly the empty cells, in ascending order; the list is empty exactly when the board is full |
| `Heuristic.FirstCompleting` | task3-script.js:145-166 | the result is the first candidate whose trial mark completes a line, and no earlier candidate does; `None` exactly when no candidate does |
| `Heuristic.AiChoice` | task3-script.js:144-211 | the opponent always marks an empty cell |
| `Heuristic.FirstCompletingIsSmallest` | task3-script.js:145-166 | the scan over the available moves finds a cell exactly when some empty cell completes a line, and that cell is the smallest such cell |
| `Heuristic.AiChoiceTiers` | task3-script.js:144-211 | the four tiers in order: the smallest empty cell that wins for O; else the smallest that completes X; else cell 4 if it is free; else the drawn position of the available moves |
| `Heuristic.AiTakesWin` | task3-script.js:145-166 | when O can win at once, the opponent's move completes a line |
| `Heuristic.CompletesIffThreat` | task3-script.js:149-157 | while no line is complete, a trial mark on a free cell completes a line exactly when that cell lies on a line holding the mark twice with its third cell free |
| `Heuristic.CanCompleteIffThreat` | task3-script.js:145-189 | while no line is complete, some trial mark completes a line exactly when some line holds that mark twice with its third cell free |
| `TicTacToe.Game.constructor` | task3-script.js:45-50 | a new game is running with X to move on an empty board, in the selected mode, with nothing scheduled |
| `TicTacToe.Game.CellClicked` | task3-script.js:54-75 | a click on an occupied cell, on an index outside the board or after the game has stopped changes nothing. Otherwise exactly that cell gets the current player's mark and the state is the one `Outcome` gives. With the opponent on, a game still running with O to move gains two scheduled calls |
| `TicTacToe.Game.CheckResult` | task3-script.js:78-128 | the status is `Outcome` of the board for the current player. On a win or a draw the game stops and the current player stays. Otherwise the player swaps, and an O turn with the opponent on schedules one call |
| `TicTacToe.Game.FindWin` | task3-script.js:83-95 | the scan returns the first complete winning combination, if there is one |
| `TicTacToe.Game.HasLineOf` | task3-script.js:149-157 | the result is true exactly when some line holds the given mark in all three cells |
| `TicTacToe.Game.TrialScan` | task3-script.js:145-166 | each trial mark is undone until one completes a line. The cell found is the one `FirstCompleting` gives, and only that trial mark stays on the board |
| `TicTacToe.Game.PlaceO` | task3-script.js:192-198 | O goes on the given cell, and the state is the one `CheckResult` gives |
| `TicTacToe.Game.MakeAiMove` | task3-script.js:131-212 | after the game has stopped, nothing changes. Otherwise exactly the cell `AiChoice` gives becomes O, whoever's turn it is, and the result is checked for the player whose turn it was |
| `TicTacToe.Game.FireAiTimer` | task3-script.js:72-73 | one scheduled call runs: the count drops by one and the state is the one `MakeAiMove` gives |
| `TicTacToe.Game.ResetGame` | task3-script.js:215-225 | the game runs again with X to move on a new empty board. The mode is kept, and scheduled calls are kept too |
| `TicTacToe.Game.ChangeGameMode` | task3-script.js:228-231 | the mode is the one selected, and the game is reset |
| `Playthroughs.OpponentTakesWin` | task3-script.js:145-166 | with two O's on the top row and its third cell free, the opponent marks that cell for any random draw |
| `Playthroughs.OpponentBlocks` | task3-script.js:168-190 | with two X's on the top row and no O win available, the opponent blocks the third cell |
| `Playthroughs.OpponentTakesCentre` | task3-script.js:192-199 | on an empty board the opponent takes the centre |
| `Playthroughs.DiagonalWin` | task3-script.js:145-166 | with O in a corner and the centre, the opponent completes the diagonal at 8 |
| `Playthroughs.TopRowGame` | task3-script.js:54-128 | in a two-player game where X plays 0, 1, 2 and O plays 4, 8, X is announced as winner of the top row, the game stops, and a later click is rejected |
| `Playthroughs.CornerClick` | task3-script.js:72-73 | X's first click against the opponent schedules two opponent calls |
| `Playthroughs.DoubleScheduling` | task3-script.js:72-73 | after X's first click against the opponent, both scheduled calls place an O. The second comes on X's turn, and the turn then goes to O with one call still scheduled |
| `Playthroughs.ResetRace` | task3-script.js:215-218 | scheduled calls survive a reset. On the new board they fill the O diagonal without a click, and the win is announced for X |

## Left out

- DOM work is not modelled: the cells' text and classes, the highlighting of the winning cells, and the event-listener wiring. `status` records what the status line says and which line is highlighted.
- The checked radio button that `initGame` and `changeGameMode` read is not modelled: the mode comes in as a boolean.
- Reading and parsing the clicked cell's `data-index` attribute is not modelled: the index arrives as an integer. A `NaN` from `parseInt` reads `gameState[NaN]`, which is `undefined`, so it is rejected like an index off the board. The model stands for it with any integer outside 0..8.
- `Math.random` is not modelled: the random tier takes a position `r` that the caller supplies. It must lie within the available moves, which is exactly the range `Math.floor(Math.random() * length)` yields.
- The 500 ms delay of `setTimeout` is not modelled. Only the count of scheduled calls is kept, and `FireAiTimer` runs one call whenever the caller chooses, so every interleaving of clicks and timers can be expressed.
- The status strings are replaced by the `Status` datatype.
- `makeAiMove`'s loops are split into the methods `TrialScan`, `HasLineOf` and `PlaceO`. The script has them inline. The order of reads and writes is the same.
- `CheckResult`'s scan over the winning combinations is the method `FindWin`. The script has it inline.
