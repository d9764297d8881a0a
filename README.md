# Tic-tac-toe on a 3x3 board: a Dafny model

This project models the game engine of a console tic-tac-toe program written
in C (`main.c`) and proves properties of it. The program works like this:

- It allocates a 3x3 `char` board and labels each cell with its move
  number `'1'`..`'9'`.
- It then alternates turns between X and O, X first.
- On each turn, the player is asked for a move until one is accepted. A
  move outside 1..9 is rejected. A move onto a cell that already holds
  `'X'` or `'O'` is rejected. Otherwise the player's symbol is written into
  the cell `((move-1)/3, (move-1)%3)`.
- After each accepted move, `checkWin` is asked first whether the mover has
  three in a row. Only then is `checkDraw` asked whether every cell is
  occupied.
- A win or a draw ends the game. Otherwise the turn passes to the other
  player.

The modules follow the program's parts:

- `Board` (`board.dfy`) has the board, the players, the numbering of moves
  and cells, and the labelling of a fresh board. The board is an
  `array2<char>`, as in the C program. `Snapshot` turns it into a value
  `Grid` (the nine cells in row-major order) for the specifications to talk
  about.
- `Rules` (`rules.dfy`) holds the reference definitions. `Wins` says that
  some row, column or diagonal is entirely the player's. `IsFull` says that
  every cell holds X or O. It also holds `CheckWin` and `CheckDraw`, the
  scans of the C functions. Each is a method over the array, proved equal
  to its reference definition.
- `MoveInput` (`move_input.dfy`) models `getPlayerMove`. `TryMove` is one
  attempt on the array. `GetPlayerMove` is the retry loop. `Classify`,
  `Place` and `Turn` are their value-level specifications.
- `GameLoop` (`game_loop.dfy`) models the loop of `main`. `Run` and `Game`
  are the game as a function of the inputs. `PlayGame` is the loop over the
  array, proved equal to `Game`. The lemmas prove:
  - the players alternate;
  - a game ends after at most nine moves;
  - every accepted move marks a cell that was free;
  - a game ends as a win exactly when the mover completes a line, checked
    before a draw.
- `Scenarios` (`scenarios.dfy`) has three finished games and one that runs
  out of input, each computed move by move:
  - a win on the first column;
  - a draw on a full board;
  - a win on the ninth move, which fills the board;
  - a turn with an out-of-range input and an input naming a taken cell.

The keyboard is replaced by a sequence of integers, one per `scanf` call.
A game result is a `GameEnd`. It holds the final status, the final board
and the accepted moves in order. The status is `Won(p)`, `Draw`, or
`AwaitingMove(p)` when the inputs ran out before the game ended.

## Model

| member | source | states |
|---|---|---|
| Board.Other | main.c:77 | the player to move next is never the one who just moved |
| Board.OtherOther | main.c:77 | switching the player twice gives back the same player |
| Board.MoveToCell | main.c:142-143 | every move 1..9 names an on-board cell; that cell's move number is the move again; the cell's initial label is the move's digit |
| Board.CellToMove | main.c:142-143 | every cell is named by a move in 1..9, and that move leads back to the same row and column; with MoveToCell, the moves and cells are in bijection |
| Board.MovesDistinctCells | main.c:142-143 | two different moves never name the same cell |
| Board.Initial | main.c:31-35 | the fresh board holds, in cell (i, j), the character '1' + 3i + j |
| Board.InitialLabels | main.c:31-35 | on the fresh board, the cell of each move shows that move's digit and is not occupied |
| Board.InitBoard | main.c:31-35 | the nested loop leaves every cell of a new 3x3 array holding its label, so the array equals the fresh board |
| Rules.FilledIff | main.c:100-114 | a line is entirely p exactly when its three cells, given as move numbers, are p |
| Rules.RowColumnFilled | main.c:103-104 | row i is entirely p iff board[i][0..2] are p; column i is entirely p iff board[0..2][i] are p |
| Rules.DiagonalsFilled | main.c:109-110 | the main diagonal and the anti-diagonal are entirely p iff their three cells are p |
| Rules.WinsIffEightLines | main.c:100-114 | a player wins exactly when one of the eight lines 1-2-3, 4-5-6, 7-8-9, 1-4-7, 2-5-8, 3-6-9, 1-5-9, 3-5-7 holds only that player's symbol |
| Rules.InitialUndecided | main.c:31-35 | the freshly labelled board gives no symbol a line, and is not full |
| Rules.FullIffNine | main.c:117-126 | the board is full exactly when nine cells are occupied |
| Rules.CountUpdate | main.c:145 | writing one cell changes the occupied count only by what that cell held before and holds after |
| Rules.CheckWin | main.c:100-114 | the scan (rows and columns by index, then both diagonals, returning early) returns true iff the player has a complete line |
| Rules.CheckDraw | main.c:117-126 | the row-major scan returns true iff every cell holds 'X' or 'O' |
| MoveInput.ClassifyCases | main.c:139-148 | an input is invalid exactly outside 1..9, taken exactly on an occupied cell, and placed exactly on a free cell in range; the three cases are exhaustive and exclusive |
| MoveInput.Place | main.c:144-145 | after a placement, the designated cell holds the player and every other cell is unchanged |
| MoveInput.PlaceAt | main.c:144-145 | after a placement, the cell of move m holds the player if m is the placed move, and is as before otherwise |
| MoveInput.PlaceCount | main.c:144-146 | an accepted move sets exactly its own cell to the player, and the occupied count grows by exactly one |
| MoveInput.TryMove | main.c:139-150 | one attempt: the outcome is the classification of the move on the board before; a rejected move leaves the array unchanged; an accepted move leaves exactly the placement |
| MoveInput.TurnStarves | main.c:133-152 | the retry loop runs out of inputs exactly when no input is acceptable |
| MoveInput.TurnAccepts | main.c:133-152 | a turn that moves accepts the first acceptable input n: it places that input on its cell, every input before n was rejected, and the inputs after n are left for later |
| MoveInput.GetPlayerMove | main.c:129-154 | the loop over the array consumes inputs from `start` up to `next` exactly as Turn does; when the inputs run out, nothing is placed and the array is unchanged |
| GameLoop.Run | main.c:52-77 | every accepted move consumes an input, so a game never logs more moves than there are inputs |
| GameLoop.RunAlternates | main.c:76-77 | the logged moves alternate strictly between the players, starting with the player to move |
| GameLoop.RunNext | main.c:76-77 | a game awaiting a move awaits the starting player after an even number of moves and the other player after an odd number |
| GameLoop.RunLastMover | main.c:65-74 | a game that ended has at least one move, and a win belongs to the player who moved last |
| GameLoop.PlaceKeepsOtherLosing | main.c:144-145 | marking a cell for one player never completes a line for the other |
| GameLoop.RunOutcome | main.c:57-74 | from an undecided board: a win leaves the winner with a line and the loser without one; a draw leaves a full board with no line for either; a game awaiting a move is still undecided |
| GameLoop.WinPrecedence | main.c:65-74 | a turn that completes the mover's line ends in a win even when it also fills the board |
| GameLoop.RunFree | main.c:144-146 | every accepted move names a cell in 1..9 that was free when the game started |
| GameLoop.RunDistinct | main.c:144-146 | no cell is accepted twice |
| GameLoop.RunKeepsUnmarked | main.c:144-145 | a cell that no accepted move names ends the game as it started |
| GameLoop.RunShown | main.c:145 | at the end, every accepted move's cell shows the symbol of the player who made it |
| GameLoop.RunCount | main.c:144-146 | the occupied count grows by exactly one per accepted move |
| GameLoop.RunLength | main.c:52-77 | a game from an undecided board accepts at most 9 - Count(start) moves; one still awaiting a move has fewer |
| GameLoop.GameTurns | main.c:40-78 | in a whole game X moves first and the players alternate; there are at most nine moves; a game awaiting a move awaits the player whose turn it is; a win belongs to the player who moved last |
| GameLoop.GameCells | main.c:31-35 | at the end of a whole game, each logged cell shows its player, no cell is logged twice, and every unlogged cell still shows its digit |
| GameLoop.GameOutcome | main.c:52-77 | a whole game that is won leaves the winner with a line and the loser without one; a draw leaves a full board with no line for either; a game awaiting a move is undecided |
| GameLoop.PlayGame | main.c:22-83 | the loop over the array (label the board, X first, move, check win, then draw, switch) returns exactly Game(inputs) |
| Scenarios.ColumnWin | main.c:40-78 | inputs 1, 2, 4, 5, 7: X wins on the first column after five moves |
| Scenarios.Drawn | main.c:40-78 | inputs 1, 2, 3, 5, 4, 7, 8, 6, 9: a draw after the ninth move on the board XOX/XOO/OXX |
| Scenarios.LastCellWin | main.c:65-74 | inputs 1, 2, 3, 4, 5, 6, 8, 7, 9: X's ninth move fills the board and completes 1-5-9, and the game is a win for X, not a draw |
| Scenarios.Retries | main.c:129-154 | after X takes 5, O's inputs 10 (out of range) and 5 (taken) are rejected and O takes 1; the inputs then run out with X to move |

## Left out

- Console output is not modelled: `displayBoard` (main.c:86-97), the welcome banner (main.c:43), the prompts and error messages (main.c:136, 140, 148) and the result messages (main.c:66, 72). None of it changes the board or the game. The log of accepted moves in `GameEnd` stands for the board renders.
- Threads and the mutex are not modelled (main.c:37-38, 47-50, 55-56, 59-60, 81, 134, 151). Each player's thread is joined before the main loop goes on, so a move runs as a plain call.
- Allocation failure (main.c:24-28) and `free` (main.c:80) are not modelled. Dafny's `new` cannot fail.
- `scanf` is modelled as reading the next integer of a given sequence. A non-numeric token or end of input leaves `move` as it was, or uninitialised, in the C program. That behaviour is undefined or loops forever, so it is not modelled. When the sequence runs out, the model stops the game with `AwaitingMove`, where the C program would block or spin.
- The inputs are unbounded integers instead of 32-bit `int`. This changes nothing: every `int` outside 1..9 fails the range check, and `(move - 1) / 3` and `% 3` are only computed for 1..9, where C and Dafny agree.
- The `move` field of `PlayerData` (main.c:11, 48-49) is never read, so it is not modelled.
- The `break` after a win (main.c:67) is modelled as skipping the draw check and the switch, so the loop ends on its own guard. The `break` after a draw (main.c:73) is modelled the same way. Both give the same result.
- GameLoop.Run: its own contract only bounds the log length. What the game does is proved about it in the lemmas of GameLoop.
