# Connect-4 rules engine, modelled in Dafny

This project models the rules engine of a two-player Connect-4 game. The
engine is a single TypeScript React file. The model covers that file's
board model, its win check and its reducer. The board is `Token[][]`,
indexed `board[column][row]`: 7 columns of 6 slots, where row 0 is the
top and row 5 the bottom. A slot is `undefined` (here `Empty`) or holds a
player's disc. The players are `'player1'` and `'player2'`. A third value,
`'player0'`, is stored as the "winner" of a drawn game.

- `board.dfy` (module `Board`) has the types and the board operations.
  `GenEmptyBoard` builds the empty board. `Drop` is the board that
  `genNewBoard` returns. The method `GenNewBoard` is the source's
  copy-then-scan loop, proved equal to `Drop`. `Playable` is the meaning
  of `canPlay`, and the method `CanPlay` is its early-return loop, proved
  equal to it.
- `wincheck.dfy` (module `WinCheck`) has the win check. `Wins` is the
  reference definition: four of the player's discs in a row, in one of
  four directions, all on the board. `CheckIfWinner` runs the source's
  four nested scans in order, one helper method each, and returns early on
  a match. It is proved to compute exactly `Wins`, including the
  horizontal scan's extra pass over row 6, which reads `undefined`.
- `game.dfy` (module `Game`) has the state, the two state constructors
  and the reducer's `'turn'` and `'reset'` actions. The lemmas give the
  outcome of each branch. `Consistent` is the invariant that every reachable
  state keeps.

JavaScript reads past the end of an array as `undefined`. The model does
the same with `At`, so `canPlay` on an empty column and the win check's
read of row 6 behave as in the source. All `==` comparisons in the engine
compare a player string with `undefined` or with another player string.
They are therefore modelled as equality of `Token` values.

One would expect a finished game to accept no more moves. The reducer
never reads `winner`, so after a win it still drops further discs; only
the overlay in the UI stops them. `WinIsKept` states what does happen: the
winner and the current player stay the same, and the board keeps
changing. After a draw every column is full, so a further `'turn'` leaves
the state unchanged (`DrawIsStable`). In every state the game reaches,
a move into a full column changes nothing (`FullColumnIsNoOp`), and the
two players never both have four in a row (`NeverTwoWinners`).

## Model

| member | source | states |
|---|---|---|
| `Board.GenEmptyBoard` | src/App.tsx:10-13 | the result has 7 columns of 6 slots, every slot is `undefined`, and the board is settled |
| `Board.LastEmpty` | src/App.tsx:23-28 | the result is the highest-index empty slot of the column; None means the column has no empty slot |
| `Board.HasEmpty` | src/App.tsx:160 | the `.some(cell => cell == undefined)` test on the played column holds iff the bottom-up scan of the drop finds an empty slot |
| `Board.Drop` | src/App.tsx:15-33 | the new board has as many columns as the old one, and each column keeps its length |
| `Board.GenNewBoard` | src/App.tsx:15-33 | the copy-and-scan loop that writes the disc into the first empty slot from the bottom returns exactly `Drop` of its inputs, for any column index |
| `Board.CanPlay` | src/App.tsx:35-40 | the early-return scan returns true iff some column's top slot reads `undefined` (`Playable`) |
| `Board.DropFillsLowestEmpty` | src/App.tsx:20-31 | if the column has room, its highest-index empty slot becomes the player's disc; every other slot of that column and every other column stay unchanged; the dimensions are kept |
| `Board.DropIntoFullColumn` | src/App.tsx:22-29 | a column with no `undefined` slot, or an index that names no column, gives a board equal by value to the input |
| `Board.DropKeepsDiscs` | src/App.tsx:24-25 | a slot that held a disc before the drop holds the same disc after it |
| `Board.DropWritesOnlyMover` | src/App.tsx:24-25 | after a drop, every slot that does not hold the mover's disc is what it was before |
| `Board.DropKeepsShape` | src/App.tsx:15-33 | a 7x6 board stays 7x6, and a settled board (no empty slot below a disc) stays settled |
| `Board.PlayableIffRoom` | src/App.tsx:35-40 | on a settled 7x6 board, "some top slot is empty" holds iff some column still has an empty slot |
| `WinCheck.CheckIfWinner` | src/App.tsx:42-101 | the four fixed-window scans return true iff the player has four in a row on the board: vertically, horizontally, up-diagonally or down-diagonally |
| `WinCheck.Window` | src/App.tsx:47-52 | the four-slot test of one window (the same shape recurs at lines 61-66, 75-80 and 89-94), reading `undefined` past a column's end, matches iff those four slots lie on the board and all hold the player's disc |
| `WinCheck.ScanVertical` | src/App.tsx:44-56 | the vertical scan over rows i..i+3, i = 0..2, finds a window iff some column holds four of the player's discs one above the other |
| `WinCheck.ScanHorizontal` | src/App.tsx:59-70 | the horizontal scan over columns i..i+3 and rows 0..6 finds a window iff some row holds four adjacent discs of the player; the pass over row 6 never matches |
| `WinCheck.ScanUpDiagonal` | src/App.tsx:73-84 | the scan over (i+k, j-k), j = 5, 4, 3, finds a window iff the player has four on a rising diagonal |
| `WinCheck.ScanDownDiagonal` | src/App.tsx:87-98 | the scan over (i+k, j+k), j = 0..2, finds a window iff the player has four on a falling diagonal |
| `WinCheck.DropKeepsWins` | src/App.tsx:24-25 | any four in a row a player has before a drop is still there after it |
| `WinCheck.DropAddsNoOtherWinner` | src/App.tsx:24-25 | a drop by one player never gives another player four in a row: if the other player wins after the drop, they already won before it |
| `WinCheck.EmptyBoardHasNoWinner` | src/App.tsx:10-13 | no player wins on the empty board |
| `Game.Other` | src/App.tsx:163-164 | the next player is never the current one and never `'player0'`; every player other than `'player1'` hands over to `'player1'` |
| `Game.InitState` | src/App.tsx:103-111 | a new game has the given player to move, no winner, an empty 7x6 board and the default colours `#f00` and `#ff0` |
| `Game.CurrentState` | src/App.tsx:113-121 | a fresh game has the given player to move, no winner, an empty 7x6 board and the given colours |
| `Game.Reducer` | src/App.tsx:143-188 | both actions carry the colours over unchanged, and a `'turn'` yields a 7x6 board again |
| `Game.TurnThatWins` | src/App.tsx:151-157 | if the new board wins for the mover, the mover becomes the winner, stays the current player, and the new board is installed |
| `Game.TurnThatFillsTheBoard` | src/App.tsx:170-175 | with no win and no top slot left empty, the winner becomes `'player0'`, the mover stays current, and the new board is installed |
| `Game.TurnThatContinues` | src/App.tsx:159-166 | with no win and a move still possible, the disc lands in the column's lowest empty slot; nothing else on the board changes; the turn passes to the other player; the winner is untouched |
| `Game.TurnIntoFullColumn` | src/App.tsx:146-169 | a move into a full column changes no slot; the state comes back unchanged unless the unchanged board already wins for the mover or has no empty top slot |
| `Game.ResetFromAnyState` | src/App.tsx:181-182 | from any state, `'reset'` gives an empty 7x6 board, no winner and the given starter to move, and carries the colours over |
| `Game.InitStateConsistent` | src/App.tsx:103-111 | a new game started by a real player satisfies the game invariant |
| `Game.ReducerKeepsConsistent` | src/App.tsx:143-182 | every `'turn'` on a valid column, and every `'reset'` to a real player, keeps the invariant: a settled 7x6 board and a real player to move; while no winner is recorded, a top slot is empty and nobody has four in a row; a recorded winner has four in a row, is the current player, and the other player has none; a recorded draw has no empty top slot and nobody with four in a row |
| `Game.WinIsKept` | src/App.tsx:146-157 | after a win, a further `'turn'` keeps the winner and the current player but still drops the winner's disc into the board |
| `Game.DrawIsStable` | src/App.tsx:146-176 | after a draw, a further `'turn'` returns the state unchanged |
| `Game.FullColumnIsNoOp` | src/App.tsx:159-169 | in every reachable state, a `'turn'` into a full column returns the state unchanged |
| `Game.NeverTwoWinners` | src/App.tsx:151-157 | in every reachable state, the two players do not both have four in a row |

## Left out

- The React components `App`, `ColumnRaw`/`Column`, `Cell`, `WinnerOverlay` and `ResetOverlay`, and the memo comparator `areEqual`, are rendering, not game rules.
- The `useReducer`/`useState` hooks are UI-owned state. So is the `firstPlayer` alternation in `resetGame`, which decides whom `'reset'` receives. `ReducerKeepsConsistent` assumes only that the starter is a real player.
- The `'set'` action applies an arbitrary function to the state and has no rule that can be stated. The `default: throw` branch cannot be reached under the `Action` type.
- Colours are `string` values that are carried along and never read. Colour pickers are not modelled.
- The default argument `'player1'` of `initState` and `currentState` is not modelled. Callers pass the player explicitly.
- Game.Reducer: for `'turn'`, requires a 7x6 board and `0 <= column < 7`. In the source, an out-of-range column reaches `state.board[column].some` and throws (unless a win or draw is detected first). The win check only needs 7 columns to exist. Every board the game builds is 7x6 (`ReducerKeepsConsistent`), so a board of any other shape is not modelled.
- WinCheck.CheckIfWinner: requires a 7x6 board for the same reason. On other shapes, the source's fixed windows would read other slots.
- No proof says a finished game rejects further moves, because the reducer as written does not reject them (`WinIsKept` states what it does instead).
