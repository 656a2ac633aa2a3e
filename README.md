# Tic-tac-toe: the game engine and the record store, verified

This project models the two pieces of logic in the tic-tac-toe application.

- **The game component** (`client/src/components/Game.tsx`) is modelled without its rendering. The board is nine cells, each holding `X`, `O` or nothing. The component keeps a turn flag, a game-over flag and two player names. It provides:
  - `calculateWinner`, which scans eight fixed lines in a fixed order;
  - `handleClick`, the move transition;
  - `restartGame`;
  - the record `saveGame` builds when a game ends;
  - the status line;
  - the rule that names can be edited only before the first move.
- **The record store's routes** (`server/routes/gameRoutes.js`) are modelled with the MongoDB collection held as a sequence of records:
  - `POST /game` validates, trims and appends;
  - `GET /history` returns the newest records first, at most 100;
  - `GET /stats` returns the total, the `'Draw'` count and the wins per player, most wins first.

The modules follow the program:

| file | module | models |
|---|---|---|
| `game_types.dfy` | `GameTypes` | the shapes of `client/src/types/game.ts`: squares, records, statistics and the `'Draw'` marker |
| `game_engine.dfy` | `GameEngine` | `Game.tsx`; the component's state is the class `Game`, whose board is an `array<Square>` that every move replaces with a fresh copy (as `slice` does) |
| `string_trim.dfy` | `StringTrim` | JavaScript's `String.prototype.trim`, with ECMAScript's white-space and line-terminator characters |
| `sorting.dfy` | `Sorting` | a descending sort on an integer key; MongoDB's `sort({date: -1})` and `$sort: {wins: -1}` both use it |
| `game_routes.dfy` | `GameRoutes` | the three routes; the collection is the class `GameStore`, and the read-only queries are functions of its sequence |
| `scenarios.dfy` | `Scenarios` | concrete games: a game won on the diagonal, its record posted and listed, a small history and a small statistics example |
| `wrappers.dfy` | `Wrappers` | `Option` |

Inputs of the outside world become parameters:
- The clock (`new Date()`) is the `now: int` parameter of `HandleClick` and `PostGame`.
- A posted `date` is an instant that has already been parsed.
- A JSON field that is absent is `None`.

### Behaviour worth noting

- **A white-space-only name or winner answers 500, not 400.** Such a field passes the 400 guard (`gameRoutes.js:10`), because `"  "` is truthy. `trim()` then empties it (`gameRoutes.js:17-19`), the schema's `required` rule rejects the empty value (`models/Game.js:4-18`), and the `catch` answers 500 (`gameRoutes.js:25-27`). `Admit` models exactly this: 400 when a field is missing or empty, and 500 when a field is blank after trimming.
- **One move can complete two lines**, for example a row and a diagonal through the same cell. Both lines then carry the mover's mark. `PlacingOnlyHelpsMover` and the invariant `Consistent` (predicate `SingleWinningMark`) prove that every won line carries the same mark, so the order in which `calculateWinner` scans the lines never changes which player wins.

### Invariant of the game
`Game.Valid()` says the following:
- the board has 9 cells;
- X leads O by at most one mark, and it is X's turn exactly when the counts are level;
- `gameOver` holds exactly when the board is won or full;
- all won lines carry one mark;
- the winner is the player who moved last.

The constructor establishes it, and `HandleClick` and `RestartGame` keep it. `HandleClick`'s contract also states that a filled cell is never overwritten.

## Model

| member | source | states |
|---|---|---|
| GameEngine.EmptyBoard | client/src/components/Game.tsx:10 | the starting board has nine cells, all empty |
| GameEngine.WinnerFrom | client/src/components/Game.tsx:29-34 | scanning from line `k` yields empty iff no later line is won; otherwise it yields the mark of the first won line at or after `k` |
| GameEngine.Winner | client/src/components/Game.tsx:17-35 | no winner iff none of the eight lines is won; otherwise the mark of the first won line in the listed order (rows, columns, diagonals) |
| GameEngine.CalculateWinner | client/src/components/Game.tsx:17-35 | the loop with its early return computes exactly `Winner` of the array's contents |
| GameEngine.CountAfterPlacing | client/src/components/Game.tsx:41-42 | writing a mark into an empty cell raises that mark's count by one and leaves the other count as it was |
| GameEngine.MarksFillBoard | client/src/components/Game.tsx:46 | the two marks occupy at most every cell; they fill all nine cells exactly when `every(square !== null)` holds, and at least one exactly when `some(square !== null)` holds |
| GameEngine.InitialConsistent | client/src/components/Game.tsx:10-14 | the initial state (empty board, X to move, not over) satisfies the invariant |
| GameEngine.PlacingOnlyHelpsMover | client/src/components/Game.tsx:41-46 | on a board nobody has won, a move completes only lines of the mover's mark, so the new winner is none or the mover |
| GameEngine.MovePreservesConsistency | client/src/components/Game.tsx:38-54 | an accepted move keeps marks balanced with the flipped turn and keeps won lines in agreement; `gameOver` is recomputed as won-or-full |
| GameEngine.FinishedRecord | client/src/components/Game.tsx:56-63 | the saved record keeps both names and the time; its winner is `'Draw'` for a draw, `playerX` when X won and `playerO` when O won |
| GameEngine.IsFull | client/src/components/Game.tsx:46 | `every(square => square !== null)`: no cell is empty |
| GameEngine.IsDraw | client/src/components/Game.tsx:79 | `!winner && every(...)`: no line is won and no cell is empty |
| GameEngine.IsOver | client/src/components/Game.tsx:48 | the test `if (winner or isDraw)`: some line is won or no cell is empty |
| GameEngine.IsStarted | client/src/components/Game.tsx:116 | `isGameStarted`: some cell is filled |
| GameEngine.Status | client/src/components/Game.tsx:78-91 | the status text, as the three branches build it; its properties are stated by `StatusShowsPhase` |
| GameEngine.StatusShowsPhase | client/src/components/Game.tsx:78-91 | the status starts with W, I or N exactly when the game is won, drawn or still in play; after "Winner: " it holds the winner's name; a draw reads exactly "It's a draw!"; a game in play reads "Next player: " followed by the name of the player to move, and ends with that player's mark |
| GameEngine.StatusNamesLastMover | client/src/components/Game.tsx:82-84 | in a reachable won state, the status names the player who made the last move |
| GameEngine.CopyWith | client/src/components/Game.tsx:41-42 | `slice` then one write: a fresh array equal to the old contents with cell `i` replaced |
| GameEngine.Game.constructor | client/src/components/Game.tsx:10-14 | the state starts with an empty board, X to move, not over, names "Player 1" and "Player 2", and satisfies the invariant |
| GameEngine.Game.HandleClick | client/src/components/Game.tsx:38-54 | a click on a filled cell or a finished game changes nothing and saves nothing. Otherwise exactly cell `i` receives the mover's mark and the turn flips. `gameOver` becomes won-or-full; when it is set, the returned record is `FinishedRecord`, naming the mover unless the game is a draw. Filled cells are never overwritten, the names never change, and the invariant is kept |
| GameEngine.Game.RestartGame | client/src/components/Game.tsx:72-76 | a fresh empty board, X to move, not over, names untouched, invariant holds |
| GameEngine.Game.SetPlayerX | client/src/components/Game.tsx:108-110 | renames side X, changes nothing else and keeps the invariant; callable only while no cell is filled |
| GameEngine.Game.SetPlayerO | client/src/components/Game.tsx:112-114 | renames side O, changes nothing else and keeps the invariant; callable only while no cell is filled |
| StringTrim.TrimStart | server/routes/gameRoutes.js:17-19 | the result is a suffix of the input; everything dropped is white space; the result does not start with white space |
| StringTrim.TrimEnd | server/routes/gameRoutes.js:17-19 | the result is a prefix of the input; everything dropped is white space; the result does not end with white space |
| StringTrim.Trim | server/routes/gameRoutes.js:17-19 | the result is the infix between a white-space prefix and a white-space suffix; it neither starts nor ends with white space; it is empty iff the input is all white space |
| StringTrim.TrimEmptyIffBlank | server/routes/gameRoutes.js:17-19 | trimming leaves nothing exactly when every character is white space |
| StringTrim.TrimIdempotent | server/models/Game.js:4-18 | trimming twice equals trimming once, so the schema's own `trim` leaves the route's trimmed values unchanged |
| Sorting.Insert | server/routes/gameRoutes.js:33-35 | inserting into a sorted sequence yields a sorted permutation of the sequence plus the element, with the key sum raised by the element's key |
| Sorting.SortDesc | server/routes/gameRoutes.js:33-35 | the result is a permutation of the input with non-increasing keys (and the same key sum) |
| Sorting.InsertSmallest | server/routes/gameRoutes.js:33-35 | an element whose key is below every key goes at the end |
| Sorting.SortKeepsDistinct | server/routes/gameRoutes.js:59-61 | sorting keeps distinct group keys distinct |
| Sorting.PrefixHoldsLargest | server/routes/gameRoutes.js:33-35 | in a sorted sequence an element left out of a prefix has a key no larger than any key in the prefix |
| GameRoutes.PostResponse.StatusCode | server/routes/gameRoutes.js:11-27 | 201 iff created, 400 iff rejected as missing, 500 iff failed on saving |
| GameRoutes.Truthy | server/routes/gameRoutes.js:10 | a string field passes `!field` exactly when it is present and not empty |
| GameRoutes.CleanField | server/models/Game.js:4-18 | the schema's `required` and `trim` rules hold: the field is not empty and neither starts nor ends with white space |
| GameRoutes.TrimOfClean | server/models/Game.js:4-18 | a field the schema accepts is its own trim |
| GameRoutes.Admit | server/routes/gameRoutes.js:5-29 | 400 iff `playerX`, `playerO` or `winner` is missing or empty; 500 iff all are present and one is only white space; otherwise 201 with a record of the trimmed fields, clean under the schema, dated by the body's date if given, else by the current time |
| GameRoutes.History | server/routes/gameRoutes.js:33-35 | at most 100 records (all when fewer), drawn from the store, dates non-increasing, and no record left out is newer than one returned |
| GameRoutes.NewestPrefix | server/routes/gameRoutes.js:35 | a prefix of the date-sorted records is a sub-multiset of the store, sorted, and holds the newest |
| GameRoutes.CountWinner | server/routes/gameRoutes.js:64 | the count of records with exactly that winner is positive iff such a record exists, and never exceeds the number of records |
| GameRoutes.WinsInEntry | server/routes/gameRoutes.js:53-58 | in a tally without duplicate names, looking an entry's name up yields that entry's wins |
| GameRoutes.AddWin | server/routes/gameRoutes.js:53-58 | adding a win for a name keeps names distinct, raises that name's wins by one and no other, adds only an entry for that name with a positive count, and raises the total by one |
| GameRoutes.Tally | server/routes/gameRoutes.js:49-58 | `$match` plus `$group`: distinct names, no `'Draw'` entry, every count positive and equal to that winner's record count; the counts add up to the games that are not draws |
| GameRoutes.StatsCorrect | server/routes/gameRoutes.js:44-75 | `totalGames` is the number of records; `draws` counts winners exactly `'Draw'`; entries are sorted by wins, most first, with distinct names; each names a record's winner (its count is positive) and holds that winner's exact record count; every non-`'Draw'` winner has an entry; the wins sum to `totalGames - draws` |
| GameRoutes.EntriesAreExact | server/routes/gameRoutes.js:53-61 | every entry of the sorted tally names a non-`'Draw'` winner of some record (positive count) and holds its record count |
| GameRoutes.EveryWinnerListed | server/routes/gameRoutes.js:49-61 | every winner other than `'Draw'` has an entry in the sorted tally |
| GameRoutes.AppendClean | server/routes/gameRoutes.js:23 | saving a clean record into a clean collection leaves every record clean |
| GameRoutes.Stats | server/routes/gameRoutes.js:44-75 | the response of GET /stats: the record count, the `'Draw'` count and the tally sorted by wins; its properties are stated by `StatsCorrect` |
| GameRoutes.GameStore.PostGame | server/routes/gameRoutes.js:5-29 | the answer is `Admit` of the body and clock; the collection grows by exactly the admitted record on 201 and is unchanged on 400 and 500; every stored record stays clean |
| GameRoutes.GameStore.GetHistory | server/routes/gameRoutes.js:31-42 | answers `History` of the collection and modifies nothing |
| GameRoutes.GameStore.GetStats | server/routes/gameRoutes.js:44-75 | answers `Stats` of the collection and modifies nothing |
| Scenarios.WonByX | client/src/components/Game.tsx:25 | the board with X on 0, 4 and 8 and O on 1 and 2 is won by X |
| Scenarios.PlayDiagonal | client/src/components/Game.tsx:38-63 | clicks 0, 1, 4, 2, 8 from a new game save the record ("Player 1", "Player 2", winner "Player 1", now) |
| Scenarios.AdmitDiagonalRecord | server/routes/gameRoutes.js:5-24 | the record of the diagonal game posts with 201 unchanged, its names being already trimmed |
| Scenarios.PostAndList | server/routes/gameRoutes.js:5-37 | that record posted to an empty store answers 201 with the same record, and the history is exactly that record |
| Scenarios.HistoryNewestFirst | server/routes/gameRoutes.js:33-35 | three records with increasing dates are listed in reverse order |
| Scenarios.StatsOfFourGames | server/routes/gameRoutes.js:44-75 | Alice, Draw, Bob, Alice give 4 games, 1 draw, Alice 2 and Bob 1 |
| Scenarios.WinByPlayerNamedDraw | client/src/components/Game.tsx:61 | a win by a player named "Draw" is saved with the draw marker, and the statistics count it as a draw with no player entry |

## Left out

- Rendering is not modelled: the JSX, the CSS class strings, the input and button elements and their event wiring (`Game.tsx:93-164`).
- GameEngine.Game.SetPlayerX: the name lock (`disabled={isGameStarted}`, `Game.tsx:131`) is modelled as the setter's precondition `!IsStarted(board[..])`, not as a disabled input.
- GameEngine.Game.SetPlayerO: modelled the same way as `SetPlayerX` (`Game.tsx:144`).
- The network call in `saveGame` is not modelled: the `axios.post`, the `onGameEnd` callback and the logged failure. `HandleClick` returns the record that would be posted. The asynchrony of `saveGame` and React's batched state updates are not modelled; the model applies the updates in order.
- GameRoutes.GameStore.PostGame: database and connectivity failures, which also answer 500, are not modelled. Only the 500 caused by a blank field is.
- GameRoutes.GameStore.GetHistory and GameRoutes.GameStore.GetStats: the 500 answers when the query fails (`gameRoutes.js:38-41`, `71-74`) are not modelled, because the collection is always readable in the model.
- The `console.error` logging of every failure path (`gameRoutes.js:26`, `39`, `72`) is not modelled; it is output only.
- GameRoutes.Admit: date parsing is not modelled. It takes an already-parsed instant, so an unparsable date (`Invalid Date`) and JSON fields that are not strings are out of scope.
- The fields `_id`, `createdAt` and `updatedAt` that MongoDB generates are not modelled, nor is the name `_id` of the statistics' group key (the model calls it `name`).
- GameRoutes.History: the order among records with equal dates is not stated. The sort fixes one, but MongoDB leaves it unspecified. The same holds for entries with equal wins in `StatsCorrect`.
- The health check, the connection handling, the 404 and 500 handlers and the listening socket (`server/server.js`) are not modelled.
- `client/src/components/GameHistory.tsx` and `client/src/App.tsx` are not modelled; they only display the data and switch tabs.
- Concurrency is not modelled: requests are applied one at a time.
