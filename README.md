# WOPR tic-tac-toe: a verified model of its game logic

This project models the logic of a browser tic-tac-toe game. A human plays X
against a rule-based opponent, O, named WOPR. There are three parts:

- the **move selector** (`src/wopr/ai.ts`). It is a one-ply heuristic: win
  now, else block the opponent, else take the centre, then a corner, then a side;
- the **rules engine and game state** (`src/App.tsx`). Pure functions give
  the winner, the draw and game-over. A class holds the React state (`board`,
  `current`, `messages`, and the refs `initializedRef` and
  `endgameAnnouncedRef`). Its methods are the click handler, the new-game
  function and the three effects;
- the **commentary helpers** (`src/wopr/messages.ts`): the text picture of the
  board, the canned lines, square names, the last-eight-messages transcript,
  and the choice between a generated reply and the canned line.

A board is `seq<Cell>` of length 9, where `Cell = Empty | X | O` stands for
`null | 'X' | 'O'`. A player is a non-empty cell. A `number | null` result is
`Option<int>`. The source keeps the table of eight winning lines twice, once
per file. Here it is one constant, `Grid.WinLines`.

Files: `options.dfy` (Option), `grid.dfy` (cells, boards, lines),
`ai.dfy`, `rules.dfy`, `messages.dfy`, `play.dfy` (what a chosen move does to the outcome), `app.dfy`.

Two behaviours of the code that the model keeps as written:

- `handleClick` does not check whose turn it is. Only the disabled buttons stop
  a click on O's turn. `HandleClick` is modelled without that check.
- The announcement latch is cleared on a new game, and also by the end-game
  effect whenever the game is not over (`src/App.tsx:87-89`).

## Model

| member | source | states |
|---|---|---|
| Grid.Opponent | src/wopr/ai.ts:36 | the opponent is the other player |
| Grid.CountMarkUpdate | src/App.tsx:49-50 | writing one square changes a mark's count only by the square's old and new contents |
| Ai.GapOf | src/wopr/ai.ts:22-24 | the square returned is empty and lies on the line |
| Ai.FindWinningMoveFrom | src/wopr/ai.ts:17-27 | `None` exactly when no line from `k` on has two of the player's marks and one empty square; otherwise the empty square of the first such line in table order |
| Ai.FindWinningMove | src/wopr/ai.ts:16-28 | any result is an empty square on a line the player threatens; `None` exactly when no such winning square exists; the result is the gap of the first threatened line |
| Ai.ScanMatchesWinningMoves | src/wopr/ai.ts:16-28 | the scan over the eight lines finds a square exactly when a winning square exists, and every square it finds is one |
| Ai.FirstEmpty | src/wopr/ai.ts:44-48 | `None` exactly when every candidate is occupied; otherwise the first empty candidate in list order |
| Ai.ChooseMove | src/wopr/ai.ts:30-51 | the move is an empty square in 0..8, and `None` exactly when the board is full |
| Ai.FirstEmptyAppend | src/wopr/ai.ts:41-48 | looking through two candidate lists in turn is looking through their concatenation |
| Ai.ChooseMoveWinsFirst | src/wopr/ai.ts:31-33 | if the mover can win, the move is `findWinningMove` for the mover and completes a line; a win is never passed over for a block |
| Ai.ChooseMoveBlocks | src/wopr/ai.ts:35-38 | with no win for the mover but one for the opponent, the move is the opponent's winning square |
| Ai.ChooseMovePositional | src/wopr/ai.ts:40-48 | with nothing to win or block, the move is the first empty square of centre, corners [0,2,6,8], sides [1,3,5,7] |
| Ai.ChooseMoveEmptyBoard | src/wopr/ai.ts:41-42 | on the empty board either player takes square 4 |
| Ai.ScenarioDiagonalWin | src/wopr/ai.ts:5-25 | on X,O,X,O,X,O,_,_,_ with X to move the result is 8 (diagonal 0-4-8 is the first threatened line), never 7 |
| Ai.ScenarioBlock | src/wopr/ai.ts:35-38 | with X on 0 and 1 and O to move, O blocks at 2 |
| Rules.GetWinnerFrom | src/App.tsx:20-27 | `None` exactly when no line from `k` on is complete; otherwise the mark on the first complete line |
| Rules.GetWinner | src/App.tsx:20-27 | a winner owns some winning line, and is the mark of the first complete line in table order; `None` exactly when no line is complete |
| Rules.IsDraw | src/App.tsx:29-31 | a draw is exactly: every square occupied and no complete line |
| Rules.IsGameOver | src/App.tsx:39 | the game is over exactly when the board is full or some line is complete |
| Rules.WinnerOfOwnedLine | src/App.tsx:20-27 | a line owned by a player, with no line of the opponent's, makes that player the winner |
| Rules.DrawHasNoWinner | src/App.tsx:29-31 | a draw and a winner never hold together, and a draw ends the game |
| Messages.CellChar | src/wopr/messages.ts:7 | the middle dot is shown exactly for an empty square |
| Messages.CellsText | src/wopr/messages.ts:7 | one character per square, in order |
| Messages.RowsKeepCells | src/wopr/messages.ts:8-11 | cutting nine characters into three newline-separated rows puts character `i` at `i + i / 3` |
| Messages.RenderBoard | src/wopr/messages.ts:6-12 | 11 characters; newlines at 3 and 7; square `i` drawn at position `i + i / 3` |
| Messages.RenderBoardInjective | src/wopr/messages.ts:6-12 | two boards with the same picture are the same board |
| Messages.FallbackMessage | src/wopr/messages.ts:14-21 | the victory line exactly for an O win at the end, the "improbable" line exactly for an X win at the end, the "strange game" line exactly for a winnerless draw at the end, the move line otherwise |
| Messages.FallbackMoveIgnoresOutcome | src/wopr/messages.ts:14-21 | in the move phase the line is the move line whatever the winner and draw arguments |
| Messages.IndexToPositionName | src/wopr/messages.ts:87-100 | "unknown" exactly for indices outside 0..8 |
| Messages.PositionNameIsGridName | src/wopr/messages.ts:88-98 | the names are row-major: row word and column word joined by a dash, "center" in the middle |
| Messages.PositionNamesDistinct | src/wopr/messages.ts:88-98 | distinct squares have distinct names |
| Messages.LastEight | src/wopr/messages.ts:64 | the last min(n, 8) entries, in order |
| Messages.Prefixed | src/wopr/messages.ts:65 | each entry prefixed with "WOPR: ", in order |
| Messages.TranscriptLines | src/wopr/messages.ts:63-65 | at most eight lines: the last eight previous messages, in order, each prefixed with "WOPR: " |
| Messages.Join | src/wopr/messages.ts:66 | no lines join to the empty text; otherwise the first line starts the result |
| Messages.Transcript | src/wopr/messages.ts:63-69 | the transcript is empty exactly when there are no previous messages |
| Messages.LeadingSpace | src/wopr/messages.ts:81 | counts the white space at the start: all of it is white space, and the next character is not |
| Messages.TrailingSpace | src/wopr/messages.ts:81 | counts the white space at the end: all of it is white space, and the character before it is not |
| Messages.TrimmedPart | src/wopr/messages.ts:81 | what lies between the leading and trailing white space is empty exactly for an all-white-space text, and otherwise neither starts nor ends with white space |
| Messages.Trim | src/wopr/messages.ts:81 | the result is the infix after the leading white space and before trailing white space; it is empty exactly when the input is all white space; otherwise it starts and ends with a non-white-space character |
| Messages.TrimIdempotent | src/wopr/messages.ts:81 | trimming twice is trimming once |
| Messages.WoprMessage | src/wopr/messages.ts:34-84 | never empty; with no key, a failed request, or a blank response it is the canned line; otherwise it is the trimmed response |
| Play.NotOverHasMove | src/App.tsx:72-75 | while the game is not over, `chooseMove` always finds a square |
| Play.WinningMoveWins | src/wopr/ai.ts:16-28 | on a board nobody has won, playing the square `findWinningMove` reports makes the mover the winner and ends the game |
| Play.NewLinesAreMovers | src/App.tsx:20-27 | on a board with no complete line, one new mark cannot complete a line for the opponent |
| Play.FillingThreatCompletes | src/wopr/ai.ts:19-21 | filling the empty square of a threatened line gives all three squares to the threatener |
| App.PlacingKeepsBalance | src/App.tsx:49-53 | placing the mover's mark and passing the turn keeps X one mark ahead exactly while O is to move |
| App.EmptyBoardLevel | src/App.tsx:57 | the empty board holds no marks |
| App.AnnouncementsDistinctFromMove | src/App.tsx:80-98 | the move line differs from each of the three end-of-game lines |
| App.Announcements | src/App.tsx:93-99 | the number of end-of-game lines: at most the number of messages, and zero exactly when none of them is an end-of-game line |
| App.AnnouncementsAppend | src/App.tsx:43-45 | appending a message adds one to the count exactly when it is an end-of-game line |
| App.StepKeepsAnnouncements | src/App.tsx:86-100 | a step that appends at most one line, and an end-of-game line only while setting the latch, keeps "at most one announcement, and one only with the latch set" |
| App.AppState.constructor | src/App.tsx:34-41 | the initial state: empty board, X to move, no messages, both refs false |
| App.AppState.EnqueueMessage | src/App.tsx:43-45 | appends the text to `messages` |
| App.AppState.StartNewGame | src/App.tsx:56-61 | empty board, X to move, messages exactly the greeting, latch cleared |
| App.AppState.Initialize | src/App.tsx:63-69 | the first run starts a new game and sets `initializedRef`; later runs change nothing |
| App.AppState.HandleClick | src/App.tsx:47-54 | on a finished game or an occupied square nothing changes; otherwise only square `index` changes, to the mover's mark, and the turn flips |
| App.AppState.PlaceAndPass | src/App.tsx:49-53 | the board with the mover's mark in one square, and the turn passed on |
| App.AppState.OpponentMove | src/App.tsx:71-83 | acts only on a running game with O to move; then O goes to the square `chooseMove` picks (always a square), X is to move, and exactly one "Move complete" line is appended; otherwise nothing changes |
| App.AppState.EndgameEffect | src/App.tsx:85-100 | afterwards the latch equals game-over; the announcement is appended only if the game is over and the latch was clear; otherwise messages are unchanged |
| App.AppState.AnnounceOutcome | src/App.tsx:93-99 | the appended line is the canned end-of-game line for the board: O's win, then X's win, then the draw |
| App.AppState.Step | src/App.tsx:47-100 | one event (a click, lines 47-54; an opponent-effect run, lines 71-83; or an end-game-effect run, lines 85-100) appends at most one line, an end-of-game line only while it sets the latch, and a set latch stays set with the board unchanged; a new game and the mount effect are not events |
| App.AppState.PlayOneGame | src/App.tsx:85-100 | within one game, any schedule of clicks, opponent-effect runs and end-game-effect runs (no new game) appends at most one end-of-game line, and none if the game was already announced |
| App.AppState.RunWhileOver | src/App.tsx:85-100 | once the game is over, any schedule of clicks, opponent-effect runs and end-game-effect runs (no new game) leaves the board alone; it appends the announcement exactly once if an end-game check runs and none was made before, and nothing otherwise |

`AppState.Valid()` is the state invariant every method keeps. The latch is set
only on a finished game. X has one more mark than O exactly when O is to
move, and otherwise the counts are equal.

## Left out

- React rendering, JSX, CSS, the status line and the disabled-button logic (`src/App.tsx:102-149`) are presentation. Because the disabled-button check is left out, `HandleClick` can also run on O's turn, exactly as the bare handler can.
- React's scheduling of effects and batching of `setState` are not modelled. Each handler and effect is a method that runs on the current state. The order in which React runs them is a parameter: a list of `Event`s given to `PlayOneGame` and `RunWhileOver`. An `Event` is a click, a run of the opponent's effect or a run of the end-game effect. A new game (`startNewGame`) and the mount effect are not events.
- A reset is not an `Event`: the latch property of `PlayOneGame` and `RunWhileOver` is scoped to one game. `StartNewGame` on its own clears the latch and replaces the messages with the greeting.
- `HandleClick` takes a square number 0..8. The only callers are the nine buttons, one per square.
- The text service call, `await`, the client library, the `import.meta.env` key lookup and the prompt strings (`src/wopr/messages.ts:35-80`) are network input and output through a foreign library. `WoprMessage` takes the key and the outcome of the call (failed, or a response with optional text) as parameters. The prompt assembly around the transcript is not modelled.
- `App.tsx` never calls `getWoprMessage`. It hard-codes the same strings, and `AnnounceOutcome` shows that they agree with `FallbackMessage`.
- `IndexToPositionName` takes an integer. A fractional JavaScript number, which also gives "unknown", is not modelled.
- Characters are Unicode scalar values, not UTF-16 code units. `Trim` removes the characters JavaScript's `trim` treats as white space or line terminators.
- Messages.Join: states only that no lines give the empty text and that the first line starts the result, not the full layout of separators.
- Cancelling or discarding stale commentary requests is not modelled: no such code exists in these files.
- `vite.config.ts` is build configuration.
