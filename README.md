# chatgpt-chess: match bookkeeping

This project models the match logic of the `ChessGame` component in `src/app/page.tsx`. In
this app two language-model "players" play chess against each other. The model covers:

- one turn of the match (`makeMove`), with the start/stop and reset buttons;
- the scoring rule applied when the engine reports that the game is over (`getWinner`);
- the retry loop that asks the oracle for a move (`getNextMoveFromGpt`), and the parsing of
  its reply (`getNextMove`);
- the list of legal moves written into the prompt (`generatePrompt`, line 107).

Modules, one per file:

- `Scoring` (scoring.dfy): `Player` records (colour, temperature, wins, draws), the engine's
  report `EngineStatus`, and `GetWinner`.
- `MoveLog` (move_log.dfy): the log line `"<n>: Player <p>: <move>"` and a parser that reads it
  back. `LogOf` is the whole log, newest line first, as a function of the moves applied so far.
- `Prompt` (prompt.dfy): the legal-move list (`- m` lines joined by a newline) and its inverse.
- `Oracle` (oracle.dfy): the retry loop as a method. It is proved against `FirstResponse`, a
  reference definition of "the first successful reply within the budget".
- `Match` (chess_game.dfy): the class `ChessGame`. It holds the component's state cells:
  `players`, `game`, `moves`, `start`, `activePlayer`, `currentMoveIndex` and `winner`.
  Every method of the class keeps its `Valid()` invariant. So the invariant holds in every
  state the model can reach; the code can leave it (see "## Left out"). It says the two
  records keep their colours, `currentMoveIndex == |moves|`, `activePlayer == currentMoveIndex % 2`, and
  `moves == LogOf(game)`.

How the collaborators are represented:

- The chess engine is not modelled. Its position is the sequence of moves applied since
  `new Chess()` (field `game`).
- What the engine reports is passed into each turn as an `EngineStatus`:
  `isGameOver`, `isCheckmate`, `isDraw` and `turn`.
- Whether `game.move` accepts a move is a `legal: string -> bool` parameter.
- The oracle's answer to each call is one element of an `outcomes` sequence.
  `None` stands for a call that threw.
- `JSON.parse(reply).move` is a `parse: string -> Option<string>` parameter.

Behaviour as written. The model follows the code as written, including three places where
a reader might expect otherwise:

- The running flag is checked only on entry to `makeMove`. It is not checked again after
  the awaited request (lines 76-87). If the user presses Stop while a request is pending,
  the move is still committed, and the next turn is still scheduled; that turn then does
  nothing. `MakeMove`'s `stopDuringRequest` parameter models this.
- `JSON.parse` runs after the retry loop (line 136). So a reply that does not parse is not
  retried (`Oracle.MalformedReplyIsNotRetried`).
- These failures throw out of `makeMove`:
  - the retries run out;
  - the reply does not parse;
  - the engine rejects the move. The model assumes that `move` throws on an illegal move,
    as chess.js 1.x does. The camelCase method names (`isGameOver`, `isCheckmate`) suggest
    that version, but the code does not pin one. With the older behaviour, where `move`
    returns null, line 78 would not abort: the move would be logged and the player flipped
    while the board stays unchanged.

  A reader might expect a failed turn to clear the running flag. The code leaves `start`
  set and schedules nothing, so the match stalls with nothing changed. `MakeMove` states
  exactly this.

## Model

| member | source | states |
|---|---|---|
| `Scoring.InitialPlayers` | src/app/page.tsx:22-35 | two records, white first and black second, with no wins and no draws |
| `Scoring.GetWinner` | src/app/page.tsx:171-194 | the result keeps two records; each keeps its colour and temperature; no win or draw count ever decreases |
| `Scoring.CheckmateGivesOneWin` | src/app/page.tsx:176-183 | on checkmate, the record of the side not to move gains exactly one win (white to move: Player 2, black to move: Player 1); the other record is unchanged; the total of draws is unchanged; the text names the winner |
| `Scoring.DrawGivesBothADraw` | src/app/page.tsx:184-187 | a draw without checkmate gives each record exactly one more draw, no wins, and the text "Draw" |
| `Scoring.NoResultChangesNothing` | src/app/page.tsx:188-190 | with neither checkmate nor draw, the records are unchanged and the text is "No Winner" |
| `Scoring.CheckmateWinnerIsTheSideNotToMove` | src/app/page.tsx:176-183 | with the records in their fixed colour order, the index-based rule agrees with the rule stated by colour: exactly the player whose colour is not to move gains a win, and the text names that player and no other |
| `Scoring.LabelDeterminesScoreChange` | src/app/page.tsx:176-193 | the text "Draw" holds iff the draws rose by two; "No Winner" iff the records are unchanged; a player's name iff the wins rose by one |
| `MoveLog.NatToString` | src/app/page.tsx:80 | the printed move number and player number are the canonical decimal text: non-empty, digits only, one digit exactly for numbers below ten, and no leading zero for a positive number |
| `MoveLog.DigitsValueOfNatToString` | src/app/page.tsx:80 | reading the printed number back gives the number |
| `MoveLog.Entry` | src/app/page.tsx:80 | a log line starts with the 1-based move number (no leading zero) and ends with the move text |
| `MoveLog.EntryRoundTrip` | src/app/page.tsx:79-82 | parsing a log line gives back the move index, the player and the move text it was built from |
| `MoveLog.EntryInjective` | src/app/page.tsx:80 | two log lines are equal only if their index, player and move are equal |
| `MoveLog.LogOf` | src/app/page.tsx:79-87 | the log of a history has one line per applied move |
| `MoveLog.LogOfAt` | src/app/page.tsx:79-87 | line k of the log, counted from the newest, records move number \|h\|-k, made by player (\|h\|-1-k) mod 2 |
| `MoveLog.LogOfSnoc` | src/app/page.tsx:79-82 | applying one move adds exactly one line in front and keeps every earlier line in place and in order |
| `MoveLog.LogOfExtend` | src/app/page.tsx:79-82 | after any number of further moves, the old log is a suffix of the new one |
| `Prompt.Join` | src/app/page.tsx:107 | `join("\n")`: the empty list gives the empty text; splitting on newlines gives back a non-empty list of lines that hold no newline |
| `Prompt.LegalMoveList` | src/app/page.tsx:107 | the prompt's move list reads back as exactly the engine's moves, in order (the empty list gives the empty text); a non-empty list has one line per move, and line k is "- " followed by move k |
| `Oracle.FirstResponse` | src/app/page.tsx:141-169 | a reply is returned only if it is the first successful call within the budget; nothing is returned only if every call within the budget failed |
| `Oracle.GetNextMoveFromGpt` | src/app/page.tsx:141-169 | at most 3 calls, at least 1; every call before the last one made failed; the reply is that of the last call made; the loop gives up iff 3 calls were made and the third failed; the result equals `FirstResponse` with a budget of 3 |
| `Oracle.FirstResponseIsFirstSuccess` | src/app/page.tsx:143-162 | when call k is the first to succeed within the budget, its reply is the one returned |
| `Oracle.GivesUpOnlyAfterThreeFailures` | src/app/page.tsx:142-168 | the loop fails iff the first three calls all fail |
| `Oracle.GetNextMove` | src/app/page.tsx:131-139 | the move is the parsed first reply; any move returned comes from the parse of one of the first three replies |
| `Oracle.MalformedReplyIsNotRetried` | src/app/page.tsx:134-136 | when the first successful reply does not parse, no move is obtained, whatever later calls would have answered |
| `Match.ChessGame.constructor` | src/app/page.tsx:22-42 | the initial state is valid: initial records, empty position and log, not running, player 0, index 0, text "Start the game to find the winner" |
| `Match.ChessGame.OnClickStart` | src/app/page.tsx:196-204 | flips `start`; the text becomes "Resume the game..." when stopping and "Game in progress..." when starting; nothing else changes; keeps `Valid()` |
| `Match.ChessGame.ResetGame` | src/app/page.tsx:206-213 | fresh position, empty log, not running, player 0, index 0, the initial text; the score records are kept; establishes `Valid()` |
| `Match.ChessGame.MakeMove` | src/app/page.tsx:65-92 | keeps `Valid()` (log length = index, player = index mod 2, log = formatted history). Not running: nothing changes and nothing is scheduled. Game over: the records and text are set from `GetWinner`, `start` is cleared, and no move is made. Otherwise the scores do not change. A parsed, accepted move adds exactly one line "<index+1>: Player <active+1>: <move>" in front of the unchanged log, flips the player, increments the index and schedules the next turn, even if Stop was pressed during the request. Any failure changes nothing and schedules nothing |
| `Match.ChessGame.RecordResult` | src/app/page.tsx:70-74 | game over: the records and text come from the scoring rule and the match stops, with the log and counters unchanged |
| `Match.ChessGame.Commit` | src/app/page.tsx:78-87 | an accepted move extends the position by that move, puts its line in front of the log, flips the player and increments the index, keeping `Valid()` |
| `Match.ChessGame.Play` | src/app/page.tsx:89-91 | a chain of self-scheduled turns, where a turn may include a Stop press during its request, keeps `Valid()`; the history only grows at its end and the log only at its front; the chain adds at most as many moves as turns it played; temperatures are kept and no win or draw count goes down |

## Left out

- The chess engine (chess.js) is not part of this model: legality, applying a move,
  game-over detection, and FEN/PGN output. Its answers are parameters of each turn.
  `EngineStatus` fields are independent booleans, so the model also admits combinations
  that chess.js never reports (for example game over with neither checkmate nor draw).
- The OpenAI client, its request, and its 10-second time-out are not modelled. Each call
  is reduced to its outcome. `JSON.parse` is reduced to the `parse` parameter.
- `Oracle.GetNextMoveFromGpt` and `Match.ChessGame.MakeMove` require at least three
  oracle outcomes, one for each call the loop might make. This bounds the model's input;
  it excludes no behaviour of the code.
- React plumbing is not modelled: `useState` and `useRef`, the refs that are copied from
  state after each render, and the effects on `start`. Each state cell is a field of the
  class. It is read directly, with no stale-ref timing.
- The `setTimeout` self-scheduling and `clearTimeout` are not modelled. In their place,
  `MakeMove` returns whether a next turn was scheduled, and `Play` runs the chain as a loop.
- Concurrent chains are not modelled. If the user presses Stop and then Start while a
  request is pending, a second `makeMove` chain starts, and Reset can run during a pending
  request. `MakeMove` models one Stop press during the request and nothing else.
  Stop and then Reset during a pending request breaks `moves == LogOf(game)` in the code.
  The pending turn applies its move to the old `Chess` object (line 78). It then writes
  "1: Player 1: <move>" from the counters that the reset restored (lines 79-87). The new
  board from line 207 has no move on it.
- Temperature is carried as an opaque `real`. The floating-point behaviour is not modelled.
- The fixed English text of the prompt (lines 95-128) is not modelled, except the
  legal-move list. The system message and `console.log` are not modelled either.
- The JSX rendering (lines 215-284) and src/app/layout.tsx are not modelled. They contain
  presentation only.
- `Match.ChessGame.ResetGame` does not require `!start`. The UI disables Reset while the
  match runs, but the method's effect is the same either way.
- `Scoring.GetWinner`: the code's case of a checkmate whose turn is neither `'w'` nor
  `'b'` cannot arise. The side to move is a two-valued `Color`, so the empty winner text
  that this case would produce is not modelled.
