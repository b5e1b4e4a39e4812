# 4x4 tic-tac-toe bot: rules engine and session lifecycle in Dafny

This project models the logic of a Telegram bot for a two-phase 4x4
tic-tac-toe. Each player first places four pieces. Then the players take turns
moving one of their own pieces to an empty cell. A player wins by filling a row,
a column, one of the two diagonals or any 2x2 square.

The model has three layers, leaves first.

- **Board rules** (`BoardLogic`, module-level functions of
  `src/games/logic/game_logic.py`):
  - the winning-pattern scan in its documented order;
  - the winner test;
  - the full-board test;
  - the list of empty cells.
- **Game records.** Both game classes share one `Session` record, tagged by kind:
  - `TicTacToe`: the inline-keyboard game `TicTacToe4x4`, with its own winner check that differs from the module one;
  - `WebAppGame`: the WebApp record `GameState`, with its `to_dict` snapshot and a reader that parses it back;
  - `BaseGame`: the turn test.

  `Sessions.Discipline` is the bookkeeping invariant that each handler keeps or breaks:
  - the board marks match the counters;
  - the placements alternate;
  - both seats are taken once the game is under way;
  - a selection is always one of the mover's own pieces;
  - a stored WebApp game has no won shape.
- **Handlers**, as functions over the registry `map<ChatId, Session>`:
  - `GameHandlers`: `/start`, `/join` and the board-button callback of `handlers.py`;
  - `CallbackHandlers`: the second, registered set of keyboard handlers;
  - `WebAppHandlers`: the WebApp message handler;
  - `Timeouts`: the two periodic sweeps.

  Time is an integer tick supplied by the caller. A handler's exceptions are swallowed by its broad `except`; the model shows this as a `Failed` or `Crashed` reply, and any writes made before the raise stay in the registry.

The handlers disagree with one another, and the model keeps each one as written:
- `/join` checks the O seat before the self-play test; the join button checks it after.
- The join button never refreshes the action time.
- A board click through `callback_handlers.py` places a piece and passes the turn without ever starting the movement phase. The eighth placement therefore leaves both counters at four with X still to place: `CallbackHandlers.PlacementNeverEnds` and `CallbackHandlers.FifthPiece`.
- The scheduled `timeout_handler` ends every game in progress without looking at the clock.

Three more facts about the code are easy to assume otherwise:
1. **Placement.** Neither placement path checks for a winner: not `_handle_placement_phase` in `game.py`, not `handle_game_move` in `callback_handlers.py`. Only the WebApp handler checks the board after a placement.
2. **Joining.** The join button (`handle_join_game`) does not refresh the action time.
3. **Timeouts.** Both sweeps delete an ended game outright instead of marking it finished with a winner, and `timeout_handler` applies no idle limit at all.
4. **WebApp replies.** In `handle_webapp_data` a failed reply skips what follows it. A join whose reply fails keeps the new seat but skips the action-time refresh. A win whose reply fails leaves its game registered, marked finished and with a won shape on the board (`WebAppHandlers.FailedWinReplyStrandsGame`). Such a game is outside the bookkeeping, so the other handlers' preservation lemmas, which assume it, say nothing about what happens to it next.

## Model

| member | source | states |
|---|---|---|
| BoardLogic.WinningPatternInScanOrder | src/games/logic/game_logic.py:8-37 | `FindWinningPattern` (`find_winning_pattern`) returns the first won shape in this fixed order, and None when there is none: for each index, its row then its column; then the main and anti diagonals; then the squares in row-major order. The symbol does not matter |
| BoardLogic.WinningPatternSound | src/games/logic/game_logic.py:9-35 | a returned pattern is four distinct in-bounds cells, all holding the same symbol |
| BoardLogic.WinningPatternNoneIff | src/games/logic/game_logic.py:9-37 | no pattern is returned exactly when no row, column, diagonal or 2x2 square is all X or all O |
| BoardLogic.CheckWinner | src/games/logic/game_logic.py:39-47 | there is no winner exactly when no shape is won; a named winner's symbol fills the pattern the scan returns |
| BoardLogic.CheckWinnerWitness | src/games/logic/game_logic.py:39-47 | the named winner fills some win-shape of the scan order |
| BoardLogic.IsBoardFull | src/games/logic/game_logic.py:49-51 | true exactly when no in-bounds cell is empty |
| BoardLogic.ValidMoves | src/games/logic/game_logic.py:53-55 | a cell is listed exactly when it is in bounds and empty; the list strictly increases in row-major order, so no cell appears twice |
| BoardLogic.ValidMovesEmptyIffFull | src/games/logic/game_logic.py:49-55 | the list of moves is empty exactly when the board is full |
| BaseGame.IsPlayerTurn | src/common/base_game.py:41-45 | false when no player is to move or the user holds no seat; otherwise true exactly when the seat to move holds the user; raises exactly when that seat's key is missing |
| BaseGame.ExactlyOneHasTurn | src/common/base_game.py:41-45 | with two different users seated, the X user has the turn exactly when X is to move, and the O user exactly when O is to move |
| BaseGame.SessionTurnDefined | src/common/base_game.py:41-45 | once a disciplined game has left the waiting phase, the test never raises and accepts exactly the user seated at the player to move |
| Sessions.DisciplineBounds | src/games/tictactoe_4x4/game.py:131-140 | under the bookkeeping, the counters stay in 0..4 with X at most one ahead, and placement ends before eight pieces are down |
| TicTacToe.NewClassic | src/games/tictactoe_4x4/game.py:9-16 | a new inline-keyboard game has an empty board, no pieces, X to move, no selection, winner or pattern. It inherits the base defaults: no seats, waiting, action time 0, no message |
| TicTacToe.ClassicLinesAgree | src/games/tictactoe_4x4/game.py:71-78 | the game class's row and column loop names the symbol of the first line the module scan returns, from any starting index |
| TicTacToe.ClassicSquaresAgree | src/games/tictactoe_4x4/game.py:88-96 | the game class's square loop names the symbol of the first square the module scan returns |
| TicTacToe.CheckersDisagreeExactly | src/games/tictactoe_4x4/game.py:70-98 | the two winner checks differ on a board exactly when no row or column is won, the main diagonal is all O and the anti-diagonal is all X; on such a board the game class says X and the module says O |
| TicTacToe.CheckersDisagreeSomewhere | src/games/tictactoe_4x4/game.py:80-86 | a concrete board with O on the main diagonal and X on the anti-diagonal gets X from the game class and O from the module |
| TicTacToe.ClassicWinnerSound | src/games/tictactoe_4x4/game.py:70-98 | `ClassicWinner` (the game class's `check_winner`) finds no winner exactly when no shape is won; a named winner fills some valid win-shape |
| TicTacToe.Place | src/games/tictactoe_4x4/game.py:125-140 | an occupied cell changes nothing. Otherwise the mover's mark goes on the empty cell, all other cells stay, and only the mover's counter grows. At four pieces each, movement starts with X to move; otherwise the turn passes. No winner check is made |
| TicTacToe.MovementClick | src/games/tictactoe_4x4/game.py:142-179 | with no selection, a click on a non-own cell changes nothing and a click on an own piece selects it. Clicking the selected cell again deselects it. A click on an occupied cell changes nothing. A commit carries the mark from the selected cell to the empty target and leaves the counters alone. If the game class's check then names a winner, the game is finished with that winner, no pattern and the turn kept; otherwise the turn passes |
| TicTacToe.HandleCallback | src/games/tictactoe_4x4/game.py:109-116 | a click goes to the placement or movement step by phase; in any other phase it is ignored |
| TicTacToe.GameOverMeansFinished | src/games/tictactoe_4x4/game.py:105-107 | for a disciplined inline-keyboard game, `IsGameOver` (`is_game_over`: winner set or finished) is the same as "finished" and the same as "winner set", and a game that is over ignores clicks |
| TicTacToe.MovementEndsGameIffWin | src/games/tictactoe_4x4/game.py:164-179 | in the movement phase, a click ends the game exactly when it is a commit after which the board has a winner |
| TicTacToe.PlacePreservesDiscipline | src/games/tictactoe_4x4/game.py:125-140 | a placement keeps the counters equal to the marks and keeps the alternation |
| TicTacToe.EighthPlacementStartsMovement | src/games/tictactoe_4x4/game.py:134-138 | a successful placement adds one piece in total, and starts movement exactly when it is the eighth |
| TicTacToe.CommitKeepsCounts | src/games/tictactoe_4x4/game.py:164-168 | relocating a piece leaves the number of X marks and of O marks unchanged |
| TicTacToe.MovementClickPreservesDiscipline | src/games/tictactoe_4x4/game.py:142-179 | every movement-phase click keeps the bookkeeping |
| TicTacToe.HandleCallbackPreservesDiscipline | src/games/tictactoe_4x4/game.py:109-116 | every click on an inline-keyboard game keeps the bookkeeping and the game's kind |
| TicTacToe.PlayKeepsDiscipline | src/games/tictactoe_4x4/game.py:125-179 | from any disciplined game and over any run of clicks, the counters stay within 0..4 with X at most one ahead; a game in progress is in movement exactly when all eight pieces are down |
| WebAppGame.NewGameState | src/games/models/game_state.py:9-19 | a new WebApp game has an empty board, X to move, no pieces, both seats and names present but unset, no selection, and the clock reading as its action time |
| WebAppGame.BoardIndex | src/games/models/game_state.py:43-54 | floor-divided positions reach a cell exactly when they lie in -16..15. The cell's row-major index is the position, or the position plus 16 when Python's negative row index wraps round. Every other position raises |
| WebAppGame.HandleWebappMove | src/games/models/game_state.py:38-65 | a refusal changes nothing. A user not seated at the player to move is refused. A success is either a placement of the mover's mark on an empty cell with the mover's counter raised, or a relocation of one of the mover's marks to an empty cell. In-range positions never raise. For the seated mover, a placement on an empty cell succeeds, and in movement a relocation from an own piece to an empty cell succeeds |
| WebAppGame.PlaceAt | src/games/models/game_state.py:68-75 | the placement helper raises exactly on a missing or out-of-range position; an empty in-range cell is always placed: the mover's mark goes on it and the mover's counter rises; a refusal changes nothing |
| WebAppGame.MoveFrom | src/games/models/game_state.py:77-92 | the movement helper refuses a missing selection without touching the position; a relocation from an own piece to an empty cell, both in range, always succeeds; a success relocates one of the mover's marks to an empty cell |
| WebAppGame.WebappMoveDelegates | src/games/models/game_state.py:38-92 | once the turn test passes, the entry point behaves as the helper for its phase. The one exception is a movement request with neither a position nor a selection: it raises in the entry point, while the helper refuses it |
| WebAppGame.WebappMoveCounts | src/games/models/game_state.py:45-63 | a move changes the number of each symbol on the board exactly as it changes that symbol's counter |
| WebAppGame.ToDict | src/games/models/game_state.py:21-32 | the snapshot has a 4x4 board of strings, and exactly the keys X and O in the piece counts and in the players |
| WebAppGame.SnapshotRoundTrip | src/games/models/game_state.py:21-32 | reading the snapshot back gives exactly the game's board, player to move, phase, counters, seat ids and names |
| WebAppGame.SnapshotInjective | src/games/models/game_state.py:21-32 | two games with the same snapshot agree on everything the snapshot shows |
| GameHandlers.Start | src/games/tictactoe_4x4/handlers.py:10-70 | a private chat, or an existing unfinished game, is refused and leaves the registry as it was. Otherwise a fresh waiting game replaces whatever was there: the caller as X, names X and an empty O, the action time set to now. The reply is an error when the welcome message fails |
| GameHandlers.JoiningDisciplined | src/games/tictactoe_4x4/handlers.py:115-117 | a second user joining a waiting game keeps the bookkeeping, with X to move and no pieces |
| GameHandlers.JoinCommand | src/games/tictactoe_4x4/handlers.py:72-145 | the refusals come in this order: private chat, no game, not waiting, O seat taken (truthy), caller is X. The registry changes exactly when none applies. The change seats O, sets its name, enters placement and refreshes the action time. A WebApp game is changed all the same, but the reply is an error |
| GameHandlers.ButtonCallback | src/games/tictactoe_4x4/handlers.py:175-226 | a missing, waiting or finished game is refused with no change. On a live inline-keyboard game the click is played exactly when the caller is seated at the player to move; it refreshes the action time and then goes to the game. Every other outcome leaves the registry as it was |
| GameHandlers.StartKeepsDiscipline | src/games/tictactoe_4x4/handlers.py:39-44 | `/start` keeps the bookkeeping of every game in the registry |
| GameHandlers.JoinCommandKeepsDiscipline | src/games/tictactoe_4x4/handlers.py:114-118 | `/join` keeps the bookkeeping of every game in the registry |
| GameHandlers.ButtonCallbackKeepsDiscipline | src/games/tictactoe_4x4/handlers.py:206-218 | a board click through this handler keeps the bookkeeping of every game in the registry |
| GameHandlers.OnlyTheMoverPlays | src/games/tictactoe_4x4/handlers.py:206-218 | on a disciplined live game, a click is played exactly when it comes from the user seated at the player to move |
| GameHandlers.StartThenJoin | src/games/tictactoe_4x4/handlers.py:38-118 | `/start` followed by `/join` from another user seats both players, opens placement with X to move, and keeps the bookkeeping |
| CallbackHandlers.CheckInactivity | src/bot/handlers/callback_handlers.py:10-34 | the game is deleted exactly when it is live, strictly more than 60 ticks idle, and its announcement goes out; the result then names the opponent of the player to move as the winner. Otherwise nothing changes and no winner is named. A raise happens only for an expired game, and a disciplined game raises exactly when the send fails |
| CallbackHandlers.HandleJoinGame | src/bot/handlers/callback_handlers.py:69-118 | the refusals come in this order: no game, not waiting, caller is X (checked before the O seat, unlike `/join`), O seat taken. The registry changes exactly when the game waits, an X key not holding the caller exists, and an O key exists but is not truthy. The change seats O, sets its name and enters placement, touching nothing else: not the action time, not the turn |
| CallbackHandlers.HandleGameMove | src/bot/handlers/callback_handlers.py:120-170 | a missing or waiting game is refused. The registry changes exactly when the game is in placement, the caller is seated at the player to move and the cell is empty. The change places the mark, raises that counter and passes the turn, with the phase left at placement |
| CallbackHandlers.ButtonClick | src/bot/handlers/callback_handlers.py:49-67 | the join button goes to the join handler and a cell button to the move handler, and only that chat's entry can change |
| CallbackHandlers.CheckInactivityKeepsDiscipline | src/bot/handlers/callback_handlers.py:18-33 | the inactivity test keeps the bookkeeping of every remaining game |
| CallbackHandlers.HandleJoinGameKeepsDiscipline | src/bot/handlers/callback_handlers.py:96-99 | the join button keeps the bookkeeping of every game in the registry |
| CallbackHandlers.JoinButtonNeverJoinsStartedGame | src/bot/handlers/callback_handlers.py:88-94 | a game opened by `/start` has no O key, so the join button never seats anyone in it |
| CallbackHandlers.PlacementNeverEnds | src/bot/handlers/callback_handlers.py:144-158 | a placement through this handler keeps the phase at placement. Before the eighth piece it keeps an inline-keyboard game's bookkeeping. The eighth piece leaves four pieces each with X to move, breaking the bookkeeping |
| CallbackHandlers.FifthPiece | src/bot/handlers/callback_handlers.py:144-158 | after that, X's next click on an empty cell is a fifth X piece, still in placement |
| WebAppHandlers.Fresh | src/bot/handlers/webapp_handlers.py:47-52 | the game opened for a chat without one seats the sender as X with their name, waits with X to move, and satisfies the bookkeeping |
| WebAppHandlers.Opening | src/bot/handlers/webapp_handlers.py:47-52 | an existing game is kept as it was; a chat without one gets the fresh game; no other chat changes |
| WebAppHandlers.AfterMove | src/bot/handlers/webapp_handlers.py:92-97 | after a successful move that did not win, reaching four pieces each in placement starts movement with X to move; any other such move passes the turn. Nothing else changes |
| WebAppHandlers.Refresh | src/bot/handlers/webapp_handlers.py:102 | a WebApp game is stored with the action time set to now. An inline-keyboard game has no such method, so it is stored without it and the handler fails |
| WebAppHandlers.JoinAction | src/bot/handlers/webapp_handlers.py:57-64 | on a WebApp game with an empty O seat and a sender other than X, O is seated with the sender's id and name, the phase becomes placement and the action time now, nothing else changes; when the joined reply fails the seat stays but the time is not refreshed and the handler fails. Any other join only refreshes the time. A game without an O key fails unchanged |
| WebAppHandlers.MoveAction | src/bot/handlers/webapp_handlers.py:68-102 | only the sender's chat changes. A sender not seated at the player to move is refused with no change; an inline-keyboard game fails unchanged. For the seated mover on a WebApp game: a raising move fails unchanged; a refused move only refreshes the time; a winning move is announced for the mover and deletes the game, or, when the reply fails, leaves the game marked finished; any other success stores the game after the phase and turn step with the time refreshed |
| WebAppHandlers.HandleWebappData | src/bot/handlers/webapp_handlers.py:28-109 | only the sender's chat can change, and a chat without a game gets the fresh one. On the game after that step, a join and a move have exactly the effects stated for the two actions, and any other action only refreshes the time. A win is announced exactly when the game leaves the registry: only for a move by the seated mover on a WebApp game, naming the mover |
| WebAppHandlers.OnlyMoverCanWin | src/bot/handlers/webapp_handlers.py:79-90 | if a board has no won shape and a move adds no marks of the opponent, the module check cannot name the opponent afterwards |
| WebAppHandlers.AnnouncedWinnerIsBoardWinner | src/bot/handlers/webapp_handlers.py:79-90 | when a win is announced, the module check on the board after the move names the announced symbol, and the sender holds that seat |
| WebAppHandlers.ClassicGamesUntouched | src/bot/handlers/webapp_handlers.py:57-109 | a disciplined inline-keyboard game is never changed by this handler; every action is refused or fails |
| WebAppHandlers.SuccessfulMoveKeepsDiscipline | src/bot/handlers/webapp_handlers.py:73-97 | a successful move that does not win, followed by the phase and turn step, keeps a WebApp game's bookkeeping |
| WebAppHandlers.StoreKeepsDiscipline | src/bot/handlers/webapp_handlers.py:89-102 | storing a disciplined game, storing it with a fresh action time, and deleting a game all keep the registry's bookkeeping |
| WebAppHandlers.WebJoinKeepsDiscipline | src/bot/handlers/webapp_handlers.py:57-61 | the join action keeps the bookkeeping of every game in the registry |
| WebAppHandlers.WebMoveKeepsDiscipline | src/bot/handlers/webapp_handlers.py:68-102 | the move action keeps the bookkeeping of every other game; the moved game keeps it exactly unless a win's reply failed and left it registered as finished |
| WebAppHandlers.HandleWebappDataKeepsDiscipline | src/bot/handlers/webapp_handlers.py:28-109 | every WebApp message keeps the bookkeeping of every other game, and of the sender's game unless it is a winning move whose reply failed |
| WebAppHandlers.FailedWinReplyStrandsGame | src/bot/handlers/webapp_handlers.py:82-89 | a move that would be announced as a win instead leaves its game registered, finished, with the moved board and a won shape, when the winning reply fails; the bookkeeping is then broken |
| Timeouts.CheckGameTimeouts | src/games/tictactoe_4x4/utils.py:6-32 | the sweep raises exactly when some live game, more than 60 ticks idle, has a missing winner name or a failed send; then nothing is deleted. Otherwise exactly the expired games are deleted, each announced with the opponent of the player to move as winner. Bookkeeping is kept |
| Timeouts.TimeoutHandler | src/bot/handlers/error_handlers.py:37-59 | the job raises exactly when some live game lacks its winner's name entry; then nothing is deleted. Otherwise every live game is deleted, whatever its idle time and even when the send fails, each with the opponent of the player to move as winner. Exactly the games whose send succeeded are announced. Bookkeeping is kept |
| Timeouts.SweepsOnlyFailOnSends | src/bot/handlers/error_handlers.py:41-52 | under the bookkeeping every live game has its winner's name entry, so the job never raises, and the idle sweep raises exactly when an expired chat's send fails |
| Timeouts.SweepMatchesInactivityTest | src/games/tictactoe_4x4/utils.py:12-13 | with the default limit of 60, a chat is swept exactly when the per-chat inactivity test would end its game, and the test then names the same winner the sweep announces |
| Timeouts.JobIgnoresActivity | src/bot/handlers/error_handlers.py:41-43 | a live game whose last action is this very moment is ended by the scheduled job, but not by the idle sweep or the inactivity test |
| Timeouts.SweepsCompared | src/games/tictactoe_4x4/utils.py:12-32 | run on the same disciplined registry, every game the idle sweep ends is ended by the scheduled job with the same winner; the job ends every live game and leaves registered only games the idle sweep leaves too |

## Left out

- Telegram I/O:
  - replies, message edits, callback answers, keyboards and rendering (`create_keyboard`, `get_game_state_message`, `_animate_win`, `create_game_keyboard`, `send_game_update`);
  - theme strings, logging and the `help` commands.

  These are presentation code in a library outside this model. Only whether a send fails is kept, because it decides what stays in the registry: the announcement of the two sweeps and of the inactivity test, and the text reply of the WebApp handler.
- asyncio: each handler call is one atomic step, and the event-loop clock is an integer parameter `now`.
- `GAME_TIMEOUT_SECONDS` is read from the `TIMEOUT_SECONDS` environment variable; the model fixes it at its default of 60. `src/main.py` schedules `timeout_handler` every `GAME_TIMEOUT_SECONDS`; the schedule is not modelled, since each call of the job is modelled on its own.
- JSON decoding of WebApp data, and the `"row,col"` callback string:
  - The handlers take decoded values: an `Action`, positions as optional integers, and a cell button as an in-bounds cell.
  - Non-integer JSON values are not modelled.
  - Neither is a callback string that fails to parse or names a cell off the board.
  - A WebApp message that is not JSON returns before touching the registry, so it is not modelled either.
- Reply failures in `join_command`: its keyboard-message edit runs after every write to the game, so a failure changes only the reply, which the model does not distinguish. Reply failures in `handle_webapp_data` are modelled by the `replyFails` parameter.
- A registry with no `"games"` key is taken to be an empty map.
- Display names and message ids are opaque values; `chat_id` fields of the game records are not kept.
- The sweeps' iteration order over the registry's dictionary is an arbitrary order. Both sweeps' results are stated for every order.
- The winning pattern `handle_webapp_data` computes on a win is never used, so it is not modelled.
- `find_winning_pattern` of the game class has no body; `TicTacToe.ClassicWinningPattern` returns None for it.
- `GameState.update_last_action_time` is modelled inside `WebAppHandlers.Refresh`, not as a member of its own.
- `check_inactivity` is modelled, but no handler calls it.
- `error_handler`, `format_game_stats`, `src/bot/handlers/command_handlers.py` and `src/bot/keyboards/game_keyboard.py` hold no game logic.
