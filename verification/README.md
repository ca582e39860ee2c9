# Ludo rules engine in Dafny

This project models the rules engine of a browser Ludo game. The engine has four parts:

- the board topology and move rules of `src/store/gameUtils.js`;
- the turn state machine `gameReducer` of `src/store/gameReducer.js`;
- the move gate and board helpers of `src/store/gameHooks.js`;
- the roster and constants of `src/store/gameTypes.js`.

Everything is pure and functional. Players, game states and actions are immutable datatypes. The per-colour path tables are constant sequences. The reducer is a total function from a state and an action to `Result<GameState, Fault>`.

The die value is part of the action: `RollDice(d)` with `d` in 1..6.

Modules, in dependency order:

| file | module | models |
|---|---|---|
| `wrappers.dfy` | `Wrappers` | `Option` and `Result` |
| `game_types.dfy` | `GameTypes` | `GAME_CONSTANTS`, `PLAYER_CONFIGS`, `GAME_STATUS`, `NETWORK_MODE`, `CONNECTION_STATUS`, the player record |
| `board.dfy` | `Board` | `getPathPositions`, `getPiecePosition`, `isSafeZone`, `is*PieceArea` |
| `moves.dfy` | `Moves` | `canMovePiece`, `calculateNewPosition`, `getMovablePieces`, `hasPlayerWon`, `getPiecesAtPosition`, `findCapturablePieces` |
| `reducer.dfy` | `Reducer` | `initialGameState` and the `gameReducer` cases |
| `hooks.dfy` | `Hooks` | `handlePieceClick`, `getHomePieces`, `getPiecesOnCell`, `getTotalMoves`, `getPlayerMoves`, `getPlayersForPreview` |
| `legal_play.dfy` | `LegalPlay` | the invariant that legal play keeps pieces in [0, 57] |
| `scenarios.dfy` | `Scenarios` | turn-level consequences and concrete openings |

How the JavaScript is represented:

- JavaScript's `%` truncates toward zero. It is modelled by `Reducer.JsRem`.
- A `MOVE_PIECE`, `UPDATE_PIECE_POSITION` or `CAPTURE_PIECE` payload whose player index names no seat throws a `TypeError` in the source. The model returns `Failure(ThrowsTypeError)`.
- A payload whose piece index lies outside the seat's array is written anyway by the source. The model returns `Failure(PieceOutsideArray)` instead; see "Left out".
- A turn hand-over with `numberOfPlayers == 0` computes `NaN` in the source. The model returns `Failure(SeatIsNaN)`.

The reducer trusts the `MOVE_PIECE` payload, exactly as the source does. It does not check `moveRequired`, `canMovePiece`, `gameStatus` or `isMyTurn`. The only legality check in front of `MOVE_PIECE` is `handlePieceClick`. `LegalPlay` therefore defines legal play as actions the UI can dispatch: a `MOVE_PIECE` must be one that `Hooks.HandlePieceClick` issues. Under that definition, legal play never faults and keeps every piece in [0, 57].

## Model

| member | source | states |
|---|---|---|
| GameTypes.PlayerConfigs | src/store/gameTypes.js:43-59 | The roster exists exactly for 2, 3 and 4 seats. It has n entries with pairwise distinct colours. Each entry carries its colour's fixed id and name. Seat 0 is red and the last seat is not red. |
| GameTypes.SeatOrder | src/store/gameTypes.js:44-58 | Seat order is red, yellow for 2 seats; red, blue, yellow for 3; red, blue, yellow, green for 4. |
| Board.PathTable | src/store/gameUtils.js:4-76 | Red and yellow tables have 56 entries; blue and green have 57. Each table is its colour's 51-cell ring part followed by its home stretch. |
| Board.PiecePosition | src/store/gameUtils.js:79-83 | There is a cell exactly for path indices 1 through the table length, and it is the table's entry p-1. Index 0 has no cell. Index 57 has no cell exactly for red and yellow. |
| Board.StartAndNinthCells | src/store/gameUtils.js:4-76 | Path index 1 and path index 9 are ring entries 0 and 8 of every colour: red (6,1) and (2,6), blue (13,6) and (8,2), yellow (8,13) and (12,8), green (1,8) and (6,12). |
| Board.SafeZonesAreStartAndNinth | src/store/gameUtils.js:146-158 | A cell is safe if and only if it is some colour's path index 1 or path index 9. |
| Board.SafeCells | src/store/gameUtils.js:146-158 | The safe set has exactly 8 cells, and it contains the path index 1 and path index 9 cell of every colour, so it is exactly those cells. |
| Board.IsSafeZone | src/store/gameUtils.js:146-158 | `isSafeZone` accepts a cell exactly when it is in the safe set, that is, some colour's exit cell or ninth cell. |
| Board.HomeStretchExclusive | src/store/gameUtils.js:4-76 | A cell of one colour's home stretch (entries after the 51st) appears nowhere in another colour's table. |
| Board.IsPieceArea | src/store/gameUtils.js:222-225 | A cell is in a colour's piece area exactly when it is one of that colour's four yard cells, and no cell is in two colours' areas. |
| Moves.CanMovePiece | src/store/gameUtils.js:86-107 | False for any seat but the current one and for any die <= 0. True only for an existing slot. A yard piece is movable if and only if the die is 6. A piece at p > 0 is movable if and only if p + d <= 57. A movable piece is never at 57. |
| Moves.CalculateNewPosition | src/store/gameUtils.js:110-120 | A yard piece with a 6 goes to 1. A piece on the path moves exactly d when that does not overshoot, and otherwise stops at 57. A yard piece without a 6, and a negative position, are unchanged. |
| Moves.MovableTarget | src/store/gameUtils.js:96-117 | For a movable piece the target lies in [1, 57]. A yard exit lands on 1. Any other move lands exactly d further on, so the clamp to 57 never applies. |
| Moves.GetMovablePieces | src/store/gameUtils.js:123-138 | The result holds exactly the slots of that seat that `canMovePiece` allows, in ascending slot order. It has at most one entry per piece. It is empty for a missing seat or a die <= 0. |
| Moves.HasPlayerWon | src/store/gameUtils.js:141-143 | A seat has won exactly when every piece in its array is at 57, so its array is all 57s; an empty array counts as won, as `every` does. |
| Moves.WinnerHasNoMove | src/store/gameUtils.js:141-143 | A seat whose pieces are all at 57 has no movable piece. |
| Moves.GetPiecesAtPosition | src/store/gameUtils.js:161-180 | The result holds exactly the pieces drawn on the target cell outside the excluded seat, in seat-then-slot order. It is empty when there is no target. |
| Moves.FindCapturablePieces | src/store/gameUtils.js:183-215 | Empty at a safe cell. Elsewhere it holds exactly the pieces of other seats, off the yard, drawn on the target, in seat-then-slot order. It never holds the mover's pieces. |
| Moves.CapturesAreOtherOccupants | src/store/gameUtils.js:183-215 | Away from safe cells, `findCapturablePieces` returns the same list as `getPiecesAtPosition` with the mover's seat excluded: yard pieces have no cell, so the yard test adds nothing. |
| Moves.HomeStretchNeverCaptures | src/store/gameUtils.js:183-215 | A move into the mover's home stretch (path index 52 or more) captures nothing when every other seat has a different colour. |
| Reducer.RosterFor | src/store/gameReducer.js:66 | START_GAME's roster has n seats for n in 2..4 and falls back to the 4-seat roster otherwise. Seat colours follow the seat order, and every entry carries its colour's fixed id and name. |
| Reducer.InitialGameState | src/store/gameReducer.js:6-51 | Setup status, not started, 4 seats selected. The four seats are red, blue, yellow, green with their ids and names, every piece in the yard and score 0. Turn, dice and histories are empty, there is no winner, and the game is local, disconnected, with every turn this client's. |
| Reducer.JsRem | src/store/gameReducer.js:141 | JavaScript remainder: the sign follows the dividend and the magnitude is below the divisor's. The result is congruent to the dividend modulo the divisor. A dividend already in range is unchanged, and one equal to the divisor gives 0. |
| Reducer.NextSeat | src/store/gameReducer.js:141 | `(cur + 1) % n` lies in [0, n) for a non-negative dividend and is congruent to cur + 1. A seat below n-1 advances by one; seat n-1 wraps to 0. |
| Reducer.NextSeatCycles | src/store/gameReducer.js:141 | For a seat in 0..n-1, `(cur + 1) % n` is the next seat, wrapping to 0. It differs from the current seat when n >= 2. |
| Reducer.SetPiece | src/store/gameReducer.js:343-352 | Writing one slot changes that slot alone and keeps every seat's other fields and array length. |
| Reducer.ResetPieces | src/store/gameReducer.js:245-248 | Every listed piece ends in the yard and every other piece keeps its position. |
| Reducer.Land | src/store/gameReducer.js:240-248 | The mover's slot takes the new position, every captured piece goes to the yard, and nothing else changes. |
| Reducer.CapturesOnLanding | src/store/gameReducer.js:229-237 | Captures are computed on the state before the move, at the cell of the new position. There are none when that position has no cell. No captured piece belongs to the mover. |
| Reducer.CaptureEntries | src/store/gameReducer.js:244-258 | There is one `piece_captured` log entry per captured piece, in capture order, naming the captured and capturing pieces. |
| Reducer.StartGameCase | src/store/gameReducer.js:64-93 | The seats come from the roster (4-seat fallback) with their colours, ids and names and every piece in the yard. The raw count is stored. Turn, dice, history and winner are reset and the status becomes in progress. Only player 0 may open in a network game. Every other field is kept. |
| Reducer.RestartGameCase | src/store/gameReducer.js:95-108 | The result is the initial state, except that the selected count and the network fields are kept and `isMyTurn` is recomputed. |
| Reducer.RollDiceCase | src/store/gameReducer.js:110-165 | Refused (state unchanged) while a move is required. With a movable piece: the die is stored, a move is required, `movablePieces` is exactly `getMovablePieces` for the current seat, and sixes are counted. Without one: the turn passes to `(cur+1) % n`, the negated die is stored, sixes reset, exactly one `no_moves_available` entry is logged, and nothing else changes. |
| Reducer.MovePieceCase | src/store/gameReducer.js:221-314 | Throws for a missing seat, and faults with `PieceOutsideArray` for an existing seat and a slot outside its array; succeeds for an existing slot whenever there are seats. Pieces: the mover's slot takes the payload position, the pieces captured on the pre-move state go to the yard, and others are unchanged. Turn: it stays exactly when there is a 6, a capture or 57 and no win; otherwise it passes to `(cur+1) % n`. Dice is 0 and no move is required. A win finishes the game with the mover as winner. `moveHistory` gains one move entry; `turnHistory` gains one `piece_moved` entry and then one `piece_captured` entry per capture, in capture order. |
| Reducer.SwitchPlayerCase | src/store/gameReducer.js:322-335 | The turn goes to the named seat with no move required and the sixes counter reset. `isMyTurn` holds exactly in a local game or when the local peer id is that seat. Nothing else changes. |
| Reducer.SetNetworkModeCase | src/store/gameReducer.js:382-392 | The mode is stored. Going local disconnects, drops the peer id and makes every turn this client's; any other mode keeps those three fields. Nothing else changes. |
| Reducer.UpdatePiecePositionCase | src/store/gameReducer.js:343-352 | Throws for a missing seat and faults for a slot outside the array; succeeds exactly for an existing slot. On success that slot takes the position and every other piece and field is unchanged. |
| Reducer.CapturePieceCase | src/store/gameReducer.js:354-371 | Throws for a missing seat and faults for a slot outside the array; succeeds exactly for an existing slot. On success that piece goes to the yard, a capture record is appended to `moveHistory`, and nothing else changes. |
| Reducer.SyncGameStateCase | src/store/gameReducer.js:408-421 | The peer's snapshot is adopted except for the local network fields, which are kept. `isMyTurn` holds exactly when the local peer id is the snapshot's current seat. |
| Reducer.Reduce | src/store/gameReducer.js:54-449 | An unknown action leaves the state unchanged. Only a roll and the piece-writing actions can fault. START_GAME, RESTART_GAME, ROLL_DICE, MOVE_PIECE, SWITCH_PLAYER, SET_NETWORK_MODE, UPDATE_PIECE_POSITION, CAPTURE_PIECE and SYNC_GAME_STATE give exactly their case function's result. SET_PLAYER_COUNT, SET_DICE_VALUE, SET_MOVE_REQUIRED, SET_CONNECTION_STATUS, WIN_GAME and SET_PLAYER_ID change exactly their own fields; WIN_GAME finishes the game with the given winner and SET_PLAYER_ID recomputes `isMyTurn` from the new id. |
| Hooks.HandlePieceClick | src/store/gameHooks.js:160-197 | A click is refused exactly when `canMovePiece` fails or an animation runs. Otherwise it dispatches MOVE_PIECE with `calculateNewPosition`'s target, which lies in [1, 57]. The dispatch is immediate exactly for a yard exit. |
| Hooks.HomeSlot | src/store/gameHooks.js:264-292 | A yard cell of a colour maps to a slot in 0..3, and only the colour's four piece-area cells map to a slot. |
| Hooks.HomeSlotBijective | src/store/gameHooks.js:264-287 | The four yard cells of each colour map one-to-one onto slots 0..3. |
| Hooks.FirstOfColor | src/store/gameHooks.js:256-257 | The first seat with the given colour, or none when no seat has it. |
| Hooks.GetHomePieces | src/store/gameHooks.js:255-306 | At most one piece is reported. It is reported exactly when the colour has a seat, the cell is one of its yard cells and that slot is at 0. Its movability and current-seat flags are as for `canMovePiece`. |
| Hooks.Describe | src/store/gameHooks.js:229-245 | An occupant is vulnerable exactly when the cell is not safe, the piece is not the current seat's and it is off the yard. It is movable exactly when `canMovePiece` holds and no animation runs. |
| Hooks.GetPiecesOnCell | src/store/gameHooks.js:214-251 | The result lists exactly the pieces whose position is drawn on the cell, each described as above, in seat-then-slot order. |
| Hooks.GetPlayerMoves | src/store/gameHooks.js:61 | A seat's move count is the number of positions in the history holding a move entry by that seat, as `filter(...).length` counts them. So it is at most the history's length, it is 0 exactly when no entry is by that seat, and it equals the length exactly when every entry is. |
| Hooks.GetTotalMoves | src/store/gameHooks.js:60 | The total is 0 exactly for an empty history, and no seat's move count exceeds it. |
| Hooks.MoveCountsOneMove | src/store/gameHooks.js:60-61 | A successful MOVE_PIECE adds one to the total and to the mover's count and leaves every other seat's count unchanged. |
| Hooks.GetPlayersForPreview | src/store/gameHooks.js:137-157 | The preview has 2 or 3 entries for n = 2 or 3 and 4 otherwise; entry i is seat i's colour under its display name. |
| Hooks.PreviewMatchesStart | src/store/gameHooks.js:137-157 | The preview for n shows the names and colours of the seats START_GAME(n) creates, in order, including the 4-seat fallback. |
| LegalPlay.InitialStateValid | src/store/gameReducer.js:6-51 | The initial state has 4 seats, every piece array is [0, 0, 0, 0], and it satisfies the legal-play invariant. |
| LegalPlay.SetPieceInRange | src/store/gameReducer.js:343-352 | Writing an on-board position into an existing slot keeps every piece in [0, 57]. |
| LegalPlay.ClickedMoveKeepsValid | src/store/gameHooks.js:161-172 | A MOVE_PIECE issued by the click gate never faults from a valid state and keeps every piece in [0, 57]. |
| LegalPlay.StepPreservesValid | src/store/gameReducer.js:54-449 | Every legal action from a valid state succeeds and yields a valid state. |
| LegalPlay.LegalRunStaysValid | src/store/gameReducer.js:54-449 | A whole legal sequence of actions from a valid state never faults and ends in a valid state. |
| LegalPlay.LegalGameStaysOnBoard | src/store/gameReducer.js:7-51 | Any game played legally from the initial state keeps every piece in [0, 57]. |
| Scenarios.MoveKeepsTurnIff | src/store/gameReducer.js:261-266 | With at least two seats, a move keeps the turn if and only if the extra-turn rule fires and the mover has not won. |
| Scenarios.Opening | src/store/gameReducer.js:64-93 | After START_GAME(4) there are four seats with every piece in the yard, and red is on turn with no move required. |
| Scenarios.OpeningSixLeavesYard | src/store/gameHooks.js:184-192 | At the opening a 6 requires a move. A click on red's first piece dispatches MOVE_PIECE to 1 immediately, the piece then stands on 1, and red keeps the turn. |
| Scenarios.OpeningNonSixPasses | src/store/gameReducer.js:138-164 | At the opening any roll but 6 passes the turn to seat 1, stores the negated roll and logs one `no_moves_available` entry. |
| Scenarios.RollAfterFinishIsActedOn | src/store/gameReducer.js:110-114 | A finished game still accepts a roll: it either requires a move or passes the turn. |

## Left out

- Dice randomness (`rollDiceValue`, `Math.random`): the die is the `RollDice` payload, in 1..6.
- The animation cases `START_PIECE_ANIMATION`, `STEP_PIECE_ANIMATION` and `END_PIECE_ANIMATION`, and the timer-driven stepping in the hooks. `src/store/gameTypes.js:2-30` does not define these three action types, so the action creators give them `type: undefined`.
- Hooks.HandlePieceClick: `MoveAfterAnimation` models the intended path, not the wired one. For every move other than a yard exit, `animatePieceMove` calls `actions.startPieceAnimation` (src/store/gameHooks.js:71), which the game context's `actions` object does not define, so the click throws a TypeError and no MOVE_PIECE is dispatched. Only the yard exit (src/store/gameHooks.js:191) reaches MOVE_PIECE as wired.
- Hooks.GetPiecesOnCell: a piece being animated is placed at its stored position, not at `animatingPiece.currentPosition` (src/store/gameHooks.js:221-226), because the animation state is not modelled.
- Hooks.Describe: the `isAnimating` flag of an occupant and the animated piece's temporary position are not modelled, because both belong to the animation state.
- Timestamps (`Date.now()` in history entries, `gameEndTime`), logging and sound effects. They have no bearing on the rules.
- The audio cases `PLAY_AUDIO`, `PAUSE_AUDIO` and `STOP_AUDIO`, and the audio fields of the state. They are browser I/O; the model's `Unrecognised` action stands for any action the reducer passes through unchanged.
- In-place mutation of the shared `pieces` arrays, which aliases the old and new state in the source. The model writes pure sequence updates.
- Colour strings outside the four colours (`paths[color] || []`). Colours are a four-value datatype.
- Reducer.SyncGameStateCase: a SYNC_GAME_STATE payload is modelled as a complete state. The source spreads a possibly partial object over the current state.
- The `movablePieces` field is not in the source's initial state. The model starts it as the empty list.
- The pre-check in `handlePieceClick` that only logs how many pieces a move would capture.
- The three-sixes forfeit. It is not enforced anywhere; `consecutiveSixes` is only counted.
- The network transport, the React wiring and the rendering components. The board component's own path tables are not part of this model.
- ROLL_DICE checks only `moveRequired` (src/store/gameReducer.js:111) and MOVE_PIECE checks nothing (src/store/gameReducer.js:221-241), so a finished game still accepts both; see `Scenarios.RollAfterFinishIsActedOn`.
- START_GAME with a count outside 2..4 seats the four-player roster but stores the given count as `numberOfPlayers`. The model keeps this. With a count of 0, the next turn hand-over faults (`SeatIsNaN`), and `LegalPlay` therefore excludes it.
- A red or yellow piece at 57 has no cell in its 56-entry table, so it is drawn nowhere and never captured. Blue and green pieces at 57 sit on their last home cell. The model keeps both behaviours.
- Reducer.MovePieceCase: for an existing seat and a piece index outside its array, the model returns `Failure(PieceOutsideArray)`, while src/store/gameReducer.js:241 writes the slot anyway. At index == length JavaScript appends a piece, beyond it the array becomes sparse, and at a negative index it stores a property that is not an array element. The model does not represent arrays in those shapes.
- Reducer.UpdatePiecePositionCase: the same `Failure(PieceOutsideArray)` stands for the out-of-array write at src/store/gameReducer.js:346.
- Reducer.CapturePieceCase: the same `Failure(PieceOutsideArray)` stands for the out-of-array write at src/store/gameReducer.js:359.
