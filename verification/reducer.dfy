/**
 * The turn state machine of the Ludo engine: `gameReducer` and
 * `initialGameState` (src/store/gameReducer.js), as a pure function from a
 * state and an action to the next state.
 *
 * The die is part of the ROLL_DICE action instead of being drawn inside the
 * reducer. Where the JavaScript would throw, or would leave the integers
 * (a seat computed modulo zero players is NaN), the model returns a Fault.
 */
module Reducer {

  import opened Wrappers
  import opened GameTypes
  import opened Board
  import opened Moves

  /** A face of the die. */
  type Die = d: int | 1 <= d <= 6 witness 1

  /** An entry of `moveHistory`. */
  datatype MoveEntry =
    | Moved(player: int, pieceIndex: int, from: int, to: int, diceValue: int, capturedPieces: int)
    | CaptureRecord(capturedPlayer: int, capturedPiece: int)

  /** An entry of `turnHistory`. */
  datatype TurnEntry =
    | NoMovesAvailable(player: int, diceValue: int)
    | PieceMoved(player: int, pieceIndex: int, from: int, to: int, diceValue: int, capturedPieces: int)
    | PieceCaptured(capturedPlayer: int, capturedPiece: int, capturingPlayer: int, capturingPiece: int)

  /**
   * The game session. `diceValue` is 0 before a roll, positive while a move
   * is awaited, and the negated roll after a forced pass.
   */
  datatype GameState = GameState(
    gameStarted: bool,
    gameStatus: Status,
    numberOfPlayers: int,
    selectedPlayerCount: int,
    players: seq<Player>,
    currentPlayer: int,
    diceValue: int,
    moveRequired: bool,
    movablePieces: seq<PieceRef>,
    consecutiveSixes: int,
    isAnimating: bool,
    moveHistory: seq<MoveEntry>,
    turnHistory: seq<TurnEntry>,
    winner: Option<int>,
    networkMode: NetworkMode,
    connectionStatus: ConnectionStatus,
    playerId: Option<int>,
    channelName: Option<string>,
    isMyTurn: bool)

  /** The action types `gameReducer` handles (animation and audio actions are not modelled). */
  datatype Action =
    | StartGame(numberOfPlayers: int)
    | RestartGame
    | SetPlayerCount(count: int)
    | RollDice(rolled: Die)
    | MovePiece(playerIndex: int, pieceIndex: int, newPosition: int)
    | SetDiceValue(value: int)
    | SwitchPlayer(playerIndex: int)
    | SetMoveRequired(required: bool)
    | UpdatePiecePosition(playerIndex: int, pieceIndex: int, position: int)
    | CapturePiece(capturedPlayerIndex: int, capturedPieceIndex: int, capturingPlayerIndex: int)
    | WinGame(winnerIndex: int)
    | SetNetworkMode(mode: NetworkMode)
    | SetConnectionStatus(status: ConnectionStatus)
    | SetPlayerId(playerId: Option<int>)
    | SyncGameState(gameState: GameState)
    | Unrecognised

  /**
   * Why the reducer has no next state: a missing seat makes the JavaScript
   * throw a TypeError; a slot outside the piece array is written anyway by
   * the JavaScript (appended, left sparse, or stored as a non-element
   * property), which the model does not represent; a seat computed modulo
   * zero players is NaN.
   */
  datatype Fault = ThrowsTypeError | PieceOutsideArray | SeatIsNaN

  /** A freshly seated player: every piece in the yard. */
  function NewPlayer(config: PlayerConfig): Player {
    Player(config.id, config.color, config.name, [0, 0, 0, 0], 0)
  }

  function Seat(configs: seq<PlayerConfig>): seq<Player> {
    seq(|configs|, i requires 0 <= i < |configs| => NewPlayer(configs[i]))
  }

  /** `PLAYER_CONFIGS[n] || PLAYER_CONFIGS[4]` */
  function RosterFor(n: int): (r: seq<PlayerConfig>)
    ensures |r| == (if 2 <= n <= 4 then n else 4)
    ensures Colors(r) == SeatColors(n)
    ensures forall i :: 0 <= i < |r| ==> r[i] == Config(r[i].color)
  {
    SeatOrder(if 2 <= n <= 4 then n else 4);
    match PlayerConfigs(n)
    case Some(configs) => configs
    case None => PlayerConfigs(4).value
  }

  /**
   * initialGameState: the four-seat roster with every piece in the yard,
   * nothing rolled, empty histories, and a local game in which every turn
   * is this client's.
   */
  function InitialGameState(): (s: GameState)
    ensures !s.gameStarted && s.gameStatus == Setup
    ensures s.numberOfPlayers == 4 && s.selectedPlayerCount == 4
    ensures |s.players| == 4
    ensures forall i :: 0 <= i < |s.players| ==>
      && s.players[i].color == SeatColors(4)[i]
      && s.players[i].id == ColorId(s.players[i].color)
      && s.players[i].name == DisplayName(s.players[i].color)
      && s.players[i].pieces == [0, 0, 0, 0]
      && s.players[i].score == 0
    ensures s.currentPlayer == 0 && s.diceValue == 0 && !s.moveRequired && s.consecutiveSixes == 0
    ensures s.movablePieces == [] && !s.isAnimating
    ensures s.moveHistory == [] && s.turnHistory == [] && s.winner.None?
    ensures s.networkMode == Local && s.connectionStatus == Disconnected
    ensures s.playerId.None? && s.channelName.None? && s.isMyTurn
  {
    var configs := RosterFor(4);
    assert forall i :: 0 <= i < |configs| ==> configs[i].color == Colors(configs)[i];
    GameState(
    gameStarted := false,
    gameStatus := Setup,
    numberOfPlayers := 4,
    selectedPlayerCount := 4,
    players := Seat(configs),
    currentPlayer := 0,
    diceValue := 0,
    moveRequired := false,
    movablePieces := [],
    consecutiveSixes := 0,
    isAnimating := false,
    moveHistory := [],
    turnHistory := [],
    winner := None,
    networkMode := Local,
    connectionStatus := Disconnected,
    playerId := None,
    channelName := None,
    isMyTurn := true)
  }

  function Abs(x: int): int {
    if x < 0 then -x else x
  }

  /** `%` on a non-negative dividend and a positive divisor. */
  function NatRem(a: nat, m: int): (r: int)
    requires m > 0
    ensures 0 <= r < m
    ensures a < m ==> r == a
    ensures a == m ==> r == 0
    ensures a == (a / m) * m + r
  {
    a % m
  }

  /** JavaScript's `%`: the remainder of division truncated toward zero, signed like the dividend. */
  function JsRem(a: int, b: int): (r: int)
    requires b != 0
    ensures 0 <= a ==> 0 <= r < Abs(b)
    ensures a < 0 ==> -Abs(b) < r <= 0
    ensures 0 <= a < Abs(b) ==> r == a
    ensures a == Abs(b) ==> r == 0
    ensures exists q: int :: a == q * Abs(b) + r
  {
    var m := Abs(b);
    if a >= 0 then
      var r := NatRem(a, m);
      assert a == (a / m) * m + r;
      r
    else
      var r := NatRem(-a, m);
      assert a == (-((-a) / m)) * m + -r;
      -r
  }

  /** `(currentPlayer + 1) % numberOfPlayers` */
  function NextSeat(currentPlayer: int, numberOfPlayers: int): (r: int)
    requires numberOfPlayers != 0
    ensures 0 <= currentPlayer + 1 ==> 0 <= r < Abs(numberOfPlayers)
    ensures currentPlayer + 1 < 0 ==> -Abs(numberOfPlayers) < r <= 0
    ensures 0 <= currentPlayer + 1 < Abs(numberOfPlayers) ==> r == currentPlayer + 1
    ensures currentPlayer + 1 == Abs(numberOfPlayers) ==> r == 0
    ensures exists q: int :: currentPlayer + 1 == q * Abs(numberOfPlayers) + r
  {
    JsRem(currentPlayer + 1, numberOfPlayers)
  }

  /** For a seat of a game of n players, the next seat is the following one, wrapping to 0. */
  lemma NextSeatCycles(currentPlayer: int, n: int)
    requires 0 <= currentPlayer < n
    ensures 0 <= NextSeat(currentPlayer, n) < n
    ensures NextSeat(currentPlayer, n) == if currentPlayer + 1 == n then 0 else currentPlayer + 1
    ensures n >= 2 ==> NextSeat(currentPlayer, n) != currentPlayer
  {
  }

  /** Who may act locally on `seat`: everyone in a local game, else only the matching peer. */
  predicate TurnOwned(s: GameState, seat: int) {
    s.networkMode == Local || s.playerId == Some(seat)
  }

  /** After a start or restart seat 0 moves first; a peer without an id counts as seat 0. */
  predicate OwnsOpeningTurn(s: GameState) {
    s.networkMode == Local || s.playerId == Some(0) || s.playerId.None?
  }

  /** Every field other than the pieces' positions agrees. */
  ghost predicate SameShape(a: seq<Player>, b: seq<Player>) {
    && |a| == |b|
    && forall i :: 0 <= i < |a| ==> a[i].(pieces := b[i].pieces) == b[i] && |a[i].pieces| == |b[i].pieces|
  }

  /** Writes `position` into one piece slot. */
  function SetPiece(players: seq<Player>, x: PieceRef, position: int): (r: seq<Player>)
    requires ValidRef(players, x)
    ensures SameShape(players, r)
    ensures PositionOf(r, x) == position
    ensures forall y :: ValidRef(players, y) && y != x ==> PositionOf(r, y) == PositionOf(players, y)
  {
    var p := players[x.playerIndex];
    players[x.playerIndex := p.(pieces := p.pieces[x.pieceIndex := position])]
  }

  /** Sends every listed piece back to the yard, one after the other. */
  function ResetPieces(players: seq<Player>, captured: seq<PieceRef>): (r: seq<Player>)
    requires forall x :: x in captured ==> ValidRef(players, x)
    ensures SameShape(players, r)
    ensures forall y :: ValidRef(players, y) ==>
      PositionOf(r, y) == if y in captured then HOME_POSITION else PositionOf(players, y)
    decreases |captured|
  {
    if |captured| == 0 then players
    else
      var next := SetPiece(players, captured[0], HOME_POSITION);
      assert forall x :: x in captured[1..] ==> x in captured;
      ResetPieces(next, captured[1..])
  }

  /** The mover's slot takes `newPosition`, then every captured piece goes back to the yard. */
  function Land(players: seq<Player>, me: PieceRef, newPosition: int, captured: seq<PieceRef>): (r: seq<Player>)
    requires ValidRef(players, me)
    requires forall x :: x in captured ==> ValidRef(players, x) && x.playerIndex != me.playerIndex
    ensures SameShape(players, r)
    ensures PositionOf(r, me) == newPosition
    ensures forall x :: ValidRef(players, x) && x in captured ==> PositionOf(r, x) == HOME_POSITION
    ensures forall x :: ValidRef(players, x) && x != me && x !in captured ==>
      PositionOf(r, x) == PositionOf(players, x)
  {
    var moved := SetPiece(players, me, newPosition);
    assert forall x :: ValidRef(players, x) <==> ValidRef(moved, x);
    ResetPieces(moved, captured)
  }

  /** The pieces a piece of seat `mover` captures by landing on path index `newPosition`. */
  function CapturesOnLanding(players: seq<Player>, mover: int, newPosition: int): (r: seq<PieceRef>)
    requires 0 <= mover < |players|
    ensures forall x :: x in r ==> ValidRef(players, x) && x.playerIndex != mover
    ensures PiecePosition(players[mover].color, newPosition).None? ==> r == []
    ensures PiecePosition(players[mover].color, newPosition).Some? ==>
      r == FindCapturablePieces(players, PiecePosition(players[mover].color, newPosition).value, mover)
  {
    match PiecePosition(players[mover].color, newPosition)
    case None => []
    case Some(cell) => FindCapturablePieces(players, cell, mover)
  }

  /** The extra-turn rule before the win check: a six, a capture, or reaching 57. */
  predicate ExtraTurn(diceValue: int, captures: int, newPosition: int) {
    diceValue == WINNING_DICE_VALUE || captures > 0 || newPosition == MAX_POSITION
  }

  function CaptureEntries(captured: seq<PieceRef>, playerIndex: int, pieceIndex: int): (r: seq<TurnEntry>)
    ensures |r| == |captured|
    ensures forall i :: 0 <= i < |r| ==>
      r[i] == PieceCaptured(captured[i].playerIndex, captured[i].pieceIndex, playerIndex, pieceIndex)
  {
    seq(|captured|, i requires 0 <= i < |captured| =>
      PieceCaptured(captured[i].playerIndex, captured[i].pieceIndex, playerIndex, pieceIndex))
  }

  /**
   * START_GAME: seats PLAYER_CONFIGS[n] (the four-player roster for any
   * other n) with every piece in the yard, and opens the first turn.
   * The count itself is stored as given.
   */
  function StartGameCase(s: GameState, n: int): (t: GameState)
    ensures |t.players| == (if 2 <= n <= 4 then n else 4)
    ensures forall i :: 0 <= i < |t.players| ==>
      && t.players[i].color == SeatColors(n)[i]
      && t.players[i].id == ColorId(t.players[i].color)
      && t.players[i].name == DisplayName(t.players[i].color)
      && t.players[i].pieces == [0, 0, 0, 0]
      && t.players[i].score == 0
    ensures t.numberOfPlayers == n
    ensures t.gameStarted && t.gameStatus == InProgress
    ensures t.currentPlayer == 0 && t.diceValue == 0 && !t.moveRequired && t.consecutiveSixes == 0
    ensures t.moveHistory == [] && t.turnHistory == [] && t.winner == None
    ensures t.isMyTurn == OwnsOpeningTurn(s)
    ensures t.(gameStarted := s.gameStarted, gameStatus := s.gameStatus, numberOfPlayers := s.numberOfPlayers,
               players := s.players, currentPlayer := s.currentPlayer, diceValue := s.diceValue,
               moveRequired := s.moveRequired, consecutiveSixes := s.consecutiveSixes,
               moveHistory := s.moveHistory, turnHistory := s.turnHistory, winner := s.winner,
               isMyTurn := s.isMyTurn) == s
  {
    var configs := RosterFor(n);
    assert forall i :: 0 <= i < |configs| ==> configs[i].color == Colors(configs)[i];
    s.(gameStarted := true,
       gameStatus := InProgress,
       numberOfPlayers := n,
       players := Seat(configs),
       currentPlayer := 0,
       diceValue := 0,
       moveRequired := false,
       consecutiveSixes := 0,
       moveHistory := [],
       turnHistory := [],
       winner := None,
       isMyTurn := OwnsOpeningTurn(s))
  }

  /**
   * RESTART_GAME: back to the initial state, keeping only the selected
   * player count and the network fields.
   */
  function RestartGameCase(s: GameState): (t: GameState)
    ensures t.selectedPlayerCount == s.selectedPlayerCount
    ensures t.networkMode == s.networkMode && t.connectionStatus == s.connectionStatus
    ensures t.playerId == s.playerId && t.channelName == s.channelName
    ensures t.isMyTurn == OwnsOpeningTurn(s)
    ensures t.(selectedPlayerCount := 4, networkMode := Local, connectionStatus := Disconnected,
               playerId := None, channelName := None, isMyTurn := true) == InitialGameState()
  {
    InitialGameState().(
      selectedPlayerCount := s.selectedPlayerCount,
      networkMode := s.networkMode,
      connectionStatus := s.connectionStatus,
      playerId := s.playerId,
      channelName := s.channelName,
      isMyTurn := OwnsOpeningTurn(s))
  }

  /** Some piece of the current seat can move with die `d`. */
  ghost predicate HasMove(s: GameState, d: int) {
    exists k :: CanMovePiece(s.players, s.currentPlayer, d, s.currentPlayer, k)
  }

  /**
   * ROLL_DICE with the rolled value `d`: refused while a move is required;
   * otherwise the roll either demands a move or forces a pass that stores
   * the negated roll and hands the turn on.
   */
  function RollDiceCase(s: GameState, d: Die): (r: Result<GameState, Fault>)
    ensures s.moveRequired ==> r == Success(s)
    ensures !s.moveRequired && HasMove(s, d) ==>
      && r.Success?
      && r.value.diceValue == d
      && r.value.moveRequired
      && r.value.movablePieces == GetMovablePieces(s.players, s.currentPlayer, d)
      && r.value.consecutiveSixes == (if d == WINNING_DICE_VALUE then s.consecutiveSixes + 1 else 0)
      && r.value.(diceValue := s.diceValue, moveRequired := s.moveRequired,
                  consecutiveSixes := s.consecutiveSixes, movablePieces := s.movablePieces) == s
    ensures !s.moveRequired && !HasMove(s, d) && s.numberOfPlayers != 0 ==>
      && r.Success?
      && r.value.currentPlayer == NextSeat(s.currentPlayer, s.numberOfPlayers)
      && r.value.diceValue == -(d as int)
      && !r.value.moveRequired
      && r.value.consecutiveSixes == 0
      && r.value.isMyTurn == TurnOwned(s, r.value.currentPlayer)
      && r.value.turnHistory == s.turnHistory + [NoMovesAvailable(s.currentPlayer, d)]
      && r.value.(currentPlayer := s.currentPlayer, diceValue := s.diceValue, consecutiveSixes := s.consecutiveSixes,
                  isMyTurn := s.isMyTurn, turnHistory := s.turnHistory) == s
    ensures r.Failure? <==> !s.moveRequired && !HasMove(s, d) && s.numberOfPlayers == 0
  {
    if s.moveRequired then Success(s)
    else
      var movable := GetMovablePieces(s.players, s.currentPlayer, d);
      var sixes := if d == WINNING_DICE_VALUE then s.consecutiveSixes + 1 else 0;
      assert |movable| > 0 <==> HasMove(s, d) by {
        if |movable| > 0 {
          assert movable[0] in movable;
        }
        if HasMove(s, d) {
          var k :| CanMovePiece(s.players, s.currentPlayer, d, s.currentPlayer, k);
          assert PieceRef(s.currentPlayer, k) in movable;
        }
      }
      if |movable| > 0 then
        Success(s.(diceValue := d, moveRequired := true, movablePieces := movable, consecutiveSixes := sixes))
      else if s.numberOfPlayers == 0 then
        Failure(SeatIsNaN)
      else
        var nextPlayer := NextSeat(s.currentPlayer, s.numberOfPlayers);
        Success(s.(currentPlayer := nextPlayer,
                   diceValue := -(d as int),
                   moveRequired := false,
                   consecutiveSixes := 0,
                   isMyTurn := TurnOwned(s, nextPlayer),
                   turnHistory := s.turnHistory + [NoMovesAvailable(s.currentPlayer, d)]))
  }

  /**
   * MOVE_PIECE: trusts its payload. Writes the new position, sends every
   * piece captured at the landing cell (computed on the state before the
   * move) back to the yard, logs the move and the captures, applies the
   * extra-turn rule and the win check.
   */
  function MovePieceCase(s: GameState, playerIndex: int, pieceIndex: int, newPosition: int): (r: Result<GameState, Fault>)
    ensures !(0 <= playerIndex < |s.players|) ==> r == Failure(ThrowsTypeError)
    ensures 0 <= playerIndex < |s.players| && !ValidRef(s.players, PieceRef(playerIndex, pieceIndex)) ==>
      r == Failure(PieceOutsideArray)
    ensures ValidRef(s.players, PieceRef(playerIndex, pieceIndex)) && s.numberOfPlayers != 0 ==> r.Success?
    ensures r.Success? ==>
      var me := PieceRef(playerIndex, pieceIndex);
      var t := r.value;
      var captured := CapturesOnLanding(s.players, playerIndex, newPosition);
      && ValidRef(s.players, me)
      && SameShape(s.players, t.players)
      && var won := HasPlayerWon(t.players[playerIndex]);
      && PositionOf(t.players, me) == newPosition
      && (forall x :: ValidRef(s.players, x) && x in captured ==> PositionOf(t.players, x) == HOME_POSITION)
      && (forall x :: ValidRef(s.players, x) && x != me && x !in captured ==>
            PositionOf(t.players, x) == PositionOf(s.players, x))
      && t.diceValue == 0
      && !t.moveRequired
      && (ExtraTurn(s.diceValue, |captured|, newPosition) && !won ==>
            t.currentPlayer == s.currentPlayer && t.consecutiveSixes == s.consecutiveSixes)
      && (!(ExtraTurn(s.diceValue, |captured|, newPosition) && !won) ==>
            s.numberOfPlayers != 0 &&
            t.currentPlayer == NextSeat(s.currentPlayer, s.numberOfPlayers) && t.consecutiveSixes == 0)
      && t.isMyTurn == TurnOwned(s, t.currentPlayer)
      && (won ==> t.gameStatus == Finished && t.winner == Some(playerIndex))
      && (!won ==> t.gameStatus == s.gameStatus && t.winner == s.winner)
      && t.moveHistory == s.moveHistory +
           [Moved(playerIndex, pieceIndex, PositionOf(s.players, me), newPosition, s.diceValue, |captured|)]
      && t.turnHistory == s.turnHistory
           + [PieceMoved(playerIndex, pieceIndex, PositionOf(s.players, me), newPosition, s.diceValue, |captured|)]
           + CaptureEntries(captured, playerIndex, pieceIndex)
      && t.(players := s.players, currentPlayer := s.currentPlayer, diceValue := s.diceValue,
            moveRequired := s.moveRequired, consecutiveSixes := s.consecutiveSixes,
            moveHistory := s.moveHistory, turnHistory := s.turnHistory, isMyTurn := s.isMyTurn,
            gameStatus := s.gameStatus, winner := s.winner) == s
  {
    if !(0 <= playerIndex < |s.players|) then Failure(ThrowsTypeError)
    else if !(0 <= pieceIndex < |s.players[playerIndex].pieces|) then Failure(PieceOutsideArray)
    else
      var me := PieceRef(playerIndex, pieceIndex);
      var oldPosition := PositionOf(s.players, me);
      var captured := CapturesOnLanding(s.players, playerIndex, newPosition);
      var players := Land(s.players, me, newPosition, captured);
      var playerWon := HasPlayerWon(players[playerIndex]);
      var getsAnotherTurn := ExtraTurn(s.diceValue, |captured|, newPosition) && !playerWon;
      if !getsAnotherTurn && s.numberOfPlayers == 0 then Failure(SeatIsNaN)
      else
        var nextPlayer := if getsAnotherTurn then s.currentPlayer else NextSeat(s.currentPlayer, s.numberOfPlayers);
        var entry := Moved(playerIndex, pieceIndex, oldPosition, newPosition, s.diceValue, |captured|);
        var next := s.(
          players := players,
          currentPlayer := nextPlayer,
          diceValue := 0,
          moveRequired := false,
          consecutiveSixes := if getsAnotherTurn then s.consecutiveSixes else 0,
          moveHistory := s.moveHistory + [entry],
          turnHistory := s.turnHistory
            + [PieceMoved(playerIndex, pieceIndex, oldPosition, newPosition, s.diceValue, |captured|)]
            + CaptureEntries(captured, playerIndex, pieceIndex),
          isMyTurn := TurnOwned(s, nextPlayer));
        if playerWon then Success(next.(gameStatus := Finished, winner := Some(playerIndex)))
        else Success(next)
  }

  /** SWITCH_PLAYER: hands the turn to `playerIndex` with a fresh turn state. */
  function SwitchPlayerCase(s: GameState, playerIndex: int): (t: GameState)
    ensures t.currentPlayer == playerIndex
    ensures !t.moveRequired && t.consecutiveSixes == 0
    ensures t.isMyTurn <==> s.networkMode == Local || s.playerId == Some(playerIndex)
    ensures t.(currentPlayer := s.currentPlayer, moveRequired := s.moveRequired,
               consecutiveSixes := s.consecutiveSixes, isMyTurn := s.isMyTurn) == s
  {
    s.(currentPlayer := playerIndex, moveRequired := false, consecutiveSixes := 0,
       isMyTurn := TurnOwned(s, playerIndex))
  }

  /** SET_NETWORK_MODE: going local drops the connection and the peer id and gives every turn to this client. */
  function SetNetworkModeCase(s: GameState, mode: NetworkMode): (t: GameState)
    ensures t.networkMode == mode
    ensures mode == Local ==> t.connectionStatus == Disconnected && t.playerId.None? && t.isMyTurn
    ensures mode != Local ==>
      t.connectionStatus == s.connectionStatus && t.playerId == s.playerId && t.isMyTurn == s.isMyTurn
    ensures t.(networkMode := s.networkMode, connectionStatus := s.connectionStatus,
               playerId := s.playerId, isMyTurn := s.isMyTurn) == s
  {
    s.(networkMode := mode,
       connectionStatus := if mode == Local then Disconnected else s.connectionStatus,
       playerId := if mode == Local then None else s.playerId,
       isMyTurn := if mode == Local then true else s.isMyTurn)
  }

  /**
   * SYNC_GAME_STATE: adopts the peer's snapshot but keeps this client's own
   * network fields, and recomputes whose turn it is from the local peer id.
   */
  function SyncGameStateCase(s: GameState, g: GameState): (t: GameState)
    ensures t.networkMode == s.networkMode && t.connectionStatus == s.connectionStatus
    ensures t.playerId == s.playerId && t.channelName == s.channelName
    ensures t.isMyTurn <==> s.playerId == Some(g.currentPlayer)
    ensures t.(networkMode := g.networkMode, connectionStatus := g.connectionStatus,
               playerId := g.playerId, channelName := g.channelName, isMyTurn := g.isMyTurn) == g
  {
    g.(networkMode := s.networkMode,
       connectionStatus := s.connectionStatus,
       playerId := s.playerId,
       channelName := s.channelName,
       isMyTurn := s.playerId == Some(g.currentPlayer))
  }

  /** UPDATE_PIECE_POSITION: writes one slot; nothing else changes. */
  function UpdatePiecePositionCase(s: GameState, playerIndex: int, pieceIndex: int, position: int): (r: Result<GameState, Fault>)
    ensures !(0 <= playerIndex < |s.players|) ==> r == Failure(ThrowsTypeError)
    ensures r.Success? <==> ValidRef(s.players, PieceRef(playerIndex, pieceIndex))
    ensures r.Success? ==>
      var x := PieceRef(playerIndex, pieceIndex);
      && SameShape(s.players, r.value.players)
      && PositionOf(r.value.players, x) == position
      && (forall y :: ValidRef(s.players, y) && y != x ==> PositionOf(r.value.players, y) == PositionOf(s.players, y))
      && r.value.(players := s.players) == s
  {
    if !(0 <= playerIndex < |s.players|) then Failure(ThrowsTypeError)
    else if !(0 <= pieceIndex < |s.players[playerIndex].pieces|) then Failure(PieceOutsideArray)
    else Success(s.(players := SetPiece(s.players, PieceRef(playerIndex, pieceIndex), position)))
  }

  /** CAPTURE_PIECE: sends one piece to the yard and logs the capture in moveHistory. */
  function CapturePieceCase(s: GameState, capturedPlayerIndex: int, capturedPieceIndex: int): (r: Result<GameState, Fault>)
    ensures !(0 <= capturedPlayerIndex < |s.players|) ==> r == Failure(ThrowsTypeError)
    ensures r.Success? <==> ValidRef(s.players, PieceRef(capturedPlayerIndex, capturedPieceIndex))
    ensures r.Success? ==>
      var x := PieceRef(capturedPlayerIndex, capturedPieceIndex);
      && SameShape(s.players, r.value.players)
      && PositionOf(r.value.players, x) == HOME_POSITION
      && (forall y :: ValidRef(s.players, y) && y != x ==> PositionOf(r.value.players, y) == PositionOf(s.players, y))
      && r.value.moveHistory == s.moveHistory + [CaptureRecord(capturedPlayerIndex, capturedPieceIndex)]
      && r.value.(players := s.players, moveHistory := s.moveHistory) == s
  {
    if !(0 <= capturedPlayerIndex < |s.players|) then Failure(ThrowsTypeError)
    else if !(0 <= capturedPieceIndex < |s.players[capturedPlayerIndex].pieces|) then Failure(PieceOutsideArray)
    else Success(s.(players := SetPiece(s.players, PieceRef(capturedPlayerIndex, capturedPieceIndex), HOME_POSITION),
                    moveHistory := s.moveHistory + [CaptureRecord(capturedPlayerIndex, capturedPieceIndex)]))
  }

  /** gameReducer */
  function Reduce(s: GameState, a: Action): (r: Result<GameState, Fault>)
    ensures a.Unrecognised? ==> r == Success(s)
    ensures r.Failure? ==> a.RollDice? || a.MovePiece? || a.UpdatePiecePosition? || a.CapturePiece?
    ensures a.SetPlayerCount? ==> r == Success(s.(selectedPlayerCount := a.count))
    ensures a.StartGame? ==> r == Success(StartGameCase(s, a.numberOfPlayers))
    ensures a.RestartGame? ==> r == Success(RestartGameCase(s))
    ensures a.RollDice? ==> r == RollDiceCase(s, a.rolled)
    ensures a.MovePiece? ==> r == MovePieceCase(s, a.playerIndex, a.pieceIndex, a.newPosition)
    ensures a.SwitchPlayer? ==> r == Success(SwitchPlayerCase(s, a.playerIndex))
    ensures a.SetDiceValue? ==> r == Success(s.(diceValue := a.value))
    ensures a.SetMoveRequired? ==> r == Success(s.(moveRequired := a.required))
    ensures a.SetConnectionStatus? ==> r == Success(s.(connectionStatus := a.status))
    ensures a.WinGame? ==> r == Success(s.(gameStatus := Finished, winner := Some(a.winnerIndex)))
    ensures a.SetNetworkMode? ==> r == Success(SetNetworkModeCase(s, a.mode))
    ensures a.UpdatePiecePosition? ==> r == UpdatePiecePositionCase(s, a.playerIndex, a.pieceIndex, a.position)
    ensures a.CapturePiece? ==> r == CapturePieceCase(s, a.capturedPlayerIndex, a.capturedPieceIndex)
    ensures a.SetPlayerId? ==>
      r == Success(s.(playerId := a.playerId, isMyTurn := a.playerId == Some(s.currentPlayer)))
    ensures a.SyncGameState? ==> r == Success(SyncGameStateCase(s, a.gameState))
  {
    match a
    case SetPlayerCount(count) =>
      Success(s.(selectedPlayerCount := count))
    case StartGame(n) =>
      Success(StartGameCase(s, n))
    case RestartGame =>
      Success(RestartGameCase(s))
    case RollDice(d) =>
      RollDiceCase(s, d)
    case MovePiece(playerIndex, pieceIndex, newPosition) =>
      MovePieceCase(s, playerIndex, pieceIndex, newPosition)
    case SetDiceValue(value) =>
      Success(s.(diceValue := value))
    case SwitchPlayer(playerIndex) =>
      Success(SwitchPlayerCase(s, playerIndex))
    case SetMoveRequired(required) =>
      Success(s.(moveRequired := required))
    case UpdatePiecePosition(playerIndex, pieceIndex, position) =>
      UpdatePiecePositionCase(s, playerIndex, pieceIndex, position)
    case CapturePiece(capturedPlayerIndex, capturedPieceIndex, _) =>
      CapturePieceCase(s, capturedPlayerIndex, capturedPieceIndex)
    case WinGame(winnerIndex) =>
      Success(s.(gameStatus := Finished, winner := Some(winnerIndex)))
    case SetNetworkMode(mode) =>
      Success(SetNetworkModeCase(s, mode))
    case SetConnectionStatus(status) =>
      Success(s.(connectionStatus := status))
    case SetPlayerId(playerId) =>
      Success(s.(playerId := playerId, isMyTurn := playerId == Some(s.currentPlayer)))
    case SyncGameState(g) =>
      Success(SyncGameStateCase(s, g))
    case Unrecognised =>
      Success(s)
  }
}
