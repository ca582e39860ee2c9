/**
 * Turn-level consequences of the reducer: when a move keeps the seat, the
 * opening of a four-player game, and a roll after the game has ended.
 */
module Scenarios {

  import opened Wrappers
  import opened GameTypes
  import opened Moves
  import opened Reducer
  import opened Hooks

  /**
   * In a game of at least two seats whose current seat is in range, a
   * successful MOVE_PIECE keeps the turn exactly when the extra-turn rule
   * fires (a six, a capture or reaching 57) and the mover has not won.
   */
  lemma MoveKeepsTurnIff(s: GameState, playerIndex: int, pieceIndex: int, newPosition: int)
    requires MovePieceCase(s, playerIndex, pieceIndex, newPosition).Success?
    requires 2 <= s.numberOfPlayers && 0 <= s.currentPlayer < s.numberOfPlayers
    ensures var t := MovePieceCase(s, playerIndex, pieceIndex, newPosition).value;
      var captured := CapturesOnLanding(s.players, playerIndex, newPosition);
      t.currentPlayer == s.currentPlayer <==>
        ExtraTurn(s.diceValue, |captured|, newPosition) && !HasPlayerWon(t.players[playerIndex])
  {
    NextSeatCycles(s.currentPlayer, s.numberOfPlayers);
  }

  /** The state right after START_GAME(4) from the opening state. */
  function Opening(): (s: GameState)
    ensures |s.players| == 4 && s.numberOfPlayers == 4
    ensures forall i, k :: 0 <= i < 4 && 0 <= k < |s.players[i].pieces| ==> s.players[i].pieces[k] == HOME_POSITION
    ensures s.currentPlayer == 0 && !s.moveRequired && s.players[0].color == Red
  {
    StartGameCase(InitialGameState(), 4)
  }

  /**
   * A six at the opening: the roll demands a move, a click on red's first
   * piece dispatches MOVE_PIECE to path index 1 at once, and after it the
   * piece stands on red's start cell and red rolls again.
   */
  lemma OpeningSixLeavesYard()
    ensures var s := Opening();
      && RollDiceCase(s, 6).Success?
      && var rolled := RollDiceCase(s, 6).value;
      && rolled.moveRequired && rolled.diceValue == 6
      && HandlePieceClick(rolled, 0, 0) == MoveNow(MovePiece(0, 0, 1))
      && Reduce(rolled, MovePiece(0, 0, 1)).Success?
      && var moved := Reduce(rolled, MovePiece(0, 0, 1)).value;
      && moved.players[0].pieces[0] == 1
      && moved.currentPlayer == 0
      && moved.diceValue == 0 && !moved.moveRequired
  {
    var s := Opening();
    assert CanMovePiece(s.players, s.currentPlayer, 6, 0, 0);
    assert HasMove(s, 6);
    var rolled := RollDiceCase(s, 6).value;
    assert rolled.players == s.players;
    assert PositionOf(rolled.players, PieceRef(0, 0)) == HOME_POSITION;
    var t := MovePieceCase(rolled, 0, 0, 1).value;
    assert PositionOf(t.players, PieceRef(0, 0)) == 1;
    assert !HasPlayerWon(t.players[0]);
  }

  /**
   * Any roll other than six at the opening has no move: the turn passes to
   * seat 1 and the negated roll is stored.
   */
  lemma OpeningNonSixPasses(d: Die)
    requires d != WINNING_DICE_VALUE
    ensures var s := Opening();
      && RollDiceCase(s, d).Success?
      && RollDiceCase(s, d).value.currentPlayer == 1
      && RollDiceCase(s, d).value.diceValue == -(d as int)
      && !RollDiceCase(s, d).value.moveRequired
      && RollDiceCase(s, d).value.turnHistory == [NoMovesAvailable(0, d)]
  {
    var s := Opening();
    assert !HasMove(s, d) by {
      forall k | CanMovePiece(s.players, s.currentPlayer, d, s.currentPlayer, k)
        ensures false
      {
      }
    }
    NextSeatCycles(0, 4);
  }

  /**
   * ROLL_DICE does not look at gameStatus: once the game is finished a roll
   * is still acted on, either demanding a move or passing the turn.
   */
  lemma RollAfterFinishIsActedOn(s: GameState, d: Die)
    requires s.gameStatus == Finished && !s.moveRequired && s.numberOfPlayers != 0
    ensures Reduce(s, RollDice(d)).Success?
    ensures var t := Reduce(s, RollDice(d)).value;
      t.gameStatus == Finished &&
      (t.moveRequired || t.turnHistory == s.turnHistory + [NoMovesAvailable(s.currentPlayer, d)])
  {
  }
}
