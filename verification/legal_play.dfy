/**
 * Legal play: the reducer trusts its MOVE_PIECE payload, so keeping piece
 * positions on the board is the job of the click gate in front of it. Here
 * a "legal" action is one the UI could dispatch in that state, and the main
 * lemma shows that legal play never faults and keeps every piece in
 * [HOME_POSITION, MAX_POSITION].
 */
module LegalPlay {

  import opened Wrappers
  import opened GameTypes
  import opened Moves
  import opened Reducer
  import opened Hooks

  /** Every piece lies between the yard (0) and the finish (57). */
  predicate PositionsInRange(players: seq<Player>) {
    forall i, k :: 0 <= i < |players| && 0 <= k < |players[i].pieces| ==>
      HOME_POSITION <= players[i].pieces[k] <= MAX_POSITION
  }

  /** The invariant of legal play: a seat count the turn rotation can divide by, and pieces on the board. */
  predicate Valid(s: GameState) {
    s.numberOfPlayers != 0 && PositionsInRange(s.players)
  }

  /**
   * What the UI can dispatch in state `s`: MOVE_PIECE only as handlePieceClick
   * issues it, START_GAME with a seat count, snapshots of valid states, and
   * direct piece writes only to existing slots and on-board positions.
   */
  predicate LegalStep(s: GameState, a: Action) {
    match a
    case MovePiece(_, _, _) => IssuedByClick(s, a)
    case StartGame(n) => n != 0
    case SyncGameState(g) => Valid(g)
    case UpdatePiecePosition(playerIndex, pieceIndex, position) =>
      ValidRef(s.players, PieceRef(playerIndex, pieceIndex)) && HOME_POSITION <= position <= MAX_POSITION
    case CapturePiece(capturedPlayerIndex, capturedPieceIndex, _) =>
      ValidRef(s.players, PieceRef(capturedPlayerIndex, capturedPieceIndex))
    case _ => true
  }

  /** The state before any action is valid: four seats, every piece in the yard. */
  lemma InitialStateValid()
    ensures |InitialGameState().players| == 4
    ensures forall i :: 0 <= i < 4 ==> InitialGameState().players[i].pieces == [0, 0, 0, 0]
    ensures Valid(InitialGameState())
  {
    var ps := InitialGameState().players;
    assert |ps| == 4;
    assert forall i :: 0 <= i < 4 ==> ps[i].pieces == [0, 0, 0, 0];
  }

  /** Writing an on-board position into one slot keeps every piece on the board. */
  lemma SetPieceInRange(players: seq<Player>, x: PieceRef, position: int)
    requires PositionsInRange(players) && ValidRef(players, x)
    requires HOME_POSITION <= position <= MAX_POSITION
    ensures PositionsInRange(SetPiece(players, x, position))
  {
    var r := SetPiece(players, x, position);
    forall i, k | 0 <= i < |r| && 0 <= k < |r[i].pieces|
      ensures HOME_POSITION <= r[i].pieces[k] <= MAX_POSITION
    {
      assert PositionOf(r, PieceRef(i, k)) == r[i].pieces[k];
      if PieceRef(i, k) != x {
        assert ValidRef(players, PieceRef(i, k));
      }
    }
  }

  /** A MOVE_PIECE issued by a click succeeds from a valid state and keeps it valid. */
  lemma ClickedMoveKeepsValid(s: GameState, a: Action)
    requires Valid(s) && a.MovePiece? && IssuedByClick(s, a)
    ensures Reduce(s, a).Success? && Valid(Reduce(s, a).value)
  {
    var me := PieceRef(a.playerIndex, a.pieceIndex);
    assert ValidRef(s.players, me) && 1 <= a.newPosition <= MAX_POSITION;
    var r := MovePieceCase(s, a.playerIndex, a.pieceIndex, a.newPosition);
    assert r.Success?;
    var t := r.value;
    var captured := CapturesOnLanding(s.players, a.playerIndex, a.newPosition);
    forall i, k | 0 <= i < |t.players| && 0 <= k < |t.players[i].pieces|
      ensures HOME_POSITION <= t.players[i].pieces[k] <= MAX_POSITION
    {
      var y := PieceRef(i, k);
      assert ValidRef(s.players, y);
      assert PositionOf(t.players, y) == t.players[i].pieces[k];
      if y == me {
      } else if y in captured {
      } else {
        assert PositionOf(s.players, y) == s.players[i].pieces[k];
      }
    }
  }

  /** Every legal action from a valid state succeeds and leads to a valid state. */
  lemma StepPreservesValid(s: GameState, a: Action)
    requires Valid(s) && LegalStep(s, a)
    ensures Reduce(s, a).Success?
    ensures Valid(Reduce(s, a).value)
  {
    match a
    case MovePiece(_, _, _) =>
      ClickedMoveKeepsValid(s, a);
    case StartGame(n) =>
      var t := StartGameCase(s, n);
      assert forall i :: 0 <= i < |t.players| ==> t.players[i].pieces == [0, 0, 0, 0];
    case RestartGame =>
      InitialStateValid();
      var t := RestartGameCase(s);
      assert t.players == InitialGameState().players;
    case RollDice(d) =>
      var t := RollDiceCase(s, d).value;
      assert t.players == s.players;
    case UpdatePiecePosition(playerIndex, pieceIndex, position) =>
      SetPieceInRange(s.players, PieceRef(playerIndex, pieceIndex), position);
    case CapturePiece(capturedPlayerIndex, capturedPieceIndex, _) =>
      SetPieceInRange(s.players, PieceRef(capturedPlayerIndex, capturedPieceIndex), HOME_POSITION);
    case _ =>
  }

  /** Folds the reducer over a sequence of actions, stopping at the first fault. */
  function Run(s: GameState, actions: seq<Action>): Result<GameState, Fault>
    decreases |actions|
  {
    if |actions| == 0 then Success(s)
    else
      match Reduce(s, actions[0])
      case Failure(e) => Failure(e)
      case Success(t) => Run(t, actions[1..])
  }

  /** Every action of the sequence is legal in the state it is applied to. */
  predicate LegalRun(s: GameState, actions: seq<Action>)
    decreases |actions|
  {
    |actions| == 0 ||
    (LegalStep(s, actions[0]) &&
     match Reduce(s, actions[0])
     case Failure(_) => false
     case Success(t) => LegalRun(t, actions[1..]))
  }

  /** Legal play from a valid state never faults and keeps every piece in [0, 57]. */
  lemma {:induction false} LegalRunStaysValid(s: GameState, actions: seq<Action>)
    requires Valid(s) && LegalRun(s, actions)
    ensures Run(s, actions).Success?
    ensures Valid(Run(s, actions).value)
    decreases |actions|
  {
    if |actions| > 0 {
      StepPreservesValid(s, actions[0]);
      LegalRunStaysValid(Reduce(s, actions[0]).value, actions[1..]);
    }
  }

  /** In particular, every game played legally from the opening state keeps its pieces on the board. */
  lemma LegalGameStaysOnBoard(actions: seq<Action>)
    requires LegalRun(InitialGameState(), actions)
    ensures Run(InitialGameState(), actions).Success?
    ensures PositionsInRange(Run(InitialGameState(), actions).value.players)
  {
    InitialStateValid();
    LegalRunStaysValid(InitialGameState(), actions);
  }
}
