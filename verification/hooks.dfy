/**
 * The UI-facing helpers of the Ludo engine (src/store/gameHooks.js): the
 * move gate in front of MOVE_PIECE, the yard-cell lookup, the per-cell
 * occupant list, the move counters and the roster preview.
 */
module Hooks {

  import opened Wrappers
  import opened GameTypes
  import opened Board
  import opened Moves
  import opened Reducer

  /** What handlePieceClick does with a click on a piece. */
  datatype Click =
    | Refused
      /** A yard exit: MOVE_PIECE is dispatched at once. */
    | MoveNow(move: Action)
      /**
       * Any other move: the intended path, which dispatches MOVE_PIECE when
       * the step animation ends. As wired, animatePieceMove first calls
       * `actions.startPieceAnimation`, which the game context does not
       * provide, so this path throws before any MOVE_PIECE is dispatched.
       */
    | MoveAfterAnimation(move: Action)

  /**
   * handlePieceClick: the only legality check in front of MOVE_PIECE. The
   * click goes through only for a movable piece of the current seat while
   * no animation runs, and the dispatched target is calculateNewPosition's.
   */
  function HandlePieceClick(s: GameState, playerIndex: int, pieceIndex: int): (r: Click)
    ensures r.Refused? <==>
      !CanMovePiece(s.players, s.currentPlayer, s.diceValue, playerIndex, pieceIndex) || s.isAnimating
    ensures !r.Refused? ==>
      && playerIndex == s.currentPlayer
      && s.diceValue > 0
      && ValidRef(s.players, PieceRef(playerIndex, pieceIndex))
      && var pos := PositionOf(s.players, PieceRef(playerIndex, pieceIndex));
         && r.move == MovePiece(playerIndex, pieceIndex, CalculateNewPosition(pos, s.diceValue))
         && 1 <= r.move.newPosition <= MAX_POSITION
         && (r.MoveNow? <==> pos == HOME_POSITION)
         && (r.MoveNow? ==> r.move.newPosition == 1)
         && (r.MoveAfterAnimation? ==> r.move.newPosition == pos + s.diceValue)
  {
    if !CanMovePiece(s.players, s.currentPlayer, s.diceValue, playerIndex, pieceIndex) then Refused
    else if s.isAnimating then Refused
    else
      var currentPosition := s.players[playerIndex].pieces[pieceIndex];
      var newPosition := CalculateNewPosition(currentPosition, s.diceValue);
      MovableTarget(s.players, s.currentPlayer, s.diceValue, playerIndex, pieceIndex);
      var move := MovePiece(playerIndex, pieceIndex, newPosition);
      if currentPosition == HOME_POSITION && newPosition == 1 && s.diceValue == WINNING_DICE_VALUE then
        MoveNow(move)
      else
        MoveAfterAnimation(move)
  }

  /** `a` is a MOVE_PIECE that a click in state `s` dispatches. */
  predicate IssuedByClick(s: GameState, a: Action) {
    && a.MovePiece?
    && var c := HandlePieceClick(s, a.playerIndex, a.pieceIndex);
       !c.Refused? && c.move == a
  }

  /**
   * The slot a yard cell of colour `c` stands for (getHomePieces' homeIndex):
   * top/bottom row gives bit 0, left/right column gives bit 1.
   */
  function HomeSlot(c: Color, row: int, col: int): (r: Option<int>)
    ensures r.Some? <==> IsPieceArea(c, row, col)
    ensures r.Some? ==> 0 <= r.value < PIECES_PER_PLAYER
  {
    if !IsPieceArea(c, row, col) then None
    else
      match c
      case Red => Some((if row == 1 then 0 else 1) + 2 * (if col == 1 then 0 else 1))
      case Blue => Some((if row == 10 then 0 else 1) + 2 * (if col == 1 then 0 else 1))
      case Yellow => Some((if row == 10 then 0 else 1) + 2 * (if col == 10 then 0 else 1))
      case Green => Some((if row == 1 then 0 else 1) + 2 * (if col == 10 then 0 else 1))
  }

  /** HomeSlot maps the four yard cells of a colour one-to-one onto slots 0..3. */
  lemma HomeSlotBijective(c: Color, row: int, col: int, k: int)
    requires 0 <= k < PIECES_PER_PLAYER
    ensures HomeSlot(c, YardCells(c)[k].row, YardCells(c)[k].col) == Some(k)
    ensures HomeSlot(c, row, col) == Some(k) ==> YardCells(c)[k] == Cell(row, col)
  {
  }

  /** `players.findIndex(p => p.color === color)` */
  function FirstOfColor(players: seq<Player>, c: Color): (r: Option<int>)
    ensures r.Some? ==> 0 <= r.value < |players| && players[r.value].color == c
    ensures r.Some? ==> forall i :: 0 <= i < r.value ==> players[i].color != c
    ensures r.None? ==> forall i :: 0 <= i < |players| ==> players[i].color != c
  {
    if |players| == 0 then None
    else if players[0].color == c then Some(0)
    else match FirstOfColor(players[1..], c)
      case None => None
      case Some(i) => Some(i + 1)
  }

  /** An entry of getHomePieces' result. */
  datatype HomePiece = HomePiece(playerIndex: int, pieceIndex: int, color: Color, isMovable: bool, isCurrentPlayer: bool)

  /**
   * getHomePieces: the yard piece drawn on a yard cell, if the seat of that
   * colour still has the matching slot in the yard.
   */
  function GetHomePieces(s: GameState, c: Color, row: int, col: int): (r: seq<HomePiece>)
    ensures |r| <= 1
    ensures |r| == 1 <==>
      && FirstOfColor(s.players, c).Some?
      && HomeSlot(c, row, col).Some?
      && ValidRef(s.players, PieceRef(FirstOfColor(s.players, c).value, HomeSlot(c, row, col).value))
      && PositionOf(s.players, PieceRef(FirstOfColor(s.players, c).value, HomeSlot(c, row, col).value)) == HOME_POSITION
    ensures |r| == 1 ==>
      && r[0].playerIndex == FirstOfColor(s.players, c).value
      && r[0].pieceIndex == HomeSlot(c, row, col).value
      && r[0].color == c
      && r[0].isMovable == CanMovePiece(s.players, s.currentPlayer, s.diceValue, r[0].playerIndex, r[0].pieceIndex)
      && r[0].isCurrentPlayer == (r[0].playerIndex == s.currentPlayer)
  {
    match FirstOfColor(s.players, c)
    case None => []
    case Some(playerIndex) =>
      match HomeSlot(c, row, col)
      case None => []
      case Some(homeIndex) =>
        var player := s.players[playerIndex];
        if homeIndex < |player.pieces| && player.pieces[homeIndex] == HOME_POSITION then
          [HomePiece(playerIndex, homeIndex, player.color,
                     CanMovePiece(s.players, s.currentPlayer, s.diceValue, playerIndex, homeIndex),
                     playerIndex == s.currentPlayer)]
        else []
  }

  /** An entry of getPiecesOnCell's result. */
  datatype Occupant = Occupant(piece: PieceRef, color: Color, isMovable: bool, isCurrentPlayer: bool, isVulnerable: bool)

  /**
   * How getPiecesOnCell reports a piece drawn on `cell`: vulnerable when the
   * cell is not safe, the piece belongs to another seat than the current one
   * and it is off the yard; movable when the gate would let it move now.
   */
  function Describe(s: GameState, x: PieceRef, cell: Cell): (o: Occupant)
    requires ValidRef(s.players, x)
    ensures o.piece == x && o.color == s.players[x.playerIndex].color
    ensures o.isCurrentPlayer <==> x.playerIndex == s.currentPlayer
    ensures o.isVulnerable ==> !IsSafeZone(cell) && !o.isCurrentPlayer
    ensures o.isVulnerable <==>
      !IsSafeZone(cell) && x.playerIndex != s.currentPlayer && PositionOf(s.players, x) != HOME_POSITION
    ensures o.isMovable <==>
      CanMovePiece(s.players, s.currentPlayer, s.diceValue, x.playerIndex, x.pieceIndex) && !s.isAnimating
  {
    Occupant(x,
             s.players[x.playerIndex].color,
             CanMovePiece(s.players, s.currentPlayer, s.diceValue, x.playerIndex, x.pieceIndex) && !s.isAnimating,
             x.playerIndex == s.currentPlayer,
             !IsSafeZone(cell) && x.playerIndex != s.currentPlayer && PositionOf(s.players, x) != HOME_POSITION)
  }

  function DescribeAll(s: GameState, cell: Cell, here: seq<PieceRef>): (r: seq<Occupant>)
    requires forall i :: 0 <= i < |here| ==> ValidRef(s.players, here[i])
    ensures |r| == |here|
    ensures forall i :: 0 <= i < |r| ==> r[i] == Describe(s, here[i], cell)
  {
    seq(|here|, i requires 0 <= i < |here| => Describe(s, here[i], cell))
  }

  /** The pieces drawn on `cell`, described. */
  function Occupants(s: GameState, cell: Cell): seq<Occupant> {
    var here := PiecesOn(s.players, cell);
    assert forall i :: 0 <= i < |here| ==> here[i] in here;
    DescribeAll(s, cell, here)
  }

  lemma OccupantsOnCell(s: GameState, cell: Cell)
    ensures var r := Occupants(s, cell);
      forall i :: 0 <= i < |r| ==> OnCell(s.players, r[i].piece, cell) && r[i] == Describe(s, r[i].piece, cell)
  {
    var here := PiecesOn(s.players, cell);
    assert forall i :: 0 <= i < |here| ==> here[i] in here;
  }

  lemma OccupantsCover(s: GameState, cell: Cell)
    ensures var r := Occupants(s, cell);
      forall x :: OnCell(s.players, x, cell) ==> exists i :: 0 <= i < |r| && r[i].piece == x
  {
    var here := PiecesOn(s.players, cell);
    var r := Occupants(s, cell);
    forall x | OnCell(s.players, x, cell)
      ensures exists i :: 0 <= i < |r| && r[i].piece == x
    {
      assert x in here;
      var i :| 0 <= i < |here| && here[i] == x;
      assert r[i].piece == x;
    }
  }

  lemma OccupantsOrdered(s: GameState, cell: Cell)
    ensures var r := Occupants(s, cell);
      forall i, j :: 0 <= i < j < |r| ==> Before(r[i].piece, r[j].piece)
  {
    var here := PiecesOn(s.players, cell);
    assert Ascending(here);
  }

  /** getPiecesOnCell: every piece drawn on (row, col), described, in seat then slot order. */
  function GetPiecesOnCell(s: GameState, row: int, col: int): (r: seq<Occupant>)
    ensures forall i :: 0 <= i < |r| ==>
      OnCell(s.players, r[i].piece, Cell(row, col)) && r[i] == Describe(s, r[i].piece, Cell(row, col))
    ensures forall x :: OnCell(s.players, x, Cell(row, col)) ==> exists i :: 0 <= i < |r| && r[i].piece == x
    ensures forall i, j :: 0 <= i < j < |r| ==> Before(r[i].piece, r[j].piece)
  {
    OccupantsOnCell(s, Cell(row, col));
    OccupantsCover(s, Cell(row, col));
    OccupantsOrdered(s, Cell(row, col));
    Occupants(s, Cell(row, col))
  }

  /**
   * An entry getPlayerMoves counts for `playerIndex`: a move record whose
   * `player` is that seat (capture records carry no `player` field).
   */
  predicate ByPlayer(e: MoveEntry, playerIndex: int) {
    e.Moved? && e.player == playerIndex
  }

  /** The positions in `history` of the entries getPlayerMoves counts for `playerIndex`. */
  function MoveIndices(history: seq<MoveEntry>, playerIndex: int): set<int> {
    set i | 0 <= i < |history| && ByPlayer(history[i], playerIndex)
  }

  /**
   * getPlayerMoves: how many entries of moveHistory seat `playerIndex` made,
   * that is, the number of positions holding such an entry. None of them is
   * counted exactly when the count is 0, and all of them exactly when it
   * equals the history's length.
   */
  function GetPlayerMoves(history: seq<MoveEntry>, playerIndex: int): (r: nat)
    ensures r == |MoveIndices(history, playerIndex)|
    ensures r <= |history|
    ensures r == 0 <==> forall i :: 0 <= i < |history| ==> !ByPlayer(history[i], playerIndex)
    ensures r == |history| <==> forall i :: 0 <= i < |history| ==> ByPlayer(history[i], playerIndex)
  {
    if |history| == 0 then 0
    else
      var front := history[..|history| - 1];
      var last := history[|history| - 1];
      assert forall i :: 0 <= i < |front| ==> front[i] == history[i];
      var before := MoveIndices(front, playerIndex);
      assert |history| - 1 !in before;
      if ByPlayer(last, playerIndex) then
        assert MoveIndices(history, playerIndex) == before + {|history| - 1};
        GetPlayerMoves(front, playerIndex) + 1
      else
        assert MoveIndices(history, playerIndex) == before;
        GetPlayerMoves(front, playerIndex)
  }

  /** getTotalMoves: the length of moveHistory; no seat has made more moves than that. */
  function GetTotalMoves(history: seq<MoveEntry>): (r: nat)
    ensures r == 0 <==> history == []
    ensures forall playerIndex :: GetPlayerMoves(history, playerIndex) <= r
  {
    |history|
  }

  /**
   * A successful MOVE_PIECE adds one to the total and to the mover's own
   * count, and leaves every other seat's count alone.
   */
  lemma MoveCountsOneMove(s: GameState, playerIndex: int, pieceIndex: int, newPosition: int, other: int)
    requires MovePieceCase(s, playerIndex, pieceIndex, newPosition).Success?
    requires other != playerIndex
    ensures var t := MovePieceCase(s, playerIndex, pieceIndex, newPosition).value;
      && GetTotalMoves(t.moveHistory) == GetTotalMoves(s.moveHistory) + 1
      && GetPlayerMoves(t.moveHistory, playerIndex) == GetPlayerMoves(s.moveHistory, playerIndex) + 1
      && GetPlayerMoves(t.moveHistory, other) == GetPlayerMoves(s.moveHistory, other)
  {
    var t := MovePieceCase(s, playerIndex, pieceIndex, newPosition).value;
    assert t.moveHistory[..|t.moveHistory| - 1] == s.moveHistory;
  }

  /** An entry of getPlayersForPreview's result. */
  datatype Preview = Preview(name: string, color: Color)

  /**
   * getPlayersForPreview: the roster shown before a game of n players
   * starts: each seat colour of an n-seat game under its display name, the
   * four-seat roster for any n other than 2 and 3.
   */
  function GetPlayersForPreview(n: int): (r: seq<Preview>)
    ensures |r| == (if n == 2 || n == 3 then n else 4)
    ensures forall i :: 0 <= i < |r| ==> r[i] == Preview(DisplayName(SeatColors(n)[i]), SeatColors(n)[i])
  {
    if n == 2 then [Preview("Red", Red), Preview("Yellow", Yellow)]
    else if n == 3 then [Preview("Red", Red), Preview("Blue", Blue), Preview("Yellow", Yellow)]
    else [Preview("Red", Red), Preview("Blue", Blue), Preview("Yellow", Yellow), Preview("Green", Green)]
  }

  /**
   * The preview shows exactly the seats START_GAME will create for the same
   * count, names and colours in seat order, including the four-seat fallback.
   */
  lemma PreviewMatchesStart(s: GameState, n: int)
    ensures var seats := StartGameCase(s, n).players;
      && |GetPlayersForPreview(n)| == |seats|
      && forall i :: 0 <= i < |seats| ==>
           GetPlayersForPreview(n)[i] == Preview(seats[i].name, seats[i].color)
  {
    var seats := StartGameCase(s, n).players;
    var configs := RosterFor(n);
    assert forall i :: 0 <= i < |seats| ==> seats[i].name == configs[i].name;
  }
}
