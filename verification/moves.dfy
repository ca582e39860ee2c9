/**
 * Move validation and capture detection of the Ludo engine
 * (src/store/gameUtils.js): which pieces may move for a die value, where
 * they land, and which opposing pieces a landing cell captures.
 */
module Moves {

  import opened Wrappers
  import opened GameTypes
  import opened Board

  /** A piece slot of a seat, as carried in getMovablePieces' and findCapturablePieces' results. */
  datatype PieceRef = PieceRef(playerIndex: int, pieceIndex: int)

  predicate ValidRef(players: seq<Player>, x: PieceRef) {
    && 0 <= x.playerIndex < |players|
    && 0 <= x.pieceIndex < |players[x.playerIndex].pieces|
  }

  function PositionOf(players: seq<Player>, x: PieceRef): int
    requires ValidRef(players, x)
  {
    players[x.playerIndex].pieces[x.pieceIndex]
  }

  /** The order in which the source's nested `forEach` loops visit pieces: seat first, then slot. */
  predicate Before(a: PieceRef, b: PieceRef) {
    a.playerIndex < b.playerIndex || (a.playerIndex == b.playerIndex && a.pieceIndex < b.pieceIndex)
  }

  ghost predicate Ascending(xs: seq<PieceRef>) {
    forall i, j :: 0 <= i < j < |xs| ==> Before(xs[i], xs[j])
  }

  lemma AscendingAppend(a: seq<PieceRef>, b: seq<PieceRef>)
    requires Ascending(a) && Ascending(b)
    requires forall x, y :: x in a && y in b ==> Before(x, y)
    ensures Ascending(a + b)
  {
    forall i, j | 0 <= i < j < |a + b|
      ensures Before((a + b)[i], (a + b)[j])
    {
      if j < |a| {
      } else if i >= |a| {
        assert (a + b)[i] == b[i - |a|] && (a + b)[j] == b[j - |a|];
      } else {
        assert (a + b)[i] in a && (a + b)[j] in b;
      }
    }
  }

  /** The elements of `xs` that satisfy `keep`, in their original order (a `forEach` that pushes). */
  function Filter(xs: seq<PieceRef>, keep: PieceRef -> bool): (r: seq<PieceRef>)
    ensures forall x :: x in r <==> x in xs && keep(x)
    ensures |r| <= |xs|
    ensures Ascending(xs) ==> Ascending(r)
    ensures (forall x :: x in xs ==> !keep(x)) ==> r == []
  {
    if |xs| == 0 then []
    else
      var rest := Filter(xs[1..], keep);
      if keep(xs[0]) then
        assert Ascending(xs) ==> Ascending([xs[0]] + rest) by {
          if Ascending(xs) {
            forall y | y in rest ensures Before(xs[0], y) {
              var j :| 1 <= j < |xs| && xs[j] == y;
            }
            AscendingAppend([xs[0]], rest);
          }
        }
        [xs[0]] + rest
      else rest
  }

  /** Filtering with pointwise-equal tests gives the same list. */
  lemma {:induction false} FilterCongruent(xs: seq<PieceRef>, p: PieceRef -> bool, q: PieceRef -> bool)
    requires forall x :: x in xs ==> p(x) == q(x)
    ensures Filter(xs, p) == Filter(xs, q)
  {
    if |xs| > 0 {
      FilterCongruent(xs[1..], p, q);
    }
  }

  /** The slots 0..n-1 of seat `pi`, in slot order. */
  function SlotRefs(pi: int, n: nat): (r: seq<PieceRef>)
    ensures |r| == n
    ensures forall x :: x in r <==> x.playerIndex == pi && 0 <= x.pieceIndex < n
    ensures Ascending(r)
  {
    var r := seq(n, j => PieceRef(pi, j));
    assert forall x: PieceRef :: x.playerIndex == pi && 0 <= x.pieceIndex < n ==> r[x.pieceIndex] == x;
    r
  }

  /** Every piece of every seat, in the order the source's nested loops visit them. */
  function AllRefs(players: seq<Player>): (r: seq<PieceRef>)
    ensures forall x :: x in r <==> ValidRef(players, x)
    ensures Ascending(r)
  {
    if |players| == 0 then []
    else
      var last := |players| - 1;
      var front := AllRefs(players[..last]);
      var tail := SlotRefs(last, |players[last].pieces|);
      assert forall x :: x in front ==> x.playerIndex < last;
      AscendingAppend(front, tail);
      front + tail
  }

  /**
   * canMovePiece: only the current seat may move, only with a positive die;
   * a yard piece needs a 6 and a piece on the path may not overshoot 57.
   */
  function CanMovePiece(players: seq<Player>, currentPlayer: int, diceValue: int,
                        playerIndex: int, pieceIndex: int): (r: bool)
    ensures playerIndex != currentPlayer ==> !r
    ensures diceValue <= 0 ==> !r
    ensures r ==> ValidRef(players, PieceRef(playerIndex, pieceIndex))
    ensures r && PositionOf(players, PieceRef(playerIndex, pieceIndex)) == HOME_POSITION ==>
      diceValue == WINNING_DICE_VALUE
    ensures r ==> (PositionOf(players, PieceRef(playerIndex, pieceIndex)) + diceValue <= MAX_POSITION
                   || PositionOf(players, PieceRef(playerIndex, pieceIndex)) == HOME_POSITION)
    ensures r ==> 0 <= PositionOf(players, PieceRef(playerIndex, pieceIndex)) < MAX_POSITION
    ensures playerIndex == currentPlayer && 0 < diceValue && ValidRef(players, PieceRef(playerIndex, pieceIndex)) ==>
      var pos := PositionOf(players, PieceRef(playerIndex, pieceIndex));
      (pos == HOME_POSITION ==> (r <==> diceValue == WINNING_DICE_VALUE)) &&
      (pos > 0 ==> (r <==> pos + diceValue <= MAX_POSITION))
  {
    if playerIndex != currentPlayer then false
    else if diceValue <= 0 then false
    else if !(0 <= playerIndex < |players|) then false
    else if !(0 <= pieceIndex < |players[playerIndex].pieces|) then false
    else
      var currentPosition := players[playerIndex].pieces[pieceIndex];
      if currentPosition == HOME_POSITION then diceValue == WINNING_DICE_VALUE
      else if currentPosition > 0 then currentPosition + diceValue <= MAX_POSITION
      else false
  }

  function Min(a: int, b: int): int {
    if a <= b then a else b
  }

  /** calculateNewPosition: the path index a piece at `currentPosition` reaches with `diceValue`. */
  function CalculateNewPosition(currentPosition: int, diceValue: int): (r: int)
    ensures currentPosition == HOME_POSITION && diceValue == WINNING_DICE_VALUE ==> r == 1
    ensures currentPosition > 0 ==> r <= MAX_POSITION
    ensures currentPosition > 0 && currentPosition + diceValue <= MAX_POSITION ==> r == currentPosition + diceValue
    ensures currentPosition > 0 && currentPosition + diceValue > MAX_POSITION ==> r == MAX_POSITION
    ensures currentPosition < 0 || (currentPosition == HOME_POSITION && diceValue != WINNING_DICE_VALUE) ==>
      r == currentPosition
  {
    if currentPosition == HOME_POSITION && diceValue == WINNING_DICE_VALUE then 1
    else if currentPosition > 0 then Min(currentPosition + diceValue, MAX_POSITION)
    else currentPosition
  }

  /**
   * Where a movable piece lands: a yard exit lands on path index 1, any
   * other move lands exactly `diceValue` further on; the clamp to 57 in
   * calculateNewPosition never applies to a movable piece.
   */
  lemma MovableTarget(players: seq<Player>, currentPlayer: int, diceValue: int, playerIndex: int, pieceIndex: int)
    requires CanMovePiece(players, currentPlayer, diceValue, playerIndex, pieceIndex)
    ensures var pos := PositionOf(players, PieceRef(playerIndex, pieceIndex));
      var t := CalculateNewPosition(pos, diceValue);
      && 1 <= t <= MAX_POSITION
      && (pos == HOME_POSITION ==> t == 1)
      && (pos != HOME_POSITION ==> t == pos + diceValue && pos < t)
  {
  }

  /** getMovablePieces: the current seat's movable slots in slot order. */
  function GetMovablePieces(players: seq<Player>, playerIndex: int, diceValue: int): (r: seq<PieceRef>)
    ensures forall x :: x in r <==>
      x.playerIndex == playerIndex && CanMovePiece(players, playerIndex, diceValue, playerIndex, x.pieceIndex)
    ensures Ascending(r)
    ensures 0 <= playerIndex < |players| ==> |r| <= |players[playerIndex].pieces|
    ensures !(0 <= playerIndex < |players|) || diceValue <= 0 ==> r == []
  {
    if !(0 <= playerIndex < |players|) then []
    else
      Filter(SlotRefs(playerIndex, |players[playerIndex].pieces|),
             (x: PieceRef) => CanMovePiece(players, playerIndex, diceValue, playerIndex, x.pieceIndex))
  }

  /** hasPlayerWon: every piece has reached 57. */
  function HasPlayerWon(p: Player): (r: bool)
    ensures r <==> forall x :: x in p.pieces ==> x == MAX_POSITION
    ensures r <==> p.pieces == seq(|p.pieces|, _ => MAX_POSITION)
    ensures |p.pieces| == 0 ==> r
  {
    var every := forall j :: 0 <= j < |p.pieces| ==> p.pieces[j] == MAX_POSITION;
    assert every <==> forall x :: x in p.pieces ==> x == MAX_POSITION by {
      if every {
        forall x | x in p.pieces
          ensures x == MAX_POSITION
        {
          var j :| 0 <= j < |p.pieces| && p.pieces[j] == x;
        }
      } else {
        var j :| 0 <= j < |p.pieces| && p.pieces[j] != MAX_POSITION;
        assert p.pieces[j] in p.pieces;
      }
    }
    every
  }

  /** A seat that has won has no movable piece left: every piece is at 57. */
  lemma WinnerHasNoMove(players: seq<Player>, currentPlayer: int, diceValue: int, playerIndex: int, pieceIndex: int)
    requires 0 <= playerIndex < |players| && HasPlayerWon(players[playerIndex])
    ensures !CanMovePiece(players, currentPlayer, diceValue, playerIndex, pieceIndex)
  {
  }

  /** Piece `x` is drawn on `cell`. */
  predicate OnCell(players: seq<Player>, x: PieceRef, cell: Cell) {
    ValidRef(players, x) && PiecePosition(players[x.playerIndex].color, PositionOf(players, x)) == Some(cell)
  }

  /** getPiecesAtPosition: the pieces drawn on `target`, skipping seat `excludePlayer`. */
  function GetPiecesAtPosition(players: seq<Player>, target: Option<Cell>, excludePlayer: int): (r: seq<PieceRef>)
    ensures target.None? ==> r == []
    ensures target.Some? ==> forall x :: x in r <==> OnCell(players, x, target.value) && x.playerIndex != excludePlayer
    ensures Ascending(r)
  {
    Filter(AllRefs(players), (x: PieceRef) => target.Some? && x.playerIndex != excludePlayer && OnCell(players, x, target.value))
  }

  /** Every piece drawn on `cell`, in seat then slot order. */
  function PiecesOn(players: seq<Player>, cell: Cell): (r: seq<PieceRef>)
    ensures forall x :: x in r <==> OnCell(players, x, cell)
    ensures Ascending(r)
  {
    Filter(AllRefs(players), (x: PieceRef) => OnCell(players, x, cell))
  }

  /** A piece the mover would capture by landing on `target`. */
  predicate Capturable(players: seq<Player>, target: Cell, mover: int, x: PieceRef) {
    && x.playerIndex != mover
    && ValidRef(players, x)
    && PositionOf(players, x) != HOME_POSITION
    && OnCell(players, x, target)
  }

  /**
   * findCapturablePieces: nothing at a safe cell; elsewhere every piece of
   * another seat, off the yard, whose cell is `target`.
   */
  function FindCapturablePieces(players: seq<Player>, target: Cell, mover: int): (r: seq<PieceRef>)
    ensures IsSafeZone(target) ==> r == []
    ensures !IsSafeZone(target) ==> forall x :: x in r <==>
      && ValidRef(players, x)
      && x.playerIndex != mover
      && PositionOf(players, x) != HOME_POSITION
      && PiecePosition(players[x.playerIndex].color, PositionOf(players, x)) == Some(target)
    ensures forall x :: x in r ==> x.playerIndex != mover && ValidRef(players, x)
    ensures Ascending(r)
  {
    if IsSafeZone(target) then []
    else Filter(AllRefs(players), (x: PieceRef) => Capturable(players, target, mover, x))
  }

  /** Away from safe cells, the captures are exactly the pieces of other seats drawn on the cell. */
  lemma CapturesAreOtherOccupants(players: seq<Player>, target: Cell, mover: int)
    requires !IsSafeZone(target)
    ensures FindCapturablePieces(players, target, mover) == GetPiecesAtPosition(players, Some(target), mover)
  {
    var o: Option<Cell> := Some(target);
    FilterCongruent(AllRefs(players), (x: PieceRef) => Capturable(players, target, mover, x),
                    (x: PieceRef) => o.Some? && x.playerIndex != mover && OnCell(players, x, o.value));
  }

  /**
   * A piece landing in its colour's home stretch captures nothing, provided
   * no other seat shares its colour (true of every roster in PLAYER_CONFIGS).
   */
  lemma HomeStretchNeverCaptures(players: seq<Player>, mover: int, newPosition: int)
    requires 0 <= mover < |players|
    requires forall i :: 0 <= i < |players| && i != mover ==> players[i].color != players[mover].color
    requires 52 <= newPosition <= PathLength(players[mover].color)
    ensures FindCapturablePieces(players, PathTable(players[mover].color)[newPosition - 1], mover) == []
  {
    var c := players[mover].color;
    var target := PathTable(c)[newPosition - 1];
    assert target in HomeStretch(c) by {
      assert PathTable(c)[51..] == HomeStretch(c);
      assert target == PathTable(c)[51..][newPosition - 52];
    }
    var r := FindCapturablePieces(players, target, mover);
    if r != [] {
      var x := r[0];
      assert x in r;
      var d := players[x.playerIndex].color;
      HomeStretchExclusive(c, d, target);
    }
  }
}
