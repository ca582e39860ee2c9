/**
 * Board topology of the Ludo engine (src/store/gameUtils.js): the per-colour
 * path tables, the safe cells and the yard (piece-area) cells.
 *
 * A colour's path index p (1-based) sits on cell `PathTable(c)[p - 1]`. The
 * first 51 entries of every table run clockwise round the shared outer ring,
 * starting at the colour's exit cell; the rest are the colour's private home
 * stretch. Red and yellow have a 5-cell home stretch, blue and green 6 cells.
 */
module Board {

  import opened Wrappers
  import opened GameTypes

  /** A grid cell (row, column) of the 15x15 board. */
  datatype Cell = Cell(row: int, col: int)

  const RED_RING: seq<Cell> :=
    [Cell(6, 1), Cell(6, 2), Cell(6, 3), Cell(6, 4), Cell(6, 5)] +
    [Cell(5, 6), Cell(4, 6), Cell(3, 6), Cell(2, 6), Cell(1, 6), Cell(0, 6)] +
    [Cell(0, 7), Cell(0, 8)] +
    [Cell(1, 8), Cell(2, 8), Cell(3, 8), Cell(4, 8), Cell(5, 8)] +
    [Cell(6, 9), Cell(6, 10), Cell(6, 11), Cell(6, 12), Cell(6, 13), Cell(6, 14)] +
    [Cell(7, 14), Cell(8, 14)] +
    [Cell(8, 13), Cell(8, 12), Cell(8, 11), Cell(8, 10), Cell(8, 9)] +
    [Cell(9, 8), Cell(10, 8), Cell(11, 8), Cell(12, 8), Cell(13, 8), Cell(14, 8)] +
    [Cell(14, 7), Cell(14, 6)] +
    [Cell(13, 6), Cell(12, 6), Cell(11, 6), Cell(10, 6), Cell(9, 6)] +
    [Cell(8, 5), Cell(8, 4), Cell(8, 3), Cell(8, 2), Cell(8, 1), Cell(8, 0)] +
    [Cell(7, 0)]
  const RED_HOME: seq<Cell> := [Cell(7, 1), Cell(7, 2), Cell(7, 3), Cell(7, 4), Cell(7, 5)]

  const BLUE_RING: seq<Cell> :=
    [Cell(13, 6), Cell(12, 6), Cell(11, 6), Cell(10, 6), Cell(9, 6)] +
    [Cell(8, 5), Cell(8, 4), Cell(8, 3), Cell(8, 2), Cell(8, 1), Cell(8, 0)] +
    [Cell(7, 0), Cell(6, 0)] +
    [Cell(6, 1), Cell(6, 2), Cell(6, 3), Cell(6, 4), Cell(6, 5)] +
    [Cell(5, 6), Cell(4, 6), Cell(3, 6), Cell(2, 6), Cell(1, 6), Cell(0, 6)] +
    [Cell(0, 7), Cell(0, 8)] +
    [Cell(1, 8), Cell(2, 8), Cell(3, 8), Cell(4, 8), Cell(5, 8)] +
    [Cell(6, 9), Cell(6, 10), Cell(6, 11), Cell(6, 12), Cell(6, 13), Cell(6, 14)] +
    [Cell(7, 14), Cell(8, 14)] +
    [Cell(8, 13), Cell(8, 12), Cell(8, 11), Cell(8, 10), Cell(8, 9)] +
    [Cell(9, 8), Cell(10, 8), Cell(11, 8), Cell(12, 8), Cell(13, 8), Cell(14, 8)] +
    [Cell(14, 7)]
  const BLUE_HOME: seq<Cell> := [Cell(13, 7), Cell(12, 7), Cell(11, 7), Cell(10, 7), Cell(9, 7), Cell(8, 7)]

  const YELLOW_RING: seq<Cell> :=
    [Cell(8, 13), Cell(8, 12), Cell(8, 11), Cell(8, 10), Cell(8, 9)] +
    [Cell(9, 8), Cell(10, 8), Cell(11, 8), Cell(12, 8), Cell(13, 8), Cell(14, 8)] +
    [Cell(14, 7), Cell(14, 6)] +
    [Cell(13, 6), Cell(12, 6), Cell(11, 6), Cell(10, 6), Cell(9, 6)] +
    [Cell(8, 5), Cell(8, 4), Cell(8, 3), Cell(8, 2), Cell(8, 1), Cell(8, 0)] +
    [Cell(7, 0), Cell(6, 0)] +
    [Cell(6, 1), Cell(6, 2), Cell(6, 3), Cell(6, 4), Cell(6, 5)] +
    [Cell(5, 6), Cell(4, 6), Cell(3, 6), Cell(2, 6), Cell(1, 6), Cell(0, 6)] +
    [Cell(0, 7), Cell(0, 8)] +
    [Cell(1, 8), Cell(2, 8), Cell(3, 8), Cell(4, 8), Cell(5, 8)] +
    [Cell(6, 9), Cell(6, 10), Cell(6, 11), Cell(6, 12), Cell(6, 13), Cell(6, 14)] +
    [Cell(7, 14)]
  const YELLOW_HOME: seq<Cell> := [Cell(7, 13), Cell(7, 12), Cell(7, 11), Cell(7, 10), Cell(7, 9)]

  const GREEN_RING: seq<Cell> :=
    [Cell(1, 8), Cell(2, 8), Cell(3, 8), Cell(4, 8), Cell(5, 8)] +
    [Cell(6, 9), Cell(6, 10), Cell(6, 11), Cell(6, 12), Cell(6, 13), Cell(6, 14)] +
    [Cell(7, 14), Cell(8, 14)] +
    [Cell(8, 13), Cell(8, 12), Cell(8, 11), Cell(8, 10), Cell(8, 9)] +
    [Cell(9, 8), Cell(10, 8), Cell(11, 8), Cell(12, 8), Cell(13, 8), Cell(14, 8)] +
    [Cell(14, 7), Cell(14, 6)] +
    [Cell(13, 6), Cell(12, 6), Cell(11, 6), Cell(10, 6), Cell(9, 6)] +
    [Cell(8, 5), Cell(8, 4), Cell(8, 3), Cell(8, 2), Cell(8, 1), Cell(8, 0)] +
    [Cell(7, 0), Cell(6, 0)] +
    [Cell(6, 1), Cell(6, 2), Cell(6, 3), Cell(6, 4), Cell(6, 5)] +
    [Cell(5, 6), Cell(4, 6), Cell(3, 6), Cell(2, 6), Cell(1, 6), Cell(0, 6)] +
    [Cell(0, 7)]
  const GREEN_HOME: seq<Cell> := [Cell(1, 7), Cell(2, 7), Cell(3, 7), Cell(4, 7), Cell(5, 7), Cell(6, 7)]

  /** The shared-ring part of a colour's table (its first 51 entries). */
  function Ring(c: Color): seq<Cell> {
    match c
    case Red => RED_RING
    case Blue => BLUE_RING
    case Yellow => YELLOW_RING
    case Green => GREEN_RING
  }

  /** The colour's private home stretch (the entries after the 51st). */
  function HomeStretch(c: Color): seq<Cell> {
    match c
    case Red => RED_HOME
    case Blue => BLUE_HOME
    case Yellow => YELLOW_HOME
    case Green => GREEN_HOME
  }

  /** getPathPositions: red and yellow tables are one entry shorter than blue and green. */
  function PathTable(c: Color): (r: seq<Cell>)
    ensures |r| == (if c == Red || c == Yellow then 56 else 57)
    ensures r[..51] == Ring(c) && r[51..] == HomeStretch(c)
  {
    Ring(c) + HomeStretch(c)
  }

  /** Number of path indices of colour `c` that have a cell. */
  function PathLength(c: Color): int {
    |PathTable(c)|
  }

  /**
   * getPiecePosition: the cell of a piece of colour `c` at path index `p`.
   * There is none for the yard (0) and none past the end of the colour's table,
   * so a red or yellow piece at 57 has no cell while a blue or green one does.
   */
  function PiecePosition(c: Color, p: int): (r: Option<Cell>)
    ensures r.Some? <==> 1 <= p <= PathLength(c)
    ensures r.Some? ==> r.value == PathTable(c)[p - 1]
    ensures p == MAX_POSITION ==> (r.None? <==> c == Red || c == Yellow)
  {
    if p == HOME_POSITION then None
    else if 1 <= p <= |PathTable(c)| then Some(PathTable(c)[p - 1])
    else None
  }

  /** isSafeZone: the eight cells where no capture happens. */
  function IsSafeZone(cell: Cell): (r: bool)
    ensures r <==> cell in SafeCells()
  {
    || cell == Cell(6, 1)
    || cell == Cell(13, 6)
    || cell == Cell(8, 13)
    || cell == Cell(1, 8)
    || cell == Cell(2, 6)
    || cell == Cell(8, 2)
    || cell == Cell(12, 8)
    || cell == Cell(6, 12)
  }

  /** Path index 1 and path index 9 of every colour, read off its table. */
  lemma StartAndNinthCells(c: Color)
    ensures PathTable(c)[0] == Ring(c)[0] && PathTable(c)[8] == Ring(c)[8]
    ensures c == Red ==> PathTable(c)[0] == Cell(6, 1) && PathTable(c)[8] == Cell(2, 6)
    ensures c == Blue ==> PathTable(c)[0] == Cell(13, 6) && PathTable(c)[8] == Cell(8, 2)
    ensures c == Yellow ==> PathTable(c)[0] == Cell(8, 13) && PathTable(c)[8] == Cell(12, 8)
    ensures c == Green ==> PathTable(c)[0] == Cell(1, 8) && PathTable(c)[8] == Cell(6, 12)
  {
    assert |Ring(c)| == 51;
    match c {
      case Red => assert RED_RING[0] == Cell(6, 1) && RED_RING[8] == Cell(2, 6);
      case Blue => assert BLUE_RING[0] == Cell(13, 6) && BLUE_RING[8] == Cell(8, 2);
      case Yellow => assert YELLOW_RING[0] == Cell(8, 13) && YELLOW_RING[8] == Cell(12, 8);
      case Green => assert GREEN_RING[0] == Cell(1, 8) && GREEN_RING[8] == Cell(6, 12);
    }
  }

  /** A cell is safe exactly when it is some colour's path index 1 (exit) or path index 9. */
  lemma SafeZonesAreStartAndNinth(cell: Cell)
    ensures IsSafeZone(cell) <==>
      exists c: Color :: cell == PathTable(c)[0] || cell == PathTable(c)[8]
  {
    StartAndNinthCells(Red);
    StartAndNinthCells(Blue);
    StartAndNinthCells(Yellow);
    StartAndNinthCells(Green);
    if IsSafeZone(cell) {
      if cell == Cell(6, 1) || cell == Cell(2, 6) {
        assert cell == PathTable(Red)[0] || cell == PathTable(Red)[8];
      } else if cell == Cell(13, 6) || cell == Cell(8, 2) {
        assert cell == PathTable(Blue)[0] || cell == PathTable(Blue)[8];
      } else if cell == Cell(8, 13) || cell == Cell(12, 8) {
        assert cell == PathTable(Yellow)[0] || cell == PathTable(Yellow)[8];
      } else {
        assert cell == PathTable(Green)[0] || cell == PathTable(Green)[8];
      }
    }
  }

  /**
   * The safe cells as a set: eight distinct cells, namely the exit cell and
   * the ninth cell of every colour's path.
   */
  function SafeCells(): (r: set<Cell>)
    ensures |r| == 8
    ensures forall c: Color :: PathTable(c)[0] in r && PathTable(c)[8] in r
  {
    StartAndNinthCells(Red);
    StartAndNinthCells(Blue);
    StartAndNinthCells(Yellow);
    StartAndNinthCells(Green);
    {Cell(6, 1), Cell(13, 6), Cell(8, 13), Cell(1, 8), Cell(2, 6), Cell(8, 2), Cell(12, 8), Cell(6, 12)}
  }

  /** The ring meets the centre row and the centre column only at the board's edge. */
  ghost predicate OffCentreLines(cell: Cell) {
    && (cell.row == 7 ==> cell.col == 0 || cell.col == 14)
    && (cell.col == 7 ==> cell.row == 0 || cell.row == 14)
  }

  lemma RedRingOffCentre(cell: Cell)
    requires cell in RED_RING
    ensures OffCentreLines(cell)
  {
  }

  lemma BlueRingOffCentre(cell: Cell)
    requires cell in BLUE_RING
    ensures OffCentreLines(cell)
  {
  }

  lemma YellowRingOffCentre(cell: Cell)
    requires cell in YELLOW_RING
    ensures OffCentreLines(cell)
  {
  }

  lemma GreenRingOffCentre(cell: Cell)
    requires cell in GREEN_RING
    ensures OffCentreLines(cell)
  {
  }

  lemma RingOffCentreLines(d: Color, cell: Cell)
    requires cell in Ring(d)
    ensures OffCentreLines(cell)
  {
    match d
    case Red => RedRingOffCentre(cell);
    case Blue => BlueRingOffCentre(cell);
    case Yellow => YellowRingOffCentre(cell);
    case Green => GreenRingOffCentre(cell);
  }

  /** No cell of a colour's home stretch occurs anywhere in another colour's table. */
  lemma HomeStretchExclusive(c: Color, d: Color, cell: Cell)
    requires c != d
    requires cell in HomeStretch(c)
    ensures cell !in PathTable(d)
  {
    // Home stretches lie strictly inside the centre row or column.
    assert (cell.row == 7 && 1 <= cell.col <= 13) || (cell.col == 7 && 1 <= cell.row <= 13);
    if cell in Ring(d) {
      RingOffCentreLines(d, cell);
    }
    assert cell !in HomeStretch(d);
  }

  /** The four yard cells of colour `c`, in slot order: row bit first, then column bit. */
  function YardCells(c: Color): (r: seq<Cell>)
    ensures |r| == PIECES_PER_PLAYER
  {
    match c
    case Red => [Cell(1, 1), Cell(4, 1), Cell(1, 4), Cell(4, 4)]
    case Blue => [Cell(10, 1), Cell(13, 1), Cell(10, 4), Cell(13, 4)]
    case Yellow => [Cell(10, 10), Cell(13, 10), Cell(10, 13), Cell(13, 13)]
    case Green => [Cell(1, 10), Cell(4, 10), Cell(1, 13), Cell(4, 13)]
  }

  /**
   * isRedPieceArea and its siblings: the cell is one of the four yard cells
   * of colour `c`, and no two colours share a yard cell.
   */
  function IsPieceArea(c: Color, row: int, col: int): (r: bool)
    ensures r <==> Cell(row, col) in YardCells(c)
    ensures r ==> forall d: Color :: d != c ==> Cell(row, col) !in YardCells(d)
  {
    match c
    case Red => (row == 1 || row == 4) && (col == 1 || col == 4)
    case Blue => (row == 10 || row == 13) && (col == 1 || col == 4)
    case Yellow => (row == 10 || row == 13) && (col == 10 || col == 13)
    case Green => (row == 1 || row == 4) && (col == 10 || col == 13)
  }
}
