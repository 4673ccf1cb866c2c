/**
 * The grid collaborator as the rule engine queries it: its extents, the
 * bounds-checked cell lookup `Cell(x, y)`, and the occupant of each cell.
 *
 * A cell is identified by its coordinate (the grid owns exactly one cell per
 * coordinate and never relocates it), so "the same cell" is coordinate
 * equality and a null cell reference is `None`.
 */
module Grid {
  import opened Wrappers

  /** A grid position; `y` grows upwards, `x` grows to the right. */
  datatype Coord = Coord(x: int, y: int)

  /** What the matcher sees of an occupant: its match kind and its `LockedIn` flag. */
  datatype TileInfo = TileInfo(kind: int, lockedIn: bool)

  /**
   * A snapshot of the grid: `GridWidth`, `GridHeight` and the occupant of
   * every non-empty cell (a coordinate missing from `tiles` is an empty cell).
   */
  datatype Board = Board(width: int, height: int, tiles: map<Coord, TileInfo>)

  predicate InBounds(b: Board, c: Coord) {
    0 <= c.x < b.width && 0 <= c.y < b.height
  }

  /** `Grid.Cell(x, y)`: the cell at `(x, y)`, or `None` outside the grid. */
  function Cell(b: Board, x: int, y: int): Option<Coord> {
    if InBounds(b, Coord(x, y)) then Some(Coord(x, y)) else None
  }

  /** The cell's occupant, `None` for an empty cell. */
  function TileAt(b: Board, c: Coord): Option<TileInfo> {
    if c in b.tiles then Some(b.tiles[c]) else None
  }

  /** `TileReady`: the cell holds a tile and that tile is `LockedIn` (settled). */
  predicate Ready(t: Option<TileInfo>) {
    t.Some? && t.value.lockedIn
  }

  /** Every cell of the grid. */
  function AllCells(b: Board): (cells: set<Coord>)
    ensures forall c :: c in cells <==> InBounds(b, c)
  {
    set x: int, y: int | 0 <= x < b.width && 0 <= y < b.height :: Coord(x, y)
  }

  function Abs(n: int): nat {
    if n < 0 then -n else n
  }

  /** Number of orthogonal steps between two cells. */
  function Manhattan(a: Coord, c: Coord): nat {
    Abs(a.x - c.x) + Abs(a.y - c.y)
  }

  /** Number of king moves between two cells. */
  function Chebyshev(a: Coord, c: Coord): nat {
    if Abs(a.x - c.x) < Abs(a.y - c.y) then Abs(a.y - c.y) else Abs(a.x - c.x)
  }
}
