/**
 * The objects behind a grid position: the `Tile` occupying a cell and the
 * `TileGridCell` holding it, with the slot setter that keeps the tile's
 * back-reference to its cell, the readiness query, and the guard that lets
 * a swap begin.
 */
module Cells {
  import opened Wrappers
  import opened Grid
  import opened Matching

  /** A tile: its match kind, whether it may be swapped, whether it has settled, and the cell it belongs to. */
  class Tile {
    var kind: int
    var swappable: bool
    var lockedIn: bool
    var gridCell: TileGridCell?

    /** A new tile is settled and belongs to no cell. */
    constructor(kind: int, swappable: bool)
      ensures this.kind == kind && this.swappable == swappable
      ensures lockedIn && gridCell == null
    {
      this.kind := kind;
      this.swappable := swappable;
      lockedIn := true;
      gridCell := null;
    }
  }

  /** A grid position and the tile it holds, if any. */
  class TileGridCell {
    const coord: Coord
    var tile: Tile?

    constructor(coord: Coord)
      ensures this.coord == coord && tile == null
    {
      this.coord := coord;
      tile := null;
    }

    /** What the rule engine sees of this cell's occupant: its kind and whether it has settled. */
    function View(): (v: Option<TileInfo>)
      reads this, tile
      ensures v.None? <==> tile == null
      ensures v.Some? ==> v.value.kind == tile.kind && v.value.lockedIn == tile.lockedIn
    {
      if tile == null then None else Some(TileInfo(tile.kind, tile.lockedIn))
    }

    /** The tile points back at this cell. */
    predicate Linked()
      reads this, tile
    {
      tile != null ==> tile.gridCell == this
    }

    /** `TileReady`: the cell holds a tile and that tile has settled. */
    function TileReady(): (r: bool)
      reads this, tile
      ensures r <==> Ready(View())
      ensures r ==> tile != null && tile.lockedIn
    {
      if tile != null then tile.lockedIn else false
    }

    /**
     * The `Tile` setter: a different occupant (or none) replaces the old one
     * and, when present, is pointed back at this cell; assigning the current
     * occupant again changes nothing. The displaced tile keeps its own
     * back-reference.
     */
    method SetTile(value: Tile?)
      modifies this, value
      ensures tile == value
      ensures value == old(tile) ==> unchanged(this) && (value != null ==> unchanged(value))
      ensures value != old(tile) && value != null ==>
        value.gridCell == this && value.kind == old(value.kind)
        && value.swappable == old(value.swappable) && value.lockedIn == old(value.lockedIn)
      ensures old(tile) != null && old(tile) != value ==> unchanged(old(tile))
      ensures value != old(tile) || old(Linked()) ==> Linked()
      ensures value != null ==> View() == Some(TileInfo(old(value.kind), old(value.lockedIn)))
    {
      if tile != value {
        tile := value;
        if tile != null {
          tile.gridCell := this;
        }
      }
    }

    /**
     * `CanBeginSwap`: a swap may begin from this cell only when it holds a
     * settled tile, it has a grid, and the grid allows it; `gridAnswer` is
     * the grid's own answer, `None` when the cell has no grid.
     */
    function CanBeginSwap(gridAnswer: Option<bool>): (r: bool)
      reads this, tile
      ensures r <==> TileReady() && gridAnswer == Some(true)
      ensures r ==> tile != null && tile.lockedIn
    {
      if !TileReady() then false
      else if gridAnswer.Some? then gridAnswer.value
      else false
    }
  }

  /**
   * The rule engine's view agrees with the objects: on a board that shows two
   * cells' occupants as they are, `IsValidMatch` holds exactly when the cells
   * differ, both tiles are ready, and their kinds are equal.
   */
  lemma ReadyCellsMatch(b: Board, p: TileGridCell, q: TileGridCell)
    requires TileAt(b, p.coord) == p.View() && TileAt(b, q.coord) == q.View()
    ensures IsValidMatch(b, p.coord, Some(q.coord)) <==>
      p.coord != q.coord && p.TileReady() && q.TileReady() && p.tile.kind == q.tile.kind
  {
  }

  /**
   * Re-assigning a cell's current tile does not repair a stale
   * back-reference: the setter only writes it when the occupant changes.
   */
  method SameTileKeepsStaleLink() returns (cell: TileGridCell, other: TileGridCell, t: Tile)
    ensures cell.tile == t && t.gridCell == other && cell != other
    ensures !cell.Linked()
  {
    cell := new TileGridCell(Coord(0, 0));
    other := new TileGridCell(Coord(1, 0));
    t := new Tile(0, true);
    cell.SetTile(t);
    other.SetTile(t);
    cell.SetTile(t);
  }
}
