/**
 * Neighbour enumeration of a grid cell (`CardinalNeighbors`,
 * `NonCardinalNeighbors`, `AllNeighbors`, `IsNeighbor`).
 *
 * The enumerators are lazy `yield` sequences in the source; here each is the
 * finite sequence of the cells it yields, in yield order, `None` standing for
 * a `Grid.Cell` lookup that fell outside the grid.
 */
module Neighbors {
  import opened Wrappers
  import opened Grid

  /**
   * Position of `o` around `c` in the clockwise order the enumerators use:
   * up 0, up-right 1, right 2, right-down 3, down 4, down-left 5, left 6,
   * left-up 7; 8 for a cell that is not next to `c`.
   */
  function DirRank(c: Coord, o: Coord): (r: nat)
    ensures r < 8 <==> Chebyshev(c, o) == 1
    ensures r < 8 ==> (r in {0, 2, 4, 6} <==> Manhattan(c, o) == 1)
  {
    var dx, dy := o.x - c.x, o.y - c.y;
    if dx == 0 && dy == 1 then 0
    else if dx == 1 && dy == 1 then 1
    else if dx == 1 && dy == 0 then 2
    else if dx == 1 && dy == -1 then 3
    else if dx == 0 && dy == -1 then 4
    else if dx == -1 && dy == -1 then 5
    else if dx == -1 && dy == 0 then 6
    else if dx == -1 && dy == 1 then 7
    else 8
  }

  /** The yielded cells are strictly clockwise from up (so also pairwise distinct). */
  ghost predicate Clockwise(c: Coord, ns: seq<Option<Coord>>) {
    forall i, j :: 0 <= i < j < |ns| && ns[i].Some? && ns[j].Some? ==>
      DirRank(c, ns[i].value) < DirRank(c, ns[j].value)
  }

  /** Up, right, down, left, each only when its guard on the grid extents holds. */
  function CardinalNeighbors(b: Board, c: Coord): (ns: seq<Option<Coord>>)
    ensures |ns| == (if c.y < b.height - 1 then 1 else 0) + (if c.x < b.width - 1 then 1 else 0)
                    + (if c.y > 0 then 1 else 0) + (if c.x > 0 then 1 else 0)
  {
    (if c.y < b.height - 1 then [Cell(b, c.x, c.y + 1)] else [])    // up
    + (if c.x < b.width - 1 then [Cell(b, c.x + 1, c.y)] else [])  // right
    + (if c.y > 0 then [Cell(b, c.x, c.y - 1)] else [])            // down
    + (if c.x > 0 then [Cell(b, c.x - 1, c.y)] else [])            // left
  }

  /**
   * The four diagonals. The up and right guards compare against the extents
   * themselves (`y < GridHeight`, `x < GridWidth`), so they hold for every
   * cell of the grid and the up-right request is always made.
   */
  function NonCardinalNeighbors(b: Board, c: Coord): (ns: seq<Option<Coord>>)
    ensures |ns| == (if c.y < b.height && c.x < b.width then 1 else 0) + (if c.x < b.width && c.y > 0 then 1 else 0)
                    + (if c.y > 0 && c.x > 0 then 1 else 0) + (if c.x > 0 && c.y < b.height then 1 else 0)
  {
    var hasUp, hasRight, hasDown, hasLeft := c.y < b.height, c.x < b.width, c.y > 0, c.x > 0;
    (if hasUp && hasRight then [Cell(b, c.x + 1, c.y + 1)] else [])     // up-right
    + (if hasRight && hasDown then [Cell(b, c.x + 1, c.y - 1)] else []) // right-down
    + (if hasDown && hasLeft then [Cell(b, c.x - 1, c.y - 1)] else [])  // down-left
    + (if hasLeft && hasUp then [Cell(b, c.x - 1, c.y + 1)] else [])    // left-up
  }

  /** All eight directions clockwise from up, under the same loose guards as the diagonals. */
  function AllNeighbors(b: Board, c: Coord): (ns: seq<Option<Coord>>)
    // one entry per direction whose guard holds, one more per diagonal whose two guards hold
    ensures |ns| == (if c.y < b.height then 1 else 0) + (if c.x < b.width then 1 else 0)
                    + (if c.y > 0 then 1 else 0) + (if c.x > 0 then 1 else 0)
                    + (if c.y < b.height && c.x < b.width then 1 else 0) + (if c.x < b.width && c.y > 0 then 1 else 0)
                    + (if c.y > 0 && c.x > 0 then 1 else 0) + (if c.x > 0 && c.y < b.height then 1 else 0)
  {
    var hasUp, hasRight, hasDown, hasLeft := c.y < b.height, c.x < b.width, c.y > 0, c.x > 0;
    (if hasUp then
       [Cell(b, c.x, c.y + 1)] + (if hasRight then [Cell(b, c.x + 1, c.y + 1)] else [])
     else [])
    + (if hasRight then
         [Cell(b, c.x + 1, c.y)] + (if hasDown then [Cell(b, c.x + 1, c.y - 1)] else [])
       else [])
    + (if hasDown then
         [Cell(b, c.x, c.y - 1)] + (if hasLeft then [Cell(b, c.x - 1, c.y - 1)] else [])
       else [])
    + (if hasLeft then
         [Cell(b, c.x - 1, c.y)] + (if hasUp then [Cell(b, c.x - 1, c.y + 1)] else [])
       else [])
  }

  function Indicator(p: bool): nat {
    if p then 1 else 0
  }

  /** The four cells one orthogonal step away. */
  lemma OrthogonalStep(c: Coord, o: Coord)
    ensures Manhattan(c, o) == 1 <==>
      o in {Coord(c.x, c.y + 1), Coord(c.x + 1, c.y), Coord(c.x, c.y - 1), Coord(c.x - 1, c.y)}
  {
  }

  lemma CardinalMember(b: Board, c: Coord, o: Coord)
    requires InBounds(b, c)
    ensures Some(o) in CardinalNeighbors(b, c) <==> InBounds(b, o) && Manhattan(c, o) == 1
  {
    var up := if c.y < b.height - 1 then [Cell(b, c.x, c.y + 1)] else [];
    var right := if c.x < b.width - 1 then [Cell(b, c.x + 1, c.y)] else [];
    var down := if c.y > 0 then [Cell(b, c.x, c.y - 1)] else [];
    var left := if c.x > 0 then [Cell(b, c.x - 1, c.y)] else [];
    assert CardinalNeighbors(b, c) == up + right + down + left;
    OrthogonalStep(c, o);
  }

  /** The Some entries of `ns` all lie at ranks in `[lo, hi)`. */
  ghost predicate RanksWithin(c: Coord, ns: seq<Option<Coord>>, lo: int, hi: int) {
    forall i :: 0 <= i < |ns| && ns[i].Some? ==> lo <= DirRank(c, ns[i].value) < hi
  }

  /** Concatenating two clockwise runs whose ranks do not overlap keeps them clockwise. */
  lemma {:induction false} ClockwiseConcat(c: Coord, a: seq<Option<Coord>>, b: seq<Option<Coord>>, lo: int, mid: int, hi: int)
    requires Clockwise(c, a) && Clockwise(c, b)
    requires lo <= mid <= hi
    requires RanksWithin(c, a, lo, mid) && RanksWithin(c, b, mid, hi)
    ensures Clockwise(c, a + b) && RanksWithin(c, a + b, lo, hi)
  {
    var s := a + b;
    forall i, j | 0 <= i < j < |s| && s[i].Some? && s[j].Some?
      ensures DirRank(c, s[i].value) < DirRank(c, s[j].value)
    {
      if j < |a| {
        assert s[i] == a[i] && s[j] == a[j];
      } else if i < |a| {
        assert s[i] == a[i] && s[j] == b[j - |a|];
      } else {
        assert s[i] == b[i - |a|] && s[j] == b[j - |a|];
      }
    }
    forall i | 0 <= i < |s| && s[i].Some? ensures lo <= DirRank(c, s[i].value) < hi {
      if i < |a| { assert s[i] == a[i]; } else { assert s[i] == b[i - |a|]; }
    }
  }

  /** One request of an enumeration: the cell at `(x, y)` when the guard `g` holds, nothing otherwise. */
  function Piece(b: Board, g: bool, x: int, y: int): seq<Option<Coord>> {
    if g then [Cell(b, x, y)] else []
  }

  lemma PieceRanks(b: Board, c: Coord, g: bool, x: int, y: int, lo: int, hi: int)
    requires g ==> lo <= DirRank(c, Coord(x, y)) < hi
    ensures Clockwise(c, Piece(b, g, x, y)) && RanksWithin(c, Piece(b, g, x, y), lo, hi)
  {
  }

  lemma PiecePresent(b: Board, g: bool, x: int, y: int)
    requires g ==> InBounds(b, Coord(x, y))
    ensures None !in Piece(b, g, x, y)
  {
  }

  /** Four clockwise runs in increasing rank bands concatenate to one clockwise run. */
  lemma ClockwiseConcat4(c: Coord, p: seq<Option<Coord>>, q: seq<Option<Coord>>, r: seq<Option<Coord>>, s: seq<Option<Coord>>,
                         k0: int, k1: int, k2: int, k3: int, k4: int)
    requires k0 <= k1 <= k2 <= k3 <= k4
    requires Clockwise(c, p) && RanksWithin(c, p, k0, k1)
    requires Clockwise(c, q) && RanksWithin(c, q, k1, k2)
    requires Clockwise(c, r) && RanksWithin(c, r, k2, k3)
    requires Clockwise(c, s) && RanksWithin(c, s, k3, k4)
    ensures Clockwise(c, p + q + r + s) && RanksWithin(c, p + q + r + s, k0, k4)
  {
    ClockwiseConcat(c, p, q, k0, k1, k2);
    ClockwiseConcat(c, p + q, r, k0, k2, k3);
    ClockwiseConcat(c, p + q + r, s, k0, k3, k4);
  }

  /** Four optional requests whose ranks fall in increasing bands make a clockwise run. */
  lemma FourPieces(b: Board, c: Coord, g0: bool, x0: int, y0: int, g1: bool, x1: int, y1: int,
                   g2: bool, x2: int, y2: int, g3: bool, x3: int, y3: int,
                   k0: int, k1: int, k2: int, k3: int, k4: int)
    requires k0 <= k1 <= k2 <= k3 <= k4
    requires g0 ==> k0 <= DirRank(c, Coord(x0, y0)) < k1
    requires g1 ==> k1 <= DirRank(c, Coord(x1, y1)) < k2
    requires g2 ==> k2 <= DirRank(c, Coord(x2, y2)) < k3
    requires g3 ==> k3 <= DirRank(c, Coord(x3, y3)) < k4
    ensures var ns := Piece(b, g0, x0, y0) + Piece(b, g1, x1, y1) + Piece(b, g2, x2, y2) + Piece(b, g3, x3, y3);
      Clockwise(c, ns) && RanksWithin(c, ns, k0, k4)
  {
    PieceRanks(b, c, g0, x0, y0, k0, k1);
    PieceRanks(b, c, g1, x1, y1, k1, k2);
    PieceRanks(b, c, g2, x2, y2, k2, k3);
    PieceRanks(b, c, g3, x3, y3, k3, k4);
    ClockwiseConcat4(c, Piece(b, g0, x0, y0), Piece(b, g1, x1, y1), Piece(b, g2, x2, y2), Piece(b, g3, x3, y3),
                     k0, k1, k2, k3, k4);
  }

  /**
   * For a cell of the grid the cardinal enumeration yields exactly the cells
   * one orthogonal step away, each present, clockwise from up.
   */
  lemma CardinalNeighborsSpec(b: Board, c: Coord)
    requires InBounds(b, c)
    ensures var ns := CardinalNeighbors(b, c);
      && |ns| == Indicator(c.y < b.height - 1) + Indicator(c.x < b.width - 1)
                 + Indicator(c.y > 0) + Indicator(c.x > 0)
      && (forall i :: 0 <= i < |ns| ==> ns[i].Some?)
      && Clockwise(c, ns)
      && (forall o :: Some(o) in ns <==> InBounds(b, o) && Manhattan(c, o) == 1)
  {
    CardinalShape(b, c);
    forall o ensures Some(o) in CardinalNeighbors(b, c) <==> InBounds(b, o) && Manhattan(c, o) == 1 {
      CardinalMember(b, c, o);
    }
  }

  lemma CardinalShape(b: Board, c: Coord)
    requires InBounds(b, c)
    ensures var ns := CardinalNeighbors(b, c);
      && |ns| == Indicator(c.y < b.height - 1) + Indicator(c.x < b.width - 1)
                 + Indicator(c.y > 0) + Indicator(c.x > 0)
      && (forall i :: 0 <= i < |ns| ==> ns[i].Some?)
      && Clockwise(c, ns)
  {
    CardinalPieces(b, c);
    CardinalPresent(b, c);
    CardinalClockwise(b, c);
  }

  lemma CardinalPieces(b: Board, c: Coord)
    ensures CardinalNeighbors(b, c) ==
      Piece(b, c.y < b.height - 1, c.x, c.y + 1) + Piece(b, c.x < b.width - 1, c.x + 1, c.y)
      + Piece(b, c.y > 0, c.x, c.y - 1) + Piece(b, c.x > 0, c.x - 1, c.y)
  {
  }

  lemma CardinalPresent(b: Board, c: Coord)
    requires InBounds(b, c)
    ensures forall i :: 0 <= i < |CardinalNeighbors(b, c)| ==> CardinalNeighbors(b, c)[i].Some?
  {
    CardinalPieces(b, c);
    PiecePresent(b, c.y < b.height - 1, c.x, c.y + 1);
    PiecePresent(b, c.x < b.width - 1, c.x + 1, c.y);
    PiecePresent(b, c.y > 0, c.x, c.y - 1);
    PiecePresent(b, c.x > 0, c.x - 1, c.y);
    var ns := CardinalNeighbors(b, c);
    assert None !in ns;
    forall i | 0 <= i < |ns| ensures ns[i].Some? {
      assert ns[i] in ns;
    }
  }

  lemma CardinalClockwise(b: Board, c: Coord)
    ensures Clockwise(c, CardinalNeighbors(b, c))
  {
    CardinalPieces(b, c);
    FourPieces(b, c, c.y < b.height - 1, c.x, c.y + 1, c.x < b.width - 1, c.x + 1, c.y,
               c.y > 0, c.x, c.y - 1, c.x > 0, c.x - 1, c.y, 0, 1, 3, 5, 8);
  }

  /** The diagonal cells. */
  lemma DiagonalStep(c: Coord, o: Coord)
    ensures Abs(o.x - c.x) == 1 && Abs(o.y - c.y) == 1 <==>
      o in {Coord(c.x + 1, c.y + 1), Coord(c.x + 1, c.y - 1), Coord(c.x - 1, c.y - 1), Coord(c.x - 1, c.y + 1)}
  {
  }

  lemma KingStep(c: Coord, o: Coord)
    ensures Chebyshev(c, o) == 1 <==>
      o in {Coord(c.x, c.y + 1), Coord(c.x + 1, c.y + 1), Coord(c.x + 1, c.y), Coord(c.x + 1, c.y - 1),
            Coord(c.x, c.y - 1), Coord(c.x - 1, c.y - 1), Coord(c.x - 1, c.y), Coord(c.x - 1, c.y + 1)}
  {
  }

  /**
   * The diagonal enumeration of a cell of the grid: the up-right request is
   * always made (and comes back `None` on the top or right edge), the other
   * three only when the cell is off the bottom or left edge; what comes back
   * present is exactly the diagonal cells of the grid, clockwise.
   */
  lemma NonCardinalNeighborsSpec(b: Board, c: Coord)
    requires InBounds(b, c)
    ensures var ns := NonCardinalNeighbors(b, c);
      && |ns| == 1 + Indicator(c.y > 0) + Indicator(c.y > 0 && c.x > 0) + Indicator(c.x > 0)
      && ns[0] == Cell(b, c.x + 1, c.y + 1)
      && (ns[0].None? <==> c.y == b.height - 1 || c.x == b.width - 1)
      // right-down is absent on the right edge, left-up (always last) on the top edge
      && (forall i :: 1 <= i < |ns| ==>
            (ns[i].None? <==> (i == 1 && c.y > 0 && c.x == b.width - 1)
                              || (i == |ns| - 1 && c.x > 0 && c.y == b.height - 1)))
      && Clockwise(c, ns)
      && (forall o :: Some(o) in ns <==>
            InBounds(b, o) && Abs(o.x - c.x) == 1 && Abs(o.y - c.y) == 1)
  {
    NonCardinalShape(b, c);
    NonCardinalAbsent(b, c);
    forall o ensures Some(o) in NonCardinalNeighbors(b, c) <==>
      InBounds(b, o) && Abs(o.x - c.x) == 1 && Abs(o.y - c.y) == 1
    {
      NonCardinalMember(b, c, o);
    }
  }

  lemma NonCardinalAbsent(b: Board, c: Coord)
    requires InBounds(b, c)
    ensures var ns := NonCardinalNeighbors(b, c);
      forall i :: 1 <= i < |ns| ==>
        (ns[i].None? <==> (i == 1 && c.y > 0 && c.x == b.width - 1)
                          || (i == |ns| - 1 && c.x > 0 && c.y == b.height - 1))
  {
    NonCardinalPieces(b, c);
  }

  lemma NonCardinalShape(b: Board, c: Coord)
    requires InBounds(b, c)
    ensures var ns := NonCardinalNeighbors(b, c);
      && |ns| == 1 + Indicator(c.y > 0) + Indicator(c.y > 0 && c.x > 0) + Indicator(c.x > 0)
      && ns[0] == Cell(b, c.x + 1, c.y + 1)
      && Clockwise(c, ns)
  {
    NonCardinalPieces(b, c);
    NonCardinalClockwise(b, c);
  }

  lemma NonCardinalPieces(b: Board, c: Coord)
    ensures NonCardinalNeighbors(b, c) ==
      Piece(b, c.y < b.height && c.x < b.width, c.x + 1, c.y + 1) + Piece(b, c.x < b.width && c.y > 0, c.x + 1, c.y - 1)
      + Piece(b, c.y > 0 && c.x > 0, c.x - 1, c.y - 1) + Piece(b, c.x > 0 && c.y < b.height, c.x - 1, c.y + 1)
  {
  }

  lemma NonCardinalClockwise(b: Board, c: Coord)
    ensures Clockwise(c, NonCardinalNeighbors(b, c))
  {
    NonCardinalPieces(b, c);
    FourPieces(b, c, c.y < b.height && c.x < b.width, c.x + 1, c.y + 1, c.x < b.width && c.y > 0, c.x + 1, c.y - 1,
               c.y > 0 && c.x > 0, c.x - 1, c.y - 1, c.x > 0 && c.y < b.height, c.x - 1, c.y + 1, 0, 2, 4, 6, 8);
  }

  lemma NonCardinalMember(b: Board, c: Coord, o: Coord)
    requires InBounds(b, c)
    ensures Some(o) in NonCardinalNeighbors(b, c) <==>
      InBounds(b, o) && Abs(o.x - c.x) == 1 && Abs(o.y - c.y) == 1
  {
    var ur := [Cell(b, c.x + 1, c.y + 1)];
    var rd := if c.y > 0 then [Cell(b, c.x + 1, c.y - 1)] else [];
    var dl := if c.y > 0 && c.x > 0 then [Cell(b, c.x - 1, c.y - 1)] else [];
    var lu := if c.x > 0 then [Cell(b, c.x - 1, c.y + 1)] else [];
    assert NonCardinalNeighbors(b, c) == ur + rd + dl + lu;
    DiagonalStep(c, o);
  }

  /**
   * The all-neighbour enumeration of a cell of the grid: up, up-right and
   * right are always requested first (and come back `None` on the top or
   * right edge), the down- and left-based requests are made only off the
   * bottom and left edges; what comes back present is exactly the up to
   * eight surrounding cells of the grid, clockwise from up.
   */
  lemma AllNeighborsSpec(b: Board, c: Coord)
    requires InBounds(b, c)
    ensures var ns := AllNeighbors(b, c);
      && |ns| == 3 + 2 * Indicator(c.y > 0) + Indicator(c.y > 0 && c.x > 0) + 2 * Indicator(c.x > 0)
      && ns[0] == Cell(b, c.x, c.y + 1) && ns[1] == Cell(b, c.x + 1, c.y + 1) && ns[2] == Cell(b, c.x + 1, c.y)
      && (ns[0].None? <==> c.y == b.height - 1)
      && (ns[1].None? <==> c.y == b.height - 1 || c.x == b.width - 1)
      && (ns[2].None? <==> c.x == b.width - 1)
      // later on, right-down is absent on the right edge, left-up (always last) on the top edge
      && (forall i :: 3 <= i < |ns| ==>
            (ns[i].None? <==> (i == 3 && c.y > 0 && c.x == b.width - 1)
                              || (i == |ns| - 1 && c.x > 0 && c.y == b.height - 1)))
      && Clockwise(c, ns)
      && (forall o :: Some(o) in ns <==> InBounds(b, o) && Chebyshev(c, o) == 1)
  {
    AllShape(b, c);
    AllAbsent(b, c);
    forall o ensures Some(o) in AllNeighbors(b, c) <==> InBounds(b, o) && Chebyshev(c, o) == 1 {
      AllMember(b, c, o);
    }
  }

  lemma AllShape(b: Board, c: Coord)
    requires InBounds(b, c)
    ensures var ns := AllNeighbors(b, c);
      && |ns| == 3 + 2 * Indicator(c.y > 0) + Indicator(c.y > 0 && c.x > 0) + 2 * Indicator(c.x > 0)
      && ns[0] == Cell(b, c.x, c.y + 1) && ns[1] == Cell(b, c.x + 1, c.y + 1) && ns[2] == Cell(b, c.x + 1, c.y)
      && Clockwise(c, ns)
  {
    AllFront(b, c);
    AllClockwise(b, c);
  }

  lemma AllFront(b: Board, c: Coord)
    requires InBounds(b, c)
    ensures var ns := AllNeighbors(b, c);
      && |ns| == 3 + 2 * Indicator(c.y > 0) + Indicator(c.y > 0 && c.x > 0) + 2 * Indicator(c.x > 0)
      && ns[0] == Cell(b, c.x, c.y + 1) && ns[1] == Cell(b, c.x + 1, c.y + 1) && ns[2] == Cell(b, c.x + 1, c.y)
  {
    AllSplit(b, c);
    var up := UpperHalf(b, c);
    assert AllNeighbors(b, c)[..3] == up[..3];
  }

  lemma AllClockwise(b: Board, c: Coord)
    requires InBounds(b, c)
    ensures Clockwise(c, AllNeighbors(b, c))
  {
    AllSplit(b, c);
    UpperHalfClockwise(b, c);
    LowerHalfClockwise(b, c);
    ClockwiseConcat(c, UpperHalf(b, c), LowerHalf(b, c), 0, 4, 8);
  }

  lemma AllAbsent(b: Board, c: Coord)
    requires InBounds(b, c)
    ensures var ns := AllNeighbors(b, c);
      forall i :: 3 <= i < |ns| ==>
        (ns[i].None? <==> (i == 3 && c.y > 0 && c.x == b.width - 1)
                          || (i == |ns| - 1 && c.x > 0 && c.y == b.height - 1))
  {
    AllSplit(b, c);
    LowerHalfPieces(b, c);
  }

  /**
   * The diagonal enumeration is the all-neighbour one with the orthogonal
   * requests dropped: up-right, then right-down, down-left and left-up when
   * they are requested, at the same positions relative to the other entries.
   */
  lemma DiagonalsOfAll(b: Board, c: Coord)
    requires InBounds(b, c)
    ensures var all := AllNeighbors(b, c);
      NonCardinalNeighbors(b, c)
      == [all[1]] + (if c.y > 0 then [all[3]] else []) + (if c.y > 0 && c.x > 0 then [all[5]] else [])
         + (if c.x > 0 then [all[|all| - 1]] else [])
  {
    AllSplit(b, c);
    NonCardinalPieces(b, c);
  }

  lemma AllSplit(b: Board, c: Coord)
    requires InBounds(b, c)
    ensures AllNeighbors(b, c) == UpperHalf(b, c) + LowerHalf(b, c)
    ensures |UpperHalf(b, c)| == 3 + Indicator(c.y > 0)
    ensures |LowerHalf(b, c)| == Indicator(c.y > 0) + Indicator(c.y > 0 && c.x > 0) + 2 * Indicator(c.x > 0)
  {
  }

  /** The requests `AllNeighbors` makes for up, up-right, right and right-down. */
  function UpperHalf(b: Board, c: Coord): seq<Option<Coord>> {
    [Cell(b, c.x, c.y + 1), Cell(b, c.x + 1, c.y + 1), Cell(b, c.x + 1, c.y)]
    + (if c.y > 0 then [Cell(b, c.x + 1, c.y - 1)] else [])
  }

  /** The requests `AllNeighbors` makes for down, down-left, left and left-up. */
  function LowerHalf(b: Board, c: Coord): seq<Option<Coord>> {
    (if c.y > 0 then [Cell(b, c.x, c.y - 1)] + (if c.x > 0 then [Cell(b, c.x - 1, c.y - 1)] else []) else [])
    + (if c.x > 0 then [Cell(b, c.x - 1, c.y), Cell(b, c.x - 1, c.y + 1)] else [])
  }

  lemma UpperHalfPieces(b: Board, c: Coord)
    ensures UpperHalf(b, c) ==
      Piece(b, true, c.x, c.y + 1) + Piece(b, true, c.x + 1, c.y + 1)
      + Piece(b, true, c.x + 1, c.y) + Piece(b, c.y > 0, c.x + 1, c.y - 1)
  {
  }

  lemma UpperHalfClockwise(b: Board, c: Coord)
    ensures Clockwise(c, UpperHalf(b, c)) && RanksWithin(c, UpperHalf(b, c), 0, 4)
  {
    UpperHalfPieces(b, c);
    FourPieces(b, c, true, c.x, c.y + 1, true, c.x + 1, c.y + 1, true, c.x + 1, c.y,
               c.y > 0, c.x + 1, c.y - 1, 0, 1, 2, 3, 4);
  }

  lemma LowerHalfPieces(b: Board, c: Coord)
    ensures LowerHalf(b, c) ==
      Piece(b, c.y > 0, c.x, c.y - 1) + Piece(b, c.y > 0 && c.x > 0, c.x - 1, c.y - 1)
      + Piece(b, c.x > 0, c.x - 1, c.y) + Piece(b, c.x > 0, c.x - 1, c.y + 1)
  {
  }

  lemma LowerHalfClockwise(b: Board, c: Coord)
    ensures Clockwise(c, LowerHalf(b, c)) && RanksWithin(c, LowerHalf(b, c), 4, 8)
  {
    LowerHalfPieces(b, c);
    FourPieces(b, c, c.y > 0, c.x, c.y - 1, c.y > 0 && c.x > 0, c.x - 1, c.y - 1,
               c.x > 0, c.x - 1, c.y, c.x > 0, c.x - 1, c.y + 1, 4, 5, 6, 7, 8);
  }

  lemma AllMember(b: Board, c: Coord, o: Coord)
    requires InBounds(b, c)
    ensures Some(o) in AllNeighbors(b, c) <==> InBounds(b, o) && Chebyshev(c, o) == 1
  {
    AllSplit(b, c);
    LowerHalfPieces(b, c);
    KingStep(c, o);
  }

  /**
   * The all-neighbour enumeration is the cardinal one merged with the
   * diagonal one: it yields the same cells, and its only extra entries are
   * the two requests the cardinal guards skip, the up and right lookups made
   * on the top and right edges, which come back `None`.
   */
  lemma AllIsCardinalPlusDiagonal(b: Board, c: Coord)
    requires InBounds(b, c)
    ensures |AllNeighbors(b, c)| == |CardinalNeighbors(b, c)| + |NonCardinalNeighbors(b, c)|
      + Indicator(c.y == b.height - 1) + Indicator(c.x == b.width - 1)
    ensures forall o :: Some(o) in AllNeighbors(b, c) <==>
      Some(o) in CardinalNeighbors(b, c) || Some(o) in NonCardinalNeighbors(b, c)
  {
    CardinalNeighborsSpec(b, c);
    NonCardinalNeighborsSpec(b, c);
    AllNeighborsSpec(b, c);
    forall o ensures Chebyshev(c, o) == 1 <==> Manhattan(c, o) == 1 || (Abs(o.x - c.x) == 1 && Abs(o.y - c.y) == 1) {
      KingStep(c, o);
      OrthogonalStep(c, o);
      DiagonalStep(c, o);
    }
  }

  /** Cardinal adjacency is symmetric: the grid is an undirected graph. */
  lemma CardinalSymmetric(b: Board, a: Coord, c: Coord)
    requires InBounds(b, a) && InBounds(b, c)
    ensures Some(c) in CardinalNeighbors(b, a) <==> Some(a) in CardinalNeighbors(b, c)
  {
    CardinalMember(b, a, c);
    CardinalMember(b, c, a);
  }

  /**
   * The boundary asymmetry on a 3 by 3 grid: the top-right corner's
   * all-neighbour and diagonal enumerations still request up, up-right,
   * right (and left-up, right-down), which come back `None`, while its
   * cardinal enumeration skips them.
   */
  lemma TopRightCornerOfThreeByThree()
    ensures var b, c := Board(3, 3, map[]), Coord(2, 2);
      && CardinalNeighbors(b, c) == [Some(Coord(2, 1)), Some(Coord(1, 2))]
      && NonCardinalNeighbors(b, c) == [None, None, Some(Coord(1, 1)), None]
      && AllNeighbors(b, c)
         == [None, None, None, None, Some(Coord(2, 1)), Some(Coord(1, 1)), Some(Coord(1, 2)), None]
  {
  }

  /** Membership in the enumeration `IsNeighbor` scans is grid adjacency of the chosen kind. */
  lemma ScannedMember(b: Board, self: Coord, o: Coord, requireCardinal: bool)
    requires InBounds(b, self)
    ensures Some(o) in (if requireCardinal then CardinalNeighbors(b, self) else AllNeighbors(b, self)) <==>
      InBounds(b, o) && if requireCardinal then Manhattan(self, o) == 1 else Chebyshev(self, o) == 1
  {
    if requireCardinal {
      CardinalMember(b, self, o);
    } else {
      AllMember(b, self, o);
    }
  }

  /**
   * `IsNeighbor(other, requireCardinal)`: scans the cardinal (or the
   * all-neighbour) enumeration for `other`. Absent entries never equal a
   * present `other`, so the answer is plain grid adjacency.
   */
  method IsNeighbor(b: Board, self: Coord, other: Option<Coord>, requireCardinal: bool) returns (r: bool)
    requires InBounds(b, self)
    ensures r <==> other.Some? && other.value != self && InBounds(b, other.value)
                   && if requireCardinal then Manhattan(self, other.value) == 1
                      else Chebyshev(self, other.value) == 1
  {
    if other.None? || other.value == self {
      return false;
    }
    if requireCardinal {
      r := Scan(CardinalNeighbors(b, self), other);
    } else {
      r := Scan(AllNeighbors(b, self), other);
    }
    ScannedMember(b, self, other.value, requireCardinal);
  }

  /** The `foreach` of `IsNeighbor`: walks `ns` and stops at the first entry equal to `other`. */
  method Scan(ns: seq<Option<Coord>>, other: Option<Coord>) returns (found: bool)
    ensures found <==> other in ns
  {
    var i := 0;
    while i < |ns|
      invariant 0 <= i <= |ns|
      invariant forall j :: 0 <= j < i ==> ns[j] != other
    {
      if ns[i] == other {
        return true;
      }
      i := i + 1;
    }
    return false;
  }
}
