/**
 * Local 3-in-a-row detection (`IsValidMatch`, `MatchInLine`, `InTriplet`):
 * no row or column is scanned, only a cell, one neighbour and the cell one
 * step beyond either end of that pair.
 */
module Matching {
  import opened Wrappers
  import opened Grid
  import opened Neighbors

  /**
   * Both cells hold settled tiles and the tiles match. `Tile.IsMatch` is
   * not part of this model; it is taken to be equality of the match kind.
   */
  predicate SettledSameKind(b: Board, p: Coord, q: Coord) {
    Ready(TileAt(b, p)) && Ready(TileAt(b, q)) && TileAt(b, p).value.kind == TileAt(b, q).value.kind
  }

  /**
   * `self.IsValidMatch(other)`: `other` is a cell other than `self`, both
   * hold `LockedIn` tiles, and `other`'s tile matches `self`'s.
   */
  function IsValidMatch(b: Board, self: Coord, other: Option<Coord>): (r: bool)
    ensures r <==> other.Some? && other.value != self && SettledSameKind(b, self, other.value)
  {
    if other.Some? && other.value != self
       && TileAt(b, other.value).Some? && Ready(TileAt(b, other.value))
       && TileAt(b, self).Some? && Ready(TileAt(b, self))
    then TileAt(b, other.value).value.kind == TileAt(b, self).value.kind
    else false
  }

  /** With kind equality as the tile match, the matching test does not depend on which cell asks. */
  lemma IsValidMatchSymmetric(b: Board, p: Coord, q: Coord)
    ensures IsValidMatch(b, p, Some(q)) == IsValidMatch(b, q, Some(p))
  {
  }

  /**
   * `p`, `q`, `r` are consecutive cells of the grid on one row or column
   * (`r` is one step past `q` in the direction from `p` to `q`), holding
   * settled tiles of one kind: a straight run of three.
   */
  ghost predicate Line3(b: Board, p: Coord, q: Coord, r: Coord) {
    && InBounds(b, p) && InBounds(b, q) && InBounds(b, r)
    && Manhattan(p, q) == 1 && r == Coord(2 * q.x - p.x, 2 * q.y - p.y)
    && SettledSameKind(b, p, q) && SettledSameKind(b, q, r)
  }

  /** `c` is an end or the middle of some straight run of three. */
  ghost predicate InRun(b: Board, c: Coord) {
    exists p, q :: Line3(b, c, p, q) || Line3(b, p, c, q)
  }

  /**
   * `self.MatchInLine(other)`: for an orthogonally adjacent `other`, is the
   * cell one step past `self` (away from `other`) a valid match of `other`,
   * or the cell one step past `other` (away from `self`) a valid match of
   * `self`? It does not itself test `self` against `other`.
   */
  function MatchInLine(b: Board, self: Coord, other: Option<Coord>): (r: bool)
    ensures r ==> other.Some? && Manhattan(self, other.value) == 1
  {
    if other.None? || other.value == self then false
    else
      var o := other.value;
      var dx, dy := self.x - o.x, self.y - o.y;
      if Abs(dx) + Abs(dy) > 1 then false
      else
        var opposite := Cell(b, self.x + dx, self.y + dy);
        if opposite.Some? && IsValidMatch(b, opposite.value, other) then true
        else
          var otherOpposite := Cell(b, o.x - dx, o.y - dy);
          otherOpposite.Some? && IsValidMatch(b, otherOpposite.value, Some(self))
  }

  /**
   * For two matching cells of the grid, `MatchInLine` holds exactly when
   * the pair extends to a straight run of three on one side or the other;
   * so three in a row are always found and an L shape never is.
   */
  lemma MatchInLineIffRun(b: Board, s: Coord, o: Coord)
    requires InBounds(b, s) && InBounds(b, o) && IsValidMatch(b, s, Some(o))
    ensures MatchInLine(b, s, Some(o)) <==> exists t :: Line3(b, o, s, t) || Line3(b, s, o, t)
  {
    var beyondSelf := Coord(2 * s.x - o.x, 2 * s.y - o.y);
    var beyondOther := Coord(2 * o.x - s.x, 2 * o.y - s.y);
    if Manhattan(s, o) == 1 {
      assert Manhattan(o, s) == 1;
      assert Line3(b, o, s, beyondSelf) <==> InBounds(b, beyondSelf) && IsValidMatch(b, beyondSelf, Some(o));
      assert Line3(b, s, o, beyondOther) <==> InBounds(b, beyondOther) && IsValidMatch(b, beyondOther, Some(s));
      if MatchInLine(b, s, Some(o)) {
        if !Line3(b, o, s, beyondSelf) {
          assert Line3(b, s, o, beyondOther);
        }
      }
    } else {
      assert Manhattan(o, s) != 1;
    }
  }

  /**
   * What `MatchInLine` answers for any pair, matching or not: `other` is one
   * orthogonal step from `self`, and the cell one step past `self` is a grid
   * cell holding a settled tile of `other`'s kind, or the cell one step past
   * `other` is a grid cell holding a settled tile of `self`'s kind. `self`
   * and `other` are never compared with each other.
   */
  lemma MatchInLineSpec(b: Board, s: Coord, o: Coord)
    ensures MatchInLine(b, s, Some(o)) <==>
      && Manhattan(s, o) == 1
      && (|| (InBounds(b, Coord(2 * s.x - o.x, 2 * s.y - o.y)) && SettledSameKind(b, Coord(2 * s.x - o.x, 2 * s.y - o.y), o))
          || (InBounds(b, Coord(2 * o.x - s.x, 2 * o.y - s.y)) && SettledSameKind(b, Coord(2 * o.x - s.x, 2 * o.y - s.y), s)))
  {
    var beyondSelf := Coord(2 * s.x - o.x, 2 * s.y - o.y);
    var beyondOther := Coord(2 * o.x - s.x, 2 * o.y - s.y);
    if Manhattan(s, o) == 1 {
      assert beyondSelf != o && beyondOther != s;
    }
  }

  /**
   * On the row B A B the middle cell is in line with its left neighbour,
   * although the two do not match: the cell past the middle matches the
   * left one.
   */
  lemma MismatchedPairInLine(kindA: int, kindB: int)
    requires kindA != kindB
    ensures var b := Board(3, 1, map[Coord(0, 0) := TileInfo(kindB, true), Coord(1, 0) := TileInfo(kindA, true),
                                     Coord(2, 0) := TileInfo(kindB, true)]);
      && !IsValidMatch(b, Coord(1, 0), Some(Coord(0, 0)))
      && MatchInLine(b, Coord(1, 0), Some(Coord(0, 0)))
  {
    var b := Board(3, 1, map[Coord(0, 0) := TileInfo(kindB, true), Coord(1, 0) := TileInfo(kindA, true),
                             Coord(2, 0) := TileInfo(kindB, true)]);
    assert TileAt(b, Coord(2, 0)) == Some(TileInfo(kindB, true));
    assert TileAt(b, Coord(0, 0)) == Some(TileInfo(kindB, true));
    assert Cell(b, 2, 0) == Some(Coord(2, 0));
  }

  /** Asking from either end of the pair gives the same answer. */
  lemma MatchInLineSymmetric(b: Board, s: Coord, o: Coord)
    ensures MatchInLine(b, s, Some(o)) == MatchInLine(b, o, Some(s))
  {
    MatchInLineSpec(b, s, o);
    MatchInLineSpec(b, o, s);
    assert Manhattan(s, o) == Manhattan(o, s);
  }

  /** `n` is a present neighbour holding a tile that validly matches `self`'s. */
  predicate Candidate(b: Board, self: Coord, n: Option<Coord>) {
    n.Some? && TileAt(b, n.value).Some? && IsValidMatch(b, self, n)
  }

  /**
   * What `InTriplet` answers: `self` holds a tile, and the FIRST cardinal
   * neighbour (up, right, down, left) that is a candidate forms a line with
   * `self`. Later neighbours are never looked at.
   */
  ghost predicate FirstCandidateInLine(b: Board, self: Coord) {
    var ns := CardinalNeighbors(b, self);
    && TileAt(b, self).Some?
    && exists k :: 0 <= k < |ns| && Candidate(b, self, ns[k])
                   && (forall j :: 0 <= j < k ==> !Candidate(b, self, ns[j]))
                   && MatchInLine(b, ns[k].value, Some(self))
  }

  /** `InTriplet`: commits to the first matching cardinal neighbour. */
  method InTriplet(b: Board, self: Coord) returns (r: bool)
    ensures r == FirstCandidateInLine(b, self)
  {
    if TileAt(b, self).None? {
      return false;
    }
    var ns := CardinalNeighbors(b, self);
    var i := 0;
    while i < |ns|
      invariant 0 <= i <= |ns|
      invariant forall j :: 0 <= j < i ==> !Candidate(b, self, ns[j])
    {
      var neighbor := ns[i];
      if neighbor.Some? && TileAt(b, neighbor.value).Some? {
        if IsValidMatch(b, self, neighbor) {
          assert Candidate(b, self, ns[i]);
          return MatchInLine(b, neighbor.value, Some(self));
        }
      }
      i := i + 1;
    }
    return false;
  }

  /** Whatever `InTriplet` reports is a real straight run of three through `self`. */
  lemma FirstCandidateInLineSound(b: Board, self: Coord)
    requires InBounds(b, self) && FirstCandidateInLine(b, self)
    ensures InRun(b, self)
  {
    var ns := CardinalNeighbors(b, self);
    var k :| 0 <= k < |ns| && Candidate(b, self, ns[k])
             && (forall j :: 0 <= j < k ==> !Candidate(b, self, ns[j]))
             && MatchInLine(b, ns[k].value, Some(self));
    var n := ns[k].value;
    CardinalNeighborsSpec(b, self);
    assert Some(n) in ns;
    IsValidMatchSymmetric(b, self, n);
    MatchInLineIffRun(b, n, self);
    var t :| Line3(b, self, n, t) || Line3(b, n, self, t);
  }

  /** An upside-down T: a row of three along the bottom with a fourth tile of the same kind above its middle. */
  function TShape(kind: int): Board {
    var tile := TileInfo(kind, true);
    Board(3, 3, map[Coord(0, 0) := tile, Coord(1, 0) := tile, Coord(2, 0) := tile, Coord(1, 1) := tile])
  }

  /**
   * The middle of the T's row is in a run of three, but `InTriplet` commits
   * to the up neighbour, which matches yet is not in line, and says no.
   */
  lemma InTripletMissesRowUnderMatchingTile(kind: int)
    ensures InRun(TShape(kind), Coord(1, 0))
    ensures !FirstCandidateInLine(TShape(kind), Coord(1, 0))
  {
    TShapeRowRun(kind);
    TShapeNotFirst(kind);
  }

  lemma TShapeRowRun(kind: int)
    ensures InRun(TShape(kind), Coord(1, 0))
  {
    assert Line3(TShape(kind), Coord(0, 0), Coord(1, 0), Coord(2, 0));
  }

  lemma TShapeNotFirst(kind: int)
    ensures !FirstCandidateInLine(TShape(kind), Coord(1, 0))
  {
    var b, c := TShape(kind), Coord(1, 0);
    var ns := CardinalNeighbors(b, c);
    TShapeCenterNeighbors(kind);
    assert Candidate(b, c, ns[0]);
    UpNotInLine(kind);
  }

  lemma TShapeCenterNeighbors(kind: int)
    ensures CardinalNeighbors(TShape(kind), Coord(1, 0)) == [Some(Coord(1, 1)), Some(Coord(2, 0)), Some(Coord(0, 0))]
  {
  }

  lemma UpNotInLine(kind: int)
    ensures !MatchInLine(TShape(kind), Coord(1, 1), Some(Coord(1, 0)))
  {
    assert TileAt(TShape(kind), Coord(1, 2)).None?;
    BottomPairNotInLine(TShape(kind), 1);
  }

  /** A vertical pair on the bottom edge with nothing above it is not in line. */
  lemma BottomPairNotInLine(b: Board, x: int)
    requires TileAt(b, Coord(x, 2)).None?
    ensures !MatchInLine(b, Coord(x, 1), Some(Coord(x, 0)))
  {
  }

  /** Some candidate cardinal neighbour forms a line with `self`. */
  ghost predicate AnyCandidateInLine(b: Board, self: Coord) {
    var ns := CardinalNeighbors(b, self);
    exists k :: 0 <= k < |ns| && Candidate(b, self, ns[k]) && MatchInLine(b, ns[k].value, Some(self))
  }

  /** Looking at every cardinal neighbour decides membership in a run of three exactly. */
  lemma AnyCandidateInLineIffRun(b: Board, self: Coord)
    requires InBounds(b, self)
    ensures AnyCandidateInLine(b, self) <==> InRun(b, self)
  {
    if AnyCandidateInLine(b, self) {
      AnyCandidateInLineSound(b, self);
    }
    if InRun(b, self) {
      AnyCandidateInLineComplete(b, self);
    }
  }

  lemma AnyCandidateInLineSound(b: Board, self: Coord)
    requires InBounds(b, self) && AnyCandidateInLine(b, self)
    ensures InRun(b, self)
  {
    var ns := CardinalNeighbors(b, self);
    var k :| 0 <= k < |ns| && Candidate(b, self, ns[k]) && MatchInLine(b, ns[k].value, Some(self));
    var n := ns[k].value;
    assert Some(n) in ns;
    CardinalMember(b, self, n);
    IsValidMatchSymmetric(b, self, n);
    MatchInLineIffRun(b, n, self);
    var t :| Line3(b, self, n, t) || Line3(b, n, self, t);
  }

  lemma AnyCandidateInLineComplete(b: Board, self: Coord)
    requires InBounds(b, self) && InRun(b, self)
    ensures AnyCandidateInLine(b, self)
  {
    var ns := CardinalNeighbors(b, self);
    var p, q :| Line3(b, self, p, q) || Line3(b, p, self, q);
    assert Manhattan(self, p) == 1 && InBounds(b, p);
    CardinalMember(b, self, p);
    var k :| 0 <= k < |ns| && ns[k] == Some(p);
    assert Candidate(b, self, ns[k]);
    IsValidMatchSymmetric(b, self, p);
    MatchInLineIffRun(b, p, self);
    assert Line3(b, self, p, q) || Line3(b, p, self, q);
  }

  /**
   * The triplet test `CheckForTriplet` needs: true when ANY cardinal
   * neighbour that matches forms a line with `self`, so exactly when `self`
   * lies in a straight run of three.
   */
  method InTripletAnyNeighbor(b: Board, self: Coord) returns (r: bool)
    requires InBounds(b, self)
    ensures r <==> InRun(b, self)
  {
    var ns := CardinalNeighbors(b, self);
    r := false;
    var i := 0;
    while i < |ns| && !r
      invariant 0 <= i <= |ns|
      invariant r <==> exists j :: 0 <= j < i && Candidate(b, self, ns[j]) && MatchInLine(b, ns[j].value, Some(self))
    {
      if Candidate(b, self, ns[i]) && MatchInLine(b, ns[i].value, Some(self)) {
        r := true;
      }
      i := i + 1;
    }
    AnyCandidateInLineIffRun(b, self);
  }
}
