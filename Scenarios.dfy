/**
 * Worked examples: a bottom row of three on a 3x3 grid, a row of five whose
 * two ends are claimed at different orders, and a row broken by an empty cell.
 */
module Scenarios {
  import opened Wrappers
  import opened Grid
  import opened Neighbors
  import opened Matching
  import opened Chain

  /** Three settled tiles of kind `red` along the bottom, one of another kind above the middle. */
  function BottomRow(red: int): Board {
    var row, above := TileInfo(red, true), TileInfo(red + 1, true);
    Board(3, 3, map[Coord(0, 0) := row, Coord(1, 0) := row, Coord(2, 0) := row, Coord(1, 1) := above])
  }

  /**
   * Checking the middle of the row finds a triplet and claims the row: the
   * middle as starter at order 0, its two ends at order 1. Checking an end
   * afterwards changes nothing.
   */
  method ThreeInARowScenario(red: int) returns (triplet: bool, claims: map<Coord, Claim>)
    ensures triplet
    ensures claims == map[Coord(1, 0) := Claim(Coord(1, 0), 0),
                          Coord(0, 0) := Claim(Coord(1, 0), 1),
                          Coord(2, 0) := Claim(Coord(1, 0), 1)]
  {
    var b := BottomRow(red);
    var mid, left, right := Coord(1, 0), Coord(0, 0), Coord(2, 0);
    BottomRowMiddleInTriplet(red);
    triplet := InTriplet(b, mid);
    var grid := new TileGrid(b);
    var _, _ := CheckForTriplet(grid, mid);
    BottomRowEnds(red, b, grid.claims);
    BottomRowChain(red, grid.claims);
    var _, _ := CheckForTriplet(grid, left);
    claims := grid.claims;
  }

  /** Up is empty, so `InTriplet` commits to the right end, which is in line. */
  lemma BottomRowMiddleInTriplet(red: int)
    ensures FirstCandidateInLine(BottomRow(red), Coord(1, 0))
  {
    var b, mid := BottomRow(red), Coord(1, 0);
    var ns := CardinalNeighbors(b, mid);
    assert ns == [Some(Coord(1, 1)), Some(Coord(2, 0)), Some(Coord(0, 0))];
    assert !Candidate(b, mid, ns[0]);
    assert Candidate(b, mid, ns[1]);
    assert MatchInLine(b, Coord(2, 0), Some(mid));
  }

  /** What a chain started from the middle of the row on an empty ledger claims. */
  lemma BottomRowChain(red: int, claims: map<Coord, Claim>)
    requires Coord(1, 0) in claims && claims[Coord(1, 0)] == Claim(Coord(1, 0), 0)
    requires Coord(0, 0) in claims && claims[Coord(0, 0)] == Claim(Coord(1, 0), 1)
    requires Coord(2, 0) in claims && claims[Coord(2, 0)] == Claim(Coord(1, 0), 1)
    requires forall c :: c in claims && c != Coord(1, 0) ==> SettledSameKind(BottomRow(red), c, Coord(1, 0))
    ensures claims == map[Coord(1, 0) := Claim(Coord(1, 0), 0),
                          Coord(0, 0) := Claim(Coord(1, 0), 1),
                          Coord(2, 0) := Claim(Coord(1, 0), 1)]
  {
    BottomRowKind(red);
    assert forall c :: c in claims ==> c == Coord(0, 0) || c == Coord(1, 0) || c == Coord(2, 0);
  }

  /** A chain from the middle on an empty ledger claims both ends at order 1. */
  lemma BottomRowEnds(red: int, b: Board, claims: map<Coord, Claim>)
    requires b == BottomRow(red)
    requires StepsClaimed(b, map[], claims, Coord(1, 0), Claim(Coord(1, 0), 1))
    ensures Coord(0, 0) in claims && claims[Coord(0, 0)] == Claim(Coord(1, 0), 1)
    ensures Coord(2, 0) in claims && claims[Coord(2, 0)] == Claim(Coord(1, 0), 1)
  {
    BottomRowEdges(red);
    StepsBothClaimed(b, claims, Coord(1, 0), Coord(0, 0), Coord(2, 0), Claim(Coord(1, 0), 1));
  }

  lemma StepsBothClaimed(b: Board, claims: map<Coord, Claim>, mid: Coord, l: Coord, r: Coord, claim: Claim)
    requires Edge(b, mid, l) && Edge(b, mid, r) && StepsClaimed(b, map[], claims, mid, claim)
    ensures l in claims && claims[l] == claim && r in claims && claims[r] == claim
  {
  }

  /** Both ends of the row are flood steps from its middle. */
  lemma BottomRowEdges(red: int)
    ensures Edge(BottomRow(red), Coord(1, 0), Coord(0, 0)) && Edge(BottomRow(red), Coord(1, 0), Coord(2, 0))
  {
    var b, mid, left, right := BottomRow(red), Coord(1, 0), Coord(0, 0), Coord(2, 0);
    RunEdges(b, left, mid, right);
    LineReversed(b, left, mid, right);
    RunEdges(b, right, mid, left);
  }

  /** A 5x1 row of settled tiles of one kind. */
  function FullRow(kind: int): Board {
    var t := TileInfo(kind, true);
    Board(5, 1, map[Coord(0, 0) := t, Coord(1, 0) := t, Coord(2, 0) := t, Coord(3, 0) := t, Coord(4, 0) := t])
  }

  /**
   * Checking the middle of a row of five claims the whole row, but the two
   * ends get different orders. The right neighbour is recursed into first,
   * passed order 0, and claims the right end at order 1. The left neighbour
   * is recursed into second, passed order 1 by the post-increment, and claims
   * the left end at order 2.
   */
  method FiveInARowScenario(kind: int) returns (triplet: bool, claims: map<Coord, Claim>)
    ensures triplet
    ensures claims == map[Coord(2, 0) := Claim(Coord(2, 0), 0),
                          Coord(3, 0) := Claim(Coord(2, 0), 1), Coord(1, 0) := Claim(Coord(2, 0), 1),
                          Coord(4, 0) := Claim(Coord(2, 0), 1), Coord(0, 0) := Claim(Coord(2, 0), 2)]
  {
    var b, ll, l, mid, r, rr := FullRow(kind), Coord(0, 0), Coord(1, 0), Coord(2, 0), Coord(3, 0), Coord(4, 0);
    FullRowIsRowOfFive(kind, b, ll, l, mid, r, rr);
    triplet := InTriplet(b, mid);
    claims := RowOfFiveScenario(b, ll, l, mid, r, rr);
  }

  /**
   * A board whose cells are exactly a row `ll l mid r rr`, left to right,
   * that the flood crosses from `mid` outwards, with `mid` in a triplet.
   */
  ghost predicate RowOfFiveBoard(b: Board, ll: Coord, l: Coord, mid: Coord, r: Coord, rr: Coord) {
    && RowCells(b, ll, l, mid, r, rr)
    && InBounds(b, mid) && FirstCandidateInLine(b, mid)
    && RowOfFive(b, ll, l, mid, r, rr)
  }

  /** The board's cells are `ll l mid r rr`, left to right. */
  ghost predicate RowCells(b: Board, ll: Coord, l: Coord, mid: Coord, r: Coord, rr: Coord) {
    && (forall c :: InBounds(b, c) ==> c.y == mid.y && ll.x <= c.x <= rr.x)
    && ll == Coord(mid.x - 2, mid.y) && l == Coord(mid.x - 1, mid.y)
    && r == Coord(mid.x + 1, mid.y) && rr == Coord(mid.x + 2, mid.y)
  }

  /**
   * On a board whose cells are exactly a row `ll l mid r rr` that the flood
   * crosses from `mid` outwards, checking `mid` on a new grid claims the whole row: `mid` at
   * order 0, its neighbours and the right end at order 1, the left end at
   * order 2.
   */
  method RowOfFiveScenario(b: Board, ll: Coord, l: Coord, mid: Coord, r: Coord, rr: Coord)
    returns (claims: map<Coord, Claim>)
    requires RowOfFiveBoard(b, ll, l, mid, r, rr)
    ensures claims == map[mid := Claim(mid, 0), r := Claim(mid, 1), l := Claim(mid, 1),
                          rr := Claim(mid, 1), ll := Claim(mid, 2)]
  {
    var grid := new TileGrid(b);
    var visits, _ := CheckForTriplet(grid, mid);
    claims := grid.claims;
    RowOfFiveLedger(b, claims, visits, ll, l, mid, r, rr);
  }

  /** What the chain started from `mid` on an empty ledger leaves on the row of five. */
  lemma RowOfFiveLedger(b: Board, claims: map<Coord, Claim>, visits: seq<Call>,
                        ll: Coord, l: Coord, mid: Coord, r: Coord, rr: Coord)
    requires RowOfFiveBoard(b, ll, l, mid, r, rr)
    requires mid in claims && claims[mid] == Claim(mid, 0)
    requires StepsClaimed(b, map[], claims, mid, Claim(mid, 1))
    requires ClaimsSound(b, map[], claims, mid, mid, 0)
    requires CallsMade(b, map[], claims, mid, mid, 0, visits, true)
    requires Chained(b, claims, mid, visits)
    requires |visits| > 0 ==> LoopLedger(map[], visits[0].before, mid, visits, true)
    requires ChildClaims(claims, mid, 0, visits)
    ensures claims == map[mid := Claim(mid, 0), r := Claim(mid, 1), l := Claim(mid, 1),
                          rr := Claim(mid, 1), ll := Claim(mid, 2)]
  {
    RowOfFiveChain(b, claims, visits, ll, l, mid, r, rr);
    RowLedger(b, claims, ll, l, mid, r, rr);
  }

  /** Up and down are off the grid, so `InTriplet` commits to the right neighbour, which is in line. */
  lemma FullRowMiddleInTriplet(kind: int, b: Board, mid: Coord)
    requires b == FullRow(kind) && mid == Coord(2, 0)
    ensures InBounds(b, mid) && FirstCandidateInLine(b, mid)
  {
    var ns := CardinalNeighbors(b, mid);
    assert ns == [Some(Coord(3, 0)), Some(Coord(1, 0))];
    assert Candidate(b, mid, ns[0]);
    assert MatchInLine(b, Coord(3, 0), Some(mid));
  }

  /** A flood step on the row moves one cell left or right. */
  lemma FullRowStep(kind: int, c: Coord, n: Coord)
    requires InBounds(FullRow(kind), c)
    ensures Edge(FullRow(kind), c, n) ==> InBounds(FullRow(kind), n) && n.y == 0 && (n.x == c.x + 1 || n.x == c.x - 1)
  {
    CardinalMember(FullRow(kind), c, n);
  }

  /** Each cell of the row steps on outwards from the middle. */
  lemma FullRowOutwardEdges(kind: int)
    ensures Edge(FullRow(kind), Coord(2, 0), Coord(3, 0)) && Edge(FullRow(kind), Coord(3, 0), Coord(4, 0))
    ensures Edge(FullRow(kind), Coord(2, 0), Coord(1, 0)) && Edge(FullRow(kind), Coord(1, 0), Coord(0, 0))
  {
    RunEdges(FullRow(kind), Coord(2, 0), Coord(3, 0), Coord(4, 0));
    RunEdges(FullRow(kind), Coord(2, 0), Coord(1, 0), Coord(0, 0));
  }

  /** The middle's flood steps go only to its two neighbours. */
  lemma FullRowMiddleEdges(kind: int)
    ensures forall n :: Edge(FullRow(kind), Coord(2, 0), n) ==> n == Coord(3, 0) || n == Coord(1, 0)
  {
    forall n | Edge(FullRow(kind), Coord(2, 0), n) ensures n == Coord(3, 0) || n == Coord(1, 0) {
      FullRowStep(kind, Coord(2, 0), n);
    }
  }

  /** A call enumerates the right neighbour before the left one. */
  lemma RightBeforeLeft(c: Coord)
    ensures DirRank(c, Coord(c.x + 1, c.y)) == 2 && DirRank(c, Coord(c.x - 1, c.y)) == 6
  {
  }

  /** Right of the middle, a flood step only moves along the row. */
  lemma FullRowRightEdges(kind: int)
    ensures var b := FullRow(kind);
      && (forall n :: Edge(b, Coord(3, 0), n) ==> n == Coord(2, 0) || n == Coord(4, 0))
      && (forall n :: Edge(b, Coord(4, 0), n) ==> n == Coord(3, 0))
  {
    var b := FullRow(kind);
    forall n | Edge(b, Coord(3, 0), n) ensures n == Coord(2, 0) || n == Coord(4, 0) {
      FullRowStep(kind, Coord(3, 0), n);
    }
    forall n | Edge(b, Coord(4, 0), n) ensures n == Coord(3, 0) {
      FullRowStep(kind, Coord(4, 0), n);
    }
  }

  /** The row of five, named cell by cell, is a `RowOfFiveBoard`. */
  lemma FullRowIsRowOfFive(kind: int, b: Board, ll: Coord, l: Coord, mid: Coord, r: Coord, rr: Coord)
    requires b == FullRow(kind)
    requires ll == Coord(0, 0) && l == Coord(1, 0) && mid == Coord(2, 0) && r == Coord(3, 0) && rr == Coord(4, 0)
    ensures RowOfFiveBoard(b, ll, l, mid, r, rr)
  {
    FullRowCells(kind, b, ll, l, mid, r, rr);
    FullRowMiddleInTriplet(kind, b, mid);
    FullRowRow(kind, b, ll, l, mid, r, rr);
  }

  /** The row of five has no cell off its one row of five. */
  lemma FullRowCells(kind: int, b: Board, ll: Coord, l: Coord, mid: Coord, r: Coord, rr: Coord)
    requires b == FullRow(kind)
    requires ll == Coord(0, 0) && l == Coord(1, 0) && mid == Coord(2, 0) && r == Coord(3, 0) && rr == Coord(4, 0)
    ensures RowCells(b, ll, l, mid, r, rr)
  {
  }

  /** The flood crosses the row of five from its middle outwards. */
  lemma FullRowRow(kind: int, b: Board, ll: Coord, l: Coord, mid: Coord, r: Coord, rr: Coord)
    requires b == FullRow(kind)
    requires ll == Coord(0, 0) && l == Coord(1, 0) && mid == Coord(2, 0) && r == Coord(3, 0) && rr == Coord(4, 0)
    ensures RowOfFive(b, ll, l, mid, r, rr)
  {
    FullRowSteps(kind);
    FullRowOnlySteps(kind);
  }

  /** Every cell of the row of five steps on to the next one outwards. */
  lemma FullRowSteps(kind: int)
    ensures RowSteps(FullRow(kind), Coord(0, 0), Coord(1, 0), Coord(2, 0), Coord(3, 0), Coord(4, 0))
  {
    FullRowOutwardEdges(kind);
  }

  /** From the middle and the right half, no flood step leaves the row. */
  lemma FullRowOnlySteps(kind: int)
    ensures RowOnlySteps(FullRow(kind), Coord(1, 0), Coord(2, 0), Coord(3, 0), Coord(4, 0))
  {
    FullRowMiddleEdges(kind);
    FullRowRightEdges(kind);
  }

  /**
   * A row `ll l mid r rr` as the flood sees it: each cell steps on outwards
   * from `mid`, and from `mid`, `r` and `rr` no step leaves the row.
   */
  ghost predicate RowOfFive(b: Board, ll: Coord, l: Coord, mid: Coord, r: Coord, rr: Coord) {
    RowSteps(b, ll, l, mid, r, rr) && RowOnlySteps(b, l, mid, r, rr)
  }

  ghost predicate RowSteps(b: Board, ll: Coord, l: Coord, mid: Coord, r: Coord, rr: Coord) {
    Edge(b, mid, r) && Edge(b, mid, l) && Edge(b, r, rr) && Edge(b, l, ll)
  }

  ghost predicate RowOnlySteps(b: Board, l: Coord, mid: Coord, r: Coord, rr: Coord) {
    && (forall n :: Edge(b, mid, n) ==> n == r || n == l)
    && (forall n :: Edge(b, r, n) ==> n == mid || n == rr)
    && (forall n :: Edge(b, rr, n) ==> n == r)
  }

  /**
   * A chain started from `mid` on an empty ledger, on a row `ll l mid r rr`
   * whose flood steps go along it: `r` is called first and claims `rr` at
   * order 1; `l` is called second and claims `ll` at order 2.
   */
  lemma RowOfFiveChain(b: Board, claims: map<Coord, Claim>, visits: seq<Call>,
                       ll: Coord, l: Coord, mid: Coord, r: Coord, rr: Coord)
    requires CallsMade(b, map[], claims, mid, mid, 0, visits, true)
    requires Chained(b, claims, mid, visits)
    requires |visits| > 0 ==> LoopLedger(map[], visits[0].before, mid, visits, true)
    requires ChildClaims(claims, mid, 0, visits)
    requires StepsClaimed(b, map[], claims, mid, Claim(mid, 1))
    requires RowOfFive(b, ll, l, mid, r, rr)
    requires r == Coord(mid.x + 1, mid.y) && l == Coord(mid.x - 1, mid.y)
    requires ll != l && ll != mid && ll != r && ll != rr && rr != mid && rr != l
    ensures r in claims && claims[r] == Claim(mid, 1) && l in claims && claims[l] == Claim(mid, 1)
    ensures rr in claims && claims[rr] == Claim(mid, 1)
    ensures ll in claims && claims[ll] == Claim(mid, 2)
  {
    RightBeforeLeft(mid);
    TwoCalls(b, claims, mid, r, l, visits);
    FirstCallClaims(b, claims, mid, visits, rr);
    assert CallKept(b, visits[0], mid);
    RightTrail(b, visits[0].before, visits[0].after, mid, r, rr, visits[0].trail);
    SecondCallClaims(b, claims, mid, visits, ll);
    StepsBothClaimed(b, claims, mid, l, r, Claim(mid, 1));
  }

  /**
   * A call whose only flood steps are `r` and `l`, both unclaimed, `r` before
   * `l` clockwise, makes two recursive calls: `r` first, then `l`.
   */
  lemma TwoCalls(b: Board, claims: map<Coord, Claim>, mid: Coord, r: Coord, l: Coord, visits: seq<Call>)
    requires CallsMade(b, map[], claims, mid, mid, 0, visits, true)
    requires Edge(b, mid, r) && Edge(b, mid, l) && DirRank(mid, r) < DirRank(mid, l)
    requires forall n :: Edge(b, mid, n) ==> n == r || n == l
    ensures |visits| == 2 && visits[0].cell == r && visits[1].cell == l
  {
    assert exists k :: 0 <= k < |visits| && visits[k].cell == r;
    assert exists k :: 0 <= k < |visits| && visits[k].cell == l;
    assert forall k :: 0 <= k < |visits| ==> Edge(b, mid, visits[k].cell);
    OrderedPair(mid, r, l, visits);
  }

  /** Calls to `r` and `l` only, both made, strictly clockwise, `r` first: exactly `r` then `l`. */
  lemma OrderedPair(mid: Coord, r: Coord, l: Coord, visits: seq<Call>)
    requires DirRank(mid, r) < DirRank(mid, l)
    requires forall k :: 0 <= k < |visits| ==> visits[k].cell == r || visits[k].cell == l
    requires exists k :: 0 <= k < |visits| && visits[k].cell == r
    requires exists k :: 0 <= k < |visits| && visits[k].cell == l
    requires forall i, j :: 0 <= i < j < |visits| ==> DirRank(mid, visits[i].cell) < DirRank(mid, visits[j].cell)
    ensures |visits| == 2 && visits[0].cell == r && visits[1].cell == l
  {
    var i :| 0 <= i < |visits| && visits[i].cell == r;
    var j :| 0 <= j < |visits| && visits[j].cell == l;
    assert |visits| >= 2 by {
      assert r != l;
      assert i != j;
    }
    assert visits[0].cell == r && visits[1].cell == l by {
      assert DirRank(mid, visits[0].cell) < DirRank(mid, visits[1].cell);
    }
    // the last call is to `r` or `l`, and no later than the one to `l`
    var last := |visits| - 1;
    assert visits[last].cell == r || visits[last].cell == l;
    assert DirRank(mid, visits[last].cell) <= DirRank(mid, l);
  }

  /**
   * The first recursive call claims its own unclaimed flood step `end`, not
   * claimed by the claiming loop, at `order + 1` with the order 0 it was
   * passed.
   */
  lemma FirstCallClaims(b: Board, claims: map<Coord, Claim>, mid: Coord, visits: seq<Call>, end: Coord)
    requires |visits| > 0 && Chained(b, claims, mid, visits)
    requires LoopLedger(map[], visits[0].before, mid, visits, true)
    requires ChildClaims(claims, mid, 0, visits)
    requires Edge(b, visits[0].cell, end) && end != mid
    requires forall m :: 0 <= m < |visits| ==> visits[m].cell != end
    ensures end in claims && claims[end] == Claim(mid, 1)
  {
    assert end !in visits[0].before;
    assert CallKept(b, visits[0], mid);
    var j :| 0 <= j < |visits[0].calls| && visits[0].calls[j].cell == end;
  }

  /**
   * The second recursive call claims its own flood step `end` at order 2
   * when neither the claiming loop nor the first call's trail took it: it
   * was passed order 1.
   */
  lemma SecondCallClaims(b: Board, claims: map<Coord, Claim>, mid: Coord, visits: seq<Call>, end: Coord)
    requires |visits| == 2 && Chained(b, claims, mid, visits)
    requires LoopLedger(map[], visits[0].before, mid, visits, true)
    requires ChildClaims(claims, mid, 0, visits)
    requires Edge(b, visits[1].cell, end) && end != mid
    requires forall m :: 0 <= m < |visits| ==> visits[m].cell != end
    requires end !in visits[0].trail
    ensures end in claims && claims[end] == Claim(mid, 2)
  {
    assert end !in visits[0].before;
    assert CallKept(b, visits[0], mid) && CallKept(b, visits[1], mid);
    assert end !in visits[1].before;
    var j :| 0 <= j < |visits[1].calls| && visits[1].calls[j].cell == end;
  }

  /** From `r`, with `mid` and `r` already claimed, a trail whose steps stay on the row can only reach `rr`. */
  lemma RightTrail(b: Board, before: map<Coord, Claim>, after: map<Coord, Claim>, mid: Coord, r: Coord, rr: Coord,
                   trail: seq<Coord>)
    requires mid in before && r in before
    requires forall n :: Edge(b, r, n) ==> n == mid || n == rr
    requires forall n :: Edge(b, rr, n) ==> n == r
    requires Reached(b, before, after, r, trail)
    ensures forall i :: 0 <= i < |trail| ==> trail[i] == rr
  {
    forall i | 0 <= i < |trail| ensures trail[i] == rr {
      RightTrailAt(b, before, after, mid, r, rr, trail, i);
    }
  }

  lemma {:induction false} RightTrailAt(b: Board, before: map<Coord, Claim>, after: map<Coord, Claim>,
                                        mid: Coord, r: Coord, rr: Coord, trail: seq<Coord>, i: int)
    requires mid in before && r in before
    requires forall n :: Edge(b, r, n) ==> n == mid || n == rr
    requires forall n :: Edge(b, rr, n) ==> n == r
    requires Reached(b, before, after, r, trail)
    requires 0 <= i < |trail|
    ensures trail[i] == rr
    decreases i
  {
    if !Edge(b, r, trail[i]) {
      var j :| 0 <= j < i && Edge(b, trail[j], trail[i]);
      RightTrailAt(b, before, after, mid, r, rr, trail, j);
      assert false;
    }
  }

  /** A ledger sound for `mid`, on a board of five cells, holding these five claims is exactly them. */
  lemma RowLedger(b: Board, claims: map<Coord, Claim>, ll: Coord, l: Coord, mid: Coord, r: Coord, rr: Coord)
    requires forall c :: InBounds(b, c) ==> c.y == mid.y && ll.x <= c.x <= rr.x
    requires ll == Coord(mid.x - 2, mid.y) && rr == Coord(mid.x + 2, mid.y)
    requires r == Coord(mid.x + 1, mid.y) && l == Coord(mid.x - 1, mid.y)
    requires ClaimsSound(b, map[], claims, mid, mid, 0)
    requires mid in claims && claims[mid] == Claim(mid, 0)
    requires r in claims && claims[r] == Claim(mid, 1) && l in claims && claims[l] == Claim(mid, 1)
    requires rr in claims && claims[rr] == Claim(mid, 1) && ll in claims && claims[ll] == Claim(mid, 2)
    ensures claims == map[mid := Claim(mid, 0), r := Claim(mid, 1), l := Claim(mid, 1),
                          rr := Claim(mid, 1), ll := Claim(mid, 2)]
  {
    assert forall c :: c in claims ==> InBounds(b, c);
  }

  /** A 5x1 row: settled tiles of one kind everywhere but the empty cell (1, 0). */
  function GapRow(kind: int): Board {
    var t := TileInfo(kind, true);
    Board(5, 1, map[Coord(0, 0) := t, Coord(2, 0) := t, Coord(3, 0) := t, Coord(4, 0) := t])
  }

  /**
   * A chain started at the left end of the gap row can never have claimed
   * the three cells past the gap: no trail leads there from its cell,
   * because its only neighbour is empty.
   */
  lemma GapStopsChain(kind: int, trail: seq<Coord>)
    ensures var self := Coord(0, 0);
      !Reached(GapRow(kind), map[],
               map[self := Claim(self, 0), Coord(2, 0) := Claim(self, 1), Coord(3, 0) := Claim(self, 1),
                   Coord(4, 0) := Claim(self, 1)],
               self, trail)
  {
    var b, self := GapRow(kind), Coord(0, 0);
    var after := map[self := Claim(self, 0), Coord(2, 0) := Claim(self, 1), Coord(3, 0) := Claim(self, 1),
                     Coord(4, 0) := Claim(self, 1)];
    if Reached(b, map[], after, self, trail) {
      assert Coord(2, 0) in after;
      // the first cell on the trail would be a flood step from (0, 0)
      NoStepFromGapEnd(kind, trail[0]);
      assert false;
    }
  }

  /** The left end of the gap row has no flood step: its one neighbour is empty. */
  lemma NoStepFromGapEnd(kind: int, n: Coord)
    ensures !Edge(GapRow(kind), Coord(0, 0), n)
  {
    var b := GapRow(kind);
    CardinalMember(b, Coord(0, 0), n);
    if InBounds(b, n) && Manhattan(Coord(0, 0), n) == 1 {
      assert n == Coord(1, 0) && TileAt(b, n).None?;
    }
  }

  /** Only the row holds settled tiles of the middle's kind. */
  lemma BottomRowKind(red: int)
    ensures forall c :: SettledSameKind(BottomRow(red), c, Coord(1, 0)) ==>
      c == Coord(0, 0) || c == Coord(1, 0) || c == Coord(2, 0)
  {
  }
}
