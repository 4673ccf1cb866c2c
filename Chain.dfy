/**
 * Chain claiming: `BuildDestructionLists` flood-fills from a matched cell
 * through cardinal neighbours that match and lie in a line, claiming each
 * cell in the grid's detonation ledger under one chain starter with a wave
 * order; `CheckForTriplet` starts it when `InTriplet` holds.
 */
module Chain {
  import opened Wrappers
  import opened Grid
  import opened Neighbors
  import opened Matching

  /** A detonation claim: the cell that started the chain and the cell's wave order. */
  datatype Claim = Claim(starter: Coord, order: int)

  /**
   * A recursive call as its caller makes it: the cell and the order passed,
   * the ledger just before and just after it, the recursive calls it made in
   * turn, and its trail of claims.
   */
  datatype Call = Call(cell: Coord, order: int, before: map<Coord, Claim>, after: map<Coord, Claim>,
                       calls: seq<Call>, trail: seq<Coord>)

  /**
   * The grid collaborator during one detection pass: the board, which the
   * chain builder never changes, and the detonation ledger.
   */
  class TileGrid {
    const board: Board
    var claims: map<Coord, Claim>

    constructor (board: Board)
      ensures this.board == board && claims == map[]
    {
      this.board := board;
      claims := map[];
    }

    /**
     * `Grid.PrepareToDetonate(cell, order, starter)`. Its code is not part of
     * this model; it is assumed to claim a cell that holds no claim yet and
     * to refuse, changing nothing, a cell that already holds one.
     */
    method PrepareToDetonate(c: Coord, order: int, starter: Coord) returns (ok: bool)
      modifies this
      ensures ok <==> c !in old(claims)
      ensures claims == if ok then old(claims)[c := Claim(starter, order)] else old(claims)
    {
      ok := c !in claims;
      if ok {
        claims := claims[c := Claim(starter, order)];
      }
    }
  }

  /**
   * One flood step: `n` is a cardinal neighbour of `p`, validly matches it,
   * and `p.MatchInLine(n)` holds.
   */
  ghost predicate Edge(b: Board, p: Coord, n: Coord) {
    Some(n) in CardinalNeighbors(b, p) && IsValidMatch(b, n, Some(p)) && MatchInLine(b, p, Some(n))
  }

  /** Every flood step out of `c` leads to a claimed cell. */
  ghost predicate Closed(b: Board, claims: map<Coord, Claim>, c: Coord) {
    forall n :: Edge(b, c, n) ==> n in claims
  }

  /** Claims are only ever added, never changed or dropped. */
  ghost predicate Grows(before: map<Coord, Claim>, after: map<Coord, Claim>) {
    forall c :: c in before ==> c in after && after[c] == before[c]
  }

  /** The starter a call works under: the given one, or the cell itself for a fresh chain. */
  function StarterOf(self: Coord, starter: Option<Coord>): Coord {
    if starter.Some? then starter.value else self
  }

  /** The order a call works at: the given one, or 0 for a fresh chain. */
  function OrderOf(starter: Option<Coord>, order: int): int {
    if starter.Some? then order else 0
  }

  /**
   * The claims added between `before` and `after` by a call for `self`
   * working under `starter` at `order`: each is a cell of the grid claimed
   * under that starter, and each other than `self` holds a settled tile of
   * `self`'s kind and has a wave order past `order`.
   */
  ghost predicate ClaimsSound(b: Board, before: map<Coord, Claim>, after: map<Coord, Claim>,
                              self: Coord, starter: Coord, order: int)
  {
    forall c :: c in after && c !in before ==>
      && InBounds(b, c) && after[c].starter == starter
      && (c != self ==> SettledSameKind(b, c, self) && after[c].order > order)
  }

  /**
   * `trail` lists the cells the claiming loops of a call for `self` and of
   * its recursive calls claimed, in the order they were claimed, each once:
   * every one was unclaimed in `before`, is claimed in `after`, and is a
   * flood step from `self` or from a cell earlier on the trail. Every cell
   * added between `before` and `after` is `self` or on the trail, so a chain
   * claims only what it reaches from its own cell.
   */
  ghost predicate Reached(b: Board, before: map<Coord, Claim>, after: map<Coord, Claim>, self: Coord, trail: seq<Coord>) {
    && (forall i :: 0 <= i < |trail| ==> trail[i] !in before && trail[i] in after)
    && (forall i, j :: 0 <= i < j < |trail| ==> trail[i] != trail[j])
    && Stepped(b, self, trail)
    && (forall c :: c in after && c !in before ==> c == self || c in trail)
  }

  /** Each cell of `trail` is a flood step from `self` or from a cell earlier on it. */
  ghost predicate Stepped(b: Board, self: Coord, trail: seq<Coord>) {
    forall i :: 0 <= i < |trail| ==> Edge(b, self, trail[i]) || exists j :: 0 <= j < i && Edge(b, trail[j], trail[i])
  }

  /** A trail stepped from `child`, appended to one holding `child`, keeps the whole stepped from `self`. */
  lemma SteppedAppend(b: Board, self: Coord, child: Coord, trail: seq<Coord>, sub: seq<Coord>)
    requires Stepped(b, self, trail) && child in trail && Stepped(b, child, sub)
    ensures Stepped(b, self, trail + sub)
  {
    var t := trail + sub;
    var m :| 0 <= m < |trail| && trail[m] == child;
    forall i | 0 <= i < |t| ensures Edge(b, self, t[i]) || exists j :: 0 <= j < i && Edge(b, t[j], t[i]) {
      if i < |trail| {
        if !Edge(b, self, trail[i]) {
          var j :| 0 <= j < i && Edge(b, trail[j], trail[i]);
          assert t[j] == trail[j];
        }
      } else {
        var i' := i - |trail|;
        assert t[i] == sub[i'];
        if Edge(b, child, sub[i']) {
          assert t[m] == child;
        } else {
          var j' :| 0 <= j' < i' && Edge(b, sub[j'], sub[i']);
          assert t[|trail| + j'] == sub[j'];
        }
      }
    }
  }

  /**
   * A recursive call's trail, appended to its parent's, extends the parent's:
   * the child is on the parent's trail, and its own trail starts from it.
   */
  lemma ReachedAppend(b: Board, entry: map<Coord, Claim>, before: map<Coord, Claim>, after: map<Coord, Claim>,
                      self: Coord, child: Coord, trail: seq<Coord>, sub: seq<Coord>)
    requires Grows(entry, before) && Grows(before, after)
    requires Reached(b, entry, before, self, trail) && child in trail
    requires Reached(b, before, after, child, sub)
    ensures Reached(b, entry, after, self, trail + sub)
  {
    var t := trail + sub;
    SteppedAppend(b, self, child, trail, sub);
    forall i, j | 0 <= i < j < |t| ensures t[i] != t[j] {
      if i < |trail| && |trail| <= j {
        assert t[i] in before && t[j] !in before;
      }
    }
  }

  /** Nothing is missed: every flood step out of an added cell leads to a claimed cell. */
  ghost predicate AddedClosed(b: Board, before: map<Coord, Claim>, after: map<Coord, Claim>) {
    forall c :: c in after && c !in before ==> Closed(b, after, c)
  }

  /**
   * The recursive calls a call for `self` makes directly, as (cell, order
   * passed): the k-th goes to the k-th neighbour it claimed, in enumeration
   * order, with `order + k`; each such neighbour was claimed at `order + 1`;
   * and once the call has a chain to work for (`started`) no unclaimed flood
   * step out of `self` is left out.
   */
  ghost predicate CallsMade(b: Board, before: map<Coord, Claim>, after: map<Coord, Claim>,
                            self: Coord, starter: Coord, order: int, visits: seq<Call>, started: bool)
  {
    && (forall k :: 0 <= k < |visits| ==>
          && visits[k].order == order + k
          && visits[k].cell !in before && Edge(b, self, visits[k].cell)
          && visits[k].cell in after && after[visits[k].cell] == Claim(starter, order + 1))
    && (forall i, j :: 0 <= i < j < |visits| ==> DirRank(self, visits[i].cell) < DirRank(self, visits[j].cell))
    && (started ==> forall c :: Edge(b, self, c) && c !in before ==>
          exists k :: 0 <= k < |visits| && visits[k].cell == c)
  }

  /**
   * What the recorded call `v`, working under `starter`, promises about its
   * own stretch of the ledger, and, through the calls it made in turn, what
   * every call below it in the recursion promises about its own.
   */
  ghost predicate CallKept(b: Board, v: Call, starter: Coord)
    decreases v
  {
    && Grows(v.before, v.after)
    && CallsMade(b, v.before, v.after, v.cell, starter, v.order, v.calls, true)
    && Reached(b, v.before, v.after, v.cell, v.trail)
    && InSequence(v.after, v.calls)
    && (|v.calls| > 0 ==> LoopLedger(v.before, v.calls[0].before, v.cell, v.calls, false))
    && ChildClaims(v.after, starter, v.order, v.calls)
    && (forall m :: 0 <= m < |v.calls| ==> CallKept(b, v.calls[m], starter))
  }

  /** The recorded calls ran one after another, each from the ledger the one before it left, the last leaving `final`. */
  ghost predicate InSequence(final: map<Coord, Claim>, visits: seq<Call>) {
    && (|visits| > 0 ==> visits[|visits| - 1].after == final)
    && (forall m :: 0 <= m < |visits| - 1 ==> visits[m].after == visits[m + 1].before)
  }

  /** The recorded calls ran in sequence, the last leaving `final`, and each kept its promises. */
  ghost predicate Chained(b: Board, final: map<Coord, Claim>, starter: Coord, visits: seq<Call>) {
    && InSequence(final, visits)
    && (forall m :: 0 <= m < |visits| ==> CallKept(b, visits[m], starter))
  }

  /**
   * The ledger `ledger` the first recursive call started from: it grew from
   * `before` by `self` (when `started`, a chain started here) and by the cells
   * of the calls, the claims of the claiming loop, and by nothing else.
   */
  ghost predicate LoopLedger(before: map<Coord, Claim>, ledger: map<Coord, Claim>, self: Coord, visits: seq<Call>,
                             started: bool)
  {
    && Grows(before, ledger)
    && (started ==> self in ledger)
    && (forall m :: 0 <= m < |visits| ==> visits[m].cell in ledger)
    && forall c :: c in ledger && c !in before ==> c == self || exists m :: 0 <= m < |visits| && visits[m].cell == c
  }

  /**
   * The cells the m-th recursive call claimed in its own claiming loop hold
   * `order + m + 1` under `starter`: the k-th call is passed `order + k`.
   */
  ghost predicate ChildClaims(claims: map<Coord, Claim>, starter: Coord, order: int, visits: seq<Call>) {
    forall m, j :: 0 <= m < |visits| && 0 <= j < |visits[m].calls| ==>
      visits[m].calls[j].cell in claims && claims[visits[m].calls[j].cell] == Claim(starter, order + m + 1)
  }

  /**
   * `self.BuildDestructionLists(starter, order)`; `grid == null` is a cell
   * with no grid. The ghost results list the recursive calls this call makes
   * directly, as (cell, order passed), and the cells claimed on the way, in
   * claim order.
   */
  method BuildDestructionLists(grid: TileGrid?, self: Coord, starter: Option<Coord>, order: int)
      returns (ghost visits: seq<Call>, ghost trail: seq<Coord>)
    requires grid != null ==> InBounds(grid.board, self)
    modifies grid
    decreases if grid == null then 0 else |AllCells(grid.board) - grid.claims.Keys|, 2
    ensures grid == null ==> visits == [] && trail == []
    ensures grid != null ==> Grows(old(grid.claims), grid.claims)
    // a fresh chain whose starting cell is already claimed changes nothing
    ensures grid != null && starter.None? && self in old(grid.claims) ==>
      grid.claims == old(grid.claims) && visits == []
    // a fresh chain claims its starting cell as starter at order 0
    ensures grid != null && starter.None? && self !in old(grid.claims) ==>
      self in grid.claims && grid.claims[self] == Claim(self, 0)
    ensures grid != null ==>
      ClaimsSound(grid.board, old(grid.claims), grid.claims, self, StarterOf(self, starter), OrderOf(starter, order))
    ensures grid != null ==> Reached(grid.board, old(grid.claims), grid.claims, self, trail)
    ensures grid != null ==> AddedClosed(grid.board, old(grid.claims), grid.claims)
    ensures grid != null && starter.Some? ==> Closed(grid.board, grid.claims, self)
    ensures grid != null ==>
      CallsMade(grid.board, old(grid.claims), grid.claims, self, StarterOf(self, starter), OrderOf(starter, order),
                visits, starter.Some? || self !in old(grid.claims))
    // each recursive call is recorded with the ledger around it
    ensures grid != null ==> Chained(grid.board, grid.claims, StarterOf(self, starter), visits)
    ensures grid != null && |visits| > 0 ==>
      LoopLedger(old(grid.claims), visits[0].before, self, visits, starter.None?)
    // the k-th call's own claims carry order + k + 1
    ensures grid != null ==> ChildClaims(grid.claims, StarterOf(self, starter), OrderOf(starter, order), visits)
  {
    visits, trail := [], [];
    if grid == null {
      return;
    }
    var b := grid.board;
    ghost var entry := grid.claims;
    var s, o := self, 0;
    if starter.None? {
      var ok := grid.PrepareToDetonate(self, 0, self);
      if !ok {
        // a chain holding this cell already exists
        return;
      }
    } else {
      s, o := starter.value, order;
    }
    ghost var mid := grid.claims;
    var recurse := ClaimMatchingNeighbors(grid, self, s, o);
    ghost var claimed := grid.claims;
    StartRecursing(b, entry, mid, claimed, self, s, o, recurse);
    FirstTrail(b, entry, mid, claimed, self, s, o, recurse);
    // recurse into the neighbours claimed here; the k-th gets order + k
    visits, trail := RecurseAll(grid, entry, claimed, self, s, o, recurse);
    FinishRecursing(b, entry, mid, claimed, grid.claims, self, s, o, recurse, visits);
    FirstLedger(b, entry, mid, claimed, self, s, o, recurse, visits, starter.None?);
  }

  /**
   * The loop of `BuildDestructionLists` over the neighbours it claimed: the
   * k-th is recursed into with order `o + k`. The ghost results are the calls
   * made, and the claimed cells followed by every cell the calls reached.
   */
  method RecurseAll(grid: TileGrid, ghost entry: map<Coord, Claim>, ghost claimed: map<Coord, Claim>,
                    self: Coord, s: Coord, o: int, recurse: seq<Coord>)
      returns (ghost visits: seq<Call>, ghost trail: seq<Coord>)
    requires LoopKept(grid.board, entry, claimed, grid.claims, self, s, o, recurse, 0, recurse, [])
    modifies grid
    decreases |AllCells(grid.board) - entry.Keys|, 1
    ensures LoopKept(grid.board, entry, claimed, grid.claims, self, s, o, recurse, |recurse|, trail, visits)
  {
    visits, trail := [], recurse;
    var k := 0;
    var childOrder := o;
    while k < |recurse|
      invariant 0 <= k <= |recurse| && childOrder == o + k
      invariant LoopKept(grid.board, entry, claimed, grid.claims, self, s, o, recurse, k, trail, visits)
    {
      ghost var sub;
      sub, visits := RecurseInto(grid, entry, claimed, self, s, childOrder, o, recurse, k, trail, visits);
      trail := trail + sub;
      childOrder := childOrder + 1;
      k := k + 1;
    }
  }

  /** The first recorded call starts from `ledger`; with none, nothing ran after it. */
  ghost predicate StartsAt(visits: seq<Call>, ledger: map<Coord, Claim>, cur: map<Coord, Claim>) {
    (|visits| == 0 ==> cur == ledger) && (|visits| > 0 ==> visits[0].before == ledger)
  }

  lemma FirstLedger(b: Board, entry: map<Coord, Claim>, mid: map<Coord, Claim>, claimed: map<Coord, Claim>,
                    self: Coord, s: Coord, o: int, recurse: seq<Coord>, visits: seq<Call>, started: bool)
    requires RootClaim(entry, mid, self, s, o) && (started ==> self in mid)
    requires ClaimedAround(b, mid, claimed, self, s, o, recurse)
    requires CalledInOrder(visits, recurse, o, |recurse|)
    ensures LoopLedger(entry, claimed, self, visits, started)
  {
    forall c | c in claimed && c !in entry ensures c == self || exists m :: 0 <= m < |visits| && visits[m].cell == c {
      if c !in mid {
        var m :| 0 <= m < |recurse| && recurse[m] == c;
        assert visits[m].cell == c;
      }
    }
  }

  lemma ChainOneMore(b: Board, cur: map<Coord, Claim>, s: Coord, visits: seq<Call>, v: Call)
    requires Chained(b, cur, s, visits) && (|visits| > 0 ==> v.before == cur) && CallKept(b, v, s)
    ensures Chained(b, v.after, s, visits + [v])
  {
    var w := visits + [v];
    forall m | 0 <= m < |w| - 1 ensures w[m].after == w[m + 1].before {
      assert w[m] == visits[m];
    }
    KeptOneMore(b, s, visits, v);
  }

  lemma KeptOneMore(b: Board, s: Coord, visits: seq<Call>, v: Call)
    requires forall m :: 0 <= m < |visits| ==> CallKept(b, visits[m], s)
    requires CallKept(b, v, s)
    ensures forall m :: 0 <= m < |visits + [v]| ==> CallKept(b, (visits + [v])[m], s)
  {
    var w := visits + [v];
    forall m | 0 <= m < |w| ensures CallKept(b, w[m], s) {
      if m < |visits| {
        assert w[m] == visits[m];
      }
    }
  }

  lemma ChildClaimsOneMore(b: Board, before: map<Coord, Claim>, after: map<Coord, Claim>, s: Coord, o: int,
                           visits: seq<Call>, v: Call)
    requires ChildClaims(before, s, o, visits) && Grows(before, after) && after == v.after
    requires CallsMade(b, v.before, v.after, v.cell, s, v.order, v.calls, true) && v.order == o + |visits|
    ensures ChildClaims(after, s, o, visits + [v])
  {
    var w := visits + [v];
    forall m, j | 0 <= m < |w| && 0 <= j < |w[m].calls|
      ensures w[m].calls[j].cell in after && after[w[m].calls[j].cell] == Claim(s, o + m + 1)
    {
      if m < |visits| {
        assert w[m] == visits[m];
        assert visits[m].calls[j].cell in before;
      }
    }
  }

  /** The claims a call holds on entry to its claiming loop: those it found, plus its own root claim when it starts a chain. */
  ghost predicate RootClaim(entry: map<Coord, Claim>, mid: map<Coord, Claim>, self: Coord, s: Coord, o: int) {
    mid == entry || (self !in entry && mid == entry[self := Claim(s, o)])
  }

  /** `visits` records the first `n` recursive calls: the m-th went to `recurse[m]` with `o + m`. */
  ghost predicate CalledInOrder(visits: seq<Call>, recurse: seq<Coord>, o: int, n: int) {
    |visits| == n <= |recurse| && forall m :: 0 <= m < n ==> visits[m].cell == recurse[m] && visits[m].order == o + m
  }

  lemma CalledOneMore(visits: seq<Call>, recurse: seq<Coord>, o: int, k: int, v: Call)
    requires CalledInOrder(visits, recurse, o, k) && k < |recurse| && v.cell == recurse[k] && v.order == o + k
    ensures CalledInOrder(visits + [v], recurse, o, k + 1)
  {
  }

  /** The cells the claiming loop claimed start the trail. */
  lemma FirstTrail(b: Board, entry: map<Coord, Claim>, mid: map<Coord, Claim>, claimed: map<Coord, Claim>,
                   self: Coord, s: Coord, o: int, recurse: seq<Coord>)
    requires RootClaim(entry, mid, self, s, o)
    requires ClaimedAround(b, mid, claimed, self, s, o, recurse)
    ensures Reached(b, entry, claimed, self, recurse)
  {
    forall i, j | 0 <= i < j < |recurse| ensures recurse[i] != recurse[j] {
      assert DirRank(self, recurse[i]) < DirRank(self, recurse[j]);
    }
  }

  /**
   * The k-th recursive call of `BuildDestructionLists`, for the k-th
   * neighbour it claimed. The ghost results are the trail of that call and
   * the record of calls made so far, extended by this one.
   */
  method RecurseInto(grid: TileGrid, ghost entry: map<Coord, Claim>, ghost claimed: map<Coord, Claim>,
                     self: Coord, s: Coord, childOrder: int, ghost o: int, recurse: seq<Coord>, k: int,
                     ghost trail: seq<Coord>, ghost visits: seq<Call>)
      returns (ghost sub: seq<Coord>, ghost visits': seq<Call>)
    requires LoopKept(grid.board, entry, claimed, grid.claims, self, s, o, recurse, k, trail, visits) && k < |recurse|
    requires childOrder == o + k
    modifies grid
    decreases |AllCells(grid.board) - entry.Keys|, 0
    ensures LoopKept(grid.board, entry, claimed, grid.claims, self, s, o, recurse, k + 1, trail + sub, visits')
  {
    FewerUnclaimed(grid.board, entry, grid.claims, recurse[k]);
    ghost var v := Descend(grid, recurse[k], s, childOrder);
    sub, visits' := v.trail, visits + [v];
    RecordCall(grid.board, entry, claimed, self, s, o, recurse, k, trail, visits, v);
  }

  /** What a recursive call of `BuildDestructionLists` under `s` promises, as recorded in `v`. */
  ghost predicate Returned(b: Board, v: Call, s: Coord) {
    && Grows(v.before, v.after)
    && ClaimsSound(b, v.before, v.after, v.cell, s, v.order)
    && Reached(b, v.before, v.after, v.cell, v.trail)
    && AddedClosed(b, v.before, v.after) && Closed(b, v.after, v.cell)
    && CallsMade(b, v.before, v.after, v.cell, s, v.order, v.calls, true)
    && Chained(b, v.after, s, v.calls)
    && (|v.calls| > 0 ==> LoopLedger(v.before, v.calls[0].before, v.cell, v.calls, false))
    && ChildClaims(v.after, s, v.order, v.calls)
  }

  /** A returned call keeps, as a record, the promises of the whole recursion below it. */
  lemma ReturnedKept(b: Board, v: Call, s: Coord)
    requires Returned(b, v, s)
    ensures CallKept(b, v, s)
  {
  }

  /** `cell.BuildDestructionLists(s, order)`, recorded as a call. */
  method Descend(grid: TileGrid, cell: Coord, s: Coord, order: int) returns (ghost v: Call)
    requires InBounds(grid.board, cell)
    modifies grid
    decreases |AllCells(grid.board) - grid.claims.Keys|, 3
    ensures v.cell == cell && v.order == order && v.before == old(grid.claims) && v.after == grid.claims
    ensures Returned(grid.board, v, s)
  {
    ghost var before := grid.claims;
    var cv, t := BuildDestructionLists(grid, cell, Some(s), order);
    v := Call(cell, order, before, grid.claims, cv, t);
  }

  /** What `RecurseInto` keeps, from what its recursive call `v` promised. */
  lemma RecordCall(b: Board, entry: map<Coord, Claim>, claimed: map<Coord, Claim>,
                   self: Coord, s: Coord, o: int, recurse: seq<Coord>, k: int, trail: seq<Coord>,
                   visits: seq<Call>, v: Call)
    requires LoopKept(b, entry, claimed, v.before, self, s, o, recurse, k, trail, visits) && k < |recurse|
    requires v.cell == recurse[k] && v.order == o + k && Returned(b, v, s)
    ensures LoopKept(b, entry, claimed, v.after, self, s, o, recurse, k + 1, trail + v.trail, visits + [v])
  {
    ReturnedKept(b, v, s);
    RecordVisit(b, claimed, s, o, recurse, k, visits, v);
    RecordReach(b, entry, claimed, self, s, o, recurse, k, trail, v);
  }

  /** The k-th call, passed `o + k`, extends the record of the calls made. */
  lemma RecordVisit(b: Board, claimed: map<Coord, Claim>, s: Coord, o: int, recurse: seq<Coord>, k: int,
                    visits: seq<Call>, v: Call)
    requires CalledInOrder(visits, recurse, o, k) && k < |recurse|
    requires StartsAt(visits, claimed, v.before) && Chained(b, v.before, s, visits)
    requires ChildClaims(v.before, s, o, visits)
    requires v.cell == recurse[k] && v.order == o + k && CallKept(b, v, s)
    ensures CalledInOrder(visits + [v], recurse, o, k + 1)
    ensures StartsAt(visits + [v], claimed, v.after) && Chained(b, v.after, s, visits + [v])
    ensures ChildClaims(v.after, s, o, visits + [v])
  {
    CalledOneMore(visits, recurse, o, k, v);
    ChainOneMore(b, v.before, s, visits, v);
    ChildClaimsOneMore(b, v.before, v.after, s, o, visits, v);
  }

  /** The k-th call keeps the loop's ledger invariant and extends the trail. */
  lemma RecordReach(b: Board, entry: map<Coord, Claim>, claimed: map<Coord, Claim>,
                    self: Coord, s: Coord, o: int, recurse: seq<Coord>, k: int, trail: seq<Coord>, v: Call)
    requires Recursing(b, entry, claimed, v.before, self, s, o, recurse, k) && k < |recurse|
    requires Reached(b, entry, v.before, self, trail)
    requires forall m :: 0 <= m < |recurse| ==> recurse[m] in trail
    requires v.cell == recurse[k] && v.order == o + k && Returned(b, v, s)
    ensures Recursing(b, entry, claimed, v.after, self, s, o, recurse, k + 1)
    ensures Reached(b, entry, v.after, self, trail + v.trail)
    ensures forall m :: 0 <= m < |recurse| ==> recurse[m] in trail + v.trail
  {
    RecurseStep(b, entry, claimed, v.before, v.after, self, s, o, recurse, k);
    ReachedAppend(b, entry, v.before, v.after, self, recurse[k], trail, v.trail);
    assert forall m :: 0 <= m < |recurse| ==> recurse[m] in trail + v.trail;
  }

  /** The state `BuildDestructionLists` keeps across its recursive calls, after `k` of them. */
  ghost predicate LoopKept(b: Board, entry: map<Coord, Claim>, claimed: map<Coord, Claim>, cur: map<Coord, Claim>,
                           self: Coord, s: Coord, o: int, recurse: seq<Coord>, k: int,
                           trail: seq<Coord>, visits: seq<Call>)
  {
    && Recursing(b, entry, claimed, cur, self, s, o, recurse, k)
    && CalledInOrder(visits, recurse, o, k)
    && StartsAt(visits, claimed, cur) && Chained(b, cur, s, visits)
    && ChildClaims(cur, s, o, visits)
    && Reached(b, entry, cur, self, trail)
    && (forall m :: 0 <= m < |recurse| ==> recurse[m] in trail)
  }

  /** The state of `BuildDestructionLists` after `k` of its recursive calls. */
  ghost predicate Recursing(b: Board, entry: map<Coord, Claim>, claimed: map<Coord, Claim>, cur: map<Coord, Claim>,
                            self: Coord, s: Coord, o: int, recurse: seq<Coord>, k: int)
  {
    && 0 <= k <= |recurse|
    && Grows(entry, claimed) && Grows(claimed, cur)
    && (forall m :: 0 <= m < |recurse| ==>
          recurse[m] in claimed && recurse[m] !in entry && recurse[m] != self && InBounds(b, recurse[m]))
    && ClaimsSound(b, entry, cur, self, s, o)
    && AddedClosed(b, claimed, cur)
    && (forall m :: 0 <= m < k ==> Closed(b, cur, recurse[m]))
    && Closed(b, cur, self)
  }

  lemma ClosedGrows(b: Board, x: map<Coord, Claim>, y: map<Coord, Claim>, c: Coord)
    requires Closed(b, x, c) && Grows(x, y)
    ensures Closed(b, y, c)
  {
  }

  /** Claiming one more cell of the grid leaves fewer unclaimed cells: the recursion's measure. */
  lemma FewerUnclaimed(b: Board, entry: map<Coord, Claim>, cur: map<Coord, Claim>, c: Coord)
    requires Grows(entry, cur) && c in cur && c !in entry && InBounds(b, c)
    ensures |AllCells(b) - cur.Keys| < |AllCells(b) - entry.Keys|
  {
    var all := AllCells(b);
    var left, was := all - cur.Keys, all - entry.Keys;
    assert c in was;
    assert left <= was - {c};
    assert |was - {c}| == |was| - 1;
    SubsetSize(left, was - {c});
  }

  lemma {:induction false} SubsetSize<T>(x: set<T>, y: set<T>)
    requires x <= y
    ensures |x| <= |y|
    decreases y
  {
    if x != {} {
      var e :| e in x;
      SubsetSize(x - {e}, y - {e});
    }
  }

  lemma StartRecursing(b: Board, entry: map<Coord, Claim>, mid: map<Coord, Claim>, claimed: map<Coord, Claim>,
                       self: Coord, s: Coord, o: int, recurse: seq<Coord>)
    requires InBounds(b, self)
    requires RootClaim(entry, mid, self, s, o)
    requires ClaimedAround(b, mid, claimed, self, s, o, recurse)
    ensures Recursing(b, entry, claimed, claimed, self, s, o, recurse, 0)
  {
    forall c | c in claimed && c !in entry
      ensures && InBounds(b, c) && claimed[c].starter == s
              && (c != self ==> SettledSameKind(b, c, self) && claimed[c].order > o)
    {
      if c != self || c !in mid {
        var m :| 0 <= m < |recurse| && recurse[m] == c;
        assert Edge(b, self, c);
      }
    }
  }

  lemma RecurseStep(b: Board, entry: map<Coord, Claim>, claimed: map<Coord, Claim>,
                    before: map<Coord, Claim>, after: map<Coord, Claim>,
                    self: Coord, s: Coord, o: int, recurse: seq<Coord>, k: int)
    requires Recursing(b, entry, claimed, before, self, s, o, recurse, k) && k < |recurse|
    requires Grows(before, after)
    requires ClaimsSound(b, before, after, recurse[k], s, o + k)
    requires AddedClosed(b, before, after) && Closed(b, after, recurse[k])
    ensures Recursing(b, entry, claimed, after, self, s, o, recurse, k + 1)
  {
    var child := recurse[k];
    assert SettledSameKind(b, child, self) by {
      assert child in before && child !in entry;
    }
    SoundAfterChild(b, entry, before, after, self, child, s, o, k);
    ClosedAfterChild(b, claimed, before, after, self, recurse, k);
  }

  /** The cells a child call claims are sound for the parent: reached from the child, which the parent claimed. */
  lemma SoundAfterChild(b: Board, entry: map<Coord, Claim>, before: map<Coord, Claim>, after: map<Coord, Claim>,
                        self: Coord, child: Coord, s: Coord, o: int, k: int)
    requires Grows(entry, before) && Grows(before, after) && 0 <= k
    requires ClaimsSound(b, entry, before, self, s, o)
    requires child in before && child !in entry && child != self && SettledSameKind(b, child, self)
    requires ClaimsSound(b, before, after, child, s, o + k)
    ensures ClaimsSound(b, entry, after, self, s, o)
  {
    forall c | c in after && c !in entry
      ensures && InBounds(b, c) && after[c].starter == s
              && (c != self ==> SettledSameKind(b, c, self) && after[c].order > o)
    {
    }
  }

  /** Closedness survives a child call, and the child itself is now closed. */
  lemma ClosedAfterChild(b: Board, claimed: map<Coord, Claim>, before: map<Coord, Claim>, after: map<Coord, Claim>,
                         self: Coord, recurse: seq<Coord>, k: int)
    requires 0 <= k < |recurse| && Grows(before, after)
    requires AddedClosed(b, claimed, before) && AddedClosed(b, before, after)
    requires forall m :: 0 <= m < k ==> Closed(b, before, recurse[m])
    requires Closed(b, before, self) && Closed(b, after, recurse[k])
    ensures AddedClosed(b, claimed, after)
    ensures forall m :: 0 <= m < k + 1 ==> Closed(b, after, recurse[m])
    ensures Closed(b, after, self)
  {
    forall c | c in after && c !in claimed ensures Closed(b, after, c) {
      if c in before {
        ClosedGrows(b, before, after, c);
      }
    }
    forall m | 0 <= m < k ensures Closed(b, after, recurse[m]) {
      ClosedGrows(b, before, after, recurse[m]);
    }
    ClosedGrows(b, before, after, self);
  }

  lemma FinishRecursing(b: Board, entry: map<Coord, Claim>, mid: map<Coord, Claim>, claimed: map<Coord, Claim>,
                        cur: map<Coord, Claim>, self: Coord, s: Coord, o: int, recurse: seq<Coord>,
                        visits: seq<Call>)
    requires Recursing(b, entry, claimed, cur, self, s, o, recurse, |recurse|)
    requires RootClaim(entry, mid, self, s, o)
    requires ClaimedAround(b, mid, claimed, self, s, o, recurse)
    requires CalledInOrder(visits, recurse, o, |recurse|)
    ensures Grows(entry, cur)
    ensures AddedClosed(b, entry, cur)
    ensures CallsMade(b, entry, cur, self, s, o, visits, true)
  {
    forall c | c in cur && c !in entry ensures Closed(b, cur, c) {
      if c in claimed && c != self {
        var m :| 0 <= m < |recurse| && recurse[m] == c;
      }
    }
    FinishCalls(b, entry, mid, claimed, cur, self, s, o, recurse, visits);
  }

  /** A cell is never among its own cardinal neighbours. */
  lemma NotOwnNeighbor(b: Board, c: Coord)
    ensures Some(c) !in CardinalNeighbors(b, c)
  {
    CardinalPieces(b, c);
  }

  lemma FinishCalls(b: Board, entry: map<Coord, Claim>, mid: map<Coord, Claim>, claimed: map<Coord, Claim>,
                    cur: map<Coord, Claim>, self: Coord, s: Coord, o: int, recurse: seq<Coord>,
                    visits: seq<Call>)
    requires Grows(entry, claimed) && Grows(claimed, cur)
    requires RootClaim(entry, mid, self, s, o)
    requires ClaimedAround(b, mid, claimed, self, s, o, recurse)
    requires CalledInOrder(visits, recurse, o, |recurse|)
    ensures CallsMade(b, entry, cur, self, s, o, visits, true)
  {
    CallsClaimed(b, entry, mid, claimed, cur, self, s, o, recurse, visits);
    CallsOrdered(self, recurse, o, visits);
    CallsCover(b, entry, mid, claimed, self, s, o, recurse, visits);
  }

  lemma CallsClaimed(b: Board, entry: map<Coord, Claim>, mid: map<Coord, Claim>, claimed: map<Coord, Claim>,
                     cur: map<Coord, Claim>, self: Coord, s: Coord, o: int, recurse: seq<Coord>,
                     visits: seq<Call>)
    requires Grows(entry, claimed) && Grows(claimed, cur)
    requires RootClaim(entry, mid, self, s, o)
    requires ClaimedAround(b, mid, claimed, self, s, o, recurse)
    requires CalledInOrder(visits, recurse, o, |recurse|)
    ensures forall k :: 0 <= k < |visits| ==>
      && visits[k].order == o + k
      && visits[k].cell !in entry && Edge(b, self, visits[k].cell)
      && visits[k].cell in cur && cur[visits[k].cell] == Claim(s, o + 1)
  {
    forall k | 0 <= k < |visits|
      ensures && visits[k].order == o + k
              && visits[k].cell !in entry && Edge(b, self, visits[k].cell)
              && visits[k].cell in cur && cur[visits[k].cell] == Claim(s, o + 1)
    {
      assert visits[k].cell == recurse[k] && visits[k].order == o + k;
      assert recurse[k] !in mid && recurse[k] in claimed;
    }
  }

  lemma CallsOrdered(self: Coord, recurse: seq<Coord>, o: int, visits: seq<Call>)
    requires forall k, m :: 0 <= k < m < |recurse| ==> DirRank(self, recurse[k]) < DirRank(self, recurse[m])
    requires CalledInOrder(visits, recurse, o, |recurse|)
    ensures forall i, j :: 0 <= i < j < |visits| ==> DirRank(self, visits[i].cell) < DirRank(self, visits[j].cell)
  {
    forall i, j | 0 <= i < j < |visits| ensures DirRank(self, visits[i].cell) < DirRank(self, visits[j].cell) {
      assert visits[i].cell == recurse[i] && visits[j].cell == recurse[j];
    }
  }

  lemma CallsCover(b: Board, entry: map<Coord, Claim>, mid: map<Coord, Claim>, claimed: map<Coord, Claim>,
                   self: Coord, s: Coord, o: int, recurse: seq<Coord>, visits: seq<Call>)
    requires RootClaim(entry, mid, self, s, o)
    requires ClaimedAround(b, mid, claimed, self, s, o, recurse)
    requires CalledInOrder(visits, recurse, o, |recurse|)
    ensures forall c :: Edge(b, self, c) && c !in entry ==> exists k :: 0 <= k < |visits| && visits[k].cell == c
  {
    forall c | Edge(b, self, c) && c !in entry ensures exists m :: 0 <= m < |visits| && visits[m].cell == c {
      NotOwnNeighbor(b, self);
      var m :| 0 <= m < |recurse| && recurse[m] == c;
      assert visits[m].cell == c;
    }
  }

  /**
   * The claiming loop of `BuildDestructionLists`: claims, at `order + 1`
   * under `starter`, each cardinal neighbour of `self` that validly matches
   * it and is in line with it, and returns those whose claim succeeded, in
   * enumeration order.
   */
  method ClaimMatchingNeighbors(grid: TileGrid, self: Coord, starter: Coord, order: int)
      returns (recurse: seq<Coord>)
    requires InBounds(grid.board, self)
    modifies grid
    ensures ClaimedAround(grid.board, old(grid.claims), grid.claims, self, starter, order, recurse)
  {
    var b := grid.board;
    var ns := CardinalNeighbors(b, self);
    recurse := [];
    ghost var at: seq<int> := [];  // where in `ns` each entry of `recurse` was found
    var i := 0;
    while i < |ns|
      invariant Claiming(b, self, starter, order, ns, old(grid.claims), grid.claims, recurse, at, i)
    {
      var neighbor := ns[i];
      ghost var before := grid.claims;
      if neighbor.Some? && IsValidMatch(b, neighbor.value, Some(self)) && MatchInLine(b, self, neighbor) {
        var ok := grid.PrepareToDetonate(neighbor.value, order + 1, starter);
        if ok {
          ClaimAdded(b, self, starter, order, ns, old(grid.claims), before, recurse, at, i);
          recurse, at := recurse + [neighbor.value], at + [i];
        } else {
          ClaimSkipped(b, self, starter, order, ns, old(grid.claims), before, recurse, at, i);
        }
      } else {
        ClaimSkipped(b, self, starter, order, ns, old(grid.claims), before, recurse, at, i);
      }
      i := i + 1;
    }
    ClaimingDone(b, self, starter, order, ns, old(grid.claims), grid.claims, recurse, at);
  }

  /**
   * What the claiming loop leaves behind between `before` and `after`: the
   * cells it claimed are exactly `recurse`, each a flood step out of `self`
   * not claimed before and now claimed under `starter` at `order + 1`, in
   * enumeration order; `self` is closed, and no unclaimed flood step out of
   * `self` was skipped.
   */
  ghost predicate ClaimedAround(b: Board, before: map<Coord, Claim>, after: map<Coord, Claim>,
                                self: Coord, starter: Coord, order: int, recurse: seq<Coord>)
  {
    && Grows(before, after)
    && (forall c :: c in after && c !in before ==> c in recurse)
    && (forall k :: 0 <= k < |recurse| ==>
          && recurse[k] !in before && recurse[k] in after && after[recurse[k]] == Claim(starter, order + 1)
          && Edge(b, self, recurse[k]) && InBounds(b, recurse[k]))
    && (forall k, m :: 0 <= k < m < |recurse| ==> DirRank(self, recurse[k]) < DirRank(self, recurse[m]))
    && Closed(b, after, self)
    && (forall c :: Edge(b, self, c) && c !in before ==> c in recurse)
  }

  /** The state of `ClaimMatchingNeighbors` after the first `i` neighbours in `ns`. */
  ghost predicate Claiming(b: Board, self: Coord, starter: Coord, order: int, ns: seq<Option<Coord>>,
                           entry: map<Coord, Claim>, cur: map<Coord, Claim>, recurse: seq<Coord>, at: seq<int>, i: int)
  {
    && 0 <= i <= |ns|
    && Grows(entry, cur)
    && (forall c :: c in cur && c !in entry ==> c in recurse)
    && (forall k :: 0 <= k < |recurse| ==>
          && recurse[k] !in entry && recurse[k] in cur && cur[recurse[k]] == Claim(starter, order + 1)
          && Edge(b, self, recurse[k]) && InBounds(b, recurse[k]))
    && |at| == |recurse|
    && (forall k :: 0 <= k < |recurse| ==> 0 <= at[k] < i && ns[at[k]] == Some(recurse[k]))
    && (forall k, m :: 0 <= k < m < |recurse| ==> DirRank(self, recurse[k]) < DirRank(self, recurse[m]))
    && (forall j :: 0 <= j < i && ns[j].Some? && Edge(b, self, ns[j].value) ==>
          ns[j].value in cur && (ns[j].value !in entry ==> ns[j].value in recurse))
  }

  lemma ClaimAdded(b: Board, self: Coord, starter: Coord, order: int, ns: seq<Option<Coord>>,
                   entry: map<Coord, Claim>, cur: map<Coord, Claim>, recurse: seq<Coord>, at: seq<int>, i: int)
    requires InBounds(b, self) && ns == CardinalNeighbors(b, self)
    requires Claiming(b, self, starter, order, ns, entry, cur, recurse, at, i) && i < |ns|
    requires ns[i].Some? && IsValidMatch(b, ns[i].value, Some(self)) && MatchInLine(b, self, ns[i])
    requires ns[i].value !in cur
    ensures Claiming(b, self, starter, order, ns, entry, cur[ns[i].value := Claim(starter, order + 1)],
                     recurse + [ns[i].value], at + [i], i + 1)
  {
    var v := ns[i].value;
    var cur', recurse', at' := cur[v := Claim(starter, order + 1)], recurse + [v], at + [i];
    assert Some(v) in ns;
    CardinalMember(b, self, v);
    assert Edge(b, self, v) && InBounds(b, v);
    assert Grows(entry, cur');
    ClaimedAppend(b, self, Claim(starter, order + 1), ns, entry, cur, recurse, at, i);
    CardinalClockwise(b, self);
    RanksAppend(self, ns, recurse, at, i);
    forall j | 0 <= j < i + 1 && ns[j].Some? && Edge(b, self, ns[j].value)
      ensures ns[j].value in cur' && (ns[j].value !in entry ==> ns[j].value in recurse')
    {
    }
  }

  /** Claiming the cell at position `i` extends the list of claimed neighbours by that cell. */
  lemma ClaimedAppend(b: Board, self: Coord, claim: Claim, ns: seq<Option<Coord>>,
                      entry: map<Coord, Claim>, cur: map<Coord, Claim>, recurse: seq<Coord>, at: seq<int>, i: int)
    requires 0 <= i < |ns| && ns[i].Some? && ns[i].value !in cur && Grows(entry, cur) && |at| == |recurse|
    requires Edge(b, self, ns[i].value) && InBounds(b, ns[i].value)
    requires forall k :: 0 <= k < |recurse| ==>
      && recurse[k] !in entry && recurse[k] in cur && cur[recurse[k]] == claim
      && Edge(b, self, recurse[k]) && InBounds(b, recurse[k])
      && 0 <= at[k] < i && ns[at[k]] == Some(recurse[k])
    ensures var cur', recurse', at' := cur[ns[i].value := claim], recurse + [ns[i].value], at + [i];
      forall k :: 0 <= k < |recurse'| ==>
        && recurse'[k] !in entry && recurse'[k] in cur' && cur'[recurse'[k]] == claim
        && Edge(b, self, recurse'[k]) && InBounds(b, recurse'[k])
        && 0 <= at'[k] < i + 1 && ns[at'[k]] == Some(recurse'[k])
  {
    var cur', recurse', at' := cur[ns[i].value := claim], recurse + [ns[i].value], at + [i];
    forall k | 0 <= k < |recurse'|
      ensures && recurse'[k] !in entry && recurse'[k] in cur' && cur'[recurse'[k]] == claim
              && Edge(b, self, recurse'[k]) && InBounds(b, recurse'[k])
              && 0 <= at'[k] < i + 1 && ns[at'[k]] == Some(recurse'[k])
    {
      if k < |recurse| {
        assert recurse'[k] == recurse[k] && at'[k] == at[k];
      }
    }
  }

  /** Taking the entry at position `i` after entries taken at earlier positions keeps a clockwise list clockwise. */
  lemma RanksAppend(self: Coord, ns: seq<Option<Coord>>, recurse: seq<Coord>, at: seq<int>, i: int)
    requires Clockwise(self, ns) && 0 <= i < |ns| && ns[i].Some? && |at| == |recurse|
    requires forall k :: 0 <= k < |recurse| ==> 0 <= at[k] < i && ns[at[k]] == Some(recurse[k])
    requires forall k, m :: 0 <= k < m < |recurse| ==> DirRank(self, recurse[k]) < DirRank(self, recurse[m])
    ensures var r := recurse + [ns[i].value];
      forall k, m :: 0 <= k < m < |r| ==> DirRank(self, r[k]) < DirRank(self, r[m])
  {
    var r := recurse + [ns[i].value];
    forall k, m | 0 <= k < m < |r| ensures DirRank(self, r[k]) < DirRank(self, r[m]) {
      if m == |recurse| {
        assert ns[at[k]] == Some(recurse[k]);
      }
    }
  }

  lemma ClaimSkipped(b: Board, self: Coord, starter: Coord, order: int, ns: seq<Option<Coord>>,
                     entry: map<Coord, Claim>, cur: map<Coord, Claim>, recurse: seq<Coord>, at: seq<int>, i: int)
    requires Claiming(b, self, starter, order, ns, entry, cur, recurse, at, i) && i < |ns|
    requires ns[i].Some? && IsValidMatch(b, ns[i].value, Some(self)) && MatchInLine(b, self, ns[i]) ==>
      ns[i].value in cur
    ensures Claiming(b, self, starter, order, ns, entry, cur, recurse, at, i + 1)
  {
  }

  lemma ClaimingDone(b: Board, self: Coord, starter: Coord, order: int, ns: seq<Option<Coord>>,
                     entry: map<Coord, Claim>, cur: map<Coord, Claim>, recurse: seq<Coord>, at: seq<int>)
    requires ns == CardinalNeighbors(b, self)
    requires Claiming(b, self, starter, order, ns, entry, cur, recurse, at, |ns|)
    ensures ClaimedAround(b, entry, cur, self, starter, order, recurse)
  {
    forall n | Edge(b, self, n) ensures n in cur && (n !in entry ==> n in recurse) {
      var j :| 0 <= j < |ns| && ns[j] == Some(n);
    }
  }

  /**
   * `self.CheckForTriplet()`: when the cell is found in a run of three, a
   * fresh chain is started from it (order 0, no starter). The ghost results
   * are the chain's recursive calls and its trail.
   */
  method CheckForTriplet(grid: TileGrid, self: Coord) returns (ghost visits: seq<Call>, ghost trail: seq<Coord>)
    requires InBounds(grid.board, self)
    modifies grid
    ensures !FirstCandidateInLine(grid.board, self) ==> grid.claims == old(grid.claims)
    // checking a cell that already belongs to a chain changes nothing
    ensures self in old(grid.claims) ==> grid.claims == old(grid.claims)
    ensures Grows(old(grid.claims), grid.claims)
    ensures FirstCandidateInLine(grid.board, self) && self !in old(grid.claims) ==>
      self in grid.claims && grid.claims[self] == Claim(self, 0)
    // its unclaimed flood steps are claimed at order 1 of its chain
    ensures FirstCandidateInLine(grid.board, self) && self !in old(grid.claims) ==>
      StepsClaimed(grid.board, old(grid.claims), grid.claims, self, Claim(self, 1))
    ensures ClaimsSound(grid.board, old(grid.claims), grid.claims, self, self, 0)
    ensures Reached(grid.board, old(grid.claims), grid.claims, self, trail)
    ensures AddedClosed(grid.board, old(grid.claims), grid.claims)
    // the chain's recursive calls, as BuildDestructionLists records them
    ensures FirstCandidateInLine(grid.board, self) && self !in old(grid.claims) ==>
      && CallsMade(grid.board, old(grid.claims), grid.claims, self, self, 0, visits, true)
      && Chained(grid.board, grid.claims, self, visits)
      && (|visits| > 0 ==> LoopLedger(old(grid.claims), visits[0].before, self, visits, true))
      && ChildClaims(grid.claims, self, 0, visits)
    // a run of three through a triplet cell, none of it claimed before, is claimed in full
    ensures forall p, q ::
      && (Line3(grid.board, self, p, q) || Line3(grid.board, p, self, q))
      && FirstCandidateInLine(grid.board, self) && self !in old(grid.claims)
      && p !in old(grid.claims) && q !in old(grid.claims)
      ==> p in grid.claims && q in grid.claims
  {
    visits, trail := [], [];
    var inTriplet := InTriplet(grid.board, self);
    if inTriplet {
      visits, trail := BuildDestructionLists(grid, self, None, 0);
    }
    forall p, q | (Line3(grid.board, self, p, q) || Line3(grid.board, p, self, q)) &&
      inTriplet && self !in old(grid.claims) && p !in old(grid.claims) && q !in old(grid.claims)
      ensures p in grid.claims && q in grid.claims
    {
      RunClaimed(grid.board, old(grid.claims), grid.claims, self, p, q);
    }
  }

  /**
   * `CheckForTriplet` with the corrected triplet test: every cell in a
   * straight run of three starts a chain, and a run none of whose cells was
   * claimed before ends up claimed in full. The ghost result is the chain's
   * trail.
   */
  method CheckForTripletAnyNeighbor(grid: TileGrid, self: Coord) returns (ghost trail: seq<Coord>)
    requires InBounds(grid.board, self)
    modifies grid
    ensures !InRun(grid.board, self) || self in old(grid.claims) ==> grid.claims == old(grid.claims)
    ensures Grows(old(grid.claims), grid.claims)
    ensures InRun(grid.board, self) && self !in old(grid.claims) ==>
      self in grid.claims && grid.claims[self] == Claim(self, 0)
    ensures InRun(grid.board, self) && self !in old(grid.claims) ==>
      StepsClaimed(grid.board, old(grid.claims), grid.claims, self, Claim(self, 1))
    ensures ClaimsSound(grid.board, old(grid.claims), grid.claims, self, self, 0)
    ensures Reached(grid.board, old(grid.claims), grid.claims, self, trail)
    ensures AddedClosed(grid.board, old(grid.claims), grid.claims)
    ensures forall p, q ::
      && (Line3(grid.board, self, p, q) || Line3(grid.board, p, self, q))
      && self !in old(grid.claims) && p !in old(grid.claims) && q !in old(grid.claims)
      ==> p in grid.claims && q in grid.claims
  {
    trail := [];
    var inRun := InTripletAnyNeighbor(grid.board, self);
    if inRun {
      var _, t := BuildDestructionLists(grid, self, None, 0);
      trail := t;
    }
    forall p, q | (Line3(grid.board, self, p, q) || Line3(grid.board, p, self, q)) &&
      self !in old(grid.claims) && p !in old(grid.claims) && q !in old(grid.claims)
      ensures p in grid.claims && q in grid.claims
    {
      RunClaimed(grid.board, old(grid.claims), grid.claims, self, p, q);
    }
  }

  /** Every flood step out of `self` that was unclaimed in `before` holds `claim` in `after`. */
  ghost predicate StepsClaimed(b: Board, before: map<Coord, Claim>, after: map<Coord, Claim>, self: Coord, claim: Claim) {
    forall c :: Edge(b, self, c) && c !in before ==> c in after && after[c] == claim
  }

  /**
   * A chain that newly claims a cell of a run of three, and in which the
   * run's other cells were unclaimed, claims the whole run: flood steps
   * follow the run in both directions.
   */
  lemma RunClaimed(b: Board, before: map<Coord, Claim>, after: map<Coord, Claim>, self: Coord, p: Coord, q: Coord)
    requires Line3(b, self, p, q) || Line3(b, p, self, q)
    requires self in after && self !in before && p !in before && q !in before
    requires AddedClosed(b, before, after)
    ensures p in after && q in after
  {
    assert Closed(b, after, self);
    if Line3(b, self, p, q) {
      RunEdges(b, self, p, q);
      assert p in after;
      assert Closed(b, after, p);
    } else {
      RunEdges(b, p, self, q);
      LineReversed(b, p, self, q);
      RunEdges(b, q, self, p);
    }
  }

  /** In a run `x`, `y`, `z` there are flood steps from `x` to `y` and from `y` to `z`. */
  lemma RunEdges(b: Board, x: Coord, y: Coord, z: Coord)
    requires Line3(b, x, y, z)
    ensures Edge(b, x, y) && Edge(b, y, z)
  {
    CardinalMember(b, x, y);
    MatchInLineIffRun(b, x, y);
    assert Edge(b, x, y);
    LineReversed(b, x, y, z);
    CardinalMember(b, y, z);
    MatchInLineIffRun(b, y, z);
  }

  lemma LineReversed(b: Board, x: Coord, y: Coord, z: Coord)
    requires Line3(b, x, y, z)
    ensures Line3(b, z, y, x)
  {
  }
}
