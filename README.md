# Match-3 grid cell rules, in Dafny

This project models the rule engine of `TileGridCell`, one cell of the
match-3 grid in the game. It covers four parts:

- **Neighbour enumeration.** The cardinal, diagonal and all-neighbour
  enumerators, and the `IsNeighbor` query built on them.
- **Local three-in-a-row detection.** `IsValidMatch`, `MatchInLine`,
  `InTriplet` and `CheckForTriplet`.
- **Chain claiming.** `BuildDestructionLists` floods from a matched cell
  through in-line matching cardinal neighbours. It claims each cell in the
  grid's detonation ledger under one chain starter and a wave order.
- **Tile slot.** The `Tile` setter with its back-reference, `TileReady`, and
  the `CanBeginSwap` guard.

Modules, one file each:

- `Wrappers`: `Option`.
- `Grid`: coordinates and a snapshot of the board. The snapshot holds the
  extents and, per cell, the optional tile's match kind and `LockedIn` flag.
  It also provides the grid's `Cell(x, y)` lookup, which gives `None` outside
  the grid.
- `Neighbors`: the enumerators, as the sequences they yield. Also the
  `IsNeighbor` scan.
- `Matching`: the match predicates and `InTriplet`.
- `Chain`:
  - the `TileGrid` class, holding the board and the claim ledger;
  - `BuildDestructionLists`, a recursive method over the ledger;
  - `CheckForTriplet`.
- `Cells`: the `Tile` and `TileGridCell` objects, with the setter and guards
  that update them in place.
- `Scenarios`: worked examples. They cover a row of three on a 3x3 grid, a
  row of five checked from its middle whose two ends are claimed at
  different orders, and a row broken by an empty cell.

A cell is identified by its coordinate, and a null cell reference becomes
`None`. The enumerators are functions. Their properties are lemmas, which
relate each enumeration to grid adjacency and to the clockwise order
up, up-right, right, ..., left-up. Chain claiming changes the ledger step by
step, so it is a method that takes the grid (`TileGrid?`, `null` for a cell
without one) and updates the grid's ledger in place. Its `decreases` clause is
the number of unclaimed cells.

## Model

All source paths are in `Assets/Scripts`.

| member | source | states |
|---|---|---|
| Neighbors.CardinalNeighbors | Assets/Scripts/Grid/TileGridCell.cs:49-74 | For any cell, the enumeration has one entry per guard that holds: `y < H-1`, `x < W-1`, `y > 0`, `x > 0`. Which cells those entries are is stated by `Neighbors.CardinalNeighborsSpec`. |
| Neighbors.NonCardinalNeighbors | Assets/Scripts/Grid/TileGridCell.cs:76-106 | For any cell, the enumeration has one entry per diagonal whose two guards hold. The guards are `y < H`, `x < W`, `y > 0` and `x > 0`. Which cells those entries are is stated by `Neighbors.NonCardinalNeighborsSpec`. |
| Neighbors.AllNeighbors | Assets/Scripts/Grid/TileGridCell.cs:108-158 | For any cell, the enumeration has one entry per direction guard that holds, plus one for each diagonal whose two guards hold. Which cells those entries are is stated by `Neighbors.AllNeighborsSpec`. |
| Neighbors.CardinalNeighborsSpec | Assets/Scripts/Grid/TileGridCell.cs:49-74 | For a cell of the grid, the cardinal enumeration has one entry per guard that holds: `y < H-1`, `x < W-1`, `y > 0`, `x > 0`. Every entry is present. The entries are strictly clockwise from up. Its cells are exactly the cells of the grid one orthogonal step away. |
| Neighbors.CardinalShape | Assets/Scripts/Grid/TileGridCell.cs:49-74 | Length of the cardinal enumeration from its four guards, every entry present, clockwise order. |
| Neighbors.CardinalMember | Assets/Scripts/Grid/TileGridCell.cs:49-74 | A cell is yielded by the cardinal enumeration iff it lies in the grid at Manhattan distance 1. |
| Neighbors.CardinalSymmetric | Assets/Scripts/Grid/TileGridCell.cs:49-74 | B is a cardinal neighbour of A iff A is a cardinal neighbour of B. |
| Neighbors.NonCardinalNeighborsSpec | Assets/Scripts/Grid/TileGridCell.cs:76-106 | The up-right request is always made, because the guards test `y < H` and `x < W`. It comes back `None` exactly on the top or right edge. The other three diagonal requests are made only off the bottom or left edge. Among them, right-down is `None` exactly on the right edge, left-up (always last) exactly on the top edge, and down-left never. The entries are clockwise, and the present ones are exactly the diagonal cells of the grid. |
| Neighbors.NonCardinalAbsent | Assets/Scripts/Grid/TileGridCell.cs:76-106 | After the up-right entry, an entry is `None` iff it is the right-down request on the right edge or the last, left-up, request on the top edge. |
| Neighbors.NonCardinalShape | Assets/Scripts/Grid/TileGridCell.cs:76-106 | Length of the diagonal enumeration from its guards, first entry the up-right lookup, clockwise order. |
| Neighbors.NonCardinalMember | Assets/Scripts/Grid/TileGridCell.cs:76-106 | A cell is yielded by the diagonal enumeration iff it is a diagonal cell of the grid. |
| Neighbors.AllNeighborsSpec | Assets/Scripts/Grid/TileGridCell.cs:108-158 | Up, up-right and right are always requested first. Each comes back `None` exactly on the top or right edge that it crosses. The down- and left-based requests are made only when `y > 0` or `x > 0`. Among the later entries, right-down is `None` exactly on the right edge, left-up (always last) exactly on the top edge, and the others never. The order is clockwise from up, and the present entries are exactly the grid cells at Chebyshev distance 1. |
| Neighbors.AllAbsent | Assets/Scripts/Grid/TileGridCell.cs:108-158 | After the first three entries, an entry is `None` iff it is the right-down request on the right edge or the last, left-up, request on the top edge. |
| Neighbors.DiagonalsOfAll | Assets/Scripts/Grid/TileGridCell.cs:76-158 | For a cell of the grid, the diagonal enumeration is the all-neighbour one restricted to its diagonal requests: entry 1, then entry 3 when `y > 0`, entry 5 when `y > 0` and `x > 0`, and the last entry when `x > 0`. |
| Neighbors.AllShape | Assets/Scripts/Grid/TileGridCell.cs:108-158 | Length of the all-neighbour enumeration, its first three requests, clockwise order. |
| Neighbors.AllMember | Assets/Scripts/Grid/TileGridCell.cs:108-158 | A cell is yielded by the all-neighbour enumeration iff it lies in the grid at Chebyshev distance 1. |
| Neighbors.AllIsCardinalPlusDiagonal | Assets/Scripts/Grid/TileGridCell.cs:49-158 | The all-neighbour enumeration yields exactly the cells of the cardinal and the diagonal ones. Its length is their sum plus one for each of the top and right edges the cell lies on. |
| Neighbors.TopRightCornerOfThreeByThree | Assets/Scripts/Grid/TileGridCell.cs:76-158 | On a 3x3 grid the top-right corner yields two cardinal neighbours, `[None, None, (1,1), None]` diagonally, and eight all-neighbour entries of which three are present. |
| Neighbors.IsNeighbor | Assets/Scripts/Grid/TileGridCell.cs:160-189 | False for a null `other` or the cell itself. Otherwise it is true iff `other` is a grid cell at Manhattan distance 1 (cardinal) or at Chebyshev distance 1 (all neighbours). |
| Neighbors.Scan | Assets/Scripts/Grid/TileGridCell.cs:169-185 | The `foreach` that stops at the first entry equal to `other` finds it iff `other` occurs in the enumeration. |
| Neighbors.ScannedMember | Assets/Scripts/Grid/TileGridCell.cs:167-186 | Membership in the enumeration `IsNeighbor` picks is grid adjacency of the chosen kind. |
| Matching.IsValidMatch | Assets/Scripts/Grid/TileGridCell.cs:344-354 | True iff `other` is present, is not the cell itself, and both cells hold settled (`LockedIn`) tiles of the same kind. |
| Matching.IsValidMatchSymmetric | Assets/Scripts/Grid/TileGridCell.cs:344-354 | The answer does not depend on which of the two cells asks. |
| Matching.MatchInLine | Assets/Scripts/Grid/TileGridCell.cs:307-342 | Never true for a null, identical or non-adjacent `other`. Its answer for every pair is stated by `Matching.MatchInLineSpec`. |
| Matching.MatchInLineIffRun | Assets/Scripts/Grid/TileGridCell.cs:307-342 | Take two validly matching cells of the grid. `MatchInLine` holds iff the pair extends, past one end or the other, to a straight run of three settled tiles of one kind. |
| Matching.MatchInLineSpec | Assets/Scripts/Grid/TileGridCell.cs:323-339 | For any pair, matching or not: true iff `other` is one orthogonal step away and either the cell one step past `self` holds a settled tile of `other`'s kind, or the cell one step past `other` holds a settled tile of `self`'s kind. The pair itself is never compared. |
| Matching.MismatchedPairInLine | Assets/Scripts/Grid/TileGridCell.cs:323-339 | On the row B A B, the middle and its left neighbour do not match, yet `MatchInLine` says yes, because the cell past the middle matches the left one. |
| Matching.MatchInLineSymmetric | Assets/Scripts/Grid/TileGridCell.cs:307-342 | `a.MatchInLine(b)` equals `b.MatchInLine(a)`. |
| Matching.InTriplet | Assets/Scripts/Grid/TileGridCell.cs:285-305 | False for an empty cell. Otherwise the answer is the `MatchInLine` of the first cardinal neighbour, in the order up, right, down, left, that holds a tile and validly matches. Later neighbours are never examined. |
| Matching.FirstCandidateInLineSound | Assets/Scripts/Grid/TileGridCell.cs:285-305 | When `InTriplet` says yes, the cell is in a straight run of three. |
| Matching.InTripletMissesRowUnderMatchingTile | Assets/Scripts/Grid/TileGridCell.cs:293-301 | Take an upside-down T of four tiles of one kind. The middle of its bottom row is in a run of three, yet `InTriplet` says no. |
| Matching.AnyCandidateInLineIffRun | Assets/Scripts/Grid/TileGridCell.cs:285-305 | If every cardinal neighbour is considered, "some matching neighbour is in line" holds iff the cell is in a run of three. |
| Matching.InTripletAnyNeighbor | Assets/Scripts/Grid/TileGridCell.cs:285-305 | The corrected triplet test answers true iff the cell is in a straight run of three. |
| Chain.TileGrid.PrepareToDetonate | Assets/Scripts/Grid/TileGridCell.cs:368 | The ledger assumption: succeeds exactly when the cell is unclaimed, and then records `(starter, order)` for it. Otherwise it changes nothing. |
| Chain.BuildDestructionLists | Assets/Scripts/Grid/TileGridCell.cs:356-409 | Does nothing without a grid. A fresh chain whose cell is already claimed changes nothing; otherwise the cell is claimed as `(self, 0)`. Claims only grow. Every added claim is sound, is reached from the cell through earlier claims, and is closed. The direct recursive calls go to the claimed neighbours in clockwise order, and the k-th is passed `order + k`. Each call is recorded with the ledgers before and after it, and the k-th call's own neighbour claims hold `order + k + 1`. Details in the notes below. |
| Chain.ClaimMatchingNeighbors | Assets/Scripts/Grid/TileGridCell.cs:380-395 | The claiming loop claims at `order+1`, under the chain's starter, exactly the cardinal neighbours that validly match, are in line and were unclaimed. It returns them in clockwise enumeration order and leaves the cell closed. |
| Chain.RecurseAll | Assets/Scripts/Grid/TileGridCell.cs:405-408 | The recursion loop, from the claiming loop's state, ends with one recorded call per claimed neighbour, the k-th passed `order + k`, and with the loop's invariant kept. |
| Chain.RecurseInto | Assets/Scripts/Grid/TileGridCell.cs:405-408 | One iteration of the recursion loop keeps the loop's invariant: claims only grow, the new ones are sound and reached, and every child visited so far is closed. The call it makes is recorded as the k-th, passed `order + k`: the effect of the post-increment. That call's own neighbour claims hold `order + k + 1` in the ledger from then on. |
| Chain.Descend | Assets/Scripts/Grid/TileGridCell.cs:407 | One recursive call, recorded with the cell, the order passed and the ledgers before and after it. The record keeps what `BuildDestructionLists` promises under the chain's starter: claims grow, are sound, reached and closed, and the call itself is closed. Its own calls are made as `CallsMade` states, ran in sequence and kept their promises, down the whole recursion. The ledger its first call started from is as `LoopLedger` states, and the k-th call's neighbour claims hold `order + k + 1`. |
| Chain.ReturnedKept | Assets/Scripts/Grid/TileGridCell.cs:405-408 | A returned call's record keeps the promises of every call below it in the recursion: each call's claims grow and are reached, its neighbour claims hold its order plus one, and its own calls ran in sequence with their children's claims at `order + k + 1`. |
| Chain.RecordCall | Assets/Scripts/Grid/TileGridCell.cs:405-408 | A finished k-th call, passed `order + k` and run from the current ledger, extends the loop's invariant from k calls to k+1. |
| Chain.RecordVisit | Assets/Scripts/Grid/TileGridCell.cs:405-408 | The k-th call, passed `order + k` and started from the ledger the previous call left, extends the record of calls and of their children's claims. |
| Chain.RecordReach | Assets/Scripts/Grid/TileGridCell.cs:405-408 | The k-th call keeps the loop's ledger invariant, and its trail appended to the caller's keeps every claim reached. |
| Chain.ChainOneMore | Assets/Scripts/Grid/TileGridCell.cs:405-408 | A call that starts from the ledger the previous one left extends the record of calls run one after another. |
| Chain.ChildClaimsOneMore | Assets/Scripts/Grid/TileGridCell.cs:405-408 | Claims never change once made, so a new call whose neighbour claims hold `order + k + 1` extends the record of child claims. |
| Chain.FirstLedger | Assets/Scripts/Grid/TileGridCell.cs:366-395 | The ledger the first recursive call starts from differs from the entry ledger only by the cell's own claim and the claims of the claiming loop, which are all cells of recorded calls. |
| Chain.CalledOneMore | Assets/Scripts/Grid/TileGridCell.cs:405-408 | Recording the k-th call, passed `order + k`, extends the record of the first k calls to the first k+1. |
| Chain.SteppedAppend | Assets/Scripts/Grid/TileGridCell.cs:405-408 | A trail of flood steps from a child, appended to a trail from `self` that holds the child, is a trail of flood steps from `self`. |
| Chain.ReachedAppend | Assets/Scripts/Grid/TileGridCell.cs:405-408 | The cells a recursive call claims, appended after the caller's, keep every claim reached from the caller's cell through earlier claims. The child is already claimed, and its own claims start from it. |
| Chain.FewerUnclaimed | Assets/Scripts/Grid/TileGridCell.cs:388-407 | Recursing only into cells whose claim succeeded strictly shrinks the set of unclaimed grid cells, so the recursion terminates. |
| Chain.RunEdges | Assets/Scripts/Grid/TileGridCell.cs:382-395 | Along a straight run of three, the flood steps from an end to the middle and from the middle to the far end. |
| Chain.RunClaimed | Assets/Scripts/Grid/TileGridCell.cs:356-409 | Suppose a chain newly claims a cell of a run of three whose other cells were unclaimed. Then it claims the whole run. |
| Chain.CheckForTriplet | Assets/Scripts/Grid/TileGridCell.cs:276-283 | Changes nothing unless `InTriplet` holds for an unclaimed cell. Then it claims the cell as `(self, 0)` and its unclaimed flood steps at order 1. Every claim is sound, reached from the cell and closed, and any run of three through the cell that was wholly unclaimed ends up claimed. The chain's recursive calls are recorded as `BuildDestructionLists` records them, with their children's claims at `k + 1`. Details in the notes below. |
| Chain.CheckForTripletAnyNeighbor | Assets/Scripts/Grid/TileGridCell.cs:276-305 | `CheckForTriplet` with the corrected triplet test. A cell in a straight run of three that is unclaimed starts a chain as `(self, 0)`. Its unclaimed flood steps are claimed at order 1. Every added claim is sound, reached from the cell and closed. Every run through it whose cells were all unclaimed ends up claimed in full. Otherwise nothing changes. |
| Cells.TileGridCell.SetTile | Assets/Scripts/Grid/TileGridCell.cs:32-42 | Assigning the current occupant changes nothing. A different tile becomes the occupant and is pointed back at this cell, with its other fields untouched. The displaced tile is left as it was, and the cell is linked afterwards. |
| Cells.SameTileKeepsStaleLink | Assets/Scripts/Grid/TileGridCell.cs:34-41 | Re-assigning a cell's tile after another cell took it leaves the tile pointing at the other cell: the setter writes the link only on change. |
| Cells.TileGridCell.TileReady | Assets/Scripts/Grid/TileGridCell.cs:45-47 | True iff the cell holds a tile and that tile is `LockedIn`. |
| Cells.ReadyCellsMatch | Assets/Scripts/Grid/TileGridCell.cs:344-354 | On a board that shows two cells' tiles as they are, `IsValidMatch` holds iff the cells differ, both are `TileReady`, and their tiles' kinds are equal. |
| Cells.TileGridCell.CanBeginSwap | Assets/Scripts/Grid/TileGridCell.cs:215-225 | True iff the tile is ready and the cell has a grid that answers yes. |
| Cells.Tile.constructor | Assets/Scripts/Tiles/Tile.cs:11-18 | A new tile is `LockedIn` and belongs to no cell. |
| Scenarios.ThreeInARowScenario | Assets/Scripts/Grid/TileGridCell.cs:276-409 | On a 3x3 grid with a bottom row of one kind under a tile of another kind, the middle is in a triplet. Checking it claims exactly the row: the middle as starter at order 0 and both ends at order 1. Checking an end afterwards changes nothing. |
| Scenarios.FiveInARowScenario | Assets/Scripts/Grid/TileGridCell.cs:276-409 | On a 5x1 row of one kind, the middle (2,0) is in a triplet. Checking it on an empty ledger claims exactly the row: (2,0) at order 0; (3,0), (1,0) and (4,0) at order 1; (0,0) at order 2, because the second recursive call, to (1,0), is passed order 1. |
| Scenarios.RowOfFiveScenario | Assets/Scripts/Grid/TileGridCell.cs:276-409 | The same ledger for any board that is one row of five around a triplet middle. |
| Scenarios.RowOfFiveLedger | Assets/Scripts/Grid/TileGridCell.cs:276-409 | What a chain from the middle of a row of five, started on an empty ledger, promises fixes the whole ledger. |
| Scenarios.RowOfFiveChain | Assets/Scripts/Grid/TileGridCell.cs:356-409 | From the recorded calls of a chain at the middle of a row of five: right and left are claimed at order 1, the far right by the first call at order 1, the far left by the second call at order 2. |
| Scenarios.TwoCalls | Assets/Scripts/Grid/TileGridCell.cs:382-408 | When the middle's only flood steps are right and left, its recursive calls are exactly right then left. |
| Scenarios.FirstCallClaims | Assets/Scripts/Grid/TileGridCell.cs:405-408 | A flood step of the first call's cell that no call visits is claimed by the first call at order 1. |
| Scenarios.SecondCallClaims | Assets/Scripts/Grid/TileGridCell.cs:405-408 | A flood step of the second call's cell that no call visits and the first call did not reach is claimed by the second call at order 2. |
| Scenarios.RightTrail | Assets/Scripts/Grid/TileGridCell.cs:382-408 | The call on the right neighbour reaches nothing but the far right cell. |
| Scenarios.RowLedger | Assets/Scripts/Grid/TileGridCell.cs:356-409 | A sound ledger on a row of five that holds the five claims holds nothing else. |
| Scenarios.GapStopsChain | Assets/Scripts/Grid/TileGridCell.cs:356-409 | On the row K _ K K K, no ledger in which a chain from the left end holds the three cells past the gap is reached from that end. |
| Scenarios.BottomRowMiddleInTriplet | Assets/Scripts/Grid/TileGridCell.cs:285-305 | In that board, `InTriplet` skips the unmatched up neighbour and commits to the right end, which is in line. |

### Notes on `BuildDestructionLists`

`Chain.BuildDestructionLists` states the following:

- With no grid it does nothing.
- The claims only ever grow.
- Without a starter, it stops, changing nothing, when its own claim is
  refused. Otherwise it claims itself as `(self, 0)`.
- Every new claim is a grid cell under the chain's starter. Each one other
  than `self` holds a settled tile of `self`'s kind and has an order past the
  caller's.
- The cells claimed besides `self` form a trail in claim order, each cell
  once. Each one is a flood step from `self` or from a cell earlier on the
  trail, so the chain claims only cells it reaches from `self`.
- Every added cell is closed: each of its flood steps leads to a claimed
  cell.
- The direct recursive calls go to the claimed neighbours, in clockwise
  order. Each call is recorded with the order passed to it, and the k-th
  receives `order + k`.
- Each recorded call also carries the ledger it started from and the one it
  left. The calls run one after another: each starts from the ledger the
  one before it left, and the last leaves the final ledger. The first starts
  from the entry ledger plus the claims made before the recursion loop.
- The neighbours the k-th call claims in its own claiming loop hold
  `order + k + 1` in the final ledger.
- The record of each call carries the same promises about its own calls,
  and so on down the recursion: at every depth, the calls a call makes ran
  in sequence, and the neighbours its k-th call claims hold its order plus
  `k + 1` in the ledger that call left.

### Notes on `CheckForTriplet`

`Chain.CheckForTriplet` states the following:

- It changes nothing unless `InTriplet` holds and the cell is unclaimed.
- Otherwise it claims the cell as `(self, 0)` and every unclaimed flood step
  from it at order 1.
- All the claims it adds are sound, reached from the cell and closed.
- If no cell of a run of three through the cell was claimed before, the
  whole run ends up claimed.

## Left out

- `Tile.IsMatch` is not part of this model. Two tiles match when their match
  kinds are equal.
- `TileGrid` is not part of this model.
  - `Cell(x, y)` is taken to return the cell at those coordinates inside the
    grid and nothing outside it.
  - `PrepareToDetonate` is taken to succeed exactly when the cell is
    unclaimed (`ok <==> c !in old(claims)`), as stated on
    `Chain.TileGrid.PrepareToDetonate`.
  - `CanBeginSwap` on the grid is a parameter (`gridAnswer`) of
    `Cells.TileGridCell.CanBeginSwap`.
  - `GetCellBelow`, gravity and refill are not modelled.
- During one pass of `BuildDestructionLists` the board does not change; only
  the ledger does.
- Cells are identified by their coordinates: two distinct cells never share
  one.
- `BuildDestructionLists` also has a loop over `AllNeighbors` whose body is
  empty. It changes nothing and is not modelled.
- `Chain.CheckForTriplet` requires a grid. With a tile present, `InTriplet`
  reaches `Grid` through the enumerators, so the source has no path there
  without one. For an empty cell `InTriplet` returns false before touching
  `Grid` (`TileGridCell.cs` lines 287-290), and `CheckForTriplet` does
  nothing. The `grid: TileGrid` requirement leaves out this no-op case.
- `Chain.BuildDestructionLists`, `Chain.CheckForTriplet` and
  `Matching.InTriplet` read the board as a value snapshot. They do not model
  tile objects shared between cells.
- `Chain.BuildDestructionLists` returns two ghost lists so that their
  properties can be stated. The first records its direct recursive calls,
  each with the order passed, the ledgers before and after it, and its own
  calls and trail. The second is its trail of claims. The source keeps
  neither list.
- A cell without a grid is not modelled for the enumerators, `IsNeighbor`,
  `MatchInLine` and `InTriplet`. They dereference `Grid` unguarded
  (`TileGridCell.cs` lines 51, 78, 110 and 323), so the source throws there.
  The model's `Board` parameter always stands for a grid.
- Unity plumbing and presentation are not modelled: `GenerateTile`,
  `ShowDetonate`, `ShowBurn`, `AnimateMove`, `HandleGridChange`, and the
  audio call in `CheckForTriplet`.
- The swap flow after the `CanBeginSwap` guard is not modelled:
  `MakeSwapTarget`, `UnmakeSwapTarget`, `SwapTile`, `Event_FinishSwap`. It
  only delegates to grid code that is not part of this model.
- `Tile.cs` is modelled only for the fields the rules read: the match kind,
  `LockedIn`, the swappable flag and the `GridCell` back-reference. Sprite
  and button updates, animation, swap indicators, transform parenting and
  `Event_Select` are presentation or dispatch to grid code.
- `awaitingFallingTile` and the cell's Unity fields are not modelled.
- Integer overflow of coordinates and orders is not modelled. Grid extents
  and chain lengths are far below 32-bit limits.

## Findings

| source | as written | input that shows it | evidently intended | confidence | as-written member | corrected member |
|---|---|---|---|---|---|---|
| Assets/Scripts/Grid/TileGridCell.cs:293-301 | `InTriplet` returns the `MatchInLine` answer of the first cardinal neighbour that matches, and never looks at the others | 3x3 grid with settled tiles of one kind at (0,0), (1,0), (2,0) and (1,1); cell (1,0). Up (1,1) matches but is not in line, so the answer is false, although (0,0), (1,0), (2,0) is a run of three. | True whenever some matching cardinal neighbour is in line, that is, whenever the cell is in a straight run of three | not executed | Matching.InTripletMissesRowUnderMatchingTile | Matching.InTripletAnyNeighbor |

The method's name and its use in `CheckForTriplet` (lines 276-283) say the
intent: the test should decide whether the cell is in a triplet. The code
instead commits to the first matching neighbour.

- `Chain.CheckForTriplet` keeps the code's behaviour, through
  `Matching.InTriplet`, because it models the program as written.
- `Matching.InTripletAnyNeighbor` is the corrected test.
  `Matching.AnyCandidateInLineIffRun` proves it exact.
- `Chain.CheckForTripletAnyNeighbor` builds the chain on the corrected test.
