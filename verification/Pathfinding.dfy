/** The A* search used to steer towards a cell (Util/Pathfinding.cpp). */
module Pathfinding {
  import opened Tiles

  // ----- Cells and routes -----

  const NO_CELL := Cell(-1, -1)

  function Key(c: Cell): (k: int)
    ensures Inside(c) ==> 0 <= k < TILE_COUNT
  {
    CellKey(c.col, c.row)
  }

  predicate Free(grid: TileMap, c: Cell) {
    Inside(c) && (At(grid, c.col, c.row) == Grass || At(grid, c.col, c.row) == EmptyGrass)
  }

  /** The four directions in the order the search tries them. */
  function Neighbour(c: Cell, direction: nat): Cell {
    match direction
    case 0 => Cell(c.col, c.row - 1)
    case 1 => Cell(c.col, c.row + 1)
    case 2 => Cell(c.col - 1, c.row)
    case _ => Cell(c.col + 1, c.row)
  }

  predicate Adjacent(a: Cell, b: Cell) {
    b in {Neighbour(a, 0), Neighbour(a, 1), Neighbour(a, 2), Neighbour(a, 3)}
  }

  /** Neighbours are the cells one column or one row away. */
  lemma AdjacentIsOneStep(a: Cell, b: Cell)
    ensures Adjacent(a, b) <==>
      || (a.row == b.row && (a.col - b.col == 1 || b.col - a.col == 1))
      || (a.col == b.col && (a.row - b.row == 1 || b.row - a.row == 1))
  {
  }

  /** A walk over free cells from `src` to `dest`; it takes |p| - 1 moves. */
  ghost predicate Route(grid: TileMap, src: Cell, dest: Cell, p: seq<Cell>) {
    && p != [] && p[0] == src && p[|p| - 1] == dest
    && (forall i | 0 <= i < |p| :: Free(grid, p[i]))
    && (forall i | 0 < i < |p| :: Adjacent(p[i - 1], p[i]))
  }

  lemma RoutePrefix(grid: TileMap, src: Cell, dest: Cell, p: seq<Cell>, n: nat)
    requires Route(grid, src, dest, p) && n < |p|
    ensures Route(grid, src, p[n], p[..n + 1])
  {
  }

  lemma RouteExtended(grid: TileMap, src: Cell, mid: Cell, p: seq<Cell>, next: Cell)
    requires Route(grid, src, mid, p) && Adjacent(mid, next) && Free(grid, next)
    ensures Route(grid, src, next, p + [next])
  {
  }

  // ----- The heuristic -----

  function SquaredDistance(c: Cell, dest: Cell): int {
    (c.row - dest.row) * (c.row - dest.row) + (c.col - dest.col) * (c.col - dest.col)
  }

  /** `h` is the straight-line distance to `dest`: the non-negative root of the squared distance. */
  ghost predicate StraightLine(h: Cell -> real, dest: Cell) {
    forall c :: IsDistance(h(c), c, dest)
  }

  predicate IsDistance(x: real, c: Cell, dest: Cell) {
    x >= 0.0 && x * x == SquaredDistance(c, dest) as real
  }

  /** What the search needs of its heuristic. */
  ghost predicate Consistent(h: Cell -> real, dest: Cell) {
    && (forall c | Inside(c) :: 0.0 <= h(c) <= 33.0)
    && (forall c | Adjacent(c, dest) :: h(c) == 1.0)
    && (forall a, b | Adjacent(a, b) :: h(a) <= h(b) + 1.0)
  }

  lemma ProductIsPositive(x: real, y: real)
    requires x > 0.0 && y > 0.0
    ensures x * y > 0.0
  {
  }

  lemma DifferenceOfSquares(x: real, y: real)
    ensures (x - y) * (x + y) == x * x - y * y
  {
  }

  lemma RootsAreOrdered(x: real, y: real)
    requires x >= 0.0 && y >= 0.0 && x * x <= y * y
    ensures x <= y
  {
    if x > y {
      ProductIsPositive(x - y, x + y);
      DifferenceOfSquares(x, y);
    }
  }

  /** One step changes the distance by at most one: the triangle inequality for unit steps. */
  lemma DistanceStep(x: real, y: real, a: real, b: real, sign: real)
    requires x >= 0.0 && y >= 0.0 && (sign == 1.0 || sign == -1.0)
    requires x * x == a * a + b * b && y * y == (a + sign) * (a + sign) + b * b
    ensures x <= y + 1.0
  {
    var t := if sign == 1.0 then a + 1.0 else -(a - 1.0);
    assert t * t == (a + sign) * (a + sign);
    assert b * b >= 0.0;
    assert t * t <= y * y;
    if t < 0.0 {
      assert (-t) * (-t) == t * t;
      RootsAreOrdered(-t, y);
    } else {
      RootsAreOrdered(t, y);
    }
    assert -y <= t <= y;
    assert (y + 1.0) * (y + 1.0) == y * y + 2.0 * y + 1.0;
    assert x * x == y * y - (if sign == 1.0 then 2.0 * a + 1.0 else 1.0 - 2.0 * a);
    RootsAreOrdered(x, y + 1.0);
  }

  lemma SquareIsBounded(d: int, n: int)
    requires -n <= d <= n
    ensures d * d <= n * n
  {
    if d >= 0 {
      assert d * d <= d * n <= n * n;
    } else {
      assert (-d) * (-d) <= (-d) * n <= n * n;
    }
  }

  lemma DistanceIsBounded(x: real, dr: int, dc: int)
    requires x >= 0.0 && x * x == (dr * dr + dc * dc) as real
    requires -12 <= dr <= 12 && -30 <= dc <= 30
    ensures x <= 33.0
  {
    SquareIsBounded(dr, 12);
    SquareIsBounded(dc, 30);
    RootsAreOrdered(x, 33.0);
  }

  lemma UnitDistance(x: real)
    requires x >= 0.0 && x * x == 1.0
    ensures x == 1.0
  {
    RootsAreOrdered(x, 1.0);
    RootsAreOrdered(1.0, x);
  }

  lemma AdjacentDistances(x: real, y: real, along: int, across: int, sign: int)
    requires sign == 1 || sign == -1
    requires x >= 0.0 && x * x == (along * along + across * across) as real
    requires y >= 0.0 && y * y == ((along + sign) * (along + sign) + across * across) as real
    ensures x <= y + 1.0
  {
    SquareAsReal(along, across);
    SquareAsReal(along + sign, across);
    DistanceStep(x, y, along as real, across as real, sign as real);
  }

  lemma SquareAsReal(a: int, b: int)
    ensures (a * a + b * b) as real == (a as real) * (a as real) + (b as real) * (b as real)
  {
  }

  lemma AdjacentCells(x: real, y: real, a: Cell, b: Cell, dest: Cell)
    requires Adjacent(a, b) && IsDistance(x, a, dest) && IsDistance(y, b, dest)
    ensures x <= y + 1.0
  {
    var dr, dc := a.row - dest.row, a.col - dest.col;
    if b.col == a.col {
      assert b.row - dest.row == dr + (b.row - a.row);
      AdjacentDistances(x, y, dr, dc, b.row - a.row);
    } else {
      assert b.col - dest.col == dc + (b.col - a.col);
      AdjacentDistances(x, y, dc, dr, b.col - a.col);
    }
  }

  lemma InsideIsNear(x: real, c: Cell, dest: Cell)
    requires Inside(c) && Inside(dest) && IsDistance(x, c, dest)
    ensures 0.0 <= x <= 33.0
  {
    DistanceIsBounded(x, c.row - dest.row, c.col - dest.col);
  }

  lemma NextToGoal(x: real, c: Cell, dest: Cell)
    requires Adjacent(c, dest) && IsDistance(x, c, dest)
    ensures x == 1.0
  {
    assert SquaredDistance(c, dest) == 1;
    UnitDistance(x);
  }

  lemma StraightLineIsConsistent(h: Cell -> real, dest: Cell)
    requires StraightLine(h, dest) && Inside(dest)
    ensures Consistent(h, dest)
  {
    forall c | Inside(c) ensures 0.0 <= h(c) <= 33.0 {
      InsideIsNear(h(c), c, dest);
    }
    forall c | Adjacent(c, dest) ensures h(c) == 1.0 {
      NextToGoal(h(c), c, dest);
    }
    forall a, b | Adjacent(a, b) ensures h(a) <= h(b) + 1.0 {
      AdjacentCells(h(a), h(b), a, b, dest);
    }
  }

  // ----- Search state -----

  const FLT_MAX: real := 340282346638528859811704183484516925440.0

  datatype Details = Details(parent: Cell, f: real, g: real, h: real)

  /** An open-list entry, ordered by cost, then row, then column. */
  datatype Entry = Entry(f: real, cell: Cell)

  predicate Before(a: Entry, b: Entry) {
    || a.f < b.f
    || (a.f == b.f && (a.cell.row < b.cell.row || (a.cell.row == b.cell.row && a.cell.col < b.cell.col)))
  }

  predicate IsFirst(open: set<Entry>, first: Entry) {
    first in open && forall x | x in open :: !Before(x, first)
  }

  lemma FirstExists(open: set<Entry>) returns (first: Entry)
    requires open != {}
    ensures IsFirst(open, first)
    decreases |open|
  {
    var e :| e in open;
    var rest := open - {e};
    first := e;
    if rest != {} {
      var m := FirstExists(rest);
      first := if Before(m, e) then m else e;
      forall x | x in open ensures !Before(x, first) {
        assert x == e || x in rest;
      }
    }
  }

  lemma {:induction false} CellsAreFew(cells: set<Cell>, n: nat)
    requires forall c | c in cells :: Inside(c) && Key(c) < n
    ensures |cells| <= n
  {
    if c :| c in cells && Key(c) == n - 1 {
      forall x | x in cells && x != c ensures Key(x) < n - 1 {
        CellKeyIsInjective(x, c);
      }
      CellsAreFew(cells - {c}, n - 1);
    } else if n > 0 {
      CellsAreFew(cells, n - 1);
    }
  }

  /** Details of a discovered cell: a genuine cost, and a closed parent one move nearer to the source. */
  ghost predicate GoodDetails(src: Cell, h: Cell -> real, closed: set<Cell>, det: map<Cell, Details>, c: Cell)
    requires c in det
  {
    var x := det[c];
    && 0.0 <= x.g <= |closed| as real
    && if c == src then x.g == 0.0 && x.f == 0.0 && x.parent == src
       else
         && x.f == x.g + h(c)
         && x.parent in closed && x.parent in det
         && Adjacent(x.parent, c) && x.g == det[x.parent].g + 1.0
  }

  /** `n` is not the destination and, when free, known at no more than one move beyond `c`. */
  ghost predicate Reached(grid: TileMap, dest: Cell, det: map<Cell, Details>, c: Cell, n: Cell)
    requires c in det
  {
    n != dest && (Free(grid, n) ==> n in det && det[n].g <= det[c].g + 1.0)
  }

  /** No route to `c` is shorter than its recorded cost. */
  ghost predicate Settled(grid: TileMap, src: Cell, det: map<Cell, Details>, c: Cell)
    requires c in det
  {
    forall p | Route(grid, src, c, p) :: det[c].g <= (|p| - 1) as real
  }

  ghost predicate DetailsAreGood(grid: TileMap, src: Cell, dest: Cell, h: Cell -> real, closed: set<Cell>, det: map<Cell, Details>) {
    forall c | c in det :: Free(grid, c) && c != dest && GoodDetails(src, h, closed, det, c)
  }

  ghost predicate ClosedAreSettled(grid: TileMap, src: Cell, closed: set<Cell>, det: map<Cell, Details>)
    requires closed <= det.Keys
  {
    forall c | c in closed :: Settled(grid, src, det, c)
  }

  /** Every closed cell is fully expanded, except that `u` has only its first `k` directions relaxed. */
  ghost predicate ClosedAreExpanded(grid: TileMap, dest: Cell, closed: set<Cell>, det: map<Cell, Details>, u: Cell, k: nat)
    requires closed <= det.Keys
  {
    forall c, i | c in closed && 0 <= i < (if c == u then k else 4) :: Reached(grid, dest, det, c, Neighbour(c, i))
  }

  ghost predicate OpenMatches(closed: set<Cell>, det: map<Cell, Details>, open: set<Entry>) {
    && (forall e | e in open :: e.cell in det && e.f >= det[e.cell].f)
    && (forall c | c in det && c !in closed :: Entry(det[c].f, c) in open)
  }

  /**
   * The search invariant while the first `k` directions out of the closed cell `u` have been relaxed.
   * With k == 4 it speaks about every closed cell alike.
   */
  ghost predicate SearchInv(grid: TileMap, src: Cell, dest: Cell, h: Cell -> real,
                            closed: set<Cell>, det: map<Cell, Details>, open: set<Entry>, u: Cell, k: nat)
  {
    && src in closed && src != dest && closed <= det.Keys
    && DetailsAreGood(grid, src, dest, h, closed, det)
    && ClosedAreSettled(grid, src, closed, det)
    && ClosedAreExpanded(grid, dest, closed, det, u, k)
    && OpenMatches(closed, det, open)
  }

  // ----- Why the search is right -----

  lemma AdjacentDirection(a: Cell, b: Cell) returns (k: nat)
    requires Adjacent(a, b)
    ensures k < 4 && Neighbour(a, k) == b
  {
    k := if b == Neighbour(a, 0) then 0 else if b == Neighbour(a, 1) then 1 else if b == Neighbour(a, 2) then 2 else 3;
  }

  /** A free cell next to a closed one is known, at no more than the cost of any route to it this way. */
  lemma NextToClosed(grid: TileMap, src: Cell, dest: Cell, h: Cell -> real,
                     closed: set<Cell>, det: map<Cell, Details>, open: set<Entry>, q: seq<Cell>, y: Cell, n: Cell)
    requires SearchInv(grid, src, dest, h, closed, det, open, src, 4)
    requires y in closed && Route(grid, src, y, q) && Adjacent(y, n) && Free(grid, n)
    ensures n != dest && n in det && det[n].g <= |q| as real
  {
    var k := AdjacentDirection(y, n);
    assert Reached(grid, dest, det, y, Neighbour(y, k));
    assert Settled(grid, src, det, y);
  }

  lemma FirstOutside(closed: set<Cell>, p: seq<Cell>) returns (i: nat)
    requires p != [] && p[0] in closed && p[|p| - 1] !in closed
    ensures 0 < i < |p| && p[i - 1] in closed && p[i] !in closed
  {
    i := 1;
    while p[i] in closed
      invariant 0 < i < |p| && p[i - 1] in closed
      decreases |p| - i
    {
      i := i + 1;
    }
  }

  /** A route that ends outside the closed region leaves it somewhere, through a known open cell. */
  lemma LeavesClosedRegion(grid: TileMap, src: Cell, dest: Cell, h: Cell -> real,
                           closed: set<Cell>, det: map<Cell, Details>, open: set<Entry>, end: Cell, p: seq<Cell>)
    returns (i: nat)
    requires SearchInv(grid, src, dest, h, closed, det, open, src, 4)
    requires Route(grid, src, end, p) && end !in closed
    ensures 0 < i < |p| && p[i] != dest && p[i] !in closed
    ensures p[i] in det && det[p[i]].g <= i as real
  {
    i := FirstOutside(closed, p);
    RoutePrefix(grid, src, end, p, i - 1);
    NextToClosed(grid, src, dest, h, closed, det, open, p[..i], p[i - 1], p[i]);
  }

  lemma {:induction false} HeuristicAlongRoute(grid: TileMap, src: Cell, dest: Cell, goal: Cell, h: Cell -> real, p: seq<Cell>, i: nat)
    requires Consistent(h, goal) && Route(grid, src, dest, p) && i < |p|
    ensures h(p[i]) <= h(dest) + (|p| - 1 - i) as real
    decreases |p| - i
  {
    if i + 1 < |p| {
      HeuristicAlongRoute(grid, src, dest, goal, h, p, i + 1);
      assert Adjacent(p[i], p[i + 1]);
    }
  }

  /** The first open entry costs no more than any route to an unclosed cell plus the rest of the way. */
  lemma FirstEntryIsCheapest(grid: TileMap, src: Cell, dest: Cell, h: Cell -> real,
                             closed: set<Cell>, det: map<Cell, Details>, open: set<Entry>, first: Entry, end: Cell, p: seq<Cell>)
    requires Consistent(h, dest) && SearchInv(grid, src, dest, h, closed, det, open, src, 4)
    requires IsFirst(open, first)
    requires Route(grid, src, end, p) && end !in closed
    ensures first.f <= (|p| - 1) as real + h(end)
  {
    var i := LeavesClosedRegion(grid, src, dest, h, closed, det, open, end, p);
    HeuristicAlongRoute(grid, src, end, dest, h, p, i);
    assert GoodDetails(src, h, closed, det, p[i]);
    assert !Before(Entry(det[p[i]].f, p[i]), first);
  }

  ghost predicate FollowsParents(det: map<Cell, Details>, p: seq<Cell>) {
    && (forall i | 0 <= i < |p| :: p[i] in det)
    && (forall i | 0 < i < |p| :: det[p[i]].parent == p[i - 1])
  }

  /** The parent chain of a known cell is acyclic: it is a route of exactly the recorded cost, back to the source. */
  lemma ParentChain(grid: TileMap, src: Cell, dest: Cell, h: Cell -> real,
                    closed: set<Cell>, det: map<Cell, Details>, c: Cell) returns (p: seq<Cell>)
    requires DetailsAreGood(grid, src, dest, h, closed, det) && c in det
    ensures Route(grid, src, c, p) && det[c].g == (|p| - 1) as real
    ensures FollowsParents(det, p)
    decreases det[c].g.Floor
  {
    assert Free(grid, c) && GoodDetails(src, h, closed, det, c);
    if c == src {
      p := [src];
    } else {
      var parent := det[c].parent;
      assert GoodDetails(src, h, closed, det, parent);
      var q := ParentChain(grid, src, dest, h, closed, det, parent);
      RouteExtended(grid, src, parent, q, c);
      p := q + [c];
      ChainExtended(det, q, c);
    }
  }

  lemma ChainExtended(det: map<Cell, Details>, q: seq<Cell>, c: Cell)
    requires FollowsParents(det, q) && q != [] && c in det && det[c].parent == q[|q| - 1]
    ensures FollowsParents(det, q + [c])
  {
  }

  // ----- Expanding one cell -----

  /** The cheapest open cell is settled: no route to it beats its recorded cost. */
  lemma CheapestIsSettled(grid: TileMap, src: Cell, dest: Cell, h: Cell -> real,
                          closed: set<Cell>, det: map<Cell, Details>, open: set<Entry>, first: Entry)
    requires Consistent(h, dest) && SearchInv(grid, src, dest, h, closed, det, open, src, 4)
    requires IsFirst(open, first) && first.cell !in closed
    ensures first.f == det[first.cell].f == det[first.cell].g + h(first.cell)
    ensures Settled(grid, src, det, first.cell)
  {
    var u := first.cell;
    assert GoodDetails(src, h, closed, det, u);
    assert !Before(Entry(det[u].f, u), first);
    forall p | Route(grid, src, u, p) ensures det[u].g <= (|p| - 1) as real {
      FirstEntryIsCheapest(grid, src, dest, h, closed, det, open, first, u, p);
    }
  }

  /** Closing the cheapest open cell keeps the invariant, with none of its directions relaxed yet. */
  lemma CloseCell(grid: TileMap, src: Cell, dest: Cell, h: Cell -> real,
                  closed: set<Cell>, det: map<Cell, Details>, open: set<Entry>, first: Entry)
    requires Consistent(h, dest) && SearchInv(grid, src, dest, h, closed, det, open, src, 4)
    requires IsFirst(open, first) && first.cell !in closed
    ensures SearchInv(grid, src, dest, h, closed + {first.cell}, det, open - {first}, first.cell, 0)
  {
    CheapestIsSettled(grid, src, dest, h, closed, det, open, first);
    var closed' := closed + {first.cell};
    assert |closed'| == |closed| + 1;
    forall c | c in det ensures GoodDetails(src, h, closed', det, c) {
      assert GoodDetails(src, h, closed, det, c);
    }
    forall c, i | c in closed' && 0 <= i < (if c == first.cell then 0 else 4)
      ensures Reached(grid, dest, det, c, Neighbour(c, i))
    {
      assert Reached(grid, dest, det, c, Neighbour(c, i));
    }
  }

  /** The details a relaxation of `n` from `u` would record. */
  function Better(det: map<Cell, Details>, u: Cell, n: Cell, hNew: real): Details
    requires u in det
  {
    Details(u, det[u].g + 1.0 + hNew, det[u].g + 1.0, hNew)
  }

  /** A neighbour that needs no update is already known at no more than one move beyond `u`. */
  lemma NeighbourIsReached(grid: TileMap, src: Cell, dest: Cell, h: Cell -> real,
                           closed: set<Cell>, det: map<Cell, Details>, u: Cell, n: Cell)
    requires DetailsAreGood(grid, src, dest, h, closed, det) && closed <= det.Keys && u in closed
    requires ClosedAreSettled(grid, src, closed, det) && Adjacent(u, n)
    requires n != dest && (Free(grid, n) ==> n in closed || (n in det && det[n].f <= Better(det, u, n, h(n)).f))
    requires src in closed
    ensures Reached(grid, dest, det, u, n)
  {
    if Free(grid, n) {
      assert GoodDetails(src, h, closed, det, n);
      if n in closed {
        var p := ParentChain(grid, src, dest, h, closed, det, u);
        RouteExtended(grid, src, u, p, n);
        assert Settled(grid, src, det, n);
      }
    }
  }

  lemma NoUpdateNeeded(grid: TileMap, src: Cell, dest: Cell, h: Cell -> real,
                       closed: set<Cell>, det: map<Cell, Details>, open: set<Entry>, u: Cell, k: nat)
    requires SearchInv(grid, src, dest, h, closed, det, open, u, k) && k < 4 && u in closed
    requires var n := Neighbour(u, k);
      n != dest && (Free(grid, n) ==> n in closed || (n in det && det[n].f <= Better(det, u, n, h(n)).f))
    ensures SearchInv(grid, src, dest, h, closed, det, open, u, k + 1)
  {
    hide DetailsAreGood, ClosedAreSettled, ClosedAreExpanded, OpenMatches, Reached, Better, Free, Neighbour;
    NeighbourIsAdjacent(u, k);
    NeighbourIsReached(grid, src, dest, h, closed, det, u, Neighbour(u, k));
    OneMoreExpanded(grid, dest, closed, det, u, k);
  }

  lemma NeighbourIsAdjacent(u: Cell, k: nat)
    requires k < 4
    ensures Adjacent(u, Neighbour(u, k))
  {
  }

  lemma OneMoreExpanded(grid: TileMap, dest: Cell, closed: set<Cell>, det: map<Cell, Details>, u: Cell, k: nat)
    requires closed <= det.Keys && ClosedAreExpanded(grid, dest, closed, det, u, k) && k < 4
    requires u in closed && Reached(grid, dest, det, u, Neighbour(u, k))
    ensures ClosedAreExpanded(grid, dest, closed, det, u, k + 1)
  {
    hide Reached, Neighbour;
    forall c, i | c in closed && 0 <= i < (if c == u then k + 1 else 4)
      ensures Reached(grid, dest, det, c, Neighbour(c, i))
    {
      if c != u || i < k {
        assert Reached(grid, dest, det, c, Neighbour(c, i));
      }
    }
  }

  lemma UpdateKeepsDetails(grid: TileMap, src: Cell, dest: Cell, h: Cell -> real,
                           closed: set<Cell>, det: map<Cell, Details>, u: Cell, n: Cell, x: Details)
    requires DetailsAreGood(grid, src, dest, h, closed, det) && u in closed && u in det && src in closed
    requires n != dest && Free(grid, n) && n !in closed && Adjacent(u, n)
    requires x == Better(det, u, n, h(n)) && x.g <= |closed| as real
    ensures DetailsAreGood(grid, src, dest, h, closed, det[n := x])
  {
    var det' := det[n := x];
    forall c | c in det' ensures Free(grid, c) && c != dest && GoodDetails(src, h, closed, det', c) {
      assert GoodDetails(src, h, closed, det, u);
      if c != n {
        assert GoodDetails(src, h, closed, det, c);
      }
    }
  }

  /** Lowering the cost of one open cell cannot undo an expansion. */
  lemma UpdateKeepsExpansions(grid: TileMap, dest: Cell, closed: set<Cell>, det: map<Cell, Details>, u: Cell, k: nat, n: Cell, x: Details)
    requires closed <= det.Keys && ClosedAreExpanded(grid, dest, closed, det, u, k) && k < 4
    requires u in closed && n == Neighbour(u, k) && n != dest && n !in closed
    requires n in det ==> x.g <= det[n].g
    requires x.g <= det[u].g + 1.0
    ensures ClosedAreExpanded(grid, dest, closed, det[n := x], u, k + 1)
  {
    forall c, i | c in closed && 0 <= i < (if c == u then k + 1 else 4)
      ensures Reached(grid, dest, det[n := x], c, Neighbour(c, i))
    {
      if c != u || i < k {
        assert Reached(grid, dest, det, c, Neighbour(c, i));
      }
    }
  }

  lemma UpdateKeepsSettled(grid: TileMap, src: Cell, closed: set<Cell>, det: map<Cell, Details>, n: Cell, x: Details)
    requires closed <= det.Keys && ClosedAreSettled(grid, src, closed, det) && n !in closed
    ensures ClosedAreSettled(grid, src, closed, det[n := x])
  {
    forall c | c in closed ensures Settled(grid, src, det[n := x], c) {
      assert Settled(grid, src, det, c);
    }
  }

  lemma UpdateKeepsOpen(closed: set<Cell>, det: map<Cell, Details>, open: set<Entry>, n: Cell, x: Details)
    requires OpenMatches(closed, det, open) && (n in det ==> det[n].f > x.f)
    ensures OpenMatches(closed, det[n := x], open + {Entry(x.f, n)})
  {
  }

  /** A cheaper way to an open neighbour is recorded without disturbing any closed cell. */
  lemma UpdateKeepsInv(grid: TileMap, src: Cell, dest: Cell, h: Cell -> real,
                       closed: set<Cell>, det: map<Cell, Details>, open: set<Entry>, u: Cell, k: nat, n: Cell, x: Details)
    requires SearchInv(grid, src, dest, h, closed, det, open, u, k) && k < 4 && u in closed
    requires n == Neighbour(u, k) && n != dest && Free(grid, n) && n !in closed
    requires x == Better(det, u, n, h(n)) && (n in det ==> det[n].f > x.f)
    requires x.g <= |closed| as real
    ensures SearchInv(grid, src, dest, h, closed, det[n := x], open + {Entry(x.f, n)}, u, k + 1)
  {
    assert n in det ==> x.g <= det[n].g by {
      if n in det {
        assert GoodDetails(src, h, closed, det, n);
      }
    }
    UpdateKeepsDetails(grid, src, dest, h, closed, det, u, n, x);
    UpdateKeepsExpansions(grid, dest, closed, det, u, k, n, x);
    UpdateKeepsSettled(grid, src, closed, det, n, x);
    UpdateKeepsOpen(closed, det, open, n, x);
  }

  /** Relaxing a cell that was expanded before never finds anything to improve. */
  lemma StaleCellChangesNothing(grid: TileMap, src: Cell, dest: Cell, h: Cell -> real,
                                closed: set<Cell>, det: map<Cell, Details>, open: set<Entry>, u: Cell, i: nat)
    requires SearchInv(grid, src, dest, h, closed, det, open, u, 4) && i < 4 && u in closed
    ensures var n := Neighbour(u, i);
      n != dest && (Free(grid, n) && n !in closed ==> n in det && det[n].f <= Better(det, u, n, h(n)).f)
  {
    var n := Neighbour(u, i);
    assert Reached(grid, dest, det, u, n);
    if n in det {
      assert GoodDetails(src, h, closed, det, n);
    }
  }

  // ----- The search itself -----

  /** The arrays hold exactly what the abstract search state says. */
  ghost predicate Holds(closedList: seq<bool>, cellDetails: seq<Details>, closed: set<Cell>, det: map<Cell, Details>) {
    && |closedList| == TILE_COUNT && |cellDetails| == TILE_COUNT
    && (forall c | c in closed || c in det :: Inside(c))
    && (forall c | Inside(c) :: closedList[Key(c)] <==> c in closed)
    && (forall c | Inside(c) :: if c in det then cellDetails[Key(c)] == det[c] && det[c].f < FLT_MAX
                                else cellDetails[Key(c)].f == FLT_MAX)
  }

  lemma HoldsAt(closedList: seq<bool>, cellDetails: seq<Details>, closed: set<Cell>, det: map<Cell, Details>, u: Cell)
    requires Holds(closedList, cellDetails, closed, det) && u in det
    ensures |closedList| == TILE_COUNT && |cellDetails| == TILE_COUNT
    ensures Inside(u) && cellDetails[Key(u)] == det[u]
  {
  }

  lemma HoldsAfterClosing(closedList: seq<bool>, cellDetails: seq<Details>, closed: set<Cell>, det: map<Cell, Details>, u: Cell)
    requires Holds(closedList, cellDetails, closed, det) && Inside(u)
    ensures Holds(closedList[Key(u) := true], cellDetails, closed + {u}, det)
  {
    forall c | Inside(c) ensures Key(c) == Key(u) <==> c == u {
      CellKeyIsInjective(c, u);
    }
  }

  lemma HoldsAfterUpdate(closedList: seq<bool>, cellDetails: seq<Details>, closed: set<Cell>, det: map<Cell, Details>,
                         n: Cell, x: Details)
    requires Holds(closedList, cellDetails, closed, det) && Inside(n) && x.f < FLT_MAX
    ensures Holds(closedList, cellDetails[Key(n) := x], closed, det[n := x])
  {
    forall c | Inside(c) ensures Key(c) == Key(n) <==> c == n {
      CellKeyIsInjective(c, n);
    }
  }

  /** Walks the parents back from the destination; the last cell pushed is the first to move to. */
  method GetFirstCell(cellDetails: array<Details>, dest: Cell, ghost route: seq<Cell>) returns (first: Cell)
    requires cellDetails.Length == TILE_COUNT
    requires |route| >= 2 && route[|route| - 1] == dest
    requires forall i | 0 <= i < |route| :: Inside(route[i])
    requires cellDetails[Key(route[0])].parent == route[0]
    requires forall i | 0 < i < |route| :: cellDetails[Key(route[i])].parent == route[i - 1] != route[i]
    ensures first == route[1]
  {
    var cell := dest;
    var path: seq<Cell> := [];
    while cellDetails[Key(cell)].parent != cell
      invariant |path| < |route| && cell == route[|route| - 1 - |path|]
      invariant |path| < |route| - 1 ==> cellDetails[Key(cell)].parent == route[|route| - 2 - |path|] != cell
      invariant forall j | 0 <= j < |path| :: path[j] == route[|route| - 1 - j]
      decreases |route| - |path|
    {
      path := path + [cell];
      cell := cellDetails[Key(cell)].parent;
    }
    first := path[|path| - 1];
  }

  /** Some route exists, `best` is its second cell, and no route is shorter. */
  ghost predicate FirstMoveOfShortest(grid: TileMap, src: Cell, dest: Cell, best: Cell) {
    exists p :: Route(grid, src, dest, p) && |p| >= 2 && p[1] == best
             && forall q | Route(grid, src, dest, q) :: |p| <= |q|
  }

  /** The inputs the search turns away before it starts. */
  predicate Rejected(grid: TileMap, src: Cell, dest: Cell) {
    !Inside(src) || !Inside(dest) || !Free(grid, src) || !Free(grid, dest) || src == dest
  }

  /** An open list that ran dry proves that there is no route at all. */
  lemma ExhaustedMeansUnreachable(grid: TileMap, src: Cell, dest: Cell, h: Cell -> real,
                                  closed: set<Cell>, det: map<Cell, Details>)
    requires SearchInv(grid, src, dest, h, closed, det, {}, src, 4)
    ensures !exists p :: Route(grid, src, dest, p)
  {
    if p :| Route(grid, src, dest, p) {
      assert dest !in det;
      var i := LeavesClosedRegion(grid, src, dest, h, closed, det, {}, dest, p);
      assert false;
    }
  }

  /** The early goal test is safe: when the cheapest open cell touches the goal, the route through it is shortest. */
  lemma GoalTestIsSafe(grid: TileMap, src: Cell, dest: Cell, h: Cell -> real,
                       closed: set<Cell>, det: map<Cell, Details>, open: set<Entry>, first: Entry, q: seq<Cell>)
    requires Consistent(h, dest) && SearchInv(grid, src, dest, h, closed, det, open, src, 4)
    requires IsFirst(open, first) && first.cell !in closed
    requires Adjacent(first.cell, dest) && Route(grid, src, dest, q)
    ensures det[first.cell].g + 2.0 <= |q| as real
  {
    CheapestIsSettled(grid, src, dest, h, closed, det, open, first);
    var v := q[|q| - 2];
    assert Adjacent(v, dest);
    RoutePrefix(grid, src, dest, q, |q| - 2);
    if v in closed {
      NextToClosed(grid, src, dest, h, closed, det, open, q[..|q| - 1], v, dest);
    }
    FirstEntryIsCheapest(grid, src, dest, h, closed, det, open, first, v, q[..|q| - 1]);
  }

  /** Whether the code updates neighbour `n` of `u`. */
  predicate Improves(grid: TileMap, h: Cell -> real, closedList: seq<bool>, cellDetails: seq<Details>, u: Cell, n: Cell)
    requires |closedList| == TILE_COUNT && |cellDetails| == TILE_COUNT && Inside(u)
  {
    && Inside(n) && !closedList[Key(n)] && Free(grid, n)
    && (cellDetails[Key(n)].f == FLT_MAX || cellDetails[Key(n)].f > cellDetails[Key(u)].g + 1.0 + h(n))
  }

  lemma ImprovementIsSound(grid: TileMap, src: Cell, dest: Cell, h: Cell -> real,
                           closedList: seq<bool>, cellDetails: seq<Details>, open: set<Entry>, u: Cell, k: nat,
                           closed: set<Cell>, det: map<Cell, Details>, stale: bool)
    requires Consistent(h, dest) && k < 4 && u in closed && Neighbour(u, k) != dest
    requires Holds(closedList, cellDetails, closed, det)
    requires SearchInv(grid, src, dest, h, closed, det, open, u, if stale then 4 else k)
    requires !stale ==> det[u].g + 1.0 <= |closed| as real
    requires Improves(grid, h, closedList, cellDetails, u, Neighbour(u, k))
    ensures !stale
    ensures var n := Neighbour(u, k); var x := Better(det, u, n, h(n));
      && Holds(closedList, cellDetails[Key(n) := x], closed, det[n := x])
      && SearchInv(grid, src, dest, h, closed, det[n := x], open + {Entry(x.f, n)}, u, k + 1)
  {
    var n := Neighbour(u, k);
    if stale {
      StaleCellChangesNothing(grid, src, dest, h, closed, det, open, u, k);
      assert false;
    }
    CellsAreFew(closed, TILE_COUNT);
    var x := Better(det, u, n, h(n));
    UpdateKeepsInv(grid, src, dest, h, closed, det, open, u, k, n, x);
    HoldsAfterUpdate(closedList, cellDetails, closed, det, n, x);
  }

  lemma NoImprovementIsSound(grid: TileMap, src: Cell, dest: Cell, h: Cell -> real,
                             closedList: seq<bool>, cellDetails: seq<Details>, open: set<Entry>, u: Cell, k: nat,
                             closed: set<Cell>, det: map<Cell, Details>)
    requires k < 4 && u in closed && Neighbour(u, k) != dest
    requires Holds(closedList, cellDetails, closed, det)
    requires SearchInv(grid, src, dest, h, closed, det, open, u, k)
    requires !Improves(grid, h, closedList, cellDetails, u, Neighbour(u, k))
    ensures SearchInv(grid, src, dest, h, closed, det, open, u, k + 1)
  {
    NoUpdateNeeded(grid, src, dest, h, closed, det, open, u, k);
  }

  method SetDetails(cellDetails: array<Details>, n: Cell, x: Details)
    requires cellDetails.Length == TILE_COUNT && Inside(n)
    modifies cellDetails
    ensures cellDetails[..] == old(cellDetails[..])[Key(n) := x]
  {
    cellDetails[Key(n)] := x;
  }

  /** Relaxes direction `k` out of `u`, as the body of the inner loop does when it is not at the goal. */
  method Relax(grid: TileMap, ghost src: Cell, dest: Cell, heuristic: Cell -> real,
               closedList: array<bool>, cellDetails: array<Details>, open: set<Entry>, u: Cell, k: nat,
               ghost closed: set<Cell>, ghost det: map<Cell, Details>, ghost stale: bool)
    returns (openNow: set<Entry>, ghost detNow: map<Cell, Details>)
    requires Consistent(heuristic, dest) && k < 4 && u in closed && Neighbour(u, k) != dest
    requires Holds(closedList[..], cellDetails[..], closed, det)
    requires SearchInv(grid, src, dest, heuristic, closed, det, open, u, if stale then 4 else k)
    requires !stale ==> det[u].g + 1.0 <= |closed| as real
    modifies cellDetails
    ensures Holds(closedList[..], cellDetails[..], closed, detNow)
    ensures SearchInv(grid, src, dest, heuristic, closed, detNow, openNow, u, if stale then 4 else k + 1)
    ensures u in detNow && det[u] == detNow[u]
    ensures stale ==> openNow == open
  {
    hide DetailsAreGood, ClosedAreSettled, ClosedAreExpanded, OpenMatches, Holds, Consistent;
    openNow, detNow := open, det;
    HoldsAt(closedList[..], cellDetails[..], closed, det, u);
    var n := Neighbour(u, k);
    if Inside(n) && !closedList[Key(n)] && Free(grid, n) {
      var gNew := cellDetails[Key(u)].g + 1.0;
      var hNew := heuristic(n);
      var fNew := gNew + hNew;
      if cellDetails[Key(n)].f == FLT_MAX || cellDetails[Key(n)].f > fNew {
        var x := Details(u, fNew, gNew, hNew);
        assert x == Better(det, u, n, hNew);
        ImprovementIsSound(grid, src, dest, heuristic, closedList[..], cellDetails[..], open, u, k, closed, det, stale);
        openNow, detNow := open + {Entry(fNew, n)}, det[n := x];
        SetDetails(cellDetails, n, x);
        return;
      }
    }
    if !stale {
      NoImprovementIsSound(grid, src, dest, heuristic, closedList[..], cellDetails[..], open, u, k, closed, det);
    }
  }

  /** The first open entry, which std::set keeps in front. */
  method TakeFirst(open: set<Entry>) returns (first: Entry)
    requires open != {}
    ensures IsFirst(open, first)
  {
    ghost var witnessed := FirstExists(open);
    first :| first in open && forall x | x in open :: !Before(x, first);
  }

  /** The state just before the first iteration. */
  ghost predicate AtStart(src: Cell, closed: set<Cell>, det: map<Cell, Details>, open: set<Entry>) {
    closed == {} && det == map[src := Details(src, 0.0, 0.0, 0.0)] && open == {Entry(0.0, src)}
  }

  lemma CloseSource(grid: TileMap, src: Cell, dest: Cell, h: Cell -> real, det: map<Cell, Details>)
    requires det == map[src := Details(src, 0.0, 0.0, 0.0)] && Free(grid, src) && src != dest
    ensures SearchInv(grid, src, dest, h, {src}, det, {}, src, 0)
  {
    assert |{src}| == 1;
  }

  /** What closing the first entry establishes, on the first iteration and on every later one. */
  lemma OpenNextCell(grid: TileMap, src: Cell, dest: Cell, h: Cell -> real,
                     closed: set<Cell>, det: map<Cell, Details>, open: set<Entry>, first: Entry)
    requires Consistent(h, dest) && Free(grid, src) && Free(grid, dest) && src != dest
    requires AtStart(src, closed, det, open) || SearchInv(grid, src, dest, h, closed, det, open, src, 4)
    requires IsFirst(open, first)
    ensures first.cell in det && Inside(first.cell)
    ensures var stale := first.cell in closed; var u := first.cell;
      && SearchInv(grid, src, dest, h, closed + {u}, det, open - {first}, u, if stale then 4 else 0)
      && (!stale ==> det[u].g + 1.0 <= |closed + {u}| as real)
  {
    var u := first.cell;
    if AtStart(src, closed, det, open) {
      CloseSource(grid, src, dest, h, det);
      assert closed + {u} == {src} && open - {first} == {};
    } else if u in closed {
      assert closed + {u} == closed;
    } else {
      CloseCell(grid, src, dest, h, closed, det, open, first);
      assert GoodDetails(src, h, closed, det, u);
    }
  }

  /** No route to the destination takes fewer than `g` + 1 moves. */
  ghost predicate NoShorterThan(grid: TileMap, src: Cell, dest: Cell, g: real) {
    forall q | Route(grid, src, dest, q) :: g + 2.0 <= |q| as real
  }

  /** At the goal test, no route to the destination is shorter than one move beyond the first entry. */
  lemma GoalTestIsShortest(grid: TileMap, src: Cell, dest: Cell, h: Cell -> real,
                           closed: set<Cell>, det: map<Cell, Details>, open: set<Entry>, first: Entry)
    requires Consistent(h, dest) && Free(grid, src) && Free(grid, dest) && src != dest
    requires AtStart(src, closed, det, open) || SearchInv(grid, src, dest, h, closed, det, open, src, 4)
    requires IsFirst(open, first) && Adjacent(first.cell, dest)
    ensures NoShorterThan(grid, src, dest, det[first.cell].g)
  {
    if !AtStart(src, closed, det, open) {
      var k := AdjacentDirection(first.cell, dest);
      assert first.cell !in closed || Reached(grid, dest, det, first.cell, Neighbour(first.cell, k));
      forall q | Route(grid, src, dest, q) ensures det[first.cell].g + 2.0 <= |q| as real {
        GoalTestIsSafe(grid, src, dest, h, closed, det, open, first, q);
      }
    }
  }

  /** The destination found next to `u`: the parent chain of `u` plus one move is a shortest route. */
  lemma GoalFound(grid: TileMap, src: Cell, dest: Cell, h: Cell -> real,
                  closed: set<Cell>, det: map<Cell, Details>, open: set<Entry>, u: Cell, k: nat,
                  closedList: seq<bool>, cellDetails: seq<Details>) returns (route: seq<Cell>)
    requires SearchInv(grid, src, dest, h, closed, det, open, u, k) && u in closed
    requires Holds(closedList, cellDetails, closed, det)
    requires Adjacent(u, dest) && Free(grid, dest)
    requires NoShorterThan(grid, src, dest, det[u].g)
    ensures Route(grid, src, dest, route) && |route| >= 2
    ensures forall q | Route(grid, src, dest, q) :: |route| <= |q|
    ensures route[|route| - 2] == u
    ensures cellDetails[Key(src)].parent == src
    ensures forall i | 0 <= i < |route| - 1 :: Inside(route[i]) && route[i] != dest
    ensures forall i | 0 < i < |route| - 1 :: cellDetails[Key(route[i])].parent == route[i - 1] != route[i]
  {
    var p := ParentChain(grid, src, dest, h, closed, det, u);
    RouteExtended(grid, src, u, p, dest);
    assert GoodDetails(src, h, closed, det, src);
    route := p + [dest];
  }

  /** Sets the parent of the destination and walks back to the first move. */
  method FinishAtGoal(grid: TileMap, src: Cell, dest: Cell, cellDetails: array<Details>, u: Cell, ghost route: seq<Cell>)
    returns (best: Cell)
    requires cellDetails.Length == TILE_COUNT
    requires Route(grid, src, dest, route) && |route| >= 2 && route[|route| - 2] == u
    requires forall q | Route(grid, src, dest, q) :: |route| <= |q|
    requires cellDetails[Key(src)].parent == src
    requires forall i | 0 <= i < |route| - 1 :: Inside(route[i]) && route[i] != dest
    requires forall i | 0 < i < |route| - 1 :: cellDetails[Key(route[i])].parent == route[i - 1] != route[i]
    modifies cellDetails
    ensures best != NO_CELL && FirstMoveOfShortest(grid, src, dest, best)
  {
    var x := cellDetails[Key(dest)];
    ghost var before := cellDetails[..];
    SetDetails(cellDetails, dest, x.(parent := u));
    forall i | 0 <= i < |route| - 1 ensures cellDetails[Key(route[i])] == before[Key(route[i])] {
      CellKeyIsInjective(route[i], dest);
    }
    best := GetFirstCell(cellDetails, dest, route);
    assert Free(grid, route[1]);
  }

  method ReachGoal(grid: TileMap, src: Cell, dest: Cell, ghost h: Cell -> real, ghost closedList: seq<bool>,
                   cellDetails: array<Details>, u: Cell, ghost k: nat,
                   ghost closed: set<Cell>, ghost det: map<Cell, Details>, ghost open: set<Entry>) returns (best: Cell)
    requires SearchInv(grid, src, dest, h, closed, det, open, u, k) && u in closed
    requires Holds(closedList, cellDetails[..], closed, det)
    requires Adjacent(u, dest) && Free(grid, dest) && NoShorterThan(grid, src, dest, det[u].g)
    modifies cellDetails
    ensures best != NO_CELL && FirstMoveOfShortest(grid, src, dest, best)
  {
    ghost var route := GoalFound(grid, src, dest, h, closed, det, open, u, k, closedList, cellDetails[..]);
    best := FinishAtGoal(grid, src, dest, cellDetails, u, route);
  }

  /** The body of the main loop: closes the first open cell and tries its four neighbours. */
  method Expand(grid: TileMap, src: Cell, dest: Cell, heuristic: Cell -> real,
                closedList: array<bool>, cellDetails: array<Details>, open: set<Entry>, first: Entry,
                ghost closed: set<Cell>, ghost det: map<Cell, Details>)
    returns (found: bool, best: Cell, openNow: set<Entry>, ghost closedNow: set<Cell>, ghost detNow: map<Cell, Details>)
    requires Consistent(heuristic, dest) && Free(grid, src) && Free(grid, dest) && src != dest
    requires Holds(closedList[..], cellDetails[..], closed, det)
    requires AtStart(src, closed, det, open) || SearchInv(grid, src, dest, heuristic, closed, det, open, src, 4)
    requires IsFirst(open, first)
    modifies closedList, cellDetails
    ensures found ==> best != NO_CELL && FirstMoveOfShortest(grid, src, dest, best)
    ensures !found ==> Holds(closedList[..], cellDetails[..], closedNow, detNow)
    ensures !found ==> SearchInv(grid, src, dest, heuristic, closedNow, detNow, openNow, first.cell, 4)
    ensures closedNow == closed + {first.cell}
    ensures first.cell in closed && !found ==> openNow == open - {first}
  {
    hide SearchInv, Holds, IsFirst, NoShorterThan, Consistent;
    var u := first.cell;
    ghost var stale := u in closed;
    if Adjacent(u, dest) {
      GoalTestIsShortest(grid, src, dest, heuristic, closed, det, open, first);
    }
    OpenNextCell(grid, src, dest, heuristic, closed, det, open, first);
    HoldsAt(closedList[..], cellDetails[..], closed, det, u);
    HoldsAfterClosing(closedList[..], cellDetails[..], closed, det, u);
    openNow, best, closedNow, detNow := open - {first}, NO_CELL, closed + {u}, det;
    MarkClosed(closedList, u);
    for k := 0 to 4
      invariant Holds(closedList[..], cellDetails[..], closedNow, detNow)
      invariant SearchInv(grid, src, dest, heuristic, closedNow, detNow, openNow, u, if stale then 4 else k)
      invariant u in detNow && detNow[u] == det[u]
      invariant stale ==> openNow == open - {first}
    {
      if Neighbour(u, k) == dest {
        best := ReachGoal(grid, src, dest, heuristic, closedList[..], cellDetails, u, if stale then 4 else k,
                          closedNow, detNow, openNow);
        return true, best, openNow, closedNow, detNow;
      }
      openNow, detNow := Relax(grid, src, dest, heuristic, closedList, cellDetails, openNow, u, k, closedNow, detNow, stale);
    }
    found := false;
  }

  lemma AnyCellExpanded(grid: TileMap, src: Cell, dest: Cell, h: Cell -> real,
                        closed: set<Cell>, det: map<Cell, Details>, open: set<Entry>, u: Cell)
    requires SearchInv(grid, src, dest, h, closed, det, open, u, 4)
    ensures SearchInv(grid, src, dest, h, closed, det, open, src, 4)
  {
  }

  method MarkClosed(closedList: array<bool>, u: Cell)
    requires closedList.Length == TILE_COUNT && Inside(u)
    modifies closedList
    ensures closedList[..] == old(closedList[..])[Key(u) := true]
  {
    closedList[Key(u)] := true;
  }

  /** Source and destination are free and distinct: the part of the search after the input checks. */
  method Search(grid: TileMap, src: Cell, dest: Cell, heuristic: Cell -> real) returns (best: Cell)
    requires Consistent(heuristic, dest) && !Rejected(grid, src, dest)
    ensures best == NO_CELL ==> !exists p :: Route(grid, src, dest, p)
    ensures best != NO_CELL ==> FirstMoveOfShortest(grid, src, dest, best)
  {
    var closedList := new bool[TILE_COUNT](_ => false);
    var cellDetails := new Details[TILE_COUNT](_ => Details(NO_CELL, FLT_MAX, FLT_MAX, FLT_MAX));
    ghost var closed: set<Cell>, det: map<Cell, Details> := {}, map[];
    assert Holds(closedList[..], cellDetails[..], closed, det);
    HoldsAfterUpdate(closedList[..], cellDetails[..], closed, det, src, Details(src, 0.0, 0.0, 0.0));
    SetDetails(cellDetails, src, Details(src, 0.0, 0.0, 0.0));
    det := map[src := Details(src, 0.0, 0.0, 0.0)];
    var open := {Entry(0.0, src)};

    hide DetailsAreGood, ClosedAreSettled, ClosedAreExpanded, OpenMatches, Consistent, Holds;
    while open != {}
      invariant fresh(closedList) && fresh(cellDetails)
      invariant Holds(closedList[..], cellDetails[..], closed, det)
      invariant AtStart(src, closed, det, open) || SearchInv(grid, src, dest, heuristic, closed, det, open, src, 4)
      invariant |closed| <= TILE_COUNT
      decreases TILE_COUNT - |closed|, |open|
    {
      var first := TakeFirst(open);
      ghost var closedNow, detNow;
      var found, openNow;
      found, best, openNow, closedNow, detNow :=
        Expand(grid, src, dest, heuristic, closedList, cellDetails, open, first, closed, det);
      if found {
        return;
      }
      AnyCellExpanded(grid, src, dest, heuristic, closedNow, detNow, openNow, first.cell);
      CellsAreFew(closedNow, TILE_COUNT);
      Progress(closed, closedNow, open, openNow, first);
      open, closed, det := openNow, closedNow, detNow;
    }
    ExhaustedMeansUnreachable(grid, src, dest, heuristic, closed, det);
    best := NO_CELL;
  }

  /** Each iteration closes a new cell, or drops a stale entry. */
  lemma Progress(closed: set<Cell>, closedNow: set<Cell>, open: set<Entry>, openNow: set<Entry>, first: Entry)
    requires first in open && closedNow == closed + {first.cell}
    requires first.cell in closed ==> openNow == open - {first}
    ensures |closedNow| == |closed| + 1 || (closedNow == closed && |openNow| < |open|)
  {
    if first.cell in closed {
      assert closedNow == closed;
    }
  }

  /**
   * A* with a straight-line heuristic, stale open entries and an early goal test. It reports failure
   * exactly when the input is rejected or no route exists, and otherwise the first move of a shortest route.
   */
  method FindBestCell(grid: TileMap, src: Cell, dest: Cell, heuristic: Cell -> real) returns (best: Cell)
    requires StraightLine(heuristic, dest)
    ensures best == NO_CELL <==> Rejected(grid, src, dest) || !exists p :: Route(grid, src, dest, p)
    ensures best != NO_CELL ==> FirstMoveOfShortest(grid, src, dest, best)
  {
    if !Inside(src) || !Inside(dest) {
      return NO_CELL;
    }
    if !Free(grid, src) || !Free(grid, dest) {
      return NO_CELL;
    }
    if src == dest {
      return NO_CELL;
    }
    StraightLineIsConsistent(heuristic, dest);
    best := Search(grid, src, dest, heuristic);
  }
}
