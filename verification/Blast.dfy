/** The footprint of one detonation (Server/ServerBombs.cpp): four rays stopped by stone and by the first brick. */
module Blast {
  import opened Utils
  import opened Tiles

  const MAX_BLAST_CELLS := 121

  /** The code's four directions, in propagation order. */
  function DirX(d: nat): int {
    if d == 0 then 1 else if d == 1 then -1 else 0
  }

  function DirY(d: nat): int {
    if d == 2 then 1 else if d == 3 then -1 else 0
  }

  function Along(origin: Cell, d: nat, step: int): Cell {
    Cell(origin.col + DirX(d) * step, origin.row + DirY(d) * step)
  }

  function TileAt(m: TileMap, c: Cell): Tile
    requires Inside(c)
  {
    At(m, c.col, c.row)
  }

  predicate StopsBefore(m: TileMap, c: Cell) {
    !Inside(c) || TileAt(m, c) == Stone
  }

  /** The cells one ray burns from `step` on. */
  function Ray(m: TileMap, origin: Cell, d: nat, radius: nat, step: nat): (cells: seq<Cell>)
    requires step >= 1
    decreases radius + 1 - step
  {
    if step > radius then []
    else
      var c := Along(origin, d, step);
      if StopsBefore(m, c) then []
      else if TileAt(m, c) == Brick then [c]
      else [c] + Ray(m, origin, d, radius, step + 1)
  }

  /** The whole footprint in propagation order. */
  function BlastCells(m: TileMap, origin: Cell, radius: nat): seq<Cell> {
    [origin] + Ray(m, origin, 0, radius, 1) + Ray(m, origin, 1, radius, 1)
             + Ray(m, origin, 2, radius, 1) + Ray(m, origin, 3, radius, 1)
  }

  /** The brick that stopped one ray, if any. */
  function RayBrick(m: TileMap, origin: Cell, d: nat, radius: nat): seq<Cell> {
    var r := Ray(m, origin, d, radius, 1);
    if r != [] && Inside(r[|r| - 1]) && TileAt(m, r[|r| - 1]) == Brick then [r[|r| - 1]] else []
  }

  /** The bricks one detonation breaks. */
  function BrokenBricks(m: TileMap, origin: Cell, radius: nat): seq<Cell> {
    RayBrick(m, origin, 0, radius) + RayBrick(m, origin, 1, radius)
    + RayBrick(m, origin, 2, radius) + RayBrick(m, origin, 3, radius)
  }

  // ----- Line of sight: the reference definition -----

  /** Nothing strictly between the origin and `step` blocks the ray. */
  ghost predicate ClearUpTo(m: TileMap, origin: Cell, d: nat, from: nat, step: nat) {
    forall s: nat | from <= s < step :: !StopsBefore(m, Along(origin, d, s)) && TileAt(m, Along(origin, d, s)) != Brick
  }

  /** Cell number `step` of direction d is in reach of the blast. */
  ghost predicate InSight(m: TileMap, origin: Cell, d: nat, radius: nat, step: nat) {
    1 <= step <= radius && ClearUpTo(m, origin, d, 1, step) && !StopsBefore(m, Along(origin, d, step))
  }

  lemma {:induction false} RayCells(m: TileMap, origin: Cell, d: nat, radius: nat, step: nat)
    requires d < 4 && step >= 1
    ensures var r := Ray(m, origin, d, radius, step);
      && (forall i | 0 <= i < |r| :: r[i] == Along(origin, d, step + i) && Inside(r[i]) && TileAt(m, r[i]) != Stone)
      && (forall i | 0 <= i < |r| - 1 :: TileAt(m, r[i]) != Brick)
      && (|r| == 0 || step + |r| - 1 <= radius)
      && (step + |r| > radius || (|r| > 0 && TileAt(m, r[|r| - 1]) == Brick) || StopsBefore(m, Along(origin, d, step + |r|)))
    decreases radius + 1 - step
  {
    hide Along;
    if step <= radius && !StopsBefore(m, Along(origin, d, step)) && TileAt(m, Along(origin, d, step)) != Brick {
      RayCells(m, origin, d, radius, step + 1);
      var r, rest := Ray(m, origin, d, radius, step), Ray(m, origin, d, radius, step + 1);
      assert r == [Along(origin, d, step)] + rest;
    }
  }

  /** A ray burns exactly the cells in sight. */
  lemma RayIsLineOfSight(m: TileMap, origin: Cell, d: nat, radius: nat, step: nat)
    requires d < 4 && step >= 1
    ensures InSight(m, origin, d, radius, step) <==> step <= |Ray(m, origin, d, radius, 1)|
  {
    var r := Ray(m, origin, d, radius, 1);
    RayCells(m, origin, d, radius, 1);
    assert |r| > 0 ==> r[|r| - 1] == Along(origin, d, |r|);
    if step <= |r| {
      assert r[step - 1] == Along(origin, d, step);
      forall s: nat | 1 <= s < step
        ensures !StopsBefore(m, Along(origin, d, s)) && TileAt(m, Along(origin, d, s)) != Brick
      {
        assert r[s - 1] == Along(origin, d, s);
      }
    }
  }

  /** The footprint as a set, from first principles: the origin and everything in sight. */
  ghost predicate Burns(m: TileMap, origin: Cell, radius: nat, c: Cell) {
    c == origin || exists d, step: nat :: 0 <= d < 4 && InSight(m, origin, d, radius, step) && c == Along(origin, d, step)
  }

  lemma BlastIsLineOfSight(m: TileMap, origin: Cell, radius: nat, c: Cell)
    ensures c in BlastCells(m, origin, radius) <==> Burns(m, origin, radius, c)
  {
    forall d: nat | d < 4
      ensures c in Ray(m, origin, d, radius, 1) <==> exists step: nat :: InSight(m, origin, d, radius, step) && c == Along(origin, d, step)
    {
      var r := Ray(m, origin, d, radius, 1);
      RayCells(m, origin, d, radius, 1);
      forall step: nat | step >= 1 ensures InSight(m, origin, d, radius, step) <==> step <= |r| {
        RayIsLineOfSight(m, origin, d, radius, step);
      }
      if c in r {
        var i :| 0 <= i < |r| && r[i] == c;
        assert InSight(m, origin, d, radius, i + 1);
      }
      if step: nat :| InSight(m, origin, d, radius, step) && c == Along(origin, d, step) {
        assert r[step - 1] == c;
      }
    }
  }

  // ----- The footprint on the grid -----

  /**
   * The footprint by columns and rows: the bomb's own cell, and every cell of its row or column at distance one to
   * the radius that is on the map and not stone, with nothing but free cells strictly in between.
   */
  ghost predicate Footprint(m: TileMap, origin: Cell, radius: nat, c: Cell) {
    || (c.col == origin.col && c.row == origin.row)
    || (&& 0 <= c.col < 31 && 0 <= c.row < 13 && m[31 * c.row + c.col] != Stone
        && (|| (c.row == origin.row && origin.col < c.col <= origin.col + radius
                && forall col | origin.col < col < c.col :: LetsThrough(m, col, c.row))
            || (c.row == origin.row && origin.col - radius <= c.col < origin.col
                && forall col | c.col < col < origin.col :: LetsThrough(m, col, c.row))
            || (c.col == origin.col && origin.row < c.row <= origin.row + radius
                && forall row | origin.row < row < c.row :: LetsThrough(m, c.col, row))
            || (c.col == origin.col && origin.row - radius <= c.row < origin.row
                && forall row | c.row < row < origin.row :: LetsThrough(m, c.col, row))))
  }

  lemma SightOnTheGrid(m: TileMap, origin: Cell, radius: nat, d: nat, step: nat)
    requires d < 4 && InSight(m, origin, d, radius, step)
    ensures Footprint(m, origin, radius, Along(origin, d, step))
  {
    var c := Along(origin, d, step);
    forall col | (origin.col < col < c.col || c.col < col < origin.col) && c.row == origin.row
      ensures LetsThrough(m, col, c.row)
    {
      var s: nat := if origin.col < col then col - origin.col else origin.col - col;
      assert Along(origin, d, s) == Cell(col, c.row);
    }
    forall row | (origin.row < row < c.row || c.row < row < origin.row) && c.col == origin.col
      ensures LetsThrough(m, c.col, row)
    {
      var s: nat := if origin.row < row then row - origin.row else origin.row - row;
      assert Along(origin, d, s) == Cell(c.col, row);
    }
  }

  lemma GridInSight(m: TileMap, origin: Cell, radius: nat, c: Cell) returns (d: nat, step: nat)
    requires Footprint(m, origin, radius, c) && c != origin
    ensures d < 4 && InSight(m, origin, d, radius, step) && c == Along(origin, d, step)
  {
    if c.row == origin.row {
      d, step := if origin.col < c.col then 0 else 1, if origin.col < c.col then c.col - origin.col else origin.col - c.col;
    } else {
      d, step := if origin.row < c.row then 2 else 3, if origin.row < c.row then c.row - origin.row else origin.row - c.row;
    }
    forall s: nat | 1 <= s < step
      ensures !StopsBefore(m, Along(origin, d, s)) && TileAt(m, Along(origin, d, s)) != Brick
    {
      var b := Along(origin, d, s);
      assert LetsThrough(m, b.col, b.row);
    }
  }

  /** The blast burns exactly its footprint on the grid. */
  lemma BlastIsTheFootprint(m: TileMap, origin: Cell, radius: nat, c: Cell)
    ensures c in BlastCells(m, origin, radius) <==> Footprint(m, origin, radius, c)
  {
    BlastIsLineOfSight(m, origin, radius, c);
    hide BlastCells;
    if Burns(m, origin, radius, c) && c != origin {
      var d: nat, step: nat :| d < 4 && InSight(m, origin, d, radius, step) && c == Along(origin, d, step);
      hide InSight, Footprint;
      SightOnTheGrid(m, origin, radius, d, step);
    }
    if Footprint(m, origin, radius, c) && c != origin {
      hide InSight, Footprint;
      var d, step := GridInSight(m, origin, radius, c);
    }
  }

  /** The bricks a blast breaks are the bricks of its footprint, the bomb's own cell aside. */
  lemma BrokenOnTheGrid(m: TileMap, origin: Cell, radius: nat, c: Cell)
    ensures c in BrokenBricks(m, origin, radius) <==>
      && c != origin && Footprint(m, origin, radius, c)
      && 0 <= c.col < 31 && 0 <= c.row < 13 && m[31 * c.row + c.col] == Brick
  {
    BrokenBricksAreTheBurnedOnes(m, origin, radius, c);
    BlastIsTheFootprint(m, origin, radius, c);
    hide BrokenBricks, BlastCells, Footprint;
  }

  lemma RayBrickIsTheBurnedOne(m: TileMap, origin: Cell, d: nat, radius: nat, c: Cell)
    requires d < 4
    ensures c in RayBrick(m, origin, d, radius)
        <==> c in Ray(m, origin, d, radius, 1) && Inside(c) && TileAt(m, c) == Brick
    ensures c in Ray(m, origin, d, radius, 1) ==> c != origin && Inside(c)
  {
    hide Ray;
    RayCells(m, origin, d, radius, 1);
  }

  /** Broken bricks are exactly the burned bricks, the cell under the bomb aside. */
  lemma BrokenBricksAreTheBurnedOnes(m: TileMap, origin: Cell, radius: nat, c: Cell)
    ensures c in BrokenBricks(m, origin, radius)
        <==> c != origin && c in BlastCells(m, origin, radius) && Inside(c) && TileAt(m, c) == Brick
  {
    hide Ray, RayBrick;
    RayBrickIsTheBurnedOne(m, origin, 0, radius, c);
    RayBrickIsTheBurnedOne(m, origin, 1, radius, c);
    RayBrickIsTheBurnedOne(m, origin, 2, radius, c);
    RayBrickIsTheBurnedOne(m, origin, 3, radius, c);
  }

  // ----- No cell twice, and everything fits the message -----

  /** Each cell of `cells` lies at a positive distance along some direction below d. */
  ghost predicate FromEarlierRays(origin: Cell, d: nat, cells: seq<Cell>) {
    forall i | 0 <= i < |cells| :: cells[i] == origin || exists e, t: nat :: 0 <= e < d && t >= 1 && cells[i] == Along(origin, e, t)
  }

  lemma RayIsShort(m: TileMap, origin: Cell, d: nat, radius: nat)
    requires d < 4 && Inside(origin)
    ensures |Ray(m, origin, d, radius, 1)| <= 30
  {
    var r := Ray(m, origin, d, radius, 1);
    RayCells(m, origin, d, radius, 1);
    if |r| > 0 {
      assert Inside(r[|r| - 1]) && r[|r| - 1] == Along(origin, d, |r|);
    }
  }

  /** A footprint extended by the next ray stays free of repetitions. */
  lemma RayExtendsDistinct(m: TileMap, origin: Cell, d: nat, radius: nat, cells: seq<Cell>)
    requires d < 4 && Distinct(cells) && FromEarlierRays(origin, d, cells)
    ensures Distinct(cells + Ray(m, origin, d, radius, 1))
    ensures FromEarlierRays(origin, d + 1, cells + Ray(m, origin, d, radius, 1))
  {
    hide Ray;
    var r := Ray(m, origin, d, radius, 1);
    RayCells(m, origin, d, radius, 1);
    var all := cells + r;
    forall i, j | 0 <= i < j < |all| ensures all[i] != all[j] {
      if j >= |cells| {
        assert all[j] == Along(origin, d, j - |cells| + 1);
        if i >= |cells| {
          assert all[i] == Along(origin, d, i - |cells| + 1);
        }
      }
    }
    forall i | 0 <= i < |all|
      ensures all[i] == origin || exists e, t: nat :: 0 <= e < d + 1 && t >= 1 && all[i] == Along(origin, e, t)
    {
      if i >= |cells| {
        assert all[i] == Along(origin, d, i - |cells| + 1);
      }
    }
  }

  /** The footprint lists no cell twice, starts at the origin, stays on the map and fits the message. */
  lemma BlastIsWellFormed(m: TileMap, origin: Cell, radius: nat)
    requires Inside(origin)
    ensures var cells := BlastCells(m, origin, radius);
      && Distinct(cells) && cells[0] == origin && |cells| <= MAX_BLAST_CELLS
      && forall i | 0 <= i < |cells| :: Inside(cells[i])
    ensures var bricks := BrokenBricks(m, origin, radius);
      Distinct(bricks) && |bricks| <= 4
  {
    var c0 := [origin];
    var c1 := c0 + Ray(m, origin, 0, radius, 1);
    var c2 := c1 + Ray(m, origin, 1, radius, 1);
    var c3 := c2 + Ray(m, origin, 2, radius, 1);
    RayExtendsDistinct(m, origin, 0, radius, c0);
    RayExtendsDistinct(m, origin, 1, radius, c1);
    RayExtendsDistinct(m, origin, 2, radius, c2);
    RayExtendsDistinct(m, origin, 3, radius, c3);
    forall d: nat | d < 4
      ensures |Ray(m, origin, d, radius, 1)| <= 30
      ensures forall i | 0 <= i < |Ray(m, origin, d, radius, 1)| :: Inside(Ray(m, origin, d, radius, 1)[i])
    {
      RayIsShort(m, origin, d, radius);
      RayCells(m, origin, d, radius, 1);
    }
    BricksAreDistinct(m, origin, radius);
  }

  /** The brick of a ray, if it has one, lies along its own direction. */
  lemma RayBrickIsAlong(m: TileMap, origin: Cell, d: nat, radius: nat)
    requires d < 4
    ensures var b := RayBrick(m, origin, d, radius);
      b == [] || (|b| == 1 && exists t: nat :: t >= 1 && b[0] == Along(origin, d, t))
  {
    hide Ray;
    RayCells(m, origin, d, radius, 1);
  }

  lemma BrickOfNextRay(m: TileMap, origin: Cell, d: nat, radius: nat, bricks: seq<Cell>)
    requires d < 4 && Distinct(bricks) && |bricks| <= d && FromEarlierRays(origin, d, bricks)
    ensures var all := bricks + RayBrick(m, origin, d, radius);
      Distinct(all) && |all| <= d + 1 && FromEarlierRays(origin, d + 1, all)
  {
    hide RayBrick;
    RayBrickIsAlong(m, origin, d, radius);
    var b := RayBrick(m, origin, d, radius);
    if b != [] {
      var t: nat :| t >= 1 && b[0] == Along(origin, d, t);
      forall i | 0 <= i < |bricks| ensures bricks[i] != b[0] {
      }
    }
  }

  lemma BricksAreDistinct(m: TileMap, origin: Cell, radius: nat)
    ensures Distinct(BrokenBricks(m, origin, radius)) && |BrokenBricks(m, origin, radius)| <= 4
  {
    hide RayBrick, Distinct, FromEarlierRays;
    EmptyIsDistinct(origin);
    var b1 := [] + RayBrick(m, origin, 0, radius);
    var b2 := b1 + RayBrick(m, origin, 1, radius);
    var b3 := b2 + RayBrick(m, origin, 2, radius);
    BrickOfNextRay(m, origin, 0, radius, []);
    BrickOfNextRay(m, origin, 1, radius, b1);
    BrickOfNextRay(m, origin, 2, radius, b2);
    BrickOfNextRay(m, origin, 3, radius, b3);
    assert b1 == RayBrick(m, origin, 0, radius);
  }

  lemma EmptyIsDistinct(origin: Cell)
    ensures Distinct<Cell>([]) && FromEarlierRays(origin, 0, [])
  {
  }

  // ----- The code -----

  /** Appends a cell unless it is already listed or the buffer is full. */
  method AppendUniqueBlastCell(cells: seq<Cell>, c: Cell) returns (r: seq<Cell>)
    ensures r == if c in cells || |cells| >= MAX_BLAST_CELLS then cells else cells + [c]
  {
    for i := 0 to |cells|
      invariant c !in cells[..i]
    {
      if cells[i] == c {
        return cells;
      }
    }
    assert cells[..|cells|] == cells;
    r := if |cells| < MAX_BLAST_CELLS then cells + [c] else cells;
  }

  /** Follows one direction until something stops it. Neither guard of the buffers ever drops a cell. */
  method FollowRay(m: TileMap, origin: Cell, radius: nat, d: nat, cells: seq<Cell>, bricks: seq<Cell>)
    returns (outCells: seq<Cell>, outBricks: seq<Cell>)
    requires d < 4 && Inside(origin) && |cells| <= 1 + 30 * d && |bricks| <= d
    requires FromEarlierRays(origin, d, cells)
    ensures outCells == cells + Ray(m, origin, d, radius, 1)
    ensures outBricks == bricks + RayBrick(m, origin, d, radius)
  {
    hide Ray, FromEarlierRays, Along;
    ghost var ray := Ray(m, origin, d, radius, 1);
    RayCells(m, origin, d, radius, 1);
    RayIsShort(m, origin, d, radius);
    outCells, outBricks := cells, bricks;
    var step := 1;
    while step <= radius
      invariant 1 <= step <= radius + 1 && step - 1 <= |ray|
      invariant outCells == cells + ray[..step - 1] && outBricks == bricks
      invariant step > 1 ==> TileAt(m, ray[step - 2]) != Brick
    {
      var c := Along(origin, d, step);
      assert step - 1 < |ray| ==> ray[step - 1] == c;
      if !Inside(c) {
        assert ray[..step - 1] == ray;
        return;
      }
      var tile := TileAt(m, c);
      if tile == Stone {
        assert ray[..step - 1] == ray;
        return;
      }
      NotYetListed(origin, d, step, cells, outCells, ray);
      outCells := AppendUniqueBlastCell(outCells, c);
      if tile == Brick {
        if |outBricks| < MAX_BLAST_CELLS - 1 {
          outBricks := outBricks + [c];
        }
        assert ray[..step] == ray;
        return;
      }
      step := step + 1;
    }
    assert ray[..step - 1] == ray;
  }

  lemma NotYetListed(origin: Cell, d: nat, step: nat, cells: seq<Cell>, listed: seq<Cell>, ray: seq<Cell>)
    requires d < 4 && 1 <= step <= |ray| && FromEarlierRays(origin, d, cells) && listed == cells + ray[..step - 1]
    requires forall i | 0 <= i < |ray| :: ray[i] == Along(origin, d, i + 1)
    ensures Along(origin, d, step) !in listed
  {
    forall i | 0 <= i < |listed| ensures listed[i] != Along(origin, d, step) {
      if i >= |cells| {
        assert listed[i] == ray[i - |cells|];
      }
    }
  }

  /** Computes the blast cells and the broken bricks of one detonation. */
  method ComputeBlastCellsAndCollectDestroyedBricks(m: TileMap, origin: Cell, radius: nat)
    returns (cells: seq<Cell>, bricks: seq<Cell>)
    requires Inside(origin)
    ensures cells == BlastCells(m, origin, radius)
    ensures bricks == BrokenBricks(m, origin, radius)
  {
    hide Ray, RayBrick, FromEarlierRays;
    cells := AppendUniqueBlastCell([], origin);
    assert cells == [origin];
    bricks := [];
    EarlierRays(m, origin, radius);
    cells, bricks := FollowRay(m, origin, radius, 0, cells, bricks);
    cells, bricks := FollowRay(m, origin, radius, 1, cells, bricks);
    cells, bricks := FollowRay(m, origin, radius, 2, cells, bricks);
    cells, bricks := FollowRay(m, origin, radius, 3, cells, bricks);
  }

  /** The footprint after each direction, ready for the next one. */
  lemma EarlierRays(m: TileMap, origin: Cell, radius: nat)
    requires Inside(origin)
    ensures var c1 := [origin] + Ray(m, origin, 0, radius, 1); var c2 := c1 + Ray(m, origin, 1, radius, 1);
      var c3 := c2 + Ray(m, origin, 2, radius, 1);
      && FromEarlierRays(origin, 0, [origin]) && FromEarlierRays(origin, 1, c1) && FromEarlierRays(origin, 2, c2)
      && FromEarlierRays(origin, 3, c3)
      && |c1| <= 31 && |c2| <= 61 && |c3| <= 91
    ensures |RayBrick(m, origin, 0, radius)| <= 1 && |RayBrick(m, origin, 1, radius)| <= 1
    ensures |RayBrick(m, origin, 2, radius)| <= 1
  {
    hide Ray;
    var c1 := [origin] + Ray(m, origin, 0, radius, 1);
    var c2 := c1 + Ray(m, origin, 1, radius, 1);
    RayExtendsDistinct(m, origin, 0, radius, [origin]);
    RayExtendsDistinct(m, origin, 1, radius, c1);
    RayExtendsDistinct(m, origin, 2, radius, c2);
    RayIsShort(m, origin, 0, radius);
    RayIsShort(m, origin, 1, radius);
    RayIsShort(m, origin, 2, radius);
  }
}
