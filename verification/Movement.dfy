/** The movement step shared by client prediction and server authority (Sim/Movement.h). */
module Movement {
  import opened Utils
  import opened Tiles

  /** Positions are in tile-space Q8: 256 units a tile, measured at the centre of the player. */
  datatype TilePos = TilePos(xQ: int, yQ: int)

  type Byte = b: int | 0 <= b < 256

  const HITBOX_HALF_Q := 64
  const PLAYER_SPEED_Q := 17
  const SPEED_BOOST_PLAYER_SPEED_Q := 23

  const INPUT_UP: Byte := 0x01
  const INPUT_DOWN: Byte := 0x02
  const INPUT_LEFT: Byte := 0x04
  const INPUT_RIGHT: Byte := 0x08
  const INPUT_BOMB: Byte := 0x10
  const INPUT_KNOWN_BITS: Byte := 0x1F

  /** Tests one bit of a button mask; `bit` is a power of two. */
  predicate Held(buttons: Byte, bit: Byte)
    requires bit > 0
  {
    buttons / bit % 2 == 1
  }

  function ButtonsToMoveX(buttons: Byte): (dx: int)
    ensures dx in {-1, 0, 1}
  {
    (if Held(buttons, INPUT_RIGHT) then 1 else 0) - (if Held(buttons, INPUT_LEFT) then 1 else 0)
  }

  function ButtonsToMoveY(buttons: Byte): (dy: int)
    ensures dy in {-1, 0, 1}
  {
    (if Held(buttons, INPUT_DOWN) then 1 else 0) - (if Held(buttons, INPUT_UP) then 1 else 0)
  }

  /** Integer division as C++ does it: rounding toward zero. */
  function TruncatingDiv(a: int, b: int): int
    requires b > 0
  {
    if a >= 0 then a / b else -((-a) / b)
  }

  predicate IsWalkable(m: TileMap, col: int, row: int) {
    InBounds(col, row) && !Solid(At(m, col, row))
  }

  /** The four-corner wall test. */
  predicate OverlapsWall(m: TileMap, xQ: int, yQ: int) {
    var left := TruncatingDiv(xQ - HITBOX_HALF_Q, 256);
    var right := TruncatingDiv(xQ + HITBOX_HALF_Q - 1, 256);
    var top := TruncatingDiv(yQ - HITBOX_HALF_Q, 256);
    var bottom := TruncatingDiv(yQ + HITBOX_HALF_Q - 1, 256);
    || !IsWalkable(m, left, top)
    || !IsWalkable(m, right, top)
    || !IsWalkable(m, left, bottom)
    || !IsWalkable(m, right, bottom)
  }

  /** Moves one axis at a time, keeping each axis only where the hitbox stays clear. */
  function StepMovementWithCollision(pos: TilePos, moveX: int, moveY: int, m: TileMap, speedQ: int): TilePos {
    var newXQ := pos.xQ + moveX * speedQ;
    var x := if moveX != 0 && !OverlapsWall(m, newXQ, pos.yQ) then newXQ else pos.xQ;
    var newYQ := pos.yQ + moveY * speedQ;
    var y := if moveY != 0 && !OverlapsWall(m, x, newYQ) then newYQ else pos.yQ;
    TilePos(x, y)
  }

  // ----- The four-corner test against true geometric overlap -----

  /** The open square of tile (col, row) and the half-open hitbox box share a point. */
  predicate BoxMeetsTile(x0: int, x1: int, y0: int, y1: int, col: int, row: int) {
    && x0 < 256 * col + 256 && 256 * col < x1
    && y0 < 256 * row + 256 && 256 * row < y1
  }

  /** Some unwalkable cell of the infinite grid (everything outside the map included) meets the box. */
  ghost predicate BoxHitsWall(m: TileMap, x0: int, x1: int, y0: int, y1: int) {
    exists col, row :: BoxMeetsTile(x0, x1, y0, y1, col, row) && !IsWalkable(m, col, row)
  }

  /** The reference definition of standing in a wall: the whole hitbox against every cell. */
  ghost predicate HitboxHitsWall(m: TileMap, xQ: int, yQ: int) {
    BoxHitsWall(m, xQ - HITBOX_HALF_Q, xQ + HITBOX_HALF_Q, yQ - HITBOX_HALF_Q, yQ + HITBOX_HALF_Q)
  }

  /** Where no hitbox edge is negative the rounding of the division cannot matter. */
  lemma CornersSeeEveryWall(m: TileMap, xQ: int, yQ: int)
    requires xQ >= HITBOX_HALF_Q && yQ >= HITBOX_HALF_Q
    ensures OverlapsWall(m, xQ, yQ) <==> HitboxHitsWall(m, xQ, yQ)
  {
    var left, right := (xQ - HITBOX_HALF_Q) / 256, (xQ + HITBOX_HALF_Q - 1) / 256;
    var top, bottom := (yQ - HITBOX_HALF_Q) / 256, (yQ + HITBOX_HALF_Q - 1) / 256;
    var x0, x1, y0, y1 := xQ - HITBOX_HALF_Q, xQ + HITBOX_HALF_Q, yQ - HITBOX_HALF_Q, yQ + HITBOX_HALF_Q;
    forall col, row | BoxMeetsTile(x0, x1, y0, y1, col, row)
      ensures (col == left || col == right) && (row == top || row == bottom)
    {
    }
    assert BoxMeetsTile(xQ - 64, xQ + 64, yQ - 64, yQ + 64, left, top);
    assert BoxMeetsTile(xQ - 64, xQ + 64, yQ - 64, yQ + 64, right, top);
    assert BoxMeetsTile(xQ - 64, xQ + 64, yQ - 64, yQ + 64, left, bottom);
    assert BoxMeetsTile(xQ - 64, xQ + 64, yQ - 64, yQ + 64, right, bottom);
  }

  /** The first column and the first row are closed. */
  ghost predicate LeftAndTopClosed(m: TileMap) {
    && (forall row :: !IsWalkable(m, 0, row))
    && (forall col :: !IsWalkable(m, col, 0))
  }

  /** A box that reaches below zero always meets the outside. */
  lemma NegativeEdgeHitsOutside(m: TileMap, xQ: int, yQ: int)
    requires xQ < HITBOX_HALF_Q || yQ < HITBOX_HALF_Q
    ensures HitboxHitsWall(m, xQ, yQ)
  {
    var col, row := (xQ - HITBOX_HALF_Q) / 256, (yQ - HITBOX_HALF_Q) / 256;
    assert BoxMeetsTile(xQ - 64, xQ + 64, yQ - 64, yQ + 64, col, row);
    assert !IsWalkable(m, col, row);
  }

  /**
   * Division toward zero makes the test miss the strip just left of and above the map. It is exact
   * at every position if and only if the first column and the first row hold no walkable cell.
   */
  lemma CornerTestIsExactIffClosed(m: TileMap)
    ensures (forall xQ, yQ :: OverlapsWall(m, xQ, yQ) <==> HitboxHitsWall(m, xQ, yQ)) <==> LeftAndTopClosed(m)
  {
    if LeftAndTopClosed(m) {
      forall xQ, yQ ensures OverlapsWall(m, xQ, yQ) <==> HitboxHitsWall(m, xQ, yQ) {
        if xQ >= HITBOX_HALF_Q && yQ >= HITBOX_HALF_Q {
          CornersSeeEveryWall(m, xQ, yQ);
        } else {
          NegativeEdgeHitsOutside(m, xQ, yQ);
          var left := TruncatingDiv(xQ - HITBOX_HALF_Q, 256);
          var top := TruncatingDiv(yQ - HITBOX_HALF_Q, 256);
          assert left <= 0 || top <= 0;
          assert !IsWalkable(m, left, top);
        }
      }
    } else if row :| IsWalkable(m, 0, row) {
      OpenEdgeIsMissed(m, 0, 256 * row + 128);
    } else {
      var col :| IsWalkable(m, col, 0);
      OpenEdgeIsMissed(m, 256 * col + 128, 0);
    }
  }

  /** A hitbox hanging over the edge of a walkable border cell is outside, yet the test passes it. */
  lemma OpenEdgeIsMissed(m: TileMap, xQ: int, yQ: int)
    requires (xQ == 0 && yQ >= 128 && yQ % 256 == 128 && IsWalkable(m, 0, yQ / 256))
          || (yQ == 0 && xQ >= 128 && xQ % 256 == 128 && IsWalkable(m, xQ / 256, 0))
    ensures HitboxHitsWall(m, xQ, yQ) && !OverlapsWall(m, xQ, yQ)
  {
    NegativeEdgeHitsOutside(m, xQ, yQ);
  }

  lemma ArenaIsClosed(m: TileMap)
    requires Arena(m)
    ensures LeftAndTopClosed(m)
    ensures forall col, row | InBounds(col, row) && (col == WIDTH - 1 || row >= 10) :: !IsWalkable(m, col, row)
  {
    forall col, row | InBounds(col, row) && (col == 0 || row == 0 || col == WIDTH - 1 || row >= 10)
      ensures !IsWalkable(m, col, row)
    {
      assert BaseTile(col, row) == Stone;
      assert At(m, col, row) == Stone;
    }
  }

  /** On every map a round can show, the cheap test is the geometric one, at every position. */
  lemma CornerTestIsExactOnArenas(m: TileMap, xQ: int, yQ: int)
    requires Arena(m)
    ensures OverlapsWall(m, xQ, yQ) <==> HitboxHitsWall(m, xQ, yQ)
  {
    ArenaIsClosed(m);
    CornerTestIsExactIffClosed(m);
  }

  // ----- One step: no overlap, no tunnelling -----

  ghost predicate Clear(m: TileMap, pos: TilePos) {
    !HitboxHitsWall(m, pos.xQ, pos.yQ)
  }

  /**
   * Everything the hitbox passes over in one step: the X leg, then the Y leg. Neither leg touches a wall.
   */
  ghost predicate SweepIsClear(m: TileMap, from: TilePos, to: TilePos) {
    && !BoxHitsWall(m, Min(from.xQ, to.xQ) - HITBOX_HALF_Q, Max(from.xQ, to.xQ) + HITBOX_HALF_Q,
                    from.yQ - HITBOX_HALF_Q, from.yQ + HITBOX_HALF_Q)
    && !BoxHitsWall(m, to.xQ - HITBOX_HALF_Q, to.xQ + HITBOX_HALF_Q,
                    Min(from.yQ, to.yQ) - HITBOX_HALF_Q, Max(from.yQ, to.yQ) + HITBOX_HALF_Q)
  }

  predicate PlayerSpeed(speedQ: int) {
    speedQ == PLAYER_SPEED_Q || speedQ == SPEED_BOOST_PLAYER_SPEED_Q
  }

  /** Two overlapping boxes that differ along X cover the box spanned by both. */
  lemma SpanXIsCovered(m: TileMap, a0: int, a1: int, b0: int, b1: int, y0: int, y1: int)
    requires a0 < b1 && b0 < a1
    requires !BoxHitsWall(m, a0, a1, y0, y1) && !BoxHitsWall(m, b0, b1, y0, y1)
    ensures !BoxHitsWall(m, Min(a0, b0), Max(a1, b1), y0, y1)
  {
    forall col, row | BoxMeetsTile(Min(a0, b0), Max(a1, b1), y0, y1, col, row)
      ensures IsWalkable(m, col, row)
    {
      assert BoxMeetsTile(a0, a1, y0, y1, col, row) || BoxMeetsTile(b0, b1, y0, y1, col, row);
    }
  }

  lemma SpanYIsCovered(m: TileMap, a0: int, a1: int, b0: int, b1: int, x0: int, x1: int)
    requires a0 < b1 && b0 < a1
    requires !BoxHitsWall(m, x0, x1, a0, a1) && !BoxHitsWall(m, x0, x1, b0, b1)
    ensures !BoxHitsWall(m, x0, x1, Min(a0, b0), Max(a1, b1))
  {
    forall col, row | BoxMeetsTile(x0, x1, Min(a0, b0), Max(a1, b1), col, row)
      ensures IsWalkable(m, col, row)
    {
      assert BoxMeetsTile(x0, x1, a0, a1, col, row) || BoxMeetsTile(x0, x1, b0, b1, col, row);
    }
  }

  /** The X leg: a passed test leaves the player clear, and clear all the way. */
  lemma LegXIsSafe(m: TileMap, from: TilePos, toXQ: int)
    requires Arena(m) && Clear(m, from) && -128 < toXQ - from.xQ < 128
    requires toXQ == from.xQ || !OverlapsWall(m, toXQ, from.yQ)
    ensures Clear(m, TilePos(toXQ, from.yQ))
    ensures !BoxHitsWall(m, Min(from.xQ, toXQ) - HITBOX_HALF_Q, Max(from.xQ, toXQ) + HITBOX_HALF_Q,
                         from.yQ - HITBOX_HALF_Q, from.yQ + HITBOX_HALF_Q)
  {
    CornerTestIsExactOnArenas(m, toXQ, from.yQ);
    SpanXIsCovered(m, from.xQ - 64, from.xQ + 64, toXQ - 64, toXQ + 64, from.yQ - 64, from.yQ + 64);
  }

  lemma LegYIsSafe(m: TileMap, from: TilePos, toYQ: int)
    requires Arena(m) && Clear(m, from) && -128 < toYQ - from.yQ < 128
    requires toYQ == from.yQ || !OverlapsWall(m, from.xQ, toYQ)
    ensures Clear(m, TilePos(from.xQ, toYQ))
    ensures !BoxHitsWall(m, from.xQ - HITBOX_HALF_Q, from.xQ + HITBOX_HALF_Q,
                         Min(from.yQ, toYQ) - HITBOX_HALF_Q, Max(from.yQ, toYQ) + HITBOX_HALF_Q)
  {
    CornerTestIsExactOnArenas(m, from.xQ, toYQ);
    SpanYIsCovered(m, from.yQ - 64, from.yQ + 64, toYQ - 64, toYQ + 64, from.xQ - 64, from.xQ + 64);
  }

  /** A step from a clear position ends clear and never tunnels through a wall. */
  lemma StepIsSafe(pos: TilePos, moveX: int, moveY: int, m: TileMap, speedQ: int)
    requires Arena(m) && Clear(m, pos)
    requires moveX in {-1, 0, 1} && moveY in {-1, 0, 1} && PlayerSpeed(speedQ)
    ensures Clear(m, StepMovementWithCollision(pos, moveX, moveY, m, speedQ))
    ensures SweepIsClear(m, pos, StepMovementWithCollision(pos, moveX, moveY, m, speedQ))
  {
    var next := StepMovementWithCollision(pos, moveX, moveY, m, speedQ);
    assert -23 <= moveX * speedQ <= 23 && -23 <= moveY * speedQ <= 23;
    LegXIsSafe(m, pos, next.xQ);
    LegYIsSafe(m, TilePos(next.xQ, pos.yQ), next.yQ);
  }

  /**
   * Where one step goes, by the bits of the buttons: right (8) and left (4) move along x by the speed unless the
   * hitbox would meet a wall there, then down (2) and up (1) along y from the x reached. Both or neither of a pair
   * leave their axis alone.
   */
  lemma StepGoesWhereTheButtonsSay(pos: TilePos, buttons: Byte, m: TileMap, speedQ: int)
    requires Arena(m) && Clear(m, pos) && (speedQ == 17 || speedQ == 23)
    ensures var right, left := buttons / 8 % 2 == 1, buttons / 4 % 2 == 1; var down, up := buttons / 2 % 2 == 1, buttons % 2 == 1;
      var toX := if right && !left then pos.xQ + speedQ else if left && !right then pos.xQ - speedQ else pos.xQ;
      var x := if HitboxHitsWall(m, toX, pos.yQ) then pos.xQ else toX;
      var toY := if down && !up then pos.yQ + speedQ else if up && !down then pos.yQ - speedQ else pos.yQ;
      var y := if HitboxHitsWall(m, x, toY) then pos.yQ else toY;
      DriveStep(pos, Drive(buttons, m, speedQ)) == TilePos(x, y)
  {
    hide OverlapsWall, HitboxHitsWall;
    var next := DriveStep(pos, Drive(buttons, m, speedQ));
    CornerTestIsExactOnArenas(m, pos.xQ + speedQ, pos.yQ);
    CornerTestIsExactOnArenas(m, pos.xQ - speedQ, pos.yQ);
    CornerTestIsExactOnArenas(m, next.xQ, pos.yQ + speedQ);
    CornerTestIsExactOnArenas(m, next.xQ, pos.yQ - speedQ);
  }

  /** The hitbox of a player at the position, a quarter tile to each side of it, shares a point with the open cell. */
  predicate ReachesInto(xQ: int, yQ: int, col: int, row: int) {
    && xQ - 64 < 256 * col + 256 && 256 * col < xQ + 64
    && yQ - 64 < 256 * row + 256 && 256 * row < yQ + 64
  }

  /** What meeting a wall means: some cell the hitbox reaches into is off the map, stone or brick. */
  lemma WallIsOnTheGrid(m: TileMap, xQ: int, yQ: int)
    ensures HitboxHitsWall(m, xQ, yQ) <==> exists col, row :: ReachesInto(xQ, yQ, col, row) && !LetsThrough(m, col, row)
  {
    forall col, row
      ensures ReachesInto(xQ, yQ, col, row) <==> BoxMeetsTile(xQ - 64, xQ + 64, yQ - 64, yQ + 64, col, row)
      ensures LetsThrough(m, col, row) <==> IsWalkable(m, col, row)
    {
    }
  }

  /** A clear player stands inside the border, far inside the int16 range, over a walkable cell. */
  lemma ClearIsInside(m: TileMap, pos: TilePos)
    requires Arena(m) && Clear(m, pos)
    ensures 256 + 64 <= pos.xQ <= 30 * 256 - 64 && 256 + 64 <= pos.yQ <= 10 * 256 - 64
    ensures TruncatingDiv(pos.xQ, 256) == pos.xQ / 256 && TruncatingDiv(pos.yQ, 256) == pos.yQ / 256
    ensures IsWalkable(m, pos.xQ / 256, pos.yQ / 256)
  {
    ArenaIsClosed(m);
    if pos.xQ < 64 || pos.yQ < 64 {
      NegativeEdgeHitsOutside(m, pos.xQ, pos.yQ);
    }
    var left, right := (pos.xQ - 64) / 256, (pos.xQ + 63) / 256;
    var top, bottom := (pos.yQ - 64) / 256, (pos.yQ + 63) / 256;
    assert BoxMeetsTile(pos.xQ - 64, pos.xQ + 64, pos.yQ - 64, pos.yQ + 64, left, top);
    assert BoxMeetsTile(pos.xQ - 64, pos.xQ + 64, pos.yQ - 64, pos.yQ + 64, right, bottom);
    assert BoxMeetsTile(pos.xQ - 64, pos.xQ + 64, pos.yQ - 64, pos.yQ + 64, pos.xQ / 256, pos.yQ / 256);
  }

  // ----- Whole runs -----

  /** One movement step as it was taken: the buttons, the map and the speed in force. */
  datatype Drive = Drive(buttons: Byte, tiles: TileMap, speedQ: int)

  function DriveStep(pos: TilePos, d: Drive): TilePos {
    StepMovementWithCollision(pos, ButtonsToMoveX(d.buttons), ButtonsToMoveY(d.buttons), d.tiles, d.speedQ)
  }

  /** The fold of the movement step over a run. */
  function Travel(start: TilePos, run: seq<Drive>): TilePos {
    if run == [] then start else DriveStep(Travel(start, run[..|run| - 1]), run[|run| - 1])
  }

  /** The map in force after a run. */
  function LastMap(first: TileMap, run: seq<Drive>): TileMap {
    if run == [] then first else run[|run| - 1].tiles
  }

  /** A run a match can contain: arenas that only ever lose bricks, at one of the two speeds. */
  ghost predicate LegalRun(first: TileMap, run: seq<Drive>) {
    if run == [] then Arena(first)
    else
      var n := |run| - 1;
      && LegalRun(first, run[..n])
      && OnlyBricksCleared(LastMap(first, run[..n]), run[n].tiles)
      && PlayerSpeed(run[n].speedQ)
  }

  lemma ClearingBricksKeepsClear(before: TileMap, after: TileMap, pos: TilePos)
    requires OnlyBricksCleared(before, after) && Clear(before, pos)
    ensures Clear(after, pos)
  {
    forall col, row | BoxMeetsTile(pos.xQ - 64, pos.xQ + 64, pos.yQ - 64, pos.yQ + 64, col, row)
      ensures IsWalkable(after, col, row)
    {
      assert IsWalkable(before, col, row);
    }
  }

  /** Over every legal run, of any length, the player is never in a wall and no step tunnels. */
  lemma {:induction false} RunIsSafe(first: TileMap, start: TilePos, run: seq<Drive>)
    requires LegalRun(first, run) && Clear(first, start)
    ensures Arena(LastMap(first, run)) && Clear(LastMap(first, run), Travel(start, run))
    ensures run != [] ==>
      SweepIsClear(LastMap(first, run), Travel(start, run[..|run| - 1]), Travel(start, run))
    decreases |run|
  {
    if run != [] {
      var n := |run| - 1;
      var d := run[n];
      RunIsSafe(first, start, run[..n]);
      var pos := Travel(start, run[..n]);
      ClearingBricksKeepsArena(LastMap(first, run[..n]), d.tiles);
      ClearingBricksKeepsClear(LastMap(first, run[..n]), d.tiles, pos);
      StepIsSafe(pos, ButtonsToMoveX(d.buttons), ButtonsToMoveY(d.buttons), d.tiles, d.speedQ);
    }
  }

  // ----- Spawn slots -----

  function SpawnCell(playerId: nat): Cell {
    match playerId % 4
    case 0 => Cell(1, 1)
    case 1 => Cell(1, 9)
    case 2 => Cell(WIDTH - 2, 1)
    case _ => Cell(WIDTH - 2, 9)
  }

  function SpawnPos(playerId: nat): TilePos {
    TilePos(SpawnCell(playerId).col * 256 + 128, SpawnCell(playerId).row * 256 + 128)
  }

  /** The four players start in the middle of the four inner corners. */
  lemma SpawnsAreTheCorners()
    ensures SpawnPos(0) == TilePos(384, 384) && SpawnPos(1) == TilePos(384, 2432)
    ensures SpawnPos(2) == TilePos(7552, 384) && SpawnPos(3) == TilePos(7552, 2432)
  {
  }

  lemma SpawnIsClear(m: TileMap, playerId: nat)
    requires Arena(m)
    ensures Clear(m, SpawnPos(playerId))
  {
    var c, pos := SpawnCell(playerId), SpawnPos(playerId);
    assert BaseTile(c.col, c.row) == EmptyGrass;
    assert At(m, c.col, c.row) == EmptyGrass;
    forall col, row | BoxMeetsTile(pos.xQ - 64, pos.xQ + 64, pos.yQ - 64, pos.yQ + 64, col, row)
      ensures IsWalkable(m, col, row)
    {
      assert col == c.col && row == c.row;
    }
  }
}
