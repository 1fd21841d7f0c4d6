/**
 * What the explosions of a tick do, on the grid: which bombs go, which bricks break, which powerups appear, who
 * dies, and what each explosion reports (Server/ServerBombs.cpp).
 */
module Detonations {
  import opened Config
  import opened Wrappers
  import opened Tiles
  import opened Movement
  import opened Blast
  import opened World
  import opened ExplosionOrder
  import X = ExplosionOrder

  /** Bomb i's fuse is up and the cell lies in its footprint on the map of w. */
  ghost predicate Strikes(w: World, i: int, c: Cell) {
    && 0 <= i < |w.bombs| && w.bombs[i].Some? && w.bombs[i].value.explodeTick <= w.tick
    && Footprint(w.tiles, w.bombs[i].value.cell, w.bombs[i].value.radius, c)
  }

  /** Some bomb of the tick burns a cell the hitbox reaches into. */
  ghost predicate Struck(w: World, pos: TilePos) {
    exists i, c :: Strikes(w, i, c) && ReachesInto(pos.xQ, pos.yQ, c.col, c.row)
  }

  /** Some bomb of the tick, lying elsewhere, breaks the brick of a cell. */
  ghost predicate Shattered(w: World, c: Cell) {
    && 0 <= c.col < 31 && 0 <= c.row < 13 && w.tiles[31 * c.row + c.col] == Brick
    && exists i :: Strikes(w, i, c) && w.bombs[i].value.cell != c
  }

  /** The bombs of a player id whose fuse is up. */
  function Expired(w: World, id: nat): set<nat> {
    set i: nat | i < |w.bombs| && w.bombs[i].Some? && w.bombs[i].value.explodeTick <= w.tick && w.bombs[i].value.ownerId == id
  }

  lemma OverlapIsReach(pos: TilePos, cells: seq<Cell>)
    ensures OverlapsAny(pos, cells) <==> exists c :: c in cells && ReachesInto(pos.xQ, pos.yQ, c.col, c.row)
  {
    forall c ensures OverlapsCell(pos, c) <==> ReachesInto(pos.xQ, pos.yQ, c.col, c.row) {
    }
    hide OverlapsCell, ReachesInto;
    if c :| c in cells && ReachesInto(pos.xQ, pos.yQ, c.col, c.row) {
      var i :| 0 <= i < |cells| && cells[i] == c;
      assert OverlapsCell(pos, cells[i]);
    }
  }

  lemma BurnsOnTheGrid(w: World, i: nat, pos: TilePos)
    ensures X.Burns(w, i, pos) <==>
      Live(w, i) && exists c :: Footprint(w.tiles, w.bombs[i].value.cell, w.bombs[i].value.radius, c) && ReachesInto(pos.xQ, pos.yQ, c.col, c.row)
  {
    hide BlastCells, Footprint, OverlapsAny, ReachesInto;
    if Live(w, i) {
      var b := w.bombs[i].value;
      OverlapIsReach(pos, BlastCells(w.tiles, b.cell, b.radius));
      forall c ensures c in BlastCells(w.tiles, b.cell, b.radius) <==> Footprint(w.tiles, b.cell, b.radius, c) {
        BlastIsTheFootprint(w.tiles, b.cell, b.radius, c);
      }
    }
  }

  lemma DueOnTheGrid(w: World, order: seq<nat>, i: int)
    requires ListsDue(w, order)
    ensures 0 <= i && i in SetOf(order) <==> 0 <= i < |w.bombs| && w.bombs[i].Some? && w.bombs[i].value.explodeTick <= w.tick
  {
    if 0 <= i < |w.bombs| && w.bombs[i].Some? && w.bombs[i].value.explodeTick <= w.tick {
      assert IsDue(w, i);
    }
    if 0 <= i && i in SetOf(order) {
      var j :| 0 <= j < |order| && order[j] == i;
      assert IsDue(w, order[j]);
    }
  }

  lemma BurnedIsStruck(w: World, order: seq<nat>, pos: TilePos)
    requires ListsDue(w, order)
    ensures BurnedBy(w, SetOf(order), pos) <==> Struck(w, pos)
  {
    hide ListsDue, Footprint, ReachesInto, X.Burns, SetOf;
    if BurnedBy(w, SetOf(order), pos) {
      var i :| i in SetOf(order) && X.Burns(w, i, pos);
      BurnsOnTheGrid(w, i, pos);
      DueOnTheGrid(w, order, i);
      var c :| Footprint(w.tiles, w.bombs[i].value.cell, w.bombs[i].value.radius, c) && ReachesInto(pos.xQ, pos.yQ, c.col, c.row);
      assert Strikes(w, i, c);
    }
    if Struck(w, pos) {
      var i, c :| Strikes(w, i, c) && ReachesInto(pos.xQ, pos.yQ, c.col, c.row);
      DueOnTheGrid(w, order, i);
      BurnsOnTheGrid(w, i, pos);
    }
  }

  lemma BrokenIsShattered(w: World, order: seq<nat>, c: Cell)
    requires ListsDue(w, order)
    ensures BrokenBy(w, SetOf(order), c) <==> Shattered(w, c)
  {
    hide ListsDue, Footprint, BrokenBricks, SetOf;
    if BrokenBy(w, SetOf(order), c) {
      var i :| i in SetOf(order) && Breaks(w, i, c);
      BrokenOnTheGrid(w.tiles, w.bombs[i].value.cell, w.bombs[i].value.radius, c);
      DueOnTheGrid(w, order, i);
      assert Strikes(w, i, c);
    }
    if Shattered(w, c) {
      var i :| Strikes(w, i, c) && w.bombs[i].value.cell != c;
      DueOnTheGrid(w, order, i);
      BrokenOnTheGrid(w.tiles, w.bombs[i].value.cell, w.bombs[i].value.radius, c);
      assert Breaks(w, i, c);
    }
  }

  lemma OwnedIsExpired(w: World, order: seq<nat>, id: nat)
    requires ListsDue(w, order)
    ensures OwnedIn(w, SetOf(order), id) == |Expired(w, id)|
  {
    hide ListsDue, SetOf;
    forall i: nat ensures i in SetOf(order) <==> i < |w.bombs| && w.bombs[i].Some? && w.bombs[i].value.explodeTick <= w.tick {
      DueOnTheGrid(w, order, i);
    }
    assert (set i | i in SetOf(order) && Live(w, i) && w.bombs[i].value.ownerId == id) == Expired(w, id);
  }

  /** What became of one player: dead and locked with its buttons dropped if struck unprotected, else as it was, its expired bombs given back. */
  ghost predicate Survives(w: World, id: nat, next: Option<Player>)
    requires id < |w.players|
  {
    var slot := w.players[id];
    && (next.Some? <==> slot.Some?)
    && (slot.Some? ==>
          var p, q := slot.value, next.value;
          var dies := p.alive && p.invincibleUntilTick <= w.tick && Struck(w, p.pos);
          && q.alive == (p.alive && !dies)
          && q.activeBombCount == (if p.activeBombCount < |Expired(w, id)| then 0 else p.activeBombCount - |Expired(w, id)|)
          && if dies then
               && q.inputLocked && q.previousTickButtons == 0
               && q == p.(alive := false, inputLocked := true, previousTickButtons := 0, activeBombCount := q.activeBombCount,
                          input := p.input.(lastAppliedButtons := 0, appliedButtons := 0))
             else q == p.(activeBombCount := q.activeBombCount))
  }

  lemma PlayersOnTheGrid(w: World, order: seq<nat>, players: seq<Option<Player>>)
    requires ListsDue(w, order) && PlayersClosed(w, SetOf(order), players)
    ensures |players| == |w.players| && forall id | 0 <= id < |w.players| :: Survives(w, id, players[id])
  {
    hide ListsDue, Struck, BurnedBy, OwnedIn, SetOf, Expired;
    forall id | 0 <= id < |w.players| ensures Survives(w, id, players[id]) {
      OwnedIsExpired(w, order, id);
      if w.players[id].Some? {
        BurnedIsStruck(w, order, w.players[id].value.pos);
      }
      assert players[id] == PlayerClosed(w, SetOf(order), id);
    }
  }

  lemma TilesOnTheGrid(w: World, order: seq<nat>, tiles: TileMap)
    requires ListsDue(w, order) && TilesClosed(w, SetOf(order), tiles)
    ensures forall col, row | 0 <= col < 31 && 0 <= row < 13 ::
      tiles[31 * row + col] == if Shattered(w, Cell(col, row)) then Grass else w.tiles[31 * row + col]
  {
    hide ListsDue, Shattered, BrokenBy, SetOf;
    forall col, row | 0 <= col < 31 && 0 <= row < 13
      ensures tiles[31 * row + col] == if Shattered(w, Cell(col, row)) then Grass else w.tiles[31 * row + col]
    {
      BrokenIsShattered(w, order, Cell(col, row));
      assert TileAt(tiles, Cell(col, row)) == tiles[31 * row + col] && TileAt(w.tiles, Cell(col, row)) == w.tiles[31 * row + col];
    }
  }

  /** A powerup after the explosions: revealed now if its brick was shattered. */
  function Bared(w: World, slot: Option<Powerup>): Option<Powerup> {
    if slot.Some? then Some(slot.value.(revealed := true, revealedTick := w.tick)) else None
  }

  lemma PowerupsOnTheGrid(w: World, order: seq<nat>, powerups: seq<Option<Powerup>>)
    requires ListsDue(w, order) && PowerupsClosed(w, SetOf(order), powerups)
    ensures |powerups| == |w.powerups| && forall j | 0 <= j < |w.powerups| ::
      powerups[j] == if w.powersEnabled && w.powerups[j].Some? && !w.powerups[j].value.revealed && Shattered(w, w.powerups[j].value.cell)
                     then Bared(w, w.powerups[j]) else w.powerups[j]
  {
    hide ListsDue, Shattered, BrokenBy, SetOf;
    forall j | 0 <= j < |w.powerups|
      ensures powerups[j] == if w.powersEnabled && w.powerups[j].Some? && !w.powerups[j].value.revealed && Shattered(w, w.powerups[j].value.cell)
                             then Bared(w, w.powerups[j]) else w.powerups[j]
    {
      if w.powerups[j].Some? {
        BrokenIsShattered(w, order, w.powerups[j].value.cell);
      }
      assert powerups[j] == PowerupClosed(w, SetOf(order), j);
    }
  }

  lemma BombsOnTheGrid(w: World, order: seq<nat>, bombs: seq<Option<BombState>>)
    requires ListsDue(w, order) && BombsClosed(w, SetOf(order), bombs)
    ensures |bombs| == |w.bombs| && forall i | 0 <= i < |w.bombs| ::
      bombs[i] == if w.bombs[i].Some? && w.bombs[i].value.explodeTick <= w.tick then None else w.bombs[i]
  {
    hide ListsDue, SetOf;
    forall i | 0 <= i < |w.bombs|
      ensures bombs[i] == if w.bombs[i].Some? && w.bombs[i].value.explodeTick <= w.tick then None else w.bombs[i]
    {
      DueOnTheGrid(w, order, i);
    }
  }

  /**
   * The explosions of a tick, outright, whatever the order they are resolved in: the bombs whose fuse is up are
   * gone, the bricks of their footprints are grass, the powerups under those bricks are revealed, and the players
   * one of them reached unprotected are dead; nothing else changes.
   */
  lemma ExplosionsOnTheGrid(w: World, order: seq<nat>)
    requires ListsDue(w, order)
    ensures var t := ExplodeAll(w, order, w.tiles);
      && t.tick == w.tick && t.powersEnabled == w.powersEnabled
      && |t.bombs| == |w.bombs| && |t.players| == |w.players| && |t.powerups| == |w.powerups|
      && (forall i | 0 <= i < |w.bombs| ::
            t.bombs[i] == if w.bombs[i].Some? && w.bombs[i].value.explodeTick <= w.tick then None else w.bombs[i])
      && (forall col, row | 0 <= col < 31 && 0 <= row < 13 ::
            t.tiles[31 * row + col] == if Shattered(w, Cell(col, row)) then Grass else w.tiles[31 * row + col])
      && (forall j | 0 <= j < |w.powerups| ::
            t.powerups[j] == if w.powersEnabled && w.powerups[j].Some? && !w.powerups[j].value.revealed && Shattered(w, w.powerups[j].value.cell)
                             then Bared(w, w.powerups[j]) else w.powerups[j])
      && (forall id | 0 <= id < |w.players| :: Survives(w, id, t.players[id]))
  {
    DueIsInRange(w, order);
    DueIsLive(w, order);
    ExplodeAllIsClosed(w, order);
    hide ExplodeAll, ListsDue, Shattered, Survives, Bared, SetOf, TilesClosed, PlayersClosed, PowerupsClosed, BombsClosed;
    var t := ExplodeAll(w, order, w.tiles);
    BombsOnTheGrid(w, order, t.bombs);
    TilesOnTheGrid(w, order, t.tiles);
    PowerupsOnTheGrid(w, order, t.powerups);
    PlayersOnTheGrid(w, order, t.players);
  }

  lemma DueIsLive(w: World, order: seq<nat>)
    requires ListsDue(w, order)
    ensures NoRepeats(order) && forall j | 0 <= j < |order| :: order[j] < |w.bombs| && Live(w, order[j])
  {
    forall j | 0 <= j < |order| ensures order[j] < |w.bombs| && Live(w, order[j]) {
      assert IsDue(w, order[j]);
    }
  }

  // ----- What each explosion reports -----

  /** The message tells of bomb b, of the cells it burned, of the bricks and of the players gone between two worlds. */
  ghost predicate Tells(m: Message, b: BombState, traced: TileMap, now: World, next: World) {
    && m.Explosion? && m.serverTick == now.tick && m.ownerId == b.ownerId && m.cell == b.cell && m.radius == b.radius
    && (forall c :: c in m.blastCells <==> Footprint(traced, b.cell, b.radius, c))
    && (forall c :: c in m.destroyedBricks <==>
          && 0 <= c.col < 31 && 0 <= c.row < 13
          && now.tiles[31 * c.row + c.col] == Brick && next.tiles[31 * c.row + c.col] == Grass)
    && |now.players| == |next.players|
    && (forall id: nat :: id in m.killed <==>
          && id < |now.players| && now.players[id].Some? && next.players[id].Some?
          && now.players[id].value.alive && !next.players[id].value.alive)
  }

  lemma OneDetonationTells(now: World, i: nat, before: TileMap)
    requires i < |now.bombs| && now.bombs[i].Some?
    ensures var next := ExplodeOne(now, i, before);
      && |next.sent| == |now.sent| + 1 && next.sent[..|now.sent|] == now.sent
      && Tells(next.sent[|now.sent|], now.bombs[i].value, before, now, next)
  {
    hide BlastCells, BrokenBricks, Intact, Cleared, Dies, Footprint, RevealPowerups;
    var b, next := now.bombs[i].value, ExplodeOne(now, i, before);
    var broken := BrokenBricks(before, b.cell, b.radius);
    var bricks := Intact(now.tiles, broken);
    forall c ensures c in BlastCells(before, b.cell, b.radius) <==> Footprint(before, b.cell, b.radius, c) {
      BlastIsTheFootprint(before, b.cell, b.radius, c);
    }
    forall c ensures c in bricks <==>
      && 0 <= c.col < 31 && 0 <= c.row < 13
      && now.tiles[31 * c.row + c.col] == Brick && next.tiles[31 * c.row + c.col] == Grass
    {
      BrickGoes(now.tiles, broken, c);
    }
    KilledAreTheDead(now.players, now.tick, BlastCells(before, b.cell, b.radius), b.ownerId);
  }

  lemma BrickGoes(tiles: TileMap, broken: seq<Cell>, c: Cell)
    ensures c in Intact(tiles, broken) <==>
      && 0 <= c.col < 31 && 0 <= c.row < 13
      && tiles[31 * c.row + c.col] == Brick && Cleared(tiles, Intact(tiles, broken))[31 * c.row + c.col] == Grass
  {
    hide Intact, Cleared;
    IntactCells(tiles, broken, c);
    if Inside(c) {
      ClearedAt(tiles, Intact(tiles, broken), c);
    }
  }

  lemma KilledAreTheDead(players: seq<Option<Player>>, tick: nat, cells: seq<Cell>, ownerId: nat)
    ensures var after := ReleaseOwnership(KillPlayers(players, tick, cells), ownerId);
      && |after| == |players|
      && forall id: nat :: id in KilledIds(players, tick, cells) <==>
           && id < |players| && players[id].Some? && after[id].Some? && players[id].value.alive && !after[id].value.alive
  {
    hide OverlapsAny;
  }

  /** The j-th new message tells of the j-th detonation of the order. */
  ghost predicate TellsOf(w: World, order: seq<nat>, sent: seq<Message>, j: nat)
    requires AllLive(w, order) && j < |order|
  {
    && |w.sent| + j < |sent|
    && Tells(sent[|w.sent| + j], w.bombs[order[j]].value, w.tiles,
             ExplodeAll(w, order[..j], w.tiles), ExplodeAll(w, order[..j + 1], w.tiles))
  }

  ghost predicate AllLive(w: World, order: seq<nat>) {
    forall j | 0 <= j < |order| :: order[j] < |w.bombs| && w.bombs[order[j]].Some?
  }

  lemma TellsOfMore(w: World, order: seq<nat>, n: nat, earlier: seq<Message>, sent: seq<Message>)
    requires AllLive(w, order) && n <= |order| && earlier <= sent
    requires forall j: nat | j < n :: AllLive(w, order[..n]) && TellsOf(w, order[..n], earlier, j)
    ensures forall j: nat | j < n :: TellsOf(w, order, sent, j)
  {
    hide Tells, ExplodeAll;
    forall j: nat | j < n ensures TellsOf(w, order, sent, j) {
      assert TellsOf(w, order[..n], earlier, j);
      assert order[..n][..j] == order[..j] && order[..n][..j + 1] == order[..j + 1] && order[..n][j] == order[j];
    }
  }

  /**
   * Every explosion of a tick is reported once, in the order of resolution, after what was reported before, and
   * each report tells exactly what that detonation changed.
   */
  lemma {:induction false} EveryDetonationTells(w: World, order: seq<nat>)
    requires NoRepeats(order) && AllLive(w, order)
    ensures var sent := ExplodeAll(w, order, w.tiles).sent;
      && |sent| == |w.sent| + |order| && w.sent <= sent
      && forall j: nat | j < |order| :: TellsOf(w, order, sent, j)
    decreases |order|
  {
    if order == [] {
      NothingTold(w);
    } else {
      hide ExplodeAll, TellsOf, NoRepeats;
      var n := |order| - 1;
      NoRepeatsBefore(order);
      EveryDetonationTells(w, order[..n]);
      LastDetonationTells(w, order);
      TellsOfMore(w, order, n, ExplodeAll(w, order[..n], w.tiles).sent, ExplodeAll(w, order, w.tiles).sent);
    }
  }

  lemma NothingTold(w: World)
    ensures ExplodeAll(w, [], w.tiles).sent == w.sent
  {
  }

  lemma NoRepeatsBefore(order: seq<nat>)
    requires NoRepeats(order) && order != []
    ensures NoRepeats(order[..|order| - 1])
  {
  }

  lemma LastDetonationTells(w: World, order: seq<nat>)
    requires NoRepeats(order) && AllLive(w, order) && order != []
    requires |ExplodeAll(w, order[..|order| - 1], w.tiles).sent| == |w.sent| + |order| - 1
    ensures var n := |order| - 1; var earlier, sent := ExplodeAll(w, order[..n], w.tiles).sent, ExplodeAll(w, order, w.tiles).sent;
      |sent| == |earlier| + 1 && earlier <= sent && TellsOf(w, order, sent, n)
  {
    var n := |order| - 1;
    var now := ExplodeAll(w, order[..n], w.tiles);
    ExplodeAllIsClosed(w, order[..n]);
    NotYetGone(w, order, now);
    hide ExplodeOne, Tells, ClosedForm, NoRepeats;
    OneDetonationTells(now, order[n], w.tiles);
    assert order[..n + 1] == order;
  }

  lemma NotYetGone(w: World, order: seq<nat>, now: World)
    requires NoRepeats(order) && AllLive(w, order) && order != [] && ClosedForm(w, SetOf(order[..|order| - 1]), now)
    ensures |now.bombs| == |w.bombs| && now.bombs[order[|order| - 1]] == w.bombs[order[|order| - 1]]
  {
  }
}
