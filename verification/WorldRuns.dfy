/** Whole rounds: what every step of every run keeps, for every resolution order of simultaneous explosions. */
module WorldRuns {
  import opened Config
  import opened Wrappers
  import opened Tiles
  import opened Movement
  import opened Input
  import opened Blast
  import opened World
  import opened ExplosionOrder

  const MAX_OWNED := 2

  /** The live bombs owned by one player id. */
  function OwnedSlots(bombs: seq<Option<BombState>>, id: nat): set<nat> {
    set i: nat | i < |bombs| && bombs[i].Some? && bombs[i].value.ownerId == id
  }

  // ----- The invariant, part by part -----

  ghost predicate BombsOk(tick: nat, tiles: TileMap, bombs: seq<Option<BombState>>) {
    && (forall i | 0 <= i < |bombs| && bombs[i].Some? ::
          var b := bombs[i].value;
          && b.ownerId < MAX_PLAYERS && Inside(b.cell) && !Solid(TileAt(tiles, b.cell))
          && b.placedTick <= tick && b.explodeTick == b.placedTick + BOMB_FUSE_TICKS && tick <= b.explodeTick
          && 1 <= b.radius <= 2)
    && (forall i, j | 0 <= i < j < |bombs| && bombs[i].Some? && bombs[j].Some? ::
          bombs[i].value.cell != bombs[j].value.cell)
  }

  /** No id, present or departed, owns more than two bombs; a present player's count is the number it owns. */
  ghost predicate CountsOk(players: seq<Option<Player>>, bombs: seq<Option<BombState>>) {
    forall id | 0 <= id < |players| ::
      && |OwnedSlots(bombs, id)| <= MAX_OWNED
      && (players[id].Some? ==> players[id].value.activeBombCount == |OwnedSlots(bombs, id)|)
  }

  ghost predicate PlayerOk(tiles: TileMap, p: Player) {
    && Clear(tiles, p.pos)
    && 1 <= p.maxBombs <= MAX_OWNED && 1 <= p.bombRange <= 2
    && (!p.alive ==> p.inputLocked)
  }

  ghost predicate PlayersOk(tiles: TileMap, players: seq<Option<Player>>) {
    forall id | 0 <= id < |players| && players[id].Some? :: PlayerOk(tiles, players[id].value)
  }

  /** A powerup is hidden exactly while its own cell is still a brick. */
  ghost predicate PowerupsOk(tick: nat, tiles: TileMap, powerups: seq<Option<Powerup>>, enabled: bool) {
    && (forall j | 0 <= j < |powerups| && powerups[j].Some? ::
          var u := powerups[j].value;
          && enabled && Inside(u.cell) && (u.revealed <==> TileAt(tiles, u.cell) != Brick)
          && (u.revealed ==> u.revealedTick <= tick))
    && (forall i, j | 0 <= i < j < |powerups| && powerups[i].Some? && powerups[j].Some? ::
          powerups[i].value.cell != powerups[j].value.cell)
  }

  ghost predicate MapOk(start: TileMap, tiles: TileMap) {
    Arena(start) && OnlyBricksCleared(start, tiles)
  }

  /** The invariant in the middle of a tick: a due bomb may still be waiting for this tick's explosions. */
  ghost predicate MidInv(start: TileMap, w: World) {
    && Shape(w)
    && MapOk(start, w.tiles)
    && PlayersOk(w.tiles, w.players)
    && BombsOk(w.tick, w.tiles, w.bombs)
    && CountsOk(w.players, w.bombs)
    && PowerupsOk(w.tick, w.tiles, w.powerups, w.powersEnabled)
  }

  /** Between ticks every bomb still has time on its fuse. */
  ghost predicate WorldInv(start: TileMap, w: World) {
    MidInv(start, w) && forall i | 0 <= i < |w.bombs| && w.bombs[i].Some? :: w.tick < w.bombs[i].value.explodeTick
  }

  // ----- One player's tick -----

  lemma TickStarts(start: TileMap, w: World)
    requires WorldInv(start, w)
    ensures MidInv(start, w.(tick := w.tick + 1))
  {
  }

  lemma UpdatePlayerKeepsInv(start: TileMap, w: World, id: nat, q: Player)
    requires MidInv(start, w) && id < |w.players| && w.players[id].Some?
    requires PlayerOk(w.tiles, q) && q.activeBombCount == w.players[id].value.activeBombCount
    ensures MidInv(start, w.(players := w.players[id := Some(q)]))
  {
  }

  lemma AddingABomb(bombs: seq<Option<BombState>>, i: nat, b: BombState, id: nat)
    requires i < |bombs| && bombs[i].None?
    ensures |OwnedSlots(bombs[i := Some(b)], id)| == |OwnedSlots(bombs, id)| + if b.ownerId == id then 1 else 0
  {
    var after := OwnedSlots(bombs[i := Some(b)], id);
    assert after == if b.ownerId == id then OwnedSlots(bombs, id) + {i} else OwnedSlots(bombs, id);
  }

  lemma PlaceBombKeepsInv(start: TileMap, w: World, id: nat)
    requires MidInv(start, w) && id < |w.players| && w.players[id].Some?
    ensures MidInv(start, PlaceBomb(w, id))
    ensures PlaceBomb(w, id).players[id].Some?
    ensures PlaceBomb(w, id).players[id].value == w.players[id].value.(activeBombCount := PlaceBomb(w, id).players[id].value.activeBombCount)
  {
    hide TileAt, Clear;
    var p := w.players[id].value;
    if MayPlace(w, p) {
      var after := PlaceBomb(w, id);
      forall other | 0 <= other < |w.players|
        ensures |OwnedSlots(after.bombs, other)| <= MAX_OWNED
        ensures after.players[other].Some? ==> after.players[other].value.activeBombCount == |OwnedSlots(after.bombs, other)|
      {
        var i := FirstFree(w.bombs);
        AddingABomb(w.bombs, i, after.bombs[i].value, other);
      }
    }
  }

  lemma MoveKeepsOk(start: TileMap, tiles: TileMap, p: Player, tick: nat)
    requires MapOk(start, tiles) && PlayerOk(tiles, p)
    ensures PlayerOk(tiles, Moved(p, tick, tiles)) && Moved(p, tick, tiles).activeBombCount == p.activeBombCount
  {
    ClearingBricksKeepsArena(start, tiles);
    hide StepMovementWithCollision, Clear;
    var buttons := p.input.appliedButtons;
    StepIsSafe(p.pos, ButtonsToMoveX(buttons), ButtonsToMoveY(buttons), tiles, SpeedOf(p, tick));
  }

  lemma SimulatePlayerKeepsInv(start: TileMap, w: World, id: nat, lead: nat)
    requires MidInv(start, w) && id < |w.players|
    ensures MidInv(start, SimulatePlayer(w, id, lead))
    ensures SimulatePlayer(w, id, lead).tick == w.tick && SimulatePlayer(w, id, lead).tiles == w.tiles
  {
    hide MidInv, PlayersOk, BombsOk, CountsOk, PowerupsOk, MapOk, Clear, Moved, PlaceBomb, ResolveForTick, Solid;
    if w.players[id].Some? {
      PlayerIsOk(start, w, id);
      var p := Loadout(w.players[id].value, w.tick);
      if !p.alive || p.inputLocked {
        UpdatePlayerKeepsInv(start, w, id, IdlePlayer(p));
      } else {
        var resolved := p.(input := ResolveForTick(p.input, w.tick, lead));
        var w1 := w.(players := w.players[id := Some(resolved)]);
        UpdatePlayerKeepsInv(start, w, id, resolved);
        PlaceBombKeepsInv(start, w1, id);
        PlaceBombKeepsTiles(w1, id);
        var w2 := PlaceBomb(w1, id);
        PlayerIsOk(start, w2, id);
        MoveKeepsOk(start, w2.tiles, w2.players[id].value, w2.tick);
        UpdatePlayerKeepsInv(start, w2, id, Moved(w2.players[id].value, w2.tick, w2.tiles));
      }
    }
  }

  lemma PlaceBombKeepsTiles(w: World, id: nat)
    requires id < |w.players| && w.players[id].Some?
    ensures PlaceBomb(w, id).tick == w.tick && PlaceBomb(w, id).tiles == w.tiles
    ensures |PlaceBomb(w, id).players| == |w.players|
  {
  }

  lemma PlayerIsOk(start: TileMap, w: World, id: nat)
    requires MidInv(start, w) && id < |w.players| && w.players[id].Some?
    ensures PlayerOk(w.tiles, w.players[id].value) && MapOk(start, w.tiles)
  {
  }

  lemma {:induction false} SimulatePlayersKeepsInv(start: TileMap, w: World, n: nat, lead: nat)
    requires MidInv(start, w) && n <= |w.players|
    ensures MidInv(start, SimulatePlayers(w, n, lead))
    ensures SimulatePlayers(w, n, lead).tick == w.tick && SimulatePlayers(w, n, lead).tiles == w.tiles
  {
    hide MidInv, SimulatePlayer;
    if n > 0 {
      SimulatePlayersKeepsInv(start, w, n - 1, lead);
      SimulatePlayerKeepsInv(start, SimulatePlayers(w, n - 1, lead), n - 1, lead);
    }
  }

  // ----- The tick's explosions -----

  /** All due bombs of a world. */
  function DueSet(w: World): set<nat> {
    set i: nat | i < |w.bombs| && IsDue(w, i)
  }

  lemma BlastedTiles(start: TileMap, w: World, s: set<nat>, after: TileMap)
    requires MapOk(start, w.tiles) && TilesClosed(w, s, after)
    ensures OnlyBricksCleared(w.tiles, after) && MapOk(start, after)
    ensures forall c | Inside(c) && !Solid(TileAt(w.tiles, c)) :: !Solid(TileAt(after, c))
  {
    hide Breaks;
    forall k | 0 <= k < TILE_COUNT
      ensures after[k] == w.tiles[k] || (w.tiles[k] == Brick && after[k] == Grass)
    {
      var c := CellOf(k);
      assert CellKey(c.col, c.row) == k && Inside(c);
      assert TileAt(after, c) == after[k] && TileAt(w.tiles, c) == w.tiles[k];
      if BrokenBy(w, s, c) {
        var i :| i in s && Breaks(w, i, c);
        BreaksABrick(w, i, c);
      }
    }
    assert forall c | Inside(c) :: 0 <= CellKey(c.col, c.row) < TILE_COUNT;
  }

  lemma BlastedCounts(w: World, s: set<nat>, players: seq<Option<Player>>, bombs: seq<Option<BombState>>)
    requires |w.players| == MAX_PLAYERS && CountsOk(w.players, w.bombs)
    requires PlayersClosed(w, s, players) && BombsClosed(w, s, bombs)
    ensures CountsOk(players, bombs)
  {
    hide BurnedBy;
    forall id | 0 <= id < |players|
      ensures |OwnedSlots(bombs, id)| <= MAX_OWNED
      ensures players[id].Some? ==> players[id].value.activeBombCount == |OwnedSlots(bombs, id)|
    {
      var gone := set i | i in s && Live(w, i) && w.bombs[i].value.ownerId == id;
      assert OwnedSlots(bombs, id) == OwnedSlots(w.bombs, id) - gone;
      assert gone <= OwnedSlots(w.bombs, id);
      assert players[id] == PlayerClosed(w, s, id);
    }
  }

  lemma BlastedPlayers(w: World, s: set<nat>, players: seq<Option<Player>>, after: TileMap)
    requires PlayersOk(w.tiles, w.players) && PlayersClosed(w, s, players) && OnlyBricksCleared(w.tiles, after)
    ensures PlayersOk(after, players)
  {
    hide BurnedBy, Clear;
    forall id | 0 <= id < |players| && players[id].Some? ensures PlayerOk(after, players[id].value) {
      assert players[id] == PlayerClosed(w, s, id);
      ClearingBricksKeepsClear(w.tiles, after, w.players[id].value.pos);
    }
  }

  lemma BlastedPowerups(w: World, s: set<nat>, powerups: seq<Option<Powerup>>, after: TileMap)
    requires PowerupsOk(w.tick, w.tiles, w.powerups, w.powersEnabled)
    requires TilesClosed(w, s, after) && PowerupsClosed(w, s, powerups)
    ensures PowerupsOk(w.tick, after, powerups, w.powersEnabled)
  {
    hide Breaks;
    forall j | 0 <= j < |powerups| && powerups[j].Some?
      ensures var u := powerups[j].value;
        && w.powersEnabled && Inside(u.cell) && (u.revealed <==> TileAt(after, u.cell) != Brick)
        && (u.revealed ==> u.revealedTick <= w.tick)
    {
      assert powerups[j] == PowerupClosed(w, s, j);
      var c := w.powerups[j].value.cell;
      if BrokenBy(w, s, c) {
        var i :| i in s && Breaks(w, i, c);
        BreaksABrick(w, i, c);
      }
    }
    forall i, j | 0 <= i < j < |powerups| && powerups[i].Some? && powerups[j].Some?
      ensures powerups[i].value.cell != powerups[j].value.cell
    {
      assert powerups[i] == PowerupClosed(w, s, i) && powerups[j] == PowerupClosed(w, s, j);
    }
  }

  lemma BlastedBombs(w: World, bombs: seq<Option<BombState>>, after: TileMap)
    requires BombsOk(w.tick, w.tiles, w.bombs) && BombsClosed(w, DueSet(w), bombs)
    requires forall c | Inside(c) && !Solid(TileAt(w.tiles, c)) :: !Solid(TileAt(after, c))
    ensures BombsOk(w.tick, after, bombs)
    ensures forall i | 0 <= i < |bombs| && bombs[i].Some? :: w.tick < bombs[i].value.explodeTick
  {
    hide TileAt, Solid;
  }

  /** Resolving all due bombs, in any order, ends the tick with every remaining bomb still fused. */
  lemma ExplosionsKeepInv(start: TileMap, w: World, order: seq<nat>)
    requires MidInv(start, w) && ListsDue(w, order)
    ensures WorldInv(start, ExplodeAll(w, order, w.tiles))
    ensures ExplodeAll(w, order, w.tiles).tick == w.tick
  {
    hide TilesClosed, PlayersClosed, PowerupsClosed, BombsOk, CountsOk, PlayersOk, PowerupsOk, MapOk;
    ExplodeAllIsClosed(w, order);
    var after := ExplodeAll(w, order, w.tiles);
    assert SetOf(order) == DueSet(w);
    BlastedTiles(start, w, SetOf(order), after.tiles);
    BlastedCounts(w, SetOf(order), after.players, after.bombs);
    BlastedPlayers(w, SetOf(order), after.players, after.tiles);
    BlastedPowerups(w, SetOf(order), after.powerups, after.tiles);
    BlastedBombs(w, after.bombs, after.tiles);
    ClosedShape(w, SetOf(order), after);
  }

  lemma ClosedShape(w: World, s: set<nat>, after: World)
    requires ClosedForm(w, s, after)
    ensures |after.players| == |w.players| && |after.bombs| == |w.bombs| && |after.powerups| == |w.powerups|
    ensures after.tick == w.tick && after.powersEnabled == w.powersEnabled
  {
  }

  // ----- Collecting powerups -----

  lemma CollectOneKeepsInv(start: TileMap, w: World, j: nat)
    requires WorldInv(start, w)
    ensures WorldInv(start, CollectOne(w, j)) && CollectOne(w, j).tick == w.tick
    ensures |CollectOne(w, j).powerups| == |w.powerups|
  {
    hide CountsOk, BombsOk, PlayersOk, MapOk, TileAt, Clear;
    if Collectable(w, j) {
      var u := w.powerups[j].value;
      var id := Collector(w.players, u.cell);
      if id < |w.players| {
        PlayerIsOk(start, w, id);
        var q := Loadout(WithEffect(w.players[id].value, u.kind, w.tick), w.tick);
        UpdatePlayerKeepsInv(start, w, id, q);
        TakingAPowerup(w.tick, w.tiles, w.powerups, w.powersEnabled, j);
      }
    }
  }

  lemma TakingAPowerup(tick: nat, tiles: TileMap, powerups: seq<Option<Powerup>>, enabled: bool, j: nat)
    requires PowerupsOk(tick, tiles, powerups, enabled) && j < |powerups|
    ensures PowerupsOk(tick, tiles, powerups[j := None], enabled)
  {
  }

  lemma {:induction false} CollectKeepsInv(start: TileMap, w: World, n: nat)
    requires WorldInv(start, w)
    ensures WorldInv(start, CollectPowerups(w, n)) && CollectPowerups(w, n).tick == w.tick
    decreases n
  {
    hide WorldInv, CollectOne;
    if w.powersEnabled && n > 0 {
      CollectKeepsInv(start, w, n - 1);
      CollectOneKeepsInv(start, CollectPowerups(w, n - 1), n - 1);
    }
  }

  /** One whole gameplay tick keeps the invariant, whatever the resolution order. */
  lemma MatchTickKeepsInv(start: TileMap, w: World, order: seq<nat>, lead: nat)
    requires WorldInv(start, w) && ListsDue(AfterPlayers(w, lead), order)
    ensures WorldInv(start, MatchTick(w, order, lead)) && MatchTick(w, order, lead).tick == w.tick + 1
  {
    hide MidInv, SimulatePlayers, ExplodeAll, CollectPowerups;
    TickStarts(start, w);
    var w1 := w.(tick := w.tick + 1);
    SameShape(start, w1);
    SimulatePlayersKeepsInv(start, w1, |w1.players|, lead);
    var w2 := AfterPlayers(w, lead);
    ExplosionsKeepInv(start, w2, order);
    CollectKeepsInv(start, ExplodeAll(w2, order, w2.tiles), |w.powerups|);
  }

  lemma SameShape(start: TileMap, w: World)
    requires MidInv(start, w)
    ensures Shape(w)
  {
  }
}
