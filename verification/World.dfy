/**
 * The authoritative round world and one step of it: bombs, explosions, powerups and players
 * (Server/ServerBombs.cpp, Server/ServerPowerups.cpp, Server/ServerSimulation.cpp). MatchWorld.dfy runs these
 * steps in place on the server's arrays.
 */
module World {
  import opened Config
  import opened Wrappers
  import opened Tiles
  import opened Movement
  import opened Input
  import opened Blast

  const BOMB_FUSE_TICKS := 90
  const BOMB_CAPACITY := 403
  const POWERUP_CAPACITY := 4
  const EFFECT_TICKS := 600

  datatype BombState = BombState(ownerId: nat, cell: Cell, placedTick: nat, explodeTick: nat, radius: nat)

  datatype PowerupType = SpeedBoost | Invincibility | BombRangeBoost | MaxBombsBoost

  datatype Powerup = Powerup(kind: PowerupType, cell: Cell, revealed: bool, revealedTick: nat)

  datatype Player = Player(
    pos: TilePos,
    alive: bool,
    inputLocked: bool,
    activeBombCount: nat,
    maxBombs: nat,
    bombRange: nat,
    invincibleUntilTick: nat,
    speedBoostUntilTick: nat,
    bombRangeBoostUntilTick: nat,
    maxBombsBoostUntilTick: nat,
    input: Receiver,
    previousTickButtons: Byte)

  /** The reliable gameplay events the server broadcasts. */
  datatype Message =
    | BombPlaced(serverTick: nat, explodeTick: nat, ownerId: nat, cell: Cell, radius: nat)
    | Explosion(serverTick: nat, ownerId: nat, cell: Cell, radius: nat, killed: set<nat>,
                blastCells: seq<Cell>, destroyedBricks: seq<Cell>)

  datatype World = World(
    tick: nat,
    tiles: TileMap,
    players: seq<Option<Player>>,
    bombs: seq<Option<BombState>>,
    powerups: seq<Option<Powerup>>,
    powersEnabled: bool,
    sent: seq<Message>)

  predicate Shape(w: World) {
    |w.players| == MAX_PLAYERS && |w.bombs| == BOMB_CAPACITY && |w.powerups| == POWERUP_CAPACITY
  }

  function CellOf(key: nat): Cell {
    Cell(key % WIDTH, key / WIDTH)
  }

  // ----- Effects -----

  predicate EffectActive(untilTick: nat, tick: nat) {
    untilTick > tick
  }

  function RefreshedEffect(current: nat, tick: nat): nat {
    if current > tick + EFFECT_TICKS then current else tick + EFFECT_TICKS
  }

  function Loadout(p: Player, tick: nat): Player {
    p.(maxBombs := if EffectActive(p.maxBombsBoostUntilTick, tick) then 2 else 1,
       bombRange := if EffectActive(p.bombRangeBoostUntilTick, tick) then 2 else 1)
  }

  function SpeedOf(p: Player, tick: nat): int {
    if EffectActive(p.speedBoostUntilTick, tick) then SPEED_BOOST_PLAYER_SPEED_Q else PLAYER_SPEED_Q
  }

  // ----- One explosion -----

  predicate OverlapsCell(pos: TilePos, c: Cell) {
    && pos.xQ - HITBOX_HALF_Q < c.col * 256 + 256 && pos.xQ + HITBOX_HALF_Q > c.col * 256
    && pos.yQ - HITBOX_HALF_Q < c.row * 256 + 256 && pos.yQ + HITBOX_HALF_Q > c.row * 256
  }

  predicate OverlapsAny(pos: TilePos, cells: seq<Cell>) {
    exists i :: 0 <= i < |cells| && OverlapsCell(pos, cells[i])
  }

  predicate Dies(p: Player, tick: nat, cells: seq<Cell>) {
    p.alive && !EffectActive(p.invincibleUntilTick, tick) && OverlapsAny(p.pos, cells)
  }

  function Dead(p: Player): Player {
    p.(alive := false, inputLocked := true, previousTickButtons := 0,
       input := p.input.(lastAppliedButtons := 0, appliedButtons := 0))
  }

  function Burned(slot: Option<Player>, tick: nat, cells: seq<Cell>): Option<Player> {
    if slot.Some? && Dies(slot.value, tick, cells) then Some(Dead(slot.value)) else slot
  }

  function KillPlayers(players: seq<Option<Player>>, tick: nat, cells: seq<Cell>): seq<Option<Player>> {
    seq(|players|, p requires 0 <= p < |players| => Burned(players[p], tick, cells))
  }

  function KilledIds(players: seq<Option<Player>>, tick: nat, cells: seq<Cell>): set<nat> {
    set p: nat | p < |players| && players[p].Some? && Dies(players[p].value, tick, cells)
  }

  /** Bomb ownership returns to the player who placed it, if still present. */
  function Released(slot: Option<Player>): Option<Player> {
    if slot.Some? && slot.value.activeBombCount > 0
    then Some(slot.value.(activeBombCount := slot.value.activeBombCount - 1)) else slot
  }

  function ReleaseOwnership(players: seq<Option<Player>>, ownerId: nat): seq<Option<Player>> {
    if ownerId < |players| then players[ownerId := Released(players[ownerId])] else players
  }

  /** The bricks still standing among `cells`. */
  function Intact(tiles: TileMap, cells: seq<Cell>): (r: seq<Cell>)
    ensures |r| <= |cells|
  {
    if cells == [] then []
    else
      var n := |cells| - 1;
      Intact(tiles, cells[..n]) +
        if Inside(cells[n]) && TileAt(tiles, cells[n]) == Brick then [cells[n]] else []
  }

  function Cleared(tiles: TileMap, cells: seq<Cell>): TileMap {
    seq(TILE_COUNT, k requires 0 <= k < TILE_COUNT => if CellOf(k) in cells then Grass else tiles[k])
  }

  function Uncovered(slot: Option<Powerup>, tick: nat, cells: seq<Cell>): Option<Powerup> {
    if slot.Some? && !slot.value.revealed && slot.value.cell in cells
    then Some(slot.value.(revealed := true, revealedTick := tick)) else slot
  }

  function RevealPowerups(powerups: seq<Option<Powerup>>, enabled: bool, tick: nat, cells: seq<Cell>): seq<Option<Powerup>> {
    if !enabled || cells == [] then powerups
    else seq(|powerups|, i requires 0 <= i < |powerups| => Uncovered(powerups[i], tick, cells))
  }

  /** Bomb i detonates; blasts are traced on the map as it was before the tick's first explosion. */
  function ExplodeOne(w: World, i: nat, before: TileMap): World
    requires i < |w.bombs|
  {
    if w.bombs[i].None? then w
    else
      var b := w.bombs[i].value;
      var cells := BlastCells(before, b.cell, b.radius);
      var bricks := Intact(w.tiles, BrokenBricks(before, b.cell, b.radius));
      w.(tiles := Cleared(w.tiles, bricks),
         powerups := RevealPowerups(w.powerups, w.powersEnabled, w.tick, bricks),
         players := ReleaseOwnership(KillPlayers(w.players, w.tick, cells), b.ownerId),
         bombs := w.bombs[i := None],
         sent := w.sent + [Explosion(w.tick, b.ownerId, b.cell, b.radius, KilledIds(w.players, w.tick, cells), cells, bricks)])
  }

  /** The bombs of `order` detonate one after the other. */
  function ExplodeAll(w: World, order: seq<nat>, before: TileMap): World
    requires forall j | 0 <= j < |order| :: order[j] < |w.bombs|
    decreases |order|
  {
    if order == [] then w
    else
      var n := |order| - 1;
      var w' := ExplodeAll(w, order[..n], before);
      if order[n] < |w'.bombs| then ExplodeOne(w', order[n], before) else w'
  }

  predicate IsDue(w: World, i: nat) {
    i < |w.bombs| && w.bombs[i].Some? && w.bombs[i].value.explodeTick <= w.tick
  }

  /** A duplicate-free listing of exactly the due bombs. */
  ghost predicate ListsDue(w: World, order: seq<nat>) {
    && (forall j | 0 <= j < |order| :: IsDue(w, order[j]))
    && (forall i | IsDue(w, i) :: i in order)
    && (forall j, k | 0 <= j < k < |order| :: order[j] != order[k])
  }

  // ----- Bomb placement -----

  predicate BombEdge(p: Player) {
    Held(p.input.appliedButtons, INPUT_BOMB) && !Held(p.previousTickButtons, INPUT_BOMB)
  }

  function CentreCell(pos: TilePos): Cell {
    Cell(TruncatingDiv(pos.xQ, 256), TruncatingDiv(pos.yQ, 256))
  }

  predicate Occupied(bombs: seq<Option<BombState>>, c: Cell) {
    exists i :: 0 <= i < |bombs| && bombs[i].Some? && bombs[i].value.cell == c
  }

  function FirstFree(bombs: seq<Option<BombState>>): (i: nat)
    ensures i <= |bombs| && (i < |bombs| ==> bombs[i].None?)
    ensures forall j | 0 <= j < i :: bombs[j].Some?
  {
    if bombs == [] || bombs[0].None? then 0 else 1 + FirstFree(bombs[1..])
  }

  predicate MayPlace(w: World, p: Player) {
    && BombEdge(p) && p.alive && !p.inputLocked
    && p.activeBombCount < p.maxBombs
    && Inside(CentreCell(p.pos))
    && !Solid(TileAt(w.tiles, CentreCell(p.pos)))
    && !Occupied(w.bombs, CentreCell(p.pos))
    && FirstFree(w.bombs) < |w.bombs|
  }

  function PlaceBomb(w: World, id: nat): World
    requires id < |w.players| && w.players[id].Some?
  {
    var p := w.players[id].value;
    if !MayPlace(w, p) then w
    else
      var b := BombState(id, CentreCell(p.pos), w.tick, w.tick + BOMB_FUSE_TICKS, p.bombRange);
      w.(bombs := w.bombs[FirstFree(w.bombs) := Some(b)],
         players := w.players[id := Some(p.(activeBombCount := p.activeBombCount + 1))],
         sent := w.sent + [BombPlaced(w.tick, b.explodeTick, id, b.cell, b.radius)])
  }

  // ----- One player's tick -----

  function IdlePlayer(p: Player): Player {
    p.(input := IdleTick(p.input), previousTickButtons := 0)
  }

  function Moved(p: Player, tick: nat, tiles: TileMap): Player {
    var buttons := p.input.appliedButtons;
    p.(pos := StepMovementWithCollision(p.pos, ButtonsToMoveX(buttons), ButtonsToMoveY(buttons), tiles, SpeedOf(p, tick)),
       previousTickButtons := buttons)
  }

  function SimulatePlayer(w: World, id: nat, inputLeadTicks: nat): World
    requires id < |w.players|
  {
    if w.players[id].None? then w
    else
      var p := Loadout(w.players[id].value, w.tick);
      if !p.alive || p.inputLocked then w.(players := w.players[id := Some(IdlePlayer(p))])
      else
        var resolved := p.(input := ResolveForTick(p.input, w.tick, inputLeadTicks));
        var placed := PlaceBomb(w.(players := w.players[id := Some(resolved)]), id);
        placed.(players := placed.players[id := Some(Moved(placed.players[id].value, w.tick, w.tiles))])
  }

  /** Players are simulated in id order. */
  function SimulatePlayers(w: World, n: nat, inputLeadTicks: nat): (r: World)
    requires n <= |w.players|
    ensures |r.players| == |w.players|
  {
    if n == 0 then w else SimulatePlayer(SimulatePlayers(w, n - 1, inputLeadTicks), n - 1, inputLeadTicks)
  }

  // ----- Powerup collection -----

  predicate CanCollect(slot: Option<Player>, c: Cell) {
    && slot.Some? && slot.value.alive && !slot.value.inputLocked
    && Inside(CentreCell(slot.value.pos)) && CentreCell(slot.value.pos) == c
  }

  /** The lowest player id standing on the cell, or the number of seats. */
  function Collector(players: seq<Option<Player>>, c: Cell): (id: nat)
    ensures id <= |players| && (id < |players| ==> CanCollect(players[id], c))
    ensures forall j | 0 <= j < id :: !CanCollect(players[j], c)
  {
    if players == [] || CanCollect(players[0], c) then 0 else 1 + Collector(players[1..], c)
  }

  function WithEffect(p: Player, kind: PowerupType, tick: nat): Player {
    match kind
    case Invincibility => p.(invincibleUntilTick := RefreshedEffect(p.invincibleUntilTick, tick))
    case SpeedBoost => p.(speedBoostUntilTick := RefreshedEffect(p.speedBoostUntilTick, tick))
    case BombRangeBoost => p.(bombRangeBoostUntilTick := RefreshedEffect(p.bombRangeBoostUntilTick, tick))
    case MaxBombsBoost => p.(maxBombsBoostUntilTick := RefreshedEffect(p.maxBombsBoostUntilTick, tick))
  }

  predicate Collectable(w: World, i: nat) {
    i < |w.powerups| && w.powerups[i].Some? && w.powerups[i].value.revealed && w.powerups[i].value.revealedTick < w.tick
  }

  function CollectOne(w: World, i: nat): World {
    if !Collectable(w, i) then w
    else
      var u := w.powerups[i].value;
      var id := Collector(w.players, u.cell);
      if id == |w.players| then w
      else
        w.(players := w.players[id := Some(Loadout(WithEffect(w.players[id].value, u.kind, w.tick), w.tick))],
           powerups := w.powerups[i := None])
  }

  function CollectPowerups(w: World, n: nat): World {
    if !w.powersEnabled || n == 0 then w else CollectOne(CollectPowerups(w, n - 1), n - 1)
  }

  // ----- The whole tick, and what happens between ticks -----

  /** One gameplay tick while the match is on; `order` is the order in which due bombs are resolved. */
  function AfterPlayers(w: World, inputLeadTicks: nat): World {
    SimulatePlayers(w.(tick := w.tick + 1), |w.players|, inputLeadTicks)
  }

  function MatchTick(w: World, order: seq<nat>, inputLeadTicks: nat): World
    requires forall j | 0 <= j < |order| :: order[j] < |AfterPlayers(w, inputLeadTicks).bombs|
  {
    var moved := AfterPlayers(w, inputLeadTicks);
    CollectPowerups(ExplodeAll(moved, order, moved.tiles), |w.powerups|)
  }

  /** A tick after the round ended: everybody is locked, bombs are gone. */
  function EndedTick(w: World, inputLeadTicks: nat): World {
    AfterPlayers(w, inputLeadTicks)
  }

  function Locked(slot: Option<Player>, locked: bool): Option<Player> {
    if slot.Some? then Some(slot.value.(inputLocked := locked)) else slot
  }

  function SetLocks(players: seq<Option<Player>>, locked: bool): seq<Option<Player>> {
    seq(|players|, p requires 0 <= p < |players| => Locked(players[p], locked))
  }

  function NoBombsHeld(players: seq<Option<Player>>): seq<Option<Player>> {
    seq(|players|, p requires 0 <= p < |players| =>
      if players[p].Some? then Some(players[p].value.(activeBombCount := 0)) else players[p])
  }

  function ClearBombs(w: World): World {
    w.(bombs := seq(|w.bombs|, _ => None), players := NoBombsHeld(w.players))
  }

  /** The end of a round clears the bombs and locks everybody. */
  function EndRound(w: World): World {
    var cleared := ClearBombs(w);
    cleared.(players := SetLocks(cleared.players, true))
  }

  /** A disconnect removes the player's match state and leaves the world alone, bombs included. */
  function Depart(w: World, id: nat): World
    requires id < |w.players|
  {
    w.(players := w.players[id := None])
  }
}
