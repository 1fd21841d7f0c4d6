/** Powerup effects over whole rounds (Server/ServerPowerups.cpp). */
module Effects {
  import opened Wrappers
  import opened Tiles
  import opened Movement
  import opened Input
  import opened Blast
  import opened World
  import opened ExplosionOrder
  import opened WorldRuns
  import opened Rounds

  /** The tick up to which an effect lasts. */
  function Until(p: Player, kind: PowerupType): nat {
    match kind
    case SpeedBoost => p.speedBoostUntilTick
    case Invincibility => p.invincibleUntilTick
    case BombRangeBoost => p.bombRangeBoostUntilTick
    case MaxBombsBoost => p.maxBombsBoostUntilTick
  }

  /** No effect outlasts one full duration from now. */
  ghost predicate TimersOk(w: World) {
    forall id, kind | 0 <= id < |w.players| && w.players[id].Some? :: Until(w.players[id].value, kind) <= w.tick + EFFECT_TICKS
  }

  ghost predicate SameTimers(slot: Option<Player>, next: Option<Player>) {
    next.Some? ==> slot.Some? && forall kind :: Until(next.value, kind) == Until(slot.value, kind)
  }

  lemma SameTimersKeep(w: World, t: World)
    requires TimersOk(w) && t.tick >= w.tick && |t.players| == |w.players|
    requires forall id | 0 <= id < |w.players| :: SameTimers(w.players[id], t.players[id])
    ensures TimersOk(t)
  {
  }

  lemma PlayerTickKeepsTimers(w: World, id: nat, lead: nat)
    requires id < |w.players|
    ensures |SimulatePlayer(w, id, lead).players| == |w.players| && SimulatePlayer(w, id, lead).tick == w.tick
    ensures forall j | 0 <= j < |w.players| :: SameTimers(w.players[j], SimulatePlayer(w, id, lead).players[j])
  {
    hide MayPlace, FirstFree, StepMovementWithCollision, ResolveForTick;
  }

  lemma {:induction false} PlayersTickKeepsTimers(w: World, n: nat, lead: nat)
    requires TimersOk(w) && n <= |w.players|
    ensures TimersOk(SimulatePlayers(w, n, lead)) && SimulatePlayers(w, n, lead).tick == w.tick
    decreases n
  {
    hide SimulatePlayer, TimersOk, SameTimers;
    if n > 0 {
      PlayersTickKeepsTimers(w, n - 1, lead);
      var before := SimulatePlayers(w, n - 1, lead);
      PlayerTickKeepsTimers(before, n - 1, lead);
      SameTimersKeep(before, SimulatePlayer(before, n - 1, lead));
    }
  }

  lemma ClosedKeepsTimers(w: World, s: set<nat>, after: World)
    requires TimersOk(w) && PlayersClosed(w, s, after.players) && after.tick == w.tick
    ensures TimersOk(after)
  {
    hide BurnedBy, OwnedIn;
    forall id | 0 <= id < |w.players| ensures SameTimers(w.players[id], after.players[id]) {
      assert after.players[id] == PlayerClosed(w, s, id);
    }
    hide PlayersClosed;
    SameTimersKeep(w, after);
  }

  lemma ExplosionsKeepTimers(w: World, order: seq<nat>)
    requires TimersOk(w) && ListsDue(w, order)
    ensures TimersOk(ExplodeAll(w, order, w.tiles)) && ExplodeAll(w, order, w.tiles).tick == w.tick
  {
    hide ExplodeAll, TimersOk, PlayersClosed, TilesClosed, PowerupsClosed, BombsClosed;
    ExplodeAllIsClosed(w, order);
    ClosedKeepsTimers(w, SetOf(order), ExplodeAll(w, order, w.tiles));
  }

  /**
   * What one collection does, and to whom. The powerup goes to the lowest-numbered living, unlocked player whose
   * centre is on it, never on the tick it was revealed. That player's effect of this kind now lasts exactly one
   * duration from this tick; every other effect, every other player and every other powerup is left alone.
   */
  lemma CollectionGivesItsEffect(w: World, j: nat)
    requires TimersOk(w) && Collectable(w, j)
    ensures var u := w.powerups[j].value; var id := Collector(w.players, u.cell); var t := CollectOne(w, j);
      if id == |w.players| then t == w
      else
        && u.revealedTick < w.tick && t.powerups == w.powerups[j := None] && |t.players| == |w.players|
        && t == w.(players := t.players, powerups := t.powerups)
        && (forall other | 0 <= other < |w.players| && other != id :: t.players[other] == w.players[other])
        && t.players[id].Some? && w.players[id].Some?
        && (forall kind :: Until(t.players[id].value, kind) ==
              if kind == u.kind then w.tick + EFFECT_TICKS else Until(w.players[id].value, kind))
        && t.players[id].value.pos == w.players[id].value.pos && t.players[id].value.alive
        && t.players[id].value.activeBombCount == w.players[id].value.activeBombCount
  {
    var u := w.powerups[j].value;
    var id := Collector(w.players, u.cell);
    if id < |w.players| {
      var p := w.players[id].value;
      assert Until(p, u.kind) <= w.tick + EFFECT_TICKS;
      hide TimersOk, Collector;
    }
  }

  lemma CollectOneKeepsTimers(w: World, j: nat)
    requires TimersOk(w)
    ensures TimersOk(CollectOne(w, j)) && CollectOne(w, j).tick == w.tick
  {
    if Collectable(w, j) {
      CollectionGivesItsEffect(w, j);
      hide CollectOne, Until;
      var id := Collector(w.players, w.powerups[j].value.cell);
      var t := CollectOne(w, j);
      forall other, kind | 0 <= other < |t.players| && t.players[other].Some?
        ensures Until(t.players[other].value, kind) <= t.tick + EFFECT_TICKS
      {
        assert other == id || t.players[other] == w.players[other];
      }
    }
  }

  lemma {:induction false} CollectKeepsTimers(w: World, n: nat)
    requires TimersOk(w)
    ensures TimersOk(CollectPowerups(w, n)) && CollectPowerups(w, n).tick == w.tick
    decreases n
  {
    hide TimersOk, CollectOne;
    if w.powersEnabled && n > 0 {
      CollectKeepsTimers(w, n - 1);
      CollectOneKeepsTimers(CollectPowerups(w, n - 1), n - 1);
    }
  }

  lemma AfterPlayersKeepsTimers(w: World, lead: nat)
    requires TimersOk(w)
    ensures TimersOk(AfterPlayers(w, lead))
  {
    hide SimulatePlayers;
    var w1 := w.(tick := w.tick + 1);
    SameTimersKeep(w, w1);
    hide TimersOk;
    PlayersTickKeepsTimers(w1, |w1.players|, lead);
  }

  lemma StepKeepsTimers(r: Round, e: RoundEvent, lead: nat)
    requires TimersOk(r.world) && Enabled(r, e, lead)
    ensures TimersOk(Step(r, e, lead).world)
  {
    hide AfterPlayers, ListsDue, Received, Armed, ExplodeAll, CollectPowerups;
    match e
    case Wait => SameTimersKeep(r.world, Step(r, e, lead).world);
    case Deliver(_, _) => SameTimersKeep(r.world, Step(r, e, lead).world);
    case Commit => SameTimersKeep(r.world, Step(r, e, lead).world);
    case Unlock => SameTimersKeep(r.world, Step(r, e, lead).world);
    case Leave(_) => SameTimersKeep(r.world, Step(r, e, lead).world);
    case End => SameTimersKeep(r.world, Step(r, e, lead).world);
    case Tick(order) =>
      AfterPlayersKeepsTimers(r.world, lead);
      if !r.stage.Ended? {
        var moved := AfterPlayers(r.world, lead);
        DueIsInRange(moved, order);
        ExplosionsKeepTimers(moved, order);
        CollectKeepsTimers(ExplodeAll(moved, order, moved.tiles), |r.world.powerups|);
      }
  }

  /** In every state of every round no effect has more than its full duration left. */
  lemma {:induction false} EveryEffectIsBounded(start: TileMap, r: Round, events: seq<RoundEvent>, lead: nat)
    requires RoundStarts(start, r) && Possible(r, events, lead)
    ensures TimersOk(Run(r, events, lead).world)
    decreases |events|
  {
    hide Enabled, Step;
    if events != [] {
      hide RoundStarts, TimersOk;
      var n := |events| - 1;
      EveryEffectIsBounded(start, r, events[..n], lead);
      StepKeepsTimers(Run(r, events[..n], lead), events[n], lead);
    }
  }

  /** Nothing kills an invincible player. */
  lemma InvincibleSurvives(w: World, order: seq<nat>, id: nat)
    requires ListsDue(w, order) && id < |w.players| && w.players[id].Some? && w.players[id].value.alive
    requires Until(w.players[id].value, Invincibility) > w.tick
    ensures var t := ExplodeAll(w, order, w.tiles); |t.players| == |w.players| && t.players[id].Some? && t.players[id].value.alive
  {
    ExplodeAllIsClosed(w, order);
    var after := ExplodeAll(w, order, w.tiles);
    hide ExplodeAll, BurnedBy, OwnedIn, TilesClosed, PowerupsClosed, BombsClosed;
    assert after.players[id] == PlayerClosed(w, SetOf(order), id);
  }

  // ----- One player's whole turn -----

  /** The player as it enters its turn: loadout refreshed, buttons resolved. */
  function Resolved(w: World, id: nat, lead: nat): Player
    requires id < |w.players| && w.players[id].Some?
  {
    var p := Loadout(w.players[id].value, w.tick);
    p.(input := ResolveForTick(p.input, w.tick, lead))
  }

  lemma TurnInSteps(w: World, id: nat, lead: nat)
    requires id < |w.players| && w.players[id].Some? && w.players[id].value.alive && !w.players[id].value.inputLocked
    ensures var w1 := w.(players := w.players[id := Some(Resolved(w, id, lead))]); var placed := PlaceBomb(w1, id);
      && placed.players[id].Some?
      && SimulatePlayer(w, id, lead) == placed.(players := placed.players[id := Some(Moved(placed.players[id].value, w.tick, w.tiles))])
  {
    hide MayPlace, ResolveForTick, Moved;
  }

  /**
   * A free player's turn, outright. A bomb is placed exactly when the button was newly pressed, the player owns
   * fewer bombs than its cap and no bomb lies on its cell; it lies where the player stood before this tick's move,
   * explodes ninety ticks on with the range its effects grant, and is announced. The player then moves by the same
   * buttons. Nobody else and nothing else changes.
   */
  lemma FreePlayersTurn(start: TileMap, w: World, id: nat, lead: nat)
    requires MidInv(start, w) && id < |w.players| && w.players[id].Some?
    requires w.players[id].value.alive && !w.players[id].value.inputLocked
    ensures var p, q, t := w.players[id].value, Resolved(w, id, lead), SimulatePlayer(w, id, lead);
      var cell := Cell(p.pos.xQ / 256, p.pos.yQ / 256); var buttons := q.input.appliedButtons;
      var cap: nat := if Until(p, MaxBombsBoost) > w.tick then 2 else 1;
      var range: nat := if Until(p, BombRangeBoost) > w.tick then 2 else 1;
      var places := buttons / 16 % 2 == 1 && p.previousTickButtons / 16 % 2 == 0
                    && |OwnedSlots(w.bombs, id)| < cap && !Occupied(w.bombs, cell);
      var i := FirstFree(w.bombs);
      && t == w.(players := t.players, bombs := t.bombs, sent := t.sent) && i < |w.bombs| && w.bombs[i].None?
      && t.players == w.players[id := t.players[id]] && t.players[id].Some?
      && t.players[id].value.pos == DriveStep(p.pos, Drive(buttons, w.tiles, if Until(p, SpeedBoost) > w.tick then 23 else 17))
      && t.players[id].value.previousTickButtons == buttons
      && t.bombs == (if places then w.bombs[i := Some(BombState(id, cell, w.tick, w.tick + 90, range))] else w.bombs)
      && t.sent == (if places then w.sent + [BombPlaced(w.tick, w.tick + 90, id, cell, range)] else w.sent)
  {
    hide Occupied, StepMovementWithCollision, ResolveForTick, OwnedSlots, BombsOk, CountsOk, PlayersOk, PowerupsOk, MapOk, MidInv, CentreCell, FirstFree;
    var q := Resolved(w, id, lead);
    var w1 := w.(players := w.players[id := Some(q)]);
    TurnInSteps(w, id, lead);
    PlayerIsOk(start, w, id);
    CentreIsUnderfoot(start, w.tiles, w.players[id].value);
    hide PlayerOk;
    LoadoutIsOk(w, w.players[id].value, lead);
    UpdatePlayerKeepsInv(start, w, id, q);
    WhatDecidesAPlacement(start, w1, id);
    AFreeSlotExists(start, w);
    hide SimulatePlayer;
  }

  lemma CentreIsUnderfoot(start: TileMap, tiles: TileMap, p: Player)
    requires MapOk(start, tiles) && PlayerOk(tiles, p)
    ensures CentreCell(p.pos) == Cell(p.pos.xQ / 256, p.pos.yQ / 256)
  {
    ClearingBricksKeepsArena(start, tiles);
    ClearIsInside(tiles, p.pos);
  }

  lemma LoadoutIsOk(w: World, p: Player, lead: nat)
    requires PlayerOk(w.tiles, p)
    ensures var q := Loadout(p, w.tick); PlayerOk(w.tiles, q.(input := ResolveForTick(q.input, w.tick, lead)))
  {
    hide Clear, ResolveForTick;
  }
}
