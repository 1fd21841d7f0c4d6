/** Which powerups a tick's collection takes, and what they give to whom (Server/ServerPowerups.cpp). */
module Collecting {
  import opened Config
  import opened Wrappers
  import opened Tiles
  import opened Movement
  import opened Input
  import opened Blast
  import opened World
  import opened ExplosionOrder
  import opened WorldRuns
  import opened Effects
  import Detonations

  /** A living, unlocked player whose centre is on the cell. */
  predicate StandsOn(slot: Option<Player>, c: Cell) {
    && slot.Some? && slot.value.alive && !slot.value.inputLocked
    && 256 * c.col <= slot.value.pos.xQ < 256 * c.col + 256 && 256 * c.row <= slot.value.pos.yQ < 256 * c.row + 256
  }

  /** The lowest id standing on the cell. */
  predicate FirstOn(players: seq<Option<Player>>, c: Cell, id: int) {
    0 <= id < |players| && StandsOn(players[id], c) && forall other | 0 <= other < id :: !StandsOn(players[other], c)
  }

  /** Player id takes the powerup of slot j: it was revealed before this tick, and nobody lower stands on it. */
  predicate Takes(w: World, id: int, j: int) {
    && 0 <= j < |w.powerups| && w.powerups[j].Some? && w.powerups[j].value.revealed && w.powerups[j].value.revealedTick < w.tick
    && FirstOn(w.players, w.powerups[j].value.cell, id)
  }

  ghost predicate TakesKind(w: World, id: int, kind: PowerupType, n: nat) {
    exists j | 0 <= j < n :: Takes(w, id, j) && w.powerups[j].value.kind == kind
  }

  ghost predicate TakesAny(w: World, id: int, n: nat) {
    exists j | 0 <= j < n :: Takes(w, id, j)
  }

  /** One player after the slots below n were visited: each kind it took lasts one full duration from now. */
  ghost predicate Gained(w: World, id: nat, next: Option<Player>, n: nat)
    requires id < |w.players|
  {
    var slot := w.players[id];
    && (next.Some? <==> slot.Some?)
    && (slot.Some? ==>
          var p, q := slot.value, next.value;
          && (forall kind :: Until(q, kind) == if TakesKind(w, id, kind, n) then w.tick + 600 else Until(p, kind))
          && q.maxBombs == (if !TakesAny(w, id, n) then p.maxBombs else if q.maxBombsBoostUntilTick > w.tick then 2 else 1)
          && q.bombRange == (if !TakesAny(w, id, n) then p.bombRange else if q.bombRangeBoostUntilTick > w.tick then 2 else 1)
          && q.pos == p.pos && q.alive == p.alive && q.inputLocked == p.inputLocked && q.activeBombCount == p.activeBombCount
          && q.input == p.input && q.previousTickButtons == p.previousTickButtons)
  }

  ghost predicate Gathered(w: World, t: World, n: nat) {
    && t == w.(players := t.players, powerups := t.powerups)
    && |t.players| == |w.players| && |t.powerups| == |w.powerups|
    && (forall j | 0 <= j < |w.powerups| ::
          t.powerups[j] == if j < n && exists id :: Takes(w, id, j) then None else w.powerups[j])
    && (forall id | 0 <= id < |w.players| :: Gained(w, id, t.players[id], n))
  }

  lemma CanCollectIsStanding(start: TileMap, w: World, slot: Option<Player>, id: nat, c: Cell)
    requires MidInv(start, w) && id < |w.players| && Inside(c)
    requires slot.Some? <==> w.players[id].Some?
    requires slot.Some? ==> slot.value.pos == w.players[id].value.pos && slot.value.alive == w.players[id].value.alive
                            && slot.value.inputLocked == w.players[id].value.inputLocked
    ensures CanCollect(slot, c) <==> StandsOn(w.players[id], c)
  {
    if slot.Some? {
      PlayerIsOk(start, w, id);
      ClearingBricksKeepsArena(start, w.tiles);
      ClearIsInside(w.tiles, slot.value.pos);
    }
  }

  /** The collector the code finds after some collections is the first one standing there before all of them. */
  lemma CollectorIsFirst(start: TileMap, w: World, t: World, n: nat, c: Cell)
    requires MidInv(start, w) && Inside(c) && Gathered(w, t, n)
    ensures var id := Collector(t.players, c);
      && (id < |w.players| ==> FirstOn(w.players, c, id))
      && (forall other | FirstOn(w.players, c, other) :: other == id)
  {
    hide MidInv, CanCollect, StandsOn, Collector;
    forall id | 0 <= id < |w.players| ensures CanCollect(t.players[id], c) <==> StandsOn(w.players[id], c) {
      assert Gained(w, id, t.players[id], n);
      CanCollectIsStanding(start, w, t.players[id], id, c);
    }
  }

  lemma NothingGathered(w: World)
    ensures Gathered(w, w, 0)
  {
  }

  /** Slot n is not taken by anybody. */
  lemma SkippedSlot(w: World, t: World, n: nat)
    requires Gathered(w, t, n) && forall id :: !Takes(w, id, n)
    ensures Gathered(w, t, n + 1)
  {
    hide Takes, Gained;
    forall id | 0 <= id < |w.players| ensures Gained(w, id, t.players[id], n + 1) {
      BystanderGains(w, id, t.players[id], n);
    }
  }

  /** What one more effect does to a player. */
  lemma OneEffect(p: Player, kind: PowerupType, tick: nat)
    requires Until(p, kind) <= tick + 600
    ensures var q := Loadout(WithEffect(p, kind, tick), tick);
      && (forall k :: Until(q, k) == if k == kind then tick + 600 else Until(p, k))
      && q.maxBombs == (if q.maxBombsBoostUntilTick > tick then 2 else 1)
      && q.bombRange == (if q.bombRangeBoostUntilTick > tick then 2 else 1)
      && q.pos == p.pos && q.alive == p.alive && q.inputLocked == p.inputLocked && q.activeBombCount == p.activeBombCount
      && q.input == p.input && q.previousTickButtons == p.previousTickButtons
  {
  }

  /** The taker of slot n. */
  lemma TakerGains(w: World, id: nat, before: Option<Player>, n: nat)
    requires n < |w.powerups| && id < |w.players| && Takes(w, id, n)
    requires Gained(w, id, before, n) && before.Some? && Until(before.value, w.powerups[n].value.kind) <= w.tick + 600
    ensures Gained(w, id, Some(Loadout(WithEffect(before.value, w.powerups[n].value.kind, w.tick), w.tick)), n + 1)
  {
    var kind := w.powerups[n].value.kind;
    OneEffect(before.value, kind, w.tick);
    hide Takes, Until, Loadout, WithEffect;
    assert TakesAny(w, id, n + 1);
    forall k ensures TakesKind(w, id, k, n + 1) <==> TakesKind(w, id, k, n) || k == kind {
    }
  }

  /** Anybody else. */
  lemma BystanderGains(w: World, id: nat, before: Option<Player>, n: nat)
    requires id < |w.players| && !Takes(w, id, n) && Gained(w, id, before, n)
    ensures Gained(w, id, before, n + 1)
  {
    hide Takes, Until;
    assert TakesAny(w, id, n + 1) <==> TakesAny(w, id, n);
    forall kind ensures TakesKind(w, id, kind, n + 1) <==> TakesKind(w, id, kind, n) {
    }
  }

  /** Slot n is taken by id. */
  lemma TakenSlot(w: World, t: World, next: World, n: nat, id: nat)
    requires Gathered(w, t, n) && n < |w.powerups| && id < |w.players| && Takes(w, id, n) && forall other | Takes(w, other, n) :: other == id
    requires t.players[id].Some? && Until(t.players[id].value, w.powerups[n].value.kind) <= w.tick + 600
    requires next == t.(players := t.players[id := Some(Loadout(WithEffect(t.players[id].value, w.powerups[n].value.kind, w.tick), w.tick))],
                        powerups := t.powerups[n := None])
    ensures Gathered(w, next, n + 1)
  {
    PowerupTaken(w, id, n);
    hide Takes, Gained, Until, Loadout, WithEffect;
    forall other | 0 <= other < |w.players| ensures Gained(w, other, next.players[other], n + 1) {
      assert Gained(w, other, t.players[other], n);
      if other == id {
        TakerGains(w, id, t.players[id], n);
      } else {
        BystanderGains(w, other, t.players[other], n);
      }
    }
  }

  lemma PowerupTaken(w: World, id: nat, n: nat)
    requires Takes(w, id, n)
    ensures n < |w.powerups| && w.powerups[n].Some?
  {
  }

  lemma OneMoreSlot(start: TileMap, w: World, t: World, n: nat)
    requires MidInv(start, w) && TimersOk(t) && n < |w.powerups| && Gathered(w, t, n)
    ensures Gathered(w, CollectOne(t, n), n + 1)
  {
    hide MidInv, TimersOk, Gained, StandsOn, FirstOn, Collector, Loadout, WithEffect, Gathered;
    SlotStillThere(w, t, n);
    if Collectable(t, n) {
      var u := w.powerups[n].value;
      PowerupIsInside(start, w, n);
      CollectorIsFirst(start, w, t, n, u.cell);
      var id := Collector(t.players, u.cell);
      CollectorIsBounded(t.players, u.cell);
      if id < |t.players| {
        UntilIsBounded(t, id, u.kind);
        TakenSlot(w, t, CollectOne(t, n), n, id);
      } else {
        NobodyFirst(w, u.cell, id);
        SkippedSlot(w, t, n);
      }
    } else {
      SkippedSlot(w, t, n);
    }
  }

  lemma SlotStillThere(w: World, t: World, n: nat)
    requires n < |w.powerups| && Gathered(w, t, n)
    ensures n < |t.powerups| && t.powerups[n] == w.powerups[n] && t.tick == w.tick && |t.players| == |w.players|
  {
  }

  lemma PowerupIsInside(start: TileMap, w: World, n: nat)
    requires MidInv(start, w) && n < |w.powerups| && w.powerups[n].Some?
    ensures Inside(w.powerups[n].value.cell) && w.powersEnabled
  {
  }

  lemma CollectorIsBounded(players: seq<Option<Player>>, c: Cell)
    ensures Collector(players, c) <= |players|
    ensures Collector(players, c) < |players| ==> players[Collector(players, c)].Some?
  {
  }

  lemma UntilIsBounded(t: World, id: nat, kind: PowerupType)
    requires TimersOk(t) && id < |t.players| && t.players[id].Some?
    ensures Until(t.players[id].value, kind) <= t.tick + 600
  {
  }

  lemma NobodyFirst(w: World, c: Cell, id: nat)
    requires id == |w.players| && forall other | FirstOn(w.players, c, other) :: other == id
    ensures forall other :: !FirstOn(w.players, c, other)
  {
  }

  lemma {:induction false} SlotsInTurn(start: TileMap, w: World, n: nat)
    requires MidInv(start, w) && TimersOk(w) && w.powersEnabled && n <= |w.powerups|
    ensures Gathered(w, CollectPowerups(w, n), n)
    decreases n
  {
    hide MidInv, TimersOk, Gathered, CollectOne;
    if n == 0 {
      NothingGathered(w);
    } else {
      SlotsInTurn(start, w, n - 1);
      CollectKeepsTimers(w, n - 1);
      OneMoreSlot(start, w, CollectPowerups(w, n - 1), n - 1);
    }
  }

  /**
   * The whole collection of a tick, outright. A slot is emptied exactly if its powerup was revealed before this
   * tick and some living, unlocked player's centre is on its cell; the lowest such id then has that effect for
   * exactly 600 ticks from now; every other slot, effect and player stays as it was.
   */
  lemma CollectionOutright(start: TileMap, w: World)
    requires MidInv(start, w) && TimersOk(w)
    ensures Gathered(w, CollectPowerups(w, |w.powerups|), |w.powerups|)
  {
    if w.powersEnabled {
      SlotsInTurn(start, w, |w.powerups|);
    } else {
      hide TimersOk, Gained;
      NoPowerups(start, w);
      forall id | 0 <= id < |w.players| ensures Gained(w, id, w.players[id], |w.powerups|) {
        NothingTaken(w, id);
      }
    }
  }

  lemma NoPowerups(start: TileMap, w: World)
    requires MidInv(start, w) && !w.powersEnabled
    ensures forall j | 0 <= j < |w.powerups| :: w.powerups[j].None?
  {
    hide BombsOk, CountsOk, PlayersOk, MapOk;
  }

  lemma NothingTaken(w: World, id: nat)
    requires id < |w.players| && forall j | 0 <= j < |w.powerups| :: w.powerups[j].None?
    ensures Gained(w, id, w.players[id], |w.powerups|)
  {
  }

  // ----- Powerups over a whole tick -----

  ghost predicate KeepsEffects(slot: Option<Player>, next: Option<Player>) {
    (next.Some? <==> slot.Some?) && (slot.Some? ==> forall kind :: Until(next.value, kind) == Until(slot.value, kind))
  }

  lemma TurnKeepsPowerups(w: World, id: nat, lead: nat)
    requires id < |w.players|
    ensures var t := SimulatePlayer(w, id, lead);
      && t.powerups == w.powerups && t.powersEnabled == w.powersEnabled && t.tick == w.tick && |t.players| == |w.players|
      && forall other | 0 <= other < |w.players| :: KeepsEffects(w.players[other], t.players[other])
  {
    hide MayPlace, FirstFree, StepMovementWithCollision, ResolveForTick;
  }

  lemma {:induction false} TurnsKeepPowerups(w: World, n: nat, lead: nat)
    requires n <= |w.players|
    ensures var t := SimulatePlayers(w, n, lead);
      && t.powerups == w.powerups && t.powersEnabled == w.powersEnabled && t.tick == w.tick && |t.players| == |w.players|
      && forall other | 0 <= other < |w.players| :: KeepsEffects(w.players[other], t.players[other])
    decreases n
  {
    if n > 0 {
      hide SimulatePlayer, KeepsEffects;
      TurnsKeepPowerups(w, n - 1, lead);
      var before, t := SimulatePlayers(w, n - 1, lead), SimulatePlayers(w, n, lead);
      TurnKeepsPowerups(before, n - 1, lead);
      forall other | 0 <= other < |w.players| ensures KeepsEffects(w.players[other], t.players[other]) {
        EffectsChain(w.players[other], before.players[other], t.players[other]);
      }
    }
  }

  /** Slot j lay open before the tick, and id is the first to stand on it now. */
  predicate PicksUp(w: World, t: World, id: int, j: int) {
    && 0 <= j < |w.powerups| && w.powerups[j].Some? && w.powerups[j].value.revealed
    && FirstOn(t.players, w.powerups[j].value.cell, id)
  }

  ghost predicate PicksUpKind(w: World, t: World, id: int, kind: PowerupType) {
    exists j | 0 <= j < |w.powerups| :: PicksUp(w, t, id, j) && w.powerups[j].value.kind == kind
  }

  /** A slot after the tick: picked up, bared by this tick's explosions, or as it was. */
  ghost predicate SlotAfter(w: World, moved: World, t: World, j: nat)
    requires j < |w.powerups| && j < |t.powerups|
  {
    t.powerups[j] ==
      if w.powerups[j].None? || (exists id :: PicksUp(w, t, id, j)) then None
      else if !w.powerups[j].value.revealed && Detonations.Shattered(moved, w.powerups[j].value.cell)
      then Some(w.powerups[j].value.(revealed := true, revealedTick := w.tick + 1))
      else w.powerups[j]
  }

  ghost predicate EffectsAfter(w: World, t: World, id: nat)
    requires id < |w.players| && id < |t.players|
  {
    && (t.players[id].Some? <==> w.players[id].Some?)
    && (w.players[id].Some? ==> forall kind ::
          Until(t.players[id].value, kind) == if PicksUpKind(w, t, id, kind) then w.tick + 601 else Until(w.players[id].value, kind))
  }

  lemma StandingIsKept(b: World, t: World, n: nat, c: Cell, id: int)
    requires Gathered(b, t, n)
    ensures FirstOn(t.players, c, id) <==> FirstOn(b.players, c, id)
  {
    forall other | 0 <= other < |b.players| ensures StandsOn(t.players[other], c) <==> StandsOn(b.players[other], c) {
      assert Gained(b, other, t.players[other], n);
    }
  }

  /** What the world of a tick is before its collection: `b`, out of `w` by moves and explosions. */
  ghost predicate BeforeCollecting(w: World, moved: World, b: World) {
    && b.tick == w.tick + 1 && |b.powerups| == |w.powerups| && |b.players| == |w.players|
    && (forall j | 0 <= j < |w.powerups| :: b.powerups[j] ==
          if w.powerups[j].Some? && !w.powerups[j].value.revealed && Detonations.Shattered(moved, w.powerups[j].value.cell)
          then Some(w.powerups[j].value.(revealed := true, revealedTick := w.tick + 1)) else w.powerups[j])
    && (forall id | 0 <= id < |w.players| :: KeepsEffects(w.players[id], b.players[id]))
  }

  lemma TakingIsPickingUp(w: World, moved: World, b: World, t: World, id: int, j: int)
    requires BeforeCollecting(w, moved, b) && Gathered(b, t, |b.powerups|)
    requires forall i | 0 <= i < |w.powerups| && w.powerups[i].Some? && w.powerups[i].value.revealed :: w.powerups[i].value.revealedTick <= w.tick
    ensures Takes(b, id, j) <==> PicksUp(w, t, id, j)
    ensures PicksUp(w, t, id, j) ==> b.powerups[j] == w.powerups[j]
  {
    hide Gathered, FirstOn, KeepsEffects, Detonations.Shattered;
    if 0 <= j < |w.powerups| && w.powerups[j].Some? {
      StandingIsKept(b, t, |b.powerups|, w.powerups[j].value.cell, id);
    }
  }

  lemma CollectingAfter(w: World, moved: World, b: World, t: World)
    requires BeforeCollecting(w, moved, b) && Gathered(b, t, |b.powerups|)
    requires forall i | 0 <= i < |w.powerups| && w.powerups[i].Some? && w.powerups[i].value.revealed :: w.powerups[i].value.revealedTick <= w.tick
    ensures |t.powerups| == |w.powerups| && |t.players| == |w.players|
    ensures forall j | 0 <= j < |w.powerups| :: SlotAfter(w, moved, t, j)
    ensures forall id | 0 <= id < |w.players| :: EffectsAfter(w, t, id)
  {
    hide Takes, PicksUp, Until, Detonations.Shattered;
    forall id, j ensures Takes(b, id, j) <==> PicksUp(w, t, id, j)
                 ensures 0 <= j < |w.powerups| && PicksUp(w, t, id, j) ==> b.powerups[j] == w.powerups[j] {
      TakingIsPickingUp(w, moved, b, t, id, j);
    }
    forall j | 0 <= j < |w.powerups| ensures SlotAfter(w, moved, t, j) {
      assert (exists id :: Takes(b, id, j)) <==> (exists id :: PicksUp(w, t, id, j));
      NothingToPick(w, t, j);
    }
    forall id | 0 <= id < |w.players| ensures EffectsAfter(w, t, id) {
      assert Gained(b, id, t.players[id], |b.powerups|);
      assert KeepsEffects(w.players[id], b.players[id]);
      forall kind ensures TakesKind(b, id, kind, |b.powerups|) <==> PicksUpKind(w, t, id, kind) {
      }
    }
  }

  lemma NothingToPick(w: World, t: World, j: nat)
    requires j < |w.powerups|
    ensures w.powerups[j].None? ==> forall id :: !PicksUp(w, t, id, j)
  {
  }

  lemma PowerupTicks(start: TileMap, w: World)
    requires WorldInv(start, w)
    ensures forall j | 0 <= j < |w.powerups| && w.powerups[j].Some? :: w.powersEnabled
    ensures forall i | 0 <= i < |w.powerups| && w.powerups[i].Some? && w.powerups[i].value.revealed :: w.powerups[i].value.revealedTick <= w.tick
  {
    hide BombsOk, CountsOk, PlayersOk, MapOk;
  }

  /**
   * Powerups over a whole gameplay tick. A powerup that lay open before the tick is picked up exactly if, after the
   * moves and explosions of the tick, some living, unlocked player's centre is on its cell; the lowest such id has
   * the effect for 600 ticks from this one. A hidden one is bared exactly if its brick was shattered. All other
   * powerups and all other effects are as before.
   */
  lemma PowerupsOfATick(start: TileMap, w: World, order: seq<nat>, lead: nat)
    requires WorldInv(start, w) && TimersOk(w) && ListsDue(AfterPlayers(w, lead), order)
    ensures var t := MatchTick(w, order, lead);
      && |t.powerups| == |w.powerups| && |t.players| == |w.players|
      && (forall j | 0 <= j < |w.powerups| :: SlotAfter(w, AfterPlayers(w, lead), t, j))
      && (forall id | 0 <= id < |w.players| :: EffectsAfter(w, t, id))
  {
    var moved := AfterPlayers(w, lead);
    DueIsInRange(moved, order);
    ExplosionsBeforeCollecting(start, w, order, lead);
    PowerupTicks(start, w);
    hide AfterPlayers, ExplodeAll, CollectPowerups, ListsDue, WorldInv, TimersOk, BeforeCollecting, Gathered, SlotAfter, EffectsAfter;
    var b := ExplodeAll(moved, order, moved.tiles);
    CollectionOutright(start, b);
    SameNumber(w, moved, b);
    CollectingAfter(w, moved, b, MatchTick(w, order, lead));
  }

  lemma SameNumber(w: World, moved: World, b: World)
    requires BeforeCollecting(w, moved, b)
    ensures |b.powerups| == |w.powerups|
  {
  }

  lemma ExplosionsBeforeCollecting(start: TileMap, w: World, order: seq<nat>, lead: nat)
    requires WorldInv(start, w) && TimersOk(w) && ListsDue(AfterPlayers(w, lead), order)
    ensures var moved := AfterPlayers(w, lead); var b := ExplodeAll(moved, order, moved.tiles);
      BeforeCollecting(w, moved, b) && MidInv(start, b) && TimersOk(b)
  {
    hide SimulatePlayers, ExplodeAll, ListsDue, TimersOk, MidInv, KeepsEffects, BeforeCollecting;
    var moved := AfterPlayers(w, lead);
    var w1 := w.(tick := w.tick + 1);
    TurnsKeepPowerups(w1, |w1.players|, lead);
    AfterPlayersKeepsTimers(w, lead);
    ExplosionsKeepTimers(moved, order);
    PowerupTicks(start, w);
    AfterPlayersHolds(start, w, lead);
    ExplosionsKeepInv(start, moved, order);
    ExplosionsKeepEffects(w, moved, order);
  }

  lemma ExplosionsKeepEffects(w: World, moved: World, order: seq<nat>)
    requires ListsDue(moved, order) && moved.tick == w.tick + 1 && moved.powerups == w.powerups && moved.powersEnabled == w.powersEnabled
    requires |moved.players| == |w.players| && forall id | 0 <= id < |w.players| :: KeepsEffects(w.players[id], moved.players[id])
    requires forall j | 0 <= j < |w.powerups| && w.powerups[j].Some? :: w.powersEnabled
    ensures BeforeCollecting(w, moved, ExplodeAll(moved, order, moved.tiles))
  {
    hide ExplodeAll, ListsDue, KeepsEffects, Detonations.Shattered;
    SlotsBared(moved, order);
    SurvivorsKeepEffects(moved, order);
    DueIsInRange(moved, order);
    var b := ExplodeAll(moved, order, moved.tiles);
    forall id | 0 <= id < |w.players| ensures KeepsEffects(w.players[id], b.players[id]) {
      EffectsChain(w.players[id], moved.players[id], b.players[id]);
    }
  }

  lemma SlotsBared(w: World, order: seq<nat>)
    requires ListsDue(w, order)
    ensures var t := ExplodeAll(w, order, w.tiles);
      && t.tick == w.tick && |t.powerups| == |w.powerups|
      && forall j | 0 <= j < |w.powerups| :: t.powerups[j] ==
           if w.powersEnabled && w.powerups[j].Some? && !w.powerups[j].value.revealed && Detonations.Shattered(w, w.powerups[j].value.cell)
           then Some(w.powerups[j].value.(revealed := true, revealedTick := w.tick)) else w.powerups[j]
  {
    hide ExplodeAll, ListsDue, Detonations.Shattered, Detonations.Survives;
    Detonations.ExplosionsOnTheGrid(w, order);
  }

  lemma SurvivorsKeepEffects(w: World, order: seq<nat>)
    requires ListsDue(w, order)
    ensures var t := ExplodeAll(w, order, w.tiles);
      && |t.players| == |w.players|
      && forall id | 0 <= id < |w.players| :: KeepsEffects(w.players[id], t.players[id])
  {
    hide ExplodeAll, ListsDue, KeepsEffects, Detonations.Shattered, Detonations.Survives;
    Detonations.ExplosionsOnTheGrid(w, order);
    DueIsInRange(w, order);
    var t := ExplodeAll(w, order, w.tiles);
    forall id | 0 <= id < |w.players| ensures KeepsEffects(w.players[id], t.players[id]) {
      SurvivorKeepsEffects(w, id, t.players[id]);
    }
  }

  lemma SurvivorKeepsEffects(moved: World, id: nat, next: Option<Player>)
    requires id < |moved.players| && Detonations.Survives(moved, id, next)
    ensures KeepsEffects(moved.players[id], next)
  {
    hide Detonations.Struck, Detonations.Expired;
  }

  lemma EffectsChain(a: Option<Player>, b: Option<Player>, c: Option<Player>)
    requires KeepsEffects(a, b) && KeepsEffects(b, c)
    ensures KeepsEffects(a, c)
  {
  }

  lemma AfterPlayersHolds(start: TileMap, w: World, lead: nat)
    requires WorldInv(start, w)
    ensures MidInv(start, AfterPlayers(w, lead))
  {
    hide MidInv, SimulatePlayers;
    TickStarts(start, w);
    var w1 := w.(tick := w.tick + 1);
    SameShape(start, w1);
    SimulatePlayersKeepsInv(start, w1, |w1.players|, lead);
  }
}
