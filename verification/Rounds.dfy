/**
 * A whole round as a run of events, from match bootstrap to the return to the lobby
 * (Server/ServerSimulation.cpp, Server/ServerFlow.cpp, Server/ServerMatchFlow.cpp).
 */
module Rounds {
  import opened Config
  import opened Wrappers
  import opened Tiles
  import opened Movement
  import opened Input
  import opened Blast
  import opened World
  import opened ExplosionOrder
  import opened WorldRuns

  const UNLOCK_DELAY_TICKS := 60

  /** Loading: bootstrap sent. Opening: committed, inputs still locked. Open: playing. Ended: result shown. */
  datatype Stage = Loading | Opening | Open | Ended

  datatype Round = Round(stage: Stage, world: World)

  datatype RoundEvent =
    | Wait
    | Deliver(id: nat, batch: MsgInput)
    | Commit
    | Unlock
    | Tick(order: seq<nat>)
    | Leave(id: nat)
    | End

  // ----- The start of a round -----

  function NewPlayer(id: nat): Player {
    Player(SpawnPos(id), true, true, 0, 1, 1, 0, 0, 0, 0, NEW_RECEIVER, 0)
  }

  /** The powerup kinds of a round, in slot order. */
  const ROUND_POWERUPS: seq<PowerupType> := [SpeedBoost, Invincibility, BombRangeBoost, MaxBombsBoost]

  predicate Hides(tiles: TileMap, slot: Option<Powerup>, kind: PowerupType) {
    && slot.Some? && slot.value.kind == kind && !slot.value.revealed && slot.value.revealedTick == 0
    && Inside(slot.value.cell) && TileAt(tiles, slot.value.cell) == Brick
  }

  /** A round's hidden powerups: all four under distinct bricks, or none. */
  ghost predicate IsPlacement(tiles: TileMap, powerups: seq<Option<Powerup>>, enabled: bool) {
    && |powerups| == POWERUP_CAPACITY
    && ((forall j | 0 <= j < |powerups| :: powerups[j].None?)
        || (enabled
            && (forall j | 0 <= j < |powerups| :: Hides(tiles, powerups[j], ROUND_POWERUPS[j]))
            && (forall i, j | 0 <= i < j < |powerups| :: powerups[i].value.cell != powerups[j].value.cell)))
  }

  ghost predicate RoundStarts(start: TileMap, r: Round) {
    && r.stage == Loading && Shape(r.world)
    && Arena(start) && r.world.tiles == start && r.world.sent == []
    && NoBombs(r.world.bombs)
    && (forall id | 0 <= id < MAX_PLAYERS && r.world.players[id].Some? :: r.world.players[id].value == NewPlayer(id))
    && IsPlacement(start, r.world.powerups, r.world.powersEnabled)
  }

  ghost predicate NoBombs(bombs: seq<Option<BombState>>) {
    forall i | 0 <= i < |bombs| :: bombs[i].None?
  }

  // ----- Steps -----

  function ArmPlayers(players: seq<Option<Player>>, unlockTick: nat, lead: nat): seq<Option<Player>> {
    seq(|players|, p requires 0 <= p < |players| =>
      if players[p].Some? then Some(players[p].value.(input := Armed(players[p].value.input, unlockTick, lead))) else None)
  }

  ghost predicate Enabled(r: Round, e: RoundEvent, lead: nat) {
    match e
    case Wait => r.stage == Loading
    case Deliver(id, batch) => id < |r.world.players| && batch.WellFormed()
    case Commit => r.stage == Loading
    case Unlock => r.stage == Opening
    case Tick(order) => r.stage.Ended? || (!r.stage.Loading? && ListsDue(AfterPlayers(r.world, lead), order))
    case Leave(id) => id < |r.world.players| && !r.stage.Loading?
    case End => r.stage == Opening || r.stage == Open
  }

  function Step(r: Round, e: RoundEvent, lead: nat): Round {
    var w := r.world;
    match e
    case Wait => r.(world := w.(tick := w.tick + 1))
    case Deliver(id, batch) =>
      if id < |w.players| && w.players[id].Some? then
        var p := w.players[id].value;
        r.(world := w.(players := w.players[id := Some(p.(input := Received(p.input, batch)))]))
      else r
    case Commit =>
      Round(Opening, w.(players := ArmPlayers(w.players, w.tick + UNLOCK_DELAY_TICKS, lead)))
    case Unlock => Round(Open, w.(players := SetLocks(w.players, false)))
    case Tick(order) =>
      if r.stage.Ended? then r.(world := EndedTick(w, lead))
      else if forall j | 0 <= j < |order| :: order[j] < |AfterPlayers(w, lead).bombs| then
        r.(world := MatchTick(w, order, lead))
      else r
    case Leave(id) => if id < |w.players| then r.(world := Depart(w, id)) else r
    case End => Round(Ended, EndRound(w))
  }

  function Run(r: Round, events: seq<RoundEvent>, lead: nat): Round
    decreases |events|
  {
    if events == [] then r else Step(Run(r, events[..|events| - 1], lead), events[|events| - 1], lead)
  }

  ghost predicate Possible(r: Round, events: seq<RoundEvent>, lead: nat)
    decreases |events|
  {
    events == [] ||
      var n := |events| - 1;
      Possible(r, events[..n], lead) && Enabled(Run(r, events[..n], lead), events[n], lead)
  }

  // ----- The invariant of a round -----

  ghost predicate AllLocked(players: seq<Option<Player>>) {
    forall id | 0 <= id < |players| && players[id].Some? :: players[id].value.inputLocked
  }

  ghost predicate AllAlive(players: seq<Option<Player>>) {
    forall id | 0 <= id < |players| && players[id].Some? :: players[id].value.alive
  }

  /** Before the unlock everybody is alive and locked; outside the open stage there is no bomb. */
  ghost predicate RoundInv(start: TileMap, r: Round) {
    && WorldInv(start, r.world)
    && (!r.stage.Open? ==> NoBombs(r.world.bombs) && AllLocked(r.world.players))
    && (r.stage.Loading? || r.stage.Opening? ==> AllAlive(r.world.players))
  }

  lemma NothingOwned(bombs: seq<Option<BombState>>, id: nat)
    requires NoBombs(bombs)
    ensures OwnedSlots(bombs, id) == {}
  {
  }

  lemma StartHoldsInv(start: TileMap, r: Round)
    requires RoundStarts(start, r)
    ensures RoundInv(start, r)
  {
    hide Clear;
    forall id: nat ensures OwnedSlots(r.world.bombs, id) == {} {
      NothingOwned(r.world.bombs, id);
    }
    forall id | 0 <= id < MAX_PLAYERS && r.world.players[id].Some? ensures PlayerOk(start, r.world.players[id].value) {
      SpawnIsClear(start, id);
    }
  }

  /** Replacing players by players that stand where they stood and own what they owned. */
  ghost predicate SameStanding(slot: Option<Player>, next: Option<Player>) {
    && (next.Some? ==> slot.Some?)
    && (next.Some? ==>
          && next.value.pos == slot.value.pos && next.value.activeBombCount == slot.value.activeBombCount
          && next.value.maxBombs == slot.value.maxBombs && next.value.bombRange == slot.value.bombRange
          && next.value.alive == slot.value.alive && (slot.value.inputLocked && !slot.value.alive ==> next.value.inputLocked))
  }

  lemma SameStandingKeepsInv(start: TileMap, w: World, players: seq<Option<Player>>)
    requires WorldInv(start, w) && |players| == |w.players|
    requires forall id | 0 <= id < |players| :: SameStanding(w.players[id], players[id])
    ensures WorldInv(start, w.(players := players))
  {
    hide BombsOk, PowerupsOk, MapOk, Clear;
  }

  /** Clearing every bomb and every count together. */
  lemma EndRoundKeepsInv(start: TileMap, w: World)
    requires WorldInv(start, w)
    ensures WorldInv(start, EndRound(w)) && NoBombs(EndRound(w).bombs) && AllLocked(EndRound(w).players)
  {
    hide PowerupsOk, MapOk, Clear;
    var after := EndRound(w);
    forall id: nat ensures OwnedSlots(after.bombs, id) == {} {
      NothingOwned(after.bombs, id);
    }
  }

  /** Unlocking reaches only living players, because nobody can have died before it. */
  lemma UnlockKeepsInv(start: TileMap, w: World)
    requires WorldInv(start, w) && AllAlive(w.players)
    ensures WorldInv(start, w.(players := SetLocks(w.players, false)))
  {
    hide WorldInv;
    SizeOfPlayers(start, w);
    SameStandingKeepsInv(start, w, SetLocks(w.players, false));
  }

  lemma SizeOfPlayers(start: TileMap, w: World)
    requires WorldInv(start, w)
    ensures Shape(w)
  {
  }

  // ----- Locked ticks -----

  /** A locked player's tick: nothing moves, nothing is placed, nobody dies. */
  lemma LockedPlayerIsIdle(w: World, id: nat, lead: nat)
    requires id < |w.players| && AllLocked(w.players)
    ensures var after := SimulatePlayer(w, id, lead);
      && after == w.(players := after.players) && |after.players| == |w.players|
      && AllLocked(after.players) && (AllAlive(w.players) ==> AllAlive(after.players))
      && SamePlaces(w.players, after.players)
  {
    hide PlaceBomb, Moved, ResolveForTick;
  }

  ghost predicate SamePlaces(before: seq<Option<Player>>, after: seq<Option<Player>>) {
    && |before| == |after|
    && forall id | 0 <= id < |after| ::
         && (after[id].Some? <==> before[id].Some?)
         && (after[id].Some? ==> after[id].value.pos == before[id].value.pos && after[id].value.alive == before[id].value.alive)
  }

  lemma {:induction false} LockedTickIsIdle(w: World, n: nat, lead: nat)
    requires n <= |w.players| && AllLocked(w.players)
    ensures var after := SimulatePlayers(w, n, lead);
      && after == w.(players := after.players) && |after.players| == |w.players|
      && AllLocked(after.players) && (AllAlive(w.players) ==> AllAlive(after.players))
      && SamePlaces(w.players, after.players)
    decreases n
  {
    hide SimulatePlayer, AllLocked, AllAlive;
    if n > 0 {
      LockedTickIsIdle(w, n - 1, lead);
      LockedPlayerIsIdle(SimulatePlayers(w, n - 1, lead), n - 1, lead);
    }
  }

  lemma {:induction false} LockedPlayersCollectNothing(w: World, n: nat)
    requires AllLocked(w.players)
    ensures CollectPowerups(w, n) == w
    decreases n
  {
    if w.powersEnabled && n > 0 {
      LockedPlayersCollectNothing(w, n - 1);
    }
  }

  lemma FirstIsDue(w: World, order: seq<nat>)
    requires ListsDue(w, order) && order != []
    ensures IsDue(w, order[0])
  {
  }

  lemma NothingDue(w: World, order: seq<nat>)
    requires NoBombs(w.bombs) && ListsDue(w, order)
    ensures order == []
  {
    hide ListsDue;
    if order != [] {
      FirstIsDue(w, order);
    }
  }

  /** A locked tick of a bomb-free world moves nobody and changes nothing but the players' input and timers. */
  lemma QuietTick(w: World, order: seq<nat>, lead: nat)
    requires NoBombs(w.bombs) && AllLocked(w.players) && ListsDue(AfterPlayers(w, lead), order)
    ensures var after := MatchTick(w, order, lead);
      && after == AfterPlayers(w, lead)
      && after == w.(tick := w.tick + 1, players := after.players)
      && NoBombs(after.bombs) && AllLocked(after.players) && (AllAlive(w.players) ==> AllAlive(after.players))
      && SamePlaces(w.players, after.players)
  {
    hide SimulatePlayers, CollectPowerups, AllAlive;
    var w1 := w.(tick := w.tick + 1);
    LockedTickIsIdle(w1, |w1.players|, lead);
    var after := AfterPlayers(w, lead);
    NothingDue(after, order);
    LockedPlayersCollectNothing(after, |w.powerups|);
  }

  lemma EndedTickKeepsInv(start: TileMap, w: World, lead: nat)
    requires WorldInv(start, w) && NoBombs(w.bombs) && AllLocked(w.players)
    ensures WorldInv(start, EndedTick(w, lead)) && NoBombs(EndedTick(w, lead).bombs) && AllLocked(EndedTick(w, lead).players)
  {
    hide MidInv, SimulatePlayers;
    TickStarts(start, w);
    var w1 := w.(tick := w.tick + 1);
    SameShape(start, w1);
    SimulatePlayersKeepsInv(start, w1, |w1.players|, lead);
    LockedTickIsIdle(w1, |w1.players|, lead);
  }

  // ----- Every run -----

  lemma StepKeepsInv(start: TileMap, r: Round, e: RoundEvent, lead: nat)
    requires RoundInv(start, r) && Enabled(r, e, lead)
    ensures RoundInv(start, Step(r, e, lead))
  {
    hide MatchTick, EndedTick, EndRound, AfterPlayers, ListsDue, Received, Armed;
    SizeOfPlayers(start, r.world);
    match e
    case Wait =>
      WaitKeepsInv(start, r.world);
    case Deliver(id, batch) =>
      hide WorldInv;
      SameStandingKeepsInv(start, r.world, Step(r, e, lead).world.players);
    case Commit =>
      hide WorldInv;
      SameStandingKeepsInv(start, r.world, Step(r, e, lead).world.players);
    case Unlock =>
      hide WorldInv;
      UnlockKeepsInv(start, r.world);
    case Tick(order) =>
      hide WorldInv;
      if r.stage.Ended? {
        EndedTickKeepsInv(start, r.world, lead);
      } else {
        MatchTickKeepsInv(start, r.world, order, lead);
        if r.stage.Opening? {
          QuietTick(r.world, order, lead);
        }
      }
    case Leave(id) =>
      hide WorldInv;
      SameStandingKeepsInv(start, r.world, Depart(r.world, id).players);
    case End =>
      hide WorldInv;
      EndRoundKeepsInv(start, r.world);
  }

  lemma WaitKeepsInv(start: TileMap, w: World)
    requires WorldInv(start, w) && NoBombs(w.bombs)
    ensures WorldInv(start, w.(tick := w.tick + 1))
  {
    hide CountsOk, PlayersOk, MapOk;
  }

  /** Every state of every round satisfies the whole-world invariant. */
  lemma {:induction false} EveryRoundHolds(start: TileMap, r: Round, events: seq<RoundEvent>, lead: nat)
    requires RoundStarts(start, r) && Possible(r, events, lead)
    ensures RoundInv(start, Run(r, events, lead))
    decreases |events|
  {
    hide RoundInv, Enabled, Step, RoundStarts;
    if events == [] {
      StartHoldsInv(start, r);
    } else {
      var n := |events| - 1;
      EveryRoundHolds(start, r, events[..n], lead);
      StepKeepsInv(start, Run(r, events[..n], lead), events[n], lead);
    }
  }

  /** The round is where some possible run from a fresh round ends. */
  ghost predicate Reached(start: TileMap, r: Round, lead: nat) {
    exists first, events :: RoundStarts(start, first) && Possible(first, events, lead) && Run(first, events, lead) == r
  }

  lemma StartIsReached(start: TileMap, r: Round, lead: nat)
    requires RoundStarts(start, r)
    ensures Reached(start, r, lead) && RoundInv(start, r)
  {
    hide RoundStarts, RoundInv;
    StartHoldsInv(start, r);
    assert Possible(r, [], lead) && Run(r, [], lead) == r;
  }

  lemma ReachedHolds(start: TileMap, r: Round, lead: nat)
    requires Reached(start, r, lead)
    ensures RoundInv(start, r)
  {
    hide RoundStarts, RoundInv, Possible, Run;
    var first, events :| RoundStarts(start, first) && Possible(first, events, lead) && Run(first, events, lead) == r;
    EveryRoundHolds(start, first, events, lead);
  }

  lemma ReachedStep(start: TileMap, r: Round, e: RoundEvent, lead: nat)
    requires Reached(start, r, lead) && Enabled(r, e, lead)
    ensures Reached(start, Step(r, e, lead), lead) && RoundInv(start, Step(r, e, lead))
  {
    hide RoundStarts, RoundInv, Enabled, Step;
    var first, events :| RoundStarts(start, first) && Possible(first, events, lead) && Run(first, events, lead) == r;
    assert (events + [e])[..|events|] == events;
    assert Possible(first, events + [e], lead) && Run(first, events + [e], lead) == Step(r, e, lead);
    EveryRoundHolds(start, first, events + [e], lead);
  }

  // ----- What the invariant rules out -----

  function LiveSlots(bombs: seq<Option<BombState>>): set<nat> {
    set i: nat | i < |bombs| && bombs[i].Some?
  }

  lemma UnionSize(a: set<nat>, b: set<nat>)
    ensures |a + b| <= |a| + |b|
  {
    assert a + b == a + (b - a);
  }

  lemma SubsetSize(a: set<nat>, b: set<nat>)
    requires a <= b
    ensures |a| <= |b|
  {
    assert b == a + (b - a);
  }

  lemma EveryLiveBombHasAnOwner(start: TileMap, w: World)
    requires MidInv(start, w)
    ensures LiveSlots(w.bombs) <= OwnedSlots(w.bombs, 0) + OwnedSlots(w.bombs, 1) + OwnedSlots(w.bombs, 2) + OwnedSlots(w.bombs, 3)
    ensures forall id | 0 <= id < 4 :: |OwnedSlots(w.bombs, id)| <= MAX_OWNED
  {
    hide PlayersOk, PowerupsOk, MapOk, TileAt, Solid;
  }

  /** Four ids, two bombs each: at most eight bombs are ever live. */
  lemma AtMostEightBombs(start: TileMap, w: World)
    requires MidInv(start, w)
    ensures |LiveSlots(w.bombs)| <= 8
  {
    EveryLiveBombHasAnOwner(start, w);
    hide MidInv, OwnedSlots, LiveSlots;
    var a, b, c, d := OwnedSlots(w.bombs, 0), OwnedSlots(w.bombs, 1), OwnedSlots(w.bombs, 2), OwnedSlots(w.bombs, 3);
    UnionSize(a, b);
    UnionSize(a + b, c);
    UnionSize(a + b + c, d);
    SubsetSize(LiveSlots(w.bombs), a + b + c + d);
  }

  function Below(n: nat): (r: set<nat>)
    ensures |r| == n && forall i | i in r :: i < n
  {
    if n == 0 then {} else Below(n - 1) + {n - 1}
  }

  /** The bomb table is never exhausted. */
  lemma AFreeSlotExists(start: TileMap, w: World)
    requires MidInv(start, w)
    ensures FirstFree(w.bombs) < |w.bombs|
  {
    AtMostEightBombs(start, w);
    SameShape(start, w);
    hide MidInv;
    assert FirstFree(w.bombs) == |w.bombs| ==> Below(9) <= LiveSlots(w.bombs);
    if Below(9) <= LiveSlots(w.bombs) {
      hide LiveSlots;
      SubsetSize(Below(9), LiveSlots(w.bombs));
    }
  }

  /**
   * In every state a placement attempt can meet, the off-map, solid-tile and table-full rejections cannot
   * happen: the edge, the player's own state, its bomb cap and the occupied cell decide.
   */
  lemma WhatDecidesAPlacement(start: TileMap, w: World, id: nat)
    requires MidInv(start, w) && id < |w.players| && w.players[id].Some?
    ensures var p := w.players[id].value;
      && Inside(CentreCell(p.pos)) && !Solid(TileAt(w.tiles, CentreCell(p.pos)))
      && (MayPlace(w, p) <==>
            && BombEdge(p) && p.alive && !p.inputLocked
            && |OwnedSlots(w.bombs, id)| < p.maxBombs && !Occupied(w.bombs, CentreCell(p.pos)))
  {
    AFreeSlotExists(start, w);
    PlayerIsOk(start, w, id);
    var p := w.players[id].value;
    ClearingBricksKeepsArena(start, w.tiles);
    ClearIsInside(w.tiles, p.pos);
  }
}
