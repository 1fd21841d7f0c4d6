/**
 * The server's round state, updated in place (Server/ServerBombs.cpp, Server/ServerPowerups.cpp,
 * Server/ServerSimulation.cpp). Every method is proved against the steps of module World.
 */
module MatchWorld {
  import opened Config
  import opened Utils
  import opened Wrappers
  import opened Tiles
  import opened Movement
  import opened Input
  import opened Blast
  import opened World
  import Rounds
  import Sorting

  /** One bomb due this tick, with what the resolution order looks at. */
  datatype DueBombRef = DueBombRef(index: nat, originRow: int, originCol: int, ownerId: nat)

  /** The order of resolution: row, column, owner, table index. */
  predicate Before(a: DueBombRef, b: DueBombRef) {
    if a.originRow != b.originRow then a.originRow < b.originRow
    else if a.originCol != b.originCol then a.originCol < b.originCol
    else if a.ownerId != b.ownerId then a.ownerId < b.ownerId
    else a.index < b.index
  }

  function RefOf(index: nat, b: BombState): DueBombRef {
    DueBombRef(index, b.cell.row, b.cell.col, b.ownerId)
  }

  function RefKey(r: DueBombRef): int {
    ((r.originRow * WIDTH + r.originCol) * 256 + r.ownerId) * BOMB_CAPACITY + r.index
  }

  predicate RefInRange(r: DueBombRef) {
    InBounds(r.originCol, r.originRow) && r.ownerId < 256 && r.index < BOMB_CAPACITY
  }

  lemma KeyOrderIsResolutionOrder(a: DueBombRef, b: DueBombRef)
    requires RefInRange(a) && RefInRange(b)
    ensures RefKey(a) < RefKey(b) <==> Before(a, b)
    ensures RefKey(a) == RefKey(b) <==> a == b
  {
    var ca, cb := CellKey(a.originCol, a.originRow), CellKey(b.originCol, b.originRow);
    CellKeyIsInjective(Cell(a.originCol, a.originRow), Cell(b.originCol, b.originRow));
    var oa, ob := ca * 256 + a.ownerId, cb * 256 + b.ownerId;
    assert oa < ob <==> ca < cb || (ca == cb && a.ownerId < b.ownerId);
    assert oa == ob <==> ca == cb && a.ownerId == b.ownerId;
    OneMoreDigit(oa, ob, a.index, b.index);
  }

  lemma OneMoreDigit(a: int, b: int, x: nat, y: nat)
    requires x < BOMB_CAPACITY && y < BOMB_CAPACITY
    ensures a * BOMB_CAPACITY + x < b * BOMB_CAPACITY + y <==> a < b || (a == b && x < y)
    ensures a * BOMB_CAPACITY + x == b * BOMB_CAPACITY + y <==> a == b && x == y
  {
  }

  /** The due bombs of one world in the order the server resolves them. */
  ghost predicate InResolutionOrder(w: World, order: seq<nat>) {
    && ListsDue(w, order)
    && forall j, k | 0 <= j < k < |order| ::
         Before(RefOf(order[j], w.bombs[order[j]].value), RefOf(order[k], w.bombs[order[k]].value))
  }

  class MatchWorld {
    var serverTick: nat
    var powersEnabled: bool
    const tiles: array<Tile>
    const matchPlayers: array<Option<Player>>
    const bombs: array<Option<BombState>>
    const powerups: array<Option<Powerup>>
    var sent: seq<Message>

    ghost predicate Valid()
      reads this, bombs
    {
      && tiles.Length == TILE_COUNT && matchPlayers.Length == MAX_PLAYERS
      && bombs.Length == BOMB_CAPACITY && powerups.Length == POWERUP_CAPACITY
      && OnMap(bombs[..])
    }

    ghost function Model(): World
      reads this, tiles, matchPlayers, bombs, powerups
      requires Valid()
    {
      World(serverTick, tiles[..], matchPlayers[..], bombs[..], powerups[..], powersEnabled, sent)
    }

    // ----- Single writes -----

    method SetBomb(i: nat, b: Option<BombState>)
      requires i < bombs.Length
      modifies bombs
      ensures bombs[..] == old(bombs[..])[i := b]
    {
      bombs[i] := b;
    }

    method SetPlayer(id: nat, p: Option<Player>)
      requires id < matchPlayers.Length
      modifies matchPlayers
      ensures matchPlayers[..] == old(matchPlayers[..])[id := p]
    {
      matchPlayers[id] := p;
    }

    method SetPowerup(i: nat, u: Option<Powerup>)
      requires i < powerups.Length
      modifies powerups
      ensures powerups[..] == old(powerups[..])[i := u]
    {
      powerups[i] := u;
    }

    // ----- One explosion -----

    /** Keeps the bricks that an earlier explosion of the same tick has not broken already. */
    method RetainCurrentlyIntactBricks(destroyed: seq<Cell>) returns (r: seq<Cell>)
      requires tiles.Length == TILE_COUNT && forall i | 0 <= i < |destroyed| :: Inside(destroyed[i])
      ensures r == Intact(tiles[..], destroyed)
    {
      r := [];
      for i := 0 to |destroyed|
        invariant r == Intact(tiles[..], destroyed[..i])
      {
        var c := destroyed[i];
        assert destroyed[..i + 1][..i] == destroyed[..i];
        if tiles[CellKey(c.col, c.row)] == Brick {
          r := r + [c];
        }
      }
      assert destroyed[..|destroyed|] == destroyed;
    }

    method ApplyDestroyedBricks(destroyed: seq<Cell>)
      requires tiles.Length == TILE_COUNT && forall i | 0 <= i < |destroyed| :: Inside(destroyed[i])
      modifies tiles
      ensures tiles[..] == Cleared(old(tiles[..]), destroyed)
    {
      ghost var before: TileMap := tiles[..];
      for i := 0 to |destroyed|
        invariant forall k | 0 <= k < TILE_COUNT :: tiles[k] == if CellOf(k) in destroyed[..i] then Grass else before[k]
      {
        var c := destroyed[i];
        assert destroyed[..i + 1] == destroyed[..i] + [c];
        assert forall k | 0 <= k < TILE_COUNT :: CellOf(k) == c <==> k == CellKey(c.col, c.row);
        tiles[CellKey(c.col, c.row)] := Grass;
      }
      assert destroyed[..|destroyed|] == destroyed;
    }

    method RevealPowerupsUnderDestroyedBricks(destroyed: seq<Cell>)
      requires powerups.Length == POWERUP_CAPACITY
      modifies powerups
      ensures powerups[..] == RevealPowerups(old(powerups[..]), powersEnabled, serverTick, destroyed)
    {
      if !powersEnabled || destroyed == [] {
        return;
      }
      for i := 0 to powerups.Length
        invariant forall j | 0 <= j < i :: powerups[j] == Uncovered(old(powerups[j]), serverTick, destroyed)
        invariant forall j | i <= j < powerups.Length :: powerups[j] == old(powerups[j])
      {
        if powerups[i].Some? && !powerups[i].value.revealed {
          RevealOne(i, destroyed);
        }
      }
    }

    method RevealOne(i: nat, destroyed: seq<Cell>)
      requires i < powerups.Length && powerups[i].Some? && !powerups[i].value.revealed
      modifies powerups
      ensures powerups[..] == old(powerups[..])[i := Uncovered(old(powerups[i]), serverTick, destroyed)]
    {
      for j := 0 to |destroyed|
        invariant powerups[..] == old(powerups[..]) && powerups[i].value.cell !in destroyed[..j]
      {
        if powerups[i].value.cell == destroyed[j] {
          powerups[i] := Some(powerups[i].value.(revealed := true, revealedTick := serverTick));
          return;
        }
      }
      assert destroyed[..|destroyed|] == destroyed;
    }

    method HitByBlast(pos: TilePos, cells: seq<Cell>) returns (hit: bool)
      ensures hit == OverlapsAny(pos, cells)
    {
      for i := 0 to |cells|
        invariant forall j | 0 <= j < i :: !OverlapsCell(pos, cells[j])
      {
        if OverlapsCell(pos, cells[i]) {
          return true;
        }
      }
      return false;
    }

    method KillPlayersInBlast(cells: seq<Cell>) returns (killed: set<nat>)
      requires matchPlayers.Length == MAX_PLAYERS
      modifies matchPlayers
      ensures matchPlayers[..] == KillPlayers(old(matchPlayers[..]), serverTick, cells)
      ensures killed == KilledIds(old(matchPlayers[..]), serverTick, cells)
    {
      hide OverlapsAny;
      killed := {};
      for id := 0 to matchPlayers.Length
        invariant forall j | 0 <= j < id :: matchPlayers[j] == Burned(old(matchPlayers[j]), serverTick, cells)
        invariant forall j | id <= j < matchPlayers.Length :: matchPlayers[j] == old(matchPlayers[j])
        invariant forall j :: j in killed <==> 0 <= j < id && old(matchPlayers[j]).Some? && Dies(old(matchPlayers[j]).value, serverTick, cells)
      {
        if matchPlayers[id].Some? && matchPlayers[id].value.alive && !EffectActive(matchPlayers[id].value.invincibleUntilTick, serverTick) {
          var hitByBlast := HitByBlast(matchPlayers[id].value.pos, cells);
          if hitByBlast {
            matchPlayers[id] := Some(Dead(matchPlayers[id].value));
            killed := killed + {id};
          }
        }
      }
    }

    method ReleaseBombOwnership(ownerId: nat)
      requires matchPlayers.Length == MAX_PLAYERS
      modifies matchPlayers
      ensures matchPlayers[..] == ReleaseOwnership(old(matchPlayers[..]), ownerId)
    {
      if ownerId >= matchPlayers.Length || matchPlayers[ownerId].None? {
        return;
      }
      var owner := matchPlayers[ownerId].value;
      if owner.activeBombCount == 0 {
        return;
      }
      SetPlayer(ownerId, Some(owner.(activeBombCount := owner.activeBombCount - 1)));
    }

    /** One bomb detonates; its blast is traced on the map as it was before the tick's first explosion. */
    method ResolveBombExplosion(bombIndex: nat, preExplosionTiles: TileMap)
      requires Valid()
      modifies this`sent, tiles, matchPlayers, bombs, powerups
      ensures Valid()
      ensures Model() == if bombIndex < BOMB_CAPACITY then ExplodeOne(old(Model()), bombIndex, preExplosionTiles) else old(Model())
    {
      hide Intact, Cleared, KillPlayers, KilledIds, ReleaseOwnership, RevealPowerups, BlastCells, BrokenBricks;
      if bombIndex >= bombs.Length || bombs[bombIndex].None? {
        return;
      }
      ghost var before := Model();
      var bomb := bombs[bombIndex].value;
      var blastCells, traced := ComputeBlastCellsAndCollectDestroyedBricks(preExplosionTiles, bomb.cell, bomb.radius);
      TracedBricksAreOnTheMap(preExplosionTiles, bomb.cell, bomb.radius);
      var destroyed := RetainCurrentlyIntactBricks(traced);
      IntactStaysOnTheMap(tiles[..], traced);
      ApplyDestroyedBricks(destroyed);
      RevealPowerupsUnderDestroyedBricks(destroyed);
      var killed := KillPlayersInBlast(blastCells);
      ReleaseBombOwnership(bomb.ownerId);
      RemovingKeepsOnMap(bombs[..], bombIndex);
      SetBomb(bombIndex, None);
      sent := sent + [Explosion(serverTick, bomb.ownerId, bomb.cell, bomb.radius, killed, blastCells, destroyed)];
    }

    // ----- All due bombs -----

    /** Lists the due bombs in table order. */
    method CollectDueBombs() returns (due: seq<DueBombRef>)
      requires Valid()
      ensures DueUpTo(Model(), due, BOMB_CAPACITY)
    {
      due := [];
      for i := 0 to bombs.Length
        invariant DueUpTo(Model(), due, i)
      {
        if bombs[i].Some? && bombs[i].value.explodeTick <= serverTick {
          due := due + [RefOf(i, bombs[i].value)];
        }
      }
    }

    /** Detonates the referenced bombs one after the other, all traced on the same map. */
    method DetonateInOrder(refs: seq<DueBombRef>, preExplosionTiles: TileMap)
      requires Valid() && forall j | 0 <= j < |refs| :: refs[j].index < BOMB_CAPACITY
      modifies this`sent, tiles, matchPlayers, bombs, powerups
      ensures Valid() && Model() == ExplodeAll(old(Model()), Indices(refs), preExplosionTiles)
    {
      hide ExplodeOne, OnMap;
      ghost var before := Model();
      ghost var order := Indices(refs);
      for i := 0 to |refs|
        invariant Valid() && Model() == ExplodeAll(before, order[..i], preExplosionTiles)
      {
        assert order[..i + 1][..i] == order[..i];
        ResolveBombExplosion(refs[i].index, preExplosionTiles);
      }
      assert order[..|refs|] == order;
    }

    /** Detonates every due bomb, in resolution order. */
    method ResolveExplodingBombs() returns (ghost order: seq<nat>)
      requires Valid()
      modifies this`sent, tiles, matchPlayers, bombs, powerups
      ensures Valid() && ListsDue(old(Model()), order)
      ensures OwnersFit(old(Model())) ==> InResolutionOrder(old(Model()), order)
      ensures Model() == ExplodeAll(old(Model()), order, old(Model()).tiles)
    {
      hide ListsDue, InResolutionOrder, DueUpTo, OwnersFit, OnMap, ExplodeAll, Sorting.SortBy, RefKey;
      ghost var before := Model();
      var due := CollectDueBombs();
      var sorted := Sorting.SortBy(due, RefKey);
      SortedListsDue(before, due);
      order := Indices(sorted);
      assert forall j | 0 <= j < |sorted| :: order[j] == sorted[j].index;
      var preExplosionTiles: TileMap := tiles[..];
      DetonateInOrder(sorted, preExplosionTiles);
    }

    method ClearBombsAndReleaseOwnership()
      requires Valid()
      modifies matchPlayers, bombs
      ensures Valid() && Model() == ClearBombs(old(Model()))
    {
      ghost var held := matchPlayers[..];
      for i := 0 to bombs.Length
        invariant forall j | 0 <= j < i :: bombs[j].None?
        invariant matchPlayers[..] == held
      {
        bombs[i] := None;
      }
      assert bombs[..] == seq(BOMB_CAPACITY, _ => None);
      ReleaseAllOwnership();
    }

    method ReleaseAllOwnership()
      modifies matchPlayers
      ensures matchPlayers[..] == NoBombsHeld(old(matchPlayers[..]))
    {
      for id := 0 to matchPlayers.Length
        invariant forall j | 0 <= j < id :: matchPlayers[j] == NoBombsHeld(old(matchPlayers[..]))[j]
        invariant forall j | id <= j < matchPlayers.Length :: matchPlayers[j] == old(matchPlayers[j])
      {
        if matchPlayers[id].Some? {
          matchPlayers[id] := Some(matchPlayers[id].value.(activeBombCount := 0));
        }
      }
    }

    method SetInputLocks(locked: bool)
      requires Valid()
      modifies matchPlayers
      ensures Valid() && Model() == old(Model()).(players := SetLocks(old(Model()).players, locked))
    {
      for id := 0 to matchPlayers.Length
        invariant forall j | 0 <= j < id :: matchPlayers[j] == Locked(old(matchPlayers[j]), locked)
        invariant forall j | id <= j < matchPlayers.Length :: matchPlayers[j] == old(matchPlayers[j])
      {
        if matchPlayers[id].Some? {
          matchPlayers[id] := Some(matchPlayers[id].value.(inputLocked := locked));
        }
      }
    }

    /** The round is over: no bomb is left and nobody can act. */
    method LeaveRound()
      requires Valid()
      modifies matchPlayers, bombs
      ensures Valid() && Model() == EndRound(old(Model()))
    {
      hide ClearBombs, SetLocks, OnMap;
      ClearBombsAndReleaseOwnership();
      SetInputLocks(true);
    }

    // ----- Bomb placement -----

    method IsBombCellUnoccupied(c: Cell) returns (free: bool)
      ensures free == !Occupied(bombs[..], c)
    {
      for i := 0 to bombs.Length
        invariant forall j | 0 <= j < i && bombs[j].Some? :: bombs[j].value.cell != c
      {
        if bombs[i].Some? && bombs[i].value.cell == c {
          assert Occupied(bombs[..], c) by {
            assert bombs[..][i] == bombs[i];
          }
          return false;
        }
      }
      return true;
    }

    method FindFreeBombSlot() returns (slot: nat)
      ensures slot == FirstFree(bombs[..])
    {
      for i := 0 to bombs.Length
        invariant forall j | 0 <= j < i :: bombs[j].Some?
      {
        if bombs[i].None? {
          assert bombs[..][i] == bombs[i];
          return i;
        }
      }
      return bombs.Length;
    }

    /** Turns a fresh press of the bomb button into a bomb, unless one of the rejections applies. */
    method TryPlaceBomb(id: nat)
      requires Valid() && id < MAX_PLAYERS && matchPlayers[id].Some?
      modifies this`sent, matchPlayers, bombs
      ensures Valid() && Model() == PlaceBomb(old(Model()), id)
    {
      hide Occupied, Solid;
      var p := matchPlayers[id].value;
      ghost var before := Model();
      assert before.players[id] == Some(p);
      if !BombEdge(p) {
        return;
      }
      if !p.alive {
        return;
      }
      if p.inputLocked {
        return;
      }
      if p.activeBombCount >= p.maxBombs {
        return;
      }
      var c := CentreCell(p.pos);
      if !Inside(c) {
        return;
      }
      var live: TileMap := tiles[..];
      if Solid(TileAt(live, c)) {
        return;
      }
      var free := IsBombCellUnoccupied(c);
      if !free {
        return;
      }
      var slot := FindFreeBombSlot();
      if slot >= bombs.Length {
        return;
      }
      EmplaceBomb(id, slot, c);
    }

    /** The accepted placement itself. */
    method EmplaceBomb(id: nat, slot: nat, c: Cell)
      requires Valid() && id < MAX_PLAYERS && matchPlayers[id].Some? && MayPlace(Model(), matchPlayers[id].value)
      requires slot == FirstFree(bombs[..]) && c == CentreCell(matchPlayers[id].value.pos)
      modifies this`sent, matchPlayers, bombs
      ensures Valid() && Model() == PlaceBomb(old(Model()), id)
    {
      hide BombEdge, Occupied, Solid, CentreCell, FirstFree;
      var p := matchPlayers[id].value;
      var b := BombState(id, c, serverTick, serverTick + BOMB_FUSE_TICKS, p.bombRange);
      SetBomb(slot, Some(b));
      SetPlayer(id, Some(p.(activeBombCount := p.activeBombCount + 1)));
      sent := sent + [BombPlaced(serverTick, b.explodeTick, id, b.cell, b.radius)];
    }

    // ----- Players -----

    method SimulateAcceptedMatchPlayer(id: nat, inputLeadTicks: nat)
      requires Valid() && id < MAX_PLAYERS
      modifies this`sent, matchPlayers, bombs
      ensures Valid() && Model() == SimulatePlayer(old(Model()), id, inputLeadTicks)
    {
      hide ResolveForTick, StepMovementWithCollision, PlaceBomb, OnMap;
      if matchPlayers[id].None? {
        return;
      }
      ghost var before := Model();
      var p := Loadout(matchPlayers[id].value, serverTick);
      if !p.alive || p.inputLocked {
        SetPlayer(id, Some(IdlePlayer(p)));
        return;
      }
      SetPlayer(id, Some(p.(input := ResolveForTick(p.input, serverTick, inputLeadTicks))));
      ghost var resolved := Model();
      TryPlaceBomb(id);
      ghost var placed := Model();
      PlacingKeepsThePlayer(resolved, id);
      var buttons := matchPlayers[id].value.input.appliedButtons;
      var live: TileMap := tiles[..];
      var pos := StepMovementWithCollision(matchPlayers[id].value.pos, ButtonsToMoveX(buttons), ButtonsToMoveY(buttons), live,
                                           SpeedOf(matchPlayers[id].value, serverTick));
      SetPlayer(id, Some(matchPlayers[id].value.(pos := pos, previousTickButtons := buttons)));
    }

    method SimulateAllPlayers(inputLeadTicks: nat)
      requires Valid()
      modifies this`sent, matchPlayers, bombs
      ensures Valid() && Model() == SimulatePlayers(old(Model()), MAX_PLAYERS, inputLeadTicks)
    {
      hide SimulatePlayer, OnMap;
      for id := 0 to MAX_PLAYERS
        invariant Valid() && Model() == SimulatePlayers(old(Model()), id, inputLeadTicks)
      {
        SimulateAcceptedMatchPlayer(id, inputLeadTicks);
      }
    }

    // ----- Powerups -----

    method FindCollector(c: Cell) returns (id: nat)
      ensures id == Collector(matchPlayers[..], c)
    {
      for i := 0 to matchPlayers.Length
        invariant forall j | 0 <= j < i :: !CanCollect(matchPlayers[j], c)
      {
        if CanCollect(matchPlayers[i], c) {
          assert matchPlayers[..][i] == matchPlayers[i];
          return i;
        }
      }
      return matchPlayers.Length;
    }

    method CollectSlot(i: nat)
      requires Valid() && i < POWERUP_CAPACITY
      modifies matchPlayers, powerups
      ensures Valid() && Model() == CollectOne(old(Model()), i)
    {
      hide Collector, Loadout, WithEffect, OnMap;
      if powerups[i].None? || !powerups[i].value.revealed || powerups[i].value.revealedTick >= serverTick {
        return;
      }
      var u := powerups[i].value;
      var id := FindCollector(u.cell);
      if id == matchPlayers.Length {
        return;
      }
      CollectorIsPresent(matchPlayers[..], u.cell);
      SetPlayer(id, Some(Loadout(WithEffect(matchPlayers[id].value, u.kind, serverTick), serverTick)));
      SetPowerup(i, None);
    }

    /** Every revealed powerup goes to the lowest-numbered living player standing on it, from the next tick on. */
    method CollectRevealedPowerups()
      requires Valid()
      modifies matchPlayers, powerups
      ensures Valid() && Model() == CollectPowerups(old(Model()), POWERUP_CAPACITY)
    {
      hide CollectOne, OnMap;
      if !powersEnabled {
        return;
      }
      for i := 0 to POWERUP_CAPACITY
        invariant Valid() && Model() == CollectPowerups(old(Model()), i)
      {
        CollectSlot(i);
      }
    }

    /** Lists the brick cells in row order. */
    method CollectBrickCells() returns (cells: seq<Cell>)
      requires Valid()
      ensures cells == BrickCells(tiles[..], TILE_COUNT)
    {
      cells := [];
      for row := 0 to HEIGHT
        invariant cells == BrickCells(tiles[..], row * WIDTH)
      {
        for col := 0 to WIDTH
          invariant cells == BrickCells(tiles[..], row * WIDTH + col)
        {
          assert CellOf(CellKey(col, row)) == Cell(col, row);
          if tiles[CellKey(col, row)] == Brick {
            cells := cells + [Cell(col, row)];
          }
        }
      }
    }

    /**
     * Hides the round's powerups under the first four bricks of a shuffle; with powers off, or too few bricks,
     * there are none.
     */
    method PlaceRoundPowerups(shuffle: seq<Cell> -> seq<Cell>)
      requires Valid() && forall s :: multiset(shuffle(s)) == multiset(s)
      modifies powerups
      ensures Valid() && Model() == old(Model()).(powerups := Model().powerups)
      ensures Rounds.IsPlacement(tiles[..], powerups[..], powersEnabled)
      ensures (exists j :: 0 <= j < POWERUP_CAPACITY && powerups[j].Some?)
          <==> powersEnabled && |BrickCells(tiles[..], TILE_COUNT)| >= POWERUP_CAPACITY
    {
      hide OnMap, BrickCells, Rounds.IsPlacement;
      ClearRoundPowerups();
      NoPlacement(tiles[..], powerups[..], powersEnabled);
      if !powersEnabled {
        return;
      }
      var candidates := CollectBrickCells();
      if |candidates| < POWERUP_CAPACITY {
        return;
      }
      var shuffled := shuffle(candidates);
      ShuffledBricks(tiles[..], candidates, shuffled);
      for i := 0 to POWERUP_CAPACITY
        invariant forall j | 0 <= j < i :: powerups[j] == Some(Powerup(Rounds.ROUND_POWERUPS[j], shuffled[j], false, 0))
      {
        powerups[i] := Some(Powerup(Rounds.ROUND_POWERUPS[i], shuffled[i], false, 0));
      }
      FullPlacement(tiles[..], powerups[..], shuffled);
      assert powerups[0].Some?;
    }

    method ClearRoundPowerups()
      requires Valid()
      modifies powerups
      ensures Valid() && Model() == old(Model()).(powerups := Model().powerups)
      ensures forall j | 0 <= j < POWERUP_CAPACITY :: powerups[j].None?
    {
      for i := 0 to POWERUP_CAPACITY
        invariant forall j | 0 <= j < i :: powerups[j].None?
      {
        powerups[i] := None;
      }
    }

    // ----- The tick -----

    /** One gameplay tick. */
    method SimulateServerTick(inputLeadTicks: nat) returns (ghost order: seq<nat>)
      requires Valid()
      modifies this, tiles, matchPlayers, bombs, powerups
      ensures Valid() && ListsDue(AfterPlayers(old(Model()), inputLeadTicks), order)
      ensures Model() == MatchTick(old(Model()), order, inputLeadTicks)
    {
      hide SimulatePlayers, ExplodeAll, CollectPowerups, OnMap, InResolutionOrder;
      ghost var before := Model();
      serverTick := serverTick + 1;
      SimulateAllPlayers(inputLeadTicks);
      assert Model() == AfterPlayers(before, inputLeadTicks);
      order := ResolveExplodingBombs();
      CollectRevealedPowerups();
    }
  }

  // ----- Facts the methods use -----

  predicate OnMap(bombs: seq<Option<BombState>>) {
    forall i | 0 <= i < |bombs| && bombs[i].Some? :: Inside(bombs[i].value.cell)
  }

  /** Owner ids fit the byte the resolution order compares. */
  predicate OwnersFit(w: World) {
    forall i | 0 <= i < |w.bombs| && w.bombs[i].Some? :: w.bombs[i].value.ownerId < 256
  }

  /** The brick cells among the first n cells of a map, row by row. */
  function BrickCells(tiles: TileMap, n: nat): seq<Cell>
    requires n <= TILE_COUNT
  {
    if n == 0 then [] else BrickCells(tiles, n - 1) + if tiles[n - 1] == Brick then [CellOf(n - 1)] else []
  }

  lemma {:induction false} BrickCellsAre(tiles: TileMap, n: nat)
    requires n <= TILE_COUNT
    ensures var r := BrickCells(tiles, n);
      && (forall i | 0 <= i < |r| :: Inside(r[i]) && CellKey(r[i].col, r[i].row) < n && TileAt(tiles, r[i]) == Brick)
      && Distinct(r)
  {
    if n > 0 {
      BrickCellsAre(tiles, n - 1);
      var c := CellOf(n - 1);
      assert Inside(c) && CellKey(c.col, c.row) == n - 1;
    }
  }

  /** A shuffle of the candidates is again a list of distinct bricks. */
  lemma ShuffledBricks(tiles: TileMap, candidates: seq<Cell>, shuffled: seq<Cell>)
    requires candidates == BrickCells(tiles, TILE_COUNT) && multiset(shuffled) == multiset(candidates)
    ensures |shuffled| == |candidates| && Distinct(shuffled)
    ensures forall i | 0 <= i < |shuffled| :: Inside(shuffled[i]) && TileAt(tiles, shuffled[i]) == Brick
  {
    BrickCellsAre(tiles, TILE_COUNT);
    hide BrickCells, TileAt;
    assert |multiset(shuffled)| == |shuffled| && |multiset(candidates)| == |candidates|;
    forall x ensures multiset(shuffled)[x] <= 1 {
      Sorting.DistinctOnce(candidates, x);
    }
    Sorting.OnceDistinct(shuffled);
    forall i | 0 <= i < |shuffled| ensures Inside(shuffled[i]) && TileAt(tiles, shuffled[i]) == Brick {
      assert shuffled[i] in multiset(candidates);
    }
  }

  lemma NoPlacement(tiles: TileMap, powerups: seq<Option<Powerup>>, enabled: bool)
    requires |powerups| == POWERUP_CAPACITY && forall j | 0 <= j < |powerups| :: powerups[j].None?
    ensures Rounds.IsPlacement(tiles, powerups, enabled)
  {
  }

  lemma FullPlacement(tiles: TileMap, powerups: seq<Option<Powerup>>, shuffled: seq<Cell>)
    requires |powerups| == POWERUP_CAPACITY <= |shuffled| && Distinct(shuffled)
    requires forall i | 0 <= i < |shuffled| :: Inside(shuffled[i]) && TileAt(tiles, shuffled[i]) == Brick
    requires forall j | 0 <= j < |powerups| :: powerups[j] == Some(Powerup(Rounds.ROUND_POWERUPS[j], shuffled[j], false, 0))
    ensures Rounds.IsPlacement(tiles, powerups, true)
  {
    hide TileAt;
  }

  lemma RemovingKeepsOnMap(bombs: seq<Option<BombState>>, i: nat)
    requires OnMap(bombs) && i < |bombs|
    ensures OnMap(bombs[i := None])
  {
  }

  lemma TracedBricksAreOnTheMap(m: TileMap, origin: Cell, radius: nat)
    ensures forall i | 0 <= i < |BrokenBricks(m, origin, radius)| :: Inside(BrokenBricks(m, origin, radius)[i])
  {
    forall i | 0 <= i < |BrokenBricks(m, origin, radius)| ensures Inside(BrokenBricks(m, origin, radius)[i]) {
      BrokenBricksAreTheBurnedOnes(m, origin, radius, BrokenBricks(m, origin, radius)[i]);
    }
  }

  lemma {:induction false} IntactStaysOnTheMap(tiles: TileMap, cells: seq<Cell>)
    ensures forall i | 0 <= i < |Intact(tiles, cells)| :: Inside(Intact(tiles, cells)[i])
    decreases |cells|
  {
    if cells != [] {
      IntactStaysOnTheMap(tiles, cells[..|cells| - 1]);
    }
  }

  lemma PlacingKeepsThePlayer(w: World, id: nat)
    requires id < |w.players| && w.players[id].Some?
    ensures var after := PlaceBomb(w, id);
      && |after.players| == |w.players| && after.players[id].Some? && after.tiles == w.tiles && after.tick == w.tick
  {
  }

  lemma CollectorIsPresent(players: seq<Option<Player>>, c: Cell)
    ensures Collector(players, c) < |players| ==> players[Collector(players, c)].Some?
  {
  }

  function Indices(refs: seq<DueBombRef>): seq<nat> {
    seq(|refs|, i requires 0 <= i < |refs| => refs[i].index)
  }

  ghost predicate DueUpTo(w: World, due: seq<DueBombRef>, n: nat) {
    && n <= |w.bombs|
    && (forall j | 0 <= j < |due| :: due[j].index < n && IsDue(w, due[j].index) && due[j] == RefOf(due[j].index, w.bombs[due[j].index].value))
    && (forall i | 0 <= i < n && IsDue(w, i) :: RefOf(i, w.bombs[i].value) in due)
    && (forall j, k | 0 <= j < k < |due| :: due[j].index < due[k].index)
  }

  /** References that list the due bombs of a world, each once, in some order. */
  ghost predicate RefsListDue(w: World, refs: seq<DueBombRef>) {
    && (forall j | 0 <= j < |refs| :: IsDue(w, refs[j].index) && refs[j] == RefOf(refs[j].index, w.bombs[refs[j].index].value))
    && (forall i | 0 <= i < |w.bombs| && IsDue(w, i) :: RefOf(i, w.bombs[i].value) in refs)
    && Distinct(refs)
  }

  lemma SortingKeepsListing(w: World, due: seq<DueBombRef>)
    requires DueUpTo(w, due, BOMB_CAPACITY) && |w.bombs| == BOMB_CAPACITY
    ensures RefsListDue(w, Sorting.SortBy(due, RefKey)) && |Sorting.SortBy(due, RefKey)| == |due|
    ensures Sorting.SortedBy(Sorting.SortBy(due, RefKey), RefKey)
  {
    assert Distinct(due);
    Sorting.SortKeeps(due, RefKey);
    Sorting.SortBySorts(due, RefKey);
    hide Sorting.SortBy, IsDue, Sorting.SortedBy;
    forall r | r in Sorting.SortBy(due, RefKey) ensures IsDue(w, r.index) && r == RefOf(r.index, w.bombs[r.index].value) {
      assert r in due;
    }
  }

  lemma IndicesListDue(w: World, refs: seq<DueBombRef>)
    requires RefsListDue(w, refs)
    ensures ListsDue(w, Indices(refs))
  {
    var order := Indices(refs);
    forall i: nat | IsDue(w, i) ensures i in order {
      var j :| 0 <= j < |refs| && refs[j] == RefOf(i, w.bombs[i].value);
      assert order[j] == i;
    }
  }

  lemma SortedMeansResolutionOrder(w: World, refs: seq<DueBombRef>)
    requires RefsListDue(w, refs) && Sorting.SortedBy(refs, RefKey)
    requires |w.bombs| == BOMB_CAPACITY && OnMap(w.bombs) && OwnersFit(w)
    ensures InResolutionOrder(w, Indices(refs))
  {
    IndicesListDue(w, refs);
    var order := Indices(refs);
    hide ListsDue, RefKey, Before;
    forall j, k | 0 <= j < k < |order|
      ensures Before(RefOf(order[j], w.bombs[order[j]].value), RefOf(order[k], w.bombs[order[k]].value))
    {
      KeyOrderIsResolutionOrder(refs[j], refs[k]);
    }
  }

  /** Sorting the collected references gives a listing of the due bombs in resolution order. */
  lemma SortedListsDue(w: World, due: seq<DueBombRef>)
    requires DueUpTo(w, due, BOMB_CAPACITY) && |w.bombs| == BOMB_CAPACITY && OnMap(w.bombs)
    ensures var order := Indices(Sorting.SortBy(due, RefKey));
      && ListsDue(w, order) && (OwnersFit(w) ==> InResolutionOrder(w, order))
      && |order| == |due| && forall j | 0 <= j < |order| :: order[j] < BOMB_CAPACITY
  {
    hide DueUpTo, Sorting.SortBy, Sorting.SortedBy, RefsListDue, InResolutionOrder, OnMap, OwnersFit;
    var sorted := Sorting.SortBy(due, RefKey);
    SortingKeepsListing(w, due);
    IndicesListDue(w, sorted);
    if OwnersFit(w) {
      SortedMeansResolutionOrder(w, sorted);
    }
  }
}
