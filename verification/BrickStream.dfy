/**
 * The stream of gameplay events and the tile map a client rebuilds from it
 * (Server/ServerBombs.cpp, MultiplayerLevelScene.Authority.cpp, MultiplayerLevelScene.WorldPresentation.cpp).
 */
module BrickStream {
  import opened Config
  import opened Utils
  import opened Wrappers
  import opened Tiles
  import opened Movement
  import opened Input
  import opened Blast
  import opened World
  import opened ExplosionOrder
  import opened WorldRuns
  import opened Rounds

  // ----- The client's tile update -----

  function AppliedBricks(tiles: TileMap, cells: seq<Cell>): TileMap {
    seq(TILE_COUNT, k requires 0 <= k < TILE_COUNT => if CellOf(k) in cells && tiles[k] == Brick then Grass else tiles[k])
  }

  /** Applies the destroyed bricks of one explosion; cells off the map and cells that hold no brick are skipped. */
  method ApplyExplosionResolvedTiles(tiles: array<Tile>, destroyedBricks: seq<Cell>)
    requires tiles.Length == TILE_COUNT
    modifies tiles
    ensures tiles[..] == AppliedBricks(old(tiles[..]), destroyedBricks)
  {
    ghost var before: TileMap := tiles[..];
    for i := 0 to |destroyedBricks|
      invariant forall k | 0 <= k < TILE_COUNT :: tiles[k] == AppliedBricks(before, destroyedBricks[..i])[k]
    {
      var c := destroyedBricks[i];
      assert destroyedBricks[..i + 1] == destroyedBricks[..i] + [c];
      if 0 <= c.row < HEIGHT && 0 <= c.col < WIDTH && tiles[CellKey(c.col, c.row)] == Brick {
        assert CellOf(CellKey(c.col, c.row)) == c;
        tiles[CellKey(c.col, c.row)] := Grass;
      }
      forall k | 0 <= k < TILE_COUNT ensures CellOf(k) == c ==> 0 <= c.row < HEIGHT && 0 <= c.col < WIDTH && k == CellKey(c.col, c.row) {
      }
    }
    assert destroyedBricks[..|destroyedBricks|] == destroyedBricks;
  }

  function BricksOf(m: Message): seq<Cell> {
    if m.Explosion? then m.destroyedBricks else []
  }

  /** All bricks a stream reports, in order. */
  function Reported(sent: seq<Message>): seq<Cell> {
    if sent == [] then [] else Reported(sent[..|sent| - 1]) + BricksOf(sent[|sent| - 1])
  }

  /** The map after applying every explosion of a stream. */
  function Rebuild(start: TileMap, sent: seq<Message>): TileMap {
    if sent == [] then start else AppliedBricks(Rebuild(start, sent[..|sent| - 1]), BricksOf(sent[|sent| - 1]))
  }

  lemma {:induction false} RebuildInOneGo(start: TileMap, sent: seq<Message>)
    ensures Rebuild(start, sent) == AppliedBricks(start, Reported(sent))
    decreases |sent|
  {
    if sent != [] {
      RebuildInOneGo(start, sent[..|sent| - 1]);
    }
  }

  // ----- What the server's stream satisfies -----

  /** A brick is gone exactly when the stream reported it, and it was reported once. */
  ghost predicate StreamMatchesTiles(start: TileMap, tiles: TileMap, sent: seq<Message>) {
    && Distinct(Reported(sent))
    && (forall c | c in Reported(sent) :: Inside(c))
    && (forall c | Inside(c) :: c in Reported(sent) <==> TileAt(start, c) == Brick && TileAt(tiles, c) != Brick)
  }

  ghost predicate TicksInOrder(sent: seq<Message>, tick: nat) {
    && (forall i | 0 <= i < |sent| :: 1 <= sent[i].serverTick <= tick)
    && (forall i, j | 0 <= i < j < |sent| :: sent[i].serverTick <= sent[j].serverTick)
  }

  /** What the client's deserializers demand of the two gameplay events. */
  ghost predicate WellFormed(m: Message) {
    && m.ownerId < MAX_PLAYERS && Inside(m.cell) && 1 <= m.radius <= 255
    && match m
       case BombPlaced(serverTick, explodeTick, _, _, _) => serverTick <= explodeTick
       case Explosion(_, _, cell, _, killed, blastCells, bricks) =>
         && (forall id | id in killed :: id < MAX_PLAYERS)
         && 1 <= |blastCells| <= MAX_BLAST_CELLS && |bricks| <= |blastCells| && |bricks| <= 120
         && Distinct(blastCells) && Distinct(bricks)
         && (forall i | 0 <= i < |blastCells| :: Inside(blastCells[i]))
         && blastCells[0] == cell
         && (forall i | 0 <= i < |bricks| :: bricks[i] in blastCells)
  }

  ghost predicate AllWellFormed(sent: seq<Message>) {
    forall i | 0 <= i < |sent| :: WellFormed(sent[i])
  }

  ghost predicate SentInv(start: TileMap, w: World) {
    && StreamMatchesTiles(start, w.tiles, w.sent)
    && TicksInOrder(w.sent, w.tick)
    && AllWellFormed(w.sent)
  }

  /** The stream rebuilds the server's map. */
  lemma RebuildMatches(start: TileMap, tiles: TileMap, sent: seq<Message>)
    requires StreamMatchesTiles(start, tiles, sent) && OnlyBricksCleared(start, tiles)
    ensures Rebuild(start, sent) == tiles
  {
    RebuildInOneGo(start, sent);
    forall k | 0 <= k < TILE_COUNT ensures AppliedBricks(start, Reported(sent))[k] == tiles[k] {
      var c := CellOf(k);
      assert Inside(c) && CellKey(c.col, c.row) == k;
      assert TileAt(start, c) == start[k] && TileAt(tiles, c) == tiles[k];
    }
  }

  // ----- Steps -----

  lemma PlacingIsSilent(start: TileMap, tiles: TileMap, sent: seq<Message>, m: Message)
    requires StreamMatchesTiles(start, tiles, sent) && m.BombPlaced?
    ensures StreamMatchesTiles(start, tiles, sent + [m])
  {
    assert (sent + [m])[..|sent|] == sent;
  }

  lemma PlaceBombKeepsSent(start: TileMap, w: World, id: nat)
    requires MidInv(start, w) && SentInv(start, w) && w.tick >= 1 && id < |w.players| && w.players[id].Some?
    ensures SentInv(start, PlaceBomb(w, id))
  {
    hide BombsOk, CountsOk, PowerupsOk, MapOk, Clear, Occupied, StreamMatchesTiles, TileAt;
    PlayerIsOk(start, w, id);
    var p := w.players[id].value;
    if MayPlace(w, p) {
      PlacingIsSilent(start, w.tiles, w.sent, PlaceBomb(w, id).sent[|w.sent|]);
    }
  }

  lemma SimulatePlayerKeepsSent(start: TileMap, w: World, id: nat, lead: nat)
    requires MidInv(start, w) && SentInv(start, w) && w.tick >= 1 && id < |w.players|
    ensures SentInv(start, SimulatePlayer(w, id, lead))
  {
    hide MidInv, SentInv, PlaceBomb, ResolveForTick, Moved;
    if w.players[id].Some? {
      PlayerIsOk(start, w, id);
      var p := Loadout(w.players[id].value, w.tick);
      if !p.alive || p.inputLocked {
        SentDependsOn(start, w, SimulatePlayer(w, id, lead));
      } else {
        var resolved := p.(input := ResolveForTick(p.input, w.tick, lead));
        var w1 := w.(players := w.players[id := Some(resolved)]);
        UpdatePlayerKeepsInv(start, w, id, resolved);
        SentDependsOn(start, w, w1);
        PlaceBombKeepsSent(start, w1, id);
        PlaceBombKeepsTiles(w1, id);
        SentDependsOn(start, PlaceBomb(w1, id), SimulatePlayer(w, id, lead));
      }
    }
  }

  lemma SentDependsOn(start: TileMap, w: World, after: World)
    requires SentInv(start, w) && after.tiles == w.tiles && after.tick >= w.tick && after.sent == w.sent
    ensures SentInv(start, after)
  {
    hide StreamMatchesTiles, AllWellFormed;
  }

  lemma {:induction false} SimulatePlayersKeepsSent(start: TileMap, w: World, n: nat, lead: nat)
    requires MidInv(start, w) && SentInv(start, w) && w.tick >= 1 && n <= |w.players|
    ensures SentInv(start, SimulatePlayers(w, n, lead))
    decreases n
  {
    hide MidInv, SentInv, SimulatePlayer;
    if n > 0 {
      SimulatePlayersKeepsSent(start, w, n - 1, lead);
      SimulatePlayersKeepsInv(start, w, n - 1, lead);
      SimulatePlayerKeepsSent(start, SimulatePlayers(w, n - 1, lead), n - 1, lead);
    }
  }

  lemma {:induction false} IntactIsDistinct(tiles: TileMap, cells: seq<Cell>)
    requires Distinct(cells)
    ensures Distinct(Intact(tiles, cells))
    decreases |cells|
  {
    if cells != [] {
      var n := |cells| - 1;
      IntactIsDistinct(tiles, cells[..n]);
      IntactCells(tiles, cells[..n], cells[n]);
    }
  }

  lemma DistinctConcat(a: seq<Cell>, b: seq<Cell>)
    requires Distinct(a) && Distinct(b) && forall c | c in a :: c !in b
    ensures Distinct(a + b)
  {
    forall j, k | 0 <= j < k < |a + b| ensures (a + b)[j] != (a + b)[k] {
      assert j < |a| <= k ==> a[j] in a;
    }
  }

  lemma IntactAreBricks(start: TileMap, tiles: TileMap, broken: seq<Cell>)
    requires OnlyBricksCleared(start, tiles)
    ensures forall c | c in Intact(tiles, broken) :: Inside(c) && TileAt(tiles, c) == Brick && TileAt(start, c) == Brick
  {
    forall c | c in Intact(tiles, broken) ensures Inside(c) && TileAt(tiles, c) == Brick && TileAt(start, c) == Brick {
      IntactCells(tiles, broken, c);
      assert tiles[CellKey(c.col, c.row)] == TileAt(tiles, c) && start[CellKey(c.col, c.row)] == TileAt(start, c);
    }
  }

  /** One explosion removes exactly the bricks it reports. */
  lemma ExplosionIsReported(start: TileMap, tiles: TileMap, sent: seq<Message>, m: Message, broken: seq<Cell>)
    requires StreamMatchesTiles(start, tiles, sent) && OnlyBricksCleared(start, tiles)
    requires m.Explosion? && m.destroyedBricks == Intact(tiles, broken) && Distinct(broken)
    ensures StreamMatchesTiles(start, Cleared(tiles, m.destroyedBricks), sent + [m])
  {
    hide Cleared, Intact, Distinct, TileAt, OnlyBricksCleared;
    var bricks := m.destroyedBricks;
    IntactIsDistinct(tiles, broken);
    IntactAreBricks(start, tiles, broken);
    assert (sent + [m])[..|sent|] == sent;
    assert Reported(sent + [m]) == Reported(sent) + bricks;
    hide Reported;
    DistinctConcat(Reported(sent), bricks);
    forall c | Inside(c)
      ensures c in Reported(sent) + bricks <==> TileAt(start, c) == Brick && TileAt(Cleared(tiles, bricks), c) != Brick
    {
      ClearedAt(tiles, bricks, c);
    }
  }

  lemma ExplosionIsWellFormed(w: World, m: Message, b: BombState)
    requires b.ownerId < MAX_PLAYERS && Inside(b.cell) && 1 <= b.radius <= 2
    requires m.Explosion? && m.ownerId == b.ownerId && m.cell == b.cell && m.radius == b.radius
    requires m.blastCells == BlastCells(w.tiles, b.cell, b.radius)
    requires forall id | id in m.killed :: id < MAX_PLAYERS
    requires Distinct(m.destroyedBricks)
    requires forall c | c in m.destroyedBricks :: c in BrokenBricks(w.tiles, b.cell, b.radius)
    ensures WellFormed(m)
  {
    BlastIsWellFormed(w.tiles, b.cell, b.radius);
    forall c | c in m.destroyedBricks ensures c in m.blastCells {
      BrokenBricksAreTheBurnedOnes(w.tiles, b.cell, b.radius, c);
      BlastIsLineOfSight(w.tiles, b.cell, b.radius, c);
    }
    DistinctSubset(m.destroyedBricks, BrokenBricks(w.tiles, b.cell, b.radius));
    DistinctSubset(m.destroyedBricks, m.blastCells);
  }

  function CellSet(cells: seq<Cell>): set<Cell> {
    set c | c in cells
  }

  lemma {:induction false} CellSetSize(cells: seq<Cell>)
    requires Distinct(cells)
    ensures |CellSet(cells)| == |cells|
    decreases |cells|
  {
    if cells != [] {
      var n := |cells| - 1;
      CellSetSize(cells[..n]);
      assert CellSet(cells) == CellSet(cells[..n]) + {cells[n]};
    }
  }

  lemma {:induction false} CellSetIsSmall(cells: seq<Cell>)
    ensures |CellSet(cells)| <= |cells|
    decreases |cells|
  {
    if cells != [] {
      var n := |cells| - 1;
      CellSetIsSmall(cells[..n]);
      assert CellSet(cells) == CellSet(cells[..n]) + {cells[n]};
    }
  }

  lemma DistinctSubset(a: seq<Cell>, b: seq<Cell>)
    requires Distinct(a) && forall c | c in a :: c in b
    ensures |a| <= |b|
  {
    CellSetSize(a);
    CellSetIsSmall(b);
    assert CellSet(b) == CellSet(a) + (CellSet(b) - CellSet(a));
  }

  lemma ExplodeOneKeepsSent(start: TileMap, w: World, now: World, i: nat)
    requires MidInv(start, w) && Live(w, i) && i < |now.bombs| && now.bombs[i] == w.bombs[i]
    requires SentInv(start, now) && now.tick == w.tick >= 1 && |now.players| == MAX_PLAYERS
    requires OnlyBricksCleared(start, now.tiles)
    ensures SentInv(start, ExplodeOne(now, i, w.tiles))
  {
    hide CountsOk, PlayersOk, PowerupsOk, MapOk, BlastCells, BrokenBricks, Intact, StreamMatchesTiles, TileAt,
         Cleared, KillPlayers, RevealPowerups, ReleaseOwnership, Dies, AllWellFormed, WellFormed, OnlyBricksCleared;
    var b := w.bombs[i].value;
    var broken := BrokenBricks(w.tiles, b.cell, b.radius);
    var after := ExplodeOne(now, i, w.tiles);
    var m := after.sent[|now.sent|];
    BlastIsWellFormed(w.tiles, b.cell, b.radius);
    ExplosionIsReported(start, now.tiles, now.sent, m, broken);
    IntactIsDistinct(now.tiles, broken);
    forall c | c in m.destroyedBricks ensures c in broken {
      IntactCells(now.tiles, broken, c);
    }
    ExplosionIsWellFormed(w, m, b);
    OneMoreWellFormed(now.sent, m);
  }

  lemma OneMoreWellFormed(sent: seq<Message>, m: Message)
    requires AllWellFormed(sent) && WellFormed(m)
    ensures AllWellFormed(sent + [m])
  {
  }

  lemma {:induction false} ExplosionsKeepSent(start: TileMap, w: World, order: seq<nat>)
    requires MidInv(start, w) && SentInv(start, w) && w.tick >= 1
    requires NoRepeats(order) && forall j | 0 <= j < |order| :: order[j] < |w.bombs| && Live(w, order[j])
    ensures SentInv(start, ExplodeAll(w, order, w.tiles))
    decreases |order|
  {
    if order != [] {
      hide MidInv, SentInv, ExplodeOne, TilesClosed, PlayersClosed, PowerupsClosed, OnlyBricksCleared;
      var n := |order| - 1;
      ExplosionsKeepSent(start, w, order[..n]);
      ExplodeAllIsClosed(w, order[..n]);
      var now := ExplodeAll(w, order[..n], w.tiles);
      SameShape(start, w);
      ClosedShape(w, SetOf(order[..n]), now);
      WorldMapOk(start, w);
      BlastedTiles(start, w, SetOf(order[..n]), now.tiles);
      NotYetExploded(w, order, now);
      ExplodeOneKeepsSent(start, w, now, order[n]);
    }
  }

  lemma NotYetExploded(w: World, order: seq<nat>, now: World)
    requires order != [] && NoRepeats(order) && order[|order| - 1] < |w.bombs|
    requires ClosedForm(w, SetOf(order[..|order| - 1]), now)
    ensures now.bombs[order[|order| - 1]] == w.bombs[order[|order| - 1]]
  {
  }

  lemma WorldMapOk(start: TileMap, w: World)
    requires MidInv(start, w)
    ensures MapOk(start, w.tiles) && OnlyBricksCleared(start, w.tiles)
  {
  }

  lemma {:induction false} CollectingIsSilent(w: World, n: nat)
    ensures CollectPowerups(w, n).sent == w.sent && CollectPowerups(w, n).tiles == w.tiles
    ensures CollectPowerups(w, n).tick == w.tick
    decreases n
  {
    if w.powersEnabled && n > 0 {
      CollectingIsSilent(w, n - 1);
    }
  }

  lemma AfterPlayersKeepsSent(start: TileMap, w: World, lead: nat)
    requires WorldInv(start, w) && SentInv(start, w)
    ensures SentInv(start, AfterPlayers(w, lead)) && MidInv(start, AfterPlayers(w, lead))
    ensures AfterPlayers(w, lead).tick == w.tick + 1
  {
    hide MidInv, SentInv, SimulatePlayers;
    TickStarts(start, w);
    var w1 := w.(tick := w.tick + 1);
    SentDependsOn(start, w, w1);
    SameShape(start, w1);
    SimulatePlayersKeepsInv(start, w1, |w1.players|, lead);
    SimulatePlayersKeepsSent(start, w1, |w1.players|, lead);
  }

  lemma MatchTickKeepsSent(start: TileMap, w: World, order: seq<nat>, lead: nat)
    requires WorldInv(start, w) && SentInv(start, w) && ListsDue(AfterPlayers(w, lead), order)
    ensures SentInv(start, MatchTick(w, order, lead))
  {
    hide WorldInv, MidInv, SentInv, AfterPlayers, ExplodeAll, CollectPowerups;
    AfterPlayersKeepsSent(start, w, lead);
    var moved := AfterPlayers(w, lead);
    ExplosionsKeepSent(start, moved, order);
    CollectingIsSilent(ExplodeAll(moved, order, moved.tiles), |w.powerups|);
    SentDependsOn(start, ExplodeAll(moved, order, moved.tiles), MatchTick(w, order, lead));
  }

  lemma StepKeepsSent(start: TileMap, r: Round, e: RoundEvent, lead: nat)
    requires RoundInv(start, r) && SentInv(start, r.world) && Enabled(r, e, lead)
    ensures SentInv(start, Step(r, e, lead).world)
  {
    hide WorldInv, SentInv, MatchTick, AfterPlayers, ListsDue, Received, Armed;
    if e.Tick? {
      if r.stage.Ended? {
        AfterPlayersKeepsSent(start, r.world, lead);
      } else {
        MatchTickKeepsSent(start, r.world, e.order, lead);
      }
    } else {
      SentDependsOn(start, r.world, Step(r, e, lead).world);
    }
  }

  lemma StartHoldsSent(start: TileMap, r: Round)
    requires RoundStarts(start, r)
    ensures SentInv(start, r.world)
  {
  }

  /** Over every run of a round, the stream is well formed, in tick order, and reports each lost brick once. */
  lemma {:induction false} EveryStreamHolds(start: TileMap, r: Round, events: seq<RoundEvent>, lead: nat)
    requires RoundStarts(start, r) && Possible(r, events, lead)
    ensures SentInv(start, Run(r, events, lead).world)
    decreases |events|
  {
    hide RoundInv, Enabled, Step, RoundStarts, SentInv;
    if events == [] {
      StartHoldsSent(start, r);
    } else {
      var n := |events| - 1;
      EveryStreamHolds(start, r, events[..n], lead);
      EveryRoundHolds(start, r, events[..n], lead);
      StepKeepsSent(start, Run(r, events[..n], lead), events[n], lead);
    }
  }

  lemma TilesStayRebuilt(start: TileMap, r: Round)
    requires RoundInv(start, r)
    ensures OnlyBricksCleared(start, r.world.tiles)
  {
  }

  /** Applying every reported brick to the generated map gives the server's map, at every point of every run. */
  lemma StreamRebuildsTheWorld(start: TileMap, r: Round, events: seq<RoundEvent>, lead: nat)
    requires RoundStarts(start, r) && Possible(r, events, lead)
    ensures Rebuild(start, Run(r, events, lead).world.sent) == Run(r, events, lead).world.tiles
  {
    hide RoundStarts, Possible, Run;
    EveryRoundHolds(start, r, events, lead);
    EveryStreamHolds(start, r, events, lead);
    TilesStayRebuilt(start, Run(r, events, lead));
    RebuildMatches(start, Run(r, events, lead).world.tiles, Run(r, events, lead).world.sent);
  }

  // ----- The client's stale-event gate -----

  datatype View = View(tiles: TileMap, lastAppliedGameplayEventTick: nat)

  /** Both kinds of event raise the guard tick; an explosion that is not newer than it is dropped. */
  function ApplyEvent(v: View, m: Message): View {
    var raised := if m.serverTick > v.lastAppliedGameplayEventTick then m.serverTick else v.lastAppliedGameplayEventTick;
    match m
    case BombPlaced(_, _, _, _, _) => v.(lastAppliedGameplayEventTick := raised)
    case Explosion(_, _, _, _, _, _, _) =>
      if m.serverTick <= v.lastAppliedGameplayEventTick then v
      else View(AppliedBricks(v.tiles, m.destroyedBricks), raised)
  }

  /**
   * The view of one client. `kept` says of each message whether the server's queue to that client took it; what
   * it took arrives in order.
   */
  function Gated(start: TileMap, sent: seq<Message>, kept: seq<bool>): View
    requires |kept| == |sent|
  {
    if sent == [] then View(start, 0)
    else
      var n := |sent| - 1;
      var v := Gated(start, sent[..n], kept[..n]);
      if kept[n] then ApplyEvent(v, sent[n]) else v
  }

  /** Message i reaches the client as the first gameplay event of its tick. */
  predicate OpensItsTick(sent: seq<Message>, kept: seq<bool>, i: nat)
    requires |kept| == |sent| && i < |sent|
  {
    kept[i] && forall j | 0 <= j < i && kept[j] :: sent[j].serverTick < sent[i].serverTick
  }

  /** The bricks of the explosions that pass the gate. */
  function Passed(sent: seq<Message>, kept: seq<bool>): seq<Cell>
    requires |kept| == |sent|
  {
    if sent == [] then []
    else
      var n := |sent| - 1;
      Passed(sent[..n], kept[..n]) + if OpensItsTick(sent, kept, n) then BricksOf(sent[n]) else []
  }

  /** Every message was queued. */
  function All(n: nat): seq<bool> {
    seq(n, _ => true)
  }

  lemma AppliedTwice(tiles: TileMap, a: seq<Cell>, b: seq<Cell>)
    ensures AppliedBricks(tiles, a + b) == AppliedBricks(AppliedBricks(tiles, a), b)
  {
  }

  lemma AppliedNothing(tiles: TileMap)
    ensures AppliedBricks(tiles, []) == tiles
  {
  }

  /** One more event: it passes exactly if its tick is newer than the guard. */
  lemma GateStep(start: TileMap, v: View, before: seq<Cell>, m: Message)
    requires v.tiles == AppliedBricks(start, before) && v.lastAppliedGameplayEventTick <= m.serverTick
    ensures ApplyEvent(v, m).tiles
         == AppliedBricks(start, before + if v.lastAppliedGameplayEventTick < m.serverTick then BricksOf(m) else [])
    ensures ApplyEvent(v, m).lastAppliedGameplayEventTick == m.serverTick
  {
    hide AppliedBricks;
    AppliedTwice(start, before, BricksOf(m));
    assert before + [] == before;
    AppliedNothing(v.tiles);
  }

  /** The guard is the newest tick that reached the client. */
  ghost predicate GuardIs(sent: seq<Message>, kept: seq<bool>, guard: nat)
    requires |kept| == |sent|
  {
    && (forall j | 0 <= j < |sent| && kept[j] :: sent[j].serverTick <= guard)
    && (guard == 0 || exists j :: 0 <= j < |sent| && kept[j] && sent[j].serverTick == guard)
  }

  lemma GuardDecides(sent: seq<Message>, kept: seq<bool>, guard: nat, tick: nat)
    requires sent != [] && |kept| == |sent| && TicksInOrder(sent, tick)
    requires GuardIs(sent[..|sent| - 1], kept[..|sent| - 1], guard)
    ensures var n := |sent| - 1;
      && guard <= sent[n].serverTick
      && (kept[n] ==> (guard < sent[n].serverTick <==> OpensItsTick(sent, kept, n)))
      && GuardIs(sent, kept, if kept[n] then sent[n].serverTick else guard)
  {
    var n := |sent| - 1;
    forall j | 0 <= j < n ensures sent[..n][j] == sent[j] && kept[..n][j] == kept[j] {
    }
    if guard != 0 {
      var j :| 0 <= j < n && kept[..n][j] && sent[..n][j].serverTick == guard;
      assert kept[j] && sent[j].serverTick == guard;
    }
  }

  lemma {:induction false} GateInClosedForm(start: TileMap, sent: seq<Message>, kept: seq<bool>, tick: nat)
    requires |kept| == |sent| && TicksInOrder(sent, tick)
    ensures Gated(start, sent, kept).tiles == AppliedBricks(start, Passed(sent, kept))
    ensures GuardIs(sent, kept, Gated(start, sent, kept).lastAppliedGameplayEventTick)
    decreases |sent|
  {
    if sent == [] {
      AppliedNothing(start);
    } else {
      hide AppliedBricks, ApplyEvent, GuardIs, OpensItsTick, BricksOf;
      var n := |sent| - 1;
      ShorterInOrder(sent, tick);
      GateInClosedForm(start, sent[..n], kept[..n], tick);
      var v := Gated(start, sent[..n], kept[..n]);
      GuardDecides(sent, kept, v.lastAppliedGameplayEventTick, tick);
      GateStep(start, v, Passed(sent[..n], kept[..n]), sent[n]);
      PassedStep(sent, kept);
    }
  }

  lemma ShorterInOrder(sent: seq<Message>, tick: nat)
    requires sent != [] && TicksInOrder(sent, tick)
    ensures TicksInOrder(sent[..|sent| - 1], tick)
  {
  }

  lemma PassedStep(sent: seq<Message>, kept: seq<bool>)
    requires sent != [] && |kept| == |sent|
    ensures var n := |sent| - 1;
      && (OpensItsTick(sent, kept, n) ==> kept[n])
      && Passed(sent, kept) == Passed(sent[..n], kept[..n]) + (if OpensItsTick(sent, kept, n) then BricksOf(sent[n]) else [])
      && Passed(sent[..n], kept[..n]) + [] == Passed(sent[..n], kept[..n])
  {
  }

  lemma {:induction false} PassedIsReported(sent: seq<Message>, kept: seq<bool>, c: Cell)
    requires |kept| == |sent| && c in Passed(sent, kept)
    ensures c in Reported(sent)
    decreases |sent|
  {
    var n := |sent| - 1;
    if c in Passed(sent[..n], kept[..n]) {
      PassedIsReported(sent[..n], kept[..n], c);
    }
  }

  lemma {:induction false} InReported(sent: seq<Message>, i: nat, c: Cell)
    requires i < |sent| && c in BricksOf(sent[i])
    ensures c in Reported(sent)
    decreases |sent|
  {
    if i < |sent| - 1 {
      InReported(sent[..|sent| - 1], i, c);
    }
  }

  lemma {:induction false} ReportedWhere(sent: seq<Message>, c: Cell) returns (i: nat)
    requires c in Reported(sent)
    ensures i < |sent| && c in BricksOf(sent[i])
    decreases |sent|
  {
    var n := |sent| - 1;
    if c in BricksOf(sent[n]) {
      i := n;
    } else {
      i := ReportedWhere(sent[..n], c);
    }
  }

  lemma SameInPrefix(sent: seq<Message>, kept: seq<bool>, n: nat, i: nat)
    requires |kept| == |sent| && i < n <= |sent|
    ensures OpensItsTick(sent[..n], kept[..n], i) <==> OpensItsTick(sent, kept, i)
  {
    forall j | 0 <= j < n ensures sent[..n][j] == sent[j] && kept[..n][j] == kept[j] {
    }
  }

  lemma {:induction false} PassesWhenFirst(sent: seq<Message>, kept: seq<bool>, i: nat, c: Cell)
    requires |kept| == |sent| && i < |sent| && c in BricksOf(sent[i]) && OpensItsTick(sent, kept, i)
    ensures c in Passed(sent, kept)
    decreases |sent|
  {
    hide BricksOf, OpensItsTick;
    var n := |sent| - 1;
    if i < n {
      SameInPrefix(sent, kept, n, i);
      PassesWhenFirst(sent[..n], kept[..n], i, c);
    }
  }

  lemma DistinctParts(a: seq<Cell>, b: seq<Cell>)
    requires Distinct(a + b)
    ensures Distinct(a) && forall c | c in a :: c !in b
  {
    forall j, k | 0 <= j < k < |a| ensures a[j] != a[k] {
      assert (a + b)[j] == a[j] && (a + b)[k] == a[k];
    }
    forall j, k | 0 <= j < |a| && 0 <= k < |b| ensures a[j] != b[k] {
      assert (a + b)[j] == a[j] && (a + b)[|a| + k] == b[k];
    }
  }

  /** A brick reported once, by an explosion that does not reach the client first in its tick, never passes. */
  lemma {:induction false} DroppedForGood(sent: seq<Message>, kept: seq<bool>, i: nat, c: Cell)
    requires |kept| == |sent| && Distinct(Reported(sent)) && i < |sent| && c in BricksOf(sent[i]) && !OpensItsTick(sent, kept, i)
    ensures c !in Passed(sent, kept)
    decreases |sent|
  {
    hide Distinct, BricksOf, OpensItsTick;
    var n := |sent| - 1;
    DistinctParts(Reported(sent[..n]), BricksOf(sent[n]));
    if i < n {
      SameInPrefix(sent, kept, n, i);
      InReported(sent[..n], i, c);
      DroppedForGood(sent[..n], kept[..n], i, c);
    } else if c in Passed(sent[..n], kept[..n]) {
      PassedIsReported(sent[..n], kept[..n], c);
      assert false;
    }
  }

  /** Every explosion that reports a brick reaches the client, as the first gameplay event of its tick that does. */
  predicate BricksOpenTheirTick(sent: seq<Message>, kept: seq<bool>)
    requires |kept| == |sent|
  {
    forall i | 0 <= i < |sent| && BricksOf(sent[i]) != [] :: OpensItsTick(sent, kept, i)
  }

  lemma NothingDropped(sent: seq<Message>, kept: seq<bool>)
    requires |kept| == |sent| && BricksOpenTheirTick(sent, kept)
    ensures forall c :: c in Passed(sent, kept) <==> c in Reported(sent)
  {
    hide OpensItsTick;
    forall c ensures c in Passed(sent, kept) <==> c in Reported(sent) {
      if c in Passed(sent, kept) {
        PassedIsReported(sent, kept, c);
      }
      if c in Reported(sent) {
        var i := ReportedWhere(sent, c);
        PassesWhenFirst(sent, kept, i, c);
      }
    }
  }

  lemma WhatIsReported(start: TileMap, tiles: TileMap, sent: seq<Message>, c: Cell)
    requires StreamMatchesTiles(start, tiles, sent) && c in Reported(sent)
    ensures Inside(c) && TileAt(start, c) == Brick && TileAt(tiles, c) != Brick
    ensures Distinct(Reported(sent))
  {
  }

  lemma NotApplied(start: TileMap, cells: seq<Cell>, c: Cell)
    requires Inside(c) && TileAt(start, c) == Brick && c !in cells
    ensures TileAt(AppliedBricks(start, cells), c) == Brick
  {
    assert CellOf(CellKey(c.col, c.row)) == c;
  }

  lemma SomethingDropped(start: TileMap, tiles: TileMap, sent: seq<Message>, kept: seq<bool>, i: nat)
    requires |kept| == |sent| && StreamMatchesTiles(start, tiles, sent)
    requires i < |sent| && BricksOf(sent[i]) != [] && !OpensItsTick(sent, kept, i)
    ensures AppliedBricks(start, Passed(sent, kept)) != tiles
  {
    hide *;
    var c := BricksOf(sent[i])[0];
    InReported(sent, i, c);
    WhatIsReported(start, tiles, sent, c);
    DroppedForGood(sent, kept, i, c);
    NotApplied(start, Passed(sent, kept), c);
  }

  lemma GatedMapIsExactIff(start: TileMap, tiles: TileMap, sent: seq<Message>, kept: seq<bool>, tick: nat)
    requires |kept| == |sent| && StreamMatchesTiles(start, tiles, sent) && OnlyBricksCleared(start, tiles) && TicksInOrder(sent, tick)
    ensures Gated(start, sent, kept).tiles == tiles <==> BricksOpenTheirTick(sent, kept)
  {
    hide OnlyBricksCleared, TicksInOrder, Gated, Rebuild, Passed, Reported, StreamMatchesTiles, OpensItsTick, BricksOf;
    GateInClosedForm(start, sent, kept, tick);
    RebuildMatches(start, tiles, sent);
    RebuildInOneGo(start, sent);
    if BricksOpenTheirTick(sent, kept) {
      NothingDropped(sent, kept);
      assert AppliedBricks(start, Passed(sent, kept)) == AppliedBricks(start, Reported(sent));
    } else {
      hide AppliedBricks;
      var i :| 0 <= i < |sent| && BricksOf(sent[i]) != [] && !OpensItsTick(sent, kept, i);
      SomethingDropped(start, tiles, sent, kept, i);
    }
  }

  /**
   * Whichever of the messages the server managed to queue to a client, that client shows the server's map, at
   * every point of every run, if and only if every explosion that broke a brick was queued to it and was the
   * first gameplay event of its tick to be.
   */
  lemma GatedClientMatchesIff(start: TileMap, r: Round, events: seq<RoundEvent>, lead: nat, kept: seq<bool>)
    requires RoundStarts(start, r) && Possible(r, events, lead) && |kept| == |Run(r, events, lead).world.sent|
    ensures var w := Run(r, events, lead).world;
      Gated(start, w.sent, kept).tiles == w.tiles <==> BricksOpenTheirTick(w.sent, kept)
  {
    hide RoundStarts, Possible, Run, StreamMatchesTiles, TicksInOrder, OnlyBricksCleared, Gated, BricksOpenTheirTick;
    EveryRoundHolds(start, r, events, lead);
    EveryStreamHolds(start, r, events, lead);
    var after := Run(r, events, lead);
    TilesStayRebuilt(start, after);
    GatedMapIsExactIff(start, after.world.tiles, after.world.sent, kept, after.world.tick);
  }
}
