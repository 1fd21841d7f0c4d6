/**
 * A history of a round on which the client's stale-event guard loses a brick: two players stand beside a brick
 * each, press the bomb button on the first unlocked tick, and their bombs go off on the same tick.
 */
module LostBrick {
  import opened Config
  import opened Wrappers
  import opened Tiles
  import opened Movement
  import opened Input
  import opened Blast
  import opened World
  import opened ExplosionOrder
  import opened Rounds
  import opened BrickStream

  // ----- The round -----

  /** One brick above the second spawn and one above the fourth. */
  function LostMap(): TileMap {
    seq(TILE_COUNT, k requires 0 <= k < TILE_COUNT =>
      if CellOf(k) == Cell(1, 8) || CellOf(k) == Cell(29, 8) then Brick else BaseTile(CellOf(k).col, CellOf(k).row))
  }

  function Nobody<T>(n: nat): seq<Option<T>> {
    seq(n, _ => None)
  }

  function Four(a: Player, b: Player, c: Player, d: Player): seq<Option<Player>> {
    [Some(a), Some(b), Some(c), Some(d)]
  }

  /** A world of this round without powerups. */
  function At(tick: nat, players: seq<Option<Player>>, bombs: seq<Option<BombState>>, sent: seq<Message>): World {
    World(tick, LostMap(), players, bombs, Nobody(POWERUP_CAPACITY), false, sent)
  }

  function First(): Round {
    Round(Loading, At(0, Four(NewPlayer(0), NewPlayer(1), NewPlayer(2), NewPlayer(3)), Nobody(BOMB_CAPACITY), []))
  }

  // ----- The states it passes through -----

  /** Committed at tick 0: unlock at 60, first deadline at 60. */
  function Waiting(id: nat): Player {
    NewPlayer(id).(input := Armed(NEW_RECEIVER, 60, 0))
  }

  function Free(id: nat): Player {
    Waiting(id).(inputLocked := false)
  }

  const PRESS: MsgInput := MsgInput(1, [INPUT_BOMB])

  function Pressed(id: nat): Player {
    Free(id).(input := Received(Free(id).input, PRESS))
  }

  /** From tick 60 on: one bomb down, the button held by repetition. */
  function Holder(id: nat, tick: nat): Player
    requires tick >= 60
  {
    Free(id).(activeBombCount := 1, previousTickButtons := INPUT_BOMB,
              input := Receiver(map[], 1, tick - 59, INPUT_BOMB, INPUT_BOMB, true, tick + 1))
  }

  function BombOf(id: nat, cell: Cell): BombState {
    BombState(id, cell, 60, 150, 1)
  }

  function Placed(id: nat, cell: Cell): Message {
    BombPlaced(60, 150, id, cell, 1)
  }

  function Opening(tick: nat): Round {
    Round(Stage.Opening, At(tick, Four(Waiting(0), Waiting(1), Waiting(2), Waiting(3)), Nobody(BOMB_CAPACITY), []))
  }

  function Ready(): Round {
    Round(Open, At(59, Four(Free(0), Pressed(1), Free(2), Pressed(3)), Nobody(BOMB_CAPACITY), []))
  }

  function TwoBombs(): seq<Option<BombState>> {
    Nobody<BombState>(BOMB_CAPACITY)[0 := Some(BombOf(1, Cell(1, 9)))][1 := Some(BombOf(3, Cell(29, 9)))]
  }

  function Fused(tick: nat): World
    requires tick >= 60
  {
    At(tick, Four(Free(0), Holder(1, tick), Free(2), Holder(3, tick)), TwoBombs(), [Placed(1, Cell(1, 9)), Placed(3, Cell(29, 9))])
  }

  // ----- The history -----

  function QuietTicks(n: nat): seq<RoundEvent> {
    if n == 0 then [] else QuietTicks(n - 1) + [Tick([])]
  }

  function UntilUnlock(n: nat): seq<RoundEvent> {
    [Commit] + QuietTicks(n)
  }

  function UntilPressed(): seq<RoundEvent> {
    UntilUnlock(59) + [Unlock] + [Deliver(1, PRESS)] + [Deliver(3, PRESS)]
  }

  function UntilFused(n: nat): seq<RoundEvent> {
    UntilPressed() + QuietTicks(n)
  }

  /** Commit, an opening of sixty ticks, the two presses, ninety ticks of fuse and the two explosions. */
  function History(): seq<RoundEvent> {
    UntilFused(90) + [Tick([0, 1])]
  }

  lemma OneMore(r: Round, events: seq<RoundEvent>, e: RoundEvent, lead: nat)
    ensures Run(r, events + [e], lead) == Step(Run(r, events, lead), e, lead)
    ensures Possible(r, events + [e], lead) <==> Possible(r, events, lead) && Enabled(Run(r, events, lead), e, lead)
  {
    assert (events + [e])[..|events|] == events;
    hide Step, Enabled;
  }

  // ----- The map -----

  lemma LostMapAt(c: Cell)
    requires Inside(c)
    ensures TileAt(LostMap(), c) == (if c == Cell(1, 8) || c == Cell(29, 8) then Brick else BaseTile(c.col, c.row))
  {
    hide BaseTile;
    assert CellOf(CellKey(c.col, c.row)) == c;
  }

  lemma LostMapIsAnArena()
    ensures Arena(LostMap())
  {
    assert BaseTile(1, 8) == Grass && BaseTile(29, 8) == Grass;
    hide LostMap, BaseTile;
    forall col, row | InBounds(col, row)
      ensures Tiles.At(LostMap(), col, row) ==
        if Cell(col, row) == Cell(1, 8) || Cell(col, row) == Cell(29, 8) then Brick else BaseTile(col, row)
    {
      LostMapAt(Cell(col, row));
    }
  }

  lemma FirstStarts()
    ensures RoundStarts(LostMap(), First())
  {
    LostMapIsAnArena();
    hide LostMap, Arena;
  }

  // ----- Seats -----

  lemma FourTurns(w: World, lead: nat)
    requires |w.players| == 4
    ensures var a := SimulatePlayer(w, 0, lead);
      && |a.players| == 4 && var b := SimulatePlayer(a, 1, lead);
      && |b.players| == 4 && var c := SimulatePlayer(b, 2, lead);
      && |c.players| == 4 && SimulatePlayers(w, 4, lead) == SimulatePlayer(c, 3, lead)
  {
    hide SimulatePlayer;
    assert SimulatePlayers(w, 1, lead) == SimulatePlayer(SimulatePlayers(w, 0, lead), 0, lead);
    assert SimulatePlayers(w, 2, lead) == SimulatePlayer(SimulatePlayers(w, 1, lead), 1, lead);
    assert SimulatePlayers(w, 3, lead) == SimulatePlayer(SimulatePlayers(w, 2, lead), 2, lead);
  }

  lemma WaitingTurn(w: World, id: nat)
    requires id < |w.players| && w.players[id] == Some(Waiting(id))
    ensures SimulatePlayer(w, id, 0) == w
  {
    hide PlaceBomb, Moved, ResolveForTick, SpawnPos;
    assert IdlePlayer(Loadout(Waiting(id), w.tick)) == Waiting(id);
  }

  lemma StandingStill(pos: TilePos, buttons: Byte, tiles: TileMap, speedQ: int)
    requires buttons == 0 || buttons == INPUT_BOMB
    ensures StepMovementWithCollision(pos, ButtonsToMoveX(buttons), ButtonsToMoveY(buttons), tiles, speedQ) == pos
  {
    hide OverlapsWall;
  }

  lemma FreeTurn(w: World, id: nat)
    requires id < |w.players| && w.players[id] == Some(Free(id))
    ensures SimulatePlayer(w, id, 0) == w
  {
    hide StepMovementWithCollision, SpawnPos, MayPlace;
    var p := Loadout(Free(id), w.tick);
    assert p == Free(id) && p.(input := ResolveForTick(p.input, w.tick, 0)) == Free(id);
    assert w.(players := w.players[id := Some(Free(id))]) == w;
    NoEdgeNoBomb(w, id);
    StandingStill(p.pos, 0, w.tiles, SpeedOf(p, w.tick));
    assert Moved(p, w.tick, w.tiles) == p;
    hide PlaceBomb, Moved, Loadout;
  }

  lemma NoEdgeNoBomb(w: World, id: nat)
    requires id < |w.players| && w.players[id].Some? && !BombEdge(w.players[id].value)
    ensures PlaceBomb(w, id) == w
  {
  }

  lemma HolderInput(id: nat, tick: nat)
    requires tick >= 60
    ensures ResolveForTick(Holder(id, tick).input, tick + 1, 0) == Holder(id, tick + 1).input
  {
    var none: map<nat, Buffered> := map[];
    assert none - {tick - 58} == none;
  }

  lemma HolderTurn(w: World, id: nat, tick: nat)
    requires tick >= 60 && w.tick == tick + 1 && id < |w.players| && w.players[id] == Some(Holder(id, tick))
    ensures SimulatePlayer(w, id, 0) == w.(players := w.players[id := Some(Holder(id, tick + 1))])
  {
    HolderInput(id, tick);
    hide StepMovementWithCollision, SpawnPos, MayPlace, ResolveForTick;
    var p := Loadout(Holder(id, tick), w.tick);
    assert p == Holder(id, tick);
    var q := p.(input := ResolveForTick(p.input, w.tick, 0));
    assert q == Holder(id, tick + 1);
    var w1 := w.(players := w.players[id := Some(q)]);
    NoEdgeNoBomb(w1, id);
    StandingStill(p.pos, INPUT_BOMB, w.tiles, SpeedOf(q, w.tick));
    assert Moved(q, w.tick, w.tiles) == q;
    hide PlaceBomb, Moved, Loadout;
    assert w1.players[id := Some(q)] == w1.players;
  }

  /** The press is consumed at tick 60. */
  lemma PressedInput(id: nat)
    ensures ResolveForTick(Pressed(id).input, 60, 0) == Holder(id, 60).input
  {
    var r := Armed(NEW_RECEIVER, 60, 0);
    assert AfterEntries(r, PRESS, 1) == EntryApplied(AfterEntries(r, PRESS, 0), PRESS, 1);
    var got := EntryApplied(r, PRESS, 1);
    assert got.pending.Keys == {1} && got.pending[1].buttons == INPUT_BOMB;
    var none: map<nat, Buffered> := map[];
    assert got.pending - {1} == none;
  }

  lemma PressedTurn(w: World, id: nat, cell: Cell, i: nat)
    requires w.tick == 60 && id < |w.players| && w.players[id] == Some(Pressed(id))
    requires CentreCell(SpawnPos(id)) == cell && Inside(cell) && !Solid(TileAt(w.tiles, cell))
    requires !Occupied(w.bombs, cell) && FirstFree(w.bombs) == i < |w.bombs|
    ensures SimulatePlayer(w, id, 0) ==
      w.(players := w.players[id := Some(Holder(id, 60))], bombs := w.bombs[i := Some(BombOf(id, cell))], sent := w.sent + [Placed(id, cell)])
  {
    PressedInput(id);
    hide StepMovementWithCollision, SpawnPos, ResolveForTick, CentreCell, Occupied, FirstFree, Solid, TileAt, Received;
    var p := Loadout(Pressed(id), 60);
    assert p == Pressed(id);
    var q := p.(input := ResolveForTick(p.input, 60, 0));
    assert q == Free(id).(input := Holder(id, 60).input);
    var w1 := w.(players := w.players[id := Some(q)]);
    assert MayPlace(w1, q);
    var placed := PlaceBomb(w1, id);
    var q1 := q.(activeBombCount := 1);
    assert placed == w1.(bombs := w.bombs[i := Some(BombOf(id, cell))], players := w1.players[id := Some(q1)],
                         sent := w.sent + [Placed(id, cell)]);
    StandingStill(q1.pos, INPUT_BOMB, w.tiles, SpeedOf(q1, 60));
    assert Moved(q1, 60, w.tiles) == Holder(id, 60);
    hide PlaceBomb, Moved, Loadout;
    assert placed.players[id := Some(Holder(id, 60))] == w.players[id := Some(Holder(id, 60))];
  }

  // ----- Ticks -----

  /** A tick on which no bomb is due is the players' turns and nothing else. */
  lemma NoBombDue(w: World)
    requires forall i | 0 <= i < |AfterPlayers(w, 0).bombs| && AfterPlayers(w, 0).bombs[i].Some? ::
      AfterPlayers(w, 0).bombs[i].value.explodeTick > AfterPlayers(w, 0).tick
    requires !AfterPlayers(w, 0).powersEnabled
    ensures ListsDue(AfterPlayers(w, 0), []) && MatchTick(w, [], 0) == AfterPlayers(w, 0)
  {
    hide AfterPlayers;
  }

  lemma OpeningTick(tick: nat)
    ensures Enabled(Opening(tick), Tick([]), 0) && Step(Opening(tick), Tick([]), 0) == Opening(tick + 1)
  {
    hide LostMap, SimulatePlayer, Waiting, ListsDue, MatchTick;
    var w := Opening(tick).world.(tick := tick + 1);
    FourTurns(w, 0);
    WaitingTurn(w, 0);
    WaitingTurn(w, 1);
    WaitingTurn(w, 2);
    WaitingTurn(w, 3);
    assert AfterPlayers(Opening(tick).world, 0) == Opening(tick + 1).world;
    NoBombDue(Opening(tick).world);
  }

  lemma FusedTick(tick: nat)
    requires tick >= 60
    ensures AfterPlayers(Fused(tick), 0) == Fused(tick + 1)
  {
    hide LostMap, SimulatePlayer, Free, Holder, TwoBombs;
    var w := Fused(tick).(tick := tick + 1);
    FourTurns(w, 0);
    FreeTurn(w, 0);
    HolderTurn(w, 1, tick);
    var w1 := w.(players := w.players[1 := Some(Holder(1, tick + 1))]);
    FreeTurn(w1, 2);
    HolderTurn(w1, 3, tick);
  }

  lemma OnlyTwoBombs()
    ensures |TwoBombs()| == BOMB_CAPACITY
    ensures TwoBombs()[0] == Some(BombOf(1, Cell(1, 9))) && TwoBombs()[1] == Some(BombOf(3, Cell(29, 9)))
    ensures forall i | 2 <= i < BOMB_CAPACITY :: TwoBombs()[i].None?
  {
  }

  lemma QuietFusedTick(tick: nat)
    requires 60 <= tick < 149
    ensures Enabled(Round(Open, Fused(tick)), Tick([]), 0)
    ensures Step(Round(Open, Fused(tick)), Tick([]), 0) == Round(Open, Fused(tick + 1))
  {
    FusedTick(tick);
    OnlyTwoBombs();
    hide LostMap, AfterPlayers, Free, Holder, TwoBombs, ListsDue, MatchTick;
    NoBombDue(Fused(tick));
  }

  lemma SpawnCells()
    ensures CentreCell(SpawnPos(1)) == Cell(1, 9) && CentreCell(SpawnPos(3)) == Cell(29, 9)
    ensures !Solid(TileAt(LostMap(), Cell(1, 9))) && !Solid(TileAt(LostMap(), Cell(29, 9)))
  {
    LostMapAt(Cell(1, 9));
    LostMapAt(Cell(29, 9));
    hide LostMap, TileAt;
  }

  lemma FreeSlots()
    ensures var none := Nobody<BombState>(BOMB_CAPACITY); var one := none[0 := Some(BombOf(1, Cell(1, 9)))];
      && FirstFree(none) == 0 && !Occupied(none, Cell(1, 9)) && FirstFree(one) == 1 && !Occupied(one, Cell(29, 9))
  {
  }

  /** The tick of the two presses. */
  lemma PressTick()
    ensures Enabled(Ready(), Tick([]), 0) && Step(Ready(), Tick([]), 0) == Round(Open, Fused(60))
  {
    SpawnCells();
    FreeSlots();
    OnlyTwoBombs();
    hide LostMap, SimulatePlayer, Free, Pressed, Holder, ListsDue, MatchTick, CentreCell, SpawnPos, TileAt, Solid, Occupied, FirstFree, TwoBombs;
    var w := Ready().world.(tick := 60);
    FourTurns(w, 0);
    FreeTurn(w, 0);
    PressedTurn(w, 1, Cell(1, 9), 0);
    var w1 := SimulatePlayer(w, 1, 0);
    FreeTurn(w1, 2);
    PressedTurn(w1, 3, Cell(29, 9), 1);
    PressedWorld(w, w1, SimulatePlayer(w1, 3, 0));
    assert AfterPlayers(Ready().world, 0) == Fused(60);
    NoBombDue(Ready().world);
  }

  lemma PressedWorld(w: World, w1: World, w2: World)
    requires w == Ready().world.(tick := 60)
    requires w1 == w.(players := w.players[1 := Some(Holder(1, 60))], bombs := w.bombs[0 := Some(BombOf(1, Cell(1, 9)))],
                      sent := w.sent + [Placed(1, Cell(1, 9))])
    requires w2 == w1.(players := w1.players[3 := Some(Holder(3, 60))], bombs := w1.bombs[1 := Some(BombOf(3, Cell(29, 9)))],
                       sent := w1.sent + [Placed(3, Cell(29, 9))])
    ensures w2 == Fused(60)
  {
    hide LostMap, Free, Pressed, Holder;
  }

  // ----- The runs -----

  lemma {:induction false} OpeningRuns(n: nat)
    ensures Possible(First(), UntilUnlock(n), 0) && Run(First(), UntilUnlock(n), 0) == Opening(n)
  {
    hide Opening, First, Run, Possible, Step, Enabled, UntilUnlock;
    if n == 0 {
      CommitRuns();
    } else {
      OpeningRuns(n - 1);
      OpeningTick(n - 1);
      OneMore(First(), UntilUnlock(n - 1), Tick([]), 0);
      OneMoreQuiet(n);
    }
  }

  lemma OneMoreQuiet(n: nat)
    requires n > 0
    ensures UntilUnlock(n) == UntilUnlock(n - 1) + [Tick([])]
    ensures UntilFused(n) == UntilFused(n - 1) + [Tick([])]
    ensures UntilFused(0) == UntilPressed()
  {
    hide UntilPressed;
    assert QuietTicks(n) == QuietTicks(n - 1) + [Tick([])];
    hide QuietTicks;
    assert [Commit] + (QuietTicks(n - 1) + [Tick([])]) == [Commit] + QuietTicks(n - 1) + [Tick([])];
    assert UntilPressed() + (QuietTicks(n - 1) + [Tick([])]) == UntilPressed() + QuietTicks(n - 1) + [Tick([])];
    assert QuietTicks(0) == [] by {
      NoQuietTicks();
    }
    assert UntilPressed() + [] == UntilPressed();
  }

  lemma NoQuietTicks()
    ensures QuietTicks(0) == []
  {
  }

  lemma CommitRuns()
    ensures Possible(First(), UntilUnlock(0), 0) && Run(First(), UntilUnlock(0), 0) == Opening(0)
  {
    hide LostMap;
    OneMore(First(), [], Commit, 0);
    assert UntilUnlock(0) == [] + [Commit];
    assert Run(First(), [], 0) == First();
    assert Step(First(), Commit, 0) == Opening(0);
  }

  lemma PressedRuns()
    ensures Possible(First(), UntilPressed(), 0) && Run(First(), UntilPressed(), 0) == Ready()
  {
    OpeningRuns(59);
    UnlockAndPress();
    hide Run, Possible, Step, Enabled, First, Opening, Ready;
    var a := UntilUnlock(59);
    OneMore(First(), a, Unlock, 0);
    OneMore(First(), a + [Unlock], Deliver(1, PRESS), 0);
    OneMore(First(), a + [Unlock] + [Deliver(1, PRESS)], Deliver(3, PRESS), 0);
  }

  lemma UnlockAndPress()
    ensures Enabled(Opening(59), Unlock, 0)
    ensures var a := Step(Opening(59), Unlock, 0);
      && Enabled(a, Deliver(1, PRESS), 0)
      && var b := Step(a, Deliver(1, PRESS), 0);
         Enabled(b, Deliver(3, PRESS), 0) && Step(b, Deliver(3, PRESS), 0) == Ready()
  {
    hide LostMap, Received;
    var a := Step(Opening(59), Unlock, 0);
    assert a.world.players == Four(Free(0), Free(1), Free(2), Free(3));
    var b := Step(a, Deliver(1, PRESS), 0);
    assert b.world.players == Four(Free(0), Pressed(1), Free(2), Free(3));
  }

  lemma {:induction false} FusedRuns(n: nat)
    requires 1 <= n <= 90
    ensures Possible(First(), UntilFused(n), 0) && Run(First(), UntilFused(n), 0) == Round(Open, Fused(59 + n))
  {
    hide First, Run, Possible, Step, Enabled, Fused, Ready, UntilPressed, UntilFused;
    OneMoreQuiet(n);
    if n == 1 {
      PressedRuns();
      PressTick();
      OneMore(First(), UntilPressed(), Tick([]), 0);
    } else {
      FusedRuns(n - 1);
      QuietFusedTick(58 + n);
      OneMore(First(), UntilFused(n - 1), Tick([]), 0);
    }
  }

  // ----- The two explosions -----

  /** Each bomb breaks the brick above it, and only that one of the two. */
  lemma SecondBombBreaksItsOwnBrick(w: World)
    requires w.tiles == LostMap() && w.bombs == TwoBombs()
    ensures Live(w, 0) && Live(w, 1) && Breaks(w, 1, Cell(29, 8)) && !Breaks(w, 0, Cell(29, 8))
  {
    OnlyTwoBombs();
    LostMapAt(Cell(29, 8));
    hide LostMap, BrokenBricks, BlastCells, ClearUpTo, TileAt, Tiles.At, TwoBombs;
    var m, c := LostMap(), Cell(29, 8);
    BrokenBricksAreTheBurnedOnes(m, Cell(29, 9), 1, c);
    BrokenBricksAreTheBurnedOnes(m, Cell(1, 9), 1, c);
    BlastIsLineOfSight(m, Cell(29, 9), 1, c);
    BlastIsLineOfSight(m, Cell(1, 9), 1, c);
    assert Along(Cell(29, 9), 3, 1) == c;
    NextCellIsInSight(m, Cell(29, 9), 3, 1);
  }

  lemma NextCellIsInSight(m: TileMap, origin: Cell, d: nat, radius: nat)
    requires radius >= 1 && Inside(Along(origin, d, 1)) && TileAt(m, Along(origin, d, 1)) != Stone
    ensures InSight(m, origin, d, radius, 1)
  {
  }

  lemma SecondReport(w: World)
    requires w.tiles == LostMap() && w.bombs == TwoBombs()
    ensures var sent := ExplodeAll(w, [0, 1], w.tiles).sent;
      && |sent| == |w.sent| + 2 && sent[|w.sent|].serverTick == w.tick && sent[|w.sent| + 1].serverTick == w.tick
      && BricksOf(sent[|w.sent| + 1]) != []
  {
    SecondBombBreaksItsOwnBrick(w);
    hide LostMap, TwoBombs, Breaks, ExplodeOne, ExplodeAll, ClosedForm;
    var now := ExplodeOne(w, 0, w.tiles);
    EmptyClosedForm(w);
    OneMoreBomb(w, {}, 0, w);
    assert {} + {0} == {0};
    StillThere(w, {0}, now, 1);
    ExplodeTwo(w, 0, 1, w.tiles);
    ReportOf(w, w, 0);
    ReportOf(w, now, 1);
    OneMoreBomb(w, {0}, 1, now);
    assert !BrokenBy(w, {0}, Cell(29, 8));
  }

  lemma ExplodeTwo(w: World, i: nat, j: nat, before: TileMap)
    requires i < |w.bombs| && j < |w.bombs| && j < |ExplodeOne(w, i, before).bombs|
    ensures ExplodeAll(w, [i, j], before) == ExplodeOne(ExplodeOne(w, i, before), j, before)
  {
    hide ExplodeOne;
    assert [i, j][..1] == [i] && [i][..0] == [];
    assert ExplodeAll(w, [], before) == w;
    assert ExplodeAll(w, [i], before) == ExplodeOne(w, i, before);
  }

  lemma StillThere(w: World, s: set<nat>, now: World, i: nat)
    requires ClosedForm(w, s, now) && Live(w, i) && i !in s
    ensures i < |now.bombs| && now.bombs[i] == w.bombs[i] && now.tick == w.tick
  {
  }

  lemma ReportOf(w: World, now: World, i: nat)
    requires i < |now.bombs| && now.bombs[i].Some?
    ensures var sent := ExplodeOne(now, i, w.tiles).sent;
      |sent| == |now.sent| + 1 && sent[..|now.sent|] == now.sent && sent[|now.sent|].serverTick == now.tick
      && BricksOf(sent[|now.sent|]) == sent[|now.sent|].destroyedBricks
  {
  }

  lemma BothAreDue()
    ensures ListsDue(Fused(150), [0, 1])
  {
    OnlyTwoBombs();
    hide LostMap, Free, Holder, TwoBombs;
  }

  /** The tick of the two explosions. */
  lemma ExplosionTick()
    ensures Enabled(Round(Open, Fused(149)), Tick([0, 1]), 0)
    ensures Step(Round(Open, Fused(149)), Tick([0, 1]), 0).world == ExplodeAll(Fused(150), [0, 1], LostMap())
  {
    hide Fused, LostMap, MatchTick, AfterPlayers, ExplodeAll, ListsDue;
    FusedTick(149);
    BothAreDue();
    FusedFacts(150);
    DueIsInRange(Fused(150), [0, 1]);
    TickWithoutPowers(Fused(149), Fused(150), [0, 1]);
  }

  lemma FusedFacts(tick: nat)
    requires tick >= 60
    ensures Fused(tick).tiles == LostMap() && !Fused(tick).powersEnabled
  {
  }

  lemma TickWithoutPowers(w: World, moved: World, order: seq<nat>)
    requires moved == AfterPlayers(w, 0) && ListsDue(moved, order) && !moved.powersEnabled
    ensures MatchTick(w, order, 0) == ExplodeAll(moved, order, moved.tiles)
  {
    hide AfterPlayers, ExplodeAll, ListsDue;
    DueIsInRange(moved, order);
    PowersStayOff(moved, order);
  }

  lemma PowersStayOff(w: World, order: seq<nat>)
    requires ListsDue(w, order) && !w.powersEnabled
    ensures !ExplodeAll(w, order, w.tiles).powersEnabled
  {
    ExplodeAllIsClosed(w, order);
    hide ExplodeAll;
  }

  /**
   * A history of a round, from its start, after which the client is wrong although every message was queued to
   * it: the second of two explosions of one tick is dropped, and the brick it broke stays on the client's map.
   */
  lemma SameTickExplosionIsLost()
    ensures RoundStarts(LostMap(), First()) && Possible(First(), History(), 0)
    ensures var w := Run(First(), History(), 0).world;
      Rebuild(LostMap(), w.sent) == w.tiles && Gated(LostMap(), w.sent, All(|w.sent|)).tiles != w.tiles
  {
    FirstStarts();
    FusedRuns(90);
    ExplosionTick();
    hide LostMap, First, UntilFused, Run, Possible, Step, Enabled, Gated, Rebuild, RoundStarts, BricksOpenTheirTick;
    OneMore(First(), UntilFused(90), Tick([0, 1]), 0);
    var w := Run(First(), History(), 0).world;
    StreamRebuildsTheWorld(LostMap(), First(), History(), 0);
    GatedClientMatchesIff(LostMap(), First(), History(), 0, All(|w.sent|));
    SecondIsNotFirst(w);
  }

  lemma SecondIsNotFirst(w: World)
    requires w == ExplodeAll(Fused(150), [0, 1], LostMap())
    ensures !BricksOpenTheirTick(w.sent, All(|w.sent|))
  {
    hide ExplodeAll, LostMap, BricksOf;
    SecondReport(Fused(150));
    assert !OpensItsTick(w.sent, All(|w.sent|), 3);
  }
}
