/**
 * A seat of a running round is an input stream: one client's presses interleaved with everything that happens to
 * the round, projected to the stream that module InputAgreement speaks of.
 */
module SeatStreams {
  import opened Config
  import opened Wrappers
  import opened Tiles
  import opened Movement
  import opened Input
  import opened World
  import opened ExplosionOrder
  import opened Rounds
  import WorldRuns
  import WholeServer
  import Effects
  import A = InputAgreement
  import P = Prediction
  import N = Netcode

  /** The client presses, or something happens to the round. */
  datatype Moment =
    | Press(buttons: Byte)
    | Happens(e: RoundEvent)

  function RoundAt(first: Round, ms: seq<Moment>, lead: nat): Round {
    if ms == [] then first
    else
      var r := RoundAt(first, ms[..|ms| - 1], lead);
      match ms[|ms| - 1]
      case Press(_) => r
      case Happens(e) => Step(r, e, lead)
  }

  function Presses(ms: seq<Moment>): seq<Byte> {
    if ms == [] then []
    else Presses(ms[..|ms| - 1]) + if ms[|ms| - 1].Press? then [ms[|ms| - 1].buttons] else []
  }

  predicate Seated(r: Round, id: nat) {
    id < |r.world.players| && r.world.players[id].Some?
  }

  predicate Acts(p: Player) {
    p.alive && !p.inputLocked
  }

  /** What a moment means to the stream of seat id: a tick brings the world's own map and the player's own speed. */
  function Seen(r: Round, id: nat, m: Moment): seq<A.Event> {
    match m
    case Press(buttons) => [A.Send(buttons)]
    case Happens(e) =>
      match e
      case Deliver(to, batch) => if to == id && Seated(r, id) then [A.Deliver(batch)] else []
      case Commit => [A.Commit]
      case Tick(_) =>
        if Seated(r, id) then
          var p, tick := r.world.players[id].value, r.world.tick + 1;
          [A.Tick(tick, Acts(p), r.world.tiles, SpeedOf(p, tick))]
        else []
      case _ => []
  }

  function SeatEvents(first: Round, ms: seq<Moment>, id: nat, lead: nat): seq<A.Event> {
    if ms == [] then []
    else
      var before := ms[..|ms| - 1];
      SeatEvents(first, before, id, lead) + Seen(RoundAt(first, before, lead), id, ms[|ms| - 1])
  }

  /** The round runs as it can, and every batch delivered for the seat is one its client built earlier. */
  ghost predicate Possible(first: Round, ms: seq<Moment>, id: nat, lead: nat) {
    ms == [] ||
    var before := ms[..|ms| - 1];
    && Possible(first, before, id, lead)
    && match ms[|ms| - 1]
       case Press(buttons) => buttons <= INPUT_KNOWN_BITS
       case Happens(e) =>
         && Enabled(RoundAt(first, before, lead), e, lead)
         && (e.Deliver? && e.id == id ==> Built(Presses(before), e.batch))
  }

  ghost predicate Built(log: seq<Byte>, batch: MsgInput) {
    exists n :: 0 < n <= |log| && batch == NewestBatch(log[..n])
  }

  /** The unlock tick the commit fixes, or zero while there is none. */
  function UnlockTick(first: Round, ms: seq<Moment>, lead: nat): nat {
    if ms == [] then 0
    else if ms[|ms| - 1] == Happens(Commit) then RoundAt(first, ms[..|ms| - 1], lead).world.tick + UNLOCK_DELAY_TICKS
    else UnlockTick(first, ms[..|ms| - 1], lead)
  }

  function SetupOf(first: Round, ms: seq<Moment>, id: nat, lead: nat): A.Setup {
    A.Setup(SpawnPos(id), UnlockTick(first, ms, lead), lead)
  }

  // ----- One seat through one gameplay tick -----

  /** From p to q by one tick: resolve and move if free, sit the tick out if not, and perhaps die. */
  ghost predicate SeatTick(p: Player, q: Player, tick: nat, tiles: TileMap, lead: nat) {
    && (q.alive ==> p.alive)
    && if Acts(p) then
         var rx := ResolveForTick(p.input, tick, lead);
         && q.pos == A.Move(p.pos, rx.appliedButtons, tiles, SpeedOf(p, tick))
         && q.input == if q.alive then rx else IdleTick(rx)
       else q.pos == p.pos && q.input == IdleTick(p.input)
  }

  lemma PlacingKeepsSeat(w: World, id: nat)
    requires id < |w.players| && w.players[id].Some?
    ensures var t := PlaceBomb(w, id);
      && t.tick == w.tick && t.tiles == w.tiles && |t.players| == |w.players|
      && t.players[id].Some? && t.players[id].value == w.players[id].value.(activeBombCount := t.players[id].value.activeBombCount)
      && forall other | 0 <= other < |w.players| && other != id :: t.players[other] == w.players[other]
  {
    hide MayPlace, FirstFree;
  }

  lemma PlayerTickOfSeat(w: World, id: nat, lead: nat)
    requires id < |w.players| && w.players[id].Some?
    ensures var q := SimulatePlayer(w, id, lead).players[id];
      q.Some? && q.value.alive == w.players[id].value.alive && SeatTick(w.players[id].value, q.value, w.tick, w.tiles, lead)
  {
    hide PlaceBomb, ResolveForTick, StepMovementWithCollision;
    var p := w.players[id].value;
    if Acts(p) {
      var resolved := Loadout(p, w.tick).(input := ResolveForTick(p.input, w.tick, lead));
      PlacingKeepsSeat(w.(players := w.players[id := Some(resolved)]), id);
      Effects.TurnInSteps(w, id, lead);
    }
  }

  /** A player's tick leaves the clock, the map and every other seat alone. */
  lemma PlayerTickOfOthers(w: World, id: nat, lead: nat)
    requires id < |w.players|
    ensures var t := SimulatePlayer(w, id, lead);
      && t.tick == w.tick && t.tiles == w.tiles && |t.players| == |w.players|
      && forall other | 0 <= other < |w.players| && other != id :: t.players[other] == w.players[other]
  {
    hide PlaceBomb, ResolveForTick, Moved;
    if w.players[id].Some? {
      var p := Loadout(w.players[id].value, w.tick);
      PlacingKeepsSeat(w.(players := w.players[id := Some(p.(input := ResolveForTick(p.input, w.tick, lead)))]), id);
    }
  }

  lemma {:induction false} PlayersTickOfSeat(w: World, n: nat, id: nat, lead: nat)
    requires n <= |w.players| && id < |w.players| && w.players[id].Some?
    ensures var t := SimulatePlayers(w, n, lead);
      && t.tick == w.tick && t.tiles == w.tiles && |t.players| == |w.players|
      && t.players[id].Some?
      && if n <= id then t.players[id] == w.players[id]
         else t.players[id].value.alive == w.players[id].value.alive
              && SeatTick(w.players[id].value, t.players[id].value, w.tick, w.tiles, lead)
    decreases n
  {
    hide SimulatePlayer, SeatTick;
    if n > 0 {
      PlayersTickOfSeat(w, n - 1, id, lead);
      var before := SimulatePlayers(w, n - 1, lead);
      PlayerTickOfOthers(before, n - 1, lead);
      if n - 1 == id {
        PlayerTickOfSeat(before, id, lead);
      }
    }
  }

  /** What explosions and collections leave of a seat: the position, and the input unless it dies. */
  ghost predicate MayDie(slot: Option<Player>, next: Option<Player>) {
    slot.Some? ==>
      && next.Some? && next.value.pos == slot.value.pos && (next.value.alive ==> slot.value.alive)
      && next.value.input == if slot.value.alive && !next.value.alive then IdleTick(slot.value.input) else slot.value.input
  }

  lemma ExplosionsOfSeat(w: World, order: seq<nat>, id: nat)
    requires ListsDue(w, order) && id < |w.players|
    ensures var t := ExplodeAll(w, order, w.tiles); |t.players| == |w.players| && MayDie(w.players[id], t.players[id])
  {
    ExplodeAllIsClosed(w, order);
    hide ExplodeAll, TilesClosed, PowerupsClosed, BombsClosed, BurnedBy, OwnedIn;
    assert ExplodeAll(w, order, w.tiles).players[id] == PlayerClosed(w, SetOf(order), id);
  }

  ghost predicate SameInput(slot: Option<Player>, next: Option<Player>) {
    slot.Some? ==>
      next.Some? && next.value.pos == slot.value.pos && next.value.alive == slot.value.alive && next.value.input == slot.value.input
  }

  lemma CollectOneOfSeat(w: World, j: nat, id: nat)
    requires id < |w.players|
    ensures |CollectOne(w, j).players| == |w.players| && SameInput(w.players[id], CollectOne(w, j).players[id])
  {
  }

  lemma {:induction false} CollectingOfSeat(w: World, n: nat, id: nat)
    requires id < |w.players|
    ensures |CollectPowerups(w, n).players| == |w.players| && SameInput(w.players[id], CollectPowerups(w, n).players[id])
    decreases n
  {
    hide CollectOne;
    if w.powersEnabled && n > 0 {
      CollectingOfSeat(w, n - 1, id);
      CollectOneOfSeat(CollectPowerups(w, n - 1), n - 1, id);
    }
  }

  /** The whole chain: players, explosions, powerups. */
  lemma MatchTickOfSeat(w: World, order: seq<nat>, id: nat, lead: nat)
    requires ListsDue(AfterPlayers(w, lead), order) && id < |w.players| && w.players[id].Some?
    ensures var t := MatchTick(w, order, lead);
      && |t.players| == |w.players| && t.players[id].Some?
      && SeatTick(w.players[id].value, t.players[id].value, w.tick + 1, w.tiles, lead)
  {
    hide SimulatePlayers, ExplodeAll, CollectPowerups, ListsDue, ResolveForTick, StepMovementWithCollision;
    var moved := AfterPlayers(w, lead);
    PlayersTickOfSeat(w.(tick := w.tick + 1), |w.players|, id, lead);
    DueIsInRange(moved, order);
    ExplosionsOfSeat(moved, order, id);
    CollectingOfSeat(ExplodeAll(moved, order, moved.tiles), |w.powerups|, id);
  }

  // ----- The player mirrors the stream -----

  /** Same position and, while alive, same input state; the dead have dropped their buttons. */
  ghost predicate Mirrors(p: Player, s: A.Stream) {
    p.pos == s.pos && p.input == if p.alive then s.rx else IdleTick(s.rx)
  }

  lemma TickMirrors(p: Player, q: Player, s: A.Stream, setup: A.Setup, tick: nat, tiles: TileMap)
    requires Mirrors(p, s) && SeatTick(p, q, tick, tiles, setup.inputLeadTicks)
    ensures Mirrors(q, A.Next(setup, s, A.Tick(tick, Acts(p), tiles, SpeedOf(p, tick))))
  {
    hide ResolveForTick, A.Move;
  }

  lemma {:induction false} EntriesOfTheIdle(rx: Receiver, batch: MsgInput, n: nat)
    requires n <= |batch.inputs|
    ensures AfterEntries(IdleTick(rx), batch, n) == IdleTick(AfterEntries(rx, batch, n))
    decreases n
  {
    if n > 0 {
      EntriesOfTheIdle(rx, batch, n - 1);
    }
  }

  lemma DeliveryMirrors(p: Player, s: A.Stream, setup: A.Setup, batch: MsgInput)
    requires Mirrors(p, s)
    ensures Mirrors(p.(input := Received(p.input, batch)), A.Next(setup, s, A.Deliver(batch)))
  {
    EntriesOfTheIdle(s.rx, batch, |batch.inputs|);
    hide AfterEntries;
  }

  lemma CommitMirrors(p: Player, s: A.Stream, setup: A.Setup)
    requires Mirrors(p, s) && p.alive
    ensures Mirrors(p.(input := Armed(p.input, setup.unlockServerTick, setup.inputLeadTicks)), A.Next(setup, s, A.Commit))
  {
  }

  lemma LocksMirror(players: seq<Option<Player>>, locked: bool, id: nat, s: A.Stream)
    requires id < |players| && players[id].Some? && Mirrors(players[id].value, s)
    ensures SetLocks(players, locked)[id].Some? && Mirrors(SetLocks(players, locked)[id].value, s)
    ensures SetLocks(NoBombsHeld(players), locked)[id].Some? && Mirrors(SetLocks(NoBombsHeld(players), locked)[id].value, s)
  {
  }

  // ----- One more moment -----

  /** The stream after the events one moment brings: none, or one. */
  function After(setup: A.Setup, s: A.Stream, es: seq<A.Event>): A.Stream
    requires |es| <= 1
  {
    if es == [] then s else A.Next(setup, s, es[0])
  }

  lemma StreamStep(setup: A.Setup, before: seq<A.Event>, es: seq<A.Event>)
    requires |es| <= 1
    ensures A.Run(setup, before + es) == After(setup, A.Run(setup, before), es)
    ensures A.Committed(before + es) <==> A.Committed(before) || (es != [] && es[0].Commit?)
  {
    if es == [] {
      assert before + es == before;
    } else {
      assert (before + es)[..|before|] == before;
    }
  }

  /** When one more event is possible. */
  ghost predicate Next(setup: A.Setup, before: seq<A.Event>, e: A.Event) {
    match e
    case Send(buttons) => buttons <= INPUT_KNOWN_BITS
    case Deliver(batch) => Built(A.Run(setup, before).log, batch)
    case Commit => !A.Committed(before)
    case Tick(_, active, _, _) => active ==> A.Committed(before)
  }

  lemma PossibleStep(setup: A.Setup, before: seq<A.Event>, es: seq<A.Event>)
    requires |es| <= 1 && A.Possible(setup, before) && (es != [] ==> Next(setup, before, es[0]))
    ensures A.Possible(setup, before + es)
  {
    if es == [] {
      assert before + es == before;
    } else {
      assert (before + es)[..|before|] == before;
    }
  }

  /** A seat survives every step but its own departure, and mirrors the stream with the step's event added. */
  lemma StepMirrors(start: TileMap, r: Round, e: RoundEvent, id: nat, setup: A.Setup, s: A.Stream)
    requires RoundInv(start, r) && Enabled(r, e, setup.inputLeadTicks)
    requires e.Commit? ==> r.world.tick + UNLOCK_DELAY_TICKS == setup.unlockServerTick
    requires Seated(Step(r, e, setup.inputLeadTicks), id)
    requires Seated(r, id) ==> Mirrors(r.world.players[id].value, s)
    ensures Seated(r, id)
    ensures Mirrors(Step(r, e, setup.inputLeadTicks).world.players[id].value, After(setup, s, Seen(r, id, Happens(e))))
  {
    hide WorldRuns.WorldInv, MatchTick, EndedTick, AfterPlayers, ListsDue, Received, Armed, SetLocks, NoBombsHeld, Mirrors, A.Next;
    var lead := setup.inputLeadTicks;
    SeatsOnlyLeave(r, e, id, lead);
    var p := r.world.players[id].value;
    match e
    case Wait =>
    case Deliver(to, batch) => DeliveryMirrors(p, s, setup, batch);
    case Commit => CommitMirrors(p, s, setup);
    case Unlock => LocksMirror(r.world.players, false, id, s);
    case Tick(order) => TickOfSeat(r, order, id, setup, s);
    case Leave(_) =>
    case End => EndOfSeat(r, id, s);
  }

  lemma EndOfSeat(r: Round, id: nat, s: A.Stream)
    requires Seated(r, id) && Mirrors(r.world.players[id].value, s)
    ensures |EndRound(r.world).players| == |r.world.players| && EndRound(r.world).players[id].Some?
    ensures Mirrors(EndRound(r.world).players[id].value, s)
  {
    LocksMirror(r.world.players, true, id, s);
  }

  lemma TickOfSeat(r: Round, order: seq<nat>, id: nat, setup: A.Setup, s: A.Stream)
    requires Seated(r, id) && Mirrors(r.world.players[id].value, s) && Enabled(r, RoundEvent.Tick(order), setup.inputLeadTicks)
    ensures Seated(Step(r, RoundEvent.Tick(order), setup.inputLeadTicks), id)
    ensures Mirrors(Step(r, RoundEvent.Tick(order), setup.inputLeadTicks).world.players[id].value,
                    After(setup, s, Seen(r, id, Happens(RoundEvent.Tick(order)))))
  {
    hide MatchTick, AfterPlayers, ListsDue, Mirrors, SeatTick, A.Next;
    var w, lead := r.world, setup.inputLeadTicks;
    if r.stage.Ended? {
      EndedTickOfSeat(w, id, lead);
    } else {
      DueIsInRange(AfterPlayers(w, lead), order);
      MatchTickOfSeat(w, order, id, lead);
    }
    TickMirrors(w.players[id].value, Step(r, RoundEvent.Tick(order), lead).world.players[id].value, s, setup, w.tick + 1, w.tiles);
  }

  lemma EndedTickOfSeat(w: World, id: nat, lead: nat)
    requires id < |w.players| && w.players[id].Some?
    ensures var t := EndedTick(w, lead);
      && |t.players| == |w.players| && t.players[id].Some?
      && SeatTick(w.players[id].value, t.players[id].value, w.tick + 1, w.tiles, lead)
  {
    hide SimulatePlayers, SeatTick;
    PlayersTickOfSeat(w.(tick := w.tick + 1), |w.players|, id, lead);
  }

  /** Nobody joins a running round. */
  lemma SeatsOnlyLeave(r: Round, e: RoundEvent, id: nat, lead: nat)
    requires Enabled(r, e, lead) && Seated(Step(r, e, lead), id)
    ensures Seated(r, id) && !(e.Leave? && e.id == id)
  {
    hide MatchTick, SimulatePlayers, ListsDue, Received, Armed;
    if e.Tick? {
      if r.stage.Ended? {
        var w1 := r.world.(tick := r.world.tick + 1);
        WholeServer.PlayersTickKeepsSeats(w1, |w1.players|, lead);
        assert WholeServer.SeatKept(r.world.players[id], Step(r, e, lead).world.players[id]);
      } else {
        DueIsInRange(AfterPlayers(r.world, lead), e.order);
        WholeServer.MatchTickMovesSeats(r.world, e.order, lead);
        assert WholeServer.SeatMoves(r.world.players[id], Step(r, e, lead).world.players[id]);
      }
    }
  }

  // ----- Every history -----

  lemma {:induction false} RoundHolds(start: TileMap, first: Round, ms: seq<Moment>, id: nat, lead: nat)
    requires RoundStarts(start, first) && Possible(first, ms, id, lead)
    ensures RoundInv(start, RoundAt(first, ms, lead))
    decreases |ms|
  {
    hide RoundInv, RoundStarts, Enabled, Step;
    if ms == [] {
      StartHoldsInv(start, first);
    } else {
      var n := |ms| - 1;
      RoundHolds(start, first, ms[..n], id, lead);
      if ms[n].Happens? {
        StepKeepsInv(start, RoundAt(first, ms[..n], lead), ms[n].e, lead);
      }
    }
  }

  /** Every commit of the history fixes this unlock tick. */
  predicate CommitsFor(first: Round, ms: seq<Moment>, lead: nat, unlock: nat) {
    ms == [] ||
    var before := ms[..|ms| - 1];
    && CommitsFor(first, before, lead, unlock)
    && (ms[|ms| - 1] == Happens(Commit) ==> RoundAt(first, before, lead).world.tick + UNLOCK_DELAY_TICKS == unlock)
  }

  /** A round commits once. */
  lemma {:induction false} OneCommit(start: TileMap, first: Round, ms: seq<Moment>, id: nat, lead: nat)
    requires RoundStarts(start, first) && Possible(first, ms, id, lead)
    ensures CommitsFor(first, ms, lead, UnlockTick(first, ms, lead))
    ensures RoundAt(first, ms, lead).stage.Loading? ==> forall unlock :: CommitsFor(first, ms, lead, unlock)
    decreases |ms|
  {
    hide MatchTick, EndedTick, AfterPlayers, ListsDue, Received, ArmPlayers, SetLocks, EndRound, Depart;
    if ms != [] {
      OneCommit(start, first, ms[..|ms| - 1], id, lead);
    }
  }

  /** What the stream of a seat says of the round, whatever the seat. */
  ghost predicate SeatInv(first: Round, ms: seq<Moment>, id: nat, setup: A.Setup) {
    var r := RoundAt(first, ms, setup.inputLeadTicks);
    var events := SeatEvents(first, ms, id, setup.inputLeadTicks);
    && A.Possible(setup, events)
    && A.Run(setup, events).log == Presses(ms)
    && (A.Committed(events) <==> !r.stage.Loading?)
    && (Seated(r, id) ==> Mirrors(r.world.players[id].value, A.Run(setup, events)))
  }

  lemma StartOfSeat(start: TileMap, first: Round, id: nat, setup: A.Setup)
    requires RoundStarts(start, first) && setup.spawn == SpawnPos(id)
    ensures SeatInv(first, [], id, setup)
  {
    hide Arena, IsPlacement;
  }

  lemma MomentOfSeat(start: TileMap, first: Round, ms: seq<Moment>, id: nat, setup: A.Setup)
    requires ms != [] && RoundStarts(start, first) && Possible(first, ms, id, setup.inputLeadTicks)
    requires CommitsFor(first, ms, setup.inputLeadTicks, setup.unlockServerTick)
    requires SeatInv(first, ms[..|ms| - 1], id, setup)
    ensures SeatInv(first, ms, id, setup)
  {
    hide RoundStarts, Mirrors, A.Possible, A.Run, A.Next, A.Committed, RoundInv, Rounds.Step, Enabled, Built;
    var lead, before, m := setup.inputLeadTicks, ms[..|ms| - 1], ms[|ms| - 1];
    var r := RoundAt(first, before, lead);
    var events, es := SeatEvents(first, before, id, lead), Seen(RoundAt(first, before, lead), id, m);
    StreamStep(setup, events, es);
    RoundHolds(start, first, before, id, lead);
    MayHappen(start, r, m, id, setup, events);
    PossibleStep(setup, events, es);
    LogGrows(setup, A.Run(setup, events), r, id, m);
    if m.Happens? {
      StageStep(r, m.e, lead);
      if Seated(Step(r, m.e, lead), id) {
        SeatsOnlyLeave(r, m.e, id, lead);
        StepMirrors(start, r, m.e, id, setup, A.Run(setup, events));
      }
    } else if Seated(r, id) {
      PressMirrors(r.world.players[id].value, A.Run(setup, events), setup, m.buttons);
    }
  }

  lemma PressMirrors(p: Player, s: A.Stream, setup: A.Setup, buttons: Byte)
    requires Mirrors(p, s)
    ensures Mirrors(p, A.Next(setup, s, A.Send(buttons)))
  {
  }

  lemma LogGrows(setup: A.Setup, s: A.Stream, r: Round, id: nat, m: Moment)
    ensures |Seen(r, id, m)| <= 1
    ensures After(setup, s, Seen(r, id, m)).log == s.log + if m.Press? then [m.buttons] else []
  {
    hide StepMovementWithCollision, ResolveForTick;
  }

  lemma StageStep(r: Round, e: RoundEvent, lead: nat)
    requires Enabled(r, e, lead)
    ensures Step(r, e, lead).stage.Loading? <==> r.stage.Loading? && !e.Commit?
  {
    hide MatchTick, EndedTick, AfterPlayers, ListsDue, Received, ArmPlayers, SetLocks, EndRound, Depart;
  }

  /** The projected event is possible for the stream: nobody acts before the commit, and there is one commit. */
  lemma MayHappen(start: TileMap, r: Round, m: Moment, id: nat, setup: A.Setup, events: seq<A.Event>)
    requires RoundInv(start, r)
    requires A.Committed(events) <==> !r.stage.Loading?
    requires match m
      case Press(buttons) => buttons <= INPUT_KNOWN_BITS
      case Happens(e) =>
        Enabled(r, e, setup.inputLeadTicks) && (e.Deliver? && e.id == id ==> Built(A.Run(setup, events).log, e.batch))
    ensures var es := Seen(r, id, m); |es| <= 1 && (es != [] ==> Next(setup, events, es[0]))
  {
    hide WorldRuns.WorldInv, A.Run, A.Committed, Built, ListsDue;
  }

  lemma {:induction false} EveryMomentOfSeat(start: TileMap, first: Round, ms: seq<Moment>, id: nat, setup: A.Setup)
    requires RoundStarts(start, first) && Possible(first, ms, id, setup.inputLeadTicks)
    requires CommitsFor(first, ms, setup.inputLeadTicks, setup.unlockServerTick) && setup.spawn == SpawnPos(id)
    ensures SeatInv(first, ms, id, setup)
    decreases |ms|
  {
    hide SeatInv, RoundStarts, Rounds.Step, Enabled, Built;
    if ms == [] {
      StartOfSeat(start, first, id, setup);
    } else {
      EveryMomentOfSeat(start, first, ms[..|ms| - 1], id, setup);
      MomentOfSeat(start, first, ms, id, setup);
    }
  }

  /**
   * Every seat of every round is an input stream. Take any history of a round, with one seat's client pressing
   * buttons along the way and the network delivering that seat only batches its client built. The events the seat
   * sees make a possible stream, with the presses as its log; while the player is in the round it stands where the
   * stream stands, and its input state is the stream's, or the stream's with the buttons dropped once it is dead.
   */
  lemma EverySeatIsAStream(start: TileMap, first: Round, ms: seq<Moment>, id: nat, lead: nat)
    requires RoundStarts(start, first) && Possible(first, ms, id, lead)
    ensures var setup := SetupOf(first, ms, id, lead); var events := SeatEvents(first, ms, id, lead);
      var r := RoundAt(first, ms, lead); var s := A.Run(setup, events);
      && A.Possible(setup, events) && s.log == Presses(ms)
      && (Seated(r, id) ==>
            && r.world.players[id].value.pos == s.pos
            && r.world.players[id].value.input == if r.world.players[id].value.alive then s.rx else IdleTick(s.rx))
  {
    hide RoundStarts, A.Possible, A.Run, RoundAt, SeatEvents, Presses, Possible, UnlockTick, CommitsFor;
    OneCommit(start, first, ms, id, lead);
    EveryMomentOfSeat(start, first, ms, id, SetupOf(first, ms, id, lead));
  }

  // ----- What follows for the round -----

  /** Sequence k + 1 was consumed at moment i, on the map and at the speed the world had then. */
  ghost predicate DrivenAt(first: Round, ms: seq<Moment>, id: nat, setup: A.Setup, k: nat, i: nat)
    requires k < |A.Run(setup, SeatEvents(first, ms, id, setup.inputLeadTicks)).drives|
  {
    && i < |ms| && ms[i].Happens? && ms[i].e.Tick?
    && var lead := setup.inputLeadTicks; var d := A.Run(setup, SeatEvents(first, ms, id, lead)).drives[k];
       var r := RoundAt(first, ms[..i], lead);
       && |A.Run(setup, SeatEvents(first, ms[..i], id, lead)).drives| == k
       && Seated(r, id) && Acts(r.world.players[id].value)
       && d.tiles == r.world.tiles && d.speedQ == SpeedOf(r.world.players[id].value, r.world.tick + 1)
  }

  /** Every simulated sequence was simulated by a tick of the round, on that tick's map and at that tick's speed. */
  lemma {:induction false} EveryDriveIsATick(first: Round, ms: seq<Moment>, id: nat, setup: A.Setup, k: nat) returns (i: nat)
    requires k < |A.Run(setup, SeatEvents(first, ms, id, setup.inputLeadTicks)).drives|
    ensures DrivenAt(first, ms, id, setup, k, i)
    decreases |ms|
  {
    hide A.Run, Rounds.Step, After, Seen, DrivenAt, Acts;
    var lead := setup.inputLeadTicks;
    if ms == [] {
      NothingDriven(setup);
      assert false;
    } else {
      var n := |ms| - 1;
      var events, r := SeatEvents(first, ms[..n], id, lead), RoundAt(first, ms[..n], lead);
      DrivesGrow(setup, A.Run(setup, events), r, id, ms[n]);
      StreamStep(setup, events, Seen(r, id, ms[n]));
      if k < |A.Run(setup, events).drives| {
        i := EveryDriveIsATick(first, ms[..n], id, setup, k);
        EarlierDrive(first, ms, id, setup, k, i);
      } else {
        i := n;
        LastDrive(first, ms, id, setup, k);
      }
    }
  }

  /** A moment drives nothing, or it is a tick that drives the seated, acting player on the world's map. */
  lemma DrivesGrow(setup: A.Setup, s: A.Stream, r: Round, id: nat, m: Moment)
    ensures |Seen(r, id, m)| <= 1
    ensures var drives := After(setup, s, Seen(r, id, m)).drives;
      || drives == s.drives
      || (&& m.Happens? && m.e.Tick? && Seated(r, id) && Acts(r.world.players[id].value)
          && |drives| == |s.drives| + 1 && drives[..|s.drives|] == s.drives
          && drives[|s.drives|].tiles == r.world.tiles
          && drives[|s.drives|].speedQ == SpeedOf(r.world.players[id].value, r.world.tick + 1))
  {
    hide StepMovementWithCollision, ResolveForTick;
  }

  lemma LastDrive(first: Round, ms: seq<Moment>, id: nat, setup: A.Setup, k: nat)
    requires ms != []
    requires k == |A.Run(setup, SeatEvents(first, ms[..|ms| - 1], id, setup.inputLeadTicks)).drives|
    requires k < |A.Run(setup, SeatEvents(first, ms, id, setup.inputLeadTicks)).drives|
    ensures DrivenAt(first, ms, id, setup, k, |ms| - 1)
  {
    hide A.Run, Rounds.Step, After, Seen, Acts;
    var n, lead := |ms| - 1, setup.inputLeadTicks;
    var events, r := SeatEvents(first, ms[..n], id, lead), RoundAt(first, ms[..n], lead);
    DrivesGrow(setup, A.Run(setup, events), r, id, ms[n]);
    StreamStep(setup, events, Seen(r, id, ms[n]));
  }

  lemma EarlierDrive(first: Round, ms: seq<Moment>, id: nat, setup: A.Setup, k: nat, i: nat)
    requires ms != [] && var before := ms[..|ms| - 1]; var lead := setup.inputLeadTicks;
      var early, late := A.Run(setup, SeatEvents(first, before, id, lead)).drives, A.Run(setup, SeatEvents(first, ms, id, lead)).drives;
      k < |early| <= |late| && late[..|early|] == early && DrivenAt(first, before, id, setup, k, i)
    ensures DrivenAt(first, ms, id, setup, k, i)
  {
    hide A.Run, Rounds.Step, SeatEvents, RoundAt;
    assert ms[..|ms| - 1][..i] == ms[..i];
  }

  lemma NothingDriven(setup: A.Setup)
    ensures A.Run(setup, []).drives == []
  {
  }

  /** The player used its own client's button for sequence s exactly where the stream was covered; the rest repeats. */
  lemma SeatUsesItsOwnInputs(start: TileMap, first: Round, ms: seq<Moment>, id: nat, lead: nat)
    requires RoundStarts(start, first) && Possible(first, ms, id, lead) && Seated(RoundAt(first, ms, lead), id)
    ensures var setup := SetupOf(first, ms, id, lead); var events := SeatEvents(first, ms, id, lead);
      var p := RoundAt(first, ms, lead).world.players[id].value; var drives := A.Run(setup, events).drives;
      && p.input.lastProcessedInputSeq == |drives| && p.pos == Travel(SpawnPos(id), drives)
      && forall s | 1 <= s <= |drives| && A.Covered(setup, events, s) ::
           s <= |Presses(ms)| && drives[s - 1].buttons == Presses(ms)[s - 1]
  {
    hide RoundStarts, A.Possible, A.Run, RoundAt, SeatEvents, Presses, Possible, UnlockTick, A.Covered;
    EverySeatIsAStream(start, first, ms, id, lead);
    var setup, events := SetupOf(first, ms, id, lead), SeatEvents(first, ms, id, lead);
    A.AuthorityIsAFold(setup, events);
    forall s | 1 <= s <= |A.Run(setup, events).drives| && A.Covered(setup, events, s)
      ensures s <= |Presses(ms)| && A.Run(setup, events).drives[s - 1].buttons == Presses(ms)[s - 1]
    {
      A.InputsAgree(setup, events, s);
    }
  }

  /**
   * The corrections of the joint runs in module Netcode are the corrections of a round: if a joint run sees the
   * events of a seat, it is one the system can make, and the correction at its end is the seat's own player.
   */
  lemma CorrectionIsThePlayer(start: TileMap, first: Round, ms: seq<Moment>, id: nat, lead: nat, net: seq<N.NetEvent>, playerFlags: Byte)
    requires RoundStarts(start, first) && Possible(first, ms, id, lead) && Seated(RoundAt(first, ms, lead), id)
    requires N.Net(net) == SeatEvents(first, ms, id, lead)
    requires forall i | 0 <= i < |net| :: (net[i].Server? ==> !net[i].e.Send?) && (net[i].Arrive? ==> net[i].j <= i)
    ensures var setup := SetupOf(first, ms, id, lead); var p := RoundAt(first, ms, lead).world.players[id].value;
      && N.Runs(setup, net)
      && N.CorrectionAt(setup, net, playerFlags) == P.Correction(p.input.lastProcessedInputSeq, p.pos, playerFlags)
  {
    hide RoundStarts, A.Possible, A.Run, RoundAt, SeatEvents, Presses, Possible, UnlockTick, N.Net;
    EverySeatIsAStream(start, first, ms, id, lead);
  }
}
