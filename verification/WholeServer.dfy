/**
 * The whole server: the session and match flow of module Flow driving the round world of module Rounds, tick by
 * tick, over every history of connections, acknowledgements, inputs and disconnects.
 */
module WholeServer {
  import opened Config
  import opened Wrappers
  import opened Tiles
  import opened Movement
  import opened Input
  import opened Blast
  import opened World
  import opened ExplosionOrder
  import WorldRuns
  import opened Rounds
  import F = Flow
  import FlowInv
  import ClientFlow

  // ----- The two views of a match player -----

  function SeatOf(slot: Option<Player>): Option<F.Seat> {
    if slot.Some? then Some(F.Seat(slot.value.alive, slot.value.inputLocked)) else None
  }

  function SeatsOf(players: seq<Option<Player>>): seq<Option<F.Seat>> {
    seq(|players|, id requires 0 <= id < |players| => SeatOf(players[id]))
  }

  predicate InRound(s: F.Server) {
    s.phase == F.StartingMatch || s.phase == F.InMatch || s.phase == F.EndOfMatch
  }

  function StageOf(s: F.Server): Stage {
    match s.phase
    case InMatch => if s.unlockTick != 0 then Opening else Open
    case EndOfMatch => Ended
    case _ => Loading
  }

  /** Flow and world agree on the stage, the tick and every seat. */
  ghost predicate Aligned(s: F.Server, r: Round) {
    && InRound(s) && r.stage == StageOf(s) && r.world.tick == s.serverTick
    && |r.world.players| == MAX_PLAYERS && s.seats == SeatsOf(r.world.players)
  }

  datatype Whole = Whole(flow: F.Server, start: TileMap, round: Option<Round>)

  // ----- One step of the whole -----

  /** What can happen; a tick picks the resolution order of its explosions, a bootstrap its fresh round. */
  datatype Happening =
    | Session(e: F.Event)
    | Input(id: nat, batch: MsgInput)
    | Tick(order: seq<nat>, next: Round)

  /** The round as the tick's gameplay finds it: unlocked if the unlock tick has come. */
  function Opened(s: F.Server, r: Round, lead: nat): Round {
    if s.phase == F.InMatch && s.unlockTick != 0 && s.serverTick + 1 >= s.unlockTick then Step(r, Unlock, lead) else r
  }

  function AliveIn(players: seq<Option<Player>>): set<nat> {
    set id: nat | id < |players| && players[id].Some? && players[id].value.alive
  }

  /** The players this tick's explosions kill. */
  function KilledBy(s: F.Server, r: Round, order: seq<nat>, lead: nat): set<nat> {
    var unlocked := Opened(s, r, lead);
    AliveIn(unlocked.world.players) - AliveIn(Step(unlocked, RoundEvent.Tick(order), lead).world.players)
  }

  /** The round after the tick's gameplay. */
  function Played(s: F.Server, r: Round, order: seq<nat>, lead: nat): Round {
    match s.phase
    case StartingMatch => Step(r, Wait, lead)
    case _ => Step(Opened(s, r, lead), RoundEvent.Tick(order), lead)
  }

  function EndedIf(s: F.Server, after: F.Server, r: Round, lead: nat): Round {
    if s.phase == F.InMatch && after.phase == F.EndOfMatch then Step(r, End, lead) else r
  }

  function DeathsOf(w: Whole, order: seq<nat>, lead: nat): set<nat> {
    if w.flow.phase == F.InMatch && w.round.Some? then KilledBy(w.flow, w.round.value, order, lead) else {}
  }

  function Next(w: Whole, h: Happening, lead: nat, lost: F.Losses): Whole {
    match h
    case Input(id, batch) =>
      if w.round.Some? then w.(round := Some(Step(w.round.value, Deliver(id, batch), lead))) else w
    case Tick(order, next) =>
      var after := F.Step(w.flow, F.EvTick(DeathsOf(w, order, lead)), lost);
      if !InRound(after) then Whole(after, w.start, None)
      else if w.round.None? then Whole(after, next.world.tiles, Some(next))
      else Whole(after, w.start, Some(EndedIf(w.flow, after, Played(w.flow, w.round.value, order, lead), lead)))
    case Session(e) =>
      var after := F.Step(w.flow, e, lost);
      if !InRound(after) || w.round.None? then Whole(after, w.start, None)
      else
        match e
        case EvDisconnect(p) =>
          if p < |w.flow.sessions| && F.Accepted(w.flow.sessions[p]) then
            Whole(after, w.start, Some(EndedIf(w.flow, after,
              Step(w.round.value, Leave(w.flow.sessions[p].value.playerId.value), lead), lead)))
          else Whole(after, w.start, w.round)
        case EvMatchLoaded(_, _) =>
          if w.flow.phase == F.StartingMatch && after.phase == F.InMatch
          then Whole(after, w.start, Some(Step(w.round.value, Commit, lead))) else Whole(after, w.start, w.round)
        case _ => Whole(after, w.start, w.round)
  }

  /** A round as the bootstrap sets it up: a match player for every accepted id, at the current tick. */
  ghost predicate FreshFor(s: F.Server, r: Round) {
    && RoundStarts(r.world.tiles, r) && r.world.tick == s.serverTick + 1
    && forall id: nat | id < MAX_PLAYERS :: r.world.players[id].Some? <==> id in F.AcceptedIds(s.sessions)
  }

  ghost predicate CanHappen(w: Whole, h: Happening, lead: nat) {
    match h
    case Session(e) => !e.EvTick?
    case Input(id, batch) => id < MAX_PLAYERS && batch.WellFormed()
    case Tick(order, next) =>
      && (w.round.None? ==> FreshFor(w.flow, next))
      && (w.flow.phase == F.InMatch && w.round.Some? ==>
            ListsDue(AfterPlayers(Opened(w.flow, w.round.value, lead).world, lead), order))
  }

  function Begin(start: TileMap): Whole {
    Whole(F.Start(), start, None)
  }

  function Run(start: TileMap, hs: seq<Happening>, lead: nat, lost: F.Losses): Whole
    decreases |hs|
  {
    if hs == [] then Begin(start) else Next(Run(start, hs[..|hs| - 1], lead, lost), hs[|hs| - 1], lead, lost)
  }

  ghost predicate Possible(start: TileMap, hs: seq<Happening>, lead: nat, lost: F.Losses)
    decreases |hs|
  {
    hs == [] || (Possible(start, hs[..|hs| - 1], lead, lost)
                 && CanHappen(Run(start, hs[..|hs| - 1], lead, lost), hs[|hs| - 1], lead))
  }

  // ----- The invariant of the whole -----

  ghost predicate WholeInv(w: Whole, lead: nat) {
    && FlowInv.Inv(w.flow)
    && (InRound(w.flow) <==> w.round.Some?)
    && (w.round.Some? ==> Aligned(w.flow, w.round.value) && Reached(w.start, w.round.value, lead))
  }

  // ----- Seats through a gameplay tick -----

  /** A player keeps its seat as it is, or dies and is locked. */
  ghost predicate SeatMoves(a: Option<Player>, b: Option<Player>) {
    && (a.Some? <==> b.Some?)
    && (a.Some? ==>
          || (b.value.alive == a.value.alive && b.value.inputLocked == a.value.inputLocked)
          || (a.value.alive && !b.value.alive && b.value.inputLocked))
  }

  ghost predicate SeatKept(a: Option<Player>, b: Option<Player>) {
    SeatOf(a) == SeatOf(b)
  }

  ghost predicate AllKept(a: seq<Option<Player>>, b: seq<Option<Player>>) {
    |a| == |b| && forall id | 0 <= id < |a| :: SeatKept(a[id], b[id])
  }

  lemma PlayerTickKeepsSeats(w: World, id: nat, lead: nat)
    requires id < |w.players|
    ensures AllKept(w.players, SimulatePlayer(w, id, lead).players)
  {
    hide MayPlace, FirstFree, StepMovementWithCollision, ResolveForTick;
  }

  lemma {:induction false} PlayersTickKeepsSeats(w: World, n: nat, lead: nat)
    requires n <= |w.players|
    ensures AllKept(w.players, SimulatePlayers(w, n, lead).players)
    decreases n
  {
    hide SimulatePlayer, SeatKept;
    if n > 0 {
      PlayersTickKeepsSeats(w, n - 1, lead);
      PlayerTickKeepsSeats(SimulatePlayers(w, n - 1, lead), n - 1, lead);
      ChainKept(w.players, SimulatePlayers(w, n - 1, lead).players, SimulatePlayers(w, n, lead).players);
    } else {
      KeptSelf(w.players);
    }
  }

  lemma ChainKept(a: seq<Option<Player>>, b: seq<Option<Player>>, c: seq<Option<Player>>)
    requires AllKept(a, b) && AllKept(b, c)
    ensures AllKept(a, c)
  {
  }

  lemma KeptSelf(a: seq<Option<Player>>)
    ensures AllKept(a, a)
  {
  }

  lemma {:induction false} CollectingKeepsSeats(w: World, n: nat)
    ensures AllKept(w.players, CollectPowerups(w, n).players)
    decreases n
  {
    hide SeatKept, CollectOne;
    KeptSelf(w.players);
    if w.powersEnabled && n > 0 {
      CollectingKeepsSeats(w, n - 1);
      var before := CollectPowerups(w, n - 1);
      CollectOneKeepsSeats(before, n - 1);
      ChainKept(w.players, before.players, CollectPowerups(w, n).players);
    }
  }

  lemma CollectOneKeepsSeats(w: World, j: nat)
    ensures AllKept(w.players, CollectOne(w, j).players)
  {
  }

  lemma ExplosionsMoveSeats(w: World, order: seq<nat>)
    requires ListsDue(w, order)
    ensures var after := ExplodeAll(w, order, w.tiles);
      |after.players| == |w.players| && forall id | 0 <= id < |w.players| :: SeatMoves(w.players[id], after.players[id])
  {
    ExplodeAllIsClosed(w, order);
    hide ExplodeAll, TilesClosed, PowerupsClosed, BombsClosed, BurnedBy, OwnedIn;
    var after := ExplodeAll(w, order, w.tiles);
    forall id | 0 <= id < |w.players| ensures SeatMoves(w.players[id], after.players[id]) {
      assert after.players[id] == PlayerClosed(w, SetOf(order), id);
    }
  }

  /** Over a whole gameplay tick, seats only change by dying. */
  lemma MatchTickMovesSeats(w: World, order: seq<nat>, lead: nat)
    requires ListsDue(AfterPlayers(w, lead), order)
    ensures var after := MatchTick(w, order, lead);
      |after.players| == |w.players| && forall id | 0 <= id < |w.players| :: SeatMoves(w.players[id], after.players[id])
  {
    hide SimulatePlayers, ExplodeAll, CollectPowerups, ListsDue;
    var w1 := w.(tick := w.tick + 1);
    PlayersTickKeepsSeats(w1, |w1.players|, lead);
    var moved := AfterPlayers(w, lead);
    ExplosionsMoveSeats(moved, order);
    DueIsInRange(moved, order);
    var burned := ExplodeAll(moved, order, moved.tiles);
    CollectingKeepsSeats(burned, |w.powerups|);
    forall id | 0 <= id < |w.players| ensures SeatMoves(w.players[id], MatchTick(w, order, lead).players[id]) {
      assert SeatKept(w.players[id], moved.players[id]);
      assert SeatMoves(moved.players[id], burned.players[id]);
      assert SeatKept(burned.players[id], MatchTick(w, order, lead).players[id]);
    }
  }

  /** The seats after a tick are the seats before it with the killed players dead. */
  lemma SeatsAfterKills(a: seq<Option<Player>>, b: seq<Option<Player>>)
    requires |a| == |b| && forall id | 0 <= id < |a| :: SeatMoves(a[id], b[id])
    ensures SeatsOf(b) == F.Killed(SeatsOf(a), AliveIn(a) - AliveIn(b))
  {
    forall id | 0 <= id < |a| ensures SeatOf(b[id]) == F.Killed(SeatsOf(a), AliveIn(a) - AliveIn(b))[id] {
      assert SeatMoves(a[id], b[id]);
      assert id in AliveIn(a) <==> a[id].Some? && a[id].value.alive;
      assert id in AliveIn(b) <==> b[id].Some? && b[id].value.alive;
    }
  }

  lemma LocksAgree(players: seq<Option<Player>>, locked: bool)
    ensures SeatsOf(SetLocks(players, locked)) == F.LockedSeats(SeatsOf(players), locked)
    ensures SeatsOf(SetLocks(NoBombsHeld(players), locked)) == F.LockedSeats(SeatsOf(players), locked)
  {
  }

  lemma KeptSeatsAgree(a: seq<Option<Player>>, b: seq<Option<Player>>)
    requires AllKept(a, b)
    ensures SeatsOf(a) == SeatsOf(b)
  {
  }

  // ----- The flow side of a tick -----

  lemma AdvanceInMatch(t: F.Server, lost: F.Losses)
    requires |t.links| == |t.sessions| && t.phase == F.InMatch
    ensures F.Advance(t, lost) ==
      if t.unlockTick != 0 && t.serverTick >= t.unlockTick then t.(seats := F.LockedSeats(t.seats, false), unlockTick := 0) else t
  {
    hide F.LockedSeats, F.BeginMatchBootstrap, F.BroadcastLobbyState, F.CancelStarting, F.ResetToLobby, F.CountdownSeconds;
  }

  /** A tick inside a match: unlock if due, kill, end if decided. */
  lemma FlowTickInMatch(s: F.Server, killed: set<nat>, lost: F.Losses)
    requires FlowInv.Inv(s) && s.phase == F.InMatch
    ensures |s.links| == |s.sessions|
    ensures var due := s.unlockTick != 0 && s.serverTick + 1 >= s.unlockTick;
      var hit := s.(serverTick := s.serverTick + 1, unlockTick := if due then 0 else s.unlockTick,
                    seats := F.Killed(if due then F.LockedSeats(s.seats, false) else s.seats, killed));
      F.ServerTick(s, killed, lost) == F.EndIfDecided(hit, lost)
  {
    hide FlowInv.Inv, F.EndIfDecided, F.Killed, F.LockedSeats, F.Advance;
    FlowInv.InvSizes(s);
    AdvanceInMatch(s.(serverTick := s.serverTick + 1), lost);
  }

  /** Ending a round leaves the flow as it is, or enters the end of match with everybody locked. */
  lemma EndIfDecidedIs(s: F.Server, lost: F.Losses)
    requires |s.links| == |s.sessions| && s.phase == F.InMatch
    ensures var t := F.EndIfDecided(s, lost);
      && t.serverTick == s.serverTick
      && ((t.phase == F.InMatch && t.seats == s.seats && t.unlockTick == s.unlockTick)
          || (t.phase == F.EndOfMatch && t.seats == F.LockedSeats(s.seats, true)))
  {
    hide F.AliveIds, F.LastAlive, F.AnySeat, F.SendResult, F.LockedSeats, F.Credited;
  }

  ghost predicate TickedElsewhere(s: F.Server, t: F.Server) {
    && (InRound(t) && InRound(s) ==> t.phase == s.phase && t.seats == s.seats && t.serverTick == s.serverTick + 1)
    && (InRound(t) && !InRound(s) ==>
          t.phase == F.StartingMatch && s.phase == F.LobbyCountdown && t.serverTick == s.serverTick + 1
          && t.seats == F.Seated(F.Nones(MAX_PLAYERS), F.AcceptedIds(s.sessions)))
  }

  lemma AdvanceInLobby(s: F.Server, lost: F.Losses)
    requires FlowInv.Inv(s) && !InRound(s) && |s.links| == |s.sessions|
    ensures TickedElsewhere(s, F.Advance(s.(serverTick := s.serverTick + 1), lost))
    ensures F.Advance(s.(serverTick := s.serverTick + 1), lost).phase != F.InMatch
  {
    hide FlowInv.Inv, F.BeginMatchBootstrap, F.BroadcastLobbyState, F.CancelStarting, F.Seated, F.AcceptedIds, F.CountdownSeconds;
    if s.phase == F.LobbyCountdown {
      CountdownBootstraps(s, lost);
    }
  }

  lemma AdvanceInRound(s: F.Server, lost: F.Losses)
    requires InRound(s) && s.phase != F.InMatch && |s.links| == |s.sessions|
    ensures TickedElsewhere(s, F.Advance(s.(serverTick := s.serverTick + 1), lost))
    ensures F.Advance(s.(serverTick := s.serverTick + 1), lost).phase != F.InMatch
  {
    hide F.BeginMatchBootstrap, F.BroadcastLobbyState, F.CancelStarting, F.Seated, F.AcceptedIds, F.UnreadySlots;
    CancelLeaves(s.(serverTick := s.serverTick + 1), lost);
  }

  /** Outside a match a tick waits, cancels, returns to the lobby or bootstraps. */
  lemma FlowTickElsewhere(s: F.Server, lost: F.Losses)
    requires FlowInv.Inv(s) && s.phase != F.InMatch
    ensures |s.links| == |s.sessions| && TickedElsewhere(s, F.ServerTick(s, {}, lost))
  {
    hide FlowInv.Inv, F.EndIfDecided, F.Advance, F.Killed, TickedElsewhere;
    FlowInv.InvSizes(s);
    if InRound(s) {
      AdvanceInRound(s, lost);
    } else {
      AdvanceInLobby(s, lost);
    }
  }

  lemma CancelLeaves(s: F.Server, lost: F.Losses)
    requires |s.links| == |s.sessions|
    ensures F.CancelStarting(s, s.matchMask, lost).phase == F.Lobby
  {
    hide F.SendCancelled, F.PushedToAccepted, F.BuildLobbyState;
  }

  lemma CountdownBootstraps(s: F.Server, lost: F.Losses)
    requires FlowInv.Inv(s) && s.phase == F.LobbyCountdown && |s.links| == |s.sessions|
    ensures var b := F.BeginMatchBootstrap(s.(serverTick := s.serverTick + 1), lost);
      InRound(b) ==>
        && b.phase == F.StartingMatch && b.serverTick == s.serverTick + 1
        && b.seats == F.Seated(F.Nones(MAX_PLAYERS), F.AcceptedIds(s.sessions))
  {
    var t := s.(serverTick := s.serverTick + 1);
    CountdownFacts(s);
    FlowInv.BootstrapRecheckNeverFails(t);
    FlowInv.ParticipantsAreAccepted(t);
    hide F.SendToMask, F.ReachedIds, F.AllReady, F.Participants, F.SlotMissing, F.AcceptedIds, F.PushedToAccepted,
         F.SendCancelled, F.Seated, F.UnreadySlots, FlowInv.Inv, FlowInv.SessionsOk, FlowInv.ReadyTogether;
    var mask := F.Participants(t);
    assert F.Known(mask) == mask;
  }

  lemma CountdownFacts(s: F.Server)
    requires FlowInv.Inv(s) && s.phase == F.LobbyCountdown
    ensures var t := s.(serverTick := s.serverTick + 1);
      FlowInv.SessionsOk(t) && t.countdownMask == F.AcceptedIds(t.sessions) && FlowInv.ReadyTogether(t)
    ensures |s.seats| == MAX_PLAYERS
  {
    hide FlowInv.PoolOk, FlowInv.SlotsOk, FlowInv.BoundOnce;
  }

  // ----- Every step keeps the two aligned -----

  /** A gameplay tick on both sides. */
  lemma InMatchTickAligns(s: F.Server, start: TileMap, r: Round, order: seq<nat>, lead: nat, lost: F.Losses)
    requires FlowInv.Inv(s) && s.phase == F.InMatch && Aligned(s, r) && Reached(start, r, lead)
    requires ListsDue(AfterPlayers(Opened(s, r, lead).world, lead), order)
    ensures |s.links| == |s.sessions|
    ensures var t := F.ServerTick(s, KilledBy(s, r, order, lead), lost); var r' := EndedIf(s, t, Played(s, r, order, lead), lead);
      Aligned(t, r') && Reached(start, r', lead)
  {
    hide FlowInv.Inv, RoundInv, Reached, ListsDue, MatchTick, AfterPlayers, EndRound, F.EndIfDecided, F.Killed, F.LockedSeats, SeatsOf;
    var killed := KilledBy(s, r, order, lead);
    FlowTickInMatch(s, killed, lost);
    var unlocked := Opened(s, r, lead);
    LocksAgree(r.world.players, false);
    OpenedHolds(s, start, r, lead);
    var played := Step(unlocked, RoundEvent.Tick(order), lead);
    DueIsInRange(AfterPlayers(unlocked.world, lead), order);
    ReachedStep(start, unlocked, RoundEvent.Tick(order), lead);
    MatchTickMovesSeats(unlocked.world, order, lead);
    MatchTickIsATick(start, unlocked, order, lead);
    SeatsAfterKills(unlocked.world.players, played.world.players);
    var due := s.unlockTick != 0 && s.serverTick + 1 >= s.unlockTick;
    var hit := s.(serverTick := s.serverTick + 1, unlockTick := if due then 0 else s.unlockTick, seats := SeatsOf(played.world.players));
    EndIfDecidedIs(hit, lost);
    EndOfRoundHolds(start, played, lead);
    LocksAgree(played.world.players, true);
  }

  lemma OpenedHolds(s: F.Server, start: TileMap, r: Round, lead: nat)
    requires Reached(start, r, lead) && Aligned(s, r) && s.phase == F.InMatch
    ensures Reached(start, Opened(s, r, lead), lead) && !Opened(s, r, lead).stage.Ended? && !Opened(s, r, lead).stage.Loading?
    ensures |SetLocks(r.world.players, false)| == |r.world.players|
  {
    hide RoundInv, Reached;
    if Opened(s, r, lead) != r {
      ReachedStep(start, r, Unlock, lead);
    }
  }

  lemma MatchTickIsATick(start: TileMap, r: Round, order: seq<nat>, lead: nat)
    requires Reached(start, r, lead) && ListsDue(AfterPlayers(r.world, lead), order)
    ensures MatchTick(r.world, order, lead).tick == r.world.tick + 1
  {
    hide WorldRuns.WorldInv, MatchTick, AfterPlayers, ListsDue, Reached;
    ReachedHolds(start, r, lead);
    WorldRuns.MatchTickKeepsInv(start, r.world, order, lead);
  }

  lemma EndOfRoundHolds(start: TileMap, r: Round, lead: nat)
    requires Reached(start, r, lead)
    ensures !r.stage.Loading? && !r.stage.Ended? ==> Reached(start, Step(r, End, lead), lead)
    ensures EndRound(r.world).tick == r.world.tick && EndRound(r.world).players == SetLocks(NoBombsHeld(r.world.players), true)
    ensures |EndRound(r.world).players| == |r.world.players|
  {
    if !r.stage.Loading? && !r.stage.Ended? {
      ReachedStep(start, r, End, lead);
    }
    hide RoundInv, Reached;
  }

  lemma WaitingTickAligns(s: F.Server, start: TileMap, r: Round, order: seq<nat>, lead: nat, lost: F.Losses)
    requires FlowInv.Inv(s) && s.phase != F.InMatch && Aligned(s, r) && Reached(start, r, lead)
    ensures |s.links| == |s.sessions|
    ensures var t := F.ServerTick(s, {}, lost);
      InRound(t) ==> Aligned(t, Played(s, r, order, lead)) && Reached(start, Played(s, r, order, lead), lead)
  {
    hide FlowInv.Inv, RoundInv, Reached, F.ServerTick, SimulatePlayers, SeatsOf;
    FlowTickElsewhere(s, lost);
    if s.phase == F.StartingMatch {
      ReachedStep(start, r, Wait, lead);
    } else {
      ReachedStep(start, r, RoundEvent.Tick(order), lead);
      var w1 := r.world.(tick := r.world.tick + 1);
      PlayersTickKeepsSeats(w1, |w1.players|, lead);
      KeptSeatsAgree(w1.players, EndedTick(r.world, lead).players);
      EndedTickIsATick(start, r, lead);
    }
  }

  lemma EndedTickIsATick(start: TileMap, r: Round, lead: nat)
    requires Reached(start, r, lead)
    ensures EndedTick(r.world, lead).tick == r.world.tick + 1
  {
    hide WorldRuns.MidInv, SimulatePlayers, Reached;
    ReachedHolds(start, r, lead);
    WorldRuns.TickStarts(start, r.world);
    var w1 := r.world.(tick := r.world.tick + 1);
    WorldRuns.SameShape(start, w1);
    WorldRuns.SimulatePlayersKeepsInv(start, w1, |w1.players|, lead);
  }

  /** A bootstrap puts a fresh round under the new seats. */
  lemma BootstrapAligns(s: F.Server, next: Round, lead: nat, lost: F.Losses)
    requires FlowInv.Inv(s) && !InRound(s) && FreshFor(s, next)
    ensures |s.links| == |s.sessions|
    ensures var t := F.ServerTick(s, {}, lost); InRound(t) ==> Aligned(t, next) && Reached(next.world.tiles, next, lead)
  {
    FlowTickElsewhere(s, lost);
    StartIsReached(next.world.tiles, next, lead);
    hide FlowInv.Inv, RoundInv, Reached, F.ServerTick, F.AcceptedIds, IsPlacement, Arena;
    var t := F.ServerTick(s, {}, lost);
    if InRound(t) {
      forall id | 0 <= id < MAX_PLAYERS ensures SeatsOf(next.world.players)[id] == t.seats[id] {
      }
    }
  }

  lemma TickKeepsWhole(w: Whole, order: seq<nat>, next: Round, lead: nat, lost: F.Losses)
    requires WholeInv(w, lead) && CanHappen(w, Happening.Tick(order, next), lead)
    ensures WholeInv(Next(w, Happening.Tick(order, next), lead, lost), lead)
  {
    hide FlowInv.Inv, RoundInv, Reached, Aligned, ListsDue, F.ServerTick, KilledBy, Played, EndedIf, FreshFor, Opened;
    var s := w.flow;
    FlowInv.InvSizes(s);
    FlowInv.StepHolds(s, F.EvTick(DeathsOf(w, order, lead)), lost);
    if w.round.None? {
      BootstrapAligns(s, next, lead, lost);
    } else if s.phase == F.InMatch {
      InMatchTickAligns(s, w.start, w.round.value, order, lead, lost);
      AlignedIsInRound(F.ServerTick(s, KilledBy(s, w.round.value, order, lead), lost),
        EndedIf(s, F.ServerTick(s, KilledBy(s, w.round.value, order, lead), lost), Played(s, w.round.value, order, lead), lead));
    } else {
      WaitingTickAligns(s, w.start, w.round.value, order, lead, lost);
      NoEndOutsideMatch(s, F.ServerTick(s, {}, lost), Played(s, w.round.value, order, lead), lead);
    }
  }

  lemma AlignedIsInRound(s: F.Server, r: Round)
    requires Aligned(s, r)
    ensures InRound(s)
  {
  }

  lemma NoEndOutsideMatch(s: F.Server, t: F.Server, r: Round, lead: nat)
    requires s.phase != F.InMatch
    ensures EndedIf(s, t, r, lead) == r
  {
  }

  // ----- Disconnects and acknowledgements -----

  lemma DisconnectIs(s: F.Server, p: nat, lost: F.Losses)
    requires FlowInv.Inv(s) && InRound(s) && p < |s.sessions|
    ensures |s.links| == |s.sessions|
    ensures var t := F.Disconnect(s, p, lost);
      && t.serverTick == s.serverTick
      && if !F.Accepted(s.sessions[p]) then t.phase == s.phase && t.seats == s.seats && t.unlockTick == s.unlockTick
         else
           var id := s.sessions[p].value.playerId.value;
           && id < MAX_PLAYERS
           && (InRound(t) ==>
                 || (t.phase == s.phase && t.seats == s.seats[id := None] && t.unlockTick == s.unlockTick && s.phase != F.StartingMatch)
                 || (s.phase == F.InMatch && t.phase == F.EndOfMatch && t.seats == F.LockedSeats(s.seats[id := None], true)))
  {
    FlowInv.InvSizes(s);
    if F.Accepted(s.sessions[p]) {
      FlowInv.BoundSeatExists(s, p);
      hide FlowInv.Inv, F.Release, F.HandleReleased;
      var id := s.sessions[p].value.playerId.value;
      var freed := s.(sessions := s.sessions[p := None],
        reclaims := s.reclaims[id := Some(F.Reclaim(s.slots[id].value.name, s.slots[id].value.wins))],
        seats := s.seats[id := None], slots := s.slots[id := None], pool := F.Release(s.pool, id));
      ReleasedIs(freed, id, lost);
    }
  }

  lemma ReleasedIs(s: F.Server, id: nat, lost: F.Losses)
    requires |s.links| == |s.sessions| && InRound(s)
    ensures var t := F.HandleReleased(s, id, lost);
      && t.serverTick == s.serverTick
      && (InRound(t) ==>
            || (t.phase == s.phase && t.seats == s.seats && t.unlockTick == s.unlockTick && s.phase != F.StartingMatch)
            || (s.phase == F.InMatch && t.phase == F.EndOfMatch && t.seats == F.LockedSeats(s.seats, true)))
  {
    var left := s.(countdownMask := s.countdownMask - {id}, matchMask := s.matchMask - {id}, loadedMask := s.loadedMask - {id});
    CancelLeaves(left, lost);
    CancelKeepsTick(left, lost);
    if left.phase == F.InMatch {
      EndIfDecidedIs(left, lost);
    } else {
      FlowInv.NothingToEnd(left, lost);
    }
    hide F.CancelStarting, F.EndIfDecided, F.LockedSeats;
  }

  lemma CancelKeepsTick(s: F.Server, lost: F.Losses)
    requires |s.links| == |s.sessions|
    ensures F.CancelStarting(s, s.matchMask, lost).serverTick == s.serverTick
  {
    hide F.SendCancelled, F.PushedToAccepted, F.BuildLobbyState;
  }

  lemma LeavingAgrees(players: seq<Option<Player>>, id: nat)
    requires id < |players|
    ensures SeatsOf(players[id := None]) == SeatsOf(players)[id := None]
  {
  }

  lemma DisconnectAligns(s: F.Server, start: TileMap, r: Round, p: nat, lead: nat, lost: F.Losses)
    requires FlowInv.Inv(s) && Aligned(s, r) && Reached(start, r, lead) && p < |s.sessions| && F.Accepted(s.sessions[p])
    ensures |s.links| == |s.sessions|
    ensures var t := F.Disconnect(s, p, lost);
      var r' := EndedIf(s, t, Step(r, Leave(s.sessions[p].value.playerId.value), lead), lead);
      InRound(t) ==> Aligned(t, r') && Reached(start, r', lead)
  {
    hide FlowInv.Inv, RoundInv, Reached, F.Disconnect, EndRound, F.LockedSeats, SeatsOf;
    DisconnectIs(s, p, lost);
    var id := s.sessions[p].value.playerId.value;
    var t := F.Disconnect(s, p, lost);
    if InRound(t) {
      LeavingAgrees(r.world.players, id);
      ReachedStep(start, r, Leave(id), lead);
      var left := Step(r, Leave(id), lead);
      EndOfRoundHolds(start, left, lead);
      LocksAgree(left.world.players, true);
    }
  }

  lemma CommitIs(s: F.Server, p: nat, matchId: nat, lost: F.Losses)
    requires |s.links| == |s.sessions| && p < |s.sessions| && InRound(s)
    ensures var t := F.MatchLoaded(s, p, matchId, lost);
      && (InRound(t) ==> t.serverTick == s.serverTick && t.seats == s.seats)
      && (InRound(t) ==>
            || (t.phase == s.phase && t.unlockTick == s.unlockTick)
            || (s.phase == F.StartingMatch && t.phase == F.InMatch && t.unlockTick == s.serverTick + UNLOCK_DELAY_TICKS))
  {
    hide F.SendToMask, F.ReachedIds, F.CancelStarting, F.Known;
    if s.phase == F.StartingMatch && F.Accepted(s.sessions[p]) {
      var loaded := s.(loadedMask := s.loadedMask + {s.sessions[p].value.playerId.value});
      var go := s.serverTick + F.GO_DELAY_TICKS;
      var told := F.SendToMask(loaded, loaded.matchMask, ClientFlow.MatchStart(s.matchId, go, go), MAX_PLAYERS, lost);
      CancelLeaves(told, lost);
    }
  }

  lemma CommitAligns(s: F.Server, start: TileMap, r: Round, t: F.Server, lead: nat)
    requires Aligned(s, r) && Reached(start, r, lead) && s.phase == F.StartingMatch
    requires t.phase == F.InMatch && t.unlockTick == s.serverTick + UNLOCK_DELAY_TICKS && t.serverTick == s.serverTick && t.seats == s.seats
    ensures Aligned(t, Step(r, Commit, lead)) && Reached(start, Step(r, Commit, lead), lead)
  {
    ReachedStep(start, r, Commit, lead);
    hide RoundInv, Reached, Armed;
    assert SeatsOf(Step(r, Commit, lead).world.players) == SeatsOf(r.world.players);
  }

  /** The other events leave a running round alone. */
  lemma QuietEvents(s: F.Server, e: F.Event, lost: F.Losses)
    requires |s.links| == |s.sessions| && InRound(s) && (e.EvConnect? || e.EvHello? || e.EvLobbyReady?)
    ensures var t := F.Step(s, e, lost);
      t.phase == s.phase && t.seats == s.seats && t.serverTick == s.serverTick && t.unlockTick == s.unlockTick
  {
    hide F.SendTo;
  }

  lemma StillAligned(s: F.Server, t: F.Server, r: Round)
    requires Aligned(s, r) && t.phase == s.phase && t.seats == s.seats && t.serverTick == s.serverTick && t.unlockTick == s.unlockTick
    ensures Aligned(t, r)
  {
  }

  /** Only a tick enters a round. */
  lemma RoundsBeginOnTicks(s: F.Server, e: F.Event, lost: F.Losses)
    requires FlowInv.Inv(s) && !InRound(s) && !e.EvTick?
    ensures !InRound(F.Step(s, e, lost))
  {
    FlowInv.InvSizes(s);
    hide FlowInv.Inv;
    match e
    case EvConnect(p) =>
    case EvHello(p, name, ok) => HelloStaysOut(s, e, lost);
    case EvLobbyReady(p, ready) =>
      hide F.AllReady, F.Participants, F.BroadcastLobbyState;
    case EvMatchLoaded(p, matchId) =>
    case EvDisconnect(p) =>
      hide F.Release, F.PushedToAccepted, F.BuildLobbyState;
  }

  lemma HelloStaysOut(s: F.Server, e: F.Event, lost: F.Losses)
    requires !InRound(s) && e.EvHello?
    ensures !InRound(F.Step(s, e, lost))
  {
    hide F.Reserve, F.SendTo, F.Release, F.Remove, F.PushedToAccepted, F.BuildLobbyState;
  }

  lemma SessionKeepsWhole(w: Whole, e: F.Event, lead: nat, lost: F.Losses)
    requires WholeInv(w, lead) && !e.EvTick?
    ensures WholeInv(Next(w, Happening.Session(e), lead, lost), lead)
  {
    hide FlowInv.Inv, RoundInv, Reached, Aligned, F.Connect, F.Hello, F.LobbyReady, F.MatchLoaded, F.Disconnect, EndedIf, Rounds.Step;
    var s, after := w.flow, F.Step(w.flow, e, lost);
    FlowInv.InvSizes(s);
    FlowInv.StepHolds(s, e, lost);
    if !InRound(s) {
      RoundsBeginOnTicks(s, e, lost);
    } else if F.Enabled(s, e) {
      var r := w.round.value;
      match e
      case EvConnect(_) =>
        QuietEvents(s, e, lost);
        StillAligned(s, after, r);
      case EvHello(_, _, _) =>
        QuietEvents(s, e, lost);
        StillAligned(s, after, r);
      case EvLobbyReady(_, _) =>
        QuietEvents(s, e, lost);
        StillAligned(s, after, r);
      case EvMatchLoaded(p, matchId) =>
        CommitIs(s, p, matchId, lost);
        if InRound(after) {
          if s.phase == F.StartingMatch && after.phase == F.InMatch {
            CommitAligns(s, w.start, r, after, lead);
          } else {
            StillAligned(s, after, r);
          }
        }
      case EvDisconnect(p) =>
        if F.Accepted(s.sessions[p]) {
          DisconnectAligns(s, w.start, r, p, lead, lost);
        } else {
          DisconnectIs(s, p, lost);
          StillAligned(s, after, r);
        }
    }
  }

  lemma InputKeepsWhole(w: Whole, id: nat, batch: MsgInput, lead: nat, lost: F.Losses)
    requires WholeInv(w, lead) && id < MAX_PLAYERS && batch.WellFormed()
    ensures WholeInv(Next(w, Happening.Input(id, batch), lead, lost), lead)
  {
    hide FlowInv.Inv, RoundInv, Reached, Received;
    if w.round.Some? {
      var r := w.round.value;
      ReachedStep(w.start, r, Deliver(id, batch), lead);
      assert SeatsOf(Rounds.Step(r, Deliver(id, batch), lead).world.players) == SeatsOf(r.world.players);
    }
  }

  /** Every state of the whole server, over every history: the flow invariant holds, the round is a possible one, and both are aligned. */
  lemma {:induction false} EveryHistoryHolds(start: TileMap, hs: seq<Happening>, lead: nat, lost: F.Losses)
    requires Possible(start, hs, lead, lost)
    ensures WholeInv(Run(start, hs, lead, lost), lead)
    decreases |hs|
  {
    hide WholeInv, Next, CanHappen;
    if hs == [] {
      BeginHolds(start, lead);
    } else {
      var n := |hs| - 1;
      EveryHistoryHolds(start, hs[..n], lead, lost);
      var w := Run(start, hs[..n], lead, lost);
      WholeStepHolds(w, hs[n], lead, lost);
    }
  }

  lemma WholeStepHolds(w: Whole, h: Happening, lead: nat, lost: F.Losses)
    requires WholeInv(w, lead) && CanHappen(w, h, lead)
    ensures WholeInv(Next(w, h, lead, lost), lead)
  {
    hide WholeInv, Next;
    match h
    case Session(e) => SessionKeepsWhole(w, e, lead, lost);
    case Input(id, batch) => InputKeepsWhole(w, id, batch, lead, lost);
    case Tick(order, next) => TickKeepsWhole(w, order, next, lead, lost);
  }

  lemma BeginHolds(start: TileMap, lead: nat)
    ensures WholeInv(Begin(start), lead)
  {
    FlowInv.StartHolds();
    hide FlowInv.Inv;
  }

  // ----- What the two invariants say together -----

  lemma AliveSeats(players: seq<Option<Player>>)
    ensures F.AliveIds(SeatsOf(players)) == AliveIn(players)
  {
  }

  /**
   * At every moment of every history: a match in progress has at least two living players in the world, its
   * opening holds no bomb and no player who can act, its end neither; and exactly the accepted players have a
   * match state.
   */
  lemma WorldOfAMatch(start: TileMap, hs: seq<Happening>, lead: nat, lost: F.Losses)
    requires Possible(start, hs, lead, lost)
    ensures var w := Run(start, hs, lead, lost);
      InRound(w.flow) ==>
        && w.round.Some?
        && var world := w.round.value.world;
           && |world.players| == MAX_PLAYERS
           && (w.flow.phase == F.InMatch ==> |AliveIn(world.players)| >= 2)
           && (w.flow.phase != F.InMatch || w.flow.unlockTick != 0 ==> NoBombs(world.bombs) && AllLocked(world.players))
           && (forall id: nat | id < MAX_PLAYERS :: world.players[id].Some? <==> id in F.AcceptedIds(w.flow.sessions))
  {
    hide Possible, Run, F.AcceptedIds;
    EveryHistoryHolds(start, hs, lead, lost);
    var w := Run(start, hs, lead, lost);
    if InRound(w.flow) {
      ReachedHolds(w.start, w.round.value, lead);
      hide Reached;
      var world := w.round.value.world;
      AliveSeats(world.players);
      SeatedAreAccepted(w.flow);
      hide FlowInv.Inv, WorldRuns.WorldInv;
      forall id: nat | id < MAX_PLAYERS ensures world.players[id].Some? <==> id in F.AcceptedIds(w.flow.sessions) {
        assert w.flow.seats[id] == SeatOf(world.players[id]);
      }
    }
  }

  lemma SeatedAreAccepted(s: F.Server)
    requires FlowInv.Inv(s) && InRound(s)
    ensures |s.seats| == MAX_PLAYERS && forall id: nat | id < MAX_PLAYERS :: s.seats[id].Some? <==> id in F.AcceptedIds(s.sessions)
    ensures s.phase == F.InMatch ==> |F.AliveIds(s.seats)| >= 2
  {
    hide FlowInv.PoolOk, FlowInv.SlotsOk, FlowInv.BoundOnce, F.AcceptedIds;
  }
}
