/**
 * The server's session and match flow as a state machine over events (Server/ServerSession.cpp,
 * Server/ServerControlHandlers.cpp, Server/ServerLobbyFlow.cpp, Server/ServerMatchFlow.cpp, Server/ServerFlow.cpp).
 * Every send may fail. FlowServer.dfy runs the same steps in place.
 */
module Flow {
  import opened Config
  import opened Wrappers
  import opened ClientFlow

  const PEER_CAPACITY := 8
  const LOBBY_COUNTDOWN_TICKS := 180
  const LOAD_TIMEOUT_TICKS := 300
  const GO_DELAY_TICKS := 60
  const RETURN_TICKS := 180

  datatype Phase = Lobby | LobbyCountdown | StartingMatch | InMatch | EndOfMatch

  datatype Session = Session(playerId: Option<nat>)
  datatype PlayerSlot = PlayerSlot(name: Name, ready: bool, wins: nat)
  datatype Reclaim = Reclaim(name: Name, wins: nat)

  /** The flow's view of a match player. */
  datatype Seat = Seat(alive: bool, inputLocked: bool)

  /** What was queued to one peer since it connected, and how many sends were tried. */
  datatype Link = Link(sent: seq<Control>, attempts: nat)

  /** The record of one ended round. */
  datatype RoundResult = RoundResult(matchId: nat, winner: Option<nat>, survivors: set<nat>)

  datatype Server = Server(
    phase: Phase,
    serverTick: nat,
    sessions: seq<Option<Session>>,
    slots: seq<Option<PlayerSlot>>,
    reclaims: seq<Option<Reclaim>>,
    seats: seq<Option<Seat>>,
    pool: seq<nat>,
    matchId: nat,
    nextMatchId: nat,
    countdownMask: set<nat>,
    countdownDeadlineTick: nat,
    countdownLastBroadcastSecond: nat,
    matchMask: set<nat>,
    loadedMask: set<nat>,
    startDeadlineTick: nat,
    goShowTick: nat,
    unlockTick: nat,
    returnTick: nat,
    winner: Option<nat>,
    draw: bool,
    links: seq<Link>,
    results: seq<RoundResult>)

  /** Whether the n-th send tried on a peer's connection fails. */
  type Losses = (nat, nat) -> bool

  function Nones<T>(n: nat): seq<Option<T>> {
    seq(n, _ => None)
  }

  function FreshLinks(): seq<Link> {
    seq(PEER_CAPACITY, _ => Link([], 0))
  }

  /** A server that has just been initialised. */
  function Start(): Server {
    Server(Lobby, 0, Nones(PEER_CAPACITY), Nones(MAX_PLAYERS), Nones(MAX_PLAYERS), Nones(MAX_PLAYERS),
           [0, 1, 2, 3], 0, 1, {}, 0, 0, {}, {}, 0, 0, 0, 0, None, false, FreshLinks(), [])
  }

  // ----- Sessions -----

  predicate Bound(slot: Option<Session>, id: nat) {
    slot.Some? && slot.value.playerId == Some(id)
  }

  predicate Accepted(slot: Option<Session>) {
    slot.Some? && slot.value.playerId.Some?
  }

  /** The first session bound to a player id, or the number of peers. */
  function PeerOf(sessions: seq<Option<Session>>, id: nat): (p: nat)
    ensures p <= |sessions| && (p < |sessions| ==> Bound(sessions[p], id))
    ensures forall q | 0 <= q < p :: !Bound(sessions[q], id)
  {
    if sessions == [] || Bound(sessions[0], id) then 0 else 1 + PeerOf(sessions[1..], id)
  }

  /** Ids bound to some session. */
  function AcceptedIds(sessions: seq<Option<Session>>): set<nat> {
    set p | 0 <= p < |sessions| && Accepted(sessions[p]) :: sessions[p].value.playerId.value
  }

  // ----- The free-id pool -----

  function Remove(pool: seq<nat>, id: nat): seq<nat> {
    if pool == [] then [] else if pool[0] == id then pool[1..] else [pool[0]] + Remove(pool[1..], id)
  }

  /** Returns an id to its place in the sorted pool; an id already there stays single. */
  function Release(pool: seq<nat>, id: nat): seq<nat> {
    if pool == [] || pool[0] > id then [id] + pool
    else if pool[0] == id then pool
    else [pool[0]] + Release(pool[1..], id)
  }

  // ----- Sends -----

  function Pushed(l: Link, p: nat, msg: Control, lost: Losses): Link {
    Link(if lost(p, l.attempts) then l.sent else l.sent + [msg], l.attempts + 1)
  }

  function SendTo(s: Server, p: nat, msg: Control, lost: Losses): (r: Server)
    requires p < |s.links|
    ensures r == s.(links := r.links) && |r.links| == |s.links|
  {
    s.(links := s.links[p := Pushed(s.links[p], p, msg, lost)])
  }

  predicate Reaches(s: Server, id: nat, lost: Losses)
    requires |s.links| == |s.sessions|
  {
    var p := PeerOf(s.sessions, id);
    p < |s.sessions| && !lost(p, s.links[p].attempts)
  }

  function SendToPlayer(s: Server, id: nat, msg: Control, lost: Losses): (r: Server)
    requires |s.links| == |s.sessions|
    ensures r == s.(links := r.links) && |r.links| == |s.links|
  {
    var p := PeerOf(s.sessions, id);
    if p < |s.sessions| then SendTo(s, p, msg, lost) else s
  }

  /** Sends to the ids of a mask, in id order. */
  function SendToMask(s: Server, mask: set<nat>, msg: Control, n: nat, lost: Losses): (r: Server)
    requires |s.links| == |s.sessions|
    ensures r == s.(links := r.links) && |r.links| == |s.links|
  {
    if n == 0 then s
    else
      var before := SendToMask(s, mask, msg, n - 1, lost);
      if n - 1 in mask then SendToPlayer(before, n - 1, msg, lost) else before
  }

  /** The ids of a mask whose send is queued. */
  function ReachedIds(s: Server, mask: set<nat>, msg: Control, n: nat, lost: Losses): set<nat>
    requires |s.links| == |s.sessions|
  {
    if n == 0 then {}
    else
      var before := SendToMask(s, mask, msg, n - 1, lost);
      ReachedIds(s, mask, msg, n - 1, lost)
        + if n - 1 in mask && Reaches(before, n - 1, lost) then {n - 1} else {}
  }

  // ----- The lobby state -----

  function CountdownSeconds(s: Server): nat {
    if !s.phase.LobbyCountdown? || s.countdownDeadlineTick == 0 || s.serverTick >= s.countdownDeadlineTick then 0
    else (s.countdownDeadlineTick - s.serverTick + TICK_RATE - 1) / TICK_RATE
  }

  function LobbySeatOf(s: Server, id: nat): Option<LobbySeat>
    requires id < |s.slots|
  {
    if PeerOf(s.sessions, id) == |s.sessions| || s.slots[id].None? then None
    else Some(LobbySeat(s.slots[id].value.name, s.slots[id].value.ready, s.slots[id].value.wins))
  }

  function LobbySeats(s: Server): seq<Option<LobbySeat>> {
    seq(|s.slots|, id requires 0 <= id < |s.slots| => LobbySeatOf(s, id))
  }

  function BuildLobbyState(s: Server): (msg: Control)
    ensures msg.LobbyState?
  {
    LobbyState(s.phase.LobbyCountdown?, CountdownSeconds(s), LobbySeats(s))
  }

  function PushedToAccepted(links: seq<Link>, sessions: seq<Option<Session>>, msg: Control, lost: Losses): seq<Link>
    requires |links| == |sessions|
  {
    seq(|links|, p requires 0 <= p < |links| => if Accepted(sessions[p]) then Pushed(links[p], p, msg, lost) else links[p])
  }

  /** Every accepted session is sent the current lobby state. */
  function BroadcastLobbyState(s: Server, lost: Losses): (r: Server)
    requires |s.links| == |s.sessions|
    ensures r == s.(links := r.links) && |r.links| == |s.links|
  {
    s.(links := PushedToAccepted(s.links, s.sessions, BuildLobbyState(s), lost))
  }

  // ----- Lobby flow -----

  function ClearCountdown(s: Server): Server {
    s.(countdownMask := {}, countdownDeadlineTick := 0, countdownLastBroadcastSecond := 0)
  }

  function ClearRoundFlow(s: Server): Server {
    s.(matchMask := {}, loadedMask := {}, startDeadlineTick := 0, goShowTick := 0, unlockTick := 0,
       returnTick := 0, winner := None, draw := false)
  }

  function Unready(slot: Option<PlayerSlot>): Option<PlayerSlot> {
    if slot.Some? then Some(slot.value.(ready := false)) else None
  }

  function UnreadySlots(slots: seq<Option<PlayerSlot>>): seq<Option<PlayerSlot>> {
    seq(|slots|, id requires 0 <= id < |slots| => Unready(slots[id]))
  }

  function ClearReady(s: Server): Server {
    s.(slots := UnreadySlots(s.slots))
  }

  function ClearSeats(s: Server): Server {
    s.(seats := Nones(|s.seats|))
  }

  /** The ids of a mask that exist. */
  function Known(mask: set<nat>): set<nat> {
    set id | id in mask && id < MAX_PLAYERS
  }

  predicate SlotMissing(s: Server) {
    exists id :: id in AcceptedIds(s.sessions) && (id >= |s.slots| || s.slots[id].None?)
  }

  /** The accepted participants; empty when one of them has no slot. */
  function Participants(s: Server): set<nat> {
    if SlotMissing(s) then {} else AcceptedIds(s.sessions)
  }

  predicate AllReady(s: Server) {
    !SlotMissing(s) && forall id | id in AcceptedIds(s.sessions) && 0 <= id < |s.slots| && s.slots[id].Some? :: s.slots[id].value.ready
  }

  /** Round runtime is reset and the lobby is entered. */
  function ResetToLobby(s: Server): Server {
    ClearSeats(ClearReady(ClearRoundFlow(ClearCountdown(s.(phase := Lobby, matchId := 0)))))
  }

  function CancelCountdown(s: Server, lost: Losses): Server
    requires |s.links| == |s.sessions|
  {
    BroadcastLobbyState(ClearCountdown(s.(phase := Lobby)), lost)
  }

  function StartCountdown(s: Server, mask: set<nat>, lost: Losses): Server
    requires |s.links| == |s.sessions|
  {
    var armed := s.(phase := LobbyCountdown, countdownMask := mask, countdownDeadlineTick := s.serverTick + LOBBY_COUNTDOWN_TICKS);
    BroadcastLobbyState(armed.(countdownLastBroadcastSecond := CountdownSeconds(armed)), lost)
  }

  function ResetUnready(s: Server, lost: Losses): Server
    requires |s.links| == |s.sessions|
  {
    BroadcastLobbyState(ClearReady(ClearCountdown(s.(phase := Lobby))), lost)
  }

  function SendCancelled(s: Server, mask: set<nat>, lost: Losses): (r: Server)
    requires |s.links| == |s.sessions|
    ensures r == s.(links := r.links) && |r.links| == |s.links|
  {
    if s.matchId == 0 || mask == {} then s else SendToMask(s, mask, MatchCancelled(s.matchId), MAX_PLAYERS, lost)
  }

  function CancelStarting(s: Server, notifyMask: set<nat>, lost: Losses): Server
    requires |s.links| == |s.sessions|
  {
    BroadcastLobbyState(ResetToLobby(SendCancelled(s, notifyMask, lost)), lost)
  }

  /** Starts the match once every participant has loaded; any failed send aborts the start. */
  function MaybeCommit(s: Server, lost: Losses): Server
    requires |s.links| == |s.sessions|
  {
    if !s.phase.StartingMatch? || s.matchId == 0 || s.matchMask == {} || s.loadedMask != s.matchMask then s
    else
      var go := s.serverTick + GO_DELAY_TICKS;
      var msg := MatchStart(s.matchId, go, go);
      var told := SendToMask(s, s.matchMask, msg, MAX_PLAYERS, lost);
      if ReachedIds(s, s.matchMask, msg, MAX_PLAYERS, lost) != Known(s.matchMask) then
        CancelStarting(told, s.matchMask, lost)
      else told.(phase := InMatch, startDeadlineTick := 0, goShowTick := go, unlockTick := go)
  }

  function HandleReadyChanged(s: Server, lost: Losses): Server
    requires |s.links| == |s.sessions|
  {
    var mask := Participants(s);
    match s.phase
    case LobbyCountdown =>
      if !AllReady(s) || mask != s.countdownMask || |mask| < 2 then CancelCountdown(s, lost)
      else BroadcastLobbyState(s, lost)
    case Lobby => if AllReady(s) && |mask| >= 2 then StartCountdown(s, mask, lost) else BroadcastLobbyState(s, lost)
    case _ => s
  }

  function HandleJoined(s: Server, lost: Losses): Server
    requires |s.links| == |s.sessions|
  {
    if s.phase.Lobby? || s.phase.LobbyCountdown? then ResetUnready(s, lost) else s
  }

  /** A freshly bootstrapped match, before anybody is told. */
  function Bootstrapped(s: Server, mask: set<nat>): Server {
    var boot := ClearRoundFlow(ClearCountdown(s.(phase := StartingMatch, matchId := s.nextMatchId, nextMatchId := s.nextMatchId + 1)));
    ClearSeats(ClearReady(boot.(matchMask := mask, startDeadlineTick := s.serverTick + LOAD_TIMEOUT_TICKS)))
  }

  function Seated(seats: seq<Option<Seat>>, mask: set<nat>): seq<Option<Seat>> {
    seq(|seats|, id requires 0 <= id < |seats| => if id in mask then Some(Seat(true, true)) else seats[id])
  }

  /**
   * The countdown has run out: the participants get their match state and their level info, unless the ready
   * conditions no longer hold. A failed send takes everything back.
   */
  function BeginMatchBootstrap(s: Server, lost: Losses): Server
    requires |s.links| == |s.sessions|
  {
    if !s.phase.LobbyCountdown? || s.countdownMask == {} then s
    else
      var mask := Participants(s);
      if !AllReady(s) || mask != s.countdownMask || |mask| < 2 then CancelCountdown(s, lost)
      else
        var boot := Bootstrapped(s, mask);
        var msg := LevelInfo(boot.matchId);
        var told := SendToMask(boot, mask, msg, MAX_PLAYERS, lost);
        var reached := ReachedIds(boot, mask, msg, MAX_PLAYERS, lost);
        var seated := told.(seats := Seated(told.seats, reached));
        if reached != Known(mask) then CancelStarting(seated, reached, lost)
        else seated.(matchMask := reached)
  }

  function MarkLoaded(s: Server, id: nat, lost: Losses): Server
    requires |s.links| == |s.sessions|
  {
    if !s.phase.StartingMatch? || s.matchId == 0 || id !in s.matchMask || id in s.loadedMask then s
    else MaybeCommit(s.(loadedMask := s.loadedMask + {id}), lost)
  }

  // ----- End of match -----

  function AliveIds(seats: seq<Option<Seat>>): set<nat> {
    set id | 0 <= id < |seats| && seats[id].Some? && seats[id].value.alive
  }

  /** The last living seat of a scan in id order. */
  function LastAlive(seats: seq<Option<Seat>>): Option<nat> {
    if seats == [] then None
    else if seats[|seats| - 1].Some? && seats[|seats| - 1].value.alive then Some(|seats| - 1)
    else LastAlive(seats[..|seats| - 1])
  }

  predicate AnySeat(seats: seq<Option<Seat>>) {
    exists id :: 0 <= id < |seats| && seats[id].Some?
  }

  function LockedSeats(seats: seq<Option<Seat>>, locked: bool): seq<Option<Seat>> {
    seq(|seats|, id requires 0 <= id < |seats| => if seats[id].Some? then Some(seats[id].value.(inputLocked := locked)) else None)
  }

  function Credited(slots: seq<Option<PlayerSlot>>, winner: Option<nat>): seq<Option<PlayerSlot>> {
    if winner.Some? && winner.value < |slots| && slots[winner.value].Some?
    then slots[winner.value := Some(slots[winner.value].value.(wins := slots[winner.value].value.wins + 1))] else slots
  }

  /** The name "Player", for a winner without one. */
  const UNNAMED: Name := [0x50, 0x6C, 0x61, 0x79, 0x65, 0x72]

  function WinnerName(s: Server, id: nat): Name {
    if id >= |s.slots| || s.slots[id].None? || s.slots[id].value.name == [] then UNNAMED else s.slots[id].value.name
  }

  function BuildMatchResult(s: Server): Control {
    if s.draw || s.winner.None? then MatchResult(s.matchId, None, [])
    else MatchResult(s.matchId, s.winner, WinnerName(s, s.winner.value))
  }

  function SendResult(s: Server, lost: Losses): (r: Server)
    requires |s.links| == |s.sessions|
    ensures r == s.(links := r.links) && |r.links| == |s.links|
  {
    if s.matchId == 0 || s.matchMask == {} then s else SendToMask(s, s.matchMask, BuildMatchResult(s), MAX_PLAYERS, lost)
  }

  /** The round is decided: the winner is credited, everybody is locked and told. */
  function BeginEndOfMatch(s: Server, winner: Option<nat>, draw: bool, lost: Losses): Server
    requires |s.links| == |s.sessions|
  {
    if !s.phase.InMatch? then s
    else
      var w := if draw then None else winner;
      SendResult(s.(phase := EndOfMatch, winner := w, draw := draw, goShowTick := 0, unlockTick := 0,
                    returnTick := s.serverTick + RETURN_TICKS,
                    slots := Credited(s.slots, w), seats := LockedSeats(s.seats, true),
                    results := s.results + [RoundResult(s.matchId, w, AliveIds(s.seats))]), lost)
  }

  /** Ends the round if at most one player is left alive. */
  function EndIfDecided(s: Server, lost: Losses): Server
    requires |s.links| == |s.sessions|
  {
    var alive := AliveIds(s.seats);
    if !s.phase.InMatch? || !AnySeat(s.seats) || |alive| > 1 then s
    else BeginEndOfMatch(s, if |alive| == 1 then LastAlive(s.seats) else None, alive == {}, lost)
  }

  /** Flow consequences of an accepted player's disconnect. */
  function HandleReleased(s: Server, id: nat, lost: Losses): Server
    requires |s.links| == |s.sessions|
  {
    var left := s.(countdownMask := s.countdownMask - {id}, matchMask := s.matchMask - {id}, loadedMask := s.loadedMask - {id});
    match left.phase
    case Lobby => ResetUnready(left, lost)
    case LobbyCountdown => ResetUnready(left, lost)
    case StartingMatch => CancelStarting(left, left.matchMask, lost)
    case _ => if left.matchMask == {} then ResetToLobby(left) else EndIfDecided(left, lost)
  }

  // ----- Events -----

  /** A transport peer connects and gets its session. */
  function Connect(s: Server, p: nat): Server {
    if p < |s.sessions| && p < |s.links| then
      s.(sessions := s.sessions[p := Some(Session(None))], links := s.links[p := s.links[p].(sent := [])])
    else s
  }

  /** The lowest id below n whose reclaim record carries the name and which is free, or n. */
  function ReclaimedId(s: Server, name: Name, from: nat): (id: nat)
    requires from <= |s.reclaims|
    ensures from <= id <= |s.reclaims|
    ensures id < |s.reclaims| ==> s.reclaims[id].Some? && s.reclaims[id].value.name == name && id in s.pool
    ensures forall j | from <= j < id :: s.reclaims[j].None? || s.reclaims[j].value.name != name || j !in s.pool
    decreases |s.reclaims| - from
  {
    if from == |s.reclaims| then from
    else if s.reclaims[from].Some? && s.reclaims[from].value.name == name && from in s.pool then from
    else ReclaimedId(s, name, from + 1)
  }

  /** The id and the carried wins a Hello is given: a matching reclaim first, the lowest free id otherwise. */
  function Reserve(s: Server, name: Name): Option<(nat, nat)> {
    var r := ReclaimedId(s, name, 0);
    if r < |s.reclaims| then Some((r, s.reclaims[r].value.wins))
    else if s.pool == [] then None
    else Some((s.pool[0], 0))
  }

  function Accept(s: Server, p: nat, id: nat, name: Name, wins: nat): Server
    requires p < |s.sessions| && id < |s.slots| && id < |s.reclaims|
  {
    s.(slots := s.slots[id := Some(PlayerSlot(name, false, wins))],
       reclaims := s.reclaims[id := None],
       sessions := s.sessions[p := Some(Session(Some(id)))])
  }

  /** A Hello: a duplicate repeats the Welcome, a stranger is admitted in the lobby if an id is free. */
  function Hello(s: Server, p: nat, name: Name, versionMatches: bool, lost: Losses): Server
    requires |s.links| == |s.sessions| && p < |s.sessions|
  {
    if Accepted(s.sessions[p]) then SendTo(s, p, Welcome(s.sessions[p].value.playerId.value), lost)
    else if !versionMatches then SendTo(s, p, Reject(VersionMismatch), lost)
    else if s.phase.StartingMatch? || s.phase.InMatch? || s.phase.EndOfMatch? then SendTo(s, p, Reject(GameInProgress), lost)
    else
      var reserved := Reserve(s, name);
      if reserved.None? then SendTo(s, p, Reject(ServerFull), lost)
      else
        var id, wins := reserved.value.0, reserved.value.1;
        var welcomed := SendTo(s.(pool := Remove(s.pool, id)), p, Welcome(id), lost);
        if lost(p, s.links[p].attempts) then SendTo(welcomed.(pool := Release(welcomed.pool, id)), p, Reject(Other), lost)
        else if id < |s.slots| && id < |s.reclaims| then HandleJoined(Accept(welcomed, p, id, name, wins), lost)
        else welcomed
  }

  function LobbyReady(s: Server, p: nat, ready: bool, lost: Losses): Server
    requires |s.links| == |s.sessions| && p < |s.sessions|
  {
    if !s.phase.Lobby? && !s.phase.LobbyCountdown? then s
    else if !Accepted(s.sessions[p]) then s
    else
      var id := s.sessions[p].value.playerId.value;
      if id >= |s.slots| || s.slots[id].None? || s.slots[id].value.ready == ready then s
      else HandleReadyChanged(s.(slots := s.slots[id := Some(s.slots[id].value.(ready := ready))]), lost)
  }

  function MatchLoaded(s: Server, p: nat, matchId: nat, lost: Losses): Server
    requires |s.links| == |s.sessions| && p < |s.sessions|
  {
    if !s.phase.StartingMatch? || !Accepted(s.sessions[p]) then s
    else
      var id := s.sessions[p].value.playerId.value;
      if id >= |s.slots| || s.slots[id].None? || matchId != s.matchId || id !in s.matchMask then s
      else MarkLoaded(s, id, lost)
  }

  /** A peer is gone: its seat, its match state and its session go; its name and wins are remembered. */
  function Disconnect(s: Server, p: nat, lost: Losses): Server
    requires |s.links| == |s.sessions| && p < |s.sessions|
  {
    var gone := s.(sessions := s.sessions[p := None]);
    if !Accepted(s.sessions[p]) then gone
    else
      var id := s.sessions[p].value.playerId.value;
      if id >= |s.slots| || id >= |s.reclaims| || id >= |s.seats| then gone
      else
        var freed := gone.(
          reclaims := if s.slots[id].Some? then s.reclaims[id := Some(Reclaim(s.slots[id].value.name, s.slots[id].value.wins))]
                      else s.reclaims,
          seats := s.seats[id := None],
          slots := s.slots[id := None],
          pool := Release(s.pool, id));
        HandleReleased(freed, id, lost)
  }

  // ----- The tick -----

  /** Deadlines and phase exits. */
  function Advance(s: Server, lost: Losses): Server
    requires |s.links| == |s.sessions|
  {
    if s.phase.LobbyCountdown? && s.countdownDeadlineTick != 0 then
      if s.serverTick >= s.countdownDeadlineTick then BeginMatchBootstrap(s, lost)
      else if CountdownSeconds(s) != s.countdownLastBroadcastSecond then
        BroadcastLobbyState(s.(countdownLastBroadcastSecond := CountdownSeconds(s)), lost)
      else s
    else if s.phase.StartingMatch? && s.matchId != 0 && s.startDeadlineTick != 0 && s.serverTick >= s.startDeadlineTick then
      CancelStarting(s, s.matchMask, lost)
    else if s.phase.InMatch? && s.unlockTick != 0 && s.serverTick >= s.unlockTick then
      s.(seats := LockedSeats(s.seats, false), unlockTick := 0)
    else if !s.phase.EndOfMatch? || s.matchId == 0 || s.returnTick == 0 || s.serverTick < s.returnTick then s
    else BroadcastLobbyState(ResetToLobby(s), lost)
  }

  function Killed(seats: seq<Option<Seat>>, killed: set<nat>): seq<Option<Seat>> {
    seq(|seats|, id requires 0 <= id < |seats| =>
      if seats[id].Some? && seats[id].value.alive && id in killed then Some(Seat(false, true)) else seats[id])
  }

  /** One server tick; `killed` are the players this tick's explosions reach. */
  function ServerTick(s: Server, killed: set<nat>, lost: Losses): Server
    requires |s.links| == |s.sessions|
  {
    var advanced := Advance(s.(serverTick := s.serverTick + 1), lost);
    if !advanced.phase.InMatch? || |advanced.links| != |advanced.sessions| then advanced
    else EndIfDecided(advanced.(seats := Killed(advanced.seats, killed)), lost)
  }

  datatype Event =
    | EvConnect(peer: nat)
    | EvHello(peer: nat, name: Name, versionMatches: bool)
    | EvLobbyReady(peer: nat, ready: bool)
    | EvMatchLoaded(peer: nat, matchId: nat)
    | EvDisconnect(peer: nat)
    | EvTick(killed: set<nat>)

  /** The transport pairs each connect with a disconnect, and packets come from connected peers. */
  predicate Enabled(s: Server, e: Event) {
    match e
    case EvConnect(p) => p < |s.sessions| && s.sessions[p].None?
    case EvHello(p, _, _) => p < |s.sessions| && s.sessions[p].Some?
    case EvLobbyReady(p, _) => p < |s.sessions| && s.sessions[p].Some?
    case EvMatchLoaded(p, _) => p < |s.sessions| && s.sessions[p].Some?
    case EvDisconnect(p) => p < |s.sessions| && s.sessions[p].Some?
    case EvTick(_) => true
  }

  function Step(s: Server, e: Event, lost: Losses): Server {
    if |s.links| != |s.sessions| || !Enabled(s, e) then s
    else
      match e
      case EvConnect(p) => Connect(s, p)
      case EvHello(p, name, versionMatches) => Hello(s, p, name, versionMatches, lost)
      case EvLobbyReady(p, ready) => LobbyReady(s, p, ready, lost)
      case EvMatchLoaded(p, matchId) => MatchLoaded(s, p, matchId, lost)
      case EvDisconnect(p) => Disconnect(s, p, lost)
      case EvTick(killed) => ServerTick(s, killed, lost)
  }

  /** The server after a whole history of events. */
  function Run(events: seq<Event>, lost: Losses): Server
    decreases |events|
  {
    if events == [] then Start() else Step(Run(events[..|events| - 1], lost), events[|events| - 1], lost)
  }
}
