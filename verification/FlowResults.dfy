/** Round results, credited wins, match ids and the length of phases, over whole runs of the server flow. */
module FlowResults {
  import opened Config
  import opened Wrappers
  import opened ClientFlow
  import opened Flow
  import opened FlowInv

  // ----- Wins -----

  function WinsOf(slot: Option<PlayerSlot>, reclaim: Option<Reclaim>): nat {
    (if slot.Some? then slot.value.wins else 0) + if reclaim.Some? then reclaim.value.wins else 0
  }

  /** The wins of each id: its seat's, or those its reclaim record remembers. */
  function Held(s: Server): seq<nat>
    requires |s.slots| == MAX_PLAYERS && |s.reclaims| == MAX_PLAYERS
  {
    [WinsOf(s.slots[0], s.reclaims[0]), WinsOf(s.slots[1], s.reclaims[1]),
     WinsOf(s.slots[2], s.reclaims[2]), WinsOf(s.slots[3], s.reclaims[3])]
  }

  /** All wins together. */
  function TotalWins(held: seq<nat>): nat
    requires |held| == MAX_PLAYERS
  {
    held[0] + held[1] + held[2] + held[3]
  }

  /** Every id keeps its wins, except that a newcomer to a free seat may drop the wins remembered for it. */
  ghost predicate WinsKept(s: Server, t: Server)
    requires |s.slots| == MAX_PLAYERS && |s.reclaims| == MAX_PLAYERS && |t.slots| == MAX_PLAYERS && |t.reclaims| == MAX_PLAYERS
  {
    forall id | 0 <= id < MAX_PLAYERS ::
      Held(t)[id] == Held(s)[id] || (s.slots[id].None? && t.slots[id].Some? && Held(t)[id] == 0)
  }

  /** The winner's own seat gains one win, and every other id keeps what it had. */
  ghost predicate WinCredited(s: Server, t: Server, winner: Option<nat>)
    requires |s.slots| == MAX_PLAYERS && |s.reclaims| == MAX_PLAYERS && |t.slots| == MAX_PLAYERS && |t.reclaims| == MAX_PLAYERS
  {
    forall id | 0 <= id < MAX_PLAYERS :: Held(t)[id] == Held(s)[id] + if winner == Some(id) then 1 else 0
  }

  lemma WinsAddUp(s: Server, t: Server, winner: Option<nat>)
    requires |s.slots| == MAX_PLAYERS && |s.reclaims| == MAX_PLAYERS && |t.slots| == MAX_PLAYERS && |t.reclaims| == MAX_PLAYERS
    ensures WinsKept(s, t) ==> TotalWins(Held(t)) <= TotalWins(Held(s))
    ensures WinCredited(s, t, winner) ==> TotalWins(Held(t)) <= TotalWins(Held(s)) + if winner.Some? then 1 else 0
  {
    hide WinsOf;
    assert WinsKept(s, t) ==> Held(t)[0] <= Held(s)[0] && Held(t)[1] <= Held(s)[1] && Held(t)[2] <= Held(s)[2] && Held(t)[3] <= Held(s)[3];
  }

  function WinResults(results: seq<RoundResult>): nat {
    if results == [] then 0
    else WinResults(results[..|results| - 1]) + if results[|results| - 1].winner.Some? then 1 else 0
  }

  /** A win for the sole survivor, or a draw when nobody survived. */
  ghost predicate Fair(r: RoundResult) {
    match r.winner
    case Some(id) => r.survivors == {id} && id < MAX_PLAYERS
    case None => r.survivors == {}
  }

  /** Each match has at most one result, in match order, and the current one is the last. */
  ghost predicate ResultsOk(s: Server) {
    && (forall i | 0 <= i < |s.results| :: Fair(s.results[i]) && 1 <= s.results[i].matchId < s.nextMatchId)
    && (forall i, j | 0 <= i < j < |s.results| :: s.results[i].matchId < s.results[j].matchId)
    && (s.phase.StartingMatch? || s.phase.InMatch? ==> forall i | 0 <= i < |s.results| :: s.results[i].matchId < s.matchId)
    && (s.phase.EndOfMatch? ==>
          s.results != [] && s.results[|s.results| - 1].matchId == s.matchId && s.results[|s.results| - 1].winner == s.winner)
  }

  ghost predicate WinsOk(s: Server) {
    |s.slots| == MAX_PLAYERS && |s.reclaims| == MAX_PLAYERS && TotalWins(Held(s)) <= WinResults(s.results)
  }

  // ----- How one step moves on -----

  /** No round ended: no result, no new win; a match may have been set up, or a round left. */
  ghost predicate Quiet(s: Server, t: Server) {
    && t.results == s.results
    && |s.slots| == MAX_PLAYERS && |s.reclaims| == MAX_PLAYERS && |t.slots| == MAX_PLAYERS && |t.reclaims| == MAX_PLAYERS
    && Held(t) == Held(s)
    && match t.phase
       case Lobby => t.nextMatchId >= s.nextMatchId
       case LobbyCountdown => t.nextMatchId >= s.nextMatchId
       case StartingMatch =>
         || (s.phase.StartingMatch? && t.matchId == s.matchId && t.nextMatchId == s.nextMatchId)
         || (t.matchId == s.nextMatchId && t.nextMatchId == s.nextMatchId + 1)
       case InMatch => (s.phase.StartingMatch? || s.phase.InMatch?) && t.matchId == s.matchId && t.nextMatchId == s.nextMatchId
       case EndOfMatch => s.phase.EndOfMatch? && t.matchId == s.matchId && t.nextMatchId == s.nextMatchId && t.winner == s.winner
  }

  /** The round in progress ended with one fair result and at most one credited win. */
  ghost predicate Ended(s: Server, t: Server) {
    && s.phase.InMatch? && t.phase.EndOfMatch? && t.matchId == s.matchId && t.nextMatchId == s.nextMatchId
    && |s.slots| == MAX_PLAYERS && |s.reclaims| == MAX_PLAYERS && |t.slots| == MAX_PLAYERS && |t.reclaims| == MAX_PLAYERS
    && |t.results| == |s.results| + 1 && t.results[..|s.results|] == s.results
    && var r := t.results[|s.results|];
       r.matchId == s.matchId && Fair(r) && t.winner == r.winner
       && WinCredited(s, t, r.winner)
  }

  /** A newcomer took a free seat: the lobby starts over, and only the wins remembered for that seat may be lost. */
  ghost predicate Admitted(s: Server, t: Server) {
    && t.phase.Lobby? && t.results == s.results && t.nextMatchId == s.nextMatchId
    && |s.slots| == MAX_PLAYERS && |s.reclaims| == MAX_PLAYERS && |t.slots| == MAX_PLAYERS && |t.reclaims| == MAX_PLAYERS
    && WinsKept(s, t)
  }

  lemma QuietKeeps(s: Server, t: Server)
    requires ResultsOk(s) && WinsOk(s) && (Quiet(s, t) || Admitted(s, t)) && s.nextMatchId >= 1
    ensures ResultsOk(t) && WinsOk(t)
  {
    WinsAddUp(s, t, None);
    hide Held, Fair;
  }

  lemma EndedKeeps(s: Server, t: Server)
    requires ResultsOk(s) && WinsOk(s) && Ended(s, t) && 1 <= s.matchId < s.nextMatchId
    ensures ResultsOk(t) && WinsOk(t)
  {
    WinsAddUp(s, t, t.results[|s.results|].winner);
    hide Held, Fair, WinCredited;
    assert t.results[..|t.results| - 1] == s.results;
    forall i | 0 <= i < |s.results| ensures t.results[i] == s.results[i] {
      assert t.results[i] == t.results[..|s.results|][i];
    }
  }

  // ----- Which steps are quiet -----

  ghost predicate Quietly(s: Server, t: Server) {
    && t.results == s.results && t.nextMatchId == s.nextMatchId
    && |s.slots| == MAX_PLAYERS && |s.reclaims| == MAX_PLAYERS && |t.slots| == MAX_PLAYERS && |t.reclaims| == MAX_PLAYERS
    && Held(t) == Held(s)
  }

  lemma ResetIsQuiet(s: Server)
    requires |s.slots| == MAX_PLAYERS && |s.reclaims| == MAX_PLAYERS
    ensures Quietly(s, ResetToLobby(s)) && ResetToLobby(s).phase == Lobby
  {
  }

  lemma ResetUnreadyIsQuiet(s: Server, lost: Losses)
    requires |s.slots| == MAX_PLAYERS && |s.reclaims| == MAX_PLAYERS && |s.links| == |s.sessions|
    ensures Quietly(s, ResetUnready(s, lost)) && ResetUnready(s, lost).phase == Lobby
  {
  }

  lemma CancelStartingIsQuiet(s: Server, mask: set<nat>, lost: Losses)
    requires |s.slots| == MAX_PLAYERS && |s.reclaims| == MAX_PLAYERS && |s.links| == |s.sessions|
    ensures Quietly(s, CancelStarting(s, mask, lost)) && CancelStarting(s, mask, lost).phase == Lobby
  {
    hide SendCancelled, ResetToLobby, Held;
    var told := SendCancelled(s, mask, lost);
    ResetIsQuiet(told);
    WinsIgnoreLinks(s, told.links);
    WinsIgnoreLinks(ResetToLobby(told), CancelStarting(s, mask, lost).links);
    ResetKeepsSessions(told);
  }

  lemma ResetKeepsSessions(s: Server)
    ensures ResetToLobby(s).sessions == s.sessions && ResetToLobby(s).links == s.links
  {
  }

  lemma WinsIgnoreLinks(s: Server, links: seq<Link>)
    requires |s.slots| == MAX_PLAYERS && |s.reclaims| == MAX_PLAYERS
    ensures Held(s.(links := links)) == Held(s)
  {
  }

  lemma BootstrapIsQuiet(s: Server, lost: Losses)
    requires |s.slots| == MAX_PLAYERS && |s.reclaims| == MAX_PLAYERS && |s.links| == |s.sessions|
    requires s.phase.LobbyCountdown?
    ensures Quiet(s, BeginMatchBootstrap(s, lost))
  {
    hide SendToMask, ReachedIds, CancelStarting, AllReady, Participants, Known, AcceptedIds, Seated, Held, PushedToAccepted;
    var mask := Participants(s);
    WinsIfSame(s, CancelCountdown(s, lost));
    BootstrappedWins(s, mask);
    WinsIfSame(Bootstrapped(s, mask), BeginMatchBootstrap(s, lost));
    var boot := Bootstrapped(s, mask);
    var told := SendToMask(boot, mask, LevelInfo(boot.matchId), MAX_PLAYERS, lost);
    var reached := ReachedIds(boot, mask, LevelInfo(boot.matchId), MAX_PLAYERS, lost);
    var seated := told.(seats := Seated(told.seats, reached));
    WinsIfSame(boot, seated);
    CancelStartingIsQuiet(seated, reached, lost);
  }

  lemma BootstrappedWins(s: Server, mask: set<nat>)
    requires |s.slots| == MAX_PLAYERS && |s.reclaims| == MAX_PLAYERS
    ensures var b := Bootstrapped(s, mask);
      |b.slots| == MAX_PLAYERS && |b.reclaims| == MAX_PLAYERS && Held(b) == Held(s)
  {
  }

  lemma CommitIsQuiet(s: Server, lost: Losses)
    requires |s.slots| == MAX_PLAYERS && |s.reclaims| == MAX_PLAYERS && |s.links| == |s.sessions|
    requires s.phase.StartingMatch?
    ensures Quiet(s, MaybeCommit(s, lost))
  {
    hide SendToMask, ReachedIds, CancelStarting, Known;
    var go := s.serverTick + GO_DELAY_TICKS;
    var told := SendToMask(s, s.matchMask, MatchStart(s.matchId, go, go), MAX_PLAYERS, lost);
    CancelStartingIsQuiet(told, s.matchMask, lost);
  }

  lemma ReadyChangedIsQuiet(s: Server, lost: Losses)
    requires |s.slots| == MAX_PLAYERS && |s.reclaims| == MAX_PLAYERS && |s.links| == |s.sessions|
    requires s.phase.Lobby? || s.phase.LobbyCountdown?
    ensures Quiet(s, HandleReadyChanged(s, lost))
  {
    hide AllReady, Participants, PushedToAccepted, BuildLobbyState;
  }

  lemma AdvanceIsQuiet(s: Server, lost: Losses)
    requires |s.slots| == MAX_PLAYERS && |s.reclaims| == MAX_PLAYERS && |s.links| == |s.sessions|
    ensures Quiet(s, Advance(s, lost))
    ensures Advance(s, lost).phase.InMatch? ==> s.phase.InMatch?
  {
    hide BeginMatchBootstrap, CancelStarting, ResetToLobby, PushedToAccepted, BuildLobbyState, Held;
    WinsIfSame(s, Advance(s, lost));
    ResetIsQuiet(s);
    ResetKeepsSessions(s);
    WinsIgnoreLinks(ResetToLobby(s), BroadcastLobbyState(ResetToLobby(s), lost).links);
    if s.phase.LobbyCountdown? && s.countdownDeadlineTick != 0 && s.serverTick >= s.countdownDeadlineTick {
      BootstrapIsQuiet(s, lost);
      BootstrapStaysOutOfMatch(s, lost);
    }
    CancelStartingIsQuiet(s, s.matchMask, lost);
  }

  lemma BootstrapStaysOutOfMatch(s: Server, lost: Losses)
    requires |s.links| == |s.sessions| && s.phase.LobbyCountdown?
    ensures !BeginMatchBootstrap(s, lost).phase.InMatch?
  {
    hide SendToMask, ReachedIds, AllReady, Participants, Known, AcceptedIds, Seated, SendCancelled;
  }

  // ----- The end of a round -----

  lemma EndIfDecidedEnds(s: Server, lost: Losses)
    requires |s.slots| == MAX_PLAYERS && |s.reclaims| == MAX_PLAYERS && |s.seats| == MAX_PLAYERS && |s.links| == |s.sessions|
    requires s.phase.InMatch? && forall id: nat | id < MAX_PLAYERS && s.seats[id].Some? :: s.slots[id].Some?
    ensures EndIfDecided(s, lost) == s || Ended(s, EndIfDecided(s, lost))
  {
    AliveIdsAreSeated(s.seats);
    hide SendResult, AliveIds, LastAlive;
    LastAliveIsAlive(s.seats);
    AliveIdsExist(s.seats);
    var alive := AliveIds(s.seats);
    if |alive| == 1 {
      Singleton(alive, LastAlive(s.seats).value);
    }
    assert |alive| == 0 <==> alive == {};
  }

  lemma AliveIdsAreSeated(seats: seq<Option<Seat>>)
    ensures forall id | id in AliveIds(seats) :: id < |seats| && seats[id].Some?
  {
  }

  lemma AliveIdsExist(seats: seq<Option<Seat>>)
    ensures forall id | id in AliveIds(seats) :: id < |seats|
  {
  }

  lemma Singleton(a: set<nat>, x: nat)
    requires |a| == 1 && x in a
    ensures a == {x}
  {
    assert |a - {x}| == 0;
    assert a == (a - {x}) + {x};
  }

  // ----- Events -----

  lemma ConnectIsQuiet(s: Server, p: nat)
    requires |s.slots| == MAX_PLAYERS && |s.reclaims| == MAX_PLAYERS
    ensures Quiet(s, Connect(s, p))
  {
  }

  lemma AdmissionIsQuiet(s: Server, p: nat, id: nat, name: Name, wins: nat, lost: Losses)
    requires |s.slots| == MAX_PLAYERS && |s.reclaims| == MAX_PLAYERS && |s.links| == |s.sessions| && p < |s.sessions|
    requires id < MAX_PLAYERS && s.slots[id].None? && (wins == 0 || wins == WinsOf(None, s.reclaims[id]))
    requires s.phase.Lobby? || s.phase.LobbyCountdown?
    ensures Admitted(s, HandleJoined(Accept(s, p, id, name, wins), lost))
  {
    hide PushedToAccepted, BuildLobbyState;
  }

  /** Carried wins are the reclaimed record's own. */
  lemma ReservedWins(s: Server, name: Name)
    requires SessionsOk(s) && Reserve(s, name).Some?
    ensures var (id, wins) := Reserve(s, name).value; id < MAX_PLAYERS && s.slots[id].None? && (wins == 0 || wins == WinsOf(None, s.reclaims[id]))
  {
    ReservedIsFree(s, name);
    hide BoundOnce, AcceptedIds, PoolOk;
  }

  lemma HelloIsQuiet(s: Server, p: nat, name: Name, versionMatches: bool, lost: Losses)
    requires Inv(s) && p < |s.sessions| && |s.links| == |s.sessions|
    ensures Quiet(s, Hello(s, p, name, versionMatches, lost)) || Admitted(s, Hello(s, p, name, versionMatches, lost))
  {
    InvSizes(s);
    if s.phase.StartingMatch? || s.phase.InMatch? || s.phase.EndOfMatch? || Accepted(s.sessions[p]) || !versionMatches
       || Reserve(s, name).None? {
      hide Reserve, SendTo, Inv;
    } else {
      ReservedWins(s, name);
      hide Inv, Reserve, HandleJoined, Accept, Remove, Release, Admitted;
      var id, wins := Reserve(s, name).value.0, Reserve(s, name).value.1;
      var welcomed := SendTo(s.(pool := Remove(s.pool, id)), p, Welcome(id), lost);
      if !lost(p, s.links[p].attempts) {
        AdmissionIsQuiet(welcomed, p, id, name, wins, lost);
        AdmittedAfterWelcome(s, welcomed, HandleJoined(Accept(welcomed, p, id, name, wins), lost));
      }
    }
  }

  lemma AdmittedAfterWelcome(s: Server, welcomed: Server, t: Server)
    requires Admitted(welcomed, t) && welcomed == s.(pool := welcomed.pool, links := welcomed.links)
    ensures Admitted(s, t)
  {
  }

  lemma FlippingReadyKeepsWins(s: Server, id: nat, ready: bool)
    requires |s.slots| == MAX_PLAYERS && |s.reclaims| == MAX_PLAYERS && id < MAX_PLAYERS && s.slots[id].Some?
    ensures Held(s.(slots := s.slots[id := Some(s.slots[id].value.(ready := ready))])) == Held(s)
  {
  }

  lemma LobbyReadyIsQuiet(s: Server, p: nat, ready: bool, lost: Losses)
    requires Inv(s) && p < |s.sessions| && |s.links| == |s.sessions|
    ensures Quiet(s, LobbyReady(s, p, ready, lost))
  {
    hide Inv, HandleReadyChanged, Held;
    InvSizes(s);
    if (s.phase.Lobby? || s.phase.LobbyCountdown?) && Accepted(s.sessions[p]) {
      var id := s.sessions[p].value.playerId.value;
      if id < |s.slots| && s.slots[id].Some? {
        FlippingReadyKeepsWins(s, id, ready);
        ReadyChangedIsQuiet(s.(slots := s.slots[id := Some(s.slots[id].value.(ready := ready))]), lost);
      }
    }
  }

  lemma MatchLoadedIsQuiet(s: Server, p: nat, matchId: nat, lost: Losses)
    requires Inv(s) && p < |s.sessions| && |s.links| == |s.sessions|
    ensures Quiet(s, MatchLoaded(s, p, matchId, lost))
  {
    hide Inv, MaybeCommit, Held;
    InvSizes(s);
    if s.phase.StartingMatch? && Accepted(s.sessions[p]) {
      var id := s.sessions[p].value.playerId.value;
      WinsIfSame(s, s.(loadedMask := s.loadedMask + {id}));
      CommitIsQuiet(s.(loadedMask := s.loadedMask + {id}), lost);
    }
  }

  /** A disconnect moves the wins of the seat to its reclaim record. */
  lemma DisconnectConserves(s: Server, p: nat)
    requires Inv(s) && p < |s.sessions| && Accepted(s.sessions[p])
    ensures var id := s.sessions[p].value.playerId.value;
      && id < MAX_PLAYERS && |s.slots| == MAX_PLAYERS && |s.reclaims| == MAX_PLAYERS && s.slots[id].Some?
      && Held(s.(slots := s.slots[id := None],
                      reclaims := s.reclaims[id := Some(Reclaim(s.slots[id].value.name, s.slots[id].value.wins))])) == Held(s)
  {
    BoundIdExists(s, p);
    hide PhaseOk, BoundOnce, PoolOk, AcceptedIds;
    assert s.reclaims[s.sessions[p].value.playerId.value].None?;
  }

  lemma HandleReleasedMoves(s: Server, id: nat, lost: Losses)
    requires |s.slots| == MAX_PLAYERS && |s.reclaims| == MAX_PLAYERS && |s.seats| == MAX_PLAYERS && |s.links| == |s.sessions|
    requires forall x: nat | x < MAX_PLAYERS && s.seats[x].Some? :: s.slots[x].Some?
    ensures Quiet(s, HandleReleased(s, id, lost)) || Ended(s, HandleReleased(s, id, lost))
  {
    hide CancelStarting, ResetUnready, ResetToLobby, EndIfDecided;
    var left := s.(countdownMask := s.countdownMask - {id}, matchMask := s.matchMask - {id}, loadedMask := s.loadedMask - {id});
    ResetUnreadyIsQuiet(left, lost);
    CancelStartingIsQuiet(left, left.matchMask, lost);
    ResetIsQuiet(left);
    if left.phase.InMatch? {
      EndIfDecidedEnds(left, lost);
    } else {
      NothingToEnd(left, lost);
    }
  }

  lemma DisconnectMoves(s: Server, p: nat, lost: Losses)
    requires Inv(s) && p < |s.sessions| && |s.links| == |s.sessions|
    ensures Quiet(s, Disconnect(s, p, lost)) || Ended(s, Disconnect(s, p, lost))
  {
    hide SessionsOk, PhaseOk, HandleReleased, Release, Held, Fair;
    InvSizes(s);
    SeatsHaveSlots(s);
    WinsIfSame(s, s.(sessions := s.sessions[p := None]));
    if Accepted(s.sessions[p]) {
      BoundIdExists(s, p);
      DisconnectConserves(s, p);
      var id := s.sessions[p].value.playerId.value;
      var freed := s.(sessions := s.sessions[p := None],
        reclaims := s.reclaims[id := Some(Reclaim(s.slots[id].value.name, s.slots[id].value.wins))],
        seats := s.seats[id := None], slots := s.slots[id := None], pool := Release(s.pool, id));
      HandleReleasedMoves(freed, id, lost);
      WinsDependOn(freed, s.(slots := freed.slots, reclaims := freed.reclaims));
    }
  }

  lemma WinsIfSame(s: Server, t: Server)
    requires |s.slots| == MAX_PLAYERS && |s.reclaims| == MAX_PLAYERS
    ensures t.slots == s.slots && t.reclaims == s.reclaims ==> Held(s) == Held(t)
  {
  }

  lemma WinsDependOn(s: Server, t: Server)
    requires |s.slots| == MAX_PLAYERS && |s.reclaims| == MAX_PLAYERS && t.slots == s.slots && t.reclaims == s.reclaims
    ensures Held(s) == Held(t)
  {
  }

  lemma SeatsHaveSlots(s: Server)
    requires Inv(s)
    ensures |s.seats| == MAX_PLAYERS && |s.slots| == MAX_PLAYERS
    ensures forall id: nat | id < MAX_PLAYERS && s.seats[id].Some? :: s.slots[id].Some?
  {
    hide PoolOk, BoundOnce, AcceptedIds;
  }

  lemma TickMoves(s: Server, killed: set<nat>, lost: Losses)
    requires Inv(s) && |s.links| == |s.sessions|
    ensures Quiet(s, ServerTick(s, killed, lost)) || Ended(s, ServerTick(s, killed, lost))
  {
    hide Inv, Advance, EndIfDecided, Quiet, Ended;
    InvSizes(s);
    AdvanceHolds(s, lost);
    var t := s.(serverTick := s.serverTick + 1);
    AdvanceIsQuiet(t, lost);
    var advanced := Advance(t, lost);
    InvSizes(advanced);
    LaterIsAsQuiet(s, t, advanced);
    if advanced.phase.InMatch? {
      var hit := advanced.(seats := Killed(advanced.seats, killed));
      SeatsHaveSlots(advanced);
      EndIfDecidedEnds(hit, lost);
      QuietThenEnded(s, advanced, hit, EndIfDecided(hit, lost));
    }
  }

  lemma LaterIsAsQuiet(s: Server, t: Server, u: Server)
    requires t == s.(serverTick := t.serverTick) && Quiet(t, u)
    ensures Quiet(s, u) && (u.phase.InMatch? ==> s.phase.InMatch? || s.phase.StartingMatch?)
  {
  }

  lemma QuietThenEnded(s: Server, advanced: Server, hit: Server, u: Server)
    requires Quiet(s, advanced) && advanced.phase.InMatch? && s.phase.InMatch?
    requires hit == advanced.(seats := hit.seats) && (u == hit || Ended(hit, u))
    ensures Quiet(s, u) || Ended(s, u)
  {
    hide Fair;
    WinsDependOn(hit, advanced);
    hide Held;
  }

  // ----- Every run -----

  lemma StepMoves(s: Server, e: Event, lost: Losses)
    requires Inv(s) && |s.links| == |s.sessions| && Enabled(s, e)
    ensures Quiet(s, Step(s, e, lost)) || (e.EvHello? && Admitted(s, Step(s, e, lost))) || Ended(s, Step(s, e, lost))
  {
    InvSizes(s);
    hide Inv, Quiet, Ended, Admitted, Connect, Hello, LobbyReady, MatchLoaded, Disconnect, ServerTick;
    match e
    case EvConnect(p) => ConnectIsQuiet(s, p);
    case EvHello(p, name, versionMatches) => HelloIsQuiet(s, p, name, versionMatches, lost);
    case EvLobbyReady(p, ready) => LobbyReadyIsQuiet(s, p, ready, lost);
    case EvMatchLoaded(p, matchId) => MatchLoadedIsQuiet(s, p, matchId, lost);
    case EvDisconnect(p) => DisconnectMoves(s, p, lost);
    case EvTick(killed) => TickMoves(s, killed, lost);
  }

  lemma StepKeepsResults(s: Server, e: Event, lost: Losses)
    requires Inv(s) && ResultsOk(s) && WinsOk(s)
    ensures ResultsOk(Step(s, e, lost)) && WinsOk(Step(s, e, lost))
  {
    InvSizes(s);
    InMatchHasId(s);
    if Enabled(s, e) {
      StepMoves(s, e, lost);
      hide Inv, ResultsOk, WinsOk, Step, Quiet, Admitted, Enabled;
      var t := Step(s, e, lost);
      if Quiet(s, t) || Admitted(s, t) {
        QuietKeeps(s, t);
      } else {
        EndedKeeps(s, t);
      }
    }
  }

  lemma InMatchHasId(s: Server)
    requires Inv(s)
    ensures s.phase.InMatch? ==> 1 <= s.matchId < s.nextMatchId
    ensures s.nextMatchId >= 1
  {
  }

  /** Over every run: results are fair, one a match at most, in match order, and no win exists without its result. */
  lemma {:induction false} EveryResultIsFair(events: seq<Event>, lost: Losses)
    ensures ResultsOk(Run(events, lost)) && WinsOk(Run(events, lost))
    decreases |events|
  {
    hide Inv, Step, ResultsOk, WinsOk;
    if events == [] {
      NothingWonAtStart();
    } else {
      var n := |events| - 1;
      EveryResultIsFair(events[..n], lost);
      EveryRunHolds(events[..n], lost);
      StepKeepsResults(Run(events[..n], lost), events[n], lost);
    }
  }

  lemma NothingWonAtStart()
    ensures ResultsOk(Start()) && WinsOk(Start())
  {
  }

  /**
   * Who is credited. In every reachable state and on every event: either a round ends, one result is appended,
   * its winner's own seat gains exactly one win and every other id keeps what it had; or no result is appended
   * and every id keeps its wins, but for a newcomer's free seat, which may start from zero.
   */
  lemma EveryWinIsEarned(events: seq<Event>, e: Event, lost: Losses)
    ensures var s, t := Run(events, lost), Run(events + [e], lost);
      && |s.slots| == MAX_PLAYERS && |s.reclaims| == MAX_PLAYERS && |t.slots| == MAX_PLAYERS && |t.reclaims| == MAX_PLAYERS
      && if t.results == s.results then WinsKept(s, t) && (!e.EvHello? ==> Held(t) == Held(s))
         else
           && |t.results| == |s.results| + 1 && t.results[..|s.results|] == s.results
           && WinCredited(s, t, t.results[|s.results|].winner) && Fair(t.results[|s.results|])
  {
    assert (events + [e])[..|events|] == events;
    var s := Run(events, lost);
    assert Run(events + [e], lost) == Step(s, e, lost);
    EveryRunHolds(events, lost);
    InvSizes(s);
    hide Run, Inv, Held, Fair;
    if Enabled(s, e) {
      StepMoves(s, e, lost);
      hide Step;
    }
  }
}
