/** How long the timed phases of the server flow can last. */
module FlowBounds {
  import opened Config
  import opened Wrappers
  import opened ClientFlow
  import opened Flow
  import opened FlowInv

  /** The tick at which the current phase ends at the latest; 0 when nothing is timed. */
  function Deadline(s: Server): nat {
    match s.phase
    case Lobby => 0
    case LobbyCountdown => s.countdownDeadlineTick
    case StartingMatch => s.startDeadlineTick
    case InMatch => s.unlockTick
    case EndOfMatch => s.returnTick
  }

  function Bound(phase: Phase): nat {
    match phase
    case Lobby => 0
    case LobbyCountdown => LOBBY_COUNTDOWN_TICKS
    case StartingMatch => LOAD_TIMEOUT_TICKS
    case InMatch => GO_DELAY_TICKS
    case EndOfMatch => RETURN_TICKS
  }

  /** A step that stays in a timed phase leaves its deadline alone. */
  ghost predicate TimerKept(s: Server, t: Server) {
    t.phase == s.phase && Deadline(t) != 0 ==> Deadline(t) == Deadline(s) && t.matchId == s.matchId
  }

  lemma CancelStartingLeaves(s: Server, mask: set<nat>, lost: Losses)
    requires |s.links| == |s.sessions|
    ensures CancelStarting(s, mask, lost).phase == Lobby
  {
    hide SendCancelled, PushedToAccepted;
  }

  lemma BootstrapKeepsTimer(s: Server, lost: Losses)
    requires |s.links| == |s.sessions| && s.phase.LobbyCountdown? && SessionsOk(s) && s.countdownMask != {}
    ensures BeginMatchBootstrap(s, lost).phase == Lobby || BeginMatchBootstrap(s, lost).phase == StartingMatch
  {
    hide SendToMask, ReachedIds, CancelStarting, AllReady, Participants, Known, AcceptedIds, Seated, PushedToAccepted, SessionsOk;
    var mask := Participants(s);
    var boot := Bootstrapped(s, mask);
    var told := SendToMask(boot, mask, LevelInfo(boot.matchId), MAX_PLAYERS, lost);
    var reached := ReachedIds(boot, mask, LevelInfo(boot.matchId), MAX_PLAYERS, lost);
    CancelStartingLeaves(told.(seats := Seated(told.seats, reached)), reached, lost);
  }

  lemma CommitKeepsTimer(s: Server, lost: Losses)
    requires |s.links| == |s.sessions| && s.phase.StartingMatch?
    ensures TimerKept(s, MaybeCommit(s, lost))
  {
    hide SendToMask, ReachedIds, CancelStarting, Known;
    var go := s.serverTick + GO_DELAY_TICKS;
    CancelStartingLeaves(SendToMask(s, s.matchMask, MatchStart(s.matchId, go, go), MAX_PLAYERS, lost), s.matchMask, lost);
  }

  lemma ReadyChangedKeepsTimer(s: Server, lost: Losses)
    requires |s.links| == |s.sessions|
    ensures TimerKept(s, HandleReadyChanged(s, lost))
  {
    hide AllReady, Participants, PushedToAccepted, BuildLobbyState;
  }

  lemma EndIfDecidedKeepsTimer(s: Server, lost: Losses)
    requires |s.links| == |s.sessions|
    ensures TimerKept(s, EndIfDecided(s, lost))
  {
    hide SendResult, AliveIds, LastAlive, AnySeat;
  }

  lemma AdvanceKeepsTimer(s: Server, lost: Losses)
    requires Inv(s)
    ensures |s.links| == |s.sessions|
    ensures TimerKept(s, Advance(s.(serverTick := s.serverTick + 1), lost))
    ensures Advance(s.(serverTick := s.serverTick + 1), lost).phase.InMatch? ==> s.phase.InMatch?
  {
    InvSizes(s);
    var t := s.(serverTick := s.serverTick + 1);
    CancelStartingLeaves(t, t.matchMask, lost);
    if s.phase.LobbyCountdown? {
      CountdownHasMask(s);
      BootstrapKeepsTimer(t, lost);
    }
    hide Inv, BeginMatchBootstrap, CancelStarting, PushedToAccepted, BuildLobbyState;
  }

  lemma CountdownHasMask(s: Server)
    requires Inv(s) && s.phase.LobbyCountdown?
    ensures s.countdownMask != {} && SessionsOk(s.(serverTick := s.serverTick + 1))
  {
    hide PoolOk, SlotsOk, BoundOnce;
  }

  lemma TickKeepsTimer(s: Server, killed: set<nat>, lost: Losses)
    requires Inv(s)
    ensures |s.links| == |s.sessions| && TimerKept(s, ServerTick(s, killed, lost))
  {
    hide Inv, Advance, EndIfDecided, Killed;
    InvSizes(s);
    AdvanceKeepsTimer(s, lost);
    var t := s.(serverTick := s.serverTick + 1);
    AdvanceHolds(s, lost);
    var advanced := Advance(t, lost);
    InvSizes(advanced);
    EndIfDecidedKeepsTimer(advanced.(seats := Killed(advanced.seats, killed)), lost);
  }

  lemma DisconnectKeepsTimer(s: Server, p: nat, lost: Losses)
    requires Inv(s) && p < |s.sessions|
    ensures |s.links| == |s.sessions| && TimerKept(s, Disconnect(s, p, lost))
  {
    hide Inv, ResetUnready, CancelStarting, ResetToLobby, EndIfDecided, Release;
    InvSizes(s);
    if Accepted(s.sessions[p]) {
      BoundSeatExists(s, p);
      var id := s.sessions[p].value.playerId.value;
      var freed := s.(sessions := s.sessions[p := None],
        reclaims := s.reclaims[id := Some(Reclaim(s.slots[id].value.name, s.slots[id].value.wins))],
        seats := s.seats[id := None], slots := s.slots[id := None], pool := Release(s.pool, id));
      ReleasedKeepsTimer(freed, id, lost);
    }
  }

  lemma ReleasedKeepsTimer(s: Server, id: nat, lost: Losses)
    requires |s.links| == |s.sessions|
    ensures TimerKept(s, HandleReleased(s, id, lost))
  {
    var left := s.(countdownMask := s.countdownMask - {id}, matchMask := s.matchMask - {id}, loadedMask := s.loadedMask - {id});
    ResetUnreadyLeaves(left, lost);
    CancelStartingLeaves(left, left.matchMask, lost);
    EndIfDecidedKeepsTimer(left, lost);
    assert ResetToLobby(left).phase == Lobby;
    hide ResetUnready, CancelStarting, ResetToLobby, EndIfDecided;
  }

  lemma ResetUnreadyLeaves(s: Server, lost: Losses)
    requires |s.links| == |s.sessions|
    ensures ResetUnready(s, lost).phase == Lobby
  {
    hide PushedToAccepted;
  }

  lemma HelloKeepsTimer(s: Server, p: nat, name: Name, versionMatches: bool, lost: Losses)
    requires |s.links| == |s.sessions| && p < |s.sessions|
    ensures TimerKept(s, Hello(s, p, name, versionMatches, lost))
  {
    hide Reserve, Release, Remove, ResetUnready, SendTo;
    if !Accepted(s.sessions[p]) && Reserve(s, name).Some? {
      var id, wins := Reserve(s, name).value.0, Reserve(s, name).value.1;
      var welcomed := SendTo(s.(pool := Remove(s.pool, id)), p, Welcome(id), lost);
      if id < |s.slots| && id < |s.reclaims| {
        ResetUnreadyLeaves(Accept(welcomed, p, id, name, wins), lost);
      }
    }
  }

  lemma StepKeepsTimer(s: Server, e: Event, lost: Losses)
    requires Inv(s)
    ensures TimerKept(s, Step(s, e, lost))
  {
    hide Inv, Connect, Hello, HandleReadyChanged, MaybeCommit, Disconnect, ServerTick;
    InvSizes(s);
    if Enabled(s, e) {
      match e
      case EvConnect(p) => ConnectKeepsTimer(s, p);
      case EvHello(p, name, versionMatches) => HelloKeepsTimer(s, p, name, versionMatches, lost);
      case EvLobbyReady(p, ready) => LobbyReadyKeepsTimer(s, p, ready, lost);
      case EvMatchLoaded(p, matchId) => MatchLoadedKeepsTimer(s, p, matchId, lost);
      case EvDisconnect(p) => DisconnectKeepsTimer(s, p, lost);
      case EvTick(killed) => TickKeepsTimer(s, killed, lost);
    }
  }

  lemma ConnectKeepsTimer(s: Server, p: nat)
    ensures TimerKept(s, Connect(s, p))
  {
  }

  lemma LobbyReadyKeepsTimer(s: Server, p: nat, ready: bool, lost: Losses)
    requires |s.links| == |s.sessions| && p < |s.sessions|
    ensures TimerKept(s, LobbyReady(s, p, ready, lost))
  {
    hide HandleReadyChanged;
    if Accepted(s.sessions[p]) {
      var id := s.sessions[p].value.playerId.value;
      if id < |s.slots| && s.slots[id].Some? {
        ReadyChangedKeepsTimer(s.(slots := s.slots[id := Some(s.slots[id].value.(ready := ready))]), lost);
      }
    }
  }

  lemma MatchLoadedKeepsTimer(s: Server, p: nat, matchId: nat, lost: Losses)
    requires |s.links| == |s.sessions| && p < |s.sessions|
    ensures TimerKept(s, MatchLoaded(s, p, matchId, lost))
  {
    hide MaybeCommit;
    if Accepted(s.sessions[p]) && s.phase.StartingMatch? {
      CommitKeepsTimer(s.(loadedMask := s.loadedMask + {s.sessions[p].value.playerId.value}), lost);
    }
  }

  /** At every reachable point of a timed phase its deadline is ahead, by at most the phase's length. */
  lemma DeadlineIsAhead(s: Server)
    requires Inv(s) && Deadline(s) != 0
    ensures s.serverTick < Deadline(s) <= s.serverTick + Bound(s.phase)
  {
    hide SessionsOk, NoRound, ReadyTogether, InRound, AcceptedIds, AliveIds, SeatsLocked, SeatsAlive;
  }

  /** From event i on, the server stays in one timed phase. */
  ghost predicate Stays(events: seq<Event>, lost: Losses, i: nat, phase: Phase)
    requires i <= |events|
  {
    forall k | i <= k <= |events| :: Run(events[..k], lost).phase == phase && Deadline(Run(events[..k], lost)) != 0
  }

  lemma {:induction false} DeadlineStands(events: seq<Event>, lost: Losses, i: nat, phase: Phase)
    requires i <= |events| && Stays(events, lost, i, phase)
    ensures Deadline(Run(events, lost)) == Deadline(Run(events[..i], lost))
    decreases |events|
  {
    hide Step, Deadline;
    assert events[..|events|] == events;
    if i < |events| {
      var n := |events| - 1;
      forall k | i <= k <= n ensures events[..n][..k] == events[..k] {
      }
      DeadlineStands(events[..n], lost, i, phase);
      EveryRunHolds(events[..n], lost);
      hide Inv;
      StepKeepsTimer(Run(events[..n], lost), events[n], lost);
      assert events[..n][..i] == events[..i];
    }
  }

  /**
   * No run stays in the countdown, the match start or the end of a match, or keeps inputs locked at the start of
   * a match, for as many ticks as the phase is long.
   */
  lemma PhasesAreBounded(events: seq<Event>, lost: Losses, i: nat, phase: Phase)
    requires i <= |events| && Stays(events, lost, i, phase)
    ensures Run(events, lost).serverTick < Run(events[..i], lost).serverTick + Bound(phase)
  {
    hide Run, Inv, Deadline, Bound;
    assert events[..|events|] == events;
    DeadlineStands(events, lost, i, phase);
    EveryRunHolds(events, lost);
    EveryRunHolds(events[..i], lost);
    DeadlineIsAhead(Run(events, lost));
    DeadlineIsAhead(Run(events[..i], lost));
  }
}
