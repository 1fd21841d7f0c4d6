/** What clients show of the lobby and of a result, over every run in which the sends to them get through. */
module ClientViews {
  import opened Config
  import opened Wrappers
  import opened ClientFlow
  import opened Flow
  import opened FlowInv
  import FlowLinks
  import FlowProgress

  predicate InLobby(s: Server) {
    s.phase == Lobby || s.phase == LobbyCountdown
  }

  /** While the server is in the lobby, the client of peer p shows the server's lobby and is in no match. */
  ghost predicate Shows(s: Server, p: nat) {
    InLobby(s) && p < |s.sessions| && p < |s.links| && Accepted(s.sessions[p]) && View(s.links[p].sent).status.Connected? ==>
      var c := View(s.links[p].sent); c.lobbyState == Some(BuildLobbyState(s)) && c.levelInfo.None?
  }

  // ----- Steps that broadcast -----

  lemma LobbyDecodes(s: Server)
    requires Inv(s)
    ensures Decodes(BuildLobbyState(s))
  {
    InvSizes(s);
    hide PoolOk, SlotsOk, BoundOnce, AcceptedIds;
  }

  /** Whoever just got the lobby state shows it. */
  lemma BroadcastShows(u: Server, p: nat, lost: Losses)
    requires |u.links| == |u.sessions| && Inv(BroadcastLobbyState(u, lost)) && forall a :: !lost(p, a)
    ensures Shows(BroadcastLobbyState(u, lost), p)
  {
    var t := BroadcastLobbyState(u, lost);
    LobbyDecodes(t);
    SameButLinks(u, t);
    hide Inv, BuildLobbyState, Decodes;
    if p < |u.sessions| && Accepted(u.sessions[p]) {
      var msg := BuildLobbyState(u);
      assert t.links[p].sent == u.links[p].sent + [msg];
      ViewOfOneMore(u.links[p].sent, msg);
      if View(t.links[p].sent).status.Connected? {
        LobbyStateIsTaken(View(u.links[p].sent), msg);
      }
    }
  }

  lemma SameButLinks(u: Server, t: Server)
    requires t == u.(links := t.links)
    ensures BuildLobbyState(t) == BuildLobbyState(u)
  {
    assert LobbySeats(t) == LobbySeats(u);
  }

  /** A lobby state takes the client out of its match and is what it shows. */
  lemma LobbyStateIsTaken(c: Client, msg: Control)
    requires msg.LobbyState? && Decodes(msg) && Receive(c, msg).status.Connected?
    ensures Receive(c, msg).lobbyState == Some(msg) && Receive(c, msg).levelInfo.None?
    ensures Receive(c, msg).matchStart.None? || c.levelInfo.None?
  {
  }

  // ----- Steps that leave the lobby alone -----

  lemma SameLobby(s: Server, t: Server)
    requires t.phase == s.phase && t.slots == s.slots && CountdownSeconds(t) == CountdownSeconds(s)
    requires FlowProgress.Members(t) == FlowProgress.Members(s) && |s.slots| == 4
    ensures BuildLobbyState(t) == BuildLobbyState(s)
  {
    FlowProgress.SessionsOfMembers(s);
    FlowProgress.SessionsOfMembers(t);
    hide FlowProgress.Members, CountdownSeconds;
    forall id | 0 <= id < 4 ensures LobbySeatOf(t, id) == LobbySeatOf(s, id) {
    }
    assert LobbySeats(t) == LobbySeats(s);
  }

  lemma StillShows(s: Server, t: Server, p: nat)
    requires Shows(s, p) && BuildLobbyState(t) == BuildLobbyState(s) && t.phase == s.phase
    requires |t.sessions| == |s.sessions| && |t.links| == |s.links|
    requires p < |t.sessions| && p < |t.links| && Accepted(t.sessions[p]) ==>
      Accepted(s.sessions[p]) && t.links[p].sent == s.links[p].sent
    ensures Shows(t, p)
  {
  }

  lemma SeatsUnchanged(s: Server, t: Server, q: nat)
    requires q < |s.sessions| && !Accepted(s.sessions[q]) && |t.sessions| == |s.sessions| && !Accepted(t.sessions[q])
    requires forall p | 0 <= p < |s.sessions| && p != q :: t.sessions[p] == s.sessions[p]
    ensures FlowProgress.Members(t) == FlowProgress.Members(s)
  {
    forall p, id ensures FlowProgress.HasId(t, p, id) <==> FlowProgress.HasId(s, p, id) {
    }
  }

  lemma ConnectShows(s: Server, q: nat, p: nat)
    requires Inv(s) && q < |s.sessions| && s.sessions[q].None? && Shows(s, p)
    ensures Shows(Connect(s, q), p)
  {
    InvSizes(s);
    hide Inv;
    var t := Connect(s, q);
    SeatsUnchanged(s, t, q);
    SameLobby(s, t);
    hide BuildLobbyState;
    StillShows(s, t, p);
  }

  lemma SentShows(s: Server, t: Server, q: nat, p: nat)
    requires Shows(s, p) && t == s.(links := t.links) && |t.links| == |s.links| == |s.sessions| && q < |s.links|
    requires forall r | 0 <= r < |s.links| && r != q :: t.links[r] == s.links[r]
    requires !Accepted(s.sessions[q])
    ensures Shows(t, p)
  {
    SameButLinks(s, t);
    hide BuildLobbyState;
    StillShows(s, t, p);
  }

  lemma WelcomeShows(s: Server, q: nat, p: nat, id: nat, lost: Losses)
    requires Shows(s, p) && |s.links| == |s.sessions| && q < |s.links|
    requires !View(s.links[q].sent).status.Handshaking?
    ensures Shows(SendTo(s, q, Welcome(id), lost), p)
  {
    var t := SendTo(s, q, Welcome(id), lost);
    SameButLinks(s, t);
    ViewOfOneMore(s.links[q].sent, Welcome(id));
    hide BuildLobbyState, View;
  }

  lemma AcceptedPastHandshake(s: Server, q: nat)
    requires FlowLinks.Synced(s) && q < |s.sessions| && Accepted(s.sessions[q])
    ensures |s.links| == |s.sessions| && !View(s.links[q].sent).status.Handshaking?
  {
    hide FlowLinks.AllInStep, FlowLinks.ViewOk;
    assert FlowLinks.LinkOk(s.sessions[q], s.links[q].sent, s.nextMatchId);
  }

  // ----- Every event -----

  lemma HelloShows(s: Server, q: nat, name: Name, versionMatches: bool, p: nat, lost: Losses)
    requires Inv(s) && FlowLinks.Synced(s) && Shows(s, p) && q < |s.sessions| && s.sessions[q].Some? && forall a :: !lost(p, a)
    ensures |s.links| == |s.sessions| && Shows(Hello(s, q, name, versionMatches, lost), p)
  {
    InvSizes(s);
    HelloHolds(s, q, name, versionMatches, lost);
    hide Inv, Reserve, Remove, Release, Accept, BroadcastLobbyState, BuildLobbyState, View, FlowLinks.Synced, Shows;
    if Accepted(s.sessions[q]) {
      AcceptedPastHandshake(s, q);
      WelcomeShows(s, q, p, s.sessions[q].value.playerId.value, lost);
    } else if versionMatches && InLobby(s) && Reserve(s, name).Some? && !lost(q, s.links[q].attempts) {
      var id, wins := Reserve(s, name).value.0, Reserve(s, name).value.1;
      var welcomed := SendTo(s.(pool := Remove(s.pool, id)), q, Welcome(id), lost);
      ReservedExists(s, name);
      AcceptedKeeps(welcomed, q, id, name, wins);
      JoinBroadcasts(Accept(welcomed, q, id, name, wins), p, lost);
    } else {
      SentOnly(s, q, name, versionMatches, lost);
      SentShows(s, Hello(s, q, name, versionMatches, lost), q, p);
    }
  }

  lemma AcceptedKeeps(s: Server, q: nat, id: nat, name: Name, wins: nat)
    requires q < |s.sessions| && id < |s.slots| && id < |s.reclaims|
    ensures var t := Accept(s, q, id, name, wins); t.phase == s.phase && |t.sessions| == |s.sessions| && t.links == s.links
  {
  }

  lemma ReservedExists(s: Server, name: Name)
    requires Inv(s) && Reserve(s, name).Some?
    ensures Reserve(s, name).value.0 < |s.slots| && Reserve(s, name).value.0 < |s.reclaims|
  {
    FlowProgress.SessionsOfInv(s);
    ReservedIsFree(s, name);
    InvSizes(s);
  }

  /** A refused or a lost Hello only uses the peer's own queue. */
  lemma SentOnly(s: Server, q: nat, name: Name, versionMatches: bool, lost: Losses)
    requires Inv(s) && q < |s.sessions| && |s.links| == |s.sessions| && !Accepted(s.sessions[q])
    requires !(versionMatches && InLobby(s) && Reserve(s, name).Some? && !lost(q, s.links[q].attempts))
    ensures var t := Hello(s, q, name, versionMatches, lost);
      && t == s.(links := t.links) && |t.links| == |s.links|
      && forall r | 0 <= r < |s.links| && r != q :: t.links[r] == s.links[r]
  {
    if versionMatches && InLobby(s) && Reserve(s, name).Some? {
      FlowProgress.ReserveChooses(s, name);
      FlowProgress.PoolOfMembers(s);
      ReleaseUndoesRemove(s.pool, Reserve(s, name).value.0);
    }
    hide Inv, Reserve, HandleJoined, Accept, Remove, Release, FlowProgress.IsMember, FlowProgress.Chosen;
  }

  lemma JoinBroadcasts(u: Server, p: nat, lost: Losses)
    requires |u.links| == |u.sessions| && InLobby(u) && Inv(HandleJoined(u, lost)) && forall a :: !lost(p, a)
    ensures Shows(HandleJoined(u, lost), p)
  {
    hide Inv, BroadcastLobbyState, Shows, ClearReady, ClearCountdown;
    ClearedLinks(u.(phase := Lobby));
    BroadcastShows(ClearReady(ClearCountdown(u.(phase := Lobby))), p, lost);
  }

  lemma ClearedLinks(u: Server)
    ensures ClearReady(ClearCountdown(u)).links == u.links && ClearReady(ClearCountdown(u)).sessions == u.sessions
  {
  }

  lemma ReadyShows(s: Server, q: nat, ready: bool, p: nat, lost: Losses)
    requires Inv(s) && Shows(s, p) && q < |s.sessions| && forall a :: !lost(p, a)
    ensures |s.links| == |s.sessions| && Shows(LobbyReady(s, q, ready, lost), p)
  {
    InvSizes(s);
    LobbyReadyHolds(s, q, ready, lost);
    hide Inv, Shows, AllReady, Participants, BroadcastLobbyState, ClearCountdown, CountdownSeconds;
    var t := LobbyReady(s, q, ready, lost);
    if t != s {
      var id := s.sessions[q].value.playerId.value;
      ChangeBroadcasts(s.(slots := s.slots[id := Some(s.slots[id].value.(ready := ready))]), p, lost);
    }
  }

  lemma ChangeBroadcasts(u: Server, p: nat, lost: Losses)
    requires |u.links| == |u.sessions| && InLobby(u) && Inv(HandleReadyChanged(u, lost)) && forall a :: !lost(p, a)
    ensures Shows(HandleReadyChanged(u, lost), p)
  {
    hide Inv, Shows, AllReady, Participants, BroadcastLobbyState, CountdownSeconds;
    var mask := Participants(u);
    if u.phase == LobbyCountdown {
      if !AllReady(u) || mask != u.countdownMask || |mask| < 2 {
        BroadcastShows(ClearCountdown(u.(phase := Lobby)), p, lost);
      } else {
        BroadcastShows(u, p, lost);
      }
    } else if AllReady(u) && |mask| >= 2 {
      var armed := u.(phase := LobbyCountdown, countdownMask := mask, countdownDeadlineTick := u.serverTick + LOBBY_COUNTDOWN_TICKS);
      BroadcastShows(armed.(countdownLastBroadcastSecond := CountdownSeconds(armed)), p, lost);
    } else {
      BroadcastShows(u, p, lost);
    }
  }

  /** A cancelled start ends with a broadcast. */
  lemma CancelShows(u: Server, mask: set<nat>, p: nat, lost: Losses)
    requires |u.links| == |u.sessions| && Inv(CancelStarting(u, mask, lost)) && forall a :: !lost(p, a)
    ensures Shows(CancelStarting(u, mask, lost), p)
  {
    hide Inv, Shows, SendCancelled, BroadcastLobbyState, ResetToLobby;
    var told := SendCancelled(u, mask, lost);
    ResetLinks(told);
    BroadcastShows(ResetToLobby(told), p, lost);
  }

  lemma ResetLinks(u: Server)
    ensures ResetToLobby(u).links == u.links && ResetToLobby(u).sessions == u.sessions
  {
  }

  lemma LoadedShows(s: Server, q: nat, matchId: nat, p: nat, lost: Losses)
    requires Inv(s) && Shows(s, p) && q < |s.sessions| && forall a :: !lost(p, a)
    ensures |s.links| == |s.sessions| && Shows(MatchLoaded(s, q, matchId, lost), p)
  {
    InvSizes(s);
    MatchLoadedHolds(s, q, matchId, lost);
    hide Inv, Shows, MaybeCommit;
    var t := MatchLoaded(s, q, matchId, lost);
    if t != s {
      CommitShows(s.(loadedMask := s.loadedMask + {s.sessions[q].value.playerId.value}), p, lost);
    }
  }

  lemma CommitShows(u: Server, p: nat, lost: Losses)
    requires |u.links| == |u.sessions| && u.phase == StartingMatch && Inv(MaybeCommit(u, lost)) && forall a :: !lost(p, a)
    ensures Shows(MaybeCommit(u, lost), p)
  {
    hide Inv, Shows, SendToMask, ReachedIds, CancelStarting, Known;
    var t, go := MaybeCommit(u, lost), u.serverTick + GO_DELAY_TICKS;
    var told := SendToMask(u, u.matchMask, MatchStart(u.matchId, go, go), MAX_PLAYERS, lost);
    NotInLobby(t, p);
    if t == CancelStarting(told, u.matchMask, lost) {
      CancelShows(told, u.matchMask, p, lost);
    }
  }

  lemma DisconnectShows(s: Server, q: nat, p: nat, lost: Losses)
    requires Inv(s) && Shows(s, p) && q < |s.sessions| && forall a :: !lost(p, a)
    ensures |s.links| == |s.sessions| && Shows(Disconnect(s, q, lost), p)
  {
    InvSizes(s);
    DisconnectHolds(s, q, lost);
    var t := Disconnect(s, q, lost);
    if !Accepted(s.sessions[q]) {
      SeatsUnchanged(s, t, q);
      SameLobby(s, t);
      hide Inv, BuildLobbyState, Disconnect;
      StillShows(s, t, p);
    } else {
      BoundSeatExists(s, q);
      FlowProgress.SessionsOfInv(s);
      FreedSessions(s, q);
      var id := s.sessions[q].value.playerId.value;
      var freed := FreedServer(s, q);
      assert t == HandleReleased(freed, id, lost);
      if s.phase == InMatch || s.phase == EndOfMatch {
        FlowProgress.RoundMask(s);
      }
      hide Inv, Shows, HandleReleased, Disconnect, Release, FreedServer;
      FreedIs(s, q);
      ReleaseShows(freed, id, p, lost);
    }
  }

  lemma FreedIs(s: Server, q: nat)
    requires q < |s.sessions| && Accepted(s.sessions[q]) && |s.links| == |s.sessions|
    requires var id := s.sessions[q].value.playerId.value; id < |s.slots| && s.slots[id].Some? && id < |s.reclaims| && id < |s.seats|
    ensures var f := FreedServer(s, q); |f.links| == |f.sessions| && f.phase == s.phase && f.matchMask == s.matchMask
  {
  }

  lemma ReleaseShows(freed: Server, id: nat, p: nat, lost: Losses)
    requires |freed.links| == |freed.sessions| && Inv(HandleReleased(freed, id, lost)) && forall a :: !lost(p, a)
    requires freed.phase == InMatch || freed.phase == EndOfMatch ==> freed.matchMask - {id} == AcceptedIds(freed.sessions)
    ensures Shows(HandleReleased(freed, id, lost), p)
  {
    hide Inv, ResetUnready, CancelStarting, EndIfDecided, AcceptedIds, View, BuildLobbyState;
    var left := freed.(countdownMask := freed.countdownMask - {id}, matchMask := freed.matchMask - {id}, loadedMask := freed.loadedMask - {id});
    if InLobby(freed) {
      assert HandleReleased(freed, id, lost) == HandleJoined(left, lost);
      JoinBroadcasts(left, p, lost);
    } else if freed.phase == StartingMatch {
      CancelShows(left, left.matchMask, p, lost);
    } else if left.matchMask == {} {
      AcceptedAreListed(left);
      ResetLinks(left);
    } else {
      EndLeavesLobby(left, lost);
    }
  }

  lemma AcceptedAreListed(s: Server)
    ensures forall p | 0 <= p < |s.sessions| && Accepted(s.sessions[p]) :: AcceptedIds(s.sessions) != {}
  {
    forall p | 0 <= p < |s.sessions| && Accepted(s.sessions[p]) ensures AcceptedIds(s.sessions) != {} {
      assert s.sessions[p].value.playerId.value in AcceptedIds(s.sessions);
    }
  }

  lemma EndLeavesLobby(s: Server, lost: Losses)
    requires |s.links| == |s.sessions| && !InLobby(s)
    ensures !InLobby(EndIfDecided(s, lost))
  {
    hide AnySeat, AliveIds, LastAlive, SendResult, LockedSeats, Credited;
  }

  lemma TickShows(s: Server, killed: set<nat>, p: nat, lost: Losses)
    requires Inv(s) && Shows(s, p) && forall a :: !lost(p, a)
    ensures |s.links| == |s.sessions| && Shows(ServerTick(s, killed, lost), p)
  {
    InvSizes(s);
    TickHolds(s, killed, lost);
    AdvanceHolds(s, lost);
    hide Inv, Shows, Advance, ServerTick;
    var u := s.(serverTick := s.serverTick + 1);
    AdvanceShows(s, u, p, lost);
    if Advance(u, lost).phase == InMatch {
      MatchTickOutOfLobby(s, killed, lost);
      NotInLobby(ServerTick(s, killed, lost), p);
    } else {
      FlowProgress.TickAdvances(s, killed, lost);
    }
  }

  lemma MatchTickOutOfLobby(s: Server, killed: set<nat>, lost: Losses)
    requires |s.links| == |s.sessions| && Advance(s.(serverTick := s.serverTick + 1), lost).phase == InMatch
    ensures !InLobby(ServerTick(s, killed, lost))
  {
    hide Advance, AnySeat, AliveIds, LastAlive, SendResult, LockedSeats, Credited, Killed;
  }

  lemma NotInLobby(t: Server, p: nat)
    ensures !InLobby(t) ==> Shows(t, p)
  {
  }

  lemma AdvanceShows(s: Server, u: Server, p: nat, lost: Losses)
    requires Inv(s) && Shows(s, p) && u == s.(serverTick := s.serverTick + 1) && |s.links| == |s.sessions| && Inv(Advance(u, lost)) && forall a :: !lost(p, a)
    ensures Shows(Advance(u, lost), p)
    ensures s.phase == InMatch ==> Advance(u, lost).phase == InMatch
    ensures s.phase != InMatch ==> Advance(u, lost).phase != InMatch
  {
    match s.phase
    case Lobby =>
      SameLobbyLater(s, u);
      hide Inv, BuildLobbyState;
      StillShows(s, u, p);
    case LobbyCountdown => CountdownShows(s, u, p, lost);
    case StartingMatch =>
      hide Inv, Shows, CancelStarting;
      NotInLobby(u, p);
      if Advance(u, lost) != u {
        CancelShows(u, u.matchMask, p, lost);
      }
    case InMatch =>
      hide Inv, Shows;
      NotInLobby(Advance(u, lost), p);
    case EndOfMatch =>
      hide Inv, Shows, ResetToLobby, BroadcastLobbyState;
      NotInLobby(u, p);
      if Advance(u, lost) != u {
        ResetLinks(u);
        BroadcastShows(ResetToLobby(u), p, lost);
      }
  }

  lemma SameLobbyLater(s: Server, u: Server)
    requires Inv(s) && s.phase == Lobby && u == s.(serverTick := s.serverTick + 1)
    ensures BuildLobbyState(u) == BuildLobbyState(s)
  {
    InvSizes(s);
    FlowProgress.SameSessions(s, u);
    SameLobby(s, u);
  }

  lemma CountdownShows(s: Server, u: Server, p: nat, lost: Losses)
    requires Inv(s) && Shows(s, p) && s.phase == LobbyCountdown && u == s.(serverTick := s.serverTick + 1) && |s.links| == |s.sessions|
    requires Inv(Advance(u, lost)) && forall a :: !lost(p, a)
    ensures Shows(Advance(u, lost), p) && Advance(u, lost).phase != InMatch
  {
    InvSizes(s);
    FlowProgress.CountdownFacts(s);
    LastSecond(s);
    if u.serverTick >= u.countdownDeadlineTick {
      BootShows(s, u, p, lost);
    } else if CountdownSeconds(u) != u.countdownLastBroadcastSecond {
      hide Inv, Shows, BroadcastLobbyState, CountdownSeconds, BeginMatchBootstrap;
      BroadcastShows(u.(countdownLastBroadcastSecond := CountdownSeconds(u)), p, lost);
    } else {
      FlowProgress.SameSessions(s, u);
      SameLobby(s, u);
      hide Inv, BuildLobbyState, CountdownSeconds, BeginMatchBootstrap;
      StillShows(s, u, p);
    }
  }

  lemma LastSecond(s: Server)
    requires Inv(s) && s.phase == LobbyCountdown
    ensures s.countdownLastBroadcastSecond == CountdownSeconds(s)
  {
  }

  lemma BootShows(s: Server, u: Server, p: nat, lost: Losses)
    requires Inv(s) && s.phase == LobbyCountdown && u == s.(serverTick := s.serverTick + 1) && |s.links| == |s.sessions|
    requires u.countdownDeadlineTick != 0 && u.serverTick >= u.countdownDeadlineTick && Inv(Advance(u, lost)) && forall a :: !lost(p, a)
    ensures Shows(Advance(u, lost), p) && Advance(u, lost).phase != InMatch
  {
    FlowProgress.CountdownFacts(s);
    var mask := AcceptedIds(s.sessions);
    BootstrapRecheckNeverFails(u);
    FlowProgress.KnownMembers(s);
    FlowProgress.BootstrapCases(u, mask, lost);
    hide Inv, Shows, BeginMatchBootstrap, Bootstrapped, SendToMask, ReachedIds, Seated, CancelStarting, AcceptedIds, ReadyTogether, SessionsOk, AllReady, Participants, Known, Advance;
    var boot := Bootstrapped(u, mask);
    var told, reached := SendToMask(boot, mask, LevelInfo(boot.matchId), 4, lost), ReachedIds(boot, mask, LevelInfo(boot.matchId), 4, lost);
    FlowProgress.AdvanceCountdown(u, lost);
    BootPhase(u, mask);
    BootEnds(told.(seats := Seated(told.seats, reached)), reached, mask, Advance(u, lost), p, lost);
  }

  lemma BootEnds(seated: Server, reached: set<nat>, mask: set<nat>, t: Server, p: nat, lost: Losses)
    requires |seated.links| == |seated.sessions| && seated.phase == StartingMatch && Inv(t) && forall a :: !lost(p, a)
    requires t == if reached != mask then CancelStarting(seated, reached, lost) else seated.(matchMask := mask)
    ensures Shows(t, p) && t.phase != InMatch
  {
    hide Inv, Shows, CancelStarting;
    if reached != mask {
      CancelShows(seated, reached, p, lost);
      FlowProgress.CancelledIs(seated, reached, lost);
    } else {
      NotInLobby(t, p);
    }
  }

  lemma BootPhase(u: Server, mask: set<nat>)
    ensures Bootstrapped(u, mask).phase == StartingMatch
  {
  }

  lemma StepShows(s: Server, e: Event, p: nat, lost: Losses)
    requires Inv(s) && FlowLinks.Synced(s) && Shows(s, p) && forall a :: !lost(p, a)
    ensures Shows(Step(s, e, lost), p)
  {
    InvSizes(s);
    hide Inv, Shows, FlowLinks.Synced, Connect, Hello, LobbyReady, MatchLoaded, Disconnect, ServerTick;
    if Enabled(s, e) {
      match e
      case EvConnect(q) => ConnectShows(s, q, p);
      case EvHello(q, name, versionMatches) => HelloShows(s, q, name, versionMatches, p, lost);
      case EvLobbyReady(q, ready) => ReadyShows(s, q, ready, p, lost);
      case EvMatchLoaded(q, matchId) => LoadedShows(s, q, matchId, p, lost);
      case EvDisconnect(q) => DisconnectShows(s, q, p, lost);
      case EvTick(killed) => TickShows(s, killed, p, lost);
    }
  }

  /**
   * Over every run in which no send to peer p fails, whatever happens to the others: whenever the server is in the
   * lobby or counts down, the connected client of an accepted peer p shows exactly the server's current lobby, its
   * countdown seconds included, and has left every match.
   */
  lemma {:induction false} EveryClientShowsTheLobby(events: seq<Event>, lost: Losses, p: nat)
    requires forall a :: !lost(p, a)
    ensures Shows(Run(events, lost), p)
    decreases |events|
  {
    hide Inv, Shows, FlowLinks.Synced, Step;
    if events == [] {
      StartShows(p);
    } else {
      var before := events[..|events| - 1];
      EveryClientShowsTheLobby(before, lost, p);
      EveryRunHolds(before, lost);
      FlowLinks.EveryClientIsInStep(before, lost);
      StepShows(Run(before, lost), events[|events| - 1], p, lost);
    }
  }

  lemma StartShows(p: nat)
    ensures Shows(Start(), p)
  {
  }

  // ----- The result -----

  /** After a match the client of every accepted peer holds its result. */
  ghost predicate HoldsResult(s: Server, p: nat) {
    s.phase == EndOfMatch && p < |s.sessions| && p < |s.links| && Accepted(s.sessions[p]) && View(s.links[p].sent).status.Connected? ==>
      View(s.links[p].sent).matchResult.Some?
  }

  /** After a match, until it is left, a peer's queue gets nothing but another Welcome. */
  ghost predicate QueueKept(s: Server, t: Server, p: nat) {
    p < |t.sessions| && p < |t.links| && Accepted(t.sessions[p]) ==>
      && p < |s.sessions| && p < |s.links| && Accepted(s.sessions[p])
      && (t.links[p].sent == s.links[p].sent || exists id :: t.links[p].sent == s.links[p].sent + [Welcome(id)])
  }

  lemma EndKeepsQueues(s: Server, e: Event, p: nat, lost: Losses)
    requires |s.links| == |s.sessions| && s.phase == EndOfMatch && Enabled(s, e) && Step(s, e, lost).phase == EndOfMatch
    ensures QueueKept(s, Step(s, e, lost), p)
  {
    hide Release, ResetToLobby, BuildLobbyState, CountdownSeconds, LockedSeats, Killed, AnySeat, AliveIds, BeginMatchBootstrap, CancelStarting;
    match e
    case EvTick(killed) => EndTickQueues(s, killed, p, lost);
    case EvDisconnect(q) => EndLeaveQueues(s, q, p, lost);
    case _ =>
  }

  lemma EndTickQueues(s: Server, killed: set<nat>, p: nat, lost: Losses)
    requires |s.links| == |s.sessions| && s.phase == EndOfMatch && ServerTick(s, killed, lost).phase == EndOfMatch
    ensures ServerTick(s, killed, lost) == s.(serverTick := s.serverTick + 1)
  {
    hide EndIfDecided, Killed, LockedSeats, BeginMatchBootstrap, CancelStarting, BuildLobbyState, PushedToAccepted;
  }

  lemma EndLeaveQueues(s: Server, q: nat, p: nat, lost: Losses)
    requires |s.links| == |s.sessions| && s.phase == EndOfMatch && q < |s.sessions| && Disconnect(s, q, lost).phase == EndOfMatch
    ensures var t := Disconnect(s, q, lost); t.links == s.links && t.sessions == s.sessions[q := None]
  {
    hide EndIfDecided, Release, CancelStarting, ResetUnready;
    if Accepted(s.sessions[q]) {
      var id := s.sessions[q].value.playerId.value;
      if id < |s.slots| && id < |s.reclaims| && id < |s.seats| {
        ReleaseAtEnd(s, q, id, lost);
      }
    }
  }

  lemma ReleaseAtEnd(s: Server, q: nat, id: nat, lost: Losses)
    requires |s.links| == |s.sessions| && s.phase == EndOfMatch && q < |s.sessions| && Disconnect(s, q, lost).phase == EndOfMatch
    requires Accepted(s.sessions[q]) && s.sessions[q].value.playerId.value == id
    ensures var t := Disconnect(s, q, lost); t.links == s.links && t.sessions == s.sessions[q := None]
  {
  }

  lemma ResultKept(s: Server, t: Server, p: nat)
    requires HoldsResult(s, p) && s.phase == EndOfMatch && QueueKept(s, t, p)
    requires p < |s.sessions| && p < |s.links| && Accepted(s.sessions[p]) ==> !View(s.links[p].sent).status.Handshaking?
    ensures HoldsResult(t, p)
  {
    if p < |t.sessions| && p < |t.links| && Accepted(t.sessions[p]) && t.links[p].sent != s.links[p].sent {
      var id :| t.links[p].sent == s.links[p].sent + [Welcome(id)];
      ViewOfOneMore(s.links[p].sent, Welcome(id));
      hide View;
    }
  }

  /** A client in a match takes its result. */
  lemma ResultIsTaken(c: Client, msg: Control)
    requires msg.MatchResult? && Decodes(msg) && c.status.Connected? && c.levelInfo == Some(msg.matchId) && c.matchResult.None?
    ensures Receive(c, msg).matchResult == Some(msg)
  {
  }

  lemma ToldDecodes(msg: Control, s: Server, t: Server)
    requires FlowProgress.ResultSays(msg, s, t) && s.matchId != 0 && |s.slots| == 4
    ensures Decodes(msg)
  {
  }

  lemma EndIsShown(events: seq<Event>, e: Event, lost: Losses, p: nat)
    requires Enabled(Run(events, lost), e) && forall q, a :: !lost(q, a)
    requires Run(events, lost).phase == InMatch && Run(events + [e], lost).phase == EndOfMatch
    ensures HoldsResult(Run(events + [e], lost), p)
  {
    FlowProgress.EveryEndIsTold(events, e, lost);
    FlowLinks.EveryClientIsInStep(events, lost);
    EveryRunHolds(events, lost);
    EveryRunHolds(events + [e], lost);
    var s, t := Run(events, lost), Run(events + [e], lost);
    InvSizes(s);
    InvSizes(t);
    FlowProgress.MatchFacts(s);
    hide Run, Inv, Enabled, FlowProgress.ResultSays;
    var msg :| FlowProgress.ResultSays(msg, s, t) && FlowProgress.Told(s.(sessions := t.sessions), t, msg);
    ToldDecodes(msg, s, t);
    if p < |t.sessions| && Accepted(t.sessions[p]) {
      SameAcceptance(events, e, lost, p);
      TakenAtTheEnd(s, t, p, msg);
    }
  }

  /** Whoever is accepted when a match ends was accepted before. */
  lemma SameAcceptance(events: seq<Event>, e: Event, lost: Losses, p: nat)
    requires Enabled(Run(events, lost), e) && Run(events, lost).phase == InMatch
    requires p < |Run(events + [e], lost).sessions| && Accepted(Run(events + [e], lost).sessions[p])
    ensures p < |Run(events, lost).sessions| && Accepted(Run(events, lost).sessions[p])
  {
    FlowProgress.EveryEventLeads(events, e, lost);
    hide Run, FlowProgress.LoadedOutcome, FlowProgress.ReadyOutcome, FlowProgress.MatchOutcome, FlowProgress.LeftMatch;
  }

  lemma TakenAtTheEnd(s: Server, t: Server, p: nat, msg: Control)
    requires FlowLinks.Synced(s) && s.phase == InMatch && p < |s.sessions| && Accepted(s.sessions[p])
    requires p < |t.sessions| && Accepted(t.sessions[p]) && Decodes(msg) && msg.MatchResult? && msg.matchId == s.matchId
    requires FlowProgress.Told(s.(sessions := t.sessions), t, msg)
    ensures HoldsResult(t, p)
  {
    assert FlowProgress.HasId(s.(sessions := t.sessions), p, t.sessions[p].value.playerId.value);
    assert FlowLinks.LinkOk(s.sessions[p], s.links[p].sent, s.nextMatchId);
    var c := View(s.links[p].sent);
    ViewOfOneMore(s.links[p].sent, msg);
    hide View, Decodes;
    if c.status.Connected? {
      assert FlowLinks.InStep(s, c);
      ResultIsTaken(c, msg);
    }
  }

  /**
   * Over every run in which no send fails: after a match the connected client of every accepted peer holds the
   * result, and the winner in it is the server's.
   */
  lemma {:induction false} EveryClientShowsTheResult(events: seq<Event>, lost: Losses, p: nat)
    requires forall q, a :: !lost(q, a)
    ensures HoldsResult(Run(events, lost), p)
    decreases |events|
  {
    hide Inv, HoldsResult, FlowLinks.Synced, Step, Enabled;
    if events == [] {
      NoResultYet(p);
    } else {
      var before, e := events[..|events| - 1], events[|events| - 1];
      assert before + [e] == events;
      var s, t := Run(before, lost), Run(events, lost);
      EveryClientShowsTheResult(before, lost, p);
      EveryRunHolds(before, lost);
      InvSizes(s);
      if t.phase != EndOfMatch {
        NotAtTheEnd(t, p);
      } else if Enabled(s, e) {
        OnlyMatchesEnd(before, e, lost);
        if s.phase == InMatch {
          EndIsShown(before, e, lost, p);
        } else {
          EndKeepsQueues(s, e, p, lost);
          FlowLinks.EveryClientIsInStep(before, lost);
          if p < |s.sessions| && Accepted(s.sessions[p]) {
            AcceptedPastHandshake(s, p);
          }
          ResultKept(s, t, p);
        }
      } else {
        Disabled(s, e, lost);
      }
    }
  }

  lemma Disabled(s: Server, e: Event, lost: Losses)
    requires !Enabled(s, e)
    ensures Step(s, e, lost) == s
  {
  }

  lemma NoResultYet(p: nat)
    ensures HoldsResult(Start(), p)
  {
  }

  lemma NotAtTheEnd(t: Server, p: nat)
    requires t.phase != EndOfMatch
    ensures HoldsResult(t, p)
  {
  }

  /** Only a match has an end. */
  lemma OnlyMatchesEnd(events: seq<Event>, e: Event, lost: Losses)
    requires Enabled(Run(events, lost), e) && Run(events + [e], lost).phase == EndOfMatch
    ensures Run(events, lost).phase == InMatch || Run(events, lost).phase == EndOfMatch
  {
    FlowProgress.EveryEventLeads(events, e, lost);
    hide Run, FlowProgress.Told, FlowProgress.Heard, FlowProgress.Members, FlowProgress.AllUnready;
  }
}
