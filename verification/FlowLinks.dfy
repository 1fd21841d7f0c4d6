/** The server's control channel against what each client makes of it, for every pattern of failed sends. */
module FlowLinks {
  import opened Config
  import opened Wrappers
  import opened ClientFlow
  import opened Flow
  import opened FlowInv

  // ----- What a client may believe -----

  /** Independent of the phase: ids are old enough, and a cancellation is only remembered outside a match. */
  ghost predicate ViewOk(c: Client, next: nat) {
    && (c.levelInfo.Some? ==> 1 <= c.levelInfo.value < next)
    && (c.cancelledMatchId.Some? ==> c.levelInfo.None? && c.cancelledMatchId.value < next)
    && (c.matchStart.Some? ==> c.matchStart.value.MatchStart? && c.levelInfo == Some(c.matchStart.value.matchId))
    && (c.matchResult.Some? ==> c.matchResult.value.MatchResult? && c.levelInfo == Some(c.matchResult.value.matchId))
  }

  /** During a round the client is in the same match, started once the server has started it. */
  ghost predicate InStep(s: Server, c: Client) {
    match s.phase
    case Lobby => true
    case LobbyCountdown => true
    case StartingMatch =>
      c.levelInfo == Some(s.matchId) && c.cancelledMatchId.None? && c.matchStart.None? && c.matchResult.None?
    case InMatch =>
      && c.levelInfo == Some(s.matchId) && c.cancelledMatchId.None? && c.matchResult.None?
      && c.matchStart == Some(MatchStart(s.matchId, s.goShowTick, s.goShowTick))
    case EndOfMatch =>
      && c.levelInfo == Some(s.matchId) && c.cancelledMatchId.None? && c.matchStart.Some?
      && (c.matchResult.Some? ==> c.matchResult.value.MatchResult? && c.matchResult.value.winner == s.winner)
  }

  ghost predicate AllRejects(sent: seq<Control>) {
    forall i | 0 <= i < |sent| :: sent[i].Reject?
  }

  /** One connection: only rejections before an acceptance; a client that fails had been rejected first. */
  ghost predicate LinkOk(slot: Option<Session>, sent: seq<Control>, next: nat) {
    && (forall i | 0 <= i < |sent| :: Decodes(sent[i]))
    && (slot.Some? && !Accepted(slot) ==> AllRejects(sent))
    && (Accepted(slot) ==>
          var c := View(sent);
          || (c.status.Failed? && sent != [] && sent[0].Reject?)
          || (c.status.Connected? && c.playerId == slot.value.playerId && ViewOk(c, next)))
  }

  ghost predicate LinksOk(s: Server) {
    && |s.links| == |s.sessions| && |s.slots| == MAX_PLAYERS
    && forall p | 0 <= p < |s.sessions| :: LinkOk(s.sessions[p], s.links[p].sent, s.nextMatchId)
  }

  ghost predicate AllInStep(s: Server) {
    && |s.links| == |s.sessions|
    && forall p | 0 <= p < |s.sessions| && Accepted(s.sessions[p]) && View(s.links[p].sent).status.Connected? ::
         InStep(s, View(s.links[p].sent))
  }

  ghost predicate Synced(s: Server) {
    LinksOk(s) && AllInStep(s)
  }

  // ----- One push -----

  lemma {:induction false} RejectedStaysFailed(sent: seq<Control>)
    requires sent != [] && sent[0].Reject?
    ensures View(sent).status.Failed?
    decreases |sent|
  {
    var n := |sent| - 1;
    if n > 0 {
      RejectedStaysFailed(sent[..n]);
    } else {
      assert View(sent[..0]) == FRESH_CLIENT;
    }
  }

  /** What may be sent to a connected client in state c. */
  ghost predicate Sendable(c: Client, msg: Control, next: nat) {
    && Decodes(msg) && !msg.Reject?
    && (msg.LevelInfo? ==> msg.matchId < next)
    && (msg.MatchCancelled? ==> msg.matchId < next && (c.levelInfo.None? || c.levelInfo == Some(msg.matchId)))
  }

  lemma ReceiveKeepsView(c: Client, msg: Control, next: nat)
    requires c.status.Connected? && ViewOk(c, next) && Sendable(c, msg, next)
    ensures ViewOk(Receive(c, msg), next) && Receive(c, msg).status.Connected? && Receive(c, msg).playerId == c.playerId
  {
  }

  lemma PushKeepsLink(slot: Option<Session>, l: Link, p: nat, msg: Control, lost: Losses, next: nat)
    requires LinkOk(slot, l.sent, next) && Accepted(slot) && Decodes(msg)
    requires View(l.sent).status.Connected? ==> Sendable(View(l.sent), msg, next)
    ensures LinkOk(slot, Pushed(l, p, msg, lost).sent, next)
    ensures View(Pushed(l, p, msg, lost).sent) == if lost(p, l.attempts) then View(l.sent) else Receive(View(l.sent), msg)
  {
    ViewOfOneMore(l.sent, msg);
    hide ViewOk, Sendable, Receive, Decodes, View;
    if !lost(p, l.attempts) {
      if View(l.sent).status.Connected? {
        ReceiveKeepsView(View(l.sent), msg, next);
      } else {
        RejectedStaysFailed(l.sent + [msg]);
      }
    }
  }

  // ----- Sends to a mask -----

  /** The links after a send to every session bound to an id of the mask below n. */
  function MaskPushed(links: seq<Link>, sessions: seq<Option<Session>>, mask: set<nat>, n: nat, msg: Control, lost: Losses): seq<Link>
    requires |links| == |sessions|
  {
    seq(|links|, p requires 0 <= p < |links| =>
      if Accepted(sessions[p]) && sessions[p].value.playerId.value in mask && sessions[p].value.playerId.value < n
      then Pushed(links[p], p, msg, lost) else links[p])
  }

  lemma OneSend(s: Server, id: nat, msg: Control, lost: Losses)
    requires |s.links| == |s.sessions| && BoundOnce(s.sessions)
    ensures forall p | 0 <= p < |s.links| ::
      SendToPlayer(s, id, msg, lost).links[p] == (if Bound(s.sessions[p], id) then Pushed(s.links[p], p, msg, lost) else s.links[p])
  {
    var q := PeerOf(s.sessions, id);
    forall p | 0 <= p < |s.links| && Bound(s.sessions[p], id) ensures p == q {
      assert q <= p;
    }
  }

  lemma OneMoreId(s: Server, before: Server, mask: set<nat>, n: nat, msg: Control, lost: Losses)
    requires |s.links| == |s.sessions| && BoundOnce(s.sessions) && n > 0
    requires before == s.(links := before.links) && before.links == MaskPushed(s.links, s.sessions, mask, n - 1, msg, lost)
    ensures (if n - 1 in mask then SendToPlayer(before, n - 1, msg, lost) else before).links
         == MaskPushed(s.links, s.sessions, mask, n, msg, lost)
  {
    hide SendToPlayer, Pushed, BoundOnce;
    OneSend(before, n - 1, msg, lost);
  }

  /** Every session bound to an id of the mask gets the message once, unless its send is lost. */
  lemma {:induction false} MaskSends(s: Server, mask: set<nat>, msg: Control, n: nat, lost: Losses)
    requires |s.links| == |s.sessions| && BoundOnce(s.sessions)
    ensures SendToMask(s, mask, msg, n, lost).links == MaskPushed(s.links, s.sessions, mask, n, msg, lost)
    ensures forall id :: id in ReachedIds(s, mask, msg, n, lost) <==>
      id in mask && id < n && Reaches(s, id, lost)
    decreases n
  {
    hide SendToPlayer, MaskPushed, Reaches, BoundOnce;
    if n > 0 {
      MaskSends(s, mask, msg, n - 1, lost);
      var before := SendToMask(s, mask, msg, n - 1, lost);
      OneMoreId(s, before, mask, n, msg, lost);
      SendsLeaveTheRest(s, before, mask, n, msg, lost);
    } else {
      NothingPushed(s, mask, msg, lost);
    }
  }

  lemma NothingPushed(s: Server, mask: set<nat>, msg: Control, lost: Losses)
    requires |s.links| == |s.sessions|
    ensures MaskPushed(s.links, s.sessions, mask, 0, msg, lost) == s.links
  {
  }

  lemma SendsLeaveTheRest(s: Server, before: Server, mask: set<nat>, n: nat, msg: Control, lost: Losses)
    requires |s.links| == |s.sessions| && BoundOnce(s.sessions) && n > 0
    requires before == s.(links := before.links) && before.links == MaskPushed(s.links, s.sessions, mask, n - 1, msg, lost)
    ensures Reaches(before, n - 1, lost) <==> Reaches(s, n - 1, lost)
  {
    var p := PeerOf(s.sessions, n - 1);
    assert p < |s.sessions| ==> before.links[p] == s.links[p];
  }

  /** Everybody in the mask was reached: every bound session of the mask has received the message. */
  lemma ReachedMeansReceived(s: Server, p: nat, lost: Losses)
    requires |s.links| == |s.sessions| && BoundOnce(s.sessions) && p < |s.sessions| && Accepted(s.sessions[p])
    ensures Reaches(s, s.sessions[p].value.playerId.value, lost) <==> !lost(p, s.links[p].attempts)
  {
    PeerOfBound(s.sessions, p);
  }

  lemma MaskSendKeepsLinks(s: Server, mask: set<nat>, msg: Control, lost: Losses)
    requires LinksOk(s) && BoundOnce(s.sessions) && Decodes(msg)
    requires forall p | 0 <= p < |s.sessions| && Accepted(s.sessions[p]) && View(s.links[p].sent).status.Connected?
      && s.sessions[p].value.playerId.value in mask :: Sendable(View(s.links[p].sent), msg, s.nextMatchId)
    ensures LinksOk(SendToMask(s, mask, msg, MAX_PLAYERS, lost))
    ensures forall p | 0 <= p < |s.sessions| && Accepted(s.sessions[p]) ::
      View(SendToMask(s, mask, msg, MAX_PLAYERS, lost).links[p].sent) ==
        if s.sessions[p].value.playerId.value in mask && !lost(p, s.links[p].attempts)
        then Receive(View(s.links[p].sent), msg) else View(s.links[p].sent)
  {
    MaskSends(s, mask, msg, MAX_PLAYERS, lost);
    hide SendToMask, LinkOk, View, Receive, Sendable, Pushed, Decodes;
    forall p | 0 <= p < |s.sessions|
      ensures LinkOk(s.sessions[p], MaskPushed(s.links, s.sessions, mask, MAX_PLAYERS, msg, lost)[p].sent, s.nextMatchId)
      ensures Accepted(s.sessions[p]) ==>
        View(MaskPushed(s.links, s.sessions, mask, MAX_PLAYERS, msg, lost)[p].sent) ==
          if s.sessions[p].value.playerId.value in mask && !lost(p, s.links[p].attempts)
          then Receive(View(s.links[p].sent), msg) else View(s.links[p].sent)
    {
      if Accepted(s.sessions[p]) && s.sessions[p].value.playerId.value in mask {
        PushKeepsLink(s.sessions[p], s.links[p], p, msg, lost, s.nextMatchId);
      }
    }
  }

  // ----- Lobby states -----

  lemma BroadcastKeepsLinks(s: Server, lost: Losses)
    requires LinksOk(s) && (s.phase.LobbyCountdown? ==> s.serverTick < s.countdownDeadlineTick)
    ensures LinksOk(BroadcastLobbyState(s, lost))
  {
    var msg := BuildLobbyState(s);
    assert Decodes(msg);
    hide LinkOk, View, Pushed, Decodes, BuildLobbyState;
    forall p | 0 <= p < |s.sessions| && Accepted(s.sessions[p])
      ensures LinkOk(s.sessions[p], Pushed(s.links[p], p, msg, lost).sent, s.nextMatchId)
    {
      PushKeepsLink(s.sessions[p], s.links[p], p, msg, lost, s.nextMatchId);
    }
  }

  /** A countdown on the wire always has one to three seconds left. */
  lemma CountdownShowsOneToThree(s: Server)
    requires Inv(s) && s.phase.LobbyCountdown?
    ensures BuildLobbyState(s).countdown && 1 <= BuildLobbyState(s).secondsRemaining <= 3
  {
    hide SessionsOk, NoRound, ReadyTogether, AcceptedIds, LobbySeats;
  }

  lemma LobbyIsSynced(s: Server)
    requires LinksOk(s) && (s.phase.Lobby? || s.phase.LobbyCountdown?)
    ensures Synced(s)
  {
  }

  // ----- Back to the lobby -----

  lemma SameLinks(s: Server, t: Server)
    requires LinksOk(s) && t.links == s.links && t.sessions == s.sessions && t.nextMatchId == s.nextMatchId && |t.slots| == |s.slots|
    ensures LinksOk(t)
  {
  }

  lemma CancelStartingSyncs(s: Server, mask: set<nat>, lost: Losses)
    requires LinksOk(s) && BoundOnce(s.sessions) && 1 <= s.matchId < s.nextMatchId
    requires forall p | 0 <= p < |s.sessions| && Accepted(s.sessions[p]) && View(s.links[p].sent).status.Connected?
      && s.sessions[p].value.playerId.value in mask :: View(s.links[p].sent).levelInfo == Some(s.matchId)
    ensures Synced(CancelStarting(s, mask, lost))
  {
    hide LinksOk, View, AllInStep, BoundOnce;
    WhatLinksOkSays(s);
    var told := SendCancelled(s, mask, lost);
    if mask != {} {
      MaskSendKeepsLinks(s, mask, MatchCancelled(s.matchId), lost);
    }
    hide SendCancelled, SendToMask;
    SameLinks(told, ResetToLobby(told));
    BroadcastKeepsLinks(ResetToLobby(told), lost);
    hide ResetToLobby, PushedToAccepted;
    ResetGoesToLobby(told);
    LobbyIsSynced(CancelStarting(s, mask, lost));
  }

  lemma ResetGoesToLobby(s: Server)
    ensures ResetToLobby(s).phase == Lobby && ResetToLobby(s).links == s.links && ResetToLobby(s).sessions == s.sessions
    ensures ResetToLobby(s).nextMatchId == s.nextMatchId && |ResetToLobby(s).slots| == |s.slots|
  {
  }

  // ----- Entering a match -----

  lemma NextMatchKeepsLinks(s: Server, t: Server)
    requires LinksOk(s) && t.links == s.links && t.sessions == s.sessions && t.nextMatchId >= s.nextMatchId && |t.slots| == |s.slots|
    ensures LinksOk(t)
  {
    hide View;
  }

  lemma LevelInfoIsFresh(s: Server, p: nat)
    requires LinksOk(s) && p < |s.sessions| && Accepted(s.sessions[p]) && View(s.links[p].sent).status.Connected? && s.nextMatchId >= 1
    ensures var c := Receive(View(s.links[p].sent), LevelInfo(s.nextMatchId));
      c.levelInfo == Some(s.nextMatchId) && c.matchStart.None? && c.matchResult.None? && c.cancelledMatchId.None? && c.status.Connected?
  {
    hide View;
  }

  /** A level info is always newer than anything the client has, so it is never dropped as stale. */
  lemma BootstrapSyncs(s: Server, lost: Losses)
    requires SessionsOk(s) && LinksOk(s) && s.phase.LobbyCountdown?
    requires s.countdownMask == AcceptedIds(s.sessions) && ReadyTogether(s)
    ensures Synced(BeginMatchBootstrap(s, lost))
  {
    hide LinksOk, AllInStep, View, Receive, Bootstrapped, AllReady, Participants, SlotMissing, SendToMask, ReachedIds, CancelStarting,
         PoolOk, SlotsOk, AcceptedIds, BoundOnce;
    BootstrapRecheckNeverFails(s);
    ParticipantsAreAccepted(s);
    var mask := Participants(s);
    assert Known(mask) == mask;
    var boot := Bootstrapped(s, mask);
    BootstrappedIs(s, mask);
    BootstrappedNext(s, mask);
    NextMatchKeepsLinks(s, boot);
    var msg := LevelInfo(boot.matchId);
    var told := SendToMask(boot, mask, msg, MAX_PLAYERS, lost);
    MaskSendKeepsLinks(boot, mask, msg, lost);
    MaskSends(boot, mask, msg, MAX_PLAYERS, lost);
    var reached := ReachedIds(boot, mask, msg, MAX_PLAYERS, lost);
    ReceivedLevelInfo(s, boot, told, mask, reached, lost);
    var seated := told.(seats := Seated(told.seats, reached));
    SameLinks(told, seated);
    if reached != mask {
      CancelStartingSyncs(seated, reached, lost);
    } else {
      SameLinks(told, seated.(matchMask := reached));
      StartingInStep(seated.(matchMask := reached));
    }
  }

  lemma BootstrappedNext(s: Server, mask: set<nat>)
    ensures Bootstrapped(s, mask).nextMatchId == s.nextMatchId + 1 && |Bootstrapped(s, mask).slots| == |s.slots|
  {
  }

  /** Whoever was reached is now in the new match. */
  lemma ReceivedLevelInfo(s: Server, boot: Server, told: Server, mask: set<nat>, reached: set<nat>, lost: Losses)
    requires LinksOk(s) && s.nextMatchId >= 1 && BoundOnce(s.sessions)
    requires boot.sessions == s.sessions && boot.links == s.links && boot.matchId == s.nextMatchId
    requires |told.links| == |s.sessions| && mask == AcceptedIds(s.sessions)
    requires forall id :: id in reached <==> id in mask && id < MAX_PLAYERS && Reaches(boot, id, lost)
    requires forall p | 0 <= p < |s.sessions| && Accepted(s.sessions[p]) ::
      View(told.links[p].sent) ==
        if s.sessions[p].value.playerId.value in mask && !lost(p, s.links[p].attempts)
        then Receive(View(s.links[p].sent), LevelInfo(s.nextMatchId)) else View(s.links[p].sent)
    ensures forall p | 0 <= p < |s.sessions| && Accepted(s.sessions[p]) && View(told.links[p].sent).status.Connected?
      && s.sessions[p].value.playerId.value in reached ::
        var c := View(told.links[p].sent);
        c.levelInfo == Some(s.nextMatchId) && c.matchStart.None? && c.matchResult.None? && c.cancelledMatchId.None?
  {
    hide LinksOk, AcceptedIds;
    WhatLinksOkSays(s);
    forall p | 0 <= p < |s.sessions| && Accepted(s.sessions[p]) && View(told.links[p].sent).status.Connected?
      && s.sessions[p].value.playerId.value in reached
      ensures var c := View(told.links[p].sent);
        c.levelInfo == Some(s.nextMatchId) && c.matchStart.None? && c.matchResult.None? && c.cancelledMatchId.None?
    {
      ReachedMeansReceived(boot, p, lost);
      hide BoundOnce, Reaches;
      ConnectedBefore(s, p, LevelInfo(s.nextMatchId));
      hide View, Receive;
      LevelInfoIsFresh(s, p);
    }
  }

  /** Only a connected client is connected after a message other than a Welcome. */
  lemma ConnectedBefore(s: Server, p: nat, msg: Control)
    requires p < |s.links| && !msg.Welcome?
    ensures Receive(View(s.links[p].sent), msg).status.Connected? ==> View(s.links[p].sent).status.Connected?
  {
    hide View;
  }

  lemma StartingInStep(s: Server)
    requires LinksOk(s) && s.phase.StartingMatch? && s.matchMask == AcceptedIds(s.sessions)
    requires forall p | 0 <= p < |s.sessions| && Accepted(s.sessions[p]) && View(s.links[p].sent).status.Connected?
      && s.sessions[p].value.playerId.value in s.matchMask ::
        var c := View(s.links[p].sent);
        c.levelInfo == Some(s.matchId) && c.matchStart.None? && c.matchResult.None? && c.cancelledMatchId.None?
    ensures Synced(s)
  {
    hide View, LinkOk;
  }

  lemma BoundIsAccepted(sessions: seq<Option<Session>>, p: nat)
    requires p < |sessions| && Accepted(sessions[p])
    ensures sessions[p].value.playerId.value in AcceptedIds(sessions)
  {
  }

  // ----- Starting the match -----

  lemma CommitSyncs(s: Server, lost: Losses)
    requires SessionsOk(s) && Synced(s) && s.phase.StartingMatch? && InRound(s)
    ensures Synced(MaybeCommit(s, lost))
  {
    hide LinksOk, View, Receive, SendToMask, ReachedIds, CancelStarting, PoolOk, SlotsOk, BoundOnce, AcceptedIds;
    if s.loadedMask == s.matchMask {
      ParticipantsAreAccepted(s);
      assert Known(s.matchMask) == s.matchMask;
      var go := s.serverTick + GO_DELAY_TICKS;
      var msg := MatchStart(s.matchId, go, go);
      var told := SendToMask(s, s.matchMask, msg, MAX_PLAYERS, lost);
      MaskSendKeepsLinks(s, s.matchMask, msg, lost);
      MaskSends(s, s.matchMask, msg, MAX_PLAYERS, lost);
      AfterStart(s, told, go, lost);
      if ReachedIds(s, s.matchMask, msg, MAX_PLAYERS, lost) != s.matchMask {
        CancelStartingSyncs(told, s.matchMask, lost);
      } else {
        var started := told.(phase := InMatch, startDeadlineTick := 0, goShowTick := go, unlockTick := go);
        EverybodyStarted(s, told, started, lost);
      }
    }
  }

  /** A start message moves a client on only if it arrives. */
  lemma AfterStart(s: Server, told: Server, go: nat, lost: Losses)
    requires AllInStep(s) && s.phase.StartingMatch? && |told.links| == |s.sessions| && s.matchId != 0 && go != 0
    requires forall p | 0 <= p < |s.sessions| && Accepted(s.sessions[p]) ::
      View(told.links[p].sent) ==
        if s.sessions[p].value.playerId.value in s.matchMask && !lost(p, s.links[p].attempts)
        then Receive(View(s.links[p].sent), MatchStart(s.matchId, go, go)) else View(s.links[p].sent)
    ensures forall p | 0 <= p < |s.sessions| && Accepted(s.sessions[p]) && View(told.links[p].sent).status.Connected? ::
      var c := View(told.links[p].sent);
      && c.levelInfo == Some(s.matchId) && c.cancelledMatchId.None? && c.matchResult.None?
      && (s.sessions[p].value.playerId.value in s.matchMask && !lost(p, s.links[p].attempts) ==>
            c.matchStart == Some(MatchStart(s.matchId, go, go)))
  {
    forall p | 0 <= p < |s.sessions| && Accepted(s.sessions[p]) && View(told.links[p].sent).status.Connected?
      ensures var c := View(told.links[p].sent);
        && c.levelInfo == Some(s.matchId) && c.cancelledMatchId.None? && c.matchResult.None?
        && (s.sessions[p].value.playerId.value in s.matchMask && !lost(p, s.links[p].attempts) ==>
              c.matchStart == Some(MatchStart(s.matchId, go, go)))
    {
      ConnectedBefore(s, p, MatchStart(s.matchId, go, go));
      hide View;
    }
  }

  lemma EverybodyStarted(s: Server, told: Server, started: Server, lost: Losses)
    requires SessionsOk(s) && InRound(s) && LinksOk(told) && |told.links| == |s.links| == |s.sessions| && told.sessions == s.sessions
    requires started == told.(phase := InMatch, startDeadlineTick := 0, goShowTick := started.goShowTick, unlockTick := started.unlockTick)
    requires told.matchId == s.matchId
    requires forall id | id in s.matchMask :: Reaches(s, id, lost)
    requires forall p | 0 <= p < |s.sessions| && Accepted(s.sessions[p]) && View(told.links[p].sent).status.Connected? ::
      var c := View(told.links[p].sent);
      && c.levelInfo == Some(s.matchId) && c.cancelledMatchId.None? && c.matchResult.None?
      && (s.sessions[p].value.playerId.value in s.matchMask && !lost(p, s.links[p].attempts) ==>
            c.matchStart == Some(MatchStart(s.matchId, started.goShowTick, started.goShowTick)))
    ensures Synced(started)
  {
    hide View, LinksOk, PoolOk, SlotsOk;
    SameLinks(told, started);
    forall p | 0 <= p < |s.sessions| && Accepted(s.sessions[p]) && View(started.links[p].sent).status.Connected?
      ensures InStep(started, View(started.links[p].sent))
    {
      BoundIsAccepted(s.sessions, p);
      ReachedMeansReceived(s, p, lost);
    }
    WhatLinksOkSays(told);
  }

  lemma WhatLinksOkSays(s: Server)
    requires LinksOk(s)
    ensures |s.links| == |s.sessions|
  {
  }

  // ----- The end of a match -----

  lemma ResultKeepsStep(s: Server, c: Client, msg: Control)
    requires c.status.Connected? && s.phase.InMatch? && InStep(s, c) && s.matchId != 0
    requires msg.MatchResult? && msg.matchId == s.matchId && Decodes(msg)
    ensures Receive(c, msg).matchResult == Some(msg) && Receive(c, msg).levelInfo == Some(s.matchId)
    ensures Receive(c, msg).cancelledMatchId.None? && Receive(c, msg).matchStart.Some?
  {
  }

  lemma EndSyncs(s: Server, winner: Option<nat>, draw: bool, lost: Losses)
    requires Synced(s) && BoundOnce(s.sessions) && s.phase.InMatch? && 1 <= s.matchId < s.nextMatchId
    requires winner.Some? ==> winner.value < MAX_PLAYERS
    requires draw <==> winner.None?
    ensures Synced(BeginEndOfMatch(s, winner, draw, lost))
  {
    hide LinksOk, View, Receive, AllInStep, BoundOnce, InStep, Decodes;
    WhatLinksOkSays(s);
    var ended := s.(phase := EndOfMatch, winner := winner, draw := draw, goShowTick := 0, unlockTick := 0,
                    returnTick := s.serverTick + RETURN_TICKS,
                    slots := Credited(s.slots, winner), seats := LockedSeats(s.seats, true),
                    results := s.results + [RoundResult(s.matchId, winner, AliveIds(s.seats))]);
    SameLinks(s, ended);
    if s.matchMask == {} {
      StillInStep(s, ended);
    } else {
      var msg := BuildMatchResult(ended);
      ResultDecodes(ended);
      MaskSendKeepsLinks(ended, s.matchMask, msg, lost);
      ResultsShown(s, ended, SendToMask(ended, s.matchMask, msg, MAX_PLAYERS, lost), msg, lost);
    }
  }

  lemma ResultDecodes(s: Server)
    requires s.matchId != 0 && (s.winner.Some? ==> s.winner.value < MAX_PLAYERS) && (s.draw <==> s.winner.None?)
    ensures Decodes(BuildMatchResult(s)) && BuildMatchResult(s).MatchResult?
    ensures BuildMatchResult(s).matchId == s.matchId && BuildMatchResult(s).winner == s.winner
  {
  }

  lemma StillInStep(s: Server, ended: Server)
    requires AllInStep(s) && s.phase.InMatch? && ended.phase.EndOfMatch? && ended.matchId == s.matchId
    requires ended.links == s.links && ended.sessions == s.sessions
    ensures AllInStep(ended)
  {
    hide View;
  }

  lemma ResultsShown(s: Server, ended: Server, told: Server, msg: Control, lost: Losses)
    requires AllInStep(s) && s.phase.InMatch? && s.matchId != 0 && ended.matchId == s.matchId
    requires ended.links == s.links && ended.sessions == s.sessions && ended.phase.EndOfMatch?
    requires told == ended.(links := told.links) && |told.links| == |s.links|
    requires msg.MatchResult? && msg.matchId == s.matchId && Decodes(msg) && msg.winner == ended.winner
    requires forall p | 0 <= p < |s.sessions| && Accepted(s.sessions[p]) ::
      View(told.links[p].sent) ==
        if s.sessions[p].value.playerId.value in s.matchMask && !lost(p, s.links[p].attempts)
        then Receive(View(s.links[p].sent), msg) else View(s.links[p].sent)
    ensures AllInStep(told)
  {
    hide Decodes;
    forall p | 0 <= p < |s.sessions| && Accepted(s.sessions[p]) && View(told.links[p].sent).status.Connected?
      ensures InStep(told, View(told.links[p].sent))
    {
      ConnectedBefore(s, p, msg);
      hide View, Receive;
      if s.sessions[p].value.playerId.value in s.matchMask && !lost(p, s.links[p].attempts) {
        ResultKeepsStep(s, View(s.links[p].sent), msg);
      }
    }
  }

  lemma EndIfDecidedSyncs(s: Server, lost: Losses)
    requires Synced(s) && BoundOnce(s.sessions) && s.phase.InMatch? && 1 <= s.matchId < s.nextMatchId && |s.seats| == MAX_PLAYERS
    ensures |s.links| == |s.sessions| && Synced(EndIfDecided(s, lost))
  {
    hide Synced, BoundOnce, BeginEndOfMatch, AnySeat, LastAlive;
    SyncedSizes(s);
    LastAliveIsAlive(s.seats);
    var alive := AliveIds(s.seats);
    assert |alive| == 0 <==> alive == {};
    if |alive| <= 1 {
      EndSyncsEither(s, if |alive| == 1 then LastAlive(s.seats) else None, alive == {}, lost);
    }
  }

  lemma SyncedSizes(s: Server)
    requires Synced(s)
    ensures |s.links| == |s.sessions|
  {
  }

  lemma EndSyncsEither(s: Server, winner: Option<nat>, draw: bool, lost: Losses)
    requires Synced(s) && BoundOnce(s.sessions) && s.phase.InMatch? && 1 <= s.matchId < s.nextMatchId
    requires winner.Some? ==> winner.value < MAX_PLAYERS
    requires draw <==> winner.None?
    ensures |s.links| == |s.sessions| && Synced(BeginEndOfMatch(s, winner, draw, lost))
  {
    hide Synced;
    SyncedSizes(s);
    EndSyncs(s, winner, draw, lost);
  }

  // ----- Events -----

  lemma ConnectSyncs(s: Server, p: nat)
    requires Synced(s) && p < |s.sessions| && s.sessions[p].None?
    ensures Synced(Connect(s, p))
  {
    hide View;
  }

  /** Removing a session leaves the other clients where they are. */
  lemma UnbindSyncs(s: Server, t: Server, p: nat)
    requires Synced(s) && p < |s.sessions| && t.sessions == s.sessions[p := None] && t.links == s.links
    requires t.phase == s.phase && t.matchId == s.matchId && t.nextMatchId == s.nextMatchId && t.goShowTick == s.goShowTick && t.winner == s.winner
    requires |t.slots| == |s.slots|
    ensures Synced(t)
  {
    hide View;
  }

  lemma SameFlowSyncs(s: Server, t: Server)
    requires Synced(s) && t.sessions == s.sessions && t.links == s.links
    requires t.phase == s.phase && t.matchId == s.matchId && t.nextMatchId == s.nextMatchId && t.goShowTick == s.goShowTick && t.winner == s.winner
    requires |t.slots| == |s.slots|
    ensures Synced(t)
  {
    hide View;
  }

  lemma ResetUnreadySyncs(s: Server, lost: Losses)
    requires LinksOk(s)
    ensures |s.links| == |s.sessions| && Synced(ResetUnready(s, lost))
  {
    hide LinksOk, PushedToAccepted;
    WhatLinksOkSays(s);
    var t := ClearReady(ClearCountdown(s.(phase := Lobby)));
    SameLinks(s, t);
    BroadcastKeepsLinks(t, lost);
    LobbyIsSynced(ResetUnready(s, lost));
  }

  lemma ResetSyncs(s: Server)
    requires LinksOk(s)
    ensures Synced(ResetToLobby(s))
  {
    hide LinksOk, ResetToLobby, AllInStep;
    ResetGoesToLobby(s);
    SameLinks(s, ResetToLobby(s));
    LobbyIsSynced(ResetToLobby(s));
  }

  lemma CancelFromStarting(s: Server, mask: set<nat>, lost: Losses)
    requires Synced(s) && BoundOnce(s.sessions) && s.phase.StartingMatch? && 1 <= s.matchId < s.nextMatchId
    ensures |s.links| == |s.sessions| && Synced(CancelStarting(s, mask, lost))
  {
    hide LinksOk, View, BoundOnce, CancelStarting;
    CancelStartingSyncs(s, mask, lost);
  }

  lemma ReleasedSyncs(s: Server, id: nat, lost: Losses)
    requires Synced(s) && BoundOnce(s.sessions) && |s.seats| == MAX_PLAYERS
    requires !s.phase.Lobby? && !s.phase.LobbyCountdown? ==> 1 <= s.matchId < s.nextMatchId
    ensures |s.links| == |s.sessions| && Synced(HandleReleased(s, id, lost))
  {
    hide LinksOk, AllInStep, BoundOnce, CancelStarting, ResetUnready, ResetToLobby, EndIfDecided;
    SyncedSizes(s);
    var left := s.(countdownMask := s.countdownMask - {id}, matchMask := s.matchMask - {id}, loadedMask := s.loadedMask - {id});
    SameFlowSyncs(s, left);
    match s.phase
    case Lobby => ResetUnreadySyncs(left, lost);
    case LobbyCountdown => ResetUnreadySyncs(left, lost);
    case StartingMatch => CancelFromStarting(left, left.matchMask, lost);
    case InMatch =>
      ResetSyncs(left);
      EndIfDecidedSyncs(left, lost);
    case EndOfMatch =>
      ResetSyncs(left);
      NothingToEnd(left, lost);
  }

  lemma RoundHasId(s: Server)
    requires Inv(s)
    ensures !s.phase.Lobby? && !s.phase.LobbyCountdown? ==> 1 <= s.matchId < s.nextMatchId
    ensures BoundOnce(s.sessions) && SessionsOk(s) && s.nextMatchId >= 1
    ensures s.phase.StartingMatch? ==> InRound(s)
    ensures s.phase.LobbyCountdown? ==> s.countdownMask == AcceptedIds(s.sessions) && ReadyTogether(s) && s.serverTick < s.countdownDeadlineTick
  {
  }

  lemma DisconnectSyncs(s: Server, p: nat, lost: Losses)
    requires Inv(s) && Synced(s) && p < |s.sessions|
    ensures |s.links| == |s.sessions| && Synced(Disconnect(s, p, lost))
  {
    hide SessionsOk, PhaseOk, Synced, HandleReleased, BoundOnce, Release;
    InvSizes(s);
    RoundHasId(s);
    if Accepted(s.sessions[p]) {
      BoundIdExists(s, p);
      UnbindingAnId(s.sessions, p);
      var id := s.sessions[p].value.playerId.value;
      var freed := s.(sessions := s.sessions[p := None],
        reclaims := s.reclaims[id := Some(Reclaim(s.slots[id].value.name, s.slots[id].value.wins))],
        seats := s.seats[id := None], slots := s.slots[id := None], pool := Release(s.pool, id));
      UnbindSyncs(s, freed, p);
      ReleasedSyncs(freed, id, lost);
    } else {
      UnbindSyncs(s, s.(sessions := s.sessions[p := None]), p);
    }
  }

  lemma {:induction false} RejectsOnly(sent: seq<Control>)
    requires AllRejects(sent)
    ensures View(sent) == if sent == [] then FRESH_CLIENT else FRESH_CLIENT.(status := Status.Failed)
    decreases |sent|
  {
    if sent != [] {
      RejectsOnly(sent[..|sent| - 1]);
    }
  }

  /** The first message of an admitted peer is its Welcome, or an earlier rejection it has failed on. */
  lemma WelcomeIsFirst(sent: seq<Control>, id: nat, next: nat)
    requires AllRejects(sent) && id < 4
    ensures LinkOk(Some(Session(Some(id))), sent + [Welcome(id)], next)
  {
    RejectsOnly(sent);
    ViewOfOneMore(sent, Welcome(id));
    hide View;
    assert sent == [] ==> View(sent + [Welcome(id)]) == FRESH_CLIENT.(status := Connected, playerId := Some(id));
    assert sent != [] ==> (sent + [Welcome(id)])[0].Reject?;
  }

  lemma RejectedAgain(slot: Option<Session>, sent: seq<Control>, next: nat)
    requires LinkOk(slot, sent, next) && slot.Some? && !Accepted(slot)
    ensures forall reason :: LinkOk(slot, sent + [Reject(reason)], next)
  {
    hide View;
  }

  /** A reply to a peer that is not admitted. */
  lemma RejectSyncs(s: Server, p: nat, reason: RejectReason, lost: Losses)
    requires Synced(s) && p < |s.sessions| && s.sessions[p].Some? && !Accepted(s.sessions[p])
    ensures |s.links| == |s.sessions| && Synced(SendTo(s, p, Reject(reason), lost))
  {
    hide View;
    RejectedAgain(s.sessions[p], s.links[p].sent, s.nextMatchId);
  }

  lemma WelcomeAgain(c: Client, id: nat)
    requires c.status.Connected?
    ensures Receive(c, Welcome(id)) == c
  {
  }

  lemma ReplaySyncs(s: Server, p: nat, lost: Losses)
    requires Synced(s) && p < |s.sessions| && Accepted(s.sessions[p]) && s.sessions[p].value.playerId.value < 4
    ensures |s.links| == |s.sessions| && Synced(SendTo(s, p, Welcome(s.sessions[p].value.playerId.value), lost))
  {
    var id, l := s.sessions[p].value.playerId.value, s.links[p];
    PushKeepsLink(s.sessions[p], l, p, Welcome(id), lost, s.nextMatchId);
    if View(l.sent).status.Connected? {
      WelcomeAgain(View(l.sent), id);
    } else {
      FailedStays(View(l.sent), Welcome(id));
    }
    hide View, Pushed, Receive;
  }

  lemma FailedStays(c: Client, msg: Control)
    requires c.status.Failed?
    ensures Receive(c, msg) == c
  {
  }

  lemma AdmitSyncs(s: Server, p: nat, id: nat, name: Name, wins: nat, lost: Losses)
    requires LinksOk(s) && p < |s.sessions| && id < MAX_PLAYERS && |s.slots| == MAX_PLAYERS && |s.reclaims| == MAX_PLAYERS
    requires s.phase.Lobby? || s.phase.LobbyCountdown?
    requires s.sessions[p].Some? && !Accepted(s.sessions[p]) && !lost(p, s.links[p].attempts)
    ensures |s.links| == |s.sessions|
    ensures Synced(HandleJoined(Accept(SendTo(s, p, Welcome(id), lost), p, id, name, wins), lost))
  {
    WelcomeIsFirst(s.links[p].sent, id, s.nextMatchId);
    var t := Accept(SendTo(s, p, Welcome(id), lost), p, id, name, wins);
    assert LinksOk(t) by {
      hide View;
    }
    hide LinksOk, Accept, ResetUnready;
    AcceptKeepsPhase(SendTo(s, p, Welcome(id), lost), p, id, name, wins);
    ResetUnreadySyncs(t, lost);
  }

  lemma AcceptKeepsPhase(s: Server, p: nat, id: nat, name: Name, wins: nat)
    requires p < |s.sessions| && id < |s.slots| && id < |s.reclaims|
    ensures Accept(s, p, id, name, wins).phase == s.phase && |Accept(s, p, id, name, wins).sessions| == |s.sessions|
    ensures Accept(s, p, id, name, wins).links == s.links
  {
  }

  lemma HelloSyncs(s: Server, p: nat, name: Name, versionMatches: bool, lost: Losses)
    requires Inv(s) && Synced(s) && p < |s.sessions| && s.sessions[p].Some?
    ensures |s.links| == |s.sessions| && Synced(Hello(s, p, name, versionMatches, lost))
  {
    hide SessionsOk, PhaseOk, Synced, HandleJoined, Accept, Reserve, Release, Remove, SendTo;
    InvSizes(s);
    RoundHasId(s);
    if Accepted(s.sessions[p]) {
      BoundIdExists(s, p);
      ReplaySyncs(s, p, lost);
    } else {
      forall reason ensures Synced(SendTo(s, p, Reject(reason), lost)) {
        RejectSyncs(s, p, reason, lost);
      }
      if versionMatches && (s.phase.Lobby? || s.phase.LobbyCountdown?) && Reserve(s, name).Some? {
        AdmissionSyncs(s, p, name, lost);
      }
    }
  }

  lemma AdmissionSyncs(s: Server, p: nat, name: Name, lost: Losses)
    requires Inv(s) && Synced(s) && p < |s.sessions| && s.sessions[p].Some? && !Accepted(s.sessions[p])
    requires (s.phase.Lobby? || s.phase.LobbyCountdown?) && Reserve(s, name).Some? && |s.links| == |s.sessions|
    ensures Synced(Hello(s, p, name, true, lost))
  {
    hide SessionsOk, PhaseOk, HandleJoined, Accept, Reserve, Release, Remove, SendTo, LinksOk, AllInStep;
    InvSizes(s);
    RoundHasId(s);
    ReservedIsFree(s, name);
    var id, wins := Reserve(s, name).value.0, Reserve(s, name).value.1;
    var taken := s.(pool := Remove(s.pool, id));
    SameFlowSyncs(s, taken);
    if !lost(p, s.links[p].attempts) {
      AdmitSyncs(taken, p, id, name, wins, lost);
    } else {
      var welcomed := SendTo(taken, p, Welcome(id), lost);
      LostIsSilent(taken, p, Welcome(id), lost);
      var given := welcomed.(pool := Release(welcomed.pool, id));
      LostKeepsSync(taken, given, p);
      RejectSyncs(given, p, Other, lost);
    }
  }

  lemma LostIsSilent(s: Server, p: nat, msg: Control, lost: Losses)
    requires p < |s.links| && lost(p, s.links[p].attempts)
    ensures SendTo(s, p, msg, lost) == s.(links := s.links[p := s.links[p].(attempts := s.links[p].attempts + 1)])
  {
  }

  lemma LostKeepsSync(s: Server, t: Server, p: nat)
    requires Synced(s) && p < |s.links| && t.sessions == s.sessions
    requires t.links == s.links[p := s.links[p].(attempts := s.links[p].attempts + 1)]
    requires t.phase == s.phase && t.matchId == s.matchId && t.nextMatchId == s.nextMatchId && t.goShowTick == s.goShowTick && t.winner == s.winner
    requires |t.slots| == |s.slots|
    ensures Synced(t)
  {
    hide View;
  }

  lemma LobbyBroadcastSyncs(s: Server, lost: Losses)
    requires LinksOk(s) && (s.phase.Lobby? || (s.phase.LobbyCountdown? && s.serverTick < s.countdownDeadlineTick))
    ensures |s.links| == |s.sessions| && Synced(BroadcastLobbyState(s, lost))
  {
    WhatLinksOkSays(s);
    hide LinksOk, AllInStep;
    BroadcastKeepsLinks(s, lost);
    LobbyIsSynced(BroadcastLobbyState(s, lost));
  }

  lemma LobbyReadySyncs(s: Server, p: nat, ready: bool, lost: Losses)
    requires Inv(s) && Synced(s) && p < |s.sessions|
    ensures |s.links| == |s.sessions| && Synced(LobbyReady(s, p, ready, lost))
  {
    hide SessionsOk, PhaseOk, LinksOk, AllInStep, PushedToAccepted, AllReady, Participants, BroadcastLobbyState, ReadyTogether;
    InvSizes(s);
    RoundHasId(s);
    if (s.phase.Lobby? || s.phase.LobbyCountdown?) && Accepted(s.sessions[p]) {
      BoundIdExists(s, p);
      var id := s.sessions[p].value.playerId.value;
      var flipped := s.(slots := s.slots[id := Some(s.slots[id].value.(ready := ready))]);
      SameLinks(s, flipped);
      var idle := ClearCountdown(flipped.(phase := Lobby));
      SameLinks(s, idle);
      LobbyBroadcastSyncs(idle, lost);
      LobbyBroadcastSyncs(flipped, lost);
      var armed := flipped.(phase := LobbyCountdown, countdownMask := Participants(flipped),
                            countdownDeadlineTick := s.serverTick + LOBBY_COUNTDOWN_TICKS);
      var shown := armed.(countdownLastBroadcastSecond := CountdownSeconds(armed));
      SameLinks(s, shown);
      LobbyBroadcastSyncs(shown, lost);
    }
  }

  lemma MatchLoadedSyncs(s: Server, p: nat, matchId: nat, lost: Losses)
    requires Inv(s) && Synced(s) && p < |s.sessions|
    ensures |s.links| == |s.sessions| && Synced(MatchLoaded(s, p, matchId, lost))
  {
    hide SessionsOk, PhaseOk, Synced, MaybeCommit, InRound;
    InvSizes(s);
    RoundHasId(s);
    if s.phase.StartingMatch? && Accepted(s.sessions[p]) {
      var id := s.sessions[p].value.playerId.value;
      var loaded := s.(loadedMask := s.loadedMask + {id});
      SameFlowSyncs(s, loaded);
      if id in s.matchMask {
        LoadedInRound(s, id);
        CommitSyncs(loaded, lost);
      }
    }
  }

  lemma LoadedInRound(s: Server, id: nat)
    requires SessionsOk(s) && InRound(s) && id in s.matchMask
    ensures SessionsOk(s.(loadedMask := s.loadedMask + {id})) && InRound(s.(loadedMask := s.loadedMask + {id}))
  {
    hide PoolOk, SlotsOk, BoundOnce;
  }

  lemma AdvanceSyncs(s: Server, lost: Losses)
    requires Inv(s) && Synced(s)
    ensures |s.links| == |s.sessions| && Synced(Advance(s.(serverTick := s.serverTick + 1), lost))
  {
    hide SessionsOk, PhaseOk, LinksOk, AllInStep, BeginMatchBootstrap, CancelStarting, ResetToLobby, BroadcastLobbyState, BoundOnce, ReadyTogether, InRound;
    InvSizes(s);
    RoundHasId(s);
    var t := s.(serverTick := s.serverTick + 1);
    SameFlowSyncs(s, t);
    LaterSessions(s);
    match s.phase
    case Lobby =>
    case LobbyCountdown =>
      if t.serverTick >= t.countdownDeadlineTick {
        BootstrapSyncs(t, lost);
      } else {
        var shown := t.(countdownLastBroadcastSecond := CountdownSeconds(t));
        SameLinks(t, shown);
        LobbyBroadcastSyncs(shown, lost);
      }
    case StartingMatch => CancelFromStarting(t, t.matchMask, lost);
    case InMatch => SameFlowSyncs(t, t.(seats := LockedSeats(t.seats, false), unlockTick := 0));
    case EndOfMatch =>
      ResetSyncs(t);
      ResetGoesToLobby(t);
      LobbyBroadcastSyncs(ResetToLobby(t), lost);
  }

  lemma LaterSessions(s: Server)
    requires SessionsOk(s) && (s.phase.LobbyCountdown? ==> ReadyTogether(s))
    ensures SessionsOk(s.(serverTick := s.serverTick + 1))
    ensures s.phase.LobbyCountdown? ==> ReadyTogether(s.(serverTick := s.serverTick + 1))
  {
    hide PoolOk, SlotsOk, BoundOnce;
  }

  lemma TickSyncs(s: Server, killed: set<nat>, lost: Losses)
    requires Inv(s) && Synced(s)
    ensures |s.links| == |s.sessions| && Synced(ServerTick(s, killed, lost))
  {
    hide Inv, Synced, Advance, EndIfDecided, BoundOnce, Killed;
    InvSizes(s);
    AdvanceSyncs(s, lost);
    AdvanceHolds(s, lost);
    var advanced := Advance(s.(serverTick := s.serverTick + 1), lost);
    InvSizes(advanced);
    RoundHasId(advanced);
    if advanced.phase.InMatch? {
      var hit := advanced.(seats := Killed(advanced.seats, killed));
      KilledSize(advanced.seats, killed);
      SameFlowSyncs(advanced, hit);
      EndIfDecidedSyncs(hit, lost);
    }
  }

  lemma KilledSize(seats: seq<Option<Seat>>, killed: set<nat>)
    ensures |Killed(seats, killed)| == |seats|
  {
  }

  lemma StepSyncs(s: Server, e: Event, lost: Losses)
    requires Inv(s) && Synced(s)
    ensures Synced(Step(s, e, lost))
  {
    hide Inv, Synced, Connect, Hello, LobbyReady, MatchLoaded, Disconnect, ServerTick;
    InvSizes(s);
    if Enabled(s, e) {
      match e
      case EvConnect(p) => ConnectSyncs(s, p);
      case EvHello(p, name, versionMatches) => HelloSyncs(s, p, name, versionMatches, lost);
      case EvLobbyReady(p, ready) => LobbyReadySyncs(s, p, ready, lost);
      case EvMatchLoaded(p, matchId) => MatchLoadedSyncs(s, p, matchId, lost);
      case EvDisconnect(p) => DisconnectSyncs(s, p, lost);
      case EvTick(killed) => TickSyncs(s, killed, lost);
    }
  }

  lemma StartIsSynced()
    ensures Synced(Start())
  {
  }

  /**
   * Over every run and every pattern of failed sends, each accepted client that has drained its queue is
   * connected under its own id and in step with the server, unless the server had rejected it before.
   */
  lemma {:induction false} EveryClientIsInStep(events: seq<Event>, lost: Losses)
    ensures Synced(Run(events, lost))
    decreases |events|
  {
    hide Inv, Synced, Step;
    if events == [] {
      StartIsSynced();
    } else {
      var n := |events| - 1;
      EveryClientIsInStep(events[..n], lost);
      EveryRunHolds(events[..n], lost);
      StepSyncs(Run(events[..n], lost), events[n], lost);
    }
  }

  // ----- Cancellations reach the client -----

  /**
   * A cancelled start: every client whose cancel message was not lost reports exactly that match as cancelled
   * afterwards, whether or not the lobby state sent right behind it arrives.
   */
  lemma CancelReachesTheClient(s: Server, mask: set<nat>, lost: Losses, p: nat)
    requires Inv(s) && Synced(s) && s.phase.StartingMatch? && p < |s.sessions| && Accepted(s.sessions[p])
    requires s.sessions[p].value.playerId.value in mask && |s.links| == |s.sessions| && !lost(p, s.links[p].attempts)
    requires View(s.links[p].sent).status.Connected?
    ensures |CancelStarting(s, mask, lost).links| == |s.links|
    ensures var c := View(CancelStarting(s, mask, lost).links[p].sent);
      c.cancelledMatchId == Some(s.matchId) && c.levelInfo.None?
  {
    hide SessionsOk, PhaseOk, LinksOk, View, Receive, BuildLobbyState, BoundOnce, InRound, ResetToLobby, SendToMask;
    RoundHasId(s);
    var told := SendCancelled(s, mask, lost);
    AllActive(s);
    MaskSendKeepsLinks(s, mask, MatchCancelled(s.matchId), lost);
    assert mask != {} && told == SendToMask(s, mask, MatchCancelled(s.matchId), MAX_PLAYERS, lost);
    assert View(told.links[p].sent) == Receive(View(s.links[p].sent), MatchCancelled(s.matchId));
    CancelIsReported(View(s.links[p].sent), s.matchId);
    ResetGoesToLobby(told);
    var reset := ResetToLobby(told);
    BroadcastIsOneMore(reset, p, lost);
    ViewOfOneMore(reset.links[p].sent, BuildLobbyState(reset));
    LobbyKeepsTheReport(View(told.links[p].sent), s.matchId, BuildLobbyState(reset));
  }

  lemma AllActive(s: Server)
    requires AllInStep(s) && s.phase.StartingMatch?
    ensures forall p | 0 <= p < |s.sessions| && Accepted(s.sessions[p]) && View(s.links[p].sent).status.Connected? ::
      View(s.links[p].sent).levelInfo == Some(s.matchId) && View(s.links[p].sent).cancelledMatchId.None?
  {
    hide View;
  }

  lemma BroadcastIsOneMore(s: Server, p: nat, lost: Losses)
    requires |s.links| == |s.sessions| && p < |s.sessions| && Accepted(s.sessions[p])
    ensures BroadcastLobbyState(s, lost).links[p].sent ==
      if lost(p, s.links[p].attempts) then s.links[p].sent else s.links[p].sent + [BuildLobbyState(s)]
  {
    hide BuildLobbyState;
  }

  lemma LobbyKeepsTheReport(c: Client, m: nat, msg: Control)
    requires c.cancelledMatchId == Some(m) && c.levelInfo.None? && msg.LobbyState? && c.status.Connected?
    ensures Receive(c, msg).cancelledMatchId == Some(m) && Receive(c, msg).levelInfo.None?
  {
  }

  // ----- The handshake -----

  lemma {:induction false} WrongStartFails(sent: seq<Control>)
    requires sent != [] && !sent[0].Welcome?
    ensures View(sent).status.Failed?
    decreases |sent|
  {
    var n := |sent| - 1;
    if n > 0 {
      WrongStartFails(sent[..n]);
    } else {
      assert View(sent[..0]) == FRESH_CLIENT;
    }
  }

  /** With FIFO delivery the first control message any peer sees is a Welcome or a Reject, so no handshake fails on ordering. */
  lemma HandshakeNeverFailsOnOrder(events: seq<Event>, lost: Losses, p: nat)
    requires p < PEER_CAPACITY
    ensures var s := Run(events, lost);
      && |s.sessions| == |s.links| == PEER_CAPACITY
      && (s.sessions[p].Some? && s.links[p].sent != [] ==> IsHandshakeControlMessage(s.links[p].sent[0]))
  {
    EveryRunHolds(events, lost);
    EveryClientIsInStep(events, lost);
    hide Run;
    var s := Run(events, lost);
    InvSizes(s);
    hide Inv, AllInStep;
    assert LinkOk(s.sessions[p], s.links[p].sent, s.nextMatchId);
    if Accepted(s.sessions[p]) && s.links[p].sent != [] && !s.links[p].sent[0].Welcome? {
      WrongStartFails(s.links[p].sent);
    }
  }
}
