/**
 * What every event of the session and match flow leads to: when a countdown, a match start, a match and its end
 * come about, and when they do not (Server/ServerLobbyFlow.cpp, Server/ServerFlow.cpp, Server/ServerControlHandlers.cpp).
 */
module FlowProgress {
  import opened Config
  import opened Wrappers
  import opened ClientFlow
  import opened Flow
  import opened FlowInv
  import FlowLinks

  /** Peer p's session is bound to a player id. */
  predicate HasId(s: Server, p: int, id: nat) {
    0 <= p < |s.sessions| && s.sessions[p] == Some(Session(Some(id)))
  }

  ghost predicate IsMember(s: Server, id: nat) {
    exists p :: HasId(s, p, id)
  }

  /** The player ids some session is bound to. */
  ghost function Members(s: Server): set<nat> {
    set id: nat | id < 4 && IsMember(s, id)
  }

  ghost predicate EveryoneReady(s: Server, slots: seq<Option<PlayerSlot>>) {
    forall id | id in Members(s) :: id < |slots| && slots[id].Some? && slots[id].value.ready
  }

  /** The next send to each member would be queued. */
  ghost predicate Heard(s: Server, lost: Losses) {
    forall p, id | HasId(s, p, id) && p < |s.links| :: !lost(p, s.links[p].attempts)
  }

  /** Every member was sent the message, and nobody else anything. */
  ghost predicate Told(s: Server, t: Server, msg: Control) {
    && |s.links| == |s.sessions| && |t.links| == |s.links|
    && forall p | 0 <= p < |s.links| ::
         t.links[p].sent == if exists id :: HasId(s, p, id) then s.links[p].sent + [msg] else s.links[p].sent
  }

  lemma MembersAreAccepted(s: Server)
    requires Inv(s)
    ensures Members(s) == AcceptedIds(s.sessions)
    ensures forall id: nat | id < 4 :: s.slots[id].Some? <==> id in Members(s)
    ensures |s.slots| == 4 && |s.links| == |s.sessions|
  {
    InvSizes(s);
    SessionsOfInv(s);
    hide Inv;
    AcceptedMembers(s);
  }

  lemma AcceptedMembers(s: Server)
    requires SessionsOk(s)
    ensures Members(s) == AcceptedIds(s.sessions)
  {
    forall id: nat ensures id in Members(s) <==> id in AcceptedIds(s.sessions) {
      if id in AcceptedIds(s.sessions) {
        var p :| 0 <= p < |s.sessions| && Accepted(s.sessions[p]) && s.sessions[p].value.playerId.value == id;
        assert HasId(s, p, id);
      }
      if id in Members(s) {
        var p :| HasId(s, p, id);
        assert Accepted(s.sessions[p]);
      }
    }
  }

  lemma SessionsOfInv(s: Server)
    requires Inv(s)
    ensures SessionsOk(s)
  {
  }

  // ----- Readiness -----

  /** A ready message changes something only for a member in the lobby phases whose readiness it flips. */
  predicate Flips(s: Server, p: nat, ready: bool) {
    && (s.phase == Lobby || s.phase == LobbyCountdown)
    && p < |s.sessions| && s.sessions[p].Some? && s.sessions[p].value.playerId.Some?
    && var id := s.sessions[p].value.playerId.value; id < |s.slots| && s.slots[id].Some? && s.slots[id].value.ready != ready
  }

  ghost predicate ReadyOutcome(s: Server, t: Server, p: nat, ready: bool) {
    if !Flips(s, p, ready) then t == s
    else
      var id := s.sessions[p].value.playerId.value;
      && t.slots == s.slots[id := Some(s.slots[id].value.(ready := ready))]
      && t.sessions == s.sessions && t.serverTick == s.serverTick
      && if s.phase == Lobby && EveryoneReady(s, t.slots) && |Members(s)| >= 2 then
           t.phase == LobbyCountdown && t.countdownMask == Members(s) && t.countdownDeadlineTick == s.serverTick + 180
         else
           t.phase == Lobby && t.countdownMask == {} && t.countdownDeadlineTick == 0
  }

  lemma ReadyOf(s: Server, p: nat, ready: bool, lost: Losses)
    requires Inv(s) && p < |s.sessions|
    ensures |s.links| == |s.sessions| && ReadyOutcome(s, LobbyReady(s, p, ready, lost), p, ready)
  {
    MembersAreAccepted(s);
    if Flips(s, p, ready) {
      var id := s.sessions[p].value.playerId.value;
      var flipped := s.(slots := s.slots[id := Some(s.slots[id].value.(ready := ready))]);
      FlippedReady(s, p, id, ready);
      CountdownWasReady(s);
      hide Inv, AcceptedIds, Members, EveryoneReady, AllReady, Participants, BuildLobbyState, PushedToAccepted;
    }
  }

  lemma CountdownWasReady(s: Server)
    requires Inv(s)
    ensures s.phase == LobbyCountdown ==> EveryoneReady(s, s.slots) && s.countdownMask == AcceptedIds(s.sessions)
    ensures s.phase == Lobby ==> s.countdownMask == {} && s.countdownDeadlineTick == 0
  {
    MembersAreAccepted(s);
  }

  lemma FlippedReady(s: Server, p: nat, id: nat, ready: bool)
    requires Inv(s) && p < |s.sessions| && s.sessions[p] == Some(Session(Some(id)))
    requires id < |s.slots| && s.slots[id].Some?
    ensures var f := s.(slots := s.slots[id := Some(s.slots[id].value.(ready := ready))]);
      && Participants(f) == Members(s) && (AllReady(f) <==> EveryoneReady(s, f.slots))
      && (!ready ==> !EveryoneReady(s, f.slots))
  {
    MembersAreAccepted(s);
    assert HasId(s, p, id);
    var f := s.(slots := s.slots[id := Some(s.slots[id].value.(ready := ready))]);
    assert AcceptedIds(f.sessions) == AcceptedIds(s.sessions);
  }

  // ----- The countdown runs out -----

  /** The bootstrap: with every level info queued, a loading match of all members; with one lost, the lobby. */
  ghost predicate BootOutcome(s: Server, b: Server, lost: Losses) {
    && b.serverTick == s.serverTick + 1 && b.sessions == s.sessions
    && if Heard(s, lost) then
         && b.phase == StartingMatch && b.matchId == s.nextMatchId && b.nextMatchId == s.nextMatchId + 1
         && b.matchMask == Members(s) && b.loadedMask == {} && b.startDeadlineTick == b.serverTick + 300
         && |b.seats| == 4
         && (forall id: nat | id < 4 :: b.seats[id] == if id in Members(s) then Some(Seat(true, true)) else None)
         && Told(s, b, LevelInfo(b.matchId))
       else
         b.phase == Lobby && b.matchId == 0 && forall id | 0 <= id < |b.seats| :: b.seats[id].None?
  }

  ghost predicate CountdownOutcome(s: Server, t: Server, lost: Losses) {
    if s.serverTick + 1 < s.countdownDeadlineTick then
      && t.phase == LobbyCountdown && t.serverTick == s.serverTick + 1 && t.sessions == s.sessions && t.slots == s.slots
      && t.countdownMask == s.countdownMask && t.countdownDeadlineTick == s.countdownDeadlineTick && t.nextMatchId == s.nextMatchId
    else BootOutcome(s, t, lost)
  }

  lemma CountdownOf(s: Server, killed: set<nat>, lost: Losses)
    requires Inv(s) && s.phase == LobbyCountdown
    ensures |s.links| == |s.sessions| && CountdownOutcome(s, ServerTick(s, killed, lost), lost)
  {
    MembersAreAccepted(s);
    CountdownFacts(s);
    hide Inv, Members, AcceptedIds, ServerTick, Advance, SessionsOk, ReadyTogether, BootOutcome, BeginMatchBootstrap;
    var u := s.(serverTick := s.serverTick + 1);
    AdvanceCountdown(u, lost);
    BootstrapOf(s, lost);
    BootIsNoMatch(s, BeginMatchBootstrap(u, lost), lost);
    TickAdvances(s, killed, lost);
  }

  /** Outside a match a tick is the advance of the flow. */
  lemma TickAdvances(s: Server, killed: set<nat>, lost: Losses)
    requires |s.links| == |s.sessions|
    ensures var t := Advance(s.(serverTick := s.serverTick + 1), lost); t.phase != InMatch ==> ServerTick(s, killed, lost) == t
  {
    hide Advance, EndIfDecided, Killed;
  }

  lemma BootIsNoMatch(s: Server, b: Server, lost: Losses)
    requires BootOutcome(s, b, lost)
    ensures b.phase != InMatch
  {
  }

  lemma AdvanceCountdown(u: Server, lost: Losses)
    requires |u.links| == |u.sessions| && u.phase == LobbyCountdown && u.countdownDeadlineTick != 0
    ensures var t := Advance(u, lost);
      if u.serverTick < u.countdownDeadlineTick then
        t == u.(links := t.links, countdownLastBroadcastSecond := t.countdownLastBroadcastSecond)
      else t == BeginMatchBootstrap(u, lost)
  {
    hide BeginMatchBootstrap, CountdownSeconds;
  }

  lemma CountdownFacts(s: Server)
    requires Inv(s) && s.phase == LobbyCountdown
    ensures 0 < s.countdownDeadlineTick && s.countdownMask == AcceptedIds(s.sessions) && ReadyTogether(s) && SessionsOk(s)
  {
  }

  lemma MemberPeers(s: Server)
    requires SessionsOk(s)
    ensures forall p, id | HasId(s, p, id) :: PeerOf(s.sessions, id) == p && id in Members(s)
  {
    forall p, id | HasId(s, p, id) ensures PeerOf(s.sessions, id) == p && id in Members(s) {
      PeerOfBound(s.sessions, p);
      assert IsMember(s, id);
    }
  }

  /** A mask send to the members reaches them all exactly if they all hear. */
  lemma AllReached(s: Server, mask: set<nat>, msg: Control, lost: Losses)
    requires SessionsOk(s) && mask == Members(s)
    ensures |s.links| == |s.sessions|
    ensures ReachedIds(s, mask, msg, 4, lost) <= mask
    ensures ReachedIds(s, mask, msg, 4, lost) == mask <==> Heard(s, lost)
  {
    FlowLinks.MaskSends(s, mask, msg, 4, lost);
    MemberPeers(s);
    hide ReachedIds, SendToMask, SessionsOk;
    var reached := ReachedIds(s, mask, msg, 4, lost);
    if Heard(s, lost) {
      forall id | id in mask ensures id in reached {
        var p :| HasId(s, p, id);
      }
    }
    if reached == mask {
      forall p, id | HasId(s, p, id) && p < |s.links| ensures !lost(p, s.links[p].attempts) {
        assert id in reached;
      }
    }
  }

  lemma AllTold(s: Server, mask: set<nat>, msg: Control, lost: Losses)
    requires SessionsOk(s) && mask == Members(s) && Heard(s, lost)
    ensures |s.links| == |s.sessions| && Told(s, SendToMask(s, mask, msg, 4, lost), msg)
  {
    FlowLinks.MaskSends(s, mask, msg, 4, lost);
    MemberPeers(s);
    hide ReachedIds, SendToMask, SessionsOk, Members, IsMember;
    MaskIds(s);
    var t := SendToMask(s, mask, msg, 4, lost);
    forall p | 0 <= p < |s.links|
      ensures t.links[p].sent == if exists id :: HasId(s, p, id) then s.links[p].sent + [msg] else s.links[p].sent
    {
      if Accepted(s.sessions[p]) {
        assert HasId(s, p, s.sessions[p].value.playerId.value);
      }
    }
  }

  lemma MaskIds(s: Server)
    ensures forall id | id in Members(s) :: id < 4
  {
  }

  /** The bootstrap of a countdown that still holds: taken back if somebody was not reached. */
  lemma BootstrapCases(u: Server, mask: set<nat>, lost: Losses)
    requires |u.links| == |u.sessions| && u.phase == LobbyCountdown && u.countdownMask == mask && mask != {} && |mask| >= 2
    requires AllReady(u) && Participants(u) == mask && Known(mask) == mask
    ensures var boot := Bootstrapped(u, mask);
      && boot.links == u.links && boot.sessions == u.sessions
      && var msg := LevelInfo(boot.matchId); var told := SendToMask(boot, mask, msg, 4, lost);
         var reached := ReachedIds(boot, mask, msg, 4, lost); var seated := told.(seats := Seated(told.seats, reached));
         BeginMatchBootstrap(u, lost) == if reached != mask then CancelStarting(seated, reached, lost) else seated.(matchMask := mask)
  {
    hide AllReady, Participants, Known, SendToMask, ReachedIds, Seated, CancelStarting;
  }

  lemma CancelledIs(t: Server, mask: set<nat>, lost: Losses)
    requires |t.links| == |t.sessions|
    ensures var c := CancelStarting(t, mask, lost);
      && c.phase == Lobby && c.matchId == 0 && c.matchMask == {} && c.loadedMask == {} && c.sessions == t.sessions
      && c.serverTick == t.serverTick && c.slots == UnreadySlots(t.slots) && c.seats == Nones(|t.seats|)
  {
    hide SendCancelled, PushedToAccepted, BuildLobbyState;
  }

  lemma BootstrapOf(s: Server, lost: Losses)
    requires Inv(s) && s.phase == LobbyCountdown && |s.links| == |s.sessions|
    ensures BootOutcome(s, BeginMatchBootstrap(s.(serverTick := s.serverTick + 1), lost), lost)
  {
    MembersAreAccepted(s);
    CountdownFacts(s);
    var u := s.(serverTick := s.serverTick + 1);
    var mask := AcceptedIds(s.sessions);
    BootstrapRecheckNeverFails(u);
    KnownMembers(s);
    BootstrapCases(u, mask, lost);
    BootstrappedHolds(u, mask);
    BootIs(u, mask);
    BootedOf(s, Bootstrapped(u, mask), mask, lost);
    hide Inv, Members, AcceptedIds, AllReady, Participants, Known, SendToMask, ReachedIds, SessionsOk, Bootstrapped, ReadyTogether, BootOutcome,
         BeginMatchBootstrap, Seated, CancelStarting;
  }

  lemma KnownMembers(s: Server)
    requires SessionsOk(s)
    ensures Known(AcceptedIds(s.sessions)) == AcceptedIds(s.sessions)
  {
    ParticipantsAreAccepted(s);
  }

  /** Out of a fresh match: everybody told, or everything taken back. */
  lemma BootedOf(s: Server, boot: Server, mask: set<nat>, lost: Losses)
    requires SessionsOk(boot) && mask == Members(s) && |s.links| == |s.sessions|
    requires boot.sessions == s.sessions && boot.links == s.links && boot.serverTick == s.serverTick + 1 && boot.seats == Nones(4)
    requires boot.phase == StartingMatch && boot.matchId == s.nextMatchId && boot.nextMatchId == s.nextMatchId + 1
    requires boot.loadedMask == {} && boot.startDeadlineTick == boot.serverTick + 300
    ensures var msg := LevelInfo(boot.matchId); var told := SendToMask(boot, mask, msg, 4, lost);
      var reached := ReachedIds(boot, mask, msg, 4, lost); var seated := told.(seats := Seated(told.seats, reached));
      BootOutcome(s, if reached != mask then CancelStarting(seated, reached, lost) else seated.(matchMask := mask), lost)
  {
    hide SessionsOk, Members, Heard, Told, SendToMask, ReachedIds, Seated, CancelStarting;
    var msg := LevelInfo(boot.matchId);
    SameMembers(s, boot, lost);
    AllReached(boot, mask, msg, lost);
    var told, reached := SendToMask(boot, mask, msg, 4, lost), ReachedIds(boot, mask, msg, 4, lost);
    SeatedIs(boot.seats, reached);
    CancelledIs(told.(seats := Seated(told.seats, reached)), reached, lost);
    if reached == mask {
      AllTold(boot, mask, msg, lost);
      ToldBoth(s, boot, told, msg);
    }
  }

  lemma BootIs(u: Server, mask: set<nat>)
    requires |u.seats| == 4
    ensures var b := Bootstrapped(u, mask);
      && b.phase == StartingMatch && b.matchId == u.nextMatchId && b.nextMatchId == u.nextMatchId + 1 && b.loadedMask == {}
      && b.startDeadlineTick == u.serverTick + 300 && b.seats == Nones(4) && b.serverTick == u.serverTick && b.sessions == u.sessions
      && b.links == u.links
  {
  }

  lemma SeatedIs(seats: seq<Option<Seat>>, mask: set<nat>)
    requires seats == Nones(4)
    ensures |Seated(seats, mask)| == 4
    ensures forall id: nat | id < 4 :: Seated(seats, mask)[id] == if id in mask then Some(Seat(true, true)) else None
  {
  }

  lemma SameMembers(s: Server, t: Server, lost: Losses)
    requires t.sessions == s.sessions && t.links == s.links
    ensures Members(t) == Members(s) && (Heard(t, lost) <==> Heard(s, lost))
  {
    forall p, id ensures HasId(t, p, id) <==> HasId(s, p, id) {
    }
  }

  lemma ToldBoth(s: Server, boot: Server, t: Server, msg: Control)
    requires boot.sessions == s.sessions && boot.links == s.links
    ensures Told(boot, t, msg) ==> forall u: Server | u.links == t.links :: Told(s, u, msg)
  {
    forall p, id ensures HasId(boot, p, id) <==> HasId(s, p, id) {
    }
  }

  // ----- Loading -----

  /** An acknowledgement counts for the current match and for a member that has not acknowledged yet. */
  predicate Counts(s: Server, p: nat, matchId: nat) {
    && s.phase == StartingMatch && matchId == s.matchId
    && p < |s.sessions| && s.sessions[p].Some? && s.sessions[p].value.playerId.Some?
    && s.sessions[p].value.playerId.value !in s.loadedMask
  }

  /** The last acknowledgement: with every match start queued, the match begins and unlocks in 60 ticks; with one lost, the lobby. */
  ghost predicate CommitOutcome(u: Server, t: Server, lost: Losses) {
    && t.serverTick == u.serverTick && t.sessions == u.sessions
    && if Heard(u, lost) then
         && t == u.(phase := InMatch, startDeadlineTick := 0, goShowTick := u.serverTick + 60, unlockTick := u.serverTick + 60, links := t.links)
         && Told(u, t, MatchStart(u.matchId, u.serverTick + 60, u.serverTick + 60))
       else
         t.phase == Lobby && t.matchId == 0 && forall id | 0 <= id < |t.seats| :: t.seats[id].None?
  }

  ghost predicate LoadedOutcome(s: Server, t: Server, p: nat, matchId: nat, lost: Losses) {
    if !Counts(s, p, matchId) then t == s
    else
      var loaded := s.(loadedMask := s.loadedMask + {s.sessions[p].value.playerId.value});
      if loaded.loadedMask != Members(s) then t == loaded else CommitOutcome(loaded, t, lost)
  }

  lemma StartingFacts(s: Server)
    requires Inv(s) && s.phase == StartingMatch
    ensures s.matchMask == AcceptedIds(s.sessions) && s.matchMask != {} && s.matchId != 0 && s.loadedMask <= s.matchMask
    ensures SessionsOk(s) && s.serverTick < s.startDeadlineTick && |s.matchMask| >= 2
  {
  }

  lemma LoadedOf(s: Server, p: nat, matchId: nat, lost: Losses)
    requires Inv(s) && p < |s.sessions|
    ensures |s.links| == |s.sessions| && LoadedOutcome(s, MatchLoaded(s, p, matchId, lost), p, matchId, lost)
  {
    MembersAreAccepted(s);
    if s.phase == StartingMatch && Counts(s, p, matchId) {
      StartingFacts(s);
      CountingMember(s, p, matchId);
      var u := s.(loadedMask := s.loadedMask + {s.sessions[p].value.playerId.value});
      SameMembers(s, u, lost);
      LoadedSessions(s, u);
      hide Inv, Members, AcceptedIds, CommitOutcome, SessionsOk, MaybeCommit;
      if u.loadedMask == u.matchMask {
        CommitOf(u, lost);
      } else {
        NotYetAll(u, lost);
      }
    }
  }

  lemma NotYetAll(u: Server, lost: Losses)
    requires |u.links| == |u.sessions| && u.loadedMask != u.matchMask
    ensures MaybeCommit(u, lost) == u
  {
  }

  lemma CountingMember(s: Server, p: nat, matchId: nat)
    requires Inv(s) && Counts(s, p, matchId)
    ensures var id := s.sessions[p].value.playerId.value; id in s.matchMask && id < |s.slots| && s.slots[id].Some?
  {
    MembersAreAccepted(s);
    StartingFacts(s);
    MemberPeers(s);
    var id := s.sessions[p].value.playerId.value;
    assert HasId(s, p, id);
    hide Inv, AcceptedIds, SessionsOk, IsMember;
  }

  lemma CommitCases(u: Server, mask: set<nat>, lost: Losses)
    requires |u.links| == |u.sessions| && u.phase == StartingMatch && u.matchId != 0 && u.matchMask == mask && mask != {} && Known(mask) == mask
    ensures var go := u.serverTick + 60; var msg := MatchStart(u.matchId, go, go); var told := SendToMask(u, mask, msg, 4, lost);
      MaybeCommit(u, lost) ==
        if u.loadedMask != mask then u
        else if ReachedIds(u, mask, msg, 4, lost) != mask then CancelStarting(told, mask, lost)
        else told.(phase := InMatch, startDeadlineTick := 0, goShowTick := go, unlockTick := go)
  {
    hide SendToMask, ReachedIds, CancelStarting, Known;
  }

  lemma CommitOf(u: Server, lost: Losses)
    requires SessionsOk(u) && |u.links| == |u.sessions| && u.phase == StartingMatch && u.matchId != 0
    requires u.matchMask == Members(u) == u.loadedMask && u.matchMask == AcceptedIds(u.sessions) && u.matchMask != {}
    ensures CommitOutcome(u, MaybeCommit(u, lost), lost)
  {
    KnownMembers(u);
    var mask, go := u.matchMask, u.serverTick + 60;
    var msg := MatchStart(u.matchId, go, go);
    hide SessionsOk, Members, Heard, Told, SendToMask, ReachedIds, CancelStarting, AcceptedIds, Known, MaybeCommit;
    CommitCases(u, mask, lost);
    AllReached(u, mask, msg, lost);
    if Heard(u, lost) {
      AllTold(u, mask, msg, lost);
      CommittedTold(u, SendToMask(u, mask, msg, 4, lost), msg);
    } else {
      CancelledIs(SendToMask(u, mask, msg, 4, lost), mask, lost);
    }
  }

  lemma CommittedTold(u: Server, told: Server, msg: Control)
    requires Told(u, told, msg)
    ensures forall t: Server | t.links == told.links :: Told(u, t, msg)
  {
  }

  lemma LoadedSessions(s: Server, u: Server)
    requires SessionsOk(s) && u == s.(loadedMask := u.loadedMask)
    ensures SessionsOk(u)
  {
  }

  // ----- The other ticks -----

  /** A player killed now is dead and locked; the others are unlocked if the unlock tick has come. */
  function SeatNow(seat: Option<Seat>, unlocks: bool, hit: bool): Option<Seat> {
    if seat.None? then None
    else if hit && seat.value.alive then Some(Seat(false, true))
    else Some(Seat(seat.value.alive, seat.value.inputLocked && !unlocks))
  }

  /** The living players of a match that this tick does not kill. */
  function Survivors(s: Server, killed: set<nat>): set<nat> {
    set id: nat | id < |s.seats| && s.seats[id].Some? && s.seats[id].value.alive && id !in killed
  }

  predicate Unlocks(s: Server) {
    s.unlockTick != 0 && s.unlockTick <= s.serverTick + 1
  }

  /** A tick of a match: with two survivors it goes on; with one that one wins, with none it is a draw. */
  ghost predicate MatchOutcome(s: Server, t: Server, killed: set<nat>) {
    var survivors := Survivors(s, killed);
    && |t.seats| == |s.seats|
    && if |survivors| >= 2 then
         && t == s.(serverTick := s.serverTick + 1, unlockTick := if Unlocks(s) then 0 else s.unlockTick, seats := t.seats)
         && forall id: nat | id < |s.seats| :: t.seats[id] == SeatNow(s.seats[id], Unlocks(s), id in killed)
       else
         && t.phase == EndOfMatch && t.returnTick == t.serverTick + 180 && t.matchId == s.matchId
         && t.draw == (survivors == {}) && (survivors == {} ==> t.winner.None?)
         && (survivors != {} ==> t.winner.Some? && survivors == {t.winner.value})
         && (forall id: nat | id < |s.seats| :: t.seats[id].Some? <==> s.seats[id].Some?)
         && (forall id: nat | id < |s.seats| && t.seats[id].Some? :: t.seats[id].value.inputLocked && (t.seats[id].value.alive <==> id in survivors))
  }

  ghost predicate TickOutcome(s: Server, t: Server, killed: set<nat>, lost: Losses) {
    && t.serverTick == s.serverTick + 1 && t.sessions == s.sessions
    && match s.phase
       case Lobby => t == s.(serverTick := s.serverTick + 1)
       case LobbyCountdown => CountdownOutcome(s, t, lost)
       case StartingMatch =>
         if s.serverTick + 1 < s.startDeadlineTick then t == s.(serverTick := s.serverTick + 1)
         else t.phase == Lobby && t.matchId == 0 && forall id | 0 <= id < |t.seats| :: t.seats[id].None?
       case InMatch => MatchOutcome(s, t, killed)
       case EndOfMatch =>
         if s.serverTick + 1 < s.returnTick then t == s.(serverTick := s.serverTick + 1)
         else t.phase == Lobby && t.matchId == 0 && forall id | 0 <= id < |t.seats| :: t.seats[id].None?
  }

  lemma TickOf(s: Server, killed: set<nat>, lost: Losses)
    requires Inv(s)
    ensures |s.links| == |s.sessions| && TickOutcome(s, ServerTick(s, killed, lost), killed, lost)
  {
    InvSizes(s);
    match s.phase
    case Lobby =>
      LobbyTickOf(s, killed, lost);
    case LobbyCountdown =>
      CountdownOf(s, killed, lost);
      CountdownKeepsSessions(s, ServerTick(s, killed, lost), lost);
    case StartingMatch =>
      StartingTickOf(s, killed, lost);
    case InMatch =>
      MatchTickOf(s, killed, lost);
    case EndOfMatch =>
      EndTickOf(s, killed, lost);
  }

  lemma CountdownKeepsSessions(s: Server, t: Server, lost: Losses)
    requires CountdownOutcome(s, t, lost)
    ensures t.serverTick == s.serverTick + 1 && t.sessions == s.sessions
  {
  }

  lemma LobbyTickOf(s: Server, killed: set<nat>, lost: Losses)
    requires s.phase == Lobby && |s.links| == |s.sessions|
    ensures ServerTick(s, killed, lost) == s.(serverTick := s.serverTick + 1)
  {
  }

  lemma StartingTickOf(s: Server, killed: set<nat>, lost: Losses)
    requires Inv(s) && s.phase == StartingMatch && |s.links| == |s.sessions|
    ensures TickOutcome(s, ServerTick(s, killed, lost), killed, lost)
  {
    StartingFacts(s);
    var u := s.(serverTick := s.serverTick + 1);
    CancelledIs(u, u.matchMask, lost);
    hide Inv, CancelStarting, EndIfDecided, BeginMatchBootstrap, SessionsOk;
  }

  lemma EndTickOf(s: Server, killed: set<nat>, lost: Losses)
    requires Inv(s) && s.phase == EndOfMatch && |s.links| == |s.sessions|
    ensures TickOutcome(s, ServerTick(s, killed, lost), killed, lost)
  {
    EndFacts(s);
    hide Inv, CancelStarting, EndIfDecided, BeginMatchBootstrap, BuildLobbyState, PushedToAccepted;
  }

  lemma EndFacts(s: Server)
    requires Inv(s) && s.phase == EndOfMatch
    ensures s.matchId != 0 && s.returnTick != 0
  {
  }

  lemma MatchFacts(s: Server)
    requires Inv(s) && s.phase == InMatch
    ensures s.matchId != 0 && |AliveIds(s.seats)| >= 2 && |s.seats| == 4 && s.winner.None? && !s.draw
  {
  }

  lemma MatchTickOf(s: Server, killed: set<nat>, lost: Losses)
    requires Inv(s) && s.phase == InMatch && |s.links| == |s.sessions|
    ensures TickOutcome(s, ServerTick(s, killed, lost), killed, lost)
  {
    MatchFacts(s);
    var hit := s.(serverTick := s.serverTick + 1, unlockTick := if Unlocks(s) then 0 else s.unlockTick,
                  seats := Killed(if Unlocks(s) then LockedSeats(s.seats, false) else s.seats, killed));
    MatchTickIs(s, killed, lost, hit);
    SeatsOfTick(s.seats, Unlocks(s), killed);
    hide Inv, ServerTick, EndIfDecided, AliveIds, Killed, LockedSeats, SeatNow, AnySeat, MatchOutcome;
    HitEnds(s, hit, killed, lost);
    EndKeeps(s, hit, Survivors(s, killed), lost);
  }

  lemma SeatsOfTick(seats: seq<Option<Seat>>, unlocks: bool, killed: set<nat>)
    ensures var after := Killed(if unlocks then LockedSeats(seats, false) else seats, killed);
      && |after| == |seats|
      && forall id: nat | id < |seats| :: after[id] == SeatNow(seats[id], unlocks, id in killed)
  {
  }

  lemma EndKeeps(s: Server, hit: Server, survivors: set<nat>, lost: Losses)
    requires |hit.links| == |hit.sessions| && hit.sessions == s.sessions && hit.serverTick == s.serverTick + 1
    ensures EndIfDecided(hit, lost).serverTick == s.serverTick + 1 && EndIfDecided(hit, lost).sessions == s.sessions
  {
    hide SendResult, LockedSeats, Credited, LastAlive, AnySeat, AliveIds;
  }

  lemma HitEnds(s: Server, hit: Server, killed: set<nat>, lost: Losses)
    requires |s.links| == |s.sessions| && s.phase == InMatch && |AliveIds(s.seats)| >= 2 && s.winner.None? && !s.draw
    requires hit == s.(serverTick := s.serverTick + 1, unlockTick := if Unlocks(s) then 0 else s.unlockTick, seats := hit.seats)
    requires |hit.seats| == |s.seats| && forall id: nat | id < |s.seats| :: hit.seats[id] == SeatNow(s.seats[id], Unlocks(s), id in killed)
    ensures MatchOutcome(s, EndIfDecided(hit, lost), killed)
  {
    SurvivorsAre(s.seats, hit.seats, Unlocks(s), killed);
    AnybodyThere(s, hit);
    hide SeatNow, AliveIds, AnySeat, EndIfDecided, LockedSeats;
    EndOf(hit, Survivors(s, killed), lost);
    LockedAt(hit.seats);
    AliveAfter(hit.seats, Survivors(s, killed));
  }

  lemma AliveAfter(seats: seq<Option<Seat>>, survivors: set<nat>)
    requires AliveIds(seats) == survivors
    ensures forall id: nat | id < |seats| && seats[id].Some? :: seats[id].value.alive <==> id in survivors
  {
  }

  lemma MatchTickIs(s: Server, killed: set<nat>, lost: Losses, hit: Server)
    requires s.phase == InMatch && |s.links| == |s.sessions|
    requires hit == s.(serverTick := s.serverTick + 1,
      unlockTick := if s.unlockTick != 0 && s.unlockTick <= s.serverTick + 1 then 0 else s.unlockTick,
      seats := Killed(if s.unlockTick != 0 && s.unlockTick <= s.serverTick + 1 then LockedSeats(s.seats, false) else s.seats, killed))
    ensures ServerTick(s, killed, lost) == EndIfDecided(hit, lost)
  {
    hide EndIfDecided, Killed, LockedSeats;
  }

  lemma AnybodyThere(s: Server, hit: Server)
    requires |AliveIds(s.seats)| >= 2 && |hit.seats| == |s.seats|
    requires forall id: nat | id < |s.seats| :: hit.seats[id].Some? <==> s.seats[id].Some?
    ensures AnySeat(hit.seats)
  {
    var id :| id in AliveIds(s.seats);
    assert hit.seats[id].Some?;
  }

  lemma SurvivorsAre(seats: seq<Option<Seat>>, after: seq<Option<Seat>>, unlocks: bool, killed: set<nat>)
    requires |after| == |seats| && forall id: nat | id < |seats| :: after[id] == SeatNow(seats[id], unlocks, id in killed)
    ensures AliveIds(after) == set id: nat | id < |seats| && seats[id].Some? && seats[id].value.alive && id !in killed
    ensures forall id: nat | id < |seats| :: after[id].Some? <==> seats[id].Some?
  {
    var survivors := set id: nat | id < |seats| && seats[id].Some? && seats[id].value.alive && id !in killed;
    forall id: nat ensures id in AliveIds(after) <==> id in survivors {
      if id < |seats| {
        assert after[id] == SeatNow(seats[id], unlocks, id in killed);
      }
    }
  }

  lemma LockedAt(seats: seq<Option<Seat>>)
    ensures var l := LockedSeats(seats, true);
      && |l| == |seats|
      && (forall id: nat | id < |seats| :: l[id].Some? <==> seats[id].Some?)
      && (forall id: nat | id < |seats| && l[id].Some? :: l[id].value.inputLocked && l[id].value.alive == seats[id].value.alive)
  {
  }

  /** A match is over exactly if at most one player is alive: the survivor wins, nobody left is a draw. */
  lemma EndOf(s: Server, survivors: set<nat>, lost: Losses)
    requires |s.links| == |s.sessions| && s.phase == InMatch && AnySeat(s.seats) && AliveIds(s.seats) == survivors
    ensures var t := EndIfDecided(s, lost);
      if |survivors| >= 2 then t == s
      else
        && t.phase == EndOfMatch && t.returnTick == s.serverTick + 180 && t.matchId == s.matchId && t.serverTick == s.serverTick
        && t.sessions == s.sessions && t.seats == LockedSeats(s.seats, true)
        && t.draw == (survivors == {}) && (survivors == {} ==> t.winner.None?)
        && (survivors != {} ==> t.winner.Some? && survivors == {t.winner.value})
  {
    LastAliveIsAlive(s.seats);
    hide SendResult, LockedSeats, Credited, LastAlive, AnySeat, AliveIds;
    if |survivors| == 1 {
      TheOnlyOne(survivors, LastAlive(s.seats).value);
    }
  }

  lemma TheOnlyOne(ids: set<nat>, id: nat)
    requires |ids| == 1 && id in ids
    ensures ids == {id}
  {
    assert |ids - {id}| == 0;
  }

  // ----- A Hello -----

  /** Peer p's queue got the message unless it was lost; nothing else happened. */
  ghost predicate Answered(s: Server, t: Server, p: nat, msg: Control, lost: Losses)
    requires p < |s.links|
  {
    t == s.(links := s.links[p := Link(if lost(p, s.links[p].attempts) then s.links[p].sent else s.links[p].sent + [msg], s.links[p].attempts + 1)])
  }

  predicate Remembered(s: Server, name: Name, id: nat) {
    id < |s.reclaims| && s.reclaims[id].Some? && s.reclaims[id].value.name == name
  }

  /**
   * The id a newcomer gets and the wins it brings: the lowest free id remembered under its name, with the wins
   * remembered; the lowest free id and no wins if there is none.
   */
  ghost predicate Chosen(s: Server, name: Name, id: nat, wins: nat) {
    && id < 4 && !IsMember(s, id)
    && (|| (Remembered(s, name, id) && wins == s.reclaims[id].value.wins
            && forall other: nat | other < id && Remembered(s, name, other) :: IsMember(s, other))
        || (wins == 0 && (forall other: nat | other < 4 && Remembered(s, name, other) :: IsMember(s, other))
            && forall other: nat | other < id :: IsMember(s, other)))
  }

  /** Everybody keeps name and wins and is unready, and id's slot is as given. */
  ghost predicate AllUnready(before: seq<Option<PlayerSlot>>, after: seq<Option<PlayerSlot>>, id: nat, slot: Option<PlayerSlot>) {
    && |after| == |before|
    && forall other: nat | other < |before| :: after[other] ==
         if other == id then slot
         else if before[other].Some? then Some(PlayerSlot(before[other].value.name, false, before[other].value.wins)) else None
  }

  /** Peer p is now member id: everybody is unready and the lobby waits. */
  ghost predicate Admitted(s: Server, t: Server, p: nat, id: nat, name: Name, wins: nat)
    requires p < |s.sessions| && |s.links| == |s.sessions|
  {
    && |t.links| == |s.links| && s.links[p].sent + [Welcome(id)] <= t.links[p].sent
    && t.phase == Lobby && t.serverTick == s.serverTick && t.countdownMask == {} && t.countdownDeadlineTick == 0
    && t.nextMatchId == s.nextMatchId && t.sessions == s.sessions[p := Some(Session(Some(id)))]
    && AllUnready(s.slots, t.slots, id, Some(PlayerSlot(name, false, wins)))
    && |t.reclaims| == |s.reclaims| && forall other: nat | other < |s.reclaims| :: t.reclaims[other] == if other == id then None else s.reclaims[other]
  }

  /** The welcome was lost: nothing is bound, and the peer is told so if that can be queued. */
  ghost predicate TurnedAway(s: Server, t: Server, p: nat, lost: Losses)
    requires p < |s.links|
  {
    t == s.(links := s.links[p := Link(s.links[p].sent + if lost(p, s.links[p].attempts + 1) then [] else [Reject(Other)], s.links[p].attempts + 2)])
  }

  ghost predicate HelloOutcome(s: Server, t: Server, p: nat, name: Name, versionMatches: bool, lost: Losses)
    requires p < |s.sessions| && |s.links| == |s.sessions|
  {
    if s.sessions[p].Some? && s.sessions[p].value.playerId.Some? then Answered(s, t, p, Welcome(s.sessions[p].value.playerId.value), lost)
    else if !versionMatches then Answered(s, t, p, Reject(VersionMismatch), lost)
    else if s.phase != Lobby && s.phase != LobbyCountdown then Answered(s, t, p, Reject(GameInProgress), lost)
    else if forall id: nat | id < 4 :: IsMember(s, id) then Answered(s, t, p, Reject(ServerFull), lost)
    else exists id: nat, wins: nat ::
           && Chosen(s, name, id, wins)
           && if lost(p, s.links[p].attempts) then TurnedAway(s, t, p, lost) else Admitted(s, t, p, id, name, wins)
  }

  lemma PoolOfMembers(s: Server)
    requires Inv(s)
    ensures StrictlySorted(s.pool)
    ensures forall id :: id in s.pool <==> id < 4 && !IsMember(s, id)
    ensures |s.reclaims| == 4 && |s.slots| == 4 && |s.links| == |s.sessions|
  {
    MembersAreAccepted(s);
    SessionsOfInv(s);
    hide Inv, AcceptedIds, SlotsOk, BoundOnce, IsMember;
    forall id ensures id in s.pool <==> id < 4 && !IsMember(s, id) {
      assert id < 4 ==> (id in Members(s) <==> IsMember(s, id));
    }
  }

  lemma HeadIsLowest(pool: seq<nat>)
    requires StrictlySorted(pool) && pool != []
    ensures forall id | id in pool :: pool[0] <= id
  {
  }

  lemma ReserveChooses(s: Server, name: Name)
    requires Inv(s)
    ensures Reserve(s, name).None? <==> forall id: nat | id < 4 :: IsMember(s, id)
    ensures Reserve(s, name).Some? ==> Chosen(s, name, Reserve(s, name).value.0, Reserve(s, name).value.1) && Reserve(s, name).value.0 in s.pool
  {
    PoolOfMembers(s);
    hide Inv, IsMember;
    var r := ReclaimedId(s, name, 0);
    if r == |s.reclaims| && s.pool != [] {
      forall other: nat | other < s.pool[0] ensures IsMember(s, other) {
        HeadIsLowest(s.pool);
        assert other !in s.pool && s.pool[0] in s.pool;
      }
      assert s.pool[0] in s.pool;
    }
    if s.pool == [] {
      forall id: nat | id < 4 ensures IsMember(s, id) {
        assert id !in s.pool;
      }
    }
  }

  lemma HelloOf(s: Server, p: nat, name: Name, versionMatches: bool, lost: Losses)
    requires Inv(s) && p < |s.sessions|
    ensures |s.links| == |s.sessions| && HelloOutcome(s, Hello(s, p, name, versionMatches, lost), p, name, versionMatches, lost)
  {
    PoolOfMembers(s);
    ReserveChooses(s, name);
    hide Inv, Hello, Reserve, Chosen, IsMember, HelloOutcome;
    if !Accepted(s.sessions[p]) && versionMatches && (s.phase == Lobby || s.phase == LobbyCountdown) && Reserve(s, name).Some? {
      AdmissionOf(s, p, name, lost);
    } else {
      RefusalOf(s, p, name, versionMatches, lost);
    }
  }

  lemma RefusalOf(s: Server, p: nat, name: Name, versionMatches: bool, lost: Losses)
    requires p < |s.sessions| && |s.links| == |s.sessions|
    requires Accepted(s.sessions[p]) || !versionMatches || !(s.phase == Lobby || s.phase == LobbyCountdown) || Reserve(s, name).None?
    requires Reserve(s, name).None? <==> forall id: nat | id < 4 :: IsMember(s, id)
    ensures HelloOutcome(s, Hello(s, p, name, versionMatches, lost), p, name, versionMatches, lost)
  {
    hide Reserve, HandleJoined, Accept, Chosen, IsMember, Admitted, Remove, Release, TurnedAway;
  }

  lemma AdmissionOf(s: Server, p: nat, name: Name, lost: Losses)
    requires p < |s.sessions| && |s.links| == |s.sessions| && !Accepted(s.sessions[p]) && (s.phase == Lobby || s.phase == LobbyCountdown)
    requires Reserve(s, name).Some? && !(forall id: nat | id < 4 :: IsMember(s, id)) && |s.slots| == 4 && |s.reclaims| == 4
    requires Chosen(s, name, Reserve(s, name).value.0, Reserve(s, name).value.1)
    requires StrictlySorted(s.pool) && Reserve(s, name).value.0 in s.pool
    ensures HelloOutcome(s, Hello(s, p, name, true, lost), p, name, true, lost)
  {
    hide Reserve, HandleJoined, Accept, Chosen, IsMember, Admitted, Remove, Release, TurnedAway, SendTo, Answered;
    var id, wins := Reserve(s, name).value.0, Reserve(s, name).value.1;
    ReleaseUndoesRemove(s.pool, id);
    ChosenId(s, name, id, wins);
    WelcomeSent(s, p, id, lost);
    var welcomed := SendTo(s.(pool := Remove(s.pool, id)), p, Welcome(id), lost);
    if lost(p, s.links[p].attempts) {
      TurnedAwayOf(s, welcomed.(pool := s.pool), p, Welcome(id), lost);
    } else {
      AdmittedOf(s, welcomed, p, id, name, wins, lost);
    }
  }

  lemma WelcomeSent(s: Server, p: nat, id: nat, lost: Losses)
    requires p < |s.links|
    ensures var w := SendTo(s.(pool := Remove(s.pool, id)), p, Welcome(id), lost);
      && w == s.(pool := Remove(s.pool, id), links := w.links) && w.(pool := s.pool) == SendTo(s, p, Welcome(id), lost)
      && (!lost(p, s.links[p].attempts) ==> w.links[p].sent == s.links[p].sent + [Welcome(id)])
  {
  }

  lemma ChosenId(s: Server, name: Name, id: nat, wins: nat)
    requires Chosen(s, name, id, wins)
    ensures id < 4
  {
  }

  lemma TurnedAwayOf(s: Server, w: Server, p: nat, msg: Control, lost: Losses)
    requires p < |s.links| && w == SendTo(s, p, msg, lost) && lost(p, s.links[p].attempts)
    ensures TurnedAway(s, SendTo(w, p, Reject(Other), lost), p, lost)
  {
    assert s.links[p].sent + [] == s.links[p].sent;
  }

  lemma AdmittedOf(s: Server, w: Server, p: nat, id: nat, name: Name, wins: nat, lost: Losses)
    requires p < |s.sessions| && id < |s.slots| == |s.reclaims| && |s.links| == |s.sessions| && |w.links| == |s.links|
    requires w == s.(pool := w.pool, links := w.links) && (s.phase == Lobby || s.phase == LobbyCountdown)
    requires w.links[p].sent == s.links[p].sent + [Welcome(id)]
    ensures Admitted(s, HandleJoined(Accept(w, p, id, name, wins), lost), p, id, name, wins)
  {
    hide BuildLobbyState;
  }

  // ----- A disconnect -----

  ghost predicate Dissolved(t: Server) {
    t.phase == Lobby && t.matchId == 0 && forall id | 0 <= id < |t.seats| :: t.seats[id].None?
  }

  ghost predicate DisconnectOutcome(s: Server, t: Server, p: nat)
    requires p < |s.sessions|
  {
    && t.sessions == s.sessions[p := None] && t.serverTick == s.serverTick
    && if s.sessions[p].None? || s.sessions[p].value.playerId.None? then t == s.(sessions := t.sessions)
       else
         var id := s.sessions[p].value.playerId.value;
         && id < |s.slots| && s.slots[id].Some? && id < |s.seats| && id < |s.reclaims|
         && t.reclaims == s.reclaims[id := Some(Reclaim(s.slots[id].value.name, s.slots[id].value.wins))]
         && |t.slots| == |s.slots| && t.slots[id].None?
         && match s.phase
            case Lobby => t.phase == Lobby && AllUnready(s.slots, t.slots, id, None)
            case LobbyCountdown => t.phase == Lobby && t.countdownMask == {} && AllUnready(s.slots, t.slots, id, None)
            case StartingMatch => Dissolved(t)
            case InMatch => LeftMatch(s, t, id)
            case EndOfMatch =>
              if Members(s) == {id} then Dissolved(t)
              else t.phase == EndOfMatch && t.seats == s.seats[id := None] && t.returnTick == s.returnTick && t.winner == s.winner && t.draw == s.draw
  }

  /** A player leaves a match: it goes on with two others alive, and is decided otherwise. */
  ghost predicate LeftMatch(s: Server, t: Server, id: nat)
    requires id < |s.seats|
  {
    var others := Survivors(s, {id});
    && |t.seats| == |s.seats| && t.seats[id].None?
    && if |others| >= 2 then
         t.phase == InMatch && t.seats == s.seats[id := None] && t.unlockTick == s.unlockTick && t.matchId == s.matchId
       else
         && t.phase == EndOfMatch && t.returnTick == s.serverTick + 180 && t.matchId == s.matchId
         && t.draw == (others == {}) && (others == {} ==> t.winner.None?) && (others != {} ==> t.winner.Some? && others == {t.winner.value})
         && forall other: nat | other < |s.seats| && other != id :: t.seats[other].Some? <==> s.seats[other].Some?
  }

  lemma DisconnectOf(s: Server, p: nat, lost: Losses)
    requires Inv(s) && p < |s.sessions|
    ensures |s.links| == |s.sessions| && DisconnectOutcome(s, Disconnect(s, p, lost), p)
  {
    InvSizes(s);
    if Accepted(s.sessions[p]) {
      BoundSeatExists(s, p);
      var id := s.sessions[p].value.playerId.value;
      var freed := s.(sessions := s.sessions[p := None],
        reclaims := s.reclaims[id := Some(Reclaim(s.slots[id].value.name, s.slots[id].value.wins))],
        seats := s.seats[id := None], slots := s.slots[id := None], pool := Release(s.pool, id));
      match s.phase
      case Lobby => LeavesLobby(s, freed, p, id, lost);
      case LobbyCountdown => LeavesLobby(s, freed, p, id, lost);
      case StartingMatch => LeavesStart(s, freed, p, id, lost);
      case InMatch => LeavesMatch(s, freed, p, id, lost);
      case EndOfMatch => LeavesEnd(s, freed, p, id, lost);
    }
  }

  ghost predicate Freed(s: Server, freed: Server, p: nat, id: nat) {
    && p < |s.sessions| && s.sessions[p] == Some(Session(Some(id))) && |s.links| == |s.sessions|
    && id < |s.slots| && s.slots[id].Some? && id < |s.reclaims| && id < |s.seats|
    && freed == s.(sessions := s.sessions[p := None],
         reclaims := s.reclaims[id := Some(Reclaim(s.slots[id].value.name, s.slots[id].value.wins))],
         seats := s.seats[id := None], slots := s.slots[id := None], pool := freed.pool)
  }

  lemma LeavesLobby(s: Server, freed: Server, p: nat, id: nat, lost: Losses)
    requires Freed(s, freed, p, id) && (s.phase == Lobby || s.phase == LobbyCountdown)
    ensures DisconnectOutcome(s, HandleReleased(freed, id, lost), p)
  {
    hide BuildLobbyState, PushedToAccepted;
  }

  lemma LeavesStart(s: Server, freed: Server, p: nat, id: nat, lost: Losses)
    requires Freed(s, freed, p, id) && s.phase == StartingMatch
    ensures DisconnectOutcome(s, HandleReleased(freed, id, lost), p)
  {
    var left := freed.(countdownMask := s.countdownMask - {id}, matchMask := s.matchMask - {id}, loadedMask := s.loadedMask - {id});
    CancelledIs(left, left.matchMask, lost);
    CancelKeepsReclaims(left, left.matchMask, lost);
    hide CancelStarting;
  }

  lemma CancelKeepsReclaims(t: Server, mask: set<nat>, lost: Losses)
    requires |t.links| == |t.sessions|
    ensures CancelStarting(t, mask, lost).reclaims == t.reclaims
  {
    hide SendCancelled, PushedToAccepted, BuildLobbyState;
  }

  lemma LeavesEnd(s: Server, freed: Server, p: nat, id: nat, lost: Losses)
    requires Inv(s) && Freed(s, freed, p, id) && s.phase == EndOfMatch
    ensures DisconnectOutcome(s, HandleReleased(freed, id, lost), p)
  {
    MembersAreAccepted(s);
    RoundMask(s);
    assert HasId(s, p, id);
    hide Inv, Members, AcceptedIds, EndIfDecided;
    var left := freed.(countdownMask := s.countdownMask - {id}, matchMask := s.matchMask - {id}, loadedMask := s.loadedMask - {id});
    NothingToEnd(left, lost);
    OnlyMember(s, p, id);
  }

  lemma OnlyMember(s: Server, p: nat, id: nat)
    requires HasId(s, p, id) && id < 4
    ensures id in Members(s) && (Members(s) - {id} == {} <==> Members(s) == {id})
  {
    assert IsMember(s, id);
  }

  lemma RoundMask(s: Server)
    requires Inv(s) && (s.phase == InMatch || s.phase == EndOfMatch)
    ensures s.matchMask == AcceptedIds(s.sessions)
    ensures forall id: nat | id < |s.seats| :: s.seats[id].Some? <==> id in s.matchMask
  {
  }

  lemma LeavesMatch(s: Server, freed: Server, p: nat, id: nat, lost: Losses)
    requires Inv(s) && Freed(s, freed, p, id) && s.phase == InMatch
    ensures DisconnectOutcome(s, HandleReleased(freed, id, lost), p)
  {
    MatchFacts(s);
    RoundMask(s);
    OthersAlive(s, id);
    hide Inv, AcceptedIds, EndIfDecided, LockedSeats, AnySeat, AliveIds, HandleReleased;
    var left := freed.(countdownMask := s.countdownMask - {id}, matchMask := s.matchMask - {id}, loadedMask := s.loadedMask - {id});
    var other :| other in Survivors(s, {id});
    assert other in left.matchMask;
    ReleasedInMatch(freed, left, id, other, lost);
    hide Survivors;
    EndOf(left, Survivors(s, {id}), lost);
    EndKeepsSlots(left, id, lost);
    LockedAt(left.seats);
    LeftOutcome(s, left, EndIfDecided(left, lost), p, id);
  }

  lemma ReleasedInMatch(freed: Server, left: Server, id: nat, other: nat, lost: Losses)
    requires |freed.links| == |freed.sessions| && freed.phase == InMatch
    requires left == freed.(countdownMask := freed.countdownMask - {id}, matchMask := freed.matchMask - {id}, loadedMask := freed.loadedMask - {id})
    requires other in left.matchMask && other < |left.seats| && left.seats[other].Some?
    ensures HandleReleased(freed, id, lost) == EndIfDecided(left, lost) && AnySeat(left.seats)
  {
    hide EndIfDecided;
  }

  lemma LeftOutcome(s: Server, left: Server, t: Server, p: nat, id: nat)
    requires p < |s.sessions| && s.sessions[p] == Some(Session(Some(id))) && s.phase == InMatch
    requires id < |s.slots| && s.slots[id].Some? && id < |s.reclaims| && id < |s.seats|
    requires left.phase == InMatch && left.sessions == s.sessions[p := None] && left.serverTick == s.serverTick && left.seats == s.seats[id := None]
    requires left.matchId == s.matchId && left.unlockTick == s.unlockTick && |left.slots| == |s.slots| && left.slots[id].None?
    requires left.reclaims == s.reclaims[id := Some(Reclaim(s.slots[id].value.name, s.slots[id].value.wins))]
    requires t.reclaims == left.reclaims && |t.slots| == |left.slots| && t.slots[id].None?
    requires var others := Survivors(s, {id});
      if |others| >= 2 then t == left
      else
        && t.phase == EndOfMatch && t.returnTick == s.serverTick + 180 && t.matchId == s.matchId && t.serverTick == s.serverTick
        && t.sessions == left.sessions && |t.seats| == |left.seats|
        && (forall other: nat | other < |left.seats| :: t.seats[other].Some? <==> left.seats[other].Some?)
        && t.draw == (others == {}) && (others == {} ==> t.winner.None?) && (others != {} ==> t.winner.Some? && others == {t.winner.value})
    ensures DisconnectOutcome(s, t, p)
  {
    hide Survivors;
  }

  lemma OthersAlive(s: Server, id: nat)
    requires |AliveIds(s.seats)| >= 2
    ensures Survivors(s, {id}) == AliveIds(s.seats) - {id} && Survivors(s, {id}) != {}
    ensures id < |s.seats| ==> AliveIds(s.seats[id := None]) == Survivors(s, {id})
    ensures forall other | other in Survivors(s, {id}) :: other < |s.seats| && s.seats[other].Some? && other != id
  {
    var others := Survivors(s, {id});
    assert others == AliveIds(s.seats) - {id};
    if others == {} {
      assert AliveIds(s.seats) <= {id};
      AtMostOne(AliveIds(s.seats), id);
    }
  }

  lemma AtMostOne(ids: set<nat>, id: nat)
    requires ids <= {id}
    ensures |ids| <= 1
  {
    assert ids == {} || ids == {id};
  }

  lemma EndKeepsSlots(s: Server, id: nat, lost: Losses)
    requires |s.links| == |s.sessions| && id < |s.slots| && s.slots[id].None?
    ensures var t := EndIfDecided(s, lost); t.reclaims == s.reclaims && |t.slots| == |s.slots| && t.slots[id].None?
  {
    hide SendResult, LockedSeats, LastAlive, AnySeat, AliveIds;
  }

  // ----- Every event of every run -----

  ghost predicate Outcome(s: Server, t: Server, e: Event, lost: Losses)
    requires |s.links| == |s.sessions| && Enabled(s, e)
  {
    match e
    case EvConnect(p) => t == s.(sessions := s.sessions[p := Some(Session(None))], links := s.links[p := Link([], s.links[p].attempts)])
    case EvHello(p, name, versionMatches) => HelloOutcome(s, t, p, name, versionMatches, lost)
    case EvLobbyReady(p, ready) => ReadyOutcome(s, t, p, ready)
    case EvMatchLoaded(p, matchId) => LoadedOutcome(s, t, p, matchId, lost)
    case EvDisconnect(p) => DisconnectOutcome(s, t, p)
    case EvTick(killed) => TickOutcome(s, t, killed, lost)
  }

  lemma StepLeads(s: Server, e: Event, lost: Losses)
    requires Inv(s) && Enabled(s, e)
    ensures |s.links| == |s.sessions| && Outcome(s, Step(s, e, lost), e, lost)
  {
    InvSizes(s);
    hide Inv, Hello, LobbyReady, MatchLoaded, Disconnect, ServerTick, HelloOutcome, ReadyOutcome, LoadedOutcome, DisconnectOutcome, TickOutcome;
    match e
    case EvConnect(p) =>
    case EvHello(p, name, versionMatches) => HelloOf(s, p, name, versionMatches, lost);
    case EvLobbyReady(p, ready) => ReadyOf(s, p, ready, lost);
    case EvMatchLoaded(p, matchId) => LoadedOf(s, p, matchId, lost);
    case EvDisconnect(p) => DisconnectOf(s, p, lost);
    case EvTick(killed) => TickOf(s, killed, lost);
  }

  /**
   * What every event leads to, in every reachable state and for every pattern of failed sends: admission, the start
   * and the end of a countdown, a loading match, a match and its end come about exactly under the conditions stated
   * in the outcomes above, and otherwise nothing of the kind happens.
   */
  lemma EveryEventLeads(events: seq<Event>, e: Event, lost: Losses)
    requires Enabled(Run(events, lost), e)
    ensures |Run(events, lost).links| == |Run(events, lost).sessions|
    ensures Outcome(Run(events, lost), Run(events + [e], lost), e, lost)
  {
    assert (events + [e])[..|events|] == events;
    EveryRunHolds(events, lost);
    hide Inv, Outcome, Enabled, Step;
    StepLeads(Run(events, lost), e, lost);
    StepIsTaken(events, e, lost);
  }

  lemma StepIsTaken(events: seq<Event>, e: Event, lost: Losses)
    ensures Run(events + [e], lost) == Step(Run(events, lost), e, lost)
  {
    assert (events + [e])[..|events|] == events;
  }

  // ----- What the members are told at the end -----

  /** The result as the members are told it: the winner under its own name, or under "Player" if it has none. */
  ghost predicate ResultSays(msg: Control, s: Server, t: Server) {
    && msg.MatchResult? && msg.matchId == s.matchId && msg.winner == t.winner
    && (t.winner.None? ==> msg.winnerName == [])
    && (t.winner.Some? ==>
          && t.winner.value < |s.slots| && s.slots[t.winner.value].Some?
          && msg.winnerName == if s.slots[t.winner.value].value.name != [] then s.slots[t.winner.value].value.name
                               else [0x50, 0x6C, 0x61, 0x79, 0x65, 0x72])
  }

  /** The server with the round decided, before anybody is told. */
  function Decided(s: Server, w: Option<nat>): Server {
    s.(phase := EndOfMatch, winner := w, draw := AliveIds(s.seats) == {}, goShowTick := 0, unlockTick := 0,
       returnTick := s.serverTick + RETURN_TICKS, slots := Credited(s.slots, w), seats := LockedSeats(s.seats, true),
       results := s.results + [RoundResult(s.matchId, w, AliveIds(s.seats))])
  }

  lemma EndIsSent(s: Server, lost: Losses) returns (w: Option<nat>)
    requires |s.links| == |s.sessions| && s.phase == InMatch && s.matchId != 0 && s.matchMask != {}
    requires AnySeat(s.seats) && |AliveIds(s.seats)| <= 1
    ensures var ended := Decided(s, w); EndIfDecided(s, lost) == SendToMask(ended, s.matchMask, BuildMatchResult(ended), 4, lost)
    ensures w.Some? ==> w.value in AliveIds(s.seats)
    ensures AliveIds(s.seats) == {} ==> w.None?
  {
    LastAliveIsAlive(s.seats);
    w := if |AliveIds(s.seats)| == 1 then LastAlive(s.seats) else None;
    hide SendToMask, LastAlive, LockedSeats, Credited, AnySeat, AliveIds, BuildMatchResult;
  }

  /** A match that ends with no send lost tells every member its result, once. */
  lemma EndIsTold(s: Server, lost: Losses)
    requires SessionsOk(s) && s.phase == InMatch && s.matchId != 0 && s.matchMask == Members(s) == AcceptedIds(s.sessions) && s.matchMask != {}
    requires AnySeat(s.seats) && |AliveIds(s.seats)| <= 1 && AliveIds(s.seats) <= Members(s) && Heard(s, lost)
    ensures |s.links| == |s.sessions|
    ensures var t := EndIfDecided(s, lost); exists msg :: ResultSays(msg, s, t) && Told(s, t, msg)
  {
    SlotsOfMembers(s);
    var w := EndIsSent(s, lost);
    var ended := Decided(s, w);
    CreditedName(s, ended, w);
    DecidedKeeps(s, w);
    SameMembers(s, ended, lost);
    hide SessionsOk, Members, AcceptedIds, Heard, Told, SendToMask, Decided, EndIfDecided, AnySeat, AliveIds, ResultSays, BuildMatchResult;
    var msg := BuildMatchResult(ended);
    AllTold(ended, s.matchMask, msg, lost);
    ToldBoth(s, ended, SendToMask(ended, s.matchMask, msg, 4, lost), msg);
    SameWinner(ended, EndIfDecided(s, lost), s, msg);
  }

  lemma DecidedKeeps(s: Server, w: Option<nat>)
    requires SessionsOk(s)
    ensures var ended := Decided(s, w); ended.sessions == s.sessions && ended.links == s.links && SessionsOk(ended)
  {
    CreditKeepsSlots(s, w);
    hide PoolOk, BoundOnce, SlotsOk, AcceptedIds, Credited, AliveIds;
  }

  /** Over every run: when a match ends and no send is lost, everybody still there is told its result, once. */
  lemma EveryEndIsTold(events: seq<Event>, e: Event, lost: Losses)
    requires Enabled(Run(events, lost), e) && forall p, a :: !lost(p, a)
    requires Run(events, lost).phase == InMatch && Run(events + [e], lost).phase == EndOfMatch
    ensures var s, t := Run(events, lost), Run(events + [e], lost);
      exists msg :: ResultSays(msg, s, t) && Told(s.(sessions := t.sessions), t, msg)
  {
    var s, t := Run(events, lost), Run(events + [e], lost);
    EveryRunHolds(events, lost);
    EveryRunHolds(events + [e], lost);
    StepIsTaken(events, e, lost);
    InvSizes(s);
    hide Run, Inv, Told, ResultSays, ServerTick, Disconnect;
    match e
    case EvTick(killed) => TickIsTold(s, t, killed, lost);
    case EvDisconnect(p) => LeaveIsTold(s, t, p, lost);
    case EvHello(p, name, versionMatches) => HelloInMatch(s, p, name, versionMatches, lost);
    case _ =>
  }

  lemma HelloInMatch(s: Server, p: nat, name: Name, versionMatches: bool, lost: Losses)
    requires |s.links| == |s.sessions| && p < |s.sessions| && s.phase == InMatch
    ensures Hello(s, p, name, versionMatches, lost).phase == InMatch
  {
    hide Reserve, HandleJoined, Accept;
  }

  lemma TickIsTold(s: Server, t: Server, killed: set<nat>, lost: Losses)
    requires Inv(s) && s.phase == InMatch && t.phase == EndOfMatch && |s.links| == |s.sessions|
    requires t == ServerTick(s, killed, lost) && forall p, a :: !lost(p, a)
    ensures exists msg :: ResultSays(msg, s, t) && Told(s.(sessions := t.sessions), t, msg)
  {
    MatchFacts(s);
    RoundMask(s);
    MembersAreAccepted(s);
    SessionsOfInv(s);
    var hit := s.(serverTick := s.serverTick + 1, unlockTick := if Unlocks(s) then 0 else s.unlockTick,
                  seats := Killed(if Unlocks(s) then LockedSeats(s.seats, false) else s.seats, killed));
    MatchTickIs(s, killed, lost, hit);
    SeatsOfTick(s.seats, Unlocks(s), killed);
    SurvivorsAre(s.seats, hit.seats, Unlocks(s), killed);
    AnybodyThere(s, hit);
    SurvivorsAreMembers(s, killed);
    hide Inv, Members, AcceptedIds, Killed, LockedSeats, SeatNow, AnySeat, AliveIds, SessionsOk, Told, ResultSays, ServerTick;
    SameMembers(s, hit, lost);
    HitSessions(s, hit);
    DecidedIsTold(hit, s, t, lost);
  }

  lemma SurvivorsAreMembers(s: Server, killed: set<nat>)
    requires forall id: nat | id < |s.seats| :: s.seats[id].Some? <==> id in s.matchMask
    ensures Survivors(s, killed) <= s.matchMask
  {
  }

  lemma HitSessions(s: Server, hit: Server)
    requires SessionsOk(s) && hit == s.(serverTick := hit.serverTick, unlockTick := hit.unlockTick, seats := hit.seats) && |hit.seats| == |s.seats|
    ensures SessionsOk(hit)
  {
  }

  /** What is said of one server holds of another with the same slots, links and match. */
  lemma ToldElsewhere(a: Server, s: Server, t: Server, msg: Control)
    requires ResultSays(msg, a, t) && Told(a, t, msg) && a.links == s.links && a.sessions == t.sessions && a.matchId == s.matchId
    requires |a.slots| == |s.slots| && forall id | 0 <= id < |a.slots| && a.slots[id].Some? :: a.slots[id] == s.slots[id]
    ensures ResultSays(msg, s, t) && Told(s.(sessions := t.sessions), t, msg)
  {
    forall p, id ensures HasId(a, p, id) <==> HasId(s.(sessions := t.sessions), p, id) {
    }
  }

  lemma LeaveIsTold(s: Server, t: Server, p: nat, lost: Losses)
    requires Inv(s) && s.phase == InMatch && t.phase == EndOfMatch && |s.links| == |s.sessions| && p < |s.sessions|
    requires t == Disconnect(s, p, lost) && forall q, a :: !lost(q, a)
    ensures exists msg :: ResultSays(msg, s, t) && Told(s.(sessions := t.sessions), t, msg)
  {
    assert Accepted(s.sessions[p]);
    BoundSeatExists(s, p);
    hide *;
    var id := s.sessions[p].value.playerId.value;
    var left := LeavingMatch(s, p, id, lost);
    DecidedIsTold(left, s, t, lost);
  }

  /** An end decided from `a`, told in terms of `s`, whose slots, links and match `a` has. */
  lemma DecidedIsTold(a: Server, s: Server, t: Server, lost: Losses)
    requires SessionsOk(a) && a.phase == InMatch && a.matchId != 0 && a.matchMask == Members(a) == AcceptedIds(a.sessions) && a.matchMask != {}
    requires AliveIds(a.seats) <= a.matchMask && |a.links| == |a.sessions| && t == EndIfDecided(a, lost) && t.phase == EndOfMatch
    requires a.links == s.links && a.matchId == s.matchId && |a.slots| == |s.slots|
    requires forall id | 0 <= id < |a.slots| && a.slots[id].Some? :: a.slots[id] == s.slots[id]
    requires forall q, n :: !lost(q, n)
    ensures exists msg :: ResultSays(msg, s, t) && Told(s.(sessions := t.sessions), t, msg)
  {
    hide SessionsOk, Members, AcceptedIds, EndIfDecided, AnySeat, AliveIds, ResultSays, Told;
    EndMeansDecided(a, lost);
    EndIsTold(a, lost);
    var msg :| ResultSays(msg, a, t) && Told(a, t, msg);
    ToldElsewhere(a, s, t, msg);
  }

  lemma EndMeansDecided(s: Server, lost: Losses)
    requires |s.links| == |s.sessions| && s.phase == InMatch && EndIfDecided(s, lost).phase == EndOfMatch
    ensures |AliveIds(s.seats)| <= 1 && AnySeat(s.seats) && EndIfDecided(s, lost).sessions == s.sessions
  {
    hide SendResult, LockedSeats, Credited, LastAlive, AnySeat, AliveIds;
  }

  /** The server a disconnect in a match leaves to be decided. */
  lemma LeavingMatch(s: Server, p: nat, id: nat, lost: Losses) returns (left: Server)
    requires Inv(s) && s.phase == InMatch && |s.links| == |s.sessions| && p < |s.sessions|
    requires Accepted(s.sessions[p]) && s.sessions[p].value.playerId.value == id
    requires id < |s.slots| && s.slots[id].Some? && id < |s.reclaims| && id < |s.seats|
    ensures |left.links| == |left.sessions| && Disconnect(s, p, lost) == EndIfDecided(left, lost)
    ensures left.phase == InMatch && left.matchId == s.matchId != 0 && left.links == s.links && left.sessions == s.sessions[p := None]
    ensures |left.slots| == |s.slots| && forall other | 0 <= other < |s.slots| && left.slots[other].Some? :: left.slots[other] == s.slots[other]
    ensures AnySeat(left.seats) && AliveIds(left.seats) == Survivors(s, {id})
    ensures SessionsOk(left) && left.matchMask == Members(left) == AcceptedIds(left.sessions) && left.matchMask != {}
    ensures Survivors(s, {id}) <= left.matchMask
  {
    var freed := FreedServer(s, p);
    left := freed.(countdownMask := s.countdownMask - {id}, matchMask := s.matchMask - {id}, loadedMask := s.loadedMask - {id});
    MatchFacts(s);
    RoundMask(s);
    OthersAlive(s, id);
    assert Disconnect(s, p, lost) == HandleReleased(freed, id, lost);
    hide Inv, AcceptedIds, EndIfDecided, AnySeat, AliveIds, HandleReleased, Disconnect, SessionsOk, Members, Release;
    var other :| other in Survivors(s, {id});
    ReleasedInMatch(freed, left, id, other, lost);
    LeftSessions(s, left, p, id);
  }

  lemma LeftSessions(s: Server, left: Server, p: nat, id: nat)
    requires Inv(s) && s.phase == InMatch && p < |s.sessions| && Accepted(s.sessions[p]) && s.sessions[p].value.playerId.value == id
    requires id < |s.slots| && s.slots[id].Some? && id < |s.reclaims| && id < |s.seats| && |s.links| == |s.sessions|
    requires left == FreedServer(s, p).(countdownMask := left.countdownMask, matchMask := s.matchMask - {id}, loadedMask := left.loadedMask)
    requires Survivors(s, {id}) != {}
    ensures SessionsOk(left) && left.matchMask == Members(left) == AcceptedIds(left.sessions) && left.matchMask != {}
    ensures Survivors(s, {id}) <= left.matchMask
  {
    RoundMask(s);
    SessionsOfInv(s);
    UnbindingAnId(s.sessions, p);
    FreedSessions(s, p);
    hide Inv, AcceptedIds, SessionsOk, Members;
    MasksDoNotMatter(FreedServer(s, p), left);
    AcceptedMembers(left);
    var other :| other in Survivors(s, {id});
    assert other in left.matchMask;
  }

  lemma MasksDoNotMatter(a: Server, b: Server)
    requires SessionsOk(a) && b == a.(countdownMask := b.countdownMask, matchMask := b.matchMask, loadedMask := b.loadedMask)
    ensures SessionsOk(b)
  {
  }

  lemma SameWinner(a: Server, b: Server, s: Server, msg: Control)
    requires a.winner == b.winner && ResultSays(msg, s, a)
    ensures ResultSays(msg, s, b)
  {
  }

  lemma SlotsOfMembers(s: Server)
    requires SessionsOk(s)
    ensures |s.slots| == 4 && forall id: nat | id in AcceptedIds(s.sessions) :: id < 4 && s.slots[id].Some?
  {
    ParticipantsAreAccepted(s);
  }

  lemma CreditedName(s: Server, ended: Server, w: Option<nat>)
    requires ended.matchId == s.matchId && ended.winner == w && ended.slots == Credited(s.slots, w) && (ended.draw ==> w.None?)
    requires w.Some? ==> w.value < |s.slots| && s.slots[w.value].Some?
    ensures ResultSays(BuildMatchResult(ended), s, ended)
  {
  }

  // ----- What the lobby shows -----

  /**
   * The lobby state of any reachable server: every member's name, readiness and wins under its id and nobody else,
   * and while the countdown runs the seconds left, rounded up.
   */
  lemma LobbyShowsTheMembers(events: seq<Event>, lost: Losses)
    ensures var s := Run(events, lost); var msg := BuildLobbyState(s);
      && |msg.seats| == 4 && |s.slots| == 4
      && (forall id: nat | id < 4 :: msg.seats[id].Some? <==> id in Members(s))
      && (forall id: nat | id < 4 && id in Members(s) ::
            && s.slots[id].Some? && msg.seats[id].value.name == s.slots[id].value.name
            && msg.seats[id].value.ready == s.slots[id].value.ready && msg.seats[id].value.wins == s.slots[id].value.wins)
      && (msg.countdown <==> s.phase == LobbyCountdown)
      && (if s.phase == LobbyCountdown
          then 60 * (msg.secondsRemaining - 1) < s.countdownDeadlineTick - s.serverTick <= 60 * msg.secondsRemaining
          else msg.secondsRemaining == 0)
  {
    EveryRunHolds(events, lost);
    var s := Run(events, lost);
    MembersAreAccepted(s);
    if s.phase == LobbyCountdown {
      CountdownFacts(s);
      CountdownAhead(s);
    }
    hide Inv, Run, AcceptedIds;
    SessionsOfMembers(s);
  }

  lemma CountdownAhead(s: Server)
    requires Inv(s) && s.phase == LobbyCountdown
    ensures s.serverTick < s.countdownDeadlineTick
  {
  }

  lemma SessionsOfMembers(s: Server)
    ensures forall id: nat | id < 4 :: id in Members(s) <==> PeerOf(s.sessions, id) < |s.sessions|
  {
    forall id: nat | id < 4 ensures id in Members(s) <==> PeerOf(s.sessions, id) < |s.sessions| {
      var p := PeerOf(s.sessions, id);
      if p < |s.sessions| {
        assert HasId(s, p, id);
      }
      if id in Members(s) {
        var q :| HasId(s, q, id);
        assert Bound(s.sessions[q], id);
      }
    }
  }

  // ----- Phases left alone -----

  /** n ticks on which nobody dies and nothing arrives. */
  function Idle(n: nat): seq<Event> {
    seq(n, _ => EvTick({}))
  }

  lemma OneMoreIdle(events: seq<Event>, n: nat, lost: Losses)
    ensures events + Idle(0) == events
    ensures var s := Run(events + Idle(n), lost); |s.links| == |s.sessions| && Inv(s) && TickOutcome(s, Run(events + Idle(n + 1), lost), {}, lost)
  {
    assert events + Idle(n + 1) == events + Idle(n) + [EvTick({})];
    EveryRunHolds(events + Idle(n), lost);
    EveryEventLeads(events + Idle(n), EvTick({}), lost);
    hide Run, Inv, TickOutcome;
  }

  ghost predicate StillCounting(s: Server, t: Server, n: nat) {
    && t.phase == LobbyCountdown && t.serverTick == s.serverTick + n && t.sessions == s.sessions && t.slots == s.slots
    && t.countdownMask == s.countdownMask && t.countdownDeadlineTick == s.countdownDeadlineTick && t.nextMatchId == s.nextMatchId
  }

  /** A countdown left alone goes on until its deadline. */
  lemma {:induction false} CountdownGoesOn(events: seq<Event>, n: nat, lost: Losses)
    requires Run(events, lost).phase == LobbyCountdown && Run(events, lost).serverTick + n < Run(events, lost).countdownDeadlineTick
    ensures StillCounting(Run(events, lost), Run(events + Idle(n), lost), n)
    decreases n
  {
    hide Run, Inv;
    if n > 0 {
      CountdownGoesOn(events, n - 1, lost);
      OneMoreIdle(events, n - 1, lost);
    } else {
      OneMoreIdle(events, 0, lost);
    }
  }

  /**
   * A countdown left alone starts its match: after exactly the ticks left, if every level info is queued, all
   * members are in a loading match with the next match id.
   */
  lemma CountdownStartsTheMatch(events: seq<Event>, n: nat, lost: Losses)
    requires Run(events, lost).phase == LobbyCountdown && Run(events, lost).serverTick + n + 1 == Run(events, lost).countdownDeadlineTick
    requires forall p, a :: !lost(p, a)
    ensures var s, t := Run(events, lost), Run(events + Idle(n + 1), lost);
      && t.phase == StartingMatch && t.serverTick == s.countdownDeadlineTick && t.sessions == s.sessions && t.matchId == s.nextMatchId
      && t.matchMask == Members(s) && t.loadedMask == {} && t.startDeadlineTick == t.serverTick + 300
  {
    CountdownGoesOn(events, n, lost);
    OneMoreIdle(events, n, lost);
    hide Run, Inv, Members, Told;
    SameSessions(Run(events, lost), Run(events + Idle(n), lost));
  }

  lemma SameSessions(s: Server, t: Server)
    requires t.sessions == s.sessions
    ensures Members(t) == Members(s)
  {
    forall p, id ensures HasId(t, p, id) <==> HasId(s, p, id) {
    }
  }

  ghost predicate SameLiving(s: Server, t: Server) {
    |t.seats| == |s.seats| && forall id: nat | id < |s.seats| ::
      (t.seats[id].Some? <==> s.seats[id].Some?) && (s.seats[id].Some? ==> t.seats[id].value.alive == s.seats[id].value.alive)
  }

  /** A match in which nobody dies goes on, and unlocks at its tick. */
  lemma {:induction false} MatchGoesOn(events: seq<Event>, n: nat, lost: Losses)
    requires Run(events, lost).phase == InMatch
    ensures var s, t := Run(events, lost), Run(events + Idle(n), lost);
      && t.phase == InMatch && t.serverTick == s.serverTick + n && t.sessions == s.sessions && t.matchId == s.matchId && SameLiving(s, t)
      && t.unlockTick == if s.unlockTick <= s.serverTick + n then 0 else s.unlockTick
    decreases n
  {
    hide Run, Inv;
    OneMoreIdle(events, 0, lost);
    if n > 0 {
      MatchGoesOn(events, n - 1, lost);
      OneMoreIdle(events, n - 1, lost);
      NobodyDies(Run(events + Idle(n - 1), lost), Run(events + Idle(n), lost), lost);
      hide SameLiving, TickOutcome;
      LivingChain(Run(events, lost), Run(events + Idle(n - 1), lost), Run(events + Idle(n), lost));
    } else {
      UnlockAhead(Run(events, lost));
    }
  }

  lemma UnlockAhead(s: Server)
    requires Inv(s) && s.phase == InMatch
    ensures s.unlockTick == 0 || s.serverTick < s.unlockTick
  {
  }

  lemma LivingChain(a: Server, b: Server, c: Server)
    requires SameLiving(a, b) && SameLiving(b, c)
    ensures SameLiving(a, c)
  {
  }

  lemma NobodyDies(s: Server, t: Server, lost: Losses)
    requires |s.links| == |s.sessions| && Inv(s) && s.phase == InMatch && TickOutcome(s, t, {}, lost)
    ensures t.phase == InMatch && t.serverTick == s.serverTick + 1 && t.sessions == s.sessions && t.matchId == s.matchId && SameLiving(s, t)
    ensures t.unlockTick == if s.unlockTick != 0 && s.unlockTick <= s.serverTick + 1 then 0 else s.unlockTick
  {
    MatchFacts(s);
    hide Inv;
    assert Survivors(s, {}) == AliveIds(s.seats);
  }

  /** The end of a match lasts until its return tick. */
  lemma {:induction false} EndGoesOn(events: seq<Event>, n: nat, lost: Losses)
    requires Run(events, lost).phase == EndOfMatch && Run(events, lost).serverTick + n < Run(events, lost).returnTick
    ensures Run(events + Idle(n), lost) == Run(events, lost).(serverTick := Run(events, lost).serverTick + n)
    decreases n
  {
    hide Run, Inv;
    OneMoreIdle(events, 0, lost);
    if n > 0 {
      EndGoesOn(events, n - 1, lost);
      OneMoreIdle(events, n - 1, lost);
    }
  }

  lemma EndReturns(events: seq<Event>, n: nat, lost: Losses)
    requires Run(events, lost).phase == EndOfMatch && Run(events, lost).serverTick + n + 1 == Run(events, lost).returnTick
    ensures Dissolved(Run(events + Idle(n + 1), lost))
  {
    EndGoesOn(events, n, lost);
    OneMoreIdle(events, n, lost);
    hide Run, Inv;
  }

  // ----- A whole match -----

  const ANNA: Name := [0x41]
  const BEN: Name := [0x42]

  const GATHER: seq<Event> := [EvConnect(0), EvConnect(1), EvHello(0, ANNA, true), EvHello(1, BEN, true), EvLobbyReady(0, true), EvLobbyReady(1, true)]

  /** Two members with ids 0 and 1 on peers 0 and 1. */
  ghost predicate Pair(s: Server) {
    && |s.sessions| == 8 && s.sessions[0] == Some(Session(Some(0))) && s.sessions[1] == Some(Session(Some(1)))
    && forall p | 2 <= p < 8 :: s.sessions[p].None?
  }

  lemma PairMembers(s: Server)
    requires Pair(s)
    ensures Members(s) == {0, 1}
  {
    assert HasId(s, 0, 0) && HasId(s, 1, 1);
    forall p, id | HasId(s, p, id) ensures id == 0 || id == 1 {
    }
  }

  /** In a lobby with two peers connected, one or none admitted so far. */
  ghost predicate Gathering(s: Server, admitted: nat) {
    && s.phase == Lobby && s.serverTick == 0 && s.nextMatchId == 1 && |s.sessions| == 8 && |s.links| == 8 && |s.slots| == 4 && |s.reclaims| == 4
    && (forall p | 0 <= p < 8 ::
          s.sessions[p] == if p < admitted then Some(Session(Some(p))) else if p < 2 then Some(Session(None)) else None)
    && (forall id | 0 <= id < 4 :: s.reclaims[id].None?)
    && (forall id | 0 <= id < 4 :: if id < admitted then s.slots[id].Some? && !s.slots[id].value.ready else s.slots[id].None?)
  }

  lemma NextIsAdmitted(s: Server, t: Server, k: nat, name: Name, lost: Losses)
    requires k < 2 && Gathering(s, k) && HelloOutcome(s, t, k, name, true, lost) && forall p, a :: !lost(p, a)
    ensures Gathering(t, k + 1)
  {
    forall p, id ensures HasId(s, p, id) <==> 0 <= p < k && id == p {
    }
    forall id: nat ensures IsMember(s, id) <==> id < k {
      assert id < k ==> HasId(s, id, id);
    }
    assert !IsMember(s, 3);
    var id: nat, wins: nat :| Chosen(s, name, id, wins) && Admitted(s, t, k, id, name, wins);
    assert !IsMember(s, k) && id == k;
  }

  lemma Gathered(lost: Losses)
    requires forall p, a :: !lost(p, a)
    ensures Gathering(Run(GATHER[..4], lost), 2)
  {
    var s2 := Run(GATHER[..2], lost);
    Connected(lost);
    hide Run, HelloOutcome, Gathering;
    assert GATHER[..3] == GATHER[..2] + [EvHello(0, ANNA, true)] && GATHER[..4] == GATHER[..3] + [EvHello(1, BEN, true)];
    FirstTwo(s2, 0);
    EveryEventLeads(GATHER[..2], EvHello(0, ANNA, true), lost);
    NextIsAdmitted(s2, Run(GATHER[..3], lost), 0, ANNA, lost);
    FirstTwo(Run(GATHER[..3], lost), 1);
    EveryEventLeads(GATHER[..3], EvHello(1, BEN, true), lost);
    NextIsAdmitted(Run(GATHER[..3], lost), Run(GATHER[..4], lost), 1, BEN, lost);
  }

  lemma FirstTwo(s: Server, k: nat)
    requires Gathering(s, k)
    ensures |s.sessions| == 8 && s.sessions[0].Some? && s.sessions[1].Some?
  {
  }

  lemma Connected(lost: Losses)
    ensures Gathering(Run(GATHER[..2], lost), 0)
  {
    assert GATHER[..2][..1] == GATHER[..1] && GATHER[..1][..0] == [];
    assert Run([], lost) == Start();
    assert Run(GATHER[..1], lost) == Step(Start(), EvConnect(0), lost);
    assert Run(GATHER[..2], lost) == Step(Run(GATHER[..1], lost), EvConnect(1), lost);
  }

  ghost predicate HalfReady(s: Server) {
    && s.phase == Lobby && s.serverTick == 0 && Pair(s) && |s.slots| == 4
    && s.slots[0].Some? && s.slots[0].value.ready && s.slots[1].Some? && !s.slots[1].value.ready
  }

  lemma FirstReady(s: Server, t: Server)
    requires Gathering(s, 2) && ReadyOutcome(s, t, 0, true)
    ensures HalfReady(t)
  {
    assert Pair(s);
    PairMembers(s);
    hide Members;
    assert 1 in Members(s);
  }

  lemma SecondReady(s: Server, t: Server)
    requires HalfReady(s) && ReadyOutcome(s, t, 1, true)
    ensures t.phase == LobbyCountdown && Pair(t) && t.serverTick == 0 && t.countdownDeadlineTick == 180
  {
    PairMembers(s);
    hide Members;
    assert EveryoneReady(s, t.slots);
  }

  /** Both are ready: the countdown runs. */
  lemma CountdownRuns(lost: Losses)
    requires forall p, a :: !lost(p, a)
    ensures var s := Run(GATHER, lost);
      s.phase == LobbyCountdown && Pair(s) && s.serverTick == 0 && s.countdownDeadlineTick == 180 && s.nextMatchId == 1
  {
    Gathered(lost);
    var s4, s5 := Run(GATHER[..4], lost), Run(GATHER[..5], lost);
    assert GATHER[..5] == GATHER[..4] + [EvLobbyReady(0, true)] && GATHER == GATHER[..5] + [EvLobbyReady(1, true)];
    GatheredFacts(s4);
    hide Run, Step, Gathering, ReadyOutcome, HalfReady, Pair;
    EveryEventLeads(GATHER[..4], EvLobbyReady(0, true), lost);
    FirstReady(s4, s5);
    HalfFacts(s5);
    MatchIdStays(GATHER[..4], EvLobbyReady(0, true), lost);
    EveryEventLeads(GATHER[..5], EvLobbyReady(1, true), lost);
    SecondReady(s5, Run(GATHER, lost));
    MatchIdStays(GATHER[..5], EvLobbyReady(1, true), lost);
  }

  lemma GatheredFacts(s: Server)
    requires Gathering(s, 2)
    ensures Pair(s) && s.nextMatchId == 1
  {
  }

  lemma HalfFacts(s: Server)
    requires HalfReady(s)
    ensures Pair(s) && |s.sessions| == 8 && s.sessions[1].Some?
  {
  }

  lemma MatchIdStays(events: seq<Event>, e: Event, lost: Losses)
    requires e.EvLobbyReady?
    ensures Run(events + [e], lost).nextMatchId == Run(events, lost).nextMatchId
  {
    StepIsTaken(events, e, lost);
    hide Run, AllReady, Participants, BuildLobbyState, PushedToAccepted, CountdownSeconds;
  }

  ghost predicate PairLoading(s: Server, loaded: set<nat>) {
    s.phase == StartingMatch && Pair(s) && s.matchId == 1 && s.serverTick == 180 && s.loadedMask == loaded && |s.links| == 8
  }

  lemma FirstLoaded(s: Server, t: Server, lost: Losses)
    requires PairLoading(s, {}) && LoadedOutcome(s, t, 0, 1, lost)
    ensures PairLoading(t, {0})
  {
    PairMembers(s);
    hide Members;
    assert {} + {0} == {0} && 1 !in {0};
  }

  lemma SecondLoaded(s: Server, t: Server, lost: Losses)
    requires PairLoading(s, {0}) && LoadedOutcome(s, t, 1, 1, lost) && forall p, a :: !lost(p, a)
    ensures t.phase == InMatch && Pair(t) && t.matchId == 1 && t.serverTick == 180 && t.unlockTick == 240
  {
    PairMembers(s);
    hide Members, Told;
    assert {0} + {1} == {0, 1};
    assert Heard(s.(loadedMask := {0, 1}), lost);
  }

  const LOAD: seq<Event> := [EvMatchLoaded(0, 1), EvMatchLoaded(1, 1)]

  /** Loading: both acknowledge. */
  lemma MatchRuns(lost: Losses)
    requires forall p, a :: !lost(p, a)
    ensures var s := Run(GATHER + Idle(180) + LOAD, lost);
      s.phase == InMatch && Pair(s) && s.matchId == 1 && s.serverTick == 180 && s.unlockTick == 240
  {
    CountdownRuns(lost);
    var boot := GATHER + Idle(180);
    var s, s1 := Run(boot, lost), Run(boot + [EvMatchLoaded(0, 1)], lost);
    CountdownStartsTheMatch(GATHER, 179, lost);
    LinksOfRun(boot, lost);
    assert PairLoading(s, {});
    hide Run, Step, Pair, Members, Enabled, PairLoading, LoadedOutcome;
    PeersThere(s, {});
    EveryEventLeads(boot, EvMatchLoaded(0, 1), lost);
    FirstLoaded(s, s1, lost);
    PeersThere(s1, {0});
    EveryEventLeads(boot + [EvMatchLoaded(0, 1)], EvMatchLoaded(1, 1), lost);
    assert boot + LOAD == boot + [EvMatchLoaded(0, 1)] + [EvMatchLoaded(1, 1)];
    SecondLoaded(s1, Run(boot + LOAD, lost), lost);
  }

  lemma LinksOfRun(events: seq<Event>, lost: Losses)
    ensures |Run(events, lost).links| == 8
  {
    EveryRunHolds(events, lost);
    InvSizes(Run(events, lost));
  }

  lemma PeersThere(s: Server, loaded: set<nat>)
    requires PairLoading(s, loaded)
    ensures Enabled(s, EvMatchLoaded(0, 1)) && Enabled(s, EvMatchLoaded(1, 1))
  {
  }

  /**
   * The phases are all reachable. With no send lost, two players who connect, say hello and get ready are in a match
   * 180 ticks later once both have loaded; it unlocks after 60 ticks; when one of them dies the other wins, and
   * 180 ticks later the server is back in the lobby.
   */
  lemma AMatchIsPlayed(lost: Losses)
    requires forall p, a :: !lost(p, a)
    ensures var playing := GATHER + Idle(180) + LOAD + Idle(60); var over := playing + [EvTick({1})];
      && Run(GATHER, lost).phase == LobbyCountdown
      && Run(GATHER + Idle(180), lost).phase == StartingMatch
      && Run(GATHER + Idle(180) + LOAD, lost).phase == InMatch
      && Run(playing, lost).phase == InMatch && Run(playing, lost).unlockTick == 0
      && Run(over, lost).phase == EndOfMatch && Run(over, lost).winner == Some(0)
      && Run(over + Idle(180), lost).phase == Lobby
  {
    CountdownRuns(lost);
    CountdownStartsTheMatch(GATHER, 179, lost);
    MatchRuns(lost);
    var start := GATHER + Idle(180) + LOAD;
    MatchGoesOn(start, 60, lost);
    var playing := start + Idle(60);
    hide Run, Step, Pair;
    OneDies(playing, lost);
    EndReturns(playing + [EvTick({1})], 179, lost);
  }

  lemma OneDies(events: seq<Event>, lost: Losses)
    requires Run(events, lost).phase == InMatch && Pair(Run(events, lost))
    ensures var t := Run(events + [EvTick({1})], lost);
      t.phase == EndOfMatch && t.winner == Some(0) && t.returnTick == t.serverTick + 180
  {
    EveryEventLeads(events, EvTick({1}), lost);
    EveryRunHolds(events, lost);
    hide Run, Inv, TickOutcome, Pair;
    OneOfTwoDies(Run(events, lost), Run(events + [EvTick({1})], lost), lost);
  }

  lemma OneOfTwoDies(s: Server, t: Server, lost: Losses)
    requires Inv(s) && s.phase == InMatch && Pair(s) && |s.links| == |s.sessions| && TickOutcome(s, t, {1}, lost)
    ensures t.phase == EndOfMatch && t.winner == Some(0) && t.returnTick == t.serverTick + 180
  {
    BothAlive(s);
    hide Inv, Pair;
    assert 0 in Survivors(s, {1});
    assert Survivors(s, {1}) == {0};
  }

  lemma BothAlive(s: Server)
    requires Inv(s) && s.phase == InMatch && Pair(s)
    ensures AliveIds(s.seats) == {0, 1} && |s.seats| == 4
  {
    MatchFacts(s);
    RoundMask(s);
    MembersAreAccepted(s);
    PairMembers(s);
    hide Inv, Members, AcceptedIds;
    assert AliveIds(s.seats) <= {0, 1};
    BothOfTwo(AliveIds(s.seats));
  }

  lemma BothOfTwo(ids: set<nat>)
    requires ids <= {0, 1} && |ids| >= 2
    ensures ids == {0, 1}
  {
    if 0 !in ids {
      AtMostOne(ids, 1);
    }
    if 1 !in ids {
      AtMostOne(ids, 0);
    }
  }
}
