/** What every step of the server flow keeps. */
module FlowInv {
  import opened Config
  import opened Wrappers
  import opened ClientFlow
  import opened Flow

  // ----- Ids, sessions and slots -----

  ghost predicate StrictlySorted(pool: seq<nat>) {
    forall i, j | 0 <= i < j < |pool| :: pool[i] < pool[j]
  }

  /** No id is bound twice, and every bound id exists. */
  ghost predicate BoundOnce(sessions: seq<Option<Session>>) {
    && (forall p | 0 <= p < |sessions| && Accepted(sessions[p]) :: sessions[p].value.playerId.value < MAX_PLAYERS)
    && (forall p, q | 0 <= p < q < |sessions| && Accepted(sessions[p]) && Accepted(sessions[q]) ::
          sessions[p].value.playerId.value != sessions[q].value.playerId.value)
  }

  /** The free pool and the bound ids partition the ids. */
  ghost predicate PoolOk(pool: seq<nat>, bound: set<nat>) {
    && StrictlySorted(pool)
    && (forall id | id in pool :: id < MAX_PLAYERS)
    && (forall id: nat | id < MAX_PLAYERS :: id in pool <==> id !in bound)
  }

  /** A seat is occupied exactly while its id is bound; a reclaim record exists only for a free id. */
  ghost predicate SlotsOk(slots: seq<Option<PlayerSlot>>, reclaims: seq<Option<Reclaim>>, bound: set<nat>) {
    && |slots| == MAX_PLAYERS && |reclaims| == MAX_PLAYERS
    && (forall id: nat | id < MAX_PLAYERS :: slots[id].Some? <==> id in bound)
    && (forall id: nat | id < MAX_PLAYERS && reclaims[id].Some? :: id !in bound)
  }

  ghost predicate SessionsOk(s: Server) {
    && |s.sessions| == PEER_CAPACITY && |s.links| == PEER_CAPACITY && |s.seats| == MAX_PLAYERS
    && BoundOnce(s.sessions)
    && PoolOk(s.pool, AcceptedIds(s.sessions))
    && SlotsOk(s.slots, s.reclaims, AcceptedIds(s.sessions))
    && s.nextMatchId >= 1
  }

  // ----- Phases -----

  ghost predicate CountdownOff(s: Server) {
    s.countdownMask == {} && s.countdownDeadlineTick == 0 && s.countdownLastBroadcastSecond == 0
  }

  /** Outside a round there is no round state. */
  ghost predicate NoRound(s: Server) {
    && s.matchId == 0 && s.matchMask == {} && s.loadedMask == {}
    && s.startDeadlineTick == 0 && s.goShowTick == 0 && s.unlockTick == 0 && s.returnTick == 0
    && s.winner.None? && !s.draw
    && forall id | 0 <= id < |s.seats| :: s.seats[id].None?
  }

  ghost predicate ReadyTogether(s: Server) {
    && |AcceptedIds(s.sessions)| >= 2
    && forall id | 0 <= id < |s.slots| && s.slots[id].Some? :: s.slots[id].value.ready
  }

  ghost predicate CountdownOn(s: Server) {
    && s.countdownMask == AcceptedIds(s.sessions) && ReadyTogether(s)
    && s.serverTick < s.countdownDeadlineTick <= s.serverTick + LOBBY_COUNTDOWN_TICKS
  }

  /** In a round the players with match state, the match mask and the accepted ids are the same. */
  ghost predicate InRound(s: Server) {
    && 1 <= s.matchId < s.nextMatchId && CountdownOff(s)
    && s.matchMask == AcceptedIds(s.sessions) && s.matchMask != {} && s.loadedMask <= s.matchMask
    && forall id: nat | id < |s.seats| :: s.seats[id].Some? <==> id in s.matchMask
  }

  ghost predicate SeatsLocked(seats: seq<Option<Seat>>) {
    forall id | 0 <= id < |seats| && seats[id].Some? :: seats[id].value.inputLocked
  }

  ghost predicate SeatsAlive(seats: seq<Option<Seat>>) {
    forall id | 0 <= id < |seats| && seats[id].Some? :: seats[id].value.alive
  }

  ghost predicate StartingOk(s: Server) {
    && InRound(s) && |s.matchMask| >= 2 && s.loadedMask != s.matchMask
    && s.serverTick < s.startDeadlineTick <= s.serverTick + LOAD_TIMEOUT_TICKS
    && s.goShowTick == 0 && s.unlockTick == 0 && s.returnTick == 0 && s.winner.None? && !s.draw
    && SeatsAlive(s.seats) && SeatsLocked(s.seats)
  }

  ghost predicate InMatchOk(s: Server) {
    && InRound(s) && s.loadedMask == s.matchMask && |AliveIds(s.seats)| >= 2
    && s.startDeadlineTick == 0 && s.returnTick == 0 && s.winner.None? && !s.draw
    && (s.unlockTick == 0 || (s.serverTick < s.unlockTick <= s.serverTick + GO_DELAY_TICKS && SeatsLocked(s.seats)))
  }

  ghost predicate EndOk(s: Server) {
    && InRound(s) && s.loadedMask == s.matchMask
    && s.startDeadlineTick == 0 && s.goShowTick == 0 && s.unlockTick == 0
    && s.serverTick < s.returnTick <= s.serverTick + RETURN_TICKS
    && (s.draw <==> s.winner.None?) && SeatsLocked(s.seats)
  }

  ghost predicate PhaseOk(s: Server) {
    match s.phase
    case Lobby => NoRound(s) && CountdownOff(s)
    case LobbyCountdown => NoRound(s) && CountdownOn(s) && s.countdownLastBroadcastSecond == CountdownSeconds(s)
    case StartingMatch => StartingOk(s)
    case InMatch => InMatchOk(s)
    case EndOfMatch => EndOk(s)
  }

  ghost predicate Inv(s: Server) {
    SessionsOk(s) && PhaseOk(s)
  }

  // ----- The pool -----

  lemma {:induction false} RemoveTakesOut(pool: seq<nat>, id: nat)
    requires StrictlySorted(pool)
    ensures StrictlySorted(Remove(pool, id))
    ensures forall x: nat :: x in Remove(pool, id) <==> x in pool && x != id
  {
    if pool != [] && pool[0] != id {
      RemoveTakesOut(pool[1..], id);
      var rest := Remove(pool[1..], id);
      forall j | 0 <= j < |rest| ensures pool[0] < rest[j] {
        assert rest[j] in pool[1..];
      }
    }
  }

  lemma {:induction false} ReleasePutsIn(pool: seq<nat>, id: nat)
    requires StrictlySorted(pool)
    ensures StrictlySorted(Release(pool, id))
    ensures forall x: nat :: x in Release(pool, id) <==> x in pool || x == id
  {
    if pool != [] && pool[0] < id {
      ReleasePutsIn(pool[1..], id);
      var rest := Release(pool[1..], id);
      forall j | 0 <= j < |rest| ensures pool[0] < rest[j] {
        assert rest[j] in pool[1..] || rest[j] == id;
      }
    }
  }

  /** Taking an id and giving it back leaves the pool as it was. */
  lemma {:induction false} ReleaseUndoesRemove(pool: seq<nat>, id: nat)
    requires StrictlySorted(pool) && id in pool
    ensures Release(Remove(pool, id), id) == pool
  {
    if pool[0] != id {
      ReleaseUndoesRemove(pool[1..], id);
      assert pool[0] < id;
      assert Release([pool[0]] + Remove(pool[1..], id), id) == [pool[0]] + Release(Remove(pool[1..], id), id);
    } else if |pool| > 1 {
      assert pool[1] > id;
      assert Release(pool[1..], id) == [id] + pool[1..];
    }
  }

  lemma PoolTakes(pool: seq<nat>, bound: set<nat>, id: nat)
    requires PoolOk(pool, bound) && id in pool
    ensures PoolOk(Remove(pool, id), bound + {id})
  {
    RemoveTakesOut(pool, id);
  }

  lemma PoolGains(pool: seq<nat>, bound: set<nat>, id: nat)
    requires PoolOk(pool, bound) && id in bound && id < MAX_PLAYERS
    ensures PoolOk(Release(pool, id), bound - {id})
  {
    ReleasePutsIn(pool, id);
  }

  // ----- Sessions -----

  lemma BindingAnId(sessions: seq<Option<Session>>, p: nat, id: nat)
    requires BoundOnce(sessions) && p < |sessions| && !Accepted(sessions[p])
    requires id < MAX_PLAYERS && id !in AcceptedIds(sessions)
    ensures BoundOnce(sessions[p := Some(Session(Some(id)))])
    ensures AcceptedIds(sessions[p := Some(Session(Some(id)))]) == AcceptedIds(sessions) + {id}
  {
    var after := sessions[p := Some(Session(Some(id)))];
    forall q | 0 <= q < |sessions| && Accepted(sessions[q]) ensures sessions[q].value.playerId.value in AcceptedIds(sessions) {
    }
    forall x ensures x in AcceptedIds(after) <==> x in AcceptedIds(sessions) + {id} {
      if x in AcceptedIds(sessions) {
        var q :| 0 <= q < |sessions| && Accepted(sessions[q]) && sessions[q].value.playerId.value == x;
        assert after[q] == sessions[q];
      }
      if x == id {
        assert Accepted(after[p]) && after[p].value.playerId.value == id;
      }
    }
  }

  lemma UnbindingAnId(sessions: seq<Option<Session>>, p: nat)
    requires BoundOnce(sessions) && p < |sessions| && Accepted(sessions[p])
    ensures BoundOnce(sessions[p := None])
    ensures AcceptedIds(sessions[p := None]) == AcceptedIds(sessions) - {sessions[p].value.playerId.value}
    ensures sessions[p].value.playerId.value in AcceptedIds(sessions)
  {
    var after, id := sessions[p := None], sessions[p].value.playerId.value;
    forall x ensures x in AcceptedIds(after) <==> x in AcceptedIds(sessions) - {id} {
      if x in AcceptedIds(sessions) && x != id {
        var q :| 0 <= q < |sessions| && Accepted(sessions[q]) && sessions[q].value.playerId.value == x;
        assert after[q] == sessions[q];
      }
      if x in AcceptedIds(after) {
        var q :| 0 <= q < |after| && Accepted(after[q]) && after[q].value.playerId.value == x;
        assert sessions[q] == after[q] && q != p;
        assert q < p || p < q;
      }
    }
  }

  /** Replacing a session that is bound to nothing by another one leaves the bound ids alone. */
  lemma UnacceptedIsSilent(sessions: seq<Option<Session>>, p: nat, slot: Option<Session>)
    requires BoundOnce(sessions) && p < |sessions| && !Accepted(sessions[p]) && !Accepted(slot)
    ensures BoundOnce(sessions[p := slot]) && AcceptedIds(sessions[p := slot]) == AcceptedIds(sessions)
  {
    var after := sessions[p := slot];
    forall x ensures x in AcceptedIds(after) <==> x in AcceptedIds(sessions) {
      if x in AcceptedIds(sessions) {
        var q :| 0 <= q < |sessions| && Accepted(sessions[q]) && sessions[q].value.playerId.value == x;
        assert after[q] == sessions[q];
      }
      if x in AcceptedIds(after) {
        var q :| 0 <= q < |after| && Accepted(after[q]) && after[q].value.playerId.value == x;
        assert sessions[q] == after[q];
      }
    }
  }

  lemma PeerOfBound(sessions: seq<Option<Session>>, p: nat)
    requires BoundOnce(sessions) && p < |sessions| && Accepted(sessions[p])
    ensures PeerOf(sessions, sessions[p].value.playerId.value) == p
  {
    var id := sessions[p].value.playerId.value;
    var q := PeerOf(sessions, id);
    assert Bound(sessions[p], id);
    assert q <= p;
  }

  /** Every bound id has its slot, so the participants are exactly the accepted ids. */
  lemma ParticipantsAreAccepted(s: Server)
    requires SessionsOk(s)
    ensures !SlotMissing(s) && Participants(s) == AcceptedIds(s.sessions)
    ensures AllReady(s) <==> forall id | 0 <= id < |s.slots| && s.slots[id].Some? :: s.slots[id].value.ready
    ensures forall id | id in AcceptedIds(s.sessions) :: id < MAX_PLAYERS
  {
    forall id | id in AcceptedIds(s.sessions) ensures id < MAX_PLAYERS && s.slots[id].Some? {
    }
  }

  // ----- Only links change -----

  lemma LinksDoNotMatter(s: Server, links: seq<Link>)
    requires Inv(s) && |links| == |s.links|
    ensures Inv(s.(links := links))
  {
    assert CountdownSeconds(s.(links := links)) == CountdownSeconds(s);
  }

  // ----- Back to the lobby -----

  lemma UnreadyKeepsSlots(s: Server)
    requires SlotsOk(s.slots, s.reclaims, AcceptedIds(s.sessions))
    ensures SlotsOk(UnreadySlots(s.slots), s.reclaims, AcceptedIds(s.sessions))
  {
  }

  lemma ResetToLobbyHolds(s: Server)
    requires SessionsOk(s)
    ensures Inv(ResetToLobby(s)) && ResetToLobby(s).phase == Lobby
  {
    hide PoolOk, SlotsOk, BoundOnce;
    UnreadyKeepsSlots(s);
  }

  lemma ResetUnreadyHolds(s: Server, lost: Losses)
    requires SessionsOk(s) && NoRound(s)
    ensures Inv(ResetUnready(s, lost))
  {
    hide PoolOk, SlotsOk, BoundOnce;
    UnreadyKeepsSlots(s);
  }

  lemma CancelStartingHolds(s: Server, mask: set<nat>, lost: Losses)
    requires SessionsOk(s)
    ensures Inv(CancelStarting(s, mask, lost)) && CancelStarting(s, mask, lost).phase == Lobby
  {
    hide Inv, SendCancelled, ResetToLobby;
    var told := SendCancelled(s, mask, lost);
    hide PoolOk, SlotsOk, BoundOnce;
    ResetToLobbyHolds(told);
    var reset := ResetToLobby(told);
    InvSizes(reset);
    LinksDoNotMatter(reset, BroadcastLobbyState(reset, lost).links);
  }

  lemma InvSizes(s: Server)
    requires Inv(s)
    ensures |s.sessions| == PEER_CAPACITY && |s.links| == PEER_CAPACITY && |s.slots| == MAX_PLAYERS
    ensures |s.reclaims| == MAX_PLAYERS && |s.seats| == MAX_PLAYERS
  {
  }

  // ----- Lobby steps -----

  lemma ReadyChangedHolds(s: Server, lost: Losses)
    requires SessionsOk(s) && NoRound(s)
    requires s.phase.Lobby? ==> CountdownOff(s)
    requires s.phase.LobbyCountdown? ==>
      && s.countdownMask == AcceptedIds(s.sessions) && |AcceptedIds(s.sessions)| >= 2
      && s.serverTick < s.countdownDeadlineTick <= s.serverTick + LOBBY_COUNTDOWN_TICKS
      && s.countdownLastBroadcastSecond == CountdownSeconds(s)
    requires s.phase.Lobby? || s.phase.LobbyCountdown?
    ensures Inv(HandleReadyChanged(s, lost))
  {
    ParticipantsAreAccepted(s);
    hide PoolOk, SlotsOk, BoundOnce, SlotMissing, Participants, AllReady;
  }

  /** At the deadline the ready conditions always still hold, so the re-check never cancels the countdown. */
  lemma BootstrapRecheckNeverFails(s: Server)
    requires SessionsOk(s) && s.phase.LobbyCountdown? && s.countdownMask == AcceptedIds(s.sessions) && ReadyTogether(s)
    ensures AllReady(s) && Participants(s) == s.countdownMask && |Participants(s)| >= 2 && s.countdownMask != {}
  {
    ParticipantsAreAccepted(s);
  }

  lemma BootstrappedHolds(s: Server, mask: set<nat>)
    requires SessionsOk(s) && s.phase.LobbyCountdown? && mask == AcceptedIds(s.sessions) && |mask| >= 2
    ensures SessionsOk(Bootstrapped(s, mask)) && |Bootstrapped(s, mask).seats| == MAX_PLAYERS
    ensures forall links | |links| == |s.links| ::
      Inv(Bootstrapped(s, mask).(links := links, seats := Seated(Bootstrapped(s, mask).seats, mask)))
  {
    hide PoolOk, SlotsOk, BoundOnce;
    UnreadyKeepsSlots(s);
  }

  lemma BootstrapHolds(s: Server, lost: Losses)
    requires SessionsOk(s) && NoRound(s) && s.phase.LobbyCountdown?
    requires s.countdownMask == AcceptedIds(s.sessions) && ReadyTogether(s)
    ensures Inv(BeginMatchBootstrap(s, lost))
    ensures BeginMatchBootstrap(s, lost).phase == Lobby || BeginMatchBootstrap(s, lost).phase == StartingMatch
  {
    hide Inv, Bootstrapped, AllReady, Participants, SlotMissing, SendToMask, ReachedIds, CancelStarting, PoolOk, SlotsOk, BoundOnce;
    BootstrapRecheckNeverFails(s);
    ParticipantsAreAccepted(s);
    var mask := Participants(s);
    assert Known(mask) == mask;
    BootstrappedHolds(s, mask);
    var boot := Bootstrapped(s, mask);
    BootstrappedIs(s, mask);
    var told := SendToMask(boot, mask, LevelInfo(boot.matchId), MAX_PLAYERS, lost);
    var reached := ReachedIds(boot, mask, LevelInfo(boot.matchId), MAX_PLAYERS, lost);
    var seated := told.(seats := Seated(told.seats, reached));
    if reached != mask {
      SeatsDoNotMatter(told, Seated(told.seats, reached));
      CancelStartingHolds(seated, reached, lost);
    } else {
      assert seated.(matchMask := reached) == boot.(links := told.links, seats := Seated(boot.seats, mask));
    }
  }

  lemma BootstrappedIs(s: Server, mask: set<nat>)
    requires |s.links| == |s.sessions|
    ensures var b := Bootstrapped(s, mask);
      && b.sessions == s.sessions && b.links == s.links && b.matchId == s.nextMatchId && b.matchMask == mask
      && b.phase == StartingMatch && |b.seats| == |s.seats| && b.serverTick == s.serverTick
  {
  }

  lemma SeatsDoNotMatter(s: Server, seats: seq<Option<Seat>>)
    requires SessionsOk(s) && |seats| == |s.seats|
    ensures SessionsOk(s.(seats := seats))
  {
  }

  // ----- Loading and commit -----

  lemma CommitHolds(s: Server, lost: Losses)
    requires SessionsOk(s) && s.phase.StartingMatch? && InRound(s) && |s.matchMask| >= 2
    requires s.serverTick < s.startDeadlineTick <= s.serverTick + LOAD_TIMEOUT_TICKS
    requires s.goShowTick == 0 && s.unlockTick == 0 && s.returnTick == 0 && s.winner.None? && !s.draw
    requires SeatsAlive(s.seats) && SeatsLocked(s.seats)
    ensures Inv(MaybeCommit(s, lost))
  {
    hide SendToMask, ReachedIds, CancelStarting, PoolOk, SlotsOk, BoundOnce;
    ParticipantsAreAccepted(s);
    if s.loadedMask == s.matchMask {
      assert Known(s.matchMask) == s.matchMask;
      var go := s.serverTick + GO_DELAY_TICKS;
      var told := SendToMask(s, s.matchMask, MatchStart(s.matchId, go, go), MAX_PLAYERS, lost);
      CancelStartingHolds(told, s.matchMask, lost);
      assert AliveIds(s.seats) == s.matchMask;
    }
  }

  // ----- End of match -----

  lemma {:induction false} LastAliveIsAlive(seats: seq<Option<Seat>>)
    ensures LastAlive(seats).Some? <==> AliveIds(seats) != {}
    ensures LastAlive(seats).Some? ==> LastAlive(seats).value in AliveIds(seats)
    decreases |seats|
  {
    if seats != [] {
      var n := |seats| - 1;
      LastAliveIsAlive(seats[..n]);
      assert AliveIds(seats) == AliveIds(seats[..n]) + if seats[n].Some? && seats[n].value.alive then {n} else {};
    }
  }

  lemma CreditKeepsSlots(s: Server, w: Option<nat>)
    requires SlotsOk(s.slots, s.reclaims, AcceptedIds(s.sessions))
    ensures SlotsOk(Credited(s.slots, w), s.reclaims, AcceptedIds(s.sessions))
  {
  }

  /** The sole survivor wins; a draw means nobody survived. */
  lemma EndIfDecidedHolds(s: Server, lost: Losses)
    requires SessionsOk(s) && s.phase.InMatch? && InRound(s) && s.loadedMask == s.matchMask
    requires s.startDeadlineTick == 0 && s.returnTick == 0 && s.winner.None? && !s.draw
    requires s.unlockTick == 0 || (s.serverTick < s.unlockTick <= s.serverTick + GO_DELAY_TICKS && SeatsLocked(s.seats))
    ensures Inv(EndIfDecided(s, lost))
  {
    hide SendToMask, PoolOk, SlotsOk, BoundOnce;
    ParticipantsAreAccepted(s);
    var anyone :| anyone in s.matchMask;
    assert s.seats[anyone].Some?;
    LastAliveIsAlive(s.seats);
    CreditKeepsSlots(s, if AliveIds(s.seats) == {} then None else LastAlive(s.seats));
    var alive := AliveIds(s.seats);
    if |alive| <= 1 {
      assert |alive| == 0 <==> alive == {};
      assert |alive| == 1 <==> alive != {};
    }
  }

  // ----- Disconnects -----

  ghost predicate FreedFrom(before: Server, s: Server, id: nat) {
    && id in AcceptedIds(before.sessions) && AcceptedIds(s.sessions) == AcceptedIds(before.sessions) - {id}
    && |s.seats| == |before.seats| && id < |s.seats| && s.seats == before.seats[id := None]
    && s == before.(sessions := s.sessions, slots := s.slots, reclaims := s.reclaims, seats := s.seats, pool := s.pool)
  }

  lemma FreedKeepsNoRound(before: Server, s: Server, id: nat)
    requires NoRound(before) && FreedFrom(before, s, id)
    ensures NoRound(s.(countdownMask := s.countdownMask - {id}, matchMask := s.matchMask - {id}, loadedMask := s.loadedMask - {id}))
  {
  }

  lemma ReleasedHolds(before: Server, s: Server, id: nat, lost: Losses)
    requires Inv(before) && FreedFrom(before, s, id) && SessionsOk(s)
    ensures Inv(HandleReleased(s, id, lost))
  {
    hide CancelStarting, ResetUnready, ResetToLobby, EndIfDecided, PoolOk, SlotsOk, BoundOnce, NoRound;
    var left := s.(countdownMask := s.countdownMask - {id}, matchMask := s.matchMask - {id}, loadedMask := s.loadedMask - {id});
    assert SessionsOk(left);
    match s.phase
    case Lobby =>
      FreedKeepsNoRound(before, s, id);
      ResetUnreadyHolds(left, lost);
    case LobbyCountdown =>
      FreedKeepsNoRound(before, s, id);
      ResetUnreadyHolds(left, lost);
    case StartingMatch => CancelStartingHolds(left, left.matchMask, lost);
    case InMatch =>
      ResetToLobbyHolds(left);
      if left.matchMask != {} {
        EndIfDecidedHolds(left, lost);
      }
    case EndOfMatch =>
      ResetToLobbyHolds(left);
      if left.matchMask != {} {
        assert EndIfDecided(left, lost) == left by {
          NothingToEnd(left, lost);
        }
      }
  }

  lemma NothingToEnd(s: Server, lost: Losses)
    requires |s.links| == |s.sessions| && !s.phase.InMatch?
    ensures EndIfDecided(s, lost) == s
  {
  }

  lemma SlotsFreed(slots: seq<Option<PlayerSlot>>, reclaims: seq<Option<Reclaim>>, bound: set<nat>, id: nat, r: Option<Reclaim>)
    requires SlotsOk(slots, reclaims, bound) && id < MAX_PLAYERS
    ensures SlotsOk(slots[id := None], reclaims[id := r], bound - {id})
  {
  }

  /** The server with peer p's session gone and its id given back. */
  function FreedServer(s: Server, p: nat): Server
    requires p < |s.sessions| && Accepted(s.sessions[p])
    requires var id := s.sessions[p].value.playerId.value; id < |s.slots| && s.slots[id].Some? && id < |s.reclaims| && id < |s.seats|
  {
    var id := s.sessions[p].value.playerId.value;
    s.(sessions := s.sessions[p := None],
       reclaims := s.reclaims[id := Some(Reclaim(s.slots[id].value.name, s.slots[id].value.wins))],
       seats := s.seats[id := None], slots := s.slots[id := None], pool := Release(s.pool, id))
  }

  lemma FreedSessions(s: Server, p: nat)
    requires SessionsOk(s) && p < |s.sessions| && Accepted(s.sessions[p])
    ensures var id := s.sessions[p].value.playerId.value; id < |s.slots| && s.slots[id].Some? && id < |s.reclaims| && id < |s.seats|
    ensures SessionsOk(FreedServer(s, p)) && FreedFrom(s, FreedServer(s, p), s.sessions[p].value.playerId.value)
  {
    hide PoolOk, SlotsOk, AcceptedIds, BoundOnce;
    UnbindingAnId(s.sessions, p);
    BoundIdExists(s, p);
    var id := s.sessions[p].value.playerId.value;
    PoolGains(s.pool, AcceptedIds(s.sessions), id);
    SlotsFreed(s.slots, s.reclaims, AcceptedIds(s.sessions), id, Some(Reclaim(s.slots[id].value.name, s.slots[id].value.wins)));
  }

  lemma DisconnectHolds(s: Server, p: nat, lost: Losses)
    requires Inv(s) && p < |s.sessions|
    ensures Inv(Disconnect(s, p, lost))
  {
    hide HandleReleased, PoolOk, SlotsOk, PhaseOk, AcceptedIds, BoundOnce;
    if !Accepted(s.sessions[p]) {
      SilentSession(s, p, None, s.links);
    } else {
      FreedSessions(s, p);
      BoundIdExists(s, p);
      var id := s.sessions[p].value.playerId.value;
      var freed := FreedServer(s, p);
      ReleasedHolds(s, freed, id, lost);
    }
  }

  lemma BoundIdExists(s: Server, p: nat)
    requires SessionsOk(s) && p < |s.sessions| && Accepted(s.sessions[p])
    ensures var id := s.sessions[p].value.playerId.value;
      id < MAX_PLAYERS && id in AcceptedIds(s.sessions) && s.slots[id].Some?
      && |s.slots| == MAX_PLAYERS && |s.reclaims| == MAX_PLAYERS && |s.seats| == MAX_PLAYERS
  {
    UnbindingAnId(s.sessions, p);
  }

  lemma BoundSeatExists(s: Server, p: nat)
    requires Inv(s) && p < |s.sessions| && Accepted(s.sessions[p])
    ensures s.sessions[p].value.playerId.value < MAX_PLAYERS && s.slots[s.sessions[p].value.playerId.value].Some?
    ensures |s.slots| == MAX_PLAYERS && |s.reclaims| == MAX_PLAYERS && |s.seats| == MAX_PLAYERS
  {
    BoundIdExists(s, p);
  }

  // ----- Connects and Hellos -----

  lemma SilentSession(s: Server, p: nat, slot: Option<Session>, links: seq<Link>)
    requires Inv(s) && p < |s.sessions| && !Accepted(s.sessions[p]) && !Accepted(slot) && |links| == |s.links|
    ensures Inv(s.(sessions := s.sessions[p := slot], links := links))
  {
    UnacceptedIsSilent(s.sessions, p, slot);
    hide AcceptedIds, PoolOk, SlotsOk, BoundOnce;
    assert CountdownSeconds(s.(sessions := s.sessions[p := slot], links := links)) == CountdownSeconds(s);
  }

  lemma ConnectHolds(s: Server, p: nat)
    requires Inv(s) && p < |s.sessions| && s.sessions[p].None?
    ensures Inv(Connect(s, p))
  {
    InvSizes(s);
    SilentSession(s, p, Some(Session(None)), s.links[p := s.links[p].(sent := [])]);
    hide Inv;
  }

  /** The id a Hello reserves is free; a record that carries the name always wins, and its id is always free. */
  lemma ReservedIsFree(s: Server, name: Name)
    requires SessionsOk(s) && Reserve(s, name).Some?
    ensures var (id, wins) := Reserve(s, name).value;
      && id < MAX_PLAYERS && id in s.pool && id !in AcceptedIds(s.sessions)
      && ((exists j | 0 <= j < MAX_PLAYERS :: s.reclaims[j].Some? && s.reclaims[j].value.name == name) ==>
            s.reclaims[id].Some? && s.reclaims[id].value == Reclaim(name, wins))
  {
    hide BoundOnce, AcceptedIds;
    var r := ReclaimedId(s, name, 0);
    assert s.pool != [] ==> s.pool[0] in s.pool;
    forall j | 0 <= j < MAX_PLAYERS && s.reclaims[j].Some? ensures j in s.pool {
    }
  }

  /** A seat is refused only when all four are taken. */
  lemma RefusedOnlyWhenFull(s: Server, name: Name)
    requires SessionsOk(s)
    ensures Reserve(s, name).None? <==> forall id: nat | id < MAX_PLAYERS :: id in AcceptedIds(s.sessions)
  {
    hide BoundOnce, AcceptedIds;
    if s.pool != [] {
      assert s.pool[0] in s.pool;
    }
  }

  lemma SlotsTaken(slots: seq<Option<PlayerSlot>>, reclaims: seq<Option<Reclaim>>, bound: set<nat>, id: nat, slot: PlayerSlot)
    requires SlotsOk(slots, reclaims, bound) && id < MAX_PLAYERS
    ensures SlotsOk(slots[id := Some(slot)], reclaims[id := None], bound + {id})
  {
  }

  lemma AcceptHolds(s: Server, p: nat, id: nat, name: Name, wins: nat, lost: Losses)
    requires Inv(s) && (s.phase.Lobby? || s.phase.LobbyCountdown?)
    requires p < |s.sessions| && !Accepted(s.sessions[p]) && id < MAX_PLAYERS && id in s.pool && id !in AcceptedIds(s.sessions)
    requires |s.slots| == MAX_PLAYERS && |s.reclaims| == MAX_PLAYERS && |s.links| == |s.sessions|
    ensures Inv(HandleJoined(Accept(s.(pool := Remove(s.pool, id)), p, id, name, wins), lost))
  {
    PoolTakes(s.pool, AcceptedIds(s.sessions), id);
    BindingAnId(s.sessions, p, id);
    SlotsTaken(s.slots, s.reclaims, AcceptedIds(s.sessions), id, PlayerSlot(name, false, wins));
    hide AcceptedIds, PoolOk, SlotsOk, BoundOnce, ResetUnready;
    var after := Accept(s.(pool := Remove(s.pool, id)), p, id, name, wins);
    assert NoRound(s) ==> NoRound(after);
    ResetUnreadyHolds(after, lost);
  }

  lemma HelloHolds(s: Server, p: nat, name: Name, versionMatches: bool, lost: Losses)
    requires Inv(s) && p < |s.sessions| && s.sessions[p].Some?
    ensures |s.links| == |s.sessions| && Inv(Hello(s, p, name, versionMatches, lost))
  {
    InvSizes(s);
    var hello := Hello(s, p, name, versionMatches, lost);
    InLobby(s);
    if Accepted(s.sessions[p]) || !versionMatches || s.phase.StartingMatch? || s.phase.InMatch? || s.phase.EndOfMatch?
       || Reserve(s, name).None? {
      hide Inv, SendTo, Reserve;
      LinksDoNotMatter(s, hello.links);
    } else {
      AdmissionHolds(s, p, name, lost);
    }
  }

  lemma InLobby(s: Server)
    requires Inv(s)
    ensures s.phase.Lobby? || s.phase.LobbyCountdown? ==> NoRound(s)
  {
  }

  /** An admission: a lost Welcome gives the id back, a queued one binds it. */
  lemma AdmissionHolds(s: Server, p: nat, name: Name, lost: Losses)
    requires Inv(s) && p < |s.sessions| && |s.links| == |s.sessions| && !Accepted(s.sessions[p])
    requires (s.phase.Lobby? || s.phase.LobbyCountdown?) && Reserve(s, name).Some?
    ensures Inv(Hello(s, p, name, true, lost))
  {
    ReservedIsFree(s, name);
    PoolIsSorted(s);
    InvSizes(s);
    hide Inv, SessionsOk, Accept, HandleJoined, Reserve, Release, Remove, AcceptedIds;
    var id, wins := Reserve(s, name).value.0, Reserve(s, name).value.1;
    ReleaseUndoesRemove(s.pool, id);
    var welcomed := SendTo(s, p, Welcome(id), lost);
    LinksDoNotMatter(s, Hello(s, p, name, true, lost).links);
    if !lost(p, s.links[p].attempts) {
      LinksDoNotMatter(s, welcomed.links);
      AcceptHolds(welcomed, p, id, name, wins, lost);
    }
  }

  lemma PoolIsSorted(s: Server)
    requires Inv(s)
    ensures StrictlySorted(s.pool) && SessionsOk(s)
  {
  }

  // ----- Ready flags and load acknowledgements -----

  lemma LobbyReadyHolds(s: Server, p: nat, ready: bool, lost: Losses)
    requires Inv(s) && p < |s.sessions|
    ensures |s.links| == |s.sessions| && Inv(LobbyReady(s, p, ready, lost))
  {
    InvSizes(s);
    if (s.phase.Lobby? || s.phase.LobbyCountdown?) && Accepted(s.sessions[p]) {
      BoundIdExists(s, p);
      var id := s.sessions[p].value.playerId.value;
      var flipped := s.(slots := s.slots[id := Some(s.slots[id].value.(ready := ready))]);
      hide HandleReadyChanged, AcceptedIds, PoolOk, BoundOnce;
      assert NoRound(s) ==> NoRound(flipped);
      assert CountdownSeconds(flipped) == CountdownSeconds(s);
      ReadyChangedHolds(flipped, lost);
    }
  }

  lemma MatchLoadedHolds(s: Server, p: nat, matchId: nat, lost: Losses)
    requires Inv(s) && p < |s.sessions|
    ensures |s.links| == |s.sessions| && Inv(MatchLoaded(s, p, matchId, lost))
  {
    InvSizes(s);
    if s.phase.StartingMatch? && Accepted(s.sessions[p]) {
      var id := s.sessions[p].value.playerId.value;
      hide MaybeCommit, AcceptedIds, PoolOk, SlotsOk, BoundOnce;
      CommitHoldsIf(s, id, lost);
    }
  }

  lemma CommitHoldsIf(s: Server, id: nat, lost: Losses)
    requires Inv(s) && s.phase.StartingMatch? && |s.links| == |s.sessions|
    ensures id in s.matchMask ==> Inv(MaybeCommit(s.(loadedMask := s.loadedMask + {id}), lost))
  {
    hide MaybeCommit, AcceptedIds, PoolOk, SlotsOk, BoundOnce;
    if id in s.matchMask {
      CommitHolds(s.(loadedMask := s.loadedMask + {id}), lost);
    }
  }

  // ----- The tick -----

  lemma AdvanceHolds(s: Server, lost: Losses)
    requires Inv(s)
    ensures |s.links| == |s.sessions| && Inv(Advance(s.(serverTick := s.serverTick + 1), lost))
  {
    InvSizes(s);
    hide Advance, Inv;
    match s.phase
    case Lobby => LobbyAdvanceHolds(s, lost);
    case LobbyCountdown => CountdownAdvanceHolds(s, lost);
    case StartingMatch => StartingAdvanceHolds(s, lost);
    case InMatch => InMatchAdvanceHolds(s, lost);
    case EndOfMatch => EndAdvanceHolds(s, lost);
  }

  lemma LobbyAdvanceHolds(s: Server, lost: Losses)
    requires Inv(s) && s.phase.Lobby? && |s.links| == |s.sessions|
    ensures Inv(Advance(s.(serverTick := s.serverTick + 1), lost))
  {
    hide BeginMatchBootstrap, CancelStarting, ResetToLobby, PoolOk, SlotsOk, BoundOnce, AcceptedIds;
  }

  lemma CountdownAdvanceHolds(s: Server, lost: Losses)
    requires Inv(s) && s.phase.LobbyCountdown? && |s.links| == |s.sessions|
    ensures Inv(Advance(s.(serverTick := s.serverTick + 1), lost))
  {
    var t := s.(serverTick := s.serverTick + 1);
    hide BeginMatchBootstrap, CancelStarting, ResetToLobby, PoolOk, SlotsOk, BoundOnce, AcceptedIds;
    assert SessionsOk(t) && NoRound(t) && ReadyTogether(t);
    if t.serverTick >= t.countdownDeadlineTick {
      BootstrapHolds(t, lost);
    } else {
      hide NoRound, ReadyTogether;
      CountdownTicks(t);
    }
  }

  lemma StartingAdvanceHolds(s: Server, lost: Losses)
    requires Inv(s) && s.phase.StartingMatch? && |s.links| == |s.sessions|
    ensures Inv(Advance(s.(serverTick := s.serverTick + 1), lost))
  {
    var t := s.(serverTick := s.serverTick + 1);
    hide BeginMatchBootstrap, CancelStarting, ResetToLobby, PoolOk, SlotsOk, BoundOnce, AcceptedIds;
    CancelStartingHolds(t, t.matchMask, lost);
  }

  lemma InMatchAdvanceHolds(s: Server, lost: Losses)
    requires Inv(s) && s.phase.InMatch? && |s.links| == |s.sessions|
    ensures Inv(Advance(s.(serverTick := s.serverTick + 1), lost))
  {
    var t := s.(serverTick := s.serverTick + 1);
    hide BeginMatchBootstrap, CancelStarting, ResetToLobby, PoolOk, SlotsOk, BoundOnce, AcceptedIds;
    if t.unlockTick != 0 && t.serverTick >= t.unlockTick {
      UnlockHolds(t);
    }
  }

  lemma EndAdvanceHolds(s: Server, lost: Losses)
    requires Inv(s) && s.phase.EndOfMatch? && |s.links| == |s.sessions|
    ensures Inv(Advance(s.(serverTick := s.serverTick + 1), lost))
  {
    var t := s.(serverTick := s.serverTick + 1);
    hide BeginMatchBootstrap, CancelStarting, ResetToLobby, PoolOk, SlotsOk, BoundOnce, AcceptedIds;
    ResetToLobbyHolds(t);
    InvSizes(ResetToLobby(t));
    LinksDoNotMatter(ResetToLobby(t), BroadcastLobbyState(ResetToLobby(t), lost).links);
  }

  lemma CountdownTicks(t: Server)
    ensures CountdownSeconds(t.(countdownLastBroadcastSecond := CountdownSeconds(t))) == CountdownSeconds(t)
    ensures forall links :: CountdownSeconds(t.(countdownLastBroadcastSecond := CountdownSeconds(t), links := links)) == CountdownSeconds(t)
  {
  }

  lemma UnlockHolds(t: Server)
    requires SessionsOk(t) && InRound(t) && t.phase.InMatch? && t.unlockTick != 0 && InMatchOk(t.(unlockTick := 0))
    ensures Inv(t.(seats := LockedSeats(t.seats, false), unlockTick := 0))
  {
    hide PoolOk, SlotsOk, BoundOnce, AcceptedIds;
    assert AliveIds(LockedSeats(t.seats, false)) == AliveIds(t.seats);
  }

  lemma KillingHolds(s: Server, killed: set<nat>, lost: Losses)
    requires Inv(s) && s.phase.InMatch? && |s.links| == |s.sessions|
    ensures Inv(EndIfDecided(s.(seats := Killed(s.seats, killed)), lost))
  {
    hide EndIfDecided, PoolOk, SlotsOk, BoundOnce, AcceptedIds, AliveIds;
    EndIfDecidedHolds(s.(seats := Killed(s.seats, killed)), lost);
  }

  lemma TickHolds(s: Server, killed: set<nat>, lost: Losses)
    requires Inv(s)
    ensures |s.links| == |s.sessions| && Inv(ServerTick(s, killed, lost))
  {
    hide Inv, Advance, EndIfDecided;
    AdvanceHolds(s, lost);
    var advanced := Advance(s.(serverTick := s.serverTick + 1), lost);
    InvSizes(advanced);
    if advanced.phase.InMatch? {
      KillingHolds(advanced, killed, lost);
    }
  }

  // ----- Every run -----

  lemma StartHolds()
    ensures Inv(Start())
  {
    forall id: nat | id < MAX_PLAYERS ensures id in Start().pool {
      assert Start().pool[id] == id;
    }
  }

  lemma StepHolds(s: Server, e: Event, lost: Losses)
    requires Inv(s)
    ensures Inv(Step(s, e, lost))
  {
    InvSizes(s);
    hide Inv, Connect, Hello, LobbyReady, MatchLoaded, Disconnect, ServerTick;
    if Enabled(s, e) {
      match e
      case EvConnect(p) => ConnectHolds(s, p);
      case EvHello(p, name, versionMatches) => HelloHolds(s, p, name, versionMatches, lost);
      case EvLobbyReady(p, ready) => LobbyReadyHolds(s, p, ready, lost);
      case EvMatchLoaded(p, matchId) => MatchLoadedHolds(s, p, matchId, lost);
      case EvDisconnect(p) => DisconnectHolds(s, p, lost);
      case EvTick(killed) => TickHolds(s, killed, lost);
    }
  }

  /** Every state the server can reach, whatever the events and whatever sends fail, satisfies the invariant. */
  lemma {:induction false} EveryRunHolds(events: seq<Event>, lost: Losses)
    ensures Inv(Run(events, lost))
    decreases |events|
  {
    hide Inv, Step;
    if events == [] {
      StartHolds();
    } else {
      EveryRunHolds(events[..|events| - 1], lost);
      StepHolds(Run(events[..|events| - 1], lost), events[|events| - 1], lost);
    }
  }
}
