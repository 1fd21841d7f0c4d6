/**
 * The server flow, updated in place (Server/ServerSession.cpp, Server/ServerControlHandlers.cpp,
 * Server/ServerLobbyFlow.cpp, Server/ServerMatchFlow.cpp, Server/ServerFlow.cpp). Every method is proved against
 * the step of module Flow that it performs.
 */
module FlowServer {
  import opened Config
  import opened Wrappers
  import opened ClientFlow
  import opened Flow
  import opened FlowInv

  /** What the fixed-size pool array relies on: sorted, distinct, real ids. */
  ghost predicate PoolSane(pool: seq<nat>) {
    StrictlySorted(pool) && |pool| <= MAX_PLAYERS && forall i | 0 <= i < |pool| :: pool[i] < MAX_PLAYERS
  }

  predicate IdsExist(sessions: seq<Option<Session>>) {
    forall p | 0 <= p < |sessions| && Accepted(sessions[p]) :: sessions[p].value.playerId.value < MAX_PLAYERS
  }

  lemma {:induction false} SortedIsShort(pool: seq<nat>, n: nat)
    requires StrictlySorted(pool) && forall i | 0 <= i < |pool| :: pool[i] < n
    ensures |pool| <= n
    ensures |pool| == n ==> forall x: nat | x < n :: x in pool
    decreases n
  {
    if |pool| > 0 {
      var k := |pool| - 1;
      assert pool[k] < n;
      SortedIsShort(pool[..k], n - 1);
      if |pool| == n {
        assert pool[k] == n - 1 by {
          assert k > 0 ==> pool[k - 1] < pool[k];
          LastIsLarge(pool, k);
        }
        forall x: nat | x < n ensures x in pool {
          assert x < n - 1 ==> x in pool[..k];
        }
      }
    }
  }

  lemma {:induction false} LastIsLarge(pool: seq<nat>, k: nat)
    requires StrictlySorted(pool) && k < |pool|
    ensures pool[k] >= k
    decreases k
  {
    if k > 0 {
      LastIsLarge(pool, k - 1);
    }
  }

  lemma {:induction false} RemoveIsWithout(pool: seq<nat>, i: nat)
    requires StrictlySorted(pool) && i < |pool|
    ensures Remove(pool, pool[i]) == pool[..i] + pool[i + 1..]
    decreases i
  {
    if i > 0 {
      assert pool[0] != pool[i];
      RemoveIsWithout(pool[1..], i - 1);
      assert pool[..i] + pool[i + 1..] == [pool[0]] + (pool[1..][..i - 1] + pool[1..][i..]);
    }
  }

  lemma {:induction false} RemoveMissing(pool: seq<nat>, id: nat)
    requires id !in pool
    ensures Remove(pool, id) == pool
  {
    if pool != [] {
      RemoveMissing(pool[1..], id);
    }
  }

  lemma ReleaseBehindHead(pool: seq<nat>, id: nat)
    requires pool != [] && pool[0] < id
    ensures Release(pool, id) == [pool[0]] + Release(pool[1..], id)
  {
  }

  lemma InsertBehindHead(pool: seq<nat>, id: nat, i: nat)
    requires 0 < i <= |pool|
    ensures [pool[0]] + (pool[1..][..i - 1] + [id] + pool[1..][i - 1..]) == pool[..i] + [id] + pool[i..]
    ensures [pool[0]] + pool[1..] == pool
  {
    assert pool[1..][..i - 1] == pool[1..i] && pool[1..][i - 1..] == pool[i..];
    assert pool[..i] == [pool[0]] + pool[1..i];
  }

  lemma {:induction false} ReleaseIsInsert(pool: seq<nat>, id: nat, i: nat)
    requires i <= |pool| && (forall j | 0 <= j < i :: pool[j] < id) && (i < |pool| ==> pool[i] >= id)
    ensures Release(pool, id) == if i < |pool| && pool[i] == id then pool else pool[..i] + [id] + pool[i..]
    decreases i
  {
    if i > 0 {
      hide Release;
      ReleaseBehindHead(pool, id);
      ReleaseIsInsert(pool[1..], id, i - 1);
      InsertBehindHead(pool, id, i);
    } else {
      assert pool[..0] + [id] + pool[0..] == [id] + pool;
    }
  }

  class ServerState {
    var phase: Phase
    var serverTick: nat
    const peerSessions: array<Option<Session>>
    const playerSlots: array<Option<PlayerSlot>>
    const reclaims: array<Option<Reclaim>>
    const matchPlayers: array<Option<Seat>>
    const playerIdPool: array<nat>
    var playerIdPoolSize: nat
    var currentMatchId: nat
    var nextMatchId: nat
    var countdownMask: set<nat>
    var countdownDeadlineTick: nat
    var countdownLastBroadcastSecond: nat
    var matchMask: set<nat>
    var loadedMask: set<nat>
    var startDeadlineTick: nat
    var goShowTick: nat
    var unlockTick: nat
    var returnTick: nat
    var winner: Option<nat>
    var draw: bool
    const links: array<Link>
    ghost var results: seq<RoundResult>

    ghost predicate Valid()
      reads this, playerIdPool, peerSessions
    {
      && peerSessions.Length == PEER_CAPACITY && links.Length == PEER_CAPACITY
      && playerSlots.Length == MAX_PLAYERS && reclaims.Length == MAX_PLAYERS && matchPlayers.Length == MAX_PLAYERS
      && playerIdPool.Length == MAX_PLAYERS && playerIdPoolSize <= MAX_PLAYERS
      && PoolSane(playerIdPool[..playerIdPoolSize]) && IdsExist(peerSessions[..])
    }

    /** The abstract server this object stands for. */
    ghost function Model(): Server
      reads this, peerSessions, playerSlots, reclaims, matchPlayers, playerIdPool, links
      requires Valid()
    {
      Server(phase, serverTick, peerSessions[..], playerSlots[..], reclaims[..], matchPlayers[..],
             playerIdPool[..playerIdPoolSize], currentMatchId, nextMatchId,
             countdownMask, countdownDeadlineTick, countdownLastBroadcastSecond,
             matchMask, loadedMask, startDeadlineTick, goShowTick, unlockTick, returnTick, winner, draw, links[..], results)
    }

    constructor ()
      ensures Valid() && Model() == Start()
    {
      phase, serverTick := Lobby, 0;
      peerSessions := new Option<Session>[PEER_CAPACITY](_ => None);
      playerSlots := new Option<PlayerSlot>[MAX_PLAYERS](_ => None);
      reclaims := new Option<Reclaim>[MAX_PLAYERS](_ => None);
      matchPlayers := new Option<Seat>[MAX_PLAYERS](_ => None);
      playerIdPool := new nat[MAX_PLAYERS](i => i);
      playerIdPoolSize := MAX_PLAYERS;
      currentMatchId, nextMatchId := 0, 1;
      countdownMask, countdownDeadlineTick, countdownLastBroadcastSecond := {}, 0, 0;
      matchMask, loadedMask, startDeadlineTick, goShowTick, unlockTick, returnTick := {}, {}, 0, 0, 0, 0;
      winner, draw := None, false;
      links := new Link[PEER_CAPACITY](_ => Link([], 0));
      results := [];
      new;
      assert playerIdPool[..] == [0, 1, 2, 3];
    }

    // ----- The id pool -----

    /** Takes the lowest free id. */
    method AcquirePlayerId() returns (id: Option<nat>)
      requires Valid()
      modifies this`playerIdPoolSize, playerIdPool
      ensures Valid()
      ensures old(Model()).pool == [] ==> id == None && Model() == old(Model())
      ensures old(Model()).pool != [] ==>
        id == Some(old(Model()).pool[0]) && Model() == old(Model()).(pool := Remove(old(Model()).pool, id.value))
    {
      ghost var pool := playerIdPool[..playerIdPoolSize];
      if playerIdPoolSize == 0 {
        return None;
      }
      RemoveIsWithout(pool, 0);
      RemoveTakesOut(pool, pool[0]);
      id := Some(playerIdPool[0]);
      ShiftDown(0);
      assert playerIdPool[..playerIdPoolSize] == pool[1..];
    }

    /** Closes the gap at index i. */
    method ShiftDown(i: nat)
      requires playerIdPool.Length == MAX_PLAYERS && i < playerIdPoolSize <= MAX_PLAYERS
      modifies this`playerIdPoolSize, playerIdPool
      ensures playerIdPoolSize == old(playerIdPoolSize) - 1
      ensures playerIdPool[..playerIdPoolSize] == old(playerIdPool[..i]) + old(playerIdPool[i + 1..playerIdPoolSize])
    {
      ghost var was := playerIdPool[..];
      for j := i + 1 to playerIdPoolSize
        invariant playerIdPoolSize == old(playerIdPoolSize)
        invariant forall k | 0 <= k < i :: playerIdPool[k] == was[k]
        invariant forall k | i <= k < j - 1 :: playerIdPool[k] == was[k + 1]
        invariant forall k | j - 1 <= k < MAX_PLAYERS :: playerIdPool[k] == was[k]
      {
        playerIdPool[j - 1] := playerIdPool[j];
      }
      playerIdPoolSize := playerIdPoolSize - 1;
      assert was[..i] == old(playerIdPool[..i]) && was[i + 1..playerIdPoolSize + 1] == old(playerIdPool[i + 1..playerIdPoolSize]);
      assert playerIdPool[..playerIdPoolSize] == was[..i] + was[i + 1..playerIdPoolSize + 1];
    }

    /** Takes one particular id, if it is free. */
    method AcquireSpecificPlayerId(id: nat) returns (ok: bool)
      requires Valid()
      modifies this`playerIdPoolSize, playerIdPool
      ensures Valid() && ok == (id in old(Model()).pool)
      ensures Model() == old(Model()).(pool := Remove(old(Model()).pool, id))
    {
      ghost var pool := playerIdPool[..playerIdPoolSize];
      for i := 0 to playerIdPoolSize
        invariant forall j | 0 <= j < i :: pool[j] != id
        invariant playerIdPool[..playerIdPoolSize] == pool
      {
        if playerIdPool[i] == id {
          RemoveIsWithout(pool, i);
          RemoveTakesOut(pool, id);
          ShiftDown(i);
          assert playerIdPool[..playerIdPoolSize] == pool[..i] + pool[i + 1..];
          return true;
        }
      }
      RemoveMissing(pool, id);
      return false;
    }

    /** Opens a gap at index i for an id. */
    method ShiftUp(i: nat, id: nat)
      requires playerIdPool.Length == MAX_PLAYERS && i <= playerIdPoolSize < MAX_PLAYERS
      modifies this`playerIdPoolSize, playerIdPool
      ensures playerIdPoolSize == old(playerIdPoolSize) + 1
      ensures playerIdPool[..playerIdPoolSize] == old(playerIdPool[..i]) + [id] + old(playerIdPool[i..playerIdPoolSize])
    {
      var j := playerIdPoolSize;
      while j > i
        invariant i <= j <= playerIdPoolSize == old(playerIdPoolSize)
        invariant forall k | 0 <= k < j :: playerIdPool[k] == old(playerIdPool[k])
        invariant forall k | j < k <= playerIdPoolSize :: playerIdPool[k] == old(playerIdPool[k - 1])
      {
        playerIdPool[j] := playerIdPool[j - 1];
        j := j - 1;
      }
      playerIdPool[i] := id;
      playerIdPoolSize := playerIdPoolSize + 1;
    }

    /** Puts an id back in its sorted place. */
    method ReleasePlayerId(id: nat)
      requires Valid() && id < MAX_PLAYERS
      modifies this`playerIdPoolSize, playerIdPool
      ensures Valid() && Model() == old(Model()).(pool := Release(old(Model()).pool, id))
    {
      hide Release, PoolSane, IdsExist;
      ghost var pool := playerIdPool[..playerIdPoolSize];
      ReleaseIsSane(pool, id);
      if playerIdPoolSize >= MAX_PLAYERS {
        return;
      }
      var insertIndex := 0;
      while insertIndex < playerIdPoolSize && playerIdPool[insertIndex] < id
        invariant 0 <= insertIndex <= playerIdPoolSize && forall j | 0 <= j < insertIndex :: playerIdPool[j] < id
      {
        insertIndex := insertIndex + 1;
      }
      ReleaseIsInsert(pool, id, insertIndex);
      if insertIndex < playerIdPoolSize && playerIdPool[insertIndex] == id {
        return;
      }
      ShiftUp(insertIndex, id);
      assert playerIdPool[..playerIdPoolSize] == pool[..insertIndex] + [id] + pool[insertIndex..];
    }

    // ----- Sends -----

    /** Queues a message to a peer; reports whether the transport took it. */
    method Send(p: nat, msg: Control, lost: Losses) returns (queued: bool)
      requires Valid() && p < PEER_CAPACITY
      modifies links
      ensures Valid() && Model() == SendTo(old(Model()), p, msg, lost) && queued == !lost(p, old(Model()).links[p].attempts)
    {
      queued := !lost(p, links[p].attempts);
      links[p] := Link(if queued then links[p].sent + [msg] else links[p].sent, links[p].attempts + 1);
    }

    method FindPeerSessionByPlayerId(id: nat) returns (p: nat)
      requires Valid()
      ensures p == PeerOf(peerSessions[..], id)
    {
      for i := 0 to PEER_CAPACITY
        invariant forall q | 0 <= q < i :: !Bound(peerSessions[q], id)
      {
        if peerSessions[i].Some? && peerSessions[i].value.playerId == Some(id) {
          assert peerSessions[..][i] == peerSessions[i];
          return i;
        }
      }
      return PEER_CAPACITY;
    }

    method QueueToPlayer(id: nat, msg: Control, lost: Losses) returns (queued: bool)
      requires Valid()
      modifies links
      ensures Valid() && Model() == SendToPlayer(old(Model()), id, msg, lost) && queued == Reaches(old(Model()), id, lost)
    {
      hide SendTo, PeerOf, PoolSane, IdsExist;
      var p := FindPeerSessionByPlayerId(id);
      if p == PEER_CAPACITY {
        return false;
      }
      queued := Send(p, msg, lost);
    }

    /** Queues a message to every player of a mask, in id order. */
    method QueueToMask(mask: set<nat>, msg: Control, lost: Losses) returns (reached: set<nat>, failed: bool)
      requires Valid()
      modifies links
      ensures Valid() && Model() == SendToMask(old(Model()), mask, msg, MAX_PLAYERS, lost)
      ensures reached == ReachedIds(old(Model()), mask, msg, MAX_PLAYERS, lost)
      ensures failed <==> reached != Known(mask)
    {
      hide SendToPlayer, Reaches, SendToMask, ReachedIds, PoolSane, IdsExist;
      ghost var before := Model();
      NobodyReached(before, mask, msg, lost);
      reached, failed := {}, false;
      for id := 0 to MAX_PLAYERS
        invariant Valid() && Model() == SendToMask(before, mask, msg, id, lost)
        invariant reached == ReachedIds(before, mask, msg, id, lost)
        invariant failed <==> exists j :: j in mask && 0 <= j < id && j !in reached
        invariant forall j | j in reached :: j in mask && j < id
      {
        OneMoreReached(before, mask, msg, id, lost);
        if id in mask {
          var queued := QueueToPlayer(id, msg, lost);
          if queued {
            reached := reached + {id};
          } else {
            failed := true;
            assert id !in reached;
          }
        }
      }
    }

    method BroadcastLobby(lost: Losses)
      requires Valid()
      modifies links
      ensures Valid() && Model() == BroadcastLobbyState(old(Model()), lost)
    {
      hide PoolSane, IdsExist, BuildLobbyState;
      ghost var before := Model();
      var lobbyState := BuildLobby();
      for p := 0 to PEER_CAPACITY
        invariant forall q | 0 <= q < p :: links[q] == PushedToAccepted(before.links, before.sessions, lobbyState, lost)[q]
        invariant forall q | p <= q < PEER_CAPACITY :: links[q] == before.links[q]
      {
        if peerSessions[p].Some? && peerSessions[p].value.playerId.Some? {
          var queued := !lost(p, links[p].attempts);
          links[p] := Link(if queued then links[p].sent + [lobbyState] else links[p].sent, links[p].attempts + 1);
        }
      }
      assert links[..] == PushedToAccepted(before.links, before.sessions, lobbyState, lost);
    }

    method ComputeCountdownSecondsRemaining() returns (seconds: nat)
      requires Valid()
      ensures seconds == CountdownSeconds(Model())
    {
      if phase != LobbyCountdown || countdownDeadlineTick == 0 || serverTick >= countdownDeadlineTick {
        return 0;
      }
      seconds := (countdownDeadlineTick - serverTick + TICK_RATE - 1) / TICK_RATE;
    }

    /** The lobby as shown to clients, seat by seat. */
    method BuildLobby() returns (msg: Control)
      requires Valid()
      ensures msg == BuildLobbyState(Model())
    {
      hide PoolSane, IdsExist;
      var seconds := ComputeCountdownSecondsRemaining();
      var seats: seq<Option<LobbySeat>> := [];
      for id := 0 to MAX_PLAYERS
        invariant |seats| == id && forall j | 0 <= j < id :: seats[j] == LobbySeatOf(Model(), j)
      {
        var p := FindPeerSessionByPlayerId(id);
        if p == PEER_CAPACITY || playerSlots[id].None? {
          seats := seats + [None];
        } else {
          var slot := playerSlots[id].value;
          seats := seats + [Some(LobbySeat(slot.name, slot.ready, slot.wins))];
        }
      }
      msg := LobbyState(phase == LobbyCountdown, seconds, seats);
    }

    // ----- Clearing -----

    method ClearLobbyCountdownState()
      requires Valid()
      modifies this`countdownMask, this`countdownDeadlineTick, this`countdownLastBroadcastSecond
      ensures Valid() && Model() == ClearCountdown(old(Model()))
    {
      countdownMask, countdownDeadlineTick, countdownLastBroadcastSecond := {}, 0, 0;
    }

    method SetRoundTicks(start: nat, go: nat, unlock: nat, back: nat)
      requires Valid()
      modifies this`startDeadlineTick, this`goShowTick, this`unlockTick, this`returnTick
      ensures startDeadlineTick == start && goShowTick == go && unlockTick == unlock && returnTick == back
      ensures Valid() && Model() == old(Model()).(startDeadlineTick := start, goShowTick := go, unlockTick := unlock, returnTick := back)
    {
      hide PoolSane, IdsExist;
      startDeadlineTick, goShowTick, unlockTick, returnTick := start, go, unlock, back;
    }

    method SetOutcome(winnerId: Option<nat>, isDraw: bool)
      requires Valid()
      modifies this`winner, this`draw
      ensures winner == winnerId && draw == isDraw
      ensures Valid() && Model() == old(Model()).(winner := winnerId, draw := isDraw)
    {
      hide PoolSane, IdsExist;
      winner, draw := winnerId, isDraw;
    }

    method SetPhase(next: Phase, matchId: nat)
      requires Valid()
      modifies this`phase, this`currentMatchId
      ensures phase == next && currentMatchId == matchId
      ensures Valid() && Model() == old(Model()).(phase := next, matchId := matchId)
    {
      hide PoolSane, IdsExist;
      phase, currentMatchId := next, matchId;
    }

    method SetCountdown(participants: set<nat>, deadline: nat, shown: nat)
      requires Valid()
      modifies this`countdownMask, this`countdownDeadlineTick, this`countdownLastBroadcastSecond
      ensures countdownMask == participants && countdownDeadlineTick == deadline && countdownLastBroadcastSecond == shown
      ensures Valid() && Model() == old(Model()).(countdownMask := participants, countdownDeadlineTick := deadline, countdownLastBroadcastSecond := shown)
    {
      hide PoolSane, IdsExist;
      countdownMask, countdownDeadlineTick, countdownLastBroadcastSecond := participants, deadline, shown;
    }

    method TakeMatchId() returns (id: nat)
      requires Valid()
      modifies this`nextMatchId
      ensures Valid() && id == old(Model()).nextMatchId && Model() == old(Model()).(nextMatchId := id + 1)
    {
      hide PoolSane, IdsExist;
      id := nextMatchId;
      nextMatchId := nextMatchId + 1;
    }

    method SetMasks(participants: set<nat>, loaded: set<nat>)
      requires Valid()
      modifies this`matchMask, this`loadedMask
      ensures matchMask == participants && loadedMask == loaded
      ensures Valid() && Model() == old(Model()).(matchMask := participants, loadedMask := loaded)
    {
      hide PoolSane, IdsExist;
      matchMask, loadedMask := participants, loaded;
    }

    method ClearCurrentRoundFlowState()
      requires Valid()
      modifies this`matchMask, this`loadedMask, this`startDeadlineTick, this`goShowTick, this`unlockTick,
               this`returnTick, this`winner, this`draw
      ensures Valid() && Model() == ClearRoundFlow(old(Model()))
    {
      hide PoolSane, IdsExist;
      SetMasks({}, {});
      SetRoundTicks(0, 0, 0, 0);
      SetOutcome(None, false);
    }

    method ClearAllLobbyReadyFlags()
      requires Valid()
      modifies playerSlots
      ensures Valid() && Model() == ClearReady(old(Model()))
    {
      for id := 0 to MAX_PLAYERS
        invariant forall j | 0 <= j < id :: playerSlots[j] == Unready(old(playerSlots[j]))
        invariant forall j | id <= j < MAX_PLAYERS :: playerSlots[j] == old(playerSlots[j])
      {
        if playerSlots[id].Some? {
          playerSlots[id] := Some(playerSlots[id].value.(ready := false));
        }
      }
    }

    method ClearActiveMatchPlayers()
      requires Valid()
      modifies matchPlayers
      ensures Valid() && Model() == ClearSeats(old(Model()))
    {
      for id := 0 to MAX_PLAYERS
        invariant forall j | 0 <= j < id :: matchPlayers[j].None?
      {
        matchPlayers[id] := None;
      }
      assert matchPlayers[..] == Nones(MAX_PLAYERS);
    }

    method ResetRoundRuntimeToLobby()
      requires Valid()
      modifies this, playerSlots, matchPlayers
      ensures Valid() && Model() == ResetToLobby(old(Model()))
    {
      hide Valid, Model;
      SetPhase(Lobby, 0);
      ClearLobbyCountdownState();
      ClearCurrentRoundFlowState();
      ClearAllLobbyReadyFlags();
      ClearActiveMatchPlayers();
    }

    // ----- Lobby flow -----

    /** Accepted participants and whether all of them are ready; a seat without a slot makes both fail. */
    method CollectAcceptedReadyParticipants() returns (mask: set<nat>, allReady: bool)
      requires Valid()
      ensures mask == Participants(Model()) && allReady == AllReady(Model())
    {
      hide PoolSane;
      ghost var s := Model();
      mask, allReady := {}, true;
      for p := 0 to PEER_CAPACITY
        invariant mask == AcceptedIds(s.sessions[..p])
        invariant forall id | id in mask :: id < MAX_PLAYERS && s.slots[id].Some?
        invariant allReady <==> forall id | id in mask && 0 <= id < |s.slots| && s.slots[id].Some? :: s.slots[id].value.ready
      {
        OneMoreSession(s.sessions, p);
        if peerSessions[p].Some? && peerSessions[p].value.playerId.Some? {
          var id := peerSessions[p].value.playerId.value;
          if playerSlots[id].None? {
            MissingSlot(s, p);
            return {}, false;
          }
          mask := mask + {id};
          if !playerSlots[id].value.ready {
            allReady := false;
          }
        }
      }
      assert s.sessions[..PEER_CAPACITY] == s.sessions;
    }

    method CancelLobbyCountdown(lost: Losses)
      requires Valid()
      modifies this, links
      ensures Valid() && Model() == CancelCountdown(old(Model()), lost)
    {
      phase := Lobby;
      ClearLobbyCountdownState();
      BroadcastLobby(lost);
    }

    method StartLobbyCountdown(participants: set<nat>, lost: Losses)
      requires Valid()
      modifies this, links
      ensures Valid() && Model() == StartCountdown(old(Model()), participants, lost)
    {
      hide PoolSane, IdsExist, BroadcastLobbyState;
      SetPhase(LobbyCountdown, currentMatchId);
      SetCountdown(participants, serverTick + LOBBY_COUNTDOWN_TICKS, countdownLastBroadcastSecond);
      countdownLastBroadcastSecond := ComputeCountdownSecondsRemaining();
      BroadcastLobby(lost);
    }

    method ResetLobbyParticipantsToUnready(lost: Losses)
      requires Valid()
      modifies this, playerSlots, links
      ensures Valid() && Model() == ResetUnready(old(Model()), lost)
    {
      phase := Lobby;
      ClearLobbyCountdownState();
      ClearAllLobbyReadyFlags();
      BroadcastLobby(lost);
    }

    method CancelStartingMatch(notifyMask: set<nat>, lost: Losses)
      requires Valid()
      modifies this, playerSlots, matchPlayers, links
      ensures Valid() && Model() == CancelStarting(old(Model()), notifyMask, lost)
    {
      hide ResetToLobby, SendToMask, BroadcastLobbyState;
      if currentMatchId != 0 && notifyMask != {} {
        var reached, failed := QueueToMask(notifyMask, MatchCancelled(currentMatchId), lost);
      }
      ResetRoundRuntimeToLobby();
      BroadcastLobby(lost);
    }

    method MaybeCommitMatchStart(lost: Losses)
      requires Valid()
      modifies this, playerSlots, matchPlayers, links
      ensures Valid() && Model() == MaybeCommit(old(Model()), lost)
    {
      hide CancelStarting, SendToMask, ReachedIds, Known, PoolSane, IdsExist;
      if phase != StartingMatch || currentMatchId == 0 || matchMask == {} || loadedMask != matchMask {
        return;
      }
      CommitNow(currentMatchId, matchMask, serverTick + GO_DELAY_TICKS, returnTick, lost);
    }

    /** Tells everybody and starts, or takes the start back. */
    method CommitNow(matchId: nat, participants: set<nat>, go: nat, back: nat, lost: Losses)
      requires Valid()
      requires var s := Model(); matchId == s.matchId && participants == s.matchMask && go == s.serverTick + GO_DELAY_TICKS && back == s.returnTick
      requires var s := Model(); s.phase == StartingMatch && s.matchId != 0 && s.matchMask != {} && s.loadedMask == s.matchMask
      modifies this, playerSlots, matchPlayers, links
      ensures Valid() && Model() == MaybeCommit(old(Model()), lost)
    {
      hide Valid, Model, CancelStarting, SendToMask, ReachedIds, Known;
      var reached, matchStartSendFailed := QueueToMask(participants, MatchStart(matchId, go, go), lost);
      if matchStartSendFailed {
        CancelStartingMatch(participants, lost);
        return;
      }
      SetPhase(InMatch, matchId);
      SetRoundTicks(0, go, go, back);
    }

    method HandleLobbyReadyStateChanged(lost: Losses)
      requires Valid()
      modifies this, links
      ensures Valid() && Model() == HandleReadyChanged(old(Model()), lost)
    {
      hide Participants, AllReady, CancelCountdown, StartCountdown, BroadcastLobbyState;
      var participants, allReady := CollectAcceptedReadyParticipants();
      if phase == LobbyCountdown {
        if !allReady || participants != countdownMask || |participants| < 2 {
          CancelLobbyCountdown(lost);
          return;
        }
        BroadcastLobby(lost);
        return;
      }
      if phase != Lobby {
        return;
      }
      if allReady && |participants| >= 2 {
        StartLobbyCountdown(participants, lost);
        return;
      }
      BroadcastLobby(lost);
    }

    /** Creates one participant's match state; it stays only if the level info is queued. */
    method BootstrapOne(id: nat, lost: Losses) returns (queued: bool)
      requires Valid() && id < MAX_PLAYERS && matchPlayers[id].None?
      modifies matchPlayers, links
      ensures Valid() && queued == Reaches(old(Model()), id, lost)
      ensures var s := old(Model());
        Model() == SendToPlayer(s, id, LevelInfo(s.matchId), lost).(seats := s.seats[id := if queued then Some(Seat(true, true)) else None])
    {
      hide SendToPlayer, Reaches, PoolSane, IdsExist;
      ghost var s := Model();
      matchPlayers[id] := Some(Seat(true, true));
      SendIgnoresSeats(s, Model(), id, LevelInfo(s.matchId), lost);
      queued := QueueToPlayer(id, LevelInfo(currentMatchId), lost);
      if !queued {
        matchPlayers[id] := None;
      }
    }

    /** Sets up the match and tells the participants; each gets its match state only if its level info is queued. */
    method BootstrapParticipants(participants: set<nat>, lost: Losses) returns (reached: set<nat>, failed: bool)
      requires Valid() && Model().seats == Nones(MAX_PLAYERS)
      modifies matchPlayers, links
      ensures Valid()
      ensures var s := old(Model()); var msg := LevelInfo(s.matchId);
        && reached == ReachedIds(s, participants, msg, MAX_PLAYERS, lost)
        && (failed <==> reached != Known(participants))
        && Model() == SendToMask(s, participants, msg, MAX_PLAYERS, lost).(seats := Seated(s.seats, reached))
    {
      hide SendToPlayer, Reaches, PoolSane, IdsExist, Seated, SendToMask, ReachedIds;
      ghost var s := Model();
      ghost var msg := LevelInfo(s.matchId);
      NobodyReached(s, participants, msg, lost);
      reached, failed := {}, false;
      for id := 0 to MAX_PLAYERS
        invariant Valid() && Model() == SendToMask(s, participants, msg, id, lost).(seats := Seated(s.seats, reached))
        invariant reached == ReachedIds(s, participants, msg, id, lost)
        invariant failed <==> exists j :: j in participants && 0 <= j < id && j !in reached
        invariant forall j | j in reached :: j in participants && j < id
      {
        OneMoreReached(s, participants, msg, id, lost);
        SeatOneMore(s, reached, id);
        if id in participants {
          ghost var mid := SendToMask(s, participants, msg, id, lost);
          assert matchPlayers[..][id] == Model().seats[id];
          SendIgnoresSeats(mid, Model(), id, msg, lost);
          var queued := BootstrapOne(id, lost);
          if queued {
            reached := reached + {id};
          } else {
            failed := true;
            assert id !in reached;
          }
        }
      }
    }

    /** Enters the match-start phase with a clean round. */
    method PrepareBootstrap(participants: set<nat>)
      requires Valid()
      modifies this, playerSlots, matchPlayers
      ensures Valid() && Model() == Bootstrapped(old(Model()), participants)
      ensures Model().seats == Nones(MAX_PLAYERS)
    {
      ghost var s := Model();
      var deadline := serverTick + LOAD_TIMEOUT_TICKS;
      assert deadline == s.serverTick + LOAD_TIMEOUT_TICKS && |s.seats| == MAX_PLAYERS;
      hide Valid, Model, UnreadySlots;
      var matchId := TakeMatchId();
      SetPhase(StartingMatch, matchId);
      ClearLobbyCountdownState();
      ClearCurrentRoundFlowState();
      SetMasks(participants, {});
      SetRoundTicks(deadline, 0, 0, 0);
      ClearAllLobbyReadyFlags();
      ClearActiveMatchPlayers();
    }

    method BeginMatchBootstrapNow(lost: Losses)
      requires Valid()
      modifies this, playerSlots, matchPlayers, links
      ensures Valid() && Model() == BeginMatchBootstrap(old(Model()), lost)
    {
      hide Participants, AllReady, CancelStarting, CancelCountdown, SendToMask, ReachedIds, Known, Seated, PoolSane, IdsExist, Bootstrapped;
      if phase != LobbyCountdown || countdownMask == {} {
        return;
      }
      var participants, allReady := CollectAcceptedReadyParticipants();
      if !allReady || participants != countdownMask || |participants| < 2 {
        CancelLobbyCountdown(lost);
        return;
      }
      PrepareBootstrap(participants);
      var bootstrapped, bootstrapSendFailed := BootstrapParticipants(participants, lost);
      if bootstrapSendFailed {
        CancelStartingMatch(bootstrapped, lost);
        return;
      }
      matchMask := bootstrapped;
    }

    method MarkPlayerLoadedForCurrentMatch(id: nat, lost: Losses)
      requires Valid()
      modifies this, playerSlots, matchPlayers, links
      ensures Valid() && Model() == MarkLoaded(old(Model()), id, lost)
    {
      hide MaybeCommit;
      if phase != StartingMatch || currentMatchId == 0 || id !in matchMask {
        return;
      }
      if id in loadedMask {
        return;
      }
      loadedMask := loadedMask + {id};
      MaybeCommitMatchStart(lost);
    }

    // ----- End of match -----

    /** Counts seats and survivors in one pass. */
    method CountSeats() returns (active: nat, alive: nat, survivor: Option<nat>)
      requires Valid()
      ensures active > 0 <==> AnySeat(Model().seats)
      ensures alive == |AliveIds(Model().seats)| && survivor == LastAlive(Model().seats)
    {
      hide PoolSane, IdsExist;
      ghost var seats := Model().seats;
      active, alive, survivor := 0, 0, None;
      for id := 0 to MAX_PLAYERS
        invariant active > 0 <==> AnySeat(seats[..id])
        invariant alive == |AliveIds(seats[..id])| && survivor == LastAlive(seats[..id])
      {
        OneMoreSeat(seats, id);
        if matchPlayers[id].Some? {
          active := active + 1;
          if matchPlayers[id].value.alive {
            alive := alive + 1;
            survivor := Some(id);
          }
        }
      }
      assert seats[..MAX_PLAYERS] == seats;
    }

    method CreditWinner(id: nat)
      requires Valid()
      modifies playerSlots
      ensures Valid() && Model() == old(Model()).(slots := Credited(old(Model()).slots, Some(id)))
    {
      if id < MAX_PLAYERS && playerSlots[id].Some? {
        playerSlots[id] := Some(playerSlots[id].value.(wins := playerSlots[id].value.wins + 1));
      }
    }

    method SetInputLocks(locked: bool)
      requires Valid()
      modifies matchPlayers
      ensures Valid() && Model() == old(Model()).(seats := LockedSeats(old(Model()).seats, locked))
    {
      for id := 0 to MAX_PLAYERS
        invariant forall j | 0 <= j < id :: matchPlayers[j] == LockedSeats(old(matchPlayers[..]), locked)[j]
        invariant forall j | id <= j < MAX_PLAYERS :: matchPlayers[j] == old(matchPlayers[j])
      {
        if matchPlayers[id].Some? {
          matchPlayers[id] := Some(matchPlayers[id].value.(inputLocked := locked));
        }
      }
    }

    method WinnerDisplayName(id: nat) returns (name: Name)
      requires Valid()
      ensures name == WinnerName(Model(), id)
    {
      if id >= MAX_PLAYERS || playerSlots[id].None? || playerSlots[id].value.name == [] {
        return UNNAMED;
      }
      return playerSlots[id].value.name;
    }

    method SendMatchResultToParticipants(lost: Losses)
      requires Valid()
      modifies links
      ensures Valid() && Model() == SendResult(old(Model()), lost)
    {
      hide SendToMask, PoolSane, IdsExist;
      if currentMatchId == 0 || matchMask == {} {
        return;
      }
      var result := MatchResult(currentMatchId, None, []);
      if !draw && winner.Some? {
        var name := WinnerDisplayName(winner.value);
        result := MatchResult(currentMatchId, winner, name);
      }
      var reached, failed := QueueToMask(matchMask, result, lost);
    }

    /** The bookkeeping of a decided round. */
    method RecordEnd(winnerId: Option<nat>, isDraw: bool)
      requires Valid()
      modifies this
      ensures Valid()
      ensures var s := old(Model()); var w := if isDraw then None else winnerId;
        Model() == s.(phase := EndOfMatch, winner := w, draw := isDraw, goShowTick := 0, unlockTick := 0,
                      returnTick := s.serverTick + RETURN_TICKS,
                      results := s.results + [RoundResult(s.matchId, w, AliveIds(s.seats))])
    {
      var matchId, start, back := currentMatchId, startDeadlineTick, serverTick + RETURN_TICKS;
      ghost var s := Model();
      assert matchId == s.matchId && start == s.startDeadlineTick && back == s.serverTick + RETURN_TICKS;
      var w := if isDraw then None else winnerId;
      ghost var r := RoundResult(matchId, w, AliveIds(matchPlayers[..]));
      assert matchPlayers[..] == s.seats;
      hide Valid, Model, AliveIds;
      SetPhase(EndOfMatch, matchId);
      SetOutcome(w, isDraw);
      SetRoundTicks(start, 0, 0, back);
      LogResult(r);
    }

    ghost method LogResult(r: RoundResult)
      requires Valid()
      modifies this`results
      ensures Valid() && Model() == old(Model()).(results := old(Model()).results + [r])
    {
      hide PoolSane, IdsExist, AliveIds;
      results := results + [r];
    }

    method BeginEnd(winnerId: Option<nat>, isDraw: bool, lost: Losses)
      requires Valid()
      modifies this, playerSlots, matchPlayers, links
      ensures Valid() && Model() == BeginEndOfMatch(old(Model()), winnerId, isDraw, lost)
    {
      hide SendResult, Credited, LockedSeats, AliveIds, PoolSane, IdsExist;
      if phase != InMatch {
        return;
      }
      NoCredit(playerSlots[..]);
      RecordEnd(winnerId, isDraw);
      if winner.Some? {
        CreditWinner(winner.value);
      }
      SetInputLocks(true);
      SendMatchResultToParticipants(lost);
    }

    /** Ends the round once at most one player is left. */
    method EvaluateRoundEnd(lost: Losses)
      requires Valid()
      modifies this, playerSlots, matchPlayers, links
      ensures Valid() && Model() == EndIfDecided(old(Model()), lost)
    {
      hide BeginEndOfMatch, AnySeat, AliveIds, LastAlive, PoolSane, IdsExist;
      if phase != InMatch {
        return;
      }
      var active, alive, survivor := CountSeats();
      if active == 0 || alive > 1 {
        return;
      }
      BeginEnd(if alive == 1 then survivor else None, alive == 0, lost);
    }

    method HandleAcceptedPlayerReleased(id: nat, lost: Losses)
      requires Valid()
      modifies this, playerSlots, matchPlayers, links
      ensures Valid() && Model() == HandleReleased(old(Model()), id, lost)
    {
      var released, left, deadline, shown := phase, matchMask - {id}, countdownDeadlineTick, countdownLastBroadcastSecond;
      var waiting, loaded := countdownMask - {id}, loadedMask - {id};
      ghost var s := Model();
      assert released == s.phase && left == s.matchMask - {id} && loaded == s.loadedMask - {id} && waiting == s.countdownMask - {id};
      assert deadline == s.countdownDeadlineTick && shown == s.countdownLastBroadcastSecond;
      hide Valid, Model, ResetUnready, CancelStarting, ResetToLobby, EndIfDecided;
      SetCountdown(waiting, deadline, shown);
      SetMasks(left, loaded);
      if released == Lobby || released == LobbyCountdown {
        ResetLobbyParticipantsToUnready(lost);
        return;
      }
      if released == StartingMatch {
        CancelStartingMatch(left, lost);
        return;
      }
      if left == {} {
        ResetRoundRuntimeToLobby();
        return;
      }
      EvaluateRoundEnd(lost);
    }

    // ----- Session events -----

    method BindPeerSession(p: nat)
      requires Valid()
      modifies peerSessions, links
      ensures Valid() && Model() == Connect(old(Model()), p)
    {
      if p < PEER_CAPACITY {
        peerSessions[p] := Some(Session(None));
        links[p] := links[p].(sent := []);
      }
    }

    /** A matching reclaim record first, the lowest free id otherwise. */
    method ReserveHelloPlayerId(name: Name) returns (reserved: Option<(nat, nat)>)
      requires Valid()
      modifies this`playerIdPoolSize, playerIdPool
      ensures Valid() && reserved == Reserve(old(Model()), name)
      ensures Model() == if reserved.None? then old(Model())
                         else old(Model()).(pool := Remove(old(Model()).pool, reserved.value.0))
    {
      hide PoolSane, IdsExist;
      ghost var s := Model();
      for id := 0 to MAX_PLAYERS
        invariant Valid() && Model() == s
        invariant ReclaimedId(s, name, 0) == ReclaimedId(s, name, id)
      {
        if reclaims[id].Some? && reclaims[id].value.name == name {
          var ok := AcquireSpecificPlayerId(id);
          if ok {
            return Some((id, reclaims[id].value.wins));
          }
          RemoveMissing(s.pool, id);
        }
      }
      var id := AcquirePlayerId();
      if id.None? {
        return None;
      }
      return Some((id.value, 0));
    }

    method AcceptPeerSession(p: nat, id: nat, name: Name, carriedWins: nat)
      requires Valid() && p < PEER_CAPACITY && id < MAX_PLAYERS
      modifies peerSessions, playerSlots, reclaims
      ensures Valid() && Model() == Accept(old(Model()), p, id, name, carriedWins)
    {
      hide PoolSane;
      playerSlots[id] := Some(PlayerSlot(name, false, carriedWins));
      reclaims[id] := None;
      peerSessions[p] := Some(Session(Some(id)));
    }

    method OnHello(p: nat, name: Name, versionMatches: bool, lost: Losses)
      requires Valid() && p < PEER_CAPACITY
      modifies this, peerSessions, playerSlots, reclaims, playerIdPool, links
      ensures Valid() && Model() == Hello(old(Model()), p, name, versionMatches, lost)
    {
      hide SendTo, Reserve, Accept, ResetUnready, Remove, Release, PoolSane, IdsExist;
      ghost var s := Model();
      if peerSessions[p].Some? && peerSessions[p].value.playerId.Some? {
        var replayed := Send(p, Welcome(peerSessions[p].value.playerId.value), lost);
        return;
      }
      if !versionMatches {
        var told := Send(p, Reject(VersionMismatch), lost);
        return;
      }
      if phase == StartingMatch || phase == InMatch || phase == EndOfMatch {
        var told := Send(p, Reject(GameInProgress), lost);
        return;
      }
      AdmitHello(p, name, lost);
    }

    /** A Hello in the lobby: an id is reserved, welcomed and bound, or given back. */
    method AdmitHello(p: nat, name: Name, lost: Losses)
      requires Valid() && p < PEER_CAPACITY
      requires (Model().phase == Lobby || Model().phase == LobbyCountdown) && !Accepted(Model().sessions[p])
      modifies this, peerSessions, playerSlots, reclaims, playerIdPool, links
      ensures Valid() && Model() == Hello(old(Model()), p, name, true, lost)
    {
      ghost var s := Model();
      PoolIds();
      assert p < |s.sessions| && |s.links| == |s.sessions|;
      if Reserve(s, name).None? {
        RefusalIs(s, p, name, lost);
      }
      hide Valid, Model, SendTo, Reserve, Accept, HandleJoined, Remove, Release, Hello;
      var reserved := ReserveHelloPlayerId(name);
      if reserved.None? {
        var told := Send(p, Reject(ServerFull), lost);
        return;
      }
      ReservedIdExists(s, name);
      AdmissionIs(s, p, name, lost);
      var id := reserved.value.0;
      var queued := Send(p, Welcome(id), lost);
      if !queued {
        ReleasePlayerId(id);
        var told := Send(p, Reject(Other), lost);
        return;
      }
      AcceptPeerSession(p, id, name, reserved.value.1);
      HandleAcceptedPlayerJoined(lost);
    }

    method HandleAcceptedPlayerJoined(lost: Losses)
      requires Valid()
      modifies this, playerSlots, links
      ensures Valid() && Model() == HandleJoined(old(Model()), lost)
    {
      hide ResetUnready, PoolSane, IdsExist;
      if phase != Lobby && phase != LobbyCountdown {
        return;
      }
      ResetLobbyParticipantsToUnready(lost);
    }

    lemma PoolIds()
      requires Valid()
      ensures forall id | id in Model().pool :: id < MAX_PLAYERS
      ensures |Model().slots| == MAX_PLAYERS && |Model().reclaims| == MAX_PLAYERS
    {
    }

    method OnLobbyReady(p: nat, ready: bool, lost: Losses)
      requires Valid() && p < PEER_CAPACITY
      modifies this, playerSlots, links
      ensures Valid() && Model() == LobbyReady(old(Model()), p, ready, lost)
    {
      hide PoolSane, HandleReadyChanged;
      if phase != Lobby && phase != LobbyCountdown {
        return;
      }
      if peerSessions[p].None? || peerSessions[p].value.playerId.None? {
        return;
      }
      var id := peerSessions[p].value.playerId.value;
      if playerSlots[id].None? {
        return;
      }
      if playerSlots[id].value.ready == ready {
        return;
      }
      playerSlots[id] := Some(playerSlots[id].value.(ready := ready));
      HandleLobbyReadyStateChanged(lost);
    }

    method OnMatchLoaded(p: nat, matchId: nat, lost: Losses)
      requires Valid() && p < PEER_CAPACITY
      modifies this, playerSlots, matchPlayers, links
      ensures Valid() && Model() == MatchLoaded(old(Model()), p, matchId, lost)
    {
      hide PoolSane, MarkLoaded;
      if phase != StartingMatch {
        return;
      }
      if peerSessions[p].None? || peerSessions[p].value.playerId.None? {
        return;
      }
      var id := peerSessions[p].value.playerId.value;
      if playerSlots[id].None? {
        return;
      }
      if matchId != currentMatchId || id !in matchMask {
        return;
      }
      MarkPlayerLoadedForCurrentMatch(id, lost);
    }

    /** Frees everything a departing player holds. */
    method FreePlayer(p: nat, id: nat)
      requires Valid() && p < PEER_CAPACITY && id < MAX_PLAYERS
      modifies this`playerIdPoolSize, peerSessions, playerSlots, reclaims, matchPlayers, playerIdPool
      ensures Valid()
      ensures var s := old(Model());
        Model() == s.(
          sessions := s.sessions[p := None],
          reclaims := if s.slots[id].Some? then s.reclaims[id := Some(Reclaim(s.slots[id].value.name, s.slots[id].value.wins))]
                      else s.reclaims,
          seats := s.seats[id := None], slots := s.slots[id := None], pool := Release(s.pool, id))
    {
      hide Release, PoolSane;
      if playerSlots[id].Some? {
        reclaims[id] := Some(Reclaim(playerSlots[id].value.name, playerSlots[id].value.wins));
      }
      matchPlayers[id] := None;
      playerSlots[id] := None;
      ReleasePlayerId(id);
      peerSessions[p] := None;
    }

    method ReleasePeerSession(p: nat, lost: Losses)
      requires Valid() && p < PEER_CAPACITY
      modifies this, peerSessions, playerSlots, reclaims, matchPlayers, playerIdPool, links
      ensures Valid() && Model() == Disconnect(old(Model()), p, lost)
    {
      hide HandleReleased, Release, PoolSane;
      if peerSessions[p].Some? && peerSessions[p].value.playerId.Some? {
        var id := peerSessions[p].value.playerId.value;
        FreePlayer(p, id);
        HandleAcceptedPlayerReleased(id, lost);
        return;
      }
      peerSessions[p] := None;
    }

    /** One transport or tick event, as the service loop hands it on. */
    method HandleServerEvent(e: Event, lost: Losses)
      requires Valid() && Enabled(Model(), e)
      modifies this, peerSessions, playerSlots, reclaims, matchPlayers, playerIdPool, links
      ensures Valid() && Model() == Step(old(Model()), e, lost)
    {
      hide PoolSane, IdsExist, Connect, Hello, LobbyReady, MatchLoaded, Disconnect, ServerTick;
      match e
      case EvConnect(p) => BindPeerSession(p);
      case EvHello(p, name, versionMatches) => OnHello(p, name, versionMatches, lost);
      case EvLobbyReady(p, ready) => OnLobbyReady(p, ready, lost);
      case EvMatchLoaded(p, matchId) => OnMatchLoaded(p, matchId, lost);
      case EvDisconnect(p) => ReleasePeerSession(p, lost);
      case EvTick(killed) => SimulateServerTick(killed, lost);
    }

    // ----- The tick -----

    method AdvanceServerFlow(lost: Losses)
      requires Valid()
      modifies this, playerSlots, matchPlayers, links
      ensures Valid() && Model() == Advance(old(Model()), lost)
    {
      hide PoolSane, IdsExist, BeginMatchBootstrap, BroadcastLobbyState, CancelStarting, LockedSeats, ResetToLobby, CountdownSeconds;
      if phase == LobbyCountdown && countdownDeadlineTick != 0 {
        if serverTick >= countdownDeadlineTick {
          BeginMatchBootstrapNow(lost);
          return;
        }
        var remainingSeconds := ComputeCountdownSecondsRemaining();
        if remainingSeconds != countdownLastBroadcastSecond {
          countdownLastBroadcastSecond := remainingSeconds;
          BroadcastLobby(lost);
        }
        return;
      }
      if phase == StartingMatch && currentMatchId != 0 && startDeadlineTick != 0 && serverTick >= startDeadlineTick {
        CancelStartingMatch(matchMask, lost);
        return;
      }
      if phase == InMatch && unlockTick != 0 && serverTick >= unlockTick {
        SetInputLocks(false);
        unlockTick := 0;
        return;
      }
      if phase != EndOfMatch || currentMatchId == 0 || returnTick == 0 || serverTick < returnTick {
        return;
      }
      ResetRoundRuntimeToLobby();
      BroadcastLobby(lost);
    }

    method ApplyKills(killed: set<nat>)
      requires Valid()
      modifies matchPlayers
      ensures Valid() && Model() == old(Model()).(seats := Killed(old(Model()).seats, killed))
    {
      for id := 0 to MAX_PLAYERS
        invariant forall j | 0 <= j < id :: matchPlayers[j] == Killed(old(matchPlayers[..]), killed)[j]
        invariant forall j | id <= j < MAX_PLAYERS :: matchPlayers[j] == old(matchPlayers[j])
      {
        if matchPlayers[id].Some? && matchPlayers[id].value.alive && id in killed {
          matchPlayers[id] := Some(Seat(false, true));
        }
      }
    }

    method SimulateServerTick(killed: set<nat>, lost: Losses)
      requires Valid()
      modifies this, playerSlots, matchPlayers, links
      ensures Valid() && Model() == ServerTick(old(Model()), killed, lost)
    {
      hide PoolSane, IdsExist, Advance, EndIfDecided, Killed;
      serverTick := serverTick + 1;
      AdvanceServerFlow(lost);
      if phase == InMatch {
        ApplyKills(killed);
        EvaluateRoundEnd(lost);
      }
    }
  }

  // ----- Facts the methods use -----

  lemma RefusalIs(s: Server, p: nat, name: Name, lost: Losses)
    requires |s.links| == |s.sessions| && p < |s.sessions| && !Accepted(s.sessions[p])
    requires (s.phase.Lobby? || s.phase.LobbyCountdown?) && Reserve(s, name).None?
    ensures Hello(s, p, name, true, lost) == SendTo(s, p, Reject(ServerFull), lost)
  {
  }

  lemma AdmissionIs(s: Server, p: nat, name: Name, lost: Losses)
    requires |s.links| == |s.sessions| && p < |s.sessions| && !Accepted(s.sessions[p])
    requires (s.phase.Lobby? || s.phase.LobbyCountdown?) && Reserve(s, name).Some? && Reserve(s, name).value.0 < MAX_PLAYERS
    requires |s.slots| == MAX_PLAYERS && |s.reclaims| == MAX_PLAYERS
    ensures var (id, wins) := Reserve(s, name).value;
      var welcomed := SendTo(s.(pool := Remove(s.pool, id)), p, Welcome(id), lost);
      Hello(s, p, name, true, lost) ==
        if lost(p, s.links[p].attempts) then SendTo(welcomed.(pool := Release(welcomed.pool, id)), p, Reject(Other), lost)
        else HandleJoined(Accept(welcomed, p, id, name, wins), lost)
  {
    hide SendTo, Accept, HandleJoined, Reserve, Remove, Release;
  }

  lemma ReleaseOfMember(pool: seq<nat>, id: nat)
    requires StrictlySorted(pool) && id in pool
    ensures Release(pool, id) == pool
  {
    var i :| 0 <= i < |pool| && pool[i] == id;
    ReleaseIsInsert(pool, id, i);
  }

  /** Putting an id back keeps the pool within its array; a full pool already holds it. */
  lemma ReleaseIsSane(pool: seq<nat>, id: nat)
    requires PoolSane(pool) && id < MAX_PLAYERS
    ensures PoolSane(Release(pool, id)) && (|pool| == MAX_PLAYERS ==> Release(pool, id) == pool)
  {
    ReleasePutsIn(pool, id);
    SortedIsShort(pool, MAX_PLAYERS);
    var after := Release(pool, id);
    hide Release;
    forall i | 0 <= i < |after| ensures after[i] < MAX_PLAYERS {
      assert after[i] in after;
    }
    SortedIsShort(after, MAX_PLAYERS);
    if |pool| == MAX_PLAYERS {
      ReleaseOfMember(pool, id);
    }
  }

  lemma OneMoreSession(sessions: seq<Option<Session>>, p: nat)
    requires p < |sessions|
    ensures AcceptedIds(sessions[..p + 1]) ==
      AcceptedIds(sessions[..p]) + if Accepted(sessions[p]) then {sessions[p].value.playerId.value} else {}
  {
    assert forall q | 0 <= q < p :: sessions[..p + 1][q] == sessions[..p][q];
    assert sessions[..p + 1][p] == sessions[p];
    forall x | x in AcceptedIds(sessions[..p]) ensures x in AcceptedIds(sessions[..p + 1]) {
      var q :| 0 <= q < p && Accepted(sessions[..p][q]) && sessions[..p][q].value.playerId.value == x;
      assert sessions[..p + 1][q] == sessions[..p][q];
    }
  }

  lemma MissingSlot(s: Server, p: nat)
    requires p < |s.sessions| && Accepted(s.sessions[p]) && |s.slots| == MAX_PLAYERS
    requires s.sessions[p].value.playerId.value >= |s.slots| || s.slots[s.sessions[p].value.playerId.value].None?
    ensures SlotMissing(s)
  {
    assert s.sessions[p].value.playerId.value in AcceptedIds(s.sessions);
  }

  lemma SendIgnoresSeats(a: Server, b: Server, id: nat, msg: Control, lost: Losses)
    requires |a.links| == |a.sessions| && b == a.(seats := b.seats)
    ensures SendToPlayer(b, id, msg, lost) == SendToPlayer(a, id, msg, lost).(seats := b.seats)
    ensures Reaches(b, id, lost) == Reaches(a, id, lost)
  {
  }

  lemma OneMoreSeat(seats: seq<Option<Seat>>, id: nat)
    requires id < |seats|
    ensures AnySeat(seats[..id + 1]) <==> AnySeat(seats[..id]) || seats[id].Some?
    ensures AliveIds(seats[..id + 1]) == AliveIds(seats[..id]) + if seats[id].Some? && seats[id].value.alive then {id} else {}
    ensures id !in AliveIds(seats[..id])
    ensures LastAlive(seats[..id + 1]) == if seats[id].Some? && seats[id].value.alive then Some(id) else LastAlive(seats[..id])
  {
    assert seats[..id + 1][..id] == seats[..id];
    assert forall j | 0 <= j < id :: seats[..id + 1][j] == seats[..id][j];
  }

  lemma NoCredit(slots: seq<Option<PlayerSlot>>)
    ensures Credited(slots, None) == slots
  {
  }

  lemma ReservedIdExists(s: Server, name: Name)
    requires Reserve(s, name).Some? && forall id | id in s.pool :: id < MAX_PLAYERS
    ensures Reserve(s, name).value.0 < MAX_PLAYERS
  {
    assert s.pool != [] ==> s.pool[0] in s.pool;
  }

  lemma NobodyReached(s: Server, mask: set<nat>, msg: Control, lost: Losses)
    requires |s.links| == |s.sessions|
    ensures SendToMask(s, mask, msg, 0, lost) == s && ReachedIds(s, mask, msg, 0, lost) == {}
    ensures s.seats == Nones(MAX_PLAYERS) ==> Seated(s.seats, {}) == s.seats
  {
  }

  lemma OneMoreReached(s: Server, mask: set<nat>, msg: Control, id: nat, lost: Losses)
    requires |s.links| == |s.sessions|
    ensures var before := SendToMask(s, mask, msg, id, lost);
      && SendToMask(s, mask, msg, id + 1, lost) == (if id in mask then SendToPlayer(before, id, msg, lost) else before)
      && ReachedIds(s, mask, msg, id + 1, lost)
         == ReachedIds(s, mask, msg, id, lost) + if id in mask && Reaches(before, id, lost) then {id} else {}
  {
    hide SendToPlayer, Reaches;
  }

  lemma SeatOneMore(s: Server, reached: set<nat>, id: nat)
    requires s.seats == Nones(MAX_PLAYERS) && id < MAX_PLAYERS && id !in reached
    ensures |Seated(s.seats, reached)| == MAX_PLAYERS && Seated(s.seats, reached)[id].None?
    ensures Seated(s.seats, reached + {id}) == Seated(s.seats, reached)[id := Some(Seat(true, true))]
    ensures Seated(s.seats, reached)[id := None] == Seated(s.seats, reached)
  {
  }
}
