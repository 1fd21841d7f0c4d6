/** Building the broadcast snapshot from the round state (Server/ServerSnapshot.cpp). */
module Snapshot {
  import opened Config
  import opened Utils
  import opened Wrappers
  import opened Tiles
  import opened Movement
  import opened Bytes
  import opened Blast
  import opened World
  import WorldRuns
  import Rounds
  import Prediction
  import Sorting
  import W = WireSnapshot
  import M = MatchWorld

  // ----- Entries -----

  function Bit(b: bool, value: Byte): Byte {
    if b then value else 0
  }

  /** The replicated flags of one player. */
  function ReplicatedFlags(p: Player, tick: nat): (flags: Byte)
    ensures flags <= W.KNOWN_PLAYER_FLAGS
  {
    Bit(p.alive, 0x01) + Bit(EffectActive(p.invincibleUntilTick, tick), 0x02) + Bit(p.inputLocked, 0x04)
    + Bit(EffectActive(p.bombRangeBoostUntilTick, tick), 0x08) + Bit(EffectActive(p.maxBombsBoostUntilTick, tick), 0x10)
    + Bit(EffectActive(p.speedBoostUntilTick, tick), 0x20)
  }

  function ClampI16(v: int): I16 {
    if v < -0x8000 then -0x8000 else if v > 0x7FFF then 0x7FFF else v
  }

  function PlayerEntryOf(id: Byte, p: Player, tick: nat): W.PlayerEntry {
    W.PlayerEntry(id, ClampI16(p.pos.xQ), ClampI16(p.pos.yQ), ReplicatedFlags(p, tick))
  }

  /** What the server's byte-wide fields can hold. */
  predicate BombFits(b: BombState) {
    Inside(b.cell) && b.ownerId < 256 && b.radius < 256
  }

  function BombEntryOf(b: BombState): W.BombEntry
    requires BombFits(b)
  {
    W.BombEntry(b.ownerId, b.cell.col, b.cell.row, b.radius)
  }

  function KindByte(kind: PowerupType): (b: Byte)
    ensures b < W.POWERUP_TYPE_COUNT
  {
    match kind
    case SpeedBoost => 0
    case Invincibility => 1
    case BombRangeBoost => 2
    case MaxBombsBoost => 3
  }

  function PowerupEntryOf(u: Powerup): W.PowerupEntry
    requires Inside(u.cell)
  {
    W.PowerupEntry(KindByte(u.kind), u.cell.col, u.cell.row)
  }

  // ----- Collecting and sorting -----

  function PlayerEntries(players: seq<Option<Player>>, tick: nat, n: nat): (r: seq<W.PlayerEntry>)
    requires n <= |players| <= MAX_PLAYERS
    ensures |r| <= n
  {
    if n == 0 then []
    else if players[n - 1].None? then PlayerEntries(players, tick, n - 1)
    else PlayerEntries(players, tick, n - 1) + [PlayerEntryOf(n - 1, players[n - 1].value, tick)]
  }

  function LiveBombs(bombs: seq<Option<BombState>>, n: nat): seq<BombState>
    requires n <= |bombs|
  {
    if n == 0 then [] else LiveBombs(bombs, n - 1) + if bombs[n - 1].Some? then [bombs[n - 1].value] else []
  }

  function RevealedPowerups(powerups: seq<Option<Powerup>>, n: nat): (r: seq<Powerup>)
    requires n <= |powerups|
    ensures |r| <= n
  {
    if n == 0 then []
    else if powerups[n - 1].None? || !powerups[n - 1].value.revealed then RevealedPowerups(powerups, n - 1)
    else RevealedPowerups(powerups, n - 1) + [powerups[n - 1].value]
  }

  function BombCellKey(b: BombState): int {
    CellKey(b.cell.col, b.cell.row)
  }

  function PowerupCellKey(u: Powerup): int {
    CellKey(u.cell.col, u.cell.row)
  }

  predicate Fits(w: World) {
    && Shape(w) && w.tick < 0x1_0000_0000
    && (forall i | 0 <= i < |w.bombs| && w.bombs[i].Some? :: BombFits(w.bombs[i].value))
    && (forall j | 0 <= j < |w.powerups| && w.powerups[j].Some? :: Inside(w.powerups[j].value.cell))
  }

  function Packed<T, E>(items: seq<T>, size: nat, entry: T --> E, filler: E): (r: seq<E>)
    requires forall i | 0 <= i < |items| :: entry.requires(items[i])
    ensures |r| == size
    ensures forall i | 0 <= i < size :: r[i] == if i < |items| then entry(items[i]) else filler
  {
    seq(size, i requires 0 <= i < size => if i < |items| then entry(items[i]) else filler)
  }

  lemma {:induction false} LiveBombsMembers(bombs: seq<Option<BombState>>, n: nat, b: BombState)
    requires n <= |bombs|
    ensures b in LiveBombs(bombs, n) <==> exists i :: 0 <= i < n && bombs[i] == Some(b)
    decreases n
  {
    if n > 0 {
      LiveBombsMembers(bombs, n - 1, b);
    }
  }

  lemma {:induction false} RevealedMembers(powerups: seq<Option<Powerup>>, n: nat, u: Powerup)
    requires n <= |powerups|
    ensures u in RevealedPowerups(powerups, n) <==> u.revealed && exists j :: 0 <= j < n && powerups[j] == Some(u)
    decreases n
  {
    if n > 0 {
      RevealedMembers(powerups, n - 1, u);
    }
  }

  function SortedBombs(w: World): (r: seq<BombState>)
    requires Fits(w)
    ensures |r| == |LiveBombs(w.bombs, |w.bombs|)|
    ensures forall i | 0 <= i < |r| :: BombFits(r[i]) && r[i] in LiveBombs(w.bombs, |w.bombs|)
  {
    var live := LiveBombs(w.bombs, |w.bombs|);
    var r := Sorting.SortBy(live, BombCellKey);
    assert |r| == |live| && forall i | 0 <= i < |r| :: BombFits(r[i]) && r[i] in live by {
      Sorting.SortKeeps(live, BombCellKey);
      forall i | 0 <= i < |r| ensures BombFits(r[i]) && r[i] in live {
        assert r[i] in r;
        LiveBombsMembers(w.bombs, |w.bombs|, r[i]);
      }
    }
    r
  }

  function SortedPowerups(w: World): (r: seq<Powerup>)
    requires Fits(w)
    ensures |r| <= POWERUP_CAPACITY
    ensures forall i | 0 <= i < |r| :: Inside(r[i].cell) && r[i] in RevealedPowerups(w.powerups, |w.powerups|)
  {
    var revealed := RevealedPowerups(w.powerups, |w.powerups|);
    var r := Sorting.SortBy(revealed, PowerupCellKey);
    assert |r| == |revealed| && forall i | 0 <= i < |r| :: Inside(r[i].cell) && r[i] in revealed by {
      Sorting.SortKeeps(revealed, PowerupCellKey);
      forall i | 0 <= i < |r| ensures Inside(r[i].cell) && r[i] in revealed {
        assert r[i] in r;
        RevealedMembers(w.powerups, |w.powerups|, r[i]);
      }
    }
    r
  }

  /** The snapshot of one world. */
  function SnapshotOf(w: World, matchId: U32): W.MsgSnapshot
    requires Fits(w)
  {
    var players := PlayerEntries(w.players, w.tick, |w.players|);
    var bombs := SortedBombs(w);
    var powerups := SortedPowerups(w);
    var n := Min(|bombs|, W.MAX_SNAPSHOT_BOMBS);
    W.MsgSnapshot(matchId, w.tick, |players|, n, |powerups|,
      Packed(players, MAX_PLAYERS, e => e, W.NO_PLAYER),
      Packed(bombs[..n], W.MAX_SNAPSHOT_BOMBS, BombEntryOf, W.NO_BOMB),
      Packed(powerups, W.MAX_SNAPSHOT_POWERUPS, PowerupEntryOf, W.NO_POWERUP))
  }

  // ----- The code -----

  method CollectPlayers(s: M.MatchWorld) returns (entries: seq<W.PlayerEntry>)
    requires s.Valid()
    ensures entries == PlayerEntries(s.matchPlayers[..], s.serverTick, MAX_PLAYERS)
  {
    entries := [];
    for id := 0 to MAX_PLAYERS
      invariant entries == PlayerEntries(s.matchPlayers[..], s.serverTick, id)
    {
      if s.matchPlayers[id].Some? {
        entries := entries + [PlayerEntryOf(id, s.matchPlayers[id].value, s.serverTick)];
      }
    }
  }

  method CollectBombs(s: M.MatchWorld) returns (active: seq<BombState>)
    requires s.Valid()
    ensures active == LiveBombs(s.bombs[..], BOMB_CAPACITY)
  {
    active := [];
    for i := 0 to BOMB_CAPACITY
      invariant active == LiveBombs(s.bombs[..], i)
    {
      if s.bombs[i].Some? {
        active := active + [s.bombs[i].value];
      }
    }
  }

  method CollectRevealed(s: M.MatchWorld) returns (revealed: seq<Powerup>)
    requires s.Valid()
    ensures revealed == RevealedPowerups(s.powerups[..], POWERUP_CAPACITY)
  {
    revealed := [];
    for i := 0 to POWERUP_CAPACITY
      invariant revealed == RevealedPowerups(s.powerups[..], i)
    {
      if s.powerups[i].Some? && s.powerups[i].value.revealed {
        revealed := revealed + [s.powerups[i].value];
      }
    }
  }

  /** Packs players in seat order, bombs and revealed powerups in cell order. */
  method BuildSnapshot(s: M.MatchWorld, matchId: U32) returns (snapshot: W.MsgSnapshot)
    requires s.Valid() && Fits(s.Model())
    ensures snapshot == SnapshotOf(s.Model(), matchId)
  {
    hide Sorting.SortBy, PlayerEntries, LiveBombs, RevealedPowerups;
    ghost var w := s.Model();
    var players := CollectPlayers(s);
    var activeBombs := CollectBombs(s);
    var revealed := CollectRevealed(s);
    assert activeBombs == LiveBombs(w.bombs, |w.bombs|) && revealed == RevealedPowerups(w.powerups, |w.powerups|);
    assert players == PlayerEntries(w.players, w.tick, |w.players|);
    var bombs := Sorting.SortBy(activeBombs, BombCellKey);
    assert bombs == SortedBombs(w);
    var powerups := Sorting.SortBy(revealed, PowerupCellKey);
    assert powerups == SortedPowerups(w);
    var n := Min(|bombs|, W.MAX_SNAPSHOT_BOMBS);
    snapshot := W.MsgSnapshot(matchId, s.serverTick, |players|, n, |powerups|,
      Packed(players, MAX_PLAYERS, e => e, W.NO_PLAYER),
      Packed(bombs[..n], W.MAX_SNAPSHOT_BOMBS, BombEntryOf, W.NO_BOMB),
      Packed(powerups, W.MAX_SNAPSHOT_POWERUPS, PowerupEntryOf, W.NO_POWERUP));
  }

  // ----- Every reachable snapshot is valid and complete -----

  lemma ReachableFits(start: TileMap, w: World)
    requires WorldRuns.MidInv(start, w) && w.tick < 0x1_0000_0000
    ensures Fits(w)
  {
    hide WorldRuns.CountsOk, WorldRuns.PlayersOk, WorldRuns.MapOk, TileAt;
  }

  /** A packed entry is the entry of the player it names. */
  ghost predicate EntryIsOf(players: seq<Option<Player>>, tick: nat, e: W.PlayerEntry, n: nat) {
    && e.playerId < n <= |players| && players[e.playerId].Some?
    && e == PlayerEntryOf(e.playerId, players[e.playerId].value, tick)
  }

  lemma {:induction false} PlayerEntriesAreOk(players: seq<Option<Player>>, tick: nat, n: nat)
    requires n <= |players| <= MAX_PLAYERS
    ensures var r := PlayerEntries(players, tick, n);
      && (forall i | 0 <= i < |r| :: EntryIsOf(players, tick, r[i], n))
      && (forall i, j | 0 <= i < j < |r| :: r[i].playerId < r[j].playerId)
      && (forall id | 0 <= id < n && players[id].Some? :: PlayerEntryOf(id, players[id].value, tick) in r)
    decreases n
  {
    hide PlayerEntryOf;
    if n > 0 {
      PlayerEntriesAreOk(players, tick, n - 1);
      var before, r := PlayerEntries(players, tick, n - 1), PlayerEntries(players, tick, n);
      forall i | 0 <= i < |r| ensures EntryIsOf(players, tick, r[i], n) {
        if i < |before| {
          assert EntryIsOf(players, tick, before[i], n - 1);
        } else {
          EntryNames(n - 1, players[n - 1].value, tick);
        }
      }
      assert forall i | 0 <= i < |before| :: EntryIsOf(players, tick, before[i], n - 1);
      if players[n - 1].Some? {
        EntryNames(n - 1, players[n - 1].value, tick);
      }
    }
  }

  lemma EntryNames(id: Byte, p: Player, tick: nat)
    ensures PlayerEntryOf(id, p, tick).playerId == id && PlayerEntryOf(id, p, tick).flags <= W.KNOWN_PLAYER_FLAGS
  {
  }

  lemma {:induction false} LiveBombsCount(bombs: seq<Option<BombState>>, n: nat)
    requires n <= |bombs|
    ensures |LiveBombs(bombs, n)| == |Rounds.LiveSlots(bombs[..n])|
    decreases n
  {
    if n > 0 {
      LiveBombsCount(bombs, n - 1);
      var before := Rounds.LiveSlots(bombs[..n - 1]);
      assert Rounds.LiveSlots(bombs[..n]) == if bombs[n - 1].Some? then before + {n - 1} else before;
    }
  }

  ghost predicate CellsDiffer(bombs: seq<Option<BombState>>) {
    forall i, j | 0 <= i < j < |bombs| && bombs[i].Some? && bombs[j].Some? :: bombs[i].value.cell != bombs[j].value.cell
  }

  lemma {:induction false} LiveBombsAreDistinct(bombs: seq<Option<BombState>>, n: nat)
    requires n <= |bombs| && CellsDiffer(bombs)
    ensures Distinct(LiveBombs(bombs, n))
    decreases n
  {
    if n > 0 {
      LiveBombsAreDistinct(bombs, n - 1);
      if bombs[n - 1].Some? {
        LiveBombsMembers(bombs, n - 1, bombs[n - 1].value);
      }
    }
  }

  lemma LiveCellsDiffer(bombs: seq<Option<BombState>>, a: BombState, b: BombState)
    requires CellsDiffer(bombs) && a != b
    requires a in LiveBombs(bombs, |bombs|) && b in LiveBombs(bombs, |bombs|)
    ensures a.cell != b.cell
  {
    LiveBombsMembers(bombs, |bombs|, a);
    LiveBombsMembers(bombs, |bombs|, b);
    var i :| 0 <= i < |bombs| && bombs[i] == Some(a);
    var j :| 0 <= j < |bombs| && bombs[j] == Some(b);
    assert i < j || j < i;
  }

  /** Sorted bombs stand in strictly ascending cell order. */
  lemma SortedBombsAscend(w: World)
    requires Fits(w) && CellsDiffer(w.bombs)
    ensures var r := SortedBombs(w); forall i, j | 0 <= i < j < |r| :: BombCellKey(r[i]) < BombCellKey(r[j])
  {
    hide LiveBombs, Sorting.SortBy;
    var live, r := LiveBombs(w.bombs, |w.bombs|), SortedBombs(w);
    LiveBombsAreDistinct(w.bombs, |w.bombs|);
    Sorting.SortKeeps(live, BombCellKey);
    Sorting.SortBySorts(live, BombCellKey);
    forall i, j | 0 <= i < j < |r| ensures BombCellKey(r[i]) < BombCellKey(r[j]) {
      LiveCellsDiffer(w.bombs, r[i], r[j]);
      CellKeyIsInjective(r[i].cell, r[j].cell);
    }
  }

  ghost predicate PowerupCellsDiffer(powerups: seq<Option<Powerup>>) {
    forall i, j | 0 <= i < j < |powerups| && powerups[i].Some? && powerups[j].Some? ::
      powerups[i].value.cell != powerups[j].value.cell
  }

  lemma {:induction false} RevealedAreDistinct(powerups: seq<Option<Powerup>>, n: nat)
    requires n <= |powerups| && PowerupCellsDiffer(powerups)
    ensures Distinct(RevealedPowerups(powerups, n))
    decreases n
  {
    if n > 0 {
      RevealedAreDistinct(powerups, n - 1);
      if powerups[n - 1].Some? {
        RevealedMembers(powerups, n - 1, powerups[n - 1].value);
      }
    }
  }

  lemma RevealedCellsDiffer(powerups: seq<Option<Powerup>>, a: Powerup, b: Powerup)
    requires PowerupCellsDiffer(powerups) && a != b
    requires a in RevealedPowerups(powerups, |powerups|) && b in RevealedPowerups(powerups, |powerups|)
    ensures a.cell != b.cell
  {
    RevealedMembers(powerups, |powerups|, a);
    RevealedMembers(powerups, |powerups|, b);
    var i :| 0 <= i < |powerups| && powerups[i] == Some(a);
    var j :| 0 <= j < |powerups| && powerups[j] == Some(b);
    assert i < j || j < i;
  }

  lemma SortedPowerupsAscend(w: World)
    requires Fits(w) && PowerupCellsDiffer(w.powerups)
    ensures var r := SortedPowerups(w); forall i, j | 0 <= i < j < |r| :: PowerupCellKey(r[i]) < PowerupCellKey(r[j])
  {
    hide RevealedPowerups, Sorting.SortBy;
    var revealed, r := RevealedPowerups(w.powerups, |w.powerups|), SortedPowerups(w);
    RevealedAreDistinct(w.powerups, |w.powerups|);
    Sorting.SortKeeps(revealed, PowerupCellKey);
    Sorting.SortBySorts(revealed, PowerupCellKey);
    forall i, j | 0 <= i < j < |r| ensures PowerupCellKey(r[i]) < PowerupCellKey(r[j]) {
      RevealedCellsDiffer(w.powerups, r[i], r[j]);
      CellKeyIsInjective(r[i].cell, r[j].cell);
    }
  }

  lemma WhatTheInvariantGives(start: TileMap, w: World)
    requires WorldRuns.MidInv(start, w)
    ensures CellsDiffer(w.bombs) && PowerupCellsDiffer(w.powerups)
    ensures forall i | 0 <= i < |w.bombs| && w.bombs[i].Some? :: w.bombs[i].value.ownerId < MAX_PLAYERS && w.bombs[i].value.radius > 0
  {
    hide WorldRuns.CountsOk, WorldRuns.PlayersOk, WorldRuns.MapOk, TileAt;
  }

  /** Nothing is cut: the bombs of the snapshot are all live bombs. */
  lemma NothingIsTruncated(start: TileMap, w: World)
    requires WorldRuns.MidInv(start, w) && Fits(w)
    ensures |SortedBombs(w)| == |Rounds.LiveSlots(w.bombs)| <= 8
  {
    Rounds.AtMostEightBombs(start, w);
    LiveBombsCount(w.bombs, |w.bombs|);
    assert w.bombs[..|w.bombs|] == w.bombs;
  }

  lemma BombsAreValid(start: TileMap, w: World, matchId: U32)
    requires WorldRuns.MidInv(start, w) && Fits(w)
    ensures W.BombsOk(SnapshotOf(w, matchId).bombs, SnapshotOf(w, matchId).bombCount)
  {
    NothingIsTruncated(start, w);
    WhatTheInvariantGives(start, w);
    SortedBombsAscend(w);
    hide WorldRuns.MidInv, CellsDiffer, PowerupCellsDiffer, LiveBombs;
    var r := SortedBombs(w);
    forall i | 0 <= i < |r| ensures W.BombEntryOk(BombEntryOf(r[i])) {
      LiveBombsMembers(w.bombs, |w.bombs|, r[i]);
    }
    hide SortedBombs, PlayerEntries, SortedPowerups, Fits;
    assert r[..|r|] == r;
  }

  lemma PowerupsAreValid(start: TileMap, w: World, matchId: U32)
    requires WorldRuns.MidInv(start, w) && Fits(w)
    ensures W.PowerupsOk(SnapshotOf(w, matchId).powerups, SnapshotOf(w, matchId).powerupCount)
  {
    WhatTheInvariantGives(start, w);
    SortedPowerupsAscend(w);
    hide WorldRuns.MidInv, CellsDiffer, PowerupCellsDiffer, SortedBombs, PlayerEntries, SortedPowerups, Fits;
  }

  lemma EntryIsValid(players: seq<Option<Player>>, tick: nat, e: W.PlayerEntry, n: nat)
    requires EntryIsOf(players, tick, e, n) && n <= MAX_PLAYERS
    ensures W.PlayerEntryOk(e)
  {
    EntryNames(e.playerId, players[e.playerId].value, tick);
    hide PlayerEntryOf;
  }

  lemma PlayersAreValid(w: World, matchId: U32)
    requires Fits(w)
    ensures W.PlayersOk(SnapshotOf(w, matchId).players, SnapshotOf(w, matchId).playerCount)
  {
    PlayerEntriesAreOk(w.players, w.tick, |w.players|);
    PlayersPacked(w, matchId);
    hide SnapshotOf, PlayerEntries, EntryIsOf;
    var r, s := PlayerEntries(w.players, w.tick, |w.players|), SnapshotOf(w, matchId);
    forall i | 0 <= i < |r| ensures W.PlayerEntryOk(s.players[i]) {
      EntryIsValid(w.players, w.tick, r[i], |w.players|);
      assert s.players[i] == s.players[..s.playerCount][i];
    }
    forall i, j | 0 <= i < j < |r| ensures s.players[i].playerId < s.players[j].playerId {
      assert s.players[i] == s.players[..s.playerCount][i] && s.players[j] == s.players[..s.playerCount][j];
    }
  }

  /** Every snapshot built in a reachable state passes the client's validator and arrives unchanged. */
  lemma SnapshotPasses(start: TileMap, w: World, matchId: U32)
    requires WorldRuns.MidInv(start, w) && w.tick < 0x1_0000_0000
    ensures Fits(w) && W.Decoded(W.SnapshotBytes(SnapshotOf(w, matchId))) == Some(SnapshotOf(w, matchId))
  {
    ReachableFits(start, w);
    BombsAreValid(start, w, matchId);
    PowerupsAreValid(start, w, matchId);
    PlayersAreValid(w, matchId);
    W.SnapshotRoundTrip(SnapshotOf(w, matchId));
    hide WorldRuns.MidInv, W.PlayersOk, W.BombsOk, W.PowerupsOk;
  }

  // ----- What the entries say -----

  /** The flags, bit by bit: alive, invincible, locked, longer range, more bombs, faster. */
  predicate FlagsSay(flags: Byte, p: Player, tick: nat) {
    && (flags % 2 == 1 <==> p.alive)
    && (flags / 2 % 2 == 1 <==> p.invincibleUntilTick > tick)
    && (flags / 4 % 2 == 1 <==> p.inputLocked)
    && (flags / 8 % 2 == 1 <==> p.bombRangeBoostUntilTick > tick)
    && (flags / 16 % 2 == 1 <==> p.maxBombsBoostUntilTick > tick)
    && (flags / 32 % 2 == 1 <==> p.speedBoostUntilTick > tick)
    && flags < 64
  }

  lemma FlagsSayTheState(p: Player, tick: nat)
    ensures FlagsSay(ReplicatedFlags(p, tick), p, tick)
  {
  }

  /** The speed a client predicts with, read off the replicated flags, is the speed the server moves the player by. */
  lemma ClientSpeedIsServerSpeed(p: Player, tick: nat)
    ensures Prediction.SpeedFor(ReplicatedFlags(p, tick)) == SpeedOf(p, tick)
    ensures SpeedOf(p, tick) == if p.speedBoostUntilTick > tick then 23 else 17
  {
    FlagsSayTheState(p, tick);
    hide ReplicatedFlags;
  }

  predicate PlayerIs(e: W.PlayerEntry, id: nat, p: Player, tick: nat) {
    e.playerId == id && e.xQ == p.pos.xQ && e.yQ == p.pos.yQ && FlagsSay(e.flags, p, tick)
  }

  predicate BombIs(e: W.BombEntry, b: BombState) {
    e.ownerId == b.ownerId && e.col == b.cell.col && e.row == b.cell.row && e.radius == b.radius
  }

  predicate PowerupIs(e: W.PowerupEntry, u: Powerup) {
    && e.col == u.cell.col && e.row == u.cell.row
    && e.kind == match u.kind case SpeedBoost => 0 case Invincibility => 1 case BombRangeBoost => 2 case MaxBombsBoost => 3
  }

  ghost predicate ShowsPlayer(entries: seq<W.PlayerEntry>, id: nat, p: Player, tick: nat) {
    exists i :: 0 <= i < |entries| && PlayerIs(entries[i], id, p, tick)
  }

  ghost predicate ShowsBomb(entries: seq<W.BombEntry>, b: BombState) {
    exists i :: 0 <= i < |entries| && BombIs(entries[i], b)
  }

  ghost predicate ShowsPowerup(entries: seq<W.PowerupEntry>, u: Powerup) {
    exists i :: 0 <= i < |entries| && PowerupIs(entries[i], u)
  }

  ghost predicate IsSomePlayer(e: W.PlayerEntry, w: World) {
    exists id :: 0 <= id < |w.players| && w.players[id].Some? && PlayerIs(e, id, w.players[id].value, w.tick)
  }

  ghost predicate IsSomeBomb(e: W.BombEntry, w: World) {
    exists i :: 0 <= i < |w.bombs| && w.bombs[i].Some? && BombIs(e, w.bombs[i].value)
  }

  ghost predicate IsSomePowerup(e: W.PowerupEntry, w: World) {
    exists j :: 0 <= j < |w.powerups| && w.powerups[j].Some? && w.powerups[j].value.revealed && PowerupIs(e, w.powerups[j].value)
  }

  /** Every player of the world is shown, and only those. */
  ghost predicate PlayersAreShown(s: W.MsgSnapshot, w: World) {
    && s.playerCount <= |s.players|
    && (forall id | 0 <= id < |w.players| && w.players[id].Some? ::
          ShowsPlayer(s.players[..s.playerCount], id, w.players[id].value, w.tick))
    && (forall k | 0 <= k < s.playerCount :: IsSomePlayer(s.players[k], w))
  }

  /** Every live bomb is shown, and only those. */
  ghost predicate BombsAreShown(s: W.MsgSnapshot, w: World) {
    && s.bombCount <= |s.bombs|
    && (forall i | 0 <= i < |w.bombs| && w.bombs[i].Some? :: ShowsBomb(s.bombs[..s.bombCount], w.bombs[i].value))
    && (forall k | 0 <= k < s.bombCount :: IsSomeBomb(s.bombs[k], w))
  }

  /** Every revealed powerup is shown, and only those. */
  ghost predicate PowerupsAreShown(s: W.MsgSnapshot, w: World) {
    && s.powerupCount <= |s.powerups|
    && (forall j | 0 <= j < |w.powerups| && w.powerups[j].Some? && w.powerups[j].value.revealed ::
          ShowsPowerup(s.powerups[..s.powerupCount], w.powerups[j].value))
    && (forall k | 0 <= k < s.powerupCount :: IsSomePowerup(s.powerups[k], w))
  }

  /** The snapshot shows every player, live bomb and revealed powerup of the world, and nothing else. */
  ghost predicate ShowsTheWorld(s: W.MsgSnapshot, w: World, matchId: U32) {
    && s.matchId == matchId && s.serverTick == w.tick && s.bombCount as int == |Rounds.LiveSlots(w.bombs)|
    && PlayersAreShown(s, w) && BombsAreShown(s, w) && PowerupsAreShown(s, w)
  }

  lemma SnapshotIsComplete(start: TileMap, w: World, matchId: U32)
    requires WorldRuns.MidInv(start, w) && Fits(w)
    ensures ShowsTheWorld(SnapshotOf(w, matchId), w, matchId)
  {
    hide SnapshotOf, WorldRuns.MidInv, Rounds.LiveSlots, BombsAreShown, PowerupsAreShown, PlayersAreShown;
    SnapshotHead(start, w, matchId);
    BombsShown(start, w, matchId);
    PowerupsShown(w, matchId);
    PlayersShown(start, w, matchId);
  }

  lemma SnapshotHead(start: TileMap, w: World, matchId: U32)
    requires WorldRuns.MidInv(start, w) && Fits(w)
    ensures var s := SnapshotOf(w, matchId);
      && s.matchId == matchId && s.serverTick == w.tick && s.bombCount as int == |Rounds.LiveSlots(w.bombs)|
  {
    NothingIsTruncated(start, w);
    hide WorldRuns.MidInv, PlayerEntries, LiveBombs, RevealedPowerups, SortedBombs, SortedPowerups, Rounds.LiveSlots;
  }

  lemma BombsPacked(start: TileMap, w: World, matchId: U32)
    requires WorldRuns.MidInv(start, w) && Fits(w)
    ensures var r, s := SortedBombs(w), SnapshotOf(w, matchId);
      && s.bombCount as int == |r| <= |s.bombs|
      && forall k | 0 <= k < |r| :: s.bombs[k] == BombEntryOf(r[k])
  {
    NothingIsTruncated(start, w);
    hide WorldRuns.MidInv, PlayerEntries, SortedBombs, SortedPowerups, Fits;
  }

  lemma SortedBombsMembers(w: World, b: BombState)
    requires Fits(w)
    ensures b in SortedBombs(w) <==> exists i :: 0 <= i < |w.bombs| && w.bombs[i] == Some(b)
  {
    hide LiveBombs;
    LiveBombsMembers(w.bombs, |w.bombs|, b);
    Sorting.SortKeeps(LiveBombs(w.bombs, |w.bombs|), BombCellKey);
  }

  lemma BombsShown(start: TileMap, w: World, matchId: U32)
    requires WorldRuns.MidInv(start, w) && Fits(w)
    ensures BombsAreShown(SnapshotOf(w, matchId), w)
  {
    BombsPacked(start, w, matchId);
    hide SnapshotOf, SortedBombs, WorldRuns.MidInv, Fits;
    var r, s := SortedBombs(w), SnapshotOf(w, matchId);
    forall i | 0 <= i < |w.bombs| && w.bombs[i].Some? ensures ShowsBomb(s.bombs[..s.bombCount], w.bombs[i].value) {
      SortedBombsMembers(w, w.bombs[i].value);
      var k :| 0 <= k < |r| && r[k] == w.bombs[i].value;
      assert BombIs(s.bombs[..s.bombCount][k], w.bombs[i].value);
    }
    forall k | 0 <= k < s.bombCount ensures IsSomeBomb(s.bombs[k], w) {
      SortedBombsMembers(w, r[k]);
      var i :| 0 <= i < |w.bombs| && w.bombs[i] == Some(r[k]);
      assert BombIs(s.bombs[k], w.bombs[i].value);
    }
  }

  lemma PowerupsPacked(w: World, matchId: U32)
    requires Fits(w)
    ensures var r, s := SortedPowerups(w), SnapshotOf(w, matchId);
      && s.powerupCount as int == |r| <= |s.powerups|
      && forall k | 0 <= k < |r| :: s.powerups[k] == PowerupEntryOf(r[k])
  {
    hide PlayerEntries, SortedBombs, SortedPowerups, Fits, PowerupEntryOf, BombEntryOf;
  }

  lemma SortedPowerupsMembers(w: World, u: Powerup)
    requires Fits(w)
    ensures u in SortedPowerups(w) <==> u.revealed && exists j :: 0 <= j < |w.powerups| && w.powerups[j] == Some(u)
  {
    hide RevealedPowerups;
    RevealedMembers(w.powerups, |w.powerups|, u);
    Sorting.SortKeeps(RevealedPowerups(w.powerups, |w.powerups|), PowerupCellKey);
  }

  lemma PowerupsShown(w: World, matchId: U32)
    requires Fits(w)
    ensures PowerupsAreShown(SnapshotOf(w, matchId), w)
  {
    PowerupsPacked(w, matchId);
    hide SnapshotOf, SortedPowerups, Fits, PowerupIs;
    var r, s := SortedPowerups(w), SnapshotOf(w, matchId);
    forall j | 0 <= j < |w.powerups| && w.powerups[j].Some? && w.powerups[j].value.revealed
      ensures ShowsPowerup(s.powerups[..s.powerupCount], w.powerups[j].value)
    {
      SortedPowerupsMembers(w, w.powerups[j].value);
      var k :| 0 <= k < |r| && r[k] == w.powerups[j].value;
      EntryIsPowerup(r[k]);
      assert PowerupIs(s.powerups[..s.powerupCount][k], w.powerups[j].value);
    }
    forall k | 0 <= k < s.powerupCount ensures IsSomePowerup(s.powerups[k], w) {
      SortedPowerupsMembers(w, r[k]);
      var j :| 0 <= j < |w.powerups| && w.powerups[j] == Some(r[k]);
      EntryIsPowerup(r[k]);
      assert PowerupIs(s.powerups[k], w.powerups[j].value);
    }
  }

  lemma EntryIsPowerup(u: Powerup)
    requires Inside(u.cell)
    ensures PowerupIs(PowerupEntryOf(u), u)
  {
  }

  /** The 16-bit clamp loses nothing: a reachable player stands inside the arena. */
  lemma ClampLosesNothing(start: TileMap, w: World, id: nat)
    requires WorldRuns.MidInv(start, w) && id < |w.players| && w.players[id].Some?
    ensures var p := w.players[id].value; ClampI16(p.pos.xQ) == p.pos.xQ && ClampI16(p.pos.yQ) == p.pos.yQ
  {
    WorldRuns.PlayerIsOk(start, w, id);
    ClearingBricksKeepsArena(start, w.tiles);
    ClearIsInside(w.tiles, w.players[id].value.pos);
  }

  lemma EntryIsPlayer(start: TileMap, w: World, id: nat)
    requires WorldRuns.MidInv(start, w) && id < |w.players| <= 4 && w.players[id].Some?
    ensures PlayerIs(PlayerEntryOf(id, w.players[id].value, w.tick), id, w.players[id].value, w.tick)
  {
    ClampLosesNothing(start, w, id);
    FlagsSayTheState(w.players[id].value, w.tick);
    hide WorldRuns.MidInv, ReplicatedFlags, FlagsSay, ClampI16;
  }

  lemma PlayersPacked(w: World, matchId: U32)
    requires Fits(w)
    ensures var r, s := PlayerEntries(w.players, w.tick, |w.players|), SnapshotOf(w, matchId);
      s.playerCount as int == |r| <= |s.players| && s.players[..s.playerCount] == r
  {
    hide PlayerEntries, SortedBombs, SortedPowerups;
  }

  lemma EveryPlayerHasAnEntry(start: TileMap, w: World, id: nat)
    requires WorldRuns.MidInv(start, w) && |w.players| <= 4 && id < |w.players| && w.players[id].Some?
    ensures ShowsPlayer(PlayerEntries(w.players, w.tick, |w.players|), id, w.players[id].value, w.tick)
  {
    PlayerEntriesAreOk(w.players, w.tick, |w.players|);
    hide PlayerEntries, PlayerEntryOf, PlayerIs, WorldRuns.MidInv, EntryIsOf;
    var r := PlayerEntries(w.players, w.tick, |w.players|);
    EntryIsPlayer(start, w, id);
    var k :| 0 <= k < |r| && r[k] == PlayerEntryOf(id, w.players[id].value, w.tick);
    assert PlayerIs(r[k], id, w.players[id].value, w.tick);
  }

  lemma EveryEntryHasAPlayer(start: TileMap, w: World, k: nat)
    requires WorldRuns.MidInv(start, w) && |w.players| <= 4 && k < |PlayerEntries(w.players, w.tick, |w.players|)|
    ensures IsSomePlayer(PlayerEntries(w.players, w.tick, |w.players|)[k], w)
  {
    PlayerEntriesAreOk(w.players, w.tick, |w.players|);
    hide PlayerEntries, PlayerEntryOf, PlayerIs, WorldRuns.MidInv;
    var e := PlayerEntries(w.players, w.tick, |w.players|)[k];
    assert EntryIsOf(w.players, w.tick, e, |w.players|);
    var id: nat := e.playerId;
    EntryIsPlayer(start, w, id);
    assert PlayerIs(e, id, w.players[id].value, w.tick);
  }

  lemma PlayersShown(start: TileMap, w: World, matchId: U32)
    requires WorldRuns.MidInv(start, w) && Fits(w)
    ensures PlayersAreShown(SnapshotOf(w, matchId), w)
  {
    PlayersPacked(w, matchId);
    hide PlayerEntries, SnapshotOf, WorldRuns.MidInv, ShowsPlayer, IsSomePlayer;
    var r, s := PlayerEntries(w.players, w.tick, |w.players|), SnapshotOf(w, matchId);
    forall id | 0 <= id < |w.players| && w.players[id].Some? ensures ShowsPlayer(r, id, w.players[id].value, w.tick) {
      EveryPlayerHasAnEntry(start, w, id);
    }
    forall k | 0 <= k < s.playerCount ensures IsSomePlayer(s.players[k], w) {
      assert s.players[k] == s.players[..s.playerCount][k];
      EveryEntryHasAPlayer(start, w, k);
    }
  }
}
