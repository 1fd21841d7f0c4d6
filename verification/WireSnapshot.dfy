/** The Snapshot payload: 111 bytes, fixed layout (Net/NetCommon.h). */
module WireSnapshot {
  import opened Config
  import opened Wrappers
  import opened Tiles
  import opened Movement
  import opened Bytes

  const MAX_SNAPSHOT_BOMBS := 16
  const MAX_SNAPSHOT_POWERUPS := 4
  const PLAYERS_OFFSET := 11
  const BOMBS_OFFSET := 35
  const POWERUPS_OFFSET := 99
  const SNAPSHOT_SIZE := 111
  const KNOWN_PLAYER_FLAGS := 0x3F
  const POWERUP_TYPE_COUNT := 4

  datatype PlayerEntry = PlayerEntry(playerId: Byte, xQ: I16, yQ: I16, flags: Byte)
  datatype BombEntry = BombEntry(ownerId: Byte, col: Byte, row: Byte, radius: Byte)
  datatype PowerupEntry = PowerupEntry(kind: Byte, col: Byte, row: Byte)

  const NO_PLAYER := PlayerEntry(0, 0, 0, 0)
  const NO_BOMB := BombEntry(0, 0, 0, 0)
  const NO_POWERUP := PowerupEntry(0, 0, 0)

  type PlayerArray = s: seq<PlayerEntry> | |s| == MAX_PLAYERS witness seq(MAX_PLAYERS, _ => NO_PLAYER)
  type BombArray = s: seq<BombEntry> | |s| == MAX_SNAPSHOT_BOMBS witness seq(MAX_SNAPSHOT_BOMBS, _ => NO_BOMB)
  type PowerupArray = s: seq<PowerupEntry> | |s| == MAX_SNAPSHOT_POWERUPS witness seq(MAX_SNAPSHOT_POWERUPS, _ => NO_POWERUP)

  datatype MsgSnapshot = MsgSnapshot(
    matchId: U32, serverTick: U32, playerCount: Byte, bombCount: Byte, powerupCount: Byte,
    players: PlayerArray, bombs: BombArray, powerups: PowerupArray)

  // ----- Validity -----

  predicate PlayerEntryOk(e: PlayerEntry) {
    e.playerId < MAX_PLAYERS && e.flags <= KNOWN_PLAYER_FLAGS
  }

  predicate BombEntryOk(e: BombEntry) {
    e.ownerId < MAX_PLAYERS && e.col < WIDTH && e.row < HEIGHT && e.radius != 0
  }

  predicate PowerupEntryOk(e: PowerupEntry) {
    e.kind < POWERUP_TYPE_COUNT && e.col < WIDTH && e.row < HEIGHT
  }

  function BombKey(e: BombEntry): nat {
    e.row * WIDTH + e.col
  }

  function PowerupKey(e: PowerupEntry): nat {
    e.row * WIDTH + e.col
  }

  /** Players in strictly ascending id order. */
  ghost predicate PlayersOk(players: PlayerArray, n: nat)
    requires n <= MAX_PLAYERS
  {
    && (forall i | 0 <= i < n :: PlayerEntryOk(players[i]))
    && forall i, j | 0 <= i < j < n :: players[i].playerId < players[j].playerId
  }

  /** Bombs in strictly ascending cell order, hence at most one a cell. */
  ghost predicate BombsOk(bombs: BombArray, n: nat)
    requires n <= MAX_SNAPSHOT_BOMBS
  {
    && (forall i | 0 <= i < n :: BombEntryOk(bombs[i]))
    && forall i, j | 0 <= i < j < n :: BombKey(bombs[i]) < BombKey(bombs[j])
  }

  ghost predicate PowerupsOk(powerups: PowerupArray, n: nat)
    requires n <= MAX_SNAPSHOT_POWERUPS
  {
    && (forall i | 0 <= i < n :: PowerupEntryOk(powerups[i]))
    && forall i, j | 0 <= i < j < n :: PowerupKey(powerups[i]) < PowerupKey(powerups[j])
  }

  ghost predicate WellFormed(m: MsgSnapshot) {
    && m.playerCount <= MAX_PLAYERS && m.bombCount <= MAX_SNAPSHOT_BOMBS && m.powerupCount <= MAX_SNAPSHOT_POWERUPS
    && PlayersOk(m.players, m.playerCount) && BombsOk(m.bombs, m.bombCount) && PowerupsOk(m.powerups, m.powerupCount)
  }

  // ----- Layout -----

  function PlayerByte(e: PlayerEntry, i: nat): Byte
    requires i < 6
  {
    if i == 0 then e.playerId
    else if i < 3 then ByteOf(AsUnsigned(e.xQ), i - 1)
    else if i < 5 then ByteOf(AsUnsigned(e.yQ), i - 3)
    else e.flags
  }

  function BombByte(e: BombEntry, i: nat): Byte
    requires i < 4
  {
    if i == 0 then e.ownerId else if i == 1 then e.col else if i == 2 then e.row else e.radius
  }

  function PowerupByte(e: PowerupEntry, i: nat): Byte
    requires i < 3
  {
    if i == 0 then e.kind else if i == 1 then e.col else e.row
  }

  /** Byte k of the serialised payload. */
  function SnapshotByte(m: MsgSnapshot, k: nat): Byte
    requires k < SNAPSHOT_SIZE
  {
    if k < 4 then ByteOf(m.matchId, k)
    else if k < 8 then ByteOf(m.serverTick, k - 4)
    else if k == 8 then AtMost(m.playerCount, MAX_PLAYERS)
    else if k == 9 then AtMost(m.bombCount, MAX_SNAPSHOT_BOMBS)
    else if k == 10 then AtMost(m.powerupCount, MAX_SNAPSHOT_POWERUPS)
    else if k < BOMBS_OFFSET then PlayerByte(m.players[(k - PLAYERS_OFFSET) / 6], (k - PLAYERS_OFFSET) % 6)
    else if k < POWERUPS_OFFSET then BombByte(m.bombs[(k - BOMBS_OFFSET) / 4], (k - BOMBS_OFFSET) % 4)
    else PowerupByte(m.powerups[(k - POWERUPS_OFFSET) / 3], (k - POWERUPS_OFFSET) % 3)
  }

  function SnapshotBytes(m: MsgSnapshot): seq<Byte> {
    seq(SNAPSHOT_SIZE, k requires 0 <= k < SNAPSHOT_SIZE => SnapshotByte(m, k))
  }

  function PlayerAt(b: seq<Byte>, at: nat): PlayerEntry
    requires at + 6 <= |b|
  {
    PlayerEntry(b[at], ReadI16LE(b, at + 1), ReadI16LE(b, at + 3), b[at + 5])
  }

  function BombAt(b: seq<Byte>, at: nat): BombEntry
    requires at + 4 <= |b|
  {
    BombEntry(b[at], b[at + 1], b[at + 2], b[at + 3])
  }

  function PowerupAt(b: seq<Byte>, at: nat): PowerupEntry
    requires at + 3 <= |b|
  {
    PowerupEntry(b[at], b[at + 1], b[at + 2])
  }

  /** The fields as they stand in the bytes, before any validation. */
  function Parsed(b: seq<Byte>): MsgSnapshot
    requires |b| >= SNAPSHOT_SIZE
  {
    MsgSnapshot(ReadU32LE(b, 0), ReadU32LE(b, 4), b[8], b[9], b[10],
      seq(MAX_PLAYERS, i requires 0 <= i < MAX_PLAYERS => PlayerAt(b, PLAYERS_OFFSET + 6 * i)),
      seq(MAX_SNAPSHOT_BOMBS, i requires 0 <= i < MAX_SNAPSHOT_BOMBS => BombAt(b, BOMBS_OFFSET + 4 * i)),
      seq(MAX_SNAPSHOT_POWERUPS, i requires 0 <= i < MAX_SNAPSHOT_POWERUPS => PowerupAt(b, POWERUPS_OFFSET + 3 * i)))
  }

  ghost function Decoded(b: seq<Byte>): Option<MsgSnapshot> {
    if |b| >= SNAPSHOT_SIZE && WellFormed(Parsed(b)) then Some(Parsed(b)) else None
  }

  // ----- The receiver's validation -----

  /** Accepts the active players exactly when they are valid and strictly ascending; compares neighbours only. */
  method CheckPlayers(players: PlayerArray, count: nat) returns (ok: bool)
    requires count <= MAX_PLAYERS
    ensures ok <==> PlayersOk(players, count)
  {
    var previousPlayerId := 0;
    for i := 0 to count
      invariant PlayersOk(players, i) && (i > 0 ==> previousPlayerId == players[i - 1].playerId)
    {
      if players[i].playerId >= MAX_PLAYERS {
        return false;
      }
      if i > 0 && players[i].playerId <= previousPlayerId {
        return false;
      }
      previousPlayerId := players[i].playerId;
      if players[i].flags > KNOWN_PLAYER_FLAGS {
        return false;
      }
    }
    return true;
  }

  method CheckBombs(bombs: BombArray, count: nat) returns (ok: bool)
    requires count <= MAX_SNAPSHOT_BOMBS
    ensures ok <==> BombsOk(bombs, count)
  {
    hide BombKey;
    var previousKey := 0;
    for i := 0 to count
      invariant BombsOk(bombs, i) && (i > 0 ==> previousKey == BombKey(bombs[i - 1]))
    {
      if !BombEntryOk(bombs[i]) {
        return false;
      }
      if i > 0 && BombKey(bombs[i]) <= previousKey {
        return false;
      }
      previousKey := BombKey(bombs[i]);
    }
    return true;
  }

  method CheckPowerups(powerups: PowerupArray, count: nat) returns (ok: bool)
    requires count <= MAX_SNAPSHOT_POWERUPS
    ensures ok <==> PowerupsOk(powerups, count)
  {
    hide PowerupKey;
    var previousKey := 0;
    for i := 0 to count
      invariant PowerupsOk(powerups, i) && (i > 0 ==> previousKey == PowerupKey(powerups[i - 1]))
    {
      if !PowerupEntryOk(powerups[i]) {
        return false;
      }
      if i > 0 && PowerupKey(powerups[i]) <= previousKey {
        return false;
      }
      previousKey := PowerupKey(powerups[i]);
    }
    return true;
  }

  method DeserializeMsgSnapshot(b: seq<Byte>) returns (r: Option<MsgSnapshot>)
    ensures r == Decoded(b)
  {
    hide PlayersOk, BombsOk, PowerupsOk;
    if |b| < SNAPSHOT_SIZE {
      return None;
    }
    var m := Parsed(b);
    hide Parsed;
    if m.playerCount > MAX_PLAYERS || m.bombCount > MAX_SNAPSHOT_BOMBS || m.powerupCount > MAX_SNAPSHOT_POWERUPS {
      return None;
    }
    var ok := CheckPlayers(m.players, m.playerCount);
    if !ok {
      return None;
    }
    ok := CheckBombs(m.bombs, m.bombCount);
    if !ok {
      return None;
    }
    ok := CheckPowerups(m.powerups, m.powerupCount);
    return if ok then Some(m) else None;
  }

  // ----- Serialisation in place -----

  method WritePlayer(e: PlayerEntry, out: array<Byte>, at: nat)
    requires at + 6 <= out.Length
    modifies out
    ensures forall i | 0 <= i < 6 :: out[at + i] == PlayerByte(e, i)
    ensures forall k | 0 <= k < out.Length && !(at <= k < at + 6) :: out[k] == old(out[k])
  {
    hide ByteOf;
    out[at] := e.playerId;
    WriteU16LE(out, at + 1, AsUnsigned(e.xQ));
    WriteU16LE(out, at + 3, AsUnsigned(e.yQ));
    out[at + 5] := e.flags;
    assert out[at + 1 + 0] == ByteOf(AsUnsigned(e.xQ), 0) && out[at + 1 + 1] == ByteOf(AsUnsigned(e.xQ), 1);
    assert out[at + 3 + 0] == ByteOf(AsUnsigned(e.yQ), 0) && out[at + 3 + 1] == ByteOf(AsUnsigned(e.yQ), 1);
  }

  /** Bytes at..at+n of `out` are bytes at..at+n of the payload. */
  ghost predicate Written(m: MsgSnapshot, out: seq<Byte>, n: nat) {
    n <= SNAPSHOT_SIZE <= |out| && forall k | 0 <= k < n :: out[k] == SnapshotByte(m, k)
  }

  method WriteHead(m: MsgSnapshot, out: array<Byte>)
    requires out.Length >= SNAPSHOT_SIZE
    modifies out
    ensures Written(m, out[..], PLAYERS_OFFSET)
  {
    hide ByteOf;
    WriteU32LE(out, 0, m.matchId);
    WriteU32LE(out, 4, m.serverTick);
    out[8] := AtMost(m.playerCount, MAX_PLAYERS);
    out[9] := AtMost(m.bombCount, MAX_SNAPSHOT_BOMBS);
    out[10] := AtMost(m.powerupCount, MAX_SNAPSHOT_POWERUPS);
    forall k | 0 <= k < PLAYERS_OFFSET ensures out[k] == SnapshotByte(m, k) {
      assert k < 4 ==> out[0 + k] == ByteOf(m.matchId, k);
      assert 4 <= k < 8 ==> out[4 + (k - 4)] == ByteOf(m.serverTick, k - 4);
    }
  }

  method WritePlayers(m: MsgSnapshot, out: array<Byte>)
    requires out.Length >= SNAPSHOT_SIZE && Written(m, out[..], PLAYERS_OFFSET)
    modifies out
    ensures Written(m, out[..], BOMBS_OFFSET)
  {
    hide PlayerByte, BombByte, PowerupByte;
    for i := 0 to MAX_PLAYERS
      invariant Written(m, out[..], PLAYERS_OFFSET + 6 * i)
    {
      ghost var before := out[..];
      WritePlayer(m.players[i], out, PLAYERS_OFFSET + 6 * i);
      forall k | 0 <= k < PLAYERS_OFFSET + 6 * (i + 1) ensures out[k] == SnapshotByte(m, k) {
        if k < PLAYERS_OFFSET + 6 * i {
          assert out[k] == before[k];
        } else {
          var at, j := PLAYERS_OFFSET + 6 * i, k - (PLAYERS_OFFSET + 6 * i);
          assert out[at + j] == PlayerByte(m.players[i], j);
        }
      }
    }
  }

  method WriteBombs(m: MsgSnapshot, out: array<Byte>)
    requires out.Length >= SNAPSHOT_SIZE && Written(m, out[..], BOMBS_OFFSET)
    modifies out
    ensures Written(m, out[..], POWERUPS_OFFSET)
  {
    hide PlayerByte, PowerupByte;
    for i := 0 to MAX_SNAPSHOT_BOMBS
      invariant Written(m, out[..], BOMBS_OFFSET + 4 * i)
    {
      ghost var before := out[..];
      var at := BOMBS_OFFSET + 4 * i;
      out[at], out[at + 1], out[at + 2], out[at + 3] := m.bombs[i].ownerId, m.bombs[i].col, m.bombs[i].row, m.bombs[i].radius;
      forall k | 0 <= k < at + 4 ensures out[k] == SnapshotByte(m, k) {
        assert k < at ==> out[k] == before[k];
      }
    }
  }

  method WritePowerups(m: MsgSnapshot, out: array<Byte>)
    requires out.Length >= SNAPSHOT_SIZE && Written(m, out[..], POWERUPS_OFFSET)
    modifies out
    ensures Written(m, out[..], SNAPSHOT_SIZE)
  {
    hide PlayerByte, BombByte;
    for i := 0 to MAX_SNAPSHOT_POWERUPS
      invariant Written(m, out[..], POWERUPS_OFFSET + 3 * i)
    {
      ghost var before := out[..];
      var at := POWERUPS_OFFSET + 3 * i;
      out[at], out[at + 1], out[at + 2] := m.powerups[i].kind, m.powerups[i].col, m.powerups[i].row;
      forall k | 0 <= k < at + 3 ensures out[k] == SnapshotByte(m, k) {
        assert k < at ==> out[k] == before[k];
      }
    }
  }

  method SerializeMsgSnapshot(m: MsgSnapshot, out: array<Byte>)
    requires out.Length >= SNAPSHOT_SIZE
    modifies out
    ensures out[..SNAPSHOT_SIZE] == SnapshotBytes(m)
  {
    WriteHead(m, out);
    WritePlayers(m, out);
    WriteBombs(m, out);
    WritePowerups(m, out);
    hide SnapshotByte;
  }

  // ----- Round trip -----

  lemma PlayerBytesAt(m: MsgSnapshot, i: nat, j: nat)
    requires i < MAX_PLAYERS && j < 6
    ensures SnapshotBytes(m)[PLAYERS_OFFSET + 6 * i + j] == PlayerByte(m.players[i], j)
  {
    hide ByteOf, PlayerByte, BombByte, PowerupByte;
    var k := PLAYERS_OFFSET + 6 * i + j;
    assert (k - PLAYERS_OFFSET) / 6 == i && (k - PLAYERS_OFFSET) % 6 == j;
  }

  lemma PlayerReadsBack(m: MsgSnapshot, i: nat)
    requires i < MAX_PLAYERS
    ensures PlayerAt(SnapshotBytes(m), PLAYERS_OFFSET + 6 * i) == m.players[i]
  {
    hide ByteOf, ReadI16LE, AsUnsigned, SnapshotBytes, SnapshotByte;
    var b, at, e := SnapshotBytes(m), PLAYERS_OFFSET + 6 * i, m.players[i];
    assert |b| == SNAPSHOT_SIZE by {
      SnapshotSize(m);
    }
    PlayerBytesAt(m, i, 0);
    PlayerBytesAt(m, i, 1);
    PlayerBytesAt(m, i, 2);
    PlayerBytesAt(m, i, 3);
    PlayerBytesAt(m, i, 4);
    PlayerBytesAt(m, i, 5);
    ReadBackI16(b, at + 1, e.xQ);
    ReadBackI16(b, at + 3, e.yQ);
  }

  lemma SnapshotSize(m: MsgSnapshot)
    ensures |SnapshotBytes(m)| == SNAPSHOT_SIZE
  {
  }

  lemma PlayersReadBack(m: MsgSnapshot)
    ensures Parsed(SnapshotBytes(m)).players == m.players
  {
    SnapshotSize(m);
    hide ReadU32LE, PlayerAt, SnapshotBytes;
    forall i | 0 <= i < MAX_PLAYERS ensures PlayerAt(SnapshotBytes(m), PLAYERS_OFFSET + 6 * i) == m.players[i] {
      PlayerReadsBack(m, i);
    }
  }

  lemma BombReadsBack(m: MsgSnapshot, i: nat)
    requires i < MAX_SNAPSHOT_BOMBS
    ensures BombAt(SnapshotBytes(m), BOMBS_OFFSET + 4 * i) == m.bombs[i]
  {
    hide ByteOf, PlayerByte, PowerupByte;
    var b, at := SnapshotBytes(m), BOMBS_OFFSET + 4 * i;
    assert b[at] == m.bombs[i].ownerId && b[at + 1] == m.bombs[i].col && b[at + 2] == m.bombs[i].row;
    assert b[at + 3] == m.bombs[i].radius;
  }

  lemma PowerupReadsBack(m: MsgSnapshot, i: nat)
    requires i < MAX_SNAPSHOT_POWERUPS
    ensures PowerupAt(SnapshotBytes(m), POWERUPS_OFFSET + 3 * i) == m.powerups[i]
  {
    hide ByteOf, PlayerByte, BombByte;
    var b, at := SnapshotBytes(m), POWERUPS_OFFSET + 3 * i;
    assert b[at] == m.powerups[i].kind && b[at + 1] == m.powerups[i].col && b[at + 2] == m.powerups[i].row;
  }

  lemma ItemsReadBack(m: MsgSnapshot)
    ensures Parsed(SnapshotBytes(m)).bombs == m.bombs && Parsed(SnapshotBytes(m)).powerups == m.powerups
  {
    SnapshotSize(m);
    hide ReadU32LE, BombAt, PowerupAt, SnapshotBytes;
    forall i | 0 <= i < MAX_SNAPSHOT_BOMBS ensures BombAt(SnapshotBytes(m), BOMBS_OFFSET + 4 * i) == m.bombs[i] {
      BombReadsBack(m, i);
    }
    forall i | 0 <= i < MAX_SNAPSHOT_POWERUPS ensures PowerupAt(SnapshotBytes(m), POWERUPS_OFFSET + 3 * i) == m.powerups[i] {
      PowerupReadsBack(m, i);
    }
  }

  /** A snapshot survives the wire unchanged exactly if it is well formed. */
  lemma SnapshotRoundTrip(m: MsgSnapshot)
    ensures Decoded(SnapshotBytes(m)) == Some(m) <==> WellFormed(m)
  {
    var b := SnapshotBytes(m);
    PlayersReadBack(m);
    ItemsReadBack(m);
    ReadBackU32(b, 0, m.matchId);
    ReadBackU32(b, 4, m.serverTick);
    hide ByteOf, ReadU32LE, PlayersOk, BombsOk, PowerupsOk, PlayerByte, BombByte, PowerupByte, PlayerAt, BombAt, PowerupAt;
    assert m.playerCount <= MAX_PLAYERS && m.bombCount <= MAX_SNAPSHOT_BOMBS && m.powerupCount <= MAX_SNAPSHOT_POWERUPS
      ==> Parsed(b) == m;
  }
}
