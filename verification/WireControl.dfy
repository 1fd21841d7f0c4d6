/** The control payloads (Net/NetCommon.h), and every control message of every run on the wire. */
module WireControl {
  import opened Config
  import opened Wrappers
  import opened Movement
  import opened Bytes
  import opened ClientFlow
  import F = Flow
  import FlowInv
  import FlowLinks
  import WireEvents

  // ----- Names in fields -----

  type NameArray = s: seq<Byte> | |s| == PLAYER_NAME_MAX witness seq(PLAYER_NAME_MAX, _ => 0)

  function FieldByte(name: Name, i: nat): Byte {
    if i < |name| then name[i] else 0
  }

  /** A name in its sixteen-byte field, zero-padded. */
  function NameField(name: Name): NameArray {
    seq(PLAYER_NAME_MAX, i requires 0 <= i < PLAYER_NAME_MAX => FieldByte(name, i))
  }

  /** The name a field shows: the bytes before its terminator. */
  function VisibleName(field: NameArray): Name {
    var n := BoundedStrLen(field, PLAYER_NAME_MAX - 1);
    seq(n, i requires 0 <= i < n => var c: NameChar := field[i]; c)
  }

  lemma FieldsArePadded(name: Name)
    ensures Padded(NameField(name)) && BoundedStrLen(NameField(name), PLAYER_NAME_MAX - 1) == |name|
  {
    StrLenIs(NameField(name), PLAYER_NAME_MAX - 1, |name|);
  }

  /** Every name fits its field whole. */
  lemma NamesComeBack(name: Name)
    ensures VisibleName(NameField(name)) == name
  {
    FieldsArePadded(name);
  }

  function ZeroName(): NameArray {
    seq(PLAYER_NAME_MAX, _ => 0)
  }

  // ----- Hello -----

  const HELLO_SIZE := 18

  datatype MsgHello = MsgHello(protocolVersion: U16, name: NameArray)

  function HelloByte(m: MsgHello, k: nat): Byte
    requires k < HELLO_SIZE
  {
    if k < 2 then ByteOf(m.protocolVersion, k) else NameByte(m.name, k - 2)
  }

  function HelloBytes(m: MsgHello): seq<Byte> {
    seq(HELLO_SIZE, k requires 0 <= k < HELLO_SIZE => HelloByte(m, k))
  }

  /** The version and the name of a Hello, the name up to its first zero and at most fifteen bytes of it. */
  function DecodeHello(b: seq<Byte>): Option<(U16, Name)> {
    if |b| < HELLO_SIZE then None else Some((ReadU16LE(b, 0), VisibleName(b[2..HELLO_SIZE])))
  }

  /** A Hello brings over its version and the visible part of its name. */
  lemma HelloRoundTrip(m: MsgHello)
    ensures DecodeHello(HelloBytes(m)) == Some((m.protocolVersion, VisibleName(m.name)))
  {
    var b := HelloBytes(m);
    ReadBackU16(b, 0, m.protocolVersion);
    var field: NameArray := b[2..HELLO_SIZE];
    forall i | 0 <= i < PLAYER_NAME_MAX ensures field[i] == NameByte(m.name, i) {
      assert field[i] == b[i + 2];
    }
    StrLenIs(field, PLAYER_NAME_MAX - 1, BoundedStrLen(m.name, PLAYER_NAME_MAX - 1));
    hide BoundedStrLen;
    assert |b| == HELLO_SIZE && ReadU16LE(b, 0) == m.protocolVersion;
    hide HelloBytes, ReadU16LE;
    assert VisibleName(field) == VisibleName(m.name);
  }

  // ----- MatchStart -----

  const MATCH_START_SIZE := 12

  datatype MsgMatchStart = MsgMatchStart(matchId: U32, goShowServerTick: U32, unlockServerTick: U32)

  function MatchStartByte(m: MsgMatchStart, k: nat): Byte
    requires k < MATCH_START_SIZE
  {
    if k < 4 then ByteOf(m.matchId, k)
    else if k < 8 then ByteOf(m.goShowServerTick, k - 4)
    else ByteOf(m.unlockServerTick, k - 8)
  }

  function MatchStartBytes(m: MsgMatchStart): seq<Byte> {
    seq(MATCH_START_SIZE, k requires 0 <= k < MATCH_START_SIZE => MatchStartByte(m, k))
  }

  function DecodeMatchStart(b: seq<Byte>): Option<MsgMatchStart> {
    if |b| < MATCH_START_SIZE then None
    else
      var m := MsgMatchStart(ReadU32LE(b, 0), ReadU32LE(b, 4), ReadU32LE(b, 8));
      if m.matchId != 0 && m.goShowServerTick != 0 && m.unlockServerTick != 0 && m.goShowServerTick <= m.unlockServerTick
      then Some(m) else None
  }

  lemma MatchStartRoundTrip(m: MsgMatchStart)
    ensures DecodeMatchStart(MatchStartBytes(m)) == Some(m) <==>
      m.matchId != 0 && m.goShowServerTick != 0 && m.unlockServerTick != 0 && m.goShowServerTick <= m.unlockServerTick
  {
    var b := MatchStartBytes(m);
    ReadBackU32(b, 0, m.matchId);
    ReadBackU32(b, 4, m.goShowServerTick);
    ReadBackU32(b, 8, m.unlockServerTick);
    hide ByteOf, ReadU32LE;
  }

  // ----- MatchResult -----

  const MATCH_RESULT_SIZE := 22
  const DRAW: Byte := 0
  const WIN: Byte := 1
  const NO_WINNER: Byte := 0xFF

  datatype MsgMatchResult = MsgMatchResult(matchId: U32, result: Byte, winnerPlayerId: Byte, winnerName: NameArray)

  function MatchResultByte(m: MsgMatchResult, k: nat): Byte
    requires k < MATCH_RESULT_SIZE
  {
    if k < 4 then ByteOf(m.matchId, k)
    else if k == 4 then m.result
    else if k == 5 then m.winnerPlayerId
    else NameByte(m.winnerName, k - 6)
  }

  function MatchResultBytes(m: MsgMatchResult): seq<Byte> {
    seq(MATCH_RESULT_SIZE, k requires 0 <= k < MATCH_RESULT_SIZE => MatchResultByte(m, k))
  }

  /** The raw name field with its last byte terminated. */
  function Terminated(b: seq<Byte>, at: nat): NameArray
    requires at + PLAYER_NAME_MAX <= |b|
  {
    b[at..at + PLAYER_NAME_MAX][PLAYER_NAME_MAX - 1 := 0]
  }

  function DecodeMatchResult(b: seq<Byte>): Option<MsgMatchResult> {
    if |b| < MATCH_RESULT_SIZE then None
    else
      var matchId, name := ReadU32LE(b, 0), Terminated(b, 6);
      if b[4] == DRAW then
        if matchId != 0 then Some(MsgMatchResult(matchId, DRAW, NO_WINNER, ZeroName())) else None
      else if b[4] == WIN then
        if matchId == 0 || b[5] >= 4 then None
        else if BoundedStrLen(name, PLAYER_NAME_MAX - 1) == 0 then None
        else Some(MsgMatchResult(matchId, WIN, b[5], name))
      else None
  }

  predicate MatchResultOk(m: MsgMatchResult) {
    && m.matchId != 0
    && (|| (m.result == DRAW && m.winnerPlayerId == NO_WINNER && m.winnerName == ZeroName())
        || (m.result == WIN && m.winnerPlayerId < 4 && Padded(m.winnerName) && BoundedStrLen(m.winnerName, PLAYER_NAME_MAX - 1) > 0))
  }

  lemma NameReadsBack(b: seq<Byte>, at: nat, name: NameArray)
    requires at + PLAYER_NAME_MAX <= |b| && forall i | 0 <= i < PLAYER_NAME_MAX :: b[at + i] == NameByte(name, i)
    ensures Terminated(b, at) == name <==> Padded(name)
    ensures Terminated(b, at) == seq(PLAYER_NAME_MAX, i requires 0 <= i < PLAYER_NAME_MAX => NameByte(name, i))
  {
    PaddedIsItsBytes(name);
    var t := Terminated(b, at);
    assert NameByte(name, PLAYER_NAME_MAX - 1) == 0;
    forall i | 0 <= i < PLAYER_NAME_MAX ensures t[i] == NameByte(name, i) {
      assert i < PLAYER_NAME_MAX - 1 ==> t[i] == b[at + i];
    }
  }

  lemma MatchResultRoundTrip(m: MsgMatchResult)
    ensures DecodeMatchResult(MatchResultBytes(m)) == Some(m) <==> MatchResultOk(m)
  {
    var b := MatchResultBytes(m);
    ReadBackU32(b, 0, m.matchId);
    NameReadsBack(b, 6, m.winnerName);
    hide ByteOf, ReadU32LE, BoundedStrLen, NameByte, Terminated;
  }

  // ----- LobbyState -----

  const LOBBY_SEAT_SIZE := 18
  const LOBBY_STATE_SIZE := 76

  datatype SeatEntry = SeatEntry(flags: Byte, wins: Byte, name: NameArray)

  type SeatArray = s: seq<SeatEntry> | |s| == 4 witness seq(4, _ => SeatEntry(0, 0, seq(PLAYER_NAME_MAX, _ => 0)))

  datatype MsgLobbyState = MsgLobbyState(phase: Byte, secondsRemaining: Byte, reserved: U16, seats: SeatArray)

  function SeatByte(e: SeatEntry, i: nat): Byte
    requires i < LOBBY_SEAT_SIZE
  {
    if i == 0 then e.flags else if i == 1 then e.wins else NameByte(e.name, i - 2)
  }

  function LobbyStateByte(m: MsgLobbyState, k: nat): Byte
    requires k < LOBBY_STATE_SIZE
  {
    if k == 0 then m.phase
    else if k == 1 then m.secondsRemaining
    else if k < 4 then 0
    else SeatByte(m.seats[(k - 4) / LOBBY_SEAT_SIZE], (k - 4) % LOBBY_SEAT_SIZE)
  }

  function LobbyStateBytes(m: MsgLobbyState): seq<Byte> {
    seq(LOBBY_STATE_SIZE, k requires 0 <= k < LOBBY_STATE_SIZE => LobbyStateByte(m, k))
  }

  /** Known bits only, and nobody ready in an empty seat. */
  predicate SeatFlagsOk(flags: Byte) {
    flags == 0 || flags == 1 || flags == 3
  }

  /** A received name field: terminated, and zero behind the terminator. */
  function CleanName(b: seq<Byte>, at: nat): NameArray
    requires at + PLAYER_NAME_MAX <= |b|
  {
    var name := Terminated(b, at);
    seq(PLAYER_NAME_MAX, i requires 0 <= i < PLAYER_NAME_MAX => NameByte(name, i))
  }

  function CleanSeat(b: seq<Byte>, at: nat): SeatEntry
    requires at + LOBBY_SEAT_SIZE <= |b|
  {
    if b[at] == 0 then SeatEntry(0, 0, ZeroName()) else SeatEntry(b[at], b[at + 1], CleanName(b, at + 2))
  }

  /** The flags of seat i are admissible. */
  predicate FlagsOkAt(b: seq<Byte>, i: nat)
    requires |b| >= LOBBY_STATE_SIZE && i < 4
  {
    SeatFlagsOk(b[4 + LOBBY_SEAT_SIZE * i])
  }

  /** What the receiver makes of a payload. */
  ghost function DecodedLobby(b: seq<Byte>): Option<MsgLobbyState> {
    if |b| < LOBBY_STATE_SIZE || b[0] > 1 || ReadU16LE(b, 2) != 0 || (b[0] == 1 && b[1] == 0) then None
    else if exists i :: 0 <= i < 4 && !FlagsOkAt(b, i) then None
    else Some(MsgLobbyState(b[0], if b[0] == 1 then b[1] else 0, 0, CleanSeats(b)))
  }

  function CleanSeats(b: seq<Byte>): SeatArray
    requires |b| >= LOBBY_STATE_SIZE
  {
    seq(4, i requires 0 <= i < 4 => CleanSeat(b, 4 + LOBBY_SEAT_SIZE * i))
  }

  /** The receiver, seat by seat. */
  method DeserializeMsgLobbyState(b: seq<Byte>) returns (r: Option<MsgLobbyState>)
    ensures r == DecodedLobby(b)
  {
    hide CleanSeat;
    if |b| < LOBBY_STATE_SIZE || b[0] > 1 {
      return None;
    }
    var reserved := ReadU16LE(b, 2);
    if reserved != 0 {
      return None;
    }
    var seconds := b[1];
    if b[0] == 1 {
      if seconds == 0 {
        return None;
      }
    } else {
      seconds := 0;
    }
    var seats: seq<SeatEntry> := [];
    for i := 0 to 4
      invariant |seats| == i && forall j | 0 <= j < i :: FlagsOkAt(b, j) && seats[j] == CleanSeat(b, 4 + LOBBY_SEAT_SIZE * j)
    {
      var flags := b[4 + LOBBY_SEAT_SIZE * i];
      assert FlagsOkAt(b, i) <==> flags <= 3 && !(flags >= 2 && flags % 2 == 0);
      if flags > 3 {
        return None;
      }
      if flags >= 2 && flags % 2 == 0 {
        return None;
      }
      seats := seats + [CleanSeat(b, 4 + LOBBY_SEAT_SIZE * i)];
    }
    assert seats == CleanSeats(b);
    r := Some(MsgLobbyState(b[0], seconds, 0, seats));
  }

  predicate SeatOk(e: SeatEntry) {
    && SeatFlagsOk(e.flags) && Padded(e.name)
    && (e.flags == 0 ==> e.wins == 0 && e.name == ZeroName())
  }

  predicate LobbyStateOk(m: MsgLobbyState) {
    && m.reserved == 0 && m.phase <= 1 && (m.phase == 1 <==> m.secondsRemaining != 0)
    && forall i | 0 <= i < 4 :: SeatOk(m.seats[i])
  }

  lemma SeatBytesAt(m: MsgLobbyState, i: nat, j: nat)
    requires i < 4 && j < LOBBY_SEAT_SIZE
    ensures |LobbyStateBytes(m)| == LOBBY_STATE_SIZE
    ensures LobbyStateBytes(m)[4 + LOBBY_SEAT_SIZE * i + j] == SeatByte(m.seats[i], j)
  {
    hide SeatByte;
    var k := 4 + LOBBY_SEAT_SIZE * i + j;
    assert (k - 4) / LOBBY_SEAT_SIZE == i && (k - 4) % LOBBY_SEAT_SIZE == j;
  }

  lemma CleanOfNameBytes(b: seq<Byte>, at: nat, name: NameArray)
    requires at + PLAYER_NAME_MAX <= |b| && forall i | 0 <= i < PLAYER_NAME_MAX :: b[at + i] == NameByte(name, i)
    ensures CleanName(b, at) == name <==> Padded(name)
    ensures CleanName(b, at) == seq(PLAYER_NAME_MAX, i requires 0 <= i < PLAYER_NAME_MAX => NameByte(name, i))
  {
    NameReadsBack(b, at, name);
    PaddedIsItsBytes(name);
    var t := Terminated(b, at);
    NameBytesArePadded(name, t);
    PaddedIsItsBytes(t);
  }

  lemma NameBytesArePadded(name: NameArray, t: NameArray)
    requires t == seq(PLAYER_NAME_MAX, i requires 0 <= i < PLAYER_NAME_MAX => NameByte(name, i))
    ensures Padded(t)
  {
    StrLenIs(t, PLAYER_NAME_MAX - 1, BoundedStrLen(name, PLAYER_NAME_MAX - 1));
  }

  lemma SeatReadsBack(m: MsgLobbyState, i: nat)
    requires i < 4
    ensures |LobbyStateBytes(m)| == LOBBY_STATE_SIZE
    ensures LobbyStateBytes(m)[4 + LOBBY_SEAT_SIZE * i] == m.seats[i].flags
    ensures SeatFlagsOk(m.seats[i].flags) ==>
      (CleanSeat(LobbyStateBytes(m), 4 + LOBBY_SEAT_SIZE * i) == m.seats[i] <==> SeatOk(m.seats[i]))
  {
    var b, at, e := LobbyStateBytes(m), 4 + LOBBY_SEAT_SIZE * i, m.seats[i];
    SeatBytesAt(m, i, 0);
    SeatBytesAt(m, i, 1);
    forall j | 0 <= j < PLAYER_NAME_MAX ensures b[at + 2 + j] == NameByte(e.name, j) {
      SeatBytesAt(m, i, j + 2);
    }
    hide LobbyStateBytes, NameByte, CleanName, Padded;
    CleanOfNameBytes(b, at + 2, e.name);
    ZeroIsPadded();
  }

  lemma ZeroIsPadded()
    ensures Padded(ZeroName())
  {
    StrLenIs(ZeroName(), PLAYER_NAME_MAX - 1, 0);
  }

  lemma LobbyHead(m: MsgLobbyState)
    ensures var b := LobbyStateBytes(m); |b| == LOBBY_STATE_SIZE && b[0] == m.phase && b[1] == m.secondsRemaining && ReadU16LE(b, 2) == 0
  {
    hide SeatByte;
  }

  /** A lobby state survives the wire unchanged exactly if it is well formed. */
  lemma LobbyStateRoundTrip(m: MsgLobbyState)
    ensures DecodedLobby(LobbyStateBytes(m)) == Some(m) <==> LobbyStateOk(m)
  {
    hide LobbyStateBytes, CleanSeat, SeatOk, ReadU16LE;
    var b := LobbyStateBytes(m);
    LobbyHead(m);
    forall i | 0 <= i < 4
      ensures FlagsOkAt(b, i) <==> SeatFlagsOk(m.seats[i].flags)
      ensures SeatFlagsOk(m.seats[i].flags) ==> (CleanSeat(b, 4 + LOBBY_SEAT_SIZE * i) == m.seats[i] <==> SeatOk(m.seats[i]))
    {
      SeatReadsBack(m, i);
    }
    forall i | 0 <= i < 4 ensures SeatOk(m.seats[i]) ==> SeatFlagsOk(m.seats[i].flags) {
      OkSeatsHaveOkFlags(m.seats[i]);
    }
    if DecodedLobby(b) == Some(m) {
      forall i | 0 <= i < 4 ensures SeatOk(m.seats[i]) {
        assert m.seats[i] == CleanSeats(b)[i];
        assert FlagsOkAt(b, i);
      }
    }
    if LobbyStateOk(m) {
      assert CleanSeats(b) == m.seats;
    }
  }

  lemma OkSeatsHaveOkFlags(e: SeatEntry)
    ensures SeatOk(e) ==> SeatFlagsOk(e.flags)
  {
  }

  // ----- Welcome, Reject, LevelInfo, MatchCancelled -----

  const PROTOCOL_VERSION: U16 := 9
  const WELCOME_SIZE := 5
  const REJECT_SIZE := 3
  const LEVEL_INFO_SIZE := 8
  const MATCH_CANCELLED_SIZE := 4

  datatype MsgWelcome = MsgWelcome(protocolVersion: U16, playerId: Byte, serverTickRate: U16)

  function WelcomeBytes(m: MsgWelcome): seq<Byte> {
    [ByteOf(m.protocolVersion, 0), ByteOf(m.protocolVersion, 1), m.playerId,
     ByteOf(m.serverTickRate, 0), ByteOf(m.serverTickRate, 1)]
  }

  function DecodeWelcome(b: seq<Byte>): Option<MsgWelcome> {
    if |b| < WELCOME_SIZE || b[2] >= MAX_PLAYERS || ReadU16LE(b, 3) == 0 then None
    else Some(MsgWelcome(ReadU16LE(b, 0), b[2], ReadU16LE(b, 3)))
  }

  lemma WelcomeRoundTrip(m: MsgWelcome)
    ensures DecodeWelcome(WelcomeBytes(m)) == Some(m) <==> m.playerId < MAX_PLAYERS && m.serverTickRate != 0
  {
    ReadBackU16(WelcomeBytes(m), 0, m.protocolVersion);
    ReadBackU16(WelcomeBytes(m), 3, m.serverTickRate);
    hide ByteOf, ReadU16LE;
  }

  function ReasonByte(reason: RejectReason): Byte {
    match reason
    case VersionMismatch => 1
    case ServerFull => 2
    case Banned => 3
    case GameInProgress => 4
    case Other => 0xFF
  }

  datatype MsgReject = MsgReject(reason: RejectReason, expectedProtocolVersion: U16)

  function RejectBytes(m: MsgReject): seq<Byte> {
    [ReasonByte(m.reason), ByteOf(m.expectedProtocolVersion, 0), ByteOf(m.expectedProtocolVersion, 1)]
  }

  /** The version is read for a version mismatch only. */
  function DecodeReject(b: seq<Byte>): Option<MsgReject> {
    if |b| < REJECT_SIZE then None
    else if b[0] == 1 then Some(MsgReject(VersionMismatch, ReadU16LE(b, 1)))
    else if b[0] == 2 then Some(MsgReject(ServerFull, 0))
    else if b[0] == 3 then Some(MsgReject(Banned, 0))
    else if b[0] == 4 then Some(MsgReject(GameInProgress, 0))
    else if b[0] == 0xFF then Some(MsgReject(Other, 0))
    else None
  }

  lemma RejectRoundTrip(m: MsgReject)
    ensures DecodeReject(RejectBytes(m)) == Some(m) <==> m.reason == VersionMismatch || m.expectedProtocolVersion == 0
  {
    ReadBackU16(RejectBytes(m), 1, m.expectedProtocolVersion);
  }

  datatype MsgLevelInfo = MsgLevelInfo(matchId: U32, mapSeed: U32)

  function LevelInfoBytes(m: MsgLevelInfo): seq<Byte> {
    seq(LEVEL_INFO_SIZE, k requires 0 <= k < LEVEL_INFO_SIZE => if k < 4 then ByteOf(m.matchId, k) else ByteOf(m.mapSeed, k - 4))
  }

  function DecodeLevelInfo(b: seq<Byte>): Option<MsgLevelInfo> {
    if |b| < LEVEL_INFO_SIZE || ReadU32LE(b, 0) == 0 then None else Some(MsgLevelInfo(ReadU32LE(b, 0), ReadU32LE(b, 4)))
  }

  /** A level info brings over its match and its map seed exactly if the match id is set. */
  lemma LevelInfoRoundTrip(m: MsgLevelInfo)
    ensures DecodeLevelInfo(LevelInfoBytes(m)) == Some(m) <==> m.matchId != 0
  {
    ReadBackU32(LevelInfoBytes(m), 0, m.matchId);
    ReadBackU32(LevelInfoBytes(m), 4, m.mapSeed);
    hide ByteOf, ReadU32LE;
  }

  function MatchCancelledBytes(matchId: U32): seq<Byte> {
    seq(MATCH_CANCELLED_SIZE, k requires 0 <= k < MATCH_CANCELLED_SIZE => ByteOf(matchId, k))
  }

  function DecodeMatchCancelled(b: seq<Byte>): Option<U32> {
    if |b| < MATCH_CANCELLED_SIZE || ReadU32LE(b, 0) == 0 then None else Some(ReadU32LE(b, 0))
  }

  lemma MatchCancelledRoundTrip(matchId: U32)
    ensures DecodeMatchCancelled(MatchCancelledBytes(matchId)) == Some(matchId) <==> matchId != 0
  {
    ReadBackU32(MatchCancelledBytes(matchId), 0, matchId);
  }

  // ----- The server's messages as packets -----

  /** What fits the integer widths of the wire: no counter has wrapped. */
  predicate InWidth(msg: Control) {
    match msg
    case Welcome(id) => id < 256
    case Reject(_) => true
    case LobbyState(_, seconds, seats) => seconds < 256 && |seats| == 4 && forall i | 0 <= i < |seats| && seats[i].Some? :: seats[i].value.wins < 256
    case LevelInfo(m) => m < 0x1_0000_0000
    case MatchStart(m, go, unlock) => m < 0x1_0000_0000 && go < 0x1_0000_0000 && unlock < 0x1_0000_0000
    case MatchCancelled(m) => m < 0x1_0000_0000
    case MatchResult(m, winner, _) => m < 0x1_0000_0000 && (winner.Some? ==> winner.value < 256)
  }

  function SeatOnWire(seat: Option<LobbySeat>): SeatEntry
    requires seat.Some? ==> seat.value.wins < 256
  {
    match seat
    case None => SeatEntry(0, 0, ZeroName())
    case Some(s) => SeatEntry(if s.ready then 3 else 1, s.wins, NameField(s.name))
  }

  function LobbyOnWire(msg: Control): MsgLobbyState
    requires msg.LobbyState? && InWidth(msg)
  {
    MsgLobbyState(if msg.countdown then 1 else 0, msg.secondsRemaining, 0,
      seq(4, i requires 0 <= i < 4 => SeatOnWire(msg.seats[i])))
  }

  function ResultOnWire(msg: Control): MsgMatchResult
    requires msg.MatchResult? && InWidth(msg)
  {
    match msg.winner
    case None => MsgMatchResult(msg.matchId, DRAW, NO_WINNER, ZeroName())
    case Some(id) => MsgMatchResult(msg.matchId, WIN, id, NameField(msg.winnerName))
  }

  /** The type byte of each control message. */
  function KindOf(msg: Control): Byte {
    match msg
    case Welcome(_) => 0x02
    case Reject(_) => 0x03
    case LevelInfo(_) => 0x04
    case LobbyState(_, _, _) => 0x05
    case MatchStart(_, _, _) => 0x08
    case MatchCancelled(_) => 0x09
    case MatchResult(_, _, _) => 0x0A
  }

  /** The payload of a control message; a level info carries the map seed of its round. */
  function Payload(msg: Control, mapSeed: U32): seq<Byte>
    requires InWidth(msg)
  {
    match msg
    case Welcome(id) => WelcomeBytes(MsgWelcome(PROTOCOL_VERSION, id, TICK_RATE))
    case Reject(reason) => RejectBytes(MsgReject(reason, if reason == VersionMismatch then PROTOCOL_VERSION else 0))
    case LevelInfo(m) => LevelInfoBytes(MsgLevelInfo(m, mapSeed))
    case LobbyState(_, _, _) => LobbyStateBytes(LobbyOnWire(msg))
    case MatchStart(m, go, unlock) => MatchStartBytes(MsgMatchStart(m, go, unlock))
    case MatchCancelled(m) => MatchCancelledBytes(m)
    case MatchResult(_, _, _) => MatchResultBytes(ResultOnWire(msg))
  }

  function SeatOffWire(e: SeatEntry): Option<LobbySeat> {
    if e.flags == 0 then None else Some(LobbySeat(VisibleName(e.name), e.flags == 3, e.wins))
  }

  function SeatsOffWire(m: MsgLobbyState): seq<Option<LobbySeat>> {
    seq(4, i requires 0 <= i < 4 => SeatOffWire(m.seats[i]))
  }

  /** The message a client takes from a payload, through the deserializer of its type. */
  ghost function DecodeControl(kind: Byte, b: seq<Byte>): Option<Control> {
    if kind == 0x05 then
      match DecodedLobby(b)
      case None => None
      case Some(m) => Some(LobbyState(m.phase == 1, m.secondsRemaining, SeatsOffWire(m)))
    else DecodeOtherControl(kind, b)
  }

  /** The deserializers of every type but the lobby state. */
  function DecodeOtherControl(kind: Byte, b: seq<Byte>): Option<Control> {
    if kind == 0x02 then
      match DecodeWelcome(b)
      case None => None
      case Some(m) => if m.protocolVersion == PROTOCOL_VERSION then Some(Welcome(m.playerId)) else None
    else if kind == 0x03 then
      match DecodeReject(b)
      case None => None
      case Some(m) => Some(Reject(m.reason))
    else if kind == 0x04 then
      match DecodeLevelInfo(b)
      case None => None
      case Some(m) => Some(LevelInfo(m.matchId))
    else if kind == 0x08 then
      match DecodeMatchStart(b)
      case None => None
      case Some(m) => Some(MatchStart(m.matchId, m.goShowServerTick, m.unlockServerTick))
    else if kind == 0x09 then
      match DecodeMatchCancelled(b)
      case None => None
      case Some(m) => Some(MatchCancelled(m))
    else if kind == 0x0A then
      match DecodeMatchResult(b)
      case None => None
      case Some(m) =>
        if m.result == DRAW then Some(MatchResult(m.matchId, None, []))
        else Some(MatchResult(m.matchId, Some(m.winnerPlayerId), VisibleName(m.winnerName)))
    else None
  }

  /** The packet passes header and payload validation, and the client takes exactly the message that was sent. */
  ghost predicate Arrives(msg: Control, mapSeed: U32)
    requires InWidth(msg)
  {
    var payload := Payload(msg, mapSeed);
    && |payload| < 0x1_0000
    && WireEvents.DecodeHeader(WireEvents.Packet(KindOf(msg), payload)) == Some(KindOf(msg))
    && WireEvents.Packet(KindOf(msg), payload)[WireEvents.HEADER_SIZE..] == payload
    && DecodeControl(KindOf(msg), payload) == Some(msg)
    && (msg.LevelInfo? ==> DecodeLevelInfo(payload) == Some(MsgLevelInfo(msg.matchId, mapSeed)))
  }

  lemma SeatsOnWireAreOk(seat: Option<LobbySeat>)
    requires seat.Some? ==> seat.value.wins < 256
    ensures SeatOk(SeatOnWire(seat)) && SeatOffWire(SeatOnWire(seat)) == seat
  {
    ZeroIsPadded();
    if seat.Some? {
      FieldsArePadded(seat.value.name);
      NamesComeBack(seat.value.name);
      hide NameField, VisibleName, Padded;
    }
  }

  lemma LobbyArrives(msg: Control)
    requires msg.LobbyState? && Decodes(msg) && InWidth(msg)
    ensures DecodedLobby(LobbyStateBytes(LobbyOnWire(msg))) == Some(LobbyOnWire(msg))
    ensures SeatsOffWire(LobbyOnWire(msg)) == msg.seats
  {
    hide SeatOk, SeatOnWire, SeatOffWire;
    forall i | 0 <= i < 4 ensures SeatOk(SeatOnWire(msg.seats[i])) && SeatOffWire(SeatOnWire(msg.seats[i])) == msg.seats[i] {
      SeatsOnWireAreOk(msg.seats[i]);
    }
    LobbyStateRoundTrip(LobbyOnWire(msg));
  }

  lemma ResultArrives(msg: Control)
    requires msg.MatchResult? && Decodes(msg) && InWidth(msg)
    ensures DecodeMatchResult(MatchResultBytes(ResultOnWire(msg))) == Some(ResultOnWire(msg))
    ensures msg.winner.Some? ==> VisibleName(ResultOnWire(msg).winnerName) == msg.winnerName
  {
    if msg.winner.Some? {
      FieldsArePadded(msg.winnerName);
      NamesComeBack(msg.winnerName);
    }
    hide Padded, BoundedStrLen, NameField, VisibleName;
    MatchResultRoundTrip(ResultOnWire(msg));
  }

  lemma DecodesOnArrival(msg: Control, mapSeed: U32)
    requires Decodes(msg) && InWidth(msg)
    ensures DecodeControl(KindOf(msg), Payload(msg, mapSeed)) == Some(msg)
  {
    hide WelcomeBytes, DecodeWelcome, RejectBytes, DecodeReject, LevelInfoBytes, DecodeLevelInfo, LobbyStateBytes, DecodedLobby,
         MatchStartBytes, DecodeMatchStart, MatchCancelledBytes, DecodeMatchCancelled, MatchResultBytes, DecodeMatchResult,
         NameField, VisibleName, SeatsOffWire, SeatOnWire;
    match msg
    case Welcome(id) => WelcomeRoundTrip(MsgWelcome(PROTOCOL_VERSION, id, TICK_RATE));
    case Reject(reason) => RejectRoundTrip(MsgReject(reason, if reason == VersionMismatch then PROTOCOL_VERSION else 0));
    case LevelInfo(m) => LevelInfoRoundTrip(MsgLevelInfo(m, mapSeed));
    case LobbyState(_, _, _) => LobbyArrives(msg);
    case MatchStart(m, go, unlock) => MatchStartRoundTrip(MsgMatchStart(m, go, unlock));
    case MatchCancelled(m) => MatchCancelledRoundTrip(m);
    case MatchResult(_, _, _) => ResultArrives(msg);
  }

  lemma PayloadHasItsSize(msg: Control, mapSeed: U32)
    requires InWidth(msg)
    ensures |Payload(msg, mapSeed)| == WireEvents.ExpectedPayloadSize(KindOf(msg)) && 0 < |Payload(msg, mapSeed)| < 0x1_0000
  {
    hide ByteOf, MatchStartByte, LobbyStateByte, MatchResultByte;
  }

  lemma DecodableArrives(msg: Control, mapSeed: U32)
    requires Decodes(msg) && InWidth(msg)
    ensures Arrives(msg, mapSeed)
  {
    hide DecodeControl, WireEvents.DecodeHeader, WireEvents.Packet, WireEvents.ExpectedPayloadSize;
    DecodesOnArrival(msg, mapSeed);
    PayloadHasItsSize(msg, mapSeed);
    WireEvents.HeaderRoundTrip(KindOf(msg), Payload(msg, mapSeed));
    if msg.LevelInfo? {
      LevelInfoRoundTrip(MsgLevelInfo(msg.matchId, mapSeed));
      hide LevelInfoBytes, DecodeLevelInfo;
    }
  }

  /**
   * Every control message the server queues to any peer, in any run, passes the client's header check and its
   * type's deserializer, and what the client takes from it is the message that was sent, names included.
   */
  lemma EveryControlMessageArrives(events: seq<F.Event>, lost: F.Losses, p: nat, i: nat, mapSeed: U32)
    requires p < F.PEER_CAPACITY && |F.Run(events, lost).links| == F.PEER_CAPACITY
    requires i < |F.Run(events, lost).links[p].sent| && InWidth(F.Run(events, lost).links[p].sent[i])
    ensures Decodes(F.Run(events, lost).links[p].sent[i]) && Arrives(F.Run(events, lost).links[p].sent[i], mapSeed)
  {
    hide F.Run, FlowInv.Inv, FlowLinks.AllInStep, InWidth, Arrives, View, Decodes;
    var s := F.Run(events, lost);
    FlowInv.EveryRunHolds(events, lost);
    FlowInv.InvSizes(s);
    FlowLinks.EveryClientIsInStep(events, lost);
    assert FlowLinks.LinkOk(s.sessions[p], s.links[p].sent, s.nextMatchId);
    DecodableArrives(s.links[p].sent[i], mapSeed);
  }
}
