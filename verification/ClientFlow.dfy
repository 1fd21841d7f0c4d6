/**
 * The control channel as the client sees it (Net/Client/NetClient.Runtime.cpp, Net/Client/NetClient.Protocol.cpp,
 * Net/Client/NetClientInternal.h).
 */
module ClientFlow {
  import opened Wrappers

  /** A player name as it comes out of a Hello: the bytes before the terminator, fifteen at most and none zero. */
  type NameChar = b: int | 1 <= b < 256 witness 1
  type Name = name: seq<NameChar> | |name| < 16

  datatype RejectReason = VersionMismatch | ServerFull | Banned | GameInProgress | Other

  datatype LobbySeat = LobbySeat(name: Name, ready: bool, wins: nat)

  /** The reliable control messages of the server. */
  datatype Control =
    | Welcome(playerId: nat)
    | Reject(reason: RejectReason)
    | LobbyState(countdown: bool, secondsRemaining: nat, seats: seq<Option<LobbySeat>>)
    | LevelInfo(matchId: nat)
    | MatchStart(matchId: nat, goShowServerTick: nat, unlockServerTick: nat)
    | MatchCancelled(matchId: nat)
    | MatchResult(matchId: nat, winner: Option<nat>, winnerName: Name)

  /** What the client's deserializers take over exactly as it was sent. */
  predicate Decodes(msg: Control) {
    match msg
    case Welcome(id) => id < 4
    case Reject(_) => true
    case LobbyState(countdown, seconds, seats) => |seats| == 4 && (countdown <==> seconds > 0)
    case LevelInfo(m) => m != 0
    case MatchStart(m, go, unlock) => m != 0 && go != 0 && unlock != 0 && go <= unlock
    case MatchCancelled(m) => m != 0
    case MatchResult(m, winner, name) => m != 0 && (if winner.Some? then winner.value < 4 && name != [] else name == [])
  }

  datatype Status = Handshaking | Connected | Failed

  /** The session and match-flow state of one client. */
  datatype Client = Client(
    status: Status,
    playerId: Option<nat>,
    levelInfo: Option<nat>,
    matchStart: Option<Control>,
    cancelledMatchId: Option<nat>,
    matchResult: Option<Control>,
    lobbyState: Option<Control>)

  /** A client that has just sent its Hello. */
  const FRESH_CLIENT := Client(Handshaking, None, None, None, None, None, None)

  predicate IsActiveMatch(c: Client, matchId: nat) {
    c.levelInfo == Some(matchId)
  }

  predicate IsHandshakeControlMessage(msg: Control) {
    msg.Welcome? || msg.Reject?
  }

  function ResetRuntimeState(c: Client): Client {
    c.(matchStart := None, cancelledMatchId := None, matchResult := None)
  }

  function BeginBootstrap(c: Client, matchId: nat): Client {
    ResetRuntimeState(c).(levelInfo := Some(matchId))
  }

  /** Leaves the current match, if there is one. */
  function ResetCurrentMatchSession(c: Client): Client {
    if c.levelInfo.None? then c else ResetRuntimeState(c).(levelInfo := None)
  }

  /** One control message is handled. */
  function Receive(c: Client, msg: Control): Client {
    if c.status.Failed? then c
    else if c.status.Handshaking? then
      match msg
      case Welcome(id) => if Decodes(msg) then c.(status := Connected, playerId := Some(id)) else c.(status := Failed)
      case _ => c.(status := Failed)
    else if !Decodes(msg) then c
    else
      match msg
      case Welcome(_) => c
      case Reject(_) => c
      case LevelInfo(m) =>
        if c.levelInfo.Some? && m <= c.levelInfo.value then c else BeginBootstrap(c, m).(lobbyState := None)
      case LobbyState(_, _, _) => ResetCurrentMatchSession(c).(lobbyState := Some(msg))
      case MatchStart(m, _, _) =>
        if c.matchStart.Some? && c.matchStart.value.MatchStart? && m <= c.matchStart.value.matchId then c
        else if !IsActiveMatch(c, m) then c
        else c.(matchStart := Some(msg))
      case MatchCancelled(m) =>
        if c.cancelledMatchId.Some? && m <= c.cancelledMatchId.value then c
        else (if IsActiveMatch(c, m) then ResetCurrentMatchSession(c) else c).(cancelledMatchId := Some(m))
      case MatchResult(m, _, _) =>
        if !IsActiveMatch(c, m) then c
        else if c.matchResult.Some? && c.matchResult.value.MatchResult? && m <= c.matchResult.value.matchId then c
        else c.(matchResult := Some(msg))
  }

  /** The client after a whole queue, delivered in order. */
  function View(sent: seq<Control>): Client {
    if sent == [] then FRESH_CLIENT else Receive(View(sent[..|sent| - 1]), sent[|sent| - 1])
  }

  lemma ViewOfOneMore(sent: seq<Control>, msg: Control)
    ensures View(sent + [msg]) == Receive(View(sent), msg)
  {
    assert (sent + [msg])[..|sent|] == sent;
  }

  // ----- A cancelled match stays reported -----

  function After(c: Client, msgs: seq<Control>): Client {
    if msgs == [] then c else Receive(After(c, msgs[..|msgs| - 1]), msgs[|msgs| - 1])
  }

  /** Cancelling the active match takes the client out of it and is reported. */
  lemma CancelIsReported(c: Client, m: nat)
    requires c.status.Connected? && m != 0 && IsActiveMatch(c, m) && c.cancelledMatchId.None?
    ensures Receive(c, MatchCancelled(m)).cancelledMatchId == Some(m) && Receive(c, MatchCancelled(m)).levelInfo.None?
    ensures Receive(c, MatchCancelled(m)).status.Connected?
  {
  }

  /** The report survives every lobby state and everything else, and the next level info is what ends it. */
  lemma {:induction false} CancelStaysReported(c: Client, m: nat, msgs: seq<Control>)
    requires c.status.Connected? && c.cancelledMatchId == Some(m) && c.levelInfo.None?
    requires forall i | 0 <= i < |msgs| :: !msgs[i].LevelInfo? && (msgs[i].MatchCancelled? ==> msgs[i].matchId <= m)
    ensures After(c, msgs).cancelledMatchId == Some(m) && After(c, msgs).levelInfo.None?
    ensures After(c, msgs).status.Connected?
    ensures forall next: nat | next != 0 :: Receive(After(c, msgs), LevelInfo(next)).cancelledMatchId.None?
    decreases |msgs|
  {
    if msgs != [] {
      CancelStaysReported(c, m, msgs[..|msgs| - 1]);
    }
  }
}
