/**
 * The receiving client at the level of packets: whatever bytes arrive on whatever channel, and the caches of the
 * current match they fill (Net/Client/NetClient.Runtime.cpp, Net/Client/NetClient.Protocol.cpp).
 */
module ClientPackets {
  import opened Wrappers
  import opened Movement
  import opened Bytes
  import opened ClientFlow
  import opened WireControl
  import Input
  import H = WireEvents
  import S = WireSnapshot
  import E = WireExplosion
  import F = Flow
  import FlowInv
  import FlowLinks

  const CONTROL_RELIABLE: Byte := 0
  const MAX_PENDING_GAMEPLAY_EVENTS := 128

  const SNAPSHOT: Byte := 0x11
  const CORRECTION: Byte := 0x12
  const BOMB_PLACED: Byte := 0x13
  const EXPLOSION_RESOLVED: Byte := 0x14

  function ExpectedChannelFor(kind: Byte): Byte {
    match kind
    case 0x10 => 2
    case 0x11 => 3
    case 0x12 => 4
    case 0x13 => 1
    case 0x14 => 1
    case _ => CONTROL_RELIABLE
  }

  predicate IsHandshake(kind: Byte) {
    kind == 0x02 || kind == 0x03
  }

  datatype GameplayEvent =
    | Placed(bomb: H.MsgBombPlaced)
    | Exploded(explosion: E.MsgExplosionResolved)
  {
    function MatchId(): nat {
      match this
      case Placed(bomb) => bomb.matchId
      case Exploded(explosion) => explosion.matchId
    }
  }

  /** Session and match flow, and what the client holds of the current match; `inputs` is its input stream so far. */
  datatype Session = Session(
    flow: Client,
    mapSeed: U32,
    levelInfoPending: bool,
    brokenGameplayEventStream: bool,
    snapshot: Option<S.MsgSnapshot>,
    correction: Option<H.MsgCorrection>,
    pendingGameplayEvents: seq<GameplayEvent>,
    inputs: seq<Byte>)

  /** Nothing of any match. */
  function Emptied(flow: Client): Session {
    Session(flow, 0, false, false, None, None, [], [])
  }

  const FAILED_CLIENT := FRESH_CLIENT.(status := Failed)

  // ----- One packet -----

  function Enqueued(c: Session, e: GameplayEvent): Session {
    if !IsActiveMatch(c.flow, e.MatchId()) || c.brokenGameplayEventStream then c
    else if |c.pendingGameplayEvents| >= MAX_PENDING_GAMEPLAY_EVENTS
    then c.(brokenGameplayEventStream := true, pendingGameplayEvents := [])
    else c.(pendingGameplayEvents := c.pendingGameplayEvents + [e])
  }

  /** A snapshot is taken if it is of the active match and newer than the one held. */
  function WithSnapshot(c: Session, m: S.MsgSnapshot): Session {
    if !IsActiveMatch(c.flow, m.matchId) || (c.snapshot.Some? && m.serverTick <= c.snapshot.value.serverTick) then c
    else c.(snapshot := Some(m))
  }

  function WithCorrection(c: Session, m: H.MsgCorrection): Session {
    if !IsActiveMatch(c.flow, m.matchId) || (c.correction.Some? && m.serverTick <= c.correction.value.serverTick) then c
    else c.(correction := Some(m))
  }

  /** A control message of a connected client: a new match, or the end of one, empties the caches and the input stream. */
  function WithControl(c: Session, msg: Control, mapSeed: U32): Session {
    var flow := Receive(c.flow, msg);
    if flow.levelInfo == c.flow.levelInfo then c.(flow := flow)
    else if flow.levelInfo.Some? then Emptied(flow).(mapSeed := mapSeed, levelInfoPending := true)
    else Emptied(flow)
  }

  function SeedIn(kind: Byte, payload: seq<Byte>): U32 {
    if kind == 0x04 && DecodeLevelInfo(payload).Some? then DecodeLevelInfo(payload).value.mapSeed else 0
  }

  ghost function Dispatched(c: Session, kind: Byte, payload: seq<Byte>): Session {
    if kind == SNAPSHOT then
      match S.Decoded(payload)
      case None => c
      case Some(m) => WithSnapshot(c, m)
    else if kind == CORRECTION then
      match H.DecodeCorrection(payload)
      case None => c
      case Some(m) => WithCorrection(c, m)
    else if kind == BOMB_PLACED then
      match H.DecodeBombPlaced(payload)
      case None => c
      case Some(m) => Enqueued(c, Placed(m))
    else if kind == EXPLOSION_RESOLVED then
      match E.Decoded(payload)
      case None => c
      case Some(m) => Enqueued(c, Exploded(m))
    else
      match DecodeControl(kind, payload)
      case None => c
      case Some(msg) => WithControl(c, msg, SeedIn(kind, payload))
  }

  /** A control packet during the handshake: a valid welcome connects, everything else ends the attempt. */
  ghost function Handshake(c: Session, kind: Byte, payload: seq<Byte>): Session {
    match DecodeControl(kind, payload)
    case None => Emptied(FAILED_CLIENT)
    case Some(msg) =>
      if msg.Welcome? then c.(flow := c.flow.(status := Connected, playerId := Some(msg.playerId))) else Emptied(FAILED_CLIENT)
  }

  /** One packet arrives. */
  ghost function Arrive(c: Session, data: seq<Byte>, channel: Byte): Session {
    if c.flow.status.Failed? then c
    else
      var shaking := c.flow.status.Handshaking?;
      match H.DecodeHeader(data)
      case None => if shaking then Emptied(FAILED_CLIENT) else c
      case Some(kind) =>
        if channel != ExpectedChannelFor(kind) then if shaking && IsHandshake(kind) then Emptied(FAILED_CLIENT) else c
        else if !shaking then Dispatched(c, kind, data[H.HEADER_SIZE..])
        else if channel != CONTROL_RELIABLE then c
        else Handshake(c, kind, data[H.HEADER_SIZE..])
  }

  /** The deserializers let through what the match flow takes over as sent, and nothing else. */
  lemma DecodedDecodes(kind: Byte, b: seq<Byte>)
    ensures DecodeControl(kind, b).Some? ==> Decodes(DecodeControl(kind, b).value)
    ensures DecodeControl(kind, b).Some? && IsHandshake(kind) ==> DecodeControl(kind, b).value.Welcome? || DecodeControl(kind, b).value.Reject?
    ensures DecodeControl(kind, b).Some? && DecodeControl(kind, b).value.Welcome? ==> IsHandshake(kind)
  {
    hide CleanSeats, Terminated, ReadU32LE, ReadU16LE, SeatOffWire;
  }

  // ----- Runs -----

  /** What a client goes through: packets, and its own game loop pressing buttons and taking what was received. */
  datatype ClientEvent =
    | Packet(data: seq<Byte>, channel: Byte)
    | Press(buttons: Byte)
    | TakeLevelInfo
    | TakeEvent

  ghost function Next(c: Session, e: ClientEvent): Session {
    match e
    case Packet(data, channel) => Arrive(c, data, channel)
    case Press(buttons) => if c.flow.status.Connected? then c.(inputs := c.inputs + [buttons]) else c
    case TakeLevelInfo => if c.flow.status.Connected? then c.(levelInfoPending := false) else c
    case TakeEvent => if MayTake(c) then c.(pendingGameplayEvents := c.pendingGameplayEvents[1..]) else c
  }

  predicate MayTake(c: Session) {
    c.flow.status.Connected? && !c.brokenGameplayEventStream && c.pendingGameplayEvents != []
  }

  ghost function Lived(es: seq<ClientEvent>): Session {
    if es == [] then Emptied(FRESH_CLIENT) else Next(Lived(es[..|es| - 1]), es[|es| - 1])
  }

  // ----- Everything held is of the active match -----

  ghost predicate FlowOk(c: Client) {
    && (c.levelInfo.None? ==> c.matchStart.None? && c.matchResult.None?)
    && (c.matchStart.Some? ==> c.matchStart.value.MatchStart? && IsActiveMatch(c, c.matchStart.value.matchId))
    && (c.matchResult.Some? ==> c.matchResult.value.MatchResult? && IsActiveMatch(c, c.matchResult.value.matchId))
  }

  ghost predicate SessionInv(c: Session) {
    && FlowOk(c.flow)
    && (c.flow.status.Handshaking? ==> c == Emptied(FRESH_CLIENT))
    && (c.flow.status.Failed? ==> c == Emptied(FAILED_CLIENT))
    && (c.flow.levelInfo.None? ==> c == Emptied(c.flow).(inputs := c.inputs))
    && (c.snapshot.Some? ==> IsActiveMatch(c.flow, c.snapshot.value.matchId))
    && (c.correction.Some? ==> IsActiveMatch(c.flow, c.correction.value.matchId))
    && (forall i | 0 <= i < |c.pendingGameplayEvents| :: IsActiveMatch(c.flow, c.pendingGameplayEvents[i].MatchId()))
    && |c.pendingGameplayEvents| <= MAX_PENDING_GAMEPLAY_EVENTS
    && (c.brokenGameplayEventStream ==> c.pendingGameplayEvents == [])
  }

  lemma ControlKeepsInv(c: Session, msg: Control, mapSeed: U32)
    requires SessionInv(c) && c.flow.status.Connected? && Decodes(msg)
    ensures SessionInv(WithControl(c, msg, mapSeed)) && WithControl(c, msg, mapSeed).flow == Receive(c.flow, msg)
    ensures Receive(c.flow, msg).status.Connected?
  {
    ReceivingKeepsFlow(c.flow, msg);
    hide Receive, FlowOk;
  }

  lemma ReceivingKeepsFlow(c: Client, msg: Control)
    requires FlowOk(c) && c.status.Connected? && Decodes(msg)
    ensures FlowOk(Receive(c, msg)) && Receive(c, msg).status.Connected?
  {
  }

  lemma HeaderIsLong(data: seq<Byte>)
    ensures H.DecodeHeader(data).Some? ==> |data| >= H.HEADER_SIZE
  {
  }

  lemma ArrivalKeepsInv(c: Session, data: seq<Byte>, channel: Byte)
    requires SessionInv(c)
    ensures SessionInv(Arrive(c, data, channel))
  {
    hide SessionInv, WithControl, S.Decoded, E.Decoded, DecodeControl, H.DecodeHeader, H.DecodeCorrection, H.DecodeBombPlaced,
         WithSnapshot, WithCorrection, Enqueued, Emptied, Decodes;
    EndsKeepInv(c);
    HeaderIsLong(data);
    if H.DecodeHeader(data).Some? {
      var kind, payload := H.DecodeHeader(data).value, data[H.HEADER_SIZE..];
      DecodedDecodes(kind, payload);
      if c.flow.status.Connected? {
        if DecodeControl(kind, payload).Some? {
          ControlKeepsInv(c, DecodeControl(kind, payload).value, SeedIn(kind, payload));
        }
        CachesKeepInv(c);
      } else if c.flow.status.Handshaking? && DecodeControl(kind, payload).Some? && DecodeControl(kind, payload).value.Welcome? {
        WelcomeKeepsInv(c, DecodeControl(kind, payload).value);
      }
    }
  }

  lemma EndsKeepInv(c: Session)
    ensures SessionInv(Emptied(FAILED_CLIENT))
  {
  }

  lemma WelcomeKeepsInv(c: Session, msg: Control)
    requires SessionInv(c) && c.flow.status.Handshaking? && msg.Welcome?
    ensures SessionInv(c.(flow := c.flow.(status := Connected, playerId := Some(msg.playerId))))
  {
  }

  lemma CachesKeepInv(c: Session)
    requires SessionInv(c) && c.flow.status.Connected?
    ensures forall m :: SessionInv(WithSnapshot(c, m))
    ensures forall m :: SessionInv(WithCorrection(c, m))
    ensures forall e :: SessionInv(Enqueued(c, e))
  {
  }

  lemma OwnStepKeepsInv(c: Session, e: ClientEvent)
    requires SessionInv(c) && !e.Packet?
    ensures SessionInv(Next(c, e))
  {
    if e.TakeEvent? && MayTake(c) {
      forall i | 0 <= i < |c.pendingGameplayEvents[1..]| ensures IsActiveMatch(c.flow, c.pendingGameplayEvents[1..][i].MatchId()) {
        assert c.pendingGameplayEvents[1..][i] == c.pendingGameplayEvents[i + 1];
      }
    }
  }

  /**
   * Whatever bytes arrive on whatever channels, everything a client holds belongs to its active match: snapshot,
   * correction, start, result and queued events alike; outside a match, and outside a session, it holds nothing.
   */
  lemma {:induction false} EveryPacketRunHolds(es: seq<ClientEvent>)
    ensures SessionInv(Lived(es))
    decreases |es|
  {
    hide SessionInv, Arrive;
    if es == [] {
      FreshHolds();
    } else {
      var n := |es| - 1;
      EveryPacketRunHolds(es[..n]);
      if es[n].Packet? {
        ArrivalKeepsInv(Lived(es[..n]), es[n].data, es[n].channel);
      } else {
        OwnStepKeepsInv(Lived(es[..n]), es[n]);
      }
    }
  }

  lemma FreshHolds()
    ensures SessionInv(Emptied(FRESH_CLIENT))
  {
  }

  // ----- The flow is what the control queue makes it -----

  /** A control message of the server, as sent on its channel, is received as the match flow receives it. */
  lemma ControlPacketIsReceived(c: Session, msg: Control, mapSeed: U32)
    requires SessionInv(c) && Decodes(msg) && InWidth(msg)
    ensures |Payload(msg, mapSeed)| < 0x1_0000
    ensures Arrive(c, H.Packet(KindOf(msg), Payload(msg, mapSeed)), CONTROL_RELIABLE).flow == Receive(c.flow, msg)
  {
    hide DecodeControl, H.DecodeHeader, H.Packet, Payload, S.Decoded, E.Decoded, WithControl, InWidth;
    DecodableArrives(msg, mapSeed);
    hide Decodes;
    assert ExpectedChannelFor(KindOf(msg)) == CONTROL_RELIABLE;
    assert IsHandshake(KindOf(msg)) <==> msg.Welcome? || msg.Reject?;
    if c.flow.status.Connected? {
      ControlKeepsInv(c, msg, SeedIn(KindOf(msg), Payload(msg, mapSeed)));
    } else {
      hide SessionInv;
      ShakingReceives(c, msg);
    }
  }

  lemma ShakingReceives(c: Session, msg: Control)
    requires SessionInv(c) && !c.flow.status.Connected? && Decodes(msg)
    ensures c.flow.status.Handshaking? ==>
      Receive(c.flow, msg) == if msg.Welcome? then c.flow.(status := Connected, playerId := Some(msg.playerId)) else FAILED_CLIENT
    ensures c.flow.status.Failed? ==> Receive(c.flow, msg) == c.flow
    ensures Emptied(FAILED_CLIENT).flow == FAILED_CLIENT
  {
  }

  /** Gameplay packets on their own channels never touch session or match flow. */
  lemma OtherChannelsLeaveTheFlow(c: Session, data: seq<Byte>, channel: Byte)
    requires H.DecodeHeader(data).Some? && channel == ExpectedChannelFor(H.DecodeHeader(data).value) != CONTROL_RELIABLE
    ensures Arrive(c, data, channel).flow == c.flow
  {
    hide S.Decoded, E.Decoded, H.DecodeCorrection, H.DecodeBombPlaced, H.DecodeHeader, DecodeControl;
    HeaderIsLong(data);
    var kind := H.DecodeHeader(data).value;
    NoControlElsewhere(kind, data[H.HEADER_SIZE..]);
  }

  lemma NoControlElsewhere(kind: Byte, payload: seq<Byte>)
    requires ExpectedChannelFor(kind) != CONTROL_RELIABLE
    ensures DecodeControl(kind, payload).None?
  {
  }

  /** The packets of a run: a control queue in its order, mixed with any gameplay packets and own steps. */
  ghost predicate Delivers(es: seq<ClientEvent>, sent: seq<Control>, seeds: seq<U32>)
    requires |seeds| == |sent| && forall i | 0 <= i < |sent| :: InWidth(sent[i])
    decreases |es|
  {
    if es == [] then sent == []
    else
      var n, k := |es| - 1, |sent| - 1;
      match es[n]
      case Packet(data, channel) =>
        if channel == CONTROL_RELIABLE then
          && k >= 0 && |Payload(sent[k], seeds[k])| < 0x1_0000
          && data == H.Packet(KindOf(sent[k]), Payload(sent[k], seeds[k]))
          && Delivers(es[..n], sent[..k], seeds[..k])
        else
          && H.DecodeHeader(data).Some? && ExpectedChannelFor(H.DecodeHeader(data).value) == channel
          && Delivers(es[..n], sent, seeds)
      case _ => Delivers(es[..n], sent, seeds)
  }

  lemma {:induction false} FlowIsTheView(es: seq<ClientEvent>, sent: seq<Control>, seeds: seq<U32>)
    requires |seeds| == |sent| && forall i | 0 <= i < |sent| :: InWidth(sent[i]) && Decodes(sent[i])
    requires Delivers(es, sent, seeds)
    ensures Lived(es).flow == View(sent)
    decreases |es|
  {
    hide InWidth, Decodes, Arrive, Receive, SessionInv, H.Packet, Payload, H.DecodeHeader, ExpectedChannelFor;
    if es != [] {
      var n, k := |es| - 1, |sent| - 1;
      if es[n].Packet? && es[n].channel == CONTROL_RELIABLE {
        FlowIsTheView(es[..n], sent[..k], seeds[..k]);
        EveryPacketRunHolds(es[..n]);
        ControlPacketIsReceived(Lived(es[..n]), sent[k], seeds[k]);
      } else {
        FlowIsTheView(es[..n], sent, seeds);
        if es[n].Packet? {
          OtherChannelsLeaveTheFlow(Lived(es[..n]), es[n].data, es[n].channel);
        }
      }
    }
  }

  /**
   * From the server's queue to the client's state, through the bytes: once the control queue of peer p has been
   * delivered, and whatever gameplay packets were mixed into it, an accepted client is connected under its own id
   * and in step with the server, unless the server had rejected it before.
   */
  lemma ClientIsInStepOverTheWire(events: seq<F.Event>, lost: F.Losses, p: nat, es: seq<ClientEvent>, seeds: seq<U32>)
    requires p < F.PEER_CAPACITY && |F.Run(events, lost).links| == F.PEER_CAPACITY
    requires var sent := F.Run(events, lost).links[p].sent;
      |seeds| == |sent| && (forall i | 0 <= i < |sent| :: InWidth(sent[i])) && Delivers(es, sent, seeds)
    ensures var s := F.Run(events, lost);
      var c := Lived(es).flow;
      && c == View(s.links[p].sent) && |s.sessions| == F.PEER_CAPACITY
      && (F.Accepted(s.sessions[p]) ==>
            || (c.status.Failed? && s.links[p].sent != [] && s.links[p].sent[0].Reject?)
            || (c.status.Connected? && c.playerId == s.sessions[p].value.playerId && FlowLinks.InStep(s, c)))
  {
    hide F.Run, FlowInv.Inv, FlowLinks.InStep, FlowLinks.ViewOk, InWidth, Arrives, View, Decodes, Delivers, Lived;
    var s := F.Run(events, lost);
    FlowInv.EveryRunHolds(events, lost);
    FlowInv.InvSizes(s);
    FlowLinks.EveryClientIsInStep(events, lost);
    var sent := s.links[p].sent;
    forall i | 0 <= i < |sent| ensures Decodes(sent[i]) {
      EveryControlMessageArrives(events, lost, p, i, seeds[i]);
    }
    FlowIsTheView(es, sent, seeds);
    assert FlowLinks.LinkOk(s.sessions[p], sent, s.nextMatchId);
  }

  // ----- Gameplay events come out in order -----

  /** The gameplay event a packet brings to a client in its active match, if it brings one. */
  ghost function EventIn(c: Session, data: seq<Byte>, channel: Byte): seq<GameplayEvent> {
    if !c.flow.status.Connected? || H.DecodeHeader(data).None? || channel != ExpectedChannelFor(H.DecodeHeader(data).value) then []
    else
      var kind, payload := H.DecodeHeader(data).value, data[H.HEADER_SIZE..];
      var brought :=
        if kind == BOMB_PLACED && H.DecodeBombPlaced(payload).Some? then [Placed(H.DecodeBombPlaced(payload).value)]
        else if kind == EXPLOSION_RESOLVED && E.Decoded(payload).Some? then [Exploded(E.Decoded(payload).value)]
        else [];
      if brought != [] && IsActiveMatch(c.flow, brought[0].MatchId()) then brought else []
  }

  /** The gameplay events that reached the client since its active match began. */
  ghost function Reached(es: seq<ClientEvent>): seq<GameplayEvent> {
    if es == [] then []
    else
      var c, e := Lived(es[..|es| - 1]), es[|es| - 1];
      if Next(c, e).flow.levelInfo != c.flow.levelInfo then []
      else Reached(es[..|es| - 1]) + if e.Packet? then EventIn(c, e.data, e.channel) else []
  }

  /** The gameplay events the game loop took since then. */
  ghost function Taken(es: seq<ClientEvent>): seq<GameplayEvent> {
    if es == [] then []
    else
      var c, e := Lived(es[..|es| - 1]), es[|es| - 1];
      if Next(c, e).flow.levelInfo != c.flow.levelInfo then []
      else Taken(es[..|es| - 1]) + if e.TakeEvent? && MayTake(c) then [c.pendingGameplayEvents[0]] else []
  }

  ghost predicate InOrder(c: Session, reached: seq<GameplayEvent>, taken: seq<GameplayEvent>) {
    && taken <= reached
    && (c.brokenGameplayEventStream <==> |reached| > |taken| + MAX_PENDING_GAMEPLAY_EVENTS)
    && (!c.brokenGameplayEventStream ==> reached == taken + c.pendingGameplayEvents)
  }

  /** A packet that does not change the match does to the queue what the event in it does. */
  lemma ArrivalEnqueues(c: Session, data: seq<Byte>, channel: Byte)
    requires SessionInv(c) && Arrive(c, data, channel).flow.levelInfo == c.flow.levelInfo
    ensures var d, brought := Arrive(c, data, channel), EventIn(c, data, channel);
      && (|brought| <= 1 && (brought != [] ==> IsActiveMatch(c.flow, brought[0].MatchId())))
      && var queued := if brought == [] then c else Enqueued(c, brought[0]);
         d.pendingGameplayEvents == queued.pendingGameplayEvents && d.brokenGameplayEventStream == queued.brokenGameplayEventStream
  {
    hide S.Decoded, E.Decoded, H.DecodeCorrection, H.DecodeBombPlaced, H.DecodeHeader, DecodeControl, Receive;
    HeaderIsLong(data);
  }

  lemma EnqueuedInOrder(c: Session, e: GameplayEvent, reached: seq<GameplayEvent>, taken: seq<GameplayEvent>)
    requires InOrder(c, reached, taken) && IsActiveMatch(c.flow, e.MatchId()) && |c.pendingGameplayEvents| <= MAX_PENDING_GAMEPLAY_EVENTS
    ensures InOrder(Enqueued(c, e), reached + [e], taken)
  {
    hide IsActiveMatch;
    assert taken + c.pendingGameplayEvents + [e] == taken + (c.pendingGameplayEvents + [e]);
  }

  lemma TakenInOrder(c: Session, reached: seq<GameplayEvent>, taken: seq<GameplayEvent>)
    requires InOrder(c, reached, taken) && MayTake(c)
    ensures InOrder(Next(c, TakeEvent), reached, taken + [c.pendingGameplayEvents[0]])
  {
    var queue := c.pendingGameplayEvents;
    assert queue == [queue[0]] + queue[1..];
    assert taken + queue == taken + [queue[0]] + queue[1..];
  }

  lemma NewMatchInOrder(c: Session, e: ClientEvent)
    requires SessionInv(c) && Next(c, e).flow.levelInfo != c.flow.levelInfo
    ensures InOrder(Next(c, e), [], [])
  {
    hide S.Decoded, E.Decoded, H.DecodeCorrection, H.DecodeBombPlaced, H.DecodeHeader, DecodeControl, Receive, SessionInv;
    assert e.Packet?;
    HeaderIsLong(e.data);
  }

  /**
   * Over every run, the events taken in a match are the first of those that reached the client, in order and each
   * once; the rest is still queued, unless more than 128 were waiting at once, and exactly then the stream is
   * reported broken.
   */
  lemma {:induction false} EventsComeOutInOrder(es: seq<ClientEvent>)
    ensures InOrder(Lived(es), Reached(es), Taken(es))
    decreases |es|
  {
    hide InOrder, SessionInv, Arrive, Enqueued, EventIn;
    if es == [] {
      NothingInOrder();
    } else {
      var n := |es| - 1;
      EventsComeOutInOrder(es[..n]);
      EveryPacketRunHolds(es[..n]);
      var c, e := Lived(es[..n]), es[n];
      if Next(c, e).flow.levelInfo != c.flow.levelInfo {
        NewMatchInOrder(c, e);
      } else {
        SameMatchInOrder(c, e, Reached(es[..n]), Taken(es[..n]));
      }
    }
  }

  lemma NothingInOrder()
    ensures InOrder(Emptied(FRESH_CLIENT), [], [])
  {
  }

  lemma SameQueueInOrder(c: Session, d: Session, reached: seq<GameplayEvent>, taken: seq<GameplayEvent>)
    requires InOrder(c, reached, taken)
    requires d.pendingGameplayEvents == c.pendingGameplayEvents && d.brokenGameplayEventStream == c.brokenGameplayEventStream
    ensures InOrder(d, reached, taken)
  {
  }

  lemma SameMatchInOrder(c: Session, e: ClientEvent, reached: seq<GameplayEvent>, taken: seq<GameplayEvent>)
    requires SessionInv(c) && InOrder(c, reached, taken) && Next(c, e).flow.levelInfo == c.flow.levelInfo
    ensures InOrder(Next(c, e), reached + (if e.Packet? then EventIn(c, e.data, e.channel) else []),
                    taken + (if e.TakeEvent? && MayTake(c) then [c.pendingGameplayEvents[0]] else []))
  {
    hide InOrder, Arrive, Enqueued, EventIn, MayTake;
    assert reached + [] == reached && taken + [] == taken;
    match e
    case Packet(data, channel) =>
      ArrivalEnqueues(c, data, channel);
      var brought := EventIn(c, data, channel);
      if brought == [] {
        SameQueueInOrder(c, Next(c, e), reached, taken);
      } else {
        assert brought == [brought[0]];
        EnqueuedInOrder(c, brought[0], reached, taken);
        SameQueueInOrder(Enqueued(c, brought[0]), Next(c, e), reached + brought, taken);
      }
    case TakeEvent =>
      if MayTake(c) {
        TakenInOrder(c, reached, taken);
      }
    case _ => SameQueueInOrder(c, Next(c, e), reached, taken);
  }

  /** Within a match, the snapshot and the correction a client holds are only ever replaced by newer ones. */
  lemma NewestIsKept(c: Session, e: ClientEvent)
    requires SessionInv(c) && Next(c, e).flow.levelInfo == c.flow.levelInfo
    ensures var d := Next(c, e);
      && (c.snapshot.Some? ==> d.snapshot == c.snapshot || (d.snapshot.Some? && d.snapshot.value.serverTick > c.snapshot.value.serverTick))
      && (c.correction.Some? ==>
            d.correction == c.correction || (d.correction.Some? && d.correction.value.serverTick > c.correction.value.serverTick))
  {
    hide S.Decoded, E.Decoded, H.DecodeCorrection, H.DecodeBombPlaced, H.DecodeHeader, DecodeControl, Receive;
    if e.Packet? {
      HeaderIsLong(e.data);
    }
  }

  /**
   * The packet of a valid snapshot, on its channel: of the active match and newer than the one held, or the first,
   * it is the one held afterwards; otherwise nothing changes.
   */
  lemma NewerSnapshotIsTaken(c: Session, m: S.MsgSnapshot)
    requires c.flow.status.Connected? && S.WellFormed(m)
    ensures |S.SnapshotBytes(m)| == 111
    ensures Arrive(c, H.Packet(0x11, S.SnapshotBytes(m)), 3) ==
      if c.flow.levelInfo == Some(m.matchId) && (c.snapshot.None? || m.serverTick > c.snapshot.value.serverTick)
      then c.(snapshot := Some(m)) else c
  {
    hide S.WellFormed, S.SnapshotBytes, S.Decoded, H.DecodeHeader, H.Packet, E.Decoded, DecodeControl, H.DecodeCorrection, H.DecodeBombPlaced;
    S.SnapshotRoundTrip(m);
    SnapshotSize(m);
    H.HeaderRoundTrip(0x11, S.SnapshotBytes(m));
    HeaderIsLong(H.Packet(0x11, S.SnapshotBytes(m)));
  }

  lemma SnapshotSize(m: S.MsgSnapshot)
    ensures |S.SnapshotBytes(m)| == 111
  {
  }

  /** The same for a correction. */
  lemma NewerCorrectionIsTaken(c: Session, m: H.MsgCorrection)
    requires c.flow.status.Connected?
    ensures |H.CorrectionBytes(m)| == 20
    ensures Arrive(c, H.Packet(0x12, H.CorrectionBytes(m)), 4) ==
      if c.flow.levelInfo == Some(m.matchId) && (c.correction.None? || m.serverTick > c.correction.value.serverTick)
      then c.(correction := Some(m)) else c
  {
    CorrectionSize(m);
    hide H.CorrectionBytes, S.Decoded, H.DecodeHeader, H.Packet, E.Decoded, DecodeControl, H.DecodeCorrection, H.DecodeBombPlaced;
    H.CorrectionRoundTrip(m);
    H.HeaderRoundTrip(0x12, H.CorrectionBytes(m));
    HeaderIsLong(H.Packet(0x12, H.CorrectionBytes(m)));
  }

  lemma CorrectionSize(m: H.MsgCorrection)
    ensures |H.CorrectionBytes(m)| == 20
  {
  }

  // ----- The client object -----

  /** The receiving half of the client object. */
  class NetClient {
    var status: Status
    var playerId: Option<nat>
    var levelInfo: Option<nat>
    var mapSeed: U32
    var levelInfoPending: bool
    var brokenGameplayEventStream: bool
    var matchStart: Option<Control>
    var cancelledMatchId: Option<nat>
    var matchResult: Option<Control>
    var cachedLobbyState: Option<Control>
    var snapshot: Option<S.MsgSnapshot>
    var correction: Option<H.MsgCorrection>
    var pendingGameplayEvents: seq<GameplayEvent>
    const sender: Input.InputSender

    ghost predicate Valid()
      reads this, sender, sender.inputHistory
    {
      sender.Valid()
    }

    ghost function Model(): Session
      reads this, sender
    {
      Session(Client(status, playerId, levelInfo, matchStart, cancelledMatchId, matchResult, cachedLobbyState),
              mapSeed, levelInfoPending, brokenGameplayEventStream, snapshot, correction, pendingGameplayEvents, sender.log)
    }

    constructor ()
      ensures Valid() && fresh(sender) && fresh(sender.inputHistory) && Model() == Emptied(FRESH_CLIENT)
    {
      status, playerId, levelInfo, cachedLobbyState := Handshaking, None, None, None;
      matchStart, cancelledMatchId, matchResult := None, None, None;
      mapSeed, levelInfoPending, brokenGameplayEventStream := 0, false, false;
      snapshot, correction, pendingGameplayEvents := None, None, [];
      sender := new Input.InputSender();
    }

    /** Drops everything of the current match. */
    method ResetMatchFlow()
      requires Valid()
      modifies this, sender, sender.inputHistory
      ensures Valid()
      ensures Model() == Emptied(ResetRuntimeState(old(Model()).flow).(levelInfo := None))
    {
      sender.ResetLocalInputStream();
      matchStart, cancelledMatchId, matchResult := None, None, None;
      snapshot, correction, pendingGameplayEvents := None, None, [];
      mapSeed, levelInfoPending, brokenGameplayEventStream := 0, false, false;
      levelInfo := None;
    }

    method ResetCurrentMatchSession()
      requires Valid()
      modifies this, sender, sender.inputHistory
      ensures Valid()
      ensures Model() == if old(Model()).flow.levelInfo.None? then old(Model())
                         else Emptied(ResetRuntimeState(old(Model()).flow).(levelInfo := None))
    {
      if levelInfo.None? {
        return;
      }
      ResetMatchFlow();
    }

    method FailConnection()
      requires Valid()
      modifies this, sender, sender.inputHistory
      ensures Valid() && Model() == Emptied(FAILED_CLIENT)
    {
      playerId := None;
      ResetMatchFlow();
      cachedLobbyState := None;
      status := Failed;
    }

    method HandleLevelInfo(m: nat, seed: U32)
      requires Valid() && status.Connected? && Decodes(LevelInfo(m))
      modifies this, sender, sender.inputHistory
      ensures Valid() && Model() == WithControl(old(Model()), LevelInfo(m), seed)
    {
      if levelInfo.Some? && m <= levelInfo.value {
        return;
      }
      ResetMatchFlow();
      levelInfo, mapSeed, levelInfoPending := Some(m), seed, true;
      cachedLobbyState := None;
    }

    method HandleLobbyState(msg: Control)
      requires Valid() && status.Connected? && msg.LobbyState? && Decodes(msg)
      modifies this, sender, sender.inputHistory
      ensures Valid() && Model() == WithControl(old(Model()), msg, 0)
    {
      if levelInfo.Some? {
        ResetCurrentMatchSession();
      }
      cachedLobbyState := Some(msg);
    }

    method HandleMatchStart(msg: Control)
      requires Valid() && status.Connected? && msg.MatchStart? && Decodes(msg)
      modifies this
      ensures Valid() && Model() == WithControl(old(Model()), msg, 0)
    {
      if matchStart.Some? && matchStart.value.MatchStart? && msg.matchId <= matchStart.value.matchId {
        return;
      }
      if levelInfo != Some(msg.matchId) {
        return;
      }
      matchStart := Some(msg);
    }

    method HandleMatchCancelled(m: nat)
      requires Valid() && status.Connected? && Decodes(MatchCancelled(m))
      modifies this, sender, sender.inputHistory
      ensures Valid() && Model() == WithControl(old(Model()), MatchCancelled(m), 0)
    {
      if cancelledMatchId.Some? && m <= cancelledMatchId.value {
        return;
      }
      if levelInfo == Some(m) {
        ResetCurrentMatchSession();
      }
      cancelledMatchId := Some(m);
    }

    method HandleMatchResult(msg: Control)
      requires Valid() && status.Connected? && msg.MatchResult? && Decodes(msg)
      modifies this
      ensures Valid() && Model() == WithControl(old(Model()), msg, 0)
    {
      if levelInfo != Some(msg.matchId) {
        return;
      }
      if matchResult.Some? && matchResult.value.MatchResult? && msg.matchId <= matchResult.value.matchId {
        return;
      }
      matchResult := Some(msg);
    }

    method EnqueueGameplayEvent(e: GameplayEvent)
      requires Valid()
      modifies this
      ensures Valid() && Model() == Enqueued(old(Model()), e)
    {
      if levelInfo != Some(e.MatchId()) {
        return;
      }
      if brokenGameplayEventStream {
        return;
      }
      if |pendingGameplayEvents| >= MAX_PENDING_GAMEPLAY_EVENTS {
        brokenGameplayEventStream := true;
        pendingGameplayEvents := [];
        return;
      }
      pendingGameplayEvents := pendingGameplayEvents + [e];
    }

    method HandleSnapshot(m: S.MsgSnapshot)
      requires Valid()
      modifies this
      ensures Valid() && Model() == WithSnapshot(old(Model()), m)
    {
      if levelInfo != Some(m.matchId) {
        return;
      }
      if snapshot.Some? && m.serverTick <= snapshot.value.serverTick {
        return;
      }
      snapshot := Some(m);
    }

    method HandleCorrection(m: H.MsgCorrection)
      requires Valid()
      modifies this
      ensures Valid() && Model() == WithCorrection(old(Model()), m)
    {
      if levelInfo != Some(m.matchId) {
        return;
      }
      if correction.Some? && m.serverTick <= correction.value.serverTick {
        return;
      }
      correction := Some(m);
    }

    method HandleControl(msg: Control, seed: U32)
      requires Valid() && status.Connected? && Decodes(msg) && (msg.LevelInfo? || seed == 0)
      modifies this, sender, sender.inputHistory
      ensures Valid() && Model() == WithControl(old(Model()), msg, seed)
    {
      hide WithControl, Decodes, Emptied;
      match msg
      case Welcome(_) => WelcomeIsIgnored(Model(), msg, seed);
      case Reject(_) => WelcomeIsIgnored(Model(), msg, seed);
      case LevelInfo(m) => HandleLevelInfo(m, seed);
      case LobbyState(_, _, _) => HandleLobbyState(msg);
      case MatchStart(_, _, _) => HandleMatchStart(msg);
      case MatchCancelled(m) => HandleMatchCancelled(m);
      case MatchResult(_, _, _) => HandleMatchResult(msg);
    }

    /** A valid packet of a connected client goes to the handler of its type. */
    method Dispatch(kind: Byte, payload: seq<Byte>)
      requires Valid() && status.Connected?
      modifies this, sender, sender.inputHistory
      ensures Valid() && Model() == Dispatched(old(Model()), kind, payload)
    {
      hide Model, WithSnapshot, WithCorrection, Enqueued, WithControl, S.Decoded, E.Decoded, DecodeControl,
           H.DecodeCorrection, H.DecodeBombPlaced, DecodeLevelInfo, Decodes;
      if kind == SNAPSHOT {
        var m := S.DeserializeMsgSnapshot(payload);
        if m.Some? {
          HandleSnapshot(m.value);
        }
      } else if kind == CORRECTION {
        var m := H.DecodeCorrection(payload);
        if m.Some? {
          HandleCorrection(m.value);
        }
      } else if kind == BOMB_PLACED {
        var m := H.DecodeBombPlaced(payload);
        if m.Some? {
          EnqueueGameplayEvent(Placed(m.value));
        }
      } else if kind == EXPLOSION_RESOLVED {
        var m := E.DeserializeMsgExplosionResolved(payload);
        if m.Some? {
          EnqueueGameplayEvent(Exploded(m.value));
        }
      } else {
        var msg := DeserializeControl(kind, payload);
        DecodedDecodes(kind, payload);
        SeedsOnlyInLevelInfo(kind, payload);
        if msg.Some? {
          HandleControl(msg.value, SeedIn(kind, payload));
        }
      }
    }

    /** A control packet during the handshake. */
    method ShakeHands(kind: Byte, payload: seq<Byte>)
      requires Valid() && status.Handshaking?
      modifies this, sender, sender.inputHistory
      ensures Valid() && Model() == Handshake(old(Model()), kind, payload)
    {
      hide DecodeControl, Emptied;
      DecodedDecodes(kind, payload);
      if !IsHandshake(kind) {
        FailConnection();
        return;
      }
      var msg := DeserializeControl(kind, payload);
      if msg.None? || msg.value.Reject? {
        FailConnection();
        return;
      }
      playerId := Some(msg.value.playerId);
      status := Connected;
    }

    /** Receive handling of one packet, whatever its bytes and its channel. */
    method HandleReceiveEvent(data: seq<Byte>, channel: Byte)
      requires Valid()
      modifies this, sender, sender.inputHistory
      ensures Valid() && Model() == Arrive(old(Model()), data, channel)
    {
      hide Dispatched, Handshake, Emptied, H.DecodeHeader, ExpectedChannelFor;
      if status.Failed? {
        return;
      }
      HeaderIsLong(data);
      var header := H.DecodeHeader(data);
      if header.None? {
        if status.Handshaking? {
          FailConnection();
        }
        return;
      }
      var kind := header.value;
      if channel != ExpectedChannelFor(kind) {
        if status.Handshaking? && IsHandshake(kind) {
          FailConnection();
        }
        return;
      }
      if status.Connected? {
        Dispatch(kind, data[H.HEADER_SIZE..]);
      } else if channel == CONTROL_RELIABLE {
        ShakeHands(kind, data[H.HEADER_SIZE..]);
      }
    }

    /** The game loop takes the oldest waiting event. */
    method TryDequeueGameplayEvent() returns (e: Option<GameplayEvent>)
      requires Valid()
      modifies this
      ensures Valid() && Model() == Next(old(Model()), TakeEvent)
      ensures e == if MayTake(old(Model())) then Some(old(Model()).pendingGameplayEvents[0]) else None
    {
      if !status.Connected? || brokenGameplayEventStream || pendingGameplayEvents == [] {
        return None;
      }
      e := Some(pendingGameplayEvents[0]);
      pendingGameplayEvents := pendingGameplayEvents[1..];
    }

    /** The game loop takes the level info of a new match, once. */
    method ConsumePendingLevelInfo() returns (r: Option<(nat, U32)>)
      requires Valid()
      modifies this
      ensures Valid()
      ensures var c := old(Model()); var takes := c.flow.status.Connected? && c.flow.levelInfo.Some? && c.levelInfoPending;
        && r == (if takes then Some((c.flow.levelInfo.value, c.mapSeed)) else None)
        && Model() == if takes then Next(c, TakeLevelInfo) else c
    {
      if !status.Connected? || levelInfo.None? || !levelInfoPending {
        return None;
      }
      r := Some((levelInfo.value, mapSeed));
      levelInfoPending := false;
    }

    /** Sends one button mask with the newest before it; a client without a session sends nothing. */
    method SendInput(buttons: Byte) returns (r: Option<Input.MsgInput>)
      requires Valid()
      modifies this, sender, sender.inputHistory
      ensures Valid() && Model() == Next(old(Model()), Press(buttons))
      ensures r == if old(Model()).flow.status.Connected? then Some(Input.NewestBatch(Model().inputs)) else None
    {
      if !status.Connected? {
        return None;
      }
      var s, msg := sender.SendInput(buttons);
      r := Some(msg);
    }
  }

  lemma WelcomeIsIgnored(c: Session, msg: Control, seed: U32)
    requires c.flow.status.Connected? && (msg.Welcome? || msg.Reject?)
    ensures WithControl(c, msg, seed) == c
  {
  }

  lemma SeedsOnlyInLevelInfo(kind: Byte, payload: seq<Byte>)
    ensures DecodeControl(kind, payload).Some? && !DecodeControl(kind, payload).value.LevelInfo? ==> SeedIn(kind, payload) == 0
  {
  }

  /** The control deserializers together. */
  method DeserializeControl(kind: Byte, payload: seq<Byte>) returns (msg: Option<Control>)
    ensures msg == DecodeControl(kind, payload)
  {
    if kind == 0x05 {
      var m := DeserializeMsgLobbyState(payload);
      return if m.None? then None else Some(LobbyState(m.value.phase == 1, m.value.secondsRemaining, SeatsOffWire(m.value)));
    }
    msg := DecodeOtherControl(kind, payload);
  }
}
