/**
 * Client and server together: one client predicting on its own inputs, one server consuming what the network
 * lets through, and corrections that may be lost, repeated or arrive late.
 */
module Netcode {
  import opened Config
  import opened Tiles
  import opened Movement
  import opened Input
  import A = InputAgreement
  import opened Prediction
  import opened PredictionRuns

  datatype NetEvent =
    | Press(buttons: Byte, tiles: TileMap)
    | Server(e: A.Event)
    | Arrive(j: nat, playerFlags: Byte, tiles: TileMap)
    | Suspend

  /** What the server and the network do, seen from the input stream. */
  function Net(events: seq<NetEvent>): seq<A.Event> {
    if events == [] then []
    else
      var before := Net(events[..|events| - 1]);
      match events[|events| - 1]
      case Press(buttons, _) => before + [A.Send(buttons)]
      case Server(e) => before + [e]
      case Arrive(_, _, _) => before
      case Suspend => before
  }

  function Authority(setup: A.Setup, events: seq<NetEvent>): A.Stream {
    A.Run(setup, Net(events))
  }

  /** The correction the server builds after the first j events. */
  function CorrectionAt(setup: A.Setup, events: seq<NetEvent>, playerFlags: Byte): Correction {
    var p := Authority(setup, events);
    Correction(p.rx.lastProcessedInputSeq, p.pos, playerFlags)
  }

  /** The client records every input it sends and reconciles with every correction that arrives. */
  function Client(setup: A.Setup, events: seq<NetEvent>): Spec {
    if events == [] then FRESH
    else
      var before := events[..|events| - 1];
      var m := Client(setup, before);
      match events[|events| - 1]
      case Press(buttons, tiles) => Recorded(m, |Authority(setup, before).log| + 1, buttons, tiles)
      case Server(_) => m
      case Arrive(j, playerFlags, tiles) =>
        if j <= |before| then Corrected(m, CorrectionAt(setup, before[..j], playerFlags), tiles) else m
      case Suspend => FRESH
  }

  /** A run the system can make; a correction comes from some earlier moment of the same match. */
  ghost predicate Runs(setup: A.Setup, events: seq<NetEvent>) {
    && A.Possible(setup, Net(events))
    && forall i | 0 <= i < |events| ::
         && (events[i].Server? ==> !events[i].e.Send?)
         && (events[i].Arrive? ==> events[i].j <= i)
  }

  // ----- Earlier moments -----

  lemma {:induction false} NetGrows(events: seq<NetEvent>, j: nat)
    requires j <= |events|
    ensures |Net(events[..j])| <= |Net(events)| && Net(events)[..|Net(events[..j])|] == Net(events[..j])
    decreases |events|
  {
    if j < |events| {
      var before := events[..|events| - 1];
      assert before[..j] == events[..j];
      NetGrows(before, j);
    } else {
      assert events[..j] == events;
    }
  }

  lemma {:induction false} StreamGrows(setup: A.Setup, events: seq<A.Event>, n: nat)
    requires n <= |events|
    ensures var early, late := A.Run(setup, events[..n]), A.Run(setup, events);
      && |early.drives| <= |late.drives| && late.drives[..|early.drives|] == early.drives
      && |early.log| <= |late.log| && late.log[..|early.log|] == early.log
    ensures A.Possible(setup, events) ==> A.Possible(setup, events[..n])
    decreases |events|
  {
    hide StepMovementWithCollision, Received, Armed, ResolveForTick;
    if n < |events| {
      var before := events[..|events| - 1];
      assert before[..n] == events[..n];
      StreamGrows(setup, before, n);
    } else {
      assert events[..n] == events;
    }
  }

  lemma RunsBefore(setup: A.Setup, events: seq<NetEvent>, j: nat)
    requires Runs(setup, events) && j <= |events|
    ensures Runs(setup, events[..j])
    ensures var early, late := Authority(setup, events[..j]), Authority(setup, events);
      && |early.drives| <= |late.drives| && late.drives[..|early.drives|] == early.drives
      && |early.log| <= |late.log| && late.log[..|early.log|] == early.log
  {
    NetGrows(events, j);
    StreamGrows(setup, Net(events), |Net(events[..j])|);
  }

  /** Every correction states the fold of the inputs it acknowledges. */
  lemma CorrectionsAreFolds(setup: A.Setup, events: seq<NetEvent>, j: nat, playerFlags: Byte)
    requires Runs(setup, events) && j <= |events|
    ensures var c := CorrectionAt(setup, events[..j], playerFlags); var drives := Authority(setup, events).drives;
      c.lastProcessedInputSeq <= |drives| && c.posQ == Travel(setup.spawn, drives[..c.lastProcessedInputSeq])
  {
    RunsBefore(setup, events, j);
    A.AuthorityIsAFold(setup, Net(events[..j]));
  }

  // ----- The joint invariant -----

  /** The client's unacknowledged inputs are the newest entries of the log. */
  ghost predicate Echo(m: Spec, log: seq<Byte>) {
    && |m.unacked| <= m.last && (m.last == |log| || (m.last == 0 && m.unacked == []))
    && forall i | 0 <= i < |m.unacked| :: m.unacked[i].buttons == log[m.last - |m.unacked| + i]
  }

  /** The active baseline is the server's own position after the acknowledged input. */
  ghost predicate Anchored(setup: A.Setup, m: Spec, drives: seq<Drive>) {
    m.phase == Active ==> m.acked <= |drives| && m.baseline.posQ == Travel(setup.spawn, drives[..m.acked])
  }

  ghost predicate JointInv(setup: A.Setup, events: seq<NetEvent>) {
    var m, p := Client(setup, events), Authority(setup, events);
    SpecInv(m) && Echo(m, p.log) && Anchored(setup, m, p.drives)
  }

  lemma GrowthKeeps(setup: A.Setup, m: Spec, early: A.Stream, late: A.Stream)
    requires SpecInv(m) && Echo(m, early.log) && Anchored(setup, m, early.drives) && early.log == late.log
    requires |early.drives| <= |late.drives| && late.drives[..|early.drives|] == early.drives
    ensures Echo(m, late.log) && Anchored(setup, m, late.drives)
  {
    if m.phase == Active {
      assert late.drives[..m.acked] == early.drives[..m.acked];
    }
  }

  lemma PressKeeps(setup: A.Setup, m: Spec, p: A.Stream, buttons: Byte, tiles: TileMap)
    requires SpecInv(m) && Echo(m, p.log) && Anchored(setup, m, p.drives)
    ensures var m' := Recorded(m, |p.log| + 1, buttons, tiles);
      SpecInv(m') && Echo(m', p.log + [buttons]) && Anchored(setup, m', p.drives)
  {
    hide Fold;
  }

  lemma AfterIsASuffix(m: Spec, k: nat)
    ensures |After(m, k)| <= |m.unacked|
    ensures forall i | 0 <= i < |After(m, k)| :: After(m, k)[i] == m.unacked[|m.unacked| - |After(m, k)| + i]
  {
    var r := After(m, k);
    assert r == m.unacked[|m.unacked| - |r|..];
    hide After;
  }

  lemma OnMapKeepsButtons(steps: seq<Step>, tiles: TileMap)
    ensures |OnMap(steps, tiles)| == |steps|
    ensures forall i | 0 <= i < |steps| :: OnMap(steps, tiles)[i].buttons == steps[i].buttons
  {
  }

  /** Reconciling keeps a suffix of the inputs, buttons unchanged. */
  lemma SuffixIsKept(m: Spec, c: Correction, tiles: TileMap)
    ensures var m' := Corrected(m, c, tiles);
      && m'.last == m.last && |m'.unacked| <= |m.unacked|
      && forall i | 0 <= i < |m'.unacked| :: m'.unacked[i].buttons == m.unacked[|m.unacked| - |m'.unacked| + i].buttons
  {
    hide ButtonsAtAck, After, OnMap;
    AfterIsASuffix(m, c.lastProcessedInputSeq);
    OnMapKeepsButtons(After(m, c.lastProcessedInputSeq), tiles);
  }

  /** An active client stands on the correction it accepted last. */
  lemma ActiveOnItsCorrection(m: Spec, c: Correction, tiles: TileMap)
    ensures var m' := Corrected(m, c, tiles);
      m'.phase == Active ==> m' == m || (m'.acked == c.lastProcessedInputSeq && m'.baseline.posQ == c.posQ)
  {
    hide ButtonsAtAck, After, OnMap;
  }

  lemma SuffixEchoes(m: Spec, m': Spec, log: seq<Byte>)
    requires Echo(m, log) && m'.last == m.last && |m'.unacked| <= |m.unacked|
    requires forall i | 0 <= i < |m'.unacked| :: m'.unacked[i].buttons == m.unacked[|m.unacked| - |m'.unacked| + i].buttons
    ensures Echo(m', log)
  {
    forall i | 0 <= i < |m'.unacked| ensures m'.unacked[i].buttons == log[m'.last - |m'.unacked| + i] {
      var j := |m.unacked| - |m'.unacked| + i;
      assert m.unacked[j].buttons == log[m.last - |m.unacked| + j];
    }
  }

  lemma ArrivalKeeps(setup: A.Setup, m: Spec, p: A.Stream, c: Correction, tiles: TileMap)
    requires SpecInv(m) && Echo(m, p.log) && Anchored(setup, m, p.drives)
    requires c.lastProcessedInputSeq <= |p.drives| && c.posQ == Travel(setup.spawn, p.drives[..c.lastProcessedInputSeq])
    ensures var m' := Corrected(m, c, tiles); Echo(m', p.log) && Anchored(setup, m', p.drives)
  {
    hide Echo, SpecInv, Travel, Corrected;
    ActiveOnItsCorrection(m, c, tiles);
    SuffixIsKept(m, c, tiles);
    SuffixEchoes(m, Corrected(m, c, tiles), p.log);
  }

  lemma ArrivalKeepsSpecInv(m: Spec, c: Correction, tiles: TileMap)
    requires SpecInv(m)
    ensures SpecInv(Corrected(m, c, tiles))
  {
    hide ButtonsAtAck;
  }

  lemma {:induction false} JointInvHolds(setup: A.Setup, events: seq<NetEvent>)
    requires Runs(setup, events)
    ensures JointInv(setup, events)
    decreases |events|
  {
    if events == [] {
      return;
    }
    hide SpecInv, Echo, Anchored, Corrected, Recorded, A.Possible, A.Next;
    var n := |events| - 1;
    var before := events[..n];
    RunsBefore(setup, events, n);
    JointInvHolds(setup, before);
    var m, early, late := Client(setup, before), Authority(setup, before), Authority(setup, events);
    match events[n]
    case Press(buttons, tiles) =>
      PressKeeps(setup, m, early, buttons, tiles);
      PressOnlyLogs(setup, events);
    case Server(e) =>
      ServerKeepsLog(setup, events);
      GrowthKeeps(setup, m, early, late);
    case Arrive(j, playerFlags, tiles) =>
      assert before[..j] == events[..j];
      CorrectionsAreFolds(setup, before, j, playerFlags);
      ArrivalKeeps(setup, m, early, CorrectionAt(setup, before[..j], playerFlags), tiles);
      ArrivalKeepsSpecInv(m, CorrectionAt(setup, before[..j], playerFlags), tiles);
    case Suspend =>
      FreshKeeps(setup, early);
  }

  lemma FreshKeeps(setup: A.Setup, p: A.Stream)
    ensures SpecInv(FRESH) && Echo(FRESH, p.log) && Anchored(setup, FRESH, p.drives)
  {
  }

  lemma PressOnlyLogs(setup: A.Setup, events: seq<NetEvent>)
    requires events != [] && events[|events| - 1].Press?
    ensures var early, late := Authority(setup, events[..|events| - 1]), Authority(setup, events);
      late == early.(log := early.log + [events[|events| - 1].buttons])
  {
    var before := Net(events[..|events| - 1]);
    assert Net(events)[..|Net(events)| - 1] == before;
  }

  lemma ServerKeepsLog(setup: A.Setup, events: seq<NetEvent>)
    requires events != [] && events[|events| - 1].Server? && !events[|events| - 1].e.Send?
    ensures Authority(setup, events).log == Authority(setup, events[..|events| - 1]).log
  {
    hide StepMovementWithCollision, Received, Armed, ResolveForTick;
    var before := Net(events[..|events| - 1]);
    assert Net(events)[..|Net(events)| - 1] == before;
  }

  // ----- Where the kept inputs begin -----

  /** The newest sequence the client had recorded when the last accepted correction arrived; 0 without one since the last suspension. */
  function RecordedAtAck(setup: A.Setup, events: seq<NetEvent>): nat {
    if events == [] then 0
    else
      var before := events[..|events| - 1];
      match events[|events| - 1]
      case Press(_, _) => RecordedAtAck(setup, before)
      case Server(_) => RecordedAtAck(setup, before)
      case Arrive(j, playerFlags, _) =>
        var m := Client(setup, before);
        if j <= |before| && !Stale(m, CorrectionAt(setup, before[..j], playerFlags)) then m.last else RecordedAtAck(setup, before)
      case Suspend => 0
  }

  /** The first sequence recorded since the last suspension, or 0. */
  function FirstPress(setup: A.Setup, events: seq<NetEvent>): nat {
    if events == [] then 0
    else
      var before := events[..|events| - 1];
      match events[|events| - 1]
      case Press(_, _) => if FirstPress(setup, before) == 0 then |Authority(setup, before).log| + 1 else FirstPress(setup, before)
      case Server(_) => FirstPress(setup, before)
      case Arrive(_, _, _) => FirstPress(setup, before)
      case Suspend => 0
  }

  /**
   * The kept inputs join the acknowledged one: the acknowledgement was not ahead of what the client had recorded,
   * or, when nothing was recorded since a suspension, the first input after it is the next one.
   */
  predicate InputsJoinTheAck(setup: A.Setup, events: seq<NetEvent>) {
    var recorded, first, acked := RecordedAtAck(setup, events), FirstPress(setup, events), Client(setup, events).acked;
    if recorded > 0 then acked <= recorded else if first == 0 then acked == 0 else first == acked + 1
  }

  /** Before which sequence the kept inputs begin, told by the history. */
  ghost predicate BeginsWhere(m: Spec, recorded: nat, first: nat) {
    && (m.last == 0 <==> first == 0) && recorded <= m.last && |m.unacked| <= m.last
    && (m.phase == Active ==>
          m.last - |m.unacked| == if recorded > 0 then (if m.acked <= recorded then m.acked else recorded)
                                  else if first == 0 then 0 else first - 1)
  }

  lemma PressBegins(m: Spec, recorded: nat, first: nat, logged: nat, buttons: Byte, tiles: TileMap)
    requires BeginsWhere(m, recorded, first) && (m.last == 0 || m.last == logged)
    ensures BeginsWhere(Recorded(m, logged + 1, buttons, tiles), recorded, if first == 0 then logged + 1 else first)
  {
  }

  lemma ArrivalBegins(m: Spec, c: Correction, tiles: TileMap, recorded: nat, first: nat)
    requires SpecInv(m) && BeginsWhere(m, recorded, first)
    ensures BeginsWhere(Corrected(m, c, tiles), if Stale(m, c) then recorded else m.last, first)
  {
    hide ButtonsAtAck, SpecInv;
  }

  lemma {:induction false} BeginningIsKnown(setup: A.Setup, events: seq<NetEvent>)
    requires Runs(setup, events)
    ensures BeginsWhere(Client(setup, events), RecordedAtAck(setup, events), FirstPress(setup, events))
    decreases |events|
  {
    if events != [] {
      hide BeginsWhere, Corrected, Recorded, Stale, Authority, SpecInv, Anchored;
      var n := |events| - 1;
      var before := events[..n];
      RunsBefore(setup, events, n);
      BeginningIsKnown(setup, before);
      JointInvHolds(setup, before);
      var m, recorded, first := Client(setup, before), RecordedAtAck(setup, before), FirstPress(setup, before);
      match events[n]
      case Press(buttons, tiles) => PressBegins(m, recorded, first, |Authority(setup, before).log|, buttons, tiles);
      case Server(_) =>
      case Arrive(j, playerFlags, tiles) => ArrivalBegins(m, CorrectionAt(setup, before[..j], playerFlags), tiles, recorded, first);
      case Suspend => FreshBegins();
    }
  }

  lemma FreshBegins()
    ensures BeginsWhere(FRESH, 0, 0)
  {
  }

  /** The exact condition, over every joint run, for the kept inputs to begin right after the acknowledged one. */
  lemma JoinIsExact(setup: A.Setup, events: seq<NetEvent>)
    requires Runs(setup, events) && Client(setup, events).phase == Active
    ensures var m := Client(setup, events); m.last - |m.unacked| == m.acked <==> InputsJoinTheAck(setup, events)
  {
    BeginningIsKnown(setup, events);
    hide Client, RecordedAtAck, FirstPress, Runs;
  }

  // ----- Prediction is exact -----

  /** Client and server worked the inputs a+1..k on the same maps at the same speed. */
  ghost predicate SameGround(m: Spec, drives: seq<Drive>, k: nat) {
    m.acked <= k <= |drives| && k - m.acked <= |m.unacked|
    && forall i | 0 <= i < k - m.acked ::
         drives[m.acked + i].tiles == m.unacked[i].tiles && drives[m.acked + i].speedQ == SpeedFor(m.baseline.playerFlags)
  }

  lemma OwnSpan(setup: A.Setup, events: seq<NetEvent>, a: nat, b: nat)
    requires Runs(setup, events) && a <= b <= |Authority(setup, events).drives|
    requires forall s | a < s <= b :: A.Covered(setup, Net(events), s)
    ensures forall s | a < s <= b :: A.OwnInput(Authority(setup, events), s)
  {
    hide A.Covered, A.Possible, A.Run, A.OwnInput;
    A.NoGapsMeansOwnInputs(setup, Net(events), a, b);
  }

  lemma SpanIsAlike(setup: A.Setup, events: seq<NetEvent>, k: nat)
    requires Runs(setup, events) && JointInv(setup, events)
    requires var m := Client(setup, events);
      m.phase == Active && m.last - |m.unacked| == m.acked <= k <= m.last && SameGround(m, Authority(setup, events).drives, k)
    requires forall s | Client(setup, events).acked < s <= k :: A.Covered(setup, Net(events), s)
    ensures var m, drives := Client(setup, events), Authority(setup, events).drives;
      SteppedAlike(m.unacked[..k - m.acked], drives[m.acked..k], m.baseline.playerFlags)
  {
    hide A.Covered, Client, Authority, Runs, SpecInv, Anchored, SpeedFor;
    var m, p := Client(setup, events), Authority(setup, events);
    OwnSpan(setup, events, m.acked, k);
    forall i | 0 <= i < k - m.acked
      ensures p.drives[m.acked + i] == Drive(m.unacked[i].buttons, m.unacked[i].tiles, SpeedFor(m.baseline.playerFlags))
    {
      assert A.OwnInput(p, m.acked + i + 1);
      assert p.drives[m.acked + i].buttons == Logged(p.log, m.acked + i + 1);
    }
  }

  lemma CorrectionCarries(setup: A.Setup, events: seq<NetEvent>, playerFlags: Byte)
    ensures CorrectionAt(setup, events, playerFlags).playerFlags == playerFlags
  {
  }

  /**
   * End to end. Take any run of client, network and server, and any correction from any earlier moment of it that
   * is newer than the client's last acknowledgement and not older than its 128 newest inputs. If the kept inputs
   * join that acknowledgement, the server missed no input since, and both sides saw the same maps and the same
   * speed, then the correction is exactly what the client predicted and applying it changes nothing the player sees.
   */
  lemma PredictionIsExact(setup: A.Setup, events: seq<NetEvent>, j: nat, tiles: TileMap)
    requires Runs(setup, events) && j <= |events|
    requires var m := Client(setup, events); var k := CorrectionAt(setup, events[..j], m.baseline.playerFlags).lastProcessedInputSeq;
      && m.phase == Active && InputsJoinTheAck(setup, events) && m.acked < k <= m.last < k + HISTORY_SIZE
      && SameGround(m, Authority(setup, events).drives, k) && AllOn(m.unacked, tiles)
      && forall s | m.acked < s <= k :: A.Covered(setup, Net(events), s)
    ensures var m := Client(setup, events); var c := CorrectionAt(setup, events[..j], m.baseline.playerFlags);
      && m.HasStateAt(c.lastProcessedInputSeq) && m.StateAt(c.lastProcessedInputSeq).posQ == c.posQ
      && Report(m, c).correctionMatchedRetainedPrediction
      && Corrected(m, c, tiles).phase == Active && Corrected(m, c, tiles).Presented() == m.Presented()
  {
    hide Runs, A.Covered, Client, Authority, CorrectionAt, InputsJoinTheAck, Report, Corrected, SteppedAlike, AllOn, StateAfter, Travel, SameGround;
    JointInvHolds(setup, events);
    var m, p := Client(setup, events), Authority(setup, events);
    var c := CorrectionAt(setup, events[..j], m.baseline.playerFlags);
    var k := c.lastProcessedInputSeq;
    CorrectionsAreFolds(setup, events, j, m.baseline.playerFlags);
    CorrectionCarries(setup, events[..j], m.baseline.playerFlags);
    JoinIsExact(setup, events);
    SpanIsAlike(setup, events, k);
    PredictionMatchesAuthority(m, setup.spawn, p.drives, k, tiles);
  }
}
