/** Whole runs of the prediction specification, and its agreement with the server. */
module PredictionRuns {
  import opened Config
  import opened Tiles
  import opened Movement
  import opened Prediction

  datatype Event =
    | Record(s: nat, buttons: Byte, tiles: TileMap)
    | Correct(c: Correction, tiles: TileMap)
    | Restart

  function Next(m: Spec, e: Event): Spec {
    match e
    case Record(s, buttons, tiles) => Recorded(m, s, buttons, tiles)
    case Correct(c, tiles) => Corrected(m, c, tiles)
    case Restart => FRESH
  }

  function Run(events: seq<Event>): Spec {
    if events == [] then FRESH else Next(Run(events[..|events| - 1]), events[|events| - 1])
  }

  // ----- What the history of events says by itself -----

  datatype Input = Input(s: nat, buttons: Byte)

  function NewerThan(inputs: seq<Input>, k: nat): seq<Input> {
    if inputs == [] then []
    else
      var n := |inputs| - 1;
      NewerThan(inputs[..n], k) + if inputs[n].s > k then [inputs[n]] else []
  }

  /**
   * Every accepted local input after the sequence acknowledged by the last accepted correction, and every
   * input recorded since that correction.
   */
  function Outstanding(events: seq<Event>): seq<Input> {
    if events == [] then []
    else
      var before := events[..|events| - 1];
      match events[|events| - 1]
      case Record(s, buttons, _) => if Accepts(Run(before), s) then Outstanding(before) + [Input(s, buttons)] else Outstanding(before)
      case Correct(c, _) => if Stale(Run(before), c) then Outstanding(before) else NewerThan(Outstanding(before), c.lastProcessedInputSeq)
      case Restart => []
  }

  /** The last accepted corrections, newest first; empty since the last restart means no baseline yet. */
  function AcceptedCorrections(events: seq<Event>): seq<Correction> {
    if events == [] then []
    else
      var before := events[..|events| - 1];
      match events[|events| - 1]
      case Record(_, _, _) => AcceptedCorrections(before)
      case Correct(c, _) => if Stale(Run(before), c) then AcceptedCorrections(before) else [c] + AcceptedCorrections(before)
      case Restart => []
  }

  /** The first sequence recorded since the last restart, or 0. */
  function FirstRecorded(events: seq<Event>): nat {
    if events == [] then 0
    else
      var before := events[..|events| - 1];
      match events[|events| - 1]
      case Record(s, _, _) => if FirstRecorded(before) == 0 then s else FirstRecorded(before)
      case Correct(_, _) => FirstRecorded(before)
      case Restart => 0
  }

  /** Every input and correction of the run since the last restart used one map. */
  predicate OnOneMap(events: seq<Event>, tiles: TileMap) {
    events == [] ||
    var before := events[..|events| - 1];
    match events[|events| - 1]
    case Record(_, _, t) => t == tiles && OnOneMap(before, tiles)
    case Correct(_, t) => t == tiles && OnOneMap(before, tiles)
    case Restart => true
  }

  // ----- The invariant of every run -----

  /** `unacked` is the outstanding inputs, which are consecutive and end at `last`. */
  ghost predicate TracksOutstanding(m: Spec, inputs: seq<Input>) {
    && |inputs| == |m.unacked| <= m.last
    && forall i | 0 <= i < |inputs| :: inputs[i] == Input(m.last - |inputs| + 1 + i, m.unacked[i].buttons)
  }

  ghost predicate RunInv(events: seq<Event>) {
    var m := Run(events);
    var first := FirstRecorded(events);
    && SpecInv(m)
    && TracksOutstanding(m, Outstanding(events))
    && (m.last == 0 <==> first == 0)
    && (first != 0 ==> first <= m.last && |m.unacked| <= m.last - first + 1)
    && (first != 0 ==> |m.unacked| >= m.last - (if m.acked < first then first - 1 else if m.acked < m.last then m.acked else m.last))
    && (m.phase == Recovering ==> |m.unacked| >= m.last - m.catchUp)
    && (m.phase == AwaitingBaseline <==> AcceptedCorrections(events) == [])
    && (m.phase != AwaitingBaseline ==>
          var c := AcceptedCorrections(events)[0];
          m.acked == c.lastProcessedInputSeq && m.baseline.posQ == c.posQ && m.baseline.playerFlags == c.playerFlags)
  }

  lemma NewestOfLonger<T>(xs: seq<T>, m: nat)
    requires xs != [] && m > 0
    ensures Newest(xs, m) == Newest(xs[..|xs| - 1], m - 1) + [xs[|xs| - 1]]
  {
  }

  lemma {:induction false} NewerThanIsASuffix(inputs: seq<Input>, last: nat, k: nat)
    requires |inputs| <= last && forall i | 0 <= i < |inputs| :: inputs[i].s == last - |inputs| + 1 + i
    ensures NewerThan(inputs, k) == Newest(inputs, if k < last then last - k else 0)
    decreases |inputs|
  {
    if inputs != [] {
      var n := |inputs| - 1;
      NewerThanIsASuffix(inputs[..n], last - 1, k);
      if k < last {
        NewestOfLonger(inputs, last - k);
      }
    }
  }

  lemma {:induction false} EveryRunHolds(events: seq<Event>)
    ensures RunInv(events)
  {
    if events != [] {
      var before := events[..|events| - 1];
      EveryRunHolds(before);
      match events[|events| - 1]
      case Record(s, buttons, tiles) => RecordHolds(before, events);
      case Correct(c, tiles) => CorrectHolds(before, events, c, tiles);
      case Restart =>
    }
  }

  lemma RecordHolds(before: seq<Event>, events: seq<Event>)
    requires events != [] && before == events[..|events| - 1] && events[|events| - 1].Record? && RunInv(before)
    ensures RunInv(events)
  {
  }

  /** What a correction that is not stale does to the counters, in every branch. */
  lemma CorrectionShape(m: Spec, c: Correction, tiles: TileMap)
    requires SpecInv(m) && !Stale(m, c)
    ensures var m' := Corrected(m, c, tiles); var k := c.lastProcessedInputSeq;
      && SpecInv(m') && m'.last == m.last && m'.acked == k && m'.phase != AwaitingBaseline
      && m'.baseline.posQ == c.posQ && m'.baseline.playerFlags == c.playerFlags
      && (m'.unacked == After(m, k) || m'.unacked == OnMap(After(m, k), tiles))
      && (m'.phase == Recovering ==> m'.catchUp == m.last || (m.phase == Recovering && k < m.catchUp == m'.catchUp))
  {
    hide Simulate, ButtonsAtAck;
  }

  /** Acknowledging k drops the same inputs from both sides. */
  lemma AcknowledgedTracks(m: Spec, inputs: seq<Input>, k: nat, m': Spec)
    requires TracksOutstanding(m, inputs) && m'.last == m.last && |m'.unacked| == |After(m, k)|
    requires forall i | 0 <= i < |m'.unacked| :: m'.unacked[i].buttons == After(m, k)[i].buttons
    ensures TracksOutstanding(m', NewerThan(inputs, k))
  {
    NewerThanIsASuffix(inputs, m.last, k);
  }

  lemma CorrectHolds(before: seq<Event>, events: seq<Event>, c: Correction, tiles: TileMap)
    requires events != [] && before == events[..|events| - 1] && events[|events| - 1] == Correct(c, tiles) && RunInv(before)
    ensures RunInv(events)
  {
    hide Corrected, TracksOutstanding, NewerThan;
    var m := Run(before);
    assert Run(events) == Corrected(m, c, tiles);
    if Stale(m, c) {
      StaleIsIgnored(m, c, tiles);
    } else {
      CorrectionShape(m, c, tiles);
      AcknowledgedTracks(m, Outstanding(before), c.lastProcessedInputSeq, Run(events));
    }
  }

  lemma StaleIsIgnored(m: Spec, c: Correction, tiles: TileMap)
    requires Stale(m, c)
    ensures Corrected(m, c, tiles) == m
  {
  }

  // ----- What every run guarantees -----

  /** The outstanding inputs as steps on one map. */
  function StepsOn(inputs: seq<Input>, tiles: TileMap): seq<Step> {
    seq(|inputs|, i requires 0 <= i < |inputs| => Step(inputs[i].buttons, tiles))
  }

  ghost predicate AllOn(steps: seq<Step>, tiles: TileMap) {
    forall i | 0 <= i < |steps| :: steps[i].tiles == tiles
  }

  lemma {:induction false} ActiveStepsAreOnTheMap(events: seq<Event>, tiles: TileMap)
    requires OnOneMap(events, tiles)
    ensures Run(events).phase == Active ==> AllOn(Run(events).unacked, tiles)
  {
    if events != [] {
      hide Simulate;
      var before := events[..|events| - 1];
      if !events[|events| - 1].Restart? {
        ActiveStepsAreOnTheMap(before, tiles);
      }
    }
  }

  /**
   * Prediction is a fold. Over any run on one map, the presented state while Active is the baseline of the
   * last accepted correction advanced over every outstanding local input, and until replay is possible again
   * it is that authoritative state itself.
   */
  lemma PresentedIsTheFold(events: seq<Event>, tiles: TileMap)
    requires OnOneMap(events, tiles) && Run(events).phase != AwaitingBaseline
    ensures AcceptedCorrections(events) != []
    ensures var m := Run(events); var c := AcceptedCorrections(events)[0];
      exists facing: Byte ::
        m.Presented() == if m.phase == Active
                         then Fold(LocalPlayerState(c.posQ, facing, c.playerFlags), StepsOn(Outstanding(events), tiles))
                         else LocalPlayerState(c.posQ, facing, c.playerFlags)
  {
    EveryRunHolds(events);
    ActiveStepsAreOnTheMap(events, tiles);
    hide Simulate, StateAfter;
    var m, c := Run(events), AcceptedCorrections(events)[0];
    assert m.baseline == LocalPlayerState(c.posQ, m.baseline.buttons, c.playerFlags);
    if m.phase == Active {
      assert m.unacked == StepsOn(Outstanding(events), tiles);
    }
  }

  /**
   * Replay is all or nothing. A correction k that starts a replay of a non-empty suffix fails exactly when
   * more than 128 inputs are unacknowledged, or k + 1 precedes the first input recorded since the last
   * restart. A failure replays nothing and reports the whole suffix missing; a success replays all of it.
   */
  lemma ReplayIsAllOrNothing(events: seq<Event>, c: Correction, tiles: TileMap)
    requires !Stale(Run(events), c) && c.lastProcessedInputSeq < Run(events).last
    requires Run(events).phase == Recovering ==> c.lastProcessedInputSeq >= Run(events).catchUp
    ensures var m := Run(events); var k := c.lastProcessedInputSeq; var r := Report(m, c);
      var fails := m.last - k > 128 || k + 1 < FirstRecorded(events);
      && (Corrected(m, c, tiles).phase == Recovering <==> fails)
      && (Corrected(m, c, tiles).phase == Active <==> !fails)
      && r.replayedInputs == (if fails then 0 else m.last - k)
      && r.missingInputHistory == (if fails then m.last - k else 0)
      && r.recoveryTriggered == fails
  {
    EveryRunHolds(events);
    hide Simulate;
  }

  /** Once authority has caught up with everything recorded at the failure, only the ring size can stop recovery. */
  lemma RecoveryResolvesOnceCaughtUp(events: seq<Event>, c: Correction, tiles: TileMap)
    requires Run(events).phase == Recovering && !Stale(Run(events), c)
    ensures var m := Run(events); var k := c.lastProcessedInputSeq;
      Corrected(m, c, tiles).phase == Active <==> k >= m.catchUp && (m.last <= k || m.last - k <= HISTORY_SIZE)
    ensures Report(Run(events), c).recoveryResolved <==> Corrected(Run(events), c, tiles).phase == Active
  {
    EveryRunHolds(events);
    hide Simulate;
  }

  /**
   * A correction that matches the retained prediction, position and flags, on an unchanged map, leaves the
   * presented state exactly as it was.
   */
  lemma MatchingCorrectionChangesNothing(m: Spec, c: Correction, tiles: TileMap)
    requires SpecInv(m) && m.phase == Active && !Stale(m, c) && m.HasStateAt(c.lastProcessedInputSeq)
    requires m.StateAt(c.lastProcessedInputSeq).posQ == c.posQ
    requires m.StateAt(c.lastProcessedInputSeq).playerFlags == c.playerFlags
    requires AllOn(m.unacked, tiles)
    ensures var m' := Corrected(m, c, tiles);
      m'.phase == Active && m'.Presented() == m.Presented()
    ensures Report(m, c).correctionMatchedRetainedPrediction && Report(m, c).deltaManhattanQ == 0
  {
    var k := c.lastProcessedInputSeq;
    var n := |m.unacked| - (m.last - k);
    hide Simulate;
    assert OnMap(After(m, k), tiles) == m.unacked[n..];
    FoldSuffix(m.baseline, m.unacked, n, m.last - k);
  }

  // ----- Agreement with the server -----

  /** Both sides stepped alike: same buttons, same map, same speed. */
  ghost predicate SteppedAlike(steps: seq<Step>, drives: seq<Drive>, flags: Byte) {
    && |steps| == |drives|
    && forall i | 0 <= i < |steps| :: drives[i] == Drive(steps[i].buttons, steps[i].tiles, SpeedFor(flags))
  }

  lemma {:induction false} FoldIsTravel(base: LocalPlayerState, steps: seq<Step>, drives: seq<Drive>, n: nat)
    requires SteppedAlike(steps, drives, base.playerFlags) && n <= |steps|
    ensures StateAfter(base, steps, n).posQ == Travel(base.posQ, drives[..n])
    ensures StateAfter(base, steps, n).playerFlags == base.playerFlags
  {
    if n > 0 {
      hide StepMovementWithCollision;
      FoldIsTravel(base, steps, drives, n - 1);
      assert drives[..n][..n - 1] == drives[..n - 1];
    }
  }

  lemma {:induction false} TravelInTwoLegs(start: TilePos, drives: seq<Drive>, a: nat, n: nat)
    requires a + n <= |drives|
    ensures Travel(start, drives[..a + n]) == Travel(Travel(start, drives[..a]), drives[a..a + n])
  {
    if n > 0 {
      hide StepMovementWithCollision;
      TravelInTwoLegs(start, drives, a, n - 1);
      assert drives[..a + n][..a + n - 1] == drives[..a + n - 1];
      assert drives[a..a + n][..n - 1] == drives[a..a + n - 1];
    } else {
      assert drives[a..a] == [];
    }
  }

  /**
   * Prediction is exact. `drives` is what the server simulated for sequences 1, 2, ... If the client is Active
   * on a baseline the server really held, and both stepped alike since, then the correction for sequence k
   * carries the very position the client predicted there, and accepting it changes nothing.
   */
  lemma PredictionMatchesAuthority(m: Spec, spawn: TilePos, drives: seq<Drive>, k: nat, tiles: TileMap)
    requires SpecInv(m) && m.phase == Active && m.HasStateAt(k) && m.acked < k <= |drives|
    requires var b := m.last - |m.unacked|;
      && m.baseline.posQ == Travel(spawn, drives[..b])
      && SteppedAlike(m.unacked[..k - b], drives[b..k], m.baseline.playerFlags)
    requires AllOn(m.unacked, tiles)
    ensures m.StateAt(k).posQ == Travel(spawn, drives[..k])
    ensures var c := Correction(k, Travel(spawn, drives[..k]), m.baseline.playerFlags);
      && Report(m, c).correctionMatchedRetainedPrediction
      && Corrected(m, c, tiles).phase == Active
      && Corrected(m, c, tiles).Presented() == m.Presented()
  {
    hide Simulate, StepMovementWithCollision;
    var b := m.last - |m.unacked|;
    var n := k - b;
    FoldIsTravel(m.baseline, m.unacked[..n], drives[b..k], n);
    assert drives[b..k][..n] == drives[b..b + n];
    TravelInTwoLegs(spawn, drives, b, n);
    assert m.unacked == m.unacked[..n] + m.unacked[n..];
    FoldPrefix(m.baseline, m.unacked[..n], m.unacked[n..], n);
    MatchingCorrectionChangesNothing(m, Correction(k, Travel(spawn, drives[..k]), m.baseline.playerFlags), tiles);
  }
}
