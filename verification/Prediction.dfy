/**
 * Client-side prediction (Net/Client/ClientPrediction.h and .cpp), first as an unbounded specification that
 * keeps every unacknowledged input, then as whole runs of it. PredictionRings.dfy implements it on two
 * 128-slot rings.
 */
module Prediction {
  import opened Config
  import opened Tiles
  import opened Movement

  const FLAG_SPEED_BOOST: Byte := 0x20

  datatype LocalPlayerState = LocalPlayerState(posQ: TilePos, buttons: Byte, playerFlags: Byte)

  const NO_STATE := LocalPlayerState(TilePos(0, 0), 0, 0)

  datatype Phase = AwaitingBaseline | Active | Recovering

  /** The part of a correction message that prediction reads. */
  datatype Correction = Correction(lastProcessedInputSeq: nat, posQ: TilePos, playerFlags: Byte)

  function SpeedFor(playerFlags: Byte): int {
    if Held(playerFlags, FLAG_SPEED_BOOST) then SPEED_BOOST_PLAYER_SPEED_Q else PLAYER_SPEED_Q
  }

  function Simulate(base: LocalPlayerState, buttons: Byte, tiles: TileMap): LocalPlayerState {
    LocalPlayerState(
      StepMovementWithCollision(base.posQ, ButtonsToMoveX(buttons), ButtonsToMoveY(buttons), tiles,
                                SpeedFor(base.playerFlags)),
      buttons,
      base.playerFlags)
  }

  /** One unacknowledged local input and the map it was last simulated on. */
  datatype Step = Step(buttons: Byte, tiles: TileMap)

  /** The fold of the movement step over the first n steps. */
  function StateAfter(base: LocalPlayerState, steps: seq<Step>, n: nat): LocalPlayerState
    requires n <= |steps|
  {
    if n == 0 then base else Simulate(StateAfter(base, steps, n - 1), steps[n - 1].buttons, steps[n - 1].tiles)
  }

  function Fold(base: LocalPlayerState, steps: seq<Step>): LocalPlayerState {
    StateAfter(base, steps, |steps|)
  }

  lemma StateAfterOne(base: LocalPlayerState, steps: seq<Step>, n: nat)
    requires n < |steps|
    ensures StateAfter(base, steps, n + 1) == Simulate(StateAfter(base, steps, n), steps[n].buttons, steps[n].tiles)
  {
  }

  lemma FoldOfNothing(base: LocalPlayerState, steps: seq<Step>)
    requires steps == []
    ensures Fold(base, steps) == base
  {
  }

  lemma {:induction false} FoldPrefix(base: LocalPlayerState, steps: seq<Step>, more: seq<Step>, n: nat)
    requires n <= |steps|
    ensures StateAfter(base, steps + more, n) == StateAfter(base, steps, n)
  {
    hide Simulate, StateAfter;
    if n > 0 {
      FoldPrefix(base, steps, more, n - 1);
      StateAfterOne(base, steps, n - 1);
      StateAfterOne(base, steps + more, n - 1);
    } else {
      StateAfterNone(base, steps);
      StateAfterNone(base, steps + more);
    }
  }

  lemma {:induction false} FoldSuffix(base: LocalPlayerState, steps: seq<Step>, k: nat, n: nat)
    requires k + n <= |steps|
    ensures StateAfter(StateAfter(base, steps, k), steps[k..], n) == StateAfter(base, steps, k + n)
  {
    hide Simulate, StateAfter;
    if n > 0 {
      FoldSuffix(base, steps, k, n - 1);
      FoldSuffixStep(base, steps, k, n - 1);
    } else {
      StateAfterNone(StateAfter(base, steps, k), steps[k..]);
    }
  }

  lemma StateAfterNone(base: LocalPlayerState, steps: seq<Step>)
    ensures StateAfter(base, steps, 0) == base
  {
  }

  lemma FoldSuffixStep(base: LocalPlayerState, steps: seq<Step>, k: nat, n: nat)
    requires k + n < |steps|
    requires StateAfter(StateAfter(base, steps, k), steps[k..], n) == StateAfter(base, steps, k + n)
    ensures StateAfter(StateAfter(base, steps, k), steps[k..], n + 1) == StateAfter(base, steps, k + n + 1)
  {
    hide Simulate, StateAfter;
    StateAfterOne(StateAfter(base, steps, k), steps[k..], n);
    StateAfterOne(base, steps, k + n);
  }

  // ----- The specification -----

  /**
   * What prediction means without rings: `unacked` holds every accepted local input newer than the last
   * accepted acknowledgement, ending at sequence `last`. While Active the presented state is the fold of
   * those inputs over the baseline; otherwise it is the last authoritative state.
   */
  datatype Spec = Spec(
    phase: Phase,
    unacked: seq<Step>,
    last: nat,
    acked: nat,
    catchUp: nat,
    baseline: LocalPlayerState)
  {
    function Presented(): LocalPlayerState {
      if phase == Active then Fold(baseline, unacked) else baseline
    }

    /** The predicted state right after sequence s is still in the ring. */
    predicate HasStateAt(s: nat) {
      phase == Active && s <= last && last - s < |unacked| && last - s < HISTORY_SIZE
    }

    function StateAt(s: nat): LocalPlayerState
      requires HasStateAt(s)
    {
      StateAfter(baseline, unacked, |unacked| - (last - s))
    }

    /** Every input after k is still in the ring. */
    predicate CanReplayAfter(k: nat) {
      last <= k || (last - k <= |unacked| && last - k <= HISTORY_SIZE)
    }
  }

  const FRESH := Spec(AwaitingBaseline, [], 0, 0, 0, NO_STATE)

  ghost predicate SpecInv(m: Spec) {
    && |m.unacked| <= m.last
    && (m.phase == AwaitingBaseline ==> m.acked == 0 && m.catchUp == 0 && m.baseline == NO_STATE)
    && (m.phase == Active ==> m.catchUp == 0)
    && (m.phase == Recovering ==> m.acked < m.catchUp <= m.last)
  }

  predicate Accepts(m: Spec, s: nat) {
    s != 0 && (m.last == 0 || s == m.last + 1)
  }

  function Recorded(m: Spec, s: nat, buttons: Byte, tiles: TileMap): Spec {
    if Accepts(m, s) then m.(unacked := m.unacked + [Step(buttons, tiles)], last := s) else m
  }

  predicate Stale(m: Spec, c: Correction) {
    m.phase != AwaitingBaseline && c.lastProcessedInputSeq <= m.acked
  }

  /** The newest n entries. */
  function Newest<T>(xs: seq<T>, n: nat): (r: seq<T>)
    ensures |r| == if n < |xs| then n else |xs|
  {
    if n < |xs| then xs[|xs| - n..] else xs
  }

  /** The inputs newer than k. */
  function After(m: Spec, k: nat): seq<Step> {
    Newest(m.unacked, if k < m.last then m.last - k else 0)
  }

  /** A replay after k has at most the outstanding inputs to work with, and succeeds if it has them all and they fit. */
  lemma AfterFits(m: Spec, k: nat)
    requires SpecInv(m)
    ensures m.last <= k ==> After(m, k) == [] && m.CanReplayAfter(k)
    ensures k < m.last ==> |After(m, k)| <= m.last - k
    ensures k < m.last ==> (m.CanReplayAfter(k) <==> |After(m, k)| == m.last - k && |After(m, k)| <= HISTORY_SIZE)
  {
  }

  /** The same buttons, all simulated on the map of today. */
  function OnMap(steps: seq<Step>, tiles: TileMap): (r: seq<Step>)
    ensures |r| == |steps|
  {
    seq(|steps|, i requires 0 <= i < |steps| => steps[i].(tiles := tiles))
  }

  /** The buttons kept for facing: those predicted at the ack while active, none otherwise. */
  function ButtonsAtAck(m: Spec, k: nat): Byte {
    if m.HasStateAt(k) then m.StateAt(k).buttons else 0
  }

  function Corrected(m: Spec, c: Correction, tiles: TileMap): Spec {
    if Stale(m, c) then m
    else
      var k := c.lastProcessedInputSeq;
      var kept := m.(unacked := After(m, k), acked := k);
      var authority := LocalPlayerState(c.posQ, 0, c.playerFlags);
      if m.phase == Recovering && k < m.catchUp then kept.(baseline := authority)
      else if m.CanReplayAfter(k) then
        kept.(phase := Active, catchUp := 0, unacked := OnMap(After(m, k), tiles),
              baseline := authority.(buttons := ButtonsAtAck(m, k)))
      else kept.(phase := Recovering, catchUp := m.last, baseline := authority)
  }

  // ----- What one correction reports -----

  datatype CorrectionReplayResult = CorrectionReplayResult(
    ignoredStaleCorrection: bool,
    hadRetainedPredictedStateAtAck: bool,
    correctionMatchedRetainedPrediction: bool,
    recoveryTriggered: bool,
    recoveryRestarted: bool,
    recoveryResolved: bool,
    recoveryStillActive: bool,
    replayedInputs: nat,
    missingInputHistory: nat,
    remainingDeferredInputs: nat,
    recoveryCatchUpSeq: nat,
    deltaXQ: int,
    deltaYQ: int,
    deltaManhattanQ: nat)

  const NO_RESULT := CorrectionReplayResult(false, false, false, false, false, false, false, 0, 0, 0, 0, 0, 0, 0)

  function Abs(x: int): nat { if x < 0 then -x else x }

  /** The comparison against the prediction retained at the acknowledged sequence. */
  function Measured(m: Spec, c: Correction): CorrectionReplayResult {
    if !m.HasStateAt(c.lastProcessedInputSeq) then NO_RESULT
    else
      var p := m.StateAt(c.lastProcessedInputSeq).posQ;
      NO_RESULT.(hadRetainedPredictedStateAtAck := true,
                 deltaXQ := c.posQ.xQ - p.xQ, deltaYQ := c.posQ.yQ - p.yQ,
                 deltaManhattanQ := Abs(c.posQ.xQ - p.xQ) + Abs(c.posQ.yQ - p.yQ),
                 correctionMatchedRetainedPrediction := p == c.posQ)
  }

  /** How many inputs after k the input ring still holds. */
  function RetainedAfter(m: Spec, k: nat): nat {
    |Newest(After(m, k), HISTORY_SIZE)|
  }

  function Report(m: Spec, c: Correction): CorrectionReplayResult {
    var k := c.lastProcessedInputSeq;
    if Stale(m, c) then
      NO_RESULT.(ignoredStaleCorrection := true, recoveryStillActive := m.phase == Recovering, recoveryCatchUpSeq := m.catchUp)
    else if m.phase == Recovering && k < m.catchUp then
      NO_RESULT.(recoveryStillActive := true, remainingDeferredInputs := RetainedAfter(m, k), recoveryCatchUpSeq := m.catchUp)
    else if m.CanReplayAfter(k) then
      Measured(m, c).(replayedInputs := if k < m.last then m.last - k else 0, recoveryResolved := m.phase == Recovering)
    else
      Measured(m, c).(recoveryTriggered := true, recoveryRestarted := m.phase == Recovering, recoveryStillActive := true,
                      missingInputHistory := m.last - k, remainingDeferredInputs := RetainedAfter(m, k),
                      recoveryCatchUpSeq := m.last)
  }
}
