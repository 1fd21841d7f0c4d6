/** Prediction on two 128-slot rings (Net/Client/ClientPrediction.cpp), refining the unbounded specification. */
module PredictionRings {
  import opened Config
  import opened Tiles
  import opened Movement
  import opened Prediction
  import opened Ring

  function ButtonsOf(steps: seq<Step>): seq<Byte> {
    seq(|steps|, i requires 0 <= i < |steps| => steps[i].buttons)
  }

  /** The predicted state after each of the steps. */
  function StatesOf(base: LocalPlayerState, steps: seq<Step>): (r: seq<LocalPlayerState>)
    ensures |r| == |steps|
  {
    seq(|steps|, i requires 0 <= i < |steps| => StateAfter(base, steps, i + 1))
  }

  // ----- A ring that keeps the newest entries of an unbounded history -----

  ghost predicate KeepsNewest<T>(ring: seq<Entry<T>>, xs: seq<T>, last: nat) {
    |xs| <= last && Retains(ring, last - |Newest(xs, HISTORY_SIZE)|, Newest(xs, HISTORY_SIZE))
  }

  lemma StoreNewest<T>(ring: seq<Entry<T>>, xs: seq<T>, last: nat, v: T)
    requires KeepsNewest(ring, xs, last)
    ensures KeepsNewest(ring[Slot(last + 1) := Entry(last + 1, v, true)], xs + [v], last + 1)
  {
    hide Retains, Slot;
    var kept := Newest(xs, HISTORY_SIZE);
    Store(ring, last - |kept|, kept, v);
    assert Newest(xs + [v], HISTORY_SIZE) == if |kept| < HISTORY_SIZE then kept + [v] else kept[1..] + [v];
  }

  lemma NewestTwice<T>(xs: seq<T>, a: nat, b: nat)
    ensures Newest(Newest(xs, a), b) == Newest(xs, if a < b then a else b)
  {
  }

  lemma NewestTail<T>(xs: seq<T>, a: nat, n: nat)
    requires n <= |Newest(xs, a)|
    ensures Newest(xs, a)[n..] == Newest(xs, |Newest(xs, a)| - n)
  {
  }

  /** Keeping m of all entries and then what fits the ring, or dropping from the front of the ring: the same. */
  lemma NewestCommutes<T>(xs: seq<T>, m: nat, n: nat)
    requires var kept := |Newest(xs, HISTORY_SIZE)|; n == if m < kept then kept - m else 0
    ensures Newest(Newest(xs, m), HISTORY_SIZE) == Newest(xs, HISTORY_SIZE)[n..]
  {
    NewestTwice(xs, m, HISTORY_SIZE);
    NewestTail(xs, HISTORY_SIZE, n);
  }

  lemma DropNewest<T>(ring: seq<Entry<T>>, xs: seq<T>, last: nat, k: nat)
    requires KeepsNewest(ring, xs, last)
    ensures KeepsNewest(Without(ring, 0, k), Newest(xs, if k < last then last - k else 0), last)
  {
    var kept := Newest(xs, HISTORY_SIZE);
    var m := if k < last then last - k else 0;
    var n := if m < |kept| then |kept| - m else 0;
    NewestCommutes(xs, m, n);
    var lo: nat := last - |kept|;
    DropUpTo(ring, lo, kept, k);
    assert n == if k <= lo then 0 else if k - lo < |kept| then k - lo else |kept|;
    assert |kept[n..]| == |kept| - n && lo + n == last - |kept[n..]|;
  }

  lemma ForgetAll<T>(ring: seq<Entry<T>>, xs: seq<T>, last: nat, first: nat)
    requires KeepsNewest(ring, xs, last) && first + |xs| <= last + 1
    ensures KeepsNewest(Without(ring, first, last), [], last)
  {
    var kept := Newest(xs, HISTORY_SIZE);
    DropAll(ring, last - |kept|, kept, first, last);
    EmptyAnywhere(Without(ring, first, last), last - |kept|, last);
  }

  lemma FindNewest<T>(ring: seq<Entry<T>>, xs: seq<T>, last: nat, s: nat)
    requires KeepsNewest(ring, xs, last)
    ensures Finds(ring, s) <==> s <= last && last - s < |xs| && last - s < HISTORY_SIZE
    ensures Finds(ring, s) ==> ring[Slot(s)].value == xs[|xs| - 1 - (last - s)]
  {
    var kept := Newest(xs, HISTORY_SIZE);
    FindsExactlyTheRun(ring, last - |kept|, kept, s);
  }

  lemma RunIsNewest<T>(ring: seq<Entry<T>>, vals: seq<T>, lo: nat, last: nat)
    requires Retains(ring, lo, vals) && lo + |vals| == last
    ensures KeepsNewest(ring, vals, last)
  {
    assert Newest(vals, HISTORY_SIZE) == vals;
  }

  /** All of a replayed run, or none of it, as the newest entries of a history. */
  lemma ReplayIsNewest<T>(ring: seq<Entry<T>>, vals: seq<T>, lo: nat, n: nat, last: nat)
    requires n <= |vals| && Retains(ring, lo, vals[..n])
    requires n == 0 || (n == |vals| && lo + n == last)
    ensures KeepsNewest(ring, if n == 0 then [] else vals, last)
  {
    if n == 0 {
      assert vals[..n] == [];
      EmptyAnywhere(ring, lo, last);
    } else {
      assert vals[..n] == vals;
      RunIsNewest(ring, vals, lo, last);
    }
  }

  lemma CountNewest<T>(ring: seq<Entry<T>>, xs: seq<T>, last: nat, k: nat)
    requires KeepsNewest(ring, xs, last) && k <= last && |xs| <= last - k
    ensures |NewerSlots(ring, k, HISTORY_SIZE)| == |Newest(xs, HISTORY_SIZE)|
  {
    CountNewer(ring, last - |Newest(xs, HISTORY_SIZE)|, Newest(xs, HISTORY_SIZE), k);
  }

  method InvalidateRange<T>(ring: array<Entry<T>>, first: nat, last: nat)
    modifies ring
    ensures ring[..] == Without(old(ring[..]), first, last)
  {
    for i := 0 to ring.Length
      invariant forall j | 0 <= j < i :: ring[j] == Without(old(ring[..]), first, last)[j]
      invariant forall j | i <= j < ring.Length :: ring[j] == old(ring[j])
    {
      if ring[i].valid && first <= ring[i].s <= last {
        ring[i] := ring[i].(valid := false);
      }
    }
  }

  method StoreHistory<T>(ring: array<Entry<T>>, s: nat, value: T)
    requires ring.Length == HISTORY_SIZE
    modifies ring
    ensures ring[..] == old(ring[..])[Slot(s) := Entry(s, value, true)]
  {
    ring[s % HISTORY_SIZE] := Entry(s, value, true);
  }

  /** The client's prediction object. */
  class ClientPrediction {
    const inputHistory: array<Entry<Byte>>
    const stateHistory: array<Entry<LocalPlayerState>>
    var currentState: LocalPlayerState
    var lastRecordedInputSeq: nat
    var lastAuthoritativeInputSeq: nat
    var recoveryCatchUpSeq: nat
    var phase: Phase
    ghost var model: Spec

    ghost predicate Valid()
      reads this, inputHistory, stateHistory
    {
      && inputHistory.Length == HISTORY_SIZE && stateHistory.Length == HISTORY_SIZE
      && inputHistory as object != stateHistory as object
      && SpecInv(model)
      && phase == model.phase
      && lastRecordedInputSeq == model.last
      && lastAuthoritativeInputSeq == model.acked
      && recoveryCatchUpSeq == model.catchUp
      && currentState == model.Presented()
      && KeepsNewest(inputHistory[..], ButtonsOf(model.unacked), model.last)
      && KeepsNewest(stateHistory[..], if model.phase == Active then StatesOf(model.baseline, model.unacked) else [], model.last)
    }

    constructor ()
      ensures Valid() && model == FRESH && fresh(inputHistory) && fresh(stateHistory)
    {
      inputHistory := new Entry<Byte>[HISTORY_SIZE](_ => Entry(0, 0, false));
      stateHistory := new Entry<LocalPlayerState>[HISTORY_SIZE](_ => Entry(0, NO_STATE, false));
      currentState := NO_STATE;
      lastRecordedInputSeq, lastAuthoritativeInputSeq, recoveryCatchUpSeq := 0, 0, 0;
      phase := AwaitingBaseline;
      model := FRESH;
    }

    /** Drops all history and waits for the next baseline. */
    method Suspend()
      requires Valid()
      modifies this, inputHistory, stateHistory
      ensures Valid() && model == FRESH
    {
      phase := AwaitingBaseline;
      lastRecordedInputSeq, lastAuthoritativeInputSeq, recoveryCatchUpSeq := 0, 0, 0;
      currentState := NO_STATE;
      forall i | 0 <= i < HISTORY_SIZE { inputHistory[i] := Entry(0, 0, false); }
      forall i | 0 <= i < HISTORY_SIZE { stateHistory[i] := Entry(0, NO_STATE, false); }
      model := FRESH;
    }

    /** Records one local input and simulates it at once while prediction is active. */
    method ApplyLocalInput(inputSeq: nat, buttons: Byte, tiles: TileMap) returns (accepted: bool)
      requires Valid()
      modifies this, inputHistory, stateHistory
      ensures Valid() && model == Recorded(old(model), inputSeq, buttons, tiles)
      ensures accepted == Accepts(old(model), inputSeq)
    {
      if inputSeq == 0 {
        return false;
      }
      if lastRecordedInputSeq != 0 && inputSeq != lastRecordedInputSeq + 1 {
        return false;
      }
      hide Retains, Simulate, StateAfter;
      StartAnywhere(inputSeq);
      RecordOne(inputSeq, buttons);
      lastRecordedInputSeq := inputSeq;
      if phase != Active {
        EmptyAnywhere(stateHistory[..], inputSeq - 1, inputSeq);
      } else {
        PredictOne(inputSeq, buttons, tiles);
      }
      GrowsByOne(model.unacked, Step(buttons, tiles));
      model := Recorded(model, inputSeq, buttons, tiles);
      accepted := true;
    }

    /** Stores one contiguous local input in the input ring. */
    method RecordOne(inputSeq: nat, buttons: Byte)
      requires inputHistory.Length == HISTORY_SIZE && inputSeq > 0
      requires KeepsNewest(inputHistory[..], ButtonsOf(model.unacked), inputSeq - 1)
      modifies inputHistory
      ensures KeepsNewest(inputHistory[..], ButtonsOf(model.unacked) + [buttons], inputSeq)
    {
      hide KeepsNewest;
      StoreNewest(inputHistory[..], ButtonsOf(model.unacked), inputSeq - 1, buttons);
      StoreHistory(inputHistory, inputSeq, buttons);
    }

    /** Simulates the newest input on top of the presented state and keeps its post-state. */
    method PredictOne(inputSeq: nat, buttons: Byte, tiles: TileMap)
      requires stateHistory.Length == HISTORY_SIZE && inputSeq > 0
      requires currentState == Fold(model.baseline, model.unacked)
      requires KeepsNewest(stateHistory[..], StatesOf(model.baseline, model.unacked), inputSeq - 1)
      modifies this`currentState, stateHistory
      ensures currentState == Fold(model.baseline, model.unacked + [Step(buttons, tiles)])
      ensures KeepsNewest(stateHistory[..], StatesOf(model.baseline, model.unacked + [Step(buttons, tiles)]), inputSeq)
    {
      hide Retains, StepMovementWithCollision;
      StatesGrow(model.baseline, model.unacked, Step(buttons, tiles));
      currentState := Simulate(currentState, buttons, tiles);
      StoreNewest(stateHistory[..], StatesOf(model.baseline, model.unacked), inputSeq - 1, currentState);
      StoreHistory(stateHistory, inputSeq, currentState);
    }

    /** Before the first input the rings are empty, so the timeline may start at any sequence. */
    lemma StartAnywhere(inputSeq: nat)
      requires Valid() && Accepts(model, inputSeq)
      ensures KeepsNewest(inputHistory[..], ButtonsOf(model.unacked), inputSeq - 1)
      ensures KeepsNewest(stateHistory[..], if model.phase == Active then StatesOf(model.baseline, model.unacked) else [], inputSeq - 1)
    {
      hide Retains;
      if model.last == 0 {
        EmptyAnywhere(inputHistory[..], 0, inputSeq - 1);
        EmptyAnywhere(stateHistory[..], 0, inputSeq - 1);
      } else if model.phase != Active {
        EmptyAnywhere(stateHistory[..], model.last, inputSeq - 1);
      }
    }

    // ----- Corrections -----

    /** Compares a correction with the predicted state retained at the acknowledged sequence. */
    method MeasureCorrectionAtAck(c: Correction) returns (predictedButtons: Byte, result: CorrectionReplayResult)
      requires Valid()
      ensures predictedButtons == ButtonsAtAck(model, c.lastProcessedInputSeq)
      ensures result == Measured(model, c)
    {
      hide Retains, Simulate;
      predictedButtons, result := 0, NO_RESULT;
      var k := c.lastProcessedInputSeq;
      FindNewest(stateHistory[..], if model.phase == Active then StatesOf(model.baseline, model.unacked) else [], model.last, k);
      assert Finds(stateHistory[..], k) <==> model.HasStateAt(k);
      var slot := stateHistory[k % HISTORY_SIZE];
      if slot.valid && slot.s == k {
        assert slot.value == model.StateAt(k);
        predictedButtons := slot.value.buttons;
        var dx, dy := c.posQ.xQ - slot.value.posQ.xQ, c.posQ.yQ - slot.value.posQ.yQ;
        result := result.(hadRetainedPredictedStateAtAck := true, deltaXQ := dx, deltaYQ := dy,
                          deltaManhattanQ := Abs(dx) + Abs(dy),
                          correctionMatchedRetainedPrediction :=
                            slot.value.posQ.xQ == c.posQ.xQ && slot.value.posQ.yQ == c.posQ.yQ);
      }
    }

    /** Counts the retained local inputs newer than k. */
    method CountRetainedInputSuffixAfter(k: nat) returns (count: nat)
      requires inputHistory.Length == HISTORY_SIZE
      ensures count == |NewerSlots(inputHistory[..], k, HISTORY_SIZE)|
    {
      count := 0;
      ghost var ring := inputHistory[..];
      for i := 0 to HISTORY_SIZE
        invariant count == |NewerSlots(ring, k, i)|
      {
        if inputHistory[i].valid && inputHistory[i].s > k {
          assert NewerSlots(ring, k, i + 1) == NewerSlots(ring, k, i) + {i};
          count := count + 1;
        } else {
          assert NewerSlots(ring, k, i + 1) == NewerSlots(ring, k, i);
        }
      }
    }

    /** The first n of the replayed steps have been simulated and their post-states stored. */
    ghost predicate ReplayedSoFar(k: nat, base: LocalPlayerState, replayed: seq<Step>, n: nat)
      reads this, stateHistory
    {
      && n <= |replayed|
      && currentState == StateAfter(base, replayed, n)
      && Retains(stateHistory[..], k, StatesOf(base, replayed)[..n])
    }

    /**
     * The replay loop. It succeeds exactly when the ring still holds every input after k; otherwise the very
     * first lookup fails, nothing has been simulated and nothing stored.
     */
    method ReplayLoop(k: nat, tiles: TileMap, ghost steps: seq<Step>) returns (ok: bool, replayedInputs: nat, missing: nat)
      requires inputHistory.Length == HISTORY_SIZE && stateHistory.Length == HISTORY_SIZE
      requires inputHistory as object != stateHistory as object
      requires k < lastRecordedInputSeq && |steps| <= lastRecordedInputSeq - k
      requires KeepsNewest(inputHistory[..], ButtonsOf(steps), lastRecordedInputSeq)
      requires Retains(stateHistory[..], k, [])
      modifies this`currentState, stateHistory
      ensures ok <==> |steps| == lastRecordedInputSeq - k && |steps| <= HISTORY_SIZE
      ensures ReplayedSoFar(k, old(currentState), OnMap(steps, tiles), replayedInputs)
      ensures replayedInputs == if ok then |steps| else 0
      ensures missing == if ok then 0 else lastRecordedInputSeq - k
    {
      hide Retains;
      replayedInputs, missing := 0, 0;
      ghost var base, replayed := currentState, OnMap(steps, tiles);
      var s := k + 1;
      while s <= lastRecordedInputSeq
        invariant k < s <= lastRecordedInputSeq + 1 && replayedInputs == s - 1 - k
        invariant s > k + 1 ==> |steps| == lastRecordedInputSeq - k && |steps| <= HISTORY_SIZE
        invariant ReplayedSoFar(k, base, replayed, replayedInputs)
      {
        var found, buttons := FindInput(s, steps);
        if !found {
          missing := lastRecordedInputSeq - s + 1;
          return false, replayedInputs, missing;
        }
        ReplayOne(k, s, buttons, tiles, base, replayed);
        replayedInputs := replayedInputs + 1;
        s := s + 1;
      }
      ok := true;
    }

    method ReplayRetainedInputSuffixAfter(k: nat, tiles: TileMap, ghost steps: seq<Step>, before: CorrectionReplayResult)
      returns (ok: bool, result: CorrectionReplayResult)
      requires inputHistory.Length == HISTORY_SIZE && stateHistory.Length == HISTORY_SIZE
      requires inputHistory as object != stateHistory as object
      requires k < lastRecordedInputSeq && |steps| <= lastRecordedInputSeq - k
      requires KeepsNewest(inputHistory[..], ButtonsOf(steps), lastRecordedInputSeq)
      requires Retains(stateHistory[..], k, []) && before.replayedInputs == 0 && before.remainingDeferredInputs == 0
      modifies this`currentState, stateHistory
      ensures ok <==> |steps| == lastRecordedInputSeq - k && |steps| <= HISTORY_SIZE
      ensures ReplayedSoFar(k, old(currentState), OnMap(steps, tiles), if ok then |steps| else 0)
      ensures ok ==> result == before.(replayedInputs := |steps|)
      ensures !ok ==> result == before.(missingInputHistory := lastRecordedInputSeq - k,
                                        remainingDeferredInputs := |Newest(steps, HISTORY_SIZE)|)
    {
      var replayedInputs, missing;
      ok, replayedInputs, missing := ReplayLoop(k, tiles, steps);
      result := before.(replayedInputs := replayedInputs);
      if !ok {
        CountNewest(inputHistory[..], ButtonsOf(steps), lastRecordedInputSeq, k);
        var remaining := CountRetainedInputSuffixAfter(k);
        result := result.(missingInputHistory := missing, remainingDeferredInputs := remaining);
      }
    }

    /** Looks a sequence up in the input ring. */
    method FindInput(s: nat, ghost steps: seq<Step>) returns (found: bool, buttons: Byte)
      requires KeepsNewest(inputHistory[..], ButtonsOf(steps), lastRecordedInputSeq)
      requires 0 < s <= lastRecordedInputSeq
      ensures found <==> lastRecordedInputSeq - s < |steps| && lastRecordedInputSeq - s < HISTORY_SIZE
      ensures found ==> buttons == steps[|steps| - 1 - (lastRecordedInputSeq - s)].buttons
    {
      FindNewest(inputHistory[..], ButtonsOf(steps), lastRecordedInputSeq, s);
      var entry := inputHistory[s % HISTORY_SIZE];
      found, buttons := entry.valid && entry.s == s, entry.value;
    }

    method ReplayOne(ghost k: nat, s: nat, buttons: Byte, tiles: TileMap, ghost base: LocalPlayerState, ghost replayed: seq<Step>)
      requires stateHistory.Length == HISTORY_SIZE && k < s <= k + |replayed| && |replayed| <= HISTORY_SIZE
      requires replayed[s - 1 - k] == Step(buttons, tiles)
      requires ReplayedSoFar(k, base, replayed, s - 1 - k)
      modifies this`currentState, stateHistory
      ensures ReplayedSoFar(k, base, replayed, s - k)
    {
      hide Simulate, Retains, Slot, StateAfter;
      StateAfterOne(base, replayed, s - 1 - k);
      currentState := Simulate(currentState, buttons, tiles);
      ghost var vals := StatesOf(base, replayed);
      assert vals[..s - k] == vals[..s - 1 - k] + [currentState];
      Store(stateHistory[..], k, vals[..s - 1 - k], currentState);
      StoreHistory(stateHistory, s, currentState);
    }

    /** Mid-correction: the acknowledgement k of m0 has been applied to the input ring. */
    ghost predicate Acknowledged(m0: Spec, k: nat)
      reads this, inputHistory, stateHistory
    {
      && inputHistory.Length == HISTORY_SIZE && stateHistory.Length == HISTORY_SIZE
      && inputHistory as object != stateHistory as object
      && SpecInv(m0) && !(m0.phase != AwaitingBaseline && k <= m0.acked)
      && lastRecordedInputSeq == m0.last && lastAuthoritativeInputSeq == k
      && KeepsNewest(inputHistory[..], ButtonsOf(After(m0, k)), m0.last)
    }

    ghost predicate StatesAre(xs: seq<LocalPlayerState>)
      reads this, stateHistory
    {
      KeepsNewest(stateHistory[..], xs, lastRecordedInputSeq)
    }

    method SetCurrentAuthoritativeState(posQ: TilePos, buttons: Byte, playerFlags: Byte)
      modifies this`currentState
      ensures currentState == LocalPlayerState(posQ, buttons, playerFlags)
    {
      currentState := LocalPlayerState(posQ, buttons, playerFlags);
    }

    method InvalidateStateHistoryRange(first: nat, last: nat)
      modifies stateHistory
      ensures stateHistory[..] == if first == 0 || last < first then old(stateHistory[..])
                                  else Without(old(stateHistory[..]), first, last)
    {
      if first == 0 || last < first {
        return;
      }
      InvalidateRange(stateHistory, first, last);
    }

    /** Drops both histories up to an acknowledged sequence. */
    method DiscardAcknowledgedHistory(k: nat, ghost steps: seq<Step>, ghost states: seq<LocalPlayerState>)
      requires inputHistory.Length == HISTORY_SIZE && stateHistory.Length == HISTORY_SIZE
      requires inputHistory as object != stateHistory as object
      requires KeepsNewest(inputHistory[..], ButtonsOf(steps), lastRecordedInputSeq) && StatesAre(states)
      modifies inputHistory, stateHistory
      ensures var n := if k < lastRecordedInputSeq then lastRecordedInputSeq - k else 0;
        && KeepsNewest(inputHistory[..], ButtonsOf(Newest(steps, n)), lastRecordedInputSeq)
        && StatesAre(Newest(states, n))
    {
      hide Retains;
      ghost var n := if k < lastRecordedInputSeq then lastRecordedInputSeq - k else 0;
      assert ButtonsOf(Newest(steps, n)) == Newest(ButtonsOf(steps), n);
      if k == 0 {
        return;
      }
      DropNewest(inputHistory[..], ButtonsOf(steps), lastRecordedInputSeq, k);
      DropNewest(stateHistory[..], states, lastRecordedInputSeq, k);
      InvalidateRange(inputHistory, 0, k);
      InvalidateRange(stateHistory, 0, k);
    }

    /** Applies the correction baseline and replays the retained inputs after it. */
    method ReplayFromAuthoritativeBaseline(c: Correction, buttons: Byte, tiles: TileMap, before: CorrectionReplayResult,
                                           ghost m0: Spec, ghost states: seq<LocalPlayerState>)
      returns (ok: bool, result: CorrectionReplayResult)
      requires Acknowledged(m0, c.lastProcessedInputSeq) && StatesAre(states)
      requires |states| <= |After(m0, c.lastProcessedInputSeq)|
      requires before.replayedInputs == 0 && before.remainingDeferredInputs == 0 && !before.recoveryStillActive
      modifies this`currentState, stateHistory
      ensures ok <==> m0.CanReplayAfter(c.lastProcessedInputSeq)
      ensures Rebuilt(LocalPlayerState(c.posQ, buttons, c.playerFlags), OnMap(After(m0, c.lastProcessedInputSeq), tiles), ok)
      ensures result == if ok then before.(replayedInputs := |After(m0, c.lastProcessedInputSeq)|)
                        else before.(missingInputHistory := m0.last - c.lastProcessedInputSeq,
                                     remainingDeferredInputs := RetainedAfter(m0, c.lastProcessedInputSeq))
    {
      hide Retains, Simulate, SpecInv, After, Spec.CanReplayAfter, Newest;
      SetCurrentAuthoritativeState(c.posQ, buttons, c.playerFlags);
      var k := c.lastProcessedInputSeq;
      ghost var steps := After(m0, k);
      AfterFits(m0, k);
      if lastRecordedInputSeq <= k {
        NothingReplayed(OnMap(steps, tiles), states);
        ok, result := true, before.(recoveryStillActive := false);
      } else {
        ok, result := ReplaySuffix(k, tiles, steps, states, before);
      }
    }

    /** After a replay attempt: the whole prediction rebuilt on a new baseline, or an empty state ring. */
    ghost predicate Rebuilt(base: LocalPlayerState, steps: seq<Step>, ok: bool)
      reads this, stateHistory
    {
      StatesAre(if ok then StatesOf(base, steps) else []) && (ok ==> currentState == Fold(base, steps))
    }

    lemma NothingReplayed(steps: seq<Step>, states: seq<LocalPlayerState>)
      requires StatesAre(states) && states == [] && steps == []
      ensures Rebuilt(currentState, steps, true)
    {
      hide KeepsNewest;
      FoldOfNothing(currentState, steps);
      assert StatesOf(currentState, steps) == [];
    }

    method ForgetPredictionsAfter(k: nat, ghost states0: seq<LocalPlayerState>)
      requires k < lastRecordedInputSeq && StatesAre(states0) && |states0| <= lastRecordedInputSeq - k
      modifies stateHistory
      ensures Retains(stateHistory[..], k, [])
    {
      ForgetAll(stateHistory[..], states0, lastRecordedInputSeq, k + 1);
      InvalidateStateHistoryRange(k + 1, lastRecordedInputSeq);
      EmptyAnywhere(stateHistory[..], lastRecordedInputSeq, k);
    }

    method ReplaySuffix(k: nat, tiles: TileMap, ghost steps: seq<Step>, ghost states0: seq<LocalPlayerState>,
                        before: CorrectionReplayResult)
      returns (ok: bool, result: CorrectionReplayResult)
      requires inputHistory.Length == HISTORY_SIZE && stateHistory.Length == HISTORY_SIZE
      requires inputHistory as object != stateHistory as object
      requires k < lastRecordedInputSeq && |steps| <= lastRecordedInputSeq - k
      requires KeepsNewest(inputHistory[..], ButtonsOf(steps), lastRecordedInputSeq)
      requires StatesAre(states0) && |states0| <= |steps|
      requires before.replayedInputs == 0 && before.remainingDeferredInputs == 0
      modifies this`currentState, stateHistory
      ensures ok <==> |steps| == lastRecordedInputSeq - k && |steps| <= HISTORY_SIZE
      ensures Rebuilt(old(currentState), OnMap(steps, tiles), ok)
      ensures result == if ok then before.(replayedInputs := |steps|)
                        else before.(missingInputHistory := lastRecordedInputSeq - k,
                                     remainingDeferredInputs := |Newest(steps, HISTORY_SIZE)|)
    {
      hide Retains, Simulate, StateAfter, KeepsNewest, Newest, StatesOf, OnMap, ButtonsOf;
      ForgetPredictionsAfter(k, states0);
      ghost var states := StatesOf(currentState, OnMap(steps, tiles));
      ok, result := ReplayRetainedInputSuffixAfter(k, tiles, steps, before);
      ReplayIsNewest(stateHistory[..], states, k, if ok then |steps| else 0, lastRecordedInputSeq);
    }

    /** Replay failed: present authority and wait until it has caught up with everything recorded. */
    method EnterRecoveryFromReplayFailure(c: Correction, before: CorrectionReplayResult, wasRecovering: bool, ghost m0: Spec)
      returns (result: CorrectionReplayResult)
      requires Acknowledged(m0, c.lastProcessedInputSeq) && StatesAre([]) && c.lastProcessedInputSeq < m0.last
      modifies this`currentState, this`phase, this`recoveryCatchUpSeq, stateHistory
      ensures Acknowledged(m0, c.lastProcessedInputSeq) && StatesAre([])
      ensures currentState == LocalPlayerState(c.posQ, 0, c.playerFlags)
      ensures phase == Recovering && recoveryCatchUpSeq == m0.last
      ensures result == before.(recoveryTriggered := true, recoveryRestarted := wasRecovering, recoveryStillActive := true,
                                remainingDeferredInputs := RetainedAfter(m0, c.lastProcessedInputSeq),
                                recoveryCatchUpSeq := m0.last)
    {
      hide Retains, Simulate;
      var k := c.lastProcessedInputSeq;
      SetCurrentAuthoritativeState(c.posQ, 0, c.playerFlags);
      ForgetAll(stateHistory[..], [], lastRecordedInputSeq, k + 1);
      InvalidateStateHistoryRange(k + 1, lastRecordedInputSeq);
      phase := Recovering;
      recoveryCatchUpSeq := lastRecordedInputSeq;
      CountNewest(inputHistory[..], ButtonsOf(After(m0, k)), lastRecordedInputSeq, k);
      var remaining := CountRetainedInputSuffixAfter(k);
      result := before.(recoveryTriggered := true, recoveryRestarted := wasRecovering, recoveryStillActive := true,
                        remainingDeferredInputs := remaining, recoveryCatchUpSeq := recoveryCatchUpSeq);
    }

    /** Replays from a correction and falls back to recovery when that fails: all three handlers end this way. */
    method ReplayOrRecover(c: Correction, buttons: Byte, tiles: TileMap, before: CorrectionReplayResult,
                           ghost states: seq<LocalPlayerState>)
      returns (ok: bool, result: CorrectionReplayResult)
      requires Acknowledged(model, c.lastProcessedInputSeq) && StatesAre(states) && !Stale(model, c)
      requires |states| <= |After(model, c.lastProcessedInputSeq)|
      requires model.phase == Recovering ==> c.lastProcessedInputSeq >= model.catchUp
      requires buttons == ButtonsAtAck(model, c.lastProcessedInputSeq)
      requires before == Measured(model, c) && phase == model.phase && recoveryCatchUpSeq == model.catchUp
      modifies this, stateHistory
      ensures Valid() && model == Corrected(old(model), c, tiles)
      ensures ok == old(model).CanReplayAfter(c.lastProcessedInputSeq)
      ensures result == if ok then Report(old(model), c).(recoveryResolved := false) else Report(old(model), c)
    {
      hide Retains, Simulate, KeepsNewest, Corrected, Report, Measured, ButtonsAtAck;
      ghost var m0 := model;
      if m0.CanReplayAfter(c.lastProcessedInputSeq) {
        AfterReplay(m0, c, tiles);
      } else {
        AfterFailure(m0, c, tiles);
      }
      MeasuredIsPlain(m0, c);
      ok, result := ReplayFromAuthoritativeBaseline(c, buttons, tiles, before, m0, states);
      if ok {
        phase := Active;
        recoveryCatchUpSeq := 0;
        SameButtons(After(m0, c.lastProcessedInputSeq), tiles);
      } else {
        result := EnterRecoveryFromReplayFailure(c, result, phase == Recovering, m0);
      }
      model := Corrected(m0, c, tiles);
    }

    /** The first correction seeds prediction from a real baseline. */
    method HandleAwaitingBaselineCorrection(c: Correction, tiles: TileMap, before: CorrectionReplayResult)
      returns (result: CorrectionReplayResult)
      requires Valid() && model.phase == AwaitingBaseline && before == Measured(model, c)
      modifies this, inputHistory, stateHistory
      ensures Valid() && model == Corrected(old(model), c, tiles) && result == Report(old(model), c)
    {
      hide Retains, Simulate;
      lastAuthoritativeInputSeq := c.lastProcessedInputSeq;
      DiscardAcknowledgedHistory(c.lastProcessedInputSeq, model.unacked, []);
      var ok;
      ok, result := ReplayOrRecover(c, 0, tiles, before, []);
    }

    /** While recovering, authority is only presented until it has caught up with the unresolved suffix. */
    method HandleRecoveringCorrection(c: Correction, tiles: TileMap, before: CorrectionReplayResult)
      returns (result: CorrectionReplayResult)
      requires Valid() && model.phase == Recovering && !Stale(model, c) && before == Measured(model, c)
      modifies this, inputHistory, stateHistory
      ensures Valid() && model == Corrected(old(model), c, tiles) && result == Report(old(model), c)
    {
      hide Retains, Simulate;
      var k := c.lastProcessedInputSeq;
      lastAuthoritativeInputSeq := k;
      DiscardAcknowledgedHistory(k, model.unacked, []);
      if k < recoveryCatchUpSeq {
        SetCurrentAuthoritativeState(c.posQ, 0, c.playerFlags);
        CountNewest(inputHistory[..], ButtonsOf(After(model, k)), lastRecordedInputSeq, k);
        var remaining := CountRetainedInputSuffixAfter(k);
        result := before.(recoveryStillActive := true, remainingDeferredInputs := remaining, recoveryCatchUpSeq := recoveryCatchUpSeq);
        model := Corrected(model, c, tiles);
        return;
      }
      var ok;
      ok, result := ReplayOrRecover(c, 0, tiles, before, []);
      if ok {
        result := result.(recoveryResolved := true);
      }
    }

    method HandleActiveCorrection(c: Correction, buttons: Byte, tiles: TileMap, before: CorrectionReplayResult)
      returns (result: CorrectionReplayResult)
      requires Valid() && model.phase == Active && !Stale(model, c) && before == Measured(model, c)
      requires buttons == ButtonsAtAck(model, c.lastProcessedInputSeq)
      modifies this, inputHistory, stateHistory
      ensures Valid() && model == Corrected(old(model), c, tiles) && result == Report(old(model), c)
    {
      hide Retains, Simulate;
      var k := c.lastProcessedInputSeq;
      lastAuthoritativeInputSeq := k;
      ghost var states := StatesOf(model.baseline, model.unacked);
      DiscardAcknowledgedHistory(k, model.unacked, states);
      var ok;
      ok, result := ReplayOrRecover(c, buttons, tiles, before, Newest(states, if k < lastRecordedInputSeq then lastRecordedInputSeq - k else 0));
    }

    /** Applies an authoritative correction. */
    method ReconcileAndReplay(c: Correction, tiles: TileMap) returns (result: CorrectionReplayResult)
      requires Valid()
      modifies this, inputHistory, stateHistory
      ensures Valid() && model == Corrected(old(model), c, tiles) && result == Report(old(model), c)
    {
      if phase != AwaitingBaseline && c.lastProcessedInputSeq <= lastAuthoritativeInputSeq {
        return NO_RESULT.(ignoredStaleCorrection := true, recoveryStillActive := phase == Recovering,
                          recoveryCatchUpSeq := recoveryCatchUpSeq);
      }
      var predictedButtons, measured := MeasureCorrectionAtAck(c);
      if phase == AwaitingBaseline {
        result := HandleAwaitingBaselineCorrection(c, tiles, measured);
      } else if phase == Recovering {
        result := HandleRecoveringCorrection(c, tiles, measured);
      } else {
        result := HandleActiveCorrection(c, predictedButtons, tiles, measured);
      }
    }
  }

  lemma SameButtons(steps: seq<Step>, tiles: TileMap)
    ensures ButtonsOf(OnMap(steps, tiles)) == ButtonsOf(steps)
  {
  }

  /** Measuring fills in the comparison fields only. */
  lemma MeasuredIsPlain(m: Spec, c: Correction)
    ensures var r := Measured(m, c);
      && r.replayedInputs == 0 && r.remainingDeferredInputs == 0 && r.missingInputHistory == 0 && r.recoveryCatchUpSeq == 0
      && !r.recoveryStillActive && !r.recoveryResolved && !r.recoveryTriggered && !r.recoveryRestarted
  {
  }

  /** The specification of a correction that starts a replay, when the replay succeeds. */
  lemma AfterReplay(m: Spec, c: Correction, tiles: TileMap)
    requires SpecInv(m) && !Stale(m, c) && (m.phase == Recovering ==> c.lastProcessedInputSeq >= m.catchUp)
    requires m.CanReplayAfter(c.lastProcessedInputSeq)
    ensures var m' := Corrected(m, c, tiles); var k := c.lastProcessedInputSeq;
      && SpecInv(m')
      && m' == Spec(Active, OnMap(After(m, k), tiles), m.last, k, 0, LocalPlayerState(c.posQ, ButtonsAtAck(m, k), c.playerFlags))
    ensures Report(m, c) == Measured(m, c).(replayedInputs := |After(m, c.lastProcessedInputSeq)|,
                                            recoveryResolved := m.phase == Recovering)
  {
  }

  /** The specification of a correction that starts a replay, when the replay fails. */
  lemma AfterFailure(m: Spec, c: Correction, tiles: TileMap)
    requires SpecInv(m) && !Stale(m, c) && (m.phase == Recovering ==> c.lastProcessedInputSeq >= m.catchUp)
    requires !m.CanReplayAfter(c.lastProcessedInputSeq)
    ensures var m' := Corrected(m, c, tiles); var k := c.lastProcessedInputSeq;
      && SpecInv(m')
      && m' == Spec(Recovering, After(m, k), m.last, k, m.last, LocalPlayerState(c.posQ, 0, c.playerFlags))
    ensures Report(m, c) ==
      Measured(m, c).(recoveryTriggered := true, recoveryRestarted := m.phase == Recovering, recoveryStillActive := true,
                      missingInputHistory := m.last - c.lastProcessedInputSeq,
                      remainingDeferredInputs := RetainedAfter(m, c.lastProcessedInputSeq), recoveryCatchUpSeq := m.last)
  {
  }

  lemma GrowsByOne(steps: seq<Step>, step: Step)
    ensures ButtonsOf(steps + [step]) == ButtonsOf(steps) + [step.buttons]
  {
  }

  lemma StatesGrow(base: LocalPlayerState, steps: seq<Step>, step: Step)
    ensures StatesOf(base, steps + [step])
         == StatesOf(base, steps) + [Simulate(Fold(base, steps), step.buttons, step.tiles)]
    ensures Fold(base, steps + [step]) == Simulate(Fold(base, steps), step.buttons, step.tiles)
  {
    hide Simulate, StateAfter;
    forall n | 0 <= n <= |steps| ensures StateAfter(base, steps + [step], n) == StateAfter(base, steps, n) {
      FoldPrefix(base, steps, [step], n);
    }
    StateAfterOne(base, steps + [step], |steps|);
  }
}
