/**
 * The input pipeline: the client's redundant batches, the server's input ring and the fixed-delay
 * consume timeline (NetClient.Runtime.cpp, ServerInputHandlers.cpp, ServerSimulation.cpp).
 */
module Input {
  import opened Movement
  import Ring

  const MAX_INPUT_BATCH_SIZE := 16
  const INPUT_BUFFER_SIZE := 32
  const MAX_BUFFERED_INPUT_LEAD := 31

  // ----- Batches -----

  /** An input batch: entry i carries sequence baseInputSeq + i. Sequence numbers start at 1. */
  datatype MsgInput = MsgInput(baseInputSeq: nat, inputs: seq<Byte>) {
    /** What the deserializer admits. */
    predicate WellFormed() {
      && 1 <= |inputs| <= MAX_INPUT_BATCH_SIZE
      && baseInputSeq >= 1
      && forall i | 0 <= i < |inputs| :: inputs[i] <= INPUT_KNOWN_BITS
    }

    predicate Carries(s: nat) {
      baseInputSeq <= s < baseInputSeq + |inputs|
    }

    function ButtonsFor(s: nat): Byte
      requires Carries(s)
    {
      inputs[s - baseInputSeq]
    }

    function HighestSeq(): int {
      baseInputSeq + |inputs| - 1
    }
  }

  /** The button the client logged for sequence s; sequence 1 is the first. */
  function Logged(log: seq<Byte>, s: nat): Byte
    requires 1 <= s <= |log|
  {
    log[s - 1]
  }

  /** A batch that repeats the client's own log and nothing else. */
  ghost predicate Echoes(log: seq<Byte>, m: MsgInput) {
    m.WellFormed() && forall s: nat | m.Carries(s) :: s <= |log| && m.ButtonsFor(s) == Logged(log, s)
  }

  /** The batch the last send must produce: the newest entries of the log, at most sixteen. */
  function NewestBatch(log: seq<Byte>): MsgInput
    requires log != []
  {
    var n := if |log| < MAX_INPUT_BATCH_SIZE then |log| else MAX_INPUT_BATCH_SIZE;
    MsgInput(|log| - n + 1, log[|log| - n..])
  }

  lemma NewestBatchEchoes(log: seq<Byte>)
    requires log != [] && forall i | 0 <= i < |log| :: log[i] <= INPUT_KNOWN_BITS
    ensures Echoes(log, NewestBatch(log))
    ensures forall s: nat :: NewestBatch(log).Carries(s) <==> |log| - MAX_INPUT_BATCH_SIZE < s <= |log| && s >= 1
  {
  }

  /** The client's sender: a sixteen-slot ring of its latest buttons. */
  class InputSender {
    var nextInputSeq: nat
    const inputHistory: array<Byte>
    ghost var log: seq<Byte>

    ghost predicate Valid()
      reads this, inputHistory
    {
      && inputHistory.Length == MAX_INPUT_BATCH_SIZE
      && nextInputSeq == |log|
      && RingHoldsTail(inputHistory[..], log)
    }

    constructor ()
      ensures Valid() && log == [] && fresh(inputHistory)
    {
      nextInputSeq := 0;
      inputHistory := new Byte[MAX_INPUT_BATCH_SIZE](_ => 0);
      log := [];
    }

    /** A new match restarts the input stream at the first sequence. */
    method ResetLocalInputStream()
      requires Valid()
      modifies this, inputHistory
      ensures Valid() && log == []
    {
      nextInputSeq := 0;
      forall i | 0 <= i < MAX_INPUT_BATCH_SIZE {
        inputHistory[i] := 0;
      }
      log := [];
    }

    /** Logs one button mask and builds the redundant batch that carries it. */
    method SendInput(buttons: Byte) returns (s: nat, msg: MsgInput)
      requires Valid()
      modifies this, inputHistory
      ensures Valid() && log == old(log) + [buttons]
      ensures s == |log| && msg == NewestBatch(log)
    {
      nextInputSeq := nextInputSeq + 1;
      s := nextInputSeq;
      WriteHistory(s, buttons);
      msg := BuildBatch();
    }

    method WriteHistory(s: nat, buttons: Byte)
      requires inputHistory.Length == MAX_INPUT_BATCH_SIZE && s == |log| + 1
      requires RingHoldsTail(inputHistory[..], log)
      modifies this`log, inputHistory
      ensures log == old(log) + [buttons] && RingHoldsTail(inputHistory[..], log)
    {
      hide RingHoldsTail;
      RingPush(inputHistory[..], log, buttons);
      ghost var before := inputHistory[..];
      inputHistory[s % MAX_INPUT_BATCH_SIZE] := buttons;
      assert inputHistory[..] == before[s % MAX_INPUT_BATCH_SIZE := buttons];
      log := log + [buttons];
    }

    /** Reads the newest entries back out of the ring, oldest first. */
    method BuildBatch() returns (msg: MsgInput)
      requires Valid() && log != []
      ensures msg == NewestBatch(log)
    {
      var s := nextInputSeq;
      var batchCount := if s < MAX_INPUT_BATCH_SIZE then s else MAX_INPUT_BATCH_SIZE;
      var baseSeq := s - batchCount + 1;
      var inputs: seq<Byte> := [];
      while |inputs| < batchCount
        invariant |inputs| <= batchCount
        invariant inputs == log[baseSeq - 1..baseSeq - 1 + |inputs|]
      {
        var t := baseSeq + |inputs|;
        assert inputHistory[..][t % MAX_INPUT_BATCH_SIZE] == Logged(log, t);
        inputs := inputs + [inputHistory[t % MAX_INPUT_BATCH_SIZE]];
      }
      msg := MsgInput(baseSeq, inputs);
    }
  }

  /** The ring holds the newest sixteen entries of the log, each in its own slot. */
  ghost predicate RingHoldsTail(ring: seq<Byte>, log: seq<Byte>)
    requires |ring| == MAX_INPUT_BATCH_SIZE
  {
    forall s: nat | 1 <= s <= |log| && |log| - MAX_INPUT_BATCH_SIZE < s ::
      ring[s % MAX_INPUT_BATCH_SIZE] == Logged(log, s)
  }

  lemma RingPush(ring: seq<Byte>, log: seq<Byte>, buttons: Byte)
    requires |ring| == MAX_INPUT_BATCH_SIZE && RingHoldsTail(ring, log)
    ensures RingHoldsTail(ring[(|log| + 1) % MAX_INPUT_BATCH_SIZE := buttons], log + [buttons])
  {
    var log' := log + [buttons];
    forall s: nat | 1 <= s <= |log'| && |log'| - MAX_INPUT_BATCH_SIZE < s
      ensures ring[|log'| % MAX_INPUT_BATCH_SIZE := buttons][s % MAX_INPUT_BATCH_SIZE] == Logged(log', s)
    {
      if s < |log'| {
        assert s % MAX_INPUT_BATCH_SIZE != |log'| % MAX_INPUT_BATCH_SIZE by { Ring.SlotsDiffer(s, |log'|, MAX_INPUT_BATCH_SIZE); }
        assert ring[s % MAX_INPUT_BATCH_SIZE] == Logged(log, s);
      }
    }
  }

  // ----- The receiver as a finite map -----

  /** One unconsumed input, with the provenance flags used by the recovery diagnostics. */
  datatype Buffered = Buffered(buttons: Byte, seenDirect: bool, seenBuffered: bool)

  /** The abstract receiver: the ring is a finite map from sequence number to buffered input. */
  datatype Receiver = Receiver(
    pending: map<nat, Buffered>,
    lastReceivedInputSeq: nat,
    lastProcessedInputSeq: nat,
    lastAppliedButtons: Byte,
    appliedButtons: Byte,
    inputTimelineStarted: bool,
    nextConsumeServerTick: nat)

  /** A receiver as createMatchPlayerState leaves it. */
  const NEW_RECEIVER := Receiver(map[], 0, 0, 0, 0, false, 0)

  predicate InWindow(lastProcessed: nat, s: nat) {
    lastProcessed < s <= lastProcessed + MAX_BUFFERED_INPUT_LEAD
  }

  ghost predicate ReceiverValid(r: Receiver) {
    forall s | s in r.pending :: InWindow(r.lastProcessedInputSeq, s) && s <= r.lastReceivedInputSeq
  }

  /** What one batch entry leaves behind for its sequence. */
  function Merged(r: Receiver, m: MsgInput, s: nat): Buffered
    requires m.Carries(s)
  {
    var direct := s == m.HighestSeq();
    Buffered(m.ButtonsFor(s),
             direct || (s in r.pending && r.pending[s].seenDirect),
             !direct || (s in r.pending && r.pending[s].seenBuffered))
  }

  /** The effect of one batch entry: a map update inside the window, nothing outside it. */
  function EntryApplied(r: Receiver, m: MsgInput, s: nat): Receiver
    requires m.Carries(s)
  {
    if !InWindow(r.lastProcessedInputSeq, s) then r
    else r.(pending := r.pending[s := Merged(r, m, s)],
            lastReceivedInputSeq := if s > r.lastReceivedInputSeq then s else r.lastReceivedInputSeq)
  }

  /** The receiver after the first n entries of a batch. */
  function AfterEntries(r: Receiver, m: MsgInput, n: nat): Receiver
    requires n <= |m.inputs|
  {
    if n == 0 then r else EntryApplied(AfterEntries(r, m, n - 1), m, m.baseInputSeq + n - 1)
  }

  /** Receiving a batch: a batch wholly in the past changes nothing. */
  function Received(r: Receiver, m: MsgInput): Receiver {
    if m.HighestSeq() <= r.lastProcessedInputSeq then r else AfterEntries(r, m, |m.inputs|)
  }

  /** The deadline of the next sequence has come: its own buttons if they are here, the previous ones if not. */
  function Consumed(r: Receiver): Receiver {
    var s := r.lastProcessedInputSeq + 1;
    var buttons := if s in r.pending then r.pending[s].buttons else r.lastAppliedButtons;
    r.(pending := r.pending - {s}, appliedButtons := buttons, lastAppliedButtons := buttons,
       lastProcessedInputSeq := s, nextConsumeServerTick := r.nextConsumeServerTick + 1)
  }

  /** Resolving the buttons of one tick. */
  function ResolveForTick(r: Receiver, serverTick: nat, inputLeadTicks: nat): Receiver {
    if r.lastReceivedInputSeq == 0 then r.(appliedButtons := 0)
    else
      var started := if r.inputTimelineStarted then r
                     else r.(inputTimelineStarted := true, nextConsumeServerTick := serverTick + inputLeadTicks);
      if serverTick < started.nextConsumeServerTick then started.(appliedButtons := 0) else Consumed(started)
  }

  /** A dead or locked player is idle and forgets the buttons it would repeat. */
  function IdleTick(r: Receiver): Receiver {
    r.(appliedButtons := 0, lastAppliedButtons := 0)
  }

  // ----- The server's input ring -----

  datatype InputRingEntry = InputRingEntry(s: nat, buttons: Byte, valid: bool, seenDirect: bool, seenBuffered: bool)

  predicate SlotHolds(ring: seq<InputRingEntry>, s: nat)
    requires |ring| == INPUT_BUFFER_SIZE
  {
    ring[s % INPUT_BUFFER_SIZE].valid && ring[s % INPUT_BUFFER_SIZE].s == s
  }

  function SlotValue(ring: seq<InputRingEntry>, s: nat): Buffered
    requires |ring| == INPUT_BUFFER_SIZE
  {
    var e := ring[s % INPUT_BUFFER_SIZE];
    Buffered(e.buttons, e.seenDirect, e.seenBuffered)
  }

  /** The finite map the ring stands for. */
  function RingMap(ring: seq<InputRingEntry>, lastProcessed: nat): map<nat, Buffered>
    requires |ring| == INPUT_BUFFER_SIZE
  {
    map s: nat | lastProcessed < s <= lastProcessed + MAX_BUFFERED_INPUT_LEAD && SlotHolds(ring, s) :: SlotValue(ring, s)
  }

  /** Every valid slot holds a sequence of its own residue inside the acceptance window. */
  ghost predicate RingValid(ring: seq<InputRingEntry>, lastProcessed: nat, lastReceived: nat) {
    && |ring| == INPUT_BUFFER_SIZE
    && forall i | 0 <= i < INPUT_BUFFER_SIZE && ring[i].valid ::
         ring[i].s % INPUT_BUFFER_SIZE == i && InWindow(lastProcessed, ring[i].s) && ring[i].s <= lastReceived
  }

  /** Writing a window sequence into its slot is a map update: no other pending input is lost. */
  lemma RingPut(ring: seq<InputRingEntry>, lastProcessed: nat, lastReceived: nat, e: InputRingEntry)
    requires RingValid(ring, lastProcessed, lastReceived) && e.valid && InWindow(lastProcessed, e.s)
    ensures var ring' := ring[e.s % INPUT_BUFFER_SIZE := e];
      && RingValid(ring', lastProcessed, if e.s > lastReceived then e.s else lastReceived)
      && RingMap(ring', lastProcessed)
         == RingMap(ring, lastProcessed)[e.s := Buffered(e.buttons, e.seenDirect, e.seenBuffered)]
  {
    var ring' := ring[e.s % INPUT_BUFFER_SIZE := e];
    forall s: nat | InWindow(lastProcessed, s) && s != e.s
      ensures ring'[s % INPUT_BUFFER_SIZE] == ring[s % INPUT_BUFFER_SIZE]
    {
      if s < e.s {
        Ring.SlotsDiffer(s, e.s, INPUT_BUFFER_SIZE);
      } else {
        Ring.SlotsDiffer(e.s, s, INPUT_BUFFER_SIZE);
      }
    }
    assert SlotHolds(ring', e.s);
  }

  /** Moving past the next sequence: its slot is the only one that can hold it, and a gap finds that slot empty. */
  lemma RingAdvance(ring: seq<InputRingEntry>, lastProcessed: nat, lastReceived: nat, e: InputRingEntry)
    requires RingValid(ring, lastProcessed, lastReceived)
    requires !e.valid
    ensures var s := lastProcessed + 1;
      && (!SlotHolds(ring, s) ==> !ring[s % INPUT_BUFFER_SIZE].valid)
      && RingValid(ring[s % INPUT_BUFFER_SIZE := e], s, lastReceived)
      && RingMap(ring[s % INPUT_BUFFER_SIZE := e], s) == RingMap(ring, lastProcessed) - {s}
  {
    var s := lastProcessed + 1;
    var slot := ring[s % INPUT_BUFFER_SIZE];
    if slot.valid && slot.s != s {
      Ring.SlotsDiffer(s, slot.s, INPUT_BUFFER_SIZE);
    }
    var ring' := ring[s % INPUT_BUFFER_SIZE := e];
    forall t: nat | s < t <= s + MAX_BUFFERED_INPUT_LEAD
      ensures ring'[t % INPUT_BUFFER_SIZE] == ring[t % INPUT_BUFFER_SIZE]
      ensures SlotHolds(ring, t) ==> InWindow(lastProcessed, t)
    {
      Ring.SlotsDiffer(s, t, INPUT_BUFFER_SIZE);
    }
  }

  /** The next sequence is pending exactly when its slot holds it. */
  lemma NextIsPending(ring: seq<InputRingEntry>, lastProcessed: nat)
    requires |ring| == INPUT_BUFFER_SIZE
    ensures var s := lastProcessed + 1; var pending := RingMap(ring, lastProcessed);
      && (s in pending <==> SlotHolds(ring, s))
      && (s in pending ==> pending[s] == SlotValue(ring, s))
  {
  }

  /**
   * A whole batch in closed form: exactly its window sequences are overwritten, by the batch's buttons, and
   * everything else pending is kept.
   */
  lemma {:induction false} BatchInClosedForm(r: Receiver, m: MsgInput, n: nat)
    requires n <= |m.inputs|
    ensures var r' := AfterEntries(r, m, n);
      && r'.lastProcessedInputSeq == r.lastProcessedInputSeq
      && (forall s: nat :: s in r'.pending <==>
            s in r.pending || (m.baseInputSeq <= s < m.baseInputSeq + n && r.lastProcessedInputSeq < s <= r.lastProcessedInputSeq + 31))
      && (forall s | s in r'.pending ::
            r'.pending[s] == if m.baseInputSeq <= s < m.baseInputSeq + n && r.lastProcessedInputSeq < s <= r.lastProcessedInputSeq + 31
                             then Merged(r, m, s) else r.pending[s])
      && r' == r.(pending := r'.pending, lastReceivedInputSeq := r'.lastReceivedInputSeq)
      && r'.lastReceivedInputSeq >= r.lastReceivedInputSeq
      && (ReceiverValid(r) ==> ReceiverValid(r'))
  {
    if n > 0 {
      BatchInClosedForm(r, m, n - 1);
      var r', s := AfterEntries(r, m, n - 1), m.baseInputSeq + n - 1;
      assert Merged(r', m, s) == Merged(r, m, s);
    }
  }

  /** The input half of a match player, as the server keeps it. */
  class MatchPlayerInput {
    const inputRing: array<InputRingEntry>
    var lastReceivedInputSeq: nat
    var lastProcessedInputSeq: nat
    var lastAppliedButtons: Byte
    var appliedButtons: Byte
    var inputTimelineStarted: bool
    var nextConsumeServerTick: nat

    ghost predicate Valid()
      reads this, inputRing
    {
      RingValid(inputRing[..], lastProcessedInputSeq, lastReceivedInputSeq)
    }

    /** The abstract receiver this object implements. */
    ghost function Model(): Receiver
      reads this, inputRing
      requires Valid()
    {
      Receiver(RingMap(inputRing[..], lastProcessedInputSeq), lastReceivedInputSeq, lastProcessedInputSeq,
               lastAppliedButtons, appliedButtons, inputTimelineStarted, nextConsumeServerTick)
    }

    constructor ()
      ensures Valid() && Model() == NEW_RECEIVER && fresh(inputRing)
    {
      inputRing := new InputRingEntry[INPUT_BUFFER_SIZE](_ => InputRingEntry(0, 0, false, false, false));
      lastReceivedInputSeq, lastProcessedInputSeq := 0, 0;
      lastAppliedButtons, appliedButtons := 0, 0;
      inputTimelineStarted, nextConsumeServerTick := false, 0;
    }

    /** Buffers every entry of a batch that falls inside the acceptance window. */
    method BufferInputBatch(m: MsgInput, highestSeq: int, maxAcceptableSeq: nat)
      requires Valid() && m.WellFormed()
      requires highestSeq == m.HighestSeq() && maxAcceptableSeq == lastProcessedInputSeq + MAX_BUFFERED_INPUT_LEAD
      modifies this`lastReceivedInputSeq, inputRing
      ensures Valid() && Model() == AfterEntries(old(Model()), m, |m.inputs|)
    {
      ghost var before := Model();
      for i := 0 to |m.inputs|
        invariant Valid() && Model() == AfterEntries(before, m, i)
      {
        BufferEntry(m, m.baseInputSeq + i, highestSeq, maxAcceptableSeq);
      }
    }

    method BufferEntry(m: MsgInput, s: nat, highestSeq: int, maxAcceptableSeq: nat)
      requires Valid() && m.Carries(s)
      requires highestSeq == m.HighestSeq() && maxAcceptableSeq == lastProcessedInputSeq + MAX_BUFFERED_INPUT_LEAD
      modifies this`lastReceivedInputSeq, inputRing
      ensures Valid() && Model() == EntryApplied(old(Model()), m, s)
    {
      var isDirectEntry := s == highestSeq;
      if s <= lastProcessedInputSeq {
        return;
      }
      if s > maxAcceptableSeq {
        return;
      }
      StoreEntry(m, s, isDirectEntry);
    }

    /** Writes one accepted entry, keeping the provenance of an earlier copy of the same sequence. */
    method StoreEntry(m: MsgInput, s: nat, isDirectEntry: bool)
      requires Valid() && m.Carries(s) && isDirectEntry == (s == m.HighestSeq())
      requires InWindow(lastProcessedInputSeq, s)
      modifies this`lastReceivedInputSeq, inputRing
      ensures Valid() && Model() == EntryApplied(old(Model()), m, s)
    {
      var slot := inputRing[s % INPUT_BUFFER_SIZE];
      var sameSeqAlreadyBuffered := slot.valid && slot.s == s;
      assert sameSeqAlreadyBuffered <==> s in Model().pending;
      var seenDirect := sameSeqAlreadyBuffered && slot.seenDirect;
      var seenBuffered := sameSeqAlreadyBuffered && slot.seenBuffered;
      var e := InputRingEntry(s, m.ButtonsFor(s), true, seenDirect || isDirectEntry, seenBuffered || !isDirectEntry);
      assert Buffered(e.buttons, e.seenDirect, e.seenBuffered) == Merged(Model(), m, s);
      RingPut(inputRing[..], lastProcessedInputSeq, lastReceivedInputSeq, e);
      WriteSlot(s, e);
      if s > lastReceivedInputSeq {
        lastReceivedInputSeq := s;
      }
    }

    method WriteSlot(s: nat, e: InputRingEntry)
      requires inputRing.Length == INPUT_BUFFER_SIZE
      modifies inputRing
      ensures inputRing[..] == old(inputRing[..])[s % INPUT_BUFFER_SIZE := e]
    {
      inputRing[s % INPUT_BUFFER_SIZE] := e;
    }

    /** Receive handling of one parsed input batch. */
    method OnInput(m: MsgInput)
      requires Valid() && m.WellFormed()
      modifies this`lastReceivedInputSeq, inputRing
      ensures Valid() && Model() == Received(old(Model()), m)
    {
      var highestSeq := m.HighestSeq();
      var maxAcceptableSeq := lastProcessedInputSeq + MAX_BUFFERED_INPUT_LEAD;
      if highestSeq <= lastProcessedInputSeq {
        return;
      }
      BufferInputBatch(m, highestSeq, maxAcceptableSeq);
    }

    /** Resolves the buttons to simulate on this tick, consuming the next sequence at its deadline. */
    method ResolveInputForTick(serverTick: nat, inputLeadTicks: nat)
      requires Valid()
      modifies this, inputRing
      ensures Valid() && Model() == ResolveForTick(old(Model()), serverTick, inputLeadTicks)
    {
      hide RingMap, RingValid;
      appliedButtons := 0;
      if lastReceivedInputSeq == 0 {
        return;
      }
      if !inputTimelineStarted {
        inputTimelineStarted := true;
        nextConsumeServerTick := serverTick + inputLeadTicks;
      }
      if serverTick < nextConsumeServerTick {
        return;
      }
      ConsumeNext();
    }

    /** The deadline of the next sequence: consume it if it is there, repeat the previous buttons if not. */
    method ConsumeNext()
      requires Valid()
      modifies this, inputRing
      ensures Valid() && Model() == Consumed(old(Model()))
    {
      hide RingMap;
      var nextSeq := lastProcessedInputSeq + 1;
      var entry := inputRing[nextSeq % INPUT_BUFFER_SIZE];
      NextIsPending(inputRing[..], lastProcessedInputSeq);
      if entry.valid && entry.s == nextSeq {
        appliedButtons := entry.buttons;
        lastAppliedButtons := appliedButtons;
        LeaveSlot(nextSeq, entry.(valid := false, seenDirect := false, seenBuffered := false));
        nextConsumeServerTick := nextConsumeServerTick + 1;
        return;
      }
      appliedButtons := lastAppliedButtons;
      SkipSlot(nextSeq);
      nextConsumeServerTick := nextConsumeServerTick + 1;
    }

    /** A gap: the slot of the missing sequence is empty, so nothing is lost by moving on. */
    method SkipSlot(nextSeq: nat)
      requires Valid() && nextSeq == lastProcessedInputSeq + 1 && !SlotHolds(inputRing[..], nextSeq)
      modifies this`lastProcessedInputSeq
      ensures Valid() && lastProcessedInputSeq == nextSeq
      ensures RingMap(inputRing[..], nextSeq) == RingMap(inputRing[..], nextSeq - 1) - {nextSeq}
    {
      hide RingMap;
      var entry := inputRing[nextSeq % INPUT_BUFFER_SIZE].(valid := false);
      RingAdvance(inputRing[..], lastProcessedInputSeq, lastReceivedInputSeq, entry);
      assert inputRing[..] == inputRing[..][nextSeq % INPUT_BUFFER_SIZE := entry];
      lastProcessedInputSeq := nextSeq;
    }

    method LeaveSlot(nextSeq: nat, spent: InputRingEntry)
      requires Valid() && nextSeq == lastProcessedInputSeq + 1 && !spent.valid
      modifies this`lastProcessedInputSeq, inputRing
      ensures Valid() && lastProcessedInputSeq == nextSeq
      ensures RingMap(inputRing[..], nextSeq) == RingMap(old(inputRing[..]), nextSeq - 1) - {nextSeq}
    {
      hide RingMap;
      RingAdvance(inputRing[..], lastProcessedInputSeq, lastReceivedInputSeq, spent);
      lastProcessedInputSeq := nextSeq;
      WriteSlot(nextSeq, spent);
    }

    method ClearButtons()
      requires Valid()
      modifies this`appliedButtons, this`lastAppliedButtons
      ensures Valid() && Model() == IdleTick(old(Model()))
    {
      appliedButtons := 0;
      lastAppliedButtons := 0;
    }

    /** Match commit arms the consume timeline at a fixed distance from gameplay unlock. */
    method ArmTimeline(unlockServerTick: nat, inputLeadTicks: nat)
      requires Valid()
      modifies this`inputTimelineStarted, this`nextConsumeServerTick
      ensures Valid() && Model() == Armed(old(Model()), unlockServerTick, inputLeadTicks)
    {
      inputTimelineStarted := true;
      nextConsumeServerTick := unlockServerTick + inputLeadTicks;
    }
  }

  function Armed(r: Receiver, unlockServerTick: nat, inputLeadTicks: nat): Receiver {
    r.(inputTimelineStarted := true, nextConsumeServerTick := unlockServerTick + inputLeadTicks)
  }
}
