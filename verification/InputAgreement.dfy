/**
 * Whole runs of one player's input stream: an honest client, a network that loses, repeats and reorders
 * batches, and the server consuming one sequence at each deadline.
 */
module InputAgreement {
  import opened Tiles
  import opened Movement
  import opened Input

  datatype Event =
    | Send(buttons: Byte)
    | Deliver(msg: MsgInput)
    | Commit
    | Tick(serverTick: nat, active: bool, tiles: TileMap, speedQ: int)

  /** Fixed parameters of a run: where the player spawned, when gameplay unlocks and the configured lead. */
  datatype Setup = Setup(spawn: TilePos, unlockServerTick: nat, inputLeadTicks: nat) {
    function FirstDeadline(): nat { unlockServerTick + inputLeadTicks }
  }

  /** `drives` lists, in order, what the server simulated for sequences 1, 2, ... */
  datatype Stream = Stream(log: seq<Byte>, rx: Receiver, drives: seq<Drive>, pos: TilePos)

  function Move(pos: TilePos, buttons: Byte, tiles: TileMap, speedQ: int): TilePos {
    StepMovementWithCollision(pos, ButtonsToMoveX(buttons), ButtonsToMoveY(buttons), tiles, speedQ)
  }

  function Next(setup: Setup, p: Stream, e: Event): Stream {
    match e
    case Send(buttons) => p.(log := p.log + [buttons])
    case Deliver(msg) => p.(rx := Received(p.rx, msg))
    case Commit => p.(rx := Armed(p.rx, setup.unlockServerTick, setup.inputLeadTicks))
    case Tick(serverTick, active, tiles, speedQ) =>
      if !active then p.(rx := IdleTick(p.rx))
      else
        var rx := ResolveForTick(p.rx, serverTick, setup.inputLeadTicks);
        p.(rx := rx,
           drives := if rx.lastProcessedInputSeq > p.rx.lastProcessedInputSeq
                     then p.drives + [Drive(rx.appliedButtons, tiles, speedQ)] else p.drives,
           pos := Move(p.pos, rx.appliedButtons, tiles, speedQ))
  }

  function Run(setup: Setup, events: seq<Event>): Stream {
    if events == [] then Stream([], NEW_RECEIVER, [], setup.spawn)
    else Next(setup, Run(setup, events[..|events| - 1]), events[|events| - 1])
  }

  predicate Committed(events: seq<Event>) {
    events != [] && (events[|events| - 1].Commit? || Committed(events[..|events| - 1]))
  }

  /**
   * A possible run: buttons are known bits, the match is committed once and only then becomes active, and
   * every delivered batch is one the client built at some earlier moment.
   */
  ghost predicate Possible(setup: Setup, events: seq<Event>) {
    events == [] ||
    var before := events[..|events| - 1];
    && Possible(setup, before)
    && match events[|events| - 1]
       case Send(buttons) => buttons <= INPUT_KNOWN_BITS
       case Deliver(msg) =>
         exists n :: 0 < n <= |Run(setup, before).log| && msg == NewestBatch(Run(setup, before).log[..n])
       case Commit => !Committed(before)
       case Tick(_, active, _, _) => active ==> Committed(before)
  }

  /** Some batch carrying `s` arrived while `s` was inside the acceptance window. */
  predicate Covered(setup: Setup, events: seq<Event>, s: nat) {
    events != [] &&
    var before := events[..|events| - 1];
    var e := events[|events| - 1];
    || Covered(setup, before, s)
    || (e.Deliver? && e.msg.Carries(s) && InWindow(Run(setup, before).rx.lastProcessedInputSeq, s))
  }

  /** The player sat out a tick, dead or locked, between consuming `s` and consuming `s + 1`. */
  predicate IdleAfter(setup: Setup, events: seq<Event>, s: nat) {
    events != [] &&
    var before := events[..|events| - 1];
    var e := events[|events| - 1];
    || IdleAfter(setup, before, s)
    || (e.Tick? && !e.active && Run(setup, before).rx.lastProcessedInputSeq == s)
  }

  /** What a missing sequence repeats: the buttons of its predecessor, or nothing after an idle tick. */
  function Fallback(setup: Setup, events: seq<Event>, s: nat): Byte
    requires 1 <= s <= |Run(setup, events).drives| + 1
  {
    if s == 1 || IdleAfter(setup, events, s - 1) then 0 else Run(setup, events).drives[s - 2].buttons
  }

  // ----- The run invariant -----

  ghost predicate Settled(setup: Setup, events: seq<Event>, s: nat)
    requires 1 <= s <= |Run(setup, events).drives|
  {
    Run(setup, events).drives[s - 1].buttons ==
      if Covered(setup, events, s) && s <= |Run(setup, events).log| then Logged(Run(setup, events).log, s)
      else Fallback(setup, events, s)
  }

  ghost predicate RunInv(setup: Setup, events: seq<Event>) {
    var p := Run(setup, events);
    && |p.drives| == p.rx.lastProcessedInputSeq
    && ReceiverValid(p.rx)
    && (forall i | 0 <= i < |p.log| :: p.log[i] <= INPUT_KNOWN_BITS)
    && PendingEchoes(p.log, p.rx)
    && (forall s: nat | s > p.rx.lastProcessedInputSeq :: s in p.rx.pending <==> Covered(setup, events, s))
    && (forall s: nat | Covered(setup, events, s) :: 1 <= s <= |p.log| && p.rx.lastReceivedInputSeq != 0)
    && (forall s: nat | s > p.rx.lastProcessedInputSeq :: !IdleAfter(setup, events, s))
    && p.rx.lastAppliedButtons == Fallback(setup, events, |p.drives| + 1)
    && (forall s | 1 <= s <= |p.drives| :: Settled(setup, events, s))
    && (if Committed(events)
        then p.rx.inputTimelineStarted && p.rx.nextConsumeServerTick == setup.FirstDeadline() + |p.drives|
        else !p.rx.inputTimelineStarted && p.drives == [])
    && p.pos == Travel(setup.spawn, p.drives)
  }

  lemma {:induction false} RunKeepsInv(setup: Setup, events: seq<Event>)
    requires Possible(setup, events)
    ensures RunInv(setup, events)
    decreases |events|
  {
    hide RunInv, StepMovementWithCollision;
    if events == [] {
      EmptyRunInv(setup);
      return;
    }
    var before := events[..|events| - 1];
    RunKeepsInv(setup, before);
    match events[|events| - 1]
    case Send(buttons) => SendKeepsInv(setup, before, events, buttons);
    case Deliver(msg) =>
      DeliverPossible(setup, before, events, msg);
    case Commit => CommitKeepsInv(setup, before, events);
    case Tick(serverTick, active, tiles, speedQ) =>
      if active && Run(setup, events).drives != Run(setup, before).drives {
        ConsumingTickKeepsInv(setup, before, events);
      } else if active {
        QuietTickKeepsInv(setup, before, events);
      } else {
        IdleKeepsInv(setup, before, events);
      }
  }

  lemma EmptyRunInv(setup: Setup)
    ensures RunInv(setup, [])
  {
  }

  /** The events of `events` are those of `before` and one more. */
  ghost predicate Extends(before: seq<Event>, events: seq<Event>) {
    events != [] && before == events[..|events| - 1]
  }

  /** One more event, spelled out for every recursive notion. */
  lemma OneMoreEvent(setup: Setup, before: seq<Event>, events: seq<Event>)
    requires Extends(before, events)
    ensures var e := events[|events| - 1]; var lp := Run(setup, before).rx.lastProcessedInputSeq;
      && Run(setup, events) == Next(setup, Run(setup, before), e)
      && (Committed(events) <==> e.Commit? || Committed(before))
      && (forall s: nat :: Covered(setup, events, s) <==>
            Covered(setup, before, s) || (e.Deliver? && e.msg.Carries(s) && InWindow(lp, s)))
      && (forall s: nat :: IdleAfter(setup, events, s) <==>
            IdleAfter(setup, before, s) || (e.Tick? && !e.active && lp == s))
  {
  }

  lemma SendKeepsInv(setup: Setup, before: seq<Event>, events: seq<Event>, buttons: Byte)
    requires Extends(before, events) && events[|events| - 1] == Send(buttons)
    requires RunInv(setup, before) && buttons <= INPUT_KNOWN_BITS
    ensures RunInv(setup, events)
  {
    hide StepMovementWithCollision;
    OneMoreEvent(setup, before, events);
    forall s | 1 <= s <= |Run(setup, events).drives| ensures Settled(setup, events, s) {
      assert Settled(setup, before, s);
    }
  }

  /** Everything pending repeats the client's log. */
  ghost predicate PendingEchoes(log: seq<Byte>, rx: Receiver) {
    forall s | s in rx.pending :: 1 <= s <= |log| && rx.pending[s].buttons == Logged(log, s)
  }

  /** Receiving an echo of the log, seen from the finite map alone. */
  lemma ReceivedEcho(log: seq<Byte>, rx: Receiver, msg: MsgInput)
    requires ReceiverValid(rx) && PendingEchoes(log, rx) && Echoes(log, msg)
    ensures var rx' := Received(rx, msg);
      && ReceiverValid(rx') && PendingEchoes(log, rx')
      && (forall s: nat :: s in rx'.pending <==>
            s in rx.pending || (msg.Carries(s) && InWindow(rx.lastProcessedInputSeq, s)))
      && rx' == rx.(pending := rx'.pending, lastReceivedInputSeq := rx'.lastReceivedInputSeq)
      && rx'.lastReceivedInputSeq >= rx.lastReceivedInputSeq
  {
    BatchInClosedForm(rx, msg, |msg.inputs|);
    var rx' := Received(rx, msg);
    forall s | s in rx'.pending ensures 1 <= s <= |log| && rx'.pending[s].buttons == Logged(log, s) {
      if msg.Carries(s) {
        assert msg.ButtonsFor(s) == Logged(log, s);
      }
    }
  }

  lemma EarlierBatchEchoes(log: seq<Byte>, n: nat)
    requires 0 < n <= |log| && forall i | 0 <= i < |log| :: log[i] <= INPUT_KNOWN_BITS
    ensures Echoes(log, NewestBatch(log[..n]))
  {
    NewestBatchEchoes(log[..n]);
    var msg := NewestBatch(log[..n]);
    forall s: nat | msg.Carries(s) ensures s <= |log| && msg.ButtonsFor(s) == Logged(log, s) {
      assert msg.ButtonsFor(s) == Logged(log[..n], s);
    }
  }

  lemma DeliverKeepsInv(setup: Setup, before: seq<Event>, events: seq<Event>, msg: MsgInput)
    requires Extends(before, events) && events[|events| - 1] == Deliver(msg)
    requires RunInv(setup, before) && Echoes(Run(setup, before).log, msg)
    ensures RunInv(setup, events)
  {
    hide Received, Echoes, StepMovementWithCollision;
    OneMoreEvent(setup, before, events);
    var p := Run(setup, before);
    ReceivedEcho(p.log, p.rx, msg);
    forall s: nat | Covered(setup, events, s)
      ensures 1 <= s <= |p.log| && Run(setup, events).rx.lastReceivedInputSeq != 0
    {
      if !Covered(setup, before, s) {
        assert s in Run(setup, events).rx.pending;
      }
    }
    forall s | 1 <= s <= |p.drives| ensures Settled(setup, events, s) {
      assert Settled(setup, before, s);
    }
  }

  lemma DeliverPossible(setup: Setup, before: seq<Event>, events: seq<Event>, msg: MsgInput)
    requires Extends(before, events) && events[|events| - 1] == Deliver(msg)
    requires RunInv(setup, before) && Possible(setup, events)
    ensures RunInv(setup, events)
  {
    var log := Run(setup, before).log;
    var n :| 0 < n <= |log| && msg == NewestBatch(log[..n]);
    EarlierBatchEchoes(log, n);
    DeliverKeepsInv(setup, before, events, msg);
  }

  lemma CommitKeepsInv(setup: Setup, before: seq<Event>, events: seq<Event>)
    requires Extends(before, events) && events[|events| - 1].Commit?
    requires RunInv(setup, before) && !Committed(before)
    ensures RunInv(setup, events)
  {
    hide StepMovementWithCollision;
    OneMoreEvent(setup, before, events);
  }

  lemma IdleKeepsInv(setup: Setup, before: seq<Event>, events: seq<Event>)
    requires Extends(before, events) && events[|events| - 1].Tick? && !events[|events| - 1].active
    requires RunInv(setup, before)
    ensures RunInv(setup, events)
  {
    hide StepMovementWithCollision;
    OneMoreEvent(setup, before, events);
    forall s | 1 <= s <= |Run(setup, events).drives| ensures Settled(setup, events, s) {
      assert Settled(setup, before, s);
    }
  }

  /** A tick that consumes: the next sequence, its own buttons if pending and the fallback otherwise. */
  lemma ConsumedNext(rx: Receiver, serverTick: nat, lead: nat)
    requires ReceiverValid(rx) && rx.inputTimelineStarted
    ensures var rx' := ResolveForTick(rx, serverTick, lead); var s := rx.lastProcessedInputSeq + 1;
      && ReceiverValid(rx')
      && rx'.lastReceivedInputSeq == rx.lastReceivedInputSeq && rx'.inputTimelineStarted
      && if rx.lastReceivedInputSeq != 0 && serverTick >= rx.nextConsumeServerTick then
           && rx'.lastProcessedInputSeq == s && rx'.pending == rx.pending - {s}
           && rx'.nextConsumeServerTick == rx.nextConsumeServerTick + 1
           && rx'.appliedButtons == rx'.lastAppliedButtons
           && rx'.appliedButtons == if s in rx.pending then rx.pending[s].buttons else rx.lastAppliedButtons
         else rx' == rx.(appliedButtons := 0)
  {
  }

  /** Pressing nothing moves nobody. */
  lemma NoButtonsNoMove(pos: TilePos, tiles: TileMap, speedQ: int)
    ensures Move(pos, 0, tiles, speedQ) == pos
  {
  }

  lemma QuietTickKeepsInv(setup: Setup, before: seq<Event>, events: seq<Event>)
    requires Extends(before, events) && events[|events| - 1].Tick? && events[|events| - 1].active
    requires RunInv(setup, before) && Committed(before)
    requires Run(setup, events).drives == Run(setup, before).drives
    ensures RunInv(setup, events)
  {
    hide StepMovementWithCollision;
    OneMoreEvent(setup, before, events);
    var p, e := Run(setup, before), events[|events| - 1];
    ConsumedNext(p.rx, e.serverTick, setup.inputLeadTicks);
    NoButtonsNoMove(p.pos, e.tiles, e.speedQ);
    forall s | 1 <= s <= |p.drives| ensures Settled(setup, events, s) {
      assert Settled(setup, before, s);
    }
  }

  lemma ConsumingTickKeepsInv(setup: Setup, before: seq<Event>, events: seq<Event>)
    requires Extends(before, events) && events[|events| - 1].Tick? && events[|events| - 1].active
    requires RunInv(setup, before) && Committed(before)
    requires Run(setup, events).drives != Run(setup, before).drives
    ensures RunInv(setup, events)
  {
    hide Settled, StepMovementWithCollision, ResolveForTick;
    OneMoreEvent(setup, before, events);
    var p, q, e := Run(setup, before), Run(setup, events), events[|events| - 1];
    ConsumedNext(p.rx, e.serverTick, setup.inputLeadTicks);
    forall s | 1 <= s <= |q.drives| ensures Settled(setup, events, s) {
      EarlierStaysSettled(setup, before, events, s);
    }
    var n := |p.drives|;
    assert q.drives[..n] == p.drives && |q.drives| == n + 1;
    assert q.drives[n] == Drive(q.rx.appliedButtons, e.tiles, e.speedQ);
  }

  lemma EarlierStaysSettled(setup: Setup, before: seq<Event>, events: seq<Event>, s: nat)
    requires Extends(before, events) && events[|events| - 1].Tick? && events[|events| - 1].active
    requires RunInv(setup, before) && Committed(before)
    requires Run(setup, events).drives != Run(setup, before).drives
    requires 1 <= s <= |Run(setup, events).drives|
    ensures Settled(setup, events, s)
  {
    hide StepMovementWithCollision, ResolveForTick;
    OneMoreEvent(setup, before, events);
    var p, e := Run(setup, before), events[|events| - 1];
    ConsumedNext(p.rx, e.serverTick, setup.inputLeadTicks);
    assert Fallback(setup, events, s) == Fallback(setup, before, s);
    if s <= |p.drives| {
      assert Settled(setup, before, s);
    }
  }

  // ----- What every possible run guarantees -----

  /**
   * End-to-end agreement. Whatever the network lost, repeated or reordered, the server simulated for
   * sequence s the client's own button exactly when some batch carrying s arrived inside the window, and
   * otherwise repeated the button of s - 1 (nothing before the first, or after an idle tick).
   */
  lemma InputsAgree(setup: Setup, events: seq<Event>, s: nat)
    requires Possible(setup, events) && 1 <= s <= |Run(setup, events).drives|
    ensures var p := Run(setup, events);
      && |p.drives| == p.rx.lastProcessedInputSeq
      && if Covered(setup, events, s) then s <= |p.log| && p.drives[s - 1].buttons == Logged(p.log, s)
         else if s == 1 || IdleAfter(setup, events, s - 1) then p.drives[s - 1].buttons == 0
         else p.drives[s - 1].buttons == p.drives[s - 2].buttons
  {
    RunKeepsInv(setup, events);
    assert Settled(setup, events, s);
  }

  /** The authoritative position depends on the acknowledged sequence alone: it is the fold of what was consumed. */
  lemma AuthorityIsAFold(setup: Setup, events: seq<Event>)
    requires Possible(setup, events)
    ensures Run(setup, events).pos == Travel(setup.spawn, Run(setup, events).drives)
    ensures |Run(setup, events).drives| == Run(setup, events).rx.lastProcessedInputSeq
  {
    RunKeepsInv(setup, events);
  }

  /**
   * The consume timeline. An active tick consumes exactly one sequence when some input was ever received and
   * its deadline, fixed at commit, has passed, and none otherwise. The timeline is always armed by then, so
   * the realignment the code provides for a late first input is never taken.
   */
  lemma OneSequencePerDeadline(setup: Setup, events: seq<Event>, e: Event)
    requires Possible(setup, events + [e]) && e.Tick? && e.active
    ensures var p := Run(setup, events); var q := Run(setup, events + [e]); var s := |p.drives| + 1;
      && p.rx.inputTimelineStarted
      && if p.rx.lastReceivedInputSeq != 0 && e.serverTick >= setup.FirstDeadline() + (s - 1)
         then |q.drives| == s && q.drives[..s - 1] == p.drives
         else q.drives == p.drives && q.pos == p.pos
  {
    assert (events + [e])[..|events|] == events;
    RunKeepsInv(setup, events);
    var p := Run(setup, events);
    ConsumedNext(p.rx, e.serverTick, setup.inputLeadTicks);
    NoButtonsNoMove(p.pos, e.tiles, e.speedQ);
  }

  /** A longer run keeps what was covered. */
  lemma {:induction false} CoveredStays(setup: Setup, events: seq<Event>, i: nat, s: nat)
    requires i <= |events| && Covered(setup, events[..i], s)
    ensures Covered(setup, events, s)
    decreases |events|
  {
    if i < |events| {
      var before := events[..|events| - 1];
      assert before[..i] == events[..i];
      CoveredStays(setup, before, i, s);
    } else {
      assert events[..i] == events;
    }
  }

  /**
   * Redundancy: any one of the sixteen batches the client built while s was among its newest sixteen inputs,
   * arriving while s is inside the window, is enough for the server to simulate the client's own button.
   */
  lemma AnyOfSixteenBatchesSuffices(setup: Setup, events: seq<Event>, i: nat, n: nat, s: nat)
    requires Possible(setup, events) && i < |events|
    requires 0 < n <= |Run(setup, events[..i]).log|
    requires events[i] == Deliver(NewestBatch(Run(setup, events[..i]).log[..n]))
    requires 1 <= s && s <= n < s + 16
    requires var processed := Run(setup, events[..i]).rx.lastProcessedInputSeq; processed < s <= processed + 31
    requires s <= |Run(setup, events).drives|
    ensures OwnInput(Run(setup, events), s)
  {
    var log := Run(setup, events[..i]).log;
    assert NewestBatch(log[..n]).Carries(s);
    assert events[..i + 1][..i] == events[..i];
    assert Covered(setup, events[..i + 1], s);
    CoveredStays(setup, events, i + 1, s);
    InputsAgree(setup, events, s);
  }

  /** The server simulated the client's own button for sequence s. */
  predicate OwnInput(p: Stream, s: nat) {
    1 <= s <= |p.drives| && s <= |p.log| && p.drives[s - 1].buttons == Logged(p.log, s)
  }

  /** Over a span without gaps the server simulated exactly the client's own inputs. */
  lemma NoGapsMeansOwnInputs(setup: Setup, events: seq<Event>, a: nat, b: nat)
    requires Possible(setup, events) && a <= b <= |Run(setup, events).drives|
    requires forall s | a < s <= b :: Covered(setup, events, s)
    ensures forall s | a < s <= b :: OwnInput(Run(setup, events), s)
  {
    forall s | a < s <= b ensures OwnInput(Run(setup, events), s) {
      InputsAgree(setup, events, s);
    }
  }

  // ----- The code on the stream -----

  lemma DeliveredIsWellFormed(setup: Setup, events: seq<Event>, msg: MsgInput)
    requires Possible(setup, events + [Deliver(msg)])
    ensures msg.WellFormed() && Possible(setup, events)
  {
    assert (events + [Deliver(msg)])[..|events|] == events;
    RunKeepsInv(setup, events);
    var log := Run(setup, events).log;
    var n :| 0 < n <= |log| && msg == NewestBatch(log[..n]);
    EarlierBatchEchoes(log, n);
  }

  /**
   * The server's ring and position, driven by one more event of a possible stream: receive, arm, sit out or
   * resolve and move. They stay those of the stream.
   */
  method ServeEvent(x: MatchPlayerInput, pos: TilePos, setup: Setup, ghost events: seq<Event>, e: Event) returns (moved: TilePos)
    requires Possible(setup, events + [e])
    requires x.Valid() && x.Model() == Run(setup, events).rx && pos == Run(setup, events).pos
    modifies x, x.inputRing
    ensures x.Valid() && x.Model() == Run(setup, events + [e]).rx && moved == Run(setup, events + [e]).pos
  {
    hide Possible, StepMovementWithCollision, ResolveForTick, Received, Armed, IdleTick;
    assert (events + [e])[..|events|] == events;
    moved := pos;
    match e
    case Send(_) =>
    case Deliver(msg) =>
      DeliveredIsWellFormed(setup, events, msg);
      x.OnInput(msg);
    case Commit => x.ArmTimeline(setup.unlockServerTick, setup.inputLeadTicks);
    case Tick(serverTick, active, tiles, speedQ) =>
      if !active {
        x.ClearButtons();
      } else {
        x.ResolveInputForTick(serverTick, setup.inputLeadTicks);
        moved := Move(pos, x.appliedButtons, tiles, speedQ);
      }
  }
}
