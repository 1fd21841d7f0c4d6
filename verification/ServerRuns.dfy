/** What every history of the whole server says of its broadcasts: the theorems about rounds hold of each match it plays. */
module ServerRuns {
  import opened Config
  import opened Wrappers
  import opened Tiles
  import opened Bytes
  import opened World
  import opened Rounds
  import opened WholeServer
  import F = Flow
  import WorldRuns
  import Effects
  import BrickStream
  import Snapshot
  import E = WireEvents
  import W = WireSnapshot

  ghost predicate InPlay(start: TileMap, hs: seq<Happening>, lead: nat, lost: F.Losses) {
    WholeServer.Possible(start, hs, lead, lost) && WholeServer.Run(start, hs, lead, lost).round.Some?
  }

  /** The world of a match is always the end of a possible round. */
  lemma EveryWorldIsPlayed(start: TileMap, hs: seq<Happening>, lead: nat, lost: F.Losses) returns (first: Round, events: seq<RoundEvent>)
    requires InPlay(start, hs, lead, lost)
    ensures var w := WholeServer.Run(start, hs, lead, lost);
      && RoundStarts(w.start, first) && Rounds.Possible(first, events, lead)
      && w.round == Some(Rounds.Run(first, events, lead))
  {
    hide WholeServer.Possible, WholeServer.Run, RoundStarts, Rounds.Possible, Rounds.Run, Aligned, InRound;
    EveryHistoryHolds(start, hs, lead, lost);
    var w := WholeServer.Run(start, hs, lead, lost);
    first, events :| RoundStarts(w.start, first) && Rounds.Possible(first, events, lead)
                     && Rounds.Run(first, events, lead) == w.round.value;
  }

  /**
   * At every moment of every history: the events broadcast so far are valid on the wire and rebuild the map of the
   * match, and whichever of them a client was sent, it shows that map exactly if each explosion that broke a
   * brick reached it as the first event of its tick.
   */
  lemma EventsOfAMatch(start: TileMap, hs: seq<Happening>, lead: nat, lost: F.Losses, matchId: U32)
    requires InPlay(start, hs, lead, lost)
    ensures var w := WholeServer.Run(start, hs, lead, lost); var world := w.round.value.world;
      && BrickStream.SentInv(w.start, world)
      && BrickStream.Rebuild(w.start, world.sent) == world.tiles
      && (forall i | 0 <= i < |world.sent| :: E.Passes(world.sent[i], matchId))
      && (forall kept: seq<bool> | |kept| == |world.sent| ::
            BrickStream.Gated(w.start, world.sent, kept).tiles == world.tiles <==> BrickStream.BricksOpenTheirTick(world.sent, kept))
  {
    hide InPlay, RoundStarts, Rounds.Possible, Rounds.Run, WholeServer.Run, E.Passes, BrickStream.SentInv, BrickStream.Rebuild,
         BrickStream.Gated, BrickStream.BricksOpenTheirTick;
    var first, events := EveryWorldIsPlayed(start, hs, lead, lost);
    var w := WholeServer.Run(start, hs, lead, lost);
    var sent := w.round.value.world.sent;
    BrickStream.EveryStreamHolds(w.start, first, events, lead);
    BrickStream.StreamRebuildsTheWorld(w.start, first, events, lead);
    forall i | 0 <= i < |sent| ensures E.Passes(sent[i], matchId) {
      E.EveryEventPasses(w.start, first, events, lead, matchId, i);
    }
    forall kept: seq<bool> | |kept| == |sent|
      ensures BrickStream.Gated(w.start, sent, kept).tiles == w.round.value.world.tiles <==> BrickStream.BricksOpenTheirTick(sent, kept)
    {
      BrickStream.GatedClientMatchesIff(w.start, first, events, lead, kept);
    }
  }

  /** At every moment of every history the snapshot of the match decodes to itself and leaves nothing out. */
  lemma SnapshotOfAMatch(start: TileMap, hs: seq<Happening>, lead: nat, lost: F.Losses, matchId: U32)
    requires InPlay(start, hs, lead, lost) && WholeServer.Run(start, hs, lead, lost).round.value.world.tick < 0x1_0000_0000
    ensures var world := WholeServer.Run(start, hs, lead, lost).round.value.world;
      && Snapshot.Fits(world)
      && var s := Snapshot.SnapshotOf(world, matchId);
         W.Decoded(W.SnapshotBytes(s)) == Some(s) && s.bombCount <= 8 && Snapshot.ShowsTheWorld(s, world, matchId)
  {
    hide InPlay, RoundStarts, Rounds.Possible, Rounds.Run, WholeServer.Run, WorldRuns.MidInv, Snapshot.Fits;
    var first, events := EveryWorldIsPlayed(start, hs, lead, lost);
    var w := WholeServer.Run(start, hs, lead, lost);
    EveryRoundHolds(w.start, first, events, lead);
    var world := w.round.value.world;
    assert WorldRuns.MidInv(w.start, world);
    Snapshot.SnapshotPasses(w.start, world, matchId);
    Snapshot.SnapshotIsComplete(w.start, world, matchId);
    AtMostEightBombs(w.start, world);
  }

  /** At every moment of every history no effect has more than its full duration left. */
  lemma EffectsOfAMatch(start: TileMap, hs: seq<Happening>, lead: nat, lost: F.Losses)
    requires InPlay(start, hs, lead, lost)
    ensures Effects.TimersOk(WholeServer.Run(start, hs, lead, lost).round.value.world)
  {
    hide InPlay, RoundStarts, Rounds.Possible, Rounds.Run, WholeServer.Run, Effects.TimersOk;
    var first, events := EveryWorldIsPlayed(start, hs, lead, lost);
    Effects.EveryEffectIsBounded(WholeServer.Run(start, hs, lead, lost).start, first, events, lead);
  }
}
