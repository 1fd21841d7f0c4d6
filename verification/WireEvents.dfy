/** The small gameplay payloads, the packet header, and the way the server's events become payloads (Net/NetCommon.h). */
module WireEvents {
  import opened Config
  import opened Utils
  import opened Wrappers
  import opened Tiles
  import opened Movement
  import opened Bytes
  import opened Blast
  import opened World
  import Input
  import Rounds
  import BrickStream
  import E = WireExplosion

  // ----- BombPlaced -----

  const BOMB_PLACED_SIZE := 16

  datatype MsgBombPlaced = MsgBombPlaced(
    matchId: U32, serverTick: U32, explodeTick: U32, ownerId: Byte, col: Byte, row: Byte, radius: Byte)

  predicate BombPlacedOk(m: MsgBombPlaced) {
    m.ownerId < MAX_PLAYERS && m.col < WIDTH && m.row < HEIGHT && m.radius != 0 && m.serverTick <= m.explodeTick
  }

  function BombPlacedByte(m: MsgBombPlaced, k: nat): Byte
    requires k < BOMB_PLACED_SIZE
  {
    if k < 4 then ByteOf(m.matchId, k)
    else if k < 8 then ByteOf(m.serverTick, k - 4)
    else if k < 12 then ByteOf(m.explodeTick, k - 8)
    else if k == 12 then m.ownerId else if k == 13 then m.col else if k == 14 then m.row else m.radius
  }

  function BombPlacedBytes(m: MsgBombPlaced): seq<Byte> {
    seq(BOMB_PLACED_SIZE, k requires 0 <= k < BOMB_PLACED_SIZE => BombPlacedByte(m, k))
  }

  function DecodeBombPlaced(b: seq<Byte>): Option<MsgBombPlaced> {
    if |b| < BOMB_PLACED_SIZE then None
    else
      var m := MsgBombPlaced(ReadU32LE(b, 0), ReadU32LE(b, 4), ReadU32LE(b, 8), b[12], b[13], b[14], b[15]);
      if m.ownerId >= MAX_PLAYERS then None
      else if m.col >= WIDTH || m.row >= HEIGHT then None
      else if m.radius == 0 || m.explodeTick < m.serverTick then None
      else Some(m)
  }

  lemma BombPlacedRoundTrip(m: MsgBombPlaced)
    ensures DecodeBombPlaced(BombPlacedBytes(m)) == Some(m) <==> BombPlacedOk(m)
  {
    var b := BombPlacedBytes(m);
    ReadBackU32(b, 0, m.matchId);
    ReadBackU32(b, 4, m.serverTick);
    ReadBackU32(b, 8, m.explodeTick);
    hide ByteOf, ReadU32LE;
  }

  // ----- Correction -----

  const CORRECTION_SIZE := 20

  datatype MsgCorrection = MsgCorrection(
    matchId: U32, serverTick: U32, lastProcessedInputSeq: U32, xQ: I16, yQ: I16, playerFlags: Byte)

  function CorrectionByte(m: MsgCorrection, k: nat): Byte
    requires k < CORRECTION_SIZE
  {
    if k < 4 then ByteOf(m.matchId, k)
    else if k < 8 then ByteOf(m.serverTick, k - 4)
    else if k < 12 then ByteOf(m.lastProcessedInputSeq, k - 8)
    else if k < 14 then ByteOf(AsUnsigned(m.xQ), k - 12)
    else if k < 16 then ByteOf(AsUnsigned(m.yQ), k - 14)
    else if k == 16 then m.playerFlags else 0
  }

  function CorrectionBytes(m: MsgCorrection): seq<Byte> {
    seq(CORRECTION_SIZE, k requires 0 <= k < CORRECTION_SIZE => CorrectionByte(m, k))
  }

  function DecodeCorrection(b: seq<Byte>): Option<MsgCorrection> {
    if |b| < CORRECTION_SIZE then None
    else Some(MsgCorrection(ReadU32LE(b, 0), ReadU32LE(b, 4), ReadU32LE(b, 8), ReadI16LE(b, 12), ReadI16LE(b, 14), b[16]))
  }

  /** A correction always arrives as it was sent. */
  lemma CorrectionRoundTrip(m: MsgCorrection)
    ensures DecodeCorrection(CorrectionBytes(m)) == Some(m)
  {
    var b := CorrectionBytes(m);
    ReadBackU32(b, 0, m.matchId);
    ReadBackU32(b, 4, m.serverTick);
    ReadBackU32(b, 8, m.lastProcessedInputSeq);
    ReadBackI16(b, 12, m.xQ);
    ReadBackI16(b, 14, m.yQ);
    hide ByteOf, ReadU32LE, ReadI16LE, AsUnsigned;
  }

  // ----- Input -----

  const INPUT_SIZE := 21

  /** Sixteen entries are always written; those beyond the count are zero. */
  function InputByte(m: Input.MsgInput, k: nat): Byte
    requires k < INPUT_SIZE && m.baseInputSeq < 0x1_0000_0000 && |m.inputs| < 256
  {
    if k < 4 then ByteOf(m.baseInputSeq, k)
    else if k == 4 then |m.inputs|
    else if k - 5 < |m.inputs| then m.inputs[k - 5] else 0
  }

  function InputBytes(m: Input.MsgInput): seq<Byte>
    requires m.baseInputSeq < 0x1_0000_0000 && |m.inputs| < 256
  {
    seq(INPUT_SIZE, k requires 0 <= k < INPUT_SIZE => InputByte(m, k))
  }

  /** Nothing but well-formed batches ever gets through. */
  function DecodeInput(b: seq<Byte>): (r: Option<Input.MsgInput>)
    ensures r.Some? ==> r.value.WellFormed()
  {
    if |b| < INPUT_SIZE then None
    else if b[4] == 0 || b[4] > Input.MAX_INPUT_BATCH_SIZE then None
    else if ReadU32LE(b, 0) < 1 then None
    else
      var inputs := b[5..5 + b[4]];
      if exists i :: 0 <= i < |inputs| && inputs[i] > INPUT_KNOWN_BITS then None
      else Some(Input.MsgInput(ReadU32LE(b, 0), inputs))
  }

  /** A batch arrives as it was sent exactly if it is well formed. */
  lemma InputRoundTrip(m: Input.MsgInput)
    requires m.baseInputSeq < 0x1_0000_0000 && |m.inputs| < 256
    ensures DecodeInput(InputBytes(m)) == Some(m) <==> m.WellFormed()
  {
    var b := InputBytes(m);
    ReadBackU32(b, 0, m.baseInputSeq);
    hide ByteOf, ReadU32LE;
    if 1 <= |m.inputs| <= Input.MAX_INPUT_BATCH_SIZE {
      assert b[5..5 + b[4]] == m.inputs;
      assert forall i | 0 <= i < |m.inputs| :: b[5 + i] == m.inputs[i];
    }
  }

  // ----- Packet header -----

  const HEADER_SIZE := 3

  /** The payload size the protocol fixes for each message type byte; 0 for unknown types. */
  function ExpectedPayloadSize(kind: Byte): nat {
    match kind
    case 0x01 => 18
    case 0x02 => 5
    case 0x03 => 3
    case 0x04 => 8
    case 0x05 => 76
    case 0x06 => 1
    case 0x07 => 4
    case 0x08 => 12
    case 0x09 => 4
    case 0x0A => 22
    case 0x10 => 21
    case 0x11 => 111
    case 0x12 => 20
    case 0x13 => 16
    case 0x14 => 497
    case _ => 0
  }

  function Packet(kind: Byte, payload: seq<Byte>): seq<Byte>
    requires |payload| < 0x1_0000
  {
    [kind, ByteOf(|payload|, 0), ByteOf(|payload|, 1)] + payload
  }

  /** The type of a packet, if its header is valid for its length. */
  function DecodeHeader(packet: seq<Byte>): Option<Byte> {
    if |packet| < HEADER_SIZE then None
    else if ExpectedPayloadSize(packet[0]) == 0 then None
    else if |packet| != HEADER_SIZE + ReadU16LE(packet, 1) then None
    else if ReadU16LE(packet, 1) != ExpectedPayloadSize(packet[0]) then None
    else Some(packet[0])
  }

  /** The header admits a packet exactly if its payload has the size its type demands. */
  lemma HeaderRoundTrip(kind: Byte, payload: seq<Byte>)
    requires |payload| < 0x1_0000
    ensures DecodeHeader(Packet(kind, payload)) == Some(kind) <==> |payload| == ExpectedPayloadSize(kind) && |payload| > 0
    ensures Packet(kind, payload)[HEADER_SIZE..] == payload
  {
    ReadBackU16(Packet(kind, payload), 1, |payload|);
  }

  // ----- From the server's events to payloads -----

  function CellOnWire(c: Cell): E.MsgCell
    requires Inside(c)
  {
    E.MsgCell(c.col, c.row)
  }

  function CellOffWire(c: E.MsgCell): Cell {
    Cell(c.col, c.row)
  }

  function Mask(killed: set<nat>): (m: Byte)
    ensures m < 16
  {
    (if 0 in killed then 1 else 0) + (if 1 in killed then 2 else 0) + (if 2 in killed then 4 else 0) + (if 3 in killed then 8 else 0)
  }

  /** The players whose bit of the mask is set. */
  function KilledOffWire(mask: Byte): set<nat> {
    set id: nat | id < MAX_PLAYERS && BitIsSet(mask, id)
  }

  predicate BitIsSet(mask: Byte, id: nat) {
    mask / (if id == 0 then 1 else if id == 1 then 2 else if id == 2 then 4 else 8) % 2 == 1
  }

  /** Bit id of the mask is set exactly for the killed players. */
  lemma MaskIsTheKilled(killed: set<nat>)
    requires forall id | id in killed :: id < MAX_PLAYERS
    ensures forall id: nat | id < MAX_PLAYERS :: BitIsSet(Mask(killed), id) <==> id in killed
    ensures KilledOffWire(Mask(killed)) == killed
  {
  }

  function PadCells(cells: seq<Cell>, size: nat): (r: seq<E.MsgCell>)
    requires |cells| <= size && forall i | 0 <= i < |cells| :: Inside(cells[i])
    ensures |r| == size && forall i | 0 <= i < |cells| :: r[i] == CellOnWire(cells[i])
  {
    seq(size, i requires 0 <= i < size => if i < |cells| then CellOnWire(cells[i]) else E.MsgCell(0, 0))
  }

  predicate Packable(m: Message) {
    && m.Explosion? && m.serverTick < 0x1_0000_0000 && m.ownerId < 256 && m.radius < 256 && Inside(m.cell)
    && |m.blastCells| <= E.BLAST_CELLS && |m.destroyedBricks| <= E.DESTROYED_BRICKS
    && (forall i | 0 <= i < |m.blastCells| :: Inside(m.blastCells[i]))
    && (forall i | 0 <= i < |m.destroyedBricks| :: Inside(m.destroyedBricks[i]))
  }

  function ExplosionOnWire(m: Message, matchId: U32): E.MsgExplosionResolved
    requires Packable(m)
  {
    E.MsgExplosionResolved(matchId, m.serverTick, m.ownerId, m.cell.col, m.cell.row, m.radius, Mask(m.killed),
      |m.blastCells|, |m.destroyedBricks|, PadCells(m.blastCells, E.BLAST_CELLS), PadCells(m.destroyedBricks, E.DESTROYED_BRICKS))
  }

  /** The bricks a receiver takes from the payload. */
  function BricksOffWire(m: E.MsgExplosionResolved): seq<Cell>
    requires m.destroyedBrickCount <= E.DESTROYED_BRICKS
  {
    seq(m.destroyedBrickCount, i requires 0 <= i < m.destroyedBrickCount => CellOffWire(m.destroyedBricks[i]))
  }

  lemma ListsStayDistinct(cells: seq<Cell>, size: nat)
    requires |cells| <= size && Distinct(cells) && forall i | 0 <= i < |cells| :: Inside(cells[i])
    ensures E.DistinctUpTo(PadCells(cells, size), |cells|)
    ensures forall i | 0 <= i < |cells| :: E.ValidTileCell(PadCells(cells, size)[i])
  {
    var r := PadCells(cells, size);
    hide PadCells;
    forall i, j | 0 <= i < j < |cells| ensures r[i] != r[j] {
      assert cells[i] != cells[j];
    }
  }

  lemma BricksStayInBlast(m: Message)
    requires Packable(m) && BrickStream.WellFormed(m)
    ensures forall i | 0 <= i < |m.destroyedBricks| ::
      PadCells(m.destroyedBricks, E.DESTROYED_BRICKS)[i] in PadCells(m.blastCells, E.BLAST_CELLS)[..|m.blastCells|]
  {
    hide PadCells;
    forall i | 0 <= i < |m.destroyedBricks|
      ensures PadCells(m.destroyedBricks, E.DESTROYED_BRICKS)[i] in PadCells(m.blastCells, E.BLAST_CELLS)[..|m.blastCells|]
    {
      var j :| 0 <= j < |m.blastCells| && m.blastCells[j] == m.destroyedBricks[i];
      assert PadCells(m.blastCells, E.BLAST_CELLS)[..|m.blastCells|][j] == CellOnWire(m.blastCells[j]);
    }
  }

  lemma WellFormedIsPackable(m: Message)
    requires m.Explosion? && BrickStream.WellFormed(m) && m.serverTick < 0x1_0000_0000
    ensures Packable(m)
  {
    forall i | 0 <= i < |m.destroyedBricks| ensures Inside(m.destroyedBricks[i]) {
      assert m.destroyedBricks[i] in m.blastCells;
    }
  }

  /** A well-formed explosion passes the client's validator and brings its bricks over unchanged. */
  lemma ExplosionPasses(m: Message, matchId: U32)
    requires m.Explosion? && BrickStream.WellFormed(m) && m.serverTick < 0x1_0000_0000
    ensures Packable(m)
    ensures var p := ExplosionOnWire(m, matchId);
      && E.Decoded(E.ExplosionBytes(p)) == Some(p)
      && BricksOffWire(p) == m.destroyedBricks && KilledOffWire(p.killedPlayerMask) == m.killed
  {
    MaskIsTheKilled(m.killed);
    WellFormedIsPackable(m);
    ListsStayDistinct(m.blastCells, E.BLAST_CELLS);
    ListsStayDistinct(m.destroyedBricks, E.DESTROYED_BRICKS);
    BricksStayInBlast(m);
    hide PadCells, E.DistinctUpTo;
    var p := ExplosionOnWire(m, matchId);
    assert p.blastCells[0] == CellOnWire(m.blastCells[0]);
    assert E.WellFormed(p);
    E.ExplosionRoundTrip(p);
    forall i | 0 <= i < |m.destroyedBricks| ensures BricksOffWire(p)[i] == m.destroyedBricks[i] {
      assert p.destroyedBricks[i] == CellOnWire(m.destroyedBricks[i]);
    }
  }

  function BombPlacedOnWire(m: Message, matchId: U32): MsgBombPlaced
    requires m.BombPlaced? && m.explodeTick < 0x1_0000_0000 && m.serverTick < 0x1_0000_0000
    requires m.ownerId < 256 && m.radius < 256 && Inside(m.cell)
  {
    MsgBombPlaced(matchId, m.serverTick, m.explodeTick, m.ownerId, m.cell.col, m.cell.row, m.radius)
  }

  lemma BombPlacedPasses(m: Message, matchId: U32)
    requires m.BombPlaced? && BrickStream.WellFormed(m) && m.explodeTick < 0x1_0000_0000
    ensures DecodeBombPlaced(BombPlacedBytes(BombPlacedOnWire(m, matchId))) == Some(BombPlacedOnWire(m, matchId))
  {
    BombPlacedRoundTrip(BombPlacedOnWire(m, matchId));
  }

  /** A cell list as it stands in a payload. */
  ghost predicate CellsCarried(wire: seq<E.MsgCell>, count: nat, cells: seq<Cell>) {
    count == |cells| <= |wire| && forall i | 0 <= i < |cells| :: wire[i].col == cells[i].col && wire[i].row == cells[i].row
  }

  /** The payload carries the event field by field. */
  ghost predicate CarriesExplosion(p: E.MsgExplosionResolved, m: Message, matchId: U32)
    requires m.Explosion?
  {
    && p.matchId == matchId && p.serverTick == m.serverTick && p.ownerId == m.ownerId && p.radius == m.radius
    && p.originCol == m.cell.col && p.originRow == m.cell.row
    && CellsCarried(p.blastCells, p.blastCellCount, m.blastCells) && CellsCarried(p.destroyedBricks, p.destroyedBrickCount, m.destroyedBricks)
    && forall id: nat | id < 4 :: BitIsSet(p.killedPlayerMask, id) <==> id in m.killed
  }

  ghost predicate CarriesBombPlaced(p: MsgBombPlaced, m: Message, matchId: U32)
    requires m.BombPlaced?
  {
    && p.matchId == matchId && p.serverTick == m.serverTick && p.explodeTick == m.explodeTick && p.ownerId == m.ownerId
    && p.col == m.cell.col && p.row == m.cell.row && p.radius == m.radius
  }

  lemma ExplosionIsCarried(m: Message, matchId: U32)
    requires Packable(m) && forall id | id in m.killed :: id < MAX_PLAYERS
    ensures CarriesExplosion(ExplosionOnWire(m, matchId), m, matchId)
  {
    MaskIsTheKilled(m.killed);
    hide Mask, BitIsSet;
  }

  /** What one event must satisfy to arrive as it was sent. */
  ghost predicate Passes(m: Message, matchId: U32) {
    && BrickStream.WellFormed(m)
    && (m.Explosion? && m.serverTick < 0x1_0000_0000 ==>
          && Packable(m)
          && E.Decoded(E.ExplosionBytes(ExplosionOnWire(m, matchId))) == Some(ExplosionOnWire(m, matchId))
          && CarriesExplosion(ExplosionOnWire(m, matchId), m, matchId)
          && BricksOffWire(ExplosionOnWire(m, matchId)) == m.destroyedBricks
          && KilledOffWire(ExplosionOnWire(m, matchId).killedPlayerMask) == m.killed)
    && (m.BombPlaced? && m.explodeTick < 0x1_0000_0000 ==>
          && CarriesBombPlaced(BombPlacedOnWire(m, matchId), m, matchId)
          && DecodeBombPlaced(BombPlacedBytes(BombPlacedOnWire(m, matchId))) == Some(BombPlacedOnWire(m, matchId)))
  }

  lemma KilledExist(m: Message)
    requires m.Explosion? && BrickStream.WellFormed(m)
    ensures forall id | id in m.killed :: id < MAX_PLAYERS
  {
  }

  lemma WellFormedPasses(m: Message, matchId: U32)
    requires BrickStream.WellFormed(m)
    ensures Passes(m, matchId)
  {
    hide BrickStream.WellFormed, Packable, E.Decoded, E.ExplosionBytes, ExplosionOnWire, BombPlacedBytes, DecodeBombPlaced;
    if m.Explosion? && m.serverTick < 0x1_0000_0000 {
      ExplosionPasses(m, matchId);
      KilledExist(m);
      ExplosionIsCarried(m, matchId);
    }
    if m.BombPlaced? && m.explodeTick < 0x1_0000_0000 {
      BombPlacedPasses(m, matchId);
    }
  }

  /** Every gameplay event of every run of every round passes the client's validators and arrives unchanged. */
  lemma EveryEventPasses(start: TileMap, r: Rounds.Round, events: seq<Rounds.RoundEvent>, lead: nat, matchId: U32, i: nat)
    requires Rounds.RoundStarts(start, r) && Rounds.Possible(r, events, lead)
    requires i < |Rounds.Run(r, events, lead).world.sent|
    ensures Passes(Rounds.Run(r, events, lead).world.sent[i], matchId)
  {
    hide Rounds.RoundStarts, Rounds.Possible, Rounds.Run, Passes, BrickStream.StreamMatchesTiles, BrickStream.WellFormed;
    BrickStream.EveryStreamHolds(start, r, events, lead);
    WellFormedPasses(Rounds.Run(r, events, lead).world.sent[i], matchId);
  }
}
