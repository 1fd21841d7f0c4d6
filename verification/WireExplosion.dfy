/** The ExplosionResolved payload: 497 bytes, fixed layout (Net/NetCommon.h). */
module WireExplosion {
  import opened Config
  import opened Wrappers
  import opened Tiles
  import opened Movement
  import opened Bytes

  const BLAST_CELLS := 121
  const DESTROYED_BRICKS := 120
  const BLAST_CELLS_OFFSET := 15
  const DESTROYED_BRICKS_OFFSET := 257
  const EXPLOSION_SIZE := 497

  datatype MsgCell = MsgCell(col: Byte, row: Byte)

  type BlastArray = s: seq<MsgCell> | |s| == BLAST_CELLS witness seq(BLAST_CELLS, _ => MsgCell(0, 0))
  type BrickArray = s: seq<MsgCell> | |s| == DESTROYED_BRICKS witness seq(DESTROYED_BRICKS, _ => MsgCell(0, 0))

  /** The payload as it stands in memory: full arrays, of which the first `count` entries are in use. */
  datatype MsgExplosionResolved = MsgExplosionResolved(
    matchId: U32, serverTick: U32, ownerId: Byte, originCol: Byte, originRow: Byte, radius: Byte,
    killedPlayerMask: Byte, blastCellCount: Byte, destroyedBrickCount: Byte,
    blastCells: BlastArray, destroyedBricks: BrickArray)

  predicate ValidTileCell(c: MsgCell) {
    c.col < WIDTH && c.row < HEIGHT
  }

  ghost predicate DistinctUpTo(cells: seq<MsgCell>, n: nat)
    requires n <= |cells|
  {
    forall i, j | 0 <= i < j < n :: cells[i] != cells[j]
  }

  /** What a receiver may rely on. */
  ghost predicate WellFormed(m: MsgExplosionResolved) {
    && m.ownerId < MAX_PLAYERS && ValidTileCell(MsgCell(m.originCol, m.originRow)) && m.radius != 0
    && m.killedPlayerMask < 16
    && 1 <= m.blastCellCount <= BLAST_CELLS
    && m.destroyedBrickCount <= DESTROYED_BRICKS && m.destroyedBrickCount <= m.blastCellCount
    && BlastListOk(m) && BrickListOk(m)
  }

  ghost predicate BlastListOk(m: MsgExplosionResolved)
    requires m.blastCellCount <= BLAST_CELLS
  {
    && DistinctUpTo(m.blastCells, m.blastCellCount)
    && (forall i | 0 <= i < m.blastCellCount :: ValidTileCell(m.blastCells[i]))
    && m.blastCells[0] == MsgCell(m.originCol, m.originRow)
  }

  ghost predicate BrickListOk(m: MsgExplosionResolved)
    requires m.blastCellCount <= BLAST_CELLS && m.destroyedBrickCount <= DESTROYED_BRICKS
  {
    && DistinctUpTo(m.destroyedBricks, m.destroyedBrickCount)
    && (forall i | 0 <= i < m.destroyedBrickCount :: m.destroyedBricks[i] in m.blastCells[..m.blastCellCount])
  }

  // ----- Layout -----

  function CellByte(c: MsgCell, i: nat): Byte {
    if i == 0 then c.col else c.row
  }

  /** Byte k of the serialised payload. */
  function ExplosionByte(m: MsgExplosionResolved, k: nat): Byte
    requires k < EXPLOSION_SIZE
  {
    if k < 4 then ByteOf(m.matchId, k)
    else if k < 8 then ByteOf(m.serverTick, k - 4)
    else if k == 8 then m.ownerId
    else if k == 9 then m.originCol
    else if k == 10 then m.originRow
    else if k == 11 then m.radius
    else if k == 12 then m.killedPlayerMask
    else if k == 13 then AtMost(m.blastCellCount, BLAST_CELLS)
    else if k == 14 then AtMost(m.destroyedBrickCount, DESTROYED_BRICKS)
    else if k < DESTROYED_BRICKS_OFFSET then
      CellByte(m.blastCells[(k - BLAST_CELLS_OFFSET) / 2], (k - BLAST_CELLS_OFFSET) % 2)
    else CellByte(m.destroyedBricks[(k - DESTROYED_BRICKS_OFFSET) / 2], (k - DESTROYED_BRICKS_OFFSET) % 2)
  }

  function ExplosionBytes(m: MsgExplosionResolved): seq<Byte> {
    seq(EXPLOSION_SIZE, k requires 0 <= k < EXPLOSION_SIZE => ExplosionByte(m, k))
  }

  function CellAt(b: seq<Byte>, at: nat): MsgCell
    requires at + 2 <= |b|
  {
    MsgCell(b[at], b[at + 1])
  }

  /** The fields as they stand in the bytes, before any validation. */
  function Parsed(b: seq<Byte>): MsgExplosionResolved
    requires |b| >= EXPLOSION_SIZE
  {
    MsgExplosionResolved(ReadU32LE(b, 0), ReadU32LE(b, 4), b[8], b[9], b[10], b[11], b[12], b[13], b[14],
      seq(BLAST_CELLS, i requires 0 <= i < BLAST_CELLS => CellAt(b, BLAST_CELLS_OFFSET + 2 * i)),
      seq(DESTROYED_BRICKS, i requires 0 <= i < DESTROYED_BRICKS => CellAt(b, DESTROYED_BRICKS_OFFSET + 2 * i)))
  }

  /** What the receiver makes of a payload. */
  ghost function Decoded(b: seq<Byte>): Option<MsgExplosionResolved> {
    if |b| >= EXPLOSION_SIZE && WellFormed(Parsed(b)) then Some(Parsed(b)) else None
  }

  // ----- The code -----

  method WriteCells(cells: seq<MsgCell>, out: array<Byte>, at: nat)
    requires at + 2 * |cells| <= out.Length
    modifies out
    ensures forall i | 0 <= i < |cells| :: out[at + 2 * i] == cells[i].col && out[at + 2 * i + 1] == cells[i].row
    ensures forall k | 0 <= k < out.Length && !(at <= k < at + 2 * |cells|) :: out[k] == old(out[k])
  {
    for i := 0 to |cells|
      invariant forall j | 0 <= j < i :: out[at + 2 * j] == cells[j].col && out[at + 2 * j + 1] == cells[j].row
      invariant forall k | 0 <= k < out.Length && !(at <= k < at + 2 * i) :: out[k] == old(out[k])
    {
      out[at + 2 * i] := cells[i].col;
      out[at + 2 * i + 1] := cells[i].row;
    }
  }

  method SerializeMsgExplosionResolved(m: MsgExplosionResolved, out: array<Byte>)
    requires out.Length >= EXPLOSION_SIZE
    modifies out
    ensures out[..EXPLOSION_SIZE] == ExplosionBytes(m)
    ensures out[EXPLOSION_SIZE..] == old(out[EXPLOSION_SIZE..])
  {
    WriteHead(m, out);
    WriteCells(m.blastCells, out, BLAST_CELLS_OFFSET);
    WriteCells(m.destroyedBricks, out, DESTROYED_BRICKS_OFFSET);
    LaidOut(m, out[..]);
  }

  /** The fixed fields before the cell lists. */
  method WriteHead(m: MsgExplosionResolved, out: array<Byte>)
    requires out.Length >= EXPLOSION_SIZE
    modifies out
    ensures forall k | 0 <= k < BLAST_CELLS_OFFSET :: out[k] == ExplosionByte(m, k)
    ensures forall k | BLAST_CELLS_OFFSET <= k < out.Length :: out[k] == old(out[k])
  {
    hide ByteOf;
    WriteU32LE(out, 0, m.matchId);
    WriteU32LE(out, 4, m.serverTick);
    assert forall i | 0 <= i < 4 :: out[0 + i] == ByteOf(m.matchId, i);
    out[8], out[9], out[10] := m.ownerId, m.originCol, m.originRow;
    out[11], out[12] := m.radius, m.killedPlayerMask;
    out[13] := AtMost(m.blastCellCount, BLAST_CELLS);
    out[14] := AtMost(m.destroyedBrickCount, DESTROYED_BRICKS);
    forall k | 0 <= k < BLAST_CELLS_OFFSET ensures out[k] == ExplosionByte(m, k) {
      assert 4 <= k < 8 ==> out[4 + (k - 4)] == ByteOf(m.serverTick, k - 4);
    }
  }

  /** Head and both lists in place are the whole layout. */
  lemma LaidOut(m: MsgExplosionResolved, b: seq<Byte>)
    requires |b| >= EXPLOSION_SIZE && forall k | 0 <= k < BLAST_CELLS_OFFSET :: b[k] == ExplosionByte(m, k)
    requires forall i | 0 <= i < BLAST_CELLS ::
      b[BLAST_CELLS_OFFSET + 2 * i] == m.blastCells[i].col && b[BLAST_CELLS_OFFSET + 2 * i + 1] == m.blastCells[i].row
    requires forall i | 0 <= i < DESTROYED_BRICKS ::
      b[DESTROYED_BRICKS_OFFSET + 2 * i] == m.destroyedBricks[i].col && b[DESTROYED_BRICKS_OFFSET + 2 * i + 1] == m.destroyedBricks[i].row
    ensures b[..EXPLOSION_SIZE] == ExplosionBytes(m)
  {
    hide ByteOf;
    forall k | 0 <= k < EXPLOSION_SIZE ensures b[k] == ExplosionByte(m, k) {
      if BLAST_CELLS_OFFSET <= k < DESTROYED_BRICKS_OFFSET {
        var i := (k - BLAST_CELLS_OFFSET) / 2;
        assert k == BLAST_CELLS_OFFSET + 2 * i || k == BLAST_CELLS_OFFSET + 2 * i + 1;
      } else if DESTROYED_BRICKS_OFFSET <= k {
        var i := (k - DESTROYED_BRICKS_OFFSET) / 2;
        assert k == DESTROYED_BRICKS_OFFSET + 2 * i || k == DESTROYED_BRICKS_OFFSET + 2 * i + 1;
      }
    }
  }

  function KeyOf(c: MsgCell): nat {
    c.row * WIDTH + c.col
  }

  lemma KeysAreDistinct(c: MsgCell, d: MsgCell)
    requires ValidTileCell(c) && ValidTileCell(d)
    ensures KeyOf(c) < TILE_COUNT && (KeyOf(c) == KeyOf(d) <==> c == d)
  {
  }

  /** The cells seen so far, as the deserializer remembers them. */
  ghost predicate Remembers(seen: seq<bool>, cells: seq<MsgCell>) {
    && |seen| == TILE_COUNT
    && (forall i | 0 <= i < |cells| :: ValidTileCell(cells[i]))
    && forall c: MsgCell | ValidTileCell(c) :: seen[KeyOf(c)] <==> c in cells
  }

  lemma NothingSeen(seen: seq<bool>)
    requires |seen| == TILE_COUNT && forall k | 0 <= k < TILE_COUNT :: !seen[k]
    ensures Remembers(seen, [])
  {
  }

  lemma RememberOneMore(seen: seq<bool>, cells: seq<MsgCell>, c: MsgCell)
    requires Remembers(seen, cells) && ValidTileCell(c)
    ensures Remembers(seen[KeyOf(c) := true], cells + [c])
  {
    forall d: MsgCell | ValidTileCell(d) ensures seen[KeyOf(c) := true][KeyOf(d)] <==> d in cells + [c] {
      KeysAreDistinct(c, d);
    }
  }

  method MarkSeen(seen: array<bool>, c: MsgCell)
    requires seen.Length == TILE_COUNT && ValidTileCell(c)
    modifies seen
    ensures seen[..] == old(seen[..])[KeyOf(c) := true]
  {
    seen[KeyOf(c)] := true;
  }

  /** Reads the active blast cells; fails on a cell off the map or listed twice. */
  method ReadBlastCells(cells: BlastArray, count: nat, seen: array<bool>) returns (ok: bool)
    requires count <= BLAST_CELLS && seen.Length == TILE_COUNT && forall k | 0 <= k < TILE_COUNT :: !seen[k]
    modifies seen
    ensures ok <==> DistinctUpTo(cells, count) && forall i | 0 <= i < count :: ValidTileCell(cells[i])
    ensures ok ==> Remembers(seen[..], cells[..count])
  {
    hide KeyOf;
    NothingSeen(seen[..]);
    for i := 0 to count
      invariant DistinctUpTo(cells, i) && Remembers(seen[..], cells[..i])
    {
      if !ValidTileCell(cells[i]) {
        return false;
      }
      KeysAreDistinct(cells[i], cells[i]);
      if seen[KeyOf(cells[i])] {
        return false;
      }
      RememberOneMore(seen[..], cells[..i], cells[i]);
      assert cells[..i + 1] == cells[..i] + [cells[i]];
      MarkSeen(seen, cells[i]);
    }
    return true;
  }

  /** Reads the destroyed bricks; fails on one outside the blast or listed twice. */
  method ReadDestroyedBricks(bricks: BrickArray, count: nat, seenBlast: array<bool>, ghost blast: seq<MsgCell>, seen: array<bool>)
    returns (ok: bool)
    requires count <= DESTROYED_BRICKS && seenBlast != seen && Remembers(seenBlast[..], blast)
    requires seen.Length == TILE_COUNT && forall k | 0 <= k < TILE_COUNT :: !seen[k]
    modifies seen
    ensures ok <==> DistinctUpTo(bricks, count) && forall i | 0 <= i < count :: bricks[i] in blast
  {
    hide KeyOf;
    NothingSeen(seen[..]);
    for i := 0 to count
      invariant DistinctUpTo(bricks, i) && Remembers(seen[..], bricks[..i]) && forall j | 0 <= j < i :: bricks[j] in blast
      invariant seenBlast[..] == old(seenBlast[..])
    {
      if !ValidTileCell(bricks[i]) {
        return false;
      }
      KeysAreDistinct(bricks[i], bricks[i]);
      if !seenBlast[..][KeyOf(bricks[i])] || seen[..][KeyOf(bricks[i])] {
        return false;
      }
      RememberOneMore(seen[..], bricks[..i], bricks[i]);
      assert bricks[..i + 1] == bricks[..i] + [bricks[i]];
      MarkSeen(seen, bricks[i]);
    }
    return true;
  }

  /** The receiver's validation: it accepts exactly the well-formed payloads. */
  method DeserializeMsgExplosionResolved(b: seq<Byte>) returns (r: Option<MsgExplosionResolved>)
    ensures r == Decoded(b)
  {
    hide DistinctUpTo, Remembers;
    if |b| < EXPLOSION_SIZE {
      return None;
    }
    var m := Parsed(b);
    hide Parsed;
    if m.ownerId >= MAX_PLAYERS || !ValidTileCell(MsgCell(m.originCol, m.originRow)) || m.radius == 0 || m.killedPlayerMask >= 16 {
      return None;
    }
    if m.blastCellCount == 0 || m.blastCellCount > BLAST_CELLS {
      return None;
    }
    if m.destroyedBrickCount > DESTROYED_BRICKS || m.destroyedBrickCount > m.blastCellCount {
      return None;
    }
    var seenBlastCells := new bool[TILE_COUNT](_ => false);
    var seenDestroyedBricks := new bool[TILE_COUNT](_ => false);
    var ok := ReadBlastCells(m.blastCells, m.blastCellCount, seenBlastCells);
    if !ok {
      return None;
    }
    if m.blastCells[0] != MsgCell(m.originCol, m.originRow) {
      return None;
    }
    ok := ReadDestroyedBricks(m.destroyedBricks, m.destroyedBrickCount, seenBlastCells,
                              m.blastCells[..m.blastCellCount], seenDestroyedBricks);
    return if ok then Some(m) else None;
  }

  // ----- Round trip -----

  lemma BlastCellReadsBack(m: MsgExplosionResolved, i: nat)
    requires i < BLAST_CELLS
    ensures CellAt(ExplosionBytes(m), BLAST_CELLS_OFFSET + 2 * i) == m.blastCells[i]
  {
    hide ByteOf;
    assert ExplosionBytes(m)[BLAST_CELLS_OFFSET + 2 * i] == ExplosionByte(m, BLAST_CELLS_OFFSET + 2 * i);
    assert ExplosionBytes(m)[BLAST_CELLS_OFFSET + 2 * i + 1] == ExplosionByte(m, BLAST_CELLS_OFFSET + 2 * i + 1);
  }

  lemma BrickReadsBack(m: MsgExplosionResolved, i: nat)
    requires i < DESTROYED_BRICKS
    ensures CellAt(ExplosionBytes(m), DESTROYED_BRICKS_OFFSET + 2 * i) == m.destroyedBricks[i]
  {
    hide ByteOf;
    assert ExplosionBytes(m)[DESTROYED_BRICKS_OFFSET + 2 * i] == ExplosionByte(m, DESTROYED_BRICKS_OFFSET + 2 * i);
    assert ExplosionBytes(m)[DESTROYED_BRICKS_OFFSET + 2 * i + 1] == ExplosionByte(m, DESTROYED_BRICKS_OFFSET + 2 * i + 1);
  }

  lemma CellsReadBack(m: MsgExplosionResolved)
    ensures Parsed(ExplosionBytes(m)).blastCells == m.blastCells
    ensures Parsed(ExplosionBytes(m)).destroyedBricks == m.destroyedBricks
  {
    hide ByteOf, ReadU32LE, ExplosionByte, CellAt;
    var b := ExplosionBytes(m);
    forall i | 0 <= i < BLAST_CELLS ensures CellAt(b, BLAST_CELLS_OFFSET + 2 * i) == m.blastCells[i] {
      BlastCellReadsBack(m, i);
    }
    forall i | 0 <= i < DESTROYED_BRICKS ensures CellAt(b, DESTROYED_BRICKS_OFFSET + 2 * i) == m.destroyedBricks[i] {
      BrickReadsBack(m, i);
    }
  }

  /** A payload survives the wire unchanged exactly if it is well formed. */
  lemma ExplosionRoundTrip(m: MsgExplosionResolved)
    ensures Decoded(ExplosionBytes(m)) == Some(m) <==> WellFormed(m)
  {
    var b := ExplosionBytes(m);
    CellsReadBack(m);
    ReadBackU32(b, 0, m.matchId);
    ReadBackU32(b, 4, m.serverTick);
    hide ByteOf, ReadU32LE, BlastListOk, BrickListOk, CellByte;
    assert m.blastCellCount <= BLAST_CELLS && m.destroyedBrickCount <= DESTROYED_BRICKS ==> Parsed(b) == m;
  }
}
