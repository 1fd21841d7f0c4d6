/** The arena shared by client and server (Const.h, Sim/TileMapGen.h, Sim/SpawnSlots.h). */
module Tiles {

  datatype Tile = Stone | Grass | Brick | EmptyGrass | Bomb | Bang

  const WIDTH := 31
  const HEIGHT := 13
  const TILE_COUNT := 403

  /** A tile map is stored row by row, as the C++ two-dimensional array is. */
  type TileMap = m: seq<Tile> | |m| == TILE_COUNT witness seq(TILE_COUNT, _ => Stone)

  datatype Cell = Cell(col: int, row: int)

  predicate InBounds(col: int, row: int) {
    0 <= col < WIDTH && 0 <= row < HEIGHT
  }

  predicate Inside(c: Cell) {
    InBounds(c.col, c.row)
  }

  /** The packed cell key, which is also the index of the cell in a tile map. */
  function CellKey(col: int, row: int): int {
    row * WIDTH + col
  }

  lemma CellKeyIsInjective(c: Cell, d: Cell)
    requires InBounds(c.col, c.row) && InBounds(d.col, d.row)
    ensures 0 <= CellKey(c.col, c.row) < TILE_COUNT
    ensures CellKey(c.col, c.row) == CellKey(d.col, d.row) <==> c == d
    ensures CellKey(c.col, c.row) < CellKey(d.col, d.row)
        <==> c.row < d.row || (c.row == d.row && c.col < d.col)
  {
  }

  function At(m: TileMap, col: int, row: int): Tile
    requires InBounds(col, row)
  {
    m[CellKey(col, row)]
  }

  predicate Solid(t: Tile) {
    t == Stone || t == Brick
  }

  /** A cell of the map that neither stone nor brick fills, by column and row. */
  predicate LetsThrough(m: TileMap, col: int, row: int) {
    0 <= col < 31 && 0 <= row < 13 && m[31 * row + col] != Stone && m[31 * row + col] != Brick
  }

  // ----- Base layout and generation -----

  /** The clear cells kept around the four spawn corners. */
  const CLEAR_CELLS: set<Cell> := {
    Cell(1, 1), Cell(2, 1), Cell(3, 1), Cell(29, 1),
    Cell(1, 2), Cell(3, 2),
    Cell(1, 3), Cell(2, 3), Cell(3, 3),
    Cell(1, 9), Cell(29, 9)
  }

  /**
   * The base table, written as the rule that produces it: a stone border, stone pillars on the even
   * cells, the clear spawn cells, one fixed brick and grass elsewhere. The source table lists eleven
   * rows for thirteen, so the last two rows are zero-initialised, which is Stone.
   */
  function BaseTile(col: int, row: int): Tile
    requires InBounds(col, row)
  {
    if row == 0 || row >= 10 || col == 0 || col == WIDTH - 1 then Stone
    else if row % 2 == 0 && col % 2 == 0 then Stone
    else if Cell(col, row) in CLEAR_CELLS then EmptyGrass
    else if col == 20 && row == 5 then Brick
    else Grass
  }

  function TileOf(letter: char): Tile {
    match letter
    case 'S' => Stone
    case 'E' => EmptyGrass
    case 'B' => Brick
    case _ => Grass
  }

  /** The table row by row: stone, grass, the cells kept empty and one brick. */
  function BaseRow(row: nat): string {
    match row
    case 1 => "SEEEGGGGGGGGGGGGGGGGGGGGGGGGGES"
    case 2 => "SESESGSGSGSGSGSGSGSGSGSGSGSGSGS"
    case 3 => "SEEEGGGGGGGGGGGGGGGGGGGGGGGGGGS"
    case 4 => "SGSGSGSGSGSGSGSGSGSGSGSGSGSGSGS"
    case 5 => "SGGGGGGGGGGGGGGGGGGGBGGGGGGGGGS"
    case 6 => "SGSGSGSGSGSGSGSGSGSGSGSGSGSGSGS"
    case 7 => "SGGGGGGGGGGGGGGGGGGGGGGGGGGGGGS"
    case 8 => "SGSGSGSGSGSGSGSGSGSGSGSGSGSGSGS"
    case 9 => "SEGGGGGGGGGGGGGGGGGGGGGGGGGGGES"
    case _ => "SSSSSSSSSSSSSSSSSSSSSSSSSSSSSSS"
  }

  lemma FirstRow(col: int, row: int)
    requires 0 <= col < 31 && row == 1
    ensures |BaseRow(row)| == 31 && BaseTile(col, row) == TileOf(BaseRow(row)[col])
  {
  }

  lemma SecondRow(col: int, row: int)
    requires 0 <= col < 31 && row == 2
    ensures |BaseRow(row)| == 31 && BaseTile(col, row) == TileOf(BaseRow(row)[col])
  {
  }

  lemma ThirdRow(col: int, row: int)
    requires 0 <= col < 31 && row == 3
    ensures |BaseRow(row)| == 31 && BaseTile(col, row) == TileOf(BaseRow(row)[col])
  {
  }

  lemma FifthRow(col: int, row: int)
    requires 0 <= col < 31 && row == 5
    ensures |BaseRow(row)| == 31 && BaseTile(col, row) == TileOf(BaseRow(row)[col])
  {
  }

  lemma SeventhRow(col: int, row: int)
    requires 0 <= col < 31 && row == 7
    ensures |BaseRow(row)| == 31 && BaseTile(col, row) == TileOf(BaseRow(row)[col])
  {
  }

  lemma NinthRow(col: int, row: int)
    requires 0 <= col < 31 && row == 9
    ensures |BaseRow(row)| == 31 && BaseTile(col, row) == TileOf(BaseRow(row)[col])
  {
  }

  lemma PillarRow(col: int, row: int)
    requires 0 <= col < 31 && (row == 4 || row == 6 || row == 8)
    ensures |BaseRow(row)| == 31 && BaseTile(col, row) == TileOf(BaseRow(row)[col])
  {
  }

  lemma StoneRow(col: int, row: int)
    requires 0 <= col < 31 && (row == 0 || 10 <= row < 13)
    ensures |BaseRow(row)| == 31 && BaseTile(col, row) == TileOf(BaseRow(row)[col])
  {
  }

  /** The rule gives the table, cell by cell. */
  lemma BaseIsTheTable(col: int, row: int)
    requires 0 <= col < 31 && 0 <= row < 13
    ensures |BaseRow(row)| == 31 && BaseTile(col, row) == TileOf(BaseRow(row)[col])
  {
    hide BaseRow, BaseTile, TileOf;
    if row == 1 {
      FirstRow(col, row);
    } else if row == 2 {
      SecondRow(col, row);
    } else if row == 3 {
      ThirdRow(col, row);
    } else if row == 5 {
      FifthRow(col, row);
    } else if row == 7 {
      SeventhRow(col, row);
    } else if row == 9 {
      NinthRow(col, row);
    } else if row == 4 || row == 6 || row == 8 {
      PillarRow(col, row);
    } else {
      StoneRow(col, row);
    }
  }

  /** What every map of a round satisfies: only Grass and Brick cells ever differ from the base. */
  ghost predicate Arena(m: TileMap) {
    forall col, row | InBounds(col, row) ::
      var base := BaseTile(col, row);
      At(m, col, row) == base || (base in {Grass, Brick} && At(m, col, row) in {Grass, Brick})
  }

  /** The map a generator run produces for one outcome of its brick draws. */
  ghost predicate IsGenerated(m: TileMap, draws: seq<bool>)
    requires |draws| == TILE_COUNT
  {
    forall col, row | InBounds(col, row) ::
      At(m, col, row) ==
        if BaseTile(col, row) == Grass && draws[CellKey(col, row)] then Brick else BaseTile(col, row)
  }

  /** Fills a map from the base; `draws` holds the outcome of the random brick draws. */
  method GenerateTileMap(draws: seq<bool>, tiles: array<Tile>)
    requires |draws| == TILE_COUNT && tiles.Length == TILE_COUNT
    modifies tiles
    ensures IsGenerated(tiles[..], draws)
    ensures Arena(tiles[..])
  {
    for row := 0 to HEIGHT
      invariant forall c, r | InBounds(c, r) && r < row ::
        tiles[CellKey(c, r)] == if BaseTile(c, r) == Grass && draws[CellKey(c, r)] then Brick else BaseTile(c, r)
    {
      for col := 0 to WIDTH
        invariant forall c, r | InBounds(c, r) && (r < row || (r == row && c < col)) ::
          tiles[CellKey(c, r)] == if BaseTile(c, r) == Grass && draws[CellKey(c, r)] then Brick else BaseTile(c, r)
      {
        tiles[CellKey(col, row)] := BaseTile(col, row);
        if tiles[CellKey(col, row)] == Grass && draws[CellKey(col, row)] {
          tiles[CellKey(col, row)] := Brick;
        }
      }
    }
    ghost var m: TileMap := tiles[..];
    forall c, r | InBounds(c, r)
      ensures At(m, c, r) == if BaseTile(c, r) == Grass && draws[CellKey(c, r)] then Brick else BaseTile(c, r)
    {
      assert m[CellKey(c, r)] == tiles[CellKey(c, r)];
    }
  }

  /** `after` can be reached from `before` by turning bricks into grass. */
  ghost predicate OnlyBricksCleared(before: TileMap, after: TileMap) {
    forall i | 0 <= i < TILE_COUNT :: after[i] == before[i] || (before[i] == Brick && after[i] == Grass)
  }

  lemma ClearingBricksKeepsArena(before: TileMap, after: TileMap)
    requires Arena(before) && OnlyBricksCleared(before, after)
    ensures Arena(after)
  {
    forall col, row | InBounds(col, row)
      ensures At(after, col, row) == BaseTile(col, row)
           || (BaseTile(col, row) in {Grass, Brick} && At(after, col, row) in {Grass, Brick})
    {
      assert At(before, col, row) == before[CellKey(col, row)];
    }
  }
}
