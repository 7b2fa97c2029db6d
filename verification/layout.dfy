/**
 * The map `generateWorld` lays out (main.js:365-430), as a function of the
 * tile coordinates and of the random scatter positions it draws.
 */
module Layout {
  import opened Tiles

  /** A tile coordinate (x, y). */
  type Coord = (int, int)

  /**
   * The positions drawn by the four `scatter` calls, in call order:
   * 70 trees, 35 stones, 16 ores and 18 herbs (main.js:393-396).
   */
  datatype Scatter = Scatter(trees: seq<Coord>, stones: seq<Coord>, ores: seq<Coord>, herbs: seq<Coord>)

  predicate InBox(p: Coord, xlo: int, xhi: int, ylo: int, yhi: int) {
    xlo <= p.0 <= xhi && ylo <= p.1 <= yhi
  }

  /** What `randInt` can return for each call: counts and inclusive ranges of main.js:393-396. */
  predicate ValidScatter(sc: Scatter) {
    && |sc.trees| == 70 && (forall p :: p in sc.trees ==> InBox(p, 16, 44, 5, 38))
    && |sc.stones| == 35 && (forall p :: p in sc.stones ==> InBox(p, 20, 44, 6, 40))
    && |sc.ores| == 16 && (forall p :: p in sc.ores ==> InBox(p, 25, 44, 8, 36))
    && |sc.herbs| == 18 && (forall p :: p in sc.herbs ==> InBox(p, 14, 50, 6, 40))
  }

  /** Hit points a scattered resource starts with. */
  const TreeHp: int := 14
  const StoneHp: int := 16
  const OreHp: int := 20
  const HerbHp: int := 8

  /** Fixed positions: the locked door and the two chests. */
  const DoorX: int := 48
  const DoorY: int := 21
  const KeyChestPos: Coord := (30, 14)
  const RewardChestPos: Coord := (52, 30)

  predicate OnBorder(x: int, y: int) {
    x == 0 || x == Width - 1 || y == 0 || y == Height - 1
  }

  predicate InLake(x: int, y: int) { 22 <= x < 32 && 8 <= y < 18 }
  predicate InVillagePath(x: int, y: int) { 2 <= x < 18 && 15 <= y < 30 }
  /** The dungeon rectangle, edges included: x 48..68, y 10..34. */
  predicate InDungeon(x: int, y: int) { 48 <= x <= 68 && 10 <= y <= 34 }
  predicate OnDungeonEdge(x: int, y: int) {
    InDungeon(x, y) && (x == 48 || x == 68 || y == 10 || y == 34)
  }
  /** The two-row corridor x 44..48 at y 21 and 22. */
  predicate InCorridor(x: int, y: int) { 44 <= x <= 48 && (y == 21 || y == 22) }

  /** The grid after the grass fill, the border walls, the village path and the lake. */
  function BaseTile(x: int, y: int): Tile {
    if InLake(x, y) then Tile(Water, 0)
    else if InVillagePath(x, y) then Tile(Path, 0)
    else if OnBorder(x, y) then Tile(Wall, 0)
    else Tile(Grass, 0)
  }

  /**
   * The grid after the four scatter passes: a drawn position turns into the
   * resource only when it still holds grass, so the first pass to draw a
   * grass position wins and every later draw there is skipped.
   */
  function ScatteredTile(x: int, y: int, sc: Scatter): Tile {
    var b := BaseTile(x, y);
    if b.kind != Grass then b
    else if (x, y) in sc.trees then Tile(Tree, TreeHp)
    else if (x, y) in sc.stones then Tile(Stone, StoneHp)
    else if (x, y) in sc.ores then Tile(Ore, OreHp)
    else if (x, y) in sc.herbs then Tile(Herb, HerbHp)
    else b
  }

  /** The dungeon box: walls on its edge, floor inside. */
  function DungeonTile(x: int, y: int): Tile {
    if OnDungeonEdge(x, y) then Tile(DWall, 0) else Tile(DFloor, 0)
  }

  /** The finished grid, each later write taking precedence over earlier ones. */
  function GeneratedTile(x: int, y: int, sc: Scatter): Tile {
    if (x, y) == KeyChestPos || (x, y) == RewardChestPos then Tile(Chest, 0)
    else if x == DoorX && y == DoorY then Tile(LockedDoor, 0)
    else if InCorridor(x, y) then Tile(Path, 0)
    else if InDungeon(x, y) then DungeonTile(x, y)
    else ScatteredTile(x, y, sc)
  }

  /** Every generated tile satisfies the hit-point invariant. */
  lemma GeneratedTileOk(x: int, y: int, sc: Scatter)
    ensures TileOk(GeneratedTile(x, y, sc))
  {
  }

  /** The outer ring of the grid is wall whatever the scatter draws. */
  lemma BorderIsWall(x: int, y: int, sc: Scatter)
    requires 0 <= x < Width && 0 <= y < Height && OnBorder(x, y)
    ensures GeneratedTile(x, y, sc) == Tile(Wall, 0)
  {
  }

  /**
   * Resources only ever replace grass: a harvestable tile of the finished
   * grid lies outside every fixed structure, on grass of the base layout, at
   * a drawn position of its own kind.
   */
  lemma ScatterOnlyOnGrass(x: int, y: int, sc: Scatter)
    requires IsHarvestable(GeneratedTile(x, y, sc).kind)
    ensures BaseTile(x, y).kind == Grass
    ensures !InDungeon(x, y) && !InCorridor(x, y)
    ensures GeneratedTile(x, y, sc).kind == Tree ==> (x, y) in sc.trees
    ensures GeneratedTile(x, y, sc).kind == Stone ==> (x, y) in sc.stones && (x, y) !in sc.trees
    ensures GeneratedTile(x, y, sc).kind == Ore ==> (x, y) in sc.ores
    ensures GeneratedTile(x, y, sc).kind == Herb ==> (x, y) in sc.herbs
  {
  }

  /** The fixed structures: the locked door at (48, 21) and both chests closed. */
  lemma FixedStructures(sc: Scatter)
    ensures GeneratedTile(DoorX, DoorY, sc) == Tile(LockedDoor, 0)
    ensures GeneratedTile(KeyChestPos.0, KeyChestPos.1, sc) == Tile(Chest, 0)
    ensures GeneratedTile(RewardChestPos.0, RewardChestPos.1, sc) == Tile(Chest, 0)
  {
  }

  /**
   * The key chest stands inside the lake: it and the eight tiles around it
   * are solid in every generated map.
   */
  lemma KeyChestInLake(x: int, y: int, sc: Scatter)
    requires KeyChestPos.0 - 1 <= x <= KeyChestPos.0 + 1 && KeyChestPos.1 - 1 <= y <= KeyChestPos.1 + 1
    ensures IsSolid(GeneratedTile(x, y, sc).kind)
  {
  }

  /**
   * The corridor's second row runs onto the dungeon's west wall beside the
   * door: tile (48, 22) of the dungeon edge is path in every generated map.
   */
  lemma CorridorOpensWall(sc: Scatter)
    ensures OnDungeonEdge(DoorX, DoorY + 1) && GeneratedTile(DoorX, DoorY + 1, sc) == Tile(Path, 0)
  {
  }
}
