/**
 * Tile types of the world grid and the per-tile harvest rules
 * (main.js:59-77, 361-363, 773-797, 1073-1085).
 */
module Tiles {
  import opened Wrappers

  /** Side of one tile in pixels. */
  const TileSize: int := 32
  /** Grid size in tiles; fixed for the whole session. */
  const Width: int := 70
  const Height: int := 45

  datatype TileKind =
    | Grass | Path | Water | Wall
    | Tree | Stone | Ore | Herb
    | DFloor | DWall
    | Door | LockedDoor
    | Chest | ChestOpen

  /** A grid cell: its type and remaining harvest hit points. */
  datatype Tile = Tile(kind: TileKind, hp: int)

  /** Whether movement onto a tile of this type is refused. */
  predicate IsSolid(k: TileKind): (r: bool)
    ensures r <==> k !in {Grass, Path, DFloor, Door, ChestOpen}
  {
    k == Wall || k == Water || k == Tree || k == Stone || k == Ore || k == Herb
    || k == DWall || k == LockedDoor || k == Chest
  }

  /** The tile types an attack wears down. */
  predicate IsHarvestable(k: TileKind) {
    k == Tree || k == Stone || k == Ore || k == Herb
  }

  /** The item a depleted tile drops; absent for every other type. */
  function ResourceOf(k: TileKind): (r: Option<string>)
    ensures r.Some? <==> IsHarvestable(k)
    ensures r.Some? ==> r.value in {"wood", "stone", "ore", "herb"}
  {
    match k
    case Tree => Some("wood")
    case Stone => Some("stone")
    case Ore => Some("ore")
    case Herb => Some("herb")
    case _ => None
  }

  /** The grid invariant: only harvestable tiles carry hit points, and they carry some. */
  predicate TileOk(t: Tile) {
    if IsHarvestable(t.kind) then t.hp > 0 else t.hp == 0
  }

  /** One tile struck by an attack of strength `dmg`. */
  function HarvestTile(t: Tile, dmg: int): (r: Tile)
    ensures !IsHarvestable(t.kind) ==> r == t
    ensures IsHarvestable(t.kind) && t.hp - dmg > 0 ==> r.kind == t.kind && r.hp == t.hp - dmg
    ensures IsHarvestable(t.kind) && t.hp - dmg <= 0 ==> r == Tile(Grass, 0)
    ensures TileOk(t) ==> TileOk(r)
  {
    if IsHarvestable(t.kind) then
      if t.hp - dmg <= 0 then Tile(Grass, 0) else Tile(t.kind, t.hp - dmg)
    else t
  }

  /** Whether a strike depletes the tile, which is when a resource drops. */
  predicate Depleted(t: Tile, dmg: int) {
    IsHarvestable(t.kind) && t.hp - dmg <= 0
  }
}
