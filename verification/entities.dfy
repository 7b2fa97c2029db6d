/**
 * Enemies, loot and the random draws behind drops: `ENEMY_TYPES`
 * (main.js:112-117), `spawnEnemies`/`makeEnemy` (main.js:631-663), the
 * per-enemy half of `resolveAttack` and of `updateProjectiles`
 * (main.js:757-768, 957-967), `onEnemyKilled` (main.js:815-829),
 * `dropResource` (main.js:785-797) and the chest contents of `openChest`
 * (main.js:880-904).
 */
module Entities {
  import opened Wrappers
  import opened Tiles
  import opened Geometry
  import opened Items
  import opened WorldGrid

  datatype EnemyKind = Slime | Rogue | Guardian | Boss

  /** The gameplay columns of an `ENEMY_TYPES` row; speed, colour and chase range are movement and drawing. */
  datatype EnemyStats = EnemyStats(hp: int, dmg: int, xp: int)

  function StatsOf(k: EnemyKind): EnemyStats {
    match k
    case Slime => EnemyStats(16, 8, 8)
    case Rogue => EnemyStats(28, 12, 14)
    case Guardian => EnemyStats(40, 14, 18)
    case Boss => EnemyStats(200, 16, 60)
  }

  /** An enemy: kind, centre in pixels, hit points and hit-immunity time left. */
  datatype Enemy = Enemy(kind: EnemyKind, x: real, y: real, hp: int, invuln: real)

  predicate Alive(e: Enemy) { e.hp > 0 }

  /** `makeEnemy` (main.js:648-663): full hit points, no immunity. */
  function MakeEnemy(kind: EnemyKind, x: real, y: real): (e: Enemy)
    ensures Alive(e) && e.hp == StatsOf(kind).hp && e.invuln == 0.0
    ensures e.kind == kind && e.x == x && e.y == y
  {
    Enemy(kind, x, y, StatsOf(kind).hp, 0.0)
  }

  /** The pixel centre of tile (tx, ty). */
  function TileCentre(t: int): real {
    (t * TileSize + TileSize / 2) as real
  }

  /**
   * `spawnEnemies` (main.js:631-646): two slimes and a rogue in the
   * wilderness, two guardians in the dungeon, and the boss unless it is
   * already dead.
   */
  function SpawnEnemies(bossDead: bool): (r: seq<Enemy>)
    ensures |r| == if bossDead then 5 else 6
    ensures forall i :: 0 <= i < |r| ==> Alive(r[i]) && r[i].invuln == 0.0
    ensures !bossDead ==> r[|r| - 1].kind == Boss
    ensures forall i :: 0 <= i < |r| && r[i].kind == Boss ==> !bossDead && i == |r| - 1
  {
    var common := [MakeEnemy(Slime, TileCentre(26), TileCentre(26)), MakeEnemy(Slime, TileCentre(35), TileCentre(18)),
                   MakeEnemy(Rogue, TileCentre(36), TileCentre(30)), MakeEnemy(Guardian, TileCentre(50), TileCentre(18)),
                   MakeEnemy(Guardian, TileCentre(56), TileCentre(24))];
    if bossDead then common else common + [MakeEnemy(Boss, TileCentre(60), TileCentre(22))]
  }

  /** The enemy's 28 by 28 hurt box around its centre. */
  function HitBox(e: Enemy): Rect {
    Rect(e.x - 14.0, e.y - 14.0, 28.0, 28.0)
  }

  /**
   * One enemy under a melee swing (main.js:757-768): a living, overlapped
   * enemy that is not immune loses `dmg` hp and becomes immune for 0.2s.
   * The flag is the `onEnemyKilled` call: it is raised exactly when this
   * hit takes the enemy from alive to dead.
   */
  function MeleeStruck(e: Enemy, box: Rect, dmg: int): (r: (Enemy, bool))
    ensures r.1 <==> Alive(e) && !Alive(r.0)
    ensures Alive(e) && RectsOverlap(box, HitBox(e)) && e.invuln <= 0.0 ==>
      r.0 == e.(hp := e.hp - dmg, invuln := 0.2)
    ensures !(Alive(e) && RectsOverlap(box, HitBox(e)) && e.invuln <= 0.0) ==> r.0 == e
  {
    if e.hp <= 0 || !RectsOverlap(box, HitBox(e)) || e.invuln > 0.0 then (e, false)
    else
      var e' := e.(hp := e.hp - dmg, invuln := 0.2);
      (e', e'.hp <= 0)
  }

  /** The 12 by 12 box of a projectile centred at (px, py). */
  function ShotBox(px: real, py: real): Rect {
    Rect(px - 6.0, py - 6.0, 12.0, 12.0)
  }

  /** The enemy a projectile hits: the first living one it overlaps (main.js:957-967). */
  function FirstTarget(es: seq<Enemy>, box: Rect): (r: Option<nat>)
    ensures r.Some? ==> r.value < |es| && Alive(es[r.value]) && RectsOverlap(box, HitBox(es[r.value]))
    ensures r.Some? ==> forall i :: 0 <= i < r.value ==> !(Alive(es[i]) && RectsOverlap(box, HitBox(es[i])))
    ensures r.None? ==> forall i :: 0 <= i < |es| ==> !(Alive(es[i]) && RectsOverlap(box, HitBox(es[i])))
  {
    if |es| == 0 then None
    else if Alive(es[0]) && RectsOverlap(box, HitBox(es[0])) then Some(0)
    else match FirstTarget(es[1..], box)
      case None => None
      case Some(k) => Some(k + 1)
  }

  /** A loot drop: where it lies, an optional item and quantity, coins and experience. */
  datatype Loot = Loot(x: real, y: real, id: Option<string>, qty: nat, coins: int, xp: nat)

  /**
   * `dropResource` (main.js:785-797): a harvestable tile drops its
   * resource, one of it or two on the 30% roll, at the tile's centre; any
   * other tile drops nothing.
   */
  function ResourceDrop(kind: TileKind, tx: int, ty: int, bonus: bool): (r: Option<Loot>)
    ensures r.Some? <==> IsHarvestable(kind)
    ensures r.Some? ==> r.value.id == ResourceOf(kind) && r.value.qty == (if bonus then 2 else 1)
    ensures r.Some? ==> r.value.x == TileCentre(tx) && r.value.y == TileCentre(ty)
    ensures r.Some? ==> r.value.coins == 0 && r.value.xp == 0
  {
    match ResourceOf(kind)
    case None => None
    case Some(id) => Some(Loot(TileCentre(tx), TileCentre(ty), Some(id), 1 + (if bonus then 1 else 0), 0, 0))
  }

  /** The random draws of one `onEnemyKilled`: coins, and on the 70% roll a material index and quantity. */
  datatype KillRoll = KillRoll(coins: int, drop: Option<(nat, nat)>)

  /** The ranges of `randInt(3, 8)`, `randInt(0, 3)` and `randInt(1, 2)`. */
  predicate ValidKillRoll(k: KillRoll) {
    3 <= k.coins <= 8 && (k.drop.Some? ==> k.drop.value.0 < 4 && 1 <= k.drop.value.1 <= 2)
  }

  function Materials(): seq<string> {
    ["wood", "stone", "ore", "herb"]
  }

  /** `ENEMY_TYPES[type].xp || 6`: every kind has a non-zero reward, so the fallback never applies. */
  function XpReward(k: EnemyKind): (r: int)
    ensures r == StatsOf(k).xp && r > 0
  {
    if StatsOf(k).xp != 0 then StatsOf(k).xp else 6
  }

  /**
   * The loot of `onEnemyKilled` (main.js:816-823): a coin and experience
   * drop where the enemy fell, then possibly one material drop beside it.
   */
  function KillLoot(e: Enemy, roll: KillRoll): (r: seq<Loot>)
    requires ValidKillRoll(roll)
    ensures |r| == if roll.drop.Some? then 2 else 1
    ensures r[0].id.None? && r[0].coins == roll.coins && r[0].xp == StatsOf(e.kind).xp && r[0].x == e.x && r[0].y == e.y
    ensures |r| == 2 ==> r[1].id.Some? && r[1].id.value in Materials() && 1 <= r[1].qty <= 2 && r[1].coins == 0 && r[1].xp == 0
  {
    var main := Loot(e.x, e.y, None, 0, roll.coins, XpReward(e.kind));
    match roll.drop
    case None => [main]
    case Some((m, q)) => [main, Loot(e.x + 6.0, e.y + 6.0, Some(Materials()[m]), q, 0, 0)]
  }

  /** The random draws of a reward chest: `randInt(1, 3)` ore, `randInt(1, 2)` herbs, `randInt(8, 15)` coins. */
  datatype ChestRoll = ChestRoll(ore: nat, herb: nat, coins: int)

  predicate ValidChestRoll(c: ChestRoll) {
    1 <= c.ore <= 3 && 1 <= c.herb <= 2 && 8 <= c.coins <= 15
  }

  /**
   * The items `openChest` adds, in order (main.js:881-900): the key chest
   * holds the dungeon key, two ore and a bottle; the reward chest ore, a
   * potion and herbs.
   */
  function ChestItems(kind: ChestKind, roll: ChestRoll): (r: Cost)
    ensures |r| == 3 && DistinctIds(r)
    ensures forall i :: 0 <= i < |r| ==> IsItem(r[i].0)
    ensures forall i :: 0 <= i < |r| && r[i].0 == "dungeon_key" ==> kind == KeyChest && r[i].1 == 1
  {
    if kind == KeyChest then [("dungeon_key", 1), ("ore", 2), ("bottle", 1)]
    else [("ore", roll.ore), ("potion", 1), ("herb", roll.herb)]
  }

  /** Only the key chest holds the dungeon key, and exactly one. */
  lemma ChestKeyCount(kind: ChestKind, roll: ChestRoll)
    ensures Quantity(ChestItems(kind, roll), "dungeon_key") == if kind == KeyChest then 1 else 0
  {
    var r := ChestItems(kind, roll);
    assert r[..2][..1] == r[..1] && r[..3] == r && r[..3][..2] == r[..2];
    assert Quantity(r[..1], "dungeon_key") == if kind == KeyChest then 1 else 0;
    assert Quantity(r[..2], "dungeon_key") == Quantity(r[..1], "dungeon_key");
  }

  /** Opening a chest adds one key exactly when it is the key chest. */
  lemma ChestKeys(b: Holdings, kind: ChestKind, roll: ChestRoll)
    ensures Count(AddedAll(b, ChestItems(kind, roll)).inventory, "dungeon_key") == Count(b.inventory, "dungeon_key") + (if kind == KeyChest then 1 else 0)
  {
    AddedAllCounts(b, ChestItems(kind, roll));
    ChestKeyCount(kind, roll);
  }

  /** The coins `openChest` pays: none from the key chest. */
  function ChestCoins(kind: ChestKind, roll: ChestRoll): (c: int)
    ensures kind == KeyChest ==> c == 0
    ensures kind == RewardChest ==> c == roll.coins
  {
    if kind == KeyChest then 0 else roll.coins
  }
}
