/**
 * The `game` object (main.js:121-135) and the operations that change it:
 * the screen transitions, `damagePlayer`, experience and perks, melee and
 * projectile hits with harvesting, chest and door interaction, and the
 * new-game, save and load paths.
 */
module Play {
  import opened Wrappers
  import opened Tiles
  import opened Geometry
  import opened Layout
  import opened WorldGrid
  import opened Items
  import opened Progression
  import opened GameStates
  import opened Entities
  import opened PlayerState
  import opened Combat

  const SaveVersion: int := 1

  /** The world part of a save (main.js:619-623). */
  datatype WorldSave = WorldSave(doorUnlocked: bool, bossDefeated: bool, openedChests: seq<Coord>)

  /** The stored record of `saveGame` (main.js:598-626). */
  datatype SaveData = SaveData(version: int, player: PlayerSave, world: WorldSave)

  function Abs(r: real): real {
    if r < 0.0 then -r else r
  }

  /** The reach test of `handleInteract` for a chest (main.js:855-857). */
  predicate ChestInReach(c: ChestEntry, px: real, py: real) {
    Abs(px - TileCentre(c.x)) < 28.0 && Abs(py - TileCentre(c.y)) < 28.0
  }

  /** The reach test of `handleInteract` for the door (main.js:867-869). */
  predicate DoorInReach(px: real, py: real) {
    Abs(px - TileCentre(DoorX)) < 32.0 && Abs(py - TileCentre(DoorY)) < 48.0
  }

  /** The chest `handleInteract` opens: the first unopened one within reach. */
  function ReachableChest(cs: seq<ChestEntry>, px: real, py: real): (r: Option<nat>)
    ensures r.Some? ==> r.value < |cs| && !cs[r.value].isOpen && ChestInReach(cs[r.value], px, py)
    ensures r.Some? ==> forall i :: 0 <= i < r.value ==> cs[i].isOpen || !ChestInReach(cs[i], px, py)
    ensures r.None? ==> forall i :: 0 <= i < |cs| ==> cs[i].isOpen || !ChestInReach(cs[i], px, py)
  {
    if |cs| == 0 then None
    else if !cs[0].isOpen && ChestInReach(cs[0], px, py) then Some(0)
    else match ReachableChest(cs[1..], px, py)
      case None => None
      case Some(k) => Some(k + 1)
  }

  class Game {
    var state: GameState
    const player: Player
    var world: World
    var enemies: seq<Enemy>
    var loot: seq<Loot>
    var doorUnlocked: bool
    var bossDefeated: bool
    /** Victory screens scheduled by `setTimeout` and not yet shown. */
    var victoryTimers: nat

    /**
     * The player and the world are consistent, the door tile shows the
     * door flag, and the boss flag says whether the one boss is dead.
     */
    ghost predicate Valid()
      reads this, player, world, world.tiles
    {
      && player.Valid() && world.Valid()
      && world.tiles[DoorY, DoorX] == Tile(if doorUnlocked then Door else LockedDoor, 0)
      && OneBoss(enemies) && BossFlagOk(enemies, bossDefeated)
    }

    /**
     * Keys are conserved: the key chest hands out the only key, and the door
     * consumes it.
     */
    ghost predicate KeyBalanced()
      reads this, player, world
    {
      |world.chests| > 0 &&
      Count(player.inventory, "dungeon_key") + (if doorUnlocked then 1 else 0) == (if world.chests[0].isOpen then 1 else 0)
    }

    /**
     * The page as first loaded: the menu, over a world already generated
     * with its enemies, and the player object's literal values.
     */
    constructor (sc: Scatter)
      requires ValidScatter(sc)
      ensures Valid() && KeyBalanced() && state == Menu
      ensures player.Held() == Holdings(map[], InitialHotbar())
      ensures loot == [] && victoryTimers == 0
    {
      player := new Player();
      world := new World.Generate(sc);
      enemies := SpawnEnemies(false);
      loot := [];
      doorUnlocked, bossDefeated, victoryTimers := false, false, 0;
      state := Menu;
      new;
      FixedStructures(sc);
      SpawnBossFlag(false);
    }

    // ----- Screen transitions -----

    /** `togglePause` (main.js:1132-1139): only play and pause swap. */
    method TogglePause()
      modifies this`state
      ensures state == Toggled(old(state))
    {
      if state == Playing {
        state := Paused;
      } else if state == Paused {
        ResumeGame();
      }
    }

    /** `resumeGame` (main.js:1141-1144): back to play from any state. */
    method ResumeGame()
      modifies this`state
      ensures state == Playing
    {
      state := Playing;
    }

    /** `goToMenu` (main.js:1146-1151). */
    method GoToMenu()
      modifies this`state
      ensures state == Menu
    {
      state := Menu;
    }

    /** `showGameOver` (main.js:1153-1156). */
    method ShowGameOver()
      modifies this`state
      ensures state == Dead
    {
      state := Dead;
    }

    /** `showVictory` (main.js:1158-1162); the save it writes is `Snapshot()`. */
    method ShowVictory()
      modifies this`state
      ensures state == Victory
    {
      state := Victory;
    }

    /** A pending `setTimeout(showVictory, 400)` fires (main.js:826). */
    method RunVictoryTimer()
      modifies this`state, this`victoryTimers
      ensures old(victoryTimers) > 0 ==> state == Victory && victoryTimers == old(victoryTimers) - 1
      ensures old(victoryTimers) == 0 ==> state == old(state) && victoryTimers == 0
    {
      if victoryTimers > 0 {
        victoryTimers := victoryTimers - 1;
        ShowVictory();
      }
    }

    // ----- Damage, experience and perks -----

    /** The fields `damagePlayer` reads and writes. */
    function VitalsOf(): Vitals
      reads this, player
    {
      Vitals(state, player.hp, player.invuln)
    }

    /**
     * `damagePlayer` (main.js:939-949). Every caller passes a non-negative
     * amount: an enemy's contact damage or a boss projectile's 12.
     */
    method DamagePlayer(amount: int, invulnTime: real)
      requires Valid() && amount >= 0
      modifies this`state, player`hp, player`invuln
      ensures Valid()
      ensures VitalsOf() == Damaged(old(VitalsOf()), amount, invulnTime)
    {
      if player.invuln > 0.0 || state != Playing {
        return;
      }
      player.hp := player.hp - amount;
      player.invuln := invulnTime;
      if player.hp <= 0 {
        player.hp := 0;
        ShowGameOver();
      }
    }

    /** `promptPerk` (main.js:1027-1049): only a game in play moves to the perk choice. */
    method PromptPerk()
      modifies this`state
      ensures state == if old(state) == Playing then ChoosingPerk else old(state)
    {
      if state != Playing {
        return;
      }
      state := ChoosingPerk;
    }

    /** A perk button (main.js:1041-1046): apply the perk and resume play. */
    method ChoosePerk(p: Perk)
      requires Valid()
      modifies this`state, player`maxHp, player`hp, player`damageBonus, player`speedBonus
      ensures Valid() && state == Playing
      ensures player.maxHp == old(player.maxHp) + (if p == MaxHpPerk then 10 else 0)
      ensures player.hp == old(player.hp) + (if p == MaxHpPerk then 10 else 0)
      ensures player.damageBonus == old(player.damageBonus) + (if p == DamagePerk then 3 else 0)
      ensures player.speedBonus == old(player.speedBonus) + (if p == SpeedPerk then player.speed * 0.15 else 0.0)
    {
      player.ApplyPerk(p);
      state := Playing;
    }

    /** One pass of the `checkLevelUp` loop: pay for the next level and prompt for a perk. */
    method LevelOnce()
      requires player.Valid() && player.xp >= XpToNext(player.level)
      modifies this`state, player`xp, player`level
      ensures player.Valid()
      ensures player.xp == old(player.xp) - XpToNext(old(player.level)) && player.level == old(player.level) + 1
      ensures state == if old(state) == Playing then ChoosingPerk else old(state)
    {
      player.xp := player.xp - XpToNext(player.level);
      player.level := player.level + 1;
      PromptPerk();
    }

    /**
     * `checkLevelUp` (main.js:1017-1025): the loop ends at `LevelUp` of the
     * old experience and level, and a game in play moves to the perk choice
     * once, however many levels were gained.
     */
    method CheckLevelUp()
      requires player.Valid()
      modifies this`state, player`xp, player`level
      ensures player.Valid()
      ensures (player.xp, player.level) == LevelUp(old(player.xp), old(player.level))
      ensures state == if old(state) == Playing && player.level > old(player.level) then ChoosingPerk else old(state)
    {
      var needed := XpToNext(player.level);
      while player.xp >= needed
        invariant player.Valid()
        invariant needed == XpToNext(player.level)
        invariant player.level >= old(player.level)
        invariant LevelUp(player.xp, player.level) == LevelUp(old(player.xp), old(player.level))
        invariant state == if old(state) == Playing && player.level > old(player.level) then ChoosingPerk else old(state)
        decreases player.xp
      {
        LevelUpStep(player.xp, player.level);
        LevelOnce();
        needed := XpToNext(player.level);
      }
    }

    /** `gainXp` (main.js:1007-1011): add, then run the level-up loop. */
    method GainXp(amount: nat)
      requires player.Valid()
      modifies this`state, player`xp, player`level
      ensures player.Valid()
      ensures (player.xp, player.level) == LevelUp(old(player.xp) + amount, old(player.level))
      ensures state == if old(state) == Playing && player.level > old(player.level) then ChoosingPerk else old(state)
    {
      player.xp := player.xp + amount;
      CheckLevelUp();
    }

    // ----- Combat -----

    /**
     * `onEnemyKilled` (main.js:815-829): drop the kill loot; a dead boss
     * sets the flag and schedules the victory screen.
     */
    method OnEnemyKilled(e: Enemy, roll: KillRoll)
      requires ValidKillRoll(roll)
      modifies this`loot, this`bossDefeated, this`victoryTimers
      ensures loot == old(loot) + KillLoot(e, roll)
      ensures bossDefeated == (old(bossDefeated) || e.kind == Boss)
      ensures victoryTimers == old(victoryTimers) + (if e.kind == Boss then 1 else 0)
    {
      loot := loot + KillLoot(e, roll);
      if e.kind == Boss {
        bossDefeated := true;
        victoryTimers := victoryTimers + 1;
      }
    }

    /** The enemy loop of `resolveAttack` (main.js:757-770) itself; enemy i dies with roll i. */
    method StrikeEach(box: Rect, dmg: int, rolls: seq<KillRoll>)
      requires RollsFor(enemies, rolls)
      modifies this`enemies, this`loot, this`bossDefeated, this`victoryTimers
      ensures enemies == Struck(old(enemies), box, dmg)
      ensures loot == old(loot) + KillDrops(old(enemies), box, dmg, rolls)
      ensures bossDefeated == (old(bossDefeated) || BossKills(old(enemies), box, dmg) > 0)
      ensures victoryTimers == old(victoryTimers) + BossKills(old(enemies), box, dmg)
    {
      ghost var es := enemies;
      var i := 0;
      while i < |enemies|
        invariant 0 <= i <= |enemies| == |es|
        invariant forall j :: 0 <= j < i ==> enemies[j] == MeleeStruck(es[j], box, dmg).0
        invariant forall j :: i <= j < |es| ==> enemies[j] == es[j]
        invariant loot == old(loot) + KillDrops(es[..i], box, dmg, rolls)
        invariant bossDefeated == (old(bossDefeated) || BossKills(es[..i], box, dmg) > 0)
        invariant victoryTimers == old(victoryTimers) + BossKills(es[..i], box, dmg)
      {
        SwingStep(old(loot), es, box, dmg, rolls, i);
        var hit := MeleeStruck(enemies[i], box, dmg);
        enemies := enemies[i := hit.0];
        if hit.1 {
          OnEnemyKilled(hit.0, rolls[i]);
        }
        i := i + 1;
      }
      assert es[..i] == es;
    }

    /**
     * The enemy half of `resolveAttack` (main.js:757-770) in a consistent
     * game: every enemy struck in order, the kill loot appended in enemy
     * order, the boss flag still right, and a victory scheduled at most
     * once, never after the boss is dead.
     */
    method StrikeEnemies(box: Rect, dmg: int, rolls: seq<KillRoll>)
      requires RollsFor(enemies, rolls) && OneBoss(enemies) && BossFlagOk(enemies, bossDefeated)
      modifies this`enemies, this`loot, this`bossDefeated, this`victoryTimers
      ensures OneBoss(enemies) && BossFlagOk(enemies, bossDefeated)
      ensures victoryTimers <= old(victoryTimers) + (if old(bossDefeated) then 0 else 1)
      ensures enemies == Struck(old(enemies), box, dmg)
      ensures loot == old(loot) + KillDrops(old(enemies), box, dmg, rolls)
      ensures bossDefeated == (old(bossDefeated) || BossKills(old(enemies), box, dmg) > 0)
      ensures victoryTimers == old(victoryTimers) + BossKills(old(enemies), box, dmg)
    {
      StrikeBossFlag(enemies, box, dmg, bossDefeated);
      VictoryOnce(enemies, box, dmg, bossDefeated);
      StrikeEach(box, dmg, rolls);
    }

    /** `dropResource` (main.js:785-797): only a harvestable tile drops anything. */
    method DropResource(kind: TileKind, tx: int, ty: int, bonus: bool)
      modifies this`loot
      ensures loot == old(loot) + (if IsHarvestable(kind) then [ResourceDrop(kind, tx, ty, bonus).value] else [])
    {
      match ResourceDrop(kind, tx, ty, bonus)
      case None =>
      case Some(l) =>
        loot := loot + [l];
    }

    /**
     * One cell of the tile loop of `resolveAttack` (main.js:773-781): a
     * harvestable tile loses `dmg` hp, turns to grass at zero and then drops
     * its resource.
     */
    method HarvestCell(c: Cell, dmg: int, bonus: set<Coord>)
      requires world.Sized() && 0 <= c.x < Width && 0 <= c.y < Height && c.tile == world.tiles[c.y, c.x]
      modifies this`loot, world.tiles
      ensures world.tiles[c.y, c.x] == HarvestTile(c.tile, dmg)
      ensures forall y, x :: 0 <= y < Height && 0 <= x < Width && (x, y) != (c.x, c.y) ==> world.tiles[y, x] == old(world.tiles[y, x])
      ensures loot == old(loot) + CellDrop(c, dmg, bonus)
    {
      if IsHarvestable(c.tile.kind) {
        world.StrikeTile(c.x, c.y, dmg);
        if Depleted(c.tile, dmg) {
          DropResource(c.tile.kind, c.x, c.y, (c.x, c.y) in bonus);
        }
      }
    }

    /**
     * The tile loop of `resolveAttack` (main.js:772-782) over the cells of
     * span `s`: every harvestable tile in the span is struck once, and
     * nothing outside the span changes.
     */
    method HarvestTiles(s: Span, cells: seq<Cell>, dmg: int, bonus: set<Coord>)
      requires world.Sized()
      requires 0 <= s.x1 <= s.x2 < Width && 0 <= s.y1 <= s.y2 < Height
      requires |cells| == s.Size() && world.Listed(s, cells)
      modifies this`loot, world.tiles
      ensures forall y, x :: 0 <= y < Height && 0 <= x < Width ==>
        world.tiles[y, x] == if s.Contains(x, y) then HarvestTile(old(world.tiles[y, x]), dmg) else old(world.tiles[y, x])
      ensures loot == old(loot) + HarvestDrops(cells, dmg, bonus)
    {
      var i := 0;
      while i < |cells|
        invariant 0 <= i <= |cells|
        invariant forall y, x :: 0 <= y < Height && 0 <= x < Width ==>
          world.tiles[y, x] == if s.Contains(x, y) && s.Index(x, y) < i then HarvestTile(old(world.tiles[y, x]), dmg) else old(world.tiles[y, x])
        invariant loot == old(loot) + HarvestDrops(cells[..i], dmg, bonus)
      {
        IndexUnique(s, cells[i].x, cells[i].y);
        HarvestStep(old(loot), cells, dmg, bonus, i);
        label Before:
        HarvestCell(cells[i], dmg, bonus);
        forall y, x | 0 <= y < Height && 0 <= x < Width
          ensures world.tiles[y, x] == if s.Contains(x, y) && s.Index(x, y) < i + 1 then HarvestTile(old(world.tiles[y, x]), dmg) else old(world.tiles[y, x])
        {
          if (x, y) == (cells[i].x, cells[i].y) {
            assert s.Index(x, y) == i && cells[i].tile == old(world.tiles[y, x]);
          } else {
            assert world.tiles[y, x] == old@Before(world.tiles[y, x]);
          }
        }
        i := i + 1;
      }
      SpanIndexBound(s);
      assert cells[..i] == cells;
    }

    /**
     * The tile half of `resolveAttack` (main.js:772-782): the tiles under
     * the hit box are listed, then struck in row-major order. Chest and door
     * tiles are not harvestable, so the world stays valid.
     */
    method HarvestBox(box: Rect, dmg: int, bonus: set<Coord>)
      requires world.Valid() && box.w >= 0.0 && box.h >= 0.0
      modifies this`loot, world.tiles
      ensures world.Valid()
      ensures var s := SpanOf(box);
        && loot == old(loot) + HarvestDrops(old(world.GridCells(s, s.Size())), dmg, bonus)
        && forall y, x :: 0 <= y < Height && 0 <= x < Width ==>
             world.tiles[y, x] == if s.Contains(x, y) then HarvestTile(old(world.tiles[y, x]), dmg) else old(world.tiles[y, x])
    {
      ChestsUnharvestable(world);
      var cells := world.TilesInRect(box);
      HarvestTiles(SpanOf(box), cells, dmg, bonus);
    }

    /**
     * What a swing of `dmg` over `box` leaves behind (main.js:756-783): every
     * enemy struck, the boss flag raised and a victory scheduled per boss
     * killed, every tile under the box harvested and nothing else changed,
     * and the kill loot then the resource loot appended in that order.
     */
    twostate predicate Swung(box: Rect, dmg: int, rolls: seq<KillRoll>, bonus: set<Coord>)
      requires old(world.Sized()) && box.w >= 0.0 && box.h >= 0.0 && old(RollsFor(enemies, rolls))
      reads this, world, world.tiles
    {
      var s := SpanOf(box);
      && world == old(world)
      && enemies == Struck(old(enemies), box, dmg)
      && bossDefeated == (old(bossDefeated) || BossKills(old(enemies), box, dmg) > 0)
      && victoryTimers == old(victoryTimers) + BossKills(old(enemies), box, dmg)
      && loot == old(loot) + KillDrops(old(enemies), box, dmg, rolls) + HarvestDrops(old(world.GridCells(s, s.Size())), dmg, bonus)
      && forall y, x :: 0 <= y < Height && 0 <= x < Width ==>
           world.tiles[y, x] == if s.Contains(x, y) then HarvestTile(old(world.tiles[y, x]), dmg) else old(world.tiles[y, x])
    }

    /**
     * `resolveAttack` (main.js:756-783): the swing first strikes every
     * enemy, then every tile the hit box covers.
     */
    method ResolveAttack(box: Rect, dmg: int, rolls: seq<KillRoll>, bonus: set<Coord>)
      requires Valid() && box.w >= 0.0 && box.h >= 0.0 && RollsFor(enemies, rolls)
      modifies this`enemies, this`loot, this`bossDefeated, this`victoryTimers, world.tiles
      ensures Valid() && Swung(box, dmg, rolls, bonus)
      ensures victoryTimers <= old(victoryTimers) + (if old(bossDefeated) then 0 else 1)
    {
      StrikeEnemies(box, dmg, rolls);
      assert unchanged(world.tiles) && world.GridCells(SpanOf(box), SpanOf(box).Size()) == old(world.GridCells(SpanOf(box), SpanOf(box).Size()));
      HarvestBox(box, dmg, bonus);
      assert world.tiles[DoorY, DoorX] == old(world.tiles[DoorY, DoorX]);
      assert player.Valid() && world.Valid() && OneBoss(enemies) && BossFlagOk(enemies, bossDefeated);
    }

    /**
     * `performMelee` (main.js:742-754): refused while the cooldown runs;
     * otherwise the swing resolves with the equipped weapon's damage and the
     * cooldown restarts at 0.35s (written after the swing here, which reads
     * nothing of it). The hit box, 36 by 36 pixels in the aimed direction,
     * is given.
     */
    method PerformMelee(box: Rect, rolls: seq<KillRoll>, bonus: set<Coord>)
      requires Valid() && box.w == 36.0 && box.h == 36.0 && RollsFor(enemies, rolls)
      modifies player`attackCooldown, this`enemies, this`loot, this`bossDefeated, this`victoryTimers, world.tiles
      ensures Valid()
      ensures old(player.attackCooldown) > 0.0 ==>
        && player.attackCooldown == old(player.attackCooldown) && enemies == old(enemies) && loot == old(loot) && unchanged(world.tiles)
        && bossDefeated == old(bossDefeated) && victoryTimers == old(victoryTimers)
      ensures old(player.attackCooldown) <= 0.0 ==>
        player.attackCooldown == 0.35 && Swung(box, old(player.MeleeDamage()), rolls, bonus)
      ensures victoryTimers <= old(victoryTimers) + (if old(bossDefeated) then 0 else 1)
    {
      if player.attackCooldown > 0.0 {
        return;
      }
      var dmg := player.MeleeDamage();
      ResolveAttack(box, dmg, rolls, bonus);
      player.attackCooldown := 0.35;
    }

    /**
     * The enemy loop of `updateProjectiles` for one live projectile at
     * (px, py) (main.js:957-968): the first living enemy it overlaps loses
     * `dmg` hp, with no immunity check, and the projectile is spent.
     */
    method ProjectileStrike(px: real, py: real, dmg: int, roll: KillRoll) returns (hit: bool)
      requires Valid() && ValidKillRoll(roll)
      modifies this`enemies, this`loot, this`bossDefeated, this`victoryTimers
      ensures Valid()
      ensures victoryTimers <= old(victoryTimers) + (if old(bossDefeated) then 0 else 1)
      ensures hit <==> FirstTarget(old(enemies), ShotBox(px, py)).Some?
      ensures !hit ==> enemies == old(enemies) && loot == old(loot) && bossDefeated == old(bossDefeated) && victoryTimers == old(victoryTimers)
      ensures hit ==> var k := FirstTarget(old(enemies), ShotBox(px, py)).value;
        var e := old(enemies)[k].(hp := old(enemies)[k].hp - dmg);
        && enemies == old(enemies)[k := e]
        && loot == old(loot) + (if Alive(e) then [] else KillLoot(e, roll))
        && bossDefeated == (old(bossDefeated) || (!Alive(e) && e.kind == Boss))
        && victoryTimers == old(victoryTimers) + (if !Alive(e) && e.kind == Boss then 1 else 0)
    {
      var box := ShotBox(px, py);
      hit := false;
      var i := 0;
      while i < |enemies|
        invariant 0 <= i <= |enemies|
        invariant !hit && enemies == old(enemies) && loot == old(loot)
        invariant bossDefeated == old(bossDefeated) && victoryTimers == old(victoryTimers)
        invariant forall j :: 0 <= j < i ==> !(Alive(enemies[j]) && RectsOverlap(box, HitBox(enemies[j])))
      {
        var e := enemies[i];
        if Alive(e) && RectsOverlap(box, HitBox(e)) {
          assert FirstTarget(enemies, box) == Some(i);
          ShotBossFlag(enemies, i, e.hp - dmg, bossDefeated);
          e := e.(hp := e.hp - dmg);
          enemies := enemies[i := e];
          if !Alive(e) {
            OnEnemyKilled(e, roll);
          }
          hit := true;
          return;
        }
        i := i + 1;
      }
    }

    // ----- Interaction -----

    /** Whether `handleInteract` unlocks the door: locked, within reach, and a key held. */
    predicate DoorOpens()
      reads this, player
    {
      !doorUnlocked && DoorInReach(player.x, player.y) && Count(player.inventory, "dungeon_key") > 0
    }

    /** The chest loop of `handleInteract` (main.js:852-863): the first unopened chest in reach. */
    method FindChest() returns (k: Option<nat>)
      ensures k == ReachableChest(world.chests, player.x, player.y)
    {
      var cs := world.chests;
      var i := 0;
      while i < |cs|
        invariant 0 <= i <= |cs|
        invariant forall j :: 0 <= j < i ==> cs[j].isOpen || !ChestInReach(cs[j], player.x, player.y)
      {
        if !cs[i].isOpen && ChestInReach(cs[i], player.x, player.y) {
          ReachableChestFirst(cs, player.x, player.y, i);
          return Some(i);
        }
        i := i + 1;
      }
      ReachableChestNone(cs, player.x, player.y);
      return None;
    }

    /**
     * `openChest` (main.js:880-904): the key chest gives the dungeon key, two
     * ore and a bottle; the reward chest its drawn ore, a potion, its drawn
     * herbs and its drawn coins.
     */
    method OpenChest(kind: ChestKind, roll: ChestRoll)
      requires player.Valid()
      modifies player`inventory, player.hotbar, player`coins
      ensures player.Valid()
      ensures player.Held() == AddedAll(old(player.Held()), ChestItems(kind, roll))
      ensures player.coins == old(player.coins) + ChestCoins(kind, roll)
      ensures Count(player.inventory, "dungeon_key") == old(Count(player.inventory, "dungeon_key")) + (if kind == KeyChest then 1 else 0)
    {
      var table := ChestItems(kind, roll);
      var i := 0;
      while i < |table|
        invariant 0 <= i <= |table|
        invariant player.Valid()
        invariant player.Held() == AddedAll(old(player.Held()), table[..i])
        invariant player.coins == old(player.coins)
      {
        player.AddItem(table[i].0, table[i].1);
        assert table[..i + 1][..i] == table[..i];
        i := i + 1;
      }
      assert table[..i] == table;
      ChestKeys(old(player.Held()), kind, roll);
      if kind == RewardChest {
        player.coins := player.coins + roll.coins;
      }
    }

    /** The chest branch of `handleInteract` (main.js:858-861): flag and tile first, then the contents. */
    method OpenReachedChest(k: nat, roll: ChestRoll)
      requires Valid() && k < |world.chests| && !world.chests[k].isOpen
      modifies world`chests, world.tiles, player`inventory, player.hotbar, player`coins
      ensures Valid()
      ensures world.chests == old(world.chests)[k := old(world.chests)[k].(isOpen := true)]
      ensures forall y, x :: 0 <= y < Height && 0 <= x < Width && (x, y) != (world.chests[k].x, world.chests[k].y) ==>
        world.tiles[y, x] == old(world.tiles[y, x])
      ensures player.Held() == AddedAll(old(player.Held()), ChestItems(old(world.chests)[k].kind, roll))
      ensures player.coins == old(player.coins) + ChestCoins(old(world.chests)[k].kind, roll)
      ensures old(KeyBalanced()) ==> KeyBalanced()
    {
      var kind := world.chests[k].kind;
      KeyChestFirst(world.chests);
      assert (world.chests[k].x, world.chests[k].y) != (DoorX, DoorY) by {
        assert world.chests[k].(isOpen := false) == InitialChests()[k].(isOpen := false);
      }
      world.OpenChestAt(k);
      OpenChest(kind, roll);
      assert player.Valid() && world.Valid();
    }

    /** The door branch of `handleInteract` (main.js:865-877). */
    method TryUnlockDoor()
      requires Valid()
      modifies this`doorUnlocked, player`inventory, world.tiles
      ensures Valid()
      ensures old(DoorOpens()) ==>
        && doorUnlocked && world.tiles[DoorY, DoorX] == Tile(Door, 0)
        && player.inventory == SpendKey(old(player.inventory))
      ensures !old(DoorOpens()) ==> doorUnlocked == old(doorUnlocked) && player.inventory == old(player.inventory)
      ensures forall y, x :: 0 <= y < Height && 0 <= x < Width && (x, y) != (DoorX, DoorY) ==> world.tiles[y, x] == old(world.tiles[y, x])
      ensures old(KeyBalanced()) ==> KeyBalanced()
    {
      if !doorUnlocked && DoorInReach(player.x, player.y) {
        var keys := Count(player.inventory, "dungeon_key");
        if keys > 0 {
          UnlockDoor();
        }
      }
    }

    /** The unlocking branch of `handleInteract` (main.js:869-872): one key spent, the door tile opened. */
    method UnlockDoor()
      requires Valid() && DoorOpens()
      modifies this`doorUnlocked, player`inventory, world.tiles
      ensures Valid() && doorUnlocked && world.tiles[DoorY, DoorX] == Tile(Door, 0)
      ensures player.inventory == SpendKey(old(player.inventory))
      ensures forall y, x :: 0 <= y < Height && 0 <= x < Width && (x, y) != (DoorX, DoorY) ==> world.tiles[y, x] == old(world.tiles[y, x])
    {
      player.inventory := SpendKey(player.inventory);
      doorUnlocked := true;
      DoorAwayFromChests(world.chests);
      world.PutTile(DoorX, DoorY, Tile(Door, 0));
      assert player.Valid() && world.Valid();
    }

    /**
     * `handleInteract` (main.js:851-878): open the first unopened chest in
     * reach, or else unlock the door if it is in reach and a key is held.
     * Keys stay balanced across it.
     */
    method HandleInteract(roll: ChestRoll)
      requires Valid() && ValidChestRoll(roll)
      modifies this`doorUnlocked, player`inventory, player.hotbar, player`coins, world`chests, world.tiles
      ensures Valid()
      ensures var k := old(ReachableChest(world.chests, player.x, player.y));
        k.Some? ==>
          && world.chests == old(world.chests)[k.value := old(world.chests)[k.value].(isOpen := true)]
          && player.Held() == AddedAll(old(player.Held()), ChestItems(old(world.chests)[k.value].kind, roll))
          && player.coins == old(player.coins) + ChestCoins(old(world.chests)[k.value].kind, roll)
          && doorUnlocked == old(doorUnlocked)
          && forall y, x :: 0 <= y < Height && 0 <= x < Width && (x, y) != (old(world.chests)[k.value].x, old(world.chests)[k.value].y) ==>
               world.tiles[y, x] == old(world.tiles[y, x])
      ensures var k := old(ReachableChest(world.chests, player.x, player.y));
        k.None? ==>
          && world.chests == old(world.chests) && player.coins == old(player.coins)
          && player.hotbar[..] == old(player.hotbar[..])
          && (forall y, x :: 0 <= y < Height && 0 <= x < Width && (x, y) != (DoorX, DoorY) ==> world.tiles[y, x] == old(world.tiles[y, x]))
          && doorUnlocked == (old(doorUnlocked) || old(DoorOpens()))
          && player.inventory == if old(DoorOpens())
                                 then SpendKey(old(player.inventory))
                                 else old(player.inventory)
      ensures old(KeyBalanced()) ==> KeyBalanced()
    {
      var k := FindChest();
      assert k == old(ReachableChest(world.chests, player.x, player.y));
      if k.Some? {
        OpenReachedChest(k.value, roll);
        return;
      }
      TryUnlockDoor();
    }

    // ----- New game, save and load -----

    /**
     * The respawn `newGame` and `loadGame` share (main.js:534-543,
     * 571-587): the enemies for the boss flag, no loot on the ground, and
     * play. The fresh enemies agree with the flag.
     */
    method Respawn(bossDead: bool)
      modifies this`bossDefeated, this`enemies, this`loot, this`state
      ensures bossDefeated == bossDead && enemies == SpawnEnemies(bossDead) && loot == [] && state == Playing
      ensures OneBoss(enemies) && BossFlagOk(enemies, bossDefeated)
    {
      bossDefeated := bossDead;
      enemies := SpawnEnemies(bossDead);
      loot := [];
      state := Playing;
      SpawnBossFlag(bossDead);
    }

    /**
     * `newGame` (main.js:504-547): the player back to its start values and
     * starting materials, a fresh world and enemy set, no loot, both flags
     * down, and play. A victory already scheduled is not cancelled.
     */
    method NewGame(sc: Scatter)
      requires ValidScatter(sc)
      modifies this`world, this`doorUnlocked, this`bossDefeated, this`enemies, this`loot, this`state, player
      ensures Valid() && KeyBalanced() && state == Playing
      ensures player.Held() == StartHoldings()
      ensures player.SheetOf() == Sheet(256.0, 640.0, 100, 100, 140.0, 0.0, 0.0, 0, 0, 0, 1, 0, 0.0)
      ensures fresh(world) && NewWorld(world, sc)
      ensures enemies == SpawnEnemies(false) && loot == [] && !doorUnlocked && !bossDefeated
    {
      player.Reset();
      world := new World.Generate(sc);
      FixedStructures(sc);
      doorUnlocked := false;
      Respawn(false);
      NoStartKey();
    }

    /** The record `saveGame` writes (main.js:598-626). */
    function Snapshot(): (d: SaveData)
      reads this, player, player.hotbar, world
      requires player.Valid()
      ensures d.version == SaveVersion && SaveOk(d.player)
      ensures forall p :: p in d.world.openedChests <==> exists k :: 0 <= k < |world.chests| && world.chests[k].isOpen && (world.chests[k].x, world.chests[k].y) == p
    {
      SaveData(SaveVersion, player.Saved(), WorldSave(doorUnlocked, bossDefeated, OpenedSites(world.chests)))
    }

    /**
     * The world half of `loadGame` (main.js:569-583): a fresh world, the
     * saved chest sites replayed as opened, and the door opened if it was.
     */
    method RebuildWorld(sc: Scatter, w: WorldSave)
      requires ValidScatter(sc)
      modifies this`world, this`doorUnlocked
      ensures fresh(world) && fresh(world.tiles) && doorUnlocked == w.doorUnlocked
      ensures LoadedWorld(world, sc, w)
    {
      world := new World.Generate(sc);
      FixedStructures(sc);
      doorUnlocked := w.doorUnlocked;
      world.ReplayChests(w.openedChests);
      DoorAwayFromChests(world.chests);
      if doorUnlocked {
        world.PutTile(DoorX, DoorY, Tile(Door, 0));
      }
    }

    /**
     * The body of `loadGame` once a save of the right version is found
     * (main.js:565-587): the stored player fields copied with both timers
     * cleared, the world rebuilt from the save, the enemies respawned
     * without the boss if it was beaten, no loot, and play.
     */
    method ApplySave(d: SaveData, sc: Scatter)
      requires SaveOk(d.player) && ValidScatter(sc)
      modifies this`world, this`doorUnlocked, this`bossDefeated, this`enemies, this`loot, this`state, player
      ensures Valid()
      ensures fresh(world) && LoadedWorld(world, sc, d.world)
      ensures state == Playing && loot == [] && enemies == SpawnEnemies(d.world.bossDefeated)
      ensures player.Saved() == d.player && player.invuln == 0.0 && player.attackCooldown == 0.0
      ensures player.speed == old(player.speed)
      ensures doorUnlocked == d.world.doorUnlocked && bossDefeated == d.world.bossDefeated
    {
      player.Restore(d.player);
      Respawn(d.world.bossDefeated);
      RebuildWorld(sc, d.world);
    }

    /**
     * `loadGame` (main.js:560-596). A missing save, or one of another
     * version, changes nothing; any other save is applied. Loading what
     * `saveGame` wrote restores the chests, the flags and the stored player
     * fields.
     */
    method LoadGame(save: Option<SaveData>, sc: Scatter)
      requires Valid() && ValidScatter(sc)
      requires save.Some? && save.value.version == SaveVersion ==> SaveOk(save.value.player)
      modifies this`world, this`doorUnlocked, this`bossDefeated, this`enemies, this`loot, this`state, player
      ensures Valid()
      ensures player.speed == old(player.speed)
      ensures save.None? || save.value.version != SaveVersion ==> unchanged(this, player)
      ensures save.Some? && save.value.version == SaveVersion ==>
        && fresh(world) && LoadedWorld(world, sc, save.value.world)
        && state == Playing && loot == [] && enemies == SpawnEnemies(save.value.world.bossDefeated)
        && player.Saved() == save.value.player && player.invuln == 0.0 && player.attackCooldown == 0.0
        && doorUnlocked == save.value.world.doorUnlocked && bossDefeated == save.value.world.bossDefeated
      ensures save == Some(old(Snapshot())) ==>
        && world.chests == old(world.chests) && player.Saved() == old(player.Saved())
        && doorUnlocked == old(doorUnlocked) && bossDefeated == old(bossDefeated)
    {
      if save.None? || save.value.version != SaveVersion {
        return;
      }
      SaveLoadChests(world.chests);
      ApplySave(save.value, sc);
    }
  }

  /** The world a new game starts on: every tile as generated, every chest closed. */
  ghost predicate NewWorld(w: World, sc: Scatter)
    reads w, w.tiles
  {
    && w.Valid() && w.chests == InitialChests()
    && forall y, x :: 0 <= y < Height && 0 <= x < Width ==> w.tiles[y, x] == GeneratedTile(x, y, sc)
  }

  /**
   * The world a load rebuilds from a save: the generated world with the
   * saved chests opened and the door showing the saved flag.
   */
  ghost predicate LoadedWorld(w: World, sc: Scatter, ws: WorldSave)
    reads w, w.tiles
  {
    && w.Valid()
    && w.chests == Replayed(InitialChests(), ws.openedChests)
    && w.tiles[DoorY, DoorX] == Tile(if ws.doorUnlocked then Door else LockedDoor, 0)
    && forall y, x :: 0 <= y < Height && 0 <= x < Width && !ChestSite(InitialChests(), x, y) && (x, y) != (DoorX, DoorY) ==>
         w.tiles[y, x] == GeneratedTile(x, y, sc)
  }

  /**
   * Loading a save in which nothing was opened and the door is still locked
   * rebuilds exactly the world a new game starts on, and conversely.
   */
  lemma EmptySaveIsNewWorld(w: World, sc: Scatter, bossDefeated: bool)
    requires ValidScatter(sc)
    ensures LoadedWorld(w, sc, WorldSave(false, bossDefeated, [])) <==> NewWorld(w, sc)
  {
    FixedStructures(sc);
    var cs := InitialChests();
    assert Replayed(cs, []) == cs;
    if LoadedWorld(w, sc, WorldSave(false, bossDefeated, [])) {
      forall y, x | 0 <= y < Height && 0 <= x < Width
        ensures w.tiles[y, x] == GeneratedTile(x, y, sc)
      {
        if ChestSite(cs, x, y) {
          var k :| 0 <= k < |cs| && cs[k].x == x && cs[k].y == y;
          assert w.tiles[cs[k].y, cs[k].x] == ChestTileOf(w.chests[k]);
        }
      }
    }
  }

  /** `ReachableChest` finds chest `i` when it is the first unopened one in reach. */
  lemma {:induction false} ReachableChestFirst(cs: seq<ChestEntry>, px: real, py: real, i: nat)
    requires i < |cs| && !cs[i].isOpen && ChestInReach(cs[i], px, py)
    requires forall j :: 0 <= j < i ==> cs[j].isOpen || !ChestInReach(cs[j], px, py)
    ensures ReachableChest(cs, px, py) == Some(i)
  {
    if i > 0 {
      ReachableChestFirst(cs[1..], px, py, i - 1);
    }
  }

  /** `ReachableChest` finds nothing when no unopened chest is in reach. */
  lemma {:induction false} ReachableChestNone(cs: seq<ChestEntry>, px: real, py: real)
    requires forall j :: 0 <= j < |cs| ==> cs[j].isOpen || !ChestInReach(cs[j], px, py)
    ensures ReachableChest(cs, px, py) == None
  {
    if |cs| > 0 {
      ReachableChestNone(cs[1..], px, py);
    }
  }

  /** Chest tiles carry nothing to harvest. */
  lemma ChestsUnharvestable(w: World)
    requires w.Valid()
    ensures forall k :: 0 <= k < |w.chests| ==> !IsHarvestable(w.tiles[w.chests[k].y, w.chests[k].x].kind)
  {
  }

  /** The inventory once the door has taken a key: one `dungeon_key` fewer and nothing else changed. */
  function SpendKey(inv: Inventory): (r: Inventory)
    requires Count(inv, "dungeon_key") > 0
    ensures Count(r, "dungeon_key") == Count(inv, "dungeon_key") - 1
    ensures forall id :: id != "dungeon_key" ==> Count(r, id) == Count(inv, id)
  {
    inv["dungeon_key" := Count(inv, "dungeon_key") - 1]
  }

  /** No chest stands on the dungeon door. */
  lemma DoorAwayFromChests(cs: seq<ChestEntry>)
    requires SameSites(cs)
    ensures forall k :: 0 <= k < |cs| ==> (cs[k].x, cs[k].y) != (DoorX, DoorY)
    ensures !ChestSite(cs, DoorX, DoorY)
  {
  }

  /** The first chest is the key chest, and the only one. */
  lemma KeyChestFirst(cs: seq<ChestEntry>)
    requires SameSites(cs)
    ensures |cs| > 0 && forall k :: 0 <= k < |cs| ==> (cs[k].kind == KeyChest <==> k == 0)
  {
  }

  /** A new game's holdings carry no key. */
  lemma NoStartKey()
    ensures Count(StartHoldings().inventory, "dungeon_key") == 0
  {
  }

  /**
   * Every position from which `handleInteract` would open the key chest of
   * a newly generated world lies on a solid tile, which `isBlocked` refuses.
   */
  lemma KeyChestWalledIn(w: World, sc: Scatter, px: real, py: real)
    requires NewWorld(w, sc) && ChestInReach(w.chests[0], px, py)
    ensures w.IsBlocked(px, py)
  {
    var tx, ty := TileIndex(px), TileIndex(py);
    assert KeyChestPos.0 - 1 <= tx <= KeyChestPos.0 + 1 && KeyChestPos.1 - 1 <= ty <= KeyChestPos.1 + 1;
    KeyChestInLake(tx, ty, sc);
  }
}
