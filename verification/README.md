# RealmShift — a verified model of the game-state core

RealmShift is a small top-down browser adventure. The player walks a 70 by 45
tile world, harvests trees, stone, ore and herbs, crafts swords and potions,
fights slimes, rogues, guardians and a boss, opens a key chest, unlocks the
dungeon door and saves or loads the game. Everything the game decides lives in
one script, `main.js`. This project models the discrete part of that script
in Dafny and proves what it promises:

- the tile grid: generation, lookups, the row-major rectangle walk and harvesting;
- the inventory, the six-slot hotbar and crafting;
- melee and projectile hits, enemy deaths and the boss flag;
- experience, levels and perks;
- chest and door interaction;
- the screen state machine;
- new game, save and load.

Modules follow the structure of the script:

| module | file | what it holds |
|---|---|---|
| `Wrappers` | wrappers.dfy | `Option` |
| `Tiles` | tiles.dfy | tile types, `isSolid`, the harvest rule for one tile |
| `Geometry` | geometry.dfy | rectangles, `clamp`, pixel-to-tile |
| `Layout` | layout.dfy | the generated map as a function of the scatter draws |
| `WorldGrid` | world.dfy | the `World` class: the tile array and the chest records, generation loops, `getTileAt`, `isBlocked`, `getTilesInRect`, the load-time chest replay |
| `Items` | items.dfy | `ITEM_DEFS`, `RECIPES`, the inventory and hotbar arithmetic as functions |
| `Progression` | progression.dfy | `xpToNext`, the level-up loop as a function, perks |
| `GameStates` | states.dfy | game states, `togglePause`, the `damagePlayer` rule |
| `Entities` | entities.dfy | enemies, loot, the random draws behind drops, chest contents |
| `Combat` | combat.dfy | one swing over the enemy list and over the struck tiles, as functions |
| `PlayerState` | player.dfy | the `Player` class and its in-place operations |
| `Play` | game.dfy | the `Game` class: transitions, combat, interaction, new game, save and load |

Objects the script updates in place are classes:

- `Player` holds its inventory as a `map` field and its hotbar as an `array`.
- `World` holds its tiles as an `array2`.
- `Game` holds the enemies and the loot as `seq` fields.

Each method is proved against a function of the old state (`Added`, `Removed`,
`Crafted`, `LevelUp`, `Struck`, `KillDrops`, `HarvestDrops`, `Replayed`,
`GeneratedTile`). What those functions mean is stated by their own contracts
or by lemmas beside them (`KillDropsSpec`, `HarvestDropsSpec`, `CraftExact`,
`LevelUpExact`, `SaveLoadChests`, ...).

Randomness becomes parameters:

| source of randomness | parameter |
|---|---|
| scatter positions | `Scatter` |
| kill coins and material drop | `KillRoll` |
| chest ore, herbs and coins | `ChestRoll` |
| the 30% double-resource roll | the `bonus` set of tiles |

Each parameter carries a predicate for the ranges `randInt` can return. The
`setTimeout` that shows the victory screen is a counter of pending timers
(`victoryTimers`), run by `RunVictoryTimer`.

## Model

| member | source | states |
|---|---|---|
| Tiles.IsSolid | main.js:1073-1085 | solid exactly for wall, water, tree, stone, ore, herb, dungeon wall, locked door and closed chest; passable for grass, path, dungeon floor, door and open chest |
| Tiles.ResourceOf | main.js:785-788 | a resource id exists exactly for the four harvestable types, and it is one of wood, stone, ore, herb |
| Tiles.HarvestTile | main.js:773-781 | a non-harvestable tile is untouched; a harvestable one loses exactly `dmg` hp, or becomes grass with hp 0 when that leaves it at or below 0; the hit-point invariant is kept |
| Geometry.OverlapLaws | main.js:356-358 | overlap of two rectangles does not depend on their order, and a rectangle of positive size overlaps itself |
| Geometry.Clamp | main.js:346-348 | the result lies in [lo, hi], equals v inside the range, lo below it and hi above it |
| Geometry.TileIndex | main.js:1053-1054 | the tile index of a pixel is the one whose 32-pixel cell contains it (floor division) |
| Layout.GeneratedTileOk | main.js:365-430 | every generated tile carries hit points exactly when it is harvestable |
| Layout.BorderIsWall | main.js:375-383 | the outer ring of the grid is wall whatever the scatter draws |
| Layout.ScatterOnlyOnGrass | main.js:393-404 | a resource of the finished grid lies on base-layout grass outside the dungeon and corridor, at a drawn position of its own kind; a stone is never at a tree draw |
| Layout.FixedStructures | main.js:419-427 | the locked door is at (48, 21) and both chests are closed chest tiles |
| Layout.KeyChestInLake | main.js:388-427 | the key chest at (30, 14) and the eight tiles around it are solid in every generated map: the lake surrounds it |
| Layout.CorridorOpensWall | main.js:406-418 | tile (48, 22), on the dungeon's west wall beside the door, is path in every generated map, because the corridor is dug after the walls |
| WorldGrid.FillRect | main.js:368-391 | the box is filled with the tile and every other cell is unchanged |
| WorldGrid.Enclose | main.js:375-383 | the border cells become wall and every other cell is unchanged |
| WorldGrid.ScatterPass | main.js:398-404 | a drawn cell becomes the resource exactly when it held grass before the pass; every other cell is unchanged |
| WorldGrid.CarveDungeon | main.js:406-413 | the dungeon box gets walls on its edge and floor inside; every other cell is unchanged |
| WorldGrid.DigCorridor | main.js:414-418 | rows 21 and 22 from x = 44 to 48 become path; every other cell is unchanged |
| WorldGrid.LayBase | main.js:368-391 | the grid equals the base layout: lake, village path, border walls, grass |
| WorldGrid.ScatterResources | main.js:393-396 | after the four passes in order the grid equals the scattered layout, where the first pass to reach a grass cell wins |
| WorldGrid.PlaceStructures | main.js:406-427 | after the dungeon, corridor, door and chests the grid equals the generated layout |
| WorldGrid.World.Generate | main.js:365-430 | a fresh valid world whose every tile is the generated tile, with both chests closed |
| WorldGrid.SpanOf | main.js:1061-1064 | the span lies inside the grid; each corner's tile index is kept on the grid, becomes the first tile when it lies before the grid and the last tile when it lies past it |
| WorldGrid.World.TileAt | main.js:1052-1057 | a tile is returned exactly for positions on the grid, and it is the tile under the position |
| WorldGrid.World.IsBlocked | main.js:934-937 | blocked only on the grid, and there exactly when the tile is solid; off the grid nothing blocks |
| WorldGrid.World.CellsOf | main.js:1065-1069 | the nested loop lists Cols × Rows cells, the j-th being the j-th cell of the span in row-major order with its tile |
| WorldGrid.World.TilesInRect | main.js:1059-1071 | every tile of the clamped span exactly once, in row-major order, each at its own row-major position |
| WorldGrid.World.StrikeTile | main.js:775-780 | the struck tile becomes `HarvestTile` of its old value and no other tile changes |
| WorldGrid.World.OpenChestAt | main.js:857-858 | the chest flag and its tile change together; the world stays valid and no other tile changes |
| WorldGrid.World.PutTile | main.js:872 | the door tile is written (on unlocking, and again at main.js:580-583 when a save with the door unlocked is loaded), no other tile changes and the chest tiles still match their flags |
| WorldGrid.World.ReplayChests | main.js:572-577 | the chests become `Replayed` of the old ones, the world stays valid and only chest tiles change |
| WorldGrid.Replayed | main.js:572-577 | each chest is opened if it was, or if its site is listed; nothing else about it changes |
| WorldGrid.OpenedSites | main.js:599 | a site is listed exactly when some opened chest stands on it |
| WorldGrid.SaveLoadChests | main.js:572-579 | replaying the saved sites onto freshly generated chests gives back exactly the saved chests |
| Items.HasItems | main.js:452-454 | true exactly when every entry's count, with a missing id counting 0, covers its quantity |
| Items.RemovedExact | main.js:446-450 | when the inventory covers the cost, each count drops by exactly its listed quantity: the clamp at zero never fires |
| Items.FirstEmpty | main.js:442 | the first empty slot, or none exactly when no slot is empty |
| Items.Filled | main.js:440-444 | a quest item or a full hotbar leaves it unchanged; otherwise exactly the first empty slot takes the id; the length is kept |
| Items.Added | main.js:433-438 | an unknown id changes nothing; otherwise that count rises by exactly qty, no other count moves, and the hotbar is auto-filled |
| Items.AddedAllCounts | main.js:433-438 | adding a list of known items raises each count by the total quantity listed for it |
| Items.RecipesWellFormed | main.js:91-110 | each recipe names distinct ids and creates only known items |
| Items.Crafted | main.js:481-486 | without the materials the holdings are unchanged; the hotbar keeps its length |
| Items.CraftExact | main.js:481-486 | with the materials each count ends at its old value minus what the recipe requires plus what it creates |
| Items.NewGameHoldings | main.js:520-532 | the start of a new game holds wood 3, stone 2, herb 1, bottle 1 and a full hotbar |
| Items.NewGameCraftScenario | main.js:481-486 | crafting the Basic Sword at the start leaves wood 1, stone 1, herb 1, bottle 1 and one basic_sword |
| Progression.XpToNext | main.js:1013-1015 | every threshold from level 1 on is at least 30 |
| Progression.LevelUp | main.js:1017-1025 | the loop ends below the next threshold, never loses a level, and stops at once exactly when the first threshold is not met |
| Progression.LevelUpExact | main.js:1017-1025 | the deducted experience is exactly the sum of the thresholds crossed, and the reached level is the one whose cumulative threshold brackets the experience |
| Progression.LevelUpStep | main.js:1019-1022 | with enough experience, levelling up equals paying one threshold, gaining one level and continuing |
| Progression.PerkOptions | main.js:1033-1038 | all three perks are always offered |
| GameStates.Toggled | main.js:1132-1139 | playing and paused swap and every other state stays |
| GameStates.Damaged | main.js:939-949 | no effect while invulnerable or outside play; otherwise hp drops by the amount, invulnerability restarts, and at or below 0 hp is 0 and the state is dead |
| GameStates.DeathIsFinal | main.js:939-949 | once a hit kills the player every later hit is ignored: the move to dead happens once |
| Entities.MakeEnemy | main.js:648-663 | the enemy is alive at its kind's full hp with no immunity, at the given place |
| Entities.SpawnEnemies | main.js:631-646 | five living enemies, or six when the boss lives, the boss last and only then |
| Entities.MeleeStruck | main.js:757-768 | only a living, overlapped, non-immune enemy is hit (hp − dmg, immune 0.2s); the kill flag is raised exactly when the hit takes it from alive to dead |
| Entities.FirstTarget | main.js:958-966 | the first living enemy the projectile overlaps, or none when no living enemy overlaps it |
| Entities.ResourceDrop | main.js:785-797 | a drop exactly for harvestable tiles: the mapped resource, 1 or 2 of it, at the tile centre, no coins or experience |
| Entities.XpReward | main.js:817 | the reward is the kind's experience and is positive, so the fallback 6 never applies |
| Entities.KillLoot | main.js:816-823 | a coin and experience drop where the enemy fell, then at most one drop of 1 or 2 of a material |
| Entities.ChestItems | main.js:881-898 | three distinct known items; the dungeon key appears only in the key chest, once |
| Entities.ChestKeyCount | main.js:881-884 | a chest holds one key if it is the key chest, else none |
| Entities.ChestKeys | main.js:881-884 | opening a chest adds one key exactly when it is the key chest |
| Entities.ChestCoins | main.js:899-901 | the key chest pays no coins; the reward chest pays its drawn coins |
| Combat.SpawnBossFlag | main.js:643-645 | a fresh spawn holds at most one boss, alive exactly when the boss flag is down |
| Combat.Struck | main.js:757-770 | the list keeps its length and every enemy its kind and place; a living, overlapped enemy without immunity loses exactly the damage and becomes immune for 0.2s; every other enemy is unchanged |
| Combat.BossKillsSpec | main.js:824-827 | a swing schedules a victory exactly when it kills a boss |
| Combat.StrikeBossFlag | main.js:757-770 | a swing keeps at most one boss and keeps the boss flag right: raised by a boss kill, changed only by one |
| Combat.BossKillsOnce | main.js:824-827 | with at most one boss a swing kills at most one boss, and none once every boss is dead |
| Combat.VictoryOnce | main.js:824-827 | in a consistent game a swing schedules no victory once the boss flag is up, and at most one before |
| Combat.ShotBossFlag | main.js:957-968 | a projectile hit on a living enemy keeps at most one boss and the boss flag right, and its target is never a boss once the flag is up |
| Combat.KillDropsSpec | main.js:757-770 | for every enemy the swing kills, the loot of the enemies before it is followed at once by its kill loot as it lies struck; a swing that kills nobody drops nothing |
| Combat.KillDropsStep | main.js:757-770 | enemy by enemy, a killed enemy appends its kill loot as it lies struck and a survivor appends nothing |
| Combat.HarvestDrops | main.js:772-782 | no more drops than struck cells, each a resource of quantity 1 or 2 with no coins or experience |
| Combat.HarvestDropsSpec | main.js:772-797 | exactly one drop per cell whose harvestable tile the hit takes to 0 hp or below, in cell order, each that tile's resource at its centre, doubled on the bonus cells |
| PlayerState.SwingDamage | main.js:744-745 | the iron sword hits for 20, the basic sword for 12 and any other slot, empty or not, for 10, each plus the damage perks |
| PlayerState.Player.constructor | main.js:137-160 | the player's literal start values, the initial hotbar and an empty inventory |
| PlayerState.Player.Reset | main.js:505-532 | every field back to its start value on a fresh hotbar, then the starting materials added |
| PlayerState.Player.AddItem | main.js:433-438 | the holdings become `Added` of the old holdings and the player stays valid |
| PlayerState.Player.AutoFillHotbar | main.js:440-444 | the hotbar becomes `Filled` of the old hotbar |
| PlayerState.Player.RemoveItems | main.js:446-450 | the inventory becomes `Removed` of the old inventory, entry by entry, never below zero |
| PlayerState.Player.Craft | main.js:481-486 | the holdings become `Crafted` of the old holdings |
| PlayerState.Player.MeleeDamage | main.js:744-745 | with the iron sword selected (the slot `getEquippedItem` reads) a swing does 20, with the basic sword 12, and with anything else 10, each plus the damage perks |
| PlayerState.Player.SetHotbarIndex | main.js:460-464 | an index inside the hotbar is selected and any other is ignored |
| PlayerState.Player.TryUseConsumable | main.js:799-813 | a held, selected potion below full hp heals 25 capped at the maximum and uses one potion; otherwise nothing changes; no other count moves |
| PlayerState.Player.ApplyPerk | main.js:1033-1037 | +10 max hp and hp, +3 damage, or +15% of base speed, and nothing else |
| PlayerState.Player.Saved | main.js:602-617 | the stored record holds the player's inventory and hotbar and satisfies the invariant a restorable record needs |
| PlayerState.Player.Restore | main.js:566-568 | the stored fields are copied back so that saving again gives the same record; both timers are cleared and the speed kept |
| Play.ReachableChest | main.js:852-863 | the first unopened chest in reach, or none when no unopened chest is in reach |
| Play.ReachableChestFirst | main.js:852-863 | conversely, an unopened chest in reach with none before it is the one found |
| Play.ReachableChestNone | main.js:852-863 | conversely, with no unopened chest in reach none is found |
| Play.Game.constructor | main.js:121-135 | the menu state, no loot, no pending victory, an empty inventory on the initial hotbar, and a valid, key-balanced game |
| Play.Game.TogglePause | main.js:1132-1139 | the state becomes `Toggled` of the old state |
| Play.Game.ResumeGame | main.js:1141-1144 | the state is playing |
| Play.Game.GoToMenu | main.js:1146-1151 | the state is menu |
| Play.Game.ShowGameOver | main.js:1153-1156 | the state is dead |
| Play.Game.ShowVictory | main.js:1158-1162 | the state is victory |
| Play.Game.RunVictoryTimer | main.js:826 | a pending timer shows the victory screen and is used up; with none pending nothing changes |
| Play.Game.DamagePlayer | main.js:939-949 | state, hp and invulnerability become `Damaged` of their old values and the game stays valid |
| Play.Game.PromptPerk | main.js:1027-1030 | only a game in play moves to the perk choice |
| Play.Game.ChoosePerk | main.js:1041-1046 | the perk is applied and play resumes |
| Play.Game.LevelOnce | main.js:1019-1022 | one threshold paid, one level gained, and the perk prompt |
| Play.Game.CheckLevelUp | main.js:1017-1025 | experience and level become `LevelUp` of the old ones, and the state moves to the perk choice once, only from play and only if a level was gained |
| Play.Game.GainXp | main.js:1007-1011 | experience and level become `LevelUp` of the raised experience, with the same perk rule |
| Play.Game.OnEnemyKilled | main.js:815-829 | the kill loot is appended; a boss sets the flag and schedules one victory screen |
| Play.Game.StrikeEach | main.js:757-770 | the loop leaves the enemies `Struck`, appends the kill loot in enemy order, raises the boss flag exactly on a boss kill and schedules one victory per boss killed |
| Play.Game.StrikeEnemies | main.js:757-770 | in a game with at most one boss and a correct boss flag: the same effects as the loop, the boss invariant kept, and no victory added once the boss is dead and at most one before |
| Play.Game.DropResource | main.js:785-797 | one drop appended for a harvestable tile, none for any other |
| Play.Game.HarvestCell | main.js:773-781 | the cell's tile is struck, no other tile changes, and its drop is appended |
| Play.Game.HarvestTiles | main.js:772-782 | every tile of the span is struck once, none outside it changes, and the drops are appended in row-major order |
| Play.Game.HarvestBox | main.js:772-782 | the tiles under the hit box are struck and their drops appended; the world stays valid because chest and door tiles are not harvestable |
| Play.Game.ResolveAttack | main.js:756-783 | enemies struck first, then tiles; kill loot then resource loot; the game stays valid; at most one victory is scheduled, and none after the boss is dead |
| Play.Game.PerformMelee | main.js:742-754 | refused while the cooldown runs, leaving the cooldown, enemies, loot, tiles, boss flag and pending victories unchanged; otherwise the swing resolves with the equipped damage and the cooldown becomes 0.35; at most one victory is scheduled, and none after the boss is dead |
| Play.Game.ProjectileStrike | main.js:957-968 | a hit exactly when some living enemy overlaps; only the first such enemy loses the damage, with no immunity check; a kill appends its loot and a boss kill sets the flag and schedules a victory; a miss changes nothing; the game stays valid, and no victory is scheduled after the boss is dead |
| Play.Game.FindChest | main.js:852-863 | the loop finds `ReachableChest` |
| Play.Game.OpenChest | main.js:880-904 | the chest's items are added in order and its coins paid; the key count rises by one exactly for the key chest |
| Play.Game.OpenReachedChest | main.js:856-861 | the flag and the tile change together, the contents are added, nothing else in the grid changes, and keys stay balanced |
| Play.Game.TryUnlockDoor | main.js:865-877 | a locked door in reach with a key held is unlocked for exactly one key and its tile becomes door; otherwise flag and inventory are unchanged; no other tile changes; keys stay balanced |
| Play.Game.UnlockDoor | main.js:869-872 | one key spent, the flag raised and the door tile opened; no other tile changes |
| Play.Game.HandleInteract | main.js:851-878 | the first reachable unopened chest is opened and the door left alone; only the chest's tile changes; with none, the door rule applies, the chests, coins and hotbar are unchanged and no tile but the door's changes; keys stay balanced |
| Play.Game.Respawn | main.js:533-542 | the enemies for the boss flag, no loot and play; the fresh enemies agree with the flag |
| Play.Game.NewGame | main.js:504-547 | the player at its start values and materials, a fresh generated world, enemies with the boss, no loot, both flags down, play; valid and key-balanced |
| Play.Game.Snapshot | main.js:598-626 | the saved record has the current version, a valid player record, and lists exactly the opened chests |
| Play.Game.RebuildWorld | main.js:570-583 | a fresh generated world with the saved chests opened and the door showing the saved flag |
| Play.Game.ApplySave | main.js:565-587 | the player restored with cleared timers, the world rebuilt, the flags copied, enemies respawned, no loot, play, and a valid game; the speed, which the record lacks, is kept |
| Play.Game.LoadGame | main.js:560-596 | no save or a wrong version changes nothing; otherwise the save is applied; loading what was just saved restores the chests, flags and player record; the speed is kept either way |
| Play.EmptySaveIsNewWorld | main.js:570-583 | a save with nothing opened and the door locked rebuilds exactly a new game's world, and conversely |
| Play.ChestsUnharvestable | main.js:774 | chest tiles are never among the harvestable tiles |
| Play.SpendKey | main.js:870 | exactly one dungeon key fewer and every other count unchanged |
| Play.DoorAwayFromChests | main.js:419-426 | no chest stands on the door tile |
| Play.KeyChestFirst | main.js:423-426 | the first chest is the key chest, and it is the only one |
| Play.NoStartKey | main.js:519-532 | a new game starts without a dungeon key |
| Play.KeyChestWalledIn | main.js:852-858 | in a newly generated world every position close enough to open the key chest lies on a solid tile, which `isBlocked` refuses |

## Left out

- Rendering, the camera, screen shake, particles and floaters: drawing only.
- DOM and UI wiring: overlays, the HUD, the hotbar and crafting panels, `toggleCrafting`, `getZoneName` and the error overlay.
- Input listeners: only the actions they invoke are modelled.
- `localStorage` and JSON: a save is an `Option<SaveData>` parameter or result. `hasValidSave` and the `saveGame` calls inside `openChest`, `handleInteract` and `showVictory` are this I/O and are not modelled as steps. `Snapshot` is the record they would write.
- A stored record that is malformed: JSON that fails to parse, or a record without `world`. In these cases `loadGame` throws part-way and reports an error; the model's save is always well formed.
- Movement and physics: `updatePlayer`, stamina, facing, the player's size, enemy chase, wander and knockback, `fireBossProjectiles`, and projectile motion and lifetime. `ProjectileStrike` is the hit test for one live projectile at a given position. No code in the script creates player projectiles.
- Enemy contact damage and boss projectile hits are `DamagePlayer` calls with the amount given; their proximity tests are not modelled.
- `updateLoot` pickup: it is `AddItem`, a coin increment and `GainXp` for loot within reach. Reach is a distance on real positions and is not modelled.
- The loot record's `rarity` text and the chest rarity roll, which only choose a floater colour. Enemy `state`, `wanderTimer`, `attackTimer`, `target` and `knockback` are movement.
- The frame clock, `requestAnimationFrame` and timer countdowns. A `setTimeout` victory is a pending counter.
- The perk button order, which is random; the set of perks offered is always all three.
- Play.Game.constructor: the page starts with `world: null` and no enemies, but the model starts on a generated world with its enemies. Every modelled operation runs after `newGame` or `loadGame`, which replace both.
- PlayerState.Player.Restore: accepts only records the player invariant holds for (six slots, a selected slot among them, level at least 1, experience at least 0, hp within its maximum). `Object.assign` copies whatever the stored record holds.
- Play.Game.LoadGame: demands a valid game and a record `Restore` accepts, as above. On the page's first load the world is still `null`.
- Play.Game.DamagePlayer: requires a non-negative amount. Every caller passes an enemy's contact damage or a boss projectile's 12.
- Play.Game.GainXp: takes a `nat`. Every caller passes a loot drop's experience, which is never negative.
- Play.Game.OpenReachedChest: requires the chest to be unopened, which is the only way `handleInteract` reaches it.
- Play.Game.StrikeEnemies: requires at most one boss and a correct boss flag. Every game state keeps both (`Valid`), so every call meets it; `Play.Game.StrikeEach` is the same loop without the requirement.
- Play.Game.PerformMelee: writes the 0.35s cooldown after the swing rather than before. The swing never reads the cooldown, so the final state is the same.
- Positions and timers are exact reals. Floating-point rounding is not modelled.

Two behaviours of the script worth knowing, both modelled as written:

- `promptPerk` returns unless the game is in play, so several levels gained at once give a single perk prompt, not one per level.
- `isBlocked` treats a position off the grid as passable, because `getTileAt` returns `null` there and `null && …` is falsy.
