/**
 * The `player` object (main.js:137-160) and the operations that change it
 * in place: `addItem`, `autoFillHotbar`, `removeItems`, the craft button,
 * `setHotbarIndex`, `tryUseConsumable`, the perk effects and the
 * save/restore of its fields.
 */
module PlayerState {
  import opened Wrappers
  import opened Tiles
  import opened Geometry
  import opened Items
  import opened Progression

  /** Every player field other than the inventory and the hotbar. */
  datatype Sheet = Sheet(
    x: real, y: real, hp: int, maxHp: int, speed: real, invuln: real, attackCooldown: real,
    selectedSlot: int, coins: int, xp: int, level: int, damageBonus: int, speedBonus: real)

  /** The player fields `saveGame` writes (main.js:600-617); stamina and size are not modelled. */
  datatype PlayerSave = PlayerSave(
    x: real, y: real, hp: int, maxHp: int, inventory: Inventory, hotbar: seq<Slot>,
    selectedSlot: int, coins: int, xp: int, level: int, damageBonus: int, speedBonus: real)

  /** A stored player record the player invariant accepts. */
  predicate SaveOk(s: PlayerSave) {
    |s.hotbar| == HotbarSize && 0 <= s.selectedSlot < HotbarSize && s.level >= 1 && s.xp >= 0
    && 0 <= s.hp <= s.maxHp
  }

  /** Whether `tryUseConsumable` drinks: a potion is selected, one is held and hp is below the maximum. */
  predicate CanDrink(slot: Slot, inv: Inventory, hp: int, maxHp: int) {
    slot == Some("potion") && Count(inv, "potion") > 0 && hp < maxHp
  }

  /** The strength of a swing: the selected weapon's damage, else 10, plus the damage perks. */
  function SwingDamage(slot: Slot, damageBonus: int): (d: int)
    ensures slot == Some("iron_sword") ==> d == 20 + damageBonus
    ensures slot == Some("basic_sword") ==> d == 12 + damageBonus
    ensures slot != Some("iron_sword") && slot != Some("basic_sword") ==> d == 10 + damageBonus
  {
    var base :=
      if slot.None? then 10
      else match ItemDefs(slot.value)
        case Some(ItemDef(_, Weapon(dmg))) => if dmg != 0 then dmg else 10
        case _ => 10;
    base + damageBonus
  }

  /** A fresh hotbar array holding `h`. */
  method NewHotbar(h: seq<Slot>) returns (a: array<Slot>)
    ensures fresh(a) && a[..] == h
  {
    a := new Slot[|h|];
    var i := 0;
    while i < |h|
      invariant 0 <= i <= |h|
      invariant a[..i] == h[..i]
    {
      a[i] := h[i];
      i := i + 1;
    }
  }

  class Player {
    var x: real
    var y: real
    var hp: int
    var maxHp: int
    var speed: real
    var invuln: real
    var attackCooldown: real
    var inventory: Inventory
    var hotbar: array<Slot>
    var selectedSlot: int
    var coins: int
    var xp: int
    var level: int
    var damageBonus: int
    var speedBonus: real

    /** Six hotbar slots, a selected slot among them, a level from 1, and hp within its maximum. */
    ghost predicate Valid()
      reads this
    {
      hotbar.Length == HotbarSize && 0 <= selectedSlot < HotbarSize && level >= 1 && xp >= 0
      && 0 <= hp <= maxHp
    }

    function SheetOf(): Sheet
      reads this
    {
      Sheet(x, y, hp, maxHp, speed, invuln, attackCooldown, selectedSlot, coins, xp, level, damageBonus, speedBonus)
    }

    /** What the player holds: inventory and hotbar contents. */
    function Held(): Holdings
      reads this, hotbar
    {
      Holdings(inventory, hotbar[..])
    }

    /** The player object as the script first creates it (main.js:137-160). */
    constructor ()
      ensures Valid() && fresh(hotbar)
      ensures Held() == Holdings(map[], InitialHotbar())
      ensures SheetOf() == Sheet(0.0, 0.0, 100, 100, 140.0, 0.0, 0.0, 0, 0, 0, 1, 0, 0.0)
    {
      x, y, hp, maxHp, speed := 0.0, 0.0, 100, 100, 140.0;
      invuln, attackCooldown := 0.0, 0.0;
      inventory := map[];
      hotbar := new Slot[HotbarSize](i => if 0 <= i < HotbarSize then InitialHotbar()[i] else None);
      selectedSlot, coins, xp, level := 0, 0, 0, 1;
      damageBonus, speedBonus := 0, 0.0;
      new;
      assert hotbar[..] == InitialHotbar();
    }

    /**
     * The player half of `newGame` (main.js:505-532): every field back to
     * its start value on a fresh hotbar, then the starting materials added.
     */
    method Reset()
      modifies this
      ensures Valid() && fresh(hotbar)
      ensures Held() == StartHoldings()
      ensures SheetOf() == Sheet(256.0, 640.0, 100, 100, 140.0, 0.0, 0.0, 0, 0, 0, 1, 0, 0.0)
    {
      hotbar := NewHotbar(InitialHotbar());
      inventory := map[];
      SetSheet(Sheet((TileSize * 8) as real, (TileSize * 20) as real, 100, 100, 140.0, 0.0, 0.0, 0, 0, 0, 1, 0, 0.0));
      var k := 0;
      while k < 4
        invariant 0 <= k <= 4
        invariant Valid() && fresh(hotbar)
        invariant Held() == AddedAll(StartPrefix(0), StartingMaterials()[..k])
        invariant SheetOf() == Sheet(256.0, 640.0, 100, 100, 140.0, 0.0, 0.0, 0, 0, 0, 1, 0, 0.0)
      {
        var e := StartingMaterials()[k];
        AddItem(e.0, e.1);
        assert StartingMaterials()[..k + 1][..k] == StartingMaterials()[..k];
        k := k + 1;
      }
      NewGameHoldings();
      assert StartingMaterials()[..4] == StartingMaterials();
    }

    /** `addItem` (main.js:433-438). */
    method AddItem(id: string, qty: nat)
      requires Valid()
      modifies this`inventory, hotbar
      ensures Valid()
      ensures Held() == Added(old(Held()), id, qty)
    {
      if !IsItem(id) {
        return;
      }
      inventory := inventory[id := Count(inventory, id) + qty];
      AutoFillHotbar(id);
    }

    /** `autoFillHotbar` (main.js:440-444): `findIndex` of the first empty slot, then fill it. */
    method AutoFillHotbar(id: string)
      requires IsItem(id)
      modifies hotbar
      ensures hotbar[..] == Filled(old(hotbar[..]), id)
    {
      if IsQuest(id) {
        return;
      }
      var i := 0;
      while i < hotbar.Length && hotbar[i] != None
        invariant 0 <= i <= hotbar.Length
        invariant forall j :: 0 <= j < i ==> hotbar[j] != None
      {
        i := i + 1;
      }
      if i < hotbar.Length {
        hotbar[i] := Some(id);
      }
    }

    /** `removeItems` (main.js:446-450): each listed count goes down, never below zero. */
    method RemoveItems(cost: Cost)
      requires Valid()
      modifies this`inventory
      ensures Valid()
      ensures inventory == Removed(old(inventory), cost)
    {
      var i := 0;
      while i < |cost|
        invariant 0 <= i <= |cost|
        invariant Valid()
        invariant inventory == Removed(old(inventory), cost[..i])
      {
        var id, qty := cost[i].0, cost[i].1;
        inventory := inventory[id := if Count(inventory, id) >= qty then Count(inventory, id) - qty else 0];
        assert cost[..i + 1][..i] == cost[..i];
        i := i + 1;
      }
      assert cost[..|cost|] == cost;
    }

    /**
     * The craft button of a recipe (main.js:481-487): refused without the
     * materials; otherwise deduct the inputs, then add each output.
     */
    method Craft(r: Recipe)
      requires Valid()
      modifies this`inventory, hotbar
      ensures Valid()
      ensures Held() == Crafted(old(Held()), r)
    {
      if !HasItems(inventory, r.needs) {
        return;
      }
      RemoveItems(r.needs);
      ghost var start := Held();
      var i := 0;
      while i < |r.creates|
        invariant 0 <= i <= |r.creates|
        invariant Valid()
        invariant Held() == AddedAll(start, r.creates[..i])
      {
        AddItem(r.creates[i].0, r.creates[i].1);
        assert r.creates[..i + 1][..i] == r.creates[..i];
        i := i + 1;
      }
      assert r.creates[..|r.creates|] == r.creates;
    }

    /** The selected hotbar entry (main.js:456-458). */
    function EquippedItem(): Slot
      reads this, hotbar
      requires Valid()
    {
      hotbar[selectedSlot]
    }

    /** The damage of a melee swing, `(item?.damage || 10) + damageBonus` (main.js:744-745). */
    function MeleeDamage(): (d: int)
      reads this, hotbar
      requires Valid()
      ensures EquippedItem() == Some("iron_sword") ==> d == 20 + damageBonus
      ensures EquippedItem() == Some("basic_sword") ==> d == 12 + damageBonus
      ensures EquippedItem() != Some("iron_sword") && EquippedItem() != Some("basic_sword") ==> d == 10 + damageBonus
    {
      SwingDamage(EquippedItem(), damageBonus)
    }

    /** `setHotbarIndex` (main.js:460-464): an index outside the hotbar is ignored. */
    method SetHotbarIndex(i: int)
      requires Valid()
      modifies this`selectedSlot
      ensures Valid()
      ensures selectedSlot == if 0 <= i < HotbarSize then i else old(selectedSlot)
    {
      if i < 0 || i >= hotbar.Length {
        return;
      }
      selectedSlot := i;
    }

    /**
     * `tryUseConsumable` (main.js:799-813): a selected potion that is held
     * heals 25 up to the maximum and is used up; at full hp, without one, or
     * with anything else selected nothing happens.
     */
    method TryUseConsumable()
      requires Valid()
      modifies this`hp, this`inventory
      ensures Valid()
      ensures var drink := old(CanDrink(hotbar[selectedSlot], inventory, hp, maxHp));
        && (drink ==> old(hp) < hp <= maxHp && hp == (if old(hp) + 25 <= maxHp then old(hp) + 25 else maxHp))
        && (drink ==> Count(inventory, "potion") == old(Count(inventory, "potion")) - 1)
        && (forall id :: id != "potion" ==> Count(inventory, id) == old(Count(inventory, id)))
        && (!drink ==> inventory == old(inventory) && hp == old(hp))
    {
      var slot := hotbar[selectedSlot];
      if slot.None? {
        return;
      }
      var id := slot.value;
      var def := ItemDefs(id);
      if def.None? || !def.value.itemType.Consumable? {
        return;
      }
      var qty := Count(inventory, id);
      if qty <= 0 {
        return;
      }
      if id == "potion" {
        if hp >= maxHp {
          return;
        }
        hp := Clamp(hp + def.value.itemType.heal, 0, maxHp);
        inventory := inventory[id := qty - 1];
      }
    }

    /** The effect of choosing a perk (main.js:1033-1037). */
    method ApplyPerk(p: Perk)
      requires Valid()
      modifies this`maxHp, this`hp, this`damageBonus, this`speedBonus
      ensures Valid()
      ensures maxHp == old(maxHp) + (if p == MaxHpPerk then 10 else 0)
      ensures hp == old(hp) + (if p == MaxHpPerk then 10 else 0)
      ensures damageBonus == old(damageBonus) + (if p == DamagePerk then 3 else 0)
      ensures speedBonus == old(speedBonus) + (if p == SpeedPerk then speed * 0.15 else 0.0)
    {
      match p
      case MaxHpPerk =>
        maxHp := maxHp + 10;
        hp := hp + 10;
      case DamagePerk =>
        damageBonus := damageBonus + 3;
      case SpeedPerk =>
        speedBonus := speedBonus + speed * 0.15;
    }

    /** The player record `saveGame` stores. */
    function Saved(): (s: PlayerSave)
      reads this, hotbar
      requires Valid()
      ensures SaveOk(s)
      ensures s.inventory == Held().inventory && s.hotbar == Held().hotbar
    {
      PlayerSave(x, y, hp, maxHp, inventory, hotbar[..], selectedSlot, coins, xp, level, damageBonus, speedBonus)
    }

    /**
     * The player half of `loadGame` (main.js:567-569): the stored fields are
     * copied over, the timers cleared; `speed` is not stored and stays.
     */
    method Restore(s: PlayerSave)
      requires SaveOk(s)
      modifies this
      ensures Valid() && fresh(hotbar)
      ensures Saved() == s
      ensures invuln == 0.0 && attackCooldown == 0.0 && speed == old(speed)
    {
      hotbar := NewHotbar(s.hotbar);
      inventory := s.inventory;
      SetSheet(Sheet(s.x, s.y, s.hp, s.maxHp, speed, 0.0, 0.0, s.selectedSlot, s.coins, s.xp, s.level, s.damageBonus, s.speedBonus));
    }

    /** Overwrites every field but the inventory and the hotbar. */
    method SetSheet(sh: Sheet)
      modifies this`x, this`y, this`hp, this`maxHp, this`speed, this`invuln, this`attackCooldown
      modifies this`selectedSlot, this`coins, this`xp, this`level, this`damageBonus, this`speedBonus
      ensures SheetOf() == sh
    {
      x := sh.x;
      y := sh.y;
      hp := sh.hp;
      maxHp := sh.maxHp;
      speed := sh.speed;
      invuln := sh.invuln;
      attackCooldown := sh.attackCooldown;
      selectedSlot := sh.selectedSlot;
      coins := sh.coins;
      xp := sh.xp;
      level := sh.level;
      damageBonus := sh.damageBonus;
      speedBonus := sh.speedBonus;
    }
  }
}
