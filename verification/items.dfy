/**
 * Item definitions, recipes and the inventory/hotbar arithmetic of
 * `addItem`, `autoFillHotbar`, `removeItems`, `hasItems` and the craft
 * button (main.js:79-110, 433-454, 481-487), as functions on values.
 */
module Items {
  import opened Wrappers

  datatype ItemType = Resource | Quest | Consumable(heal: int) | Weapon(damage: int)
  datatype ItemDef = ItemDef(name: string, itemType: ItemType)

  /** `ITEM_DEFS` (main.js:79-89); any other id is unknown. */
  function ItemDefs(id: string): Option<ItemDef> {
    match id
    case "wood" => Some(ItemDef("Wood", Resource))
    case "stone" => Some(ItemDef("Stone", Resource))
    case "ore" => Some(ItemDef("Ore", Resource))
    case "herb" => Some(ItemDef("Herb", Resource))
    case "bottle" => Some(ItemDef("Bottle", Resource))
    case "dungeon_key" => Some(ItemDef("Dungeon Key", Quest))
    case "potion" => Some(ItemDef("Health Potion", Consumable(25)))
    case "basic_sword" => Some(ItemDef("Basic Sword", Weapon(12)))
    case "iron_sword" => Some(ItemDef("Iron Sword", Weapon(20)))
    case _ => None
  }

  predicate IsItem(id: string) { ItemDefs(id).Some? }

  predicate IsQuest(id: string) { ItemDefs(id).Some? && ItemDefs(id).value.itemType == Quest }

  /** Item id to count; a missing id counts as zero. */
  type Inventory = map<string, nat>

  /** A hotbar slot: an item id or empty (`null`). */
  type Slot = Option<string>

  const HotbarSize: int := 6

  /** `player.inventory[id] || 0`. */
  function Count(inv: Inventory, id: string): nat {
    if id in inv then inv[id] else 0
  }

  /** The entries of a `requires` or `creates` object, in insertion order. */
  type Cost = seq<(string, nat)>

  /** Object keys are unique. */
  predicate DistinctIds(cost: Cost) {
    forall i, j :: 0 <= i < j < |cost| ==> cost[i].0 != cost[j].0
  }

  /** Total quantity a list of entries names for `id`. */
  function Quantity(cost: Cost, id: string): nat {
    if |cost| == 0 then 0
    else Quantity(cost[..|cost| - 1], id) + (if cost[|cost| - 1].0 == id then cost[|cost| - 1].1 else 0)
  }

  /** `hasItems`: every entry is covered by the inventory (main.js:452-454). */
  function HasItems(inv: Inventory, cost: Cost): (r: bool)
    ensures r <==> forall i :: 0 <= i < |cost| ==> Count(inv, cost[i].0) >= cost[i].1
  {
    |cost| == 0 || (Count(inv, cost[0].0) >= cost[0].1 && HasItems(inv, cost[1..]))
  }

  /** One iteration of `removeItems`: deduct, never below zero. */
  function RemoveOne(inv: Inventory, e: (string, nat)): Inventory {
    inv[e.0 := if Count(inv, e.0) >= e.1 then Count(inv, e.0) - e.1 else 0]
  }

  /** `removeItems` (main.js:446-450), entry by entry. */
  function Removed(inv: Inventory, cost: Cost): Inventory {
    if |cost| == 0 then inv else RemoveOne(Removed(inv, cost[..|cost| - 1]), cost[|cost| - 1])
  }

  lemma QuantityAbsent(cost: Cost, id: string)
    requires forall i :: 0 <= i < |cost| ==> cost[i].0 != id
    ensures Quantity(cost, id) == 0
  {
    if |cost| > 0 {
      QuantityAbsent(cost[..|cost| - 1], id);
    }
  }

  /**
   * When the inventory covers the cost, `removeItems` takes exactly the
   * listed quantity of every listed id: the clamp at zero never fires.
   */
  lemma {:induction false} RemovedExact(inv: Inventory, cost: Cost)
    requires DistinctIds(cost) && HasItems(inv, cost)
    ensures forall id :: Count(Removed(inv, cost), id) == Count(inv, id) - Quantity(cost, id)
  {
    if |cost| > 0 {
      var n := |cost| - 1;
      var pre, last := cost[..n], cost[n];
      assert forall i :: 0 <= i < |pre| ==> pre[i] == cost[i];
      RemovedExact(inv, pre);
      QuantityAbsent(pre, last.0);
      forall id ensures Count(Removed(inv, cost), id) == Count(inv, id) - Quantity(cost, id) {
        assert Removed(inv, cost) == RemoveOne(Removed(inv, pre), last);
      }
    }
  }

  /** `findIndex(s => s === null)`: the first empty slot. */
  function FirstEmpty(h: seq<Slot>): (r: Option<nat>)
    ensures r.Some? ==> r.value < |h| && h[r.value] == None && forall i :: 0 <= i < r.value ==> h[i] != None
    ensures r.None? <==> None !in h
  {
    if |h| == 0 then None
    else if h[0] == None then Some(0)
    else match FirstEmpty(h[1..])
      case None => None
      case Some(k) => Some(k + 1)
  }

  /**
   * `autoFillHotbar` (main.js:440-444): a non-quest item goes into the first
   * empty slot, if there is one; nothing else changes.
   */
  function Filled(h: seq<Slot>, id: string): (r: seq<Slot>)
    ensures |r| == |h|
    ensures IsQuest(id) || None !in h ==> r == h
    ensures !IsQuest(id) && None in h ==>
      exists k :: 0 <= k < |h| && h[k] == None && (forall i :: 0 <= i < k ==> h[i] != None) && r == h[k := Some(id)]
  {
    if IsQuest(id) then h
    else match FirstEmpty(h)
      case None => h
      case Some(k) => h[k := Some(id)]
  }

  /** What the player holds: the inventory and the hotbar. */
  datatype Holdings = Holdings(inventory: Inventory, hotbar: seq<Slot>)

  /**
   * `addItem` (main.js:433-438): an unknown id changes nothing; otherwise
   * its count rises by exactly `qty`, no other count moves, and the hotbar
   * is auto-filled.
   */
  function Added(b: Holdings, id: string, qty: nat): (r: Holdings)
    ensures !IsItem(id) ==> r == b
    ensures IsItem(id) ==> forall j :: Count(r.inventory, j) == Count(b.inventory, j) + (if j == id then qty else 0)
    ensures IsItem(id) ==> r.hotbar == Filled(b.hotbar, id)
    ensures |r.hotbar| == |b.hotbar|
  {
    if !IsItem(id) then b
    else Holdings(b.inventory[id := Count(b.inventory, id) + qty], Filled(b.hotbar, id))
  }

  /** `addItem` applied to each entry in order. */
  function AddedAll(b: Holdings, entries: Cost): (r: Holdings)
    ensures |r.hotbar| == |b.hotbar|
  {
    if |entries| == 0 then b
    else Added(AddedAll(b, entries[..|entries| - 1]), entries[|entries| - 1].0, entries[|entries| - 1].1)
  }

  /** Adding a list of known items raises each count by the quantity listed for it. */
  lemma {:induction false} AddedAllCounts(b: Holdings, entries: Cost)
    requires forall i :: 0 <= i < |entries| ==> IsItem(entries[i].0)
    ensures forall id :: Count(AddedAll(b, entries).inventory, id) == Count(b.inventory, id) + Quantity(entries, id)
  {
    if |entries| > 0 {
      var n := |entries| - 1;
      assert forall i :: 0 <= i < n ==> entries[..n][i] == entries[i];
      AddedAllCounts(b, entries[..n]);
    }
  }

  datatype Recipe = Recipe(name: string, creates: Cost, needs: Cost)

  /** `RECIPES` (main.js:91-110). */
  function Recipes(): seq<Recipe> {
    [ Recipe("Basic Sword", [("basic_sword", 1)], [("wood", 2), ("stone", 1)]),
      Recipe("Iron Sword", [("iron_sword", 1)], [("ore", 2), ("stone", 2)]),
      Recipe("Health Potion", [("potion", 1)], [("herb", 1), ("bottle", 1)]) ]
  }

  /** A recipe whose entries are object entries of known items. */
  predicate WellFormed(r: Recipe) {
    && DistinctIds(r.needs) && DistinctIds(r.creates)
    && (forall i :: 0 <= i < |r.creates| ==> IsItem(r.creates[i].0))
  }

  lemma RecipesWellFormed()
    ensures forall r :: r in Recipes() ==> WellFormed(r)
  {
  }

  /**
   * The craft button (main.js:481-487): refused without materials,
   * otherwise deduct the inputs and add the outputs.
   */
  function Crafted(b: Holdings, r: Recipe): (c: Holdings)
    ensures !HasItems(b.inventory, r.needs) ==> c == b
    ensures |c.hotbar| == |b.hotbar|
  {
    if !HasItems(b.inventory, r.needs) then b
    else AddedAll(Holdings(Removed(b.inventory, r.needs), b.hotbar), r.creates)
  }

  /**
   * Crafting is exact: when the materials are there, each count ends at its
   * old value minus what the recipe requires plus what it creates.
   */
  lemma CraftExact(b: Holdings, r: Recipe)
    requires WellFormed(r) && HasItems(b.inventory, r.needs)
    ensures forall id ::
      Count(Crafted(b, r).inventory, id) == Count(b.inventory, id) - Quantity(r.needs, id) + Quantity(r.creates, id)
  {
    RemovedExact(b.inventory, r.needs);
    AddedAllCounts(Holdings(Removed(b.inventory, r.needs), b.hotbar), r.creates);
  }

  /** The hotbar of a new game before the starting materials (main.js:520). */
  function InitialHotbar(): seq<Slot> {
    [Some("basic_sword"), Some("potion"), None, None, None, None]
  }

  /** The materials a new game hands out (main.js:529-532). */
  function StartingMaterials(): Cost {
    [("wood", 3), ("stone", 2), ("herb", 1), ("bottle", 1)]
  }

  function StartHoldings(): Holdings {
    Holdings(map["wood" := 3, "stone" := 2, "herb" := 1, "bottle" := 1],
             [Some("basic_sword"), Some("potion"), Some("wood"), Some("stone"), Some("herb"), Some("bottle")])
  }

  /** The holdings after the first `k` starting materials have been added. */
  function StartPrefix(k: nat): Holdings
    requires k <= 4
  {
    var bs, po := Some("basic_sword"), Some("potion");
    if k == 0 then Holdings(map[], InitialHotbar())
    else if k == 1 then Holdings(map["wood" := 3], [bs, po, Some("wood"), None, None, None])
    else if k == 2 then Holdings(map["wood" := 3, "stone" := 2], [bs, po, Some("wood"), Some("stone"), None, None])
    else if k == 3 then Holdings(map["wood" := 3, "stone" := 2, "herb" := 1], [bs, po, Some("wood"), Some("stone"), Some("herb"), None])
    else StartHoldings()
  }

  lemma StartStep(k: nat)
    requires k < 4
    ensures Added(StartPrefix(k), StartingMaterials()[k].0, StartingMaterials()[k].1) == StartPrefix(k + 1)
  {
    var e := StartingMaterials()[k];
    AddStep(StartPrefix(k), e.0, e.1, k + 2, StartPrefix(k + 1));
  }

  lemma {:induction false} StartPrefixAdded(k: nat)
    requires k <= 4
    ensures AddedAll(StartPrefix(0), StartingMaterials()[..k]) == StartPrefix(k)
  {
    if k > 0 {
      var s := StartingMaterials();
      assert s[..k][..k - 1] == s[..k - 1];
      StartPrefixAdded(k - 1);
      StartStep(k - 1);
    }
  }

  /** A new game holds wood 3, stone 2, herb 1 and bottle 1, and its hotbar is full. */
  lemma NewGameHoldings()
    ensures AddedAll(Holdings(map[], InitialHotbar()), StartingMaterials()) == StartHoldings()
  {
    StartPrefixAdded(4);
    assert StartingMaterials()[..4] == StartingMaterials();
  }

  /** One `addItem` of a non-quest item onto a hotbar whose first empty slot is `k`. */
  lemma AddStep(b: Holdings, id: string, qty: nat, k: nat, r: Holdings)
    requires IsItem(id) && !IsQuest(id)
    requires k < |b.hotbar| && b.hotbar[k] == None && forall i :: 0 <= i < k ==> b.hotbar[i] != None
    requires r == Holdings(b.inventory[id := Count(b.inventory, id) + qty], b.hotbar[k := Some(id)])
    ensures Added(b, id, qty) == r
  {
    var f := FirstEmpty(b.hotbar);
    assert f.Some?;
    if f.value < k {
    } else if f.value > k {
    }
  }

  /** Crafting the Basic Sword at the start of a new game leaves wood 1, stone 1, herb 1, bottle 1 and one basic_sword. */
  lemma NewGameCraftScenario()
    ensures Crafted(StartHoldings(), Recipes()[0]).inventory
      == map["wood" := 1, "stone" := 1, "herb" := 1, "bottle" := 1, "basic_sword" := 1]
  {
    var start := StartHoldings();
    var req := Recipes()[0].needs;
    assert req[..1] == [("wood", 2)] && req == req[..1] + [("stone", 1)];
    var left := map["wood" := 1, "stone" := 1, "herb" := 1, "bottle" := 1];
    assert Removed(start.inventory, req[..1]) == map["wood" := 1, "stone" := 2, "herb" := 1, "bottle" := 1];
    assert Removed(start.inventory, req) == left;
    assert Crafted(start, Recipes()[0]) == Added(Holdings(left, start.hotbar), "basic_sword", 1);
  }
}
