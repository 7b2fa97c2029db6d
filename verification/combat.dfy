/**
 * What one melee swing does to a list of enemies and a list of struck
 * tiles, as functions of their values: the enemy half and the tile half of
 * `resolveAttack` (main.js:756-783), with the loot each half drops and the
 * boss flag it may raise.
 */
module Combat {
  import opened Tiles
  import opened Geometry
  import opened Layout
  import opened WorldGrid
  import opened Entities

  /** At most one boss among the enemies. */
  predicate OneBoss(es: seq<Enemy>) {
    forall i, j :: 0 <= i < |es| && 0 <= j < |es| && es[i].kind == Boss && es[j].kind == Boss ==> i == j
  }

  /** `bossDefeated` is set exactly when no living boss remains. */
  predicate BossFlagOk(es: seq<Enemy>, flag: bool) {
    flag <==> forall i :: 0 <= i < |es| && es[i].kind == Boss ==> !Alive(es[i])
  }

  /** A fresh spawn agrees with the flag it was spawned from. */
  lemma SpawnBossFlag(bossDead: bool)
    ensures OneBoss(SpawnEnemies(bossDead)) && BossFlagOk(SpawnEnemies(bossDead), bossDead)
  {
    var es := SpawnEnemies(bossDead);
    if !bossDead {
      assert es[|es| - 1].kind == Boss && Alive(es[|es| - 1]);
    }
  }

  /**
   * Every enemy after one swing: each keeps its kind and place; only a
   * living, overlapped enemy without immunity is hit, losing `dmg` hp and
   * becoming immune for 0.2s; every other enemy is left as it was.
   */
  function Struck(es: seq<Enemy>, box: Rect, dmg: int): (r: seq<Enemy>)
    ensures |r| == |es|
    ensures forall i :: 0 <= i < |es| ==> r[i].kind == es[i].kind && r[i].x == es[i].x && r[i].y == es[i].y
    ensures forall i :: 0 <= i < |es| && Alive(es[i]) && RectsOverlap(box, HitBox(es[i])) && es[i].invuln <= 0.0 ==>
      r[i] == es[i].(hp := es[i].hp - dmg, invuln := 0.2)
    ensures forall i :: 0 <= i < |es| && !(Alive(es[i]) && RectsOverlap(box, HitBox(es[i])) && es[i].invuln <= 0.0) ==>
      r[i] == es[i]
  {
    seq(|es|, i requires 0 <= i < |es| => MeleeStruck(es[i], box, dmg).0)
  }

  /** The rolls for a swing: one valid roll per enemy, drawn when it dies. */
  predicate RollsFor(es: seq<Enemy>, rolls: seq<KillRoll>) {
    |rolls| >= |es| && forall i :: 0 <= i < |rolls| ==> ValidKillRoll(rolls[i])
  }

  /** The kill loot of one swing, in enemy order; enemy i dies with roll i. */
  function KillDrops(es: seq<Enemy>, box: Rect, dmg: int, rolls: seq<KillRoll>): seq<Loot>
    requires RollsFor(es, rolls)
  {
    if |es| == 0 then []
    else
      var n := |es| - 1;
      var h := MeleeStruck(es[n], box, dmg);
      KillDrops(es[..n], box, dmg, rolls) + (if h.1 then KillLoot(h.0, rolls[n]) else [])
  }

  /**
   * The kill loot of a swing enemy by enemy: the loot of the enemies before
   * a killed one comes first, followed at once by that enemy's own kill loot
   * as it lies struck; and a swing that kills nobody drops nothing.
   */
  lemma {:induction false} KillDropsSpec(es: seq<Enemy>, box: Rect, dmg: int, rolls: seq<KillRoll>)
    requires RollsFor(es, rolls)
    ensures forall i :: 0 <= i < |es| && MeleeStruck(es[i], box, dmg).1 ==>
      KillDrops(es[..i], box, dmg, rolls) + KillLoot(Struck(es, box, dmg)[i], rolls[i]) <= KillDrops(es, box, dmg, rolls)
    ensures KillDrops(es, box, dmg, rolls) == [] <==> forall i :: 0 <= i < |es| ==> !MeleeStruck(es[i], box, dmg).1
  {
    if |es| > 0 {
      var n := |es| - 1;
      var pre := es[..n];
      KillDropsSpec(pre, box, dmg, rolls);
      var h := MeleeStruck(es[n], box, dmg);
      var tail := if h.1 then KillLoot(h.0, rolls[n]) else [];
      assert KillDrops(es, box, dmg, rolls) == KillDrops(pre, box, dmg, rolls) + tail;
      forall i | 0 <= i < |es| && MeleeStruck(es[i], box, dmg).1
        ensures KillDrops(es[..i], box, dmg, rolls) + KillLoot(Struck(es, box, dmg)[i], rolls[i]) <= KillDrops(es, box, dmg, rolls)
      {
        if i < n {
          assert es[..i] == pre[..i] && pre[i] == es[i];
          assert Struck(pre, box, dmg)[i] == Struck(es, box, dmg)[i];
        } else {
          assert es[..i] == pre;
        }
      }
      if h.1 {
        assert |KillLoot(h.0, rolls[n])| > 0;
      } else {
        assert forall i :: 0 <= i < n ==> pre[i] == es[i];
      }
    }
  }

  /**
   * The kill loot enemy by enemy: each enemy adds its own kill loot, as it
   * lies struck, to the loot of the enemies before it when the swing kills
   * it, and a survivor adds nothing.
   */
  lemma KillDropsStep(es: seq<Enemy>, box: Rect, dmg: int, rolls: seq<KillRoll>)
    requires RollsFor(es, rolls)
    ensures forall i :: 0 <= i < |es| ==>
      KillDrops(es[..i + 1], box, dmg, rolls) == KillDrops(es[..i], box, dmg, rolls) +
        (if MeleeStruck(es[i], box, dmg).1 then KillLoot(Struck(es, box, dmg)[i], rolls[i]) else [])
  {
    forall i | 0 <= i < |es|
      ensures KillDrops(es[..i + 1], box, dmg, rolls) == KillDrops(es[..i], box, dmg, rolls) +
        (if MeleeStruck(es[i], box, dmg).1 then KillLoot(Struck(es, box, dmg)[i], rolls[i]) else [])
    {
      assert es[..i + 1][..i] == es[..i] && es[..i + 1][i] == es[i];
    }
  }

  /** The number of bosses one swing kills: each one schedules a victory screen. */
  function BossKills(es: seq<Enemy>, box: Rect, dmg: int): nat {
    if |es| == 0 then 0
    else
      var n := |es| - 1;
      BossKills(es[..n], box, dmg) + (if es[n].kind == Boss && MeleeStruck(es[n], box, dmg).1 then 1 else 0)
  }

  predicate KillsBoss(es: seq<Enemy>, box: Rect, dmg: int, i: int)
    requires 0 <= i < |es|
  {
    es[i].kind == Boss && MeleeStruck(es[i], box, dmg).1
  }

  /** A swing schedules a victory exactly when it kills a boss. */
  lemma {:induction false} BossKillsSpec(es: seq<Enemy>, box: Rect, dmg: int)
    ensures BossKills(es, box, dmg) > 0 <==> exists i :: 0 <= i < |es| && KillsBoss(es, box, dmg, i)
  {
    if |es| > 0 {
      var n := |es| - 1;
      BossKillsSpec(es[..n], box, dmg);
      assert BossKills(es, box, dmg) == BossKills(es[..n], box, dmg) + (if KillsBoss(es, box, dmg, n) then 1 else 0);
      if BossKills(es[..n], box, dmg) > 0 {
        var i :| 0 <= i < n && KillsBoss(es[..n], box, dmg, i);
        assert es[..n][i] == es[i];
        assert KillsBoss(es, box, dmg, i);
      }
      if exists i :: 0 <= i < |es| && KillsBoss(es, box, dmg, i) {
        var i :| 0 <= i < |es| && KillsBoss(es, box, dmg, i);
        if i < n {
          assert es[..n][i] == es[i];
          assert KillsBoss(es[..n], box, dmg, i);
        }
      }
    }
  }

  /**
   * A swing keeps one boss at most and keeps the boss flag right: it is
   * raised by a boss kill, and only a boss kill can change it.
   */
  lemma StrikeBossFlag(es: seq<Enemy>, box: Rect, dmg: int, flag: bool)
    requires OneBoss(es) && BossFlagOk(es, flag)
    ensures OneBoss(Struck(es, box, dmg))
    ensures BossFlagOk(Struck(es, box, dmg), flag || BossKills(es, box, dmg) > 0)
  {
    var r := Struck(es, box, dmg);
    assert forall i :: 0 <= i < |es| ==> r[i].kind == es[i].kind;
    BossKillsSpec(es, box, dmg);
    if !flag {
      var b :| 0 <= b < |es| && es[b].kind == Boss && Alive(es[b]);
      if !Alive(r[b]) {
        assert KillsBoss(es, box, dmg, b);
      }
      if BossKills(es, box, dmg) > 0 {
        var i :| 0 <= i < |es| && KillsBoss(es, box, dmg, i);
        assert i == b;
      }
    }
  }

  /**
   * With at most one boss, a swing kills at most one boss, and none once no
   * living boss remains: the victory screen is scheduled once at most.
   */
  lemma {:induction false} BossKillsOnce(es: seq<Enemy>, box: Rect, dmg: int)
    requires OneBoss(es)
    ensures BossKills(es, box, dmg) <= 1
    ensures (forall i :: 0 <= i < |es| && es[i].kind == Boss ==> !Alive(es[i])) ==> BossKills(es, box, dmg) == 0
  {
    if |es| > 0 {
      var n := |es| - 1;
      var pre := es[..n];
      assert forall i :: 0 <= i < n ==> pre[i] == es[i];
      BossKillsOnce(pre, box, dmg);
      if es[n].kind == Boss {
        assert forall i :: 0 <= i < n ==> pre[i].kind != Boss;
      }
    }
  }

  /** The boss-kill bound in terms of the boss flag: no victory after the boss is dead, one at most before. */
  lemma VictoryOnce(es: seq<Enemy>, box: Rect, dmg: int, flag: bool)
    requires OneBoss(es) && BossFlagOk(es, flag)
    ensures BossKills(es, box, dmg) <= if flag then 0 else 1
  {
    BossKillsOnce(es, box, dmg);
  }

  /**
   * A projectile hit on living enemy k, leaving it with `hp`, keeps one boss
   * at most and keeps the boss flag right; the target cannot be a boss once
   * the flag is up, since every boss is then dead.
   */
  lemma ShotBossFlag(es: seq<Enemy>, k: int, hp: int, flag: bool)
    requires OneBoss(es) && BossFlagOk(es, flag) && 0 <= k < |es| && Alive(es[k])
    ensures var e := es[k].(hp := hp);
      && OneBoss(es[k := e])
      && BossFlagOk(es[k := e], flag || (e.kind == Boss && !Alive(e)))
    ensures flag ==> es[k].kind != Boss
  {
    var e := es[k].(hp := hp);
    var r := es[k := e];
    assert forall i :: 0 <= i < |es| ==> r[i].kind == es[i].kind;
    if e.kind == Boss {
      assert forall i :: 0 <= i < |es| && es[i].kind == Boss ==> i == k;
    }
  }

  /** One more enemy struck, after loot `prior`: its kill loot and its boss kill come last. */
  lemma SwingStep(prior: seq<Loot>, es: seq<Enemy>, box: Rect, dmg: int, rolls: seq<KillRoll>, i: int)
    requires RollsFor(es, rolls) && 0 <= i < |es|
    ensures var h := MeleeStruck(es[i], box, dmg);
      && prior + KillDrops(es[..i + 1], box, dmg, rolls) == prior + KillDrops(es[..i], box, dmg, rolls) + (if h.1 then KillLoot(h.0, rolls[i]) else [])
      && BossKills(es[..i + 1], box, dmg) == BossKills(es[..i], box, dmg) + (if es[i].kind == Boss && h.1 then 1 else 0)
  {
    assert es[..i + 1][..i] == es[..i];
  }

  /**
   * The resource loot of the tile half of a swing, in cell order: a
   * harvestable tile the hit takes to zero drops its resource, doubled on
   * the cells in `bonus`.
   */
  function HarvestDrops(cells: seq<Cell>, dmg: int, bonus: set<Coord>): (r: seq<Loot>)
    ensures |r| <= |cells|
    ensures forall i :: 0 <= i < |r| ==> r[i].id.Some? && r[i].coins == 0 && r[i].xp == 0 && 1 <= r[i].qty <= 2
  {
    if |cells| == 0 then []
    else
      var n := |cells| - 1;
      var c := cells[n];
      HarvestDrops(cells[..n], dmg, bonus) + CellDrop(c, dmg, bonus)
  }

  /** The number of cells among `cells` whose tile the hit depletes. */
  function DepletedCount(cells: seq<Cell>, dmg: int): nat {
    if |cells| == 0 then 0
    else
      var n := |cells| - 1;
      DepletedCount(cells[..n], dmg) + (if Depleted(cells[n].tile, dmg) then 1 else 0)
  }

  /**
   * The resource loot of a swing cell by cell: one drop per depleted cell
   * and no other, in cell order (a depleted cell's drop sits after the drops
   * of the depleted cells before it), each the cell's resource at its centre,
   * doubled on the cells in `bonus`.
   */
  lemma {:induction false} HarvestDropsSpec(cells: seq<Cell>, dmg: int, bonus: set<Coord>)
    ensures |HarvestDrops(cells, dmg, bonus)| == DepletedCount(cells, dmg)
    ensures forall j :: 0 <= j < |cells| && Depleted(cells[j].tile, dmg) ==>
      && DepletedCount(cells[..j], dmg) < |HarvestDrops(cells, dmg, bonus)|
      && HarvestDrops(cells, dmg, bonus)[DepletedCount(cells[..j], dmg)]
           == ResourceDrop(cells[j].tile.kind, cells[j].x, cells[j].y, (cells[j].x, cells[j].y) in bonus).value
  {
    if |cells| > 0 {
      var n := |cells| - 1;
      var pre := cells[..n];
      HarvestDropsSpec(pre, dmg, bonus);
      var r := HarvestDrops(cells, dmg, bonus);
      assert r == HarvestDrops(pre, dmg, bonus) + CellDrop(cells[n], dmg, bonus);
      forall j | 0 <= j < |cells| && Depleted(cells[j].tile, dmg)
        ensures DepletedCount(cells[..j], dmg) < |r|
        ensures r[DepletedCount(cells[..j], dmg)] == ResourceDrop(cells[j].tile.kind, cells[j].x, cells[j].y, (cells[j].x, cells[j].y) in bonus).value
      {
        if j < n {
          assert cells[..j] == pre[..j] && pre[j] == cells[j];
        } else {
          assert cells[..j] == pre;
        }
      }
    }
  }

  /** What one struck cell drops: its resource when the hit takes a harvestable tile to zero. */
  function CellDrop(c: Cell, dmg: int, bonus: set<Coord>): seq<Loot> {
    if Depleted(c.tile, dmg) then [ResourceDrop(c.tile.kind, c.x, c.y, (c.x, c.y) in bonus).value] else []
  }

  /** One more cell struck, after loot `prior`: its drop comes last. */
  lemma HarvestStep(prior: seq<Loot>, cells: seq<Cell>, dmg: int, bonus: set<Coord>, i: int)
    requires 0 <= i < |cells|
    ensures prior + HarvestDrops(cells[..i + 1], dmg, bonus) == prior + HarvestDrops(cells[..i], dmg, bonus) + CellDrop(cells[i], dmg, bonus)
  {
    assert cells[..i + 1][..i] == cells[..i];
  }
}
