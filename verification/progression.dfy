/**
 * Experience and levels: `xpToNext`, the `checkLevelUp` loop and the perks
 * offered by `promptPerk` (main.js:1013-1049).
 */
module Progression {

  /** `xpToNext` (main.js:1013-1015): the experience needed to leave `level`. */
  function XpToNext(level: int): (r: int)
    ensures level >= 1 ==> r >= 30
  {
    30 + (level - 1) * 20
  }

  /** Sum of the thresholds of levels `from` .. `to - 1`. */
  function ThresholdSum(from: int, to: int): int
    decreases to - from
  {
    if to <= from then 0 else XpToNext(from) + ThresholdSum(from + 1, to)
  }

  /**
   * The outcome of the `checkLevelUp` loop (main.js:1017-1025) as
   * (xp, level): while the experience covers the next threshold, pay it
   * and go up one level.
   */
  function LevelUp(xp: int, level: int): (r: (int, int))
    requires level >= 1
    ensures r.1 >= level
    ensures r.0 < XpToNext(r.1)
    ensures r.1 > level ==> 0 <= r.0 <= xp - 30
    ensures xp < XpToNext(level) <==> r == (xp, level)
    decreases xp
  {
    if xp < XpToNext(level) then (xp, level)
    else LevelUp(xp - XpToNext(level), level + 1)
  }

  /**
   * `checkLevelUp` is exact: the level reached is the one whose cumulative
   * threshold brackets the experience, and exactly the thresholds crossed
   * are deducted.
   */
  lemma {:induction false} LevelUpExact(xp: int, level: int)
    requires level >= 1 && xp >= 0
    ensures var r := LevelUp(xp, level);
      && r.0 == xp - ThresholdSum(level, r.1)
      && ThresholdSum(level, r.1) <= xp < ThresholdSum(level, r.1 + 1)
    decreases xp
  {
    if xp >= XpToNext(level) {
      var t := XpToNext(level);
      LevelUpExact(xp - t, level + 1);
      var r := LevelUp(xp - t, level + 1);
      assert LevelUp(xp, level) == r;
      ThresholdFront(level, r.1);
      ThresholdFront(level, r.1 + 1);
    }
  }

  lemma ThresholdFront(from: int, to: int)
    requires from < to
    ensures ThresholdSum(from, to) == XpToNext(from) + ThresholdSum(from + 1, to)
  {
  }

  /** One pass of the loop leaves its outcome unchanged. */
  lemma LevelUpStep(xp: int, level: int)
    requires level >= 1 && xp >= XpToNext(level)
    ensures LevelUp(xp, level) == LevelUp(xp - XpToNext(level), level + 1)
  {
  }

  /** The three perks of `promptPerk` (main.js:1033-1037). */
  datatype Perk = MaxHpPerk | DamagePerk | SpeedPerk

  /**
   * The shuffled list is cut to three of three entries, so every perk is
   * always offered; only the button order is random.
   */
  function PerkOptions(): (r: seq<Perk>)
    ensures |r| == 3 && MaxHpPerk in r && DamagePerk in r && SpeedPerk in r
  {
    [MaxHpPerk, DamagePerk, SpeedPerk]
  }
}
