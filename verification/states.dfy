/**
 * The screen state machine (main.js:121, 1132-1162) and the player-damage
 * rule of `damagePlayer` (main.js:939-949) over the fields it touches.
 */
module GameStates {

  /** `game.state`: menu | playing | paused | dead | victory | perk. */
  datatype GameState = Menu | Playing | Paused | Dead | Victory | ChoosingPerk

  /** `togglePause` (main.js:1132-1139): playing and paused swap; any other state stays. */
  function Toggled(s: GameState): (r: GameState)
    ensures r == Paused <==> s == Playing
    ensures r == Playing <==> s == Paused
    ensures s != Playing && s != Paused ==> r == s
  {
    if s == Playing then Paused
    else if s == Paused then Playing
    else s
  }

  /** The parts of the game and the player that `damagePlayer` reads and writes. */
  datatype Vitals = Vitals(state: GameState, hp: int, invuln: real)

  /**
   * `damagePlayer`: ignored while invulnerable or outside play; otherwise
   * hp drops by `amount`, the invulnerability window restarts, and at or
   * below zero hp is pinned to 0 and the game is over.
   */
  function Damaged(v: Vitals, amount: int, invulnTime: real): (r: Vitals)
    ensures v.invuln > 0.0 || v.state != Playing ==> r == v
    ensures v.invuln <= 0.0 && v.state == Playing ==>
      r.invuln == invulnTime && (r.state == Dead <==> v.hp - amount <= 0)
    ensures r.state == Dead && v.state != Dead ==> r.hp == 0
    ensures r.state != Dead ==> r.state == v.state && r.hp == v.hp - (if r == v then 0 else amount)
    ensures 0 <= v.hp && 0 <= amount ==> 0 <= r.hp <= v.hp
  {
    if v.invuln > 0.0 || v.state != Playing then v
    else if v.hp - amount <= 0 then Vitals(Dead, 0, invulnTime)
    else Vitals(v.state, v.hp - amount, invulnTime)
  }

  /** A run of hits, each an amount and an invulnerability time. */
  function DamagedAll(v: Vitals, hits: seq<(int, real)>): Vitals {
    if |hits| == 0 then v
    else Damaged(DamagedAll(v, hits[..|hits| - 1]), hits[|hits| - 1].0, hits[|hits| - 1].1)
  }

  /**
   * The move to "dead" happens once: after the hit that ends the game,
   * every later hit is ignored and hp stays 0.
   */
  lemma {:induction false} DeathIsFinal(v: Vitals, hits: seq<(int, real)>, k: nat)
    requires k <= |hits| && DamagedAll(v, hits[..k]).state == Dead
    ensures DamagedAll(v, hits) == DamagedAll(v, hits[..k])
  {
    if k < |hits| {
      var n := |hits| - 1;
      assert hits[..n][..k] == hits[..k];
      DeathIsFinal(v, hits[..n], k);
    } else {
      assert hits[..k] == hits;
    }
  }
}
