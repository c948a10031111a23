/**
 * The difficulty presets and the pacing rules derived from them: the tick
 * period starts at the preset's speed and drops by its speed increase at
 * every level-up, never below a floor.
 */
module Difficulty {
  /** The value of the difficulty selector. */
  datatype Setting = Easy | Medium | Hard | Insane

  /**
   * speed: the tick period; speedIncrease: what a level-up takes off it;
   * barrierFreq, bonusFreq: the spawn intervals; all in milliseconds.
   */
  datatype Profile = Profile(speed: int, speedIncrease: int, barrierFreq: int, bonusFreq: int)

  /** The fastest tick period a level-up can reach. */
  const MinSpeed := 60

  /** The slowest tick period of any preset. */
  const MaxSpeed := 200

  /** A level-up happens when the score reaches a multiple of this. */
  const PointsPerLevel := 5

  /** The `difficulties` table. */
  function ProfileOf(s: Setting): (p: Profile)
    ensures MinSpeed < p.speed <= MaxSpeed && 0 < p.speedIncrease
    ensures 0 < p.bonusFreq < p.barrierFreq
  {
    match s
    case Easy => Profile(200, 8, 15000, 8000)
    case Medium => Profile(150, 12, 12000, 6000)
    case Hard => Profile(100, 18, 10000, 5000)
    case Insane => Profile(80, 25, 8000, 4000)
  }

  /** `increaseSpeed`: the tick period after one level-up. */
  function NextSpeed(speed: int, increase: int): (r: int)
    ensures MinSpeed <= r
    ensures r == MinSpeed || r == speed - increase
    ensures speed - increase > MinSpeed ==> r == speed - increase
    ensures MinSpeed <= speed && 0 <= increase ==> r <= speed
  {
    if speed - increase > MinSpeed then speed - increase else MinSpeed
  }

  /** The tick period after `k` level-ups. */
  function SpeedAfter(speed: int, increase: int, k: nat): int
  {
    if k == 0 then speed else NextSpeed(SpeedAfter(speed, increase, k - 1), increase)
  }

  /**
   * However many level-ups accumulate, the period is the base minus the
   * accumulated increases, clamped at the floor.
   */
  lemma {:induction false} SpeedAfterClamped(speed: int, increase: int, k: nat)
    requires MinSpeed <= speed && 0 <= increase
    ensures SpeedAfter(speed, increase, k) ==
      if speed - k * increase > MinSpeed then speed - k * increase else MinSpeed
  {
    if k > 0 {
      SpeedAfterClamped(speed, increase, k - 1);
      assert speed - k * increase == speed - (k - 1) * increase - increase;
    }
  }
}
