/** The difficulty table and the scoring constants at the top of js/game.js. */
module Tuning {
  import opened Wrappers

  datatype Difficulty = Easy | Medium | Hard

  const SublevelsPerLevel: int := 3
  const BasePoints: real := 100.0
  const Penalty: real := 10.0

  /** Seconds on the clock for the first level. */
  function TimeOf(d: Difficulty): int
  {
    match d
    case Easy => 70
    case Medium => 55
    case Hard => 45
  }

  function MultiplierOf(d: Difficulty): real
  {
    match d
    case Easy => 1.0
    case Medium => 1.5
    case Hard => 2.0
  }

  function MaxNumberOf(d: Difficulty): int
  {
    match d
    case Easy => 60
    case Medium => 100
    case Hard => 150
  }

  /** The multiplier `addScore` and `applyPenalty` use: 1 while no difficulty is chosen. */
  function ScoreMultiplier(d: Option<Difficulty>): (m: real)
    ensures 1.0 <= m <= 2.0
    ensures d.None? ==> m == 1.0
  {
    if d.Some? then MultiplierOf(d.value) else 1.0
  }

  /** The multiplier `completeSublevel` uses: an unknown difficulty falls back to the easy row. */
  function BonusMultiplier(d: Option<Difficulty>): (m: real)
    ensures m == ScoreMultiplier(d)
  {
    MultiplierOf(if d.Some? then d.value else Easy)
  }

  /** The largest number of the Level-1 pools: 60 while no difficulty is chosen. */
  function PoolMax(d: Option<Difficulty>): (n: int)
    ensures 60 <= n <= 150
  {
    if d.Some? then MaxNumberOf(d.value) else 60
  }

  /** `Math.max(25, diff.time - (level - 1) * 5)`: each level takes five seconds off, never below 25. */
  function SublevelTime(d: Difficulty, level: int): (t: int)
    ensures t >= 25
    ensures t >= TimeOf(d) - (level - 1) * 5
    ensures t == 25 || t == TimeOf(d) - (level - 1) * 5
  {
    var t := TimeOf(d) - (level - 1) * 5;
    if t > 25 then t else 25
  }
}
