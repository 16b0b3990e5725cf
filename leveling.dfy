/**
 * The experience/level arithmetic: thresholds form an arithmetic progression
 * (base 50, step 100), the level of a total is its integer inverse, and
 * `CalculateExperience` builds the response persisted after every event.
 */
module Leveling {
  import opened Int32

  /** The maximum level a user can attain. */
  const LEVEL_CAP: int := 1000
  /** XP required for each level after the base. */
  const EXPERIENCE_PER_LEVEL: int := 100
  /** XP needed to reach level 1. */
  const BASE_EXPERIENCE: int := 50

  /**
   * How far the user is from `level` to `level + 1`, kept as the integer
   * numerator and denominator of the source's `f32` quotient.
   */
  datatype Progress = Progress(numerator: i32, denominator: i32)

  datatype LevelResponse = LevelResponse(
    level: i32,
    experience: i32,
    experienceToNextLevel: i32,
    levelsGained: i32,
    progress: Progress)

  /** `LevelResponse::default()`: every integer 0, progress 0.0. */
  const DEFAULT_RESPONSE: LevelResponse := LevelResponse(0, 0, 0, 0, Progress(0, 1))

  /** XP required to reach `level`. */
  function XpForLevel(level: int): (r: int)
    ensures r >= BASE_EXPERIENCE
    ensures level <= 1 ==> r == BASE_EXPERIENCE
  {
    if level <= 1 then BASE_EXPERIENCE else BASE_EXPERIENCE + (level - 1) * EXPERIENCE_PER_LEVEL
  }

  /** From level 1 on, each level needs exactly one step more than the one before. */
  lemma XpForLevelStep(level: int)
    requires level >= 1
    ensures XpForLevel(level + 1) == XpForLevel(level) + EXPERIENCE_PER_LEVEL
  {
  }

  /** From level 1 on, a higher level needs strictly more XP. */
  lemma XpForLevelOrder(m: int, n: int)
    ensures 1 <= m < n ==> XpForLevel(m) < XpForLevel(n)
  {
  }

  /**
   * The level of a total, without the cap: 1 below the base (negative totals
   * included), otherwise the level whose threshold bracket holds `xp`.
   */
  function GetLevelFromXp(xp: i32): (n: i32)
    ensures n >= 1
    ensures xp < BASE_EXPERIENCE ==> n == 1
    ensures XpForLevel(n) <= xp < XpForLevel(n + 1) || (n == 1 && xp < BASE_EXPERIENCE)
  {
    if xp < BASE_EXPERIENCE then 1
    else
      var q := (xp - BASE_EXPERIENCE) / EXPERIENCE_PER_LEVEL;
      assert xp - BASE_EXPERIENCE == EXPERIENCE_PER_LEVEL * q + (xp - BASE_EXPERIENCE) % EXPERIENCE_PER_LEVEL;
      1 + q
  }

  /** The bracket determines the level: `GetLevelFromXp` is the unique inverse of `XpForLevel`. */
  lemma LevelIsUnique(xp: i32, n: int)
    requires n >= 1
    requires xp < XpForLevel(n + 1)
    requires n == 1 || XpForLevel(n) <= xp
    ensures GetLevelFromXp(xp) == n
  {
    var m := GetLevelFromXp(xp);
    XpForLevelOrder(m + 1, n + 1);
    XpForLevelOrder(m + 1, n);
    XpForLevelOrder(n + 1, m);
  }

  /** The level of a threshold is the level it is the threshold of. */
  lemma LevelOfThreshold(n: int)
    requires 1 <= n
    requires XpForLevel(n) <= I32_MAX
    ensures GetLevelFromXp(XpForLevel(n)) == n
  {
    XpForLevelStep(n);
    LevelIsUnique(XpForLevel(n), n);
  }

  /** Threshold round trip: the level of the threshold of a total's level is that level. */
  lemma ThresholdRoundTrip(xp: i32)
    ensures GetLevelFromXp(XpForLevel(GetLevelFromXp(xp))) == GetLevelFromXp(xp)
  {
    LevelOfThreshold(GetLevelFromXp(xp));
  }

  /** More XP never means a lower level. */
  lemma LevelMonotone(a: i32, b: i32)
    requires a <= b
    ensures GetLevelFromXp(a) <= GetLevelFromXp(b)
  {
    XpForLevelOrder(GetLevelFromXp(b) + 1, GetLevelFromXp(a));
  }

  /**
   * The response after the total moves from `currentExperience` to
   * `newExperience` (the new total, not a delta).
   */
  function CalculateExperience(currentExperience: i32, newExperience: i32): (r: LevelResponse)
    ensures r.experience == newExperience
    ensures r.level == Min(GetLevelFromXp(newExperience), LEVEL_CAP)
    ensures 1 <= r.level <= LEVEL_CAP
    ensures r.levelsGained == Max(0, GetLevelFromXp(newExperience) - GetLevelFromXp(currentExperience))
  {
    var oldLevel := GetLevelFromXp(currentExperience);
    var newLevel := GetLevelFromXp(newExperience);
    var level := Min(newLevel, LEVEL_CAP);
    var levelsGained := Max(newLevel - oldLevel, 0);
    if level >= LEVEL_CAP then
      LevelResponse(level, newExperience, 0, levelsGained, Progress(1, 1))
    else
      var nextLevelXp := XpForLevel(level + 1);
      var currentLevelXp := XpForLevel(level);
      var xpDiff := SaturatingSub(nextLevelXp, newExperience);
      var range := Max(SaturatingSub(nextLevelXp, currentLevelXp), 1);
      var progress := Progress(SaturatingSub(newExperience, currentLevelXp), range);
      LevelResponse(level, newExperience, xpDiff, levelsGained, progress)
  }

  /**
   * XP to the next level: zero exactly at the cap; below it, the distance to
   * the next threshold (clamped to the `i32` range), which is positive.
   */
  lemma ExperienceToNextLevel(currentExperience: i32, newExperience: i32)
    ensures var r := CalculateExperience(currentExperience, newExperience);
      && (r.level == LEVEL_CAP <==> r.experienceToNextLevel == 0)
      && (r.level < LEVEL_CAP ==>
            r.experienceToNextLevel == Min(XpForLevel(r.level + 1) - newExperience, I32_MAX) > 0)
      && (r.level < LEVEL_CAP ==> r.progress.denominator == EXPERIENCE_PER_LEVEL)
  {
    var r := CalculateExperience(currentExperience, newExperience);
    if r.level < LEVEL_CAP {
      XpForLevelStep(r.level);
    }
  }

  /** Losing or keeping XP never reports a level gained. */
  lemma NoLevelsGainedWithoutGain(currentExperience: i32, newExperience: i32)
    requires newExperience <= currentExperience
    ensures CalculateExperience(currentExperience, newExperience).levelsGained == 0
  {
    LevelMonotone(newExperience, currentExperience);
  }

  /** The cap is reached exactly when the total reaches the threshold of level 1000. */
  lemma CapReachedAtThreshold(currentExperience: i32, newExperience: i32)
    ensures CalculateExperience(currentExperience, newExperience).level == LEVEL_CAP
        <==> newExperience >= XpForLevel(LEVEL_CAP)
  {
    var n := GetLevelFromXp(newExperience);
    XpForLevelOrder(n + 1, LEVEL_CAP);
    XpForLevelOrder(LEVEL_CAP, n);
  }

  /**
   * What the code computes for the documented example `(0, 30)`: 120 XP to
   * the next level (the threshold of level 2 minus 30) and a negative progress
   * of -20/100, because `saturating_sub` does not clamp at zero.
   */
  lemma DocumentedExampleAsComputed()
    ensures CalculateExperience(0, 30) == LevelResponse(1, 30, 120, 0, Progress(-20, 100))
  {
  }
}
