/**
 * backend/utils/constants.js: the avatar catalogue, the game constants and
 * the achievement catalogue with its predicates over the per-answer stats.
 */
module Constants {
  import opened JsBuiltins

  // ---------------------------------------------------------------------
  // Game constants

  const BASE_XP: nat := 10
  const STREAK_BONUS_MULTIPLIER: nat := 5
  const STREAK_BONUS_THRESHOLD: nat := 3
  const FAST_ANSWER_THRESHOLD_MS: nat := 2000
  const DAILY_CHALLENGE_BONUS_XP_MULTIPLIER: nat := 25
  const DAILY_CHALLENGE_COMPLETION_BONUS: nat := 100
  const DAILY_CHALLENGE_TOTAL_PROBLEMS: nat := 5
  const LEVEL_XP_REQUIREMENT: nat := 100

  // ---------------------------------------------------------------------
  // Avatars

  /** The `requirement.type` strings of the catalogue. */
  datatype RequirementType = Level | Correct | Streak | Daily | Accuracy | Speed | Xp

  datatype Requirement = Requirement(kind: RequirementType, value: nat)

  /** A catalogue avatar; the starters carry no requirement and no description. */
  datatype Avatar = Avatar(id: string, emoji: string, name: string, requirement: Option<Requirement>, desc: Option<string>)

  function Gated(id: string, emoji: string, name: string, kind: RequirementType, value: nat, desc: string): Avatar
  {
    Avatar(id, emoji, name, Some(Requirement(kind, value)), Some(desc))
  }

  function Starter(id: string, emoji: string, name: string): Avatar
  {
    Avatar(id, emoji, name, None, None)
  }

  /** `UNLOCKABLE_AVATARS`, in catalogue order. */
  const UNLOCKABLE_AVATARS: seq<Avatar> := [
    Starter("kid1", "🧒", "Kid"),
    Starter("girl1", "👧", "Girl"),
    Starter("boy1", "👦", "Boy"),
    Gated("superhero", "🦸", "Superhero", Level, 3, "Reach Level 3"),
    Gated("wizard", "🧙", "Wizard", Level, 5, "Reach Level 5"),
    Gated("ninja", "🥷", "Ninja", Level, 10, "Reach Level 10"),
    Gated("king", "🤴", "King", Level, 15, "Reach Level 15"),
    Gated("queen", "👸", "Queen", Level, 15, "Reach Level 15"),
    Gated("star", "⭐", "Star", Correct, 50, "Get 50 correct answers"),
    Gated("rocket", "🚀", "Rocket", Correct, 100, "Get 100 correct answers"),
    Gated("trophy", "🏆", "Champion", Correct, 250, "Get 250 correct answers"),
    Gated("diamond", "💎", "Diamond", Correct, 500, "Get 500 correct answers"),
    Gated("fire", "🔥", "Fire", Streak, 10, "Get a 10 streak"),
    Gated("lightning", "⚡", "Lightning", Streak, 20, "Get a 20 streak"),
    Gated("comet", "☄️", "Comet", Streak, 30, "Get a 30 streak"),
    Gated("cat", "🐱", "Cat", Daily, 3, "Complete 3 daily challenges"),
    Gated("dog", "🐶", "Dog", Daily, 5, "Complete 5 daily challenges"),
    Gated("fox", "🦊", "Fox", Daily, 10, "Complete 10 daily challenges"),
    Gated("unicorn", "🦄", "Unicorn", Daily, 20, "Complete 20 daily challenges"),
    Gated("dragon", "🐉", "Dragon", Daily, 30, "Complete 30 daily challenges"),
    Gated("alien", "👽", "Alien", Accuracy, 95, "Achieve 95% accuracy (min 50 problems)"),
    Gated("robot", "🤖", "Robot", Speed, 20, "Answer 20 problems under 2 seconds each"),
    Gated("brain", "🧠", "Brain", Xp, 5000, "Earn 5000 total XP")
  ]

  /** No two entries of a list of avatars share an id. */
  predicate DistinctAvatarIds(avatars: seq<Avatar>)
  {
    forall i, j | 0 <= i < j < |avatars| :: avatars[i].id != avatars[j].id
  }

  /** The position of the avatar with a given id (`UNLOCKABLE_AVATARS.find`), if any. */
  function FindAvatar(id: string): (r: Option<nat>)
    ensures r.Some? ==> r.value < |UNLOCKABLE_AVATARS| && UNLOCKABLE_AVATARS[r.value].id == id
    ensures r.None? ==> forall k | 0 <= k < |UNLOCKABLE_AVATARS| :: UNLOCKABLE_AVATARS[k].id != id
  {
    FindAvatarFrom(id, 0)
  }

  function FindAvatarFrom(id: string, from: nat): (r: Option<nat>)
    requires from <= |UNLOCKABLE_AVATARS|
    ensures r.Some? ==> from <= r.value < |UNLOCKABLE_AVATARS| && UNLOCKABLE_AVATARS[r.value].id == id
    ensures r.Some? ==> forall k | from <= k < r.value :: UNLOCKABLE_AVATARS[k].id != id
    ensures r.None? ==> forall k | from <= k < |UNLOCKABLE_AVATARS| :: UNLOCKABLE_AVATARS[k].id != id
    decreases |UNLOCKABLE_AVATARS| - from
  {
    if from == |UNLOCKABLE_AVATARS| then None
    else if UNLOCKABLE_AVATARS[from].id == id then Some(from)
    else FindAvatarFrom(id, from + 1)
  }

  /** The catalogue has 23 avatars and their ids are pairwise distinct. */
  lemma AvatarCatalogueShape()
    ensures |UNLOCKABLE_AVATARS| == 23
    ensures DistinctAvatarIds(UNLOCKABLE_AVATARS)
  {
    var a := UNLOCKABLE_AVATARS;
    forall i, j | 0 <= i < j < |a| ensures a[i].id != a[j].id {
      assert a[i].id[0] != a[j].id[0] || a[i].id[1] != a[j].id[1] || a[i].id[2] != a[j].id[2] || |a[i].id| != |a[j].id|;
    }
  }

  /** Exactly the first three avatars (kid1, girl1, boy1) have no requirement. */
  lemma StartersAreFirstThree()
    ensures forall k | 0 <= k < |UNLOCKABLE_AVATARS| :: UNLOCKABLE_AVATARS[k].requirement.None? <==> k < 3
    ensures UNLOCKABLE_AVATARS[0].id == "kid1" && UNLOCKABLE_AVATARS[1].id == "girl1" && UNLOCKABLE_AVATARS[2].id == "boy1"
  {
  }

  /** Within each requirement type the thresholds never decrease along the catalogue. */
  lemma ThresholdsNonDecreasing()
    ensures forall i, j | 0 <= i < j < |UNLOCKABLE_AVATARS| ::
      var ri, rj := UNLOCKABLE_AVATARS[i].requirement, UNLOCKABLE_AVATARS[j].requirement;
      ri.Some? && rj.Some? && ri.value.kind == rj.value.kind ==> ri.value.value <= rj.value.value
  {
  }

  // ---------------------------------------------------------------------
  // Achievements

  /** The stats object handed to the achievement predicates after an answer. */
  datatype AnswerStats = AnswerStats(totalCorrect: int, totalXP: int, newStreak: int, isCorrect: bool, timeMs: int, level: int)

  /** The shapes of the catalogue's predicates. */
  datatype Condition =
    | CorrectAtLeast(n: int)
    | StreakAtLeast(n: int)
    | LevelAtLeast(n: int)
    | CorrectWithin(ms: int)

  /** `achievement.condition(stats)`. */
  predicate Holds(c: Condition, s: AnswerStats)
  {
    match c
    case CorrectAtLeast(n) => s.totalCorrect >= n
    case StreakAtLeast(n) => s.newStreak >= n
    case LevelAtLeast(n) => s.level >= n
    case CorrectWithin(ms) => s.isCorrect && s.timeMs < ms
  }

  datatype Achievement = Achievement(id: string, condition: Condition, name: string, desc: string)

  /** `ACHIEVEMENTS`, in catalogue order. */
  const ACHIEVEMENTS: seq<Achievement> := [
    Achievement("first_correct", CorrectAtLeast(1), "🌟 First Star", "Got your first correct answer!"),
    Achievement("ten_correct", CorrectAtLeast(10), "⭐ Rising Star", "Got 10 correct answers!"),
    Achievement("fifty_correct", CorrectAtLeast(50), "🌟 Super Star", "Got 50 correct answers!"),
    Achievement("hundred_correct", CorrectAtLeast(100), "💫 Math Wizard", "Got 100 correct answers!"),
    Achievement("streak_5", StreakAtLeast(5), "🔥 On Fire", "5 correct in a row!"),
    Achievement("streak_10", StreakAtLeast(10), "🔥🔥 Unstoppable", "10 correct in a row!"),
    Achievement("level_5", LevelAtLeast(5), "🏆 Level 5", "Reached level 5!"),
    Achievement("level_10", LevelAtLeast(10), "👑 Level 10", "Reached level 10!"),
    Achievement("speed_demon", CorrectWithin(3000), "⚡ Speed Demon", "Answered correctly in under 3 seconds!")
  ]

  /** No two entries of a list of achievements share an id. */
  predicate DistinctAchievementIds(achs: seq<Achievement>)
  {
    forall i, j | 0 <= i < j < |achs| :: achs[i].id != achs[j].id
  }

  /** There are 9 achievements and their ids are pairwise distinct. */
  lemma AchievementCatalogueShape()
    ensures |ACHIEVEMENTS| == 9
    ensures DistinctAchievementIds(ACHIEVEMENTS)
  {
    var a := ACHIEVEMENTS;
    forall i, j | 0 <= i < j < |a| ensures a[i].id != a[j].id {
      assert a[i].id[0] != a[j].id[0] || a[i].id[2] != a[j].id[2] || |a[i].id| != |a[j].id|;
    }
  }

  /** One stats value dominates another in the counters the predicates read. */
  predicate Dominates(later: AnswerStats, earlier: AnswerStats)
  {
    later.totalCorrect >= earlier.totalCorrect && later.newStreak >= earlier.newStreak && later.level >= earlier.level
  }

  /**
   * The count, streak and level achievements (all but speed_demon) are
   * upward-closed: once one holds, it holds for any stats with larger counters.
   */
  lemma CounterConditionsUpwardClosed(k: nat, earlier: AnswerStats, later: AnswerStats)
    requires k < |ACHIEVEMENTS| && !ACHIEVEMENTS[k].condition.CorrectWithin?
    requires Dominates(later, earlier) && Holds(ACHIEVEMENTS[k].condition, earlier)
    ensures Holds(ACHIEVEMENTS[k].condition, later)
  {
  }

  /** Only speed_demon is a timing predicate, and it needs a correct answer under 3000 ms. */
  lemma OnlySpeedDemonIsTimed()
    ensures forall k | 0 <= k < |ACHIEVEMENTS| :: ACHIEVEMENTS[k].condition.CorrectWithin? <==> k == 8
    ensures ACHIEVEMENTS[8].id == "speed_demon" && ACHIEVEMENTS[8].condition == CorrectWithin(3000)
  {
  }
}
