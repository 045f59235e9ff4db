/**
 * backend/utils/achievementService.js: XP for one answer, and the unlocking
 * of catalogue achievements into the player's append-only achievement set.
 */
module AchievementService {
  import opened JsBuiltins
  import opened Constants
  import opened Db

  // ---------------------------------------------------------------------
  // calculateXPGained

  /**
   * `calculateXPGained`: nothing for a wrong answer; otherwise the base XP
   * plus 5 for every full 3 of the streak, times the difficulty.
   */
  function CalculateXPGained(isCorrect: bool, streak: int, difficulty: int): int
  {
    if !isCorrect then 0
    else (BASE_XP + (streak / STREAK_BONUS_THRESHOLD) * STREAK_BONUS_MULTIPLIER) * difficulty
  }

  /** A wrong answer earns nothing, whatever the streak and difficulty. */
  lemma NoXpWhenWrong(streak: int, difficulty: int)
    ensures CalculateXPGained(false, streak, difficulty) == 0
  {
  }

  /** A streak of 3 at difficulty 2 earns (10 + 5) * 2 = 30. */
  lemma XpExample()
    ensures CalculateXPGained(true, 3, 2) == 30
  {
  }

  /**
   * A correct answer with a streak below 3 earns 10 per difficulty level,
   * and every 3 more in the streak add 5 per difficulty level.
   */
  lemma XpStreakSteps(streak: int, difficulty: int)
    ensures 0 <= streak < 3 ==> CalculateXPGained(true, streak, difficulty) == 10 * difficulty
    ensures CalculateXPGained(true, streak + 3, difficulty) == CalculateXPGained(true, streak, difficulty) + 5 * difficulty
  {
    assert (streak + 3) / 3 == streak / 3 + 1;
  }

  /** For a fixed non-negative difficulty the XP never drops as the streak grows. */
  lemma XpMonotoneInStreak(s1: int, s2: int, difficulty: int)
    requires s1 <= s2 && difficulty >= 0
    ensures CalculateXPGained(true, s1, difficulty) <= CalculateXPGained(true, s2, difficulty)
  {
    DivMonotone(s1, s2);
    var f1, f2 := BASE_XP + (s1 / 3) * 5, BASE_XP + (s2 / 3) * 5;
    MulMonotone(f1, f2, difficulty);
  }

  lemma DivMonotone(a: int, b: int)
    requires a <= b
    ensures a / 3 <= b / 3
  {
  }

  lemma MulMonotone(a: int, b: int, c: int)
    requires a <= b && c >= 0
    ensures a * c <= b * c
  {
  }

  // ---------------------------------------------------------------------
  // checkAchievements

  /**
   * The achievements of `achs` that the loop unlocks: those whose condition
   * holds on `stats` and whose id the player has not earned yet, in order.
   */
  function NewAchievementsIn(achs: seq<Achievement>, stats: AnswerStats, earned: set<string>): seq<Achievement>
  {
    if achs == [] then []
    else
      var a := achs[|achs| - 1];
      NewAchievementsIn(achs[..|achs| - 1], stats, earned) + (if Holds(a.condition, stats) && a.id !in earned then [a] else [])
  }

  /** What `checkAchievements(playerId, stats)` returns, given the ids the player already holds. */
  function NewAchievements(stats: AnswerStats, earned: set<string>): seq<Achievement>
  {
    NewAchievementsIn(ACHIEVEMENTS, stats, earned)
  }

  /**
   * An achievement is returned iff it is in the list, its condition holds on
   * the stats and the player did not hold it before.
   */
  lemma {:induction false} NewAchievementsInSpec(achs: seq<Achievement>, stats: AnswerStats, earned: set<string>, x: Achievement)
    ensures x in NewAchievementsIn(achs, stats, earned) <==> x in achs && Holds(x.condition, stats) && x.id !in earned
  {
    if achs != [] {
      var init := achs[..|achs| - 1];
      NewAchievementsInSpec(init, stats, earned, x);
      assert achs == init + [achs[|achs| - 1]];
    }
  }

  /** The returned achievements keep catalogue order. */
  lemma {:induction false} NewAchievementsInOrder(achs: seq<Achievement>, stats: AnswerStats, earned: set<string>)
    ensures SubsequenceOf(NewAchievementsIn(achs, stats, earned), achs)
  {
    if achs != [] {
      var init := achs[..|achs| - 1];
      NewAchievementsInOrder(init, stats, earned);
      var a := achs[|achs| - 1];
      var r := NewAchievementsIn(achs, stats, earned);
      assert achs == init + [a];
      if Holds(a.condition, stats) && a.id !in earned {
        assert r[..|r| - 1] == NewAchievementsIn(init, stats, earned);
      } else {
        assert r == NewAchievementsIn(init, stats, earned);
        SubsequenceExtend(NewAchievementsIn(init, stats, earned), init, a);
      }
    }
  }

  /** The ids of a list of achievements. */
  function AchievementIds(achs: seq<Achievement>): set<string>
  {
    set a | a in achs :: a.id
  }

  /** The rows `(player, id)` recorded for a list of achievements. */
  function AchievementKeys(player: int, achs: seq<Achievement>): set<(int, string)>
  {
    set a | a in achs :: (player, a.id)
  }

  lemma AchievementKeysAppend(player: int, achs: seq<Achievement>, a: Achievement)
    ensures AchievementKeys(player, achs + [a]) == AchievementKeys(player, achs) + {(player, a.id)}
  {
    assert forall b :: b in achs + [a] <==> b in achs || b == a;
  }

  /**
   * Once the returned ids are recorded, the same stats unlock nothing more:
   * calling `checkAchievements` twice with the same stats returns [] the
   * second time.
   */
  lemma SecondCallUnlocksNothing(stats: AnswerStats, earned: set<string>)
    ensures NewAchievements(stats, earned + AchievementIds(NewAchievements(stats, earned))) == []
  {
    var first := NewAchievements(stats, earned);
    var after := earned + AchievementIds(first);
    var second := NewAchievements(stats, after);
    if second != [] {
      var x := second[0];
      NewAchievementsInSpec(ACHIEVEMENTS, stats, after, x);
      NewAchievementsInSpec(ACHIEVEMENTS, stats, earned, x);
      assert false;
    }
  }

  /**
   * While walking the catalogue, the id at position k is recorded for the
   * player iff it was recorded before the walk: the ids inserted so far come
   * from earlier positions, and catalogue ids are distinct.
   */
  lemma RecordedBeforeWalk(achs: seq<Achievement>, table: set<(int, string)>, playerId: int, stats: AnswerStats, k: nat)
    requires k < |achs| && DistinctAchievementIds(achs)
    ensures var added := NewAchievementsIn(achs[..k], stats, IdsOf(table, playerId));
      (playerId, achs[k].id) in table + AchievementKeys(playerId, added) <==> achs[k].id in IdsOf(table, playerId)
  {
    var earned := IdsOf(table, playerId);
    var added := NewAchievementsIn(achs[..k], stats, earned);
    if (playerId, achs[k].id) in AchievementKeys(playerId, added) {
      var a :| a in added && a.id == achs[k].id;
      NewAchievementsInSpec(achs[..k], stats, earned, a);
      assert false;
    }
    assert (playerId, achs[k].id) in table <==> achs[k].id in earned;
  }

  /**
   * The outcome of one achievement check: the returned list is what the
   * catalogue walk unlocks on `stats`, and exactly its entries were added to
   * the achievements table `before`, giving `after`.
   */
  predicate AchievementsChecked(
    stats: AnswerStats, playerId: int, before: set<(int, string)>, after: set<(int, string)>, newlyUnlocked: seq<Achievement>)
  {
    newlyUnlocked == NewAchievements(stats, IdsOf(before, playerId)) &&
    after == before + AchievementKeys(playerId, newlyUnlocked)
  }

  /**
   * The `for (const achievement of ACHIEVEMENTS)` loop, over any list of
   * achievements with distinct ids: for each one whose condition holds and
   * which the player does not yet hold, inserts (player, id) and appends it
   * to the result.
   */
  method AchievementWalk(db: Store, playerId: int, stats: AnswerStats, achs: seq<Achievement>)
    returns (newlyUnlocked: seq<Achievement>)
    requires DistinctAchievementIds(achs)
    modifies db
    ensures newlyUnlocked == NewAchievementsIn(achs, stats, IdsOf(old(db.achievements), playerId))
    ensures db.achievements == old(db.achievements) + AchievementKeys(playerId, newlyUnlocked)
    ensures db.players == old(db.players) && db.progress == old(db.progress) && db.history == old(db.history)
    ensures db.dailyChallenges == old(db.dailyChallenges) && db.unlockedAvatars == old(db.unlockedAvatars)
    ensures db.fastAnswers == old(db.fastAnswers)
  {
    ghost var table := db.achievements;
    ghost var earned := IdsOf(table, playerId);
    newlyUnlocked := [];
    var k := 0;
    while k < |achs|
      invariant 0 <= k <= |achs|
      invariant newlyUnlocked == NewAchievementsIn(achs[..k], stats, earned)
      invariant db.achievements == table + AchievementKeys(playerId, newlyUnlocked)
      invariant db.players == old(db.players) && db.progress == old(db.progress) && db.history == old(db.history)
      invariant db.dailyChallenges == old(db.dailyChallenges) && db.unlockedAvatars == old(db.unlockedAvatars)
      invariant db.fastAnswers == old(db.fastAnswers)
    {
      var achievement := achs[k];
      assert achs[..k + 1][..k] == achs[..k];
      if Holds(achievement.condition, stats) {
        var recorded := (playerId, achievement.id) in db.achievements;
        RecordedBeforeWalk(achs, table, playerId, stats, k);
        if !recorded {
          AchievementKeysAppend(playerId, newlyUnlocked, achievement);
          db.achievements := db.achievements + {(playerId, achievement.id)};
          newlyUnlocked := newlyUnlocked + [achievement];
        }
      }
      k := k + 1;
    }
    assert achs[..|achs|] == achs;
  }

  /** `checkAchievements(playerId, stats)`: the walk over the whole catalogue. */
  method CheckAchievements(db: Store, playerId: int, stats: AnswerStats) returns (newlyUnlocked: seq<Achievement>)
    modifies db
    ensures AchievementsChecked(stats, playerId, old(db.achievements), db.achievements, newlyUnlocked)
    ensures db.players == old(db.players) && db.progress == old(db.progress) && db.history == old(db.history)
    ensures db.dailyChallenges == old(db.dailyChallenges) && db.unlockedAvatars == old(db.unlockedAvatars)
    ensures db.fastAnswers == old(db.fastAnswers)
  {
    AchievementCatalogueShape();
    newlyUnlocked := AchievementWalk(db, playerId, stats, ACHIEVEMENTS);
  }
}
