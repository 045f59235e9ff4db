/**
 * backend/utils/avatarService.js: the stats a player's avatars are unlocked
 * by, and the walk over the catalogue that records every newly earned avatar.
 */
module AvatarService {
  import opened JsBuiltins
  import opened Constants
  import opened Db

  // ---------------------------------------------------------------------
  // getPlayerStats

  /** The object `getPlayerStats` returns. */
  datatype PlayerStats = PlayerStats(
    level: int, totalXP: int, totalCorrect: int, totalProblems: int,
    accuracy: int, bestStreak: int, dailyChallengesCompleted: int, fastAnswers: int)

  /** `Math.floor(totalXP / LEVEL_XP_REQUIREMENT) + 1`: level l covers the XP range [(l-1)*100, l*100). */
  function PlayerLevel(totalXP: int): (l: int)
    ensures (l - 1) * LEVEL_XP_REQUIREMENT <= totalXP < l * LEVEL_XP_REQUIREMENT
    ensures totalXP >= 0 ==> l >= 1
  {
    totalXP / LEVEL_XP_REQUIREMENT + 1
  }

  /** Every further 100 XP is one more level. */
  lemma LevelStep(totalXP: int)
    ensures PlayerLevel(totalXP + LEVEL_XP_REQUIREMENT) == PlayerLevel(totalXP) + 1
  {
  }

  /** More XP never means a lower level. */
  lemma LevelMonotone(x: int, y: int)
    requires x <= y
    ensures PlayerLevel(x) <= PlayerLevel(y)
  {
  }

  /**
   * `totalProblems > 0 ? Math.round((totalCorrect / totalProblems) * 100) : 0`,
   * on exact rationals: the percentage rounded to the nearest integer, halves
   * upwards, i.e. floor((200 c + t) / (2 t)).
   */
  function Accuracy(correct: int, total: int): (a: int)
    ensures total <= 0 ==> a == 0
    ensures total > 0 ==> 200 * correct - total < 2 * total * a <= 200 * correct + total
    ensures 0 <= correct <= total ==> 0 <= a <= 100
  {
    if total > 0 then
      var a := (200 * correct + total) / (2 * total);
      AccuracyBounds(correct, total, a);
      a
    else 0
  }

  lemma AccuracyBounds(c: int, t: int, a: int)
    requires t > 0 && a == (200 * c + t) / (2 * t)
    ensures 200 * c - t < 2 * t * a <= 200 * c + t
    ensures 0 <= c <= t ==> 0 <= a <= 100
  {
    var n, d := 200 * c + t, 2 * t;
    assert n == d * a + n % d && 0 <= n % d < d;
    if 0 <= c <= t {
      assert d * a > -t;
      if a < 0 {
        MulNegative(d, a);
      }
      assert d * a <= 201 * t;
      if a > 100 {
        MulAtLeast(t, a);
      }
    }
  }

  lemma MulNegative(d: int, a: int)
    requires d > 0 && a < 0
    ensures d * a <= -d
  {
  }

  lemma MulAtLeast(t: int, a: int)
    requires t > 0 && a >= 101
    ensures 2 * t * a >= 202 * t
  {
  }

  /** All answers right is 100 %, none right is 0 %. */
  lemma AccuracyExtremes(total: int)
    requires total > 0
    ensures Accuracy(total, total) == 100
    ensures Accuracy(0, total) == 0
  {
    DivExact(201 * total, 2 * total, 100, total);
    DivExact(total, 2 * total, 0, total);
  }

  lemma DivExact(n: int, d: int, q: int, r: int)
    requires d > 0 && n == q * d + r && 0 <= r < d
    ensures n / d == q
  {
    var q2 := n / d;
    assert n == q2 * d + n % d;
    assert (q2 - q) * d == r - n % d;
    if q2 > q {
      MulPositive(q2 - q, d);
    } else if q2 < q {
      MulPositive(q - q2, d);
    }
  }

  lemma MulPositive(x: int, d: int)
    requires x >= 1 && d > 0
    ensures x * d >= d
  {
  }

  /**
   * `getPlayerStats(playerId)`: sums over the player's progress rows, the
   * count of completed daily challenges and the fast-answer counter.
   */
  function GetPlayerStats(
    progress: seq<ProgressRow>, daily: map<(int, string), DailyRow>, fast: map<int, int>, playerId: int): PlayerStats
  {
    var rows := PlayerProgress(progress, playerId);
    var totalXP := SumXp(rows);
    var totalCorrect := SumCorrect(rows);
    var totalProblems := SumTotal(rows);
    PlayerStats(
      PlayerLevel(totalXP), totalXP, totalCorrect, totalProblems, Accuracy(totalCorrect, totalProblems),
      MaxBestStreak(rows), CompletedDailyCount(daily, playerId), FastAnswerCount(fast, playerId))
  }

  /**
   * On consistent progress rows the stats are consistent: the best streak is
   * at most the correct answers, which are at most the answers, the accuracy
   * is a percentage, and the best streak is that of one of the player's rows.
   */
  lemma {:induction false} PlayerStatsSound(
    progress: seq<ProgressRow>, daily: map<(int, string), DailyRow>, fast: map<int, int>, playerId: int)
    requires SoundRows(progress)
    ensures var s := GetPlayerStats(progress, daily, fast, playerId);
      0 <= s.bestStreak <= s.totalCorrect <= s.totalProblems && 0 <= s.accuracy <= 100 &&
      s.dailyChallengesCompleted >= 0 &&
      (s.bestStreak == 0 || exists k | 0 <= k < |progress| :: progress[k].playerId == playerId && progress[k].bestStreak == s.bestStreak)
  {
    var rows := PlayerProgress(progress, playerId);
    assert SoundRows(rows) by {
      forall k | 0 <= k < |rows| ensures SoundRow(rows[k]) {
        var i :| 0 <= i < |progress| && progress[i] == rows[k];
      }
    }
    SumsOfSoundRows(rows);
    var m := MaxBestStreak(rows);
    if m != 0 {
      var k :| 0 <= k < |rows| && rows[k].bestStreak == m;
      var i :| 0 <= i < |progress| && progress[i] == rows[k];
      assert progress[i].playerId == playerId;
    }
  }

  // ---------------------------------------------------------------------
  // checkAndUnlockAvatars

  /** The `switch (avatar.requirement.type)` of `checkAndUnlockAvatars`. */
  predicate ShouldUnlock(req: Requirement, stats: PlayerStats)
  {
    match req.kind
    case Level => stats.level >= req.value
    case Correct => stats.totalCorrect >= req.value
    case Streak => stats.bestStreak >= req.value
    case Daily => stats.dailyChallengesCompleted >= req.value
    case Accuracy => stats.totalProblems >= 50 && stats.accuracy >= req.value
    case Xp => stats.totalXP >= req.value
    case Speed => stats.fastAnswers >= req.value
  }

  /** Gated, not yet unlocked, and its requirement met. */
  predicate Unlocks(a: Avatar, stats: PlayerStats, unlocked: set<string>)
  {
    a.requirement.Some? && a.id !in unlocked && ShouldUnlock(a.requirement.value, stats)
  }

  /** The avatars of `avatars` the loop unlocks, in order. */
  function NewAvatarsIn(avatars: seq<Avatar>, stats: PlayerStats, unlocked: set<string>): seq<Avatar>
  {
    if avatars == [] then []
    else
      var a := avatars[|avatars| - 1];
      NewAvatarsIn(avatars[..|avatars| - 1], stats, unlocked) + (if Unlocks(a, stats, unlocked) then [a] else [])
  }

  /** What `checkAndUnlockAvatars` returns for given stats and already-unlocked ids. */
  function NewAvatars(stats: PlayerStats, unlocked: set<string>): seq<Avatar>
  {
    NewAvatarsIn(UNLOCKABLE_AVATARS, stats, unlocked)
  }

  /**
   * An avatar is returned iff it is in the list, has a requirement, is not
   * unlocked yet and its requirement is met.
   */
  lemma {:induction false} NewAvatarsInSpec(avatars: seq<Avatar>, stats: PlayerStats, unlocked: set<string>, x: Avatar)
    ensures x in NewAvatarsIn(avatars, stats, unlocked) <==> x in avatars && Unlocks(x, stats, unlocked)
  {
    if avatars != [] {
      var init := avatars[..|avatars| - 1];
      NewAvatarsInSpec(init, stats, unlocked, x);
      assert avatars == init + [avatars[|avatars| - 1]];
    }
  }

  /** The returned avatars keep catalogue order. */
  lemma {:induction false} NewAvatarsInOrder(avatars: seq<Avatar>, stats: PlayerStats, unlocked: set<string>)
    ensures SubsequenceOf(NewAvatarsIn(avatars, stats, unlocked), avatars)
  {
    if avatars != [] {
      var init := avatars[..|avatars| - 1];
      NewAvatarsInOrder(init, stats, unlocked);
      var a := avatars[|avatars| - 1];
      var r := NewAvatarsIn(avatars, stats, unlocked);
      assert avatars == init + [a];
      if Unlocks(a, stats, unlocked) {
        assert r[..|r| - 1] == NewAvatarsIn(init, stats, unlocked);
      } else {
        assert r == NewAvatarsIn(init, stats, unlocked);
        SubsequenceExtend(NewAvatarsIn(init, stats, unlocked), init, a);
      }
    }
  }

  /** The starters kid1, girl1 and boy1 are never returned. */
  lemma StartersNeverReturned(stats: PlayerStats, unlocked: set<string>)
    ensures forall k | 0 <= k < 3 :: UNLOCKABLE_AVATARS[k] !in NewAvatars(stats, unlocked)
  {
    forall k | 0 <= k < 3 ensures UNLOCKABLE_AVATARS[k] !in NewAvatars(stats, unlocked) {
      NewAvatarsInSpec(UNLOCKABLE_AVATARS, stats, unlocked, UNLOCKABLE_AVATARS[k]);
    }
  }

  /** The alien (95 % accuracy) needs at least 50 answers, however accurate. */
  lemma AlienNeedsFiftyAnswers(stats: PlayerStats, unlocked: set<string>)
    requires stats.totalProblems < 50
    ensures UNLOCKABLE_AVATARS[20].id == "alien"
    ensures UNLOCKABLE_AVATARS[20] !in NewAvatars(stats, unlocked)
  {
    NewAvatarsInSpec(UNLOCKABLE_AVATARS, stats, unlocked, UNLOCKABLE_AVATARS[20]);
  }

  /** The ids of a list of avatars. */
  function AvatarIds(avatars: seq<Avatar>): set<string>
  {
    set a | a in avatars :: a.id
  }

  /** Once the returned avatars are recorded, the same stats unlock nothing more. */
  lemma SecondCheckUnlocksNothing(stats: PlayerStats, unlocked: set<string>)
    ensures NewAvatars(stats, unlocked + AvatarIds(NewAvatars(stats, unlocked))) == []
  {
    var first := NewAvatars(stats, unlocked);
    var after := unlocked + AvatarIds(first);
    var second := NewAvatars(stats, after);
    if second != [] {
      var x := second[0];
      NewAvatarsInSpec(UNLOCKABLE_AVATARS, stats, after, x);
      NewAvatarsInSpec(UNLOCKABLE_AVATARS, stats, unlocked, x);
      assert false;
    }
  }

  /** The rows `(player, id)` recorded for a list of avatars. */
  function AvatarKeys(player: int, avatars: seq<Avatar>): set<(int, string)>
  {
    set a | a in avatars :: (player, a.id)
  }

  lemma AvatarKeysAppend(player: int, avatars: seq<Avatar>, a: Avatar)
    ensures AvatarKeys(player, avatars + [a]) == AvatarKeys(player, avatars) + {(player, a.id)}
  {
    assert forall b :: b in avatars + [a] <==> b in avatars || b == a;
  }

  /**
   * While walking a list of avatars with distinct ids, the avatar at position
   * k is recorded for the player iff it was recorded before the walk.
   */
  lemma UnlockedBeforeWalk(avatars: seq<Avatar>, table: set<(int, string)>, playerId: int, stats: PlayerStats, k: nat)
    requires k < |avatars| && DistinctAvatarIds(avatars)
    ensures var added := NewAvatarsIn(avatars[..k], stats, IdsOf(table, playerId));
      (playerId, avatars[k].id) in table + AvatarKeys(playerId, added) <==> avatars[k].id in IdsOf(table, playerId)
  {
    var unlocked := IdsOf(table, playerId);
    var added := NewAvatarsIn(avatars[..k], stats, unlocked);
    if (playerId, avatars[k].id) in AvatarKeys(playerId, added) {
      var a :| a in added && a.id == avatars[k].id;
      NewAvatarsInSpec(avatars[..k], stats, unlocked, a);
      assert false;
    }
    assert (playerId, avatars[k].id) in table <==> avatars[k].id in unlocked;
  }

  /**
   * The `for (const avatar of UNLOCKABLE_AVATARS)` loop, over any list of
   * avatars with distinct ids and with the stats computed beforehand.
   */
  method UnlockWalk(db: Store, playerId: int, stats: PlayerStats, avatars: seq<Avatar>) returns (newlyUnlocked: seq<Avatar>)
    requires DistinctAvatarIds(avatars)
    modifies db
    ensures newlyUnlocked == NewAvatarsIn(avatars, stats, IdsOf(old(db.unlockedAvatars), playerId))
    ensures db.unlockedAvatars == old(db.unlockedAvatars) + AvatarKeys(playerId, newlyUnlocked)
    ensures db.players == old(db.players) && db.progress == old(db.progress) && db.history == old(db.history)
    ensures db.dailyChallenges == old(db.dailyChallenges) && db.achievements == old(db.achievements)
    ensures db.fastAnswers == old(db.fastAnswers)
  {
    ghost var table := db.unlockedAvatars;
    ghost var unlocked := IdsOf(table, playerId);
    newlyUnlocked := [];
    var k := 0;
    while k < |avatars|
      invariant 0 <= k <= |avatars|
      invariant newlyUnlocked == NewAvatarsIn(avatars[..k], stats, unlocked)
      invariant db.unlockedAvatars == table + AvatarKeys(playerId, newlyUnlocked)
      invariant db.players == old(db.players) && db.progress == old(db.progress) && db.history == old(db.history)
      invariant db.dailyChallenges == old(db.dailyChallenges) && db.achievements == old(db.achievements)
      invariant db.fastAnswers == old(db.fastAnswers)
    {
      var avatar := avatars[k];
      assert avatars[..k + 1][..k] == avatars[..k];
      if avatar.requirement.Some? {
        var existing := (playerId, avatar.id) in db.unlockedAvatars;
        UnlockedBeforeWalk(avatars, table, playerId, stats, k);
        if !existing && ShouldUnlock(avatar.requirement.value, stats) {
          AvatarKeysAppend(playerId, newlyUnlocked, avatar);
          db.unlockedAvatars := db.unlockedAvatars + {(playerId, avatar.id)};
          newlyUnlocked := newlyUnlocked + [avatar];
        }
      }
      k := k + 1;
    }
    assert avatars[..|avatars|] == avatars;
  }

  /**
   * The outcome of one avatar check on the given tables: the returned list is
   * what the catalogue walk unlocks on the player's stats, and exactly its
   * entries were added to the unlock table `before`, giving `after`.
   */
  predicate AvatarsChecked(
    progress: seq<ProgressRow>, daily: map<(int, string), DailyRow>, fast: map<int, int>, playerId: int,
    before: set<(int, string)>, after: set<(int, string)>, newlyUnlocked: seq<Avatar>)
  {
    newlyUnlocked == NewAvatars(GetPlayerStats(progress, daily, fast, playerId), IdsOf(before, playerId)) &&
    after == before + AvatarKeys(playerId, newlyUnlocked)
  }

  /**
   * `checkAndUnlockAvatars(playerId)`: computes the stats once, then for each
   * gated avatar not yet unlocked whose requirement is met inserts
   * (player, avatar) into unlocked_avatars and appends it to the result.
   */
  method CheckAndUnlockAvatars(db: Store, playerId: int) returns (newlyUnlocked: seq<Avatar>)
    modifies db
    ensures AvatarsChecked(db.progress, db.dailyChallenges, db.fastAnswers, playerId,
                           old(db.unlockedAvatars), db.unlockedAvatars, newlyUnlocked)
    ensures db.players == old(db.players) && db.progress == old(db.progress) && db.history == old(db.history)
    ensures db.dailyChallenges == old(db.dailyChallenges) && db.achievements == old(db.achievements)
    ensures db.fastAnswers == old(db.fastAnswers)
  {
    var stats := GetPlayerStats(db.progress, db.dailyChallenges, db.fastAnswers, playerId);
    AvatarCatalogueShape();
    newlyUnlocked := UnlockWalk(db, playerId, stats, UNLOCKABLE_AVATARS);
  }
}
