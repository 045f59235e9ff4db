/**
 * backend/server.js: the single-file server that repeats the backend's
 * handlers inline. Where its code is the same as the module it repeats, the
 * model uses that module's member (the seed, `getPlayerStats`,
 * `checkAndUnlockAvatars`, the avatar routes, the daily list); the members
 * here are the handlers whose code differs, each tied to the module version
 * by a lemma or by the same postcondition.
 */
module Server {
  import opened JsBuiltins
  import opened Constants
  import opened Helpers
  import opened ProblemService
  import opened Db
  import opened AchievementService
  import opened AvatarService
  import opened ProblemRoutes
  import opened DailyChallengeRoutes
  import opened LeaderboardRoutes

  // ---------------------------------------------------------------------
  // GET /api/problem

  datatype ServerProblemResponse =
    | ServerProblem(problem: Problem)
      /** A difficulty that does not parse: every operand and the answer are NaN. */
    | NaNProblem(kind: Kind)
      /** `mixed`: a redirect to the chosen type, passing the difficulty text through. */
    | Redirect(problemType: string, difficulty: string)
    | ServerFailed(status: int, error: string)

  /** The types `mixed` chooses from; `NaN >= 2` is false, so NaN keeps the first two. */
  function ServerMixedTypes(diff: ParsedInt): (types: seq<string>)
    ensures 2 <= |types| <= 4
  {
    if diff.NaN? then ["addition", "subtraction"] else MixedTypes(diff.n)
  }

  /** The handler on a type, a parsed difficulty and the difficulty text given. */
  function ServerProblemFor(problemType: string, diff: ParsedInt, difficultyText: string, rand: nat -> nat): ServerProblemResponse
  {
    if KindOf(problemType).Some? then
      if diff.NaN? then NaNProblem(KindOf(problemType).value)
      else ServerProblem(Arith(KindOf(problemType).value, diff.n, rand))
    else if problemType == "mixed" then
      var types := ServerMixedTypes(diff);
      Redirect(types[FloorScaled(|types|, rand(0))], difficultyText)
    else ServerFailed(400, "Invalid problem type")
  }

  /**
   * `GET /api/problem`: `type` defaults to "addition" and `difficulty` to the
   * number 1; the difficulty goes through `parseInt` only, with no `|| 1`.
   */
  function ServerGetProblem(typeParam: Option<string>, difficultyParam: Option<string>, rand: nat -> nat): ServerProblemResponse
  {
    var problemType := if typeParam.Some? then typeParam.value else "addition";
    var diff := if difficultyParam.Some? then ParseInt(difficultyParam.value) else Num(1);
    var text := if difficultyParam.Some? then difficultyParam.value else "1";
    ServerProblemFor(problemType, diff, text, rand)
  }

  /**
   * The handler answers 400 exactly on an unknown type; `mixed` redirects
   * with the difficulty text unchanged to an allowed type, multiplication
   * only from difficulty 2 and division only from 3; a concrete type at a
   * non-zero difficulty serves the very problem `generateProblem` draws.
   */
  lemma ServerGetProblemSpec(typeParam: Option<string>, difficultyParam: Option<string>, rand: nat -> nat)
    ensures var r := ServerGetProblem(typeParam, difficultyParam, rand);
      var t := if typeParam.Some? then typeParam.value else "addition";
      var diff := if difficultyParam.Some? then ParseInt(difficultyParam.value) else Num(1);
      (r.ServerFailed? <==> !KnownType(t)) &&
      (r.ServerFailed? ==> r == ServerFailed(400, "Invalid problem type")) &&
      (r.Redirect? <==> t == "mixed") &&
      (r.Redirect? ==>
        r.problemType in {"addition", "subtraction", "multiplication", "division"} &&
        (r.problemType == "multiplication" ==> diff.Num? && diff.n >= 2) &&
        (r.problemType == "division" ==> diff.Num? && diff.n >= 3) &&
        r.difficulty == (if difficultyParam.Some? then difficultyParam.value else "1")) &&
      (r.NaNProblem? <==> KindOf(t).Some? && diff.NaN?) &&
      (KindOf(t).Some? && diff.Num? && diff.n != 0 ==>
        r.ServerProblem? && GenerateProblem(t, diff, rand) == Ok(r.problem))
  {
    var t := if typeParam.Some? then typeParam.value else "addition";
    var diff := if difficultyParam.Some? then ParseInt(difficultyParam.value) else Num(1);
    if t == "mixed" {
      var types := ServerMixedTypes(diff);
      var k := FloorScaled(|types|, rand(0));
      if diff.Num? {
        MixedTypesKnown(diff.n, k);
      }
    }
  }

  /**
   * As written, difficulty "0" reaches the arithmetic: a subtraction at
   * difficulty 0 draws a = 0 and b = 1 whatever the draws, so the problem is
   * 0 - 1 with answer -1.
   */
  lemma ServerZeroDifficultySubtraction(rand: nat -> nat)
    ensures ServerGetProblem(Some("subtraction"), Some(Show(0)), rand) == ServerProblem(Problem(0, 1, -1, Subtraction, 0))
  {
    ParseShow(0, []);
    assert Show(0) + [] == Show(0);
  }

  /** The handler with the generator's `parseInt(difficulty) || 1`. */
  function ServerGetProblemCorrected(typeParam: Option<string>, difficultyParam: Option<string>, rand: nat -> nat): ServerProblemResponse
  {
    var problemType := if typeParam.Some? then typeParam.value else "addition";
    var diff := if difficultyParam.Some? then ParseInt(difficultyParam.value) else Num(1);
    var text := if difficultyParam.Some? then difficultyParam.value else "1";
    ServerProblemFor(problemType, Num(OrDefault(diff, 1)), text, rand)
  }

  /**
   * Corrected, the handler serves exactly the module route's problem for
   * every concrete type, never a NaN problem, and a subtraction whose
   * difficulty parses to a non-negative number or not at all is never
   * negative.
   */
  lemma ServerGetProblemCorrectedSpec(typeParam: Option<string>, difficultyParam: Option<string>, rand: nat -> nat)
    ensures var r := ServerGetProblemCorrected(typeParam, difficultyParam, rand);
      var t := if typeParam.Some? then typeParam.value else "addition";
      !r.NaNProblem? &&
      (KindOf(t).Some? ==> r.ServerProblem? && GetProblem(typeParam, difficultyParam, rand) == ProblemJson(r.problem))
    ensures var r := ServerGetProblemCorrected(typeParam, difficultyParam, rand);
      var diff := if difficultyParam.Some? then ParseInt(difficultyParam.value) else Num(1);
      typeParam == Some("subtraction") && (diff.NaN? || diff.n >= 0) ==> r.ServerProblem? && r.problem.result >= 0
  {
    var diff := if difficultyParam.Some? then ParseInt(difficultyParam.value) else Num(1);
    if typeParam == Some("subtraction") && (diff.NaN? || diff.n >= 0) {
      SubtractionNonNegative(diff, rand);
    }
  }

  // ---------------------------------------------------------------------
  // POST /api/submit

  /**
   * The progress read-modify-write of `/api/submit`, with the XP written
   * inline: `(10 + floor(newStreak / 3) * 5) * difficulty` on an existing
   * row, `10 * difficulty` on a fresh one.
   */
  function ServerSubmitProgress(rows: seq<ProgressRow>, player: int, problemType: string, isCorrect: bool, difficulty: int): ProgressOutcome
  {
    match FindProgress(rows, player, problemType)
    case Some(k) =>
      var row := rows[k];
      var newStreak := if isCorrect then row.streak + 1 else 0;
      var bestStreak := Max(row.bestStreak, newStreak);
      var xpGained := if isCorrect then (10 + (newStreak / 3) * 5) * difficulty else 0;
      ProgressOutcome(
        rows[k := row.(correct := row.correct + (if isCorrect then 1 else 0), total := row.total + 1,
                       streak := newStreak, bestStreak := bestStreak, xp := row.xp + xpGained,
                       difficulty := difficulty)],
        newStreak, xpGained)
    case None =>
      var newStreak := if isCorrect then 1 else 0;
      var xpGained := if isCorrect then 10 * difficulty else 0;
      ProgressOutcome(
        rows + [ProgressRow(player, problemType, difficulty, if isCorrect then 1 else 0, 1, newStreak, newStreak, xpGained)],
        newStreak, xpGained)
  }

  /**
   * The inline XP is `calculateXPGained`: on a fresh row `10 * difficulty`
   * is the streak formula at streak 1, so both handlers write the same rows.
   */
  lemma ServerSubmitProgressAgrees(rows: seq<ProgressRow>, player: int, problemType: string, isCorrect: bool, difficulty: int)
    ensures ServerSubmitProgress(rows, player, problemType, isCorrect, difficulty) ==
            SubmitProgress(rows, player, problemType, isCorrect, difficulty)
    ensures 10 * difficulty == CalculateXPGained(true, 1, difficulty)
  {
  }

  /** `achievementChecks`: each achievement with its condition already evaluated on the submission. */
  function InlineAchievementChecks(stats: AnswerStats): (checks: seq<(Achievement, bool)>)
    ensures |checks| == 9
  {
    var totalCorrect, newStreak, totalXP := stats.totalCorrect, stats.newStreak, stats.totalXP;
    [ (ACHIEVEMENTS[0], totalCorrect >= 1),
      (ACHIEVEMENTS[1], totalCorrect >= 10),
      (ACHIEVEMENTS[2], totalCorrect >= 50),
      (ACHIEVEMENTS[3], totalCorrect >= 100),
      (ACHIEVEMENTS[4], newStreak >= 5),
      (ACHIEVEMENTS[5], newStreak >= 10),
      (ACHIEVEMENTS[6], totalXP / 100 + 1 >= 5),
      (ACHIEVEMENTS[7], totalXP / 100 + 1 >= 10),
      (ACHIEVEMENTS[8], stats.isCorrect && stats.timeMs < 3000) ]
  }

  /** The inline table is the catalogue, each condition evaluated as the catalogue's predicate would. */
  lemma InlineChecksAreCatalogue(stats: AnswerStats)
    requires stats.level == PlayerLevel(stats.totalXP)
    ensures forall k | 0 <= k < 9 ::
      InlineAchievementChecks(stats)[k] == (ACHIEVEMENTS[k], Holds(ACHIEVEMENTS[k].condition, stats))
  {
    AchievementCatalogueShape();
  }

  /** The entries of `checks` the loop pushes: condition true and id not held before. */
  function Fired(checks: seq<(Achievement, bool)>, earned: set<string>): seq<Achievement>
  {
    if checks == [] then []
    else
      var c := checks[|checks| - 1];
      Fired(checks[..|checks| - 1], earned) + (if c.1 && c.0.id !in earned then [c.0] else [])
  }

  /** Checks that pair each achievement with its own condition fire what the catalogue walk unlocks. */
  lemma {:induction false} FiredMatchesWalk(
    checks: seq<(Achievement, bool)>, achs: seq<Achievement>, stats: AnswerStats, earned: set<string>, k: nat)
    requires |checks| == |achs| && k <= |checks|
    requires forall i | 0 <= i < |checks| :: checks[i] == (achs[i], Holds(achs[i].condition, stats))
    ensures Fired(checks[..k], earned) == NewAchievementsIn(achs[..k], stats, earned)
  {
    if k > 0 {
      FiredMatchesWalk(checks, achs, stats, earned, k - 1);
      assert checks[..k][..k - 1] == checks[..k - 1];
      assert achs[..k][..k - 1] == achs[..k - 1];
    }
  }

  /** Firing the inline table is what the catalogue walk of `checkAchievements` unlocks. */
  lemma FiredIsNewAchievements(stats: AnswerStats, earned: set<string>)
    requires stats.level == PlayerLevel(stats.totalXP)
    ensures Fired(InlineAchievementChecks(stats), earned) == NewAchievements(stats, earned)
  {
    var checks := InlineAchievementChecks(stats);
    AchievementCatalogueShape();
    InlineChecksAreCatalogue(stats);
    FiredMatchesWalk(checks, ACHIEVEMENTS, stats, earned, 9);
    assert checks[..9] == checks;
    assert ACHIEVEMENTS[..9] == ACHIEVEMENTS;
  }

  /** The checks name pairwise distinct achievement ids. */
  predicate DistinctCheckIds(checks: seq<(Achievement, bool)>)
  {
    forall i, j | 0 <= i < j < |checks| :: checks[i].0.id != checks[j].0.id
  }

  /** Everything fired comes from an entry of the checks. */
  lemma {:induction false} FiredFrom(checks: seq<(Achievement, bool)>, earned: set<string>, x: Achievement)
    requires x in Fired(checks, earned)
    ensures exists i | 0 <= i < |checks| :: checks[i].0 == x
  {
    var init := checks[..|checks| - 1];
    if x in Fired(init, earned) {
      FiredFrom(init, earned, x);
      var i :| 0 <= i < |init| && init[i].0 == x;
      assert checks[i] == init[i];
    } else {
      assert checks[|checks| - 1].0 == x;
    }
  }

  /** The ids recorded for the checks fired so far come from earlier, distinct entries. */
  lemma FiredRecordedBefore(checks: seq<(Achievement, bool)>, table: set<(int, string)>, playerId: int, k: nat)
    requires k < |checks| && DistinctCheckIds(checks)
    ensures var added := Fired(checks[..k], IdsOf(table, playerId));
      (playerId, checks[k].0.id) in table + AchievementKeys(playerId, added) <==> checks[k].0.id in IdsOf(table, playerId)
  {
    var earned := IdsOf(table, playerId);
    var added := Fired(checks[..k], earned);
    if (playerId, checks[k].0.id) in AchievementKeys(playerId, added) {
      var a :| a in added && a.id == checks[k].0.id;
      FiredFrom(checks[..k], earned, a);
      assert false;
    }
    assert (playerId, checks[k].0.id) in table <==> checks[k].0.id in earned;
  }

  /**
   * The `for (const ach of achievementChecks)` loop over any checks with
   * distinct ids: for each check whose condition holds and whose id the
   * player does not hold, inserts the row and pushes the achievement.
   */
  method FiredWalk(db: Store, playerId: int, checks: seq<(Achievement, bool)>) returns (achievements: seq<Achievement>)
    requires DistinctCheckIds(checks)
    modifies db
    ensures achievements == Fired(checks, IdsOf(old(db.achievements), playerId))
    ensures db.achievements == old(db.achievements) + AchievementKeys(playerId, achievements)
    ensures db.players == old(db.players) && db.progress == old(db.progress) && db.history == old(db.history)
    ensures db.dailyChallenges == old(db.dailyChallenges) && db.unlockedAvatars == old(db.unlockedAvatars)
    ensures db.fastAnswers == old(db.fastAnswers)
  {
    ghost var table := db.achievements;
    ghost var earned := IdsOf(table, playerId);
    achievements := [];
    var k := 0;
    while k < |checks|
      invariant 0 <= k <= |checks|
      invariant achievements == Fired(checks[..k], earned)
      invariant db.achievements == table + AchievementKeys(playerId, achievements)
      invariant db.players == old(db.players) && db.progress == old(db.progress) && db.history == old(db.history)
      invariant db.dailyChallenges == old(db.dailyChallenges) && db.unlockedAvatars == old(db.unlockedAvatars)
      invariant db.fastAnswers == old(db.fastAnswers)
    {
      var ach := checks[k];
      assert checks[..k + 1][..k] == checks[..k];
      if ach.1 {
        var found := (playerId, ach.0.id) in db.achievements;
        FiredRecordedBefore(checks, table, playerId, k);
        if !found {
          AchievementKeysAppend(playerId, achievements, ach.0);
          db.achievements := db.achievements + {(playerId, ach.0.id)};
          achievements := achievements + [ach.0];
        }
      }
      k := k + 1;
    }
    assert checks[..|checks|] == checks;
  }

  /**
   * The inline achievement check of `/api/submit`: the walk over the inline
   * table, so it fires each id at most once per player, and exactly what
   * `checkAchievements` would.
   */
  method ServerCheckAchievements(db: Store, playerId: int, stats: AnswerStats) returns (achievements: seq<Achievement>)
    requires stats.level == PlayerLevel(stats.totalXP)
    modifies db
    ensures AchievementsChecked(stats, playerId, old(db.achievements), db.achievements, achievements)
    ensures db.players == old(db.players) && db.progress == old(db.progress) && db.history == old(db.history)
    ensures db.dailyChallenges == old(db.dailyChallenges) && db.unlockedAvatars == old(db.unlockedAvatars)
    ensures db.fastAnswers == old(db.fastAnswers)
  {
    var checks := InlineAchievementChecks(stats);
    ghost var earned := IdsOf(db.achievements, playerId);
    InlineChecksAreCatalogue(stats);
    AchievementCatalogueShape();
    assert DistinctCheckIds(checks) by {
      forall i, j | 0 <= i < j < |checks| ensures checks[i].0.id != checks[j].0.id {
        assert checks[i].0 == ACHIEVEMENTS[i] && checks[j].0 == ACHIEVEMENTS[j];
      }
    }
    achievements := FiredWalk(db, playerId, checks);
    FiredIsNewAchievements(stats, earned);
  }

  /**
   * `POST /api/submit`: the same guards as the module route, then the same
   * writes and checks in the server's order; the postcondition is the
   * module route's, so both handlers leave the same store and answer the
   * same.
   */
  method ServerSubmit(db: Store, req: SubmitRequest) returns (resp: SubmitResponse)
    requires db.Valid()
    modifies db
    ensures db.Valid()
    ensures MissingPlayer(req.playerId) || !(HasToString(req.userAnswer) && HasToString(req.correctAnswer)) ==>
      resp == (if MissingPlayer(req.playerId) then Failed(400, "Player ID required") else Crashed) &&
      Untouched(db)
    ensures !MissingPlayer(req.playerId) && HasToString(req.userAnswer) && HasToString(req.correctAnswer) ==>
      AnswerRecorded(db, req, resp)
  {
    if MissingPlayer(req.playerId) {
      return Failed(400, "Player ID required");
    }
    if !HasToString(req.userAnswer) || !HasToString(req.correctAnswer) {
      return Crashed;
    }
    resp := ServerRecordAnswer(db, req);
  }

  /**
   * The server's writes after the guards, in its order: history, fast
   * answers, progress, avatars, inline achievements.
   */
  method ServerRecordAnswer(db: Store, req: SubmitRequest) returns (resp: SubmitResponse)
    requires db.Valid() && req.playerId.Some?
    modifies db
    ensures db.Valid()
    ensures AnswerRecorded(db, req, resp)
  {
    var player := req.playerId.value;
    var isCorrect := AnswersMatch(ToJsString(req.userAnswer), ToJsString(req.correctAnswer));
    var out := ServerWriteAnswer(db, req);

    var newAvatars := CheckAndUnlockAvatars(db, player);

    var stats := SubmitStats(db.progress, player, out.newStreak, isCorrect, req.timeMs);
    var achievements := ServerCheckAchievements(db, player, stats);

    resp := Submitted(isCorrect, out.newStreak, out.xpGained, achievements, newAvatars, stats.totalXP, stats.level);
  }

  /**
   * The server's first three writes: the history row, the fast-answer
   * counter, and the inline progress update, which is the module route's.
   */
  method ServerWriteAnswer(db: Store, req: SubmitRequest) returns (out: ProgressOutcome)
    requires db.Valid() && req.playerId.Some?
    modifies db
    ensures db.Valid()
    ensures var player := req.playerId.value;
      var isCorrect := AnswersMatch(ToJsString(req.userAnswer), ToJsString(req.correctAnswer));
      out == SubmitProgress(old(db.progress), player, req.problemType, isCorrect, req.difficulty) &&
      db.history == old(db.history) + [HistoryRow(player, req.problem, ToJsString(req.correctAnswer),
                                                  ToJsString(req.userAnswer), isCorrect, req.timeMs)] &&
      db.progress == out.rows &&
      db.fastAnswers == FastAnswersAfter(old(db.fastAnswers), player, isCorrect, req.timeMs)
    ensures db.players == old(db.players) && db.dailyChallenges == old(db.dailyChallenges)
    ensures db.achievements == old(db.achievements) && db.unlockedAvatars == old(db.unlockedAvatars)
  {
    var player := req.playerId.value;
    var isCorrect := AnswersMatch(ToJsString(req.userAnswer), ToJsString(req.correctAnswer));

    db.history := db.history + [HistoryRow(player, req.problem, ToJsString(req.correctAnswer),
                                           ToJsString(req.userAnswer), isCorrect, req.timeMs)];

    db.fastAnswers := FastAnswersAfter(db.fastAnswers, player, isCorrect, req.timeMs);

    out := ServerSubmitProgress(db.progress, player, req.problemType, isCorrect, req.difficulty);
    ServerSubmitProgressAgrees(db.progress, player, req.problemType, isCorrect, req.difficulty);
    SubmitProgressKeepsValid(db.progress, player, req.problemType, isCorrect, req.difficulty);
    db.progress := out.rows;
  }

  // ---------------------------------------------------------------------
  // POST /api/daily-challenge/submit

  /**
   * The right-answer writes as the server does them: one update of the row
   * with the per-problem and the completion bonus together, and one credit
   * of their sum to the progress row of the type. The outcome is the module
   * route's two-step update.
   */
  method ServerCreditRightAnswer(db: Store, playerId: int, today: string, row: DailyRow, problem: Problem)
    returns (completionBonus: int)
    requires db.Valid() && (playerId, today) in db.dailyChallenges && db.dailyChallenges[(playerId, today)] == row
    modifies db
    ensures db.Valid()
    ensures RightAnswerWrites(old(db.dailyChallenges), old(db.progress), db.dailyChallenges, db.progress,
                              playerId, today, row, problem, completionBonus)
    ensures db.players == old(db.players) && db.history == old(db.history) && db.achievements == old(db.achievements)
    ensures db.unlockedAvatars == old(db.unlockedAvatars) && db.fastAnswers == old(db.fastAnswers)
  {
    var newCompleted := row.problemsCompleted + 1;
    var bonusXp := 25 * problem.difficulty;
    var isFullyComplete := newCompleted >= row.totalProblems;
    completionBonus := if isFullyComplete then 100 else 0;
    db.dailyChallenges := db.dailyChallenges[(playerId, today) :=
      DailyRow(newCompleted, row.totalProblems, row.bonusXpEarned + bonusXp + completionBonus, isFullyComplete)];
    AddXpSpec(db.progress, playerId, KindName(problem.kind), bonusXp + completionBonus);
    db.progress := AddXp(db.progress, playerId, KindName(problem.kind), bonusXp + completionBonus);
  }

  /** The right-answer branch: the server's writes, then the avatar check on the new totals. */
  method ServerAcceptRightAnswer(db: Store, playerId: int, today: string, row: DailyRow, problem: Problem)
    returns (resp: DailySubmitResponse)
    requires db.Valid() && (playerId, today) in db.dailyChallenges && db.dailyChallenges[(playerId, today)] == row
    modifies db
    ensures db.Valid()
    ensures CreditedRightAnswer(db, playerId, today, row, problem, resp)
  {
    var completionBonus := ServerCreditRightAnswer(db, playerId, today, row, problem);
    var newAvatars := CheckAndUnlockAvatars(db, playerId);
    resp := Right(25 * problem.difficulty, row.problemsCompleted + 1, row.totalProblems,
                  row.problemsCompleted + 1 >= row.totalProblems, completionBonus, newAvatars);
  }

  /**
   * `POST /api/daily-challenge/submit`: like the module route, except that
   * there is no 'Invalid problem index' gate: the problem at
   * problems_completed is regenerated for any count. A negative count is
   * unreachable (counts start at 0 and only increase); its behaviour is not
   * modelled and it gets the crash answer.
   */
  method ServerSubmitDaily(db: Store, playerId: int, today: string, answer: JsValue) returns (resp: DailySubmitResponse)
    requires db.Valid()
    modifies db
    ensures db.Valid()
    ensures (playerId, today) !in old(db.dailyChallenges) ==>
      resp == DailyFailed(400, "No active daily challenge") && Untouched(db)
    ensures (playerId, today) in old(db.dailyChallenges) && old(db.dailyChallenges)[(playerId, today)].completed ==>
      resp == DailyFailed(400, "Daily challenge already completed") && Untouched(db)
    ensures (playerId, today) in old(db.dailyChallenges) && !old(db.dailyChallenges)[(playerId, today)].completed ==>
      var row := old(db.dailyChallenges)[(playerId, today)];
      (row.problemsCompleted < 0 || !HasToString(answer) ==> resp == DailyCrashed && Untouched(db)) &&
      (row.problemsCompleted >= 0 && HasToString(answer) ==>
        var problem := DailyEntryAt(DailySeed(today), row.problemsCompleted).problem;
        (!DailyAnswerMatches(ToJsString(answer), AnswerText(problem)) ==> resp == Wrong(AnswerText(problem)) && Untouched(db)) &&
        (DailyAnswerMatches(ToJsString(answer), AnswerText(problem)) ==>
          CreditedRightAnswer(db, playerId, today, row, problem, resp)))
  {
    var key := (playerId, today);
    if key !in db.dailyChallenges {
      return DailyFailed(400, "No active daily challenge");
    }
    var challenge := db.dailyChallenges[key];
    if challenge.completed {
      return DailyFailed(400, "Daily challenge already completed");
    }
    if challenge.problemsCompleted < 0 {
      return DailyCrashed;
    }
    var seed := GetDailyChallengeSeed(today);
    var problem := DailyEntryAt(seed, challenge.problemsCompleted).problem;
    if !HasToString(answer) {
      return DailyCrashed;
    }
    if Trim(ToJsString(answer)) != Show(problem.result) {
      return Wrong(AnswerText(problem));
    }
    resp := ServerAcceptRightAnswer(db, playerId, today, challenge, problem);
  }

  /**
   * On the rows the handlers themselves keep (problems_completed within
   * [0, 5)), the server checks the same problem the module route does.
   */
  lemma ServerChecksSameProblem(today: string, row: DailyRow)
    requires 0 <= row.problemsCompleted < 5
    ensures GetDailyChallengeProblem(today, row.problemsCompleted) ==
            Some(DailyEntryAt(DailySeed(today), row.problemsCompleted))
  {
  }

  // ---------------------------------------------------------------------
  // GET /api/leaderboard

  /** `if (totalXP === 0) continue`: the players with non-zero XP, in order. */
  function NonZero(ts: seq<Topper>): (r: seq<Topper>)
    ensures forall k | 0 <= k < |r| :: r[k].totalXp != 0
  {
    if ts == [] then []
    else NonZero(ts[..|ts| - 1]) + (if ts[|ts| - 1].totalXp != 0 then [ts[|ts| - 1]] else [])
  }

  /** With no negative totals, skipping zero is the SQL's HAVING total_xp > 0. */
  lemma {:induction false} NonZeroIsPositive(ts: seq<Topper>)
    requires forall k | 0 <= k < |ts| :: ts[k].totalXp >= 0
    ensures NonZero(ts) == Positive(ts)
  {
    if ts != [] {
      NonZeroIsPositive(ts[..|ts| - 1]);
    }
  }

  /** The list `ServerGetLeaderboard` returns, as a value. */
  function ServerLeaderboardOf(players: seq<PlayerRow>, progress: seq<ProgressRow>, limitParam: Option<string>): seq<LeaderboardEntry>
  {
    Ranked(SliceTo(SortDesc(NonZero(Aggregate(players, progress))), LimitOf(limitParam)))
  }

  /**
   * `GET /api/leaderboard`: a loop over the players aggregating each one's
   * rows and skipping a zero total, then the JavaScript sort by total
   * descending (stable), `slice(0, limit)` and the ranks.
   */
  method ServerGetLeaderboard(players: seq<PlayerRow>, progress: seq<ProgressRow>, limitParam: Option<string>)
    returns (topN: seq<LeaderboardEntry>)
    ensures topN == ServerLeaderboardOf(players, progress, limitParam)
  {
    var limit := LimitOf(limitParam);
    var leaderboard: seq<Topper> := [];
    var k := 0;
    while k < |players|
      invariant 0 <= k <= |players|
      invariant leaderboard == NonZero(Aggregate(players[..k], progress))
    {
      var player := TopperOf(players[k], progress);
      AggregateSnoc(players, progress, k);
      if player.totalXp != 0 {
        leaderboard := leaderboard + [player];
      }
      k := k + 1;
    }
    assert players[..|players|] == players;
    var sorted := SortDesc(leaderboard);
    topN := Ranked(SliceTo(sorted, limit));
  }

  lemma AggregateSnoc(players: seq<PlayerRow>, progress: seq<ProgressRow>, k: nat)
    requires k < |players|
    ensures Aggregate(players[..k + 1], progress) == Aggregate(players[..k], progress) + [TopperOf(players[k], progress)]
  {
    var a, b := Aggregate(players[..k + 1], progress), Aggregate(players[..k], progress) + [TopperOf(players[k], progress)];
    assert |a| == |b|;
    forall j | 0 <= j < |a| ensures a[j] == b[j] {
      assert players[..k + 1][j] == players[j];
    }
  }

  /**
   * The server's leaderboard is the module route's whenever no player's
   * total XP is negative and the limit is positive.
   */
  lemma ServerLeaderboardAgrees(players: seq<PlayerRow>, progress: seq<ProgressRow>, limitParam: Option<string>)
    requires forall k | 0 <= k < |players| :: SumXp(PlayerProgress(progress, players[k].id)) >= 0
    requires LimitOf(limitParam) > 0
    ensures ServerLeaderboardOf(players, progress, limitParam) == GetLeaderboard(players, progress, limitParam)
  {
    NonZeroIsPositive(Aggregate(players, progress));
  }

  /**
   * A negative limit is where the two part: SQLite reads LIMIT -1 as no
   * limit, while `slice(0, -1)` drops the last row; so one player with XP is
   * listed by the module route and not by the server.
   */
  lemma NegativeLimitDiffers(p: PlayerRow, row: ProgressRow)
    requires row.playerId == p.id && row.xp > 0
    ensures |GetLeaderboard([p], [row], Some("-1"))| == 1
    ensures ServerLeaderboardOf([p], [row], Some("-1")) == []
  {
    var t := TopperOf(p, [row]);
    SinglePlayerRanking(p, row);
    ParseMinusOne();
    var limit := LimitOf(Some("-1"));
    assert limit == -1;
    assert Toppers([p], [row], limit) == [t];
    assert |Ranked([t])| == 1;
    assert SliceTo([t], limit) == [];
  }

  /** One player whose single row has XP is the whole ranking of both queries. */
  lemma SinglePlayerRanking(p: PlayerRow, row: ProgressRow)
    requires row.playerId == p.id && row.xp > 0
    ensures var t := TopperOf(p, [row]);
      SortDesc(Positive(Aggregate([p], [row]))) == [t] && SortDesc(NonZero(Aggregate([p], [row]))) == [t]
  {
    var t := TopperOf(p, [row]);
    SingleRowTotal(p, row);
    assert Aggregate([p], [row]) == [t];
    SingletonRanking(t);
  }

  /** The aggregate of a player over their one row is that row's XP. */
  lemma SingleRowTotal(p: PlayerRow, row: ProgressRow)
    requires row.playerId == p.id
    ensures TopperOf(p, [row]).totalXp == row.xp
  {
    assert PlayerProgress([row], p.id) == [row] by {
      assert PlayerProgress([row][..0], p.id) == [];
    }
    assert SumXp([row]) == row.xp by { assert [row][..0] == []; }
  }

  /** A single row with positive XP passes both filters and is its own ordering. */
  lemma SingletonRanking(t: Topper)
    requires t.totalXp > 0
    ensures SortDesc(Positive([t])) == [t] && SortDesc(NonZero([t])) == [t]
  {
    assert [t][..0] == [];
    assert Positive([t]) == [t];
    assert NonZero([t]) == [t];
    assert SortDesc([t]) == [t];
  }

  /** `parseInt("-1")` is -1. */
  lemma ParseMinusOne()
    ensures ParseInt("-1") == Num(-1)
  {
    ParseShow(-1, []);
    assert Show(-1) + [] == Show(-1);
  }
}
