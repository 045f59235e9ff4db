/**
 * backend/routes/problems.js: `GET /problem` (the generator behind a 400 on
 * an unknown type) and `POST /submit`, which records the answer, updates the
 * (player, type) progress row and the fast-answer counter, and then runs the
 * avatar and achievement checks.
 */
module ProblemRoutes {
  import opened JsBuiltins
  import opened Constants
  import opened Helpers
  import opened ProblemService
  import opened Db
  import opened AchievementService
  import opened AvatarService

  // ---------------------------------------------------------------------
  // GET /problem

  datatype ProblemResponse = ProblemJson(problem: Problem) | BadRequest(error: string)

  /**
   * `GET /problem?type=&difficulty=`: `type` defaults to "addition" and
   * `difficulty` to the number 1 when absent; otherwise the query string goes
   * through `parseInt(...) || 1` inside the generator. A thrown error becomes
   * a 400 carrying its message.
   */
  function GetProblem(typeParam: Option<string>, difficultyParam: Option<string>, rand: nat -> nat): ProblemResponse
  {
    var problemType := if typeParam.Some? then typeParam.value else "addition";
    var difficulty := if difficultyParam.Some? then ParseInt(difficultyParam.value) else Num(1);
    match GenerateProblem(problemType, difficulty, rand)
    case Ok(p) => ProblemJson(p)
    case Err(message) => BadRequest(message)
  }

  /**
   * The route answers 400 exactly for an unknown type, with the generator's
   * message; with no parameters it serves an addition problem at difficulty
   * 1, and a difficulty that does not parse, or parses to 0, counts as 1.
   */
  lemma GetProblemSpec(typeParam: Option<string>, difficultyParam: Option<string>, rand: nat -> nat)
    ensures var r := GetProblem(typeParam, difficultyParam, rand);
      var t := if typeParam.Some? then typeParam.value else "addition";
      (r.BadRequest? <==> !KnownType(t)) &&
      (r.BadRequest? ==> r.error == "Invalid problem type: " + t) &&
      (r.ProblemJson? && difficultyParam.Some? && ParseInt(difficultyParam.value) in {NaN, Num(0)} ==> r.problem.difficulty == 1)
    ensures typeParam.None? && difficultyParam.None? ==>
      var r := GetProblem(typeParam, difficultyParam, rand);
      r.ProblemJson? && r.problem.kind == Addition && r.problem.difficulty == 1
  {
    var t := if typeParam.Some? then typeParam.value else "addition";
    var difficulty := if difficultyParam.Some? then ParseInt(difficultyParam.value) else Num(1);
    GenerateProblemOutcome(t, difficulty, rand);
  }

  // ---------------------------------------------------------------------
  // POST /submit: the pieces

  /** `userAnswer.toString().trim() === correctAnswer.toString().trim()`. */
  predicate AnswersMatch(userAnswer: string, correctAnswer: string)
  {
    Trim(userAnswer) == Trim(correctAnswer)
  }

  /**
   * Surrounding whitespace on either side never changes the verdict, and a
   * number typed as its decimal text matches a problem's answer exactly when
   * it is that problem's result.
   */
  lemma AnswersMatchSpec(p: string, u: string, q: string, c: string)
    requires AllWhitespace(p) && AllWhitespace(q)
    ensures AnswersMatch(p + Trim(u) + q, c) <==> AnswersMatch(u, c)
  {
    TrimSplits(u);
    TrimOfPadded(p, Trim(u), q);
  }

  lemma AnswerOfNumber(n: int, problem: Problem)
    ensures AnswersMatch(Show(n), AnswerText(problem)) <==> n == problem.result
  {
    var s, a := Show(n), AnswerText(problem);
    TrimOfPadded([], s, []);
    TrimOfPadded([], a, []);
    assert [] + s + [] == s && [] + a + [] == a;
    ShowInjective(n, problem.result);
  }

  /** The progress table after one answer, and the streak and XP that answer earned. */
  datatype ProgressOutcome = ProgressOutcome(rows: seq<ProgressRow>, newStreak: int, xpGained: int)

  /**
   * The progress read-modify-write of `/submit`: the (player, type) row is
   * updated in place when it exists and inserted at the end otherwise.
   */
  function SubmitProgress(rows: seq<ProgressRow>, player: int, problemType: string, isCorrect: bool, difficulty: int): ProgressOutcome
  {
    var hit := if isCorrect then 1 else 0;
    match FindProgress(rows, player, problemType)
    case Some(k) =>
      var row := rows[k];
      var newStreak := if isCorrect then row.streak + 1 else 0;
      var bestStreak := Max(row.bestStreak, newStreak);
      var xpGained := CalculateXPGained(isCorrect, newStreak, difficulty);
      ProgressOutcome(
        rows[k := row.(correct := row.correct + hit, total := row.total + 1, streak := newStreak,
                       bestStreak := bestStreak, xp := row.xp + xpGained, difficulty := difficulty)],
        newStreak, xpGained)
    case None =>
      var newStreak := hit;
      var xpGained := CalculateXPGained(isCorrect, newStreak, difficulty);
      ProgressOutcome(
        rows + [ProgressRow(player, problemType, difficulty, hit, 1, newStreak, newStreak, xpGained)],
        newStreak, xpGained)
  }

  /**
   * The first answer for (player, type) appends one row: one answer, the
   * correct count and the streak both 1 if right and 0 if wrong, the best
   * streak equal to the streak, the difficulty given and the XP earned.
   */
  lemma SubmitProgressFresh(rows: seq<ProgressRow>, player: int, problemType: string, isCorrect: bool, difficulty: int)
    requires FindProgress(rows, player, problemType).None?
    ensures var out := SubmitProgress(rows, player, problemType, isCorrect, difficulty);
      var hit := if isCorrect then 1 else 0;
      |out.rows| == |rows| + 1 && out.rows[..|rows|] == rows &&
      var r := out.rows[|rows|];
      r.playerId == player && r.problemType == problemType && r.total == 1 &&
      r.correct == hit && r.streak == hit && r.bestStreak == r.streak && r.difficulty == difficulty &&
      out.newStreak == hit && r.xp == out.xpGained == CalculateXPGained(isCorrect, hit, difficulty)
  {
    var out := SubmitProgress(rows, player, problemType, isCorrect, difficulty);
    assert out.rows[..|rows|] == rows;
  }

  /**
   * An existing row gains exactly one answer and 0 or 1 correct; its streak
   * becomes s + 1 when right and 0 when wrong, its best the larger of the old
   * best and the new streak, its XP grows by `calculateXPGained` and its
   * difficulty is overwritten. No other row changes.
   */
  lemma SubmitProgressExisting(rows: seq<ProgressRow>, player: int, problemType: string, isCorrect: bool, difficulty: int, k: nat)
    requires FindProgress(rows, player, problemType) == Some(k)
    ensures var out := SubmitProgress(rows, player, problemType, isCorrect, difficulty);
      var r, r' := rows[k], out.rows[k];
      |out.rows| == |rows| &&
      (forall j | 0 <= j < |rows| && j != k :: out.rows[j] == rows[j]) &&
      r'.playerId == r.playerId && r'.problemType == r.problemType &&
      r'.total == r.total + 1 && r'.correct == r.correct + (if isCorrect then 1 else 0) &&
      r'.streak == (if isCorrect then r.streak + 1 else 0) && out.newStreak == r'.streak &&
      r'.bestStreak == Max(r.bestStreak, r'.streak) &&
      out.xpGained == CalculateXPGained(isCorrect, r'.streak, difficulty) && r'.xp == r.xp + out.xpGained &&
      r'.difficulty == difficulty
  {
  }

  /**
   * The update keeps the table's key unique and every row sound
   * (streak <= best <= correct <= total); no row's best streak decreases.
   */
  lemma SubmitProgressKeepsValid(rows: seq<ProgressRow>, player: int, problemType: string, isCorrect: bool, difficulty: int)
    requires UniqueProgressKeys(rows) && SoundRows(rows)
    ensures var out := SubmitProgress(rows, player, problemType, isCorrect, difficulty);
      UniqueProgressKeys(out.rows) && SoundRows(out.rows) && |rows| <= |out.rows| &&
      forall j | 0 <= j < |rows| :: out.rows[j].playerId == rows[j].playerId &&
        out.rows[j].problemType == rows[j].problemType && out.rows[j].bestStreak >= rows[j].bestStreak
  {
    var out := SubmitProgress(rows, player, problemType, isCorrect, difficulty);
    match FindProgress(rows, player, problemType)
    case Some(k) =>
      assert SoundRow(rows[k]);
      assert SoundRow(out.rows[k]);
    case None =>
  }

  /**
   * The fast-answer counter: one more (created at 1) for a correct answer
   * under 2000 ms, otherwise untouched.
   */
  function FastAnswersAfter(fast: map<int, int>, player: int, isCorrect: bool, timeMs: int): (r: map<int, int>)
    ensures forall p | p in fast :: p in r
    ensures forall p | p in r && p != player :: p in fast && r[p] == fast[p]
  {
    if isCorrect && timeMs < FAST_ANSWER_THRESHOLD_MS then
      if player in fast then fast[player := fast[player] + 1] else fast[player := 1]
    else fast
  }

  /** The counter read back grows by exactly one iff the answer is correct and under the threshold. */
  lemma FastAnswersSpec(fast: map<int, int>, player: int, isCorrect: bool, timeMs: int)
    ensures var r := FastAnswersAfter(fast, player, isCorrect, timeMs);
      (isCorrect && timeMs < 2000 ==> player in r && FastAnswerCount(r, player) == FastAnswerCount(fast, player) + 1) &&
      (!(isCorrect && timeMs < 2000) ==> r == fast)
  {
  }

  /** The stats `/submit` hands to `checkAchievements`, summed over the player's rows after the update. */
  function SubmitStats(rows: seq<ProgressRow>, player: int, newStreak: int, isCorrect: bool, timeMs: int): (s: AnswerStats)
    ensures s.level == PlayerLevel(s.totalXP) && s.newStreak == newStreak && s.isCorrect == isCorrect && s.timeMs == timeMs
  {
    var rows := PlayerProgress(rows, player);
    AnswerStats(SumCorrect(rows), SumXp(rows), newStreak, isCorrect, timeMs, PlayerLevel(SumXp(rows)))
  }

  // ---------------------------------------------------------------------
  // POST /submit

  /** The request body of `/submit`. */
  datatype SubmitRequest = SubmitRequest(
    playerId: Option<int>, problem: string, correctAnswer: JsValue, userAnswer: JsValue,
    problemType: string, difficulty: int, timeMs: int)

  datatype SubmitResponse =
    | Submitted(correct: bool, streak: int, xpGained: int, newAchievements: seq<Achievement>,
                newAvatars: seq<Avatar>, totalXP: int, level: int)
    | Failed(status: int, error: string)
      /**
       * `toString` of null or undefined throws: on the module route asyncHandler
       * passes it to the error middleware, which answers 500; server.js has no
       * such handler, and there the request is left unanswered.
       */
    | Crashed

  /** `!playerId`: absent (or null) and 0 are rejected. */
  predicate MissingPlayer(playerId: Option<int>)
  {
    playerId.None? || playerId.value == 0
  }

  /**
   * The outcome of a submission by a present player with two answers that
   * have a `toString`: one history row appended, the progress row and the
   * fast-answer counter updated, the avatars checked on the updated stats
   * and the achievements on the submission's stats, nothing else changed,
   * and the response reporting the correctness, streak, XP gain and totals.
   */
  twostate predicate AnswerRecorded(db: Store, req: SubmitRequest, resp: SubmitResponse)
    requires req.playerId.Some?
    reads db
  {
    var player := req.playerId.value;
    var isCorrect := AnswersMatch(ToJsString(req.userAnswer), ToJsString(req.correctAnswer));
    var out := SubmitProgress(old(db.progress), player, req.problemType, isCorrect, req.difficulty);
    var stats := SubmitStats(out.rows, player, out.newStreak, isCorrect, req.timeMs);
    resp.Submitted? && resp.correct == isCorrect && resp.streak == out.newStreak && resp.xpGained == out.xpGained &&
    resp.totalXP == stats.totalXP && resp.level == stats.level &&
    db.history == old(db.history) + [HistoryRow(player, req.problem, ToJsString(req.correctAnswer),
                                                ToJsString(req.userAnswer), isCorrect, req.timeMs)] &&
    db.progress == out.rows &&
    db.fastAnswers == FastAnswersAfter(old(db.fastAnswers), player, isCorrect, req.timeMs) &&
    AvatarsChecked(out.rows, old(db.dailyChallenges), db.fastAnswers, player,
                   old(db.unlockedAvatars), db.unlockedAvatars, resp.newAvatars) &&
    AchievementsChecked(stats, player, old(db.achievements), db.achievements, resp.newAchievements) &&
    db.players == old(db.players) && db.dailyChallenges == old(db.dailyChallenges)
  }

  /**
   * `POST /submit`, one atomic step over the store. A missing player is a
   * 400 and a null answer a 500, both before any write; otherwise the answer
   * is recorded as `AnswerRecorded` states.
   */
  method Submit(db: Store, req: SubmitRequest) returns (resp: SubmitResponse)
    requires db.Valid()
    modifies db
    ensures db.Valid()
    ensures MissingPlayer(req.playerId) ==>
      resp == Failed(400, "Player ID required") && Untouched(db)
    ensures !MissingPlayer(req.playerId) && !(HasToString(req.userAnswer) && HasToString(req.correctAnswer)) ==>
      resp == Crashed && Untouched(db)
    ensures !MissingPlayer(req.playerId) && HasToString(req.userAnswer) && HasToString(req.correctAnswer) ==>
      AnswerRecorded(db, req, resp)
  {
    if MissingPlayer(req.playerId) {
      return Failed(400, "Player ID required");
    }
    if !HasToString(req.userAnswer) || !HasToString(req.correctAnswer) {
      return Crashed;
    }
    resp := RecordAnswer(db, req);
  }

  /** The writes and checks of `/submit` once the request has passed its two guards. */
  method RecordAnswer(db: Store, req: SubmitRequest) returns (resp: SubmitResponse)
    requires db.Valid() && req.playerId.Some?
    modifies db
    ensures db.Valid()
    ensures AnswerRecorded(db, req, resp)
  {
    var player := req.playerId.value;
    var isCorrect := AnswersMatch(ToJsString(req.userAnswer), ToJsString(req.correctAnswer));
    var out := WriteAnswer(db, req);

    var newAvatars := CheckAndUnlockAvatars(db, player);

    var stats := SubmitStats(db.progress, player, out.newStreak, isCorrect, req.timeMs);
    var achievements := CheckAchievements(db, player, stats);

    resp := Submitted(isCorrect, out.newStreak, out.xpGained, achievements, newAvatars, stats.totalXP, stats.level);
  }

  /**
   * The first three writes of `/submit`: the history row, the progress
   * read-modify-write and the fast-answer counter.
   */
  method WriteAnswer(db: Store, req: SubmitRequest) returns (out: ProgressOutcome)
    requires db.Valid() && req.playerId.Some?
    modifies db
    ensures db.Valid()
    ensures var player := req.playerId.value;
      var isCorrect := AnswersMatch(ToJsString(req.userAnswer), ToJsString(req.correctAnswer));
      out == SubmitProgress(old(db.progress), player, req.problemType, isCorrect, req.difficulty) &&
      db.history == old(db.history) + [HistoryRow(player, req.problem, ToJsString(req.correctAnswer),
                                                  ToJsString(req.userAnswer), isCorrect, req.timeMs)] &&
      db.progress == out.rows &&
      db.fastAnswers == FastAnswersAfter(old(db.fastAnswers), player, isCorrect, req.timeMs)
    ensures db.players == old(db.players) && db.dailyChallenges == old(db.dailyChallenges)
    ensures db.achievements == old(db.achievements) && db.unlockedAvatars == old(db.unlockedAvatars)
  {
    var player := req.playerId.value;
    var isCorrect := AnswersMatch(ToJsString(req.userAnswer), ToJsString(req.correctAnswer));

    db.history := db.history + [HistoryRow(player, req.problem, ToJsString(req.correctAnswer),
                                           ToJsString(req.userAnswer), isCorrect, req.timeMs)];

    out := SubmitProgress(db.progress, player, req.problemType, isCorrect, req.difficulty);
    SubmitProgressKeepsValid(db.progress, player, req.problemType, isCorrect, req.difficulty);
    db.progress := out.rows;

    db.fastAnswers := FastAnswersAfter(db.fastAnswers, player, isCorrect, req.timeMs);
  }
}
