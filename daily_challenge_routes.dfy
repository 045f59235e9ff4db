/**
 * backend/routes/dailyChallenge.js: `GET /`, which creates the player's row
 * for the day on first sight and shows the problems still to solve, and
 * `POST /submit`, which checks the answer to problem `problems_completed` and
 * on success advances the row and credits bonus XP, with a one-time
 * completion bonus. The date is the caller's `today` (the clock is not
 * modelled).
 */
module DailyChallengeRoutes {
  import opened JsBuiltins
  import opened Constants
  import opened Helpers
  import opened ProblemService
  import opened Db
  import opened AvatarService

  // ---------------------------------------------------------------------
  // GET /

  /**
   * `problems.slice(start)`: a suffix of the list, from index start on for a
   * non-negative start (empty past the end), and the last -start entries (all
   * of them when there are fewer) for a negative one.
   */
  function SliceFrom<T>(s: seq<T>, start: int): (r: seq<T>)
    ensures |r| == if start < 0 then (if -start < |s| then -start else |s|)
                   else if start <= |s| then |s| - start else 0
    ensures r == s[|s| - |r|..]
  {
    if start < 0 then (if |s| + start < 0 then s else s[|s| + start..])
    else if start <= |s| then s[start..] else []
  }

  /** `problems[i]`: undefined (None) outside the list. */
  function ElementAt<T>(s: seq<T>, i: int): Option<T>
  {
    if 0 <= i < |s| then Some(s[i]) else None
  }

  /** The JSON body of `GET /`. */
  datatype DailyView = DailyView(
    date: string, problemsCompleted: int, totalProblems: int, bonusXpEarned: int, completed: bool,
    problems: seq<DailyEntry>, currentProblem: Option<DailyEntry>)

  function ViewOf(row: DailyRow, date: string, problems: seq<DailyEntry>): DailyView
  {
    DailyView(date, row.problemsCompleted, row.totalProblems, row.bonusXpEarned, row.completed,
      if row.completed then [] else SliceFrom(problems, row.problemsCompleted),
      if row.completed then None else ElementAt(problems, row.problemsCompleted))
  }

  /**
   * A row that is not completed shows the problems from index
   * problems_completed on, the first of them as the current problem; a
   * completed row shows no problems and no current problem.
   */
  lemma ViewSpec(row: DailyRow, date: string)
    requires 0 <= row.problemsCompleted <= 5
    ensures var v := ViewOf(row, date, DailyProblems(date)); var all := DailyProblems(date);
      (row.completed ==> v.problems == [] && v.currentProblem.None?) &&
      (!row.completed ==>
        v.problems == all[row.problemsCompleted..] && |v.problems| == 5 - row.problemsCompleted &&
        (v.currentProblem.Some? <==> row.problemsCompleted < 5)) &&
      (!row.completed && row.problemsCompleted < 5 ==>
        v.currentProblem == Some(v.problems[0]) && v.currentProblem.value.index == row.problemsCompleted)
  {
    DailyProblemsShape(date);
  }

  /**
   * A row that is not completed with a negative count (which no route writes)
   * shows the last -problems_completed problems and no current problem, as
   * `slice` and indexing with a negative number do.
   */
  lemma NegativeCountView(row: DailyRow, date: string)
    requires !row.completed && -5 <= row.problemsCompleted < 0
    ensures var v := ViewOf(row, date, DailyProblems(date)); var all := DailyProblems(date);
      v.problems == all[5 + row.problemsCompleted..] && |v.problems| == -row.problemsCompleted &&
      v.currentProblem.None?
  {
    DailyProblemsShape(date);
  }

  /** A fresh row shows all five problems, starting with problem 0. */
  lemma FreshView(date: string)
    ensures var v := ViewOf(NEW_DAILY_ROW, date, DailyProblems(date));
      v.problems == DailyProblems(date) && v.currentProblem == Some(DailyProblems(date)[0]) &&
      !v.completed && v.problemsCompleted == 0 && v.totalProblems == 5 && v.bonusXpEarned == 0
  {
    ViewSpec(NEW_DAILY_ROW, date);
  }

  /**
   * `GET /`: looks the (player, today) row up, inserts the default row when
   * there is none, generates the day's problems and shows them.
   */
  method GetDailyChallenge(db: Store, playerId: int, today: string) returns (view: DailyView)
    modifies db
    ensures (playerId, today) in old(db.dailyChallenges) ==> db.dailyChallenges == old(db.dailyChallenges)
    ensures (playerId, today) !in old(db.dailyChallenges) ==>
      db.dailyChallenges == old(db.dailyChallenges)[(playerId, today) := NEW_DAILY_ROW]
    ensures (playerId, today) in db.dailyChallenges
    ensures view == ViewOf(db.dailyChallenges[(playerId, today)], today, DailyProblems(today))
    ensures db.players == old(db.players) && db.progress == old(db.progress) && db.history == old(db.history)
    ensures db.achievements == old(db.achievements) && db.unlockedAvatars == old(db.unlockedAvatars)
    ensures db.fastAnswers == old(db.fastAnswers)
  {
    var key := (playerId, today);
    if key !in db.dailyChallenges {
      db.dailyChallenges := db.dailyChallenges[key := NEW_DAILY_ROW];
    }
    var challenge := db.dailyChallenges[key];
    var problems := GenerateDailyChallengeProblems(today);
    view := ViewOf(challenge, today, problems);
  }

  // ---------------------------------------------------------------------
  // POST /submit: the pieces

  /** `answer.toString().trim() === currentProblem.answer.toString()`: only the player's side is trimmed. */
  predicate DailyAnswerMatches(answer: string, expected: string)
  {
    Trim(answer) == expected
  }

  /** The number typed as its decimal text, padded with whitespace, is right exactly when it is the answer. */
  lemma DailyAnswerOfNumber(p: string, n: int, q: string, problem: Problem)
    requires AllWhitespace(p) && AllWhitespace(q)
    ensures DailyAnswerMatches(p + Show(n) + q, AnswerText(problem)) <==> n == problem.result
  {
    TrimOfPadded(p, Show(n), q);
    ShowInjective(n, problem.result);
  }

  /**
   * The daily row after a correct answer at a difficulty: one more problem
   * done, 25 XP per difficulty level, and on reaching `total_problems` the
   * row is completed and 100 more XP are credited.
   */
  function DailyRowAfter(row: DailyRow, difficulty: int): (r: DailyRow)
    ensures r.problemsCompleted == row.problemsCompleted + 1 && r.totalProblems == row.totalProblems
    ensures r.completed <==> r.problemsCompleted >= row.totalProblems
    ensures r.bonusXpEarned == row.bonusXpEarned + 25 * difficulty + (if r.completed then 100 else 0)
  {
    var newCompleted := row.problemsCompleted + 1;
    var bonusXp := DAILY_CHALLENGE_BONUS_XP_MULTIPLIER * difficulty;
    var isFullyComplete := newCompleted >= row.totalProblems;
    var updated := DailyRow(newCompleted, row.totalProblems, row.bonusXpEarned + bonusXp, isFullyComplete);
    if isFullyComplete then updated.(bonusXpEarned := updated.bonusXpEarned + DAILY_CHALLENGE_COMPLETION_BONUS)
    else updated
  }

  /** A row as the handlers keep it: progress within [0, 5], completed exactly when all 5 are done. */
  predicate SoundDailyRow(row: DailyRow)
  {
    row.totalProblems == 5 && 0 <= row.problemsCompleted <= 5 &&
    (row.completed <==> row.problemsCompleted == 5) && row.bonusXpEarned >= 0
  }

  /** A correct answer on an open sound row keeps it sound. */
  lemma DailyRowAfterSound(row: DailyRow, difficulty: int)
    requires SoundDailyRow(row) && !row.completed && difficulty >= 0
    ensures SoundDailyRow(DailyRowAfter(row, difficulty))
  {
  }

  /**
   * Five correct answers from a fresh row, at the day's difficulties
   * 2, 3, 4, 5, 5, complete the challenge with 25 * 19 + 100 = 575 bonus XP;
   * the first four leave it open, so the completion bonus comes once.
   */
  lemma FiveCorrect()
    ensures var r1 := DailyRowAfter(NEW_DAILY_ROW, DailyDifficulty(0));
      var r2 := DailyRowAfter(r1, DailyDifficulty(1));
      var r3 := DailyRowAfter(r2, DailyDifficulty(2));
      var r4 := DailyRowAfter(r3, DailyDifficulty(3));
      var r5 := DailyRowAfter(r4, DailyDifficulty(4));
      !r1.completed && !r2.completed && !r3.completed && !r4.completed &&
      r5.completed && r5.problemsCompleted == 5 && r5.bonusXpEarned == 575
  {
  }

  /** `UPDATE progress SET xp = xp + ? WHERE player_id = ? AND problem_type = ?`. */
  function UpdateXp(rows: seq<ProgressRow>, player: int, problemType: string, amount: int): seq<ProgressRow>
  {
    match FindProgress(rows, player, problemType)
    case Some(k) => rows[k := rows[k].(xp := rows[k].xp + amount)]
    case None => rows
  }

  /** The update, or `INSERT INTO progress (player_id, problem_type, xp)` with defaults elsewhere when absent. */
  function AddXp(rows: seq<ProgressRow>, player: int, problemType: string, amount: int): seq<ProgressRow>
  {
    match FindProgress(rows, player, problemType)
    case Some(k) => rows[k := rows[k].(xp := rows[k].xp + amount)]
    case None => rows + [DefaultProgressRow(player, problemType).(xp := amount)]
  }

  /**
   * Crediting bonus XP touches only the (player, type) row, which ends up
   * with `amount` more XP (or exactly `amount` if it was just created), and
   * keeps the table valid.
   */
  lemma AddXpSpec(rows: seq<ProgressRow>, player: int, problemType: string, amount: int)
    requires UniqueProgressKeys(rows) && SoundRows(rows)
    ensures var r := AddXp(rows, player, problemType, amount);
      UniqueProgressKeys(r) && SoundRows(r) &&
      FindProgress(r, player, problemType).Some? &&
      var k := FindProgress(r, player, problemType).value;
      r[k].xp == (if FindProgress(rows, player, problemType).Some? then rows[FindProgress(rows, player, problemType).value].xp else 0) + amount &&
      (forall j | 0 <= j < |r| && j != k :: j < |rows| && r[j] == rows[j]) &&
      (FindProgress(rows, player, problemType).None? ==> r == rows + [DefaultProgressRow(player, problemType).(xp := amount)])
  {
    var r := AddXp(rows, player, problemType, amount);
    match FindProgress(rows, player, problemType)
    case Some(k) =>
      FindProgressUnique(r, player, problemType, k);
      assert SoundRow(r[k]) by { assert SoundRow(rows[k]); }
    case None =>
      FindProgressUnique(r, player, problemType, |rows|);
  }

  /** The completion bonus credited after the per-problem bonus adds up to one credit of the sum. */
  lemma UpdateAfterAdd(rows: seq<ProgressRow>, player: int, problemType: string, a: int, b: int)
    requires UniqueProgressKeys(rows)
    ensures UpdateXp(AddXp(rows, player, problemType, a), player, problemType, b) == AddXp(rows, player, problemType, a + b)
  {
    var r := AddXp(rows, player, problemType, a);
    match FindProgress(rows, player, problemType)
    case Some(k) =>
      FindProgressUnique(r, player, problemType, k);
    case None =>
      FindProgressUnique(r, player, problemType, |rows|);
  }

  // ---------------------------------------------------------------------
  // POST /submit

  datatype DailySubmitResponse =
    | DailyFailed(status: int, error: string)
      /**
       * `answer.toString()` on null or undefined throws: on the module route
       * asyncHandler passes it to the error middleware, which answers 500;
       * server.js has no such handler, and there the request is left unanswered.
       */
    | DailyCrashed
    | Wrong(correctAnswer: string)
    | Right(bonusXp: int, problemsCompleted: int, totalProblems: int, completed: bool,
            completionBonus: int, newAvatars: seq<Avatar>)

  /**
   * The writes of a right answer to `p` on the open row `row`: the row
   * advanced, and the per-problem bonus plus the completion bonus (100 once
   * the row completes) credited to the progress row of the problem's type.
   */
  predicate RightAnswerWrites(
    daily: map<(int, string), DailyRow>, progress: seq<ProgressRow>,
    daily': map<(int, string), DailyRow>, progress': seq<ProgressRow>,
    playerId: int, today: string, row: DailyRow, p: Problem, completionBonus: int)
  {
    var after := DailyRowAfter(row, p.difficulty);
    completionBonus == (if after.completed then 100 else 0) &&
    daily' == daily[(playerId, today) := after] &&
    progress' == AddXp(progress, playerId, KindName(p.kind), 25 * p.difficulty + completionBonus)
  }

  /**
   * The state after a right answer to `p` on the open row `row`: the writes
   * above, then the avatars checked on the new totals; nothing else written.
   */
  twostate predicate CreditedRightAnswer(db: Store, playerId: int, today: string, row: DailyRow, p: Problem, resp: DailySubmitResponse)
    reads db
  {
    var after := DailyRowAfter(row, p.difficulty);
    resp.Right? && resp.bonusXp == 25 * p.difficulty && resp.problemsCompleted == after.problemsCompleted &&
    resp.totalProblems == row.totalProblems && resp.completed == after.completed &&
    RightAnswerWrites(old(db.dailyChallenges), old(db.progress), db.dailyChallenges, db.progress,
                      playerId, today, row, p, resp.completionBonus) &&
    AvatarsChecked(db.progress, db.dailyChallenges, db.fastAnswers, playerId,
                   old(db.unlockedAvatars), db.unlockedAvatars, resp.newAvatars) &&
    db.players == old(db.players) && db.history == old(db.history) &&
    db.achievements == old(db.achievements) && db.fastAnswers == old(db.fastAnswers)
  }

  /**
   * The writes of the right-answer branch: advance the row and credit the
   * per-problem bonus, then on completion the bonus of 100 to the row and to
   * the progress row of the problem's type.
   */
  method CreditRightAnswer(db: Store, playerId: int, today: string, row: DailyRow, problem: Problem)
    returns (completionBonus: int)
    requires db.Valid() && (playerId, today) in db.dailyChallenges && db.dailyChallenges[(playerId, today)] == row
    modifies db
    ensures db.Valid()
    ensures RightAnswerWrites(old(db.dailyChallenges), old(db.progress), db.dailyChallenges, db.progress,
                              playerId, today, row, problem, completionBonus)
    ensures db.players == old(db.players) && db.history == old(db.history) && db.achievements == old(db.achievements)
    ensures db.unlockedAvatars == old(db.unlockedAvatars) && db.fastAnswers == old(db.fastAnswers)
  {
    var key := (playerId, today);
    var newCompleted := row.problemsCompleted + 1;
    var bonusXp := DAILY_CHALLENGE_BONUS_XP_MULTIPLIER * problem.difficulty;
    var isFullyComplete := newCompleted >= row.totalProblems;
    db.dailyChallenges := db.dailyChallenges[key := DailyRow(newCompleted, row.totalProblems,
                                                             row.bonusXpEarned + bonusXp, isFullyComplete)];

    var problemType := KindName(problem.kind);
    AddXpSpec(db.progress, playerId, problemType, bonusXp);
    UpdateAfterAdd(db.progress, playerId, problemType, bonusXp, DAILY_CHALLENGE_COMPLETION_BONUS);
    db.progress := AddXp(db.progress, playerId, problemType, bonusXp);

    completionBonus := 0;
    if isFullyComplete {
      completionBonus := DAILY_CHALLENGE_COMPLETION_BONUS;
      var updated := db.dailyChallenges[key];
      db.dailyChallenges := db.dailyChallenges[key := updated.(bonusXpEarned := updated.bonusXpEarned + completionBonus)];
      db.progress := UpdateXp(db.progress, playerId, problemType, completionBonus);
    } else {
      assert bonusXp + 0 == bonusXp;
    }
  }

  /** The right-answer branch: the writes above, then the avatar check on the new totals. */
  method AcceptRightAnswer(db: Store, playerId: int, today: string, row: DailyRow, problem: Problem)
    returns (resp: DailySubmitResponse)
    requires db.Valid() && (playerId, today) in db.dailyChallenges && db.dailyChallenges[(playerId, today)] == row
    modifies db
    ensures db.Valid()
    ensures CreditedRightAnswer(db, playerId, today, row, problem, resp)
  {
    var completionBonus := CreditRightAnswer(db, playerId, today, row, problem);
    var newAvatars := CheckAndUnlockAvatars(db, playerId);
    var after := DailyRowAfter(row, problem.difficulty);
    resp := Right(25 * problem.difficulty, after.problemsCompleted, row.totalProblems, after.completed,
                  completionBonus, newAvatars);
  }

  /**
   * `POST /submit`: the gates (no row, completed row, no problem at index
   * problems_completed, null answer) answer without writing, as does a wrong
   * answer; the problem checked is always the one at problems_completed. A
   * right answer is credited, then the avatars are checked.
   */
  method SubmitDaily(db: Store, playerId: int, today: string, answer: JsValue) returns (resp: DailySubmitResponse)
    requires db.Valid()
    modifies db
    ensures db.Valid()
    ensures (playerId, today) !in old(db.dailyChallenges) ==>
      resp == DailyFailed(400, "No active daily challenge") && Untouched(db)
    ensures (playerId, today) in old(db.dailyChallenges) && old(db.dailyChallenges)[(playerId, today)].completed ==>
      resp == DailyFailed(400, "Daily challenge already completed") && Untouched(db)
    ensures (playerId, today) in old(db.dailyChallenges) && !old(db.dailyChallenges)[(playerId, today)].completed ==>
      var row := old(db.dailyChallenges)[(playerId, today)];
      var current := GetDailyChallengeProblem(today, row.problemsCompleted);
      (current.None? ==> resp == DailyFailed(400, "Invalid problem index") && Untouched(db)) &&
      (current.Some? && !HasToString(answer) ==> resp == DailyCrashed && Untouched(db)) &&
      (current.Some? && HasToString(answer) && !DailyAnswerMatches(ToJsString(answer), AnswerText(current.value.problem)) ==>
        resp == Wrong(AnswerText(current.value.problem)) && Untouched(db)) &&
      (current.Some? && HasToString(answer) && DailyAnswerMatches(ToJsString(answer), AnswerText(current.value.problem)) ==>
        CreditedRightAnswer(db, playerId, today, row, current.value.problem, resp))
  {
    var key := (playerId, today);
    if key !in db.dailyChallenges {
      return DailyFailed(400, "No active daily challenge");
    }
    var challenge := db.dailyChallenges[key];
    if challenge.completed {
      return DailyFailed(400, "Daily challenge already completed");
    }
    var current := GetDailyChallengeProblem(today, challenge.problemsCompleted);
    if current.None? {
      return DailyFailed(400, "Invalid problem index");
    }
    var problem := current.value.problem;
    if !HasToString(answer) {
      return DailyCrashed;
    }
    if !DailyAnswerMatches(ToJsString(answer), AnswerText(problem)) {
      return Wrong(AnswerText(problem));
    }
    resp := AcceptRightAnswer(db, playerId, today, challenge, problem);
  }
}
