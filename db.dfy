/**
 * The tables of backend/utils/db.js as in-memory state, with the keys of
 * their UNIQUE constraints, and the read-side queries the handlers run.
 *
 * progress and players are sequences in insertion (rowid) order, because
 * sums, scans and sorts read them in that order; achievements and
 * unlocked_avatars are sets of (player, id) pairs; daily_challenges is
 * keyed by (player, date) and fast_answers by player.
 */
module Db {
  import opened JsBuiltins

  datatype PlayerRow = PlayerRow(id: int, username: string, avatar: string)

  datatype ProgressRow = ProgressRow(
    playerId: int, problemType: string, difficulty: int,
    correct: int, total: int, streak: int, bestStreak: int, xp: int)

  datatype HistoryRow = HistoryRow(
    playerId: int, problem: string, answer: string, userAnswer: string, correct: bool, timeMs: int)

  datatype DailyRow = DailyRow(problemsCompleted: int, totalProblems: int, bonusXpEarned: int, completed: bool)

  /** A daily_challenges row as first inserted: the column defaults, total_problems 5. */
  const NEW_DAILY_ROW: DailyRow := DailyRow(0, 5, 0, false)

  /** A progress row holding only the column defaults (difficulty 1, every counter 0). */
  function DefaultProgressRow(player: int, problemType: string): ProgressRow
  {
    ProgressRow(player, problemType, 1, 0, 0, 0, 0, 0)
  }

  // ---------------------------------------------------------------------
  // Integrity

  /** UNIQUE(player_id, problem_type). */
  predicate UniqueProgressKeys(rows: seq<ProgressRow>)
  {
    forall i, j | 0 <= i < j < |rows| ::
      rows[i].playerId != rows[j].playerId || rows[i].problemType != rows[j].problemType
  }

  /**
   * The counters of a progress row are consistent: the current streak is at
   * most the best streak, which is at most the correct count, which is at
   * most the number of answers.
   */
  predicate SoundRow(r: ProgressRow)
  {
    0 <= r.streak <= r.bestStreak <= r.correct <= r.total
  }

  predicate SoundRows(rows: seq<ProgressRow>)
  {
    forall k | 0 <= k < |rows| :: SoundRow(rows[k])
  }

  /** players.id is the primary key. */
  predicate UniquePlayerIds(players: seq<PlayerRow>)
  {
    forall i, j | 0 <= i < j < |players| :: players[i].id != players[j].id
  }

  // ---------------------------------------------------------------------
  // Queries

  /** `SELECT * FROM progress WHERE player_id = ? AND problem_type = ?`: the position of the row. */
  function FindProgress(rows: seq<ProgressRow>, player: int, problemType: string): (r: Option<nat>)
    ensures r.Some? ==> r.value < |rows| && rows[r.value].playerId == player && rows[r.value].problemType == problemType
    ensures r.None? ==> forall k | 0 <= k < |rows| :: rows[k].playerId != player || rows[k].problemType != problemType
  {
    if rows == [] then None
    else if rows[|rows| - 1].playerId == player && rows[|rows| - 1].problemType == problemType then Some(|rows| - 1)
    else FindProgress(rows[..|rows| - 1], player, problemType)
  }

  /** With unique keys a row matches the key only at the position found. */
  lemma FindProgressUnique(rows: seq<ProgressRow>, player: int, problemType: string, k: nat)
    requires UniqueProgressKeys(rows)
    requires k < |rows| && rows[k].playerId == player && rows[k].problemType == problemType
    ensures FindProgress(rows, player, problemType) == Some(k)
  {
  }

  /**
   * `SELECT * FROM <table> WHERE player_id = ?`, in row order: the rows whose
   * player column, read by `owner`, is `player`, and no others.
   */
  function RowsOf<T>(rows: seq<T>, owner: T -> int, player: int): (r: seq<T>)
    ensures |r| <= |rows|
    ensures forall k | 0 <= k < |r| :: owner(r[k]) == player && r[k] in rows
    ensures forall k | 0 <= k < |rows| && owner(rows[k]) == player :: rows[k] in r
  {
    if rows == [] then []
    else
      var init := RowsOf(rows[..|rows| - 1], owner, player);
      assert forall k | 0 <= k < |rows| - 1 :: rows[k] == rows[..|rows| - 1][k];
      init + (if owner(rows[|rows| - 1]) == player then [rows[|rows| - 1]] else [])
  }

  function ProgressOwner(row: ProgressRow): int { row.playerId }

  function HistoryOwner(row: HistoryRow): int { row.playerId }

  /** `SELECT * FROM progress WHERE player_id = ?`, in row order. */
  function PlayerProgress(rows: seq<ProgressRow>, player: int): (r: seq<ProgressRow>)
    ensures |r| <= |rows|
    ensures forall k | 0 <= k < |r| :: r[k].playerId == player && r[k] in rows
  {
    RowsOf(rows, ProgressOwner, player)
  }

  /** `SELECT * FROM history WHERE player_id = ?`, in insertion order. */
  function PlayerHistory(history: seq<HistoryRow>, player: int): (r: seq<HistoryRow>)
    ensures |r| <= |history|
    ensures forall k | 0 <= k < |r| :: r[k].playerId == player && r[k] in history
  {
    RowsOf(history, HistoryOwner, player)
  }

  /** `SELECT * FROM players WHERE id = ?`. */
  function FindPlayer(players: seq<PlayerRow>, id: int): (r: Option<nat>)
    ensures r.Some? ==> r.value < |players| && players[r.value].id == id
    ensures r.None? ==> forall k | 0 <= k < |players| :: players[k].id != id
  {
    if players == [] then None
    else if players[|players| - 1].id == id then Some(|players| - 1)
    else FindPlayer(players[..|players| - 1], id)
  }

  function SumXp(rows: seq<ProgressRow>): int
  {
    if rows == [] then 0 else SumXp(rows[..|rows| - 1]) + rows[|rows| - 1].xp
  }

  function SumCorrect(rows: seq<ProgressRow>): int
  {
    if rows == [] then 0 else SumCorrect(rows[..|rows| - 1]) + rows[|rows| - 1].correct
  }

  function SumTotal(rows: seq<ProgressRow>): int
  {
    if rows == [] then 0 else SumTotal(rows[..|rows| - 1]) + rows[|rows| - 1].total
  }

  /** `Math.max(0, ...rows.map(p => p.best_streak))`. */
  function MaxBestStreak(rows: seq<ProgressRow>): (m: int)
    ensures m >= 0
    ensures forall k | 0 <= k < |rows| :: rows[k].bestStreak <= m
    ensures m == 0 || exists k | 0 <= k < |rows| :: rows[k].bestStreak == m
  {
    if rows == [] then 0
    else
      var init := MaxBestStreak(rows[..|rows| - 1]);
      var last := rows[|rows| - 1].bestStreak;
      assert forall k | 0 <= k < |rows| - 1 :: rows[k] == rows[..|rows| - 1][k];
      if last > init then last else init
  }

  /** Sound rows add up to sound totals: correct answers never exceed answers. */
  lemma {:induction false} SumsOfSoundRows(rows: seq<ProgressRow>)
    requires SoundRows(rows)
    ensures 0 <= SumCorrect(rows) <= SumTotal(rows)
    ensures MaxBestStreak(rows) <= SumCorrect(rows)
  {
    if rows != [] {
      var init := rows[..|rows| - 1];
      assert SoundRows(init) by {
        forall k | 0 <= k < |init| ensures SoundRow(init[k]) {
          assert init[k] == rows[k];
        }
      }
      SumsOfSoundRows(init);
      assert SoundRow(rows[|rows| - 1]);
    }
  }

  /** `SELECT COUNT(*) FROM daily_challenges WHERE player_id = ? AND completed = 1`. */
  function CompletedDailyCount(daily: map<(int, string), DailyRow>, player: int): nat
  {
    |set key | key in daily && key.0 == player && daily[key].completed|
  }

  /** `SELECT count FROM fast_answers WHERE player_id = ?`, or 0. */
  function FastAnswerCount(fast: map<int, int>, player: int): int
  {
    if player in fast then fast[player] else 0
  }

  /** The ids a player holds in unlocked_avatars or achievements (`SELECT avatar_id ... WHERE player_id = ?`). */
  function IdsOf(table: set<(int, string)>, player: int): set<string>
  {
    set key | key in table && key.0 == player :: key.1
  }

  // ---------------------------------------------------------------------
  // The database

  class Store {
    var players: seq<PlayerRow>
    var progress: seq<ProgressRow>
    var history: seq<HistoryRow>
    var achievements: set<(int, string)>
    var dailyChallenges: map<(int, string), DailyRow>
    var unlockedAvatars: set<(int, string)>
    var fastAnswers: map<int, int>

    /** The schema's keys hold and every progress row is sound. */
    predicate Valid()
      reads this
    {
      UniqueProgressKeys(progress) && SoundRows(progress) && UniquePlayerIds(players)
    }

    /** A freshly created schema: every table empty. */
    constructor ()
      ensures Valid()
      ensures players == [] && progress == [] && history == []
      ensures achievements == {} && dailyChallenges == map[] && unlockedAvatars == {} && fastAnswers == map[]
    {
      players := [];
      progress := [];
      history := [];
      achievements := {};
      dailyChallenges := map[];
      unlockedAvatars := {};
      fastAnswers := map[];
    }
  }

  /** Every table of the store is as it was at the start of the call. */
  twostate predicate Untouched(db: Store)
    reads db
  {
    db.players == old(db.players) && db.progress == old(db.progress) && db.history == old(db.history) &&
    db.achievements == old(db.achievements) && db.dailyChallenges == old(db.dailyChallenges) &&
    db.unlockedAvatars == old(db.unlockedAvatars) && db.fastAnswers == old(db.fastAnswers)
  }
}
