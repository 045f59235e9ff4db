/**
 * backend/routes/players.js: `GET /:id/stats`, the player's rows and a
 * summary of totals, accuracy and level derived from the progress rows.
 */
module PlayerRoutes {
  import opened JsBuiltins
  import opened Db
  import opened AvatarService

  datatype Summary = Summary(totalXP: int, totalCorrect: int, totalProblems: int, accuracy: int, level: int)

  datatype StatsResponse =
    | PlayerStatsJson(player: PlayerRow, progress: seq<ProgressRow>, achievements: set<string>,
                      recentHistory: seq<HistoryRow>, summary: Summary)
    | PlayerNotFound

  /** `ORDER BY created_at DESC LIMIT n` over rows appended in time order: the last n, newest first. */
  function NewestFirst<T>(rows: seq<T>, n: nat): (r: seq<T>)
    ensures |r| == Min(n, |rows|)
    ensures forall k | 0 <= k < |r| :: r[k] == rows[|rows| - 1 - k]
  {
    if rows == [] || n == 0 then [] else [rows[|rows| - 1]] + NewestFirst(rows[..|rows| - 1], n - 1)
  }

  /** The `summary` object: the row totals, their rounded percentage and the level. */
  function SummaryOf(rows: seq<ProgressRow>): Summary
  {
    var totalXP := SumXp(rows);
    var totalCorrect := SumCorrect(rows);
    var totalProblems := SumTotal(rows);
    Summary(totalXP, totalCorrect, totalProblems,
            if totalProblems > 0 then Accuracy(totalCorrect, totalProblems) else 0,
            PlayerLevel(totalXP))
  }

  /**
   * `GET /:id/stats`: an id that does not parse or names no player answers
   * 404; otherwise the player's progress rows, achievement ids, 20 most recent
   * answers and the summary.
   */
  function GetPlayerStatsRoute(
    players: seq<PlayerRow>, progress: seq<ProgressRow>, achievements: set<(int, string)>,
    history: seq<HistoryRow>, idParam: string): (r: StatsResponse)
    ensures r.PlayerNotFound? <==>
      ParseInt(idParam).NaN? || FindPlayer(players, ParseInt(idParam).n).None?
    ensures r.PlayerStatsJson? ==>
      var id := ParseInt(idParam).n;
      r.player.id == id && r.player in players &&
      r.progress == PlayerProgress(progress, id) && r.achievements == IdsOf(achievements, id) &&
      |r.recentHistory| <= 20 && r.recentHistory == NewestFirst(PlayerHistory(history, id), 20)
  {
    match ParseInt(idParam)
    case NaN => PlayerNotFound
    case Num(id) =>
      match FindPlayer(players, id)
      case None => PlayerNotFound
      case Some(k) =>
        var rows := PlayerProgress(progress, id);
        PlayerStatsJson(players[k], rows, IdsOf(achievements, id), NewestFirst(PlayerHistory(history, id), 20),
                        SummaryOf(rows))
  }

  /**
   * The route's summary agrees with the stats the avatar check reads: same
   * totals, same accuracy, same level, for the same player.
   */
  lemma SummaryAgreesWithPlayerStats(
    players: seq<PlayerRow>, progress: seq<ProgressRow>, achievements: set<(int, string)>,
    history: seq<HistoryRow>, idParam: string, daily: map<(int, string), DailyRow>, fast: map<int, int>)
    requires GetPlayerStatsRoute(players, progress, achievements, history, idParam).PlayerStatsJson?
    ensures var s := GetPlayerStatsRoute(players, progress, achievements, history, idParam).summary;
      var st := GetPlayerStats(progress, daily, fast, ParseInt(idParam).n);
      s.totalXP == st.totalXP && s.totalCorrect == st.totalCorrect && s.totalProblems == st.totalProblems &&
      s.accuracy == st.accuracy && s.level == st.level
  {
  }

  /**
   * On sound rows the summary is consistent: the correct answers are at most
   * the answers, the accuracy is a percentage, and the level is at least 1
   * when the XP is non-negative.
   */
  lemma SummarySound(rows: seq<ProgressRow>)
    requires SoundRows(rows)
    ensures var s := SummaryOf(rows);
      0 <= s.totalCorrect <= s.totalProblems && 0 <= s.accuracy <= 100 &&
      (s.totalProblems == 0 ==> s.accuracy == 0) && (s.totalXP >= 0 ==> s.level >= 1)
  {
    SumsOfSoundRows(rows);
  }
}
