/**
 * backend/routes/leaderboard.js: `GET /`, the players with positive total
 * XP, highest first, cut to `limit`, numbered from 1 and shown with the
 * summary's accuracy and level.
 *
 * The SQL is stated as functions: the LEFT JOIN with GROUP BY as one
 * aggregate per player row, HAVING as a filter, ORDER BY ... DESC as a
 * stable insertion sort (SQLite leaves the order of equal totals
 * unspecified; the model keeps player order among them), and LIMIT with
 * SQLite's reading of a negative limit as no limit.
 */
module LeaderboardRoutes {
  import opened JsBuiltins
  import opened Db
  import opened AvatarService

  /** One row of the query: the player's columns and the aggregates over their progress rows. */
  datatype Topper = Topper(
    id: int, username: string, avatar: string,
    totalXp: int, totalCorrect: int, totalProblems: int, bestStreak: int)

  datatype LeaderboardEntry = LeaderboardEntry(
    rank: int, id: int, username: string, avatar: string, totalXP: int, totalCorrect: int,
    totalProblems: int, accuracy: int, level: int, bestStreak: int)

  /** `parseInt(req.query.limit) || 5`: an absent, unparseable or zero limit is 5. */
  function LimitOf(param: Option<string>): (r: int)
    ensures r != 0
    ensures param.None? || ParseInt(param.value).NaN? || ParseInt(param.value) == Num(0) ==> r == 5
    ensures param.Some? && ParseInt(param.value).Num? && ParseInt(param.value).n != 0 ==> r == ParseInt(param.value).n
  {
    if param.None? then 5 else OrDefault(ParseInt(param.value), 5)
  }

  /** `players p LEFT JOIN progress pr ... GROUP BY p.id` with the COALESCE'd sums and maximum. */
  function TopperOf(p: PlayerRow, progress: seq<ProgressRow>): Topper
  {
    var rows := PlayerProgress(progress, p.id);
    Topper(p.id, p.username, p.avatar, SumXp(rows), SumCorrect(rows), SumTotal(rows), MaxBestStreak(rows))
  }

  function Aggregate(players: seq<PlayerRow>, progress: seq<ProgressRow>): (r: seq<Topper>)
    ensures |r| == |players|
    ensures forall k | 0 <= k < |r| :: r[k] == TopperOf(players[k], progress)
  {
    seq(|players|, k requires 0 <= k < |players| => TopperOf(players[k], progress))
  }

  /** `HAVING total_xp > 0`, keeping the order. */
  function Positive(ts: seq<Topper>): (r: seq<Topper>)
    ensures forall k | 0 <= k < |r| :: r[k].totalXp > 0
  {
    if ts == [] then []
    else Positive(ts[..|ts| - 1]) + (if ts[|ts| - 1].totalXp > 0 then [ts[|ts| - 1]] else [])
  }

  /** The filter keeps exactly the toppers with positive XP, with their multiplicities. */
  lemma {:induction false} PositiveSpec(ts: seq<Topper>)
    ensures forall t :: multiset(Positive(ts))[t] == (if t.totalXp > 0 then multiset(ts)[t] else 0)
    ensures forall t :: t in Positive(ts) <==> t in ts && t.totalXp > 0
  {
    if ts != [] {
      var init := ts[..|ts| - 1];
      PositiveSpec(init);
      assert ts == init + [ts[|ts| - 1]];
    }
  }

  /** Totals never increase along the list. */
  predicate Descending(ts: seq<Topper>)
  {
    forall i, j | 0 <= i < j < |ts| :: ts[i].totalXp >= ts[j].totalXp
  }

  /** Inserts `t` after every entry whose total is at least its own. */
  function InsertDesc(t: Topper, ts: seq<Topper>): (r: seq<Topper>)
    ensures |r| == |ts| + 1
    ensures multiset(r) == multiset(ts) + multiset{t}
    ensures Descending(ts) ==> Descending(r)
    decreases |ts|, 1
  {
    if ts == [] then [t]
    else if ts[|ts| - 1].totalXp >= t.totalXp then ts + [t]
    else
      var init := ts[..|ts| - 1];
      assert ts == init + [ts[|ts| - 1]];
      var r := InsertDesc(t, init) + [ts[|ts| - 1]];
      assert Descending(ts) ==> Descending(r) by {
        if Descending(ts) {
          assert Descending(init);
          InsertDescTail(t, init, ts[|ts| - 1]);
        }
      }
      r
  }

  /** What the recursive step of the insertion needs: the kept last entry stays at or below every other. */
  lemma InsertDescTail(t: Topper, init: seq<Topper>, last: Topper)
    requires Descending(init) && Descending(InsertDesc(t, init))
    requires forall i | 0 <= i < |init| :: init[i].totalXp >= last.totalXp
    requires last.totalXp < t.totalXp
    ensures Descending(InsertDesc(t, init) + [last])
    decreases |init| + 1, 0
  {
    var s := InsertDesc(t, init);
    forall x | x in s ensures x.totalXp >= last.totalXp {
      assert x in multiset(s);
      assert x in multiset(init) || x == t;
    }
  }

  /** `ORDER BY total_xp DESC`, stable. */
  function SortDesc(ts: seq<Topper>): (r: seq<Topper>)
    ensures |r| == |ts|
    ensures multiset(r) == multiset(ts)
    ensures Descending(r)
  {
    if ts == [] then []
    else
      var init := ts[..|ts| - 1];
      assert ts == init + [ts[|ts| - 1]];
      InsertDesc(ts[|ts| - 1], SortDesc(init))
  }

  /** `LIMIT ?`: at most `limit` rows, all of them for a negative limit. */
  function Limited<T>(s: seq<T>, limit: int): (r: seq<T>)
    ensures limit < 0 ==> r == s
    ensures limit >= 0 ==> |r| == Min(limit, |s|) && r == s[..|r|]
  {
    if limit < 0 || limit >= |s| then s else s[..limit]
  }

  /** One element of `toppers.map((player, index) => ...)`. */
  function EntryOf(rank: int, t: Topper): LeaderboardEntry
  {
    LeaderboardEntry(rank, t.id, t.username, t.avatar, t.totalXp, t.totalCorrect, t.totalProblems,
                     if t.totalProblems > 0 then Accuracy(t.totalCorrect, t.totalProblems) else 0,
                     PlayerLevel(t.totalXp), t.bestStreak)
  }

  /** Numbers the rows from 1 in order. */
  function Ranked(ts: seq<Topper>): (r: seq<LeaderboardEntry>)
    ensures |r| == |ts|
    ensures forall i | 0 <= i < |r| :: r[i] == EntryOf(i + 1, ts[i])
  {
    seq(|ts|, i requires 0 <= i < |ts| => EntryOf(i + 1, ts[i]))
  }

  /** The rows of the query, before the mapping. */
  function Toppers(players: seq<PlayerRow>, progress: seq<ProgressRow>, limit: int): seq<Topper>
  {
    Limited(SortDesc(Positive(Aggregate(players, progress))), limit)
  }

  /** `GET /`. */
  function GetLeaderboard(players: seq<PlayerRow>, progress: seq<ProgressRow>, limitParam: Option<string>): seq<LeaderboardEntry>
  {
    Ranked(Toppers(players, progress, LimitOf(limitParam)))
  }

  /**
   * The leaderboard lists players with positive XP only, highest first,
   * ranked 1..n consecutively, no more than the limit, and every one of them
   * with the summary formulas for accuracy and level.
   */
  lemma LeaderboardShape(players: seq<PlayerRow>, progress: seq<ProgressRow>, limitParam: Option<string>)
    ensures var board := GetLeaderboard(players, progress, limitParam);
      var limit := LimitOf(limitParam);
      (limit > 0 ==> |board| <= limit) &&
      (forall i | 0 <= i < |board| ::
        board[i].rank == i + 1 && board[i].totalXP > 0 && board[i].level == PlayerLevel(board[i].totalXP) &&
        board[i].accuracy == (if board[i].totalProblems > 0 then Accuracy(board[i].totalCorrect, board[i].totalProblems) else 0)) &&
      (forall i, j | 0 <= i < j < |board| :: board[i].totalXP >= board[j].totalXP)
  {
    var sorted := SortDesc(Positive(Aggregate(players, progress)));
    var ts := Toppers(players, progress, LimitOf(limitParam));
    SortedPositive(Positive(Aggregate(players, progress)));
    LimitedTop(sorted, LimitOf(limitParam));
    assert forall k | 0 <= k < |ts| :: ts[k] == sorted[k];
    RankedShape(ts);
  }

  /** Sorting the positive rows keeps them positive. */
  lemma SortedPositive(all: seq<Topper>)
    requires forall k | 0 <= k < |all| :: all[k].totalXp > 0
    ensures forall k | 0 <= k < |SortDesc(all)| :: SortDesc(all)[k].totalXp > 0
  {
    var sorted := SortDesc(all);
    forall k | 0 <= k < |sorted| ensures sorted[k].totalXp > 0 {
      assert sorted[k] in multiset(all);
    }
  }

  /** Numbering descending positive rows gives ranks 1..n, the summary formulas, and descending totals. */
  lemma RankedShape(ts: seq<Topper>)
    requires Descending(ts) && forall k | 0 <= k < |ts| :: ts[k].totalXp > 0
    ensures var board := Ranked(ts);
      (forall i | 0 <= i < |board| ::
        board[i].rank == i + 1 && board[i].totalXP > 0 && board[i].level == PlayerLevel(board[i].totalXP) &&
        board[i].accuracy == (if board[i].totalProblems > 0 then Accuracy(board[i].totalCorrect, board[i].totalProblems) else 0)) &&
      (forall i, j | 0 <= i < j < |board| :: board[i].totalXP >= board[j].totalXP)
  {
  }

  /**
   * The listed rows are the top of the ranking: they are the first rows of a
   * descending rearrangement of all players with positive XP, so every player
   * left out has at most the XP of every player listed; with a negative limit
   * or one at least the number of such players, all of them are listed.
   */
  lemma LeaderboardIsTop(players: seq<PlayerRow>, progress: seq<ProgressRow>, limit: int)
    ensures var all := Positive(Aggregate(players, progress));
      var sorted := SortDesc(all);
      var ts := Toppers(players, progress, limit);
      multiset(sorted) == multiset(all) && ts == sorted[..|ts|] &&
      (forall i, j | 0 <= i < |ts| <= j < |sorted| :: sorted[j].totalXp <= ts[i].totalXp) &&
      (limit < 0 || limit >= |all| ==> multiset(ts) == multiset(all))
  {
    var sorted := SortDesc(Positive(Aggregate(players, progress)));
    LimitedTop(sorted, limit);
  }

  /** Cutting a descending list keeps its first rows, each at least every row cut off. */
  lemma LimitedTop(sorted: seq<Topper>, limit: int)
    requires Descending(sorted)
    ensures var ts := Limited(sorted, limit);
      ts == sorted[..|ts|] &&
      (forall i, j | 0 <= i < |ts| <= j < |sorted| :: sorted[j].totalXp <= ts[i].totalXp) &&
      (limit < 0 || limit >= |sorted| ==> ts == sorted)
  {
    var ts := Limited(sorted, limit);
    forall i, j | 0 <= i < |ts| <= j < |sorted| ensures sorted[j].totalXp <= ts[i].totalXp {
      assert ts[i] == sorted[i];
    }
  }

  /** Every player with positive XP is aggregated once per player row, so each appears in the ranking. */
  lemma PositivePlayersRanked(players: seq<PlayerRow>, progress: seq<ProgressRow>, k: nat)
    requires k < |players| && SumXp(PlayerProgress(progress, players[k].id)) > 0
    ensures TopperOf(players[k], progress) in SortDesc(Positive(Aggregate(players, progress)))
  {
    var all := Aggregate(players, progress);
    PositiveSpec(all);
    var sorted := SortDesc(Positive(all));
    assert TopperOf(players[k], progress) in multiset(Positive(all));
    assert TopperOf(players[k], progress) in multiset(sorted);
  }
}
