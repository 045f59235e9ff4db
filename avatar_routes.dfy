/**
 * backend/routes/avatars.js: `GET /`, the catalogue listed with each
 * avatar's unlock status and, for a locked one, the progress towards its
 * requirement; and `POST /select`, which sets the player's avatar to an
 * unlocked catalogue entry.
 */
module AvatarRoutes {
  import opened JsBuiltins
  import opened Constants
  import opened Helpers
  import opened Db
  import opened AvatarService

  // ---------------------------------------------------------------------
  // GET /

  /** `{ current, required }` of a locked avatar. */
  datatype AvatarProgress = AvatarProgress(current: int, required: int)

  /** `{ ...avatar, unlocked, progress }`. */
  datatype AvatarEntry = AvatarEntry(avatar: Avatar, unlocked: bool, progress: Option<AvatarProgress>)

  /** The stat the listing's `switch (avatar.requirement.type)` shows for a requirement type. */
  function CurrentStat(kind: RequirementType, stats: PlayerStats): int
  {
    match kind
    case Level => stats.level
    case Correct => stats.totalCorrect
    case Streak => stats.bestStreak
    case Daily => stats.dailyChallengesCompleted
    case Accuracy => stats.accuracy
    case Xp => stats.totalXP
    case Speed => stats.fastAnswers
  }

  function ListEntry(a: Avatar, stats: PlayerStats, unlockedIds: set<string>): AvatarEntry
  {
    var isUnlocked := a.requirement.None? || a.id in unlockedIds;
    AvatarEntry(a, isUnlocked,
      if a.requirement.Some? && !isUnlocked
      then Some(AvatarProgress(CurrentStat(a.requirement.value.kind, stats), a.requirement.value.value))
      else None)
  }

  /**
   * `avatars.map(...)`: one entry per avatar in order; an avatar is unlocked
   * iff it has no requirement or its id is recorded; progress is absent
   * exactly for the unlocked ones and otherwise shows the requirement's stat
   * against its threshold.
   */
  function ListingOf(avatars: seq<Avatar>, stats: PlayerStats, unlockedIds: set<string>): (r: seq<AvatarEntry>)
    ensures |r| == |avatars|
    ensures forall k | 0 <= k < |r| ::
      r[k].avatar == avatars[k] &&
      (r[k].unlocked <==> avatars[k].requirement.None? || avatars[k].id in unlockedIds) &&
      (r[k].progress.None? <==> r[k].unlocked) &&
      (r[k].progress.Some? ==>
        r[k].progress.value == AvatarProgress(CurrentStat(avatars[k].requirement.value.kind, stats),
                                              avatars[k].requirement.value.value))
  {
    seq(|avatars|, k requires 0 <= k < |avatars| => ListEntry(avatars[k], stats, unlockedIds))
  }

  /** `GET /`: the catalogue listed against the player's stats and recorded unlocks. */
  function GetAvatars(
    progress: seq<ProgressRow>, daily: map<(int, string), DailyRow>, fast: map<int, int>,
    unlocked: set<(int, string)>, playerId: int): seq<AvatarEntry>
  {
    ListingOf(UNLOCKABLE_AVATARS, GetPlayerStats(progress, daily, fast, playerId), IdsOf(unlocked, playerId))
  }

  /**
   * For every requirement type but accuracy, a locked avatar's progress
   * reaches its threshold exactly when the unlock check would unlock it; for
   * accuracy the check also needs 50 answers.
   */
  lemma ProgressMatchesRequirement(a: Avatar, stats: PlayerStats, unlockedIds: set<string>)
    requires a.requirement.Some? && a.id !in unlockedIds
    ensures var e := ListEntry(a, stats, unlockedIds);
      e.progress.Some? &&
      (a.requirement.value.kind != Accuracy ==>
        (e.progress.value.current >= e.progress.value.required <==> ShouldUnlock(a.requirement.value, stats))) &&
      (a.requirement.value.kind == Accuracy ==>
        (ShouldUnlock(a.requirement.value, stats) <==>
          stats.totalProblems >= 50 && e.progress.value.current >= e.progress.value.required))
  {
  }

  /**
   * Once the unlock check has recorded what it returns, every avatar the
   * listing still shows as locked has an unmet requirement.
   */
  lemma LockedAfterCheckIsUnmet(avatars: seq<Avatar>, stats: PlayerStats, unlockedIds: set<string>, k: nat)
    requires k < |avatars|
    requires !ListingOf(avatars, stats, unlockedIds + AvatarIds(NewAvatarsIn(avatars, stats, unlockedIds)))[k].unlocked
    ensures avatars[k].requirement.Some? && !ShouldUnlock(avatars[k].requirement.value, stats)
  {
    var a := avatars[k];
    NewAvatarsInSpec(avatars, stats, unlockedIds, a);
  }

  // ---------------------------------------------------------------------
  // POST /select

  datatype SelectResponse = Selected(avatar: string) | SelectFailed(status: int, error: string)

  /** `UPDATE players SET avatar = ? WHERE id = ?`. */
  function SetAvatar(players: seq<PlayerRow>, id: int, emoji: string): (r: seq<PlayerRow>)
    ensures |r| == |players|
    ensures forall k | 0 <= k < |r| ::
      r[k] == (if players[k].id == id then players[k].(avatar := emoji) else players[k])
  {
    seq(|players|, k requires 0 <= k < |players| =>
      if players[k].id == id then players[k].(avatar := emoji) else players[k])
  }

  /** The update keeps the primary key, and a second identical update changes nothing. */
  lemma SetAvatarKeepsKeys(players: seq<PlayerRow>, id: int, emoji: string)
    requires UniquePlayerIds(players)
    ensures UniquePlayerIds(SetAvatar(players, id, emoji))
    ensures SetAvatar(SetAvatar(players, id, emoji), id, emoji) == SetAvatar(players, id, emoji)
  {
  }

  /** `UNLOCKABLE_AVATARS.find(a => a.id === avatarId)`: only a string can match an id. */
  function FindSelected(avatarId: JsValue): (r: Option<nat>)
    ensures r.Some? ==> avatarId.Str? && r.value < |UNLOCKABLE_AVATARS| && UNLOCKABLE_AVATARS[r.value].id == avatarId.s
    ensures r.None? ==> !avatarId.Str? || forall k | 0 <= k < |UNLOCKABLE_AVATARS| :: UNLOCKABLE_AVATARS[k].id != avatarId.s
  {
    if avatarId.Str? then FindAvatar(avatarId.s) else None
  }

  /**
   * `POST /select`: an id outside the catalogue answers 'Invalid avatar', a
   * gated avatar the player has not unlocked answers 'Avatar not unlocked',
   * both without writing; otherwise the player's avatar becomes the emoji.
   */
  method SelectAvatar(db: Store, playerId: int, avatarId: JsValue) returns (resp: SelectResponse)
    requires db.Valid()
    modifies db
    ensures db.Valid()
    ensures FindSelected(avatarId).None? ==>
      resp == SelectFailed(400, "Invalid avatar") && db.players == old(db.players)
    ensures FindSelected(avatarId).Some? ==>
      var a := UNLOCKABLE_AVATARS[FindSelected(avatarId).value];
      (a.requirement.Some? && (playerId, a.id) !in db.unlockedAvatars ==>
        resp == SelectFailed(400, "Avatar not unlocked") && db.players == old(db.players)) &&
      (a.requirement.None? || (playerId, a.id) in db.unlockedAvatars ==>
        resp == Selected(a.emoji) && db.players == SetAvatar(old(db.players), playerId, a.emoji))
    ensures db.progress == old(db.progress) && db.history == old(db.history) && db.achievements == old(db.achievements)
    ensures db.dailyChallenges == old(db.dailyChallenges) && db.unlockedAvatars == old(db.unlockedAvatars)
    ensures db.fastAnswers == old(db.fastAnswers)
  {
    var found := FindSelected(avatarId);
    if found.None? {
      return SelectFailed(400, "Invalid avatar");
    }
    var avatar := UNLOCKABLE_AVATARS[found.value];
    if avatar.requirement.Some? {
      var unlocked := (playerId, avatar.id) in db.unlockedAvatars;
      if !unlocked {
        return SelectFailed(400, "Avatar not unlocked");
      }
    }
    SetAvatarKeepsKeys(db.players, playerId, avatar.emoji);
    db.players := SetAvatar(db.players, playerId, avatar.emoji);
    resp := Selected(avatar.emoji);
  }

  /** A starter avatar can always be selected, whatever has been unlocked. */
  lemma StartersSelectable(k: nat)
    requires k < 3
    ensures FindSelected(Str(UNLOCKABLE_AVATARS[k].id)) == Some(k)
    ensures UNLOCKABLE_AVATARS[k].requirement.None?
  {
    AvatarCatalogueShape();
    StartersAreFirstThree();
  }
}
