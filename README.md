# math-adventure: a verified model of the game's core

math-adventure is a children's arithmetic game. An Express backend sits over a
small SQLite database, and a React client talks to it. This project models the
parts of it that decide what a player sees and earns:

- **The daily seed.** A polynomial rolling hash of the date string, wrapped to
  a signed 32-bit integer at every step.
- **The problem generator.** Addition, subtraction, multiplication, division
  and mixed problems, with bounds that scale with the difficulty.
- **The daily sequence.** Five seeded problems per day.
- **`/submit`.** The progress read-modify-write: correct, total, streak, best
  streak, XP and difficulty per (player, type). It also keeps the fast-answer
  counter and the history.
- **The daily-challenge state machine.** `problems_completed`,
  `bonus_xp_earned` and `completed`, as read by the GET and updated by the
  submit, with a one-time completion bonus.
- **The unlock evaluators.** The achievement and avatar catalogues and their
  append-only unlock tables.
- **The read-side derivations.** The stats summary, the avatar listing with
  progress, and the leaderboard.
- **The client's rules.** The sliding-window difficulty adaptation, the range
  of objects in count mode, and the PIN field editing.
- **The duplicate handlers in `backend/server.js`.** Each is tied to the
  module version it repeats.

## Modelling conventions

- **Modules.** One Dafny module per source file. Shared JavaScript built-ins
  live in `JsBuiltins`:
  - `parseInt`, with `|| d` on top of it;
  - `Number#toString` on integers;
  - `String#trim` on the ECMAScript whitespace set;
  - `ToInt32`;
  - UTF-16 code units for `charCodeAt`;
  - `Math.floor(Math.random() * n)`;
  - `slice(0, end)`.
- **The database is one `Db.Store` object.** Its fields are the tables of
  `backend/utils/db.js`:
  - `players` and `progress` are sequences in rowid order;
  - `history` is an append-only sequence;
  - `achievements` and `unlocked_avatars` are sets of (player, id) pairs;
  - `daily_challenges` is a map keyed by (player, date);
  - `fast_answers` is a map keyed by player.

  `Store.Valid()` states the schema's uniqueness keys, plus the row invariants
  the handlers keep: correct ≤ total and streak ≤ best.
- **Handlers.** Each request handler is one method that modifies the store. It
  states its whole new state, and its error paths come back as response
  values.
- **Loops become methods with invariants.** This covers the seed loop, the
  daily list, the catalogue walks, the server's leaderboard loop and the PIN
  array edit. Each is proved equal to a specification function, and the
  properties are proved about that function.
- **Randomness: `rand: nat -> nat`.** Each `Math.random()` call k of a
  computation yields an arbitrary natural `rand(k)`. `Math.floor(Math.random() * n)`
  is `FloorScaled(n, rand(k))`, which covers exactly the integers the float
  expression can produce.
- **The clock is a parameter.** The current date is passed in as `today`.

## Model

| member | source | states |
|---|---|---|
| `JsBuiltins.OrDefault` | backend/utils/problemService.js:18 | `parseInt(x) \|\| d`: a non-zero number is kept; NaN and 0 give the default; a non-zero default gives a non-zero result |
| `JsBuiltins.ToInt32` | backend/utils/helpers.js:57 | `hash & hash` is ToInt32: the result is a signed 32-bit integer congruent to its argument modulo 2^32 |
| `JsBuiltins.ToInt32Periodic` | backend/utils/helpers.js:57 | ToInt32 ignores multiples of 2^32 |
| `JsBuiltins.ToInt32OfInt32` | backend/utils/helpers.js:57 | ToInt32 is the identity on signed 32-bit integers |
| `JsBuiltins.Abs` | backend/utils/helpers.js:59 | `Math.abs` gives x or -x, never negative |
| `JsBuiltins.CodeUnits` | backend/utils/helpers.js:55 | `charCodeAt` sees one or two UTF-16 code units per character, each below 2^16; a BMP character is its own code |
| `JsBuiltins.Utf16` | backend/utils/helpers.js:54-55 | the loop runs over at least as many code units as characters, all below 2^16 |
| `JsBuiltins.Utf16OfBmp` | backend/utils/helpers.js:54-55 | on a BMP-only string the code units are the characters, one each |
| `JsBuiltins.TrimStartSplits` | backend/utils/helpers.js:122 | leading trim removes an all-whitespace prefix and stops at a non-whitespace character |
| `JsBuiltins.TrimEndPrefix` | backend/utils/helpers.js:122 | trailing trim keeps a prefix of the text, the removed rest is all whitespace, and the kept part does not end in whitespace |
| `JsBuiltins.TrimEndSplits` | backend/utils/helpers.js:122 | trailing trim removes an all-whitespace suffix and stops at a non-whitespace character |
| `JsBuiltins.TrimSplits` | backend/utils/helpers.js:122 | `trim()` yields a trimmed string that is the input without a whitespace prefix and suffix |
| `JsBuiltins.TrimStartOfPadded` | backend/utils/helpers.js:122 | leading trim of whitespace plus a text starting with non-whitespace gives that text |
| `JsBuiltins.TrimEndOfPadded` | backend/utils/helpers.js:122 | trailing trim of a text ending in non-whitespace plus whitespace gives that text |
| `JsBuiltins.TrimOfPadded` | backend/utils/helpers.js:122 | trimming a trimmed text padded with whitespace on both sides gives the text back |
| `JsBuiltins.TrimStartAllWhitespace` | backend/utils/helpers.js:122 | an all-whitespace string trims to the empty string |
| `JsBuiltins.TrimIdempotent` | backend/utils/helpers.js:122 | trimming twice is trimming once |
| `JsBuiltins.DigitChar` | backend/utils/problemService.js:67 | a digit value 0..9 is shown as a character '0'..'9' |
| `JsBuiltins.ShowNat` | backend/utils/problemService.js:67 | `toString` of a natural is a non-empty run of digits without a leading zero |
| `JsBuiltins.Show` | backend/utils/problemService.js:67 | `toString` of an integer is non-empty and has no surrounding whitespace |
| `JsBuiltins.DigitValue` | backend/utils/problemService.js:18 | a decimal or hexadecimal digit's value is below its radix |
| `JsBuiltins.DigitRun` | backend/utils/problemService.js:18 | `parseInt` reads the longest prefix of digits: a prefix, all digits, followed by a non-digit or the end |
| `JsBuiltins.ShowNatValue` | backend/utils/problemService.js:67 | the digits `toString` writes have the number's value |
| `JsBuiltins.DigitRunOfDigits` | backend/utils/problemService.js:18 | a digit run followed by a non-digit is read exactly |
| `JsBuiltins.MagnitudeOfShowNat` | backend/utils/problemService.js:18 | the decimal digits of a natural followed by a tail that does not continue the number read back as that natural |
| `JsBuiltins.ParseIntOfDigits` | backend/utils/problemService.js:18 | a text starting with a digit is read by parseInt as its unsigned magnitude |
| `JsBuiltins.ParseIntOfSigned` | backend/utils/problemService.js:18 | a minus sign before such a text negates the magnitude |
| `JsBuiltins.ParseShow` | backend/utils/problemService.js:18 | `parseInt(String(n) + t)` is n for any tail that does not continue the number: text round-trips through parseInt |
| `JsBuiltins.ParseIntNaN` | backend/utils/problemService.js:18 | a text with no sign or digit after leading whitespace parses to NaN |
| `JsBuiltins.ShowInjective` | backend/utils/problemService.js:67 | two integers have the same decimal text iff they are equal |
| `JsBuiltins.FloorScaled` | backend/utils/problemService.js:24 | `Math.floor(Math.random() * n)` lies in [0, n) for n > 0 and in [n, 0] otherwise |
| `JsBuiltins.FloorScaledCovers` | backend/utils/problemService.js:24 | every value in that range is drawn by some random value |
| `JsBuiltins.SubsequenceExtend` | frontend/src/App.jsx:219 | a subsequence of s stays one of s extended by an element |
| `JsBuiltins.SubsequenceDropLast` | frontend/src/App.jsx:219 | dropping the last element of a subsequence keeps it a subsequence |
| `JsBuiltins.SliceTo` | frontend/src/App.jsx:203 | `slice(0, end)` is a prefix: min(end, n) long for end ≥ 0, and n + end (at least 0) long for a negative end |
| `Helpers.HashStep` | backend/utils/helpers.js:56-57 | one character step yields a signed 32-bit value |
| `Helpers.SourceStepIsHashStep` | backend/utils/helpers.js:56-57 | `((hash << 5) - hash) + char` followed by `hash & hash` is ToInt32(hash·31 + char) |
| `Helpers.RollingHash` | backend/utils/helpers.js:53-58 | the hash after any number of characters is a signed 32-bit integer |
| `Helpers.DailySeed` | backend/utils/helpers.js:59 | the seed is `abs` of an int32, so a natural no larger than 2^31 |
| `Helpers.GetDailyChallengeSeed` | backend/utils/helpers.js:52-60 | the loop over the code units returns exactly the specified seed, a pure function of the date; the copy at backend/server.js:80-88 is the same code |
| `Helpers.EmptySeed` | backend/utils/helpers.js:53 | example only: the empty date gives seed 0 (the all-inputs statement is `Helpers.RollingHash` with `Helpers.RollingHashSnoc`) |
| `Helpers.RollingHashSnoc` | backend/utils/helpers.js:54-58 | one more character is one more step on the previous hash |
| `Helpers.KnownSeed` | backend/utils/helpers.js:52-60 | the seed of "2024-01-01" is 613341632 |
| `Helpers.KnownUnits` | backend/utils/helpers.js:55 | the code units of "2024-01-01" are its ASCII codes |
| `Helpers.WordRepeatIff` | backend/utils/helpers.js:109 | `[a-zA-Z0-9_]{lo,hi}` anchored matches iff the length is within bounds and every character is a word character |
| `Helpers.UsernameIff` | backend/utils/helpers.js:108-111 | a username is valid iff it is 3..20 characters long and all are letters, digits or '_' |
| `Helpers.EmailIff` | backend/utils/helpers.js:98-101 | an email is valid iff it has no whitespace and exactly one '@', with a non-empty local part and a domain holding a '.' that is neither its first nor its last character |
| `Helpers.SanitizeStrips` | backend/utils/helpers.js:118-123 | the sanitized text is trimmed and is the input (converted with String first) without surrounding whitespace |
| `Helpers.SanitizeIdempotent` | backend/utils/helpers.js:118-123 | sanitizing twice is sanitizing once |
| `Constants.FindAvatar` | backend/routes/avatars.js:76 | finds the position of the catalogue entry with the id, or reports that none has it |
| `Constants.FindAvatarFrom` | backend/routes/avatars.js:76 | the search from a position finds the first matching entry at or after it |
| `Constants.AvatarCatalogueShape` | backend/utils/constants.js:7-42 | the avatar catalogue has 23 entries with distinct ids |
| `Constants.StartersAreFirstThree` | backend/utils/constants.js:9-11 | exactly the first three entries (kid1, girl1, boy1) have no requirement |
| `Constants.ThresholdsNonDecreasing` | backend/utils/constants.js:14-41 | within each requirement type, thresholds do not decrease along the catalogue |
| `Constants.AchievementCatalogueShape` | backend/utils/constants.js:66-76 | there are 9 achievements with distinct ids |
| `Constants.CounterConditionsUpwardClosed` | backend/utils/constants.js:67-74 | every count, streak and level condition that holds at some stats holds at all dominating stats |
| `Constants.OnlySpeedDemonIsTimed` | backend/utils/constants.js:75 | only the ninth achievement, speed_demon, depends on correctness and time, with a 3000 ms bound |
| `Db.FindProgress` | backend/routes/problems.js:53 | the progress lookup finds a row with the (player, type) key, or reports that none has it |
| `Db.FindProgressUnique` | backend/utils/db.js:65 | under UNIQUE(player_id, problem_type), the lookup finds the one row with the key |
| `Db.RowsOf` | backend/utils/avatarService.js:17 | `WHERE player_id = ?` on any table: every row kept belongs to the player and comes from the table, and every row of the player is kept |
| `Db.PlayerProgress` | backend/utils/avatarService.js:17 | `WHERE player_id = ?` keeps only the player's rows, each one from the table |
| `Db.FindPlayer` | backend/routes/players.js:27-32 | the player lookup finds a row with the id, or reports that none has it |
| `Db.MaxBestStreak` | backend/utils/avatarService.js:27 | `Math.max(0, ...best_streak)` bounds every row's best streak, is at least 0, and is attained by a row unless it is 0; no rows gives 0 |
| `Db.SumsOfSoundRows` | backend/utils/avatarService.js:24-27 | over sound rows, 0 ≤ summed correct ≤ summed total, and the best streak is at most the correct answers |
| `Db.Store.constructor` | backend/utils/db.js:35-117 | the empty database satisfies the schema's keys |
| `ProblemService.AnswerTextFaithful` | backend/utils/problemService.js:67 | the answer string parses back to the result, and two answers are equal strings iff the results are equal |
| `ProblemService.MixedTypes` | backend/utils/problemService.js:55-57 | mixed chooses among 2 to 4 types |
| `ProblemService.MixedTypesKnown` | backend/utils/problemService.js:55-57 | every type mixed may choose is a concrete type |
| `ProblemService.Arith` | backend/utils/problemService.js:22-53 | the arithmetic for one concrete type gives a problem of that type at that difficulty |
| `ProblemService.KindOf` | backend/utils/problemService.js:22-62 | exactly the four concrete type names select an arithmetic case, each the one named |
| `ProblemService.GenerateProblemOutcome` | backend/utils/problemService.js:16-75 | exactly the unknown types raise "Invalid problem type: <type>"; otherwise the difficulty is `parseInt(d) \|\| 1`, never 0, and a concrete type gives a problem of that type |
| `ProblemService.AdditionBounds` | backend/utils/problemService.js:23-29 | addition at d ≥ 1 has both operands in [1, 10d] and their sum as the answer |
| `ProblemService.AdditionCovers` | backend/utils/problemService.js:23-29 | every pair of operands in [1, 10d] is produced by some draws |
| `ProblemService.SubtractionNonNegative` | backend/utils/problemService.js:30-36 | subtraction at d ≥ 1 has a in [d, 11d-1] and b in [1, min(a, 10d)], so the answer a - b is never negative |
| `ProblemService.MultiplicationBounds` | backend/utils/problemService.js:37-44 | multiplication at d ≥ 1 has both factors in [1, min(d+2, 12)] and their product as the answer |
| `ProblemService.DivisionExact` | backend/utils/problemService.js:45-53 | division is always exact, since the dividend is the divisor times the answer; at d ≥ 1 the divisor and the answer are in [1, min(d+2, 12)] |
| `ProblemService.MixedChoosesAllowedType` | backend/utils/problemService.js:54-60 | mixed never returns 'mixed'; multiplication needs d ≥ 2 and division d ≥ 3; the result is the chosen type's problem on the remaining draws |
| `ProblemService.DailyRaw` | backend/utils/problemService.js:97 | the seeded generator's raw value lies below 233280 |
| `ProblemService.DailyRand` | backend/utils/problemService.js:97 | `rand(max)` lies in [1, max] |
| `ProblemService.DailyDifficulty` | backend/utils/problemService.js:92 | the daily difficulty min(5, i+2) lies in [2, 5] |
| `ProblemService.GenerateDailyChallengeProblems` | backend/utils/problemService.js:82-128 | the loop builds exactly the specified five-entry list for the date; the copy at backend/server.js:638-663 is the same code |
| `ProblemService.GetDailyChallengeProblemSpec` | backend/utils/problemService.js:136-144 | `getDailyChallengeProblem(date, i)` is entry i of the list, with index i, for 0 ≤ i < 5, and null otherwise |
| `ProblemService.DailyProblemsShape` | backend/utils/problemService.js:84-121 | the daily list has 5 entries; entry i has index i, difficulty min(5, i+2) and type [add, sub, mult][(seed+i) mod 3], never division |
| `ProblemService.DailyEntryShape` | backend/utils/problemService.js:88-121 | each entry is built from the seed and its position alone, with that index, difficulty and type |
| `ProblemService.DailyOperands` | backend/utils/problemService.js:97-117 | one raw value per problem: addition and multiplication show equal operands; factors are at most min(d+3, 12); subtraction answers are never negative |
| `ProblemService.DailyArithmeticExact` | backend/utils/problemService.js:97 | the seeded product stays below 2^53, so integer arithmetic is exact in JavaScript numbers |
| `AchievementService.NoXpWhenWrong` | backend/utils/achievementService.js:58 | a wrong answer earns 0 XP |
| `AchievementService.XpExample` | backend/utils/achievementService.js:60-62 | example only: streak 3 at difficulty 2 earns 30 XP (the all-inputs statement is `AchievementService.XpStreakSteps`) |
| `AchievementService.XpStreakSteps` | backend/utils/achievementService.js:60-62 | below streak 3 XP is 10·d, and every 3 more streak adds 5·d |
| `AchievementService.XpMonotoneInStreak` | backend/utils/achievementService.js:60-62 | for a non-negative difficulty, XP does not decrease in the streak |
| `AchievementService.NewAchievementsInSpec` | backend/utils/achievementService.js:20-39 | an achievement is returned iff it is in the catalogue, its condition holds and the player does not hold it yet |
| `AchievementService.NewAchievementsInOrder` | backend/utils/achievementService.js:20-38 | the returned achievements appear in catalogue order |
| `AchievementService.AchievementKeysAppend` | backend/utils/achievementService.js:34-36 | recording one more achievement adds exactly its (player, id) pair |
| `AchievementService.SecondCallUnlocksNothing` | backend/utils/achievementService.js:26-40 | a second call with the same stats, after the first call's records, returns nothing |
| `AchievementService.RecordedBeforeWalk` | backend/utils/achievementService.js:27-32 | during the walk, an id is found recorded iff it was recorded before the walk |
| `AchievementService.AchievementWalk` | backend/utils/achievementService.js:18-43 | over any list with distinct ids, the loop returns exactly the achievements whose condition holds and that the player did not hold, in list order, and the table grows by exactly their pairs; nothing else changes |
| `AchievementService.CheckAchievements` | backend/utils/achievementService.js:16-48 | the walk over the catalogue returns exactly the new achievements in catalogue order, and the table grows by exactly their pairs; nothing else changes |
| `AvatarService.PlayerLevel` | backend/utils/avatarService.js:30 | the level l satisfies 100(l-1) ≤ totalXP < 100l, so it is floor(totalXP/100)+1, and at least 1 for non-negative XP |
| `AvatarService.LevelStep` | backend/utils/avatarService.js:30 | 100 more XP is exactly one more level |
| `AvatarService.LevelMonotone` | backend/utils/avatarService.js:30 | the level does not decrease in XP |
| `AvatarService.Accuracy` | backend/utils/avatarService.js:34 | the accuracy is within half a point of 100·c/t (rounding half up), a percentage when 0 ≤ c ≤ t, and 0 for no answers |
| `AvatarService.AccuracyBounds` | backend/utils/avatarService.js:34 | the integer rounding formula lies within half a point of the exact percentage |
| `AvatarService.AccuracyExtremes` | backend/utils/avatarService.js:34 | all answers right is 100, none right is 0 |
| `AvatarService.PlayerStatsSound` | backend/utils/avatarService.js:15-43 | on sound rows, 0 ≤ best ≤ correct ≤ problems, the accuracy is a percentage, and the best streak is one of the player's rows' (or 0) |
| `AvatarService.NewAvatarsInSpec` | backend/utils/avatarService.js:55-89 | an avatar is returned iff it is in the catalogue, gated, not yet unlocked and its requirement is met |
| `AvatarService.NewAvatarsInOrder` | backend/utils/avatarService.js:55-95 | the returned avatars appear in catalogue order |
| `AvatarService.StartersNeverReturned` | backend/utils/avatarService.js:56 | the three starter avatars are never returned |
| `AvatarService.AlienNeedsFiftyAnswers` | backend/utils/avatarService.js:80-82 | with fewer than 50 answers, 'alien' is not unlocked, whatever the accuracy |
| `AvatarService.SecondCheckUnlocksNothing` | backend/utils/avatarService.js:58-63 | a second check on the same stats, after the first one's inserts, returns nothing |
| `AvatarService.AvatarKeysAppend` | backend/utils/avatarService.js:91-95 | inserting one more avatar adds exactly its (player, id) pair |
| `AvatarService.UnlockedBeforeWalk` | backend/utils/avatarService.js:58-63 | during the walk, an avatar is found unlocked iff it was unlocked before the walk |
| `AvatarService.UnlockWalk` | backend/utils/avatarService.js:55-98 | the loop returns exactly the new avatars of the listed catalogue in order and inserts exactly those; nothing else changes |
| `AvatarService.CheckAndUnlockAvatars` | backend/utils/avatarService.js:50-103 | the stats are computed once; the result is the new avatars on those stats, exactly those are inserted, and nothing else changes; the copy at backend/server.js:445-478, which reads the unlocked ids once before its loop, is equivalent because catalogue ids are distinct |
| `ProblemRoutes.GetProblemSpec` | backend/routes/problems.js:20-31 | 400 exactly on an unknown type, with the generator's message; a NaN or 0 difficulty serves difficulty 1; no parameters serve addition at difficulty 1 |
| `ProblemRoutes.AnswersMatchSpec` | backend/routes/problems.js:44 | the check compares trimmed texts, so whitespace around the user's answer never matters |
| `ProblemRoutes.AnswerOfNumber` | backend/routes/problems.js:44 | a number typed as its decimal text is judged correct iff it equals the result |
| `ProblemRoutes.SubmitProgressFresh` | backend/routes/problems.js:66-75 | a first submission appends one row: total 1, correct and streak equal to the 0/1 correctness, best equal to streak, XP from `calculateXPGained`; earlier rows are untouched |
| `ProblemRoutes.SubmitProgressExisting` | backend/routes/problems.js:57-65 | on an existing row, only that row changes: total +1, correct +0/1, streak s+1 or 0, best max(best, streak), XP + gain, difficulty overwritten |
| `ProblemRoutes.SubmitProgressKeepsValid` | backend/routes/problems.js:57-74 | the update keeps the (player, type) keys unique and correct ≤ total and streak ≤ best, and never lowers a best streak |
| `ProblemRoutes.FastAnswersAfter` | backend/routes/problems.js:78-85 | only the player's counter can change, and no counter is removed |
| `ProblemRoutes.FastAnswersSpec` | backend/routes/problems.js:78-85 | the counter goes up by 1 (created at 1) iff the answer is correct and under 2000 ms; otherwise the table is unchanged |
| `ProblemRoutes.SubmitStats` | backend/routes/problems.js:96-103 | the stats handed to the achievement check carry the level of their total XP and the submission's streak, correctness and time |
| `ProblemRoutes.Submit` | backend/routes/problems.js:37-124 | a missing player is a 400 and a null answer a 500, both before any write and with every table unchanged; otherwise the answer is recorded as `AnswerRecorded` states; the store stays valid |
| `ProblemRoutes.RecordAnswer` | backend/routes/problems.js:44-123 | exactly one history row is appended, the progress row and the fast-answer counter are updated as above, the avatars are checked on the updated stats and the achievements on the submission's stats, nothing else changes, and the response reports correctness, streak, XP gain, total XP and level; the store stays valid |
| `ProblemRoutes.WriteAnswer` | backend/routes/problems.js:44-85 | one history row appended, the progress row updated as `SubmitProgress` states and the fast-answer counter advanced on a correct answer under 2 s; no other table touched; the store stays valid |
| `DailyChallengeRoutes.SliceFrom` | backend/routes/dailyChallenge.js:52 | `slice(k)` is a suffix of the list: from index k on for k ≥ 0 (empty past the end), the last -k entries (or all) for k < 0 |
| `DailyChallengeRoutes.ViewSpec` | backend/routes/dailyChallenge.js:52-53 | an open row shows the problems from problems_completed on, the first as current; a completed row shows [] and null |
| `DailyChallengeRoutes.NegativeCountView` | backend/routes/dailyChallenge.js:52-53 | an open row with a count of -1 to -5 shows the last -count problems and no current problem, as negative `slice` and indexing do |
| `DailyChallengeRoutes.FreshView` | backend/routes/dailyChallenge.js:30-53 | a fresh row shows all five problems with problem 0 as current |
| `DailyChallengeRoutes.GetDailyChallenge` | backend/routes/dailyChallenge.js:21-55 | the first GET of the day inserts the default row; after it the row exists, the view is of that row, and no other table changes, so a second GET finds the row and writes nothing; the server's copy at backend/server.js:614-674 stores and shows the same |
| `DailyChallengeRoutes.DailyAnswerOfNumber` | backend/routes/dailyChallenge.js:86 | a number typed with any surrounding whitespace is right iff it is the problem's result |
| `DailyChallengeRoutes.DailyRowAfter` | backend/routes/dailyChallenge.js:94-101 | a right answer adds one to problems_completed and 25·difficulty to the bonus; completed iff the count reaches total_problems, with 100 more then |
| `DailyChallengeRoutes.DailyRowAfterSound` | backend/routes/dailyChallenge.js:94-120 | on a sound open row, a right answer keeps the count in [0, 5] and completed iff all 5 are done |
| `DailyChallengeRoutes.FiveCorrect` | backend/routes/dailyChallenge.js:94-120 | five right answers from a fresh row complete it with 25·(2+3+4+5+5)+100 = 575 bonus XP, and the first four leave it open |
| `DailyChallengeRoutes.AddXpSpec` | backend/routes/dailyChallenge.js:104-109 | the bonus touches only the (player, type) row, which gains the amount or is created with it; the table stays valid |
| `DailyChallengeRoutes.UpdateAfterAdd` | backend/routes/dailyChallenge.js:112-119 | crediting the completion bonus after the per-problem bonus is one credit of their sum |
| `DailyChallengeRoutes.CreditRightAnswer` | backend/routes/dailyChallenge.js:94-120 | the right-answer writes: the row advanced, and bonus + (100 on completion) credited once to the type's progress row; nothing else changes |
| `DailyChallengeRoutes.AcceptRightAnswer` | backend/routes/dailyChallenge.js:94-141 | those writes, then the avatar check on the new totals; the response reports the bonus, the count, completion and the completion bonus |
| `DailyChallengeRoutes.SubmitDaily` | backend/routes/dailyChallenge.js:61-142 | no row, a completed row or no problem at index problems_completed is a 400 with no write; a null answer is a 500; a wrong answer changes nothing; the problem checked is always problems_completed's; a right answer is credited as above |
| `AvatarRoutes.ListingOf` | backend/routes/avatars.js:28-63 | one entry per catalogue avatar in order; unlocked iff no requirement or recorded; progress null exactly when unlocked, else the matching stat against the threshold; backend/server.js:810-841 lists the same |
| `AvatarRoutes.ProgressMatchesRequirement` | backend/routes/avatars.js:32-56 | a locked avatar's progress reaches its threshold iff the unlock check would unlock it, with 50 answers also needed for accuracy |
| `AvatarRoutes.LockedAfterCheckIsUnmet` | backend/routes/avatars.js:29 | after the unlock check's inserts, every avatar still listed as locked has an unmet requirement |
| `AvatarRoutes.SetAvatar` | backend/routes/avatars.js:92 | the update changes the avatar of exactly the rows with the id |
| `AvatarRoutes.SetAvatarKeepsKeys` | backend/routes/avatars.js:92 | the update keeps player ids unique and is idempotent |
| `AvatarRoutes.FindSelected` | backend/routes/avatars.js:76 | only a string id can match, and the match is the catalogue entry with that id |
| `AvatarRoutes.SelectAvatar` | backend/routes/avatars.js:72-97 | an unknown id is 'Invalid avatar' and a locked gated one 'Avatar not unlocked', both with no write; otherwise the player's avatar becomes the emoji, which is returned; backend/server.js:843-867 does the same |
| `AvatarRoutes.StartersSelectable` | backend/routes/avatars.js:82-96 | a starter avatar is always found and has no requirement, so it can always be selected |
| `Db.PlayerHistory` | backend/routes/players.js:36-39 | the history query keeps only the player's rows, each one from the table (an instance of `Db.RowsOf`) |
| `PlayerRoutes.NewestFirst` | backend/routes/players.js:37 | `ORDER BY created_at DESC LIMIT n` gives the last n rows, newest first |
| `PlayerRoutes.GetPlayerStatsRoute` | backend/routes/players.js:26-58 | 404 iff the id does not parse or names no player; otherwise the player's rows, achievement ids and at most 20 newest answers |
| `PlayerRoutes.SummaryAgreesWithPlayerStats` | backend/routes/players.js:41-55 | the summary's totals, accuracy and level equal those of `getPlayerStats` for the same player |
| `PlayerRoutes.SummarySound` | backend/routes/players.js:41-55 | on sound rows: 0 ≤ correct ≤ problems, accuracy in [0, 100] and 0 without answers, level ≥ 1 for non-negative XP |
| `LeaderboardRoutes.LimitOf` | backend/routes/leaderboard.js:18 | the limit is 5 when absent, unparseable or 0, and the parsed number otherwise |
| `LeaderboardRoutes.Aggregate` | backend/routes/leaderboard.js:20-31 | one aggregate per player row, summing that player's progress rows |
| `LeaderboardRoutes.Positive` | backend/routes/leaderboard.js:32 | `HAVING total_xp > 0` keeps only positive totals |
| `LeaderboardRoutes.PositiveSpec` | backend/routes/leaderboard.js:32 | it keeps exactly the rows with positive XP, each with its multiplicity |
| `LeaderboardRoutes.InsertDesc` | backend/routes/leaderboard.js:33 | inserting into a descending list keeps it descending and adds exactly that row |
| `LeaderboardRoutes.InsertDescTail` | backend/routes/leaderboard.js:33 | an entry smaller than all others can follow the insertion |
| `LeaderboardRoutes.SortDesc` | backend/routes/leaderboard.js:33 | `ORDER BY total_xp DESC` is a descending permutation of its input |
| `LeaderboardRoutes.Limited` | backend/routes/leaderboard.js:34 | `LIMIT n` is the first min(n, len) rows, or all of them for a negative n |
| `LeaderboardRoutes.Ranked` | backend/routes/leaderboard.js:37-48 | entry i has rank i+1 and the summary's accuracy and level |
| `LeaderboardRoutes.LeaderboardShape` | backend/routes/leaderboard.js:17-53 | only positive totals, highest first, ranks 1..n, at most a positive limit, level and accuracy by the summary formulas |
| `LeaderboardRoutes.LimitedTop` | backend/routes/leaderboard.js:33-34 | cutting a descending list keeps its first rows, each at least every row cut off, and keeps all of it for a negative or large enough limit |
| `LeaderboardRoutes.SortedPositive` | backend/routes/leaderboard.js:32-33 | ordering the rows that passed `HAVING total_xp > 0` keeps every one of them positive |
| `LeaderboardRoutes.RankedShape` | backend/routes/leaderboard.js:37-49 | numbering descending positive rows gives ranks 1..n, the summary formulas for level and accuracy, and descending totals |
| `LeaderboardRoutes.LeaderboardIsTop` | backend/routes/leaderboard.js:32-34 | the listed rows are the first of a descending permutation of all positive players, so nobody left out outranks anybody listed; a negative or large enough limit lists all |
| `LeaderboardRoutes.PositivePlayersRanked` | backend/routes/leaderboard.js:28-33 | every player with positive XP is in the ranking before the limit |
| `App.LastFive` | frontend/src/App.jsx:565 | the window is the last min(5, n) answers, newest last |
| `App.CountCorrect` | frontend/src/App.jsx:567 | the count of right answers is at most the window's size |
| `App.NextDifficultyStep` | frontend/src/App.jsx:566-588 | the new difficulty is within 1 of the old, rises only from below 5 and falls only from above 1, so 1..5 is kept |
| `App.FourOfFiveRaises` | frontend/src/App.jsx:572-574 | 4 or more right out of 5 raises a difficulty below 5 by one |
| `App.TwoOfFiveLowers` | frontend/src/App.jsx:576-578 | 2 or fewer right out of 5 lowers a difficulty above 1 by one |
| `App.ShortWindowKeeps` | frontend/src/App.jsx:580-587 | with fewer than 3 answers the difficulty stays |
| `App.DifficultyState.constructor` | frontend/src/App.jsx:272-274 | the hook starts with no answers, difficulty 1 and no change shown |
| `App.DifficultyState.UpdateDifficulty` | frontend/src/App.jsx:564-597 | the window becomes the last 5 answers with the new one last; the difficulty follows the rules and stays in 1..5; the result is 'up' or 'down' exactly when it rose or fell, and null otherwise |
| `App.FindFirstOfType` | frontend/src/App.jsx:542 | `progress.find` gives the first row of the type (every earlier row has another type), or none exists |
| `App.CalculateAgreesOnFullWindow` | frontend/src/App.jsx:530-537 | (`calculateDifficulty` is never called in App.jsx) when a five-answer rule fires, `calculateDifficulty` agrees with `updateDifficulty`'s rule |
| `App.CalculateDifficultyOutcome` | frontend/src/App.jsx:526-559 | (`calculateDifficulty` is never called in App.jsx) the result is within 1 of the current difficulty, or the stored difficulty of the type's row, or 1 |
| `App.CountObjects` | frontend/src/App.jsx:630-634 | the count lies in [3 + 2(d-1), 5 + 2d] |
| `App.CountObjectsCovers` | frontend/src/App.jsx:630-634 | every count in that range can be drawn |
| `App.LastChar` | frontend/src/App.jsx:202 | `digit.slice(-1)` is the keystroke's last character, or empty |
| `App.PinAfterKeystroke` | frontend/src/App.jsx:198-204 | a non-digit keystroke changes nothing; otherwise an all-digit PIN stays all digits and no longer than `length` |
| `App.KeystrokeReplaces` | frontend/src/App.jsx:201-203 | within the PIN, exactly the edited position changes, to the keystroke's last digit, and an empty keystroke deletes the position |
| `App.ConcatAppend` | frontend/src/App.jsx:203 | joining a concatenation is concatenating the joins |
| `App.ConcatSingles` | frontend/src/App.jsx:201-203 | joining a string split into characters gives it back |
| `App.ConcatEmpties` | frontend/src/App.jsx:202-203 | the holes of a sparse array join as empty strings |
| `App.JoinAssigned` | frontend/src/App.jsx:201-203 | joining the split array after the assignment is the edited PIN |
| `App.HandleChange` | frontend/src/App.jsx:198-204 | the in-place edit of the split array, joined and cut, is exactly the specified keystroke result, and nothing for a non-digit |
| `App.DigitsOf` | frontend/src/App.jsx:219 | `replace(/\D/g, '')` leaves only digits and never grows the text |
| `App.DigitsOfSpec` | frontend/src/App.jsx:219 | stripping keeps an all-digit text as it is and otherwise keeps the digits in order |
| `App.HandlePaste` | frontend/src/App.jsx:217-221 | a pasted PIN is all digits, the first min(length, #digits) digits of the paste |
| `Server.ServerMixedTypes` | backend/server.js:393-397 | the server's mixed chooses among 2 to 4 types |
| `Server.ServerGetProblemSpec` | backend/server.js:354-405 | 400 exactly on an unknown type; mixed redirects with the difficulty text to an allowed type (multiplication from 2, division from 3); a NaN difficulty gives a NaN problem; a non-zero one serves `generateProblem`'s problem |
| `Server.ServerZeroDifficultySubtraction` | backend/server.js:356-376 | as written, difficulty "0" serves subtraction 0 - 1 with answer -1, whatever the draws |
| `Server.ServerGetProblemCorrectedSpec` | backend/server.js:354-405 | with `\|\| 1`, the handler never serves a NaN problem, serves the module route's problem for every concrete type, and no subtraction at a non-negative or unparseable difficulty is negative |
| `Server.ServerSubmitProgressAgrees` | backend/server.js:516-558 | the server's inline XP writes the same progress rows as `calculateXPGained`: 10·d on a fresh row is the streak formula at streak 1 |
| `Server.InlineAchievementChecks` | backend/server.js:573-583 | the inline table has one (achievement, condition) pair per check, 9 in all; what each pair computes is stated by `Server.InlineChecksAreCatalogue` |
| `Server.InlineChecksAreCatalogue` | backend/server.js:573-583 | the inline table is the catalogue, each condition evaluated as the catalogue's predicate |
| `Server.FiredMatchesWalk` | backend/server.js:585-599 | checks that pair each achievement with its own evaluated condition fire, on every prefix, what the catalogue walk unlocks |
| `Server.FiredIsNewAchievements` | backend/server.js:585-599 | what the inline loop pushes is what `checkAchievements` unlocks |
| `Server.FiredFrom` | backend/server.js:585-599 | every achievement the loop pushes comes from an entry of the checks |
| `Server.FiredRecordedBefore` | backend/server.js:585-599 | during the inline loop, an id is found recorded iff it was recorded before the loop |
| `Server.FiredWalk` | backend/server.js:585-599 | over any checks with distinct ids, the loop pushes exactly the checks whose condition is true and whose id the player did not hold, in order, and records exactly those pairs; nothing else changes |
| `Server.ServerCheckAchievements` | backend/server.js:573-599 | the inline loop fires each id at most once per player, returns the new achievements in order and records exactly those |
| `Server.ServerSubmit` | backend/server.js:480-610 | the server's `/api/submit` has the module route's guards, each with every table unchanged (a null answer throws and server.js sends no response; on Node 15 or later the process exits), and otherwise the module route's outcome `AnswerRecorded` |
| `Server.ServerWriteAnswer` | backend/server.js:485-558 | history, fast answers, then the inline progress update: the same history row, counter and progress rows as the module route, and no other table touched |
| `Server.ServerRecordAnswer` | backend/server.js:485-609 | the server's writes, in its own order, answer and leave the store exactly as `AnswerRecorded` states for the module route |
| `Server.ServerCreditRightAnswer` | backend/server.js:714-748 | the server's single update with both bonuses has the module route's writes |
| `Server.ServerAcceptRightAnswer` | backend/server.js:709-761 | the server's right-answer branch reaches the module route's outcome |
| `Server.ServerSubmitDaily` | backend/server.js:676-762 | no row or a completed row is a 400 with no write; the problem at problems_completed is regenerated inline; a null answer throws before any write and server.js sends no response, and on Node 15 or later the process exits (an unreachable negative count gets the same outcome); wrong changes nothing; right is credited as in the module route |
| `Server.ServerChecksSameProblem` | backend/server.js:692-707 | on the counts the handlers keep, the regenerated problem is the one `getDailyChallengeProblem` returns |
| `Server.NonZero` | backend/server.js:888 | skipping zero totals leaves only non-zero totals |
| `Server.NonZeroIsPositive` | backend/server.js:888 | with no negative totals, skipping zero is the SQL's `HAVING total_xp > 0` |
| `Server.ServerGetLeaderboard` | backend/server.js:871-911 | the loop, sort, slice and ranks give exactly the specified leaderboard |
| `Server.AggregateSnoc` | backend/server.js:880-904 | the loop's list after one more player is the aggregate of one more player |
| `Server.ServerLeaderboardAgrees` | backend/server.js:871-911 | with no negative totals and a positive limit, the server's leaderboard is the module route's |
| `Server.NegativeLimitDiffers` | backend/server.js:908 | limit -1 is where the two differ: SQLite lists the one player with XP, while `slice(0, -1)` lists nobody |


### Specification functions

These members model a source function or expression directly and carry no postcondition of their own; each is pinned down by the members listed after it, which have rows above.

- `JsBuiltins.ParseInt` (backend/utils/problemService.js:18, `parseInt`): `JsBuiltins.ParseShow`, `JsBuiltins.ParseIntOfDigits`, `JsBuiltins.ParseIntOfSigned`, `JsBuiltins.ParseIntNaN`.
- `JsBuiltins.TrimStart`, `JsBuiltins.TrimEnd`, `JsBuiltins.Trim` (backend/utils/helpers.js:122, `String#trim`): `JsBuiltins.TrimStartSplits`, `JsBuiltins.TrimEndPrefix`, `JsBuiltins.TrimEndSplits`, `JsBuiltins.TrimSplits`, `JsBuiltins.TrimOfPadded`, `JsBuiltins.TrimIdempotent`.
- `Helpers.SourceStep` (backend/utils/helpers.js:56-57): `Helpers.SourceStepIsHashStep`.
- `Helpers.IsValidUsername` (backend/utils/helpers.js:108-111): `Helpers.UsernameIff`.
- `Helpers.IsValidEmail` (backend/utils/helpers.js:98-101): `Helpers.EmailIff`.
- `Helpers.SanitizeString` (backend/utils/helpers.js:118-123): `Helpers.SanitizeStrips`, `Helpers.SanitizeIdempotent`.
- `Constants.Holds` (backend/utils/constants.js:67-75, the achievement `condition` lambdas): `Constants.CounterConditionsUpwardClosed`, `Constants.OnlySpeedDemonIsTimed`.
- `ProblemService.GenerateProblem` (backend/utils/problemService.js:16-75): `ProblemService.GenerateProblemOutcome`, `ProblemService.AdditionBounds`, `ProblemService.SubtractionNonNegative`, `ProblemService.MultiplicationBounds`, `ProblemService.DivisionExact`, `ProblemService.MixedChoosesAllowedType`.
- `ProblemService.AnswerText` (backend/utils/problemService.js:67): `ProblemService.AnswerTextFaithful`.
- `ProblemService.DailyProblems` (backend/utils/problemService.js:82-128): `ProblemService.GenerateDailyChallengeProblems`, `ProblemService.DailyProblemsShape`, `ProblemService.DailyEntryShape`, `ProblemService.DailyOperands`.
- `ProblemService.GetDailyChallengeProblem` (backend/utils/problemService.js:136-144): `ProblemService.GetDailyChallengeProblemSpec`.
- `AchievementService.CalculateXPGained` (backend/utils/achievementService.js:57-63): `AchievementService.NoXpWhenWrong`, `AchievementService.XpStreakSteps`, `AchievementService.XpMonotoneInStreak`.
- `AchievementService.NewAchievementsIn`, `AchievementService.NewAchievements` (backend/utils/achievementService.js:20-39): `AchievementService.NewAchievementsInSpec`, `AchievementService.NewAchievementsInOrder`, `AchievementService.AchievementWalk`, `AchievementService.SecondCallUnlocksNothing`.
- `AvatarService.GetPlayerStats` (backend/utils/avatarService.js:15-43): `AvatarService.PlayerStatsSound`, `PlayerRoutes.SummaryAgreesWithPlayerStats`.
- `AvatarService.ShouldUnlock` (backend/utils/avatarService.js:67-88): `AvatarService.NewAvatarsInSpec`, `AvatarService.AlienNeedsFiftyAnswers`, `AvatarRoutes.ProgressMatchesRequirement`.
- `AvatarService.NewAvatarsIn`, `AvatarService.NewAvatars` (backend/utils/avatarService.js:55-89): `AvatarService.NewAvatarsInSpec`, `AvatarService.NewAvatarsInOrder`, `AvatarService.StartersNeverReturned`, `AvatarService.UnlockWalk`, `AvatarService.SecondCheckUnlocksNothing`.
- `ProblemRoutes.GetProblem` (backend/routes/problems.js:20-31): `ProblemRoutes.GetProblemSpec`.
- `ProblemRoutes.AnswersMatch` (backend/routes/problems.js:44): `ProblemRoutes.AnswersMatchSpec`, `ProblemRoutes.AnswerOfNumber`.
- `ProblemRoutes.SubmitProgress` (backend/routes/problems.js:53-75): `ProblemRoutes.SubmitProgressFresh`, `ProblemRoutes.SubmitProgressExisting`, `ProblemRoutes.SubmitProgressKeepsValid`.
- `DailyChallengeRoutes.ViewOf` (backend/routes/dailyChallenge.js:52-53): `DailyChallengeRoutes.ViewSpec`, `DailyChallengeRoutes.NegativeCountView`, `DailyChallengeRoutes.FreshView`.
- `DailyChallengeRoutes.DailyAnswerMatches` (backend/routes/dailyChallenge.js:86): `DailyChallengeRoutes.DailyAnswerOfNumber`.
- `DailyChallengeRoutes.AddXp` (backend/routes/dailyChallenge.js:104-109): `DailyChallengeRoutes.AddXpSpec`.
- `DailyChallengeRoutes.UpdateXp` (backend/routes/dailyChallenge.js:112-119): `DailyChallengeRoutes.UpdateAfterAdd`.
- `AvatarRoutes.CurrentStat`, `AvatarRoutes.ListEntry` (backend/routes/avatars.js:28-57): `AvatarRoutes.ListingOf`, `AvatarRoutes.ProgressMatchesRequirement`.
- `AvatarRoutes.GetAvatars` (backend/routes/avatars.js:19-66): it is `AvatarRoutes.ListingOf` of the catalogue against `AvatarService.GetPlayerStats`; stated by `AvatarRoutes.ListingOf` and `AvatarRoutes.LockedAfterCheckIsUnmet`.
- `PlayerRoutes.SummaryOf` (backend/routes/players.js:41-55): `PlayerRoutes.SummarySound`, `PlayerRoutes.SummaryAgreesWithPlayerStats`.
- `LeaderboardRoutes.TopperOf` (backend/routes/leaderboard.js:20-31): `LeaderboardRoutes.Aggregate`, `LeaderboardRoutes.PositivePlayersRanked`.
- `LeaderboardRoutes.Toppers` (backend/routes/leaderboard.js:20-35): `LeaderboardRoutes.LeaderboardShape`, `LeaderboardRoutes.LeaderboardIsTop`, `LeaderboardRoutes.PositivePlayersRanked`.
- `LeaderboardRoutes.EntryOf` (backend/routes/leaderboard.js:37-48): `LeaderboardRoutes.Ranked`.
- `LeaderboardRoutes.GetLeaderboard` (backend/routes/leaderboard.js:17-53): `LeaderboardRoutes.LeaderboardShape`, `LeaderboardRoutes.LeaderboardIsTop`, `Server.ServerLeaderboardAgrees`.
- `App.NextDifficulty` (frontend/src/App.jsx:566-588): `App.NextDifficultyStep`, `App.FourOfFiveRaises`, `App.TwoOfFiveLowers`, `App.ShortWindowKeeps`.
- `App.CalculateDifficulty` (frontend/src/App.jsx:526-559): `App.CalculateAgreesOnFullWindow`, `App.CalculateDifficultyOutcome`.
- `Server.ServerGetProblem`, `Server.ServerProblemFor` (backend/server.js:354-405): `Server.ServerGetProblemSpec`, `Server.ServerZeroDifficultySubtraction`.
- `Server.ServerGetProblemCorrected` (backend/server.js:354-405 with the `|| 1` of backend/utils/problemService.js:18): `Server.ServerGetProblemCorrectedSpec`.
- `Server.ServerSubmitProgress` (backend/server.js:516-558): `Server.ServerSubmitProgressAgrees`.
- `Server.Fired` (backend/server.js:585-599): `Server.FiredIsNewAchievements`, `Server.FiredRecordedBefore`, `Server.FiredWalk`.
- `Server.ServerLeaderboardOf` (backend/server.js:871-911): `Server.ServerGetLeaderboard`, `Server.ServerLeaderboardAgrees`, `Server.NegativeLimitDiffers`.

## Left out

- The clock. `getTodayDate` and `getSessionExpirationDate` are not part of this model; handlers take `today` as a parameter.
- `Math.random`. It is replaced by arbitrary draws `rand(k)`; no distribution is claimed.
- The daily streak walk over `Date` objects, and with it the daily stats routes (backend/routes/dailyChallenge.js:148-183, backend/server.js:764-805).
- I/O and services. Authentication (tokens, PIN hashing), middleware, logging, the sql.js and Supabase I/O, CORS, static serving and `getLocalIP` are not part of this model. `req.player.id` is taken as given.
- Concurrency. Each handler is one atomic step; read-modify-write races between requests are not modelled.
- Catch and database-error paths. Every query is taken to succeed: null from a failed query, and `|| 0` on null columns, are not modelled.
- The `GET /` player list (backend/routes/players.js:17-20, backend/server.js:296-303). It is a plain query with `ORDER BY username` and no logic.
- `GET /api/players/:id/stats` in backend/server.js:305-351 is not modelled separately. Its summary is the same arithmetic over the same rows as `PlayerRoutes.GetPlayerStatsRoute`, but the lookup differs: the server passes the raw id text to `.eq('id', id)` with no `parseInt`, so an id such as `"12abc"` or `"1.5"`, which the module route reads as player 12 or 1, fails the Postgres cast there and answers 404. That id-parsing difference, and the `|| 0` fallbacks on null columns in its sums, are not modelled.
- Database ordering:
  - history rows are taken to be appended in time order, so `ORDER BY created_at DESC` is the reverse of insertion;
  - SQLite's order of equal leaderboard totals is unspecified; the model keeps player order among them;
  - the server's Supabase `players` select has no ORDER BY, so its order, which decides ties in `Server.ServerGetLeaderboard`'s stable sort, is taken to be the players table's order.
- The UI side of App.jsx: rendering, sound, timers, fetch calls, localStorage and animal popups.
  - The `setTimeout` that resets `difficultyChange` after 2 seconds is not modelled.
  - `handleKeyDown` and the focus moves in `PinInput` are not modelled.
- AvatarService.Accuracy: `Math.round` over the float `correct / total * 100` is idealised as integer round-half-up, floor((200c + t) / (2t)). Float rounding at exact halves is not modelled.
- JSON coercions. The response bodies are values, not JSON.
  - The history row stores `ToJsString` of the request's `correctAnswer` and `userAnswer`. The source inserts the raw values and lets the store convert them (SQLite's TEXT affinity stores a boolean `true` as "1", where the model stores "true"); that store-side conversion of non-string answers is not modelled.
  - The daily `completed` column is kept as a boolean, not as the 0/1 that SQLite stores.
  - The server's `correctAnswer` is shown as text, not as a number.
- The catalogue size. backend/utils/constants.js lists 23 avatars, not 22 as its surrounding description suggests; the model follows the code.
- Both avatar catalogues (backend/utils/constants.js:9-11 and backend/server.js:42-44) carry an `unlocked: true` flag on the starters. Neither flag is modelled; the listings compute `unlocked` themselves.
- Server.ServerSubmitDaily:
  - a negative `problems_completed` is unreachable, since counts start at 0 and only increase; its behaviour is not modelled, and the model gives it the crash answer;
  - a row whose count is 5 or more while `completed` is false is regenerated at that index, since the server has no index gate;
  - NaN draws are not modelled.
- Negative difficulties. `parseInt("-1") || 1` is -1, so on both `/problem` routes a negative difficulty can still give a negative subtraction answer (for -1 and draws of 0: -1 - 1 = -2); the subtraction bound is proved for d ≥ 1 only.
- Number width. Numbers are unbounded integers: JavaScript doubles beyond 2^53 (long digit strings in query parameters such as `difficulty` or `limit`, huge XP sums, `diff * 10`) and the exponent form of `toString` from 1e21 on are not modelled. Only the seeded daily arithmetic is shown to stay exact (`ProblemService.DailyArithmeticExact`).
- Server.ServerSubmit and Server.ServerSubmitDaily: server.js wraps its handlers in no `asyncHandler` and installs no error middleware, so there the shared `Crashed` / `DailyCrashed` outcome stands for a handler that throws and leaves the request unanswered, not for the 500 that the module routes send. No `unhandledRejection` handler is installed either, so on Node 15 or later that rejection ends the whole server process; the process and its other requests are not modelled.
- ProblemRoutes.Submit and Server.ServerSubmit: the request's `difficulty` and `timeMs` are taken to be present numbers. An absent one (which would give NaN XP, or `undefined < 2000` being false for the fast-answer count) is not modelled.
- App.CalculateDifficulty: `calculateDifficulty` (frontend/src/App.jsx:526-559) is defined but never called; the problems the client requests use `getDifficulty` (frontend/src/App.jsx:561, called at line 506), which returns the `currentDifficulty` state `App.DifficultyState.UpdateDifficulty` maintains. The model of `calculateDifficulty` and its lemmas describe dead code, not live client behaviour.
- App.HandlePaste: `length` is taken as non-negative. The component is only used with its default of 4.
- App.HandleChange: the index is taken as non-negative, as an index of the rendered inputs always is.
- Specification functions carry no postcondition of their own; what each computes is stated by the members named beside it under "### Specification functions".

## Findings

| source | as written | input that shows it | evidently intended | confidence | as-written member | corrected member |
|---|---|---|---|---|---|---|
| backend/server.js:356-376 | `parseInt(difficulty)` with no fallback, so difficulty 0 reaches the arithmetic | `GET /api/problem?type=subtraction&difficulty=0` draws a = floor(r·0) + 0 = 0 and b = floor(r·min(0, 0)) + 1 = 1, the problem 0 - 1 with answer -1 | `parseInt(difficulty) \|\| 1`, as backend/utils/problemService.js:18 does, so subtraction is never negative for a difficulty of 0 or more or an unparseable one | not executed | `Server.ServerZeroDifficultySubtraction` | `Server.ServerGetProblemCorrectedSpec` |

The server also differs from the module routes in ways that follow from its code rather than from a slip:

- Its leaderboard skips only zero totals, so a negative total would be listed.
  `slice(0, limit)` drops rows for a negative limit where SQLite lists them all
  (`Server.NegativeLimitDiffers`).
- Its daily submit has no "Invalid problem index" gate.
