# Word-chain puzzle: a verified model of its core

The system is a Reddit (Devvit) word-chain puzzle. Each day has a puzzle: a chain of words
in which the player guesses the middle words one letter slot at a time. The server side keeps
per-user progress in Redis and two daily leaderboards. A scheduled job awards streak flair.

This Dafny project models the parts of the system that hold logic:

- **user progress** (`server/UserService.tsx`):
  - the solved-day lists and the solved counts;
  - the streak, the longest streak and the last-solved day;
  - the daily streak transition.
- **the leaderboards** (`server/LeaderboardService.ts`): absolute upserts of the daily-total and
  streak scores, and the top-N range query.
- **streak flair** (`src/jobs/userFlair.ts`): the tier table, the first-match tier lookup, and
  the upgrade-only decision of the `USER_STREAK_UP` job.
- **day identifiers and puzzle lookup** (`server/serverUtils.tsx`): the unpadded `M-D-YYYY`
  identifier, read back by the streak code, and the table lookup.
- **the bitmap font** (`src/custFonts.tsx`): the loop that turns a line into positioned glyph
  paths and a width.
- **the client game state**:
  - the letter-slot components (`src/components/GuessInput.tsx`,
    `game/components/GuessInput.tsx`);
  - the guess pages (`src/pages/GuessPage.tsx`, `game/pages/GuessPage.tsx`);
  - the guess form (`src/components/GuessForm.tsx`).

How each part is modelled:

- Shared store:
  - The Redis store is the class `Redis.Store`. Its fields are typed maps from user to field
    value.
  - A service method that changes the store is verified against a pure transition function on
    a `StoreState` snapshot, e.g. `Users.StreakUpdate` or `Leaderboards.UpdateAll`.
  - Lemmas about those functions state what the source promises.
- React components: each one is a class whose fields are its `useState` variables. Each
  callback is a method.
- JavaScript semantics that the code relies on are written out:
  - truthiness (`!flair.max` is true for 0);
  - `undefined` elements and holes (`Option`);
  - out-of-range array assignment (`JsArrays.JsAssign`);
  - a negative Redis stop index;
  - `toUpperCase`.

Inputs the source takes from the environment are parameters:

- "today", which stands for `new Date()`;
- the parsed `Date`, which stands for `new Date(createdAt)`;
- the current subreddit's name;
- whether a scheduler is present;
- the puzzle table;
- the saved flair ranks.

One module per source file. The shared helper modules are:

- `Results`: `Option`, `Result` and `Outcome`;
- `Calendar`: Gregorian dates, yesterday and tomorrow;
- `DayKeys`: printing and parsing day identifiers;
- `JsText`: `toUpperCase`;
- `JsArrays`: array assignment;
- `Redis`: the store.

## Model

| member | source | states |
|---|---|---|
| `Redis.Store.constructor` | server/ServiceBase.ts:20-40 | the store starts with every field missing, both boards empty and no job queued |
| `Redis.Store.State` | server/ServiceBase.ts:20-40 | definition: the whole store read as one `StoreState` value, which the service contracts are stated on |
| `Users.UserService.GetUserStreak` | server/UserService.tsx:10-18 | rejects exactly the empty username; otherwise the stored streak, 0 when the field is missing |
| `Users.UserService.GetUserLongestStreak` | server/UserService.tsx:26-34 | rejects exactly the empty username; otherwise the stored longest streak, 0 when missing |
| `Users.UserService.GetUserDailySolvedCount` | server/UserService.tsx:42-50 | rejects exactly the empty username; otherwise the loop's sum equals `Total` of all per-day counts, 0 with no buckets |
| `Users.UserService.GetUserLastSolved` | server/UserService.tsx:58-66 | rejects exactly the empty username; otherwise the stored date, '' when missing |
| `Users.UserService.AddUserGeneratedSolvedPuzzle` | server/UserService.tsx:68-80 | fails exactly for an empty username or puzzle id; the new store is `AddGeneratedSolved` of the old one |
| `Users.UserService.GetUserGeneratedSolvedPuzzleList` | server/UserService.tsx:82-90 | rejects exactly the empty username; otherwise the stored list, empty when missing |
| `Users.UserService.GetUserGeneratedPuzzleSolvedCount` | server/UserService.tsx:92-98 | the length of the stored list, 0 for a user with none; no username check |
| `Users.UserService.AddDailySolvedPuzzle` | server/UserService.tsx:110-122 | fails exactly for an empty username or day; the new store is `AddDailySolved` of the old one |
| `Users.UserService.UpdateUserDailySolvedStats` | server/UserService.tsx:131-151 | fails exactly for an empty username or day; the new store is `DailySolvedStats` of the old one |
| `Users.UserService.HandleStreakUpdate` | server/UserService.tsx:158-206 | the field-by-field Redis updates produce exactly `StreakUpdate` of the old store |
| `Users.UserService.GetDailySolvedPuzzles` | server/UserService.tsx:214-222 | rejects exactly the empty username; otherwise the stored day list, empty when missing |
| `Users.Field` | server/UserService.tsx:16 | definition of an `hGet`: the stored value, or missing; what reads promise is stated by `Users.ReadAfterWrite` |
| `Users.ReadAfterWrite` | server/UserService.tsx:16-195 | a field reads back the last value written for that user; a write for another user does not change it; a user never written reads as missing |
| `Users.StoredList` | server/UserService.tsx:89 | definition: a JSON list field, empty when missing; stated by `Users.ListAfterWrite` |
| `Users.ListAfterWrite` | server/UserService.tsx:116-120 | a list field reads back the list last written for that user, other users are unaffected, a new user reads as the empty list |
| `Users.StoredCount` | server/UserService.tsx:17 | definition: a numeric field, 0 when missing; stated by `Users.CountAfterWrite` |
| `Users.CountAfterWrite` | server/UserService.tsx:183-195 | a count field reads back the number last written for that user, other users are unaffected, a new user reads as 0 |
| `Users.JobRuns` | server/UserService.tsx:198-199 | definition: the job is scheduled only when the subreddit name is truthy and a scheduler is present; used by `Users.StreakUpdateFrame` |
| `Users.InvalidArguments` | server/UserService.tsx:69 | definition of `!username || !puzzleId` (and `!puzzleDay` at :111 and :132); used by `Users.InvalidArgumentsChangeNothing` |
| `Users.AddIfAbsent` | server/UserService.tsx:118-121 | the old list is a prefix; the result holds exactly the old elements and `x`; it grows by one only when `x` was new |
| `Users.AddIfAbsentIdempotent` | server/UserService.tsx:118-121 | adding an element twice is adding it once |
| `Users.AddIfAbsentKeepsNoDuplicates` | server/UserService.tsx:118-121 | an add never introduces a duplicate |
| `Users.Total` | server/UserService.tsx:49 | the `reduce` over the counts, as a left fold from 0 |
| `Users.TotalConcat` | server/UserService.tsx:49 | the total of two runs of buckets is the sum of their totals |
| `Users.TotalPermutation` | server/UserService.tsx:48-49 | the total does not depend on the order `hGetAll` returns the fields in |
| `Users.LastSolvedDay` | server/UserService.tsx:160-161 | a missing or empty date is `new Date(0)`; otherwise the stored identifier read back |
| `Users.NewStreak` | server/UserService.tsx:166-179 | stored streak + 1 when the last solve was yesterday, else 1 |
| `Users.StreakTransition` | server/UserService.tsx:177-195 | the new streak, longest raised to it when larger, last solved set to today's identifier |
| `Users.StreakUpdate` | server/UserService.tsx:158-206 | the transition for one user in the whole store, plus one job when a subreddit and scheduler are known |
| `Users.DailySolvedStats` | server/UserService.tsx:131-150 | the streak update runs only for a valid call whose puzzle day is today's identifier |
| `Users.AddDailySolved` | server/UserService.tsx:110-122 | `addDailySolvedPuzzle` on the whole store |
| `Users.AddGeneratedSolved` | server/UserService.tsx:68-80 | `addUserGeneratedSolvedPuzzle` on the whole store |
| `Users.StreakUpdateIsTransition` | server/UserService.tsx:177-195 | the whole-store update acts on the user's streak, longest and last-solved fields exactly as the per-user transition |
| `Users.StreakAfterStoredDay` | server/UserService.tsx:161-179 | with a stored day identifier, the streak continues iff that day is yesterday, else resets to 1 |
| `Users.FirstSolveStartsAtOne` | server/UserService.tsx:161-179 | with no history the new streak is 1 (today not 1-2-1970) |
| `Users.EpochCountsAsYesterday` | server/UserService.tsx:161 | no history on 1-2-1970 continues the stored streak, since `new Date(0)` is "yesterday" |
| `Users.TransitionKeepsLongest` | server/UserService.tsx:187-195 | longest = max(old longest, new streak), so longest >= streak; last solved = today |
| `Users.ConsecutiveDaysContinue` | server/UserService.tsx:166-179 | solving on consecutive days adds one to the streak |
| `Users.MissedDayResets` | server/UserService.tsx:166-184 | skipping a day resets the streak to 1 |
| `Users.StreakScenario` | server/UserService.tsx:177-192 | solves on days D, D+1 and D+3 give streaks 1, 2, 1 with longest 1, 2, 2 |
| `Users.Replay` | server/UserService.tsx:158-195 | the transition applied for each solved day in turn |
| `Users.ReplayLongestGrows` | server/UserService.tsx:187-192 | the longest streak never decreases along a run of solves |
| `Users.LongestDominatesHistory` | server/UserService.tsx:187-192 | after a run of solves, the longest streak is at least every streak seen along the way |
| `Users.StreakUpdateFrame` | server/UserService.tsx:158-206 | only the user's three streak fields and the job queue change; exactly one job, carrying the new streak, when a subreddit and scheduler are known |
| `Users.OtherDayChangesNothing` | server/UserService.tsx:136-150 | a solve for any day but today's identifier leaves the store unchanged |
| `Users.SecondSolveSameDayResets` | server/UserService.tsx:131-195 | with the already-solved guard (:140-146) commented out, a second solve on the same day resets the streak to 1, keeps the longest streak (raised only if it was below 1) and schedules another job |
| `Users.FirstDailySolve` | server/UserService.tsx:131-206 | a new user's solve today gives streak 1, longest 1, last solved today, one job |
| `Users.DayKeyExample` | server/UserService.tsx:137 | 1 June 2025 is written "6-1-2025" |
| `Users.NextDayExample` | server/UserService.tsx:161-179 | streak 5 last solved "6-1-2025" becomes 6 on 6-2-2025 |
| `Users.GapExample` | server/UserService.tsx:161-179 | last solved "6-1-2025", a solve on 6-5-2025 gives 1 |
| `Users.AddDailySolvedIdempotent` | server/UserService.tsx:115-121 | adding a solved day twice is adding it once |
| `Users.AddDailySolvedAppendsOnce` | server/UserService.tsx:115-121 | an absent day is appended at the end once; a present one changes nothing; no duplicates appear; nothing else in the store changes |
| `Users.AddGeneratedSolvedAppendsOnce` | server/UserService.tsx:73-79 | for user-generated puzzle ids: appended once at the end when absent, a second add changes nothing, a list without duplicates stays so, and no other user's list or other store field changes |
| `Users.InvalidArgumentsChangeNothing` | server/UserService.tsx:110-134 | an empty username, day or puzzle id leaves the store unchanged in all three writers |
| `Calendar.DaysInMonth` | server/UserService.tsx:168 | 28 to 31 days; February has 29 exactly in leap years |
| `Calendar.Predecessor` | server/UserService.tsx:166-168 | yesterday is a valid date different from today |
| `Calendar.Successor` | server/UserService.tsx:166-168 | tomorrow is a valid date different from today |
| `Calendar.PredecessorOfSuccessor` | server/UserService.tsx:166-173 | yesterday of tomorrow is today |
| `Calendar.SuccessorOfPredecessor` | server/UserService.tsx:166-173 | tomorrow of yesterday is today |
| `Calendar.SuccessorIsInjective` | server/UserService.tsx:166-173 | each day has exactly one yesterday |
| `DayKeys.NatToString` | server/serverUtils.tsx:19 | decimal digits, no leading zero |
| `DayKeys.DayKey` | server/serverUtils.tsx:19 | `month-day-year`, starting with a digit |
| `DayKeys.ParseNat` | server/UserService.tsx:161 | definition: a field of digits read as a number; stated by `DayKeys.ParseNatOfNatToString` and `DayKeys.ParseNatRejects` |
| `DayKeys.ParseNatRejects` | server/UserService.tsx:161 | an empty field, or one holding a non-digit, reads as no number |
| `DayKeys.ParseDayKey` | server/UserService.tsx:161 | reading an identifier back yields only real calendar days |
| `DayKeys.DigitsOfNatToString` | server/UserService.tsx:161 | the digits of a printed number have that number's value |
| `DayKeys.ParseNatOfNatToString` | server/UserService.tsx:161 | reading back a printed number gives the number |
| `DayKeys.SplitDayKey` | server/UserService.tsx:161 | splitting an identifier on '-' recovers the three printed fields |
| `DayKeys.ParseDayKeyRoundTrip` | server/UserService.tsx:161 | parsing the identifier of a day gives that day |
| `DayKeys.DayKeyInjective` | server/serverUtils.tsx:19 | two valid days have equal identifiers iff they are the same day |
| `ServerUtils.TargetDate` | server/serverUtils.tsx:19 | the key of a valid date reads back as exactly that day; the key of the invalid date reads back as no day |
| `ServerUtils.NaNKeyIsNoDay` | server/serverUtils.tsx:7-19 | "NaN-NaN-NaN" has three fields, none numeric, so it names no day |
| `ServerUtils.GetPuzzleByDate` | server/serverUtils.tsx:17-25 | definition of `data?.[targetDate]`, no default puzzle; stated by `ServerUtils.PublishedPuzzleIsServed` and `ServerUtils.SameDaySamePuzzle` |
| `ServerUtils.PublishedPuzzleIsServed` | server/serverUtils.tsx:17-25 | an entry added for day d is served on d at any time of day; the entries of every other day, and the invalid date's lookup, are as before |
| `ServerUtils.SameDaySamePuzzle` | server/serverUtils.tsx:19 | two instants on the same calendar day get the same puzzle |
| `ServerUtils.DifferentDaysDifferentKeys` | server/serverUtils.tsx:19 | different calendar days look up different keys |
| `ServerUtils.InvalidDateKeyIsNoDayKey` | server/serverUtils.tsx:7-19 | an invalid date never reads a real day's entry |
| `Leaderboards.DailyTotalScore` | server/LeaderboardService.ts:20-22 | stored solved-list length + 1, or 1 without a list |
| `Leaderboards.UpdateDaily` | server/LeaderboardService.ts:19-25 | `updateDailyLeaderboard` on the whole store |
| `Leaderboards.UpdateStreak` | server/LeaderboardService.ts:33-37 | `updateDailyStreakLeaderboard` on the whole store, nothing for an empty name |
| `Leaderboards.UpdateAll` | server/LeaderboardService.ts:43-47 | the daily board, then the streak board |
| `Leaderboards.UpdateAllIdempotent` | server/LeaderboardService.ts:43-47 | refreshing twice gives the store refreshing once gives |
| `Leaderboards.UpdateAllFrame` | server/LeaderboardService.ts:19-47 | the user's daily score is list length + 1 and, for a non-empty name, the streak score is the stored streak; other members keep their scores; no progress field changes |
| `Leaderboards.NewUserScores` | server/LeaderboardService.ts:19-37 | a user with no record scores 1 and 0 |
| `Leaderboards.RangeCount` | server/LeaderboardService.ts:57 | the count of ranks 0..limit-1, with Redis's negative stop index |
| `Leaderboards.RangeCountPositive` | server/LeaderboardService.ts:54-57 | for limit >= 1, min(limit, board size) entries, so at most `limit` |
| `Leaderboards.RangeCountZero` | server/LeaderboardService.ts:57 | a limit of 0 returns the whole board |
| `Leaderboards.HighestExists` | server/LeaderboardService.ts:56-57 | a non-empty set of members has one with the highest score |
| `Leaderboards.AppendHighest` | server/LeaderboardService.ts:56-61 | appending the highest remaining member keeps a top slice |
| `Leaderboards.TopN` | server/LeaderboardService.ts:54-61 | the selection loop returns exactly `RangeCount` entries: distinct members with their stored scores, non-increasing, none outscored by a member left out |
| `Leaderboards.LeaderboardService.constructor` | server/LeaderboardService.ts:9-12 | the inner `UserService` uses the same store |
| `Leaderboards.LeaderboardService.UpdateDailyLeaderboard` | server/LeaderboardService.ts:19-25 | the new store is `UpdateDaily` of the old one |
| `Leaderboards.LeaderboardService.UpdateDailyStreakLeaderboard` | server/LeaderboardService.ts:33-37 | fails exactly for an empty name; the new store is `UpdateStreak` of the old one |
| `Leaderboards.LeaderboardService.UpdateAllDailyLeaderboards` | server/LeaderboardService.ts:43-47 | fails exactly for an empty name; the new store is `UpdateAll` of the old one |
| `Leaderboards.LeaderboardService.GetDailyLeaderboard` | server/LeaderboardService.ts:54-62 | with limit 10 by default, `RangeCount` top entries of the daily board |
| `Leaderboards.LeaderboardService.GetDailyStreakLeaderboard` | server/LeaderboardService.ts:69-78 | with limit 10 by default, `RangeCount` top entries of the streak board |
| `Leaderboards.RefreshTwice` | server/LeaderboardService.ts:43-47 | two refreshes in a row leave the store one refresh leaves |
| `Flair.MaxIsFalsy` | src/jobs/userFlair.ts:66 | definition of `!flair.max`: true for a missing maximum and for 0; used by `Flair.EveryStreakIsNewbie` |
| `Flair.Matches` | src/jobs/userFlair.ts:66 | definition of the `find` callback; the lemmas of `Flair.FindFirst` and `Flair.GetFlairByStreak` state its use |
| `Flair.FindFirst` | src/jobs/userFlair.ts:65-69 | the first matching position in table order, none exactly when nothing matches |
| `Flair.GetFlairByStreak` | src/jobs/userFlair.ts:64-70 | a table tier matching the streak (0 when omitted), none iff no tier matches |
| `Flair.FlairTableShape` | src/jobs/userFlair.ts:5-61 | ranks 1..7 in order, increasing minimums, tiers 2-6 contiguous from 1 to 364, tier 7 from 365 unbounded |
| `Flair.OmittedStreakIsZero` | src/jobs/userFlair.ts:64 | an omitted streak is looked up as 0 |
| `Flair.EveryStreakIsNewbie` | src/jobs/userFlair.ts:5-70 | tier 1's falsy max 0 makes every streak >= 0 find "Newbie" |
| `Flair.NoTierIffNegative` | src/jobs/userFlair.ts:64-70 | no tier found iff the streak is negative |
| `Flair.TextColor` | src/jobs/userFlair.ts:112 | always "dark" or "light", and "dark" exactly for a tier whose colour is "dark" |
| `Flair.Upgrades` | src/jobs/userFlair.ts:93 | definition: the negation of the early-return guard; used by `Flair.Decide` |
| `Flair.Decide` | src/jobs/userFlair.ts:84-115 | nothing without data or a tier; an award only raises the saved rank; the message goes to the event's user and carries the event's streak as given, an omitted one being interpolated as "undefined" |
| `Flair.DecideAwardsTheTier` | src/jobs/userFlair.ts:97-115 | the award's rank is the looked-up tier's; the flair assignment is the whole `setUserFlair` call: the event's subreddit and user, the tier's name and background colour, and its text colour; the message goes to the event's user |
| `Flair.OnlyNewbieIsAwarded` | src/jobs/userFlair.ts:84-115 | for streaks >= 0 the job acts iff the saved rank is missing or below 1, and awards "Newbie" |
| `Flair.StreakUpJobAwardsNewbie` | src/jobs/userFlair.ts:84-115 | the job the streak update schedules carries a streak >= 1 and, run, awards only "Newbie" |
| `Flair.FlairJob.OnRun` | src/jobs/userFlair.ts:74-120 | message, flair and saved rank change exactly as `Decide` says; no saved rank decreases |
| `Fonts.InGlyphTable` | src/custFonts.tsx:78-368 | definition: the single-character keys of `Glyphs`; stated by `Fonts.GlyphCoverage` |
| `Fonts.GlyphWidth` | src/custFonts.tsx:78-368 | definition of `Glyphs[character].width`; stated by `Fonts.GlyphCoverage` |
| `Fonts.GlyphCoverage` | src/custFonts.tsx:78-368 | every glyph is 6 wide; upper-case letters and digits have a glyph; lower-case letters have none |
| `Fonts.StepCases` | src/custFonts.tsx:28-47 | a space only advances the pen by 7; a character without a glyph changes nothing; a drawn one adds its path at the pen and advances 7 |
| `Fonts.Step` | src/custFonts.tsx:28-47 | one iteration: a space advances 7, a missing glyph is skipped, a glyph emits a path and advances 7 |
| `Fonts.Run` | src/custFonts.tsx:23-47 | the loop over the line from the initial pen |
| `Fonts.LayoutOf` | src/custFonts.tsx:18-53 | one path per drawn character; the width is -1 exactly when nothing is drawn, else it ends at the last glyph's right edge, so it is at least 6; the height is 7; the scaled size is (width * size) by (7 * size) |
| `Fonts.PressStart2PFont` | src/custFonts.tsx:18-76 | the loop computes `LayoutOf` of the first child; size defaults to 2; no children gives nothing |
| `Fonts.RunShape` | src/custFonts.tsx:28-47 | one path per supported non-space character, in input order, strictly increasing offsets; width is the pen after the last glyph |
| `Fonts.RunGlyphs` | src/custFonts.tsx:28-47 | the paths name exactly the drawn characters, in input order |
| `Fonts.RunGeometry` | src/custFonts.tsx:28-50 | path offsets strictly increase and stay behind the pen; the width is 0 with no path, else the last path's right edge |
| `Fonts.TrailingSpacesIgnored` | src/custFonts.tsx:29-32 | trailing spaces change neither the paths nor the width |
| `Fonts.NothingDrawnWidth` | src/custFonts.tsx:23-50 | a line that draws no glyph is -1 wide |
| `Fonts.AllDrawnWidth` | src/custFonts.tsx:45-50 | n supported glyphs without spaces are 7n - 1 wide |
| `GuessInput.InitializeGuessList` | src/components/GuessInput.tsx:68-72 | n slots with pairwise distinct ids (the React keys) that spell the empty word |
| `GuessInput.InitialGuessList` | src/components/GuessInput.tsx:74-75 | one slot per letter, slot 0 holds answer[0], the rest ''; an empty answer throws |
| `GuessInput.InitialRevealed` | src/components/GuessInput.tsx:81-82 | definition: position 0 revealed; stated by `GuessInput.RevealedSlotsShowTheAnswer` |
| `GuessInput.RevealedSlotsShowTheAnswer` | src/components/GuessInput.tsx:74-84 | at the first render exactly one slot is revealed; a slot shows a letter exactly when it is revealed, and that letter is the answer's letter at that position |
| `GuessInput.NewIndex` | src/components/GuessInput.tsx:86-87 | clamps to [1, n-1], so for n >= 2 the given letter is never reached |
| `GuessInput.UpdateList` | src/components/GuessInput.tsx:92-95 | ids are kept; the values are the old values with the one at `itemId` replaced; an `itemId` naming no slot changes nothing |
| `GuessInput.Values` | src/components/GuessInput.tsx:107 | definition of `map((item) => item.value)`; used by `GuessInput.UpdateList` and `GuessInput.UpdatedWord` |
| `GuessInput.Concat` | src/components/GuessInput.tsx:107 | definition of `join('')` as a left fold; stated by `GuessInput.ConcatAppend` and `GuessInput.EmptyStrings` |
| `GuessInput.GuessedWord` | src/components/GuessInput.tsx:107 | the slot values joined in order |
| `GuessInput.ConcatAppend` | src/components/GuessInput.tsx:107 | joining two runs of strings is joining each and concatenating |
| `GuessInput.UpdatedWord` | src/components/GuessInput.tsx:92-107 | updating slot k changes only slot k's part of the guessed word |
| `GuessInput.SingleLetterWord` | src/components/GuessInput.tsx:106-110 | with one letter per slot the guessed word spells the slots in order |
| `GuessInput.InitialWord` | src/components/GuessInput.tsx:74-107 | the word first reported is the given first letter |
| `GuessInput.EmptyStrings` | src/components/GuessInput.tsx:107 | joining empty slots gives '' |
| `GuessInput.GuessInputState.constructor` | src/components/GuessInput.tsx:74-84 | the initial list, revealed flags and cursor 0 |
| `GuessInput.GuessInputState.Reported` | src/components/GuessInput.tsx:106-111 | in a valid state a word is always reported, since the answer is non-empty |
| `GuessInput.GuessInputState.HandleIndexChange` | src/components/GuessInput.tsx:86-90 | the cursor moves to `NewIndex`; nothing else changes |
| `GuessInput.GuessInputState.UpdateItem` | src/components/GuessInput.tsx:92-100 | the list is `UpdateList`; a non-empty value advances the cursor by one, clamped; an empty one leaves it |
| `GuessInput.GuessInputState.Focus` | src/components/GuessInput.tsx:123 | focusing cell i sets the cursor to i |
| `GuessInput.GuessInputState.KeyDown` | src/components/GuessInput.tsx:23-28 | Backspace (the cell value is always '') moves back one, clamped; Enter submits once |
| `GameGuessInput.NewIndex` | game/components/GuessInput.tsx:73-74 | clamps to [0, n-1] |
| `GameGuessInput.FirstChar` | game/components/GuessInput.tsx:35 | a cell keeps at most the first typed character |
| `GameGuessInput.GameGuessInputState.constructor` | game/components/GuessInput.tsx:61-71 | one empty slot and one empty cell per letter, cursor 0 |
| `GameGuessInput.GameGuessInputState.Reported` | game/components/GuessInput.tsx:93-98 | in a valid state a word is reported exactly for a non-empty answer, and it is never longer than the answer |
| `GameGuessInput.GameGuessInputState.HandleIndexChange` | game/components/GuessInput.tsx:73-77 | the cursor moves to `NewIndex`; slots and cells are unchanged |
| `GameGuessInput.GameGuessInputState.UpdateItem` | game/components/GuessInput.tsx:79-87 | the list is `UpdateList`; a non-empty value advances the cursor by one, clamped |
| `GameGuessInput.GameGuessInputState.CellChange` | game/components/GuessInput.tsx:34-38 | cell i and slot i both get the first typed character; the slots keep matching the cells |
| `GameGuessInput.GameGuessInputState.CellKeyDown` | game/components/GuessInput.tsx:20-24 | Backspace on an empty cell moves back one, clamped; otherwise nothing changes |
| `GameGuessInput.GameGuessInputState.Focus` | game/components/GuessInput.tsx:110 | focusing cell i sets the cursor to i |
| `GameGuessInput.ReportedWord` | game/components/GuessInput.tsx:93-97 | the reported word is no longer than the answer; with every cell filled it spells the cells |
| `GameGuessInput.WordLength` | game/components/GuessInput.tsx:93-97 | slots of at most one letter join to at most one letter per slot |
| `GuessPage.FirstLetter` | src/pages/GuessPage.tsx:26-28 | definition of `word[0]`, undefined for the empty word; stated by `GuessPage.LoadedShape` |
| `GuessPage.InitGuessValues` | src/pages/GuessPage.tsx:26-29 | the `map` then `slice(1, L - 1)` leaves L-2 entries for L >= 2, entry i the first letter of word i+1, and none for shorter puzzles |
| `GuessPage.IsCorrect` | src/pages/GuessPage.tsx:40 | definition of `word === wordList[index + 1]`; stated by `GuessPage.CorrectOnlyForAPuzzleWord` and `GuessPage.CheckWordOneSlot` |
| `GuessPage.GuessPageState.constructor` | src/pages/GuessPage.tsx:14-16 | all three arrays empty |
| `GuessPage.GuessPageState.LoadPuzzle` | src/pages/GuessPage.tsx:18-37 | an empty createdAt or a missing or non-array puzzle changes nothing; otherwise wordList is the puzzle, the guesses are `InitGuessValues`, and correct is L-2 falses (unchanged when L < 2, where the code throws) |
| `GuessPage.GuessPageState.CheckWord` | src/pages/GuessPage.tsx:39-44 | correct[index] := `IsCorrect`, as a JavaScript array assignment; nothing else changes |
| `GuessPage.GuessPageState.HandleGuessChange` | src/pages/GuessPage.tsx:46-52 | guessValues[index] := the guess; nothing else changes |
| `GuessPage.LoadedShape` | src/pages/GuessPage.tsx:24-30 | one guess and one unset flag per middle word; each guess is the one-letter start of its word, missing only for an empty word |
| `GuessPage.CorrectOnlyForAPuzzleWord` | src/pages/GuessPage.tsx:40 | a correct guess is a word of the puzzle, never the first word for a slot index >= 0, and a slot past the end is never correct |
| `GuessPage.CheckWordOneSlot` | src/pages/GuessPage.tsx:39-44 | in range, only flag `index` changes, to whether the word matches |
| `GameGuessPage.SlotAnswers` | game/pages/GuessPage.tsx:60-65 | through `slice(1, L - 1)` and `|| ''`, the answers of the rendered inputs are exactly the words at 1..L-2, none for shorter puzzles |
| `GameGuessPage.GameGuessPageState.constructor` | game/pages/GuessPage.tsx:11-13 | all three arrays empty |
| `GameGuessPage.GameGuessPageState.LoadPuzzle` | game/pages/GuessPage.tsx:15-31 | an empty createdAt or a missing or non-array puzzle changes nothing; otherwise wordList is the puzzle and, for L >= 2, L-2 empty guesses and L-2 falses |
| `GameGuessPage.GameGuessPageState.CheckWord` | game/pages/GuessPage.tsx:33-38 | correct[index] := whether the word equals `wordList[index + 1]`; nothing else changes |
| `GameGuessPage.GameGuessPageState.HandleGuessChange` | game/pages/GuessPage.tsx:40-46 | guessValues[index] := the guess; nothing else changes |
| `GameGuessPage.SlotsMatchMiddleWords` | game/pages/GuessPage.tsx:60-65 | guesses, flags and inputs line up one-to-one with the middle words, first and last excluded |
| `GameGuessPage.GuessLandsInItsSlot` | game/pages/GuessPage.tsx:40-46 | input i's guess lands in slot i only |
| `JsArrays.JsAssign` | src/pages/GuessPage.tsx:41-42 | a negative index changes nothing; otherwise the index holds the value, other elements are kept, a gap is filled with holes |
| `JsArrays.Filled` | src/pages/GuessPage.tsx:30 | definition of `Array(n).fill(v)`; stated by `GuessPage.LoadedShape` and `GameGuessPage.GuessLandsInItsSlot` |
| `JsArrays.SliceBound` | src/pages/GuessPage.tsx:29 | a resolved `slice` bound lies within the array |
| `JsArrays.JsSlice` | src/pages/GuessPage.tsx:29 | within the array, `slice` is the subsequence between the bounds; it is never longer than the array |
| `JsArrays.SliceInterior` | game/pages/GuessPage.tsx:60 | `slice(1, L - 1)` drops exactly the first and last element, and gives nothing for fewer than two |
| `JsArrays.JsAssignTwice` | src/pages/GuessPage.tsx:49-50 | the later of two assignments at one index wins |
| `JsText.Upper` | src/components/GuessForm.tsx:16 | same length, each letter upper-cased |
| `JsText.UpperIdempotent` | src/components/GuessForm.tsx:49 | upper-casing twice is upper-casing once |
| `JsText.UpperEmpty` | src/components/GuessForm.tsx:48-49 | the upper-cased string is empty iff the input is |
| `GuessForm.Solved` | src/components/GuessForm.tsx:14-15 | definition: `correctList[i]` is truthy, i.e. present and true; used by `GuessForm.Render` |
| `GuessForm.UpperAt` | src/components/GuessForm.tsx:16-17 | fails exactly off the array (the throw of an undefined element); otherwise an upper-case text as long as the element |
| `GuessForm.PrevText` | src/components/GuessForm.tsx:14-16 | definition: previous word when solved, else its hint, upper-cased; stated by `GuessForm.EnabledShowsASolvedNeighbour`, `GuessForm.DisabledShowsHints` and `GuessForm.Render` |
| `GuessForm.NextText` | src/components/GuessForm.tsx:15-17 | definition: next word when solved, else its hint, upper-cased; stated by the same lemmas and `GuessForm.Render` |
| `GuessForm.CurrentFieldDisabled` | src/components/GuessForm.tsx:20 | definition of `!(correctList[index] || correctList[index + 2])`; stated by `GuessForm.EnabledShowsASolvedNeighbour` and `GuessForm.DisabledShowsHints` |
| `GuessForm.Render` | src/components/GuessForm.tsx:11-63 | the button is disabled exactly when neither `correctList[index]` nor `correctList[index + 2]` is true; each neighbour's label is its upper-cased word once solved and its hint before; it fails exactly when the slot has no hint or a label reads past its array; every text is upper case; placeholder and help text are built from the caption, the slot's hint |
| `GuessForm.RenderWithSolvedPrevious` | src/components/GuessForm.tsx:14-20 | with `correctList = [true, false, false]` at index 0 the form is enabled and shows the first word and the third word's hint |
| `GuessForm.OnSubmit` | src/components/GuessForm.tsx:47-50 | a missing or empty guess is ignored; otherwise the guess upper-cased with the same index |
| `GuessForm.EnabledShowsASolvedNeighbour` | src/components/GuessForm.tsx:14-20 | an enabled slot shows at least one neighbour as the solved word |
| `GuessForm.DisabledShowsHints` | src/components/GuessForm.tsx:14-20 | a disabled slot shows both neighbours by their hints |

## Left out

- Rendering is not modelled: JSX and Devvit blocks, the SVG markup, `useForm` and `showForm`, `console` logging, and focusing input refs. They have no effect on the state modelled.
- Network calls are recorded as values. `sendPrivateMessage` and `setUserFlair` become the message and the flair assignment. `getCurrentSubreddit` and the scheduler are parameters. `runJob` appends to the store's job queue and its `runAt` is dropped.
- Flair.FlairJob.OnRun: server/Service.tsx, which supplies the job's `Service`, defines neither `getUserFlairData` nor `saveUserFlairData`. As written, the call at src/jobs/userFlair.ts:90 therefore throws, the `catch` at :116-118 only logs, and the job sends and saves nothing. The model gives the job a rank store standing for those two calls instead: one number per user, missing for a user with none.
- Flair.Decide: the saved rank is taken to be a number or missing, because the reader that would return it is not defined anywhere in the source. A rank stored in any other form is not modelled.
- `Promise.all` in the flair job is not modelled: partial effects and the caught failure of a rejected call are left out, and all three effects are taken to happen.
- Dates: `new Date()` is the `today` parameter, and `new Date(createdAt)` is a parsed `JsDate` parameter. Time zones are taken as UTC throughout, including for `new Date(0)`.
- Day-identifier parsing: JavaScript would roll an out-of-range triple such as "2-30-2025" over to a later day, but `DayKeys.ParseDayKey` reads it as an invalid date. Identifiers the service writes are always real days, and for those the round trip is proved.
- Years are non-negative, because a negative year prints with a sign.
- Stored values are typed. Counts and streaks are integers because `parseInt` is not modelled on malformed strings. Solved lists are lists of strings because a `JSON.parse` that throws is not modelled. Redis scores, which are floating point, are integers.
- The Redis key scheme of server/ServiceBase.ts is replaced by one map per field. server/PostService.ts, server/PuzzleService.ts and server/Service.tsx are not part of this model.
- The per-day count hash is only read. No modelled operation writes it, and none does in the source.
- The "already solved" guard in `updateUserDailySolvedStats` is commented out in the source. It is not modelled, and neither is the leaderboard refresh inside it. `Users.SecondSolveSameDayResets` shows the effect: a repeated solve on the same day resets the streak.
- Leaderboards.TopN: does not fix the order among members with equal scores. Redis orders ties by member name, but the contract allows any order among them.
- Leaderboards.LeaderboardService.GetDailyLeaderboard: ties are likewise left unordered, for the same reason.
- Leaderboards.LeaderboardService.GetDailyStreakLeaderboard: ties are likewise left unordered, for the same reason.
- `PressStart2PFont`'s `children` is taken as a list of strings, and the first one is laid out. The `color` prop is only used in the SVG markup. The 'Thorn' glyph key is held by no single character, so it is never drawn.
- `JsText.Upper` upper-cases ASCII letters only. Other characters are unchanged, and full Unicode case mapping is not modelled.
- In src/components/GuessInput.tsx the input element of `CharInput` is commented out, so no cell events can occur. The slot and key handlers are still modelled as methods. Each event sees the state left by the previous render, and React's batching of updates is not modelled.
- The game's page and its `GuessInput` children are modelled separately. The `setGuessedWord` callback ties them, and `GameGuessPage.GuessLandsInItsSlot` states where one child's report lands.
- Non-string elements in a puzzle array and non-array JSON values other than `NotAnArray` are not distinguished.
