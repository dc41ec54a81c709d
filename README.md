# faithpage in Dafny

A verified model of the computational core of faithpage, a Streamlit site
for a church community. The model covers four pages:

- **Omok (five in a row)**, `pages/5_game_omok.py`. The 15×15 board is an
  `array2`. The modules are `OmokBoard`, `OmokEval` and `OmokAi`.
  - `CheckWinner` does the local win check around the last stone.
  - `EvaluateDirection` scores one line from its consecutive stones and open ends.
  - `EvaluateMove` scores a cell: both colours in four orientations, plus
    the centre bonus and the nearby-stone bonus or penalty.
  - `GetComputerMove` chooses White's move: win first, then block, then one
    of the top-K scored cells.
  - Every method is proved against a specification function on the board's
    snapshot `Cells(board)`. No method that takes the board has a
    `modifies` clause, so the caller's board is provably untouched. The
    trial placements happen on fresh copies. Only the sort (`SortByScore`,
    `InsertLast`, `Swap`) updates an array: the fresh score array that
    `ScoreMoves` returns.
- **Bible reading**, `pages/2_BibleReading.py`. The modules are
  `BibleCanon`, `BibleDay`, `BibleRecords` and `BibleData`.
  - `BibleCanon` holds the canon, ALL_BOOKS, goal-book selection and the
    daily quota.
  - `BibleDay` merges chapters into a day's record as a sorted,
    duplicate-free union.
  - `BibleRecords` covers the walks over a group's log: last chapter read,
    suggested next chapter, statistics and the reading streak.
  - `BibleData.ReadingData` is the stored data as an object: migration,
    recording and the per-user queries.
- **FaithGPT tokens**, `pages/3_FaithGPT.py`. The module is `FaithTokens`:
  the Hangul-aware token estimate, the usage check against a code's limit,
  and the warning before sending.
- **Imagen access**, `pages/1_Imagen.py`. The module is `ImagenQuota`.
  - Five failed codes lock input for thirty minutes.
  - Each code has an image quota and a per-session usage counter.
  - The image grid has its own column rule.
  - `ImagenPage` is the page state as an object.

Representation choices:

- Dates are day numbers (`int`). The clock is an `int` parameter: `today` in
  days, `now` in seconds.
- Stored JSON and `secrets.toml` tables become Dafny maps, which are passed
  in or held in fields.
- `random.choice` becomes an injected index `pick`.
- Omok scores are kept in tenths. This makes the float blocking weight
  `min(1.0, difficulty/10)` the exact integer `min(10, difficulty)`.
- `int(length * 0.5)` and the other fractions are written `length * 5 / 10`.

Facts about the code that the model makes explicit:

- The difficulty is never clamped. The candidate count K goes from
  `max(1, length/10)` at difficulty 8 to `min(3, length)` at 9, so with
  2 to 29 candidates K is larger at difficulty 9 than at 8 instead of
  narrowing as difficulty rises.
  `OmokAi.TopCountWidensAtNine` exhibits the jump, and
  `OmokAi.TopCountNarrows` proves that K narrows once there are at least
  30 candidates.
- `count_tokens` ends with `max(..., len(text) // 4)`, commented as a
  guaranteed minimum. That `max` never changes the result, because the
  Hangul-weighted estimate is always at least a quarter of the length.
  `FaithTokens.CountTokensIsEstimate` proves this.

## Model

| member | source | states |
|---|---|---|
| OmokBoard.StreakAtLeast | pages/5_game_omok.py:24-31 | a side scan counts at least m stones iff the next m cells in that direction hold the player's stones |
| OmokBoard.StreakPlace | pages/5_game_omok.py:146-149 | placing a stone on the centre cell does not change what a side scan from it sees |
| OmokBoard.LineCountFive | pages/5_game_omok.py:21-42 | the stone plus its run on both sides reaches 5 iff some five consecutive cells through it in that orientation hold the player's stones |
| OmokBoard.ScanStreak | pages/5_game_omok.py:24-40 | one side scan returns exactly the run of same-colour stones, at most 4, stopping at the edge or a different cell |
| OmokBoard.CheckWinner | pages/5_game_omok.py:9-43 | None for an empty cell; the occupant iff five in a row passes through the cell in one of the four orientations |
| OmokBoard.EmptiesExactly | pages/5_game_omok.py:136-141 | the list of available moves holds exactly the empty cells, strictly in row-major order |
| OmokBoard.FullBoard | pages/5_game_omok.py:136-143 | stones plus available moves make 225; the list is empty iff every cell is occupied |
| OmokBoard.EmptyMoves | pages/5_game_omok.py:136-141 | builds the row-major list of empty cells, exactly the cells holding no stone |
| OmokEval.LineShape | pages/5_game_omok.py:85-121 | at most 8 consecutive stones and 2 open ends; no open end when the forward side is blocked; two open ends iff both sides stop at an empty cell |
| OmokEval.ShapeScore | pages/5_game_omok.py:123-132 | the score is one of 0, 1, 3, 5, 10, 15, 50, 200, 1000; 0 iff no stones; 1000 iff four or more |
| OmokEval.ShapeScoreMonotone | pages/5_game_omok.py:123-132 | more stones and more open ends never lower the line score |
| OmokEval.ScanAhead | pages/5_game_omok.py:92-105 | the forward scan returns the run, whether it was blocked, and one open end iff it stopped at an empty cell |
| OmokEval.ScanBehind | pages/5_game_omok.py:108-120 | the backward scan returns the run and an open end only when it stopped at an empty cell and the forward side was not blocked |
| OmokEval.EvaluateDirection | pages/5_game_omok.py:85-132 | returns the table score of the line's shape |
| OmokEval.CountStones | pages/5_game_omok.py:60 | counts the occupied cells of the board |
| OmokEval.FindNearby | pages/5_game_omok.py:66-76 | true iff some stone lies within two rows and two columns of the cell, the cell itself excluded |
| OmokEval.EvaluateMove | pages/5_game_omok.py:46-83 | returns the cell's score in tenths: White's lines, Black's lines at the blocking weight, the early centre bonus, and +20 near a stone or -50 when isolated on a board of more than 5 stones |
| OmokEval.WinningLine | pages/5_game_omok.py:123-124 | a line scores 1000 for a player iff placing the player's stone there makes five in that orientation |
| OmokEval.WinningScore | pages/5_game_omok.py:9-43 | a placement completes five iff some orientation's line scores 1000 |
| OmokEval.DirectionScore | pages/5_game_omok.py:51-57 | an orientation scores at most 20000 tenths (both lines at 1000), and at least 0 for a non-negative difficulty |
| OmokEval.DirectionsScore | pages/5_game_omok.py:50-57 | the sum over the first k orientations is at most 20000·k tenths, and at least 0 for a non-negative difficulty |
| OmokEval.DirectionScoreMonotone | pages/5_game_omok.py:51-56 | an orientation's score never falls as difficulty rises, and stops changing from difficulty 10 |
| OmokEval.DirectionsScoreMonotone | pages/5_game_omok.py:50-56 | the sum over orientations never falls as difficulty rises, and stops changing from difficulty 10 |
| OmokEval.MoveScore | pages/5_game_omok.py:46-83 | a cell's score in tenths is at most four full 2000-point orientations plus the largest centre and nearby bonuses; for a non-negative difficulty and an on-board cell it is at least -500, the 50-point isolation penalty |
| OmokEval.MoveScoreMonotone | pages/5_game_omok.py:46-83 | a cell's score never falls as difficulty rises, and stops changing from difficulty 10 |
| OmokEval.BlankBoardScore | pages/5_game_omok.py:59-62 | on an empty board a cell's score is its centre bonus alone |
| OmokEval.BlankBoardCentre | pages/5_game_omok.py:59-62 | on an empty board the centre (7, 7) strictly outscores every other cell |
| OmokAi.FirstWinUnique | pages/5_game_omok.py:146-150 | the first row-major winning cell is unique |
| OmokAi.CopyWith | pages/5_game_omok.py:147-148 | the trial board is a fresh copy with only the one cell set |
| OmokAi.WinsAt | pages/5_game_omok.py:147-149 | true iff the player's stone on that cell, on a copy, completes five |
| OmokAi.FirstWinIndex | pages/5_game_omok.py:146-150 | the index of the first listed move that wins, or the list length when none does |
| OmokAi.FirstWinning | pages/5_game_omok.py:146-157 | the row-major first winning empty cell for a player, or None iff the player has no winning cell |
| OmokAi.Scores | pages/5_game_omok.py:161-163 | one scored entry per candidate, in order, holding the candidate's evaluated score |
| OmokAi.ScoreMoves | pages/5_game_omok.py:161-163 | fills a fresh array with each candidate and its score |
| OmokAi.SortByScore | pages/5_game_omok.py:164 | sorts the scored moves by descending score, as a permutation |
| OmokAi.InsertLast | pages/5_game_omok.py:164 | extends the sorted prefix by one element, as a permutation |
| OmokAi.Swap | pages/5_game_omok.py:164 | exchanges two entries and nothing else |
| OmokAi.TopCount | pages/5_game_omok.py:166-177 | K is at least 1 and, for a non-empty list, at most its length |
| OmokAi.TopCountNarrows | pages/5_game_omok.py:166-177 | with 30 candidates or more, a higher difficulty never widens K |
| OmokAi.TopCountWidensAtNine | pages/5_game_omok.py:174-177 | with 10 candidates, K is 1 at difficulty 8 but 3 at difficulty 9 |
| OmokAi.SortedRankBound | pages/5_game_omok.py:164-179 | after sorting, at most i distinct moves outscore the entry at position i |
| OmokAi.ChooseTop | pages/5_game_omok.py:164-180 | picks a candidate that fewer than K candidates outscore, i.e. one of the top K |
| OmokAi.GetComputerMove | pages/5_game_omok.py:135-180 | None iff the board is full; otherwise an empty cell; White's first win before anything; else Black's first win; else one of the top-K scored cells |
| BibleCanon.CollectBooks | pages/2_BibleReading.py:259-262 | ALL_BOOKS is every category's books of every testament, in order, and contains each of them |
| BibleCanon.AllBooksSplit | pages/2_BibleReading.py:217-262 | ALL_BOOKS is the Old Testament books followed by the New Testament books |
| BibleCanon.TestamentGoalsMakeWhole | pages/2_BibleReading.py:370-383 | the Old Testament goal followed by the New Testament goal is the whole-Bible goal, which is ALL_BOOKS |
| BibleCanon.GoalBooks | pages/2_BibleReading.py:370-387 | "구약" gives the Old Testament books and "신약" the New Testament books; a non-empty custom list is returned as given; "전체", any other type and an empty custom list give ALL_BOOKS; only a non-empty custom list can name books outside the canon |
| BibleCanon.TotalChapters | pages/2_BibleReading.py:389-391 | the chapter total of known books is at least the number of books, since every book has a chapter |
| BibleCanon.TotalChaptersAppend | pages/2_BibleReading.py:389-391 | the chapter total of two book lists is the sum of their totals |
| BibleCanon.DailyChapters | pages/2_BibleReading.py:389-392 | max(1, total // duration_days): the quota is at least 1; it is 1 while the total is below twice the days; from one chapter per day on it is the floor of total chapters over days |
| BibleCanon.DailyChaptersMonotone | pages/2_BibleReading.py:389-392 | a longer duration never raises the daily quota |
| BibleDay.Insert | pages/2_BibleReading.py:494-495 | adding a chapter to an increasing list gives an increasing list with that chapter added |
| BibleDay.Normalize | pages/2_BibleReading.py:494-495 | sorted(set(...)): an increasing list with the same chapters |
| BibleDay.SortedUnion | pages/2_BibleReading.py:494-495 | an increasing list holding exactly the old and new chapters |
| BibleDay.IncreasingUnique | pages/2_BibleReading.py:494-495 | two increasing lists with the same chapters are equal, so the merged list is determined by its chapters |
| BibleDay.SortedUnionLaws | pages/2_BibleReading.py:494-495 | merging is commutative, and merging the same chapters again changes nothing |
| BibleDay.BookIndex | pages/2_BibleReading.py:491-493 | the index of the first record of the book in the day, or -1 when there is none |
| BibleDay.MergeIntoDay | pages/2_BibleReading.py:489-500 | the loop with break computes the merged day |
| BibleDay.MergedDayChapters | pages/2_BibleReading.py:489-500 | the book's chapters of the day gain exactly the new chapters; every other book's chapters stay the same |
| BibleDay.MergedDayKeepsOthers | pages/2_BibleReading.py:489-500 | other books' records are untouched, and one record is appended iff the book had none that day |
| BibleDay.MergedDayDistinct | pages/2_BibleReading.py:489-500 | recording keeps one record per book in a day |
| BibleRecords.RecordedChapters | pages/2_BibleReading.py:471-502 | after recording, the chapters read of the book over all days gain exactly the new chapters; other books are unchanged |
| BibleRecords.IsLastReadUnique | pages/2_BibleReading.py:504-518 | the last chapter read is well defined |
| BibleRecords.MaxOf | pages/2_BibleReading.py:516 | the maximum of a non-empty chapter list |
| BibleRecords.LastReadOfDay | pages/2_BibleReading.py:514-516 | the running maximum grows to cover every chapter of the book on that day |
| BibleRecords.LastRead | pages/2_BibleReading.py:512-518 | the largest chapter recorded for the book on any day, or 0 when none is |
| BibleRecords.NextChapter | pages/2_BibleReading.py:520-527 | never beyond the book's chapter count; the chapter after the last one read while the book is unfinished |
| BibleRecords.NextChapterAtEnd | pages/2_BibleReading.py:520-527 | once the book's final chapter has been read, the suggestion stays on that final chapter |
| BibleRecords.IsStreakUnique | pages/2_BibleReading.py:578-600 | the streak is well defined |
| BibleRecords.StreakAfterReadingToday | pages/2_BibleReading.py:589-592 | reading today makes the streak at least 1 |
| BibleRecords.ReadingStreak | pages/2_BibleReading.py:578-600 | counts the consecutive days with records back from today, skipping an empty today once; an empty log gives 0 |
| BibleRecords.Dedup | pages/2_BibleReading.py:551-552 | the goal books as dictionary keys: the same books, each once |
| BibleRecords.CompletedAtMostBooks | pages/2_BibleReading.py:560-565 | completed books are between 0 and the number of goal books |
| BibleRecords.RecordingOtherBook | pages/2_BibleReading.py:554-565 | recording a book outside the goal changes neither the chapter total nor the completed books |
| BibleRecords.InitProgress | pages/2_BibleReading.py:551-552 | one empty chapter set per distinct goal book |
| BibleRecords.AddDay | pages/2_BibleReading.py:555-559 | each goal book's set gains that day's chapters of the book; books outside the goal are ignored |
| BibleRecords.CollectProgress | pages/2_BibleReading.py:554-559 | each goal book's set becomes every chapter of it read on any day |
| BibleRecords.Tally | pages/2_BibleReading.py:560-565 | the sum of distinct chapters over the goal books, and how many of them have all their chapters read |
| BibleRecords.LogStats | pages/2_BibleReading.py:546-576 | total chapters, completed books, number of reading days, chapters per goal book, and the streak |
| BibleData.ConvertLog | pages/2_BibleReading.py:324-333 | every checked day of a group becomes a Genesis 1 record; other days are kept |
| BibleData.ConvertUser | pages/2_BibleReading.py:320-333 | every group with check-ins gets its converted log, created when missing |
| BibleData.ConvertRecords | pages/2_BibleReading.py:318-336 | every user with check-ins gets converted logs, created when missing; other users are kept |
| BibleData.WithDefaults | pages/2_BibleReading.py:339-355 | migration completes a group, keeps what it had, and gives a group without a goal the whole-Bible, 365-day goal from its start date |
| BibleData.WithDefaultsIdempotent | pages/2_BibleReading.py:339-355 | migrating a group twice changes nothing more |
| BibleData.ConvertedLogDays | pages/2_BibleReading.py:328-333 | the converted log's days are the old days plus the checked days; checked days are read days holding Genesis 1 |
| BibleData.ConvertedNothing | pages/2_BibleReading.py:318-336 | without check-ins the records are unchanged |
| BibleData.CompleteGroups | pages/2_BibleReading.py:339-355 | every group gets its defaults and is complete afterwards |
| BibleData.ReadingData.Migrate | pages/2_BibleReading.py:311-357 | afterwards there are reading records and no check-ins, the check-ins are converted, and every group is complete |
| BibleData.ReadingData.RecordReading | pages/2_BibleReading.py:471-502 | the user's group log for today becomes the merged day, created when missing; nothing else changes |
| BibleData.RecordedToday | pages/2_BibleReading.py:471-502 | after recording, today counts as a read day and the book's chapters read gain exactly the new ones |
| BibleData.ReadingData.LastReadChapter | pages/2_BibleReading.py:504-518 | the largest chapter of the book in the user's group log, or 0 without records |
| BibleData.ReadingData.NextSuggestedChapter | pages/2_BibleReading.py:520-527 | the chapter after the last one read, capped at the book's chapter count |
| BibleData.ReadingData.UserStats | pages/2_BibleReading.py:529-576 | all zeros and an empty progress without a log, otherwise the statistics of the group's goal books |
| FaithTokens.HangulCount | pages/3_FaithGPT.py:117 | the Hangul syllables counted are at most the text's length |
| FaithTokens.HangulCountAppend | pages/3_FaithGPT.py:117 | the Hangul count of a concatenation is the sum of the counts |
| FaithTokens.CountTokens | pages/3_FaithGPT.py:114-122 | the estimate is between a quarter of the length and the length, and at least the number of Hangul syllables |
| FaithTokens.CountTokensIsEstimate | pages/3_FaithGPT.py:120-122 | the result is always k + (n - k) / 3, so the quarter-length floor never decides |
| FaithTokens.CountTokensEmpty | pages/3_FaithGPT.py:122 | the empty text has 0 tokens |
| FaithTokens.CountTokensAllHangul | pages/3_FaithGPT.py:117-121 | Hangul-only text costs one token per character |
| FaithTokens.CountTokensNoHangul | pages/3_FaithGPT.py:117-121 | text without Hangul costs a third of its length |
| FaithTokens.CountTokensGrows | pages/3_FaithGPT.py:114-122 | extending a text never lowers its estimate |
| FaithTokens.TokenLimit | pages/3_FaithGPT.py:139-145 | an unknown code has limit 0 |
| FaithTokens.CheckTokenUsage | pages/3_FaithGPT.py:147-155 | use is allowed iff the limit is -1 or the total is below the limit; unlimited iff the limit is -1 |
| FaithTokens.UnknownCodeRefused | pages/3_FaithGPT.py:139-155 | an unknown code is refused for any non-negative total |
| FaithTokens.RefusalPersists | pages/3_FaithGPT.py:147-155 | once refused, a code stays refused as its total grows |
| FaithTokens.EstimatedResponse | pages/3_FaithGPT.py:384 | the expected reply is min(2 × input, 2000) |
| FaithTokens.WarnBeforeSend | pages/3_FaithGPT.py:384-388 | never for an unlimited code; otherwise iff the total plus the input plus the expected reply (twice the input, at most 2000) exceeds the limit |
| FaithTokens.PreSend | pages/3_FaithGPT.py:370-393 | ignored iff the message is blank after strip(); otherwise refused iff the code is limited and its total has reached the limit; a warning only when the message and its expected reply would pass the limit; sent clear only when they stay within it or the code is unlimited |
| FaithTokens.ClearKeepsNextAllowed | pages/3_FaithGPT.py:370-395 | a message sent without warning leaves the total after its input is counted (line 395) strictly below the limit, so a usage check at that point allows use; the reply's tokens (line 423) are not included |
| FaithTokens.ClearReplyWithinLimit | pages/3_FaithGPT.py:384-395 | without a warning, input plus a reply no longer than the estimate keeps the total within the limit, possibly reaching it exactly |
| FaithTokens.ClearReplyCanReachLimit | pages/3_FaithGPT.py:372-395 | with limit 3, "abc" passes without warning, and a two-token reply brings the total to 3, which the next check refuses |
| FaithTokens.UnlimitedAlwaysClear | pages/3_FaithGPT.py:370-395 | an unlimited code is never refused or warned: a blank message is ignored and any other is sent clear |
| ImagenQuota.AfterLockCheck | pages/1_Imagen.py:63-78 | a running lock is kept, an expired lock is reset to (0, 0), and fewer than five failures are kept |
| ImagenQuota.LeftMinutes | pages/1_Imagen.py:72 | the minutes shown while locked are at least 1, and at most 31 once the lock has started |
| ImagenQuota.AfterCode | pages/1_Imagen.py:94-114 | a valid code resets the record; an invalid one adds a failure and restarts the lock time only from the fifth failure |
| ImagenQuota.FifthFailureLocks | pages/1_Imagen.py:106-114 | within one day's fail record, the fifth invalid code locks input for the next thirty minutes |
| ImagenQuota.FewFailuresNeverLock | pages/1_Imagen.py:67 | fewer than five failures never lock and are left as they are |
| ImagenQuota.LockExpires | pages/1_Imagen.py:74-78 | thirty minutes after the lock started, input is unlocked and the record is reset |
| ImagenQuota.LockCheckSettles | pages/1_Imagen.py:67-78 | after the lock check, five or more failures always mean a running lock |
| ImagenQuota.Admit | pages/1_Imagen.py:286-290 | refused as unregistered iff the limit is 0; refused for quota iff the limit is positive and used + requested exceeds it |
| ImagenQuota.QuotaRespected | pages/1_Imagen.py:286-307 | an admitted generation under a positive limit keeps usage within the limit |
| ImagenQuota.UnlimitedAdmitted | pages/1_Imagen.py:286-290 | an unlimited code is always admitted |
| ImagenQuota.GridColumns | pages/1_Imagen.py:320 | 1 column for one image, n for two or three, 2 for four or more |
| ImagenQuota.ImagenPage.CheckLock | pages/1_Imagen.py:63-78 | reports the lock and its minutes left, and clears an expired lock; the session is unchanged |
| ImagenQuota.ImagenPage.EnterCode | pages/1_Imagen.py:84-116 | the code's limit, or 0 when it is empty or invalid; usage resets when the code changes; the record is updated for a non-empty code |
| ImagenQuota.ImagenPage.Generate | pages/1_Imagen.py:284-312 | the admission outcome; the images produced are shown; usage grows by the request only after a complete run under a positive limit |
| ImagenQuota.ImagenPage.LayOut | pages/1_Imagen.py:315-330 | the row-by-row layout shows every image exactly once, in order |

## Left out

- Streamlit rendering, widgets, messages, CSS and HTML are not modelled,
  and neither is the `session_state` plumbing beyond the Imagen counters.
- File I/O is out. The encrypted JSON store, the Fernet key, `save_data`
  and the per-IP, per-day fail-log file are replaced by maps passed in or
  held in fields.
- Network calls are out: the OpenAI chat and image calls and `requests.get`.
  Generated image URLs are parameters.
- The clock is out. `datetime.now()` and `time.time()` become integer
  parameters, and ISO date strings become day numbers.
- `pages/4_work_manager.py`, `pages/work_manager_app.py`, `mainpage.py` and
  `pages/6_pinball_game.py` are not part of this model.
- Users, login, password hashing, group creation and goal updates in
  `pages/2_BibleReading.py` are not part of this model.
- OmokAi.SortByScore: like `list.sort`, the insertion sort is stable,
  because `InsertLast` moves an entry only past strictly smaller scores.
  The contract states a descending permutation but not stability. The
  ensures of `GetComputerMove` does not depend on the order of equal
  scores.
- OmokBoard.CheckWinner: requires the cell to be on the board. In the
  source a negative index from -15 to -1 wraps around (`board[-1]` is row
  14) and the check runs without error on the wrapped cell; only an index
  of 15 or more, or below -15, raises IndexError. The page only passes
  cells of the board.
- OmokEval.EvaluateMove: the score is in tenths, and the blocking weight
  `min(1.0, difficulty/10)` is exact. IEEE rounding of the float
  arithmetic is not modelled.
- BibleCanon.DailyChapters: requires a positive duration and known book
  names. In the source a zero duration raises ZeroDivisionError, a
  negative one returns 1 without error, and an unknown book raises
  KeyError. The duration input has `min_value=30`
  (pages/2_BibleReading.py:952), so the page always passes a positive
  duration.
- BibleCanon: the concrete figures are not proved: 66 books, and every
  canon book being in the chapter table.
- BibleData.ReadingData.NextSuggestedChapter: requires `book in
  BibleChapters`; the source raises KeyError for an unknown book
  (pages/2_BibleReading.py:524). The page passes only books of the
  group's goal (pages/2_BibleReading.py:1039-1068), and a custom goal is
  picked from checkboxes over the canon (lines 966-984), so the requires
  holds at the call site. Its `ChaptersListed` requires,
  shared with `LastReadChapter`, stands in for the ValueError that `max`
  raises on a record with no chapters, as for `BibleRecords.LastRead`.
- BibleRecords.LastRead: requires every record of the book to list at
  least one chapter. The source's `max` raises ValueError on an empty
  list.
- BibleRecords.LogStats: progress is a map from book to a set of
  chapters. The list order of `list(chapters)` is not modelled.
- BibleData.ReadingData.UserStats: requires the group to exist and its
  goal books to be known when the user has a log. The source raises
  KeyError otherwise.
- BibleData.ReadingData.Migrate: the group list is a map from code to
  start date and goal. Group names, admins and members are not modelled.
- ImagenQuota.ImagenPage.CheckLock: `now` is whole seconds. The lock
  decision is unchanged by this. The minutes shown can differ by one from
  the float computation when the elapsed time is a whole minute plus a
  fraction.
- ImagenQuota.FifthFailureLocks: the fail-record file is named by client
  IP and calendar day (pages/1_Imagen.py:43-44). A new day therefore
  starts from no failures, and a lock begun before midnight ends at
  midnight. The model keeps one record (`ImagenPage.fails`) with no day
  change, so the thirty-minute lock holds only while the day does not
  change.
- ImagenQuota.ImagenPage.EnterCode: the widget is disabled while locked.
  The model takes whatever code the page receives.
- ImagenQuota.ImagenPage.Generate: an API failure part-way leaves the
  images produced so far on screen without counting them. The model
  takes the produced images and the failure as parameters. It does not
  model which image failed.
- The pre-send confirmation button in `pages/3_FaithGPT.py` is not
  modelled: whether the user continues after a warning. The running
  total's update (`faithgpt_total_tokens +=`) is not modelled as state;
  the lemmas state what the total is after the input is counted and after
  a reply of a given size.
- FaithTokens.ClearKeepsNextAllowed: covers the total after the input is
  counted (pages/3_FaithGPT.py:395), not after the reply's tokens are
  added (line 423). The next message can be refused: a reply longer than
  the estimate can pass the limit, and even a reply within the estimate
  can reach the limit exactly (`ClearReplyCanReachLimit`).
