# fst-quiz core, modelled in Dafny

fst-quiz is a quiz web application. Administrators write categories, quizzes and questions. Users take quizzes under a per-question timer and look at their results, profile statistics and a leaderboard. This project models the application's own logic, apart from rendering and storage:

- the question shuffle and type randomiser;
- the result statistics of the performance tracker, the user profile and the leaderboard;
- the question countdown and its `mm:ss` display;
- the form schemas (question, quiz, category);
- the spreadsheet upload;
- the argument check of the quiz lookup;
- the route gate;
- the modal store;
- the admin list pages.

Each source file is one Dafny module:

- `Utils`: lib/utils.ts.
- `Tracker`: QuizPerformanceTracker.tsx.
- `Profile`: UserProfile.tsx.
- `Leaderboard` and `LeaderboardCard`: actions/leaderboard.ts and components/user/leaderboard.tsx.
- `Timer`: timer.tsx.
- `QuestionForm`: questions-form.tsx.
- `CategorySchema`: schemas/zodSchemas.ts.
- `QuizDialog`: create-quiz-dialog.tsx.
- `ExcelUpload`: excel-upload-modal.tsx.
- `QuizActions`: actions/quiz-actions.ts.
- `RouteGate`: middleware.ts and copy.ts.
- `Modal`: context/modalStore.ts.
- `AdminUsers`, `AdminResults` and `AdminLearning`: the three admin pages.

Several JavaScript behaviours are shared by these modules, so they are defined once:

- `JsText`:
  - `String.prototype.trim` over the ECMAScript white-space set;
  - ASCII `toLowerCase`/`toUpperCase`;
  - `includes`;
  - `split(" ")` and `join`;
  - `padStart(2, "0")`;
  - decimal `String(n)`;
  - `parseInt` as section 19.2.5 of ECMA-262 defines it (leading white space skipped, one sign, a `0x` prefix, the longest digit run, `None` for NaN).
- `Seqs`: sum, max, mean, filter, subsequence, and the stable sort by a numeric key that `Array.prototype.sort` is in ECMAScript 2019.
- `Scoring`: the per-result percentage.
- `Zod`: trimmed length checks.
- `Wrappers`: `Option` and `Result`.

Modelling choices:

- Percentages and means are `real`; timestamps are `int` milliseconds.
- Each `Math.random()` result is a parameter in [0, 1).
- `Math.sqrt` becomes a parameter `sd` with `sd * sd` equal to the variance.
- A NaN or infinite result of the tracker (an empty selection, a first percentage of 0) is an `Option` with `None`. A zero `totalPossibleScore` is not represented: the members that divide by it require `Scorable` (every total non-zero), as listed under "## Left out".
- Code that changes state in place is imperative Dafny:
  - the array method `ShuffleArray`;
  - the tally loop `GroupPerformance`;
  - the classes `QuizTimer`, `ModalStore`, `CreateQuizDialog`, `ExcelUploadModal`, `UsersPage` and `LearningPage`.
- Database, server-action and file-reading results arrive as parameters. This covers the quiz query `find`, the answers of `createQuestion` and `updateUser`, and the parsed sheet rows.

Where the code behaves unexpectedly, the model follows the code:

- **Tracker statistics.** For an empty selection the tracker's average is NaN, not 0. When the first percentage is 0 its improvement rate is a division by zero, not 0. Both are `None` here. The time window compares `ceil(|now - completed| / day)` with the number of days, so results dated in the future count as well.
- **Profile streak.** The streak counts results for which `floor((now - completed) / day) <= 7`. That is anything completed in the last eight days, and everything in the future.
- **Admin-route check.** It comes first in middleware.ts, before the API-prefix rule.
- **Timer reset.** In the component on its own, the reset on a new question does not restart an interval that has already fired: with the same limit and the same expiry handler the countdown stays put after one expiry (`Timer.ExpiredThenNextQuestion`). The quiz session page creates a new expiry handler whenever the question index changes, and that recreates the interval, so in the application the countdown restarts on every question (`Timer.ExpiredThenNextQuestionNewHandler`).
- **Group-by keys.** The profile's two group-bys collect into a plain `{}` and test `!acc[key]`. A name that `Object.prototype` already has ("constructor", "toString", "__proto__" and the other nine) finds a truthy inherited member: no bucket is made, the sum lands on that member, and `Object.entries` never lists the name. The model passes these names as `Profile.InheritedKeys` and proves the group statistics for the other keys.
- **Upload of an unparsable workbook.** The spreadsheet is parsed inside `reader.onload`. If `XLSX.read` throws there, the promise from `parseExcelFile` is never settled, so `handleUpload` never gets past its `await`. Neither the `catch` nor the `finally` runs, and the dialog stays uploading with the file kept (`SheetOutcome.ParseThrows`).
- **String lengths.** zod's `min` and `max` compare `.length`, which counts UTF-16 code units. The model counts the same way (`JsText.Utf16Length`), so a character outside the Basic Multilingual Plane counts twice: the title "😀😀" passes `min(3)`, and the answer "😀😀" fails `max(3)`.
- **Leaderboard display name.** A leaderboard entry falls back to "Anonymous User" for an empty name as well as for a missing one, because the source uses `||`.

## Model

| member | source | states |
|---|---|---|
| Utils.PickIndex | lib/utils.ts:10 | every draw in [0, 1) picks an index j with 0 <= j <= i, so the swap is in bounds |
| Utils.ShuffleArray | lib/utils.ts:8-13 | the array ends as the specification function's shuffle of its old contents, and holds the same multiset of elements |
| Utils.ShuffledIsPermutation | lib/utils.ts:8-13 | for any draws, the shuffle keeps the length and is a permutation of its input |
| Utils.ShortUnchanged | lib/utils.ts:9 | arrays of length 0 or 1 come back unchanged |
| Utils.SuffixSettled | lib/utils.ts:9-12 | once the loop is at i, the slots above i already hold their final values |
| Utils.DrawnType | lib/utils.ts:19-20 | the drawn type is one of the three type names |
| Utils.RandomizeOne | lib/utils.ts:18-42 | same drawn type: the question is returned unchanged. Switch to multiple choice: existing options are kept, missing ones become a permutation of the answer and the three "Incorrect Option" strings. Any other switch: options are removed. True/false: a boolean answer and " (True/False)" appended to the text. The other fields are kept |
| Utils.RandomizeQuestionTypes | lib/utils.ts:17-43 | one question out per question in, in order, each transformed by its own draws |
| Utils.RandomizedTypesAreKnown | lib/utils.ts:17-43 | every randomised question carries a known type name |
| Scoring.Percentage | components/user/QuizPerformanceTracker.tsx:81-83 | percentage times total equals score times 100, and it lies in [0, 100] when 0 <= score <= total |
| Tracker.LimitOf | components/user/QuizPerformanceTracker.tsx:56 | "all" means no limit; otherwise the limit is parseInt of the range, and NaN when parseInt finds no digits |
| Tracker.DaysKey | components/user/QuizPerformanceTracker.tsx:56 | a range written as digits followed by "days" limits to that many days, so "7days" means 7 |
| Tracker.CeilDiv | components/user/QuizPerformanceTracker.tsx:63 | the quotient is the least q with x <= q * d |
| Tracker.Keeps | components/user/QuizPerformanceTracker.tsx:58-64 | the window test: every result for "all", none when the range is NaN, otherwise those with `ceil(abs(now - completed) / day)` at most the number of days |
| Tracker.FilteredResults | components/user/QuizPerformanceTracker.tsx:54-69 | the output is sorted ascending by completion time. Every result inside the window occurs in it as often as in the input, and every other result not at all |
| Tracker.SameTimeInInputOrder | components/user/QuizPerformanceTracker.tsx:57-67 | results completed at the same instant keep their input order, so the input order decides which of them is first or last |
| Tracker.AllTimeKeepsEverything | components/user/QuizPerformanceTracker.tsx:56-64 | range "all" keeps every result |
| Tracker.SameDayIsKept | components/user/QuizPerformanceTracker.tsx:59-64 | a result completed within the last day is kept by every window of at least one day |
| Tracker.Variance | components/user/QuizPerformanceTracker.tsx:117-121 | the population variance: the mean squared deviation from the mean, dividing by n |
| Tracker.VarianceNonNegative | components/user/QuizPerformanceTracker.tsx:117-121 | the population variance is never negative |
| Tracker.ConstantHasZeroVariance | components/user/QuizPerformanceTracker.tsx:117-121 | equal scores have variance 0 |
| Tracker.Consistency | components/user/QuizPerformanceTracker.tsx:114-125 | 100 for fewer than two scores. Otherwise max(0, 100 - 2 sd): always in [0, 100], 100 exactly when sd = 0, and 0 exactly when sd >= 50 |
| Tracker.IdenticalScoresFullyConsistent | components/user/QuizPerformanceTracker.tsx:114-125 | identical scores are fully consistent |
| Tracker.ImprovementRate | components/user/QuizPerformanceTracker.tsx:103-111 | 0 for fewer than two results. Otherwise undefined (NaN or Infinity) exactly when the first percentage is 0, else (last - first) / first * 100 |
| Tracker.ImprovementSign | components/user/QuizPerformanceTracker.tsx:103-111 | with a positive first percentage the rate is positive iff the last percentage beats the first, and 0 iff they are equal |
| Tracker.RecentTrend | components/user/QuizPerformanceTracker.tsx:88-96 | 0 for fewer than two results; otherwise positive iff the last percentage exceeds the second to last |
| Tracker.ComputeStats | components/user/QuizPerformanceTracker.tsx:80-100 | `totalQuizzes` is the count. Average and best are absent exactly for an empty set. Otherwise the average is the mean of the percentages and the best is a maximum percentage, never below the average. The consistency score is `Consistency` of the percentages: in [0, 100], and 100 below two results. Trend and improvement rate are their functions of the results |
| Tracker.FilteredScorable | components/user/QuizPerformanceTracker.tsx:54-69 | filtering keeps every percentage defined |
| Profile.GroupPerformance | components/user/UserProfile.tsx:95-115 | the reduce loop builds exactly the tally of the results, for a given set of inherited names |
| Profile.Tally | components/user/UserProfile.tsx:95-115 | the accumulator of the group-by `reduce` after each result: a new key gets its own bucket, a known key adds to its bucket, and a name inherited from `Object.prototype` leaves the accumulator's own entries unchanged |
| Profile.TallyWellFormed | components/user/UserProfile.tsx:95-115 | the tally has distinct keys, one bucket per key and every count at least 1 |
| Profile.TallyBuckets | components/user/UserProfile.tsx:95-115 | a key is present iff it is not an inherited name and some result has it. Its bucket holds the sum and the number of that group's percentages |
| Profile.InheritedNeverListed | components/user/UserProfile.tsx:95-115 | no listed key is an inherited name, so `Object.entries` never reports one |
| Profile.InheritedCategoryNotListed | components/user/UserProfile.tsx:147-166 | a single result in a category called "constructor" yields no category average at all |
| Profile.AverageIsGroupMean | components/user/UserProfile.tsx:111-114 | each reported average is the mean of its group's percentages |
| Profile.Averages | components/user/UserProfile.tsx:111-114 | one entry per key, in key order, holding that bucket's total divided by its count |
| Profile.CountsSumToTotal | components/user/UserProfile.tsx:95-115 | the group counts add up to the number of results whose key is not inherited, and so to the number of all results when no key is inherited |
| Profile.GroupMembership | components/user/UserProfile.tsx:147-166 | a result is in a group iff its key (difficulty or category name) is the group's |
| Profile.Streak | components/user/UserProfile.tsx:169-176 | the streak is the number of results inside the window, so it is at most the number of results |
| Profile.InStreak | components/user/UserProfile.tsx:169-176 | a result is in the streak when `floor((now - completed) / day)` is at most 7 |
| Profile.InStreakWindow | components/user/UserProfile.tsx:169-176 | a result counts iff it was completed less than eight days before `now` (or later) |
| Profile.RecentQuizzes | components/user/UserProfile.tsx:128-134 | at most five results, drawn from the input without repetition |
| Profile.RecentNewestFirst | components/user/UserProfile.tsx:128-134 | the recent results are ordered newest first |
| Profile.RecentAreNewest | components/user/UserProfile.tsx:128-134 | every result left out is no newer than any chosen one |
| Profile.RecentTiesInInputOrder | components/user/UserProfile.tsx:128-134 | among results completed at the same instant, the chosen ones are the first ones in input order |
| Seqs.SortByIsStable | components/user/UserProfile.tsx:128-133 | the sort is stable: for every key, the elements with that key keep their input order and multiplicity |
| Profile.RecentAverage | components/user/UserProfile.tsx:128-144 | 0 without results, else the mean percentage of the recent results |
| Profile.FewResultsRecentIsOverall | components/user/UserProfile.tsx:128-144 | with at most five results the recent ones are all of them |
| Profile.CalculateProfileStats | components/user/UserProfile.tsx:79-176 | the totals are the list lengths. Without results every score is 0. Otherwise the average is the mean percentage and the best is a maximum percentage no lower than the average. Also: the recent average, the streak (at most the total) and both group-by averages, which skip names inherited from `Object.prototype` |
| Profile.ProfileInitials | components/user/UserProfile.tsx:201-207 | a missing or empty name gives "", any other name its word initials |
| JsText.Initials | components/user/leaderboard.tsx:8-14 | uppercase first characters of the space-separated words: no spaces, no lowercase, at most one per word |
| JsText.FirstCharsCount | components/user/leaderboard.tsx:8-14 | exactly one initial per non-empty word; empty words give nothing |
| JsText.SplitJoinRoundTrip | components/user/leaderboard.tsx:10-12 | joining the pieces of `split(" ")` with spaces gives back the string |
| JsText.ParseIntRoundTrip | actions/quiz-actions.ts:47-48 | parseInt reads back every integer written in decimal |
| JsText.ParseIntOfDigitsThen | components/mods/excel-upload-modal.tsx:66-67 | a digit run followed by a non-digit reads as the digits' value |
| JsText.TrimIgnoresPadding | schemas/zodSchemas.ts:9-14 | white space added at either end does not change the trimmed string |
| JsText.TrimIdempotent | schemas/zodSchemas.ts:9-14 | trimming a trimmed string changes nothing |
| JsText.Utf16Length | schemas/zodSchemas.ts:7-11 | `.length` in UTF-16 code units: between the number of characters and twice that, and equal to it when every character is in the Basic Multilingual Plane |
| Leaderboard.DisplayName | actions/leaderboard.ts:41 | a missing or empty name becomes "Anonymous User"; other names are kept |
| Leaderboard.LatestCompletion | actions/leaderboard.ts:45-52 | absent iff there are no results, otherwise a completion time that no result exceeds |
| Leaderboard.Summarize | actions/leaderboard.ts:28-54 | `totalQuizzes` is the result count. Average is 0 with no results, else the mean percentage. `lastActive` is the latest completion. The id and image are copied |
| Leaderboard.AverageInRange | actions/leaderboard.ts:30-37 | with scores within their totals, the average lies in [0, 100] |
| Leaderboard.Fetched | actions/leaderboard.ts:7-11 | the fetched users are the first `limit` users |
| Leaderboard.GetLeaderboard | actions/leaderboard.ts:7-55 | at most `limit` entries, one per fetched user, sorted non-increasing by average, a permutation of the fetched users' summaries |
| Leaderboard.GetLeaderboardMissesTopUser | actions/leaderboard.ts:10-11 | with limit 1 and two users, the better user is left out |
| Leaderboard.TopUsers | actions/leaderboard.ts:55 | ranking before taking: min(limit, users) entries, sorted non-increasing, drawn from all users' summaries |
| Leaderboard.TopUsersAreBest | actions/leaderboard.ts:55 | every user left out has an average no higher than any listed entry |
| Leaderboard.SmallTablesAgree | actions/leaderboard.ts:10-11 | when all users fit within the limit the two orders list the same entries |
| LeaderboardCard.RankStyleOf | components/user/leaderboard.tsx:16-35 | an icon iff the rank is 1 to 3, a trophy iff rank 1, and the gray default style for every other rank |
| LeaderboardCard.PodiumStylesDistinct | components/user/leaderboard.tsx:16-35 | the three podium ranks have distinct colours and backgrounds, all unlike the default |
| LeaderboardCard.BadgeOf | components/user/leaderboard.tsx:47 | the rank number is shown iff there is no icon |
| LeaderboardCard.Cards | components/user/leaderboard.tsx:88-89 | the entry at index i is shown with rank i + 1 |
| LeaderboardCard.RanksFollowAverages | components/user/leaderboard.tsx:88-89 | a better rank never has a lower average, and only ranks 1 to 3 get an icon |
| Timer.Step | components/user/session/timer.tsx:25-32 | stopped: nothing changes. Above 1: minus exactly 1. At 1 or less: 0, one expiry, interval cleared |
| Timer.QuizTimer.constructor | components/user/session/timer.tsx:20-21 | the countdown starts at `timeLimit`, not warning, with a live interval and no expiry |
| Timer.ExpiresOnce | components/user/session/timer.tsx:24-32 | from n >= 1, k ticks leave n - k while k < n, and then 0 with exactly one expiry |
| Timer.ExpiresAtOnce | components/user/session/timer.tsx:24-32 | a limit of 1 or less expires on the first tick |
| Timer.Frozen | components/user/session/timer.tsx:23-41 | without a live interval, ticks change nothing |
| Timer.NeverNegative | components/user/session/timer.tsx:24-32 | time never goes negative and at most one expiry fires |
| Timer.QuizTimer.Tick | components/user/session/timer.tsx:25-32 | the timer state advances by exactly one step |
| Timer.QuizTimer.MoveTo | components/user/session/timer.tsx:43-47 | a new question resets time and warning without touching the interval |
| Timer.QuizTimer.ChangeTimeLimit | components/user/session/timer.tsx:23-47 | a new limit restarts the interval and resets the time |
| Timer.QuizTimer.ChangeExpiryHandler | components/user/session/timer.tsx:23-41 | a new handler restarts the interval and keeps the time |
| Timer.ExpiredThenNextQuestion | components/user/session/timer.tsx:23-47 | after an expiry, moving to the next question shows the full limit, but ticks no longer count down |
| Timer.ExpiredThenNextQuestionNewHandler | components/user/session/timer.tsx:23-47 | when each question brings a new expiry handler, the next question after an expiry shows the full limit and counts down again, expiring once more at the end |
| Timer.ProgressPercent | components/user/session/timer.tsx:55-56 | part / whole * 100, in [0, 100] when 0 <= part <= whole |
| Timer.FormatTime | components/user/session/timer.tsx:49-53 | `Math.floor(s / 60)`, a colon and the JavaScript remainder padded to two digits; its read-back is `Timer.FormatTimeRoundTrip` |
| Timer.FormatTimeRoundTrip | components/user/session/timer.tsx:49-53 | for s >= 0 the text reads back as m and sec with 60 m + sec = s, 0 <= sec < 60, and two second digits |
| Zod.PaddingIrrelevant | schemas/zodSchemas.ts:7-16 | a trimmed length check ignores white space around the value |
| Zod.BlankRejected | schemas/zodSchemas.ts:7-11 | an all-white-space value fails any minimum of at least 1 |
| QuestionForm.KindOf | components/admin/questions/questions-form.tsx:42 | each of the three type names maps to its own kind, and anything else is unknown |
| QuestionForm.Issues | components/admin/questions/questions-form.tsx:81-85 | an unknown type fails on the type alone; a known type is never a type issue. Lengths are counted in UTF-16 code units, as zod counts them |
| QuestionForm.Parse | components/admin/questions/questions-form.tsx:45-85 | fails with exactly the issues. On success: text and explanation trimmed and within their lengths in UTF-16 code units; quiz id, time limit, points and answer passed through unchanged, limits and points in range; `shuffleOptions` defaulted to false; for multiple choice the four input options and an answer of at most 3 code units, and for the others no options and a non-empty answer |
| QuestionForm.DefaultsRejected | components/admin/questions/questions-form.tsx:94-103 | the defaults fail on text, explanation and the missing quiz, and on nothing else |
| QuestionForm.ParsedTextTrimmed | components/admin/questions/questions-form.tsx:46-50 | accepted text has no white space at either end |
| QuestionForm.PaddingDoesNotMatter | components/admin/questions/questions-form.tsx:46-59 | white space around the text or explanation never changes the verdict |
| QuestionForm.SelectOption | components/admin/questions/questions-form.tsx:300-304 | choosing option i stores that option's text |
| QuestionForm.LongChoiceRejected | components/admin/questions/questions-form.tsx:68 | choosing an option longer than 3 characters fails validation |
| QuestionForm.ShortChoiceAccepted | components/admin/questions/questions-form.tsx:68 | an option of at most 3 UTF-16 code units passes the answer check |
| QuestionForm.AstralChoiceRejected | components/admin/questions/questions-form.tsx:68 | the two-character option "😀😀" is four code units long and fails the answer check |
| QuestionForm.SelectOptionIndex | components/admin/questions/questions-form.tsx:300-304 | corrected choice: stores the position of the option |
| QuestionForm.IndexChoiceAccepted | components/admin/questions/questions-form.tsx:65-68 | with positions stored, every option of a four-option question can be chosen |
| QuestionForm.TrueFalseAnswer | components/admin/questions/questions-form.tsx:239-241 | the radio stores "true" exactly for "true" and "false" for everything else |
| QuestionForm.TrueFalseChoiceAccepted | components/admin/questions/questions-form.tsx:71-73 | a radio answer always passes the true/false answer check |
| QuestionForm.EditOption | components/admin/questions/questions-form.tsx:306-313 | only slot `index` changes; the length is kept |
| QuestionForm.EditKeepsOptionCount | components/admin/questions/questions-form.tsx:306-313 | editing an option never changes the option-count verdict |
| QuestionForm.OptionsIgnoredOutsideMultipleChoice | components/admin/questions/questions-form.tsx:71-78 | the options never matter for true/false or short answer |
| CategorySchema.StatusOf | schemas/zodSchemas.ts:3 | exactly "active", "draft" and "archived" are statuses |
| CategorySchema.Issues | schemas/zodSchemas.ts:6-18 | the set of failing fields, all reported together |
| CategorySchema.IssuesPerField | schemas/zodSchemas.ts:6-18 | name fails iff its trimmed length in UTF-16 code units is outside [3, 50], description iff outside [10, 500], status iff unknown |
| CategorySchema.Parse | schemas/zodSchemas.ts:6-18 | fails with exactly the issues; on success the fields are the trimmed values, their lengths in UTF-16 code units within the bounds |
| CategorySchema.PaddingDoesNotMatter | schemas/zodSchemas.ts:9-14 | padding the name or description changes neither the issues nor the parsed category |
| CategorySchema.BlankNameRejected | schemas/zodSchemas.ts:7-11 | a blank name is rejected |
| QuizDialog.Issues | components/mods/create-quiz-dialog.tsx:39-58 | title fails iff its trimmed length in UTF-16 code units is outside [3, 100]. Description fails iff outside [10, 500]. Category id fails iff missing. Difficulty and status fail iff not listed |
| QuizDialog.DefaultsRejected | components/mods/create-quiz-dialog.tsx:62-67 | the defaults fail on title, description and category, and on nothing else |
| QuizDialog.PaddedTitle | components/mods/create-quiz-dialog.tsx:43-47 | padding the title never changes the issues |
| QuizDialog.AstralTitleAccepted | components/mods/create-quiz-dialog.tsx:43-47 | the two-character title "😀😀" is four code units long and passes the title check |
| QuizDialog.ShownIffQuizModal | components/mods/create-quiz-dialog.tsx:77 | the dialog is open iff the store is open on the quiz modal |
| QuizDialog.CreateQuizDialog.constructor | components/mods/create-quiz-dialog.tsx:71-82 | starts with the default form, no initial data and not submitting |
| QuizDialog.CreateQuizDialog.CloseAndCleanUp | components/mods/create-quiz-dialog.tsx:134-138 | form back to the defaults, no initial data, store closed |
| QuizDialog.CreateQuizDialog.DataEffect | components/mods/create-quiz-dialog.tsx:162-169 | store data, when present, becomes both the initial data and the form |
| QuizDialog.Resolved | components/mods/create-quiz-dialog.tsx:42-60 | the resolver's output: title and description trimmed, the other schema fields copied, `id` dropped |
| QuizDialog.ResolvedIssues | components/mods/create-quiz-dialog.tsx:42-60 | the parsed values have exactly the issues of the entered ones, and parsing again changes nothing |
| QuizDialog.CreateQuizDialog.Submit | components/mods/create-quiz-dialog.tsx:84-132 | the action receives the resolver's output: update with the initial data's id when there is one, create otherwise. A returned quiz closes and cleans up. Nothing else changes the form. Submitting always ends |
| QuizDialog.EditThenSubmit | components/mods/create-quiz-dialog.tsx:98-120 | opening with a quiz and submitting calls update on that quiz with the parsed values and closes the dialog |
| Modal.ModalStore.constructor | context/modalStore.ts:20-23 | starts closed with no type and no data |
| Modal.ModalStore.OnOpen | context/modalStore.ts:24 | open, with exactly the given type and data |
| Modal.ModalStore.OnClose | context/modalStore.ts:25 | closed with no type and no data, whatever came before |
| Modal.CloseIsIdempotent | context/modalStore.ts:24-25 | open then close returns to the initial state, and closing again keeps it |
| ExcelUpload.MapRow | components/mods/excel-upload-modal.tsx:61-77 | `quizId` is the selected quiz and time limit and points are parseInt of their cells. `shuffleOptions` is set iff the cell is the string "true". Multiple choice gets the four option cells and the correct-option cell; other rows get no options and the answer cell |
| ExcelUpload.MapRows | components/mods/excel-upload-modal.tsx:61 | one question per row, in order |
| ExcelUpload.AllForSelectedQuiz | components/mods/excel-upload-modal.tsx:64 | every mapped question belongs to the selected quiz |
| ExcelUpload.NumberCellsParse | components/mods/excel-upload-modal.tsx:66-67 | a numeric cell and a text cell of its digits both parse to the number |
| ExcelUpload.BooleanCellDoesNotShuffle | components/mods/excel-upload-modal.tsx:68 | a boolean TRUE cell does not turn shuffling on |
| ExcelUpload.AllCreatedNoFailureToasts | components/mods/excel-upload-modal.tsx:107-111 | no error toast when every call succeeds |
| ExcelUpload.FailuresReported | components/mods/excel-upload-modal.tsx:104-111 | each error toast names a rejected question, and every rejected question gets one |
| ExcelUpload.FailureToasts | components/mods/excel-upload-modal.tsx:104-111 | the error toasts of the first k calls, in call order, at most one per call |
| ExcelUpload.ProgressSteps | components/mods/excel-upload-modal.tsx:112 | after item i the progress is (i + 1) / total * 100 |
| ExcelUpload.ProgressRisesToFull | components/mods/excel-upload-modal.tsx:104-113 | progress rises strictly, stays within (0, 100], and ends at exactly 100 |
| ExcelUpload.ExcelUploadModal.constructor | components/mods/excel-upload-modal.tsx:39-42 | no file, not uploading, progress 0 and no quiz selected |
| ExcelUpload.SubmitEach | components/mods/excel-upload-modal.tsx:104-113 | the loop sends every question in order, collects exactly the failure toasts and records one progress value per item |
| ExcelUpload.ExcelUploadModal.SubmitAll | components/mods/excel-upload-modal.tsx:104-113 | every question is submitted in order, a toast for each rejection, one progress step per item |
| ExcelUpload.ExcelUploadModal.HandleUpload | components/mods/excel-upload-modal.tsx:50-127 | with no file, or with no quiz selected, only the refusal toast. A workbook whose parsing throws: the handler stops at its `await`, still uploading, with the file kept, progress 0 and no toast. A file the reader cannot read: the failure toast. Otherwise every row is submitted in order, the success toast shows and completion is reported. In these last two cases uploading ends false, the file is cleared and progress returns to 0 |
| QuizActions.Window | actions/quiz-actions.ts:58-59 | an absent or empty argument means no bound, any other is its parseInt |
| QuizActions.GetQuizById | actions/quiz-actions.ts:38-70 | an unreadable take or skip is refused. Otherwise the query's quiz is returned, "Quiz not found" when there is none, and "Failed to fetch quiz" when the query throws |
| RouteGate.Gate | middleware.ts:24-51 | the decision chain of middleware.ts: never a 204, and every redirect goes to the default page or the sign-in page |
| QuizActions.RejectedBeforeLookup | actions/quiz-actions.ts:46-51 | a refused argument gives the same answer whatever the database holds |
| QuizActions.EmptyMeansUnlimited | actions/quiz-actions.ts:47-48 | absent or empty arguments pass and impose no bound |
| QuizActions.NumericPrefixAccepted | actions/quiz-actions.ts:47-48 | digits followed by other text pass and are read as the digits, so "5abc" takes 5 |
| QuizActions.NegativeAccepted | actions/quiz-actions.ts:47-48 | a negative number passes and is handed on |
| QuizActions.NoDigitsRejected | actions/quiz-actions.ts:46-51 | a value starting with a letter is refused |
| RouteGate.CallbackUrl | middleware.ts:40-43 | the pathname, followed by the query only when it is non-empty |
| RouteGate.AdminRoutesFirst | middleware.ts:24-26 | on an admin route a non-administrator is always sent to the default page, logged in or not and API prefix or not |
| RouteGate.ApiPrefixPasses | middleware.ts:28-30 | outside the admin table every path under the API prefix passes |
| RouteGate.AuthPagesTurnBackSignedIn | middleware.ts:32-37 | on an auth page a logged-in user is sent to the default page and a visitor passes |
| RouteGate.SignInRedirect | middleware.ts:39-49 | sign-in redirect iff logged out, not API, not auth and not public |
| RouteGate.RedirectTargets | middleware.ts:24-49 | every redirect goes to the default page or the sign-in page |
| RouteGate.AdminPassesOutsideAuthPages | middleware.ts:24-51 | an administrator passes everywhere except the auth pages |
| RouteGate.LegacyOutcomes | copy.ts:14-39 | redirect iff a logged-in user on an auth page outside the API prefix; 204 iff neither API nor auth page |
| RouteGate.LegacyIgnoresRole | copy.ts:10-39 | the older gate ignores the role and the query string |
| RouteGate.GatesDisagreeOnLoggedOut | middleware.ts:39-49 | a logged-out visitor of an unlisted path: sign-in redirect in middleware.ts, 204 in copy.ts |
| RouteGate.GatesAgreeOnApiAndAuth | copy.ts:18-27 | on API and auth paths outside the admin table the two gates agree |
| RouteGate.LegacyGate | copy.ts:18-39 | the decision chain of copy.ts: the API prefix passes, and the only redirect sends a logged-in user to the default page |
| AdminUsers.ShownOrThrows | components/admin/users/index.tsx:54-59 | throws iff the name is missing, or it misses and the email is missing. Shown iff the name or email contains the term, ignoring case |
| AdminUsers.UsersPage.constructor | components/admin/users/index.tsx:47-50 | the given users, an empty search, no user being edited and not loading |
| AdminUsers.FilteredUsers | components/admin/users/index.tsx:54-59 | defined iff the callback never throws; then exactly the matching users, in order |
| AdminUsers.FilteredUsersMembership | components/admin/users/index.tsx:54-59 | a user is listed iff it is in the list and matches; the listing is a subsequence |
| AdminUsers.EmptySearchShowsAll | components/admin/users/index.tsx:54-59 | the empty term lists every named user, in order |
| AdminUsers.NamelessUserThrows | components/admin/users/index.tsx:57 | a user without a name makes the search throw |
| AdminUsers.WithoutUser | components/admin/users/index.tsx:86-88 | the users with another id remain, in order, each as often as before; users with that id are gone |
| AdminUsers.UsersPage.EditUser | components/admin/users/index.tsx:61-63 | opens the dialog on that user |
| AdminUsers.UsersPage.EditName | components/admin/users/index.tsx:170 | only the name of the edited user changes |
| AdminUsers.UsersPage.EditEmail | components/admin/users/index.tsx:183 | only the email of the edited user changes |
| AdminUsers.UsersPage.EditRole | components/admin/users/index.tsx:195 | only the role of the edited user changes |
| AdminUsers.UsersPage.UpdateUser | components/admin/users/index.tsx:65-84 | the update is requested. An error message keeps the edited user and shows the error; otherwise the dialog closes with a success notice. Loading ends false |
| AdminUsers.UsersPage.DeleteUser | components/admin/users/index.tsx:86-89 | removes exactly that id from the page list |
| AdminUsers.SaveAfterEdit | components/admin/users/index.tsx:65-84 | the edited name is sent, and the dialog stays open iff the answer is an error |
| AdminResults.FilteredResults | components/admin/results/index.tsx:64-68 | a result is listed iff its user id contains the term (ignoring case) and the quiz filter is off or matches; the listing is a subsequence and keeps every copy of a listed result |
| AdminResults.NoFilterShowsAll | components/admin/results/index.tsx:64-68 | no term and no quiz filter list every result in order |
| AdminResults.TimeSplit | components/admin/results/index.tsx:162-163 | for t >= 0: 60 m + s = t and 0 <= s < 60 |
| AdminResults.NegativeTimeSplit | components/admin/results/index.tsx:162-163 | for a negative t that is not a multiple of 60 the parts do not add up to t |
| AdminResults.Minutes | components/admin/results/index.tsx:162 | `Math.floor(timeTaken / 60)` |
| AdminResults.Seconds | components/admin/results/index.tsx:163 | `timeTaken % 60`, with the sign of `timeTaken` |
| AdminLearning.FilteredMaterials | components/admin/learning/index.tsx:55-59 | a material is listed iff its title or category contains the term, ignoring case; the listing is a subsequence and keeps every copy of a listed material |
| AdminLearning.Added | components/admin/learning/index.tsx:61-65 | one material appended with id String(length + 1), earlier ones kept |
| AdminLearning.Deleted | components/admin/learning/index.tsx:69-72 | the materials with another id remain, in order, each as often as before; materials with that id are gone |
| AdminLearning.DeleteAbsentId | components/admin/learning/index.tsx:69-72 | deleting an unused id changes nothing |
| AdminLearning.IdReusedAfterDelete | components/admin/learning/index.tsx:61-72 | after a delete the next add can issue an id that is still in use |
| AdminLearning.LearningPage.constructor | components/admin/learning/index.tsx:47-53 | the given materials, and an empty draft |
| AdminLearning.LearningPage.AddMaterial | components/admin/learning/index.tsx:61-67 | appends the draft under the next id and clears the draft |
| AdminLearning.LearningPage.DeleteMaterial | components/admin/learning/index.tsx:69-74 | removes exactly that id; the draft is kept |

## Left out

- Rendering, charts, tables, router pushes and the toasts' descriptions.
  - Toasts appear only where a method's contract records them.
- Storage and authentication are not modelled: Prisma, `auth()`, `revalidatePath` and the NextAuth callbacks.
  - The quiz query, `createQuestion`, `updateUser` and the parsed sheet are parameters.
  - QuizActions.GetQuizById: passes `take` and `skip` on without modelling what the database does with them, including negative values.
- routes.ts is not part of this model. Its route tables and default redirect are the parameter `Routes`. `encodeURIComponent` is a parameter. So is the absolute URL that `new URL` builds.
- Scheduling of `setInterval`, React effect order, and the timer's `isWarning` update are left out. The `isWarning` update reads a stale closure and its display is commented out.
- Floating point is not modelled: percentages and means are exact reals. `Math.sqrt` is the parameter `sd`. `toFixed` rounding and date formatting are left out.
- Tracker.ComputeStats: NaN and infinite results are `None`. A zero `totalPossibleScore` is excluded by the precondition `Scorable`; the source divides without a guard, and a quiz with no questions is submitted with total 0.
- Profile.CalculateProfileStats: requires `Scorable`, so a result with total 0 is not modelled. The source's NaN or Infinity averages and best score that such a result causes are not represented.
- Profile.Tally: requires `Scorable`; a bucket total made NaN or infinite by a zero total is not modelled.
- Leaderboard.Summarize: requires `Scorable`; a user whose results include a zero total gets a NaN or infinite average in the source, which is not modelled.
- Leaderboard.GetLeaderboard: requires `Scorable` of the fetched users only; the sort order among NaN averages is not modelled.
- Leaderboard.TopUsers: requires `Scorable` of every user, for the same reason.
- Scoring.Percentages: requires `Scorable`; `score / 0 * 100` is NaN or Infinity in the source and has no value here.
- Spreadsheet parsing (XLSX, `FileReader`) and `downloadSampleFile` are left out. Cells are text, whole numbers or booleans; fractional numeric cells are not modelled.
- ExcelUpload.ExcelUploadModal.HandleUpload: a `createQuestion` call that throws is not modelled. That action catches its own errors; a transport failure would end the loop early.
- Utils.RandomizeOne: the answer stays a string-or-boolean value. The source's dynamic typing of other fields is not modelled.
- `Object.entries` orders integer-like keys first. Profile.Averages lists keys in insertion order for every key.
- Profile.Tally: the NaN that an inherited name's `+=` writes onto `Object`, a built-in function or `Object.prototype` is not modelled; only its absence from the accumulator's own entries is.
- Unicode case mapping and normalisation are left out; `toLowerCase`/`toUpperCase` are ASCII.
- Strings are sequences of Unicode scalar values. Lengths are counted in UTF-16 code units, as the source counts them, but a lone surrogate cannot be a string element.
- JsText.Initials: `word[0]` takes the first UTF-16 code unit. For a word that starts outside the Basic Multilingual Plane that is half a surrogate pair; the model takes the whole character.
- Profile.ProfileInitials: the same `word[0]` difference as JsText.Initials.
- Zod reports a non-number `timeLimit` or `points` as a type error. That case is not modelled, because the fields are reals.
- The grading and quiz-session pages are not modelled; their source files are not part of this model.

## Findings

| source | as written | input that shows it | evidently intended | confidence | as-written member | corrected member |
|---|---|---|---|---|---|---|
| actions/leaderboard.ts:10-11, 55 | the query takes the first `limit` users in database order and sorts only those by average | limit 1; user "a" scores 1/2, user "b" scores 2/2: the board lists only "a" | the `limit` best users by average score | not executed; high | Leaderboard.GetLeaderboardMissesTopUser | Leaderboard.TopUsersAreBest |
| components/admin/questions/questions-form.tsx:68, 300-304 | choosing an option stores its text, but the schema limits the multiple-choice answer to 3 characters | any option longer than 3 characters, e.g. "Paris", makes the form invalid | store the option's position ("0"–"3"), which the limit and the sample sheet's answer "1" suggest | not executed; medium | QuestionForm.LongChoiceRejected | QuestionForm.IndexChoiceAccepted |
