# EngFlowBot learning core in Dafny

EngFlowBot is a Telegram bot for learning Russian–English vocabulary and grammar. This project
models the part of the bot that keeps the books: the six database tables (users, catalogue
words, a user's learning records, test sentences, per-exercise attempt records and daily
counters); the repositories that query and update them; and the services built on top:

- the spaced-repetition scheduler;
- picking a due word with three distractors;
- recording a review;
- enrolment and per-subsection statistics;
- testing exercises and the user's available exercises;
- points, rank and the leaderboard;
- activity reports and daily statistics;
- the Russian plural of "слово".

Two pieces of the admin handlers are modelled as well: cutting a long text into messages, and
adding test sentences written one per line as `test=+=answer`.

Layout, one module per source file:

- `db.dfy`: the rows and the shared `Database` class. Each table is a `seq` field.
- `*_repo.dfy`: one `*Repository` class per repository. Its writes are methods with `modifies`
  clauses. Its read queries are pure functions over the tables.
- `*_service.dfy`: one `*Service` class per service, over its repository.
- `scheduler.dfy`: the scheduler.
- `message_to_users.dfy`: the plural rule.
- `admin_handlers.dfy`: the handler logic.
- `tables.dfy`, `text.dfy`, `wrappers.dfy`: what SQL and Python provide. `tables.dfy` covers
  filtering, counting, ordering, `scalar_one_or_none` and UPDATE/DELETE … WHERE. `text.dfy`
  covers `str(int)`, `split`, `join`, `replace`, `capitalize` and name ordering.

How values are modelled:

- Dates are day numbers. The current date is an explicit parameter (`today`, `utcToday`, `utcNow`).
- Python floats are reals.
- `random.choice` and `random.sample` are a nondeterministic choice, constrained only to what
  they may return.

## Model

| member | source | states |
|---|---|---|
| Scheduler.SuccessRate | services/utils.py:4-7 | 0 without attempts; otherwise rate × attempts = successes, so the rate lies in [0, 1] whenever 0 ≤ successes ≤ attempts |
| Scheduler.AdjustmentFactor | services/utils.py:16-22 | both branches are the same line 2·rate − 0.5: exactly 1 at the neutral rate 0.75, 1.5 at full accuracy, 0 at 0.25 and negative below it |
| Scheduler.NextInterval | services/utils.py:10-25 | exactly 1.7^success days at the neutral rate; positive exactly when the rate is above 0.25 and negative exactly when it is below |
| Scheduler.PowStrictlyIncreasing | services/utils.py:11-14 | for a growth factor above 1, the standard interval grows strictly with the number of successes |
| Scheduler.NextIntervalCanBeNegative | services/utils.py:10-25 | the interval is never clamped: no success at rate 0 gives −0.5 days |
| Scheduler.NextIntervalMonotoneInRate | services/utils.py:10-25 | for a fixed success count a better rate never shortens the interval, and a strictly better one lengthens it |
| Scheduler.NextIntervalIncreasingInSuccess | services/utils.py:10-25 | with a positive adjustment, more successes give a strictly longer interval |
| Scheduler.NextReviewDate | services/utils.py:28-34 | the review date is always after today: today plus the whole days of the interval when that is at least one day, otherwise tomorrow |
| Scheduler.NextReviewDateExample | services/utils.py:28-34 | four successes in five attempts bring the word back in nine days |
| Db.AddPoints | db/repositories/user_progress.py:78-81 | every row of the Telegram id gets `points + delta`; every other row and the table size are unchanged |
| Db.UserPoints | db/repositories/user_progress.py:136-138 | 0 for an unknown user; any non-zero reading is the points of one of the user's rows |
| Db.OtherUsersPointsUnchanged | db/repositories/user_progress.py:78-81 | adding points to one user leaves every other user's points as they were |
| Db.UserPointsMoved | db/repositories/user_progress.py:78-81 | adding `delta` to a present user moves that user's points by exactly `delta` |
| Db.AddPointsToMissingUser | db/repositories/user_progress.py:78-81 | adding points to a user who is not in the table writes nothing |
| UserRepo.ByUserId | db/repositories/user.py:29-31 | the WHERE condition holds exactly for the rows with that Telegram id |
| UserRepo.GetByUserId | db/repositories/user.py:29-31 | no row for an unknown Telegram id; the unique row when there is one; raises exactly when two or more rows share the id |
| UserRepo.ListAll | db/repositories/user.py:33-35 | a permutation of the table, ordered by primary key |
| UserRepo.BasicInfoUpdated | db/repositories/user.py:43-49 | the rows with the loaded row's primary key get the new name and login; all other rows are kept in place |
| UserRepo.TimezoneSet | db/repositories/user.py:56-59 | the rows of the Telegram id get the new time zone; all other rows are kept |
| UserRepo.ReminderTimeSet | db/repositories/user.py:61-64 | the rows of the Telegram id get the new reminder time; all other rows are kept |
| UserRepo.TimezoneReadsBack | db/repositories/user.py:56-59 | a lookup after set_timezone finds the same row with the new time zone, and an unknown or duplicated id stays so |
| UserRepo.ReminderTimeReadsBack | db/repositories/user.py:61-64 | a lookup after set_reminder_time finds the same row with the new reminder time, and an unknown or duplicated id stays so |
| UserRepo.UserRepository.Add | db/repositories/user.py:39-41 | the user is appended to the table |
| UserRepo.UserRepository.UpdateBasicInfo | db/repositories/user.py:43-49 | returns the loaded row with the new name and login, and stores it by primary key |
| UserRepo.UserRepository.DeleteByUserId | db/repositories/user.py:51-54 | the rows that remain are exactly the old rows with another Telegram id |
| UserRepo.UserRepository.SetTimezone | db/repositories/user.py:56-59 | the table becomes TimezoneSet of the old table |
| UserRepo.UserRepository.SetReminderTime | db/repositories/user.py:61-64 | the table becomes ReminderTimeSet of the old table |
| Users.NextUserId | services/user.py:32-40 | the primary key of a new row is larger than every existing one |
| Users.Registered | services/user.py:32-40 | a new user keeps the given Telegram id, name, login and registration time; starts at the default points; has no reminder time or time zone; and has a fresh primary key |
| Users.UserAdded | services/user.py:19-41 | an unknown id is registered; a known one keeps its row count; an unchanged name and login write nothing; a duplicated id raises |
| Users.UserAddedReadsBack | services/user.py:19-41 | after add_user the Telegram id names exactly one row, and it carries the given name and login |
| Users.AddUserIdempotent | services/user.py:19-41 | repeating add_user with the same name and login, at any later time, changes nothing |
| Users.UserService.AddUser | services/user.py:19-41 | the table becomes UserAdded of the old one; it raises exactly when the id is duplicated, and then writes nothing |
| Users.UserService.DeleteUser | services/user.py:43-44 | the rows that remain are exactly the old rows with another Telegram id |
| Users.UserService.SetTimezone | services/user.py:46-47 | the user's row reads back unchanged except for the new time zone |
| Users.UserService.SetReminderTime | services/user.py:49-50 | the user's row reads back unchanged except for the new reminder time |
| Users.UserService.GetAllUsers | services/user.py:52-66 | every user exactly once, ordered by primary key |
| Users.UserService.GetUser | services/user.py:68-81 | None exactly for an unknown id; the user's own row when it is unique; raises exactly when the id is duplicated |
| NewWordsRepo.MaxWordId | db/repositories/new_words.py:19-25 | the largest id of the subsection (an upper bound that is reached); 0 for an empty subsection |
| NewWordsRepo.ListWords | db/repositories/new_words.py:27-34 | exactly the words of every subsection with that name, ordered by id |
| NewWordsRepo.CountWords | db/repositories/new_words.py:36-46 | the number of words in the section's subsection |
| NewWordsRepo.SubsectionNames | db/repositories/new_words.py:48-55 | each subsection name of the section exactly once, in increasing order |
| NewWordsRepo.WordUpdated | db/repositories/new_words.py:63-80 | the keyed word gets the new russian and english; every other word is kept in place |
| NewWordsRepo.NewWordsRepository.AddWord | db/repositories/new_words.py:59-61 | the word is appended |
| NewWordsRepo.NewWordsRepository.UpdateWord | db/repositories/new_words.py:63-80 | the catalogue becomes WordUpdated of the old one |
| NewWordsRepo.NewWordsRepository.DeleteWord | db/repositories/new_words.py:82-90 | the words that remain are exactly the old words with another key |
| NewWords.Listing | services/new_words.py:58-63 | the listing is empty exactly when there are no words |
| NewWords.WordLine | services/new_words.py:61-63 | every line of the word listing ends with a newline |
| NewWords.KeyText | services/new_words.py:58-59 | `str(subsection)` of a name or a number; no contract of its own, used by GetNewWordsExercises to pick the words to list |
| NewWords.PersonalIdsAgree | db/repositories/user_words_learning.py:241-247 | the personal id counter of the learning repository is the subsection maximum of the catalogue under str(user_id) |
| NewWords.NewWordsService.AddNewWordsExercise | services/new_words.py:14-31 | the word is appended under the next id of its subsection, and no word of the subsection had that id |
| NewWords.NewWordsService.DeleteNewWordsExercise | services/new_words.py:33-39 | the words that remain are exactly the old words with another key |
| NewWords.NewWordsService.EditNewWordsExercise | services/new_words.py:41-49 | only the keyed word changes, to the new russian and english |
| NewWords.NewWordsService.GetCountNewWordsExercisesInSubsection | services/new_words.py:51-56 | the number of words in the subsection |
| NewWords.NewWordsService.GetNewWordsExercises | services/new_words.py:58-63 | the listing of the words filed under str(subsection), by id; empty exactly when there are none |
| NewWords.NewWordsService.GetSubsectionNames | services/new_words.py:65-66 | each subsection of the section once, in increasing order |
| TestingRepo.MaxExerciseId | db/repositories/testing.py:19-25 | the largest id of the subsection (an upper bound that is reached); 0 for an empty subsection |
| TestingRepo.ListExercises | db/repositories/testing.py:27-34 | exactly the exercises of every subsection with that name, ordered by id |
| TestingRepo.CountExercises | db/repositories/testing.py:36-46 | the number of exercises in the section's subsection |
| TestingRepo.CompletedIds | db/repositories/testing.py:54-60 | exactly the ids the user has answered correctly in the subsection |
| TestingRepo.AvailableExercises | db/repositories/testing.py:48-69 | an exercise is available exactly when it belongs to the subsection and the user has no correct answer for its id |
| TestingRepo.AvailableWithinCount | db/repositories/testing.py:48-69 | there are never more available exercises than the subsection holds |
| TestingRepo.SectionNames | db/repositories/testing.py:71-76 | each section name exactly once, in increasing order |
| TestingRepo.SubsectionNames | db/repositories/testing.py:78-85 | each subsection name of the section exactly once, in increasing order |
| TestingRepo.ExerciseUpdated | db/repositories/testing.py:93-110 | the keyed exercise gets the new text and answer; every other exercise is kept in place |
| TestingRepo.TestingRepository.AddExercise | db/repositories/testing.py:89-91 | the exercise is appended |
| TestingRepo.TestingRepository.UpdateExercise | db/repositories/testing.py:93-110 | the catalogue becomes ExerciseUpdated of the old one |
| TestingRepo.TestingRepository.DeleteExercise | db/repositories/testing.py:112-120 | the exercises that remain are exactly the old ones with another key |
| Testing.Listing | services/testing.py:39-44 | the listing is empty exactly when there are no exercises |
| Testing.ExerciseLine | services/testing.py:42-44 | every entry of the exercise listing ends with a blank line |
| Testing.SolvedExerciseNotAvailable | db/repositories/testing.py:48-69 | once a correct testing answer is marked, that exercise is no longer available to the user |
| Testing.TestingService.AddTestingExercise | services/testing.py:20-37 | the exercise is appended under the next id of its subsection, and no exercise of the subsection had that id; the stored answer has no U+00A0 left |
| Testing.TestingService.GetTestingExercises | services/testing.py:39-44 | the listing of the subsection's exercises by id; empty exactly when the subsection has none |
| Testing.TestingService.GetCountTestingExercisesInSubsection | services/testing.py:46-51 | the number of exercises in the subsection |
| Testing.TestingService.GetRandomTestingExercise | services/testing.py:53-65 | None exactly when nothing is available; otherwise the text, answer and id of some available exercise |
| Testing.TestingService.GetSectionNames | services/testing.py:67-68 | each section once, in increasing order |
| Testing.TestingService.GetSubsectionNames | services/testing.py:70-71 | each subsection of the section once, in increasing order |
| Testing.TestingService.EditTestingExercise | services/testing.py:73-81 | only the keyed exercise changes, to the new text and answer |
| Testing.TestingService.DeleteTestingExercise | services/testing.py:83-86 | the exercises that remain are exactly the old ones with another key |
| ProgressRepo.AttemptRecorded | db/repositories/user_progress.py:46-72 | every matching record gets one more attempt, the new success flag (overwriting the old one) and today's date; the others are kept in place |
| ProgressRepo.MatchingAttempts | db/repositories/user_progress.py:46-72 | the rowcount is 0 exactly when no record matches the five-column key |
| ProgressRepo.AttemptRecordedWithoutMatch | db/repositories/user_progress.py:46-72 | with no matching record the update writes nothing |
| ProgressRepo.CountSuccessTesting | db/repositories/user_progress.py:97-109 | the number of the user's correct testing records in the subsection, or of those solved at the first attempt |
| ProgressRepo.FirstTryWithinSolved | db/repositories/user_progress.py:97-109 | first-try successes never outnumber successes |
| ProgressRepo.CountTestingExercisesTotal | db/repositories/user_progress.py:111-117 | the size of the subsection in the testing catalogue |
| ProgressRepo.CountByTypeInInterval | db/repositories/user_progress.py:120-133 | the user's records of the type dated in [start, end], both ends included; none for an empty window |
| ProgressRepo.IntervalMonotone | db/repositories/user_progress.py:120-133 | a window that contains another counts at least as many records |
| ProgressRepo.CountUsersWithPointsGreater | db/repositories/user_progress.py:140-142 | the number of users with strictly more points; at most the number of users |
| ProgressRepo.TotalUsers | db/repositories/user_progress.py:144-146 | `count()` over the users table: the number of rows satisfying an always-true condition |
| ProgressRepo.PointsGreaterAntitone | db/repositories/user_progress.py:140-142 | raising the threshold never raises the count |
| ProgressRepo.ListUsersOrderedByPoints | db/repositories/user_progress.py:148-156 | every user exactly once, with most points first |
| ProgressRepo.UserProgressRepository.UpdateProgressAttempt | db/repositories/user_progress.py:46-72 | returns the number of matching records and applies AttemptRecorded |
| ProgressRepo.UserProgressRepository.AddProgressEntry | db/repositories/user_progress.py:74-76 | the record is appended |
| ProgressRepo.UserProgressRepository.UpdateUserPoints | db/repositories/user_progress.py:78-81 | the user's points move by `delta` (AddPoints) |
| ProgressRepo.UserProgressRepository.DeleteProgressBySubsection | db/repositories/user_progress.py:83-92 | the records that remain are exactly the old ones outside the user's subsection, of every type |
| ProgressService.MarkedCount | services/user_progress.py:29-52 | after marking, an exercise with no record has exactly one, and an exercise with records has as many as before |
| ProgressService.MarkedLatestAnswer | services/user_progress.py:29-52 | after marking, every record of the exercise carries the latest answer and today's date |
| ProgressService.MarkedKeepsOthers | services/user_progress.py:29-52 | records of every other user, type and exercise survive marking unchanged |
| ProgressService.Marked | services/user_progress.py:29-52 | the table grows by one record exactly when the exercise had none, and that record holds one attempt, the answer and today's date; every matched record gets one more attempt, the answer and today's date; every other record keeps its place and value |
| ProgressService.CountUnderUpdate | db/repositories/user_progress.py:46-72 | an update that preserves the WHERE condition preserves the number of selected rows |
| ProgressService.GeneralLabelShape | services/user_progress.py:92-99 | any window other than 0, 7 and 30 days is labelled "последние …" |
| ProgressService.ActivityLabelInjective | services/user_progress.py:92-99 | different windows get different labels |
| ProgressService.ActivityLabel | services/user_progress.py:92-99 | the window's label; no contract of its own, stated by ActivityLabelInjective and GeneralLabelShape |
| ProgressService.ActivityReport | services/user_progress.py:101-106 | the report text; no contract of its own, it is the text GetActivityByUser returns |
| ProgressService.ActivityCounts | services/user_progress.py:79-90 | the three counts over the window; no contract of its own, stated by ActivityCountsMonotone |
| ProgressService.ActivityCountsMonotone | services/user_progress.py:75-106 | a longer window reports at least as much of each activity; a negative window reports nothing |
| ProgressService.RankDisplayOf | services/user_progress.py:119-125 | without medals, or outside the first three places, the place is shown as a number |
| ProgressService.UserRank | services/user_progress.py:111-117 | the place lies between 1 and the number of users plus one |
| ProgressService.PresentUserPoints | db/repositories/user_progress.py:136-138 | the points reading of a present user is the points of one of the user's rows |
| ProgressService.RankWithinTotal | services/user_progress.py:111-127 | a present user's place is at most the number of users |
| ProgressService.RankOrder | services/user_progress.py:111-127 | more points rank strictly better, and equal points share a place |
| ProgressService.RankTextInjective | services/user_progress.py:135-147 | different leaderboard positions are shown differently, with or without medals |
| ProgressService.RankText | services/user_progress.py:119-125 | `str()` of a place or a medal; no contract of its own, stated by RankTextInjective |
| ProgressService.EntryAt | services/user_progress.py:135-153 | one leaderboard entry; no contract of its own, stated by RankTextInjective and GetAllUsersRanksAndPoints |
| ProgressService.TiedUsersRankedApartOnLeaderboard | services/user_progress.py:111-155 | two users with equal points share place 1 in get_user_rank_and_total but get two different places on the leaderboard |
| ProgressService.UserProgressService.MarkExerciseCompleted | services/user_progress.py:16-54 | true exactly when the exercise had no record; the points move by ±1; the records become Marked of the old ones |
| ProgressService.UserProgressService.DeleteProgressBySubsection | services/user_progress.py:56-59 | the records that remain are exactly the old ones outside the user's subsection |
| ProgressService.UserProgressService.GetCountsCompletedExercisesTesting | services/user_progress.py:63-73 | first-try successes, successes and the subsection size, with first-try ≤ successes |
| ProgressService.UserProgressService.GetActivityByUser | services/user_progress.py:75-106 | the report of the three activity counts over the last `interval` days up to the UTC date, under the window's label |
| ProgressService.UserProgressService.GetUserPoints | services/user_progress.py:108-109 | the user's points, 0 for an unknown user |
| ProgressService.UserProgressService.GetUserRankAndTotal | services/user_progress.py:111-127 | one plus the number of users with more points, medals for the first three when asked, and the number of users |
| ProgressService.UserProgressService.GetAllUsersRanksAndPoints | services/user_progress.py:129-155 | one entry per user of the ordered list, each with its 1-based position |
| ProgressService.LeaderboardPlacesDistinct | services/user_progress.py:129-155 | no two leaderboard entries show the same place |
| WordsLearningRepo.WordsToLearnToday | db/repositories/user_words_learning.py:25-36 | exactly the user's records whose review date is today or earlier |
| WordsLearningRepo.AllWordsBySectionSubsection | db/repositories/user_words_learning.py:38-52 | exactly the user's records in that section's subsection |
| WordsLearningRepo.AllWordsByUser | db/repositories/user_words_learning.py:54-62 | exactly the user's records |
| WordsLearningRepo.CountAllByUser | db/repositories/user_words_learning.py:96-102 | the number of the user's records |
| WordsLearningRepo.CountAllTodayByUser | db/repositories/user_words_learning.py:104-111 | the number of due records, never more than the user's records |
| WordsLearningRepo.CountActiveLearning | db/repositories/user_words_learning.py:64-74 | the user's records with at most the active threshold of successes |
| WordsLearningRepo.CountLearned | db/repositories/user_words_learning.py:85-94 | the user's records with at least the learned threshold of successes |
| WordsLearningRepo.ActiveAndLearnedWithinTotal | db/repositories/user_words_learning.py:64-94 | with the learned threshold above the active one, the two counts add up to at most the user's records |
| WordsLearningRepo.DistinctSubsections | db/repositories/user_words_learning.py:113-117 | each subsection the user has records in, exactly once |
| WordsLearningRepo.InSubsection | db/repositories/user_words_learning.py:119-152 | exactly the user's records in the subsection, of any section |
| WordsLearningRepo.CountLearnedInSubsection | db/repositories/user_words_learning.py:119-129 | the learned records of the subsection |
| WordsLearningRepo.CountActiveInSubsection | db/repositories/user_words_learning.py:76-83 | the actively learned records of the subsection |
| WordsLearningRepo.CountTodayInSubsection | db/repositories/user_words_learning.py:131-141 | the due records of the subsection |
| WordsLearningRepo.CountTotalInSubsection | db/repositories/user_words_learning.py:143-152 | the records of the subsection |
| WordsLearningRepo.SumSuccessInSubsection | db/repositories/user_words_learning.py:154-163 | a non-negative total of successes, 0 for an empty subsection |
| WordsLearningRepo.SumAttemptsInSubsection | db/repositories/user_words_learning.py:165-174 | a non-negative total of attempts, 0 for an empty subsection |
| WordsLearningRepo.LearningInfo | db/repositories/user_words_learning.py:176-190 | None exactly when no record has the four-field key; otherwise such a record |
| WordsLearningRepo.WordOf | db/repositories/user_words_learning.py:176-190 | the catalogue word with the record's section, subsection and id, or None exactly when there is none |
| WordsLearningRepo.JoinWords | db/repositories/user_words_learning.py:25-36 | each record's word, in order, or None exactly when some record has no word |
| WordsLearningRepo.ListNewWords | db/repositories/user_words_learning.py:225-233 | exactly the catalogue words of the subsection, ordered by id |
| WordsLearningRepo.MaxCustomWordId | db/repositories/user_words_learning.py:241-247 | an upper bound on the ids of the user's personal words that one of them reaches, 0 when there are none |
| WordsLearningRepo.ProgressUpdated | db/repositories/user_words_learning.py:202-223 | as written: every record of the word, whoever owns it, gets the new success count and date and one more attempt |
| WordsLearningRepo.Reviewed | db/repositories/user_words_learning.py:218-222 | the reviewed record keeps its key, takes the given success count and date, and has one more attempt |
| WordsLearningRepo.ProgressUpdatedForUser | db/repositories/user_words_learning.py:202-223 | corrected: only the given user's record of the word is reviewed |
| WordsLearningRepo.ProgressUpdatedReachesOtherUsers | db/repositories/user_words_learning.py:212-217 | as written, user 1's wrong answer writes its success count 3 and tomorrow's date into user 2's record, which ends with 3 successes and 1 attempt |
| WordsLearningRepo.ProgressUpdatedForUserKeepsOthers | db/repositories/user_words_learning.py:202-223 | the corrected update never touches another user's record |
| WordsLearningRepo.ProgressUpdatedForUserConsistent | db/repositories/user_words_learning.py:202-223 | the corrected update keeps successes ≤ attempts when the new success count fits |
| WordsLearningRepo.LearningInfoAfterUpdate | db/repositories/user_words_learning.py:176-223 | after the corrected update, learning_info finds the record it found before, reviewed |
| WordsLearningRepo.UserWordsLearningRepository.UpdateUserPoints | db/repositories/user_words_learning.py:194-200 | the user's points move by `delta` |
| WordsLearningRepo.UserWordsLearningRepository.UpdateLearningProgress | db/repositories/user_words_learning.py:202-223 | as written: the records become ProgressUpdated of the old ones |
| WordsLearningRepo.UserWordsLearningRepository.UpdateLearningProgressForUser | db/repositories/user_words_learning.py:202-223 | corrected: the records become ProgressUpdatedForUser of the old ones |
| WordsLearningRepo.UserWordsLearningRepository.AddUserWordsLearningEntries | db/repositories/user_words_learning.py:235-239 | the records are appended in order |
| WordsLearningRepo.UserWordsLearningRepository.AddUserWordsLearningEntry | db/repositories/user_words_learning.py:253-257 | the record is appended |
| WordsLearningRepo.UserWordsLearningRepository.AddNewWord | db/repositories/user_words_learning.py:249-251 | the word is appended to the catalogue |
| WordsLearningService.Candidates | services/user_words_learning.py:32-36 | exactly one option per word whose russian differs from the chosen one: every option is such a word capitalised, every such word gives an option, and there are as many options as such words |
| WordsLearningService.DistractorPoolSource | services/user_words_learning.py:29-47 | every distractor is the capitalised russian of another word of the user's; the pool is the same-subsection candidates when there are at least three, and otherwise the candidates from all of the user's words |
| WordsLearningService.DistractorPool | services/user_words_learning.py:29-46 | the options pool; no contract of its own, stated by DistractorPoolSource, which pins the pool down to one of two Candidates lists |
| WordsLearningService.SampleThree | services/user_words_learning.py:47 | three options taken from three different positions of the pool |
| WordsLearningService.StatsCountsWithinTotal | services/user_words_learning.py:77-112 | learned plus active words never exceed the subsection's size, and neither do the words due today |
| WordsLearningService.StatsOf | services/user_words_learning.py:77-112 | one subsection's statistics; no contract of its own, stated by StatsCountsWithinTotal and StatsRateIsPercentage |
| WordsLearningService.StatsRateIsPercentage | services/user_words_learning.py:77-112 | the success rate is 0 without attempts, and otherwise a percentage in [0, 100] when records are consistent |
| WordsLearningService.ReviewEffect | services/user_words_learning.py:114-147 | a correct answer adds a success and an attempt and schedules the word after today; a wrong one adds only an attempt and brings the word back tomorrow; the key is kept and successes ≤ attempts is preserved |
| WordsLearningService.ReviewedSuccess | services/user_words_learning.py:128-133 | the success count after an answer; no contract of its own, stated by ReviewEffect |
| WordsLearningService.ReviewedDate | services/user_words_learning.py:131-139 | the review date after an answer; no contract of its own, stated by ReviewEffect |
| WordsLearningService.ReviewReadsBack | services/user_words_learning.py:114-147 | after a recorded review, learning_info reads the reviewed record back |
| WordsLearningService.Enrolment | services/user_words_learning.py:149-163 | one record per catalogue word, keyed by its id, with no successes or attempts, due on the enrolment day |
| WordsLearningService.EnrolledAreDue | services/user_words_learning.py:149-163 | every newly enrolled record joins the words due on the enrolment day |
| WordsLearningService.UserWordsLearningService.GetRandomWordExercise | services/user_words_learning.py:22-56 | nothing due exactly when no record is due; otherwise three options for some due record, the error raised when its pool is below three, or a missing word for a due record whose catalogue word or distractor pool is gone |
| WordsLearningService.UserWordsLearningService.CountActiveLearningExercises | services/user_words_learning.py:58-64 | active words never exceed the user's words minus the learned ones |
| WordsLearningService.UserWordsLearningService.CountLearnedExercises | services/user_words_learning.py:63-64 | the learned words never exceed all of the user's words |
| WordsLearningService.UserWordsLearningService.GetUserStats | services/user_words_learning.py:77-112 | one entry per subsection the user has records in, holding that subsection's statistics |
| WordsLearningService.UserWordsLearningService.SetProgress | services/user_words_learning.py:114-147 | corrected: nothing happens for an unknown record; otherwise the points move by ±1 and only the user's record is reviewed |
| WordsLearningService.UserWordsLearningService.SetProgressAsWritten | services/user_words_learning.py:131-147 | as written: a correct answer adds the point and then raises, leaving the record unchanged; a wrong answer updates every user's record of the word |
| WordsLearningService.UserWordsLearningService.AddWordsToLearning | services/user_words_learning.py:149-163 | one due record per catalogue word of the subsection is appended, in id order |
| WordsLearningService.UserWordsLearningService.AdminAddWordsToLearning | services/user_words_learning.py:165-188 | a personal word under str(user_id) with an id above all of the user's personal ids, plus its record, due today |
| DailyStatisticsRepo.Bump | db/repositories/daily_statistics.py:42-50 | one counter is raised by the amount, the date and the other counters are kept |
| DailyStatisticsRepo.GetByDate | db/repositories/daily_statistics.py:26-28 | none, the day's row, or a raise, exactly as the day has zero, one or more rows |
| DailyStatisticsRepo.Blank | db/repositories/daily_statistics.py:30-40 | the new row of the day has every counter at zero |
| DailyStatisticsRepo.Incremented | db/repositories/daily_statistics.py:42-50 | every row of the day is bumped; the other rows are kept in place |
| DailyStatisticsRepo.WindowSum | db/repositories/daily_statistics.py:54-78 | an empty window sums to 0 |
| DailyStatisticsRepo.WindowSumAppend | db/repositories/daily_statistics.py:54-78 | the sum over two parts of a table is the sum of the parts |
| DailyStatisticsRepo.IncrementedWindowSum | db/repositories/daily_statistics.py:42-78 | incrementing a day raises that counter's sum over a window holding the day by the amount per row of the day; every other sum is unchanged |
| DailyStatisticsRepo.Aggregate | db/repositories/daily_statistics.py:54-78 | an empty window gives four zeros |
| DailyStatisticsRepo.DailyStatisticsRepository.CreateBlankForDate | db/repositories/daily_statistics.py:30-40 | the blank row of the day is appended and returned |
| DailyStatisticsRepo.DailyStatisticsRepository.IncrementField | db/repositories/daily_statistics.py:42-50 | the table becomes Incremented of the old one |
| DailyStatistics.TypeToField | services/daily_statistics.py:9-14 | a counter exactly for the four known update types |
| DailyStatistics.Updated | services/daily_statistics.py:23-36 | the table after one update; no contract of its own. An unknown type writes nothing, a day without a row gets a blank row first, the day's counter goes up by one, and None when the day has two or more rows, as stated by UnknownTypeIgnored, FirstUpdateOfDay, UpdateCountsOnce and UpdateFailsOnlyOnDuplicates |
| DailyStatistics.UnknownTypeIgnored | services/daily_statistics.py:23-26 | an unknown update type writes nothing |
| DailyStatistics.UpdateFailsOnlyOnDuplicates | services/daily_statistics.py:23-36 | an update raises exactly when the type is known and the day already has two or more rows |
| DailyStatistics.UpdateCountsOnce | services/daily_statistics.py:23-36 | after a successful update the day has exactly one row, and the matching sum grows by one over every window holding the day, with the other sums unchanged |
| DailyStatistics.CountPreserved | services/daily_statistics.py:33-36 | incrementing keeps the number of rows of the day |
| DailyStatistics.FirstUpdateOfDay | services/daily_statistics.py:29-36 | the first update of a day appends one row with 1 in its counter and 0 elsewhere |
| DailyStatistics.DailyStatisticsService.Update | services/daily_statistics.py:23-36 | the table becomes Updated of the old one, or is left unchanged when the lookup raises |
| DailyStatistics.DailyStatisticsService.Get | services/daily_statistics.py:38-39 | the aggregate over the window; zeros for an empty window |
| Declension.FormOf | utils/message_to_users.py:97-102 | singular exactly for counts ending in 1 but not 11; paucal exactly for counts ending in 2–4 but not 12–14 |
| Declension.WordForm | utils/message_to_users.py:97-102 | the three forms of "слово"; no contract of its own, stated by WordDeclension |
| Declension.WordDeclension | utils/message_to_users.py:87-102 | the count followed by "слово", "слова" or "слов", as the count's last digits demand |
| Declension.TeensArePlural | utils/message_to_users.py:97-102 | counts ending in 11–14 always take "слов" |
| Declension.FormByLastTwoDigits | utils/message_to_users.py:97-102 | the form depends only on the last two digits |
| Declension.DeclensionExamples | utils/message_to_users.py:87-102 | 1 and 21 give "слово", 3 gives "слова", 0 and 11 give "слов"; −1 is plural and −9 singular, because Python's remainder is never negative |
| Declension.CountReadsBack | utils/message_to_users.py:87-102 | the text is the count and one word separated by a space, and the count parses back |
| Text.Split | handlers/admin_handlers.py:147 | `str.split` always gives at least one piece |
| Text.Capitalize | services/user_words_learning.py:33 | the length is kept, the first character is upper-cased and every other one lower-cased |
| Text.CapitalizeIdempotent | services/user_words_learning.py:33 | capitalising twice is capitalising once |
| Text.IntToString | services/user_words_learning.py:169 | at least one character; the digits of a non-negative number, or '-' followed by digits |
| Text.JoinSplit | handlers/admin_handlers.py:173-185 | joining the pieces of a split with the same separator gives the string back |
| Text.Without | services/testing.py:35 | deleting a character leaves none of it and keeps every other character |
| Text.ParseIntToString | services/user_words_learning.py:169 | `str(user_id)` reads back to the user id |
| Text.IntToStringInjective | services/user_words_learning.py:169 | different users get different `str(user_id)` keys |
| Text.SortedNames | db/repositories/testing.py:71-76 | DISTINCT … ORDER BY gives each name once, in strictly increasing order |
| AdminHandlers.Terminated | handlers/admin_handlers.py:179-182 | each paragraph re-emitted with its newline, so the text ends with a newline whenever there is a paragraph |
| AdminHandlers.TerminatedJoin | handlers/admin_handlers.py:173-185 | re-emitting each paragraph with its newline gives the text plus one final newline |
| AdminHandlers.Appended | handlers/admin_handlers.py:178-179 | a paragraph that still fits is appended to the current message, and the loop invariant holds again |
| AdminHandlers.Flushed | handlers/admin_handlers.py:181-182 | otherwise the current message is sent and the paragraph starts the next one, and the loop invariant holds again |
| AdminHandlers.Drained | handlers/admin_handlers.py:176-185 | once every paragraph is consumed, the messages re-emit them all; every message fits; only the first may be empty, and it is empty exactly when the first paragraph alone reaches the limit |
| AdminHandlers.Finished | handlers/admin_handlers.py:173-185 | the same stated for the text: the messages make up the text plus a final newline |
| AdminHandlers.SendLongMessage | handlers/admin_handlers.py:173-185 | the messages make up the text plus a final newline. Each is under the limit, or one paragraph on its own, or empty. Only the first can be empty, and it is exactly when the first paragraph alone reaches the limit. The last one ends the text |
| AdminHandlers.ParseLine | handlers/admin_handlers.py:153 | the unpacking succeeds exactly when the line holds one separator `=+=` |
| AdminHandlers.ParseLineSound | handlers/admin_handlers.py:153 | a parsed line is its test, the separator and its answer |
| AdminHandlers.ParseLineComplete | handlers/admin_handlers.py:153 | a test without `=` and an answer without the separator parse back to themselves |
| AdminHandlers.TwoSeparatorsRefused | handlers/admin_handlers.py:153 | a line with two separators is refused |
| AdminHandlers.ParsedPrefix | handlers/admin_handlers.py:152-154 | the pairs of the lines before the first one that does not parse |
| AdminHandlers.Row | services/testing.py:30-36 | the stored row has the given section, subsection, id and test, and its answer has no U+00A0 |
| AdminHandlers.Rows | handlers/admin_handlers.py:152-154 | one row per pair; RowsAt states that the k-th is the k-th pair under id base + k + 1 |
| AdminHandlers.Inserted | handlers/admin_handlers.py:152-154 | the exercise table after adding each pair in turn; no contract of its own, stated by InsertedShape and InsertedMaxId |
| AdminHandlers.InsertedShape | handlers/admin_handlers.py:152-154 | the old exercises stay in front, and the k-th pair is stored under the subsection's largest id plus k + 1 with its U+00A0 deleted |
| AdminHandlers.InsertedMaxId | handlers/admin_handlers.py:152-154 | adding n lines raises the subsection's largest id by n |
| AdminHandlers.LineStored | handlers/admin_handlers.py:154 | one add_testing_exercise call extends the table exactly as one more line does |
| AdminHandlers.StoreLine | handlers/admin_handlers.py:153-154 | one well-formed line is stored as the next exercise of the subsection |
| AdminHandlers.StoreLines | handlers/admin_handlers.py:152-154 | the lines before the first malformed one are stored, each under the next id; it reports whether every line was stored |
| AdminHandlers.AddSentences | handlers/admin_handlers.py:142-170 | the lines before the first malformed one are stored; the reply is the format error exactly when some line is malformed, else the number of lines added or "one added" |

## Left out

- Telegram I/O is not modelled: keyboards, message sending, handler routing and the FSM states.
  `send_long_message` is modelled as the list of message texts it sends.
- `print`, logging, database sessions and transactions, and asyncio scheduling are not modelled.
  Every repository call is one atomic step on the shared tables.
- Clocks and randomness are parameters. `date.today()` and `datetime.utcnow()` become day
  numbers. `random.choice` and `random.sample` become a nondeterministic choice.
- Scheduler.NextInterval: floating point is modelled as exact real arithmetic, so IEEE rounding
  of `1.7 ** n` is not captured.
- Scheduler.NextReviewDate: `timedelta(days=x)` first rounds x to whole microseconds. The model
  keeps floor(x) days of the exact real, so an interval a hair below a whole day is not rounded up.
- Scheduler.NextReviewDate: dates are unbounded day numbers. Python's `date` ends at 9999-12-31,
  so `date.today() + timedelta(days=x)` raises OverflowError once the interval runs past it.
  From 2026 that happens, for instance, at 28 successes in 28 attempts (about 4.25 million
  days); the model
  returns that far-off day instead. A float overflow of `1.7 ** n` (from n ≈ 1338) is not
  modelled either.
- `get_user_info_text` (services/user.py:83-103) is not part of this model. It only formats
  `strftime` dates.
- Text.Capitalize: only Basic Latin and Cyrillic letters are case-mapped. Other characters are
  kept unchanged.
- DailyStatisticsRepo.WindowSum: its own contract states only the empty window. What the sums
  mean is stated by WindowSumAppend, IncrementedWindowSum and UpdateCountsOnce.
- DailyStatisticsRepo.Aggregate: its own contract states only the empty window. Each field is
  the WindowSum of one counter.
- WordsLearningService.SampleThree: which three entries `random.sample` draws, and in what
  order, is left open.
- Users.NextUserId assumes the autoincrement key is one more than the largest key, since the
  models are not part of this model.
- ORM model defaults are assumptions. A new user has 0 points. A new learning record has
  success 0, attempts 0 and a review date of the enrolment day.
- Queries without ORDER BY are assumed to return rows in table order. ORDER BY on names is
  code-point order.
- The grammar handler reaches `add_testing_exercise` through its exercise manager, which is
  modelled as TestingService.add_testing_exercise.
- The handler's branch for non-text messages is not modelled.
- Failures inside `add_testing_exercise` that would reach the handler's `except` are not
  modelled.
- WordsLearningService.UserWordsLearningService.GetRandomWordExercise: the MissingWord outcome
  stands for the `AttributeError` the code would raise on a record whose catalogue word is gone.
  Its contract names a due record whose word or distractor pool is missing, but not which one.
- Service getters that only forward to a repository query are modelled by that query. These
  are `count_all`, `count_today` and `get_added_subsections`. The forwarding getters
  `get_count_learned_exercises` and `get_user_points` are members of their own:
  UserWordsLearningService.CountLearnedExercises and UserProgressService.GetUserPoints.
- Checking typed answers (user_testing_handlers) is not part of this model.
- AdminHandlers.SendLongMessage: its contract states what the messages add up to and that each
  fits, but not that they are packed greedily. A split with one paragraph per message would also
  meet it.
- In three places the model follows the code rather than what the names or comments suggest:
  - update_progress_attempt overwrites `success` with the latest answer
    (db/repositories/user_progress.py:65-69);
  - add_testing_exercise deletes U+00A0 from answers, although the comment on that line says it
    becomes a plain space (services/testing.py:35);
  - add_words_to_learning does not skip words the user already has.

## Findings

| source | as written | input that shows it | evidently intended | confidence | as-written member | corrected member |
|---|---|---|---|---|---|---|
| services/user_words_learning.py:134-136 | `await` is applied to the plain function `calculate_next_review_date`, which returns a `date` and cannot be awaited | any correct answer on a known record: the point is added at line 132, then TypeError is raised and the record is never updated | compute the review date synchronously and record the review | not executed | WordsLearningService.UserWordsLearningService.SetProgressAsWritten | WordsLearningService.UserWordsLearningService.SetProgress |
| db/repositories/user_words_learning.py:212-217 | the UPDATE filters on section, subsection and exercise id only, not on the user | users 1 and 2 learn word (A, B, 7) with 3/5 and 0/0. User 1 answers wrongly on day 10, and user 2's record becomes 3 successes with 1 attempt, due on day 11 | update only the answering user's record | not executed | WordsLearningRepo.ProgressUpdated, WordsLearningRepo.UserWordsLearningRepository.UpdateLearningProgress, WordsLearningRepo.ProgressUpdatedReachesOtherUsers | WordsLearningRepo.ProgressUpdatedForUser, WordsLearningRepo.UserWordsLearningRepository.UpdateLearningProgressForUser, WordsLearningRepo.ProgressUpdatedForUserConsistent |
