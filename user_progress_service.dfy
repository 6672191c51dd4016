/** services/user_progress.py: recording testing attempts, the testing and activity counts and
    the points ranking. */
module ProgressService {
  import opened Wrappers
  import opened Tables
  import opened Db
  import opened ProgressRepo
  import Text

  /** The progress table after mark_exercise_completed: the matching records are updated; when
      there were none, a record with one attempt is appended. */
  function Marked(progress: seq<ProgressRow>, userId: int, exerciseType: string, section: string, subsection: string,
                  exerciseId: int, success: bool, today: int): (r: seq<ProgressRow>)
    ensures |r| == |progress| + (if MatchingAttempts(progress, userId, exerciseType, section, subsection, exerciseId) == 0
                                 then 1 else 0)
    ensures forall i :: 0 <= i < |progress| && !IsAttempt(progress[i], userId, exerciseType, section, subsection, exerciseId)
                        ==> r[i] == progress[i]
    ensures forall i :: 0 <= i < |progress| && IsAttempt(progress[i], userId, exerciseType, section, subsection, exerciseId)
                        ==> r[i] == progress[i].(attempts := progress[i].attempts + 1, success := success, date := today)
    ensures MatchingAttempts(progress, userId, exerciseType, section, subsection, exerciseId) == 0
            ==> r[|progress|] == ProgressRow(userId, exerciseType, section, subsection, exerciseId, 1, success, today)
  {
    if MatchingAttempts(progress, userId, exerciseType, section, subsection, exerciseId) == 0
    then progress + [ProgressRow(userId, exerciseType, section, subsection, exerciseId, 1, success, today)]
    else AttemptRecorded(progress, userId, exerciseType, section, subsection, exerciseId, success, today)
  }

  /** After marking, the exercise has exactly one record when it had none and as many as before
      otherwise. */
  lemma MarkedCount(progress: seq<ProgressRow>, userId: int, exerciseType: string, section: string,
                    subsection: string, exerciseId: int, success: bool, today: int)
    ensures var before := MatchingAttempts(progress, userId, exerciseType, section, subsection, exerciseId);
      var after := Marked(progress, userId, exerciseType, section, subsection, exerciseId, success, today);
      MatchingAttempts(after, userId, exerciseType, section, subsection, exerciseId) == (if before == 0 then 1 else before)
  {
    var isIt := (p: ProgressRow) => IsAttempt(p, userId, exerciseType, section, subsection, exerciseId);
    if MatchingAttempts(progress, userId, exerciseType, section, subsection, exerciseId) == 0 {
      var entry := ProgressRow(userId, exerciseType, section, subsection, exerciseId, 1, success, today);
      FilterAppend(progress, [entry], isIt);
      assert Filter([entry], isIt) == [entry];
    } else {
      CountUnderUpdate(progress, isIt, (p: ProgressRow) => p.(attempts := p.attempts + 1, success := success, date := today));
    }
  }

  /** After marking, every record of the exercise carries the latest answer and today's date. */
  lemma MarkedLatestAnswer(progress: seq<ProgressRow>, userId: int, exerciseType: string, section: string,
                           subsection: string, exerciseId: int, success: bool, today: int)
    ensures var after := Marked(progress, userId, exerciseType, section, subsection, exerciseId, success, today);
      forall p :: p in after && IsAttempt(p, userId, exerciseType, section, subsection, exerciseId)
                  ==> p.success == success && p.date == today
  {
    var after := Marked(progress, userId, exerciseType, section, subsection, exerciseId, success, today);
    var matches := MatchingAttempts(progress, userId, exerciseType, section, subsection, exerciseId);
    forall p | p in after && IsAttempt(p, userId, exerciseType, section, subsection, exerciseId)
      ensures p.success == success && p.date == today
    {
      var i :| 0 <= i < |after| && after[i] == p;
    }
  }

  /** Marking leaves the records of every other exercise, user and type as they were. */
  lemma MarkedKeepsOthers(progress: seq<ProgressRow>, userId: int, exerciseType: string, section: string,
                          subsection: string, exerciseId: int, success: bool, today: int)
    ensures var after := Marked(progress, userId, exerciseType, section, subsection, exerciseId, success, today);
      forall p :: p in progress && !IsAttempt(p, userId, exerciseType, section, subsection, exerciseId) ==> p in after
  {
    var after := Marked(progress, userId, exerciseType, section, subsection, exerciseId, success, today);
    forall p | p in progress && !IsAttempt(p, userId, exerciseType, section, subsection, exerciseId)
      ensures p in after
    {
      var i :| 0 <= i < |progress| && progress[i] == p;
      assert after[i] == p;
    }
  }

  /** An update that keeps the selection condition keeps the count of selected rows. */
  lemma {:induction false} CountUnderUpdate(s: seq<ProgressRow>, p: ProgressRow -> bool, f: ProgressRow -> ProgressRow)
    requires forall x :: p(x) ==> p(f(x))
    ensures Count(UpdateWhere(s, p, f), p) == Count(s, p)
  {
    if s != [] {
      var r := UpdateWhere(s, p, f);
      assert r[1..] == UpdateWhere(s[1..], p, f);
      CountUnderUpdate(s[1..], p, f);
    }
  }

  /** The label of an activity window of `interval` days. */
  function ActivityLabel(interval: int): string
  {
    if interval == 0 then "сегодня"
    else if interval == 7 then "последнюю неделю"
    else if interval == 30 then "последний месяц"
    else "последние " + Text.IntToString(interval) + " дн."
  }

  /** The label of any other window starts with "последние " followed by the number. */
  lemma GeneralLabelShape(n: int)
    requires n !in {0, 7, 30}
    ensures |ActivityLabel(n)| > 8 && ActivityLabel(n)[0] == 'п' && ActivityLabel(n)[7] == 'и' && ActivityLabel(n)[8] == 'е'
  {
  }

  /** Different windows get different labels. */
  lemma ActivityLabelInjective(a: int, b: int)
    ensures ActivityLabel(a) == ActivityLabel(b) ==> a == b
  {
    var prefix := "последние ";
    if a != b {
      if a !in {0, 7, 30} && b !in {0, 7, 30} {
        if ActivityLabel(a) == ActivityLabel(b) {
          var sa, sb := Text.IntToString(a), Text.IntToString(b);
          assert prefix + sa + " дн." == prefix + sb + " дн.";
          assert |sa| == |sb|;
          assert forall k :: 0 <= k < |sa| ==> sa[k] == (prefix + sa + " дн.")[|prefix| + k];
          assert forall k :: 0 <= k < |sb| ==> sb[k] == (prefix + sb + " дн.")[|prefix| + k];
          Text.IntToStringInjective(a, b);
        }
      } else if a !in {0, 7, 30} {
        GeneralLabelShape(a);
      } else if b !in {0, 7, 30} {
        GeneralLabelShape(b);
      }
    }
  }

  /** The reply of get_activity_by_user. */
  function ActivityReport(period: string, testing: nat, newWords: nat, irregularVerbs: nat): string
  {
    "Твоя статистика за <b>" + period + "</b>:\n"
    + "Тестирование: " + Text.IntToString(testing) + "\n"
    + "Изучение новых слов: " + Text.IntToString(newWords) + "\n"
    + "Неправильные глаголы: " + Text.IntToString(irregularVerbs) + "\n"
  }

  /** The counts of a report of the last `interval` days. */
  function ActivityCounts(progress: seq<ProgressRow>, userId: int, interval: int, utcToday: int): (counts: (nat, nat, nat))
  {
    (CountByTypeInInterval(progress, userId, TestingType, utcToday - interval, utcToday),
     CountByTypeInInterval(progress, userId, "New words", utcToday - interval, utcToday),
     CountByTypeInInterval(progress, userId, "Irregular verbs", utcToday - interval, utcToday))
  }

  /** A longer window reports at least as much of every activity; a negative one reports nothing. */
  lemma ActivityCountsMonotone(progress: seq<ProgressRow>, userId: int, shorter: int, longer: int, utcToday: int)
    requires shorter <= longer
    ensures var s := ActivityCounts(progress, userId, shorter, utcToday);
      var l := ActivityCounts(progress, userId, longer, utcToday);
      s.0 <= l.0 && s.1 <= l.1 && s.2 <= l.2
    ensures shorter < 0 ==> ActivityCounts(progress, userId, shorter, utcToday) == (0, 0, 0)
  {
    IntervalMonotone(progress, userId, TestingType, utcToday - shorter, utcToday, utcToday - longer, utcToday);
    IntervalMonotone(progress, userId, "New words", utcToday - shorter, utcToday, utcToday - longer, utcToday);
    IntervalMonotone(progress, userId, "Irregular verbs", utcToday - shorter, utcToday, utcToday - longer, utcToday);
  }

  /** How a place is shown: with medals, the first three places are medals. */
  datatype RankDisplay = Place(n: int) | Gold | Silver | Bronze

  function RankDisplayOf(place: int, medals: bool): (d: RankDisplay)
    ensures !medals || place !in {1, 2, 3} ==> d == Place(place)
  {
    if medals && place == 1 then Gold
    else if medals && place == 2 then Silver
    else if medals && place == 3 then Bronze
    else Place(place)
  }

  /** str() of a displayed place. */
  function RankText(d: RankDisplay): string
  {
    match d
    case Gold => "🥇"
    case Silver => "🥈"
    case Bronze => "🥉"
    case Place(n) => Text.IntToString(n)
  }

  /** The place get_user_rank_and_total gives a user: one more than the number of users with
      strictly more points (a missing user counts as having 0 points). */
  function UserRank(users: seq<User>, userId: int): (rank: int)
    ensures 1 <= rank <= TotalUsers(users) + 1
  {
    CountUsersWithPointsGreater(users, UserPoints(users, userId)) + 1
  }

  /** The points reading of a present user is the points of one of its rows. */
  lemma PresentUserPoints(users: seq<User>, userId: int, i: int)
    requires 0 <= i < |users| && users[i].userId == userId
    ensures exists k :: 0 <= k < |users| && users[k].userId == userId && users[k].points == UserPoints(users, userId)
  {
    var u := First(users, (u: User) => u.userId == userId);
    assert users[i] in users;
    var k :| 0 <= k < |users| && users[k] == u.value;
  }

  /** A present user is ranked within the table. */
  lemma RankWithinTotal(users: seq<User>, userId: int, i: int)
    requires 0 <= i < |users| && users[i].userId == userId
    ensures UserRank(users, userId) <= TotalUsers(users)
  {
    PresentUserPoints(users, userId, i);
    var k :| 0 <= k < |users| && users[k].userId == userId && users[k].points == UserPoints(users, userId);
    CountBelowSize(users, (u: User) => u.points > UserPoints(users, userId), k);
  }

  /** A present user with more points ranks strictly better; equal points share a place. */
  lemma RankOrder(users: seq<User>, a: int, b: int, i: int)
    requires 0 <= i < |users| && users[i].userId == a
    ensures UserPoints(users, a) > UserPoints(users, b) ==> UserRank(users, a) < UserRank(users, b)
    ensures UserPoints(users, a) == UserPoints(users, b) ==> UserRank(users, a) == UserRank(users, b)
  {
    var pa, pb := UserPoints(users, a), UserPoints(users, b);
    if pa > pb {
      PresentUserPoints(users, a, i);
      var k :| 0 <= k < |users| && users[k].userId == a && users[k].points == pa;
      CountStrict(users, (u: User) => u.points > pa, (u: User) => u.points > pb, k);
    }
  }

  /** One row of get_all_users_ranks_and_points. */
  datatype RankEntry = RankEntry(rank: string, userId: string, fullName: string, tgLogin: string, points: string)

  /** The entry of the user at 1-based `position` of the ordered list. */
  function EntryAt(s: Standing, position: int, medals: bool): RankEntry
  {
    RankEntry(RankText(RankDisplayOf(position, medals)), Text.IntToString(s.userId), s.fullName, s.tgLogin,
              Text.IntToString(s.points))
  }

  /** Places on the leaderboard are shown differently for different positions. */
  lemma RankTextInjective(p: int, q: int, medals: bool)
    requires p >= 1 && q >= 1
    ensures RankText(RankDisplayOf(p, medals)) == RankText(RankDisplayOf(q, medals)) ==> p == q
  {
    var dp, dq := RankDisplayOf(p, medals), RankDisplayOf(q, medals);
    if RankText(dp) == RankText(dq) {
      if dp.Place? && dq.Place? {
        Text.IntToStringInjective(p, q);
      }
    }
  }

  /** Two users with equal points share a place in get_user_rank_and_total but get two places on
      the leaderboard of get_all_users_ranks_and_points, which numbers positions. */
  lemma TiedUsersRankedApartOnLeaderboard()
    ensures var users := [User(1, 10, "A", "a", 0, 5, None, None), User(2, 20, "B", "b", 0, 5, None, None)];
      var board := ListUsersOrderedByPoints(users);
      UserRank(users, 10) == UserRank(users, 20) == 1
      && |board| == 2 && board[0].points == board[1].points
      && EntryAt(board[0], 1, false).rank != EntryAt(board[1], 2, false).rank
  {
    var users := [User(1, 10, "A", "a", 0, 5, None, None), User(2, 20, "B", "b", 0, 5, None, None)];
    var board := ListUsersOrderedByPoints(users);
    assert UserPoints(users, 10) == 5;
    assert UserPoints(users, 20) == 5;
    assert board[0] in multiset(Project(users, StandingOf));
    assert board[1] in multiset(Project(users, StandingOf));
    RankTextInjective(1, 2, false);
  }

  class UserProgressService {
    const repo: UserProgressRepository

    constructor (repo: UserProgressRepository)
      ensures this.repo == repo
    {
      this.repo := repo;
    }

    /** mark_exercise_completed: true when the exercise had no record yet. */
    method MarkExerciseCompleted(userId: int, exerciseType: string, subsection: string, section: string,
                                 exerciseId: int, success: bool, today: int) returns (firstTry: bool)
      modifies repo.db`progress, repo.db`users
      ensures firstTry <==> MatchingAttempts(old(repo.db.progress), userId, exerciseType, section, subsection, exerciseId) == 0
      ensures repo.db.users == AddPoints(old(repo.db.users), userId, if success then 1 else -1)
      ensures repo.db.progress == Marked(old(repo.db.progress), userId, exerciseType, section, subsection, exerciseId,
                                         success, today)
    {
      var rowcount := repo.UpdateProgressAttempt(userId, exerciseType, section, subsection, exerciseId, success, today);
      repo.UpdateUserPoints(userId, if success then 1 else -1);
      firstTry := rowcount == 0;
      if firstTry {
        AttemptRecordedWithoutMatch(old(repo.db.progress), userId, exerciseType, section, subsection, exerciseId,
                                    success, today);
        var entry := ProgressRow(userId, exerciseType, section, subsection, exerciseId, 1, success, today);
        repo.AddProgressEntry(entry);
      }
    }

    /** delete_progress_by_subsection. */
    method DeleteProgressBySubsection(userId: int, section: string, subsection: string)
      modifies repo.db`progress
      ensures forall p :: p in repo.db.progress <==> p in old(repo.db.progress) && !InSubsection(p, userId, section, subsection)
    {
      repo.DeleteProgressBySubsection(userId, section, subsection);
    }

    /** get_counts_completed_exercises_testing: solved on the first try, solved, and the size of
        the subsection. */
    method GetCountsCompletedExercisesTesting(userId: int, section: string, subsection: string)
      returns (firstTrySuccess: nat, success: nat, total: nat)
      ensures firstTrySuccess == CountSuccessTesting(repo.db.progress, userId, section, subsection, true)
      ensures success == CountSuccessTesting(repo.db.progress, userId, section, subsection, false)
      ensures total == CountTestingExercisesTotal(repo.db.exercises, section, subsection)
      ensures firstTrySuccess <= success
    {
      firstTrySuccess := CountSuccessTesting(repo.db.progress, userId, section, subsection, true);
      success := CountSuccessTesting(repo.db.progress, userId, section, subsection, false);
      total := CountTestingExercisesTotal(repo.db.exercises, section, subsection);
      FirstTryWithinSolved(repo.db.progress, userId, section, subsection);
    }

    /** get_activity_by_user: the report of the last `interval` days up to the UTC date. */
    method GetActivityByUser(userId: int, interval: int, utcToday: int) returns (text: string)
      ensures var c := ActivityCounts(repo.db.progress, userId, interval, utcToday);
        text == ActivityReport(ActivityLabel(interval), c.0, c.1, c.2)
    {
      var c := ActivityCounts(repo.db.progress, userId, interval, utcToday);
      text := ActivityReport(ActivityLabel(interval), c.0, c.1, c.2);
    }

    /** get_user_points. */
    method GetUserPoints(userId: int) returns (points: int)
      ensures points == UserPoints(repo.db.users, userId)
      ensures (forall u :: u in repo.db.users ==> u.userId != userId) ==> points == 0
    {
      points := UserPoints(repo.db.users, userId);
    }

    /** get_user_rank_and_total. */
    method GetUserRankAndTotal(userId: int, medals: bool) returns (rank: RankDisplay, total: nat)
      ensures rank == RankDisplayOf(UserRank(repo.db.users, userId), medals)
      ensures total == |repo.db.users|
    {
      var points := UserPoints(repo.db.users, userId);
      var higher := CountUsersWithPointsGreater(repo.db.users, points);
      total := TotalUsers(repo.db.users);
      rank := RankDisplayOf(higher + 1, medals);
    }

    /** get_all_users_ranks_and_points: the ordered list, each user with its 1-based position. */
    method GetAllUsersRanksAndPoints(medals: bool) returns (entries: seq<RankEntry>)
      ensures var board := ListUsersOrderedByPoints(repo.db.users);
        |entries| == |board| && forall i :: 0 <= i < |board| ==> entries[i] == EntryAt(board[i], i + 1, medals)
    {
      var board := ListUsersOrderedByPoints(repo.db.users);
      entries := [];
      var idx := 0;
      while idx < |board|
        invariant 0 <= idx <= |board|
        invariant |entries| == idx
        invariant forall i :: 0 <= i < idx ==> entries[i] == EntryAt(board[i], i + 1, medals)
      {
        entries := entries + [EntryAt(board[idx], idx + 1, medals)];
        idx := idx + 1;
      }
    }
  }

  /** No two leaderboard entries show the same place. */
  lemma LeaderboardPlacesDistinct(entries: seq<RankEntry>, board: seq<Standing>, medals: bool)
    requires |entries| == |board| && forall i :: 0 <= i < |board| ==> entries[i] == EntryAt(board[i], i + 1, medals)
    ensures forall i, j :: 0 <= i < j < |entries| ==> entries[i].rank != entries[j].rank
  {
    forall i, j | 0 <= i < j < |entries| ensures entries[i].rank != entries[j].rank {
      RankTextInjective(i + 1, j + 1, medals);
    }
  }
}
