/** db/repositories/user_progress.py: per-exercise attempt records, the points column and the
    leaderboard queries. */
module ProgressRepo {
  import opened Tables
  import opened Db

  /** The exercise type the testing part of the bot records its attempts under. */
  const TestingType: string := "Testing"

  /** The attempt record of one user on one exercise of one type (the five-column key). */
  predicate IsAttempt(p: ProgressRow, userId: int, exerciseType: string, section: string, subsection: string,
                      exerciseId: int)
  {
    p.userId == userId && p.exerciseType == exerciseType && p.section == section
    && p.subsection == subsection && p.exerciseId == exerciseId
  }

  /** The table after update_progress_attempt: every matching record gets one more attempt, the
      new success flag (overwriting the old one) and today's date. */
  function AttemptRecorded(progress: seq<ProgressRow>, userId: int, exerciseType: string, section: string,
                           subsection: string, exerciseId: int, success: bool, today: int): (r: seq<ProgressRow>)
    ensures |r| == |progress|
    ensures forall i :: 0 <= i < |progress| ==>
      r[i] == if IsAttempt(progress[i], userId, exerciseType, section, subsection, exerciseId)
              then progress[i].(attempts := progress[i].attempts + 1, success := success, date := today)
              else progress[i]
  {
    UpdateWhere(progress, (p: ProgressRow) => IsAttempt(p, userId, exerciseType, section, subsection, exerciseId),
                (p: ProgressRow) => p.(attempts := p.attempts + 1, success := success, date := today))
  }

  /** The number of records update_progress_attempt touches (its rowcount). */
  function MatchingAttempts(progress: seq<ProgressRow>, userId: int, exerciseType: string, section: string,
                            subsection: string, exerciseId: int): (n: nat)
    ensures n == 0 <==> forall p :: p in progress ==> !IsAttempt(p, userId, exerciseType, section, subsection, exerciseId)
  {
    var matches := Filter(progress, (p: ProgressRow) => IsAttempt(p, userId, exerciseType, section, subsection, exerciseId));
    assert matches != [] ==> matches[0] in matches;
    Count(progress, (p: ProgressRow) => IsAttempt(p, userId, exerciseType, section, subsection, exerciseId))
  }

  /** With no matching record, recording an attempt leaves the table as it is. */
  lemma {:induction false} AttemptRecordedWithoutMatch(progress: seq<ProgressRow>, userId: int, exerciseType: string,
                                                        section: string, subsection: string, exerciseId: int,
                                                        success: bool, today: int)
    requires MatchingAttempts(progress, userId, exerciseType, section, subsection, exerciseId) == 0
    ensures AttemptRecorded(progress, userId, exerciseType, section, subsection, exerciseId, success, today) == progress
  {
    var r := AttemptRecorded(progress, userId, exerciseType, section, subsection, exerciseId, success, today);
    forall i | 0 <= i < |progress| ensures r[i] == progress[i] {
      assert progress[i] in progress;
    }
  }

  /** The records of the user in a subsection (of any type): what delete_progress_by_subsection removes. */
  predicate InSubsection(p: ProgressRow, userId: int, section: string, subsection: string)
  {
    p.section == section && p.subsection == subsection && p.userId == userId
  }

  /** Correct testing records of the user in the subsection; with `firstTryOnly`, only those solved
      on the first attempt. */
  predicate IsSolvedTest(p: ProgressRow, userId: int, section: string, subsection: string, firstTryOnly: bool)
  {
    p.userId == userId && p.exerciseType == TestingType && p.section == section && p.subsection == subsection
    && p.success && (firstTryOnly ==> p.attempts == 1)
  }

  /** count_success_testing. */
  function CountSuccessTesting(progress: seq<ProgressRow>, userId: int, section: string, subsection: string,
                               firstTryOnly: bool): (n: nat)
    ensures n == |Filter(progress, (p: ProgressRow) => IsSolvedTest(p, userId, section, subsection, firstTryOnly))|
  {
    Count(progress, (p: ProgressRow) => IsSolvedTest(p, userId, section, subsection, firstTryOnly))
  }

  /** Exercises solved on the first try are among the solved ones. */
  lemma FirstTryWithinSolved(progress: seq<ProgressRow>, userId: int, section: string, subsection: string)
    ensures CountSuccessTesting(progress, userId, section, subsection, true)
            <= CountSuccessTesting(progress, userId, section, subsection, false)
  {
    CountImplies(progress, (p: ProgressRow) => IsSolvedTest(p, userId, section, subsection, true),
                 (p: ProgressRow) => IsSolvedTest(p, userId, section, subsection, false));
  }

  /** count_testing_exercises_total: the size of the subsection in the testing catalogue. */
  function CountTestingExercisesTotal(exercises: seq<TestingExercise>, section: string, subsection: string): (n: nat)
    ensures n == |Filter(exercises, (e: TestingExercise) => e.section == section && e.subsection == subsection)|
  {
    Count(exercises, (e: TestingExercise) => e.section == section && e.subsection == subsection)
  }

  /** A record of the user and type dated within [start, end], both ends included. */
  predicate InInterval(p: ProgressRow, userId: int, exerciseType: string, start: int, end: int)
  {
    p.exerciseType == exerciseType && start <= p.date <= end && p.userId == userId
  }

  /** count_by_type_in_interval. */
  function CountByTypeInInterval(progress: seq<ProgressRow>, userId: int, exerciseType: string, start: int, end: int)
    : (n: nat)
    ensures n == |Filter(progress, (p: ProgressRow) => InInterval(p, userId, exerciseType, start, end))|
    ensures end < start ==> n == 0
  {
    if end < start then
      FilterNone(progress, (p: ProgressRow) => InInterval(p, userId, exerciseType, start, end));
      0
    else
      Count(progress, (p: ProgressRow) => InInterval(p, userId, exerciseType, start, end))
  }

  /** A window that contains another counts at least as many records. */
  lemma IntervalMonotone(progress: seq<ProgressRow>, userId: int, exerciseType: string,
                         start: int, end: int, start': int, end': int)
    requires start' <= start && end <= end'
    ensures CountByTypeInInterval(progress, userId, exerciseType, start, end)
            <= CountByTypeInInterval(progress, userId, exerciseType, start', end')
  {
    if start <= end {
      CountImplies(progress, (p: ProgressRow) => InInterval(p, userId, exerciseType, start, end),
                   (p: ProgressRow) => InInterval(p, userId, exerciseType, start', end'));
    }
  }

  /** count_users_with_points_greater: users with strictly more points. */
  function CountUsersWithPointsGreater(users: seq<User>, points: int): (n: nat)
    ensures n == |Filter(users, (u: User) => u.points > points)|
    ensures n <= TotalUsers(users)
  {
    Count(users, (u: User) => u.points > points)
  }

  /** Raising the threshold never raises the count. */
  lemma PointsGreaterAntitone(users: seq<User>, p: int, q: int)
    requires p <= q
    ensures CountUsersWithPointsGreater(users, q) <= CountUsersWithPointsGreater(users, p)
  {
    CountImplies(users, (u: User) => u.points > q, (u: User) => u.points > p);
  }

  /** total_users. */
  function TotalUsers(users: seq<User>): (n: nat)
    ensures n == Count(users, (u: User) => true)
  {
    FilterAll(users, (u: User) => true);
    |users|
  }

  /** One row of list_users_ordered_by_points. */
  datatype Standing = Standing(id: int, userId: int, fullName: string, tgLogin: string, points: int)

  function StandingOf(u: User): Standing
  {
    Standing(u.id, u.userId, u.fullName, u.tgLogin, u.points)
  }

  /** list_users_ordered_by_points: every user once, most points first. */
  function ListUsersOrderedByPoints(users: seq<User>): (r: seq<Standing>)
    ensures |r| == |users|
    ensures multiset(r) == multiset(Project(users, StandingOf))
    ensures forall i, j :: 0 <= i < j < |r| ==> r[i].points >= r[j].points
  {
    var r := SortBy(Project(users, StandingOf), (s: Standing) => -s.points);
    assert forall i, j :: 0 <= i < j < |r| ==> r[i].points >= r[j].points by {
      forall i, j | 0 <= i < j < |r| ensures r[i].points >= r[j].points {
        assert (-r[i].points) <= (-r[j].points);
      }
    }
    r
  }

  class UserProgressRepository {
    const db: Database

    constructor (db: Database)
      ensures this.db == db
    {
      this.db := db;
    }

    /** update_progress_attempt: returns how many records it updated. */
    method UpdateProgressAttempt(userId: int, exerciseType: string, section: string, subsection: string,
                                 exerciseId: int, success: bool, today: int) returns (rowcount: nat)
      modifies db`progress
      ensures rowcount == MatchingAttempts(old(db.progress), userId, exerciseType, section, subsection, exerciseId)
      ensures db.progress == AttemptRecorded(old(db.progress), userId, exerciseType, section, subsection, exerciseId,
                                             success, today)
    {
      rowcount := MatchingAttempts(db.progress, userId, exerciseType, section, subsection, exerciseId);
      db.progress := AttemptRecorded(db.progress, userId, exerciseType, section, subsection, exerciseId, success, today);
    }

    /** add_progress_entry. */
    method AddProgressEntry(entry: ProgressRow)
      modifies db`progress
      ensures db.progress == old(db.progress) + [entry]
    {
      db.progress := db.progress + [entry];
    }

    /** update_user_points. */
    method UpdateUserPoints(userId: int, delta: int)
      modifies db`users
      ensures db.users == AddPoints(old(db.users), userId, delta)
    {
      db.users := AddPoints(db.users, userId, delta);
    }

    /** delete_progress_by_subsection: removes the user's records of the subsection, of every type. */
    method DeleteProgressBySubsection(userId: int, section: string, subsection: string)
      modifies db`progress
      ensures db.progress == DeleteWhere(old(db.progress), (p: ProgressRow) => InSubsection(p, userId, section, subsection))
      ensures forall p :: p in db.progress <==> p in old(db.progress) && !InSubsection(p, userId, section, subsection)
    {
      db.progress := DeleteWhere(db.progress, (p: ProgressRow) => InSubsection(p, userId, section, subsection));
    }
  }
}
