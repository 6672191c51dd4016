/** The rows of the bot's database and the database itself. Each table is a sequence of rows
    in insertion order; every repository works on the same Database, as the SQL repositories
    share one database. Defaults that the ORM models supply are written out as constants. */
module Db {
  import opened Wrappers
  import Tables

  /** A bot user; `id` is the surrogate primary key, `userId` the Telegram id. */
  datatype User = User(
    id: int,
    userId: int,
    fullName: string,
    tgLogin: string,
    registrationDate: int,
    points: int,
    reminderTime: Option<string>,
    timeZone: Option<string>)

  /** A catalogue word, keyed by (section, subsection, id). */
  datatype NewWord = NewWord(section: string, subsection: string, id: int, russian: string, english: string)

  /** A user's learning record for one catalogue word. */
  datatype LearningRow = LearningRow(
    userId: int,
    section: string,
    subsection: string,
    exerciseId: int,
    success: nat,
    attempts: nat,
    nextReviewDate: int)

  /** A catalogue test sentence with its answer, keyed by (section, subsection, id). */
  datatype TestingExercise = TestingExercise(section: string, subsection: string, id: int, test: string, answer: string)

  /** A user's attempts on one exercise (of a given type). */
  datatype ProgressRow = ProgressRow(
    userId: int,
    exerciseType: string,
    section: string,
    subsection: string,
    exerciseId: int,
    attempts: nat,
    success: bool,
    date: int)

  /** The activity counters of one day. */
  datatype DailyRow = DailyRow(
    date: int,
    totalNewWords: int,
    totalTestingExercises: int,
    totalIrregularVerbs: int,
    newUsers: int)

  /** Points of a freshly inserted user (a database default). */
  const DefaultPoints: int := 0

  /** UPDATE users SET points = points + delta WHERE user_id = userId. */
  function AddPoints(users: seq<User>, userId: int, delta: int): (r: seq<User>)
    ensures |r| == |users|
    ensures forall i :: 0 <= i < |users| ==>
      r[i] == if users[i].userId == userId then users[i].(points := users[i].points + delta) else users[i]
  {
    Tables.UpdateWhere(users, (u: User) => u.userId == userId, (u: User) => u.(points := u.points + delta))
  }

  /** SELECT points FROM users WHERE user_id = userId, `or 0`: 0 for a missing user. */
  function UserPoints(users: seq<User>, userId: int): (p: int)
    ensures (forall u :: u in users ==> u.userId != userId) ==> p == 0
    ensures p != 0 ==> exists u :: u in users && u.userId == userId && u.points == p
  {
    match Tables.First(users, (u: User) => u.userId == userId)
    case None => 0
    case Some(u) => u.points
  }

  /** Adding points to one user leaves every other user's points reading alone. */
  lemma {:induction false} OtherUsersPointsUnchanged(users: seq<User>, userId: int, delta: int, other: int)
    requires other != userId
    ensures UserPoints(AddPoints(users, userId, delta), other) == UserPoints(users, other)
  {
    if users != [] {
      var after := AddPoints(users, userId, delta);
      assert after[1..] == AddPoints(users[1..], userId, delta);
      assert after[0].userId == users[0].userId;
      if users[0].userId != other {
        OtherUsersPointsUnchanged(users[1..], userId, delta, other);
      }
    }
  }

  /** Adding `delta` to a user that is present moves that user's points reading by `delta`. */
  lemma {:induction false} UserPointsMoved(users: seq<User>, userId: int, delta: int, k: int)
    requires 0 <= k < |users| && users[k].userId == userId
    ensures UserPoints(AddPoints(users, userId, delta), userId) == UserPoints(users, userId) + delta
  {
    var after := AddPoints(users, userId, delta);
    assert after[1..] == AddPoints(users[1..], userId, delta);
    assert after[0].userId == users[0].userId;
    if users[0].userId != userId {
      UserPointsMoved(users[1..], userId, delta, k - 1);
    }
  }

  /** Points added to a user who is not in the table change nothing. */
  lemma AddPointsToMissingUser(users: seq<User>, userId: int, delta: int)
    requires forall i :: 0 <= i < |users| ==> users[i].userId != userId
    ensures AddPoints(users, userId, delta) == users
  {
  }

  class Database {
    var users: seq<User>
    var newWords: seq<NewWord>
    var learning: seq<LearningRow>
    var exercises: seq<TestingExercise>
    var progress: seq<ProgressRow>
    var dailyStatistics: seq<DailyRow>

    constructor ()
      ensures users == [] && newWords == [] && learning == []
      ensures exercises == [] && progress == [] && dailyStatistics == []
    {
      users, newWords, learning := [], [], [];
      exercises, progress, dailyStatistics := [], [], [];
    }
  }
}
