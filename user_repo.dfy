/** db/repositories/user.py: the table of bot users, keyed by Telegram id. */
module UserRepo {
  import opened Wrappers
  import opened Tables
  import opened Db

  /** The WHERE user_id = userId condition, one value so every query shares it. */
  function ByUserId(userId: int): (p: User -> bool)
    ensures forall u :: p(u) <==> u.userId == userId
  {
    (u: User) => u.userId == userId
  }

  /** get_by_user_id: `scalar_one_or_none()` on the rows with that Telegram id. */
  function GetByUserId(users: seq<User>, userId: int): (r: Unique<User>)
    ensures r.NoMatch? <==> forall u :: u in users ==> u.userId != userId
    ensures r.Match? ==> r.value in users && r.value.userId == userId
    ensures r.Match? ==> forall u :: u in users && u.userId == userId ==> u == r.value
    ensures r.Ambiguous? <==> Count(users, ByUserId(userId)) >= 2
  {
    var r := One(users, ByUserId(userId));
    assert r.NoMatch? <== forall u :: u in users ==> u.userId != userId by {
      if r.Match? {
        assert r.value in users;
      }
      if r.Ambiguous? {
        var f := Filter(users, ByUserId(userId));
        assert f[0] in f;
      }
    }
    r
  }

  /** list_all: every user, ordered by primary key. */
  function ListAll(users: seq<User>): (r: seq<User>)
    ensures SortedBy(r, (u: User) => u.id)
    ensures multiset(r) == multiset(users)
  {
    SortBy(users, (u: User) => u.id)
  }

  /** The table after update_basic_info on a loaded row: the rows with its primary key get the new name and login. */
  function BasicInfoUpdated(users: seq<User>, user: User, fullName: string, tgLogin: string): (r: seq<User>)
    ensures |r| == |users|
    ensures forall i :: 0 <= i < |users| ==>
      r[i] == if users[i].id == user.id then users[i].(fullName := fullName, tgLogin := tgLogin) else users[i]
  {
    UpdateWhere(users, (u: User) => u.id == user.id, (u: User) => u.(fullName := fullName, tgLogin := tgLogin))
  }

  /** The table after set_timezone. */
  function TimezoneSet(users: seq<User>, userId: int, timeZone: Option<string>): (r: seq<User>)
    ensures |r| == |users|
    ensures forall i :: 0 <= i < |users| ==>
      r[i] == if users[i].userId == userId then users[i].(timeZone := timeZone) else users[i]
  {
    UpdateWhere(users, ByUserId(userId), (u: User) => u.(timeZone := timeZone))
  }

  /** The table after set_reminder_time. */
  function ReminderTimeSet(users: seq<User>, userId: int, reminderTime: Option<string>): (r: seq<User>)
    ensures |r| == |users|
    ensures forall i :: 0 <= i < |users| ==>
      r[i] == if users[i].userId == userId then users[i].(reminderTime := reminderTime) else users[i]
  {
    UpdateWhere(users, ByUserId(userId), (u: User) => u.(reminderTime := reminderTime))
  }

  /** Looking a user up after set_timezone finds the same row with the new time zone. */
  lemma TimezoneReadsBack(users: seq<User>, userId: int, timeZone: Option<string>)
    ensures GetByUserId(TimezoneSet(users, userId, timeZone), userId) ==
      match GetByUserId(users, userId)
      case NoMatch => NoMatch
      case Match(u) => Match(u.(timeZone := timeZone))
      case Ambiguous => Ambiguous
  {
    var p := ByUserId(userId);
    var f := (u: User) => u.(timeZone := timeZone);
    FilterUpdateWhere(users, p, p, f);
    assert TimezoneSet(users, userId, timeZone) == UpdateWhere(users, p, f);
  }

  /** Looking a user up after set_reminder_time finds the same row with the new reminder time. */
  lemma ReminderTimeReadsBack(users: seq<User>, userId: int, reminderTime: Option<string>)
    ensures GetByUserId(ReminderTimeSet(users, userId, reminderTime), userId) ==
      match GetByUserId(users, userId)
      case NoMatch => NoMatch
      case Match(u) => Match(u.(reminderTime := reminderTime))
      case Ambiguous => Ambiguous
  {
    var p := ByUserId(userId);
    var f := (u: User) => u.(reminderTime := reminderTime);
    FilterUpdateWhere(users, p, p, f);
    assert ReminderTimeSet(users, userId, reminderTime) == UpdateWhere(users, p, f);
  }

  class UserRepository {
    const db: Database

    constructor (db: Database)
      ensures this.db == db
    {
      this.db := db;
    }

    /** add. */
    method Add(user: User)
      modifies db`users
      ensures db.users == old(db.users) + [user]
    {
      db.users := db.users + [user];
    }

    /** update_basic_info: the loaded row gets the new name and login and is stored again by primary key. */
    method UpdateBasicInfo(user: User, fullName: string, tgLogin: string) returns (stored: User)
      modifies db`users
      ensures stored == user.(fullName := fullName, tgLogin := tgLogin)
      ensures db.users == BasicInfoUpdated(old(db.users), user, fullName, tgLogin)
    {
      stored := user.(fullName := fullName, tgLogin := tgLogin);
      db.users := BasicInfoUpdated(db.users, user, fullName, tgLogin);
    }

    /** delete_by_user_id. */
    method DeleteByUserId(userId: int)
      modifies db`users
      ensures db.users == DeleteWhere(old(db.users), ByUserId(userId))
      ensures forall u :: u in db.users <==> u in old(db.users) && u.userId != userId
    {
      db.users := DeleteWhere(db.users, ByUserId(userId));
    }

    /** set_timezone. */
    method SetTimezone(userId: int, timeZone: Option<string>)
      modifies db`users
      ensures db.users == TimezoneSet(old(db.users), userId, timeZone)
    {
      db.users := TimezoneSet(db.users, userId, timeZone);
    }

    /** set_reminder_time. */
    method SetReminderTime(userId: int, reminderTime: Option<string>)
      modifies db`users
      ensures db.users == ReminderTimeSet(old(db.users), userId, reminderTime)
    {
      db.users := ReminderTimeSet(db.users, userId, reminderTime);
    }
  }
}
