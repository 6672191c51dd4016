/** services/user.py: registering users (an upsert keyed by Telegram id) and their settings. */
module Users {
  import opened Wrappers
  import opened Tables
  import opened Db
  import opened UserRepo

  /** The primary key the database gives a new row: one more than the largest so far. */
  function NextUserId(users: seq<User>): (id: int)
    ensures forall u :: u in users ==> u.id < id
  {
    MaxKey(users, (u: User) => u.id) + 1
  }

  /** The row add_user inserts for an unknown Telegram id: no reminder time, no time zone. */
  function Registered(users: seq<User>, userId: int, fullName: string, tgLogin: string, utcNow: int): (u: User)
    ensures u.userId == userId && u.fullName == fullName && u.tgLogin == tgLogin
    ensures u.registrationDate == utcNow && u.points == DefaultPoints
    ensures u.reminderTime == None && u.timeZone == None
    ensures forall v :: v in users ==> v.id < u.id
  {
    User(NextUserId(users), userId, fullName, tgLogin, utcNow, DefaultPoints, None, None)
  }

  /** The table after add_user, or None when the lookup raises because the Telegram id is duplicated. */
  function UserAdded(users: seq<User>, userId: int, fullName: string, tgLogin: string, utcNow: int): (r: Option<seq<User>>)
    ensures r.None? <==> GetByUserId(users, userId).Ambiguous?
    ensures GetByUserId(users, userId).NoMatch? ==> r == Some(users + [Registered(users, userId, fullName, tgLogin, utcNow)])
    ensures GetByUserId(users, userId).Match? ==> r.Some? && |r.value| == |users|
    ensures (GetByUserId(users, userId).Match?
             && GetByUserId(users, userId).value.fullName == fullName
             && GetByUserId(users, userId).value.tgLogin == tgLogin) ==> r == Some(users)
  {
    match GetByUserId(users, userId)
    case Ambiguous => None
    case NoMatch => Some(users + [Registered(users, userId, fullName, tgLogin, utcNow)])
    case Match(existing) =>
      if existing.fullName != fullName || existing.tgLogin != tgLogin
      then Some(BasicInfoUpdated(users, existing, fullName, tgLogin))
      else Some(users)
  }

  /** After add_user the Telegram id names exactly one row, and it carries the given name and login. */
  lemma UserAddedReadsBack(users: seq<User>, userId: int, fullName: string, tgLogin: string, utcNow: int)
    requires UserAdded(users, userId, fullName, tgLogin, utcNow).Some?
    ensures var after := UserAdded(users, userId, fullName, tgLogin, utcNow).value;
      GetByUserId(after, userId).Match?
      && GetByUserId(after, userId).value.fullName == fullName
      && GetByUserId(after, userId).value.tgLogin == tgLogin
  {
    var p := ByUserId(userId);
    var after := UserAdded(users, userId, fullName, tgLogin, utcNow).value;
    match GetByUserId(users, userId)
    case NoMatch =>
      var added := Registered(users, userId, fullName, tgLogin, utcNow);
      FilterAppend(users, [added], p);
      assert Filter(after, p) == [added];
    case Match(existing) =>
      if existing.fullName != fullName || existing.tgLogin != tgLogin {
        var q := (u: User) => u.id == existing.id;
        var f := (u: User) => u.(fullName := fullName, tgLogin := tgLogin);
        assert after == UpdateWhere(users, q, f);
        FilterUpdateWhere(users, p, q, f);
        assert Filter(after, p) == [f(existing)];
      }
  }

  /** add_user is idempotent: repeating it with the same arguments writes nothing more. */
  lemma AddUserIdempotent(users: seq<User>, userId: int, fullName: string, tgLogin: string, utcNow: int, later: int)
    requires UserAdded(users, userId, fullName, tgLogin, utcNow).Some?
    ensures var once := UserAdded(users, userId, fullName, tgLogin, utcNow).value;
      UserAdded(once, userId, fullName, tgLogin, later) == Some(once)
  {
    UserAddedReadsBack(users, userId, fullName, tgLogin, utcNow);
  }

  class UserService {
    const repo: UserRepository

    constructor (repo: UserRepository)
      ensures this.repo == repo
    {
      this.repo := repo;
    }

    /** add_user: update the name and login of a known user when they differ, register an unknown one;
        `raised` when the lookup finds the Telegram id twice. */
    method AddUser(userId: int, fullName: string, tgLogin: string, utcNow: int) returns (raised: bool)
      modifies repo.db`users
      ensures raised <==> UserAdded(old(repo.db.users), userId, fullName, tgLogin, utcNow).None?
      ensures !raised ==> repo.db.users == UserAdded(old(repo.db.users), userId, fullName, tgLogin, utcNow).value
      ensures raised ==> repo.db.users == old(repo.db.users)
    {
      raised := false;
      match GetByUserId(repo.db.users, userId)
      case Ambiguous =>
        raised := true;
      case Match(existing) =>
        if existing.fullName != fullName || existing.tgLogin != tgLogin {
          var _ := repo.UpdateBasicInfo(existing, fullName, tgLogin);
        }
      case NoMatch =>
        repo.Add(Registered(repo.db.users, userId, fullName, tgLogin, utcNow));
    }

    /** delete_user. */
    method DeleteUser(userId: int)
      modifies repo.db`users
      ensures forall u :: u in repo.db.users <==> u in old(repo.db.users) && u.userId != userId
    {
      repo.DeleteByUserId(userId);
    }

    /** set_timezone: the user's row reads back with the new time zone. */
    method SetTimezone(userId: int, timeZone: Option<string>)
      modifies repo.db`users
      ensures repo.db.users == TimezoneSet(old(repo.db.users), userId, timeZone)
      ensures old(GetByUserId(repo.db.users, userId)).Match? ==>
        GetByUserId(repo.db.users, userId) == Match(old(GetByUserId(repo.db.users, userId)).value.(timeZone := timeZone))
    {
      TimezoneReadsBack(repo.db.users, userId, timeZone);
      repo.SetTimezone(userId, timeZone);
    }

    /** set_reminder_time: the user's row reads back with the new reminder time. */
    method SetReminderTime(userId: int, reminderTime: Option<string>)
      modifies repo.db`users
      ensures repo.db.users == ReminderTimeSet(old(repo.db.users), userId, reminderTime)
      ensures old(GetByUserId(repo.db.users, userId)).Match? ==>
        GetByUserId(repo.db.users, userId) == Match(old(GetByUserId(repo.db.users, userId)).value.(reminderTime := reminderTime))
    {
      ReminderTimeReadsBack(repo.db.users, userId, reminderTime);
      repo.SetReminderTime(userId, reminderTime);
    }

    /** get_all_users: every user once, ordered by primary key. */
    method GetAllUsers() returns (all: seq<User>)
      ensures multiset(all) == multiset(repo.db.users)
      ensures forall i, j :: 0 <= i < j < |all| ==> all[i].id <= all[j].id
    {
      all := ListAll(repo.db.users);
    }

    /** get_user: the user's row, None for an unknown Telegram id; `raised` when it is duplicated. */
    method GetUser(userId: int) returns (user: Option<User>, raised: bool)
      ensures (user.None? && !raised) <==> forall u :: u in repo.db.users ==> u.userId != userId
      ensures user.Some? ==> !raised && user.value in repo.db.users && user.value.userId == userId
      ensures raised <==> Count(repo.db.users, ByUserId(userId)) >= 2
    {
      match GetByUserId(repo.db.users, userId)
      case NoMatch =>
        user, raised := None, false;
      case Match(u) =>
        user, raised := Some(u), false;
      case Ambiguous =>
        user, raised := None, true;
    }
  }
}
