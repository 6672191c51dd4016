/** db/repositories/daily_statistics.py: one row of activity counters per day. */
module DailyStatisticsRepo {
  import opened Wrappers
  import opened Tables
  import opened Db

  /** The four counter columns of a day's row. */
  datatype Counter = TotalNewWords | TotalTestingExercises | TotalIrregularVerbs | NewUsers

  /** getattr(row, field_name). */
  function Field(r: DailyRow, f: Counter): int
  {
    match f
    case TotalNewWords => r.totalNewWords
    case TotalTestingExercises => r.totalTestingExercises
    case TotalIrregularVerbs => r.totalIrregularVerbs
    case NewUsers => r.newUsers
  }

  /** The row with one counter raised by `amount` and the others as they were. */
  function Bump(r: DailyRow, f: Counter, amount: int): (b: DailyRow)
    ensures b.date == r.date
    ensures forall g :: Field(b, g) == if g == f then Field(r, g) + amount else Field(r, g)
  {
    match f
    case TotalNewWords => r.(totalNewWords := r.totalNewWords + amount)
    case TotalTestingExercises => r.(totalTestingExercises := r.totalTestingExercises + amount)
    case TotalIrregularVerbs => r.(totalIrregularVerbs := r.totalIrregularVerbs + amount)
    case NewUsers => r.(newUsers := r.newUsers + amount)
  }

  /** get_by_date through scalar_one_or_none: the day's row, none, or more than one (raises). */
  function GetByDate(rows: seq<DailyRow>, day: int): (r: Unique<DailyRow>)
    ensures r.NoMatch? <==> Count(rows, (x: DailyRow) => x.date == day) == 0
    ensures r.Match? <==> Count(rows, (x: DailyRow) => x.date == day) == 1
    ensures r.Match? ==> r.value in rows && r.value.date == day
  {
    One(rows, (x: DailyRow) => x.date == day)
  }

  /** The row create_blank_for_date inserts: every counter at zero. */
  function Blank(day: int): (r: DailyRow)
    ensures r.date == day && forall f :: Field(r, f) == 0
  {
    DailyRow(day, 0, 0, 0, 0)
  }

  /** The table after increment_field: every row of the day has the counter raised. */
  function Incremented(rows: seq<DailyRow>, day: int, f: Counter, amount: int): (r: seq<DailyRow>)
    ensures |r| == |rows|
    ensures forall i :: 0 <= i < |rows| ==> r[i] == if rows[i].date == day then Bump(rows[i], f, amount) else rows[i]
  {
    UpdateWhere(rows, (x: DailyRow) => x.date == day, (x: DailyRow) => Bump(x, f, amount))
  }

  /** SUM(counter) over the rows dated within [start, end], 0 when there are none. */
  function WindowSum(rows: seq<DailyRow>, f: Counter, start: int, end: int): (total: int)
    ensures end < start ==> total == 0
  {
    if rows == [] then 0
    else (if start <= rows[0].date <= end then Field(rows[0], f) else 0) + WindowSum(rows[1..], f, start, end)
  }

  /** The sums of a table split in two add up. */
  lemma {:induction false} WindowSumAppend(a: seq<DailyRow>, b: seq<DailyRow>, f: Counter, start: int, end: int)
    ensures WindowSum(a + b, f, start, end) == WindowSum(a, f, start, end) + WindowSum(b, f, start, end)
  {
    if a == [] {
      assert a + b == b;
    } else {
      assert (a + b)[1..] == a[1..] + b;
      WindowSumAppend(a[1..], b, f, start, end);
    }
  }

  /** Incrementing a counter of a day raises that counter's sum over a window holding the day by
      the amount for each row of the day, and leaves every other sum alone. */
  lemma {:induction false} IncrementedWindowSum(rows: seq<DailyRow>, day: int, f: Counter, amount: int, g: Counter,
                                                start: int, end: int)
    ensures WindowSum(Incremented(rows, day, f, amount), g, start, end)
            == WindowSum(rows, g, start, end)
               + (if g == f && start <= day <= end then amount * Count(rows, (x: DailyRow) => x.date == day) else 0)
  {
    if rows != [] {
      var r := Incremented(rows, day, f, amount);
      assert r[1..] == Incremented(rows[1..], day, f, amount);
      IncrementedWindowSum(rows[1..], day, f, amount, g, start, end);
      var c := Count(rows[1..], (x: DailyRow) => x.date == day);
      var c0 := Count(rows, (x: DailyRow) => x.date == day);
      var here := if rows[0].date == day then 1 else 0;
      assert c0 == here + c;
      assert amount * c0 == amount * here + amount * c by {
        MulDistributes(amount, here, c);
      }
      assert Field(r[0], g) == Field(rows[0], g) + (if rows[0].date == day && g == f then amount else 0);
    }
  }

  lemma MulDistributes(a: int, b: int, c: int)
    ensures a * (b + c) == a * b + a * c
  {
  }

  /** The four sums aggregate returns. */
  datatype Totals = Totals(testingExercises: int, newWords: int, irregularVerbs: int, newUsers: int)

  /** aggregate: the four sums over the window. */
  function Aggregate(rows: seq<DailyRow>, start: int, end: int): (t: Totals)
    ensures end < start ==> t == Totals(0, 0, 0, 0)
  {
    Totals(WindowSum(rows, TotalTestingExercises, start, end), WindowSum(rows, TotalNewWords, start, end),
           WindowSum(rows, TotalIrregularVerbs, start, end), WindowSum(rows, NewUsers, start, end))
  }

  class DailyStatisticsRepository {
    const db: Database

    constructor (db: Database)
      ensures this.db == db
    {
      this.db := db;
    }

    /** create_blank_for_date. */
    method CreateBlankForDate(day: int) returns (stats: DailyRow)
      modifies db`dailyStatistics
      ensures stats == Blank(day)
      ensures db.dailyStatistics == old(db.dailyStatistics) + [stats]
    {
      stats := Blank(day);
      db.dailyStatistics := db.dailyStatistics + [stats];
    }

    /** increment_field. */
    method IncrementField(day: int, f: Counter, amount: int)
      modifies db`dailyStatistics
      ensures db.dailyStatistics == Incremented(old(db.dailyStatistics), day, f, amount)
    {
      db.dailyStatistics := Incremented(db.dailyStatistics, day, f, amount);
    }
  }
}
