/** services/daily_statistics.py: counting the day's activity and reporting sums over a window. */
module DailyStatistics {
  import opened Wrappers
  import opened Tables
  import opened Db
  import opened DailyStatisticsRepo

  /** _TYPE_TO_FIELD: the counter each known update type raises. */
  function TypeToField(updateType: string): (f: Option<Counter>)
    ensures f.Some? <==> updateType in {"new_words", "testing_exercises", "irregular_verbs", "new_user"}
  {
    if updateType == "new_words" then Some(TotalNewWords)
    else if updateType == "testing_exercises" then Some(TotalTestingExercises)
    else if updateType == "irregular_verbs" then Some(TotalIrregularVerbs)
    else if updateType == "new_user" then Some(NewUsers)
    else None
  }

  /** The table after update(updateType) on day `today`; None when the lookup of the day's row
      finds several rows (scalar_one_or_none raises and nothing is written). */
  function Updated(rows: seq<DailyRow>, updateType: string, today: int): Option<seq<DailyRow>>
  {
    match TypeToField(updateType)
    case None => Some(rows)
    case Some(f) =>
      match GetByDate(rows, today)
      case NoMatch => Some(Incremented(rows + [Blank(today)], today, f, 1))
      case Match(_) => Some(Incremented(rows, today, f, 1))
      case Ambiguous => None
  }

  /** An unknown update type changes nothing. */
  lemma UnknownTypeIgnored(rows: seq<DailyRow>, updateType: string, today: int)
    requires updateType !in {"new_words", "testing_exercises", "irregular_verbs", "new_user"}
    ensures Updated(rows, updateType, today) == Some(rows)
  {
  }

  /** An update raises only when the day already has several rows. */
  lemma UpdateFailsOnlyOnDuplicates(rows: seq<DailyRow>, updateType: string, today: int)
    ensures Updated(rows, updateType, today).None?
            <==> TypeToField(updateType).Some? && Count(rows, (x: DailyRow) => x.date == today) >= 2
  {
  }

  /** After a successful update of a known type the day has exactly one row, and over every
      window the update's counter sum grows by one when the window holds the day, with every
      other sum unchanged. */
  lemma UpdateCountsOnce(rows: seq<DailyRow>, updateType: string, today: int, g: Counter, start: int, end: int)
    requires TypeToField(updateType).Some? && Updated(rows, updateType, today).Some?
    ensures var after := Updated(rows, updateType, today).value;
      GetByDate(after, today).Match?
      && WindowSum(after, g, start, end)
         == WindowSum(rows, g, start, end) + (if g == TypeToField(updateType).value && start <= today <= end then 1 else 0)
  {
    var f := TypeToField(updateType).value;
    var sameDay := (x: DailyRow) => x.date == today;
    var base := if GetByDate(rows, today).NoMatch? then rows + [Blank(today)] else rows;
    if GetByDate(rows, today).NoMatch? {
      FilterAppend(rows, [Blank(today)], sameDay);
      assert Filter([Blank(today)], sameDay) == [Blank(today)];
      WindowSumAppend(rows, [Blank(today)], g, start, end);
      assert WindowSum([Blank(today)], g, start, end) == 0;
    }
    assert Count(base, sameDay) == 1;
    var after := Incremented(base, today, f, 1);
    IncrementedWindowSum(base, today, f, 1, g, start, end);
    CountPreserved(base, today, f);
    assert GetByDate(after, today).Match?;
  }

  /** Incrementing keeps every row's date, so the number of rows of the day. */
  lemma {:induction false} CountPreserved(rows: seq<DailyRow>, day: int, f: Counter)
    ensures Count(Incremented(rows, day, f, 1), (x: DailyRow) => x.date == day) == Count(rows, (x: DailyRow) => x.date == day)
  {
    if rows != [] {
      var r := Incremented(rows, day, f, 1);
      assert r[1..] == Incremented(rows[1..], day, f, 1);
      CountPreserved(rows[1..], day, f);
    }
  }

  /** The first update of a day leaves a single row with one in its counter and zero elsewhere. */
  lemma FirstUpdateOfDay(rows: seq<DailyRow>, updateType: string, today: int)
    requires TypeToField(updateType).Some? && Count(rows, (x: DailyRow) => x.date == today) == 0
    ensures var after := Updated(rows, updateType, today).value;
      after[..|rows|] == rows && |after| == |rows| + 1
      && forall g :: Field(after[|rows|], g) == (if g == TypeToField(updateType).value then 1 else 0)
  {
    var f := TypeToField(updateType).value;
    var base := rows + [Blank(today)];
    var after := Incremented(base, today, f, 1);
    forall i | 0 <= i < |rows| ensures after[i] == rows[i] {
      assert base[i] == rows[i];
      assert rows[i] in rows;
    }
    assert after[..|rows|] == rows;
  }

  class DailyStatisticsService {
    const repo: DailyStatisticsRepository

    constructor (repo: DailyStatisticsRepository)
      ensures this.repo == repo
    {
      this.repo := repo;
    }

    /** update: counts one event of a known type on `today`, creating the day's row first when
        there is none; raises (and writes nothing) when the day has several rows. */
    method Update(updateType: string, today: int) returns (raised: bool)
      modifies repo.db`dailyStatistics
      ensures raised <==> Updated(old(repo.db.dailyStatistics), updateType, today).None?
      ensures !raised ==> repo.db.dailyStatistics == Updated(old(repo.db.dailyStatistics), updateType, today).value
      ensures raised ==> repo.db.dailyStatistics == old(repo.db.dailyStatistics)
    {
      raised := false;
      var field := TypeToField(updateType);
      if field.None? {
        return;
      }
      var stats := GetByDate(repo.db.dailyStatistics, today);
      if stats.Ambiguous? {
        raised := true;
        return;
      }
      if stats.NoMatch? {
        var _ := repo.CreateBlankForDate(today);
      }
      repo.IncrementField(today, field.value, 1);
    }

    /** get: the sums over [start, end]. */
    method Get(start: int, end: int) returns (totals: Totals)
      ensures totals == Aggregate(repo.db.dailyStatistics, start, end)
      ensures end < start ==> totals == Totals(0, 0, 0, 0)
    {
      totals := Aggregate(repo.db.dailyStatistics, start, end);
    }
  }
}
