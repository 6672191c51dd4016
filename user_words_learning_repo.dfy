/** db/repositories/user_words_learning.py: the queries over a user's learning records, the
    catalogue words they join to, and the writes that enrol words and record reviews. */
module WordsLearningRepo {
  import opened Wrappers
  import opened Tables
  import opened Db
  import Text

  // ─────────────────────────────── READ ──────────────────────────────── //

  predicate IsDue(r: LearningRow, userId: int, today: int)
  {
    r.userId == userId && r.nextReviewDate <= today
  }

  /** words_to_learn_today: the user's records whose review date has come. */
  function WordsToLearnToday(learning: seq<LearningRow>, userId: int, today: int): (r: seq<LearningRow>)
    ensures forall x :: x in r <==> x in learning && x.userId == userId && x.nextReviewDate <= today
  {
    Filter(learning, (x: LearningRow) => IsDue(x, userId, today))
  }

  /** all_words_by_section_subsection: the user's records in one subsection of one section. */
  function AllWordsBySectionSubsection(learning: seq<LearningRow>, userId: int, section: string, subsection: string)
    : (r: seq<LearningRow>)
    ensures forall x :: x in r <==> x in learning && x.userId == userId && x.section == section && x.subsection == subsection
  {
    Filter(learning, (x: LearningRow) => x.userId == userId && x.section == section && x.subsection == subsection)
  }

  /** all_words_by_user: every record of the user. */
  function AllWordsByUser(learning: seq<LearningRow>, userId: int): (r: seq<LearningRow>)
    ensures forall x :: x in r <==> x in learning && x.userId == userId
  {
    Filter(learning, (x: LearningRow) => x.userId == userId)
  }

  /** count_all_by_user. */
  function CountAllByUser(learning: seq<LearningRow>, userId: int): (n: nat)
    ensures n == |AllWordsByUser(learning, userId)|
  {
    Count(learning, (x: LearningRow) => x.userId == userId)
  }

  /** count_all_today_by_user: the size of the due set. */
  function CountAllTodayByUser(learning: seq<LearningRow>, userId: int, today: int): (n: nat)
    ensures n == |WordsToLearnToday(learning, userId, today)|
    ensures n <= CountAllByUser(learning, userId)
  {
    CountImplies(learning, (x: LearningRow) => IsDue(x, userId, today), (x: LearningRow) => x.userId == userId);
    Count(learning, (x: LearningRow) => IsDue(x, userId, today))
  }

  /** count_active_learning: the user's records with at most `activeRate` successes. */
  function CountActiveLearning(learning: seq<LearningRow>, userId: int, activeRate: int): (n: nat)
    ensures n == |Filter(learning, (x: LearningRow) => x.userId == userId && x.success <= activeRate)|
  {
    Count(learning, (x: LearningRow) => x.userId == userId && x.success <= activeRate)
  }

  /** count_learned: the user's records with at least `learnedRate` successes. */
  function CountLearned(learning: seq<LearningRow>, userId: int, learnedRate: int): (n: nat)
    ensures n == |Filter(learning, (x: LearningRow) => x.userId == userId && x.success >= learnedRate)|
  {
    Count(learning, (x: LearningRow) => x.userId == userId && x.success >= learnedRate)
  }

  /** When the learned threshold lies above the active one, no record is both, so the two counts
      together never exceed the user's number of records. */
  lemma ActiveAndLearnedWithinTotal(learning: seq<LearningRow>, userId: int, activeRate: int, learnedRate: int)
    requires activeRate < learnedRate
    ensures CountActiveLearning(learning, userId, activeRate) + CountLearned(learning, userId, learnedRate)
         <= CountAllByUser(learning, userId)
  {
    CountDisjoint(learning,
      (x: LearningRow) => x.userId == userId && x.success <= activeRate,
      (x: LearningRow) => x.userId == userId && x.success >= learnedRate,
      (x: LearningRow) => x.userId == userId);
  }

  /** distinct_subsections: each subsection the user has records in, once. */
  function DistinctSubsections(learning: seq<LearningRow>, userId: int): (r: seq<string>)
    ensures NoDuplicates(r)
    ensures forall k :: k in r <==> exists x :: x in learning && x.userId == userId && x.subsection == k
  {
    var mine := AllWordsByUser(learning, userId);
    var names := Project(mine, (x: LearningRow) => x.subsection);
    assert forall k :: k in names <==> exists x :: x in mine && x.subsection == k by {
      forall k ensures k in names <==> exists x :: x in mine && x.subsection == k {
        if k in names {
          var i :| 0 <= i < |names| && names[i] == k;
          assert mine[i] in mine;
        }
        if exists x :: x in mine && x.subsection == k {
          var x :| x in mine && x.subsection == k;
          var i :| 0 <= i < |mine| && mine[i] == x;
          assert names[i] == k;
        }
      }
    }
    Distinct(names)
  }

  /** The user's records in a subsection (of any section): the rows the per-subsection
      statistics count over. */
  function InSubsection(learning: seq<LearningRow>, userId: int, subsection: string): (r: seq<LearningRow>)
    ensures forall x :: x in r <==> x in learning && x.userId == userId && x.subsection == subsection
  {
    Filter(learning, (x: LearningRow) => x.userId == userId && x.subsection == subsection)
  }

  /** count_learned_in_subsection. */
  function CountLearnedInSubsection(learning: seq<LearningRow>, userId: int, subsection: string, learnedRate: int): (n: nat)
    ensures n == |Filter(InSubsection(learning, userId, subsection), (x: LearningRow) => x.success >= learnedRate)|
  {
    Count(InSubsection(learning, userId, subsection), (x: LearningRow) => x.success >= learnedRate)
  }

  /** count_active_in_subsection. */
  function CountActiveInSubsection(learning: seq<LearningRow>, userId: int, subsection: string, activeRate: int): (n: nat)
    ensures n == |Filter(InSubsection(learning, userId, subsection), (x: LearningRow) => x.success <= activeRate)|
  {
    Count(InSubsection(learning, userId, subsection), (x: LearningRow) => x.success <= activeRate)
  }

  /** count_today_in_subsection. */
  function CountTodayInSubsection(learning: seq<LearningRow>, userId: int, subsection: string, today: int): (n: nat)
    ensures n == |Filter(InSubsection(learning, userId, subsection), (x: LearningRow) => x.nextReviewDate <= today)|
  {
    Count(InSubsection(learning, userId, subsection), (x: LearningRow) => x.nextReviewDate <= today)
  }

  /** count_total_in_subsection. */
  function CountTotalInSubsection(learning: seq<LearningRow>, userId: int, subsection: string): (n: nat)
    ensures n == |InSubsection(learning, userId, subsection)|
  {
    Count(learning, (x: LearningRow) => x.userId == userId && x.subsection == subsection)
  }

  /** sum_success_in_subsection, 0 when there are no rows. */
  function SumSuccessInSubsection(learning: seq<LearningRow>, userId: int, subsection: string): (total: int)
    ensures InSubsection(learning, userId, subsection) == [] ==> total == 0
    ensures total >= 0
  {
    Sum(InSubsection(learning, userId, subsection), (x: LearningRow) => x.success)
  }

  /** sum_attempts_in_subsection, 0 when there are no rows. */
  function SumAttemptsInSubsection(learning: seq<LearningRow>, userId: int, subsection: string): (total: int)
    ensures InSubsection(learning, userId, subsection) == [] ==> total == 0
    ensures total >= 0
  {
    Sum(InSubsection(learning, userId, subsection), (x: LearningRow) => x.attempts)
  }

  predicate IsRecord(r: LearningRow, userId: int, section: string, subsection: string, exerciseId: int)
  {
    r.userId == userId && r.section == section && r.subsection == subsection && r.exerciseId == exerciseId
  }

  /** learning_info: the first record matching all four key fields, or None. */
  function LearningInfo(learning: seq<LearningRow>, userId: int, section: string, subsection: string, exerciseId: int)
    : (r: Option<LearningRow>)
    ensures r.None? <==> forall x :: x in learning ==> !IsRecord(x, userId, section, subsection, exerciseId)
    ensures r.Some? ==> r.value in learning && IsRecord(r.value, userId, section, subsection, exerciseId)
  {
    First(learning, (x: LearningRow) => IsRecord(x, userId, section, subsection, exerciseId))
  }

  /** The catalogue word a record joins to (`UserWordsLearning.new_word`): the first word with
      the record's section, subsection and id. */
  function WordOf(catalogue: seq<NewWord>, r: LearningRow): (w: Option<NewWord>)
    ensures w.Some? ==> (w.value in catalogue && w.value.section == r.section
                         && w.value.subsection == r.subsection && w.value.id == r.exerciseId)
    ensures w.None? ==> forall v :: v in catalogue ==>
      !(v.section == r.section && v.subsection == r.subsection && v.id == r.exerciseId)
  {
    First(catalogue, (v: NewWord) => v.section == r.section && v.subsection == r.subsection && v.id == r.exerciseId)
  }

  /** The joined words of a list of records, or None when some record has no word (reading
      `new_word.russian` of such a record raises). */
  function JoinWords(catalogue: seq<NewWord>, rows: seq<LearningRow>): (r: Option<seq<NewWord>>)
    ensures r.Some? ==> |r.value| == |rows|
    ensures r.Some? ==> forall i :: 0 <= i < |rows| ==> WordOf(catalogue, rows[i]) == Some(r.value[i])
    ensures r.None? ==> exists i :: 0 <= i < |rows| && WordOf(catalogue, rows[i]).None?
  {
    if rows == [] then Some([])
    else
      match WordOf(catalogue, rows[0])
      case None => None
      case Some(w) =>
        match JoinWords(catalogue, rows[1..])
        case None => None
        case Some(ws) => Some([w] + ws)
  }

  /** list_new_words: the catalogue words of a subsection, ordered by id. */
  function ListNewWords(catalogue: seq<NewWord>, section: string, subsection: string): (r: seq<NewWord>)
    ensures SortedBy(r, (w: NewWord) => w.id)
    ensures multiset(r) == multiset(Filter(catalogue, (w: NewWord) => w.section == section && w.subsection == subsection))
  {
    SortBy(Filter(catalogue, (w: NewWord) => w.section == section && w.subsection == subsection), (w: NewWord) => w.id)
  }

  /** A personal word of the user: filed under section = subsection = str(user_id). */
  predicate IsPersonalWord(w: NewWord, userId: int)
  {
    w.section == Text.IntToString(userId) && w.subsection == Text.IntToString(userId)
  }

  /** max_custom_word_id: the largest id among the user's personal words (filed under
      section = subsection = str(user_id)), 0 when there are none. */
  function MaxCustomWordId(catalogue: seq<NewWord>, userId: int): (m: int)
    ensures forall w :: IsPersonalWord(w, userId) && w in catalogue ==> w.id <= m
    ensures (forall w :: w in catalogue ==> !IsPersonalWord(w, userId)) ==> m == 0
    ensures (exists w :: w in catalogue && IsPersonalWord(w, userId))
            ==> exists w :: w in catalogue && IsPersonalWord(w, userId) && w.id == m
  {
    var personal := Filter(catalogue, (w: NewWord) => IsPersonalWord(w, userId));
    assert personal == [] ==> forall w :: w in catalogue ==> !IsPersonalWord(w, userId);
    MaxKey(personal, (w: NewWord) => w.id)
  }

  // ────────────────────────────── WRITE ──────────────────────────────── //

  predicate IsWord(r: LearningRow, section: string, subsection: string, exerciseId: int)
  {
    r.section == section && r.subsection == subsection && r.exerciseId == exerciseId
  }

  /** A reviewed record: success and review date set, one more attempt. */
  function Reviewed(r: LearningRow, successValue: nat, nextReviewDate: int): (reviewed: LearningRow)
    ensures reviewed.userId == r.userId && reviewed.section == r.section && reviewed.subsection == r.subsection
            && reviewed.exerciseId == r.exerciseId
    ensures reviewed.success == successValue && reviewed.nextReviewDate == nextReviewDate
            && reviewed.attempts == r.attempts + 1
  {
    r.(success := successValue, nextReviewDate := nextReviewDate, attempts := r.attempts + 1)
  }

  /** The table after update_learning_progress AS WRITTEN: every record of the word, whoever
      it belongs to, is reviewed. */
  function ProgressUpdated(learning: seq<LearningRow>, section: string, subsection: string, exerciseId: int,
                           successValue: nat, nextReviewDate: int): (r: seq<LearningRow>)
    ensures |r| == |learning|
    ensures forall i :: 0 <= i < |learning| ==>
      r[i] == if IsWord(learning[i], section, subsection, exerciseId)
              then Reviewed(learning[i], successValue, nextReviewDate) else learning[i]
  {
    UpdateWhere(learning, (x: LearningRow) => IsWord(x, section, subsection, exerciseId),
                (x: LearningRow) => Reviewed(x, successValue, nextReviewDate))
  }

  /** The table after the corrected update, which also filters on the user. */
  function ProgressUpdatedForUser(learning: seq<LearningRow>, userId: int, section: string, subsection: string,
                                  exerciseId: int, successValue: nat, nextReviewDate: int): (r: seq<LearningRow>)
    ensures |r| == |learning|
    ensures forall i :: 0 <= i < |learning| ==>
      r[i] == if IsRecord(learning[i], userId, section, subsection, exerciseId)
              then Reviewed(learning[i], successValue, nextReviewDate) else learning[i]
  {
    UpdateWhere(learning, (x: LearningRow) => IsRecord(x, userId, section, subsection, exerciseId),
                (x: LearningRow) => Reviewed(x, successValue, nextReviewDate))
  }

  /** Every record has at most as many successes as attempts. */
  ghost predicate Consistent(learning: seq<LearningRow>)
  {
    forall i :: 0 <= i < |learning| ==> learning[i].success <= learning[i].attempts
  }

  /** As written, the update reaches other users' records. Two users learn the same word and
      user 1 answers wrongly on day 10, the path of set_progress that reaches the update: user 1's
      success count 3 and tomorrow's date are written into user 2's record too, which ends with
      more successes than attempts. */
  lemma ProgressUpdatedReachesOtherUsers()
    ensures var before := [LearningRow(1, "A", "B", 7, 3, 5, 10), LearningRow(2, "A", "B", 7, 0, 0, 10)];
      var after := ProgressUpdated(before, "A", "B", 7, before[0].success, 10 + 1);
      after[1] != before[1] && after[1].userId == 2 && Consistent(before) && !Consistent(after)
  {
    var before := [LearningRow(1, "A", "B", 7, 3, 5, 10), LearningRow(2, "A", "B", 7, 0, 0, 10)];
    var after := ProgressUpdated(before, "A", "B", 7, before[0].success, 10 + 1);
    assert after[1] == LearningRow(2, "A", "B", 7, 3, 1, 11);
  }

  /** The corrected update touches the given user's records of that word only. */
  lemma ProgressUpdatedForUserKeepsOthers(learning: seq<LearningRow>, userId: int, section: string,
                                          subsection: string, exerciseId: int, successValue: nat, date: int, i: int)
    requires 0 <= i < |learning| && learning[i].userId != userId
    ensures ProgressUpdatedForUser(learning, userId, section, subsection, exerciseId, successValue, date)[i] == learning[i]
  {
  }

  /** The corrected update keeps every record consistent when the new success count is at most
      the new attempt count of each record it touches. */
  lemma ProgressUpdatedForUserConsistent(learning: seq<LearningRow>, userId: int, section: string,
                                         subsection: string, exerciseId: int, successValue: nat, date: int)
    requires Consistent(learning)
    requires forall i :: 0 <= i < |learning| && IsRecord(learning[i], userId, section, subsection, exerciseId)
               ==> successValue <= learning[i].attempts + 1
    ensures Consistent(ProgressUpdatedForUser(learning, userId, section, subsection, exerciseId, successValue, date))
  {
  }

  /** After the corrected update, learning_info finds the record it found before, reviewed. */
  lemma {:induction false} LearningInfoAfterUpdate(learning: seq<LearningRow>, userId: int, section: string,
                                                   subsection: string, exerciseId: int, successValue: nat, date: int)
    requires LearningInfo(learning, userId, section, subsection, exerciseId).Some?
    ensures LearningInfo(ProgressUpdatedForUser(learning, userId, section, subsection, exerciseId, successValue, date),
                         userId, section, subsection, exerciseId)
         == Some(Reviewed(LearningInfo(learning, userId, section, subsection, exerciseId).value, successValue, date))
  {
    var after := ProgressUpdatedForUser(learning, userId, section, subsection, exerciseId, successValue, date);
    assert after[1..] == ProgressUpdatedForUser(learning[1..], userId, section, subsection, exerciseId, successValue, date);
    if !IsRecord(learning[0], userId, section, subsection, exerciseId) {
      assert after[0] == learning[0];
      LearningInfoAfterUpdate(learning[1..], userId, section, subsection, exerciseId, successValue, date);
    }
  }

  class UserWordsLearningRepository {
    const db: Database

    constructor (db: Database)
      ensures this.db == db
    {
      this.db := db;
    }

    /** update_user_points. */
    method UpdateUserPoints(userId: int, delta: int)
      modifies db`users
      ensures db.users == AddPoints(old(db.users), userId, delta)
    {
      db.users := AddPoints(db.users, userId, delta);
    }

    /** update_learning_progress, as written: no filter on the user. */
    method UpdateLearningProgress(section: string, subsection: string, exerciseId: int,
                                  successValue: nat, nextReviewDate: int)
      modifies db`learning
      ensures db.learning == ProgressUpdated(old(db.learning), section, subsection, exerciseId, successValue, nextReviewDate)
    {
      db.learning := ProgressUpdated(db.learning, section, subsection, exerciseId, successValue, nextReviewDate);
    }

    /** update_learning_progress, corrected to update the answering user's record only. */
    method UpdateLearningProgressForUser(userId: int, section: string, subsection: string, exerciseId: int,
                                         successValue: nat, nextReviewDate: int)
      modifies db`learning
      ensures db.learning == ProgressUpdatedForUser(old(db.learning), userId, section, subsection, exerciseId,
                                                    successValue, nextReviewDate)
    {
      db.learning := ProgressUpdatedForUser(db.learning, userId, section, subsection, exerciseId,
                                            successValue, nextReviewDate);
    }

    /** add_user_words_learning_entries. */
    method AddUserWordsLearningEntries(entries: seq<LearningRow>)
      modifies db`learning
      ensures db.learning == old(db.learning) + entries
    {
      db.learning := db.learning + entries;
    }

    /** add_user_words_learning_entry. */
    method AddUserWordsLearningEntry(entry: LearningRow)
      modifies db`learning
      ensures db.learning == old(db.learning) + [entry]
    {
      db.learning := db.learning + [entry];
    }

    /** add_new_word. */
    method AddNewWord(word: NewWord)
      modifies db`newWords
      ensures db.newWords == old(db.newWords) + [word]
    {
      db.newWords := db.newWords + [word];
    }
  }
}
